/** Addresses as bytes, and the in-place trie of `controller/trie.go`. */
module Addresses {
  import PrefixTree

  type Bytes = seq<bv8>

  const IPV4_LEN: nat := 4
  const IPV6_LEN: nat := 16
  const V4_IN_V6: Bytes := [0, 0, 0, 0, 0, 0, 0, 0, 0, 0, 0xff, 0xff]

  function ShiftRight(b: bv8, n: nat): bv8
    requires n < 8
  {
    match n
    case 0 => b
    case 1 => b >> 1
    case 2 => b >> 2
    case 3 => b >> 3
    case 4 => b >> 4
    case 5 => b >> 5
    case 6 => b >> 6
    case _ => b >> 7
  }

  // Bit `k` of a byte, the most significant first.
  function BitOf(b: bv8, k: nat): bool
    requires k < 8
  {
    ShiftRight(b, 7 - k) & 1 == 1
  }

  function Bits(ip: Bytes): (bits: PrefixTree.Address)
    ensures |bits| == 8 * |ip|
  {
    seq(8 * |ip|, i requires 0 <= i < 8 * |ip| => BitOf(ip[i / 8], i % 8))
  }

  // The position of the first differing bit of two bytes.
  lemma FirstDifference(a: bv8, b: bv8, k: nat)
    requires k < 8
    requires ShiftRight(a ^ b, 7 - k) != 0
    requires k > 0 ==> ShiftRight(a ^ b, 8 - k) == 0
    ensures BitOf(a, k) != BitOf(b, k)
    ensures forall j :: 0 <= j < k ==> BitOf(a, j) == BitOf(b, j)
  {
    BitDiffers(a, b, k);
    forall j | 0 <= j < k ensures BitOf(a, j) == BitOf(b, j) {
      BitAgrees(a, b, k, j);
    }
  }

  lemma BitDiffers(a: bv8, b: bv8, k: nat)
    requires k < 8
    requires ShiftRight(a ^ b, 7 - k) != 0
    requires k > 0 ==> ShiftRight(a ^ b, 8 - k) == 0
    ensures BitOf(a, k) != BitOf(b, k)
  {
  }

  lemma BitAgrees(a: bv8, b: bv8, k: nat, j: nat)
    requires j < k < 8
    requires ShiftRight(a ^ b, 8 - k) == 0
    ensures BitOf(a, j) == BitOf(b, j)
  {
  }

  // The length of the common prefix, byte by byte and then shift by shift.
  method CommonBits(ip1: Bytes, ip2: Bytes) returns (n: nat)
    requires |ip1| == |ip2|
    ensures n == PrefixTree.CommonBits(Bits(ip1), Bits(ip2))
  {
    var size := |ip1|;
    var i := 0;
    while i < size
      invariant i <= size && ip1[..i] == ip2[..i]
    {
      var v := ip1[i] ^ ip2[i];
      if v != 0 {
        v := v >> 1;
        if v == 0 {
          FirstAt(ip1, ip2, i, 7);
          return i * 8 + 7;
        }
        v := v >> 1;
        if v == 0 {
          FirstAt(ip1, ip2, i, 6);
          return i * 8 + 6;
        }
        v := v >> 1;
        if v == 0 {
          FirstAt(ip1, ip2, i, 5);
          return i * 8 + 5;
        }
        v := v >> 1;
        if v == 0 {
          FirstAt(ip1, ip2, i, 4);
          return i * 8 + 4;
        }
        v := v >> 1;
        if v == 0 {
          FirstAt(ip1, ip2, i, 3);
          return i * 8 + 3;
        }
        v := v >> 1;
        if v == 0 {
          FirstAt(ip1, ip2, i, 2);
          return i * 8 + 2;
        }
        v := v >> 1;
        if v == 0 {
          FirstAt(ip1, ip2, i, 1);
          return i * 8 + 1;
        }
        FirstAt(ip1, ip2, i, 0);
        return i * 8;
      }
      SameByte(ip1[i], ip2[i]);
      i := i + 1;
    }
    assert ip1 == ip2;
    PrefixTree.CommonIsGreatest(Bits(ip1), Bits(ip2), i * 8);
    return i * 8;
  }

  lemma SameByte(a: bv8, b: bv8)
    requires a ^ b == 0
    ensures a == b
  {
  }

  lemma FirstAt(ip1: Bytes, ip2: Bytes, i: nat, k: nat)
    requires i < |ip1| == |ip2| && ip1[..i] == ip2[..i] && k < 8
    requires ShiftRight(ip1[i] ^ ip2[i], 7 - k) != 0
    requires k > 0 ==> ShiftRight(ip1[i] ^ ip2[i], 8 - k) == 0
    ensures i * 8 + k == PrefixTree.CommonBits(Bits(ip1), Bits(ip2))
  {
    FirstDifference(ip1[i], ip2[i], k);
    var a, b, n := Bits(ip1), Bits(ip2), i * 8 + k;
    assert a[n] != b[n];
    forall j | 0 <= j < n ensures a[..n][j] == b[..n][j] {
      if j / 8 < i { assert ip1[..i][j / 8] == ip2[..i][j / 8]; }
    }
    PrefixTree.CommonIsFirstDifference(a, b, n);
  }
}

/** The trie nodes, updated in place. */
module Tries {
  import opened Wrappers
  import opened Addresses
  import T = PrefixTree

  class Trie {
    var cidr: nat
    var child0: Trie?
    var child1: Trie?
    var bits: Bytes
    var peer: Option<T.Peer>
    var bitAtByte: nat
    var bitAtShift: nat
    ghost var Repr: set<Trie>
    ghost var tree: T.Tree

    constructor (ip: Bytes, cidr: nat, peer: Option<T.Peer>)
      requires cidr <= 8 * |ip|
      ensures Valid() && fresh(this) && Repr == {this}
      ensures tree == T.Node(Bits(ip), cidr, peer, T.Nil, T.Nil)
      ensures bits == ip && this.cidr == cidr && child0 == null && child1 == null && this.peer == peer
    {
      bits, this.peer, this.cidr := ip, peer, cidr;
      bitAtByte, bitAtShift := cidr / 8, 7 - cidr % 8;
      child0, child1 := null, null;
      Repr := {this};
      tree := T.Node(Bits(ip), cidr, peer, T.Nil, T.Nil);
    }

    ghost predicate Valid()
      reads this, Repr
      ensures Valid() ==> this in Repr
      decreases Repr
    {
      && this in Repr
      && cidr <= 8 * |bits| && bitAtByte == cidr / 8 && bitAtShift == 7 - cidr % 8
      && (child0 != null ==> child0 in Repr && child0.Repr <= Repr && this !in child0.Repr && child0.Valid())
      && (child1 != null ==> child1 in Repr && child1.Repr <= Repr && this !in child1.Repr && child1.Valid())
      && (child0 != null && child1 != null ==> child0.Repr !! child1.Repr)
      && tree == T.Node(Bits(bits), cidr, peer, TreeOf(child0), TreeOf(child1))
    }

    function Child(bit: bv8): Trie?
      reads this
    {
      if bit == 0 then child0 else child1
    }

    // Everything Valid says, apart from the child selected by `bit`, which is about to be replaced.
    ghost predicate ValidBut(bit: bv8)
      reads this, Repr
    {
      && this in Repr
      && cidr <= 8 * |bits| && bitAtByte == cidr / 8 && bitAtShift == 7 - cidr % 8
      && (bit != 0 ==> child0 != null ==>
        child0 in Repr && child0.Repr <= Repr && this !in child0.Repr && child0.Valid())
      && (bit == 0 ==> child1 != null ==>
        child1 in Repr && child1.Repr <= Repr && this !in child1.Repr && child1.Valid())
      && tree.Node? && tree.bits == Bits(bits) && tree.cidr == cidr && tree.peer == peer
      && (if bit == 0 then tree.child1 == TreeOf(child1) else tree.child0 == TreeOf(child0))
    }

    // child[bit] = child
    method SetChild(bit: bv8, child: Trie?)
      requires ValidBut(bit) && ValidTrie(child)
      requires this !in ReprOf(child) && ReprOf(child) !! ReprOf(if bit == 0 then child1 else child0)
      modifies this
      ensures Valid() && Repr == old(Repr) + ReprOf(child)
      ensures tree == T.WithChild(old(tree), bit != 0, TreeOf(child))
      ensures Child(bit) == child && Child(if bit == 0 then 1 else 0) == old(Child(if bit == 0 then 1 else 0))
      ensures bits == old(bits) && cidr == old(cidr) && peer == old(peer)
      ensures bitAtByte == old(bitAtByte) && bitAtShift == old(bitAtShift)
    {
      if bit == 0 { child0 := child; } else { child1 := child; }
      Repr := Repr + ReprOf(child);
      tree := T.WithChild(tree, bit != 0, TreeOf(child));
    }

    // The bit of an address that selects the child: 0 or 1.
    function Choose(ip: Bytes): bv8
      requires bitAtByte < |ip| && bitAtShift < 8
      reads this
    {
      ShiftRight(ip[bitAtByte], bitAtShift) & 1
    }

    lemma ChooseIsBit(ip: Bytes)
      requires Valid() && cidr < 8 * |ip|
      ensures bitAtByte < |ip| && bitAtShift < 8
      ensures Choose(ip) == if Bits(ip)[cidr] then 1 else 0
    {
    }
  }

  ghost function TreeOf(node: Trie?): T.Tree
    reads node
  {
    if node == null then T.Nil else node.tree
  }

  ghost function ReprOf(node: Trie?): set<Trie>
    reads node
  {
    if node == null then {} else node.Repr
  }

  ghost predicate ValidTrie(node: Trie?)
    reads node, ReprOf(node)
  {
    node != null ==> node.Valid()
  }

  method Insert(node: Trie?, ip: Bytes, cidr: nat, peer: T.Peer) returns (r: Trie)
    requires ValidTrie(node) && T.WellFormed(TreeOf(node), 8 * |ip|) && cidr <= 8 * |ip|
    modifies ReprOf(node)
    ensures r.Valid() && fresh(r.Repr - old(ReprOf(node)))
    ensures r.tree == T.Insert(old(TreeOf(node)), Bits(ip), cidr, peer)
    decreases ReprOf(node), 1
  {
    if node == null {
      r := new Trie(ip, cidr, Some(peer));
      return;
    }

    var common := CommonBits(node.bits, ip);
    if node.cidr <= cidr && common >= node.cidr {
      if node.cidr == cidr {
        node.peer := Some(peer);
        node.tree := node.tree.(peer := Some(peer));
        return node;
      }
      InsertInChild(node, ip, cidr, peer);
      return node;
    }

    r := Split(node, ip, cidr, peer, common);
  }

  // The new entry does not go below the node: it becomes its parent, or both get a new parent.
  method Split(node: Trie, ip: Bytes, cidr: nat, peer: T.Peer, common: nat) returns (r: Trie)
    requires node.Valid() && T.WellFormed(node.tree, 8 * |ip|) && cidr <= 8 * |ip|
    requires common == T.CommonBits(node.tree.bits, Bits(ip)) && !(node.cidr <= cidr && common >= node.cidr)
    ensures r.Valid() && fresh(r.Repr - node.Repr)
    ensures r.tree == T.Insert(node.tree, Bits(ip), cidr, peer)
  {
    var newNode := new Trie(ip, cidr, Some(peer));
    var shorter := if cidr > common then common else cidr;
    if newNode.cidr == shorter {
      newNode.ChooseIsBit(node.bits);
      var bit := newNode.Choose(node.bits);
      newNode.SetChild(bit, node);
      r := newNode;
      return;
    }

    r := NewParent(ip, shorter, newNode, node);
  }

  method NewParent(ip: Bytes, cidr: nat, newNode: Trie, node: Trie) returns (parent: Trie)
    requires newNode.Valid() && node.Valid() && newNode.Repr !! node.Repr && cidr < 8 * |ip|
    ensures parent.Valid() && fresh(parent) && parent.Repr == {parent} + newNode.Repr + node.Repr
    ensures var bit := Bits(ip)[cidr];
      parent.tree == T.WithChild(T.WithChild(T.Node(Bits(ip), cidr, None, T.Nil, T.Nil), bit, newNode.tree),
        !bit, node.tree)
  {
    parent := new Trie(ip, cidr, None);
    parent.ChooseIsBit(ip);
    var bit := parent.Choose(ip);
    parent.SetChild(bit, newNode);
    parent.SetChild(bit ^ 1, node);
  }

  // node.child[bit] = node.child[bit].Insert(ip, cidr, peer)
  method InsertInChild(node: Trie, ip: Bytes, cidr: nat, peer: T.Peer)
    requires node.Valid() && T.WellFormed(node.tree, 8 * |ip|) && node.cidr < cidr <= 8 * |ip|
    modifies node.Repr
    ensures node.Valid() && fresh(node.Repr - old(node.Repr))
    ensures var bit := Bits(ip)[old(node.cidr)];
      node.tree == T.WithChild(old(node.tree), bit,
        T.Insert(if bit then old(node.tree.child1) else old(node.tree.child0), Bits(ip), cidr, peer))
    decreases node.Repr, 0
  {
    node.ChooseIsBit(ip);
    var bit := node.Choose(ip);
    var child := Insert(node.Child(bit), ip, cidr, peer);
    node.SetChild(bit, child);
  }

  method Lookup(root: Trie?, ip: Bytes) returns (found: Option<T.Peer>)
    requires ValidTrie(root) && T.WellFormed(TreeOf(root), 8 * |ip|)
    ensures found == T.BestPeer(T.Entries(TreeOf(root), 8 * |ip|), Bits(ip))
  {
    found := None;
    var size := |ip|;
    var node := root;
    T.LookupIsBest(TreeOf(root), Bits(ip), None);
    while node != null
      invariant ValidTrie(node) && T.WellFormed(TreeOf(node), 8 * |ip|)
      invariant T.Lookup(TreeOf(root), Bits(ip), None) == T.Lookup(TreeOf(node), Bits(ip), found)
      decreases ReprOf(node)
    {
      var common := CommonBits(node.bits, ip);
      if common < node.cidr { break; }
      if node.peer.Some? {
        found := node.peer;
      }
      if node.bitAtByte == size {
        break;
      }
      node.ChooseIsBit(ip);
      var bit := node.Choose(ip);
      node := if bit == 0 then node.child0 else node.child1;
    }
  }

  method RemovePeer(node: Trie?, p: T.Peer) returns (r: Trie?)
    requires ValidTrie(node)
    modifies ReprOf(node)
    ensures ValidTrie(r) && ReprOf(r) <= old(ReprOf(node))
    ensures TreeOf(r) == T.RemovePeer(old(TreeOf(node)), p)
    decreases ReprOf(node), 1
  {
    if node == null {
      return node;
    }
    RemoveInChild(node, 0, p);
    RemoveInChild(node, 1, p);
    if node.peer != Some(p) {
      return node;
    }
    node.peer := None;
    r := if node.child0 == null then node.child1 else node.child0;
  }

  // node.child[bit] = node.child[bit].RemovePeer(p)
  method RemoveInChild(node: Trie, bit: bv8, p: T.Peer)
    requires node.Valid() && (bit == 0 || bit == 1)
    modifies node.Repr
    ensures node.Valid() && node.Repr == old(node.Repr) && node.peer == old(node.peer)
    ensures node.tree == T.WithChild(old(node.tree), bit == 1,
                           T.RemovePeer(if bit == 1 then old(node.tree.child1) else old(node.tree.child0), p))
    decreases node.Repr, 0
  {
    var child := RemovePeer(node.Child(bit), p);
    node.SetChild(bit, child);
  }

  // ----- The entries of a peer, as network addresses.

  // An address with the length of its mask in bits, and the number of leading ones.
  datatype IPNet = IPNet(ip: Bytes, ones: nat, maskBits: nat) {
    // The prefix it denotes; a 4-byte address is held in the 16-byte form.
    function Denotes(): (T.Address, nat) {
      (Bits(if maskBits == 8 * IPV4_LEN && |ip| == IPV6_LEN then ip[12..] else ip), ones)
    }
  }

  function Denoted(nets: seq<IPNet>): (r: seq<(T.Address, nat)>)
    ensures |r| == |nets|
  {
    seq(|nets|, i requires 0 <= i < |nets| => nets[i].Denotes())
  }

  // The network of a node: a 4-byte address is stored in its 16-byte form.
  function NetOf(bits: Bytes, cidr: nat): (net: IPNet)
    ensures |bits| == IPV4_LEN || |bits| == IPV6_LEN ==> net.Denotes() == (Bits(bits), cidr)
  {
    var ip := if |bits| == IPV4_LEN then V4_IN_V6 + bits else bits;
    assert |bits| == IPV4_LEN ==> ip[12..] == bits;
    IPNet(ip, cidr, 8 * |bits|)
  }

  lemma Regroup(a: seq<(T.Address, nat)>, b: seq<(T.Address, nat)>, c: seq<(T.Address, nat)>, d: seq<(T.Address, nat)>)
    ensures a + b + c + d == a + (b + c + d)
  {
  }

  // Appends the entries of `p` in prefix order.
  method AllowedIPs(node: Trie?, size: nat, p: T.Peer, results: seq<IPNet>) returns (r: seq<IPNet>)
    requires ValidTrie(node) && (size == IPV4_LEN || size == IPV6_LEN) && T.WellFormed(TreeOf(node), 8 * size)
    ensures Denoted(r) == Denoted(results) + T.AllowedIPs(TreeOf(node), p)
    decreases ReprOf(node)
  {
    r := results;
    if node != null {
      ghost var own: seq<(T.Address, nat)> := [];
      if node.peer == Some(p) {
        r := r + [NetOf(node.bits, node.cidr)];
        own := [(Bits(node.bits), node.cidr)];
      }
      assert Denoted(r) == Denoted(results) + own;
      ghost var l0, l1 := T.AllowedIPs(node.tree.child0, p), T.AllowedIPs(node.tree.child1, p);
      r := AllowedIPs(node.child0, size, p, r);
      r := AllowedIPs(node.child1, size, p, r);
      Regroup(Denoted(results), own, l0, l1);
    }
  }

  // ----- The same operations, seen as operations on the table of entries.

  method InsertEntry(root: Trie?, ip: Bytes, cidr: nat, peer: T.Peer) returns (r: Trie)
    requires ValidTrie(root) && T.WellFormed(TreeOf(root), 8 * |ip|) && cidr <= 8 * |ip|
    modifies ReprOf(root)
    ensures r.Valid() && fresh(r.Repr - old(ReprOf(root))) && T.WellFormed(r.tree, 8 * |ip|)
    ensures T.Entries(r.tree, 8 * |ip|) == old(T.Entries(TreeOf(root), 8 * |ip|))[Bits(ip)[..cidr] := peer]
  {
    T.InsertUpdates(TreeOf(root), Bits(ip), cidr, peer);
    r := Insert(root, ip, cidr, peer);
  }

  method RemoveEntries(root: Trie?, size: nat, p: T.Peer) returns (r: Trie?)
    requires ValidTrie(root) && T.WellFormed(TreeOf(root), size)
    modifies ReprOf(root)
    ensures ValidTrie(r) && ReprOf(r) <= old(ReprOf(root)) && T.WellFormed(TreeOf(r), size)
    ensures T.Entries(TreeOf(r), size) == T.Without(old(T.Entries(TreeOf(root), size)), p) <==>
      !T.Discards(old(TreeOf(root)), p)
    ensures T.PartOf(T.Entries(TreeOf(r), size), T.Without(old(T.Entries(TreeOf(root), size)), p))
  {
    T.RemoveExactUnlessDiscards(TreeOf(root), size, p);
    T.RemoveIsPart(TreeOf(root), size, p);
    r := RemovePeer(root, p);
  }
}
