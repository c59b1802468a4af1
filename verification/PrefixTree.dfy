/** The allowed-IPs trie of `controller/trie.go` as a value, and what it stands for: a map from
    prefixes to peers, searched for the longest prefix of an address. */
module PrefixTree {
  import opened Wrappers

  type Peer = nat
  type Address = seq<bool>
  type Prefix = seq<bool>
  type Table = map<Prefix, Peer>

  // ----- The simple counterpart: longest match by trying every length, longest first.

  function LongestMatch(m: Table, ip: Address, n: nat): (r: Option<nat>)
    requires n <= |ip|
    ensures r.None? ==> forall k :: 0 <= k <= n ==> ip[..k] !in m
    ensures r.Some? ==> r.value <= n && ip[..r.value] in m && forall k :: r.value < k <= n ==> ip[..k] !in m
  {
    if ip[..n] in m then Some(n) else if n == 0 then None else LongestMatch(m, ip, n - 1)
  }

  function BestPeer(m: Table, ip: Address): Option<Peer> {
    match LongestMatch(m, ip, |ip|)
    case None => None
    case Some(k) => Some(m[ip[..k]])
  }

  function Without(m: Table, p: Peer): Table {
    map k | k in m && m[k] != p :: m[k]
  }

  // ----- The tree.  A stored address is not masked: only its first `cidr` bits matter.

  datatype Tree = Nil | Node(bits: Address, cidr: nat, peer: Option<Peer>, child0: Tree, child1: Tree) {
    function Prefix(): Prefix
      requires Node? && cidr <= |bits|
    {
      bits[..cidr]
    }
  }

  // `t` hangs below the prefix `pre`.
  predicate Below(t: Tree, pre: Prefix) {
    t.Node? ==> |pre| <= t.cidr <= |t.bits| && pre <= t.bits
  }

  predicate WellFormed(t: Tree, size: nat) {
    t.Node? ==>
      && |t.bits| == size && t.cidr <= size
      && WellFormed(t.child0, size) && Below(t.child0, t.Prefix() + [false])
      && WellFormed(t.child1, size) && Below(t.child1, t.Prefix() + [true])
  }

  function Own(t: Tree): Table
    requires t.Node? && t.cidr <= |t.bits|
  {
    if t.peer.Some? then map[t.Prefix() := t.peer.value] else map[]
  }

  function Entries(t: Tree, size: nat): Table
    requires WellFormed(t, size)
  {
    if t.Nil? then map[] else Own(t) + Entries(t.child0, size) + Entries(t.child1, size)
  }

  function CommonFrom(a: Address, b: Address, i: nat): (n: nat)
    requires i <= |a| == |b|
    requires a[..i] == b[..i]
    ensures i <= n <= |a| && a[..n] == b[..n]
    ensures n < |a| ==> a[n] != b[n]
    decreases |a| - i
  {
    if i == |a| || a[i] != b[i] then i
    else assert a[..i + 1] == a[..i] + [a[i]] && b[..i + 1] == b[..i] + [b[i]]; CommonFrom(a, b, i + 1)
  }

  function CommonBits(a: Address, b: Address): (n: nat)
    requires |a| == |b|
    ensures n <= |a| && a[..n] == b[..n] && (n < |a| ==> a[n] != b[n])
  {
    CommonFrom(a, b, 0)
  }

  lemma CommonIsGreatest(a: Address, b: Address, n: nat)
    requires n <= |a| == |b|
    ensures n <= CommonBits(a, b) <==> a[..n] == b[..n]
  {
  }

  lemma CommonIsFirstDifference(a: Address, b: Address, n: nat)
    requires n < |a| == |b| && a[..n] == b[..n] && a[n] != b[n]
    ensures n == CommonBits(a, b)
  {
  }

  function Leaf(ip: Address, cidr: nat, peer: Peer): Tree {
    Node(ip, cidr, Some(peer), Nil, Nil)
  }

  function WithChild(t: Tree, bit: bool, child: Tree): Tree
    requires t.Node?
  {
    if bit then t.(child1 := child) else t.(child0 := child)
  }

  function Insert(t: Tree, ip: Address, cidr: nat, peer: Peer): Tree
    requires WellFormed(t, |ip|) && cidr <= |ip|
    decreases t
  {
    if t.Nil? then Leaf(ip, cidr, peer)
    else
      var common := CommonBits(t.bits, ip);
      if t.cidr <= cidr && common >= t.cidr then
        if t.cidr == cidr then t.(peer := Some(peer))
        else if ip[t.cidr] then t.(child1 := Insert(t.child1, ip, cidr, peer))
        else t.(child0 := Insert(t.child0, ip, cidr, peer))
      else if cidr <= common then WithChild(Leaf(ip, cidr, peer), t.bits[cidr], t)
      else WithChild(WithChild(Node(ip, common, None, Nil, Nil), ip[common], Leaf(ip, cidr, peer)), !ip[common], t)
  }

  function Lookup(t: Tree, ip: Address, found: Option<Peer>): Option<Peer>
    requires WellFormed(t, |ip|)
    decreases t
  {
    if t.Nil? || CommonBits(t.bits, ip) < t.cidr then found
    else
      var found := if t.peer.Some? then t.peer else found;
      if t.cidr == |ip| then found
      else Lookup(if ip[t.cidr] then t.child1 else t.child0, ip, found)
  }

  function RemovePeer(t: Tree, p: Peer): Tree {
    if t.Nil? then Nil
    else
      var c0, c1 := RemovePeer(t.child0, p), RemovePeer(t.child1, p);
      if t.peer != Some(p) then t.(child0 := c0, child1 := c1)
      else if c0.Nil? then c1 else c0
  }

  function AllowedIPs(t: Tree, p: Peer): seq<(Address, nat)> {
    if t.Nil? then []
    else (if t.peer == Some(p) then [(t.bits, t.cidr)] else []) + AllowedIPs(t.child0, p) + AllowedIPs(t.child1, p)
  }

  // ----- Facts about the keys of a tree.

  // Every key of a tree extends its root's prefix, hence anything its root is below.
  lemma {:induction false} KeysBelow(t: Tree, size: nat, pre: Prefix)
    requires WellFormed(t, size) && Below(t, pre)
    ensures forall k <- Entries(t, size) :: pre <= k && |k| <= size
  {
    if t.Node? {
      assert pre <= t.Prefix();
      KeysBelow(t.child0, size, t.Prefix() + [false]);
      KeysBelow(t.child1, size, t.Prefix() + [true]);
      forall k <- Entries(t.child0, size) ensures pre <= k {
        assert t.Prefix() + [false] <= k;
      }
      forall k <- Entries(t.child1, size) ensures pre <= k {
        assert t.Prefix() + [true] <= k;
      }
    }
  }

  lemma ChildKeys(child: Tree, size: nat, pre: Prefix, bit: bool)
    requires WellFormed(child, size) && Below(child, pre + [bit])
    ensures forall k <- Entries(child, size) :: |k| > |pre| && k[..|pre|] == pre && k[|pre|] == bit
  {
    KeysBelow(child, size, pre + [bit]);
    forall k <- Entries(child, size) ensures |k| > |pre| && k[..|pre|] == pre && k[|pre|] == bit {
      var p := pre + [bit];
      assert p <= k;
      assert k[|pre|] == p[|pre|] && k[..|pre|] == p[..|pre|];
    }
  }

  // The node's own entry and the entries of its two children never collide.
  lemma Apart(t: Tree, size: nat)
    requires WellFormed(t, size) && t.Node?
    ensures forall k <- Entries(t.child0, size) :: |k| > t.cidr && k[..t.cidr] == t.Prefix() && !k[t.cidr]
    ensures forall k <- Entries(t.child1, size) :: |k| > t.cidr && k[..t.cidr] == t.Prefix() && k[t.cidr]
  {
    ChildKeys(t.child0, size, t.Prefix(), false);
    ChildKeys(t.child1, size, t.Prefix(), true);
  }

  // ----- Entries one key at a time.

  predicate Holds(t: Tree, size: nat, k: Prefix, p: Peer)
    requires WellFormed(t, size)
  {
    k in Entries(t, size) && Entries(t, size)[k] == p
  }

  lemma HoldsHere(t: Tree, size: nat, k: Prefix, p: Peer)
    requires WellFormed(t, size) && t.Node?
    ensures Holds(t, size, k, p) <==>
      (t.peer == Some(p) && k == t.Prefix()) || Holds(t.child0, size, k, p) || Holds(t.child1, size, k, p)
    ensures Holds(t.child0, size, k, p) ==> k != t.Prefix() && k !in Entries(t.child1, size)
    ensures Holds(t.child1, size, k, p) ==> k != t.Prefix() && k !in Entries(t.child0, size)
  {
    Apart(t, size);
  }

  // ----- Insert refines map update.

  lemma {:induction false} InsertBelow(t: Tree, ip: Address, cidr: nat, peer: Peer, pre: Prefix)
    requires WellFormed(t, |ip|) && |pre| <= cidr <= |ip| && pre <= ip && Below(t, pre)
    ensures Below(Insert(t, ip, cidr, peer), pre)
  {
  }

  lemma {:induction false} InsertWellFormed(t: Tree, ip: Address, cidr: nat, peer: Peer)
    requires WellFormed(t, |ip|) && cidr <= |ip|
    ensures WellFormed(Insert(t, ip, cidr, peer), |ip|)
    decreases t
  {
    if t.Node? {
      var common := CommonBits(t.bits, ip);
      CommonIsGreatest(t.bits, ip, t.cidr);
      if t.cidr <= cidr && common >= t.cidr {
        if t.cidr < cidr {
          assert t.Prefix() + [ip[t.cidr]] <= ip;
          var child := if ip[t.cidr] then t.child1 else t.child0;
          InsertWellFormed(child, ip, cidr, peer);
          InsertBelow(child, ip, cidr, peer, t.Prefix() + [ip[t.cidr]]);
        }
      } else if cidr <= common {
        CommonIsGreatest(t.bits, ip, cidr);
        assert ip[..cidr] + [t.bits[cidr]] <= t.bits;
      } else {
        assert ip[..common] + [ip[common]] <= ip;
        assert ip[..common] + [!ip[common]] <= t.bits;
      }
    }
  }

  // Insert is exactly the map update: the latest write of a prefix wins and no other prefix moves.
  lemma InsertUpdates(t: Tree, ip: Address, cidr: nat, peer: Peer)
    requires WellFormed(t, |ip|) && cidr <= |ip|
    ensures WellFormed(Insert(t, ip, cidr, peer), |ip|)
    ensures Entries(Insert(t, ip, cidr, peer), |ip|) == Entries(t, |ip|)[ip[..cidr] := peer]
  {
    InsertWellFormed(t, ip, cidr, peer);
    var after, want := Entries(Insert(t, ip, cidr, peer), |ip|), Entries(t, |ip|)[ip[..cidr] := peer];
    forall k | k in after ensures k in want && want[k] == after[k] {
      InsertHolds(t, ip, cidr, peer, k, after[k]);
    }
    forall k | k in want ensures k in after {
      InsertHolds(t, ip, cidr, peer, k, want[k]);
    }
  }

  lemma {:induction false} InsertHolds(t: Tree, ip: Address, cidr: nat, peer: Peer, k: Prefix, q: Peer)
    requires WellFormed(t, |ip|) && cidr <= |ip| && WellFormed(Insert(t, ip, cidr, peer), |ip|)
    ensures Holds(Insert(t, ip, cidr, peer), |ip|, k, q) <==>
      if k == ip[..cidr] then q == peer else Holds(t, |ip|, k, q)
    decreases t
  {
    var r := Insert(t, ip, cidr, peer);
    HoldsHere(r, |ip|, k, q);
    if t.Node? {
      HoldsHere(t, |ip|, k, q);
      CommonIsGreatest(t.bits, ip, t.cidr);
      if !(t.cidr <= cidr && CommonBits(t.bits, ip) >= t.cidr) {
        NotAKey(t, ip, cidr);
        LeafHolds(ip, cidr, peer, k, q);
      } else if t.cidr < cidr {
        DeeperKey(t, ip, cidr, q);
        InsertHolds(if ip[t.cidr] then t.child1 else t.child0, ip, cidr, peer, k, q);
      } else {
        DeeperKey(t, ip, cidr, q);
      }
    }
  }

  lemma LeafHolds(ip: Address, cidr: nat, peer: Peer, k: Prefix, q: Peer)
    requires cidr <= |ip|
    ensures WellFormed(Leaf(ip, cidr, peer), |ip|)
    ensures Holds(Leaf(ip, cidr, peer), |ip|, k, q) <==> k == ip[..cidr] && q == peer
  {
    HoldsHere(Leaf(ip, cidr, peer), |ip|, k, q);
  }

  // A prefix at or below a node is no key of the child on the other side.
  lemma DeeperKey(t: Tree, ip: Address, cidr: nat, q: Peer)
    requires WellFormed(t, |ip|) && t.Node? && t.cidr <= cidr <= |ip|
    ensures cidr == t.cidr ==> !Holds(t.child0, |ip|, ip[..cidr], q) && !Holds(t.child1, |ip|, ip[..cidr], q)
    ensures cidr > t.cidr ==> !Holds(if ip[t.cidr] then t.child0 else t.child1, |ip|, ip[..cidr], q)
  {
    Apart(t, |ip|);
    if cidr > t.cidr { assert ip[..cidr][t.cidr] == ip[t.cidr]; }
  }

  lemma NotAKey(t: Tree, ip: Address, cidr: nat)
    requires WellFormed(t, |ip|) && t.Node? && cidr <= |ip|
    requires !(t.cidr <= cidr && CommonBits(t.bits, ip) >= t.cidr)
    ensures ip[..cidr] !in Entries(t, |ip|)
  {
    KeysBelow(t, |ip|, t.Prefix());
    CommonIsGreatest(t.bits, ip, t.cidr);
    if t.cidr <= cidr { assert ip[..cidr][..t.cidr] == ip[..t.cidr]; }
  }

  // ----- Lookup refines the longest match.

  // Two tables that agree above length `lo`, the first having at most one shorter match, at `lo`.
  lemma BestAgrees(m: Table, c: Table, ip: Address, lo: nat)
    requires lo <= |ip|
    requires forall k :: 0 <= k <= lo ==> ip[..k] !in c
    requires forall k :: 0 <= k < lo ==> ip[..k] !in m
    requires forall k :: lo < k <= |ip| ==> (ip[..k] in m <==> ip[..k] in c)
    requires forall k :: lo < k <= |ip| && ip[..k] in c ==> m[ip[..k]] == c[ip[..k]]
    ensures BestPeer(m, ip) ==
      if BestPeer(c, ip).Some? then BestPeer(c, ip) else if ip[..lo] in m then Some(m[ip[..lo]]) else None
  {
  }

  // The entries of a node that can match an address agreeing with its prefix: its own, and those of
  // the child that the branching bit selects.
  lemma MatchesBelow(t: Tree, ip: Address, k: nat)
    requires WellFormed(t, |ip|) && t.Node? && ip[..t.cidr] == t.Prefix() && k <= |ip|
    ensures k < t.cidr ==> ip[..k] !in Entries(t, |ip|)
    ensures k <= t.cidr ==> ip[..k] !in Entries(t.child0, |ip|) && ip[..k] !in Entries(t.child1, |ip|)
    ensures k == t.cidr ==> (ip[..k] in Entries(t, |ip|) <==> t.peer.Some?)
    ensures k == t.cidr && t.peer.Some? ==> Entries(t, |ip|)[ip[..k]] == t.peer.value
    ensures k > t.cidr ==>
      var c := Entries(if ip[t.cidr] then t.child1 else t.child0, |ip|);
      && (ip[..k] in Entries(t, |ip|) <==> ip[..k] in c)
      && (ip[..k] in c ==> Entries(t, |ip|)[ip[..k]] == c[ip[..k]])
  {
    Apart(t, |ip|);
    if k > t.cidr { assert ip[..k][t.cidr] == ip[t.cidr]; }
  }

  lemma NoMatch(t: Tree, ip: Address, k: nat)
    requires WellFormed(t, |ip|) && t.Node? && ip[..t.cidr] != t.Prefix() && k <= |ip|
    ensures ip[..k] !in Entries(t, |ip|)
  {
    KeysBelow(t, |ip|, t.Prefix());
    if k >= t.cidr { assert ip[..k][..t.cidr] == ip[..t.cidr]; }
  }

  lemma LookupHere(t: Tree, ip: Address)
    requires WellFormed(t, |ip|) && t.Node?
    ensures ip[..t.cidr] != t.Prefix() ==> BestPeer(Entries(t, |ip|), ip) == None
    ensures ip[..t.cidr] == t.Prefix() && t.cidr == |ip| ==> BestPeer(Entries(t, |ip|), ip) == t.peer
    ensures ip[..t.cidr] == t.Prefix() && t.cidr < |ip| ==>
      var best := BestPeer(Entries(if ip[t.cidr] then t.child1 else t.child0, |ip|), ip);
      BestPeer(Entries(t, |ip|), ip) == if best.Some? then best else t.peer
  {
    var m := Entries(t, |ip|);
    if ip[..t.cidr] != t.Prefix() {
      forall k | 0 <= k <= |ip| ensures ip[..k] !in m { NoMatch(t, ip, k); }
    } else {
      var c := if t.cidr == |ip| then map[] else Entries(if ip[t.cidr] then t.child1 else t.child0, |ip|);
      forall k | 0 <= k <= |ip|
        ensures k < t.cidr ==> ip[..k] !in m
        ensures k <= t.cidr ==> ip[..k] !in c
        ensures k > t.cidr ==> (ip[..k] in m <==> ip[..k] in c) && (ip[..k] in c ==> m[ip[..k]] == c[ip[..k]])
      {
        MatchesBelow(t, ip, k);
      }
      MatchesBelow(t, ip, t.cidr);
      BestAgrees(m, c, ip, t.cidr);
    }
  }

  // Lookup is the longest-prefix match over the entries of the tree.
  lemma {:induction false} LookupIsBest(t: Tree, ip: Address, found: Option<Peer>)
    requires WellFormed(t, |ip|)
    ensures Lookup(t, ip, found) == (var best := BestPeer(Entries(t, |ip|), ip); if best.Some? then best else found)
    decreases t
  {
    if t.Node? {
      CommonIsGreatest(t.bits, ip, t.cidr);
      LookupHere(t, ip);
      if ip[..t.cidr] == t.Prefix() && t.cidr < |ip| {
        LookupIsBest(if ip[t.cidr] then t.child1 else t.child0, ip, if t.peer.Some? then t.peer else found);
      }
    }
  }

  // ----- The list of a peer's entries.

  function Masked(r: (Address, nat)): Prefix {
    if r.1 <= |r.0| then r.0[..r.1] else r.0
  }

  predicate Listed(rs: seq<(Address, nat)>, k: Prefix) {
    exists i :: 0 <= i < |rs| && Masked(rs[i]) == k
  }

  predicate Once(rs: seq<(Address, nat)>, k: Prefix) {
    forall i, j :: 0 <= i < j < |rs| && Masked(rs[i]) == k ==> Masked(rs[j]) != k
  }

  lemma OnceAcross(a: seq<(Address, nat)>, b: seq<(Address, nat)>, k: Prefix)
    requires Once(a, k) && Once(b, k)
    ensures Listed(a + b, k) <==> Listed(a, k) || Listed(b, k)
    ensures !(Listed(a, k) && Listed(b, k)) ==> Once(a + b, k)
  {
    if Listed(a, k) {
      var i :| 0 <= i < |a| && Masked(a[i]) == k;
      assert (a + b)[i] == a[i];
    }
    if Listed(b, k) {
      var i :| 0 <= i < |b| && Masked(b[i]) == k;
      assert (a + b)[|a| + i] == b[i];
    }
  }

  // AllowedIPs lists exactly the prefixes that the table maps to the peer, each of them once.
  lemma {:induction false} AllowedIPsExact(t: Tree, size: nat, p: Peer, k: Prefix)
    requires WellFormed(t, size)
    ensures Holds(t, size, k, p) <==> Listed(AllowedIPs(t, p), k)
    ensures Once(AllowedIPs(t, p), k)
  {
    if t.Node? {
      AllowedIPsExact(t.child0, size, p, k);
      AllowedIPsExact(t.child1, size, p, k);
      HoldsHere(t, size, k, p);
      var own := if t.peer == Some(p) then [(t.bits, t.cidr)] else [];
      assert Listed(own, k) <==> t.peer == Some(p) && k == t.Prefix() by {
        if t.peer == Some(p) { assert Masked(own[0]) == t.Prefix(); }
      }
      OnceAcross(own, AllowedIPs(t.child0, p), k);
      OnceAcross(own + AllowedIPs(t.child0, p), AllowedIPs(t.child1, p), k);
    }
  }

  // ----- RemovePeer.

  // Removal hands the parent a node that still belongs on the same side of the branching bit.
  lemma {:induction false} RemoveWellFormed(t: Tree, size: nat, p: Peer, pre: Prefix)
    requires WellFormed(t, size) && Below(t, pre)
    ensures WellFormed(RemovePeer(t, p), size) && Below(RemovePeer(t, p), pre)
  {
    if t.Node? {
      RemoveWellFormed(t.child0, size, p, t.Prefix() + [false]);
      RemoveWellFormed(t.child1, size, p, t.Prefix() + [true]);
      var r := RemovePeer(t, p);
      if t.peer == Some(p) && r.Node? {
        assert t.Prefix() <= r.bits;
        assert pre <= t.Prefix();
      }
    }
  }

  // Every node of the tree, branching nodes included, belongs to `p`.
  predicate AllOf(t: Tree, p: Peer) {
    t.Node? ==> t.peer == Some(p) && AllOf(t.child0, p) && AllOf(t.child1, p)
  }

  predicate HasOther(t: Tree, p: Peer) {
    t.Node? && ((t.peer.Some? && t.peer.value != p) || HasOther(t.child0, p) || HasOther(t.child1, p))
  }

  // A node of `p` keeps something on its first side while another peer has an entry on the second.
  predicate Discards(t: Tree, p: Peer) {
    t.Node? &&
      (Discards(t.child0, p) || Discards(t.child1, p)
       || (t.peer == Some(p) && !AllOf(t.child0, p) && HasOther(t.child1, p)))
  }

  lemma {:induction false} RemovedIsNil(t: Tree, p: Peer)
    ensures RemovePeer(t, p).Nil? <==> AllOf(t, p)
  {
    if t.Node? {
      RemovedIsNil(t.child0, p);
      RemovedIsNil(t.child1, p);
    }
  }

  lemma {:induction false} OtherEntry(t: Tree, size: nat, p: Peer) returns (k: Prefix, q: Peer)
    requires WellFormed(t, size) && HasOther(t, p)
    ensures Holds(t, size, k, q) && q != p
  {
    if t.peer.Some? && t.peer.value != p {
      k, q := t.Prefix(), t.peer.value;
    } else if HasOther(t.child0, p) {
      k, q := OtherEntry(t.child0, size, p);
    } else {
      k, q := OtherEntry(t.child1, size, p);
    }
    HoldsHere(t, size, k, q);
  }

  lemma {:induction false} HoldsOther(t: Tree, size: nat, p: Peer, k: Prefix, q: Peer)
    requires WellFormed(t, size) && Holds(t, size, k, q) && q != p
    ensures HasOther(t, p) && !AllOf(t, p)
  {
    HoldsHere(t, size, k, q);
    if Holds(t.child0, size, k, q) { HoldsOther(t.child0, size, p, k, q); }
    if Holds(t.child1, size, k, q) { HoldsOther(t.child1, size, p, k, q); }
  }

  // Whatever is there after the removal was there before, and does not belong to the removed peer.
  lemma {:induction false} RemoveKeepsOnly(t: Tree, size: nat, p: Peer, k: Prefix, q: Peer)
    requires WellFormed(t, size) && WellFormed(RemovePeer(t, p), size)
    requires Holds(RemovePeer(t, p), size, k, q)
    ensures Holds(t, size, k, q) && q != p
  {
    var r := RemovePeer(t, p);
    RemoveWellFormed(t.child0, size, p, []);
    RemoveWellFormed(t.child1, size, p, []);
    HoldsHere(t, size, k, q);
    if t.peer != Some(p) { HoldsHere(r, size, k, q); }
    if Holds(RemovePeer(t.child0, p), size, k, q) { RemoveKeepsOnly(t.child0, size, p, k, q); }
    if Holds(RemovePeer(t.child1, p), size, k, q) { RemoveKeepsOnly(t.child1, size, p, k, q); }
  }

  // Where nothing is discarded, every entry of another peer survives.
  lemma {:induction false} RemoveKeepsAll(t: Tree, size: nat, p: Peer, k: Prefix, q: Peer)
    requires WellFormed(t, size) && WellFormed(RemovePeer(t, p), size)
    requires !Discards(t, p) && Holds(t, size, k, q) && q != p
    ensures Holds(RemovePeer(t, p), size, k, q)
  {
    var r := RemovePeer(t, p);
    RemoveWellFormed(t.child0, size, p, []);
    RemoveWellFormed(t.child1, size, p, []);
    HoldsHere(t, size, k, q);
    RemovedIsNil(t.child0, p);
    if t.peer != Some(p) { HoldsHere(r, size, k, q); }
    if Holds(t.child0, size, k, q) {
      HoldsOther(t.child0, size, p, k, q);
      RemoveKeepsAll(t.child0, size, p, k, q);
    }
    if Holds(t.child1, size, k, q) {
      HoldsOther(t.child1, size, p, k, q);
      RemoveKeepsAll(t.child1, size, p, k, q);
    }
  }

  // Where something is discarded, some entry of another peer is gone.
  lemma {:induction false} RemoveLoses(t: Tree, size: nat, p: Peer) returns (k: Prefix, q: Peer)
    requires WellFormed(t, size) && WellFormed(RemovePeer(t, p), size) && Discards(t, p)
    ensures Holds(t, size, k, q) && q != p && !Holds(RemovePeer(t, p), size, k, q)
  {
    RemoveWellFormed(t.child0, size, p, []);
    RemoveWellFormed(t.child1, size, p, []);
    RemovedIsNil(t.child0, p);
    if Discards(t.child0, p) {
      k, q := RemoveLoses(t.child0, size, p);
    } else if Discards(t.child1, p) {
      k, q := RemoveLoses(t.child1, size, p);
    } else {
      k, q := OtherEntry(t.child1, size, p);
    }
    HoldsHere(t, size, k, q);
    var r := RemovePeer(t, p);
    if Holds(r, size, k, q) {
      if t.peer != Some(p) { HoldsHere(r, size, k, q); }
      if Holds(RemovePeer(t.child0, p), size, k, q) { RemoveKeepsOnly(t.child0, size, p, k, q); }
      if Holds(RemovePeer(t.child1, p), size, k, q) { RemoveKeepsOnly(t.child1, size, p, k, q); }
    }
  }

  predicate PartOf(a: Table, b: Table) {
    forall k <- a :: k in b && a[k] == b[k]
  }

  lemma RemoveIsPart(t: Tree, size: nat, p: Peer)
    requires WellFormed(t, size)
    ensures WellFormed(RemovePeer(t, p), size)
    ensures PartOf(Entries(RemovePeer(t, p), size), Without(Entries(t, size), p))
  {
    RemoveWellFormed(t, size, p, []);
    var after := Entries(RemovePeer(t, p), size);
    forall k | k in after ensures k in Without(Entries(t, size), p) && after[k] == Entries(t, size)[k] {
      RemoveKeepsOnly(t, size, p, k, after[k]);
    }
  }

  // RemovePeer deletes exactly the peer's entries if and only if no node of the peer keeps its first
  // side while another peer has an entry on its second: such a node's second side is thrown away.
  lemma RemoveExactUnlessDiscards(t: Tree, size: nat, p: Peer)
    requires WellFormed(t, size)
    ensures WellFormed(RemovePeer(t, p), size)
    ensures Entries(RemovePeer(t, p), size) == Without(Entries(t, size), p) <==> !Discards(t, p)
  {
    RemoveWellFormed(t, size, p, []);
    var after, want := Entries(RemovePeer(t, p), size), Without(Entries(t, size), p);
    RemoveIsPart(t, size, p);
    if Discards(t, p) {
      var k, q := RemoveLoses(t, size, p);
      assert k in want && want[k] == q;
    } else {
      forall k | k in want ensures k in after {
        RemoveKeepsAll(t, size, p, k, want[k]);
      }
    }
  }

  // Lookups after a removal that discards nothing are longest-prefix matches over the other peers'
  // entries; with a single peer, as in this client, nothing is ever discarded and nothing remains.
  lemma LookupAfterRemove(t: Tree, ip: Address, p: Peer)
    requires WellFormed(t, |ip|)
    ensures WellFormed(RemovePeer(t, p), |ip|)
    ensures !Discards(t, p) ==> Lookup(RemovePeer(t, p), ip, None) == BestPeer(Without(Entries(t, |ip|), p), ip)
    ensures !HasOther(t, p) ==> Lookup(RemovePeer(t, p), ip, None) == None
  {
    RemoveExactUnlessDiscards(t, |ip|, p);
    LookupIsBest(RemovePeer(t, p), ip, None);
    if !HasOther(t, p) {
      forall k | k in Entries(RemovePeer(t, p), |ip|) ensures false {
        RemoveKeepsOnly(t, |ip|, p, k, Entries(RemovePeer(t, p), |ip|)[k]);
        HoldsOther(t, |ip|, p, k, Entries(RemovePeer(t, p), |ip|)[k]);
      }
    }
  }

  // The tree with the entries of `p` taken out and every node left in its place.
  function Erased(t: Tree, p: Peer): Tree {
    if t.Nil? then Nil
    else Node(t.bits, t.cidr, if t.peer == Some(p) then None else t.peer, Erased(t.child0, p), Erased(t.child1, p))
  }

  lemma {:induction false} ErasedWellFormed(t: Tree, size: nat, p: Peer)
    requires WellFormed(t, size)
    ensures WellFormed(Erased(t, p), size)
  {
    if t.Node? {
      ErasedWellFormed(t.child0, size, p);
      ErasedWellFormed(t.child1, size, p);
    }
  }

  lemma {:induction false} ErasedHolds(t: Tree, size: nat, p: Peer, k: Prefix, q: Peer)
    requires WellFormed(t, size) && WellFormed(Erased(t, p), size)
    ensures Holds(Erased(t, p), size, k, q) <==> Holds(t, size, k, q) && q != p
  {
    if t.Node? {
      HoldsHere(t, size, k, q);
      HoldsHere(Erased(t, p), size, k, q);
      ErasedHolds(t.child0, size, p, k, q);
      ErasedHolds(t.child1, size, p, k, q);
    }
  }

  lemma ErasedIsWithout(t: Tree, size: nat, p: Peer)
    requires WellFormed(t, size)
    ensures WellFormed(Erased(t, p), size) && Entries(Erased(t, p), size) == Without(Entries(t, size), p)
  {
    ErasedWellFormed(t, size, p);
    var erased, want := Entries(Erased(t, p), size), Without(Entries(t, size), p);
    forall k | k in erased ensures k in want && want[k] == erased[k] { ErasedHolds(t, size, p, k, erased[k]); }
    forall k | k in want ensures k in erased { ErasedHolds(t, size, p, k, want[k]); }
  }

  // On its way to `ip`, with `found` the best other peer so far, the lookup would enter the second side
  // of a node of `p` that keeps its first, and find something else there.
  predicate Misses(t: Tree, ip: Address, p: Peer, found: Option<Peer>)
    requires WellFormed(t, |ip|)
    decreases t
  {
    if t.Nil? || CommonBits(t.bits, ip) < t.cidr || t.cidr == |ip| then false
    else
      var best := if t.peer == Some(p) || t.peer == None then found else t.peer;
      if t.peer == Some(p) && ip[t.cidr] && !AllOf(t.child0, p) then
        ErasedWellFormed(t.child1, |ip|, p);
        Lookup(Erased(t.child1, p), ip, best) != best
      else Misses(if ip[t.cidr] then t.child1 else t.child0, ip, p, best)
  }

  // A lookup that does not match the root's prefix finds nothing new.
  lemma NotBelow(t: Tree, ip: Address, pre: Prefix, found: Option<Peer>)
    requires WellFormed(t, |ip|) && Below(t, pre) && |pre| <= |ip| && ip[..|pre|] != pre
    ensures Lookup(t, ip, found) == found
  {
    if t.Node? { CommonIsGreatest(t.bits, ip, t.cidr); }
  }

  // One step of a lookup after the removal, at a node that matches the address.
  lemma RemovedStep(t: Tree, ip: Address, p: Peer, found: Option<Peer>)
    requires WellFormed(t, |ip|) && t.Node? && ip[..t.cidr] == t.Prefix() && t.cidr < |ip|
    ensures WellFormed(RemovePeer(t, p), |ip|)
    ensures WellFormed(RemovePeer(if ip[t.cidr] then t.child1 else t.child0, p), |ip|)
    ensures var best := if t.peer == Some(p) || t.peer == None then found else t.peer;
      Lookup(RemovePeer(t, p), ip, found) ==
        if t.peer == Some(p) && ip[t.cidr] && !AllOf(t.child0, p) then best
        else Lookup(RemovePeer(if ip[t.cidr] then t.child1 else t.child0, p), ip, best)
  {
    var pre, bit := t.Prefix(), ip[t.cidr];
    RemoveWellFormed(t, |ip|, p, []);
    RemoveWellFormed(t.child0, |ip|, p, pre + [false]);
    RemoveWellFormed(t.child1, |ip|, p, pre + [true]);
    if t.peer != Some(p) {
      CommonIsGreatest(t.bits, ip, t.cidr);
    } else {
      assert ip[..t.cidr + 1][t.cidr] != (pre + [!bit])[t.cidr];
      NotBelow(RemovePeer(if bit then t.child0 else t.child1, p), ip, pre + [!bit], found);
      RemovedIsNil(t.child0, p);
    }
  }

  lemma {:induction false} RemovedLookup(t: Tree, ip: Address, p: Peer, found: Option<Peer>)
    requires WellFormed(t, |ip|) && WellFormed(RemovePeer(t, p), |ip|) && WellFormed(Erased(t, p), |ip|)
    ensures Lookup(RemovePeer(t, p), ip, found) == Lookup(Erased(t, p), ip, found) <==> !Misses(t, ip, p, found)
  {
    if t.Node? {
      CommonIsGreatest(t.bits, ip, t.cidr);
      if ip[..t.cidr] != t.Prefix() {
        RemoveWellFormed(t, |ip|, p, t.Prefix());
        NotBelow(RemovePeer(t, p), ip, t.Prefix(), found);
      } else if t.cidr < |ip| {
        var best := if t.peer == Some(p) || t.peer == None then found else t.peer;
        RemovedStep(t, ip, p, found);
        RemovedLookup(if ip[t.cidr] then t.child1 else t.child0, ip, p, best);
      }
    }
  }

  // A lookup of an address after a removal is right, the longest-prefix match over the other peers'
  // entries, exactly when it misses nothing.
  lemma LookupAfterRemoveExact(t: Tree, ip: Address, p: Peer)
    requires WellFormed(t, |ip|)
    ensures WellFormed(RemovePeer(t, p), |ip|)
    ensures Lookup(RemovePeer(t, p), ip, None) == BestPeer(Without(Entries(t, |ip|), p), ip) <==>
      !Misses(t, ip, p, None)
  {
    RemoveWellFormed(t, |ip|, p, []);
    ErasedIsWithout(t, |ip|, p);
    LookupIsBest(Erased(t, p), ip, None);
    RemovedLookup(t, ip, p, None);
  }

  // The failing family is not empty: peer 1 owns the whole space, peers 2 and 3 one half each.
  lemma RemoveCanDiscard()
    ensures var t := Insert(Insert(Insert(Nil, [false], 0, 1), [false], 1, 2), [true], 1, 3);
      && WellFormed(t, 1) && WellFormed(RemovePeer(t, 1), 1)
      && Lookup(t, [true], None) == Some(3)
      && Lookup(RemovePeer(t, 1), [true], None) == None
      && BestPeer(Without(Entries(t, 1), 1), [true]) == Some(3)
  {
  }

  // ----- Any sequence of insertions and removals.

  datatype Write = Put(ip: Address, cidr: nat, peer: Peer) | Drop(peer: Peer)

  predicate Fits(w: Write, size: nat) {
    w.Put? ==> |w.ip| == size && w.cidr <= size
  }

  predicate Writes(ws: seq<Write>, size: nat) {
    forall w <- ws :: Fits(w, size)
  }

  function Written(t: Tree, w: Write, size: nat): (r: Tree)
    requires Fits(w, size) && WellFormed(t, size)
    ensures WellFormed(r, size)
  {
    if w.Put? then InsertUpdates(t, w.ip, w.cidr, w.peer); Insert(t, w.ip, w.cidr, w.peer)
    else RemoveWellFormed(t, size, w.peer, []); RemovePeer(t, w.peer)
  }

  // The tree after all writes.
  function Built(ws: seq<Write>, size: nat): (r: Tree)
    requires Writes(ws, size)
    ensures WellFormed(r, size)
  {
    if ws == [] then Nil else Written(Built(ws[..|ws| - 1], size), ws[|ws| - 1], size)
  }

  // The peer that the latest write of a prefix gave it, unless that peer was removed since.
  function Latest(ws: seq<Write>, size: nat, k: Prefix): Option<Peer>
    requires Writes(ws, size)
  {
    if ws == [] then None
    else
      var before, w := Latest(ws[..|ws| - 1], size, k), ws[|ws| - 1];
      assert Fits(w, size);
      match w
      case Put(ip, cidr, peer) => if ip[..cidr] == k then Some(peer) else before
      case Drop(peer) => if before == Some(peer) then None else before
  }

  // No removal among the writes discards anything.
  predicate NeverDiscards(ws: seq<Write>, size: nat)
    requires Writes(ws, size)
  {
    ws != [] ==>
      && NeverDiscards(ws[..|ws| - 1], size)
      && (ws[|ws| - 1].Drop? ==> !Discards(Built(ws[..|ws| - 1], size), ws[|ws| - 1].peer))
  }

  function At(m: Table, k: Prefix): Option<Peer> {
    if k in m then Some(m[k]) else None
  }

  ghost predicate HoldsLatest(ws: seq<Write>, size: nat)
    requires Writes(ws, size)
  {
    forall k: Prefix :: At(Entries(Built(ws, size), size), k) == Latest(ws, size, k)
  }

  // What one write does to the entry of a prefix, in a tree that may have lost some.
  lemma WrittenAt(t: Tree, w: Write, size: nat, k: Prefix)
    requires Fits(w, size) && WellFormed(t, size)
    ensures var before, after := At(Entries(t, size), k), At(Entries(Written(t, w, size), size), k);
      && (w.Put? ==> after == if w.ip[..w.cidr] == k then Some(w.peer) else before)
      && (w.Drop? && after.Some? ==> after == before && after != Some(w.peer))
      && (w.Drop? && !Discards(t, w.peer) ==> after == if before == Some(w.peer) then None else before)
  {
    match w
    case Put(ip, cidr, peer) => InsertUpdates(t, ip, cidr, peer);
    case Drop(peer) =>
      RemoveIsPart(t, size, peer);
      RemoveExactUnlessDiscards(t, size, peer);
  }

  /** Whatever was inserted and removed, an entry in the tree is the latest of its prefix. */
  lemma {:induction false} NoneStale(ws: seq<Write>, size: nat, k: Prefix)
    requires Writes(ws, size) && k in Entries(Built(ws, size), size)
    ensures Latest(ws, size, k) == Some(Entries(Built(ws, size), size)[k])
  {
    if ws != [] {
      var before, w := ws[..|ws| - 1], ws[|ws| - 1];
      WrittenAt(Built(before, size), w, size, k);
      if k in Entries(Built(before, size), size) { NoneStale(before, size, k); }
    }
  }

  // A removal is what loses entries, exactly when it discards.
  lemma DropHoldsLatest(ws: seq<Write>, size: nat)
    requires Writes(ws, size) && ws != [] && ws[|ws| - 1].Drop? && HoldsLatest(ws[..|ws| - 1], size)
    ensures HoldsLatest(ws, size) <==> !Discards(Built(ws[..|ws| - 1], size), ws[|ws| - 1].peer)
  {
    var before, p := ws[..|ws| - 1], ws[|ws| - 1].peer;
    var t := Built(before, size);
    RemoveExactUnlessDiscards(t, size, p);
    forall k: Prefix | !Discards(t, p) ensures At(Entries(Built(ws, size), size), k) == Latest(ws, size, k) {
      WrittenAt(t, ws[|ws| - 1], size, k);
      assert At(Entries(t, size), k) == Latest(before, size, k);
    }
    if Discards(t, p) {
      var k, q := RemoveLoses(t, size, p);
      WrittenAt(t, ws[|ws| - 1], size, k);
      assert At(Entries(t, size), k) == Latest(before, size, k);
      assert At(Entries(Built(ws, size), size), k) != Latest(ws, size, k);
    }
  }

  /** The tree holds the latest entry of every prefix, and nothing else, throughout a sequence of writes
      if and only if no removal in it discards. */
  lemma {:induction false} AlwaysLatest(ws: seq<Write>, size: nat)
    requires Writes(ws, size)
    ensures NeverDiscards(ws, size) <==> forall n :: 0 <= n <= |ws| ==> HoldsLatest(ws[..n], size)
  {
    if ws == [] {
      assert HoldsLatest(ws[..0], size);
    } else {
      var before, w := ws[..|ws| - 1], ws[|ws| - 1];
      AlwaysLatest(before, size);
      assert ws[..|ws|] == ws && ws[..|before|] == before;
      assert forall n | 0 <= n <= |before| :: before[..n] == ws[..n];
      if NeverDiscards(before, size) {
        assert HoldsLatest(before[..|before|], size);
        if w.Drop? {
          DropHoldsLatest(ws, size);
        } else {
          forall k: Prefix ensures At(Entries(Built(ws, size), size), k) == Latest(ws, size, k) {
            WrittenAt(Built(before, size), w, size, k);
            assert At(Entries(Built(before, size), size), k) == Latest(before, size, k);
          }
        }
      }
    }
  }

  // With one peer, as in this client, no removal discards.
  lemma {:induction false} OnePeerNeverDiscards(ws: seq<Write>, size: nat, p: Peer)
    requires Writes(ws, size) && forall w <- ws :: w.peer == p
    ensures NeverDiscards(ws, size) && !HasOther(Built(ws, size), p)
  {
    var t := Built(ws, size);
    if HasOther(t, p) {
      var k, q := OtherEntry(t, size, p);
      NoneStale(ws, size, k);
      LatestIsWritten(ws, size, k);
    }
    if ws != [] {
      OnePeerNeverDiscards(ws[..|ws| - 1], size, p);
      DiscardsOther(Built(ws[..|ws| - 1], size), p);
    }
  }

  lemma {:induction false} LatestIsWritten(ws: seq<Write>, size: nat, k: Prefix)
    requires Writes(ws, size) && Latest(ws, size, k).Some?
    ensures exists w <- ws :: w.peer == Latest(ws, size, k).value
  {
    var before, w := ws[..|ws| - 1], ws[|ws| - 1];
    assert Fits(w, size);
    if !(w.Put? && w.ip[..w.cidr] == k) {
      LatestIsWritten(before, size, k);
      var v :| v in before && v.peer == Latest(ws, size, k).value;
      assert v in ws;
    }
  }

  lemma {:induction false} DiscardsOther(t: Tree, p: Peer)
    ensures Discards(t, p) ==> HasOther(t, p)
  {
    if t.Node? {
      DiscardsOther(t.child0, p);
      DiscardsOther(t.child1, p);
    }
  }

  // After any sequence of insertions and removals in which none discards, in any order and with unmasked
  // addresses, a lookup returns the latest peer of the longest prefix of the address that has one, and
  // nothing if there is none.
  lemma LookupAfterWrites(ws: seq<Write>, ip: Address)
    requires Writes(ws, |ip|) && NeverDiscards(ws, |ip|)
    ensures match Lookup(Built(ws, |ip|), ip, None)
      case None => forall k :: 0 <= k <= |ip| ==> Latest(ws, |ip|, ip[..k]) == None
      case Some(p) => exists k :: 0 <= k <= |ip| && Latest(ws, |ip|, ip[..k]) == Some(p)
                                  && forall j :: k < j <= |ip| ==> Latest(ws, |ip|, ip[..j]) == None
  {
    var m := Entries(Built(ws, |ip|), |ip|);
    LookupIsBest(Built(ws, |ip|), ip, None);
    forall k | 0 <= k <= |ip| ensures Latest(ws, |ip|, ip[..k]) == At(m, ip[..k]) { BuiltAt(ws, |ip|, ip[..k]); }
  }

  lemma BuiltAt(ws: seq<Write>, size: nat, k: Prefix)
    requires Writes(ws, size) && NeverDiscards(ws, size)
    ensures Latest(ws, size, k) == At(Entries(Built(ws, size), size), k)
  {
    AlwaysLatest(ws, size);
    assert ws[..|ws|] == ws;
    assert HoldsLatest(ws[..|ws|], size);
  }
}
