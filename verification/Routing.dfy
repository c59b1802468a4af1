/** The routing table of `controller/routing.go`: one trie for each address family. */
module Routing {
  import opened Wrappers
  import opened Addresses
  import opened Tries
  import T = PrefixTree

  class RoutingTable {
    var IPv4: Trie?
    var IPv6: Trie?

    constructor ()
      ensures Valid() && Nodes() == {}
      ensures Table4() == map[] && Table6() == map[]
    {
      IPv4, IPv6 := null, null;
    }

    // Every trie node of the table.
    ghost function Nodes(): set<Trie>
      reads this, IPv4, IPv6
    {
      ReprOf(IPv4) + ReprOf(IPv6)
    }

    ghost predicate Valid()
      reads this, IPv4, IPv6, Nodes()
    {
      && ReprOf(IPv4) !! ReprOf(IPv6)
      && ValidTrie(IPv4) && T.WellFormed(TreeOf(IPv4), 8 * IPV4_LEN)
      && ValidTrie(IPv6) && T.WellFormed(TreeOf(IPv6), 8 * IPV6_LEN)
    }

    ghost function Table4(): T.Table
      requires Valid()
      reads this, IPv4, IPv6, Nodes()
    {
      T.Entries(TreeOf(IPv4), 8 * IPV4_LEN)
    }

    ghost function Table6(): T.Table
      requires Valid()
      reads this, IPv4, IPv6, Nodes()
    {
      T.Entries(TreeOf(IPv6), 8 * IPV6_LEN)
    }

    method Reset()
      modifies this
      ensures Valid() && Table4() == map[] && Table6() == map[]
    {
      IPv4, IPv6 := null, null;
    }

    // An address of any other length is a panic, which leaves the table alone.
    method Insert(ip: Bytes, cidr: nat, peer: T.Peer) returns (panics: bool)
      requires Valid() && cidr <= 8 * |ip|
      modifies this, Nodes()
      ensures Valid() && fresh(Nodes() - old(Nodes()))
      ensures panics <==> |ip| != IPV4_LEN && |ip| != IPV6_LEN
      ensures Table4() == if |ip| == IPV4_LEN then old(Table4())[Bits(ip)[..cidr] := peer] else old(Table4())
      ensures Table6() == if |ip| == IPV6_LEN then old(Table6())[Bits(ip)[..cidr] := peer] else old(Table6())
    {
      panics := false;
      if |ip| == IPV6_LEN {
        var root := InsertEntry(IPv6, ip, cidr, peer);
        IPv6 := root;
      } else if |ip| == IPV4_LEN {
        var root := InsertEntry(IPv4, ip, cidr, peer);
        IPv4 := root;
      } else {
        panics := true;
      }
    }

    method LookupIPv4(address: Bytes) returns (peer: Option<T.Peer>)
      requires Valid() && |address| == IPV4_LEN
      ensures peer == T.BestPeer(Table4(), Bits(address))
    {
      peer := Lookup(IPv4, address);
    }

    method LookupIPv6(address: Bytes) returns (peer: Option<T.Peer>)
      requires Valid() && |address| == IPV6_LEN
      ensures peer == T.BestPeer(Table6(), Bits(address))
    {
      peer := Lookup(IPv6, address);
    }

    // Deletes the entries of `p`; whether anything else goes with them is decided by Discards.
    method RemovePeer(p: T.Peer)
      requires Valid()
      modifies this, Nodes()
      ensures Valid() && Nodes() <= old(Nodes())
      ensures Table4() == T.Without(old(Table4()), p) <==> !T.Discards(old(TreeOf(IPv4)), p)
      ensures Table6() == T.Without(old(Table6()), p) <==> !T.Discards(old(TreeOf(IPv6)), p)
      ensures T.PartOf(Table4(), T.Without(old(Table4()), p))
      ensures T.PartOf(Table6(), T.Without(old(Table6()), p))
    {
      RemoveIPv4(p);
      RemoveIPv6(p);
    }

    // table.IPv4 = table.IPv4.RemovePeer(peer)
    method RemoveIPv4(p: T.Peer)
      requires Valid()
      modifies this, ReprOf(IPv4)
      ensures Valid() && IPv6 == old(IPv6) && ReprOf(IPv4) <= old(ReprOf(IPv4)) && ReprOf(IPv6) == old(ReprOf(IPv6))
      ensures Table4() == T.Without(old(Table4()), p) <==> !T.Discards(old(TreeOf(IPv4)), p)
      ensures T.PartOf(Table4(), T.Without(old(Table4()), p))
      ensures TreeOf(IPv6) == old(TreeOf(IPv6))
    {
      var root := RemoveEntries(IPv4, 8 * IPV4_LEN, p);
      IPv4 := root;
    }

    // table.IPv6 = table.IPv6.RemovePeer(peer)
    method RemoveIPv6(p: T.Peer)
      requires Valid()
      modifies this, ReprOf(IPv6)
      ensures Valid() && IPv4 == old(IPv4) && ReprOf(IPv6) <= old(ReprOf(IPv6)) && ReprOf(IPv4) == old(ReprOf(IPv4))
      ensures Table6() == T.Without(old(Table6()), p) <==> !T.Discards(old(TreeOf(IPv6)), p)
      ensures T.PartOf(Table6(), T.Without(old(Table6()), p))
      ensures TreeOf(IPv4) == old(TreeOf(IPv4))
    {
      var root := RemoveEntries(IPv6, 8 * IPV6_LEN, p);
      IPv6 := root;
    }

    // The prefixes of `p` in both families, each once.
    method AllowedIPs(p: T.Peer) returns (allowed: seq<IPNet>)
      requires Valid()
      ensures Denoted(allowed) == T.AllowedIPs(TreeOf(IPv4), p) + T.AllowedIPs(TreeOf(IPv6), p)
    {
      allowed := Tries.AllowedIPs(IPv4, IPV4_LEN, p, []);
      allowed := Tries.AllowedIPs(IPv6, IPV6_LEN, p, allowed);
    }
  }
}
