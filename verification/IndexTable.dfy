/** The receiver-index table of `controller/index.go`; index 0 means unset. */
module IndexTables {
  import opened Wrappers

  // An entry names the peer's handshake or one of its key pairs; key pairs are numbered in order of
  // creation, which stands for their address.
  datatype Entry = HandshakeEntry | KeyPairEntry(pair: nat)

  type Table = map<nat, Entry>

  const INDEX_LIMIT: nat := 0x1_0000_0000

  function Deleted(t: Table, index: nat): Table {
    if index == 0 then t else t - {index}
  }

  class IndexTable {
    var table: Table

    constructor Init()
      ensures table == map[]
    {
      table := map[];
    }

    method Delete(index: nat)
      modifies this
      ensures table == Deleted(old(table), index)
    {
      if index == 0 {
        return;
      }
      table := table - {index};
    }

    method Insert(key: nat, value: Entry)
      modifies this
      ensures table == old(table)[key := value]
    {
      table := table[key := value];
    }

    // Draws random numbers until one is neither zero nor in use; `draws` are the numbers drawn.
    method NewIndex(draws: seq<nat>) returns (index: nat)
      requires exists i :: 0 <= i < |draws| && draws[i] != 0 && draws[i] !in table
      modifies this
      ensures index in draws && index != 0 && index !in old(table)
      ensures table == old(table)[index := HandshakeEntry]
    {
      var i := 0;
      index := draws[0];
      while index == 0 || index in table
        invariant i < |draws| && index == draws[i] && table == old(table)
        invariant forall j :: 0 <= j < i ==> draws[j] == 0 || draws[j] in table
        decreases |draws| - i
      {
        i := i + 1;
        index := draws[i];
      }
      table := table[index := HandshakeEntry];
    }

    method Lookup(id: nat) returns (entry: Option<Entry>)
      ensures entry == if id in table then Some(table[id]) else None
    {
      entry := if id in table then Some(table[id]) else None;
    }
  }
}
