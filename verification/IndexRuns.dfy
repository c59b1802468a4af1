/** What the index table holds after any run of one device: the pairs in the slots, and those that the
    responder's rotation overwrote. */
module IndexRuns {
  import opened Wrappers
  import opened Symbolic
  import opened IndexTables
  import opened Noise
  import opened PeerRuns

  // The key pairs that the table holds at their own index.
  function Tabled(d: Device): set<nat> {
    set n | 0 <= n < |d.pairs| && d.pairs[n].localIndex in d.table && d.table[d.pairs[n].localIndex] == KeyPairEntry(n)
  }

  function Held(slot: Option<nat>): set<nat> {
    if slot.Some? then {slot.value} else {}
  }

  function InSlots(s: Slots): set<nat> {
    Held(s.previous) + Held(s.current) + Held(s.next)
  }

  // The pairs that are in the table and in no slot: nothing will remove them.
  function Stray(d: Device): set<nat> {
    Tabled(d) - InSlots(d.slots)
  }

  // ----- The three changes of the table.

  lemma AssignTabled(d: Device, hs: Handshake, index: nat)
    requires TableOk(d) && FreeIndex(Deleted(d.table, d.hs.localIndex), index)
    ensures Tabled(d.(hs := hs, table := Deleted(d.table, d.hs.localIndex)[index := HandshakeEntry])) == Tabled(d)
  {
  }

  lemma DeleteTabled(d: Device, slot: Option<nat>)
    requires TableOk(d) && SlotOk(d, slot)
    ensures Tabled(d.(table := DeletePair(d.table, d.pairs, slot))) == Tabled(d) - Held(slot)
  {
  }

  lemma AddTabled(d: Device, pair: KeyPair)
    requires TableOk(d) && d.hs.localIndex != 0 && pair.localIndex == d.hs.localIndex
    ensures Tabled(d.(hs := Spent(d.hs), pairs := d.pairs + [pair],
      table := d.table[d.hs.localIndex := KeyPairEntry(|d.pairs|)]))
      == Tabled(d) + {|d.pairs|}
  {
  }

  // ----- What each step adds to the strays.

  // An accepted initiation arrives while a pair is in a slot that the responder's rotation overwrites.
  function Leaked(w: World, a: Action): set<nat> {
    if a.OnInitiation? && HandleInitiation(w.d, a.msg, Scalar(a.e), a.index, a.checked, a.stored).Some?
    then Held(w.d.slots.previous) + Held(w.d.slots.next)
    else {}
  }

  lemma NewKeyPairTabled(d: Device)
    requires TableOk(d) && SlotOk(d, d.slots.previous) && SlotOk(d, d.slots.current) && SlotOk(d, d.slots.next)
    requires Distinct(d.slots) && d.hs.localIndex != 0
    requires d.hs.state == ResponseConsumed || d.hs.state == ResponseCreated
    ensures var d' := NewKeyPair(d).value;
      Tabled(d') == Tabled(d) + {|d.pairs|} - (if d.hs.state == ResponseConsumed then Held(d.slots.previous) else {})
  {
    var pair := DerivedPair(d.hs);
    AddTabled(d, pair);
    AddPairKeeps(d, pair, d.slots.previous);
    var d1 := d.(hs := Spent(d.hs), pairs := d.pairs + [pair],
      table := d.table[d.hs.localIndex := KeyPairEntry(|d.pairs|)]);
    DeleteTabled(d1, d.slots.previous);
  }

  lemma OverwrittenStray(t: set<nat>, n: nat, previous: set<nat>, current: set<nat>, next: set<nat>)
    requires previous <= t && next <= t && previous !! current && next !! current && n !in t && n !in current
    ensures t + {n} - ({} + current + {n}) == t - (previous + current + next) + previous + next
  {
  }

  lemma RespondTabled(d: Device, e: Term, index: nat)
    requires TableOk(d) && SlotOk(d, d.slots.previous)
    requires SlotOk(d, d.slots.current) && SlotOk(d, d.slots.next) && Distinct(d.slots)
    requires d.hs.state == InitiationConsumed && FreeIndex(Deleted(d.table, d.hs.localIndex), index)
    ensures Respond(d, e, index).Some? && Tabled(Respond(d, e, index).value.0) == Tabled(d) + {|d.pairs|}
  {
    var (hs, _) := SealResponse(d.hs, e, index);
    AssignIndexKeeps(d, hs, index);
    AssignTabled(d, hs, index);
    NewKeyPairTabled(CreateResponse(d, e, index).value.0);
  }

  lemma RespondStrays(d: Device, e: Term, index: nat)
    requires TableOk(d) && SlotOk(d, d.slots.previous)
    requires SlotOk(d, d.slots.current) && SlotOk(d, d.slots.next) && Distinct(d.slots)
    requires d.hs.state == InitiationConsumed && FreeIndex(Deleted(d.table, d.hs.localIndex), index)
    ensures Respond(d, e, index).Some?
    ensures Stray(Respond(d, e, index).value.0) == Stray(d) + Held(d.slots.previous) + Held(d.slots.next)
  {
    RespondTabled(d, e, index);
    RespondRotates(d, e, index);
    OverwrittenStray(Tabled(d), |d.pairs|, Held(d.slots.previous), Held(d.slots.current), Held(d.slots.next));
  }

  lemma ResponseStrays(d: Device, msg: MessageResponse)
    requires Consistent(d)
    ensures HandleResponse(d, msg).Some? ==> Stray(HandleResponse(d, msg).value) == Stray(d)
  {
    var c := ConsumeResponse(d, msg);
    if c.Some? {
      assert Tabled(c.value) == Tabled(d);
      NewKeyPairTabled(c.value);
    }
  }

  lemma PacketStrays(d: Device, n: nat)
    requires Consistent(d)
    ensures Stray(ReceivePacket(d, n)) == Stray(d)
  {
    DeleteTabled(d, d.slots.previous);
  }

  lemma TwoDeletedTabled(d: Device, first: Option<nat>, second: Option<nat>, third: Option<nat>)
    requires TableOk(d) && SlotOk(d, first) && SlotOk(d, second) && SlotOk(d, third)
    requires (first.Some? ==> first != second && first != third) && (second.Some? ==> second != third)
    ensures var d' := d.(table := DeletePair(DeletePair(d.table, d.pairs, first), d.pairs, second));
      TableOk(d') && SlotOk(d', third) && Tabled(d') == Tabled(d) - Held(first) - Held(second)
  {
    DeleteTabled(d, first);
    DeletePairKeeps(d, first, second);
    DeletePairKeeps(d, first, third);
    var d1 := d.(table := DeletePair(d.table, d.pairs, first));
    DeleteTabled(d1, second);
    DeletePairKeeps(d1, second, third);
  }

  lemma EraseStrays(d: Device)
    requires Consistent(d)
    ensures Stray(ZeroAllKeys(d)) == Stray(d)
  {
    TwoDeletedTabled(d, d.slots.previous, d.slots.current, d.slots.next);
    var d2 := d.(table := DeletePair(DeletePair(d.table, d.pairs, d.slots.previous), d.pairs, d.slots.current));
    DeleteTabled(d2, d.slots.next);
    HandshakeNotTabled(d2.(table := WithoutPairs(d)), ZeroAllKeys(d).hs);
  }

  lemma HandshakeNotTabled(d: Device, hs: Handshake)
    requires d.hs.localIndex != 0 && d.hs.localIndex in d.table ==> d.table[d.hs.localIndex] == HandshakeEntry
    ensures Tabled(d.(table := Deleted(d.table, d.hs.localIndex), hs := hs, slots := EMPTY_SLOTS)) == Tabled(d)
  {
  }

  /** A step makes strays exactly by accepting an initiation while the previous or the next slot is
      taken, and no step removes one. */
  lemma StepStrays(w: World, a: Action)
    requires Consistent(w.d) && Possible(w, a)
    ensures Stray(Step(w, a).d) == Stray(w.d) + Leaked(w, a)
  {
    match a
    case Initiate(e, index, stamp) =>
      AssignTabled(w.d, SealInitiation(w.d.hs, Scalar(e), index, w.d.publicKey, stamp).0, index);
    case OnInitiation(msg, e, index, checked, stored) =>
      var c := ConsumeInitiation(w.d, msg, checked, stored);
      ConsumeKeepsRest(w.d, msg, checked, stored);
      if c.Some? {
        assert Tabled(c.value) == Tabled(w.d);
        RespondStrays(c.value, Scalar(e), index);
      }
    case OnResponse(response) => ResponseStrays(w.d, response);
    case OnPacket(pair) => PacketStrays(w.d, pair);
    case EraseKeys => EraseStrays(w.d);
  }

  // ----- Over runs.

  function Leaks(w: World, actions: seq<Action>): set<nat>
    decreases |actions|
  {
    if actions == [] then {} else Leaked(w, actions[0]) + Leaks(Step(w, actions[0]), actions[1..])
  }

  /** After every run the strays are those from before and the pairs that accepted initiations
      overwrote. */
  lemma {:induction false} RunStrays(w: World, actions: seq<Action>)
    requires Inv(w) && Run(w, actions)
    ensures Stray(Final(w, actions).d) == Stray(w.d) + Leaks(w, actions)
    decreases |actions|
  {
    if actions != [] {
      StepStrays(w, actions[0]);
      StepKeepsInv(w, actions[0]);
      RunStrays(Step(w, actions[0]), actions[1..]);
    }
  }

  /** Whatever happens later, an overwritten pair stays in the table, in no slot. */
  lemma OverwrittenPairsLinger(w: World, a: Action, more: seq<Action>, n: nat)
    requires Inv(w) && Possible(w, a) && n in Leaked(w, a) && Run(Step(w, a), more)
    ensures n in Stray(Final(Step(w, a), more).d)
  {
    StepStrays(w, a);
    StepKeepsInv(w, a);
    RunStrays(Step(w, a), more);
  }

  // At some moment of the run an initiation is accepted while the previous or the next slot is taken.
  predicate Overwrites(w: World, actions: seq<Action>)
    decreases |actions|
  {
    actions != [] &&
      (|| (&& actions[0].OnInitiation?
           && HandleInitiation(w.d, actions[0].msg, Scalar(actions[0].e), actions[0].index,
                               actions[0].checked, actions[0].stored).Some?
           && (w.d.slots.previous.Some? || w.d.slots.next.Some?))
       || Overwrites(Step(w, actions[0]), actions[1..]))
  }

  lemma {:induction false} LeaksIfOverwrites(w: World, actions: seq<Action>)
    ensures Leaks(w, actions) != {} <==> Overwrites(w, actions)
    decreases |actions|
  {
    if actions != [] {
      LeaksIfOverwrites(Step(w, actions[0]), actions[1..]);
      var s := w.d.slots;
      assert s.previous.Some? ==> s.previous.value in Held(s.previous);
      assert s.next.Some? ==> s.next.value in Held(s.next);
    }
  }

  // ----- The size of the table.

  lemma {:induction false} SizeOfRange(keys: set<nat>, d: Device, pairs: set<nat>)
    requires pairs <= Tabled(d) && TableOk(d) && keys == set n | n in pairs && n < |d.pairs| :: d.pairs[n].localIndex
    ensures |keys| == |pairs|
    decreases pairs
  {
    if pairs != {} {
      var x :| x in pairs;
      var i := d.pairs[x].localIndex;
      assert forall n <- pairs :: n < |d.pairs|;
      assert i in keys;
      SizeOfRange(keys - {i}, d, pairs - {x});
    } else {
      assert keys == {};
    }
  }

  function KeysOf(d: Device): set<nat> {
    set n | n in Tabled(d) && n < |d.pairs| :: d.pairs[n].localIndex
  }

  lemma EveryKey(d: Device)
    requires TableOk(d)
    ensures d.table.Keys == KeysOf(d) + (if d.hs.localIndex != 0 then {d.hs.localIndex} else {})
    ensures d.hs.localIndex !in KeysOf(d)
  {
    forall i | i in d.table && i != d.hs.localIndex ensures i in KeysOf(d) {
      assert d.table[i].pair in Tabled(d);
    }
  }

  /** The table holds one entry for each of those pairs, and one for the handshake while it has an index. */
  lemma TableSize(d: Device)
    requires TableOk(d)
    ensures |d.table| == |Tabled(d)| + if d.hs.localIndex != 0 then 1 else 0
  {
    SizeOfRange(KeysOf(d), d, Tabled(d));
    EveryKey(d);
    assert |d.table| == |d.table.Keys|;
  }

  lemma PartSize(part: set<nat>, whole: set<nat>)
    requires part <= whole
    ensures |whole| == |part| + |whole - part|
  {
    assert whole == part + (whole - part);
  }

  lemma SlotsSize(s: Slots)
    ensures |InSlots(s)| <= 3 && (s.next.None? ==> |InSlots(s)| <= 2)
  {
    assert InSlots(s) == Held(s.previous) + (Held(s.current) + Held(s.next));
    assert |Held(s.current) + Held(s.next)| <= |Held(s.current)| + |Held(s.next)|;
  }

  lemma SlotsTabled(d: Device)
    requires Consistent(d)
    ensures InSlots(d.slots) <= Tabled(d)
  {
  }

  lemma TableParts(d: Device)
    requires Consistent(d)
    ensures Tabled(d) == InSlots(d.slots) + Stray(d)
    ensures |d.table| == |InSlots(d.slots)| + |Stray(d)| + if d.hs.localIndex != 0 then 1 else 0
    ensures Stray(d) == {} ==> |d.table| <= 4
  {
    SlotsTabled(d);
    SlotsSize(d.slots);
    PartSize(InSlots(d.slots), Tabled(d));
    TableSize(d);
  }

  /** After every run of a new device: the table holds the pairs in the slots, the strays, and the
      handshake while it has an index.  There are strays, which stay for ever, if and only if an
      initiation was accepted while the previous or the next slot was taken; otherwise the table has at
      most four entries. */
  lemma TableAfterRun(privateKey: Term, publicKey: Term, remoteStatic: Term, psk: Term, now: int, actions: seq<Action>)
    requires Run(Start(privateKey, publicKey, remoteStatic, psk, now), actions)
    ensures var w := Start(privateKey, publicKey, remoteStatic, psk, now); var d := Final(w, actions).d;
      && Tabled(d) == InSlots(d.slots) + Stray(d) && Stray(d) == Leaks(w, actions)
      && (Stray(d) == {} <==> !Overwrites(w, actions))
      && |d.table| == |InSlots(d.slots)| + |Stray(d)| + (if d.hs.localIndex != 0 then 1 else 0)
      && (!Overwrites(w, actions) ==> |d.table| <= 4)
  {
    var w := Start(privateKey, publicKey, remoteStatic, psk, now);
    StartInv(privateKey, publicKey, remoteStatic, psk, now);
    RunKeepsInv(w, actions);
    RunStrays(w, actions);
    LeaksIfOverwrites(w, actions);
    TableParts(Final(w, actions).d);
  }

  // ----- Devices that only initiate.

  lemma {:induction false} NextStaysEmpty(w: World, actions: seq<Action>)
    requires Inv(w) && Run(w, actions) && w.d.slots.next.None?
    requires forall a <- actions :: !a.OnInitiation?
    ensures Final(w, actions).d.slots.next.None? && !Overwrites(w, actions)
    decreases |actions|
  {
    if actions != [] {
      var w' := Step(w, actions[0]);
      StepKeepsInv(w, actions[0]);
      SlotMoves(w, actions[0]);
      if actions[0].OnResponse? { ResponseCompletesLatest(w.d, actions[0].response); }
      NextStaysEmpty(w', actions[1..]);
    }
  }

  /** On a run that never answers an initiation, the table never has more than three entries. */
  lemma InitiatorTableSmall(
      privateKey: Term, publicKey: Term, remoteStatic: Term, psk: Term, now: int, actions: seq<Action>)
    requires Run(Start(privateKey, publicKey, remoteStatic, psk, now), actions)
    requires forall a <- actions :: !a.OnInitiation?
    ensures |Final(Start(privateKey, publicKey, remoteStatic, psk, now), actions).d.table| <= 3
  {
    var w := Start(privateKey, publicKey, remoteStatic, psk, now);
    StartInv(privateKey, publicKey, remoteStatic, psk, now);
    RunKeepsInv(w, actions);
    NextStaysEmpty(w, actions);
    TableAfterRun(privateKey, publicKey, remoteStatic, psk, now, actions);
    SlotsSize(Final(w, actions).d.slots);
  }
}
