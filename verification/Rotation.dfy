/** How the key-pair slots move: what becomes current, and when.  The pair in the current slot is the one
    that packets are sealed under. */
module Rotation {
  import opened Wrappers
  import opened Symbolic
  import opened Noise
  import opened PeerRuns
  import Agreement
  import IndexTables
  import Tai64

  // The table without the index of the pair in a slot.
  ghost predicate OnlyLost(t: IndexTables.Table, t': IndexTables.Table, pairs: seq<KeyPair>, slot: Option<nat>) {
    && (forall i :: i in t' <==> i in t && !(slot.Some? && slot.value < |pairs| && i == pairs[slot.value].localIndex))
    && forall i <- t' :: t'[i] == t[i]
  }

  // ----- What each operation does to the slots.

  /** An initiator's new pair becomes current, unless one waits to be confirmed: then it waits in that
      one's place.  The pair it displaces is kept as the previous one, whose own index is given up. */
  lemma ResponseRotates(d: Device, m: MessageResponse)
    requires Consistent(d) && HandleResponse(d, m).Some?
    ensures var (d', n) := (HandleResponse(d, m).value, |d.pairs|);
      && d'.pairs[..n] == d.pairs && |d'.pairs| == n + 1 && d'.pairs[n].isInitiator
      && d'.slots.previous == (if d.slots.next.None? then d.slots.current else d.slots.next)
      && d'.slots.current == (if d.slots.next.None? then Some(n) else d.slots.current)
      && d'.slots.next == (if d.slots.next.None? then None else Some(n))
      && OnlyLost(d.table[m.receiver := IndexTables.KeyPairEntry(n)], d'.table, d.pairs, d.slots.previous)
  {
    ResponseCompletesLatest(d, m);
  }

  /** A responder's new pair waits for its first packet; the current pair stays, the previous one goes. */
  lemma AnswerRotates(d: Device, msg: MessageInitiation, e: Term, index: nat, checked: int, stored: int)
    requires HandleInitiation(d, msg, e, index, checked, stored).Some?
    ensures var (d', n) := (HandleInitiation(d, msg, e, index, checked, stored).value.0, |d.pairs|);
      && d'.pairs[..n] == d.pairs && |d'.pairs| == n + 1 && !d'.pairs[n].isInitiator
      && d'.slots.previous == None && d'.slots.current == d.slots.current && d'.slots.next == Some(n)
  {
    ConsumeKeepsRest(d, msg, checked, stored);
    RespondRotates(ConsumeInitiation(d, msg, checked, stored).value, e, index);
  }

  // The waiting pair `n` became current; the current one is kept, and the previous one's index given up.
  ghost predicate Promoted(d: Device, d': Device, n: nat) {
    && d'.pairs == d.pairs && d'.hs == d.hs
    && d'.slots.previous == d.slots.current && d'.slots.current == Some(n) && d'.slots.next == None
    && OnlyLost(d.table, d'.table, d.pairs, d.slots.previous)
  }

  /** A packet under the waiting pair makes it current; any other moves nothing. */
  lemma PacketRotates(d: Device, n: nat)
    requires Consistent(d)
    ensures d.slots.next == Some(n) ==> Promoted(d, ReceivePacket(d, n), n)
    ensures d.slots.next != Some(n) ==> ReceivePacket(d, n) == d
  {
  }

  // ----- Steps and runs.

  // A response or an initiation of this step made a pair.
  predicate Completes(w: World, a: Action) {
    a.OnResponse? && HandleResponse(w.d, a.response).Some?
  }

  predicate Answers(w: World, a: Action) {
    a.OnInitiation? && HandleInitiation(w.d, a.msg, Scalar(a.e), a.index, a.checked, a.stored).Some?
  }

  predicate Confirms(w: World, a: Action) {
    a.OnPacket? && w.d.slots.next == Some(a.pair)
  }

  /** The slots after any step, and no step but these four moves them. */
  lemma StepSlots(w: World, a: Action)
    requires Consistent(w.d) && Possible(w, a)
    ensures var (s, s', n) := (w.d.slots, Step(w, a).d.slots, |w.d.pairs|);
      && s'.current == (
           if Completes(w, a) && s.next == None then Some(n)
           else if Confirms(w, a) then s.next else if a.EraseKeys? then None else s.current)
      && s'.next == (
           if Answers(w, a) || (Completes(w, a) && s.next != None) then Some(n)
           else if Confirms(w, a) || a.EraseKeys? then None else s.next)
      && s'.previous == (
           if Completes(w, a) && s.next != None then s.next else if Completes(w, a) || Confirms(w, a) then s.current
           else if Answers(w, a) || a.EraseKeys? then None else s.previous)
  {
    match a
    case OnResponse(m) => if Completes(w, a) { ResponseRotates(w.d, m); }
    case OnInitiation(msg, e, index, checked, stored) =>
      if Answers(w, a) { AnswerRotates(w.d, msg, Scalar(e), index, checked, stored); }
    case OnPacket(n) => PacketRotates(w.d, n);
    case _ =>
  }

  lemma PacketPromotes(w: World, actions: seq<Action>, n: nat)
    requires Inv(w) && Run(w, actions) && Final(w, actions).d.slots.next == Some(n)
    ensures Promoted(Final(w, actions).d, Final(w, actions + [OnPacket(n)]).d, n)
  {
    RunKeepsInv(w, actions);
    FinalThen(w, actions, OnPacket(n));
    StepPromotes(Final(w, actions), n);
  }

  lemma StepPromotes(w: World, n: nat)
    requires Consistent(w.d) && w.d.slots.next == Some(n)
    ensures Promoted(w.d, Step(w, OnPacket(n)).d, n)
  {
  }

  // Nothing is answered, erased or completed.
  ghost predicate Uneventful(w: World, actions: seq<Action>)
    decreases |actions|
  {
    actions != [] ==>
      && !Answers(w, actions[0]) && !Completes(w, actions[0]) && !actions[0].EraseKeys?
      && Uneventful(Step(w, actions[0]), actions[1..])
  }

  // No initiation is answered.
  ghost predicate OnlyInitiates(w: World, actions: seq<Action>)
    decreases |actions|
  {
    actions != [] ==> !Answers(w, actions[0]) && OnlyInitiates(Step(w, actions[0]), actions[1..])
  }

  lemma {:induction false} InitiatorHasNoNext(w: World, actions: seq<Action>)
    requires Inv(w) && Run(w, actions) && OnlyInitiates(w, actions) && w.d.slots.next == None
    ensures Inv(Final(w, actions)) && Final(w, actions).d.slots.next == None
    decreases |actions|
  {
    if actions != [] {
      StepSlots(w, actions[0]);
      StepKeepsInv(w, actions[0]);
      InitiatorHasNoNext(Step(w, actions[0]), actions[1..]);
    }
  }

  lemma {:induction false} CurrentStays(w: World, actions: seq<Action>)
    requires Inv(w) && Run(w, actions) && Uneventful(w, actions) && w.d.slots.next == None
    ensures Final(w, actions).d.slots == w.d.slots
    decreases |actions|
  {
    if actions != [] {
      StepSlots(w, actions[0]);
      StepKeepsInv(w, actions[0]);
      CurrentStays(Step(w, actions[0]), actions[1..]);
    }
  }

  /** A device that only initiates, from an accepted response until the next one or an erasure, seals under
      that response's pair, and still opens under the one before. */
  lemma InitiatorUsesLatest(
      privateKey: Term, publicKey: Term, remoteStatic: Term, psk: Term, now: int,
      some: seq<Action>, m: MessageResponse, more: seq<Action>)
    requires var start := Start(privateKey, publicKey, remoteStatic, psk, now);
      && Run(start, some) && OnlyInitiates(start, some)
      && HandleResponse(Final(start, some).d, m).Some?
      && var w := Step(Final(start, some), OnResponse(m)); Run(w, more) && Uneventful(w, more)
    ensures var before := Final(Start(privateKey, publicKey, remoteStatic, psk, now), some);
      var slots := Final(Step(before, OnResponse(m)), more).d.slots;
      && slots.current == Some(|before.d.pairs|) && slots.previous == before.d.slots.current && slots.next == None
  {
    var start := Start(privateKey, publicKey, remoteStatic, psk, now);
    StartInv(privateKey, publicKey, remoteStatic, psk, now);
    InitiatorHasNoNext(start, some);
    var before := Final(start, some);
    StepSlots(before, OnResponse(m));
    StepKeepsInv(before, OnResponse(m));
    CurrentStays(Step(before, OnResponse(m)), more);
  }

  // No pair is made or erased, and no packet arrives under pair `n`.
  ghost predicate Quiet(w: World, actions: seq<Action>, n: nat)
    decreases |actions|
  {
    actions != [] ==>
      && !Answers(w, actions[0]) && !Completes(w, actions[0]) && !actions[0].EraseKeys? && actions[0] != OnPacket(n)
      && Quiet(Step(w, actions[0]), actions[1..], n)
  }

  lemma {:induction false} NextStays(w: World, actions: seq<Action>, n: nat)
    requires Inv(w) && Run(w, actions) && w.d.slots.next == Some(n) && Quiet(w, actions, n)
    ensures Inv(Final(w, actions)) && Final(w, actions).d.slots == w.d.slots
    decreases |actions|
  {
    if actions != [] {
      StepSlots(w, actions[0]);
      StepKeepsInv(w, actions[0]);
      NextStays(Step(w, actions[0]), actions[1..], n);
    }
  }

  /** A device that answered an initiation seals under the new pair from the first packet under it on,
      whatever else arrived before and after, until a pair is made or erased; until that packet it goes
      on with the pair it had. */
  lemma ResponderUsesConfirmed(w: World, a: Action, some: seq<Action>, more: seq<Action>)
    requires Inv(w) && Possible(w, a) && Answers(w, a)
    requires var n := |w.d.pairs|; Run(Step(w, a), some) && Quiet(Step(w, a), some, n)
    requires var v := Final(Step(w, a), some);
      Run(Step(v, OnPacket(|w.d.pairs|)), more) && Uneventful(Step(v, OnPacket(|w.d.pairs|)), more)
    ensures var v := Final(Step(w, a), some); var slots := Final(Step(v, OnPacket(|w.d.pairs|)), more).d.slots;
      && v.d.slots.current == w.d.slots.current
      && slots.current == Some(|w.d.pairs|) && slots.previous == w.d.slots.current && slots.next == None
  {
    var n := |w.d.pairs|;
    StepSlots(w, a);
    StepKeepsInv(w, a);
    NextStays(Step(w, a), some, n);
    var v := Final(Step(w, a), some);
    assert v.d.slots.next == Some(n) && SlotOk(v.d, v.d.slots.next);
    StepSlots(v, OnPacket(n));
    StepKeepsInv(v, OnPacket(n));
    CurrentStays(Step(v, OnPacket(n)), more);
  }

  // ----- An undisturbed handshake, to its end.

  // The initiator's device and the responder's after one initiation, one response and one packet.
  predicate Established(
      a: Device, b: Device, e: nat, f: nat, i: nat, j: nat, stamp: Tai64.Bytes, checked: int, stored: int) {
    var (a1, msg) := CreateInitiation(a, Scalar(e), i, stamp);
    msg.Some? && (
    match HandleInitiation(b, msg.value, Scalar(f), j, checked, stored)
    case None => false
    case Some((b1, response)) =>
      match HandleResponse(a1, response)
      case None => false
      case Some(a2) =>
        var (n, m) := (|a.pairs|, |b.pairs|);
        var b2 := ReceivePacket(b1, m);
        && n < |a2.pairs| && m < |b2.pairs| && Agreement.Mirror(a2.pairs[n], b2.pairs[m])
        && a2.slots.current == Some(n) && b1.slots.current == b.slots.current && b2.slots.current == Some(m)
        && a2.slots.previous == a.slots.current && b2.slots.previous == b.slots.current
        && j in b2.table && b2.table[j] == IndexTables.KeyPairEntry(m) && a2.pairs[n].remoteIndex == j
        && i in a2.table && a2.table[i] == IndexTables.KeyPairEntry(n) && b2.pairs[m].remoteIndex == i)
  }

  /** Left alone, a handshake ends with the two devices sealing under pairs that mirror each other: the
      initiator with the response, the responder with the first packet.  Each finds the other's packets'
      pair at the index they name. */
  lemma HandshakeEstablishes(a: Device, b: Device, x: nat, y: nat, e: nat, f: nat, i: nat, j: nat,
                             stamp: Tai64.Bytes, checked: int, stored: int)
    requires Agreement.Configured(a, b, x, y) && |stamp| == Tai64.TAI64N_SIZE && Timely(b.hs, stamp, checked)
    requires Consistent(a) && Consistent(b) && a.slots.next == None
    requires FreeIndex(IndexTables.Deleted(a.table, a.hs.localIndex), i)
    requires FreeIndex(IndexTables.Deleted(b.table, b.hs.localIndex), j)
    ensures Established(a, b, e, f, i, j, stamp, checked, stored)
  {
    Agreement.HandshakeCompletes(a, b, x, y, e, f, i, j, stamp, checked, stored);
    var (a1, sent) := CreateInitiation(a, Scalar(e), i, stamp);
    InitiateKeeps(a, Scalar(e), i, stamp);
    var msg := sent.value;
    var (b1, response) := HandleInitiation(b, msg, Scalar(f), j, checked, stored).value;
    AnswerRotates(b, msg, Scalar(f), j, checked, stored);
    HandleInitiationKeeps(b, msg, Scalar(f), j, checked, stored);
    ResponseRotates(a1, response);
    ResponseCompletesLatest(a1, response);
    PacketRotates(b1, |b.pairs|);
    ReceiveKeeps(b1, |b.pairs|);
  }
}
