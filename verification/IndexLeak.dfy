/** The index table can grow with every answered initiation: a run that fills it. */
module IndexLeak {
  import opened Wrappers
  import opened Symbolic
  import IndexTables
  import opened Noise
  import opened PeerRuns
  import IndexRuns
  import Agreement
  import Tai64

  // Moments a second apart.
  function Moment(now: int, k: int): int { now + 1_000_000_000 * k }

  // Private keys that differ from the static ones and from each other.
  function InitiatorScalar(x: nat, y: nat, k: nat): nat { x + y + 1 + 2 * k }

  function ResponderScalar(x: nat, y: nat, k: nat): nat { x + y + 2 + 2 * k }

  // Initiation number `k` of device `a`, answered as it arrives.
  function AnswerNumber(a: Device, x: nat, y: nat, now: int, k: nat): Action {
    var e, at := Scalar(InitiatorScalar(x, y, k)), Moment(now, k);
    var msg := SealInitiation(a.hs, e, k + 1, a.publicKey, Tai64.TimestampOf(at)).1;
    OnInitiation(msg, ResponderScalar(x, y, k), k + 1, at, at)
  }

  function LastStamp(now: int, k: nat): Tai64.Bytes {
    if k == 0 then ZERO_TIMESTAMP else Tai64.TimestampOf(Moment(now, k - 1))
  }

  // The clock stays where timestamps can tell the seconds.
  predicate InTime(now: int, k: nat) {
    0 <= now && Tai64.InRange(Moment(now, k)) && k < IndexTables.INDEX_LIMIT
  }

  // The device configured for `a` after it answered `k` of them.
  ghost predicate Answered(w: World, a: Device, x: nat, y: nat, now: int, k: nat) {
    && Agreement.Configured(a, w.d, x, y)
    && |w.d.pairs| == k && w.d.hs.localIndex == 0 && (forall i <- w.d.table :: 1 <= i <= k)
    && (forall e <- w.used :: e < ResponderScalar(x, y, k)) && w.now <= Moment(now, k)
    && w.d.hs.lastTimestamp == LastStamp(now, k)
    && w.d.hs.lastConsumption == (if k == 0 then None else Some(Moment(now, k - 1)))
    && w.d.slots == Slots(None, None, if k == 0 then None else Some(k - 1))
  }

  lemma StampsIncrease(now: int, k: nat)
    requires InTime(now, k)
    ensures Tai64.After(Tai64.TimestampOf(Moment(now, k)), LastStamp(now, k))
  {
    if k == 0 {
      AllZero(ZERO_TIMESTAMP);
      Tai64.TimestampValue(now);
      Tai64.SecondsExact(now);
      Tai64.GreaterIsNumeric(Tai64.TimestampOf(now), ZERO_TIMESTAMP);
    } else {
      Tai64.LaterTimestamps(Moment(now, k - 1), Moment(now, k));
    }
  }

  lemma {:induction false} AllZero(b: Tai64.Bytes)
    requires forall i :: 0 <= i < |b| ==> b[i] == 0
    ensures Tai64.Value(b) == 0
    decreases |b|
  {
    if b != [] { AllZero(b[..|b| - 1]); }
  }

  // The initiation is accepted, with its own timestamp.
  lemma AnswerAccepted(w: World, a: Device, x: nat, y: nat, now: int, k: nat)
    requires Answered(w, a, x, y, now, k) && InTime(now, k)
    ensures var step := AnswerNumber(a, x, y, now, k);
      && ConsumeInitiation(w.d, step.msg, step.checked, step.stored).Some?
      && StampIn(w.d, step.msg) == Some(Tai64.TimestampOf(Moment(now, k)))
  {
    var e, at := InitiatorScalar(x, y, k), Moment(now, k);
    StampsIncrease(now, k);
    Agreement.Accepts(a, w.d, x, y, e, k + 1, Tai64.TimestampOf(at), at, at);
    Agreement.InitiationOpens(a, w.d, x, y, e, k + 1, Tai64.TimestampOf(at));
  }

  lemma RespondFields(d: Device, e: Term, index: nat)
    requires d.hs.state == InitiationConsumed
    ensures match Respond(d, e, index)
      case None => false
      case Some((d', _)) =>
        && d'.table == IndexTables.Deleted(d.table, d.hs.localIndex)[index := IndexTables.KeyPairEntry(|d.pairs|)]
        && d'.hs.localIndex == 0 && |d'.pairs| == |d.pairs| + 1
        && d'.slots == Rotated(d.slots, |d.pairs|, false)
        && d'.hs.remoteStatic == d.hs.remoteStatic && d'.hs.presharedKey == d.hs.presharedKey
  {
  }

  lemma AnswerFields(w: World, a: Device, x: nat, y: nat, now: int, k: nat)
    requires Answered(w, a, x, y, now, k) && InTime(now, k)
    ensures var step := AnswerNumber(a, x, y, now, k);
      match HandleInitiation(w.d, step.msg, Scalar(step.e), step.index, step.checked, step.stored)
      case None => false
      case Some((d', _)) =>
        && d'.table == w.d.table[k + 1 := IndexTables.KeyPairEntry(k)] && d'.hs.localIndex == 0 && |d'.pairs| == k + 1
        && d'.slots == Slots(None, None, Some(k))
        && d'.hs.lastTimestamp == Tai64.TimestampOf(Moment(now, k)) && d'.hs.lastConsumption == Some(step.stored)
        && SameIdentity(w.d, d')
        && d'.hs.remoteStatic == w.d.hs.remoteStatic && d'.hs.presharedKey == w.d.hs.presharedKey
  {
    var step := AnswerNumber(a, x, y, now, k);
    AnswerAccepted(w, a, x, y, now, k);
    var c := ConsumeInitiation(w.d, step.msg, step.checked, step.stored).value;
    ConsumeKeepsRest(w.d, step.msg, step.checked, step.stored);
    RespondFields(c, Scalar(step.e), step.index);
    InitiationRecorded(w.d, step.msg, Scalar(step.e), step.index, step.checked, step.stored);
  }

  // The world after an answer, its device aside.
  lemma AnswerWorld(w: World, a: Action)
    requires a.OnInitiation?
    ensures match HandleInitiation(w.d, a.msg, Scalar(a.e), a.index, a.checked, a.stored)
      case None => true
      case Some((d', _)) => Step(w, a).d == d' && Step(w, a).used == w.used + {a.e} && Step(w, a).now == a.stored
  {
  }

  lemma AnsweredAfter(w: World, w': World, a: Device, x: nat, y: nat, now: int, k: nat)
    requires Answered(w, a, x, y, now, k) && w'.used == w.used + {ResponderScalar(x, y, k)} && w'.now == Moment(now, k)
    requires w'.d.table == w.d.table[k + 1 := IndexTables.KeyPairEntry(k)]
    requires w'.d.hs.localIndex == 0 && |w'.d.pairs| == k + 1
    requires w'.d.slots == Slots(None, None, Some(k)) && SameIdentity(w.d, w'.d)
    requires w'.d.hs.lastTimestamp == Tai64.TimestampOf(Moment(now, k))
    requires w'.d.hs.lastConsumption == Some(Moment(now, k))
    requires w'.d.hs.remoteStatic == w.d.hs.remoteStatic && w'.d.hs.presharedKey == w.d.hs.presharedKey
    ensures Answered(w', a, x, y, now, k + 1)
  {
  }

  lemma AnswerNext(w: World, a: Device, x: nat, y: nat, now: int, k: nat)
    requires Answered(w, a, x, y, now, k) && InTime(now, k)
    ensures var step := AnswerNumber(a, x, y, now, k);
      && Possible(w, step) && Answered(Step(w, step), a, x, y, now, k + 1)
      && IndexRuns.Leaked(w, step) == if k == 0 then {} else {k - 1}
  {
    AnswerFields(w, a, x, y, now, k);
    AnswerWorld(w, AnswerNumber(a, x, y, now, k));
    AnsweredAfter(w, Step(w, AnswerNumber(a, x, y, now, k)), a, x, y, now, k);
  }

  lemma {:induction false} RunMore(w: World, actions: seq<Action>, a: Action)
    requires Run(w, actions) && Possible(Final(w, actions), a)
    ensures Run(w, actions + [a]) && Final(w, actions + [a]) == Step(Final(w, actions), a)
    decreases |actions|
  {
    if actions == [] {
      assert actions + [a] == [a];
    } else {
      RunMore(Step(w, actions[0]), actions[1..], a);
      assert (actions + [a])[1..] == actions[1..] + [a];
    }
  }

  lemma OneMoreStray(w: World, actions: seq<Action>, a: Action)
    requires Inv(w) && Run(w, actions) && Possible(Final(w, actions), a)
    ensures Run(w, actions + [a]) && Final(w, actions + [a]) == Step(Final(w, actions), a)
    ensures IndexRuns.Stray(Final(w, actions + [a]).d) ==
      IndexRuns.Stray(Final(w, actions).d) + IndexRuns.Leaked(Final(w, actions), a)
  {
    RunMore(w, actions, a);
    RunKeepsInv(w, actions);
    IndexRuns.StepStrays(Final(w, actions), a);
  }

  function FirstPairs(k: nat): (pairs: set<nat>)
    ensures |pairs| == k && forall n <- pairs :: n < k
  {
    if k == 0 then {} else FirstPairs(k - 1) + {k - 1}
  }

  /** For every number that indices can tell apart there is a run of a new device that answers so many
      initiations and leaves every pair but the last in the table and in no slot. */
  lemma {:induction false} TableGrows(x: nat, y: nat, psk: Term, now: int, k: nat) returns (actions: seq<Action>)
    requires InTime(now, k)
    ensures var w := Start(Scalar(y), Public(y), Public(x), psk, now);
      && Run(w, actions) && |actions| == k
      && Answered(Final(w, actions), Initial(Scalar(x), Public(x), Public(y), psk), x, y, now, k)
      && IndexRuns.Stray(Final(w, actions).d) == FirstPairs(if k == 0 then 0 else k - 1)
  {
    var w := Start(Scalar(y), Public(y), Public(x), psk, now);
    actions := [];
    if k > 0 {
      var before := TableGrows(x, y, psk, now, k - 1);
      var a := Initial(Scalar(x), Public(x), Public(y), psk);
      AnswerNext(Final(w, before), a, x, y, now, k - 1);
      StartInv(Scalar(y), Public(y), Public(x), psk, now);
      OneMoreStray(w, before, AnswerNumber(a, x, y, now, k - 1));
      actions := before + [AnswerNumber(a, x, y, now, k - 1)];
    }
  }

  /** So the table is not bounded by the number of slots: such a run leaves as many entries as it has
      steps, in three slots. */
  lemma TableUnbounded(x: nat, y: nat, psk: Term, now: int, k: nat) returns (actions: seq<Action>)
    requires InTime(now, k)
    ensures var w := Start(Scalar(y), Public(y), Public(x), psk, now);
      Run(w, actions) && |actions| == k && |Final(w, actions).d.table| == k
  {
    actions := TableGrows(x, y, psk, now, k);
    var d := Final(Start(Scalar(y), Public(y), Public(x), psk, now), actions).d;
    IndexRuns.TableAfterRun(Scalar(y), Public(y), Public(x), psk, now, actions);
    OnlyNextHeld(d.slots, k);
  }

  lemma OnlyNextHeld(s: Slots, k: nat)
    requires s == Slots(None, None, if k == 0 then None else Some(k - 1))
    ensures |IndexRuns.InSlots(s)| == if k == 0 then 0 else 1
  {
    assert IndexRuns.InSlots(s) == if k == 0 then {} else {k - 1};
  }
}
