/** The pacing of handshake initiations: `RoutineHandshakeInitiator` of `controller/timers.go`.  An event
    is what the routine meets in one attempt: how each call and each select turns out, and how long it
    takes.  The clock is moved by what the routine does and waits for; times are in nanoseconds. */
module Timers {
  const REKEY_ATTEMPT_TIME: int := 90_000_000_000
  const REKEY_TIMEOUT: int := 5_000_000_000
  const RETRY_DELAY: int := 2_000_000_000

  // The arm of the select that waits for a handshake or the timeout.
  datatype Wake = Completed | Reset | TimedOut

  datatype Event =
    | Begin(after: nat)                   // handshakeBegin arrives
    | Attempt(
        after: nat,                       // until the deadline channel is looked at
        expired: bool,                    // whether it is ready
        created: bool,                    // whether an initiation can be made
        jitter: nat,                      // in milliseconds, a random number modulo 334
        sending: nat, ok: bool,           // the call of SendBuffer
        overslept: nat,                   // after a failed one, beyond the sleep
        arming: nat,                      // until the timeout timer is set
        late: nat,                        // by which its channel is behind
        wake: Wake, signal: nat)          // the arm taken, and when its signal comes

  datatype Phase = Waiting | Attempting(deadline: int, fired: bool)

  datatype Sent = Sent(at: int, ok: bool)

  datatype State = State(phase: Phase, clock: int, log: seq<Sent>, flushes: nat)

  // The deadline's channel delivers once, and not early; everything else may happen at any time.  The
  // jitter is below 334.
  predicate Enabled(s: State, e: Event) {
    match e
    case Begin(_) => s.phase.Waiting?
    case Attempt(after, expired, _, jitter, _, _, _, _, _, _, _) =>
      && s.phase.Attempting? && jitter < 334
      && (expired ==> !s.phase.fired && s.clock + after >= s.phase.deadline)
  }

  function Later(a: int, b: int): int { if a < b then b else a }

  function SentAt(clock: int, e: Event): int
    requires e.Attempt?
  {
    clock + e.after + e.sending
  }

  // When the timeout channel delivers, for a timer set after the initiation was sent.
  function TimeoutAt(clock: int, e: Event): int
    requires e.Attempt?
  {
    SentAt(clock, e) + e.arming + REKEY_TIMEOUT + 1_000_000 * e.jitter + e.late
  }

  // Where an attempt leaves the clock: a signal is followed by a wait for the timeout.
  function ClockAfter(clock: int, e: Event): int
    requires e.Attempt?
  {
    if !e.created then clock + e.after
    else if !e.ok then SentAt(clock, e) + RETRY_DELAY + e.overslept
    else match e.wake
      case Completed => Later(SentAt(clock, e) + e.arming + e.signal, TimeoutAt(clock, e))
      case Reset => Later(SentAt(clock, e) + e.arming + e.signal, TimeoutAt(clock, e))
      case TimedOut => TimeoutAt(clock, e)
  }

  // The attempts end with a failed creation, or with a handshake completed after one that was sent.
  predicate Ends(e: Event) {
    e.Attempt? && (!e.created || (e.ok && e.wake.Completed?))
  }

  function PhaseAfter(s: State, e: Event): Phase
    requires s.phase.Attempting? && e.Attempt?
  {
    if Ends(e) then Waiting
    else if e.ok && e.wake.Reset? then Attempting(ClockAfter(s.clock, e) + REKEY_ATTEMPT_TIME, false)
    else Attempting(s.phase.deadline, s.phase.fired || e.expired)
  }

  function Next(s: State, e: Event): State
    requires Enabled(s, e)
  {
    match e
    case Begin(after) => s.(phase := Attempting(s.clock + after + REKEY_ATTEMPT_TIME, false), clock := s.clock + after)
    case _ =>
      State(PhaseAfter(s, e), ClockAfter(s.clock, e),
        s.log + (if e.created then [Sent(SentAt(s.clock, e), e.ok)] else []),
        s.flushes + if e.expired then 1 else 0)
  }

  function Start(clock: int): State { State(Waiting, clock, [], 0) }

  ghost predicate Runs(clock: int, events: seq<Event>)
    decreases |events|, 0
  {
    events == [] ||
    (Runs(clock, events[..|events| - 1]) && Enabled(Final(clock, events[..|events| - 1]), events[|events| - 1]))
  }

  ghost function Final(clock: int, events: seq<Event>): State
    requires Runs(clock, events)
    decreases |events|, 1
  {
    if events == [] then Start(clock) else Next(Final(clock, events[..|events| - 1]), events[|events| - 1])
  }

  lemma {:induction false} RunsPrefix(clock: int, events: seq<Event>, n: nat)
    requires Runs(clock, events) && n <= |events|
    ensures Runs(clock, events[..n])
  {
    if n < |events| {
      RunsPrefix(clock, events[..|events| - 1], n);
      assert events[..|events| - 1][..n] == events[..n];
    } else {
      assert events[..n] == events;
    }
  }

  lemma OneMore(clock: int, events: seq<Event>, n: nat)
    requires Runs(clock, events) && n < |events|
    ensures Runs(clock, events[..n]) && Runs(clock, events[..n + 1]) && Enabled(Final(clock, events[..n]), events[n])
    ensures Final(clock, events[..n + 1]) == Next(Final(clock, events[..n]), events[n])
  {
    RunsPrefix(clock, events, n + 1);
    assert events[..n + 1][..n] == events[..n];
  }

  // Time passes until a channel delivers; it may have delivered already.
  function Await(clock: int, delivery: int): int { Later(clock, delivery) }

  // One attempt, from the look at the deadline on.
  method AttemptHandshake(start: int, e: Event) returns (clock: int, sent: seq<Sent>, goOn: bool, reset: bool)
    requires e.Attempt?
    ensures clock == ClockAfter(start, e) && sent == if e.created then [Sent(SentAt(start, e), e.ok)] else []
    ensures goOn == !Ends(e) && reset == (e.created && e.ok && e.wake.Reset?)
  {
    clock, sent, goOn, reset := start + e.after, [], true, false;
    if !e.created {
      goOn := false;
      return;
    }
    clock := clock + e.sending;
    sent := [Sent(clock, e.ok)];
    if !e.ok {
      clock := clock + RETRY_DELAY + e.overslept;
      return;
    }

    // set handshake timeout, wait for handshake or timeout
    clock := clock + e.arming;
    var timeout := clock + REKEY_TIMEOUT + 1_000_000 * e.jitter + e.late;
    match e.wake
    case Completed =>
      clock := clock + e.signal;
      clock := Await(clock, timeout);
      goOn := false;
    case Reset =>
      clock := clock + e.signal;
      clock := Await(clock, timeout);
      reset := true;
    case TimedOut =>
      clock := Await(clock, timeout);
  }

  // The routine itself, until the events run out.
  method RoutineHandshakeInitiator(start: int, events: seq<Event>) returns (log: seq<Sent>, flushes: nat, clock: int)
    requires Runs(start, events)
    ensures var s := Final(start, events); log == s.log && flushes == s.flushes && clock == s.clock
  {
    log, flushes, clock := [], 0, start;
    var n := 0;
    while n < |events|
      invariant n <= |events| && Runs(start, events[..n])
      invariant var s := Final(start, events[..n]); log == s.log && flushes == s.flushes && clock == s.clock
      invariant n < |events| ==> Final(start, events[..n]).phase.Waiting?
      decreases |events| - n
    {
      // wait for signal, set deadline
      OneMore(start, events, n);
      clock := clock + events[n].after;
      var deadline := clock + REKEY_ATTEMPT_TIME;
      n := n + 1;
      var attempting := true;
      while attempting && n < |events|
        invariant n <= |events| && Runs(start, events[..n])
        invariant var s := Final(start, events[..n]); log == s.log && flushes == s.flushes && clock == s.clock
        invariant Final(start, events[..n]).phase.Attempting? == attempting
        invariant attempting ==> Final(start, events[..n]).phase.deadline == deadline
        decreases |events| - n
      {
        OneMore(start, events, n);
        if events[n].expired {
          // flush the queue and go on: the break leaves the select only
          flushes := flushes + 1;
        }
        var now, sent, goOn, reset := AttemptHandshake(clock, events[n]);
        clock, log, attempting := now, log + sent, goOn;
        if reset {
          deadline := clock + REKEY_ATTEMPT_TIME;
        }
        n := n + 1;
      }
    }
    assert events[..n] == events;
  }

  function Gap(s: Sent): int { if s.ok then REKEY_TIMEOUT else RETRY_DELAY }

  ghost predicate Spaced(s: State) {
    && (forall i, j :: 0 <= i < j < |s.log| ==> s.log[i].at + Gap(s.log[i]) <= s.log[j].at)
    && (forall i :: 0 <= i < |s.log| ==> s.log[i].at + Gap(s.log[i]) <= s.clock)
  }

  // Every arm of an attempt that was sent leaves the clock past the timeout.
  lemma AttemptWaits(s: State, e: Event)
    requires Enabled(s, e) && e.Attempt? && e.created
    ensures var s' := Next(s, e);
      && s.clock <= s'.log[|s.log|].at && s'.log[|s.log|].at + Gap(s'.log[|s.log|]) <= s'.clock
  {
  }

  /** Whatever signals arrive and whenever: after an initiation that was sent, the next is at least
      RekeyTimeout later; after one that failed, at least two seconds. */
  lemma {:induction false} InitiationsSpaced(clock: int, events: seq<Event>)
    requires Runs(clock, events)
    ensures Spaced(Final(clock, events))
  {
    if events != [] {
      var s, e := Final(clock, events[..|events| - 1]), events[|events| - 1];
      InitiationsSpaced(clock, events[..|events| - 1]);
      if e.Attempt? && e.created { AttemptWaits(s, e); }
    }
  }

  // How many initiations were sent successfully in a stretch of time.
  function SentWithin(log: seq<Sent>, from: int, till: int): nat {
    if log == [] then 0
    else
      var last := log[|log| - 1];
      SentWithin(log[..|log| - 1], from, till) + if last.ok && from <= last.at <= till then 1 else 0
  }

  lemma {:induction false} LastSentLate(log: seq<Sent>, from: int, till: int, bound: int)
    requires forall i, j :: 0 <= i < j < |log| ==> log[i].at + Gap(log[i]) <= log[j].at
    requires forall i :: 0 <= i < |log| ==> log[i].at + Gap(log[i]) <= bound
    ensures var n := SentWithin(log, from, till);
      n > 0 ==> from + n * REKEY_TIMEOUT <= bound && from + (n - 1) * REKEY_TIMEOUT <= till
  {
    if log != [] {
      var last := log[|log| - 1];
      LastSentLate(log[..|log| - 1], from, till, last.at);
    }
  }

  /** In any time T, at most T / RekeyTimeout + 1 initiations are sent successfully. */
  lemma InitiationRate(clock: int, events: seq<Event>, from: int, till: int)
    requires Runs(clock, events) && from <= till
    ensures SentWithin(Final(clock, events).log, from, till) <= (till - from) / REKEY_TIMEOUT + 1
  {
    var s := Final(clock, events);
    InitiationsSpaced(clock, events);
    LastSentLate(s.log, from, till, s.clock);
  }

  /** An attempt that was sent lasts no longer than it has to: with RekeyTimeout and the largest jitter,
      5.333 seconds after sending, but for delays; a failed one two seconds.  And no shorter than the jitter
      asks. */
  lemma AttemptEnds(s: State, e: Event)
    requires Enabled(s, e) && e.Attempt? && e.created
    ensures var (s', at) := (Next(s, e), s.clock + e.after + e.sending);
      && s'.log == s.log + [Sent(at, e.ok)]
      && (!e.ok ==> s'.clock == at + 2_000_000_000 + e.overslept)
      && (e.ok ==> s'.clock >= at + 5_000_000_000 + 1_000_000 * e.jitter)
      && (e.ok && (e.wake.TimedOut? || e.signal <= 5_000_000_000) ==>
            s'.clock <= at + 5_333_000_000 + e.arming + e.late)
  {
  }

  /** So an initiation that no handshake answers is followed by the next within 5.333 seconds, but for
      delays, and one that could not be sent within two. */
  lemma RetriesPrompt(clock: int, events: seq<Event>, i: nat)
    requires Runs(clock, events) && i + 1 < |events|
    requires var (a, b) := (events[i], events[i + 1]);
      a.Attempt? && a.created && (a.ok ==> a.wake.TimedOut?) && b.Attempt? && b.created
    ensures Runs(clock, events[..i]) && Runs(clock, events[..i + 2])
    ensures var (a, b, n) := (events[i], events[i + 1], |Final(clock, events[..i]).log|);
      var log := Final(clock, events[..i + 2]).log;
      && |log| == n + 2
      && log[n + 1].at - log[n].at <= b.after + b.sending
        + if a.ok then 5_333_000_000 + a.arming + a.late else 2_000_000_000 + a.overslept
  {
    OneMore(clock, events, i);
    OneMore(clock, events, i + 1);
    AttemptEnds(Final(clock, events[..i]), events[i]);
    AttemptEnds(Final(clock, events[..i + 1]), events[i + 1]);
  }

  // ----- The deadline.

  // The deadline is set when the attempts begin, and again by a reset.
  predicate SetsDeadline(e: Event) {
    e.Begin? || (e.created && e.ok && e.wake.Reset?)
  }

  // The deadline in force was set by event number `j`, 90 seconds before it.
  ghost predicate InForce(clock: int, events: seq<Event>, j: int, deadline: int, fired: bool)
    requires Runs(clock, events)
  {
    && 0 <= j < |events| && SetsDeadline(events[j]) && (forall k :: j < k < |events| ==> !SetsDeadline(events[k]))
    && Runs(clock, events[..j + 1]) && deadline == Final(clock, events[..j + 1]).clock + 90_000_000_000
    && (fired <==> exists k :: j < k < |events| && events[k].Attempt? && events[k].expired)
  }

  lemma {:induction false} DeadlineInForce(clock: int, events: seq<Event>) returns (j: int)
    requires Runs(clock, events) && Final(clock, events).phase.Attempting?
    ensures var phase := Final(clock, events).phase; InForce(clock, events, j, phase.deadline, phase.fired)
  {
    var n := |events| - 1;
    var before, e := events[..n], events[n];
    assert events[..n + 1] == events;
    if SetsDeadline(e) {
      j := n;
    } else {
      j := DeadlineInForce(clock, before);
      assert before[..j + 1] == events[..j + 1];
      assert forall k :: 0 <= k < n ==> before[k] == events[k];
      assert e.expired ==> exists k :: j < k < |events| && events[k].Attempt? && events[k].expired;
    }
  }

  /** The queue is flushed at most once for each deadline, and not before 90 seconds after it was set. */
  lemma FlushesLate(clock: int, events: seq<Event>, i: nat) returns (j: int)
    requires Runs(clock, events) && i < |events| && events[i].Attempt? && events[i].expired
    ensures Runs(clock, events[..i]) && 0 <= j < i && SetsDeadline(events[j])
    ensures forall k :: j < k < i ==> !SetsDeadline(events[k]) && !(events[k].Attempt? && events[k].expired)
    ensures Runs(clock, events[..j + 1])
    ensures Final(clock, events[..i]).clock + events[i].after >= Final(clock, events[..j + 1]).clock + 90_000_000_000
  {
    OneMore(clock, events, i);
    var s := Final(clock, events[..i]);
    j := DeadlineInForce(clock, events[..i]);
    assert events[..i][..j + 1] == events[..j + 1];
    assert forall k :: 0 <= k < i ==> events[..i][k] == events[k];
  }

  ghost predicate SameButDeadlines(a: seq<Event>, b: seq<Event>) {
    && |a| == |b|
    && forall i :: 0 <= i < |a| ==>
      a[i] == b[i] || (a[i].Attempt? && b[i].Attempt? && a[i].(expired := b[i].expired) == b[i])
  }

  lemma SameAttempt(s: State, t: State, a: Event, b: Event)
    requires Enabled(s, a) && Enabled(t, b) && s.log == t.log && s.clock == t.clock
    requires a == b || (a.Attempt? && b.Attempt? && a.(expired := b.expired) == b)
    ensures Next(s, a).log == Next(t, b).log && Next(s, a).clock == Next(t, b).clock
    ensures Next(s, a).phase.Waiting? == Next(t, b).phase.Waiting?
  {
  }

  /** The deadline ends nothing: runs that differ only in when it fires send the same initiations and
      wait for the same signals. */
  lemma {:induction false} DeadlineEndsNothing(clock: int, a: seq<Event>, b: seq<Event>)
    requires Runs(clock, a) && Runs(clock, b) && SameButDeadlines(a, b)
    ensures Final(clock, a).log == Final(clock, b).log && Final(clock, a).clock == Final(clock, b).clock
    ensures Final(clock, a).phase.Waiting? == Final(clock, b).phase.Waiting?
  {
    if a != [] {
      var n := |a| - 1;
      DeadlineEndsNothing(clock, a[..n], b[..n]);
      SameAttempt(Final(clock, a[..n]), Final(clock, b[..n]), a[n], b[n]);
    }
  }

  lemma WaitsAfterEnd(clock: int, events: seq<Event>)
    requires Runs(clock, events)
    ensures Final(clock, events).phase.Waiting? <==> events == [] || Ends(events[|events| - 1])
  {
  }

  /** In every run the routine takes a handshakeBegin exactly at first and after attempts that ended;
      otherwise it attempts again, whatever the deadline. */
  lemma {:induction false} BeginsAfterEnds(clock: int, events: seq<Event>, i: nat)
    requires Runs(clock, events) && i < |events|
    ensures events[i].Begin? <==> i == 0 || Ends(events[i - 1])
  {
    OneMore(clock, events, i);
    WaitsAfterEnd(clock, events[..i]);
  }

  lemma RunsMore(clock: int, events: seq<Event>, e: Event)
    requires Runs(clock, events) && Enabled(Final(clock, events), e)
    ensures Runs(clock, events + [e]) && Final(clock, events + [e]) == Next(Final(clock, events), e)
  {
    assert (events + [e])[..|events|] == events;
  }

  // An attempt that is sent at once and times out after `late` more than the timeout.
  function TimingOut(expired: bool, late: nat): Event {
    Attempt(0, expired, true, 0, 0, true, 0, 0, late, TimedOut, 0)
  }

  // The deadline of the first attempts fired, and then `k` and one more initiations were sent.
  ghost predicate PastDeadline(start: int, s: State, k: nat) {
    && s.flushes == 1 && s.phase == Attempting(start + REKEY_ATTEMPT_TIME, true)
    && |s.log| == k + 2 && s.log[0].at == start && s.clock >= start + REKEY_ATTEMPT_TIME
    && forall i :: 1 <= i < |s.log| ==> s.log[i].ok && s.log[i].at >= start + REKEY_ATTEMPT_TIME
  }

  lemma OneMorePastDeadline(start: int, s: State, k: nat)
    requires PastDeadline(start, s, k)
    ensures PastDeadline(start, Next(s, TimingOut(false, 0)), k + 1)
  {
  }

  lemma Begun(start: int, none: seq<Event>, e: Event)
    requires none == [] && e == Begin(0)
    ensures Runs(start, none + [e])
    ensures Final(start, none + [e]) == State(Attempting(start + REKEY_ATTEMPT_TIME, false), start, [], 0)
  {
    RunsMore(start, none, e);
  }

  lemma FirstPastDeadline(start: int, begun: seq<Event>) returns (events: seq<Event>)
    requires Runs(start, begun)
    requires Final(start, begun) == State(Attempting(start + REKEY_ATTEMPT_TIME, false), start, [], 0)
    ensures Runs(start, events) && PastDeadline(start, Final(start, events), 0)
  {
    var first, second := TimingOut(false, REKEY_ATTEMPT_TIME - REKEY_TIMEOUT), TimingOut(true, 0);
    RunsMore(start, begun, first);
    RunsMore(start, begun + [first], second);
    events := begun + [first] + [second];
  }

  /** Runs in which the deadline fires and initiations go on being sent, as many as one likes. */
  lemma {:induction false} SentAfterDeadline(start: int, k: nat) returns (events: seq<Event>)
    ensures Runs(start, events) && PastDeadline(start, Final(start, events), k)
  {
    if k == 0 {
      Begun(start, [], Begin(0));
      events := FirstPastDeadline(start, [] + [Begin(0)]);
    } else {
      var before := SentAfterDeadline(start, k - 1);
      RunsMore(start, before, TimingOut(false, 0));
      events := before + [TimingOut(false, 0)];
      OneMorePastDeadline(start, Final(start, before), k - 1);
    }
  }
}
