/** Progress of the packet pipelines: what the consumer waits for is always being brought nearer, with
    any number of workers from one up, and under a fair schedule every packet is passed on or dropped. */
module Progress {
  import opened Wrappers
  import opened Pipeline

  // ----- Workers.

  // Every worker is at its select or has one element in hand.
  ghost predicate Staffed<J, R>(s: State<J, R>, workers: nat) {
    |s.fetched| + |s.working| + |s.finished| + s.idle == workers
  }

  lemma OneMoved(q: set<nat>, x: nat)
    ensures x in q ==> |q - {x}| == |q| - 1
    ensures x !in q ==> |q + {x}| == |q| + 1
  {
  }

  // Who has what in hand, without the rest of the state.
  ghost predicate Apart<J, R>(s: State<J, R>, x: nat) {
    && (x in s.workQueue ==> x !in s.fetched && x !in s.working && x !in s.finished)
    && (x in s.fetched ==> x !in s.working && x !in s.finished)
    && (x in s.working ==> x !in s.finished)
    && (x in s.fetched || x in s.working || x in s.finished ==> x < |s.elements|)
  }

  lemma PlacesApart<J, R>(s: State<J, R>, x: nat)
    requires OnePlace(s)
    ensures Apart(s, x)
  {
    if x in s.fetched || x in s.working || x in s.finished { assert x in Pending(s); }
    assert x in s.workQueue ==> x in Elems(s.workQueue);
  }

  // The element that a step moves from one hand to another.
  function Moved<J, R>(s: State<J, R>, step: Step<J>): nat
    requires Enabled(s, step)
  {
    match step
    case Fetch => s.workQueue[0]
    case Skip(w) => w
    case Begin(w) => w
    case Work(w) => w
    case Unlock(w) => w
    case _ => 0
  }

  lemma StaffKept<J, R>(work: J -> Option<R>, s: State<J, R>, step: Step<J>, workers: nat)
    requires Enabled(s, step) && Apart(s, Moved(s, step)) && Staffed(s, workers)
    ensures Staffed(Next(work, s, step), workers)
  {
    var x := Moved(s, step);
    OneMoved(s.fetched, x);
    OneMoved(s.working, x);
    OneMoved(s.finished, x);
  }

  // ----- The distance of an element from being unlocked.

  function IndexOf(q: seq<nat>, x: nat): (i: nat)
    requires x in q
    ensures i < |q| && q[i] == x
  {
    if q[0] == x then 0 else 1 + IndexOf(q[1..], x)
  }

  lemma {:induction false} FirstIndex(q: seq<nat>, x: nat, i: nat)
    requires i < |q| && q[i] == x
    ensures IndexOf(q, x) <= i
  {
    if q[0] != x { FirstIndex(q[1..], x, i - 1); }
  }

  lemma IndexInLonger(q: seq<nat>, x: nat, y: nat)
    requires NoDuplicates(q) && x in q
    ensures IndexOf(q + [y], x) == IndexOf(q, x)
  {
    var i := IndexOf(q, x);
    FirstIndex(q + [y], x, i);
    assert (q + [y])[i] == q[i];
  }

  // The steps that workers still have to take with what they have in hand.
  function Busy<J, R>(s: State<J, R>): nat {
    3 * |s.fetched| + 2 * |s.working| + |s.finished|
  }

  // How many steps of workers and of the producer may come before element `id` is unlocked: four for
  // each element up to it in the queue, after those in hand.
  function Wait<J, R>(s: State<J, R>, id: nat): nat {
    if id in s.workQueue then 4 * (IndexOf(s.workQueue, id) + 1) + Busy(s)
    else if id in s.fetched then 3
    else if id in s.working || (s.producer.EvictingWork? && s.producer.victim == id) then 2
    else if id in s.finished || (s.producer.ReleasingWork? && s.producer.victim == id) then 1
    else 0
  }

  predicate Blocked<J, R>(s: State<J, R>) {
    s.consumer.Locking? && Exists(s, s.consumer.id) && s.elements[s.consumer.id].locked
  }

  // Whose step it is.
  datatype Actor = Environment | Producing | Fetching | Worker(w: nat) | Consuming

  function Owner<J>(step: Step<J>): Actor {
    match step
    case Submit(_) => Environment
    case Fetch => Fetching
    case Skip(w) => Worker(w)
    case Begin(w) => Worker(w)
    case Work(w) => Worker(w)
    case Unlock(w) => Worker(w)
    case Take => Consuming
    case Lock => Consuming
    case Pass => Consuming
    case _ => Producing
  }

  ghost function Pick(q: set<nat>): (x: nat)
    requires q != {}
    ensures x in q
  {
    var x :| x in q;
    x
  }

  // Who brings the element the consumer waits for nearer.
  ghost function Helper<J, R>(s: State<J, R>): Actor
    requires s.consumer.Locking?
  {
    var id := s.consumer.id;
    if id in s.workQueue then
      if s.idle > 0 then Fetching
      else if s.fetched != {} then Worker(Pick(s.fetched))
      else if s.working != {} then Worker(Pick(s.working))
      else if s.finished != {} then Worker(Pick(s.finished))
      else Fetching
    else if id in s.fetched + s.working + s.finished then Worker(id)
    else Producing
  }

  // The step that it takes.
  ghost function Helpful<J, R>(s: State<J, R>): Step<J>
    requires s.consumer.Locking?
  {
    match Helper(s)
    case Worker(w) =>
      if w in s.fetched then (if Exists(s, w) && s.elements[w].dropped then Skip(w) else Begin(w))
      else if w in s.working then Work(w)
      else Unlock(w)
    case Producing => if s.producer.EvictingWork? then DropWork else UnlockEvicted
    case _ => Fetch
  }

  // The facts about the awaited element that progress rests on.
  ghost predicate Awaited<J, R>(s: State<J, R>) {
    && OnePlace(s) && Blocked(s)
    && (s.producer.Idle? || s.producer.id != s.consumer.id)
    && (s.consumer.id in s.fetched ==> !s.elements[s.consumer.id].dropped)
    && s.consumer.id in Pending(s)
  }

  /** A mutex the consumer waits for is that of an element in the work queue, with a worker, or about
      to be unlocked by the producer. */
  lemma BlockedIsPending<J, R>(work: J -> Option<R>, s: State<J, R>)
    requires Inv(work, s) && s.consumer.Locking?
    ensures s.consumer.id < |s.elements| && (s.producer.Idle? || s.producer.id != s.consumer.id)
    ensures Blocked(s) <==> Wait(s, s.consumer.id) > 0
    ensures Blocked(s) ==> Awaited(s)
  {
    var id := s.consumer.id;
    assert id == Line(s)[|s.output|] && id in Ahead(s);
    if !s.producer.Idle? { assert s.producer.id == Line(s)[|Line(s)| - 1]; }
    assert ElementOk(work, s, id);
  }

  // Someone can do the next piece of work.
  ghost predicate Manned<J, R>(s: State<J, R>) {
    s.idle > 0 || s.fetched != {} || s.working != {} || s.finished != {}
  }

  lemma StaffIsManned<J, R>(s: State<J, R>, workers: nat)
    requires Staffed(s, workers) && workers >= 1
    ensures Manned(s)
  {
  }

  lemma HelpfulIsOpen<J, R>(s: State<J, R>)
    requires Awaited(s) && Manned(s)
    ensures Enabled(s, Helpful(s)) && Owner(Helpful(s)) == Helper(s)
  {
    match Helper(s)
    case Worker(w) => PlacesApart(s, w);
    case _ =>
  }

  // What a step does to the elements that workers have in hand.
  lemma BusyAfter<J, R>(work: J -> Option<R>, s: State<J, R>, step: Step<J>)
    requires Enabled(s, step) && Apart(s, Moved(s, step))
    ensures var s' := Next(work, s, step);
      match Owner(step)
      case Fetching => Busy(s') == Busy(s) + 3
      case Worker(_) => Busy(s') < Busy(s)
      case _ => s'.fetched == s.fetched && s'.working == s.working && s'.finished == s.finished && s'.idle == s.idle
  {
    var x := Moved(s, step);
    OneMoved(s.fetched, x);
    OneMoved(s.working, x);
    OneMoved(s.finished, x);
  }

  // The awaited element comes nearer, or nothing changes for it.
  ghost predicate Nearer<J, R>(s: State<J, R>, step: Step<J>, s': State<J, R>)
    requires s.consumer.Locking? && s'.consumer == s.consumer
  {
    var id := s.consumer.id;
    || Wait(s', id) < Wait(s, id)
    || (Wait(s', id) == Wait(s, id) && Helper(s') == Helper(s) && Owner(step) != Helper(s))
  }

  // The awaited element is in the work queue, and nowhere else.
  ghost predicate Queued<J, R>(s: State<J, R>) {
    && Blocked(s) && NoDuplicates(s.workQueue)
    && s.consumer.id in s.workQueue && Apart(s, s.consumer.id)
    && (s.producer.EvictingWork? || s.producer.ReleasingWork? ==> s.producer.victim != s.consumer.id)
    && (s.producer.Idle? || s.producer.id != s.consumer.id)
  }

  lemma AwaitedQueued<J, R>(s: State<J, R>)
    requires Awaited(s) && s.consumer.id in s.workQueue
    ensures Queued(s)
  {
    PlacesApart(s, s.consumer.id);
    assert s.consumer.id in Elems(s.workQueue) && s.consumer.id !in InHand(s.producer);
  }

  lemma QueuedStep<J, R>(work: J -> Option<R>, s: State<J, R>, step: Step<J>)
    requires Queued(s) && Enabled(s, step) && Apart(s, Moved(s, step))
    ensures Next(work, s, step).consumer == s.consumer && Nearer(s, step, Next(work, s, step))
  {
    var id, q := s.consumer.id, s.workQueue;
    BusyAfter(work, s, step);
    if step.PushWork? {
      IndexInLonger(q, id, s.producer.id);
      assert id in q + [s.producer.id];
    }
    if (step.Fetch? || step.PopWork?) && q[0] != id {
      assert q == [q[0]] + q[1..];
      assert IndexOf(q, id) == 1 + IndexOf(q[1..], id);
    }
  }

  // The awaited element has left the work queue, and is in one pair of hands.
  ghost predicate InOneHand<J, R>(s: State<J, R>) {
    Blocked(s) &&
    var id := s.consumer.id;
    var evicted := (s.producer.EvictingWork? || s.producer.ReleasingWork?) && s.producer.victim == id;
    && id !in s.workQueue && Apart(s, id)
    && (id in s.fetched || id in s.working || id in s.finished) != evicted
    && (s.producer.Idle? || s.producer.id != id)
    && (id in s.fetched ==> !s.elements[id].dropped)
  }

  lemma AwaitedInOneHand<J, R>(s: State<J, R>)
    requires Awaited(s) && s.consumer.id !in s.workQueue
    ensures InOneHand(s)
  {
    PlacesApart(s, s.consumer.id);
    assert s.consumer.id !in Elems(s.workQueue);
  }

  lemma InHandStep<J, R>(work: J -> Option<R>, s: State<J, R>, step: Step<J>)
    requires InOneHand(s) && Enabled(s, step)
    ensures Next(work, s, step).consumer == s.consumer && Nearer(s, step, Next(work, s, step))
  {
    if step.Fetch? { assert s.workQueue[0] in s.workQueue; }
  }

  /** No step takes the awaited element farther from being unlocked, and each step of its helper
      brings it nearer. */
  lemma WaitNeverGrows<J, R>(work: J -> Option<R>, s: State<J, R>, step: Step<J>)
    requires Inv(work, s) && Blocked(s) && Enabled(s, step)
    ensures Next(work, s, step).consumer == s.consumer && Nearer(s, step, Next(work, s, step))
  {
    BlockedIsPending(work, s);
    if s.consumer.id in s.workQueue {
      AwaitedQueued(s);
      PlacesApart(s, Moved(s, step));
      QueuedStep(work, s, step);
    } else {
      AwaitedInOneHand(s);
      InHandStep(work, s, step);
    }
  }

  /** From every reachable state in which the consumer waits for a mutex, the helpful steps get it, in
      as many steps as the distance says; one worker is enough. */
  lemma {:induction false} ConsumerGetsItsElement<J(!new), R(!new)>(work: J -> Option<R>, s: State<J, R>, workers: nat)
    returns (steps: seq<Step<J>>)
    requires Inv(work, s) && s.consumer.Locking? && Staffed(s, workers) && workers >= 1
    ensures Runs(work, s, steps) && |steps| <= Wait(s, s.consumer.id) + 1
    ensures Final(work, s, steps).consumer == Checking(s.consumer.id)
    decreases Wait(s, s.consumer.id)
  {
    BlockedIsPending(work, s);
    if Blocked(s) {
      StaffIsManned(s, workers);
      HelpfulIsOpen(s);
      PlacesApart(s, Moved(s, Helpful(s)));
      StaffKept(work, s, Helpful(s), workers);
      WaitNeverGrows(work, s, Helpful(s));
      StepKeepsInv(work, s, Helpful(s));
      var rest := ConsumerGetsItsElement(work, Next(work, s, Helpful(s)), workers);
      steps := [Helpful(s)] + rest;
      assert steps[1..] == rest;
    } else {
      steps := [Lock];
      assert Runs(work, Next(work, s, Lock), []);
      assert steps[1..] == [];
    }
  }

  lemma {:induction false} RunKeepsStaff<J(!new), R(!new)>(
      work: J -> Option<R>, s: State<J, R>, steps: seq<Step<J>>, workers: nat)
    requires Inv(work, s) && Runs(work, s, steps) && Staffed(s, workers)
    ensures Staffed(Final(work, s, steps), workers)
    decreases |steps|
  {
    if steps != [] {
      PlacesApart(s, Moved(s, steps[0]));
      StaffKept(work, s, steps[0], workers);
      StepKeepsInv(work, s, steps[0]);
      RunKeepsStaff(work, Next(work, s, steps[0]), steps[1..], workers);
    }
  }

  // ----- How far an element is from leaving the line.

  // The steps that the producer still takes before its element is in the order queue.
  function ProducerLeft<J, R>(s: State<J, R>): nat {
    match s.producer
    case Idle => 0
    case AddingOrder(_) => if |s.orderQueue| < QUEUE_SIZE then 1 else 4
    case EvictingOrder(_, _) => 2
    case OrderFull(_) => 3
    case AddingWork(_) => if |s.workQueue| < QUEUE_SIZE then 6 else 10
    case ReleasingWork(_, _) => 7
    case EvictingWork(_, _) => 8
    case WorkFull(_) => 9
  }

  // The elements ahead of it, what the consumer is doing with the first of them, and the steps until
  // that is done.
  datatype Distance = Distance(ahead: nat, phase: nat, left: nat)

  predicate Less(a: Distance, b: Distance) {
    || a.ahead < b.ahead
    || (a.ahead == b.ahead && (a.phase < b.phase || (a.phase == b.phase && a.left < b.left)))
  }

  ghost predicate InLine<J, R>(s: State<J, R>, id: nat) {
    id in Ahead(s) && Increasing(Ahead(s))
  }

  lemma HeadIsLeast<J, R>(s: State<J, R>, id: nat)
    requires InLine(s, id)
    ensures Ahead(s)[0] <= id
  {
    var i :| 0 <= i < |Ahead(s)| && Ahead(s)[i] == id;
  }

  ghost function DistanceOf<J, R>(s: State<J, R>, id: nat): Distance
    requires InLine(s, id)
  {
    HeadIsLeast(s, id);
    var ahead := id - Ahead(s)[0];
    match s.consumer
    case Checking(_) => Distance(ahead, 0, 0)
    case Locking(first) => Distance(ahead, 1, Wait(s, first))
    case Ready => if s.orderQueue != [] then Distance(ahead, 2, 0) else Distance(ahead, 3, ProducerLeft(s))
  }

  // Who brings it about.
  ghost function Mover<J, R>(s: State<J, R>): Actor {
    if s.consumer.Locking? && Blocked(s) then Helper(s)
    else if s.consumer.Ready? && s.orderQueue == [] then Producing
    else Consuming
  }

  ghost predicate CanAct<J(!new), R>(s: State<J, R>, a: Actor) {
    exists step: Step<J> :: Owner(step) == a && Enabled(s, step)
  }

  lemma ProducerCanAct<J(!new), R>(s: State<J, R>)
    requires OnePlace(s) && !s.producer.Idle?
    requires s.producer.EvictingOrder? ==> s.producer.victim < |s.elements|
    ensures CanAct(s, Producing)
  {
    var step: Step<J> := match s.producer
      case AddingWork(_) => if |s.workQueue| < QUEUE_SIZE then PushWork else SeeWorkFull
      case WorkFull(_) => PopWork
      case EvictingWork(_, _) => DropWork
      case ReleasingWork(_, _) => UnlockEvicted
      case AddingOrder(_) => if |s.orderQueue| < QUEUE_SIZE then PushOrder else SeeOrderFull
      case OrderFull(_) => PopOrder
      case EvictingOrder(_, _) => DropOrder
      case Idle => PushWork;
    assert s.producer.EvictingWork? || s.producer.ReleasingWork? ==> s.producer.victim in Pending(s);
    assert Owner(step) == Producing && Enabled(s, step);
  }

  lemma ConsumerCanAct<J(!new), R>(s: State<J, R>)
    requires s.consumer.Checking? ==> s.consumer.id < |s.elements|
    requires s.consumer.Locking? ==> s.consumer.id < |s.elements| && !Blocked(s)
    requires s.consumer.Ready? ==> s.orderQueue != []
    ensures CanAct(s, Consuming)
  {
    var step: Step<J> := if s.consumer.Checking? then Pass else if s.consumer.Locking? then Lock else Take;
    assert Owner(step) == Consuming && Enabled(s, step);
  }

  lemma MoverCanAct<J(!new), R>(work: J -> Option<R>, s: State<J, R>, workers: nat)
    requires Inv(work, s) && Staffed(s, workers) && workers >= 1 && Ahead(s) != []
    ensures CanAct(s, Mover(s))
  {
    if !s.consumer.Ready? { assert s.consumer.id == Line(s)[|s.output|]; }
    if Mover(s) == Consuming && !(s.consumer.Locking? && Blocked(s)) {
      ConsumerCanAct(s);
    } else if s.consumer.Ready? {
      ProducerCanAct(s);
    } else {
      BlockedIsPending(work, s);
      StaffIsManned(s, workers);
      HelpfulIsOpen(s);
    }
  }

  // The front of the line after a step.
  lemma AheadAfter<J, R>(work: J -> Option<R>, s: State<J, R>, step: Step<J>)
    requires Enabled(s, step) && Ahead(s) != []
    ensures var a, a' := Ahead(s), Ahead(Next(work, s, step));
      match step
      case Submit(_) => a' == a + [|s.elements|]
      case Pass => a' == a[1..]
      case PopOrder =>
        if s.orderQueue == [] then a' == a
        else if s.consumer.Ready? then a' == a[1..]
        else a' != [] && a'[0] == a[0]
      case _ => a' == a
  {
    var c, q, p := AtConsumer(s.consumer), s.orderQueue, AtProducer(s.producer);
    if step.Take? { assert [] + q + p == [q[0]] + q[1..] + p; }
    if step.PushOrder? { assert c + q + p == c + (q + p) + []; }
  }

  // A step takes the element out of the line, or brings it closer to that, or leaves it to its mover.
  ghost predicate Closer<J, R>(s: State<J, R>, step: Step<J>, s': State<J, R>, id: nat)
    requires InLine(s, id)
  {
    id in Ahead(s') ==>
      && InLine(s', id)
      && (|| Less(DistanceOf(s', id), DistanceOf(s, id))
          || (DistanceOf(s', id) == DistanceOf(s, id) && Mover(s') == Mover(s) && Owner(step) != Mover(s)))
  }

  // A new head is farther along.
  lemma HeadLeaves<J, R>(s: State<J, R>, s': State<J, R>, id: nat)
    requires InLine(s, id) && Ahead(s') == Ahead(s)[1..] && id in Ahead(s')
    ensures InLine(s', id) && DistanceOf(s', id).ahead < DistanceOf(s, id).ahead
  {
    var a := Ahead(s);
    assert forall i, j :: 0 <= i < j < |a[1..]| ==> a[1..][i] < a[1..][j];
    HeadIsLeast(s', id);
    assert a[0] < a[1];
  }

  lemma AheadStaysIncreasing<J, R>(work: J -> Option<R>, s: State<J, R>, step: Step<J>)
    requires Ordered(s) && Enabled(s, step)
    ensures Increasing(Ahead(Next(work, s, step)))
  {
    LineKept(work, s, step);
    var s' := Next(work, s, step);
    var out := Passed<J, R>(s'.output);
    assert forall i :: 0 <= i < |Ahead(s')| ==> Ahead(s')[i] == Line(s')[|out| + i];
  }

  lemma SettleChecking<J, R>(work: J -> Option<R>, s: State<J, R>, step: Step<J>, id: nat)
    requires Ordered(s) && InLine(s, id) && Enabled(s, step) && s.consumer.Checking?
    ensures Closer(s, step, Next(work, s, step), id)
  {
    var s' := Next(work, s, step);
    AheadAfter(work, s, step);
    AheadStaysIncreasing(work, s, step);
    if step.Pass? && id in Ahead(s') { HeadLeaves(s, s', id); }
  }

  // The distance while the consumer goes on waiting for the same mutex.
  lemma WhileLocking<J, R>(s: State<J, R>, step: Step<J>, s': State<J, R>, id: nat)
    requires InLine(s, id) && Increasing(Ahead(s')) && s.consumer.Locking? && s'.consumer == s.consumer
    requires Blocked(s) == (Wait(s, s.consumer.id) > 0) && Blocked(s') == (Wait(s', s.consumer.id) > 0)
    requires if Blocked(s) then Nearer(s, step, s') else !Blocked(s') && Owner(step) != Consuming
    ensures Closer(s, step, s', id)
  {
    assert Ahead(s)[0] == s.consumer.id == Ahead(s')[0];
  }

  lemma SettleLocking<J, R>(work: J -> Option<R>, s: State<J, R>, step: Step<J>, id: nat)
    requires Inv(work, s) && InLine(s, id) && Enabled(s, step) && s.consumer.Locking?
    ensures Closer(s, step, Next(work, s, step), id)
  {
    var s' := Next(work, s, step);
    AheadStaysIncreasing(work, s, step);
    if step.Lock? {
      AheadAfter(work, s, step);
    } else {
      StepKeepsInv(work, s, step);
      BlockedIsPending(work, s);
      if Blocked(s) {
        WaitNeverGrows(work, s, step);
      } else {
        UnlockedStays(work, s, step);
      }
      BlockedIsPending(work, s');
      WhileLocking(s, step, s', id);
    }
  }

  lemma UnlockedStays<J, R>(work: J -> Option<R>, s: State<J, R>, step: Step<J>)
    requires Enabled(s, step) && s.consumer.Locking? && Exists(s, s.consumer.id) && !Blocked(s) && !step.Lock?
    ensures Next(work, s, step).consumer == s.consumer && !Blocked(Next(work, s, step)) && Owner(step) != Consuming
  {
  }

  lemma SettleReady<J, R>(work: J -> Option<R>, s: State<J, R>, step: Step<J>, id: nat)
    requires Ordered(s) && InLine(s, id) && Enabled(s, step) && s.consumer.Ready? && s.orderQueue != []
    ensures Closer(s, step, Next(work, s, step), id)
  {
    var s' := Next(work, s, step);
    AheadAfter(work, s, step);
    AheadStaysIncreasing(work, s, step);
    if step.PopOrder? && id in Ahead(s') { HeadLeaves(s, s', id); }
  }

  lemma ProducerLeftShrinks<J, R>(work: J -> Option<R>, s: State<J, R>, step: Step<J>)
    requires Bounded(s) && Enabled(s, step) && !s.producer.Idle? && !step.PushOrder?
    ensures var s' := Next(work, s, step);
      ProducerLeft(s') <= ProducerLeft(s) && (Owner(step) == Producing ==> ProducerLeft(s') < ProducerLeft(s))
  {
  }

  // Only the element that is being added is in line.
  lemma SettleAdding<J, R>(work: J -> Option<R>, s: State<J, R>, step: Step<J>, id: nat)
    requires Bounded(s) && InLine(s, id) && Enabled(s, step) && s.consumer.Ready? && s.orderQueue == []
    ensures Closer(s, step, Next(work, s, step), id)
  {
    var s' := Next(work, s, step);
    assert Ahead(s) == AtProducer(s.producer) == [id];
    AheadAfter(work, s, step);
    assert s'.consumer.Ready? && Ahead(s') == [id];
    if !step.PushOrder? {
      ProducerLeftShrinks(work, s, step);
      assert s'.orderQueue == [];
    }
  }

  lemma SettleStep<J, R>(work: J -> Option<R>, s: State<J, R>, step: Step<J>, id: nat)
    requires Inv(work, s) && InLine(s, id) && Enabled(s, step)
    ensures Closer(s, step, Next(work, s, step), id)
  {
    if s.consumer.Checking? {
      SettleChecking(work, s, step, id);
    } else if s.consumer.Locking? {
      SettleLocking(work, s, step, id);
    } else if s.orderQueue != [] {
      SettleReady(work, s, step, id);
    } else {
      SettleAdding(work, s, step, id);
    }
  }

  // ----- Fair schedules.

  // An endless schedule of a new pipeline; None is a moment at which no step is taken.
  ghost function Then<J, R>(work: J -> Option<R>, s: State<J, R>, step: Option<Step<J>>): State<J, R>
    requires step.Some? ==> Enabled(s, step.value)
  {
    if step.Some? then Next(work, s, step.value) else s
  }

  ghost predicate Schedule<J(!new), R(!new)>(
      work: J -> Option<R>, workers: nat, states: nat -> State<J, R>, steps: nat -> Option<Step<J>>) {
    && states(0) == Empty(workers)
    && forall n: nat ::
      && (steps(n).Some? ==> Enabled(states(n), steps(n).value))
      && states(n + 1) == Then(work, states(n), steps(n))
  }

  ghost predicate TurnComes<J(!new), R(!new)>(
      states: nat -> State<J, R>, steps: nat -> Option<Step<J>>, a: Actor, n: nat, m: nat) {
    n <= m && ((steps(m).Some? && Owner(steps(m).value) == a) || !CanAct(states(m), a))
  }

  ghost predicate HasTurn<J(!new), R(!new)>(
      states: nat -> State<J, R>, steps: nat -> Option<Step<J>>, a: Actor, n: nat) {
    exists m: nat :: TurnComes(states, steps, a, n, m)
  }

  // Weak fairness: again and again, every actor takes a step or has none to take.
  ghost predicate Fair<J(!new), R(!new)>(states: nat -> State<J, R>, steps: nat -> Option<Step<J>>) {
    forall a: Actor, n: nat :: a != Environment ==> HasTurn(states, steps, a, n)
  }

  lemma MomentKeeps<J, R>(work: J -> Option<R>, s: State<J, R>, step: Option<Step<J>>, workers: nat)
    requires Inv(work, s) && Staffed(s, workers) && (step.Some? ==> Enabled(s, step.value))
    ensures Inv(work, Then(work, s, step)) && Staffed(Then(work, s, step), workers)
  {
    if step.Some? {
      StepKeepsInv(work, s, step.value);
      PlacesApart(s, Moved(s, step.value));
      StaffKept(work, s, step.value, workers);
    }
  }

  lemma EmptyInv<J, R>(work: J -> Option<R>, workers: nat)
    ensures Inv(work, Empty<J, R>(workers)) && Staffed(Empty<J, R>(workers), workers)
  {
  }

  lemma {:induction false} ScheduleKeeps<J(!new), R(!new)>(
      work: J -> Option<R>, workers: nat, states: nat -> State<J, R>, steps: nat -> Option<Step<J>>, n: nat)
    requires Schedule(work, workers, states, steps)
    ensures Inv(work, states(n)) && Staffed(states(n), workers)
  {
    if n == 0 {
      EmptyInv(work, workers);
    } else {
      ScheduleKeeps(work, workers, states, steps, n - 1);
      assert steps(n - 1).Some? ==> Enabled(states(n - 1), steps(n - 1).value);
      MomentKeeps(work, states(n - 1), steps(n - 1), workers);
      assert states(n - 1 + 1) == Then(work, states(n - 1), steps(n - 1));
    }
  }

  lemma LineIncreases<J, R>(work: J -> Option<R>, s: State<J, R>)
    requires Inv(work, s)
    ensures Increasing(Ahead(s)) && forall x <- Ahead(s) :: x < |s.elements|
  {
    var out := Passed<J, R>(s.output);
    assert forall i :: 0 <= i < |Ahead(s)| ==> Ahead(s)[i] == Line(s)[|out| + i];
  }

  // From `n` on, the element left the line, came closer to leaving, or waits for the same mover.
  ghost predicate CloserBy<J, R>(s: State<J, R>, s': State<J, R>, id: nat)
    requires InLine(s, id)
  {
    id in Ahead(s') ==>
      && InLine(s', id)
      && (|| Less(DistanceOf(s', id), DistanceOf(s, id))
          || (DistanceOf(s', id) == DistanceOf(s, id) && Mover(s') == Mover(s)))
  }

  lemma CloserTwice<J, R>(s: State<J, R>, t: State<J, R>, u: State<J, R>, id: nat)
    requires InLine(s, id) && CloserBy(s, t, id)
    requires if id in Ahead(t) then CloserBy(t, u, id) else id !in Ahead(u)
    ensures CloserBy(s, u, id)
  {
  }

  lemma OneMoment<J(!new), R(!new)>(work: J -> Option<R>, s: State<J, R>, step: Option<Step<J>>, id: nat)
    requires Inv(work, s) && id < |s.elements| && (step.Some? ==> Enabled(s, step.value))
    ensures var s' := Then(work, s, step);
      id < |s'.elements| && if id in Ahead(s) then InLine(s, id) && CloserBy(s, s', id) else id !in Ahead(s')
  {
    LineIncreases(work, s);
    if step.Some? {
      if id in Ahead(s) {
        SettleStep(work, s, step.value, id);
      } else {
        NeverBack(work, s, step.value, id);
      }
    }
  }

  lemma NextMoment<J(!new), R(!new)>(
      work: J -> Option<R>, workers: nat, states: nat -> State<J, R>, steps: nat -> Option<Step<J>>, id: nat, n: nat)
    requires Schedule(work, workers, states, steps) && id < |states(n).elements|
    ensures id < |states(n + 1).elements|
    ensures if id in Ahead(states(n)) then InLine(states(n), id) && CloserBy(states(n), states(n + 1), id)
      else id !in Ahead(states(n + 1))
  {
    ScheduleKeeps(work, workers, states, steps, n);
    assert steps(n).Some? ==> Enabled(states(n), steps(n).value);
    OneMoment(work, states(n), steps(n), id);
  }

  lemma {:induction false} AlongSchedule<J(!new), R(!new)>(
      work: J -> Option<R>, workers: nat, states: nat -> State<J, R>, steps: nat -> Option<Step<J>>,
      id: nat, n: nat, m: nat)
    requires Schedule(work, workers, states, steps) && n <= m && InLine(states(n), id) && id < |states(n).elements|
    ensures id < |states(m).elements| && CloserBy(states(n), states(m), id)
    decreases m - n
  {
    if n < m {
      var last := m - 1;
      AlongSchedule(work, workers, states, steps, id, n, last);
      NextMoment(work, workers, states, steps, id, last);
      assert states(last + 1) == states(m);
      CloserTwice(states(n), states(last), states(m), id);
    }
  }

  lemma NeverBack<J, R>(work: J -> Option<R>, s: State<J, R>, step: Step<J>, id: nat)
    requires Ordered(s) && Enabled(s, step) && id < |s.elements| && id !in Ahead(s)
    ensures id !in Ahead(Next(work, s, step))
  {
    LineKept(work, s, step);
    assert id in Elems(Ahead(Next(work, s, step))) <==> id in Ahead(Next(work, s, step));
  }

  lemma {:induction false} Leaves<J(!new), R(!new)>(
      work: J -> Option<R>, workers: nat, states: nat -> State<J, R>, steps: nat -> Option<Step<J>>, id: nat, n: nat)
    returns (m: nat)
    requires Schedule(work, workers, states, steps) && Fair(states, steps) && workers >= 1
    requires InLine(states(n), id) && id < |states(n).elements|
    ensures n <= m && id < |states(m).elements| && id !in Ahead(states(m))
    decreases DistanceOf(states(n), id).ahead, DistanceOf(states(n), id).phase, DistanceOf(states(n), id).left
  {
    var a := Mover(states(n));
    MoverNotEnvironment(states(n));
    assert HasTurn(states, steps, a, n);
    m :| TurnComes(states, steps, a, n, m);
    AlongSchedule(work, workers, states, steps, id, n, m);
    if id in Ahead(states(m)) {
      if Less(DistanceOf(states(m), id), DistanceOf(states(n), id)) {
        m := Leaves(work, workers, states, steps, id, m);
      } else {
        ScheduleKeeps(work, workers, states, steps, m);
        MoverCanAct(work, states(m), workers);
        SettleStep(work, states(m), steps(m).value, id);
        AlongSchedule(work, workers, states, steps, id, n, m + 1);
        m := m + 1;
        if id in Ahead(states(m)) {
          m := Leaves(work, workers, states, steps, id, m);
        }
      }
    }
  }

  lemma MoverNotEnvironment<J, R>(s: State<J, R>)
    ensures Mover(s) != Environment
  {
  }

  // Passed on or dropped.
  ghost predicate Settled<J, R>(s: State<J, R>, id: nat) {
    id < |s.elements| && (id in Passed<J, R>(s.output) || s.elements[id].dropped)
  }

  lemma SettledStays<J, R>(work: J -> Option<R>, s: State<J, R>, step: Step<J>, id: nat)
    requires Enabled(s, step) && id < |s.elements|
    requires Settled(s, id) || AboutToDrop(s.producer, id)
    ensures var s' := Next(work, s, step);
      Settled(s', id) || (AboutToDrop(s'.producer, id) && Owner(step) != Producing)
  {
    var s' := Next(work, s, step);
    if id in Passed<J, R>(s.output) {
      var i :| 0 <= i < |s.output| && s.output[i].0 == id;
      assert Passed<J, R>(s'.output)[i] == id;
    }
  }

  lemma {:induction false} SettledAlong<J(!new), R(!new)>(
      work: J -> Option<R>, workers: nat, states: nat -> State<J, R>, steps: nat -> Option<Step<J>>,
      id: nat, n: nat, m: nat)
    requires Schedule(work, workers, states, steps) && n <= m && id < |states(n).elements|
    requires Settled(states(n), id) || AboutToDrop(states(n).producer, id)
    ensures id < |states(m).elements| && (Settled(states(m), id) || AboutToDrop(states(m).producer, id))
    decreases m - n
  {
    if n < m {
      SettledAlong(work, workers, states, steps, id, n, m - 1);
      assert states(m - 1 + 1) == Then(work, states(m - 1), steps(m - 1)) &&
        (steps(m - 1).Some? ==> Enabled(states(m - 1), steps(m - 1).value));
      if steps(m - 1).Some? { SettledStays(work, states(m - 1), steps(m - 1).value, id); }
    }
  }

  lemma DropHappens<J(!new), R(!new)>(
      work: J -> Option<R>, workers: nat, states: nat -> State<J, R>, steps: nat -> Option<Step<J>>, id: nat, n: nat)
    returns (m: nat)
    requires Schedule(work, workers, states, steps) && Fair(states, steps) && id < |states(n).elements|
    requires Settled(states(n), id) || AboutToDrop(states(n).producer, id)
    ensures n <= m && Settled(states(m), id)
  {
    assert HasTurn(states, steps, Producing, n);
    m :| TurnComes(states, steps, Producing, n, m);
    SettledAlong(work, workers, states, steps, id, n, m);
    if !Settled(states(m), id) {
      ScheduleKeeps(work, workers, states, steps, m);
      ProducerCanAct(states(m));
      assert states(m + 1) == Then(work, states(m), steps(m)) && Enabled(states(m), steps(m).value);
      SettledStays(work, states(m), steps(m).value, id);
      m := m + 1;
    }
  }

  /** Under every fair schedule, with one worker or more, every submitted element is in the end passed
      on or dropped, however the queues overflow. */
  lemma EveryElementSettles<J(!new), R(!new)>(
      work: J -> Option<R>, workers: nat, states: nat -> State<J, R>, steps: nat -> Option<Step<J>>, id: nat, n: nat)
    returns (m: nat)
    requires Schedule(work, workers, states, steps) && Fair(states, steps) && workers >= 1
    requires id < |states(n).elements|
    ensures n <= m && Settled(states(m), id)
  {
    ScheduleKeeps(work, workers, states, steps, n);
    LineIncreases(work, states(n));
    m := n;
    if id in Ahead(states(n)) {
      m := Leaves(work, workers, states, steps, id, n);
      ScheduleKeeps(work, workers, states, steps, m);
    }
    m := DropHappens(work, workers, states, steps, id, m);
  }

  lemma {:induction false} LockBefore<J(!new), R(!new)>(
      work: J -> Option<R>, workers: nat, states: nat -> State<J, R>, steps: nat -> Option<Step<J>>,
      id: nat, n: nat, m: nat)
    returns (k: nat)
    requires Schedule(work, workers, states, steps) && n <= m
    requires states(n).consumer == Locking(id) && id !in Ahead(states(m))
    ensures n <= k <= m && states(k).consumer == Checking(id)
    decreases m - n
  {
    assert n < m by { assert id == Ahead(states(n))[0]; }
    assert states(n + 1) == Then(work, states(n), steps(n)) && (steps(n).Some? ==> Enabled(states(n), steps(n).value));
    k := n + 1;
    if steps(n) != Some(Lock) {
      k := LockBefore(work, workers, states, steps, id, n + 1, m);
    }
  }

  /** Under every fair schedule the consumer gets each mutex that it waits for. */
  lemma ConsumerIsServed<J(!new), R(!new)>(
      work: J -> Option<R>, workers: nat, states: nat -> State<J, R>, steps: nat -> Option<Step<J>>, n: nat)
    returns (m: nat)
    requires Schedule(work, workers, states, steps) && Fair(states, steps) && workers >= 1
    requires states(n).consumer.Locking?
    ensures n <= m && states(m).consumer == Checking(states(n).consumer.id)
  {
    var id := states(n).consumer.id;
    ScheduleKeeps(work, workers, states, steps, n);
    LineIncreases(work, states(n));
    assert id == Ahead(states(n))[0];
    m := Leaves(work, workers, states, steps, id, n);
    m := LockBefore(work, workers, states, steps, id, n, m);
  }
}
