/** The packet pipelines of `controller/send.go` and `controller/receive.go` as steps of concurrent
    routines.  An element goes into a work queue, read by a fixed number of workers, and into a queue that
    keeps the order, read by one consumer; its mutex is locked while its work is not finished.  Both
    queues are bounded and drop their oldest element on overflow.

    A job is what a worker is given and `work` is what it makes of it: sealing always succeeds, opening
    may fail. */
module Pipeline {
  import opened Wrappers

  const QUEUE_SIZE: nat := 20

  datatype Element<J, R> = Element(job: J, locked: bool, dropped: bool, result: Option<R>)

  // Where the producing routine is; `id` is the element it is adding, `victim` one it took out of a
  // full queue.
  datatype Producer =
    | Idle
    | AddingWork(id: nat)                // at the first select of addToEncryptionQueue
    | WorkFull(id: nat)                  // at the inner select
    | EvictingWork(id: nat, victim: nat)    // before old.Drop()
    | ReleasingWork(id: nat, victim: nat)   // before old.mutex.Unlock()
    | AddingOrder(id: nat)               // at the first select of addToOutboundQueue
    | OrderFull(id: nat)
    | EvictingOrder(id: nat, victim: nat)   // before old.Drop()

  // The consumer: waiting for an element, locking it, or about to check it.
  datatype Consumer = Ready | Locking(id: nat) | Checking(id: nat)

  // Elements are numbered in the order in which they were locked.
  datatype State<J, R> = State(
    idle: nat,                           // workers at their select
    elements: seq<Element<J, R>>,
    workQueue: seq<nat>,
    orderQueue: seq<nat>,
    producer: Producer,
    fetched: set<nat>,                   // taken by a worker, before the dropped check
    working: set<nat>,                   // past the check
    finished: set<nat>,                  // result written, before Unlock()
    consumer: Consumer,
    output: seq<(nat, Option<R>)>)       // what the consumer passed on; None is a packet not worked on

  datatype Step<J> =
    | Submit(job: J)
    | PushWork | SeeWorkFull | PopWork | DropWork | UnlockEvicted
    | PushOrder | SeeOrderFull | PopOrder | DropOrder
    | Fetch | Skip(w: nat) | Begin(w: nat) | Work(w: nat) | Unlock(w: nat)
    | Take | Lock | Pass

  // The device starts one encryption and one decryption worker.
  function Empty<J, R>(workers: nat): State<J, R> {
    State(workers, [], [], [], Idle, {}, {}, {}, Ready, [])
  }

  predicate Exists<J, R>(s: State<J, R>, id: nat) {
    id < |s.elements|
  }

  // The guards of the steps: nothing here assumes the invariant beyond the existence of elements.
  predicate Enabled<J, R>(s: State<J, R>, step: Step<J>) {
    match step
    case Submit(_) => s.producer.Idle?
    case PushWork => s.producer.AddingWork? && |s.workQueue| < QUEUE_SIZE
    case SeeWorkFull => s.producer.AddingWork? && |s.workQueue| >= QUEUE_SIZE
    case PopWork => s.producer.WorkFull?
    case DropWork => s.producer.EvictingWork? && Exists(s, s.producer.victim)
    case UnlockEvicted => s.producer.ReleasingWork? && Exists(s, s.producer.victim)
    case PushOrder => s.producer.AddingOrder? && |s.orderQueue| < QUEUE_SIZE
    case SeeOrderFull => s.producer.AddingOrder? && |s.orderQueue| >= QUEUE_SIZE
    case PopOrder => s.producer.OrderFull?
    case DropOrder => s.producer.EvictingOrder? && Exists(s, s.producer.victim)
    case Fetch => s.workQueue != [] && s.idle > 0
    case Skip(w) => w in s.fetched && Exists(s, w) && s.elements[w].dropped
    case Begin(w) => w in s.fetched && Exists(s, w) && !s.elements[w].dropped
    case Work(w) => w in s.working && Exists(s, w)
    case Unlock(w) => w in s.finished && Exists(s, w)
    case Take => s.consumer.Ready? && s.orderQueue != []
    case Lock => s.consumer.Locking? && Exists(s, s.consumer.id) && !s.elements[s.consumer.id].locked
    case Pass => s.consumer.Checking? && Exists(s, s.consumer.id)
  }

  function WithElement<J, R>(s: State<J, R>, id: nat, e: Element<J, R>): State<J, R>
    requires Exists(s, id)
  {
    s.(elements := s.elements[id := e])
  }

  function Next<J, R>(work: J -> Option<R>, s: State<J, R>, step: Step<J>): State<J, R>
    requires Enabled(s, step)
  {
    match step
    case Submit(job) =>
      s.(elements := s.elements + [Element(job, true, false, None)], producer := AddingWork(|s.elements|))
    case PushWork => s.(workQueue := s.workQueue + [s.producer.id], producer := AddingOrder(s.producer.id))
    case SeeWorkFull => s.(producer := WorkFull(s.producer.id))
    case PopWork =>
      if s.workQueue == [] then s.(producer := AddingWork(s.producer.id))
      else s.(workQueue := s.workQueue[1..], producer := EvictingWork(s.producer.id, s.workQueue[0]))
    case DropWork =>
      WithElement(s, s.producer.victim, s.elements[s.producer.victim].(dropped := true))
      .(producer := ReleasingWork(s.producer.id, s.producer.victim))
    case UnlockEvicted =>
      WithElement(s, s.producer.victim,
        s.elements[s.producer.victim].(locked := false)).(producer := AddingWork(s.producer.id))
    case PushOrder => s.(orderQueue := s.orderQueue + [s.producer.id], producer := Idle)
    case SeeOrderFull => s.(producer := OrderFull(s.producer.id))
    case PopOrder =>
      if s.orderQueue == [] then s.(producer := AddingOrder(s.producer.id))
      else s.(orderQueue := s.orderQueue[1..], producer := EvictingOrder(s.producer.id, s.orderQueue[0]))
    case DropOrder =>
      WithElement(s, s.producer.victim,
        s.elements[s.producer.victim].(dropped := true)).(producer := AddingOrder(s.producer.id))
    case Fetch => s.(idle := s.idle - 1, workQueue := s.workQueue[1..], fetched := s.fetched + {s.workQueue[0]})
    case Skip(w) => s.(idle := s.idle + 1, fetched := s.fetched - {w})
    case Begin(w) => s.(fetched := s.fetched - {w}, working := s.working + {w})
    case Work(w) =>
      var r := work(s.elements[w].job);
      WithElement(s, w, s.elements[w].(result := r, dropped := s.elements[w].dropped || r.None?))
      .(working := s.working - {w}, finished := s.finished + {w})
    case Unlock(w) =>
      WithElement(s, w, s.elements[w].(locked := false)).(idle := s.idle + 1, finished := s.finished - {w})
    case Take => s.(orderQueue := s.orderQueue[1..], consumer := Locking(s.orderQueue[0]))
    case Lock =>
      WithElement(s, s.consumer.id, s.elements[s.consumer.id].(locked := true)).(consumer := Checking(s.consumer.id))
    case Pass =>
      var e := s.elements[s.consumer.id];
      if e.dropped then s.(consumer := Ready)
      else s.(consumer := Ready, output := s.output + [(s.consumer.id, e.result)])
  }

  predicate OfWorkQueue<J>(step: Step<J>) {
    step.Submit? || step.PushWork? || step.SeeWorkFull? || step.PopWork? || step.DropWork? || step.UnlockEvicted?
  }

  predicate OfOrderQueue<J>(step: Step<J>) {
    step.PushOrder? || step.SeeOrderFull? || step.PopOrder? || step.DropOrder?
  }

  predicate OfWorker<J>(step: Step<J>) {
    step.Fetch? || step.Skip? || step.Begin? || step.Work? || step.Unlock?
  }

  // ----- The line of elements, from the last one passed on to the last one submitted.

  function Passed<J, R>(output: seq<(nat, Option<R>)>): (ids: seq<nat>)
    ensures |ids| == |output|
  {
    seq(|output|, i requires 0 <= i < |output| => output[i].0)
  }

  function AtConsumer(c: Consumer): seq<nat> {
    if c.Ready? then [] else [c.id]
  }

  function AtProducer(p: Producer): seq<nat> {
    if p.Idle? then [] else [p.id]
  }

  // The elements that the consumer has, or will find in its queue.
  function Ahead<J, R>(s: State<J, R>): seq<nat> {
    AtConsumer(s.consumer) + s.orderQueue + AtProducer(s.producer)
  }

  function Line<J, R>(s: State<J, R>): seq<nat> {
    Passed<J, R>(s.output) + Ahead(s)
  }

  predicate Increasing(q: seq<nat>) {
    forall i, j :: 0 <= i < j < |q| ==> q[i] < q[j]
  }

  predicate AllBelow(q: seq<nat>, n: nat) {
    forall i :: 0 <= i < |q| ==> q[i] < n
  }

  // The line is in order of submission: overflow and failures take elements out of it, nothing moves.
  ghost predicate Ordered<J, R>(s: State<J, R>) {
    && Increasing(Line(s)) && AllBelow(Line(s), |s.elements|)
    && (!s.producer.Idle? ==> s.producer.id == |s.elements| - 1)
    && (s.producer.EvictingOrder? ==> s.producer.victim < |s.elements|)
  }

  lemma TakenOut(a: seq<nat>, x: nat, b: seq<nat>, n: nat)
    requires Increasing(a + [x] + b) && AllBelow(a + [x] + b, n)
    ensures Increasing(a + b) && AllBelow(a + b, n) && x !in a && x !in b
  {
    var q := a + [x] + b;
    forall i, j | 0 <= i < j < |a + b| ensures (a + b)[i] < (a + b)[j] {
      assert (a + b)[i] == q[if i < |a| then i else i + 1];
      assert (a + b)[j] == q[if j < |a| then j else j + 1];
    }
    forall i | 0 <= i < |a + b| ensures (a + b)[i] < n {
      assert (a + b)[i] == q[if i < |a| then i else i + 1];
    }
    assert q[|a|] == x;
    assert forall i :: 0 <= i < |a| ==> q[i] == a[i];
    assert forall i :: 0 <= i < |b| ==> q[|a| + 1 + i] == b[i];
  }

  // What a step takes out of the line, and what it adds to it.
  function LeavesLine<J, R>(s: State<J, R>, step: Step<J>): set<nat>
    requires Enabled(s, step)
  {
    match step
    case PopOrder => if s.orderQueue == [] then {} else {s.orderQueue[0]}
    case Pass => {s.consumer.id}
    case _ => {}
  }

  function Submitted<J, R>(s: State<J, R>, step: Step<J>): set<nat> {
    if step.Submit? then {|s.elements|} else {}
  }

  function Elems(q: seq<nat>): set<nat> {
    set x | x in q
  }

  lemma LineSplit(a: seq<nat>, b: seq<nat>, n: nat)
    requires Increasing(a + b) && AllBelow(a + b, n)
    ensures forall x <- a :: x !in b
  {
    forall x <- a ensures x !in b {
      var i :| 0 <= i < |a| && a[i] == x;
      assert (a + b)[i] == x;
      assert forall j :: 0 <= j < |b| ==> (a + b)[|a| + j] == b[j];
    }
  }

  lemma PopKeepsLine<J, R>(work: J -> Option<R>, s: State<J, R>)
    requires Ordered(s) && s.producer.OrderFull? && s.orderQueue != []
    ensures Ordered(Next(work, s, PopOrder))
    ensures Elems(Ahead(Next(work, s, PopOrder))) == Elems(Ahead(s)) - {s.orderQueue[0]}
  {
    var s' := Next(work, s, PopOrder);
    var c, q, p := AtConsumer(s.consumer), s.orderQueue, AtProducer(s.producer);
    var out := Passed<J, R>(s.output);
    assert q == [q[0]] + q[1..];
    assert Line(s) == (out + c) + [q[0]] + (q[1..] + p);
    TakenOut(out + c, q[0], q[1..] + p, |s.elements|);
    assert Line(s)[|out + c|] == q[0];
    assert Line(s') == (out + c) + (q[1..] + p);
    assert Ahead(s) == c + [q[0]] + (q[1..] + p);
    assert Ahead(s') == c + (q[1..] + p);
    assert q[0] !in c by { assert forall x <- c :: x in out + c; }
  }

  lemma PassKeepsLine<J, R>(work: J -> Option<R>, s: State<J, R>)
    requires Ordered(s) && Enabled(s, Pass)
    ensures Ordered(Next(work, s, Pass))
    ensures Elems(Ahead(Next(work, s, Pass))) == Elems(Ahead(s)) - {s.consumer.id}
  {
    var s' := Next(work, s, Pass);
    var id, rest := s.consumer.id, s.orderQueue + AtProducer(s.producer);
    var out := Passed<J, R>(s.output);
    assert Line(s) == out + [id] + rest;
    TakenOut(out, id, rest, |s.elements|);
    assert Ahead(s) == [id] + rest && Ahead(s') == rest;
    if s.elements[id].dropped {
      assert Line(s') == out + rest;
    } else {
      assert Passed<J, R>(s'.output) == out + [id];
      assert Line(s') == Line(s);
    }
  }

  lemma LineKept<J, R>(work: J -> Option<R>, s: State<J, R>, step: Step<J>)
    requires Ordered(s) && Enabled(s, step)
    ensures Ordered(Next(work, s, step))
    ensures Elems(Ahead(Next(work, s, step))) == Elems(Ahead(s)) + Submitted(s, step) - LeavesLine(s, step)
  {
    var s' := Next(work, s, step);
    if step.Submit? {
      assert Ahead(s') == Ahead(s) + [|s.elements|];
      assert Line(s') == Line(s) + [|s.elements|];
    } else if step.PopOrder? && s.orderQueue != [] {
      PopKeepsLine(work, s);
    } else if step.Pass? {
      PassKeepsLine(work, s);
    } else {
      SameLine(work, s, step);
    }
  }

  // Every other step leaves the line as it is.
  lemma SameLine<J, R>(work: J -> Option<R>, s: State<J, R>, step: Step<J>)
    requires Ordered(s) && Enabled(s, step)
    requires !step.Submit? && !step.Pass? && (step.PopOrder? ==> s.orderQueue == [])
    ensures var s' := Next(work, s, step);
      Ahead(s') == Ahead(s) && s'.output == s.output && |s'.elements| == |s.elements|
    ensures LeavesLine(s, step) == {} && Submitted(s, step) == {} && Ordered(Next(work, s, step))
  {
    var c, q, p := AtConsumer(s.consumer), s.orderQueue, AtProducer(s.producer);
    if step.PushOrder? {
      assert c + q + p == c + (q + p) + [];
    } else if step.Take? {
      assert [] + q + p == [q[0]] + q[1..] + p;
    }
  }

  // ----- Who will unlock what.

  // The elements whose work the producing routine still has in hand.
  function InHand(p: Producer): set<nat> {
    match p
    case AddingWork(id) => {id}
    case WorkFull(id) => {id}
    case EvictingWork(id, victim) => {id, victim}
    case ReleasingWork(id, victim) => {id, victim}
    case _ => {}
  }

  // Elements that someone will still unlock.
  function Pending<J, R>(s: State<J, R>): set<nat> {
    Elems(s.workQueue) + s.fetched + s.working + s.finished + InHand(s.producer)
  }

  predicate NoDuplicates(q: seq<nat>) {
    forall i, j :: 0 <= i < j < |q| ==> q[i] != q[j]
  }

  // Each element whose work is unfinished is in exactly one place.
  ghost predicate OnePlace<J, R>(s: State<J, R>) {
    && NoDuplicates(s.workQueue)
    && Elems(s.workQueue) !! s.fetched !! s.working !! s.finished !! InHand(s.producer)
    && (s.producer.EvictingWork? || s.producer.ReleasingWork? ==> s.producer.id != s.producer.victim)
    && (forall id <- Pending(s) :: id < |s.elements|)
  }

  // What a step releases to the consumer.
  function Released<J, R>(s: State<J, R>, step: Step<J>): set<nat>
    requires Enabled(s, step)
  {
    match step
    case UnlockEvicted => {s.producer.victim}
    case Skip(w) => {w}
    case Unlock(w) => {w}
    case _ => {}
  }

  lemma FirstOut(q: seq<nat>)
    requires q != [] && NoDuplicates(q)
    ensures Elems(q[1..]) == Elems(q) - {q[0]} && NoDuplicates(q[1..])
  {
  }

  lemma ProducerKeepsPlaces<J, R>(work: J -> Option<R>, s: State<J, R>, step: Step<J>)
    requires OnePlace(s) && Enabled(s, step) && (OfWorkQueue(step) || OfOrderQueue(step))
    ensures OnePlace(Next(work, s, step))
    ensures Pending(Next(work, s, step)) == Pending(s) + Submitted(s, step) - Released(s, step)
  {
    var s' := Next(work, s, step);
    var q := s.workQueue;
    if step.Submit? {
      assert |s.elements| !in Pending(s);
      assert Pending(s') == Pending(s) + {|s.elements|};
    } else if step.PushWork? {
      assert s.producer.id in InHand(s.producer);
      assert Elems(s'.workQueue) == Elems(q) + {s.producer.id};
      assert Pending(s') == Pending(s);
    } else {
      if step.PopWork? && q != [] { FirstOut(q); }
      assert Pending(s') == Pending(s) - Released(s, step);
    }
  }

  lemma OthersKeepPlaces<J, R>(work: J -> Option<R>, s: State<J, R>, step: Step<J>)
    requires OnePlace(s) && Enabled(s, step) && !OfWorkQueue(step) && !OfOrderQueue(step)
    ensures OnePlace(Next(work, s, step))
    ensures Pending(Next(work, s, step)) == Pending(s) + Submitted(s, step) - Released(s, step)
  {
    if step.Fetch? { FirstOut(s.workQueue); }
    assert Pending(Next(work, s, step)) == Pending(s) - Released(s, step);
  }

  lemma OnePlaceKept<J, R>(work: J -> Option<R>, s: State<J, R>, step: Step<J>)
    requires OnePlace(s) && Enabled(s, step)
    ensures OnePlace(Next(work, s, step))
    ensures Pending(Next(work, s, step)) == Pending(s) + Submitted(s, step) - Released(s, step)
  {
    if OfWorkQueue(step) || OfOrderQueue(step) {
      ProducerKeepsPlaces(work, s, step);
    } else {
      OthersKeepPlaces(work, s, step);
    }
  }

  ghost predicate ElementOk<J, R>(work: J -> Option<R>, s: State<J, R>, id: nat)
    requires Exists(s, id)
  {
    var e := s.elements[id];
    // unfinished work keeps the mutex locked, and the consumer off
    && (id in Pending(s) ==> e.locked && s.consumer != Checking(id))
    // an element dropped before its work is done will not be waited for
    && (e.dropped && (id in s.workQueue || id in s.fetched || id in s.working) ==> id !in Ahead(s))
    && (e.dropped && s.producer.EvictingWork? && s.producer.victim == id ==> id !in Ahead(s))
    && (s.producer.EvictingOrder? && s.producer.victim == id ==> id !in Ahead(s))
    && (id in InHand(s.producer) && s.producer.id == id ==> !e.dropped)
    && (s.producer.ReleasingWork? && s.producer.victim == id ==> e.dropped)
    // a result is the one the work gives, and a failure drops the element
    && (id in s.finished ==> e.result == work(e.job) && (e.result.None? ==> e.dropped))
    && (id !in Pending(s) && !e.dropped ==> e.result == work(e.job) && e.result.Some?)
    // an element still to be consumed is locked by its worker or free
    && (id in Ahead(s) && id !in Pending(s) && s.consumer != Checking(id) ==> !e.locked)
  }

  // What was passed on is the work of its job.
  ghost predicate OutputOk<J, R>(work: J -> Option<R>, s: State<J, R>) {
    forall i :: 0 <= i < |s.output| ==>
      && s.output[i].0 < |s.elements| && s.output[i].1.Some?
      && s.output[i].1 == work(s.elements[s.output[i].0].job)
  }

  predicate AboutToDrop(p: Producer, id: nat) {
    p.EvictingOrder? && p.victim == id
  }

  // An element that left the line was passed on or dropped.
  ghost predicate Accounted<J, R>(s: State<J, R>) {
    forall id :: 0 <= id < |s.elements| && !s.elements[id].dropped && !AboutToDrop(s.producer, id) ==>
      id in Passed<J, R>(s.output) || id in Ahead(s)
  }

  // An element passed on is done with: nothing will drop it or unlock it.
  ghost predicate PassedOk<J, R>(s: State<J, R>) {
    forall id <- Passed<J, R>(s.output) ::
      id < |s.elements| && !s.elements[id].dropped && id !in Pending(s) && !AboutToDrop(s.producer, id)
  }

  predicate Bounded<J, R>(s: State<J, R>) {
    && |s.workQueue| <= QUEUE_SIZE && |s.orderQueue| <= QUEUE_SIZE
    // an eviction makes room, and only its own routine adds to the queue
    && (s.producer.EvictingWork? || s.producer.ReleasingWork? ==> |s.workQueue| < QUEUE_SIZE)
    && (s.producer.EvictingOrder? ==> |s.orderQueue| < QUEUE_SIZE)
  }

  ghost predicate Inv<J, R>(work: J -> Option<R>, s: State<J, R>) {
    && Bounded(s) && OnePlace(s) && Ordered(s) && OutputOk(work, s) && Accounted(s) && PassedOk(s)
    && forall id :: 0 <= id < |s.elements| ==> ElementOk(work, s, id)
  }

  lemma WorkQueueKeeps<J, R>(work: J -> Option<R>, s: State<J, R>, step: Step<J>, id: nat)
    requires OnePlace(s) && Ordered(s) && Enabled(s, step)
    requires OfWorkQueue(step) && Exists(s, id) && ElementOk(work, s, id)
    ensures ElementOk(work, Next(work, s, step), id)
  {
    LineKept(work, s, step);
    OnePlaceKept(work, s, step);
    var s' := Next(work, s, step);
    assert id in Elems(Ahead(s)) <==> id in Elems(Ahead(s'));
    if step.PopWork? && s.workQueue != [] { FirstOut(s.workQueue); }
  }

  lemma OrderQueueKeeps<J, R>(work: J -> Option<R>, s: State<J, R>, step: Step<J>, id: nat)
    requires OnePlace(s) && Ordered(s) && Enabled(s, step)
    requires OfOrderQueue(step) && Exists(s, id) && ElementOk(work, s, id)
    ensures ElementOk(work, Next(work, s, step), id)
  {
    LineKept(work, s, step);
    OnePlaceKept(work, s, step);
    assert id in Elems(Ahead(s)) - LeavesLine(s, step) <==> id in Elems(Ahead(Next(work, s, step)));
  }

  lemma WorkerKeeps<J, R>(work: J -> Option<R>, s: State<J, R>, step: Step<J>, id: nat)
    requires OnePlace(s) && Ordered(s) && Enabled(s, step) && OfWorker(step) && Exists(s, id) && ElementOk(work, s, id)
    ensures ElementOk(work, Next(work, s, step), id)
  {
    OnePlaceKept(work, s, step);
    assert Ahead(s) == Ahead(Next(work, s, step));
    if step.Fetch? { FirstOut(s.workQueue); }
  }

  lemma ConsumerKeeps<J, R>(work: J -> Option<R>, s: State<J, R>, step: Step<J>, id: nat)
    requires OnePlace(s) && Ordered(s) && Enabled(s, step) && (step.Take? || step.Lock? || step.Pass?)
    requires Exists(s, id) && ElementOk(work, s, id)
    ensures ElementOk(work, Next(work, s, step), id)
  {
    LineKept(work, s, step);
    assert id in Elems(Ahead(s)) - LeavesLine(s, step) <==> id in Elems(Ahead(Next(work, s, step)));
  }

  lemma ElementKept<J, R>(work: J -> Option<R>, s: State<J, R>, step: Step<J>, id: nat)
    requires OnePlace(s) && Ordered(s) && Enabled(s, step) && Exists(s, id) && ElementOk(work, s, id)
    ensures ElementOk(work, Next(work, s, step), id)
  {
    if OfWorkQueue(step) {
      WorkQueueKeeps(work, s, step, id);
    } else if OfOrderQueue(step) {
      OrderQueueKeeps(work, s, step, id);
    } else if OfWorker(step) {
      WorkerKeeps(work, s, step, id);
    } else {
      ConsumerKeeps(work, s, step, id);
    }
  }

  lemma NewElementOk<J, R>(work: J -> Option<R>, s: State<J, R>, job: J)
    requires OnePlace(s) && Ordered(s) && Enabled(s, Submit(job))
    ensures ElementOk(work, Next(work, s, Submit(job)), |s.elements|)
  {
    OnePlaceKept(work, s, Submit(job));
    if s.consumer.Checking? {
      assert s.consumer.id in Ahead(s) && s.consumer.id == Line(s)[|s.output|];
    }
  }

  lemma OutputKept<J, R>(work: J -> Option<R>, s: State<J, R>, step: Step<J>)
    requires Inv(work, s) && Enabled(s, step)
    ensures OutputOk(work, Next(work, s, step))
  {
    if step.Pass? {
      assert ElementOk(work, s, s.consumer.id);
    }
  }

  lemma AccountedKept<J, R>(work: J -> Option<R>, s: State<J, R>, step: Step<J>)
    requires Inv(work, s) && Enabled(s, step)
    ensures Accounted(Next(work, s, step))
  {
    var s' := Next(work, s, step);
    forall id | 0 <= id < |s'.elements| && !s'.elements[id].dropped && !AboutToDrop(s'.producer, id)
      ensures id in Passed<J, R>(s'.output) || id in Ahead(s')
    {
      if id in Passed<J, R>(s.output) {
        StaysPassed(work, s, step, id);
      } else if step.Pass? && id == s.consumer.id {
        assert Passed<J, R>(s'.output)[|s.output|] == id;
      } else {
        StaysAhead(work, s, step, id);
      }
    }
  }

  lemma StaysPassed<J, R>(work: J -> Option<R>, s: State<J, R>, step: Step<J>, id: nat)
    requires Enabled(s, step) && id in Passed<J, R>(s.output)
    ensures id in Passed<J, R>(Next(work, s, step).output)
  {
    var i :| 0 <= i < |s.output| && s.output[i].0 == id;
    assert Passed<J, R>(Next(work, s, step).output)[i] == id;
  }

  lemma StaysAhead<J, R>(work: J -> Option<R>, s: State<J, R>, step: Step<J>, id: nat)
    requires Ordered(s) && Accounted(s) && Enabled(s, step) && id !in Passed<J, R>(s.output)
    requires !(step.Pass? && id == s.consumer.id)
    requires var s' := Next(work, s, step);
      id < |s'.elements| && !s'.elements[id].dropped && !AboutToDrop(s'.producer, id)
    ensures id in Ahead(Next(work, s, step))
  {
    LineKept(work, s, step);
    if id < |s.elements| {
      assert !s.elements[id].dropped;
      assert id in Ahead(s);
      assert id !in LeavesLine(s, step);
    }
    assert id in Elems(Ahead(Next(work, s, step)));
  }

  // No step touches what was passed on.
  lemma PassedStays<J, R>(work: J -> Option<R>, s: State<J, R>, step: Step<J>, id: nat)
    requires Inv(work, s) && Enabled(s, step) && id in Passed<J, R>(s.output)
    ensures var s' := Next(work, s, step);
      id < |s.elements| && !s'.elements[id].dropped && id !in Pending(s') && !AboutToDrop(s'.producer, id)
  {
    OnePlaceKept(work, s, step);
    LineSplit(Passed<J, R>(s.output), Ahead(s), |s.elements|);
    assert id !in s.orderQueue by { assert forall x <- s.orderQueue :: x in Ahead(s); }
  }

  lemma PassedKept<J, R>(work: J -> Option<R>, s: State<J, R>, step: Step<J>)
    requires Inv(work, s) && Enabled(s, step)
    ensures PassedOk(Next(work, s, step))
  {
    var s' := Next(work, s, step);
    forall id <- Passed<J, R>(s'.output)
      ensures id < |s'.elements| && !s'.elements[id].dropped && id !in Pending(s') && !AboutToDrop(s'.producer, id)
    {
      if id in Passed<J, R>(s.output) {
        PassedStays(work, s, step, id);
      } else {
        var i :| 0 <= i < |s'.output| && s'.output[i].0 == id;
        assert i == |s.output| by {
          assert forall j :: 0 <= j < |s.output| ==> s.output[j].0 == Passed<J, R>(s.output)[j];
        }
        assert ElementOk(work, s, id);
        assert id in Ahead(s);
      }
    }
  }

  lemma StepKeepsInv<J, R>(work: J -> Option<R>, s: State<J, R>, step: Step<J>)
    requires Inv(work, s) && Enabled(s, step)
    ensures Inv(work, Next(work, s, step))
  {
    var s' := Next(work, s, step);
    LineKept(work, s, step);
    OnePlaceKept(work, s, step);
    OutputKept(work, s, step);
    AccountedKept(work, s, step);
    PassedKept(work, s, step);
    forall id | 0 <= id < |s'.elements| ensures ElementOk(work, s', id) {
      if id < |s.elements| {
        ElementKept(work, s, step, id);
      } else {
        NewElementOk(work, s, step.job);
      }
    }
  }

  // ----- Runs.

  ghost predicate Runs<J(!new), R(!new)>(work: J -> Option<R>, s: State<J, R>, steps: seq<Step<J>>)
    decreases |steps|
  {
    steps == [] || (Enabled(s, steps[0]) && Runs(work, Next(work, s, steps[0]), steps[1..]))
  }

  ghost function Final<J(!new), R(!new)>(work: J -> Option<R>, s: State<J, R>, steps: seq<Step<J>>): State<J, R>
    requires Runs(work, s, steps)
    decreases |steps|
  {
    if steps == [] then s else Final(work, Next(work, s, steps[0]), steps[1..])
  }

  // The jobs given to the pipeline, in order.
  function Jobs<J>(steps: seq<Step<J>>): seq<J>
    decreases |steps|
  {
    if steps == [] then [] else (if steps[0].Submit? then [steps[0].job] else []) + Jobs(steps[1..])
  }

  function JobsOf<J, R>(s: State<J, R>): (jobs: seq<J>)
    ensures |jobs| == |s.elements|
  {
    seq(|s.elements|, i requires 0 <= i < |s.elements| => s.elements[i].job)
  }

  lemma {:induction false} RunKeepsInv<J(!new), R(!new)>(work: J -> Option<R>, s: State<J, R>, steps: seq<Step<J>>)
    requires Inv(work, s) && Runs(work, s, steps)
    ensures Inv(work, Final(work, s, steps))
    decreases |steps|
  {
    if steps != [] {
      StepKeepsInv(work, s, steps[0]);
      RunKeepsInv(work, Next(work, s, steps[0]), steps[1..]);
    }
  }

  lemma {:induction false} RunKeepsJobs<J(!new), R(!new)>(work: J -> Option<R>, s: State<J, R>, steps: seq<Step<J>>)
    requires Runs(work, s, steps)
    ensures JobsOf(Final(work, s, steps)) == JobsOf(s) + Jobs(steps)
    decreases |steps|
  {
    if steps != [] {
      var s' := Next(work, s, steps[0]);
      RunKeepsJobs(work, s', steps[1..]);
      assert JobsOf(s') == JobsOf(s) + if steps[0].Submit? then [steps[0].job] else [];
    }
  }

  function Results<R>(output: seq<(nat, Option<R>)>): (results: seq<R>)
    requires forall i :: 0 <= i < |output| ==> output[i].1.Some?
    ensures |results| == |output|
  {
    seq(|output|, i requires 0 <= i < |output| => output[i].1.value)
  }

  lemma FromEmpty<J(!new), R(!new)>(work: J -> Option<R>, workers: nat, steps: seq<Step<J>>)
    requires Runs(work, Empty(workers), steps)
    ensures Inv(work, Final(work, Empty(workers), steps)) && JobsOf(Final(work, Empty(workers), steps)) == Jobs(steps)
  {
    RunKeepsInv(work, Empty(workers), steps);
    RunKeepsJobs(work, Empty(workers), steps);
    assert JobsOf(Empty<J, R>(workers)) == [];
  }

  /** In every run, whatever the schedule and the overflows: what comes out is the finished work of
      jobs that went in, in the order in which they went in and each at most once. */
  lemma PassedInOrder<J(!new), R(!new)>(work: J -> Option<R>, workers: nat, steps: seq<Step<J>>)
    requires Runs(work, Empty(workers), steps)
    ensures var output := Final(work, Empty(workers), steps).output;
      && Increasing(Passed<J, R>(output))
      && forall i :: 0 <= i < |output| ==>
        output[i].0 < |Jobs(steps)| && output[i].1.Some? && output[i].1 == work(Jobs(steps)[output[i].0])
  {
    var s := Final(work, Empty(workers), steps);
    FromEmpty(work, workers, steps);
    var ids := Passed<J, R>(s.output);
    forall i, j | 0 <= i < j < |ids| ensures ids[i] < ids[j] {
      assert ids[i] == Line(s)[i] && ids[j] == Line(s)[j];
    }
    forall i | 0 <= i < |s.output|
      ensures s.output[i].0 < |Jobs(steps)| && s.output[i].1.Some? && s.output[i].1 == work(Jobs(steps)[s.output[i].0])
    {
      assert s.elements[s.output[i].0].job == JobsOf(s)[s.output[i].0];
    }
  }

  ghost predicate Dropped<J(!new), R(!new)>(work: J -> Option<R>, workers: nat, steps: seq<Step<J>>, id: nat)
    requires Runs(work, Empty(workers), steps) && id < |Jobs(steps)|
  {
    FromEmpty(work, workers, steps);
    Final(work, Empty(workers), steps).elements[id].dropped
  }

  predicate Quiet<J, R>(s: State<J, R>) {
    s.producer.Idle? && s.consumer.Ready? && s.orderQueue == []
  }

  /** Once the consumer has caught up, the jobs that came out are exactly those that were not dropped. */
  lemma PassedUnlessDropped<J(!new), R(!new)>(work: J -> Option<R>, workers: nat, steps: seq<Step<J>>, id: nat)
    requires Runs(work, Empty(workers), steps) && Quiet(Final(work, Empty(workers), steps)) && id < |Jobs(steps)|
    ensures id in Passed<J, R>(Final(work, Empty(workers), steps).output) <==> !Dropped(work, workers, steps, id)
  {
    FromEmpty(work, workers, steps);
  }

  /** No step unlocks a mutex that is not locked, and a worker leaves an element locked only when
      nobody waits for it. */
  lemma LocksUsedWell<J(!new), R(!new)>(work: J -> Option<R>, workers: nat, steps: seq<Step<J>>, step: Step<J>)
    requires Runs(work, Empty(workers), steps) && Enabled(Final(work, Empty(workers), steps), step)
    ensures var s := Final(work, Empty(workers), steps);
      && (step.UnlockEvicted? ==> s.elements[s.producer.victim].locked)
      && (step.Unlock? ==> s.elements[step.w].locked)
      && (step.Skip? ==> step.w !in Ahead(s))
      && |s.workQueue| <= QUEUE_SIZE && |s.orderQueue| <= QUEUE_SIZE
  {
    var s := Final(work, Empty(workers), steps);
    FromEmpty(work, workers, steps);
    if step.UnlockEvicted? { assert ElementOk(work, s, s.producer.victim); }
    if step.Unlock? || step.Skip? { assert ElementOk(work, s, step.w); }
  }

  // ----- Nothing is lost without overflow or failure.

  predicate NoOverflow<J>(step: Step<J>) {
    !step.PopWork? && !step.PopOrder?
  }

  ghost predicate NoneDropped<J, R>(work: J -> Option<R>, s: State<J, R>) {
    && !s.producer.EvictingWork? && !s.producer.ReleasingWork? && !s.producer.EvictingOrder?
    && forall id :: 0 <= id < |s.elements| ==> !s.elements[id].dropped && work(s.elements[id].job).Some?
  }

  lemma StepDropsNone<J, R>(work: J -> Option<R>, s: State<J, R>, step: Step<J>)
    requires NoneDropped(work, s) && Enabled(s, step) && NoOverflow(step)
    requires step.Submit? ==> work(step.job).Some?
    ensures NoneDropped(work, Next(work, s, step))
  {
  }

  lemma {:induction false} RunDropsNone<J(!new), R(!new)>(work: J -> Option<R>, s: State<J, R>, steps: seq<Step<J>>)
    requires Runs(work, s, steps) && NoneDropped(work, s)
    requires forall step <- steps :: NoOverflow(step)
    requires forall job <- Jobs(steps) :: work(job).Some?
    ensures NoneDropped(work, Final(work, s, steps))
    decreases |steps|
  {
    if steps != [] {
      if steps[0].Submit? { assert Jobs(steps)[0] == steps[0].job; }
      assert NoOverflow(steps[0]);
      StepDropsNone(work, s, steps[0]);
      assert forall job <- Jobs(steps[1..]) :: job in Jobs(steps);
      RunDropsNone(work, Next(work, s, steps[0]), steps[1..]);
    }
  }

  lemma {:induction false} IncreasingOverAll(q: seq<nat>, n: nat, i: nat)
    requires Increasing(q) && AllBelow(q, n) && (forall id :: 0 <= id < n ==> id in q) && i < n
    ensures i < |q| && q[i] == i
  {
    if i > 0 { IncreasingOverAll(q, n, i - 1); }
    assert i in q;
    assert forall j :: 0 <= j < i && j < |q| ==> q[j] < i by {
      if i > 0 { assert q[i - 1] == i - 1; }
    }
  }

  lemma {:induction false} IncreasingIsShort(q: seq<nat>, n: nat)
    requires Increasing(q) && AllBelow(q, n)
    ensures |q| <= n
  {
    if q != [] { IncreasingIsShort(q[..|q| - 1], q[|q| - 1]); }
  }

  lemma AllInOrder(q: seq<nat>, n: nat)
    requires Increasing(q) && AllBelow(q, n) && (forall id :: 0 <= id < n ==> id in q)
    ensures |q| == n && forall i :: 0 <= i < n ==> q[i] == i
  {
    forall i | 0 <= i < n ensures i < |q| && q[i] == i { IncreasingOverAll(q, n, i); }
    IncreasingIsShort(q, n);
    if n > 0 { IncreasingOverAll(q, n, n - 1); }
  }

  /** When no queue overflows and no work fails, all jobs come out, in order. */
  lemma AllPassed<J(!new), R(!new)>(work: J -> Option<R>, workers: nat, steps: seq<Step<J>>)
    requires Runs(work, Empty(workers), steps) && Quiet(Final(work, Empty(workers), steps))
    requires forall step <- steps :: NoOverflow(step)
    requires forall job <- Jobs(steps) :: work(job).Some?
    ensures var output := Final(work, Empty(workers), steps).output;
      |output| == |Jobs(steps)| && forall i :: 0 <= i < |output| ==> output[i] == (i, work(Jobs(steps)[i]))
  {
    var s := Final(work, Empty(workers), steps);
    var n := |Jobs(steps)|;
    var ids := Passed<J, R>(s.output);
    PassedInOrder(work, workers, steps);
    RunDropsNone(work, Empty(workers), steps);
    RunKeepsJobs(work, Empty(workers), steps);
    forall id | 0 <= id < n ensures id in ids { PassedUnlessDropped(work, workers, steps, id); }
    assert AllBelow(ids, n);
    AllInOrder(ids, n);
    forall i | 0 <= i < n ensures s.output[i] == (i, work(Jobs(steps)[i])) { assert ids[i] == i; }
  }
}
