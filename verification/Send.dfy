/** `controller/send.go`: how packets from the tunnel device get their nonces and are sealed. */
module Send {
  import opened Wrappers
  import opened Pipeline
  import Replay
  import opened Noise
  import KeyRuns
  import Symbolic

  type Term = Symbolic.Term

  // RejectAfterTime, in nanoseconds
  const REJECT_AFTER_TIME: int := 180_000_000_000

  type Payload = seq<bv8>

  // An AEAD box, opened only by its own key and nonce, or anything else.
  datatype Content = Box(key: Term, nonce: nat, payload: Payload) | Junk(bits: nat)

  datatype Packet = Packet(receiver: nat, counter: nat, content: Content)

  // The current key pair, by number, and its age, as the nonce routine finds them each time it looks.
  datatype Look = Look(current: Option<nat>, age: int)

  // A packet, and what the routine sees while it waits; it gives up after the last look.
  datatype Request = Request(payload: Payload, looks: seq<Look>)

  datatype Outgoing = Outgoing(number: nat, pair: KeyPair, nonce: nat, payload: Payload)

  // The send nonces of the key pairs, by number: 0 until used.
  function NonceOf(nonces: map<nat, nat>, number: nat): nat {
    if number in nonces then nonces[number] else 0
  }

  // `pairs` are the key pairs of the device, in order of creation.
  predicate Usable(pairs: seq<KeyPair>, nonces: map<nat, nat>, look: Look) {
    && look.current.Some? && look.current.value < |pairs|
    && NonceOf(nonces, look.current.value) < Replay.REJECT_AFTER_MESSAGES && look.age < REJECT_AFTER_TIME
  }

  function FirstUsable(pairs: seq<KeyPair>, nonces: map<nat, nat>, looks: seq<Look>): (found: Option<nat>)
    ensures found.Some? ==> found.value < |pairs| && NonceOf(nonces, found.value) < Replay.REJECT_AFTER_MESSAGES
  {
    if looks == [] then None
    else if Usable(pairs, nonces, looks[0]) then looks[0].current
    else FirstUsable(pairs, nonces, looks[1..])
  }

  datatype Assignment = Assignment(jobs: seq<Outgoing>, nonces: map<nat, nat>)

  // The work elements made of a sequence of packets.
  function Assign(pairs: seq<KeyPair>, requests: seq<Request>): Assignment {
    if requests == [] then Assignment([], map[])
    else
      var a := Assign(pairs, requests[..|requests| - 1]);
      var request := requests[|requests| - 1];
      match FirstUsable(pairs, a.nonces, request.looks)
      case None => a
      case Some(number) =>
        var nonce := NonceOf(a.nonces, number);
        Assignment(a.jobs + [Outgoing(number, pairs[number], nonce, request.payload)], a.nonces[number := nonce + 1])
  }

  // A look that ends the wait, in numbers: the current pair exists, fewer than 2^64 - 2^4 - 1 of its
  // nonces are used, and it is younger than 180 seconds.
  predicate Ends(pairs: seq<KeyPair>, nonces: map<nat, nat>, look: Look) {
    && look.current.Some? && look.current.value < |pairs|
    && (look.current.value in nonces ==> nonces[look.current.value] < 0xffff_ffff_ffff_ffef)
    && look.age < 180_000_000_000
  }

  // Look number `i` is the first that does.
  predicate EndsFirst(pairs: seq<KeyPair>, nonces: map<nat, nat>, looks: seq<Look>, i: int) {
    && 0 <= i < |looks| && Ends(pairs, nonces, looks[i])
    && forall j :: 0 <= j < i ==> !Ends(pairs, nonces, looks[j])
  }

  lemma {:induction false} FirstUsableExact(pairs: seq<KeyPair>, nonces: map<nat, nat>, looks: seq<Look>)
    ensures match FirstUsable(pairs, nonces, looks)
      case None => forall i :: 0 <= i < |looks| ==> !Ends(pairs, nonces, looks[i])
      case Some(number) => exists i :: EndsFirst(pairs, nonces, looks, i) && looks[i].current == Some(number)
  {
    if looks == [] {
    } else if Usable(pairs, nonces, looks[0]) {
      assert EndsFirst(pairs, nonces, looks, 0);
    } else {
      var rest, found := looks[1..], FirstUsable(pairs, nonces, looks);
      FirstUsableExact(pairs, nonces, rest);
      if found.Some? {
        var i :| EndsFirst(pairs, nonces, rest, i) && rest[i].current == found;
        assert forall j :: 1 <= j < |looks| ==> looks[j] == rest[j - 1];
        assert EndsFirst(pairs, nonces, looks, i + 1);
      } else {
        assert forall j :: 1 <= j < |looks| ==> looks[j] == rest[j - 1];
      }
    }
  }

  class NonceRoutine {
    const pairs: seq<KeyPair>
    var nonces: map<nat, nat>

    constructor (pairs: seq<KeyPair>)
      ensures this.pairs == pairs && nonces == map[]
    {
      this.pairs, nonces := pairs, map[];
    }

    method Populate(request: Request) returns (job: Option<Outgoing>)
      modifies this
      ensures match FirstUsable(pairs, old(nonces), request.looks)
        case None => job == None && nonces == old(nonces)
        case Some(number) =>
          && job == Some(Outgoing(number, pairs[number], NonceOf(old(nonces), number), request.payload))
          && nonces == old(nonces)[number := NonceOf(old(nonces), number) + 1]
      ensures job == None <==> forall i :: 0 <= i < |request.looks| ==> !Ends(pairs, old(nonces), request.looks[i])
      ensures job.Some? ==>
        exists i ::
          EndsFirst(pairs, old(nonces), request.looks, i) && request.looks[i].current == Some(job.value.number)
    {
      FirstUsableExact(pairs, nonces, request.looks);
      var looks := request.looks;
      var i := 0;
      while i < |looks| && !Usable(pairs, nonces, looks[i])
        invariant i <= |looks| && FirstUsable(pairs, nonces, looks) == FirstUsable(pairs, nonces, looks[i..])
      {
        i := i + 1;
      }
      if i == |looks| {
        return None;
      }
      var number := looks[i].current.value;
      nonces := nonces[number := NonceOf(nonces, number) + 1];
      job := Some(Outgoing(number, pairs[number], nonces[number] - 1, request.payload));
    }

    method PopulateAll(requests: seq<Request>) returns (jobs: seq<Outgoing>)
      requires nonces == map[]
      modifies this
      ensures Assignment(jobs, nonces) == Assign(pairs, requests)
    {
      jobs := [];
      for i := 0 to |requests|
        invariant Assignment(jobs, nonces) == Assign(pairs, requests[..i])
      {
        assert requests[..i + 1][..i] == requests[..i];
        var job := Populate(requests[i]);
        if job.Some? { jobs := jobs + [job.value]; }
      }
      assert requests[..|requests|] == requests;
    }
  }

  function CountFor(jobs: seq<Outgoing>, number: nat): nat {
    if jobs == [] then 0
    else CountFor(jobs[..|jobs| - 1], number) + if jobs[|jobs| - 1].number == number then 1 else 0
  }

  lemma {:induction false} CountGrows(jobs: seq<Outgoing>, i: nat, number: nat)
    requires i <= |jobs|
    ensures CountFor(jobs[..i], number) <= CountFor(jobs, number)
  {
    if i == |jobs| {
      assert jobs[..i] == jobs;
    } else {
      var most := jobs[..|jobs| - 1];
      CountGrows(most, i, number);
      assert most[..i] == jobs[..i];
    }
  }

  ghost predicate NonceIsCount(pairs: seq<KeyPair>, jobs: seq<Outgoing>, i: nat)
    requires i < |jobs|
  {
    && jobs[i].nonce == CountFor(jobs[..i], jobs[i].number) && jobs[i].nonce < Replay.REJECT_AFTER_MESSAGES
    && jobs[i].number < |pairs| && jobs[i].pair == pairs[jobs[i].number]
  }

  ghost predicate AllCounts(pairs: seq<KeyPair>, a: Assignment) {
    && (forall number :: NonceOf(a.nonces, number) == CountFor(a.jobs, number))
    && forall i :: 0 <= i < |a.jobs| ==> NonceIsCount(pairs, a.jobs, i)
  }

  lemma OneMoreCount(pairs: seq<KeyPair>, a: Assignment, job: Outgoing)
    requires AllCounts(pairs, a) && job.number < |pairs| && job.pair == pairs[job.number]
    requires job.nonce == NonceOf(a.nonces, job.number) < Replay.REJECT_AFTER_MESSAGES
    ensures AllCounts(pairs, Assignment(a.jobs + [job], a.nonces[job.number := job.nonce + 1]))
  {
    var jobs := a.jobs + [job];
    var nonces := a.nonces[job.number := job.nonce + 1];
    assert jobs[..|a.jobs|] == a.jobs;
    forall number ensures NonceOf(nonces, number) == CountFor(jobs, number) {}
    forall i | 0 <= i < |jobs| ensures NonceIsCount(pairs, jobs, i) {
      assert jobs[..i] == a.jobs[..i];
      assert i < |a.jobs| ==> jobs[i] == a.jobs[i] && NonceIsCount(pairs, a.jobs, i);
    }
  }

  /** The nonce of a packet is the number of packets given out under its key pair before it, and below
      the limit. */
  lemma {:induction false} NoncesAreCounts(pairs: seq<KeyPair>, requests: seq<Request>)
    ensures AllCounts(pairs, Assign(pairs, requests))
  {
    if requests != [] {
      var before := Assign(pairs, requests[..|requests| - 1]);
      var request := requests[|requests| - 1];
      NoncesAreCounts(pairs, requests[..|requests| - 1]);
      var found := FirstUsable(pairs, before.nonces, request.looks);
      if found.Some? {
        OneMoreCount(pairs, before,
          Outgoing(found.value, pairs[found.value], NonceOf(before.nonces, found.value), request.payload));
      }
    }
  }

  // The packet of a request: number, pair and nonce are those of look `i`, the first whose pair can be used.
  ghost predicate MadeAt(pairs: seq<KeyPair>, before: seq<Outgoing>, request: Request, job: Outgoing, i: int) {
    && 0 <= i < |request.looks| && request.looks[i].current == Some(job.number)
    && CanUse(pairs, before, request.looks[i])
    && (forall j :: 0 <= j < i ==> !CanUse(pairs, before, request.looks[j]))
    && job.number < |pairs| && job.pair == pairs[job.number] && job.payload == request.payload
    && job.nonce == CountFor(before, job.number)
  }

  // A pair can be used that exists, seals fewer than 2^64 - 2^4 - 1 packets and is younger than 180 seconds.
  predicate CanUse(pairs: seq<KeyPair>, before: seq<Outgoing>, look: Look) {
    && look.current.Some? && look.current.value < |pairs|
    && CountFor(before, look.current.value) < 0xffff_ffff_ffff_ffef && look.age < 180_000_000_000
  }

  /** Each request in turn: it gets a packet if and only if at some look the current pair can be used, and
      then the next one under the pair of the first such look. */
  lemma EachRequest(pairs: seq<KeyPair>, requests: seq<Request>, n: nat)
    requires n < |requests|
    ensures var (before, after, request) :=
        (Assign(pairs, requests[..n]).jobs, Assign(pairs, requests[..n + 1]).jobs, requests[n]);
      if forall i :: 0 <= i < |request.looks| ==> !CanUse(pairs, before, request.looks[i])
      then after == before
      else exists job, i :: after == before + [job] && MadeAt(pairs, before, request, job, i)
  {
    assert requests[..n + 1][..n] == requests[..n];
    var a, request := Assign(pairs, requests[..n]), requests[n];
    NoncesAreCounts(pairs, requests[..n]);
    FirstUsableExact(pairs, a.nonces, request.looks);
    forall i | 0 <= i < |request.looks|
      ensures Ends(pairs, a.nonces, request.looks[i]) == CanUse(pairs, a.jobs, request.looks[i])
    {
      if request.looks[i].current.Some? { SameCount(a, request.looks[i].current.value); }
    }
    match FirstUsable(pairs, a.nonces, request.looks)
    case None =>
    case Some(number) =>
      var i :| EndsFirst(pairs, a.nonces, request.looks, i) && request.looks[i].current == Some(number);
      var job := Outgoing(number, pairs[number], NonceOf(a.nonces, number), request.payload);
      assert MadeAt(pairs, a.jobs, request, job, i);
  }

  lemma SameCount(a: Assignment, number: nat)
    requires NonceOf(a.nonces, number) == CountFor(a.jobs, number)
    ensures CountFor(a.jobs, number) == if number in a.nonces then a.nonces[number] else 0
  {
  }

  /** Every packet was made for some request, at such a look. */
  lemma {:induction false} EveryJobMade(pairs: seq<KeyPair>, requests: seq<Request>, k: nat) returns (n: nat, i: int)
    requires k < |Assign(pairs, requests).jobs|
    ensures n < |requests|
    ensures var jobs := Assign(pairs, requests).jobs;
      Assign(pairs, requests[..n]).jobs == jobs[..k] && MadeAt(pairs, jobs[..k], requests[n], jobs[k], i)
  {
    var last := |requests| - 1;
    var jobs, before := Assign(pairs, requests).jobs, Assign(pairs, requests[..last]).jobs;
    EachRequest(pairs, requests, last);
    assert requests[..last + 1] == requests;
    if k < |before| {
      n, i := EveryJobMade(pairs, requests[..last], k);
      assert requests[..last][..n] == requests[..n];
      assert jobs[..k] == before[..k];
    } else {
      n := last;
      var job, look :| jobs == before + [job] && MadeAt(pairs, before, requests[last], job, look);
      i := look;
      assert jobs[..k] == before;
    }
  }

  lemma NoncesIncrease(pairs: seq<KeyPair>, requests: seq<Request>, i: nat, j: nat)
    requires i < j < |Assign(pairs, requests).jobs|
    requires Assign(pairs, requests).jobs[i].number == Assign(pairs, requests).jobs[j].number
    ensures Assign(pairs, requests).jobs[i].nonce < Assign(pairs, requests).jobs[j].nonce
  {
    var jobs := Assign(pairs, requests).jobs;
    var number := jobs[i].number;
    NoncesAreCounts(pairs, requests);
    assert NonceIsCount(pairs, jobs, i) && NonceIsCount(pairs, jobs, j);
    CountGrows(jobs[..j], i + 1, number);
    assert jobs[..j][..i + 1] == jobs[..i + 1];
    assert jobs[..i + 1][..i] == jobs[..i];
  }

  /** Where no two key pairs share a sending key, no key is used with the same nonce twice, and nonces
      increase under each key. */
  lemma NoncesIncreasePerKey(pairs: seq<KeyPair>, requests: seq<Request>, i: nat, j: nat)
    requires KeyRuns.DistinctKeys(pairs) && i < j < |Assign(pairs, requests).jobs|
    requires Assign(pairs, requests).jobs[i].pair.send == Assign(pairs, requests).jobs[j].pair.send
    ensures Assign(pairs, requests).jobs[i].nonce < Assign(pairs, requests).jobs[j].nonce
  {
    var jobs := Assign(pairs, requests).jobs;
    NoncesAreCounts(pairs, requests);
    assert NonceIsCount(pairs, jobs, i) && NonceIsCount(pairs, jobs, j);
    NoncesIncrease(pairs, requests, i, j);
  }

  // What an encryption worker makes of an element.
  function Seal(job: Outgoing): Option<Packet> {
    Some(Packet(job.pair.remoteIndex, job.nonce, Box(job.pair.send, job.nonce, job.payload)))
  }

  // The packets that the sequential sender hands to the socket.
  ghost function Wire(workers: nat, steps: seq<Step<Outgoing>>): (wire: seq<Packet>)
    requires Runs(Seal, Empty(workers), steps)
  {
    PassedInOrder(Seal, workers, steps);
    Results(Final(Seal, Empty(workers), steps).output)
  }

  lemma WireIsSealed(workers: nat, steps: seq<Step<Outgoing>>, i: nat) returns (id: nat)
    requires Runs(Seal, Empty(workers), steps) && i < |Wire(workers, steps)|
    ensures id == Final(Seal, Empty(workers), steps).output[i].0
    ensures id < |Jobs(steps)| && Wire(workers, steps)[i] == Seal(Jobs(steps)[id]).value
  {
    PassedInOrder(Seal, workers, steps);
    id := Final(Seal, Empty(workers), steps).output[i].0;
  }

  /** Every packet on the wire names its pair's remote index and its nonce in the header, and has the payload
      of one request in a box under the pair's sending key. */
  lemma WireIsRequested(
      pairs: seq<KeyPair>, requests: seq<Request>, workers: nat, steps: seq<Step<Outgoing>>, i: nat)
    returns (id: nat, n: nat)
    requires Runs(Seal, Empty(workers), steps) && Jobs(steps) == Assign(pairs, requests).jobs
    requires i < |Wire(workers, steps)|
    ensures id < |Jobs(steps)| && n < |requests| && Jobs(steps)[id].number < |pairs|
    ensures var (job, packet) := (Jobs(steps)[id], Wire(workers, steps)[i]);
      && packet.receiver == pairs[job.number].remoteIndex && packet.counter == job.nonce
      && packet.content == Box(pairs[job.number].send, CountFor(Jobs(steps)[..id], job.number), requests[n].payload)
  {
    id := WireIsSealed(workers, steps, i);
    var look: int;
    n, look := EveryJobMade(pairs, requests, id);
  }

  /** Whatever the workers and the overflows do, packets reach the wire sealed, in order, with counters
      that strictly increase under each key and stay below the limit. */
  lemma WireNonces(
      pairs: seq<KeyPair>, requests: seq<Request>, workers: nat, steps: seq<Step<Outgoing>>, i: nat, j: nat)
    requires KeyRuns.DistinctKeys(pairs) && Runs(Seal, Empty(workers), steps)
    requires Jobs(steps) == Assign(pairs, requests).jobs
    requires i < j < |Wire(workers, steps)|
    ensures var (p, q) := (Wire(workers, steps)[i], Wire(workers, steps)[j]);
      && p.content.Box? && p.content.nonce == p.counter && q.content.Box? && q.content.nonce == q.counter
      && (p.content.key == q.content.key ==> p.counter < q.counter < Replay.REJECT_AFTER_MESSAGES)
  {
    PassedInOrder(Seal, workers, steps);
    var ids := Passed<Outgoing, Packet>(Final(Seal, Empty(workers), steps).output);
    var k := WireIsSealed(workers, steps, i);
    var l := WireIsSealed(workers, steps, j);
    assert k == ids[i] && l == ids[j];
    var jobs := Jobs(steps);
    if jobs[k].pair.send == jobs[l].pair.send {
      NoncesIncreasePerKey(pairs, requests, k, l);
      NoncesAreCounts(pairs, requests);
      assert NonceIsCount(pairs, jobs, l);
    }
  }
}
