/** Two devices that send to each other: the nonce routine, two pipelines on each side, and a network
    between them that drops, duplicates, reorders, sends back, relabels and forges packets, but cannot
    make an AEAD box. */
module EndToEnd {
  import opened Wrappers
  import Replay
  import opened Pipeline
  import opened Send
  import opened Receive
  import Noise
  import KeyRuns
  import Symbolic
  import Sessions

  // A device: its key pairs, the packets it was given, and the schedules of its outbound and inbound
  // pipelines.
  datatype Side = Side(
    pairs: seq<Noise.KeyPair>,
    requests: seq<Request>, sealers: nat, sent: seq<Step<Outgoing>>,
    openers: nat, received: seq<Step<Incoming>>)

  // The work elements of the packets it was given.
  function Given(s: Side): seq<Outgoing> {
    Assign(s.pairs, s.requests).jobs
  }

  ghost predicate Works(s: Side) {
    && Runs(Seal, Empty(s.sealers), s.sent) && Jobs(s.sent) == Given(s)
    && Runs(Open, Empty(s.openers), s.received)
  }

  predicate OnWire(wire: seq<Packet>, content: Content) {
    exists i :: 0 <= i < |wire| && wire[i].content == content
  }

  // Every box that arrives was put on the wire by one of the two devices, perhaps by the receiver
  // itself; headers, and the key pair that they name, are arbitrary.
  ghost predicate Network(s: Side, r: Side)
    requires Works(s) && Works(r)
  {
    forall job <- Jobs(r.received) ::
      && job.number < |r.pairs| && job.pair == r.pairs[job.number]
      && var content := job.packet.content;
         content.Box? ==> OnWire(Wire(s.sealers, s.sent), content) || OnWire(Wire(r.sealers, r.sent), content)
  }

  // What the workers of the receiver hand to its sequential consumer.
  ghost function Arrivals(r: Side): (arrivals: seq<Arrival>)
    requires Works(r)
  {
    PassedInOrder(Open, r.openers, r.received);
    Results(Final(Open, Empty(r.openers), r.received).output)
  }

  lemma ArrivalWasOpened(r: Side, i: nat) returns (job: Incoming)
    requires Works(r) && i < |Arrivals(r)|
    ensures job in Jobs(r.received) && Open(job) == Some(Arrivals(r)[i])
  {
    PassedInOrder(Open, r.openers, r.received);
    job := Jobs(r.received)[Final(Open, Empty(r.openers), r.received).output[i].0];
  }

  ghost function DeliveredBy(arch: Replay.Arch, r: Side): seq<Arrival>
    requires Works(r)
  {
    Delivered(arch, Arrivals(r))
  }

  // The packet was sealed under the sending key that this arrival's pair receives with, and its nonce.
  predicate CameFrom(pairs: seq<Noise.KeyPair>, arrival: Arrival, job: Outgoing) {
    arrival.number < |pairs| && pairs[arrival.number].receive == job.pair.send && arrival.counter == job.nonce
  }

  // A box on the wire is that of a packet given to its sender.
  lemma BoxWasGiven(s: Side, content: Content) returns (k: nat)
    requires Works(s) && OnWire(Wire(s.sealers, s.sent), content)
    ensures k < |Given(s)| && Seal(Given(s)[k]).value.content == content
    ensures Given(s)[k].number < |s.pairs| && Given(s)[k].pair == s.pairs[Given(s)[k].number]
  {
    var w :| 0 <= w < |Wire(s.sealers, s.sent)| && Wire(s.sealers, s.sent)[w].content == content;
    k := WireIsSealed(s.sealers, s.sent, w);
    NoncesAreCounts(s.pairs, s.requests);
    assert NonceIsCount(s.pairs, Given(s), k);
  }

  // What a device opens it did not seal itself.
  lemma ArrivalCameFrom(s: Side, r: Side, i: nat) returns (k: nat)
    requires Works(s) && Works(r) && Network(s, r) && KeyRuns.Unreflected(r.pairs) && i < |Arrivals(r)|
    ensures k < |Given(s)| && CameFrom(r.pairs, Arrivals(r)[i], Given(s)[k])
    ensures Arrivals(r)[i].payload == Given(s)[k].payload
  {
    var job := ArrivalWasOpened(r, i);
    var content := job.packet.content;
    if OnWire(Wire(s.sealers, s.sent), content) {
      k := BoxWasGiven(s, content);
    } else {
      var own := BoxWasGiven(r, content);
      assert false;
    }
  }

  // A delivery is of one packet, and of no other delivery's.
  ghost predicate DeliversOnly(s: Side, r: Side, d: seq<Arrival>, n: nat, k: nat)
    requires n < |d| && k < |Given(s)|
  {
    && CameFrom(r.pairs, d[n], Given(s)[k]) && d[n].payload == Given(s)[k].payload
    && (forall m :: 0 <= m < |d| && m != n ==> !CameFrom(r.pairs, d[m], Given(s)[k]))
    && (forall l :: 0 <= l < |Given(s)| && l != k ==> !CameFrom(r.pairs, d[n], Given(s)[l]))
  }

  /** Every delivered payload is that of exactly one packet given to the other device's nonce routine,
      the one with the same key and nonce, and no other delivery is of that packet. */
  lemma DeliveredFaithfully(arch: Replay.Arch, s: Side, r: Side, n: nat) returns (k: nat)
    requires Works(s) && Works(r) && Network(s, r) && n < |DeliveredBy(arch, r)|
    requires KeyRuns.DistinctKeys(s.pairs) && KeyRuns.DistinctKeys(r.pairs) && KeyRuns.Unreflected(r.pairs)
    ensures k < |Given(s)| && DeliversOnly(s, r, DeliveredBy(arch, r), n, k)
  {
    var (jobs, d) := (Given(s), DeliveredBy(arch, r));
    DeliveredArrived(arch, Arrivals(r), n);
    var i :| 0 <= i < |Arrivals(r)| && Arrivals(r)[i] == d[n];
    k := ArrivalCameFrom(s, r, i);
    forall m | 0 <= m < |d| && m != n ensures !CameFrom(r.pairs, d[m], jobs[k]) {
      DeliveredOnce(arch, Arrivals(r), if m < n then m else n, if m < n then n else m);
    }
    forall l | 0 <= l < |jobs| && l != k ensures !CameFrom(r.pairs, d[n], jobs[l]) {
      if jobs[l].pair.send == jobs[k].pair.send {
        NoncesIncreasePerKey(s.pairs, s.requests, if l < k then l else k, if l < k then k else l);
      }
    }
  }

  // The sides are the devices of a run.
  ghost predicate Between(
      x: nat, y: nat, psk: Symbolic.Term, now: int, moves: seq<Sessions.Move>, p: bool, s: Side, r: Side) {
    && x != y && Sessions.SystemRun(Sessions.NewSystem(x, y, psk, now), moves)
    && s.pairs == Sessions.SystemFinal(Sessions.NewSystem(x, y, psk, now), moves).Party(p).d.pairs
    && r.pairs == Sessions.SystemFinal(Sessions.NewSystem(x, y, psk, now), moves).Party(!p).d.pairs
  }

  /** In every run of two devices that both send, with whatever key pairs their handshakes made, what is
      delivered to either comes from the other, faithfully and at most once. */
  lemma DeliveredInEveryRun(
      x: nat, y: nat, psk: Symbolic.Term, now: int, moves: seq<Sessions.Move>, p: bool,
      arch: Replay.Arch, s: Side, r: Side, n: nat)
    returns (k: nat)
    requires Between(x, y, psk, now, moves, p, s, r)
    requires Works(s) && Works(r) && Network(s, r) && n < |DeliveredBy(arch, r)|
    ensures k < |Given(s)| && DeliversOnly(s, r, DeliveredBy(arch, r), n, k)
  {
    Sessions.KeysOfBoth(x, y, psk, now, moves, p);
    Sessions.KeysOfBoth(x, y, psk, now, moves, !p);
    k := DeliveredFaithfully(arch, s, r, n);
  }

  /** A genuine packet that the receiver's queues do not drop reaches the replay check, and passes it
      exactly when its counter was not delivered before and is within the window. */
  lemma NotLostPasses(arch: Replay.Arch, s: Side, k: nat, r: Side, id: nat) returns (n: nat)
    requires k < |Given(s)| && id < |Jobs(r.received)|
    requires Works(r) && Quiet(Final(Open, Empty(r.openers), r.received))
    requires var incoming := Jobs(r.received)[id];
      incoming.packet == Seal(Given(s)[k]).value && incoming.pair.receive == Given(s)[k].pair.send
    requires !Dropped(Open, r.openers, r.received, id)
    ensures n < |Arrivals(r)|
    ensures var (job, number, before) := (Given(s)[k], Jobs(r.received)[id].number, Arrivals(r)[..n]);
      && Arrivals(r)[n] == Arrival(number, job.nonce, job.payload)
      && (Passes(arch, before, Arrivals(r)[n]) <==>
          && !WasDelivered(Delivered(arch, before), number, job.nonce)
          && Highest(Delivered(arch, before), number) - job.nonce <= arch.WindowSize())
  {
    var output := Final(Open, Empty(r.openers), r.received).output;
    PassedUnlessDropped(Open, r.openers, r.received, id);
    PassedInOrder(Open, r.openers, r.received);
    n :| 0 <= n < |output| && output[n].0 == id;
    NoncesAreCounts(s.pairs, s.requests);
    assert NonceIsCount(s.pairs, Given(s), k);
    PassesExactly(arch, Arrivals(r)[..n], Arrivals(r)[n]);
  }
}
