/** The sequential receiver of `controller/receive.go` as a whole: the replay check and, for a packet that
    passes it, the confirmation of its key pair. */
module Receiver {
  import opened Wrappers
  import opened Replay
  import opened Receive
  import opened PeerRuns
  import Noise
  import NoiseProtocol
  import Rotation
  import Symbolic

  // What happens at a device: a step of its own, or the arrival of a packet that opened.
  datatype Happening = Acts(action: Action) | Arrives(arrival: Arrival)

  function Arrived(hs: seq<Happening>): seq<Arrival> {
    if hs == [] then []
    else
      var before := Arrived(hs[..|hs| - 1]);
      match hs[|hs| - 1]
      case Acts(_) => before
      case Arrives(arrival) => before + [arrival]
  }

  // The device's steps: an arrival is one exactly if the replay filter of its key pair lets it through.
  function ActionsOf(arch: Arch, hs: seq<Happening>): seq<Action> {
    if hs == [] then []
    else
      var before := hs[..|hs| - 1];
      ActionsOf(arch, before) +
      match hs[|hs| - 1]
      case Acts(action) => [action]
      case Arrives(arrival) => if Passes(arch, Arrived(before), arrival) then [OnPacket(arrival.number)] else []
  }

  // No packet but those that arrive.
  predicate NoOthers(hs: seq<Happening>) {
    forall h <- hs :: h.Acts? ==> !h.action.OnPacket?
  }

  function Arrivals(arrivals: seq<Arrival>): (hs: seq<Happening>)
    ensures |hs| == |arrivals|
  {
    seq(|arrivals|, i requires 0 <= i < |arrivals| => Arrives(arrivals[i]))
  }

  lemma {:induction false} ArrivedAre(arrivals: seq<Arrival>)
    ensures Arrived(Arrivals(arrivals)) == arrivals
  {
    if arrivals != [] {
      var before := arrivals[..|arrivals| - 1];
      ArrivedAre(before);
      assert Arrivals(arrivals)[..|before|] == Arrivals(before);
    }
  }

  lemma OneMoreArrival(arch: Arch, arrivals: seq<Arrival>, n: nat)
    requires n < |arrivals|
    ensures ActionsOf(arch, Arrivals(arrivals[..n + 1])) == ActionsOf(arch, Arrivals(arrivals[..n]))
      + if Passes(arch, arrivals[..n], arrivals[n]) then [OnPacket(arrivals[n].number)] else []
  {
    var hs := Arrivals(arrivals[..n + 1]);
    assert hs[..n] == Arrivals(arrivals[..n]) && hs[n] == Arrives(arrivals[n]);
    ArrivedAre(arrivals[..n]);
  }

  // The device after the first `n` packets.
  function DeviceAfter(arch: Arch, w: World, arrivals: seq<Arrival>, n: nat): Noise.Device
    requires n <= |arrivals|
  {
    Final(w, ActionsOf(arch, Arrivals(arrivals[..n]))).d
  }

  lemma AfterOne(arch: Arch, w: World, arrivals: seq<Arrival>, n: nat)
    requires n < |arrivals|
    ensures var d := DeviceAfter(arch, w, arrivals, n);
      DeviceAfter(arch, w, arrivals, n + 1) ==
        if Passes(arch, arrivals[..n], arrivals[n]) then Noise.ReceivePacket(d, arrivals[n].number) else d
  {
    var before := ActionsOf(arch, Arrivals(arrivals[..n]));
    OneMoreArrival(arch, arrivals, n);
    FinalThen(w, before, OnPacket(arrivals[n].number));
    assert before + [] == before;
  }

  method ReceiveElement(
      arch: Arch, peer: NoiseProtocol.Peer, filters: seq<ReplayFilter>, arrivals: seq<Arrival>, n: nat, ghost w: World)
    returns (ok: bool)
    requires n < |arrivals| && arrivals[n].number < |filters|
    requires Separate(filters) && Windows(arch, filters, arrivals[..n])
    requires peer.Valid() && peer.State() == DeviceAfter(arch, w, arrivals, n)
    modifies peer, peer.indices, filters[arrivals[n].number], filters[arrivals[n].number].backtrack
    ensures Windows(arch, filters, arrivals[..n + 1])
    ensures ok == Passes(arch, arrivals[..n], arrivals[n])
    ensures peer.Valid() && peer.State() == DeviceAfter(arch, w, arrivals, n + 1)
  {
    AfterOne(arch, w, arrivals, n);
    ok := ReceiveOne(arch, filters, arrivals, n);
    if ok { peer.ConfirmKeyPair(arrivals[n].number); }
  }

  /** The loop, with the replay filters of all key pairs and the peer's slots and index table: it delivers
      what the windows let through, and leaves the device as the run of those packets does. */
  method RoutineSequentialReceiver(
      arch: Arch, peer: NoiseProtocol.Peer, filters: seq<ReplayFilter>, arrivals: seq<Arrival>, ghost w: World)
    returns (delivered: seq<Arrival>)
    requires peer.Valid() && peer.State() == w.d
    requires Separate(filters) && Windows(arch, filters, [])
    requires forall arrival <- arrivals :: arrival.number < |filters|
    modifies peer, peer.indices, filters, set f <- filters :: f.backtrack
    ensures Windows(arch, filters, arrivals)
    ensures delivered == Delivered(arch, arrivals)
    ensures peer.Valid() && peer.State() == Final(w, ActionsOf(arch, Arrivals(arrivals))).d
  {
    delivered := [];
    for n := 0 to |arrivals|
      invariant Windows(arch, filters, arrivals[..n])
      invariant delivered == Delivered(arch, arrivals[..n])
      invariant peer.Valid() && peer.State() == DeviceAfter(arch, w, arrivals, n)
    {
      assert arrivals[n] in arrivals;
      var ok := ReceiveElement(arch, peer, filters, arrivals, n, w);
      WindowAfter(arch, arrivals, n, 0);
      if ok { delivered := delivered + [arrivals[n]]; }
    }
    assert arrivals[..|arrivals|] == arrivals;
  }

  lemma ArrivalIsPacket(arch: Arch, hs: seq<Happening>, arrival: Arrival)
    requires Passes(arch, Arrived(hs), arrival)
    ensures ActionsOf(arch, hs + [Arrives(arrival)]) == ActionsOf(arch, hs) + [OnPacket(arrival.number)]
  {
    var longer := hs + [Arrives(arrival)];
    assert longer[..|longer| - 1] == hs;
  }

  /** A packet that is delivered while its pair waits makes the pair current, in every interleaving. */
  lemma DeliveryConfirms(arch: Arch, w: World, hs: seq<Happening>, arrival: Arrival)
    requires Inv(w) && Run(w, ActionsOf(arch, hs)) && Passes(arch, Arrived(hs), arrival)
    requires Final(w, ActionsOf(arch, hs)).d.slots.next == Some(arrival.number)
    ensures Rotation.Promoted(
      Final(w, ActionsOf(arch, hs)).d, Final(w, ActionsOf(arch, hs + [Arrives(arrival)])).d, arrival.number)
  {
    ArrivalIsPacket(arch, hs, arrival);
    Rotation.PacketPromotes(w, ActionsOf(arch, hs), arrival.number);
  }

  lemma {:induction false} ReceivedFrom(w: World, actions: seq<Action>, n: nat)
    requires n in Final(w, actions).received
    ensures n in w.received || OnPacket(n) in actions
    decreases |actions|
  {
    if actions != [] {
      ReceivedFrom(Step(w, actions[0]), actions[1..], n);
      ReceivedStep(w, actions[0]);
    }
  }

  lemma ReceivedStep(w: World, a: Action)
    ensures Step(w, a).received == w.received + if a.OnPacket? then {a.pair} else {}
  {
  }

  // Each confirmation is a delivery.
  lemma {:induction false} PacketWasDelivered(arch: Arch, hs: seq<Happening>, n: nat)
    requires NoOthers(hs) && OnPacket(n) in ActionsOf(arch, hs)
    ensures exists a <- Delivered(arch, Arrived(hs)) :: a.number == n
  {
    var before, last := hs[..|hs| - 1], hs[|hs| - 1];
    assert last in hs;
    DeliveredLonger(arch, hs);
    if OnPacket(n) in ActionsOf(arch, before) {
      PacketWasDelivered(arch, before, n);
      var a :| a in Delivered(arch, Arrived(before)) && a.number == n;
      assert a in Delivered(arch, Arrived(hs));
    } else {
      assert last.arrival in Delivered(arch, Arrived(hs));
    }
  }

  lemma DeliveredLonger(arch: Arch, hs: seq<Happening>)
    requires hs != []
    ensures var before, last := hs[..|hs| - 1], hs[|hs| - 1];
      Delivered(arch, Arrived(hs)) == Delivered(arch, Arrived(before))
        + if last.Arrives? && Passes(arch, Arrived(before), last.arrival) then [last.arrival] else []
  {
    var last := hs[|hs| - 1];
    if last.Arrives? { assert Arrived(hs)[..|Arrived(hs)| - 1] == Arrived(hs[..|hs| - 1]); }
  }

  /** In every interleaving of handshakes and arriving packets, a responder's key pair is used for sending
      only once a packet under it was delivered. */
  lemma ConfirmedByDelivery(
      arch: Arch, privateKey: Symbolic.Term, publicKey: Symbolic.Term, remoteStatic: Symbolic.Term, psk: Symbolic.Term,
      now: int, hs: seq<Happening>)
    requires NoOthers(hs) && Run(Start(privateKey, publicKey, remoteStatic, psk, now), ActionsOf(arch, hs))
    ensures var d := Final(Start(privateKey, publicKey, remoteStatic, psk, now), ActionsOf(arch, hs)).d;
      d.slots.current.Some? ==> var n := d.slots.current.value;
        && n < |d.pairs|
        && (!d.pairs[n].isInitiator ==> exists a <- Delivered(arch, Arrived(hs)) :: a.number == n)
  {
    var start := Start(privateKey, publicKey, remoteStatic, psk, now);
    var w := Final(start, ActionsOf(arch, hs));
    EveryRun(privateKey, publicKey, remoteStatic, psk, now, ActionsOf(arch, hs));
    if w.d.slots.current.Some? && !w.d.pairs[w.d.slots.current.value].isInitiator {
      var n := w.d.slots.current.value;
      ReceivedFrom(start, ActionsOf(arch, hs), n);
      PacketWasDelivered(arch, hs, n);
    }
  }
}
