/** `controller/receive.go`: how transport packets are opened, checked for replay and delivered. */
module Receive {
  import opened Wrappers
  import opened Replay
  import Send
  import Noise

  // A packet together with the key pair that the index table holds for it.
  datatype Incoming = Incoming(number: nat, pair: Noise.KeyPair, packet: Send.Packet)

  datatype Arrival = Arrival(number: nat, counter: nat, payload: Send.Payload)

  // What a decryption worker makes of an element: the nonce is the counter in the header.
  function Open(job: Incoming): Option<Arrival> {
    var content := job.packet.content;
    if content.Box? && content.key == job.pair.receive && content.nonce == job.packet.counter
    then Some(Arrival(job.number, job.packet.counter, content.payload))
    else None
  }

  // The counters that reach the replay filter of one key pair.
  function CountersOf(arrivals: seq<Arrival>, number: nat): seq<nat> {
    if arrivals == [] then []
    else
      var last := arrivals[|arrivals| - 1];
      CountersOf(arrivals[..|arrivals| - 1], number) + if last.number == number then [last.counter] else []
  }

  function WindowOf(arch: Arch, arrivals: seq<Arrival>, number: nat): Window {
    After(arch, EMPTY_WINDOW, CountersOf(arrivals, number))
  }

  predicate Passes(arch: Arch, before: seq<Arrival>, arrival: Arrival) {
    Accepts(arch, WindowOf(arch, before, arrival.number), arrival.counter)
  }

  // What the sequential receiver lets through.
  function Delivered(arch: Arch, arrivals: seq<Arrival>): seq<Arrival> {
    if arrivals == [] then []
    else
      var before := arrivals[..|arrivals| - 1];
      var last := arrivals[|arrivals| - 1];
      Delivered(arch, before) + if Passes(arch, before, last) then [last] else []
  }

  lemma WindowAfter(arch: Arch, arrivals: seq<Arrival>, n: nat, number: nat)
    requires n < |arrivals|
    ensures arrivals[..n + 1][..n] == arrivals[..n]
    ensures var w := WindowOf(arch, arrivals[..n], number);
      WindowOf(arch, arrivals[..n + 1], number) ==
        if arrivals[n].number == number then Update(arch, w, arrivals[n].counter) else w
    ensures Delivered(arch, arrivals[..n + 1]) ==
      Delivered(arch, arrivals[..n]) + if Passes(arch, arrivals[..n], arrivals[n]) then [arrivals[n]] else []
  {
    assert arrivals[..n + 1][..n] == arrivals[..n];
    var counters := CountersOf(arrivals[..n], number);
    assert (counters + [arrivals[n].counter])[..|counters|] == counters && counters + [] == counters;
  }

  // The filters of the key pairs are separate objects.
  predicate Separate(filters: seq<ReplayFilter>) {
    forall i, j :: 0 <= i < j < |filters| ==> filters[i] != filters[j] && filters[i].backtrack != filters[j].backtrack
  }

  ghost predicate Windows(arch: Arch, filters: seq<ReplayFilter>, arrivals: seq<Arrival>)
    reads filters, set f <- filters :: f.backtrack
  {
    forall k :: 0 <= k < |filters| ==>
      filters[k].arch == arch && filters[k].Valid() && filters[k].Abstract() == WindowOf(arch, arrivals, k)
  }

  // The replay check: the filter is that of the packet's key pair.
  method ReceiveOne(arch: Arch, filters: seq<ReplayFilter>, arrivals: seq<Arrival>, n: nat) returns (ok: bool)
    requires n < |arrivals| && arrivals[n].number < |filters|
    requires Separate(filters) && Windows(arch, filters, arrivals[..n])
    modifies filters[arrivals[n].number], filters[arrivals[n].number].backtrack
    ensures Windows(arch, filters, arrivals[..n + 1])
    ensures ok == Passes(arch, arrivals[..n], arrivals[n])
  {
    var number := arrivals[n].number;
    ok := filters[number].ValidateCounter(arrivals[n].counter);
    forall k | 0 <= k < |filters|
      ensures filters[k].arch == arch && filters[k].Valid()
      ensures filters[k].Abstract() == WindowOf(arch, arrivals[..n + 1], k)
    {
      WindowAfter(arch, arrivals, n, k);
    }
  }

  // The largest counter delivered under a key pair, 0 at first.
  function Highest(delivered: seq<Arrival>, number: nat): nat {
    if delivered == [] then 0
    else
      var last := delivered[|delivered| - 1];
      var h := Highest(delivered[..|delivered| - 1], number);
      if last.number == number && last.counter > h then last.counter else h
  }

  predicate WasDelivered(delivered: seq<Arrival>, number: nat, counter: nat) {
    exists i :: 0 <= i < |delivered| && delivered[i].number == number && delivered[i].counter == counter
  }

  ghost predicate Remembers(w: Window, delivered: seq<Arrival>, number: nat) {
    && (forall c :: c in w.accepted <==> WasDelivered(delivered, number, c))
    && w.highest == Highest(delivered, number)
  }

  lemma RemembersMore(w: Window, d: seq<Arrival>, last: Arrival, number: nat)
    requires Remembers(w, d, number)
    ensures last.number != number ==> Remembers(w, d + [last], number)
    ensures last.number == number ==>
      Remembers(Window(w.accepted + {last.counter}, if last.counter > w.highest then last.counter else w.highest),
                d + [last], number)
  {
    assert (d + [last])[..|d|] == d;
    forall c ensures WasDelivered(d + [last], number, c) <==>
      WasDelivered(d, number, c) || (last.number == number && last.counter == c) {
      DeliveredMore(d, last, number, c);
    }
  }

  lemma DeliveredMore(d: seq<Arrival>, last: Arrival, number: nat, c: nat)
    ensures WasDelivered(d + [last], number, c) <==>
      WasDelivered(d, number, c) || (last.number == number && last.counter == c)
  {
    if WasDelivered(d, number, c) {
      var i :| 0 <= i < |d| && d[i].number == number && d[i].counter == c;
      assert (d + [last])[i] == d[i];
    }
    assert (d + [last])[|d|] == last;
  }

  /** A filter remembers exactly what was delivered under its key pair. */
  lemma {:induction false} WindowIsDelivered(arch: Arch, arrivals: seq<Arrival>, number: nat)
    ensures Remembers(WindowOf(arch, arrivals, number), Delivered(arch, arrivals), number)
  {
    if arrivals != [] {
      var n := |arrivals| - 1;
      WindowIsDelivered(arch, arrivals[..n], number);
      WindowAfter(arch, arrivals, n, number);
      assert arrivals[..n + 1] == arrivals;
      var d := Delivered(arch, arrivals[..n]);
      assert d + [] == d;
      RemembersMore(WindowOf(arch, arrivals[..n], number), d, arrivals[n], number);
    }
  }

  /** A packet passes the replay check exactly when its counter is below the limit, was not delivered
      before, and is at most the window size behind the highest counter delivered. */
  lemma PassesExactly(arch: Arch, before: seq<Arrival>, arrival: Arrival)
    ensures Passes(arch, before, arrival) <==>
      && arrival.counter < REJECT_AFTER_MESSAGES
      && !WasDelivered(Delivered(arch, before), arrival.number, arrival.counter)
      && Highest(Delivered(arch, before), arrival.number) - arrival.counter <= arch.WindowSize()
  {
    WindowIsDelivered(arch, before, arrival.number);
  }

  /** No counter is delivered twice under a key pair. */
  lemma {:induction false} DeliveredOnce(arch: Arch, arrivals: seq<Arrival>, i: nat, j: nat)
    requires i < j < |Delivered(arch, arrivals)|
    ensures var d := Delivered(arch, arrivals); d[i].number == d[j].number ==> d[i].counter != d[j].counter
  {
    var before := arrivals[..|arrivals| - 1];
    if j < |Delivered(arch, before)| {
      DeliveredOnce(arch, before, i, j);
    } else {
      PassesExactly(arch, before, arrivals[|arrivals| - 1]);
    }
  }

  lemma {:induction false} DeliveredArrived(arch: Arch, arrivals: seq<Arrival>, i: nat)
    requires i < |Delivered(arch, arrivals)|
    ensures Delivered(arch, arrivals)[i] in arrivals
  {
    var before := arrivals[..|arrivals| - 1];
    if i < |Delivered(arch, before)| { DeliveredArrived(arch, before, i); }
  }
}
