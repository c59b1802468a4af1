/** Runs of one device under arbitrary messages: what its key-pair slots, its index table, its accepted
    messages and its confirmed keys look like after any number of steps. */
module PeerRuns {
  import opened Wrappers
  import opened Symbolic
  import opened IndexTables
  import opened Noise
  import Tai64

  // A step of the device.  The random choices and the clock readings come with it; a message may be
  // anything at all.
  datatype Action =
    | Initiate(e: nat, index: nat, stamp: Tai64.Bytes)
    | OnInitiation(msg: MessageInitiation, e: nat, index: nat, checked: int, stored: int)
    | OnResponse(response: MessageResponse)
    | OnPacket(pair: nat)
    | EraseKeys

  datatype Acceptance = Acceptance(msg: MessageInitiation, stamp: Tai64.Bytes, checked: int, stored: int)

  // The device with the history of the run.
  datatype World = World(
    d: Device,
    now: int,
    initiated: nat,                    // initiations created
    used: set<nat>,                    // private keys drawn
    accepted: set<MessageResponse>,    // responses that produced a key pair
    received: set<nat>,                // pairs under which a packet passed the replay check
    former: set<nat>,                  // pairs that were current and are not any more
    log: seq<Acceptance>)              // initiations accepted, in order

  function Start(privateKey: Term, publicKey: Term, remoteStatic: Term, psk: Term, now: int): World {
    World(Initial(privateKey, publicKey, remoteStatic, psk), now, 0, {}, {}, {}, {}, [])
  }

  // Private keys are fresh, indices free, pairs exist, and the clock does not go back.
  predicate Possible(w: World, a: Action) {
    match a
    case Initiate(e, index, _) => e !in w.used && FreeIndex(Deleted(w.d.table, w.d.hs.localIndex), index)
    case OnInitiation(_, e, index, checked, stored) =>
      e !in w.used && FreeIndex(Deleted(w.d.table, w.d.hs.localIndex), index) && w.now <= checked <= stored
    case OnResponse(_) => true
    case OnPacket(pair) => pair < |w.d.pairs|
    case EraseKeys => true
  }

  function Left(before: Slots, after: Slots): set<nat> {
    if before.current.Some? && after.current != before.current then {before.current.value} else {}
  }

  // The initiation was accepted and left the device as `d`.
  function Accepted(w: World, d: Device, msg: MessageInitiation, checked: int, stored: int): World {
    w.(d := d,
       former := w.former + Left(w.d.slots, d.slots),
       log := w.log + [Acceptance(msg, d.hs.lastTimestamp, checked, stored)])
  }

  function Step(w: World, a: Action): World {
    match a
    case Initiate(e, index, stamp) =>
      var (d, msg) := CreateInitiation(w.d, Scalar(e), index, stamp);
      w.(d := d, initiated := w.initiated + (if msg.Some? then 1 else 0), used := w.used + {e})
    case OnInitiation(msg, e, index, checked, stored) =>
      var tried := w.(used := w.used + {e}, now := stored);
      (match HandleInitiation(w.d, msg, Scalar(e), index, checked, stored)
       case None => tried
       case Some((d, _)) => Accepted(tried, d, msg, checked, stored))
    case OnResponse(response) =>
      (match HandleResponse(w.d, response)
       case None => w
       case Some(d) =>
         w.(d := d, accepted := w.accepted + {response}, former := w.former + Left(w.d.slots, d.slots)))
    case OnPacket(pair) =>
      var d := ReceivePacket(w.d, pair);
      w.(d := d, received := w.received + {pair}, former := w.former + Left(w.d.slots, d.slots))
    case EraseKeys =>
      var d := ZeroAllKeys(w.d);
      w.(d := d, former := w.former + Left(w.d.slots, d.slots))
  }

  predicate Run(w: World, actions: seq<Action>)
    decreases |actions|
  {
    actions != [] ==> Possible(w, actions[0]) && Run(Step(w, actions[0]), actions[1..])
  }

  function Final(w: World, actions: seq<Action>): World
    decreases |actions|
  {
    if actions == [] then w else Final(Step(w, actions[0]), actions[1..])
  }

  lemma {:induction false} FinalThen(w: World, actions: seq<Action>, a: Action)
    ensures Final(w, actions + [a]) == Step(Final(w, actions), a)
    decreases |actions|
  {
    if actions != [] {
      assert (actions + [a])[1..] == actions[1..] + [a];
      FinalThen(Step(w, actions[0]), actions[1..], a);
    } else {
      assert (actions + [a])[1..] == [];
    }
  }

  // ----- The slots and the index table.

  // The pair in a slot is what the table holds at the pair's own index.
  predicate SlotOk(d: Device, slot: Option<nat>) {
    slot.Some? ==>
      && slot.value < |d.pairs|
      && d.pairs[slot.value].localIndex in d.table
      && d.table[d.pairs[slot.value].localIndex] == KeyPairEntry(slot.value)
  }

  predicate Distinct(s: Slots) {
    && (s.previous.Some? ==> s.previous != s.current && s.previous != s.next)
    && (s.current.Some? ==> s.current != s.next)
  }

  ghost predicate TableOk(d: Device) {
    && 0 !in d.table
    && (d.hs.localIndex != 0 ==> d.hs.localIndex in d.table && d.table[d.hs.localIndex] == HandshakeEntry)
    && (forall i <- d.table :: d.table[i] == HandshakeEntry ==> i == d.hs.localIndex)
    && (forall i <- d.table :: d.table[i].KeyPairEntry? ==>
          d.table[i].pair < |d.pairs| && d.pairs[d.table[i].pair].localIndex == i)
  }

  ghost predicate Consistent(d: Device) {
    && TableOk(d)
    && SlotOk(d, d.slots.previous) && SlotOk(d, d.slots.current) && SlotOk(d, d.slots.next)
    && Distinct(d.slots)
    && (d.hs.state == Zeroed || d.hs.state == InitiationCreated)
  }

  // A fresh handshake index replaces the old one and touches no key pair.
  lemma AssignIndexKeeps(d: Device, hs: Handshake, index: nat)
    requires TableOk(d) && SlotOk(d, d.slots.previous) && SlotOk(d, d.slots.current) && SlotOk(d, d.slots.next)
    requires FreeIndex(Deleted(d.table, d.hs.localIndex), index) && hs.localIndex == index
    ensures var d' := d.(hs := hs, table := Deleted(d.table, d.hs.localIndex)[index := HandshakeEntry]);
      TableOk(d') && SlotOk(d', d.slots.previous) && SlotOk(d', d.slots.current) && SlotOk(d', d.slots.next)
  {
  }

  // Deleting a pair's index removes that pair from the table and no other.
  lemma DeletePairKeeps(d: Device, slot: Option<nat>, other: Option<nat>)
    requires TableOk(d) && SlotOk(d, slot) && SlotOk(d, other) && (slot.Some? ==> slot != other)
    ensures var d' := d.(table := DeletePair(d.table, d.pairs, slot)); TableOk(d') && SlotOk(d', other)
  {
  }

  // Turning the handshake's entry into the new pair's keeps every other entry.
  lemma AddPairKeeps(d: Device, pair: KeyPair, slot: Option<nat>)
    requires TableOk(d) && SlotOk(d, slot) && d.hs.localIndex != 0 && pair.localIndex == d.hs.localIndex
    ensures var d' := d.(hs := Spent(d.hs), pairs := d.pairs + [pair],
      table := d.table[d.hs.localIndex := KeyPairEntry(|d.pairs|)]);
      TableOk(d') && SlotOk(d', slot) && SlotOk(d', Some(|d.pairs|))
  {
  }

  lemma NewKeyPairKeeps(d: Device)
    requires TableOk(d) && SlotOk(d, d.slots.previous) && SlotOk(d, d.slots.current) && SlotOk(d, d.slots.next)
    requires Distinct(d.slots) && d.hs.localIndex != 0
    requires d.hs.state == ResponseConsumed || d.hs.state == ResponseCreated
    ensures NewKeyPair(d).Some? && Consistent(NewKeyPair(d).value)
  {
    var pair, n := DerivedPair(d.hs), |d.pairs|;
    AddPairKeeps(d, pair, d.slots.previous);
    AddPairKeeps(d, pair, d.slots.current);
    AddPairKeeps(d, pair, d.slots.next);
    var d1 := d.(hs := Spent(d.hs), pairs := d.pairs + [pair], table := d.table[d.hs.localIndex := KeyPairEntry(n)]);
    if pair.isInitiator {
      DeletePairKeeps(d1, d1.slots.previous, d1.slots.current);
      DeletePairKeeps(d1, d1.slots.previous, d1.slots.next);
      DeletePairKeeps(d1, d1.slots.previous, Some(n));
    }
  }

  lemma InitiateKeeps(d: Device, e: Term, index: nat, stamp: Tai64.Bytes)
    requires Consistent(d) && FreeIndex(Deleted(d.table, d.hs.localIndex), index)
    ensures Consistent(CreateInitiation(d, e, index, stamp).0)
  {
    AssignIndexKeeps(d, SealInitiation(d.hs, e, index, d.publicKey, stamp).0, index);
  }

  lemma RespondKeeps(d: Device, e: Term, index: nat)
    requires TableOk(d) && SlotOk(d, d.slots.previous)
    requires SlotOk(d, d.slots.current) && SlotOk(d, d.slots.next) && Distinct(d.slots)
    requires d.hs.state == InitiationConsumed && FreeIndex(Deleted(d.table, d.hs.localIndex), index)
    ensures Respond(d, e, index).Some?
    ensures var d' := Respond(d, e, index).value.0;
      Consistent(d') && d'.pairs[..|d.pairs|] == d.pairs && |d'.pairs| == |d.pairs| + 1
  {
    AssignIndexKeeps(d, SealResponse(d.hs, e, index).0, index);
    NewKeyPairKeeps(CreateResponse(d, e, index).value.0);
  }

  lemma ConsumeKeepsRest(d: Device, msg: MessageInitiation, checked: int, stored: int)
    ensures match ConsumeInitiation(d, msg, checked, stored)
      case None => true
      case Some(d1) => d1 == d.(hs := d1.hs) && d1.hs.localIndex == d.hs.localIndex && d1.hs.state == InitiationConsumed
  {
  }

  lemma HandleInitiationKeeps(d: Device, msg: MessageInitiation, e: Term, index: nat, checked: int, stored: int)
    requires Consistent(d) && FreeIndex(Deleted(d.table, d.hs.localIndex), index)
    ensures match HandleInitiation(d, msg, e, index, checked, stored)
      case None => ConsumeInitiation(d, msg, checked, stored).None?
      case Some((d', _)) => Consistent(d') && d'.pairs[..|d.pairs|] == d.pairs && |d'.pairs| == |d.pairs| + 1
  {
    var c := ConsumeInitiation(d, msg, checked, stored);
    ConsumeKeepsRest(d, msg, checked, stored);
    if c.Some? { RespondKeeps(c.value, e, index); }
  }

  // Only the latest initiation can complete: an accepted response names the current handshake's index,
  // and the one key pair it produces gets that index.
  lemma ResponseCompletesLatest(d: Device, msg: MessageResponse)
    requires Consistent(d)
    ensures match HandleResponse(d, msg)
      case None => ConsumeResponse(d, msg).None?
      case Some(d') =>
        && Consistent(d')
        && d.hs.state == InitiationCreated && msg.receiver == d.hs.localIndex != 0
        && d'.hs.state == Zeroed && d'.hs.localIndex == 0
        && d'.pairs[..|d.pairs|] == d.pairs && |d'.pairs| == |d.pairs| + 1
        && var pair := d'.pairs[|d.pairs|];
           pair.isInitiator && pair.localIndex == msg.receiver && pair.remoteIndex == msg.sender
  {
    match ConsumeResponse(d, msg)
    case None =>
    case Some(d1) =>
      NewKeyPairKeeps(d1);
  }

  lemma ReceiveKeeps(d: Device, n: nat)
    requires Consistent(d)
    ensures Consistent(ReceivePacket(d, n))
  {
  }

  lemma ZeroKeeps(d: Device)
    requires Consistent(d)
    ensures Consistent(ZeroAllKeys(d)) && ZeroAllKeys(d).slots == EMPTY_SLOTS
  {
  }

  lemma StepKeepsConsistent(w: World, a: Action)
    requires Consistent(w.d) && Possible(w, a)
    ensures Consistent(Step(w, a).d)
  {
    match a
    case Initiate(e, index, stamp) => InitiateKeeps(w.d, Scalar(e), index, stamp);
    case OnInitiation(msg, e, index, checked, stored) =>
      HandleInitiationKeeps(w.d, msg, Scalar(e), index, checked, stored);
    case OnResponse(response) => ResponseCompletesLatest(w.d, response);
    case OnPacket(pair) => ReceiveKeeps(w.d, pair);
    case EraseKeys => ZeroKeeps(w.d);
  }

  // ----- At most one key pair for each handshake.

  // An initiation that can still complete.
  predicate Pending(d: Device) {
    d.hs.state == InitiationCreated && d.hs.localIndex != 0
  }

  ghost predicate CountOk(w: World) {
    |w.d.pairs| + (if Pending(w.d) then 1 else 0) <= w.initiated + |w.log|
  }

  lemma StepKeepsCount(w: World, a: Action)
    requires Consistent(w.d) && CountOk(w) && Possible(w, a)
    ensures CountOk(Step(w, a))
  {
    match a
    case Initiate(e, index, stamp) =>
    case OnInitiation(msg, e, index, checked, stored) =>
      HandleInitiationKeeps(w.d, msg, Scalar(e), index, checked, stored);
    case OnResponse(response) => ResponseCompletesLatest(w.d, response);
    case OnPacket(pair) =>
    case EraseKeys =>
  }

  // ----- Key confirmation, and pairs that stopped being current.

  ghost predicate KeysOk(w: World) {
    && (w.d.slots.current.Some? && w.d.slots.current.value < |w.d.pairs|
        && !w.d.pairs[w.d.slots.current.value].isInitiator
        ==> w.d.slots.current.value in w.received)
    && (forall n <- w.former :: n < |w.d.pairs| && w.d.slots.current != Some(n) && w.d.slots.next != Some(n))
  }

  // The slots move only by rotation, by confirmation, or by being emptied.
  predicate Moved(w: World, a: Action, w': World) {
    var d, d' := w.d, w'.d;
    && |d.pairs| <= |d'.pairs| && d'.pairs[..|d.pairs|] == d.pairs
    && (|| (d'.slots == d.slots && |d'.pairs| == |d.pairs|)
        || (|d'.pairs| == |d.pairs| + 1 && d'.slots == Rotated(d.slots, |d.pairs|, d'.pairs[|d.pairs|].isInitiator))
        || (a.OnPacket? && d.slots.next == Some(a.pair) && d'.slots == Slots(d.slots.current, d.slots.next, None)
            && d'.pairs == d.pairs)
        || (d'.slots == EMPTY_SLOTS && d'.pairs == d.pairs))
    && w'.former == w.former + Left(d.slots, d'.slots)
    && w'.received == w.received + (if a.OnPacket? then {a.pair} else {})
  }

  lemma RespondRotates(d: Device, e: Term, index: nat)
    requires d.hs.state == InitiationConsumed
    ensures match Respond(d, e, index)
      case None => false
      case Some((d', _)) =>
        && |d'.pairs| == |d.pairs| + 1 && d'.pairs[..|d.pairs|] == d.pairs && !d'.pairs[|d.pairs|].isInitiator
        && d'.slots == Rotated(d.slots, |d.pairs|, false)
  {
  }

  lemma InitiationMoves(w: World, a: Action)
    requires a.OnInitiation?
    ensures Moved(w, a, Step(w, a))
  {
    var c := ConsumeInitiation(w.d, a.msg, a.checked, a.stored);
    ConsumeKeepsRest(w.d, a.msg, a.checked, a.stored);
    if c.Some? { RespondRotates(c.value, Scalar(a.e), a.index); }
  }

  lemma ResponseMoves(w: World, a: Action)
    requires Consistent(w.d) && a.OnResponse?
    ensures Moved(w, a, Step(w, a))
  {
  }

  lemma SlotMoves(w: World, a: Action)
    requires Consistent(w.d) && Possible(w, a)
    ensures Moved(w, a, Step(w, a))
  {
    match a
    case OnInitiation(_, _, _, _, _) => InitiationMoves(w, a);
    case OnResponse(_) => ResponseMoves(w, a);
    case _ =>
  }

  lemma MoveKeepsKeys(w: World, a: Action, w': World)
    requires Consistent(w.d) && KeysOk(w) && Possible(w, a) && Moved(w, a, w')
    ensures KeysOk(w')
  {
    var d, d' := w.d, w'.d;
    assert forall n :: 0 <= n < |d.pairs| ==> d'.pairs[n] == d.pairs[n] by {
      assert forall n :: 0 <= n < |d.pairs| ==> d'.pairs[..|d.pairs|][n] == d.pairs[n];
    }
  }

  lemma StepKeepsKeys(w: World, a: Action)
    requires Consistent(w.d) && KeysOk(w) && Possible(w, a)
    ensures KeysOk(Step(w, a))
  {
    SlotMoves(w, a);
    MoveKeepsKeys(w, a, Step(w, a));
  }

  // ----- A response is accepted once.

  function Before(h: Term): Term {
    if h.Hash? && |h.data| == 2 then h.data[0] else Zero
  }

  function Latest(h: Term): Term {
    if h.Hash? && |h.data| == 2 then h.data[1] else Zero
  }

  // The initiator's ephemeral key in the hash of an initiation, and in the box of a response.
  function InitiationEphemeral(h: Term): Term {
    Latest(Before(Before(h)))
  }

  function AnsweredEphemeral(m: MessageResponse): Term {
    if m.empty.Sealed? && |m.empty.ad| == 1 then InitiationEphemeral(Before(Before(m.empty.ad[0]))) else Zero
  }

  ghost predicate ResponsesOk(w: World) {
    && (Pending(w.d) ==>
          && w.d.hs.localEphemeral.Scalar? && w.d.hs.localEphemeral.id in w.used
          && InitiationEphemeral(w.d.hs.hash) == PublicKey(w.d.hs.localEphemeral))
    && (forall m <- w.accepted ::
          && AnsweredEphemeral(m).Public? && AnsweredEphemeral(m).id in w.used
          && (Pending(w.d) ==> AnsweredEphemeral(m) != PublicKey(w.d.hs.localEphemeral)))
  }

  lemma SealedInitiationNames(hs: Handshake, e: nat, index: nat, publicKey: Term, stamp: Tai64.Bytes)
    ensures InitiationEphemeral(SealInitiation(hs, Scalar(e), index, publicKey, stamp).0.hash) == Public(e)
  {
  }

  // A response opens only if it answers the pending initiation's ephemeral key.
  lemma AcceptedNames(hs: Handshake, privateKey: Term, m: MessageResponse)
    requires ConsumedResponse(hs, privateKey, m).Some?
    ensures AnsweredEphemeral(m) == InitiationEphemeral(hs.hash)
  {
  }

  // A device with no pending initiation has nothing to confuse with a used response.
  lemma NotPendingKeepsResponses(w: World, w': World)
    requires ResponsesOk(w) && !Pending(w'.d) && w'.accepted == w.accepted && w.used <= w'.used
    ensures ResponsesOk(w')
  {
  }

  lemma ResponseKeepsResponses(w: World, a: Action)
    requires Consistent(w.d) && ResponsesOk(w) && a.OnResponse?
    ensures ResponsesOk(Step(w, a))
  {
    ResponseCompletesLatest(w.d, a.response);
    if HandleResponse(w.d, a.response).Some? { AcceptedNames(w.d.hs, w.d.privateKey, a.response); }
  }

  lemma StepKeepsResponses(w: World, a: Action)
    requires Consistent(w.d) && ResponsesOk(w) && Possible(w, a)
    ensures ResponsesOk(Step(w, a))
  {
    match a
    case Initiate(e, index, stamp) => SealedInitiationNames(w.d.hs, e, index, w.d.publicKey, stamp);
    case OnInitiation(msg, e, index, checked, stored) =>
      HandleInitiationKeeps(w.d, msg, Scalar(e), index, checked, stored);
      if HandleInitiation(w.d, msg, Scalar(e), index, checked, stored).Some? {
        NotPendingKeepsResponses(w, Step(w, a));
      }
    case OnResponse(response) => ResponseKeepsResponses(w, a);
    case OnPacket(pair) =>
    case EraseKeys =>
  }

  // ----- Accepted initiations.

  predicate Sound(a: Acceptance) {
    a.checked <= a.stored && |a.stamp| == Tai64.TAI64N_SIZE
  }

  // A later timestamp, accepted longer after than the rate allows.
  predicate Follows(a: Acceptance, b: Acceptance) {
    Tai64.After(b.stamp, a.stamp) && b.checked - a.stored > HANDSHAKE_INITIATION_RATE
  }

  ghost predicate Sorted(log: seq<Acceptance>) {
    && (forall a <- log :: Sound(a))
    && forall i, j :: 0 <= i < j < |log| ==> Follows(log[i], log[j])
  }

  lemma FollowsTransitive(a: Acceptance, b: Acceptance, c: Acceptance)
    requires Sound(a) && Sound(b) && Sound(c) && Follows(a, b) && Follows(b, c)
    ensures Follows(a, c)
  {
    Tai64.AfterTransitive(c.stamp, b.stamp, a.stamp);
  }

  lemma SortedExtends(log: seq<Acceptance>, b: Acceptance)
    requires Sorted(log) && Sound(b) && (log != [] ==> Follows(log[|log| - 1], b))
    ensures Sorted(log + [b])
  {
    forall i | 0 <= i < |log| ensures Follows(log[i], b) {
      if i < |log| - 1 { FollowsTransitive(log[i], log[|log| - 1], b); }
    }
  }

  // The timestamp that a device finds in a message: it depends on the configured keys only.
  function StampIn(d: Device, msg: MessageInitiation): Option<Tai64.Bytes> {
    match OpenInitiation(d.privateKey, d.publicKey, d.hs.staticStatic, msg)
    case None => None
    case Some((_, stamp)) => Some(stamp)
  }

  predicate SameIdentity(d: Device, d': Device) {
    d.privateKey == d'.privateKey && d.publicKey == d'.publicKey && d.hs.staticStatic == d'.hs.staticStatic
  }

  predicate SameRecord(d: Device, d': Device) {
    SameIdentity(d, d') && d.hs.lastTimestamp == d'.hs.lastTimestamp && d.hs.lastConsumption == d'.hs.lastConsumption
  }

  // What accepting an initiation leaves in the replay record.
  lemma InitiationRecorded(d: Device, msg: MessageInitiation, e: Term, index: nat, checked: int, stored: int)
    ensures match HandleInitiation(d, msg, e, index, checked, stored)
      case None => true
      case Some((d', _)) =>
        && StampIn(d, msg) == Some(d'.hs.lastTimestamp) && |d'.hs.lastTimestamp| == Tai64.TAI64N_SIZE
        && Timely(d.hs, d'.hs.lastTimestamp, checked) && d'.hs.lastConsumption == Some(stored)
        && SameIdentity(d, d')
  {
  }

  lemma OthersKeepRecord(w: World, a: Action)
    requires !a.OnInitiation?
    ensures SameRecord(w.d, Step(w, a).d) && Step(w, a).log == w.log && Step(w, a).now == w.now
  {
  }

  ghost predicate LogOk(w: World) {
    && Sorted(w.log)
    && (forall a <- w.log :: StampIn(w.d, a.msg) == Some(a.stamp))
    && (w.log == [] ==> w.d.hs.lastConsumption == None && w.d.hs.lastTimestamp == ZERO_TIMESTAMP)
    && (w.log != [] ==> w.d.hs.lastTimestamp == w.log[|w.log| - 1].stamp)
    && (w.log != [] ==> w.d.hs.lastConsumption == Some(w.log[|w.log| - 1].stored))
  }

  lemma AcceptedKeepsLog(w: World, d: Device, msg: MessageInitiation, checked: int, stored: int)
    requires LogOk(w) && SameIdentity(w.d, d) && checked <= stored
    requires StampIn(w.d, msg) == Some(d.hs.lastTimestamp) && |d.hs.lastTimestamp| == Tai64.TAI64N_SIZE
    requires Timely(w.d.hs, d.hs.lastTimestamp, checked) && d.hs.lastConsumption == Some(stored)
    ensures LogOk(Accepted(w, d, msg, checked, stored))
  {
    var b := Acceptance(msg, d.hs.lastTimestamp, checked, stored);
    SortedExtends(w.log, b);
    forall a <- w.log + [b] ensures StampIn(d, a.msg) == Some(a.stamp) {
      SameStamp(w.d, d, a.msg);
    }
  }

  lemma SameStamp(d: Device, d': Device, msg: MessageInitiation)
    requires SameIdentity(d, d')
    ensures StampIn(d, msg) == StampIn(d', msg)
  {
  }

  lemma StepKeepsLog(w: World, a: Action)
    requires LogOk(w) && Possible(w, a)
    ensures LogOk(Step(w, a))
  {
    if a.OnInitiation? {
      var tried := w.(used := w.used + {a.e}, now := a.stored);
      var r := HandleInitiation(w.d, a.msg, Scalar(a.e), a.index, a.checked, a.stored);
      InitiationRecorded(w.d, a.msg, Scalar(a.e), a.index, a.checked, a.stored);
      if r.Some? {
        AcceptedKeepsLog(tried, r.value.0, a.msg, a.checked, a.stored);
      }
    } else {
      OthersKeepLog(w, a);
    }
  }

  lemma OthersKeepLog(w: World, a: Action)
    requires LogOk(w) && !a.OnInitiation?
    ensures LogOk(Step(w, a))
  {
    OthersKeepRecord(w, a);
    forall b <- w.log ensures StampIn(Step(w, a).d, b.msg) == Some(b.stamp) {
      SameStamp(w.d, Step(w, a).d, b.msg);
    }
  }

  // ----- All runs.

  ghost predicate Inv(w: World) {
    Consistent(w.d) && CountOk(w) && KeysOk(w) && ResponsesOk(w) && LogOk(w)
  }

  lemma StartInv(privateKey: Term, publicKey: Term, remoteStatic: Term, psk: Term, now: int)
    ensures Inv(Start(privateKey, publicKey, remoteStatic, psk, now))
  {
  }

  lemma StepKeepsInv(w: World, a: Action)
    requires Inv(w) && Possible(w, a)
    ensures Inv(Step(w, a))
  {
    StepKeepsConsistent(w, a);
    StepKeepsCount(w, a);
    StepKeepsKeys(w, a);
    StepKeepsResponses(w, a);
    StepKeepsLog(w, a);
  }

  lemma {:induction false} RunKeepsInv(w: World, actions: seq<Action>)
    requires Inv(w) && Run(w, actions)
    ensures Inv(Final(w, actions))
    decreases |actions|
  {
    if actions != [] {
      StepKeepsInv(w, actions[0]);
      RunKeepsInv(Step(w, actions[0]), actions[1..]);
    }
  }

  // A box that once produced a key pair never produces another, whatever headers it comes with.
  lemma NoSecondPair(w: World, m: MessageResponse, again: MessageResponse)
    requires Inv(w) && m in w.accepted && again.empty == m.empty
    ensures HandleResponse(w.d, again).None?
  {
    ResponseCompletesLatest(w.d, again);
    if HandleResponse(w.d, again).Some? { AcceptedNames(w.d.hs, w.d.privateKey, again); }
  }

  lemma LastOfLog(log: seq<Acceptance>, a: Acceptance)
    requires Sorted(log) && a in log
    ensures !Tai64.After(a.stamp, log[|log| - 1].stamp)
  {
    var i :| 0 <= i < |log| && log[i] == a;
    NotLater(a, log[|log| - 1]);
  }

  // The stamp of an accepted initiation is not later than the last accepted one.
  lemma LoggedStampIsOld(w: World, a: Acceptance)
    requires LogOk(w) && a in w.log
    ensures StampIn(w.d, a.msg).Some? && !Tai64.After(StampIn(w.d, a.msg).value, w.d.hs.lastTimestamp)
  {
    LastOfLog(w.log, a);
  }

  // An initiation that was accepted is never accepted again.
  lemma NoSecondAcceptance(w: World, a: Acceptance, e: Term, index: nat, checked: int, stored: int)
    requires LogOk(w) && a in w.log
    ensures HandleInitiation(w.d, a.msg, e, index, checked, stored).None?
  {
    LoggedStampIsOld(w, a);
    LateStampRefused(w.d, a.msg, e, index, checked, stored);
  }

  // Later than every accepted stamp, and long enough after every acceptance.
  ghost predicate InTurn(log: seq<Acceptance>, stamp: Tai64.Bytes, checked: int) {
    && Tai64.Value(stamp) > 0
    && forall a <- log :: Tai64.Value(stamp) > Tai64.Value(a.stamp) && checked - a.stored > 50_000_000
  }

  lemma TimelyIsInTurn(w: World, stamp: Tai64.Bytes, checked: int)
    requires LogOk(w) && |stamp| == Tai64.TAI64N_SIZE
    ensures Timely(w.d.hs, stamp, checked) <==> InTurn(w.log, stamp, checked)
  {
    Tai64.GreaterIsNumeric(stamp, w.d.hs.lastTimestamp);
    if w.log == [] {
      Tai64.ZerosAreZero(ZERO_TIMESTAMP);
    } else {
      var last := w.log[|w.log| - 1];
      assert last in w.log;
      forall a <- w.log ensures Tai64.Value(a.stamp) <= Tai64.Value(last.stamp) && a.stored <= last.stored {
        UpToLast(w.log, a);
      }
    }
  }

  lemma UpToLast(log: seq<Acceptance>, a: Acceptance)
    requires Sorted(log) && a in log
    ensures Tai64.Value(a.stamp) <= Tai64.Value(log[|log| - 1].stamp) && a.stored <= log[|log| - 1].stored
  {
    var i :| 0 <= i < |log| && log[i] == a;
    var last := log[|log| - 1];
    assert last in log && Sound(last) && Sound(a);
    if i < |log| - 1 {
      assert Follows(log[i], last);
      Tai64.GreaterIsNumeric(last.stamp, a.stamp);
    }
  }

  /** In every run an initiation is accepted if and only if its boxes open, its timestamp is a greater number
      than that of every initiation accepted before, and more than a twentieth of a second has passed
      since each of these. */
  lemma AcceptedExactly(w: World, msg: MessageInitiation, e: Term, index: nat, checked: int, stored: int)
    requires LogOk(w)
    ensures HandleInitiation(w.d, msg, e, index, checked, stored).Some? <==>
      StampIn(w.d, msg).Some? && InTurn(w.log, StampIn(w.d, msg).value, checked)
  {
    if StampIn(w.d, msg).Some? { TimelyIsInTurn(w, StampIn(w.d, msg).value, checked); }
    OpensAndTimely(w.d, msg, e, index, checked, stored);
  }

  lemma OpensAndTimely(d: Device, msg: MessageInitiation, e: Term, index: nat, checked: int, stored: int)
    ensures StampIn(d, msg).Some? ==> |StampIn(d, msg).value| == Tai64.TAI64N_SIZE
    ensures HandleInitiation(d, msg, e, index, checked, stored).Some? <==>
      StampIn(d, msg).Some? && Timely(d.hs, StampIn(d, msg).value, checked)
  {
  }

  lemma LateStampRefused(d: Device, msg: MessageInitiation, e: Term, index: nat, checked: int, stored: int)
    requires StampIn(d, msg).Some? && !Tai64.After(StampIn(d, msg).value, d.hs.lastTimestamp)
    ensures HandleInitiation(d, msg, e, index, checked, stored).None?
  {
  }

  lemma NotLater(a: Acceptance, last: Acceptance)
    requires Sound(a) && Sound(last) && (a == last || Follows(a, last))
    ensures !Tai64.After(a.stamp, last.stamp)
  {
    Tai64.GreaterIsNumeric(a.stamp, last.stamp);
    Tai64.GreaterIsNumeric(last.stamp, a.stamp);
  }

  lemma {:induction false} FormerGrows(w: World, actions: seq<Action>)
    requires Inv(w) && Run(w, actions)
    ensures Inv(Final(w, actions)) && w.former <= Final(w, actions).former
    ensures w.d.slots.current.Some? && Final(w, actions).d.slots.current != w.d.slots.current
      ==> w.d.slots.current.value in Final(w, actions).former
    decreases |actions|
  {
    if actions != [] {
      SlotMoves(w, actions[0]);
      StepKeepsInv(w, actions[0]);
      FormerGrows(Step(w, actions[0]), actions[1..]);
    }
  }

  // A pair that was current and stopped being current is never current again.
  lemma NeverCurrentAgain(w: World, some: seq<Action>, more: seq<Action>)
    requires Inv(w) && w.d.slots.current.Some?
    requires Run(w, some) && Final(w, some).d.slots.current != w.d.slots.current
    requires Run(Final(w, some), more)
    ensures Final(Final(w, some), more).d.slots.current != w.d.slots.current
  {
    FormerGrows(w, some);
    FormerGrows(Final(w, some), more);
  }

  // What every run from the start keeps, spelled out.
  lemma EveryRun(privateKey: Term, publicKey: Term, remoteStatic: Term, psk: Term, now: int, actions: seq<Action>)
    requires Run(Start(privateKey, publicKey, remoteStatic, psk, now), actions)
    ensures var w := Final(Start(privateKey, publicKey, remoteStatic, psk, now), actions); var d := w.d;
      // each slot is what the index table holds at the pair's own index, which is not zero
      && SlotOk(d, d.slots.previous) && SlotOk(d, d.slots.current) && SlotOk(d, d.slots.next) && 0 !in d.table
      && Distinct(d.slots)
      // there is a handshake entry exactly at the handshake's index, when that is set
      && (forall i :: i in d.table && d.table[i] == HandshakeEntry <==> i == d.hs.localIndex != 0)
      // key pairs never outnumber the handshakes begun
      && |d.pairs| <= w.initiated + |w.log|
      // a pair of the responder is used for sending only after a packet arrived under it
      && (d.slots.current.Some? && !d.pairs[d.slots.current.value].isInitiator ==> d.slots.current.value in w.received)
      && Sorted(w.log)
  {
    StartInv(privateKey, publicKey, remoteStatic, psk, now);
    RunKeepsInv(Start(privateKey, publicKey, remoteStatic, psk, now), actions);
  }
}
