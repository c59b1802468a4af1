/** The Noise IKpsk2 handshake of `controller/noise_protocol.go` on values: what each message contains,
    what each step leaves behind, and how key pairs are rotated. */
module Noise {
  import opened Wrappers
  import opened Symbolic
  import opened NoiseHelpers
  import opened IndexTables
  import Tai64

  const HANDSHAKE_INITIATION_RATE: int := 1_000_000_000 / 20
  const RESPONSE_TYPE: nat := 2
  const INITIATION_TYPE: nat := 1

  const CONSTRUCTION := Text("Noise_IKpsk2_25519_ChaChaPoly_BLAKE2s")
  const IDENTIFIER := Text("BT LfYxehcmSfAQVzt3tiQSskuHbcS7o91")
  const INITIAL_CHAIN_KEY := Hash([CONSTRUCTION])
  const INITIAL_HASH := MixHash(INITIAL_CHAIN_KEY, IDENTIFIER)
  const ZERO_NONCE := Zero

  datatype HandshakeState = Zeroed | InitiationCreated | InitiationConsumed | ResponseCreated | ResponseConsumed

  datatype MessageInitiation = MessageInitiation(
    typ: nat, sender: nat, ephemeral: Term, encStatic: Term, encTimestamp: Term)

  datatype MessageResponse = MessageResponse(typ: nat, sender: nat, receiver: nat, ephemeral: Term, empty: Term)

  datatype Handshake = Handshake(
    state: HandshakeState,
    hash: Term,
    chainKey: Term,
    presharedKey: Term,
    localEphemeral: Term,
    localIndex: nat,
    remoteIndex: nat,
    remoteStatic: Term,
    remoteEphemeral: Term,
    staticStatic: Term,
    lastTimestamp: Tai64.Bytes,
    lastConsumption: Option<int>)         // None is the zero time

  datatype KeyPair = KeyPair(send: Term, receive: Term, isInitiator: bool, localIndex: nat, remoteIndex: nat)

  datatype Slots = Slots(previous: Option<nat>, current: Option<nat>, next: Option<nat>)

  const EMPTY_SLOTS := Slots(None, None, None)

  // A device and its one peer.  `pairs` are all the key pairs ever made; the slots hold their numbers.
  datatype Device = Device(
    privateKey: Term,
    publicKey: Term,
    hs: Handshake,
    slots: Slots,
    pairs: seq<KeyPair>,
    table: Table)

  const ZERO_TIMESTAMP: Tai64.Bytes := [0, 0, 0, 0, 0, 0, 0, 0, 0, 0, 0, 0]

  function NewHandshake(remoteStatic: Term, staticStatic: Term, psk: Term): Handshake {
    Handshake(Zeroed, Zero, Zero, psk, Zero, 0, 0, remoteStatic, Zero, staticStatic, ZERO_TIMESTAMP, None)
  }

  // A device with a new peer: nothing negotiated, every slot empty.
  function Initial(privateKey: Term, publicKey: Term, remoteStatic: Term, psk: Term): Device {
    Device(privateKey, publicKey, NewHandshake(remoteStatic, SharedSecret(privateKey, remoteStatic), psk),
      EMPTY_SLOTS, [], map[])
  }

  function MixHash(h: Term, data: Term): Term {
    Hash([h, data])
  }

  function MixKey(c: Term, data: Term): Term {
    Hkdf(c, [data], 1)
  }

  // ----- The transcript of an initiation: both sides compute these from the same public values.

  datatype Transcript = Transcript(hash: Term, chainKey: Term, key: Term)

  // After the ephemeral key, with the key that seals the static key.
  function AfterEphemeral(responderStatic: Term, ephemeral: Term, es: Term): Transcript {
    var c := MixKey(INITIAL_CHAIN_KEY, ephemeral);
    Transcript(MixHash(MixHash(INITIAL_HASH, responderStatic), ephemeral), Hkdf(c, [es], 1), Hkdf(c, [es], 2))
  }

  // After the sealed static key, with the key that seals the timestamp.
  function AfterStatic(t: Transcript, encStatic: Term, ss: Term): Transcript {
    Transcript(MixHash(t.hash, encStatic), Hkdf(t.chainKey, [ss], 1), Hkdf(t.chainKey, [ss], 2))
  }

  // After the response's ephemeral key, the two secrets and the preshared key, with the key that seals
  // the empty payload.
  function AfterResponseKeys(hash: Term, chainKey: Term, ephemeral: Term, ee: Term, se: Term, psk: Term): Transcript {
    var c := MixKey(MixKey(MixKey(chainKey, ephemeral), ee), se);
    Transcript(MixHash(MixHash(hash, ephemeral), Hkdf(c, [psk], 2)), Hkdf(c, [psk], 1), Hkdf(c, [psk], 3))
  }

  // ----- The four message operations.

  predicate FreeIndex(t: Table, index: nat) {
    index != 0 && index !in t
  }

  // The handshake and the message after an initiation is sealed: `e` is the new private key, `index` the
  // index drawn and `stamp` the current timestamp.
  function SealInitiation(
      hs: Handshake, e: Term, index: nat, publicKey: Term, stamp: Tai64.Bytes): (Handshake, MessageInitiation) {
    var ephemeral := PublicKey(e);
    var t1 := AfterEphemeral(hs.remoteStatic, ephemeral, SharedSecret(e, hs.remoteStatic));
    var encStatic := Sealed(t1.key, ZERO_NONCE, [publicKey], [t1.hash]);
    var t2 := AfterStatic(t1, encStatic, hs.staticStatic);
    var encTimestamp := Sealed(t2.key, ZERO_NONCE, [Stamp(stamp)], [t2.hash]);
    (hs.(state := InitiationCreated,
         hash := MixHash(t2.hash, encTimestamp),
         chainKey := t2.chainKey,
         localEphemeral := e,
         localIndex := index),
     MessageInitiation(INITIATION_TYPE, index, ephemeral, encStatic, encTimestamp))
  }

  function CreateInitiation(d: Device, e: Term, index: nat, stamp: Tai64.Bytes): (Device, Option<MessageInitiation>) {
    if d.hs.staticStatic == Zero then (d, None)
    else
      var (hs, msg) := SealInitiation(d.hs, e, index, d.publicKey, stamp);
      (d.(hs := hs, table := Deleted(d.table, d.hs.localIndex)[index := HandshakeEntry]), Some(msg))
  }

  // The transcript and the timestamp of an initiation, if every box opens.
  function OpenInitiation(privateKey: Term, publicKey: Term, staticStatic: Term, msg: MessageInitiation)
    : Option<(Transcript, Tai64.Bytes)>
  {
    if msg.typ != INITIATION_TYPE then None
    else
      var t1 := AfterEphemeral(publicKey, msg.ephemeral, SharedSecret(privateKey, msg.ephemeral));
      if Open(t1.key, ZERO_NONCE, msg.encStatic, [t1.hash]).None? || staticStatic == Zero then None
      else
        var t2 := AfterStatic(t1, msg.encStatic, staticStatic);
        match Open(t2.key, ZERO_NONCE, msg.encTimestamp, [t2.hash])
        case None => None
        case Some(plain) =>
          if |plain| == 1 && plain[0].Stamp? && |plain[0].bytes| == Tai64.TAI64N_SIZE
          then Some((t2, plain[0].bytes)) else None
  }

  // Later than the last accepted timestamp, and long enough after the last acceptance.
  predicate Timely(hs: Handshake, stamp: Tai64.Bytes, checked: int) {
    && Tai64.After(stamp, hs.lastTimestamp)
    && (hs.lastConsumption.None? || checked - hs.lastConsumption.value > HANDSHAKE_INITIATION_RATE)
  }

  function WithInitiation(
      hs: Handshake, hash: Term, chainKey: Term, msg: MessageInitiation, stamp: Tai64.Bytes, stored: int): Handshake {
    hs.(hash := hash,
        chainKey := chainKey,
        remoteIndex := msg.sender,
        remoteEphemeral := msg.ephemeral,
        lastTimestamp := stamp,
        lastConsumption := Some(stored),
        state := InitiationConsumed)
  }

  // The clock is read once for the flood check (`checked`) and again when the time is stored.
  function ConsumedInitiation(
      hs: Handshake, privateKey: Term, publicKey: Term, msg: MessageInitiation, checked: int, stored: int)
    : Option<Handshake>
  {
    match OpenInitiation(privateKey, publicKey, hs.staticStatic, msg)
    case None => None
    case Some((t2, stamp)) =>
      if !Timely(hs, stamp, checked) then None
      else Some(WithInitiation(hs, MixHash(t2.hash, msg.encTimestamp), t2.chainKey, msg, stamp, stored))
  }

  function ConsumeInitiation(d: Device, msg: MessageInitiation, checked: int, stored: int): Option<Device> {
    match ConsumedInitiation(d.hs, d.privateKey, d.publicKey, msg, checked, stored)
    case None => None
    case Some(hs) => Some(d.(hs := hs))
  }

  function SealResponse(hs: Handshake, e: Term, index: nat): (Handshake, MessageResponse) {
    var ephemeral := PublicKey(e);
    var t := AfterResponseKeys(hs.hash, hs.chainKey, ephemeral,
               SharedSecret(e, hs.remoteEphemeral), SharedSecret(e, hs.remoteStatic), hs.presharedKey);
    var empty := Sealed(t.key, ZERO_NONCE, [], [t.hash]);
    (hs.(state := ResponseCreated,
         hash := MixHash(t.hash, empty),
         chainKey := t.chainKey,
         localEphemeral := e,
         localIndex := index),
     MessageResponse(RESPONSE_TYPE, index, hs.remoteIndex, ephemeral, empty))
  }

  function CreateResponse(d: Device, e: Term, index: nat): Option<(Device, MessageResponse)> {
    if d.hs.state != InitiationConsumed then None
    else
      var (hs, msg) := SealResponse(d.hs, e, index);
      Some((d.(hs := hs, table := Deleted(d.table, d.hs.localIndex)[index := HandshakeEntry]), msg))
  }

  function ConsumedResponse(hs: Handshake, privateKey: Term, msg: MessageResponse): Option<Handshake> {
    if hs.state != InitiationCreated then None
    else
      var t := AfterResponseKeys(hs.hash, hs.chainKey, msg.ephemeral,
                 SharedSecret(hs.localEphemeral, msg.ephemeral), SharedSecret(privateKey, msg.ephemeral),
                 hs.presharedKey);
      if Open(t.key, ZERO_NONCE, msg.empty, [t.hash]).None? then None
      else Some(hs.(
        hash := MixHash(t.hash, msg.empty),
        chainKey := t.chainKey,
        remoteIndex := msg.sender,
        state := ResponseConsumed))
  }

  // The receiver index must name the handshake.
  function ConsumeResponse(d: Device, msg: MessageResponse): Option<Device> {
    if msg.typ != RESPONSE_TYPE || msg.receiver !in d.table || d.table[msg.receiver] != HandshakeEntry then None
    else
      match ConsumedResponse(d.hs, d.privateKey, msg)
      case None => None
      case Some(hs) => Some(d.(hs := hs))
  }

  // ----- Key pairs.

  function DerivedPair(hs: Handshake): KeyPair {
    var first, second := Hkdf(hs.chainKey, [], 1), Hkdf(hs.chainKey, [], 2);
    if hs.state == ResponseConsumed
    then KeyPair(first, second, true, hs.localIndex, hs.remoteIndex)
    else KeyPair(second, first, false, hs.localIndex, hs.remoteIndex)
  }

  function DeletePair(t: Table, pairs: seq<KeyPair>, slot: Option<nat>): Table {
    if slot.Some? && slot.value < |pairs| then Deleted(t, pairs[slot.value].localIndex) else t
  }

  // The handshake keeps its hash and its remote keys; its secrets and its index are gone.
  function Spent(hs: Handshake): Handshake {
    hs.(chainKey := Zero, localEphemeral := Zero, state := Zeroed, localIndex := 0)
  }

  // Where the new pair number `n` goes.
  function Rotated(s: Slots, n: nat, isInitiator: bool): Slots {
    if !isInitiator then s.(next := Some(n), previous := None)
    else if s.next.Some? then s.(previous := s.next, next := Some(n))
    else s.(previous := s.current, current := Some(n))
  }

  function NewKeyPair(d: Device): Option<Device> {
    if d.hs.state != ResponseConsumed && d.hs.state != ResponseCreated then None
    else
      var pair := DerivedPair(d.hs);
      var pairs := d.pairs + [pair];
      var table := d.table[d.hs.localIndex := KeyPairEntry(|d.pairs|)];
      Some(d.(
        hs := Spent(d.hs),
        pairs := pairs,
        table := if pair.isInitiator then DeletePair(table, pairs, d.slots.previous) else table,
        slots := Rotated(d.slots, |d.pairs|, pair.isInitiator)))
  }

  // ----- The steps of a device, each message handled as one step.

  // Answers an initiation that was consumed.
  function Respond(d: Device, e: Term, index: nat): Option<(Device, MessageResponse)> {
    match CreateResponse(d, e, index)
    case None => None
    case Some((d1, response)) =>
      match NewKeyPair(d1)
      case None => None
      case Some(d2) => Some((d2, response))
  }

  function HandleInitiation(d: Device, msg: MessageInitiation, e: Term, index: nat, checked: int, stored: int)
    : Option<(Device, MessageResponse)>
  {
    match ConsumeInitiation(d, msg, checked, stored)
    case None => None
    case Some(d1) => Respond(d1, e, index)
  }

  function HandleResponse(d: Device, msg: MessageResponse): Option<Device> {
    match ConsumeResponse(d, msg)
    case None => None
    case Some(d1) => NewKeyPair(d1)
  }

  // A packet sealed under pair `n` was opened and passed the replay check.
  function ReceivePacket(d: Device, n: nat): Device {
    if d.slots.next == Some(n)
    then d.(table := DeletePair(d.table, d.pairs, d.slots.previous),
            slots := Slots(d.slots.current, d.slots.next, None))
    else d
  }

  function WithoutPairs(d: Device): Table {
    DeletePair(DeletePair(DeletePair(d.table, d.pairs, d.slots.previous), d.pairs, d.slots.current),
               d.pairs, d.slots.next)
  }

  // The timer that erases all key material; it leaves the handshake's state as it is.
  function ZeroAllKeys(d: Device): Device {
    d.(slots := EMPTY_SLOTS,
       table := Deleted(WithoutPairs(d), d.hs.localIndex),
       hs := d.hs.(localIndex := 0, localEphemeral := Zero, remoteEphemeral := Zero, chainKey := Zero, hash := Zero))
  }
}
