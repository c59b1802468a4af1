/** One exchange between two devices: both ends compute the same transcript, and the key pairs they derive
    mirror each other. */
module Agreement {
  import opened Wrappers
  import opened Symbolic
  import NoiseHelpers
  import IndexTables
  import opened Noise
  import Tai64

  // What one side sends the other opens.
  predicate MirrorKeys(a: KeyPair, b: KeyPair) {
    a.isInitiator && !b.isInitiator && a.send == b.receive && a.receive == b.send
  }

  // And each addresses the other's index.
  predicate Mirror(a: KeyPair, b: KeyPair) {
    MirrorKeys(a, b) && a.localIndex == b.remoteIndex && a.remoteIndex == b.localIndex
  }

  // ----- One exchange.

  lemma SameKeySameTranscript(h: Term, c: Term, ephemeral: Term, ee: Term, se: Term, psk: Term,
                              h': Term, c': Term, ephemeral': Term, ee': Term, se': Term, psk': Term)
    requires AfterResponseKeys(h, c, ephemeral, ee, se, psk).key ==
      AfterResponseKeys(h', c', ephemeral', ee', se', psk').key
    ensures AfterResponseKeys(h, c, ephemeral, ee, se, psk).chainKey ==
      AfterResponseKeys(h', c', ephemeral', ee', se', psk').chainKey
  {
    var k := MixKey(MixKey(MixKey(c, ephemeral), ee), se);
    var k' := MixKey(MixKey(MixKey(c', ephemeral'), ee'), se');
    NoiseHelpers.HkdfInjective(k, [psk], 3, k', [psk'], 3);
  }

  // An initiator that accepts a box which a peer sealed in a response ends with that peer's hash and
  // chain key, whatever else the message it came in says, and derives the mirrored keys.
  lemma ResponseAgreement(a: Handshake, privateKey: Term, m: MessageResponse, b: Handshake, e: Term, index: nat)
    requires ConsumedResponse(a, privateKey, m).Some?
    requires m.empty == SealResponse(b, e, index).1.empty
    ensures var a' := ConsumedResponse(a, privateKey, m).value; var (b', sealed) := SealResponse(b, e, index);
      && a'.hash == b'.hash && a'.chainKey == b'.chainKey
      && a.hash == b.hash && m.ephemeral == sealed.ephemeral
      && DerivedPair(a').send == DerivedPair(b').receive && DerivedPair(a').receive == DerivedPair(b').send
  {
    var ephemeral := PublicKey(e);
    SameKeySameTranscript(
      a.hash, a.chainKey, m.ephemeral, SharedSecret(a.localEphemeral, m.ephemeral),
      SharedSecret(privateKey, m.ephemeral), a.presharedKey,
      b.hash, b.chainKey, ephemeral, SharedSecret(e, b.remoteEphemeral), SharedSecret(e, b.remoteStatic),
      b.presharedKey);
  }

  // Two devices configured for each other.
  predicate Configured(a: Device, b: Device, x: nat, y: nat) {
    && a.privateKey == Scalar(x) && a.publicKey == Public(x) && a.hs.remoteStatic == Public(y)
    && b.privateKey == Scalar(y) && b.publicKey == Public(y) && b.hs.remoteStatic == Public(x)
    && a.hs.staticStatic == SharedSecret(Scalar(x), Public(y))
    && b.hs.staticStatic == SharedSecret(Scalar(y), Public(x))
    && a.hs.presharedKey == b.hs.presharedKey
  }

  // The responder recovers the initiator's transcript and timestamp.
  lemma InitiationOpens(a: Device, b: Device, x: nat, y: nat, e: nat, index: nat, stamp: Tai64.Bytes)
    requires Configured(a, b, x, y) && |stamp| == Tai64.TAI64N_SIZE
    ensures var (hs, msg) := SealInitiation(a.hs, Scalar(e), index, a.publicKey, stamp);
      var r := OpenInitiation(b.privateKey, b.publicKey, b.hs.staticStatic, msg);
      && r.Some? && r.value.1 == stamp
      && hs.hash == MixHash(r.value.0.hash, msg.encTimestamp) && hs.chainKey == r.value.0.chainKey
  {
    SecretsMeet(e, y);
    SecretsMeet(x, y);
  }

  // The initiator recovers the responder's transcript.
  lemma ResponseOpens(a: Handshake, b: Handshake, x: nat, e: nat, f: nat, index: nat)
    requires a.state == InitiationCreated && a.localEphemeral == Scalar(e)
    requires a.hash == b.hash && a.chainKey == b.chainKey && a.presharedKey == b.presharedKey
    requires b.remoteEphemeral == Public(e) && b.remoteStatic == Public(x)
    ensures ConsumedResponse(a, Scalar(x), SealResponse(b, Scalar(f), index).1).Some?
  {
  }

  // What handling an accepted initiation comes to.
  lemma AnswerIs(b: Device, msg: MessageInitiation, f: Term, j: nat, checked: int, stored: int)
    requires ConsumedInitiation(b.hs, b.privateKey, b.publicKey, msg, checked, stored).Some?
    ensures var hs := ConsumedInitiation(b.hs, b.privateKey, b.publicKey, msg, checked, stored).value;
      var r := HandleInitiation(b, msg, f, j, checked, stored);
      && r.Some? && r.value.1 == SealResponse(hs, f, j).1
      && r.value.0.pairs == b.pairs + [DerivedPair(SealResponse(hs, f, j).0)]
  {
  }

  // What handling an accepted response comes to.
  lemma CompletionIs(a: Device, m: MessageResponse)
    requires m.typ == RESPONSE_TYPE && m.receiver in a.table && a.table[m.receiver] == IndexTables.HandshakeEntry
    requires ConsumedResponse(a.hs, a.privateKey, m).Some?
    ensures var hs := ConsumedResponse(a.hs, a.privateKey, m).value; var r := HandleResponse(a, m);
      r.Some? && r.value.pairs == a.pairs + [DerivedPair(hs)]
  {
  }

  // The responder's handshake after it accepts an initiation sealed for it.
  lemma Accepts(a: Device, b: Device, x: nat, y: nat, e: nat, i: nat, stamp: Tai64.Bytes, checked: int, stored: int)
    requires Configured(a, b, x, y) && |stamp| == Tai64.TAI64N_SIZE && Timely(b.hs, stamp, checked)
    ensures var (hs, msg) := SealInitiation(a.hs, Scalar(e), i, a.publicKey, stamp);
      var r := ConsumedInitiation(b.hs, b.privateKey, b.publicKey, msg, checked, stored);
      && r.Some? && r.value.hash == hs.hash && r.value.chainKey == hs.chainKey
      && r.value.remoteEphemeral == Public(e) && r.value.remoteIndex == i
      && r.value.remoteStatic == b.hs.remoteStatic && r.value.presharedKey == b.hs.presharedKey
  {
    InitiationOpens(a, b, x, y, e, i, stamp);
  }

  // The exchange of one initiation and one response ends in mirrored pairs on both sides.
  predicate Completes(
      a: Device, b: Device, e: nat, f: nat, i: nat, j: nat, stamp: Tai64.Bytes, checked: int, stored: int) {
    match CreateInitiation(a, Scalar(e), i, stamp)
    case (_, None) => false
    case (a1, Some(msg)) =>
      match HandleInitiation(b, msg, Scalar(f), j, checked, stored)
      case None => false
      case Some((b1, response)) =>
        match HandleResponse(a1, response)
        case None => false
        case Some(a2) =>
          && |a2.pairs| == |a.pairs| + 1 && |b1.pairs| == |b.pairs| + 1
          && Mirror(a2.pairs[|a.pairs|], b1.pairs[|b.pairs|])
  }

  // Left alone, a handshake completes: the responder accepts the initiation, the initiator accepts the
  // response, and the two key pairs mirror each other.
  lemma HandshakeCompletes(a: Device, b: Device, x: nat, y: nat, e: nat, f: nat, i: nat, j: nat,
                           stamp: Tai64.Bytes, checked: int, stored: int)
    requires Configured(a, b, x, y) && |stamp| == Tai64.TAI64N_SIZE && Timely(b.hs, stamp, checked)
    ensures Completes(a, b, e, f, i, j, stamp, checked, stored)
  {
    var (hs, msg) := SealInitiation(a.hs, Scalar(e), i, a.publicKey, stamp);
    Accepts(a, b, x, y, e, i, stamp, checked, stored);
    var b0 := ConsumedInitiation(b.hs, b.privateKey, b.publicKey, msg, checked, stored).value;
    var (b1, response) := SealResponse(b0, Scalar(f), j);
    ResponseOpens(hs, b0, x, e, f, j);
    ResponseAgreement(hs, Scalar(x), response, b0, Scalar(f), j);
    AnswerIs(b, msg, Scalar(f), j, checked, stored);
    var a1 := CreateInitiation(a, Scalar(e), i, stamp).0;
    assert a1.hs == hs && a1.table[i] == IndexTables.HandshakeEntry;
    CompletionIs(a1, response);
  }
}
