/** The handshake pattern IKpsk2 as the Noise Protocol Framework (revision 34) defines it, token by token,
    and what the messages of `controller/noise_protocol.go` have to do with it. */
module NoiseFramework {
  import opened Wrappers
  import opened Symbolic
  import opened NoiseHelpers
  import Noise
  import Tai64

  // ----- Section 5.1 and 5.2: the cipher state and the symmetric state.

  datatype Symmetric = Symmetric(ck: Term, h: Term, k: Option<Term>, n: nat)

  // A name longer than a hash is hashed.
  function InitializeSymmetric(name: Term): Symmetric {
    Symmetric(Hash([name]), Hash([name]), None, 0)
  }

  function MixHash(y: Symmetric, data: Chunks): (r: Symmetric)
    ensures |data| == 1 ==> r == y.(h := Hash([y.h, data[0]]))
  {
    assert |data| == 1 ==> [y.h] + data == [y.h, data[0]];
    y.(h := Hash([y.h] + data))
  }

  function MixKey(y: Symmetric, input: Term): Symmetric {
    y.(ck := Hkdf(y.ck, [input], 1), k := Some(Hkdf(y.ck, [input], 2)), n := 0)
  }

  function MixKeyAndHash(y: Symmetric, input: Term): Symmetric {
    var mixed := MixHash(y.(ck := Hkdf(y.ck, [input], 1)), [Hkdf(y.ck, [input], 2)]);
    mixed.(k := Some(Hkdf(y.ck, [input], 3)), n := 0)
  }

  function Nonce(n: nat): Term { if n == 0 then Zero else Byte(n) }

  function EncryptAndHash(y: Symmetric, plaintext: Chunks): (Symmetric, Chunks) {
    match y.k
    case None => (MixHash(y, plaintext), plaintext)
    case Some(key) =>
      var box := [Sealed(key, Nonce(y.n), plaintext, [y.h])];
      (MixHash(y.(n := y.n + 1), box), box)
  }

  function DecryptAndHash(y: Symmetric, data: Chunks): Option<(Symmetric, Chunks)> {
    match y.k
    case None => Some((MixHash(y, data), data))
    case Some(key) =>
      if |data| != 1 then None
      else
        match Open(key, Nonce(y.n), data[0], [y.h])
        case None => None
        case Some(plaintext) => Some((MixHash(y.(n := y.n + 1), data), plaintext))
  }

  // The keys from the initiator to the responder and back.
  function Split(y: Symmetric): (Term, Term) {
    (Hkdf(y.ck, [], 1), Hkdf(y.ck, [], 2))
  }

  // ----- Section 5.3 and, for the preshared key, section 9: the handshake state.

  datatype Token = E | S | EE | ES | SE | SS | PSK

  // `s` and `e` are private keys, `rs` and `re` the public keys of the other party.
  datatype State = State(y: Symmetric, initiator: bool, s: Term, e: Term, rs: Term, re: Term, psk: Term)

  function Secret(st: State, t: Token): Term {
    match t
    case EE => SharedSecret(st.e, st.re)
    case ES => if st.initiator then SharedSecret(st.e, st.rs) else SharedSecret(st.s, st.re)
    case SE => if st.initiator then SharedSecret(st.s, st.re) else SharedSecret(st.e, st.rs)
    case _ => SharedSecret(st.s, st.rs)
  }

  // What a token that sends nothing does.
  function MixToken(st: State, t: Token): State {
    if t.PSK? then st.(y := MixKeyAndHash(st.y, st.psk)) else st.(y := MixKey(st.y, Secret(st, t)))
  }

  // With a preshared key in the pattern, an ephemeral key is also mixed into the chain key.
  function MixEphemeral(y: Symmetric, key: Term): Symmetric {
    MixKey(MixHash(y, [key]), key)
  }

  // The message fields that are written; `e` was drawn before.
  function WriteToken(st: State, t: Token): (State, seq<Chunks>) {
    match t
    case E => (st.(y := MixEphemeral(st.y, PublicKey(st.e))), [[PublicKey(st.e)]])
    case S =>
      var (y, box) := EncryptAndHash(st.y, [PublicKey(st.s)]);
      (st.(y := y), [box])
    case _ => (MixToken(st, t), [])
  }

  function WriteTokens(st: State, tokens: seq<Token>): (State, seq<Chunks>) {
    if tokens == [] then (st, [])
    else
      var (before, fields) := WriteTokens(st, tokens[..|tokens| - 1]);
      var (after, more) := WriteToken(before, tokens[|tokens| - 1]);
      (after, fields + more)
  }

  function WriteMessage(st: State, tokens: seq<Token>, payload: Chunks): (State, seq<Chunks>) {
    var (before, fields) := WriteTokens(st, tokens);
    var (y, box) := EncryptAndHash(before.y, payload);
    (before.(y := y), fields + [box])
  }

  // The state after a token is read, and how many fields it took.
  function ReadToken(st: State, t: Token, fields: seq<Chunks>, i: nat): Option<(State, nat)> {
    match t
    case E =>
      if i < |fields| && |fields[i]| == 1
      then Some((st.(re := fields[i][0], y := MixEphemeral(st.y, fields[i][0])), i + 1)) else None
    case S =>
      if i >= |fields| then None
      else
        (match DecryptAndHash(st.y, fields[i])
         case None => None
         case Some((y, plain)) => if |plain| == 1 then Some((st.(rs := plain[0], y := y), i + 1)) else None)
    case _ => Some((MixToken(st, t), i))
  }

  function ReadTokens(st: State, tokens: seq<Token>, fields: seq<Chunks>): Option<(State, nat)> {
    if tokens == [] then Some((st, 0))
    else
      match ReadTokens(st, tokens[..|tokens| - 1], fields)
      case None => None
      case Some((before, i)) => ReadToken(before, tokens[|tokens| - 1], fields, i)
  }

  function ReadMessage(st: State, tokens: seq<Token>, fields: seq<Chunks>): Option<(State, Chunks)> {
    match ReadTokens(st, tokens, fields)
    case None => None
    case Some((before, i)) =>
      if i + 1 != |fields| then None
      else
        match DecryptAndHash(before.y, fields[i])
        case None => None
        case Some((y, payload)) => Some((before.(y := y), payload))
  }

  // ----- The pattern of section 9.4 that the construction names: <- s; -> e, es, s, ss; <- e, ee, se, psk.

  const FIRST: seq<Token> := [E, ES, S, SS]
  const SECOND: seq<Token> := [E, EE, SE, PSK]

  // The prologue is the identifier; the initiator knows the responder's static key beforehand.
  function Initialize(initiator: bool, s: Term, e: Term, rs: Term, psk: Term): State {
    var y := MixHash(InitializeSymmetric(Text("Noise_IKpsk2_25519_ChaChaPoly_BLAKE2s")),
      [Text("BT LfYxehcmSfAQVzt3tiQSskuHbcS7o91")]);
    State(MixHash(y, [if initiator then rs else PublicKey(s)]), initiator, s, e, rs, Zero, psk)
  }

  // ----- Unfolding the two messages.

  lemma WriteOne(st: State, tokens: seq<Token>, t: Token)
    ensures var (before, fields) := WriteTokens(st, tokens); var (after, more) := WriteToken(before, t);
      WriteTokens(st, tokens + [t]) == (after, fields + more)
  {
    assert (tokens + [t])[..|tokens|] == tokens;
  }

  lemma WriteFour(st: State, t0: Token, t1: Token, t2: Token, t3: Token)
    ensures var (s0, f0) := WriteToken(st, t0); var (s1, f1) := WriteToken(s0, t1);
      var (s2, f2) := WriteToken(s1, t2); var (s3, f3) := WriteToken(s2, t3);
      WriteTokens(st, [t0, t1, t2, t3]) == (s3, f0 + f1 + f2 + f3)
  {
    WriteOne(st, [], t0);
    WriteOne(st, [t0], t1);
    WriteOne(st, [t0, t1], t2);
    WriteOne(st, [t0, t1, t2], t3);
    assert [] + [t0] == [t0] && [t0] + [t1] == [t0, t1] && [t0, t1] + [t2] == [t0, t1, t2];
    assert [t0, t1, t2] + [t3] == [t0, t1, t2, t3];
    var (s0, f0) := WriteToken(st, t0);
    assert [] + f0 == f0;
  }

  // ----- The messages of the code.

  // The handshake of the code holds what the state of the framework does.
  predicate Agrees(hs: Noise.Handshake, st: State) {
    hs.hash == st.y.h && hs.chainKey == st.y.ck
  }

  /** The initiation is the first message of the pattern, with the timestamp as payload. */
  lemma InitiationIsFirst(hs: Noise.Handshake, s: Term, e: Term, index: nat, stamp: Tai64.Bytes)
    requires hs.staticStatic == SharedSecret(s, hs.remoteStatic)
    ensures var (hs', msg) := Noise.SealInitiation(hs, e, index, PublicKey(s), stamp);
      var (st, fields) := WriteMessage(Initialize(true, s, e, hs.remoteStatic, hs.presharedKey), FIRST, [Stamp(stamp)]);
      && fields == [[msg.ephemeral], [msg.encStatic], [msg.encTimestamp]]
      && msg.typ == 1 && msg.sender == index
      && Agrees(hs', st) && hs'.localEphemeral == st.e
  {
    var st := Initialize(true, s, e, hs.remoteStatic, hs.presharedKey);
    WriteFour(st, E, ES, S, SS);
  }

  /** The response is the second, with an empty payload. */
  lemma ResponseIsSecond(hs: Noise.Handshake, st: State, e: Term, index: nat)
    requires Agrees(hs, st) && !st.initiator
    requires st.rs == hs.remoteStatic && st.re == hs.remoteEphemeral && st.psk == hs.presharedKey
    ensures var (hs', msg) := Noise.SealResponse(hs, e, index);
      var (st', fields) := WriteMessage(st.(e := e), SECOND, []);
      && fields == [[msg.ephemeral], [msg.empty]]
      && msg.typ == 2 && msg.sender == index && msg.receiver == hs.remoteIndex
      && Agrees(hs', st') && hs'.localEphemeral == e
  {
    WriteFour(st.(e := e), E, EE, SE, PSK);
  }

  lemma ReadOne(st: State, tokens: seq<Token>, t: Token, fields: seq<Chunks>)
    ensures ReadTokens(st, tokens + [t], fields) ==
      match ReadTokens(st, tokens, fields)
      case None => None
      case Some((before, i)) => ReadToken(before, t, fields, i)
  {
    assert (tokens + [t])[..|tokens|] == tokens;
  }

  // The state before the sealed static key of an initiation is opened.
  function BeforeStatic(s: Term, rs: Term, psk: Term, msg: Noise.MessageInitiation): State {
    var st := Initialize(false, s, Zero, rs, psk).(re := msg.ephemeral);
    MixToken(st.(y := MixEphemeral(st.y, msg.ephemeral)), ES)
  }

  function FieldsOf(msg: Noise.MessageInitiation): seq<Chunks> {
    [[msg.ephemeral], [msg.encStatic], [msg.encTimestamp]]
  }

  lemma ReadToStatic(s: Term, rs: Term, psk: Term, msg: Noise.MessageInitiation)
    ensures ReadTokens(Initialize(false, s, Zero, rs, psk), [E, ES], FieldsOf(msg)) ==
      Some((BeforeStatic(s, rs, psk, msg), 1))
  {
    var st, fields := Initialize(false, s, Zero, rs, psk), FieldsOf(msg);
    ReadOne(st, [], E, fields);
    ReadOne(st, [E], ES, fields);
    assert [] + [E] == [E] && [E] + [ES] == [E, ES];
  }

  // What the sealed static key of an initiation opens to.
  function StaticIn(s: Term, rs: Term, psk: Term, msg: Noise.MessageInitiation): Option<Chunks> {
    var y := BeforeStatic(s, rs, psk, msg).y;
    Open(y.k.value, Zero, msg.encStatic, [y.h])
  }

  // The framework's reading of an initiation, from the timestamp's key on.
  lemma ReadFirst(s: Term, rs: Term, psk: Term, msg: Noise.MessageInitiation)
    ensures var rd := ReadMessage(Initialize(false, s, Zero, rs, psk), FIRST, FieldsOf(msg));
      var st := BeforeStatic(s, rs, psk, msg);
      match StaticIn(s, rs, psk, msg)
      case None => rd == None
      case Some(plain) =>
        if |plain| != 1 then rd == None
        else
          var st' := MixToken(st.(rs := plain[0], y := MixHash(st.y.(n := 1), [msg.encStatic])), SS);
          rd == match DecryptAndHash(st'.y, [msg.encTimestamp])
                case None => None
                case Some((y, payload)) => Some((st'.(y := y), payload))
  {
    var st, fields := Initialize(false, s, Zero, rs, psk), FieldsOf(msg);
    ReadToStatic(s, rs, psk, msg);
    ReadOne(st, [E, ES], S, fields);
    ReadOne(st, [E, ES, S], SS, fields);
    assert [E, ES] + [S] == [E, ES, S] && [E, ES, S] + [SS] == FIRST;
  }

  // A timestamp and nothing else.
  predicate IsStamp(payload: Chunks) {
    |payload| == 1 && payload[0].Stamp? && |payload[0].bytes| == 12
  }

  // Both transcripts, before the sealed static key and, where that is the configured one, after it.
  lemma SameTranscript(s: Term, rs: Term, psk: Term, msg: Noise.MessageInitiation)
    ensures var t1 := Noise.AfterEphemeral(PublicKey(s), msg.ephemeral, SharedSecret(s, msg.ephemeral));
      var t2 := Noise.AfterStatic(t1, msg.encStatic, SharedSecret(s, rs));
      var st := BeforeStatic(s, rs, psk, msg);
      && st.y == Symmetric(t1.chainKey, t1.hash, Some(t1.key), 0)
      && MixToken(st.(rs := rs, y := MixHash(st.y.(n := 1), [msg.encStatic])), SS).y
        == Symmetric(t2.chainKey, t2.hash, Some(t2.key), 0)
  {
  }

  /** The code opens an initiation that carries the configured static key exactly if the framework reads it
      with that key and a timestamp as payload, and both end in the same state. */
  lemma InitiationIsRead(s: Term, rs: Term, psk: Term, msg: Noise.MessageInitiation)
    ensures var mine := Noise.OpenInitiation(s, PublicKey(s), SharedSecret(s, rs), msg);
      var rd := ReadMessage(Initialize(false, s, Zero, rs, psk), FIRST, FieldsOf(msg));
      && (mine.Some? && StaticIn(s, rs, psk, msg) == Some([rs]) <==>
            msg.typ == 1 && rd.Some? && rd.value.0.rs == rs && IsStamp(rd.value.1))
      && (mine.Some? && rd.Some? && rd.value.0.rs == rs ==>
            var ((t, stamp), (st, payload)) := (mine.value, rd.value);
            && payload == [Stamp(stamp)] && st.re == msg.ephemeral
            && st.y.ck == t.chainKey && st.y.h == Noise.MixHash(t.hash, msg.encTimestamp))
  {
    ReadFirst(s, rs, psk, msg);
    SameTranscript(s, rs, psk, msg);
    match StaticIn(s, rs, psk, msg)
    case None =>
    case Some(plain) =>
      if |plain| == 1 {
        assert plain == [plain[0]];
        if plain[0] == rs { PayloadIsStamp(s, rs, msg); }
      }
  }

  lemma PayloadIsStamp(s: Term, rs: Term, msg: Noise.MessageInitiation)
    ensures var t1 := Noise.AfterEphemeral(PublicKey(s), msg.ephemeral, SharedSecret(s, msg.ephemeral));
      var t2 := Noise.AfterStatic(t1, msg.encStatic, SharedSecret(s, rs));
      var plain := Open(t2.key, Zero, msg.encTimestamp, [t2.hash]);
      var mine := Noise.OpenInitiation(s, PublicKey(s), SharedSecret(s, rs), msg);
      && (mine.Some? <==> msg.typ == 1 && Open(t1.key, Zero, msg.encStatic, [t1.hash]).Some?
                          && plain.Some? && IsStamp(plain.value))
      && (mine.Some? ==> mine.value.0 == t2 && plain.value == [Stamp(mine.value.1)])
  {
  }

  /** The condition is needed: the code opens the sealed static key and does not look at it. */
  lemma AnyStaticKeyOpens(
      hs: Noise.Handshake, x: nat, y: nat, e: nat, index: nat, carried: Term, stamp: Tai64.Bytes, psk: Term)
    requires hs.remoteStatic == Public(y) && hs.staticStatic == SharedSecret(Scalar(x), Public(y)) && |stamp| == 12
    ensures var msg := Noise.SealInitiation(hs, Scalar(e), index, carried, stamp).1;
      && Noise.OpenInitiation(Scalar(y), Public(y), SharedSecret(Scalar(y), Public(x)), msg).Some?
      && StaticIn(Scalar(y), Public(x), psk, msg) == Some([carried])
  {
    SecretsMeet(e, y);
    SecretsMeet(x, y);
  }

  lemma ReadSecond(st: State, msg: Noise.MessageResponse)
    ensures var mixed := MixToken(MixToken(MixToken(
        st.(re := msg.ephemeral, y := MixEphemeral(st.y, msg.ephemeral)), EE), SE), PSK);
      ReadMessage(st, SECOND, [[msg.ephemeral], [msg.empty]]) ==
        match DecryptAndHash(mixed.y, [msg.empty])
        case None => None
        case Some((y, payload)) => Some((mixed.(y := y), payload))
  {
    var fields := [[msg.ephemeral], [msg.empty]];
    ReadOne(st, [], E, fields);
    ReadOne(st, [E], EE, fields);
    ReadOne(st, [E, EE], SE, fields);
    ReadOne(st, [E, EE, SE], PSK, fields);
    assert [] + [E] == [E] && [E] + [EE] == [E, EE] && [E, EE] + [SE] == [E, EE, SE] && [E, EE, SE] + [PSK] == SECOND;
  }

  /** The code accepts a response exactly if the framework reads it, and both end in the same state. */
  lemma ResponseIsRead(hs: Noise.Handshake, st: State, msg: Noise.MessageResponse)
    requires Agrees(hs, st) && st.initiator && hs.state == Noise.InitiationCreated
    requires st.e == hs.localEphemeral && st.psk == hs.presharedKey
    ensures var consumed := Noise.ConsumedResponse(hs, st.s, msg);
      var rd := ReadMessage(st, SECOND, [[msg.ephemeral], [msg.empty]]);
      && (consumed.Some? <==> rd.Some?)
      && (consumed.Some? ==> Agrees(consumed.value, rd.value.0) && consumed.value.remoteIndex == msg.sender)
  {
    ReadSecond(st, msg);
  }

  /** And the keys of the pair are those the framework splits off: the first for what the initiator sends. */
  lemma PairIsSplit(hs: Noise.Handshake, st: State)
    requires Agrees(hs, st)
    ensures var (pair, (first, second)) := (Noise.DerivedPair(hs), Split(st.y));
      && pair.isInitiator == hs.state.ResponseConsumed?
      && pair.send == (if pair.isInitiator then first else second)
      && pair.receive == (if pair.isInitiator then second else first)
  {
  }
}
