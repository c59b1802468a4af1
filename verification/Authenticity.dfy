/** The network as an adversary that knows every message, every private key but the static ones, and
    whatever can be computed from these: it still makes no handshake box and no packet that a device
    would accept. */
module Authenticity {
  import opened Wrappers
  import opened Symbolic
  import NoiseHelpers
  import opened Noise
  import opened PeerRuns
  import opened KeyRuns
  import Agreement
  import opened Sessions
  import Tai64

  // ----- What can be computed.

  predicate Atom(t: Term, x: nat, y: nat) {
    || t.Zero? || t.Text? || t.Byte? || t.Stamp? || t.Secret? || t.Public?
    || (t.Scalar? && t.id != x && t.id != y)
  }

  // Computed in `n` rounds from the boxes on the network: `x` and `y` are the static private keys.
  ghost predicate Derives(n: nat, x: nat, y: nat, boxes: set<Term>, t: Term) {
    if n == 0 then t in boxes || Atom(t, x, y)
    else
      || Derives(n - 1, x, y, boxes, t)
      || (t.Hash? && forall d <- t.data :: Derives(n - 1, x, y, boxes, d))
      || (t.Hmac? && Derives(n - 1, x, y, boxes, t.key) && forall d <- t.data :: Derives(n - 1, x, y, boxes, d))
      || (t.Mac? && Derives(n - 1, x, y, boxes, t.key) && forall d <- t.data :: Derives(n - 1, x, y, boxes, d))
      || (t.Sealed? && Derives(n - 1, x, y, boxes, t.key) && Derives(n - 1, x, y, boxes, t.nonce)
          && (forall d <- t.plaintext :: Derives(n - 1, x, y, boxes, d))
          && (forall d <- t.ad :: Derives(n - 1, x, y, boxes, d)))
      || (exists sk, pk ::
            Derives(n - 1, x, y, boxes, sk) && Derives(n - 1, x, y, boxes, pk) && t == SharedSecret(sk, pk))
      || (exists sk :: Derives(n - 1, x, y, boxes, sk) && t == PublicKey(sk))
      || (exists box ::
            && Derives(n - 1, x, y, boxes, box) && box.Sealed? && Derives(n - 1, x, y, boxes, box.key)
            && t in box.plaintext)
  }

  ghost predicate Derivable(x: nat, y: nat, boxes: set<Term>, t: Term) {
    exists n: nat :: Derives(n, x, y, boxes, t)
  }

  // ----- What cannot: nothing made with the secret of the two static keys.

  predicate IsStaticSecret(t: Term, x: nat, y: nat) {
    t == SharedSecret(Scalar(x), Public(y))
  }

  // No part is a static private key or their secret, the insides of boxes that were sent aside.
  predicate Clean(t: Term, x: nat, y: nat, boxes: set<Term>) {
    match t
    case Scalar(i) => i != x && i != y
    case Shared(_, _) => !IsStaticSecret(t, x, y)
    case SharedOther(sk, pk) => Clean(sk, x, y, boxes) && Clean(pk, x, y, boxes)
    case Hash(data) => forall d <- data :: Clean(d, x, y, boxes)
    case Hmac(key, data) => Clean(key, x, y, boxes) && forall d <- data :: Clean(d, x, y, boxes)
    case Mac(key, data) => Clean(key, x, y, boxes) && forall d <- data :: Clean(d, x, y, boxes)
    case Sealed(key, nonce, plaintext, ad) =>
      t in boxes || (Clean(key, x, y, boxes) && forall d <- plaintext :: Clean(d, x, y, boxes))
    case _ => true
  }

  // The boxes that were sent hold only what anyone knows.
  predicate OpenInside(x: nat, y: nat, boxes: set<Term>) {
    forall b <- boxes :: b.Sealed? && forall d <- b.plaintext :: Atom(d, x, y)
  }

  lemma ExchangeIsClean(x: nat, y: nat, boxes: set<Term>, sk: Term, pk: Term)
    requires Clean(sk, x, y, boxes) && Clean(pk, x, y, boxes)
    ensures Clean(SharedSecret(sk, pk), x, y, boxes) && Clean(PublicKey(sk), x, y, boxes)
  {
  }

  lemma OpenedIsClean(x: nat, y: nat, boxes: set<Term>, box: Term, t: Term)
    requires OpenInside(x, y, boxes) && box.Sealed? && Clean(box, x, y, boxes) && t in box.plaintext
    ensures Clean(t, x, y, boxes)
  {
  }

  lemma {:induction false} DerivedIsClean(n: nat, x: nat, y: nat, boxes: set<Term>, t: Term)
    requires OpenInside(x, y, boxes) && Derives(n, x, y, boxes, t)
    ensures Clean(t, x, y, boxes)
  {
    if n > 0 {
      forall u | Derives(n - 1, x, y, boxes, u) ensures Clean(u, x, y, boxes) { DerivedIsClean(n - 1, x, y, boxes, u); }
      if sk, pk :| Derives(n - 1, x, y, boxes, sk) && Derives(n - 1, x, y, boxes, pk) && t == SharedSecret(sk, pk) {
        ExchangeIsClean(x, y, boxes, sk, pk);
      } else if sk :| Derives(n - 1, x, y, boxes, sk) && t == PublicKey(sk) {
        ExchangeIsClean(x, y, boxes, sk, sk);
      } else if box :|
          && Derives(n - 1, x, y, boxes, box) && box.Sealed? && Derives(n - 1, x, y, boxes, box.key)
          && t in box.plaintext {
        OpenedIsClean(x, y, boxes, box, t);
      }
    }
  }

  // What a clean term was derived from is clean.
  lemma CleanSalt(t: Term, x: nat, y: nat, boxes: set<Term>)
    requires Clean(t, x, y, boxes)
    ensures Clean(Salt(t), x, y, boxes) && forall d <- Mixed(t) :: Clean(d, x, y, boxes)
  {
  }

  // ----- Every secret of a handshake was made with the two static keys.

  ghost predicate StaticOk(w: World) {
    && w.d.hs.staticStatic == SharedSecret(w.d.privateKey, w.d.hs.remoteStatic)
    && (Pending(w.d) ==> Mixed(w.d.hs.chainKey) == [w.d.hs.staticStatic])
    && forall n :: 0 <= n < |w.d.pairs| ==> PairStatic(w.d, w.d.pairs[n])
  }

  predicate PairStatic(d: Device, pair: KeyPair) {
    Mixed(InitiationChain(ChainOf(pair))) == [d.hs.staticStatic]
  }

  lemma StepKeepsStatic(w: World, a: Action)
    ensures var d := Step(w, a).d;
      d.hs.staticStatic == w.d.hs.staticStatic && d.privateKey == w.d.privateKey &&
        d.hs.remoteStatic == w.d.hs.remoteStatic
  {
  }

  lemma SealedStatic(hs: Handshake, e: Term, index: nat, publicKey: Term, stamp: Tai64.Bytes)
    ensures Mixed(SealInitiation(hs, e, index, publicKey, stamp).0.chainKey) == [hs.staticStatic]
  {
  }

  lemma ConsumedStatic(d: Device, msg: MessageInitiation, checked: int, stored: int)
    requires ConsumeInitiation(d, msg, checked, stored).Some?
    ensures Mixed(ConsumeInitiation(d, msg, checked, stored).value.hs.chainKey) == [d.hs.staticStatic]
  {
  }

  lemma AnsweredStatic(d: Device, msg: MessageInitiation, e: Term, index: nat, checked: int, stored: int)
    requires HandleInitiation(d, msg, e, index, checked, stored).Some?
    ensures var d' := HandleInitiation(d, msg, e, index, checked, stored).value.0;
      && |d'.pairs| == |d.pairs| + 1 && d'.pairs[..|d.pairs|] == d.pairs && d'.hs.state == Zeroed
      && PairStatic(d, d'.pairs[|d.pairs|])
  {
    ConsumedChain(d, msg, checked, stored);
    ConsumedStatic(d, msg, checked, stored);
    RespondedPair(ConsumeInitiation(d, msg, checked, stored).value, e, index);
  }

  lemma StepKeepsStaticOk(w: World, a: Action)
    requires Inv(w) && StaticOk(w) && Possible(w, a)
    ensures StaticOk(Step(w, a))
  {
    StepKeepsStatic(w, a);
    match a
    case Initiate(e, index, stamp) => SealedStatic(w.d.hs, Scalar(e), index, w.d.publicKey, stamp);
    case OnInitiation(msg, e, index, checked, stored) =>
      if HandleInitiation(w.d, msg, Scalar(e), index, checked, stored).Some? {
        AnsweredStatic(w.d, msg, Scalar(e), index, checked, stored);
        NewPairStatic(w, Step(w, a));
      }
    case OnResponse(m) =>
      if HandleResponse(w.d, m).Some? {
        ResponseCompletesLatest(w.d, m);
        InitiatedPair(w.d, m);
        NewPairStatic(w, Step(w, a));
      }
    case _ =>
  }

  lemma NewPairStatic(w: World, w': World)
    requires StaticOk(w) && !Pending(w'.d) && w'.d.hs.staticStatic == w.d.hs.staticStatic
    requires w'.d.privateKey == w.d.privateKey && w'.d.hs.remoteStatic == w.d.hs.remoteStatic
    requires |w'.d.pairs| == |w.d.pairs| + 1 && w'.d.pairs[..|w.d.pairs|] == w.d.pairs
    requires PairStatic(w.d, w'.d.pairs[|w.d.pairs|])
    ensures StaticOk(w')
  {
    forall n | 0 <= n < |w'.d.pairs| ensures PairStatic(w'.d, w'.d.pairs[n]) {
      assert n < |w.d.pairs| ==> w'.d.pairs[..|w.d.pairs|][n] == w'.d.pairs[n] && PairStatic(w.d, w.d.pairs[n]);
    }
  }

  // ----- So no one else has the keys.

  lemma StaticSecretIsNot(x: nat, y: nat, boxes: set<Term>)
    requires x != y
    ensures !Clean(SharedSecret(Scalar(x), Public(y)), x, y, boxes)
    ensures !Clean(SharedSecret(Scalar(y), Public(x)), x, y, boxes)
  {
  }

  // Whose keys they are: both orders of the two devices compute the same secret.
  ghost predicate Partner(w: World, self: nat, x: nat, y: nat) {
    && StaticOk(w) && (self == x || self == y)
    && w.d.privateKey == Scalar(self) && w.d.hs.remoteStatic == Public(if self == x then y else x)
  }

  lemma KeysAreSecret(w: World, self: nat, x: nat, y: nat, boxes: set<Term>, n: nat)
    requires x != y && Partner(w, self, x, y) && KeysOwn(w) && n < |w.d.pairs|
    ensures !Clean(w.d.pairs[n].receive, x, y, boxes) && !Clean(w.d.pairs[n].send, x, y, boxes)
  {
    var pair := w.d.pairs[n];
    assert PairOk(w.d, w.used, pair) && PairStatic(w.d, pair);
    ChainIsSecret(w, self, x, y, boxes, pair);
    if Clean(pair.receive, x, y, boxes) { CleanSalt(pair.receive, x, y, boxes); }
    if Clean(pair.send, x, y, boxes) { CleanSalt(pair.send, x, y, boxes); }
  }

  lemma ChainIsSecret(w: World, self: nat, x: nat, y: nat, boxes: set<Term>, pair: KeyPair)
    requires x != y && Partner(w, self, x, y) && PairStatic(w.d, pair)
    ensures !Clean(ChainOf(pair), x, y, boxes)
  {
    StaticSecretIsNot(x, y, boxes);
    assert w.d.hs.staticStatic in Mixed(InitiationChain(ChainOf(pair)));
    if Clean(ChainOf(pair), x, y, boxes) {
      CleanChain(ChainOf(pair), x, y, boxes);
      CleanSalt(InitiationChain(ChainOf(pair)), x, y, boxes);
    }
  }

  lemma CleanChain(c: Term, x: nat, y: nat, boxes: set<Term>)
    requires Clean(c, x, y, boxes)
    ensures Clean(InitiationChain(c), x, y, boxes)
  {
    CleanSalt(c, x, y, boxes);
    CleanSalt(Salt(c), x, y, boxes);
    CleanSalt(Salt(Salt(c)), x, y, boxes);
    CleanSalt(Salt(Salt(Salt(c))), x, y, boxes);
  }

  // Number of the output block that a derived key is.
  function BlockOf(key: Term): nat {
    if key.Hmac? && key.data != [] && key.data[|key.data| - 1].Byte? then key.data[|key.data| - 1].byte else 0
  }

  lemma BlockNumber(salt: Term, ikm: Chunks, n: nat)
    requires n >= 1
    ensures BlockOf(NoiseHelpers.Hkdf(salt, ikm, n)) == n
    ensures Mixed(NoiseHelpers.Hkdf(salt, ikm, n)) == ikm && Salt(NoiseHelpers.Hkdf(salt, ikm, n)) == salt
  {
  }

  // The key of a response extends the initiation's chain key.
  lemma ResponseKey(hash: Term, chainKey: Term, ephemeral: Term, ee: Term, se: Term, psk: Term)
    ensures var key := AfterResponseKeys(hash, chainKey, ephemeral, ee, se, psk).key;
      BlockOf(key) == 3 && Mixed(key) == [psk] && InitiationChain(key) == chainKey
  {
    var c3 := MixKey(MixKey(MixKey(chainKey, ephemeral), ee), se);
    BlockNumber(c3, [psk], 3);
  }

  lemma AcceptedBoxKey(w: World, m: MessageResponse)
    requires HandleResponse(w.d, m).Some?
    ensures m.empty.Sealed? && w.d.hs.state == InitiationCreated
    ensures BlockOf(m.empty.key) == 3 && InitiationChain(m.empty.key) == w.d.hs.chainKey
  {
    var d := w.d;
    ResponseKey(d.hs.hash, d.hs.chainKey, m.ephemeral, SharedSecret(d.hs.localEphemeral, m.ephemeral),
      SharedSecret(d.privateKey, m.ephemeral), d.hs.presharedKey);
  }

  // A response box that a device accepts and that can be computed is one that was sent.
  lemma AcceptedBoxWasSent(w: World, self: nat, x: nat, y: nat, boxes: set<Term>, m: MessageResponse)
    requires x != y && Consistent(w.d) && Partner(w, self, x, y) && OpenInside(x, y, boxes)
    requires HandleResponse(w.d, m).Some? && Derivable(x, y, boxes, m.empty)
    ensures m.empty in boxes
  {
    var n: nat :| Derives(n, x, y, boxes, m.empty);
    DerivedIsClean(n, x, y, boxes, m.empty);
    AcceptedBoxKey(w, m);
    ResponseCompletesLatest(w.d, m);
    StaticSecretIsNot(x, y, boxes);
    assert w.d.hs.staticStatic in Mixed(w.d.hs.chainKey);
    if Clean(m.empty.key, x, y, boxes) {
      CleanChain(m.empty.key, x, y, boxes);
      CleanSalt(w.d.hs.chainKey, x, y, boxes);
    }
  }

  // A packet that opens under a receiving key and that can be computed is one that was sent.
  lemma OpenedBoxWasSent(w: World, self: nat, x: nat, y: nat, boxes: set<Term>, n: nat, box: Term)
    requires x != y && Partner(w, self, x, y) && KeysOwn(w) && OpenInside(x, y, boxes) && n < |w.d.pairs|
    requires Derivable(x, y, boxes, box) && box.Sealed? && box.key == w.d.pairs[n].receive
    ensures box in boxes
  {
    var k: nat :| Derives(k, x, y, boxes, box);
    DerivedIsClean(k, x, y, boxes, box);
    KeysAreSecret(w, self, x, y, boxes, n);
  }

  // ----- Two devices and this network.

  datatype Wild = Wild(system: System, boxes: set<Term>)

  datatype WildMove = Act(party: bool, action: Action) | SendPacket(party: bool, nonce: nat, payload: string)

  function Tamed(move: WildMove): Move {
    match move
    case Act(p, action) => Sessions.Act(p, action)
    case SendPacket(p, _, _) => Sessions.SendPacket(p)
  }

  // A packet that opens under key pair `n` can be computed.
  ghost predicate CanForge(v: Wild, x: nat, y: nat, p: bool, n: nat) {
    n < |v.system.Party(p).d.pairs| &&
    exists box :: Derivable(x, y, v.boxes, box) && box.Sealed? && box.key == v.system.Party(p).d.pairs[n].receive
  }

  // Initiations may be anything at all; of a response the box, and of a packet the whole, must be
  // something the network can compute.
  ghost predicate CanMove(v: Wild, x: nat, y: nat, move: WildMove) {
    match move
    case Act(p, action) =>
      && Possible(v.system.Party(p), action)
      && (action.OnResponse? ==> Derivable(x, y, v.boxes, action.response.empty))
      && (action.OnPacket? ==> CanForge(v, x, y, p, action.pair))
    case SendPacket(p, _, _) => v.system.Party(p).d.slots.current.Some?
  }

  // The boxes that a move puts on the network.
  function NewBoxes(v: Wild, move: WildMove): set<Term> {
    match move
    case Act(p, Initiate(e, index, stamp)) =>
      (match CreateInitiation(v.system.Party(p).d, Scalar(e), index, stamp).1
       case None => {}
       case Some(msg) => {msg.encStatic, msg.encTimestamp})
    case Act(p, action) => set r | r in Answer(v.system.Party(p), p, action) :: r.msg.empty
    case SendPacket(p, nonce, payload) =>
      var d := v.system.Party(p).d;
      if d.slots.current.Some? && d.slots.current.value < |d.pairs|
      then {Sealed(d.pairs[d.slots.current.value].send, Byte(nonce), [Text(payload)], [])}
      else {}
  }

  function WildStep(v: Wild, move: WildMove): Wild {
    Wild(SystemStep(v.system, Tamed(move)), v.boxes + NewBoxes(v, move))
  }

  // Each box on the network is part of an initiation, a response, or a packet.
  predicate Explained(s: System, box: Term) {
    && box.Sealed?
    && (|| (BlockOf(box.key) == 2 && Mixed(box.key) != [])
        || (exists r <- s.responses :: r.msg.empty == box)
        || (exists k <- s.packets :: k.1 < |s.Party(k.0).d.pairs| && box.key == s.Party(k.0).d.pairs[k.1].send))
  }

  ghost predicate WildInv(v: Wild, x: nat, y: nat) {
    && SystemInv(v.system, x, y) && StaticOk(v.system.a) && StaticOk(v.system.b)
    && OpenInside(x, y, v.boxes) && forall b <- v.boxes :: Explained(v.system, b)
  }

  ghost predicate Partners(s: System, x: nat, y: nat) {
    Partner(s.a, x, x, y) && Partner(s.b, y, x, y)
  }

  lemma InvPartners(v: Wild, x: nat, y: nat)
    requires WildInv(v, x, y)
    ensures Partners(v.system, x, y)
  {
  }

  lemma SendingBlock(w: World, n: nat)
    requires KeysOwn(w) && n < |w.d.pairs|
    ensures Mixed(w.d.pairs[n].send) == Mixed(w.d.pairs[n].receive) == []
    ensures BlockOf(w.d.pairs[n].send) in {1, 2} && BlockOf(w.d.pairs[n].receive) in {1, 2}
  {
    var pair := w.d.pairs[n];
    assert PairOk(w.d, w.used, pair);
    BlockNumber(ChainOf(pair), [], 1);
    BlockNumber(ChainOf(pair), [], 2);
  }

  lemma SentBlock(r: Sent, w: World)
    requires SentOk(r, w)
    ensures r.msg.empty.Sealed? && BlockOf(r.msg.empty.key) == 3 && r.msg.empty.plaintext == []
  {
    var hs, e := r.sealedFrom, Scalar(r.e);
    ResponseKey(hs.hash, hs.chainKey, PublicKey(e), SharedSecret(e, hs.remoteEphemeral),
      SharedSecret(e, hs.remoteStatic), hs.presharedKey);
  }

  lemma AcceptedIsResponse(v: Wild, x: nat, y: nat, p: bool, m: MessageResponse)
    requires WildInv(v, x, y) && Derivable(x, y, v.boxes, m.empty) && HandleResponse(v.system.Party(p).d, m).Some?
    ensures exists r <- v.system.responses :: r.msg.empty == m.empty
  {
    var s := v.system;
    InvPartners(v, x, y);
    AcceptedBoxWasSent(s.Party(p), if p then y else x, x, y, v.boxes, m);
    AcceptedBoxKey(s.Party(p), m);
    ThirdBlock(s, x, y, m.empty);
  }

  // A box under a third block is neither part of an initiation nor of a packet.
  lemma ThirdBlock(s: System, x: nat, y: nat, box: Term)
    requires SystemInv(s, x, y) && Explained(s, box) && BlockOf(box.key) == 3
    ensures exists r <- s.responses :: r.msg.empty == box
  {
    if k :| k in s.packets && k.1 < |s.Party(k.0).d.pairs| && box.key == s.Party(k.0).d.pairs[k.1].send {
      SendingBlock(s.Party(k.0), k.1);
    }
  }

  lemma OpenedIsPacket(v: Wild, x: nat, y: nat, p: bool, n: nat)
    requires WildInv(v, x, y) && CanForge(v, x, y, p, n)
    ensures WasSealed(v.system, p, n)
  {
    var s := v.system;
    var box :| Derivable(x, y, v.boxes, box) && box.Sealed? && box.key == s.Party(p).d.pairs[n].receive;
    InvPartners(v, x, y);
    OpenedBoxWasSent(s.Party(p), if p then y else x, x, y, v.boxes, n, box);
    SendingBlock(s.Party(p), n);
    assert Explained(s, box);
    if r :| r in s.responses && r.msg.empty == box {
      SentBlock(r, s.Party(r.party));
    }
  }

  // Whatever the network does is what a network does that only passes boxes on, or is refused.
  lemma Tame(v: Wild, x: nat, y: nat, move: WildMove)
    requires WildInv(v, x, y) && CanMove(v, x, y, move)
    ensures Sessions.CanMove(v.system, Tamed(move)) || SystemStep(v.system, Tamed(move)) == v.system
  {
    match move
    case Act(p, OnResponse(m)) =>
      if HandleResponse(v.system.Party(p).d, m).Some? { AcceptedIsResponse(v, x, y, p, m); }
    case Act(p, OnPacket(n)) => OpenedIsPacket(v, x, y, p, n);
    case _ =>
  }

  // ----- What the devices put on the network.

  lemma InitiationBoxes(d: Device, e: Term, index: nat, stamp: Tai64.Bytes, x: nat, y: nat)
    requires d.publicKey.Public?
    ensures var msg := SealInitiation(d.hs, e, index, d.publicKey, stamp).1;
      forall b <- {msg.encStatic, msg.encTimestamp} ::
        b.Sealed? && BlockOf(b.key) == 2 && Mixed(b.key) != [] && forall t <- b.plaintext :: Atom(t, x, y)
  {
    var es := SharedSecret(e, d.hs.remoteStatic);
    var t := AfterEphemeral(d.hs.remoteStatic, PublicKey(e), es);
    BlockNumber(MixKey(INITIAL_CHAIN_KEY, PublicKey(e)), [es], 2);
    BlockNumber(t.chainKey, [d.hs.staticStatic], 2);
  }

  lemma AnswerBoxOk(s: System, p: bool, action: Action, x: nat, y: nat, b: Term)
    requires action.OnInitiation? && SystemInv(SystemStep(s, Sessions.Act(p, action)), x, y)
    requires exists r <- Answer(s.Party(p), p, action) :: r.msg.empty == b
    ensures Explained(SystemStep(s, Sessions.Act(p, action)), b) && forall t <- b.plaintext :: Atom(t, x, y)
  {
    var s' := SystemStep(s, Sessions.Act(p, action));
    var r :| r in Answer(s.Party(p), p, action) && r.msg.empty == b;
    assert r in s'.responses && SentOk(r, s'.Party(r.party));
    SentBlock(r, s'.Party(r.party));
  }

  lemma PacketBoxOk(s: System, p: bool, x: nat, y: nat, b: Term)
    requires s.Party(p).d.slots.current.Some? && b.Sealed?
    requires var d := s.Party(p).d; d.slots.current.value < |d.pairs| && b.key == d.pairs[d.slots.current.value].send
    ensures Explained(SystemStep(s, Sessions.SendPacket(p)), b)
  {
    var k := (p, s.Party(p).d.slots.current.value);
    var s' := SystemStep(s, Sessions.SendPacket(p));
    assert k in s'.packets && s'.Party(p) == s.Party(p);
  }

  lemma InitiationBoxOk(d: Device, e: nat, index: nat, stamp: Tai64.Bytes, s': System, x: nat, y: nat, b: Term)
    requires d.publicKey.Public? && CreateInitiation(d, Scalar(e), index, stamp).1.Some?
    requires var msg := CreateInitiation(d, Scalar(e), index, stamp).1.value;
      b == msg.encStatic || b == msg.encTimestamp
    ensures Explained(s', b) && forall t <- b.plaintext :: Atom(t, x, y)
  {
    InitiationBoxes(d, Scalar(e), index, stamp, x, y);
  }

  lemma NewBoxesOk(v: Wild, x: nat, y: nat, move: WildMove, b: Term)
    requires v.system.a.d.publicKey.Public? && v.system.b.d.publicKey.Public?
    requires SystemInv(SystemStep(v.system, Tamed(move)), x, y) && b in NewBoxes(v, move)
    ensures Explained(SystemStep(v.system, Tamed(move)), b) && forall t <- b.plaintext :: Atom(t, x, y)
  {
    match move
    case Act(p, Initiate(e, index, stamp)) =>
      InitiationBoxOk(v.system.Party(p).d, e, index, stamp, SystemStep(v.system, Tamed(move)), x, y, b);
    case Act(p, action) => AnswerBoxOk(v.system, p, action, x, y, b);
    case SendPacket(p, nonce, payload) => PacketBoxOk(v.system, p, x, y, b);
  }

  lemma StaysExplained(s: System, s': System, b: Term)
    requires Explained(s, b) && s.responses <= s'.responses && s.packets <= s'.packets
    requires Extends(s.a, s'.a) && Extends(s.b, s'.b)
    ensures Explained(s', b)
  {
    if k :| k in s.packets && k.1 < |s.Party(k.0).d.pairs| && b.key == s.Party(k.0).d.pairs[k.1].send {
      SamePair(s.Party(k.0), s'.Party(k.0), k.1);
      assert k in s'.packets;
    }
  }

  lemma SystemGrows(s: System, move: Move, x: nat, y: nat)
    requires SystemInv(s, x, y) && (move.Act? ==> Possible(s.Party(move.party), move.action))
    ensures var s' := SystemStep(s, move);
      s.responses <= s'.responses && s.packets <= s'.packets && Extends(s.a, s'.a) && Extends(s.b, s'.b)
  {
    ExtendsItself(s.a);
    ExtendsItself(s.b);
    if move.Act? { PartyExtends(s.Party(move.party), move.action); }
  }

  lemma WildStepKeepsSystem(v: Wild, x: nat, y: nat, move: WildMove)
    requires WildInv(v, x, y) && CanMove(v, x, y, move)
    ensures var s' := SystemStep(v.system, Tamed(move)); SystemInv(s', x, y) && StaticOk(s'.a) && StaticOk(s'.b)
  {
    Tame(v, x, y, move);
    if Sessions.CanMove(v.system, Tamed(move)) {
      SystemStepKeepsInv(v.system, x, y, Tamed(move));
      match move
      case Act(p, action) => StepKeepsStaticOk(v.system.Party(p), action);
      case _ =>
    }
  }

  lemma WildStepKeepsInv(v: Wild, x: nat, y: nat, move: WildMove)
    requires WildInv(v, x, y) && CanMove(v, x, y, move)
    ensures WildInv(WildStep(v, move), x, y)
  {
    var v' := WildStep(v, move);
    WildStepKeepsSystem(v, x, y, move);
    SystemGrows(v.system, Tamed(move), x, y);
    forall b <- v'.boxes ensures Explained(v'.system, b) && forall t <- b.plaintext :: Atom(t, x, y) {
      if b in v.boxes {
        StaysExplained(v.system, v'.system, b);
      } else {
        NewBoxesOk(v, x, y, move, b);
      }
    }
  }

  ghost predicate WildRun(v: Wild, x: nat, y: nat, moves: seq<WildMove>)
    decreases |moves|
  {
    moves != [] ==> CanMove(v, x, y, moves[0]) && WildRun(WildStep(v, moves[0]), x, y, moves[1..])
  }

  function WildFinal(v: Wild, moves: seq<WildMove>): Wild
    decreases |moves|
  {
    if moves == [] then v else WildFinal(WildStep(v, moves[0]), moves[1..])
  }

  lemma {:induction false} WildRunKeepsInv(v: Wild, x: nat, y: nat, moves: seq<WildMove>)
    requires WildInv(v, x, y) && WildRun(v, x, y, moves)
    ensures WildInv(WildFinal(v, moves), x, y)
    decreases |moves|
  {
    if moves != [] {
      WildStepKeepsInv(v, x, y, moves[0]);
      WildRunKeepsInv(WildStep(v, moves[0]), x, y, moves[1..]);
    }
  }

  function NewWild(x: nat, y: nat, psk: Term, now: int): Wild {
    Wild(NewSystem(x, y, psk, now), {})
  }

  lemma EveryWildRun(x: nat, y: nat, psk: Term, now: int, moves: seq<WildMove>)
    requires x != y && WildRun(NewWild(x, y, psk, now), x, y, moves)
    ensures WildInv(WildFinal(NewWild(x, y, psk, now), moves), x, y)
  {
    EveryRunKeepsInv(x, y, psk, now, []);
    WildRunKeepsInv(NewWild(x, y, psk, now), x, y, moves);
  }

  // ----- What every run ends with.

  /** In every run against this network, a response that it can compute is accepted only if its box was
      sealed by the other device. */
  lemma AcceptedResponseAuthentic(
      x: nat, y: nat, psk: Term, now: int, moves: seq<WildMove>, p: bool, m: MessageResponse)
    returns (r: Sent)
    requires x != y && WildRun(NewWild(x, y, psk, now), x, y, moves)
    requires var v := WildFinal(NewWild(x, y, psk, now), moves);
      Derivable(x, y, v.boxes, m.empty) && HandleResponse(v.system.Party(p).d, m).Some?
    ensures r in WildFinal(NewWild(x, y, psk, now), moves).system.responses && r.msg.empty == m.empty && r.party == !p
  {
    var v := WildFinal(NewWild(x, y, psk, now), moves);
    EveryWildRun(x, y, psk, now, moves);
    AcceptedIsResponse(v, x, y, p, m);
    r :| r in v.system.responses && r.msg.empty == m.empty;
    AcceptedMirrors(v.system, x, y, p, r, m);
  }

  /** In every such run, a packet that it can compute and that opens under a key pair was sealed by the
      other device, under a pair with that key. */
  lemma OpenedPacketAuthentic(x: nat, y: nat, psk: Term, now: int, moves: seq<WildMove>, p: bool, n: nat)
    returns (m: nat)
    requires x != y && WildRun(NewWild(x, y, psk, now), x, y, moves)
    requires CanForge(WildFinal(NewWild(x, y, psk, now), moves), x, y, p, n)
    ensures var s := WildFinal(NewWild(x, y, psk, now), moves).system;
      && (!p, m) in s.packets && m < |s.Party(!p).d.pairs| && n < |s.Party(p).d.pairs|
      && s.Party(!p).d.pairs[m].send == s.Party(p).d.pairs[n].receive
  {
    var v := WildFinal(NewWild(x, y, psk, now), moves);
    EveryWildRun(x, y, psk, now, moves);
    OpenedIsPacket(v, x, y, p, n);
    m := SealedByOther(v.system, x, y, p, n);
  }

  lemma SealedByOther(s: System, x: nat, y: nat, p: bool, n: nat) returns (m: nat)
    requires SystemInv(s, x, y) && WasSealed(s, p, n)
    ensures (!p, m) in s.packets && m < |s.Party(!p).d.pairs|
    ensures s.Party(!p).d.pairs[m].send == s.Party(p).d.pairs[n].receive
  {
    var k :| k in s.packets && k.1 < |s.Party(k.0).d.pairs| &&
      s.Party(k.0).d.pairs[k.1].send == s.Party(p).d.pairs[n].receive;
    if k.0 != p {
      m := k.1;
    } else {
      if p { NeverOwnKey(s.b, y, x, k.1, n); } else { NeverOwnKey(s.a, x, y, k.1, n); }
      assert false;
    }
  }

  /** In every such run each key pair of an initiator mirrors one of the other device. */
  lemma EveryPairAuthentic(x: nat, y: nat, psk: Term, now: int, moves: seq<WildMove>, p: bool, n: nat)
    returns (c: Completion)
    requires x != y && WildRun(NewWild(x, y, psk, now), x, y, moves)
    requires var w := WildFinal(NewWild(x, y, psk, now), moves).system.Party(p);
      n < |w.d.pairs| && w.d.pairs[n].isInitiator
    ensures var s := WildFinal(NewWild(x, y, psk, now), moves).system;
      && c in s.completed && c.party == p && c.pair == n && c.sent in s.responses && c.sent.party == !p
      && CompletionOk(c, s.Party(p), s.Party(!p))
  {
    EveryWildRun(x, y, psk, now, moves);
    c := InitiatorPairMirrored(WildFinal(NewWild(x, y, psk, now), moves).system, x, y, p, n);
  }

  /** And each key pair of a responder that is used for sending. */
  lemma EveryConfirmedPairAuthentic(x: nat, y: nat, psk: Term, now: int, moves: seq<WildMove>, p: bool, n: nat)
    returns (m: nat)
    requires x != y && WildRun(NewWild(x, y, psk, now), x, y, moves)
    requires var d := WildFinal(NewWild(x, y, psk, now), moves).system.Party(p).d;
      d.slots.current == Some(n) && n < |d.pairs| && !d.pairs[n].isInitiator
    ensures var s := WildFinal(NewWild(x, y, psk, now), moves).system;
      m < |s.Party(!p).d.pairs| && Agreement.MirrorKeys(s.Party(!p).d.pairs[m], s.Party(p).d.pairs[n])
  {
    EveryWildRun(x, y, psk, now, moves);
    m := ConfirmedPairMirrored(WildFinal(NewWild(x, y, psk, now), moves).system, x, y, p, n);
  }

  /** In every such run the network computes no key of a key pair. */
  lemma KeysStaySecret(x: nat, y: nat, psk: Term, now: int, moves: seq<WildMove>, p: bool, n: nat)
    requires x != y && WildRun(NewWild(x, y, psk, now), x, y, moves)
    requires n < |WildFinal(NewWild(x, y, psk, now), moves).system.Party(p).d.pairs|
    ensures var v := WildFinal(NewWild(x, y, psk, now), moves);
      var pair := v.system.Party(p).d.pairs[n];
      !Derivable(x, y, v.boxes, pair.receive) && !Derivable(x, y, v.boxes, pair.send)
  {
    var v := WildFinal(NewWild(x, y, psk, now), moves);
    EveryWildRun(x, y, psk, now, moves);
    InvPartners(v, x, y);
    var w := v.system.Party(p);
    KeysAreSecret(w, if p then y else x, x, y, v.boxes, n);
    if k: nat :| Derives(k, x, y, v.boxes, w.d.pairs[n].receive) {
      DerivedIsClean(k, x, y, v.boxes, w.d.pairs[n].receive);
    }
    if k: nat :| Derives(k, x, y, v.boxes, w.d.pairs[n].send) { DerivedIsClean(k, x, y, v.boxes, w.d.pairs[n].send); }
  }
}
