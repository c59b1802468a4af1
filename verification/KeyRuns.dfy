/** The keys of a device over a run: every key pair has its own, because each comes from a private key
    that was drawn once. */
module KeyRuns {
  import opened Symbolic
  import NoiseHelpers
  import opened Noise
  import opened PeerRuns

  // ----- What a derived key was derived from.

  function Salt(t: Term): Term {
    if t.Hmac? && t.key.Hmac? then t.key.key else Zero
  }

  function Mixed(t: Term): Chunks {
    if t.Hmac? && t.key.Hmac? then t.key.data else []
  }

  lemma Peel(salt: Term, ikm: Chunks, n: nat)
    ensures Salt(NoiseHelpers.Hkdf(salt, ikm, n)) == salt && Mixed(NoiseHelpers.Hkdf(salt, ikm, n)) == ikm
  {
  }

  // The parts of the chain key of a finished handshake.
  function InitiationChain(chainKey: Term): Term {
    Salt(Salt(Salt(Salt(chainKey))))
  }

  function ResponseEphemeral(chainKey: Term): Chunks {
    Mixed(Salt(Salt(Salt(chainKey))))
  }

  // The parts of the chain key of an initiation.
  function InitiationSecret(chainKey: Term): Chunks {
    Mixed(Salt(chainKey))
  }

  function InitiationKey(chainKey: Term): Chunks {
    Mixed(Salt(Salt(chainKey)))
  }

  lemma StaticChain(responderStatic: Term, ephemeral: Term, es: Term, encStatic: Term, ss: Term)
    ensures var t := AfterStatic(AfterEphemeral(responderStatic, ephemeral, es), encStatic, ss);
      InitiationSecret(t.chainKey) == [es] && InitiationKey(t.chainKey) == [ephemeral]
  {
    var c1 := MixKey(INITIAL_CHAIN_KEY, ephemeral);
    var c2 := NoiseHelpers.Hkdf(c1, [es], 1);
    Peel(INITIAL_CHAIN_KEY, [ephemeral], 1);
    Peel(c1, [es], 1);
    Peel(c2, [ss], 1);
  }

  // ----- Key pairs.

  // Both keys come from one chain key, the initiator's in one order and the responder's in the other.
  function ChainOf(pair: KeyPair): Term {
    Salt(pair.send)
  }

  predicate FromChain(pair: KeyPair) {
    var c := ChainOf(pair);
    if pair.isInitiator then pair.send == NoiseHelpers.Hkdf(c, [], 1) && pair.receive == NoiseHelpers.Hkdf(c, [], 2)
    else pair.send == NoiseHelpers.Hkdf(c, [], 2) && pair.receive == NoiseHelpers.Hkdf(c, [], 1)
  }

  // The public key that the device drew for the handshake.
  function OwnEphemeral(pair: KeyPair): Chunks {
    if pair.isInitiator then InitiationKey(InitiationChain(ChainOf(pair))) else ResponseEphemeral(ChainOf(pair))
  }

  predicate IsDrawn(key: Chunks, used: set<nat>) {
    |key| == 1 && key[0].Public? && key[0].id in used
  }

  // The secret of the initiation, as this side computed it.
  predicate SecretOk(d: Device, pair: KeyPair) {
    var c := InitiationChain(ChainOf(pair));
    |InitiationKey(c)| == 1 &&
    if pair.isInitiator then
      InitiationKey(c)[0].Public? &&
        InitiationSecret(c) == [SharedSecret(Scalar(InitiationKey(c)[0].id), d.hs.remoteStatic)]
    else InitiationSecret(c) == [SharedSecret(d.privateKey, InitiationKey(c)[0])]
  }

  ghost predicate PairOk(d: Device, used: set<nat>, pair: KeyPair) {
    FromChain(pair) && IsDrawn(OwnEphemeral(pair), used) && SecretOk(d, pair)
  }

  // The open initiation uses a key of its own.
  ghost predicate OpenOk(w: World) {
    Pending(w.d) ==>
      && IsDrawn(InitiationKey(w.d.hs.chainKey), w.used)
      && InitiationSecret(w.d.hs.chainKey) ==
        [SharedSecret(Scalar(InitiationKey(w.d.hs.chainKey)[0].id), w.d.hs.remoteStatic)]
      && forall n :: 0 <= n < |w.d.pairs| && w.d.pairs[n].isInitiator ==>
        OwnEphemeral(w.d.pairs[n]) != InitiationKey(w.d.hs.chainKey)
  }

  ghost predicate KeysOwn(w: World) {
    && (forall n :: 0 <= n < |w.d.pairs| ==> PairOk(w.d, w.used, w.d.pairs[n]))
    && OwnKeysDiffer(w.d.pairs)
    && OpenOk(w)
  }

  // The new pair of an accepted response rests on the open initiation's chain key.
  lemma InitiatedPair(d: Device, m: MessageResponse)
    requires d.hs.state == InitiationCreated && HandleResponse(d, m).Some?
    ensures var d' := HandleResponse(d, m).value;
      && d'.pairs == d.pairs + [d'.pairs[|d.pairs|]] && d'.hs.state == Zeroed
      && d'.privateKey == d.privateKey && d'.hs.remoteStatic == d.hs.remoteStatic
      && var pair := d'.pairs[|d.pairs|];
         pair.isInitiator && FromChain(pair) && InitiationChain(ChainOf(pair)) == d.hs.chainKey
  {
  }

  lemma ConsumedChain(d: Device, msg: MessageInitiation, checked: int, stored: int)
    requires ConsumeInitiation(d, msg, checked, stored).Some?
    ensures var d' := ConsumeInitiation(d, msg, checked, stored).value;
      && d'.pairs == d.pairs && d'.hs.state == InitiationConsumed
      && d'.privateKey == d.privateKey && d'.hs.remoteStatic == d.hs.remoteStatic
      && InitiationKey(d'.hs.chainKey) == [msg.ephemeral]
      && InitiationSecret(d'.hs.chainKey) == [SharedSecret(d.privateKey, msg.ephemeral)]
  {
    StaticChain(d.publicKey, msg.ephemeral, SharedSecret(d.privateKey, msg.ephemeral), msg.encStatic,
      d.hs.staticStatic);
  }

  // The new pair of an answer rests on the initiation's chain key and the new private key.
  lemma RespondedPair(d: Device, e: Term, index: nat)
    requires d.hs.state == InitiationConsumed
    ensures Respond(d, e, index).Some?
    ensures var d' := Respond(d, e, index).value.0;
      && d'.pairs == d.pairs + [d'.pairs[|d.pairs|]] && d'.hs.state == Zeroed
      && d'.privateKey == d.privateKey && d'.hs.remoteStatic == d.hs.remoteStatic
      && var pair := d'.pairs[|d.pairs|];
         && !pair.isInitiator && FromChain(pair)
         && InitiationChain(ChainOf(pair)) == d.hs.chainKey && ResponseEphemeral(ChainOf(pair)) == [PublicKey(e)]
  {
  }

  lemma AnsweredPair(d: Device, msg: MessageInitiation, e: Term, index: nat, checked: int, stored: int)
    requires HandleInitiation(d, msg, e, index, checked, stored).Some?
    ensures var d' := HandleInitiation(d, msg, e, index, checked, stored).value.0;
      && d'.pairs == d.pairs + [d'.pairs[|d.pairs|]] && d'.hs.state == Zeroed
      && d'.privateKey == d.privateKey && d'.hs.remoteStatic == d.hs.remoteStatic
      && var pair := d'.pairs[|d.pairs|];
         !pair.isInitiator && FromChain(pair) && OwnEphemeral(pair) == [PublicKey(e)] && SecretOk(d, pair)
  {
    ConsumedChain(d, msg, checked, stored);
    RespondedPair(ConsumeInitiation(d, msg, checked, stored).value, e, index);
  }

  // ----- Steps.

  lemma PairStaysOk(d: Device, d': Device, used: set<nat>, used': set<nat>, pair: KeyPair)
    requires PairOk(d, used, pair) && used <= used'
    requires d'.privateKey == d.privateKey && d'.hs.remoteStatic == d.hs.remoteStatic
    ensures PairOk(d', used', pair)
  {
  }

  // No new pair, and the open initiation, if there is one, is the same.
  lemma SamePairsKeep(w: World, w': World)
    requires KeysOwn(w) && w'.d.pairs == w.d.pairs && w.used <= w'.used
    requires w'.d.privateKey == w.d.privateKey && w'.d.hs.remoteStatic == w.d.hs.remoteStatic
    requires Pending(w'.d) ==> Pending(w.d) && w'.d.hs.chainKey == w.d.hs.chainKey
    ensures KeysOwn(w')
  {
    forall n | 0 <= n < |w.d.pairs| ensures PairOk(w'.d, w'.used, w'.d.pairs[n]) {
      PairStaysOk(w.d, w'.d, w.used, w'.used, w.d.pairs[n]);
    }
  }

  // One new pair with an ephemeral key that no pair of its role has, and no open initiation.
  lemma NewPairKeeps(w: World, w': World)
    requires KeysOwn(w) && w.used <= w'.used && !Pending(w'.d)
    requires w'.d.privateKey == w.d.privateKey && w'.d.hs.remoteStatic == w.d.hs.remoteStatic
    requires |w'.d.pairs| == |w.d.pairs| + 1 && w'.d.pairs == w.d.pairs + [w'.d.pairs[|w.d.pairs|]]
    requires PairOk(w'.d, w'.used, w'.d.pairs[|w.d.pairs|])
    requires forall n :: 0 <= n < |w.d.pairs| && w.d.pairs[n].isInitiator == w'.d.pairs[|w.d.pairs|].isInitiator ==>
      OwnEphemeral(w.d.pairs[n]) != OwnEphemeral(w'.d.pairs[|w.d.pairs|])
    ensures KeysOwn(w')
  {
    forall n | 0 <= n < |w'.d.pairs| ensures PairOk(w'.d, w'.used, w'.d.pairs[n]) {
      if n < |w.d.pairs| { PairStaysOk(w.d, w'.d, w.used, w'.used, w.d.pairs[n]); }
    }
    NewKeyDiffers(w.d.pairs, w'.d.pairs[|w.d.pairs|]);
  }

  ghost predicate OwnKeysDiffer(pairs: seq<KeyPair>) {
    forall i, j :: 0 <= i < j < |pairs| && pairs[i].isInitiator == pairs[j].isInitiator ==>
      OwnEphemeral(pairs[i]) != OwnEphemeral(pairs[j])
  }

  lemma NewKeyDiffers(pairs: seq<KeyPair>, pair: KeyPair)
    requires OwnKeysDiffer(pairs)
    requires forall n :: 0 <= n < |pairs| && pairs[n].isInitiator == pair.isInitiator ==>
      OwnEphemeral(pairs[n]) != OwnEphemeral(pair)
    ensures OwnKeysDiffer(pairs + [pair])
  {
  }

  lemma InitiateKeepsKeys(w: World, a: Action)
    requires KeysOwn(w) && Possible(w, a) && a.Initiate?
    ensures KeysOwn(Step(w, a))
  {
    if w.d.hs.staticStatic == Zero {
      SamePairsKeep(w, Step(w, a));
    } else {
      InitiatedOpen(w, a);
      var w' := Step(w, a);
      forall n | 0 <= n < |w.d.pairs| ensures PairOk(w'.d, w'.used, w'.d.pairs[n]) {
        PairStaysOk(w.d, w'.d, w.used, w'.used, w.d.pairs[n]);
      }
    }
  }

  lemma InitiatedOpen(w: World, a: Action)
    requires a.Initiate? && w.d.hs.staticStatic != Zero
    ensures var w' := Step(w, a);
      && w'.d.pairs == w.d.pairs && w'.used == w.used + {a.e}
      && w'.d.privateKey == w.d.privateKey && w'.d.hs.remoteStatic == w.d.hs.remoteStatic
      && InitiationKey(w'.d.hs.chainKey) == [Public(a.e)]
      && InitiationSecret(w'.d.hs.chainKey) == [SharedSecret(Scalar(a.e), w.d.hs.remoteStatic)]
  {
    var es := SharedSecret(Scalar(a.e), w.d.hs.remoteStatic);
    var t := AfterEphemeral(w.d.hs.remoteStatic, Public(a.e), es);
    StaticChain(w.d.hs.remoteStatic, Public(a.e), es, Sealed(t.key, ZERO_NONCE, [w.d.publicKey], [t.hash]),
      w.d.hs.staticStatic);
  }

  lemma InitiationKeepsKeys(w: World, a: Action)
    requires KeysOwn(w) && Possible(w, a) && a.OnInitiation?
    ensures KeysOwn(Step(w, a))
  {
    var w' := Step(w, a);
    if HandleInitiation(w.d, a.msg, Scalar(a.e), a.index, a.checked, a.stored).Some? {
      AnsweredPair(w.d, a.msg, Scalar(a.e), a.index, a.checked, a.stored);
      NewPairKeeps(w, w');
    } else {
      SamePairsKeep(w, w');
    }
  }

  lemma ResponseKeepsKeys(w: World, a: Action)
    requires Consistent(w.d) && KeysOwn(w) && a.OnResponse?
    ensures KeysOwn(Step(w, a))
  {
    if HandleResponse(w.d, a.response).Some? {
      ResponseCompletesLatest(w.d, a.response);
      InitiatedPair(w.d, a.response);
      NewPairKeeps(w, Step(w, a));
    }
  }

  lemma StepKeepsKeysOwn(w: World, a: Action)
    requires Consistent(w.d) && KeysOwn(w) && Possible(w, a)
    ensures KeysOwn(Step(w, a))
  {
    match a
    case Initiate(_, _, _) => InitiateKeepsKeys(w, a);
    case OnInitiation(_, _, _, _, _) => InitiationKeepsKeys(w, a);
    case OnResponse(_) => ResponseKeepsKeys(w, a);
    case _ => SamePairsKeep(w, Step(w, a));
  }

  lemma {:induction false} RunKeepsKeysOwn(w: World, actions: seq<Action>)
    requires Inv(w) && KeysOwn(w) && Run(w, actions)
    ensures KeysOwn(Final(w, actions))
    decreases |actions|
  {
    if actions != [] {
      StepKeepsKeysOwn(w, actions[0]);
      StepKeepsInv(w, actions[0]);
      RunKeepsKeysOwn(Step(w, actions[0]), actions[1..]);
    }
  }

  predicate DistinctKeys(pairs: seq<KeyPair>) {
    forall i, j :: 0 <= i < |pairs| && 0 <= j < |pairs| && i != j ==>
      pairs[i].send != pairs[j].send && pairs[i].receive != pairs[j].receive
  }

  predicate Unreflected(pairs: seq<KeyPair>) {
    forall i, j :: 0 <= i < |pairs| && 0 <= j < |pairs| ==> pairs[i].send != pairs[j].receive
  }

  lemma SameKeySamePair(w: World, i: nat, j: nat)
    requires KeysOwn(w) && i < j < |w.d.pairs|
    ensures w.d.pairs[i].send != w.d.pairs[j].send && w.d.pairs[i].receive != w.d.pairs[j].receive
  {
    var p, q := w.d.pairs[i], w.d.pairs[j];
    assert PairOk(w.d, w.used, p) && PairOk(w.d, w.used, q);
    assert p.isInitiator == q.isInitiator ==> ChainOf(p) != ChainOf(q);
  }

  lemma PairsApart(w: World, i: nat, j: nat)
    requires KeysOwn(w) && i < |w.d.pairs| && j < |w.d.pairs| && i != j
    ensures w.d.pairs[i].send != w.d.pairs[j].send && w.d.pairs[i].receive != w.d.pairs[j].receive
  {
    SameKeySamePair(w, if i < j then i else j, if i < j then j else i);
  }

  lemma OwnKeysDistinct(w: World)
    requires KeysOwn(w)
    ensures DistinctKeys(w.d.pairs)
  {
    forall i, j | 0 <= i < |w.d.pairs| && 0 <= j < |w.d.pairs| && i != j
      ensures w.d.pairs[i].send != w.d.pairs[j].send && w.d.pairs[i].receive != w.d.pairs[j].receive
    {
      PairsApart(w, i, j);
    }
  }

  /** In every run of a new device no two key pairs share a sending key or a receiving key. */
  lemma KeysDistinct(privateKey: Term, publicKey: Term, remoteStatic: Term, psk: Term, now: int, actions: seq<Action>)
    requires Run(Start(privateKey, publicKey, remoteStatic, psk, now), actions)
    ensures DistinctKeys(Final(Start(privateKey, publicKey, remoteStatic, psk, now), actions).d.pairs)
  {
    var w := Start(privateKey, publicKey, remoteStatic, psk, now);
    StartInv(privateKey, publicKey, remoteStatic, psk, now);
    RunKeepsKeysOwn(w, actions);
    OwnKeysDistinct(Final(w, actions));
  }
}
