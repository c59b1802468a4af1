/** What a key pair is derived from: the seven inputs of its handshake, in order, over every run. */
module Derivations {
  import opened Wrappers
  import opened Symbolic
  import opened Noise
  import opened PeerRuns
  import opened KeyRuns
  import NoiseHelpers
  import Agreement
  import Sessions

  // The last `n` inputs of a chain key, first to last, and the key they were mixed into.
  function MixedIn(c: Term, n: nat): (inputs: seq<Chunks>)
    ensures |inputs| == n
    decreases n
  {
    if n == 0 then [] else MixedIn(Salt(c), n - 1) + [Mixed(c)]
  }

  function Root(c: Term, n: nat): Term
    decreases n
  {
    if n == 0 then c else Root(Salt(c), n - 1)
  }

  lemma {:induction false} MixedMore(c: Term, n: nat, m: nat)
    ensures MixedIn(c, n + m) == MixedIn(Root(c, m), n) + MixedIn(c, m) && Root(c, n + m) == Root(Root(c, m), n)
    decreases m
  {
    if m > 0 { MixedMore(Salt(c), n, m - 1); }
  }

  // Construction and nothing else.
  const CHAIN_KEY := Hash([Text("Noise_IKpsk2_25519_ChaChaPoly_BLAKE2s")])

  /** The inputs of an initiator with private keys `e` and `s` and a responder whose public keys are `re`
      and `rs`: the initiator's ephemeral key, the secrets of it and the static key with the responder's
      static key, the responder's ephemeral key, the secrets of both with that, and the preshared key. */
  function InitiatorInputs(e: Term, s: Term, re: Term, rs: Term, psk: Term): seq<Chunks> {
    [[PublicKey(e)], [SharedSecret(e, rs)], [SharedSecret(s, rs)],
     [re], [SharedSecret(e, re)], [SharedSecret(s, re)], [psk]]
  }

  // The same inputs as the responder computes them.
  function ResponderInputs(e: Term, s: Term, re: Term, rs: Term, psk: Term): seq<Chunks> {
    [[re], [SharedSecret(s, re)], [SharedSecret(s, rs)],
     [PublicKey(e)], [SharedSecret(e, re)], [SharedSecret(e, rs)], [psk]]
  }

  // A pair's inputs are those of its role; `e` is the private key that the device drew for it, and `re` the
  // ephemeral key that it was sent.
  predicate HasInputs(d: Device, pair: KeyPair, e: nat, re: Term) {
    && FromChain(pair) && Root(ChainOf(pair), 7) == CHAIN_KEY
    && MixedIn(ChainOf(pair), 7) ==
      if pair.isInitiator then InitiatorInputs(Scalar(e), d.privateKey, re, d.hs.remoteStatic, d.hs.presharedKey)
      else ResponderInputs(Scalar(e), d.privateKey, re, d.hs.remoteStatic, d.hs.presharedKey)
  }

  ghost predicate PairInputs(d: Device, used: set<nat>, pair: KeyPair) {
    exists e <- used, re: Term :: HasInputs(d, pair, e, re)
  }

  // The open initiation has its first three inputs, with the private key that the device keeps for it.
  ghost predicate OpenInputs(w: World) {
    Pending(w.d) ==>
      && w.d.hs.localEphemeral.Scalar? && w.d.hs.localEphemeral.id in w.used
      && Root(w.d.hs.chainKey, 3) == CHAIN_KEY
      && MixedIn(w.d.hs.chainKey, 3) ==
        [[PublicKey(w.d.hs.localEphemeral)], [SharedSecret(w.d.hs.localEphemeral, w.d.hs.remoteStatic)],
         [SharedSecret(w.d.privateKey, w.d.hs.remoteStatic)]]
  }

  ghost predicate InputsOk(w: World) {
    && w.d.hs.staticStatic == SharedSecret(w.d.privateKey, w.d.hs.remoteStatic)
    && OpenInputs(w)
    && forall n :: 0 <= n < |w.d.pairs| ==> PairInputs(w.d, w.used, w.d.pairs[n])
  }

  // ----- The inputs of each message.

  lemma InitiationInputs(responderStatic: Term, ephemeral: Term, es: Term, encStatic: Term, ss: Term)
    ensures var c := AfterStatic(AfterEphemeral(responderStatic, ephemeral, es), encStatic, ss).chainKey;
      MixedIn(c, 3) == [[ephemeral], [es], [ss]] && Root(c, 3) == CHAIN_KEY
  {
    var t := AfterEphemeral(responderStatic, ephemeral, es);
    Three(INITIAL_CHAIN_KEY, ephemeral, es, ss);
  }

  lemma Three(c: Term, i: Term, j: Term, k: Term)
    ensures var d := MixKey(MixKey(MixKey(c, i), j), k);
      MixedIn(d, 3) == [[i], [j], [k]] && Root(d, 3) == c
  {
    var d1 := MixKey(c, i);
    var d2 := MixKey(d1, j);
    var d3 := MixKey(d2, k);
    Peel(c, [i], 1);
    Peel(d1, [j], 1);
    Peel(d2, [k], 1);
    assert MixedIn(d1, 1) == MixedIn(c, 0) + [[i]] && Root(d1, 1) == c;
    assert MixedIn(d2, 2) == MixedIn(d1, 1) + [[j]] && Root(d2, 2) == c;
    assert MixedIn(d3, 3) == MixedIn(d2, 2) + [[k]] && Root(d3, 3) == c;
  }

  lemma ResponseInputs(hash: Term, chainKey: Term, ephemeral: Term, ee: Term, se: Term, psk: Term)
    ensures var c := AfterResponseKeys(hash, chainKey, ephemeral, ee, se, psk).chainKey;
      MixedIn(c, 7) == MixedIn(chainKey, 3) + [[ephemeral], [ee], [se], [psk]] && Root(c, 7) == Root(chainKey, 3)
  {
    var c3 := MixKey(MixKey(MixKey(chainKey, ephemeral), ee), se);
    var c := MixKey(c3, psk);
    Three(chainKey, ephemeral, ee, se);
    Peel(c3, [psk], 1);
    assert MixedIn(c, 4) == MixedIn(c3, 3) + [[psk]] && Root(c, 4) == Root(c3, 3);
    MixedMore(c, 3, 4);
  }

  // ----- Steps.

  lemma DerivedFrom(hs: Handshake)
    ensures FromChain(DerivedPair(hs)) && ChainOf(DerivedPair(hs)) == hs.chainKey
    ensures DerivedPair(hs).isInitiator == hs.state.ResponseConsumed?
  {
  }

  predicate SameConfiguration(d: Device, d': Device) {
    && d'.privateKey == d.privateKey && d'.hs.remoteStatic == d.hs.remoteStatic
    && d'.hs.presharedKey == d.hs.presharedKey && d'.hs.staticStatic == d.hs.staticStatic
  }

  lemma StepKeepsConfiguration(w: World, a: Action)
    ensures SameConfiguration(w.d, Step(w, a).d)
  {
  }

  lemma PairStays(d: Device, d': Device, used: set<nat>, used': set<nat>, pair: KeyPair)
    requires PairInputs(d, used, pair) && SameConfiguration(d, d') && used <= used'
    ensures PairInputs(d', used', pair)
  {
    var e, re :| e in used && HasInputs(d, pair, e, re);
    assert HasInputs(d', pair, e, re);
  }

  // At most one new pair, and no other open initiation.
  lemma NewPairOk(w: World, w': World)
    requires InputsOk(w) && SameConfiguration(w.d, w'.d) && w.used <= w'.used
    requires |w.d.pairs| <= |w'.d.pairs| <= |w.d.pairs| + 1 && w'.d.pairs[..|w.d.pairs|] == w.d.pairs
    requires |w'.d.pairs| > |w.d.pairs| ==> PairInputs(w'.d, w'.used, w'.d.pairs[|w.d.pairs|])
    requires OpenInputs(w')
    ensures InputsOk(w')
  {
    forall n | 0 <= n < |w'.d.pairs| ensures PairInputs(w'.d, w'.used, w'.d.pairs[n]) {
      if n < |w.d.pairs| {
        assert w'.d.pairs[..|w.d.pairs|][n] == w'.d.pairs[n];
        PairStays(w.d, w'.d, w.used, w'.used, w.d.pairs[n]);
      }
    }
  }

  lemma InitiateInputs(w: World, a: Action)
    requires InputsOk(w) && a.Initiate?
    ensures InputsOk(Step(w, a))
  {
    StepKeepsConfiguration(w, a);
    var es, ss := SharedSecret(Scalar(a.e), w.d.hs.remoteStatic), w.d.hs.staticStatic;
    var t := AfterEphemeral(w.d.hs.remoteStatic, Public(a.e), es);
    InitiationInputs(w.d.hs.remoteStatic, Public(a.e), es, Sealed(t.key, ZERO_NONCE, [w.d.publicKey], [t.hash]), ss);
    NewPairOk(w, Step(w, a));
  }

  // The handshake after an initiation is accepted has its first three inputs.
  lemma ConsumedInputs(
      hs: Handshake, privateKey: Term, publicKey: Term, msg: MessageInitiation, checked: int, stored: int)
    requires ConsumedInitiation(hs, privateKey, publicKey, msg, checked, stored).Some?
    ensures var hs' := ConsumedInitiation(hs, privateKey, publicKey, msg, checked, stored).value;
      && hs'.remoteEphemeral == msg.ephemeral
      && hs'.remoteStatic == hs.remoteStatic && hs'.presharedKey == hs.presharedKey
      && Root(hs'.chainKey, 3) == CHAIN_KEY
      && MixedIn(hs'.chainKey, 3) == [[msg.ephemeral], [SharedSecret(privateKey, msg.ephemeral)], [hs.staticStatic]]
  {
    var es := SharedSecret(privateKey, msg.ephemeral);
    InitiationInputs(publicKey, msg.ephemeral, es, msg.encStatic, hs.staticStatic);
  }

  lemma SealedInputs(hs: Handshake, e: Term, index: nat)
    ensures var pair := DerivedPair(SealResponse(hs, e, index).0);
      && FromChain(pair) && !pair.isInitiator && Root(ChainOf(pair), 7) == Root(hs.chainKey, 3)
      && MixedIn(ChainOf(pair), 7) == MixedIn(hs.chainKey, 3)
        + [[PublicKey(e)], [SharedSecret(e, hs.remoteEphemeral)], [SharedSecret(e, hs.remoteStatic)], [hs.presharedKey]]
  {
    ResponseInputs(hs.hash, hs.chainKey, PublicKey(e), SharedSecret(e, hs.remoteEphemeral),
      SharedSecret(e, hs.remoteStatic), hs.presharedKey);
    DerivedFrom(SealResponse(hs, e, index).0);
  }

  lemma AcceptedInputs(hs: Handshake, privateKey: Term, m: MessageResponse)
    requires ConsumedResponse(hs, privateKey, m).Some?
    ensures var pair := DerivedPair(ConsumedResponse(hs, privateKey, m).value);
      && FromChain(pair) && pair.isInitiator && Root(ChainOf(pair), 7) == Root(hs.chainKey, 3)
      && MixedIn(ChainOf(pair), 7) == MixedIn(hs.chainKey, 3)
        + [[m.ephemeral], [SharedSecret(hs.localEphemeral, m.ephemeral)], [SharedSecret(privateKey, m.ephemeral)],
           [hs.presharedKey]]
  {
    ResponseInputs(hs.hash, hs.chainKey, m.ephemeral, SharedSecret(hs.localEphemeral, m.ephemeral),
      SharedSecret(privateKey, m.ephemeral), hs.presharedKey);
    DerivedFrom(ConsumedResponse(hs, privateKey, m).value);
  }

  lemma AnswerInputs(d: Device, msg: MessageInitiation, e: nat, index: nat, checked: int, stored: int)
    requires d.hs.staticStatic == SharedSecret(d.privateKey, d.hs.remoteStatic)
    requires ConsumedInitiation(d.hs, d.privateKey, d.publicKey, msg, checked, stored).Some?
    ensures var hs := ConsumedInitiation(d.hs, d.privateKey, d.publicKey, msg, checked, stored).value;
      HasInputs(d, DerivedPair(SealResponse(hs, Scalar(e), index).0), e, msg.ephemeral)
  {
    ConsumedInputs(d.hs, d.privateKey, d.publicKey, msg, checked, stored);
    var hs := ConsumedInitiation(d.hs, d.privateKey, d.publicKey, msg, checked, stored).value;
    SealedInputs(hs, Scalar(e), index);
  }

  lemma AnsweredOk(d: Device, msg: MessageInitiation, e: nat, index: nat, checked: int, stored: int)
    requires d.hs.staticStatic == SharedSecret(d.privateKey, d.hs.remoteStatic)
    requires HandleInitiation(d, msg, Scalar(e), index, checked, stored).Some?
    ensures var d' := HandleInitiation(d, msg, Scalar(e), index, checked, stored).value.0;
      && |d'.pairs| == |d.pairs| + 1 && d'.pairs[..|d.pairs|] == d.pairs && !Pending(d')
      && HasInputs(d, d'.pairs[|d.pairs|], e, msg.ephemeral)
  {
    AnsweredPair(d, msg, Scalar(e), index, checked, stored);
    AnswerInputs(d, msg, e, index, checked, stored);
    Agreement.AnswerIs(d, msg, Scalar(e), index, checked, stored);
  }

  lemma CompletionInputs(w: World, m: MessageResponse)
    requires Pending(w.d) && InputsOk(w) && ConsumedResponse(w.d.hs, w.d.privateKey, m).Some?
    ensures w.d.hs.localEphemeral.Scalar? && w.d.hs.localEphemeral.id in w.used
    ensures var pair := DerivedPair(ConsumedResponse(w.d.hs, w.d.privateKey, m).value);
      HasInputs(w.d, pair, w.d.hs.localEphemeral.id, m.ephemeral)
  {
    AcceptedInputs(w.d.hs, w.d.privateKey, m);
  }

  lemma CompletedOk(w: World, m: MessageResponse)
    requires Consistent(w.d) && InputsOk(w) && HandleResponse(w.d, m).Some?
    ensures var d' := HandleResponse(w.d, m).value;
      && !Pending(d') && w.d.hs.localEphemeral.Scalar? && w.d.hs.localEphemeral.id in w.used
      && HasInputs(w.d, d'.pairs[|w.d.pairs|], w.d.hs.localEphemeral.id, m.ephemeral)
  {
    ResponseCompletesLatest(w.d, m);
    CompletionInputs(w, m);
    Agreement.CompletionIs(w.d, m);
  }

  lemma StepKeepsInputs(w: World, a: Action)
    requires Inv(w) && InputsOk(w) && Possible(w, a)
    ensures InputsOk(Step(w, a))
  {
    StepKeepsConfiguration(w, a);
    match a
    case Initiate(_, _, _) => InitiateInputs(w, a);
    case OnInitiation(msg, e, index, checked, stored) =>
      if HandleInitiation(w.d, msg, Scalar(e), index, checked, stored).Some? {
        AnsweredOk(w.d, msg, e, index, checked, stored);
        var pair := Step(w, a).d.pairs[|w.d.pairs|];
        assert HasInputs(Step(w, a).d, pair, e, msg.ephemeral);
      }
      NewPairOk(w, Step(w, a));
    case OnResponse(m) =>
      if HandleResponse(w.d, m).Some? {
        ResponseCompletesLatest(w.d, m);
        CompletedOk(w, m);
        var pair := Step(w, a).d.pairs[|w.d.pairs|];
        assert HasInputs(Step(w, a).d, pair, w.d.hs.localEphemeral.id, m.ephemeral);
      }
      NewPairOk(w, Step(w, a));
    case _ => NewPairOk(w, Step(w, a));
  }

  lemma {:induction false} RunKeepsInputs(w: World, actions: seq<Action>)
    requires Inv(w) && InputsOk(w) && Run(w, actions)
    ensures InputsOk(Final(w, actions)) && SameConfiguration(w.d, Final(w, actions).d)
    decreases |actions|
  {
    if actions != [] {
      StepKeepsInputs(w, actions[0]);
      StepKeepsInv(w, actions[0]);
      StepKeepsConfiguration(w, actions[0]);
      RunKeepsInputs(Step(w, actions[0]), actions[1..]);
    }
  }

  /** In every run of a device, under any messages, each key pair comes from the construction's chain key
      by exactly these seven inputs: a private key that the device drew, the ephemeral key that it was
      sent, its static key, the configured static key of the peer, and the preshared key. */
  lemma EveryPairInputs(
      privateKey: Term, publicKey: Term, remoteStatic: Term, psk: Term, now: int, actions: seq<Action>, n: nat)
    returns (e: nat, re: Term)
    requires Run(Start(privateKey, publicKey, remoteStatic, psk, now), actions)
    requires n < |Final(Start(privateKey, publicKey, remoteStatic, psk, now), actions).d.pairs|
    ensures var w := Final(Start(privateKey, publicKey, remoteStatic, psk, now), actions);
      var pair := w.d.pairs[n];
      && e in w.used && FromChain(pair) && Root(ChainOf(pair), 7) == CHAIN_KEY
      && MixedIn(ChainOf(pair), 7) ==
        if pair.isInitiator then InitiatorInputs(Scalar(e), privateKey, re, remoteStatic, psk)
        else ResponderInputs(Scalar(e), privateKey, re, remoteStatic, psk)
  {
    var start := Start(privateKey, publicKey, remoteStatic, psk, now);
    StartInv(privateKey, publicKey, remoteStatic, psk, now);
    RunKeepsInputs(start, actions);
    var w := Final(start, actions);
    assert PairInputs(w.d, w.used, w.d.pairs[n]);
    e, re :| e in w.used && HasInputs(w.d, w.d.pairs[n], e, re);
  }

  // ----- And nothing is left of it.

  // Without an open initiation the handshake holds no secret.
  ghost predicate SecretsGone(d: Device) {
    !Pending(d) ==> d.hs.chainKey == Zero && d.hs.localEphemeral == Zero
  }

  lemma AnswerSpends(d: Device, msg: MessageInitiation, e: Term, index: nat, checked: int, stored: int)
    requires HandleInitiation(d, msg, e, index, checked, stored).Some?
    ensures SecretsGone(HandleInitiation(d, msg, e, index, checked, stored).value.0)
  {
  }

  lemma StepKeepsSecretsGone(w: World, a: Action)
    requires Inv(w) && SecretsGone(w.d) && Possible(w, a)
    ensures SecretsGone(Step(w, a).d)
  {
    match a
    case OnInitiation(msg, e, index, checked, stored) =>
      if HandleInitiation(w.d, msg, Scalar(e), index, checked, stored).Some? {
        AnswerSpends(w.d, msg, Scalar(e), index, checked, stored);
      }
    case _ =>
  }

  lemma {:induction false} RunKeepsSecretsGone(w: World, actions: seq<Action>)
    requires Inv(w) && SecretsGone(w.d) && Run(w, actions)
    ensures Inv(Final(w, actions)) && SecretsGone(Final(w, actions).d)
    decreases |actions|
  {
    if actions != [] {
      StepKeepsSecretsGone(w, actions[0]);
      StepKeepsInv(w, actions[0]);
      RunKeepsSecretsGone(Step(w, actions[0]), actions[1..]);
    }
  }

  /** After every run, unless an initiation of the device waits for its response, chain key and ephemeral
      private key of the handshake are zero: what made the pairs cannot be computed again. */
  lemma SecretsErased(privateKey: Term, publicKey: Term, remoteStatic: Term, psk: Term, now: int, actions: seq<Action>)
    requires Run(Start(privateKey, publicKey, remoteStatic, psk, now), actions)
    ensures var hs := Final(Start(privateKey, publicKey, remoteStatic, psk, now), actions).d.hs;
      (hs.chainKey == Zero && hs.localEphemeral == Zero) || (hs.state == InitiationCreated && hs.localIndex != 0)
  {
    StartInv(privateKey, publicKey, remoteStatic, psk, now);
    RunKeepsSecretsGone(Start(privateKey, publicKey, remoteStatic, psk, now), actions);
  }

  // ----- Two devices.

  ghost predicate PartyInputs(w: World, self: nat, other: nat, psk: Term) {
    && InputsOk(w) && w.d.privateKey == Scalar(self) && w.d.hs.remoteStatic == Public(other)
    && w.d.hs.presharedKey == psk
  }

  ghost predicate BothInputs(s: Sessions.System, x: nat, y: nat, psk: Term) {
    Sessions.SystemInv(s, x, y) && PartyInputs(s.a, x, y, psk) && PartyInputs(s.b, y, x, psk)
  }

  lemma PartyKeepsInputs(w: World, a: Action, self: nat, other: nat, psk: Term)
    requires Inv(w) && Possible(w, a) && PartyInputs(w, self, other, psk)
    ensures PartyInputs(Step(w, a), self, other, psk)
  {
    StepKeepsInputs(w, a);
    StepKeepsConfiguration(w, a);
  }

  lemma MoveKeepsInputs(s: Sessions.System, x: nat, y: nat, psk: Term, move: Sessions.Move)
    requires BothInputs(s, x, y, psk) && Sessions.CanMove(s, move)
    ensures BothInputs(Sessions.SystemStep(s, move), x, y, psk)
  {
    Sessions.SystemStepKeepsInv(s, x, y, move);
    match move
    case Act(p, action) =>
      if p { PartyKeepsInputs(s.b, action, y, x, psk); } else { PartyKeepsInputs(s.a, action, x, y, psk); }
    case SendPacket(_) =>
  }

  lemma {:induction false} MovesKeepInputs(s: Sessions.System, x: nat, y: nat, psk: Term, moves: seq<Sessions.Move>)
    requires BothInputs(s, x, y, psk) && Sessions.SystemRun(s, moves)
    ensures BothInputs(Sessions.SystemFinal(s, moves), x, y, psk)
    decreases |moves|
  {
    if moves != [] {
      MoveKeepsInputs(s, x, y, psk, moves[0]);
      MovesKeepInputs(Sessions.SystemStep(s, moves[0]), x, y, psk, moves[1..]);
    }
  }

  lemma MirrorsShareChain(a: KeyPair, b: KeyPair)
    requires FromChain(a) && FromChain(b) && Agreement.MirrorKeys(a, b)
    ensures ChainOf(a) == ChainOf(b)
  {
    NoiseHelpers.HkdfInjective(ChainOf(a), [], 1, ChainOf(b), [], 1);
  }

  lemma SharedInputs(d: Device, a: KeyPair, e: nat, re: Term, d': Device, b: KeyPair, f: nat, re': Term)
    requires HasInputs(d, a, e, re) && HasInputs(d', b, f, re') && Agreement.MirrorKeys(a, b)
    ensures re == Public(f) && re' == Public(e)
  {
    MirrorsShareChain(a, b);
    var c := ChainOf(a);
    assert MixedIn(c, 7)[0] == [Public(e)] && MixedIn(c, 7)[0] == [re'];
    assert MixedIn(c, 7)[3] == [re] && MixedIn(c, 7)[3] == [Public(f)];
  }

  // A chain key of the construction whose inputs, as either side computes them, are those of a handshake
  // with these private keys: ephemeral `e` and static `x` of the initiator, `f` and `y` of the responder.
  predicate FromHandshake(c: Term, e: nat, x: nat, f: nat, y: nat, psk: Term) {
    && Root(c, 7) == CHAIN_KEY
    && MixedIn(c, 7) == InitiatorInputs(Scalar(e), Scalar(x), Public(f), Public(y), psk)
    && MixedIn(c, 7) == ResponderInputs(Scalar(f), Scalar(y), Public(e), Public(x), psk)
  }

  lemma MirroredInputs(w: World, v: World, x: nat, y: nat, psk: Term, n: nat, m: nat) returns (e: nat, f: nat)
    requires PartyInputs(w, x, y, psk) && PartyInputs(v, y, x, psk) && n < |w.d.pairs| && m < |v.d.pairs|
    requires Agreement.MirrorKeys(w.d.pairs[n], v.d.pairs[m])
    ensures e in w.used && f in v.used
    ensures FromHandshake(ChainOf(w.d.pairs[n]), e, x, f, y, psk) && ChainOf(w.d.pairs[n]) == ChainOf(v.d.pairs[m])
  {
    var (a, b) := (w.d.pairs[n], v.d.pairs[m]);
    assert PairInputs(w.d, w.used, a) && PairInputs(v.d, v.used, b);
    var re: Term, re': Term;
    e, re :| e in w.used && HasInputs(w.d, a, e, re);
    f, re' :| f in v.used && HasInputs(v.d, b, f, re');
    SharedInputs(w.d, a, e, re, v.d, b, f, re');
    MirrorsShareChain(a, b);
  }

  lemma RunHasInputs(x: nat, y: nat, psk: Term, now: int, moves: seq<Sessions.Move>)
    requires x != y && Sessions.SystemRun(Sessions.NewSystem(x, y, psk, now), moves)
    ensures BothInputs(Sessions.SystemFinal(Sessions.NewSystem(x, y, psk, now), moves), x, y, psk)
  {
    StartInv(Scalar(x), Public(x), Public(y), psk, now);
    StartInv(Scalar(y), Public(y), Public(x), psk, now);
    MovesKeepInputs(Sessions.NewSystem(x, y, psk, now), x, y, psk, moves);
  }

  /** In every run of two devices, each key pair of an initiator, and the one of the other device that
      mirrors it, comes from the handshake of these four private keys: one that each device drew for it,
      and the static keys of the two. */
  lemma EverySessionInputs(x: nat, y: nat, psk: Term, now: int, moves: seq<Sessions.Move>, p: bool, n: nat)
    returns (c: Sessions.Completion, e: nat, f: nat)
    requires x != y && Sessions.SystemRun(Sessions.NewSystem(x, y, psk, now), moves)
    requires var w := Sessions.SystemFinal(Sessions.NewSystem(x, y, psk, now), moves).Party(p);
      n < |w.d.pairs| && w.d.pairs[n].isInitiator
    ensures var s := Sessions.SystemFinal(Sessions.NewSystem(x, y, psk, now), moves);
      var (w, v) := (s.Party(p), s.Party(!p));
      && c in s.completed && c.party == p && c.pair == n && c.sent.pair < |v.d.pairs|
      && ChainOf(w.d.pairs[n]) == ChainOf(v.d.pairs[c.sent.pair]) && e in w.used && f in v.used
      && FromHandshake(ChainOf(w.d.pairs[n]), e, if p then y else x, f, if p then x else y, psk)
  {
    RunHasInputs(x, y, psk, now, moves);
    var s := Sessions.SystemFinal(Sessions.NewSystem(x, y, psk, now), moves);
    c := Sessions.InitiatorPairMirrored(s, x, y, p, n);
    if p {
      e, f := MirroredInputs(s.b, s.a, y, x, psk, n, c.sent.pair);
    } else {
      e, f := MirroredInputs(s.a, s.b, x, y, psk, n, c.sent.pair);
    }
  }
}
