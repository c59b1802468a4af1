/** Two devices over a network that loses, repeats and reorders their handshake messages and rewrites
    what is not sealed: every key pair of an initiator mirrors one that its peer holds, and every key
    pair of a responder that is used for sending mirrors one of the initiator. */
module Sessions {
  import opened Wrappers
  import opened Symbolic
  import NoiseHelpers
  import IndexTables
  import opened Noise
  import opened PeerRuns
  import opened Agreement
  import opened KeyRuns

  // A response that was sent: by whom, for which key pair, and from which handshake it was sealed.
  datatype Sent = Sent(msg: MessageResponse, party: bool, pair: nat, sealedFrom: Handshake, e: nat)

  // A response that was accepted, as it arrived, and the key pair that it gave.
  datatype Completion = Completion(party: bool, pair: nat, msg: MessageResponse, sent: Sent)

  // `packets` names the key pairs under which data was sent.
  datatype System = System(
    a: World, b: World, responses: set<Sent>, completed: set<Completion>, packets: set<(bool, nat)>) {
    function Party(p: bool): World { if p then b else a }

    function WithParty(p: bool, w: World): System { if p then this.(b := w) else this.(a := w) }
  }

  datatype Move = Act(party: bool, action: Action) | SendPacket(party: bool)

  // A packet under this pair of party `p` can have been sealed by someone.
  predicate WasSealed(s: System, p: bool, n: nat) {
    n < |s.Party(p).d.pairs| &&
    exists k <- s.packets ::
      k.1 < |s.Party(k.0).d.pairs| && s.Party(k.0).d.pairs[k.1].send == s.Party(p).d.pairs[n].receive
  }

  // Initiations may be anything.  A response carries a box that was sent, under any headers, any number
  // of times and in any order; a packet that opens was sealed.
  ghost predicate CanMove(s: System, move: Move) {
    match move
    case Act(p, action) =>
      && Possible(s.Party(p), action)
      && (action.OnResponse? ==> exists r <- s.responses :: r.msg.empty == action.response.empty)
      && (action.OnPacket? ==> WasSealed(s, p, action.pair))
    case SendPacket(p) => s.Party(p).d.slots.current.Some?
  }

  function Answer(w: World, p: bool, action: Action): set<Sent> {
    if !action.OnInitiation? then {}
    else
      match ConsumedInitiation(w.d.hs, w.d.privateKey, w.d.publicKey, action.msg, action.checked, action.stored)
      case None => {}
      case Some(hs) => {Sent(SealResponse(hs, Scalar(action.e), action.index).1, p, |w.d.pairs|, hs, action.e)}
  }

  function Completed(s: System, p: bool, action: Action): set<Completion> {
    if action.OnResponse? && HandleResponse(s.Party(p).d, action.response).Some? then
      set r | r in s.responses && r.msg.empty == action.response.empty ::
        Completion(p, |s.Party(p).d.pairs|, action.response, r)
    else {}
  }

  function SystemStep(s: System, move: Move): System {
    match move
    case Act(p, action) =>
      s.WithParty(p, Step(s.Party(p), action))
      .(responses := s.responses + Answer(s.Party(p), p, action), completed := s.completed + Completed(s, p, action))
    case SendPacket(p) =>
      var current := s.Party(p).d.slots.current;
      if current.Some? then s.(packets := s.packets + {(p, current.value)}) else s
  }

  ghost predicate SystemRun(s: System, moves: seq<Move>)
    decreases |moves|
  {
    moves != [] ==> CanMove(s, moves[0]) && SystemRun(SystemStep(s, moves[0]), moves[1..])
  }

  function SystemFinal(s: System, moves: seq<Move>): System
    decreases |moves|
  {
    if moves == [] then s else SystemFinal(SystemStep(s, moves[0]), moves[1..])
  }

  // ----- What stays true.

  // The responder's static key in the hash of an initiation.
  function NamedResponder(h: Term): Term {
    Latest(Before(Before(Before(h))))
  }

  // The key pair of a response that was sent is the one its sealing handshake derives.
  predicate SentOk(r: Sent, w: World) {
    var (hs, msg) := SealResponse(r.sealedFrom, Scalar(r.e), r.msg.sender);
    && r.msg == msg && r.pair < |w.d.pairs| && w.d.pairs[r.pair] == DerivedPair(hs)
    && NamedResponder(r.sealedFrom.hash) == w.d.publicKey
  }

  predicate Known(w: World, self: nat, other: nat) {
    && w.d.privateKey == Scalar(self) && w.d.publicKey == Public(self) && w.d.hs.remoteStatic == Public(other)
    && (Pending(w.d) ==> NamedResponder(w.d.hs.hash) == Public(other))
  }

  // The keys of the two pairs mirror each other; an index does exactly when its header field arrived as
  // it was sent.
  predicate CompletionOk(c: Completion, w: World, other: World) {
    && c.pair < |w.d.pairs| && c.sent.pair < |other.d.pairs| && c.msg.empty == c.sent.msg.empty
    && var (a, b) := (w.d.pairs[c.pair], other.d.pairs[c.sent.pair]);
       && MirrorKeys(a, b)
       && (a.remoteIndex == b.localIndex <==> c.msg.sender == c.sent.msg.sender)
       && (a.localIndex == b.remoteIndex <==> c.msg.receiver == c.sent.msg.receiver)
  }

  ghost predicate CompletionsOk(s: System) {
    forall c <- s.completed ::
      c.sent in s.responses && c.sent.party == !c.party && CompletionOk(c, s.Party(c.party), s.Party(!c.party))
  }

  predicate HasCompletion(s: System, p: bool, n: nat) {
    exists c <- s.completed :: c.party == p && c.pair == n
  }

  ghost predicate AllCompleted(s: System, p: bool) {
    forall n :: 0 <= n < |s.Party(p).d.pairs| && s.Party(p).d.pairs[n].isInitiator ==> HasCompletion(s, p, n)
  }

  // What was received was sealed.
  ghost predicate ReceivedSealed(s: System, p: bool) {
    forall n <- s.Party(p).received :: WasSealed(s, p, n)
  }

  ghost predicate PartyOk(w: World, self: nat, other: nat) {
    Inv(w) && KeysOwn(w) && Known(w, self, other)
  }

  ghost predicate SystemInv(s: System, x: nat, y: nat) {
    && x != y && PartyOk(s.a, x, y) && PartyOk(s.b, y, x)
    && (forall r <- s.responses :: SentOk(r, s.Party(r.party)))
    && CompletionsOk(s) && AllCompleted(s, false) && AllCompleted(s, true)
    && ReceivedSealed(s, false) && ReceivedSealed(s, true)
  }

  lemma StepKeepsNames(w: World, action: Action)
    ensures Step(w, action).d.publicKey == w.d.publicKey && Step(w, action).d.hs.remoteStatic == w.d.hs.remoteStatic
    ensures Step(w, action).d.privateKey == w.d.privateKey
  {
  }

  // An initiation is pending only if it just was created, or was pending before.
  lemma PendingFrom(w: World, action: Action)
    requires Inv(w) && Possible(w, action) && Pending(Step(w, action).d) && !action.Initiate?
    ensures Pending(w.d) && Step(w, action).d.hs.hash == w.d.hs.hash
  {
    match action
    case OnInitiation(msg, e, index, checked, stored) =>
      if HandleInitiation(w.d, msg, Scalar(e), index, checked, stored).Some? {
        AnsweredPair(w.d, msg, Scalar(e), index, checked, stored);
      }
    case OnResponse(response) => ResponseCompletesLatest(w.d, response);
    case _ =>
  }

  lemma SealedNamesResponder(hs: Handshake, e: Term, index: nat, publicKey: Term, stamp: Tai64.Bytes)
    ensures NamedResponder(SealInitiation(hs, e, index, publicKey, stamp).0.hash) == hs.remoteStatic
  {
  }

  lemma StepKeepsKnown(w: World, action: Action, self: nat, other: nat)
    requires Inv(w) && Known(w, self, other) && Possible(w, action)
    ensures Known(Step(w, action), self, other)
  {
    StepKeepsNames(w, action);
    if Pending(Step(w, action).d) {
      if action.Initiate? {
        SealedNamesResponder(w.d.hs, Scalar(action.e), action.index, w.d.publicKey, action.stamp);
      } else {
        PendingFrom(w, action);
      }
    }
  }

  // An accepted initiation names the device's own static key, and its pair is the one the answer records.
  lemma AnswerOk(w: World, p: bool, action: Action)
    ensures forall r <- Answer(w, p, action) :: r.party == p && SentOk(r, Step(w, action))
  {
    if action.OnInitiation? {
      var c := ConsumedInitiation(w.d.hs, w.d.privateKey, w.d.publicKey, action.msg, action.checked, action.stored);
      if c.Some? {
        AnswerIs(w.d, action.msg, Scalar(action.e), action.index, action.checked, action.stored);
        ConsumedNames(w.d.hs, w.d.privateKey, w.d.publicKey, action.msg, action.checked, action.stored);
        StepKeepsNames(w, action);
        AnswerIsSent(w, Step(w, action), p, c.value, action.e, action.index);
      }
    }
  }

  lemma AnswerIsSent(w: World, w': World, p: bool, hs: Handshake, e: nat, index: nat)
    requires w'.d.pairs == w.d.pairs + [DerivedPair(SealResponse(hs, Scalar(e), index).0)]
    requires NamedResponder(hs.hash) == w'.d.publicKey
    ensures SentOk(Sent(SealResponse(hs, Scalar(e), index).1, p, |w.d.pairs|, hs, e), w')
  {
  }

  lemma ConsumedNames(
      hs: Handshake, privateKey: Term, publicKey: Term, msg: MessageInitiation, checked: int, stored: int)
    requires ConsumedInitiation(hs, privateKey, publicKey, msg, checked, stored).Some?
    ensures NamedResponder(ConsumedInitiation(hs, privateKey, publicKey, msg, checked, stored).value.hash) == publicKey
  {
  }

  lemma SentGrows(r: Sent, w: World, w': World)
    requires SentOk(r, w) && w'.d.publicKey == w.d.publicKey
    requires |w.d.pairs| <= |w'.d.pairs| && w'.d.pairs[..|w.d.pairs|] == w.d.pairs
    ensures SentOk(r, w')
  {
  }

  // The pair an initiator derives from a box that was sent mirrors the sender's, and the sender is the
  // other device: a device does not accept its own box.
  lemma AcceptedMirrors(s: System, x: nat, y: nat, p: bool, r: Sent, m: MessageResponse)
    requires SystemInv(s, x, y) && r in s.responses && m.empty == r.msg.empty && HandleResponse(s.Party(p).d, m).Some?
    ensures r.party == !p
    ensures var d := s.Party(p).d; var d' := HandleResponse(d, m).value;
      |d'.pairs| == |d.pairs| + 1 && r.pair < |s.Party(!p).d.pairs|
      && var (a, b) := (d'.pairs[|d.pairs|], s.Party(!p).d.pairs[r.pair]);
         && MirrorKeys(a, b)
         && a.remoteIndex == m.sender && b.localIndex == r.msg.sender
         && a.localIndex == m.receiver && b.remoteIndex == r.msg.receiver
  {
    var d := s.Party(p).d;
    assert SentOk(r, s.Party(r.party));
    ResponseCompletesLatest(d, m);
    ResponseAgreement(d.hs, d.privateKey, m, r.sealedFrom, Scalar(r.e), r.msg.sender);
    CompletionIs(d, m);
  }

  // ----- Steps of one device.

  lemma PartyKept(w: World, action: Action, self: nat, other: nat)
    requires PartyOk(w, self, other) && Possible(w, action)
    ensures PartyOk(Step(w, action), self, other)
  {
    StepKeepsInv(w, action);
    StepKeepsKeysOwn(w, action);
    StepKeepsKnown(w, action, self, other);
  }

  predicate Extends(w: World, w': World) {
    |w.d.pairs| <= |w'.d.pairs| && w'.d.pairs[..|w.d.pairs|] == w.d.pairs
  }

  lemma SamePair(w: World, w': World, n: nat)
    requires Extends(w, w') && n < |w.d.pairs|
    ensures w'.d.pairs[n] == w.d.pairs[n]
  {
    assert w'.d.pairs[..|w.d.pairs|][n] == w.d.pairs[n];
  }

  lemma PartyExtends(w: World, action: Action)
    requires Consistent(w.d) && Possible(w, action)
    ensures Extends(w, Step(w, action))
    ensures Step(w, action).received == w.received + (if action.OnPacket? then {action.pair} else {})
  {
    SlotMoves(w, action);
  }

  // ----- Steps of the system.

  lemma ResponsesKept(s: System, x: nat, y: nat, p: bool, action: Action)
    requires SystemInv(s, x, y) && CanMove(s, Act(p, action))
    ensures var s' := SystemStep(s, Act(p, action)); forall r <- s'.responses :: SentOk(r, s'.Party(r.party))
  {
    var w, w', s' := s.Party(p), Step(s.Party(p), action), SystemStep(s, Act(p, action));
    AnswerOk(w, p, action);
    PartyExtends(w, action);
    StepKeepsNames(w, action);
    assert s'.Party(p) == w' && s'.Party(!p) == s.Party(!p);
    forall r <- s'.responses ensures SentOk(r, s'.Party(r.party)) {
      if r in s.responses && r.party == p { SentGrows(r, w, w'); }
    }
  }

  lemma CompletionStays(c: Completion, w: World, other: World, w': World, other': World)
    requires CompletionOk(c, w, other) && Extends(w, w') && Extends(other, other')
    ensures CompletionOk(c, w', other')
  {
    SamePair(w, w', c.pair);
    SamePair(other, other', c.sent.pair);
  }

  lemma CompletingStep(w: World, action: Action)
    requires action.OnResponse? && HandleResponse(w.d, action.response).Some?
    ensures Step(w, action).d == HandleResponse(w.d, action.response).value
  {
  }

  lemma CompletedIs(s: System, p: bool, action: Action, c: Completion)
    requires c in Completed(s, p, action)
    ensures action.OnResponse? && HandleResponse(s.Party(p).d, action.response).Some? && c.sent in s.responses
    ensures c == Completion(p, |s.Party(p).d.pairs|, action.response, c.sent)
    ensures c.sent.msg.empty == action.response.empty
  {
  }

  lemma NewCompletionOk(s: System, x: nat, y: nat, p: bool, action: Action, c: Completion)
    requires SystemInv(s, x, y) && c in Completed(s, p, action)
    ensures c.party == p && c.sent in s.responses && c.sent.party == !p
    ensures CompletionOk(c, Step(s.Party(p), action), s.Party(!p))
  {
    CompletedIs(s, p, action, c);
    AcceptedMirrors(s, x, y, p, c.sent, action.response);
    CompletingStep(s.Party(p), action);
  }

  lemma ExtendsItself(w: World)
    ensures Extends(w, w)
  {
  }

  lemma CompletionsKept(s: System, x: nat, y: nat, p: bool, action: Action)
    requires SystemInv(s, x, y) && CanMove(s, Act(p, action))
    ensures CompletionsOk(SystemStep(s, Act(p, action)))
  {
    var s' := SystemStep(s, Act(p, action));
    PartyExtends(s.Party(p), action);
    ExtendsItself(s.Party(!p));
    assert s'.Party(p) == Step(s.Party(p), action) && s'.Party(!p) == s.Party(!p);
    forall c <- s'.completed
      ensures c.sent in s'.responses && c.sent.party == !c.party
      ensures CompletionOk(c, s'.Party(c.party), s'.Party(!c.party))
    {
      if c in s.completed {
        CompletionStays(c, s.Party(c.party), s.Party(!c.party), s'.Party(c.party), s'.Party(!c.party));
      } else {
        NewCompletionOk(s, x, y, p, action, c);
      }
    }
  }

  lemma AllStayCompleted(s: System, s': System, p: bool)
    requires AllCompleted(s, p) && s.completed <= s'.completed && Extends(s.Party(p), s'.Party(p))
    requires forall n :: |s.Party(p).d.pairs| <= n < |s'.Party(p).d.pairs| && s'.Party(p).d.pairs[n].isInitiator ==>
      HasCompletion(s', p, n)
    ensures AllCompleted(s', p)
  {
    var w, w' := s.Party(p), s'.Party(p);
    forall n | 0 <= n < |w'.d.pairs| && w'.d.pairs[n].isInitiator ensures HasCompletion(s', p, n) {
      if n < |w.d.pairs| {
        SamePair(w, w', n);
        assert HasCompletion(s, p, n);
      }
    }
  }

  // An initiator's pair comes from a response.
  lemma InitiatorPairsFromResponses(w: World, action: Action, n: nat)
    requires Inv(w) && Possible(w, action)
    requires |w.d.pairs| <= n < |Step(w, action).d.pairs| && Step(w, action).d.pairs[n].isInitiator
    ensures action.OnResponse? && HandleResponse(w.d, action.response).Some? && n == |w.d.pairs|
    ensures Step(w, action).d == HandleResponse(w.d, action.response).value
  {
    match action
    case OnInitiation(msg, e, index, checked, stored) =>
      if ConsumedInitiation(w.d.hs, w.d.privateKey, w.d.publicKey, msg, checked, stored).Some? {
        AnswerIs(w.d, msg, Scalar(e), index, checked, stored);
      }
    case OnResponse(response) => ResponseCompletesLatest(w.d, response);
    case _ =>
  }

  lemma NewPairCompleted(s: System, x: nat, y: nat, p: bool, action: Action, n: nat)
    requires SystemInv(s, x, y) && CanMove(s, Act(p, action))
    requires |s.Party(p).d.pairs| <= n < |Step(s.Party(p), action).d.pairs|
    requires Step(s.Party(p), action).d.pairs[n].isInitiator
    ensures HasCompletion(SystemStep(s, Act(p, action)), p, n)
  {
    InitiatorPairsFromResponses(s.Party(p), action, n);
    var r :| r in s.responses && r.msg.empty == action.response.empty;
    assert Completion(p, n, action.response, r) in Completed(s, p, action);
  }

  lemma AllKeptCompleted(s: System, x: nat, y: nat, p: bool, action: Action)
    requires SystemInv(s, x, y) && CanMove(s, Act(p, action))
    ensures AllCompleted(SystemStep(s, Act(p, action)), false) && AllCompleted(SystemStep(s, Act(p, action)), true)
  {
    var s' := SystemStep(s, Act(p, action));
    PartyExtends(s.Party(p), action);
    assert s'.Party(p) == Step(s.Party(p), action) && s'.Party(!p) == s.Party(!p);
    forall n | |s.Party(p).d.pairs| <= n < |s'.Party(p).d.pairs| && s'.Party(p).d.pairs[n].isInitiator
      ensures HasCompletion(s', p, n)
    {
      NewPairCompleted(s, x, y, p, action, n);
    }
    AllStayCompleted(s, s', p);
    ExtendsItself(s.Party(!p));
    AllStayCompleted(s, s', !p);
  }

  lemma StaysSealed(s: System, s': System, p: bool, n: nat)
    requires WasSealed(s, p, n) && s.packets <= s'.packets && Extends(s.a, s'.a) && Extends(s.b, s'.b)
    ensures WasSealed(s', p, n)
  {
    var k :| k in s.packets && k.1 < |s.Party(k.0).d.pairs| &&
      s.Party(k.0).d.pairs[k.1].send == s.Party(p).d.pairs[n].receive;
    SamePair(s.Party(k.0), s'.Party(k.0), k.1);
    SamePair(s.Party(p), s'.Party(p), n);
    assert k in s'.packets;
  }

  lemma ReceivedStaySealed(s: System, s': System, p: bool)
    requires ReceivedSealed(s, p) && s.packets <= s'.packets && Extends(s.a, s'.a) && Extends(s.b, s'.b)
    requires forall n <- s'.Party(p).received :: n in s.Party(p).received || WasSealed(s, p, n)
    ensures ReceivedSealed(s', p)
  {
    forall n <- s'.Party(p).received ensures WasSealed(s', p, n) { StaysSealed(s, s', p, n); }
  }

  lemma ReceivedKept(s: System, x: nat, y: nat, p: bool, action: Action)
    requires SystemInv(s, x, y) && CanMove(s, Act(p, action))
    ensures ReceivedSealed(SystemStep(s, Act(p, action)), false) && ReceivedSealed(SystemStep(s, Act(p, action)), true)
  {
    var s' := SystemStep(s, Act(p, action));
    PartyExtends(s.Party(p), action);
    ExtendsItself(s.Party(!p));
    assert s'.Party(p) == Step(s.Party(p), action) && s'.Party(!p) == s.Party(!p);
    ReceivedStaySealed(s, s', p);
    ReceivedStaySealed(s, s', !p);
  }

  lemma SystemStepKeepsInv(s: System, x: nat, y: nat, move: Move)
    requires SystemInv(s, x, y) && CanMove(s, move)
    ensures SystemInv(SystemStep(s, move), x, y)
  {
    match move
    case Act(p, action) =>
      if p { PartyKept(s.b, action, y, x); } else { PartyKept(s.a, action, x, y); }
      ResponsesKept(s, x, y, p, action);
      CompletionsKept(s, x, y, p, action);
      AllKeptCompleted(s, x, y, p, action);
      ReceivedKept(s, x, y, p, action);
    case SendPacket(p) => SendingKeeps(s, x, y, p);
  }

  lemma SendingKeeps(s: System, x: nat, y: nat, p: bool)
    requires SystemInv(s, x, y) && CanMove(s, SendPacket(p))
    ensures SystemInv(SystemStep(s, SendPacket(p)), x, y)
  {
    var s' := SystemStep(s, SendPacket(p));
    ExtendsItself(s.a);
    ExtendsItself(s.b);
    assert forall q: bool :: s'.Party(q) == s.Party(q);
    forall c <- s'.completed
      ensures c.sent in s'.responses && c.sent.party == !c.party
      ensures CompletionOk(c, s'.Party(c.party), s'.Party(!c.party))
    {}
    AllStayCompleted(s, s', false);
    AllStayCompleted(s, s', true);
    ReceivedStaySealed(s, s', false);
    ReceivedStaySealed(s, s', true);
  }

  lemma {:induction false} SystemRunKeepsInv(s: System, x: nat, y: nat, moves: seq<Move>)
    requires SystemInv(s, x, y) && SystemRun(s, moves)
    ensures SystemInv(SystemFinal(s, moves), x, y)
    decreases |moves|
  {
    if moves != [] {
      SystemStepKeepsInv(s, x, y, moves[0]);
      SystemRunKeepsInv(SystemStep(s, moves[0]), x, y, moves[1..]);
    }
  }

  // ----- What every run ends with.

  function Fresh(x: nat, y: nat, psk: Term, now: int): World {
    Start(Scalar(x), Public(x), Public(y), psk, now)
  }

  // Two devices configured for each other, before anything happened.
  function NewSystem(x: nat, y: nat, psk: Term, now: int): System {
    System(Fresh(x, y, psk, now), Fresh(y, x, psk, now), {}, {}, {})
  }

  lemma EveryRunKeepsInv(x: nat, y: nat, psk: Term, now: int, moves: seq<Move>)
    requires x != y && SystemRun(NewSystem(x, y, psk, now), moves)
    ensures SystemInv(SystemFinal(NewSystem(x, y, psk, now), moves), x, y)
  {
    StartInv(Scalar(x), Public(x), Public(y), psk, now);
    StartInv(Scalar(y), Public(y), Public(x), psk, now);
    SystemRunKeepsInv(NewSystem(x, y, psk, now), x, y, moves);
  }

  lemma InitiatorPairMirrored(s: System, x: nat, y: nat, p: bool, n: nat) returns (c: Completion)
    requires SystemInv(s, x, y) && n < |s.Party(p).d.pairs| && s.Party(p).d.pairs[n].isInitiator
    ensures c in s.completed && c.party == p && c.pair == n && c.sent in s.responses && c.sent.party == !p
    ensures CompletionOk(c, s.Party(p), s.Party(!p))
  {
    assert AllCompleted(s, p) && HasCompletion(s, p, n);
    c :| c in s.completed && c.party == p && c.pair == n;
  }

  // Agreement: in every run, with any interleaving of sessions, forged initiations, and responses lost,
  // repeated, reordered or under rewritten headers, each key pair that a device made as an initiator
  // came from a response of the other device, whose key pair mirrors its keys; the indices mirror
  // exactly when the header fields arrived as they were sent.
  lemma EveryInitiatorPairMirrored(x: nat, y: nat, psk: Term, now: int, moves: seq<Move>, p: bool, n: nat)
    returns (c: Completion)
    requires x != y && SystemRun(NewSystem(x, y, psk, now), moves)
    requires var w := SystemFinal(NewSystem(x, y, psk, now), moves).Party(p);
      n < |w.d.pairs| && w.d.pairs[n].isInitiator
    ensures var s := SystemFinal(NewSystem(x, y, psk, now), moves);
      && c in s.completed && c.party == p && c.pair == n && c.sent in s.responses && c.sent.party == !p
      && CompletionOk(c, s.Party(p), s.Party(!p))
  {
    EveryRunKeepsInv(x, y, psk, now, moves);
    c := InitiatorPairMirrored(SystemFinal(NewSystem(x, y, psk, now), moves), x, y, p, n);
  }

  predicate InSlot(slots: Slots, n: nat) {
    slots.previous == Some(n) || slots.current == Some(n) || slots.next == Some(n)
  }

  // A packet sealed under a pair names the pair's remote index; the table of the device that gets it
  // holds there the pair `n`, as long as that is in a slot, exactly when the index is the pair's own.
  lemma IndexFindsPair(d: Device, n: nat, index: nat)
    requires Consistent(d) && InSlot(d.slots, n)
    ensures n < |d.pairs|
    ensures index in d.table && d.table[index] == IndexTables.KeyPairEntry(n) <==> index == d.pairs[n].localIndex
  {
  }

  /** In every run, while the mirror of a pair is in a slot, packets under the pair are looked up to the
      mirror if and only if the header field that named the index arrived as it was sent; in both
      directions. */
  lemma PacketsFindTheirPair(x: nat, y: nat, psk: Term, now: int, moves: seq<Move>, p: bool, n: nat)
    returns (c: Completion)
    requires x != y && SystemRun(NewSystem(x, y, psk, now), moves)
    requires var w := SystemFinal(NewSystem(x, y, psk, now), moves).Party(p);
      n < |w.d.pairs| && w.d.pairs[n].isInitiator
    ensures var s := SystemFinal(NewSystem(x, y, psk, now), moves); var (d, d') := (s.Party(p).d, s.Party(!p).d);
      && c in s.completed && c.party == p && c.pair == n && c.sent.pair < |d'.pairs|
      && MirrorKeys(d.pairs[n], d'.pairs[c.sent.pair])
      && (InSlot(d'.slots, c.sent.pair) ==>
           (d.pairs[n].remoteIndex in d'.table
            && d'.table[d.pairs[n].remoteIndex] == IndexTables.KeyPairEntry(c.sent.pair)
            <==> c.msg.sender == c.sent.msg.sender))
      && (InSlot(d.slots, n) ==>
           (d'.pairs[c.sent.pair].remoteIndex in d.table
            && d.table[d'.pairs[c.sent.pair].remoteIndex] == IndexTables.KeyPairEntry(n)
            <==> c.msg.receiver == c.sent.msg.receiver))
  {
    EveryRunKeepsInv(x, y, psk, now, moves);
    var s := SystemFinal(NewSystem(x, y, psk, now), moves);
    c := InitiatorPairMirrored(s, x, y, p, n);
    var (d, d') := (s.Party(p).d, s.Party(!p).d);
    if InSlot(d'.slots, c.sent.pair) { IndexFindsPair(d', c.sent.pair, d.pairs[n].remoteIndex); }
    if InSlot(d.slots, n) { IndexFindsPair(d, n, d'.pairs[c.sent.pair].remoteIndex); }
  }

  // The mirror is one to one: in every run a key pair mirrors at most one of the other device's, and no
  // two key pairs mirror the same.
  lemma MirrorIsInjective(
      x: nat, y: nat, psk: Term, now: int, moves: seq<Move>, p: bool, n: nat, m: nat, n': nat, m': nat)
    requires x != y && SystemRun(NewSystem(x, y, psk, now), moves)
    requires var s := SystemFinal(NewSystem(x, y, psk, now), moves);
      && n < |s.Party(p).d.pairs| && n' < |s.Party(p).d.pairs|
      && m < |s.Party(!p).d.pairs| && m' < |s.Party(!p).d.pairs|
      && MirrorKeys(s.Party(p).d.pairs[n], s.Party(!p).d.pairs[m])
      && MirrorKeys(s.Party(p).d.pairs[n'], s.Party(!p).d.pairs[m'])
    ensures n == n' <==> m == m'
  {
    var s := SystemFinal(NewSystem(x, y, psk, now), moves);
    EveryRunKeepsInv(x, y, psk, now, moves);
    if n != n' { PairsApart(s.Party(p), n, n'); }
    if m != m' { PairsApart(s.Party(!p), m, m'); }
  }

  // A receiving key of a responder's pair can only be the sending key of an initiator's pair with the
  // same chain key.
  lemma SealedByInitiator(w: World, n: nat, v: World, m: nat)
    requires KeysOwn(w) && n < |w.d.pairs| && !w.d.pairs[n].isInitiator && KeysOwn(v) && m < |v.d.pairs|
    requires v.d.pairs[m].send == w.d.pairs[n].receive
    ensures MirrorKeys(v.d.pairs[m], w.d.pairs[n]) && ChainOf(v.d.pairs[m]) == ChainOf(w.d.pairs[n])
  {
    var a, b := v.d.pairs[m], w.d.pairs[n];
    assert PairOk(v.d, v.used, a) && PairOk(w.d, w.used, b);
    NoiseHelpers.HkdfInjective(ChainOf(a), [], if a.isInitiator then 1 else 2, ChainOf(b), [], 1);
  }

  // A device never is its own peer: the secret of its initiations is with the other's static key.
  lemma NotItself(w: World, x: nat, y: nat, n: nat, m: nat)
    requires KeysOwn(w) && Known(w, x, y) && x != y && n < |w.d.pairs| && m < |w.d.pairs|
    requires w.d.pairs[m].isInitiator && !w.d.pairs[n].isInitiator
    ensures ChainOf(w.d.pairs[m]) != ChainOf(w.d.pairs[n])
  {
    assert PairOk(w.d, w.used, w.d.pairs[m]) && PairOk(w.d, w.used, w.d.pairs[n]);
  }

  lemma ConfirmedPairMirrored(s: System, x: nat, y: nat, p: bool, n: nat) returns (m: nat)
    requires SystemInv(s, x, y) && s.Party(p).d.slots.current == Some(n)
    requires n < |s.Party(p).d.pairs| && !s.Party(p).d.pairs[n].isInitiator
    ensures m < |s.Party(!p).d.pairs| && MirrorKeys(s.Party(!p).d.pairs[m], s.Party(p).d.pairs[n])
  {
    var w := s.Party(p);
    assert n in w.received && ReceivedSealed(s, p);
    var k :| k in s.packets && k.1 < |s.Party(k.0).d.pairs| && s.Party(k.0).d.pairs[k.1].send == w.d.pairs[n].receive;
    SealedByInitiator(w, n, s.Party(k.0), k.1);
    if k.0 == p {
      if p { NotItself(w, y, x, n, k.1); } else { NotItself(w, x, y, n, k.1); }
    }
    m := k.1;
  }

  // Key confirmation between the two: in every run, a key pair that a device made as a responder and
  // uses for sending mirrors a key pair that the other device made as an initiator.
  lemma CurrentResponderMirrored(x: nat, y: nat, psk: Term, now: int, moves: seq<Move>, p: bool, n: nat)
    returns (m: nat)
    requires x != y && SystemRun(NewSystem(x, y, psk, now), moves)
    requires var d := SystemFinal(NewSystem(x, y, psk, now), moves).Party(p).d;
      d.slots.current == Some(n) && n < |d.pairs| && !d.pairs[n].isInitiator
    ensures var s := SystemFinal(NewSystem(x, y, psk, now), moves);
      m < |s.Party(!p).d.pairs| && MirrorKeys(s.Party(!p).d.pairs[m], s.Party(p).d.pairs[n])
  {
    EveryRunKeepsInv(x, y, psk, now, moves);
    m := ConfirmedPairMirrored(SystemFinal(NewSystem(x, y, psk, now), moves), x, y, p, n);
  }

  // No key of a device both seals and opens: what it sealed it cannot take for the other's.
  lemma NoReflection(w: World, x: nat, y: nat)
    requires KeysOwn(w) && Known(w, x, y) && x != y
    ensures Unreflected(w.d.pairs)
  {
    forall i, j | 0 <= i < |w.d.pairs| && 0 <= j < |w.d.pairs| ensures w.d.pairs[i].send != w.d.pairs[j].receive {
      NeverOwnKey(w, x, y, i, j);
    }
  }

  lemma NeverOwnKey(w: World, x: nat, y: nat, i: nat, j: nat)
    requires KeysOwn(w) && Known(w, x, y) && x != y && i < |w.d.pairs| && j < |w.d.pairs|
    ensures w.d.pairs[i].send != w.d.pairs[j].receive
  {
    var a, b := w.d.pairs[i], w.d.pairs[j];
    assert PairOk(w.d, w.used, a) && PairOk(w.d, w.used, b);
    if a.isInitiator && !b.isInitiator { NotItself(w, x, y, j, i); }
    if !a.isInitiator && b.isInitiator { NotItself(w, x, y, i, j); }
  }

  // Neither device has two key pairs with the same key, or one whose keys are another's turned round.
  lemma KeysOfBoth(x: nat, y: nat, psk: Term, now: int, moves: seq<Move>, p: bool)
    requires x != y && SystemRun(NewSystem(x, y, psk, now), moves)
    ensures var pairs := SystemFinal(NewSystem(x, y, psk, now), moves).Party(p).d.pairs;
      DistinctKeys(pairs) && Unreflected(pairs)
  {
    var s := SystemFinal(NewSystem(x, y, psk, now), moves);
    EveryRunKeepsInv(x, y, psk, now, moves);
    OwnKeysDistinct(s.Party(p));
    if p { NoReflection(s.b, y, x); } else { NoReflection(s.a, x, y); }
  }
}
