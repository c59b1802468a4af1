/** The cookie challenge of `controller/cookie.go`.  A message is its body, the MAC under a key that
    everyone who knows the public key can compute, and the MAC under a cookie that only its source got. */
module Cookie {
  import opened Wrappers
  import opened Symbolic

  // CookieRefreshTime, in nanoseconds
  const COOKIE_REFRESH_TIME: int := 120_000_000_000

  const LABEL_MAC1 := "mac1----"
  const LABEL_COOKIE := "cookie--"

  datatype Source = Source(ip: string, port: nat)

  datatype CookieReply = CookieReply(receiver: nat, nonce: Term, cookie: Term)

  // The parts of the two objects that change; a time not yet set is the zero time.
  datatype CheckerState = CheckerState(secret: Term, secretSet: Option<int>)
  datatype GeneratorState = GeneratorState(cookie: Term, cookieSet: Option<int>, lastMac1: Option<Term>)

  function Mac1Key(pk: Term): Term { Hash([Text(LABEL_MAC1), pk]) }

  function EncryptionKey(pk: Term): Term { Hash([Text(LABEL_COOKIE), pk]) }

  function Mac1(pk: Term, body: Chunks): Term { Mac(Mac1Key(pk), body) }

  function Mac2(cookie: Term, body: Chunks, mac1: Term): Term { Mac(cookie, body + [mac1]) }

  function CookieFor(secret: Term, source: Source): Term { Mac(secret, [Text(source.ip), Byte(source.port)]) }

  predicate Expired(setAt: Option<int>, now: int) {
    setAt.None? || now - setAt.value > COOKIE_REFRESH_TIME
  }

  // A request for a reply: the times are the two readings of the clock, the rest comes from the
  // random source.
  datatype ReplyRequest =
    ReplyRequest(mac1: Term, receiver: nat, source: Source, now: int, later: int, random: Term, nonce: Term)

  function Refreshed(c: CheckerState, r: ReplyRequest): CheckerState {
    if Expired(c.secretSet, r.now) then CheckerState(r.random, Some(r.later)) else c
  }

  function ReplyTo(pk: Term, c: CheckerState, r: ReplyRequest): CookieReply {
    CookieReply(r.receiver, r.nonce,
      Sealed(EncryptionKey(pk), r.nonce, [CookieFor(Refreshed(c, r).secret, r.source)], [r.mac1]))
  }

  predicate PassesMac2(c: CheckerState, body: Chunks, mac1: Term, mac2: Term, source: Source, now: int) {
    !Expired(c.secretSet, now) && mac2 == Mac2(CookieFor(c.secret, source), body, mac1)
  }

  // The cookie in a reply that answers the last message; a reply has room for one cookie.
  function Opened(pk: Term, g: GeneratorState, reply: CookieReply): Option<Term> {
    if g.lastMac1.None? then None
    else
      var plain := Open(EncryptionKey(pk), reply.nonce, reply.cookie, [g.lastMac1.value]);
      if plain.Some? && |plain.value| == 1 then Some(plain.value[0]) else None
  }

  function Consumed(pk: Term, g: GeneratorState, reply: CookieReply, now: int): GeneratorState {
    var plain := Opened(pk, g, reply);
    if plain.Some? then GeneratorState(plain.value, Some(now), g.lastMac1) else g
  }

  class Message {
    const body: Chunks
    var mac1: Term
    var mac2: Term

    constructor (body: Chunks)
      ensures this.body == body && mac1 == Zero && mac2 == Zero
    {
      this.body, mac1, mac2 := body, Zero, Zero;
    }
  }

  class CookieChecker {
    const publicKey: Term
    const mac1Key: Term
    const encryptionKey: Term
    var secret: Term
    var secretSet: Option<int>

    ghost predicate Valid() {
      mac1Key == Mac1Key(publicKey) && encryptionKey == EncryptionKey(publicKey)
    }

    function State(): CheckerState
      reads this
    {
      CheckerState(secret, secretSet)
    }

    constructor (pk: Term)
      ensures Valid() && publicKey == pk && State() == CheckerState(Zero, None)
    {
      publicKey := pk;
      mac1Key := Hash([Text(LABEL_MAC1), pk]);
      encryptionKey := Hash([Text(LABEL_COOKIE), pk]);
      secret := Zero;
      secretSet := None;
    }

    method CheckMAC1(msg: Message) returns (ok: bool)
      requires Valid()
      ensures ok <==> msg.mac1 == Mac1(publicKey, msg.body)
    {
      var mac1 := Mac(mac1Key, msg.body);
      ok := mac1 == msg.mac1;
    }

    method CheckMAC2(msg: Message, source: Source, now: int) returns (ok: bool)
      requires Valid()
      ensures ok <==> PassesMac2(State(), msg.body, msg.mac1, msg.mac2, source, now)
    {
      if secretSet.None? || now - secretSet.value > COOKIE_REFRESH_TIME {
        return false;
      }
      var cookie := Mac(secret, [Text(source.ip), Byte(source.port)]);
      var mac2 := Mac(cookie, msg.body + [msg.mac1]);
      ok := mac2 == msg.mac2;
    }

    method CreateReply(msg: Message, receiver: nat, source: Source, now: int, later: int, random: Term, nonce: Term)
      returns (reply: CookieReply)
      requires Valid()
      modifies this
      ensures var r := ReplyRequest(msg.mac1, receiver, source, now, later, random, nonce);
        reply == ReplyTo(publicKey, old(State()), r) && State() == Refreshed(old(State()), r)
    {
      if secretSet.None? || now - secretSet.value > COOKIE_REFRESH_TIME {
        secret := random;
        secretSet := Some(later);
      }
      var cookie := Mac(secret, [Text(source.ip), Byte(source.port)]);
      reply := CookieReply(receiver, nonce, Sealed(encryptionKey, nonce, [cookie], [msg.mac1]));
    }
  }

  class CookieGenerator {
    const publicKey: Term
    const mac1Key: Term
    const encryptionKey: Term
    var cookie: Term
    var cookieSet: Option<int>
    var hasLastMAC1: bool
    var lastMAC1: Term

    ghost predicate Valid() {
      mac1Key == Mac1Key(publicKey) && encryptionKey == EncryptionKey(publicKey)
    }

    function State(): GeneratorState
      reads this
    {
      GeneratorState(cookie, cookieSet, if hasLastMAC1 then Some(lastMAC1) else None)
    }

    constructor (pk: Term)
      ensures Valid() && publicKey == pk && State() == GeneratorState(Zero, None, None)
    {
      publicKey := pk;
      mac1Key := Hash([Text(LABEL_MAC1), pk]);
      encryptionKey := Hash([Text(LABEL_COOKIE), pk]);
      cookie, cookieSet, hasLastMAC1, lastMAC1 := Zero, None, false, Zero;
    }

    method ConsumeReply(reply: CookieReply, now: int) returns (ok: bool)
      requires Valid()
      modifies this
      ensures State() == Consumed(publicKey, old(State()), reply, now)
      ensures ok <==> Opened(publicKey, old(State()), reply).Some?
    {
      if !hasLastMAC1 {
        return false;
      }
      var plain := Open(encryptionKey, reply.nonce, reply.cookie, [lastMAC1]);
      if plain.None? || |plain.value| != 1 {
        return false;
      }
      cookieSet := Some(now);
      cookie := plain.value[0];
      ok := true;
    }

    method AddMacs(msg: Message, now: int)
      requires Valid()
      modifies this, msg
      ensures msg.mac1 == Mac1(publicKey, msg.body)
      ensures msg.mac2 == if Expired(old(cookieSet), now) then old(msg.mac2) else Mac2(old(cookie), msg.body, msg.mac1)
      ensures State() == old(State()).(lastMac1 := Some(msg.mac1))
    {
      msg.mac1 := Mac(mac1Key, msg.body);
      lastMAC1 := msg.mac1;
      hasLastMAC1 := true;
      if cookieSet.None? || now - cookieSet.value > COOKIE_REFRESH_TIME {
        return;
      }
      msg.mac2 := Mac(cookie, msg.body + [msg.mac1]);
    }
  }

  // ----- What a MAC is bound to.

  /** The first MAC belongs to one public key and one body, the second to one cookie, one body and one
      first MAC. */
  lemma MacsBind(pk: Term, body: Chunks, pk': Term, body': Chunks, cookie: Term, mac1: Term, cookie': Term, mac1': Term)
    ensures Mac1(pk, body) == Mac1(pk', body') <==> pk == pk' && body == body'
    ensures Mac2(cookie, body, mac1) == Mac2(cookie', body', mac1') <==>
      cookie == cookie' && body == body' && mac1 == mac1'
  {
    assert |body + [mac1]| == |body| + 1 && |body' + [mac1']| == |body'| + 1;
    assert (body + [mac1])[..|body|] == body && (body + [mac1])[|body|] == mac1;
    assert (body' + [mac1'])[..|body'|] == body' && (body' + [mac1'])[|body'|] == mac1';
  }

  /** A message that a generator finished passes the first check of a checker, under any body, exactly if
      the two have the same public key and the body is the one it was made for. */
  method FirstMacBinds(g: CookieGenerator, c: CookieChecker, msg: Message, now: int, body: Chunks) returns (ok: bool)
    requires g.Valid() && c.Valid()
    modifies g, msg
    ensures ok <==> c.publicKey == g.publicKey && body == msg.body
  {
    g.AddMacs(msg, now);
    var forged := new Message(body);
    forged.mac1 := msg.mac1;
    ok := c.CheckMAC1(forged);
    MacsBind(g.publicKey, msg.body, c.publicKey, body, Zero, Zero, Zero, Zero);
  }

  /** With a cookie that is fresh, the second MAC passes the second check, under any body and any first MAC,
      exactly if the checker's secret is fresh and gives this source that cookie, and body and first MAC
      are the ones it was made for. */
  method SecondMacBinds(
      g: CookieGenerator, c: CookieChecker, msg: Message, used: int, body: Chunks, mac1: Term, source: Source,
      checked: int)
    returns (ok: bool)
    requires g.Valid() && c.Valid() && !Expired(g.cookieSet, used)
    modifies g, msg
    ensures ok <==>
      && !Expired(c.secretSet, checked) && CookieFor(c.secret, source) == old(g.cookie)
      && body == msg.body && mac1 == Mac1(g.publicKey, msg.body)
  {
    g.AddMacs(msg, used);
    var forged := new Message(body);
    forged.mac1, forged.mac2 := mac1, msg.mac2;
    ok := c.CheckMAC2(forged, source, checked);
    MacsBind(Zero, msg.body, Zero, body, g.cookie, msg.mac1, CookieFor(c.secret, source), mac1);
  }

  // ----- Over time.

  // The checker after any number of replies to anyone.
  function AfterReplies(c: CheckerState, requests: seq<ReplyRequest>): CheckerState
    decreases |requests|
  {
    if requests == [] then c else AfterReplies(Refreshed(c, requests[0]), requests[1..])
  }

  // Requests before a moment, each with random bytes that differ from the secret in question.
  ghost predicate Before(requests: seq<ReplyRequest>, till: int, secret: Term) {
    forall r <- requests :: r.now <= till && r.random != secret
  }

  /** A secret is replaced exactly when a reply is made after its age exceeds the refresh time; once
      replaced it does not come back. */
  lemma {:induction false} SecretReplaced(c: CheckerState, requests: seq<ReplyRequest>, till: int, secret: Term)
    requires Before(requests, till, secret)
    ensures c.secret != secret ==> AfterReplies(c, requests).secret != secret
    ensures (forall r <- requests :: !Expired(c.secretSet, r.now)) ==> AfterReplies(c, requests) == c
    ensures (exists r <- requests :: Expired(c.secretSet, r.now)) ==> AfterReplies(c, requests).secret != secret
    decreases |requests|
  {
    if requests != [] {
      assert requests == [requests[0]] + requests[1..];
      SecretReplaced(Refreshed(c, requests[0]), requests[1..], till, secret);
    }
  }

  /** A reply is accepted exactly by a generator with the checker's public key whose last message it
      answers. */
  lemma ReplyAccepted(pk: Term, c: CheckerState, r: ReplyRequest, g: GeneratorState, now: int)
    ensures forall pk' :: Opened(pk', g, ReplyTo(pk, c, r)).Some? <==> pk' == pk && g.lastMac1 == Some(r.mac1)
    ensures g.lastMac1 == Some(r.mac1) ==>
      Consumed(pk, g, ReplyTo(pk, c, r), now) ==
        GeneratorState(CookieFor(Refreshed(c, r).secret, r.source), Some(now), g.lastMac1)
  {
  }

  // The second MAC of a new message.
  function SecondMac(pk: Term, g: GeneratorState, body: Chunks, now: int): Term {
    if Expired(g.cookieSet, now) then Zero else Mac2(g.cookie, body, Mac1(pk, body))
  }

  lemma CookiesDiffer(secret: Term, source: Source, secret': Term, source': Source)
    ensures CookieFor(secret, source) == CookieFor(secret', source') <==> secret == secret' && source == source'
  {
  }

  /** The whole challenge.  A generator takes the cookie from a reply to its last message at `taken`
      and uses it at `used`; the checker, having replied to anyone in between, checks it at `checked`.
      The check passes exactly from the source that was given the cookie, while the cookie was fresh
      when used and the secret's age has not exceeded the refresh time. */
  lemma CookieRoundTrip(
      pk: Term, c: CheckerState, r: ReplyRequest, g: GeneratorState, taken: int, used: int, body: Chunks,
      others: seq<ReplyRequest>, source: Source, checked: int)
    requires g.lastMac1 == Some(r.mac1)
    requires Before(others, checked, Refreshed(c, r).secret)
    ensures var (c1, g1) := (Refreshed(c, r), Consumed(pk, g, ReplyTo(pk, c, r), taken));
      && c1.secretSet == (
           if c.secretSet.Some? && r.now - c.secretSet.value <= 120_000_000_000 then c.secretSet else Some(r.later))
      && (PassesMac2(AfterReplies(c1, others), body, Mac1(pk, body), SecondMac(pk, g1, body, used),
                     source, checked) <==>
          && source == r.source
          && used - taken <= 120_000_000_000
          && checked - c1.secretSet.value <= 120_000_000_000)
  {
    var c1 := Refreshed(c, r);
    var c2 := AfterReplies(c1, others);
    SecretReplaced(c1, others, checked, c1.secret);
    ReplyAccepted(pk, c, r, g, taken);
    CookiesDiffer(c1.secret, r.source, c2.secret, source);
  }
}
