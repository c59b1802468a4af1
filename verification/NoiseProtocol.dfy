/** The handshake of `controller/noise_protocol.go` in place: fields and arrays overwritten step by
    step, each operation proved to compute the corresponding function of module Noise. */
module NoiseProtocol {
  import opened Wrappers
  import opened Symbolic
  import opened NoiseHelpers
  import opened IndexTables
  import Tai64
  import N = Noise

  method MixHash(dst: Block, h: Block, data: Term)
    modifies dst
    ensures dst.value == N.MixHash(old(h.value), data)
  {
    dst.value := Hash([h.value, data]);
  }

  method MixKey(dst: Block, c: Block, data: Term)
    modifies dst
    ensures dst.value == N.MixKey(old(c.value), data)
  {
    KDF1(dst, c, [data]);
  }

  ghost predicate Holds(h: Block, c: Block, key: Block, t: N.Transcript)
    reads h, c, key
  {
    t == N.Transcript(h.value, c.value, key.value)
  }

  // From the initial values to the key that seals the static key.
  method MixEphemeral(h: Block, c: Block, key: Block, responderStatic: Term, ephemeral: Term, es: Term)
    requires h != c && h != key && c != key
    requires h.value == N.INITIAL_HASH && c.value == N.INITIAL_CHAIN_KEY
    modifies h, c, key
    ensures Holds(h, c, key, N.AfterEphemeral(responderStatic, ephemeral, es))
  {
    MixHash(h, h, responderStatic);
    MixKey(c, c, ephemeral);
    MixHash(h, h, ephemeral);
    KDF2(c, key, c, [es]);
  }

  // On to the key that seals the timestamp.
  method MixStatic(h: Block, c: Block, key: Block, encStatic: Term, ss: Term)
    requires h != c && h != key && c != key
    modifies h, c, key
    ensures Holds(h, c, key, N.AfterStatic(N.Transcript(old(h.value), old(c.value), old(key.value)), encStatic, ss))
  {
    MixHash(h, h, encStatic);
    KDF2(c, key, c, [ss]);
  }

  // From `h0`, `c0` to the key that seals the response's empty payload; `h`, `c` may be `h0`, `c0`.
  method MixResponse(
      h: Block, c: Block, key: Block, h0: Block, c0: Block, ephemeral: Term, ee: Term, se: Term, psk: Term)
    requires h != c && h != key && c != key && h != c0 && c != h0
    modifies h, c, key
    ensures Holds(h, c, key, N.AfterResponseKeys(old(h0.value), old(c0.value), ephemeral, ee, se, psk))
  {
    MixHash(h, h0, ephemeral);
    MixKey(c, c0, ephemeral);
    MixKey(c, c, ee);
    MixKey(c, c, se);
    var tau := new Block(Zero);
    KDF3(c, tau, key, c, [psk]);
    MixHash(h, h, tau.value);
  }

  class Handshake {
    const hash: Block
    const chainKey: Block
    var state: N.HandshakeState
    var presharedKey: Term
    var localEphemeral: Term
    var localIndex: nat
    var remoteIndex: nat
    var remoteStatic: Term
    var remoteEphemeral: Term
    var staticStatic: Term
    var lastTimestamp: Tai64.Bytes
    var lastConsumption: Option<int>

    constructor (pk: Term, staticStatic: Term, psk: Term)
      ensures fresh(hash) && fresh(chainKey) && hash != chainKey
      ensures Value() == N.NewHandshake(pk, staticStatic, psk)
    {
      state, presharedKey, localEphemeral, localIndex, remoteIndex := N.Zeroed, psk, Zero, 0, 0;
      remoteStatic, remoteEphemeral := pk, Zero;
      lastTimestamp, lastConsumption := N.ZERO_TIMESTAMP, None;
      this.staticStatic := staticStatic;
      hash := new Block(Zero);
      chainKey := new Block(Zero);
    }

    ghost function Value(): N.Handshake
      reads this, hash, chainKey
    {
      N.Handshake(state, hash.value, chainKey.value, presharedKey, localEphemeral, localIndex, remoteIndex,
                  remoteStatic, remoteEphemeral, staticStatic, lastTimestamp, lastConsumption)
    }

    // Runs the transcript of an initiation, from the initial values to the sealed timestamp.
    method SealInitiation(e: Term, index: nat, publicKey: Term, stamp: Tai64.Bytes) returns (msg: N.MessageInitiation)
      requires hash != chainKey
      modifies this, hash, chainKey
      ensures (Value(), msg) == N.SealInitiation(old(Value()), e, index, publicKey, stamp)
    {
      hash.value := N.INITIAL_HASH;
      chainKey.value := N.INITIAL_CHAIN_KEY;
      localEphemeral := e;
      localIndex := index;

      var key := new Block(Zero);
      var ephemeral := PublicKey(localEphemeral);
      MixEphemeral(hash, chainKey, key, remoteStatic, ephemeral, SharedSecret(localEphemeral, remoteStatic));

      // encrypt static key
      var encStatic := Sealed(key.value, N.ZERO_NONCE, [publicKey], [hash.value]);
      MixStatic(hash, chainKey, key, encStatic, staticStatic);

      // encrypt timestamp
      var encTimestamp := Sealed(key.value, N.ZERO_NONCE, [Stamp(stamp)], [hash.value]);
      MixHash(hash, hash, encTimestamp);

      state := N.InitiationCreated;
      msg := N.MessageInitiation(N.INITIATION_TYPE, localIndex, ephemeral, encStatic, encTimestamp);
    }

    // Runs the transcript of a response.
    method SealResponse(e: Term, index: nat) returns (msg: N.MessageResponse)
      requires hash != chainKey
      modifies this, hash, chainKey
      ensures (Value(), msg) == N.SealResponse(old(Value()), e, index)
    {
      localEphemeral := e;
      localIndex := index;
      var ephemeral := PublicKey(localEphemeral);
      var key := new Block(Zero);
      MixResponse(hash, chainKey, key, hash, chainKey, ephemeral,
        SharedSecret(localEphemeral, remoteEphemeral), SharedSecret(localEphemeral, remoteStatic), presharedKey);
      var empty := Sealed(key.value, N.ZERO_NONCE, [], [hash.value]);
      MixHash(hash, hash, empty);
      state := N.ResponseCreated;
      msg := N.MessageResponse(N.RESPONSE_TYPE, localIndex, remoteIndex, ephemeral, empty);
    }

    // Opens the boxes of an initiation; on success `h` and `c` hold the transcript so far.
    method OpenInitiation(msg: N.MessageInitiation, privateKey: Term, publicKey: Term, h: Block, c: Block)
      returns (timestamp: Option<Tai64.Bytes>)
      requires h != c && h.value == N.INITIAL_HASH && c.value == N.INITIAL_CHAIN_KEY
      modifies h, c
      ensures var r := N.OpenInitiation(privateKey, publicKey, staticStatic, msg);
        if timestamp.None? then r.None?
        else r.Some? && r.value.1 == timestamp.value && h.value == r.value.0.hash && c.value == r.value.0.chainKey
    {
      if msg.typ != N.INITIATION_TYPE {
        return None;
      }
      var key := new Block(Zero);
      MixEphemeral(h, c, key, publicKey, msg.ephemeral, SharedSecret(privateKey, msg.ephemeral));

      // decrypt static key
      if Open(key.value, N.ZERO_NONCE, msg.encStatic, [h.value]).None? {
        return None;
      }
      if staticStatic == Zero {
        return None;
      }

      // verify identity
      MixStatic(h, c, key, msg.encStatic, staticStatic);
      var plain := Open(key.value, N.ZERO_NONCE, msg.encTimestamp, [h.value]);
      if plain.Some? && |plain.value| == 1 && plain.value[0].Stamp? && |plain.value[0].bytes| == Tai64.TAI64N_SIZE {
        return Some(plain.value[0].bytes);
      }
      return None;
    }

    method ConsumeInitiation(msg: N.MessageInitiation, privateKey: Term, publicKey: Term, checked: int, stored: int)
      returns (ok: bool)
      requires hash != chainKey
      modifies this, hash, chainKey
      ensures var r := N.ConsumedInitiation(old(Value()), privateKey, publicKey, msg, checked, stored);
        ok == r.Some? && Value() == if ok then r.value else old(Value())
    {
      var h := new Block(N.INITIAL_HASH);
      var c := new Block(N.INITIAL_CHAIN_KEY);
      var unsealed := OpenInitiation(msg, privateKey, publicKey, h, c);
      ok := unsealed.Some?;
      if ok {
        MixHash(h, h, msg.encTimestamp);
        ok := StoreIfTimely(h, c, msg, unsealed.value, checked, stored);
      }
    }

    // Protects against replay and flood, then updates the handshake state.
    method StoreIfTimely(
        h: Block, c: Block, msg: N.MessageInitiation, timestamp: Tai64.Bytes, checked: int, stored: int)
      returns (ok: bool)
      requires hash != chainKey && h != hash && h != chainKey && c != hash && c != chainKey
      modifies this, hash, chainKey
      ensures ok == N.Timely(old(Value()), timestamp, checked)
      ensures Value() == if ok then N.WithInitiation(old(Value()), h.value, c.value, msg, timestamp, stored)
        else old(Value())
    {
      ok := Tai64.After(timestamp, lastTimestamp);
      ok := ok && (lastConsumption.None? || checked - lastConsumption.value > N.HANDSHAKE_INITIATION_RATE);
      if !ok {
        return;
      }
      hash.value := h.value;
      chainKey.value := c.value;
      remoteIndex := msg.sender;
      remoteEphemeral := msg.ephemeral;
      lastTimestamp := timestamp;
      lastConsumption := Some(stored);
      state := N.InitiationConsumed;
    }

    // The read-locked part of ConsumeMessageResponse: on success `h` and `c` hold the transcript.
    method OpenResponse(msg: N.MessageResponse, privateKey: Term, h: Block, c: Block) returns (ok: bool)
      requires h != c && h != hash && h != chainKey && c != hash && c != chainKey
      modifies h, c
      ensures ok == N.ConsumedResponse(Value(), privateKey, msg).Some?
      ensures ok ==> var hs := N.ConsumedResponse(Value(), privateKey, msg).value;
        h.value == hs.hash && c.value == hs.chainKey
    {
      if state != N.InitiationCreated {
        return false;
      }

      // finish 3-way DH, add preshared key
      var key := new Block(Zero);
      MixResponse(h, c, key, hash, chainKey, msg.ephemeral,
        SharedSecret(localEphemeral, msg.ephemeral), SharedSecret(privateKey, msg.ephemeral), presharedKey);

      // authenticate
      if Open(key.value, N.ZERO_NONCE, msg.empty, [h.value]).None? {
        return false;
      }
      MixHash(h, h, msg.empty);
      ok := true;
    }

    method ConsumeResponse(msg: N.MessageResponse, privateKey: Term) returns (ok: bool)
      requires hash != chainKey
      modifies this, hash, chainKey
      ensures var r := N.ConsumedResponse(old(Value()), privateKey, msg);
        ok == r.Some? && Value() == if ok then r.value else old(Value())
    {
      var h := new Block(Zero);
      var c := new Block(Zero);
      ok := OpenResponse(msg, privateKey, h, c);
      if ok {
        hash.value := h.value;
        chainKey.value := c.value;
        remoteIndex := msg.sender;
        state := N.ResponseConsumed;
        SetZero(h);
        SetZero(c);
      }
    }

    // The key derivation of NewKeyPair, after which the secrets are gone.
    method DeriveKeyPair() returns (pair: Option<N.KeyPair>)
      requires hash != chainKey
      modifies this, chainKey
      ensures pair.None? <==> old(state) != N.ResponseConsumed && old(state) != N.ResponseCreated
      ensures pair.Some? ==> pair.value == N.DerivedPair(old(Value()))
      ensures Value() == if pair.None? then old(Value()) else N.Spent(old(Value()))
    {
      var sendKey := new Block(Zero);
      var recvKey := new Block(Zero);
      var isInitiator: bool;
      if state == N.ResponseConsumed {
        KDF2(sendKey, recvKey, chainKey, []);
        isInitiator := true;
      } else if state == N.ResponseCreated {
        KDF2(recvKey, sendKey, chainKey, []);
        isInitiator := false;
      } else {
        return None;
      }

      // zero handshake
      SetZero(chainKey);
      localEphemeral := Zero;
      state := N.Zeroed;
      pair := Some(N.KeyPair(sendKey.value, recvKey.value, isInitiator, localIndex, remoteIndex));
      localIndex := 0;
    }

    method Erase()
      requires hash != chainKey
      modifies this, hash, chainKey
      ensures Value() == old(Value()).(localIndex := 0, localEphemeral := Zero, remoteEphemeral := Zero,
        chainKey := Zero, hash := Zero)
    {
      localIndex := 0;
      localEphemeral := Zero;
      remoteEphemeral := Zero;
      SetZero(chainKey);
      SetZero(hash);
    }
  }

  // The device and its peer.
  class Peer {
    const privateKey: Term
    const publicKey: Term
    const handshake: Handshake
    const indices: IndexTable
    var slots: N.Slots
    var pairs: seq<N.KeyPair>

    constructor (privateKey: Term, publicKey: Term, pk: Term, psk: Term)
      ensures Valid()
      ensures State() == N.Initial(privateKey, publicKey, pk, psk)
    {
      this.privateKey, this.publicKey := privateKey, publicKey;
      slots, pairs := N.EMPTY_SLOTS, [];
      handshake := new Handshake(pk, SharedSecret(privateKey, pk), psk);
      indices := new IndexTable.Init();
    }

    // The slots name key pairs that exist.
    ghost predicate Valid()
      reads this
    {
      && handshake.hash != handshake.chainKey
      && (slots.previous.Some? ==> slots.previous.value < |pairs|)
      && (slots.current.Some? ==> slots.current.value < |pairs|)
      && (slots.next.Some? ==> slots.next.value < |pairs|)
    }

    ghost function State(): N.Device
      reads this, handshake, handshake.hash, handshake.chainKey, indices
    {
      N.Device(privateKey, publicKey, handshake.Value(), slots, pairs, indices.table)
    }

    method CreateMessageInitiation(e: Term, draws: seq<nat>, stamp: Tai64.Bytes)
      returns (msg: Option<N.MessageInitiation>)
      requires Valid()
      requires exists i ::
        0 <= i < |draws| && draws[i] != 0 && draws[i] !in Deleted(indices.table, handshake.localIndex)
      modifies handshake, handshake.hash, handshake.chainKey, indices
      ensures msg.Some? ==> N.FreeIndex(Deleted(old(indices.table), old(handshake.localIndex)), handshake.localIndex)
      ensures (State(), msg) == N.CreateInitiation(old(State()), e, handshake.localIndex, stamp)
    {
      if handshake.staticStatic == Zero {
        return None;
      }
      indices.Delete(handshake.localIndex);
      var index := indices.NewIndex(draws);
      var m := handshake.SealInitiation(e, index, publicKey, stamp);
      return Some(m);
    }

    method ConsumeMessageInitiation(msg: N.MessageInitiation, checked: int, stored: int) returns (ok: bool)
      requires Valid()
      modifies handshake, handshake.hash, handshake.chainKey
      ensures var r := N.ConsumeInitiation(old(State()), msg, checked, stored);
        ok == r.Some? && State() == if ok then r.value else old(State())
    {
      ok := handshake.ConsumeInitiation(msg, privateKey, publicKey, checked, stored);
    }

    method CreateMessageResponse(e: Term, draws: seq<nat>) returns (msg: Option<N.MessageResponse>)
      requires Valid()
      requires exists i ::
        0 <= i < |draws| && draws[i] != 0 && draws[i] !in Deleted(indices.table, handshake.localIndex)
      modifies handshake, handshake.hash, handshake.chainKey, indices
      ensures msg.Some? ==> N.FreeIndex(Deleted(old(indices.table), old(handshake.localIndex)), handshake.localIndex)
      ensures var r := N.CreateResponse(old(State()), e, handshake.localIndex);
        if msg.None? then r.None? && State() == old(State()) else r == Some((State(), msg.value))
    {
      if handshake.state != N.InitiationConsumed {
        return None;
      }
      indices.Delete(handshake.localIndex);
      var index := indices.NewIndex(draws);
      var m := handshake.SealResponse(e, index);
      return Some(m);
    }

    method ConsumeMessageResponse(msg: N.MessageResponse) returns (ok: bool)
      requires Valid()
      modifies handshake, handshake.hash, handshake.chainKey
      ensures var r := N.ConsumeResponse(old(State()), msg);
        ok == r.Some? && State() == if ok then r.value else old(State())
    {
      if msg.typ != N.RESPONSE_TYPE {
        return false;
      }
      var lookup := indices.Lookup(msg.receiver);
      if lookup != Some(HandshakeEntry) {
        return false;
      }
      ok := handshake.ConsumeResponse(msg, privateKey);
    }

    method DeleteKeyPair(pair: nat)
      requires pair < |pairs|
      modifies indices
      ensures indices.table == Deleted(old(indices.table), pairs[pair].localIndex)
    {
      indices.Delete(pairs[pair].localIndex);
    }

    method NewKeyPair() returns (ok: bool)
      requires Valid()
      modifies this, handshake, handshake.chainKey, indices
      ensures Valid()
      ensures var r := N.NewKeyPair(old(State()));
        ok == r.Some? && State() == if ok then r.value else old(State())
      ensures ok ==> var (s, n) := (old(slots), |old(pairs)|);
        && |pairs| == n + 1
        && slots == (
             if !pairs[n].isInitiator then N.Slots(None, s.current, Some(n))
             else if s.next == None then N.Slots(s.current, Some(n), None)
             else N.Slots(s.next, s.current, Some(n)))
    {
      var index := handshake.localIndex;
      var pair := handshake.DeriveKeyPair();
      if pair.None? {
        return false;
      }

      // remap index
      var n := |pairs|;
      pairs := pairs + [pair.value];
      indices.Insert(index, KeyPairEntry(n));

      // rotate key pairs
      if pair.value.isInitiator {
        if slots.previous.Some? {
          DeleteKeyPair(slots.previous.value);
          slots := slots.(previous := None);
        }
        if slots.next.Some? {
          slots := slots.(previous := slots.next);
          slots := slots.(next := Some(n));
        } else {
          slots := slots.(previous := slots.current);
          slots := slots.(current := Some(n));
        }
      } else {
        slots := slots.(next := Some(n));
        slots := slots.(previous := None);
      }
      ok := true;
    }

    // The key-pair part of the sequential receiver, for a packet that passed the replay check.
    method ConfirmKeyPair(pair: nat)
      requires Valid()
      modifies this, indices
      ensures Valid() && State() == N.ReceivePacket(old(State()), pair)
      ensures slots ==
        if old(slots.next) == Some(pair) then N.Slots(old(slots.current), Some(pair), None) else old(slots)
    {
      if slots.next == Some(pair) {
        if slots.previous.Some? {
          DeleteKeyPair(slots.previous.value);
        }
        slots := slots.(previous := slots.current);
        slots := slots.(current := slots.next);
        slots := slots.(next := None);
      }
    }

    method ZeroAllKeys()
      requires Valid()
      modifies this, handshake, handshake.hash, handshake.chainKey, indices
      ensures Valid() && State() == N.ZeroAllKeys(old(State()))
    {
      if slots.previous.Some? {
        DeleteKeyPair(slots.previous.value);
        slots := slots.(previous := None);
      }
      if slots.current.Some? {
        DeleteKeyPair(slots.current.value);
        slots := slots.(current := None);
      }
      if slots.next.Some? {
        DeleteKeyPair(slots.next.value);
        slots := slots.(next := None);
      }
      indices.Delete(handshake.localIndex);
      handshake.Erase();
    }
  }
}
