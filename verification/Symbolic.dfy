/** Byte strings as symbolic terms: hashes, MACs and sealed boxes are free constructors, so equal
    results have equal arguments; a Diffie-Hellman secret is the unordered pair of its two scalars. */
module Symbolic {
  import opened Wrappers
  import Tai64

  // A byte string is a sequence of chunks; concatenation is concatenation of chunks.
  type Chunks = seq<Term>

  datatype Term =
    | Zero                                  // a zeroed array
    | Text(text: string)
    | Byte(byte: nat)
    | Stamp(bytes: Tai64.Bytes)             // a timestamp's bytes
    | Secret(id: nat)                       // random bytes: preshared keys, cookie secrets, nonces
    | Scalar(id: nat)                       // a private key
    | Public(id: nat)                       // its public key
    | Shared(low: nat, high: nat)           // the secret of two scalars
    | SharedOther(sk: Term, pk: Term)       // anything else fed to the scalar multiplication
    | Hash(data: Chunks)
    | Hmac(key: Term, data: Chunks)
    | Mac(key: Term, data: Chunks)          // keyed BLAKE2s with a 128-bit result
    | Sealed(key: Term, nonce: Term, plaintext: Chunks, ad: Chunks)

  function PublicKey(sk: Term): Term {
    if sk.Scalar? then Public(sk.id) else SharedOther(sk, Text("base point"))
  }

  function SharedSecret(sk: Term, pk: Term): Term {
    if sk.Scalar? && pk.Public? then
      if sk.id <= pk.id then Shared(sk.id, pk.id) else Shared(pk.id, sk.id)
    else SharedOther(sk, pk)
  }

  // Both sides of an exchange compute the same secret.
  lemma SecretsMeet(a: nat, b: nat)
    ensures SharedSecret(Scalar(a), PublicKey(Scalar(b))) == SharedSecret(Scalar(b), PublicKey(Scalar(a)))
  {
  }

  function Open(key: Term, nonce: Term, box: Term, ad: Chunks): Option<Chunks> {
    if box.Sealed? && box.key == key && box.nonce == nonce && box.ad == ad then Some(box.plaintext) else None
  }

  // A 32-byte array that functions write through a pointer.
  class Block {
    var value: Term

    constructor (value: Term)
      ensures this.value == value
    {
      this.value := value;
    }
  }
}

/** The key derivation of `controller/noise_helpers.go`, against RFC 5869. */
module NoiseHelpers {
  import opened Symbolic

  // Section 2.2 of RFC 5869: the salt keys the MAC.
  function Extract(salt: Term, ikm: Chunks): Term {
    Hmac(salt, ikm)
  }

  // Section 2.3 of RFC 5869: T(0) is empty and T(n) = HMAC(PRK, T(n-1) | info | n).
  function T(prk: Term, info: Chunks, n: nat): Chunks {
    if n == 0 then [] else [Hmac(prk, T(prk, info, n - 1) + info + [Byte(n)])]
  }

  // Output block number `n` of HKDF with an empty info.
  function Output(prk: Term, n: nat): Term {
    if n <= 1 then Hmac(prk, [Byte(1)]) else Hmac(prk, [Output(prk, n - 1), Byte(n)])
  }

  function Hkdf(salt: Term, ikm: Chunks, n: nat): Term {
    Output(Extract(salt, ikm), n)
  }

  // The chain of MACs is HKDF-Expand.
  lemma {:induction false} OutputIsExpand(prk: Term, n: nat)
    requires n > 0
    ensures T(prk, [], n) == [Output(prk, n)]
  {
    if n == 1 {
      assert T(prk, [], 0) + [] + [Byte(1)] == [Byte(1)];
    } else {
      OutputIsExpand(prk, n - 1);
      assert T(prk, [], n - 1) + [] + [Byte(n)] == [Output(prk, n - 1), Byte(n)];
    }
  }

  method HMAC1(sum: Block, key: Term, in0: Chunks)
    modifies sum
    ensures sum.value == Hmac(key, in0)
  {
    sum.value := Hmac(key, in0);
  }

  method HMAC2(sum: Block, key: Term, in0: Chunks, in1: Chunks)
    modifies sum
    ensures sum.value == Hmac(key, in0 + in1)
  {
    sum.value := Hmac(key, in0 + in1);
  }

  method SetZero(block: Block)
    modifies block
    ensures block.value == Zero
  {
    block.value := Zero;
  }

  // The output may be the key, as in every mixKey of the handshake.
  method KDF1(t0: Block, key: Block, input: Chunks)
    modifies t0
    ensures t0.value == Hkdf(old(key.value), input, 1)
  {
    HMAC1(t0, key.value, input);
    HMAC1(t0, t0.value, [Byte(1)]);
  }

  // The first output may be the key; the outputs are different arrays.
  method KDF2(t0: Block, t1: Block, key: Block, input: Chunks)
    requires t0 != t1
    modifies t0, t1
    ensures t0.value == Hkdf(old(key.value), input, 1)
    ensures t1.value == Hkdf(old(key.value), input, 2)
  {
    var prk := new Block(Zero);
    HMAC1(prk, key.value, input);
    HMAC1(t0, prk.value, [Byte(1)]);
    HMAC2(t1, prk.value, [t0.value], [Byte(2)]);
    assert [t0.value] + [Byte(2)] == [t0.value, Byte(2)];
    SetZero(prk);
  }

  method KDF3(t0: Block, t1: Block, t2: Block, key: Block, input: Chunks)
    requires t0 != t1 && t0 != t2 && t1 != t2
    modifies t0, t1, t2
    ensures t0.value == Hkdf(old(key.value), input, 1)
    ensures t1.value == Hkdf(old(key.value), input, 2)
    ensures t2.value == Hkdf(old(key.value), input, 3)
  {
    var prk := new Block(Zero);
    HMAC1(prk, key.value, input);
    HMAC1(t0, prk.value, [Byte(1)]);
    HMAC2(t1, prk.value, [t0.value], [Byte(2)]);
    assert [t0.value] + [Byte(2)] == [t0.value, Byte(2)];
    HMAC2(t2, prk.value, [t1.value], [Byte(3)]);
    assert [t1.value] + [Byte(3)] == [t1.value, Byte(3)];
    SetZero(prk);
  }

  // Different keys, inputs or positions give different outputs: the derivation hides nothing.
  lemma HkdfInjective(salt: Term, ikm: Chunks, n: nat, salt': Term, ikm': Chunks, n': nat)
    requires 1 <= n && 1 <= n'
    requires Hkdf(salt, ikm, n) == Hkdf(salt', ikm', n')
    ensures salt == salt' && ikm == ikm' && n == n'
  {
  }
}
