/** The timestamps of `controller/tai64.go`: twelve big-endian bytes, compared byte by byte. */
module Tai64 {
  const TAI64N_BASE: nat := 4611686018427387914
  const TAI64N_SIZE: nat := 12
  const TWO_32: int := 0x1_0000_0000
  const TWO_64: int := 0x1_0000_0000_0000_0000
  const SECOND: int := 1_000_000_000

  type Byte = b: int | 0 <= b < 256
  type Bytes = seq<Byte>

  // bytes.Compare(a, b) > 0
  predicate Greater(a: Bytes, b: Bytes) {
    if a == [] then false
    else if b == [] then true
    else a[0] > b[0] || (a[0] == b[0] && Greater(a[1..], b[1..]))
  }

  predicate After(t1: Bytes, t2: Bytes) {
    Greater(t1, t2)
  }

  // The number a byte string stands for, the most significant byte first.
  function Value(b: Bytes): nat {
    if b == [] then 0 else 256 * Value(b[..|b| - 1]) + b[|b| - 1]
  }

  function Pow256(n: nat): nat {
    if n == 0 then 1 else 256 * Pow256(n - 1)
  }

  lemma {:induction false} ValueBound(b: Bytes)
    ensures Value(b) < Pow256(|b|)
    decreases |b|
  {
    if b != [] { ValueBound(b[..|b| - 1]); }
  }

  lemma {:induction false} ValueOfHead(b: Bytes)
    requires b != []
    ensures Value(b) == b[0] * Pow256(|b| - 1) + Value(b[1..])
    decreases |b|
  {
    if |b| > 1 {
      var most := b[..|b| - 1];
      ValueOfHead(most);
      assert b[1..][..|b| - 2] == most[1..] && b[1..][|b| - 2] == b[|b| - 1];
      assert 256 * (b[0] * Pow256(|b| - 2)) == b[0] * Pow256(|b| - 1);
    } else {
      assert b[..0] == [] && b[1..] == [];
    }
  }

  lemma HeadDecides(x: nat, u: nat, y: nat, v: nat, p: nat)
    requires x > y && u < p && v < p
    ensures x * p + u > y * p + v
  {
    assert x * p == (x - y - 1) * p + y * p + p;
    assert (x - y - 1) * p >= 0;
  }

  // Comparing byte by byte is comparing the numbers.
  lemma {:induction false} GreaterIsNumeric(a: Bytes, b: Bytes)
    requires |a| == |b|
    ensures Greater(a, b) <==> Value(a) > Value(b)
    decreases |a|
  {
    if a != [] {
      var p := Pow256(|a| - 1);
      ValueOfHead(a);
      ValueOfHead(b);
      ValueBound(a[1..]);
      ValueBound(b[1..]);
      GreaterIsNumeric(a[1..], b[1..]);
      if a[0] > b[0] {
        HeadDecides(a[0], Value(a[1..]), b[0], Value(b[1..]), p);
      } else if a[0] < b[0] {
        HeadDecides(b[0], Value(b[1..]), a[0], Value(a[1..]), p);
      }
    }
  }

  lemma {:induction false} ZerosAreZero(b: Bytes)
    requires forall i :: 0 <= i < |b| ==> b[i] == 0
    ensures Value(b) == 0
  {
    if b != [] { ZerosAreZero(b[..|b| - 1]); }
  }

  lemma AfterTransitive(a: Bytes, b: Bytes, c: Bytes)
    requires |a| == |b| == |c| && After(a, b) && After(b, c)
    ensures After(a, c) && a != c
  {
    GreaterIsNumeric(a, b);
    GreaterIsNumeric(b, c);
    GreaterIsNumeric(a, c);
  }

  // ----- Encoding.

  function BigEndian(n: nat, size: nat): (b: Bytes)
    ensures |b| == size
  {
    if size == 0 then [] else BigEndian(n / 256, size - 1) + [n % 256]
  }

  lemma {:induction false} DecodeEncode(n: nat, size: nat)
    requires n < Pow256(size)
    ensures Value(BigEndian(n, size)) == n
    decreases size
  {
    if size > 0 {
      DecodeEncode(n / 256, size - 1);
      var b := BigEndian(n, size);
      assert b[..size - 1] == BigEndian(n / 256, size - 1);
    }
  }

  lemma {:induction false} ValueOfConcat(a: Bytes, b: Bytes)
    ensures Value(a + b) == Value(a) * Pow256(|b|) + Value(b)
    decreases |b|
  {
    if b == [] {
      assert a + b == a;
    } else {
      var most := b[..|b| - 1];
      ValueOfConcat(a, most);
      assert (a + b)[..|a + b| - 1] == a + most;
      assert 256 * (Value(a) * Pow256(|most|)) == Value(a) * Pow256(|b|);
    }
  }

  // now.Unix() and now.UnixNano() of a clock reading in nanoseconds since the epoch.
  function Unix(now: int): int { now / SECOND }

  // uint64 and uint32 conversions wrap.
  function Seconds(now: int): nat { (TAI64N_BASE + Unix(now)) % TWO_64 }
  function Nanos(now: int): nat { now % TWO_32 }

  function TimestampOf(now: int): (t: Bytes)
    ensures |t| == TAI64N_SIZE
  {
    BigEndian(Seconds(now), 8) + BigEndian(Nanos(now), 4)
  }

  // Writes a number into `size` bytes from `offset` on, the most significant byte first.
  method PutUint(dst: array<Byte>, offset: nat, size: nat, n: nat)
    requires offset + size <= dst.Length
    modifies dst
    ensures dst[offset..offset + size] == BigEndian(n, size)
    ensures forall i :: 0 <= i < dst.Length && !(offset <= i < offset + size) ==> dst[i] == old(dst[i])
  {
    var rest := n;
    for i := size downto 0
      invariant BigEndian(n, size) == BigEndian(rest, i) + dst[offset + i..offset + size]
      invariant forall j :: 0 <= j < dst.Length && !(offset + i <= j < offset + size) ==> dst[j] == old(dst[j])
    {
      ghost var tail := dst[offset + i + 1..offset + size];
      dst[offset + i] := rest % 256;
      assert dst[offset + i..offset + size] == [rest % 256] + tail;
      rest := rest / 256;
    }
  }

  lemma Halves(b: Bytes)
    requires |b| == 12
    ensures b == b[0..8] + b[8..12]
  {
  }

  method Timestamp(now: int) returns (tai64n: array<Byte>)
    ensures fresh(tai64n) && tai64n[..] == TimestampOf(now)
  {
    tai64n := new Byte[TAI64N_SIZE];
    var secs := (TAI64N_BASE + Unix(now)) % TWO_64;
    var nano := now % TWO_32;
    PutUint(tai64n, 0, 8, secs);
    ghost var first := tai64n[0..8];
    PutUint(tai64n, 8, 4, nano);
    assert tai64n[0..8] == first;
    Halves(tai64n[..]);
  }

  // Clock readings whose seconds, moved by the base, fit the 64-bit field.
  predicate InRange(now: int) {
    0 <= TAI64N_BASE + Unix(now) < TWO_64
  }

  // Timestamps compare as the pair of their seconds and the low 32 bits of their nanoseconds.
  lemma AfterIsLexicographic(now: int, then': int)
    ensures After(TimestampOf(now), TimestampOf(then')) <==>
      Seconds(now) > Seconds(then') || (Seconds(now) == Seconds(then') && Nanos(now) > Nanos(then'))
  {
    var a, b := TimestampOf(now), TimestampOf(then');
    GreaterIsNumeric(a, b);
    TimestampValue(now);
    TimestampValue(then');
  }

  lemma TimestampValue(now: int)
    ensures Value(TimestampOf(now)) == Seconds(now) * TWO_32 + Nanos(now)
  {
    Powers();
    DecodeEncode(Seconds(now), 8);
    DecodeEncode(Nanos(now), 4);
    ValueOfConcat(BigEndian(Seconds(now), 8), BigEndian(Nanos(now), 4));
  }

  /** The first eight bytes are the seconds since 1970 on top of the base 2^62 + 10, the last four the low
      32 bits of the nanoseconds. */
  lemma TimestampReads(now: int)
    requires InRange(now)
    ensures var t := TimestampOf(now);
      Value(t[..8]) == 0x4000_0000_0000_000a + now / 1_000_000_000 && Value(t[8..]) == now % 0x1_0000_0000
  {
    Powers();
    SecondsExact(now);
    DecodeEncode(Seconds(now), 8);
    DecodeEncode(Nanos(now), 4);
    assert TimestampOf(now)[..8] == BigEndian(Seconds(now), 8);
    assert TimestampOf(now)[8..] == BigEndian(Nanos(now), 4);
  }

  lemma Powers()
    ensures Pow256(4) == TWO_32 && Pow256(8) == TWO_64
  {
  }

  // A later reading has a later timestamp exactly when it falls in a later second, or no multiple of
  // 2^32 nanoseconds lies between the two: within a second the 32-bit field may wrap.
  lemma LaterTimestamps(earlier: int, later: int)
    requires earlier < later && InRange(earlier) && InRange(later)
    ensures After(TimestampOf(later), TimestampOf(earlier)) <==>
      Unix(earlier) < Unix(later) || earlier / TWO_32 == later / TWO_32
  {
    AfterIsLexicographic(later, earlier);
    SecondsExact(earlier);
    SecondsExact(later);
    SameSecond(earlier, later);
  }

  lemma SecondsExact(now: int)
    requires InRange(now)
    ensures Seconds(now) == TAI64N_BASE + Unix(now)
  {
  }

  lemma SameSecond(earlier: int, later: int)
    requires earlier < later
    ensures Unix(earlier) <= Unix(later)
    ensures Unix(earlier) == Unix(later) ==> (Nanos(earlier) < Nanos(later) <==> earlier / TWO_32 == later / TWO_32)
  {
  }

  // The failing family is not empty: two readings one nanosecond apart, in the wrong order.
  lemma WrapGoesBack()
    ensures After(TimestampOf(TWO_32 - 1), TimestampOf(TWO_32))
  {
    AfterIsLexicographic(TWO_32 - 1, TWO_32);
    assert Unix(TWO_32 - 1) == Unix(TWO_32) == 4;
  }
}
