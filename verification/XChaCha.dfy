/** HChaCha20 and the XChaCha20-Poly1305 construction of `controller/xchacha20.go`, against the quarter
    rounds of RFC 8439.  A 32-bit word is the number it stands for. */
module XChaCha {
  import opened Wrappers

  const WORD: nat := 0x1_0000_0000

  type Word = x: nat | x < WORD
  type Byte = x: nat | x < 256
  type Bytes = seq<Byte>

  datatype Quad = Quad(a: Word, b: Word, c: Word, d: Word)

  datatype Matrix = Matrix(
    w00: Word, w01: Word, w02: Word, w03: Word, w04: Word, w05: Word, w06: Word, w07: Word,
    w08: Word, w09: Word, w10: Word, w11: Word, w12: Word, w13: Word, w14: Word, w15: Word)

  function Pow2(n: nat): (p: nat)
    ensures p > 0
  {
    if n == 0 then 1 else 2 * Pow2(n - 1)
  }

  // Exclusive or, of the lowest n bits.
  function XorBits(x: nat, y: nat, n: nat): (r: nat)
    ensures r < Pow2(n)
  {
    if n == 0 then 0 else (x + y) % 2 + 2 * XorBits(x / 2, y / 2, n - 1)
  }

  function Xor(x: Word, y: Word): Word {
    Pow32();
    XorBits(x, y, 32)
  }

  lemma Pow32()
    ensures Pow2(32) == WORD
  {
    assert Pow2(8) == 256;
    assert Pow2(16) == 0x1_0000;
    assert Pow2(24) == 0x100_0000;
  }

  // Addition wraps around.
  function Add(x: Word, y: Word): Word {
    (x + y) % WORD
  }

  // Inclusive or, of the lowest n bits.
  function OrBits(x: nat, y: nat, n: nat): (r: nat)
    ensures r < Pow2(n)
  {
    if n == 0 then 0 else (if x % 2 == y % 2 == 0 then 0 else 1) + 2 * OrBits(x / 2, y / 2, n - 1)
  }

  function Or(x: Word, y: Word): Word {
    Pow32();
    OrBits(x, y, 32)
  }

  // The bits shifted out at the top are lost.
  function ShiftLeft(x: Word, n: nat): Word {
    x * Pow2(n) % WORD
  }

  function ShiftRight(x: Word, n: nat): Word {
    QuotientSmaller(x, Pow2(n), x + 1);
    x / Pow2(n)
  }

  // x << n | x >> (32 - n).
  function Rotate(x: Word, n: nat): Word
    requires n <= 32
  {
    Or(ShiftLeft(x, n), ShiftRight(x, 32 - n))
  }

  // Section 2.1 of RFC 8439, one line: a += b; d ^= a; d <<<= n.
  function UpperLine(q: Quad, n: nat): Quad
    requires n <= 32
  {
    Quad(Add(q.a, q.b), q.b, q.c, Rotate(Xor(q.d, Add(q.a, q.b)), n))
  }

  // The other kind of line: c += d; b ^= c; b <<<= n.
  function LowerLine(q: Quad, n: nat): Quad
    requires n <= 32
  {
    Quad(q.a, Rotate(Xor(q.b, Add(q.c, q.d)), n), Add(q.c, q.d), q.d)
  }

  function QuarterRound(q: Quad): Quad {
    LowerLine(UpperLine(LowerLine(UpperLine(q, 16), 12), 8), 7)
  }

  function ColumnRound(m: Matrix): Matrix {
    var p := QuarterRound(Quad(m.w00, m.w04, m.w08, m.w12));
    var q := QuarterRound(Quad(m.w01, m.w05, m.w09, m.w13));
    var r := QuarterRound(Quad(m.w02, m.w06, m.w10, m.w14));
    var s := QuarterRound(Quad(m.w03, m.w07, m.w11, m.w15));
    Matrix(p.a, q.a, r.a, s.a, p.b, q.b, r.b, s.b, p.c, q.c, r.c, s.c, p.d, q.d, r.d, s.d)
  }

  function DiagonalRound(m: Matrix): Matrix {
    var p := QuarterRound(Quad(m.w00, m.w05, m.w10, m.w15));
    var q := QuarterRound(Quad(m.w01, m.w06, m.w11, m.w12));
    var r := QuarterRound(Quad(m.w02, m.w07, m.w08, m.w13));
    var s := QuarterRound(Quad(m.w03, m.w04, m.w09, m.w14));
    Matrix(p.a, q.a, r.a, s.a, s.b, p.b, q.b, r.b, r.c, s.c, p.c, q.c, q.d, r.d, s.d, p.d)
  }

  function DoubleRound(m: Matrix): Matrix {
    DiagonalRound(ColumnRound(m))
  }

  function Iterate<T>(f: T -> T, n: nat, x: T): T {
    if n == 0 then x else f(Iterate(f, n - 1, x))
  }

  function TwentyRounds(m: Matrix): Matrix {
    Iterate(DoubleRound, 10, m)
  }

  method Permute(m: Matrix) returns (r: Matrix)
    ensures r == TwentyRounds(m)
  {
    var v00, v01, v02, v03 := m.w00, m.w01, m.w02, m.w03;
    var v04, v05, v06, v07 := m.w04, m.w05, m.w06, m.w07;
    var v08, v09, v10, v11 := m.w08, m.w09, m.w10, m.w11;
    var v12, v13, v14, v15 := m.w12, m.w13, m.w14, m.w15;
    for i := 0 to 10
      invariant Matrix(v00, v01, v02, v03, v04, v05, v06, v07, v08, v09, v10, v11, v12, v13, v14, v15)
        == Iterate(DoubleRound, i, m)
    {
      v00 := Add(v00, v04);
      v12 := Xor(v12, v00);
      v12 := Rotate(v12, 16);
      v08 := Add(v08, v12);
      v04 := Xor(v04, v08);
      v04 := Rotate(v04, 12);
      v00 := Add(v00, v04);
      v12 := Xor(v12, v00);
      v12 := Rotate(v12, 8);
      v08 := Add(v08, v12);
      v04 := Xor(v04, v08);
      v04 := Rotate(v04, 7);
      v01 := Add(v01, v05);
      v13 := Xor(v13, v01);
      v13 := Rotate(v13, 16);
      v09 := Add(v09, v13);
      v05 := Xor(v05, v09);
      v05 := Rotate(v05, 12);
      v01 := Add(v01, v05);
      v13 := Xor(v13, v01);
      v13 := Rotate(v13, 8);
      v09 := Add(v09, v13);
      v05 := Xor(v05, v09);
      v05 := Rotate(v05, 7);
      v02 := Add(v02, v06);
      v14 := Xor(v14, v02);
      v14 := Rotate(v14, 16);
      v10 := Add(v10, v14);
      v06 := Xor(v06, v10);
      v06 := Rotate(v06, 12);
      v02 := Add(v02, v06);
      v14 := Xor(v14, v02);
      v14 := Rotate(v14, 8);
      v10 := Add(v10, v14);
      v06 := Xor(v06, v10);
      v06 := Rotate(v06, 7);
      v03 := Add(v03, v07);
      v15 := Xor(v15, v03);
      v15 := Rotate(v15, 16);
      v11 := Add(v11, v15);
      v07 := Xor(v07, v11);
      v07 := Rotate(v07, 12);
      v03 := Add(v03, v07);
      v15 := Xor(v15, v03);
      v15 := Rotate(v15, 8);
      v11 := Add(v11, v15);
      v07 := Xor(v07, v11);
      v07 := Rotate(v07, 7);
      v00 := Add(v00, v05);
      v15 := Xor(v15, v00);
      v15 := Rotate(v15, 16);
      v10 := Add(v10, v15);
      v05 := Xor(v05, v10);
      v05 := Rotate(v05, 12);
      v00 := Add(v00, v05);
      v15 := Xor(v15, v00);
      v15 := Rotate(v15, 8);
      v10 := Add(v10, v15);
      v05 := Xor(v05, v10);
      v05 := Rotate(v05, 7);
      v01 := Add(v01, v06);
      v12 := Xor(v12, v01);
      v12 := Rotate(v12, 16);
      v11 := Add(v11, v12);
      v06 := Xor(v06, v11);
      v06 := Rotate(v06, 12);
      v01 := Add(v01, v06);
      v12 := Xor(v12, v01);
      v12 := Rotate(v12, 8);
      v11 := Add(v11, v12);
      v06 := Xor(v06, v11);
      v06 := Rotate(v06, 7);
      v02 := Add(v02, v07);
      v13 := Xor(v13, v02);
      v13 := Rotate(v13, 16);
      v08 := Add(v08, v13);
      v07 := Xor(v07, v08);
      v07 := Rotate(v07, 12);
      v02 := Add(v02, v07);
      v13 := Xor(v13, v02);
      v13 := Rotate(v13, 8);
      v08 := Add(v08, v13);
      v07 := Xor(v07, v08);
      v07 := Rotate(v07, 7);
      v03 := Add(v03, v04);
      v14 := Xor(v14, v03);
      v14 := Rotate(v14, 16);
      v09 := Add(v09, v14);
      v04 := Xor(v04, v09);
      v04 := Rotate(v04, 12);
      v03 := Add(v03, v04);
      v14 := Xor(v14, v03);
      v14 := Rotate(v14, 8);
      v09 := Add(v09, v14);
      v04 := Xor(v04, v09);
      v04 := Rotate(v04, 7);
    }
    r := Matrix(v00, v01, v02, v03, v04, v05, v06, v07, v08, v09, v10, v11, v12, v13, v14, v15);
  }

  // ----- The loop body undone.

  function Subtract(x: Word, y: Word): Word {
    (x - y) % WORD
  }

  lemma Monotone(a: nat, b: nat, d: nat)
    ensures a <= b ==> a * d <= b * d
  {
  }

  lemma QuotientSmaller(x: nat, d: nat, p: nat)
    requires d > 0 && x < p * d
    ensures 0 <= x / d < p
  {
    assert x == x / d * d + x % d;
    Monotone(p, x / d, d);
  }

  lemma DivMod(a: nat, d: nat, b: nat)
    requires b < d
    ensures (a * d + b) / d == a && (a * d + b) % d == b
  {
    var q, r := (a * d + b) / d, (a * d + b) % d;
    assert q * d + r == a * d + b;
    Monotone(q + 1, a, d);
    Monotone(a + 1, q, d);
  }

  lemma {:induction false} Pow2Sum(n: nat, m: nat)
    ensures Pow2(n) * Pow2(m) == Pow2(n + m)
  {
    if n > 0 { Pow2Sum(n - 1, m); }
  }

  // Numbers without a common bit: `h` moved up by `n` places, and `y` below it.
  lemma {:induction false} OrApart(h: nat, y: nat, n: nat, m: nat)
    requires n <= m && y < Pow2(n) && h * Pow2(n) < Pow2(m)
    ensures OrBits(h * Pow2(n), y, m) == h * Pow2(n) + y
    decreases m
  {
    if m > 0 {
      if n == 0 {
        assert h / 2 * Pow2(0) == h / 2;
        OrApart(h / 2, 0, 0, m - 1);
      } else {
        Half(h, Pow2(n - 1));
        OrApart(h, y / 2, n - 1, m - 1);
      }
    }
  }

  lemma Half(h: nat, p: nat)
    ensures h * (2 * p) == 2 * (h * p)
    ensures h * (2 * p) / 2 == h * p && h * (2 * p) % 2 == 0
  {
  }

  // The lowest 32 - n bits move up and the n highest come down.
  lemma RotateSplits(x: Word, n: nat)
    requires n <= 32
    ensures var p, q := Pow2(n), Pow2(32 - n);
      Rotate(x, n) == x % q * p + x / q && x / q < p && x % q < q
  {
    Pow32();
    Pow2Sum(n, 32 - n);
    var p, q := Pow2(n), Pow2(32 - n);
    QuotientSmaller(x, q, p);
    ShiftedOut(x, p, q);
    OrApart(x % q, x / q, n, 32);
  }

  lemma ShiftedOut(x: Word, p: nat, q: nat)
    requires p > 0 && q > 0 && p * q == WORD
    ensures x * p % WORD == x % q * p < WORD
  {
    var hi, lo := x / q, x % q;
    assert x * p == hi * WORD + lo * p by {
      assert x == hi * q + lo;
      assert hi * q * p == hi * (p * q);
    }
    assert lo * p < q * p by { assert (q - lo - 1) * p >= 0; }
    DivMod(hi, WORD, lo * p);
  }

  lemma Swapped(lo: nat, hi: nat, p: nat, q: nat, x: nat, y: nat)
    requires 0 < p && 0 < q && x % q == lo && x / q == hi < p && y == lo * p + hi
    ensures y % p * q + y / p == x
  {
    DivMod(lo, p, hi);
    assert x == hi * q + lo;
  }

  // Rotating on by the rest of the word undoes a rotation.
  lemma RotateInverse(x: Word, n: nat)
    requires n <= 32
    ensures Rotate(Rotate(x, n), 32 - n) == x
  {
    var p, q, y := Pow2(n), Pow2(32 - n), Rotate(x, n);
    RotateSplits(x, n);
    RotateSplits(y, 32 - n);
    Swapped(x % q, x / q, p, q, x, y);
  }

  lemma AddInverse(x: Word, y: Word)
    ensures Subtract(Add(x, y), y) == x && Add(Subtract(x, y), y) == x
  {
  }

  lemma BitTwice(x: nat, y: nat, rest: nat)
    ensures ((x + y) % 2 + 2 * rest) / 2 == rest && ((x + y) % 2 + 2 * rest + y) % 2 == x % 2
  {
  }

  lemma {:induction false} XorBitsInverse(x: nat, y: nat, n: nat)
    requires x < Pow2(n)
    ensures XorBits(XorBits(x, y, n), y, n) == x
  {
    if n > 0 {
      BitTwice(x, y, XorBits(x / 2, y / 2, n - 1));
      XorBitsInverse(x / 2, y / 2, n - 1);
    }
  }

  lemma XorInverse(x: Word, y: Word)
    ensures Xor(Xor(x, y), y) == x
  {
    Pow32();
    XorBitsInverse(x, y, 32);
  }

  function UpperUndone(q: Quad, n: nat): Quad
    requires n <= 32
  {
    Quad(Subtract(q.a, q.b), q.b, q.c, Xor(Rotate(q.d, 32 - n), q.a))
  }

  function LowerUndone(q: Quad, n: nat): Quad
    requires n <= 32
  {
    Quad(q.a, Xor(Rotate(q.b, 32 - n), q.c), Subtract(q.c, q.d), q.d)
  }

  function QuarterUndone(q: Quad): Quad {
    UpperUndone(LowerUndone(UpperUndone(LowerUndone(q, 7), 8), 12), 16)
  }

  lemma UpperInverse(q: Quad, n: nat)
    requires n <= 32
    ensures UpperUndone(UpperLine(q, n), n) == q && UpperLine(UpperUndone(q, n), n) == q
  {
    AddInverse(q.a, q.b);
    XorInverse(q.d, Add(q.a, q.b));
    RotateInverse(Xor(q.d, Add(q.a, q.b)), n);
    RotateInverse(q.d, 32 - n);
    XorInverse(Rotate(q.d, 32 - n), q.a);
  }

  lemma LowerInverse(q: Quad, n: nat)
    requires n <= 32
    ensures LowerUndone(LowerLine(q, n), n) == q && LowerLine(LowerUndone(q, n), n) == q
  {
    AddInverse(q.c, q.d);
    XorInverse(q.b, Add(q.c, q.d));
    RotateInverse(Xor(q.b, Add(q.c, q.d)), n);
    RotateInverse(q.b, 32 - n);
    XorInverse(Rotate(q.b, 32 - n), q.c);
  }

  lemma QuarterInverse(q: Quad)
    ensures QuarterUndone(QuarterRound(q)) == q && QuarterRound(QuarterUndone(q)) == q
  {
    var p1 := UpperLine(q, 16);
    var p2 := LowerLine(p1, 12);
    var p3 := UpperLine(p2, 8);
    UpperInverse(q, 16);
    LowerInverse(p1, 12);
    UpperInverse(p2, 8);
    LowerInverse(p3, 7);
    var u1 := LowerUndone(q, 7);
    var u2 := UpperUndone(u1, 8);
    var u3 := LowerUndone(u2, 12);
    LowerInverse(q, 7);
    UpperInverse(u1, 8);
    LowerInverse(u2, 12);
    UpperInverse(u3, 16);
  }

  function ColumnUndone(m: Matrix): Matrix {
    var p := QuarterUndone(Quad(m.w00, m.w04, m.w08, m.w12));
    var q := QuarterUndone(Quad(m.w01, m.w05, m.w09, m.w13));
    var r := QuarterUndone(Quad(m.w02, m.w06, m.w10, m.w14));
    var s := QuarterUndone(Quad(m.w03, m.w07, m.w11, m.w15));
    Matrix(p.a, q.a, r.a, s.a, p.b, q.b, r.b, s.b, p.c, q.c, r.c, s.c, p.d, q.d, r.d, s.d)
  }

  function DiagonalUndone(m: Matrix): Matrix {
    var p := QuarterUndone(Quad(m.w00, m.w05, m.w10, m.w15));
    var q := QuarterUndone(Quad(m.w01, m.w06, m.w11, m.w12));
    var r := QuarterUndone(Quad(m.w02, m.w07, m.w08, m.w13));
    var s := QuarterUndone(Quad(m.w03, m.w04, m.w09, m.w14));
    Matrix(p.a, q.a, r.a, s.a, s.b, p.b, q.b, r.b, r.c, s.c, p.c, q.c, q.d, r.d, s.d, p.d)
  }

  lemma ColumnInverse(m: Matrix)
    ensures ColumnUndone(ColumnRound(m)) == m && ColumnRound(ColumnUndone(m)) == m
  {
    QuarterInverse(Quad(m.w00, m.w04, m.w08, m.w12));
    QuarterInverse(Quad(m.w01, m.w05, m.w09, m.w13));
    QuarterInverse(Quad(m.w02, m.w06, m.w10, m.w14));
    QuarterInverse(Quad(m.w03, m.w07, m.w11, m.w15));
  }

  lemma DiagonalInverse(m: Matrix)
    ensures DiagonalUndone(DiagonalRound(m)) == m && DiagonalRound(DiagonalUndone(m)) == m
  {
    QuarterInverse(Quad(m.w00, m.w05, m.w10, m.w15));
    QuarterInverse(Quad(m.w01, m.w06, m.w11, m.w12));
    QuarterInverse(Quad(m.w02, m.w07, m.w08, m.w13));
    QuarterInverse(Quad(m.w03, m.w04, m.w09, m.w14));
  }

  function DoubleUndone(m: Matrix): Matrix {
    ColumnUndone(DiagonalUndone(m))
  }

  lemma DoubleInverse(m: Matrix)
    ensures DoubleUndone(DoubleRound(m)) == m && DoubleRound(DoubleUndone(m)) == m
  {
    ColumnInverse(m);
    DiagonalInverse(ColumnRound(m));
    DiagonalInverse(m);
    ColumnInverse(DiagonalUndone(m));
  }

  lemma {:induction false} IterateShift<T>(f: T -> T, n: nat, x: T)
    ensures Iterate(f, n, f(x)) == f(Iterate(f, n, x))
    decreases n
  {
    if n > 0 { IterateShift(f, n - 1, x); }
  }

  lemma {:induction false} IterateInverse<T(!new)>(f: T -> T, g: T -> T, n: nat, x: T)
    requires forall y :: g(f(y)) == y
    ensures Iterate(g, n, Iterate(f, n, x)) == x
    decreases n
  {
    if n > 0 {
      IterateShift(g, n - 1, Iterate(f, n, x));
      IterateInverse(f, g, n - 1, x);
    }
  }

  /** Any number of double rounds, and so the twenty rounds of the loop, is a bijection of the
      matrices with this inverse. */
  lemma RoundsInverse(m: Matrix, n: nat)
    ensures Iterate(DoubleUndone, n, Iterate(DoubleRound, n, m)) == m
    ensures Iterate(DoubleRound, n, Iterate(DoubleUndone, n, m)) == m
  {
    forall m ensures DoubleUndone(DoubleRound(m)) == m && DoubleRound(DoubleUndone(m)) == m { DoubleInverse(m); }
    IterateInverse(DoubleRound, DoubleUndone, n, m);
    IterateInverse(DoubleUndone, DoubleRound, n, m);
  }

  // ----- HChaCha20 on bytes.

  function LittleEndian(b: Bytes, i: nat): Word
    requires i + 4 <= |b|
  {
    var (b0: nat, b1: nat, b2: nat, b3: nat) := (b[i], b[i + 1], b[i + 2], b[i + 3]);
    b0 + 0x100 * b1 + 0x1_0000 * b2 + 0x100_0000 * b3
  }

  function BytesOf(w: Word): (b: Bytes)
    ensures |b| == 4
  {
    [w % 0x100, w / 0x100 % 0x100, w / 0x1_0000 % 0x100, w / 0x100_0000]
  }

  lemma BytesDecode(w: Word)
    ensures LittleEndian(BytesOf(w), 0) == w
  {
    assert w / 0x1_0000 == w / 0x100 / 0x100;
    assert w / 0x100_0000 == w / 0x1_0000 / 0x100;
  }

  // "expand 32-byte k", then the key, then the nonce.
  function Initial(key: Bytes, nonce: Bytes): Matrix
    requires |key| == 32 && |nonce| == 16
  {
    Matrix(0x6170_7865, 0x3320_646e, 0x7962_2d32, 0x6b20_6574,
      LittleEndian(key, 0), LittleEndian(key, 4), LittleEndian(key, 8), LittleEndian(key, 12),
      LittleEndian(key, 16), LittleEndian(key, 20), LittleEndian(key, 24), LittleEndian(key, 28),
      LittleEndian(nonce, 0), LittleEndian(nonce, 4), LittleEndian(nonce, 8), LittleEndian(nonce, 12))
  }

  function FirstAndLast(m: Matrix): (b: Bytes)
    ensures |b| == 32
  {
    BytesOf(m.w00) + BytesOf(m.w01) + BytesOf(m.w02) + BytesOf(m.w03) +
    BytesOf(m.w12) + BytesOf(m.w13) + BytesOf(m.w14) + BytesOf(m.w15)
  }

  // ----- The matrix as bytes.

  function WordsOf(m: Matrix): (w: seq<Word>)
    ensures |w| == 16
  {
    [m.w00, m.w01, m.w02, m.w03, m.w04, m.w05, m.w06, m.w07, m.w08, m.w09, m.w10, m.w11, m.w12, m.w13, m.w14, m.w15]
  }

  function Serialised(words: seq<Word>): (b: Bytes)
    ensures |b| == 4 * |words|
  {
    if words == [] then [] else Serialised(words[..|words| - 1]) + BytesOf(words[|words| - 1])
  }

  function MatrixBytes(m: Matrix): (b: Bytes)
    ensures |b| == 64
  {
    Serialised(WordsOf(m))
  }

  lemma {:induction false} SerialisedAt(words: seq<Word>, i: nat)
    requires i < |words|
    ensures Serialised(words)[4 * i..4 * i + 4] == BytesOf(words[i])
  {
    if i < |words| - 1 { SerialisedAt(words[..|words| - 1], i); }
  }

  lemma SerialisedInjective(m: Matrix, m': Matrix)
    requires MatrixBytes(m) == MatrixBytes(m')
    ensures m == m'
  {
    var (w, w') := (WordsOf(m), WordsOf(m'));
    forall i | 0 <= i < 16 ensures w[i] == w'[i] {
      SerialisedAt(w, i);
      SerialisedAt(w', i);
      BytesDecode(w[i]);
      BytesDecode(w'[i]);
    }
    assert m.w00 == w[0] && m.w01 == w[1] && m.w02 == w[2] && m.w03 == w[3];
    assert m.w04 == w[4] && m.w05 == w[5] && m.w06 == w[6] && m.w07 == w[7];
    assert m.w08 == w[8] && m.w09 == w[9] && m.w10 == w[10] && m.w11 == w[11];
    assert m.w12 == w[12] && m.w13 == w[13] && m.w14 == w[14] && m.w15 == w[15];
  }

  lemma WordOfBytes(b: Bytes, i: nat)
    requires i + 4 <= |b|
    ensures BytesOf(LittleEndian(b, i)) == b[i..i + 4]
  {
    var w: nat, b0: nat, b1: nat, b2: nat, b3: nat := LittleEndian(b, i), b[i], b[i + 1], b[i + 2], b[i + 3];
    assert w % 0x100 == b0;
    assert w / 0x100 == b1 + 0x100 * b2 + 0x1_0000 * b3;
    assert w / 0x1_0000 == b2 + 0x100 * b3;
    assert w / 0x100_0000 == b3;
  }

  const SIGMA: string := "expand 32-byte k"

  function Ascii(s: string): (b: Bytes)
    requires forall i :: 0 <= i < |s| ==> s[i] as int < 256
    ensures |b| == |s|
  {
    if s == "" then [] else Ascii(s[..|s| - 1]) + [s[|s| - 1] as int]
  }

  /** The matrix starts as the one whose bytes are the constant, the key and the nonce. */
  lemma InitialIsBytes(key: Bytes, nonce: Bytes, m: Matrix)
    requires |key| == 32 && |nonce| == 16
    ensures m == Initial(key, nonce) <==> MatrixBytes(m) == Ascii(SIGMA) + key + nonce
  {
    BytesOfInitial(key, nonce);
    if MatrixBytes(m) == Ascii(SIGMA) + key + nonce { SerialisedInjective(m, Initial(key, nonce)); }
  }

  lemma BytesOfInitial(key: Bytes, nonce: Bytes)
    requires |key| == 32 && |nonce| == 16
    ensures MatrixBytes(Initial(key, nonce)) == Ascii(SIGMA) + key + nonce
  {
    var words, b := WordsOf(Initial(key, nonce)), Ascii(SIGMA) + key + nonce;
    forall i | 0 <= i < 16 ensures Serialised(words)[4 * i..4 * i + 4] == b[4 * i..4 * i + 4] {
      SerialisedAt(words, i);
      InitialWord(key, nonce, i);
    }
    forall j | 0 <= j < 64 ensures Serialised(words)[j] == b[j] {
      assert Serialised(words)[j] == Serialised(words)[4 * (j / 4)..4 * (j / 4) + 4][j % 4];
      assert b[j] == b[4 * (j / 4)..4 * (j / 4) + 4][j % 4];
    }
  }

  lemma InitialWord(key: Bytes, nonce: Bytes, i: nat)
    requires |key| == 32 && |nonce| == 16 && i < 16
    ensures BytesOf(WordsOf(Initial(key, nonce))[i]) == (Ascii(SIGMA) + key + nonce)[4 * i..4 * i + 4]
  {
    var words, b := WordsOf(Initial(key, nonce)), Ascii(SIGMA) + key + nonce;
    if i < 4 {
      SigmaWord(i);
      assert b[4 * i..4 * i + 4] == Ascii(SIGMA)[4 * i..4 * i + 4];
    } else if i < 12 {
      var j := 4 * (i - 4);
      assert words[i] == LittleEndian(key, j);
      WordOfBytes(key, j);
      assert b[16 + j..20 + j] == key[j..j + 4];
    } else {
      var j := 4 * (i - 12);
      assert words[i] == LittleEndian(nonce, j);
      WordOfBytes(nonce, j);
      assert b[48 + j..52 + j] == nonce[j..j + 4];
    }
  }

  lemma SigmaWord(i: nat)
    requires i < 4
    ensures BytesOf([0x6170_7865, 0x3320_646e, 0x7962_2d32, 0x6b20_6574][i]) == Ascii(SIGMA)[4 * i..4 * i + 4]
  {
    AsciiAt(SIGMA, 4 * i);
    AsciiAt(SIGMA, 4 * i + 1);
    AsciiAt(SIGMA, 4 * i + 2);
    AsciiAt(SIGMA, 4 * i + 3);
    assert LittleEndian(Ascii(SIGMA), 4 * i) == [0x6170_7865, 0x3320_646e, 0x7962_2d32, 0x6b20_6574][i];
    WordOfBytes(Ascii(SIGMA), 4 * i);
  }

  lemma {:induction false} AsciiAt(s: string, i: nat)
    requires (forall j :: 0 <= j < |s| ==> s[j] as int < 256) && i < |s|
    ensures Ascii(s)[i] == s[i] as int
  {
    if i < |s| - 1 { AsciiAt(s[..|s| - 1], i); }
  }

  // The first and the last row of the matrix after twenty rounds.
  function DerivedKey(key: Bytes, nonce: Bytes): (derived: Bytes)
    requires |key| == 32 && |nonce| == 16
    ensures |derived| == 32
  {
    FirstAndLast(TwentyRounds(Initial(key, nonce)))
  }

  /** The output is the first and the last sixteen bytes of the matrix. */
  lemma RowsAreBytes(m: Matrix)
    ensures var b := MatrixBytes(m); FirstAndLast(m) == b[..16] + b[48..]
  {
    var b := Serialised(WordsOf(m));
    SerialisedAt(WordsOf(m), 0);
    SerialisedAt(WordsOf(m), 1);
    SerialisedAt(WordsOf(m), 2);
    SerialisedAt(WordsOf(m), 3);
    SerialisedAt(WordsOf(m), 12);
    SerialisedAt(WordsOf(m), 13);
    SerialisedAt(WordsOf(m), 14);
    SerialisedAt(WordsOf(m), 15);
    assert b[..16] == b[0..4] + b[4..8] + b[8..12] + b[12..16];
    assert b[48..] == b[48..52] + b[52..56] + b[56..60] + b[60..64];
  }

  method PutUint32(out: array<Byte>, i: nat, w: Word)
    requires i + 4 <= out.Length
    modifies out
    ensures out[..i + 4] == old(out[..i]) + BytesOf(w) && out[i + 4..] == old(out[i + 4..])
  {
    out[i] := w % 0x100;
    out[i + 1] := w / 0x100 % 0x100;
    out[i + 2] := w / 0x1_0000 % 0x100;
    out[i + 3] := w / 0x100_0000;
  }

  method PutRows(out: array<Byte>, m: Matrix)
    requires out.Length == 32
    modifies out
    ensures out[..] == FirstAndLast(m)
  {
    PutUint32(out, 0, m.w00);
    PutUint32(out, 4, m.w01);
    PutUint32(out, 8, m.w02);
    PutUint32(out, 12, m.w03);
    PutUint32(out, 16, m.w12);
    PutUint32(out, 20, m.w13);
    PutUint32(out, 24, m.w14);
    PutUint32(out, 28, m.w15);
    assert out[..] == out[..32];
  }

  method HChaCha20(out: array<Byte>, nonce: Bytes, key: Bytes)
    requires out.Length == 32 && |nonce| == 16 && |key| == 32
    modifies out
    ensures out[..] == DerivedKey(key, nonce)
  {
    var m := Permute(Initial(key, nonce));
    PutRows(out, m);
  }

  // ----- The AEAD, whose boxes open only with what sealed them.

  datatype Box = Box(key: Bytes, nonce: Bytes, plaintext: Bytes, ad: Bytes)

  // Four zero bytes and the rest of the long nonce.
  function ShortNonce(nonceFull: Bytes): (short: Bytes)
    requires |nonceFull| == 24
    ensures |short| == 12 && short[4..] == nonceFull[16..] && forall i :: 0 <= i < 4 ==> short[i] == 0
  {
    [0, 0, 0, 0] + nonceFull[16..]
  }

  method CopyNonce(nonceFull: Bytes) returns (short: Bytes)
    requires |nonceFull| == 24
    ensures short == ShortNonce(nonceFull)
  {
    var nonce := new Byte[12](_ => 0);
    for i := 0 to 8
      invariant nonce[..4] == [0, 0, 0, 0] && nonce[4..4 + i] == nonceFull[16..16 + i]
    {
      nonce[4 + i] := nonceFull[16 + i];
    }
    short := nonce[..];
    assert short == nonce[..4] + nonce[4..12];
    assert nonceFull[16..] == nonceFull[16..24];
  }

  method DeriveKey(nonceFull: Bytes, key: Bytes) returns (derived: Bytes)
    requires |nonceFull| == 24 && |key| == 32
    ensures derived == DerivedKey(key, nonceFull[..16])
  {
    var derivedKey := new Byte[32](_ => 0);
    HChaCha20(derivedKey, nonceFull[..16], key);
    derived := derivedKey[..];
  }

  method XChaCha20Poly1305Encrypt(nonceFull: Bytes, plaintext: Bytes, ad: Bytes, key: Bytes) returns (box: Box)
    requires |nonceFull| == 24 && |key| == 32
    ensures box == Box(DerivedKey(key, nonceFull[..16]), ShortNonce(nonceFull), plaintext, ad)
  {
    var derived := DeriveKey(nonceFull, key);
    var nonce := CopyNonce(nonceFull);
    box := Box(derived, nonce, plaintext, ad);
  }

  /** Opening succeeds exactly with the same derived key, the same last eight bytes of the nonce and
      the same additional data, and then gives back the plaintext. */
  method XChaCha20Poly1305Decrypt(nonceFull: Bytes, box: Box, ad: Bytes, key: Bytes) returns (plaintext: Option<Bytes>)
    requires |nonceFull| == 24 && |key| == 32
    ensures forall nonce: Bytes, k: Bytes, sealedAd: Bytes, p: Bytes ::
      |nonce| == 24 && |k| == 32 && box == Box(DerivedKey(k, nonce[..16]), ShortNonce(nonce), p, sealedAd) ==>
        var sameKey := DerivedKey(k, nonce[..16]) == DerivedKey(key, nonceFull[..16]);
        var opens := sameKey && nonce[16..] == nonceFull[16..] && sealedAd == ad;
        plaintext == if opens then Some(p) else None
  {
    var derived := DeriveKey(nonceFull, key);
    var short := CopyNonce(nonceFull);
    plaintext := if box.key == derived && box.nonce == short && box.ad == ad then Some(box.plaintext) else None;
    forall nonce: Bytes | |nonce| == 24 ensures ShortNonce(nonce) == short <==> nonce[16..] == nonceFull[16..] {
      assert ShortNonce(nonce)[4..] == nonce[16..] && ShortNonce(nonceFull)[4..] == nonceFull[16..];
    }
  }

  /** What is sealed is opened again with the same key, nonce and additional data. */
  method RoundTrip(nonceFull: Bytes, plaintext: Bytes, ad: Bytes, key: Bytes) returns (result: Option<Bytes>)
    requires |nonceFull| == 24 && |key| == 32
    ensures result == Some(plaintext)
  {
    var box := XChaCha20Poly1305Encrypt(nonceFull, plaintext, ad, key);
    result := XChaCha20Poly1305Decrypt(nonceFull, box, ad, key);
  }
}
