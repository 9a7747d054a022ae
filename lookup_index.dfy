/**
 * The index _quantize computes into the 65536-entry table of quantized
 * bfloat16 values. A bfloat16 input uses its own bit pattern; a binary32
 * input (the layout of section 3.4 of IEEE 754-2019: sign bit 31, exponent
 * bits 30..23, fraction bits 22..0) uses its top half, with a sticky bit
 * recording whether any dropped low bit was set.
 *
 * Bit patterns are natural numbers below 2^16 or 2^32; a shift by k is a
 * division by 2^k and a mask of the low k bits a remainder modulo 2^k.
 */
module LookupIndex {
  import opened Numbers

  type Bits16 = b: nat | b < 0x1_0000
  type Bits32 = w: nat | w < 0x1_0000_0000

  /** The two input kinds _quantize distinguishes, as raw bit patterns. */
  datatype Input = Bfloat16(b: Bits16) | Float32(w: Bits32)

  /** The signed value of a 16-bit pattern: `view(torch.int16)`. */
  function Int16Of(b: Bits16): (v: int)
    ensures -0x8000 <= v < 0x8000
  {
    if b >= 0x8000 then b - 0x1_0000 else b
  }

  /** The signed value of a 32-bit pattern: `view(torch.int32)`. */
  function Int32Of(w: Bits32): (v: int)
    ensures -0x8000_0000 <= v < 0x8000_0000
  {
    if w >= 0x8000_0000 then w - 0x1_0000_0000 else w
  }

  /** `x | 1` on a non-negative integer. */
  function OrOne(x: nat): (y: nat)
    ensures y % 2 == 1 && y - x <= 1 && y >= x
  {
    if x % 2 == 0 then x + 1 else x
  }

  /**
   * The index for a binary32 pattern, in the source's int32 arithmetic:
   * `(raw_bits >> 16) & 0xffff` (an arithmetic shift, i.e. floor division),
   * then `| 1` when `raw_bits & 0xffff` is nonzero.
   */
  function Binary32Index(w: Bits32): int
  {
    var raw := Int32Of(w);
    var hi := (raw / 0x1_0000) % 0x1_0000;
    if raw % 0x1_0000 != 0 then OrOne(hi) else hi
  }

  /** `view(torch.int16).to(torch.int32) & 0xffff` for a bfloat16 pattern. */
  function Bfloat16Index(b: Bits16): int
  {
    Int16Of(b) % 0x1_0000
  }

  /** A bfloat16 input indexes the table with its own 16-bit pattern. */
  lemma Bfloat16IndexIsPattern(b: Bits16)
    ensures Bfloat16Index(b) == b
  {
    if b >= 0x8000 {
      assert Int16Of(b) == b - 0x1_0000;
      assert (b - 0x1_0000) % 0x1_0000 == b;
    }
  }

  /** The top half of a pattern: `w >> 16`. */
  function Top(w: Bits32): (h: nat)
    ensures h < 0x1_0000
  {
    w / 0x1_0000
  }

  /** With the low half zero the index is exactly the top half; otherwise it is the top half with bit 0 set. */
  lemma Binary32IndexHalves(w: Bits32)
    ensures w % 0x1_0000 == 0 ==> Binary32Index(w) == Top(w)
    ensures w % 0x1_0000 != 0 ==> Binary32Index(w) == OrOne(Top(w))
    ensures 0 <= Binary32Index(w) < 0x1_0000
  {
    var raw := Int32Of(w);
    var h := w / 0x1_0000;
    var l := w % 0x1_0000;
    assert w == h * 0x1_0000 + l;
    if w >= 0x8000_0000 {
      assert raw == (h - 0x1_0000) * 0x1_0000 + l;
      assert raw / 0x1_0000 == h - 0x1_0000;
      assert raw % 0x1_0000 == l;
      assert (h - 0x1_0000) % 0x1_0000 == h;
    }
    assert raw % 0x1_0000 == l;
  }

  /** The sign bit (bit 31 of binary32, bit 15 of bfloat16). */
  function Sign32(w: Bits32): nat { w / 0x8000_0000 }
  function Sign16(b: Bits16): nat { b / 0x8000 }

  /** The eight exponent bits (30..23 of binary32, 14..7 of bfloat16). */
  function Exponent32(w: Bits32): nat { (w / 0x80_0000) % 0x100 }
  function Exponent16(b: Bits16): nat { (b / 0x80) % 0x100 }

  /** Division has one quotient: `n == q * d + r` with `0 <= r < d` fixes `n / d`. */
  lemma DivUnique(n: int, d: int, q: int, r: int)
    requires d > 0 && 0 <= r < d && n == q * d + r
    ensures n / d == q
  {
    var k := n / d;
    var s := n % d;
    assert (k - q) * d == r - s;
    SmallMultiple(k - q, d);
  }

  /** The only multiple of `d` strictly between `-d` and `d` is zero. */
  lemma SmallMultiple(x: int, d: int)
    requires d > 0 && -d < x * d < d
    ensures x == 0
  {
  }

  /** Shifting right by 16 and then by k is shifting right by 16 + k. */
  lemma DivOfTop(w: Bits32, m: nat)
    requires m > 0
    ensures w / (0x1_0000 * m) == Top(w) / m
  {
    var h := Top(w);
    var l := w % 0x1_0000;
    var q := h / m;
    var r := h % m;
    assert w == h * 0x1_0000 + l;
    assert h == q * m + r;
    assert r * 0x1_0000 + l < 0x1_0000 * m by {
      assert r <= m - 1;
      assert r * 0x1_0000 <= (m - 1) * 0x1_0000;
    }
    assert w == q * (0x1_0000 * m) + (r * 0x1_0000 + l);
    DivUnique(w, 0x1_0000 * m, q, r * 0x1_0000 + l);
  }

  /** Setting bit 0 of an even number leaves its quotient by an even divisor alone. */
  lemma OddBumpKeepsQuotient(h: nat, m: nat)
    requires m >= 2 && m % 2 == 0 && h % 2 == 0
    ensures (h + 1) / m == h / m
  {
    var q, r, k := h / m, h % m, m / 2;
    assert h == q * m + r;
    assert q * m == 2 * (q * k) by { assert m == 2 * k; }
    EvenRemainder(h, q * k, r);
    EvenBelowEven(r, m);
    DivUnique(h + 1, m, q, r + 1);
  }

  /** What is left of an even number after taking away an even part is even. */
  lemma EvenRemainder(h: int, p: int, r: int)
    requires h == 2 * p + r && h % 2 == 0
    ensures r % 2 == 0
  {
  }

  /** An even number below an even bound is at least two below it. */
  lemma EvenBelowEven(r: int, m: int)
    requires r < m && r % 2 == 0 && m % 2 == 0
    ensures r + 1 < m
  {
  }

  /** The index, read as a bfloat16 pattern, keeps the sign and exponent of the binary32 input. */
  lemma Binary32IndexKeepsSignAndExponent(w: Bits32)
    ensures var i := Binary32Index(w);
      0 <= i < 0x1_0000 && Sign16(i) == Sign32(w) && Exponent16(i) == Exponent32(w)
  {
    Binary32IndexHalves(w);
    var h := Top(w);
    var i := Binary32Index(w);
    DivOfTop(w, 0x8000);
    DivOfTop(w, 0x80);
    if i != h {
      OddBumpKeepsQuotient(h, 0x8000);
      OddBumpKeepsQuotient(h, 0x80);
    }
  }

  /** The position in the 65536-entry table that _quantize reads. */
  function LookupIndex(x: Input): (i: nat)
    ensures i < 0x1_0000
  {
    match x
    case Bfloat16(b) =>
      Bfloat16IndexIsPattern(b);
      Bfloat16Index(b)
    case Float32(w) =>
      Binary32IndexHalves(w);
      Binary32Index(w)
  }

  /** _quantize: the table entry at the input's index. */
  function Quantize(x: Input, qvalues: seq<Num>): (y: Num)
    requires |qvalues| == 0x1_0000
    ensures y in qvalues
  {
    qvalues[LookupIndex(x)]
  }

  /** Widening a bfloat16 value to binary32 (appending 16 zero bits) does not move its index. */
  lemma WideningKeepsIndex(b: Bits16)
    ensures LookupIndex(Float32(b * 0x1_0000)) == LookupIndex(Bfloat16(b))
  {
    var w: Bits32 := b * 0x1_0000;
    assert w % 0x1_0000 == 0 && w / 0x1_0000 == b;
    Binary32IndexHalves(w);
    Bfloat16IndexIsPattern(b);
  }
}
