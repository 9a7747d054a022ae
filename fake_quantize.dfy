/**
 * The numeric core of the fake quantizer: choosing a rounding function from a
 * dtype name, the largest normal value of a generic `fp<n>_e<e>m<m>` format,
 * integer rounding, the 16-bit index into the bfloat16 lookup table, and the
 * axes each quantization scheme reduces over.
 */
module FakeQuantize {
  import opened Wrappers
  import opened Numbers
  import opened Strings
  import TrainingArgs

  // ---------------------------------------------------------------------------
  // Recognising dtype names (the regular expressions of _get_fake_quant_fn)

  /** The length of the run of decimal digits at the front of s. */
  function DigitRun(s: string): (k: nat)
    ensures k <= |s| && AllDigits(s[..k])
    ensures k < |s| ==> !IsDigit(s[k])
  {
    if s == [] || !IsDigit(s[0]) then 0
    else
      var k := 1 + DigitRun(s[1..]);
      assert forall i :: 1 <= i < k ==> s[..k][i] == s[1..][..k - 1][i - 1];
      k
  }

  lemma {:induction false} DigitRunOf(d: string, rest: string)
    requires AllDigits(d)
    requires rest == [] || !IsDigit(rest[0])
    ensures DigitRun(d + rest) == |d|
  {
    if d == [] {
      assert d + rest == rest;
    } else {
      assert (d + rest)[0] == d[0];
      assert (d + rest)[1..] == d[1..] + rest;
      DigitRunOf(d[1..], rest);
    }
  }

  /** A nonempty run of decimal digits: what `(\d+)` captures. */
  predicate Digits(d: string) { |d| >= 1 && AllDigits(d) }

  /** re.fullmatch(r'posit(\d+)_(\d+)', s): the two captured numbers. */
  function MatchPosit(s: string): Option<(nat, nat)>
  {
    if !IsPrefix("posit", s) then None
    else
      var t := s[5..];
      var k := DigitRun(t);
      if 1 <= k < |t| && t[k] == '_' && Digits(t[k + 1..]) then
        Some((DigitsValue(t[..k]), DigitsValue(t[k + 1..])))
      else None
  }

  /** The spellings re.fullmatch(r'posit(\d+)_(\d+)', s) accepts. */
  predicate PositSpelling(s: string, n: string, es: string)
  {
    Digits(n) && Digits(es) && s == "posit" + n + "_" + es
  }

  /** MatchPosit accepts exactly the posit spellings and captures their two numbers. */
  lemma MatchPositExact(s: string, n: string, es: string)
    ensures PositSpelling(s, n, es) ==> MatchPosit(s) == Some((DigitsValue(n), DigitsValue(es)))
    ensures MatchPosit(s).Some? ==>
      var t := s[5..]; var k := DigitRun(t);
      PositSpelling(s, t[..k], t[k + 1..])
  {
    if PositSpelling(s, n, es) {
      MatchPositComplete(s, n, es);
    }
    if MatchPosit(s).Some? {
      MatchPositSound(s);
    }
  }

  lemma MatchPositComplete(s: string, n: string, es: string)
    requires PositSpelling(s, n, es)
    ensures MatchPosit(s) == Some((DigitsValue(n), DigitsValue(es)))
  {
    assert s[..5] == "posit";
    assert s[5..] == n + ("_" + es);
    DigitRunOf(n, "_" + es);
    assert s[5..][..|n|] == n;
    assert s[5..][|n| + 1..] == es;
  }

  lemma MatchPositSound(s: string)
    requires MatchPosit(s).Some?
    ensures var t := s[5..]; var k := DigitRun(t);
      PositSpelling(s, t[..k], t[k + 1..])
  {
    var t := s[5..];
    var k := DigitRun(t);
    assert s == s[..5] + t;
    assert t == t[..k] + "_" + t[k + 1..];
  }

  /** re.fullmatch(r'(?:fp8\.)?(e4m3|e5m2)', s, re.IGNORECASE). */
  function MatchFp8(s: string): (r: Option<Fp8Format>)
    ensures r.Some? <==> Fp8Spelling(s)
    ensures r == Some(E4M3) <==> Lower(s) in {"e4m3", "fp8.e4m3"}
    ensures r == Some(E5M2) <==> Lower(s) in {"e5m2", "fp8.e5m2"}
  {
    var l := Lower(s);
    if l == "e4m3" || l == "fp8.e4m3" then Some(E4M3)
    else if l == "e5m2" || l == "fp8.e5m2" then Some(E5M2)
    else None
  }

  /** The spellings the fp8 pattern accepts: the two format names, optionally after `fp8.`, in any case. */
  predicate Fp8Spelling(s: string)
  {
    Lower(s) in {"e4m3", "fp8.e4m3", "e5m2", "fp8.e5m2"}
  }

  /** re.fullmatch(r"fp(\d+)_e(\d+)m(\d+)", s): total width, exponent bits, mantissa bits. */
  function MatchFp(s: string): Option<(nat, nat, nat)>
  {
    if !IsPrefix("fp", s) then None
    else
      var t := s[2..];
      var k := DigitRun(t);
      if 1 <= k && k + 1 < |t| && t[k] == '_' && t[k + 1] == 'e' then
        var u := t[k + 2..];
        var j := DigitRun(u);
        if 1 <= j < |u| && u[j] == 'm' && Digits(u[j + 1..]) then
          Some((DigitsValue(t[..k]), DigitsValue(u[..j]), DigitsValue(u[j + 1..])))
        else None
      else None
  }

  predicate FpSpelling(s: string, n: string, e: string, m: string)
  {
    Digits(n) && Digits(e) && Digits(m) && s == "fp" + n + "_e" + e + "m" + m
  }

  /** MatchFp captures the three numbers of every `fp<n>_e<e>m<m>` spelling. */
  lemma MatchFpComplete(s: string, n: string, e: string, m: string)
    requires FpSpelling(s, n, e, m)
    ensures MatchFp(s) == Some((DigitsValue(n), DigitsValue(e), DigitsValue(m)))
  {
    assert s[..2] == "fp";
    var t := s[2..];
    assert t == n + ("_e" + e + "m" + m);
    FpHeadMatch(t, n, e, m);
    FpTailMatch(t[|n| + 2..], e, m);
  }

  lemma FpHeadMatch(t: string, n: string, e: string, m: string)
    requires Digits(n) && t == n + ("_e" + e + "m" + m)
    ensures DigitRun(t) == |n| && |n| + 1 < |t| && t[|n|] == '_' && t[|n| + 1] == 'e'
    ensures t[..|n|] == n && t[|n| + 2..] == e + ("m" + m)
  {
    DigitRunOf(n, "_e" + e + "m" + m);
    assert t[..|n|] == n;
    assert t[|n| + 2..] == e + ("m" + m);
  }

  /** MatchFp accepts only `fp<n>_e<e>m<m>` spellings, and its captures are their numbers. */
  lemma MatchFpSound(s: string)
    requires MatchFp(s).Some?
    ensures exists n, e, m ::
      FpSpelling(s, n, e, m) && MatchFp(s) == Some((DigitsValue(n), DigitsValue(e), DigitsValue(m)))
  {
    var t := s[2..];
    var k := DigitRun(t);
    var u := t[k + 2..];
    var j := DigitRun(u);
    var n, e, m := t[..k], u[..j], u[j + 1..];
    SplitAround(s, 0, "fp");
    SplitAround(t, k, "_e");
    SplitAround(u, j, "m");
    Glue(s, n, e, m, t, u);
    assert Digits(n) && Digits(e) && Digits(m);
    assert FpSpelling(s, n, e, m);
    assert MatchFp(s) == Some((DigitsValue(n), DigitsValue(e), DigitsValue(m)));
  }

  /** A separator found at position k splits t into what comes before and after it. */
  lemma SplitAround(t: string, k: nat, sep: string)
    requires k + |sep| <= |t| && t[k..k + |sep|] == sep
    ensures t == t[..k] + sep + t[k + |sep|..]
  {
  }

  lemma Glue(s: string, n: string, e: string, m: string, t: string, u: string)
    requires s == s[..0] + "fp" + t && t == n + "_e" + u && u == e + "m" + m
    ensures s == "fp" + n + "_e" + e + "m" + m
  {
    assert s[..0] == [];
  }

  /** The `(\d+)m(\d+)` tail of an fp spelling splits at its first `m`. */
  lemma FpTailMatch(u: string, e: string, m: string)
    requires Digits(e) && Digits(m) && u == e + ("m" + m)
    ensures DigitRun(u) == |e| && |e| < |u| && u[|e|] == 'm'
    ensures u[..|e|] == e && u[|e| + 1..] == m
  {
    DigitRunOf(e, "m" + m);
    assert u[..|e|] == e;
    assert u[|e| + 1..] == m;
  }

  /** re.fullmatch(r'int(\d+)', s). */
  function MatchInt(s: string): Option<nat>
  {
    if IsPrefix("int", s) && Digits(s[3..]) then Some(DigitsValue(s[3..])) else None
  }

  predicate IntSpelling(s: string, d: string)
  {
    Digits(d) && s == "int" + d
  }

  /** MatchInt accepts exactly the `int<d>` spellings and captures their number. */
  lemma MatchIntExact(s: string, d: string)
    ensures IntSpelling(s, d) ==> MatchInt(s) == Some(DigitsValue(d))
    ensures MatchInt(s).Some? ==> IntSpelling(s, s[3..]) && MatchInt(s) == Some(DigitsValue(s[3..]))
  {
    if IntSpelling(s, d) {
      assert s[..3] == "int" && s[3..] == d;
    }
    if MatchInt(s).Some? {
      assert s == s[..3] + s[3..];
    }
  }

  // ---------------------------------------------------------------------------
  // The dispatch

  datatype Fp8Format = E4M3 | E5M2

  /**
   * The rounding function a dtype selects. Elemwise carries the arguments
   * passed to the element-wise float quantizer: mantissa bits plus two (the
   * value the source stores back into `mbits`), exponent bits and max_norm.
   */
  datatype QuantFn =
    | Posit(nbits: nat, es: nat)
    | Fp8(format: Fp8Format)
    | Elemwise(mbitsPlus2: nat, ebits: nat, maxNorm: NormValue)
    | IntRound(qmin: real, qmax: real)

  /**
   * A max_norm value: an exact real, or v * 2^0.5 (the irrational factor
   * Python's 2 ** 0.5 stands for when the format has no exponent bits).
   */
  datatype NormValue = Exact(v: real) | RootTwoTimes(v: real)

  datatype DispatchError = WidthMismatch(nbits: nat, ebits: nat, mbits: nat) | Unrecognized(dtype: string)

  /**
   * emax of the generic float branch for at least one exponent bit:
   * 2^(e-1) - 1 above four exponent bits, 2^(e-1) otherwise.
   */
  function Emax(ebits: nat): nat
    requires ebits >= 1
  {
    if ebits > 4 then Pow2(ebits - 1) - 1 else Pow2(ebits - 1)
  }

  /**
   * max_norm of the generic float branch: 2^emax * (2^(m+1) - 1) / 2^m, and
   * 2^emax * 1.75 for the name "fp8_e4m3". With no exponent bits Python's
   * emax is 2 ** -1 = 0.5, so 2^emax is the square root of two.
   */
  function MaxNorm(dtype: string, ebits: nat, mbits: nat): (r: NormValue)
    ensures r.RootTwoTimes? <==> ebits == 0
    ensures r.v == (if ebits == 0 then 1.0 else Pow2(Emax(ebits)) as real) * MantissaFactor(dtype, mbits)
  {
    var f := MantissaFactor(dtype, mbits);
    if ebits == 0 then RootTwoTimes(f)
    else Exact(Pow2(Emax(ebits)) as real * f)
  }

  /**
   * float(2**(mbits-1) - 1) / 2**(mbits-2) with mbits = m + 2, that is
   * (2^(m+1) - 1) / 2^m, or 1.75 for the name "fp8_e4m3".
   */
  function MantissaFactor(dtype: string, mbits: nat): real
  {
    if dtype != "fp8_e4m3" then Ratio(1, Pow2(mbits + 1) - 1, Pow2(mbits)) else 1.75
  }

  /** a * b / c on naturals, as an exact real. */
  function Ratio(a: nat, b: nat, c: nat): real
    requires c >= 1
  {
    a as real * b as real / c as real
  }

  /** _get_fake_quant_fn: the four patterns in order, then ValueError. */
  function FakeQuantFn(dtype: string): Result<QuantFn, DispatchError>
  {
    match MatchPosit(dtype)
    case Some((n, es)) => Ok(Posit(n, es))
    case None =>
      match MatchFp8(dtype)
      case Some(f) => Ok(Fp8(f))
      case None =>
        match MatchFp(dtype)
        case Some((n, e, m)) =>
          if n != e + m + 1 then Err(WidthMismatch(n, e, m))
          else Ok(Elemwise(m + 2, e, MaxNorm(dtype, e, m)))
        case None =>
          match MatchInt(dtype)
          case Some(n) => Ok(IntRound(-Pow2Real(n - 1), Pow2Real(n - 1) - 1.0))
          case None => Err(Unrecognized(dtype))
  }

  /** torch.clamp(torch.round(x), quant_min, quant_max): the integer branch applied to a finite value. */
  function IntQuantize(qmin: real, qmax: real, x: real): (y: real)
    ensures qmin <= qmax ==> qmin <= y <= qmax
    ensures qmin <= x <= qmax && x == x.Floor as real ==> y == x
    ensures qmin <= RoundHalfEven(x) as real <= qmax ==> y == RoundHalfEven(x) as real
    ensures RoundHalfEven(x) as real < qmin <= qmax ==> y == qmin
    ensures qmin <= qmax < RoundHalfEven(x) as real ==> y == qmax
    ensures qmin == qmin.Floor as real && qmax == qmax.Floor as real && qmin <= x <= qmax ==> -0.5 <= y - x <= 0.5
  {
    Clamp(RoundHalfEven(x) as real, qmin, qmax)
  }

  // ---------------------------------------------------------------------------
  // Properties of the dispatch

  lemma NotPrefix(p: string, s: string)
    requires |p| >= 1 && |s| >= 1 && p[0] != s[0]
    ensures !IsPrefix(p, s)
  {
    if |p| <= |s| {
      assert s[..|p|][0] == s[0];
    }
  }

  lemma RatioFraction(a: nat, c: nat)
    requires c >= 1
    ensures Ratio(a, 2 * c - 1, c) == a as real * (2.0 - 1.0 / c as real)
  {
    var p := c as real;
    var x := (2 * c - 1) as real;
    assert x / p == 2.0 - 1.0 / p;
    assert a as real * x / p == a as real * (x / p);
  }

  /**
   * Outside the name "fp8_e4m3", max_norm is the largest normal value
   * (2 - 2^-m) * 2^emax of the format, for c = 2^m; with no exponent bits the
   * power 2^emax is 2^0.5.
   */
  lemma MaxNormIsLargestNormal(dtype: string, ebits: nat, mbits: nat, c: nat)
    requires dtype != "fp8_e4m3" && c == Pow2(mbits)
    ensures MaxNorm(dtype, ebits, mbits).v ==
      (if ebits == 0 then 1.0 else Pow2(Emax(ebits)) as real) * (2.0 - 1.0 / c as real)
    ensures MaxNorm(dtype, ebits, mbits).RootTwoTimes? <==> ebits == 0
  {
    MantissaFactorValue(dtype, mbits, c);
  }

  lemma MantissaFactorValue(dtype: string, mbits: nat, c: nat)
    requires dtype != "fp8_e4m3" && c == Pow2(mbits)
    ensures MantissaFactor(dtype, mbits) == 2.0 - 1.0 / c as real
  {
    assert Pow2(mbits + 1) - 1 == 2 * c - 1;
    RatioFraction(1, c);
  }

  function IntName(n: nat): string { "int" + NatToString(n) }

  /** `int<n>` selects rounding to the n-bit two's complement range [-2^(n-1), 2^(n-1) - 1]. */
  lemma IntDispatch(n: nat)
    ensures FakeQuantFn(IntName(n)) == Ok(IntRound(-Pow2Real(n - 1), Pow2Real(n - 1) - 1.0))
  {
    var s := IntName(n);
    assert s[0] == 'i' && s[1] == 'n' && s[2] == 't';
    assert !IsPrefix("posit", s) && !IsPrefix("fp", s);
    assert Lower(s)[0] == 'i';
    assert s[3..] == NatToString(n);
    NatToStringValue(n);
  }

  /** The integer range always holds the result, for every width (int0 collapses to -0.5). */
  lemma IntRoundInRange(n: nat, x: real)
    ensures -Pow2Real(n - 1) <= IntQuantize(-Pow2Real(n - 1), Pow2Real(n - 1) - 1.0, x) <= Pow2Real(n - 1) - 1.0
  {
    if n >= 1 {
      assert Pow2Real(n - 1) >= 1.0;
    } else {
      assert Pow2Real(-1) == 0.5;
    }
  }

  function FpName(n: nat, e: nat, m: nat): string
  {
    "fp" + NatToString(n) + "_e" + NatToString(e) + "m" + NatToString(m)
  }

  /** An `fp<n>_e<e>m<m>` name is neither a posit nor an fp8 name, and the float pattern captures its numbers. */
  lemma FpNameMatches(n: nat, e: nat, m: nat)
    ensures var s := FpName(n, e, m);
      MatchPosit(s) == None && MatchFp8(s) == None && MatchFp(s) == Some((n, e, m))
  {
    FpNameCaptures(n, e, m);
    var s := FpName(n, e, m);
    FpNameShape(n, e, m);
    NotPrefix("posit", s);
    FpNameNotFp8(s, NatToString(n));
  }

  lemma FpNameShape(n: nat, e: nat, m: nat)
    ensures var s, ns := FpName(n, e, m), NatToString(n);
      |s| >= 4 && 2 + |ns| <= |s| && s[0] == 'f' &&
      s[..2] == "fp" && s[2..2 + |ns|] == ns && (|ns| == 1 ==> s[3] == '_')
  {
    var s, ns := FpName(n, e, m), NatToString(n);
    var rest := "_e" + NatToString(e) + "m" + NatToString(m);
    assert s == "fp" + ns + rest;
    assert s[..2] == "fp" && s[2..2 + |ns|] == ns;
    if |ns| == 1 {
      assert s[3] == rest[0];
    }
  }

  lemma FpNameCaptures(n: nat, e: nat, m: nat)
    ensures MatchFp(FpName(n, e, m)) == Some((n, e, m))
  {
    var s := FpName(n, e, m);
    assert FpSpelling(s, NatToString(n), NatToString(e), NatToString(m));
    MatchFpComplete(s, NatToString(n), NatToString(e), NatToString(m));
    NatToStringValue(n);
    NatToStringValue(e);
    NatToStringValue(m);
  }

  lemma FpNameNotFp8(s: string, ns: string)
    requires |ns| >= 1 && AllDigits(ns) && |s| >= 4 && 2 + |ns| <= |s|
    requires s[..2] == "fp" && s[2..2 + |ns|] == ns
    requires |ns| == 1 ==> s[3] == '_'
    ensures MatchFp8(s) == None
  {
    var l := Lower(s);
    assert l[0] == 'f';
    if |ns| == 1 {
      assert l[3] == '_';
    } else {
      assert s[3] == s[2..2 + |ns|][1] == ns[1];
      assert IsDigit(s[3]);
      assert IsDigit(l[3]);
    }
    assert l != "fp8.e4m3" && l != "fp8.e5m2" && l != "e4m3" && l != "e5m2" by {
      assert "fp8.e4m3"[3] == '.' && "fp8.e5m2"[3] == '.';
    }
  }

  /** `fp<n>_e<e>m<m>` selects the element-wise float quantizer, or fails when n != e + m + 1. */
  lemma FpDispatch(n: nat, e: nat, m: nat)
    ensures FakeQuantFn(FpName(n, e, m)) ==
      if n != e + m + 1 then Err(WidthMismatch(n, e, m))
      else Ok(Elemwise(m + 2, e, MaxNorm(FpName(n, e, m), e, m)))
  {
    FpNameMatches(n, e, m);
  }

  lemma FpNameE4M3()
    ensures FpName(8, 4, 3) == "fp8_e4m3"
  {
  }

  lemma FpNameE5M2()
    ensures FpName(8, 5, 2) == "fp8_e5m2"
  {
  }

  /** fp8_e4m3 is the one name whose max_norm is 1.75 * 2^8 = 448, the table's quant_max. */
  lemma E4M3MatchesTable()
    ensures FpName(8, 4, 3) == "fp8_e4m3"
    ensures FakeQuantFn(FpName(8, 4, 3)) == Ok(Elemwise(5, 4, Exact(448.0)))
    ensures TrainingArgs.DtypeQuantMax("fp8_e4m3") == Some(448.0)
  {
    FpNameE4M3();
    FpDispatch(8, 4, 3);
    MaxNormE4M3();
    TableE4M3();
  }

  lemma TableE4M3()
    ensures TrainingArgs.DtypeQuantMax("fp8_e4m3") == Some(448.0)
  {
  }

  lemma MaxNormE4M3()
    ensures MaxNorm("fp8_e4m3", 4, 3) == Exact(448.0)
  {
    assert Emax(4) == 8 && Pow2(8) == 256;
  }

  /** fp8_e5m2: emax 15 and two mantissa bits give 57344, the table's quant_max. */
  lemma E5M2MatchesTable()
    ensures FpName(8, 5, 2) == "fp8_e5m2"
    ensures FakeQuantFn(FpName(8, 5, 2)) == Ok(Elemwise(4, 5, Exact(57344.0)))
    ensures TrainingArgs.DtypeQuantMax("fp8_e5m2") == Some(57344.0)
  {
    FpNameE5M2();
    FpDispatch(8, 5, 2);
    MaxNormE5M2();
    TableE5M2();
  }

  lemma TableE5M2()
    ensures TrainingArgs.DtypeQuantMax("fp8_e5m2") == Some(57344.0)
  {
  }

  lemma MaxNormE5M2()
    ensures MaxNorm("fp8_e5m2", 5, 2) == Exact(57344.0)
  {
    assert Emax(5) == 15 by { assert Pow2(4) == 16; }
    assert Pow2(15) == 32768 && Pow2(3) == 8 && Pow2(2) == 4;
    assert MantissaFactor("fp8_e5m2", 2) == Ratio(1, 7, 4);
  }

  /** fp4_e2m1: emax 2 and one mantissa bit give 6, the table's quant_max. */
  lemma E2M1MatchesTable()
    ensures FpName(4, 2, 1) == "fp4_e2m1"
    ensures FakeQuantFn(FpName(4, 2, 1)) == Ok(Elemwise(3, 2, Exact(6.0)))
    ensures TrainingArgs.DtypeQuantMax("fp4_e2m1") == Some(6.0)
  {
    FpNameE2M1();
    FpDispatch(4, 2, 1);
    MaxNormE2M1();
    TableE2M1();
  }

  lemma FpNameE2M1()
    ensures FpName(4, 2, 1) == "fp4_e2m1"
  {
  }

  lemma TableE2M1()
    ensures TrainingArgs.DtypeQuantMax("fp4_e2m1") == Some(6.0)
  {
  }

  lemma MaxNormE2M1()
    ensures MaxNorm("fp4_e2m1", 2, 1) == Exact(6.0)
  {
    assert Emax(2) == 2 by { assert Pow2(1) == 2; }
    assert Pow2(2) == 4 && Pow2(1) == 2;
    assert MantissaFactor("fp4_e2m1", 1) == Ratio(1, 3, 2);
  }

  /** The integer widths of the table: int8 keeps [-128, 127] and int4 [-8, 7]. */
  lemma IntRangeMatchesTable()
    ensures FakeQuantFn("int8") == Ok(IntRound(-128.0, 127.0))
    ensures FakeQuantFn("int4") == Ok(IntRound(-8.0, 7.0))
    ensures TrainingArgs.DtypeQuantMax("int8") == Some(127.0)
    ensures TrainingArgs.DtypeQuantMax("int4") == Some(7.0)
  {
    Int8Dispatch();
    Int4Dispatch();
  }

  lemma Int8Dispatch()
    ensures FakeQuantFn("int8") == Ok(IntRound(-128.0, 127.0))
  {
    IntNameLiteral(8, "int8");
    IntDispatch(8);
    assert Pow2Real(7) == 128.0 by { assert Pow2(7) == 128; }
  }

  lemma Int4Dispatch()
    ensures FakeQuantFn("int4") == Ok(IntRound(-8.0, 7.0))
  {
    IntNameLiteral(4, "int4");
    IntDispatch(4);
    assert Pow2Real(3) == 8.0 by { assert Pow2(3) == 8; }
  }

  lemma IntNameLiteral(n: nat, s: string)
    requires 0 <= n <= 9 && s == "int" + [NatToString(n)[0]]
    ensures IntName(n) == s
  {
  }

  /** The fp8 pattern ignores case and an optional "fp8." prefix. */
  lemma Fp8Spellings()
    ensures FakeQuantFn("E4M3") == Ok(Fp8(E4M3))
    ensures FakeQuantFn("fp8.e5m2") == Ok(Fp8(E5M2))
  {
    NotPrefix("posit", "E4M3");
    assert Lower("E4M3") == "e4m3";
    NotPrefix("posit", "fp8.e5m2");
    assert Lower("fp8.e5m2") == "fp8.e5m2";
  }

  /** A name some pattern of _get_fake_quant_fn accepts. */
  ghost predicate Recognized(s: string)
  {
    (exists n, es :: PositSpelling(s, n, es)) || Fp8Spelling(s) ||
    (exists n, e, m :: FpSpelling(s, n, e, m)) || (exists d :: IntSpelling(s, d))
  }

  /** The unrecognised-dtype error is raised exactly for the names no pattern accepts. */
  lemma UnrecognizedDtype(s: string)
    ensures FakeQuantFn(s) == Err(Unrecognized(s)) <==> !Recognized(s)
  {
    FallsThrough(s);
    if Recognized(s) {
      RecognizedMatches(s);
    } else {
      UnrecognizedMatchesNone(s);
    }
  }

  /** The error is raised exactly when all four patterns fail. */
  lemma FallsThrough(s: string)
    ensures FakeQuantFn(s) == Err(Unrecognized(s)) <==>
      MatchPosit(s).None? && MatchFp8(s).None? && MatchFp(s).None? && MatchInt(s).None?
  {
  }

  lemma RecognizedMatches(s: string)
    requires Recognized(s)
    ensures MatchPosit(s).Some? || MatchFp8(s).Some? || MatchFp(s).Some? || MatchInt(s).Some?
  {
    if exists n, es :: PositSpelling(s, n, es) {
      var n, es :| PositSpelling(s, n, es);
      MatchPositComplete(s, n, es);
    } else if exists n, e, m :: FpSpelling(s, n, e, m) {
      var n, e, m :| FpSpelling(s, n, e, m);
      MatchFpComplete(s, n, e, m);
    } else if exists d :: IntSpelling(s, d) {
      var d :| IntSpelling(s, d);
      MatchIntExact(s, d);
    }
  }

  lemma UnrecognizedMatchesNone(s: string)
    requires !Recognized(s)
    ensures MatchPosit(s).None? && MatchFp8(s).None? && MatchFp(s).None? && MatchInt(s).None?
  {
    if MatchPosit(s).Some? {
      MatchPositSound(s);
    }
    if MatchFp(s).Some? {
      MatchFpSound(s);
    }
    if MatchInt(s).Some? {
      MatchIntExact(s, s[3..]);
    }
  }

  /** bf16 is one such name. */
  lemma Bf16Unrecognized()
    ensures FakeQuantFn("bf16") == Err(Unrecognized("bf16"))
  {
    NotPrefix("posit", "bf16");
    NotPrefix("fp", "bf16");
    NotPrefix("int", "bf16");
    assert Lower("bf16") == "bf16";
  }

  // ---------------------------------------------------------------------------
  // Reduction axes of _get_amax

  /** The qscheme values _get_amax and the observer distinguish. */
  datatype ObsScheme = PerTensorSymmetric | PerChannelSymmetric | PerVectorSymmetric | Microscaling

  /** What torch.amax reduces: every axis (a scalar result) or the listed axes with keepdim. */
  datatype Reduction = AllAxes | KeepDims(dims: seq<int>)

  datatype AmaxError = UnsupportedScheme(scheme: ObsScheme)

  /** Every axis below ndim except `keep`, in ascending order. */
  function AxesExcept(ndim: nat, keep: int): (dims: seq<int>)
    ensures forall i :: i in dims <==> 0 <= i < ndim && i != keep
    ensures forall a, b :: 0 <= a < b < |dims| ==> dims[a] < dims[b]
  {
    if ndim == 0 then []
    else
      var rest := AxesExcept(ndim - 1, keep);
      assert forall a :: 0 <= a < |rest| ==> rest[a] in rest;
      if ndim - 1 == keep then rest else rest + [ndim - 1]
  }

  /** The choice of reduction axes in _get_amax. */
  function AmaxReduction(scheme: ObsScheme, ndim: nat, chAxis: int): (r: Result<Reduction, AmaxError>)
    ensures scheme == PerTensorSymmetric ==> r == Ok(AllAxes)
    ensures scheme == PerVectorSymmetric ==> r == Ok(KeepDims([0, chAxis]))
    ensures scheme == Microscaling ==> r == Err(UnsupportedScheme(scheme))
  {
    match scheme
    case PerTensorSymmetric => Ok(AllAxes)
    case PerChannelSymmetric =>
      var ch := if chAxis < 0 then chAxis + ndim else chAxis;
      Ok(KeepDims(AxesExcept(ndim, ch)))
    case PerVectorSymmetric => Ok(KeepDims([0, chAxis]))
    case Microscaling => Err(UnsupportedScheme(scheme))
  }

  /** Per-channel keeps exactly the channel axis, counting a negative axis from the end. */
  lemma PerChannelKeepsChannel(ndim: nat, chAxis: int)
    requires -(ndim as int) <= chAxis < ndim
    ensures var ch := if chAxis < 0 then chAxis + ndim else chAxis;
      AmaxReduction(PerChannelSymmetric, ndim, chAxis) == Ok(KeepDims(AxesExcept(ndim, ch))) &&
      0 <= ch < ndim &&
      |AxesExcept(ndim, ch)| == ndim - 1
  {
    var ch := if chAxis < 0 then chAxis + ndim else chAxis;
    AxesExceptCount(ndim, ch);
  }

  lemma {:induction false} AxesExceptCount(ndim: nat, keep: int)
    ensures |AxesExcept(ndim, keep)| == if 0 <= keep < ndim then ndim - 1 else ndim
  {
    if ndim > 0 {
      AxesExceptCount(ndim - 1, keep);
    }
  }
}
