/**
 * The few Python string operations the configuration parsers rely on:
 * lower-casing, str.split with a one-character separator, substring tests,
 * decimal rendering (str(n)) and the number parsers int() and float().
 * Only ASCII letters, digits and blanks are treated specially.
 */
module Strings {
  import opened Wrappers
  import opened Numbers

  function LowerChar(c: char): char
  {
    if 'A' <= c <= 'Z' then (c as int + 32) as char else c
  }

  predicate IsUpper(c: char) { 'A' <= c <= 'Z' }

  /** str.lower() restricted to ASCII letters. */
  function Lower(s: string): (r: string)
    ensures |r| == |s|
    ensures forall i :: 0 <= i < |s| ==> !IsUpper(r[i])
    ensures forall i :: 0 <= i < |s| && !IsUpper(s[i]) ==> r[i] == s[i]
  {
    seq(|s|, i requires 0 <= i < |s| => LowerChar(s[i]))
  }

  lemma LowerIdempotent(s: string)
    ensures Lower(Lower(s)) == Lower(s)
  {
  }

  // ---------------------------------------------------------------------------
  // str.split(sep) and its inverse, sep.join(parts)

  /** Python's s.split(sep) for a one-character sep: never empty, "" gives [""]. */
  function Split(s: string, sep: char): (parts: seq<string>)
    ensures |parts| >= 1
    ensures forall i :: 0 <= i < |parts| ==> sep !in parts[i]
  {
    if s == [] then [""]
    else
      var rest := Split(s[1..], sep);
      if s[0] == sep then [""] + rest
      else [[s[0]] + rest[0]] + rest[1..]
  }

  function Join(parts: seq<string>, sep: char): string
    requires |parts| >= 1
  {
    if |parts| == 1 then parts[0] else parts[0] + [sep] + Join(parts[1..], sep)
  }

  /** Joining the pieces of a split with the same separator gives the string back. */
  lemma {:induction false} JoinSplit(s: string, sep: char)
    ensures Join(Split(s, sep), sep) == s
  {
    if s != [] {
      var rest := Split(s[1..], sep);
      JoinSplit(s[1..], sep);
      if s[0] == sep {
        assert Split(s, sep) == [""] + rest;
        assert ([""] + rest)[1..] == rest;
      } else {
        var parts := [[s[0]] + rest[0]] + rest[1..];
        assert Split(s, sep) == parts;
        if |rest| == 1 {
          assert Join(parts, sep) == [s[0]] + rest[0];
        } else {
          assert parts[1..] == rest[1..];
          assert Join(rest, sep) == rest[0] + [sep] + Join(rest[1..], sep);
          assert Join(parts, sep) == [s[0]] + rest[0] + [sep] + Join(rest[1..], sep);
        }
      }
    }
  }

  /** Splitting a join of separator-free pieces gives the pieces back. */
  lemma {:induction false} SplitJoin(parts: seq<string>, sep: char)
    requires |parts| >= 1
    requires forall i :: 0 <= i < |parts| ==> sep !in parts[i]
    ensures Split(Join(parts, sep), sep) == parts
  {
    if |parts| == 1 {
      SplitNoSep(parts[0], sep);
    } else {
      SplitJoin(parts[1..], sep);
      SplitPrefix(parts[0], sep, Join(parts[1..], sep));
    }
  }

  lemma {:induction false} SplitNoSep(s: string, sep: char)
    requires sep !in s
    ensures Split(s, sep) == [s]
  {
    if s != [] {
      SplitNoSep(s[1..], sep);
      assert s[0] != sep by { assert s[0] in s; }
      assert [s[0]] + s[1..] == s;
    }
  }

  lemma {:induction false} SplitPrefix(p: string, sep: char, t: string)
    requires sep !in p
    ensures Split(p + [sep] + t, sep) == [p] + Split(t, sep)
  {
    if p == [] {
      assert p + [sep] + t == [sep] + t;
      assert ([sep] + t)[1..] == t;
    } else {
      SplitPrefix(p[1..], sep, t);
      assert (p + [sep] + t)[1..] == p[1..] + [sep] + t;
      assert [p[0]] + p[1..] == p;
    }
  }

  /** Splitting at a separator placed between two strings splits each of them. */
  lemma {:induction false} SplitConcat(a: string, sep: char, b: string)
    ensures Split(a + [sep] + b, sep) == Split(a, sep) + Split(b, sep)
  {
    if a == [] {
      assert a + [sep] + b == [sep] + b;
      SplitCons(sep, b, sep);
    } else {
      var c, t := a[0], a[1..] + [sep] + b;
      assert a + [sep] + b == [c] + t;
      assert a == [c] + a[1..];
      SplitConcat(a[1..], sep, b);
      SplitCons(c, t, sep);
      SplitCons(c, a[1..], sep);
      ConsPartAppend(c, sep, Split(a[1..], sep), Split(b, sep));
    }
  }

  /** The parts of [c] + t, given the parts r of t. */
  function ConsPart(c: char, sep: char, r: seq<string>): seq<string>
    requires |r| >= 1
  {
    if c == sep then [""] + r else [[c] + r[0]] + r[1..]
  }

  /** One character in front: a separator starts a new empty part, anything else joins the first part. */
  lemma SplitCons(c: char, t: string, sep: char)
    ensures Split([c] + t, sep) == ConsPart(c, sep, Split(t, sep))
  {
    assert ([c] + t)[1..] == t;
  }

  /** Putting a character in front of a concatenation of parts only touches the left side. */
  lemma ConsPartAppend(c: char, sep: char, x: seq<string>, y: seq<string>)
    requires |x| >= 1
    ensures ConsPart(c, sep, x + y) == ConsPart(c, sep, x) + y
  {
    assert (x + y)[0] == x[0];
    assert (x + y)[1..] == x[1..] + y;
  }

  // ---------------------------------------------------------------------------
  // Substring tests

  predicate IsPrefix(p: string, s: string)
  {
    |p| <= |s| && s[..|p|] == p
  }

  /** Python's `sub in s`. */
  predicate Contains(s: string, sub: string)
    decreases |s|
  {
    IsPrefix(sub, s) || (s != [] && Contains(s[1..], sub))
  }

  predicate OccursAt(s: string, sub: string, i: int)
  {
    0 <= i <= |s| - |sub| && s[i..i + |sub|] == sub
  }

  /** `sub in s` holds exactly when sub occurs at some position of s. */
  lemma {:induction false} ContainsAt(s: string, sub: string)
    ensures Contains(s, sub) <==> exists i :: OccursAt(s, sub, i)
  {
    if s == [] {
      if IsPrefix(sub, s) {
        assert OccursAt(s, sub, 0);
      }
      if exists i :: OccursAt(s, sub, i) {
        var i :| OccursAt(s, sub, i);
        assert i == 0;
      }
    } else {
      ContainsAt(s[1..], sub);
      if IsPrefix(sub, s) {
        assert OccursAt(s, sub, 0);
      } else if Contains(s[1..], sub) {
        var i :| OccursAt(s[1..], sub, i);
        assert s[i + 1..i + 1 + |sub|] == s[1..][i..i + |sub|];
        assert OccursAt(s, sub, i + 1);
      }
      if exists i :: OccursAt(s, sub, i) {
        var i :| OccursAt(s, sub, i);
        if i == 0 {
          assert IsPrefix(sub, s);
        } else {
          assert s[1..][i - 1..i - 1 + |sub|] == s[i..i + |sub|];
          assert OccursAt(s[1..], sub, i - 1);
        }
      }
    }
  }

  // ---------------------------------------------------------------------------
  // Decimal numbers: str(n) and int()

  predicate IsDigit(c: char) { '0' <= c <= '9' }

  predicate AllDigits(s: string) { forall i :: 0 <= i < |s| ==> IsDigit(s[i]) }

  function DigitChar(d: nat): char
    requires d < 10
  {
    ('0' as int + d) as char
  }

  /** The value of a string of decimal digits ("" is 0). */
  function DigitsValue(s: string): nat
    requires AllDigits(s)
  {
    if s == [] then 0
    else DigitsValue(s[..|s| - 1]) * 10 + (s[|s| - 1] as int - '0' as int)
  }

  /** Python's str(n) for a natural number: decimal digits, no leading zero. */
  function NatToString(n: nat): (s: string)
    ensures |s| >= 1 && AllDigits(s)
    ensures |s| > 1 ==> s[0] != '0'
  {
    if n < 10 then [DigitChar(n)] else NatToString(n / 10) + [DigitChar(n % 10)]
  }

  /** Python's str(i) for an integer. */
  function IntToString(i: int): string
  {
    if i < 0 then "-" + NatToString(-i) else NatToString(i)
  }

  lemma {:induction false} NatToStringValue(n: nat)
    ensures DigitsValue(NatToString(n)) == n
  {
    if n >= 10 {
      NatToStringValue(n / 10);
      var s := NatToString(n);
      assert s[..|s| - 1] == NatToString(n / 10);
    }
  }

  /** Decimal rendering is injective: different numbers give different strings. */
  lemma NatToStringInjective(a: nat, b: nat)
    requires NatToString(a) == NatToString(b)
    ensures a == b
  {
    NatToStringValue(a);
    NatToStringValue(b);
  }

  // ---------------------------------------------------------------------------
  // The text int() and float() accept: surrounding blanks and digit grouping

  /** The ASCII characters str.strip() removes: tab to carriage return, the separators 0x1c-0x1f, and space. */
  predicate IsBlank(c: char) { 9 <= c as int <= 13 || 28 <= c as int <= 32 }

  predicate AllBlank(s: string) { forall i :: 0 <= i < |s| ==> IsBlank(s[i]) }

  /** The number of blanks at the front of s. */
  function LeadingBlanks(s: string): (k: nat)
    ensures k <= |s| && AllBlank(s[..k])
    ensures k < |s| ==> !IsBlank(s[k])
  {
    if s == [] || !IsBlank(s[0]) then 0
    else
      var k := 1 + LeadingBlanks(s[1..]);
      assert forall i :: 1 <= i < k ==> s[..k][i] == s[1..][..k - 1][i - 1];
      k
  }

  /** The number of blanks at the end of s. */
  function TrailingBlanks(s: string): (k: nat)
    ensures k <= |s| && forall i :: |s| - k <= i < |s| ==> IsBlank(s[i])
    ensures k < |s| ==> !IsBlank(s[|s| - 1 - k])
  {
    if s == [] || !IsBlank(s[|s| - 1]) then 0
    else 1 + TrailingBlanks(s[..|s| - 1])
  }

  /** s.strip() for ASCII blanks: what remains has no blank at either end. */
  function Strip(s: string): (r: string)
    ensures r == [] || (!IsBlank(r[0]) && !IsBlank(r[|r| - 1]))
  {
    var t := s[LeadingBlanks(s)..];
    t[..|t| - TrailingBlanks(t)]
  }

  /** Blanks around a text with no blank at its ends are exactly what strip() removes. */
  lemma StripSurrounded(a: string, r: string, b: string)
    requires AllBlank(a) && AllBlank(b)
    requires r == [] || (!IsBlank(r[0]) && !IsBlank(r[|r| - 1]))
    ensures Strip(a + r + b) == r
  {
    var s := a + r + b;
    if r == [] {
      assert AllBlank(s);
      AllBlankStrip(s);
    } else {
      LeadingOf(a, r + b);
      assert s == a + (r + b);
      var t := s[|a|..];
      assert t == r + b;
      TrailingOf(r, b);
    }
  }

  lemma {:induction false} AllBlankStrip(s: string)
    requires AllBlank(s)
    ensures LeadingBlanks(s) == |s|
  {
    if s != [] {
      AllBlankStrip(s[1..]);
    }
  }

  lemma {:induction false} LeadingOf(a: string, t: string)
    requires AllBlank(a) && t != [] && !IsBlank(t[0])
    ensures LeadingBlanks(a + t) == |a|
  {
    if a != [] {
      assert (a + t)[1..] == a[1..] + t;
      LeadingOf(a[1..], t);
    } else {
      assert a + t == t;
    }
  }

  lemma {:induction false} TrailingOf(r: string, b: string)
    requires AllBlank(b) && r != [] && !IsBlank(r[|r| - 1])
    ensures TrailingBlanks(r + b) == |b|
    ensures (r + b)[..|r|] == r
  {
    if b != [] {
      assert (r + b)[..|r + b| - 1] == r + b[..|b| - 1];
      TrailingOf(r, b[..|b| - 1]);
    } else {
      assert r + b == r;
    }
  }

  /**
   * A run of digits in which single underscores may separate digits
   * (digitpart in Python's numeric grammar): it ends with a digit, and what
   * precedes that digit, less one separating underscore, is again a group.
   */
  predicate Grouped(s: string)
    decreases |s|
  {
    |s| >= 1 && IsDigit(s[|s| - 1]) &&
    (|s| == 1 || if s[|s| - 2] == '_' then Grouped(s[..|s| - 2]) else Grouped(s[..|s| - 1]))
  }

  /** The value of a digit group, underscores ignored, as int() and float() read it. */
  function GroupValue(s: string): nat
    requires Grouped(s)
    decreases |s|
  {
    var d := s[|s| - 1] as int - '0' as int;
    if |s| == 1 then d
    else if s[|s| - 2] == '_' then GroupValue(s[..|s| - 2]) * 10 + d
    else GroupValue(s[..|s| - 1]) * 10 + d
  }

  /** The number of digits in a text, underscores not counted. */
  function CountDigits(s: string): nat
  {
    if s == [] then 0 else CountDigits(s[..|s| - 1]) + (if IsDigit(s[|s| - 1]) then 1 else 0)
  }

  /** A plain run of digits is a digit group with its ordinary value. */
  lemma {:induction false} PlainGrouped(s: string)
    requires |s| >= 1 && AllDigits(s)
    ensures Grouped(s) && GroupValue(s) == DigitsValue(s)
  {
    if |s| > 1 {
      PlainGrouped(s[..|s| - 1]);
    }
  }

  /** An unsigned decimal number as int() reads it: one digit group. */
  function ParseNat(s: string): (r: Option<nat>)
    ensures r.Some? <==> Grouped(s)
  {
    if Grouped(s) then Some(GroupValue(s)) else None
  }

  /** An optionally signed decimal number, with no surrounding blanks. */
  function ParseSigned(s: string): Option<int>
  {
    if |s| >= 1 && (s[0] == '-' || s[0] == '+') then
      match ParseNat(s[1..])
      case Some(n) =>
        var v: int := if s[0] == '-' then -(n as int) else n as int;
        Some(v)
      case None => None
    else
      match ParseNat(s)
      case Some(n) => Some(n)
      case None => None
  }

  /** Python's int(s) in base 10: strip the blanks, then an optional sign and a digit group. */
  function ParseInt(s: string): Option<int>
  {
    ParseSigned(Strip(s))
  }

  /** int() ignores blanks around the number: int(" 4") == 4. */
  lemma ParseIntStrips(a: string, t: string, b: string)
    requires AllBlank(a) && AllBlank(b)
    requires t == [] || (!IsBlank(t[0]) && !IsBlank(t[|t| - 1]))
    ensures ParseInt(a + t + b) == ParseSigned(t)
  {
    StripSurrounded(a, t, b);
  }

  lemma Thousand()
    ensures Grouped("1_000") && GroupValue("1_000") == 1000
  {
    assert "1_000"[..4] == "1_00" && "1_00"[..3] == "1_0" && "1_0"[..1] == "1";
  }

  /** int() reads "1_000" as 1000. */
  lemma ParseIntGrouped()
    ensures ParseInt(" 1_000") == Some(1000)
  {
    assert " 1_000" == " " + "1_000" + "";
    ParseIntStrips(" ", "1_000", "");
    Thousand();
  }

  /** int(str(i)) == i. */
  lemma IntRoundTrip(i: int)
    ensures ParseInt(IntToString(i)) == Some(i)
  {
    var t := IntToString(i);
    IntTextEnds(i);
    SignedRoundTrip(i);
    assert t == [] + t + [];
    ParseIntStrips([], t, []);
  }

  /** The decimal text of an integer starts with a sign or a digit and ends with a digit. */
  lemma IntTextEnds(i: int)
    ensures var t := IntToString(i); |t| >= 1 && !IsBlank(t[0]) && !IsBlank(t[|t| - 1])
  {
    var n: nat := if i < 0 then -i else i;
    var d := NatToString(n);
    PlainGrouped(d);
    assert IsDigit(d[0]) && IsDigit(d[|d| - 1]);
  }

  lemma SignedRoundTrip(i: int)
    ensures ParseSigned(IntToString(i)) == Some(i)
  {
    var t := IntToString(i);
    var n: nat := if i < 0 then -i else i;
    var d := NatToString(n);
    NatToStringValue(n);
    PlainGrouped(d);
    if i < 0 {
      assert t[1..] == d && t[0] == '-';
      NegSigned(t, n);
    } else {
      assert IsDigit(d[0]);
      PosSigned(d, n);
    }
  }

  lemma PosSigned(m: string, k: nat)
    requires |m| >= 1 && IsDigit(m[0]) && ParseNat(m) == Some(k)
    ensures ParseSigned(m) == Some(k as int)
  {
  }

  lemma NegSigned(m: string, k: nat)
    requires |m| >= 1 && m[0] == '-' && ParseNat(m[1..]) == Some(k)
    ensures ParseSigned(m) == Some(-(k as int))
  {
  }

  // ---------------------------------------------------------------------------
  // float()

  function Pow10(k: nat): (p: nat)
    ensures p >= 1
  {
    if k == 0 then 1 else 10 * Pow10(k - 1)
  }

  function Pow10Real(k: int): (p: real)
    ensures p > 0.0
  {
    if k >= 0 then Pow10(k) as real else 1.0 / (Pow10(-k) as real)
  }

  function IndexOf(s: string, c: char): (i: nat)
    requires c in s
    ensures i < |s| && s[i] == c && c !in s[..i]
  {
    if s[0] == c then 0 else 1 + IndexOf(s[1..], c)
  }

  /** An optional digit group: the empty text stands for no digits. */
  predicate OptGrouped(s: string) { s == [] || Grouped(s) }

  function OptGroupValue(s: string): nat
    requires OptGrouped(s)
  {
    if s == [] then 0 else GroupValue(s)
  }

  /** digits, digits "." digits, "." digits or digits "." (at least one digit in all), each run a digit group. */
  function ParseMantissa(s: string): Option<real>
  {
    if '.' in s then
      var i := IndexOf(s, '.');
      var whole, frac := s[..i], s[i + 1..];
      if OptGrouped(whole) && OptGrouped(frac) && |whole| + |frac| >= 1 then
        Some(OptGroupValue(whole) as real + OptGroupValue(frac) as real / Pow10(CountDigits(frac)) as real)
      else None
    else if Grouped(s) then Some(GroupValue(s) as real)
    else None
  }

  function ParseUnsignedFloat(s: string): Option<Num>
  {
    if s == "inf" || s == "infinity" || s == "nan" then Some(NonFinite)
    else if 'e' in s then
      var i := IndexOf(s, 'e');
      match (ParseMantissa(s[..i]), ParseSigned(s[i + 1..]))
      case (Some(m), Some(e)) => Some(Finite(m * Pow10Real(e)))
      case _ => None
    else
      match ParseMantissa(s)
      case Some(m) => Some(Finite(m))
      case None => None
  }

  /** An optionally signed float with no surrounding blanks. */
  function ParseSignedFloat(s: string): Option<Num>
  {
    if |s| >= 1 && (s[0] == '-' || s[0] == '+') then
      match ParseUnsignedFloat(s[1..])
      case Some(Finite(v)) => Some(Finite(if s[0] == '-' then -v else v))
      case Some(NonFinite) => Some(NonFinite)
      case None => None
    else ParseUnsignedFloat(s)
  }

  /**
   * Python's float(s) on lower-case text: strip the blanks, then an optional
   * sign and a decimal with optional fraction and exponent, or inf/infinity/nan.
   */
  function ParseFloat(s: string): Option<Num>
  {
    ParseSignedFloat(Strip(s))
  }

  /** A run of digits reads as its value. */
  lemma FloatOfDigits(s: string)
    requires |s| >= 1 && AllDigits(s)
    ensures ParseSignedFloat(s) == Some(Finite(DigitsValue(s) as real))
  {
    PlainGrouped(s);
    assert '.' !in s && 'e' !in s by {
      assert forall i :: 0 <= i < |s| ==> IsDigit(s[i]);
    }
    assert s != "inf" && s != "infinity" && s != "nan" by {
      assert IsDigit(s[0]);
    }
  }

  /** float() ignores blanks around the number, as int() does. */
  lemma ParseFloatStrips(a: string, t: string, b: string)
    requires AllBlank(a) && AllBlank(b)
    requires t == [] || (!IsBlank(t[0]) && !IsBlank(t[|t| - 1]))
    ensures ParseFloat(a + t + b) == ParseSignedFloat(t)
  {
    StripSurrounded(a, t, b);
  }

  /** float() reads "1_000" as 1000.0. */
  lemma ParseFloatGrouped()
    ensures ParseFloat("1_000") == Some(Finite(1000.0))
  {
    assert "1_000" == [] + "1_000" + [];
    ParseFloatStrips([], "1_000", []);
    MantissaThousand();
  }

  lemma MantissaThousand()
    ensures ParseUnsignedFloat("1_000") == Some(Finite(1000.0))
  {
    assert '.' !in "1_000" && 'e' !in "1_000";
    Thousand();
  }

  /** float(str(n)) == n for a natural number. */
  lemma FloatOfNatString(n: nat)
    ensures ParseFloat(NatToString(n)) == Some(Finite(n as real))
  {
    var s := NatToString(n);
    NatToStringValue(n);
    assert s == [] + s + [];
    assert IsDigit(s[0]) && IsDigit(s[|s| - 1]);
    ParseFloatStrips([], s, []);
    FloatOfDigits(s);
  }
}
