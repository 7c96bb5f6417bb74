/**
 * Conversion between a cell `{x, y}` and the string key "x,y" under which the
 * source stores it in a `Moves` map: a template string one way, `split(',')`
 * and `Number.parseInt(_, 10)` the other way.
 */
module CoordinatesHelper {

  /** A JavaScript number restricted to what these functions produce: an integer or NaN. */
  datatype Number = Int(value: int) | NaN

  predicate IsDigit(c: char) { '0' as int <= c as int <= '9' as int }

  function DigitChar(d: nat): (c: char)
    requires d < 10
    ensures IsDigit(c) && c as int - '0' as int == d
  {
    ('0' as int + d) as char
  }

  /** Decimal notation of a natural number, without leading zeros. */
  function NatToDecimal(n: nat): (s: string)
    ensures |s| > 0
    ensures forall i :: 0 <= i < |s| ==> IsDigit(s[i])
    decreases n
  {
    if n < 10 then [DigitChar(n)] else NatToDecimal(n / 10) + [DigitChar(n % 10)]
  }

  /** `${i}` for an integer i. */
  function IntToDecimal(i: int): string
  {
    if i < 0 then "-" + NatToDecimal(-i) else NatToDecimal(i)
  }

  /** numberCoordsToCoords: the decimal of x, a comma, then the decimal of y. */
  function NumberCoordsToCoords(c: (int, int)): string
  {
    IntToDecimal(c.0) + "," + IntToDecimal(c.1)
  }

  /** `s.split(',')`: the pieces between commas, at least one. */
  function Split(s: string): (r: seq<string>)
    ensures |r| >= 1
    ensures forall i :: 0 <= i < |r| ==> ',' !in r[i]
  {
    if |s| == 0 then [""]
    else if s[0] == ',' then [""] + Split(s[1..])
    else var t := Split(s[1..]); [[s[0]] + t[0]] + t[1..]
  }

  /** The pieces put back together with commas between them. */
  function Join(parts: seq<string>): string
    requires |parts| >= 1
  {
    if |parts| == 1 then parts[0] else parts[0] + "," + Join(parts[1..])
  }

  /** The characters ECMAScript's TrimStart removes: WhiteSpace and LineTerminator. */
  predicate IsWhiteSpace(c: char)
  {
    var u := c as int;
    u == 0x09 || u == 0x0B || u == 0x0C || u == 0xFEFF               // TAB, VT, FF, ZWNBSP
    || u == 0x20 || u == 0xA0 || u == 0x1680 || (0x2000 <= u <= 0x200A)
    || u == 0x202F || u == 0x205F || u == 0x3000                      // space separators (Zs)
    || u == 0x0A || u == 0x0D || u == 0x2028 || u == 0x2029           // line terminators
  }

  function TrimStart(s: string): (t: string)
    ensures |t| <= |s| && t == s[|s| - |t|..]
    ensures |t| > 0 ==> !IsWhiteSpace(t[0])
  {
    if |s| > 0 && IsWhiteSpace(s[0]) then TrimStart(s[1..]) else s
  }

  /** The longest prefix of s made of decimal digits. */
  function DigitPrefix(s: string): (z: string)
    ensures z <= s
    ensures forall i :: 0 <= i < |z| ==> IsDigit(s[i])
    ensures |z| < |s| ==> !IsDigit(s[|z|])
  {
    if |s| > 0 && IsDigit(s[0]) then [s[0]] + DigitPrefix(s[1..]) else []
  }

  /** The value of a string of decimal digits. */
  function DigitValue(c: char): nat
    requires IsDigit(c)
  {
    c as int - '0' as int
  }

  function DigitsValue(z: string): nat
    requires forall i :: 0 <= i < |z| ==> IsDigit(z[i])
  {
    if |z| == 0 then 0 else DigitsValue(z[..|z| - 1]) * 10 + DigitValue(z[|z| - 1])
  }

  /**
   * `Number.parseInt(s, 10)`: skip leading white space, take an optional sign,
   * then the longest run of digits; NaN when there is none. (A parsed -0 is 0 here.)
   */
  function ParseInt(s: string): Number
  {
    ParseTrimmed(TrimStart(s))
  }

  /** parseInt after the white space: an optional sign, then the digits. */
  function ParseTrimmed(t: string): Number
  {
    var negative := |t| > 0 && t[0] == '-';
    var u := if |t| > 0 && (t[0] == '-' || t[0] == '+') then t[1..] else t;
    var z := DigitPrefix(u);
    if |z| == 0 then NaN
    else var v: int := DigitsValue(z); Int(if negative then -v else v)
  }

  /**
   * coordsToNumberCoords: `const [startX, startY] = coords.split(',')`, each
   * parsed in base 10; a missing second piece is `undefined`, which parses to NaN.
   */
  function CoordsToNumberCoords(coords: string): (Number, Number)
  {
    var parts := Split(coords);
    (ParseInt(parts[0]), if |parts| >= 2 then ParseInt(parts[1]) else NaN)
  }

  // ---------------------------------------------------------------------
  // Properties

  /** Splitting at the commas and joining again gives back the string. */
  lemma {:induction false} JoinSplit(s: string)
    ensures Join(Split(s)) == s
  {
    if |s| == 0 {
    } else if s[0] == ',' {
      JoinSplit(s[1..]);
      assert Split(s)[1..] == Split(s[1..]);
    } else {
      var t := Split(s[1..]);
      JoinSplit(s[1..]);
      var r := Split(s);
      assert r[1..] == t[1..];
      if |t| == 1 {
        assert Join(r) == [s[0]] + t[0];
      } else {
        assert Join(r) == [s[0]] + t[0] + "," + Join(t[1..]);
        assert Join(t) == t[0] + "," + Join(t[1..]);
      }
      assert s == [s[0]] + s[1..];
    }
  }

  lemma {:induction false} SplitOneComma(p: string, q: string)
    requires ',' !in p && ',' !in q
    ensures Split(p + "," + q) == [p, q]
  {
    if |p| == 0 {
      assert (p + "," + q)[1..] == q;
      SplitNoComma(q);
    } else {
      assert (p + "," + q)[1..] == p[1..] + "," + q;
      SplitOneComma(p[1..], q);
      assert [p[0]] + p[1..] == p;
    }
  }

  lemma {:induction false} SplitNoComma(q: string)
    requires ',' !in q
    ensures Split(q) == [q]
  {
    if |q| > 0 {
      SplitNoComma(q[1..]);
      assert [q[0]] + q[1..] == q;
    }
  }

  lemma {:induction false} DigitsValueOfDecimal(n: nat)
    ensures DigitsValue(NatToDecimal(n)) == n
    decreases n
  {
    if n >= 10 {
      var s := NatToDecimal(n);
      DigitsValueOfDecimal(n / 10);
      assert s[..|s| - 1] == NatToDecimal(n / 10);
    }
  }

  lemma ParseDecimal(i: int)
    ensures ParseInt(IntToDecimal(i)) == Int(i)
  {
    if i < 0 {
      var z := NatToDecimal(-i);
      calc {
        ParseInt(IntToDecimal(i));
        ParseInt("-" + z);
        { ParseSigned(z); }
        Int(-(DigitsValue(z) as int));
        { DigitsValueOfDecimal(-i); }
        Int(i);
      }
    } else {
      var z := NatToDecimal(i);
      calc {
        ParseInt(IntToDecimal(i));
        ParseInt(z);
        { ParseDigits(z); }
        Int(DigitsValue(z));
        { DigitsValueOfDecimal(i); }
        Int(i);
      }
    }
  }

  /** A string that starts with something other than white space is not trimmed. */
  lemma TrimStartKeeps(s: string)
    requires |s| > 0 && !IsWhiteSpace(s[0])
    ensures TrimStart(s) == s
  {
  }

  lemma {:induction false} ParseDigits(z: string)
    requires |z| > 0 && forall i :: 0 <= i < |z| ==> IsDigit(z[i])
    ensures ParseInt(z) == Int(DigitsValue(z))
  {
    assert IsDigit(z[0]);
    TrimStartKeeps(z);
    DigitPrefixAll(z);
    assert z[0] != '-' && z[0] != '+';
  }

  lemma {:induction false} ParseSigned(z: string)
    requires |z| > 0 && forall i :: 0 <= i < |z| ==> IsDigit(z[i])
    ensures ParseInt("-" + z) == Int(-(DigitsValue(z) as int))
  {
    var s := "-" + z;
    assert s[0] == '-' && s[1..] == z;
    TrimStartKeeps(s);
    DigitPrefixAll(z);
  }

  lemma {:induction false} DigitPrefixAll(z: string)
    requires forall i :: 0 <= i < |z| ==> IsDigit(z[i])
    ensures DigitPrefix(z) == z
  {
    if |z| > 0 {
      DigitPrefixAll(z[1..]);
      assert [z[0]] + z[1..] == z;
    }
  }

  lemma NoCommaInDecimal(i: int)
    ensures ',' !in IntToDecimal(i)
  {
    var s := IntToDecimal(i);
    assert forall k :: 0 <= k < |s| ==> s[k] != ',' by {
      if i < 0 {
        assert forall k :: 1 <= k < |s| ==> s[k] == NatToDecimal(-i)[k - 1];
      }
    }
  }

  /** Round trip: parsing the key of a cell gives back its coordinates. */
  lemma RoundTrip(c: (int, int))
    ensures CoordsToNumberCoords(NumberCoordsToCoords(c)) == (Int(c.0), Int(c.1))
  {
    NoCommaInDecimal(c.0);
    NoCommaInDecimal(c.1);
    SplitOneComma(IntToDecimal(c.0), IntToDecimal(c.1));
    ParseDecimal(c.0);
    ParseDecimal(c.1);
  }

  /** Distinct cells never share a key, so pair keys can stand in for string keys. */
  lemma KeysInjective(c: (int, int), d: (int, int))
    requires NumberCoordsToCoords(c) == NumberCoordsToCoords(d)
    ensures c == d
  {
    RoundTrip(c);
    RoundTrip(d);
  }

  /** For non-negative coordinates the key has exactly one comma and only digits beside it. */
  lemma KeyShape(c: (int, int))
    requires c.0 >= 0 && c.1 >= 0
    ensures var s := NumberCoordsToCoords(c);
      var comma := |NatToDecimal(c.0)|;
      && comma < |s| && s[comma] == ','
      && forall i :: 0 <= i < |s| && i != comma ==> IsDigit(s[i])
  {
  }

  /** A decimal without superfluous leading zeros, optionally negative (but not "-0"). */
  predicate CanonicalNat(a: string)
  {
    |a| > 0 && (forall i :: 0 <= i < |a| ==> IsDigit(a[i])) && (|a| > 1 ==> a[0] != '0')
  }

  predicate CanonicalInt(a: string)
  {
    CanonicalNat(a) || (|a| > 1 && a[0] == '-' && CanonicalNat(a[1..]) && a[1..] != "0")
  }

  lemma {:induction false} DecimalOfDigits(a: string)
    requires CanonicalNat(a)
    ensures NatToDecimal(DigitsValue(a)) == a
    decreases |a|
  {
    if |a| > 1 {
      var init := a[..|a| - 1];
      assert CanonicalNat(init);
      DecimalOfDigits(init);
      LeadingDigitPositive(init);
      var d := a[|a| - 1] as int - '0' as int;
      var n := DigitsValue(a);
      assert n == DigitsValue(init) * 10 + d;
      assert n / 10 == DigitsValue(init) && n % 10 == d;
      assert a == init + [a[|a| - 1]];
    }
  }

  lemma {:induction false} LeadingDigitPositive(a: string)
    requires CanonicalNat(a) && a[0] != '0'
    ensures DigitsValue(a) >= 1
    decreases |a|
  {
    if |a| > 1 {
      var init := a[..|a| - 1];
      assert init[0] == a[0];
      LeadingDigitPositive(init);
    }
  }

  lemma ParseCanonical(a: string)
    requires CanonicalInt(a)
    ensures ParseInt(a).Int? && IntToDecimal(ParseInt(a).value) == a
  {
    if CanonicalNat(a) {
      ParseDigits(a);
      DecimalOfDigits(a);
    } else {
      var b := a[1..];
      assert a == "-" + b;
      assert b[0] != '0' by {
        if |b| == 1 { assert b == [b[0]]; }
      }
      ParseSigned(b);
      DecimalOfDigits(b);
      LeadingDigitPositive(b);
    }
  }

  /** Formatting a parsed well-formed key "a,b" with canonical decimals gives back the key. */
  lemma FormatParsed(a: string, b: string)
    requires CanonicalInt(a) && CanonicalInt(b)
    ensures var parsed := CoordsToNumberCoords(a + "," + b);
      && parsed.0.Int? && parsed.1.Int?
      && NumberCoordsToCoords((parsed.0.value, parsed.1.value)) == a + "," + b
  {
    assert forall k :: 0 <= k < |a| ==> a[k] != ',' by {
      if !CanonicalNat(a) { assert forall k :: 1 <= k < |a| ==> a[k] == a[1..][k - 1]; }
    }
    assert forall k :: 0 <= k < |b| ==> b[k] != ',' by {
      if !CanonicalNat(b) { assert forall k :: 1 <= k < |b| ==> b[k] == b[1..][k - 1]; }
    }
    SplitOneComma(a, b);
    ParseCanonical(a);
    ParseCanonical(b);
  }
}
