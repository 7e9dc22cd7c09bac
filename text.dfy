/**
 * The Java string operations the membership code relies on, over `string` (a `seq<char>`):
 * `String.trim`, ASCII `toLowerCase`, `String.split(",")` with its dropping of trailing empty
 * fields, `Integer.parseInt` / `Long.parseLong` over ASCII digits, `Boolean.parseBoolean`, a
 * plain-decimal `Double.parseDouble`, and the matching `toString` formatters used when a member
 * is written out.
 */
module Text {
  import opened Wrappers

  // ---------------------------------------------------------------------------------------------
  // String.trim: strips every leading and trailing character at or below U+0020.

  function TrimStart(s: string): (r: string)
    ensures |r| <= |s| && r == s[|s| - |r|..]
    ensures r == [] || r[0] > ' '
    ensures forall k :: 0 <= k < |s| - |r| ==> s[k] <= ' '
  {
    if s != [] && s[0] <= ' ' then TrimStart(s[1..]) else s
  }

  function TrimEnd(s: string): (r: string)
    ensures |r| <= |s| && r == s[..|r|]
    ensures r == [] || r[|r| - 1] > ' '
    ensures forall k :: |r| <= k < |s| ==> s[k] <= ' '
  {
    if s != [] && s[|s| - 1] <= ' ' then TrimEnd(s[..|s| - 1]) else s
  }

  /**
   * `r` is the slice of `s` that starts at `i`, begins and ends with a visible character, and has
   * only blanks and control characters before and after it in `s`.
   */
  predicate TrimmedSlice(s: string, i: int, r: string)
  {
    0 <= i && i + |r| <= |s| && r == s[i..i + |r|]
    && (r == [] || (r[0] > ' ' && r[|r| - 1] > ' '))
    && (forall k :: 0 <= k < i ==> s[k] <= ' ')
    && (forall k :: i + |r| <= k < |s| ==> s[k] <= ' ')
  }

  /** Java's `s.trim()`: the result is empty exactly when `s` holds only blanks and control characters. */
  function Trim(s: string): (r: string)
    ensures |r| <= |s|
    ensures TrimmedSlice(s, |s| - |TrimStart(s)|, r)
    ensures r == [] <==> forall k :: 0 <= k < |s| ==> s[k] <= ' '
    ensures forall c :: c in r ==> c in s
  {
    var front := TrimStart(s);
    var r := TrimEnd(front);
    TrimIsSlice(s, front, r);
    r
  }

  /**
   * Dropping a leading stretch of blanks and then a trailing one leaves one slice of `s` that
   * starts and ends with a visible character, with only blanks on either side of it.
   */
  lemma TrimIsSlice(s: string, front: string, r: string)
    requires |front| <= |s| && front == s[|s| - |front|..] && (front == [] || front[0] > ' ')
    requires forall k :: 0 <= k < |s| - |front| ==> s[k] <= ' '
    requires |r| <= |front| && r == front[..|r|] && (r == [] || r[|r| - 1] > ' ')
    requires forall k :: |r| <= k < |front| ==> front[k] <= ' '
    ensures |r| <= |s|
    ensures TrimmedSlice(s, |s| - |front|, r)
    ensures r == [] <==> forall k :: 0 <= k < |s| ==> s[k] <= ' '
    ensures forall c :: c in r ==> c in s
  {
    var i := |s| - |front|;
    var slice := s[i..i + |r|];
    assert forall k :: 0 <= k < |r| ==> r[k] == front[k] == s[i + k] == slice[k];
    assert r == slice;
    assert forall k :: i + |r| <= k < |s| ==> s[k] == front[k - i];
    assert front != [] ==> r != [];
    if r == [] {
      assert i == |s|;
    } else {
      assert s[i] == r[0];
    }
    assert forall c :: c in r ==> c in s by {
      forall c | c in r
        ensures c in s
      {
        var k :| 0 <= k < |r| && r[k] == c;
        assert s[i + k] == c;
      }
    }
  }

  // ---------------------------------------------------------------------------------------------
  // Case folding (ASCII letters only).

  function LowerChar(c: char): char
  {
    if 'A' <= c <= 'Z' then (c as int + 32) as char else c
  }

  function ToLower(s: string): (r: string)
    ensures |r| == |s|
    ensures forall k :: 0 <= k < |s| ==> r[k] == LowerChar(s[k])
  {
    if s == [] then [] else [LowerChar(s[0])] + ToLower(s[1..])
  }

  /** A word without capitals is its own lower case. */
  lemma {:induction false} ToLowerOfLower(s: string)
    requires forall k :: 0 <= k < |s| ==> !('A' <= s[k] <= 'Z')
    ensures ToLower(s) == s
    decreases |s|
  {
    if s != [] {
      assert forall k :: 0 <= k < |s[1..]| ==> s[1..][k] == s[k + 1];
      ToLowerOfLower(s[1..]);
      assert s == [s[0]] + s[1..];
    }
  }

  /** A capitalised word lower-cases to the same word with its first letter made small. */
  lemma ToLowerCapitalised(c: char, rest: string)
    requires 'A' <= c <= 'Z' && forall k :: 0 <= k < |rest| ==> !('A' <= rest[k] <= 'Z')
    ensures ToLower([c] + rest) == [(c as int + 32) as char] + rest
  {
    assert ([c] + rest)[1..] == rest;
    ToLowerOfLower(rest);
  }

  /** Lower-casing leaves every character that is not an upper-case letter where it was, '@' included. */
  lemma {:induction false} ToLowerKeepsAbsence(s: string, c: char)
    requires !('A' <= c <= 'Z') && !('a' <= c <= 'z')
    ensures c in s <==> c in ToLower(s)
  {
    if c in s {
      var k :| 0 <= k < |s| && s[k] == c;
      assert ToLower(s)[k] == c;
    }
    if c in ToLower(s) {
      var k :| 0 <= k < |s| && ToLower(s)[k] == c;
      assert s[k] == c;
    }
  }

  // ---------------------------------------------------------------------------------------------
  // Splitting on a separator.

  /** The fields of `s` between separators, in order, with all empty fields kept. */
  function SplitFields(s: string, sep: char): (r: seq<string>)
    ensures |r| >= 1
    ensures forall k :: 0 <= k < |r| ==> sep !in r[k]
    ensures Join(r, sep) == s
    decreases |s|
  {
    if s == [] then [[]]
    else
      var rest := SplitFields(s[1..], sep);
      if s[0] == sep then
        assert Join([[]] + rest, sep) == [sep] + Join(rest, sep);
        [[]] + rest
      else
        var r := [[s[0]] + rest[0]] + rest[1..];
        assert |rest| > 1 ==> rest[1..] == rest[1..][..];
        assert Join(r, sep) == [s[0]] + Join(rest, sep) by {
          if |rest| > 1 {
            assert r[1..] == rest[1..];
          }
        }
        r
  }

  /** The inverse of `SplitFields`: the fields with one separator between each two. */
  function Join(fields: seq<string>, sep: char): string
    requires |fields| >= 1
  {
    if |fields| == 1 then fields[0] else fields[0] + [sep] + Join(fields[1..], sep)
  }

  lemma {:induction false} SplitFieldsNoSeparator(f: string, sep: char)
    requires sep !in f
    ensures SplitFields(f, sep) == [f]
    decreases |f|
  {
    if f != [] {
      SplitFieldsNoSeparator(f[1..], sep);
      assert [f[0]] + f[1..] == f;
    }
  }

  lemma {:induction false} SplitFieldsAfterField(f: string, sep: char, t: string)
    requires sep !in f
    ensures SplitFields(f + [sep] + t, sep) == [f] + SplitFields(t, sep)
    decreases |f|
  {
    if f == [] {
      assert ([] + [sep] + t)[1..] == t;
    } else {
      assert (f + [sep] + t)[1..] == f[1..] + [sep] + t;
      SplitFieldsAfterField(f[1..], sep, t);
      assert [f[0]] + f[1..] == f;
    }
  }

  /** Splitting what `Join` built gives back the fields, when no field holds the separator. */
  lemma {:induction false} SplitFieldsOfJoin(fields: seq<string>, sep: char)
    requires |fields| >= 1
    requires forall k :: 0 <= k < |fields| ==> sep !in fields[k]
    ensures SplitFields(Join(fields, sep), sep) == fields
  {
    if |fields| == 1 {
      SplitFieldsNoSeparator(fields[0], sep);
    } else {
      SplitFieldsOfJoin(fields[1..], sep);
      SplitFieldsAfterField(fields[0], sep, Join(fields[1..], sep));
      assert [fields[0]] + fields[1..] == fields;
    }
  }

  /** Drops the empty fields at the end, as Java's `split` with limit 0 does. */
  function DropTrailingEmpty(fields: seq<string>): (r: seq<string>)
    ensures r <= fields
    ensures r == [] || r[|r| - 1] != []
    ensures forall k :: |r| <= k < |fields| ==> fields[k] == []
  {
    if fields != [] && fields[|fields| - 1] == [] then DropTrailingEmpty(fields[..|fields| - 1]) else fields
  }

  /**
   * Java's `s.split(",")` for a one-character separator: the empty string gives one empty field
   * (no separator matched); otherwise the fields, less any empty fields at the end.
   */
  function Split(s: string, sep: char): (r: seq<string>)
    ensures forall k :: 0 <= k < |r| ==> sep !in r[k]
    ensures s != [] ==> r == [] || r[|r| - 1] != []
    ensures s == [] ==> r == [[]]
  {
    if s == [] then [[]] else DropTrailingEmpty(SplitFields(s, sep))
  }

  /** A line written as separator-joined fields splits back into those fields, less trailing empty ones. */
  lemma SplitOfJoin(fields: seq<string>, sep: char)
    requires |fields| >= 1 && Join(fields, sep) != []
    requires forall k :: 0 <= k < |fields| ==> sep !in fields[k]
    ensures Split(Join(fields, sep), sep) == DropTrailingEmpty(fields)
  {
    SplitFieldsOfJoin(fields, sep);
  }

  // ---------------------------------------------------------------------------------------------
  // Decimal digits.

  predicate IsDigit(c: char)
  {
    '0' <= c <= '9'
  }

  predicate AllDigits(s: string)
  {
    forall k :: 0 <= k < |s| ==> IsDigit(s[k])
  }

  function DigitsValue(s: string): nat
    requires AllDigits(s)
  {
    if s == [] then 0 else DigitsValue(s[..|s| - 1]) * 10 + (s[|s| - 1] as int - '0' as int)
  }

  function DigitChar(d: nat): (c: char)
    requires d < 10
    ensures IsDigit(c) && c as int - '0' as int == d
  {
    ('0' as int + d) as char
  }

  function Pow10(n: nat): (p: nat)
    ensures p >= 1
  {
    if n == 0 then 1 else 10 * Pow10(n - 1)
  }

  lemma {:induction false} DigitsValueBound(s: string)
    requires AllDigits(s)
    ensures DigitsValue(s) < Pow10(|s|)
  {
    if s != [] {
      DigitsValueBound(s[..|s| - 1]);
    }
  }

  /** `Integer.toString` of a non-negative value: the shortest digit string whose value is `n`. */
  function NatToDigits(n: nat): (s: string)
    ensures |s| >= 1 && AllDigits(s) && DigitsValue(s) == n
    ensures |s| > 1 ==> s[0] != '0'
    decreases n
  {
    if n < 10 then [DigitChar(n)]
    else
      var s := NatToDigits(n / 10) + [DigitChar(n % 10)];
      assert s[..|s| - 1] == NatToDigits(n / 10);
      s
  }

  /** Exactly `width` digits, zero-padded on the left, as `%02d` and the `yyyy`/`MM`/`dd` patterns print. */
  function PadDigits(n: nat, width: nat): (s: string)
    requires n < Pow10(width)
    ensures |s| == width && AllDigits(s) && DigitsValue(s) == n
  {
    if width == 0 then []
    else
      var s := PadDigits(n / 10, width - 1) + [DigitChar(n % 10)];
      assert s[..|s| - 1] == PadDigits(n / 10, width - 1);
      s
  }

  // ---------------------------------------------------------------------------------------------
  // Integer.parseInt / Long.parseLong and Integer.toString.

  const INT_MIN: int := -0x8000_0000
  const INT_MAX: int := 0x7fff_ffff
  const LONG_MIN: int := -0x8000_0000_0000_0000
  const LONG_MAX: int := 0x7fff_ffff_ffff_ffff

  /**
   * Java's decimal integer parsing over ASCII digits: an optional '+' or '-', then one or more
   * digits, with the value inside [lo, hi]; anything else (empty text, blanks, a lone sign,
   * overflow) fails.
   */
  function ParseInteger(s: string, lo: int, hi: int): (r: Option<int>)
    ensures r.Some? ==> lo <= r.value <= hi
    ensures r.Some? ==> s != [] && (s[0] == '-' || s[0] == '+' || IsDigit(s[0]))
    ensures r.Some? ==> AllDigits(s[1..]) && (IsDigit(s[0]) || |s| >= 2)
    ensures r.Some? ==> r.value == if s[0] == '-' then -(DigitsValue(s[1..]) as int)
                                   else if s[0] == '+' then DigitsValue(s[1..]) as int
                                   else DigitsValue(s) as int
    // Conversely, every well-formed numeral in range is read.
    ensures s != [] && AllDigits(s) && lo <= DigitsValue(s) <= hi ==> r == Some(DigitsValue(s) as int)
    ensures (|s| >= 2 && s[0] == '-' && AllDigits(s[1..]) && lo <= -(DigitsValue(s[1..]) as int) <= hi)
              ==> r == Some(-(DigitsValue(s[1..]) as int))
    ensures (|s| >= 2 && s[0] == '+' && AllDigits(s[1..]) && lo <= DigitsValue(s[1..]) <= hi)
              ==> r == Some(DigitsValue(s[1..]) as int)
  {
    if s == [] then None
    else
      var signed := s[0] == '-' || s[0] == '+';
      var digits := if signed then s[1..] else s;
      if digits == [] || !AllDigits(digits) then None
      else
        var v := if s[0] == '-' then -(DigitsValue(digits) as int) else DigitsValue(digits);
        if lo <= v <= hi then Some(v) else None
  }

  function ParseInt(s: string): Option<int>
  {
    ParseInteger(s, INT_MIN, INT_MAX)
  }

  function ParseLong(s: string): Option<int>
  {
    ParseInteger(s, LONG_MIN, LONG_MAX)
  }

  /** Java's `Integer.toString` / string concatenation of an int. */
  function FormatInt(n: int): string
  {
    if n < 0 then "-" + NatToDigits(-n) else NatToDigits(n)
  }

  /** Every integer in range reads back as itself. */
  lemma ParseFormatInt(n: int, lo: int, hi: int)
    requires lo <= n <= hi
    ensures ParseInteger(FormatInt(n), lo, hi) == Some(n)
  {
    var s := FormatInt(n);
    if n < 0 {
      assert s[1..] == NatToDigits(-n);
    } else {
      assert IsDigit(s[0]);
    }
  }

  // ---------------------------------------------------------------------------------------------
  // Boolean.parseBoolean and Boolean.toString.

  /** Java's `Boolean.parseBoolean`: true exactly for "true" in any letter case; never fails. */
  predicate ParseBoolean(s: string)
  {
    ToLower(s) == "true"
  }

  function FormatBool(b: bool): string
  {
    if b then "true" else "false"
  }

  lemma ParseFormatBool(b: bool)
    ensures ParseBoolean(FormatBool(b)) == b
  {
    if !b {
      assert ToLower("false")[0] == 'f';
    }
  }

  // ---------------------------------------------------------------------------------------------
  // Money: Double.parseDouble on plain decimal text, and Double.toString of whole amounts.

  /**
   * `Double.parseDouble` on surrounding blanks, an optional sign, digits with at most one '.'
   * and at least one digit in all ("5", "5.", ".5", "-50000.0"); the value is exact.
   */
  function ParseDecimal(s: string): (r: Option<real>)
    ensures r.Some? ==> Trim(s) != []
  {
    SignedDecimal(Trim(s))
  }

  /** An optional sign, then an unsigned decimal. */
  function SignedDecimal(t: string): (r: Option<real>)
    ensures r.Some? ==> t != []
  {
    if t != [] && (t[0] == '-' || t[0] == '+') then
      var magnitude := UnsignedDecimal(t[1..]);
      if magnitude.Some? && t[0] == '-' then Some(-magnitude.value) else magnitude
    else UnsignedDecimal(t)
  }

  /** Digits with at most one '.', at least one digit in all, read exactly. */
  function UnsignedDecimal(body: string): (r: Option<real>)
    ensures r.Some? ==> r.value >= 0.0
  {
    var parts := SplitFields(body, '.');
    var whole := parts[0];
    var fraction := if |parts| == 2 then parts[1] else [];
    if |parts| > 2 || !AllDigits(whole) || !AllDigits(fraction) || |whole| + |fraction| == 0 then None
    else Some(DigitsValue(whole) as real + FractionValue(fraction))
  }

  /** The value of the digits after a decimal point: "25" is 0.25. */
  function FractionValue(fraction: string): (v: real)
    requires AllDigits(fraction)
    ensures 0.0 <= v <= 1.0
  {
    if fraction == [] then 0.0
    else ((fraction[0] as int - '0' as int) as real + FractionValue(fraction[1..])) / 10.0
  }

  /** An amount that `Double.toString` prints in plain notation as "<digits>.0". */
  predicate IsWholeAmount(x: real)
  {
    x == x.Floor as real && -10_000_000.0 < x < 10_000_000.0
  }

  /** Java's `Double.toString` of a whole amount below ten million: "6500.0", "-5.0". */
  function FormatAmount(x: real): string
    requires IsWholeAmount(x)
  {
    var n := x.Floor;
    (if n < 0 then "-" else "") + NatToDigits(if n < 0 then -n else n) + ".0"
  }

  lemma TrimOfTrimmed(s: string)
    requires s != [] && s[0] > ' ' && s[|s| - 1] > ' '
    ensures Trim(s) == s
  {
    assert TrimStart(s) == s;
  }

  lemma {:induction false} SplitWholeAndFraction(whole: string, fraction: string)
    requires AllDigits(whole) && AllDigits(fraction)
    ensures SplitFields(whole + "." + fraction, '.') == [whole, fraction]
  {
    assert '.' !in whole by {
      assert forall k :: 0 <= k < |whole| ==> IsDigit(whole[k]);
    }
    assert '.' !in fraction by {
      assert forall k :: 0 <= k < |fraction| ==> IsDigit(fraction[k]);
    }
    SplitFieldsAfterField(whole, '.', fraction);
    SplitFieldsNoSeparator(fraction, '.');
  }

  lemma {:induction false} UnsignedDecimalOfWhole(digits: string)
    requires |digits| >= 1 && AllDigits(digits)
    ensures UnsignedDecimal(digits + "." + "0") == Some(DigitsValue(digits) as real)
  {
    SplitWholeAndFraction(digits, "0");
    var parts := SplitFields(digits + "." + "0", '.');
    assert parts[0] == digits && parts[1] == "0";
    assert AllDigits("0");
    assert FractionValue("0") == 0.0;
  }

  lemma {:induction false} SignedDecimalOfNegative(body: string, v: real)
    requires UnsignedDecimal(body) == Some(v)
    ensures SignedDecimal("-" + body) == Some(-v)
  {
    assert ("-" + body)[1..] == body;
  }

  lemma {:induction false} ParseDecimalOfNegative(body: string, v: real)
    requires UnsignedDecimal(body) == Some(v) && body != [] && body[|body| - 1] > ' '
    ensures ParseDecimal("-" + body) == Some(-v)
  {
    SignedDecimalOfNegative(body, v);
    var s := "-" + body;
    assert s[0] == '-' && s[|s| - 1] == body[|body| - 1];
    ParseDecimalOfTrimmed(s);
  }

  lemma {:induction false} ParseDecimalOfTrimmed(s: string)
    requires s != [] && s[0] > ' ' && s[|s| - 1] > ' '
    ensures ParseDecimal(s) == SignedDecimal(s)
  {
    TrimOfTrimmed(s);
  }

  /** A written amount reads back as itself. */
  lemma {:induction false} ParseFormatAmount(x: real)
    requires IsWholeAmount(x)
    ensures ParseDecimal(FormatAmount(x)) == Some(x)
  {
    if x.Floor < 0 {
      ParseFormatNegativeAmount(x);
    } else {
      ParseFormatNonNegativeAmount(x);
    }
  }

  /** "-<digits>.0" reads as minus the number the digits spell. */
  lemma {:induction false} ParseFormatNegativeAmount(x: real)
    requires IsWholeAmount(x) && x.Floor < 0
    ensures ParseDecimal(FormatAmount(x)) == Some(x)
  {
    var m: nat := -x.Floor;
    var digits := NatToDigits(m);
    var body := digits + "." + "0";
    var v := DigitsValue(digits) as real;
    calc {
      ParseDecimal(FormatAmount(x));
      { assert FormatAmount(x) == "-" + body; }
      ParseDecimal("-" + body);
      {
        UnsignedDecimalOfWhole(digits);
        assert body[|body| - 1] == '0';
        ParseDecimalOfNegative(body, v);
      }
      Some(-v);
      { assert DigitsValue(digits) == m; }
      Some(x);
    }
  }

  /** "<digits>.0" reads as the number the digits spell. */
  lemma {:induction false} ParseFormatNonNegativeAmount(x: real)
    requires IsWholeAmount(x) && x.Floor >= 0
    ensures ParseDecimal(FormatAmount(x)) == Some(x)
  {
    var m: nat := x.Floor;
    var digits := NatToDigits(m);
    var body := digits + "." + "0";
    calc {
      ParseDecimal(FormatAmount(x));
      { assert FormatAmount(x) == body; }
      ParseDecimal(body);
      {
        assert body[0] == digits[0] && body[|body| - 1] == '0';
        ParseDecimalOfTrimmed(body);
      }
      SignedDecimal(body);
      { assert IsDigit(body[0]); }
      UnsignedDecimal(body);
      { UnsignedDecimalOfWhole(digits); }
      Some(DigitsValue(digits) as real);
      { assert DigitsValue(digits) == m; }
      Some(x);
    }
  }
}
