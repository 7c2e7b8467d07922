/** Strings as the scripts use them: occurrence search, Python's left-to-right
    `replace`, splitting at a separator, the character classes of Python's `re`
    module, decimal integers in both directions, and the ordering Python uses
    when it compares or sorts strings. */
module Text {
  import opened Wrappers

  // ---------------------------------------------------------------- occurrences

  predicate StartsWith(s: string, p: string) {
    |p| <= |s| && s[..|p|] == p
  }

  /** `x` occurs in `s` starting at index `i`. */
  predicate OccursAt(s: string, x: string, i: int) {
    0 <= i && i + |x| <= |s| && s[i..i + |x|] == x
  }

  ghost predicate Contains(s: string, x: string) {
    exists i :: OccursAt(s, x, i)
  }

  /** The first occurrence of `x` in `s` at or after index `from`. */
  function IndexFrom(s: string, x: string, from: nat): (r: Option<nat>)
    ensures r.Some? ==> from <= r.value && OccursAt(s, x, r.value)
    ensures r.Some? ==> forall j :: from <= j < r.value ==> !OccursAt(s, x, j)
    ensures r.None? ==> forall j :: from <= j ==> !OccursAt(s, x, j)
    decreases |s| - from
  {
    if from + |x| > |s| then None
    else if s[from..from + |x|] == x then Some(from)
    else IndexFrom(s, x, from + 1)
  }

  /** Index of the first occurrence of `x` in `s` (Python's `str.find`). */
  function IndexOf(s: string, x: string): (r: Option<nat>)
    ensures r.Some? <==> Contains(s, x)
    ensures r.Some? ==> OccursAt(s, x, r.value) && forall j :: 0 <= j < r.value ==> !OccursAt(s, x, j)
  {
    IndexFrom(s, x, 0)
  }

  /** The last occurrence of `x` that starts before index `upTo`. */
  function LastIndexBefore(s: string, x: string, upTo: nat): (r: Option<nat>)
    ensures r.Some? ==> r.value < upTo && OccursAt(s, x, r.value)
    ensures r.Some? ==> forall j :: r.value < j < upTo ==> !OccursAt(s, x, j)
    ensures r.None? ==> forall j :: 0 <= j < upTo ==> !OccursAt(s, x, j)
  {
    if upTo == 0 then None
    else if OccursAt(s, x, upTo - 1) then Some(upTo - 1)
    else LastIndexBefore(s, x, upTo - 1)
  }

  /** Index of the last occurrence of `x` in `s` (Python's `str.rfind`). */
  function LastIndexOf(s: string, x: string): (r: Option<nat>)
    ensures r.Some? <==> Contains(s, x)
    ensures r.Some? ==> OccursAt(s, x, r.value) && forall j :: r.value < j ==> !OccursAt(s, x, j)
  {
    var r := LastIndexBefore(s, x, |s| + 1);
    assert forall j :: j > |s| ==> !OccursAt(s, x, j);
    r
  }

  // ---------------------------------------------------------------- replace

  /** Every non-overlapping occurrence of `x`, scanned from the left, replaced by
      `r`: what `str.replace(x, r)` does, and what `re.sub` does with a pattern
      that has no special characters. The empty pattern matches before every
      character and at the end. */
  function ReplaceAll(s: string, x: string, r: string): string
    decreases |s|
  {
    if |x| == 0 then (if s == [] then r else r + [s[0]] + ReplaceAll(s[1..], x, r))
    else if |s| < |x| then s
    else if s[..|x|] == x then r + ReplaceAll(s[|x|..], x, r)
    else [s[0]] + ReplaceAll(s[1..], x, r)
  }

  /** A string in which the pattern never occurs is left as it is. */
  lemma {:induction false} ReplaceAbsent(s: string, x: string, r: string)
    requires |x| > 0 && !Contains(s, x)
    ensures ReplaceAll(s, x, r) == s
    decreases |s|
  {
    if |s| >= |x| {
      assert !OccursAt(s, x, 0);
      forall i ensures OccursAt(s[1..], x, i) == OccursAt(s, x, i + 1) {
        if 0 <= i && i + |x| <= |s| - 1 {
          assert s[1..][i..i + |x|] == s[i + 1..i + 1 + |x|];
        }
      }
      ReplaceAbsent(s[1..], x, r);
    }
  }

  /** A pattern at the start of a string, whose first character the rest
      lacks, is replaced there and nowhere else. */
  lemma ReplaceLeading(x: string, rest: string, r: string)
    requires |x| > 0 && x[0] !in rest
    ensures ReplaceAll(x + rest, x, r) == r + rest
  {
    var s := x + rest;
    assert s[..|x|] == x && s[|x|..] == rest;
    AbsentByChar(rest, x, 0);
    ReplaceAbsent(rest, x, r);
  }

  /** A name that is exactly the pattern becomes exactly the replacement. */
  lemma ReplaceWhole(x: string, r: string)
    ensures ReplaceAll(x, x, r) == r
  {
    if |x| > 0 {
      assert x[..|x|] == x;
      assert x[|x|..] == [];
    }
  }

  /** Replacing by a longer string never shortens, and lengthens whenever the
      pattern occurs: which is why a rule such as Serbia -> Republic of Serbia is
      not idempotent. */
  lemma {:induction false} ReplaceGrows(s: string, x: string, r: string)
    requires 0 < |x| < |r|
    ensures |ReplaceAll(s, x, r)| >= |s|
    ensures Contains(s, x) ==> |ReplaceAll(s, x, r)| > |s|
    decreases |s|
  {
    if |s| < |x| {
      assert !Contains(s, x);
    } else if s[..|x|] == x {
      ReplaceGrows(s[|x|..], x, r);
    } else {
      ReplaceGrows(s[1..], x, r);
      if Contains(s, x) {
        var i :| OccursAt(s, x, i);
        assert i != 0;
        assert s[1..][i - 1..i - 1 + |x|] == s[i..i + |x|];
        assert OccursAt(s[1..], x, i - 1);
      }
    }
  }

  /** Deleting a one-character pattern distributes over concatenation. */
  lemma {:induction false} ReplaceCharConcat(a: string, b: string, c: char, r: string)
    ensures ReplaceAll(a + b, [c], r) == ReplaceAll(a, [c], r) + ReplaceAll(b, [c], r)
    decreases |a|
  {
    if a == [] {
      assert a + b == b;
    } else {
      assert (a + b)[1..] == a[1..] + b;
      assert (a + b)[..1] == a[..1];
      ReplaceCharConcat(a[1..], b, c, r);
    }
  }

  /** A one-character pattern is removed completely. */
  lemma {:induction false} ReplaceCharRemoves(s: string, c: char, r: string)
    requires c !in r
    ensures c !in ReplaceAll(s, [c], r)
    decreases |s|
  {
    if s != [] {
      ReplaceCharRemoves(s[1..], c, r);
    }
  }

  /** A pattern with a character that `s` lacks does not occur in `s`. */
  lemma AbsentByChar(s: string, x: string, k: nat)
    requires k < |x| && x[k] !in s
    ensures !Contains(s, x)
  {
    forall i | 0 <= i ensures !OccursAt(s, x, i) {
      assert i + |x| <= |s| ==> s[i..i + |x|][k] == s[i + k] && s[i + k] in s;
    }
  }

  /** Where `x` does not start at the first character, that character is kept. */
  lemma ReplaceSkip(s: string, x: string, r: string)
    requires |x| > 0 && |s| > 0 && !OccursAt(s, x, 0)
    ensures ReplaceAll(s, x, r) == [s[0]] + ReplaceAll(s[1..], x, r)
  {
    if |s| < |x| {
      assert ReplaceAll(s[1..], x, r) == s[1..];
    }
  }

  /** A prefix holding no first character of `x` passes through unchanged. */
  lemma {:induction false} ReplaceAfter(p: string, s: string, x: string, r: string)
    requires |x| > 0 && x[0] !in p
    ensures ReplaceAll(p + s, x, r) == p + ReplaceAll(s, x, r)
    decreases |p|
  {
    if p == [] {
      assert p + s == s;
    } else {
      var ps := p + s;
      assert ps[0] == p[0];
      assert !OccursAt(ps, x, 0) by { assert |ps| >= |x| ==> ps[..|x|][0] == p[0]; }
      ReplaceSkip(ps, x, r);
      assert ps[1..] == p[1..] + s;
      ReplaceAfter(p[1..], s, x, r);
      assert p == [p[0]] + p[1..];
    }
  }

  /** When `x` occurs at `i` and its first character appears nowhere before `i`,
      the first replacement is made at `i`. */
  lemma ReplaceAt(s: string, x: string, r: string, i: nat)
    requires |x| > 0 && OccursAt(s, x, i) && x[0] !in s[..i]
    ensures ReplaceAll(s, x, r) == s[..i] + r + ReplaceAll(s[i + |x|..], x, r)
  {
    assert s == s[..i] + s[i..];
    ReplaceAfter(s[..i], s[i..], x, r);
    assert s[i..][..|x|] == x;
    assert s[i..][|x|..] == s[i + |x|..];
  }

  // ---------------------------------------------------------------- split

  /** `str.split(' ', 1)`: the text before the first separator and, when there is
      one, the text after it. */
  function SplitFirst(s: string, sep: char): (r: (string, Option<string>))
    ensures r.1.None? ==> r.0 == s && sep !in s
    ensures r.1.Some? ==> r.0 + [sep] + r.1.value == s && sep !in r.0
  {
    match IndexOf(s, [sep])
    case None =>
      assert sep !in s by {
        forall i | 0 <= i < |s| ensures s[i] != sep {
          assert !OccursAt(s, [sep], i);
        }
      }
      (s, None)
    case Some(i) =>
      assert s[i..i + 1] == [sep];
      assert sep !in s[..i] by {
        forall j | 0 <= j < i ensures s[j] != sep {
          assert !OccursAt(s, [sep], j);
        }
      }
      assert s[..i] + [sep] + s[i + 1..] == s;
      (s[..i], Some(s[i + 1..]))
  }

  /** `str.rsplit(' ', 1)`: the text before the last separator and, when there is
      one, the text after it. */
  function SplitLast(s: string, sep: char): (r: (string, Option<string>))
    ensures r.1.None? ==> r.0 == s && sep !in s
    ensures r.1.Some? ==> r.0 + [sep] + r.1.value == s && sep !in r.1.value
  {
    match LastIndexOf(s, [sep])
    case None =>
      assert sep !in s by {
        forall i | 0 <= i < |s| ensures s[i] != sep {
          assert !OccursAt(s, [sep], i);
        }
      }
      (s, None)
    case Some(i) =>
      assert s[i..i + 1] == [sep];
      assert sep !in s[i + 1..] by {
        forall j | i + 1 <= j < |s| ensures s[j] != sep {
          assert !OccursAt(s, [sep], j);
        }
      }
      assert s[..i] + [sep] + s[i + 1..] == s;
      (s[..i], Some(s[i + 1..]))
  }

  // ---------------------------------------------------------------- character classes

  /** `\s` of Python's `re` on text: the characters for which `str.isspace()` holds. */
  predicate IsSpace(c: char) {
    c == ' ' || ('\t' <= c <= '\r') || ('\U{1C}' <= c <= '\U{1F}') || c == '\U{85}' ||
    c == '\U{A0}' || c == '\U{1680}' || ('\U{2000}' <= c <= '\U{200A}') ||
    c == '\U{2028}' || c == '\U{2029}' || c == '\U{202F}' || c == '\U{205F}' || c == '\U{3000}'
  }

  /** `\d`, restricted to the ASCII digits. */
  predicate IsDigit(c: char) {
    '0' <= c <= '9'
  }

  predicate IsAsciiLetter(c: char) {
    ('a' <= c <= 'z') || ('A' <= c <= 'Z')
  }

  /** `\w`: letters, digits and the underscore. Letters outside ASCII are taken to
      be the Latin-1 letters and everything from U+0100 on that is neither a space
      nor in the General Punctuation block. */
  predicate IsWordChar(c: char) {
    IsAsciiLetter(c) || IsDigit(c) || c == '_' ||
    ('\U{C0}' <= c <= '\U{FF}' && c != '\U{D7}' && c != '\U{F7}') ||
    ('\U{100}' <= c && !IsSpace(c) && !('\U{2000}' <= c <= '\U{206F}'))
  }

  predicate AllDigits(s: string) {
    forall i :: 0 <= i < |s| ==> IsDigit(s[i])
  }

  // ---------------------------------------------------------------- decimal integers

  function DigitValue(c: char): (d: nat)
    requires IsDigit(c)
    ensures d < 10
  {
    (c as int) - ('0' as int)
  }

  function DigitChar(d: nat): (c: char)
    requires d < 10
    ensures IsDigit(c) && DigitValue(c) == d
  {
    (('0' as int) + d) as char
  }

  /** The value of a string of decimal digits, most significant first. */
  function DigitsValue(s: string): nat
    requires AllDigits(s)
  {
    if s == [] then 0 else DigitsValue(s[..|s| - 1]) * 10 + DigitValue(s[|s| - 1])
  }

  /** Decimal digits of `n` without leading zeros (Python's `str` of an int). */
  function NatToString(n: nat): (s: string)
    ensures |s| > 0 && AllDigits(s)
  {
    if n < 10 then [DigitChar(n)] else NatToString(n / 10) + [DigitChar(n % 10)]
  }

  /** `str(n)` for any integer. */
  function IntToString(n: int): string {
    if n < 0 then "-" + NatToString(-n) else NatToString(n)
  }

  /** Reading back what `NatToString` writes gives the number. */
  lemma {:induction false} NatToStringRoundTrip(n: nat)
    ensures DigitsValue(NatToString(n)) == n
  {
    if n >= 10 {
      var s := NatToString(n);
      assert s[..|s| - 1] == NatToString(n / 10);
      NatToStringRoundTrip(n / 10);
    }
  }

  /** Optional sign followed by at least one digit: what Python's `int()` reads. */
  predicate IsIntLiteral(s: string) {
    if |s| > 0 && (s[0] == '-' || s[0] == '+') then |s| > 1 && AllDigits(s[1..])
    else |s| > 0 && AllDigits(s)
  }

  function IntValue(s: string): int
    requires IsIntLiteral(s)
  {
    if s[0] == '-' then 0 - DigitsValue(s[1..])
    else if s[0] == '+' then DigitsValue(s[1..])
    else DigitsValue(s)
  }

  /** `int(s)`: the integer a string spells, or the ValueError Python raises. */
  function ParseInt(s: string): (r: Result<int>)
    ensures r.Ok? <==> IsIntLiteral(s)
  {
    if IsIntLiteral(s) then Ok(IntValue(s)) else Err("invalid literal for int()")
  }

  /** `str` and `int` are inverse on the integers. */
  lemma IntToStringRoundTrip(n: int)
    ensures ParseInt(IntToString(n)) == Ok(n)
  {
    if n < 0 {
      var s := IntToString(n);
      assert s[1..] == NatToString(-n);
      NatToStringRoundTrip(-n);
    } else {
      NatToStringRoundTrip(n);
    }
  }

  function Pow10(k: nat): (p: nat)
    ensures p >= 1
  {
    if k == 0 then 1 else 10 * Pow10(k - 1)
  }

  /** An unsigned decimal number: digits, or digits with one point and at least
      one digit on either side of it. */
  predicate IsUnsignedDecimal(u: string) {
    match IndexOf(u, ".")
    case None => |u| > 0 && AllDigits(u)
    case Some(p) => AllDigits(u[..p]) && AllDigits(u[p + 1..]) && |u| > 1
  }

  function UnsignedDecimalValue(u: string): real
    requires IsUnsignedDecimal(u)
  {
    match IndexOf(u, ".")
    case None => DigitsValue(u) as real
    case Some(p) =>
      DigitsValue(u[..p]) as real + (DigitsValue(u[p + 1..]) as real) / (Pow10(|u| - p - 1) as real)
  }

  /** What `pd.to_numeric` accepts, restricted to signed decimal numbers. */
  predicate IsNumeric(s: string) {
    if |s| > 0 && (s[0] == '-' || s[0] == '+') then IsUnsignedDecimal(s[1..])
    else IsUnsignedDecimal(s)
  }

  function NumericValue(s: string): real
    requires IsNumeric(s)
  {
    if |s| > 0 && s[0] == '-' then -UnsignedDecimalValue(s[1..])
    else if |s| > 0 && s[0] == '+' then UnsignedDecimalValue(s[1..])
    else UnsignedDecimalValue(s)
  }

  /** Every integer literal is numeric, with the same value. */
  lemma {:induction false} IntLiteralIsNumeric(s: string)
    requires IsIntLiteral(s)
    ensures IsNumeric(s) && NumericValue(s) == IntValue(s) as real
  {
    var u := if s[0] == '-' || s[0] == '+' then s[1..] else s;
    assert AllDigits(u);
    assert IndexOf(u, ".").None? by {
      forall j | 0 <= j < |u| ensures !OccursAt(u, ".", j) {
        assert u[j] != '.';
      }
    }
  }

  // ---------------------------------------------------------------- ordering

  /** Python's `<` on strings: lexicographic by code point, a proper prefix first. */
  predicate StrLess(a: string, b: string) {
    if |a| == 0 then |b| > 0
    else if |b| == 0 then false
    else if a[0] != b[0] then a[0] < b[0]
    else StrLess(a[1..], b[1..])
  }

  lemma {:induction false} StrLessIrreflexive(a: string)
    ensures !StrLess(a, a)
  {
    if |a| > 0 {
      StrLessIrreflexive(a[1..]);
    }
  }

  lemma {:induction false} StrLessTransitive(a: string, b: string, c: string)
    requires StrLess(a, b) && StrLess(b, c)
    ensures StrLess(a, c)
  {
    if |a| > 0 && |b| > 0 && |c| > 0 && a[0] == b[0] && b[0] == c[0] {
      StrLessTransitive(a[1..], b[1..], c[1..]);
    }
  }

  lemma {:induction false} StrLessTotal(a: string, b: string)
    ensures a == b || StrLess(a, b) || StrLess(b, a)
  {
    if |a| > 0 && |b| > 0 && a[0] == b[0] {
      StrLessTotal(a[1..], b[1..]);
      if a[1..] == b[1..] {
        assert a == [a[0]] + a[1..] && b == [b[0]] + b[1..];
      }
    }
  }

  lemma {:induction false} StrLessAsymmetric(a: string, b: string)
    requires StrLess(a, b)
    ensures !StrLess(b, a)
  {
    if |a| > 0 && |b| > 0 && a[0] == b[0] {
      StrLessAsymmetric(a[1..], b[1..]);
    }
  }
}
