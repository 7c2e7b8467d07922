/** The rewrite rules the scripts apply to country and state names with
    `Series.str.replace(pattern, replacement)` (a regular-expression substitution
    in the pandas these scripts target) and `DataFrame.replace(..., regex=True)`.
    Only the pattern shapes that occur in the scripts are modelled, each by what
    `re.sub` does with it; `.` is taken to match every character. */
module Patterns {
  import opened Wrappers
  import opened Text

  datatype Pattern =
    | Literal(x: string)                // X       (no special characters)
    | Prefix(x: string)                 // ^X
    | Whole(x: string)                  // ^X$
    | PrefixLine(x: string)             // ^X.*
    | UpTo(x: string)                   // .*X
    | From(x: string)                   // X.*
    | Around(x: string)                 // .*X.*
    | Enclosed(open: char, close: char) // \s*\(.*\)  and  \s*\[.*\]
    | TrailingNonWord                   // \W*$
    | TrailingNumber                    // \s\d*$

  datatype Rule = Rule(pattern: Pattern, replacement: string)

  /** Start of the run of white space that ends just before index `q`. */
  function SpaceRunStart(s: string, q: nat): (p: nat)
    requires q <= |s|
    ensures p <= q
    ensures forall i :: p <= i < q ==> IsSpace(s[i])
    ensures p == 0 || !IsSpace(s[p - 1])
  {
    if q > 0 && IsSpace(s[q - 1]) then SpaceRunStart(s, q - 1) else q
  }

  /** Start of the longest suffix of `s[..k]` made of non-word characters. */
  function NonWordSuffixStart(s: string, k: nat): (p: nat)
    requires k <= |s|
    ensures p <= k
    ensures forall i :: p <= i < k ==> !IsWordChar(s[i])
    ensures p == 0 || IsWordChar(s[p - 1])
  {
    if k > 0 && !IsWordChar(s[k - 1]) then NonWordSuffixStart(s, k - 1) else k
  }

  /** Start of the longest suffix of `s[..k]` made of digits. */
  function DigitSuffixStart(s: string, k: nat): (p: nat)
    requires k <= |s|
    ensures p <= k
    ensures forall i :: p <= i < k ==> IsDigit(s[i])
    ensures p == 0 || !IsDigit(s[p - 1])
  {
    if k > 0 && IsDigit(s[k - 1]) then DigitSuffixStart(s, k - 1) else k
  }

  /** `\s*\(.*\)` with `open` and `close` for the brackets. The leftmost match
      starts at the white space before the first opening bracket and, `.*` being
      greedy, ends at the last closing bracket; nothing after that can match
      again. With no closing bracket after the first opening one there is no
      match. */
  function StripEnclosed(s: string, open: char, close: char): string {
    match IndexOf(s, [open])
    case None => s
    case Some(q) =>
      match LastIndexOf(s, [close])
      case None => s
      case Some(e) => if e > q then s[..SpaceRunStart(s, q)] + s[e + 1..] else s
  }

  /** What `re.sub(pattern, replacement, s)` gives for each shape. The bracket
      strips and the two trailing shapes delete what they match and ignore the
      replacement text: every statement of the scripts that uses them replaces
      with "". */
  function Apply(rule: Rule, s: string): string {
    var r := rule.replacement;
    match rule.pattern
    case Literal(x) => ReplaceAll(s, x, r)
    case Prefix(x) => if StartsWith(s, x) then r + s[|x|..] else s
    case Whole(x) => if s == x then r else s
    case PrefixLine(x) => if StartsWith(s, x) then r else s
    case UpTo(x) =>
      (match LastIndexOf(s, x) case None => s case Some(i) => r + s[i + |x|..])
    case From(x) =>
      (match IndexOf(s, x) case None => s case Some(i) => s[..i] + r)
    case Around(x) =>
      (match IndexOf(s, x) case None => s case Some(_) => r)
    case Enclosed(o, c) => StripEnclosed(s, o, c)
    case TrailingNonWord => s[..NonWordSuffixStart(s, |s|)]
    case TrailingNumber =>
      var k := DigitSuffixStart(s, |s|);
      if k > 0 && IsSpace(s[k - 1]) then s[..k - 1] else s
  }

  /** A chain of rules applied once each, in the order listed. */
  function ApplyAll(rules: seq<Rule>, s: string): string
    decreases |rules|
  {
    if rules == [] then s else ApplyAll(rules[1..], Apply(rules[0], s))
  }

  /** One `str.replace` statement: a rule applied to every cell of a column. */
  function MapRule(rule: Rule, names: seq<string>): (r: seq<string>)
    ensures |r| == |names|
  {
    seq(|names|, i requires 0 <= i < |names| => Apply(rule, names[i]))
  }

  /** A list of `str.replace` statements, executed one after the other, each over
      the whole column: how the scripts write their chains. */
  function ColumnSteps(rules: seq<Rule>, names: seq<string>): seq<string>
    decreases |rules|
  {
    if rules == [] then names else ColumnSteps(rules[1..], MapRule(rules[0], names))
  }

  /** Running the statements column by column is the same as running the whole
      chain cell by cell: no row is added or removed and each cell is rewritten
      from its own old value only. */
  lemma {:induction false} StepsAreCellwise(rules: seq<Rule>, names: seq<string>)
    ensures |ColumnSteps(rules, names)| == |names|
    ensures forall i :: 0 <= i < |names| ==> ColumnSteps(rules, names)[i] == ApplyAll(rules, names[i])
    decreases |rules|
  {
    if rules != [] {
      var next := MapRule(rules[0], names);
      StepsAreCellwise(rules[1..], next);
    }
  }

  /** Splitting a chain: the rules of the first part all run before the rules of
      the second. */
  lemma {:induction false} ApplyAllAppend(a: seq<Rule>, b: seq<Rule>, s: string)
    ensures ApplyAll(a + b, s) == ApplyAll(b, ApplyAll(a, s))
    decreases |a|
  {
    if a == [] {
      assert a + b == b;
    } else {
      assert (a + b)[0] == a[0];
      assert (a + b)[1..] == a[1..] + b;
      ApplyAllAppend(a[1..], b, Apply(a[0], s));
    }
  }

  /** The chain seen from one of its rules: the rules before it, then the rule,
      then the rules after it. */
  lemma ApplyAllSplit(rules: seq<Rule>, i: nat, s: string)
    requires i < |rules|
    ensures ApplyAll(rules, s) == ApplyAll(rules[i + 1..], Apply(rules[i], ApplyAll(rules[..i], s)))
  {
    assert rules == rules[..i] + rules[i..];
    ApplyAllAppend(rules[..i], rules[i..], s);
    assert rules[i..][0] == rules[i];
    assert rules[i..][1..] == rules[i + 1..];
  }

  /** A rule changes nothing when its pattern has nothing to match. */
  predicate Inert(rule: Rule, s: string) {
    Apply(rule, s) == s
  }

  /** A chain of rules none of which matches along the way leaves a name alone. */
  lemma {:induction false} InertChain(rules: seq<Rule>, s: string)
    requires forall i :: 0 <= i < |rules| ==> Inert(rules[i], s)
    ensures ApplyAll(rules, s) == s
    decreases |rules|
  {
    if rules != [] {
      InertChain(rules[1..], s);
    }
  }

  // ---------------------------------------------------------------- properties of the shapes

  /** `c !in s` in terms of one-character occurrences. */
  lemma CharAbsent(s: string, c: char)
    requires c !in s
    ensures !Contains(s, [c])
  {
    forall i | 0 <= i < |s| ensures !OccursAt(s, [c], i) {
      assert s[i] != c;
      assert i + 1 <= |s| ==> s[i..i + 1][0] == s[i];
    }
  }

  lemma CharPresent(s: string, c: char, i: nat)
    requires i < |s| && s[i] == c
    ensures OccursAt(s, [c], i)
  {
    assert s[i..i + 1] == [c];
  }

  /** A name without an opening bracket is not changed by the bracket strip. */
  lemma EnclosedNeedsOpen(s: string, open: char, close: char, r: string)
    requires open !in s
    ensures Apply(Rule(Enclosed(open, close), r), s) == s
  {
    CharAbsent(s, open);
  }

  /** Stripping brackets twice is stripping them once: after the strip no opening
      bracket is followed by a closing one. */
  lemma EnclosedIdempotent(s: string, open: char, close: char)
    ensures StripEnclosed(StripEnclosed(s, open, close), open, close) == StripEnclosed(s, open, close)
  {
    var t := StripEnclosed(s, open, close);
    if t != s {
      var q := IndexOf(s, [open]).value;
      var e := LastIndexOf(s, [close]).value;
      var p := SpaceRunStart(s, q);
      assert t == s[..p] + s[e + 1..];
      // the kept head holds no opening bracket
      forall j | 0 <= j < p ensures t[j] != open {
        assert t[j] == s[j];
        if s[j] == open { CharPresent(s, open, j); }
      }
      // the kept tail holds no closing bracket
      forall j | p <= j < |t| ensures t[j] != close {
        assert t[j] == s[e + 1 + (j - p)];
        if t[j] == close { CharPresent(s, close, e + 1 + (j - p)); }
      }
      match IndexOf(t, [open])
      case None =>
      case Some(q2) =>
        assert t[q2..q2 + 1] == [open];
        assert q2 >= p;
        match LastIndexOf(t, [close])
        case None =>
        case Some(e2) =>
          assert t[e2..e2 + 1] == [close];
          assert t[e2] == close;
          assert e2 < p;
    }
  }

  /** `^X` rewrites only names that begin with X, and then only that beginning. */
  lemma PrefixOnlyAtStart(x: string, r: string, s: string)
    ensures Apply(Rule(Prefix(x), r), s) != s ==> StartsWith(s, x)
    ensures StartsWith(s, x) ==> Apply(Rule(Prefix(x), r), s) == r + s[|x|..]
  {
  }

  /** `^X$` rewrites exactly the name X and nothing else. */
  lemma WholeOnlyExact(x: string, r: string, s: string)
    requires r != x
    ensures Apply(Rule(Whole(x), r), s) != s <==> s == x
  {
  }

  /** `^X.*` replaces a whole name exactly when it begins with X. */
  lemma PrefixLineOnlyAtStart(x: string, r: string, s: string)
    requires r != s
    ensures Apply(Rule(PrefixLine(x), r), s) == (if StartsWith(s, x) then r else s)
    ensures Apply(Rule(PrefixLine(x), r), s) != s <==> StartsWith(s, x)
  {
  }

  /** `\W*$` cuts the name back to its last word character and nothing more, so
      a second application changes nothing. */
  lemma TrailingNonWordStrips(s: string, r: string)
    requires r == ""
    ensures var t := Apply(Rule(TrailingNonWord, r), s);
      && StartsWith(s, t)
      && (t == [] || IsWordChar(t[|t| - 1]))
      && (forall i :: |t| <= i < |s| ==> !IsWordChar(s[i]))
      && Apply(Rule(TrailingNonWord, r), t) == t
  {
    var t := Apply(Rule(TrailingNonWord, r), s);
    assert t[..|t|] == t;
  }

  /** `\s\d*$` removes a final white-space character followed by digits, when
      there is one, and nothing else. */
  lemma TrailingNumberStrips(s: string, r: string)
    requires r == ""
    ensures var t := Apply(Rule(TrailingNumber, r), s);
      && StartsWith(s, t)
      && (t != s <==> exists p :: 0 <= p < |s| && IsSpace(s[p]) && AllDigits(s[p + 1..]))
  {
    var k := DigitSuffixStart(s, |s|);
    var t := Apply(Rule(TrailingNumber, r), s);
    assert s[..|t|] == t;
    if t != s {
      assert AllDigits(s[k..]) by {
        forall i | 0 <= i < |s[k..]| ensures IsDigit(s[k..][i]) {
          assert s[k..][i] == s[k + i];
        }
      }
    }
    forall p | 0 <= p < |s| && IsSpace(s[p]) && AllDigits(s[p + 1..]) ensures t != s {
      forall i | p + 1 <= i < |s| ensures IsDigit(s[i]) {
        assert s[p + 1..][i - (p + 1)] == s[i];
      }
      assert p + 1 >= k;
      assert p + 1 <= k;
    }
  }

  // ---------------------------------------------------------------- rules that do not match

  /** A reason, checkable character by character, why `rule` finds nothing to
      rewrite in `s`; `k` points at the character that rules the match out. */
  predicate MissesAt(rule: Rule, s: string, k: nat) {
    match rule.pattern
    case Literal(x) => k < |x| && x[k] !in s
    case UpTo(x) => k < |x| && x[k] !in s
    case From(x) => k < |x| && x[k] !in s
    case Around(x) => k < |x| && x[k] !in s
    case Prefix(x) => k < |x| && (k >= |s| || s[k] != x[k])
    case PrefixLine(x) => k < |x| && (k >= |s| || s[k] != x[k])
    case Whole(x) => (k < |x| && (k >= |s| || s[k] != x[k])) || k == |x| < |s|
    case Enclosed(o, _) => o !in s
    case TrailingNonWord => |s| > 0 && IsWordChar(s[|s| - 1])
    case TrailingNumber => |s| > 0 && !IsDigit(s[|s| - 1]) && !IsSpace(s[|s| - 1])
  }

  lemma NotStartsWith(s: string, x: string, k: nat)
    requires k < |x| && (k >= |s| || s[k] != x[k])
    ensures !StartsWith(s, x)
  {
    if |x| <= |s| {
      assert s[..|x|][k] == s[k];
    }
  }

  lemma MissesIsInert(rule: Rule, s: string, k: nat)
    requires MissesAt(rule, s, k)
    ensures Inert(rule, s)
  {
    match rule.pattern
    case Literal(x) => AbsentByChar(s, x, k); ReplaceAbsent(s, x, rule.replacement);
    case UpTo(x) => AbsentByChar(s, x, k);
    case From(x) => AbsentByChar(s, x, k);
    case Around(x) => AbsentByChar(s, x, k);
    case Prefix(x) => NotStartsWith(s, x, k);
    case PrefixLine(x) => NotStartsWith(s, x, k);
    case Whole(x) => if k < |x| { NotStartsWith(s, x, k); }
    case Enclosed(o, c) => EnclosedNeedsOpen(s, o, c, rule.replacement);
    case TrailingNonWord => assert s[..|s|] == s;
    case TrailingNumber =>
  }

  /** A chain none of whose rules matches leaves a name alone, each rule's miss
      witnessed by its own position in `ks`. */
  lemma {:induction false} InertChainBy(rules: seq<Rule>, s: string, ks: seq<nat>)
    requires |ks| == |rules|
    requires forall i :: 0 <= i < |rules| ==> MissesAt(rules[i], s, ks[i])
    ensures ApplyAll(rules, s) == s
    decreases |rules|
  {
    if rules != [] {
      MissesIsInert(rules[0], s, ks[0]);
      InertChainBy(rules[1..], s, ks[1..]);
    }
  }
}
