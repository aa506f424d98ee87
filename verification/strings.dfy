/**
 * The JavaScript string built-ins the application leans on, stated over `seq<char>`:
 * `trim`, `includes`, `replace` with a string pattern (first occurrence only), `Array.join`,
 * and the decimal rendering of a non-negative integer (`${n}` / `n.toString()`).
 */
module Strings {
  import opened Options

  // ---------------------------------------------------------------------------
  // trim
  // ---------------------------------------------------------------------------

  /** The code points `String.prototype.trim` strips: ECMAScript WhiteSpace and LineTerminator. */
  predicate IsWhitespace(c: char)
  {
    || c == '\t' || c == '\n' || c == '\U{B}' || c == '\U{C}' || c == '\r' || c == ' '
    || c == '\U{A0}' || c == '\U{1680}' || ('\U{2000}' <= c <= '\U{200A}')
    || c == '\U{2028}' || c == '\U{2029}' || c == '\U{202F}' || c == '\U{205F}'
    || c == '\U{3000}' || c == '\U{FEFF}'
  }

  /** `s` with its leading whitespace removed. */
  function TrimStart(s: string): (r: string)
    ensures |r| <= |s| && r == s[|s| - |r|..]
    ensures forall i :: 0 <= i < |s| - |r| ==> IsWhitespace(s[i])
    ensures r == [] || !IsWhitespace(r[0])
  {
    if |s| > 0 && IsWhitespace(s[0]) then TrimStart(s[1..]) else s
  }

  /** `s` with its trailing whitespace removed. */
  function TrimEnd(s: string): (r: string)
    ensures |r| <= |s| && r == s[..|r|]
    ensures forall i :: |r| <= i < |s| ==> IsWhitespace(s[i])
    ensures r == [] || !IsWhitespace(r[|r| - 1])
  {
    if |s| > 0 && IsWhitespace(s[|s| - 1]) then TrimEnd(s[..|s| - 1]) else s
  }

  /** `s.trim()`: the slice of `s` left once whitespace is cut from both ends. It is empty exactly
      when `s` is all whitespace, and otherwise neither starts nor ends with whitespace. */
  function Trim(s: string): (r: string)
    ensures |r| <= |s|
    ensures exists a, b :: TrimmedSlice(s, r, a, b)
    ensures r == [] || (!IsWhitespace(r[0]) && !IsWhitespace(r[|r| - 1]))
    ensures r == [] <==> forall i :: 0 <= i < |s| ==> IsWhitespace(s[i])
  {
    var front := TrimStart(s);
    var r := TrimEnd(front);
    assert front != [] ==> r != [] by {
      if front != [] {
        assert !IsWhitespace(front[0]);
      }
    }
    CutBothEnds(s, front, r);
    r
  }

  /** `r` is `s[a..b]`, and everything of `s` outside the slice is whitespace. */
  predicate TrimmedSlice(s: string, r: string, a: int, b: int)
  {
    && 0 <= a <= b <= |s| && r == s[a..b]
    && (forall i :: 0 <= i < a ==> IsWhitespace(s[i]))
    && (forall i :: b <= i < |s| ==> IsWhitespace(s[i]))
  }

  /** Cutting whitespace off the front of `s` and then off the back of what is left leaves a
      slice of `s` with whitespace only around it. */
  lemma {:induction false} CutBothEnds(s: string, front: string, r: string)
    requires |front| <= |s| && front == s[|s| - |front|..]
    requires forall i :: 0 <= i < |s| - |front| ==> IsWhitespace(s[i])
    requires |r| <= |front| && r == front[..|r|]
    requires forall i :: |r| <= i < |front| ==> IsWhitespace(front[i])
    ensures TrimmedSlice(s, r, |s| - |front|, |s| - |front| + |r|)
  {
    var a := |s| - |front|;
    var b := a + |r|;
    assert r == s[a..b];
    forall i | b <= i < |s|
      ensures IsWhitespace(s[i])
    {
      assert s[i] == front[i - a];
    }
  }

  /** A topic is blank when trimming leaves nothing (`!topic.trim()`). */
  predicate IsBlank(s: string)
  {
    Trim(s) == []
  }

  // ---------------------------------------------------------------------------
  // includes / indexOf / replace
  // ---------------------------------------------------------------------------

  /** `pat` occurs in `s` starting at index `i`. */
  predicate OccursAt(s: string, pat: string, i: int)
  {
    0 <= i && i + |pat| <= |s| && s[i..i + |pat|] == pat
  }

  /** `s.includes(pat)`. */
  predicate Contains(s: string, pat: string)
  {
    exists i | 0 <= i <= |s| :: OccursAt(s, pat, i)
  }

  /** The first occurrence of `pat` in `s` at or after `from`. */
  function FindFrom(s: string, pat: string, from: nat): (r: Option<nat>)
    ensures r.Some? ==> from <= r.value && OccursAt(s, pat, r.value)
    ensures r.Some? ==> forall i :: from <= i < r.value ==> !OccursAt(s, pat, i)
    ensures r.None? ==> forall i :: from <= i ==> !OccursAt(s, pat, i)
    decreases |s| - from
  {
    if from + |pat| > |s| then None
    else if s[from..from + |pat|] == pat then Some(from)
    else FindFrom(s, pat, from + 1)
  }

  /** `s.indexOf(pat)`, with `None` for -1: the first index where `pat` occurs. */
  function IndexOf(s: string, pat: string): (r: Option<nat>)
    ensures r.Some? <==> Contains(s, pat)
    ensures r.Some? ==> OccursAt(s, pat, r.value) && forall i :: 0 <= i < r.value ==> !OccursAt(s, pat, i)
  {
    FindFrom(s, pat, 0)
  }

  /** `s.replace(pat, rep)` for a string pattern and a replacement holding no `$` pattern
      (`rep` is inserted literally): only the first occurrence is replaced, and a string without
      an occurrence comes back unchanged. */
  function ReplaceFirst(s: string, pat: string, rep: string): (r: string)
    ensures !Contains(s, pat) ==> r == s
    ensures Contains(s, pat) ==>
      var i := IndexOf(s, pat).value;
      && (forall j :: 0 <= j < i ==> !OccursAt(s, pat, j))
      && i + |pat| <= |s|
      && |r| == |s| - |pat| + |rep|
      && r[..i] == s[..i]
      && OccursAt(r, rep, i)
      && r[i + |rep|..] == s[i + |pat|..]
  {
    match IndexOf(s, pat)
    case None => s
    case Some(i) => s[..i] + rep + s[i + |pat|..]
  }

  // ---------------------------------------------------------------------------
  // join
  // ---------------------------------------------------------------------------

  /** The number of characters in all the pieces together. */
  function TotalLength(xs: seq<string>): nat
  {
    if |xs| == 0 then 0 else |xs[0]| + TotalLength(xs[1..])
  }

  /** `xs.join(sep)`: nothing for no piece; otherwise the pieces with one separator between
      each neighbouring pair, so it starts with the first piece and ends with the last. */
  function Join(xs: seq<string>, sep: string): (r: string)
    ensures |xs| == 0 ==> r == []
    ensures |xs| > 0 ==> |r| == TotalLength(xs) + (|xs| - 1) * |sep|
    ensures |xs| > 0 ==> |xs[0]| <= |r| && r[..|xs[0]|] == xs[0]
    ensures |xs| > 0 ==> |xs[|xs| - 1]| <= |r| && r[|r| - |xs[|xs| - 1]|..] == xs[|xs| - 1]
  {
    if |xs| == 0 then []
    else if |xs| == 1 then xs[0]
    else xs[0] + sep + Join(xs[1..], sep)
  }

  /** Joining one more piece on the right adds one separator and the piece: together with
      `Join([x], sep) == x` this fixes every join, separator by separator. */
  lemma {:induction false} JoinSnoc(xs: seq<string>, x: string, sep: string)
    requires |xs| > 0
    ensures Join(xs + [x], sep) == Join(xs, sep) + sep + x
    decreases |xs|
  {
    if |xs| == 1 {
      JoinTwo(xs[0], x, sep);
      assert xs + [x] == [xs[0], x];
    } else {
      JoinSnoc(xs[1..], x, sep);
      JoinSnocStep(xs, x, sep);
    }
  }

  /** The inductive step of `JoinSnoc`: from the tail's right-end join to the whole list's. */
  lemma JoinSnocStep(xs: seq<string>, x: string, sep: string)
    requires |xs| >= 2
    requires Join(xs[1..] + [x], sep) == Join(xs[1..], sep) + sep + x
    ensures Join(xs + [x], sep) == Join(xs, sep) + sep + x
  {
    var ys := xs + [x];
    SnocTail(xs, x);
    JoinUnfold(ys, sep);
    JoinUnfold(xs, sep);
    Regroup(xs[0] + sep, Join(xs[1..], sep), sep, x);
  }

  lemma SnocTail(xs: seq<string>, x: string)
    requires |xs| > 0
    ensures (xs + [x])[0] == xs[0] && (xs + [x])[1..] == xs[1..] + [x]
  {
  }

  lemma Regroup(a: string, t: string, sep: string, x: string)
    ensures a + (t + sep + x) == a + t + sep + x
  {
  }

  lemma JoinTwo(a: string, b: string, sep: string)
    ensures Join([a, b], sep) == a + sep + b
  {
    assert [a, b][1..] == [b];
  }

  lemma JoinUnfold(xs: seq<string>, sep: string)
    requires |xs| >= 2
    ensures Join(xs, sep) == xs[0] + sep + Join(xs[1..], sep)
  {
  }

  /** With a non-empty separator, a join is empty exactly when there is nothing to join or
      one empty piece. */
  lemma {:induction false} JoinEmptyIff(xs: seq<string>, sep: string)
    requires sep != []
    ensures Join(xs, sep) == [] <==> (|xs| == 0 || (|xs| == 1 && xs[0] == []))
  {
    if |xs| >= 2 {
      assert |Join(xs, sep)| >= |sep|;
    }
  }

  // ---------------------------------------------------------------------------
  // decimal rendering of numbers
  // ---------------------------------------------------------------------------

  predicate IsDigit(c: char)
  {
    '0' <= c <= '9'
  }

  function DigitChar(d: nat): (c: char)
    requires d < 10
    ensures IsDigit(c)
    ensures c as int - '0' as int == d
  {
    ('0' as int + d) as char
  }

  /** The decimal form of `n`, as JavaScript renders a non-negative integer: digits only,
      one digit exactly for the values below ten. */
  function NatToString(n: nat): (r: string)
    ensures forall i :: 0 <= i < |r| ==> IsDigit(r[i])
    ensures |r| >= 1
    ensures n < 10 <==> |r| == 1
  {
    if n < 10 then [DigitChar(n)] else NatToString(n / 10) + [DigitChar(n % 10)]
  }

  /** Two numbers with the same decimal form are the same number. */
  lemma {:induction false} NatToStringInjective(a: nat, b: nat)
    ensures NatToString(a) == NatToString(b) ==> a == b
  {
    var sa, sb := NatToString(a), NatToString(b);
    if a >= 10 && b >= 10 {
      NatToStringInjective(a / 10, b / 10);
      var pa, pb := NatToString(a / 10), NatToString(b / 10);
      assert sa == pa + [DigitChar(a % 10)] && sb == pb + [DigitChar(b % 10)];
      if sa == sb {
        assert pa == sa[..|pa|] && pb == sb[..|pb|];
        assert DigitChar(a % 10) == sa[|sa| - 1] == DigitChar(b % 10);
      }
    } else if a < 10 && b < 10 {
      assert sa[0] == DigitChar(a) && sb[0] == DigitChar(b);
    }
  }

  /** Ids of the form `p + n + "-" + tail` with different numbers `n` differ, whatever the tails:
      a decimal number contains no '-', so the dash marks where the number ends. */
  lemma NumberedTagsDiffer(p: string, a: nat, b: nat, x: string, y: string)
    requires a != b
    ensures p + NatToString(a) + "-" + x != p + NatToString(b) + "-" + y
  {
    var sa, sb := NatToString(a), NatToString(b);
    var u, v := p + sa + "-" + x, p + sb + "-" + y;
    NatToStringInjective(a, b);
    if |sa| == |sb| {
      var k :| 0 <= k < |sa| && sa[k] != sb[k];
      assert u[|p| + k] == sa[k] && v[|p| + k] == sb[k];
    } else if |sa| < |sb| {
      assert u[|p| + |sa|] == '-' && v[|p| + |sa|] == sb[|sa|];
    } else {
      assert v[|p| + |sb|] == '-' && u[|p| + |sb|] == sa[|sb|];
    }
  }
}
