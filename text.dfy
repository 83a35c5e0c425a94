/**
 * String helpers with Python's meaning: `re.split(' +', …)`, `' '.join`,
 * `str.strip()`, `int()` on a run of ASCII digits, and maximal runs of a
 * character class (what a greedy regex class consumes).
 */
module Text {

  predicate IsDigit(c: char) { '0' <= c <= '9' }

  /** The character class `[a-zA-z]`: every code point from 'A' to 'z'. */
  predicate IsKeyChar(c: char) { 'A' <= c <= 'z' }

  predicate IsHexLower(c: char) { '0' <= c <= '9' || 'a' <= c <= 'f' }

  /** The characters `str.strip()` removes: space and '\t' through '\r'. */
  predicate IsPyWhitespace(c: char) { c == ' ' || '\t' <= c <= '\r' }

  predicate IsSpace(c: char) { c == ' ' }
  predicate NotSpace(c: char) { c != ' ' }

  predicate AllDigits(s: string) {
    forall i :: 0 <= i < |s| ==> IsDigit(s[i])
  }

  /** Length of the longest prefix of `s` whose characters satisfy `p`. */
  function LeadingRun(s: string, p: char -> bool): (n: nat)
    ensures n <= |s|
    ensures forall i :: 0 <= i < n ==> p(s[i])
    ensures n < |s| ==> !p(s[n])
  {
    if s == [] || !p(s[0]) then 0 else 1 + LeadingRun(s[1..], p)
  }

  /** A run that stops at the first character outside `p` is that run. */
  lemma {:induction false} LeadingRunOf(a: string, b: string, p: char -> bool)
    requires forall i :: 0 <= i < |a| ==> p(a[i])
    requires b == [] || !p(b[0])
    ensures LeadingRun(a + b, p) == |a|
  {
    if a != [] {
      assert (a + b)[1..] == a[1..] + b;
      LeadingRunOf(a[1..], b, p);
    }
  }

  /**
   * `re.split(' +', s)`: the pieces between maximal runs of spaces. A run at
   * either end yields an empty piece there; no piece contains a space.
   */
  function SplitSpaces(s: string): (r: seq<string>)
    ensures |r| >= 1
    ensures forall i :: 0 <= i < |r| ==> ' ' !in r[i]
    ensures forall i :: 0 < i < |r| - 1 ==> r[i] != ""
    ensures s != [] && s[0] != ' ' ==> r[0] != ""
    decreases |s|
  {
    var k := LeadingRun(s, NotSpace);
    if k == |s| then
      assert forall c :: c in s ==> c != ' ';
      [s]
    else
      var j := k + LeadingRun(s[k..], IsSpace);
      assert forall c :: c in s[..k] ==> c != ' ';
      [s[..k]] + SplitSpaces(s[j..])
  }

  /** `' '.join(ts)`: the run-join in which every run is one space. */
  function Join(ts: seq<string>): (r: string)
    ensures ts == [] ==> r == ""
    ensures ts != [] ==> r == JoinRuns(ts, Ones(|ts| - 1))
  {
    if ts == [] then ""
    else if |ts| == 1 then ts[0]
    else
      assert Ones(|ts| - 1)[1..] == Ones(|ts| - 2);
      assert Spaces(1) == " ";
      ts[0] + " " + Join(ts[1..])
  }

  /** `n` runs of one space each. */
  function Ones(n: nat): (r: seq<nat>)
    ensures |r| == n
  {
    seq(n, _ => 1)
  }

  /** The pieces `SplitSpaces` can produce: what `Join` must undo. */
  predicate SplitShaped(ts: seq<string>) {
    && |ts| >= 1
    && (forall i :: 0 <= i < |ts| ==> ' ' !in ts[i])
    && (forall i :: 0 < i < |ts| - 1 ==> ts[i] != "")
  }

  /** Splitting a single-space join gives back exactly the joined pieces. */
  lemma {:induction false} SplitJoin(ts: seq<string>)
    requires SplitShaped(ts)
    ensures SplitSpaces(Join(ts)) == ts
    decreases |ts|
  {
    if |ts| == 1 {
      SplitNoSpace(ts[0]);
    } else {
      ShapedTail(ts);
      SplitJoin(ts[1..]);
      SplitJoinMore(ts);
    }
  }

  lemma ShapedTail(ts: seq<string>)
    requires SplitShaped(ts) && |ts| > 1
    ensures SplitShaped(ts[1..]) && (|ts| == 2 || ts[1] != "")
  {
    assert forall i :: 0 <= i < |ts| - 1 ==> ts[1..][i] == ts[i + 1];
  }

  lemma SplitJoinMore(ts: seq<string>)
    requires SplitShaped(ts) && |ts| > 1
    requires SplitSpaces(Join(ts[1..])) == ts[1..]
    ensures SplitSpaces(Join(ts)) == ts
  {
    var tail := ts[1..];
    ShapedTail(ts);
    JoinHead(tail);
    SplitStep(ts[0], Join(tail));
    assert ts == [ts[0]] + tail;
  }

  lemma SplitNoSpace(a: string)
    requires ' ' !in a
    ensures SplitSpaces(a) == [a]
  {
    assert forall i :: 0 <= i < |a| ==> NotSpace(a[i]);
    LeadingRunOf(a, [], NotSpace);
    assert a + [] == a;
  }

  /** One space after a space-free piece splits off exactly that piece. */
  lemma SplitStep(a: string, rest: string)
    requires ' ' !in a
    requires rest == [] || rest[0] != ' '
    ensures SplitSpaces(a + " " + rest) == [a] + SplitSpaces(rest)
  {
    var s := a + " " + rest;
    assert forall i :: 0 <= i < |a| ==> NotSpace(a[i]);
    assert s == a + (" " + rest);
    LeadingRunOf(a, " " + rest, NotSpace);
    var k := |a|;
    assert s[k..] == " " + rest;
    LeadingRunOf(" ", rest, IsSpace);
    assert s[k + 1..] == rest;
    assert s[..k] == a;
  }

  /** A join whose first piece is non-empty (or alone) does not start with a space. */
  lemma JoinHead(ts: seq<string>)
    requires SplitShaped(ts)
    requires |ts| == 1 || ts[0] != ""
    ensures Join(ts) == [] || Join(ts)[0] != ' '
  {
    if |ts| > 1 {
      assert Join(ts)[0] == ts[0][0];
    }
  }

  /** A run of `n` spaces. */
  function Spaces(n: nat): (r: string)
    ensures |r| == n && forall i :: 0 <= i < n ==> r[i] == ' '
  {
    if n == 0 then "" else " " + Spaces(n - 1)
  }

  /**
   * The pieces `ts` separated by runs of spaces, the `i`-th run `gaps[i]`
   * long: the general shape of a line before `re.split(' +')`.
   */
  function JoinRuns(ts: seq<string>, gaps: seq<nat>): string
    requires |ts| >= 1 && |gaps| == |ts| - 1
  {
    if |ts| == 1 then ts[0] else ts[0] + Spaces(gaps[0]) + JoinRuns(ts[1..], gaps[1..])
  }

  /** A space-free piece, then any run of one or more spaces, splits off exactly that piece. */
  lemma SplitRun(a: string, n: nat, rest: string)
    requires ' ' !in a && n >= 1
    requires rest == [] || rest[0] != ' '
    ensures SplitSpaces(a + Spaces(n) + rest) == [a] + SplitSpaces(rest)
  {
    var sp := Spaces(n);
    var s := a + sp + rest;
    assert forall i :: 0 <= i < |a| ==> NotSpace(a[i]);
    assert s == a + (sp + rest);
    LeadingRunOf(a, sp + rest, NotSpace);
    var k := |a|;
    assert s[k..] == sp + rest;
    LeadingRunOf(sp, rest, IsSpace);
    assert s[k + n..] == rest;
    assert s[..k] == a;
  }

  /**
   * Splitting pieces joined by runs of any positive lengths gives back the
   * pieces: the runs themselves leave no trace.
   */
  lemma {:induction false} SplitJoinRuns(ts: seq<string>, gaps: seq<nat>)
    requires SplitShaped(ts) && |gaps| == |ts| - 1
    requires forall i :: 0 <= i < |gaps| ==> gaps[i] >= 1
    ensures SplitSpaces(JoinRuns(ts, gaps)) == ts
    decreases |ts|
  {
    if |ts| == 1 {
      SplitNoSpace(ts[0]);
    } else {
      ShapedTail(ts);
      assert forall i :: 0 <= i < |gaps| - 1 ==> gaps[1..][i] == gaps[i + 1];
      SplitJoinRuns(ts[1..], gaps[1..]);
      SplitJoinRunsMore(ts, gaps);
    }
  }

  lemma SplitJoinRunsMore(ts: seq<string>, gaps: seq<nat>)
    requires SplitShaped(ts) && |ts| > 1 && |gaps| == |ts| - 1 && gaps[0] >= 1
    requires SplitSpaces(JoinRuns(ts[1..], gaps[1..])) == ts[1..]
    ensures SplitSpaces(JoinRuns(ts, gaps)) == ts
  {
    var tail := JoinRuns(ts[1..], gaps[1..]);
    ShapedTail(ts);
    RunsHead(ts[1..], gaps[1..]);
    SplitRun(ts[0], gaps[0], tail);
    assert ts == [ts[0]] + ts[1..];
  }

  /** A run-join whose first piece is non-empty (or alone) does not start with a space. */
  lemma RunsHead(ts: seq<string>, gaps: seq<nat>)
    requires SplitShaped(ts) && |gaps| == |ts| - 1
    requires |ts| == 1 || ts[0] != ""
    ensures JoinRuns(ts, gaps) == [] || JoinRuns(ts, gaps)[0] != ' '
  {
    if |ts| > 1 {
      assert JoinRuns(ts, gaps)[0] == ts[0][0];
    }
  }

  /** `s` without one final '\n', the one character Python's `$` looks past. */
  function DropFinalNewline(s: string): (r: string)
    ensures s != [] && s[|s| - 1] == '\n' ==> s == r + "\n"
    ensures s == [] || s[|s| - 1] != '\n' ==> r == s
  {
    if s != [] && s[|s| - 1] == '\n' then s[..|s| - 1] else s
  }

  /** `int(d)` for a string of ASCII digits. */
  function DecimalValue(d: string): nat
    requires AllDigits(d)
  {
    if d == [] then 0
    else DecimalValue(d[..|d| - 1]) * 10 + (d[|d| - 1] as int - '0' as int)
  }

  /** `str(n)`, the reference rendering that `int()` undoes. */
  function DecimalString(n: nat): (r: string)
    ensures AllDigits(r) && r != []
  {
    if n < 10 then [('0' as int + n) as char]
    else DecimalString(n / 10) + [('0' as int + n % 10) as char]
  }

  /** Digits without a leading zero have a positive value. */
  lemma {:induction false} DecimalPositive(d: string)
    requires AllDigits(d) && d != [] && d[0] != '0'
    ensures DecimalValue(d) >= 1
  {
    if |d| > 1 {
      DecimalPositive(d[..|d| - 1]);
    }
  }

  /** `str(int(d))` is `d` for digits without a leading zero (or the single `0`). */
  lemma {:induction false} DecimalStringOf(d: string)
    requires AllDigits(d) && d != [] && (d[0] != '0' || |d| == 1)
    ensures DecimalString(DecimalValue(d)) == d
  {
    var n := DecimalValue(d);
    if |d| > 1 {
      var front := d[..|d| - 1];
      DecimalPositive(front);
      DecimalStringOf(front);
      assert n / 10 == DecimalValue(front) && n % 10 == d[|d| - 1] as int - '0' as int;
      assert d == front + [d[|d| - 1]];
    }
  }

  lemma {:induction false} DecimalRoundTrip(n: nat)
    ensures DecimalValue(DecimalString(n)) == n
  {
    var r := DecimalString(n);
    if n >= 10 {
      DecimalRoundTrip(n / 10);
      assert r[..|r| - 1] == DecimalString(n / 10);
    }
  }

  /** `s` without trailing `str.strip()` whitespace. */
  function StripEnd(s: string): (r: string)
    ensures |r| <= |s| && r == s[..|r|]
    ensures forall i :: |r| <= i < |s| ==> IsPyWhitespace(s[i])
    ensures r == [] || !IsPyWhitespace(r[|r| - 1])
  {
    if s == [] || !IsPyWhitespace(s[|s| - 1]) then s
    else StripEnd(s[..|s| - 1])
  }

  /**
   * `s.strip()`: the infix of `s` left once the leading and the trailing
   * whitespace are cut off; it neither starts nor ends with whitespace.
   */
  function Strip(s: string): (r: string)
    ensures var lo := LeadingRun(s, IsPyWhitespace);
      && lo + |r| <= |s| && s[lo..lo + |r|] == r
      && (forall i :: 0 <= i < lo ==> IsPyWhitespace(s[i]))
      && (forall i :: lo + |r| <= i < |s| ==> IsPyWhitespace(s[i]))
    ensures r == [] || (!IsPyWhitespace(r[0]) && !IsPyWhitespace(r[|r| - 1]))
  {
    var lo := LeadingRun(s, IsPyWhitespace);
    var r := StripEnd(s[lo..]);
    assert s[lo..lo + |r|] == s[lo..][..|r|];
    r
  }
}
