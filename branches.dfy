/**
 * What one pass of the dispatcher writes, keyword by keyword: for every
 * message that starts with the keyword, the record, the message and the
 * query string after the pass, and the faults when tokens run out.
 */
module BranchSteps {

  import opened Wrappers
  import opened LogTypes
  import opened Text
  import opened Brackets
  import opened Fields
  import opened Dispatch

  /** `warning:` skips through the first `...` and writes nothing. */
  lemma WarningStep(st: Parsed, skipped: seq<string>, rest: seq<string>, load: LocksLoader)
    requires st.message == ["warning:"] + skipped + ["..."] + rest && "..." !in skipped
    ensures Step(st, load) == Success(Next(st.(message := rest)))
  {
    var m := st.message[1..];
    assert m == skipped + ["..."] + rest;
    assert "..." in m by { assert m[|skipped|] == "..."; }
    var after := DropThroughMarker(m).value;
    assert after == rest;
    assert Step(st, load) == AfterWarning(st.(message := m));
  }

  /** `warning:` with no `...` left runs the message out. */
  lemma WarningRunsOut(st: Parsed, load: LocksLoader)
    requires st.message != [] && st.message[0] == "warning:" && "..." !in st.message[1..]
    ensures Step(st, load) == Failure(EmptyMessage)
  {
    assert Step(st, load) == AfterWarning(st.(message := st.message[1..]));
  }

  /** `killcursors <ns>` sets `namespace` to `<ns>` and `command` to `killcursors`. */
  lemma KillcursorsStep(st: Parsed, ns: string, rest: seq<string>, load: LocksLoader)
    requires st.message == ["killcursors", ns] + rest
    ensures Step(st, load) == Success(Next(Parsed(
      st.log["namespace" := Str(ns)]["command" := Str("killcursors")], rest, st.queryStr)))
  {
    var p := st.(message := st.message[1..]);
    assert p.message[0] == ns && p.message[1..] == rest;
    assert Step(st, load) == AfterKillcursors(p);
  }

  /**
   * `command <ns> <separator> <name>` sets `namespace` and `command`, skips
   * the separator, and captures the body that follows.
   */
  lemma CommandStep(st: Parsed, ns: string, sep: string, name: string, rest: seq<string>, load: LocksLoader)
    requires st.message == ["command", ns, sep, name] + rest
    ensures Step(st, load) == QueryBody(Parsed(
      st.log["namespace" := Str(ns)]["command" := Str(name)], rest, st.queryStr))
  {
    var p := st.(message := st.message[1..]);
    assert p.message[0] == ns && p.message[2] == name && p.message[3..] == rest;
    assert Step(st, load) == AfterCommand(p);
  }

  /** `command` with fewer than three tokens after it runs the message out. */
  lemma CommandRunsOut(st: Parsed, load: LocksLoader)
    requires st.message != [] && st.message[0] == "command" && |st.message| < 4
    ensures Step(st, load) == Failure(EmptyMessage)
  {
    assert Step(st, load) == AfterCommand(st.(message := st.message[1..]));
  }

  /** `query <ns> <name>` sets `namespace` and `command` and captures the body that follows. */
  lemma QueryKeywordStep(st: Parsed, ns: string, name: string, rest: seq<string>, load: LocksLoader)
    requires st.message == ["query", ns, name] + rest
    ensures Step(st, load) == QueryBody(Parsed(
      st.log["namespace" := Str(ns)]["command" := Str(name)], rest, st.queryStr))
  {
    var p := st.(message := st.message[1..]);
    assert p.message[0] == ns && p.message[1] == name && p.message[2..] == rest;
    assert Step(st, load) == AfterQuery(p);
  }

  /**
   * `getmore <ns>` followed by `planSummary:` sets `namespace` and
   * `command` and leaves `planSummary:` for the next pass.
   */
  lemma GetmorePlanStep(st: Parsed, ns: string, rest: seq<string>, load: LocksLoader)
    requires st.message == ["getmore", ns, "planSummary:"] + rest
    ensures Step(st, load) == Success(Next(Parsed(
      st.log["namespace" := Str(ns)]["command" := Str("getmore")], ["planSummary:"] + rest, st.queryStr)))
  {
    var p := st.(message := st.message[1..]);
    assert p.message[0] == ns && p.message[1] == "planSummary:" && p.message[1..] == ["planSummary:"] + rest;
    assert Step(st, load) == AfterGetmore(p);
  }

  /**
   * `getmore <ns> <x>` with `x` anything but `planSummary:` sets `namespace`
   * and `command`, drops `x`, and captures the body that follows.
   */
  lemma GetmoreBodyStep(st: Parsed, ns: string, x: string, rest: seq<string>, load: LocksLoader)
    requires st.message == ["getmore", ns, x] + rest && x != "planSummary:"
    ensures Step(st, load) == QueryBody(Parsed(
      st.log["namespace" := Str(ns)]["command" := Str("getmore")], rest, st.queryStr))
  {
    var p := st.(message := st.message[1..]);
    assert p.message[0] == ns && p.message[1] == x && p.message[2..] == rest;
    assert Step(st, load) == AfterGetmore(p);
  }

  /** `getmore` with no token after the namespace fails on the `[0]` look-ahead. */
  lemma GetmoreRunsOut(st: Parsed, load: LocksLoader)
    requires st.message != [] && st.message[0] == "getmore" && |st.message| < 3
    ensures Step(st, load) == Failure(EmptyMessage)
  {
    assert Step(st, load) == AfterGetmore(st.(message := st.message[1..]));
  }

  /** `planSummary: <plan>` for a plan other than `IXSCAN` sets only `query_plan`. */
  lemma PlanSummaryStep(st: Parsed, plan: string, rest: seq<string>, load: LocksLoader)
    requires st.message == ["planSummary:", plan] + rest && plan != "IXSCAN"
    ensures Step(st, load) == Success(Next(Parsed(st.log["query_plan" := Str(plan)], rest, st.queryStr)))
  {
    var p := st.(message := st.message[1..]);
    assert p.message[0] == plan && p.message[1..] == rest;
    assert Step(st, load) == AfterPlanSummary(p);
  }

  /**
   * `planSummary: IXSCAN` sets `query_plan` and stores the brace span that
   * follows, joined by single spaces, as `query_index`.
   */
  lemma PlanSummaryIndexStep(st: Parsed, rest: seq<string>, load: LocksLoader)
    requires st.message == ["planSummary:", "IXSCAN"] + rest
    ensures Step(st, load).Success? <==> CloseBrackets(rest).Success?
    ensures Step(st, load).Success? ==>
      var (span, after) := CloseBrackets(rest).value;
      Step(st, load) == Success(Next(Parsed(
        st.log["query_plan" := Str("IXSCAN")]["query_index" := Str(Join(span))], after, st.queryStr)))
  {
    var p := st.(message := st.message[1..]);
    assert p.message[0] == "IXSCAN" && p.message[1..] == rest;
    assert Step(st, load) == AfterPlanSummary(p);
  }

  /**
   * `locks:{` puts its `{` back, reads the block, and stores what the
   * loader makes of the joined block under `locks`.
   */
  lemma LocksStep(st: Parsed, rest: seq<string>, load: LocksLoader)
    requires st.message == ["locks:{"] + rest
    ensures Step(st, load).Success? <==> CloseBrackets(["{"] + rest).Success?
    ensures Step(st, load).Success? ==>
      var (span, after) := CloseBrackets(["{"] + rest).value;
      Step(st, load) == Success(Next(Parsed(WithLocks(st.log, load(Join(span))), after, st.queryStr)))
  {
    assert st.message[1..] == rest;
    assert Step(st, load) == AfterLocks(st.(message := rest), load);
  }

  /**
   * `exception:` sets `exception` to the keyword followed by every token
   * through the first `code:<digits>`, each with a space in front.
   */
  lemma ExceptionStep(st: Parsed, rest: seq<string>, load: LocksLoader)
    requires st.message == ["exception:"] + rest
    ensures Step(st, load).Success? <==> ExceptionTail(rest).Success?
    ensures Step(st, load).Success? ==>
      var (text, after) := ExceptionTail(rest).value;
      Step(st, load) == Success(Next(Parsed(st.log["exception" := Str("exception:" + text)], after, st.queryStr)))
  {
    assert st.message[1..] == rest;
    assert Step(st, load) == AfterException(st.(message := rest));
  }
}
