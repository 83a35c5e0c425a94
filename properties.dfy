/**
 * Properties of a whole `Parse`: what a non-`COMMAND` line gets, the
 * normalised `query_str` after a loop that ran out, and worked lines that
 * show how the dispatcher treats a `command` line with an index plan,
 * repeated index spans, `serverStatus` and the generic `key:value`
 * fallback.
 */
module ParseProperties {

  import opened Wrappers
  import opened LogTypes
  import opened Text
  import opened Brackets
  import opened Fields
  import opened QueryNormaliser
  import opened Dispatch
  import opened BranchSteps

  /**
   * A line whose `type` is not `COMMAND` only gains `text`: the message
   * tokens joined by single spaces and stripped. No dispatcher key is set
   * and neither the message nor the query string changes.
   */
  lemma NonCommandText(st: Parsed, tokens: seq<string>, load: LocksLoader)
    requires "type" in st.log && st.log["type"] != Str("COMMAND")
    ensures ParseSpec(st, tokens, load).Success?
    ensures var p := ParseSpec(st, tokens, load).value;
      && p.log.Keys == st.log.Keys + {"text"}
      && p.log["text"] == Str(Strip(Join(MessageTokens(tokens))))
      && (forall k :: k in st.log && k != "text" ==> p.log[k] == st.log[k])
      && p.message == st.message && p.queryStr == st.queryStr
  {
  }

  /**
   * When the loop runs out of tokens after a body was captured, the parse
   * records `query_str`, equal to the final query string, which is the
   * normalised capture and is itself left alone by a second normalisation.
   */
  lemma QueryStrNormalised(st: Parsed, tokens: seq<string>, load: LocksLoader)
    requires "type" in st.log && st.log["type"] == Str("COMMAND")
    requires Run(st, load).Success? && Run(st, load).value.Exhausted?
    requires Run(st, load).value.st.queryStr.Some?
    ensures ParseSpec(st, tokens, load).Success?
    ensures var p := ParseSpec(st, tokens, load).value;
      var q := Run(st, load).value.st.queryStr.value;
      && p.queryStr == Some(Normalise(q))
      && "query_str" in p.log && p.log["query_str"] == Str(p.queryStr.value)
      && Normalise(p.queryStr.value) == p.queryStr.value
      && p.message == []
  {
    NormaliseIdempotent(Run(st, load).value.st.queryStr.value);
  }

  /** When the loop runs out with nothing captured, the record is the loop's, without `query_str` added. */
  lemma NoQueryNoQueryStr(st: Parsed, tokens: seq<string>, load: LocksLoader)
    requires "type" in st.log && st.log["type"] == Str("COMMAND")
    requires Run(st, load).Success? && Run(st, load).value.Exhausted?
    requires Run(st, load).value.st.queryStr.None?
    ensures ParseSpec(st, tokens, load) == Success(Run(st, load).value.st)
  {
  }

  // ---- Worked lines ----

  /** A `query` line ended by `serverStatus`: the body is captured but never written as `query_str`. */
  lemma ServerStatusLeavesQueryUnrecorded(log: map<string, Value>, rest: seq<string>, load: LocksLoader)
    requires "type" in log && log["type"] == Str("COMMAND")
    ensures var st := Parsed(log, ["query", "db.c", "find", "{", "a:", "1", "}", "serverStatus"] + rest, None);
      ParseSpec(st, [], load) == Success(Parsed(
        log["namespace" := Str("db.c")]["command" := Str("serverStatus")], rest, Some("{ a: 1 }")))
  {
    var msg := ["query", "db.c", "find", "{", "a:", "1", "}", "serverStatus"] + rest;
    var st := Parsed(log, msg, None);
    var log1 := log["namespace" := Str("db.c")]["command" := Str("find")];
    var st1 := Parsed(log1, ["serverStatus"] + rest, Some("{ a: 1 }"));
    assert msg == ["query", "db.c", "find", "{", "a:", "1", "}"] + (["serverStatus"] + rest);
    QueryStep(st, ["serverStatus"] + rest, load);
    RunThrough(st, st1, load);
    ServerStatusRun(st1, load);
    assert st1.message[1..] == rest;
    var log2 := log["namespace" := Str("db.c")]["command" := Str("serverStatus")];
    assert log1["command" := Str("serverStatus")] == log2;
    HaltedParse(st, Parsed(log2, rest, Some("{ a: 1 }")), load);
  }

  /** A command line whose loop halts parses to the state it halted in. */
  lemma HaltedParse(st: Parsed, st': Parsed, load: LocksLoader)
    requires "type" in st.log && st.log["type"] == Str("COMMAND")
    requires Run(st, load) == Success(Halted(st'))
    ensures ParseSpec(st, [], load) == Success(st')
  {
  }

  /**
   * `command test.users command: find { filter: { a: 1 } } planSummary: IXSCAN { a: 1 }`:
   * the namespace, the command, the plan, the index span and the
   * normalised query body are all recorded.
   */
  lemma CommandWithIndexPlan(st: Parsed, load: LocksLoader)
    requires "type" in st.log && st.log["type"] == Str("COMMAND") && st.queryStr.None?
    requires st.message == ["command", "test.users", "command:", "find",
      "{", "filter:", "{", "a:", "1", "}", "}", "planSummary:", "IXSCAN", "{", "a:", "1", "}"]
    ensures ParseSpec(st, [], load) == Success(Parsed(
      st.log["namespace" := Str("test.users")]["command" := Str("find")]
            ["query_plan" := Str("IXSCAN")]["query_index" := Str("{ a: 1 }")]
            ["query_str" := Str("{ filter: { a: 1 } }")],
      [], Some("{ filter: { a: 1 } }")))
  {
    var log2 := st.log["namespace" := Str("test.users")]["command" := Str("find")]
                      ["query_plan" := Str("IXSCAN")]["query_index" := Str("{ a: 1 }")];
    CommandWithIndexPlanParse(st, load);
    FinishFilterBody(log2);
  }

  /** The parse of that line is the finish of the loop's state. */
  lemma CommandWithIndexPlanParse(st: Parsed, load: LocksLoader)
    requires "type" in st.log && st.log["type"] == Str("COMMAND") && st.queryStr.None?
    requires st.message == ["command", "test.users", "command:", "find",
      "{", "filter:", "{", "a:", "1", "}", "}", "planSummary:", "IXSCAN", "{", "a:", "1", "}"]
    ensures ParseSpec(st, [], load) == Success(Finish(Parsed(
      st.log["namespace" := Str("test.users")]["command" := Str("find")]
            ["query_plan" := Str("IXSCAN")]["query_index" := Str("{ a: 1 }")],
      [], Some("{ filter: { a: 1 } }"))))
  {
    var log2 := st.log["namespace" := Str("test.users")]["command" := Str("find")]
                      ["query_plan" := Str("IXSCAN")]["query_index" := Str("{ a: 1 }")];
    CommandWithIndexPlanRun(st, load);
    ExhaustedParse(st, Parsed(log2, [], Some("{ filter: { a: 1 } }")), load);
  }

  /** The captured body of that line is recorded as it is. */
  lemma FinishFilterBody(log: map<string, Value>)
    ensures Finish(Parsed(log, [], Some("{ filter: { a: 1 } }")))
      == Parsed(log["query_str" := Str("{ filter: { a: 1 } }")], [], Some("{ filter: { a: 1 } }"))
  {
    FinishPlain(Parsed(log, [], Some("{ filter: { a: 1 } }")));
  }

  /** A command line whose loop runs out parses to the finished loop state. */
  lemma ExhaustedParse(st: Parsed, st': Parsed, load: LocksLoader)
    requires "type" in st.log && st.log["type"] == Str("COMMAND")
    requires Run(st, load) == Success(Exhausted(st'))
    ensures ParseSpec(st, [], load) == Success(Finish(st'))
  {
  }

  /** A captured query with neither `$` nor `O` is recorded as it is. */
  lemma FinishPlain(st: Parsed)
    requires st.queryStr.Some? && '$' !in st.queryStr.value && 'O' !in st.queryStr.value
    ensures Finish(st) == st.(log := st.log["query_str" := Str(st.queryStr.value)])
  {
    PlainNormal(st.queryStr.value);
  }

  /** The loop over that line runs out after two passes. */
  lemma CommandWithIndexPlanRun(st: Parsed, load: LocksLoader)
    requires st.message == ["command", "test.users", "command:", "find",
      "{", "filter:", "{", "a:", "1", "}", "}", "planSummary:", "IXSCAN", "{", "a:", "1", "}"]
    ensures Run(st, load) == Success(Exhausted(Parsed(
      st.log["namespace" := Str("test.users")]["command" := Str("find")]
            ["query_plan" := Str("IXSCAN")]["query_index" := Str("{ a: 1 }")],
      [], Some("{ filter: { a: 1 } }"))))
  {
    var plan := ["planSummary:", "IXSCAN", "{", "a:", "1", "}"];
    assert st.message == ["command", "test.users", "command:", "find", "{", "filter:", "{", "a:", "1", "}", "}"] + plan;
    var q := "{ filter: { a: 1 } }";
    var log1 := st.log["namespace" := Str("test.users")]["command" := Str("find")];
    var st1 := Parsed(log1, plan, Some(q));
    CommandFindStep(st, plan, load);
    RunThrough(st, st1, load);
    var log2 := log1["query_plan" := Str("IXSCAN")]["query_index" := Str("{ a: 1 }")];
    IndexPlanStep(st1, load);
    RunThrough(st1, Parsed(log2, [], Some(q)), load);
  }

  /** The `command` pass of that line: the header fields and the nested body. */
  lemma CommandFindStep(st: Parsed, rest: seq<string>, load: LocksLoader)
    requires st.message == ["command", "test.users", "command:", "find", "{", "filter:", "{", "a:", "1", "}", "}"] + rest
    ensures Step(st, load) == Success(Next(Parsed(
      st.log["namespace" := Str("test.users")]["command" := Str("find")], rest, Some("{ filter: { a: 1 } }"))))
  {
    var body := ["{", "filter:", "{", "a:", "1", "}", "}"];
    assert st.message == ["command", "test.users", "command:", "find"] + (body + rest);
    CommandStep(st, "test.users", "command:", "find", body + rest, load);
    NestedBody(body + rest, rest);
    JoinSeven(body);
  }

  /** The `planSummary: IXSCAN { a: 1 }` pass of that line. */
  lemma IndexPlanStep(st: Parsed, load: LocksLoader)
    requires st.message == ["planSummary:", "IXSCAN", "{", "a:", "1", "}"]
    ensures Step(st, load) == Success(Next(Parsed(
      st.log["query_plan" := Str("IXSCAN")]["query_index" := Str("{ a: 1 }")], [], st.queryStr)))
  {
    var index := ["{", "a:", "1", "}"];
    assert st.message == ["planSummary:", "IXSCAN"] + index;
    PlanSummaryIndexStep(st, index, load);
    BodyOfTwoItems(index);
  }

  /** `{ filter: { a: 1 } }` as tokens, closed by the outer `}`. */
  lemma NestedBody(msg: seq<string>, rest: seq<string>)
    requires msg == ["{", "filter:", "{", "a:", "1", "}", "}"] + rest
    ensures CloseBrackets(msg) == Success((["{", "filter:", "{", "a:", "1", "}", "}"], rest))
  {
    assert CloseFrom(msg, 1, 1) == CloseFrom(msg, 2, 1);
    assert CloseFrom(msg, 2, 1) == CloseFrom(msg, 3, 2);
    assert CloseFrom(msg, 3, 2) == CloseFrom(msg, 4, 2);
    assert CloseFrom(msg, 4, 2) == CloseFrom(msg, 5, 2);
    assert CloseFrom(msg, 5, 2) == CloseFrom(msg, 6, 1);
    assert CloseFrom(msg, 6, 1) == Some(6);
    assert msg[..6] + ["}"] == ["{", "filter:", "{", "a:", "1", "}", "}"];
    assert msg[7..] == rest;
  }

  lemma JoinSeven(body: seq<string>)
    requires body == ["{", "filter:", "{", "a:", "1", "}", "}"]
    ensures Join(body) == "{ filter: { a: 1 } }"
  {
    JoinSevenOf("{", "filter:", "{", "a:", "1", "}", "}");
  }

  lemma JoinSevenOf(a: string, b: string, c: string, d: string, e: string, f: string, g: string)
    ensures Join([a, b, c, d, e, f, g]) == a + " " + b + " " + c + " " + d + " " + e + " " + f + " " + g
  {
    JoinFour(d, e, f, g);
    assert [c, d, e, f, g][1..] == [d, e, f, g];
    assert Join([c, d, e, f, g]) == c + " " + (d + " " + e + " " + f + " " + g);
    assert [b, c, d, e, f, g][1..] == [c, d, e, f, g];
    assert Join([b, c, d, e, f, g]) == b + " " + (c + " " + d + " " + e + " " + f + " " + g);
    assert [a, b, c, d, e, f, g][1..] == [b, c, d, e, f, g];
  }

  lemma BodyOfTwoItems(index: seq<string>)
    requires index == ["{", "a:", "1", "}"]
    ensures CloseBrackets(index) == Success((index, []))
    ensures Join(index) == "{ a: 1 }"
  {
    BodyOfThree(index, "a:", "1", "}", []);
    JoinFour("{", "a:", "1", "}");
  }

  /** A string with neither `$` nor `O` is its own normalisation. */
  lemma PlainNormal(q: string)
    requires '$' !in q && 'O' !in q
    ensures Normalise(q) == q
  {
    InCopy(q, "");
    IdCopy(q, "");
    assert q + "" == q;
  }

  /** `serverStatus` at the front stops the loop at once. */
  lemma ServerStatusRun(st: Parsed, load: LocksLoader)
    requires st.message != [] && st.message[0] == "serverStatus"
    ensures Run(st, load) == Success(Halted(Parsed(st.log["command" := Str("serverStatus")], st.message[1..], st.queryStr)))
  {
  }

  /** One `query db.c find { a: 1 }` at the front of the message. */
  lemma QueryStep(st: Parsed, rest: seq<string>, load: LocksLoader)
    requires st.message == ["query", "db.c", "find", "{", "a:", "1", "}"] + rest
    ensures Step(st, load) == Success(Next(Parsed(
      st.log["namespace" := Str("db.c")]["command" := Str("find")], rest, Some("{ a: 1 }"))))
  {
    var p := st.(message := st.message[1..]);
    assert p.message[2..] == st.message[3..];
    BodyOfThree(st.message[3..], "a:", "1", "}", rest);
    JoinFour("{", "a:", "1", "}");
    assert "{" + " " + "a:" + " " + "1" + " " + "}" == "{ a: 1 }";
    assert Step(st, load) == AfterQuery(p);
  }

  /**
   * Two `IXSCAN` spans equal to each other but not to `query_index` are both
   * appended: the list is only compared against `query_index`, not against
   * its own last entry.
   */
  lemma RepeatedIndexKeptTwice(log: map<string, Value>, rest: seq<string>, load: LocksLoader)
    requires "query_index" in log && log["query_index"] != Str("{ b }") && "query_index_more" !in log
    ensures var st := Parsed(log, ["IXSCAN", "{", "b", "}", "IXSCAN", "{", "b", "}"] + rest, None);
      Run(st, load) == Run(Parsed(log["query_index_more" := StrList(["{ b }", "{ b }"])], rest, None), load)
  {
    var tail := ["IXSCAN", "{", "b", "}"] + rest;
    var msg := ["IXSCAN", "{", "b", "}"] + tail;
    assert msg == ["IXSCAN", "{", "b", "}", "IXSCAN", "{", "b", "}"] + rest;
    var log1 := MoreIndex(log, "{ b }");
    IxscanStep(Parsed(log, msg, None), tail, load);
    RunThrough(Parsed(log, msg, None), Parsed(log1, tail, None), load);
    IxscanStep(Parsed(log1, tail, None), rest, load);
    RunThrough(Parsed(log1, tail, None), Parsed(MoreIndex(log1, "{ b }"), rest, None), load);
    MoreIndexTwice(log, "{ b }");
  }

  /** A span added twice to a record without `query_index_more` is listed twice. */
  lemma MoreIndexTwice(log: map<string, Value>, x: string)
    requires "query_index" in log && log["query_index"] != Str(x) && "query_index_more" !in log
    ensures MoreIndex(MoreIndex(log, x), x) == log["query_index_more" := StrList([x, x])]
  {
    var log1 := log["query_index_more" := StrList([x])];
    assert MoreIndex(log, x) == log1;
    assert [x] + [x] == [x, x];
  }

  /** One `IXSCAN { b }` at the front of the message. */
  lemma IxscanStep(st: Parsed, rest: seq<string>, load: LocksLoader)
    requires st.message == ["IXSCAN", "{", "b", "}"] + rest
    requires "query_index" in st.log
    ensures Step(st, load) == Success(Next(st.(log := MoreIndex(st.log, "{ b }"), message := rest)))
  {
    BodyOfTwo(st.message[1..], "b", "}", rest);
    assert Join(["{", "b", "}"]) == "{ b }" by {
      assert ["{", "b", "}"][1..] == ["b", "}"];
      assert ["b", "}"][1..] == ["}"];
    }
  }

  /** A pass that goes on leaves the rest of the loop to the new state. */
  lemma RunThrough(st: Parsed, st1: Parsed, load: LocksLoader)
    requires st.message != [] && Step(st, load) == Success(Next(st1))
    ensures Run(st, load) == Run(st1, load)
  {
  }

  /** The `IXSCAN` branch needs an earlier `planSummary: IXSCAN`: without `query_index` the parse fails. */
  lemma IndexWithoutQueryIndexFails(load: LocksLoader)
    ensures var st := Parsed(map["type" := Str("COMMAND")], ["IXSCAN", "{", "b", "}"], None);
      ParseSpec(st, [], load) == Failure(MissingKey("query_index"))
  {
    var msg := ["IXSCAN", "{", "b", "}"];
    BodyOfTwo(msg[1..], "b", "}", []);
  }

  /**
   * The key class `[a-zA-z]` reaches from 'A' to 'z', so `_` is a key
   * character, and the match is anchored at the front only: `query_index:12abc`
   * stores the integer 12 under `query_index`.
   */
  lemma UnderscoreKeyLeadingDigits()
    ensures MatchIntField("query_index:12abc") == Some(("query_index", 12))
  {
    assert "query_index:12abc" == "query_index" + ":" + "12" + "abc";
    MatchIntFieldOn("query_index", "12", "abc");
    assert DecimalValue("12") == 12 by {
      assert "12"[..1] == "1";
      assert "1"[..0] == "";
    }
  }

  /** The fallback may overwrite a header field: `type:abc` replaces `type`. */
  lemma FallbackOverwritesHeader(log: map<string, Value>)
    ensures Fallback(log, "type:abc") == Success(log["type" := Str("abc")])
  {
    assert "type:abc" == "type" + ":" + "abc";
    MatchIntFieldMisses("type", "abc");
    assert "type:abc" == "type" + ":" + "abc" + "";
    MatchStrFieldOn("type", "abc", "");
  }

  /**
   * `_` is a key character, so a `query_str:<v>` token writes `query_str`
   * through the fallback, even on a line that `serverStatus` ends.
   */
  lemma FallbackWritesQueryStr(log: map<string, Value>, load: LocksLoader)
    requires "type" in log && log["type"] == Str("COMMAND")
    ensures var st := Parsed(log, ["query_str:abc", "serverStatus"], None);
      ParseSpec(st, [], load) == Success(Parsed(
        log["query_str" := Str("abc")]["command" := Str("serverStatus")], [], None))
  {
    var t := "query_str:abc";
    var st := Parsed(log, [t, "serverStatus"], None);
    var st1 := Parsed(log["query_str" := Str("abc")], ["serverStatus"], None);
    QueryStrTokenStep(st, load);
    RunThrough(st, st1, load);
  }

  lemma QueryStrTokenStep(st: Parsed, load: LocksLoader)
    requires st.message == ["query_str:abc", "serverStatus"]
    ensures Step(st, load) == Success(Next(Parsed(st.log["query_str" := Str("abc")], ["serverStatus"], st.queryStr)))
  {
    assert st.message[0][5] == '_';
    OtherStep(st, load);
    FallbackQueryStr(st.log);
  }

  /** A token with `_` at index 5 is no keyword (none has one there), so it goes to the fallback. */
  lemma OtherStep(st: Parsed, load: LocksLoader)
    requires st.message != []
    requires |st.message[0]| > 5 && st.message[0][5] == '_'
    ensures Step(st, load) == AfterOther(st.message[0], st.(message := st.message[1..]))
  {
    var t := st.message[0];
    assert "warning:"[5] != '_' && "killcursors"[5] != '_' && "command"[5] != '_';
    assert "getmore"[5] != '_' && "serverStatus"[5] != '_' && "planSummary:"[5] != '_';
    assert "IXSCAN"[5] != '_' && "locks:{"[5] != '_' && "exception:"[5] != '_';
    assert t != "query";
  }

  lemma FallbackQueryStr(log: map<string, Value>)
    ensures Fallback(log, "query_str:abc") == Success(log["query_str" := Str("abc")])
  {
    assert "query_str:abc" == "query_str" + ":" + "abc";
    MatchIntFieldMisses("query_str", "abc");
    assert "query_str:abc" == "query_str" + ":" + "abc" + "";
    MatchStrFieldOn("query_str", "abc", "");
  }

  // ---- Small facts the worked lines use ----

  lemma JoinFour(a: string, b: string, c: string, d: string)
    ensures Join([a, b, c, d]) == a + " " + b + " " + c + " " + d
  {
    assert [a, b, c, d][1..] == [b, c, d];
    assert [b, c, d][1..] == [c, d];
    assert [c, d][1..] == [d];
    assert Join([c, d]) == c + " " + d;
    assert Join([b, c, d]) == b + " " + (c + " " + d);
  }

  /** A body `{ x }` at the front, closed by `close`. */
  lemma BodyOfTwo(msg: seq<string>, x: string, close: string, rest: seq<string>)
    requires x != "{" && !IsCloser(x) && IsCloser(close)
    requires msg == ["{", x, close] + rest
    ensures CloseBrackets(msg) == Success((["{", x, "}"], rest))
  {
    assert CloseFrom(msg, 1, 1) == CloseFrom(msg, 2, 1);
    assert CloseFrom(msg, 2, 1) == Some(2);
    assert msg[..2] + ["}"] == ["{", x, "}"];
    assert msg[3..] == rest;
  }

  /** A body `{ x y }` at the front, closed by `close`. */
  lemma BodyOfThree(msg: seq<string>, x: string, y: string, close: string, rest: seq<string>)
    requires x != "{" && !IsCloser(x) && y != "{" && !IsCloser(y) && IsCloser(close)
    requires msg == ["{", x, y, close] + rest
    ensures CloseBrackets(msg) == Success((["{", x, y, "}"], rest))
  {
    assert CloseFrom(msg, 1, 1) == CloseFrom(msg, 2, 1);
    assert CloseFrom(msg, 2, 1) == CloseFrom(msg, 3, 1);
    assert CloseFrom(msg, 3, 1) == Some(3);
    assert msg[..3] + ["}"] == ["{", x, y, "}"];
    assert msg[4..] == rest;
  }
}
