/**
 * The `LogEvent` object: its record, its token list and message list, and
 * the query string it captures, with the methods that change them in place.
 */
module LogEvents {

  import opened Wrappers
  import opened LogTypes
  import opened Text
  import opened Brackets
  import opened Fields
  import opened QueryNormaliser
  import opened Dispatch

  /** `s[1:-1]`: drop the first and last character; `""` when there are fewer than two. */
  function Inner(s: string): (r: string)
    ensures |s| >= 2 ==> s == [s[0]] + r + [s[|s| - 1]]
    ensures |s| < 2 ==> r == ""
  {
    if |s| >= 2 then s[1..|s| - 1] else ""
  }

  /**
   * What `__init__` computes from one line: the header fields, an optional
   * `duration`, and the token list with a trailing duration token removed.
   */
  function Initial(line: string): (r: Result<(map<string, Value>, seq<string>), Fault>)
    ensures r.Success? <==> |SplitSpaces(line)| >= 4
    ensures r.Failure? ==> r.error == MalformedLine
  {
    FromTokens(SplitSpaces(line))
  }

  /** `__init__` after the split. */
  function FromTokens(ts: seq<string>): (r: Result<(map<string, Value>, seq<string>), Fault>)
    ensures r.Success? <==> |ts| >= 4
    ensures r.Failure? ==> r.error == MalformedLine
    ensures r.Success? ==> r.value.1 == ts || r.value.1 == ts[..|ts| - 1]
  {
    if |ts| < 4 then Failure(MalformedLine)
    else
      var header := map["time" := Str(ts[0]), "level" := Str(ts[1]), "type" := Str(ts[2]),
                        "session" := Str(Inner(ts[3]))];
      match Duration(ts[|ts| - 1])
      case Some(ms) => Success((header["duration" := Int(ms)], ts[..|ts| - 1]))
      case None => Success((header, ts))
  }

  /** The header of a line with four or more tokens, and the duration rule. */
  lemma InitialSpec(line: string)
    ensures var ts := SplitSpaces(line);
      Initial(line).Success? <==> |ts| >= 4
    ensures var ts := SplitSpaces(line);
      Initial(line).Success? ==> HeaderOf(ts, Initial(line).value.0, Initial(line).value.1)
  {
    FromTokensSpec(SplitSpaces(line));
  }

  /**
   * `log` holds the header taken from the tokens `ts`, and a duration exactly
   * when the last token is one, in which case `tokens` lacks it.
   */
  predicate HeaderOf(ts: seq<string>, log: map<string, Value>, tokens: seq<string>)
    requires |ts| >= 4
  {
    var last := ts[|ts| - 1];
    && log.Keys >= {"time", "level", "type", "session"}
    && log["time"] == Str(ts[0]) && log["level"] == Str(ts[1]) && log["type"] == Str(ts[2])
    && log["session"] == Str(Inner(ts[3]))
    && (Duration(last).Some? ==>
          && log.Keys == {"time", "level", "type", "session", "duration"}
          && log["duration"] == Int(Duration(last).value)
          && tokens == ts[..|ts| - 1])
    && (Duration(last).None? ==>
          && log.Keys == {"time", "level", "type", "session"}
          && tokens == ts)
  }

  lemma FromTokensSpec(ts: seq<string>)
    ensures FromTokens(ts).Success? <==> |ts| >= 4
    ensures FromTokens(ts).Success? ==> HeaderOf(ts, FromTokens(ts).value.0, FromTokens(ts).value.1)
  {
    if |ts| >= 4 {
      var header := map["time" := Str(ts[0]), "level" := Str(ts[1]), "type" := Str(ts[2]),
                        "session" := Str(Inner(ts[3]))];
      assert header.Keys == {"time", "level", "type", "session"};
      assert header["duration" := Int(0)].Keys == {"time", "level", "type", "session", "duration"};
    }
  }

  /** A method that acts out a dispatcher branch: it fails when `spec` does, and otherwise ends in `spec`'s state. */
  predicate Follows(spec: Result<Flow, Fault>, r: Result<(), Fault>, now: Parsed) {
    && (r.Success? <==> spec.Success?)
    && (r.Success? ==> spec.value == Next(now))
    && (r.Failure? ==> r.error == spec.error)
  }

  class LogEvent {
    /** `self.log`: the record built so far. */
    var log: map<string, Value>
    /** `self.tokens`: the space-split line, without a trailing duration token. */
    var tokens: seq<string>
    /** `self._message`: the tokens not yet consumed. */
    var message: seq<string>
    /** `self._query_str`; `None` while the attribute does not exist. */
    var queryStr: Option<string>

    /** Every record carries the `type` header field that `Parse` tests. */
    predicate Valid()
      reads this
    {
      "type" in log
    }

    /** The part of the object `Parse` works on. */
    function Snapshot(): Parsed
      reads this
    {
      Parsed(log, message, queryStr)
    }

    constructor Of(log0: map<string, Value>, tokens0: seq<string>)
      ensures log == log0 && tokens == tokens0
      ensures message == MessageTokens(tokens0) && queryStr == None
    {
      log, tokens := log0, tokens0;
      message := MessageTokens(tokens0);
      queryStr := None;
    }

    /** `LogEvent(line)`: fails on a line of fewer than four tokens. */
    static method New(line: string) returns (r: Result<LogEvent, Fault>)
      ensures r.Success? <==> Initial(line).Success?
      ensures r.Failure? ==> r.error == MalformedLine
      ensures r.Success? ==>
        && fresh(r.value) && r.value.Valid()
        && (r.value.log, r.value.tokens) == Initial(line).value
        && r.value.message == MessageTokens(r.value.tokens)
        && r.value.queryStr == None
    {
      var ts := SplitSpaces(line);
      if |ts| < 4 {
        return Failure(MalformedLine);
      }
      var log0 := map[];
      log0 := log0["time" := Str(ts[0])];
      log0 := log0["level" := Str(ts[1])];
      log0 := log0["type" := Str(ts[2])];
      log0 := log0["session" := Str(Inner(ts[3]))];
      match Duration(ts[|ts| - 1]) {
        case Some(ms) =>
          log0 := log0["duration" := Int(ms)];
          ts := ts[..|ts| - 1];
        case None =>
      }
      var e := new LogEvent.Of(log0, ts);
      return Success(e);
    }

    /** `self._message.pop(0)`: an empty message is a fault and stays as it was. */
    method Pop() returns (r: Result<string, Fault>)
      modifies this`message
      ensures r.Success? <==> old(message) != []
      ensures r.Success? ==> r.value == old(message)[0] && message == old(message)[1..]
      ensures r.Failure? ==> r.error == EmptyMessage && message == old(message)
    {
      if message == [] {
        return Failure(EmptyMessage);
      }
      r := Success(message[0]);
      message := message[1..];
    }

    /** `_drop_warning_of_too_long`: pop tokens until one `...` has gone. */
    method DropWarningOfTooLong() returns (r: Result<(), Fault>)
      modifies this`message
      ensures r.Success? <==> DropThroughMarker(old(message)).Some?
      ensures r.Success? ==> message == DropThroughMarker(old(message)).value
      ensures r.Failure? ==> r.error == EmptyMessage
    {
      while true
        invariant DropThroughMarker(message) == DropThroughMarker(old(message))
        decreases |message|
      {
        var token :- Pop();
        if token == "..." {
          return Success(());
        }
      }
    }

    /**
     * `_get_close_brackets`: the brace span at the front of the message,
     * with the message cut after it; no `{` in front gives `[]`. On a fault
     * the message is left as it was.
     */
    method GetCloseBrackets() returns (r: Result<seq<string>, Fault>)
      modifies this`message
      ensures r.Success? <==> CloseBrackets(old(message)).Success?
      ensures r.Success? ==> (r.value, message) == CloseBrackets(old(message)).value
      ensures r.Failure? ==> r.error == CloseBrackets(old(message)).error && message == old(message)
    {
      if message == [] {
        return Failure(EmptyMessage);
      }
      if message[0] != "{" {
        return Success([]);
      }
      var idx, count := 0, 1;
      while count != 0
        invariant 0 <= idx < |message|
        invariant count > 0 ==> CloseFrom(message, idx + 1, count) == CloseFrom(message, 1, 1)
        invariant count == 0 ==> idx >= 1 && CloseFrom(message, 1, 1) == Some(idx)
        decreases |message| - idx
      {
        idx := idx + 1;
        if idx >= |message| {
          return Failure(UnterminatedBrace);
        }
        if message[idx] == "{" {
          count := count + 1;
        } else if message[idx] == "}" || message[idx] == "}," {
          count := count - 1;
        }
      }
      r := Success(message[..idx] + ["}"]);
      message := message[idx + 1..];
    }

    /**
     * The loop after `exception:`: append each popped token, space first,
     * to `exception`, up to and including a `code:<digits>` token.
     */
    method ReadException() returns (r: Result<(), Fault>)
      requires "exception" in log && log["exception"].Str?
      modifies this`log, this`message
      ensures log.Keys == old(log).Keys
      ensures r.Success? <==> ExceptionTail(old(message)).Success?
      ensures r.Success? ==>
        && log == old(log)["exception" := Str(old(log["exception"].s) + ExceptionTail(old(message)).value.0)]
        && message == ExceptionTail(old(message)).value.1
      ensures r.Failure? ==> r.error == EmptyMessage
    {
      ghost var head := log["exception"].s;
      ghost var taken := "";
      assert head + taken == head;
      assert old(log)["exception" := Str(head)] == old(log);
      PrependEmpty(ExceptionTail(message));
      while true
        invariant log == old(log)["exception" := Str(head + taken)]
        invariant ExceptionTail(old(message)) == Prepend(taken, ExceptionTail(message))
        decreases |message|
      {
        ghost var before := message;
        var next :- Pop();
        ExceptionTailStep(ExceptionTail(old(message)), taken, before);
        log := log["exception" := Str(log["exception"].s + " " + next)];
        assert head + taken + " " + next == head + (taken + " " + next);
        taken := taken + " " + next;
        if IsCodeToken(next) {
          return Success(());
        }
      }
    }

    /** `_drop_ids_query_str`: normalise the captured query and record it as `query_str`. */
    method DropIdsQueryStr() returns (r: Result<(), Fault>)
      modifies this`log, this`queryStr
      ensures r.Success? <==> old(queryStr).Some?
      ensures r.Success? ==>
        && queryStr == Some(Normalise(old(queryStr).value))
        && log == old(log)["query_str" := Str(Normalise(old(queryStr).value))]
      ensures r.Failure? ==> r.error == MissingAttribute("_query_str") && unchanged(this)
    {
      if queryStr.None? {
        return Failure(MissingAttribute("_query_str"));
      }
      queryStr := Some(ReplaceIn(queryStr.value));
      queryStr := Some(ReplaceObjectId(queryStr.value));
      log := log["query_str" := Str(queryStr.value)];
      r := Success(());
    }

    /** A repeated `IXSCAN` span `more`: see `Dispatch.MoreIndex`. */
    method AddIndexMore(more: string) returns (r: Result<(), Fault>)
      modifies this`log
      ensures r.Success? <==> "query_index" in old(log)
      ensures r.Success? ==> log == MoreIndex(old(log), more)
      ensures r.Failure? ==> r.error == MissingKey("query_index") && log == old(log)
    {
      if "query_index" !in log {
        return Failure(MissingKey("query_index"));
      }
      if Str(more) != log["query_index"] {
        if "query_index_more" in log && log["query_index_more"].StrList? {
          log := log["query_index_more" := StrList(log["query_index_more"].items + [more])];
        } else {
          log := log["query_index_more" := StrList([more])];
        }
      }
      r := Success(());
    }

    /** The generic `key:value` fallback and the `errors` accumulator: see `Dispatch.Fallback`. */
    method SetField(token: string) returns (r: Result<(), Fault>)
      modifies this`log
      ensures old(log).Keys <= log.Keys
      ensures r.Success? <==> Fallback(old(log), token).Success?
      ensures r.Success? ==> log == Fallback(old(log), token).value
      ensures r.Failure? ==> r.error == Fallback(old(log), token).error
    {
      match MatchIntField(token) {
        case Some((key, n)) => log := log[key := Int(n)];
        case None =>
          match MatchStrField(token) {
            case Some((key, v)) => log := log[key := Str(v)];
            case None =>
              if "errors" !in log {
                log := log["errors" := Str("")];
                assert "" + " " + token == " " + token;
              }
              if !log["errors"].Str? {
                return Failure(NotAString("errors"));
              }
              log := log["errors" := Str(log["errors"].s + " " + token)];
          }
      }
      r := Success(());
    }

    /** The `killcursors` branch of `Parse`, after the keyword was popped. */
    method ParseKillcursors() returns (r: Result<(), Fault>)
      modifies this`log, this`message
      ensures old(log).Keys <= log.Keys
      ensures Follows(AfterKillcursors(old(Snapshot())), r, Snapshot())
    {
      var namespace :- Pop();
      log := log["namespace" := Str(namespace)];
      log := log["command" := Str("killcursors")];
      r := Success(());
    }

    /** The `command` branch: namespace, a skipped `command:`, the command name, the body. */
    method ParseCommand() returns (r: Result<(), Fault>)
      modifies this`log, this`message, this`queryStr
      ensures old(log).Keys <= log.Keys
      ensures Follows(AfterCommand(old(Snapshot())), r, Snapshot())
    {
      var namespace :- Pop();
      log := log["namespace" := Str(namespace)];
      var _ :- Pop();
      var command :- Pop();
      log := log["command" := Str(command)];
      var span :- GetCloseBrackets();
      queryStr := Some(Join(span));
      r := Success(());
    }

    /** The `query` branch: namespace, command name, body. */
    method ParseQuery() returns (r: Result<(), Fault>)
      modifies this`log, this`message, this`queryStr
      ensures old(log).Keys <= log.Keys
      ensures Follows(AfterQuery(old(Snapshot())), r, Snapshot())
    {
      var namespace :- Pop();
      log := log["namespace" := Str(namespace)];
      var command :- Pop();
      log := log["command" := Str(command)];
      var span :- GetCloseBrackets();
      queryStr := Some(Join(span));
      r := Success(());
    }

    /** The `getmore` branch: namespace, then a body unless `planSummary:` follows. */
    method ParseGetmore() returns (r: Result<(), Fault>)
      modifies this`log, this`message, this`queryStr
      ensures old(log).Keys <= log.Keys
      ensures Follows(AfterGetmore(old(Snapshot())), r, Snapshot())
    {
      var namespace :- Pop();
      log := log["namespace" := Str(namespace)];
      log := log["command" := Str("getmore")];
      if message == [] {
        return Failure(EmptyMessage);
      }
      if message[0] != "planSummary:" {
        message := message[1..];
        var span :- GetCloseBrackets();
        queryStr := Some(Join(span));
      }
      r := Success(());
    }

    /** The `planSummary:` branch: the plan, and for `IXSCAN` the index span. */
    method ParsePlanSummary() returns (r: Result<(), Fault>)
      modifies this`log, this`message
      ensures old(log).Keys <= log.Keys
      ensures Follows(AfterPlanSummary(old(Snapshot())), r, Snapshot())
    {
      var plan :- Pop();
      log := log["query_plan" := Str(plan)];
      if plan == "IXSCAN" {
        var span :- GetCloseBrackets();
        log := log["query_index" := Str(Join(span))];
      }
      r := Success(());
    }

    /** The `IXSCAN` branch: one more index span. */
    method ParseIxscan() returns (r: Result<(), Fault>)
      modifies this`log, this`message
      ensures old(log).Keys <= log.Keys
      ensures Follows(AfterIxscan(old(Snapshot())), r, Snapshot())
    {
      var span :- GetCloseBrackets();
      r := AddIndexMore(Join(span));
    }

    /** The `locks:{` branch: put the `{` back, take the span, hand it to the loader. */
    method ParseLocks(load: LocksLoader) returns (r: Result<(), Fault>)
      modifies this`log, this`message
      ensures old(log).Keys <= log.Keys
      ensures Follows(AfterLocks(old(Snapshot()), load), r, Snapshot())
    {
      message := ["{"] + message;
      var span :- GetCloseBrackets();
      match load(Join(span)) {
        case Some(doc) => log := log["locks" := Doc(doc)];
        case None =>
      }
      r := Success(());
    }

    /** The `exception:` branch. */
    method ParseException() returns (r: Result<(), Fault>)
      modifies this`log, this`message
      ensures old(log).Keys <= log.Keys
      ensures Follows(AfterException(old(Snapshot())), r, Snapshot())
    {
      log := log["exception" := Str("exception:")];
      r := ReadException();
    }

    /**
     * One pass of the loop in `Parse`: pop the front token and dispatch on
     * it, exactly as `Dispatch.Step` says; `true` when `serverStatus` ends
     * the parse.
     */
    method DispatchToken(load: LocksLoader) returns (r: Result<bool, Fault>)
      requires message != []
      modifies this`log, this`message, this`queryStr
      ensures old(log).Keys <= log.Keys
      ensures r.Success? <==> Step(old(Snapshot()), load).Success?
      ensures r.Success? ==>
        Step(old(Snapshot()), load).value == if r.value then Halt(Snapshot()) else Next(Snapshot())
      ensures r.Failure? ==> r.error == Step(old(Snapshot()), load).error
    {
      var token := message[0];
      message := message[1..];
      var done: Result<(), Fault>;
      if token == "warning:" {
        done := DropWarningOfTooLong();
      } else if token == "killcursors" {
        done := ParseKillcursors();
      } else if token == "command" {
        done := ParseCommand();
      } else if token == "query" {
        done := ParseQuery();
      } else if token == "getmore" {
        done := ParseGetmore();
      } else if token == "serverStatus" {
        log := log["command" := Str(token)];
        return Success(true);
      } else if token == "planSummary:" {
        done := ParsePlanSummary();
      } else if token == "IXSCAN" {
        done := ParseIxscan();
      } else if token == "locks:{" {
        done := ParseLocks(load);
      } else if token == "exception:" {
        done := ParseException();
      } else {
        done := SetField(token);
      }
      if done.Failure? {
        return Failure(done.error);
      }
      r := Success(false);
    }

    /**
     * `Parse`: a non-`COMMAND` line only gets `text`; otherwise the dispatch
     * loop runs until the message is empty (then the query string, if one
     * was captured, is normalised into `query_str`) or `serverStatus` ends it.
     */
    method Parse(load: LocksLoader) returns (r: Result<(), Fault>)
      requires Valid()
      modifies this`log, this`message, this`queryStr
      ensures r.Success? <==> ParseSpec(old(Snapshot()), tokens, load).Success?
      ensures r.Success? ==> Snapshot() == ParseSpec(old(Snapshot()), tokens, load).value
      ensures r.Failure? ==> r.error == ParseSpec(old(Snapshot()), tokens, load).error
      ensures Valid()
    {
      if log["type"] != Str("COMMAND") {
        log := log["text" := Str(Strip(Join(MessageTokens(tokens))))];
        return Success(());
      }
      ghost var start := Snapshot();
      while message != []
        invariant Run(Snapshot(), load) == Run(start, load)
        invariant Valid()
        decreases |message|
      {
        var halt :- DispatchToken(load);
        if halt {
          return Success(());
        }
      }
      var _ := DropIdsQueryStr();
      r := Success(());
    }
  }
}
