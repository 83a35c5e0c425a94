/**
 * `LogEvent.Parse` as a function on the parser's state: one step of the
 * keyword dispatcher, the loop that repeats it, and the whole parse with
 * the final normalisation of the query string.
 */
module Dispatch {

  import opened Wrappers
  import opened LogTypes
  import opened Text
  import opened Brackets
  import opened Fields
  import opened QueryNormaliser

  /** The state `Parse` changes: `self.log`, `self._message`, `self._query_str` (absent: `None`). */
  datatype Parsed = Parsed(log: map<string, Value>, message: seq<string>, queryStr: Option<string>)

  /** After one pass of the loop: go on, or stop at once (`serverStatus`). */
  datatype Flow = Next(st: Parsed) | Halt(st: Parsed)

  /** How the loop ended: the message ran out, or `serverStatus` returned. */
  datatype Ending = Exhausted(st: Parsed) | Halted(st: Parsed)

  /** A repeated `IXSCAN` span: appended to `query_index_more` unless it equals `query_index`. */
  function MoreIndex(log: map<string, Value>, more: string): (r: map<string, Value>)
    requires "query_index" in log
    ensures log[ "query_index"] == Str(more) ==> r == log
    ensures log["query_index"] != Str(more) ==>
      && r.Keys == log.Keys + {"query_index_more"}
      && (forall k :: k in log && k != "query_index_more" ==> r[k] == log[k])
      && r["query_index_more"] ==
           if "query_index_more" in log && log["query_index_more"].StrList?
           then StrList(log["query_index_more"].items + [more])
           else StrList([more])
  {
    if Str(more) == log["query_index"] then log
    else
      var list := if "query_index_more" in log then log["query_index_more"] else Str("");
      match list
      case StrList(items) => log["query_index_more" := StrList(items + [more])]
      case _ => log["query_index_more" := StrList([more])]
  }

  /** The generic fallback: `key:int`, else `key:str`, else one more fragment in `errors`. */
  function Fallback(log: map<string, Value>, token: string): (r: Result<map<string, Value>, Fault>)
    ensures r.Success? ==> log.Keys <= r.value.Keys
    ensures MatchIntField(token).Some? ==>
      r == Success(log[MatchIntField(token).value.0 := Int(MatchIntField(token).value.1)])
    ensures MatchIntField(token).None? && MatchStrField(token).Some? ==>
      r == Success(log[MatchStrField(token).value.0 := Str(MatchStrField(token).value.1)])
    ensures MatchIntField(token).None? && MatchStrField(token).None? ==>
      if "errors" !in log then r == Success(log["errors" := Str(" " + token)])
      else if log["errors"].Str? then r == Success(log["errors" := Str(log["errors"].s + " " + token)])
      else r == Failure(NotAString("errors"))
  {
    match MatchIntField(token)
    case Some((key, n)) => Success(log[key := Int(n)])
    case None =>
      match MatchStrField(token)
      case Some((key, v)) => Success(log[key := Str(v)])
      case None =>
        if "errors" !in log then Success(log["errors" := Str(" " + token)])
        else if log["errors"].Str? then Success(log["errors" := Str(log["errors"].s + " " + token)])
        else Failure(NotAString("errors"))
  }

  /** `self.log['locks'] = yaml.load(...)`, kept only when the loader succeeds. */
  function WithLocks(log: map<string, Value>, doc: Option<Yaml>): (r: map<string, Value>)
    ensures doc.None? ==> r == log
    ensures doc.Some? ==>
      && r.Keys == log.Keys + {"locks"} && r["locks"] == Doc(doc.value)
      && forall k :: k in log && k != "locks" ==> r[k] == log[k]
  {
    match doc
    case Some(y) => log["locks" := Doc(y)]
    case None => log
  }

  /** A branch of the dispatcher consumes tokens, keeps every key, and lets the loop go on. */
  predicate Advances(p: Parsed, r: Result<Flow, Fault>) {
    r.Success? ==> r.value.Next? && |r.value.st.message| <= |p.message| && p.log.Keys <= r.value.st.log.Keys
  }

  /** Capture the brace span at the front of `p`'s message as the query string. */
  function QueryBody(p: Parsed): (r: Result<Flow, Fault>)
    ensures Advances(p, r)
    ensures r.Success? <==> CloseBrackets(p.message).Success?
    ensures r.Success? ==>
      && r.value.st.queryStr == Some(Join(CloseBrackets(p.message).value.0))
      && r.value.st.message == CloseBrackets(p.message).value.1
      && r.value.st.log == p.log
  {
    match CloseBrackets(p.message)
    case Failure(e) => Failure(e)
    case Success((span, after)) => Success(Next(Parsed(p.log, after, Some(Join(span)))))
  }

  // Each branch below acts on the state `p` left after the keyword was popped.

  /** `warning:`: skip through the first `...`. */
  function AfterWarning(p: Parsed): (r: Result<Flow, Fault>)
    ensures Advances(p, r)
    ensures r.Success? ==> |r.value.st.message| < |p.message|
  {
    match DropThroughMarker(p.message)
    case None => Failure(EmptyMessage)
    case Some(after) => Success(Next(p.(message := after)))
  }

  /** `killcursors <namespace>`. */
  function AfterKillcursors(p: Parsed): (r: Result<Flow, Fault>)
    ensures Advances(p, r)
    ensures r.Success? ==> |r.value.st.message| < |p.message|
  {
    if p.message == [] then Failure(EmptyMessage)
    else
      var log := p.log["namespace" := Str(p.message[0])]["command" := Str("killcursors")];
      Success(Next(p.(log := log, message := p.message[1..])))
  }

  /** `command <namespace> command: <name> {...}`. */
  function AfterCommand(p: Parsed): (r: Result<Flow, Fault>)
    ensures Advances(p, r)
    ensures r.Success? ==> |r.value.st.message| < |p.message|
  {
    var m := p.message;
    if |m| < 3 then Failure(EmptyMessage)
    else QueryBody(p.(log := p.log["namespace" := Str(m[0])]["command" := Str(m[2])], message := m[3..]))
  }

  /** `query <namespace> <name> {...}`. */
  function AfterQuery(p: Parsed): (r: Result<Flow, Fault>)
    ensures Advances(p, r)
    ensures r.Success? ==> |r.value.st.message| < |p.message|
  {
    var m := p.message;
    if |m| < 2 then Failure(EmptyMessage)
    else QueryBody(p.(log := p.log["namespace" := Str(m[0])]["command" := Str(m[1])], message := m[2..]))
  }

  /** `getmore <namespace>`, then a query body unless `planSummary:` comes next. */
  function AfterGetmore(p: Parsed): (r: Result<Flow, Fault>)
    ensures Advances(p, r)
    ensures r.Success? ==> |r.value.st.message| < |p.message|
  {
    var m := p.message;
    if |m| < 2 then Failure(EmptyMessage)
    else
      var log := p.log["namespace" := Str(m[0])]["command" := Str("getmore")];
      if m[1] == "planSummary:" then Success(Next(p.(log := log, message := m[1..])))
      else QueryBody(p.(log := log, message := m[2..]))
  }

  /** `planSummary: <plan>`, and for `IXSCAN` the index span. */
  function AfterPlanSummary(p: Parsed): (r: Result<Flow, Fault>)
    ensures Advances(p, r)
    ensures r.Success? ==> |r.value.st.message| < |p.message|
  {
    var m := p.message;
    if m == [] then Failure(EmptyMessage)
    else
      var log := p.log["query_plan" := Str(m[0])];
      if m[0] != "IXSCAN" then Success(Next(p.(log := log, message := m[1..])))
      else
        match CloseBrackets(m[1..])
        case Failure(e) => Failure(e)
        case Success((span, after)) => Success(Next(p.(log := log["query_index" := Str(Join(span))], message := after)))
  }

  /** `IXSCAN {...}` after the first: a further index span. */
  function AfterIxscan(p: Parsed): (r: Result<Flow, Fault>)
    ensures Advances(p, r)
  {
    match CloseBrackets(p.message)
    case Failure(e) => Failure(e)
    case Success((span, after)) =>
      if "query_index" !in p.log then Failure(MissingKey("query_index"))
      else Success(Next(p.(log := MoreIndex(p.log, Join(span)), message := after)))
  }

  /** `locks:{ ... }`: the block, with its `{` put back, given to the loader. */
  function AfterLocks(p: Parsed, load: LocksLoader): (r: Result<Flow, Fault>)
    ensures Advances(p, r)
    ensures r.Success? ==> |r.value.st.message| < |p.message|
  {
    match CloseBrackets(["{"] + p.message)
    case Failure(e) => Failure(e)
    case Success((span, after)) => Success(Next(p.(log := WithLocks(p.log, load(Join(span))), message := after)))
  }

  /** `exception: ... code:<digits>`. */
  function AfterException(p: Parsed): (r: Result<Flow, Fault>)
    ensures Advances(p, r)
    ensures r.Success? ==> |r.value.st.message| < |p.message|
  {
    match ExceptionTail(p.message)
    case Failure(e) => Failure(e)
    case Success((text, after)) => Success(Next(p.(log := p.log["exception" := Str("exception:" + text)], message := after)))
  }

  /** Any other token: the generic fallback. */
  function AfterOther(token: string, p: Parsed): (r: Result<Flow, Fault>)
    ensures Advances(p, r)
  {
    match Fallback(p.log, token)
    case Failure(e) => Failure(e)
    case Success(log) => Success(Next(p.(log := log)))
  }

  /**
   * One pass of the `while len(self._message) > 0` loop: pop the front token
   * and act on it. Every pass consumes at least one token and drops no key.
   */
  function Step(st: Parsed, load: LocksLoader): (r: Result<Flow, Fault>)
    requires st.message != []
    ensures r.Success? ==> |r.value.st.message| < |st.message|
    ensures r.Success? ==> st.log.Keys <= r.value.st.log.Keys
    ensures r.Success? && r.value.Halt? <==> st.message[0] == "serverStatus"
    ensures r.Success? && r.value.Halt? ==>
      r.value.st == Parsed(st.log["command" := Str("serverStatus")], st.message[1..], st.queryStr)
  {
    var token, p := st.message[0], st.(message := st.message[1..]);
    if token == "warning:" then AfterWarning(p)
    else if token == "killcursors" then AfterKillcursors(p)
    else if token == "command" then AfterCommand(p)
    else if token == "query" then AfterQuery(p)
    else if token == "getmore" then AfterGetmore(p)
    else if token == "serverStatus" then Success(Halt(p.(log := p.log["command" := Str(token)])))
    else if token == "planSummary:" then AfterPlanSummary(p)
    else if token == "IXSCAN" then AfterIxscan(p)
    else if token == "locks:{" then AfterLocks(p, load)
    else if token == "exception:" then AfterException(p)
    else AfterOther(token, p)
  }

  /**
   * The dispatch loop. It ends with an empty message, or on `serverStatus`
   * with `command` set to it and the rest of the message unconsumed; it
   * never drops a key of the record.
   */
  function Run(st: Parsed, load: LocksLoader): (r: Result<Ending, Fault>)
    ensures r.Success? && r.value.Exhausted? ==> r.value.st.message == []
    ensures r.Success? && r.value.Halted? ==>
      && "command" in r.value.st.log && r.value.st.log["command"] == Str("serverStatus")
      && |r.value.st.message| < |st.message|
    ensures r.Success? ==> st.log.Keys <= r.value.st.log.Keys
    decreases |st.message|
  {
    if st.message == [] then Success(Exhausted(st))
    else
      match Step(st, load)
      case Failure(e) => Failure(e)
      case Success(Halt(st')) => Success(Halted(st'))
      case Success(Next(st')) => Run(st', load)
  }

  /** After the loop ran out: `_drop_ids_query_str`, which does nothing without a query string. */
  function Finish(st: Parsed): (r: Parsed)
    ensures r.message == st.message
    ensures st.queryStr.None? ==> r == st
    ensures st.queryStr.Some? ==>
      && r.queryStr == Some(Normalise(st.queryStr.value))
      && r.log.Keys == st.log.Keys + {"query_str"} && r.log["query_str"] == Str(r.queryStr.value)
      && (forall k :: k in st.log && k != "query_str" ==> r.log[k] == st.log[k])
      && ReplaceIn(r.queryStr.value) == r.queryStr.value
      && ReplaceObjectId(r.queryStr.value) == r.queryStr.value
  {
    match st.queryStr
    case None => st
    case Some(q) =>
      var n := Normalise(q);
      Parsed(st.log["query_str" := Str(n)], st.message, Some(n))
  }

  /** `self.tokens[4:]`. */
  function MessageTokens(tokens: seq<string>): (r: seq<string>)
    ensures |tokens| >= 4 ==> tokens == tokens[..4] + r
    ensures |tokens| < 4 ==> r == []
  {
    if |tokens| >= 4 then tokens[4..] else []
  }

  /**
   * The whole of `Parse` on a state whose record has a `type`. It drops no
   * key, and a `COMMAND` line keeps unconsumed tokens only when
   * `serverStatus` stopped the loop.
   */
  function ParseSpec(st: Parsed, tokens: seq<string>, load: LocksLoader): (r: Result<Parsed, Fault>)
    requires "type" in st.log
    ensures r.Success? ==> st.log.Keys <= r.value.log.Keys
    ensures r.Success? && st.log["type"] == Str("COMMAND") && r.value.message != [] ==>
      "command" in r.value.log && r.value.log["command"] == Str("serverStatus")
  {
    if st.log["type"] != Str("COMMAND") then
      Success(st.(log := st.log["text" := Str(Strip(Join(MessageTokens(tokens))))]))
    else
      match Run(st, load)
      case Failure(e) => Failure(e)
      case Success(Halted(st')) => Success(st')
      case Success(Exhausted(st')) => Success(Finish(st'))
  }
}
