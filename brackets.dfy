/**
 * The brace-balanced span extractor, `LogEvent._get_close_brackets`, as a
 * function on the message tokens, with the balance facts it guarantees.
 */
module Brackets {

  import opened Wrappers
  import opened LogTypes

  /** A token that closes one level: `}` or `},`. */
  predicate IsCloser(t: string) { t == "}" || t == "}," }

  /** How many `{` tokens `s` holds (counted from the back, to suit prefixes). */
  function Opens(s: seq<string>): nat {
    if s == [] then 0
    else Opens(s[..|s| - 1]) + (if s[|s| - 1] == "{" then 1 else 0)
  }

  /** How many `}` and `},` tokens `s` holds. */
  function Closers(s: seq<string>): nat {
    if s == [] then 0
    else Closers(s[..|s| - 1]) + (if IsCloser(s[|s| - 1]) then 1 else 0)
  }

  /**
   * The scan of the `while count != 0` loop: starting at index `i` with
   * nesting `depth`, the index of the closing token that brings the depth
   * to zero, or `None` when the tokens run out first.
   */
  function CloseFrom(msg: seq<string>, i: nat, depth: nat): (r: Option<nat>)
    requires depth > 0
    ensures r.Some? ==> i <= r.value < |msg| && IsCloser(msg[r.value])
    decreases |msg| - i
  {
    if i >= |msg| then None
    else if msg[i] == "{" then CloseFrom(msg, i + 1, depth + 1)
    else if IsCloser(msg[i]) then
      if depth == 1 then Some(i) else CloseFrom(msg, i + 1, depth - 1)
    else CloseFrom(msg, i + 1, depth)
  }

  /**
   * `_get_close_brackets` on the message `msg`: the span (with its last
   * token replaced by a clean `}`) and the tokens left after it. No `{` in
   * front gives the empty span and leaves `msg` as it is.
   */
  function CloseBrackets(msg: seq<string>): (r: Result<(seq<string>, seq<string>), Fault>)
    ensures r.Success? ==> |r.value.0| + |r.value.1| == |msg|
    ensures r.Success? && msg != [] && msg[0] == "{" ==> |r.value.0| >= 2
  {
    if msg == [] then Failure(EmptyMessage)
    else if msg[0] != "{" then Success(([], msg))
    else match CloseFrom(msg, 1, 1)
      case None => Failure(UnterminatedBrace)
      case Some(idx) => Success((msg[..idx] + ["}"], msg[idx + 1..]))
  }

  lemma PrefixStep(msg: seq<string>, i: nat)
    requires i < |msg|
    ensures Opens(msg[..i + 1]) == Opens(msg[..i]) + (if msg[i] == "{" then 1 else 0)
    ensures Closers(msg[..i + 1]) == Closers(msg[..i]) + (if IsCloser(msg[i]) then 1 else 0)
  {
    assert msg[..i + 1][..i] == msg[..i];
  }

  /**
   * The scan tracks the real nesting depth: when it stops at `j` the prefix
   * up to and including `j` is balanced and every longer-than-`i` prefix
   * before it is still open; when it finds nothing, every prefix is open.
   */
  lemma {:induction false} CloseFromBalance(msg: seq<string>, i: nat, depth: nat)
    requires 0 < i <= |msg| && depth > 0
    requires Opens(msg[..i]) == Closers(msg[..i]) + depth
    ensures CloseFrom(msg, i, depth).Some? ==>
      var j := CloseFrom(msg, i, depth).value;
      && Opens(msg[..j + 1]) == Closers(msg[..j + 1])
      && forall k :: i <= k <= j ==> Opens(msg[..k]) > Closers(msg[..k])
    ensures CloseFrom(msg, i, depth).None? ==>
      forall k :: i <= k <= |msg| ==> Opens(msg[..k]) > Closers(msg[..k])
    decreases |msg| - i
  {
    if i < |msg| {
      PrefixStep(msg, i);
      var d' := if msg[i] == "{" then depth + 1 else if IsCloser(msg[i]) then depth - 1 else depth;
      assert Opens(msg[..i + 1]) == Closers(msg[..i + 1]) + d';
      if d' > 0 {
        assert CloseFrom(msg, i, depth) == CloseFrom(msg, i + 1, d');
        CloseFromBalance(msg, i + 1, d');
      } else {
        assert CloseFrom(msg, i, depth) == Some(i);
      }
    }
  }

  /**
   * What the extractor returns. On success either there is no body (the
   * front token is not `{` and nothing is consumed), or the span starts with
   * `{`, ends with `}`, and the old message is the span with its last token
   * put back as the original closer, followed by the new message. The span
   * is balanced and every proper non-empty prefix of it is still open. It
   * fails only on an empty message, or when every prefix stays open.
   */
  lemma CloseBracketsSpec(msg: seq<string>)
    ensures CloseBrackets(msg).Success? ==>
      var (span, rest) := CloseBrackets(msg).value;
      || (span == [] && rest == msg && msg != [] && msg[0] != "{")
      || (&& |span| >= 2 && span[0] == "{" && span[|span| - 1] == "}"
          && |span| + |rest| == |msg|
          && IsCloser(msg[|span| - 1])
          && msg == span[..|span| - 1] + [msg[|span| - 1]] + rest
          && Opens(span) == Closers(span)
          && forall k :: 0 < k < |span| ==> Opens(span[..k]) > Closers(span[..k]))
    ensures CloseBrackets(msg).Failure? ==>
      || (CloseBrackets(msg).error == EmptyMessage && msg == [])
      || (&& CloseBrackets(msg).error == UnterminatedBrace && msg[0] == "{"
          && forall k :: 0 < k <= |msg| ==> Opens(msg[..k]) > Closers(msg[..k]))
  {
    if msg != [] && msg[0] == "{" {
      FirstOpen(msg);
      CloseFromBalance(msg, 1, 1);
      if CloseFrom(msg, 1, 1).Some? {
        SpanShape(msg, CloseFrom(msg, 1, 1).value);
      }
    }
  }

  lemma FirstOpen(msg: seq<string>)
    requires msg != [] && msg[0] == "{"
    ensures Opens(msg[..1]) == 1 && Closers(msg[..1]) == 0
  {
    assert msg[..1][..0] == [];
  }

  /** The span through the closer at `idx`, with that closer cleaned to `}`. */
  lemma SpanShape(msg: seq<string>, idx: nat)
    requires 0 < idx < |msg| && msg[0] == "{" && IsCloser(msg[idx])
    requires Opens(msg[..idx + 1]) == Closers(msg[..idx + 1])
    requires forall k :: 1 <= k <= idx ==> Opens(msg[..k]) > Closers(msg[..k])
    ensures var span := msg[..idx] + ["}"];
      && |span| >= 2 && span[0] == "{" && span[|span| - 1] == "}"
      && msg == span[..|span| - 1] + [msg[|span| - 1]] + msg[idx + 1..]
      && Opens(span) == Closers(span)
      && forall k :: 0 < k < |span| ==> Opens(span[..k]) > Closers(span[..k])
  {
    var span := msg[..idx] + ["}"];
    assert span[..idx] == msg[..idx];
    SpanCounts(msg, idx, span);
    CutAt(msg, idx);
    forall k | 0 < k < |span|
      ensures Opens(span[..k]) > Closers(span[..k])
    {
      assert span[..k] == msg[..k];
    }
  }

  lemma SpanCounts(msg: seq<string>, idx: nat, span: seq<string>)
    requires idx < |msg| && IsCloser(msg[idx]) && span == msg[..idx] + ["}"]
    requires Opens(msg[..idx + 1]) == Closers(msg[..idx + 1])
    ensures Opens(span) == Closers(span)
  {
    assert span[..idx] == msg[..idx];
    PrefixStep(msg, idx);
  }

  lemma CutAt(msg: seq<string>, idx: nat)
    requires idx < |msg|
    ensures msg == msg[..idx] + [msg[idx]] + msg[idx + 1..]
  {
  }
}
