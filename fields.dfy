/**
 * The token-level patterns of parser.py: the `<digits>ms` duration, the
 * `code:<digits>` end of an exception, the generic `key:int` and
 * `key:str` matchers, and the two skip-to-marker scans.
 */
module Fields {

  import opened Wrappers
  import opened LogTypes
  import opened Text

  predicate NotColon(c: char) { c != ':' }

  /**
   * `re.match(r'(\d+)ms$', t)`: digits then `ms`, then the end of the token
   * or one final newline. The duration is the value of the digits.
   */
  function Duration(t: string): (r: Option<nat>)
    ensures var b := DropFinalNewline(t);
      r.Some? <==> (|b| > 2 && b[|b| - 2..] == "ms" && AllDigits(b[..|b| - 2]))
    ensures r.Some? ==>
      var b := DropFinalNewline(t);
      r.value == DecimalValue(b[..|b| - 2])
  {
    var b := DropFinalNewline(t);
    var d := LeadingRun(b, IsDigit);
    DigitsThenSuffix(b, d);
    if d > 0 && b[d..] == "ms" then
      Some(DecimalValue(b[..d]))
    else None
  }

  /** The digit run is followed by exactly `ms` iff the token is digits then `ms`. */
  lemma DigitsThenSuffix(b: string, d: nat)
    requires d == LeadingRun(b, IsDigit)
    ensures (d > 0 && b[d..] == "ms") <==> (|b| > 2 && b[|b| - 2..] == "ms" && AllDigits(b[..|b| - 2]))
    ensures d > 0 && b[d..] == "ms" ==> d == |b| - 2 && AllDigits(b[..d]) && b[..d] == b[..|b| - 2]
  {
    if |b| > 2 && b[|b| - 2..] == "ms" && AllDigits(b[..|b| - 2]) {
      DigitsBeforeSuffix(b);
    }
    if d > 0 && b[d..] == "ms" {
      SuffixAfterDigits(b, d);
    }
  }

  lemma DigitsBeforeSuffix(b: string)
    requires |b| > 2 && b[|b| - 2..] == "ms" && AllDigits(b[..|b| - 2])
    ensures LeadingRun(b, IsDigit) == |b| - 2
  {
    var digits := b[..|b| - 2];
    assert b == digits + "ms";
    LeadingRunOf(digits, "ms", IsDigit);
  }

  lemma SuffixAfterDigits(b: string, d: nat)
    requires d == LeadingRun(b, IsDigit) && d > 0 && b[d..] == "ms"
    ensures |b| == d + 2 && AllDigits(b[..d])
  {
    assert |b| == d + 2;
    assert forall i :: 0 <= i < d ==> IsDigit(b[..d][i]);
  }

  /** `re.match('^code:\d+$', t)`. */
  predicate IsCodeToken(t: string) {
    var b := DropFinalNewline(t);
    |b| > 5 && b[..5] == "code:" && AllDigits(b[5..])
  }

  /** `int()` of the leading digit run of `s`. */
  function LeadingValue(s: string): nat {
    var d := LeadingRun(s, IsDigit);
    assert AllDigits(s[..d]) by {
      assert forall i :: 0 <= i < d ==> s[..d][i] == s[i];
    }
    DecimalValue(s[..d])
  }

  /**
   * `re.match(r'([a-zA-z]+):([0-9]+)', t)`: the key and the value of the
   * digits. The match is anchored at the front only, so `foo:12abc` gives 12.
   */
  function MatchIntField(t: string): (r: Option<(string, nat)>)
    ensures r.Some? ==>
      var (key, n) := r.value;
      && key != [] && (forall i :: 0 <= i < |key| ==> IsKeyChar(key[i]))
      && |key| + 1 <= |t| && t[..|key| + 1] == key + ":"
      && LeadingRun(t[|key| + 1..], IsDigit) > 0
      && n == LeadingValue(t[|key| + 1..])
  {
    var k := LeadingRun(t, IsKeyChar);
    if 0 < k < |t| && t[k] == ':' then
      if LeadingRun(t[k + 1..], IsDigit) > 0 then
        assert t[..k + 1] == t[..k] + ":";
        Some((t[..k], LeadingValue(t[k + 1..])))
      else None
    else None
  }

  /**
   * `re.match(r'([a-zA-z]+):([^:]+)', t)`: the key and the longest non-empty
   * run of non-colon characters after it.
   */
  function MatchStrField(t: string): (r: Option<(string, string)>)
    ensures r.Some? ==>
      var (key, v) := r.value;
      && key != [] && (forall i :: 0 <= i < |key| ==> IsKeyChar(key[i]))
      && v != [] && ':' !in v
      && |key| + 1 + |v| <= |t| && t[..|key| + 1 + |v|] == key + ":" + v
      && (|key| + 1 + |v| == |t| || t[|key| + 1 + |v|] == ':')
  {
    var k := LeadingRun(t, IsKeyChar);
    if 0 < k < |t| && t[k] == ':' then
      var d := LeadingRun(t[k + 1..], NotColon);
      if d > 0 then
        var v := t[k + 1..k + 1 + d];
        assert v == t[k + 1..][..d];
        assert forall i :: 0 <= i < |v| ==> NotColon(v[i]);
        assert t[..k + 1 + d] == t[..k] + ":" + v;
        Some((t[..k], v))
      else None
    else None
  }

  /** A key of key characters followed by `:` is found as the key. */
  lemma KeyThenColon(key: string, v: string, t: string)
    requires key != [] && forall i :: 0 <= i < |key| ==> IsKeyChar(key[i])
    requires t == key + ":" + v
    ensures LeadingRun(t, IsKeyChar) == |key| && |key| < |t| && t[|key|] == ':'
    ensures t[..|key|] == key && t[|key| + 1..] == v
  {
    assert t == key + (":" + v);
    LeadingRunOf(key, ":" + v, IsKeyChar);
  }

  /** Both matchers accept every token built the way their pattern says. */
  lemma MatchIntFieldOn(key: string, digits: string, rest: string)
    requires key != [] && forall i :: 0 <= i < |key| ==> IsKeyChar(key[i])
    requires digits != [] && AllDigits(digits)
    requires rest == [] || !IsDigit(rest[0])
    ensures MatchIntField(key + ":" + digits + rest) == Some((key, DecimalValue(digits)))
  {
    var t := key + ":" + digits + rest;
    KeyThenColon(key, digits + rest, t);
    LeadingRunOf(digits, rest, IsDigit);
    SliceOfJoin(t, |key| + 1, digits, rest);
  }

  /** The part of `t` after `k` that is `a + b` holds `a` at its front. */
  lemma SliceOfJoin(t: string, k: nat, a: string, b: string)
    requires k <= |t| && t[k..] == a + b
    ensures k + |a| <= |t| && t[k..k + |a|] == a
  {
    assert t[k..k + |a|] == t[k..][..|a|];
  }

  lemma MatchStrFieldOn(key: string, v: string, rest: string)
    requires key != [] && forall i :: 0 <= i < |key| ==> IsKeyChar(key[i])
    requires v != [] && ':' !in v
    requires rest == [] || rest[0] == ':'
    ensures MatchStrField(key + ":" + v + rest) == Some((key, v))
  {
    var t := key + ":" + v + rest;
    KeyThenColon(key, v + rest, t);
    assert forall i :: 0 <= i < |v| ==> NotColon(v[i]);
    LeadingRunOf(v, rest, NotColon);
    SliceOfJoin(t, |key| + 1, v, rest);
  }

  /** A value that does not start with a digit is not taken by the integer form. */
  lemma MatchIntFieldMisses(key: string, v: string)
    requires key != [] && forall i :: 0 <= i < |key| ==> IsKeyChar(key[i])
    requires v == [] || !IsDigit(v[0])
    ensures MatchIntField(key + ":" + v) == None
  {
    KeyThenColon(key, v, key + ":" + v);
  }

  /**
   * `_drop_warning_of_too_long`: the tokens after the first `...`; `None`
   * when there is none (the `pop(0)` runs out).
   */
  function DropThroughMarker(msg: seq<string>): (r: Option<seq<string>>)
    ensures r.Some? <==> "..." in msg
    ensures r.Some? ==> MarkerBefore(msg, r.value)
  {
    if msg == [] then None
    else if msg[0] == "..." then
      assert msg[..0] == [];
      Some(msg[1..])
    else
      MemberOfTail(msg, "...");
      match DropThroughMarker(msg[1..])
      case None => None
      case Some(rest) =>
        MarkerStep(msg, rest);
        Some(rest)
  }

  /** `rest` is what follows the first `...` of `msg`. */
  predicate MarkerBefore(msg: seq<string>, rest: seq<string>) {
    var k := |msg| - |rest| - 1;
    && 0 <= k && msg[k] == "..." && msg[k + 1..] == rest
    && "..." !in msg[..k]
  }

  lemma MemberOfTail(msg: seq<string>, t: string)
    requires msg != []
    ensures (t in msg) <==> (msg[0] == t || t in msg[1..])
  {
    assert msg == [msg[0]] + msg[1..];
  }

  lemma MarkerStep(msg: seq<string>, rest: seq<string>)
    requires msg != [] && msg[0] != "..." && MarkerBefore(msg[1..], rest)
    ensures MarkerBefore(msg, rest)
  {
    var k := |msg| - |rest| - 1;
    assert msg[..k] == [msg[0]] + msg[1..][..k - 1];
  }

  /** The tokens each with one space in front, run together. */
  function SpacePrefixed(ts: seq<string>): string {
    if ts == [] then "" else " " + ts[0] + SpacePrefixed(ts[1..])
  }

  /** Putting a space before every token is the same as a leading space on the join. */
  lemma {:induction false} SpacePrefixedIsJoin(ts: seq<string>)
    ensures SpacePrefixed(ts) == if ts == [] then "" else " " + Join(ts)
  {
    if |ts| > 1 {
      SpacePrefixedIsJoin(ts[1..]);
    }
  }

  /**
   * The `exception:` loop: every token up to and including the first
   * `code:<digits>` one, each with a space in front, and what is left; a
   * fault when the tokens run out first.
   */
  function ExceptionTail(msg: seq<string>): (r: Result<(string, seq<string>), Fault>)
    ensures r.Failure? ==> r.error == EmptyMessage
    ensures r.Success? ==> |r.value.1| < |msg| && msg[|msg| - |r.value.1|..] == r.value.1
  {
    if msg == [] then Failure(EmptyMessage)
    else if IsCodeToken(msg[0]) then Success((" " + msg[0], msg[1..]))
    else
      match ExceptionTail(msg[1..])
      case Failure(e) => Failure(e)
      case Success((text, rest)) => Success((" " + msg[0] + text, rest))
  }

  /** `r` with `t` put in front of its text. */
  function Prepend(t: string, r: Result<(string, seq<string>), Fault>): Result<(string, seq<string>), Fault> {
    match r
    case Success((text, rest)) => Success((t + text, rest))
    case Failure(e) => Failure(e)
  }

  /** One token that does not end the exception adds itself, space first, to the text. */
  lemma ExceptionTailCons(msg: seq<string>)
    requires msg != [] && !IsCodeToken(msg[0])
    ensures ExceptionTail(msg) == Prepend(" " + msg[0], ExceptionTail(msg[1..]))
  {
  }

  /**
   * One pass of the `exception:` loop over `whole`, the scan still to
   * finish with `taken` already added: the popped token either ends it or
   * joins the text.
   */
  lemma ExceptionTailStep(whole: Result<(string, seq<string>), Fault>, taken: string, msg: seq<string>)
    requires msg != [] && whole == Prepend(taken, ExceptionTail(msg))
    ensures IsCodeToken(msg[0]) ==> whole == Success((taken + " " + msg[0], msg[1..]))
    ensures !IsCodeToken(msg[0]) ==> whole == Prepend(taken + " " + msg[0], ExceptionTail(msg[1..]))
  {
    if IsCodeToken(msg[0]) {
      assert taken + (" " + msg[0]) == taken + " " + msg[0];
    } else {
      ExceptionTailCons(msg);
      PrependTwice(taken, " " + msg[0], ExceptionTail(msg[1..]));
      assert taken + (" " + msg[0]) == taken + " " + msg[0];
    }
  }

  lemma PrependEmpty(r: Result<(string, seq<string>), Fault>)
    ensures Prepend("", r) == r
  {
    if r.Success? {
      assert "" + r.value.0 == r.value.0;
    }
  }

  lemma PrependTwice(a: string, b: string, r: Result<(string, seq<string>), Fault>)
    ensures Prepend(a, Prepend(b, r)) == Prepend(a + b, r)
  {
    if r.Success? {
      assert a + (b + r.value.0) == a + b + r.value.0;
    }
  }

  /** `code:<digits>`, with or without one final newline, ends an exception. */
  lemma CodeTokenOn(digits: string, nl: string)
    requires digits != [] && AllDigits(digits)
    requires nl == "" || nl == "\n"
    ensures IsCodeToken("code:" + digits + nl)
  {
    var t := "code:" + digits + nl;
    assert DropFinalNewline(t) == "code:" + digits;
    assert ("code:" + digits)[5..] == digits;
  }

  /** A token with anything after the digits but one newline does not end an exception. */
  lemma CodeTokenRejectsTail(digits: string, c: char)
    requires AllDigits(digits) && !IsDigit(c) && c != '\n'
    ensures !IsCodeToken("code:" + digits + [c])
  {
    var t := "code:" + digits + [c];
    assert DropFinalNewline(t) == t;
    assert t[5..][|t| - 6] == c;
  }

  /** The `exception:` scan fails iff no `code:<digits>` token is left. */
  lemma {:induction false} ExceptionTailFails(msg: seq<string>)
    ensures ExceptionTail(msg).Failure? <==> forall i :: 0 <= i < |msg| ==> !IsCodeToken(msg[i])
  {
    if msg != [] && !IsCodeToken(msg[0]) {
      var tail := msg[1..];
      ExceptionTailFails(tail);
      assert ExceptionTail(msg).Failure? == ExceptionTail(tail).Failure?;
      assert forall i :: 1 <= i < |msg| ==> msg[i] == tail[i - 1];
      assert forall i :: 0 <= i < |tail| ==> tail[i] == msg[i + 1];
    }
  }

  /** On success the `exception:` scan stops at a `code:<digits>` token. */
  lemma {:induction false} ExceptionTailStop(msg: seq<string>)
    requires ExceptionTail(msg).Success?
    ensures
      var k := |msg| - |ExceptionTail(msg).value.1| - 1;
      0 <= k < |msg| && IsCodeToken(msg[k])
  {
    if !IsCodeToken(msg[0]) {
      var tail := msg[1..];
      ExceptionTailStop(tail);
      ExceptionTailCons(msg);
      var k := |msg| - |ExceptionTail(tail).value.1| - 1;
      assert msg[k] == tail[k - 1];
    }
  }

  /** The token the `exception:` scan stops at is the first `code:<digits>` one. */
  lemma {:induction false} ExceptionTailFirst(msg: seq<string>)
    requires ExceptionTail(msg).Success?
    ensures
      var k := |msg| - |ExceptionTail(msg).value.1| - 1;
      forall i :: 0 <= i < k ==> !IsCodeToken(msg[i])
  {
    if !IsCodeToken(msg[0]) {
      var tail := msg[1..];
      ExceptionTailFirst(tail);
      ExceptionTailCons(msg);
      var k := |msg| - |ExceptionTail(tail).value.1| - 1;
      forall i | 1 <= i < k
        ensures !IsCodeToken(msg[i])
      {
        assert msg[i] == tail[i - 1];
      }
    }
  }

  /**
   * On success the text the `exception:` scan adds is every token through
   * the one it stops at, each with a space in front, and the rest is what
   * follows that token.
   */
  lemma {:induction false} ExceptionTailText(msg: seq<string>)
    requires ExceptionTail(msg).Success?
    ensures
      var k := |msg| - |ExceptionTail(msg).value.1| - 1;
      && ExceptionTail(msg).value.0 == SpacePrefixed(msg[..k + 1])
      && ExceptionTail(msg).value.1 == msg[k + 1..]
  {
    if !IsCodeToken(msg[0]) {
      var tail := msg[1..];
      ExceptionTailText(tail);
      var k := |msg| - |ExceptionTail(tail).value.1| - 1;
      assert msg[..k + 1] == [msg[0]] + tail[..k];
    } else {
      assert msg[..1] == [msg[0]];
    }
  }
}
