/**
 * The query-string normaliser, `LogEvent._drop_ids_query_str`: two
 * `re.sub` calls, each a left-to-right scan that replaces every match and
 * copies every other character.
 */
module QueryNormaliser {

  import opened Text

  const InHead: string := "$in: ["
  const InPlaceholder: string := "$in: [...]"
  const IdHead: string := "ObjectId('"
  const IdPlaceholder: string := "ObjectId(...)"

  predicate NotRBracket(c: char) { c != ']' }
  predicate NotDollar(c: char) { c != '$' }
  predicate NotCapitalO(c: char) { c != 'O' }

  /** `\$in: \[[^\]]+\]` matches at the front of `s`. */
  predicate InListAt(s: string) {
    |s| > 6 && s[..6] == InHead && s[6] != ']' && ']' in s[7..]
  }

  /** A run of `p` that meets a character outside `p` stops short of the end. */
  lemma RunStopsAt(s: string, p: char -> bool, c: char)
    requires c in s && !p(c)
    ensures LeadingRun(s, p) < |s|
  {
    var j :| 0 <= j < |s| && s[j] == c;
    assert LeadingRun(s, p) <= j;
  }

  /** Length of the `$in` match: the head, the longest `]`-free run, the `]`. */
  function InListLength(s: string): (n: nat)
    requires InListAt(s)
    ensures 7 < n <= |s| && s[n - 1] == ']'
    ensures forall i :: 6 <= i < n - 1 ==> s[i] != ']'
  {
    var t := s[6..];
    assert ']' in t by {
      var j :| 0 <= j < |s[7..]| && s[7..][j] == ']';
      assert t[j + 1] == ']';
    }
    RunStopsAt(t, NotRBracket, ']');
    var x := LeadingRun(t, NotRBracket);
    assert t[0] == s[6];
    assert forall i :: 6 <= i < 6 + x ==> s[i] == t[i - 6];
    6 + x + 1
  }

  /** `re.sub(r'\$in: \[[^\]]+\]', '$in: [...]', s)`. */
  function ReplaceIn(s: string): (r: string)
    ensures (']' in r) <==> (']' in s)
    ensures s == [] <==> r == []
    ensures s != [] ==> r[0] == s[0]
    decreases |s|
  {
    if s == [] then []
    else if InListAt(s) then
      var n := InListLength(s);
      assert InPlaceholder[9] == ']';
      InPlaceholder + ReplaceIn(s[n..])
    else
      assert s == [s[0]] + s[1..];
      [s[0]] + ReplaceIn(s[1..])
  }

  /** `ObjectId\('[0-9a-f]{24}'\)` matches at the front of `s`; the match is 36 long. */
  predicate ObjectIdAt(s: string) {
    && |s| >= 36 && s[..10] == IdHead
    && (forall i :: 10 <= i < 34 ==> IsHexLower(s[i]))
    && s[34] == '\'' && s[35] == ')'
  }

  /** A match holds no `]`, no `$`, and no `O` after its first character. */
  lemma ObjectIdChars(s: string)
    requires ObjectIdAt(s)
    ensures forall i :: 0 <= i < 36 ==> s[i] != ']' && s[i] != '$'
    ensures forall i :: 0 < i < 36 ==> s[i] != 'O'
  {
    assert s[0] == 'O' && s[1] == 'b' && s[2] == 'j' && s[3] == 'e' && s[4] == 'c';
    assert s[5] == 't' && s[6] == 'I' && s[7] == 'd' && s[8] == '(' && s[9] == '\'';
  }

  /** Whether a match is at the front depends on the first 36 characters only. */
  lemma ObjectIdPrefix(a: string, b: string)
    requires |a| >= 36 && |b| >= 36 && a[..36] == b[..36]
    ensures ObjectIdAt(a) == ObjectIdAt(b)
  {
    assert a[..10] == a[..36][..10] && b[..10] == b[..36][..10];
    assert forall i :: 0 <= i < 36 ==> a[i] == a[..36][i] && b[i] == b[..36][i];
  }

  /** `re.sub(r"ObjectId\('[0-9a-f]{24}'\)", 'ObjectId(...)', s)`. */
  function ReplaceObjectId(s: string): (r: string)
    ensures (']' in r) <==> (']' in s)
    ensures s == [] <==> r == []
    ensures s != [] ==> r[0] == s[0]
    decreases |s|
  {
    if s == [] then []
    else if ObjectIdAt(s) then
      ObjectIdChars(s);
      assert s == s[..36] + s[36..];
      assert ']' !in IdPlaceholder;
      IdPlaceholder + ReplaceObjectId(s[36..])
    else
      assert s == [s[0]] + s[1..];
      [s[0]] + ReplaceObjectId(s[1..])
  }

  /**
   * The whole normalisation: the `$in` lists first, then the object ids.
   * Its result is left alone by either pass, because each pass is
   * idempotent and the two commute.
   */
  function Normalise(s: string): (r: string)
    ensures ReplaceIn(r) == r && ReplaceObjectId(r) == r
  {
    var u := ReplaceIn(s);
    PassesCommute(u);
    ReplaceInIdempotent(s);
    ReplaceObjectIdIdempotent(u);
    ReplaceObjectId(u)
  }

  // ---- Copying stretches that cannot start a match ----

  lemma {:induction false} InCopy(p: string, v: string)
    requires '$' !in p
    ensures ReplaceIn(p + v) == p + ReplaceIn(v)
    decreases |p|
  {
    if p != [] {
      assert (p + v)[0] == p[0] && (p + v)[1..] == p[1..] + v;
      assert !InListAt(p + v);
      InCopy(p[1..], v);
      assert p == [p[0]] + p[1..];
      assert ReplaceIn(p + v) == [p[0]] + ReplaceIn(p[1..] + v);
    } else {
      assert p + v == v;
    }
  }

  lemma {:induction false} IdCopy(p: string, v: string)
    requires 'O' !in p
    ensures ReplaceObjectId(p + v) == p + ReplaceObjectId(v)
    decreases |p|
  {
    if p != [] {
      assert (p + v)[0] == p[0] && (p + v)[1..] == p[1..] + v;
      assert !ObjectIdAt(p + v);
      IdCopy(p[1..], v);
      assert p == [p[0]] + p[1..];
      assert ReplaceObjectId(p + v) == [p[0]] + ReplaceObjectId(p[1..] + v);
    } else {
      assert p + v == v;
    }
  }

  /** The scan keeps every character before the first `$`. */
  lemma InAgree(v: string, k: nat)
    requires k <= |v| && '$' !in v[..k]
    ensures ReplaceIn(v) == v[..k] + ReplaceIn(v[k..])
  {
    assert v == v[..k] + v[k..];
    InCopy(v[..k], v[k..]);
  }

  lemma IdAgree(v: string, k: nat)
    requires k <= |v| && 'O' !in v[..k]
    ensures ReplaceObjectId(v) == v[..k] + ReplaceObjectId(v[k..])
  {
    assert v == v[..k] + v[k..];
    IdCopy(v[..k], v[k..]);
  }

  lemma NoneBefore(v: string, p: char -> bool, c: char, k: nat)
    requires k <= LeadingRun(v, p)
    requires forall x :: p(x) <==> x != c
    ensures c !in v[..k]
  {
    assert forall i :: 0 <= i < k ==> p(v[..k][i]);
  }

  // ---- The replacement text is a fixed point ----

  /** Every `$in: [X]` with `X` non-empty and `]`-free becomes `$in: [...]`. */
  lemma InListReplaced(x: string, v: string)
    requires x != [] && ']' !in x
    ensures ReplaceIn(InHead + x + "]" + v) == InPlaceholder + ReplaceIn(v)
  {
    var s := InHead + x + "]" + v;
    assert s[..6] == InHead && s[6] == x[0];
    assert s[7..][|x| - 1] == ']';
    assert s[6..] == x + ("]" + v);
    assert forall i :: 0 <= i < |x| ==> NotRBracket(x[i]);
    LeadingRunOf(x, "]" + v, NotRBracket);
    assert InListLength(s) == 6 + |x| + 1;
    assert s[6 + |x| + 1..] == v;
  }

  /** Every `ObjectId('<24 lower-case hex digits>')` becomes `ObjectId(...)`. */
  lemma ObjectIdReplaced(h: string, v: string)
    requires |h| == 24 && forall i :: 0 <= i < 24 ==> IsHexLower(h[i])
    ensures ReplaceObjectId(IdHead + h + "')" + v) == IdPlaceholder + ReplaceObjectId(v)
  {
    var s := IdHead + h + "')" + v;
    assert s[..10] == IdHead;
    assert forall i :: 10 <= i < 34 ==> s[i] == h[i - 10];
    assert s[36..] == v;
  }

  lemma InPlaceholderFixed(v: string)
    ensures ReplaceIn(InPlaceholder + v) == InPlaceholder + ReplaceIn(v)
  {
    assert InPlaceholder + v == InHead + "..." + "]" + v;
    InListReplaced("...", v);
  }

  lemma IdPlaceholderFixed(v: string)
    ensures ReplaceObjectId(IdPlaceholder + v) == IdPlaceholder + ReplaceObjectId(v)
  {
    var tail := "bjectId(...)";
    assert IdPlaceholder == ['O'] + tail;
    PlaceholderNotId(v);
    IdCopyAfter(IdPlaceholder + v, IdPlaceholder, 'O', tail, v);
  }

  /** A character that starts no match is copied, and so is an `O`-free stretch after it. */
  lemma IdCopyAfter(s: string, q: string, h: char, p: string, v: string)
    requires q == [h] + p && s == q + v && !ObjectIdAt(s) && 'O' !in p
    ensures ReplaceObjectId(s) == q + ReplaceObjectId(v)
  {
    assert s[1..] == p + v;
    IdCopy(p, v);
  }

  lemma PlaceholderNotId(v: string)
    ensures !ObjectIdAt(IdPlaceholder + v)
  {
    assert (IdPlaceholder + v)[9] == '.';
  }

  // ---- A scan never creates or destroys a match at a character it copies ----

  lemma InHeadChars(s: string)
    requires InListAt(s)
    ensures forall i :: 0 < i < 6 ==> s[i] != '$' && s[i] != 'O'
  {
    assert forall i :: 0 <= i < 6 ==> s[i] == InHead[i];
  }

  /** What must follow `$in: [` for a match: a non-`]` character, then a `]` somewhere. */
  predicate InListTail(z: string) {
    z != [] && z[0] != ']' && ']' in z[1..]
  }

  lemma InListShape(c: char, a: string, z: string)
    requires |a| == 5
    ensures InListAt([c] + a + z) <==> (c == '$' && a == "in: [" && InListTail(z))
  {
    var s := [c] + a + z;
    assert s[..6] == [c] + a;
    assert InHead == ['$'] + "in: [";
    assert ([c] + a == InHead) <==> (c == '$' && a == "in: [") by {
      if [c] + a == InHead { assert a == ([c] + a)[1..]; }
    }
    if z != [] {
      assert s[6] == z[0] && s[7..] == z[1..];
    }
  }

  lemma InTailIn(z: string)
    ensures InListTail(ReplaceIn(z)) <==> InListTail(z)
  {
    if InListAt(z) {
      var n := InListLength(z);
      assert z[1..][n - 2] == ']';
      assert ReplaceIn(z)[1..][8] == ']';
    } else if z != [] {
      assert ReplaceIn(z)[1..] == ReplaceIn(z[1..]);
    }
  }

  lemma InTailId(z: string)
    ensures InListTail(ReplaceObjectId(z)) <==> InListTail(z)
  {
    if ObjectIdAt(z) {
      var r := ReplaceObjectId(z[36..]);
      assert ReplaceObjectId(z)[1..] == IdPlaceholder[1..] + r;
      assert ']' !in IdPlaceholder[1..];
      MemberAfter(IdPlaceholder[1..], r, ']');
      ObjectIdChars(z);
      assert z[1..] == z[1..36] + z[36..];
      MemberAfter(z[1..36], z[36..], ']');
    } else if z != [] {
      assert ReplaceObjectId(z)[1..] == ReplaceObjectId(z[1..]);
    }
  }

  lemma MemberAfter(a: string, b: string, c: char)
    requires c !in a
    ensures (c in a + b) <==> (c in b)
  {
  }

  /** `$in` matches are unchanged by a `$in` pass over what follows the first character. */
  lemma InAfterIn(c: char, v: string)
    ensures InListAt([c] + ReplaceIn(v)) <==> InListAt([c] + v)
  {
    var j := LeadingRun(v, NotDollar);
    if j >= 5 {
      NoneBefore(v, NotDollar, '$', 5);
      InAfterInLong(c, v);
    } else if j == |v| {
      NoneBefore(v, NotDollar, '$', j);
      InAgree(v, j);
      assert v[..j] == v;
    } else {
      InAfterInDollar(c, v, j);
    }
  }

  lemma InAfterInLong(c: char, v: string)
    requires |v| >= 5 && '$' !in v[..5]
    ensures InListAt([c] + ReplaceIn(v)) <==> InListAt([c] + v)
  {
    InShapeOf(c, v);
    InShapeAfterIn(c, v);
    InTailIn(v[5..]);
  }

  lemma InShapeOf(c: char, v: string)
    requires |v| >= 5
    ensures InListAt([c] + v) == (c == '$' && v[..5] == "in: [" && InListTail(v[5..]))
  {
    assert [c] + v == [c] + v[..5] + v[5..];
    InListShape(c, v[..5], v[5..]);
  }

  lemma InShapeAfterIn(c: char, v: string)
    requires |v| >= 5 && '$' !in v[..5]
    ensures InListAt([c] + ReplaceIn(v)) == (c == '$' && v[..5] == "in: [" && InListTail(ReplaceIn(v[5..])))
  {
    InAgree(v, 5);
    InShapeOfJoin(c, v[..5], ReplaceIn(v[5..]), ReplaceIn(v));
  }

  lemma InShapeOfJoin(c: char, a: string, z: string, w: string)
    requires |a| == 5 && w == a + z
    ensures InListAt([c] + w) == (c == '$' && a == "in: [" && InListTail(z))
  {
    assert [c] + w == [c] + a + z;
    InListShape(c, a, z);
  }

  lemma InAfterInDollar(c: char, v: string, j: nat)
    requires j < 5 && j < |v| && v[j] == '$' && '$' !in v[..j]
    ensures !InListAt([c] + ReplaceIn(v)) && !InListAt([c] + v)
  {
    InKeepsChar(v, j);
    InBlockedAt(c, ReplaceIn(v), j);
    InBlockedAt(c, v, j);
  }

  /** A `$` or an `O` among the next five characters rules out a `$in` match. */
  lemma InBlockedAt(c: char, w: string, j: nat)
    requires j < 5 && j < |w| && (w[j] == '$' || w[j] == 'O')
    ensures !InListAt([c] + w)
  {
    assert ([c] + w)[j + 1] == w[j];
    if InListAt([c] + w) { InHeadChars([c] + w); }
  }

  /** `$in` matches are unchanged by an object-id pass over what follows. */
  lemma InAfterId(c: char, v: string)
    ensures InListAt([c] + ReplaceObjectId(v)) <==> InListAt([c] + v)
  {
    var j := LeadingRun(v, NotCapitalO);
    if j >= 5 {
      NoneBefore(v, NotCapitalO, 'O', 5);
      InShapeOf(c, v);
      InShapeAfterId(c, v);
      InTailId(v[5..]);
    } else if j == |v| {
      NoneBefore(v, NotCapitalO, 'O', j);
      IdAgree(v, j);
      assert v[..j] == v;
    } else {
      InAfterIdCapital(c, v, j);
    }
  }

  lemma InShapeAfterId(c: char, v: string)
    requires |v| >= 5 && 'O' !in v[..5]
    ensures InListAt([c] + ReplaceObjectId(v)) == (c == '$' && v[..5] == "in: [" && InListTail(ReplaceObjectId(v[5..])))
  {
    IdAgree(v, 5);
    InShapeOfJoin(c, v[..5], ReplaceObjectId(v[5..]), ReplaceObjectId(v));
  }

  lemma InAfterIdCapital(c: char, v: string, j: nat)
    requires j < 5 && j < |v| && v[j] == 'O' && 'O' !in v[..j]
    ensures !InListAt([c] + ReplaceObjectId(v)) && !InListAt([c] + v)
  {
    IdKeepsChar(v, j);
    InBlockedAt(c, ReplaceObjectId(v), j);
    InBlockedAt(c, v, j);
  }

  /** Object-id matches are unchanged by a `$in` pass over what follows. */
  lemma IdAfterIn(c: char, v: string)
    ensures ObjectIdAt([c] + ReplaceIn(v)) <==> ObjectIdAt([c] + v)
  {
    var j := LeadingRun(v, NotDollar);
    NoneBefore(v, NotDollar, '$', if j >= 35 then 35 else j);
    if j >= 35 {
      IdAfterInLong(c, v);
    } else if j == |v| {
      InAgree(v, j);
      assert v[..j] == v;
    } else {
      IdAfterInStop(c, v, j);
    }
  }

  lemma IdAfterInLong(c: char, v: string)
    requires |v| >= 35 && '$' !in v[..35]
    ensures ObjectIdAt([c] + ReplaceIn(v)) <==> ObjectIdAt([c] + v)
  {
    InKeepsPrefix(v, 35);
    IdSamePrefix(c, ReplaceIn(v), v);
  }

  lemma IdAfterInStop(c: char, v: string, j: nat)
    requires j < 35 && j < |v| && v[j] == '$' && '$' !in v[..j]
    ensures !ObjectIdAt([c] + ReplaceIn(v)) && !ObjectIdAt([c] + v)
  {
    InKeepsChar(v, j);
    IdBlockedAt(c, ReplaceIn(v), j);
    IdBlockedAt(c, v, j);
  }

  lemma IdAfterId(c: char, v: string)
    ensures ObjectIdAt([c] + ReplaceObjectId(v)) <==> ObjectIdAt([c] + v)
  {
    var j := LeadingRun(v, NotCapitalO);
    NoneBefore(v, NotCapitalO, 'O', if j >= 35 then 35 else j);
    if j >= 35 {
      IdAfterIdLong(c, v);
    } else if j == |v| {
      IdAgree(v, j);
      assert v[..j] == v;
    } else {
      IdAfterIdStop(c, v, j);
    }
  }

  lemma IdAfterIdLong(c: char, v: string)
    requires |v| >= 35 && 'O' !in v[..35]
    ensures ObjectIdAt([c] + ReplaceObjectId(v)) <==> ObjectIdAt([c] + v)
  {
    IdKeepsPrefix(v, 35);
    IdSamePrefix(c, ReplaceObjectId(v), v);
  }

  lemma IdAfterIdStop(c: char, v: string, j: nat)
    requires j < 35 && j < |v| && v[j] == 'O' && 'O' !in v[..j]
    ensures !ObjectIdAt([c] + ReplaceObjectId(v)) && !ObjectIdAt([c] + v)
  {
    IdKeepsChar(v, j);
    IdBlockedAt(c, ReplaceObjectId(v), j);
    IdBlockedAt(c, v, j);
  }

  /** Two strings that share their first 36 characters agree on an object-id match. */
  lemma IdSamePrefix(c: char, w1: string, w2: string)
    requires |w1| >= 35 && |w2| >= 35 && w1[..35] == w2[..35]
    ensures ObjectIdAt([c] + w1) == ObjectIdAt([c] + w2)
  {
    assert ([c] + w1)[..36] == [c] + w1[..35];
    assert ([c] + w2)[..36] == [c] + w2[..35];
    ObjectIdPrefix([c] + w1, [c] + w2);
  }

  /** Both passes keep every character before the first `$` (resp. `O`). */
  lemma InKeepsPrefix(v: string, k: nat)
    requires k <= |v| && '$' !in v[..k]
    ensures |ReplaceIn(v)| >= k && ReplaceIn(v)[..k] == v[..k]
  {
    InAgree(v, k);
  }

  lemma IdKeepsPrefix(v: string, k: nat)
    requires k <= |v| && 'O' !in v[..k]
    ensures |ReplaceObjectId(v)| >= k && ReplaceObjectId(v)[..k] == v[..k]
  {
    IdAgree(v, k);
  }

  /** A `$` or an `O` among the next 35 characters rules out an object-id match. */
  lemma IdBlockedAt(c: char, w: string, j: nat)
    requires j < 35 && j < |w| && (w[j] == '$' || w[j] == 'O')
    ensures !ObjectIdAt([c] + w)
  {
    assert ([c] + w)[j + 1] == w[j];
    if ObjectIdAt([c] + w) { ObjectIdChars([c] + w); }
  }

  lemma InKeepsChar(v: string, j: nat)
    requires j < |v| && '$' !in v[..j]
    ensures |ReplaceIn(v)| > j && ReplaceIn(v)[j] == v[j]
  {
    InAgree(v, j);
  }

  lemma IdKeepsChar(v: string, j: nat)
    requires j < |v| && 'O' !in v[..j]
    ensures |ReplaceObjectId(v)| > j && ReplaceObjectId(v)[j] == v[j]
  {
    IdAgree(v, j);
  }


  // ---- Idempotence and commutation ----

  /** A `]` ends every object-id match, so the pass splits around one. */
  lemma {:induction false} IdSplit(a: string, b: string)
    requires b != [] && b[0] == ']'
    ensures ReplaceObjectId(a + b) == ReplaceObjectId(a) + ReplaceObjectId(b)
    decreases |a|
  {
    if a == [] {
      assert a + b == b;
    } else {
      if |a| >= 36 {
        IdStepLong(a, b);
      } else {
        IdStepShort(a, b);
      }
      var k := if ObjectIdAt(a) then 36 else 1;
      assert (a + b)[k..] == a[k..] + b;
      IdSplit(a[k..], b);
    }
  }

  lemma IdStepLong(a: string, b: string)
    requires |a| >= 36
    ensures ObjectIdAt(a + b) == ObjectIdAt(a)
  {
    assert (a + b)[..36] == a[..36];
    ObjectIdPrefix(a + b, a);
  }

  lemma IdStepShort(a: string, b: string)
    requires 0 < |a| < 36 && b != [] && b[0] == ']'
    ensures !ObjectIdAt(a + b)
  {
    assert (a + b)[|a|] == ']';
    if ObjectIdAt(a + b) { ObjectIdChars(a + b); }
  }

  /** Replacing the `$in` lists a second time changes nothing. */
  lemma {:induction false} ReplaceInIdempotent(s: string)
    ensures ReplaceIn(ReplaceIn(s)) == ReplaceIn(s)
    decreases |s|
  {
    if s != [] {
      if InListAt(s) {
        var n := InListLength(s);
        InPlaceholderFixed(ReplaceIn(s[n..]));
        ReplaceInIdempotent(s[n..]);
      } else {
        var w := ReplaceIn(s[1..]);
        InAfterIn(s[0], s[1..]);
        assert [s[0]] + s[1..] == s;
        assert ([s[0]] + w)[1..] == w;
        ReplaceInIdempotent(s[1..]);
      }
    }
  }

  /** Replacing the object ids a second time changes nothing. */
  lemma {:induction false} ReplaceObjectIdIdempotent(s: string)
    ensures ReplaceObjectId(ReplaceObjectId(s)) == ReplaceObjectId(s)
    decreases |s|
  {
    if s != [] {
      if ObjectIdAt(s) {
        IdPlaceholderFixed(ReplaceObjectId(s[36..]));
        ReplaceObjectIdIdempotent(s[36..]);
      } else {
        var w := ReplaceObjectId(s[1..]);
        IdAfterId(s[0], s[1..]);
        assert [s[0]] + s[1..] == s;
        assert ([s[0]] + w)[1..] == w;
        ReplaceObjectIdIdempotent(s[1..]);
      }
    }
  }

  /** The two passes commute: neither creates nor breaks a match of the other. */
  lemma {:induction false} PassesCommute(s: string)
    ensures ReplaceIn(ReplaceObjectId(s)) == ReplaceObjectId(ReplaceIn(s))
    decreases |s|
  {
    if s == [] {
    } else if InListAt(s) {
      CommuteInList(s);
      PassesCommute(s[InListLength(s)..]);
    } else if ObjectIdAt(s) {
      CommuteObjectId(s);
      PassesCommute(s[36..]);
    } else {
      CommutePlain(s);
      PassesCommute(s[1..]);
    }
  }

  lemma CommuteInList(s: string)
    requires InListAt(s)
    ensures var t := s[InListLength(s)..];
      && ReplaceIn(ReplaceObjectId(s)) == InPlaceholder + ReplaceIn(ReplaceObjectId(t))
      && ReplaceObjectId(ReplaceIn(s)) == InPlaceholder + ReplaceObjectId(ReplaceIn(t))
  {
    InListThenId(s);
    IdThenInList(s);
  }

  lemma InListThenId(s: string)
    requires InListAt(s)
    ensures ReplaceObjectId(ReplaceIn(s)) == InPlaceholder + ReplaceObjectId(ReplaceIn(s[InListLength(s)..]))
  {
    IdCopy(InPlaceholder, ReplaceIn(s[InListLength(s)..]));
  }

  lemma IdThenInList(s: string)
    requires InListAt(s)
    ensures ReplaceIn(ReplaceObjectId(s)) == InPlaceholder + ReplaceIn(ReplaceObjectId(s[InListLength(s)..]))
  {
    var n := InListLength(s);
    var x, t := s[6..n - 1], s[n..];
    assert s == InHead + x + "]" + t;
    IdOverInList(x, t);
    InListReplaced(ReplaceObjectId(x), ReplaceObjectId(t));
  }

  /** The object-id pass works inside a `$in` list and leaves its frame alone. */
  lemma IdOverInList(x: string, t: string)
    requires ']' !in x
    ensures ReplaceObjectId(InHead + x + "]" + t) == InHead + ReplaceObjectId(x) + "]" + ReplaceObjectId(t)
  {
    assert InHead + x + "]" + t == InHead + (x + ("]" + t));
    IdCopy(InHead, x + ("]" + t));
    IdSplit(x, "]" + t);
    IdCopy("]", t);
  }

  lemma CommuteObjectId(s: string)
    requires !InListAt(s) && ObjectIdAt(s)
    ensures var t := s[36..];
      && ReplaceIn(ReplaceObjectId(s)) == IdPlaceholder + ReplaceIn(ReplaceObjectId(t))
      && ReplaceObjectId(ReplaceIn(s)) == IdPlaceholder + ReplaceObjectId(ReplaceIn(t))
  {
    var t := s[36..];
    assert '$' !in IdPlaceholder;
    InCopy(IdPlaceholder, ReplaceObjectId(t));
    ObjectIdChars(s);
    assert '$' !in s[..36];
    InAgree(s, 36);
    var u := s[..36] + ReplaceIn(t);
    assert u[..36] == s[..36];
    ObjectIdPrefix(u, s);
    assert u[36..] == ReplaceIn(t);
  }

  lemma CommutePlain(s: string)
    requires s != [] && !InListAt(s) && !ObjectIdAt(s)
    ensures ReplaceIn(ReplaceObjectId(s)) == [s[0]] + ReplaceIn(ReplaceObjectId(s[1..]))
    ensures ReplaceObjectId(ReplaceIn(s)) == [s[0]] + ReplaceObjectId(ReplaceIn(s[1..]))
  {
    assert s == [s[0]] + s[1..];
    var a := ReplaceObjectId(s[1..]);
    InAfterId(s[0], s[1..]);
    assert ([s[0]] + a)[1..] == a;
    var b := ReplaceIn(s[1..]);
    IdAfterIn(s[0], s[1..]);
    assert ([s[0]] + b)[1..] == b;
  }

  /** Normalising a normalised query string changes nothing. */
  lemma NormaliseIdempotent(s: string)
    ensures Normalise(Normalise(s)) == Normalise(s)
  {
    // Both passes leave `Normalise(s)` alone, by the contract of `Normalise`.
  }
}
