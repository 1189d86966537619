/** The content guard's glob matcher (internal/observer/contentguard/fnmatch.go): what a pattern means,
    declaratively, and the matcher that backtracks to its last star only. */
module Glob {
  import opened Common

  const STAR: Byte := 42
  const QUESTION: Byte := 63
  const OPEN: Byte := 91
  const CLOSE: Byte := 93
  const BANG: Byte := 33
  const CARET: Byte := 94
  const DASH: Byte := 45

  // ---------------------------------------------------------------------------------------------
  // What a pattern means
  // ---------------------------------------------------------------------------------------------

  datatype Item = Single(c: Byte) | Between(lo: Byte, hi: Byte)

  datatype Token = Any | One | Class(negated: bool, items: seq<Item>) | Literal(c: Byte)

  /** The members listed by pat[start..end], from k on: a dash with a byte on both sides is a range, and
      a byte a range ends with is not listed again. */
  function Items(pat: seq<Byte>, start: nat, end: nat, k: nat): seq<Item>
    requires start <= k <= end <= |pat|
    decreases end - k
  {
    if k == end then []
    else if k > start && pat[k] == DASH && k + 1 < end then
      [Between(pat[k - 1], pat[k + 1])] + Items(pat, start, end, k + 2)
    else [Single(pat[k])] + Items(pat, start, end, k + 1)
  }

  predicate ItemHas(i: Item, c: Byte) {
    match i
    case Single(m) => m == c
    case Between(lo, hi) => lo <= c <= hi
  }

  predicate Lists(items: seq<Item>, c: Byte) { items != [] && (ItemHas(items[0], c) || Lists(items[1..], c)) }

  predicate Accepts(t: Token, c: Byte)
    requires !t.Any?
  {
    match t
    case One => true
    case Class(negated, items) => negated != Lists(items, c)
    case Literal(l) => l == c
  }

  predicate Negates(pat: seq<Byte>, pi: nat) { pi + 1 < |pat| && (pat[pi + 1] == BANG || pat[pi + 1] == CARET) }

  /** Where the body of a class opening at pi starts. */
  function BodyOf(pat: seq<Byte>, pi: nat): nat { if Negates(pat, pi) then pi + 2 else pi + 1 }

  /** The first closing bracket at or after j; |pat| if there is none. */
  function Closer(pat: seq<Byte>, j: nat): (e: nat)
    requires j <= |pat|
    ensures j <= e <= |pat|
    ensures forall k :: j <= k < e ==> pat[k] != CLOSE
    ensures e < |pat| ==> pat[e] == CLOSE
    decreases |pat| - j
  {
    if j == |pat| || pat[j] == CLOSE then j else Closer(pat, j + 1)
  }

  /** Where the class opening at pi closes: a bracket right at the start of the body is a member. */
  function ClosedAt(pat: seq<Byte>, pi: nat): nat
    requires pi < |pat|
  {
    var start := BodyOf(pat, pi);
    if start < |pat| then Closer(pat, start + 1) else |pat|
  }

  predicate IsClass(pat: seq<Byte>, pi: nat) { pi < |pat| && pat[pi] == OPEN && ClosedAt(pat, pi) < |pat| }

  function ClassToken(pat: seq<Byte>, pi: nat): Token
    requires IsClass(pat, pi)
  {
    Class(Negates(pat, pi), Items(pat, BodyOf(pat, pi), ClosedAt(pat, pi), BodyOf(pat, pi)))
  }

  /** The token at pi and where the next one starts; an opening bracket that is never closed is itself. */
  function TokenAt(pat: seq<Byte>, pi: nat): Token
    requires pi < |pat|
  {
    if pat[pi] == STAR then Any
    else if pat[pi] == QUESTION then One
    else if IsClass(pat, pi) then ClassToken(pat, pi)
    else Literal(pat[pi])
  }

  function Next(pat: seq<Byte>, pi: nat): (n: nat)
    requires pi < |pat|
    ensures pi < n <= |pat|
  {
    if IsClass(pat, pi) then ClosedAt(pat, pi) + 1 else pi + 1
  }

  function Tokens(pat: seq<Byte>, pi: nat): seq<Token>
    requires pi <= |pat|
    decreases |pat| - pi
  {
    if pi == |pat| then [] else [TokenAt(pat, pi)] + Tokens(pat, Next(pat, pi))
  }

  /** A name matches tokens: Any stands for any run of bytes, every other token for one byte it accepts. */
  predicate Matches(name: seq<Byte>, ts: seq<Token>)
    decreases |ts|
  {
    if ts == [] then name == []
    else if ts[0].Any? then exists k :: 0 <= k <= |name| && Matches(name[k..], ts[1..])
    else name != [] && Accepts(ts[0], name[0]) && Matches(name[1..], ts[1..])
  }

  /** The declarative meaning of a pattern. */
  predicate Means(name: seq<Byte>, pat: seq<Byte>) { Matches(name, Tokens(pat, 0)) }

  // ---------------------------------------------------------------------------------------------
  // Classes
  // ---------------------------------------------------------------------------------------------

  lemma ListsFrom(pat: seq<Byte>, start: nat, end: nat, k: nat, c: Byte)
    requires start <= k < end <= |pat|
    ensures Lists(Items(pat, start, end, k), c) <==>
              if k > start && pat[k] == DASH && k + 1 < end then
                pat[k - 1] <= c <= pat[k + 1] || Lists(Items(pat, start, end, k + 2), c)
              else pat[k] == c || Lists(Items(pat, start, end, k + 1), c)
  {
    var items := Items(pat, start, end, k);
    assert items[1..] == Items(pat, start, end, if k > start && pat[k] == DASH && k + 1 < end then k + 2 else k + 1);
  }

  /** e is where the class with the body from start on closes; |pat| if it does not. */
  ghost predicate Closes(pat: seq<Byte>, start: nat, e: nat) {
    && start <= e <= |pat|
    && (forall k :: start < k < e ==> pat[k] != CLOSE)
    && (e < |pat| ==> start < e && pat[e] == CLOSE)
  }

  /** found is what the members before j come to. */
  ghost predicate ReadTo(pat: seq<Byte>, start: nat, e: nat, j: nat, ch: Byte, found: bool) {
    e < |pat| ==>
      && start <= j <= e
      && (Lists(Items(pat, start, e, start), ch) <==> found || Lists(Items(pat, start, e, j), ch))
  }

  lemma ReadRange(pat: seq<Byte>, start: nat, e: nat, j: nat, ch: Byte, found: bool)
    requires Closes(pat, start, e) && start < j && j + 1 < |pat| && ReadTo(pat, start, e, j, ch, found)
    requires pat[j] == DASH && pat[j + 1] != CLOSE
    ensures ReadTo(pat, start, e, j + 2, ch, found || pat[j - 1] <= ch <= pat[j + 1])
  {
    if e < |pat| {
      assert j != e && j + 1 != e;
      ListsFrom(pat, start, e, j, ch);
    }
  }

  lemma ReadMember(pat: seq<Byte>, start: nat, e: nat, j: nat, ch: Byte, found: bool)
    requires Closes(pat, start, e) && start <= j < |pat| && ReadTo(pat, start, e, j, ch, found)
    requires pat[j] != CLOSE || j == start
    requires !(pat[j] == DASH && j > start && j + 1 < |pat| && pat[j + 1] != CLOSE)
    ensures ReadTo(pat, start, e, j + 1, ch, found || pat[j] == ch)
  {
    if e < |pat| {
      assert j < e;
      ListsFrom(pat, start, e, j, ch);
    }
  }

  lemma ReadAll(pat: seq<Byte>, start: nat, e: nat, ch: Byte, found: bool)
    requires start <= e < |pat| && ReadTo(pat, start, e, e, ch, found)
    ensures Lists(Items(pat, start, e, start), ch) <==> found
  {
  }

  /** Evaluates the class opening at pi against ch: exactly when one closes, and by what it lists. */
  method MatchClass(pat: seq<Byte>, pi: nat, ch: Byte) returns (matched: bool, next: nat, ok: bool)
    requires pi < |pat| && pat[pi] == OPEN
    ensures ok <==> IsClass(pat, pi)
    ensures ok ==> (matched <==> Accepts(ClassToken(pat, pi), ch)) && next == Next(pat, pi)
    ensures !ok ==> !matched && next == pi
  {
    hide Items, Lists, Closer;
    var j := pi + 1;
    var negate := false;
    if j < |pat| && (pat[j] == BANG || pat[j] == CARET) {
      negate := true;
      j := j + 1;
    }
    var start := j;
    var found := false;
    ghost var e := ClosedAt(pat, pi);
    while j < |pat|
      invariant start == BodyOf(pat, pi) && negate == Negates(pat, pi)
      invariant start <= j <= |pat| && (j == start || j <= e)
      invariant Closes(pat, start, e) && ReadTo(pat, start, e, j, ch, found)
      decreases |pat| - j
    {
      var c := pat[j];
      if c == CLOSE && j > start {
        assert j == e;
        ReadAll(pat, start, e, ch, found);
        return negate != found, j + 1, true;
      }
      if c == DASH && j > start && j + 1 < |pat| && pat[j + 1] != CLOSE {
        var lo, hi := pat[j - 1], pat[j + 1];
        ReadRange(pat, start, e, j, ch, found);
        if lo <= ch && ch <= hi {
          found := true;
        }
        j := j + 2;
        continue;
      }
      ReadMember(pat, start, e, j, ch, found);
      if c == ch {
        found := true;
      }
      j := j + 1;
    }
    return false, pi, false;
  }

  // ---------------------------------------------------------------------------------------------
  // Backtracking to the last star only
  // ---------------------------------------------------------------------------------------------

  /** The tokens from a to b, one byte of the name each: no star among them. */
  ghost predicate Segment(name: seq<Byte>, ni: nat, pat: seq<Byte>, a: nat, b: nat, len: nat)
    requires a <= |pat|
    decreases |pat| - a
  {
    if len == 0 then a == b
    else
      && a < |pat| && ni < |name|
      && !TokenAt(pat, a).Any? && Accepts(TokenAt(pat, a), name[ni])
      && Segment(name, ni + 1, pat, Next(pat, a), b, len - 1)
  }

  /** A segment matched from ni can only be followed by a match of the rest right after it. */
  lemma {:induction false} SegmentMatches(name: seq<Byte>, ni: nat, pat: seq<Byte>, a: nat, b: nat, len: nat)
    requires a <= |pat| && b <= |pat| && ni + len <= |name| && Segment(name, ni, pat, a, b, len)
    ensures Matches(name[ni..], Tokens(pat, a)) <==> Matches(name[ni + len..], Tokens(pat, b))
    decreases len
  {
    if len > 0 {
      SegmentMatches(name, ni + 1, pat, Next(pat, a), b, len - 1);
      assert name[ni..][1..] == name[ni + 1..];
    }
  }

  /** Wherever those tokens match, they take exactly len bytes, and the rest matches after them. */
  lemma {:induction false} SegmentTakes(name: seq<Byte>, ni: nat, pat: seq<Byte>, a: nat, b: nat, len: nat,
                                        s: seq<Byte>)
    requires a <= |pat| && b <= |pat| && Segment(name, ni, pat, a, b, len)
    requires Matches(s, Tokens(pat, a))
    ensures |s| >= len && Matches(s[len..], Tokens(pat, b))
    decreases len
  {
    if len > 0 {
      SegmentTakes(name, ni + 1, pat, Next(pat, a), b, len - 1, s[1..]);
      assert s[1..][len - 1..] == s[len..];
    }
  }

  lemma {:induction false} SegmentSnoc(name: seq<Byte>, ni: nat, pat: seq<Byte>, a: nat, b: nat, len: nat)
    requires a <= |pat| && b < |pat| && Segment(name, ni, pat, a, b, len) && ni + len < |name|
    requires !TokenAt(pat, b).Any? && Accepts(TokenAt(pat, b), name[ni + len])
    ensures Segment(name, ni, pat, a, Next(pat, b), len + 1)
    decreases len
  {
    if len > 0 {
      SegmentSnoc(name, ni + 1, pat, Next(pat, a), b, len - 1);
    }
  }

  /** A star followed by ts matches a run of bytes or ts itself. */
  lemma StarSuffix(s: seq<Byte>, ts: seq<Token>, k: nat)
    requires k <= |s| && Matches(s[k..], [Any] + ts)
    ensures Matches(s, [Any] + ts)
  {
    assert ([Any] + ts)[1..] == ts;
    var m :| 0 <= m <= |s[k..]| && Matches(s[k..][m..], ts);
    assert s[k..][m..] == s[k + m..];
  }

  /** Where the matcher stands: it has matched the segment since its last star (or since the start),
      and the pattern means the name exactly when what follows that star matches some suffix from where
      the star currently gives up. */
  ghost predicate Standing(name: seq<Byte>, pat: seq<Byte>, ni: nat, pi: nat, star: int, starName: nat) {
    && ni <= |name| && pi <= |pat| && -1 <= star < |pat|
    && (if star < 0 then
          && starName == 0
          && Segment(name, 0, pat, 0, pi, ni)
        else
          && starName <= ni && pat[star] == STAR
          && Segment(name, starName, pat, star + 1, pi, ni - starName)
          && (Means(name, pat) <==> FromStar(name, starName, pat, star)))
  }

  /** The rest of the name from ni matches the pattern from its star on. */
  ghost predicate FromStar(name: seq<Byte>, ni: nat, pat: seq<Byte>, star: nat)
    requires ni <= |name| && star < |pat| && pat[star] == STAR
  {
    Matches(name[ni..], [Any] + Tokens(pat, star + 1))
  }

  /** Tokens after a star lie beyond it. */
  lemma {:induction false} SegmentAdvances(name: seq<Byte>, ni: nat, pat: seq<Byte>, a: nat, b: nat, len: nat)
    requires a <= |pat| && Segment(name, ni, pat, a, b, len)
    ensures a <= b
    decreases len
  {
    if len > 0 {
      SegmentAdvances(name, ni + 1, pat, Next(pat, a), b, len - 1);
    }
  }

  /** Reaching a new star gives the old one up: whatever matches after the old star from here on also
      matches after the new one from where the segment ends. */
  lemma NewStarSuffices(name: seq<Byte>, pat: seq<Byte>, pi: nat, star: nat, starName: nat, len: nat)
    requires star < pi < |pat| && starName + len <= |name| && pat[star] == STAR && pat[pi] == STAR
    requires Segment(name, starName, pat, star + 1, pi, len)
    requires FromStar(name, starName, pat, star)
    ensures FromStar(name, starName + len, pat, pi)
  {
    var from, after := name[starName..], Tokens(pat, star + 1);
    assert ([Any] + after)[1..] == after;
    assert Tokens(pat, pi) == [Any] + Tokens(pat, pi + 1);
    var k :| 0 <= k <= |from| && Matches(from[k..], after);
    SegmentTakes(name, starName, pat, star + 1, pi, len, from[k..]);
    assert from[k..][len..] == name[starName + len..][k..];
    StarSuffix(name[starName + len..], Tokens(pat, pi + 1), k);
  }

  lemma OldStarFollows(name: seq<Byte>, pat: seq<Byte>, pi: nat, star: nat, starName: nat, len: nat)
    requires star < pi < |pat| && starName + len <= |name| && pat[star] == STAR && pat[pi] == STAR
    requires Segment(name, starName, pat, star + 1, pi, len)
    requires FromStar(name, starName + len, pat, pi)
    ensures FromStar(name, starName, pat, star)
  {
    var from, after := name[starName..], Tokens(pat, star + 1);
    assert ([Any] + after)[1..] == after;
    assert Tokens(pat, pi) == [Any] + Tokens(pat, pi + 1);
    SegmentMatches(name, starName, pat, star + 1, pi, len);
    assert from[0..] == from;
  }

  lemma FirstStar(name: seq<Byte>, pat: seq<Byte>, pi: nat, len: nat)
    requires pi < |pat| && len <= |name| && pat[pi] == STAR && Segment(name, 0, pat, 0, pi, len)
    ensures Means(name, pat) <==> FromStar(name, len, pat, pi)
  {
    SegmentMatches(name, 0, pat, 0, pi, len);
    assert name[0..] == name;
    assert Tokens(pat, pi) == [Any] + Tokens(pat, pi + 1);
  }

  lemma ReachesStar(name: seq<Byte>, pat: seq<Byte>, ni: nat, pi: nat, star: int, starName: nat)
    requires Standing(name, pat, ni, pi, star, starName) && pi < |pat| && pat[pi] == STAR
    ensures Standing(name, pat, ni, pi + 1, pi, ni)
    ensures star < pi
  {
    if star < 0 {
      FirstStar(name, pat, pi, ni);
    } else {
      SegmentAdvances(name, starName, pat, star + 1, pi, ni - starName);
      if FromStar(name, ni, pat, pi) {
        OldStarFollows(name, pat, pi, star, starName, ni - starName);
      }
      if FromStar(name, starName, pat, star) {
        NewStarSuffices(name, pat, pi, star, starName, ni - starName);
      }
    }
  }

  lemma TakesByte(name: seq<Byte>, pat: seq<Byte>, ni: nat, pi: nat, star: int, starName: nat)
    requires Standing(name, pat, ni, pi, star, starName) && ni < |name| && pi < |pat|
    requires !TokenAt(pat, pi).Any? && Accepts(TokenAt(pat, pi), name[ni])
    ensures Standing(name, pat, ni + 1, Next(pat, pi), star, starName)
  {
    if star < 0 {
      SegmentSnoc(name, 0, pat, 0, pi, ni);
    } else {
      SegmentSnoc(name, starName, pat, star + 1, pi, ni - starName);
    }
  }

  /** The byte at ni fits nothing here. */
  ghost predicate Stuck(name: seq<Byte>, pat: seq<Byte>, ni: nat, pi: nat) {
    ni < |name| && pi <= |pat| && (pi < |pat| ==> !TokenAt(pat, pi).Any? && !Accepts(TokenAt(pat, pi), name[ni]))
  }

  lemma StuckFails(name: seq<Byte>, pat: seq<Byte>, ni: nat, pi: nat)
    requires Stuck(name, pat, ni, pi)
    ensures !Matches(name[ni..], Tokens(pat, pi))
  {
  }

  lemma NoStarFails(name: seq<Byte>, pat: seq<Byte>, ni: nat, pi: nat, starName: nat)
    requires Standing(name, pat, ni, pi, -1, starName) && Stuck(name, pat, ni, pi)
    ensures !Means(name, pat)
  {
    SegmentMatches(name, 0, pat, 0, pi, ni);
    StuckFails(name, pat, ni, pi);
    assert name[0..] == name;
  }

  /** Giving the star one more byte loses no match. */
  lemma Backtracks(name: seq<Byte>, pat: seq<Byte>, ni: nat, pi: nat, star: int, starName: nat)
    requires Standing(name, pat, ni, pi, star, starName) && star >= 0 && Stuck(name, pat, ni, pi)
    ensures Standing(name, pat, starName + 1, star + 1, star, starName + 1)
  {
    var after := Tokens(pat, star + 1);
    var from, next := name[starName..], name[starName + 1..];
    SegmentMatches(name, starName, pat, star + 1, pi, ni - starName);
    StuckFails(name, pat, ni, pi);
    assert ([Any] + after)[1..] == after;
    if Matches(from, [Any] + after) {
      var k :| 0 <= k <= |from| && Matches(from[k..], after);
      assert from[0..] == from;
      assert from[k..] == next[k - 1..];
    }
    if Matches(next, [Any] + after) {
      assert from[1..] == next;
      StarSuffix(from, after, 1);
    }
  }

  ghost predicate AllStars(pat: seq<Byte>, pi: nat) { forall k :: pi <= k < |pat| ==> pat[k] == STAR }

  lemma {:induction false} EmptyMatches(pat: seq<Byte>, pi: nat)
    requires pi <= |pat|
    ensures Matches([], Tokens(pat, pi)) <==> AllStars(pat, pi)
    decreases |pat| - pi
  {
    if pi < |pat| {
      if pat[pi] == STAR {
        EmptyMatches(pat, pi + 1);
        var ts := Tokens(pat, pi);
        assert ts[1..] == Tokens(pat, pi + 1);
        var empty: seq<Byte> := [];
        assert empty[0..] == empty;
      } else {
        assert !AllStars(pat, pi);
      }
    }
  }

  /** With the name used up, the pattern means it exactly when only stars are left. */
  lemma UsedUp(name: seq<Byte>, pat: seq<Byte>, ni: nat, pi: nat, star: int, starName: nat)
    requires Standing(name, pat, ni, pi, star, starName) && ni == |name|
    ensures Means(name, pat) <==> AllStars(pat, pi)
  {
    EmptyMatches(pat, pi);
    assert name[ni..] == [];
    if star < 0 {
      SegmentMatches(name, 0, pat, 0, pi, ni);
      assert name[0..] == name;
    } else {
      var after, len := Tokens(pat, star + 1), ni - starName;
      var from := name[starName..];
      assert ([Any] + after)[1..] == after;
      SegmentMatches(name, starName, pat, star + 1, pi, len);
      if Matches(from, after) {
        assert from[0..] == from;
      }
      if Matches(from, [Any] + after) {
        var k :| 0 <= k <= |from| && Matches(from[k..], after);
        SegmentTakes(name, starName, pat, star + 1, pi, len, from[k..]);
        assert k == 0 && from[0..] == from;
      }
    }
  }

  /** The matcher: true exactly when the pattern means the name. */
  method GlobMatch(name: seq<Byte>, pat: seq<Byte>) returns (matches: bool)
    ensures matches <==> Means(name, pat)
  {
    var ni: nat, pi: nat := 0, 0;
    var star: int, starName: nat := -1, 0;
    while ni < |name|
      invariant Standing(name, pat, ni, pi, star, starName)
      decreases |pat| - star, |name| - starName, |name| - ni
    {
      if pi < |pat| {
        if pat[pi] == STAR {
          ReachesStar(name, pat, ni, pi, star, starName);
          star, starName, pi := pi, ni, pi + 1;
          continue;
        } else if pat[pi] == QUESTION {
          TakesByte(name, pat, ni, pi, star, starName);
          ni, pi := ni + 1, pi + 1;
          continue;
        } else if pat[pi] == OPEN {
          var matched, next, ok := MatchClass(pat, pi, name[ni]);
          if ok {
            if matched {
              TakesByte(name, pat, ni, pi, star, starName);
              ni, pi := ni + 1, next;
              continue;
            }
          } else if name[ni] == OPEN {
            TakesByte(name, pat, ni, pi, star, starName);
            ni, pi := ni + 1, pi + 1;
            continue;
          }
        } else if pat[pi] == name[ni] {
          TakesByte(name, pat, ni, pi, star, starName);
          ni, pi := ni + 1, pi + 1;
          continue;
        }
      }
      if star >= 0 {
        Backtracks(name, pat, ni, pi, star, starName);
        pi, starName := star + 1, starName + 1;
        ni := starName;
        continue;
      }
      NoStarFails(name, pat, ni, pi, starName);
      return false;
    }
    UsedUp(name, pat, ni, pi, star, starName);
    while pi < |pat| && pat[pi] == STAR
      invariant pi <= |pat|
      invariant Means(name, pat) <==> AllStars(pat, pi)
    {
      pi := pi + 1;
    }
    return pi == |pat|;
  }
}
