/** Progress of the usage axis (internal/usageaxis/runner.go): what a turn of the drain loop confirms, where
    a drain ends, and that drains over a ledger left alone confirm all of it. */
module UsageDrain {
  import opened Common
  import opened UsageTail
  import opened UsageRunner

  // ---- what the lines of a ledger are -----------------------------------------------------------

  /** A complete line of c from a to its newline at b. */
  ghost predicate IsLine(c: seq<Byte>, a: nat, b: nat) {
    && a <= b < |c| && c[b] == 10
    && (a == 0 || c[a - 1] == 10)
    && forall k :: a <= k < b ==> c[k] != 10
  }

  /** The newline at b ends a model line. */
  ghost predicate EndsModelLine(c: seq<Byte>, b: nat, isModel: seq<Byte> -> bool)
    requires b < |c|
  {
    c[b] == 10 && isModel(c[LastStart(c, b)..b])
  }

  /** ends are, ascending, the newlines in from .. end that end a model line. */
  ghost predicate EndsOf(c: seq<Byte>, from: nat, end: nat, isModel: seq<Byte> -> bool, ends: seq<nat>)
    requires from <= end <= |c|
  {
    && (forall i :: 0 <= i < |ends| ==> from <= ends[i] < end)
    && (forall i, j :: 0 <= i < j < |ends| ==> ends[i] < ends[j])
    && forall b :: from <= b < end ==> (b in ends <==> EndsModelLine(c, b, isModel))
  }

  /** lines are the complete lines that end at ends. */
  ghost predicate LinesAt(c: seq<Byte>, ends: seq<nat>, lines: seq<seq<Byte>>) {
    && |lines| == |ends|
    && forall i :: 0 <= i < |ends| ==>
         ends[i] < |c| && IsLine(c, LastStart(c, ends[i]), ends[i]) && lines[i] == c[LastStart(c, ends[i])..ends[i]]
  }

  /** The model lines of a ledger are, one for each and in order, its newline-terminated lines that are model
      facts. */
  lemma {:induction false} ModelLinesAre(c: seq<Byte>, from: nat, end: nat, isModel: seq<Byte> -> bool)
    returns (ends: seq<nat>)
    requires from <= end <= |c| && (from == 0 || c[from - 1] == 10)
    ensures EndsOf(c, from, end, isModel, ends) && LinesAt(c, ends, ModelLines(c, from, end, isModel))
    decreases end - from
  {
    var n := Newline(c, from, end);
    if n == end {
      ends := [];
    } else {
      var more := ModelLinesAre(c, n + 1, end, isModel);
      FirstLine(c, from, n, end, isModel);
      ends := FirstEnd(c, from, n, end, isModel, more, ModelLines(c, n + 1, end, isModel));
    }
  }

  lemma FirstEnd(c: seq<Byte>, from: nat, n: nat, end: nat, isModel: seq<Byte> -> bool, more: seq<nat>,
                 lines: seq<seq<Byte>>)
    returns (ends: seq<nat>)
    requires from <= n < end <= |c| && (from == 0 || c[from - 1] == 10) && c[n] == NEWLINE && NoNewline(c, from, n)
    requires EndsOf(c, n + 1, end, isModel, more) && LinesAt(c, more, lines)
    ensures EndsOf(c, from, end, isModel, ends) && LinesAt(c, ends, ModelLine(c, from, n, isModel) + lines)
  {
    hide LastStart;
    StartsThere(c, from, n);
    ends := if isModel(c[from..n]) then [n] + more else more;
    FirstEnds(c, from, n, end, isModel, more, ends);
    if isModel(c[from..n]) {
      LinesThere(c, n, more, c[from..n], lines);
    } else {
      assert [] + lines == lines;
    }
  }

  lemma FirstEnds(c: seq<Byte>, from: nat, n: nat, end: nat, isModel: seq<Byte> -> bool, more: seq<nat>,
                  ends: seq<nat>)
    requires from <= n < end <= |c| && c[n] == NEWLINE && NoNewline(c, from, n) && LastStart(c, n) == from
    requires EndsOf(c, n + 1, end, isModel, more)
    requires ends == if isModel(c[from..n]) then [n] + more else more
    ensures EndsOf(c, from, end, isModel, ends)
  {
    hide LastStart, EndsModelLine;
    FirstEndsOne(c, from, n, isModel);
    forall b | from <= b < end ensures b in ends <==> EndsModelLine(c, b, isModel) {
      if b < n {
        NoneEndsThere(c, from, n, b, isModel);
      } else if b > n {
        assert b in ends <==> b in more;
      }
    }
  }

  lemma FirstEndsOne(c: seq<Byte>, from: nat, n: nat, isModel: seq<Byte> -> bool)
    requires from <= n < |c| && c[n] == NEWLINE && LastStart(c, n) == from
    ensures EndsModelLine(c, n, isModel) <==> isModel(c[from..n])
  {
  }

  lemma NoneEndsThere(c: seq<Byte>, from: nat, n: nat, b: nat, isModel: seq<Byte> -> bool)
    requires from <= b < n <= |c| && NoNewline(c, from, n)
    ensures !EndsModelLine(c, b, isModel)
  {
  }

  lemma LinesThere(c: seq<Byte>, n: nat, more: seq<nat>, line: seq<Byte>, lines: seq<seq<Byte>>)
    requires n < |c| && IsLine(c, LastStart(c, n), n) && line == c[LastStart(c, n)..n] && LinesAt(c, more, lines)
    ensures LinesAt(c, [n] + more, [line] + lines)
  {
    hide LastStart, IsLine;
  }

  lemma StartsThere(c: seq<Byte>, from: nat, n: nat)
    requires from <= n < |c| && (from == 0 || c[from - 1] == 10) && NoNewline(c, from, n)
    ensures LastStart(c, n) == from
  {
  }

  // ---- one scan and one turn --------------------------------------------------------------------

  /** What reading a ledger that can be read gives, whatever cursor it is read from: a renamed or truncated
      ledger is read from the top, and the numbers go on; the cursor moves past every newline of the window
      it can, and past a full window with no newline in it. */
  lemma TailMoves(c: seq<Byte>, id: Option<int>, cur: Cursor, max: int, isModel: seq<Byte> -> bool, facts: seq<Fact>,
                  next: Cursor, rotated: bool, ok: bool)
    requires TailGives(File(c, id), true, cur, max, isModel, facts, next, rotated, ok)
    ensures
      var off := if rotated then 0 else cur.offset;
      && ok
      && (rotated <==> |c| < cur.offset || (id.Some? && cur.fileID != 0 && cur.fileID != id.value))
      && off <= next.offset <= |c| && next.fileID == (if id.Some? then id.value else cur.fileID)
      && (next.offset > off <==> |c| - off >= 0x80_0000 || exists k :: off <= k < |c| && c[k] == 10)
      && |facts| <= (if max < 1 then 1 else max)
      && (forall i :: 0 <= i < |facts| ==> facts[i].number == (if cur.nextSeq == 0 then 1 else cur.nextSeq) + i)
      && (facts != [] ==> next.nextSeq == (if cur.nextSeq == 0 then 1 else cur.nextSeq) + |facts|)
  {
    var off := Start(cur, c, id);
    if off < |c| {
      var end := WindowEnd(c, off);
      assert next.offset > off && !Stalled(c, off, end) ==> c[next.offset - 1] == NEWLINE;
      assert ModelLines(c, off, off, isModel) == [];
    }
  }

  predicate Within(from: nat, n: nat, to: nat) { from <= n < to }

  /** The numbers from .. to - 1. */
  function From(from: nat, to: nat): (s: set<nat>)
    ensures forall n :: n in s <==> from <= n < to
  {
    set n: nat | from <= n < to && Within(from, n, to)
  }

  /** A turn that goes on had facts to post and had them accepted: the cursor's number grew by how many they
      were, and exactly those numbers became confirmed. Any other turn confirms nothing. */
  lemma TurnConfirms(t: Turn, max: int, isModel: seq<Byte> -> bool, u: Usage, u': Usage, more: bool)
    requires Turned(t, max, isModel, u, u', more)
    ensures u'.confirmed == u.confirmed + From(First(u.cur), First(u'.cur))
    ensures First(u'.cur) >= First(u.cur) && (more <==> First(u'.cur) > First(u.cur))
    ensures more ==> t.accepted && u'.cur.nextSeq > u.cur.nextSeq
    ensures u'.cur != u.cur ==> t.accepted || u'.posted == u.posted
    ensures u'.saved == if t.saves && u'.cur != u.cur then u.saved + {u'.cur} else u.saved
  {
    hide TailGives;
    if !t.cancelled {
      var facts, next, rotated, ok :|
        && TailGives(t.ledger, t.readable, u.cur, max, isModel, facts, next, rotated, ok)
        && TurnGives(t, facts, next, ok, u, u', more);
      TailCounts(t.ledger, t.readable, u.cur, max, isModel, facts, next, rotated, ok);
    }
  }

  lemma TailCounts(l: Ledger, readable: bool, cur: Cursor, max: int, isModel: seq<Byte> -> bool, facts: seq<Fact>,
                   next: Cursor, rotated: bool, ok: bool)
    requires TailGives(l, readable, cur, max, isModel, facts, next, rotated, ok)
    ensures First(next) == First(cur) + |facts| && NumbersOf(facts) == From(First(cur), First(next))
  {
    assert forall i :: 0 <= i < |facts| ==> facts[i].number == First(cur) + i;
    forall n | n in From(First(cur), First(next)) ensures n in NumbersOf(facts) {
      assert facts[n - First(cur)] in facts;
    }
  }

  /** Over a ledger that is only read and a server that accepts. */
  predicate Quiet(t: Turn, c: seq<Byte>, id: Option<int>) { t == Turn(false, File(c, id), true, true, t.saves) }

  function Limit(max: int): nat { if max < 1 then 1 else max }

  /** Such a turn moves the cursor exactly if a complete line is left; one that goes on takes as many model
      lines as it may, or all of its window. */
  lemma TurnMoves(t: Turn, max: int, isModel: seq<Byte> -> bool, u: Usage, u': Usage, more: bool, c: seq<Byte>,
                  id: Option<int>)
    requires Turned(t, max, isModel, u, u', more) && Quiet(t, c, id)
    requires Follows(u.cur, c, id, isModel) && LinesFit(c)
    ensures Follows(u'.cur, c, id, isModel) && u.cur.offset <= u'.cur.offset
    ensures u'.cur.offset > u.cur.offset <==> exists k :: u.cur.offset <= k < |c| && c[k] == 10
    ensures First(u'.cur) - First(u.cur) <= Limit(max)
    ensures more && First(u'.cur) - First(u.cur) < Limit(max) && |c| - u.cur.offset <= MAX_SCAN ==>
              NoNewline(c, u'.cur.offset, |c|)
    ensures !more && |c| - u.cur.offset <= MAX_SCAN ==> NoNewline(c, u'.cur.offset, |c|)
  {
    var facts, next, rotated, ok :|
      && TailGives(t.ledger, t.readable, u.cur, max, isModel, facts, next, rotated, ok)
      && TurnGives(t, facts, next, ok, u, u', more);
    TailFollows(true, u.cur, max, c, id, isModel, facts, next, rotated);
    TailMoves(c, id, u.cur, max, isModel, facts, next, rotated, ok);
    var off := u.cur.offset;
    if off < |c| {
      assert !Stalled(c, off, WindowEnd(c, off));
      if |c| - off >= MAX_SCAN {
        assert !NoNewline(c, off, off + MAX_SCAN);
      }
    }
  }

  // ---- drains -----------------------------------------------------------------------------------

  ghost predicate AllQuiet(turns: seq<Turn>, c: seq<Byte>, id: Option<int>) {
    forall i :: 0 <= i < |turns| ==> Quiet(turns[i], c, id)
  }

  /** x is u after turns that all went through and some of which went on: it confirmed just what it passed,
      and it moved unless no complete line was left. */
  ghost predicate Advances(u: Usage, x: Usage, c: seq<Byte>, id: Option<int>, isModel: seq<Byte> -> bool) {
    && Follows(x.cur, c, id, isModel) && u.cur.offset <= x.cur.offset && First(u.cur) <= First(x.cur)
    && x.confirmed == u.confirmed + From(First(u.cur), First(x.cur))
  }

  lemma AdvancesMore(u: Usage, x: Usage, y: Usage, t: Turn, max: int, more: bool, c: seq<Byte>, id: Option<int>,
                     isModel: seq<Byte> -> bool)
    requires Advances(u, x, c, id, isModel) && LinesFit(c)
    requires Turned(t, max, isModel, x, y, more) && Quiet(t, c, id)
    ensures Advances(u, y, c, id, isModel) && x.cur.offset <= y.cur.offset
  {
    TurnMoves(t, max, isModel, x, y, more, c, id);
    TurnConfirms(t, max, isModel, x, y, more);
  }

  /** i turns that went on took the limit each time, or the last of them took the rest of the ledger. */
  lemma {:induction false} GoingTakes(turns: seq<Turn>, i: nat, max: int, isModel: seq<Byte> -> bool, u: Usage,
                                      x: Usage, c: seq<Byte>, id: Option<int>)
    requires i <= |turns| && AllQuiet(turns, c, id) && Going(turns, i, max, isModel, u, x)
    requires Follows(u.cur, c, id, isModel) && LinesFit(c)
    ensures Advances(u, x, c, id, isModel) && (i > 0 ==> x.cur.offset > u.cur.offset)
    ensures First(x.cur) - First(u.cur) <= i * Limit(max)
    ensures |c| - u.cur.offset <= MAX_SCAN ==>
              First(x.cur) - First(u.cur) == i * Limit(max) || NoNewline(c, x.cur.offset, |c|)
  {
    hide Turned, TailGives, TurnGives, Counts, LinesFit, NoNewline, Follows;
    if i > 0 {
      var j := i - 1;
      var y :| Going(turns, j, max, isModel, u, y) && Turned(turns[j], max, isModel, y, x, true);
      GoingTakes(turns, j, max, isModel, u, y, c, id);
      AdvancesMore(u, y, x, turns[j], max, true, c, id, isModel);
      TurnMoves(turns[j], max, isModel, y, x, true, c, id);
      OnlyWhereLeft(turns[j], max, isModel, y, x, c, id);
      assert i * Limit(max) == j * Limit(max) + Limit(max);
    }
  }

  /** A turn goes on only where a complete line is left. */
  lemma OnlyWhereLeft(t: Turn, max: int, isModel: seq<Byte> -> bool, u: Usage, u': Usage, c: seq<Byte>, id: Option<int>)
    requires Turned(t, max, isModel, u, u', true) && Quiet(t, c, id)
    requires Follows(u.cur, c, id, isModel) && LinesFit(c)
    ensures u'.cur.offset > u.cur.offset && !NoNewline(c, u.cur.offset, |c|)
  {
    TurnMoves(t, max, isModel, u, u', true, c, id);
    TurnConfirms(t, max, isModel, u, u', true);
  }

  /** With no complete line left, every model line is before the cursor. */
  lemma NothingAfter(cur: Cursor, c: seq<Byte>, isModel: seq<Byte> -> bool)
    requires Counts(cur, c, isModel) && NoNewline(c, cur.offset, |c|)
    ensures First(cur) == 1 + |All(c, isModel)|
  {
    LinesSplit(c, 0, cur.offset, |c|, isModel);
    assert ModelLines(c, cur.offset, |c|, isModel) == [];
  }

  lemma NoMoreThanAll(cur: Cursor, c: seq<Byte>, isModel: seq<Byte> -> bool)
    requires Counts(cur, c, isModel)
    ensures First(cur) <= 1 + |All(c, isModel)|
  {
    LinesSplit(c, 0, cur.offset, |c|, isModel);
  }

  /** u' passed u by what it may of a ledger the rest of which fits one scan: every model line left, or most
      of them; and short of that it leaves no complete line behind. */
  ghost predicate Takes(u: Usage, u': Usage, c: seq<Byte>, isModel: seq<Byte> -> bool, most: nat) {
    var left := 1 + |All(c, isModel)| - First(u.cur);
    |c| - u.cur.offset <= MAX_SCAN ==>
      && First(u'.cur) - First(u.cur) == Min(left, most)
      && (left < most ==> forall k :: u'.cur.offset <= k < |c| ==> c[k] != NEWLINE)
  }

  lemma TakesAll(u: Usage, u': Usage, c: seq<Byte>, id: Option<int>, isModel: seq<Byte> -> bool, most: nat)
    requires Advances(u, u', c, id, isModel) && First(u'.cur) - First(u.cur) <= most
    requires |c| - u.cur.offset <= MAX_SCAN ==>
               First(u'.cur) - First(u.cur) == most || NoNewline(c, u'.cur.offset, |c|)
    ensures Takes(u, u', c, isModel, most)
  {
    hide ModelLines;
    NoMoreThanAll(u'.cur, c, isModel);
    if NoNewline(c, u'.cur.offset, |c|) {
      NothingAfter(u'.cur, c, isModel);
    }
  }

  /** The end of a drain whose first i turns went on. */
  lemma DrainEnds(turns: seq<Turn>, i: nat, max: int, isModel: seq<Byte> -> bool, u: Usage, y: Usage, u': Usage,
                  c: seq<Byte>, id: Option<int>)
    requires i < |turns| && AllQuiet(turns, c, id) && Going(turns, i, max, isModel, u, y)
    requires Turned(turns[i], max, isModel, y, u', false)
    requires Follows(u.cur, c, id, isModel) && LinesFit(c)
    ensures Advances(u, u', c, id, isModel) && Takes(u, u', c, isModel, |turns| * Limit(max))
    ensures u'.cur.offset > u.cur.offset || NoNewline(c, u.cur.offset, |c|)
  {
    hide Turned, TailGives, TurnGives, Counts, LinesFit, Takes, ModelLines, Going;
    GoingTakes(turns, i, max, isModel, u, y, c, id);
    AdvancesMore(u, y, u', turns[i], max, false, c, id, isModel);
    TurnMoves(turns[i], max, isModel, y, u', false, c, id);
    TurnConfirms(turns[i], max, isModel, y, u', false);
    FewerTurns(i, |turns|, Limit(max));
    if i == 0 {
      NothingGone(turns, max, isModel, u, y);
    }
    TakesAll(u, u', c, id, isModel, |turns| * Limit(max));
  }

  lemma FewerTurns(i: nat, n: nat, each: nat)
    requires i <= n
    ensures i * each <= n * each
  {
  }

  lemma NothingGone(turns: seq<Turn>, max: int, isModel: seq<Byte> -> bool, u: Usage, y: Usage)
    requires Going(turns, 0, max, isModel, u, y)
    ensures y == u
  {
  }

  /** A drain that used up its turns. */
  lemma DrainRuns(turns: seq<Turn>, max: int, isModel: seq<Byte> -> bool, u: Usage, u': Usage, c: seq<Byte>,
                  id: Option<int>)
    requires turns != [] && AllQuiet(turns, c, id) && Going(turns, |turns|, max, isModel, u, u')
    requires Follows(u.cur, c, id, isModel) && LinesFit(c)
    ensures Advances(u, u', c, id, isModel) && Takes(u, u', c, isModel, |turns| * Limit(max))
    ensures u'.cur.offset > u.cur.offset
  {
    hide Turned, TailGives, TurnGives, Counts, LinesFit, Takes, ModelLines, Going;
    GoingTakes(turns, |turns|, max, isModel, u, u', c, id);
    TakesAll(u, u', c, id, isModel, |turns| * Limit(max));
  }

  /** A drain over a ledger that is only read, whose lines fit, with a server that accepts: it confirms exactly
      the model lines its cursor passes, and the cursor moves if and only if a complete line is left. When
      what is left fits one scan it takes every model line left, or fifty batches of them; and short of
      fifty batches it leaves no complete line behind. */
  lemma DrainCatchesUp(turns: seq<Turn>, max: int, isModel: seq<Byte> -> bool, u: Usage, u': Usage, c: seq<Byte>,
                       id: Option<int>)
    requires |turns| == MAX_BATCHES && AllQuiet(turns, c, id) && Drained(turns, max, isModel, u, u')
    requires Follows(u.cur, c, id, isModel) && LinesFit(c)
    ensures Follows(u'.cur, c, id, isModel) && First(u.cur) <= First(u'.cur)
    ensures u'.confirmed == u.confirmed + From(First(u.cur), First(u'.cur))
    ensures u'.cur.offset >= u.cur.offset
    ensures u'.cur.offset > u.cur.offset <==> exists k :: u.cur.offset <= k < |c| && c[k] == 10
    ensures
      var left, most := 1 + |All(c, isModel)| - First(u.cur), 50 * (if max < 1 then 1 else max);
      |c| - u.cur.offset <= 0x80_0000 ==>
        && First(u'.cur) - First(u.cur) == Min(left, most)
        && (left < most ==> forall k :: u'.cur.offset <= k < |c| ==> c[k] != 10)
  {
    hide Turned, Going, ModelLines, LinesFit;
    if Going(turns, |turns|, max, isModel, u, u') {
      DrainRuns(turns, max, isModel, u, u', c, id);
    } else {
      var i: nat :| i < |turns| && Ends(turns, i, max, isModel, u, u');
      var y :| Going(turns, i, max, isModel, u, y) && Turned(turns[i], max, isModel, y, u', false);
      DrainEnds(turns, i, max, isModel, u, y, u', c, id);
    }
    if u'.cur.offset > u.cur.offset {
      assert c[u'.cur.offset - 1] == 10;
    }
  }

  ghost predicate QuietDrain(max: int, isModel: seq<Byte> -> bool, u: Usage, u': Usage, c: seq<Byte>, id: Option<int>) {
    exists turns: seq<Turn> ::
      |turns| == MAX_BATCHES && AllQuiet(turns, c, id) && Drained(turns, max, isModel, u, u')
  }

  /** However long the ledger, and whatever it holds besides model lines, such drains one after another confirm
      all of it: at the latest with one for every byte that was left. */
  lemma {:induction false} DrainsConfirmAll(us: seq<Usage>, max: int, isModel: seq<Byte> -> bool, c: seq<Byte>,
                                            id: Option<int>)
    requires us != [] && Follows(us[0].cur, c, id, isModel) && LinesFit(c)
    requires forall i :: 0 <= i < |us| - 1 ==> QuietDrain(max, isModel, us[i], us[i + 1], c, id)
    requires |us| > |c| - us[0].cur.offset || NoNewline(c, us[0].cur.offset, |c|)
    ensures
      var last := us[|us| - 1];
      && last.confirmed == us[0].confirmed + From(First(us[0].cur), 1 + |All(c, isModel)|)
      && last.cur.offset <= |c| && forall k :: last.cur.offset <= k < |c| ==> c[k] != 10
    decreases |us|
  {
    hide Drained, ModelLines, LinesFit, AllQuiet;
    if |us| == 1 {
      NothingAfter(us[0].cur, c, isModel);
    } else {
      var turns: seq<Turn> :|
        |turns| == MAX_BATCHES && AllQuiet(turns, c, id) && Drained(turns, max, isModel, us[0], us[1]);
      DrainCatchesUp(turns, max, isModel, us[0], us[1], c, id);
      NoMoreThanAll(us[1].cur, c, isModel);
      DrainsConfirmAll(us[1..], max, isModel, c, id);
    }
  }
}
