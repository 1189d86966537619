/** The usage axis' runner (internal/usageaxis/runner.go): tail, post, keep the cursor once the post is
    accepted; crash and start again from whatever cursor the state file holds. */
module UsageRunner {
  import opened Common
  import opened UsageTail

  /** A runner and what it did so far: its cursor, every cursor its state file may hold (a write is not
      flushed, so a crash may leave any earlier one, or none), every fact it ever posted, and the numbers
      of those the server accepted. */
  datatype Usage = Usage(cur: Cursor, saved: set<Cursor>, posted: set<Fact>, confirmed: set<nat>)

  /** What the world does during one turn of the drain loop. */
  datatype Turn = Turn(cancelled: bool, ledger: Ledger, readable: bool, accepted: bool, saves: bool)

  const MAX_BATCHES := 50

  function FactSet(fs: seq<Fact>): set<Fact> { set f | f in fs }

  function NumbersOf(fs: seq<Fact>): set<nat> { set f | f in fs :: f.number }

  ghost function Committed(u: Usage, next: Cursor, saves: bool): Usage {
    u.(cur := next, saved := if saves then u.saved + {next} else u.saved)
  }

  /** One turn, and whether the drain goes on after it. */
  ghost predicate Turned(t: Turn, max: int, isModel: seq<Byte> -> bool, u: Usage, u': Usage, goesOn: bool) {
    if t.cancelled then u' == u && !goesOn
    else
      exists facts, next, rotated, ok ::
        && TailGives(t.ledger, t.readable, u.cur, max, isModel, facts, next, rotated, ok)
        && TurnGives(t, facts, next, ok, u, u', goesOn)
  }

  ghost predicate TurnGives(t: Turn, facts: seq<Fact>, next: Cursor, ok: bool, u: Usage, u': Usage, goesOn: bool) {
    if !ok then u' == u && !goesOn
    else if facts == [] then
      !goesOn && u' == if next.offset != u.cur.offset then Committed(u, next, t.saves) else u
    else
      var offered := u.(posted := u.posted + FactSet(facts));
      && goesOn == t.accepted
      && u' == if t.accepted then Committed(offered, next, t.saves).(confirmed := u.confirmed + NumbersOf(facts))
         else offered
  }

  /** x is where the first i turns take u, each of them going on. */
  ghost predicate Going(turns: seq<Turn>, i: nat, max: int, isModel: seq<Byte> -> bool, u: Usage, x: Usage)
    requires i <= |turns|
  {
    if i == 0 then x == u
    else
      var j := i - 1;
      exists y :: Going(turns, j, max, isModel, u, y) && Turned(turns[j], max, isModel, y, x, true)
  }

  /** u' is where the drain loop leaves u: after the turn that does not go on, or after all of them. */
  ghost predicate Drained(turns: seq<Turn>, max: int, isModel: seq<Byte> -> bool, u: Usage, u': Usage) {
    || Going(turns, |turns|, max, isModel, u, u')
    || exists i: nat :: i < |turns| && Ends(turns, i, max, isModel, u, u')
  }

  ghost predicate Ends(turns: seq<Turn>, i: nat, max: int, isModel: seq<Byte> -> bool, u: Usage, u': Usage)
    requires i < |turns|
  {
    exists y :: Going(turns, i, max, isModel, u, y) && Turned(turns[i], max, isModel, y, u', false)
  }

  class Runner {
    const max: int                       // the configured batch size
    const isModel: seq<Byte> -> bool
    var cur: Cursor
    ghost var saved: set<Cursor>
    ghost var posted: set<Fact>
    ghost var confirmed: set<nat>

    ghost function Now(): Usage
      reads this
    {
      Usage(cur, saved, posted, confirmed)
    }

    /** Starts over a state file that yields found, or nothing. */
    constructor (found: Option<Cursor>, max: int, isModel: seq<Byte> -> bool, ghost before: Usage)
      ensures this.max == max && this.isModel == isModel
      ensures Now() == Restarted(before, found)
    {
      this.max, this.isModel := max, isModel;
      this.cur := Resumed(found);
      this.saved, this.posted, this.confirmed := before.saved, before.posted, before.confirmed;
    }

    method Commit(next: Cursor, saves: bool)
      modifies this`cur, this`saved
      ensures Now() == Committed(old(Now()), next, saves)
    {
      cur := next;
      saved := if saves then saved + {next} else saved;
    }

    /** Tails and posts until caught up, refused, cancelled or out of turns. */
    method Drain(turns: seq<Turn>)
      requires |turns| == MAX_BATCHES
      modifies this`cur, this`saved, this`posted, this`confirmed
      ensures Drained(turns, max, isModel, old(Now()), Now())
    {
      for i := 0 to |turns|
        invariant Going(turns, i, max, isModel, old(Now()), Now())
      {
        ghost var y := Now();
        var more := Step(turns[i]);
        if !more {
          assert Ends(turns, i, max, isModel, old(Now()), Now());
          return;
        }
        assert Turned(turns[i], max, isModel, y, Now(), true);
      }
    }

    method Step(t: Turn) returns (goesOn: bool)
      modifies this`cur, this`saved, this`posted, this`confirmed
      ensures Turned(t, max, isModel, old(Now()), Now(), goesOn)
    {
      ghost var u := Now();
      if t.cancelled {
        return false;
      }
      var facts, next, rotated, ok := Tail(t.ledger, t.readable, cur, max, isModel);
      if !ok {
        assert TurnGives(t, facts, next, ok, u, Now(), false);
        return false;
      }
      if |facts| == 0 {
        if next.offset != cur.offset {
          Commit(next, t.saves);
        }
        assert TurnGives(t, facts, next, ok, u, Now(), false);
        return false;
      }
      posted := posted + FactSet(facts);
      if t.accepted {
        confirmed := confirmed + NumbersOf(facts);
        Commit(next, t.saves);
      }
      assert TurnGives(t, facts, next, ok, u, Now(), t.accepted);
      return t.accepted;
    }
  }

  /** The cursor a start resumes from: a missing or unreadable state file starts from the top. */
  function Resumed(found: Option<Cursor>): Cursor {
    match found
    case None => Cursor(0, 1, 0)
    case Some(c) => if c.nextSeq == 0 then Cursor(c.offset, 1, 0) else c
  }

  ghost function Restarted(u: Usage, found: Option<Cursor>): Usage { u.(cur := Resumed(found)) }

  // ---- what every run keeps ---------------------------------------------------------------------

  /** The numbers 1 .. n and no others. */
  ghost predicate IsFirst(ks: set<nat>, n: nat) { forall k :: k in ks <==> 1 <= k <= n }

  /** The cursor counts the ledger's lines and does not point into another file. */
  ghost predicate Follows(cur: Cursor, c: seq<Byte>, id: Option<int>, isModel: seq<Byte> -> bool) {
    Counts(cur, c, isModel) && (id.Some? && cur.fileID != 0 ==> cur.fileID == id.value)
  }

  /** n facts are confirmed, the first n; no cursor is past them. */
  ghost predicate Bound(u: Usage, c: seq<Byte>, id: Option<int>, isModel: seq<Byte> -> bool, n: nat) {
    && n <= |All(c, isModel)|
    && IsFirst(u.confirmed, n)
    && (forall f :: f in u.posted ==> 1 <= f.number <= |All(c, isModel)| && f.line == All(c, isModel)[f.number - 1])
    && Follows(u.cur, c, id, isModel) && First(u.cur) <= n + 1
    && (forall s :: s in u.saved ==> Follows(s, c, id, isModel) && First(s) <= n + 1)
  }

  /** A turn sees the ledger as it is, or not at all. */
  ghost predicate Sees(t: Turn, c: seq<Byte>, id: Option<int>) { t.ledger.File? ==> t.ledger == File(c, id) }

  lemma PostKeepsBound(u: Usage, c: seq<Byte>, id: Option<int>, isModel: seq<Byte> -> bool, n: nat, facts: seq<Fact>,
                       next: Cursor,
                       t: Turn, u': Usage) returns (m: nat)
    requires Bound(u, c, id, isModel, n) && facts != []
    requires Positioned(facts, c, isModel) && Follows(next, c, id, isModel) && First(next) == First(u.cur) + |facts|
    requires forall i :: 0 <= i < |facts| ==> facts[i].number == First(u.cur) + i
    requires TurnGives(t, facts, next, true, u, u', t.accepted)
    ensures m >= n && Bound(u', c, id, isModel, m)
  {
    m := if t.accepted then Max(n, First(u.cur) + |facts| - 1) else n;
    if t.accepted {
      assert facts[|facts| - 1] in facts;
      forall k
        ensures k in u'.confirmed <==> 1 <= k <= m
      {
        if First(u.cur) <= k < First(u.cur) + |facts| {
          assert facts[k - First(u.cur)] in facts;
        }
      }
    }
  }

  /** What a tail of the ledger gives from a cursor that follows it. */
  lemma TailFollows(readable: bool, cur: Cursor, max: int, c: seq<Byte>, id: Option<int>, isModel: seq<Byte> -> bool,
                    facts: seq<Fact>, next: Cursor, rotated: bool)
    requires Follows(cur, c, id, isModel) && LinesFit(c)
    requires TailGives(File(c, id), readable, cur, max, isModel, facts, next, rotated, true)
    ensures Follows(next, c, id, isModel) && First(next) == First(cur) + |facts| && Positioned(facts, c, isModel)
    ensures forall i :: 0 <= i < |facts| ==> facts[i].number == First(cur) + i
  {
    assert !Rotated(cur, c, id) && Start(cur, c, id) == cur.offset;
    if cur.offset < |c| {
      ScanNumbers(c, cur, Max(max, 1), isModel, facts, next.offset);
    }
  }

  lemma NothingPosted(t: Turn, u: Usage, u': Usage, more: bool, c: seq<Byte>, id: Option<int>,
                      isModel: seq<Byte> -> bool, n: nat, next: Cursor)
    requires Bound(u, c, id, isModel, n) && Follows(next, c, id, isModel) && First(next) == First(u.cur)
    requires TurnGives(t, [], next, true, u, u', more)
    ensures Bound(u', c, id, isModel, n)
  {
  }

  lemma NothingRead(t: Turn, u: Usage, u': Usage, more: bool, c: seq<Byte>, id: Option<int>, isModel: seq<Byte> -> bool,
                    n: nat, facts: seq<Fact>, next: Cursor, rotated: bool, ok: bool, max: int)
    requires Bound(u, c, id, isModel, n) && !(ok && t.ledger.File?)
    requires TailGives(t.ledger, t.readable, u.cur, max, isModel, facts, next, rotated, ok)
    requires TurnGives(t, facts, next, ok, u, u', more)
    ensures Bound(u', c, id, isModel, n)
  {
  }

  /** A turn over a ledger whose lines fit keeps everything bound. */
  lemma TurnKeepsBound(t: Turn, max: int, u: Usage, u': Usage, more: bool, c: seq<Byte>, id: Option<int>,
                       isModel: seq<Byte> -> bool,
                       n: nat) returns (m: nat)
    requires Bound(u, c, id, isModel, n) && LinesFit(c) && Sees(t, c, id)
    requires Turned(t, max, isModel, u, u', more)
    ensures m >= n && Bound(u', c, id, isModel, m)
  {
    m := n;
    if !t.cancelled {
      var facts, next, rotated, ok :|
        && TailGives(t.ledger, t.readable, u.cur, max, isModel, facts, next, rotated, ok)
        && TurnGives(t, facts, next, ok, u, u', more);
      if ok && t.ledger.File? {
        TailFollows(t.readable, u.cur, max, c, id, isModel, facts, next, rotated);
        if facts != [] {
          m := PostKeepsBound(u, c, id, isModel, n, facts, next, t, u');
        } else {
          NothingPosted(t, u, u', more, c, id, isModel, n, next);
        }
      } else {
        NothingRead(t, u, u', more, c, id, isModel, n, facts, next, rotated, ok, max);
      }
    }
  }

  lemma GrowthKeepsBound(u: Usage, c: seq<Byte>, d: seq<Byte>, id: Option<int>, isModel: seq<Byte> -> bool, n: nat)
    requires Bound(u, c, id, isModel, n) && c <= d
    ensures Bound(u, d, id, isModel, n)
  {
    GrowthKeepsPositions(c, d, isModel);
    GrowthKeepsCount(u.cur, c, d, isModel);
    forall s | s in u.saved
      ensures Follows(s, d, id, isModel)
    {
      GrowthKeepsCount(s, c, d, isModel);
    }
  }

  /** A crash and a start from any cursor the state file may hold, or from none. */
  lemma RestartKeepsBound(u: Usage, found: Option<Cursor>, c: seq<Byte>, id: Option<int>, isModel: seq<Byte> -> bool,
                          n: nat)
    requires Bound(u, c, id, isModel, n) && (found.Some? ==> found.value in u.saved)
    ensures Bound(Restarted(u, found), c, id, isModel, n)
  {
    assert ModelLines(c, 0, 0, isModel) == [];
  }

  // ---- whole runs -------------------------------------------------------------------------------

  datatype Event =
    | Take(turn: Turn)
    | Grow(more: seq<Byte>)
    | Restart(found: Option<Cursor>)

  /** The ledger and the runner after some events. */
  datatype World = World(content: seq<Byte>, u: Usage)

  ghost predicate Moves(w: World, e: Event, w': World, id: Option<int>, max: int, isModel: seq<Byte> -> bool) {
    match e
    case Take(t) => w'.content == w.content && LinesFit(w.content) && Sees(t, w.content, id)
                    && exists more :: Turned(t, max, isModel, w.u, w'.u, more)
    case Grow(more) => w' == World(w.content + more, w.u)
    case Restart(found) => w' == w.(u := Restarted(w.u, found)) && (found.Some? ==> found.value in w.u.saved)
  }

  ghost predicate IsRun(ws: seq<World>, es: seq<Event>, id: Option<int>, max: int, isModel: seq<Byte> -> bool) {
    && |ws| == |es| + 1
    && ws[0] == World([], Usage(Resumed(None), {}, {}, {}))
    && forall i :: 0 <= i < |es| ==> Moves(ws[i], es[i], ws[i + 1], id, max, isModel)
  }

  lemma {:induction false} RunKeepsBound(ws: seq<World>, es: seq<Event>, id: Option<int>, max: int,
                                         isModel: seq<Byte> -> bool)
    returns (n: nat)
    requires IsRun(ws, es, id, max, isModel)
    ensures Bound(ws[|es|].u, ws[|es|].content, id, isModel, n)
    decreases |es|
  {
    if es == [] {
      n := 0;
      assert ModelLines([], 0, 0, isModel) == [];
    } else {
      var k := |es| - 1;
      assert IsRun(ws[..|es|], es[..k], id, max, isModel);
      n := RunKeepsBound(ws[..|es|], es[..k], id, max, isModel);
      var w := ws[k];
      match es[k] {
        case Take(t) =>
          var more :| Turned(t, max, isModel, w.u, ws[k + 1].u, more);
          n := TurnKeepsBound(t, max, w.u, ws[k + 1].u, more, w.content, id, isModel, n);
        case Grow(more) => GrowthKeepsBound(w.u, w.content, w.content + more, id, isModel, n);
        case Restart(found) => RestartKeepsBound(w.u, found, w.content, id, isModel, n);
      }
    }
  }

  /** Over every run of turns, growth, lost cursor writes, crashes and restarts: a number is bound to one
      fact across all posts, that fact is the ledger's model line of that position, and the accepted
      facts are the first n model lines for some n, with no gap. */
  lemma NumbersAreBound(ws: seq<World>, es: seq<Event>, id: Option<int>, max: int, isModel: seq<Byte> -> bool)
    requires IsRun(ws, es, id, max, isModel)
    ensures var w := ws[|es|];
            && (forall f, g :: f in w.u.posted && g in w.u.posted && f.number == g.number ==> f == g)
            && (forall f :: f in w.u.posted ==>
                  1 <= f.number <= |All(w.content, isModel)| && f.line == All(w.content, isModel)[f.number - 1])
            && exists n: nat :: n <= |All(w.content, isModel)| && IsFirst(w.u.confirmed, n)
  {
    var n := RunKeepsBound(ws, es, id, max, isModel);
  }

  // ---- chunks -----------------------------------------------------------------------------------

  /** One scan in a series: the ledger as it then was, the limit, and what came out. */
  datatype Chunk = Chunk(content: seq<Byte>, limit: nat, facts: seq<Fact>, stop: nat)

  ghost predicate IsChunk(first: nat, off: nat, k: Chunk, isModel: seq<Byte> -> bool) {
    && k.limit >= 1 && off <= |k.content| && LinesFit(k.content)
    && Scanned(k.content, off, WindowEnd(k.content, off), first, k.limit, isModel, k.facts, k.stop)
  }

  ghost predicate IsSeries(first: nat, off: nat, ks: seq<Chunk>, isModel: seq<Byte> -> bool)
    decreases |ks|
  {
    ks == [] ||
    (&& IsChunk(first, off, ks[0], isModel)
     && (|ks| > 1 ==> ks[0].content <= ks[1].content)
     && IsSeries(first + |ks[0].facts|, ks[0].stop, ks[1..], isModel))
  }

  function Facts(ks: seq<Chunk>): seq<Fact> { if ks == [] then [] else ks[0].facts + Facts(ks[1..]) }

  /** However a growing ledger is cut into scans and whatever their limits, their facts put together are
      what reading it once through would give. */
  lemma {:induction false} ChunkIndependent(first: nat, off: nat, ks: seq<Chunk>, c: seq<Byte>,
                                            isModel: seq<Byte> -> bool)
    requires ks != [] && IsSeries(first, off, ks, isModel) && off <= |c| && LineStart(c, off)
    requires ks[0].content <= c && ks[|ks| - 1].content == c && LinesFit(c)
    ensures var stop := ks[|ks| - 1].stop;
            off <= stop <= |c| && LineStart(c, stop) && Facts(ks) == Numbered(first, ModelLines(c, off, stop, isModel))
    decreases |ks|
  {
    var k, rest := ks[0], ks[1..];
    SeriesSplit(first, off, ks, isModel);
    ChunkFacts(first, off, k, c, isModel);
    FactsSplit(ks);
    if rest != [] {
      SeriesGrows(first + |k.facts|, k.stop, rest, isModel);
      ChunkIndependent(first + |k.facts|, k.stop, rest, c, isModel);
      TwoChunks(first, c, off, k.stop, rest[|rest| - 1].stop, k.facts, Facts(rest), isModel);
    }
  }

  lemma SeriesSplit(first: nat, off: nat, ks: seq<Chunk>, isModel: seq<Byte> -> bool)
    requires ks != [] && IsSeries(first, off, ks, isModel)
    ensures IsChunk(first, off, ks[0], isModel)
    ensures |ks| > 1 ==> ks[0].content <= ks[1].content
    ensures IsSeries(first + |ks[0].facts|, ks[0].stop, ks[1..], isModel)
  {
  }

  lemma FactsSplit(ks: seq<Chunk>)
    requires ks != []
    ensures Facts(ks) == ks[0].facts + Facts(ks[1..])
    ensures |ks| == 1 ==> Facts(ks) == ks[0].facts
  {
  }

  lemma TwoChunks(first: nat, c: seq<Byte>, off: nat, mid: nat, stop: nat, a: seq<Fact>, b: seq<Fact>,
                  isModel: seq<Byte> -> bool)
    requires off <= mid <= stop <= |c| && LineStart(c, mid)
    requires a == Numbered(first, ModelLines(c, off, mid, isModel)) &&
             b == Numbered(first + |a|, ModelLines(c, mid, stop, isModel))
    ensures a + b == Numbered(first, ModelLines(c, off, stop, isModel))
  {
    LinesSplit(c, off, mid, stop, isModel);
    NumberedJoin(first, ModelLines(c, off, mid, isModel), ModelLines(c, mid, stop, isModel),
                 ModelLines(c, off, stop, isModel), a, b);
  }

  lemma ChunkFacts(first: nat, off: nat, k: Chunk, c: seq<Byte>, isModel: seq<Byte> -> bool)
    requires IsChunk(first, off, k, isModel) && k.content <= c && off <= |c| && LineStart(c, off)
    ensures off <= k.stop <= |c| && LineStart(c, k.stop)
    ensures k.facts == Numbered(first, ModelLines(c, off, k.stop, isModel))
  {
    assert !Stalled(k.content, off, WindowEnd(k.content, off));
    GrowthKeepsLines(k.content, c, off, k.stop, isModel);
    assert k.stop > off ==> c[k.stop - 1] == k.content[k.stop - 1];
  }

  lemma {:induction false} SeriesGrows(first: nat, off: nat, ks: seq<Chunk>, isModel: seq<Byte> -> bool)
    requires ks != [] && IsSeries(first, off, ks, isModel)
    ensures ks[0].content <= ks[|ks| - 1].content
    decreases |ks|
  {
    if |ks| > 1 {
      SeriesGrows(first + |ks[0].facts|, ks[0].stop, ks[1..], isModel);
    }
  }

  lemma NumberedJoin(first: nat, la: seq<seq<Byte>>, lb: seq<seq<Byte>>, all: seq<seq<Byte>>, a: seq<Fact>,
                     b: seq<Fact>)
    requires all == la + lb && a == Numbered(first, la) && b == Numbered(first + |a|, lb)
    ensures a + b == Numbered(first, all)
  {
  }
}
