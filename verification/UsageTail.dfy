/** The usage tailer's scan (internal/usageaxis/source.go): complete lines from a byte offset, a
    sequence number for each line that is a model fact, and the cursor after them. */
module UsageTail {
  import opened Common

  const NEWLINE: Byte := 10

  /** The most one scan reads: 8 MiB. */
  const MAX_SCAN: nat := 0x80_0000

  /** A fact is its sequence number and the line it was parsed from. */
  datatype Fact = Fact(number: nat, line: seq<Byte>)

  datatype Cursor = Cursor(offset: nat, nextSeq: nat, fileID: int)

  /** The ledger as one scan finds it; id is None where the platform reports none. */
  datatype Ledger = Missing | Unreadable | File(content: seq<Byte>, id: Option<int>)

  // ---- lines ------------------------------------------------------------------------------------

  /** The first newline of c in from .. end; end if there is none. */
  function Newline(c: seq<Byte>, from: nat, end: nat): (n: nat)
    requires from <= end <= |c|
    ensures from <= n <= end
    ensures n < end ==> c[n] == NEWLINE
    ensures NoNewline(c, from, n)
    decreases end - from
  {
    if from == end || c[from] == NEWLINE then from else Newline(c, from + 1, end)
  }

  /** The model lines among the complete lines in from .. end, in order. isModel says what trimming and
      parsing a line finds: a fact of kind model, or something to skip. */
  function ModelLines(c: seq<Byte>, from: nat, end: nat, isModel: seq<Byte> -> bool): seq<seq<Byte>>
    requires from <= end <= |c|
    decreases end - from
  {
    var n := Newline(c, from, end);
    if n == end then []
    else ModelLine(c, from, n, isModel) + ModelLines(c, n + 1, end, isModel)
  }

  /** The line from .. n, if it is a model fact. */
  function ModelLine(c: seq<Byte>, from: nat, n: nat, isModel: seq<Byte> -> bool): (line: seq<seq<Byte>>)
    requires from <= n <= |c|
    ensures |line| <= 1
  {
    if isModel(c[from..n]) then [c[from..n]] else []
  }

  /** A line starts at k. */
  predicate LineStart(c: seq<Byte>, k: nat)
    requires k <= |c|
  {
    k == 0 || c[k - 1] == NEWLINE
  }

  function Numbered(first: nat, lines: seq<seq<Byte>>): (fs: seq<Fact>)
    ensures |fs| == |lines|
    ensures forall i :: 0 <= i < |fs| ==> fs[i] == Fact(first + i, lines[i])
  {
    seq(|lines|, i requires 0 <= i < |lines| => Fact(first + i, lines[i]))
  }

  lemma {:induction false} NewlineWithin(c: seq<Byte>, from: nat, mid: nat, end: nat)
    requires from <= mid <= end <= |c| && Newline(c, from, mid) < mid
    ensures Newline(c, from, end) == Newline(c, from, mid)
    decreases mid - from
  {
    if c[from] != NEWLINE {
      NewlineWithin(c, from + 1, mid, end);
    }
  }

  /** The first line and then the others. */
  lemma FirstLine(c: seq<Byte>, from: nat, n: nat, end: nat, isModel: seq<Byte> -> bool)
    requires from <= n < end <= |c| && n == Newline(c, from, end)
    ensures ModelLines(c, from, end, isModel) == ModelLine(c, from, n, isModel) + ModelLines(c, n + 1, end, isModel)
  {
  }

  /** Lines are read the same whether in one piece or in two cut at a line start. */
  lemma {:induction false} LinesSplit(c: seq<Byte>, from: nat, mid: nat, end: nat, isModel: seq<Byte> -> bool)
    requires from <= mid <= end <= |c| && (mid == from || LineStart(c, mid))
    ensures ModelLines(c, from, end, isModel) == ModelLines(c, from, mid, isModel) + ModelLines(c, mid, end, isModel)
    decreases mid - from
  {
    if from == mid {
      assert ModelLines(c, from, mid, isModel) == [];
    } else {
      var n := Newline(c, from, mid);
      assert n < mid by {
        assert c[mid - 1] == NEWLINE;
      }
      LinesSplit(c, n + 1, mid, end, isModel);
      NewlineWithin(c, from, mid, end);
      SplitAfterFirst(c, from, n, mid, end, isModel);
    }
  }

  lemma SplitAfterFirst(c: seq<Byte>, from: nat, n: nat, mid: nat, end: nat, isModel: seq<Byte> -> bool)
    requires from <= n < mid <= end <= |c| && n == Newline(c, from, mid) == Newline(c, from, end)
    requires ModelLines(c, n + 1, end, isModel) == ModelLines(c, n + 1, mid, isModel) + ModelLines(c, mid, end, isModel)
    ensures ModelLines(c, from, end, isModel) == ModelLines(c, from, mid, isModel) + ModelLines(c, mid, end, isModel)
  {
    hide *;
    FirstLine(c, from, n, mid, isModel);
    FirstLine(c, from, n, end, isModel);
    Associates(ModelLine(c, from, n, isModel), ModelLines(c, n + 1, mid, isModel), ModelLines(c, mid, end, isModel));
  }

  lemma Prefixed<T>(a: seq<T>)
    ensures [] + a == a && a + [] == a
  {
  }

  lemma Associates<T>(a: seq<T>, b: seq<T>, c: seq<T>)
    ensures (a + b) + c == a + (b + c)
  {
  }

  lemma NumberedSnoc(first: nat, lines: seq<seq<Byte>>, line: seq<Byte>)
    ensures Numbered(first, lines + [line]) == Numbered(first, lines) + [Fact(first + |lines|, line)]
  {
  }

  /** One complete line. */
  lemma OneLine(c: seq<Byte>, from: nat, n: nat, isModel: seq<Byte> -> bool)
    requires from <= n < |c| && c[n] == NEWLINE && NoNewline(c, from, n)
    ensures ModelLines(c, from, n + 1, isModel) == ModelLine(c, from, n, isModel)
  {
    assert Newline(c, from, n + 1) == n;
    assert ModelLines(c, n + 1, n + 1, isModel) == [];
    Prefixed(ModelLine(c, from, n, isModel));
  }

  // ---- one scan ---------------------------------------------------------------------------------

  predicate Rotated(cur: Cursor, content: seq<Byte>, id: Option<int>) {
    (id.Some? && cur.fileID != 0 && id.value != cur.fileID) || |content| < cur.offset
  }

  function Start(cur: Cursor, content: seq<Byte>, id: Option<int>): (off: nat)
    ensures |content| >= off
  {
    if Rotated(cur, content, id) then 0 else cur.offset
  }

  function First(cur: Cursor): nat { if cur.nextSeq == 0 then 1 else cur.nextSeq }

  /** Where the window read from off ends. */
  function WindowEnd(content: seq<Byte>, off: nat): (end: nat)
    requires off <= |content|
    ensures off <= end <= |content|
  {
    if |content| - off > MAX_SCAN then off + MAX_SCAN else |content|
  }

  predicate NoNewline(c: seq<Byte>, from: nat, end: nat)
    requires from <= end <= |c|
  {
    forall k :: from <= k < end ==> c[k] != NEWLINE
  }

  /** One line longer than a whole scan: it is skipped window by window. */
  predicate Stalled(c: seq<Byte>, off: nat, end: nat)
    requires off <= end <= |c|
  {
    end - off == MAX_SCAN && NoNewline(c, off, end)
  }

  /** What a scan of the window off .. end yields: the facts of the complete lines up to stop, stopping
      at limit facts or where no complete line is left. */
  predicate Scanned(c: seq<Byte>, off: nat, end: nat, first: nat, limit: nat, isModel: seq<Byte> -> bool,
                    facts: seq<Fact>, stop: nat)
    requires off <= end <= |c|
  {
    && off <= stop <= end
    && (if Stalled(c, off, end) then stop == end && facts == []
        else
          && (stop == off || LineStart(c, stop))
          && facts == Numbered(first, ModelLines(c, off, stop, isModel))
          && |facts| <= limit
          && (|facts| == limit || NoNewline(c, stop, end)))
  }

  lemma LinesAndOne(c: seq<Byte>, off: nat, stop: nat, nl: nat, isModel: seq<Byte> -> bool)
    requires off <= stop <= nl < |c| && (stop == off || LineStart(c, stop))
    requires c[nl] == NEWLINE && NoNewline(c, stop, nl)
    ensures ModelLines(c, off, nl + 1, isModel) == ModelLines(c, off, stop, isModel) + ModelLine(c, stop, nl, isModel)
  {
    hide ModelLines, Newline;
    OneLine(c, stop, nl, isModel);
    LinesSplit(c, off, stop, nl + 1, isModel);
  }

  lemma NumberedMore(first: nat, lines: seq<seq<Byte>>, line: seq<seq<Byte>>, facts: seq<Fact>, more: seq<Fact>)
    requires |line| <= 1 && facts == Numbered(first, lines)
    requires more == if line == [] then facts else facts + [Fact(first + |facts|, line[0])]
    ensures more == Numbered(first, lines + line)
  {
    if line == [] {
      Prefixed(lines);
    } else {
      assert line == [line[0]];
      NumberedSnoc(first, lines, line[0]);
    }
  }

  /** Reading the line stop .. nl adds its fact, if it is one, under the next number. */
  lemma ScanLine(c: seq<Byte>, off: nat, stop: nat, nl: nat, first: nat, isModel: seq<Byte> -> bool, facts: seq<Fact>,
                 more: seq<Fact>)
    requires off <= stop <= nl < |c| && (stop == off || LineStart(c, stop)) && c[nl] == NEWLINE &&
             NoNewline(c, stop, nl)
    requires facts == Numbered(first, ModelLines(c, off, stop, isModel))
    requires more == if isModel(c[stop..nl]) then facts + [Fact(first + |facts|, c[stop..nl])] else facts
    ensures more == Numbered(first, ModelLines(c, off, nl + 1, isModel))
  {
    LinesAndOne(c, off, stop, nl, isModel);
    NumberedMore(first, ModelLines(c, off, stop, isModel), ModelLine(c, stop, nl, isModel), facts, more);
  }

  /** The scan so far: what is consumed, and the facts found there. */
  ghost predicate Scanning(c: seq<Byte>, off: nat, end: nat, first: nat, isModel: seq<Byte> -> bool, facts: seq<Fact>,
                           stop: nat)
    requires off <= end <= |c|
  {
    off <= stop <= end && (stop == off || LineStart(c, stop)) &&
        facts == Numbered(first, ModelLines(c, off, stop, isModel))
  }

  lemma ScanStep(c: seq<Byte>, off: nat, end: nat, first: nat, isModel: seq<Byte> -> bool, facts: seq<Fact>, stop: nat,
                 nl: nat,
                 more: seq<Fact>)
    requires off <= end <= |c| && Scanning(c, off, end, first, isModel, facts, stop)
    requires nl == Newline(c, stop, end) && nl < end
    requires more == if isModel(c[stop..nl]) then facts + [Fact(first + |facts|, c[stop..nl])] else facts
    ensures Scanning(c, off, end, first, isModel, more, nl + 1)
  {
    ScanLine(c, off, stop, nl, first, isModel, facts, more);
  }

  /** The lines of one window, until the limit or the last complete line. */
  method ScanLines(c: seq<Byte>, off: nat, end: nat, first: nat, limit: nat, isModel: seq<Byte> -> bool)
    returns (facts: seq<Fact>, stop: nat)
    requires off <= end <= |c|
    ensures Scanning(c, off, end, first, isModel, facts, stop) && |facts| <= limit
    ensures |facts| == limit || NoNewline(c, stop, end)
  {
    facts := [];
    stop := off;
    while |facts| < limit
      invariant Scanning(c, off, end, first, isModel, facts, stop) && |facts| <= limit
      decreases end - stop
    {
      var nl := Newline(c, stop, end);
      if nl == end {
        return;
      }
      var line := c[stop..nl];
      var more := if isModel(line) then facts + [Fact(first + |facts|, line)] else facts;
      ScanStep(c, off, end, first, isModel, facts, stop, nl, more);
      facts, stop := more, nl + 1;
    }
  }

  method ScanWindow(c: seq<Byte>, off: nat, end: nat, first: nat, limit: nat, isModel: seq<Byte> -> bool)
    returns (facts: seq<Fact>, stop: nat)
    requires off <= end <= |c| && limit >= 1
    ensures Scanned(c, off, end, first, limit, isModel, facts, stop)
  {
    facts, stop := ScanLines(c, off, end, first, limit, isModel);
    ScanEnds(c, off, end, first, limit, isModel, facts, stop);
    if stop == off && end - off == MAX_SCAN {
      stop := end;
    }
  }

  /** A scan that stops finished its limit or its lines; one that consumed nothing of a full window found
      no line in it. */
  lemma ScanEnds(c: seq<Byte>, off: nat, end: nat, first: nat, limit: nat, isModel: seq<Byte> -> bool,
                 facts: seq<Fact>, stop: nat)
    requires off <= end <= |c| && limit >= 1 && |facts| <= limit
    requires Scanning(c, off, end, first, isModel, facts, stop)
    requires |facts| == limit || NoNewline(c, stop, end)
    ensures Scanned(c, off, end, first, limit, isModel, facts, if stop == off && end - off == MAX_SCAN then end
                    else stop)
  {
    if stop > off {
      assert c[stop - 1] == NEWLINE;
    }
  }

  /** What reading the ledger after cur gives: the next facts and the cursor after them, or ok false when
      it cannot be read. */
  ghost predicate TailGives(l: Ledger, readable: bool, cur: Cursor, max: int, isModel: seq<Byte> -> bool,
                            facts: seq<Fact>, next: Cursor, rotated: bool, ok: bool) {
    match l
    case Missing => ok && facts == [] && next == cur && !rotated
    case Unreadable => !ok && facts == [] && next == cur && !rotated
    case File(content, id) =>
      var off, newID := Start(cur, content, id), if id.Some? then id.value else cur.fileID;
      && rotated == Rotated(cur, content, id)
      && if off == |content| then ok && facts == [] && next == Cursor(off, cur.nextSeq, newID)
         else if !readable then !ok && facts == [] && next == cur
         else
           && ok && next.fileID == newID && next.nextSeq == First(cur) + |facts|
           && Scanned(content, off, WindowEnd(content, off), First(cur), Max(max, 1), isModel, facts, next.offset)
  }

  /** Reads new complete lines after cur. The cursor it returns is a candidate, to be kept only once its
      facts are accepted. */
  method Tail(l: Ledger, readable: bool, cur: Cursor, max: int, isModel: seq<Byte> -> bool)
    returns (facts: seq<Fact>, next: Cursor, rotated: bool, ok: bool)
    ensures TailGives(l, readable, cur, max, isModel, facts, next, rotated, ok)
  {
    match l {
      case Missing => return [], cur, false, true;
      case Unreadable => return [], cur, false, false;
      case File(content, id) =>
        var off := cur.offset;
        rotated := false;
        if (id.Some? && cur.fileID != 0 && id.value != cur.fileID) || |content| < off {
          off := 0;
          rotated := true;
        }
        var newID := if id.Some? then id.value else cur.fileID;
        if off >= |content| {
          return [], Cursor(off, cur.nextSeq, newID), rotated, true;
        }
        if !readable {
          return [], cur, rotated, false;
        }
        var stop;
        facts, stop := ScanWindow(content, off, WindowEnd(content, off), First(cur), Max(max, 1), isModel);
        next := Cursor(stop, First(cur) + |facts|, newID);
        ok := true;
    }
  }

  // ---- what a cursor means ----------------------------------------------------------------------

  /** No line of the ledger is longer than one scan. */
  ghost predicate LinesFit(c: seq<Byte>) {
    forall i, j :: 0 <= i <= j <= |c| && j == i + MAX_SCAN ==> !NoNewline(c, i, j)
  }

  /** The model lines of the ledger before k. */
  function Before(c: seq<Byte>, k: nat, isModel: seq<Byte> -> bool): seq<seq<Byte>>
    requires k <= |c|
  {
    ModelLines(c, 0, k, isModel)
  }

  function All(c: seq<Byte>, isModel: seq<Byte> -> bool): seq<seq<Byte>> { Before(c, |c|, isModel) }

  /** The cursor sits at a line start and its next number counts the model lines before it. */
  ghost predicate Counts(cur: Cursor, c: seq<Byte>, isModel: seq<Byte> -> bool) {
    && cur.offset <= |c|
    && LineStart(c, cur.offset)
    && First(cur) == 1 + |Before(c, cur.offset, isModel)|
  }

  /** The facts are the ledger's model lines, each under its own position. */
  ghost predicate Positioned(facts: seq<Fact>, c: seq<Byte>, isModel: seq<Byte> -> bool) {
    forall f :: f in facts ==> 1 <= f.number <= |All(c, isModel)| && f.line == All(c, isModel)[f.number - 1]
  }

  lemma NumberedInside(before: seq<seq<Byte>>, lines: seq<seq<Byte>>, after: seq<seq<Byte>>)
    ensures var all := before + lines + after;
            forall f :: f in Numbered(1 + |before|, lines) ==> 1 <= f.number <= |all| && f.line == all[f.number - 1]
  {
  }

  /** A scan from a counting cursor numbers the next model lines by their positions and leaves a cursor
      that counts. */
  lemma ScanNumbers(c: seq<Byte>, cur: Cursor, limit: nat, isModel: seq<Byte> -> bool, facts: seq<Fact>, stop: nat)
    requires Counts(cur, c, isModel) && LinesFit(c) && limit >= 1
    requires Scanned(c, cur.offset, WindowEnd(c, cur.offset), First(cur), limit, isModel, facts, stop)
    ensures LineStart(c, stop) &&
            Before(c, stop, isModel) == Before(c, cur.offset, isModel) + ModelLines(c, cur.offset, stop, isModel)
    ensures facts == Numbered(First(cur), ModelLines(c, cur.offset, stop, isModel))
    ensures Positioned(facts, c, isModel)
  {
    assert !Stalled(c, cur.offset, WindowEnd(c, cur.offset));
    LinesSplit(c, 0, cur.offset, stop, isModel);
    LinesSplit(c, 0, stop, |c|, isModel);
    NumberedInside(Before(c, cur.offset, isModel), ModelLines(c, cur.offset, stop, isModel),
                   ModelLines(c, stop, |c|, isModel));
  }

  /** A ledger that only grew reads the same where it was. */
  lemma {:induction false} GrowthKeepsNewline(c: seq<Byte>, d: seq<Byte>, from: nat, end: nat)
    requires c <= d && from <= end <= |c|
    ensures Newline(c, from, end) == Newline(d, from, end)
    decreases end - from
  {
    if from < end && c[from] != NEWLINE {
      GrowthKeepsNewline(c, d, from + 1, end);
    }
  }

  lemma {:induction false} GrowthKeepsLines(c: seq<Byte>, d: seq<Byte>, from: nat, end: nat, isModel: seq<Byte> -> bool)
    requires c <= d && from <= end <= |c|
    ensures ModelLines(c, from, end, isModel) == ModelLines(d, from, end, isModel)
    decreases end - from
  {
    GrowthKeepsNewline(c, d, from, end);
    var n := Newline(c, from, end);
    if n < end {
      GrowthKeepsLines(c, d, n + 1, end, isModel);
      GrowthKeepsFirst(c, d, from, n, end, isModel);
    }
  }

  lemma GrowthKeepsFirst(c: seq<Byte>, d: seq<Byte>, from: nat, n: nat, end: nat, isModel: seq<Byte> -> bool)
    requires c <= d && from <= n < end <= |c| && n == Newline(c, from, end) == Newline(d, from, end)
    requires ModelLines(c, n + 1, end, isModel) == ModelLines(d, n + 1, end, isModel)
    ensures ModelLines(c, from, end, isModel) == ModelLines(d, from, end, isModel)
  {
    hide ModelLines, Newline;
    FirstLine(c, from, n, end, isModel);
    FirstLine(d, from, n, end, isModel);
    assert c[from..n] == d[from..n];
  }

  /** And what is complete stays where it is when an unfinished last line is finished. */
  lemma GrowthKeepsPositions(c: seq<Byte>, d: seq<Byte>, isModel: seq<Byte> -> bool)
    requires c <= d
    ensures All(c, isModel) <= All(d, isModel)
  {
    var k := LastStart(c, |c|);
    LinesSplit(c, 0, k, |c|, isModel);
    assert Newline(c, k, |c|) == |c|;
    assert ModelLines(c, k, |c|, isModel) == [];
    LinesSplit(d, 0, k, |d|, isModel);
    GrowthKeepsLines(c, d, 0, k, isModel);
  }

  /** Where the unfinished last line starts. */
  function LastStart(c: seq<Byte>, k: nat): (n: nat)
    requires k <= |c|
    ensures n <= k && LineStart(c, n) && NoNewline(c, n, k)
  {
    if k == 0 || c[k - 1] == NEWLINE then k else LastStart(c, k - 1)
  }

  lemma GrowthKeepsCount(cur: Cursor, c: seq<Byte>, d: seq<Byte>, isModel: seq<Byte> -> bool)
    requires c <= d && Counts(cur, c, isModel)
    ensures Counts(cur, d, isModel)
  {
    GrowthKeepsLines(c, d, 0, cur.offset, isModel);
  }
}
