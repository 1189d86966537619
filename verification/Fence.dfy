/** The consent fence itself (internal/observer/daemon/consent_fence.go): its fields updated in place
    under its lock, over the two interval structures and the ledger file. Each method is proved against
    the function of FenceSpec that says what it does. */
module ConsentFence {
  import opened Common
  import opened Intervals
  import opened ConsentPolicy
  import opened FenceSpec

  const LEDGER_VERSION := 1

  datatype ShutdownRecord = ShutdownRecord(highestDurable: int, attemptedThrough: int, origins: seq<Run>)

  /** The ledger document; an absent file reads as the one with nothing in it. */
  datatype Document = Document(version: int, withheld: seq<Range>, shutdown: Option<ShutdownRecord>)

  // ---- what a document means, and which ones the reader accepts ----------------------------------

  ghost function HandoverIn(sh: ShutdownRecord): Handover {
    Handover(sh.highestDurable, sh.attemptedThrough, ToMap(sh.origins))
  }

  ghost function Meant(sh: Option<ShutdownRecord>): Option<Handover> {
    match sh case None => None case Some(r) => Some(HandoverIn(r))
  }

  ghost function LedgerIn(d: Document): Ledger { Ledger(Elems(d.withheld), Meant(d.shutdown)) }

  ghost predicate RangesReadable(rs: seq<Range>) {
    && (forall i :: 0 <= i < |rs| ==> 1 <= rs[i].lo <= rs[i].hi)
    && (forall i :: 0 < i < |rs| ==> rs[i - 1].hi < rs[i].lo)
  }

  ghost predicate RunReadable(r: Run) { 1 <= r.first <= r.last && r.origin.root != "" && r.origin.generation != 0 }

  ghost predicate RunsReadable(rs: seq<Run>) {
    && (forall i :: 0 <= i < |rs| ==> RunReadable(rs[i]))
    && (forall i :: 0 < i < |rs| ==> rs[i - 1].last < rs[i].first)
  }

  ghost predicate RecordReadable(sh: ShutdownRecord) {
    sh.highestDurable >= 0 && sh.attemptedThrough >= 0 && RunsReadable(sh.origins)
  }

  ghost predicate Readable(d: Document) {
    && d.version == LEDGER_VERSION
    && (d.shutdown.Some? ==> RecordReadable(d.shutdown.value))
    && RangesReadable(d.withheld)
  }

  /** Version 1; a shutdown record, if any, of marks that are not negative and runs of positive sequences and
      generations under named roots; withheld ranges of positive sequences; both ascending and apart. */
  lemma ReadableMeans(d: Document)
    ensures Readable(d) <==>
              && d.version == 1
              && (d.shutdown.Some? ==>
                    var sh := d.shutdown.value;
                    && sh.highestDurable >= 0 && sh.attemptedThrough >= 0
                    && (forall i :: 0 <= i < |sh.origins| ==>
                          && 1 <= sh.origins[i].first <= sh.origins[i].last
                          && sh.origins[i].origin.root != "" && sh.origins[i].origin.generation > 0
                          && (i > 0 ==> sh.origins[i - 1].last < sh.origins[i].first)))
              && (forall i :: 0 <= i < |d.withheld| ==>
                    && 1 <= d.withheld[i].lo <= d.withheld[i].hi
                    && (i > 0 ==> d.withheld[i - 1].hi < d.withheld[i].lo))
  {
  }

  /** The reader's checks on a decoded document, exactly: it accepts what is Readable and nothing else. */
  method CheckDocument(d: Document) returns (r: Result<Document, string>)
    ensures r.Ok? <==> Readable(d)
    ensures r.Ok? ==> r.value == d
  {
    if d.version != LEDGER_VERSION {
      return Err("unsupported version");
    }
    if d.shutdown.Some? {
      var sh := d.shutdown.value;
      if sh.highestDurable < 0 || sh.attemptedThrough < 0 {
        return Err("malformed shutdown record");
      }
      var prevOrigin := 0;
      for i := 0 to |sh.origins|
        invariant forall k :: 0 <= k < i ==> RunReadable(sh.origins[k])
        invariant forall k :: 0 < k < i ==> sh.origins[k - 1].last < sh.origins[k].first
        invariant prevOrigin == if i == 0 then 0 else sh.origins[i - 1].last
      {
        var o := sh.origins[i];
        if o.first < 1 || o.last < o.first || o.first <= prevOrigin || o.origin.root == "" || o.origin.generation == 0 {
          assert !RunReadable(o) || (i > 0 && sh.origins[i - 1].last >= o.first);
          return Err("malformed shutdown origin");
        }
        prevOrigin := o.last;
      }
    }
    var prev := 0;
    for i := 0 to |d.withheld|
      invariant forall k :: 0 <= k < i ==> 1 <= d.withheld[k].lo <= d.withheld[k].hi
      invariant forall k :: 0 < k < i ==> d.withheld[k - 1].hi < d.withheld[k].lo
      invariant prev == if i == 0 then 0 else d.withheld[i - 1].hi
    {
      var r := d.withheld[i];
      if r.lo < 1 || r.hi < r.lo || r.lo <= prev {
        return Err("malformed withheld range");
      }
      prev := r.hi;
    }
    return Ok(d);
  }

  lemma {:induction false} ReadableRunsOk(rs: seq<Run>)
    requires RunsReadable(rs)
    ensures RunsOk(rs)
  {
    if rs != [] {
      var n := |rs| - 1;
      ReadableRunsOk(rs[..n]);
      forall i, j | 0 <= i < j < |rs|
        ensures rs[i].last < rs[j].first
      {
        if j == n && i < n - 1 {
          assert rs[..n][i].last < rs[..n][n - 1].first;
        } else if j < n {
          assert rs[..n][i].last < rs[..n][j].first;
        }
      }
    }
  }

  /** What the fence holds can always be written down and read back. */
  ghost predicate Sane(m: map<int, Origin>) {
    forall s :: s in m ==> s >= 1 && m[s].root != "" && m[s].generation >= 1
  }

  lemma SaneRuns(rs: seq<Run>)
    requires RunsOk(rs) && Sane(ToMap(rs))
    ensures RunsReadable(rs)
  {
    forall i | 0 <= i < |rs|
      ensures RunReadable(rs[i])
    {
      ToMapAt(rs, i, rs[i].first);
    }
  }

  lemma SaneRanges(rs: seq<Range>)
    requires RangesOk(rs) && forall s :: s in Elems(rs) ==> s >= 1
    ensures RangesReadable(rs)
  {
    InElems(rs);
    forall i | 0 <= i < |rs|
      ensures 1 <= rs[i].lo
    {
      assert Holds(rs[i], rs[i].lo) && rs[i].lo in Elems(rs);
    }
  }

  // ---- the ledger file --------------------------------------------------------------------------

  /** The file on disk: every document it may hold. An atomic replacement that reports an error may
      have happened all the same (the rename precedes the directory's flush). */
  class LedgerFile {
    ghost var possible: set<Document>

    ghost function Ledgers(): set<Ledger>
      reads this
    {
      set d | d in possible :: LedgerIn(d)
    }

    constructor (d: Document)
      ensures possible == {d}
    {
      possible := {d};
    }

    method WriteAtomic(d: Document, wrote: bool) returns (ok: bool)
      modifies this
      ensures ok == wrote
      ensures possible == if wrote then {d} else old(possible) + {d}
      ensures Ledgers() == if wrote then {LedgerIn(d)} else old(Ledgers()) + {LedgerIn(d)}
    {
      ghost var before := Ledgers();
      possible := if wrote then {d} else possible + {d};
      assert !wrote ==> Ledgers() == before + {LedgerIn(d)};
      return wrote;
    }
  }

  // ---- clipping runs to what is above a mark -----------------------------------------------------

  function ClippedRun(r: Run, mark: int): Run { r.(first := Max(r.first, mark + 1)) }

  /** out is the first n runs without the first i of them, cut to what is above mark. */
  ghost predicate ClippedFrom(rs: seq<Run>, n: nat, i: nat, mark: int, out: seq<Run>)
    requires n <= |rs|
  {
    && i + |out| == n
    && (forall k :: 0 <= k < i ==> rs[k].last <= mark)
    && (forall k :: i <= k < n ==> rs[k].last > mark)
    && (forall k :: 0 <= k < |out| ==> out[k] == ClippedRun(rs[i + k], mark))
  }

  lemma ClippedMeans(rs: seq<Run>, i: nat, mark: int, out: seq<Run>)
    requires RunsOk(rs) && ClippedFrom(rs, |rs|, i, mark, out)
    ensures RunsOk(out) && ToMap(out) == Above(ToMap(rs), mark)
    ensures out != [] ==> out[|out| - 1].last == rs[|rs| - 1].last
  {
    assert forall k :: i < k < |rs| ==> mark < rs[i].last < rs[k].first;
    PrunedRuns(rs, i, mark, out);
  }

  /** The last run's end is the highest key. */
  lemma HighestOfRuns(rs: seq<Run>, floor: int)
    requires RunsOk(rs)
    ensures Highest(ToMap(rs).Keys, floor) == if rs == [] then floor else Max(floor, rs[|rs| - 1].last)
  {
    InKeys(rs);
    if rs != [] {
      ToMapAt(rs, |rs| - 1, rs[|rs| - 1].last);
      BeyondEnd(rs, rs[|rs| - 1].last + 1);
      assert forall x :: x in ToMap(rs) ==> x <= rs[|rs| - 1].last;
    }
  }

  /** The runs above mark, and the larger of floor and where the last of them ends. */
  method ClipRuns(rs: seq<Run>, mark: int, floor: int) returns (out: seq<Run>, top: int, ghost gone: nat)
    requires RunsOk(rs)
    ensures ClippedFrom(rs, |rs|, gone, mark, out)
    ensures top == if out == [] then floor else Max(floor, rs[|rs| - 1].last)
  {
    top := floor;
    out := [];
    gone := 0;
    for k := 0 to |rs|
      invariant ClippedFrom(rs, k, gone, mark, out)
      invariant out != [] ==> k > 0 && rs[k - 1].last > mark
      invariant top == if out == [] then floor else Max(floor, rs[k - 1].last)
    {
      var run := rs[k];
      assert k > 0 ==> rs[k - 1].last < run.first;
      if run.last <= mark {
        gone := k + 1;
        continue;
      }
      out := out + [ClippedRun(run, mark)];
      top := Max(top, run.last);
    }
  }

  // ---- set bookkeeping for the methods below ------------------------------------------------------

  predicate Spared(run: Run, attempted: int, p: Policy) { run.last <= attempted || AllowedBy(run.origin, p) }

  /** base with what applying p withholds on top, run by run. */
  ghost function WithDenied(base: set<int>, rs: seq<Run>, attempted: int, p: Policy): (s: set<int>)
    ensures base <= s
  {
    if rs == [] then base
    else
      var run, init := rs[|rs| - 1], WithDenied(base, rs[..|rs| - 1], attempted, p);
      if Spared(run, attempted, p) then init else init + Span(Max(run.first, attempted + 1), run.last)
  }

  /** A grown set has grown from base exactly when it had before, or something was lacking now. */
  lemma GrowsBySpan(base: set<int>, was: set<int>, lo: int, hi: int)
    requires base <= was
    ensures was + Span(lo, hi) != base <==> was != base || Lacking(lo, hi, was) > 0
  {
    LackingGrows(lo, hi, was);
    Grew(base, was, was + Span(lo, hi));
  }

  lemma Grew(a: set<int>, b: set<int>, c: set<int>)
    requires a <= b <= c
    ensures c != a <==> b != a || c != b
  {
  }

  lemma {:induction false} InDenied(base: set<int>, rs: seq<Run>, attempted: int, p: Policy)
    ensures forall x :: x in WithDenied(base, rs, attempted, p)
                        <==> x in base || (x > attempted && exists i ::
                               0 <= i < |rs| && Covers(rs[i], x) && !AllowedBy(rs[i].origin, p))
  {
    if rs != [] {
      var n := |rs| - 1;
      InDenied(base, rs[..n], attempted, p);
      forall x
        ensures x in WithDenied(base, rs, attempted, p)
                <==> x in base || (x > attempted && exists i ::
                       0 <= i < |rs| && Covers(rs[i], x) && !AllowedBy(rs[i].origin, p))
      {
        if x > attempted && x !in base {
          if i :| 0 <= i < n && Covers(rs[..n][i], x) && !AllowedBy(rs[..n][i].origin, p) {
            assert Covers(rs[i], x);
          }
          if i :| 0 <= i < |rs| && Covers(rs[i], x) && !AllowedBy(rs[i].origin, p) {
            assert i < n ==> Covers(rs[..n][i], x);
          }
          if !Spared(rs[n], attempted, p) && x in Span(Max(rs[n].first, attempted + 1), rs[n].last) {
            assert Covers(rs[n], x);
          }
        }
      }
    }
  }

  lemma DeniedMeans(f: FenceSpec.Fence, rs: seq<Run>, p: Policy)
    requires RunsOk(rs) && f.origins == ToMap(rs)
    ensures WithDenied(f.withheld, rs, f.attempted, p) == f.withheld + Denied(f, p)
  {
    InDenied(f.withheld, rs, f.attempted, p);
    InKeys(rs);
    forall x
      ensures x in WithDenied(f.withheld, rs, f.attempted, p) <==> x in f.withheld + Denied(f, p)
    {
      if i :| 0 <= i < |rs| && Covers(rs[i], x) {
        ToMapAt(rs, i, x);
        assert forall j :: 0 <= j < |rs| && Covers(rs[j], x) ==> j == i;
      }
    }
  }

  lemma AppliedMeans(f: FenceSpec.Fence, rs: seq<Run>, p: Policy)
    requires RunsOk(rs) && f.origins == ToMap(rs) && !AlreadyApplied(f, p)
    ensures var w := WithDenied(f.withheld, rs, f.attempted, p);
            && Applied(f, p) == f.(applied := Some(p), withheld := w, dirty := f.dirty || w != f.withheld)
            && (Withdraws(f, p) <==> w != f.withheld)
            && forall s :: s in w ==> s in f.withheld || s in f.origins
  {
    DeniedMeans(f, rs, p);
    var d := Denied(f, p);
    if d <= f.withheld {
      assert f.withheld + d == f.withheld;
    } else {
      var x :| x in d && x !in f.withheld;
      assert x in f.withheld + d;
    }
  }

  /** A read that ends early ends for good. */
  lemma {:induction false} DecidedStops(f: FenceSpec.Fence, p: Policy, frames: seq<int>, bad: set<int>, k: nat)
    requires k <= |frames| && DecidedAll(f, p, frames[..k], bad).payloads.None?
    ensures DecidedAll(f, p, frames, bad) == DecidedAll(f, p, frames[..k], bad)
    decreases |frames|
  {
    if k < |frames| {
      assert frames[..|frames| - 1][..k] == frames[..k];
      DecidedStops(f, p, frames[..|frames| - 1], bad, k);
    } else {
      assert frames[..k] == frames;
    }
  }

  /** The loader keeps what is at or below the durable ceiling, range by range. */
  ghost function KeptIn(rs: seq<Range>, ceiling: int): set<int> {
    set s | s in Elems(rs) && s <= ceiling
  }

  lemma KeptStep(rs: seq<Range>, k: nat, ceiling: int)
    requires k < |rs|
    ensures KeptIn(rs[..k + 1], ceiling)
         == KeptIn(rs[..k], ceiling) + (if rs[k].lo <= ceiling then Span(rs[k].lo, Min(rs[k].hi, ceiling)) else {})
  {
    assert rs[..k + 1] == rs[..k] + [rs[k]];
    ElemsAppend(rs[..k], rs[k]);
  }

  /** The loader keeps the origins strictly above mark and at or below ceiling. */
  ghost function OriginsWithin(m: map<int, Origin>, mark: int, ceiling: int): map<int, Origin> {
    map s | s in m && mark < s <= ceiling :: m[s]
  }

  lemma WithinStep(rs: seq<Run>, k: nat, mark: int, ceiling: int)
    requires RunsOk(rs) && k < |rs|
    ensures OriginsWithin(ToMap(rs[..k + 1]), mark, ceiling)
         == WithRun(OriginsWithin(ToMap(rs[..k]), mark, ceiling), Max(rs[k].first, mark + 1), Min(rs[k].last, ceiling),
                    rs[k].origin)
  {
    var init, run := rs[..k], rs[k];
    assert rs[..k + 1] == init[..k] + [run] + init[k..];
    InsertedRuns(init, k, run, rs[..k + 1]);
    BeyondEnd(init, run.first);
    InKeys(init);
    assert Span(run.first, run.last) !! ToMap(init).Keys;
    CutWithRun(ToMap(init), run, mark, ceiling);
  }

  /** What the loader's loop builds, run by run. */
  ghost function Loaded(rs: seq<Run>, mark: int, ceiling: int): map<int, Origin> {
    if rs == [] then map[]
    else
      var run := rs[|rs| - 1];
      WithRun(Loaded(rs[..|rs| - 1], mark, ceiling), Max(run.first, mark + 1), Min(run.last, ceiling), run.origin)
  }

  lemma {:induction false} LoadedMeans(rs: seq<Run>, mark: int, ceiling: int)
    requires RunsOk(rs)
    ensures Loaded(rs, mark, ceiling) == OriginsWithin(ToMap(rs), mark, ceiling)
  {
    if rs == [] {
      assert OriginsWithin(ToMap(rs), mark, ceiling) == map[];
    } else {
      var n := |rs| - 1;
      LoadedMeans(rs[..n], mark, ceiling);
      WithinStep(rs, n, mark, ceiling);
      assert rs[..n + 1] == rs;
    }
  }

  lemma WithinSane(rs: seq<Run>, mark: int, ceiling: int)
    requires RunsReadable(rs)
    ensures Sane(OriginsWithin(ToMap(rs), mark, ceiling))
  {
    ReadableRunsOk(rs);
    InKeys(rs);
    forall x | x in OriginsWithin(ToMap(rs), mark, ceiling)
      ensures x >= 1 && ToMap(rs)[x].root != "" && ToMap(rs)[x].generation >= 1
    {
      var i :| 0 <= i < |rs| && Covers(rs[i], x);
      ToMapAt(rs, i, x);
      assert RunReadable(rs[i]);
    }
  }

  lemma CutWithRun(m: map<int, Origin>, run: Run, mark: int, ceiling: int)
    requires Span(run.first, run.last) !! m.Keys
    ensures OriginsWithin(WithRun(m, run.first, run.last, run.origin), mark, ceiling)
         == WithRun(OriginsWithin(m, mark, ceiling), Max(run.first, mark + 1), Min(run.last, ceiling), run.origin)
  {
    var lo, hi := Max(run.first, mark + 1), Min(run.last, ceiling);
    forall x | x in Span(lo, hi)
      ensures x in Span(run.first, run.last)
    {
    }
    assert Span(lo, hi) !! OriginsWithin(m, mark, ceiling).Keys;
    var a := OriginsWithin(m + Uniform(run.first, run.last, run.origin), mark, ceiling);
    var b := OriginsWithin(m, mark, ceiling) + Uniform(lo, hi, run.origin);
    assert a.Keys == b.Keys;
    assert a == b;
  }

  // ---- the fence --------------------------------------------------------------------------------

  class Fence {
    const live: bool                       // false for a passive fence, which has no policy source
    const file: LedgerFile
    const origins: OriginIndex
    const withheld: SeqSet
    var attempted: int
    var applied: Option<Policy>
    var dirty: bool
    var pending: Option<ShutdownRecord>
    var recorded: bool

    ghost predicate Valid()
      reads this, file, origins, withheld
    {
      && origins.Valid() && withheld.Valid()
      && attempted >= 0
      && Sane(origins.contents)
      && (forall s :: s in withheld.contents ==> s >= 1)
      && (pending.Some? ==> RecordReadable(pending.value))
      && (recorded ==> pending.Some?)
      && (forall d :: d in file.possible ==> Readable(d))
    }

    ghost function State(): FenceSpec.Fence
      reads this, origins, withheld
    {
      FenceSpec.Fence(attempted, withheld.contents, origins.contents, applied, dirty, Meant(pending), recorded)
    }

    /** The newest published policy; a passive fence consents to nothing. */
    function Newest(published: Policy): Policy { if live then published else NO_CONSENT }

    /** Rewrites the ledger with the withheld set and the pending record. */
    method Persist(wrote: bool) returns (ok: bool)
      requires Valid()
      modifies this`dirty, file
      ensures Valid()
      ensures Outcome(State(), file.Ledgers(), ok) == Persisted(old(State()), old(file.Ledgers()), wrote)
    {
      var doc := Document(LEDGER_VERSION, withheld.ranges, pending);
      SaneRanges(withheld.ranges);
      ok := file.WriteAtomic(doc, wrote);
      if ok {
        dirty := false;
      }
    }

    /** Adds the unattempted part of every run p denies; counts what was missing. */
    method WithholdDenied(p: Policy) returns (withdrawn: nat)
      requires withheld.Valid()
      modifies withheld
      ensures withheld.Valid()
      ensures withheld.contents == WithDenied(old(withheld.contents), origins.runs, attempted, p)
      ensures withdrawn > 0 <==> withheld.contents != old(withheld.contents)
    {
      ghost var base := withheld.contents;
      var rs := origins.runs;
      withdrawn := 0;
      for k := 0 to |rs|
        invariant withheld.Valid()
        invariant withheld.contents == WithDenied(base, rs[..k], attempted, p)
        invariant withdrawn > 0 <==> withheld.contents != base
      {
        var run := rs[k];
        assert rs[..k + 1][..k] == rs[..k];
        if run.last <= attempted || AllowedBy(run.origin, p) {
          continue;
        }
        var lo := Max(run.first, attempted + 1);
        GrowsBySpan(base, withheld.contents, lo, run.last);
        var n := withheld.Add(lo, run.last);
        withdrawn := withdrawn + n;
      }
      assert rs[..|rs|] == rs;
    }

    /** Unless the version of p was applied last, exactly the unattempted frames of recorded origin that p
        does not grant are withheld on top of was. */
    ghost predicate Backlog(before: Option<Policy>, was: set<int>, p: Policy)
      reads this, origins, withheld
    {
      && (before.Some? && before.value.version == p.version ==> withheld.contents == was)
      && (before.None? || before.value.version != p.version ==>
            forall s :: s in withheld.contents <==>
              || s in was
              || (s in origins.contents && s > attempted
                  && !p.Allows(origins.contents[s].root, origins.contents[s].generation)))
    }

    /** Applies p to the whole backlog unless it was applied last; counts what it newly withholds. */
    method ApplyLocked(p: Policy) returns (withdrawn: nat)
      requires Valid()
      modifies this`applied, this`dirty, withheld
      ensures Valid()
      ensures State() == Applied(old(State()), p)
      ensures withdrawn > 0 <==> Withdraws(old(State()), p)
      ensures Backlog(old(applied), old(withheld.contents), p)
    {
      if applied.Some? && p.version == applied.value.version {
        return 0;
      }
      withdrawn := ApplyNew(p);
    }

    method ApplyNew(p: Policy) returns (withdrawn: nat)
      requires Valid() && !AlreadyApplied(State(), p)
      modifies this`applied, this`dirty, withheld
      ensures Valid()
      ensures State() == Applied(old(State()), p)
      ensures withdrawn > 0 <==> Withdraws(old(State()), p)
    {
      AppliedMeans(State(), origins.runs, p);
      applied := Some(p);
      withdrawn := WithholdDenied(p);
      if withdrawn > 0 {
        dirty := true;
      }
    }

    method ApplyAndRecord(p: Policy, wrote: bool) returns (ok: bool)
      requires Valid()
      modifies this`applied, this`dirty, withheld, file
      ensures Valid()
      ensures Outcome(State(), file.Ledgers(), ok) == Refreshed(old(State()), old(file.Ledgers()), p, wrote)
    {
      var withdrawn := ApplyLocked(p);
      if withdrawn == 0 {
        return true;
      }
      ok := Persist(wrote);
    }

    /** Applies the newest published policy, recording what it withholds. */
    method Refresh(published: Policy, wrote: bool) returns (ok: bool)
      requires Valid()
      modifies this`applied, this`dirty, withheld, file
      ensures Valid()
      ensures Outcome(State(), file.Ledgers(), ok) == Refreshed(old(State()), old(file.Ledgers()), Newest(published),
                                                                wrote)
      ensures Backlog(old(applied), old(withheld.contents), if live then published else Policy(0, false, [], ""))
    {
      ok := ApplyAndRecord(Newest(published), wrote);
    }

    /** Notes the consent frame s was captured under, withholding it at once if that is gone. */
    method RecordAppend(s: int, o: Origin, published: Policy, wrote: bool)
      requires Valid() && s >= 1 && o.root != "" && o.generation >= 1
      modifies this`dirty, origins, withheld, file
      ensures Valid()
      ensures var out := AppendRecorded(old(State()), old(file.Ledgers()), s, o, Newest(published), wrote);
              State() == out.fence && file.Ledgers() == out.disk
    {
      origins.Record(s, o);
      assert State() == Recorded(old(State()), s, o);
      if s <= attempted || AllowedBy(o, Newest(published)) {
        return;
      }
      Withhold(s);
      var _ := Persist(wrote); // a failure leaves dirty set, so the next send writes it
    }

    method Withhold(s: int)
      requires Valid() && s >= 1
      modifies this`dirty, withheld
      ensures Valid()
      ensures State() == old(State()).(withheld := old(withheld.contents) + {s}, dirty := true)
    {
      var _ := withheld.Add(s, s);
      assert Span(s, s) == {s};
      dirty := true;
    }

    /** Decides one frame: withheld already, attempted already, consented, or withheld now. */
    method DecideFrame(s: int, p: Policy) returns (held: bool)
      requires Valid()
      modifies this`dirty, withheld
      ensures Valid()
      ensures State() == DecidedOne(old(State()), p, s)
      ensures held <==> s in withheld.contents
    {
      held := withheld.Contains(s);
      if !held && s > attempted {
        var o := origins.Lookup(s);
        if o.Some? && !AllowedBy(o.value, p) {
          Withhold(s);
          held := true;
        }
      }
    }

    /** Decides frame after frame under p. */
    method DecideFrames(frames: seq<int>, bad: set<int>, p: Policy) returns (payloads: Option<seq<Payload>>)
      requires Valid()
      modifies this`dirty, withheld
      ensures Valid()
      ensures Decision(State(), payloads) == DecidedAll(old(State()), p, frames, bad)
    {
      ghost var f := State();
      var out: seq<Payload> := [];
      for i := 0 to |frames|
        invariant Valid()
        invariant Decision(State(), Some(out)) == DecidedAll(f, p, frames[..i], bad)
      {
        var s := frames[i];
        assert frames[..i + 1][..i] == frames[..i];
        var held := DecideFrame(s, p);
        if !held {
          out := out + [AsCaptured];
          continue;
        }
        if s in bad {
          DecidedStops(f, p, frames, bad, i + 1);
          return None;
        }
        out := out + [Placeholder];
      }
      assert frames[..|frames|] == frames;
      payloads := Some(out);
    }

    /** Decides the frames read for a batch under the newest published policy, applied to the whole
        backlog first: None when a withheld frame cannot be decoded. */
    method Decide(frames: seq<int>, bad: set<int>, published: Policy, wrote: bool)
      returns (payloads: Option<seq<Payload>>)
      requires Valid()
      modifies this`applied, this`dirty, withheld, file
      ensures Valid()
      ensures var out := Refreshed(old(State()), old(file.Ledgers()), Newest(published), wrote);
              && file.Ledgers() == out.disk
              && Decision(State(), payloads) == DecidedAll(out.fence, Newest(published), frames, bad)
    {
      // A failure leaves dirty set: the send to come writes first or does not happen.
      var _ := ApplyAndRecord(Newest(published), wrote);
      payloads := DecideFrames(frames, bad, Newest(published));
    }

    /** Describes this run to the next start. */
    method ShutdownRecordLocked(highestDurable: int) returns (sh: ShutdownRecord)
      requires Valid()
      ensures HandoverIn(sh) == HandoverOf(State(), highestDurable)
      ensures highestDurable >= 0 ==> RecordReadable(sh)
    {
      ghost var gone;
      var out, top;
      out, top, gone := ClipRuns(origins.runs, attempted, Max(highestDurable, attempted));
      ClippedMeans(origins.runs, gone, attempted, out);
      HighestOfRuns(out, Max(highestDurable, attempted));
      SaneRuns(out);
      sh := ShutdownRecord(top, attempted, out);
    }

    /** Records what is not recorded and makes the payloads up to last final, or reports failure and
        changes nothing. */
    method BeforeSend(last: int, wrote: bool) returns (ok: bool)
      requires Valid()
      modifies this`attempted, this`pending, this`dirty, file
      ensures Valid()
      ensures Outcome(State(), file.Ledgers(), ok) == SendPrepared(old(State()), old(file.Ledgers()), last, wrote)
    {
      var prevAttempted, prevPending := attempted, pending;
      attempted := Max(attempted, last);
      if recorded {
        var sh := ShutdownRecordLocked(pending.value.highestDurable);
        pending := Some(sh);
      } else if pending.Some? {
        pending := None;
      } else if !dirty {
        return true;
      }
      assert State() == Finalized(old(State()), last);
      ok := Persist(wrote);
      if !ok {
        attempted, pending := prevAttempted, prevPending;
      }
    }

    /** Forgets everything the collector acknowledged. */
    method Acknowledged(through: int)
      requires Valid()
      modifies origins, withheld
      ensures Valid()
      ensures State() == Forgotten(old(State()), through)
      ensures forall s :: s in withheld.contents <==> s in old(withheld.contents) && s > through
      ensures forall s :: s in origins.contents <==> s in old(origins.contents) && s > through
      ensures forall s :: s in origins.contents ==> origins.contents[s] == old(origins.contents)[s]
    {
      origins.Prune(through);
      withheld.Prune(through);
    }

    /** Writes this run's shutdown record, or reports failure and forgets it again. */
    method RecordShutdown(highestDurable: int, wrote: bool) returns (ok: bool)
      requires Valid() && highestDurable >= 0
      modifies this`pending, this`recorded, this`dirty, file
      ensures Valid()
      ensures Outcome(State(), file.Ledgers(), ok) == ShutDown(old(State()), old(file.Ledgers()), highestDurable, wrote)
    {
      var prevPending, prevRecorded := pending, recorded;
      var sh := ShutdownRecordLocked(highestDurable);
      pending, recorded := Some(sh), true;
      ok := Persist(wrote);
      if !ok {
        pending, recorded := prevPending, prevRecorded;
      }
    }

    constructor Blank(file: LedgerFile, live: bool, attempted: int)
      requires attempted >= 0 && forall d :: d in file.possible ==> Readable(d)
      ensures this.file == file && this.live == live
      ensures fresh(origins) && fresh(withheld)
      ensures Valid() && State() == FenceSpec.Fence(attempted, {}, map[], None, false, None, false)
    {
      this.file := file;
      this.live := live;
      this.origins := new OriginIndex();
      this.withheld := new SeqSet();
      this.attempted := attempted;
      this.applied, this.dirty, this.pending, this.recorded := None, false, None, false;
    }

    method LoadWithheld(rs: seq<Range>, highestDurable: int)
      requires Valid() && withheld.contents == {} && RangesReadable(rs)
      modifies withheld
      ensures Valid() && withheld.contents == KeptIn(rs, highestDurable)
    {
      assert KeptIn(rs[..0], highestDurable) == {};
      for k := 0 to |rs|
        invariant withheld.Valid() && withheld.contents == KeptIn(rs[..k], highestDurable)
      {
        var r := rs[k];
        KeptStep(rs, k, highestDurable);
        if r.lo <= highestDurable {
          var _ := withheld.Add(r.lo, Min(r.hi, highestDurable));
        }
      }
      assert rs[..|rs|] == rs;
      InElems(rs);
    }

    method LoadRuns(rs: seq<Run>, ceiling: int)
      requires origins.Valid() && origins.contents == map[]
      modifies origins
      ensures origins.Valid() && origins.contents == Loaded(rs, attempted, ceiling)
    {
      for k := 0 to |rs|
        invariant origins.Valid() && origins.contents == Loaded(rs[..k], attempted, ceiling)
      {
        var o := rs[k];
        assert rs[..k + 1][..k] == rs[..k];
        origins.AddRun(Max(o.first, attempted + 1), Min(o.last, ceiling), o.origin);
      }
      assert rs[..|rs|] == rs;
    }

    method LoadOrigins(rs: seq<Run>, ceiling: int)
      requires Valid() && origins.contents == map[] && RunsReadable(rs)
      modifies origins
      ensures Valid() && origins.contents == OriginsWithin(ToMap(rs), attempted, ceiling)
    {
      LoadRuns(rs, ceiling);
      ReadableRunsOk(rs);
      LoadedMeans(rs, attempted, ceiling);
      WithinSane(rs, attempted, ceiling);
    }

    /** Takes over a record that describes this spool. */
    method TakeOver(sh: ShutdownRecord)
      requires Valid() && origins.contents == map[] && RecordReadable(sh) && !recorded
      modifies this`attempted, this`pending, origins
      ensures Valid()
      ensures State() == old(State()).(attempted := sh.attemptedThrough,
                                       origins := OriginsWithin(ToMap(sh.origins), sh.attemptedThrough,
                                                                sh.highestDurable),
                                       pending := Some(HandoverIn(sh)))
    {
      attempted := sh.attemptedThrough;
      LoadOrigins(sh.origins, sh.highestDurable);
      pending := Some(sh);
    }

    /** Brings a blank fence to what the ledger says; false when a write the load needs failed. */
    method Load(d: Document, highestDurable: int, wrote: bool) returns (ok: bool)
      requires Valid() && Readable(d) && file.possible == {d}
      requires State() == FenceSpec.Fence(highestDurable, {}, map[], None, false, None, false)
      modifies this, origins, withheld, file
      ensures Valid()
      ensures Outcome(State(), file.Ledgers(), ok) == Started(LedgerIn(d), highestDurable, live, wrote)
    {
      LoadWithheld(d.withheld, highestDurable);
      assert State() == Bare(LedgerIn(d), highestDurable);
      assert file.Ledgers() == {LedgerIn(d)};
      if d.shutdown.None? {
        return true;
      }
      var sh := d.shutdown.value;
      if sh.highestDurable > highestDurable || sh.attemptedThrough > sh.highestDurable {
        ok := Persist(wrote); // the record goes now, while the log is as it was found
        return;
      }
      TakeOver(sh);
      assert State() == Resumed(LedgerIn(d), HandoverIn(sh), highestDurable);
      if live {
        return true;
      }
      ok := ApplyAndRecord(NO_CONSENT, wrote);
    }
  }

  /** Loads the ledger for a spool durable through highestDurable. d is what the file turned out to
      hold. */
  method Open(file: LedgerFile, d: Document, live: bool, highestDurable: int, wrote: bool)
    returns (r: Result<Fence, string>)
    requires file.possible == {d} && highestDurable >= 0
    modifies file
    ensures !Readable(d) ==> r.Err? && file.possible == {d}
    ensures Readable(d) ==>
              var out := Started(LedgerIn(d), highestDurable, live, wrote);
              file.Ledgers() == out.disk && (r.Ok? <==> out.ok)
    ensures r.Ok? ==> r.value.Valid() && r.value.file == file && r.value.live == live
                      && r.value.State() == Started(LedgerIn(d), highestDurable, live, wrote).fence
  {
    var checked := CheckDocument(d);
    if checked.Err? {
      return Err(checked.error);
    }
    var f := new Fence.Blank(file, live, highestDurable);
    var ok := f.Load(d, highestDurable, wrote);
    if !ok {
      return Err("record the consent ledger");
    }
    return Ok(f);
  }

  // ---- the watcher's sink -----------------------------------------------------------------------

  datatype Delivery = Delivered | Refused | Failed(error: string)

  /** Delivers one candidate under its root's generation. inner is what the spool append would answer;
      called tells whether it was asked. A candidate of no root passes unfenced; one whose root is not
      consented at the sink's generation is refused before anything is appended. */
  method DeliverOne(fence: Fence, generations: map<string, nat>, root: string, atAdmission: Policy,
                    inner: Result<int, string>,
                    atRecord: Policy, wrote: bool) returns (r: Delivery, called: bool)
    requires fence.Valid() && forall r :: r in generations ==> generations[r] >= 1
    modifies fence`dirty, fence.origins, fence.withheld, fence.file
    ensures fence.Valid()
    ensures called <==>
              root == ""
              || (root in generations && fence.live && atAdmission.Allows(root, generations[root]))
    ensures r == if !called then Refused else if inner.Err? then Failed(inner.error) else Delivered
    ensures var fenced := called && root != "" && inner.Ok? && inner.value > 0;
            var out := if fenced then
                         AppendRecorded(old(fence.State()), old(fence.file.Ledgers()), inner.value,
                                        Origin(root, generations[root]),
                                        fence.Newest(atRecord), wrote)
                       else Outcome(old(fence.State()), old(fence.file.Ledgers()), true);
            fence.State() == out.fence && fence.file.Ledgers() == out.disk
  {
    if root == "" {
      return if inner.Err? then Failed(inner.error) else Delivered, true;
    }
    if root !in generations {
      return Refused, false;
    }
    var origin := Origin(root, generations[root]);
    if !AllowedBy(origin, fence.Newest(atAdmission)) {
      return Refused, false;
    }
    if inner.Err? {
      return Failed(inner.error), true;
    }
    if inner.value > 0 {
      fence.RecordAppend(inner.value, origin, atRecord, wrote);
    }
    return Delivered, true;
  }
}
