/** The consent fence's two interval structures, and the set and the map they stand for
    (internal/observer/daemon/consent_fence.go). Sequences are unbounded here: the collector numbers
    them from 1 upwards by one, so they stay far from the 64-bit limit. */
module Intervals {
  import opened Common

  /** Every sequence from lo to hi, both included. */
  function Span(lo: int, hi: int): set<int> { set x | lo <= x <= hi && Between(lo, x, hi) }

  predicate Between(lo: int, x: int, hi: int) { lo <= x <= hi }

  /** How many sequences of [first, last] are not in s. */
  ghost function Lacking(first: int, last: int, s: set<int>): nat
    decreases last - first
  {
    if last < first then 0 else Lacking(first, last - 1, s) + (if last in s then 0 else 1)
  }

  /** The count is the size of what is missing. */
  lemma {:induction false} LackingIsSize(first: int, last: int, s: set<int>)
    ensures Lacking(first, last, s) == |Span(first, last) - s|
    decreases last - first
  {
    if last < first {
      assert Span(first, last) - s == {};
    } else {
      LackingIsSize(first, last - 1, s);
      MissingStep(first, last, s);
    }
  }

  lemma MissingStep(first: int, last: int, s: set<int>)
    requires first <= last
    ensures |Span(first, last) - s| == |Span(first, last - 1) - s| + (if last in s then 0 else 1)
  {
    var was := Span(first, last - 1) - s;
    if last in s {
      assert Span(first, last) - s == was;
    } else {
      assert Span(first, last) - s == was + {last} && last !in was;
    }
  }

  lemma {:induction false} LackingAll(first: int, last: int)
    requires first <= last + 1
    ensures Lacking(first, last, {}) == last - first + 1
    decreases last - first
  {
    if first <= last {
      LackingAll(first, last - 1);
    }
  }

  /** Something was lacking exactly when the union is larger. */
  lemma {:induction false} LackingGrows(first: int, last: int, s: set<int>)
    ensures Lacking(first, last, s) > 0 <==> s + Span(first, last) != s
    decreases last - first
  {
    if first <= last {
      LackingGrows(first, last - 1, s);
      assert Span(first, last) == Span(first, last - 1) + {last};
      assert s + Span(first, last) == (s + Span(first, last - 1)) + {last};
    } else {
      assert s + Span(first, last) == s;
    }
  }

  // ---------------------------------------------------------------------------------------------
  // A set of sequences as ranges
  // ---------------------------------------------------------------------------------------------

  datatype Range = Range(lo: int, hi: int)

  /** Ascending, disjoint and non-adjacent, each range non-empty. */
  ghost predicate RangesOk(rs: seq<Range>) {
    && (forall i :: 0 <= i < |rs| ==> rs[i].lo <= rs[i].hi)
    && (forall i, j :: 0 <= i < j < |rs| ==> rs[i].hi + 1 < rs[j].lo)
  }

  ghost predicate Holds(r: Range, x: int) { r.lo <= x <= r.hi }

  /** The set a list of ranges stands for. */
  ghost function Elems(rs: seq<Range>): set<int> {
    set i, x | 0 <= i < |rs| && x in Span(rs[i].lo, rs[i].hi) :: x
  }

  lemma InElems(rs: seq<Range>)
    ensures forall x :: x in Elems(rs) <==> exists i :: 0 <= i < |rs| && Holds(rs[i], x)
  {
    forall i, x | 0 <= i < |rs| && Holds(rs[i], x)
      ensures x in Elems(rs)
    {
      assert x in Span(rs[i].lo, rs[i].hi);
    }
    forall x | x in Elems(rs)
      ensures exists i :: 0 <= i < |rs| && Holds(rs[i], x)
    {
      var i :| 0 <= i < |rs| && x in Span(rs[i].lo, rs[i].hi);
      assert Holds(rs[i], x);
    }
  }

  lemma ElemsAppend(rs: seq<Range>, r: Range)
    ensures Elems(rs + [r]) == Elems(rs) + Span(r.lo, r.hi)
  {
    var all := rs + [r];
    forall x
      ensures x in Elems(all) <==> x in Elems(rs) + Span(r.lo, r.hi)
    {
      if x in Elems(rs) {
        var i :| 0 <= i < |rs| && x in Span(rs[i].lo, rs[i].hi);
        assert x in Span(all[i].lo, all[i].hi);
      }
      if x in Span(r.lo, r.hi) {
        assert x in Span(all[|rs|].lo, all[|rs|].hi);
      }
    }
  }

  lemma ElemsBelow(rs: seq<Range>, bound: int)
    requires forall i :: 0 <= i < |rs| ==> rs[i].hi < bound
    ensures forall x :: x in Elems(rs) ==> x < bound
  {
  }

  lemma SpanJoin(a: Range, b: Range)
    requires a.lo <= a.hi && b.lo <= b.hi && b.lo <= a.hi + 1 && a.lo <= b.hi + 1
    ensures Span(Min(a.lo, b.lo), Max(a.hi, b.hi)) == Span(a.lo, a.hi) + Span(b.lo, b.hi)
  {
  }

  class SeqSet {
    var ranges: seq<Range>
    ghost var contents: set<int>

    ghost predicate Valid()
      reads this
    {
      RangesOk(ranges) && contents == Elems(ranges)
    }

    constructor ()
      ensures Valid() && contents == {}
    {
      ranges := [];
      contents := {};
    }

    /** Union with [first, last], in one pass that merges what touches; the result counts exactly the
        sequences that were missing. */
    method Add(first: int, last: int) returns (added: int)
      requires Valid()
      modifies this
      ensures Valid()
      ensures contents == old(contents) + Span(first, last)
      ensures added == Lacking(first, last, old(contents))
    {
      var rs := ranges;
      if last < first {
        assert Elems(rs) + Span(first, last) == Elems(rs);
        return 0;
      }
      added := last - first + 1;
      var out: seq<Range> := [];
      var merged := Range(first, last);
      MergeStart(rs, first, last);
      for k := 0 to |rs|
        invariant exists emitted :: Merging(rs, k, first, last, out, merged, added, emitted)
      {
        var r := rs[k];
        ghost var emitted :| Merging(rs, k, first, last, out, merged, added, emitted);
        if r.hi + 1 < merged.lo {
          MergeBefore(rs, k, first, last, out, merged, added, emitted);
          out := out + [r];
        } else if merged.hi + 1 < r.lo {
          MergeAfter(rs, k, first, last, out, merged, added, emitted);
          out := out + [merged];
          merged := r;
        } else {
          var lo, hi := Max(r.lo, first), Min(r.hi, last);
          if lo <= hi {
            added := added - (hi - lo + 1);
          }
          MergeFuse(rs, k, first, last, out, merged, added, emitted);
          merged := Range(Min(merged.lo, r.lo), Max(merged.hi, r.hi));
        }
      }
      MergeEnd(rs, first, last, out, merged, added);
      ranges := out + [merged];
      contents := Elems(ranges);
    }

    /** Membership, by binary search over the range ends. */
    method Contains(x: int) returns (found: bool)
      requires Valid()
      ensures found <==> x in contents
    {
      var rs := ranges;
      var f := k requires 0 <= k < |rs| => rs[k].hi >= x;
      var i := Search(|rs|, f);
      assert forall k :: 0 <= k < |rs| ==> f(k) == (rs[k].hi >= x);
      InElems(rs);
      assert forall k :: 0 <= k < |rs| && Holds(rs[k], x) ==> k >= i && rs[i].lo <= rs[k].lo;
      assert i < |rs| && rs[i].lo <= x ==> Holds(rs[i], x);
      found := i < |rs| && rs[i].lo <= x;
    }

    /** Forgets exactly the sequences at or below through. */
    method Prune(through: int)
      requires Valid()
      modifies this
      ensures Valid()
      ensures contents == set x | x in old(contents) && x > through
    {
      var rs := ranges;
      var f := k requires 0 <= k < |rs| => rs[k].hi > through;
      var i := Search(|rs|, f);
      assert forall k :: 0 <= k < |rs| ==> f(k) == (rs[k].hi > through);
      ranges := ranges[i..];
      if |ranges| > 0 && ranges[0].lo <= through {
        ranges := ranges[0 := Range(through + 1, ranges[0].hi)];
      }
      PrunedElems(rs, i, through, ranges);
      contents := Elems(ranges);
    }
  }

  /** Adding [first, last] to rs after the first k ranges were read: what is finished, what is being
      merged, and how many sequences of [first, last] those k ranges lack. Once [first, last] was
      emitted into the finished part, the range being merged is simply the last one read. */
  ghost predicate Merging(rs: seq<Range>, k: nat, first: int, last: int, out: seq<Range>, merged: Range, added: int,
                          emitted: bool)
    requires k <= |rs|
  {
    && Listed(out, merged)
    && Elems(out + [merged]) == Elems(rs[..k]) + Span(first, last)
    && added == Lacking(first, last, Elems(rs[..k]))
    && (if emitted then
          k > 0 && merged == rs[k - 1] && last < merged.lo
        else
          && merged.lo <= first && last <= merged.hi
          && (k < |rs| && out != [] ==> out[|out| - 1].hi + 1 < rs[k].lo))
  }

  lemma MergeStart(rs: seq<Range>, first: int, last: int)
    requires first <= last
    ensures Merging(rs, 0, first, last, [], Range(first, last), last - first + 1, false)
  {
    LackingAll(first, last);
    ElemsAppend([], Range(first, last));
    assert Elems(rs[..0]) == {};
  }

  lemma MergeBefore(rs: seq<Range>, k: nat, first: int, last: int, out: seq<Range>, merged: Range, added: int,
                    emitted: bool)
    requires RangesOk(rs) && k < |rs| && Merging(rs, k, first, last, out, merged, added, emitted)
    requires rs[k].hi + 1 < merged.lo
    ensures Merging(rs, k + 1, first, last, out + [rs[k]], merged, added, false)
  {
    ReadOne(rs, k, first, last);
    PutBefore(out, merged, rs[k]);
  }

  lemma MergeAfter(rs: seq<Range>, k: nat, first: int, last: int, out: seq<Range>, merged: Range, added: int,
                   emitted: bool)
    requires RangesOk(rs) && k < |rs| && Merging(rs, k, first, last, out, merged, added, emitted)
    requires merged.hi + 1 < rs[k].lo
    ensures Merging(rs, k + 1, first, last, out + [merged], rs[k], added, true)
  {
    ReadOne(rs, k, first, last);
    PutAfter(out, merged, rs[k]);
  }

  lemma MergeFuse(rs: seq<Range>, k: nat, first: int, last: int, out: seq<Range>, merged: Range, added: int,
                  emitted: bool)
    requires RangesOk(rs) && k < |rs|
    requires Merging(rs, k, first, last, out, merged, added + Overlap(first, last, rs[k]), emitted)
    requires merged.lo <= rs[k].hi + 1 && rs[k].lo <= merged.hi + 1
    ensures Merging(rs, k + 1, first, last, out, Range(Min(merged.lo, rs[k].lo), Max(merged.hi, rs[k].hi)), added,
                    false)
  {
    ReadOne(rs, k, first, last);
    Fuse(out, merged, rs[k]);
  }

  lemma MergeEnd(rs: seq<Range>, first: int, last: int, out: seq<Range>, merged: Range, added: int)
    requires exists emitted :: Merging(rs, |rs|, first, last, out, merged, added, emitted)
    ensures RangesOk(out + [merged])
    ensures Elems(out + [merged]) == Elems(rs) + Span(first, last)
    ensures added == Lacking(first, last, Elems(rs))
  {
    assert rs[..|rs|] == rs;
  }

  /** The finished ranges followed by the one still being merged. */
  ghost predicate Listed(out: seq<Range>, merged: Range) {
    && RangesOk(out)
    && merged.lo <= merged.hi
    && forall i :: 0 <= i < |out| ==> out[i].hi + 1 < merged.lo
  }

  lemma PutBefore(out: seq<Range>, merged: Range, r: Range)
    requires Listed(out, merged) && r.lo <= r.hi && r.hi + 1 < merged.lo
    requires out != [] ==> out[|out| - 1].hi + 1 < r.lo
    ensures Listed(out + [r], merged)
    ensures Elems(out + [r] + [merged]) == Elems(out + [merged]) + Span(r.lo, r.hi)
  {
    ElemsAppend(out, r);
    ElemsAppend(out + [r], merged);
    ElemsAppend(out, merged);
    RangesAppend(out, r);
  }

  lemma PutAfter(out: seq<Range>, merged: Range, r: Range)
    requires Listed(out, merged) && r.lo <= r.hi && merged.hi + 1 < r.lo
    ensures Listed(out + [merged], r)
    ensures Elems(out + [merged] + [r]) == Elems(out + [merged]) + Span(r.lo, r.hi)
  {
    ElemsAppend(out + [merged], r);
    RangesAppend(out, merged);
  }

  lemma Fuse(out: seq<Range>, merged: Range, r: Range)
    requires Listed(out, merged) && r.lo <= r.hi && merged.lo <= r.hi + 1 && r.lo <= merged.hi + 1
    requires out != [] ==> out[|out| - 1].hi + 1 < r.lo
    ensures var fused := Range(Min(merged.lo, r.lo), Max(merged.hi, r.hi));
            && Listed(out, fused)
            && Elems(out + [fused]) == Elems(out + [merged]) + Span(r.lo, r.hi)
  {
    SpanJoin(merged, r);
    ElemsAppend(out, merged);
    ElemsAppend(out, Range(Min(merged.lo, r.lo), Max(merged.hi, r.hi)));
    RangesAppend(out, r);
  }

  lemma RangesAppend(rs: seq<Range>, r: Range)
    requires RangesOk(rs) && r.lo <= r.hi && (rs != [] ==> rs[|rs| - 1].hi + 1 < r.lo)
    ensures RangesOk(rs + [r])
    ensures forall i :: 0 <= i < |rs| ==> rs[i].hi + 1 < r.lo
  {
    assert forall i :: 0 <= i < |rs| - 1 ==> rs[i].hi + 1 < rs[|rs| - 1].lo;
  }

  /** How many sequences [first, last] and r have in common. */
  function Overlap(first: int, last: int, r: Range): int {
    var lo, hi := Max(r.lo, first), Min(r.hi, last);
    if lo <= hi then hi - lo + 1 else 0
  }

  /** Reading one more range beyond all before takes exactly its overlap with [first, last] off the count. */
  lemma {:induction false} OverlapLacking(first: int, last: int, r: Range, before: set<int>)
    requires forall x :: x in before ==> x < r.lo
    ensures Lacking(first, last, before + Span(r.lo, r.hi)) == Lacking(first, last, before) - Overlap(first, last, r)
    decreases last - first
  {
    if first <= last {
      OverlapLacking(first, last - 1, r, before);
    }
  }

  /** What reading range k adds to the set, and what it takes off the count of missing sequences. */
  lemma ReadOne(rs: seq<Range>, k: nat, first: int, last: int)
    requires RangesOk(rs) && k < |rs|
    ensures var wanted := Span(first, last);
            && Elems(rs[..k + 1]) + wanted == Elems(rs[..k]) + wanted + Span(rs[k].lo, rs[k].hi)
            && Lacking(first, last, Elems(rs[..k + 1])) == Lacking(first, last, Elems(rs[..k]))
               - Overlap(first, last, rs[k])
  {
    assert rs[..k + 1] == rs[..k] + [rs[k]];
    ElemsAppend(rs[..k], rs[k]);
    ElemsBelow(rs[..k], rs[k].lo);
    OverlapLacking(first, last, rs[k], Elems(rs[..k]));
    Swapped(Elems(rs[..k]), Span(rs[k].lo, rs[k].hi), Span(first, last));
  }

  lemma Swapped(a: set<int>, b: set<int>, c: set<int>)
    ensures a + b + c == a + c + b
  {
  }

  lemma PrunedElems(rs: seq<Range>, i: nat, through: int, out: seq<Range>)
    requires RangesOk(rs) && i <= |rs| == i + |out|
    requires forall k :: 0 <= k < i ==> rs[k].hi <= through
    requires forall k :: i <= k < |rs| ==> rs[k].hi > through
    requires forall k :: 0 <= k < |out| ==> out[k].hi == rs[i + k].hi
    requires forall k :: 1 <= k < |out| ==> out[k].lo == rs[i + k].lo
    requires |out| > 0 ==> out[0].lo == Max(rs[i].lo, through + 1)
    ensures RangesOk(out)
    ensures Elems(out) == set x | x in Elems(rs) && x > through
  {
    InElems(rs);
    InElems(out);
    assert forall k :: 0 < k < |out| ==> through < rs[i].hi < out[k].lo;
    forall x
      ensures x in Elems(out) <==> x in Elems(rs) && x > through
    {
      if x in Elems(out) {
        var k :| 0 <= k < |out| && Holds(out[k], x);
        assert Holds(rs[i + k], x);
      }
      if x in Elems(rs) && x > through {
        var k :| 0 <= k < |rs| && Holds(rs[k], x);
        assert Holds(out[k - i], x);
      }
    }
  }

  // ---------------------------------------------------------------------------------------------
  // A map from sequences to origins as runs
  // ---------------------------------------------------------------------------------------------

  /** The consent one watcher observation was captured under. */
  datatype Origin = Origin(root: string, generation: nat)

  datatype Run = Run(first: int, last: int, origin: Origin)

  /** Ascending, disjoint, each run non-empty. */
  ghost predicate RunsOk(rs: seq<Run>) {
    && (forall i :: 0 <= i < |rs| ==> rs[i].first <= rs[i].last)
    && (forall i, j :: 0 <= i < j < |rs| ==> rs[i].last < rs[j].first)
  }

  ghost predicate Covers(r: Run, x: int) { r.first <= x <= r.last }

  /** Every sequence of [first, last] under one origin. */
  function Uniform(first: int, last: int, o: Origin): map<int, Origin> {
    map x | x in Span(first, last) :: o
  }

  /** The sequences a list of runs covers. */
  ghost function Keys(rs: seq<Run>): set<int> {
    set i, x | 0 <= i < |rs| && x in Span(rs[i].first, rs[i].last) :: x
  }

  lemma InKeys(rs: seq<Run>)
    ensures forall x :: x in Keys(rs) <==> exists i :: 0 <= i < |rs| && Covers(rs[i], x)
  {
    forall i, x | 0 <= i < |rs| && Covers(rs[i], x)
      ensures x in Keys(rs)
    {
      assert x in Span(rs[i].first, rs[i].last);
    }
    forall x | x in Keys(rs)
      ensures exists i :: 0 <= i < |rs| && Covers(rs[i], x)
    {
      var i :| 0 <= i < |rs| && x in Span(rs[i].first, rs[i].last);
      assert Covers(rs[i], x);
    }
  }

  ghost function OriginAt(rs: seq<Run>, x: int): Origin
    requires x in Keys(rs)
  {
    InKeys(rs);
    var i :| 0 <= i < |rs| && Covers(rs[i], x);
    rs[i].origin
  }

  /** The map a list of runs stands for. */
  ghost function ToMap(rs: seq<Run>): map<int, Origin> {
    map x | x in Keys(rs) :: OriginAt(rs, x)
  }

  lemma ToMapAt(rs: seq<Run>, i: nat, x: int)
    requires RunsOk(rs) && i < |rs| && Covers(rs[i], x)
    ensures x in ToMap(rs) && ToMap(rs)[x] == rs[i].origin
  {
    InKeys(rs);
  }

  ghost predicate Assigned(r: Run, m: map<int, Origin>) {
    forall x :: Covers(r, x) ==> x in m && m[x] == r.origin
  }

  ghost predicate Covered(rs: seq<Run>, x: int) {
    exists i :: 0 <= i < |rs| && Covers(rs[i], x)
  }

  /** The runs assign every sequence exactly what m assigns it. */
  ghost predicate Denotes(rs: seq<Run>, m: map<int, Origin>) {
    && (forall i :: 0 <= i < |rs| ==> Assigned(rs[i], m))
    && (forall x :: x in m ==> Covered(rs, x))
  }

  lemma DenotesToMap(rs: seq<Run>)
    requires RunsOk(rs)
    ensures Denotes(rs, ToMap(rs))
  {
    InKeys(rs);
    forall i, x | 0 <= i < |rs| && Covers(rs[i], x)
      ensures x in ToMap(rs) && ToMap(rs)[x] == rs[i].origin
    {
      ToMapAt(rs, i, x);
    }
  }

  lemma SameMap(rs: seq<Run>, m: map<int, Origin>)
    requires RunsOk(rs) && Denotes(rs, m)
    ensures ToMap(rs) == m
  {
    InKeys(rs);
    forall x
      ensures x in ToMap(rs) <==> x in m
      ensures x in m ==> ToMap(rs)[x] == m[x]
    {
      if Covered(rs, x) {
        var i :| 0 <= i < |rs| && Covers(rs[i], x);
        assert Assigned(rs[i], m);
        ToMapAt(rs, i, x);
      }
    }
  }

  /** What recording a run does to the map: nothing when any of it is already recorded. */
  ghost function WithRun(m: map<int, Origin>, first: int, last: int, o: Origin): map<int, Origin> {
    if Span(first, last) !! m.Keys then m + Uniform(first, last, o) else m
  }

  /** What is lost when a run overlaps: recording it makes all of it known if and only if none of it was
      known before, or all of it was. A run that meets one known sequence leaves its others unknown. */
  lemma OverlapLosesTheRest(m: map<int, Origin>, first: int, last: int, o: Origin)
    requires first <= last
    ensures Span(first, last) <= WithRun(m, first, last, o).Keys <==>
              Span(first, last) !! m.Keys || Span(first, last) <= m.Keys
    ensures m == map[5 := o] ==> 4 !in WithRun(m, 4, 6, o) && 6 !in WithRun(m, 4, 6, o)
  {
    if m == map[5 := o] {
      assert 5 in Span(4, 6) && 5 in m.Keys;
    }
  }

  class OriginIndex {
    var runs: seq<Run>
    ghost var contents: map<int, Origin>

    ghost predicate Valid()
      reads this
    {
      RunsOk(runs) && contents == ToMap(runs)
    }

    constructor ()
      ensures Valid() && contents == map[]
    {
      runs := [];
      contents := map[];
    }

    /** Notes that x was captured under o; a sequence already recorded keeps its origin. */
    method Record(x: int, o: Origin)
      requires Valid()
      modifies this
      ensures Valid()
      ensures contents == if x in old(contents) then old(contents) else old(contents)[x := o]
    {
      AddRun(x, x, o);
      assert Span(x, x) == {x};
      assert old(contents) + Uniform(x, x, o) == old(contents)[x := o];
    }

    /** Notes that every sequence of [first, last] was captured under o. A run in order is appended or
        coalesced, a run out of order is inserted where it belongs, and a run that overlaps what is
        recorded is refused whole. */
    method AddRun(first: int, last: int, o: Origin)
      requires Valid()
      modifies this
      ensures Valid()
      ensures contents == WithRun(old(contents), first, last, o)
    {
      var rs := runs;
      if last < first {
        NothingAdded(ToMap(rs), first, last, o);
        return;
      }
      var n := |rs|;
      if n == 0 || rs[n - 1].last < first {
        if n > 0 && rs[n - 1].last + 1 == first && rs[n - 1].origin == o {
          runs := rs[n - 1 := rs[n - 1].(last := last)];
          StretchedRuns(rs, last, runs);
          contents := ToMap(runs);
          return;
        }
        runs := rs + [Run(first, last, o)];
        BeyondEnd(rs, first);
        InsertedRuns(rs, n, Run(first, last, o), runs);
        contents := ToMap(runs);
        return;
      }
      var f := k requires 0 <= k < n => rs[k].last >= first;
      var i := Search(n, f);
      assert forall k :: 0 <= k < n ==> f(k) == (rs[k].last >= first);
      if i < n && rs[i].first <= last {
        AlreadyRecorded(rs, i, first, last);
        return; // part of it is known: none of it is taken
      }
      runs := rs[..i] + [Run(first, last, o)] + rs[i..];
      OpenGap(rs, i, last);
      InsertedRuns(rs, i, Run(first, last, o), runs);
      contents := ToMap(runs);
    }

    /** The origin x was captured under, if the watcher appended it. */
    method Lookup(x: int) returns (o: Option<Origin>)
      requires Valid()
      ensures o == if x in contents then Some(contents[x]) else None
    {
      var rs := runs;
      var f := k requires 0 <= k < |rs| => rs[k].last >= x;
      var i := Search(|rs|, f);
      assert forall k :: 0 <= k < |rs| ==> f(k) == (rs[k].last >= x);
      LookedUp(rs, i, x);
      if i < |rs| && rs[i].first <= x {
        return Some(rs[i].origin);
      }
      return None;
    }

    /** Forgets exactly the sequences at or below through. */
    method Prune(through: int)
      requires Valid()
      modifies this
      ensures Valid()
      ensures contents == map x | x in old(contents) && x > through :: old(contents)[x]
    {
      var rs := runs;
      var f := k requires 0 <= k < |rs| => rs[k].last > through;
      var i := Search(|rs|, f);
      assert forall k :: 0 <= k < |rs| ==> f(k) == (rs[k].last > through);
      runs := runs[i..];
      if |runs| > 0 && runs[0].first <= through {
        runs := runs[0 := runs[0].(first := through + 1)];
      }
      PrunedRuns(rs, i, through, runs);
      contents := ToMap(runs);
    }
  }

  // What each of the edits above does to the map.

  lemma NothingAdded(m: map<int, Origin>, first: int, last: int, o: Origin)
    requires last < first
    ensures WithRun(m, first, last, o) == m
  {
    assert Uniform(first, last, o) == map[];
  }

  lemma BeyondEnd(rs: seq<Run>, first: int)
    requires RunsOk(rs) && (rs == [] || rs[|rs| - 1].last < first)
    ensures forall k :: 0 <= k < |rs| ==> rs[k].last < first
  {
    assert forall i :: 0 <= i < |rs| - 1 ==> rs[i].last < rs[|rs| - 1].first;
  }

  lemma OpenGap(rs: seq<Run>, i: nat, last: int)
    requires RunsOk(rs) && i <= |rs| && (i < |rs| ==> last < rs[i].first)
    ensures forall k :: i <= k < |rs| ==> last < rs[k].first
  {
    assert forall k :: i < k < |rs| ==> rs[i].last < rs[k].first;
  }

  lemma AlreadyRecorded(rs: seq<Run>, i: nat, first: int, last: int)
    requires RunsOk(rs) && i < |rs| && rs[i].first <= last && first <= rs[i].last && first <= last
    ensures !(Span(first, last) !! ToMap(rs).Keys)
  {
    var x := Max(rs[i].first, first);
    ToMapAt(rs, i, x);
    assert x in Span(first, last);
  }

  lemma LookedUp(rs: seq<Run>, i: nat, x: int)
    requires RunsOk(rs) && i <= |rs|
    requires forall k :: 0 <= k < i ==> rs[k].last < x
    requires i < |rs| ==> x <= rs[i].last
    ensures if i < |rs| && rs[i].first <= x then x in ToMap(rs) && ToMap(rs)[x] == rs[i].origin else x !in ToMap(rs)
  {
    if i < |rs| && rs[i].first <= x {
      ToMapAt(rs, i, x);
    } else {
      InKeys(rs);
      assert forall k :: i < k < |rs| ==> rs[i].last < rs[k].first;
    }
  }

  lemma InsertedRuns(rs: seq<Run>, i: nat, r: Run, out: seq<Run>)
    requires RunsOk(rs) && i <= |rs| && r.first <= r.last
    requires forall k :: 0 <= k < i ==> rs[k].last < r.first
    requires forall k :: i <= k < |rs| ==> r.last < rs[k].first
    requires out == rs[..i] + [r] + rs[i..]
    ensures RunsOk(out)
    ensures ToMap(out) == WithRun(ToMap(rs), r.first, r.last, r.origin)
  {
    var m := ToMap(rs);
    DenotesToMap(rs);
    assert Span(r.first, r.last) !! m.Keys by { InKeys(rs); }
    AddedUniform(m, r);
    InsertedRunOk(rs, i, r, out);
    InsertedRun(rs, m, i, r, out, WithRun(m, r.first, r.last, r.origin));
    SameMap(out, WithRun(m, r.first, r.last, r.origin));
  }

  lemma StretchedRuns(rs: seq<Run>, last: int, out: seq<Run>)
    requires RunsOk(rs) && rs != [] && rs[|rs| - 1].last < last
    requires out == rs[|rs| - 1 := rs[|rs| - 1].(last := last)]
    ensures RunsOk(out)
    ensures ToMap(out) == WithRun(ToMap(rs), rs[|rs| - 1].last + 1, last, rs[|rs| - 1].origin)
  {
    var r := Run(rs[|rs| - 1].last + 1, last, rs[|rs| - 1].origin);
    DenotesToMap(rs);
    KeysBelow(rs, r.first);
    StretchedMap(rs, ToMap(rs), r, out);
    SameMap(out, WithRun(ToMap(rs), r.first, r.last, r.origin));
  }

  lemma KeysBelow(rs: seq<Run>, first: int)
    requires RunsOk(rs) && rs != [] && rs[|rs| - 1].last < first
    ensures forall x :: x in ToMap(rs) ==> x < first
  {
    BeyondEnd(rs, first);
    InKeys(rs);
  }

  lemma StretchedMap(rs: seq<Run>, m: map<int, Origin>, r: Run, out: seq<Run>)
    requires RunsOk(rs) && Denotes(rs, m) && rs != [] && forall x :: x in m ==> x < r.first
    requires r == Run(rs[|rs| - 1].last + 1, r.last, rs[|rs| - 1].origin) && r.first <= r.last
    requires out == rs[|rs| - 1 := rs[|rs| - 1].(last := r.last)]
    ensures RunsOk(out) && Denotes(out, WithRun(m, r.first, r.last, r.origin))
  {
    assert Span(r.first, r.last) !! m.Keys;
    AddedUniform(m, r);
    ExtendedRun(rs, m, r.last, out, WithRun(m, r.first, r.last, r.origin));
  }

  lemma PrunedRuns(rs: seq<Run>, i: nat, through: int, out: seq<Run>)
    requires RunsOk(rs) && i <= |rs| == i + |out|
    requires forall k :: 0 <= k < i ==> rs[k].last <= through
    requires forall k :: i <= k < |rs| ==> rs[k].last > through
    requires forall k :: 0 <= k < |out| ==> out[k].last == rs[i + k].last && out[k].origin == rs[i + k].origin
    requires forall k :: 1 <= k < |out| ==> out[k].first == rs[i + k].first
    requires |out| > 0 ==> out[0].first == Max(rs[i].first, through + 1)
    ensures RunsOk(out)
    ensures ToMap(out) == map x | x in ToMap(rs) && x > through :: ToMap(rs)[x]
  {
    var m := ToMap(rs);
    var kept := map x | x in m && x > through :: m[x];
    DenotesToMap(rs);
    PrunedRunsOk(rs, i, through, out);
    PrunedMap(rs, m, i, through, out, kept);
    SameMap(out, kept);
  }

  lemma AddedUniform(m: map<int, Origin>, r: Run)
    ensures Extends(m, r, m + Uniform(r.first, r.last, r.origin))
  {
  }

  /** all is m with the run added on top. */
  ghost predicate Extends(m: map<int, Origin>, r: Run, all: map<int, Origin>) {
    && (forall x :: x in all <==> x in m || Covers(r, x))
    && (forall x :: x in all ==> all[x] == if Covers(r, x) then r.origin else m[x])
  }

  lemma InsertedRunOk(rs: seq<Run>, i: nat, r: Run, out: seq<Run>)
    requires RunsOk(rs) && i <= |rs| && r.first <= r.last
    requires forall k :: 0 <= k < i ==> rs[k].last < r.first
    requires forall k :: i <= k < |rs| ==> r.last < rs[k].first
    requires |out| == |rs| + 1 && out[i] == r
    requires forall k :: 0 <= k < |out| && k != i ==> out[k] == rs[if k < i then k else k - 1]
    ensures RunsOk(out)
  {
  }

  /** Inserting a run into the gap it fits adds exactly that run to the map. */
  lemma InsertedRun(rs: seq<Run>, m: map<int, Origin>, i: nat, r: Run, out: seq<Run>, all: map<int, Origin>)
    requires RunsOk(rs) && Denotes(rs, m) && i <= |rs| && r.first <= r.last
    requires forall k :: 0 <= k < i ==> rs[k].last < r.first
    requires forall k :: i <= k < |rs| ==> r.last < rs[k].first
    requires |out| == |rs| + 1 && out[i] == r
    requires forall k :: 0 <= k < |out| && k != i ==> out[k] == rs[if k < i then k else k - 1]
    requires Extends(m, r, all)
    ensures Denotes(out, all)
  {
    forall x | x in all
      ensures Covered(out, x)
    {
      if x in m {
        var j :| 0 <= j < |rs| && Covers(rs[j], x);
        var k := if j < i then j else j + 1;
        assert out[k] == rs[j] && Covers(out[k], x);
      } else {
        assert Covers(out[i], x);
      }
    }
  }

  /** Stretching the last run over the sequences right after it adds exactly those to the map. */
  lemma ExtendedRun(rs: seq<Run>, m: map<int, Origin>, last: int, out: seq<Run>, all: map<int, Origin>)
    requires RunsOk(rs) && Denotes(rs, m) && rs != [] && rs[|rs| - 1].last < last
    requires |out| == |rs| && out[|rs| - 1] == rs[|rs| - 1].(last := last)
    requires forall k :: 0 <= k < |out| - 1 ==> out[k] == rs[k]
    requires Extends(m, Run(rs[|rs| - 1].last + 1, last, rs[|rs| - 1].origin), all)
    ensures RunsOk(out) && Denotes(out, all)
  {
    ExtendedRunOk(rs, last, out);
    var n := |rs| - 1;
    forall x | x in all
      ensures Covered(out, x)
    {
      if x in m {
        var j :| 0 <= j < |rs| && Covers(rs[j], x);
        assert Covers(out[j], x);
      } else {
        assert Covers(out[n], x);
      }
    }
  }

  lemma ExtendedRunOk(rs: seq<Run>, last: int, out: seq<Run>)
    requires RunsOk(rs) && rs != [] && rs[|rs| - 1].last < last
    requires |out| == |rs| && out[|rs| - 1] == rs[|rs| - 1].(last := last)
    requires forall k :: 0 <= k < |out| - 1 ==> out[k] == rs[k]
    ensures RunsOk(out)
  {
  }

  lemma PrunedRunsOk(rs: seq<Run>, i: nat, through: int, out: seq<Run>)
    requires RunsOk(rs) && i <= |rs| == i + |out|
    requires forall k :: i <= k < |rs| ==> rs[k].last > through
    requires forall k :: 0 <= k < |out| ==> out[k].last == rs[i + k].last
    requires forall k :: 1 <= k < |out| ==> out[k].first == rs[i + k].first
    requires |out| > 0 ==> out[0].first == Max(rs[i].first, through + 1)
    ensures RunsOk(out)
  {
  }

  lemma PrunedMap(rs: seq<Run>, m: map<int, Origin>, i: nat, through: int, out: seq<Run>, kept: map<int, Origin>)
    requires RunsOk(rs) && Denotes(rs, m) && i <= |rs| == i + |out|
    requires forall k :: 0 <= k < i ==> rs[k].last <= through
    requires forall k :: 0 <= k < |out| ==> out[k].last == rs[i + k].last && out[k].origin == rs[i + k].origin
    requires forall k :: 1 <= k < |out| ==> out[k].first == rs[i + k].first
    requires |out| > 0 ==> rs[i].last > through && out[0].first == Max(rs[i].first, through + 1)
    requires forall x :: x in kept <==> x in m && x > through
    requires forall x :: x in kept ==> kept[x] == m[x]
    ensures Denotes(out, kept)
  {
    forall k | 0 <= k < |out|
      ensures Assigned(out[k], kept)
    {
      assert k > 0 ==> rs[i].last < rs[i + k].first;
      assert Assigned(rs[i + k], m);
      assert forall x :: Covers(out[k], x) ==> Covers(rs[i + k], x);
    }
    forall x | x in kept
      ensures Covered(out, x)
    {
      var j :| 0 <= j < |rs| && Covers(rs[j], x);
      assert Covers(out[j - i], x);
    }
  }
}
