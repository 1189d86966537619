/** Withdrawals and the backlog: what every step of the daemon does to the withheld set, the mark, the
    origins and the ledger, told by their own fields, and how long a recorded withdrawal stands. */
module FenceBacklog {
  import opened Common
  import opened Intervals
  import opened ConsentPolicy
  import opened FenceSpec
  import opened FenceSystem
  import opened FenceInvariant
  import opened FenceTheorems
  import opened FenceExample
  import opened FenceRestart

  /** Frame s is recorded, not yet attempted, and the newest policy does not grant what it was captured
      under. */
  ghost predicate Uncovered(q: Process, s: int) {
    && s in q.fence.origins && s > q.fence.attempted
    && !q.latest.Allows(q.fence.origins[s].root, q.fence.origins[s].generation)
  }

  /** The fence that applied the newest version left nothing of the backlog uncovered. */
  ghost predicate CaughtUp(y: System) {
    y.process.Some? && y.process.value.fence.applied.Some? ==>
      var q := y.process.value;
      && q.fence.applied.value.version <= q.latest.version
      && (q.fence.applied.value.version == q.latest.version ==>
            forall s :: Uncovered(q, s) ==> s in q.fence.withheld)
  }

  lemma DecideCatchesUp(y: System, t: Step)
    requires CaughtUp(y) && Enabled(y, t) && t.Decide?
    ensures CaughtUp(After(y, t))
  {
    var q := y.process.value;
    DecidedAllMeans(Refreshed(q.fence, y.disk, q.latest, t.wrote).fence, q.latest, Frames(t.first, t.last), t.bad);
  }

  lemma OtherCatchesUp(y: System, t: Step)
    requires CaughtUp(y) && Enabled(y, t) && (t.Start? || t.BeforeSend? || t.RecordShutdown? || t.Forget?)
    ensures CaughtUp(After(y, t))
  {
    hide DecidedAll, AppendRecorded;
  }

  lemma RecordCatchesUp(y: System, t: Step)
    requires CaughtUp(y) && Enabled(y, t)
    requires !(t.Decide? || t.Start? || t.BeforeSend? || t.RecordShutdown? || t.Forget?)
    ensures CaughtUp(After(y, t))
  {
    hide DecidedAll, SendPrepared, ShutDown, Started, HandoverOf;
  }

  lemma StepCatchesUp(y: System, t: Step)
    requires CaughtUp(y) && Enabled(y, t)
    ensures CaughtUp(After(y, t))
  {
    hide *;
    if t.Decide? {
      DecideCatchesUp(y, t);
    } else if t.Start? || t.BeforeSend? || t.RecordShutdown? || t.Forget? {
      OtherCatchesUp(y, t);
    } else {
      RecordCatchesUp(y, t);
    }
  }

  lemma {:induction false} RunCatchesUp(y: System, ts: seq<Step>)
    requires CaughtUp(y) && CanRun(y, ts)
    ensures CaughtUp(Ran(y, ts))
    decreases |ts|
  {
    if ts != [] {
      StepCatchesUp(y, ts[0]);
      RunCatchesUp(After(y, ts[0]), ts[1..]);
    }
  }

  // ---- what one step does -----------------------------------------------------------------------

  /** The step decides about frame s: a refresh and a decision about the whole backlog, an attribution
      about its own frame. */
  ghost predicate DecidesAbout(q: Process, t: Step, s: int) {
    t.Refresh? || t.Decide? || (t.RecordAppend? && t.id in q.holders && q.holders[t.id].frame == Some(s))
  }

  /** s is withheld after the step exactly if it was and is not forgotten, or the step decides about it and
      finds it uncovered. */
  ghost predicate Withheld(q: Process, t: Step, q': Process, s: int) {
    s in q'.fence.withheld <==>
      || (s in q.fence.withheld && !(t.Forget? && s <= t.through))
      || (DecidesAbout(q, t, s) && Uncovered(q', s))
  }

  lemma DecideWithholds(y: System, t: Step, s: int)
    requires CaughtUp(y) && Enabled(y, t) && t.Decide?
    ensures Withheld(y.process.value, t, After(y, t).process.value, s)
  {
    var q := y.process.value;
    DecidedAllMeans(Refreshed(q.fence, y.disk, q.latest, t.wrote).fence, q.latest, Frames(t.first, t.last), t.bad);
  }

  lemma AttributionWithholds(y: System, t: Step, s: int)
    requires SystemOk(y) && Enabled(y, t) && t.RecordAppend?
    ensures Withheld(y.process.value, t, After(y, t).process.value, s)
  {
    var q := y.process.value;
    hide Refreshed, DecidedAll, SendPrepared, ShutDown, Started;
    assert ProcessOk(q, y.disk, y.acked, y.durable);
    assert Waiting(q.holders[t.id].frame.value, q.fence, CeilingOf(q.lane, y.acked), y.durable);
  }

  lemma OtherWithholds(y: System, t: Step, s: int)
    requires CaughtUp(y) && Enabled(y, t) && y.process.Some? && !t.Stop? && !t.Decide? && !t.RecordAppend?
    ensures After(y, t).process.Some? && Withheld(y.process.value, t, After(y, t).process.value, s)
  {
  }

  /** Over every run, a step of a running daemon withholds exactly the frames it decides about that the
      newest policy leaves uncovered, and releases none but those it forgets. */
  lemma StepWithholds(y0: System, ts: seq<Step>, t: Step, s: int)
    requires Init(y0) && CanRun(y0, ts) && Enabled(Ran(y0, ts), t)
    requires Ran(y0, ts).process.Some? && !t.Stop?
    ensures
      var q, y' := Ran(y0, ts).process.value, After(Ran(y0, ts), t);
      && y'.process.Some?
      && var q' := y'.process.value;
         (s in q'.fence.withheld <==>
            || (s in q.fence.withheld && !(t.Forget? && s <= t.through))
            || (DecidesAbout(q, t, s) && Uncovered(q', s)))
  {
    RunKeepsInvariant(y0, ts);
    RunCatchesUp(y0, ts);
    var y := Ran(y0, ts);
    if t.Decide? {
      DecideWithholds(y, t, s);
    } else if t.RecordAppend? {
      AttributionWithholds(y, t, s);
    } else {
      OtherWithholds(y, t, s);
    }
  }

  ghost predicate Moved(q: Process, t: Step, q': Process, s: int) {
    && q'.fence.attempted == (if t.BeforeSend? && q.lane.Decided? && q'.lane.Sending?
                                 && q.lane.batch.Last() > q.fence.attempted then q.lane.batch.Last()
                              else q.fence.attempted)
    && (s in q'.fence.origins <==>
          || (s in q.fence.origins && !(t.Forget? && s <= t.through))
          || (t.RecordAppend? && t.id in q.holders && q.holders[t.id].frame == Some(s)))
    && (s in q'.fence.origins ==>
          if s in q.fence.origins then q'.fence.origins[s] == q.fence.origins[s]
          else t.RecordAppend? && t.id in q.holders && q'.fence.origins[s] == q.holders[t.id].origin)
  }

  lemma DecideMoves(y: System, t: Step, s: int)
    requires Enabled(y, t) && t.Decide?
    ensures Moved(y.process.value, t, After(y, t).process.value, s)
  {
    hide AppendRecorded, SendPrepared, ShutDown, Started;
    var q := y.process.value;
    DecidedAllMeans(Refreshed(q.fence, y.disk, q.latest, t.wrote).fence, q.latest, Frames(t.first, t.last), t.bad);
  }

  /** And it moves the mark only to clear a batch, learns an origin only from the append that carries it,
      and forgets one only when told to. */
  lemma StepMoves(y: System, t: Step, s: int)
    requires SystemOk(y) && Enabled(y, t) && y.process.Some? && !t.Stop?
    ensures After(y, t).process.Some? && Moved(y.process.value, t, After(y, t).process.value, s)
  {
    hide DecidedAll, Started, HandoverOf, ProcessOk;
    if t.Decide? {
      DecideMoves(y, t, s);
    }
  }

  /** Every ledger the disk may hold withholds s. */
  ghost predicate OnDisk(disk: set<Ledger>, s: int) { forall l :: l in disk ==> s in l.withheld }

  /** A step whose write, if it made one, worked: it leaves something unwritten exactly when something was
      and it withheld nothing more; and it did not write exactly then or when it had nothing to withhold. */
  ghost predicate Records(y: System, y': System) {
    && y.process.Some? && y'.process.Some?
    && var f, f' := y.process.value.fence, y'.process.value.fence;
       && (f'.dirty <==> f.dirty && f'.withheld == f.withheld)
       && y'.disk == if f'.withheld == f.withheld then y.disk else {Ledger(f'.withheld, f'.pending)}
  }

  lemma RefreshRecords(y: System, t: Step)
    requires Enabled(y, t) && t.Refresh? && t.wrote
    ensures Records(y, After(y, t))
  {
    var f := y.process.value.fence;
    if Withdraws(f, y.process.value.latest) {
      var x :| x in Denied(f, y.process.value.latest) && x !in f.withheld;
      assert x in After(y, t).process.value.fence.withheld;
    }
  }

  lemma DecideRecords(y: System, t: Step)
    requires CaughtUp(y) && Enabled(y, t) && t.Decide? && t.wrote
    ensures Records(y, After(y, t))
  {
    var q := y.process.value;
    var f := Refreshed(q.fence, y.disk, q.latest, true).fence;
    RefreshRecords(y, Refresh(true));
    StepCatchesUp(y, Refresh(true));
    DecidedAllMeans(f, q.latest, Frames(t.first, t.last), t.bad);
    var g := After(y, t).process.value.fence;
    forall s | s in g.withheld ensures s in f.withheld {
      assert Withholds(f, q.latest, s) && s !in f.withheld ==> Uncovered(q.(fence := f), s);
    }
  }

  lemma AttributionRecords(y: System, t: Step)
    requires SystemOk(y) && Enabled(y, t) && t.RecordAppend? && t.wrote
    ensures Records(y, After(y, t))
  {
    var q := y.process.value;
    hide Refreshed, DecidedAll, SendPrepared, ShutDown, Started;
    assert ProcessOk(q, y.disk, y.acked, y.durable);
    assert Waiting(q.holders[t.id].frame.value, q.fence, CeilingOf(q.lane, y.acked), y.durable);
  }

  /** Over every run, a refresh, a decision or an attribution whose write works leaves a decision unwritten
      exactly when one was unwritten before it and it withheld nothing more itself, and touches the disk
      exactly when it withheld something. With nothing left unwritten, every withheld frame still to be
      read is withheld by every ledger the disk may hold. */
  lemma WithdrawalsAreRecorded(y0: System, ts: seq<Step>, t: Step)
    requires Init(y0) && CanRun(y0, ts) && Enabled(Ran(y0, ts), t)
    requires (t.Refresh? || t.Decide? || t.RecordAppend?) && t.wrote
    ensures
      var y, y' := Ran(y0, ts), After(Ran(y0, ts), t);
      var f, f' := y.process.value.fence, y'.process.value.fence;
      && (f'.dirty <==> f.dirty && f'.withheld == f.withheld)
      && y'.disk == (if f'.withheld == f.withheld then y.disk else {Ledger(f'.withheld, f'.pending)})
      && (!f'.dirty ==> forall s :: s in f'.withheld && s > y'.acked ==> OnDisk(y'.disk, s))
  {
    RunKeepsInvariant(y0, ts);
    RunCatchesUp(y0, ts);
    var y := Ran(y0, ts);
    var y' := After(y, t);
    StepKeeps(y, t);
    if t.Refresh? {
      RefreshRecords(y, t);
    } else if t.Decide? {
      DecideRecords(y, t);
    } else {
      AttributionRecords(y, t);
    }
    assert Records(y, y');
    assert ProcessOk(y'.process.value, y'.disk, y'.acked, y'.durable);
  }

  // ---- how long it stands -----------------------------------------------------------------------

  /** Frame s is withheld for good: by the fence, by every ledger the disk may hold, and in whatever batch
      is under way. */
  ghost predicate ForGood(y: System, s: int) {
    && s <= y.durable && OnDisk(y.disk, s)
    && (y.process.Some? ==>
          var q := y.process.value;
          && s in q.fence.withheld
          && ((q.lane.Decided? || q.lane.Sending?) && q.lane.batch.Has(s) ==> q.lane.batch.At(s) == Placeholder))
  }

  lemma DecideKeepsForGood(y: System, t: Step, s: int)
    requires SystemOk(y) && Enabled(y, t) && ForGood(y, s) && t.Decide?
    ensures ForGood(After(y, t), s)
  {
    var q := y.process.value;
    var out := Refreshed(q.fence, y.disk, q.latest, t.wrote);
    var frames := Frames(t.first, t.last);
    DecidedAllMeans(out.fence, q.latest, frames, t.bad);
    var b := After(y, t).process.value.lane;
    if b.Decided? && b.batch.Has(s) {
      assert frames[s - t.first] == s;
    }
  }

  lemma StepKeepsForGood(y: System, t: Step, s: int)
    requires SystemOk(y) && Enabled(y, t) && ForGood(y, s) && s > After(y, t).acked
    ensures ForGood(After(y, t), s)
    ensures (s, AsCaptured) in After(y, t).sent ==> (s, AsCaptured) in y.sent
  {
    if t.Decide? {
      DecideKeepsForGood(y, t, s);
    } else if t.Forget? {
      assert t.through <= y.acked;
    }
  }

  lemma {:induction false} RunKeepsForGood(y: System, ts: seq<Step>, s: int)
    requires SystemOk(y) && CanRun(y, ts) && ForGood(y, s) && s > Ran(y, ts).acked
    ensures ForGood(Ran(y, ts), s)
    ensures (s, AsCaptured) in Ran(y, ts).sent ==> (s, AsCaptured) in y.sent
    decreases |ts|
  {
    if ts != [] {
      StepKeeps(y, ts[0]);
      AckedOnlyGrows(After(y, ts[0]), ts[1..]);
      StepKeepsForGood(y, ts[0], s);
      RunKeepsForGood(After(y, ts[0]), ts[1..], s);
    }
  }

  /** Once a refresh, a decision or an attribution whose write worked leaves nothing unwritten, every frame it
      decides about and finds uncovered stays withheld through every later run, over crashes, failed writes,
      new grants and starts of either kind: until the collector acknowledges it, it is never sent as
      captured again. */
  lemma WithdrawalStands(y0: System, ts: seq<Step>, t: Step, us: seq<Step>, s: int)
    requires Init(y0) && CanRun(y0, ts) && Enabled(Ran(y0, ts), t)
    requires (t.Refresh? || t.Decide? || t.RecordAppend?) && t.wrote
    requires CanRun(After(Ran(y0, ts), t), us) && s > Ran(After(Ran(y0, ts), t), us).acked
    requires !After(Ran(y0, ts), t).process.value.fence.dirty
    requires DecidesAbout(Ran(y0, ts).process.value, t, s) && Uncovered(After(Ran(y0, ts), t).process.value, s)
    ensures var z := Ran(After(Ran(y0, ts), t), us);
            && ((s, AsCaptured) in z.sent ==> (s, AsCaptured) in Ran(y0, ts).sent)
            && (z.process.Some? ==> s in z.process.value.fence.withheld)
  {
    var y := Ran(y0, ts);
    var y' := After(y, t);
    RunKeepsInvariant(y0, ts);
    StepKeeps(y, t);
    WithdrawalsAreRecorded(y0, ts, t);
    StepWithholds(y0, ts, t, s);
    AckedOnlyGrows(y', us);
    BatchWithholds(y, t, s);
    RunKeepsForGood(y', us, s);
  }

  lemma BatchWithholds(y: System, t: Step, s: int)
    requires SystemOk(y) && Enabled(y, t) && SystemOk(After(y, t)) && (t.Refresh? || t.Decide? || t.RecordAppend?)
    requires DecidesAbout(y.process.value, t, s) && s in After(y, t).process.value.fence.withheld
    ensures
      var lane := After(y, t).process.value.lane;
      (lane.Decided? || lane.Sending?) && lane.batch.Has(s) ==> lane.batch.At(s) == Placeholder
    ensures s <= After(y, t).durable && After(y, t).sent == y.sent
  {
    hide Refreshed, DecidedAll, AppendRecorded;
    var q := y.process.value;
    var y' := After(y, t);
    assert ProcessOk(q, y.disk, y.acked, y.durable);
    assert ProcessOk(y'.process.value, y'.disk, y'.acked, y'.durable);
    if t.RecordAppend? {
      assert Waiting(q.holders[t.id].frame.value, q.fence, CeilingOf(q.lane, y.acked), y.durable);
    }
  }

  // ---- a refresh that leaves something unwritten ------------------------------------------------

  const KEPT := Ledger({1}, None)

  const NARROWED := Policy(2, false, [], "")

  /** The one append's consent went while it waited to be attributed, and writing that down failed. */
  const UNWRITTEN := System(1, 0, {NO_LEDGER, KEPT}, {},
                            Some(Process(true, NARROWED, Fence(0, {1}, map[1 := ROOT], None, true, None, false),
                                         map[], Open(1),
                                         map[1 := ROOT])))

  lemma FailToWrite() returns (ts: seq<Step>)
    ensures CanRun(APPENDED, ts) && Ran(APPENDED, ts) == UNWRITTEN
  {
    hide Refreshed, DecidedAll, SendPrepared, ShutDown, Started;
    var publish, record := Publish(NARROWED), Step.RecordAppend(0, false);
    var y1 := After(APPENDED, publish);
    var y2 := After(y1, record);
    var done := HELD.(recorded := true);
    assert map[0 := HELD][0 := done] == map[0 := done] && map[0 := done] - {0} == map[];
    assert {} + {1} == {1};
    assert y2.process.value.fence == UNWRITTEN.process.value.fence && y2.disk == UNWRITTEN.disk;
    var y3 := After(y2, Release(0));
    assert After(y3, ReadCeiling) == UNWRITTEN;
    Then(y3, ReadCeiling, []);
    Then(y2, Release(0), [ReadCeiling] + []);
    Then(y1, record, [Release(0)] + ([ReadCeiling] + []));
    Then(APPENDED, publish, [record] + ([Release(0)] + ([ReadCeiling] + [])));
    ts := [publish] + ([record] + ([Release(0)] + ([ReadCeiling] + [])));
  }

  /** That a refresh records its decisions before it returns is false of the daemon as it stands: over the
      state above it reports success, withholds the frame, and leaves a ledger on disk that does not. */
  lemma RefreshLeavesUnwritten() returns (ts: seq<Step>)
    ensures Init(FRESH) && CanRun(FRESH, ts) && Enabled(Ran(FRESH, ts), Refresh(true))
    ensures
      var y' := After(Ran(FRESH, ts), Refresh(true));
      && y'.process.Some? && y'.process.value.lane.Open?
      && Uncovered(y'.process.value, 1) && 1 in y'.process.value.fence.withheld && 1 > y'.acked
      && !OnDisk(y'.disk, 1)
  {
    var a := AppendOne();
    var b := FailToWrite();
    RunsOn(FRESH, a, b);
    ts := a + b;
    var f := UNWRITTEN.process.value.fence;
    assert Denied(f, NARROWED) <= f.withheld;
    assert NO_LEDGER in UNWRITTEN.disk;
  }

  // ---- what a start reads -----------------------------------------------------------------------

  /** A record is taken over exactly when it fits the log: then its mark and its origins above the mark are
      back. What the ledger withholds is withheld again as far as the log reaches. A passive daemon consents
      to nothing, so it withholds whatever origins it starts with as well, and every ledger on disk does. */
  lemma StartReads(y: System, t: Step, s: int)
    requires Enabled(y, t) && t.Start? && After(y, t).process.Some?
    ensures
      var y', w, r := After(y, t), t.ledger.withheld, t.ledger.shutdown;
      var q := y'.process.value;
      var fits := r.Some? && r.value.attempted <= r.value.highest <= y.durable;
      && q.fence.attempted == (if fits then r.value.attempted else y.durable)
      && q.fence.pending == (if fits then r else None) && !q.fence.recorded
      && (s in q.fence.origins <==> fits && s in r.value.origins && r.value.attempted < s <= r.value.highest)
      && (s in q.fence.origins ==> q.fence.origins[s] == r.value.origins[s])
      && (s in q.fence.withheld <==> (s in w && s <= y.durable) || (!t.live && s in q.fence.origins))
      && (if t.live then q.latest == t.policy else forall root, g :: !q.latest.Allows(root, g))
      && (!t.live && s in q.fence.origins ==> OnDisk(y'.disk, s))
  {
    hide DecidedAll, AppendRecorded, SendPrepared, ShutDown;
    var l := t.ledger;
    if l.shutdown.Some? && !Outgrown(l.shutdown.value, y.durable) && !t.live {
      var f := Resumed(l, l.shutdown.value, y.durable);
      assert s in f.origins <==> s in Denied(f, NO_CONSENT);
    }
  }
}
