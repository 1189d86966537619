/** Consent before send, the gate, and exact shutdown records. */
module FenceConsent {
  import opened Common
  import opened Intervals
  import opened ConsentPolicy
  import opened FenceSpec
  import opened FenceSystem
  import opened FenceInvariant
  import opened FenceSafety
  import opened FenceTheorems

  // ---- the gate ---------------------------------------------------------------------------------

  /** Whatever the lane may read below its ceiling, an acknowledged watcher append there already has
      its origin recorded, on every run and whatever failed. */
  lemma GateAttributes(y0: System, ts: seq<Step>, s: int)
    requires Init(y0) && CanRun(y0, ts)
    requires Ran(y0, ts).process.Some? && !Ran(y0, ts).process.value.lane.Idle?
    requires var y := Ran(y0, ts); s in y.process.value.acknowledged && y.acked < s <= y.process.value.lane.ceiling
    ensures var q := Ran(y0, ts).process.value; s in q.fence.origins && q.fence.origins[s] == q.acknowledged[s]
  {
    RunKeepsInvariant(y0, ts);
    var y := Ran(y0, ts);
    var q := y.process.value;
    assert ProcessOk(q, y.disk, y.acked, y.durable);
    forall i | i in q.holders
      ensures q.holders[i].frame == Some(s) ==> q.holders[i].recorded
    {
      assert Pending(q.holders[i]) ==> Waiting(q.holders[i].frame.value, q.fence, q.lane.ceiling, y.durable);
    }
  }

  /** Between its decision and its send no frame of a batch is newly withheld, and none is released. */
  lemma DecisionStands(y0: System, ts: seq<Step>, s: int)
    requires Init(y0) && CanRun(y0, ts)
    requires Ran(y0, ts).process.Some? && Ran(y0, ts).process.value.lane.Decided?
    requires Ran(y0, ts).process.value.lane.batch.Has(s)
    ensures var q := Ran(y0, ts).process.value; q.lane.batch.At(s) == Placeholder <==> s in q.fence.withheld
  {
    RunKeepsInvariant(y0, ts);
  }

  // ---- consent before send ----------------------------------------------------------------------

  /** Step k of the run decides b, under the policy then newest. */
  ghost predicate DecidedAt(y0: System, ts: seq<Step>, k: nat, b: Batch) {
    && k < |ts| && ts[k].Decide?
    && CanRun(y0, ts[..k]) && Enabled(Ran(y0, ts[..k]), ts[k])
    && Ran(y0, ts[..k]).process.value.latest == b.under
    && Deciding(After(Ran(y0, ts[..k]), ts[k]), b)
  }

  ghost predicate Deciding(y: System, b: Batch) {
    y.process.Some? && y.process.value.lane.Decided? && y.process.value.lane.batch == b
  }

  /** Only a decision brings up a batch to be cleared, and it keeps what it was decided under. */
  lemma DecidingSteps(y: System, t: Step, b: Batch)
    requires Enabled(y, t) && Deciding(After(y, t), b)
    ensures if t.Decide? then y.process.value.latest == b.under else Deciding(y, b)
  {
  }

  lemma {:induction false} WhenDecided(y0: System, ts: seq<Step>, b: Batch) returns (k: nat)
    requires Init(y0) && CanRun(y0, ts) && Deciding(Ran(y0, ts), b)
    ensures DecidedAt(y0, ts, k, b)
    decreases |ts|
  {
    var n := |ts| - 1;
    LastStep(y0, ts);
    DecidingSteps(Ran(y0, ts[..n]), ts[n], b);
    if ts[n].Decide? {
      k := n;
    } else {
      k := WhenDecided(y0, ts[..n], b);
      assert ts[..n][..k] == ts[..k];
    }
  }

  /** A batch cleared for sending was decided under the policy newest at its decision; every acknowledged
      watcher frame in it that was not attempted before and whose consent that policy did not cover is a
      placeholder; and every placeholder in it is withheld by every ledger the disk may hold. */
  lemma ConsentBeforeSend(y0: System, ts: seq<Step>, wrote: bool, s: int)
    requires Init(y0) && CanRun(y0, ts) && Enabled(Ran(y0, ts), BeforeSend(wrote))
    requires After(Ran(y0, ts), BeforeSend(wrote)).process.value.lane.Sending?
    requires Ran(y0, ts).process.value.lane.batch.Has(s)
    ensures var y := Ran(y0, ts);
            var q, b := y.process.value, y.process.value.lane.batch;
            && (s > q.fence.attempted && s in q.acknowledged ==>
                  b.under.Allows(q.acknowledged[s].root, q.acknowledged[s].generation) || b.At(s) == Placeholder)
            && (s > q.fence.attempted && s in q.fence.origins ==>
                  b.under.Allows(q.fence.origins[s].root, q.fence.origins[s].generation) || b.At(s) == Placeholder)
            && (exists k :: DecidedAt(y0, ts, k, b))
            && forall l :: l in After(y, BeforeSend(wrote)).disk ==> (b.At(s) == Placeholder <==> s in l.withheld)
  {
    RunKeepsInvariant(y0, ts);
    var y := Ran(y0, ts);
    var q := y.process.value;
    assert ProcessOk(q, y.disk, y.acked, y.durable);
    if s in q.acknowledged {
      GateAttributes(y0, ts, s);
    }
    var k := WhenDecided(y0, ts, q.lane.batch);
    SendPreparedKeeps(q.fence, y.disk, q.lane.batch.Last(), wrote, y.acked, y.durable);
    forall l | l in After(y, BeforeSend(wrote)).disk
      ensures q.lane.batch.At(s) == Placeholder <==> s in l.withheld
    {
      assert InStep(SendPrepared(q.fence, y.disk, q.lane.batch.Last(), wrote).fence, l, y.acked);
    }
  }

  /** A withheld sequence is never released while it can still be read: no later grant, failed write or
      acknowledgement of others takes it back. */
  lemma NeverReleased(y: System, t: Step, s: int)
    requires SystemOk(y) && Enabled(y, t) && !t.Stop?
    requires y.process.Some? && s in y.process.value.fence.withheld && s > y.acked
    ensures After(y, t).process.Some? && s in After(y, t).process.value.fence.withheld
  {
    hide HandoverOf, ProcessOk, Started;
    if t.Decide? {
      var q := y.process.value;
      DecidedAllMeans(Refreshed(q.fence, y.disk, q.latest, t.wrote).fence, q.latest, Frames(t.first, t.last), t.bad);
    }
  }

  /** A withheld sequence with nothing left to record survives a crash and any start. */
  lemma SurvivesRestart(y: System, l: Ledger, live: bool, p: Policy, wrote: bool, s: int)
    requires SystemOk(y) && y.process.Some? && !y.process.value.fence.dirty
    requires s in y.process.value.fence.withheld && s > y.acked
    requires Enabled(After(y, Stop), Start(l, live, p, wrote))
    ensures var y' := After(After(y, Stop), Start(l, live, p, wrote));
            y'.process.Some? ==> s in y'.process.value.fence.withheld
  {
    assert ProcessOk(y.process.value, y.disk, y.acked, y.durable);
    assert LedgerOk(l, y.durable) && InStep(y.process.value.fence, l, y.acked);
  }

  // ---- exact shutdown records -------------------------------------------------------------------

  ghost predicate AtMost(y: System, mark: int) { forall s, p :: Final(y, s, p) ==> s <= mark }

  /** Every shutdown record the disk may hold marks at least everything sent so far as attempted. */
  ghost predicate MarksExact(y: System) {
    forall l, s, p :: l in y.disk && l.shutdown.Some? && (s, p) in y.sent ==> s <= l.shutdown.value.attempted
  }

  ghost predicate Marked(y: System) {
    && (forall s, p :: Final(y, s, p) ==> s <= y.durable)
    && (forall l :: l in y.disk && l.shutdown.Some? ==> AtMost(y, l.shutdown.value.attempted))
    && (y.process.Some? ==>
          && AtMost(y, y.process.value.fence.attempted)
          && (y.process.value.fence.pending.Some? ==> AtMost(y, y.process.value.fence.pending.value.attempted)))
  }

  /** A batch goes out unwritten past the mark of a record the disk may hold. */
  ghost predicate Overtakes(y: System, t: Step) {
    && t.BeforeSend? && y.process.Some? && y.process.value.lane.Decided?
    && NothingToWrite(y.process.value.fence)
    && exists l :: l in y.disk && l.shutdown.Some? && l.shutdown.value.attempted < y.process.value.lane.batch.Last()
  }

  lemma FinalsWithin(y: System, t: Step)
    requires SystemOk(y) && Enabled(y, t) && !t.BeforeSend?
    ensures forall s, p :: Final(After(y, t), s, p) ==> Final(y, s, p)
  {
    if !t.AppendPlain? && !t.Start? {
      SentIsFinal(y, y.process.value, t);
    }
  }

  lemma MarkedDecides(y: System, t: Step)
    requires SystemOk(y) && Marked(y) && Enabled(y, t) && t.Decide?
    ensures Marked(After(y, t))
  {
    FinalsWithin(y, t);
    var q := y.process.value;
    var out := Refreshed(q.fence, y.disk, q.latest, t.wrote);
    DecidedAllMeans(out.fence, q.latest, Frames(t.first, t.last), t.bad);
  }

  lemma MarkedStarts(y: System, t: Step)
    requires SystemOk(y) && Marked(y) && Enabled(y, t) && t.Start?
    ensures Marked(After(y, t))
  {
    FinalsWithin(y, t);
  }

  lemma MarkedMoves(y: System, t: Step)
    requires SystemOk(y) && Marked(y) && Enabled(y, t) && !t.BeforeSend? && !t.Decide? && !t.Start?
    ensures Marked(After(y, t))
  {
    FinalsWithin(y, t);
  }

  lemma MarkedSends(y: System, t: Step)
    requires SystemOk(y) && Marked(y) && Enabled(y, t) && t.BeforeSend? && !Overtakes(y, t)
    ensures Marked(After(y, t))
  {
    var q := y.process.value;
    var b := q.lane.batch;
    var y' := After(y, t);
    assert forall s, p :: Final(y', s, p) ==> Final(y, s, p) || (b.Has(s) && y'.process.value.lane.Sending?);
  }

  /** A step keeps every record on disk exact about what is cleared to be sent if and only if it does
      not overtake one. */
  lemma MarkedIffNotOvertaken(y: System, t: Step)
    requires SystemOk(y) && Marked(y) && Enabled(y, t)
    ensures Marked(After(y, t)) <==> !Overtakes(y, t)
  {
    if t.Decide? {
      MarkedDecides(y, t);
    } else if t.Start? {
      MarkedStarts(y, t);
    } else if !t.BeforeSend? {
      MarkedMoves(y, t);
    } else if !Overtakes(y, t) {
      MarkedSends(y, t);
    } else {
      var q := y.process.value;
      var b := q.lane.batch;
      var l :| l in y.disk && l.shutdown.Some? && l.shutdown.value.attempted < b.Last();
      assert l in After(y, t).disk;
      assert Final(After(y, t), b.Last(), b.At(b.Last()));
    }
  }

  /** Over every run that forgets no half-failed record, every shutdown record the disk may hold marks
      at least every sequence sent so far. */
  lemma {:induction false} ShutdownRecordsExact(y: System, ts: seq<Step>)
    requires SystemOk(y) && RecordsKnown(y) && Marked(y) && CanRun(y, ts) && NoForgottenRecord(y, ts)
    ensures Marked(Ran(y, ts)) && MarksExact(Ran(y, ts))
    decreases |ts|
  {
    if ts == [] {
      assert forall s, p :: (s, p) in y.sent ==> Final(y, s, p);
    } else {
      KnownStays(y, ts[0]);
      StepKeeps(y, ts[0]);
      MarkedIffNotOvertaken(y, ts[0]);
      ShutdownRecordsExact(After(y, ts[0]), ts[1..]);
    }
  }

  /** The promises of a run that forgets no record, from a fresh state directory. */
  lemma FreshRunKeepsPromises(y: System, ts: seq<Step>)
    requires Init(y) && CanRun(y, ts) && NoForgottenRecord(y, ts)
    ensures OnePayload(Ran(y, ts)) && MarksExact(Ran(y, ts))
  {
    KnownRecordsAreSafe(y, ts);
    ShutdownRecordsExact(y, ts);
  }
}
