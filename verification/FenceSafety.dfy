/** The fence's safety over whole runs: one payload per sequence, consent before send, exact shutdown
    records, and the one way each of them can be lost. */
module FenceSafety {
  import opened Common
  import opened Intervals
  import opened ConsentPolicy
  import opened FenceSpec
  import opened FenceSystem
  import opened FenceInvariant

  /** No sequence was ever sent with two payloads. */
  ghost predicate OnePayload(y: System) {
    forall s, p, p' :: (s, p) in y.sent && (s, p') in y.sent ==> p == p'
  }

  /** Payloads that can no longer change: those sent, and those of a batch cleared for sending. */
  ghost predicate Final(y: System, s: int, p: Payload) {
    || (s, p) in y.sent
    || (y.process.Some? && y.process.value.lane.Sending? && y.process.value.lane.batch.Has(s)
        && y.process.value.lane.batch.At(s) == p)
  }

  /** Withholding w and later applying h to it cannot contradict what is final above the acknowledgement. */
  ghost predicate Consistent(y: System, w: set<int>) {
    forall s, p :: Final(y, s, p) && s > y.acked ==> (p == Placeholder <==> s in w)
  }

  /** Nothing final as captured can still be withheld by one who knows these origins above this mark. */
  ghost predicate Settled(y: System, attempted: int, origins: map<int, Origin>) {
    forall s :: Final(y, s, AsCaptured) && s > y.acked ==> s <= attempted || s !in origins
  }

  ghost predicate LedgerSafe(y: System, l: Ledger) {
    && Consistent(y, l.withheld)
    && (l.shutdown.Some? ==> Settled(y, l.shutdown.value.attempted, l.shutdown.value.origins))
  }

  ghost predicate FenceSafe(y: System, f: Fence) {
    && Consistent(y, f.withheld)
    && Settled(y, f.attempted, f.origins)
    && (f.pending.Some? ==> Settled(y, f.pending.value.attempted, f.pending.value.origins))
  }

  ghost predicate Safe(y: System) {
    && (forall s, p, p' :: Final(y, s, p) && Final(y, s, p') ==> p == p')
    && (forall s, p :: Final(y, s, p) ==> s <= y.durable)
    && (forall l :: l in y.disk ==> LedgerSafe(y, l))
    && (y.process.Some? ==> FenceSafe(y, y.process.value.fence) && HeldUnsent(y, y.process.value.holders))
  }

  /** A frame still waiting for its origin was never sent. */
  ghost predicate HeldUnsent(y: System, holders: map<nat, Holder>) {
    forall i, p :: i in holders && Pending(holders[i]) ==> !Final(y, holders[i].frame.value, p)
  }

  /** The batch about to be cleared is not written about (the fence knows of nothing to write), yet the
      disk may hold a shutdown record that still names one of its captured frames as unattempted. */
  ghost predicate Hazard(y: System, t: Step) {
    && t.BeforeSend?
    && y.process.Some? && y.process.value.lane.Decided?
    && NothingToWrite(y.process.value.fence)
    && exists l, s :: l in y.disk && Exposes(l, y.process.value.lane.batch, s)
  }

  ghost predicate Exposes(l: Ledger, b: Batch, s: int) {
    && l.shutdown.Some?
    && b.Has(s) && b.At(s) == AsCaptured
    && s > l.shutdown.value.attempted && s in l.shutdown.value.origins
  }

  // ---- which steps change what is final ---------------------------------------------------------

  /** y' has no final payload y lacks, and acknowledges no less. */
  ghost predicate NoNewFinals(y: System, y': System) {
    && (forall s, p :: Final(y', s, p) ==> Final(y, s, p))
    && y.acked <= y'.acked
    && y.durable <= y'.durable
  }

  lemma NoNewFinalsKeeps(y: System, y': System)
    requires Safe(y) && NoNewFinals(y, y')
    requires forall l :: l in y'.disk ==> l in y.disk || LedgerSafe(y, l)
    requires y'.process.Some? ==> FenceSafe(y, y'.process.value.fence) && HeldUnsent(y, y'.process.value.holders)
    ensures Safe(y')
  {
  }

  /** Nothing final as captured is denied: it was attempted, or nobody knows its origin. */
  lemma DeniedIsNotFinal(y: System, f: Fence, p: Policy)
    requires FenceSafe(y, f)
    ensures forall s :: s in Denied(f, p) && s > y.acked ==> !Final(y, s, AsCaptured)
  {
  }

  /** Withholding more of what is not final keeps the fence and what it writes safe. */
  lemma GrewSafe(y: System, f: Fence, g: Fence, more: set<int>)
    requires FenceSafe(y, f) && Grew(f, g, more)
    requires forall s :: s in more && s > y.acked ==> !Final(y, s, AsCaptured)
    ensures FenceSafe(y, g) && LedgerSafe(y, LedgerOf(g))
  {
  }

  lemma HandoverSettled(y: System, f: Fence, highest: int)
    requires Settled(y, f.attempted, f.origins)
    ensures Settled(y, HandoverOf(f, highest).attempted, HandoverOf(f, highest).origins)
  {
  }

  lemma RefreshSafe(y: System, f: Fence, disk: set<Ledger>, p: Policy, wrote: bool)
    requires FenceSafe(y, f)
    ensures var out := Refreshed(f, disk, p, wrote);
            && FenceSafe(y, out.fence)
            && forall l :: l in out.disk ==> l in disk || LedgerSafe(y, l)
  {
    DeniedIsNotFinal(y, f, p);
    GrewSafe(y, f, Applied(f, p), Denied(f, p));
  }

  lemma SentIsFinal(y: System, q: Process, t: Step)
    requires SystemOk(y) && y.process == Some(q) && EnabledIn(y, q, t) && !t.BeforeSend?
    ensures forall s, p :: Final(AfterIn(y, q, t), s, p) ==> Final(y, s, p)
  {
    if t.Send? {
      var b := q.lane.batch;
      forall s, p | (s, p) in Entries(b)
        ensures Final(y, s, p)
      {
        var i :| 0 <= i < |b.payloads| && (s, p) == (b.first + i, b.payloads[i]);
        assert b.Has(s) && b.At(s) == p;
      }
    }
  }

  lemma RefreshStepSafe(y: System, q: Process, t: Step)
    requires SystemOk(y) && Safe(y) && y.process == Some(q) && EnabledIn(y, q, t) && t.Refresh?
    ensures Safe(AfterIn(y, q, t))
  {
    SentIsFinal(y, q, t);
    RefreshSafe(y, q.fence, y.disk, q.latest, t.wrote);
    NoNewFinalsKeeps(y, AfterIn(y, q, t));
  }

  lemma DecideStepSafe(y: System, q: Process, t: Step)
    requires SystemOk(y) && Safe(y) && y.process == Some(q) && EnabledIn(y, q, t) && t.Decide?
    ensures Safe(AfterIn(y, q, t))
  {
    SentIsFinal(y, q, t);
    var out := Refreshed(q.fence, y.disk, q.latest, t.wrote);
    RefreshSafe(y, q.fence, y.disk, q.latest, t.wrote);
    RefreshedKeeps(q.fence, y.disk, q.latest, t.wrote, y.acked, y.durable);
    var g := DecidedAll(out.fence, q.latest, Frames(t.first, t.last), t.bad).fence;
    DecidedKeeps(out.fence, out.disk, q.latest, Frames(t.first, t.last), t.bad, y.acked, y.durable);
    DeniedIsNotFinal(y, out.fence, q.latest);
    GrewSafe(y, out.fence, g, Denied(out.fence, q.latest));
    NoNewFinalsKeeps(y, AfterIn(y, q, t));
  }

  lemma RecordStepSafe(y: System, q: Process, t: Step)
    requires SystemOk(y) && Safe(y) && y.process == Some(q) && EnabledIn(y, q, t) && t.RecordAppend?
    ensures Safe(AfterIn(y, q, t))
  {
    SentIsFinal(y, q, t);
    var h := q.holders[t.id];
    var s := h.frame.value;
    assert Pending(h) && Waiting(s, q.fence, CeilingOf(q.lane, y.acked), y.durable);
    var f := q.fence.(origins := q.fence.origins[s := h.origin]);
    assert FenceSafe(y, f);
    var out := AppendRecorded(q.fence, y.disk, s, h.origin, q.latest, t.wrote);
    AppendKeeps(q.fence, y.disk, s, h.origin, q.latest, t.wrote, y.acked, y.durable);
    GrewSafe(y, f, out.fence, {s});
    NoNewFinalsKeeps(y, AfterIn(y, q, t));
  }

  lemma ShutdownStepSafe(y: System, q: Process, t: Step)
    requires SystemOk(y) && Safe(y) && y.process == Some(q) && EnabledIn(y, q, t) && t.RecordShutdown?
    ensures Safe(AfterIn(y, q, t))
  {
    SentIsFinal(y, q, t);
    HandoverSettled(y, q.fence, t.highest);
    NoNewFinalsKeeps(y, AfterIn(y, q, t));
  }

  /** Admissions, appends, publications, the ceiling, sending, acknowledging, forgetting and stopping
      leave the fence's decisions alone. */
  lemma OtherStepSafe(y: System, q: Process, t: Step)
    requires SystemOk(y) && Safe(y) && y.process == Some(q) && EnabledIn(y, q, t)
    requires t.Publish? || t.Admit? || t.Append? || t.Release? || t.ReadCeiling? || t.Send?
             || t.Acknowledge? || t.Forget?
             || t.LaneStops? || t.Stop?
    ensures Safe(AfterIn(y, q, t))
  {
    SentIsFinal(y, q, t);
    var y' := AfterIn(y, q, t);
    if t.Acknowledge? || t.Forget? {
      assert y'.process.Some? && FenceSafe(y', y'.process.value.fence);
    } else {
      NoNewFinalsKeeps(y, y');
    }
  }

  // ---- clearing a batch for sending -------------------------------------------------------------

  /** After a successful beforeSend every possible ledger withholds exactly the batch's placeholders
      and, unless the step is a hazard, none names a captured frame of the batch as unattempted. */
  lemma ClearedDisk(y: System, q: Process, t: Step, l: Ledger, s: int)
    requires SystemOk(y) && Safe(y) && y.process == Some(q) && EnabledIn(y, q, t) && t.BeforeSend?
    requires SendPrepared(q.fence, y.disk, q.lane.batch.Last(), t.wrote).ok
    requires l in SendPrepared(q.fence, y.disk, q.lane.batch.Last(), t.wrote).disk && q.lane.batch.Has(s)
    ensures q.lane.batch.At(s) == Placeholder <==> s in l.withheld
    ensures !Hazard(y, t) ==> !Exposes(l, q.lane.batch, s)
  {
    var b := q.lane.batch;
    SendPreparedKeeps(q.fence, y.disk, b.Last(), t.wrote, y.acked, y.durable);
    if NothingToWrite(q.fence) {
      assert l in y.disk && InStep(q.fence, l, y.acked);
      if Exposes(l, b, s) {
        assert Hazard(y, t);
      }
    }
  }

  /** What clearing the batch leaves alone: the ledgers' and the fence's word on everything else. */
  lemma ClearedRest(y: System, q: Process, t: Step)
    requires SystemOk(y) && Safe(y) && y.process == Some(q) && EnabledIn(y, q, t) && t.BeforeSend?
    ensures var out := SendPrepared(q.fence, y.disk, q.lane.batch.Last(), t.wrote);
            && FenceSafe(y, out.fence)
            && forall l :: l in out.disk ==> LedgerSafe(y, l)
  {
    var f := q.fence;
    var g := f.(attempted := Max(f.attempted, q.lane.batch.Last()));
    if f.recorded && f.pending.Some? {
      HandoverSettled(y, g, f.pending.value.highest);
    }
  }

  lemma BeforeSendStepSafe(y: System, q: Process, t: Step)
    requires SystemOk(y) && Safe(y) && y.process == Some(q) && EnabledIn(y, q, t) && t.BeforeSend? && !Hazard(y, t)
    ensures Safe(AfterIn(y, q, t))
  {
    var y' := AfterIn(y, q, t);
    var b := q.lane.batch;
    var out := SendPrepared(q.fence, y.disk, b.Last(), t.wrote);
    ClearedRest(y, q, t);
    if !out.ok {
      NoNewFinalsKeeps(y, y');
    } else {
      SendPreparedKeeps(q.fence, y.disk, b.Last(), t.wrote, y.acked, y.durable);
      assert forall s, p :: Final(y', s, p) <==> Final(y, s, p) || (b.Has(s) && b.At(s) == p);
      forall l | l in out.disk
        ensures LedgerSafe(y', l)
      {
        forall s | b.Has(s)
          ensures b.At(s) == Placeholder <==> s in l.withheld
          ensures !Exposes(l, b, s)
        {
          ClearedDisk(y, q, t, l, s);
        }
      }
      BatchFinalOnce(y, q);
      assert FenceSafe(y', out.fence) by { ClearedFence(y, q, t); }
      assert HeldUnsent(y', q.holders);
    }
  }

  /** A frame of the batch that is already final keeps its payload. */
  lemma BatchFinalOnce(y: System, q: Process)
    requires SystemOk(y) && Safe(y) && y.process == Some(q) && q.lane.Decided?
    ensures forall s, p :: Final(y, s, p) && q.lane.batch.Has(s) ==> q.lane.batch.At(s) == p
  {
  }

  lemma ClearedFence(y: System, q: Process, t: Step)
    requires SystemOk(y) && Safe(y) && y.process == Some(q) && EnabledIn(y, q, t) && t.BeforeSend?
    requires SendPrepared(q.fence, y.disk, q.lane.batch.Last(), t.wrote).ok
    ensures FenceSafe(AfterIn(y, q, t), SendPrepared(q.fence, y.disk, q.lane.batch.Last(), t.wrote).fence)
  {
    var y' := AfterIn(y, q, t);
    var b := q.lane.batch;
    var out := SendPrepared(q.fence, y.disk, b.Last(), t.wrote);
    ClearedRest(y, q, t);
    assert forall s, p :: Final(y', s, p) <==> Final(y, s, p) || (b.Has(s) && b.At(s) == p);
    assert Settled(y', out.fence.attempted, out.fence.origins);
  }

  // ---- starting ---------------------------------------------------------------------------------

  lemma StartStepSafe(y: System, t: Step)
    requires SystemOk(y) && Safe(y) && Enabled(y, t) && t.Start?
    ensures Safe(After(y, t))
  {
    var l := t.ledger;
    var y' := After(y, t);
    var bare := Bare(l, y.durable);
    assert FenceSafe(y, bare) && LedgerSafe(y, LedgerOf(bare));
    if l.shutdown.Some? {
      var f := Resumed(l, l.shutdown.value, y.durable);
      assert FenceSafe(y, f);
      RefreshSafe(y, f, {l}, NO_CONSENT, t.wrote);
    }
    NoNewFinalsKeeps(y, y');
  }

  /** Every step that is not a hazard keeps what is final final. */
  lemma StepSafe(y: System, t: Step)
    requires SystemOk(y) && Safe(y) && Enabled(y, t) && !Hazard(y, t)
    ensures Safe(After(y, t))
  {
    match t {
      case AppendPlain => NoNewFinalsKeeps(y, After(y, t));
      case Start(_, _, _, _) => StartStepSafe(y, t);
      case Refresh(_) => RefreshStepSafe(y, y.process.value, t);
      case Decide(_, _, _, _, _) => DecideStepSafe(y, y.process.value, t);
      case RecordAppend(_, _) => RecordStepSafe(y, y.process.value, t);
      case RecordShutdown(_, _) => ShutdownStepSafe(y, y.process.value, t);
      case BeforeSend(_) => BeforeSendStepSafe(y, y.process.value, t);
      case _ => OtherStepSafe(y, y.process.value, t);
    }
  }
}
