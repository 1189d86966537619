/** What reading a shutdown record back restores: right after a fence wrote it, and for every record the
    disk may hold at any point of a run. */
module FenceReload {
  import opened Common
  import opened Intervals
  import opened ConsentPolicy
  import opened FenceSpec
  import opened FenceSystem
  import opened FenceInvariant
  import opened FenceSafety
  import opened FenceTheorems

  /** A start that reads l over a log of durable frames has the mark of g, its withheld set and every origin
      g has above its mark. */
  ghost predicate Restores(l: Ledger, g: Fence, durable: int) {
    var out := Started(l, durable, true, true);
    && out == Started(l, durable, true, false)
    && out.ok && out.disk == {l}
    && out.fence.attempted == g.attempted
    && out.fence.withheld == g.withheld
    && out.fence.origins == Above(g.origins, g.attempted)
    && out.fence.pending == l.shutdown
  }

  lemma RecordRestores(g: Fence, highest: int, durable: int)
    requires FenceOk(g.(pending := None, recorded := false), durable) && highest <= durable
    ensures Restores(Ledger(g.withheld, Some(HandoverOf(g, highest))), g, durable)
  {
    var h := HandoverOf(g, highest);
    assert !Outgrown(h, durable);
    var r := Resumed(Ledger(g.withheld, Some(h)), h, durable);
    assert r.withheld == g.withheld;
    assert r.origins == Above(g.origins, g.attempted);
  }

  /** The record a graceful shutdown writes, whether or not its write is reported to have worked. */
  lemma HandoverRestores(f: Fence, disk: set<Ledger>, highest: int, wrote: bool, durable: int)
    requires FenceOk(f, durable) && highest <= durable
    ensures forall l :: l in ShutDown(f, disk, highest, wrote).disk ==> (!wrote && l in disk) || Restores(l, f, durable)
  {
    RecordRestores(f, highest, durable);
  }

  /** The record a send of the final drain rewrites: with the mark the send moves. */
  lemma SendRecordRestores(f: Fence, disk: set<Ledger>, last: int, wrote: bool, durable: int)
    requires FenceOk(f, durable) && f.recorded && last <= durable
    ensures forall l :: l in SendPrepared(f, disk, last, wrote).disk ==>
              (!wrote && l in disk) || Restores(l, f.(attempted := Max(f.attempted, last)), durable)
  {
    RecordRestores(f.(attempted := Max(f.attempted, last)), f.pending.value.highest, durable);
  }

  /** A step that writes this run's shutdown record. */
  ghost predicate WritesRecord(y: System, t: Step)
    requires Enabled(y, t)
  {
    t.RecordShutdown? || (t.BeforeSend? && y.process.value.fence.recorded)
  }

  /** Over every run: right after a record is written, by the shutdown or by a send of the drain, reading
      back whatever the disk holds restores the fence as it then is. */
  lemma WrittenRecordRestores(y0: System, ts: seq<Step>, t: Step, l: Ledger)
    requires Init(y0) && CanRun(y0, ts) && Enabled(Ran(y0, ts), t) && WritesRecord(Ran(y0, ts), t) && t.wrote
    requires l in After(Ran(y0, ts), t).disk
    ensures Restores(l, After(Ran(y0, ts), t).process.value.fence, After(Ran(y0, ts), t).durable)
  {
    RunKeepsInvariant(y0, ts);
    var y := Ran(y0, ts);
    var f := y.process.value.fence;
    assert ProcessOk(y.process.value, y.disk, y.acked, y.durable);
    if t.RecordShutdown? {
      HandoverRestores(f, y.disk, t.highest, true, y.durable);
    } else {
      SendRecordRestores(f, y.disk, y.process.value.lane.batch.Last(), true, y.durable);
    }
  }

  // ---- every record on the disk -----------------------------------------------------------------

  /** As far as frames the collector may still ask for go, the record h has exactly the origins the fence
      has above h's mark and up to h's end. */
  ghost predicate SameOrigins(h: Handover, f: Fence, acked: int) {
    && (forall s :: s in h.origins && s > acked ==> s in f.origins && f.origins[s] == h.origins[s])
    && (forall s :: s in f.origins && h.attempted < s <= h.highest && s > acked ==> s in h.origins)
  }

  /** The frames whose append still waits to be attributed. */
  ghost function Waits(holders: map<nat, Holder>): set<int> {
    set i | i in holders && FenceSystem.Pending(holders[i]) :: holders[i].frame.value
  }

  ghost predicate RecordAgrees(h: Handover, q: Process, acked: int) {
    && SameOrigins(h, q.fence, acked)
    && h.attempted >= q.fence.attempted
    && forall s :: s in Waits(q.holders) ==> s > h.highest
  }

  ghost predicate FromMark(l: Ledger) {
    l.shutdown.Some? ==> forall s :: s in l.shutdown.value.origins ==> s > l.shutdown.value.attempted
  }

  ghost predicate RecordsAgree(y: System) {
    && (forall l :: l in y.disk ==> FromMark(l))
    && (y.process.Some? ==>
          var q := y.process.value;
          && (forall l :: l in y.disk && l.shutdown.Some? ==> RecordAgrees(l.shutdown.value, q, y.acked))
          && (q.fence.pending.Some? ==>
                && RecordAgrees(q.fence.pending.value, q, y.acked)
                && q.fence.pending.value.attempted == q.fence.attempted
                && FromMark(LedgerOf(q.fence))))
  }

  /** The record the step writes, or would write. */
  ghost function RecordOf(y: System, t: Step): Handover
    requires Enabled(y, t) && WritesRecord(y, t)
  {
    var f := y.process.value.fence;
    if t.RecordShutdown? then HandoverOf(f, t.highest)
    else
      HandoverOf(f.(attempted := Max(f.attempted, y.process.value.lane.batch.Last())),
                 if f.pending.Some? then f.pending.value.highest else 0)
  }

  /** A record is written past a frame whose append still waits to be attributed: the record covers the
      frame and does not say under what consent it was captured. */
  ghost predicate Early(y: System, t: Step)
    requires Enabled(y, t)
  {
    && WritesRecord(y, t)
    && exists s :: s in Waits(y.process.value.holders) && s <= RecordOf(y, t).highest
  }

  /** y' is y with at most its record written again, and what the fence forgot acknowledged. */
  ghost predicate SameRecord(y: System, y': System) {
    && y.process.Some? && y'.process.Some? && y.acked <= y'.acked
    && (forall l :: l in y'.disk ==> l in y.disk || l.shutdown == y.process.value.fence.pending)
    && y'.process.value.fence.pending == y.process.value.fence.pending
    && y'.process.value.fence.attempted == y.process.value.fence.attempted
  }

  /** Attributing frames that waited, and forgetting acknowledged ones, is all that moves the origins; what
      waits now waited before or is new in the log. */
  ghost predicate OnlyAttributes(y: System, q: Process, q': Process, acked: int) {
    && (forall s :: s in q'.fence.origins && s > acked ==>
          s in Waits(q.holders) || (s in q.fence.origins && q'.fence.origins[s] == q.fence.origins[s]))
    && (forall s :: s in q.fence.origins && s > acked ==>
          s in q'.fence.origins && q'.fence.origins[s] == q.fence.origins[s])
    && (forall s :: s in Waits(q'.holders) ==> s in Waits(q.holders) || s > y.durable)
  }

  lemma StaysInAgreement(h: Handover, y: System, y': System)
    requires SameRecord(y, y') && OnlyAttributes(y, y.process.value, y'.process.value, y'.acked)
    requires RecordAgrees(h, y.process.value, y.acked) && h.highest <= y.durable
    ensures RecordAgrees(h, y'.process.value, y'.acked)
  {
  }

  lemma AllStayInAgreement(y: System, y': System)
    requires SystemOk(y) && RecordsAgree(y)
    requires SameRecord(y, y') && OnlyAttributes(y, y.process.value, y'.process.value, y'.acked)
    ensures RecordsAgree(y')
  {
    var q := y.process.value;
    assert FenceOk(q.fence, y.durable);
    if q.fence.pending.Some? {
      StaysInAgreement(q.fence.pending.value, y, y');
    }
    forall l | l in y'.disk && l.shutdown.Some?
      ensures FromMark(l) && RecordAgrees(l.shutdown.value, y'.process.value, y'.acked)
    {
      if l in y.disk {
        assert LedgerOk(l, y.durable);
        StaysInAgreement(l.shutdown.value, y, y');
      }
    }
  }

  lemma DecideKeepsRecords(y: System, t: Step)
    requires SystemOk(y) && RecordsAgree(y) && Enabled(y, t) && t.Decide?
    ensures RecordsAgree(After(y, t))
  {
    var q := y.process.value;
    DecidedAllMeans(Refreshed(q.fence, y.disk, q.latest, t.wrote).fence, q.latest, Frames(t.first, t.last), t.bad);
    AllStayInAgreement(y, After(y, t));
  }

  lemma RecordAppendKeepsRecords(y: System, t: Step)
    requires SystemOk(y) && RecordsAgree(y) && Enabled(y, t) && t.RecordAppend?
    ensures RecordsAgree(After(y, t))
  {
    var q := y.process.value;
    assert FenceSystem.Pending(q.holders[t.id]);
    assert q.holders[t.id].frame.value in Waits(q.holders);
    AllStayInAgreement(y, After(y, t));
  }

  lemma AppendKeepsRecords(y: System, t: Step)
    requires SystemOk(y) && RecordsAgree(y) && Enabled(y, t) && t.Append?
    ensures RecordsAgree(After(y, t))
  {
    AllStayInAgreement(y, After(y, t));
  }

  lemma SendKeepsRecords(y: System, t: Step)
    requires SystemOk(y) && RecordsKnown(y) && RecordsAgree(y) && Enabled(y, t) && t.BeforeSend? && !Early(y, t)
    ensures RecordsAgree(After(y, t))
  {
    hide Refreshed, DecidedAll, AppendRecorded, ShutDown, Started;
    assert ProcessOk(y.process.value, y.disk, y.acked, y.durable);
  }

  lemma ShutdownKeepsRecords(y: System, t: Step)
    requires SystemOk(y) && RecordsAgree(y) && Enabled(y, t) && t.RecordShutdown? && !Early(y, t)
    ensures RecordsAgree(After(y, t))
  {
    assert ProcessOk(y.process.value, y.disk, y.acked, y.durable);
  }

  lemma StartKeepsRecords(y: System, t: Step)
    requires SystemOk(y) && RecordsAgree(y) && Enabled(y, t) && t.Start?
    ensures RecordsAgree(After(y, t))
  {
    assert LedgerOk(t.ledger, y.durable) && FromMark(t.ledger);
  }

  lemma GateKeepsRecords(y: System, t: Step)
    requires SystemOk(y) && RecordsAgree(y) && Enabled(y, t) && (t.Admit? || t.Release? || t.Forget? || t.Refresh?)
    ensures RecordsAgree(After(y, t))
  {
    AllStayInAgreement(y, After(y, t));
  }

  lemma LaneKeepsRecords(y: System, t: Step)
    requires SystemOk(y) && RecordsAgree(y) && Enabled(y, t)
    requires t.Publish? || t.ReadCeiling? || t.Send? || t.Acknowledge? || t.LaneStops?
    ensures RecordsAgree(After(y, t))
  {
    AllStayInAgreement(y, After(y, t));
  }

  lemma OthersKeepRecords(y: System, t: Step)
    requires SystemOk(y) && RecordsAgree(y) && Enabled(y, t) && (t.AppendPlain? || t.Stop?)
    ensures RecordsAgree(After(y, t))
  {
  }

  lemma ProcessStepKeepsRecords(y: System, t: Step)
    requires SystemOk(y) && RecordsAgree(y) && Enabled(y, t)
    requires !t.BeforeSend? && !t.RecordShutdown? && !t.Start? && !t.AppendPlain? && !t.Stop?
    ensures RecordsAgree(After(y, t))
  {
    if t.Decide? {
      DecideKeepsRecords(y, t);
    } else if t.RecordAppend? {
      RecordAppendKeepsRecords(y, t);
    } else if t.Append? {
      AppendKeepsRecords(y, t);
    } else if t.Admit? || t.Release? || t.Forget? || t.Refresh? {
      GateKeepsRecords(y, t);
    } else {
      LaneKeepsRecords(y, t);
    }
  }

  lemma StepKeepsRecords(y: System, t: Step)
    requires SystemOk(y) && RecordsKnown(y) && RecordsAgree(y) && Enabled(y, t) && !Early(y, t)
    ensures RecordsAgree(After(y, t))
  {
    if t.BeforeSend? {
      SendKeepsRecords(y, t);
    } else if t.RecordShutdown? {
      ShutdownKeepsRecords(y, t);
    } else if t.Start? {
      StartKeepsRecords(y, t);
    } else if t.AppendPlain? || t.Stop? {
      OthersKeepRecords(y, t);
    } else {
      ProcessStepKeepsRecords(y, t);
    }
  }

  ghost predicate NeverEarly(y: System, ts: seq<Step>)
    requires CanRun(y, ts)
    decreases |ts|
  {
    ts != [] ==> !Early(y, ts[0]) && NeverEarly(After(y, ts[0]), ts[1..])
  }

  lemma {:induction false} RunKeepsRecords(y: System, ts: seq<Step>)
    requires SystemOk(y) && RecordsKnown(y) && RecordsAgree(y) && CanRun(y, ts)
    requires NoForgottenRecord(y, ts) && NeverEarly(y, ts)
    ensures SystemOk(Ran(y, ts)) && RecordsKnown(Ran(y, ts)) && RecordsAgree(Ran(y, ts))
    decreases |ts|
  {
    if ts != [] {
      KnownStays(y, ts[0]);
      StepKeeps(y, ts[0]);
      StepKeepsRecords(y, ts[0]);
      RunKeepsRecords(After(y, ts[0]), ts[1..]);
    }
  }

  /** A start that reads l over the log as it is agrees with the running fence about every frame that can
      still be asked for. Its mark is the fence's or later (equal once the disk holds what the fence last
      wrote), its origins above the mark are exactly the fence's up to the record's end, and it withholds
      what the fence withholds, or less only while the fence knows it has something to write. */
  ghost predicate ReloadAgrees(y: System, l: Ledger)
    requires y.process.Some? && l.shutdown.Some?
  {
    var f, h, out := y.process.value.fence, l.shutdown.value, Started(l, y.durable, true, true);
    var g := out.fence;
    && out.ok && g.attempted == h.attempted >= f.attempted
    && (y.disk == {LedgerOf(f)} ==> g.attempted == f.attempted && g.withheld == f.withheld)
    && (forall s :: s > y.acked ==> (s in g.origins <==> s in f.origins && g.attempted < s <= h.highest))
    && (forall s :: s > y.acked && s in g.origins ==> g.origins[s] == f.origins[s])
    && (forall s :: s > y.acked && s in g.withheld ==> s in f.withheld)
    && (!f.dirty ==> forall s :: s > y.acked && s in f.withheld ==> s in g.withheld)
  }

  ghost predicate ReloadsAgree(y: System) {
    y.process.Some? ==> forall l :: l in y.disk && l.shutdown.Some? ==> ReloadAgrees(y, l)
  }

  lemma AgreementReloads(y: System)
    requires SystemOk(y) && RecordsAgree(y)
    ensures ReloadsAgree(y)
  {
    if y.process.Some? {
      forall l | l in y.disk && l.shutdown.Some? ensures ReloadAgrees(y, l) {
        assert ProcessOk(y.process.value, y.disk, y.acked, y.durable);
        assert LedgerOk(l, y.durable) && InStep(y.process.value.fence, l, y.acked) && FromMark(l);
        assert RecordAgrees(l.shutdown.value, y.process.value, y.acked);
      }
    }
  }

  /** Every record on the disk, at any point of a run from a fresh state directory that forgets no record
      and writes none early, however many writes failed, reads back in agreement with the running fence. */
  lemma EveryRecordReloads(y0: System, ts: seq<Step>)
    requires Init(y0) && CanRun(y0, ts) && NoForgottenRecord(y0, ts) && NeverEarly(y0, ts)
    ensures ReloadsAgree(Ran(y0, ts))
  {
    RunKeepsRecords(y0, ts);
    AgreementReloads(Ran(y0, ts));
  }

  // ---- writing early is exactly what breaks it --------------------------------------------------

  /** What waits to be attributed was never attempted. */
  ghost predicate WaitingUnattempted(y: System) {
    y.process.Some? ==>
      forall s :: s in Waits(y.process.value.holders) ==> s > y.process.value.fence.attempted
  }

  lemma GateKeepsUnattempted(y: System, t: Step)
    requires SystemOk(y) && WaitingUnattempted(y) && Enabled(y, t) && y.process.Some? && !t.BeforeSend? && !t.Stop?
    ensures WaitingUnattempted(After(y, t))
  {
    var q := y.process.value;
    assert FenceOk(q.fence, y.durable);
    if t.Decide? {
      DecidedAllMeans(Refreshed(q.fence, y.disk, q.latest, t.wrote).fence, q.latest, Frames(t.first, t.last), t.bad);
    }
    var q' := After(y, t).process.value;
    assert q'.fence.attempted == q.fence.attempted;
    forall s | s in Waits(q'.holders) ensures s > q'.fence.attempted {
      assert s in Waits(q.holders) || s == y.durable + 1;
    }
  }

  lemma StepKeepsUnattempted(y: System, t: Step)
    requires SystemOk(y) && WaitingUnattempted(y) && Enabled(y, t)
    ensures WaitingUnattempted(After(y, t))
  {
    if t.BeforeSend? {
      var q := y.process.value;
      assert ProcessOk(q, y.disk, y.acked, y.durable);
      assert forall s :: s in Waits(q.holders) ==> Waiting(s, q.fence, CeilingOf(q.lane, y.acked), y.durable);
    } else if y.process.Some? && !t.Stop? {
      GateKeepsUnattempted(y, t);
    }
  }

  lemma {:induction false} RunKeepsUnattempted(y: System, ts: seq<Step>)
    requires SystemOk(y) && WaitingUnattempted(y) && CanRun(y, ts)
    ensures SystemOk(Ran(y, ts)) && WaitingUnattempted(Ran(y, ts))
    decreases |ts|
  {
    if ts != [] {
      StepKeeps(y, ts[0]);
      StepKeepsUnattempted(y, ts[0]);
      RunKeepsUnattempted(After(y, ts[0]), ts[1..]);
    }
  }

  /** l's record reaches past the frame holder id still waits to attribute, and does not name its origin. */
  ghost predicate Misses(y: System, l: Ledger, id: nat) {
    && y.process.Some? && l in y.disk && l.shutdown.Some? && LedgerOk(l, y.durable)
    && var q, h := y.process.value, l.shutdown.value;
       && id in q.holders && FenceSystem.Pending(q.holders[id])
       && var s := q.holders[id].frame.value;
          h.attempted < s <= h.highest && s !in h.origins && s !in q.fence.origins && s > y.acked
  }

  lemma EarlyShutdownMisses(y: System, t: Step, id: nat)
    requires SystemOk(y) && WaitingUnattempted(y) && Enabled(y, t) && t.RecordShutdown? && SystemOk(After(y, t))
    requires id in y.process.value.holders && FenceSystem.Pending(y.process.value.holders[id])
    requires y.process.value.holders[id].frame.value in Waits(y.process.value.holders)
    requires y.process.value.holders[id].frame.value <= RecordOf(y, t).highest
    ensures Misses(After(y, t), Ledger(y.process.value.fence.withheld, Some(RecordOf(y, t))), id)
  {
    hide Refreshed, DecidedAll, AppendRecorded, SendPrepared, Started;
    var q := y.process.value;
    assert ProcessOk(q, y.disk, y.acked, y.durable);
    assert Waiting(q.holders[id].frame.value, q.fence, CeilingOf(q.lane, y.acked), y.durable);
    assert Ledger(q.fence.withheld, Some(RecordOf(y, t))) in After(y, t).disk;
  }

  lemma EarlySendMisses(y: System, t: Step, id: nat)
    requires SystemOk(y) && WaitingUnattempted(y) && Enabled(y, t) && t.BeforeSend? && SystemOk(After(y, t))
    requires y.process.value.fence.recorded
    requires id in y.process.value.holders && FenceSystem.Pending(y.process.value.holders[id])
    requires y.process.value.holders[id].frame.value in Waits(y.process.value.holders)
    requires y.process.value.holders[id].frame.value <= RecordOf(y, t).highest
    ensures Misses(After(y, t), Ledger(y.process.value.fence.withheld, Some(RecordOf(y, t))), id)
  {
    hide Refreshed, DecidedAll, AppendRecorded, ShutDown, Started;
    var q := y.process.value;
    assert ProcessOk(q, y.disk, y.acked, y.durable);
    assert Waiting(q.holders[id].frame.value, q.fence, CeilingOf(q.lane, y.acked), y.durable);
    assert Ledger(q.fence.withheld, Some(RecordOf(y, t))) in After(y, t).disk;
  }

  lemma EarlyMisses(y: System, t: Step) returns (id: nat)
    requires SystemOk(y) && WaitingUnattempted(y) && Enabled(y, t) && Early(y, t)
    ensures Misses(After(y, t), Ledger(y.process.value.fence.withheld, Some(RecordOf(y, t))), id)
  {
    hide After, Misses;
    var q := y.process.value;
    var s :| s in Waits(q.holders) && s <= RecordOf(y, t).highest;
    id :| id in q.holders && FenceSystem.Pending(q.holders[id]) && q.holders[id].frame.value == s;
    StepKeeps(y, t);
    if t.RecordShutdown? {
      EarlyShutdownMisses(y, t, id);
    } else {
      EarlySendMisses(y, t, id);
    }
  }

  /** Attributing the frame is then enough: the fence has an origin a start would not. */
  lemma AttributionContradicts(y: System, l: Ledger, id: nat)
    requires Misses(y, l, id)
    ensures Enabled(y, RecordAppend(id, false)) && !ReloadsAgree(After(y, RecordAppend(id, false)))
  {
    var z := After(y, RecordAppend(id, false));
    var s := y.process.value.holders[id].frame.value;
    assert l in z.disk && s in z.process.value.fence.origins;
    assert s !in Started(l, z.durable, true, true).fence.origins;
    assert !ReloadAgrees(z, l);
  }

  /** Every continuation of y that forgets no record and writes none early reads back in agreement. */
  ghost predicate StaysReloadable(y: System) {
    forall ts :: CanRun(y, ts) && NoForgottenRecord(y, ts) && NeverEarly(y, ts) ==> ReloadsAgree(Ran(y, ts))
  }

  /** The exact condition: after any run that forgot no record and wrote none early, a step that forgets none
      leaves every later such run in agreement, at every record on the disk, if and only if it is not early. */
  lemma ReloadableIffNotEarly(y0: System, ts: seq<Step>, t: Step)
    requires Init(y0) && CanRun(y0, ts) && NoForgottenRecord(y0, ts) && NeverEarly(y0, ts)
    requires Enabled(Ran(y0, ts), t) && !ForgetsRecord(Ran(y0, ts), t)
    ensures StaysReloadable(After(Ran(y0, ts), t)) <==> !Early(Ran(y0, ts), t)
  {
    RunKeepsRecords(y0, ts);
    RunKeepsUnattempted(y0, ts);
    if Early(Ran(y0, ts), t) {
      EarlyIsNotReloadable(Ran(y0, ts), t);
    } else {
      NotEarlyIsReloadable(Ran(y0, ts), t);
    }
  }

  lemma EarlyIsNotReloadable(y: System, t: Step)
    requires SystemOk(y) && WaitingUnattempted(y) && Enabled(y, t) && Early(y, t)
    ensures !StaysReloadable(After(y, t))
  {
    var id := EarlyMisses(y, t);
    AttributionContradicts(After(y, t), Ledger(y.process.value.fence.withheld, Some(RecordOf(y, t))), id);
    OneStepRun(After(y, t), RecordAppend(id, false));
  }

  lemma NotEarlyIsReloadable(y: System, t: Step)
    requires SystemOk(y) && RecordsKnown(y) && RecordsAgree(y)
    requires Enabled(y, t) && !Early(y, t) && !ForgetsRecord(y, t)
    ensures StaysReloadable(After(y, t))
  {
    KnownStays(y, t);
    StepKeeps(y, t);
    StepKeepsRecords(y, t);
    AgreementStaysReloadable(After(y, t));
  }

  lemma AgreementStaysReloadable(y: System)
    requires SystemOk(y) && RecordsKnown(y) && RecordsAgree(y)
    ensures StaysReloadable(y)
  {
    forall ts | CanRun(y, ts) && NoForgottenRecord(y, ts) && NeverEarly(y, ts) ensures ReloadsAgree(Ran(y, ts)) {
      RunKeepsRecords(y, ts);
      AgreementReloads(Ran(y, ts));
    }
  }

  lemma OneStepRun(y: System, u: Step)
    requires Enabled(y, u) && u.RecordAppend?
    ensures CanRun(y, [u]) && NoForgottenRecord(y, [u]) && NeverEarly(y, [u]) && Ran(y, [u]) == After(y, u)
  {
    assert [u][1..] == [];
  }
}
