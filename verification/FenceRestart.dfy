/** Consent across a stop and a start: what a graceful stop records still withholds after the next start,
    and how a record written early loses a frame. */
module FenceRestart {
  import opened Common
  import opened Intervals
  import opened ConsentPolicy
  import opened FenceSpec
  import opened FenceSystem
  import opened FenceInvariant
  import opened FenceSafety
  import opened FenceTheorems
  import opened FenceExample
  import opened FenceReload

  ghost predicate Knows(y: System, s: int, o: Origin) {
    y.process.Some? && s in y.process.value.fence.origins && y.process.value.fence.origins[s] == o
  }

  /** A running fence forgets an origin only once its frame is acknowledged. */
  lemma OriginStays(y: System, t: Step, s: int, o: Origin)
    requires SystemOk(y) && Enabled(y, t) && !t.Stop? && Knows(y, s, o) && s > y.acked
    ensures Knows(After(y, t), s, o)
  {
    if t.Decide? {
      var q := y.process.value;
      DecidedAllMeans(Refreshed(q.fence, y.disk, q.latest, t.wrote).fence, q.latest, Frames(t.first, t.last), t.bad);
    }
  }

  ghost predicate KeepsRunning(ts: seq<Step>) {
    forall i :: 0 <= i < |ts| ==> !ts[i].Stop?
  }

  lemma AckedGrows(y: System, t: Step)
    requires Enabled(y, t)
    ensures After(y, t).acked >= y.acked
  {
  }

  lemma {:induction false} AckedOnlyGrows(y: System, ts: seq<Step>)
    requires CanRun(y, ts)
    ensures Ran(y, ts).acked >= y.acked
    decreases |ts|
  {
    if ts != [] {
      AckedGrows(y, ts[0]);
      AckedOnlyGrows(After(y, ts[0]), ts[1..]);
    }
  }

  lemma {:induction false} OriginStaysOverRun(y: System, ts: seq<Step>, s: int, o: Origin)
    requires SystemOk(y) && CanRun(y, ts) && KeepsRunning(ts) && Knows(y, s, o) && s > Ran(y, ts).acked
    ensures SystemOk(Ran(y, ts)) && Knows(Ran(y, ts), s, o)
    decreases |ts|
  {
    if ts != [] {
      AckedGrows(y, ts[0]);
      AckedOnlyGrows(After(y, ts[0]), ts[1..]);
      StepKeeps(y, ts[0]);
      OriginStays(y, ts[0], s, o);
      OriginStaysOverRun(After(y, ts[0]), ts[1..], s, o);
    }
  }

  /** The consent frame s was captured under, as the watcher had it acknowledged or the fence has it. */
  ghost predicate CapturedUnder(y: System, s: int, o: Origin) {
    && y.process.Some?
    && var q := y.process.value;
       (s in q.acknowledged && q.acknowledged[s] == o) || (s in q.fence.origins && q.fence.origins[s] == o)
  }

  /** The record names the consent of every frame it covers, as the stopped run knew it. */
  lemma RecordNames(y: System, l: Ledger, s: int, o: Origin)
    requires SystemOk(y) && RecordsAgree(y) && l in y.disk && l.shutdown.Some?
    requires CapturedUnder(y, s, o) && s > y.acked
    requires l.shutdown.value.attempted < s <= l.shutdown.value.highest
    ensures s in l.shutdown.value.origins && l.shutdown.value.origins[s] == o
  {
    var q := y.process.value;
    assert ProcessOk(q, y.disk, y.acked, y.durable);
    assert RecordAgrees(l.shutdown.value, q, y.acked);
    assert forall i :: i in q.holders && FenceSystem.Pending(q.holders[i])
             ==> q.holders[i].frame.value in Waits(q.holders);
  }

  lemma StartKnows(y: System, start: Step, s: int, o: Origin)
    requires SystemOk(y) && Enabled(y, start) && start.Start? && After(y, start).process.Some?
    requires start.ledger.shutdown.Some?
    requires var h := start.ledger.shutdown.value; h.attempted < s && s in h.origins && h.origins[s] == o
    ensures Knows(After(y, start), s, o)
  {
    assert LedgerOk(start.ledger, y.durable);
  }

  /** Consent crosses the restart: a run that forgot no record and wrote none early stops, and a start reads
      any record the disk may hold. A frame of the stopped run that the record covers as unattempted, that
      is still unattempted when a batch is decided, and whose consent the deciding policy does not cover,
      is a placeholder in it. */
  lemma ConsentCrossesRestart(y0: System, ts: seq<Step>, start: Step, us: seq<Step>, s: int, o: Origin)
    requires Init(y0) && CanRun(y0, ts) && NoForgottenRecord(y0, ts) && NeverEarly(y0, ts)
    requires CapturedUnder(Ran(y0, ts), s, o) && Enabled(Ran(y0, ts), Stop)
    requires start.Start? && start.ledger.shutdown.Some? && Enabled(After(Ran(y0, ts), Stop), start)
    requires start.ledger.shutdown.value.attempted < s <= start.ledger.shutdown.value.highest
    requires After(After(Ran(y0, ts), Stop), start).process.Some?
    requires CanRun(After(After(Ran(y0, ts), Stop), start), us) && KeepsRunning(us)
    ensures
      var z := Ran(After(After(Ran(y0, ts), Stop), start), us);
      z.process.Some? && z.process.value.lane.Decided? && z.process.value.lane.batch.Has(s)
      && s > z.process.value.fence.attempted && !z.process.value.lane.batch.under.Allows(o.root, o.generation) ==>
        z.process.value.lane.batch.At(s) == Placeholder
  {
    hide Refreshed, DecidedAll, AppendRecorded, SendPrepared, ShutDown, Started, RecordAgrees, Attributed, LaneOk;
    RunKeepsRecords(y0, ts);
    var y := Ran(y0, ts);
    var x := After(y, Stop);
    var w := After(x, start);
    StepKeeps(y, Stop);
    StepKeeps(x, start);
    AckedOnlyGrows(w, us);
    var z := Ran(w, us);
    if z.process.Some? && z.process.value.lane.Decided? && z.process.value.lane.batch.Has(s) {
      RunKeepsInvariant(w, us);
      AboveAcked(z, s);
      RecordNames(y, start.ledger, s, o);
      StartKnows(x, start, s, o);
      OriginStaysOverRun(w, us, s, o);
      if s > z.process.value.fence.attempted && !z.process.value.lane.batch.under.Allows(o.root, o.generation) {
        KnownIsDecided(z, s, o);
      }
    }
  }

  lemma AboveAcked(z: System, s: int)
    requires SystemOk(z) && z.process.Some? && z.process.value.lane.Decided? && z.process.value.lane.batch.Has(s)
    ensures s > z.acked
  {
  }

  lemma KnownIsDecided(z: System, s: int, o: Origin)
    requires SystemOk(z) && z.process.Some? && z.process.value.lane.Decided? && z.process.value.lane.batch.Has(s)
    requires Knows(z, s, o) && s > z.process.value.fence.attempted
    requires !z.process.value.lane.batch.under.Allows(o.root, o.generation)
    ensures z.process.value.lane.batch.At(s) == Placeholder
  {
    assert Agrees(z.process.value.lane.batch, z.process.value.fence);
  }

  // ---- a record written early -------------------------------------------------------------------

  lemma Then(y: System, t: Step, rest: seq<Step>)
    requires Enabled(y, t) && CanRun(After(y, t), rest)
    ensures CanRun(y, [t] + rest) && Ran(y, [t] + rest) == Ran(After(y, t), rest)
  {
    assert ([t] + rest)[1..] == rest;
  }

  const UNNAMED := Ledger({}, Some(Handover(1, 0, map[])))

  /** The daemon is stopped: frame 1 is durable, its origin in nobody's record. */
  const STOPPED := System(1, 0, {UNNAMED}, {}, None)

  lemma StopEarly() returns (ts: seq<Step>)
    ensures Enabled(APPENDED, RecordShutdown(1, true)) && Early(APPENDED, RecordShutdown(1, true))
    ensures CanRun(APPENDED, ts) && ts != [] && ts[0] == RecordShutdown(1, true) && Ran(APPENDED, ts) == STOPPED
  {
    hide Refreshed, DecidedAll, AppendRecorded, SendPrepared, Started;
    var q := APPENDED.process.value;
    var record := RecordShutdown(1, true);
    assert FenceSystem.Pending(q.holders[0]);
    assert 1 in Waits(q.holders);
    assert Above(q.fence.origins, 0) == map[];
    assert HandoverOf(q.fence, 1) == Handover(1, 0, map[]);
    var y := After(APPENDED, record);
    assert y.disk == {UNNAMED};
    assert After(y, Stop) == STOPPED;
    Then(y, Stop, []);
    Then(APPENDED, record, [Stop] + []);
    ts := [record] + ([Stop] + []);
  }

  const UNAWARE := Fence(0, {}, map[], None, false, Some(Handover(1, 0, map[])), false)

  const STARTED := System(1, 0, {UNNAMED}, {}, Some(Process(true, WITHDRAWN, UNAWARE, map[], Open(1), map[])))

  lemma StartWithdrawn() returns (ts: seq<Step>)
    ensures CanRun(STOPPED, ts) && Ran(STOPPED, ts) == STARTED
  {
    var start := Start(UNNAMED, true, WITHDRAWN, true);
    var y := After(STOPPED, start);
    assert Resumed(UNNAMED, UNNAMED.shutdown.value, 1) == UNAWARE;
    assert y == STARTED.(process := Some(STARTED.process.value.(lane := Idle)));
    assert After(y, ReadCeiling) == STARTED;
    Then(y, ReadCeiling, []);
    Then(STOPPED, start, [ReadCeiling] + []);
    ts := [start] + ([ReadCeiling] + []);
  }

  lemma NothingDenied()
    ensures Refreshed(UNAWARE, {UNNAMED}, WITHDRAWN, true)
         == Outcome(UNAWARE.(applied := Some(WITHDRAWN)), {UNNAMED}, true)
    ensures DecidedAll(UNAWARE.(applied := Some(WITHDRAWN)), WITHDRAWN, Frames(1, 1), {})
         == Decision(UNAWARE.(applied := Some(WITHDRAWN)), Some([AsCaptured]))
  {
    var f := UNAWARE.(applied := Some(WITHDRAWN));
    assert Denied(UNAWARE, WITHDRAWN) == {};
    assert UNAWARE.withheld + {} == {};
    assert Frames(1, 1) == [1] && [1][..0] == [];
    assert DecidedAll(f, WITHDRAWN, [], {}) == Decision(f, Some([]));
    assert [] + [AsCaptured] == [AsCaptured];
  }

  lemma SendWithdrawn() returns (ts: seq<Step>)
    ensures CanRun(STARTED, ts) && (1, AsCaptured) in Ran(STARTED, ts).sent
    ensures Ran(STARTED, ts).process.Some? && Ran(STARTED, ts).process.value.latest == WITHDRAWN
  {
    NothingDenied();
    var decide := Decide(1, 1, 1, {}, true);
    var b := Batch(1, [AsCaptured], WITHDRAWN);
    assert [AsCaptured][..1] == [AsCaptured];
    var y1 := After(STARTED, decide);
    assert y1.process.value.lane == Decided(1, b);
    var y2 := After(y1, BeforeSend(true));
    assert y2.process.value.lane == Sending(1, b);
    assert b.payloads[0] == AsCaptured;
    assert (1, AsCaptured) in Entries(b);
    Then(y2, Send, []);
    Then(y1, BeforeSend(true), [Send] + []);
    Then(STARTED, decide, [BeforeSend(true)] + ([Send] + []));
    ts := [decide] + ([BeforeSend(true)] + ([Send] + []));
  }

  lemma {:induction false} RunsOn(y: System, ts: seq<Step>, us: seq<Step>)
    requires CanRun(y, ts) && CanRun(Ran(y, ts), us)
    ensures CanRun(y, ts + us) && Ran(y, ts + us) == Ran(Ran(y, ts), us)
    decreases |ts|
  {
    if ts == [] {
      assert ts + us == us;
    } else {
      RunsOn(After(y, ts[0]), ts[1..], us);
      assert (ts + us)[1..] == ts[1..] + us;
    }
  }

  /** That a shutdown record attributes what it covers is false of the daemon as it stands: a run whose stop
      writes the record while one append waits to be attributed, and whose next start sends that frame as
      captured although the policy it runs under consents to nothing. */
  lemma EarlyRecordSendsWithdrawn() returns (ts: seq<Step>, k: nat)
    ensures Init(FRESH) && CanRun(FRESH, ts) && k < |ts| && CanRun(FRESH, ts[..k])
    ensures Enabled(Ran(FRESH, ts[..k]), ts[k]) && Early(Ran(FRESH, ts[..k]), ts[k])
    ensures CapturedUnder(Ran(FRESH, ts[..k]), 1, ROOT)
    ensures
      var z := Ran(FRESH, ts);
      && z.process.Some? && !z.process.value.latest.Allows(ROOT.root, ROOT.generation) && (1, AsCaptured) in z.sent
      && (1, AsCaptured) !in Ran(FRESH, ts[..k]).sent
  {
    var a := AppendOne();
    var b := StopEarly();
    var c := StartWithdrawn();
    var d := SendWithdrawn();
    RunsOn(FRESH, a, b);
    RunsOn(FRESH, a + b, c);
    RunsOn(FRESH, a + b + c, d);
    ts, k := a + b + c + d, |a|;
    assert ts[..k] == a && ts[k] == b[0];
  }
}
