/** The consent fence's promises over every run, and exactly when a half-failed shutdown record breaks
    them. */
module FenceTheorems {
  import opened Common
  import opened Intervals
  import opened ConsentPolicy
  import opened FenceSpec
  import opened FenceSystem
  import opened FenceInvariant
  import opened FenceSafety

  // ---- runs -------------------------------------------------------------------------------------

  ghost predicate CanRun(y: System, ts: seq<Step>)
    decreases |ts|
  {
    ts != [] ==> Enabled(y, ts[0]) && CanRun(After(y, ts[0]), ts[1..])
  }

  ghost function Ran(y: System, ts: seq<Step>): System
    requires CanRun(y, ts)
    decreases |ts|
  {
    if ts == [] then y else Ran(After(y, ts[0]), ts[1..])
  }

  ghost predicate HazardFree(y: System, ts: seq<Step>)
    requires CanRun(y, ts)
    decreases |ts|
  {
    ts != [] ==> !Hazard(y, ts[0]) && HazardFree(After(y, ts[0]), ts[1..])
  }

  lemma {:induction false} RunKeepsInvariant(y: System, ts: seq<Step>)
    requires SystemOk(y) && CanRun(y, ts)
    ensures SystemOk(Ran(y, ts))
    decreases |ts|
  {
    if ts != [] {
      StepKeeps(y, ts[0]);
      RunKeepsInvariant(After(y, ts[0]), ts[1..]);
    }
  }

  lemma {:induction false} RunKeepsFinals(y: System, ts: seq<Step>)
    requires SystemOk(y) && Safe(y) && CanRun(y, ts) && HazardFree(y, ts)
    ensures SystemOk(Ran(y, ts)) && Safe(Ran(y, ts)) && OnePayload(Ran(y, ts))
    decreases |ts|
  {
    if ts == [] {
      assert forall s, p :: (s, p) in y.sent ==> Final(y, s, p);
    } else {
      StepKeeps(y, ts[0]);
      StepSafe(y, ts[0]);
      RunKeepsFinals(After(y, ts[0]), ts[1..]);
    }
  }

  /** One payload per sequence, over every run without a hazard: appends, policy changes, retries,
      acknowledgements, failed and half-failed writes, crashes, and starts of either kind. */
  lemma OnePayloadPerSequence(y: System, ts: seq<Step>)
    requires Init(y) && CanRun(y, ts) && HazardFree(y, ts)
    ensures OnePayload(Ran(y, ts))
  {
    RunKeepsFinals(y, ts);
  }

  /** A run is its beginning and then its last step. */
  lemma {:induction false} LastStep(y: System, ts: seq<Step>)
    requires ts != [] && CanRun(y, ts)
    ensures CanRun(y, ts[..|ts| - 1]) && Enabled(Ran(y, ts[..|ts| - 1]), ts[|ts| - 1])
    ensures Ran(y, ts) == After(Ran(y, ts[..|ts| - 1]), ts[|ts| - 1])
    decreases |ts|
  {
    var n := |ts| - 1;
    if n == 0 {
      assert ts[..0] == [] && ts[1..] == [];
    } else {
      LastStep(After(y, ts[0]), ts[1..]);
      assert ts[1..][..n - 1] == ts[..n][1..];
      assert ts[..n][0] == ts[0];
    }
  }

  // ---- the hazard is exactly what breaks it -----------------------------------------------------

  /** The owner withdrew everything. */
  const WITHDRAWN := Policy(1, false, [], "")

  lemma Prepended(y: System, t: Step, rest: seq<Step>)
    requires Enabled(y, t) && !Hazard(y, t)
    requires CanRun(After(y, t), rest) && HazardFree(After(y, t), rest)
    ensures CanRun(y, [t] + rest) && HazardFree(y, [t] + rest)
    ensures Ran(y, [t] + rest) == Ran(After(y, t), rest)
  {
    assert ([t] + rest)[1..] == rest;
  }

  lemma DecideOne(f: Fence, p: Policy, s: int)
    requires s in f.withheld
    ensures DecidedAll(f, p, Frames(s, s), {}) == Decision(f, Some([Placeholder]))
  {
    assert Frames(s, s) == [s];
    assert [s][..0] == [];
    assert DecidedAll(f, p, [], {}) == Decision(f, Some([]));
    assert [] + [Placeholder] == [Placeholder];
  }

  /** An open lane over a fence that withholds s and carries a shutdown record sends s's placeholder. */
  lemma WithheldIsSent(y: System, q: Process, s: int) returns (ts: seq<Step>)
    requires y.process == Some(q) && q.lane.Open? && y.acked < s <= q.lane.ceiling
    requires s in q.fence.withheld && q.fence.pending.Some? && AlreadyApplied(q.fence, q.latest)
    ensures CanRun(y, ts) && HazardFree(y, ts)
    ensures y.sent <= Ran(y, ts).sent && (s, Placeholder) in Ran(y, ts).sent
  {
    var b := Batch(s, [Placeholder], q.latest);
    DecideOne(q.fence, q.latest, s);
    assert [Placeholder][..1] == [Placeholder];
    var y1 := After(y, Decide(s, s, 1, {}, true));
    assert y1.process.value.lane == Decided(q.lane.ceiling, b);
    var y2 := After(y1, BeforeSend(true));
    assert y2.process.value.lane == Sending(q.lane.ceiling, b);
    var y3 := After(y2, Send);
    assert b.payloads[0] == Placeholder;
    assert (s, Placeholder) in Entries(b);
    Prepended(y2, Send, []);
    Prepended(y1, BeforeSend(true), [Send] + []);
    Prepended(y, Decide(s, s, 1, {}, true), [BeforeSend(true)] + ([Send] + []));
    ts := [Decide(s, s, 1, {}, true)] + ([BeforeSend(true)] + ([Send] + []));
  }

  /** A start that reads l withholds frame s, which l's shutdown record still names as unattempted. */
  lemma RestartWithholds(y: System, l: Ledger, s: int) returns (ts: seq<Step>)
    requires SystemOk(y) && y.process.None? && l in y.disk && y.acked < s
    requires l.shutdown.Some? && s > l.shutdown.value.attempted && s in l.shutdown.value.origins
    ensures CanRun(y, ts) && HazardFree(y, ts)
    ensures y.sent <= Ran(y, ts).sent && (s, Placeholder) in Ran(y, ts).sent
  {
    var start := Start(l, true, WITHDRAWN, true);
    var y1 := After(y, start);
    var f := Resumed(l, l.shutdown.value, y.durable);
    assert LedgerOk(l, y.durable) && s in f.origins;
    assert y1.process == Some(Process(true, WITHDRAWN, f, map[], Idle, map[]));
    var y2 := After(y1, ReadCeiling);
    assert s in Denied(f, WITHDRAWN);
    var y3 := After(y2, Refresh(true));
    var rest := WithheldIsSent(y3, y3.process.value, s);
    Prepended(y2, Refresh(true), rest);
    Prepended(y1, ReadCeiling, [Refresh(true)] + rest);
    Prepended(y, start, [ReadCeiling] + ([Refresh(true)] + rest));
    ts := [start] + ([ReadCeiling] + ([Refresh(true)] + rest));
  }

  /** A cleared batch goes out, and then the daemon stops. */
  lemma SendThenStop(y: System, s: int, rest: seq<Step>)
    requires SystemOk(y) && y.process.Some? && y.process.value.lane.Sending? && y.process.value.lane.batch.Has(s)
    requires var z := After(After(y, Send), Stop); CanRun(z, rest) && HazardFree(z, rest) && z.sent <= Ran(z, rest).sent
    ensures var ts := [Send] + ([Stop] + rest);
            && CanRun(y, ts) && HazardFree(y, ts) && Ran(y, ts) == Ran(After(After(y, Send), Stop), rest)
            && (s, y.process.value.lane.batch.At(s)) in Ran(y, ts).sent
  {
    var b := y.process.value.lane.batch;
    Prepended(After(y, Send), Stop, rest);
    Prepended(y, Send, [Stop] + rest);
    assert (b.first + (s - b.first), b.payloads[s - b.first]) in Entries(b);
  }

  /** Right after a hazard there is a run, with no further hazard, that sends one of the batch's frames
      with both payloads: the batch goes out, the daemon stops, the owner withdraws, the daemon starts. */
  lemma HazardIsFatal(y: System, t: Step) returns (ts: seq<Step>)
    requires SystemOk(y) && Enabled(y, t) && Hazard(y, t)
    ensures CanRun(After(y, t), ts) && HazardFree(After(y, t), ts)
    ensures !OnePayload(Ran(After(y, t), ts))
  {
    hide Refreshed, DecidedAll, ShutDown, AppendRecorded, Started;
    var q := y.process.value;
    var l, s :| l in y.disk && Exposes(l, q.lane.batch, s);
    var y1 := After(y, t);
    StepKeeps(y, t);
    StepKeeps(y1, Send);
    StepKeeps(After(y1, Send), Stop);
    var rest := RestartWithholds(After(After(y1, Send), Stop), l, s);
    SendThenStop(y1, s, rest);
    ts := [Send] + ([Stop] + rest);
  }

  /** Every continuation of y without a hazard sends each sequence with one payload. */
  ghost predicate StaysConsistent(y: System) {
    forall ts :: CanRun(y, ts) && HazardFree(y, ts) ==> OnePayload(Ran(y, ts))
  }

  /** The exact condition: after any hazard-free run, taking a step leaves every later hazard-free run
      consistent if and only if the step is not a hazard. */
  lemma ConsistentIffNoHazard(y0: System, ts: seq<Step>, t: Step)
    requires Init(y0) && CanRun(y0, ts) && HazardFree(y0, ts) && Enabled(Ran(y0, ts), t)
    ensures StaysConsistent(After(Ran(y0, ts), t)) <==> !Hazard(Ran(y0, ts), t)
  {
    RunKeepsFinals(y0, ts);
    var y := Ran(y0, ts);
    if Hazard(y, t) {
      var rest := HazardIsFatal(y, t);
      assert CanRun(After(y, t), rest) && HazardFree(After(y, t), rest);
    } else {
      StepKeeps(y, t);
      StepSafe(y, t);
      forall rest | CanRun(After(y, t), rest) && HazardFree(After(y, t), rest)
        ensures OnePayload(Ran(After(y, t), rest))
      {
        RunKeepsFinals(After(y, t), rest);
      }
    }
  }

  // ---- where hazards come from ------------------------------------------------------------------

  /** A shutdown record whose write reported failure, in a fence that knew of no record before: the
      disk may hold it and the fence forgets it. */
  ghost predicate ForgetsRecord(y: System, t: Step) {
    t.RecordShutdown? && !t.wrote && y.process.Some? && y.process.value.fence.pending.None?
  }

  ghost predicate RecordsKnown(y: System) {
    y.process.Some? && y.process.value.fence.pending.None? ==> forall l :: l in y.disk ==> l.shutdown.None?
  }

  ghost predicate NoForgottenRecord(y: System, ts: seq<Step>)
    requires CanRun(y, ts)
    decreases |ts|
  {
    ts != [] ==> !ForgetsRecord(y, ts[0]) && NoForgottenRecord(After(y, ts[0]), ts[1..])
  }

  lemma KnownDecides(y: System, t: Step)
    requires SystemOk(y) && RecordsKnown(y) && Enabled(y, t) && t.Decide?
    ensures RecordsKnown(After(y, t))
  {
    var q := y.process.value;
    DecidedAllMeans(Refreshed(q.fence, y.disk, q.latest, t.wrote).fence, q.latest, Frames(t.first, t.last), t.bad);
  }

  lemma KnownSends(y: System, t: Step)
    requires SystemOk(y) && RecordsKnown(y) && Enabled(y, t) && t.BeforeSend?
    ensures RecordsKnown(After(y, t)) && !Hazard(y, t)
  {
  }

  lemma KnownOthers(y: System, t: Step)
    requires SystemOk(y) && RecordsKnown(y) && Enabled(y, t) && !ForgetsRecord(y, t) && !t.Decide? && !t.BeforeSend?
    ensures RecordsKnown(After(y, t))
  {
  }

  lemma KnownStays(y: System, t: Step)
    requires SystemOk(y) && RecordsKnown(y) && Enabled(y, t) && !ForgetsRecord(y, t)
    ensures RecordsKnown(After(y, t)) && !Hazard(y, t)
  {
    if t.Decide? {
      KnownDecides(y, t);
    } else if t.BeforeSend? {
      KnownSends(y, t);
    } else {
      KnownOthers(y, t);
    }
  }

  /** Only a forgotten record makes a hazard: any run in which no first shutdown record half-fails is
      hazard-free, whatever else fails, so each sequence has one payload. */
  lemma {:induction false} KnownRecordsAreSafe(y: System, ts: seq<Step>)
    requires SystemOk(y) && RecordsKnown(y) && Safe(y) && CanRun(y, ts) && NoForgottenRecord(y, ts)
    ensures HazardFree(y, ts) && OnePayload(Ran(y, ts))
    decreases |ts|
  {
    if ts != [] {
      KnownStays(y, ts[0]);
      StepKeeps(y, ts[0]);
      StepSafe(y, ts[0]);
      KnownRecordsAreSafe(After(y, ts[0]), ts[1..]);
    } else {
      RunKeepsFinals(y, ts);
    }
  }
}
