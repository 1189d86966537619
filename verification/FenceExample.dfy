/** A concrete run in which the shutdown record's rename lands, its directory flush fails, and the final
    upload drain then sends a captured frame the record on disk still calls unattempted. */
module FenceExample {
  import opened Common
  import opened Intervals
  import opened ConsentPolicy
  import opened FenceSpec
  import opened FenceSystem
  import opened FenceInvariant
  import opened FenceSafety
  import opened FenceTheorems

  const ROOT := Origin("/transcripts", 1)

  const GRANTED := Policy(1, false, [Record("/transcripts", 1, true, "backfill")], "")

  const FRESH := System(0, 0, {NO_LEDGER}, {}, None)

  /** The daemon after one consented append whose origin is recorded, still before any send. */
  function OneCaptured(lane: Lane): Process {
    Process(true, GRANTED, Fence(0, {}, map[1 := ROOT], None, false, None, false), map[], lane, map[1 := ROOT])
  }

  const RECORD := Handover(1, 0, map[1 := ROOT])

  const HELD := Holder(ROOT, Some(1), false)

  /** The daemon with its one append durable and acknowledged, its origin not yet recorded. */
  const APPENDED := System(1, 0, {NO_LEDGER}, {},
                           Some(Process(true, GRANTED, Fence(0, {}, map[], None, false, None, false), map[0 := HELD],
                                        Idle,
                                        map[1 := ROOT])))

  const CAPTURED := System(1, 0, {NO_LEDGER}, {}, Some(OneCaptured(Idle)))

  lemma AppendOne() returns (ts: seq<Step>)
    ensures CanRun(FRESH, ts) && HazardFree(FRESH, ts) && Ran(FRESH, ts) == APPENDED
  {
    assert AllowedBy(ROOT, GRANTED);
    var start := Start(NO_LEDGER, true, GRANTED, true);
    var f := Fence(0, {}, map[], None, false, None, false);
    assert Bare(NO_LEDGER, 0).withheld == {};
    var y1 := After(FRESH, start);
    assert y1 == System(0, 0, {NO_LEDGER}, {}, Some(Process(true, GRANTED, f, map[], Idle, map[])));
    var y2 := After(y1, Admit(0, ROOT));
    var held := Holder(ROOT, None, false);
    assert map[][0 := held] == map[0 := held];
    assert y2 == System(0, 0, {NO_LEDGER}, {}, Some(Process(true, GRANTED, f, map[0 := held], Idle, map[])));
    assert map[0 := held][0 := HELD] == map[0 := HELD];
    assert After(y2, Append(0)) == APPENDED;
    Prepended(y2, Append(0), []);
    Prepended(y1, Admit(0, ROOT), [Append(0)] + []);
    Prepended(FRESH, start, [Admit(0, ROOT)] + ([Append(0)] + []));
    ts := [start] + ([Admit(0, ROOT)] + ([Append(0)] + []));
  }

  lemma RecordOne() returns (ts: seq<Step>)
    ensures CanRun(APPENDED, ts) && HazardFree(APPENDED, ts) && Ran(APPENDED, ts) == CAPTURED
  {
    assert AllowedBy(ROOT, GRANTED);
    var record := RecordAppend(0, true);
    var done := HELD.(recorded := true);
    assert map[0 := HELD][0 := done] == map[0 := done];
    var y := After(APPENDED, record);
    assert y == CAPTURED.(process := Some(OneCaptured(Idle).(holders := map[0 := done])));
    assert map[0 := done] - {0} == map[];
    assert After(y, Release(0)) == CAPTURED;
    Prepended(y, Release(0), []);
    Prepended(APPENDED, record, [Release(0)] + []);
    ts := [record] + ([Release(0)] + []);
  }

  const HALF_WRITTEN := CAPTURED.(disk := {NO_LEDGER, Ledger({}, Some(RECORD))}, process := Some(OneCaptured(Open(1))))

  lemma HalfWriteRecord() returns (ts: seq<Step>)
    ensures CanRun(CAPTURED, ts) && HazardFree(CAPTURED, ts) && Ran(CAPTURED, ts) == HALF_WRITTEN
  {
    var half := RecordShutdown(1, false);
    var f := OneCaptured(Idle).fence;
    assert Above(f.origins, 0) == map[1 := ROOT] && HandoverOf(f, 1) == RECORD;
    var y := After(CAPTURED, half);
    assert y == CAPTURED.(disk := {NO_LEDGER, Ledger({}, Some(RECORD))});
    assert After(y, ReadCeiling) == HALF_WRITTEN;
    Prepended(y, ReadCeiling, []);
    Prepended(CAPTURED, half, [ReadCeiling] + []);
    ts := [half] + ([ReadCeiling] + []);
  }

  lemma DrainDecides() returns (ts: seq<Step>)
    ensures CanRun(HALF_WRITTEN, ts) && HazardFree(HALF_WRITTEN, ts)
    ensures Enabled(Ran(HALF_WRITTEN, ts), BeforeSend(true)) && Hazard(Ran(HALF_WRITTEN, ts), BeforeSend(true))
  {
    var decide := Decide(1, 1, 1, {}, true);
    var y := After(HALF_WRITTEN, decide);
    CapturedAlone(OneCaptured(Idle).fence);
    var b := Batch(1, [AsCaptured], GRANTED);
    assert [AsCaptured][..1] == [AsCaptured];
    assert y.process.value.lane == Decided(1, b) && y.disk == HALF_WRITTEN.disk;
    assert NothingToWrite(y.process.value.fence);
    assert Exposes(Ledger({}, Some(RECORD)), b, 1);
    Prepended(HALF_WRITTEN, decide, []);
    ts := [decide] + [];
  }

  lemma CapturedAlone(f: Fence)
    requires f == OneCaptured(Idle).fence
    ensures Refreshed(f, {NO_LEDGER, Ledger({}, Some(RECORD))}, GRANTED, true)
         == Outcome(f.(applied := Some(GRANTED)), {NO_LEDGER, Ledger({}, Some(RECORD))}, true)
    ensures DecidedAll(f.(applied := Some(GRANTED)), GRANTED, Frames(1, 1), {})
         == Decision(f.(applied := Some(GRANTED)), Some([AsCaptured]))
  {
    assert AllowedBy(ROOT, GRANTED);
    assert Denied(f, GRANTED) == {};
    assert f.withheld + {} == f.withheld;
    assert Frames(1, 1) == [1];
    assert [1][..0] == [];
    var g := f.(applied := Some(GRANTED));
    assert DecidedAll(g, GRANTED, [], {}) == Decision(g, Some([]));
    assert [] + [AsCaptured] == [AsCaptured];
  }

  lemma {:induction false} RanTwice(y: System, ts: seq<Step>, us: seq<Step>)
    requires CanRun(y, ts) && HazardFree(y, ts) && CanRun(Ran(y, ts), us)
    ensures CanRun(y, ts + us) && Ran(y, ts + us) == Ran(Ran(y, ts), us)
    ensures HazardFree(Ran(y, ts), us) ==> HazardFree(y, ts + us)
    decreases |ts|
  {
    if ts == [] {
      assert ts + us == us;
    } else {
      RanTwice(After(y, ts[0]), ts[1..], us);
      assert (ts + us)[1..] == ts[1..] + us;
    }
  }

  /** One payload per sequence is false of the fence as it stands: the run above, continued by a crash,
      a withdrawal and a restart, sends frame 1 as captured and then as its placeholder. */
  lemma HalfFailedRecordSendsTwoPayloads() returns (ts: seq<Step>)
    ensures Init(FRESH) && CanRun(FRESH, ts) && !OnePayload(Ran(FRESH, ts))
  {
    var a := AppendOne();
    var b := RecordOne();
    var c := HalfWriteRecord();
    var d := DrainDecides();
    RanTwice(FRESH, a, b);
    RanTwice(FRESH, a + b, c);
    RanTwice(FRESH, a + b + c, d);
    var y := Ran(FRESH, a + b + c + d);
    RunKeepsInvariant(FRESH, a + b + c + d);
    var e := HazardIsFatal(y, BeforeSend(true));
    assert ([BeforeSend(true)] + e)[1..] == e;
    RanTwice(FRESH, a + b + c + d, [BeforeSend(true)] + e);
    ts := (a + b + c + d) + ([BeforeSend(true)] + e);
  }
}
