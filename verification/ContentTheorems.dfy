/** What the content uploader keeps over every interleaving with consent changes, and the one race that
    leaves a withdrawn record behind. */
module ContentTheorems {
  import opened Common
  import opened Intervals
  import opened ConsentPolicy
  import opened ContentConsent

  lemma {:induction false} RunKeepsFlight(y: System, ts: seq<Step>)
    requires NotesOk(y) && FlightOk(y) && CanRun(y, ts)
    ensures NotesOk(Ran(y, ts)) && FlightOk(Ran(y, ts))
    decreases |ts|
  {
    if ts != [] {
      NotesKept(y, ts[0]);
      FlightKept(y, ts[0]);
      RunKeepsFlight(After(y, ts[0]), ts[1..]);
    }
  }

  /** Withdrawal reaches uploads in flight: one that is not withdrawn is covered by a policy no older than
      any the uploader has been told of, in whatever order the tellings ran; and once all have, by the
      newest policy itself. */
  lemma InFlightIsCovered(y: System, ts: seq<Step>, i: nat)
    requires Init(y) && CanRun(y, ts) && i < |Ran(y, ts).notes|
    requires Ran(y, ts).flight.Some? && !Ran(y, ts).flight.value.withdrawn
    ensures
      var z := Ran(y, ts);
      && Shaped(z)
      && var o := z.flight.value.origin;
      && (z.notes[i].Told() ==>
            exists u :: z.notes[i].seen <= u < |z.policies| && z.policies[u].contentUpload
                        && z.policies[u].Allows(o.root, o.generation))
      && ((forall k :: 0 <= k < |z.notes| ==> z.notes[k].Told()) ==>
            Latest(z).contentUpload && Latest(z).Allows(o.root, o.generation))
  {
    RunKeepsFlight(y, ts);
    var z := Ran(y, ts);
    assert NoteOk(z, i) && Noticed(z, z.flight.value, i);
    assert NoteOk(z, Newest(z)) && Noticed(z, z.flight.value, Newest(z));
  }

  ghost predicate StrayFree(y: System, ts: seq<Step>)
    requires CanRun(y, ts)
    decreases |ts|
  {
    ts != [] ==> !Stray(y, ts[0]) && StrayFree(After(y, ts[0]), ts[1..])
  }

  lemma {:induction false} RunKeepsRecords(y: System, ts: seq<Step>)
    requires NotesOk(y) && RecordsOk(y) && CanRun(y, ts) && StrayFree(y, ts)
    ensures NotesOk(Ran(y, ts)) && RecordsOk(Ran(y, ts))
    decreases |ts|
  {
    if ts != [] {
      NotesKept(y, ts[0]);
      RecordsKept(y, ts[0]);
      RunKeepsRecords(After(y, ts[0]), ts[1..]);
    }
  }

  /** Consent wins over retry: once the sweep for policy i is through, every record on disk, then and at any
      later time, is covered by a policy no older than i, whatever an earlier run left and whatever saves
      were under way; and so is the record being written. */
  lemma SweptRecordsAreCovered(y: System, ts: seq<Step>, i: nat, id: Id)
    requires Init(y) && CanRun(y, ts) && StrayFree(y, ts)
    requires i < |Ran(y, ts).notes| && Ran(y, ts).notes[i].Swept? && id in Ran(y, ts).disk
    ensures
      var z := Ran(y, ts);
      exists u :: i <= u < |z.policies| && z.policies[u].contentUpload
                  && z.policies[u].Allows(z.disk[id].root, z.disk[id].generation)
  {
    assert Promise(y, 0);
    RunKeepsRecords(y, ts);
    assert Promise(Ran(y, ts), i);
  }

  // ---- when no save goes astray -----------------------------------------------------------------

  /** No transcript is observed under another consent than the one it is tracked under. */
  ghost predicate Settled(y: System, ts: seq<Step>)
    requires CanRun(y, ts)
    decreases |ts|
  {
    ts != [] ==>
      && (ts[0].Observe? && ts[0].id in y.files && Consents(Latest(y), ts[0].origin) ==>
            y.files[ts[0].id].origin == ts[0].origin)
      && Settled(After(y, ts[0]), ts[1..])
  }

  predicate Stamped(y: System) {
    && (forall id :: id in y.files ==> y.files[id].stamp < y.stamps)
    && (forall s :: s in y.saves ==> s.stamp < y.stamps)
    && (forall s :: s in y.saves && s.id in y.files && y.files[s.id].stamp == s.stamp ==>
        y.files[s.id].origin == s.origin)
  }

  lemma {:induction false} SettledRunsDoNotStray(y: System, ts: seq<Step>)
    requires Stamped(y) && CanRun(y, ts) && Settled(y, ts)
    ensures StrayFree(y, ts)
    decreases |ts|
  {
    if ts != [] {
      assert Settled(y, ts);
      assert Stamped(After(y, ts[0]));
      SettledRunsDoNotStray(After(y, ts[0]), ts[1..]);
    }
  }

  function Saved(y: System, save: Save): System {
    y.(saves := y.saves - {save}, disk := y.disk[save.id := save.origin])
  }

  lemma SavedInTwoSteps(y: System, save: Save)
    requires Enabled(y, BeginSave(save)) && StillOwed(y.files, Latest(y), save) && y.writing.None?
    ensures Enabled(After(y, BeginSave(save)), Write(true))
    ensures After(After(y, BeginSave(save)), Write(true)) == Saved(y, save)
  {
  }

  lemma OnlyTheNewest(y: System, o: Origin)
    requires Shaped(y)
    ensures CoveredSince(y.policies, Newest(y), o) <==> Consents(Latest(y), o)
  {
    if Consents(Latest(y), o) {
      NewestCovers(y, Newest(y), o);
    }
  }

  /** Exactly when one late save breaks the promise: everything published has been swept for, and the save
      still finds its state owed. Then every record on disk is covered afterwards if and only if the newest
      policy covers the consent the saved record names, which the save does not check. */
  lemma LateSaveExactly(y: System, save: Save)
    requires NotesOk(y) && RecordsOk(y) && y.notes[Newest(y)].Swept?
    requires Enabled(y, BeginSave(save)) && StillOwed(y.files, Latest(y), save)
    ensures Enabled(After(y, BeginSave(save)), Write(true))
    ensures
      var z := After(After(y, BeginSave(save)), Write(true));
      && Shaped(z) && Latest(z) == Latest(y)
      && ((forall id :: id in z.disk ==>
             Latest(y).contentUpload && Latest(y).Allows(z.disk[id].root, z.disk[id].generation))
          <==> Latest(y).contentUpload && Latest(y).Allows(save.origin.root, save.origin.generation))
  {
    SavedInTwoSteps(y, save);
    assert Promise(y, Newest(y));
    assert Saved(y, save).disk[save.id] == save.origin;
    forall id | id in y.disk ensures Consents(Latest(y), y.disk[id]) {
      OnlyTheNewest(y, y.disk[id]);
    }
  }

  // ---- a run in which one does ------------------------------------------------------------------

  const A := Origin("/a", 1)
  const B := Origin("/b", 1)
  const BOTH := Policy(1, true, [Record("/a", 1, true, ""), Record("/b", 1, true, "")], "")
  const ONLY_B := Policy(2, true, [Record("/b", 1, true, "")], "")
  const FILE: Id := (0, 1)
  lemma Grants()
    ensures Consents(BOTH, A) && Consents(BOTH, B) && Consents(ONLY_B, B) && !Consents(ONLY_B, A)
  {
    assert "/a"[1] == 'a' && "/b"[1] == 'b';
    assert BOTH.roots[1..] == [Record("/b", 1, true, "")] && ONLY_B.roots[1..] == [];
  }

  lemma Then(y: System, t: Step, ts: seq<Step>)
    requires Enabled(y, t) && CanRun(After(y, t), ts)
    ensures CanRun(y, [t] + ts) && Ran(y, [t] + ts) == Ran(After(y, t), ts)
  {
    assert ([t] + ts)[1..] == ts;
  }

  lemma {:induction false} RanTwice(y: System, ts: seq<Step>, us: seq<Step>)
    requires CanRun(y, ts) && CanRun(Ran(y, ts), us)
    ensures CanRun(y, ts + us) && Ran(y, ts + us) == Ran(Ran(y, ts), us)
    decreases |ts|
  {
    if ts == [] {
      assert ts + us == us;
    } else {
      RanTwice(After(y, ts[0]), ts[1..], us);
      assert (ts + us)[1..] == ts[1..] + us;
    }
  }

  const START := System([BOTH], [Sweeping(0, {}, false)], map[], 0, {}, None, {}, None, map[])
  const LATE := Save(FILE, 0, A)

  const PLANNED := START.(notes := [Swept(0)], files := map[FILE := Tracked(0, A)], stamps := 1, saves := {LATE})

  lemma PlanUnderA() returns (ts: seq<Step>)
    ensures CanRun(START, ts) && Ran(START, ts) == PLANNED
  {
    Grants();
    var y1 := After(START, EndSweep(0));
    assert y1 == START.(notes := [Swept(0)]);
    var y2 := After(y1, Observe(FILE, A));
    assert y2 == y1.(files := map[FILE := Tracked(0, A)], stamps := 1);
    var plan := PlanUploads({FILE}, {});
    assert Kept(y2.files, BOTH) == y2.files && SavesOf(y2.files, {FILE}) == {LATE};
    assert After(y2, plan) == PLANNED;
    Then(y2, plan, []);
    Then(y1, Observe(FILE, A), [plan] + []);
    Then(START, EndSweep(0), [Observe(FILE, A)] + ([plan] + []));
    ts := [EndSweep(0)] + ([Observe(FILE, A)] + ([plan] + []));
  }

  const NARROWED := PLANNED.(policies := [BOTH, ONLY_B], notes := [Swept(0), Applied(1)],
                             files := map[FILE := Tracked(0, B)])

  lemma MoveAndNarrow() returns (ts: seq<Step>)
    ensures CanRun(PLANNED, ts) && Ran(PLANNED, ts) == NARROWED
  {
    Grants();
    var y1 := After(PLANNED, Observe(FILE, B));
    assert y1 == PLANNED.(files := map[FILE := Tracked(0, B)]);
    var y2 := After(y1, Publish(ONLY_B));
    assert y2 == y1.(policies := [BOTH, ONLY_B], notes := [Swept(0), Published]);
    var y3 := After(y2, ReadLatest(1));
    assert y3 == y2.(notes := [Swept(0), Read(1)]);
    assert Kept(y3.files, ONLY_B) == y3.files;
    assert After(y3, Apply(1)) == NARROWED;
    Then(y3, Apply(1), []);
    Then(y2, ReadLatest(1), [Apply(1)] + []);
    Then(y1, Publish(ONLY_B), [ReadLatest(1)] + ([Apply(1)] + []));
    Then(PLANNED, Observe(FILE, B), [Publish(ONLY_B)] + ([ReadLatest(1)] + ([Apply(1)] + [])));
    ts := [Observe(FILE, B)] + ([Publish(ONLY_B)] + ([ReadLatest(1)] + ([Apply(1)] + [])));
  }

  const SWEPT := NARROWED.(notes := [Swept(0), Swept(1)])

  lemma SweepAgain() returns (ts: seq<Step>)
    ensures CanRun(NARROWED, ts) && Ran(NARROWED, ts) == SWEPT
  {
    var y1 := After(NARROWED, BeginSweep(1, true));
    assert NARROWED.disk.Keys == {};
    assert y1.notes == [Swept(0), Sweeping(1, {}, false)];
    assert After(y1, EndSweep(1)) == SWEPT;
    Then(y1, EndSweep(1), []);
    Then(NARROWED, BeginSweep(1, true), [EndSweep(1)] + []);
    ts := [BeginSweep(1, true)] + ([EndSweep(1)] + []);
  }

  const RECREATED := SWEPT.(saves := {}, disk := map[FILE := A])

  lemma SaveLate() returns (ts: seq<Step>)
    ensures CanRun(SWEPT, ts) && Ran(SWEPT, ts) == RECREATED
  {
    Grants();
    SavedInTwoSteps(SWEPT, LATE);
    assert {LATE} - {LATE} == {};
    assert Saved(SWEPT, LATE) == RECREATED;
    var y := After(SWEPT, BeginSave(LATE));
    Then(y, Write(true), []);
    Then(SWEPT, BeginSave(LATE), [Write(true)] + []);
    ts := [BeginSave(LATE)] + ([Write(true)] + []);
  }

  lemma RecreatedIsStale()
    ensures RECREATED.notes[1].Swept? && FILE in RECREATED.disk && RECREATED.disk[FILE] == A
    ensures !CoveredSince(RECREATED.policies, 1, A)
  {
    Grants();
  }

  /** That no late save recreates a withdrawn record is false of the uploader as it stands: a transcript is
      planned under one consent root, moves into another, the first is withdrawn and swept for, and only
      then is the planned record written, under the withdrawn consent. */
  lemma LateSaveRecreatesARecord() returns (ts: seq<Step>)
    ensures Init(START) && CanRun(START, ts)
    ensures
      var z := Ran(START, ts);
      && |z.notes| == 2 && z.notes[1].Swept? && FILE in z.disk
      && !CoveredSince(z.policies, 1, z.disk[FILE])
  {
    var a := PlanUnderA();
    var b := MoveAndNarrow();
    var c := SweepAgain();
    var d := SaveLate();
    RanTwice(START, a, b);
    RanTwice(START, a + b, c);
    RanTwice(START, a + b + c, d);
    RecreatedIsStale();
    assert START.disk.Keys == {};
    ts := a + b + c + d;
    assert Ran(START, ts) == RECREATED;
  }
}
