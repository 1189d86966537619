/** The content uploader raced by consent (internal/observer/daemon/content.go, content_pending.go):
    observations, plans, uploads in flight, pending records being saved, and policy changes delivered to
    the uploader, interleaved at every point where it takes or releases a lock. */
module ContentConsent {
  import opened Common
  import opened Intervals
  import opened ConsentPolicy

  const NO_ORIGIN := Origin("", 0)

  /** The policy consents to uploading content captured under o. */
  predicate Consents(p: Policy, o: Origin) {
    p.contentUpload && p.Allows(o.root, o.generation)
  }

  /** stamp tells one tracked state from a later one of the same transcript. */
  datatype Tracked = Tracked(stamp: nat, origin: Origin)

  /** A pending record a plan found owed, for the state it found it in. */
  datatype Save = Save(id: Id, stamp: nat, origin: Origin)

  /** An upload registered while policy number since was the newest. */
  datatype Flight = Flight(id: Id, origin: Origin, since: nat, withdrawn: bool)

  /** How far the delivery of one published policy got; seen numbers the newest policy it read. */
  datatype Note =
    | Published
    | Read(seen: nat)
    | Applied(seen: nat)
    | Sweeping(seen: nat, left: set<Id>, failed: bool)
    | Swept(seen: nat)
    | GaveUp(seen: nat)
  {
    predicate Told() { !Published? && !Read? }
  }

  /** policies[i] is the i-th policy published and notes[i] its delivery. */
  datatype System = System(policies: seq<Policy>, notes: seq<Note>, files: map<Id, Tracked>, stamps: nat,
                           jobs: set<(Id, Origin)>, flight: Option<Flight>, saves: set<Save>, writing: Option<Save>,
                           disk: map<Id, Origin>)

  predicate Shaped(y: System) {
    y.policies != [] && |y.notes| == |y.policies|
  }

  function Newest(y: System): nat
    requires Shaped(y)
  {
    |y.policies| - 1
  }

  function Latest(y: System): Policy
    requires Shaped(y)
  {
    y.policies[Newest(y)]
  }

  /** A run starts by sweeping whatever records an earlier one left, if it can list them. */
  predicate Init(y: System) {
    && |y.policies| == 1
    && (y.notes == [Sweeping(0, y.disk.Keys, false)] || y.notes == [GaveUp(0)])
    && y.files == map[] && y.jobs == {} && y.flight == None && y.saves == {} && y.writing == None
  }

  /** Nobody holds the lock pending records are written, deleted and swept under. */
  ghost predicate LockFree(y: System) {
    y.writing.None? && forall i :: 0 <= i < |y.notes| ==> !y.notes[i].Sweeping?
  }

  datatype Step =
    | Publish(policy: Policy)
    | ReadLatest(note: nat)
    | Apply(note: nat)
    | BeginSweep(note: nat, listed: bool)
    | SweepOne(note: nat, id: Id, removes: bool)
    | EndSweep(note: nat)
    | Observe(id: Id, origin: Origin)
    | Untrack(id: Id)
    | DropAll
    | PlanUploads(owed: set<Id>, ready: set<Id>)
    | Register(id: Id, origin: Origin)
    // again: the same content is posted once more, without its binding
    | Finish(completed: bool, again: bool)
    | BeginSave(save: Save)
    | Write(works: bool)
    | DropRecord(id: Id, works: bool)

  ghost predicate Enabled(y: System, t: Step) {
    && Shaped(y)
    && match t
       case Publish(p) => p.version > Latest(y).version
       case ReadLatest(i) => i < |y.notes| && y.notes[i].Published?
       case Apply(i) => i < |y.notes| && y.notes[i].Read? && y.notes[i].seen < |y.policies|
       case BeginSweep(i, _) => i < |y.notes| && y.notes[i].Applied? && LockFree(y)
       case SweepOne(i, id, _) => i < |y.notes| && y.notes[i].Sweeping? && id in y.notes[i].left
       case EndSweep(i) => i < |y.notes| && y.notes[i].Sweeping? && y.notes[i].left == {}
       case Register(id, o) => (id, o) in y.jobs && y.flight.None?
       case Finish(_, _) => y.flight.Some?
       case BeginSave(save) => save in y.saves && LockFree(y)
       case Write(_) => y.writing.Some?
       case DropRecord(_, _) => LockFree(y)
       case _ => true
  }

  function Kept(files: map<Id, Tracked>, p: Policy): map<Id, Tracked> {
    map id | id in files && Consents(p, files[id].origin) :: files[id]
  }

  function Told(f: Option<Flight>, p: Policy): Option<Flight> {
    if f.Some? && !Consents(p, f.value.origin) then Some(f.value.(withdrawn := true)) else f
  }

  /** The saves and jobs a plan makes of the tracked states it is asked to. */
  function SavesOf(files: map<Id, Tracked>, owed: set<Id>): set<Save> {
    set id | id in owed && id in files :: Save(id, files[id].stamp, files[id].origin)
  }

  function JobsOf(files: map<Id, Tracked>, ready: set<Id>): set<(Id, Origin)> {
    set id | id in ready && id in files :: (id, files[id].origin)
  }

  /** The record is still for the state it was planned from, and that state is still covered. */
  predicate StillOwed(files: map<Id, Tracked>, latest: Policy, save: Save) {
    save.id in files && files[save.id].stamp == save.stamp && Consents(latest, files[save.id].origin)
  }

  /** A sweep leaves this record alone. */
  predicate SweepKeeps(latest: Policy, o: Origin) {
    o != NO_ORIGIN && Consents(latest, o)
  }

  ghost function After(y: System, t: Step): System
    requires Enabled(y, t)
  {
    match t
    case Publish(p) => y.(policies := y.policies + [p], notes := y.notes + [Published])
    case ReadLatest(i) => y.(notes := y.notes[i := Read(Newest(y))])
    case Apply(i) =>
      var p := y.policies[y.notes[i].seen];
      y.(files := Kept(y.files, p), flight := Told(y.flight, p), notes := y.notes[i := Applied(y.notes[i].seen)])
    case BeginSweep(i, listed) =>
      var seen := y.notes[i].seen;
      y.(notes := y.notes[i := if listed then Sweeping(seen, y.disk.Keys, false) else GaveUp(seen)])
    case SweepOne(i, id, removes) =>
      var n := y.notes[i];
      if id !in y.disk || SweepKeeps(Latest(y), y.disk[id]) then y.(notes := y.notes[i := n.(left := n.left - {id})])
      else if removes then y.(notes := y.notes[i := n.(left := n.left - {id})], disk := y.disk - {id})
      else y.(notes := y.notes[i := n.(left := n.left - {id}, failed := true)])
    case EndSweep(i) => y.(notes := y.notes[i := if y.notes[i].failed then GaveUp(y.notes[i].seen)
                                            else Swept(y.notes[i].seen)])
    case Observe(id, o) =>
      if !Consents(Latest(y), o) then y.(files := y.files - {id})
      else if id in y.files then y.(files := y.files[id := y.files[id].(origin := o)])
      else y.(files := y.files[id := Tracked(y.stamps, o)], stamps := y.stamps + 1)
    case Untrack(id) => y.(files := y.files - {id})
    case DropAll => y.(files := map[])
    case PlanUploads(owed, ready) =>
      var kept := Kept(y.files, Latest(y));
      y.(files := kept, saves := y.saves + SavesOf(kept, owed), jobs := y.jobs + JobsOf(kept, ready))
    case Register(id, o) =>
      if Consents(Latest(y), o) then y.(flight := Some(Flight(id, o, Newest(y), false)))
      else y.(files := y.files - {id}, jobs := y.jobs - {(id, o)})
    case Finish(completed, again) =>
      var f := y.flight.value;
      var jobs := if again then y.jobs else y.jobs - {(f.id, f.origin)};
      if f.withdrawn && !completed then y.(flight := None, jobs := jobs, files := y.files - {f.id})
      else y.(flight := None, jobs := jobs)
    case BeginSave(save) =>
      if StillOwed(y.files, Latest(y), save) then y.(saves := y.saves - {save}, writing := Some(save))
      else y.(saves := y.saves - {save})
    case Write(works) =>
      var save := y.writing.value;
      y.(writing := None, disk := if works then y.disk[save.id := save.origin] else y.disk)
    case DropRecord(id, works) => if works then y.(disk := y.disk - {id}) else y
  }

  ghost predicate CanRun(y: System, ts: seq<Step>)
    decreases |ts|
  {
    ts != [] ==> Enabled(y, ts[0]) && CanRun(After(y, ts[0]), ts[1..])
  }

  ghost function Ran(y: System, ts: seq<Step>): System
    requires CanRun(y, ts)
    decreases |ts|
  {
    if ts == [] then y else Ran(After(y, ts[0]), ts[1..])
  }

  /** Some policy no older than number i covers o. */
  ghost predicate CoveredSince(policies: seq<Policy>, i: nat, o: Origin) {
    exists u :: i <= u < |policies| && Consents(policies[u], o)
  }

  // ---- what every step keeps --------------------------------------------------------------------

  ghost predicate NoteOk(y: System, i: nat)
    requires i < |y.notes|
  {
    && (!y.notes[i].Published? ==> i <= y.notes[i].seen < |y.policies|)
    && (y.notes[i].Sweeping? ==> y.writing.None? && forall j :: 0 <= j < |y.notes| && y.notes[j].Sweeping? ==> j == i)
  }

  ghost predicate NotesOk(y: System) {
    Shaped(y) && forall i :: 0 <= i < |y.notes| ==> NoteOk(y, i)
  }

  /** As far as delivery i goes: an upload in flight is withdrawn, or was registered under no older a
      policy than the one the uploader was told of, or is covered by that one. */
  ghost predicate Noticed(y: System, f: Flight, i: nat)
    requires i < |y.notes|
  {
    y.notes[i].Told() && y.notes[i].seen < |y.policies| ==>
      y.notes[i].seen <= f.since || Consents(y.policies[y.notes[i].seen], f.origin)
  }

  ghost predicate FlightOk(y: System) {
    y.flight.Some? && !y.flight.value.withdrawn ==>
      && y.flight.value.since < |y.policies|
      && Consents(y.policies[y.flight.value.since], y.flight.value.origin)
      && forall i :: 0 <= i < |y.notes| ==> Noticed(y, y.flight.value, i)
  }

  ghost predicate DiskCovered(y: System, i: nat, except: set<Id>) {
    forall id :: id in y.disk && id !in except ==> CoveredSince(y.policies, i, y.disk[id])
  }

  /** What delivery i promises: a finished sweep, of the records on disk and of the one being written; one
      under way, of those it has been through. */
  ghost predicate Promise(y: System, i: nat)
    requires i < |y.notes|
  {
    match y.notes[i]
    case Swept(_) => DiskCovered(y, i, {}) && (y.writing.Some? ==> CoveredSince(y.policies, i, y.writing.value.origin))
    case Sweeping(_, left, failed) => failed || DiskCovered(y, i, left)
    case _ => true
  }

  ghost predicate RecordsOk(y: System) {
    forall i :: 0 <= i < |y.notes| ==> Promise(y, i)
  }

  /** A save that goes ahead on the strength of the state's consent although its record names another,
      withdrawn, one: the transcript moved between two consent roots since the plan. */
  ghost predicate Stray(y: System, t: Step)
    requires Enabled(y, t)
  {
    t.BeginSave? && StillOwed(y.files, Latest(y), t.save) && !Consents(Latest(y), t.save.origin)
  }

  lemma NotesKept(y: System, t: Step)
    requires NotesOk(y) && Enabled(y, t)
    ensures NotesOk(After(y, t))
  {
    var y' := After(y, t);
    forall i | 0 <= i < |y'.notes| ensures NoteOk(y', i) {
      assert i < |y.notes| ==> NoteOk(y, i);
    }
  }

  lemma FlightKept(y: System, t: Step)
    requires NotesOk(y) && FlightOk(y) && Enabled(y, t)
    ensures FlightOk(After(y, t))
  {
    var y' := After(y, t);
    if y'.flight.Some? && !y'.flight.value.withdrawn {
      forall i | 0 <= i < |y'.notes| ensures Noticed(y', y'.flight.value, i) {
        if i < |y.notes| {
          assert NoteOk(y, i);
          assert y.flight.Some? && !y.flight.value.withdrawn ==> Noticed(y, y.flight.value, i);
        }
      }
    }
  }

  lemma PublishKeepsPromise(y: System, t: Step, i: nat)
    requires Enabled(y, t) && t.Publish? && i < |y.notes| && Promise(y, i)
    ensures Promise(After(y, t), i)
  {
    var more := After(y, t).policies;
    forall o | CoveredSince(y.policies, i, o) ensures CoveredSince(more, i, o) {
      var u :| i <= u < |y.policies| && Consents(y.policies[u], o);
      assert Consents(more[u], o);
    }
  }

  lemma NewestCovers(y: System, i: nat, o: Origin)
    requires Shaped(y) && i < |y.policies| && Consents(Latest(y), o)
    ensures CoveredSince(y.policies, i, o)
  {
    assert Consents(y.policies[Newest(y)], o);
  }

  lemma PromiseKept(y: System, t: Step, i: nat)
    requires NotesOk(y) && Enabled(y, t) && !Stray(y, t)
    requires i < |y.notes| && Promise(y, i)
    ensures Promise(After(y, t), i)
  {
    hide CoveredSince;
    assert NoteOk(y, i);
    match t
    case Publish(_) => PublishKeepsPromise(y, t, i);
    case SweepOne(j, id, _) =>
      assert NoteOk(y, j);
      if id in y.disk && SweepKeeps(Latest(y), y.disk[id]) {
        NewestCovers(y, i, y.disk[id]);
      }
    case BeginSave(save) =>
      if Consents(Latest(y), save.origin) {
        NewestCovers(y, i, save.origin);
      }
    case _ =>
  }

  lemma RecordsKept(y: System, t: Step)
    requires NotesOk(y) && RecordsOk(y) && Enabled(y, t) && !Stray(y, t)
    ensures RecordsOk(After(y, t))
  {
    var y' := After(y, t);
    forall i | 0 <= i < |y'.notes| ensures Promise(y', i) {
      if i < |y.notes| {
        PromiseKept(y, t, i);
      }
    }
  }
}
