/** The uploader's own state and the sections it runs under its locks, each shown to be the step of the
    same name of the interleaved system. */
module ContentUploader {
  import opened Common
  import opened Intervals
  import opened ConsentPolicy
  import opened ContentConsent
  import opened ContentPlan

  /** What is sorted of the tracked transcripts once those in ids are left. */
  ghost predicate SortedBut(files: map<Id, Tracked>, views: Id -> View, rules: Rules, ids: set<Id>, saves: set<Save>,
                            jobs: set<(Id, Origin)>, settled: set<Id>) {
    && saves == SavesOf(files, OwedIds(files, views, rules) - ids)
    && jobs == JobsOf(files, ReadyIds(files, views, rules) - ids)
    && settled == UnsendableIds(files, views, rules) - ids
  }

  /** What one transcript adds. */
  predicate SortsOne(v: View, rules: Rules, id: Id, t: Tracked, save: set<Save>, job: set<(Id, Origin)>,
                     unsendable: bool) {
    && save == (if Owes(v, t.origin, rules) then {Save(id, t.stamp, t.origin)} else {})
    && job == (if Ready(v, rules) then {(id, t.origin)} else {})
    && (unsendable <==> Unsendable(v, rules))
  }

  lemma SavesOneMore(files: map<Id, Tracked>, owed: set<Id>, ids: set<Id>, id: Id)
    requires id in files && id in ids
    ensures SavesOf(files, owed - (ids - {id}))
         == SavesOf(files, owed - ids) + if id in owed then {Save(id, files[id].stamp, files[id].origin)} else {}
  {
    assert forall k :: k in owed - (ids - {id}) <==> k in owed - ids || (k == id && id in owed);
  }

  lemma JobsOneMore(files: map<Id, Tracked>, ready: set<Id>, ids: set<Id>, id: Id)
    requires id in files && id in ids
    ensures JobsOf(files, ready - (ids - {id}))
         == JobsOf(files, ready - ids) + if id in ready then {(id, files[id].origin)} else {}
  {
    assert forall k :: k in ready - (ids - {id}) <==> k in ready - ids || (k == id && id in ready);
  }

  lemma SortedOneMore(files: map<Id, Tracked>, views: Id -> View, rules: Rules, ids: set<Id>, saves: set<Save>,
                      jobs: set<(Id, Origin)>, settled: set<Id>, id: Id, save: set<Save>, job: set<(Id, Origin)>,
                      unsendable: bool)
    requires id in files && id in ids && SortedBut(files, views, rules, ids, saves, jobs, settled)
    requires SortsOne(views(id), rules, id, files[id], save, job, unsendable)
    ensures SortedBut(files, views, rules, ids - {id}, saves + save, jobs + job,
                      if unsendable then settled + {id} else settled)
  {
    hide SavesOf, JobsOf, Owes, Ready, Unsendable;
    SavesOneMore(files, OwedIds(files, views, rules), ids, id);
    JobsOneMore(files, ReadyIds(files, views, rules), ids, id);
  }

  lemma NothingLeft(files: map<Id, Tracked>, views: Id -> View, rules: Rules, saves: set<Save>, jobs: set<(Id, Origin)>,
                    settled: set<Id>)
    requires SortedBut(files, views, rules, {}, saves, jobs, settled)
    ensures saves == SavesOf(files, OwedIds(files, views, rules))
    ensures jobs == JobsOf(files, ReadyIds(files, views, rules))
    ensures settled == UnsendableIds(files, views, rules)
  {
    assert OwedIds(files, views, rules) - {} == OwedIds(files, views, rules);
    assert ReadyIds(files, views, rules) - {} == ReadyIds(files, views, rules);
  }

  class Uploader {
    var files: map<Id, Tracked>
    var stamps: nat
    var inflight: Option<Flight>
    var disk: map<Id, Origin>      // the pending records in the state directory

    ghost predicate Shows(y: System)
      reads this
    {
      Shaped(y) && y.files == files && y.stamps == stamps && y.flight == inflight && y.disk == disk
    }

    /** One observation; not queued, and dropping what was queued, once its consent is gone. */
    method Observe(ghost y: System, latest: Policy, id: Id, origin: Origin)
      requires Shows(y) && latest == Latest(y)
      modifies this`files, this`stamps
      ensures Shows(After(y, Step.Observe(id, origin)))
    {
      if !Consents(latest, origin) {
        files := files - {id};
        return;
      }
      if id !in files {
        files := files[id := Tracked(stamps, origin)];
        stamps := stamps + 1;
      }
      files := files[id := files[id].(origin := origin)];
    }

    /** Forgets every tracked state p does not cover, one by one. */
    method DropUncovered(p: Policy)
      modifies this`files
      ensures files == Kept(old(files), p)
    {
      var ids := files.Keys;
      while ids != {}
        invariant ids <= old(files).Keys
        invariant forall id :: id in files <==> id in old(files) && (id in ids || Consents(p, old(files)[id].origin))
        invariant forall id :: id in files ==> files[id] == old(files)[id]
        decreases |ids|
      {
        var id :| id in ids;
        ids := ids - {id};
        if !Consents(p, files[id].origin) {
          files := files - {id};
        }
      }
    }

    /** plan: forgets what latest does not cover, and lists the records owed and the uploads ready of the
        rest, and what is settled without an upload. */
    method Plan(ghost y: System, latest: Policy, views: Id -> View, rules: Rules)
      returns (saves: set<Save>, jobs: set<(Id, Origin)>, settled: set<Id>)
      requires Shows(y) && latest == Latest(y)
      modifies this`files
      ensures files == Kept(old(files), latest)
      ensures
        var t := PlanUploads(OwedIds(files, views, rules), ReadyIds(files, views, rules));
        Shows(After(y, t)) && After(y, t).saves == y.saves + saves && After(y, t).jobs == y.jobs + jobs
      ensures settled == UnsendableIds(files, views, rules)
    {
      DropUncovered(latest);
      saves, jobs, settled := List(views, rules);
    }

    /** Goes through the tracked transcripts in any order, sorting each. */
    method List(views: Id -> View, rules: Rules)
      returns (saves: set<Save>, jobs: set<(Id, Origin)>, settled: set<Id>)
      ensures settled == UnsendableIds(files, views, rules)
      ensures saves == SavesOf(files, OwedIds(files, views, rules))
      ensures jobs == JobsOf(files, ReadyIds(files, views, rules))
    {
      var ids := files.Keys;
      saves, jobs, settled := {}, {}, {};
      assert SortedBut(files, views, rules, ids, saves, jobs, settled);
      while ids != {}
        invariant ids <= files.Keys && SortedBut(files, views, rules, ids, saves, jobs, settled)
        decreases |ids|
      {
        var id :| id in ids;
        var save, job, unsendable := Sort(id, views(id), rules);
        SortedOneMore(files, views, rules, ids, saves, jobs, settled, id, save, job, unsendable);
        ids := ids - {id};
        saves, jobs := saves + save, jobs + job;
        if unsendable {
          settled := settled + {id};
        }
      }
      NothingLeft(files, views, rules, saves, jobs, settled);
    }

    /** One transcript: skipped, or to be sent under the session it resolves to. */
    method Sort(id: Id, v: View, rules: Rules) returns (save: set<Save>, job: set<(Id, Origin)>, unsendable: bool)
      requires id in files
      ensures SortsOne(v, rules, id, files[id], save, job, unsendable)
      ensures
        var key := Resolved(v);
        var tried := v.observed && !v.handled && key.Some?;
        var fits := tried && rules.validHeaders(key.value, v.path) && !rules.refusesName(key.value.provider, v.path);
        && (save != {} <==>
              && fits && !(v.uploaded && v.marker == key.value)
              && !(v.record.Some? && v.record.value.session == key.value && v.record.value.origin == files[id].origin
                   && v.record.value.locator == v.locator))
        && (job != {} <==> fits && v.stableFor >= rules.debounce)
        && (unsendable <==> tried && !fits)
    {
      save, job, unsendable := {}, {}, false;
      if !v.observed || v.handled {
        return;
      }
      var session := Resolved(v);
      if session.None? {
        return;
      }
      if !rules.validHeaders(session.value, v.path) {
        return save, job, true;
      }
      if rules.refusesName(session.value.provider, v.path) {
        return save, job, true;
      }
      if !Keyed(v, files[id].origin, session.value) {
        save := {Save(id, files[id].stamp, files[id].origin)};
      }
      if v.stableFor < rules.debounce {
        return;
      }
      job := {(id, files[id].origin)};
    }

    method DropAll(ghost y: System)
      requires Shows(y)
      modifies this`files
      ensures Shows(After(y, Step.DropAll))
    {
      files := map[];
    }

    method DropPending(ghost y: System, id: Id, works: bool)
      requires Shows(y) && Enabled(y, DropRecord(id, works))
      modifies this`disk
      ensures Shows(After(y, DropRecord(id, works)))
    {
      if works {
        disk := disk - {id};
      }
    }

    /** onConsentChange, for the policy it read, up to the sweep. */
    method Apply(ghost y: System, ghost note: nat, p: Policy)
      requires Shows(y) && Enabled(y, Step.Apply(note)) && p == y.policies[y.notes[note].seen]
      modifies this`files, this`inflight
      ensures Shows(After(y, Step.Apply(note)))
    {
      DropUncovered(p);
      if inflight.Some? && !inflight.value.withdrawn && !Consents(p, inflight.value.origin) {
        inflight := Some(inflight.value.(withdrawn := true));
      }
    }

    /** postSnapshot before the request: nothing is sent unless this registers the upload. */
    method Register(ghost y: System, latest: Policy, since: nat, id: Id, origin: Origin) returns (sends: bool)
      requires Shows(y) && latest == Latest(y) && since == Newest(y) && Enabled(y, Step.Register(id, origin))
      modifies this`files, this`inflight
      ensures Shows(After(y, Step.Register(id, origin)))
      ensures sends == inflight.Some?
    {
      if !Consents(latest, origin) {
        files := files - {id};
        return false;
      }
      inflight := Some(Flight(id, origin, since, false));
      sends := true;
    }

    /** postSnapshot after the request: withdrawn tells a cancelled upload from one the collector answered. */
    method Finish(ghost y: System, completed: bool, ghost again: bool) returns (withdrawn: bool)
      requires Shows(y) && Enabled(y, Step.Finish(completed, again))
      modifies this`files, this`inflight
      ensures Shows(After(y, Step.Finish(completed, again)))
      ensures withdrawn == (old(inflight).value.withdrawn && !completed)
    {
      var flight := inflight.value;
      inflight := None;
      withdrawn := flight.withdrawn && !completed;
      if withdrawn {
        files := files - {flight.id};
      }
    }

    /** savePendingRecord's check. */
    method MaySave(ghost y: System, latest: Policy, save: Save) returns (goes: bool)
      requires Shows(y) && latest == Latest(y) && Enabled(y, BeginSave(save))
      ensures Shows(After(y, BeginSave(save))) && (goes <==> After(y, BeginSave(save)).writing == Some(save))
    {
      goes := save.id in files && files[save.id].stamp == save.stamp && Consents(latest, files[save.id].origin);
    }

    method WriteRecord(ghost y: System, save: Save, works: bool)
      requires Shows(y) && y.writing == Some(save)
      modifies this`disk
      ensures Shows(After(y, Write(works)))
    {
      if works {
        disk := disk[save.id := save.origin];
      }
    }

    /** sweepContentPending over the records listed; latest(id) is the newest policy when it comes to id. */
    method Sweep(latest: Id -> Policy, removes: Id -> bool) returns (removed: nat, failed: bool)
      modifies this`disk
      ensures forall id :: id in disk <==> id in old(disk) && (SweepKeeps(latest(id), old(disk)[id]) || !removes(id))
      ensures forall id :: id in disk ==> disk[id] == old(disk)[id]
      ensures !failed ==> forall id :: id in disk ==> SweepKeeps(latest(id), disk[id])
      ensures forall id :: id in old(disk) && id !in disk ==>
                || old(disk)[id] == Origin("", 0) || !latest(id).contentUpload
                || !latest(id).Allows(old(disk)[id].root, old(disk)[id].generation)
      ensures !failed ==> forall id :: id in disk ==>
                latest(id).contentUpload && latest(id).Allows(disk[id].root, disk[id].generation)
      ensures |disk| + removed == |old(disk)|
    {
      var left := disk.Keys;
      removed, failed := 0, false;
      while left != {}
        invariant left <= old(disk).Keys
        invariant forall id :: id in disk <==>
                    id in old(disk) && (id in left || SweepKeeps(latest(id), old(disk)[id]) || !removes(id))
        invariant forall id :: id in disk ==> disk[id] == old(disk)[id]
        invariant !failed ==> forall id :: id in disk && id !in left ==> SweepKeeps(latest(id), disk[id])
        invariant |disk| + removed == |old(disk)|
        decreases |left|
      {
        var id :| id in left;
        left := left - {id};
        if !SweepKeeps(latest(id), disk[id]) {
          if removes(id) {
            assert disk.Keys == (disk - {id}).Keys + {id};
            disk := disk - {id};
            removed := removed + 1;
          } else {
            failed := true;
          }
        }
      }
    }
  }
}
