/** What every step of the content uploader does to what is tracked, in flight, owed and recorded, told by
    the policies' own fields; and that nothing still consented to is ever dropped. */
module ContentLaws {
  import opened Common
  import opened Intervals
  import opened ConsentPolicy
  import opened ContentConsent

  predicate Grants(p: Policy, o: Origin) { p.contentUpload && p.Allows(o.root, o.generation) }

  /** A transcript is tracked after a step exactly if it was, and the step is not told to forget it, and the
      policy the step applies still grants what it is tracked under; or if it is observed under consent. */
  lemma TrackedAfter(y: System, t: Step, id: Id)
    requires Enabled(y, t)
    ensures
      var was, now := id in y.files, id in After(y, t).files;
      match t
      case Apply(i) => now <==> was && Grants(y.policies[y.notes[i].seen], y.files[id].origin)
      case PlanUploads(_, _) => now <==> was && Grants(Latest(y), y.files[id].origin)
      case Observe(k, o) => now <==> if k == id then Grants(Latest(y), o) else was
      case Untrack(k) => now <==> was && k != id
      case DropAll => !now
      case Register(k, o) => now <==> was && (k != id || Grants(Latest(y), o))
      case Finish(completed, _) => now <==> was && !(y.flight.value.id == id && y.flight.value.withdrawn && !completed)
      case _ => now <==> was
    ensures id in After(y, t).files ==>
              After(y, t).files[id] ==
              if t.Observe? && t.id == id then
                Tracked(if id in y.files then y.files[id].stamp else y.stamps, t.origin)
              else y.files[id]
  {
  }

  /** An upload goes out exactly under consent, and is withdrawn exactly when the uploader is told of a policy
      that does not grant it. */
  lemma InFlightAfter(y: System, t: Step)
    requires Enabled(y, t)
    ensures
      var f := After(y, t).flight;
      match t
      case Register(id, o) => f == if Grants(Latest(y), o) then Some(Flight(id, o, |y.policies| - 1, false)) else None
      case Apply(i) =>
        f == if y.flight.None? then None
             else
               var g := y.flight.value;
               Some(g.(withdrawn := g.withdrawn || !Grants(y.policies[y.notes[i].seen], g.origin)))
      case Finish(_, _) => f == None
      case _ => f == y.flight
  {
  }

  /** A plan asks for the records and the uploads of exactly the covered transcripts it is asked to, as they
      are tracked then; and a record is written exactly if its transcript is still tracked as it was planned
      and covered by the newest policy. */
  lemma OwedAfter(y: System, t: Step, save: Save)
    requires Enabled(y, t)
    ensures t.PlanUploads? ==>
              (save in After(y, t).saves <==>
                 || save in y.saves
                 || (&& save.id in t.owed && save.id in y.files && Grants(Latest(y), y.files[save.id].origin)
                     && save.stamp == y.files[save.id].stamp && save.origin == y.files[save.id].origin))
    ensures t.PlanUploads? ==>
              ((save.id, save.origin) in After(y, t).jobs <==>
                 || (save.id, save.origin) in y.jobs
                 || (&& save.id in t.ready && save.id in y.files && Grants(Latest(y), y.files[save.id].origin)
                     && save.origin == y.files[save.id].origin))
    ensures t == BeginSave(save) ==>
              (After(y, t).writing == Some(save) <==>
                 && save.id in y.files && y.files[save.id].stamp == save.stamp
                 && Grants(Latest(y), y.files[save.id].origin))
  {
    if t.PlanUploads? {
      var kept := Kept(y.files, Latest(y));
      if save.id in t.ready && save.id in kept {
        assert (save.id, kept[save.id].origin) in JobsOf(kept, t.ready);
      }
    }
  }

  /** A record leaves the disk only when it is told to, or when a sweep finds it uncovered or unreadable and
      can delete it; a sweep that cannot remembers that it failed, and then does not claim to be through. */
  lemma RecordedAfter(y: System, t: Step, id: Id)
    requires Enabled(y, t)
    ensures
      var was, now := id in y.disk, id in After(y, t).disk;
      var gone := was && (y.disk[id] == Origin("", 0) || !Grants(Latest(y), y.disk[id]));
      match t
      case SweepOne(i, k, removes) =>
        && (now <==> was && !(k == id && gone && removes))
        && (k == id ==> (After(y, t).notes[i].failed <==> y.notes[i].failed || (gone && !removes)))
      case Write(works) => now <==> was || (works && y.writing.value.id == id)
      case DropRecord(k, works) => now <==> was && !(k == id && works)
      case EndSweep(i) => (now <==> was) && (After(y, t).notes[i].Swept? <==> !y.notes[i].failed)
      case BeginSweep(i, listed) => (now <==> was) && (listed ==> After(y, t).notes[i].left == y.disk.Keys)
      case _ => now <==> was
    ensures id in After(y, t).disk ==>
              After(y, t).disk[id] ==
              if t.Write? && t.works && y.writing.value.id == id then y.writing.value.origin else y.disk[id]
  {
  }

  // ---- nothing consented to is dropped ----------------------------------------------------------

  /** The step does not itself tell the uploader to forget id, or to have it under another consent than o. */
  predicate Leaves(t: Step, id: Id, o: Origin) {
    match t
    case Untrack(k) => k != id
    case DropAll => false
    case Observe(k, p) => k != id || p == o
    case Register(k, p) => k != id || p == o
    case BeginSave(save) => save.id != id || save.origin == o
    case DropRecord(k, _) => k != id
    case _ => true
  }

  /** id is tracked under o, and whatever of it is under way is under o as well. */
  predicate Holds(y: System, id: Id, o: Origin) {
    && id in y.files && y.files[id].origin == o
    && (y.flight.Some? && y.flight.value.id == id ==> y.flight.value.origin == o && !y.flight.value.withdrawn)
    && (y.writing.Some? && y.writing.value.id == id ==> y.writing.value.origin == o)
  }

  lemma StepHolds(y: System, t: Step, id: Id, o: Origin)
    requires Enabled(y, t) && Leaves(t, id, o) && Holds(y, id, o)
    requires forall p :: p in y.policies ==> Grants(p, o)
    ensures Holds(After(y, t), id, o)
    ensures id in y.disk && y.disk[id] == o && o != NO_ORIGIN ==>
              id in After(y, t).disk && After(y, t).disk[id] == o
  {
    TrackedAfter(y, t, id);
    InFlightAfter(y, t);
    RecordedAfter(y, t, id);
  }

  lemma PoliciesGrow(y: System, t: Step)
    requires Enabled(y, t)
    ensures y.policies <= After(y, t).policies
  {
  }

  lemma {:induction false} RunPolicies(y: System, ts: seq<Step>)
    requires CanRun(y, ts)
    ensures y.policies <= Ran(y, ts).policies
    decreases |ts|
  {
    if ts != [] {
      PoliciesGrow(y, ts[0]);
      RunPolicies(After(y, ts[0]), ts[1..]);
    }
  }

  /** Over every run whose policies all grant o, and that is not told to forget id, a transcript tracked under o
      stays tracked, its upload is never withdrawn, and its record stays on disk, whatever else is published,
      applied, swept, planned, saved and sent. */
  lemma {:induction false} ConsentedStays(y: System, ts: seq<Step>, id: Id, o: Origin)
    requires CanRun(y, ts) && Holds(y, id, o)
    requires forall t :: t in ts ==> Leaves(t, id, o)
    requires forall p :: p in Ran(y, ts).policies ==> p.contentUpload && p.Allows(o.root, o.generation)
    ensures
      var z := Ran(y, ts);
      && id in z.files && z.files[id].origin == o
      && (z.flight.Some? && z.flight.value.id == id ==> !z.flight.value.withdrawn)
      && (id in y.disk && y.disk[id] == o && o != NO_ORIGIN ==> id in z.disk && z.disk[id] == o)
    decreases |ts|
  {
    if ts != [] {
      RunPolicies(y, ts);
      forall p | p in y.policies ensures Grants(p, o) {
        assert p in Ran(y, ts).policies;
      }
      StepHolds(y, ts[0], id, o);
      ConsentedStays(After(y, ts[0]), ts[1..], id, o);
    }
  }
}
