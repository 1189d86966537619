/** The uploader's last-uploaded markers (internal/observer/daemon/content.go): what each collector answer
    does to a transcript's state, what of it reaches the disk, and what a marker on disk means. */
module ContentMarkers {
  import opened Common
  import opened Reupload

  /** One read of a transcript, and the identity it is sent under. */
  datatype Snapshot = Snapshot(hash: string, size: nat, mod: int, native: string, provider: string, gc: string)

  datatype Marker = Marker(snap: Snapshot, gcRefused: bool)

  /** What the uploader keeps of one tracked transcript. last is the snapshot handled last, hash "" before
      any; uploaded tells an accepted one from one refused for good; handled is what needs no upload. */
  datatype Tracked = Tracked(loaded: bool, last: Snapshot, uploaded: bool, gcRefused: bool,
                             handled: Option<(nat, int, string)>, owed: bool)

  const NOTHING := Snapshot("", 0, 0, "", "", "")
  const UNTOUCHED := Tracked(false, NOTHING, false, false, None, false)

  /** A POST and its answer; offered is the GC session binding it carried. */
  datatype Post = Post(id: Id, hash: string, offered: string, answer: Answer)

  datatype System = System(files: map<Id, Tracked>, writing: set<(Id, Marker)>, disk: map<Id, Marker>, log: set<Post>)

  /** The collector took these bytes: 200, 201, or a 409 that is no binding conflict. */
  predicate Takes(a: Answer) {
    IsAccept(a) || (IsConflict(a) && !a.bindingConflict)
  }

  /** It never will: 400, 413, 422, or an identity conflict with no binding offered. */
  predicate RefusesForGood(a: Answer, offered: string) {
    IsReject(a) || (IsConflict(a) && a.bindingConflict && offered == "")
  }

  /** Only these count towards giving up: a shed request or a refusal of content upload itself is no failure of
      this snapshot. */
  predicate CountsAsFailure(a: Answer) { a.Cancelled? || (IsTransient(a) && !(a.Status? && a.code == 429)) }

  function Stat(s: Snapshot): (nat, int, string) { (s.size, s.mod, s.gc) }

  /** The unchanged snapshot: same bytes under the same binding as the one handled last. */
  predicate Unchanged(t: Tracked, s: Snapshot) {
    t.last.hash != "" && s.hash == t.last.hash && s.gc == t.last.gc
  }

  /** The state after answer a; a failed POST may give this snapshot up. */
  function Answered(t: Tracked, s: Snapshot, offered: string, a: Answer, givesUp: bool): Tracked {
    if Takes(a) then t.(loaded := true, last := s, uploaded := true, handled := Some(Stat(s)), owed := false)
    else if BindingRefused(a, offered) then t.(gcRefused := true)
    else if RefusesForGood(a, offered) then
      t.(last := t.last.(hash := s.hash, native := s.native, provider := s.provider, gc := s.gc),
         uploaded := false, handled := Some(Stat(s)), owed := if IsReject(a) then false else t.owed)
    else if givesUp && CountsAsFailure(a) then t.(handled := Some(Stat(s)))
    else t
  }

  /** What becomes of the state t, by the answer's code: settled as accepted; settled in memory only, and still
      owed exactly after an identity conflict; only the binding given up; or nothing, unless the snapshot is
      given up after a failure that is neither a 429 nor a refusal of content upload. */
  ghost predicate SettlesBy(t: Tracked, s: Snapshot, offered: string, a: Answer, givesUp: bool, t': Tracked) {
    var stat := Some((s.size, s.mod, s.gc));
    if a.Status? && (a.code in {200, 201} || (a.code == 409 && !a.bindingConflict)) then
      t' == Tracked(true, s, true, t.gcRefused, stat, false)
    else if a.Status? && a.code == 409 && offered != "" then t' == t.(gcRefused := true)
    else if a.Status? && a.code in {400, 409, 413, 422} then
      && t'.last == Snapshot(s.hash, t.last.size, t.last.mod, s.native, s.provider, s.gc)
      && t' == Tracked(t.loaded, t'.last, false, t.gcRefused, stat, t.owed && a.code == 409)
    else
      var counts := !(a.Status? && a.code in {401, 403, 404, 429, 501});
      t' == if givesUp && counts then t.(handled := stat) else t
  }

  lemma AnsweredByCode(t: Tracked, s: Snapshot, offered: string, a: Answer, givesUp: bool)
    ensures SettlesBy(t, s, offered, a, givesUp, Answered(t, s, offered, a, givesUp))
  {
  }

  function MarkerOf(t: Tracked): Marker { Marker(t.last, t.gcRefused) }

  function Loaded(t: Tracked, m: Option<Marker>): Tracked {
    if t.loaded then t
    else if m.None? then t.(loaded := true)
    else t.(loaded := true, last := m.value.snap, uploaded := true, gcRefused := m.value.gcRefused,
            handled := Some(Stat(m.value.snap)))
  }

  function OnDisk(disk: map<Id, Marker>, id: Id): Option<Marker> {
    if id in disk && disk[id].snap.hash != "" then Some(disk[id]) else None
  }

  datatype Step =
    | Track(id: Id)
    | Untrack(id: Id)
    | Forget(id: Id)
    | Load(id: Id)
    | Repeat(id: Id, snap: Snapshot)                                        // the bytes are the ones handled last
    | Answer(id: Id, snap: Snapshot, offered: string, answer: Reupload.Answer, givesUp: bool)
    | Persist(id: Id, marker: Marker, works: bool)
    | Restart

  predicate Enabled(y: System, t: Step) {
    match t
    case Track(id) => id !in y.files
    case Load(id) => id in y.files
    case Repeat(id, s) => id in y.files && Unchanged(y.files[id], s)
    case Answer(_, s, _, _, _) => s.hash != ""
    case Persist(id, m, _) => (id, m) in y.writing
    case _ => true
  }

  function After(y: System, t: Step): System
    requires Enabled(y, t)
  {
    match t
    case Track(id) => y.(files := y.files[id := UNTOUCHED])
    case Untrack(id) => y.(files := y.files - {id})
    case Forget(id) => y.(files := y.files - {id}, disk := y.disk - {id})
    case Load(id) => y.(files := y.files[id := Loaded(y.files[id], OnDisk(y.disk, id))])
    case Repeat(id, s) =>
      var t := y.files[id];
      if t.uploaded then
        var t' := t.(last := s, handled := Some(Stat(s)), owed := false);
        y.(files := y.files[id := t'], writing := y.writing + {(id, MarkerOf(t'))})
      else y.(files := y.files[id := t.(handled := Some(Stat(s)), owed := false)])
    case Answer(id, s, offered, a, givesUp) =>
      var log := y.log + {Post(id, s.hash, offered, a)};
      if id !in y.files then y.(log := log)
      else
        var t' := Answered(y.files[id], s, offered, a, givesUp);
        y.(log := log, files := y.files[id := t'],
           writing := if Takes(a) then y.writing + {(id, MarkerOf(t'))} else y.writing)
    case Persist(id, m, works) =>
      y.(writing := y.writing - {(id, m)}, disk := if works then y.disk[id := m] else y.disk)
    case Restart => y.(files := map[], writing := {})
  }

  predicate CanRun(y: System, ts: seq<Step>)
    decreases |ts|
  {
    ts != [] ==> Enabled(y, ts[0]) && CanRun(After(y, ts[0]), ts[1..])
  }

  function Ran(y: System, ts: seq<Step>): System
    requires CanRun(y, ts)
    decreases |ts|
  {
    if ts == [] then y else Ran(After(y, ts[0]), ts[1..])
  }

  /** The collector was sent these bytes of this transcript and took them. */
  ghost predicate Taken(log: set<Post>, id: Id, hash: string) {
    exists p :: p in log && p.id == id && p.hash == hash && Takes(p.answer)
  }

  /** Everything that is, or may become, a marker names bytes the collector took. */
  ghost predicate MarkersTrue(y: System) {
    && (forall id :: id in y.disk ==> Taken(y.log, id, y.disk[id].snap.hash))
    && (forall w :: w in y.writing ==> Taken(y.log, w.0, w.1.snap.hash))
    && (forall id :: id in y.files && y.files[id].uploaded ==> Taken(y.log, id, y.files[id].last.hash))
  }

  lemma TakenStays(log: set<Post>, more: set<Post>, id: Id, hash: string)
    requires log <= more && Taken(log, id, hash)
    ensures Taken(more, id, hash)
  {
    var p :| p in log && p.id == id && p.hash == hash && Takes(p.answer);
    assert p in more;
  }

  lemma StepKeepsMarkersTrue(y: System, t: Step)
    requires MarkersTrue(y) && Enabled(y, t)
    ensures MarkersTrue(After(y, t))
  {
    if t.Answer? {
      var y' := After(y, t);
      forall id, hash | Taken(y.log, id, hash) ensures Taken(y'.log, id, hash) {
        TakenStays(y.log, y'.log, id, hash);
      }
      assert Takes(t.answer) ==> Taken(y'.log, t.id, t.snap.hash) by {
        assert Post(t.id, t.snap.hash, t.offered, t.answer) in y'.log;
      }
    }
  }

  lemma {:induction false} RunKeepsMarkersTrue(y: System, ts: seq<Step>)
    requires MarkersTrue(y) && CanRun(y, ts)
    ensures MarkersTrue(Ran(y, ts))
    decreases |ts|
  {
    if ts != [] {
      StepKeepsMarkersTrue(y, ts[0]);
      RunKeepsMarkersTrue(After(y, ts[0]), ts[1..]);
    }
  }

  /** Markers mean acceptance, over every interleaving and any number of restarts: bytes the collector never
      took are in no marker on disk, so what it refused for good is probed again by the next run. */
  lemma MarkersMeanAcceptance(y: System, ts: seq<Step>, id: Id)
    requires y.files == map[] && y.writing == {} && y.disk == map[]
    requires CanRun(y, ts) && id in Ran(y, ts).disk
    ensures exists p :: p in Ran(y, ts).log && p.id == id && p.hash == Ran(y, ts).disk[id].snap.hash
                        && p.answer.Status?
                        && (p.answer.code == 200 || p.answer.code == 201
                            || (p.answer.code == 409 && !p.answer.bindingConflict))
  {
    RunKeepsMarkersTrue(y, ts);
    assert Taken(Ran(y, ts).log, id, Ran(y, ts).disk[id].snap.hash);
  }

  /** What a restart remembers: once the transcript is tracked and its marker loaded, exactly the bytes and the
      binding the marker names need no upload, and a binding refused before stays refused. */
  lemma RestartRemembers(y: System, id: Id, s: Snapshot)
    requires id in y.disk && y.disk[id].snap.hash != ""
    ensures
      var m := y.disk[id];
      var t := After(After(After(y, Restart), Track(id)), Load(id)).files[id];
      && (Unchanged(t, s) <==> s.hash == m.snap.hash && s.gc == m.snap.gc)
      && t.gcRefused == m.gcRefused && t.uploaded && t.handled == Some((m.snap.size, m.snap.mod, m.snap.gc))
  {
  }

  /** What can happen to a transcript's state while its POST is away. */
  datatype Meanwhile = Stays | Gone | Anew

  datatype World = World(consented: nat -> bool, meanwhile: nat -> Meanwhile, withdrawn: nat -> bool,
                         answers: nat -> Answer,
                         persists: bool)

  /** One POST; a second one, without the binding, exactly when the first was answered that the binding is
      refused; each only if consent still covers it. */
  predicate Posts(posts: seq<Post>, id: Id, hash: string, offered: string, k: nat, w: World) {
    if !w.consented(k) then posts == []
    else
      && posts != [] && posts[0] == Post(id, hash, offered, w.answers(k))
      && if w.answers(k).Status? && w.answers(k).code == 409 && w.answers(k).bindingConflict && offered != ""
            && w.consented(k + 1) then
           |posts| == 2 && posts[1] == Post(id, hash, "", w.answers(k + 1))
         else |posts| == 1
  }

  /** What the last POST leaves behind: of the transcript's state t, of the disk and of the conflict count.
      Only 200, 201 and a 409 that is no binding conflict reach the disk. */
  predicate Recorded(p: Post, s: Snapshot, persists: bool, t: Option<Tracked>, disk: map<Id, Marker>, conflicts: nat,
                     wasDisk: map<Id, Marker>, wasConflicts: nat) {
    var a := p.answer;
    var taken := a.Status? && (a.code in {200, 201} || (a.code == 409 && !a.bindingConflict));
    var bound := a.Status? && a.code == 409 && a.bindingConflict;
    && (t.Some? && taken ==> t.value.uploaded && t.value.last == s && !t.value.owed)
    && (t.Some? && ((a.Status? && a.code in {400, 413, 422}) || (bound && p.offered == "")) ==>
          !t.value.uploaded && t.value.last.hash == s.hash)
    && (t.Some? && bound && p.offered != "" ==> t.value.gcRefused)
    && disk == (if t.Some? && taken && persists then wasDisk[p.id := MarkerOf(t.value)] else wasDisk)
    && conflicts == (if bound && p.offered == "" then wasConflicts + 1 else wasConflicts)
  }

  lemma LogGrows(log: set<Post>, more: set<Post>)
    requires log <= more
    ensures forall id, hash :: Taken(log, id, hash) ==> Taken(more, id, hash)
  {
    forall id, hash | Taken(log, id, hash) ensures Taken(more, id, hash) {
      TakenStays(log, more, id, hash);
    }
  }

  class Uploader {
    var files: map<Id, Tracked>
    var disk: map<Id, Marker>
    var identityConflicts: nat
    ghost var log: set<Post>

    ghost function Now(): System
      reads this
    {
      System(files, {}, disk, log)
    }

    ghost function StateOf(id: Id): Option<Tracked>
      reads this
    {
      if id in files then Some(files[id]) else None
    }

    method PersistMarker(id: Id, m: Marker, works: bool)
      modifies this`disk
      ensures disk == if works then old(disk)[id := m] else old(disk)
    {
      if works {
        disk := disk[id := m];
      }
    }

    method Elsewhere(id: Id, happens: Meanwhile)
      modifies this`files
      ensures files == match happens {
                         case Stays => old(files)
                         case Gone => old(files) - {id}
                         case Anew => old(files)[id := UNTOUCHED]
                       }
    {
      match happens
      case Stays =>
      case Gone => files := files - {id};
      case Anew => files := files[id := UNTOUCHED];
    }

    /** The bytes are the ones handled last: nothing is sent, and the marker is refreshed only when they were
        accepted. */
    method Repeat(id: Id, s: Snapshot, persists: bool)
      requires id in files && Unchanged(files[id], s) && MarkersTrue(Now())
      modifies this`files, this`disk
      ensures MarkersTrue(Now())
      ensures
        var was := old(files)[id];
        files == old(files)[id := was.(last := if was.uploaded then s else was.last, handled := Some(Stat(s)),
                                       owed := false)]
      ensures disk == if old(files)[id].uploaded && persists then old(disk)[id := Marker(s, old(files)[id].gcRefused)]
              else old(disk)
    {
      var was := files[id];
      if was.uploaded {
        files := files[id := was.(last := s, handled := Some(Stat(s)), owed := false)];
        PersistMarker(id, MarkerOf(files[id]), persists);
      } else {
        files := files[id := was.(handled := Some(Stat(s)), owed := false)];
      }
    }

    /** processOne, once the transcript is read and screened. */
    method Process(id: Id, s: Snapshot, w: World, givesUp: bool) returns (ghost posts: seq<Post>)
      requires s.hash != "" && MarkersTrue(Now())
      modifies this
      ensures MarkersTrue(Now()) && log == old(log) + set p | p in posts
      ensures
        var same := id in old(files) && s.hash == old(files)[id].last.hash && s.gc == old(files)[id].last.gc;
        && (id !in old(files) || same ==> posts == [])
        && (id in old(files) && !same ==>
              Posts(posts, id, s.hash, if old(files)[id].gcRefused then "" else s.gc, 0, w))
    {
      posts := [];
      if id !in files {
      } else if Unchanged(files[id], s) {
        Repeat(id, s, w.persists);
      } else {
        posts := PostSnapshot(id, s, if files[id].gcRefused then "" else s.gc, 0, w, givesUp);
      }
    }

    /** postSnapshot. answers, and what consent and the other loops do meanwhile, are numbered by POST;
        posts lists those made. */
    method PostSnapshot(id: Id, s: Snapshot, offered: string, k: nat, w: World, givesUp: bool)
      returns (ghost posts: seq<Post>)
      requires s.hash != "" && MarkersTrue(Now())
      modifies this
      ensures MarkersTrue(Now())
      ensures log == old(log) + (set p | p in posts) && files - {id} == old(files) - {id}
      ensures Posts(posts, id, s.hash, offered, k, w)
      ensures posts == [] ==> id !in files && disk == old(disk) && identityConflicts == old(identityConflicts)
      ensures posts != [] ==>
        Recorded(posts[|posts| - 1], s, w.persists, StateOf(id), disk, identityConflicts, old(disk),
                 old(identityConflicts))
      decreases offered != ""
    {
      posts := [];
      if !w.consented(k) {
        files := files - {id};
        return;
      }
      var a := w.answers(k);
      posts := [Post(id, s.hash, offered, a)];
      Return(id, s, offered, k, w, givesUp);
      if BindingRefused(a, offered) {
        ghost var more := PostSnapshot(id, s, "", k + 1, w, givesUp);
        ghost var first := posts;
        posts := first + more;
        assert forall p :: p in posts <==> p == first[0] || p in more;
      } else {
        assert forall p :: p in posts <==> p == posts[0];
      }
    }

    /** The request is back, answered or not. */
    method Return(id: Id, s: Snapshot, offered: string, k: nat, w: World, givesUp: bool)
      requires s.hash != "" && MarkersTrue(Now())
      modifies this
      ensures MarkersTrue(Now()) && log == old(log) + {Post(id, s.hash, offered, w.answers(k))}
      ensures files - {id} == old(files) - {id}
      ensures Recorded(Post(id, s.hash, offered, w.answers(k)), s, w.persists, StateOf(id), disk, identityConflicts,
                       old(disk), old(identityConflicts))
    {
      Elsewhere(id, w.meanwhile(k));
      var a := w.answers(k);
      if w.withdrawn(k) && !a.Status? {
        log := log + {Post(id, s.hash, offered, a)};
        files := files - {id};
        LogGrows(old(log), log);
      } else {
        Settle(id, s, offered, a, w, givesUp);
      }
    }

    /** The switch over the collector's answer. */
    method Settle(id: Id, s: Snapshot, offered: string, a: Answer, w: World, givesUp: bool)
      requires s.hash != "" && MarkersTrue(Now())
      modifies this
      ensures MarkersTrue(Now()) && log == old(log) + {Post(id, s.hash, offered, a)}
      ensures files == if id in old(files) then old(files)[id := Answered(old(files)[id], s, offered, a, givesUp)]
              else old(files)
      ensures id in old(files) ==> SettlesBy(old(files)[id], s, offered, a, givesUp, files[id])
      ensures Recorded(Post(id, s.hash, offered, a), s, w.persists, StateOf(id), disk, identityConflicts,
                       old(disk), old(identityConflicts))
    {
      hide Taken, SettlesBy;
      ghost var before := Now();
      ghost var t := Step.Answer(id, s, offered, a, givesUp);
      StepKeepsMarkersTrue(before, t);
      log := log + {Post(id, s.hash, offered, a)};
      if id in files {
        AnsweredByCode(files[id], s, offered, a, givesUp);
        files := files[id := Answered(files[id], s, offered, a, givesUp)];
      }
      ghost var settled := After(before, t);
      assert settled.(writing := {}) == Now();
      if Takes(a) {
        if id in files {
          StepKeepsMarkersTrue(settled, Persist(id, MarkerOf(files[id]), w.persists));
          PersistMarker(id, MarkerOf(files[id]), w.persists);
        }
      } else if IsConflict(a) && !BindingRefused(a, offered) {
        identityConflicts := identityConflicts + 1;
      }
    }
  }
}
