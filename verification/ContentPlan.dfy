/** What one plan of the content uploader does with each tracked transcript (internal/observer/daemon
    content.go, content_pending.go): whether it is looked at, under which session, whether a record of it
    is owed and whether its upload is ready. */
module ContentPlan {
  import opened Common
  import opened Intervals
  import opened ContentConsent

  datatype Session = Session(native: string, provider: string)

  /** size and mod are the transcript's when the record was written. */
  datatype PendingRecord = PendingRecord(session: Session, origin: Origin, locator: string, size: nat, mod: int)

  /** One tracked transcript as a plan finds it: live is the session the sink threaded, record the pending
      record loaded for it, marker the session of its last upload (native "" before any), named what its
      name says. */
  datatype View = View(observed: bool, handled: bool, size: nat, mod: int, live: Option<Session>,
                       record: Option<PendingRecord>, marker: Session, uploaded: bool, named: Option<Session>,
                       path: string, locator: string, stableFor: int)

  datatype Rules = Rules(validHeaders: (Session, string) -> bool, refusesName: (string, string) -> bool, debounce: int)

  /** The session to key the content by: threaded, then recorded, then uploaded under, then named. */
  function Resolved(v: View): (s: Option<Session>)
    ensures v.live.Some? ==> s == v.live
    ensures v.live.None? && v.record.Some? ==> s == Some(v.record.value.session)
    ensures v.live.None? && v.record.None? ==> s == if v.marker.native == "" then v.named else Some(v.marker)
  {
    if v.live.Some? then v.live
    else if v.record.Some? then Some(v.record.value.session)
    else if v.marker.native != "" then Some(v.marker)
    else v.named
  }

  /** The session of a transcript that is to be sent, once it is stable. */
  function Wanted(v: View, rules: Rules): Option<Session> {
    if !v.observed || v.handled then None
    else
      match Resolved(v)
      case None => None
      case Some(s) => if rules.validHeaders(s, v.path) && !rules.refusesName(s.provider, v.path) then Some(s) else None
  }

  predicate Names(r: PendingRecord, o: Origin, locator: string) { r.origin == o && r.locator == locator }

  /** A restart could key it already: by its marker or by the record it has. */
  predicate Keyed(v: View, o: Origin, s: Session) {
    || (v.uploaded && v.marker == s)
    || (v.record.Some? && v.record.value.session == s && Names(v.record.value, o, v.locator))
  }

  predicate Owes(v: View, o: Origin, rules: Rules) {
    var s := Wanted(v, rules);
    s.Some? && !Keyed(v, o, s.value)
  }

  predicate Ready(v: View, rules: Rules) {
    Wanted(v, rules).Some? && v.stableFor >= rules.debounce
  }

  /** It has a session, but what it would be sent under or the file itself is refused: settled unsent. */
  predicate Unsendable(v: View, rules: Rules) {
    v.observed && !v.handled && Resolved(v).Some? && Wanted(v, rules).None?
  }

  function OwedIds(files: map<Id, Tracked>, views: Id -> View, rules: Rules): set<Id> {
    set id | id in files && Owes(views(id), files[id].origin, rules)
  }

  function ReadyIds(files: map<Id, Tracked>, views: Id -> View, rules: Rules): set<Id> {
    set id | id in files && Ready(views(id), rules)
  }

  function UnsendableIds(files: map<Id, Tracked>, views: Id -> View, rules: Rules): set<Id> {
    set id | id in files && Unsendable(views(id), rules)
  }

  /** A record is loaded only for the file it was written for: the same name under the same consent, and not
      a smaller or an older one that reused its identity. */
  predicate Loads(r: PendingRecord, o: Origin, locator: string, size: nat, mod: int) {
    Names(r, o, locator) && size >= r.size && mod >= r.mod
  }

  /** The record on disk once the plan's records are written. */
  function Written(v: View, disk: Option<PendingRecord>, o: Origin, rules: Rules): Option<PendingRecord> {
    if Owes(v, o, rules) then Some(PendingRecord(Wanted(v, rules).value, o, v.locator, v.size, v.mod)) else disk
  }

  /** The identity as a restarted daemon first plans it: no threaded session, the record on disk if it loads. */
  function Restarted(v: View, disk: Option<PendingRecord>, o: Origin, size: nat, mod: int): View {
    v.(live := None, size := size, mod := mod,
       record := if disk.Some? && Loads(disk.value, o, v.locator, size, mod) then disk else None)
  }

  /** A record in memory is the one on disk, written for the file when it was no larger and no newer. */
  predicate Coherent(v: View, disk: Option<PendingRecord>) {
    v.record.Some? ==> disk == v.record && v.record.value.size <= v.size && v.record.value.mod <= v.mod
  }

  /** Owed content survives a restart, however the transcript grew meanwhile: with the records of one plan
      written it is keyed by the same session, except exactly when the marker already names that session
      while a record on disk that loads names another one, and then by the record's. */
  lemma RestartKeysAlike(v: View, disk: Option<PendingRecord>, o: Origin, rules: Rules, size: nat, mod: int)
    requires Wanted(v, rules).Some? && Wanted(v, rules).value.native != "" && Coherent(v, disk)
    requires size >= v.size && mod >= v.mod
    ensures Resolved(Restarted(v, Written(v, disk, o, rules), o, size, mod)) == Wanted(v, rules)
       <==> (Owes(v, o, rules) || disk.None? || !Loads(disk.value, o, v.locator, size, mod)
             || disk.value.session == Wanted(v, rules).value)
  {
  }

  /** And a smaller or older file under the same identity and name is never keyed by what was owed for the
      one before it. */
  lemma ReusedFileIsNotKeyed(v: View, disk: Option<PendingRecord>, o: Origin, rules: Rules, size: nat, mod: int)
    requires Owes(v, o, rules) && (size < v.size || mod < v.mod)
    ensures Resolved(Restarted(v, Written(v, disk, o, rules), o, size, mod))
         == if v.marker.native != "" then Some(v.marker) else v.named
  {
  }

  /** What a restart keys a transcript by, marker and name aside: the session of the record on disk, exactly if
      that was written under the same consent for the same name, of a file no larger and no newer. */
  lemma RestartLoads(v: View, disk: Option<PendingRecord>, o: Origin, size: nat, mod: int)
    requires v.marker.native == "" && v.named.None?
    ensures
      var key := Resolved(Restarted(v, disk, o, size, mod));
      && (key.Some? <==>
            && disk.Some? && disk.value.origin == o && disk.value.locator == v.locator
            && disk.value.size <= size && disk.value.mod <= mod)
      && (key.Some? ==> key.value == disk.value.session)
  {
  }
}
