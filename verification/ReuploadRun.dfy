/** One pass of the re-upload tool over its markers, and what any number of passes over one journal do. */
module ReuploadRun {
  import opened Common
  import opened Reupload

  datatype Name = Name(native: string, provider: string)

  datatype Marker = Marker(id: Id, sha: string, size: nat, native: string, provider: string, gcSession: string,
                           gcRefused: bool, uploadedAt: Option<int>)

  /** A transcript found under the roots; name is what its file name says, when it says anything. */
  datatype File = File(path: string, name: Option<Name>)

  datatype Config = Config(before: Option<int>, ids: set<string>, provider: string, limit: nat, maxFails: nat,
                           maxConflicts: nat, dryRun: bool, lowerUuid: string -> bool,
                           validHeaders: (string, string, string) -> bool, refusesName: (string, string) -> bool,
                           refusesContent: Bytes -> bool, hash: Bytes -> string)

  predicate ConfigOk(c: Config) {
    c.maxFails > 0 && c.maxConflicts > 0
  }

  datatype Item = Item(marker: Marker, path: string)

  /** What becomes of a selected, unsettled marker before its transcript is opened. */
  datatype Fate = Missing | Mismatched | Unkeyed | GuardedName | Ready(item: Item)

  predicate Selects(c: Config, m: Marker) {
    && (c.provider == "" || m.provider == c.provider)
    && ((m.native in c.ids && m.native != "") ||
        (c.before.Some? && m.uploadedAt.Some? && m.uploadedAt.value < c.before.value))
  }

  predicate NameContradicts(c: Config, m: Marker, n: Name) {
    || (m.provider != "" && n.provider != m.provider)
    || (n.provider == "codex" && c.lowerUuid(m.native) && n.native != m.native)
  }

  function Keyed(m: Marker, name: Option<Name>): Marker {
    if m.native == "" && name.Some? then m.(native := name.value.native, provider := name.value.provider) else m
  }

  function FateOf(c: Config, files: map<Id, File>, m: Marker): Fate {
    if m.id !in files then Missing
    else
      var f := files[m.id];
      var k := Keyed(m, f.name);
      if f.name.Some? && NameContradicts(c, m, f.name.value) then Mismatched
      else if !c.validHeaders(k.native, k.provider, f.path) then Unkeyed
      else if c.refusesName(k.provider, f.path) then GuardedName
      else Ready(Item(k, f.path))
  }

  datatype Report = Report(markers: nat, selected: nat, done: nat, located: nat, missing: nat, mismatch: nat,
                           unkeyed: nat, guarded: nat, oversize: nat, readErrors: nat, sent: nat, accepted: nat,
                           duplicate: nat, rejected: nat, conflict: nat, failed: nat, markerErrors: nat)

  const BLANK := Report(0, 0, 0, 0, 0, 0, 0, 0, 0, 0, 0, 0, 0, 0, 0, 0, 0)

  /** The selected markers no earlier pass settled. */
  function Pending(c: Config, done: set<Id>, markers: seq<Marker>): (pending: seq<Marker>)
    ensures |pending| <= |markers|
  {
    if markers == [] then []
    else
      var m := markers[|markers| - 1];
      Pending(c, done, markers[..|markers| - 1]) + if Selects(c, m) && m.id !in done then [m] else []
  }

  function SettledCount(c: Config, done: set<Id>, markers: seq<Marker>): nat {
    if markers == [] then 0
    else
      var m := markers[|markers| - 1];
      SettledCount(c, done, markers[..|markers| - 1]) + if Selects(c, m) && m.id in done then 1 else 0
  }

  /** What there is to send of them, in the same order. */
  function ReadyItems(c: Config, files: map<Id, File>, pending: seq<Marker>): (items: seq<Item>)
    ensures |items| <= |pending|
  {
    if pending == [] then []
    else
      var last := FateOf(c, files, pending[|pending| - 1]);
      ReadyItems(c, files, pending[..|pending| - 1]) + if last.Ready? then [last.item] else []
  }

  function FateCount(c: Config, files: map<Id, File>, pending: seq<Marker>, fate: Fate): nat {
    if pending == [] then 0
    else
      var less := FateCount(c, files, pending[..|pending| - 1], fate);
      if FateOf(c, files, pending[|pending| - 1]) == fate then less + 1 else less
  }

  ghost predicate Distinct(markers: seq<Marker>) {
    forall i, j :: 0 <= i < j < |markers| ==> markers[i].id != markers[j].id
  }

  /** Every item stands for one of the markers, unsettled, and no two for the same. */
  ghost predicate Plans(done: set<Id>, markers: seq<Marker>, items: seq<Item>) {
    && (forall i, j :: 0 <= i < j < |items| ==> items[i].marker.id != items[j].marker.id)
    && (forall i :: 0 <= i < |items| ==> items[i].marker.id !in done && Standing(markers, items[i].marker))
  }

  ghost predicate Standing(markers: seq<Marker>, m: Marker) {
    exists k :: 0 <= k < |markers| && SameRecord(markers[k], m)
  }

  predicate SameRecord(a: Marker, b: Marker) {
    a.id == b.id && a.sha == b.sha && a.size == b.size
  }

  lemma {:induction false} PendingStands(c: Config, done: set<Id>, markers: seq<Marker>)
    requires Distinct(markers)
    ensures Distinct(Pending(c, done, markers))
    ensures forall m :: m in Pending(c, done, markers) ==> m in markers && m.id !in done
  {
    if markers != [] {
      PendingStands(c, done, markers[..|markers| - 1]);
    }
  }

  lemma {:induction false} ReadyItemsPlan(c: Config, done: set<Id>, files: map<Id, File>, pending: seq<Marker>)
    requires Distinct(pending) && forall m :: m in pending ==> m.id !in done
    ensures Plans(done, pending, ReadyItems(c, files, pending))
  {
    if pending != [] {
      var n := |pending| - 1;
      var less := ReadyItems(c, files, pending[..n]);
      ReadyItemsPlan(c, done, files, pending[..n]);
      forall i | 0 <= i < |less|
        ensures Standing(pending, less[i].marker) && less[i].marker.id != pending[n].id
      {
        var k :| 0 <= k < n && SameRecord(pending[..n][k], less[i].marker);
        assert SameRecord(pending[k], less[i].marker);
      }
      var last := FateOf(c, files, pending[n]);
      if last.Ready? {
        assert SameRecord(pending[n], last.item.marker);
      }
    }
  }

  /** What reading one transcript gives; size is its size when it was opened. */
  datatype Reading = TooLarge | Unreadable | Content(body: Bytes, size: nat)

  datatype World = World(cancelled: nat -> bool, reading: nat -> Reading, paces: nat -> bool,
                         answers: nat -> nat -> Answer,
                         sleeps: nat -> nat -> bool, markerWrites: nat -> bool, journalWrites: nat -> bool,
                         journalLands: nat -> bool)

  /** What the pass did with one item. */
  datatype Visit =
    | Oversize
    | Unread
    | NotTheTranscript
    | GuardedContent
    | Sent(body: Bytes, size: nat, offers: seq<string>, outcome: Outcome, code: nat, marked: bool)

  /** content is the transcript the marker recorded, grown or not. */
  predicate PrefixMatches(hash: Bytes -> string, m: Marker, content: Bytes) {
    0 < m.size <= |content| && m.sha != "" && hash(content[..m.size]) == m.sha
  }

  predicate Took(v: Visit) { v.Sent? && (v.outcome == Accepted || v.outcome == GcRefused) }

  /** Nothing is left to do for the item, as far as the journal is concerned. */
  predicate Settles(v: Visit) {
    v.Oversize? || (Took(v) && v.marked) || (v.Sent? && v.outcome == Rejected)
  }

  /** v is what the world makes of item k. */
  ghost predicate Visits(c: Config, w: World, k: nat, it: Item, v: Visit) {
    match w.reading(k)
    case TooLarge => v == Oversize
    case Unreadable => v == Unread
    case Content(body, size) =>
      if !PrefixMatches(c.hash, it.marker, body) then v == NotTheTranscript
      else if c.refusesContent(body) then v == GuardedContent
      else
        v.Sent? && v.body == body && v.size == size && v.marked == (Took(v) && w.markerWrites(k)) &&
            SentAs(w, k, it.marker, v)
  }

  /** v says how the POSTs of item k went. */
  ghost predicate SentAs(w: World, k: nat, m: Marker, v: Visit)
    requires v.Sent?
  {
    && v.offers != []
    && v.offers[0] == (if m.gcRefused then "" else m.gcSession)
    && Retried(w.answers(k), v.offers)
    && var n := |v.offers|;
       var a := w.answers(k)(n - 1);
       && Classified(v.offers[0], v.offers[n - 1], a, n, w.sleeps(k)(n), v.outcome)
       && v.code == (if a.Status? then a.code else 0)
  }

  function NewMarker(hash: Bytes -> string, m: Marker, v: Visit, now: int): Marker
    requires v.Sent?
  {
    m.(sha := hash(v.body), size := v.size, gcRefused := m.gcRefused || v.outcome == GcRefused, uploadedAt := Some(now))
  }

  datatype Error = ContextEnded | JournalFailed | CollectorRefused | TooManyConflicts | TooManyFailures

  /** Failures since the last answer of any other kind. */
  function FailStreak(visits: seq<Visit>): nat {
    if visits == [] then 0
    else
      var before := FailStreak(visits[..|visits| - 1]);
      match visits[|visits| - 1]
      case Sent(_, _, _, outcome, _, _) =>
        (match outcome
         case Failed => before + 1
         case Accepted => 0
         case GcRefused => 0
         case Rejected => 0
         case Conflict => 0
         case Refused => before
         case Stopped => before)
      case _ => before
  }

  /** Conflicts and rejections since the last acceptance. */
  function ConflictStreak(visits: seq<Visit>): nat {
    if visits == [] then 0
    else
      var before := ConflictStreak(visits[..|visits| - 1]);
      match visits[|visits| - 1]
      case Sent(_, _, _, outcome, _, _) =>
        (match outcome
         case Accepted => 0
         case GcRefused => 0
         case Rejected => before + 1
         case Conflict => before + 1
         case Failed => before
         case Refused => before
         case Stopped => before)
      case _ => before
  }

  /** The counters after one more visit. */
  function Counted(r: Report, v: Visit): Report {
    match v
    case Oversize => r.(oversize := r.oversize + 1)
    case Unread => r.(readErrors := r.readErrors + 1)
    case NotTheTranscript => r.(mismatch := r.mismatch + 1)
    case GuardedContent => r.(guarded := r.guarded + 1)
    case Sent(_, _, _, outcome, code, marked) =>
      var s := r.(sent := r.sent + 1);
      match outcome
      case Rejected => s.(rejected := s.rejected + 1)
      case Conflict => s.(conflict := s.conflict + 1)
      case Failed => s.(failed := s.failed + 1)
      case Refused => s
      case Stopped => s
      case _ =>
        s.(accepted := s.accepted + 1,
           duplicate := if code == 200 then s.duplicate + 1 else s.duplicate,
           markerErrors := if marked then s.markerErrors else s.markerErrors + 1)
  }

  /** A pass under way. */
  datatype State = State(rep: Report, journal: set<Id>, markers: map<Id, Marker>, fails: nat, conflicts: nat)

  /** Why the pass ends after this visit, if it does. */
  function StopAfter(c: Config, v: Visit, journaled: bool, s: State): Option<Error> {
    if v.Sent? && v.outcome == Stopped then Some(ContextEnded)
    else if v.Sent? && v.outcome == Refused then Some(CollectorRefused)
    else if Settles(v) && !journaled then Some(JournalFailed)
    else if v.Sent? && (v.outcome == Rejected || v.outcome == Conflict) && s.conflicts >= c.maxConflicts then
      Some(TooManyConflicts)
    else if v.Sent? && v.outcome == Failed && s.fails >= c.maxFails then Some(TooManyFailures)
    else None
  }

  ghost predicate Visited(c: Config, w: World, k: nat, it: Item, now: int, v: Visit, s: State, s': State) {
    Visits(c, w, k, it, v) && Recorded(c, w, k, it, now, v, s, s')
  }

  /** Everything a visit changes. */
  predicate Recorded(c: Config, w: World, k: nat, it: Item, now: int, v: Visit, s: State, s': State) {
    && s'.rep == Counted(s.rep, v)
    && s'.journal == (if Settles(v) && (w.journalWrites(k) || w.journalLands(k)) then s.journal + {it.marker.id}
                      else s.journal)
    && s'.markers == (if v.Sent? && v.marked then s.markers[it.marker.id := NewMarker(c.hash, it.marker, v, now)]
                      else s.markers)
    && s'.fails == (if v.Sent? && v.outcome == Failed then s.fails + 1
                    else if v.Sent? && v.outcome != Refused && v.outcome != Stopped then 0 else s.fails)
    && s'.conflicts == (if v.Sent? && (v.outcome == Rejected || v.outcome == Conflict) then s.conflicts + 1
                        else if Took(v) then 0 else s.conflicts)
  }

  /** The counters once the items are chosen. */
  predicate Planned(r: Report, items: seq<Item>) {
    && r.selected == r.done + r.missing + r.located
    && r.located == r.mismatch + r.unkeyed + r.guarded + |items|
    && r.oversize == r.readErrors == r.sent == r.accepted == r.duplicate == 0
    && r.rejected == r.conflict == r.failed == r.markerErrors == 0
  }

  /** states[k] is the pass before visit k, each visit but the last letting it go on. */
  ghost predicate Steps(c: Config, w: World, items: seq<Item>, now: int, states: seq<State>, visits: seq<Visit>) {
    && |visits| <= |items| && |states| == |visits| + 1
    && forall k :: 0 <= k < |visits| ==> Visited(c, w, k, items[k], now, visits[k], states[k], states[k + 1])
  }

  function StopAt(c: Config, w: World, states: seq<State>, visits: seq<Visit>, k: nat): Option<Error>
    requires k < |visits| && |states| == |visits| + 1
  {
    StopAfter(c, visits[k], w.journalWrites(k), states[k + 1])
  }

  ghost predicate GoesOn(c: Config, w: World, items: seq<Item>, now: int, states: seq<State>, visits: seq<Visit>) {
    && Steps(c, w, items, now, states, visits)
    && (forall k :: 0 <= k < |visits| ==> StopAt(c, w, states, visits, k) == None)
    && WithinLimit(c, states, |visits|)
  }

  /** Each of the first n visits began short of the limit. */
  predicate WithinLimit(c: Config, states: seq<State>, n: nat) {
    c.limit > 0 && n <= |states| ==> forall k :: 0 <= k < n ==> states[k].rep.sent < c.limit
  }

  lemma OneMoreVisit(c: Config, w: World, items: seq<Item>, now: int, states: seq<State>, visits: seq<Visit>, v: Visit,
                     s: State)
    requires GoesOn(c, w, items, now, states, visits) && |visits| < |items|
    requires Visited(c, w, |visits|, items[|visits|], now, v, states[|visits|], s)
    requires c.limit == 0 || states[|visits|].rep.sent < c.limit
    ensures
      var stop := StopAfter(c, v, w.journalWrites(|visits|), s);
      if stop.Some? then Passes(c, w, items, now, states + [s], visits + [v], stop)
      else GoesOn(c, w, items, now, states + [s], visits + [v])
  {
    var states', visits' := states + [s], visits + [v];
    forall k | 0 <= k < |visits'|
      ensures Visited(c, w, k, items[k], now, visits'[k], states'[k], states'[k + 1])
    {
      if k < |visits| {
        assert Visited(c, w, k, items[k], now, visits[k], states[k], states[k + 1]);
      }
    }
    forall k | 0 <= k < |visits|
      ensures StopAt(c, w, states', visits', k) == None
    {
      assert StopAt(c, w, states, visits, k) == None;
    }
    assert StopAt(c, w, states', visits', |visits|) == StopAfter(c, v, w.journalWrites(|visits|), s);
  }

  /** A whole sending pass and why it ended: a visit stopped it; or the context did, between two visits; or
      it ran out of items, or reached its limit. */
  ghost predicate Passes(c: Config, w: World, items: seq<Item>, now: int, states: seq<State>, visits: seq<Visit>,
                         err: Option<Error>) {
    && Steps(c, w, items, now, states, visits)
    && (forall k :: 0 <= k < |visits| - 1 ==> StopAt(c, w, states, visits, k) == None)
    && WithinLimit(c, states, |visits|)
    && var n := |visits|;
       if n > 0 && StopAt(c, w, states, visits, n - 1).Some? then err == StopAt(c, w, states, visits, n - 1)
       else if err == None then n == |items| || (c.limit > 0 && states[n].rep.sent >= c.limit)
       else err == Some(ContextEnded) && n < |items|
  }

  function Placed(r: Report, fate: Fate): Report {
    match fate
    case Missing => r.(missing := r.missing + 1)
    case Mismatched => r.(located := r.located + 1, mismatch := r.mismatch + 1)
    case Unkeyed => r.(located := r.located + 1, unkeyed := r.unkeyed + 1)
    case GuardedName => r.(located := r.located + 1, guarded := r.guarded + 1)
    case Ready(_) => r.(located := r.located + 1)
  }

  predicate Screened(r: Report, c: Config, files: map<Id, File>, pending: seq<Marker>) {
    && r.missing == FateCount(c, files, pending, Missing)
    && r.located == |pending| - r.missing
    && r.mismatch == FateCount(c, files, pending, Mismatched)
    && r.unkeyed == FateCount(c, files, pending, Unkeyed)
    && r.guarded == FateCount(c, files, pending, GuardedName)
  }

  /** r and items are what the first i pending markers come to, starting from base. */
  predicate LocatedTo(c: Config, files: map<Id, File>, pending: seq<Marker>, i: nat, base: Report, r: Report,
                      items: seq<Item>)
    requires i <= |pending|
  {
    && items == ReadyItems(c, files, pending[..i])
    && Screened(r, c, files, pending[..i]) && r.located == r.mismatch + r.unkeyed + r.guarded + |items|
    && r == base.(missing := r.missing, located := r.located, mismatch := r.mismatch, unkeyed := r.unkeyed,
                  guarded := r.guarded)
  }

  lemma LocatedOneMore(c: Config, files: map<Id, File>, pending: seq<Marker>, i: nat, base: Report, r: Report,
                       items: seq<Item>)
    requires i < |pending| && LocatedTo(c, files, pending, i, base, r, items)
    ensures
      var fate := FateOf(c, files, pending[i]);
      LocatedTo(c, files, pending, i + 1, base, Placed(r, fate), if fate.Ready? then items + [fate.item] else items)
  {
    assert pending[..i + 1][..i] == pending[..i];
  }

  class Pass {
    var rep: Report
    var journal: set<Id>
    var markers: map<Id, Marker>
    var fails: nat
    var conflicts: nat

    ghost function Now(): State
      reads this
    {
      State(rep, journal, markers, fails, conflicts)
    }

    constructor (journal: set<Id>, markers: map<Id, Marker>)
      ensures Now() == State(BLANK, journal, markers, 0, 0)
    {
      this.journal, this.markers, rep, fails, conflicts := journal, markers, BLANK, 0, 0;
    }

    /** Appends one line; a failed append may have landed all the same. */
    method Settle(id: Id, writes: bool, lands: bool) returns (ok: bool)
      modifies this`journal
      ensures ok == writes
      ensures journal == if writes || lands then old(journal) + {id} else old(journal)
    {
      ok := writes;
      if writes || lands {
        journal := journal + {id};
      }
    }

    method VisitItem(c: Config, w: World, k: nat, it: Item, now: int)
      returns (visit: Option<Visit>, stop: Option<Error>)
      modifies this
      ensures visit.None? ==> Now() == old(Now()) && stop == Some(ContextEnded)
      ensures visit.Some? ==>
        Visited(c, w, k, it, now, visit.value, old(Now()), Now()) &&
            stop == StopAfter(c, visit.value, w.journalWrites(k), Now())
    {
      stop := None;
      if w.cancelled(k) {
        return None, Some(ContextEnded);
      }
      var reading := w.reading(k);
      if reading.TooLarge? {
        rep := rep.(oversize := rep.oversize + 1);
        var ok := Settle(it.marker.id, w.journalWrites(k), w.journalLands(k));
        return Some(Oversize), if ok then None else Some(JournalFailed);
      }
      if reading.Unreadable? {
        rep := rep.(readErrors := rep.readErrors + 1);
        return Some(Unread), None;
      }
      visit, stop := SendItem(c, w, k, it, now);
    }

    method Post(w: World, k: nat, m: Marker, body: Bytes, size: nat) returns (v: Visit)
      ensures v.Sent? && v.body == body && v.size == size && !v.marked && SentAs(w, k, m, v)
    {
      var outcome, offers, _ := PostReupload(m.gcSession, m.gcRefused, w.answers(k), w.sleeps(k));
      var a := w.answers(k)(|offers| - 1);
      v := Sent(body, size, offers, outcome, if a.Status? then a.code else 0, false);
    }

    /** Checks that the bytes are the ones the marker recorded, grown or not, and posts them. */
    method SendItem(c: Config, w: World, k: nat, it: Item, now: int) returns (visit: Option<Visit>, stop: Option<Error>)
      requires w.reading(k).Content?
      modifies this
      ensures visit.None? ==> Now() == old(Now()) && stop == Some(ContextEnded)
      ensures visit.Some? ==>
        Visited(c, w, k, it, now, visit.value, old(Now()), Now()) &&
            stop == StopAfter(c, visit.value, w.journalWrites(k), Now())
    {
      stop := None;
      var m, content := it.marker, w.reading(k).body;
      if !PrefixMatches(c.hash, m, content) {
        rep := rep.(mismatch := rep.mismatch + 1);
        return Some(NotTheTranscript), None;
      }
      if c.refusesContent(content) {
        rep := rep.(guarded := rep.guarded + 1);
        return Some(GuardedContent), None;
      }
      if rep.sent > 0 && !w.paces(k) {
        return None, Some(ContextEnded);
      }
      var v := Post(w, k, m, content, w.reading(k).size);
      rep := rep.(sent := rep.sent + 1);
      visit, stop := Answered(c, w, k, it, now, v);
    }

    /** The switch over what the collector answered. */
    method Answered(c: Config, w: World, k: nat, it: Item, now: int, v: Visit)
      returns (visit: Option<Visit>, stop: Option<Error>)
      requires v.Sent? && !v.marked && rep.sent > 0
      modifies this
      ensures visit == Some(v.(marked := Took(v) && w.markerWrites(k)))
      ensures
        var before := old(Now()).(rep := old(rep).(sent := old(rep.sent) - 1));
        && Recorded(c, w, k, it, now, visit.value, before, Now())
        && stop == StopAfter(c, visit.value, w.journalWrites(k), Now())
    {
      stop := None;
      match v.outcome
      case Refused => return Some(v), Some(CollectorRefused);
      case Stopped => return Some(v), Some(ContextEnded);
      case Failed =>
        rep := rep.(failed := rep.failed + 1);
        fails := fails + 1;
        return Some(v), if fails >= c.maxFails then Some(TooManyFailures) else None;
      case Rejected =>
        fails := 0;
        conflicts := conflicts + 1;
        rep := rep.(rejected := rep.rejected + 1);
        var ok := Settle(it.marker.id, w.journalWrites(k), w.journalLands(k));
        return Some(v), if !ok then Some(JournalFailed)
                        else if conflicts >= c.maxConflicts then Some(TooManyConflicts)
                        else None;
      case Conflict =>
        fails := 0;
        conflicts := conflicts + 1;
        rep := rep.(conflict := rep.conflict + 1);
        return Some(v), if conflicts >= c.maxConflicts then Some(TooManyConflicts) else None;
      case _ => visit, stop := Accept(c, w, k, it, now, v);
    }

    /** The collector holds these bytes now: the marker is to say so, and then the journal. */
    method Accept(c: Config, w: World, k: nat, it: Item, now: int, v: Visit)
      returns (visit: Option<Visit>, stop: Option<Error>)
      requires Took(v) && !v.marked && rep.sent > 0
      modifies this
      ensures visit == Some(v.(marked := w.markerWrites(k)))
      ensures
        var before := old(Now()).(rep := old(rep).(sent := old(rep.sent) - 1));
        && Recorded(c, w, k, it, now, visit.value, before, Now())
        && stop == StopAfter(c, visit.value, w.journalWrites(k), Now())
    {
      rep := rep.(accepted := rep.accepted + 1,
                  duplicate := if v.code == 200 then rep.duplicate + 1 else rep.duplicate);
      fails, conflicts := 0, 0;
      if !w.markerWrites(k) {
        rep := rep.(markerErrors := rep.markerErrors + 1);
        return Some(v), None;
      }
      markers := markers[it.marker.id := NewMarker(c.hash, it.marker, v, now)];
      var ok := Settle(it.marker.id, w.journalWrites(k), w.journalLands(k));
      return Some(v.(marked := true)), if ok then None else Some(JournalFailed);
    }

    /** The markers to go through: selected and not settled by an earlier pass. */
    method Select(c: Config, loaded: seq<Marker>) returns (pending: seq<Marker>)
      requires rep == BLANK
      modifies this`rep
      ensures pending == Pending(c, journal, loaded)
      ensures rep == BLANK.(markers := |loaded|, selected := rep.selected, done := rep.done)
      ensures rep.selected == rep.done + |pending| && rep.done == SettledCount(c, journal, loaded)
    {
      pending := [];
      rep := rep.(markers := |loaded|);
      for i := 0 to |loaded|
        invariant pending == Pending(c, journal, loaded[..i])
        invariant rep == BLANK.(markers := |loaded|, selected := rep.selected, done := rep.done)
        invariant rep.selected == rep.done + |pending| && rep.done == SettledCount(c, journal, loaded[..i])
      {
        assert loaded[..i + 1][..i] == loaded[..i];
        var m := loaded[i];
        if Selects(c, m) {
          rep := rep.(selected := rep.selected + 1);
          if m.id in journal {
            rep := rep.(done := rep.done + 1);
          } else {
            pending := pending + [m];
          }
        }
      }
      assert loaded[..|loaded|] == loaded;
    }

    method Place(c: Config, files: map<Id, File>, m: Marker) returns (fate: Fate)
      modifies this`rep
      ensures fate == FateOf(c, files, m) && rep == Placed(old(rep), fate)
    {
      if m.id !in files {
        rep := rep.(missing := rep.missing + 1);
        return Missing;
      }
      rep := rep.(located := rep.located + 1);
      var f := files[m.id];
      if f.name.Some? && NameContradicts(c, m, f.name.value) {
        rep := rep.(mismatch := rep.mismatch + 1);
        return Mismatched;
      }
      var keyed := Keyed(m, f.name);
      if !c.validHeaders(keyed.native, keyed.provider, f.path) {
        rep := rep.(unkeyed := rep.unkeyed + 1);
        return Unkeyed;
      }
      if c.refusesName(keyed.provider, f.path) {
        rep := rep.(guarded := rep.guarded + 1);
        return GuardedName;
      }
      return Ready(Item(keyed, f.path));
    }

    /** Finds each one's transcript and screens it by its name. */
    method Locate(c: Config, files: map<Id, File>, pending: seq<Marker>) returns (items: seq<Item>)
      requires rep.missing == rep.located == rep.mismatch == rep.unkeyed == rep.guarded == 0
      modifies this`rep
      ensures LocatedTo(c, files, pending, |pending|, old(rep), rep, items)
    {
      items := [];
      for i := 0 to |pending|
        invariant LocatedTo(c, files, pending, i, old(rep), rep, items)
      {
        LocatedOneMore(c, files, pending, i, old(rep), rep, items);
        var fate := Place(c, files, pending[i]);
        if fate.Ready? {
          items := items + [fate.item];
        }
      }
    }

    /** The sending loop. */
    method SendAll(c: Config, w: World, items: seq<Item>, now: int)
      returns (err: Option<Error>, ghost states: seq<State>, ghost visits: seq<Visit>)
      modifies this
      ensures Passes(c, w, items, now, states, visits, err)
      ensures states[0] == old(Now()) && states[|visits|] == Now()
    {
      states, visits := [Now()], [];
      for k := 0 to |items|
        invariant |visits| == k && GoesOn(c, w, items, now, states, visits)
        invariant states[0] == old(Now()) && states[k] == Now()
      {
        if c.limit > 0 && rep.sent >= c.limit {
          return None, states, visits;
        }
        var visit, stop := VisitItem(c, w, k, items[k], now);
        if visit.Some? {
          OneMoreVisit(c, w, items, now, states, visits, visit.value, Now());
          states, visits := states + [Now()], visits + [visit.value];
        }
        if stop.Some? {
          return stop, states, visits;
        }
      }
      err := None;
    }

    /** RunContentReupload: loaded is what the state directory's markers say. */
    method Run(c: Config, w: World, loaded: seq<Marker>, files: map<Id, File>, now: int)
      returns (err: Option<Error>, items: seq<Item>, ghost states: seq<State>, ghost visits: seq<Visit>)
      requires rep == BLANK
      modifies this
      ensures items == ReadyItems(c, files, Pending(c, old(journal), loaded))
      ensures Passes(c, w, if c.dryRun then [] else items, now, states, visits, err)
      ensures states[|visits|] == Now() && states[0] == old(Now()).(rep := states[0].rep)
      ensures Screened(states[0].rep, c, files, Pending(c, old(journal), loaded))
      ensures Planned(states[0].rep, items)
    {
      var pending := Select(c, loaded);
      items := Locate(c, files, pending);
      assert pending[..|pending|] == pending;
      if c.dryRun {
        return None, items, [Now()], [];
      }
      err, states, visits := SendAll(c, w, items, now);
    }
  }
}
