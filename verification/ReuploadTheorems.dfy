/** What every pass of the re-upload tool keeps, and what any number of passes over one journal keep. */
module ReuploadTheorems {
  import opened Common
  import opened Reupload
  import opened ReuploadRun

  // Conservation.

  predicate Balances(r: Report, left: int) {
    r.located == r.mismatch + r.unkeyed + r.guarded + r.oversize + r.readErrors + r.sent + left
  }

  predicate Answers(r: Report, unanswered: nat) {
    r.sent == r.accepted + r.rejected + r.conflict + r.failed + unanswered
  }

  predicate Unanswered(v: Visit) { v.Sent? && (v.outcome == Refused || v.outcome == Stopped) }

  lemma {:induction false} BalancesAt(c: Config, w: World, items: seq<Item>, now: int, states: seq<State>,
                                      visits: seq<Visit>, k: nat)
    requires Steps(c, w, items, now, states, visits) && Planned(states[0].rep, items) && k <= |visits|
    ensures Balances(states[k].rep, |items| - k)
    ensures states[k].rep.duplicate <= states[k].rep.accepted && states[k].rep.markerErrors <= states[k].rep.accepted
  {
    if k > 0 {
      BalancesAt(c, w, items, now, states, visits, k - 1);
      var j := k - 1;
      assert Visited(c, w, j, items[j], now, visits[j], states[j], states[j + 1]);
    }
  }

  lemma {:induction false} AnswersAt(c: Config, w: World, items: seq<Item>, now: int, states: seq<State>,
                                     visits: seq<Visit>, k: nat)
    requires Steps(c, w, items, now, states, visits) && Planned(states[0].rep, items) && k <= |visits|
    requires forall j :: 0 <= j < k ==> !Unanswered(visits[j])
    ensures Answers(states[k].rep, 0)
  {
    if k > 0 {
      AnswersAt(c, w, items, now, states, visits, k - 1);
      var j := k - 1;
      assert Visited(c, w, j, items[j], now, visits[j], states[j], states[j + 1]);
    }
  }

  lemma AnswersAtEnd(c: Config, w: World, items: seq<Item>, now: int, states: seq<State>, visits: seq<Visit>,
                     err: Option<Error>)
    requires Passes(c, w, items, now, states, visits, err) && Planned(states[0].rep, items) && visits != []
    ensures Answers(states[|visits|].rep, if Unanswered(visits[|visits| - 1]) then 1 else 0)
    ensures c.limit > 0 ==> states[|visits|].rep.sent <= c.limit
  {
    var j := |visits| - 1;
    forall k | 0 <= k < j ensures !Unanswered(visits[k]) {
      assert StopAt(c, w, states, visits, k) == None;
    }
    AnswersAt(c, w, items, now, states, visits, j);
    assert Visited(c, w, j, items[j], now, visits[j], states[j], states[j + 1]);
  }

  /** Nothing located goes uncounted: whatever ended the pass, every located transcript is counted once or
      was not reached, and a pass that ran to its end short of its limit reached them all. */
  lemma PassConserves(c: Config, w: World, items: seq<Item>, now: int, states: seq<State>, visits: seq<Visit>,
                      err: Option<Error>)
    requires Passes(c, w, items, now, states, visits, err) && Planned(states[0].rep, items)
    ensures Balances(states[|visits|].rep, |items| - |visits|)
    ensures err == None && (c.limit == 0 || states[|visits|].rep.sent < c.limit) ==> |visits| == |items|
    ensures err != Some(CollectorRefused) && err != Some(ContextEnded) ==> Answers(states[|visits|].rep, 0)
    ensures c.limit > 0 ==> states[|visits|].rep.sent <= c.limit
  {
    BalancesAt(c, w, items, now, states, visits, |visits|);
    if visits != [] {
      AnswersAtEnd(c, w, items, now, states, visits, err);
    }
  }

  // Why a pass stops.

  lemma {:induction false} StreaksAt(c: Config, w: World, items: seq<Item>, now: int, states: seq<State>,
                                     visits: seq<Visit>, k: nat)
    requires Steps(c, w, items, now, states, visits) && k <= |visits|
    requires states[0].fails == states[0].conflicts == 0
    ensures states[k].fails == FailStreak(visits[..k]) && states[k].conflicts == ConflictStreak(visits[..k])
  {
    if k > 0 {
      var j := k - 1;
      StreaksAt(c, w, items, now, states, visits, j);
      assert Visited(c, w, j, items[j], now, visits[j], states[j], states[j + 1]);
      assert visits[..k][..j] == visits[..j];
    }
  }

  lemma {:induction false} StreaksBelow(c: Config, w: World, items: seq<Item>, now: int, states: seq<State>,
                                        visits: seq<Visit>, k: nat)
    requires ConfigOk(c) && Steps(c, w, items, now, states, visits) && k <= |visits|
    requires states[0].fails == states[0].conflicts == 0
    requires forall j :: 0 <= j < k ==> StopAt(c, w, states, visits, j) == None
    ensures states[k].fails < c.maxFails && states[k].conflicts < c.maxConflicts
  {
    if k > 0 {
      var j := k - 1;
      StreaksBelow(c, w, items, now, states, visits, j);
      assert Visited(c, w, j, items[j], now, visits[j], states[j], states[j + 1]);
      assert StopAt(c, w, states, visits, j) == None;
    }
  }

  /** The pass gives up on failures exactly when the last maxFails of the transcripts it posted all failed,
      and on conflicts when that many answers since the last acceptance were conflicts or rejections (unless
      the journal failed at that very answer). */
  lemma GivesUpExactly(c: Config, w: World, items: seq<Item>, now: int, states: seq<State>, visits: seq<Visit>,
                       err: Option<Error>)
    requires ConfigOk(c) && Passes(c, w, items, now, states, visits, err)
    requires states[0].fails == states[0].conflicts == 0
    ensures FailStreak(visits) <= c.maxFails && (err == Some(TooManyFailures) <==> FailStreak(visits) == c.maxFails)
    ensures ConflictStreak(visits) <= c.maxConflicts
    ensures err == Some(TooManyConflicts) ==> ConflictStreak(visits) == c.maxConflicts
    ensures ConflictStreak(visits) == c.maxConflicts ==> err == Some(TooManyConflicts) || err == Some(JournalFailed)
  {
    var n := |visits|;
    StreaksAt(c, w, items, now, states, visits, n);
    assert visits[..n] == visits;
    if n > 0 {
      StreaksBelow(c, w, items, now, states, visits, n - 1);
      var j := n - 1;
      assert Visited(c, w, j, items[j], now, visits[j], states[j], states[j + 1]);
    }
  }

  // What is sent.

  ghost predicate Injective(hash: Bytes -> string) {
    forall a, b :: hash(a) == hash(b) ==> a == b
  }

  /** The upload m records was of content. */
  predicate Records(hash: Bytes -> string, m: Marker, content: Bytes) {
    m.size == |content| && m.sha == hash(content)
  }

  /** Every body posted is what its marker's upload recorded, or that and more. */
  lemma PostsExtendTheRecord(c: Config, w: World, items: seq<Item>, now: int, states: seq<State>, visits: seq<Visit>,
                             k: nat, recorded: Bytes)
    requires Steps(c, w, items, now, states, visits) && k < |visits| && visits[k].Sent?
    requires Injective(c.hash) && Records(c.hash, items[k].marker, recorded)
    ensures recorded <= visits[k].body
  {
    assert Visited(c, w, k, items[k], now, visits[k], states[k], states[k + 1]);
  }

  /** The marker an acceptance leaves recognises the transcript however it grows, exactly when the file did
      not shrink between being opened and being read: size is what it was then, the hash is of what was read.
      If it did, the marker recognises nothing at all. */
  lemma NewMarkerRecognises(hash: Bytes -> string, m: Marker, v: Visit, now: int)
    requires Injective(hash) && (forall b :: hash(b) != "") && v.Sent? && v.body != []
    ensures v.size == |v.body| ==>
              forall grown :: v.body <= grown ==> PrefixMatches(hash, NewMarker(hash, m, v, now), grown)
    ensures v.size != |v.body| ==> forall content :: !PrefixMatches(hash, NewMarker(hash, m, v, now), content)
  {
    var next := NewMarker(hash, m, v, now);
    if v.size == |v.body| {
      forall grown | v.body <= grown ensures PrefixMatches(hash, next, grown) {
        assert grown[..v.size] == v.body;
      }
    } else {
      forall content ensures !PrefixMatches(hash, next, content) {
        if v.size <= |content| {
          LengthsTell(hash, content[..v.size], v.body);
        }
      }
    }
  }

  lemma LengthsTell(hash: Bytes -> string, a: Bytes, b: Bytes)
    requires Injective(hash) && |a| != |b|
    ensures hash(a) != hash(b)
  {
  }

  /** A visit that leaves such a marker: the transcript had a byte more when it was opened than when it was
      read, and the collector took what was read. */
  lemma ShortReadLosesTheMarker(c: Config, w: World, k: nat, it: Item, body: Bytes, now: int)
    requires Injective(c.hash) && forall b :: c.hash(b) != ""
    requires PrefixMatches(c.hash, it.marker, body) && !c.refusesContent(body) && !it.marker.gcRefused
    requires w.reading(k) == Content(body, |body| + 1) && w.answers(k)(0) == Status(201, false, 0) && w.markerWrites(k)
    ensures
      var v := Sent(body, |body| + 1, [it.marker.gcSession], Accepted, 201, true);
      Visits(c, w, k, it, v) && forall content :: !PrefixMatches(c.hash, NewMarker(c.hash, it.marker, v, now), content)
  {
    var v := Sent(body, |body| + 1, [it.marker.gcSession], Accepted, 201, true);
    NewMarkerRecognises(c.hash, it.marker, v, now);
  }

  // What the journal holds.

  ghost predicate SettledBy(items: seq<Item>, visits: seq<Visit>, n: nat, id: Id)
    requires n <= |visits| <= |items|
  {
    exists k :: 0 <= k < n && items[k].marker.id == id && IsSettled(visits[k])
  }

  /** Accepted with its marker written, rejected for good, or too large. */
  predicate IsSettled(v: Visit) {
    v.Oversize? || (v.Sent? && (v.outcome == Rejected || (v.marked && v.outcome in {Accepted, GcRefused})))
  }

  lemma {:induction false} JournalAt(c: Config, w: World, items: seq<Item>, now: int, states: seq<State>,
                                     visits: seq<Visit>, k: nat, id: Id)
    requires Steps(c, w, items, now, states, visits) && k <= |visits|
    ensures id in states[0].journal ==> id in states[k].journal
    ensures id in states[k].journal ==> id in states[0].journal || SettledBy(items, visits, k, id)
  {
    if k > 0 {
      var j := k - 1;
      JournalAt(c, w, items, now, states, visits, j, id);
      assert Visited(c, w, j, items[j], now, visits[j], states[j], states[j + 1]);
    }
  }

  lemma {:induction false} SettledStays(c: Config, w: World, items: seq<Item>, now: int, states: seq<State>,
                                        visits: seq<Visit>, k: nat, n: nat)
    requires Steps(c, w, items, now, states, visits) && k < n <= |visits|
    requires Settles(visits[k]) && w.journalWrites(k)
    ensures items[k].marker.id in states[n].journal
    decreases n
  {
    var j := n - 1;
    assert Visited(c, w, j, items[j], now, visits[j], states[j], states[j + 1]);
    if k < j {
      SettledStays(c, w, items, now, states, visits, k, j);
    }
  }

  /** The journal gains what the pass settled and nothing else: accepted with its marker written, rejected
      for good, or too large. Only an append that failed, which ends the pass, may be missing from it. */
  lemma JournalHoldsTheSettled(c: Config, w: World, items: seq<Item>, now: int, states: seq<State>, visits: seq<Visit>,
                               err: Option<Error>, id: Id)
    requires Passes(c, w, items, now, states, visits, err)
    ensures
      var n := |visits|;
      && (id in states[n].journal ==> id in states[0].journal || SettledBy(items, visits, n, id))
      && (id in states[0].journal ==> id in states[n].journal)
      && (SettledBy(items, visits, if err == Some(JournalFailed) then n - 1 else n, id) ==> id in states[n].journal)
  {
    var n := |visits|;
    var last := if err == Some(JournalFailed) then n - 1 else n;
    JournalAt(c, w, items, now, states, visits, n, id);
    if SettledBy(items, visits, last, id) {
      var k :| 0 <= k < last && items[k].marker.id == id && IsSettled(visits[k]);
      assert StopAt(c, w, states, visits, k) != Some(JournalFailed);
      SettledStays(c, w, items, now, states, visits, k, n);
    }
  }

  // Passes one after another over one journal, whatever happens to the markers and the files in between.

  datatype Record = Record(c: Config, w: World, loaded: seq<Marker>, files: map<Id, File>, now: int,
                           items: seq<Item>, states: seq<State>, visits: seq<Visit>, err: Option<Error>)

  /** What Run gives, over markers no two of which are for the same file. */
  ghost predicate IsPass(p: Record) {
    && Distinct(p.loaded)
    && Passes(p.c, p.w, p.items, p.now, p.states, p.visits, p.err)
    && p.items == if p.c.dryRun then [] else ReadyItems(p.c, p.files, Pending(p.c, p.states[0].journal, p.loaded))
  }

  ghost predicate Follow(passes: seq<Record>) {
    && (forall i :: 0 <= i < |passes| ==> IsPass(passes[i]))
    && (forall i :: 0 < i < |passes| ==> Before(passes[i]) == After(passes[i - 1]))
  }

  function Before(p: Record): set<Id> {
    if p.states == [] then {} else p.states[0].journal
  }

  function After(p: Record): set<Id> {
    if p.states == [] then {} else p.states[|p.states| - 1].journal
  }

  lemma {:induction false} JournalGrows(passes: seq<Record>, i: nat, j: nat, id: Id)
    requires Follow(passes) && i < j < |passes| && id in After(passes[i])
    ensures id in Before(passes[j])
    decreases j
  {
    var k := j - 1;
    assert Before(passes[j]) == After(passes[j - 1]);
    if i < k {
      JournalGrows(passes, i, k, id);
      var p := passes[k];
      JournalHoldsTheSettled(p.c, p.w, p.items, p.now, p.states, p.visits, p.err, id);
    }
  }

  /** A transcript the journal holds after some pass is opened, let alone posted, by no later one. */
  lemma NeverPostedAgain(passes: seq<Record>, i: nat, j: nat, id: Id, k: nat)
    requires Follow(passes) && i < j < |passes| && id in After(passes[i])
    requires k < |passes[j].items|
    ensures passes[j].items[k].marker.id != id
  {
    var p := passes[j];
    JournalGrows(passes, i, j, id);
    assert IsPass(p);
    PendingStands(p.c, Before(p), p.loaded);
    ReadyItemsPlan(p.c, Before(p), p.files, Pending(p.c, Before(p), p.loaded));
  }

  /** And no pass posts one transcript twice. */
  lemma PostedOnceInAPass(p: Record, k: nat, m: nat)
    requires IsPass(p) && k < m < |p.visits|
    ensures p.items[k].marker.id != p.items[m].marker.id
  {
    PendingStands(p.c, Before(p), p.loaded);
    ReadyItemsPlan(p.c, Before(p), p.files, Pending(p.c, Before(p), p.loaded));
  }
}
