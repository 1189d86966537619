/** What the re-upload tool selects, screens, counts, stops on and writes down, told by the markers', files',
    answers' and counters' own fields. */
module ReuploadLaws {
  import opened Common
  import opened Reupload
  import opened ReuploadRun
  import opened ReuploadTheorems

  // Which markers.

  /** A marker of the provider asked for, if any is, that names one of the sessions asked for or was uploaded
      strictly before the cutoff. */
  ghost predicate Wanted(c: Config, m: Marker) {
    && (c.provider != "" ==> m.provider == c.provider)
    && (|| (m.native != "" && m.native in c.ids)
        || (c.before.Some? && m.uploadedAt.Some? && c.before.value > m.uploadedAt.value))
  }

  lemma {:induction false} PendingExactly(c: Config, done: set<Id>, markers: seq<Marker>, m: Marker)
    ensures m in Pending(c, done, markers) <==> m in markers && m.id !in done && Wanted(c, m)
  {
    if markers != [] {
      PendingExactly(c, done, markers[..|markers| - 1], m);
    }
  }

  ghost function SettledBefore(c: Config, done: set<Id>, markers: seq<Marker>): set<Id> {
    set m | m in markers && m.id in done && Wanted(c, m) :: m.id
  }

  /** The markers counted as done are the selected ones the journal holds, each once. */
  lemma {:induction false} DoneExactly(c: Config, done: set<Id>, markers: seq<Marker>)
    requires Distinct(markers)
    ensures SettledCount(c, done, markers) == |SettledBefore(c, done, markers)|
  {
    if markers != [] {
      var n := |markers| - 1;
      var m := markers[n];
      DoneExactly(c, done, markers[..n]);
      var less := SettledBefore(c, done, markers[..n]);
      if Wanted(c, m) && m.id in done {
        assert SettledBefore(c, done, markers) == less + {m.id};
        assert m.id !in less;
      } else {
        assert SettledBefore(c, done, markers) == less;
      }
    }
  }

  /** What becomes of one marker: missing without its file; mismatched when the file's name tells another
      provider, or another session of a provider whose names carry it; unkeyed or guarded when what it would
      be sent under is refused; ready otherwise, under its own session or, without one, the name's. */
  lemma FateExactly(c: Config, files: map<Id, File>, m: Marker)
    ensures
      var fate := FateOf(c, files, m);
      if m.id !in files then fate == Missing
      else
        var f := files[m.id];
        var names := m.native == "" && f.name.Some?;
        var native, provider := if names then f.name.value.native else m.native,
                                if names then f.name.value.provider else m.provider;
        var contradicts := f.name.Some?
          && (|| (m.provider != "" && m.provider != f.name.value.provider)
              || (f.name.value.provider == "codex" && m.native != f.name.value.native && c.lowerUuid(m.native)));
        && (fate == Mismatched <==> contradicts)
        && (fate == Unkeyed <==> !contradicts && !c.validHeaders(native, provider, f.path))
        && (fate == GuardedName <==>
              !contradicts && c.validHeaders(native, provider, f.path) && c.refusesName(provider, f.path))
        && (fate.Ready? ==>
              && fate.item.path == f.path && fate.item.marker == m.(native := native, provider := provider))
  {
  }

  // Which bytes.

  /** The transcript is recognised exactly if it starts with bytes of the recorded length and hash, and
      something was recorded. */
  lemma RecognisedExactly(hash: Bytes -> string, m: Marker, content: Bytes)
    ensures PrefixMatches(hash, m, content) <==>
              && m.size > 0 && m.sha != ""
              && exists recorded :: recorded <= content && |recorded| == m.size && hash(recorded) == m.sha
  {
    if PrefixMatches(hash, m, content) {
      assert content[..m.size] <= content;
    }
    forall recorded | recorded <= content && |recorded| == m.size ensures content[..m.size] == recorded {}
  }

  /** What a visit comes to, by what reading its transcript gave; only content that is recognised and not
      refused is posted, as it was read. */
  lemma VisitExactly(c: Config, w: World, k: nat, it: Item, v: Visit)
    requires Visits(c, w, k, it, v)
    ensures
      var r := w.reading(k);
      && (v == Oversize <==> r.TooLarge?)
      && (v == Unread <==> r.Unreadable?)
      && (v == NotTheTranscript <==> r.Content? && !PrefixMatches(c.hash, it.marker, r.body))
      && (v == GuardedContent <==>
            r.Content? && PrefixMatches(c.hash, it.marker, r.body) && c.refusesContent(r.body))
      && (v.Sent? ==> r == Content(v.body, v.size) && !c.refusesContent(v.body)
                      && (v.marked <==> Taken(v) && w.markerWrites(k)))
  {
  }

  // What is counted.

  ghost function Tally(visits: seq<Visit>, counts: Visit -> bool): nat {
    if visits == [] then 0
    else Tally(visits[..|visits| - 1], counts) + if counts(visits[|visits| - 1]) then 1 else 0
  }

  ghost predicate Ended(v: Visit, outcome: Outcome) { v.Sent? && v.outcome == outcome }

  ghost predicate Taken(v: Visit) { Ended(v, Accepted) || Ended(v, GcRefused) }

  /** r is base and what the visits add: every one to exactly the counters it belongs to. */
  ghost predicate Tallied(base: Report, visits: seq<Visit>, r: Report) {
    && r.oversize == base.oversize + Tally(visits, (v: Visit) => v.Oversize?)
    && r.readErrors == base.readErrors + Tally(visits, (v: Visit) => v.Unread?)
    && r.mismatch == base.mismatch + Tally(visits, (v: Visit) => v.NotTheTranscript?)
    && r.guarded == base.guarded + Tally(visits, (v: Visit) => v.GuardedContent?)
    && r.sent == base.sent + Tally(visits, (v: Visit) => v.Sent?)
    && r.rejected == base.rejected + Tally(visits, (v: Visit) => Ended(v, Rejected))
    && r.conflict == base.conflict + Tally(visits, (v: Visit) => Ended(v, Conflict))
    && r.failed == base.failed + Tally(visits, (v: Visit) => Ended(v, Failed))
    && r.accepted == base.accepted + Tally(visits, (v: Visit) => Taken(v))
    && r.duplicate == base.duplicate + Tally(visits, (v: Visit) => Taken(v) && v.code == 200)
    && r.markerErrors == base.markerErrors + Tally(visits, (v: Visit) => Taken(v) && !v.marked)
  }

  lemma TalliedOneMore(base: Report, visits: seq<Visit>, v: Visit, r: Report)
    requires Tallied(base, visits, r)
    ensures Tallied(base, visits + [v], Counted(r, v))
  {
    assert (visits + [v])[..|visits|] == visits;
  }

  /** The report counts every visit, and each in its own place. */
  lemma {:induction false} ReportTallies(c: Config, w: World, items: seq<Item>, now: int, states: seq<State>,
                                         visits: seq<Visit>, k: nat)
    requires Steps(c, w, items, now, states, visits) && k <= |visits|
    ensures Tallied(states[0].rep, visits[..k], states[k].rep)
  {
    if k > 0 {
      var j := k - 1;
      ReportTallies(c, w, items, now, states, visits, j);
      assert Visited(c, w, j, items[j], now, visits[j], states[j], states[j + 1]);
      TalliedOneMore(states[0].rep, visits[..j], visits[j], states[j].rep);
      assert visits[..k] == visits[..j] + [visits[j]];
    }
  }

  // Why a pass stops.

  /** Any answer but a failure ends a streak of failures. */
  ghost predicate Judged(v: Visit) { Taken(v) || Ended(v, Rejected) || Ended(v, Conflict) }

  lemma {:induction false} TallySuffix(visits: seq<Visit>, k: nat, v: Visit, counts: Visit -> bool)
    requires k <= |visits|
    ensures Tally((visits + [v])[k..], counts) == Tally(visits[k..], counts) + if counts(v) then 1 else 0
  {
    var all := (visits + [v])[k..];
    assert all == visits[k..] + [v] && all[..|all| - 1] == visits[k..];
  }

  /** A streak of failures reaches back to the last answer, and counts every failure since. */
  lemma {:induction false} FailStreakIs(visits: seq<Visit>) returns (k: nat)
    ensures k <= |visits| && FailStreak(visits) == Tally(visits[k..], (v: Visit) => Ended(v, Failed))
    ensures forall j :: k <= j < |visits| ==> !Judged(visits[j])
    ensures k > 0 ==> Judged(visits[k - 1])
  {
    if visits == [] {
      k := 0;
    } else {
      var n := |visits| - 1;
      var init, v := visits[..n], visits[n];
      k := FailStreakIs(init);
      assert visits == init + [v];
      if Judged(v) {
        k := |visits|;
        assert visits[k..] == [];
      } else {
        TallySuffix(init, k, v, (x: Visit) => Ended(x, Failed));
        assert forall j :: k <= j < n ==> visits[j] == init[j];
      }
    }
  }

  /** A streak of conflicts reaches back to the last acceptance, and counts every conflict and rejection
      since. */
  lemma {:induction false} ConflictStreakIs(visits: seq<Visit>) returns (k: nat)
    ensures k <= |visits|
    ensures ConflictStreak(visits) == Tally(visits[k..], (v: Visit) => Ended(v, Conflict) || Ended(v, Rejected))
    ensures forall j :: k <= j < |visits| ==> !Taken(visits[j])
    ensures k > 0 ==> Taken(visits[k - 1])
  {
    if visits == [] {
      k := 0;
    } else {
      var n := |visits| - 1;
      var init, v := visits[..n], visits[n];
      k := ConflictStreakIs(init);
      assert visits == init + [v];
      if Taken(v) {
        k := |visits|;
        assert visits[k..] == [];
      } else {
        TallySuffix(init, k, v, (x: Visit) => Ended(x, Conflict) || Ended(x, Rejected));
        assert forall j :: k <= j < n ==> visits[j] == init[j];
      }
    }
  }

  /** Why a pass ends with an error of its last visit: a refusal of uploading itself, the run's context ended
      while it was answered, or what it settled could not be written down. */
  lemma StopsExactly(c: Config, w: World, items: seq<Item>, now: int, states: seq<State>, visits: seq<Visit>,
                     err: Option<Error>)
    requires Passes(c, w, items, now, states, visits, err) && visits != []
    ensures
      var n, v := |visits| - 1, visits[|visits| - 1];
      var settled := v.Oversize? || Ended(v, Rejected) || (Taken(v) && v.marked);
      && (err == Some(CollectorRefused) <==> Ended(v, Refused))
      && (err == Some(JournalFailed) <==> settled && !w.journalWrites(n))
      && (Ended(v, Stopped) ==> err == Some(ContextEnded))
      && (err == Some(ContextEnded) && !Ended(v, Stopped) ==> |visits| < |items|)
  {
    var n := |visits| - 1;
    assert Visited(c, w, n, items[n], now, visits[n], states[n], states[n + 1]);
  }

  // What is written down.

  /** A transcript whose binding was refused is never offered one again, by whatever later pass reads the
      marker; and its marker is not selected again by a cutoff no later than the pass. */
  lemma MarkerRemembers(c: Config, w: World, k: nat, m: Marker, v: Visit, now: int, next: Visit)
    requires v.Sent? && (v.outcome == GcRefused || m.gcRefused)
    requires next.Sent? && SentAs(w, k, NewMarker(c.hash, m, v, now), next)
    ensures next.offers[0] == ""
    ensures next.offers[|next.offers| - 1] == ""
    ensures c.before.Some? && c.before.value <= now && m.native !in c.ids ==>
              !Wanted(c, NewMarker(c.hash, m, v, now))
  {
    StaysDropped(w.answers(k), next.offers, |next.offers| - 1);
  }

  lemma {:induction false} StaysDropped(answers: nat -> Answer, offers: seq<string>, i: nat)
    requires Retried(answers, offers) && i < |offers| && offers[0] == ""
    ensures offers[i] == ""
  {
    if i > 0 {
      StaysDropped(answers, offers, i - 1);
      assert Follows(answers(i - 1), offers[i - 1], offers[i]);
    }
  }
}
