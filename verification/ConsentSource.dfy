/** The live policy source (internal/observer/consent/consent.go): one check at a time it follows the
    policy file, skipping reads it can prove needless and failing closed on a file it cannot use. */
module ConsentSource {
  import opened Common
  import opened ConsentPolicy

  datatype ContentConsent = ContentUnstated | ContentGranted | ContentDenied

  datatype Document = Document(roots: seq<Record>, content: ContentConsent)

  datatype Config = Config(contentDefault: bool, capturable: Record -> bool)

  /** What one check finds: the file's identity (or why it has none), what reading it yields, and the
      records its bytes still decode to when it is not a valid document. */
  datatype Observation = Observation(stat: Result<int, string>, load: Result<Document, string>,
                                     decoded: Option<seq<Record>>) {
    predicate Usable() { stat.Ok? && load.Ok? }

    /** Errors say something, and the loader refuses duplicate paths. */
    ghost predicate WellFormed() {
      && (stat.Err? ==> stat.error != "")
      && (load.Err? ==> load.error != "")
      && (load.Ok? ==> UniquePaths(load.value.roots))
    }
  }

  function Capturable(cfg: Config, rs: seq<Record>): (out: seq<Record>)
    ensures forall r :: r in out <==> r in rs && cfg.capturable(r)
  {
    if rs == [] then []
    else Capturable(cfg, rs[..|rs| - 1]) + (if cfg.capturable(rs[|rs| - 1]) then [rs[|rs| - 1]] else [])
  }

  function Derive(cfg: Config, doc: Document): Policy {
    var content := match doc.content
      case ContentGranted => true
      case ContentDenied => false
      case ContentUnstated => cfg.contentDefault;
    Policy(0, content, Capturable(cfg, doc.roots), "")
  }

  function FailClosed(prev: Policy, problem: string, decoded: Option<seq<Record>>): Policy {
    var roots := match decoded case None => prev.roots case Some(doc) => Narrowed(prev.roots, doc);
    Policy(0, false, roots, problem)
  }

  /** A source between two checks: what it publishes, the file identity it was read from, and (only
      to reason with) the document that identity held. */
  datatype State = State(cur: Policy, loaded: int, doc: Document)

  predicate Skips(s: State, o: Observation) { o.stat == Ok(s.loaded) && s.cur.Valid() }

  function Candidate(cfg: Config, s: State, o: Observation): Policy {
    if o.stat.Err? then FailClosed(s.cur, o.stat.error, o.decoded)
    else match o.load
      case Err(why) => FailClosed(s.cur, why, o.decoded)
      case Ok(doc) => Derive(cfg, doc)
  }

  ghost function Check(cfg: Config, s: State, o: Observation): State {
    if Skips(s, o) then s
    else
      var next := Candidate(cfg, s, o);
      var s' := if o.Usable() then s.(loaded := o.stat.value, doc := o.load.value) else s;
      if Same(s.cur, next) then s' else s'.(cur := next.(version := s.cur.version + 1))
  }

  ghost function Opened(cfg: Config, stat: int, doc: Document): State {
    State(Derive(cfg, doc).(version := 1), stat, doc)
  }

  ghost function Checked(cfg: Config, s: State, os: seq<Observation>): State {
    if os == [] then s else Check(cfg, Checked(cfg, s, os[..|os| - 1]), os[|os| - 1])
  }

  /** The source under its lock. Reading the file is the observation it is given. */
  class Source {
    const cfg: Config
    var cur: Policy
    var loaded: int
    ghost var doc: Document

    ghost function Now(): State
      reads this
    {
      State(cur, loaded, doc)
    }

    constructor (cfg: Config, stat: int, doc: Document)
      ensures this.cfg == cfg && Now() == Opened(cfg, stat, doc)
    {
      this.cfg := cfg;
      this.cur := Derive(cfg, doc).(version := 1);
      this.loaded := stat;
      this.doc := doc;
    }

    /** Re-reads the file when it may have changed and publishes the new policy if it differs;
        changed tells whether subscribers are to run. */
    method Current(o: Observation) returns (p: Policy, changed: bool)
      modifies this
      ensures Now() == Check(cfg, old(Now()), o)
      ensures p == cur
      ensures changed <==> cur.version != old(cur.version)
    {
      if o.stat.Ok? && cur.Valid() && o.stat.value == loaded {
        return cur, false;
      }
      var next;
      if o.stat.Err? {
        next := Refused(o.stat.error, o.decoded);
      } else if o.load.Err? {
        next := Refused(o.load.error, o.decoded);
      } else {
        next := Derive(cfg, o.load.value);
        loaded := o.stat.value;
        doc := o.load.value;
      }
      var same := SamePolicy(cur, next);
      if same {
        return cur, false;
      }
      cur := next.(version := cur.version + 1);
      return cur, true;
    }

    method Refused(problem: string, decoded: Option<seq<Record>>) returns (next: Policy)
      ensures next == FailClosed(cur, problem, decoded)
    {
      var roots := cur.roots;
      if decoded.Some? {
        roots := NarrowRoots(cur.roots, decoded.value);
      }
      next := Policy(0, false, roots, problem);
    }
  }

  // ---------------------------------------------------------------------------------------------
  // What the published policy must answer, from the history of the file alone
  // ---------------------------------------------------------------------------------------------

  ghost predicate AllWellFormed(os: seq<Observation>) {
    forall k :: 0 <= k < |os| ==> os[k].WellFormed()
  }

  /** What the file's identities alone tell of a source: whether the last observation it read was usable,
      and the identity and document of the last usable one. */
  datatype Mark = Mark(usable: bool, loaded: int, doc: Document)

  /** The observations of a run that are read; the others find the identity of the document in force and
      are skipped, whatever a read would have found. */
  ghost predicate Passed(m: Mark, o: Observation) { m.usable && o.stat == Ok(m.loaded) }

  ghost function Marked(m: Mark, o: Observation): Mark {
    if Passed(m, o) then m
    else if o.Usable() then Mark(true, o.stat.value, o.load.value)
    else m.(usable := false)
  }

  ghost function MarkAfter(stat: int, doc: Document, os: seq<Observation>): Mark {
    if os == [] then Mark(true, stat, doc) else Marked(MarkAfter(stat, doc, os[..|os| - 1]), os[|os| - 1])
  }

  ghost function Reads(stat: int, doc: Document, os: seq<Observation>): seq<Observation> {
    if os == [] then []
    else
      var init, o := os[..|os| - 1], os[|os| - 1];
      Reads(stat, doc, init) + if Passed(MarkAfter(stat, doc, init), o) then [] else [o]
  }

  /** The document lists root as active at generation, and it is one to capture. */
  ghost predicate DocumentGrants(cfg: Config, doc: Document, root: string, generation: nat) {
    exists r :: r in doc.roots && cfg.capturable(r) && r.active && r.path == root && r.generation == generation
  }

  /** The document grants content upload, or leaves it to the configuration, which does. */
  ghost predicate DocumentUploads(cfg: Config, doc: Document) {
    doc.content != ContentDenied && (doc.content == ContentGranted || cfg.contentDefault)
  }

  /** The record set an unusable file still decodes to keeps root active at generation. */
  ghost predicate Keeps(o: Observation, root: string, generation: nat) {
    o.decoded.Some? ==>
      var last := LastByPath(ActiveOnly(o.decoded.value), root);
      last.Some? && last.value.generation == generation
  }

  /** Consent to root at generation after the reads os of a source opened on doc: the last valid
      document grants it, and no later unusable one that could be decoded dropped it. No versions, no
      comparison of policies. */
  ghost predicate Consented(cfg: Config, doc: Document, os: seq<Observation>, root: string, generation: nat) {
    if os == [] then DocumentGrants(cfg, doc, root, generation)
    else
      var o := os[|os| - 1];
      if o.Usable() then DocumentGrants(cfg, o.load.value, root, generation)
      else Consented(cfg, doc, os[..|os| - 1], root, generation) && Keeps(o, root, generation)
  }

  /** Content upload after the reads os: on only while the last one found a document granting it. */
  ghost predicate ContentConsented(cfg: Config, doc: Document, os: seq<Observation>) {
    if os == [] then DocumentUploads(cfg, doc)
    else var o := os[|os| - 1]; o.Usable() && DocumentUploads(cfg, o.load.value)
  }

  lemma {:induction false} CapturableUnique(cfg: Config, rs: seq<Record>)
    requires UniquePaths(rs)
    ensures UniquePaths(Capturable(cfg, rs))
  {
    if rs != [] {
      var n := |rs| - 1;
      CapturableUnique(cfg, rs[..n]);
      forall r | r in Capturable(cfg, rs[..n])
        ensures r.path != rs[n].path
      {
        var i :| 0 <= i < n && rs[..n][i] == r;
        assert rs[i] == r;
      }
    }
  }

  /** What every state of a run keeps: unique paths, and a valid policy that answers as the document
      it was loaded from does. */
  ghost predicate Sound(cfg: Config, s: State) {
    && UniquePaths(s.cur.roots)
    && UniquePaths(s.doc.roots)
    && (s.cur.Valid() ==> s.cur.contentUpload == DocumentUploads(cfg, s.doc))
    && (s.cur.Valid() ==> forall root, g :: s.cur.Allows(root, g) <==> DocumentGrants(cfg, s.doc, root, g))
    && (!s.cur.Valid() ==> !s.cur.contentUpload)
  }

  lemma DerivedAnswers(cfg: Config, doc: Document, version: nat)
    requires UniquePaths(doc.roots)
    ensures var p := Derive(cfg, doc).(version := version);
            UniquePaths(p.roots) && forall root, g :: p.Allows(root, g) <==> DocumentGrants(cfg, doc, root, g)
  {
    CapturableUnique(cfg, doc.roots);
    var p := Derive(cfg, doc).(version := version);
    forall root, g
      ensures p.Allows(root, g) <==> DocumentGrants(cfg, doc, root, g)
    {
      AllowsIsGranted(p, root, g);
    }
  }

  /** Failing closed keeps exactly the grants the unusable document still lists. */
  lemma FailClosedAnswers(p: Policy, o: Observation, problem: string, version: nat)
    requires UniquePaths(p.roots)
    ensures var q := FailClosed(p, problem, o.decoded).(version := version);
            && UniquePaths(q.roots)
            && forall root, g :: q.Allows(root, g) <==> p.Allows(root, g) && Keeps(o, root, g)
  {
    var q := FailClosed(p, problem, o.decoded).(version := version);
    if o.decoded.Some? {
      NarrowedUnique(p.roots, o.decoded.value);
    }
    forall root, g
      ensures q.Allows(root, g) <==> p.Allows(root, g) && Keeps(o, root, g)
    {
      AllowsIsGranted(p, root, g);
      AllowsIsGranted(q, root, g);
    }
  }

  /** One check: skipped, nothing moves; read, the answers move exactly as what it read says. */
  lemma CheckAnswers(cfg: Config, s: State, o: Observation)
    requires Sound(cfg, s) && o.WellFormed()
    ensures var s' := Check(cfg, s, o);
            && Sound(cfg, s')
            && (Skips(s, o) ==> s' == s)
            && (!Skips(s, o) ==>
                  && s'.cur.Valid() == o.Usable()
                  && (s'.cur.contentUpload <==>
                        && o.Usable() && o.load.value.content != ContentDenied
                        && (o.load.value.content == ContentGranted || cfg.contentDefault))
                  && s'.cur.problem == (if o.stat.Err? then o.stat.error
                                        else if o.load.Err? then o.load.error
                                        else "")
                  && s'.loaded == (if o.Usable() then o.stat.value else s.loaded)
                  && s'.doc == (if o.Usable() then o.load.value else s.doc)
                  && forall root, g :: s'.cur.Allows(root, g) <==>
                       if o.Usable() then DocumentGrants(cfg, o.load.value, root, g)
                       else s.cur.Allows(root, g) && Keeps(o, root, g))
  {
    if !Skips(s, o) {
      var next := Candidate(cfg, s, o);
      if o.Usable() {
        DerivedAnswers(cfg, o.load.value, next.version);
        DerivedAnswers(cfg, o.load.value, s.cur.version + 1);
      } else {
        var why := if o.stat.Err? then o.stat.error else o.load.error;
        FailClosedAnswers(s.cur, o, why, next.version);
        FailClosedAnswers(s.cur, o, why, s.cur.version + 1);
      }
      if Same(s.cur, next) {
        forall root, g
          ensures s.cur.Allows(root, g) == next.Allows(root, g)
        {
          SameAnswers(s.cur, next, root, g);
        }
      }
    }
  }

  /** Along every run of checks the published policy answers exactly what the observations actually read
      say: unpublished repeats and the incremental narrowing never show. Which observations are read is
      told by the file's identities alone. */
  lemma {:induction false} PolicyFollowsHistory(cfg: Config, stat: int, doc: Document, os: seq<Observation>)
    requires UniquePaths(doc.roots) && AllWellFormed(os)
    ensures var s, rs := Checked(cfg, Opened(cfg, stat, doc), os), Reads(stat, doc, os);
            && Sound(cfg, s)
            && MarkAfter(stat, doc, os) == Mark(s.cur.Valid(), s.loaded, s.doc)
            && (s.cur.contentUpload <==> ContentConsented(cfg, doc, rs))
            && (forall root, g :: s.cur.Allows(root, g) <==> Consented(cfg, doc, rs, root, g))
  {
    if os == [] {
      DerivedAnswers(cfg, doc, 1);
    } else {
      var init, o := os[..|os| - 1], os[|os| - 1];
      PolicyFollowsHistory(cfg, stat, doc, init);
      var s := Checked(cfg, Opened(cfg, stat, doc), init);
      CheckAnswers(cfg, s, o);
      var rs := Reads(stat, doc, init);
      if !Skips(s, o) {
        assert (rs + [o])[..|rs|] == rs;
      } else {
        assert rs + [] == rs;
      }
    }
  }

  /** A check skipped although the file does not load as it did: its document, or what the document
      names, changed and the file's identity did not. */
  ghost predicate Hidden(m: Mark, o: Observation) { Passed(m, o) && o.load != Ok(m.doc) }

  ghost predicate NothingHidden(stat: int, doc: Document, os: seq<Observation>) {
    forall k :: 0 <= k < |os| ==> !Hidden(MarkAfter(stat, doc, os[..k]), os[k])
  }

  /** Where no skipped check hides anything, skipping never shows: the reads alone say what reading every
      time would. */
  lemma {:induction false} SkippingNeverShows(cfg: Config, stat: int, doc: Document, os: seq<Observation>)
    requires NothingHidden(stat, doc, os)
    ensures var rs, m := Reads(stat, doc, os), MarkAfter(stat, doc, os);
            && (ContentConsented(cfg, doc, rs) <==> ContentConsented(cfg, doc, os))
            && (m.usable ==> (ContentConsented(cfg, doc, rs) <==> DocumentUploads(cfg, m.doc)))
            && forall root, g ::
                 && (Consented(cfg, doc, rs, root, g) <==> Consented(cfg, doc, os, root, g))
                 && (m.usable ==> (Consented(cfg, doc, rs, root, g) <==> DocumentGrants(cfg, m.doc, root, g)))
  {
    if os != [] {
      var init, o := os[..|os| - 1], os[|os| - 1];
      assert forall k :: 0 <= k < |init| ==> init[..k] == os[..k];
      SkippingNeverShows(cfg, stat, doc, init);
      var rs := Reads(stat, doc, init);
      if Passed(MarkAfter(stat, doc, init), o) {
        assert rs + [] == rs;
      } else {
        assert (rs + [o])[..|rs|] == rs;
      }
    }
  }

  /** Failing closed, exactly: over a run of checks none of which finds a usable file, content upload stays
      on if and only if it was on and no check found the file's identity moved or unreadable. Then the
      source does not move at all; otherwise the policy is closed. Either way consent only shrinks. */
  lemma {:induction false} FailsClosed(cfg: Config, s: State, os: seq<Observation>)
    requires Sound(cfg, s) && AllWellFormed(os) && forall o :: o in os ==> !o.Usable()
    ensures var s', quiet := Checked(cfg, s, os), forall o :: o in os ==> o.stat == Ok(s.loaded);
            && Sound(cfg, s')
            && (s'.cur.contentUpload <==> s.cur.contentUpload && quiet)
            && (s'.cur.Valid() <==> s.cur.Valid() && quiet)
            && (s.cur.Valid() && quiet ==> s' == s)
            && s'.loaded == s.loaded
            && forall root, g :: s'.cur.Allows(root, g) ==> s.cur.Allows(root, g)
  {
    if os != [] {
      var init, o := os[..|os| - 1], os[|os| - 1];
      FailsClosed(cfg, s, init);
      CheckAnswers(cfg, Checked(cfg, s, init), o);
      assert forall x :: x in os <==> x in init || x == o;
    }
  }

  const ROOT := Record("/transcripts", 1, true, "backfill")

  /** The document in force, untouched, after its one active root's directory was deleted: the loader
      refuses it now. */
  const ROOT_GONE := Observation(Ok(7), Err("active root is missing"), Some([ROOT]))

  const GRANTING := Document([ROOT], ContentGranted)

  lemma GrantingGrants(cfg: Config)
    requires cfg.capturable(ROOT)
    ensures var p := Opened(cfg, 7, GRANTING).cur; p.Valid() && p.contentUpload && p.Allows(ROOT.path, ROOT.generation)
  {
    assert GRANTING.roots[..0] == [];
    assert Capturable(cfg, GRANTING.roots) == [] + [ROOT] == [ROOT];
  }

  /** That an unusable file closes the policy is false of the source as it stands: the file above is not
      read again, content upload stays on and the root stays allowed. Once the file itself changes, it is
      read and content upload goes. */
  lemma MissingRootGoesUnnoticed(cfg: Config)
    requires cfg.capturable(ROOT)
    ensures ROOT_GONE.WellFormed() && !ROOT_GONE.Usable()
    ensures var s := Opened(cfg, 7, GRANTING);
            && Check(cfg, s, ROOT_GONE) == s
            && s.cur.contentUpload && s.cur.Allows(ROOT.path, ROOT.generation)
            && !Check(cfg, s, ROOT_GONE.(stat := Ok(8))).cur.contentUpload
  {
    GrantingGrants(cfg);
    DerivedAnswers(cfg, GRANTING, 1);
    CheckAnswers(cfg, Opened(cfg, 7, GRANTING), ROOT_GONE.(stat := Ok(8)));
  }

  /** A version names one policy: it never falls, and it moves whenever the policy does. */
  lemma {:induction false} VersionNamesPolicy(cfg: Config, s: State, os: seq<Observation>, k: nat)
    requires k <= |os|
    ensures var p, q := Checked(cfg, s, os[..k]).cur, Checked(cfg, s, os).cur;
            && p.version <= q.version
            && (p.version == q.version ==> p == q)
    decreases |os|
  {
    if k < |os| {
      var init := os[..|os| - 1];
      VersionNamesPolicy(cfg, s, init, k);
      assert init[..k] == os[..k];
    } else {
      assert os[..k] == os;
    }
  }
}
