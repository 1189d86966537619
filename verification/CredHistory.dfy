/** What holds over every history of the credential store: operations one after another, each over
    whatever the one before it left, any of them cut short by a crash or a failed file operation. */
module CredHistory {
  import opened Common
  import opened CredStore

  /** One operation; a crash lets it reach only the first cut states it would pass through. */
  datatype Event = Event(op: Operation, w: World, cut: nat)

  function Left(ev: Event, d: Disk): Disk {
    var passed := Passed(ev.op, d, ev.w);
    passed[Min(ev.cut, |passed| - 1)]
  }

  /** disks[i] is what the first i events leave. */
  datatype History = History(events: seq<Event>, disks: seq<Disk>)

  function Generations(d: Disk): set<Generation> {
    {LoadedData(d).generation} + if d.edge.Edge? then {d.edge.session.generation} else {}
  }

  function Asked(ev: Event, d: Disk): set<Generation> {
    match Request(ev.op, d, ev.w)
    case None => {}
    case Some(tx) => {tx.data.generation} + if tx.change.Replace? then {tx.change.session.generation} else {}
  }

  predicate Shaped(h: History) {
    |h.disks| == |h.events| + 1
  }

  /** Every generation a file held or an operation drew by the time the first i events are over. */
  function Known(h: History, i: nat): set<Generation>
    requires Shaped(h) && i <= |h.events|
  {
    if i == 0 then Generations(h.disks[0])
    else Known(h, i - 1) + Asked(h.events[i - 1], h.disks[i - 1])
  }

  predicate Fresh(g: Generation, known: set<Generation>) {
    ValidGeneration(g) && g !in known
  }

  /** How the commands use the store (gettoken.go:371-404, edge.go:163-180, login.go:99-116): a document
      keeps its generation, loses it or gets a newly drawn one; a new edge session carries the newly drawn
      generation it is committed with; and an edge session is removed only along with a newly drawn one. */
  predicate Allowed(ev: Event, d: Disk, known: set<Generation>) {
    match Request(ev.op, d, ev.w)
    case None => true
    case Some(tx) =>
      var g := tx.data.generation;
      && (g == LoadedData(d).generation || !ValidGeneration(g) || g !in known)
      && (tx.change.Replace? ==> tx.change.session.generation == g && Fresh(g, known))
      && (tx.change.Remove? ==> Fresh(g, known))
  }

  ghost predicate Happens(h: History, i: nat)
    requires Shaped(h) && i < |h.events|
  {
    && h.disks[i + 1] == Left(h.events[i], h.disks[i])
    && Allowed(h.events[i], h.disks[i], Known(h, i))
  }

  ghost predicate IsHistory(h: History) {
    Shaped(h) && forall i :: 0 <= i < |h.events| ==> Happens(h, i)
  }

  /** x is what d becomes once tx is through. */
  predicate Committed(d: Disk, tx: Tx, x: Disk) {
    && x.creds == Creds(tx.data)
    && x.edge == match tx.change { case Keep => d.edge case Replace(e) => Edge(e) case Remove => x.edge }
    && (tx.change.Remove? ==> x.edge == d.edge || x.edge == NoEdge)
  }

  /** Wherever it is cut, an operation leaves the documents as they were, or committed, or with its own
      edge session in place under the old credentials, or cleared in part. */
  lemma LeftCases(ev: Event, d: Disk)
    ensures
      var x := Left(ev, d);
      || x == d
      || (ev.op.Clear? && x.creds == NoCreds && (x.edge == d.edge || x.edge == NoEdge))
      || (Request(ev.op, d, ev.w).Some? &&
          var tx := Request(ev.op, d, ev.w).value;
          Committed(d, tx, x) || (tx.change.Replace? && x == d.(edge := Edge(tx.change.session))))
  {
    var passed := Passed(ev.op, d, ev.w);
    var k := Min(ev.cut, |passed| - 1);
    if ev.op.Clear? {
      assert passed == [d] + Clearing(d, ev.w);
    } else if Request(ev.op, d, ev.w).Some? {
      var tx := Request(ev.op, d, ev.w).value;
      assert passed == [d] + Committing(d, tx, ev.w);
      assert k == 0 || passed[k] == Committing(d, tx, ev.w)[k - 1];
    }
  }

  lemma {:induction false} FilesAreKnown(h: History, i: nat)
    requires IsHistory(h) && i <= |h.events|
    ensures Generations(h.disks[i]) <= Known(h, i) + {""}
  {
    if i > 0 {
      FilesAreKnown(h, i - 1);
      assert Happens(h, i - 1);
      LeftCases(h.events[i - 1], h.disks[i - 1]);
    }
  }

  lemma {:induction false} KnownGrows(h: History, i: nat, j: nat)
    requires Shaped(h) && i <= j <= |h.events|
    ensures Known(h, i) <= Known(h, j)
    decreases j
  {
    if i < j {
      KnownGrows(h, i, j - 1);
    }
  }

  lemma StepFences(ev: Event, d: Disk, known: set<Generation>, g: Generation)
    requires Allowed(ev, d, known) && ValidGeneration(g) && g in known && LoadedData(d).generation != g
    ensures LoadedData(Left(ev, d)).generation != g
  {
    LeftCases(ev, d);
    assert !ValidGeneration(EMPTY.generation);
  }

  /** A generation once seen that is not the one in credentials.json never gets back there. */
  lemma {:induction false} FencedForGood(h: History, i: nat, j: nat, g: Generation)
    requires IsHistory(h) && i <= j <= |h.events|
    requires ValidGeneration(g) && g in Known(h, i)
    requires LoadedData(h.disks[i]).generation != g
    ensures LoadedData(h.disks[j]).generation != g
    decreases j
  {
    if i < j {
      FencedForGood(h, i, j - 1, g);
      KnownGrows(h, i, j - 1);
      assert Happens(h, j - 1);
      StepFences(h.events[j - 1], h.disks[j - 1], Known(h, j - 1), g);
    }
  }

  predicate InForce(d: Disk, g: Generation) {
    Active(d).Some? && Active(d).value.generation == g
  }

  lemma InForceIsKnown(h: History, i: nat, g: Generation)
    requires IsHistory(h) && i <= |h.events| && InForce(h.disks[i], g)
    ensures ValidGeneration(g) && g in Known(h, i) && LoadedData(h.disks[i]).generation == g
  {
    FilesAreKnown(h, i);
    assert g in Generations(h.disks[i]);
    assert !ValidGeneration("");
  }

  /** Once a different generation commits, no edge session in force up to then, nor any other of its
      generation, is ever in force again. */
  lemma NoResurrection(h: History, b: nat, i: nat, j: nat, g: Generation)
    requires IsHistory(h) && b <= i < j <= |h.events|
    requires InForce(h.disks[b], g)
    requires LoadedData(h.disks[i]).generation != LoadedData(h.disks[i + 1]).generation
    ensures !InForce(h.disks[j], g)
  {
    InForceIsKnown(h, b, g);
    var k := if g == LoadedData(h.disks[i]).generation then i + 1 else i;
    KnownGrows(h, b, k);
    FencedForGood(h, k, j, g);
  }

  /** Replacing the edge session is all or nothing for what is in force: wherever it is cut, either the
      credentials are untouched and what is in force is what was, or nothing; or both files are the new. */
  lemma ReplaceIsAtomic(ev: Event, d: Disk, known: set<Generation>)
    requires Allowed(ev, d, known) && Generations(d) <= known + {""}
    requires Request(ev.op, d, ev.w).Some? && Request(ev.op, d, ev.w).value.change.Replace?
    ensures
      var x := Left(ev, d);
      var tx := Request(ev.op, d, ev.w).value;
      || (x.creds == d.creds && Active(x) == (if x.edge == d.edge then Active(d) else None))
      || (x == Disk(Creds(tx.data), Edge(tx.change.session)) &&
          Active(x) == if tx.change.session.usable then Some(tx.change.session) else None)
  {
    LeftCases(ev, d);
    assert !ValidGeneration("");
  }

  /** A replacement that did not commit leaves credentials.json alone, and its root is never in force. */
  lemma UncommittedReplaceStaysOut(h: History, i: nat, j: nat, e: EdgeSession)
    requires IsHistory(h) && i < j <= |h.events|
    requires Request(h.events[i].op, h.disks[i], h.events[i].w).Some?
    requires Request(h.events[i].op, h.disks[i], h.events[i].w).value.change == Replace(e)
    requires LoadedData(h.disks[i + 1]).generation != e.generation
    ensures h.disks[i + 1].creds == h.disks[i].creds
    ensures !InForce(h.disks[j], e.generation)
  {
    assert Happens(h, i);
    ReplaceCommitsOrNot(h.events[i], h.disks[i], Known(h, i), e);
    FencedForGood(h, i + 1, j, e.generation);
  }

  lemma ReplaceCommitsOrNot(ev: Event, d: Disk, known: set<Generation>, e: EdgeSession)
    requires Allowed(ev, d, known)
    requires Request(ev.op, d, ev.w).Some? && Request(ev.op, d, ev.w).value.change == Replace(e)
    ensures ValidGeneration(e.generation) && e.generation in Asked(ev, d)
    ensures LoadedData(Left(ev, d)).generation == e.generation || Left(ev, d).creds == d.creds
  {
    LeftCases(ev, d);
  }

  /** What success means: credentials.json holds the document the operation was asked to commit, and the edge
      file is as it was, or holds the new session, or is gone unless unlinking it failed. An operation over
      documents it could lock, read and change as asked succeeds whenever its writes do. */
  lemma SuccessCommits(ev: Event, d: Disk)
    requires !ev.op.Clear? && ev.cut >= |Passed(ev.op, d, ev.w)|
    ensures
      var w, was := ev.w, if d.creds.Creds? then d.creds.data else Data("", "", "", "");
      var tx := match ev.op
        case Transact(mutate) => mutate(was, if d.edge.Edge? then Some(d.edge.session) else None)
        case Update(mutate) => (match mutate(was) case None => None case Some(data) => Some(Tx(data, Keep)))
        case Clear => None;
      && (Succeeds(ev.op, d, w) <==>
            && w.locks && w.credsReadable && (ev.op.Transact? ==> w.edgeReadable) && tx.Some? && w.credsWrites
            && (tx.value.change.Replace? ==> w.edgeWrites))
      && (Succeeds(ev.op, d, w) ==>
            && Left(ev, d).creds == Creds(tx.value.data)
            && Left(ev, d).edge == match tx.value.change
                                   case Keep => d.edge
                                   case Replace(e) => Edge(e)
                                   case Remove => if w.edgeRemoves then NoEdge else d.edge)
  {
    var passed := Passed(ev.op, d, ev.w);
    if Request(ev.op, d, ev.w).Some? {
      var tx := Request(ev.op, d, ev.w).value;
      assert passed == [d] + Committing(d, tx, ev.w);
      assert Left(ev, d) == Committing(d, tx, ev.w)[|Committing(d, tx, ev.w)| - 1];
    }
  }

  /** "g1:" and 32 hexadecimal digits. */
  lemma ValidMeans(g: Generation)
    ensures ValidGeneration(g) <==>
              && |g| == 35 && g[0] == 'g' && g[1] == '1' && g[2] == ':'
              && forall i :: 3 <= i < 35 ==> '0' <= g[i] <= '9' || 'a' <= g[i] <= 'f' || 'A' <= g[i] <= 'F'
  {
    if |g| == 35 {
      assert PREFIX <= g <==> g[0] == 'g' && g[1] == '1' && g[2] == ':';
    }
  }

  /** What is in force: the session in the edge file, exactly if it is usable and carries a well-formed
      generation that credentials.json carries too. */
  lemma InForceMeans(d: Disk, e: EdgeSession)
    ensures Active(d) == Some(e) <==>
              && d.edge == Edge(e) && e.usable && d.creds.Creds? && d.creds.data.generation == e.generation
              && |e.generation| == 35 && e.generation[0] == 'g' && e.generation[1] == '1' && e.generation[2] == ':'
              && forall i :: 3 <= i < 35 ==>
                   || '0' <= e.generation[i] <= '9' || 'a' <= e.generation[i] <= 'f' || 'A' <= e.generation[i] <= 'F'
  {
    hide ValidGeneration;
    ValidMeans(e.generation);
    ValidMeans("");
  }

  /** An operation that reports failure, and was not cut, changed no credentials; and the edge file only
      when putting it back failed too, in which case what it holds is not in force. */
  lemma FailureChangesNothing(ev: Event, d: Disk, known: set<Generation>)
    requires !ev.op.Clear? && !Succeeds(ev.op, d, ev.w)
    requires Allowed(ev, d, known) && Generations(d) <= known + {""}
    requires ev.cut >= |Passed(ev.op, d, ev.w)|
    ensures
      var x := Left(ev, d);
      && x.creds == d.creds
      && (ev.w.edgeRestores ==> x == d)
      && (x.edge != d.edge ==> Active(x) == None)
  {
    var passed := Passed(ev.op, d, ev.w);
    if Request(ev.op, d, ev.w).Some? {
      var tx := Request(ev.op, d, ev.w).value;
      assert passed == [d] + Committing(d, tx, ev.w);
      assert Left(ev, d) == Committing(d, tx, ev.w)[|Committing(d, tx, ev.w)| - 1];
      assert !ValidGeneration("");
    }
  }

  /** Why a removal must come with a new generation: only then is the session out of force in every state
      a crash or a failed unlink can leave once the removal has committed. */
  lemma RemovalSignsOut(d: Disk, tx: Tx)
    requires tx.change.Remove? && Active(d).Some?
    ensures
      (forall w: World, k: nat :: w.credsWrites && k < |Committing(d, tx, w)| ==>
       Active(Committing(d, tx, w)[k]) != Active(d))
      <==> tx.data.generation != Active(d).value.generation
  {
    if tx.data.generation == Active(d).value.generation {
      var w := World(true, true, true, true, true, true, true, false);
      assert Active(Committing(d, tx, w)[0]) == Active(d);
    }
  }

  /** Signing out: as soon as anything is gone nothing is in force, and success means both files are gone. */
  lemma ClearSignsOut(ev: Event, d: Disk)
    requires ev.op.Clear?
    ensures Left(ev, d) != d ==> Active(Left(ev, d)) == None && LoadedData(Left(ev, d)) == EMPTY
    ensures Succeeds(ev.op, d, ev.w) && ev.cut >= |Passed(ev.op, d, ev.w)| ==> Left(ev, d) == Disk(NoCreds, NoEdge)
  {
    assert Passed(ev.op, d, ev.w) == [d] + Clearing(d, ev.w);
    assert !ValidGeneration("");
  }
}
