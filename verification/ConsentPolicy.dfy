/** The live consent policy (internal/observer/consent/consent.go): what it grants, how an unusable
    document narrows it, and when two policies are the same decision. */
module ConsentPolicy {
  import opened Common

  /** One root's consent record; an inactive one is a tombstone. */
  datatype Record = Record(path: string, generation: nat, active: bool, mode: string)

  datatype Policy = Policy(version: nat, contentUpload: bool, roots: seq<Record>, problem: string) {
    /** The first record of the root decides, and only at exactly its generation. */
    predicate Allows(root: string, generation: nat) {
      match FirstByPath(roots, root)
      case None => false
      case Some(r) => r.active && r.generation == generation
    }

    predicate Valid() { problem == "" }
  }

  function FirstByPath(rs: seq<Record>, path: string): (r: Option<Record>)
    ensures r.Some? ==> r.value in rs && r.value.path == path
    ensures r.None? ==> forall x :: x in rs ==> x.path != path
  {
    if rs == [] then None else if rs[0].path == path then Some(rs[0]) else FirstByPath(rs[1..], path)
  }

  /** What a map built front to back, keyed by path, holds in the end. */
  function LastByPath(rs: seq<Record>, path: string): (r: Option<Record>)
    ensures r.Some? ==> r.value in rs && r.value.path == path
    ensures r.None? ==> forall x :: x in rs ==> x.path != path
  {
    if rs == [] then None
    else if rs[|rs| - 1].path == path then Some(rs[|rs| - 1])
    else LastByPath(rs[..|rs| - 1], path)
  }

  /** The loader refuses a document that lists a path twice. */
  ghost predicate UniquePaths(rs: seq<Record>) {
    forall i, j :: 0 <= i < j < |rs| ==> rs[i].path != rs[j].path
  }

  ghost predicate Granted(rs: seq<Record>, root: string, generation: nat) {
    exists r :: r in rs && r.path == root && r.active && r.generation == generation
  }

  lemma {:induction false} OnlyRecordOfPath(rs: seq<Record>, r: Record)
    requires UniquePaths(rs) && r in rs
    ensures FirstByPath(rs, r.path) == Some(r) == LastByPath(rs, r.path)
  {
    var f, l := FirstByPath(rs, r.path), LastByPath(rs, r.path);
    assert f.Some? && l.Some?;
  }

  /** Over unique paths, "the first record of the path decides" means "some record grants it". */
  lemma AllowsIsGranted(p: Policy, root: string, generation: nat)
    requires UniquePaths(p.roots)
    ensures p.Allows(root, generation) <==> Granted(p.roots, root, generation)
  {
    if r :| r in p.roots && r.path == root && r.active && r.generation == generation {
      OnlyRecordOfPath(p.roots, r);
    }
  }

  // ---------------------------------------------------------------------------------------------
  // Narrowing
  // ---------------------------------------------------------------------------------------------

  /** The document still lists r: a tombstone always stays, an active record only while the last
      active record of its path names the same generation. */
  predicate StillListed(doc: seq<Record>, r: Record) {
    !r.active || var last := LastByPath(ActiveOnly(doc), r.path); last.Some? && last.value.generation == r.generation
  }

  function ActiveOnly(rs: seq<Record>): (out: seq<Record>)
    ensures forall r :: r in out <==> r in rs && r.active
  {
    if rs == [] then [] else ActiveOnly(rs[..|rs| - 1]) + (if rs[|rs| - 1].active then [rs[|rs| - 1]] else [])
  }

  function Narrowed(prev: seq<Record>, doc: seq<Record>): (out: seq<Record>)
    ensures forall r :: r in out <==> r in prev && StillListed(doc, r)
    ensures |out| <= |prev|
  {
    if prev == [] then []
    else
      Narrowed(prev[..|prev| - 1], doc) + (if StillListed(doc, prev[|prev| - 1]) then [prev[|prev| - 1]] else [])
  }

  /** still holds the generation each path is last listed active at. */
  ghost predicate Lists(still: map<string, nat>, active: seq<Record>) {
    forall path ::
      && (path in still <==> LastByPath(active, path).Some?)
      && (path in still ==> still[path] == LastByPath(active, path).value.generation)
  }

  lemma ListsOneMore(still: map<string, nat>, active: seq<Record>, r: Record)
    requires Lists(still, active)
    ensures Lists(still[r.path := r.generation], active + [r])
  {
    assert (active + [r])[..|active|] == active;
    forall path
      ensures LastByPath(active + [r], path) == if r.path == path then Some(r) else LastByPath(active, path)
    {
    }
  }

  lemma ActiveOneMore(doc: seq<Record>, i: nat)
    requires i < |doc|
    ensures ActiveOnly(doc[..i + 1]) == ActiveOnly(doc[..i]) + if doc[i].active then [doc[i]] else []
  {
    assert doc[..i + 1][..i] == doc[..i];
  }

  method ActiveGenerations(doc: seq<Record>) returns (still: map<string, nat>)
    ensures Lists(still, ActiveOnly(doc))
  {
    still := map[];
    for i := 0 to |doc|
      invariant Lists(still, ActiveOnly(doc[..i]))
    {
      var r := doc[i];
      ActiveOneMore(doc, i);
      if r.active {
        ListsOneMore(still, ActiveOnly(doc[..i]), r);
        still := still[r.path := r.generation];
      } else {
        assert ActiveOnly(doc[..i]) + [] == ActiveOnly(doc[..i]);
      }
    }
    assert doc[..|doc|] == doc;
  }

  method NarrowRoots(prev: seq<Record>, doc: seq<Record>) returns (out: seq<Record>)
    ensures out == Narrowed(prev, doc)
  {
    var still := ActiveGenerations(doc);
    out := [];
    for i := 0 to |prev|
      invariant out == Narrowed(prev[..i], doc)
    {
      var r := prev[i];
      assert prev[..i + 1][..i] == prev[..i];
      if r.active {
        if r.path !in still || still[r.path] != r.generation {
          continue;
        }
      }
      out := out + [r];
    }
    assert prev[..|prev|] == prev;
  }

  lemma NarrowedMore(rs: seq<Record>, r: Record, doc: seq<Record>)
    ensures Narrowed(rs + [r], doc) == Narrowed(rs, doc) + if StillListed(doc, r) then [r] else []
  {
    hide StillListed;
    assert (rs + [r])[..|rs|] == rs;
  }

  lemma Associates(a: seq<Record>, b: seq<Record>, c: seq<Record>)
    ensures a + (b + c) == (a + b) + c && a + [] == a
  {
  }

  /** Narrowing goes record by record, in order. */
  lemma {:induction false} NarrowedJoin(a: seq<Record>, b: seq<Record>, doc: seq<Record>)
    ensures Narrowed(a + b, doc) == Narrowed(a, doc) + Narrowed(b, doc)
    decreases |b|
  {
    hide StillListed, Narrowed;
    if b == [] {
      NarrowedNone(doc);
      Associates(a, [], []);
      Associates(Narrowed(a, doc), [], []);
    } else {
      var init, r := b[..|b| - 1], b[|b| - 1];
      assert b == init + [r];
      NarrowedJoin(a, init, doc);
      NarrowedMore(init, r, doc);
      NarrowedMore(a + init, r, doc);
      Associates(a, init, [r]);
      Associates(Narrowed(a, doc), Narrowed(init, doc), if StillListed(doc, r) then [r] else []);
    }
  }

  lemma NarrowedNone(doc: seq<Record>)
    ensures Narrowed([], doc) == []
  {
  }

  /** A tombstone stays; an active record stays exactly while the last active record the document has of its
      path names its generation. */
  lemma NarrowedOne(r: Record, doc: seq<Record>)
    ensures Narrowed([r], doc) == if !r.active || LastActive(doc, r.path, r.generation) then [r] else []
  {
    assert [r][..0] == [];
    LastActiveIs(doc, r.path, r.generation);
  }

  ghost predicate LastActive(doc: seq<Record>, path: string, generation: nat) {
    exists i :: 0 <= i < |doc| && doc[i].active && doc[i].path == path && doc[i].generation == generation
                && forall j :: i < j < |doc| && doc[j].active ==> doc[j].path != path
  }

  lemma {:induction false} LastActiveIs(doc: seq<Record>, path: string, generation: nat)
    ensures
      var last := LastByPath(ActiveOnly(doc), path);
      LastActive(doc, path, generation) <==> last.Some? && last.value.generation == generation
  {
    if doc != [] {
      var n := |doc| - 1;
      LastActiveIs(doc[..n], path, generation);
      var active := ActiveOnly(doc[..n]);
      if doc[n].active {
        assert ActiveOnly(doc) == active + [doc[n]] && (active + [doc[n]])[..|active|] == active;
      } else {
        assert ActiveOnly(doc) == active + [] == active;
      }
      LastActiveMore(doc, path, generation);
    }
  }

  lemma LastActiveMore(doc: seq<Record>, path: string, generation: nat)
    requires doc != []
    ensures
      var n := |doc| - 1;
      LastActive(doc, path, generation) <==>
        if doc[n].active && doc[n].path == path then doc[n].generation == generation
        else LastActive(doc[..n], path, generation)
  {
    var n := |doc| - 1;
    if LastActive(doc[..n], path, generation) && !(doc[n].active && doc[n].path == path) {
      var i :| 0 <= i < n && doc[..n][i].active && doc[..n][i].path == path && doc[..n][i].generation == generation
               && forall j :: i < j < n && doc[..n][j].active ==> doc[..n][j].path != path;
      forall j | i < j < |doc| && doc[j].active ensures doc[j].path != path {
        assert j < n ==> doc[..n][j] == doc[j];
      }
      assert doc[i].active;
    }
    if LastActive(doc, path, generation) && !(doc[n].active && doc[n].path == path) {
      var i :| 0 <= i < |doc| && doc[i].active && doc[i].path == path && doc[i].generation == generation
               && forall j :: i < j < |doc| && doc[j].active ==> doc[j].path != path;
      assert doc[..n][i] == doc[i];
    }
    if doc[n].active && doc[n].path == path && doc[n].generation == generation {
      assert doc[n].active;
    }
  }

  lemma {:induction false} NarrowedUnique(prev: seq<Record>, doc: seq<Record>)
    requires UniquePaths(prev)
    ensures UniquePaths(Narrowed(prev, doc))
  {
    if prev != [] {
      var n := |prev| - 1;
      NarrowedUnique(prev[..n], doc);
      forall r | r in Narrowed(prev[..n], doc)
        ensures r.path != prev[n].path
      {
        var i :| 0 <= i < n && prev[..n][i] == r;
        assert prev[i] == r;
      }
    }
  }

  // ---------------------------------------------------------------------------------------------
  // Sameness
  // ---------------------------------------------------------------------------------------------

  /** What samePolicy computes: order does not matter, every record of b is the one a holds. */
  ghost predicate Same(a: Policy, b: Policy) {
    && a.contentUpload == b.contentUpload && a.problem == b.problem && |a.roots| == |b.roots|
    && forall r :: r in b.roots ==> LastByPath(a.roots, r.path) == Some(r)
  }

  method SamePolicy(a: Policy, b: Policy) returns (same: bool)
    ensures same <==> Same(a, b)
  {
    if a.contentUpload != b.contentUpload || a.problem != b.problem || |a.roots| != |b.roots| {
      return false;
    }
    var byPath: map<string, Record> := map[];
    for i := 0 to |a.roots|
      invariant forall path :: path in byPath <==> LastByPath(a.roots[..i], path).Some?
      invariant forall path :: path in byPath ==> byPath[path] == LastByPath(a.roots[..i], path).value
    {
      assert a.roots[..i + 1][..i] == a.roots[..i];
      byPath := byPath[a.roots[i].path := a.roots[i]];
    }
    assert a.roots[..|a.roots|] == a.roots;
    for i := 0 to |b.roots|
      invariant forall k :: 0 <= k < i ==> LastByPath(a.roots, b.roots[k].path) == Some(b.roots[k])
    {
      var r := b.roots[i];
      if r.path !in byPath || byPath[r.path] != r {
        return false;
      }
    }
    return true;
  }

  /** Records without repetition. */
  ghost function RecordSet(rs: seq<Record>): set<Record> { set r | r in rs }

  lemma {:induction false} RecordCount(rs: seq<Record>)
    requires UniquePaths(rs)
    ensures |RecordSet(rs)| == |rs|
  {
    if rs != [] {
      var n := |rs| - 1;
      RecordCount(rs[..n]);
      assert rs == rs[..n] + [rs[n]];
      assert RecordSet(rs) == RecordSet(rs[..n]) + {rs[n]};
      assert rs[n] !in RecordSet(rs[..n]);
    }
  }

  lemma SubsetOfSameSize<T>(a: set<T>, b: set<T>)
    requires b <= a && |a| == |b|
    ensures a == b
  {
    assert a == b + (a - b);
    assert b !! (a - b);
    assert |a - b| == 0;
  }

  /** Over unique paths, sameness is equality of decisions: both ways. */
  lemma SameIsSameRecords(a: Policy, b: Policy)
    requires UniquePaths(a.roots) && UniquePaths(b.roots)
    ensures Same(a, b) <==>
              a.contentUpload == b.contentUpload && a.problem == b.problem && RecordSet(a.roots) == RecordSet(b.roots)
  {
    RecordCount(a.roots);
    RecordCount(b.roots);
    if Same(a, b) {
      forall r | r in RecordSet(b.roots)
        ensures r in RecordSet(a.roots)
      {
        assert LastByPath(a.roots, r.path) == Some(r);
      }
      SubsetOfSameSize(RecordSet(a.roots), RecordSet(b.roots));
    }
    if RecordSet(a.roots) == RecordSet(b.roots) {
      forall r | r in b.roots
        ensures LastByPath(a.roots, r.path) == Some(r)
      {
        assert r in RecordSet(b.roots);
        OnlyRecordOfPath(a.roots, r);
      }
    }
  }

  /** Policies that compare the same answer every question the same. */
  lemma SameAnswers(a: Policy, b: Policy, root: string, generation: nat)
    requires UniquePaths(a.roots) && UniquePaths(b.roots) && Same(a, b)
    ensures a.Allows(root, generation) == b.Allows(root, generation)
  {
    SameIsSameRecords(a, b);
    AllowsIsGranted(a, root, generation);
    AllowsIsGranted(b, root, generation);
    assert forall r :: r in a.roots <==> r in RecordSet(a.roots);
    assert forall r :: r in b.roots <==> r in RecordSet(b.roots);
  }
}
