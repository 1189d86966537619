/** The credential store's two documents (internal/store/edge.go, internal/store/store.go):
    credentials.json and edge-session.json, changed together under one lock. A crash may stop a change
    between any two of its file operations, and each of those may fail. */
module CredStore {
  import opened Common

  type Generation = string

  const PREFIX := "g1:"
  const DIGITS := 32

  predicate HexDigit(c: char) {
    '0' <= c <= '9' || 'a' <= c <= 'f' || 'A' <= c <= 'F'
  }

  /** cmd/gasworks' validCredentialGeneration. */
  predicate ValidGeneration(g: Generation) {
    && |g| == |PREFIX| + DIGITS
    && PREFIX <= g
    && forall i :: |PREFIX| <= i < |g| ==> HexDigit(g[i])
  }

  datatype Data = Data(generation: Generation, idToken: string, refreshToken: string, rest: string)

  const EMPTY := Data("", "", "", "")

  /** usable: the root token is well formed and the key it is bound to is enrolled. */
  datatype EdgeSession = EdgeSession(generation: Generation, root: string, usable: bool)

  datatype CredsFile = NoCreds | BadCreds(raw: string) | Creds(data: Data)

  /** BadEdge is corrupt, or of a schema this CLI does not know. */
  datatype EdgeFile = NoEdge | BadEdge(raw: string) | Edge(session: EdgeSession)

  datatype Disk = Disk(creds: CredsFile, edge: EdgeFile)

  function LoadedData(d: Disk): Data {
    if d.creds.Creds? then d.creds.data else EMPTY
  }

  function LoadedEdge(d: Disk): Option<EdgeSession> {
    if d.edge.Edge? then Some(d.edge.session) else None
  }

  /** The edge session in force: the one that carries the generation credentials.json carries. */
  function Active(d: Disk): Option<EdgeSession> {
    match LoadedEdge(d)
    case None => None
    case Some(e) =>
      if ValidGeneration(e.generation) && e.generation == LoadedData(d).generation && e.usable then Some(e) else None
  }

  datatype Change = Keep | Replace(session: EdgeSession) | Remove

  /** What a mutate function asks to commit. */
  datatype Tx = Tx(data: Data, change: Change)

  /** What works while one operation runs. */
  datatype World = World(locks: bool, credsReadable: bool, edgeReadable: bool, edgeWrites: bool, credsWrites: bool,
                         edgeRestores: bool, credsRemoves: bool, edgeRemoves: bool)

  datatype Operation =
    | Transact(mutate: (Data, Option<EdgeSession>) -> Option<Tx>)
    | Update(mutateData: Data -> Option<Data>)
    | Clear

  /** What the operation is about to commit over d; None when it stops before it writes anything. */
  function Request(op: Operation, d: Disk, w: World): Option<Tx> {
    match op
    case Transact(mutate) =>
      if w.locks && w.credsReadable && w.edgeReadable then mutate(LoadedData(d), LoadedEdge(d)) else None
    case Update(mutate) =>
      if !w.locks || !w.credsReadable then None
      else (match mutate(LoadedData(d)) case None => None case Some(data) => Some(Tx(data, Keep)))
    case Clear => None
  }

  /** What the two files hold after each file operation of a transaction, oldest first. */
  function Committing(d: Disk, tx: Tx, w: World): (passed: seq<Disk>)
    ensures |passed| > 0
  {
    var saved := if w.credsWrites then d.(creds := Creds(tx.data)) else d;
    match tx.change
    case Keep => [saved]
    case Remove => if w.credsWrites then [saved, if w.edgeRemoves then saved.(edge := NoEdge) else saved] else [saved]
    case Replace(e) =>
      if !w.edgeWrites then [d]
      else
        var replaced := d.(edge := Edge(e));
        if w.credsWrites then [replaced, saved.(edge := Edge(e))]
        else [replaced, replaced, if w.edgeRestores then d else replaced]
  }

  function Clearing(d: Disk, w: World): (passed: seq<Disk>)
    ensures |passed| > 0
  {
    if !w.locks || !w.credsRemoves then [d]
    else
      var gone := d.(creds := NoCreds);
      [gone, if w.edgeRemoves then gone.(edge := NoEdge) else gone]
  }

  /** Everything the disk passes through during the operation, from what it found to what it left. */
  function Passed(op: Operation, d: Disk, w: World): (passed: seq<Disk>)
    ensures |passed| > 0 && passed[0] == d
  {
    if op.Clear? then [d] + Clearing(d, w)
    else
      match Request(op, d, w)
      case None => [d]
      case Some(tx) => [d] + Committing(d, tx, w)
  }

  predicate Succeeds(op: Operation, d: Disk, w: World) {
    if op.Clear? then w.locks && w.credsRemoves && w.edgeRemoves
    else
      var request := Request(op, d, w);
      request.Some? && w.credsWrites && (request.value.change.Replace? ==> w.edgeWrites)
  }

  /** The store's operations over its directory. passed records every state a crash could have left. */
  class Store {
    var creds: CredsFile
    var edge: EdgeFile
    ghost var passed: seq<Disk>

    ghost predicate Valid()
      reads this
    {
      passed != [] && passed[|passed| - 1] == Now()
    }

    ghost function Now(): Disk
      reads this
    {
      Disk(creds, edge)
    }

    constructor (d: Disk)
      ensures Valid() && Now() == d && passed == [d]
    {
      creds, edge := d.creds, d.edge;
      passed := [d];
    }

    /** writeOwnerOnly over credentials.json: a rename, so it happens whole or not at all. */
    method Save(data: Data, works: bool) returns (ok: bool)
      modifies this`creds, this`passed
      ensures ok == works && creds == (if works then Creds(data) else old(creds))
      ensures passed == old(passed) + [Now()]
    {
      ok := works;
      if works {
        creds := Creds(data);
      }
      passed := passed + [Now()];
    }

    method WriteEdge(content: EdgeFile, works: bool) returns (ok: bool)
      modifies this`edge, this`passed
      ensures ok == works && edge == (if works then content else old(edge))
      ensures passed == old(passed) + [Now()]
    {
      ok := works;
      if works {
        edge := content;
      }
      passed := passed + [Now()];
    }

    method RemoveCreds(works: bool) returns (ok: bool)
      modifies this`creds, this`passed
      ensures ok == works && creds == (if works then NoCreds else old(creds))
      ensures passed == old(passed) + [Now()]
    {
      ok := works;
      if works {
        creds := NoCreds;
      }
      passed := passed + [Now()];
    }

    method RemoveEdge(works: bool) returns (ok: bool)
      modifies this`edge, this`passed
      ensures ok == works && edge == (if works then NoEdge else old(edge))
      ensures passed == old(passed) + [Now()]
    {
      ok := WriteEdge(NoEdge, works);
    }

    /** Puts the edge file back the way a failed transaction found it. */
    method RestoreEdge(previous: EdgeFile, works: bool)
      modifies this`edge, this`passed
      ensures edge == (if works then previous else old(edge))
      ensures passed == old(passed) + [Now()]
    {
      if previous == NoEdge {
        var _ := RemoveEdge(works);
      } else {
        var _ := WriteEdge(previous, works);
      }
    }

    method Transact(mutate: (Data, Option<EdgeSession>) -> Option<Tx>, w: World) returns (ok: bool)
      modifies this`creds, this`edge, this`passed
      requires Valid()
      ensures Valid()
      ensures passed == old(passed) + Passed(Operation.Transact(mutate), old(Now()), w)[1..]
      ensures ok == Succeeds(Operation.Transact(mutate), old(Now()), w)
      ensures
        var tx := mutate(if old(creds).Creds? then old(creds).data else Data("", "", "", ""),
                         if old(edge).Edge? then Some(old(edge).session) else None);
        && (ok <==> && w.locks && w.credsReadable && w.edgeReadable && tx.Some? && w.credsWrites
                    && (tx.value.change.Replace? ==> w.edgeWrites))
        && (ok ==> creds == Creds(tx.value.data)
                   && edge == match tx.value.change
                              case Keep => old(edge)
                              case Replace(session) => Edge(session)
                              case Remove => if w.edgeRemoves then NoEdge else old(edge))
        && (!ok ==> creds == old(creds)
                    && (edge == old(edge)
                        || (tx.Some? && tx.value.change.Replace? && !w.edgeRestores
                            && edge == Edge(tx.value.change.session))))
    {
      ghost var op := Operation.Transact(mutate);
      if !w.locks || !w.credsReadable || !w.edgeReadable {
        return false;
      }
      var previous := edge;
      var request := mutate(LoadedData(Disk(creds, edge)), LoadedEdge(Disk(creds, edge)));
      if request == None {
        return false;
      }
      match request.value.change
      case Replace(session) =>
        ok := WriteEdge(Edge(session), w.edgeWrites);
        if !ok {
          return;
        }
        ok := Save(request.value.data, w.credsWrites);
        if !ok {
          RestoreEdge(previous, w.edgeRestores);
        }
      case Remove =>
        ok := Save(request.value.data, w.credsWrites);
        if ok {
          var _ := RemoveEdge(w.edgeRemoves);
        }
      case Keep =>
        ok := Save(request.value.data, w.credsWrites);
    }

    method Update(mutate: Data -> Option<Data>, w: World) returns (ok: bool)
      modifies this`creds, this`passed
      requires Valid()
      ensures Valid()
      ensures passed == old(passed) + Passed(Operation.Update(mutate), old(Now()), w)[1..]
      ensures ok == Succeeds(Operation.Update(mutate), old(Now()), w)
      ensures
        var data := mutate(if old(creds).Creds? then old(creds).data else Data("", "", "", ""));
        && (ok <==> w.locks && w.credsReadable && data.Some? && w.credsWrites)
        && creds == if ok then Creds(data.value) else old(creds)
    {
      if !w.locks || !w.credsReadable {
        return false;
      }
      var request := mutate(LoadedData(Disk(creds, edge)));
      if request == None {
        return false;
      }
      ok := Save(request.value, w.credsWrites);
    }

    method Clear(w: World) returns (ok: bool)
      modifies this`creds, this`edge, this`passed
      requires Valid()
      ensures Valid()
      ensures passed == old(passed) + Passed(Operation.Clear, old(Now()), w)[1..]
      ensures ok == Succeeds(Operation.Clear, old(Now()), w)
      ensures ok <==> w.locks && w.credsRemoves && w.edgeRemoves
      ensures creds == (if w.locks && w.credsRemoves then NoCreds else old(creds))
      ensures edge == if ok then NoEdge else old(edge)
    {
      if !w.locks {
        passed := passed + [Now()];
        return false;
      }
      ok := RemoveCreds(w.credsRemoves);
      if ok {
        ok := RemoveEdge(w.edgeRemoves);
      }
    }
  }
}
