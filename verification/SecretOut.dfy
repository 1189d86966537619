/** The one-shot secret's file (cmd/gasworks/secretout.go): reserved before the ceremony, given the mint
    plane's response the moment it arrives, then rewritten as the credential; every write, flush,
    read-back and truncate may fail, and a write may stop short. */
module SecretOut {
  import opened Common

  const SPACE_PROOF_BYTES: nat := 64 * 1024

  const PLACEHOLDER_LINE: string := "gasworks: space reserved for a minted secret; overwritten when one arrives\n"

  /** n bytes of placeholder, none of them zero. */
  function SpaceProof(n: nat): (p: Bytes)
    ensures |p| == n && forall i :: 0 <= i < n ==> p[i] != 0
  {
    seq(n, i => var b := PLACEHOLDER_LINE[i % |PLACEHOLDER_LINE|] as int; if 0 < b < 256 then b else 1)
  }

  // ---- what the filesystem does -----------------------------------------------------------------

  /** A write lands a prefix; one that stops short reports an error, and one that does not may too. */
  datatype WriteResult = WriteResult(room: nat, reports: bool) {
    function Landed(data: Bytes): Bytes { if room < |data| then data[..room] else data }

    predicate Fails(data: Bytes) { reports || room < |data| }
  }

  /** The file after data[..landed] was written over it at offset at. */
  function Overwritten(c: Bytes, at: nat, data: Bytes): (d: Bytes)
    requires at <= |c|
    ensures |d| == Max(|c|, at + |data|)
    ensures d[..at] == c[..at] && d[at..at + |data|] == data
    ensures forall i :: at + |data| <= i < |c| ==> d[i] == c[i]
  {
    c[..at] + data + (if at + |data| <= |c| then c[at + |data|..] else [])
  }

  /** Everything the world decides while a response is being stored. */
  datatype StoreWorld = StoreWorld(reserve: WriteResult, reserveSynced: bool, write: WriteResult, synced: bool,
                                   readable: bool)

  /** Everything it decides while the response is being rewritten, put back and cut. */
  datatype RewriteWorld = RewriteWorld(reserve: WriteResult, reserveSynced: bool, write: WriteResult, synced: bool,
                                       truncated: bool,
                                       restore: StoreWorld, cut: bool)

  /** Claiming n bytes when reserved are claimed already works out. */
  predicate Reserves(n: nat, reserved: nat, w: WriteResult, synced: bool) {
    n <= reserved || (!w.Fails(SpaceProof(n - reserved)) && synced)
  }

  /** Rendered, or the response verified still there, or an error that sends the caller to the rescue:
      the response could not be put back, or the rendering could not be cut free of what follows it. */
  datatype Rewrite = Rendered | ResponseKept | ResponseLost | Trailing

  class SecretFile {
    var content: Bytes
    var reserved: nat
    var saved: Option<Bytes>
    var armed: bool
    var removed: bool
    ghost var written: bool              // a byte of a secret was written to this file

    /** The reserved bytes exist, and a file that may still be removed holds nothing of a secret. */
    ghost predicate Valid()
      reads this
    {
      reserved <= |content| && (armed ==> !written) && (removed ==> !written)
    }

    constructor ()
      ensures Valid() && content == [] && reserved == 0 && saved.None? && armed && !removed && !written
    {
      content, reserved, saved, armed, removed, written := [], 0, None, true, false, false;
    }

    method WriteAt(data: Bytes, at: nat, w: WriteResult) returns (failed: bool)
      requires at <= |content|
      modifies this`content
      ensures failed == w.Fails(data)
      ensures content == Overwritten(old(content), at, w.Landed(data))
    {
      content := Overwritten(content, at, w.Landed(data));
      return w.Fails(data);
    }

    /** Writes secret bytes, only ever into bytes already reserved: the file does not grow. */
    method WriteSecret(data: Bytes, w: WriteResult) returns (failed: bool)
      requires Valid() && !armed && !removed && |data| <= reserved
      modifies this`content, this`written
      ensures Valid() && written && failed == w.Fails(data)
      ensures |content| == |old(content)| && content == Overwritten(old(content), 0, w.Landed(data))
    {
      failed := WriteAt(data, 0, w);
      written := true;
    }

    /** The first n bytes, when the file can be read that far. */
    method ReadBack(n: nat, readable: bool) returns (r: Option<Bytes>)
      ensures r == if readable && n <= |content| then Some(content[..n]) else None
    {
      return if readable && n <= |content| then Some(content[..n]) else None;
    }

    /** Claims the blocks for n bytes by writing placeholder past what is claimed. */
    method Reserve(n: nat, w: WriteResult, synced: bool) returns (ok: bool)
      requires Valid()
      modifies this`content, this`reserved
      ensures Valid()
      ensures ok <==> Reserves(n, old(reserved), w, synced)
      ensures ok <==> n <= old(reserved) || (!w.reports && w.room >= n - old(reserved) && synced)
      ensures reserved == if ok then Max(old(reserved), n) else old(reserved)
      ensures content[..old(reserved)] == old(content)[..old(reserved)]
      ensures n <= old(reserved) ==> content == old(content)
    {
      if n <= reserved {
        return true;
      }
      var failed := WriteAt(SpaceProof(n - reserved), reserved, w);
      if failed || !synced {
        return false;
      }
      reserved := n;
      return true;
    }

    /** Releases the reservation: the file goes only while it is armed. */
    method Discard()
      requires Valid()
      modifies this`armed, this`removed
      ensures Valid() && !armed
      ensures removed == (old(removed) || old(armed))
      ensures removed && !old(removed) ==> !written
    {
      if armed {
        armed, removed := false, true;
      }
    }

    method Disarm()
      requires Valid()
      modifies this`armed
      ensures Valid() && !armed
    {
      armed := false;
    }

    /** Stores the response before anything reads it. What counts is whether it reads back. */
    method Persist(raw: Bytes, x: StoreWorld) returns (ok: bool)
      requires Valid() && !removed
      modifies this
      ensures Valid() && !removed
      ensures ok ==> saved == Some(raw) && raw <= content && !armed && reserved == Max(old(reserved), |raw|)
      ensures !ok ==> saved == old(saved)
      ensures ok <==> Reserves(|raw|, old(reserved), x.reserve, x.reserveSynced) && x.readable && raw <= content
      ensures Reserves(|raw|, old(reserved), x.reserve, x.reserveSynced) && x.readable && !x.write.Fails(raw) ==> ok
      ensures armed == (old(armed) && !Reserves(|raw|, old(reserved), x.reserve, x.reserveSynced))
    {
      var room := Reserve(|raw|, x.reserve, x.reserveSynced);
      if !room {
        return false;
      }
      Disarm();
      var _ := WriteSecret(raw, x.write);
      var stored := ReadBack(|raw|, x.readable);
      assert raw <= content <==> |raw| <= |content| && content[..|raw|] == raw;
      if stored != Some(raw) {
        return false;
      }
      saved := stored;
      return true;
    }

    /** Cuts the file back to the response; a cut that fails leaves placeholder after it. */
    method KeepResponse(cut: bool)
      requires Valid() && saved.Some? && |saved.value| <= reserved && saved.value <= content
      modifies this`content, this`reserved
      ensures Valid() && saved.value <= content
      ensures if cut then content == saved.value && reserved == |saved.value|
              else content == old(content) && reserved == old(reserved)
    {
      if cut {
        content := content[..|saved.value|];
        reserved := |saved.value|;
      }
    }

    /** Puts the response back after a rendering that could not be written, and says which of the two
        the file ended up with. */
    method RestoreResponse(x: StoreWorld, cut: bool) returns (r: Rewrite)
      requires Valid() && !armed && !removed && (saved.Some? ==> |saved.value| <= reserved)
      modifies this`content, this`reserved, this`written
      ensures Valid()
      ensures r == ResponseKept || r == ResponseLost
      ensures r == ResponseKept ==> saved.Some? && saved.value <= content
      ensures r == ResponseKept && cut ==> content == saved.value
      ensures r == ResponseLost ==> saved.None? || !x.readable || !(saved.value <= content)
      ensures saved.Some? && x.readable && !x.write.Fails(saved.value) ==> r == ResponseKept
      ensures saved.None? ==> content == old(content)
    {
      if saved.None? {
        return ResponseLost; // there is no response to put back
      }
      var data := saved.value;
      var _ := WriteSecret(data, x.write);
      var back := ReadBack(|data|, x.readable);
      assert data <= content <==> |data| <= |content| && content[..|data|] == data;
      if back != Some(data) {
        return ResponseLost;
      }
      KeepResponse(cut);
      return ResponseKept;
    }

    /** Replaces the saved response with the rendering. Every outcome but a clean one leaves the response
        verified in place or reports an error; nothing in between is called a credential. */
    method Rewrite(body: Bytes, x: RewriteWorld) returns (r: Rewrite)
      requires Valid() && !armed && !removed && (saved.Some? ==> |saved.value| <= reserved)
      modifies this`content, this`reserved, this`written
      ensures Valid()
      ensures r == Rendered ==> content == body && reserved == |body|
      ensures r == ResponseKept ==> saved.Some? && saved.value <= content
      ensures r == Trailing ==> body <= content
      ensures r == ResponseLost ==> saved.None? || !x.restore.readable || !(saved.value <= content)
      ensures var wrote := Reserves(|body|, old(reserved), x.reserve, x.reserveSynced) && !x.write.Fails(body) &&
              x.synced;
              && (r == Rendered <==> wrote && x.truncated)
              && (r == Trailing <==> wrote && !x.truncated)
              && (!wrote && saved.Some? && x.restore.readable && !x.restore.write.Fails(saved.value) ==>
                  r == ResponseKept)
    {
      var room := Reserve(|body|, x.reserve, x.reserveSynced);
      if !room {
        r := RestoreResponse(x.restore, x.cut);
        return;
      }
      var failed := WriteSecret(body, x.write);
      if failed || !x.synced {
        r := RestoreResponse(x.restore, x.cut);
        return;
      }
      assert content[..|body|] == body;
      if !x.truncated {
        return Trailing;
      }
      content := content[..|body|];
      reserved := |body|;
      return Rendered;
    }
  }
}
