/** Every step of the fence's system keeps the system's invariant. */
module FenceInvariant {
  import opened Common
  import opened Intervals
  import opened ConsentPolicy
  import opened FenceSpec
  import opened FenceSystem

  /** g is f with some of more withheld on top; the marks and origins did not move. */
  ghost predicate Grew(f: Fence, g: Fence, more: set<int>) {
    && g.attempted == f.attempted && g.origins == f.origins && g.pending == f.pending && g.recorded == f.recorded
    && f.withheld <= g.withheld
    && (forall s :: s in g.withheld ==> s in f.withheld || s in more)
  }

  /** Ledgers that never withhold more than the fence stay right when it writes. */
  lemma PersistedKeeps(f: Fence, disk: set<Ledger>, wrote: bool, acked: int, durable: int)
    requires FenceOk(f, durable)
    requires forall l :: l in disk ==> LedgerOk(l, durable)
    requires forall l, s :: l in disk && s in l.withheld && s > acked ==> s in f.withheld
    requires f.dirty || DiskOk(f, disk, acked, durable)
    ensures var out := Persisted(f, disk, wrote);
            FenceOk(out.fence, durable) && DiskOk(out.fence, out.disk, acked, durable) && Grew(f, out.fence, {})
  {
  }

  lemma RefreshedKeeps(f: Fence, disk: set<Ledger>, p: Policy, wrote: bool, acked: int, durable: int)
    requires FenceOk(f, durable) && DiskOk(f, disk, acked, durable)
    ensures var out := Refreshed(f, disk, p, wrote);
            && FenceOk(out.fence, durable) && DiskOk(out.fence, out.disk, acked, durable)
            && Grew(f, out.fence, Denied(f, p))
  {
    var g := Applied(f, p);
    if Withdraws(f, p) {
      PersistedKeeps(g, disk, wrote, acked, durable);
    } else {
      assert g.withheld == f.withheld;
    }
  }

  lemma DecidedKeeps(f: Fence, disk: set<Ledger>, p: Policy, frames: seq<int>, bad: set<int>, acked: int, durable: int)
    requires FenceOk(f, durable) && DiskOk(f, disk, acked, durable)
    ensures var g := DecidedAll(f, p, frames, bad).fence;
            && FenceOk(g, durable) && DiskOk(g, disk, acked, durable)
            && Grew(f, g, Denied(f, p))
  {
    DecidedAllMeans(f, p, frames, bad);
    var g := DecidedAll(f, p, frames, bad).fence;
    assert forall s :: s in g.withheld ==> s in f.withheld || s in Denied(f, p);
  }

  lemma AppendKeeps(f: Fence, disk: set<Ledger>, s: int, o: Origin, p: Policy, wrote: bool, acked: int, durable: int)
    requires FenceOk(f, durable) && DiskOk(f, disk, acked, durable) && s <= durable && s !in f.origins
    ensures var out := AppendRecorded(f, disk, s, o, p, wrote);
            && FenceOk(out.fence, durable) && DiskOk(out.fence, out.disk, acked, durable)
            && Grew(f.(origins := f.origins[s := o]), out.fence, {s})
  {
    var g := Recorded(f, s, o);
    if !(s <= f.attempted || AllowedBy(o, p)) {
      PersistedKeeps(g.(withheld := g.withheld + {s}, dirty := true), disk, wrote, acked, durable);
    }
  }

  lemma HandoverIsOk(f: Fence, highest: int, durable: int)
    requires f.attempted <= durable && highest <= durable && forall s :: s in f.origins ==> s <= durable
    ensures HandoverOk(HandoverOf(f, highest), durable)
  {
  }

  lemma ShutDownKeeps(f: Fence, disk: set<Ledger>, highest: int, wrote: bool, acked: int, durable: int)
    requires FenceOk(f, durable) && DiskOk(f, disk, acked, durable) && highest <= durable
    ensures var out := ShutDown(f, disk, highest, wrote);
            && FenceOk(out.fence, durable) && DiskOk(out.fence, out.disk, acked, durable)
            && out.fence == f.(pending := out.fence.pending, recorded := out.fence.recorded, dirty := out.fence.dirty)
  {
    HandoverIsOk(f, highest, durable);
    PersistedKeeps(f.(pending := Some(HandoverOf(f, highest)), recorded := true), disk, wrote, acked, durable);
  }

  lemma SendPreparedKeeps(f: Fence, disk: set<Ledger>, last: int, wrote: bool, acked: int, durable: int)
    requires FenceOk(f, durable) && DiskOk(f, disk, acked, durable) && last <= durable
    ensures var out := SendPrepared(f, disk, last, wrote);
            && FenceOk(out.fence, durable) && DiskOk(out.fence, out.disk, acked, durable)
            && out.fence.withheld == f.withheld && out.fence.origins == f.origins
            && out.fence.attempted == (if out.ok then Max(f.attempted, last) else f.attempted)
            && (out.ok ==> !out.fence.dirty)
  {
    var g := f.(attempted := Max(f.attempted, last));
    if f.recorded && f.pending.Some? {
      HandoverIsOk(g, f.pending.value.highest, durable);
    }
    if !NothingToWrite(f) {
      PersistedKeeps(Finalized(f, last), disk, wrote, acked, durable);
    }
  }

  lemma ForgottenKeeps(f: Fence, disk: set<Ledger>, through: int, acked: int, durable: int)
    requires FenceOk(f, durable) && DiskOk(f, disk, acked, durable) && through <= acked
    ensures FenceOk(Forgotten(f, through), durable) && DiskOk(Forgotten(f, through), disk, acked, durable)
  {
  }

  lemma StartedKeeps(l: Ledger, live: bool, wrote: bool, acked: int, durable: int)
    requires LedgerOk(l, durable)
    ensures var out := Started(l, durable, live, wrote);
            && (forall m :: m in out.disk ==> LedgerOk(m, durable))
            && FenceOk(out.fence, durable) && DiskOk(out.fence, out.disk, acked, durable)
  {
    var bare := Bare(l, durable);
    assert DiskOk(bare, {l}, acked, durable);
    if l.shutdown.Some? && !Outgrown(l.shutdown.value, durable) && !live {
      RefreshedKeeps(Resumed(l, l.shutdown.value, durable), {l}, NO_CONSENT, wrote, acked, durable);
    }
  }

  // ---- the lane and the holders across a change of the fence ------------------------------------

  /** Withholding only frames of recorded origin leaves the waiting frames alone. */
  lemma GrowthKeepsHolders(holders: map<nat, Holder>, f: Fence, g: Fence, more: set<int>, floor: int, durable: int)
    requires HoldersOk(holders, f, floor, durable) && Grew(f, g, more)
    requires forall s :: s in more ==> s in f.origins
    ensures HoldersOk(holders, g, floor, durable)
  {
  }

  lemma RecordKeeps(q: Process, id: nat, g: Fence, acked: int, durable: int)
    requires id in q.holders && Pending(q.holders[id])
    requires HoldersOk(q.holders, q.fence, CeilingOf(q.lane, acked), durable)
    requires Attributed(q, acked, durable) && LaneOk(q.lane, q.fence, acked, durable)
    requires
      var h := q.holders[id];
      Grew(q.fence.(origins := q.fence.origins[h.frame.value := h.origin]), g, {h.frame.value})
    ensures var q' := q.(fence := g, holders := q.holders[id := q.holders[id].(recorded := true)]);
            && HoldersOk(q'.holders, g, CeilingOf(q.lane, acked), durable)
            && Attributed(q', acked, durable)
            && LaneOk(q.lane, g, acked, durable)
  {
    var q' := q.(fence := g, holders := q.holders[id := q.holders[id].(recorded := true)]);
    forall s | s in q'.acknowledged && s > acked
      ensures (s in g.origins && g.origins[s] == q'.acknowledged[s])
              || exists i :: i in q'.holders && q'.holders[i] == Holder(q'.acknowledged[s], Some(s), false)
    {
      if !(s in q.fence.origins && q.fence.origins[s] == q.acknowledged[s]) {
        var i :| i in q.holders && q.holders[i] == Holder(q.acknowledged[s], Some(s), false);
        assert i != id ==> q'.holders[i] == q.holders[i];
        assert Pending(q.holders[i]);
      }
    }
  }

  lemma AppendedKeeps(q: Process, id: nat, acked: int, durable: int)
    requires id in q.holders && q.holders[id].frame.None? && acked <= durable
    requires FenceOk(q.fence, durable) && HoldersOk(q.holders, q.fence, CeilingOf(q.lane, acked), durable)
    requires Attributed(q, acked, durable) && LaneOk(q.lane, q.fence, acked, durable)
    ensures var s, o := durable + 1, q.holders[id].origin;
            var q' := q.(holders := q.holders[id := Holder(o, Some(s), false)], acknowledged := q.acknowledged[s := o]);
            HoldersOk(q'.holders, q.fence, CeilingOf(q.lane, acked), s) && Attributed(q', acked, s)
  {
    var s, o := durable + 1, q.holders[id].origin;
    var q' := q.(holders := q.holders[id := Holder(o, Some(s), false)], acknowledged := q.acknowledged[s := o]);
    forall x | x in q'.acknowledged && x > acked
      ensures (x in q.fence.origins && q.fence.origins[x] == q'.acknowledged[x])
              || exists i :: i in q'.holders && q'.holders[i] == Holder(q'.acknowledged[x], Some(x), false)
    {
      if x == s {
        assert q'.holders[id] == Holder(q'.acknowledged[x], Some(x), false);
      } else if !(x in q.fence.origins && q.fence.origins[x] == q.acknowledged[x]) {
        var i :| i in q.holders && q.holders[i] == Holder(q.acknowledged[x], Some(x), false);
        assert i != id && q'.holders[i] == q.holders[i];
      }
    }
  }

  lemma ReleasedKeeps(q: Process, id: nat, acked: int, durable: int)
    requires id in q.holders && !Pending(q.holders[id])
    requires HoldersOk(q.holders, q.fence, CeilingOf(q.lane, acked), durable) && Attributed(q, acked, durable)
    ensures var q' := q.(holders := q.holders - {id});
            HoldersOk(q'.holders, q.fence, CeilingOf(q.lane, acked), durable) && Attributed(q', acked, durable)
  {
    var q' := q.(holders := q.holders - {id});
    forall x | x in q'.acknowledged && x > acked
      ensures (x in q.fence.origins && q.fence.origins[x] == q'.acknowledged[x])
              || exists i :: i in q'.holders && q'.holders[i] == Holder(q'.acknowledged[x], Some(x), false)
    {
      if !(x in q.fence.origins && q.fence.origins[x] == q.acknowledged[x]) {
        var i :| i in q.holders && q.holders[i] == Holder(q.acknowledged[x], Some(x), false);
        assert i != id && q'.holders[i] == q.holders[i];
      }
    }
  }

  lemma AdmittedKeeps(q: Process, id: nat, o: Origin, acked: int, durable: int)
    requires id !in q.holders
    requires HoldersOk(q.holders, q.fence, CeilingOf(q.lane, acked), durable) && Attributed(q, acked, durable)
    ensures var q' := q.(holders := q.holders[id := Holder(o, None, false)]);
            HoldersOk(q'.holders, q.fence, CeilingOf(q.lane, acked), durable) && Attributed(q', acked, durable)
  {
    var q' := q.(holders := q.holders[id := Holder(o, None, false)]);
    forall x | x in q'.acknowledged && x > acked
      ensures (x in q.fence.origins && q.fence.origins[x] == q'.acknowledged[x])
              || exists i :: i in q'.holders && q'.holders[i] == Holder(q'.acknowledged[x], Some(x), false)
    {
      if !(x in q.fence.origins && q.fence.origins[x] == q.acknowledged[x]) {
        var i :| i in q.holders && q.holders[i] == Holder(q.acknowledged[x], Some(x), false);
        assert q'.holders[i] == q.holders[i];
      }
    }
  }

  /** A batch cut from a read agrees with the fence that decided it. */
  lemma DecidedAgrees(f: Fence, p: Policy, first: int, last: int, cut: nat, bad: set<int>)
    requires first <= last && 1 <= cut <= last - first + 1
    requires DecidedAll(f, p, Frames(first, last), bad).payloads.Some?
    ensures var d := DecidedAll(f, p, Frames(first, last), bad);
            |d.payloads.value| == last - first + 1 && Agrees(Batch(first, d.payloads.value[..cut], p), d.fence)
  {
    DecidedAllMeans(f, p, Frames(first, last), bad);
    var d := DecidedAll(f, p, Frames(first, last), bad);
    var b := Batch(first, d.payloads.value[..cut], p);
    forall s | b.Has(s)
      ensures b.At(s) == Placeholder <==> s in d.fence.withheld
      ensures s > d.fence.attempted && s in d.fence.origins && !AllowedBy(d.fence.origins[s], p) ==>
              b.At(s) == Placeholder
    {
      assert Frames(first, last)[s - first] == s;
    }
  }

  // ---- the steps --------------------------------------------------------------------------------

  lemma DurableGrows(y: System)
    requires SystemOk(y)
    ensures SystemOk(y.(durable := y.durable + 1))
  {
  }

  lemma HolderStepKeeps(y: System, q: Process, t: Step)
    requires SystemOk(y) && y.process == Some(q) && EnabledIn(y, q, t)
    requires t.Admit? || t.Release?
    ensures SystemOk(AfterIn(y, q, t))
  {
    if t.Admit? {
      AdmittedKeeps(q, t.id, t.origin, y.acked, y.durable);
    } else {
      ReleasedKeeps(q, t.id, y.acked, y.durable);
    }
  }

  lemma AppendStepKeeps(y: System, q: Process, t: Step)
    requires SystemOk(y) && y.process == Some(q) && EnabledIn(y, q, t) && t.Append?
    ensures SystemOk(AfterIn(y, q, t))
  {
    hide Refreshed, DecidedAll, SendPrepared, ShutDown, AppendRecorded;
    DurableGrows(y);
    AppendedKeeps(q, t.id, y.acked, y.durable);
  }

  lemma RecordStepKeeps(y: System, q: Process, t: Step)
    requires SystemOk(y) && y.process == Some(q) && EnabledIn(y, q, t) && t.RecordAppend?
    ensures SystemOk(AfterIn(y, q, t))
  {
    var h := q.holders[t.id];
    var out := AppendRecorded(q.fence, y.disk, h.frame.value, h.origin, q.latest, t.wrote);
    assert Waiting(h.frame.value, q.fence, CeilingOf(q.lane, y.acked), y.durable);
    AppendKeeps(q.fence, y.disk, h.frame.value, h.origin, q.latest, t.wrote, y.acked, y.durable);
    RecordKeeps(q, t.id, out.fence, y.acked, y.durable);
  }

  lemma RefreshStepKeeps(y: System, q: Process, t: Step)
    requires SystemOk(y) && y.process == Some(q) && EnabledIn(y, q, t) && t.Refresh?
    ensures SystemOk(AfterIn(y, q, t))
  {
    var out := Refreshed(q.fence, y.disk, q.latest, t.wrote);
    RefreshedKeeps(q.fence, y.disk, q.latest, t.wrote, y.acked, y.durable);
    GrowthKeepsHolders(q.holders, q.fence, out.fence, Denied(q.fence, q.latest), CeilingOf(q.lane, y.acked), y.durable);
  }

  lemma DecideStepKeeps(y: System, q: Process, t: Step)
    requires SystemOk(y) && y.process == Some(q) && EnabledIn(y, q, t) && t.Decide?
    ensures SystemOk(AfterIn(y, q, t))
  {
    var p := q.latest;
    var out := Refreshed(q.fence, y.disk, p, t.wrote);
    RefreshedKeeps(q.fence, y.disk, p, t.wrote, y.acked, y.durable);
    GrowthKeepsHolders(q.holders, q.fence, out.fence, Denied(q.fence, p), CeilingOf(q.lane, y.acked), y.durable);
    var d := DecidedAll(out.fence, p, Frames(t.first, t.last), t.bad);
    DecidedKeeps(out.fence, out.disk, p, Frames(t.first, t.last), t.bad, y.acked, y.durable);
    GrowthKeepsHolders(q.holders, out.fence, d.fence, Denied(out.fence, p), CeilingOf(q.lane, y.acked), y.durable);
    if d.payloads.Some? {
      DecidedAgrees(out.fence, p, t.first, t.last, t.cut, t.bad);
    }
  }

  lemma SendStepKeeps(y: System, q: Process, t: Step)
    requires SystemOk(y) && y.process == Some(q) && EnabledIn(y, q, t) && t.BeforeSend?
    ensures SystemOk(AfterIn(y, q, t))
  {
    SendPreparedKeeps(q.fence, y.disk, q.lane.batch.Last(), t.wrote, y.acked, y.durable);
  }

  lemma LaneStepKeeps(y: System, q: Process, t: Step)
    requires SystemOk(y) && y.process == Some(q) && EnabledIn(y, q, t)
    requires t.ReadCeiling? || t.Send? || t.Acknowledge? || t.LaneStops? || t.Publish? || t.Stop?
    ensures SystemOk(AfterIn(y, q, t))
  {
  }

  lemma ForgetStepKeeps(y: System, q: Process, t: Step)
    requires SystemOk(y) && y.process == Some(q) && EnabledIn(y, q, t) && t.Forget?
    ensures SystemOk(AfterIn(y, q, t))
  {
    ForgottenKeeps(q.fence, y.disk, t.through, y.acked, y.durable);
  }

  lemma ShutdownStepKeeps(y: System, q: Process, t: Step)
    requires SystemOk(y) && y.process == Some(q) && EnabledIn(y, q, t) && t.RecordShutdown?
    ensures SystemOk(AfterIn(y, q, t))
  {
    ShutDownKeeps(q.fence, y.disk, t.highest, t.wrote, y.acked, y.durable);
  }

  /** The invariant is inductive over every step, whatever fails. */
  lemma StepKeeps(y: System, t: Step)
    requires SystemOk(y) && Enabled(y, t)
    ensures SystemOk(After(y, t))
  {
    match t {
      case AppendPlain => DurableGrows(y);
      case Start(l, live, p, wrote) => StartedKeeps(l, live, wrote, y.acked, y.durable);
      case Admit(_, _) => HolderStepKeeps(y, y.process.value, t);
      case Append(_) => AppendStepKeeps(y, y.process.value, t);
      case Release(_) => HolderStepKeeps(y, y.process.value, t);
      case RecordAppend(_, _) => RecordStepKeeps(y, y.process.value, t);
      case Refresh(_) => RefreshStepKeeps(y, y.process.value, t);
      case Decide(_, _, _, _, _) => DecideStepKeeps(y, y.process.value, t);
      case BeforeSend(_) => SendStepKeeps(y, y.process.value, t);
      case Forget(_) => ForgetStepKeeps(y, y.process.value, t);
      case RecordShutdown(_, _) => ShutdownStepKeeps(y, y.process.value, t);
      case _ => LaneStepKeeps(y, y.process.value, t);
    }
  }
}
