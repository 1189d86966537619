/** What each operation of the consent fence does, on plain values: sets of withheld sequences, a map
    of recorded origins, and the set of ledgers the disk may hold (a write that reported an error may
    or may not have replaced the file). Fence.dfy proves the fence's methods against these functions;
    FenceSystem.dfy takes them as its steps. */
module FenceSpec {
  import opened Common
  import opened Intervals
  import opened ConsentPolicy

  /** What a graceful shutdown hands the next start. */
  datatype Handover = Handover(highest: int, attempted: int, origins: map<int, Origin>)

  datatype Ledger = Ledger(withheld: set<int>, shutdown: Option<Handover>)

  const NO_LEDGER := Ledger({}, None)

  /** A passive fence confirms no consent at all. */
  const NO_CONSENT := Policy(0, false, [], "")

  datatype Fence = Fence(attempted: int, withheld: set<int>, origins: map<int, Origin>, applied: Option<Policy>,
                         dirty: bool,
                         pending: Option<Handover>, recorded: bool)

  /** A fence, the ledgers its disk may hold, and whether the operation reported success. */
  datatype Outcome = Outcome(fence: Fence, disk: set<Ledger>, ok: bool)

  predicate AllowedBy(o: Origin, p: Policy) { p.Allows(o.root, o.generation) }

  ghost function LedgerOf(f: Fence): Ledger { Ledger(f.withheld, f.pending) }

  /** Rewrites the ledger; wrote is what the write reported. */
  ghost function Persisted(f: Fence, disk: set<Ledger>, wrote: bool): Outcome {
    if wrote then Outcome(f.(dirty := false), {LedgerOf(f)}, true)
    else Outcome(f, disk + {LedgerOf(f)}, false)
  }

  // ---- withholding ------------------------------------------------------------------------------

  /** The recorded sequences not yet attempted whose consent p does not cover. */
  ghost function Denied(f: Fence, p: Policy): set<int> {
    set s | s in f.origins && s > f.attempted && !AllowedBy(f.origins[s], p)
  }

  ghost predicate AlreadyApplied(f: Fence, p: Policy) {
    f.applied.Some? && f.applied.value.version == p.version
  }

  /** Applying p withholds something new. */
  ghost predicate Withdraws(f: Fence, p: Policy) {
    !AlreadyApplied(f, p) && !(Denied(f, p) <= f.withheld)
  }

  ghost function Applied(f: Fence, p: Policy): Fence {
    if AlreadyApplied(f, p) then f
    else f.(applied := Some(p), withheld := f.withheld + Denied(f, p), dirty := f.dirty || Withdraws(f, p))
  }

  ghost function Refreshed(f: Fence, disk: set<Ledger>, p: Policy, wrote: bool): Outcome {
    if Withdraws(f, p) then Persisted(Applied(f, p), disk, wrote) else Outcome(Applied(f, p), disk, true)
  }

  ghost function Recorded(f: Fence, s: int, o: Origin): Fence {
    if s in f.origins then f else f.(origins := f.origins[s := o])
  }

  ghost function AppendRecorded(f: Fence, disk: set<Ledger>, s: int, o: Origin, p: Policy, wrote: bool): Outcome {
    var g := Recorded(f, s, o);
    if s <= f.attempted || AllowedBy(o, p) then Outcome(g, disk, true)
    else Persisted(g.(withheld := g.withheld + {s}, dirty := true), disk, wrote)
  }

  // ---- deciding ---------------------------------------------------------------------------------

  datatype Payload = AsCaptured | Placeholder

  /** Frame s is uploaded as its placeholder: withheld already, or denied now. */
  ghost predicate Withholds(f: Fence, p: Policy, s: int) {
    s in f.withheld || (s > f.attempted && s in f.origins && !AllowedBy(f.origins[s], p))
  }

  ghost function DecidedOne(f: Fence, p: Policy, s: int): Fence {
    if s !in f.withheld && Withholds(f, p, s) then f.(withheld := f.withheld + {s}, dirty := true) else f
  }

  datatype Decision = Decision(fence: Fence, payloads: Option<seq<Payload>>)

  /** Frame by frame; a withheld frame that cannot be decoded (bad) ends the read with no batch. */
  ghost function DecidedAll(f: Fence, p: Policy, frames: seq<int>, bad: set<int>): Decision {
    if frames == [] then Decision(f, Some([]))
    else
      var n := |frames| - 1;
      var d := DecidedAll(f, p, frames[..n], bad);
      if d.payloads.None? then d
      else
        var g := DecidedOne(d.fence, p, frames[n]);
        if frames[n] !in g.withheld then Decision(g, Some(d.payloads.value + [AsCaptured]))
        else if frames[n] in bad then Decision(g, None)
        else Decision(g, Some(d.payloads.value + [Placeholder]))
  }

  // ---- sending ----------------------------------------------------------------------------------

  ghost function Above(m: map<int, Origin>, mark: int): map<int, Origin> {
    map s | s in m && s > mark :: m[s]
  }

  /** The larger of floor and everything in s. */
  ghost function Highest(s: set<int>, floor: int): (h: int)
    ensures h >= floor && (forall x :: x in s ==> x <= h) && (h == floor || h in s)
  {
    if exists x :: x in s then
      var x :| x in s;
      assert s == (s - {x}) + {x};
      Max(x, Highest(s - {x}, floor))
    else floor
  }

  ghost function HandoverOf(f: Fence, highestDurable: int): Handover {
    var later := Above(f.origins, f.attempted);
    Handover(Highest(later.Keys, Max(highestDurable, f.attempted)), f.attempted, later)
  }

  /** No write is needed before a send: nothing is unrecorded and no shutdown record is known. */
  predicate NothingToWrite(f: Fence) { !f.recorded && f.pending.None? && !f.dirty }

  /** The fence as beforeSend leaves it when nothing fails. (A recorded fence always has a record.) */
  ghost function Finalized(f: Fence, last: int): Fence {
    var g := f.(attempted := Max(f.attempted, last));
    if f.recorded && f.pending.Some? then g.(pending := Some(HandoverOf(g, f.pending.value.highest)))
        else g.(pending := None)
  }

  ghost function SendPrepared(f: Fence, disk: set<Ledger>, last: int, wrote: bool): Outcome {
    if NothingToWrite(f) then Outcome(Finalized(f, last), disk, true)
    else
      var out := Persisted(Finalized(f, last), disk, wrote);
      if wrote then out else Outcome(f, out.disk, false)
  }

  ghost function Forgotten(f: Fence, through: int): Fence {
    f.(origins := Above(f.origins, through), withheld := set s | s in f.withheld && s > through)
  }

  // ---- stopping and starting --------------------------------------------------------------------

  ghost function ShutDown(f: Fence, disk: set<Ledger>, highestDurable: int, wrote: bool): Outcome {
    var out := Persisted(f.(pending := Some(HandoverOf(f, highestDurable)), recorded := true), disk, wrote);
    if wrote then out else Outcome(f, out.disk, false)
  }

  /** The record describes a spool that lost frames since. */
  predicate Outgrown(h: Handover, highestDurable: int) { h.highest > highestDurable || h.attempted > h.highest }

  ghost function Bare(l: Ledger, highestDurable: int): Fence {
    Fence(highestDurable, set s | s in l.withheld && s <= highestDurable, map[], None, false, None, false)
  }

  ghost function Resumed(l: Ledger, h: Handover, highestDurable: int): Fence {
    Bare(l, highestDurable).(attempted := h.attempted,
                             origins := map s | s in h.origins && h.attempted < s <= h.highest :: h.origins[s],
                             pending := Some(h))
  }

  /** A start over a disk that turned out to hold l. */
  ghost function Started(l: Ledger, highestDurable: int, live: bool, wrote: bool): Outcome {
    match l.shutdown
    case None => Outcome(Bare(l, highestDurable), {l}, true)
    case Some(h) =>
      if Outgrown(h, highestDurable) then Persisted(Bare(l, highestDurable), {l}, wrote)
      else if live then Outcome(Resumed(l, h, highestDurable), {l}, true)
      else Refreshed(Resumed(l, h, highestDurable), {l}, NO_CONSENT, wrote)
  }

  /** g is f withholding more: only frames of those given, and only such as f would withhold. */
  ghost predicate WithholdsMore(f: Fence, p: Policy, frames: seq<int>, g: Fence) {
    && g == f.(withheld := g.withheld, dirty := g.dirty)
    && f.withheld <= g.withheld
    && (forall s :: s in g.withheld ==> s in f.withheld || (s in frames && Withholds(f, p, s)))
    && (g.dirty == (f.dirty || g.withheld != f.withheld))
  }

  /** Payload i is a placeholder exactly when frame i calls for it, and then the fence withholds it. */
  ghost predicate RightPayload(f: Fence, p: Policy, s: int, payload: Payload, g: Fence) {
    (payload == Placeholder <==> Withholds(f, p, s)) && (s in g.withheld <==> Withholds(f, p, s))
  }

  ghost predicate RightPayloads(f: Fence, p: Policy, frames: seq<int>, payloads: seq<Payload>, g: Fence) {
    |payloads| == |frames| && forall i :: 0 <= i < |frames| ==> RightPayload(f, p, frames[i], payloads[i], g)
  }

  lemma OneMoreWithheld(f: Fence, p: Policy, frames: seq<int>, n: nat, g: Fence)
    requires n < |frames| && WithholdsMore(f, p, frames[..n], g)
    ensures Withholds(g, p, frames[n]) <==> Withholds(f, p, frames[n])
    ensures WithholdsMore(f, p, frames, g) && WithholdsMore(f, p, frames, DecidedOne(g, p, frames[n]))
    ensures frames[n] in DecidedOne(g, p, frames[n]).withheld <==> Withholds(f, p, frames[n])
  {
    assert frames[n] in frames;
    assert forall s :: s in frames[..n] ==> s in frames;
  }

  lemma OneMorePayload(f: Fence, p: Policy, frames: seq<int>, n: nat, payloads: seq<Payload>, g: Fence)
    requires |frames| == n + 1 && WithholdsMore(f, p, frames[..n], g)
    requires RightPayloads(f, p, frames[..n], payloads, g)
    ensures
      var h := DecidedOne(g, p, frames[n]);
      RightPayloads(f, p, frames, payloads + [if frames[n] in h.withheld then Placeholder else AsCaptured], h)
  {
    OneMoreWithheld(f, p, frames, n, g);
    var h := DecidedOne(g, p, frames[n]);
    forall i | 0 <= i < n ensures RightPayload(f, p, frames[i], payloads[i], h) {
      assert RightPayload(f, p, frames[..n][i], payloads[i], g);
    }
  }

  lemma {:induction false} DecidedIsRight(f: Fence, p: Policy, frames: seq<int>, bad: set<int>)
    ensures
      var d := DecidedAll(f, p, frames, bad);
      WithholdsMore(f, p, frames, d.fence)
      && (d.payloads.Some? ==> RightPayloads(f, p, frames, d.payloads.value, d.fence))
  {
    if frames != [] {
      var n := |frames| - 1;
      DecidedIsRight(f, p, frames[..n], bad);
      var d := DecidedAll(f, p, frames[..n], bad);
      OneMoreWithheld(f, p, frames, n, d.fence);
      if d.payloads.Some? {
        OneMorePayload(f, p, frames, n, d.payloads.value, d.fence);
      }
    }
  }

  /** Withheld already, or recorded, unattempted, and not granted by p. */
  ghost predicate Denies(f: Fence, p: Policy, s: int) {
    || s in f.withheld
    || (s in f.origins && f.attempted < s && !p.Allows(f.origins[s].root, f.origins[s].generation))
  }

  /** A read ends with no batch exactly if one of its frames cannot be decoded and is withheld, or to be
      withheld now. */
  lemma {:induction false} EndsOnBadFrame(f: Fence, p: Policy, frames: seq<int>, bad: set<int>)
    ensures DecidedAll(f, p, frames, bad).payloads.None? <==> exists s :: s in frames && s in bad && Denies(f, p, s)
  {
    if frames != [] {
      var n := |frames| - 1;
      EndsOnBadFrame(f, p, frames[..n], bad);
      DecidedIsRight(f, p, frames[..n], bad);
      OneMoreWithheld(f, p, frames, n, DecidedAll(f, p, frames[..n], bad).fence);
      assert forall s :: s in frames <==> s in frames[..n] || s == frames[n];
    }
  }

  /** Deciding frames one after another withholds exactly the frames that call for it, and hands out
      placeholders for exactly the frames then withheld. */
  lemma DecidedAllMeans(f: Fence, p: Policy, frames: seq<int>, bad: set<int>)
    ensures var d := DecidedAll(f, p, frames, bad);
            && d.fence == f.(withheld := d.fence.withheld, dirty := d.fence.dirty)
            && f.withheld <= d.fence.withheld
            && (forall s :: s in d.fence.withheld ==> s in f.withheld || (s in frames && Withholds(f, p, s)))
            && (d.fence.dirty == (f.dirty || d.fence.withheld != f.withheld))
            && (d.payloads.Some? ==>
                  && |d.payloads.value| == |frames|
                  && forall i :: 0 <= i < |frames| ==>
                       && (d.payloads.value[i] == Placeholder <==> Withholds(f, p, frames[i]))
                       && (frames[i] in d.fence.withheld <==> Withholds(f, p, frames[i])))
  {
    DecidedIsRight(f, p, frames, bad);
    var d := DecidedAll(f, p, frames, bad);
    if d.payloads.Some? {
      forall i | 0 <= i < |frames| ensures RightPayload(f, p, frames[i], d.payloads.value[i], d.fence) {}
    }
  }
}
