/** The consent fence in its daemon, as a transition system: watcher appends, other producers, policy
    publications, upload batches with their retries and acknowledgements, ledger writes that fail or
    half-fail, shutdown records, crashes, and starts with or without a live policy. Each step applies
    one operation of FenceSpec; a run is any sequence of enabled steps. */
module FenceSystem {
  import opened Common
  import opened Intervals
  import opened ConsentPolicy
  import opened FenceSpec

  /** A watcher append between its admission and the release of the gate. */
  datatype Holder = Holder(origin: Origin, frame: Option<int>, recorded: bool)

  /** The frames first, first + 1, ... as decided under one policy. */
  datatype Batch = Batch(first: int, payloads: seq<Payload>, under: Policy) {
    function Last(): int { first + |payloads| - 1 }

    predicate Has(s: int) { first <= s <= Last() }

    function At(s: int): Payload
      requires Has(s)
    {
      payloads[s - first]
    }
  }

  /** The upload lane: one pass reads the durable ceiling once, then decides, prepares and sends batch
      after batch below it. */
  datatype Lane = Idle | Open(ceiling: int) | Decided(ceiling: int, batch: Batch) | Sending(ceiling: int, batch: Batch)

  datatype Process = Process(live: bool, latest: Policy, fence: Fence, holders: map<nat, Holder>, lane: Lane,
                             acknowledged: map<int, Origin>)

  /** Frames 1 .. durable are in the log, those up to acked are never read again. disk is every ledger
      the state directory may hold; sent is every (sequence, payload) ever put on the wire. */
  datatype System = System(durable: int, acked: int, disk: set<Ledger>, sent: set<(int, Payload)>,
                           process: Option<Process>)

  ghost predicate Init(y: System) {
    0 <= y.acked <= y.durable && y.disk == {NO_LEDGER} && y.sent == {} && y.process.None?
  }

  datatype Step =
    // another producer's frame, or an append whose acknowledgement was lost
    | AppendPlain
    | Publish(policy: Policy)
    | Admit(id: nat, origin: Origin)
    | Append(id: nat)                               // the admitted append is durable and acknowledged
    | RecordAppend(id: nat, wrote: bool)
    | Release(id: nat)
    | ReadCeiling
    | Refresh(wrote: bool)
    | Decide(first: int, last: int, cut: nat, bad: set<int>, wrote: bool)
    | BeforeSend(wrote: bool)
    | Send
    | Acknowledge(through: int)                     // the collector's acknowledgement is durable
    | Forget(through: int)
    | LaneStops
    | RecordShutdown(highest: int, wrote: bool)
    | Stop                                          // a crash, or the end of a graceful stop
    | Start(ledger: Ledger, live: bool, policy: Policy, wrote: bool)

  ghost predicate Enabled(y: System, t: Step) {
    match t
    case AppendPlain => true
    case Start(l, live, p, _) => y.process.None? && l in y.disk && (live ==> p.version >= 1)
    case _ => y.process.Some? && EnabledIn(y, y.process.value, t)
  }

  ghost predicate EnabledIn(y: System, q: Process, t: Step) {
    match t
    case AppendPlain => true
    case Publish(p) => q.live && p.version > q.latest.version
    case Admit(id, o) => id !in q.holders && AllowedBy(o, q.latest)
    case Append(id) => id in q.holders && q.holders[id].frame.None?
    case RecordAppend(id, _) => id in q.holders && q.holders[id].frame.Some? && !q.holders[id].recorded
    case Release(id) => id in q.holders && (q.holders[id].frame.Some? ==> q.holders[id].recorded)
    case ReadCeiling => q.lane.Idle? && q.holders == map[]
    case Refresh(_) => q.lane.Open?
    case Decide(first, last, cut, _, _) =>
      q.lane.Open? && y.acked < first <= last <= q.lane.ceiling && 1 <= cut <= last - first + 1
    case BeforeSend(_) => q.lane.Decided?
    case Send => q.lane.Sending?
    case Acknowledge(through) => q.lane.Sending? && y.acked <= through <= q.lane.ceiling
    case Forget(through) => through <= y.acked
    case LaneStops => true
    case RecordShutdown(highest, _) => highest <= y.durable
    case Stop => true
    case Start(_, _, _, _) => false
  }

  function Frames(first: int, last: int): (fs: seq<int>)
    requires first <= last + 1
    ensures |fs| == last - first + 1 && forall i :: 0 <= i < |fs| ==> fs[i] == first + i
  {
    seq(last - first + 1, i => first + i)
  }

  ghost function Entries(b: Batch): set<(int, Payload)> {
    set i | 0 <= i < |b.payloads| :: (b.first + i, b.payloads[i])
  }

  ghost function After(y: System, t: Step): System
    requires Enabled(y, t)
  {
    match t
    case AppendPlain => y.(durable := y.durable + 1)
    case Start(l, live, p, wrote) =>
      var out := Started(l, y.durable, live, wrote);
      var latest := if live then p else NO_CONSENT;
      y.(disk := out.disk,
         process := if out.ok then Some(Process(live, latest, out.fence, map[], Idle, map[])) else None)
    case _ => AfterIn(y, y.process.value, t)
  }

  ghost function AfterIn(y: System, q: Process, t: Step): System
    requires y.process == Some(q) && EnabledIn(y, q, t)
  {
    match t
    case AppendPlain => y
    case Start(_, _, _, _) => y
    case Publish(p) => y.(process := Some(q.(latest := p)))
    case Admit(id, o) => y.(process := Some(q.(holders := q.holders[id := Holder(o, None, false)])))
    case Append(id) =>
      var s := y.durable + 1;
      var o := q.holders[id].origin;
      y.(durable := s,
         process := Some(q.(holders := q.holders[id := Holder(o, Some(s), false)],
                            acknowledged := q.acknowledged[s := o])))
    case RecordAppend(id, wrote) =>
      var h := q.holders[id];
      var out := AppendRecorded(q.fence, y.disk, h.frame.value, h.origin, q.latest, wrote);
      y.(disk := out.disk, process := Some(q.(fence := out.fence, holders := q.holders[id := h.(recorded := true)])))
    case Release(id) => y.(process := Some(q.(holders := q.holders - {id})))
    case ReadCeiling => y.(process := Some(q.(lane := Open(y.durable))))
    case Refresh(wrote) =>
      var out := Refreshed(q.fence, y.disk, q.latest, wrote);
      y.(disk := out.disk, process := Some(q.(fence := out.fence, lane := if out.ok then q.lane else Idle)))
    case Decide(first, last, cut, bad, wrote) =>
      var out := Refreshed(q.fence, y.disk, q.latest, wrote);
      var d := DecidedAll(out.fence, q.latest, Frames(first, last), bad);
      DecidedAllMeans(out.fence, q.latest, Frames(first, last), bad);
      var lane := match d.payloads
        case None => Idle
        case Some(ps) => Decided(q.lane.ceiling, Batch(first, ps[..cut], q.latest));
      y.(disk := out.disk, process := Some(q.(fence := d.fence, lane := lane)))
    case BeforeSend(wrote) =>
      var out := SendPrepared(q.fence, y.disk, q.lane.batch.Last(), wrote);
      y.(disk := out.disk,
         process := Some(q.(fence := out.fence, lane := if out.ok then Sending(q.lane.ceiling, q.lane.batch)
                            else Idle)))
    case Send => y.(sent := y.sent + Entries(q.lane.batch))
    case Acknowledge(through) => y.(acked := through, process := Some(q.(lane := Open(q.lane.ceiling))))
    case Forget(through) => y.(process := Some(q.(fence := Forgotten(q.fence, through))))
    case LaneStops => y.(process := Some(q.(lane := Idle)))
    case RecordShutdown(highest, wrote) =>
      var out := ShutDown(q.fence, y.disk, highest, wrote);
      y.(disk := out.disk, process := Some(q.(fence := out.fence)))
    case Stop => y.(process := None)
  }

  // ---- what every reachable state keeps ---------------------------------------------------------

  ghost predicate HandoverOk(h: Handover, durable: int) {
    && h.attempted <= h.highest <= durable
    && forall s :: s in h.origins ==> s <= h.highest
  }

  ghost predicate LedgerOk(l: Ledger, durable: int) {
    && (forall s :: s in l.withheld ==> s <= durable)
    && (l.shutdown.Some? ==> HandoverOk(l.shutdown.value, durable))
  }

  ghost predicate FenceOk(f: Fence, durable: int) {
    && f.attempted <= durable
    && (forall s :: s in f.origins ==> s <= durable)
    && (forall s :: s in f.withheld ==> s <= durable)
    && (f.pending.Some? ==> HandoverOk(f.pending.value, durable))
    && (f.recorded ==> f.pending.Some?)
  }

  /** Above the acknowledgement the disk never withholds more than the fence, and not less unless the
      fence knows it has something to write. */
  ghost predicate InStep(f: Fence, l: Ledger, acked: int) {
    && (forall s :: s in l.withheld && s > acked ==> s in f.withheld)
    && (!f.dirty ==> forall s :: s in f.withheld && s > acked ==> s in l.withheld)
  }

  ghost predicate DiskOk(f: Fence, disk: set<Ledger>, acked: int, durable: int) {
    forall l :: l in disk ==> LedgerOk(l, durable) && InStep(f, l, acked)
  }

  ghost predicate Pending(h: Holder) { h.frame.Some? && !h.recorded }

  function CeilingOf(lane: Lane, acked: int): int { if lane.Idle? then acked else lane.ceiling }

  /** A frame still waiting for its origin is above everything the lane may read and unknown to the fence. */
  ghost predicate HoldersOk(holders: map<nat, Holder>, f: Fence, floor: int, durable: int) {
    && (forall i :: i in holders && Pending(holders[i]) ==> Waiting(holders[i].frame.value, f, floor, durable))
    && (forall i, j :: i in holders && j in holders && i != j && Pending(holders[i]) && Pending(holders[j]) ==>
          holders[i].frame != holders[j].frame)
  }

  ghost predicate Waiting(s: int, f: Fence, floor: int, durable: int) {
    floor < s <= durable && s !in f.origins && s !in f.withheld
  }

  /** Every acknowledged append not yet acknowledged by the collector has its origin recorded, or its
      holder still has the gate. */
  ghost predicate Attributed(q: Process, acked: int, durable: int) {
    forall s :: s in q.acknowledged ==>
      && s <= durable
      && (s > acked ==> (s in q.fence.origins && q.fence.origins[s] == q.acknowledged[s])
                        || exists i :: i in q.holders && q.holders[i] == Holder(q.acknowledged[s], Some(s), false))
  }

  ghost predicate BatchOk(b: Batch, acked: int, ceiling: int) {
    acked < b.first && |b.payloads| > 0 && b.Last() <= ceiling
  }

  /** A decided batch still agrees with the fence, and its policy's denials are placeholders. */
  ghost predicate Agrees(b: Batch, f: Fence) {
    forall s :: b.Has(s) ==>
      && (b.At(s) == Placeholder <==> s in f.withheld)
      && (s > f.attempted && s in f.origins && !AllowedBy(f.origins[s], b.under) ==> b.At(s) == Placeholder)
  }

  ghost predicate LaneOk(lane: Lane, f: Fence, acked: int, durable: int) {
    && (lane.Idle? || acked <= lane.ceiling <= durable)
    && (lane.Decided? || lane.Sending? ==> BatchOk(lane.batch, acked, lane.ceiling))
    && (lane.Decided? ==> Agrees(lane.batch, f))
  }

  ghost predicate ProcessOk(q: Process, disk: set<Ledger>, acked: int, durable: int) {
    && FenceOk(q.fence, durable)
    && DiskOk(q.fence, disk, acked, durable)
    && HoldersOk(q.holders, q.fence, CeilingOf(q.lane, acked), durable)
    && Attributed(q, acked, durable)
    && LaneOk(q.lane, q.fence, acked, durable)
  }

  ghost predicate SystemOk(y: System) {
    && 0 <= y.acked <= y.durable
    && (forall l :: l in y.disk ==> LedgerOk(l, y.durable))
    && (y.process.Some? ==> ProcessOk(y.process.value, y.disk, y.acked, y.durable))
  }
}
