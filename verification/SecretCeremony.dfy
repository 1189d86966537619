/** The mint ceremony's polling loop (cmd/gasworks/sp.go) and what the command may say of a redeem it got
    no credential from (internal/climint/client.go): the server mints once, reveals once, and a timeout
    looks the same whether it did or not. */
module SecretCeremony {
  import opened Common
  import opened SecretOut
  import opened SecretMint

  const DEFAULT_TTL := 180
  const MAX_TTL := 24 * 60 * 60
  const REDEEM_MARGIN := 60

  const DEFAULT_INTERVAL := 5
  const MIN_INTERVAL := 1
  const MAX_INTERVAL := 60

  const CONSUMED := {"already_consumed", "already_redeemed", "already_completed", "consumed", "redeemed"}
  const REFUSALS := {"expired", "challenge_expired", "denied", "rejected", "not_found", "unknown_challenge",
                     "invalid_challenge"}

  /** What one redeem gets back: nothing, with or without the request having left; or a response, with its
      error code in lower case and trimmed, the interval it asks for, and what its body amounts to. */
  datatype Reply = NoReply(sent: bool) | Response(status: nat, code: string, asked: Option<int>, m: Redemption)

  predicate Success(r: Reply) { r.Response? && 200 <= r.status < 300 }

  predicate Reveals(r: Reply) { Success(r) && r.m.body != [] }

  predicate IsPending(r: Reply) { r.Response? && r.status == 425 }

  predicate MayHaveMinted(r: Reply)
    requires r.Response?
  {
    r.code in CONSUMED || ((r.status == 409 || r.status == 410) && r.code !in REFUSALS)
  }

  /** legCSettled: the server itself says this redeem minted nothing. */
  predicate SaysNothingMinted(r: Reply) {
    IsPending(r) || (r.Response? && 400 <= r.status < 500 && r.status != 425 && !MayHaveMinted(r))
  }

  predicate NeverLeft(r: Reply) { r.NoReply? && !r.sent }

  function Wait(asked: Option<int>): (w: int)
    ensures 1 <= w <= 60
    ensures asked.Some? && 1 <= asked.value <= 60 ==> w == asked.value
    ensures asked.Some? && asked.value > 60 ==> w == 60
    ensures asked.None? || asked.value < 1 ==> w == 5
  {
    var secs := if asked.Some? && asked.value >= MIN_INTERVAL then asked.value else DEFAULT_INTERVAL;
    Min(secs, MAX_INTERVAL)
  }

  /** One turn of the loop: the reply, how long it took, and whether a signal arrived meanwhile. */
  datatype Attempt = Attempt(reply: Reply, took: nat, signal: bool)

  datatype Unknown = ServerSaysConsumed | StatusMayMeanConsumed | NoTelling

  /** How the ceremony ends: with an answer in hand; telling the operator a key may exist; or telling the
      operator nothing was minted. */
  datatype Ending = Revealed(m: Redemption) | MayExist(why: Unknown) | NothingMinted(interrupted: bool)

  /** An honest server: it mints only over a redeem that was sent, and over one it answers it says so, or
      answers with what may mean that it did. Without an answer, or with a 2xx, a 3xx or a 5xx, it may have. */
  ghost predicate Honest(attempts: nat -> Attempt, mints: nat -> bool, count: nat) {
    forall k :: 0 <= k < count && mints(k) ==>
      var r := attempts(k).reply;
      && (r.NoReply? ==> r.sent)
      && (r.Response? && 400 <= r.status < 500 ==>
            && r.status != 425
            && (|| r.code in {"already_consumed", "already_redeemed", "already_completed", "consumed", "redeemed"}
                || (r.status in {409, 410}
                    && r.code !in {"expired", "challenge_expired", "denied", "rejected", "not_found",
                                   "unknown_challenge", "invalid_challenge"})))
  }

  ghost predicate Minted(mints: nat -> bool, count: nat) {
    exists k :: 0 <= k < count && mints(k)
  }

  /** The challenge's window, when it is one, or three minutes; no later than a minute before the session's
      end, when it has one. */
  function Deadline(start: int, expiresIn: int, sessionExpires: int): (d: int)
    ensures sessionExpires > 0 ==> d <= sessionExpires - 60
    ensures d == start + (if 0 < expiresIn <= 86400 then expiresIn else 180) || (0 < sessionExpires == d + 60)
    ensures d <= start + (if 0 < expiresIn <= 86400 then expiresIn else 180)
  {
    var window := if expiresIn <= 0 || expiresIn > MAX_TTL then DEFAULT_TTL else expiresIn;
    var limit := sessionExpires - REDEEM_MARGIN;
    if sessionExpires > 0 && limit < start + window then limit else start + window
  }

  function Unknowing(r: Reply): Unknown {
    if r.Response? && !Success(r) && r.status != 425 && r.code in CONSUMED then ServerSaysConsumed
    else if r.Response? && !Success(r) && r.status != 425 && MayHaveMinted(r) then StatusMayMeanConsumed
    else NoTelling
  }

  /** When redeem k begins. */
  function Clock(start: int, attempts: nat -> Attempt, k: nat): int {
    if k == 0 then start
    else
      var a := attempts(k - 1);
      Clock(start, attempts, k - 1) + a.took + Wait(if a.reply.Response? then a.reply.asked else None)
  }

  /** The loop of runMintCeremony. It redeems again only after a reply that says nothing was minted yet, so
      it says that nothing was minted exactly when no redeem left, or the server said so of every one that
      did; and over an honest server a key that exists is either in hand or reported. */
  method Poll(start: int, deadline: int, attempts: nat -> Attempt, ghost mints: nat -> bool)
    returns (ending: Ending, count: nat)
    ensures count >= 1
    ensures forall k :: 0 <= k < count - 1 ==>
              attempts(k).reply.Response? && attempts(k).reply.status == 425 && !attempts(k).signal
    ensures ending.Revealed? <==>
              var r := attempts(count - 1).reply; r.Response? && 200 <= r.status < 300 && r.m.body != []
    ensures ending.Revealed? ==> ending.m == attempts(count - 1).reply.m
    ensures ending.NothingMinted? <==>
              forall k :: 0 <= k < count ==>
                var r := attempts(k).reply;
                || (r.NoReply? && !r.sent)
                || (r.Response? && r.status == 425)
                || (&& r.Response? && 400 <= r.status < 500
                    && r.code !in {"already_consumed", "already_redeemed", "already_completed", "consumed", "redeemed"}
                    && (r.status in {409, 410} ==>
                          r.code in {"expired", "challenge_expired", "denied", "rejected", "not_found",
                                     "unknown_challenge", "invalid_challenge"}))
    ensures ending.NothingMinted? ==> ending.interrupted == attempts(count - 1).signal
    ensures count > 1 ==> Clock(start, attempts, count - 1) < deadline
    ensures IsPending(attempts(count - 1).reply) && !attempts(count - 1).signal ==>
            Clock(start, attempts, count) >= deadline
    ensures ending.MayExist? ==>
              var r := attempts(count - 1).reply;
              && (ending.why == ServerSaysConsumed <==>
                    && r.Response? && !(200 <= r.status < 300)
                    && r.code in {"already_consumed", "already_redeemed", "already_completed", "consumed", "redeemed"})
              && (ending.why == StatusMayMeanConsumed <==>
                    && r.Response? && r.status in {409, 410}
                    && r.code !in {"already_consumed", "already_redeemed", "already_completed", "consumed", "redeemed"})
    ensures Honest(attempts, mints, count) && Minted(mints, count) ==> ending.Revealed? || ending.MayExist?
    ensures count > 1 ==> start + count - 1 < deadline
  {
    var t := start;
    count := 0;
    while true
      invariant forall k :: 0 <= k < count ==> IsPending(attempts(k).reply) && !attempts(k).signal
      invariant t == Clock(start, attempts, count) >= start + count
      invariant count > 0 ==> t < deadline
      decreases deadline - t
    {
      var a := attempts(count);
      var r := a.reply;
      count := count + 1;
      t := t + a.took;
      if Reveals(r) {
        return Revealed(r.m), count;
      }
      if !SaysNothingMinted(r) {
        if NeverLeft(r) {
          return NothingMinted(a.signal), count;
        }
        return MayExist(Unknowing(r)), count;
      }
      if a.signal || !IsPending(r) {
        return NothingMinted(a.signal), count;
      }
      var wait := Wait(r.asked);
      if t + wait >= deadline {
        return NothingMinted(false), count;
      }
      t := t + wait;
    }
  }

  /** How the whole command ends: before the ceremony had an answer, or after. */
  datatype Report = Ended(ending: Ending) | Finished(exit: Exit)

  /** The command from the reservation on. Over an honest server no minted key is lost in silence: it is in
      the file the user named, in the fallback file, or printed, or the operator is told one may exist. The
      deferred discard runs on every path: it removes the named file exactly when no answer came or there was
      no room for the one that did, and never one a secret byte was written to. */
  method MintKey(file: SecretFile, f: Format, start: int, expiresIn: int, sessionExpires: int, attempts: nat -> Attempt,
                 ghost mints: nat -> bool, x: World)
    returns (report: Report, count: nat, fallback: Option<Bytes>, printed: Option<Print>)
    requires file.Valid() && file.armed && !file.removed
    modifies file
    ensures file.Valid()
    ensures Honest(attempts, mints, count) && Minted(mints, count) ==> report.Finished? || report.ending.MayExist?
    ensures report.Finished? ==>
              && count >= 1 && Reveals(attempts(count - 1).reply)
              && var m := attempts(count - 1).reply.m;
                 && (file.removed <==> !HasRoom(old(file.reserved), m, x))
                 && (report.exit == Saved || report.exit == Unrendered ==> !file.removed)
                 && (report.exit == Saved ==> !MintProblem(m) && file.content == Render(f, m.secret))
                 && (report.exit == Unrendered ==> m.body <= file.content)
                 && (report.exit == Rescued ==> fallback == Some(RescueContent(m, f)))
                 && (IsPrint(report.exit) ==> printed.Some? && PrintOf(printed.value, m, f, x.screen))
    ensures report.Ended? ==> file.removed && !report.ending.Revealed?
    ensures count > 1 ==> Clock(start, attempts, count - 1) < Deadline(start, expiresIn, sessionExpires)
    ensures file.removed ==> !file.written
  {
    var ending;
    ending, count := Poll(start, Deadline(start, expiresIn, sessionExpires), attempts, mints);
    fallback, printed := None, None;
    if ending.Revealed? {
      var exit;
      exit, fallback, printed := FinishMint(file, ending.m, f, x);
      report := Finished(exit);
    } else {
      report := Ended(ending);
    }
    file.Discard();
  }
}
