/** The content re-upload tool (internal/observer/daemon/reupload.go): one resumable pass that sends again
    what earlier uploads recorded. */
module Reupload {
  import opened Common

  const ATTEMPTS := 4
  const BACKOFF := 5
  const MAX_HOLD := 300

  // One transcript's POSTs.

  /** What one POST meets: the run's context ends, no answer at all, or the collector's. */
  datatype Answer = Cancelled | Lost | Status(code: nat, bindingConflict: bool, retryAfter: nat)

  datatype Outcome = Accepted | GcRefused | Conflict | Rejected | Failed | Refused | Stopped

  predicate IsAccept(a: Answer) { a.Status? && (a.code == 200 || a.code == 201) }

  predicate IsConflict(a: Answer) { a.Status? && a.code == 409 }

  predicate IsReject(a: Answer) { a.Status? && (a.code == 400 || a.code == 413 || a.code == 422) }

  predicate IsRefusal(a: Answer) { a.Status? && (a.code == 401 || a.code == 403 || a.code == 404 || a.code == 501) }

  /** Anything else: no answer, a 5xx, a 429, a status the client does not know. */
  predicate IsTransient(a: Answer) {
    !a.Cancelled? && !IsAccept(a) && !IsConflict(a) && !IsReject(a) && !IsRefusal(a)
  }

  /** The collector refuses the GC session binding offered along with the content. */
  predicate BindingRefused(a: Answer, offered: string) {
    IsConflict(a) && a.bindingConflict && offered != ""
  }

  /** offers[i] is the GC binding POST i offered. Every POST but the last met something the tool retries;
      the binding is dropped by the one answer that refuses it, and only then. */
  ghost predicate Retried(answers: nat -> Answer, offers: seq<string>) {
    forall i :: 0 < i < |offers| ==> Follows(answers(i - 1), offers[i - 1], offers[i])
  }

  predicate Follows(a: Answer, offered: string, next: string) {
    if BindingRefused(a, offered) then next == "" else IsTransient(a) && next == offered
  }

  lemma RetriedOnce(answers: nat -> Answer, offers: seq<string>, next: string)
    requires offers != [] && Retried(answers, offers)
    requires Follows(answers(|offers| - 1), offers[|offers| - 1], next)
    ensures Retried(answers, offers + [next])
  {
    var more := offers + [next];
    forall i | 0 < i < |more| ensures Follows(answers(i - 1), more[i - 1], more[i]) {
      if i < |offers| {
        assert Follows(answers(i - 1), offers[i - 1], offers[i]);
      }
    }
  }

  /** The wait to try next after POST i: it doubles with each wait, up to the cap. */
  function Backoff(answers: nat -> Answer, offers: seq<string>, i: nat): (b: nat)
    requires i <= |offers|
    ensures b <= MAX_HOLD
  {
    if i == 0 then BACKOFF
    else if BindingRefused(answers(i - 1), offers[i - 1]) then Backoff(answers, offers, i - 1)
    else Min(Backoff(answers, offers, i - 1) * 2, MAX_HOLD)
  }

  /** The wait after POST i: none when only the binding is dropped, what a 429 asks for, or the back-off. */
  function Pause(answers: nat -> Answer, offers: seq<string>, i: nat): (p: nat)
    requires i < |offers|
    ensures p <= MAX_HOLD
  {
    var a := answers(i);
    if BindingRefused(a, offers[i]) then 0
    else if a.Status? && a.code == 429 && a.retryAfter > 0 then Min(a.retryAfter, MAX_HOLD)
    else Backoff(answers, offers, i)
  }

  lemma {:induction false} BackoffStays(answers: nat -> Answer, offers: seq<string>, more: seq<string>, i: nat)
    requires offers <= more && i <= |offers|
    ensures Backoff(answers, more, i) == Backoff(answers, offers, i)
  {
    if i > 0 {
      BackoffStays(answers, offers, more, i - 1);
    }
  }

  /** waited[i] is how long the tool waited after POST i. */
  ghost predicate Waited(answers: nat -> Answer, offers: seq<string>, waited: seq<nat>) {
    |waited| <= |offers| && forall i :: 0 <= i < |waited| ==> waited[i] == Pause(answers, offers, i)
  }

  lemma WaitedStays(answers: nat -> Answer, offers: seq<string>, next: string, waited: seq<nat>)
    requires Waited(answers, offers, waited)
    ensures Waited(answers, offers + [next], waited)
    ensures Backoff(answers, offers + [next], |offers|) == Backoff(answers, offers, |offers|)
  {
    forall i | 0 <= i <= |offers| ensures Backoff(answers, offers + [next], i) == Backoff(answers, offers, i) {
      BackoffStays(answers, offers, offers + [next], i);
    }
  }

  /** What the last answer and the POSTs before it come to. */
  predicate Classified(gc: string, offered: string, a: Answer, posts: nat, slept: bool, outcome: Outcome) {
    match outcome
    case Accepted => IsAccept(a) && offered == gc
    case GcRefused => IsAccept(a) && offered != gc
    case Conflict => IsConflict(a) && !BindingRefused(a, offered)
    case Rejected => IsReject(a)
    case Refused => IsRefusal(a)
    case Failed => IsTransient(a) && posts >= ATTEMPTS
    case Stopped => a.Cancelled? || (IsTransient(a) && posts < ATTEMPTS && !slept)
  }

  /** postReupload. sleeps(k) is false when the context ends during the wait after POST k; waited is how
      long each wait was to last, in seconds. */
  method PostReupload(gcSession: string, gcRefusedBefore: bool, answers: nat -> Answer, sleeps: nat -> bool)
    returns (outcome: Outcome, offers: seq<string>, waited: seq<nat>)
    ensures offers != [] && offers[0] == (if gcRefusedBefore then "" else gcSession)
    ensures Retried(answers, offers)
    ensures Classified(offers[0], offers[|offers| - 1], answers(|offers| - 1), |offers|, sleeps(|offers|), outcome)
    ensures |offers| <= 5
    ensures |offers| > ATTEMPTS ==> BindingRefused(answers(ATTEMPTS - 1), offers[ATTEMPTS - 1])
    ensures Waited(answers, offers, waited)
    ensures |waited| == if outcome == Stopped && !answers(|offers| - 1).Cancelled? then |offers| else |offers| - 1
  {
    var gc := if gcRefusedBefore then "" else gcSession;
    ghost var first := gc;
    var gcDropped := false;
    var backoff: nat := BACKOFF;
    var attempt := 1;
    offers, waited := [], [];
    while true
      invariant attempt == |offers| + 1
      invariant attempt <= ATTEMPTS || (attempt == ATTEMPTS + 1 && gc == "")
      invariant offers == [] ==> gc == first
      invariant offers != [] ==> offers[0] == first && Retried(answers, offers + [gc])
      invariant Retried(answers, offers)
      invariant gcDropped <==> gc != first
      invariant gcDropped ==> gc == ""
      invariant attempt > ATTEMPTS ==> BindingRefused(answers(ATTEMPTS - 1), offers[ATTEMPTS - 1])
      invariant |waited| == |offers| && Waited(answers, offers, waited) && backoff == Backoff(answers, offers, |offers|)
      decreases ATTEMPTS + 1 - attempt
    {
      var a := answers(|offers|);
      WaitedStays(answers, offers, gc, waited);
      offers := offers + [gc];
      if a.Cancelled? {
        return Stopped, offers, waited;
      }
      var wait: nat := backoff;
      if a.Lost? {
      } else if a.code == 200 || a.code == 201 {
        return if gcDropped then GcRefused else Accepted, offers, waited;
      } else if a.code == 409 && a.bindingConflict && gc != "" {
        RetriedOnce(answers, offers, "");
        gc, gcDropped := "", true;
        waited := waited + [0];
        attempt := attempt + 1;
        continue;
      } else if a.code == 409 {
        return Conflict, offers, waited;
      } else if a.code == 400 || a.code == 413 || a.code == 422 {
        return Rejected, offers, waited;
      } else if a.code == 401 || a.code == 403 || a.code == 404 || a.code == 501 {
        return Refused, offers, waited;
      } else if a.code == 429 && a.retryAfter > 0 {
        wait := a.retryAfter;
      }
      if attempt >= ATTEMPTS {
        return Failed, offers, waited;
      }
      wait := Min(wait, MAX_HOLD);
      waited := waited + [wait];
      if !sleeps(|offers|) {
        return Stopped, offers, waited;
      }
      RetriedOnce(answers, offers, gc);
      backoff := Min(backoff * 2, MAX_HOLD);
      attempt := attempt + 1;
    }
  }

  /** The binding is offered or not, and once refused it is never offered again: however long the POSTs go
      on, at most one of them is sent for having dropped it. */
  lemma {:induction false} BindingDroppedOnce(answers: nat -> Answer, offers: seq<string>, i: nat, j: nat)
    requires Retried(answers, offers) && i < j < |offers|
    requires BindingRefused(answers(i), offers[i])
    ensures offers[j] == "" && !BindingRefused(answers(j), offers[j])
    decreases j
  {
    if i + 1 < j {
      BindingDroppedOnce(answers, offers, i, j - 1);
    }
    assert offers[j] == "" by {
      var k := j - 1;
      assert Follows(answers(k), offers[k], offers[k + 1]);
    }
  }

  // By the collector's codes.

  /** What the POSTs of one transcript come to, by the codes answered: every one but the last met no answer, a
      code that is none of these, or a refused binding, and the binding is offered again exactly unless it was
      refused; and the last one decides. */
  lemma OutcomeByCode(answers: nat -> Answer, offers: seq<string>, slept: bool, outcome: Outcome)
    requires offers != [] && Retried(answers, offers)
    requires Classified(offers[0], offers[|offers| - 1], answers(|offers| - 1), |offers|, slept, outcome)
    ensures
      var a, last := answers(|offers| - 1), offers[|offers| - 1];
      && (outcome == Accepted <==> a.Status? && a.code in {200, 201} && last == offers[0])
      && (outcome == GcRefused <==> a.Status? && a.code in {200, 201} && last != offers[0])
      && (outcome == Rejected <==> a.Status? && a.code in {400, 413, 422})
      && (outcome == Refused <==> a.Status? && a.code in {401, 403, 404, 501})
      && (outcome == Conflict <==> a.Status? && a.code == 409 && !(a.bindingConflict && last != ""))
      && (outcome == Failed ==> |offers| >= 4 && (a.Lost? || a.Status?))
      && (outcome == Stopped && !a.Cancelled? ==> |offers| < 4 && !slept)
    ensures forall i :: 0 <= i < |offers| - 1 ==>
              var a := answers(i);
              && (a.Lost? || (a.Status? && a.code !in {200, 201, 400, 401, 403, 404, 413, 422, 501}))
              && (a.Status? && a.code == 409 ==> a.bindingConflict && offers[i] != "")
              && offers[i + 1] == if a.Status? && a.code == 409 then "" else offers[i]
  {
    forall i | 0 <= i < |offers| - 1 ensures Follows(answers(i), offers[i], offers[i + 1]) {
      assert Follows(answers((i + 1) - 1), offers[(i + 1) - 1], offers[i + 1]);
    }
  }

  /** The binding was refused before POST i. */
  ghost predicate Dropped(answers: nat -> Answer, offers: seq<string>, i: nat)
    requires i <= |offers|
  {
    exists j :: 0 <= j < i && answers(j).Status? && answers(j).code == 409 && answers(j).bindingConflict
                && offers[j] != ""
  }

  /** How many waits came before POST i: one for each earlier POST, but for the one that dropped the binding. */
  ghost function WaitsBefore(answers: nat -> Answer, offers: seq<string>, i: nat): int
    requires i <= |offers|
  {
    if Dropped(answers, offers, i) then i - 1 else i
  }

  lemma {:induction false} BackoffIs(answers: nat -> Answer, offers: seq<string>, i: nat)
    requires Retried(answers, offers) && i < |offers| <= 5
    ensures
      var k := WaitsBefore(answers, offers, i);
      0 <= k && Backoff(answers, offers, i) == if k == 0 then 5 else if k == 1 then 10 else if k == 2 then 20
                                               else if k == 3 then 40 else 80
  {
    if i > 0 {
      BackoffIs(answers, offers, i - 1);
      var a := answers(i - 1);
      assert Dropped(answers, offers, i) <==>
          Dropped(answers, offers, i - 1) || BindingRefused(a, offers[i - 1]);
      if Dropped(answers, offers, i - 1) {
        var j :| 0 <= j < i - 1 && BindingRefused(answers(j), offers[j]);
        BindingDroppedOnce(answers, offers, j, i - 1);
      }
    }
  }

  /** The waits, in seconds: none when the binding is dropped; what a 429 asks for, up to five minutes; else 5
      after the first, 10, 20 and 40 after the next, the dropped binding not counted. */
  lemma PausesAre(answers: nat -> Answer, offers: seq<string>, i: nat)
    requires Retried(answers, offers) && i < |offers| <= 5
    ensures
      var a, p := answers(i), Pause(answers, offers, i);
      var k := WaitsBefore(answers, offers, i);
      if a.Status? && a.code == 409 && a.bindingConflict && offers[i] != "" then p == 0
      else if a.Status? && a.code == 429 && a.retryAfter > 0 then
        p == if a.retryAfter < 300 then a.retryAfter else 300
      else p == if k == 0 then 5 else if k == 1 then 10 else if k == 2 then 20 else if k == 3 then 40 else 80
  {
    BackoffIs(answers, offers, i);
  }
}
