/**
  The driver of one operator call in helper/src/main.cpp (`ExecuteExternalCall` and the waits it
  ends with) and the three smaller policies it relies on.  Everything read from outside is a finite
  script of polls; a script that runs out is the stop request that ends the source's loops.
*/
module ExternalCallDriver {
  import opened Prelude
  import opened Windows
  import opened ExternalCallPolicy
  import S = Session
  import C = CallControlCodec

  type CallResult = S.CallResult

  const CALLER_SAFE_STABLE := 1_000
  const CALLER_SAFE_MAXIMUM := 2_500

  // ---------------------------------------------------------------- teardown

  datatype Expectation = Expectation(kind: Kind, reason: string)

  datatype Verdict = Heartbeat | Repeated | Ignored | Matched | CleanupExpired | Mismatched | Broken

  datatype Teardown = Teardown(attempt: Attempt, lastSequence: nat, lastElapsed: nat, lastKind: Kind, lastReason: string,
                               expectation: Expectation, ended: bool)

  predicate IsTerminal(kind: Kind) {
    kind == Completed || kind == NotConnected || kind == SystemFailure
  }

  predicate Askable(e: Expectation) {
    IsTerminal(e.kind) && e.reason != "" && C.IsReason(e.reason) && e.reason != "-"
  }

  predicate CallerEnded(s: Status) {
    s.kind == Completed && s.reason == "CALLER_HANGUP"
  }

  /** The terminal message waited for: the expected one, or the caller having left. */
  predicate Awaited(t: Teardown, s: Status) {
    CallerEnded(s) || (s.kind == t.expectation.kind && s.reason == t.expectation.reason)
  }

  function TornDown(t: Teardown, s: Status): (Teardown, Verdict) {
    var noted := t.(lastSequence := s.sequence, lastElapsed := s.elapsed, lastKind := s.kind, lastReason := s.reason);
    if !Askable(t.expectation) then (t, Broken)
    else if s.kind == Invalid || s.attempt != t.attempt then (t, Ignored)
    else if t.ended then (t, if s.kind == t.lastKind && s.reason == t.lastReason then Repeated else Ignored)
    else if s.sequence == t.lastSequence && t.lastSequence != 0 then
      if noted != t then (t, Broken)
      else if Awaited(t, s) then (t.(ended := true), Matched)
      else (t, Repeated)
    else if s.sequence <= t.lastSequence || s.elapsed < t.lastElapsed then (t, Broken)
    else if s.kind == SystemFailure && s.reason == "CLEANUP_TIMEOUT" then (noted.(ended := true), CleanupExpired)
    else if IsTerminal(s.kind) then (noted.(ended := true), if Awaited(t, s) then Matched else Mismatched)
    else (noted, if s.reason == "-" then Heartbeat else Broken)
  }

  predicate Decides(v: Verdict) {
    v == Matched || v == CleanupExpired || v == Mismatched
  }

  function Verdicts(t: Teardown, statuses: seq<Status>): seq<Verdict>
    decreases |statuses|
  {
    if statuses == [] then [] else
      var (u, v) := TornDown(t, statuses[0]);
      [v] + Verdicts(u, statuses[1..])
  }

  /** Once ended, a teardown reports nothing decisive any more. */
  lemma {:induction false} EndedIsSilent(t: Teardown, statuses: seq<Status>, i: nat)
    requires t.ended && i < |Verdicts(t, statuses)|
    ensures !Decides(Verdicts(t, statuses)[i])
    decreases |statuses|
  {
    if i > 0 { EndedIsSilent(TornDown(t, statuses[0]).0, statuses[1..], i - 1); }
  }

  /** Over any list of messages, a teardown reports at most one terminal decision. */
  lemma {:induction false} OneTerminalVerdict(t: Teardown, statuses: seq<Status>, i: nat, j: nat)
    requires i < j < |Verdicts(t, statuses)| && Decides(Verdicts(t, statuses)[i])
    ensures !Decides(Verdicts(t, statuses)[j])
    decreases |statuses|
  {
    hide TornDown, Decides;
    var (u, v) := TornDown(t, statuses[0]);
    if i > 0 {
      OneTerminalVerdict(u, statuses[1..], i - 1, j - 1);
    } else {
      DecidesEnds(t, statuses[0]);
      EndedIsSilent(u, statuses[1..], j - 1);
    }
  }

  lemma DecidesEnds(t: Teardown, s: Status)
    requires Decides(TornDown(t, s).1)
    ensures TornDown(t, s).0.ended
  {
  }

  class TeardownPolicy {
    const attempt: Attempt
    const expectation: Expectation
    var lastSequence: nat
    var lastElapsed: nat
    var lastKind: Kind
    var lastReason: string
    var ended: bool

    ghost function View(): Teardown
      reads this
    {
      Teardown(attempt, lastSequence, lastElapsed, lastKind, lastReason, expectation, ended)
    }

    constructor (attempt: Attempt, lastSequence: nat, lastElapsed: nat, lastKind: Kind, lastReason: string, expectation: Expectation)
      ensures View() == Teardown(attempt, lastSequence, lastElapsed, lastKind, lastReason, expectation, false)
    {
      this.attempt, this.expectation, ended := attempt, expectation, false;
      this.lastSequence, this.lastElapsed, this.lastKind, this.lastReason := lastSequence, lastElapsed, lastKind, lastReason;
    }

    method Observe(s: Status) returns (v: Verdict)
      modifies this
      ensures (View(), v) == TornDown(old(View()), s)
    {
      if !IsTerminal(expectation.kind) || expectation.reason == "" || !C.IsReason(expectation.reason) || expectation.reason == "-" {
        return Broken;
      }
      if s.kind == Invalid || s.attempt != attempt { return Ignored; }
      if ended { return if s.kind == lastKind && s.reason == lastReason then Repeated else Ignored; }
      var callerEnded := s.kind == Completed && s.reason == "CALLER_HANGUP";
      if s.sequence == lastSequence && lastSequence != 0 {
        if s.elapsed != lastElapsed || s.kind != lastKind || s.reason != lastReason { return Broken; }
        if callerEnded || (s.kind == expectation.kind && s.reason == expectation.reason) {
          ended := true;
          return Matched;
        }
        return Repeated;
      }
      if s.sequence <= lastSequence || s.elapsed < lastElapsed { return Broken; }
      lastSequence, lastElapsed, lastKind, lastReason := s.sequence, s.elapsed, s.kind, s.reason;
      if s.kind == SystemFailure && s.reason == "CLEANUP_TIMEOUT" {
        ended := true;
        return CleanupExpired;
      }
      if IsTerminal(s.kind) {
        ended := true;
        return if callerEnded || (s.kind == expectation.kind && s.reason == expectation.reason) then Matched else Mismatched;
      }
      return if s.reason == "-" then Heartbeat else Broken;
    }
  }

  // ---------------------------------------------------------------- the original caller

  datatype Sight = Sight(disposition: CallDisposition, identity: nat, at: nat)

  datatype SafeDecision = Wait | Stable | Unsafe | TimedOut

  predicate IsCaller(expected: nat, s: Sight) {
    s.disposition == SingleSafe && s.identity == expected
  }

  /** From the j-th sight on, nothing but the original caller, alone. */
  ghost predicate AloneFrom(expected: nat, seen: seq<Sight>, j: int) {
    0 <= j < |seen| && forall i :: j <= i < |seen| ==> IsCaller(expected, seen[i])
  }

  ghost function Alone(expected: nat, seen: seq<Sight>): seq<Sample> {
    seq(|seen|, i requires 0 <= i < |seen| => Sample(seen[i].at, IsCaller(expected, seen[i]), false))
  }

  /** The time since which the original caller has been seen alone, or -1. */
  ghost function AloneSince(expected: nat, seen: seq<Sight>): int {
    Since(Alone(expected, seen))
  }

  ghost predicate InTime(seen: seq<Sight>) {
    forall i, j :: 0 <= i <= j < |seen| ==> seen[i].at <= seen[j].at
  }

  /** The original caller has been the only call, without a break, for the given span. */
  ghost predicate ProvedAlone(expected: nat, seen: seq<Sight>, span: int) {
    exists j :: AloneFrom(expected, seen, j) && seen[|seen| - 1].at - seen[j].at >= span
  }

  lemma ProvedIff(expected: nat, seen: seq<Sight>, span: int)
    requires InTime(seen) && seen != []
    ensures ProvedAlone(expected, seen, span) <==>
      AloneSince(expected, seen) >= 0 && seen[|seen| - 1].at - AloneSince(expected, seen) >= span
  {
    hide Since;
    var samples := Alone(expected, seen);
    SinceSpans(samples, span);
    if ProvedAlone(expected, seen, span) {
      var j :| AloneFrom(expected, seen, j) && seen[|seen| - 1].at - seen[j].at >= span;
      forall i | j <= i < |samples| ensures samples[i].holds && !samples[i].afresh { assert IsCaller(expected, seen[i]); }
      assert Unbroken(samples, j);
    }
    if Spans(samples, span) {
      var j: nat :| Unbroken(samples, j) && samples[|samples| - 1].at - samples[j].at >= span;
      forall i | j <= i < |seen| ensures IsCaller(expected, seen[i]) { assert samples[i].holds; }
      assert AloneFrom(expected, seen, j);
    }
  }

  lemma InTimeNext(seen: seq<Sight>, next: Sight)
    requires InTime(seen) && (seen != [] ==> seen[|seen| - 1].at <= next.at)
    ensures InTime(seen + [next])
  {
  }

  lemma AloneSinceNext(expected: nat, seen: seq<Sight>, next: Sight)
    ensures AloneSince(expected, seen + [next]) ==
      if !IsCaller(expected, next) then -1
      else if AloneSince(expected, seen) >= 0 then AloneSince(expected, seen) else next.at
  {
    assert Alone(expected, seen + [next]) == Alone(expected, seen) + [Sample(next.at, IsCaller(expected, next), false)];
    SinceNext(Alone(expected, seen), Sample(next.at, IsCaller(expected, next), false));
    SinceFloor(Alone(expected, seen));
  }

  datatype Window = Window(expected: nat, startedAt: nat, stableMs: int, maximumMs: int)

  predicate Configured(w: Window) {
    w.expected != 0 && 0 < w.stableMs <= w.maximumMs
  }

  /** The new start of the stable stretch and the decision on one sight, accepted in time. */
  function Look(w: Window, since: int, s: Sight): (int, SafeDecision) {
    if s.at - w.startedAt >= w.maximumMs then (since, TimedOut)
    else if s.disposition == Unknown then (-1, Wait)
    else if !IsCaller(w.expected, s) then (-1, Unsafe)
    else
      var start := if since < 0 then s.at else since;
      (start, if s.at - start >= w.stableMs then Stable else Wait)
  }

  /** The latest sight accepted. */
  function LatestSight(w: Window, seen: seq<Sight>): nat {
    if seen == [] then w.startedAt else seen[|seen| - 1].at
  }

  /** What the policy should say to the next sight after an accepted history. */
  ghost function SafeVerdict(w: Window, seen: seq<Sight>, next: Sight): SafeDecision {
    if !Configured(w) || next.at < LatestSight(w, seen) then Unsafe
    else if next.at - w.startedAt >= w.maximumMs then TimedOut
    else if next.disposition == Unknown then Wait
    else if !IsCaller(w.expected, next) then Unsafe
    else if ProvedAlone(w.expected, seen + [next], w.stableMs) then Stable
    else Wait
  }

  /** Looking with one timestamp is deciding on the whole history. */
  lemma LookMeaning(w: Window, since: int, seen: seq<Sight>, s: Sight)
    requires InTime(seen) && LatestSight(w, seen) <= s.at && Configured(w)
    requires s.at - w.startedAt < w.maximumMs ==> since == AloneSince(w.expected, seen)
    ensures InTime(seen + [s])
    ensures s.at - w.startedAt < w.maximumMs ==> Look(w, since, s).0 == AloneSince(w.expected, seen + [s])
    ensures Look(w, since, s).1 == SafeVerdict(w, seen, s)
  {
    InTimeNext(seen, s);
    hide AloneSince, ProvedAlone, InTime;
    AloneSinceNext(w.expected, seen, s);
    ProvedIff(w.expected, seen + [s], w.stableMs);
  }

  class CallerSafePolicy {
    const window: Window
    var lastObservation: nat
    var stableSince: int
    ghost var seen: seq<Sight>

    ghost predicate Valid()
      reads this
    {
      && window.startedAt <= lastObservation
      && InTime(seen)
      && lastObservation == LatestSight(window, seen)
      && (lastObservation - window.startedAt < window.maximumMs ==> stableSince == AloneSince(window.expected, seen))
    }

    constructor (window: Window)
      ensures Valid() && seen == [] && this.window == window
    {
      this.window := window;
      lastObservation, stableSince, seen := window.startedAt, -1, [];
    }

    /** Every decision is the one the whole history calls for. */
    method Observe(disposition: CallDisposition, identity: nat, now: nat) returns (d: SafeDecision)
      requires Valid()
      modifies this
      ensures Valid()
      ensures d == SafeVerdict(window, old(seen), Sight(disposition, identity, now))
      ensures seen == if Configured(window) && now >= LatestSight(window, old(seen)) then old(seen) + [Sight(disposition, identity, now)] else old(seen)
    {
      hide AloneSince, ProvedAlone, InTime;
      if window.expected == 0 || window.stableMs <= 0 || window.maximumMs < window.stableMs
         || now < window.startedAt || now < lastObservation {
        return Unsafe;
      }
      LookMeaning(window, stableSince, seen, Sight(disposition, identity, now));
      lastObservation, seen := now, seen + [Sight(disposition, identity, now)];
      if now - window.startedAt >= window.maximumMs { return TimedOut; }
      if disposition == Unknown {
        stableSince := -1;
        return Wait;
      }
      if disposition != SingleSafe || identity != window.expected {
        stableSince := -1;
        return Unsafe;
      }
      if stableSince < 0 { stableSince := now; }
      return if now - stableSince >= window.stableMs then Stable else Wait;
    }
  }

  // ---------------------------------------------------------------- the guardian's time budget

  /** Time in conference does not count: leaving restores exactly what was left on entering. */
  class GuardianBudget {
    var deadline: Millis
    var remaining: nat
    var suspended: bool

    ghost predicate Valid()
      reads this
    {
      remaining <= INT64_MAX
    }

    constructor (startedAt: Millis, total: nat)
      requires total <= INT64_MAX
      ensures Valid() && !suspended
      ensures deadline == SaturatingAdd(startedAt, if total > 0 then total else 1)
    {
      deadline := SaturatingAdd(startedAt, if total > 0 then total else 1);
      remaining, suspended := 0, false;
    }

    method EnterConference(now: Millis)
      requires Valid() && now >= 0
      modifies this
      ensures Valid() && suspended && deadline == old(deadline)
      ensures remaining == if old(suspended) then old(remaining) else if now < deadline then deadline - now else 0
    {
      if suspended { return; }
      remaining := if now < deadline then deadline - now else 0;
      suspended := true;
    }

    method LeaveConference(now: Millis)
      requires Valid()
      modifies this
      ensures Valid() && !suspended && remaining == old(remaining)
      ensures deadline == if old(suspended) then SaturatingAdd(now, remaining) else old(deadline)
    {
      if !suspended { return; }
      deadline := SaturatingAdd(now, remaining);
      suspended := false;
    }

    /** One conference moves the deadline by its own length, and by nothing else; a guardian whose time
        had run out when it began has none left when it ends. */
    method Conference(entered: Millis, left: Millis)
      requires Valid() && !suspended && 0 <= entered <= left
      modifies this
      ensures Valid() && !suspended
      ensures deadline ==
        if entered > old(deadline) then left
        else if old(deadline) + (left - entered) > INT64_MAX then INT64_MAX
        else old(deadline) + (left - entered)
    {
      EnterConference(entered);
      LeaveConference(left);
    }
  }

  // ---------------------------------------------------------------- the driver

  datatype Notice = Quiet | NoticeFailed | HungUp

  /** One turn of the call loop: what is read, when, and whether what is sent gets through. */
  datatype Poll = Poll(
    notice: Notice, evidenceAt: Millis, evidenceNow: Millis, evidenceNotified: bool, notified: bool, joinNotified: bool,
    status: Option<Status>, observedAt: Millis, readyAt: Millis, checkedAt: Millis,
    captureOpens: bool, readyPublished: bool, captureOk: bool)

  datatype TeardownPoll = TeardownPoll(noticeFailed: bool, notified: bool, status: Option<Status>)

  datatype SafePoll = SafePoll(notice: Notice, notified: bool, sight: Sight)

  datatype Environment = Environment(
    prepared: bool, dialPublished: bool, startedAt: Millis, polls: seq<Poll>,
    cancelPublished: bool, teardown: seq<TeardownPoll>,
    identity: nat, safeStartedAt: nat, safePolls: seq<SafePoll>, lineIdle: bool, idleNotified: bool)

  predicate Branches(r: CallResult) {
    r == S.Completed || r == S.NotConnected || r == S.SystemFailure
  }

  ghost function Sights(polls: seq<SafePoll>): (r: seq<Sight>)
    ensures |r| == |polls|
    ensures forall i :: 0 <= i < |r| ==> r[i] == polls[i].sight
  {
    seq(|polls|, i requires 0 <= i < |polls| => polls[i].sight)
  }

  /** Some first part of the script shows the original caller alone for the whole window, in time. */
  ghost predicate CallerProved(env: Environment) {
    exists n :: 0 < n <= |env.safePolls| && CallerProvedBy(env, n)
  }

  ghost predicate CallerProvedBy(env: Environment, n: nat)
    requires 0 < n <= |env.safePolls|
  {
    && env.identity != 0
    && ProvedAlone(env.identity, Sights(env.safePolls[..n]), CALLER_SAFE_STABLE)
    && env.safePolls[n - 1].sight.at - env.safeStartedAt < CALLER_SAFE_MAXIMUM
    && forall i :: 0 <= i < n ==> env.safePolls[i].notice == Quiet
  }

  function SafeWindow(env: Environment): Window {
    Window(env.identity, env.safeStartedAt, CALLER_SAFE_STABLE, CALLER_SAFE_MAXIMUM)
  }

  ghost function SafeVerdictAt(env: Environment, i: nat): SafeDecision
    requires i < |env.safePolls|
  {
    SafeVerdict(SafeWindow(env), Sights(env.safePolls[..i]), env.safePolls[i].sight)
  }

  /** The wait lasts through poll n without a notice, and poll n is the first that settles it, well. */
  ghost predicate ConfirmedAt(env: Environment, n: nat) {
    && env.identity != 0 && n < |env.safePolls|
    && (forall i :: 0 <= i <= n ==> env.safePolls[i].notice == Quiet && env.safePolls[i].notified)
    && (forall i :: 0 <= i < n ==> SafeVerdictAt(env, i) == Wait)
    && SafeVerdictAt(env, n) == Stable
  }

  ghost predicate Confirmed(env: Environment) {
    exists n: nat :: ConfirmedAt(env, n)
  }

  /** A confirmed caller was the only call for the whole window, in time. */
  lemma ConfirmedProves(env: Environment)
    requires Confirmed(env)
    ensures CallerProved(env)
  {
    hide ProvedAlone;
    var n: nat :| ConfirmedAt(env, n);
    assert Sights(env.safePolls[..n]) + [env.safePolls[n].sight] == Sights(env.safePolls[..n + 1]);
    assert CallerProvedBy(env, n + 1);
  }

  /** Nothing before poll n has settled it. */
  ghost predicate StillWaiting(env: Environment, n: nat) {
    n <= |env.safePolls| && forall i :: 0 <= i < n ==> env.safePolls[i].notice == Quiet && env.safePolls[i].notified && SafeVerdictAt(env, i) == Wait
  }

  lemma NotConfirmed(env: Environment, n: nat)
    requires StillWaiting(env, n)
    requires n < |env.safePolls| ==>
      env.safePolls[n].notice != Quiet || !env.safePolls[n].notified || (SafeVerdictAt(env, n) != Wait && SafeVerdictAt(env, n) != Stable)
    ensures !Confirmed(env)
  {
    hide SafeVerdictAt;
    forall k: nat ensures !ConfirmedAt(env, k) {}
  }

  lemma WaitsOn(env: Environment, n: nat)
    requires StillWaiting(env, n) && n < |env.safePolls| && env.safePolls[n].notice == Quiet && env.safePolls[n].notified
    ensures SafeVerdictAt(env, n) == Wait ==> StillWaiting(env, n + 1)
    ensures SafeVerdictAt(env, n) == Stable && env.identity != 0 ==> Confirmed(env)
    ensures Sights(env.safePolls[..n + 1]) == Sights(env.safePolls[..n]) + [env.safePolls[n].sight]
  {
    hide SafeVerdictAt;
    if SafeVerdictAt(env, n) == Stable && env.identity != 0 { assert ConfirmedAt(env, n); }
  }

  /** `ConfirmOriginalCallerSafe`. */
  method ConfirmOriginalCallerSafe(env: Environment) returns (ok: bool)
    ensures ok <==> Confirmed(env)
  {
    if env.identity == 0 { return false; }
    hide SafeVerdict, Confirmed, StillWaiting, InTime, ProvedAlone, AloneSince;
    var policy := new CallerSafePolicy(SafeWindow(env));
    var i := 0;
    assert policy.seen == Sights(env.safePolls[..0]);
    assert StillWaiting(env, 0) by { NothingSettled(env); }
    while i < |env.safePolls|
      invariant 0 <= i <= |env.safePolls|
      invariant fresh(policy) && policy.Valid()
      invariant policy.window == SafeWindow(env)
      invariant policy.seen == Sights(env.safePolls[..i])
      invariant StillWaiting(env, i)
    {
      var poll := env.safePolls[i];
      if poll.notice != Quiet || !poll.notified {
        NotConfirmed(env, i);
        return false;
      }
      var d := policy.Observe(poll.sight.disposition, poll.sight.identity, poll.sight.at);
      WaitsOn(env, i);
      if d == Stable { return true; }
      if d != Wait {
        NotConfirmed(env, i);
        return false;
      }
      WaitAccepts(SafeWindow(env), Sights(env.safePolls[..i]), poll.sight);
      i := i + 1;
    }
    NotConfirmed(env, i);
    return false;
  }

  lemma NothingSettled(env: Environment)
    ensures StillWaiting(env, 0)
  {
  }

  lemma WaitAccepts(w: Window, seen: seq<Sight>, s: Sight)
    requires SafeVerdict(w, seen, s) == Wait
    ensures Configured(w) && s.at >= LatestSight(w, seen)
  {
  }

  datatype TeardownResult = Safe | CallerHungUp | CleanupTimedOut | TeardownFailed

  /** A message of this attempt that ends it the way the helper asked for. */
  ghost predicate EndsAsAsked(polls: seq<TeardownPoll>, attempt: Attempt, e: Expectation) {
    exists k :: 0 <= k < |polls| && polls[k].status.Some?
      && polls[k].status.value.attempt == attempt && polls[k].status.value.kind == e.kind && polls[k].status.value.reason == e.reason
  }

  /** One turn of the wait, and what it ends with, if it does. */
  function TornTurn(t: Teardown, poll: TeardownPoll): (Teardown, Option<TeardownResult>) {
    if poll.noticeFailed then (t, Some(TeardownFailed))
    else if poll.status.None? || poll.status.value.kind == Invalid || poll.status.value.attempt != t.attempt then (t, None)
    else
      var (u, v) := TornDown(t, poll.status.value);
      if (v == Heartbeat || v == Matched || v == CleanupExpired) && !poll.notified then (u, Some(TeardownFailed))
      else match v
        case Matched => (u, Some(if poll.status.value.reason == "CALLER_HANGUP" then CallerHungUp else Safe))
        case CleanupExpired => (u, Some(CleanupTimedOut))
        case Mismatched => (u, Some(TeardownFailed))
        case Broken => (u, Some(TeardownFailed))
        case _ => (u, None)
  }

  function TeardownEnd(t: Teardown, polls: seq<TeardownPoll>): TeardownResult
    decreases |polls|
  {
    if polls == [] then TeardownFailed
    else
      var (u, r) := TornTurn(t, polls[0]);
      if r.Some? then r.value else TeardownEnd(u, polls[1..])
  }

  /** A safe end was asked for; a caller hangup was reported for this attempt. */
  lemma {:induction false} TeardownMeaning(t: Teardown, polls: seq<TeardownPoll>)
    ensures TeardownEnd(t, polls) == Safe ==> EndsAsAsked(polls, t.attempt, t.expectation)
    ensures TeardownEnd(t, polls) == CallerHungUp ==> Reported(polls, t.attempt, "CALLER_HANGUP")
    ensures TeardownEnd(t, polls) == CleanupTimedOut ==> Reported(polls, t.attempt, "CLEANUP_TIMEOUT")
    decreases |polls|
  {
    if polls != [] {
      var (u, r) := TornTurn(t, polls[0]);
      if r.None? {
        TeardownMeaning(u, polls[1..]);
        LaterPolls(polls, t.attempt, t.expectation);
      }
    }
  }

  ghost predicate Reported(polls: seq<TeardownPoll>, attempt: Attempt, reason: string) {
    exists k :: 0 <= k < |polls| && polls[k].status.Some? && polls[k].status.value.attempt == attempt && polls[k].status.value.reason == reason
  }

  lemma LaterPolls(polls: seq<TeardownPoll>, attempt: Attempt, e: Expectation)
    requires polls != []
    ensures EndsAsAsked(polls[1..], attempt, e) ==> EndsAsAsked(polls, attempt, e)
    ensures forall reason :: Reported(polls[1..], attempt, reason) ==> Reported(polls, attempt, reason)
  {
    if EndsAsAsked(polls[1..], attempt, e) {
      var k :| 0 <= k < |polls[1..]| && polls[1..][k].status.Some?
        && polls[1..][k].status.value.attempt == attempt && polls[1..][k].status.value.kind == e.kind && polls[1..][k].status.value.reason == e.reason;
      assert polls[k + 1] == polls[1..][k];
    }
    forall reason | Reported(polls[1..], attempt, reason) ensures Reported(polls, attempt, reason) {
      var k :| 0 <= k < |polls[1..]| && polls[1..][k].status.Some? && polls[1..][k].status.value.attempt == attempt && polls[1..][k].status.value.reason == reason;
      assert polls[k + 1] == polls[1..][k];
    }
  }

  /** `AwaitExternalCallTeardown`. */
  method AwaitTeardown(policy: TeardownPolicy, polls: seq<TeardownPoll>) returns (r: TeardownResult)
    modifies policy
    ensures r == TeardownEnd(old(policy.View()), polls)
  {
    hide TornDown;
    var i := 0;
    while i < |polls|
      invariant 0 <= i <= |polls|
      invariant TeardownEnd(policy.View(), polls[i..]) == TeardownEnd(old(policy.View()), polls)
    {
      var poll := polls[i];
      assert polls[i..][1..] == polls[i + 1..];
      i := i + 1;
      if poll.noticeFailed { return TeardownFailed; }
      if poll.status.Some? && poll.status.value.kind != Invalid && poll.status.value.attempt == policy.attempt {
        var s := poll.status.value;
        var v := policy.Observe(s);
        if (v == Heartbeat || v == Matched || v == CleanupExpired) && !poll.notified { return TeardownFailed; }
        if v == Matched { return if s.reason == "CALLER_HANGUP" then CallerHungUp else Safe; }
        if v == CleanupExpired { return CleanupTimedOut; }
        if v == Mismatched || v == Broken { return TeardownFailed; }
      }
    }
    return TeardownFailed;
  }

  /** How the call loop ended. */
  datatype LoopEnd = LoopEnd(terminal: CallResult, cancel: Option<string>, teardown: bool)

  const CANCELLED := LoopEnd(S.SystemFailure, Some("HELPER_CANCELLED"), false)
  const UNANSWERED := LoopEnd(S.NotConnected, Some("ANSWER_TIMEOUT"), false)

  predicate Plain(e: LoopEnd) {
    e.cancel.None? && !e.teardown
  }

  /** A loop that did not cancel reports what the app's last message said. */
  ghost predicate Justified(e: LoopEnd, shown: seq<Shown>) {
    && (e.cancel.Some? ==> e == CANCELLED || e == UNANSWERED)
    && (e.teardown ==> e.terminal == S.CallerHangup)
    && (e.cancel.None? && e.terminal == S.Completed ==> shown != [] && shown[|shown| - 1] == Decided(CallCompleted))
    && (e.cancel.None? && e.terminal == S.NotConnected ==> shown != [] && shown[|shown| - 1] == Decided(CallNotConnected))
    && (e.cancel.None? && e.terminal == S.SystemFailure ==> shown != [] && shown[|shown| - 1] == Decided(CallSystemFailure))
  }

  /** What a decision of the policy ends the loop with, if it does. */
  function EndOf(d: Decision): Option<LoopEnd> {
    match d
    case CallCompleted => Some(LoopEnd(S.Completed, None, false))
    case CallerHangup => Some(LoopEnd(S.CallerHangup, None, false))
    case CallNotConnected => Some(LoopEnd(S.NotConnected, None, false))
    case CallSystemFailure => Some(LoopEnd(S.SystemFailure, None, false))
    case CleanupTimeout => Some(LoopEnd(S.CleanupTimeout, None, false))
    case ProtocolFailure => Some(CANCELLED)
    case ControlTimeout => Some(CANCELLED)
    case SetupTimeout => Some(CANCELLED)
    case MergeTimeout => Some(CANCELLED)
    case AnswerTimeout => Some(UNANSWERED)
    case _ => None
  }

  /** What the deadlines end the loop with, if they do. */
  function EndByDeadline(d: Decision): Option<LoopEnd> {
    match d
    case ControlTimeout => Some(CANCELLED)
    case SetupTimeout => Some(CANCELLED)
    case MergeTimeout => Some(CANCELLED)
    case AnswerTimeout => Some(UNANSWERED)
    case _ => None
  }

  const FAILED := LoopEnd(S.Failed, None, false)

  lemma RunMore(p: Policy, inputs: seq<Input>, i: Input)
    requires p.answerTimeout <= INT64_MAX
    ensures Run(p, inputs + [i]).0 == Step(Run(p, inputs).0, i).0
    ensures Run(p, inputs + [i]).1 == Run(p, inputs).1 + [Step(Run(p, inputs).0, i).1]
  {
    hide Step;
    assert (inputs + [i])[..|inputs + [i]| - 1] == inputs;
  }

  /** The policy has seen exactly these inputs since it was in state `start`. */
  ghost predicate Tracks(now: Policy, start: Policy, inputs: seq<Input>) {
    start.answerTimeout <= INT64_MAX && now == Run(start, inputs).0
  }

  ghost predicate LastShown(start: Policy, inputs: seq<Input>, d: Decision) {
    start.answerTimeout <= INT64_MAX && inputs != [] && Run(start, inputs).1[|inputs| - 1] == Decided(d)
  }

  /** The state of the loop between turns: the policy and the loop's own flags. */
  datatype Loop = Loop(policy: Policy, recorderReady: bool, conferenced: bool, capturing: bool, heartbeatAt: int)

  function Received(p: Policy, poll: Poll): (Policy, Decision)
    requires p.answerTimeout <= INT64_MAX
  {
    if poll.status.None? then (p, Duplicate) else Observed(p, poll.status.value, poll.observedAt)
  }

  /** The conference is known from the device itself, not from the app. */
  predicate Evident(l: Loop, poll: Poll) {
    l.conferenced && poll.evidenceAt > 0 && poll.evidenceNow >= poll.evidenceAt && poll.evidenceNow - poll.evidenceAt <= CONFERENCE_EVIDENCE_AGE
  }

  function AfterEvidence(l: Loop, poll: Poll): (Loop, Option<LoopEnd>) {
    if !Evident(l, poll) then (l, None)
    else
      var m := l.(policy := l.policy.(independentConferenceAt := poll.evidenceAt));
      if poll.evidenceNow - l.heartbeatAt < 500 then (m, None)
      else if !poll.evidenceNotified then (m, Some(FAILED))
      else (m.(heartbeatAt := poll.evidenceNow), None)
  }

  /** What a decision that does not end the loop by itself leads to. */
  function AfterDecision(l: Loop, d: Decision, poll: Poll): (Loop, Option<LoopEnd>) {
    match d
    case StartRecorder =>
      var (p, ok) := MarkReady(l.policy, poll.readyAt);
      var m := l.(policy := p, capturing := poll.captureOpens, recorderReady := ok && poll.readyPublished);
      (m, if m.recorderReady then None else Some(CANCELLED))
    case MergeSeen => (l, if l.recorderReady then None else Some(CANCELLED))
    case ConferenceSeen =>
      if l.conferenced then (l, None) else if !poll.joinNotified then (l, Some(FAILED)) else (l.(conferenced := true), None)
    case _ => (l, None)
  }

  function AfterDeadline(l: Loop, poll: Poll): Option<LoopEnd> {
    var late := EndByDeadline(CheckDeadline(l.policy, poll.checkedAt));
    if late.Some? then late
    else if !l.conferenced && l.capturing && !poll.captureOk then Some(CANCELLED)
    else None
  }

  /** A decision the guardian is told about. */
  predicate Announced(d: Decision) {
    d != Duplicate && d != IgnoredForeign && d != ControlTimeout && d != ProtocolFailure
  }

  /** One turn of the call loop, and what it ends with, if it does. */
  function LoopTurn(l: Loop, poll: Poll): (Loop, Option<LoopEnd>)
    requires l.policy.answerTimeout <= INT64_MAX
  {
    if poll.notice == NoticeFailed then (l, Some(FAILED))
    else if poll.notice == HungUp then (l, Some(LoopEnd(S.CallerHangup, None, true)))
    else
      var (m, broken) := AfterEvidence(l, poll);
      if broken.Some? then (m, broken)
      else
        var (p, d) := Received(m.policy, poll);
        var n := m.(policy := p);
        if Announced(d) && !poll.notified then (n, Some(FAILED))
        else if EndOf(d).Some? then (n, EndOf(d))
        else
          var (q, done) := AfterDecision(n, d, poll);
          (q, if done.Some? then done else AfterDeadline(q, poll))
  }

  lemma TurnKeepsTimeout(l: Loop, poll: Poll)
    requires l.policy.answerTimeout <= INT64_MAX
    ensures LoopTurn(l, poll).0.policy.answerTimeout == l.policy.answerTimeout
  {
    var m := AfterEvidence(l, poll).0.policy;
    if poll.status.Some? { StepKeepsAttempt(m, Message(poll.status.value, poll.observedAt)); }
    hide Observed;
  }

  /** How the loop ends on a script of polls. */
  function LoopOver(l: Loop, polls: seq<Poll>): (Policy, LoopEnd)
    requires l.policy.answerTimeout <= INT64_MAX
    decreases |polls|
  {
    if polls == [] then (l.policy, FAILED)
    else
      var (m, r) := LoopTurn(l, polls[0]);
      TurnKeepsTimeout(l, polls[0]);
      if r.Some? then (m.policy, r.value) else LoopOver(m, polls[1..])
  }

  function LoopStart(p: Policy): Loop {
    Loop(p, false, false, false, 0)
  }

  /** A message, if there is one, is observed and recorded. */
  method Receive(policy: ExternalCall, poll: Poll, ghost start: Policy, ghost before: seq<Input>) returns (d: Decision, ghost inputs: seq<Input>)
    requires policy.answerTimeout <= INT64_MAX && Tracks(policy.View(), start, before)
    modifies policy
    ensures Tracks(policy.View(), start, inputs)
    ensures d != Duplicate ==> LastShown(start, inputs, d)
    ensures (policy.View(), d) == Received(old(policy.View()), poll)
  {
    hide Observed;
    if poll.status.None? { return Duplicate, before; }
    inputs := before + [Message(poll.status.value, poll.observedAt)];
    RunMore(start, before, Message(poll.status.value, poll.observedAt));
    d := policy.Observe(poll.status.value, poll.observedAt);
  }

  /** `startRecorder`: capture may fail, but the gate must open in time and be announced. */
  method StartCapture(policy: ExternalCall, poll: Poll, ghost start: Policy, ghost before: seq<Input>) returns (ok: bool, ghost inputs: seq<Input>)
    requires Tracks(policy.View(), start, before)
    modifies policy
    ensures Tracks(policy.View(), start, inputs)
    ensures policy.View() == MarkReady(old(policy.View()), poll.readyAt).0
    ensures ok == (MarkReady(old(policy.View()), poll.readyAt).1 && poll.readyPublished)
  {
    hide MarkReady;
    inputs := before + [Ready(poll.readyAt)];
    RunMore(start, before, Ready(poll.readyAt));
    ok := policy.MarkRecorderReady(poll.readyAt);
    ok := ok && poll.readyPublished;
  }

  method NoteEvidence(policy: ExternalCall, poll: Poll, ghost start: Policy, ghost before: seq<Input>) returns (ghost inputs: seq<Input>)
    requires Tracks(policy.View(), start, before)
    modifies policy
    ensures Tracks(policy.View(), start, inputs)
    ensures policy.View() == old(policy.View()).(independentConferenceAt := poll.evidenceAt)
  {
    inputs := before + [Confirm(poll.evidenceAt)];
    RunMore(start, before, Confirm(poll.evidenceAt));
    policy.ConfirmIndependentConference(poll.evidenceAt);
  }

  lemma EndIsJustified(start: Policy, inputs: seq<Input>, d: Decision)
    requires start.answerTimeout <= INT64_MAX && EndOf(d).Some?
    requires d != Duplicate ==> LastShown(start, inputs, d)
    ensures Justified(EndOf(d).value, Run(start, inputs).1)
  {
    hide Step;
  }

  /** The call loop, with its flags. */
  method CallLoop(policy: ExternalCall, polls: seq<Poll>) returns (end: LoopEnd, ghost inputs: seq<Input>)
    requires policy.answerTimeout <= INT64_MAX
    modifies policy
    ensures (policy.View(), end) == LoopOver(LoopStart(old(policy.View())), polls)
    ensures Tracks(policy.View(), old(policy.View()), inputs)
    ensures Justified(end, Run(old(policy.View()), inputs).1)
  {
    hide Run, LoopTurn, LastShown;
    ghost var start := policy.View();
    inputs := [];
    Nothing(start);
    var recorderReady, conferenced, capturing := false, false, false;
    var nativeHeartbeatAt: int := 0;
    var i := 0;
    while i < |polls|
      invariant 0 <= i <= |polls|
      invariant Tracks(policy.View(), start, inputs)
      invariant LoopOver(Loop(policy.View(), recorderReady, conferenced, capturing, nativeHeartbeatAt), polls[i..]) == LoopOver(LoopStart(start), polls)
    {
      assert polls[i..][1..] == polls[i + 1..];
      var ended;
      ended, recorderReady, conferenced, capturing, nativeHeartbeatAt, inputs :=
        CallTurn(policy, polls[i], recorderReady, conferenced, capturing, nativeHeartbeatAt, start, inputs);
      i := i + 1;
      if ended.Some? { return ended.value, inputs; }
    }
    Unconditional(policy.View(), start, inputs);
    return FAILED, inputs;
  }

  /** The body of the loop. */
  method CallTurn(policy: ExternalCall, poll: Poll, wasReady: bool, wasConferenced: bool, wasCapturing: bool, heartbeat: int,
                  ghost start: Policy, ghost before: seq<Input>)
    returns (ended: Option<LoopEnd>, recorderReady: bool, conferenced: bool, capturing: bool, nativeHeartbeatAt: int, ghost inputs: seq<Input>)
    requires policy.answerTimeout <= INT64_MAX && Tracks(policy.View(), start, before)
    modifies policy
    ensures (Loop(policy.View(), recorderReady, conferenced, capturing, nativeHeartbeatAt), ended) ==
      LoopTurn(Loop(old(policy.View()), wasReady, wasConferenced, wasCapturing, heartbeat), poll)
    ensures Tracks(policy.View(), start, inputs)
    ensures ended.Some? ==> Justified(ended.value, Run(start, inputs).1)
  {
    hide Run, CheckDeadline, LastShown, EndOf, EndByDeadline, Received, Tracks, Justified, AfterEvidence, AfterDecision, AfterDeadline;
    ended, recorderReady, conferenced, capturing, nativeHeartbeatAt, inputs := None, wasReady, wasConferenced, wasCapturing, heartbeat, before;
    Unconditional(policy.View(), start, inputs);
    if poll.notice == NoticeFailed { ended := Some(FAILED); return; }
    if poll.notice == HungUp { ended := Some(LoopEnd(S.CallerHangup, None, true)); return; }
    var broken;
    broken, nativeHeartbeatAt, inputs := TakeEvidence(policy, poll, wasReady, wasConferenced, wasCapturing, heartbeat, start, inputs);
    Unconditional(policy.View(), start, inputs);
    if broken { ended := Some(FAILED); return; }
    var decision;
    decision, inputs := Receive(policy, poll, start, inputs);
    Unconditional(policy.View(), start, inputs);
    if decision != Duplicate && decision != IgnoredForeign && decision != ControlTimeout && decision != ProtocolFailure && !poll.notified {
      ended := Some(FAILED);
      return;
    }
    if EndOf(decision).Some? {
      EndIsJustified(start, inputs, decision);
      ended := EndOf(decision);
      return;
    }
    ended, recorderReady, conferenced, capturing, inputs := TakeDecision(policy, decision, poll, wasReady, wasConferenced, wasCapturing, nativeHeartbeatAt, start, inputs);
    Unconditional(policy.View(), start, inputs);
    if ended.Some? { return; }
    ended := CheckTurn(policy, poll, recorderReady, conferenced, capturing, nativeHeartbeatAt);
  }

  /** The end of a turn: the deadlines, and before the conference the capture. */
  method CheckTurn(policy: ExternalCall, poll: Poll, recorderReady: bool, conferenced: bool, capturing: bool, heartbeat: int) returns (ended: Option<LoopEnd>)
    ensures ended == AfterDeadline(Loop(policy.View(), recorderReady, conferenced, capturing, heartbeat), poll)
    ensures ended.Some? ==> ended.value == CANCELLED || ended.value == UNANSWERED
  {
    hide CheckDeadline, EndByDeadline;
    ended := EndByDeadline(policy.Deadline(poll.checkedAt));
    LateEnd(policy.Deadline(poll.checkedAt));
    if ended.None? && !conferenced && capturing && !poll.captureOk { ended := Some(CANCELLED); }
  }

  /** A conference the device itself sees keeps the policy and the guardian going. */
  method TakeEvidence(policy: ExternalCall, poll: Poll, recorderReady: bool, conferenced: bool, capturing: bool, heartbeat: int,
                      ghost start: Policy, ghost before: seq<Input>)
    returns (broken: bool, nativeHeartbeatAt: int, ghost inputs: seq<Input>)
    requires policy.answerTimeout <= INT64_MAX && Tracks(policy.View(), start, before)
    modifies policy
    ensures (Loop(policy.View(), recorderReady, conferenced, capturing, nativeHeartbeatAt), if broken then Some(FAILED) else None) ==
      AfterEvidence(Loop(old(policy.View()), recorderReady, conferenced, capturing, heartbeat), poll)
    ensures Tracks(policy.View(), start, inputs)
  {
    hide Tracks;
    broken, nativeHeartbeatAt, inputs := false, heartbeat, before;
    if conferenced && poll.evidenceAt > 0 && poll.evidenceNow >= poll.evidenceAt
       && poll.evidenceNow - poll.evidenceAt <= CONFERENCE_EVIDENCE_AGE {
      inputs := NoteEvidence(policy, poll, start, inputs);
      if poll.evidenceNow - nativeHeartbeatAt >= 500 {
        if !poll.evidenceNotified { broken := true; return; }
        nativeHeartbeatAt := poll.evidenceNow;
      }
    }
  }

  /** What the loop does about a decision that does not end it by itself. */
  method TakeDecision(policy: ExternalCall, decision: Decision, poll: Poll, wasReady: bool, wasConferenced: bool, wasCapturing: bool, heartbeat: int,
                      ghost start: Policy, ghost before: seq<Input>)
    returns (ended: Option<LoopEnd>, recorderReady: bool, conferenced: bool, capturing: bool, ghost inputs: seq<Input>)
    requires policy.answerTimeout <= INT64_MAX && Tracks(policy.View(), start, before)
    modifies policy
    ensures (Loop(policy.View(), recorderReady, conferenced, capturing, heartbeat), ended) ==
      AfterDecision(Loop(old(policy.View()), wasReady, wasConferenced, wasCapturing, heartbeat), decision, poll)
    ensures Tracks(policy.View(), start, inputs)
    ensures ended.Some? ==> ended.value == FAILED || ended.value == CANCELLED
  {
    hide Tracks, MarkReady;
    ended, recorderReady, conferenced, capturing, inputs := None, wasReady, wasConferenced, wasCapturing, before;
    if decision == StartRecorder {
      capturing := poll.captureOpens;
      recorderReady, inputs := StartCapture(policy, poll, start, inputs);
      if !recorderReady { ended := Some(CANCELLED); return; }
    }
    if decision == MergeSeen && !recorderReady { ended := Some(CANCELLED); return; }
    if decision == ConferenceSeen && !conferenced {
      if !poll.joinNotified { ended := Some(FAILED); return; }
      conferenced := true;
    }
  }

  /** The ends that need no message to justify them. */
  lemma Unconditional(now: Policy, start: Policy, inputs: seq<Input>)
    requires Tracks(now, start, inputs)
    ensures start.answerTimeout <= INT64_MAX
    ensures Justified(FAILED, Run(start, inputs).1) && Justified(CANCELLED, Run(start, inputs).1) && Justified(UNANSWERED, Run(start, inputs).1)
    ensures Justified(LoopEnd(S.CallerHangup, None, true), Run(start, inputs).1)
  {
    hide Run;
  }

  lemma LateEnd(d: Decision)
    ensures EndByDeadline(d).Some? ==> EndByDeadline(d).value == CANCELLED || EndByDeadline(d).value == UNANSWERED
  {
  }

  lemma Nothing(start: Policy)
    requires start.answerTimeout <= INT64_MAX
    ensures Tracks(start, start, [])
  {
  }

  // ---------------------------------------------------------------- deadlines over whole runs

  /** The loop after n turns. */
  function LoopAt(l: Loop, polls: seq<Poll>, n: nat): (m: Loop)
    requires l.policy.answerTimeout <= INT64_MAX && n <= |polls|
    ensures m.policy.answerTimeout == l.policy.answerTimeout
  {
    if n == 0 then l
    else
      TurnKeepsTimeout(LoopAt(l, polls, n - 1), polls[n - 1]);
      LoopTurn(LoopAt(l, polls, n - 1), polls[n - 1]).0
  }

  /** None of the first n turns ends the loop. */
  ghost predicate GoesOn(l: Loop, polls: seq<Poll>, n: nat)
    requires l.policy.answerTimeout <= INT64_MAX && n <= |polls|
  {
    forall i :: 0 <= i < n ==> LoopTurn(LoopAt(l, polls, i), polls[i]).1.None?
  }

  lemma {:induction false} LoopGoesOn(l: Loop, polls: seq<Poll>, n: nat)
    requires l.policy.answerTimeout <= INT64_MAX && n <= |polls| && GoesOn(l, polls, n)
    ensures LoopOver(LoopAt(l, polls, n), polls[n..]) == LoopOver(l, polls)
    decreases n
  {
    hide LoopTurn;
    if n == 0 {
      assert polls[0..] == polls;
    } else {
      LoopGoesOn(l, polls, n - 1);
      assert polls[n - 1..][1..] == polls[n..];
    }
  }

  /** A turn that does not end the loop leaves an open policy open. */
  lemma TurnStaysOpen(l: Loop, poll: Poll)
    requires l.policy.answerTimeout <= INT64_MAX && l.policy.stage != Terminal && LoopTurn(l, poll).1.None?
    ensures LoopTurn(l, poll).0.policy.stage != Terminal
    ensures OnTime(LoopTurn(l, poll).0.policy, poll.checkedAt)
  {
    hide Observed, CheckDeadline;
    var m := AfterEvidence(l, poll).0;
    if poll.status.Some? { TerminalIsSaid(m.policy, poll.status.value, poll.observedAt); }
    var q := LoopTurn(l, poll).0;
    assert EndByDeadline(CheckDeadline(q.policy, poll.checkedAt)).None?;
  }

  /** The policy ends only with a decision that ends the loop. */
  lemma TerminalIsSaid(p: Policy, s: Status, now: Millis)
    requires p.answerTimeout <= INT64_MAX && p.stage != Terminal
    ensures var (q, d) := Observed(p, s, now); q.stage == Terminal ==> EndOf(d).Some?
  {
  }

  lemma {:induction false} StaysOpen(l: Loop, polls: seq<Poll>, n: nat)
    requires l.policy.answerTimeout <= INT64_MAX && n <= |polls| && GoesOn(l, polls, n) && l.policy.stage != Terminal
    ensures LoopAt(l, polls, n).policy.stage != Terminal
    decreases n
  {
    hide LoopTurn;
    if n > 0 {
      StaysOpen(l, polls, n - 1);
      TurnStaysOpen(LoopAt(l, polls, n - 1), polls[n - 1]);
    }
  }

  /** Over every script, after each turn the loop survives the heartbeat is alive or excused by evidence
      of the conference, and the deadline of the stage it is in has not passed. */
  lemma StageDeadlinesKept(attempt: Attempt, answerTimeout: nat, startedAt: Millis, polls: seq<Poll>, n: nat, i: nat)
    requires answerTimeout <= INT64_MAX && i < n <= |polls|
    requires GoesOn(LoopStart(Begin(attempt, answerTimeout, startedAt)), polls, n)
    ensures var p := LoopAt(LoopStart(Begin(attempt, answerTimeout, startedAt)), polls, i + 1).policy;
            p.stage != Terminal && OnTime(p, polls[i].checkedAt)
  {
    hide LoopTurn;
    var l := LoopStart(Begin(attempt, answerTimeout, startedAt));
    StaysOpen(l, polls, i);
    TurnStaysOpen(LoopAt(l, polls, i), polls[i]);
  }

  /** The turn gets as far as looking at the clock, in this state. */
  predicate LooksAtClock(l: Loop, poll: Poll, q: Loop)
    requires l.policy.answerTimeout <= INT64_MAX
  {
    && poll.notice == Quiet
    && AfterEvidence(l, poll).1.None?
    && var m := AfterEvidence(l, poll).0;
    && var (p, d) := Received(m.policy, poll);
    && !(Announced(d) && !poll.notified) && EndOf(d).None?
    && AfterDecision(m.(policy := p), d, poll) == (q, None)
  }

  /** How a missed deadline ends the call. */
  function MissedEnd(p: Policy, now: Millis): LoopEnd {
    if !HeartbeatLost(p, now) && AnswerLate(p, now) then UNANSWERED else CANCELLED
  }

  /** The first turn to look at the clock too late ends the loop: unanswered if only the answer is
      missing, cancelled otherwise. */
  lemma FirstLateTurnEnds(attempt: Attempt, answerTimeout: nat, startedAt: Millis, polls: seq<Poll>, n: nat, q: Loop)
    requires answerTimeout <= INT64_MAX && n < |polls|
    requires var l := LoopStart(Begin(attempt, answerTimeout, startedAt));
             GoesOn(l, polls, n) && LooksAtClock(LoopAt(l, polls, n), polls[n], q)
    requires !OnTime(q.policy, polls[n].checkedAt)
    ensures LoopOver(LoopStart(Begin(attempt, answerTimeout, startedAt)), polls).1 == MissedEnd(q.policy, polls[n].checkedAt)
  {
    hide LoopTurn, Observed;
    var l := LoopStart(Begin(attempt, answerTimeout, startedAt));
    StaysOpen(l, polls, n);
    LoopGoesOn(l, polls, n);
    LateTurn(LoopAt(l, polls, n), polls[n], q);
  }

  lemma LateTurn(l: Loop, poll: Poll, q: Loop)
    requires l.policy.answerTimeout <= INT64_MAX && l.policy.stage != Terminal
    requires LooksAtClock(l, poll, q) && !OnTime(q.policy, poll.checkedAt)
    ensures LoopTurn(l, poll).1 == Some(MissedEnd(q.policy, poll.checkedAt))
  {
    hide Observed, CheckDeadline;
    var m := AfterEvidence(l, poll).0;
    if poll.status.Some? { TerminalIsSaid(m.policy, poll.status.value, poll.observedAt); }
  }

  /** What the helper asks the app to end a given outcome with. */
  function Expected(end: LoopEnd): Option<Expectation> {
    if end.terminal == S.NotConnected && end.cancel == Some("ANSWER_TIMEOUT") then Some(Expectation(NotConnected, "ANSWER_TIMEOUT"))
    else if end.terminal == S.SystemFailure then Some(Expectation(SystemFailure, "HELPER_CANCELLED"))
    else if end.terminal == S.CallerHangup then Some(Expectation(Completed, "CALLER_HANGUP"))
    else None
  }

  /** What is left of the loop's outcome after cancelling and waiting for the app. */
  function Settled(p: Policy, over: LoopEnd, attempt: Attempt, env: Environment): CallResult {
    if over.cancel.Some? && !env.cancelPublished then S.Failed
    else if (over.cancel.None? && !over.teardown) || over.terminal == S.Failed then over.terminal
    else match Expected(over)
      case None => S.Failed
      case Some(e) =>
        match TeardownEnd(Teardown(attempt, p.lastSequence, p.lastElapsed, p.lastKind, p.lastReason, e, false), env.teardown)
        case CallerHungUp => S.CallerHangup
        case CleanupTimedOut => S.CleanupTimeout
        case TeardownFailed => S.Failed
        case Safe => over.terminal
  }

  /** What is left of that after looking for the original caller and telling the guardian. */
  ghost function Concluded(settled: CallResult, env: Environment): CallResult {
    var t := if Branches(settled) && !Confirmed(env) then (if env.lineIdle then S.CallerHangup else S.Failed) else settled;
    if Branches(t) && !env.idleNotified then S.Failed else t
  }

  ghost function CallOutcome(attempt: Attempt, answerTimeout: nat, env: Environment): CallResult
    requires answerTimeout <= INT64_MAX
  {
    if !env.prepared then S.SystemFailure
    else if !env.dialPublished then S.Failed
    else
      var (p, over) := LoopOver(LoopStart(Begin(attempt, answerTimeout, env.startedAt)), env.polls);
      Concluded(Settled(p, over, attempt, env), env)
  }

  /** A branch after a cancellation means that the app ended the attempt as it was asked to. */
  lemma SettledMeaning(p: Policy, over: LoopEnd, attempt: Attempt, env: Environment)
    requires Branches(Settled(p, over, attempt, env))
    ensures Settled(p, over, attempt, env) == over.terminal
    ensures over.cancel.Some? ==> env.cancelPublished && Expected(over).Some? && EndsAsAsked(env.teardown, attempt, Expected(over).value)
  {
    if over.cancel.Some? && Expected(over).Some? {
      TeardownMeaning(Teardown(attempt, p.lastSequence, p.lastElapsed, p.lastKind, p.lastReason, Expected(over).value, false), env.teardown);
    }
  }

  /**
    `ExecuteExternalCall`.  Once DIAL is published, the flow branches only after the original caller
    has been seen alone for the whole window; a cancelled attempt branches only after the app ended
    it the way it was asked to; and a completed call has been through recorder, merge and conference.
  */
  method ExecuteExternalCall(attempt: Attempt, answerTimeout: nat, env: Environment)
    returns (result: CallResult, ghost end: LoopEnd, ghost inputs: seq<Input>)
    requires answerTimeout <= INT64_MAX
    ensures result == CallOutcome(attempt, answerTimeout, env)
    ensures env.prepared && Branches(result) ==> env.dialPublished && CallerProved(env) && env.idleNotified && result == end.terminal
    ensures env.prepared && env.dialPublished ==> Justified(end, Run(Begin(attempt, answerTimeout, env.startedAt), inputs).1)
    ensures env.prepared && Branches(result) && end.cancel.Some? ==>
      env.cancelPublished && Expected(end).Some? && EndsAsAsked(env.teardown, attempt, Expected(end).value)
    ensures env.prepared && result == S.Completed ==>
      exists i, j, k :: JoinedAt(Run(Begin(attempt, answerTimeout, env.startedAt), inputs).1, i, j, k)
  {
    hide LoopOver, TeardownEnd, Run, Confirmed, CallerProved, EndsAsAsked, Expected, JoinedAt;
    end, inputs := FAILED, [];
    if !env.prepared { return S.SystemFailure, end, inputs; }
    var policy := new ExternalCall(attempt, answerTimeout, env.startedAt);
    if !env.dialPublished { return S.Failed, end, inputs; }
    var over: LoopEnd;
    over, inputs := CallLoop(policy, env.polls);
    end := over;
    CompletedJoined(attempt, answerTimeout, env.startedAt, inputs, over);
    var terminal := Settle(policy, over, attempt, env);
    if Branches(Settled(policy.View(), over, attempt, env)) { SettledMeaning(policy.View(), over, attempt, env); }
    if Branches(terminal) {
      var safe := ConfirmOriginalCallerSafe(env);
      if safe { ConfirmedProves(env); } else { terminal := if env.lineIdle then S.CallerHangup else S.Failed; }
    }
    if terminal == S.CleanupTimeout || terminal == S.Failed || terminal == S.CallerHangup { return terminal, end, inputs; }
    if !env.idleNotified { return S.Failed, end, inputs; }
    return terminal, end, inputs;
  }

  lemma CompletedJoined(attempt: Attempt, answerTimeout: nat, startedAt: Millis, inputs: seq<Input>, over: LoopEnd)
    requires answerTimeout <= INT64_MAX && Justified(over, Run(Begin(attempt, answerTimeout, startedAt), inputs).1)
    ensures over.terminal == S.Completed ==> exists i, j, k :: JoinedAt(Run(Begin(attempt, answerTimeout, startedAt), inputs).1, i, j, k)
  {
    hide Run;
    if over.terminal == S.Completed { CompletedHasHistory(attempt, answerTimeout, startedAt, inputs, |inputs| - 1); }
  }

  /** Cancelling an attempt and waiting for the app to end it. */
  method Settle(policy: ExternalCall, over: LoopEnd, attempt: Attempt, env: Environment) returns (terminal: CallResult)
    ensures terminal == Settled(policy.View(), over, attempt, env)
  {
    hide TeardownEnd, Expected;
    terminal := over.terminal;
    var teardownNeeded := over.teardown;
    if over.cancel.Some? {
      if !env.cancelPublished { terminal := S.Failed; } else { teardownNeeded := true; }
    }
    if teardownNeeded && terminal != S.Failed {
      var expectation := Expected(over);
      if expectation.None? {
        terminal := S.Failed;
      } else {
        var teardown := new TeardownPolicy(attempt, policy.lastSequence, policy.lastElapsed, policy.lastKind, policy.lastReason, expectation.value);
        var torn := AwaitTeardown(teardown, env.teardown);
        match torn {
          case CallerHungUp => terminal := S.CallerHangup;
          case CleanupTimedOut => terminal := S.CleanupTimeout;
          case TeardownFailed => terminal := S.Failed;
          case Safe =>
        }
      }
    }
  }
}
