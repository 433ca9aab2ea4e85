/**
  What one operator call comes to, in both directions: how the app's word, the deadlines and the loss
  of the guardian end the loop, how a teardown ends, and what is made of it at the end
  (`ExecuteExternalCall` of helper/src/main.cpp).
*/
module ExternalCallOutcomes {
  import opened Prelude
  import opened ExternalCallPolicy
  import opened ExternalCallDriver
  import S = Session

  // ---------------------------------------------------------------- the call loop

  /** The turn gets as far as reading a message: no notice, and the guardian told about the evidence. */
  predicate Reads(l: Loop, poll: Poll) {
    poll.notice == Quiet && AfterEvidence(l, poll).1.None?
  }

  /** The answer of the policy to the message of a turn; a turn without a message counts as a repeat. */
  function Answer(l: Loop, poll: Poll): Decision
    requires l.policy.answerTimeout <= INT64_MAX
  {
    Received(AfterEvidence(l, poll).0.policy, poll).1
  }

  /** What the loop makes of the app's word, on a turn that reads it. */
  lemma WordOfTheApp(l: Loop, poll: Poll)
    requires l.policy.answerTimeout <= INT64_MAX && Reads(l, poll)
    ensures var d, end := Answer(l, poll), LoopTurn(l, poll).1;
      && (d == CallCompleted && poll.notified ==> end == Some(LoopEnd(S.Completed, None, false)))
      && (d == CallerHangup && poll.notified ==> end == Some(LoopEnd(S.CallerHangup, None, false)))
      && (d == CallNotConnected && poll.notified ==> end == Some(LoopEnd(S.NotConnected, None, false)))
      && (d == CallSystemFailure && poll.notified ==> end == Some(LoopEnd(S.SystemFailure, None, false)))
      && (d == CleanupTimeout && poll.notified ==> end == Some(LoopEnd(S.CleanupTimeout, None, false)))
      && (d == ProtocolFailure || d == ControlTimeout ==> end == Some(LoopEnd(S.SystemFailure, Some("HELPER_CANCELLED"), false)))
      && (d != Duplicate && d != IgnoredForeign && d != ProtocolFailure && d != ControlTimeout && !poll.notified ==>
            end == Some(LoopEnd(S.Failed, None, false)))
      && (d == MergeSeen && poll.notified && !l.recorderReady ==> end == Some(LoopEnd(S.SystemFailure, Some("HELPER_CANCELLED"), false)))
      && (d == ConferenceSeen && poll.notified && !l.conferenced && !poll.joinNotified ==> end == Some(LoopEnd(S.Failed, None, false)))
  {
    hide Observed, CheckDeadline, SaturatingAdd;
  }

  /** The other ends of a turn. */
  lemma NoticesEnd(l: Loop, poll: Poll)
    requires l.policy.answerTimeout <= INT64_MAX
    ensures poll.notice == HungUp ==> LoopTurn(l, poll).1 == Some(LoopEnd(S.CallerHangup, None, true))
    ensures poll.notice == NoticeFailed ==> LoopTurn(l, poll).1 == Some(LoopEnd(S.Failed, None, false))
    ensures poll.notice == Quiet && Evident(l, poll) && poll.evidenceNow - l.heartbeatAt >= 500 && !poll.evidenceNotified ==>
      LoopTurn(l, poll).1 == Some(LoopEnd(S.Failed, None, false))
  {
    hide Observed, CheckDeadline;
  }

  /** The recorder is gone through the gate, and the conference begun, exactly when the stage says so. */
  ghost predicate FlagsFit(l: Loop) {
    && Consistent(l.policy) && l.policy.stage != Terminal
    && (l.conferenced <==> l.policy.stage == ConferencedStage)
    && (l.recorderReady <==> StageRank(l.policy.stage) >= StageRank(RecorderReady))
    && l.policy.stage != Answered
  }

  /** Over every script the loop's flags follow the stage. */
  lemma {:induction false} FlagsFollow(attempt: Attempt, answerTimeout: nat, startedAt: Millis, polls: seq<Poll>, n: nat)
    requires answerTimeout <= INT64_MAX && n <= |polls|
    requires GoesOn(LoopStart(Begin(attempt, answerTimeout, startedAt)), polls, n)
    ensures FlagsFit(LoopAt(LoopStart(Begin(attempt, answerTimeout, startedAt)), polls, n))
    decreases n
  {
    hide LoopTurn, FlagsFit;
    var l := LoopStart(Begin(attempt, answerTimeout, startedAt));
    if n == 0 {
      StartFits(attempt, answerTimeout, startedAt);
    } else {
      FlagsFollow(attempt, answerTimeout, startedAt, polls, n - 1);
      TurnFits(LoopAt(l, polls, n - 1), polls[n - 1]);
    }
  }

  lemma StartFits(attempt: Attempt, answerTimeout: nat, startedAt: Millis)
    requires answerTimeout <= INT64_MAX
    ensures FlagsFit(LoopStart(Begin(attempt, answerTimeout, startedAt)))
  {
  }

  /** Whether the flags fit between the message of a turn and what is done about it. */
  ghost predicate Between(l: Loop, d: Decision) {
    && Consistent(l.policy) && l.policy.stage != Terminal
    && (d == StartRecorder <==> l.policy.stage == Answered)
    && (l.conferenced ==> l.policy.stage == ConferencedStage)
    && (l.policy.stage == ConferencedStage ==> l.conferenced || d == ConferenceSeen)
    && (d == ConferenceSeen ==> l.policy.stage == ConferencedStage)
    && (l.recorderReady <==> StageRank(l.policy.stage) >= StageRank(RecorderReady))
  }

  lemma EvidenceFits(l: Loop, poll: Poll)
    requires FlagsFit(l)
    ensures FlagsFit(AfterEvidence(l, poll).0) && AfterEvidence(l, poll).0.policy.answerTimeout == l.policy.answerTimeout
  {
  }

  lemma MessageFits(l: Loop, poll: Poll)
    requires l.policy.answerTimeout <= INT64_MAX && FlagsFit(l)
    ensures var (p, d) := Received(l.policy, poll); p.stage != Terminal ==> Between(l.(policy := p), d)
  {
    if poll.status.Some? {
      StepForward(l.policy, Message(poll.status.value, poll.observedAt));
      AnswerStage(l.policy, poll.status.value, poll.observedAt);
    }
    hide Observed, Consistent;
    assert Consistent(l.policy);
  }

  lemma DecisionFits(l: Loop, d: Decision, poll: Poll)
    requires Between(l, d) && AfterDecision(l, d, poll).1.None?
    ensures FlagsFit(AfterDecision(l, d, poll).0)
  {
    StepForward(l.policy, Ready(poll.readyAt));
  }

  lemma TurnFits(l: Loop, poll: Poll)
    requires l.policy.answerTimeout <= INT64_MAX && FlagsFit(l) && LoopTurn(l, poll).1.None?
    ensures FlagsFit(LoopTurn(l, poll).0)
  {
    TurnStaysOpen(l, poll) by { FitIsOpen(l); }
    EvidenceFits(l, poll);
    var m := AfterEvidence(l, poll).0;
    MessageFits(m, poll);
    var (p, d) := Received(m.policy, poll);
    hide Received, AfterEvidence, FlagsFit, AfterDeadline, Between;
    if p.stage != Terminal { DecisionFits(m.(policy := p), d, poll); } else { EndedTurn(m.(policy := p), d, poll); }
  }

  lemma FitIsOpen(l: Loop)
    requires FlagsFit(l)
    ensures l.policy.stage != Terminal
  {
  }

  lemma EndedTurn(l: Loop, d: Decision, poll: Poll)
    requires l.policy.stage == Terminal
    ensures AfterDecision(l, d, poll).0.policy.stage == Terminal
  {
  }

  /** The stage after a message that leaves the policy open. */
  lemma AnswerStage(p: Policy, s: Status, now: Millis)
    requires Consistent(p) && p.stage != Terminal
    ensures var (q, d) := Observed(p, s, now);
      q.stage != Terminal ==>
        && (d == StartRecorder <==> q.stage == Answered && p.stage != Answered)
        && (d == ConferenceSeen <==> q.stage == ConferencedStage && d != IgnoredForeign && d != Duplicate)
        && (d == IgnoredForeign || d == Duplicate ==> q.stage == p.stage)
        && (p.stage != Answered && d != StartRecorder ==> q.stage != Answered)
        && (q.stage == RecorderReady ==> p.stage == RecorderReady)
  {
    hide SaturatingAdd, HeartbeatLost, Newer;
  }

  // ---------------------------------------------------------------- teardown

  /** The message is one of this attempt that the teardown still listens to. */
  predicate Heard(t: Teardown, s: Status) {
    Askable(t.expectation) && s.kind != Invalid && s.attempt == t.attempt && !t.ended
  }

  predicate NewFor(t: Teardown, s: Status) {
    Heard(t, s) && s.sequence > t.lastSequence && s.elapsed >= t.lastElapsed
  }

  /** The very message the call loop saw last, once more. */
  predicate Again(t: Teardown, s: Status) {
    && Heard(t, s) && t.lastSequence != 0
    && s.sequence == t.lastSequence && s.elapsed == t.lastElapsed && s.kind == t.lastKind && s.reason == t.lastReason
  }

  predicate Expired(s: Status) {
    s.kind == SystemFailure && s.reason == "CLEANUP_TIMEOUT"
  }

  /** How every message is judged: an awaited ending matches, new or repeated; the app's cleanup timeout
      expires the teardown; any other ending is a mismatch; plain progress is a heartbeat. */
  lemma VerdictExact(t: Teardown, s: Status)
    ensures var (u, v) := TornDown(t, s);
      && (v == Matched <==> Awaited(t, s) && ((NewFor(t, s) && !Expired(s)) || Again(t, s)))
      && (v == CleanupExpired <==> NewFor(t, s) && Expired(s))
      && (v == Mismatched <==> NewFor(t, s) && IsTerminal(s.kind) && !Expired(s) && !Awaited(t, s))
      && (v == Heartbeat <==> NewFor(t, s) && !IsTerminal(s.kind) && s.reason == "-")
      && (Heard(t, s) ==> (u.ended <==> v == Matched || v == CleanupExpired || v == Mismatched))
      && (v == Broken <==>
            || !Askable(t.expectation)
            || (Heard(t, s) && !NewFor(t, s) && !Again(t, s))
            || (NewFor(t, s) && !IsTerminal(s.kind) && s.reason != "-"))
  {
  }

  /** The teardown after n polls. */
  function TornAt(t: Teardown, polls: seq<TeardownPoll>, n: nat): Teardown
    requires n <= |polls|
  {
    if n == 0 then t else TornTurn(TornAt(t, polls, n - 1), polls[n - 1]).0
  }

  /** None of the first n polls ends the wait. */
  ghost predicate Lasts(t: Teardown, polls: seq<TeardownPoll>, n: nat)
    requires n <= |polls|
  {
    forall i :: 0 <= i < n ==> TornTurn(TornAt(t, polls, i), polls[i]).1.None?
  }

  lemma {:induction false} WaitGoesOn(t: Teardown, polls: seq<TeardownPoll>, n: nat)
    requires n <= |polls| && Lasts(t, polls, n)
    ensures TeardownEnd(TornAt(t, polls, n), polls[n..]) == TeardownEnd(t, polls)
    decreases n
  {
    hide TornTurn;
    if n == 0 {
      assert polls[0..] == polls;
    } else {
      WaitGoesOn(t, polls, n - 1);
      assert polls[n - 1..][1..] == polls[n..];
    }
  }

  /** While the wait lasts nothing has ended, and the last message is the last heartbeat. */
  lemma {:induction false} StillOpen(t: Teardown, polls: seq<TeardownPoll>, n: nat)
    requires n <= |polls| && Lasts(t, polls, n) && !t.ended
    ensures var u := TornAt(t, polls, n);
      && u.attempt == t.attempt && u.expectation == t.expectation && !u.ended
      && (n > 0 && polls[n - 1].status.Some? && NewFor(TornAt(t, polls, n - 1), polls[n - 1].status.value) ==>
            u.lastSequence == polls[n - 1].status.value.sequence && u.lastElapsed == polls[n - 1].status.value.elapsed)
    decreases n
  {
    if n > 0 {
      StillOpen(t, polls, n - 1);
      var u := TornAt(t, polls, n - 1);
      assert TornTurn(u, polls[n - 1]).1.None?;
      if polls[n - 1].status.Some? { VerdictExact(u, polls[n - 1].status.value); }
    }
  }

  /** When the app ends the attempt as it was asked to, or the caller has left, the wait ends so, if it
      lasted till then and the guardian can be told; and the app's own cleanup timeout is passed on. */
  lemma AwaitedEnds(t: Teardown, polls: seq<TeardownPoll>, n: nat, s: Status)
    requires n < |polls| && Lasts(t, polls, n)
    requires polls[n].status == Some(s) && !polls[n].noticeFailed && polls[n].notified
    ensures var u := TornAt(t, polls, n);
      && (Awaited(u, s) && ((NewFor(u, s) && !Expired(s)) || Again(u, s)) ==>
            TeardownEnd(t, polls) == if s.reason == "CALLER_HANGUP" then CallerHungUp else Safe)
      && (NewFor(u, s) && Expired(s) ==> TeardownEnd(t, polls) == CleanupTimedOut)
      && (NewFor(u, s) && IsTerminal(s.kind) && !Expired(s) && !Awaited(u, s) ==> TeardownEnd(t, polls) == TeardownFailed)
  {
    var u := TornAt(t, polls, n);
    WaitGoesOn(t, polls, n);
    VerdictExact(u, s);
    assert polls[n..][0] == polls[n];
    hide TornDown, TornAt, Lasts;
  }

  // ---------------------------------------------------------------- what is made of it

  /** What the app is asked to end a cancelled attempt with, and the caller's leaving confirmed. */
  lemma AskedFor()
    ensures Expected(LoopEnd(S.NotConnected, Some("ANSWER_TIMEOUT"), false)) == Some(Expectation(NotConnected, "ANSWER_TIMEOUT"))
    ensures Expected(LoopEnd(S.SystemFailure, Some("HELPER_CANCELLED"), false)) == Some(Expectation(SystemFailure, "HELPER_CANCELLED"))
    ensures Expected(LoopEnd(S.CallerHangup, None, true)) == Some(Expectation(Completed, "CALLER_HANGUP"))
  {
  }

  /** What the wait for the app makes of the loop's end, for each way the loop can end. */
  lemma SettledExact(p: Policy, over: LoopEnd, attempt: Attempt, env: Environment)
    ensures over.cancel.None? && !over.teardown ==> Settled(p, over, attempt, env) == over.terminal
    ensures over.cancel.Some? && !env.cancelPublished ==> Settled(p, over, attempt, env) == S.Failed
    ensures (over.teardown || (over.cancel.Some? && env.cancelPublished)) && over.terminal != S.Failed && Expected(over).Some? ==>
      var torn := TeardownEnd(Teardown(attempt, p.lastSequence, p.lastElapsed, p.lastKind, p.lastReason, Expected(over).value, false), env.teardown);
      && (torn == Safe && (over.cancel.None? || env.cancelPublished) ==> Settled(p, over, attempt, env) == over.terminal)
      && (torn == CallerHungUp && (over.cancel.None? || env.cancelPublished) ==> Settled(p, over, attempt, env) == S.CallerHangup)
      && (torn == CleanupTimedOut && (over.cancel.None? || env.cancelPublished) ==> Settled(p, over, attempt, env) == S.CleanupTimeout)
      && (torn == TeardownFailed ==> Settled(p, over, attempt, env) == S.Failed)
  {
    hide TeardownEnd, Expected;
  }

  /** The result of the whole call.  A branching end is kept exactly if the original caller is proved and
      the guardian told; a caller who could not be proved has hung up exactly if the line is idle. */
  lemma OutcomeExact(attempt: Attempt, answerTimeout: nat, env: Environment)
    requires answerTimeout <= INT64_MAX
    ensures !env.prepared ==> CallOutcome(attempt, answerTimeout, env) == S.SystemFailure
    ensures env.prepared && !env.dialPublished ==> CallOutcome(attempt, answerTimeout, env) == S.Failed
    ensures env.prepared && env.dialPublished ==>
      var (p, over) := LoopOver(LoopStart(Begin(attempt, answerTimeout, env.startedAt)), env.polls);
      var settled, result := Settled(p, over, attempt, env), CallOutcome(attempt, answerTimeout, env);
      && (!Branches(settled) ==> result == settled)
      && (Branches(settled) && Confirmed(env) && env.idleNotified ==> result == settled)
      && (Branches(settled) && Confirmed(env) && !env.idleNotified ==> result == S.Failed)
      && (Branches(settled) && !Confirmed(env) && env.lineIdle ==> result == S.CallerHangup)
      && (Branches(settled) && !Confirmed(env) && !env.lineIdle ==> result == S.Failed)
  {
    hide LoopOver, Settled, Confirmed;
  }

  /** The end of the loop is the end of its first turn that has one. */
  lemma EndsAtTurn(l: Loop, polls: seq<Poll>, n: nat)
    requires l.policy.answerTimeout <= INT64_MAX && n < |polls| && GoesOn(l, polls, n)
    requires LoopTurn(LoopAt(l, polls, n), polls[n]).1.Some?
    ensures LoopOver(l, polls) == (LoopTurn(LoopAt(l, polls, n), polls[n]).0.policy, LoopTurn(LoopAt(l, polls, n), polls[n]).1.value)
  {
    hide LoopTurn;
    LoopGoesOn(l, polls, n);
  }

  // ---------------------------------------------------------------- the original caller

  /** A look in order and in time that shows the original caller alone, or nothing that can be told. */
  ghost predicate CleanLook(env: Environment, i: nat)
    requires i < |env.safePolls|
  {
    var poll, s := env.safePolls[i], env.safePolls[i].sight;
    && poll.notice == Quiet && poll.notified
    && (if i == 0 then env.safeStartedAt else env.safePolls[i - 1].sight.at) <= s.at < env.safeStartedAt + 2_500
    && (s.disposition == Unknown || (s.disposition == SingleSafe && s.identity == env.identity))
  }

  /** The original caller alone from look j to look n, for a second. */
  ghost predicate AloneBetween(env: Environment, j: nat, n: nat) {
    && j <= n < |env.safePolls| && env.safePolls[n].sight.at - env.safePolls[j].sight.at >= 1_000
    && forall i :: j <= i <= n ==> env.safePolls[i].sight.disposition == SingleSafe && env.safePolls[i].sight.identity == env.identity
  }

  /** A second of the caller alone, after nothing but clean looks. */
  ghost predicate ProvenAt(env: Environment, n: nat) {
    && n < |env.safePolls| && (forall i :: 0 <= i <= n ==> CleanLook(env, i))
    && exists j: nat :: AloneBetween(env, j, n)
  }

  lemma SafeLook(env: Environment, n: nat)
    requires n < |env.safePolls| && env.identity != 0
    requires env.safePolls[n].notice == Quiet && env.safePolls[n].notified
    ensures SafeVerdictAt(env, n) == Stable <==> CleanLook(env, n) && exists j: nat :: AloneBetween(env, j, n)
    ensures SafeVerdictAt(env, n) == Wait <==> CleanLook(env, n) && !exists j: nat :: AloneBetween(env, j, n)
  {
    var seen, next := Sights(env.safePolls[..n]), env.safePolls[n].sight;
    assert forall i :: 0 <= i < n ==> seen[i] == env.safePolls[i].sight;
    AloneAsLooks(env, n);
    if n > 0 { assert LatestSight(SafeWindow(env), seen) == env.safePolls[n - 1].sight.at; }
    hide ProvedAlone, AloneBetween;
  }

  lemma AloneAsLooks(env: Environment, n: nat)
    requires n < |env.safePolls|
    ensures ProvedAlone(env.identity, Sights(env.safePolls[..n]) + [env.safePolls[n].sight], 1_000) <==> exists j: nat :: AloneBetween(env, j, n)
  {
    var all := Sights(env.safePolls[..n]) + [env.safePolls[n].sight];
    assert forall i :: 0 <= i <= n ==> all[i] == env.safePolls[i].sight;
    if j :| AloneFrom(env.identity, all, j) && all[|all| - 1].at - all[j].at >= 1_000 {
      assert AloneBetween(env, j, n);
    }
    if j: nat :| AloneBetween(env, j, n) {
      assert AloneFrom(env.identity, all, j);
    }
  }

  /** The caller is taken as safe exactly if some look completes a second of the caller alone after
      nothing but clean looks. */
  lemma ConfirmedExactly(env: Environment)
    ensures Confirmed(env) <==> env.identity != 0 && exists n: nat :: ProvenAt(env, n)
  {
    hide SafeVerdictAt, AloneBetween, CleanLook;
    if Confirmed(env) {
      var n: nat :| ConfirmedAt(env, n);
      forall i | 0 <= i <= n ensures CleanLook(env, i) { SafeLook(env, i); }
      SafeLook(env, n);
      assert ProvenAt(env, n);
    }
    if env.identity != 0 && exists n: nat :: ProvenAt(env, n) {
      var n: nat :| ProvenAt(env, n);
      FirstAlone(env, n);
    }
  }

  lemma {:induction false} FirstAlone(env: Environment, n: nat)
    requires env.identity != 0 && ProvenAt(env, n)
    ensures Confirmed(env)
    decreases n
  {
    hide SafeVerdictAt, AloneBetween;
    if m: nat :| m < n && ProvenAt(env, m) {
      FirstAlone(env, m);
    } else {
      forall i | 0 <= i <= n ensures env.safePolls[i].notice == Quiet && env.safePolls[i].notified && (i < n ==> SafeVerdictAt(env, i) == Wait) {
        assert CleanLook(env, i);
        SafeLook(env, i);
        assert i < n ==> !ProvenAt(env, i);
      }
      SafeLook(env, n);
      assert ConfirmedAt(env, n);
    }
  }
}
