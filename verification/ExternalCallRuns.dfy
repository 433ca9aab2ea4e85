/**
  Whole runs of the operator-call policy of helper/src/external_call_policy.cpp, told by the messages
  themselves: which message is answered how, what every deadline is counted from, and that an app
  which keeps the protocol gets its call through.
*/
module ExternalCallRuns {
  import opened Prelude
  import opened ExternalCallPolicy

  /** A message of this attempt that is new, while the attempt is open and the heartbeat alive. */
  predicate Fresh(p: Policy, s: Status, now: Millis) {
    s.kind != Invalid && s.attempt == p.attempt && p.stage != Terminal && !HeartbeatLost(p, now) && Newer(p, s)
  }

  /** Such a message that is also in order: the policy takes note of it. */
  predicate Noted(p: Policy, i: Input) {
    i.Message? && Fresh(p, i.status, i.now) && InOrder(p, i.status)
  }

  // ---------------------------------------------------------------- which message is answered how

  /** The state in which input i of a run finds the policy. */
  function Before(p: Policy, inputs: seq<Input>, i: nat): (r: Policy)
    requires p.answerTimeout <= INT64_MAX && i <= |inputs|
    ensures r.answerTimeout == p.answerTimeout && r.attempt == p.attempt
  {
    Run(p, inputs[..i]).0
  }

  lemma ShownAt(p: Policy, inputs: seq<Input>, i: nat)
    requires p.answerTimeout <= INT64_MAX && i < |inputs|
    ensures Run(p, inputs).1[i] == Step(Before(p, inputs, i), inputs[i]).1
    ensures Before(p, inputs, i + 1) == Step(Before(p, inputs, i), inputs[i]).0
  {
    hide Step;
    RunSplits(p, inputs[..i + 1], inputs[i + 1..]);
    assert inputs[..i + 1] + inputs[i + 1..] == inputs;
    assert inputs[..i + 1][..i] == inputs[..i];
    assert Run(p, inputs[..i + 1]).1[i] == Step(Before(p, inputs, i), inputs[i]).1;
  }

  /** How a call ends, over every run: each ending is reported exactly for its own message, or for the
      loss of the heartbeat. */
  lemma EndingsExact(p: Policy, inputs: seq<Input>, i: nat)
    requires p.answerTimeout <= INT64_MAX && i < |inputs| && inputs[i].Message?
    ensures var (before, s, now, shown) := (Before(p, inputs, i), inputs[i].status, inputs[i].now, Run(p, inputs).1[i]);
      && (shown == Decided(CallNotConnected) <==> Fresh(before, s, now) && s.kind == NotConnected && before.stage != ConferencedStage)
      && (shown == Decided(CleanupTimeout) <==> Fresh(before, s, now) && s.kind == SystemFailure && s.reason == "CLEANUP_TIMEOUT")
      && (shown == Decided(CallSystemFailure) <==> Fresh(before, s, now) && s.kind == SystemFailure && s.reason != "CLEANUP_TIMEOUT")
      && (shown == Decided(CallerHangup) <==> Fresh(before, s, now) && s.kind == Completed && s.reason == "CALLER_HANGUP")
      && (shown == Decided(CallCompleted) <==>
            Fresh(before, s, now) && s.kind == Completed && s.reason == "OPERATOR_HANGUP" && before.stage == ConferencedStage)
      && (shown == Decided(ControlTimeout) <==>
            s.kind != Invalid && s.attempt == p.attempt && before.stage != Terminal && HeartbeatLost(before, now))
  {
    hide Run, HeartbeatLost, Newer, SaturatingAdd;
    ShownAt(p, inputs, i);
    EndingOf(Before(p, inputs, i), inputs[i].status, inputs[i].now);
  }

  lemma EndingOf(p: Policy, s: Status, now: Millis)
    requires p.answerTimeout <= INT64_MAX
    ensures var d := Observed(p, s, now).1;
      && (d == CallNotConnected <==> Fresh(p, s, now) && s.kind == NotConnected && p.stage != ConferencedStage)
      && (d == CleanupTimeout <==> Fresh(p, s, now) && s.kind == SystemFailure && s.reason == "CLEANUP_TIMEOUT")
      && (d == CallSystemFailure <==> Fresh(p, s, now) && s.kind == SystemFailure && s.reason != "CLEANUP_TIMEOUT")
      && (d == CallerHangup <==> Fresh(p, s, now) && s.kind == Completed && s.reason == "CALLER_HANGUP")
      && (d == CallCompleted <==> Fresh(p, s, now) && s.kind == Completed && s.reason == "OPERATOR_HANGUP" && p.stage == ConferencedStage)
      && (d == ControlTimeout <==> s.kind != Invalid && s.attempt == p.attempt && p.stage != Terminal && HeartbeatLost(p, now))
  {
    hide HeartbeatLost, SaturatingAdd;
  }

  /** A breach of the protocol: a repeated number with another content, a number or clock that goes back,
      a phase out of order, or an ending that does not fit the stage. */
  predicate Breaches(p: Policy, s: Status, now: Millis) {
    && s.kind != Invalid && s.attempt == p.attempt && p.stage != Terminal && !HeartbeatLost(p, now)
    && !(p.lastSequence != 0 && s.sequence == p.lastSequence && Repeats(p, s))
    && (|| !Newer(p, s)
        || !InOrder(p, s)
        || (s.kind == NotConnected && p.stage == ConferencedStage)
        || (s.kind == Completed && s.reason != "CALLER_HANGUP" && !(p.stage == ConferencedStage && s.reason == "OPERATOR_HANGUP")))
  }

  /** How progress is answered, and that everything else is a repeat, foreign or a breach. */
  lemma ProgressExact(p: Policy, inputs: seq<Input>, i: nat)
    requires p.answerTimeout <= INT64_MAX && i < |inputs| && inputs[i].Message?
    ensures var (before, s, now, shown) := (Before(p, inputs, i), inputs[i].status, inputs[i].now, Run(p, inputs).1[i]);
      && (shown == Decided(StartRecorder) <==>
            Noted(before, inputs[i]) && s.kind == OperatorAnswered && before.stage != Answered && before.stage != RecorderReady)
      && (shown == Decided(DialingHeartbeat) <==>
            && Noted(before, inputs[i])
            && (s.kind == Ack || s.kind == CallerHeld || s.kind == Dialing
                || (s.kind == OperatorAnswered && (before.stage == Answered || before.stage == RecorderReady))))
      && (shown == Decided(MergeSeen) <==> Noted(before, inputs[i]) && s.kind == Merging)
      && (shown == Decided(ConferenceSeen) <==> Noted(before, inputs[i]) && s.kind == Conferenced)
      && (shown == Decided(IgnoredForeign) <==> s.kind == Invalid || s.attempt != p.attempt)
      && (shown == Decided(ProtocolFailure) <==> Breaches(before, s, now))
  {
    hide Run, HeartbeatLost, Newer, SaturatingAdd, InOrder;
    ShownAt(p, inputs, i);
    ProgressOf(Before(p, inputs, i), inputs[i].status, inputs[i].now);
  }

  lemma ProgressOf(p: Policy, s: Status, now: Millis)
    requires p.answerTimeout <= INT64_MAX
    ensures var (d, noted) := (Observed(p, s, now).1, Noted(p, Message(s, now)));
      && (d == StartRecorder <==> noted && s.kind == OperatorAnswered && p.stage != Answered && p.stage != RecorderReady)
      && (d == DialingHeartbeat <==>
            && noted
            && (s.kind == Ack || s.kind == CallerHeld || s.kind == Dialing
                || (s.kind == OperatorAnswered && (p.stage == Answered || p.stage == RecorderReady))))
      && (d == MergeSeen <==> noted && s.kind == Merging)
      && (d == ConferenceSeen <==> noted && s.kind == Conferenced)
      && (d == IgnoredForeign <==> s.kind == Invalid || s.attempt != p.attempt)
      && (d == ProtocolFailure <==> Breaches(p, s, now))
  {
    hide HeartbeatLost, SaturatingAdd;
  }

  /** Decisions that end an attempt. */
  predicate Ends(d: Decision) {
    || d == CallCompleted || d == CallerHangup || d == CallNotConnected || d == CallSystemFailure
    || d == CleanupTimeout || d == ProtocolFailure || d == ControlTimeout
  }

  lemma EndsOf(p: Policy, s: Status, now: Millis)
    requires p.answerTimeout <= INT64_MAX && p.stage != Terminal
    ensures Observed(p, s, now).0.stage == Terminal <==> Ends(Observed(p, s, now).1)
  {
    hide HeartbeatLost, SaturatingAdd, Newer, InOrder;
  }

  /** An attempt has ended exactly if one of its messages was answered with an ending. */
  lemma {:induction false} EndedExactly(p: Policy, inputs: seq<Input>)
    requires p.answerTimeout <= INT64_MAX && p.stage != Terminal
    ensures var (q, shown) := Run(p, inputs);
      q.stage == Terminal <==> exists i :: 0 <= i < |shown| && shown[i].Decided? && Ends(shown[i].decision)
    decreases |inputs|
  {
    hide Observed, Ends;
    if inputs != [] {
      var front, last := inputs[..|inputs| - 1], inputs[|inputs| - 1];
      EndedExactly(p, front);
      var (before, shown) := Run(p, front);
      var all := shown + [Step(before, last).1];
      assert all[..|shown|] == shown;
      assert forall i :: 0 <= i < |shown| ==> all[i] == shown[i];
      if before.stage != Terminal {
        if last.Message? { EndsOf(before, last.status, last.now); }
        assert all[|shown|] == Step(before, last).1;
      } else {
        StaysEnded(before, last);
        var i :| 0 <= i < |shown| && shown[i].Decided? && Ends(shown[i].decision);
        assert all[i].Decided? && Ends(all[i].decision);
      }
    }
  }

  lemma StaysEnded(p: Policy, i: Input)
    requires p.answerTimeout <= INT64_MAX && p.stage == Terminal
    ensures Step(p, i).0.stage == Terminal
  {
    hide SaturatingAdd, HeartbeatLost;
  }

  // ---------------------------------------------------------------- what the fields stand for

  datatype Note = Note(status: Status, now: Millis)

  /** The messages of a run that were noted, in order. */
  function Notes(p: Policy, inputs: seq<Input>): seq<Note>
    requires p.answerTimeout <= INT64_MAX
    decreases |inputs|
  {
    if inputs == [] then [] else
      var front, last := inputs[..|inputs| - 1], inputs[|inputs| - 1];
      if Noted(Run(p, front).0, last) then Notes(p, front) + [Note(last.status, last.now)] else Notes(p, front)
  }

  /** The first note of a kind whose deadline is not zero, the value that stands for "not set". */
  ghost predicate SetsAnswer(notes: seq<Note>, timeout: nat, i: int)
    requires timeout <= INT64_MAX
  {
    && 0 <= i < |notes| && notes[i].status.kind == Dialing && SaturatingAdd(notes[i].now, timeout) != 0
    && forall j :: 0 <= j < i && notes[j].status.kind == Dialing ==> SaturatingAdd(notes[j].now, timeout) == 0
  }

  ghost predicate FirstMerging(notes: seq<Note>, i: int) {
    && 0 <= i < |notes| && notes[i].status.kind == Merging
    && forall j :: 0 <= j < i ==> notes[j].status.kind != Merging
  }

  /** The last message noted, and the heartbeat counted from it. */
  ghost predicate LastFollows(p: Policy, startedAt: Millis, notes: seq<Note>) {
    if notes == [] then p.lastSequence == 0 && p.lastElapsed == 0 && p.heartbeatDeadline == SaturatingAdd(startedAt, 3_000)
    else
      var last := notes[|notes| - 1];
      && p.lastSequence == last.status.sequence > 0 && p.lastElapsed == last.status.elapsed
      && p.lastKind == last.status.kind && p.lastReason == last.status.reason
      && p.heartbeatDeadline == SaturatingAdd(last.now, 3_000)
  }

  ghost predicate AnswerFollows(p: Policy, timeout: nat, notes: seq<Note>)
    requires timeout <= INT64_MAX
  {
    && (p.answerDeadline == 0 <==> !exists i :: SetsAnswer(notes, timeout, i))
    && forall i :: SetsAnswer(notes, timeout, i) ==> p.answerDeadline == SaturatingAdd(notes[i].now, timeout)
  }

  ghost predicate MergeFollows(p: Policy, notes: seq<Note>) {
    && ((forall i :: 0 <= i < |notes| ==> notes[i].status.kind != Merging) ==> p.mergeDeadline == 0)
    && forall i :: FirstMerging(notes, i) ==> p.mergeDeadline == SaturatingAdd(notes[i].now, 10_000)
  }

  /** The highest phase is that of the furthest note. */
  ghost predicate RankFollows(p: Policy, notes: seq<Note>) {
    && -1 <= p.highestPhaseRank
    && (forall i :: 0 <= i < |notes| ==> PhaseRank(notes[i].status.kind) <= p.highestPhaseRank)
    && (p.highestPhaseRank == -1 || exists i :: 0 <= i < |notes| && PhaseRank(notes[i].status.kind) == p.highestPhaseRank)
  }

  /** A merge has been noted before the stage says so, and not while the stage is before it. */
  ghost predicate StageFollows(p: Policy, notes: seq<Note>) {
    && (StageRank(p.stage) < StageRank(MergingStage) ==> forall i :: 0 <= i < |notes| ==> notes[i].status.kind != Merging)
    && (p.stage == MergingStage || p.stage == ConferencedStage ==> exists i :: FirstMerging(notes, i))
  }

  ghost predicate Follows(p: Policy, timeout: nat, startedAt: Millis, notes: seq<Note>)
    requires timeout <= INT64_MAX
  {
    LastFollows(p, startedAt, notes) && AnswerFollows(p, timeout, notes) && MergeFollows(p, notes) && RankFollows(p, notes)
  }

  /** What is not noted moves nothing but the stage and the independent evidence. */
  lemma NotNoted(p: Policy, i: Input)
    requires p.answerTimeout <= INT64_MAX && !Noted(p, i)
    ensures var q := Step(p, i).0; q == p.(stage := q.stage, independentConferenceAt := q.independentConferenceAt)
  {
    hide HeartbeatLost, Newer, InOrder, SaturatingAdd;
  }

  /** What is noted moves the last message, its heartbeat, the highest phase and at most one deadline. */
  lemma NotedMoves(p: Policy, i: Input)
    requires p.answerTimeout <= INT64_MAX && Noted(p, i)
    ensures var (q, s) := (Step(p, i).0, i.status);
      && q == p.(stage := q.stage, lastSequence := s.sequence, lastElapsed := s.elapsed, lastKind := s.kind, lastReason := s.reason,
                 heartbeatDeadline := SaturatingAdd(i.now, 3_000), answerDeadline := q.answerDeadline, mergeDeadline := q.mergeDeadline,
                 highestPhaseRank := q.highestPhaseRank)
      && q.highestPhaseRank == (if PhaseRank(s.kind) >= 0 then PhaseRank(s.kind) else p.highestPhaseRank)
      && (p.highestPhaseRank >= -1 ==> PhaseRank(s.kind) <= q.highestPhaseRank && p.highestPhaseRank <= q.highestPhaseRank)
      && q.answerDeadline == (if s.kind == Dialing && p.answerDeadline == 0 then SaturatingAdd(i.now, p.answerTimeout) else p.answerDeadline)
      && q.mergeDeadline == (if s.kind == Merging && p.stage == RecorderReady then SaturatingAdd(i.now, 10_000) else p.mergeDeadline)
      && (s.kind == Merging ==> p.stage == RecorderReady || p.stage == MergingStage)
      && (s.kind == Merging ==> q.stage == MergingStage)
      && s.sequence > 0
  {
    hide HeartbeatLost, SaturatingAdd;
  }

  lemma NoteKeepsAnswer(p: Policy, q: Policy, timeout: nat, notes: seq<Note>, n: Note)
    requires timeout <= INT64_MAX && AnswerFollows(p, timeout, notes)
    requires q.answerDeadline == (if n.status.kind == Dialing && p.answerDeadline == 0 then SaturatingAdd(n.now, timeout) else p.answerDeadline)
    ensures AnswerFollows(q, timeout, notes + [n])
  {
    hide SaturatingAdd;
    var all := notes + [n];
    assert forall i :: 0 <= i < |notes| ==> all[i] == notes[i];
    assert forall i :: 0 <= i < |notes| ==> (SetsAnswer(all, timeout, i) <==> SetsAnswer(notes, timeout, i));
    if p.answerDeadline == 0 {
      forall j | 0 <= j < |notes| && notes[j].status.kind == Dialing ensures SaturatingAdd(notes[j].now, timeout) == 0 {
        EarlierIsZero(notes, timeout, j);
      }
      assert SetsAnswer(all, timeout, |notes|) <==> n.status.kind == Dialing && SaturatingAdd(n.now, timeout) != 0;
    } else {
      var i :| SetsAnswer(notes, timeout, i);
      assert SetsAnswer(all, timeout, i);
      assert !SetsAnswer(all, timeout, |notes|);
    }
  }

  lemma {:induction false} EarlierIsZero(notes: seq<Note>, timeout: nat, j: nat)
    requires timeout <= INT64_MAX && j < |notes| && notes[j].status.kind == Dialing
    requires !exists i :: SetsAnswer(notes, timeout, i)
    ensures SaturatingAdd(notes[j].now, timeout) == 0
    decreases j
  {
    hide SaturatingAdd;
    forall k | 0 <= k < j && notes[k].status.kind == Dialing ensures SaturatingAdd(notes[k].now, timeout) == 0 {
      EarlierIsZero(notes, timeout, k);
    }
    assert !SetsAnswer(notes, timeout, j);
  }

  lemma NoteKeepsMerge(p: Policy, q: Policy, notes: seq<Note>, n: Note)
    requires MergeFollows(p, notes) && StageFollows(p, notes)
    requires n.status.kind == Merging ==> p.stage == RecorderReady || p.stage == MergingStage
    requires q.mergeDeadline == (if n.status.kind == Merging && p.stage == RecorderReady then SaturatingAdd(n.now, 10_000) else p.mergeDeadline)
    ensures MergeFollows(q, notes + [n])
  {
    hide SaturatingAdd;
    var all := notes + [n];
    assert forall i :: 0 <= i < |notes| ==> all[i] == notes[i];
    assert all[|notes|] == n;
    forall i | FirstMerging(all, i) ensures q.mergeDeadline == SaturatingAdd(all[i].now, 10_000) {
      assert i < |notes| ==> FirstMerging(notes, i);
      assert i == |notes| ==> !exists j :: FirstMerging(notes, j);
    }
    if forall i :: 0 <= i < |all| ==> all[i].status.kind != Merging {
      forall i | 0 <= i < |notes| ensures notes[i].status.kind != Merging { assert all[i].status.kind != Merging; }
    }
  }

  lemma NoteKeepsStage(p: Policy, q: Policy, notes: seq<Note>, n: Note)
    requires StageFollows(p, notes) && StageRank(p.stage) <= StageRank(q.stage)
    requires n.status.kind == Merging ==> q.stage == MergingStage
    requires q.stage == MergingStage && p.stage != q.stage ==> n.status.kind == Merging
    requires q.stage == ConferencedStage && p.stage != q.stage ==> p.stage == MergingStage
    ensures StageFollows(q, notes + [n])
  {
    var all := notes + [n];
    assert forall i :: 0 <= i < |notes| ==> all[i] == notes[i];
    assert all[|notes|] == n;
    if p.stage == MergingStage || p.stage == ConferencedStage {
      var i :| FirstMerging(notes, i);
      assert FirstMerging(all, i);
    } else if q.stage == MergingStage {
      assert StageRank(p.stage) < StageRank(MergingStage);
      assert FirstMerging(all, |notes|);
    }
  }

  lemma NoteKeepsRank(p: Policy, q: Policy, notes: seq<Note>, n: Note)
    requires RankFollows(p, notes)
    requires q.highestPhaseRank == (if PhaseRank(n.status.kind) >= 0 then PhaseRank(n.status.kind) else p.highestPhaseRank)
    requires PhaseRank(n.status.kind) <= q.highestPhaseRank && p.highestPhaseRank <= q.highestPhaseRank
    ensures RankFollows(q, notes + [n])
  {
    var all := notes + [n];
    assert forall i :: 0 <= i < |notes| ==> all[i] == notes[i];
    assert all[|notes|] == n;
    if PhaseRank(n.status.kind) < 0 && p.highestPhaseRank != -1 {
      var i :| 0 <= i < |notes| && PhaseRank(notes[i].status.kind) == p.highestPhaseRank;
      assert PhaseRank(all[i].status.kind) == q.highestPhaseRank;
    }
  }

  lemma NoteFollows(p: Policy, timeout: nat, startedAt: Millis, notes: seq<Note>, i: Input)
    requires Consistent(p) && p.answerTimeout == timeout && Noted(p, i)
    requires Follows(p, timeout, startedAt, notes) && StageFollows(p, notes)
    ensures var q := Step(p, i).0;
      Follows(q, timeout, startedAt, notes + [Note(i.status, i.now)]) && StageFollows(q, notes + [Note(i.status, i.now)])
  {
    hide Step, SaturatingAdd, AnswerFollows, MergeFollows, StageFollows, Fresh, InOrder;
    var q, n := Step(p, i).0, Note(i.status, i.now);
    NotedMoves(p, i);
    StepForward(p, i);
    MergeEntered(p, i);
    NoteKeepsAnswer(p, q, timeout, notes, n);
    NoteKeepsMerge(p, q, notes, n);
    NoteKeepsRank(p, q, notes, n);
    NoteKeepsStage(p, q, notes, n);
  }

  lemma MergeEntered(p: Policy, i: Input)
    requires p.answerTimeout <= INT64_MAX && Noted(p, i)
    ensures Step(p, i).0.stage == MergingStage && p.stage != MergingStage ==> i.status.kind == Merging
  {
    hide HeartbeatLost, SaturatingAdd, Newer;
  }

  lemma {:induction false} FieldsAndStage(attempt: Attempt, timeout: nat, startedAt: Millis, inputs: seq<Input>)
    requires timeout <= INT64_MAX
    ensures var (p, notes) := (Run(Begin(attempt, timeout, startedAt), inputs).0, Notes(Begin(attempt, timeout, startedAt), inputs));
      Consistent(p) && Follows(p, timeout, startedAt, notes) && StageFollows(p, notes)
    ensures Run(Begin(attempt, timeout, startedAt), inputs).0.answerTimeout == timeout
    decreases |inputs|
  {
    hide Step, SaturatingAdd, Noted, Consistent, Follows, StageFollows;
    var start := Begin(attempt, timeout, startedAt);
    RunConsistent(start, inputs) by { BeginConsistent(attempt, timeout, startedAt); }
    if inputs == [] {
      BeginFollows(attempt, timeout, startedAt);
    } else {
      var front, last := inputs[..|inputs| - 1], inputs[|inputs| - 1];
      FieldsAndStage(attempt, timeout, startedAt, front);
      var p, notes := Run(start, front).0, Notes(start, front);
      if Noted(p, last) {
        NoteFollows(p, timeout, startedAt, notes, last);
      } else {
        NotNoted(p, last);
        StepForward(p, last);
        UnnotedFollows(p, timeout, startedAt, notes, last);
      }
    }
  }

  lemma BeginConsistent(attempt: Attempt, timeout: nat, startedAt: Millis)
    requires timeout <= INT64_MAX
    ensures Consistent(Begin(attempt, timeout, startedAt))
  {
  }

  lemma BeginFollows(attempt: Attempt, timeout: nat, startedAt: Millis)
    requires timeout <= INT64_MAX
    ensures Follows(Begin(attempt, timeout, startedAt), timeout, startedAt, []) && StageFollows(Begin(attempt, timeout, startedAt), [])
  {
  }

  lemma UnnotedFollows(p: Policy, timeout: nat, startedAt: Millis, notes: seq<Note>, i: Input)
    requires Consistent(p) && p.answerTimeout == timeout && !Noted(p, i)
    requires Follows(p, timeout, startedAt, notes) && StageFollows(p, notes)
    ensures Follows(Step(p, i).0, timeout, startedAt, notes) && StageFollows(Step(p, i).0, notes)
  {
    hide Step, SaturatingAdd, Noted;
    NotNoted(p, i);
    StepForward(p, i);
    UnnotedStage(p, i);
  }

  lemma UnnotedStage(p: Policy, i: Input)
    requires p.answerTimeout <= INT64_MAX && !Noted(p, i)
    ensures var q := Step(p, i).0; q.stage == p.stage || q.stage == Terminal || (p.stage == Answered && q.stage == RecorderReady)
  {
    hide HeartbeatLost, Newer, InOrder, SaturatingAdd;
  }

  /** Over every run the deadlines are counted from the messages noted: the heartbeat from the last of
      them, the answer from the first DIALING, the merge from the first MERGING. */
  lemma FieldsFollow(attempt: Attempt, timeout: nat, startedAt: Millis, inputs: seq<Input>)
    requires timeout <= INT64_MAX
    ensures var (p, notes) := (Run(Begin(attempt, timeout, startedAt), inputs).0, Notes(Begin(attempt, timeout, startedAt), inputs));
      && LastFollows(p, startedAt, notes) && AnswerFollows(p, timeout, notes)
      && MergeFollows(p, notes) && RankFollows(p, notes)
      && p.setupDeadline == SaturatingAdd(startedAt, 10_000)
  {
    hide Step, SaturatingAdd, Noted, LastFollows, AnswerFollows, MergeFollows, RankFollows, StageFollows, Consistent;
    FieldsAndStage(attempt, timeout, startedAt, inputs);
  }

  /** The latest time of independent evidence that the conference is up. */
  function LastEvidence(inputs: seq<Input>): Millis {
    if inputs == [] then -1
    else if inputs[|inputs| - 1].Confirm? then inputs[|inputs| - 1].at
    else LastEvidence(inputs[..|inputs| - 1])
  }

  lemma {:induction false} EvidenceFollows(p: Policy, inputs: seq<Input>)
    requires p.answerTimeout <= INT64_MAX && p.independentConferenceAt == -1
    ensures Run(p, inputs).0.independentConferenceAt == LastEvidence(inputs)
    decreases |inputs|
  {
    hide Step;
    if inputs != [] {
      EvidenceFollows(p, inputs[..|inputs| - 1]);
      EvidenceStep(Run(p, inputs[..|inputs| - 1]).0, inputs[|inputs| - 1]);
    }
  }

  lemma EvidenceStep(p: Policy, i: Input)
    requires p.answerTimeout <= INT64_MAX
    ensures Step(p, i).0.independentConferenceAt == if i.Confirm? then i.at else p.independentConferenceAt
  {
    hide HeartbeatLost, SaturatingAdd, Newer, InOrder;
  }

  /** Three seconds without a message noted, unless the conference is known to be up by evidence at most
      two seconds old. */
  predicate Silence(notes: seq<Note>, startedAt: Millis, evidence: Millis, stage: Stage, now: Millis) {
    && now >= SaturatingAdd(if notes == [] then startedAt else notes[|notes| - 1].now, 3_000)
    && !(stage == ConferencedStage && 0 <= evidence <= now <= evidence + 2_000)
  }

  /** When the heartbeat is lost, a message new and a phase in order, told by the messages noted before. */
  lemma FreshExact(attempt: Attempt, timeout: nat, startedAt: Millis, inputs: seq<Input>, s: Status, now: Millis)
    requires timeout <= INT64_MAX
    ensures var (p, notes) := (Run(Begin(attempt, timeout, startedAt), inputs).0, Notes(Begin(attempt, timeout, startedAt), inputs));
      && (HeartbeatLost(p, now) <==> Silence(notes, startedAt, LastEvidence(inputs), p.stage, now))
      && (Newer(p, s) <==>
            if notes == [] then s.sequence > 0
            else s.sequence > notes[|notes| - 1].status.sequence && s.elapsed >= notes[|notes| - 1].status.elapsed)
      && (InOrder(p, s) <==> PhaseRank(s.kind) >= 0 ==>
            && (forall i :: 0 <= i < |notes| ==> PhaseRank(notes[i].status.kind) <= PhaseRank(s.kind))
            && (s.kind == Merging ==> p.stage == RecorderReady || p.stage == MergingStage)
            && (s.kind == Conferenced ==> p.stage == MergingStage || p.stage == ConferencedStage))
  {
    hide Run, Notes, SaturatingAdd, AnswerFollows, MergeFollows;
    FieldsFollow(attempt, timeout, startedAt, inputs);
    EvidenceFollows(Begin(attempt, timeout, startedAt), inputs);
  }

  // ---------------------------------------------------------------- an app that keeps the protocol

  /** The last message of a script. */
  function Latest(inputs: seq<Input>): Option<Note> {
    if inputs == [] then None
    else if inputs[|inputs| - 1].Message? then Some(Note(inputs[|inputs| - 1].status, inputs[|inputs| - 1].now))
    else Latest(inputs[..|inputs| - 1])
  }

  predicate AnyReady(inputs: seq<Input>) {
    exists i :: 0 <= i < |inputs| && inputs[i].Ready?
  }

  /** A progress message that follows the last one in number, clock, phase and time; merging waits for
      the recorder, and the conference for merging. */
  predicate Proceeds(attempt: Attempt, startedAt: Millis, inputs: seq<Input>, s: Status, now: Millis) {
    && s.attempt == attempt && PhaseRank(s.kind) >= 0
    && match Latest(inputs)
       case None => s.sequence > 0 && now < SaturatingAdd(startedAt, 3_000) && s.kind != Merging && s.kind != Conferenced
       case Some(m) =>
         && s.sequence > m.status.sequence && s.elapsed >= m.status.elapsed && now < SaturatingAdd(m.now, 3_000)
         && PhaseRank(s.kind) >= PhaseRank(m.status.kind)
         && (s.kind == Merging ==> m.status.kind == Merging || (m.status.kind == OperatorAnswered && AnyReady(inputs)))
         && (s.kind == Conferenced ==> m.status.kind == Merging || m.status.kind == Conferenced)
  }

  /** Every message proceeds, and the recorder is only said to be ready after the answer, in time. */
  predicate Orderly(attempt: Attempt, startedAt: Millis, inputs: seq<Input>) {
    inputs == [] ||
      var front, last := inputs[..|inputs| - 1], inputs[|inputs| - 1];
      && Orderly(attempt, startedAt, front)
      && match last
         case Message(s, now) => Proceeds(attempt, startedAt, front, s, now)
         case Ready(now) => Latest(front).Some? && Latest(front).value.status.kind == OperatorAnswered && now < SaturatingAdd(Latest(front).value.now, 3_000)
         case Confirm(_) => true
  }

  /** The stage an orderly script leads to. */
  function StageAfter(inputs: seq<Input>): Stage {
    match Latest(inputs)
    case None => AwaitingApp
    case Some(m) =>
      match m.status.kind
      case OperatorAnswered => if AnyReady(inputs) then RecorderReady else Answered
      case Merging => MergingStage
      case Conferenced => ConferencedStage
      case _ => DialingStage
  }

  /** Where an orderly script leaves the policy. */
  ghost predicate OnTrack(p: Policy, attempt: Attempt, startedAt: Millis, inputs: seq<Input>) {
    && Consistent(p) && p.attempt == attempt && p.stage == StageAfter(inputs)
    && match Latest(inputs)
       case None => p.lastSequence == 0 && p.heartbeatDeadline == SaturatingAdd(startedAt, 3_000) && p.highestPhaseRank == -1
       case Some(m) =>
         && p.lastSequence == m.status.sequence > 0 && p.lastElapsed == m.status.elapsed && PhaseRank(m.status.kind) >= 0
         && p.heartbeatDeadline == SaturatingAdd(m.now, 3_000) && p.highestPhaseRank == PhaseRank(m.status.kind)
  }

  lemma NotedStage(p: Policy, i: Input)
    requires p.answerTimeout <= INT64_MAX && Noted(p, i) && PhaseRank(i.status.kind) >= 0
    ensures Step(p, i).0.stage ==
      match i.status.kind
      case OperatorAnswered => if p.stage == RecorderReady then RecorderReady else Answered
      case Merging => MergingStage
      case Conferenced => ConferencedStage
      case _ => DialingStage
  {
    hide HeartbeatLost, SaturatingAdd, InOrder;
  }

  lemma ProceedsIsNoted(p: Policy, attempt: Attempt, startedAt: Millis, inputs: seq<Input>, s: Status, now: Millis)
    requires OnTrack(p, attempt, startedAt, inputs) && Proceeds(attempt, startedAt, inputs, s, now)
    ensures Noted(p, Message(s, now))
  {
    hide SaturatingAdd, AnyReady;
  }

  lemma LatestNext(inputs: seq<Input>, i: Input)
    ensures Latest(inputs + [i]) == if i.Message? then Some(Note(i.status, i.now)) else Latest(inputs)
    ensures AnyReady(inputs + [i]) <==> AnyReady(inputs) || i.Ready?
    ensures forall attempt, startedAt :: Orderly(attempt, startedAt, inputs + [i]) ==> Orderly(attempt, startedAt, inputs)
  {
    var all := inputs + [i];
    assert all[..|all| - 1] == inputs;
    assert all[|inputs|] == i;
    assert forall j :: 0 <= j < |inputs| ==> all[j] == inputs[j];
  }

  /** The recorder cannot be ready before the answer. */
  lemma {:induction false} ReadyAfterAnswer(attempt: Attempt, startedAt: Millis, inputs: seq<Input>)
    requires Orderly(attempt, startedAt, inputs) && AnyReady(inputs)
    ensures Latest(inputs).Some? && PhaseRank(Latest(inputs).value.status.kind) >= 3
    decreases |inputs|
  {
    hide SaturatingAdd, AnyReady;
    if inputs != [] {
      var front, last := inputs[..|inputs| - 1], inputs[|inputs| - 1];
      assert inputs == front + [last];
      LatestNext(front, last);
      if AnyReady(front) { ReadyAfterAnswer(attempt, startedAt, front); }
    } else {
      NothingReady(inputs);
    }
  }

  lemma NothingReady(inputs: seq<Input>)
    requires inputs == []
    ensures !AnyReady(inputs)
  {
  }

  lemma OnTrackMessage(p: Policy, attempt: Attempt, startedAt: Millis, inputs: seq<Input>, i: Input)
    requires OnTrack(p, attempt, startedAt, inputs) && Orderly(attempt, startedAt, inputs) && i.Message?
    requires Proceeds(attempt, startedAt, inputs, i.status, i.now)
    ensures OnTrack(Step(p, i).0, attempt, startedAt, inputs + [i])
  {
    LatestNext(inputs, i);
    if AnyReady(inputs) { ReadyAfterAnswer(attempt, startedAt, inputs); }
    ProceedsIsNoted(p, attempt, startedAt, inputs, i.status, i.now);
    NotedMoves(p, i);
    NotedStage(p, i);
    StepForward(p, i);
    hide SaturatingAdd, AnyReady, Step, Consistent;
  }

  lemma OnTrackOther(p: Policy, attempt: Attempt, startedAt: Millis, inputs: seq<Input>, i: Input)
    requires OnTrack(p, attempt, startedAt, inputs) && !i.Message?
    requires i.Ready? ==> Latest(inputs).Some? && Latest(inputs).value.status.kind == OperatorAnswered && i.now < SaturatingAdd(Latest(inputs).value.now, 3_000)
    ensures OnTrack(Step(p, i).0, attempt, startedAt, inputs + [i])
  {
    hide SaturatingAdd, AnyReady;
    LatestNext(inputs, i);
  }

  lemma OnTrackStep(p: Policy, attempt: Attempt, startedAt: Millis, inputs: seq<Input>, i: Input)
    requires OnTrack(p, attempt, startedAt, inputs) && Orderly(attempt, startedAt, inputs + [i])
    ensures OnTrack(Step(p, i).0, attempt, startedAt, inputs + [i])
  {
    LatestNext(inputs, i);
    assert (inputs + [i])[..|inputs|] == inputs;
    hide OnTrack, Step, Proceeds;
    if i.Message? { OnTrackMessage(p, attempt, startedAt, inputs, i); } else { OnTrackOther(p, attempt, startedAt, inputs, i); }
  }

  lemma {:induction false} OrderlyOnTrack(attempt: Attempt, timeout: nat, startedAt: Millis, inputs: seq<Input>)
    requires timeout <= INT64_MAX && Orderly(attempt, startedAt, inputs)
    ensures OnTrack(Run(Begin(attempt, timeout, startedAt), inputs).0, attempt, startedAt, inputs)
    decreases |inputs|
  {
    hide Step, OnTrack;
    if inputs == [] {
      assert OnTrack(Begin(attempt, timeout, startedAt), attempt, startedAt, []) by { BeginOnTrack(attempt, timeout, startedAt); }
    } else {
      var front, last := inputs[..|inputs| - 1], inputs[|inputs| - 1];
      assert inputs == front + [last];
      OrderlyOnTrack(attempt, timeout, startedAt, front);
      OnTrackStep(Run(Begin(attempt, timeout, startedAt), front).0, attempt, startedAt, front, last);
    }
  }

  lemma BeginOnTrack(attempt: Attempt, timeout: nat, startedAt: Millis)
    requires timeout <= INT64_MAX
    ensures OnTrack(Begin(attempt, timeout, startedAt), attempt, startedAt, [])
  {
  }

  /** An app that keeps the protocol is never refused, and its operator hanging up in the conference
      completes the call. */
  lemma OrderlyCompletes(attempt: Attempt, timeout: nat, startedAt: Millis, inputs: seq<Input>, s: Status, now: Millis)
    requires timeout <= INT64_MAX && Orderly(attempt, startedAt, inputs)
    requires Latest(inputs).Some? && Latest(inputs).value.status.kind == Conferenced
    requires var m := Latest(inputs).value;
      s.attempt == attempt && s.sequence > m.status.sequence && s.elapsed >= m.status.elapsed && now < SaturatingAdd(m.now, 3_000)
    requires s.kind == Completed && s.reason == "OPERATOR_HANGUP"
    ensures Run(Begin(attempt, timeout, startedAt), inputs + [Message(s, now)]).1[|inputs|] == Decided(CallCompleted)
    ensures Run(Begin(attempt, timeout, startedAt), inputs).0.stage == ConferencedStage
  {
    hide SaturatingAdd;
    OrderlyOnTrack(attempt, timeout, startedAt, inputs);
    var all := inputs + [Message(s, now)];
    assert all[..|inputs|] == inputs;
    EndingsExact(Begin(attempt, timeout, startedAt), all, |inputs|);
  }
}
