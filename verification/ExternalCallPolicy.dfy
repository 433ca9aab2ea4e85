/**
  The sequenced, heartbeat-guarded protocol of one operator call:
  helper/src/external_call_policy.cpp.  Each policy is a class over its fields, specified by a
  function on their values; what holds over whole runs is proved about those functions.
*/
module ExternalCallPolicy {
  import opened Prelude

  const INT64_MAX := 0x7FFF_FFFF_FFFF_FFFF
  type Millis = x: int | -0x8000_0000_0000_0000 <= x <= 0x7FFF_FFFF_FFFF_FFFF

  const HEARTBEAT_MAXIMUM_AGE: Millis := 3_000
  const SETUP_MAXIMUM: Millis := 10_000
  const MERGE_MAXIMUM: Millis := 10_000
  const CONFERENCE_EVIDENCE_AGE := 2_000

  function SaturatingAdd(value: Millis, delta: nat): (r: Millis)
    requires delta <= INT64_MAX
    ensures r == if value + delta > INT64_MAX then INT64_MAX else value + delta
  {
    if delta > 0 && value > INT64_MAX - delta then INT64_MAX else value + delta
  }

  datatype Kind = Ack | CallerHeld | Dialing | OperatorAnswered | Merging | Conferenced | Completed | NotConnected | SystemFailure | Invalid

  /** The four identifiers every message of one attempt carries. */
  datatype Attempt = Attempt(session: string, revision: nat, block: string, boot: string)

  datatype Status = Status(kind: Kind, attempt: Attempt, sequence: nat, elapsed: nat, reason: string)

  datatype Stage = AwaitingApp | DialingStage | Answered | RecorderReady | MergingStage | ConferencedStage | Terminal

  datatype Decision =
    | IgnoredForeign | Duplicate | DialingHeartbeat | StartRecorder | MergeSeen | ConferenceSeen
    | CallCompleted | CallerHangup | CallNotConnected | CallSystemFailure | CleanupTimeout
    | ProtocolFailure | ControlTimeout | SetupTimeout | AnswerTimeout | MergeTimeout

  datatype Policy = Policy(
    attempt: Attempt, answerTimeout: nat, setupDeadline: Millis,
    answerDeadline: Millis, heartbeatDeadline: Millis, mergeDeadline: Millis,
    stage: Stage, lastSequence: nat, lastElapsed: nat, lastKind: Kind, lastReason: string,
    highestPhaseRank: int, independentConferenceAt: Millis)

  function PhaseRank(kind: Kind): int {
    match kind
    case Ack => 0
    case CallerHeld => 1
    case Dialing => 2
    case OperatorAnswered => 3
    case Merging => 4
    case Conferenced => 5
    case _ => -1
  }

  function Begin(attempt: Attempt, answerTimeout: nat, startedAt: Millis): Policy {
    Policy(attempt, answerTimeout, SaturatingAdd(startedAt, SETUP_MAXIMUM), 0, SaturatingAdd(startedAt, HEARTBEAT_MAXIMUM_AGE), 0,
           AwaitingApp, 0, 0, Invalid, "", -1, -1)
  }

  predicate Foreign(p: Policy, s: Status) {
    s.kind == Invalid || s.attempt != p.attempt
  }

  /** No message in time, and no independent evidence that the conference is up. */
  predicate HeartbeatLost(p: Policy, now: Millis) {
    && now >= p.heartbeatDeadline
    && !(p.stage == ConferencedStage && p.independentConferenceAt >= 0
         && now >= p.independentConferenceAt && now - p.independentConferenceAt <= CONFERENCE_EVIDENCE_AGE)
  }

  predicate Repeats(p: Policy, s: Status) {
    s.sequence == p.lastSequence && s.elapsed == p.lastElapsed && s.kind == p.lastKind && s.reason == p.lastReason
  }

  /** A progress message that the stages reached so far allow. */
  predicate InOrder(p: Policy, s: Status) {
    PhaseRank(s.kind) >= 0 ==>
      && PhaseRank(s.kind) >= p.highestPhaseRank
      && (s.kind == Merging ==> p.stage == RecorderReady || p.stage == MergingStage)
      && (s.kind == Conferenced ==> p.stage == MergingStage || p.stage == ConferencedStage)
  }

  predicate Newer(p: Policy, s: Status) {
    s.sequence > p.lastSequence && (p.lastSequence != 0 ==> s.elapsed >= p.lastElapsed)
  }

  function Fail(p: Policy): (Policy, Decision) {
    (p.(stage := Terminal), ProtocolFailure)
  }

  /** A new message that is in order, noted as the last one. */
  function Record(p: Policy, s: Status, now: Millis): Policy {
    p.(highestPhaseRank := if PhaseRank(s.kind) >= 0 then PhaseRank(s.kind) else p.highestPhaseRank,
       lastSequence := s.sequence, lastElapsed := s.elapsed, lastKind := s.kind, lastReason := s.reason,
       heartbeatDeadline := SaturatingAdd(now, HEARTBEAT_MAXIMUM_AGE))
  }

  /** What a noted message leads to. */
  function ActOn(p: Policy, s: Status, now: Millis): (Policy, Decision)
    requires p.answerTimeout <= INT64_MAX
  {
    match s.kind
    case Ack => (p.(stage := DialingStage), DialingHeartbeat)
    case CallerHeld => (p.(stage := DialingStage), DialingHeartbeat)
    case Dialing =>
      (p.(stage := DialingStage,
          answerDeadline := if p.answerDeadline == 0 then SaturatingAdd(now, p.answerTimeout) else p.answerDeadline), DialingHeartbeat)
    case OperatorAnswered =>
      if p.stage != Answered && p.stage != RecorderReady then (p.(stage := Answered), StartRecorder) else (p, DialingHeartbeat)
    case Merging =>
      (p.(stage := MergingStage,
          mergeDeadline := if p.stage == RecorderReady then SaturatingAdd(now, MERGE_MAXIMUM) else p.mergeDeadline), MergeSeen)
    case Conferenced => (p.(stage := ConferencedStage), ConferenceSeen)
    case Completed =>
      if s.reason == "CALLER_HANGUP" then (p.(stage := Terminal), CallerHangup)
      else if p.stage == ConferencedStage && s.reason == "OPERATOR_HANGUP" then (p.(stage := Terminal), CallCompleted)
      else Fail(p)
    case NotConnected => if p.stage == ConferencedStage then Fail(p) else (p.(stage := Terminal), CallNotConnected)
    case SystemFailure => (p.(stage := Terminal), if s.reason == "CLEANUP_TIMEOUT" then CleanupTimeout else CallSystemFailure)
    case Invalid => Fail(p)
  }

  function Observed(p: Policy, s: Status, now: Millis): (Policy, Decision)
    requires p.answerTimeout <= INT64_MAX
  {
    if Foreign(p, s) then (p, IgnoredForeign)
    else if p.stage == Terminal then (p, Duplicate)
    else if HeartbeatLost(p, now) then (p.(stage := Terminal), ControlTimeout)
    else if s.sequence == p.lastSequence && p.lastSequence != 0 then (if Repeats(p, s) then (p, Duplicate) else Fail(p))
    else if !Newer(p, s) || !InOrder(p, s) then Fail(p)
    else ActOn(Record(p, s, now), s, now)
  }

  function MarkReady(p: Policy, now: Millis): (Policy, bool) {
    if p.stage != Answered || now >= p.heartbeatDeadline then (p, false) else (p.(stage := RecorderReady), true)
  }

  /** The app has not come to dialling in time. */
  predicate SetupLate(p: Policy, now: Millis) {
    p.answerDeadline == 0 && (p.stage == AwaitingApp || p.stage == DialingStage) && now >= p.setupDeadline
  }

  /** The operator has not answered in time. */
  predicate AnswerLate(p: Policy, now: Millis) {
    p.answerDeadline > 0 && p.stage == DialingStage && now >= p.answerDeadline
  }

  /** The two calls have not been joined in time. */
  predicate MergeLate(p: Policy, now: Millis) {
    p.stage == MergingStage && p.mergeDeadline > 0 && now >= p.mergeDeadline
  }

  /** The heartbeat and the deadline of the present stage are kept. */
  predicate OnTime(p: Policy, now: Millis) {
    !HeartbeatLost(p, now) && !SetupLate(p, now) && !AnswerLate(p, now) && !MergeLate(p, now)
  }

  /** A timeout is reported exactly when its own deadline has passed and the heartbeat has not been lost
      before it; a lost heartbeat comes first. */
  function CheckDeadline(p: Policy, now: Millis): (d: Decision)
    ensures d == ControlTimeout <==> p.stage != Terminal && HeartbeatLost(p, now)
    ensures d == SetupTimeout <==> !HeartbeatLost(p, now) && SetupLate(p, now)
    ensures d == AnswerTimeout <==> !HeartbeatLost(p, now) && AnswerLate(p, now)
    ensures d == MergeTimeout <==> !HeartbeatLost(p, now) && MergeLate(p, now)
    ensures d == ProtocolFailure <==> p.stage == Terminal
  {
    if p.stage == Terminal then ProtocolFailure
    else if HeartbeatLost(p, now) then ControlTimeout
    else if p.answerDeadline == 0 && (p.stage == AwaitingApp || p.stage == DialingStage) && now >= p.setupDeadline then SetupTimeout
    else if p.answerDeadline > 0 && p.stage == DialingStage && now >= p.answerDeadline then AnswerTimeout
    else if p.stage == MergingStage && p.mergeDeadline > 0 && now >= p.mergeDeadline then MergeTimeout
    else if p.stage == ConferencedStage then ConferenceSeen
    else if p.stage == Answered then StartRecorder
    else if p.stage == MergingStage then MergeSeen
    else DialingHeartbeat
  }

  /** The policy object: the fields of the source and the steps it takes on them. */
  class ExternalCall {
    const attempt: Attempt
    const answerTimeout: nat
    var setupDeadline: Millis
    var answerDeadline: Millis
    var heartbeatDeadline: Millis
    var mergeDeadline: Millis
    var stage: Stage
    var lastSequence: nat
    var lastElapsed: nat
    var lastKind: Kind
    var lastReason: string
    var highestPhaseRank: int
    var independentConferenceAt: Millis

    ghost function View(): Policy
      reads this
    {
      Policy(attempt, answerTimeout, setupDeadline, answerDeadline, heartbeatDeadline, mergeDeadline,
             stage, lastSequence, lastElapsed, lastKind, lastReason, highestPhaseRank, independentConferenceAt)
    }

    constructor (attempt: Attempt, answerTimeout: nat, startedAt: Millis)
      ensures View() == Begin(attempt, answerTimeout, startedAt)
    {
      this.attempt, this.answerTimeout := attempt, answerTimeout;
      setupDeadline, answerDeadline := SaturatingAdd(startedAt, SETUP_MAXIMUM), 0;
      heartbeatDeadline, mergeDeadline := SaturatingAdd(startedAt, HEARTBEAT_MAXIMUM_AGE), 0;
      stage, lastSequence, lastElapsed, lastKind, lastReason := AwaitingApp, 0, 0, Invalid, "";
      highestPhaseRank, independentConferenceAt := -1, -1;
    }

    method FailProtocol() returns (d: Decision)
      modifies this
      ensures (View(), d) == Fail(old(View()))
    {
      stage := Terminal;
      return ProtocolFailure;
    }

    method Observe(s: Status, now: Millis) returns (d: Decision)
      requires answerTimeout <= INT64_MAX
      modifies this
      ensures (View(), d) == Observed(old(View()), s, now)
    {
      hide ActOn;
      if s.kind == Invalid || s.attempt != attempt { return IgnoredForeign; }
      if stage == Terminal { return Duplicate; }
      if now >= heartbeatDeadline &&
         !(stage == ConferencedStage && independentConferenceAt >= 0 && now >= independentConferenceAt &&
           now - independentConferenceAt <= CONFERENCE_EVIDENCE_AGE) {
        stage := Terminal;
        return ControlTimeout;
      }
      if s.sequence == lastSequence && lastSequence != 0 {
        if s.elapsed == lastElapsed && s.kind == lastKind && s.reason == lastReason { return Duplicate; }
        d := FailProtocol();
        return;
      }
      if s.sequence <= lastSequence || (lastSequence != 0 && s.elapsed < lastElapsed) {
        d := FailProtocol();
        return;
      }
      var rank := PhaseRank(s.kind);
      if rank >= 0 {
        if rank < highestPhaseRank ||
           (s.kind == Merging && stage != RecorderReady && stage != MergingStage) ||
           (s.kind == Conferenced && stage != MergingStage && stage != ConferencedStage) {
          d := FailProtocol();
          return;
        }
        highestPhaseRank := rank;
      }
      lastSequence, lastElapsed, lastKind, lastReason := s.sequence, s.elapsed, s.kind, s.reason;
      heartbeatDeadline := SaturatingAdd(now, HEARTBEAT_MAXIMUM_AGE);
      d := Act(s, now);
    }

    /** The switch at the end of `Observe`. */
    method Act(s: Status, now: Millis) returns (d: Decision)
      requires answerTimeout <= INT64_MAX && s.kind != Invalid
      modifies this
      ensures (View(), d) == ActOn(old(View()), s, now)
    {
      match s.kind {
        case Ack => stage := DialingStage; d := DialingHeartbeat;
        case CallerHeld => stage := DialingStage; d := DialingHeartbeat;
        case Dialing =>
          if answerDeadline == 0 { answerDeadline := SaturatingAdd(now, answerTimeout); }
          stage := DialingStage;
          d := DialingHeartbeat;
        case OperatorAnswered =>
          d := DialingHeartbeat;
          if stage != Answered && stage != RecorderReady {
            stage := Answered;
            d := StartRecorder;
          }
        case Merging =>
          if stage == RecorderReady { mergeDeadline := SaturatingAdd(now, MERGE_MAXIMUM); }
          stage := MergingStage;
          d := MergeSeen;
        case Conferenced => stage := ConferencedStage; d := ConferenceSeen;
        case Completed =>
          if s.reason == "CALLER_HANGUP" {
            stage := Terminal;
            d := CallerHangup;
          } else if stage != ConferencedStage {
            d := FailProtocol();
          } else {
            stage := Terminal;
            d := if s.reason == "OPERATOR_HANGUP" then CallCompleted else ProtocolFailure;
          }
        case NotConnected =>
          if stage == ConferencedStage {
            d := FailProtocol();
          } else {
            stage := Terminal;
            d := CallNotConnected;
          }
        case SystemFailure =>
          stage := Terminal;
          d := if s.reason == "CLEANUP_TIMEOUT" then CleanupTimeout else CallSystemFailure;
      }
    }

    method MarkRecorderReady(now: Millis) returns (ok: bool)
      modifies this
      ensures (View(), ok) == MarkReady(old(View()), now)
    {
      if stage != Answered || now >= heartbeatDeadline { return false; }
      stage := RecorderReady;
      return true;
    }

    /** `CheckDeadline`, which changes nothing. */
    function Deadline(now: Millis): (d: Decision)
      reads this
      ensures d == CheckDeadline(View(), now)
      ensures d == ControlTimeout <==> stage != Terminal && HeartbeatLost(View(), now)
      ensures d == SetupTimeout <==> !HeartbeatLost(View(), now) && SetupLate(View(), now)
      ensures d == AnswerTimeout <==> !HeartbeatLost(View(), now) && AnswerLate(View(), now)
      ensures d == MergeTimeout <==> !HeartbeatLost(View(), now) && MergeLate(View(), now)
    {
      CheckDeadline(Policy(attempt, answerTimeout, setupDeadline, answerDeadline, heartbeatDeadline, mergeDeadline,
        stage, lastSequence, lastElapsed, lastKind, lastReason, highestPhaseRank, independentConferenceAt), now)
    }

    method ConfirmIndependentConference(now: Millis)
      modifies this
      ensures View() == old(View()).(independentConferenceAt := now)
    {
      independentConferenceAt := now;
    }
  }

  // ---------------------------------------------------------------- runs

  datatype Input = Message(status: Status, now: Millis) | Ready(now: Millis) | Confirm(at: Millis)

  /** What a run has shown: the decision on a message, or whether the recorder was taken as ready. */
  datatype Shown = Decided(decision: Decision) | Marked(ok: bool) | Noted

  function Step(p: Policy, i: Input): (Policy, Shown)
    requires p.answerTimeout <= INT64_MAX
  {
    match i
    case Message(s, now) => var (q, d) := Observed(p, s, now); (q, Decided(d))
    case Ready(now) => var (q, ok) := MarkReady(p, now); (q, Marked(ok))
    case Confirm(at) => (p.(independentConferenceAt := at), Noted)
  }

  lemma StepKeepsAttempt(p: Policy, i: Input)
    requires p.answerTimeout <= INT64_MAX
    ensures Step(p, i).0.answerTimeout == p.answerTimeout && Step(p, i).0.attempt == p.attempt
    ensures Step(p, i).0.setupDeadline == p.setupDeadline
  {
  }

  /** The last policy of a run and everything it has shown. */
  function Run(p: Policy, inputs: seq<Input>): (r: (Policy, seq<Shown>))
    requires p.answerTimeout <= INT64_MAX
    ensures r.0.answerTimeout == p.answerTimeout && r.0.attempt == p.attempt && r.0.setupDeadline == p.setupDeadline
    ensures |r.1| == |inputs|
    decreases |inputs|
  {
    if inputs == [] then (p, []) else
      var (before, shown) := Run(p, inputs[..|inputs| - 1]);
      StepKeepsAttempt(before, inputs[|inputs| - 1]);
      var (after, last) := Step(before, inputs[|inputs| - 1]);
      (after, shown + [last])
  }

  function StageRank(stage: Stage): nat {
    match stage
    case AwaitingApp => 0
    case DialingStage => 1
    case Answered => 2
    case RecorderReady => 3
    case MergingStage => 4
    case ConferencedStage => 5
    case Terminal => 6
  }

  /** The highest phase seen fits the stage. */
  ghost predicate Consistent(p: Policy) {
    && p.answerTimeout <= INT64_MAX
    && match p.stage
       case AwaitingApp => p.highestPhaseRank == -1
       case DialingStage => 0 <= p.highestPhaseRank <= 2
       case Answered => p.highestPhaseRank == 3
       case RecorderReady => p.highestPhaseRank == 3
       case MergingStage => p.highestPhaseRank == 4
       case ConferencedStage => p.highestPhaseRank == 5
       case Terminal => true
  }

  /** What one step may do: the stage never goes back, each stage is entered in its own way, and
      deadlines move only where they are first set. */
  ghost predicate Forward(p: Policy, q: Policy, shown: Shown) {
    && Consistent(q)
    && StageRank(p.stage) <= StageRank(q.stage)
    && (shown == Decided(StartRecorder) ==> StageRank(p.stage) < StageRank(Answered) && q.stage == Answered)
    && (shown == Decided(CallCompleted) ==> p.stage == ConferencedStage)
    && (q.stage == RecorderReady && p.stage != q.stage ==> shown == Marked(true))
    && (q.stage == MergingStage && p.stage != q.stage ==> shown == Decided(MergeSeen) && p.stage == RecorderReady)
    && (q.stage == ConferencedStage && p.stage != q.stage ==> shown == Decided(ConferenceSeen) && p.stage == MergingStage)
    && (p.answerDeadline != 0 ==> q.answerDeadline == p.answerDeadline)
    && (q.mergeDeadline != p.mergeDeadline ==> p.stage == RecorderReady && q.stage == MergingStage)
  }

  lemma AcceptForward(p: Policy, s: Status, now: Millis)
    requires Consistent(p) && p.stage != Terminal && InOrder(p, s)
    ensures var (q, d) := ActOn(Record(p, s, now), s, now); Forward(p, q, Decided(d))
  {
  }

  lemma StepForward(p: Policy, i: Input)
    requires Consistent(p)
    ensures var (q, shown) := Step(p, i); Forward(p, q, shown)
  {
    hide ActOn, Record, InOrder, Newer, Repeats, HeartbeatLost;
    if i.Message? && p.stage != Terminal && InOrder(p, i.status) { AcceptForward(p, i.status, i.now); }
  }

  lemma {:induction false} RunConsistent(p: Policy, inputs: seq<Input>)
    requires Consistent(p)
    ensures Consistent(Run(p, inputs).0) && StageRank(p.stage) <= StageRank(Run(p, inputs).0.stage)
    ensures p.answerDeadline != 0 ==> Run(p, inputs).0.answerDeadline == p.answerDeadline
    ensures StageRank(p.stage) >= StageRank(MergingStage) ==> Run(p, inputs).0.mergeDeadline == p.mergeDeadline
    decreases |inputs|
  {
    hide Step, Consistent;
    assert p.answerTimeout <= INT64_MAX by { ConsistentTimeout(p); }
    if inputs != [] {
      var front := inputs[..|inputs| - 1];
      RunConsistent(p, front);
      StepForward(Run(p, front).0, inputs[|inputs| - 1]);
    }
  }

  lemma ConsistentTimeout(p: Policy)
    requires Consistent(p)
    ensures p.answerTimeout <= INT64_MAX
  {
  }

  lemma RunSplits(p: Policy, a: seq<Input>, b: seq<Input>)
    requires p.answerTimeout <= INT64_MAX
    ensures Run(p, a).0.answerTimeout <= INT64_MAX
    ensures Run(p, a + b).0 == Run(Run(p, a).0, b).0
    ensures Run(p, a + b).1 == Run(p, a).1 + Run(Run(p, a).0, b).1
    decreases |b|
  {
    hide Step;
    if b == [] {
      assert a + b == a;
    } else {
      var front := b[..|b| - 1];
      RunSplits(p, a, front);
      assert (a + b)[..|a + b| - 1] == a + front;
    }
  }

  /** Over every run, the stage only moves forward and deadlines, once set, stay. */
  lemma StagesForward(attempt: Attempt, timeout: nat, startedAt: Millis, a: seq<Input>, b: seq<Input>)
    requires timeout <= INT64_MAX
    ensures var early, late := Run(Begin(attempt, timeout, startedAt), a).0, Run(Begin(attempt, timeout, startedAt), a + b).0;
            && StageRank(early.stage) <= StageRank(late.stage)
            && late.setupDeadline == early.setupDeadline
            && (early.answerDeadline != 0 ==> late.answerDeadline == early.answerDeadline)
            && (StageRank(early.stage) >= StageRank(MergingStage) ==> late.mergeDeadline == early.mergeDeadline)
  {
    var p := Begin(attempt, timeout, startedAt);
    RunSplits(p, a, b);
    RunConsistent(p, a);
    RunConsistent(Run(p, a).0, b);
  }

  /** The recorder is asked for at most once. */
  lemma {:induction false} StartRecorderOnce(p: Policy, inputs: seq<Input>, i: nat, j: nat)
    requires Consistent(p) && i < j < |inputs|
    requires Run(p, inputs).1[i] == Decided(StartRecorder)
    ensures Run(p, inputs).1[j] != Decided(StartRecorder)
    decreases |inputs|
  {
    hide Step, Consistent;
    ConsistentTimeout(p);
    var front := inputs[..|inputs| - 1];
    RunConsistent(p, front);
    StepForward(Run(p, front).0, inputs[|inputs| - 1]);
    if j < |front| {
      StartRecorderOnce(p, front, i, j);
    } else {
      AskedMeansAnswered(p, front, i);
    }
  }

  lemma {:induction false} AskedMeansAnswered(p: Policy, inputs: seq<Input>, i: nat)
    requires Consistent(p) && i < |inputs|
    requires Run(p, inputs).1[i] == Decided(StartRecorder)
    ensures StageRank(Run(p, inputs).0.stage) >= StageRank(Answered)
    decreases |inputs|
  {
    hide Step, Consistent;
    ConsistentTimeout(p);
    var front := inputs[..|inputs| - 1];
    RunConsistent(p, front);
    StepForward(Run(p, front).0, inputs[|inputs| - 1]);
    if i < |front| { AskedMeansAnswered(p, front, i); }
  }

  // ---------------------------------------------------------------- what a completed call has been through

  ghost predicate ReadyAt(shown: seq<Shown>, i: int) {
    0 <= i < |shown| && shown[i] == Marked(true)
  }

  ghost predicate MergedAt(shown: seq<Shown>, i: int, j: int) {
    ReadyAt(shown, i) && i < j < |shown| && shown[j] == Decided(MergeSeen)
  }

  ghost predicate JoinedAt(shown: seq<Shown>, i: int, j: int, k: int) {
    MergedAt(shown, i, j) && j < k < |shown| && shown[k] == Decided(ConferenceSeen)
  }

  ghost predicate PathTo(stage: Stage, shown: seq<Shown>) {
    match stage
    case RecorderReady => exists i :: ReadyAt(shown, i)
    case MergingStage => exists i, j :: MergedAt(shown, i, j)
    case ConferencedStage => exists i, j, k :: JoinedAt(shown, i, j, k)
    case _ => true
  }

  lemma PathGrows(stage: Stage, shown: seq<Shown>, last: Shown)
    requires PathTo(stage, shown)
    ensures PathTo(stage, shown + [last])
  {
    var longer := shown + [last];
    match stage {
      case RecorderReady =>
        var i :| ReadyAt(shown, i);
        assert ReadyAt(longer, i);
      case MergingStage =>
        var i, j :| MergedAt(shown, i, j);
        assert ReadyAt(longer, i) && MergedAt(longer, i, j);
      case ConferencedStage =>
        var i, j, k :| JoinedAt(shown, i, j, k);
        assert ReadyAt(longer, i) && MergedAt(longer, i, j) && JoinedAt(longer, i, j, k);
      case _ =>
    }
  }

  lemma {:induction false} StageHasPath(attempt: Attempt, timeout: nat, startedAt: Millis, inputs: seq<Input>)
    requires timeout <= INT64_MAX
    ensures var (p, shown) := Run(Begin(attempt, timeout, startedAt), inputs);
            Consistent(p) && PathTo(p.stage, shown)
    decreases |inputs|
  {
    hide Step, PathTo;
    var start := Begin(attempt, timeout, startedAt);
    RunConsistent(start, inputs);
    if inputs == [] {
      NoPathNeeded(start.stage, []);
    } else {
      var front := inputs[..|inputs| - 1];
      StageHasPath(attempt, timeout, startedAt, front);
      var (p, shown) := Run(start, front);
      StepForward(p, inputs[|inputs| - 1]);
      var (q, last) := Step(p, inputs[|inputs| - 1]);
      PathGrows(p.stage, shown, last);
      if q.stage != p.stage { PathExtends(p.stage, q.stage, shown, last); }
    }
  }

  lemma NoPathNeeded(stage: Stage, shown: seq<Shown>)
    requires stage == AwaitingApp
    ensures PathTo(stage, shown)
  {
  }

  lemma PathExtends(from: Stage, to: Stage, shown: seq<Shown>, last: Shown)
    requires PathTo(from, shown + [last]) && PathTo(from, shown)
    requires to == RecorderReady ==> last == Marked(true)
    requires to == MergingStage ==> from == RecorderReady && last == Decided(MergeSeen)
    requires to == ConferencedStage ==> from == MergingStage && last == Decided(ConferenceSeen)
    ensures PathTo(to, shown + [last])
  {
    var longer := shown + [last];
    match to {
      case RecorderReady => assert ReadyAt(longer, |shown|);
      case MergingStage =>
        var i :| ReadyAt(shown, i);
        assert ReadyAt(longer, i) && MergedAt(longer, i, |shown|);
      case ConferencedStage =>
        var i, j :| MergedAt(shown, i, j);
        assert ReadyAt(longer, i) && MergedAt(longer, i, j) && JoinedAt(longer, i, j, |shown|);
      case _ =>
    }
  }

  /** A call is reported complete only after the recorder was ready, then merging, then the conference. */
  lemma CompletedHasHistory(attempt: Attempt, timeout: nat, startedAt: Millis, inputs: seq<Input>, l: nat)
    requires timeout <= INT64_MAX
    requires var shown := Run(Begin(attempt, timeout, startedAt), inputs).1; l < |shown| && shown[l] == Decided(CallCompleted)
    ensures var shown := Run(Begin(attempt, timeout, startedAt), inputs).1;
            exists i, j, k :: JoinedAt(shown, i, j, k) && k < l
    decreases |inputs|
  {
    hide Step, PathTo;
    var start := Begin(attempt, timeout, startedAt);
    var front := inputs[..|inputs| - 1];
    StageHasPath(attempt, timeout, startedAt, front);
    var (p, shown) := Run(start, front);
    var all := Run(start, inputs).1;
    assert all[..|shown|] == shown;
    if l < |shown| {
      CompletedHasHistory(attempt, timeout, startedAt, front, l);
      var i, j, k :| JoinedAt(shown, i, j, k) && k < l;
      assert ReadyAt(all, i) && MergedAt(all, i, j) && JoinedAt(all, i, j, k);
    } else {
      StepForward(p, inputs[|inputs| - 1]);
      assert PathTo(ConferencedStage, shown);
      ConferencePath(shown, all);
    }
  }

  lemma ConferencePath(shown: seq<Shown>, all: seq<Shown>)
    requires PathTo(ConferencedStage, shown) && shown <= all
    ensures exists i, j, k :: JoinedAt(all, i, j, k) && k < |shown|
  {
    var i, j, k :| JoinedAt(shown, i, j, k);
    assert ReadyAt(all, i) && MergedAt(all, i, j) && JoinedAt(all, i, j, k);
  }

  // ---------------------------------------------------------------- messages that change nothing

  /** A foreign message, a late one, or a repeat of the last message while the heartbeat is alive. */
  predicate Silent(p: Policy, i: Input) {
    && i.Message?
    && (|| Foreign(p, i.status)
        || p.stage == Terminal
        || (!HeartbeatLost(p, i.now) && p.lastSequence != 0 && Repeats(p, i.status)))
  }

  predicate Quiet(shown: Shown) {
    shown == Decided(IgnoredForeign) || shown == Decided(Duplicate)
  }

  lemma SilentIsQuiet(p: Policy, i: Input)
    requires p.answerTimeout <= INT64_MAX
    ensures Silent(p, i) <==> Quiet(Step(p, i).1)
    ensures Silent(p, i) ==> Step(p, i).0 == p
  {
  }

  /** The inputs of a run without those that are silent where they arrive. */
  function Audible(p: Policy, inputs: seq<Input>): seq<Input>
    requires p.answerTimeout <= INT64_MAX
    decreases |inputs|
  {
    if inputs == [] then [] else
      var front := inputs[..|inputs| - 1];
      if Silent(Run(p, front).0, inputs[|inputs| - 1]) then Audible(p, front) else Audible(p, front) + [inputs[|inputs| - 1]]
  }

  function Loud(shown: seq<Shown>): seq<Shown> {
    if shown == [] then []
    else if Quiet(shown[|shown| - 1]) then Loud(shown[..|shown| - 1])
    else Loud(shown[..|shown| - 1]) + [shown[|shown| - 1]]
  }

  /** Deleting foreign messages, late messages and repeats changes neither the final state nor any other decision. */
  lemma {:induction false} SilentErasable(p: Policy, inputs: seq<Input>)
    requires p.answerTimeout <= INT64_MAX
    ensures Run(p, Audible(p, inputs)).0 == Run(p, inputs).0
    ensures Run(p, Audible(p, inputs)).1 == Loud(Run(p, inputs).1)
    decreases |inputs|
  {
    hide Step, Silent, Quiet;
    if inputs != [] {
      var front, last := inputs[..|inputs| - 1], inputs[|inputs| - 1];
      SilentErasable(p, front);
      var (before, shown) := Run(p, front);
      SilentIsQuiet(before, last);
      assert (shown + [Step(before, last).1])[..|shown|] == shown;
      if !Silent(before, last) {
        var kept := Audible(p, front);
        assert (kept + [last])[..|kept|] == kept;
      }
    }
  }
}
