/**
  `CallRecoveryPolicy` and the loop `EndSingleCallAndWait` that drives it: ending one known call with
  a bounded number of hangup requests.
*/
module CallRecovery {
  import opened Prelude
  import opened Windows
  import opened SafetyTimers

  datatype AudioDisposition = Normal | InCall | AudioUnknown

  datatype Event = Seen(disposition: CallDisposition, audio: AudioDisposition, at: int) | Attempted(when: int)

  datatype RecoveryDecision = Wait | RequestHangup | Complete | CompleteAfterAudioLag | GiveWayEmergency | GiveWayExternal | GiveWayUnverified | Fail

  datatype RecoveryLimits = RecoveryLimits(idle: int, audioLag: int, single: int, unknown: int, retry: int, total: int, attempts: nat)

  function Clamped(idle: int, audioLag: int, single: int, unknown: int, retry: int, total: int, attempts: nat): (r: RecoveryLimits)
    ensures Sensible(r)
  {
    RecoveryLimits(Max(0, idle), Max(Max(0, idle), audioLag), Max(0, single), Max(1, unknown), Max(1, retry), Max(1, total), Max(1, attempts))
  }

  predicate Sensible(limits: RecoveryLimits) {
    && 0 <= limits.idle <= limits.audioLag && 0 <= limits.single
    && 1 <= limits.unknown && 1 <= limits.retry && 1 <= limits.total && 1 <= limits.attempts
  }

  // ---------------------------------------------------------------- what a history of events says

  /** The latest accepted observation. */
  function LatestSeen(start: int, h: seq<Event>): (r: int)
    ensures start <= r
  {
    if h == [] then start
    else
      var before, last := LatestSeen(start, h[..|h| - 1]), h[|h| - 1];
      if last.Attempted? || last.at < before then before else last.at
  }

  datatype Held = HeldIdle | HeldSingle | HeldUnknown

  predicate Shows(w: Held, d: CallDisposition) {
    match w
    case HeldIdle => d == Idle
    case HeldSingle => d == SingleSafe
    case HeldUnknown => d == Unknown
  }

  predicate Counts(start: int, h: seq<Event>, e: Event) {
    e.Seen? && LatestSeen(start, h) <= e.at && !e.disposition.Emergency? && !e.disposition.Multiple?
  }

  function Looks(w: Held, start: int, h: seq<Event>): seq<Sample> {
    if h == [] then []
    else
      var front, last := h[..|h| - 1], h[|h| - 1];
      if Counts(start, front, last) then Looks(w, start, front) + [Sample(last.at, Shows(w, last.disposition), false)]
      else Looks(w, start, front)
  }

  /** The recorded hangup attempts. */
  function Attempts(h: seq<Event>): seq<int> {
    if h == [] then []
    else
      var front, last := h[..|h| - 1], h[|h| - 1];
      if last.Attempted? then Attempts(front) + [last.when] else Attempts(front)
  }

  predicate RetryDue(limits: RecoveryLimits, attempts: seq<int>, now: int) {
    attempts != [] && now - attempts[|attempts| - 1] >= limits.retry
  }

  /** What the policy should answer to `next` after h. */
  ghost function RecoveryVerdict(limits: RecoveryLimits, start: int, h: seq<Event>, next: Event): RecoveryDecision
    requires next.Seen?
  {
    var all, tries := h + [next], Attempts(h);
    if next.at < LatestSeen(start, h) then Fail
    else if next.disposition.Emergency? then GiveWayEmergency
    else if next.disposition.Multiple? then GiveWayExternal
    else if Spans(Looks(HeldUnknown, start, all), limits.unknown) then GiveWayUnverified
    else if next.audio.Normal? && Spans(Looks(HeldIdle, start, all), limits.idle) then Complete
    else if !next.audio.Normal? && Spans(Looks(HeldIdle, start, all), limits.audioLag) then CompleteAfterAudioLag
    else if Spans(Looks(HeldSingle, start, all), limits.single) && (tries == [] || (|tries| < limits.attempts && RetryDue(limits, tries, next.at)))
    then RequestHangup
    else if next.disposition.SingleSafe? && |tries| >= limits.attempts && RetryDue(limits, tries, next.at) then Fail
    else if next.at - start >= limits.total then Fail
    else Wait
  }

  lemma EventNext(w: Held, start: int, h: seq<Event>, next: Event)
    ensures Looks(w, start, h + [next]) ==
      if Counts(start, h, next) then Looks(w, start, h) + [Sample(next.at, Shows(w, next.disposition), false)] else Looks(w, start, h)
    ensures LatestSeen(start, h + [next]) ==
      if next.Attempted? || next.at < LatestSeen(start, h) then LatestSeen(start, h) else next.at
    ensures Attempts(h + [next]) == if next.Attempted? then Attempts(h) + [next.when] else Attempts(h)
  {
    assert (h + [next])[..|h|] == h;
  }

  lemma {:induction false} LooksTimely(w: Held, start: int, h: seq<Event>)
    requires 0 <= start
    ensures Timely(Looks(w, start, h))
    ensures forall i :: 0 <= i < |Looks(w, start, h)| ==> Looks(w, start, h)[i].at <= LatestSeen(start, h)
    decreases |h|
  {
    if h != [] { LooksTimely(w, start, h[..|h| - 1]); }
  }

  lemma LookTimer(w: Held, start: int, h: seq<Event>, next: Event, span: int)
    requires 0 <= start && Counts(start, h, next)
    ensures var before, after := Since(Looks(w, start, h)), Since(Looks(w, start, h + [next]));
            && after == (if !Shows(w, next.disposition) then -1 else if before < 0 then next.at else before)
            && (Spans(Looks(w, start, h + [next]), span) <==> Shows(w, next.disposition) && next.at - after >= span)
  {
    hide Looks, Spans, LatestSeen;
    EventNext(w, start, h, next);
    LooksTimely(w, start, h + [next]);
    SinceNext(Looks(w, start, h), Sample(next.at, Shows(w, next.disposition), false));
    SinceSpans(Looks(w, start, h + [next]), span);
    LooksTimely(w, start, h);
    SinceMeaning(Looks(w, start, h));
  }

  /** A refused look, a preempting call and a recorded attempt leave the timers alone. */
  lemma TimersNext(start: int, h: seq<Event>, next: Event)
    ensures !Counts(start, h, next) ==> forall w :: Looks(w, start, h + [next]) == Looks(w, start, h)
    ensures LatestSeen(start, h + [next]) == if next.Attempted? || next.at < LatestSeen(start, h) then LatestSeen(start, h) else next.at
    ensures Attempts(h + [next]) == if next.Attempted? then Attempts(h) + [next.when] else Attempts(h)
  {
    hide Looks, LatestSeen, Attempts, Counts;
    forall w ensures !Counts(start, h, next) ==> Looks(w, start, h + [next]) == Looks(w, start, h) { EventNext(w, start, h, next); }
    EventNext(HeldIdle, start, h, next);
  }

  class RecoveryPolicy {
    const limits: RecoveryLimits
    var started: bool
    var startedMilliseconds: int
    var lastObservation: int
    var idleSince: int
    var singleSince: int
    var unknownSince: int
    var lastHangupAttempt: int
    var hangupAttempts: nat
    ghost var history: seq<Event>

    ghost predicate Valid()
      reads this
    {
      && Sensible(limits)
      && (started ==>
            && 0 <= startedMilliseconds
            && lastObservation == LatestSeen(startedMilliseconds, history)
            && TimersMatch(startedMilliseconds, history, idleSince, singleSince, unknownSince)
            && AttemptsMatch(startedMilliseconds, Attempts(history), hangupAttempts, lastHangupAttempt))
    }

    constructor (idle: int, audioLag: int, single: int, unknown: int, retry: int, total: int, attempts: nat)
      ensures Valid() && !started
      ensures limits == Clamped(idle, audioLag, single, unknown, retry, total, attempts)
    {
      limits := Clamped(idle, audioLag, single, unknown, retry, total, attempts);
      started, startedMilliseconds, lastObservation := false, -1, -1;
      idleSince, singleSince, unknownSince, lastHangupAttempt, hangupAttempts := -1, -1, -1, -1, 0;
    }

    method Start(now: int)
      requires Valid() && 0 <= now
      modifies this
      ensures Valid() && started && startedMilliseconds == now && history == []
    {
      startedMilliseconds, lastObservation := now, now;
      idleSince, singleSince, unknownSince, lastHangupAttempt, hangupAttempts := -1, -1, -1, -1, 0;
      started := true;
      history := [];
    }

    method Observe(disposition: CallDisposition, audio: AudioDisposition, now: int) returns (decision: RecoveryDecision)
      requires Valid()
      modifies this
      ensures Valid() && started == old(started) && startedMilliseconds == old(startedMilliseconds)
      ensures !started ==> decision == Fail && history == old(history)
      ensures started ==> history == old(history) + [Seen(disposition, audio, now)]
      ensures started ==> decision == RecoveryVerdict(limits, startedMilliseconds, old(history), Seen(disposition, audio, now))
    {
      hide Looks, Spans, LatestSeen, Since, Attempts, Sensible;
      if !started { return Fail; }
      ghost var before, next := history, Seen(disposition, audio, now);
      TimersNext(startedMilliseconds, before, next);
      history := history + [next];
      if now < lastObservation || now < startedMilliseconds { return Fail; }
      lastObservation := now;
      if disposition == Emergency { return GiveWayEmergency; }
      if disposition == Multiple { return GiveWayExternal; }
      hide Counts;
      LookTimer(HeldUnknown, startedMilliseconds, before, next, limits.unknown);
      LookTimer(HeldIdle, startedMilliseconds, before, next, limits.idle);
      LookTimer(HeldIdle, startedMilliseconds, before, next, limits.audioLag);
      LookTimer(HeldSingle, startedMilliseconds, before, next, limits.single);
      if disposition == Unknown {
        idleSince, singleSince := -1, -1;
        if unknownSince < 0 { unknownSince := now; }
        if now - unknownSince >= limits.unknown { return GiveWayUnverified; }
      } else if disposition == Idle {
        singleSince, unknownSince := -1, -1;
        if idleSince < 0 { idleSince := now; }
        var idleDuration := now - idleSince;
        if audio == Normal && idleDuration >= limits.idle { return Complete; }
        if audio != Normal && idleDuration >= limits.audioLag { return CompleteAfterAudioLag; }
      } else {
        idleSince, unknownSince := -1, -1;
        if singleSince < 0 { singleSince := now; }
        var confirmed := now - singleSince >= limits.single;
        var firstAttempt := hangupAttempts == 0;
        var retryDue := hangupAttempts < limits.attempts && lastHangupAttempt >= 0 && now - lastHangupAttempt >= limits.retry;
        if confirmed && (firstAttempt || retryDue) { return RequestHangup; }
        if hangupAttempts >= limits.attempts && lastHangupAttempt >= 0 && now - lastHangupAttempt >= limits.retry { return Fail; }
      }
      return if now - startedMilliseconds >= limits.total then Fail else Wait;
    }

    method RecordHangupAttempt(now: int) returns (recorded: bool)
      requires Valid()
      modifies this
      ensures Valid() && started == old(started) && startedMilliseconds == old(startedMilliseconds)
      ensures recorded == (started && LatestSeen(startedMilliseconds, old(history)) <= now && |Attempts(old(history))| < limits.attempts)
      ensures history == if recorded then old(history) + [Attempted(now)] else old(history)
    {
      hide Looks, LatestSeen, Since, Attempts;
      if !started || now < lastObservation || hangupAttempts >= limits.attempts { return false; }
      EventNext(HeldIdle, startedMilliseconds, history, Attempted(now));
      EventNext(HeldSingle, startedMilliseconds, history, Attempted(now));
      EventNext(HeldUnknown, startedMilliseconds, history, Attempted(now));
      LatestFloor(startedMilliseconds, history);
      history := history + [Attempted(now)];
      lastHangupAttempt, hangupAttempts := now, hangupAttempts + 1;
      return true;
    }
  }

  ghost predicate TimersMatch(start: int, h: seq<Event>, idleSince: int, singleSince: int, unknownSince: int) {
    && idleSince == Since(Looks(HeldIdle, start, h))
    && singleSince == Since(Looks(HeldSingle, start, h))
    && unknownSince == Since(Looks(HeldUnknown, start, h))
  }

  ghost predicate AttemptsMatch(start: int, tries: seq<int>, count: nat, last: int) {
    && count == |tries|
    && (tries == [] ==> last == -1)
    && (tries != [] ==> last == tries[|tries| - 1] && start <= last)
  }

  lemma LatestFloor(start: int, h: seq<Event>)
    ensures start <= LatestSeen(start, h)
  {
  }

  // ---------------------------------------------------------------- the loop

  /** One turn of the loop: what Telecom and the audio service show, whether the private route could be
      forced, and the last look taken before a hangup would be sent. */
  datatype Turn = Turn(disposition: CallDisposition, identity: nat, audio: AudioDisposition, at: int, routeForced: bool,
                       finalDisposition: CallDisposition, finalIdentity: nat)

  datatype EndCallResult = Ended | EmergencyPreempted | ExternalPreempted | UnverifiedPreempted | Failed

  /** The policy's history when turn n begins, if no earlier turn ended the loop. */
  ghost function Heard(limits: RecoveryLimits, start: int, turns: seq<Turn>, n: nat): seq<Event>
    requires n <= |turns|
  {
    if n == 0 then []
    else
      Extended(limits, start, Heard(limits, start, turns, n - 1), turns[n - 1])
  }

  ghost function VerdictOn(limits: RecoveryLimits, start: int, h: seq<Event>, t: Turn): RecoveryDecision {
    RecoveryVerdict(limits, start, h, Seen(t.disposition, t.audio, t.at))
  }

  /** The history after a turn that does not end the loop. */
  ghost function Extended(limits: RecoveryLimits, start: int, h: seq<Event>, t: Turn): seq<Event> {
    var seen := h + [Seen(t.disposition, t.audio, t.at)];
    if VerdictOn(limits, start, h, t).RequestHangup? then seen + [Attempted(t.at)] else seen
  }

  ghost function VerdictAt(limits: RecoveryLimits, start: int, turns: seq<Turn>, n: nat): RecoveryDecision
    requires n < |turns|
  {
    VerdictOn(limits, start, Heard(limits, start, turns, n), turns[n])
  }

  /** How a turn ends the loop, if it does. */
  function Outcome(session: nat, t: Turn, verdict: RecoveryDecision): Option<EndCallResult> {
    if t.disposition.SingleSafe? && t.identity != session then Some(ExternalPreempted)
    else match verdict
      case GiveWayEmergency => Some(EmergencyPreempted)
      case GiveWayExternal => Some(ExternalPreempted)
      case GiveWayUnverified => Some(UnverifiedPreempted)
      case Complete => Some(Ended)
      case CompleteAfterAudioLag => Some(Ended)
      case Fail => Some(Failed)
      case Wait => if !t.disposition.Unknown? && !t.routeForced then Some(Failed) else None
      case RequestHangup =>
        if !t.routeForced then Some(Failed)
        else if t.finalDisposition.Emergency? then Some(EmergencyPreempted)
        else if t.finalDisposition.Multiple? || (t.finalDisposition.SingleSafe? && t.finalIdentity != session) then Some(ExternalPreempted)
        else if !t.finalDisposition.SingleSafe? || t.finalIdentity == 0 then Some(UnverifiedPreempted)
        else None
  }

  /** The first n turns did not end the loop. */
  ghost predicate Continues(limits: RecoveryLimits, session: nat, start: int, turns: seq<Turn>, n: nat)
    requires n <= |turns|
  {
    forall i :: 0 <= i < n ==> Outcome(session, turns[i], VerdictAt(limits, start, turns, i)).None?
  }

  /** Turn k sends the end-call transaction. */
  ghost predicate SendsHangup(limits: RecoveryLimits, session: nat, start: int, turns: seq<Turn>, k: nat)
    requires k < |turns|
  {
    VerdictAt(limits, start, turns, k).RequestHangup? && Outcome(session, turns[k], RequestHangup).None?
  }

  /** The turns that sent a hangup, among the first n. */
  ghost function SentTurns(limits: RecoveryLimits, session: nat, start: int, turns: seq<Turn>, n: nat): seq<nat>
    requires n <= |turns|
  {
    if n == 0 then []
    else if SendsHangup(limits, session, start, turns, n - 1) then SentTurns(limits, session, start, turns, n - 1) + [n - 1]
    else SentTurns(limits, session, start, turns, n - 1)
  }

  /** How the loop ends: on the first turn with an outcome, or by the stop request after the last. */
  ghost predicate LoopResult(limits: RecoveryLimits, session: nat, start: int, turns: seq<Turn>, result: EndCallResult, hangups: seq<nat>, used: nat) {
    && used <= |turns|
    && hangups == SentTurns(limits, session, start, turns, used)
    && (Continues(limits, session, start, turns, used) ==> used == |turns| && result == Failed)
    && (!Continues(limits, session, start, turns, used) ==>
          && used > 0 && Continues(limits, session, start, turns, used - 1)
          && Outcome(session, turns[used - 1], VerdictAt(limits, start, turns, used - 1)) == Some(result))
  }

  ghost predicate LoopSoFar(limits: RecoveryLimits, session: nat, start: int, turns: seq<Turn>, h: seq<Event>, hangups: seq<nat>, n: nat)
    requires n <= |turns|
  {
    && h == Heard(limits, start, turns, n)
    && Continues(limits, session, start, turns, n)
    && hangups == SentTurns(limits, session, start, turns, n)
  }

  lemma LoopBegins(limits: RecoveryLimits, session: nat, start: int, turns: seq<Turn>)
    ensures LoopSoFar(limits, session, start, turns, [], [], 0)
  {
  }

  lemma LoopTurn(limits: RecoveryLimits, session: nat, start: int, turns: seq<Turn>, h: seq<Event>, hangups: seq<nat>, n: nat)
    requires n < |turns| && LoopSoFar(limits, session, start, turns, h, hangups, n)
    ensures var verdict := VerdictOn(limits, start, h, turns[n]);
      var sent := verdict.RequestHangup? && Outcome(session, turns[n], RequestHangup).None?;
      && Outcome(session, turns[n], VerdictAt(limits, start, turns, n)) == Outcome(session, turns[n], verdict)
      && Continues(limits, session, start, turns, n)
      && Continues(limits, session, start, turns, n + 1) == Outcome(session, turns[n], verdict).None?
      && (if sent then hangups + [n] else hangups) == SentTurns(limits, session, start, turns, n + 1)
      && (Outcome(session, turns[n], verdict).None? ==>
            LoopSoFar(limits, session, start, turns, Extended(limits, start, h, turns[n]), if sent then hangups + [n] else hangups, n + 1))
  {
    hide Outcome, VerdictOn, Extended, Heard, Continues, SendsHangup, SentTurns;
    NextTurn(limits, session, start, turns, n);
  }

  lemma LoopEnds(limits: RecoveryLimits, session: nat, start: int, turns: seq<Turn>, used: nat, result: EndCallResult)
    requires 0 < used <= |turns| && Continues(limits, session, start, turns, used - 1) && !Continues(limits, session, start, turns, used)
    requires Outcome(session, turns[used - 1], VerdictAt(limits, start, turns, used - 1)) == Some(result)
    ensures LoopResult(limits, session, start, turns, result, SentTurns(limits, session, start, turns, used), used)
  {
    hide Outcome, Continues, SentTurns, VerdictAt;
  }

  lemma LoopStops(limits: RecoveryLimits, session: nat, start: int, turns: seq<Turn>, h: seq<Event>, hangups: seq<nat>)
    requires LoopSoFar(limits, session, start, turns, h, hangups, |turns|)
    ensures LoopResult(limits, session, start, turns, Failed, hangups, |turns|)
  {
    hide Outcome, Continues, SentTurns, VerdictAt;
  }

  lemma NextTurn(limits: RecoveryLimits, session: nat, start: int, turns: seq<Turn>, n: nat)
    requires n < |turns| && Continues(limits, session, start, turns, n)
    ensures var h, t := Heard(limits, start, turns, n), turns[n];
      var verdict := VerdictOn(limits, start, h, t);
      && VerdictAt(limits, start, turns, n) == verdict
      && Heard(limits, start, turns, n + 1) == Extended(limits, start, h, t)
      && Continues(limits, session, start, turns, n + 1) == Outcome(session, t, verdict).None?
      && SendsHangup(limits, session, start, turns, n) == (verdict.RequestHangup? && Outcome(session, t, RequestHangup).None?)
      && SentTurns(limits, session, start, turns, n + 1) ==
         SentTurns(limits, session, start, turns, n) + if SendsHangup(limits, session, start, turns, n) then [n] else []
  {
    hide Outcome, VerdictOn, Extended;
  }

  /** The loop over the turns there are; a stop is requested after the last.  `hangups` are the turns
      in which an end-call transaction was sent. */
  method EndSingleCallAndWait(policy: RecoveryPolicy, session: nat, trusted: bool, start: int, turns: seq<Turn>)
    returns (result: EndCallResult, hangups: seq<nat>, used: nat)
    requires policy.Valid() && 0 <= start
    modifies policy
    ensures policy.Valid()
    ensures !trusted || session == 0 ==> result == UnverifiedPreempted && hangups == [] && used == 0
    ensures trusted && session != 0 ==> LoopResult(policy.limits, session, start, turns, result, hangups, used)
  {
    hangups, used := [], 0;
    if !trusted || session == 0 { return UnverifiedPreempted, [], 0; }
    hide Outcome, VerdictOn, Extended, Sensible, Heard, SentTurns, Continues, SendsHangup, LoopResult, LoopSoFar, VerdictAt;
    hide Looks, Since, Attempts, LatestSeen, TimersMatch, AttemptsMatch, RecoveryPolicy.Valid;
    policy.Start(start);
    result, hangups, used := RecoveryLoop(policy, session, start, turns);
  }

  method RecoveryLoop(policy: RecoveryPolicy, session: nat, start: int, turns: seq<Turn>)
    returns (result: EndCallResult, hangups: seq<nat>, used: nat)
    requires policy.Valid() && policy.started && policy.startedMilliseconds == start && policy.history == []
    modifies policy
    ensures policy.Valid()
    ensures LoopResult(policy.limits, session, start, turns, result, hangups, used)
  {
    hide Outcome, VerdictOn, Extended, Sensible, Heard, SentTurns, Continues, SendsHangup, LoopResult, LoopSoFar, VerdictAt;
    hide Looks, Since, Attempts, LatestSeen, TimersMatch, AttemptsMatch, RecoveryPolicy.Valid;
    LoopBegins(policy.limits, session, start, turns);
    hangups, used := [], 0;
    while used < |turns|
      invariant used <= |turns|
      invariant policy.Valid() && policy.started && policy.startedMilliseconds == start
      invariant LoopSoFar(policy.limits, session, start, turns, policy.history, hangups, used)
    {
      ghost var h, before := policy.history, hangups;
      var ended, sent := TakeTurn(policy, session, turns[used]);
      if sent { hangups := hangups + [used]; }
      LoopTurn(policy.limits, session, start, turns, h, before, used);
      used := used + 1;
      if ended.Some? {
        LoopEnds(policy.limits, session, start, turns, used, ended.value);
        return ended.value, hangups, used;
      }
    }
    LoopStops(policy.limits, session, start, turns, policy.history, hangups);
    return Failed, hangups, used;
  }

  /** The body of the loop. */
  method TakeTurn(policy: RecoveryPolicy, session: nat, turn: Turn) returns (ended: Option<EndCallResult>, sent: bool)
    requires policy.Valid() && policy.started
    modifies policy
    ensures policy.Valid() && policy.started && policy.startedMilliseconds == old(policy.startedMilliseconds)
    ensures var verdict := VerdictOn(policy.limits, policy.startedMilliseconds, old(policy.history), turn);
            && ended == Outcome(session, turn, verdict)
            && sent == (verdict.RequestHangup? && Outcome(session, turn, RequestHangup).None?)
    ensures ended.None? ==> policy.history == Extended(policy.limits, policy.startedMilliseconds, old(policy.history), turn)
  {
    hide Looks, Spans, LatestSeen, Attempts, RecoveryVerdict;
    ended, sent := None, false;
    ghost var h, look := policy.history, Seen(turn.disposition, turn.audio, turn.at);
    ghost var verdict := RecoveryVerdict(policy.limits, policy.startedMilliseconds, h, look);
    if verdict.RequestHangup? { RequestMeaning(policy.limits, policy.startedMilliseconds, h, look); }
    if turn.disposition == SingleSafe && turn.identity != session { return Some(ExternalPreempted), false; }
    var decision := policy.Observe(turn.disposition, turn.audio, turn.at);
    match decision {
      case GiveWayEmergency => return Some(EmergencyPreempted), false;
      case GiveWayExternal => return Some(ExternalPreempted), false;
      case GiveWayUnverified => return Some(UnverifiedPreempted), false;
      case Complete => return Some(Ended), false;
      case CompleteAfterAudioLag => return Some(Ended), false;
      case Fail => return Some(Failed), false;
      case _ =>
    }
    if turn.disposition != Unknown && !turn.routeForced { return Some(Failed), false; }
    if decision == RequestHangup {
      if turn.finalDisposition == Emergency { return Some(EmergencyPreempted), false; }
      if turn.finalDisposition == Multiple || (turn.finalDisposition == SingleSafe && turn.finalIdentity != session) {
        return Some(ExternalPreempted), false;
      }
      if turn.finalDisposition != SingleSafe || turn.finalIdentity == 0 { return Some(UnverifiedPreempted), false; }
      sent := true;
      var recorded := policy.RecordHangupAttempt(turn.at);
      if !recorded { return Some(Failed), sent; }
    }
  }

  /** A hangup is requested only for a single safe call, while attempts are left, and recording it then
      succeeds. */
  lemma RequestMeaning(limits: RecoveryLimits, start: int, h: seq<Event>, next: Event)
    requires 0 <= start && next.Seen? && RecoveryVerdict(limits, start, h, next).RequestHangup? && Sensible(limits)
    ensures Counts(start, h, next) && next.disposition.SingleSafe?
    ensures Spans(Looks(HeldSingle, start, h + [next]), limits.single)
    ensures Attempts(h) == [] || (|Attempts(h)| < limits.attempts && RetryDue(limits, Attempts(h), next.at))
    ensures LatestSeen(start, h + [next]) == next.at && Attempts(h + [next]) == Attempts(h)
  {
    hide Looks, LatestSeen, Attempts, Spans;
    EventNext(HeldSingle, start, h, next);
    LookTimer(HeldSingle, start, h, next, limits.single);
  }

  // ---------------------------------------------------------------- whole runs

  /** A turn that does not end the loop is accepted, shows the session's call if it shows one, and
      shows no emergency and no second call. */
  lemma ContinuingTurn(limits: RecoveryLimits, session: nat, start: int, h: seq<Event>, t: Turn)
    requires 0 <= start && Sensible(limits) && Outcome(session, t, VerdictOn(limits, start, h, t)).None?
    ensures var v := VerdictOn(limits, start, h, t);
      && Counts(start, h, Seen(t.disposition, t.audio, t.at))
      && (t.disposition.SingleSafe? ==> t.identity == session)
      && (v.Wait? || v.RequestHangup?)
      && (v.Wait? ==> t.at - start < limits.total)
  {
    hide Looks, LatestSeen, Attempts, Spans;
  }

  function LookAt(w: Held, t: Turn): Sample {
    Sample(t.at, Shows(w, t.disposition), false)
  }

  /** What such a turn adds to the history. */
  lemma ExtendedFacts(limits: RecoveryLimits, session: nat, start: int, h: seq<Event>, t: Turn, w: Held)
    requires 0 <= start && Sensible(limits) && Outcome(session, t, VerdictOn(limits, start, h, t)).None?
    ensures var g := Extended(limits, start, h, t);
      && Looks(w, start, g) == Looks(w, start, h) + [LookAt(w, t)]
      && LatestSeen(start, h) <= LatestSeen(start, g) == t.at
      && Attempts(g) == Attempts(h) + (if VerdictOn(limits, start, h, t).RequestHangup? then [t.at] else [])
    ensures VerdictOn(limits, start, h, t).RequestHangup? ==>
      Attempts(h) == [] || (|Attempts(h)| < limits.attempts && RetryDue(limits, Attempts(h), t.at))
  {
    hide Looks, LatestSeen, Attempts, RecoveryVerdict, Outcome;
    ContinuingTurn(limits, session, start, h, t);
    var look := Seen(t.disposition, t.audio, t.at);
    EventNext(w, start, h, look);
    EventNext(w, start, h + [look], Attempted(t.at));
    if VerdictOn(limits, start, h, t).RequestHangup? { RequestMeaning(limits, start, h, look); }
  }

  /** While the loop goes on, the policy has seen every turn. */
  lemma {:induction false} HeardLooks(limits: RecoveryLimits, session: nat, start: int, turns: seq<Turn>, n: nat, w: Held)
    requires n <= |turns| && 0 <= start && Sensible(limits) && Continues(limits, session, start, turns, n)
    ensures var h := Heard(limits, start, turns, n);
      && |Looks(w, start, h)| == n
      && (forall i :: 0 <= i < n ==> Looks(w, start, h)[i] == LookAt(w, turns[i]))
      && LatestSeen(start, h) == (if n == 0 then start else turns[n - 1].at)
    decreases n
  {
    hide Looks, LatestSeen, Attempts, VerdictOn, Extended, Outcome, LookAt, Sensible;
    if n == 0 {
      NothingHeard(w, start);
    } else {
      HeardLooks(limits, session, start, turns, n - 1, w);
      LastContinues(limits, session, start, turns, n);
      ExtendedFacts(limits, session, start, Heard(limits, start, turns, n - 1), turns[n - 1], w);
    }
  }

  lemma LastContinues(limits: RecoveryLimits, session: nat, start: int, turns: seq<Turn>, n: nat)
    requires 0 < n <= |turns| && Continues(limits, session, start, turns, n)
    ensures Outcome(session, turns[n - 1], VerdictOn(limits, start, Heard(limits, start, turns, n - 1), turns[n - 1])).None?
  {
    hide Outcome, VerdictOn, Heard;
    assert Outcome(session, turns[n - 1], VerdictAt(limits, start, turns, n - 1)).None?;
  }

  lemma NothingHeard(w: Held, start: int)
    ensures Looks(w, start, []) == [] && LatestSeen(start, []) == start && Attempts([]) == []
  {
  }

  lemma {:induction false} AttemptsAreSent(limits: RecoveryLimits, session: nat, start: int, turns: seq<Turn>, n: nat)
    requires n <= |turns| && 0 <= start && Sensible(limits) && Continues(limits, session, start, turns, n)
    ensures Spaced(limits, turns, n, Attempts(Heard(limits, start, turns, n)), SentTurns(limits, session, start, turns, n))
    decreases n
  {
    hide Looks, LatestSeen, Attempts, VerdictOn, Extended, Outcome, SendsHangup, Spaced;
    if n == 0 {
      NothingHeard(HeldIdle, start);
      SpacedStart(limits, turns);
      assert Heard(limits, start, turns, 0) == [];
    } else {
      AttemptsAreSent(limits, session, start, turns, n - 1);
      LastSends(limits, session, start, turns, n);
      LastContinues(limits, session, start, turns, n);
      var h := Heard(limits, start, turns, n - 1);
      ExtendedFacts(limits, session, start, h, turns[n - 1], HeldIdle);
      SpacedNext(limits, turns, n - 1, Attempts(h), SentTurns(limits, session, start, turns, n - 1));
      assert Attempts(h) + [] == Attempts(h);
    }
  }

  /** The recorded attempts are the times of the turns that sent, few enough and far enough apart. */
  ghost predicate Spaced(limits: RecoveryLimits, turns: seq<Turn>, n: nat, tries: seq<int>, sent: seq<nat>) {
    && n <= |turns| && |tries| == |sent| <= limits.attempts
    && (forall i :: 0 <= i < |sent| ==> sent[i] < n && tries[i] == turns[sent[i]].at)
    && (forall i :: 0 < i < |sent| ==> sent[i - 1] < sent[i] && turns[sent[i]].at - turns[sent[i - 1]].at >= limits.retry)
  }

  lemma SpacedStart(limits: RecoveryLimits, turns: seq<Turn>)
    ensures Spaced(limits, turns, 0, [], [])
  {
  }

  lemma SpacedNext(limits: RecoveryLimits, turns: seq<Turn>, n: nat, tries: seq<int>, sent: seq<nat>)
    requires n < |turns| && Sensible(limits) && Spaced(limits, turns, n, tries, sent)
    ensures Spaced(limits, turns, n + 1, tries, sent)
    ensures tries == [] || (|tries| < limits.attempts && RetryDue(limits, tries, turns[n].at)) ==>
      Spaced(limits, turns, n + 1, tries + [turns[n].at], sent + [n])
  {
  }

  lemma LastSends(limits: RecoveryLimits, session: nat, start: int, turns: seq<Turn>, n: nat)
    requires 0 < n <= |turns| && Continues(limits, session, start, turns, n)
    ensures SendsHangup(limits, session, start, turns, n - 1) <==>
      VerdictOn(limits, start, Heard(limits, start, turns, n - 1), turns[n - 1]).RequestHangup?
  {
    hide Outcome, VerdictOn, Heard;
    assert Outcome(session, turns[n - 1], VerdictAt(limits, start, turns, n - 1)).None?;
  }

  /** Bounded hangups: the turns the loop took sent no more end-call transactions than are allowed, in
      order, each at least the retry interval after the one before. */
  lemma HangupsBounded(limits: RecoveryLimits, session: nat, start: int, turns: seq<Turn>, used: nat)
    requires used <= |turns| && 0 <= start && Sensible(limits)
    requires Continues(limits, session, start, turns, if used == 0 then 0 else used - 1)
    ensures var sent := SentTurns(limits, session, start, turns, used);
      && |sent| <= limits.attempts
      && forall i :: 0 < i < |sent| ==> sent[i - 1] < sent[i] < used && turns[sent[i]].at - turns[sent[i - 1]].at >= limits.retry
  {
    hide Outcome, VerdictOn, Heard, Sensible, VerdictAt;
    if used == 0 || Continues(limits, session, start, turns, used) {
      AttemptsAreSent(limits, session, start, turns, used);
    } else {
      AttemptsAreSent(limits, session, start, turns, used - 1);
      NoSendAtEnd(limits, session, start, turns, used);
    }
  }

  lemma NoSendAtEnd(limits: RecoveryLimits, session: nat, start: int, turns: seq<Turn>, used: nat)
    requires 0 < used <= |turns| && Continues(limits, session, start, turns, used - 1) && !Continues(limits, session, start, turns, used)
    ensures SentTurns(limits, session, start, turns, used) == SentTurns(limits, session, start, turns, used - 1)
  {
    hide Outcome, VerdictOn, Heard, VerdictAt;
  }

  /** Every turn from i to k shows exactly the session's call, and they span the confirmation time. */
  ghost predicate SafeFrom(session: nat, turns: seq<Turn>, i: nat, k: nat, span: int)
    requires k < |turns|
  {
    && i <= k && turns[k].at - turns[i].at >= span
    && forall j :: i <= j <= k ==> turns[j].disposition.SingleSafe? && turns[j].identity == session
  }

  /** No hangup without proof: every end-call transaction follows an unbroken window in which the
      session's own call was the single safe call, and one more look that found it again. */
  lemma HangupNeedsWindow(limits: RecoveryLimits, session: nat, start: int, turns: seq<Turn>, k: nat)
    requires k < |turns| && 0 <= start && Sensible(limits) && Continues(limits, session, start, turns, k)
    requires SendsHangup(limits, session, start, turns, k)
    ensures exists i :: SafeFrom(session, turns, i, k, limits.single)
    ensures turns[k].finalDisposition.SingleSafe? && turns[k].finalIdentity == session != 0
  {
    hide Looks, LatestSeen, Attempts, RecoveryVerdict, Heard;
    var h, t := Heard(limits, start, turns, k), turns[k];
    var look := Seen(t.disposition, t.audio, t.at);
    RequestMeaning(limits, start, h, look);
    EventNext(HeldSingle, start, h, look);
    HeardLooks(limits, session, start, turns, k, HeldSingle);
    SafeWindow(limits, session, start, turns, k, Looks(HeldSingle, start, h + [look]));
  }

  lemma SafeWindow(limits: RecoveryLimits, session: nat, start: int, turns: seq<Turn>, k: nat, samples: seq<Sample>)
    requires k < |turns| && Continues(limits, session, start, turns, k) && turns[k].identity == session
    requires |samples| == k + 1 && Spans(samples, limits.single)
    requires forall i :: 0 <= i <= k ==> samples[i] == LookAt(HeldSingle, turns[i])
    ensures exists i :: SafeFrom(session, turns, i, k, limits.single)
  {
    hide VerdictAt;
    var i: nat :| Unbroken(samples, i) && samples[|samples| - 1].at - samples[i].at >= limits.single;
    forall j | i <= j <= k ensures turns[j].disposition.SingleSafe? && turns[j].identity == session {
      assert samples[j].holds;
      if j < k { SingleIsSession(session, turns[j], VerdictAt(limits, start, turns, j)); }
    }
    assert SafeFrom(session, turns, i, k, limits.single);
  }

  lemma SingleIsSession(session: nat, t: Turn, v: RecoveryDecision)
    requires t.disposition.SingleSafe? && Outcome(session, t, v).None?
    ensures t.identity == session
  {
  }

  /** The recovery ends: once the total time has passed at turn k, the loop runs on for at most as many
      turns as hangup attempts were left, and never beyond the retry spacing. */
  lemma {:induction false} RecoveryEnds(limits: RecoveryLimits, session: nat, start: int, turns: seq<Turn>, k: nat, n: nat)
    requires k <= n <= |turns| && 0 <= start && Sensible(limits) && Continues(limits, session, start, turns, n)
    requires k < |turns| && turns[k].at - start >= limits.total
    ensures |SentTurns(limits, session, start, turns, n)| == |SentTurns(limits, session, start, turns, k)| + (n - k)
    ensures n - k <= limits.attempts - |SentTurns(limits, session, start, turns, k)|
    decreases n
  {
    hide Looks, LatestSeen, Attempts, RecoveryVerdict, Outcome, Heard;
    AttemptsAreSent(limits, session, start, turns, n);
    if k < n {
      RecoveryEnds(limits, session, start, turns, k, n - 1);
      LateTurnRequests(limits, session, start, turns, k, n - 1);
    }
  }

  /** Past the total time a turn either ends the loop or asks for a hangup. */
  lemma LateTurnRequests(limits: RecoveryLimits, session: nat, start: int, turns: seq<Turn>, k: nat, n: nat)
    requires k <= n < |turns| && 0 <= start && Sensible(limits) && Continues(limits, session, start, turns, n + 1)
    requires turns[k].at - start >= limits.total
    ensures VerdictAt(limits, start, turns, n).RequestHangup?
  {
    hide Heard, VerdictOn, Outcome;
    LastContinues(limits, session, start, turns, n + 1);
    ContinuingTurn(limits, session, start, Heard(limits, start, turns, n), turns[n]);
    ClockForward(limits, session, start, turns, k, n);
  }

  lemma {:induction false} ClockForward(limits: RecoveryLimits, session: nat, start: int, turns: seq<Turn>, k: nat, n: nat)
    requires k <= n < |turns| && 0 <= start && Sensible(limits) && Continues(limits, session, start, turns, n + 1)
    ensures turns[k].at <= turns[n].at
    decreases n
  {
    hide Looks, LatestSeen, Attempts, VerdictOn, Outcome, Heard;
    if k < n {
      ClockForward(limits, session, start, turns, k, n - 1);
      LastContinues(limits, session, start, turns, n + 1);
      HeardLooks(limits, session, start, turns, n, HeldIdle);
      ContinuingTurn(limits, session, start, Heard(limits, start, turns, n), turns[n]);
    }
  }

  /** The call is reported ended only after an unbroken run of idle turns as long as the confirmation
      time, or as the longer audio-lag time if the audio mode never went back to normal. */
  lemma EndedNeedsIdle(limits: RecoveryLimits, session: nat, start: int, turns: seq<Turn>, k: nat)
    requires k < |turns| && 0 <= start && Sensible(limits) && Continues(limits, session, start, turns, k)
    requires Outcome(session, turns[k], VerdictAt(limits, start, turns, k)) == Some(Ended)
    ensures var span := if turns[k].audio.Normal? then limits.idle else limits.audioLag;
            exists i :: IdleFrom(turns, i, k, span)
  {
    hide Looks, LatestSeen, Attempts, Spans, Outcome, Heard;
    var h, t := Heard(limits, start, turns, k), turns[k];
    var look := Seen(t.disposition, t.audio, t.at);
    EndedMeaning(session, t, VerdictAt(limits, start, turns, k));
    EventNext(HeldIdle, start, h, look);
    HeardLooks(limits, session, start, turns, k, HeldIdle);
    IdleWindow(turns, k, Looks(HeldIdle, start, h + [look]), if t.audio.Normal? then limits.idle else limits.audioLag);
  }

  lemma EndedMeaning(session: nat, t: Turn, v: RecoveryDecision)
    requires Outcome(session, t, v) == Some(Ended)
    ensures v.Complete? || v.CompleteAfterAudioLag?
  {
  }

  ghost predicate IdleFrom(turns: seq<Turn>, i: nat, k: nat, span: int)
    requires k < |turns|
  {
    i <= k && turns[k].at - turns[i].at >= span && forall j :: i <= j <= k ==> turns[j].disposition.Idle?
  }

  lemma IdleWindow(turns: seq<Turn>, k: nat, samples: seq<Sample>, span: int)
    requires k < |turns| && |samples| == k + 1 && Spans(samples, span)
    requires forall i :: 0 <= i <= k ==> samples[i] == LookAt(HeldIdle, turns[i])
    ensures exists i :: IdleFrom(turns, i, k, span)
  {
    var i: nat :| Unbroken(samples, i) && samples[|samples| - 1].at - samples[i].at >= span;
    assert IdleFrom(turns, i, k, span);
  }
}
