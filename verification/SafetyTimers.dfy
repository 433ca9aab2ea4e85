/**
  `SessionCallMonitorPolicy` and `PrivacyStabilityPolicy`: each decision as a statement about the
  whole history of observations.
*/
module SafetyTimers {
  import opened Prelude
  import opened Windows

  // ---------------------------------------------------------------- the monitored call

  datatype CallSight = CallSight(disposition: CallDisposition, ending: bool, at: int)

  datatype SessionCallDecision = Continue | RemoteEnded | EmergencyPreempt | ExternalPreempt | UnverifiedPreempt

  /** The latest clock reading accepted so far. */
  function Latest(start: int, seen: seq<CallSight>): (r: int)
    ensures start <= r && forall i :: 0 <= i < |seen| ==> seen[i].at <= r
  {
    if seen == [] then start
    else
      var before := Latest(start, seen[..|seen| - 1]);
      if seen[|seen| - 1].at < before then before else seen[|seen| - 1].at
  }

  datatype Watched = WatchUnknown | WatchIdle

  predicate Matches(w: Watched, s: CallSight) {
    match w
    case WatchUnknown => s.disposition == Unknown
    case WatchIdle => s.disposition == Idle && !s.ending
  }

  /** The sights that count: a clock that runs backwards and a preempting call leave the timers alone. */
  function Samples(w: Watched, start: int, seen: seq<CallSight>): seq<Sample> {
    if seen == [] then []
    else
      var front, last := seen[..|seen| - 1], seen[|seen| - 1];
      if last.at < Latest(start, front) || last.disposition.Emergency? || last.disposition.Multiple? then Samples(w, start, front)
      else Samples(w, start, front) + [Sample(last.at, Matches(w, last), false)]
  }

  lemma {:induction false} SamplesTimely(w: Watched, start: int, seen: seq<CallSight>)
    requires 0 <= start
    ensures Timely(Samples(w, start, seen))
    ensures forall i :: 0 <= i < |Samples(w, start, seen)| ==> Samples(w, start, seen)[i].at <= Latest(start, seen)
    decreases |seen|
  {
    if seen != [] { SamplesTimely(w, start, seen[..|seen| - 1]); }
  }

  datatype MonitorLimits = MonitorLimits(idle: int, unknown: int)

  function ClampedMonitor(idle: int, unknown: int): MonitorLimits {
    MonitorLimits(if idle < 0 then 0 else idle, if unknown < 1 then 1 else unknown)
  }

  /** What the monitor should say to `next` after `seen`. */
  ghost function MonitorVerdict(limits: MonitorLimits, start: int, seen: seq<CallSight>, next: CallSight): SessionCallDecision {
    if next.at < Latest(start, seen) then UnverifiedPreempt
    else if next.disposition.Emergency? then EmergencyPreempt
    else if next.disposition.Multiple? then ExternalPreempt
    else if Spans(Samples(WatchUnknown, start, seen + [next]), limits.unknown) then UnverifiedPreempt
    else if Spans(Samples(WatchIdle, start, seen + [next]), limits.idle) then RemoteEnded
    else Continue
  }

  lemma SamplesNext(w: Watched, start: int, seen: seq<CallSight>, next: CallSight)
    ensures Samples(w, start, seen + [next]) ==
      if next.at < Latest(start, seen) || next.disposition.Emergency? || next.disposition.Multiple? then Samples(w, start, seen)
      else Samples(w, start, seen) + [Sample(next.at, Matches(w, next), false)]
    ensures Latest(start, seen + [next]) == if next.at < Latest(start, seen) then Latest(start, seen) else next.at
  {
    assert (seen + [next])[..|seen|] == seen;
  }

  /** The timer after an observation that counts, and what it proves. */
  lemma TimerNext(w: Watched, start: int, seen: seq<CallSight>, next: CallSight, span: int)
    requires 0 <= start && Latest(start, seen) <= next.at && !next.disposition.Emergency? && !next.disposition.Multiple?
    ensures var before, after := Since(Samples(w, start, seen)), Since(Samples(w, start, seen + [next]));
            && after == (if !Matches(w, next) then -1 else if before < 0 then next.at else before)
            && (Spans(Samples(w, start, seen + [next]), span) <==> Matches(w, next) && next.at - after >= span)
  {
    hide Samples, Spans, Latest;
    SamplesNext(w, start, seen, next);
    SamplesTimely(w, start, seen + [next]);
    SinceNext(Samples(w, start, seen), Sample(next.at, Matches(w, next), false));
    SinceSpans(Samples(w, start, seen + [next]), span);
    SamplesTimely(w, start, seen);
    SinceMeaning(Samples(w, start, seen));
  }

  class SessionCallMonitor {
    const limits: MonitorLimits
    var started: bool
    var lastObservation: int
    var idleSince: int
    var unknownSince: int
    ghost var startedAt: int
    ghost var seen: seq<CallSight>

    ghost predicate Valid()
      reads this
    {
      started ==>
        && 0 <= startedAt
        && lastObservation == Latest(startedAt, seen)
        && idleSince == Since(Samples(WatchIdle, startedAt, seen))
        && unknownSince == Since(Samples(WatchUnknown, startedAt, seen))
    }

    constructor (idleConfirmationMilliseconds: int, unknownMaximumMilliseconds: int)
      ensures Valid() && !started
      ensures limits == ClampedMonitor(idleConfirmationMilliseconds, unknownMaximumMilliseconds)
    {
      limits := ClampedMonitor(idleConfirmationMilliseconds, unknownMaximumMilliseconds);
      started, lastObservation, idleSince, unknownSince := false, -1, -1, -1;
    }

    method Start(now: int)
      requires 0 <= now
      modifies this
      ensures Valid() && started && startedAt == now && seen == []
    {
      lastObservation, idleSince, unknownSince, started := now, -1, -1, true;
      startedAt, seen := now, [];
    }

    method Observe(disposition: CallDisposition, endingCall: bool, now: int) returns (decision: SessionCallDecision)
      requires Valid()
      modifies this
      ensures Valid() && started == old(started) && startedAt == old(startedAt)
      ensures !started ==> decision == UnverifiedPreempt && seen == old(seen)
      ensures started ==> seen == old(seen) + [CallSight(disposition, endingCall, now)]
      ensures started ==> decision == MonitorVerdict(limits, startedAt, old(seen), CallSight(disposition, endingCall, now))
    {
      hide Samples, Spans, Latest, Since;
      if !started { return UnverifiedPreempt; }
      ghost var before, next := seen, CallSight(disposition, endingCall, now);
      SamplesNext(WatchIdle, startedAt, before, next);
      SamplesNext(WatchUnknown, startedAt, before, next);
      seen := seen + [next];
      if now < lastObservation { return UnverifiedPreempt; }
      lastObservation := now;
      if disposition == Emergency { return EmergencyPreempt; }
      if disposition == Multiple { return ExternalPreempt; }
      TimerNext(WatchIdle, startedAt, before, next, limits.idle);
      TimerNext(WatchUnknown, startedAt, before, next, limits.unknown);
      if disposition == Unknown {
        idleSince := -1;
        if unknownSince < 0 { unknownSince := now; }
        return if now - unknownSince >= limits.unknown then UnverifiedPreempt else Continue;
      }
      unknownSince := -1;
      if disposition == SingleSafe || endingCall {
        idleSince := -1;
        return Continue;
      }
      if idleSince < 0 { idleSince := now; }
      return if now - idleSince >= limits.idle then RemoteEnded else Continue;
    }
  }

  /** With a clock that never runs backwards and no emergency or second call, the sights that count
      are all of them, so the verdicts speak of the literal end of the history. */
  lemma {:induction false} PlainSamples(w: Watched, start: int, seen: seq<CallSight>)
    requires forall i :: 0 <= i < |seen| ==> start <= seen[i].at && !seen[i].disposition.Emergency? && !seen[i].disposition.Multiple?
    requires forall i, j :: 0 <= i < j < |seen| ==> seen[i].at <= seen[j].at
    ensures |Samples(w, start, seen)| == |seen|
    ensures forall i :: 0 <= i < |seen| ==> Samples(w, start, seen)[i] == Sample(seen[i].at, Matches(w, seen[i]), false)
    ensures Latest(start, seen) == if seen == [] then start else seen[|seen| - 1].at
    decreases |seen|
  {
    if seen != [] { PlainSamples(w, start, seen[..|seen| - 1]); }
  }

  /** Some unbroken run of matching sights ends the history and spans the limit. */
  ghost predicate RunOf(w: Watched, seen: seq<CallSight>, limit: int) {
    exists i :: 0 <= i < |seen| && seen[|seen| - 1].at - seen[i].at >= limit && AllMatch(w, seen[i..])
  }

  ghost predicate AllMatch(w: Watched, seen: seq<CallSight>) {
    forall j :: 0 <= j < |seen| ==> Matches(w, seen[j])
  }

  /** On such a history the monitor ends the session exactly on the two unbroken runs. */
  lemma MonitorOnPlainHistory(limits: MonitorLimits, start: int, seen: seq<CallSight>, next: CallSight)
    requires 0 <= start
    requires var all := seen + [next];
      && (forall i :: 0 <= i < |all| ==> start <= all[i].at && !all[i].disposition.Emergency? && !all[i].disposition.Multiple?)
      && (forall i, j :: 0 <= i < j < |all| ==> all[i].at <= all[j].at)
    ensures MonitorVerdict(limits, start, seen, next).UnverifiedPreempt? <==> RunOf(WatchUnknown, seen + [next], limits.unknown)
    ensures MonitorVerdict(limits, start, seen, next).RemoteEnded? <==> RunOf(WatchIdle, seen + [next], limits.idle)
  {
    hide Samples, Latest, Spans;
    var all := seen + [next];
    assert forall i :: 0 <= i < |seen| ==> seen[i] == all[i];
    forall i, j | 0 <= i < j < |seen| ensures seen[i].at <= seen[j].at { assert all[i].at <= all[j].at; }
    assert next == all[|seen|];
    LatestPlain(start, seen, next);
    PlainSpans(WatchUnknown, start, all, limits.unknown);
    PlainSpans(WatchIdle, start, all, limits.idle);
    if RunOf(WatchUnknown, all, limits.unknown) && RunOf(WatchIdle, all, limits.idle) {
      LastMatches(WatchUnknown, all, limits.unknown);
      LastMatches(WatchIdle, all, limits.idle);
    }
  }

  lemma LatestPlain(start: int, seen: seq<CallSight>, next: CallSight)
    requires forall i :: 0 <= i < |seen| ==> start <= seen[i].at && !seen[i].disposition.Emergency? && !seen[i].disposition.Multiple?
    requires forall i, j :: 0 <= i < j < |seen| ==> seen[i].at <= seen[j].at
    requires start <= next.at && (seen != [] ==> seen[|seen| - 1].at <= next.at)
    ensures Latest(start, seen) <= next.at
  {
    hide Latest;
    PlainSamples(WatchIdle, start, seen);
  }

  lemma LastMatches(w: Watched, seen: seq<CallSight>, limit: int)
    requires RunOf(w, seen, limit)
    ensures seen != [] && Matches(w, seen[|seen| - 1])
  {
    var i :| 0 <= i < |seen| && seen[|seen| - 1].at - seen[i].at >= limit && AllMatch(w, seen[i..]);
    assert seen[i..][|seen| - 1 - i] == seen[|seen| - 1];
  }

  lemma PlainSpans(w: Watched, start: int, seen: seq<CallSight>, limit: int)
    requires seen != []
    requires forall i :: 0 <= i < |seen| ==> start <= seen[i].at && !seen[i].disposition.Emergency? && !seen[i].disposition.Multiple?
    requires forall i, j :: 0 <= i < j < |seen| ==> seen[i].at <= seen[j].at
    ensures Spans(Samples(w, start, seen), limit) <==> RunOf(w, seen, limit)
  {
    hide Samples, Latest;
    PlainSamples(w, start, seen);
    var samples := Samples(w, start, seen);
    forall i: nat | i < |seen| ensures Unbroken(samples, i) <==> AllMatch(w, seen[i..]) {
      if AllMatch(w, seen[i..]) {
        forall j | i <= j < |samples| ensures samples[j].holds { assert seen[i..][j - i] == seen[j]; }
      }
    }
  }

  // ---------------------------------------------------------------- privacy before the first prompt

  datatype PrivacyObservation = Private | Corrected | Contended

  datatype PrivacySight = PrivacySight(observation: PrivacyObservation, routeReady: bool, at: int)

  datatype PrivacyDecision = Proceed | Ready | Abort

  /** The latest moment privacy was verified; only verified looks move it. */
  function LastVerified(start: int, seen: seq<PrivacySight>): (r: int)
    ensures start <= r
  {
    if seen == [] then start
    else
      var before, last := LastVerified(start, seen[..|seen| - 1]), seen[|seen| - 1];
      if last.observation.Contended? || last.at < before then before else last.at
  }

  /** Looks whose clock ran behind the last verified one are refused and change nothing. */
  function PrivacySamples(start: int, seen: seq<PrivacySight>): seq<Sample> {
    if seen == [] then []
    else
      var front, last := seen[..|seen| - 1], seen[|seen| - 1];
      if last.at < LastVerified(start, front) then PrivacySamples(start, front)
      else PrivacySamples(start, front) + [Sample(last.at, !last.observation.Contended? && last.routeReady, last.observation.Corrected?)]
  }

  lemma {:induction false} PrivacyTimely(start: int, seen: seq<PrivacySight>)
    requires 0 <= start
    ensures Timely(PrivacySamples(start, seen))
    ensures forall i :: 0 <= i < |PrivacySamples(start, seen)| && PrivacySamples(start, seen)[i].holds ==>
      PrivacySamples(start, seen)[i].at <= LastVerified(start, seen)
    decreases |seen|
  {
    if seen != [] { PrivacyTimely(start, seen[..|seen| - 1]); }
  }

  /** At some point of the history the required window was complete. */
  ghost predicate Reached(required: int, start: int, seen: seq<PrivacySight>) {
    exists n :: 0 <= n <= |seen| && Spans(PrivacySamples(start, seen[..n]), required)
  }

  datatype PrivacyLimits = PrivacyLimits(required: int, unverified: int)

  function ClampedPrivacy(required: int, unverified: int): PrivacyLimits {
    PrivacyLimits(if required < 0 then 0 else required, if unverified < 1 then 1 else unverified)
  }

  ghost function PrivacyVerdict(limits: PrivacyLimits, start: int, seen: seq<PrivacySight>, next: PrivacySight): PrivacyDecision {
    var verified := LastVerified(start, seen);
    if next.at < verified then Abort
    else if next.observation.Contended? && next.at - verified >= limits.unverified then Abort
    else if !Reached(limits.required, start, seen) && Reached(limits.required, start, seen + [next]) then Ready
    else Proceed
  }

  lemma PrivacyNext(start: int, seen: seq<PrivacySight>, next: PrivacySight)
    ensures PrivacySamples(start, seen + [next]) ==
      if next.at < LastVerified(start, seen) then PrivacySamples(start, seen)
      else PrivacySamples(start, seen) + [Sample(next.at, !next.observation.Contended? && next.routeReady, next.observation.Corrected?)]
    ensures LastVerified(start, seen + [next]) ==
      if next.observation.Contended? || next.at < LastVerified(start, seen) then LastVerified(start, seen) else next.at
  {
    assert (seen + [next])[..|seen|] == seen;
  }

  lemma ReachedNext(required: int, start: int, seen: seq<PrivacySight>, next: PrivacySight)
    ensures Reached(required, start, seen + [next]) <==>
      Reached(required, start, seen) || Spans(PrivacySamples(start, seen + [next]), required)
  {
    hide PrivacySamples, Spans;
    var all := seen + [next];
    assert all[..|all|] == all;
    forall n | 0 <= n <= |seen| ensures all[..n] == seen[..n] {}
    if Reached(required, start, seen) {
      var n :| 0 <= n <= |seen| && Spans(PrivacySamples(start, seen[..n]), required);
      assert Spans(PrivacySamples(start, all[..n]), required);
    }
    if Reached(required, start, all) {
      var n :| 0 <= n <= |all| && Spans(PrivacySamples(start, all[..n]), required);
      if n < |all| { assert Spans(PrivacySamples(start, seen[..n]), required); }
    }
  }

  /** What the timer proves at one accepted look. */
  lemma PrivacyTimer(required: int, start: int, seen: seq<PrivacySight>, next: PrivacySight)
    requires 0 <= start && LastVerified(start, seen) <= next.at
    ensures var before, after := Since(PrivacySamples(start, seen)), Since(PrivacySamples(start, seen + [next]));
            var holds := !next.observation.Contended? && next.routeReady;
            && after == (if !holds then -1 else if next.observation.Corrected? || before < 0 then next.at else before)
            && (Spans(PrivacySamples(start, seen + [next]), required) <==> holds && next.at - after >= required)
  {
    hide PrivacySamples, Spans, LastVerified;
    PrivacyNext(start, seen, next);
    PrivacyTimely(start, seen + [next]);
    SinceNext(PrivacySamples(start, seen), Sample(next.at, !next.observation.Contended? && next.routeReady, next.observation.Corrected?));
    SinceSpans(PrivacySamples(start, seen + [next]), required);
    PrivacyTimely(start, seen);
    SinceMeaning(PrivacySamples(start, seen));
  }

  /** A refused look completes no window. */
  lemma RefusedLook(required: int, start: int, seen: seq<PrivacySight>, next: PrivacySight)
    requires next.at < LastVerified(start, seen)
    ensures Reached(required, start, seen + [next]) == Reached(required, start, seen)
  {
    hide Spans;
    ReachedNext(required, start, seen, next);
    PrivacyNext(start, seen, next);
    assert seen[..|seen|] == seen;
  }

  class PrivacyStability {
    const limits: PrivacyLimits
    var started: bool
    var ready: bool
    var stableSince: int
    var lastVerified: int
    ghost var startedAt: int
    ghost var seen: seq<PrivacySight>

    ghost predicate Valid()
      reads this
    {
      started ==>
        && 0 <= startedAt
        && lastVerified == LastVerified(startedAt, seen)
        && ready == Reached(limits.required, startedAt, seen)
        && (!ready ==> stableSince == Since(PrivacySamples(startedAt, seen)))
    }

    constructor (requiredStableMilliseconds: int, maximumUnverifiedMilliseconds: int)
      ensures Valid() && !started
      ensures limits == ClampedPrivacy(requiredStableMilliseconds, maximumUnverifiedMilliseconds)
    {
      limits := ClampedPrivacy(requiredStableMilliseconds, maximumUnverifiedMilliseconds);
      started, ready, stableSince, lastVerified := false, false, -1, -1;
    }

    method Start(now: int)
      requires 0 <= now
      modifies this
      ensures Valid() && started && !ready && startedAt == now && seen == []
    {
      stableSince, lastVerified, started, ready := -1, now, true, false;
      startedAt, seen := now, [];
    }

    method Observe(observation: PrivacyObservation, startupRouteReady: bool, now: int) returns (decision: PrivacyDecision)
      requires Valid()
      modifies this
      ensures Valid() && started == old(started) && startedAt == old(startedAt)
      ensures !started ==> decision == Abort && seen == old(seen)
      ensures started ==> seen == old(seen) + [PrivacySight(observation, startupRouteReady, now)]
      ensures started ==> decision == PrivacyVerdict(limits, startedAt, old(seen), PrivacySight(observation, startupRouteReady, now))
    {
      hide PrivacySamples, Spans, LastVerified, Since, Reached;
      if !started { return Abort; }
      ghost var before, next := seen, PrivacySight(observation, startupRouteReady, now);
      PrivacyNext(startedAt, before, next);
      ReachedNext(limits.required, startedAt, before, next);
      seen := seen + [next];
      if now < lastVerified {
        RefusedLook(limits.required, startedAt, before, next);
        return Abort;
      }
      PrivacyTimer(limits.required, startedAt, before, next);
      if observation == Contended {
        stableSince := -1;
        return if now - lastVerified >= limits.unverified then Abort else Proceed;
      }
      lastVerified := now;
      if ready { return Proceed; }
      if !startupRouteReady {
        stableSince := -1;
        return Proceed;
      }
      if observation == Corrected || stableSince < 0 { stableSince := now; }
      if now - stableSince < limits.required { return Proceed; }
      ready := true;
      return Ready;
    }
  }

  /** Ready is said at most once in a history. */
  lemma ReadyOnce(limits: PrivacyLimits, start: int, seen: seq<PrivacySight>, i: nat, j: nat)
    requires i < j < |seen| && PrivacyVerdict(limits, start, seen[..i], seen[i]) == Ready
    ensures PrivacyVerdict(limits, start, seen[..j], seen[j]) != Ready
  {
    hide PrivacySamples, Spans, LastVerified;
    assert seen[..i] + [seen[i]] == seen[..i + 1];
    var n :| 0 <= n <= i + 1 && Spans(PrivacySamples(start, seen[..i + 1][..n]), limits.required);
    assert seen[..j][..n] == seen[..i + 1][..n];
  }

  /** Ready is said exactly at the first look that completes the required window: a stretch of looks
      with the route ready, none contended, none corrected after its start, as long as required. */
  lemma ReadyExactly(limits: PrivacyLimits, start: int, seen: seq<PrivacySight>, next: PrivacySight)
    requires 0 <= start && LastVerified(start, seen) <= next.at && limits.unverified >= 1
    ensures PrivacyVerdict(limits, start, seen, next) == Ready <==>
      && Spans(PrivacySamples(start, seen + [next]), limits.required)
      && forall n :: 0 <= n <= |seen| ==> !Spans(PrivacySamples(start, seen[..n]), limits.required)
  {
    hide PrivacySamples, Spans, LastVerified, Since;
    ReachedNext(limits.required, start, seen, next);
    PrivacyTimer(limits.required, start, seen, next);
  }

  /** Privacy is given up exactly if the clock has run back, or if the route is contended and has not been
      verified within the time allowed, since the start or since any look that was not contended. */
  lemma AbortExactly(limits: PrivacyLimits, start: int, seen: seq<PrivacySight>, next: PrivacySight)
    requires forall i :: 0 <= i < |seen| ==> start <= seen[i].at
    requires forall i, j :: 0 <= i < j < |seen| ==> seen[i].at <= seen[j].at
    ensures PrivacyVerdict(limits, start, seen, next) == Abort <==>
      || next.at < start
      || (exists i :: 0 <= i < |seen| && !seen[i].observation.Contended? && next.at < seen[i].at)
      || (&& next.observation.Contended? && next.at - start >= limits.unverified
          && forall i :: 0 <= i < |seen| && !seen[i].observation.Contended? ==> next.at - seen[i].at >= limits.unverified)
  {
    LastVerifiedIs(start, seen);
    hide LastVerified, Reached;
  }

  /** The last verified moment is the start or the latest look that was not contended. */
  lemma {:induction false} LastVerifiedIs(start: int, seen: seq<PrivacySight>)
    requires forall i :: 0 <= i < |seen| ==> start <= seen[i].at
    requires forall i, j :: 0 <= i < j < |seen| ==> seen[i].at <= seen[j].at
    ensures forall i :: 0 <= i < |seen| && !seen[i].observation.Contended? ==> seen[i].at <= LastVerified(start, seen)
    ensures LastVerified(start, seen) == start || exists i :: 0 <= i < |seen| && !seen[i].observation.Contended? && seen[i].at == LastVerified(start, seen)
    decreases |seen|
  {
    if seen != [] {
      var n := |seen| - 1;
      LastVerifiedIs(start, seen[..n]);
      assert forall i :: 0 <= i < n ==> seen[..n][i] == seen[i];
      if i :| 0 <= i < n && !seen[..n][i].observation.Contended? && seen[..n][i].at == LastVerified(start, seen[..n]) {
        assert seen[i].at == LastVerified(start, seen[..n]) && seen[i].at <= seen[n].at;
      }
    }
  }

  /** An emergency and a second call preempt the session at once, whatever came before. */
  lemma PreemptExactly(limits: MonitorLimits, start: int, seen: seq<CallSight>, next: CallSight)
    requires forall i :: 0 <= i < |seen| ==> seen[i].at <= next.at
    requires start <= next.at
    ensures MonitorVerdict(limits, start, seen, next) == EmergencyPreempt <==> next.disposition == Emergency
    ensures MonitorVerdict(limits, start, seen, next) == ExternalPreempt <==> next.disposition == Multiple
  {
    LatestBelow(start, seen, next.at);
    hide Latest, Samples, Spans;
  }

  lemma {:induction false} LatestBelow(start: int, seen: seq<CallSight>, bound: int)
    requires start <= bound && forall i :: 0 <= i < |seen| ==> seen[i].at <= bound
    ensures Latest(start, seen) <= bound
    decreases |seen|
  {
    if seen != [] { LatestBelow(start, seen[..|seen| - 1], bound); }
  }
}
