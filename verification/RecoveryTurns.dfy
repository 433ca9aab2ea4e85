/**
  `EndSingleCallAndWait` told by its turns alone: when a turn asks for a hangup, sends one, fails or
  finds the call ended, in both directions.
*/
module RecoveryTurns {
  import opened Prelude
  import opened Windows
  import opened SafetyTimers
  import opened CallRecovery

  /** Every turn from i to k shows the disposition held, and they span the time. */
  ghost predicate HeldFrom(w: Held, turns: seq<Turn>, i: nat, k: nat, span: int)
    requires k < |turns|
  {
    i <= k && turns[k].at - turns[i].at >= span && forall j :: i <= j <= k ==> Shows(w, turns[j].disposition)
  }

  ghost predicate HeldFor(w: Held, turns: seq<Turn>, k: nat, span: int)
    requires k < |turns|
  {
    exists i: nat :: HeldFrom(w, turns, i, k, span)
  }

  /** The clock has run back since the turn before, or since the start. */
  predicate RunsBack(start: int, turns: seq<Turn>, k: nat)
    requires k < |turns|
  {
    turns[k].at < if k == 0 then start else turns[k - 1].at
  }

  /** What the retry interval says about the hangups sent so far. */
  ghost predicate RetryOver(limits: RecoveryLimits, turns: seq<Turn>, sent: seq<nat>, k: nat)
    requires k < |turns|
  {
    sent != [] && sent[|sent| - 1] < |turns| && turns[k].at - turns[sent[|sent| - 1]].at >= limits.retry
  }

  ghost predicate MayHangUp(limits: RecoveryLimits, turns: seq<Turn>, sent: seq<nat>, k: nat)
    requires k < |turns|
  {
    sent == [] || (|sent| < limits.attempts && RetryOver(limits, turns, sent, k))
  }

  predicate Settling(t: Turn) {
    t.disposition.Idle? || t.disposition.SingleSafe? || t.disposition.Unknown?
  }

  lemma SpansAsTurns(limits: RecoveryLimits, session: nat, start: int, turns: seq<Turn>, k: nat, w: Held, span: int)
    requires k < |turns| && 0 <= start && Sensible(limits) && Continues(limits, session, start, turns, k)
    requires !RunsBack(start, turns, k) && Settling(turns[k])
    ensures var h, t := Heard(limits, start, turns, k), turns[k];
            Spans(Looks(w, start, h + [Seen(t.disposition, t.audio, t.at)]), span) <==> HeldFor(w, turns, k, span)
  {
    hide Looks, LatestSeen, Heard, Sensible;
    var h, t := Heard(limits, start, turns, k), turns[k];
    var look := Seen(t.disposition, t.audio, t.at);
    HeardLooks(limits, session, start, turns, k, w);
    EventNext(w, start, h, look);
    WindowAsTurns(w, turns, k, Looks(w, start, h + [look]), span);
  }

  lemma WindowAsTurns(w: Held, turns: seq<Turn>, k: nat, samples: seq<Sample>, span: int)
    requires k < |turns| && |samples| == k + 1
    requires forall i :: 0 <= i <= k ==> samples[i] == LookAt(w, turns[i])
    ensures Spans(samples, span) <==> HeldFor(w, turns, k, span)
  {
    if i: nat :| Unbroken(samples, i) && samples[|samples| - 1].at - samples[i].at >= span {
      assert HeldFrom(w, turns, i, k, span);
    }
    if i: nat :| HeldFrom(w, turns, i, k, span) {
      assert Unbroken(samples, i);
    }
  }

  /** The policy's record of attempts is the list of turns that sent. */
  lemma TriesAsTurns(limits: RecoveryLimits, session: nat, start: int, turns: seq<Turn>, k: nat)
    requires k < |turns| && 0 <= start && Sensible(limits) && Continues(limits, session, start, turns, k)
    ensures var tries, sent := Attempts(Heard(limits, start, turns, k)), SentTurns(limits, session, start, turns, k);
      && |tries| == |sent|
      && (RetryDue(limits, tries, turns[k].at) <==> RetryOver(limits, turns, sent, k))
  {
    hide Heard, Attempts, SentTurns, Continues, Spaced, RetryDue, RetryOver;
    AttemptsAreSent(limits, session, start, turns, k);
    SpacedAsTurns(limits, turns, k, Attempts(Heard(limits, start, turns, k)), SentTurns(limits, session, start, turns, k));
  }

  lemma SpacedAsTurns(limits: RecoveryLimits, turns: seq<Turn>, k: nat, tries: seq<int>, sent: seq<nat>)
    requires k < |turns| && Spaced(limits, turns, k, tries, sent)
    ensures |tries| == |sent| && (RetryDue(limits, tries, turns[k].at) <==> RetryOver(limits, turns, sent, k))
  {
  }

  lemma BackAsTurns(limits: RecoveryLimits, session: nat, start: int, turns: seq<Turn>, k: nat)
    requires k < |turns| && 0 <= start && Sensible(limits) && Continues(limits, session, start, turns, k)
    ensures turns[k].at < LatestSeen(start, Heard(limits, start, turns, k)) <==> RunsBack(start, turns, k)
  {
    hide Heard, LatestSeen;
    HeardLooks(limits, session, start, turns, k, HeldIdle);
  }

  /** A turn in which nothing takes precedence and the clock has run on. */
  ghost predicate Open(limits: RecoveryLimits, start: int, turns: seq<Turn>, k: nat)
    requires k < |turns|
  {
    !RunsBack(start, turns, k) && Settling(turns[k])
  }

  /** The call is over: idle for the confirmation time, or for the longer audio-lag time while the audio
      mode has not gone back to normal. */
  ghost predicate IdleConfirmed(limits: RecoveryLimits, turns: seq<Turn>, k: nat)
    requires k < |turns|
  {
    HeldFor(HeldIdle, turns, k, if turns[k].audio.Normal? then limits.idle else limits.audioLag)
  }

  /** What is answered at a turn the loop gets to. */
  lemma TurnVerdict(limits: RecoveryLimits, session: nat, start: int, turns: seq<Turn>, k: nat)
    requires k < |turns| && 0 <= start && Sensible(limits) && Continues(limits, session, start, turns, k)
    ensures var v, t, sent := VerdictAt(limits, start, turns, k), turns[k], SentTurns(limits, session, start, turns, k);
            var ask := HeldFor(HeldSingle, turns, k, limits.single) && MayHangUp(limits, turns, sent, k);
            var spent := t.disposition.SingleSafe? && |sent| >= limits.attempts && RetryOver(limits, turns, sent, k);
      && (v.RequestHangup? <==> Open(limits, start, turns, k) && ask)
      && (v.GiveWayUnverified? <==> Open(limits, start, turns, k) && HeldFor(HeldUnknown, turns, k, limits.unknown))
      && (v.Complete? || v.CompleteAfterAudioLag? <==> Open(limits, start, turns, k) && IdleConfirmed(limits, turns, k))
      && (v.Complete? ==> t.audio.Normal?) && (v.CompleteAfterAudioLag? ==> !t.audio.Normal?)
      && (v.GiveWayEmergency? <==> !RunsBack(start, turns, k) && t.disposition.Emergency?)
      && (v.GiveWayExternal? <==> !RunsBack(start, turns, k) && t.disposition.Multiple?)
      && (v.Fail? <==>
            || RunsBack(start, turns, k)
            || (&& Settling(t) && !HeldFor(HeldUnknown, turns, k, limits.unknown) && !IdleConfirmed(limits, turns, k)
                && !ask && (spent || t.at - start >= limits.total)))
  {
    var h, t := Heard(limits, start, turns, k), turns[k];
    BackAsTurns(limits, session, start, turns, k);
    TriesAsTurns(limits, session, start, turns, k);
    if Open(limits, start, turns, k) {
      SpansAsTurns(limits, session, start, turns, k, HeldUnknown, limits.unknown);
      SpansAsTurns(limits, session, start, turns, k, HeldIdle, limits.idle);
      SpansAsTurns(limits, session, start, turns, k, HeldIdle, limits.audioLag);
      SpansAsTurns(limits, session, start, turns, k, HeldSingle, limits.single);
      OneHeld(turns, k);
    }
    hide Looks, LatestSeen, Heard, Attempts, Spans, SentTurns, HeldFor, RetryDue, RetryOver;
  }

  /** A window ends with a turn that shows what it holds. */
  lemma OneHeld(turns: seq<Turn>, k: nat)
    requires k < |turns|
    ensures forall w, span :: HeldFor(w, turns, k, span) ==> Shows(w, turns[k].disposition)
  {
  }

  /** Another call than the session's own, alone on the line. */
  predicate Stranger(session: nat, t: Turn) {
    t.disposition.SingleSafe? && t.identity != session
  }

  /** The last look before a hangup finds the session's call. */
  predicate FoundAgain(session: nat, t: Turn) {
    t.finalDisposition.SingleSafe? && t.finalIdentity == session && session != 0
  }

  lemma Ends(session: nat, t: Turn, v: RecoveryDecision)
    ensures v.RequestHangup? ==> (Outcome(session, t, v).None? <==> !Stranger(session, t) && t.routeForced && FoundAgain(session, t))
    ensures Outcome(session, t, v) == Some(Ended) <==> !Stranger(session, t) && (v.Complete? || v.CompleteAfterAudioLag?)
    ensures Outcome(session, t, v) == Some(Failed) <==>
      && !Stranger(session, t)
      && (v.Fail? || (v.Wait? && !t.disposition.Unknown? && !t.routeForced) || (v.RequestHangup? && !t.routeForced))
    ensures Outcome(session, t, v) == Some(UnverifiedPreempted) <==>
      && !Stranger(session, t)
      && (v.GiveWayUnverified? || (v.RequestHangup? && t.routeForced && LostSight(session, t)))
    ensures Outcome(session, t, v) == Some(EmergencyPreempted) <==>
      && !Stranger(session, t)
      && (v.GiveWayEmergency? || (v.RequestHangup? && t.routeForced && t.finalDisposition.Emergency?))
    ensures Outcome(session, t, v) == Some(ExternalPreempted) <==>
      || Stranger(session, t)
      || v.GiveWayExternal?
      || (v.RequestHangup? && t.routeForced && OtherFound(session, t))
  {
  }

  /** The last look finds nothing, or nothing it can tell. */
  predicate LostSight(session: nat, t: Turn) {
    || t.finalDisposition.Idle? || t.finalDisposition.Unknown?
    || (t.finalDisposition.SingleSafe? && t.finalIdentity == session == 0)
  }

  /** The last look finds a second call, or another one. */
  predicate OtherFound(session: nat, t: Turn) {
    t.finalDisposition.Multiple? || (t.finalDisposition.SingleSafe? && t.finalIdentity != session)
  }

  /** When a hangup is sent: exactly when the session's own call has been the single safe call for the
      whole confirmation time, none was sent yet or attempts are left and the retry interval is over,
      the route is private, and the last look finds the call again. */
  lemma HangupExactly(limits: RecoveryLimits, session: nat, start: int, turns: seq<Turn>, k: nat)
    requires k < |turns| && 0 <= start && Sensible(limits) && Continues(limits, session, start, turns, k)
    ensures var t, sent := turns[k], SentTurns(limits, session, start, turns, k);
      SendsHangup(limits, session, start, turns, k) <==>
        && !RunsBack(start, turns, k)
        && (exists i :: SafeFrom(session, turns, i, k, limits.single))
        && (sent == [] || (|sent| < limits.attempts && RetryOver(limits, turns, sent, k)))
        && t.routeForced && FoundAgain(session, t)
  {
    TurnVerdict(limits, session, start, turns, k);
    OwnWindow(limits, session, start, turns, k);
    Ends(session, turns[k], RequestHangup);
    OneHeld(turns, k);
    hide VerdictAt, SentTurns, HeldFor, RetryOver, Outcome, SafeFrom, FoundAgain, RunsBack, Continues, Sensible;
  }

  /** While the loop goes on a window of single safe calls is one of the session's own call. */
  lemma OwnWindow(limits: RecoveryLimits, session: nat, start: int, turns: seq<Turn>, k: nat)
    requires k < |turns| && Continues(limits, session, start, turns, k)
    ensures (exists i :: SafeFrom(session, turns, i, k, limits.single)) <==>
      turns[k].identity == session && HeldFor(HeldSingle, turns, k, limits.single)
  {
    hide VerdictAt;
    if i: nat :| SafeFrom(session, turns, i, k, limits.single) {
      assert HeldFrom(HeldSingle, turns, i, k, limits.single);
    }
    if turns[k].identity == session && HeldFor(HeldSingle, turns, k, limits.single) {
      var i: nat :| HeldFrom(HeldSingle, turns, i, k, limits.single);
      forall j | i <= j <= k ensures turns[j].disposition.SingleSafe? && turns[j].identity == session {
        assert Shows(HeldSingle, turns[j].disposition);
        if j < k { SingleIsSession(session, turns[j], VerdictAt(limits, start, turns, j)); }
      }
      assert SafeFrom(session, turns, i, k, limits.single);
    }
  }

  /** When the loop ends at a turn it gets to, and how. */
  lemma EndExactly(limits: RecoveryLimits, session: nat, start: int, turns: seq<Turn>, k: nat)
    requires k < |turns| && 0 <= start && Sensible(limits) && Continues(limits, session, start, turns, k)
    ensures var end, t, sent := Outcome(session, turns[k], VerdictAt(limits, start, turns, k)), turns[k], SentTurns(limits, session, start, turns, k);
            var ask := HeldFor(HeldSingle, turns, k, limits.single) && MayHangUp(limits, turns, sent, k);
            var spent := t.disposition.SingleSafe? && |sent| >= limits.attempts && RetryOver(limits, turns, sent, k);
            var settled := HeldFor(HeldUnknown, turns, k, limits.unknown) || IdleConfirmed(limits, turns, k);
            var exposed := !t.disposition.Unknown? && !t.routeForced;
      && (end == Some(Ended) <==> Open(limits, start, turns, k) && IdleConfirmed(limits, turns, k))
      && (end == Some(Failed) <==>
            && !Stranger(session, t)
            && (|| RunsBack(start, turns, k)
                || (Settling(t) && !settled && (exposed || spent || (!ask && t.at - start >= limits.total)))))
      && (end == Some(UnverifiedPreempted) <==>
            && Open(limits, start, turns, k) && !Stranger(session, t)
            && (HeldFor(HeldUnknown, turns, k, limits.unknown) || (ask && t.routeForced && LostSight(session, t))))
      && (end == Some(EmergencyPreempted) <==>
            && !RunsBack(start, turns, k) && !Stranger(session, t)
            && (t.disposition.Emergency? || (ask && t.routeForced && t.finalDisposition.Emergency?)))
      && (end == Some(ExternalPreempted) <==>
            || Stranger(session, t)
            || (!RunsBack(start, turns, k) && (t.disposition.Multiple? || (ask && t.routeForced && OtherFound(session, t)))))
  {
    TurnVerdict(limits, session, start, turns, k);
    Ends(session, turns[k], VerdictAt(limits, start, turns, k));
    OneHeld(turns, k);
    hide VerdictAt, SentTurns, HeldFor, RetryOver, Outcome, RunsBack, LostSight, OtherFound, Continues, Sensible;
  }
}
