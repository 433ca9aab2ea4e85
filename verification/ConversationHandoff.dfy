/**
  Conversation hand-off (helper/src/conversation_handoff_protocol.cpp): the acknowledgement on the wire
  and the policy that accepts one acknowledgement for each finished segment.
*/
module ConversationHandoff {
  import opened Prelude
  import opened Wire
  import opened CallControlCodec

  const HANDOFF_VERSION := "IVRDROID_CONVERSATION_HANDOFF_V1"
  const MAXIMUM_SEGMENT_INDEX: nat := 65_535
  const ACKNOWLEDGEMENT_TIMEOUT: nat := 10_000
  const INT64_MAX: nat := 0x7FFF_FFFF_FFFF_FFFF

  datatype Verdict = Affirmed | Failed | Invalid

  datatype Acknowledgement = Acknowledgement(callUuid: string, revisionId: nat, blockUuid: string, recordingUuid: string,
                                             segmentIndex: nat, bootUuid: string, elapsed: nat, result: Verdict, reason: string)

  const NO_ACKNOWLEDGEMENT := Acknowledgement("", 0, "", "", 0, "", 0, Invalid, "")

  function VerdictText(v: Verdict): string {
    match v case Affirmed => "OK" case Failed => "FAILED" case Invalid => "INVALID"
  }

  function ParseVerdict(s: string): (v: Verdict)
    ensures s == VerdictText(v) || v.Invalid?
    ensures s == "OK" ==> v.Affirmed?
    ensures s == "FAILED" ==> v.Failed?
  {
    if s == "OK" then Affirmed else if s == "FAILED" then Failed else Invalid
  }

  predicate ReasonAgrees(v: Verdict, reason: string) {
    IsReason(reason) && (v.Affirmed? ==> reason == "-") && (v.Failed? ==> reason != "-")
  }

  /** The integer fields fit their types. */
  predicate FieldsFit(a: Acknowledgement) {
    a.revisionId <= UINT64_MAX && a.segmentIndex <= UINT32_MAX && a.elapsed <= UINT64_MAX
  }

  predicate AcknowledgementOk(a: Acknowledgement) {
    && IsCanonicalUuid(a.callUuid) && 0 < a.revisionId && IsCanonicalUuid(a.blockUuid) && IsCanonicalUuid(a.recordingUuid)
    && a.segmentIndex <= MAXIMUM_SEGMENT_INDEX && IsCanonicalUuid(a.bootUuid) && !a.result.Invalid? && ReasonAgrees(a.result, a.reason)
  }

  function HandoffFields(a: Acknowledgement): seq<string> {
    [HANDOFF_VERSION, a.callUuid, Decimal(a.revisionId), a.blockUuid, a.recordingUuid, Decimal(a.segmentIndex), a.bootUuid, Decimal(a.elapsed),
     VerdictText(a.result), a.reason]
  }

  function HandoffLine(a: Acknowledgement): string {
    Joined(HandoffFields(a)) + "\n"
  }

  function EncodedAcknowledgement(a: Acknowledgement): string {
    if AcknowledgementOk(a) then HandoffLine(a) else ""
  }

  function AcknowledgementOf(tokens: seq<string>): Acknowledgement {
    if |tokens| != 10 || tokens[0] != HANDOFF_VERSION then NO_ACKNOWLEDGEMENT
    else
      var revision, segment, elapsed :=
        ParseCanonical(tokens[2], UINT64_MAX, false), ParseCanonical(tokens[5], UINT32_MAX, true), ParseCanonical(tokens[7], UINT64_MAX, true);
      var result := ParseVerdict(tokens[8]);
      if IsCanonicalUuid(tokens[1]) && revision.Some? && IsCanonicalUuid(tokens[3]) && IsCanonicalUuid(tokens[4])
         && segment.Some? && segment.value <= MAXIMUM_SEGMENT_INDEX && IsCanonicalUuid(tokens[6]) && elapsed.Some?
         && !result.Invalid? && ReasonAgrees(result, tokens[9])
      then Acknowledgement(tokens[1], revision.value, tokens[3], tokens[4], segment.value, tokens[6], elapsed.value, result, tokens[9])
      else NO_ACKNOWLEDGEMENT
  }

  ghost function ParsedAcknowledgement(wire: string): Acknowledgement {
    AcknowledgementOf(LineFields(wire))
  }

  lemma HandoffFieldsPlain(a: Acknowledgement)
    requires AcknowledgementOk(a) && FieldsFit(a)
    ensures var ts := HandoffFields(a); |ts| == 10 && forall i :: 0 <= i < |ts| ==> Plain(ts[i]) && |ts[i]| <= if i < 8 then 36 else 64
  {
    hide Decimal, IsCanonicalUuid, IsReason;
    UuidPlain(a.callUuid);
    UuidPlain(a.blockUuid);
    UuidPlain(a.recordingUuid);
    UuidPlain(a.bootUuid);
    Uint64Plain(a.revisionId);
    Uint64Plain(a.segmentIndex);
    Uint64Plain(a.elapsed);
    ReasonPlain(a.reason);
  }

  lemma HandoffLineFits(a: Acknowledgement)
    requires AcknowledgementOk(a) && FieldsFit(a)
    ensures AreFields(HandoffFields(a)) && IsLine(HandoffLine(a))
  {
    hide Plain;
    HandoffFieldsPlain(a);
    LineFits(HandoffFields(a));
  }

  /** The fields are accepted exactly when they spell a well-formed acknowledgement, and then give it. */
  lemma AcknowledgementOfSpells(tokens: seq<string>, a: Acknowledgement)
    requires !a.result.Invalid?
    ensures AcknowledgementOf(tokens) == a <==> AcknowledgementOk(a) && FieldsFit(a) && tokens == HandoffFields(a)
  {
    hide Decimal, IsCanonicalUuid, IsReason;
    if |tokens| == 10 {
      assert tokens == HandoffFields(a) <==>
        tokens[0] == HANDOFF_VERSION && tokens[1] == a.callUuid && tokens[2] == Decimal(a.revisionId) && tokens[3] == a.blockUuid
        && tokens[4] == a.recordingUuid && tokens[5] == Decimal(a.segmentIndex) && tokens[6] == a.bootUuid && tokens[7] == Decimal(a.elapsed)
        && tokens[8] == VerdictText(a.result) && tokens[9] == a.reason;
      assert ParseCanonical(tokens[2], UINT64_MAX, false) == Some(a.revisionId) <==> tokens[2] == Decimal(a.revisionId) && 0 < a.revisionId <= UINT64_MAX;
      assert ParseCanonical(tokens[5], UINT32_MAX, true) == Some(a.segmentIndex) <==> tokens[5] == Decimal(a.segmentIndex) && a.segmentIndex <= UINT32_MAX;
      assert ParseCanonical(tokens[7], UINT64_MAX, true) == Some(a.elapsed) <==> tokens[7] == Decimal(a.elapsed) && a.elapsed <= UINT64_MAX;
    }
  }

  /** Parsing inverts encoding on everything the encoder accepts, and accepts nothing else. */
  lemma AcknowledgementRoundTrip(wire: string, a: Acknowledgement)
    requires FieldsFit(a) && !a.result.Invalid?
    ensures ParsedAcknowledgement(wire) == a <==> EncodedAcknowledgement(a) == wire && wire != ""
  {
    hide AcknowledgementOf, AcknowledgementOk, IsLine, FieldsFit, HandoffFields;
    AcknowledgementOfSpells(LineFields(wire), a);
    if AcknowledgementOk(a) {
      HandoffLineFits(a);
      SomeFields(a);
      LineFieldsOfJoined(HandoffFields(a));
    }
  }

  lemma SomeFields(a: Acknowledgement)
    ensures HandoffFields(a) != [] && HandoffLine(a) != ""
  {
  }

  method ParseAcknowledgement(wire: string) returns (a: Acknowledgement)
    ensures a == ParsedAcknowledgement(wire)
  {
    a := NO_ACKNOWLEDGEMENT;
    var tokens := Fields(wire);
    if |tokens| != 10 || tokens[0] != HANDOFF_VERSION { return; }
    var result := ParseVerdict(tokens[8]);
    if !IsCanonicalUuid(tokens[1]) { return; }
    var revision := ParseCanonical(tokens[2], UINT64_MAX, false);
    if revision.None? || !IsCanonicalUuid(tokens[3]) || !IsCanonicalUuid(tokens[4]) { return; }
    var segment := ParseCanonical(tokens[5], UINT32_MAX, true);
    if segment.None? || segment.value > MAXIMUM_SEGMENT_INDEX || !IsCanonicalUuid(tokens[6]) { return; }
    var elapsed := ParseCanonical(tokens[7], UINT64_MAX, true);
    if elapsed.None? || result == Invalid || !IsReason(tokens[9])
       || (result == Affirmed && tokens[9] != "-") || (result == Failed && tokens[9] == "-") {
      return;
    }
    a := Acknowledgement(tokens[1], revision.value, tokens[3], tokens[4], segment.value, tokens[6], elapsed.value, result, tokens[9]);
  }

  method EncodeAcknowledgement(a: Acknowledgement) returns (wire: string)
    requires FieldsFit(a)
    ensures wire == EncodedAcknowledgement(a)
  {
    hide IsCanonicalUuid, IsReason, Decimal, Joined, IsLine;
    if !IsCanonicalUuid(a.callUuid) || a.revisionId == 0 || !IsCanonicalUuid(a.blockUuid) || !IsCanonicalUuid(a.recordingUuid)
       || a.segmentIndex > MAXIMUM_SEGMENT_INDEX || !IsCanonicalUuid(a.bootUuid) || a.result == Invalid || !IsReason(a.reason)
       || (a.result == Affirmed && a.reason != "-") || (a.result == Failed && a.reason == "-") {
      return "";
    }
    wire := HANDOFF_VERSION;
    wire := wire + " " + a.callUuid;
    wire := wire + " " + Decimal(a.revisionId);
    wire := wire + " " + a.blockUuid;
    wire := wire + " " + a.recordingUuid;
    wire := wire + " " + Decimal(a.segmentIndex);
    wire := wire + " " + a.bootUuid;
    wire := wire + " " + Decimal(a.elapsed);
    ghost var eight := [HANDOFF_VERSION, a.callUuid, Decimal(a.revisionId), a.blockUuid, a.recordingUuid, Decimal(a.segmentIndex), a.bootUuid, Decimal(a.elapsed)];
    JoinedEight(HANDOFF_VERSION, a.callUuid, Decimal(a.revisionId), a.blockUuid, a.recordingUuid, Decimal(a.segmentIndex), a.bootUuid, Decimal(a.elapsed));
    assert wire == Joined(eight);
    wire := wire + " " + VerdictText(a.result);
    JoinedNext(eight, VerdictText(a.result));
    wire := wire + " " + a.reason;
    JoinedNext(eight + [VerdictText(a.result)], a.reason);
    assert HandoffFields(a) == eight + [VerdictText(a.result)] + [a.reason];
    wire := wire + "\n";
    HandoffLineFits(a);
    LineIsShort(wire);
    if |wire| > MAXIMUM_WIRE_BYTES { return ""; }
  }

  // ---------------------------------------------------------------- the policy

  datatype Decision = Awaiting | Accepted | SegmentFailed | TimedOut | IgnoredForeign | Stale | ProtocolFailure

  datatype Recording = Recording(callUuid: string, revisionId: nat, blockUuid: string, recordingUuid: string, bootUuid: string)

  predicate RecordingOk(r: Recording) {
    && IsCanonicalUuid(r.callUuid) && r.revisionId > 0 && IsCanonicalUuid(r.blockUuid)
    && IsCanonicalUuid(r.recordingUuid) && IsCanonicalUuid(r.bootUuid)
  }

  predicate Correlates(r: Recording, a: Acknowledgement) {
    && !a.result.Invalid? && a.callUuid == r.callUuid && a.revisionId == r.revisionId && a.blockUuid == r.blockUuid
    && a.recordingUuid == r.recordingUuid && a.bootUuid == r.bootUuid
  }

  /** One finished segment and the time its file was finalized. */
  datatype Finished = Finished(segment: nat, at: nat)

  /** A clock value as 64 bits hold it. */
  function Wrap64(n: int): int {
    (n + INT64_MAX + 1) % (2 * (INT64_MAX + 1)) - (INT64_MAX + 1)
  }

  /** When the acknowledgement of a segment finished at this time is due. */
  function Due(at: nat): int {
    Wrap64(at + ACKNOWLEDGEMENT_TIMEOUT)
  }

  lemma DueMeaning(at: nat)
    requires at <= INT64_MAX
    ensures Due(at) == if at + ACKNOWLEDGEMENT_TIMEOUT <= INT64_MAX then at + ACKNOWLEDGEMENT_TIMEOUT
                       else at + ACKNOWLEDGEMENT_TIMEOUT - 2 * (INT64_MAX + 1)
    ensures Due(at) >= at <==> at + ACKNOWLEDGEMENT_TIMEOUT <= INT64_MAX
  {
  }

  /** Acknowledgements accepted so far: one for every segment from 0 on, in order, each positive, for this
      recording, in time, with elapsed times that never fall. */
  ghost predicate InOrder(r: Recording, accepted: seq<Acknowledgement>) {
    && (forall i :: 0 <= i < |accepted| ==> accepted[i].segmentIndex == i && accepted[i].result.Affirmed? && Correlates(r, accepted[i]))
    && (forall i, j :: 0 <= i < j < |accepted| ==> accepted[i].elapsed <= accepted[j].elapsed)
  }

  class HandoffPolicy {
    const recording: Recording
    const valid: bool
    var pending: bool
    var pendingSegment: nat
    var nextExpected: nat
    var deadline: int
    var hasLastElapsed: bool
    var lastElapsed: nat
    ghost var accepted: seq<Acknowledgement>
    ghost var finished: seq<Finished>

    ghost predicate Valid()
      reads this
    {
      && valid == RecordingOk(recording)
      && InOrder(recording, accepted)
      && nextExpected == |accepted| <= MAXIMUM_SEGMENT_INDEX + 1
      && hasLastElapsed == (accepted != [])
      && (accepted != [] ==> lastElapsed == accepted[|accepted| - 1].elapsed)
      && |finished| == |accepted| + (if pending then 1 else 0)
      && (forall i :: 0 <= i < |finished| ==> finished[i].segment == i)
      && (pending ==> pendingSegment == nextExpected <= MAXIMUM_SEGMENT_INDEX && deadline == Due(finished[nextExpected].at))
    }

    constructor (recording: Recording)
      ensures Valid() && accepted == [] && finished == [] && !pending && this.recording == recording
    {
      this.recording, valid := recording, RecordingOk(recording);
      pending, pendingSegment, nextExpected, deadline, hasLastElapsed, lastElapsed := false, 0, 0, 0, false, 0;
      accepted, finished := [], [];
    }

    /** A segment can be announced only in turn, and only when the one before it has been acknowledged.
        An announcement whose deadline does not fit the clock is answered no, but waits all the same. */
    method MarkSegmentFinalized(segmentIndex: nat, now: int) returns (ok: bool)
      requires Valid() && now <= INT64_MAX
      modifies this
      ensures Valid() && accepted == old(accepted)
      ensures var announced := valid && !old(pending) && now >= 0 && segmentIndex == |accepted| <= MAXIMUM_SEGMENT_INDEX;
        && ok == (announced && now + ACKNOWLEDGEMENT_TIMEOUT <= INT64_MAX)
        && pending == (old(pending) || announced)
        && finished == if announced then old(finished) + [Finished(segmentIndex, now)] else old(finished)
    {
      if !valid || pending || now < 0 || segmentIndex != nextExpected || segmentIndex > MAXIMUM_SEGMENT_INDEX { return false; }
      DueMeaning(now);
      pending, pendingSegment, deadline := true, segmentIndex, Wrap64(now + ACKNOWLEDGEMENT_TIMEOUT);
      finished := finished + [Finished(segmentIndex, now)];
      return deadline >= now;
    }

    /** The acknowledgement is well formed and for this recording. */
    ghost predicate Ours(a: Acknowledgement, now: int) {
      valid && now >= 0 && !a.result.Invalid? && Correlates(recording, a)
    }

    /** A segment waits, and its time is over. */
    ghost predicate Late(now: int)
      reads this
      requires Valid()
    {
      pending && now > Due(finished[|accepted|].at)
    }

    /** The elapsed time falls behind the last acknowledgement accepted. */
    ghost predicate FallsBack(a: Acknowledgement)
      reads this
    {
      accepted != [] && a.elapsed < accepted[|accepted| - 1].elapsed
    }

    /** An acknowledgement is accepted exactly when it answers the one finished segment that waits for it,
        in time; anything else leaves the policy as it was. */
    method Observe(a: Acknowledgement, now: int) returns (d: Decision)
      requires Valid()
      modifies this
      ensures Valid() && finished == old(finished)
      ensures d == Accepted <==>
        valid && now >= 0 && Correlates(recording, a) && a.result.Affirmed? && old(pending)
        && a.segmentIndex == |old(accepted)| && now <= Due(finished[|old(accepted)|].at)
        && (old(accepted) != [] ==> old(accepted)[|old(accepted)| - 1].elapsed <= a.elapsed)
      ensures accepted == if d == Accepted then old(accepted) + [a] else old(accepted)
      ensures pending == (old(pending) && d != Accepted)
      ensures d == IgnoredForeign <==> valid && now >= 0 && !a.result.Invalid? && !Correlates(recording, a)
      ensures d == TimedOut <==> Ours(a, now) && old(Late(now))
      ensures d == Stale <==> Ours(a, now) && !old(Late(now)) && a.segmentIndex < |old(accepted)|
      ensures d == SegmentFailed <==>
        Ours(a, now) && old(pending && !Late(now) && !FallsBack(a)) && a.segmentIndex == |old(accepted)| && a.result.Failed?
      ensures d == ProtocolFailure <==>
        || !valid || now < 0 || a.result.Invalid?
        || (Ours(a, now) && !old(Late(now)) && a.segmentIndex > |old(accepted)|)
        || (Ours(a, now) && !old(Late(now)) && a.segmentIndex == |old(accepted)| && (!old(pending) || old(FallsBack(a))))
    {
      if !valid || a.result == Invalid || now < 0 { return ProtocolFailure; }
      if !Correlates(recording, a) { return IgnoredForeign; }
      if !pending { return if a.segmentIndex < nextExpected then Stale else ProtocolFailure; }
      if now > deadline { return TimedOut; }
      if a.segmentIndex < pendingSegment { return Stale; }
      if a.segmentIndex != pendingSegment || (hasLastElapsed && a.elapsed < lastElapsed) { return ProtocolFailure; }
      if a.result == Failed { return SegmentFailed; }
      pending, hasLastElapsed, lastElapsed := false, true, a.elapsed;
      if nextExpected <= MAXIMUM_SEGMENT_INDEX { nextExpected := nextExpected + 1; }
      accepted := accepted + [a];
      return Accepted;
    }

    method CheckDeadline(now: int) returns (d: Decision)
      requires Valid()
      ensures d == TimedOut <==> valid && now >= 0 && pending && now > Due(finished[|accepted|].at)
      ensures d == ProtocolFailure <==> !valid || now < 0
      ensures d in {TimedOut, ProtocolFailure, Awaiting}
    {
      if !valid || now < 0 { return ProtocolFailure; }
      return if pending && now > deadline then TimedOut else Awaiting;
    }
  }
}
