/** Call-control requests and statuses on the wire (helper/src/call_control_protocol.cpp). */
module CallControlCodec {
  import opened Prelude
  import opened Wire
  import opened ExternalCallPolicy

  const VERSION := "IVRDROID_CALL_CONTROL_V2"
  const MINIMUM_ANSWER_TIMEOUT: nat := 5_000
  const MAXIMUM_ANSWER_TIMEOUT: nat := 120_000

  // ---------------------------------------------------------------- grammars

  predicate IsLowerHex(c: char) {
    '0' <= c <= '9' || 'a' <= c <= 'f'
  }

  predicate IsCanonicalUuid(s: string) {
    && |s| == 36
    && (forall i :: 0 <= i < 36 ==> if i == 8 || i == 13 || i == 18 || i == 23 then s[i] == '-' else IsLowerHex(s[i]))
    && '1' <= s[14] <= '5'
    && (s[19] == '8' || s[19] == '9' || s[19] == 'a' || s[19] == 'b')
  }

  predicate IsPhoneNumber(s: string) {
    var digits := if s != "" && s[0] == '+' then s[1..] else s;
    8 <= |digits| <= 15 && forall i :: 0 <= i < |digits| ==> IsDigit(digits[i])
  }

  predicate IsReasonChar(c: char) {
    'A' <= c <= 'Z' || '0' <= c <= '9' || c == '_'
  }

  predicate IsReason(s: string) {
    || s == "-"
    || (0 < |s| <= 64 && 'A' <= s[0] <= 'Z' && forall i :: 0 <= i < |s| ==> IsReasonChar(s[i]))
  }

  /** Characters a field of an accepted line can hold: no separator, no line end. */
  predicate Plain(s: string) {
    s != "" && forall i :: 0 <= i < |s| ==> s[i] != ' ' && s[i] != '\n' && s[i] != '\r'
  }

  lemma UuidPlain(s: string)
    requires IsCanonicalUuid(s)
    ensures Plain(s) && |s| == 36
  {
  }

  lemma PhonePlain(s: string)
    requires IsPhoneNumber(s)
    ensures Plain(s) && |s| <= 16
  {
    forall i | 0 <= i < |s| ensures IsDigit(s[i]) || s[i] == '+' {
      if s[0] == '+' && i > 0 { assert s[i] == s[1..][i - 1]; }
    }
  }

  lemma ReasonPlain(s: string)
    requires IsReason(s)
    ensures Plain(s) && |s| <= 64
  {
  }

  lemma {:induction false} DecimalPlain(n: nat, digits: nat, bound: nat)
    requires n < bound && bound == Power10(digits) && digits > 0
    ensures Plain(Decimal(n)) && |Decimal(n)| <= digits
    decreases digits
  {
    if n >= 10 {
      assert digits > 1 by { assert Power10(1) == 10 * Power10(0); }
      DecimalPlain(n / 10, digits - 1, Power10(digits - 1));
    }
  }

  function Power10(n: nat): nat {
    if n == 0 then 1 else 10 * Power10(n - 1)
  }

  lemma Uint64Plain(n: nat)
    requires n <= UINT64_MAX
    ensures Plain(Decimal(n)) && |Decimal(n)| <= 20
  {
    assert Power10(5) == 100_000;
    assert Power10(10) == 10_000_000_000;
    assert Power10(15) == 1_000_000_000_000_000;
    assert Power10(20) == 100_000_000_000_000_000_000;
    DecimalPlain(n, 20, Power10(20));
  }

  /** A line of plain fields is well formed if it is short enough, which no line of the two protocols
      can fail to be: at most ten fields, the first eight no longer than a UUID. */
  lemma LineFits(ts: seq<string>)
    requires 8 <= |ts| <= 10
    requires forall i :: 0 <= i < |ts| ==> Plain(ts[i]) && |ts[i]| <= if i < 8 then 36 else 64
    ensures AreFields(ts) && IsLine(Joined(ts) + "\n")
  {
    hide Joined, Plain;
    PlainJoin(ts);
    JoinedLength(ts);
    LengthBound(ts, 8, 36);
    assert ts[..|ts|] == ts;
    if |ts| > 8 { LengthNext(ts, 8); }
    if |ts| > 9 { LengthNext(ts, 9); }
    var line := Joined(ts) + "\n";
    assert line[..|line| - 1] == Joined(ts);
    forall i | 0 <= i < |ts| ensures IsField(ts[i]) { PlainField(ts[i]); }
  }

  lemma PlainField(t: string)
    requires Plain(t)
    ensures IsField(t)
  {
  }

  lemma {:induction false} PlainJoin(ts: seq<string>)
    requires forall i :: 0 <= i < |ts| ==> Plain(ts[i])
    ensures '\n' !in Joined(ts) && '\r' !in Joined(ts)
    decreases |ts|
  {
    if |ts| > 1 { PlainJoin(ts[..|ts| - 1]); }
  }

  /** The length of the line that the first n fields make. */
  function LineLength(ts: seq<string>, n: nat): nat
    requires n <= |ts|
  {
    if n == 0 then 0 else LineLength(ts, n - 1) + |ts[n - 1]| + 1
  }

  lemma LengthNext(ts: seq<string>, n: nat)
    requires n < |ts|
    ensures LineLength(ts, n + 1) == LineLength(ts, n) + |ts[n]| + 1
  {
  }

  lemma {:induction false} JoinedLength(ts: seq<string>)
    requires ts != []
    ensures |Joined(ts)| + 1 == LineLength(ts, |ts|)
    decreases |ts|
  {
    var n := |ts| - 1;
    if n > 0 {
      JoinedLength(ts[..n]);
      SameLength(ts, ts[..n], n);
    } else {
      assert LineLength(ts, 0) == 0;
    }
  }

  lemma {:induction false} SameLength(ts: seq<string>, us: seq<string>, n: nat)
    requires n <= |us| <= |ts| && us == ts[..|us|]
    ensures LineLength(ts, n) == LineLength(us, n)
    decreases n
  {
    if n > 0 { SameLength(ts, us, n - 1); }
  }

  lemma {:induction false} LengthBound(ts: seq<string>, n: nat, bound: nat)
    requires n <= |ts| && forall i :: 0 <= i < n ==> |ts[i]| <= bound
    ensures LineLength(ts, n) <= n * (bound + 1)
    decreases n
  {
    if n > 0 { LengthBound(ts, n - 1, bound); }
  }

  // ---------------------------------------------------------------- requests

  datatype RequestKind = Dial | RecorderReady | Cancel | InvalidRequest

  datatype Request = Request(kind: RequestKind, sessionUuid: string, revisionId: nat, blockUuid: string, sequence: nat,
                             bootUuid: string, elapsed: nat, phoneNumber: string, answerTimeout: nat, reason: string)

  /** A default-constructed request: what parsing gives for anything it does not accept. */
  const NO_REQUEST := Request(InvalidRequest, "", 0, "", 0, "", 0, "", 0, "")

  function RequestWord(k: RequestKind): string {
    match k
    case Dial => "DIAL"
    case RecorderReady => "RECORDER_READY"
    case Cancel => "CANCEL"
    case InvalidRequest => "INVALID"
  }

  /** The integer fields fit their types. */
  predicate Fits(q: Request) {
    q.revisionId <= UINT64_MAX && q.sequence <= UINT64_MAX && q.elapsed <= UINT64_MAX && q.answerTimeout <= UINT32_MAX
  }

  predicate TimeoutOk(t: nat) {
    MINIMUM_ANSWER_TIMEOUT <= t <= MAXIMUM_ANSWER_TIMEOUT && t % 1_000 == 0
  }

  predicate CommonOk(q: Request) {
    && IsCanonicalUuid(q.sessionUuid) && 0 < q.revisionId && IsCanonicalUuid(q.blockUuid)
    && 0 < q.sequence && IsCanonicalUuid(q.bootUuid)
  }

  /** What the encoder accepts. */
  predicate Encodable(q: Request) {
    && !q.kind.InvalidRequest? && CommonOk(q)
    && (q.kind.Dial? ==> IsPhoneNumber(q.phoneNumber) && TimeoutOk(q.answerTimeout))
    && (if q.kind.Cancel? then IsReason(q.reason) && q.reason != "-" else q.reason == "")
  }

  /** The fields a kind does not use are left at their defaults. */
  function Normalised(q: Request): Request {
    if q.kind.Dial? then q else q.(phoneNumber := "", answerTimeout := 0)
  }

  function CommonFields(q: Request): seq<string> {
    [VERSION, RequestWord(q.kind), q.sessionUuid, Decimal(q.revisionId), q.blockUuid, Decimal(q.sequence), q.bootUuid, Decimal(q.elapsed)]
  }

  function RequestFields(q: Request): seq<string> {
    CommonFields(q)
    + (if q.kind.Dial? then [q.phoneNumber, Decimal(q.answerTimeout)] else if q.kind.Cancel? then [q.reason] else [])
  }

  function RequestLine(q: Request): string {
    Joined(RequestFields(q)) + "\n"
  }

  lemma VersionPlain()
    ensures Plain(VERSION) && |VERSION| <= 36
  {
  }

  lemma RequestWordPlain(k: RequestKind)
    ensures Plain(RequestWord(k)) && |RequestWord(k)| <= 36
  {
  }

  lemma RequestFieldsPlain(q: Request)
    requires Encodable(q) && Fits(q)
    ensures var ts := RequestFields(q); forall i :: 0 <= i < |ts| ==> Plain(ts[i]) && |ts[i]| <= if i < 8 then 36 else 64
  {
    hide Decimal, IsCanonicalUuid, IsReason, IsPhoneNumber, RequestWord, Plain;
    VersionPlain();
    RequestWordPlain(q.kind);
    UuidPlain(q.sessionUuid);
    UuidPlain(q.blockUuid);
    UuidPlain(q.bootUuid);
    Uint64Plain(q.revisionId);
    Uint64Plain(q.sequence);
    Uint64Plain(q.elapsed);
    if q.kind.Dial? {
      PhonePlain(q.phoneNumber);
      Uint64Plain(q.answerTimeout);
    }
    if q.kind.Cancel? { ReasonPlain(q.reason); }
  }

  lemma RequestLineFits(q: Request)
    requires Encodable(q) && Fits(q)
    ensures RequestFields(q) != [] && AreFields(RequestFields(q)) && IsLine(RequestLine(q))
  {
    hide Plain;
    RequestFieldsPlain(q);
    LineFits(RequestFields(q));
  }

  /** What the encoder should give: the line, or nothing for a request it does not accept. */
  function EncodedRequest(q: Request): string {
    if Encodable(q) then RequestLine(q) else ""
  }

  /** The fields every kind has, if they are well formed. */
  function CommonOf(tokens: seq<string>): Option<Request>
    requires |tokens| >= 8
  {
    var revision, sequence, elapsed :=
      ParseCanonical(tokens[3], UINT64_MAX, false), ParseCanonical(tokens[5], UINT64_MAX, false), ParseCanonical(tokens[7], UINT64_MAX, true);
    if IsCanonicalUuid(tokens[2]) && revision.Some? && IsCanonicalUuid(tokens[4]) && sequence.Some? && IsCanonicalUuid(tokens[6]) && elapsed.Some?
    then Some(Request(InvalidRequest, tokens[2], revision.value, tokens[4], sequence.value, tokens[6], elapsed.value, "", 0, ""))
    else None
  }

  /** What the fields of a line should give. */
  function RequestOf(tokens: seq<string>): Request {
    if |tokens| < 8 || tokens[0] != VERSION then NO_REQUEST
    else
      match CommonOf(tokens)
      case None => NO_REQUEST
      case Some(common) =>
        if tokens[1] == "DIAL" && |tokens| == 10 && IsPhoneNumber(tokens[8]) then
          (match ParseCanonical(tokens[9], UINT32_MAX, false)
           case Some(timeout) =>
             if TimeoutOk(timeout) then common.(kind := Dial, phoneNumber := tokens[8], answerTimeout := timeout) else NO_REQUEST
           case None => NO_REQUEST)
        else if tokens[1] == "RECORDER_READY" && |tokens| == 8 then common.(kind := RequestKind.RecorderReady)
        else if tokens[1] == "CANCEL" && |tokens| == 9 && IsReason(tokens[8]) && tokens[8] != "-" then
          common.(kind := Cancel, reason := tokens[8])
        else NO_REQUEST
  }

  ghost function ParsedRequest(wire: string): Request {
    RequestOf(LineFields(wire))
  }

  /** An accepted request spells exactly the fields it was read from. */
  lemma RequestOfSpells(tokens: seq<string>)
    requires !RequestOf(tokens).kind.InvalidRequest?
    ensures |tokens| >= 8
    ensures var q := RequestOf(tokens); Encodable(q) && Fits(q) && Normalised(q) == q && RequestFields(q) == tokens
  {
    hide Decimal, IsCanonicalUuid, IsReason, IsPhoneNumber;
    var q := RequestOf(tokens);
    assert |tokens| >= 8 && Decimal(q.revisionId) == tokens[3] && Decimal(q.sequence) == tokens[5] && Decimal(q.elapsed) == tokens[7];
    assert RequestWord(q.kind) == tokens[1];
  }

  lemma RequestOfFields(q: Request)
    requires Encodable(q) && Fits(q)
    ensures RequestOf(RequestFields(q)) == Normalised(q)
  {
    hide Decimal, IsCanonicalUuid, IsReason, IsPhoneNumber;
    var ts := RequestFields(q);
    assert ParseCanonical(ts[3], UINT64_MAX, false) == Some(q.revisionId);
    assert ParseCanonical(ts[5], UINT64_MAX, false) == Some(q.sequence);
    assert ParseCanonical(ts[7], UINT64_MAX, true) == Some(q.elapsed);
    if q.kind.Dial? { assert ParseCanonical(ts[9], UINT32_MAX, false) == Some(q.answerTimeout); }
  }

  /** Every accepted request line re-encodes to the same bytes. */
  lemma RequestWireRoundTrip(wire: string)
    requires !ParsedRequest(wire).kind.InvalidRequest?
    ensures EncodedRequest(ParsedRequest(wire)) == wire
  {
    hide RequestOf, Encodable, RequestFields;
    RequestOfSpells(LineFields(wire));
  }

  /** Every request the encoder accepts parses back to itself, unused fields at their defaults. */
  lemma RequestValueRoundTrip(q: Request)
    requires Encodable(q) && Fits(q)
    ensures ParsedRequest(EncodedRequest(q)) == Normalised(q)
  {
    hide RequestOf, Encodable, RequestFields;
    RequestLineFits(q);
    LineFieldsOfJoined(RequestFields(q));
    RequestOfFields(q);
  }

  method ParseRequest(wire: string) returns (request: Request)
    ensures request == ParsedRequest(wire)
  {
    request := NO_REQUEST;
    var tokens := Fields(wire);
    if tokens == [] || tokens[0] != VERSION || |tokens| < 2 { return; }
    if tokens[1] == "DIAL" {
      if |tokens| != 10 { return; }
      var common := ParseCommon(tokens);
      var timeout := ParseCanonical(tokens[9], UINT32_MAX, false);
      if common.None? || !IsPhoneNumber(tokens[8]) || timeout.None?
         || timeout.value < MINIMUM_ANSWER_TIMEOUT || timeout.value > MAXIMUM_ANSWER_TIMEOUT || timeout.value % 1_000 != 0 {
        return;
      }
      request := common.value.(kind := Dial, phoneNumber := tokens[8], answerTimeout := timeout.value);
    } else if tokens[1] == "RECORDER_READY" {
      if |tokens| != 8 { return; }
      var common := ParseCommon(tokens);
      if common.None? { return; }
      request := common.value.(kind := RequestKind.RecorderReady);
    } else if tokens[1] == "CANCEL" {
      if |tokens| != 9 { return; }
      var common := ParseCommon(tokens);
      if common.None? || !IsReason(tokens[8]) || tokens[8] == "-" { return; }
      request := common.value.(kind := Cancel, reason := tokens[8]);
    }
  }

  /** The checks the three kinds share. */
  method ParseCommon(tokens: seq<string>) returns (common: Option<Request>)
    requires |tokens| >= 8
    ensures common == CommonOf(tokens)
  {
    if !IsCanonicalUuid(tokens[2]) { return None; }
    var revision := ParseCanonical(tokens[3], UINT64_MAX, false);
    if revision.None? || !IsCanonicalUuid(tokens[4]) { return None; }
    var sequence := ParseCanonical(tokens[5], UINT64_MAX, false);
    if sequence.None? || !IsCanonicalUuid(tokens[6]) { return None; }
    var elapsed := ParseCanonical(tokens[7], UINT64_MAX, true);
    if elapsed.None? { return None; }
    return Some(Request(InvalidRequest, tokens[2], revision.value, tokens[4], sequence.value, tokens[6], elapsed.value, "", 0, ""));
  }

  method EncodeRequest(q: Request) returns (result: string)
    requires Fits(q)
    ensures result == EncodedRequest(q)
  {
    hide IsCanonicalUuid, IsPhoneNumber, IsReason, Decimal, Joined, IsLine;
    if q.kind == InvalidRequest || !IsCanonicalUuid(q.sessionUuid) || q.revisionId == 0 || !IsCanonicalUuid(q.blockUuid)
       || q.sequence == 0 || !IsCanonicalUuid(q.bootUuid) {
      return "";
    }
    result := VERSION;
    result := result + " " + RequestWord(q.kind);
    result := result + " " + q.sessionUuid;
    result := result + " " + Decimal(q.revisionId);
    result := result + " " + q.blockUuid;
    result := result + " " + Decimal(q.sequence);
    result := result + " " + q.bootUuid;
    result := result + " " + Decimal(q.elapsed);
    CommonJoined(q);
    if q.kind == Dial {
      if !IsPhoneNumber(q.phoneNumber) || q.answerTimeout < MINIMUM_ANSWER_TIMEOUT
         || q.answerTimeout > MAXIMUM_ANSWER_TIMEOUT || q.answerTimeout % 1_000 != 0 {
        return "";
      }
      result := result + " " + q.phoneNumber;
      result := result + " " + Decimal(q.answerTimeout);
      JoinedNext(CommonFields(q), q.phoneNumber);
      JoinedNext(CommonFields(q) + [q.phoneNumber], Decimal(q.answerTimeout));
      assert RequestFields(q) == CommonFields(q) + [q.phoneNumber] + [Decimal(q.answerTimeout)];
    }
    if q.kind == Cancel {
      if !IsReason(q.reason) || q.reason == "-" { return ""; }
      result := result + " " + q.reason;
      JoinedNext(CommonFields(q), q.reason);
      assert RequestFields(q) == CommonFields(q) + [q.reason];
    } else if q.reason != "" {
      return "";
    }
    if q.kind.RecorderReady? { assert RequestFields(q) == CommonFields(q); }
    result := result + "\n";
    RequestLineFits(q);
    LineIsShort(result);
    if |result| > MAXIMUM_WIRE_BYTES { return ""; }
  }

  lemma LineIsShort(wire: string)
    requires IsLine(wire)
    ensures |wire| <= MAXIMUM_WIRE_BYTES
  {
  }

  lemma CommonJoined(q: Request)
    ensures Joined(CommonFields(q)) ==
      VERSION + " " + RequestWord(q.kind) + " " + q.sessionUuid + " " + Decimal(q.revisionId) + " " + q.blockUuid
      + " " + Decimal(q.sequence) + " " + q.bootUuid + " " + Decimal(q.elapsed)
  {
    hide Joined, Decimal;
    JoinedEight(VERSION, RequestWord(q.kind), q.sessionUuid, Decimal(q.revisionId), q.blockUuid, Decimal(q.sequence), q.bootUuid, Decimal(q.elapsed));
  }

  lemma JoinedEight(a: string, b: string, c: string, d: string, e: string, f: string, g: string, h: string)
    ensures Joined([a, b, c, d, e, f, g, h]) == a + " " + b + " " + c + " " + d + " " + e + " " + f + " " + g + " " + h
  {
    JoinedOne(a);
    hide Joined;
    JoinedNext([a], b);
    JoinedNext([a] + [b], c);
    JoinedNext([a] + [b] + [c], d);
    JoinedNext([a] + [b] + [c] + [d], e);
    JoinedNext([a] + [b] + [c] + [d] + [e], f);
    JoinedNext([a] + [b] + [c] + [d] + [e] + [f], g);
    JoinedNext([a] + [b] + [c] + [d] + [e] + [f] + [g], h);
    assert [a, b, c, d, e, f, g, h] == [a] + [b] + [c] + [d] + [e] + [f] + [g] + [h];
  }

  lemma JoinedOne(a: string)
    ensures Joined([a]) == a
  {
  }

  // ---------------------------------------------------------------- statuses

  const NO_STATUS := Status(Invalid, Attempt("", 0, "", ""), 0, 0, "")

  function StatusText(k: Kind): string {
    match k
    case Ack => "ACK"
    case CallerHeld => "CALLER_HELD"
    case Dialing => "DIALING"
    case OperatorAnswered => "OPERATOR_ANSWERED"
    case Merging => "MERGING"
    case Conferenced => "CONFERENCED"
    case Completed => "COMPLETED"
    case NotConnected => "NOT_CONNECTED"
    case SystemFailure => "SYSTEM_FAILURE"
    case Invalid => "INVALID"
  }

  function ParseStatusKind(s: string): (r: Kind)
    ensures forall k: Kind :: !k.Invalid? ==> (r == k <==> s == StatusText(k))
  {
    if s == "ACK" then Ack
    else if s == "CALLER_HELD" then CallerHeld
    else if s == "DIALING" then Dialing
    else if s == "OPERATOR_ANSWERED" then OperatorAnswered
    else if s == "MERGING" then Merging
    else if s == "CONFERENCED" then Conferenced
    else if s == "COMPLETED" then Completed
    else if s == "NOT_CONNECTED" then NotConnected
    else if s == "SYSTEM_FAILURE" then SystemFailure
    else Invalid
  }

  predicate StatusOk(m: Status) {
    && !m.kind.Invalid?
    && IsCanonicalUuid(m.attempt.session) && 0 < m.attempt.revision <= UINT64_MAX && IsCanonicalUuid(m.attempt.block)
    && 0 < m.sequence <= UINT64_MAX && IsCanonicalUuid(m.attempt.boot) && m.elapsed <= UINT64_MAX && IsReason(m.reason)
  }

  function StatusFields(m: Status): seq<string> {
    [VERSION, StatusText(m.kind), m.attempt.session, Decimal(m.attempt.revision), m.attempt.block, Decimal(m.sequence), m.attempt.boot, Decimal(m.elapsed), m.reason]
  }

  function StatusLine(m: Status): string {
    Joined(StatusFields(m)) + "\n"
  }

  /** What the fields of a line should give; the invalid status for anything not accepted. */
  function StatusOf(tokens: seq<string>): Status {
    if |tokens| != 9 || tokens[0] != VERSION then NO_STATUS
    else
      var kind, common := ParseStatusKind(tokens[1]), CommonOf(tokens);
      if kind.Invalid? || common.None? || !IsReason(tokens[8]) then NO_STATUS
      else
        var q := common.value;
        Status(kind, Attempt(q.sessionUuid, q.revisionId, q.blockUuid, q.bootUuid), q.sequence, q.elapsed, tokens[8])
  }

  ghost function ParsedStatus(wire: string): Status {
    StatusOf(LineFields(wire))
  }

  method ParseStatus(wire: string) returns (status: Status)
    ensures status == ParsedStatus(wire)
  {
    status := NO_STATUS;
    var tokens := Fields(wire);
    if |tokens| != 9 || tokens[0] != VERSION { return; }
    var kind := ParseStatusKind(tokens[1]);
    if kind.Invalid? { return; }
    var common := ParseCommon(tokens);
    if common.None? || !IsReason(tokens[8]) { return; }
    var q := common.value;
    status := Status(kind, Attempt(q.sessionUuid, q.revisionId, q.blockUuid, q.bootUuid), q.sequence, q.elapsed, tokens[8]);
  }

  /** A line is accepted as a status exactly when it is the line of a well-formed one, and then gives it. */
  lemma StatusRoundTrip(wire: string, m: Status)
    requires !m.kind.Invalid?
    ensures ParsedStatus(wire) == m <==> StatusOk(m) && wire == StatusLine(m)
  {
    hide StatusOf, StatusFields, StatusOk, IsLine;
    StatusOfSpells(LineFields(wire), m);
    if StatusOk(m) && wire == StatusLine(m) {
      StatusFieldsPlain(m);
      LineFits(StatusFields(m));
      LineFieldsOfJoined(StatusFields(m));
    }
  }

  lemma StatusTextPlain(k: Kind)
    ensures Plain(StatusText(k)) && |StatusText(k)| <= 36
  {
  }

  lemma StatusFieldsPlain(m: Status)
    requires StatusOk(m)
    ensures var ts := StatusFields(m); |ts| == 9 && forall i :: 0 <= i < |ts| ==> Plain(ts[i]) && |ts[i]| <= if i < 8 then 36 else 64
  {
    hide Decimal, IsCanonicalUuid, IsReason, StatusText, Plain;
    StatusTextPlain(m.kind);
    VersionPlain();
    UuidPlain(m.attempt.session);
    UuidPlain(m.attempt.block);
    UuidPlain(m.attempt.boot);
    Uint64Plain(m.attempt.revision);
    Uint64Plain(m.sequence);
    Uint64Plain(m.elapsed);
    ReasonPlain(m.reason);
  }

  lemma StatusOfSpells(tokens: seq<string>, m: Status)
    requires !m.kind.Invalid?
    ensures StatusOf(tokens) == m <==> StatusOk(m) && tokens == StatusFields(m)
    ensures StatusFields(m) != []
  {
    hide Decimal, IsCanonicalUuid, IsReason, StatusText;
    if |tokens| == 9 {
      assert tokens == [tokens[0], tokens[1], tokens[2], tokens[3], tokens[4], tokens[5], tokens[6], tokens[7], tokens[8]];
      assert tokens == StatusFields(m) <==>
        tokens[0] == VERSION && tokens[1] == StatusText(m.kind) && tokens[2] == m.attempt.session && tokens[3] == Decimal(m.attempt.revision)
        && tokens[4] == m.attempt.block && tokens[5] == Decimal(m.sequence) && tokens[6] == m.attempt.boot && tokens[7] == Decimal(m.elapsed)
        && tokens[8] == m.reason;
      assert ParseCanonical(tokens[3], UINT64_MAX, false) == Some(m.attempt.revision) <==> tokens[3] == Decimal(m.attempt.revision) && 0 < m.attempt.revision <= UINT64_MAX;
      assert ParseCanonical(tokens[5], UINT64_MAX, false) == Some(m.sequence) <==> tokens[5] == Decimal(m.sequence) && 0 < m.sequence <= UINT64_MAX;
      assert ParseCanonical(tokens[7], UINT64_MAX, true) == Some(m.elapsed) <==> tokens[7] == Decimal(m.elapsed) && m.elapsed <= UINT64_MAX;
    }
  }
}
