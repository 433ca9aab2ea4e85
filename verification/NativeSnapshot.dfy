/**
  The snapshot of native calls that the app writes and the helper reads
  (helper/src/telecom_guard.cpp), and the ownership test that is made on it.
*/
module NativeSnapshot {
  import opened Prelude
  import opened Wire
  import C = CallControlCodec

  datatype ObservedCall = ObservedCall(id: string, state: string, children: int, parentKnown: bool, hasParent: bool)

  datatype Snapshot = Snapshot(parsed: bool, liveCallCount: int, emergencyPresent: bool, singleCallIdentity: string, calls: seq<ObservedCall>)

  const MAXIMUM_CALLS := 16
  const MAXIMUM_SNAPSHOT_BYTES := 4096
  const MAXIMUM_AGE_MS := 2000
  const INT32_MAX: int := 0x7FFF_FFFF

  // ---------------------------------------------------------------- reading a text word by word

  predicate IsSpace(c: char) {
    c == ' ' || '\t' <= c <= '\r'
  }

  predicate IsWord(w: string) {
    w != "" && forall i :: 0 <= i < |w| ==> !IsSpace(w[i])
  }

  /** How many characters at the front are spaces; how many are not; how many are digits. */
  function Spaces(s: string): (n: nat)
    ensures n <= |s| && (n < |s| ==> !IsSpace(s[n])) && forall i :: 0 <= i < n ==> IsSpace(s[i])
  {
    if s == "" || !IsSpace(s[0]) then 0 else 1 + Spaces(s[1..])
  }

  function Letters(s: string): (n: nat)
    ensures n <= |s| && (n < |s| ==> IsSpace(s[n])) && forall i :: 0 <= i < n ==> !IsSpace(s[i])
  {
    if s == "" || IsSpace(s[0]) then 0 else 1 + Letters(s[1..])
  }

  function Digits(s: string): (n: nat)
    ensures n <= |s| && (n < |s| ==> !IsDigit(s[n])) && forall i :: 0 <= i < n ==> IsDigit(s[i])
  {
    if s == "" || !IsDigit(s[0]) then 0 else 1 + Digits(s[1..])
  }

  datatype Read<T> = Read(value: T, rest: string) | NotRead

  /** `input >> word`. */
  function ReadWord(s: string): (r: Read<string>)
    ensures r.Read? ==> IsWord(r.value) && |r.rest| < |s|
  {
    var t := s[Spaces(s)..];
    if t == "" then NotRead else Read(t[..Letters(t)], t[Letters(t)..])
  }

  /** `input >> number` for an unsigned type: the longest run of digits, a minus sign wrapping around. */
  function ReadUnsigned(s: string, max: nat): Read<nat> {
    var t := s[Spaces(s)..];
    var signed := t != "" && (t[0] == '-' || t[0] == '+');
    var u := if signed then t[1..] else t;
    var n := Digits(u);
    if n == 0 || Spelt(u[..n]) > max then NotRead
    else Read(if signed && t[0] == '-' then (max + 1 - Spelt(u[..n])) % (max + 1) else Spelt(u[..n]), u[n..])
  }

  /** `input >> number` for `int`. */
  function ReadInt(s: string): Read<int> {
    var t := s[Spaces(s)..];
    var signed := t != "" && (t[0] == '-' || t[0] == '+');
    var u := if signed then t[1..] else t;
    var n := Digits(u);
    if n == 0 then NotRead
    else
      var v := if signed && t[0] == '-' then 0 - Spelt(u[..n]) else Spelt(u[..n]);
      if -INT32_MAX - 1 <= v <= INT32_MAX then Read(v, u[n..]) else NotRead
  }

  /** The text ends a word here. */
  predicate AtEnd(rest: string) {
    rest == "" || IsSpace(rest[0])
  }

  lemma ReadsWord(w: string, rest: string)
    requires IsWord(w) && AtEnd(rest)
    ensures ReadWord(" " + w + rest) == Read(w, rest)
    ensures ReadWord(w + rest) == Read(w, rest)
  {
    hide Spaces, Letters;
    var t := w + rest;
    assert " " + w + rest == " " + t && (" " + t)[1..] == t && t[0..] == t && t[0] == w[0];
    SpacesOne(t);
    assert Spaces(t) == 0;
    assert t[..|w|] == w && t[|w|..] == rest;
    LettersExactly(t, |w|);
  }

  lemma LettersExactly(t: string, n: nat)
    requires n <= |t| && (forall i :: 0 <= i < n ==> !IsSpace(t[i])) && (n < |t| ==> IsSpace(t[n]))
    ensures Letters(t) == n
  {
    hide Letters;
  }

  /** A run of digits after a space, up to the end of the word. */
  lemma DigitRun(d: string, rest: string)
    requires d != "" && (forall i :: 0 <= i < |d| ==> IsDigit(d[i])) && AtEnd(rest)
    ensures var s := " " + d + rest;
      && Spaces(s) == 1 && s[1..] == d + rest
      && Digits(d + rest) == |d| && (d + rest)[..|d|] == d && (d + rest)[|d|..] == rest
      && (d + rest)[0] != '-' && (d + rest)[0] != '+'
  {
    hide Spaces, Digits;
    var s, t := " " + d + rest, d + rest;
    assert s == " " + t && s[1..] == t && t[0] == d[0];
    SpacesOne(t);
    assert t[..|d|] == d && t[|d|..] == rest;
    DigitsExactly(t, |d|);
  }

  lemma SpacesOne(t: string)
    requires t != "" && !IsSpace(t[0])
    ensures Spaces(" " + t) == 1
  {
    hide Spaces;
    var s := " " + t;
    assert s[0] == ' ' && s[1] == t[0];
  }

  lemma DigitsExactly(t: string, n: nat)
    requires n <= |t| && (forall i :: 0 <= i < n ==> IsDigit(t[i])) && (n < |t| ==> !IsDigit(t[n]))
    ensures Digits(t) == n
  {
    hide Digits;
  }

  lemma ReadsNumber(n: nat, max: nat, rest: string)
    requires AtEnd(rest)
    ensures n <= max ==> ReadUnsigned(" " + Decimal(n) + rest, max) == Read(n, rest)
    ensures n <= INT32_MAX ==> ReadInt(" " + Decimal(n) + rest) == Read(n, rest)
  {
    hide Decimal, Spaces, Digits, Spelt, AtEnd;
    DigitRun(Decimal(n), rest);
    SpeltDecimal(n);
  }

  // ---------------------------------------------------------------- one call

  predicate IsIdChar(c: char) {
    '0' <= c <= '9' || 'a' <= c <= 'z' || 'A' <= c <= 'Z' || c == '_' || c == '-'
  }

  predicate IsStateChar(c: char) {
    'A' <= c <= 'Z' || c == '_'
  }

  /** What the formatter lets through. */
  predicate PrintableId(id: string) {
    0 < |id| <= 64 && forall i :: 0 <= i < |id| ==> IsIdChar(id[i]) || id[i] == '@'
  }

  /** What the parser lets through. */
  predicate LegalId(id: string) {
    3 < |id| <= 64 && id[..3] == "TC@" && forall i :: 3 <= i < |id| ==> IsIdChar(id[i])
  }

  predicate LegalState(state: string) {
    0 < |state| <= 32 && forall i :: 0 <= i < |state| ==> IsStateChar(state[i])
  }

  predicate LegalCall(c: ObservedCall) {
    LegalId(c.id) && LegalState(c.state) && -1 <= c.children <= 16 && (c.hasParent ==> c.parentKnown)
  }

  function SignedDecimal(n: int): string {
    if n < 0 then "-" + Decimal(-n) else Decimal(n)
  }

  function ParentText(c: ObservedCall): string {
    if !c.parentKnown then "?" else if c.hasParent then "1" else "0"
  }

  function CallText(c: ObservedCall): string {
    c.id + ":" + (if c.state == "" then "UNKNOWN" else c.state) + ":" + SignedDecimal(c.children) + ":" + ParentText(c)
  }

  /** `token.find(':', from)`, the length of the text standing for not found. */
  function FindColon(s: string, from: nat): (i: nat)
    requires from <= |s|
    ensures from <= i <= |s| && (i < |s| ==> s[i] == ':') && forall j :: from <= j < i ==> s[j] != ':'
    decreases |s| - from
  {
    if from == |s| || s[from] == ':' then from else FindColon(s, from + 1)
  }

  /** `std::from_chars` into an int: an optional minus sign and digits, nothing left over. */
  function WholeInt(s: string): Option<int> {
    var negative := s != "" && s[0] == '-';
    var u := if negative then s[1..] else s;
    if u == "" || Digits(u) != |u| then None
    else
      var v := if negative then 0 - Spelt(u) else Spelt(u);
      if -INT32_MAX - 1 <= v <= INT32_MAX then Some(v) else None
  }

  function ParseCall(token: string): (r: Option<ObservedCall>)
    ensures r.Some? ==> LegalCall(r.value)
  {
    var a := FindColon(token, 0);
    if a == |token| then None
    else
      var b := FindColon(token, a + 1);
      if b == |token| then None
      else
        var c := FindColon(token, b + 1);
        if c == |token| then None
        else
          var id, state, children, parent := token[..a], token[a + 1..b], WholeInt(token[b + 1..c]), token[c + 1..];
          if children.None? || children.value < -1 || children.value > 16 || !LegalId(id) || !LegalState(state) then None
          else if parent != "?" && parent != "0" && parent != "1" then None
          else Some(ObservedCall(id, state, children.value, parent != "?", parent == "1"))
  }

  lemma WholeIntRoundTrip(n: int)
    requires -1 <= n <= 16
    ensures WholeInt(SignedDecimal(n)) == Some(n)
    ensures forall i :: 0 <= i < |SignedDecimal(n)| ==> SignedDecimal(n)[i] != ':' && !IsSpace(SignedDecimal(n)[i])
  {
    var m: nat := if n < 0 then -n else n;
    var d, s := Decimal(m), SignedDecimal(n);
    SpeltDecimal(m);
    assert Digits(d) == |d|;
    assert d[0] != '-' by { assert IsDigit(d[0]); }
    if n < 0 { assert s[1..] == d; }
  }

  /** The first colon after `from` is where the next part ends. */
  lemma ColonAfter(s: string, from: nat, part: string, tail: string)
    requires from <= |s| && s[from..] == part + ":" + tail
    requires forall i :: 0 <= i < |part| ==> part[i] != ':'
    ensures FindColon(s, from) == from + |part| < |s|
    ensures s[from..from + |part|] == part && s[from + |part| + 1..] == tail
  {
    forall i | 0 <= i < |part| ensures s[from + i] == part[i] { assert s[from..][i] == part[i]; }
    assert s[from..][|part|] == ':';
    assert s[from + |part|] == ':';
    assert s[from..][..|part|] == part && s[from..][|part| + 1..] == tail;
  }

  function Named(c: ObservedCall): ObservedCall {
    if c.state == "" then c.(state := "UNKNOWN") else c
  }

  predicate Solid(s: string) {
    forall i :: 0 <= i < |s| ==> s[i] != ':' && !IsSpace(s[i])
  }

  lemma LegalIdSolid(id: string)
    requires LegalId(id)
    ensures Solid(id)
  {
    assert id == id[..3] + id[3..];
    forall i | 0 <= i < |id| ensures id[i] != ':' && !IsSpace(id[i]) {
      if i < 3 { assert id[i] == id[..3][i] && id[..3][i] == "TC@"[i]; }
    }
  }

  lemma LegalStateSolid(state: string)
    requires LegalState(state)
    ensures Solid(state)
  {
  }

  /** The three colons of a token are where its four solid parts end. */
  lemma TokenParts(s: string, id: string, state: string, number: string, parent: string) returns (a: nat, b: nat, c: nat)
    requires Solid(id) && Solid(state) && Solid(number)
    requires s == id + ":" + state + ":" + number + ":" + parent
    ensures a < |s| && a == FindColon(s, 0) && s[..a] == id
    ensures b < |s| && b == FindColon(s, a + 1) && s[a + 1..b] == state
    ensures c < |s| && c == FindColon(s, b + 1) && s[b + 1..c] == number && s[c + 1..] == parent
  {
    hide FindColon;
    assert s[0..] == id + ":" + (state + ":" + number + ":" + parent);
    ColonAfter(s, 0, id, state + ":" + number + ":" + parent);
    assert state + ":" + number + ":" + parent == state + ":" + (number + ":" + parent);
    ColonAfter(s, |id| + 1, state, number + ":" + parent);
    ColonAfter(s, |id| + |state| + 2, number, parent);
    a, b, c := |id|, |id| + |state| + 1, |id| + |state| + |number| + 2;
    assert s[0..a] == s[..a];
  }

  lemma ParsesToken(token: string, a: nat, b: nat, c: nat, call: ObservedCall)
    requires a < |token| && a == FindColon(token, 0) && b < |token| && b == FindColon(token, a + 1)
    requires c < |token| && c == FindColon(token, b + 1)
    requires token[..a] == call.id && token[a + 1..b] == call.state && WholeInt(token[b + 1..c]) == Some(call.children)
    requires token[c + 1..] == ParentText(call) && LegalCall(call)
    ensures ParseCall(token) == Some(call)
  {
    hide FindColon, WholeInt, LegalId, LegalState;
  }

  lemma ParsesCall(c: ObservedCall)
    requires LegalCall(Named(c))
    ensures ParseCall(CallText(c)) == Some(Named(c)) && IsWord(CallText(c))
  {
    hide SignedDecimal, FindColon, WholeInt, LegalId, LegalState, ParseCall, Solid, IsWord, ParentText;
    var n := Named(c);
    var number, parent := SignedDecimal(n.children), ParentText(n);
    SolidParts(n);
    CallTextNamed(c);
    SolidWord(n.id, n.state, number, parent);
    var i, j, k := TokenParts(CallText(c), n.id, n.state, number, parent);
    ParsesToken(CallText(c), i, j, k, n);
  }

  lemma SolidParts(n: ObservedCall)
    requires LegalCall(n)
    ensures Solid(n.id) && Solid(n.state) && Solid(SignedDecimal(n.children)) && Solid(ParentText(n))
    ensures WholeInt(SignedDecimal(n.children)) == Some(n.children)
  {
    hide SignedDecimal, WholeInt;
    WholeIntRoundTrip(n.children);
    LegalIdSolid(n.id);
    LegalStateSolid(n.state);
  }

  lemma CallTextNamed(c: ObservedCall)
    ensures var n := Named(c); CallText(c) == n.id + ":" + n.state + ":" + SignedDecimal(n.children) + ":" + ParentText(n)
  {
    hide SignedDecimal;
  }

  lemma SolidWord(id: string, state: string, number: string, parent: string)
    requires Solid(id) && Solid(state) && Solid(number) && Solid(parent)
    ensures IsWord(id + ":" + state + ":" + number + ":" + parent)
  {
  }

  // ---------------------------------------------------------------- the whole snapshot

  function CallsText(calls: seq<ObservedCall>): string {
    if calls == [] then "" else CallsText(calls[..|calls| - 1]) + " " + CallText(calls[|calls| - 1])
  }

  function Bit(b: bool): nat {
    if b then 1 else 0
  }

  function HeaderText(s: Snapshot, boot: string, session: string, elapsed: nat, sequence: nat): string {
    "NATIVE2" + Two(boot, session) + Two(Decimal(elapsed), Decimal(sequence))
    + Two(Decimal(Bit(s.parsed)), Decimal(Bit(s.emergencyPresent))) + " " + Decimal(|s.calls|)
  }

  /** Two more items of the header. */
  function Two(a: string, b: string): string {
    " " + a + " " + b
  }

  predicate Printable(s: Snapshot) {
    |s.calls| <= MAXIMUM_CALLS && forall i :: 0 <= i < |s.calls| ==> PrintableId(s.calls[i].id)
  }

  function FormattedSnapshot(s: Snapshot, boot: string, session: string, elapsed: nat, sequence: nat): string {
    if Printable(s) then HeaderText(s, boot, session, elapsed, sequence) + CallsText(s.calls) + "\n" else ""
  }

  method FormatNativeCallSnapshot(s: Snapshot, boot: string, session: string, elapsed: nat, sequence: nat) returns (wire: string)
    ensures wire == FormattedSnapshot(s, boot, session, elapsed, sequence)
  {
    hide HeaderText, CallText, PrintableId;
    var output := HeaderText(s, boot, session, elapsed, sequence);
    if |s.calls| > MAXIMUM_CALLS { return ""; }
    var i := 0;
    while i < |s.calls|
      invariant 0 <= i <= |s.calls|
      invariant forall j :: 0 <= j < i ==> PrintableId(s.calls[j].id)
      invariant output == HeaderText(s, boot, session, elapsed, sequence) + CallsText(s.calls[..i])
    {
      var call := s.calls[i];
      if !PrintableId(call.id) { return ""; }
      output := output + " " + CallText(call);
      assert s.calls[..i + 1][..i] == s.calls[..i];
      i := i + 1;
    }
    assert s.calls[..i] == s.calls;
    return output + "\n";
  }

  datatype Header = Header(boot: string, session: string, elapsed: nat, sequence: nat, parsed: int, emergency: int, count: int)

  /** The eight items before the calls. */
  function ReadHeader(s: string): Read<Header> {
    match ReadWord(s)
    case NotRead => NotRead
    case Read(magic, s1) =>
    match ReadWord(s1)
    case NotRead => NotRead
    case Read(boot, s2) =>
    match ReadWord(s2)
    case NotRead => NotRead
    case Read(session, s3) =>
    match ReadUnsigned(s3, UINT64_MAX)
    case NotRead => NotRead
    case Read(elapsed, s4) =>
    match ReadUnsigned(s4, UINT64_MAX)
    case NotRead => NotRead
    case Read(sequence, s5) =>
    match ReadInt(s5)
    case NotRead => NotRead
    case Read(parsed, s6) =>
    match ReadInt(s6)
    case NotRead => NotRead
    case Read(emergency, s7) =>
    match ReadInt(s7)
    case NotRead => NotRead
    case Read(count, s8) =>
      if magic != "NATIVE2" then NotRead else Read(Header(boot, session, elapsed, sequence, parsed, emergency, count), s8)
  }

  predicate HeaderOk(h: Header, boot: string, session: string, now: nat) {
    && h.boot == boot && h.session == session && h.elapsed <= now && now - h.elapsed <= MAXIMUM_AGE_MS
    && h.sequence != 0 && h.parsed == 1 && (h.emergency == 0 || h.emergency == 1) && 0 <= h.count <= MAXIMUM_CALLS
  }

  function Ids(calls: seq<ObservedCall>): set<string> {
    set c | c in calls :: c.id
  }

  /** n calls, each legal and with an id of its own. */
  function ReadCalls(s: string, n: nat): Read<seq<ObservedCall>> {
    if n == 0 then Read([], s)
    else match ReadCalls(s, n - 1)
      case NotRead => NotRead
      case Read(before, s1) =>
        match ReadWord(s1)
        case NotRead => NotRead
        case Read(token, s2) =>
          var call := ParseCall(token);
          if call.None? || call.value.id in Ids(before) then NotRead else Read(before + [call.value], s2)
  }

  function SnapshotOf(calls: seq<ObservedCall>, emergency: bool): Snapshot {
    Snapshot(true, |calls|, emergency, if |calls| == 1 then calls[0].id else "", calls)
  }

  function ParsedSnapshot(wire: string, boot: string, session: string, now: nat): Option<Snapshot> {
    if |wire| > MAXIMUM_SNAPSHOT_BYTES then None
    else match ReadHeader(wire)
      case NotRead => None
      case Read(h, s) =>
        if !HeaderOk(h, boot, session, now) then None
        else match ReadCalls(s, h.count)
          case NotRead => None
          case Read(calls, rest) => if ReadWord(rest).Read? then None else Some(SnapshotOf(calls, h.emergency == 1))
  }

  method ParseNativeCallSnapshot(wire: string, boot: string, session: string, now: nat) returns (result: Option<Snapshot>)
    ensures result == ParsedSnapshot(wire, boot, session, now)
  {
    hide ReadHeader, ReadWord, ParseCall, Ids;
    if |wire| > MAXIMUM_SNAPSHOT_BYTES { return None; }
    var header := ReadHeader(wire);
    if header.NotRead? || !HeaderOk(header.value, boot, session, now) { return None; }
    var input, calls, ids := header.rest, [], {};
    NoIds();
    var i := 0;
    while i < header.value.count
      invariant 0 <= i <= header.value.count
      invariant ReadCalls(header.rest, i) == Read(calls, input)
      invariant ids == Ids(calls)
    {
      var token := ReadWord(input);
      if token.NotRead? {
        MissingCall(header.rest, i + 1, header.value.count);
        return None;
      }
      var call := ParseCall(token.value);
      if call.None? || call.value.id in ids {
        MissingCall(header.rest, i + 1, header.value.count);
        return None;
      }
      IdsNext(calls, call.value);
      ids := ids + {call.value.id};
      calls, input, i := calls + [call.value], token.rest, i + 1;
    }
    if ReadWord(input).Read? { return None; }
    return Some(SnapshotOf(calls, header.value.emergency == 1));
  }

  lemma NoIds()
    ensures Ids([]) == {}
  {
  }

  lemma IdsNext(calls: seq<ObservedCall>, c: ObservedCall)
    ensures Ids(calls + [c]) == Ids(calls) + {c.id}
  {
    forall x | x in Ids(calls) + {c.id} ensures x in Ids(calls + [c]) {
      if x in Ids(calls) {
        var d :| d in calls && d.id == x;
        assert d in calls + [c];
      } else {
        assert c in calls + [c];
      }
    }
  }

  lemma {:induction false} MissingCall(s: string, n: nat, m: nat)
    requires n <= m && ReadCalls(s, n).NotRead?
    ensures ReadCalls(s, m).NotRead?
    decreases m
  {
    hide ReadWord, ParseCall, Ids;
    if n < m { MissingCall(s, n, m - 1); }
  }

  // ---------------------------------------------------------------- the round trip

  predicate DistinctIds(calls: seq<ObservedCall>) {
    forall i, j :: 0 <= i < j < |calls| ==> calls[i].id != calls[j].id
  }

  predicate LegalSnapshot(s: Snapshot) {
    && s == SnapshotOf(s.calls, s.emergencyPresent)
    && |s.calls| <= MAXIMUM_CALLS
    && (forall i :: 0 <= i < |s.calls| ==> LegalCall(s.calls[i]))
    && DistinctIds(s.calls)
  }

  /** A call that was seen without a state is reported with the state UNKNOWN. */
  function NamedCalls(calls: seq<ObservedCall>): (r: seq<ObservedCall>)
    ensures |r| == |calls| && forall i :: 0 <= i < |r| ==> r[i] == Named(calls[i])
  {
    if calls == [] then [] else NamedCalls(calls[..|calls| - 1]) + [Named(calls[|calls| - 1])]
  }

  /** Everything but the calls is read back from the header. */
  lemma HeaderRead(s: Snapshot, boot: string, session: string, elapsed: nat, sequence: nat, rest: string)
    requires IsWord(boot) && IsWord(session) && AtEnd(rest) && |s.calls| <= MAXIMUM_CALLS
    requires elapsed <= UINT64_MAX && sequence <= UINT64_MAX
    ensures ReadHeader(HeaderText(s, boot, session, elapsed, sequence) + rest) ==
      Read(Header(boot, session, elapsed, sequence, Bit(s.parsed), Bit(s.emergencyPresent), |s.calls|), rest)
  {
    hide Decimal, ReadWord, ReadUnsigned, ReadInt, AtEnd, ReadHeader, IsWord;
    var r7 := " " + Decimal(|s.calls|) + rest;
    var r6 := " " + Decimal(Bit(s.emergencyPresent)) + r7;
    var r5 := " " + Decimal(Bit(s.parsed)) + r6;
    var r4 := " " + Decimal(sequence) + r5;
    var r3 := " " + Decimal(elapsed) + r4;
    var r2 := " " + session + r3;
    var r1 := " " + boot + r2;
    HeaderSplit(s, boot, session, elapsed, sequence, rest);
    hide HeaderText;
    SpaceEnds(r7, r6, r5, r4, r3, r2, r1);
    MagicIsWord();
    ReadsWord("NATIVE2", r1);
    ReadsWord(boot, r2);
    ReadsWord(session, r3);
    ReadsNumber(elapsed, UINT64_MAX, r4);
    ReadsNumber(sequence, UINT64_MAX, r5);
    ReadsNumber(Bit(s.parsed), UINT64_MAX, r6);
    ReadsNumber(Bit(s.emergencyPresent), UINT64_MAX, r7);
    ReadsNumber(|s.calls|, UINT64_MAX, rest);
    HeaderSteps("NATIVE2" + r1, r1, boot, r2, session, r3, elapsed, r4, sequence, r5, Bit(s.parsed), r6, Bit(s.emergencyPresent), r7, |s.calls|, rest);
  }

  lemma HeaderSplit(s: Snapshot, boot: string, session: string, elapsed: nat, sequence: nat, rest: string)
    ensures HeaderText(s, boot, session, elapsed, sequence) + rest ==
      "NATIVE2" + (" " + boot + (" " + session + (" " + Decimal(elapsed) + (" " + Decimal(sequence) + (" " + Decimal(Bit(s.parsed))
      + (" " + Decimal(Bit(s.emergencyPresent)) + (" " + Decimal(|s.calls|) + rest)))))))
  {
    hide Decimal, Two, Bit;
    var d, e, f, g, h := Decimal(elapsed), Decimal(sequence), Decimal(Bit(s.parsed)), Decimal(Bit(s.emergencyPresent)), " " + Decimal(|s.calls|) + rest;
    TwoThen(f, g, h);
    TwoThen(d, e, Two(f, g) + h);
    TwoThen(boot, session, Two(d, e) + (Two(f, g) + h));
    Regroup("NATIVE2", Two(boot, session), Two(d, e), Two(f, g), " ", Decimal(|s.calls|), rest);
  }

  lemma TwoThen(a: string, b: string, rest: string)
    ensures Two(a, b) + rest == " " + a + (" " + b + rest)
  {
  }

  lemma Regroup(a: string, b: string, c: string, d: string, e: string, f: string, rest: string)
    ensures a + b + c + d + e + f + rest == a + (b + (c + (d + (e + f + rest))))
  {
    assert a + b + c + d + e + f + rest == a + b + c + d + (e + f + rest);
    assert a + b + c + d + (e + f + rest) == a + b + c + (d + (e + f + rest));
  }

  lemma HeaderSteps(s: string, s1: string, boot: string, s2: string, session: string, s3: string, elapsed: nat, s4: string, sequence: nat, s5: string,
                    parsed: int, s6: string, emergency: int, s7: string, count: int, s8: string)
    requires ReadWord(s) == Read("NATIVE2", s1) && ReadWord(s1) == Read(boot, s2) && ReadWord(s2) == Read(session, s3)
    requires ReadUnsigned(s3, UINT64_MAX) == Read(elapsed, s4) && ReadUnsigned(s4, UINT64_MAX) == Read(sequence, s5)
    requires ReadInt(s5) == Read(parsed, s6) && ReadInt(s6) == Read(emergency, s7) && ReadInt(s7) == Read(count, s8)
    ensures ReadHeader(s) == Read(Header(boot, session, elapsed, sequence, parsed, emergency, count), s8)
  {
    hide ReadWord, ReadUnsigned, ReadInt;
  }

  lemma MagicIsWord()
    ensures IsWord("NATIVE2")
  {
  }

  lemma SpaceEnds(a: string, b: string, c: string, d: string, e: string, f: string, g: string)
    requires forall s :: s in {a, b, c, d, e, f, g} ==> s != "" && s[0] == ' '
    ensures AtEnd(a) && AtEnd(b) && AtEnd(c) && AtEnd(d) && AtEnd(e) && AtEnd(f) && AtEnd(g)
  {
  }

  lemma {:induction false} CallsRead(calls: seq<ObservedCall>, n: nat, rest: string)
    requires n <= |calls| && AtEnd(rest) && DistinctIds(calls)
    requires forall i :: 0 <= i < |calls| ==> LegalCall(Named(calls[i]))
    ensures ReadCalls(CallsText(calls[..n]) + rest, n) == Read(NamedCalls(calls[..n]), rest)
    decreases n
  {
    hide ReadWord, ParseCall, CallText, LegalCall, CallsText, ReadCalls, NamedCalls, Ids;
    if n == 0 {
      NoCalls(rest);
      assert calls[..0] == [];
    } else {
      var c := calls[n - 1];
      var tail := " " + CallText(c) + rest;
      CallsTextNext(calls, n - 1);
      assert CallsText(calls[..n]) + rest == CallsText(calls[..n - 1]) + tail;
      StartsWithSpace(tail);
      CallsRead(calls, n - 1, tail);
      ParsesCall(c);
      ReadsWord(CallText(c), rest);
      NewId(calls, n - 1);
      ReadCallsNext(CallsText(calls[..n]) + rest, n - 1, NamedCalls(calls[..n - 1]), tail, CallText(c), rest, Named(c));
    }
  }

  lemma NoCalls(rest: string)
    ensures CallsText([]) + rest == rest && NamedCalls([]) == [] && ReadCalls(rest, 0) == Read([], rest)
  {
  }

  lemma CallsTextNext(calls: seq<ObservedCall>, n: nat)
    requires n < |calls|
    ensures CallsText(calls[..n + 1]) == CallsText(calls[..n]) + " " + CallText(calls[n])
    ensures NamedCalls(calls[..n + 1]) == NamedCalls(calls[..n]) + [Named(calls[n])]
  {
    hide CallText;
    assert calls[..n + 1][..n] == calls[..n];
  }

  lemma NewId(calls: seq<ObservedCall>, n: nat)
    requires n < |calls| && DistinctIds(calls)
    ensures Named(calls[n]).id !in Ids(NamedCalls(calls[..n]))
  {
    hide NamedCalls;
    var named := NamedCalls(calls[..n]);
    forall d | d in named ensures d.id != calls[n].id {
      var i :| 0 <= i < n && named[i] == d;
      assert d.id == calls[i].id;
    }
  }

  lemma ReadCallsNext(s: string, n: nat, before: seq<ObservedCall>, s1: string, token: string, s2: string, call: ObservedCall)
    requires ReadCalls(s, n) == Read(before, s1) && ReadWord(s1) == Read(token, s2)
    requires ParseCall(token) == Some(call) && call.id !in Ids(before)
    ensures ReadCalls(s, n + 1) == Read(before + [call], s2)
  {
    hide ReadWord, ParseCall, Ids;
  }

  lemma StartsWithSpace(s: string)
    requires s != "" && s[0] == ' '
    ensures AtEnd(s)
  {
  }

  /** Far more than the boot and session ids take. */
  const MAXIMUM_NAMES := 2_300

  lemma CallLength(c: ObservedCall)
    requires LegalCall(Named(c))
    ensures |CallText(c)| <= 102
  {
    hide LegalId, LegalState;
    LengthsOf(Named(c));
    CallTextNamed(c);
  }

  lemma LengthsOf(c: ObservedCall)
    requires LegalCall(c)
    ensures |c.id| <= 64 && |c.state| <= 32 && |SignedDecimal(c.children)| <= 2 && |ParentText(c)| == 1
  {
  }

  lemma {:induction false} CallsLength(calls: seq<ObservedCall>)
    requires forall i :: 0 <= i < |calls| ==> LegalCall(Named(calls[i]))
    ensures |CallsText(calls)| <= 103 * |calls|
    decreases |calls|
  {
    hide LegalCall, CallText;
    if calls != [] {
      CallsLength(calls[..|calls| - 1]);
      CallLength(calls[|calls| - 1]);
    }
  }

  lemma HeaderLength(s: Snapshot, boot: string, session: string, elapsed: nat, sequence: nat)
    requires elapsed <= UINT64_MAX && sequence <= UINT64_MAX && |s.calls| <= MAXIMUM_CALLS
    ensures |HeaderText(s, boot, session, elapsed, sequence)| <= |boot| + |session| + 117
  {
    hide Decimal;
    C.Uint64Plain(elapsed);
    C.Uint64Plain(sequence);
    C.Uint64Plain(Bit(s.parsed));
    C.Uint64Plain(Bit(s.emergencyPresent));
    C.Uint64Plain(|s.calls|);
  }

  /** The reader's length limit is never in the way. */
  lemma SnapshotFits(s: Snapshot, boot: string, session: string, elapsed: nat, sequence: nat)
    requires |s.calls| <= MAXIMUM_CALLS && forall i :: 0 <= i < |s.calls| ==> LegalCall(Named(s.calls[i]))
    requires elapsed <= UINT64_MAX && sequence <= UINT64_MAX && |boot| + |session| <= MAXIMUM_NAMES
    ensures |FormattedSnapshot(s, boot, session, elapsed, sequence)| <= MAXIMUM_SNAPSHOT_BYTES
  {
    hide HeaderText, CallsText, LegalCall, Printable;
    HeaderLength(s, boot, session, elapsed, sequence);
    CallsLength(s.calls);
  }

  /** A fresh snapshot with distinct legal ids and legal states survives the way through the file. */
  lemma SnapshotRoundTrip(s: Snapshot, boot: string, session: string, elapsed: nat, sequence: nat, now: nat)
    requires LegalSnapshot(SnapshotOf(NamedCalls(s.calls), s.emergencyPresent)) && s.parsed
    requires IsWord(boot) && IsWord(session) && 0 < sequence <= UINT64_MAX && elapsed <= UINT64_MAX
    requires |boot| + |session| <= MAXIMUM_NAMES
    ensures ParsedSnapshot(FormattedSnapshot(s, boot, session, elapsed, sequence), boot, session, now) ==
      if elapsed <= now <= elapsed + MAXIMUM_AGE_MS then Some(SnapshotOf(NamedCalls(s.calls), s.emergencyPresent)) else None
  {
    hide ReadHeader, ReadCalls, ReadWord, HeaderText, CallsText, LegalCall;
    LegalIsPrintable(s);
    SnapshotFits(s, boot, session, elapsed, sequence);
    var rest := CallsText(s.calls) + "\n";
    CallsStart(s.calls);
    NamedDistinct(s.calls, NamedCalls(s.calls));
    assert HeaderText(s, boot, session, elapsed, sequence) + CallsText(s.calls) + "\n" == HeaderText(s, boot, session, elapsed, sequence) + rest;
    HeaderRead(s, boot, session, elapsed, sequence, rest);
    CallsRead(s.calls, |s.calls|, "\n");
    assert s.calls[..|s.calls|] == s.calls;
    NothingAfter();
  }

  lemma NothingAfter()
    ensures ReadWord("\n").NotRead?
  {
    assert Spaces("\n") == 1;
  }

  lemma CallsStart(calls: seq<ObservedCall>)
    ensures AtEnd(CallsText(calls) + "\n")
  {
    hide CallText;
    if calls != [] { CallsStart(calls[..|calls| - 1]); }
    if |calls| == 1 { assert CallsText(calls[..0]) == ""; }
    if |calls| > 1 { assert CallsText(calls[..|calls| - 1]) != ""; }
  }

  lemma NamedDistinct(calls: seq<ObservedCall>, named: seq<ObservedCall>)
    requires |named| == |calls| && forall i :: 0 <= i < |named| ==> named[i] == Named(calls[i])
    requires DistinctIds(named) && forall i :: 0 <= i < |named| ==> LegalCall(named[i])
    ensures DistinctIds(calls) && forall i :: 0 <= i < |calls| ==> LegalCall(Named(calls[i]))
  {
    hide LegalCall;
    forall i, j | 0 <= i < j < |calls| ensures calls[i].id != calls[j].id {
      assert named[i].id != named[j].id;
    }
    forall i | 0 <= i < |calls| ensures LegalCall(Named(calls[i])) { assert LegalCall(named[i]); }
  }

  lemma LegalIsPrintable(s: Snapshot)
    requires |NamedCalls(s.calls)| <= MAXIMUM_CALLS && forall i :: 0 <= i < |s.calls| ==> LegalCall(NamedCalls(s.calls)[i])
    ensures Printable(s)
  {
    forall i | 0 <= i < |s.calls| ensures PrintableId(s.calls[i].id) {
      var id := s.calls[i].id;
      assert LegalCall(NamedCalls(s.calls)[i]);
      assert id == "TC@" + id[3..];
    }
  }

  /** Whatever is accepted is legal and fresh, so writing it out again and reading it gives it back. */
  lemma AcceptedIsLegal(wire: string, boot: string, session: string, now: nat)
    requires ParsedSnapshot(wire, boot, session, now).Some?
    ensures LegalSnapshot(ParsedSnapshot(wire, boot, session, now).value)
  {
    hide ReadWord, ParseCall, ReadHeader, LegalCall;
    var header := ReadHeader(wire);
    ReadCallsLegal(header.rest, header.value.count);
  }

  lemma {:induction false} ReadCallsLegal(s: string, n: nat)
    requires ReadCalls(s, n).Read?
    ensures var calls := ReadCalls(s, n).value;
      |calls| == n && DistinctIds(calls) && forall i :: 0 <= i < n ==> LegalCall(calls[i])
    decreases n
  {
    hide ReadWord, ParseCall, LegalCall;
    if n > 0 {
      ReadCallsLegal(s, n - 1);
      var before := ReadCalls(s, n - 1).value;
      forall i | 0 <= i < n - 1 ensures before[i].id in Ids(before) {}
    }
  }

  // ---------------------------------------------------------------- ownership

  datatype Owned = Owned(caller: string, operatorCall: string, conference: string)

  predicate IsLiveState(s: string) {
    s == "NEW" || s == "CONNECTING" || s == "SELECT_PHONE_ACCOUNT" || s == "DIALING" || s == "RINGING" || s == "ANSWERED"
    || s == "ACTIVE" || s == "ON_HOLD" || s == "HOLDING"
  }

  predicate IsOwned(id: string, o: Owned) {
    id == o.caller || (o.operatorCall != "" && id == o.operatorCall) || (o.conference != "" && id == o.conference)
  }

  predicate OwnedCall(c: ObservedCall, o: Owned) {
    c.id != "" && IsOwned(c.id, o) && (IsLiveState(c.state) || c.state == "DISCONNECTING" || c.state == "DISCONNECTED")
  }

  predicate OnlyOwned(s: Snapshot, o: Owned) {
    && s.parsed && !s.emergencyPresent && s.calls != [] && |s.calls| == s.liveCallCount && o.caller != ""
    && DistinctIds(s.calls)
    && forall i :: 0 <= i < |s.calls| ==> OwnedCall(s.calls[i], o)
  }

  method ContainsOnlyOwnedCalls(s: Snapshot, o: Owned) returns (r: bool)
    ensures r == OnlyOwned(s, o)
  {
    if !s.parsed || s.emergencyPresent || s.calls == [] || |s.calls| != s.liveCallCount || o.caller == "" { return false; }
    var seen := {};
    var i := 0;
    while i < |s.calls|
      invariant 0 <= i <= |s.calls|
      invariant seen == Ids(s.calls[..i]) && DistinctIds(s.calls[..i])
      invariant forall j :: 0 <= j < i ==> OwnedCall(s.calls[j], o)
    {
      var call := s.calls[i];
      if call.id == "" { return false; }
      if call.id in seen {
        var d :| d in s.calls[..i] && d.id == call.id;
        return false;
      }
      if !IsOwned(call.id, o) || (!IsLiveState(call.state) && call.state != "DISCONNECTING" && call.state != "DISCONNECTED") { return false; }
      IdsNext(s.calls[..i], call);
      assert s.calls[..i + 1] == s.calls[..i] + [call];
      forall j | 0 <= j < i ensures s.calls[j].id != call.id { assert s.calls[j] in s.calls[..i]; }
      seen := seen + {call.id};
      i := i + 1;
    }
    assert s.calls[..i] == s.calls;
    return true;
  }

  predicate ConferenceShape(c: ObservedCall, o: Owned) {
    && c.parentKnown && IsLiveState(c.state)
    && if c.id == o.conference then !c.hasParent && c.children == 2 && c.state == "ACTIVE"
       else c.hasParent && c.children == 0 && (c.state == "ACTIVE" || c.state == "ON_HOLD" || c.state == "HOLDING")
  }

  /** Exactly the two owned legs under one parent call. */
  predicate MatchesConference(s: Snapshot, o: Owned) {
    && o.caller != o.operatorCall && o.caller != o.conference && o.operatorCall != o.conference
    && o.operatorCall != "" && o.conference != "" && |s.calls| == 3 && OnlyOwned(s, o)
    && forall i :: 0 <= i < |s.calls| ==> ConferenceShape(s.calls[i], o)
  }

  /** A matching conference is made of the caller, the operator and the conference, each once, and the
      conference is the one call with children. */
  lemma ConferenceIsTheParent(s: Snapshot, o: Owned)
    requires MatchesConference(s, o)
    ensures Ids(s.calls) == {o.caller, o.operatorCall, o.conference}
    ensures forall i :: 0 <= i < 3 ==> (s.calls[i].children == 2 <==> s.calls[i].id == o.conference)
  {
    assert s.calls == [s.calls[0], s.calls[1], s.calls[2]];
    forall i | 0 <= i < 3 ensures s.calls[i].id in {o.caller, o.operatorCall, o.conference} && ConferenceShape(s.calls[i], o) {
      assert OwnedCall(s.calls[i], o);
    }
    assert Ids(s.calls) == {s.calls[0].id, s.calls[1].id, s.calls[2].id};
  }

  lemma ConferenceIsCall(s: Snapshot, o: Owned)
    requires MatchesConference(s, o)
    ensures exists i :: 0 <= i < |s.calls| && s.calls[i].id == o.conference
    ensures o.conference != o.caller && o.conference != o.operatorCall
  {
    ConferenceIsTheParent(s, o);
    assert o.conference in Ids(s.calls);
  }

  /** The parent of two known legs is determined by the snapshot. */
  lemma OneConference(s: Snapshot, o: Owned, p: Owned)
    requires MatchesConference(s, o) && MatchesConference(s, p) && o.caller == p.caller && o.operatorCall == p.operatorCall
    ensures o == p
  {
    ConferenceIsTheParent(s, o);
    ConferenceIsTheParent(s, p);
    assert o.conference in Ids(s.calls);
  }

  /** The conference is found exactly when some call of the snapshot makes the two owned legs a conference. */
  method ResolveOwnedConference(s: Snapshot, owned: Owned) returns (ok: bool, result: Owned)
    ensures ok <==> owned.caller != "" && owned.operatorCall != "" && owned.conference == ""
                    && exists id :: MatchesConference(s, owned.(conference := id))
    ensures ok ==> result == owned.(conference := result.conference) && MatchesConference(s, result)
    ensures !ok ==> result == owned
  {
    ok, result := false, owned;
    forall id | MatchesConference(s, owned.(conference := id)) ensures id != owned.caller && id != owned.operatorCall && exists i :: 0 <= i < |s.calls| && s.calls[i].id == id {
      ConferenceIsCall(s, owned.(conference := id));
    }
    hide MatchesConference;
    if owned.caller == "" || owned.operatorCall == "" || owned.conference != "" { return; }
    var i := 0;
    while i < |s.calls|
      invariant 0 <= i <= |s.calls|
      invariant forall j :: 0 <= j < i ==> !MatchesConference(s, owned.(conference := s.calls[j].id))
    {
      var id := s.calls[i].id;
      if id != owned.caller && id != owned.operatorCall {
        var candidate := owned.(conference := id);
        if MatchesConference(s, candidate) { return true, candidate; }
      }
      i := i + 1;
    }
  }
}
