/**
  Call-event receipts of server/app/call_history.py and the two upload handlers of
  server/app/main.py, for one call of one device.
*/
module CallHistory {
  import opened Prelude

  /** `event_identity`: a digest of the whole document with its time normalised.  Whether the document
      reports a failed external call is part of what is digested. */
  datatype Identity = Identity(digest: nat, failure: bool)

  /** `occurredAt` is the text of the time, as its place in text order: one instant can be spelt in
      several ways, and the spelling is not part of the identity. */
  datatype Document = Document(occurredAt: nat, identity: Identity)

  datatype Receipt = Receipt(document: Document, claimed: bool)

  datatype Outcome = InProgress | EndDetailsUnavailable | Real(code: string)

  /** The session audit report a call may carry; a disabled one says only that there is no audio. */
  datatype Audit = Audit(content: nat, disabled: bool)

  datatype CallRecord = CallRecord(policy: string, result: Outcome, audit: Option<Audit>, events: seq<Document>, terminalScheduled: bool)

  type Receipts = map<Identity, Receipt>

  /** The parent record, once there is one, and the receipts, which do not wait for it. */
  datatype State = State(record: Option<CallRecord>, receipts: Receipts)

  datatype Key = IvrSessionFailed | IvrSessionCompleted | StockDialerRouting

  datatype Notification = TerminalNotice(key: Key) | FailureNotice(document: Document)

  // ---------------------------------------------------------------- the sorted list of events

  /** The order of the sort key (occurred_at, event_identity). */
  predicate Before(a: Document, b: Document) {
    || a.occurredAt < b.occurredAt
    || (a.occurredAt == b.occurredAt && a.identity.digest < b.identity.digest)
    || (a.occurredAt == b.occurredAt && a.identity.digest == b.identity.digest && !a.identity.failure && b.identity.failure)
  }

  ghost predicate Ascending(s: seq<Document>) {
    forall i, j :: 0 <= i < j < |s| ==> Before(s[i], s[j])
  }

  /** s lists exactly the given documents, each once, in order. */
  ghost predicate Lists(s: seq<Document>, d: set<Document>) {
    Ascending(s) && forall x :: x in s <==> x in d
  }

  /** There is only one such list. */
  lemma {:induction false} OneListing(a: seq<Document>, b: seq<Document>, d: set<Document>)
    requires Lists(a, d) && Lists(b, d)
    ensures a == b
    decreases |a|
  {
    assert (a != [] ==> a[0] in d) && (b != [] ==> b[0] in d);
    if a != [] {
      assert a[0] in b && b[0] in a;
      assert a[0] == b[0];
      var rest := d - {a[0]};
      assert Lists(a[1..], rest) by { forall x ensures x in a[1..] <==> x in rest { TailMember(a, x); } }
      assert Lists(b[1..], rest) by { forall x ensures x in b[1..] <==> x in rest { TailMember(b, x); } }
      OneListing(a[1..], b[1..], rest);
    }
  }

  lemma TailMember(a: seq<Document>, x: Document)
    requires a != [] && Ascending(a)
    ensures x in a[1..] <==> x in a && x != a[0]
  {
    if x in a[1..] {
      var i :| 0 <= i < |a[1..]| && a[1..][i] == x;
      assert Before(a[0], a[i + 1]);
    }
  }

  /** Where x belongs in an ascending list. */
  ghost function Inserted(x: Document, s: seq<Document>): (r: seq<Document>) {
    if s == [] then [x]
    else if Before(s[0], x) then [s[0]] + Inserted(x, s[1..])
    else [x] + s
  }

  lemma {:induction false} InsertedLists(x: Document, s: seq<Document>, d: set<Document>)
    requires Lists(s, d) && x !in d
    ensures Lists(Inserted(x, s), d + {x})
    decreases |s|
  {
    if s != [] && Before(s[0], x) {
      var rest := d - {s[0]};
      assert Lists(s[1..], rest) by { forall y ensures y in s[1..] <==> y in rest { TailMember(s, y); } }
      InsertedLists(x, s[1..], rest);
      var r := Inserted(x, s[1..]);
      forall i | 0 <= i < |r| ensures Before(s[0], r[i]) {
        assert r[i] in rest + {x};
        if r[i] != x {
          assert r[i] in s[1..];
        }
      }
      assert Inserted(x, s) == [s[0]] + r;
    } else if s != [] {
      forall i | 0 <= i < |s| ensures Before(x, s[i]) {
        assert s[i] in d && s[0] in d && (i == 0 || Before(s[0], s[i]));
      }
    }
  }

  ghost function Listing(d: set<Document>): (s: seq<Document>)
    ensures Lists(s, d)
  {
    if d == {} then []
    else
      var x :| x in d;
      var rest := Listing(d - {x});
      InsertedLists(x, rest, d - {x});
      assert d - {x} + {x} == d;
      Inserted(x, rest)
  }

  /** Sorting the documents on hand. */
  method Sorted(d: set<Document>) returns (s: seq<Document>)
    ensures s == Listing(d)
  {
    s := [];
    var rest, done := d, {};
    while rest != {}
      invariant rest + done == d && rest !! done && Lists(s, done)
      decreases |rest|
    {
      var x :| x in rest;
      s := InsertDocument(x, s, done);
      rest, done := rest - {x}, done + {x};
    }
    OneListing(s, Listing(d), d);
  }

  method InsertDocument(x: Document, s: seq<Document>, ghost d: set<Document>) returns (r: seq<Document>)
    requires Lists(s, d) && x !in d
    ensures Lists(r, d + {x})
  {
    var i := 0;
    while i < |s| && Before(s[i], x)
      invariant 0 <= i <= |s|
      invariant forall j :: 0 <= j < i ==> Before(s[j], x)
    {
      i := i + 1;
    }
    forall j | i <= j < |s| ensures Before(x, s[j]) {
      assert s[i] in d && s[j] in d && (i == j || Before(s[i], s[j]));
    }
    r := s[..i] + [x] + s[i..];
    forall y ensures y in r <==> y in d + {x} {
      assert s == s[..i] + s[i..];
    }
  }

  // ---------------------------------------------------------------- one upload, as a step on values

  /** Receipts for the documents whose identity has none yet; the first of an identity is kept. */
  function Receive(receipts: Receipts, documents: seq<Document>, claimed: bool): Receipts {
    if documents == [] then receipts
    else
      var d := documents[|documents| - 1];
      var before := Receive(receipts, documents[..|documents| - 1], claimed);
      if d.identity in before then before else before[d.identity := Receipt(d, claimed)]
  }

  function Stored(receipts: Receipts): set<Document> {
    set k | k in receipts :: receipts[k].document
  }

  predicate Final(o: Outcome) {
    o.Real?
  }

  function Seeded(s: State): Receipts {
    if s.record.Some? then Receive(s.receipts, s.record.value.events, s.record.value.result != InProgress) else s.receipts
  }

  ghost function Merge(s: State, documents: seq<Document>): State {
    var receipts := Receive(Seeded(s), documents, false);
    State(if s.record.Some? then Some(s.record.value.(events := Listing(Stored(receipts)))) else None, receipts)
  }

  function Pending(receipts: Receipts): set<Identity> {
    set k | k in receipts && !receipts[k].claimed
  }

  function AllClaimed(receipts: Receipts): Receipts {
    map k | k in receipts :: receipts[k].(claimed := true)
  }

  ghost function FailureNotices(receipts: Receipts): multiset<Notification> {
    multiset(set k | k in receipts && !receipts[k].claimed && k.failure :: FailureNotice(receipts[k].document))
  }

  predicate IsFailure(code: string) {
    code in {"HELPER_BUSY", "HELPER_CLAIM_TIMEOUT", "HELPER_REQUEST_FAILED", "ANSWER_PERMISSION_MISSING", "FAILED_RESTORE",
             "FAILED_AUDIO", "FAILED_CAPTURE", "FAILED_END_CALL", "REJECTED_REQUEST", "REJECTED_BUSY", "REVISION_REJECTED",
             "INCOMPATIBLE_DEVICE", "RECOVERY_HANGUP_SKIPPED"}
  }

  predicate IsCompletion(code: string) {
    code in {"SESSION_COMPLETE", "REMOTE_HANGUP", "RECOVERED_AND_ENDED"}
  }

  predicate StaysWithDialer(policy: string) {
    policy in {"NOT_ALLOWLISTED", "IVR_DISABLED", "EXCLUDED_CALLER", "UNKNOWN_TO_STOCK_DIALER", "LOCAL_KILL_SWITCH",
               "NO_ACTIVE_CONFIGURATION", "INVALID_POLICY"}
  }

  /** Which notices a really ended call is worth. */
  predicate Worth(policy: string, code: string, key: Key) {
    match key
    case IvrSessionFailed => IsFailure(code)
    case IvrSessionCompleted => IsCompletion(code)
    case StockDialerRouting => code == STOCK_DIALER || (StaysWithDialer(policy) && !IsFailure(code) && !IsCompletion(code))
  }

  const STOCK_DIALER := "STOCK_DIALER"

  /** `classify_call_notifications` without events. */
  method ClassifyCall(policy: string, code: string) returns (notices: seq<Notification>)
    ensures forall k :: multiset(notices)[TerminalNotice(k)] == if Worth(policy, code, k) then 1 else 0
    ensures forall d :: multiset(notices)[FailureNotice(d)] == 0
  {
    hide IsFailure, IsCompletion, StaysWithDialer;
    notices := [];
    if IsFailure(code) { notices := notices + [TerminalNotice(IvrSessionFailed)]; }
    if IsCompletion(code) { notices := notices + [TerminalNotice(IvrSessionCompleted)]; }
    if code == STOCK_DIALER || (StaysWithDialer(policy) && !IsFailure(code) && !IsCompletion(code)) {
      notices := notices + [TerminalNotice(StockDialerRouting)];
    }
  }

  function Keys(policy: string, code: string): set<Key> {
    (if IsFailure(code) then {IvrSessionFailed} else {}) + (if IsCompletion(code) then {IvrSessionCompleted} else {})
    + (if Worth(policy, code, StockDialerRouting) then {StockDialerRouting} else {})
  }

  ghost function TerminalNotices(call: CallRecord): multiset<Notification> {
    if call.terminalScheduled || !Final(call.result) then multiset{}
    else multiset(set k | k in Keys(call.policy, call.result.code) :: TerminalNotice(k))
  }

  lemma TerminalNoticesAre(call: CallRecord)
    requires !call.terminalScheduled && Final(call.result)
    ensures forall k :: TerminalNotices(call)[TerminalNotice(k)] == if Worth(call.policy, call.result.code, k) then 1 else 0
    ensures forall d :: TerminalNotices(call)[FailureNotice(d)] == 0
  {
    hide IsFailure, IsCompletion, StaysWithDialer;
    var all := set k | k in Keys(call.policy, call.result.code) :: TerminalNotice(k);
    forall k ensures TerminalNotice(k) in all <==> Worth(call.policy, call.result.code, k) {}
  }

  ghost function Claim(s: State): State {
    if s.record.None? || !Final(s.record.value.result) then s
    else State(Some(s.record.value.(terminalScheduled := true)), AllClaimed(s.receipts))
  }

  ghost function Claims(s: State): multiset<Notification> {
    if s.record.None? || !Final(s.record.value.result) then multiset{}
    else TerminalNotices(s.record.value) + FailureNotices(s.receipts)
  }

  /** The report of a call; `allowed` is whether its device and policy may send audit audio. */
  datatype Report = Report(policy: string, result: Outcome, audit: Option<Audit>, allowed: bool)

  datatype Action = EventBatch(documents: seq<Document>) | CallReport(report: Report, documents: seq<Document>)

  /** `validate_call_report`. */
  predicate AuditOk(r: Report, result: Outcome) {
    r.audit.None? || r.audit.value.disabled || (r.allowed && result != Real(STOCK_DIALER))
  }

  /** The result a report leaves on the record. */
  function Taken(recorded: Outcome, reported: Outcome): Outcome {
    if !Final(recorded) && reported != InProgress then reported else recorded
  }

  /** The uploads that are answered with an error, so that nothing of them is kept. */
  predicate Refused(s: State, a: Action) {
    && a.CallReport?
    && (|| !AuditOk(a.report, a.report.result)
        || (&& s.record.Some? && a.report.audit.Some?
            && if s.record.value.audit.None? then !AuditOk(a.report, Taken(s.record.value.result, a.report.result))
               else s.record.value.audit != a.report.audit))
  }

  function Opening(r: Report): CallRecord {
    CallRecord(r.policy, r.result, r.audit, [], false)
  }

  /** The state in which an accepted upload claims: its documents merged, its result taken if the
      recorded one is not real, its audit report taken if there is none yet. */
  ghost function Absorbed(s: State, a: Action): State {
    match a
    case EventBatch(documents) => Merge(s, documents)
    case CallReport(report, documents) =>
      if s.record.None? then Merge(s.(record := Some(Opening(report))), documents)
      else
        var t := Merge(s, documents);
        var call := t.record.value;
        t.(record := Some(call.(result := Taken(call.result, report.result), audit := if call.audit.None? then report.audit else call.audit)))
  }

  ghost function After(s: State, a: Action): State {
    if Refused(s, a) then s else Claim(Absorbed(s, a))
  }

  ghost function Sent(s: State, a: Action): multiset<Notification> {
    if Refused(s, a) then multiset{} else Claims(Absorbed(s, a))
  }

  // ---------------------------------------------------------------- the handlers

  class CallStore {
    var record: Option<CallRecord>
    var receipts: Receipts

    ghost function View(): State
      reads this
    {
      State(record, receipts)
    }

    constructor ()
      ensures View() == State(None, map[])
    {
      record, receipts := None, map[];
    }

    method Seed(documents: seq<Document>, claimed: bool)
      modifies this`receipts
      ensures receipts == Receive(old(receipts), documents, claimed)
    {
      var i := 0;
      while i < |documents|
        invariant 0 <= i <= |documents|
        invariant receipts == Receive(old(receipts), documents[..i], claimed)
      {
        assert documents[..i + 1][..i] == documents[..i];
        if documents[i].identity !in receipts {
          receipts := receipts[documents[i].identity := Receipt(documents[i], claimed)];
        }
        i := i + 1;
      }
      assert documents[..i] == documents;
    }

    /** `merge_events`. */
    method MergeEvents(documents: seq<Document>)
      modifies this
      ensures View() == Merge(old(View()), documents)
    {
      if record.Some? { Seed(record.value.events, record.value.result != InProgress); }
      Seed(documents, false);
      if record.Some? {
        var events := Sorted(Stored(receipts));
        record := Some(record.value.(events := events));
      }
    }

    /** `claim_notifications`. */
    method ClaimNotifications() returns (notices: seq<Notification>)
      requires record.Some? && KeptByIdentity(receipts)
      modifies this
      ensures View() == Claim(old(View())) && multiset(notices) == Claims(old(View()))
    {
      notices := [];
      var call := record.value;
      if call.result == InProgress || call.result == EndDetailsUnavailable { return; }
      if !call.terminalScheduled {
        notices := ClassifyCall(call.policy, call.result.code);
        SameTerminalNotices(call, multiset(notices));
        record := Some(call.(terminalScheduled := true));
      }
      var failures := ClaimReceipts();
      ghost var terminal := notices;
      notices := notices + failures;
      assert multiset(terminal) == TerminalNotices(call);
    }

    /** The loop over the receipts not yet claimed, in whatever order the query lists them. */
    method ClaimReceipts() returns (notices: seq<Notification>)
      requires KeptByIdentity(receipts)
      modifies this`receipts
      ensures receipts == AllClaimed(old(receipts)) && multiset(notices) == FailureNotices(old(receipts))
    {
      notices := [];
      var rest := Pending(receipts);
      while rest != {}
        invariant rest <= Pending(old(receipts))
        invariant receipts == ClaimedExcept(old(receipts), rest)
        invariant multiset(notices) == NoticesExcept(old(receipts), rest)
        decreases |rest|
      {
        var k :| k in rest;
        NoticesStep(old(receipts), rest, k);
        ClaimedStep(old(receipts), rest, k);
        if k.failure { notices := notices + [FailureNotice(receipts[k].document)]; }
        receipts, rest := receipts[k := receipts[k].(claimed := true)], rest - {k};
      }
    }

    /** `upload_call_events`: events may arrive before or after their call. */
    method UploadCallEvents(documents: seq<Document>) returns (notices: seq<Notification>)
      requires KeptByIdentity(receipts)
      modifies this
      ensures View() == After(old(View()), EventBatch(documents))
      ensures multiset(notices) == Sent(old(View()), EventBatch(documents))
    {
      MergeEvents(documents);
      MergeKeepsFiling(old(View()), documents);
      notices := [];
      if record.Some? { notices := ClaimNotifications(); }
    }

    /** `upload_events`: the report of the call itself; a real result is never replaced, and an error
        leaves everything as it was. */
    method UploadEvents(report: Report, documents: seq<Document>) returns (accepted: bool, notices: seq<Notification>)
      requires KeptByIdentity(receipts)
      modifies this
      ensures accepted == !Refused(old(View()), CallReport(report, documents))
      ensures View() == After(old(View()), CallReport(report, documents))
      ensures multiset(notices) == Sent(old(View()), CallReport(report, documents))
    {
      hide Listing, Receive, Seeded, AuditOk, KeptByIdentity, Claims, Claim;
      if !AuditOk(report, report.result) { return false, []; }
      var committedRecord, committedReceipts := record, receipts;
      if record.Some? {
        MergeEvents(documents);
        MergeKeepsFiling(old(View()), documents);
        if (record.value.result == InProgress || record.value.result == EndDetailsUnavailable) && report.result != InProgress {
          record := Some(record.value.(result := report.result));
        }
        if report.audit.Some? && record.value.audit.None? {
          if !AuditOk(report, record.value.result) {
            record, receipts := committedRecord, committedReceipts;
            return false, [];
          }
          record := Some(record.value.(audit := report.audit));
        } else if report.audit.Some? && record.value.audit != report.audit {
          record, receipts := committedRecord, committedReceipts;
          return false, [];
        }
      } else {
        record := Some(CallRecord(report.policy, report.result, report.audit, [], false));
        ghost var opening := View();
        MergeEvents(documents);
        MergeKeepsFiling(opening, documents);
      }
      notices := ClaimNotifications();
      return true, notices;
    }
  }

  lemma SameTerminalNotices(call: CallRecord, notices: multiset<Notification>)
    requires !call.terminalScheduled && Final(call.result)
    requires forall k :: notices[TerminalNotice(k)] == if Worth(call.policy, call.result.code, k) then 1 else 0
    requires forall d :: notices[FailureNotice(d)] == 0
    ensures notices == TerminalNotices(call)
  {
    hide Worth, TerminalNotices;
    TerminalNoticesAre(call);
    forall x ensures notices[x] == TerminalNotices(call)[x] {
      match x
      case TerminalNotice(k) =>
      case FailureNotice(d) =>
    }
  }

  function ClaimedExcept(receipts: Receipts, rest: set<Identity>): Receipts {
    map k | k in receipts :: if k in rest then receipts[k] else receipts[k].(claimed := true)
  }

  ghost function NoticesExcept(receipts: Receipts, rest: set<Identity>): multiset<Notification> {
    multiset(set k | k in receipts && !receipts[k].claimed && k.failure && k !in rest :: FailureNotice(receipts[k].document))
  }

  lemma ClaimedStep(receipts: Receipts, rest: set<Identity>, k: Identity)
    requires k in rest && k in receipts
    ensures ClaimedExcept(receipts, rest)[k := receipts[k].(claimed := true)] == ClaimedExcept(receipts, rest - {k})
  {
  }

  lemma NoticesStep(receipts: Receipts, rest: set<Identity>, k: Identity)
    requires KeptByIdentity(receipts) && k in rest && rest <= Pending(receipts)
    ensures NoticesExcept(receipts, rest - {k}) ==
            NoticesExcept(receipts, rest) + if k.failure then multiset{FailureNotice(receipts[k].document)} else multiset{}
  {
    var a := set j | j in receipts && !receipts[j].claimed && j.failure && j !in rest :: FailureNotice(receipts[j].document);
    var b := set j | j in receipts && !receipts[j].claimed && j.failure && j !in rest - {k} :: FailureNotice(receipts[j].document);
    var n := FailureNotice(receipts[k].document);
    assert n !in a;
    assert b == if k.failure then a + {n} else a;
  }

  // ---------------------------------------------------------------- what a receipt says

  /** Every receipt is filed under its own document's identity. */
  ghost predicate KeptByIdentity(receipts: Receipts) {
    forall k :: k in receipts ==> receipts[k].document.identity == k
  }

  function Identities(documents: seq<Document>): set<Identity> {
    set d | d in documents :: d.identity
  }

  function SetOf(documents: seq<Document>): set<Document> {
    set d | d in documents
  }

  lemma {:induction false} Receiving(receipts: Receipts, documents: seq<Document>, claimed: bool)
    ensures var r := Receive(receipts, documents, claimed);
            && r.Keys == receipts.Keys + Identities(documents)
            && (forall k :: k in receipts ==> r[k] == receipts[k])
            && (forall k :: k in r && k !in receipts ==> r[k].claimed == claimed && r[k].document in documents && r[k].document.identity == k)
    decreases |documents|
  {
    if documents != [] {
      var n := |documents| - 1;
      Receiving(receipts, documents[..n], claimed);
      assert documents == documents[..n] + [documents[n]];
      assert Identities(documents) == Identities(documents[..n]) + {documents[n].identity};
    } else {
      assert Identities(documents) == {};
    }
  }

  lemma MergeKeepsFiling(s: State, documents: seq<Document>)
    requires KeptByIdentity(s.receipts)
    ensures KeptByIdentity(Merge(s, documents).receipts)
  {
    if s.record.Some? { Receiving(s.receipts, s.record.value.events, s.record.value.result != InProgress); }
    Receiving(Seeded(s), documents, false);
  }

  // ---------------------------------------------------------------- runs

  const UNHEARD := State(None, map[])

  /** Uploads in any order, any of them repeated. */
  ghost function RunFrom(s: State, actions: seq<Action>): State {
    if actions == [] then s
    else After(RunFrom(s, actions[..|actions| - 1]), actions[|actions| - 1])
  }

  /** The same for a call nobody has heard of. */
  ghost function Run(actions: seq<Action>): State {
    RunFrom(UNHEARD, actions)
  }

  /** Everything the accepted uploads carried, in order of arrival. */
  ghost function Delivered(actions: seq<Action>): seq<Document> {
    if actions == [] then []
    else
      var front, last := actions[..|actions| - 1], actions[|actions| - 1];
      if Refused(Run(front), last) then Delivered(front) else Delivered(front) + last.documents
  }

  /** Some report of the call was accepted. */
  ghost predicate Reported(actions: seq<Action>) {
    actions != [] &&
    var front, last := actions[..|actions| - 1], actions[|actions| - 1];
    Reported(front) || (last.CallReport? && !Refused(Run(front), last))
  }

  predicate Ended(s: State) {
    s.record.Some? && Final(s.record.value.result)
  }

  /** The record lists exactly the receipts, and claims begin when the call has really ended. */
  ghost predicate Inv(s: State) {
    && KeptByIdentity(s.receipts)
    && (s.record.Some? ==> Lists(s.record.value.events, Stored(s.receipts)) && s.record.value.terminalScheduled == Ended(s))
    && forall k :: k in s.receipts ==> s.receipts[k].claimed == Ended(s)
  }

  lemma SeedingIsIdle(s: State)
    requires Inv(s)
    ensures Seeded(s) == s.receipts
  {
    if s.record.Some? {
      var events := s.record.value.events;
      Receiving(s.receipts, events, s.record.value.result != InProgress);
      forall k | k in Identities(events) ensures k in s.receipts {
        var d :| d in events && d.identity == k;
        assert d in Stored(s.receipts);
      }
    }
  }

  /** The state that claims lists its receipts; those it had before are as they were. */
  lemma Absorbing(s: State, a: Action)
    requires Inv(s)
    ensures var t := Absorbed(s, a);
            && t.receipts == Receive(s.receipts, a.documents, false)
            && KeptByIdentity(t.receipts)
            && t.record.Some? == (s.record.Some? || a.CallReport?)
            && (t.record.Some? ==>
                  && Lists(t.record.value.events, Stored(t.receipts))
                  && t.record.value.terminalScheduled == Ended(s))
            && (Ended(s) ==> Ended(t) && t.record.value.result == s.record.value.result)
            && (s.record.Some? ==> t.record.value.policy == s.record.value.policy)
  {
    hide Listing;
    SeedingIsIdle(s);
    Receiving(s.receipts, a.documents, false);
    if a.CallReport? && s.record.None? {
      assert Receive(s.receipts, Opening(a.report).events, a.report.result != InProgress) == s.receipts;
    }
  }

  lemma ClaimedStored(receipts: Receipts)
    ensures Stored(AllClaimed(receipts)) == Stored(receipts)
  {
    forall d | d in Stored(receipts) ensures d in Stored(AllClaimed(receipts)) {
      var k :| k in receipts && receipts[k].document == d;
      assert AllClaimed(receipts)[k].document == d;
    }
    forall d | d in Stored(AllClaimed(receipts)) ensures d in Stored(receipts) {
      var k :| k in AllClaimed(receipts) && AllClaimed(receipts)[k].document == d;
      assert receipts[k].document == d;
    }
  }

  /** The documents the receipts hold, whatever has been claimed. */
  function Documents(receipts: Receipts): map<Identity, Document> {
    map k | k in receipts :: receipts[k].document
  }

  /** One upload: the receipts grow by its documents if it is accepted, and a real result stays. */
  lemma StepKeeps(s: State, a: Action)
    requires Inv(s)
    ensures var t := After(s, a);
            && Inv(t)
            && Documents(t.receipts) == Documents(if Refused(s, a) then s.receipts else Receive(s.receipts, a.documents, false))
            && t.record.Some? == (s.record.Some? || (a.CallReport? && !Refused(s, a)))
            && (Ended(s) ==> Ended(t) && t.record.value.result == s.record.value.result)
            && (s.record.Some? ==> t.record.value.policy == s.record.value.policy)
  {
    hide Listing, Receive, Absorbed;
    Absorbing(s, a);
    Receiving(s.receipts, a.documents, false);
    ClaimedStored(Absorbed(s, a).receipts);
  }

  /** The terminal notices the call is worth go out on the upload that ends it, a failure notice on the
      first upload after which its receipt belongs to an ended call. */
  lemma StepNotices(s: State, a: Action)
    requires Inv(s)
    ensures var t := After(s, a);
            && (forall k :: Sent(s, a)[TerminalNotice(k)] ==
                  if !Ended(s) && Ended(t) && Worth(t.record.value.policy, t.record.value.result.code, k) then 1 else 0)
            && (forall d :: Sent(s, a)[FailureNotice(d)] ==
                  if Ended(t) && d in Stored(t.receipts) && d.identity.failure && !(Ended(s) && d in Stored(s.receipts)) then 1 else 0)
  {
    StepTerminal(s, a);
    StepFailures(s, a);
  }

  lemma StepTerminal(s: State, a: Action)
    requires Inv(s)
    ensures var t := After(s, a);
            forall k :: Sent(s, a)[TerminalNotice(k)] ==
              if !Ended(s) && Ended(t) && Worth(t.record.value.policy, t.record.value.result.code, k) then 1 else 0
  {
    hide Listing, Receive, Absorbed, Worth, TerminalNotices, Refused, Lists;
    var m := Absorbed(s, a);
    Absorbing(s, a);
    if Ended(m) {
      forall k ensures FailureNotices(m.receipts)[TerminalNotice(k)] == 0 {}
      if Ended(s) { NoneTwice(m.record.value); } else { TerminalNoticesAre(m.record.value); }
    }
  }

  lemma StepFailures(s: State, a: Action)
    requires Inv(s)
    ensures var t := After(s, a);
            forall d :: Sent(s, a)[FailureNotice(d)] ==
              if Ended(t) && d in Stored(t.receipts) && d.identity.failure && !(Ended(s) && d in Stored(s.receipts)) then 1 else 0
  {
    hide Listing, Receive, Absorbed, Worth, TerminalNotices, FailureNotices, Refused, Lists;
    var m := Absorbed(s, a);
    Absorbing(s, a);
    Receiving(s.receipts, a.documents, false);
    ClaimedStored(m.receipts);
    NoFailureAmongTerminal(m);
    forall d ensures d in Stored(s.receipts) <==> d.identity in s.receipts && s.receipts[d.identity].document == d {}
    forall d ensures d in Stored(m.receipts) <==> d.identity in m.receipts && m.receipts[d.identity].document == d {}
    forall d ensures FailureNotices(m.receipts)[FailureNotice(d)] ==
      if d in Stored(m.receipts) && d.identity.failure && !m.receipts[d.identity].claimed then 1 else 0
    {
      NoticeOf(m.receipts, d);
    }
  }

  lemma NoneTwice(call: CallRecord)
    requires call.terminalScheduled
    ensures TerminalNotices(call) == multiset{}
  {
  }

  lemma NoticeOf(receipts: Receipts, d: Document)
    requires KeptByIdentity(receipts)
    ensures FailureNotices(receipts)[FailureNotice(d)] ==
      if d in Stored(receipts) && d.identity.failure && !receipts[d.identity].claimed then 1 else 0
  {
    var all := set k | k in receipts && !receipts[k].claimed && k.failure :: FailureNotice(receipts[k].document);
    if d in Stored(receipts) {
      assert receipts[d.identity].document == d;
    }
    assert FailureNotice(d) in all <==> d in Stored(receipts) && d.identity.failure && !receipts[d.identity].claimed;
  }

  /** d arrived, and nothing with its identity arrived before it. */
  ghost predicate IsFirst(documents: seq<Document>, d: Document) {
    exists i :: 0 <= i < |documents| && documents[i] == d && forall j :: 0 <= j < i ==> documents[j].identity != d.identity
  }

  /** The receipts hold the first document of every identity delivered. */
  ghost predicate Holds(receipts: Receipts, documents: seq<Document>) {
    && receipts.Keys == Identities(documents)
    && forall k :: k in receipts ==> receipts[k].document.identity == k && IsFirst(documents, receipts[k].document)
  }

  lemma FirstIsFirst(a: seq<Document>, b: seq<Document>, d: Document)
    requires IsFirst(a, d)
    ensures IsFirst(a + b, d)
  {
    var i :| 0 <= i < |a| && a[i] == d && forall j :: 0 <= j < i ==> a[j].identity != d.identity;
    assert (a + b)[i] == d && forall j :: 0 <= j < i ==> (a + b)[j].identity != d.identity;
  }

  lemma {:induction false} ReceiveHolds(receipts: Receipts, seen: seq<Document>, documents: seq<Document>)
    requires Holds(receipts, seen)
    ensures Holds(Receive(receipts, documents, false), seen + documents)
    decreases |documents|
  {
    if documents == [] {
      assert seen + documents == seen;
    } else {
      var n := |documents| - 1;
      var d := documents[n];
      ReceiveHolds(receipts, seen, documents[..n]);
      assert seen + documents == seen + documents[..n] + [d];
      HoldsOne(Receive(receipts, documents[..n], false), seen + documents[..n], d);
    }
  }

  lemma HoldsOne(r: Receipts, before: seq<Document>, d: Document)
    requires Holds(r, before)
    ensures Holds(if d.identity in r then r else r[d.identity := Receipt(d, false)], before + [d])
  {
    var all := before + [d];
    assert Identities(all) == Identities(before) + {d.identity};
    forall k | k in r ensures IsFirst(all, r[k].document) { FirstIsFirst(before, [d], r[k].document); }
    if d.identity !in r {
      assert all[|before|] == d && forall j :: 0 <= j < |before| ==> before[j].identity in Identities(before);
    }
  }

  lemma {:induction false} RunHolds(actions: seq<Action>)
    ensures Inv(Run(actions)) && Holds(Run(actions).receipts, Delivered(actions))
    ensures Run(actions).record.Some? <==> Reported(actions)
    decreases |actions|
  {
    hide After, Receive, Lists, Refused;
    if actions == [] {
      FreshInv();
      assert Identities(Delivered(actions)) == {};
    } else {
      var n := |actions| - 1;
      var s, a := Run(actions[..n]), actions[n];
      RunHolds(actions[..n]);
      StepKeeps(s, a);
      ReceiveHolds(s.receipts, Delivered(actions[..n]), a.documents);
      var reached := if Refused(s, a) then s.receipts else Receive(s.receipts, a.documents, false);
      SameDocuments(reached, After(s, a).receipts, Delivered(actions));
    }
  }

  lemma SameDocuments(a: Receipts, b: Receipts, documents: seq<Document>)
    requires Holds(a, documents) && Documents(a) == Documents(b)
    ensures Holds(b, documents)
  {
    assert Documents(a).Keys == a.Keys && Documents(b).Keys == b.Keys;
    forall k | k in b ensures b[k].document == a[k].document { assert Documents(a)[k] == Documents(b)[k]; }
  }

  lemma FreshInv()
    ensures Inv(UNHEARD)
  {
  }

  /** What the device sees of a call that has been reported. */
  ghost function Events(actions: seq<Action>): seq<Document> {
    if Run(actions).record.Some? then Run(actions).record.value.events else []
  }

  /** The events of a reported call are the distinct identities delivered, each by its first document,
      in order: nothing is lost, repeated or made up by retries and early arrivals. */
  lemma EventsAreFirsts(actions: seq<Action>)
    requires Reported(actions)
    ensures Ascending(Events(actions))
    ensures forall d :: d in Events(actions) <==> IsFirst(Delivered(actions), d)
  {
    RunHolds(actions);
    var s := Run(actions);
    forall d | IsFirst(Delivered(actions), d) ensures d in Stored(s.receipts) {
      assert d.identity in Identities(Delivered(actions));
      FirstIsOne(Delivered(actions), s.receipts[d.identity].document, d);
    }
  }

  lemma FirstIsOne(documents: seq<Document>, a: Document, b: Document)
    requires IsFirst(documents, a) && IsFirst(documents, b) && a.identity == b.identity
    ensures a == b
  {
    var i :| 0 <= i < |documents| && documents[i] == a && forall j :: 0 <= j < i ==> documents[j].identity != a.identity;
    var j :| 0 <= j < |documents| && documents[j] == b && forall k :: 0 <= k < j ==> documents[k].identity != b.identity;
    assert i == j;
  }

  // ---------------------------------------------------------------- convergence

  /** The call was reported and exactly these documents were delivered, in some order, with retries. */
  ghost predicate Brings(actions: seq<Action>, d: set<Document>) {
    Reported(actions) && SetOf(Delivered(actions)) == d
  }

  ghost predicate Converges(d: set<Document>) {
    forall a, b :: Brings(a, d) && Brings(b, d) ==> Events(a) == Events(b)
  }

  predicate OneSpelling(d: set<Document>) {
    forall x, y :: x in d && y in d && x.identity == y.identity ==> x == y
  }

  /** Every order of arrival leaves the same identities. */
  lemma IdentitiesConverge(a: seq<Action>, d: set<Document>)
    requires Brings(a, d)
    ensures Identities(Events(a)) == set x | x in d :: x.identity
  {
    hide Run, Events;
    EventsAreFirsts(a);
    var all := Delivered(a);
    forall x | x in all ensures exists y :: y in Events(a) && y.identity == x.identity {
      var i :| 0 <= i < |all| && all[i] == x;
      var y := Earliest(all, i);
    }
    forall y | y in Events(a) ensures y in d { assert IsFirst(all, y); }
  }

  lemma {:induction false} Earliest(documents: seq<Document>, i: nat) returns (y: Document)
    requires i < |documents|
    ensures IsFirst(documents, y) && y.identity == documents[i].identity
    decreases i
  {
    if j :| 0 <= j < i && documents[j].identity == documents[i].identity {
      y := Earliest(documents, j);
    } else {
      y := documents[i];
    }
  }

  /** Every order of arrival leaves the same events exactly when no identity arrived in two spellings
      of its time. */
  lemma ConvergesExactly(d: set<Document>)
    ensures Converges(d) <==> OneSpelling(d)
  {
    if OneSpelling(d) {
      OneSpellingConverges(d);
    } else {
      TwoSpellingsDiverge(d);
    }
  }

  lemma OneSpellingConverges(d: set<Document>)
    requires OneSpelling(d)
    ensures Converges(d)
  {
    hide OneSpelling, Brings, Events, Lists;
    forall a, b | Brings(a, d) && Brings(b, d) ensures Events(a) == Events(b) {
      OneSpellingLists(a, d);
      OneSpellingLists(b, d);
      OneListing(Events(a), Events(b), d);
    }
  }

  /** A report that opens the record and says nothing more. */
  const PLAIN_REPORT := Report("", InProgress, None, false)

  lemma TwoSpellingsDiverge(d: set<Document>)
    requires !OneSpelling(d)
    ensures !Converges(d)
  {
    hide Brings, Events, Listing;
    var x, y :| x in d && y in d && x.identity == y.identity && x != y;
    var a, b := [CallReport(PLAIN_REPORT, [x] + Listing(d))], [CallReport(PLAIN_REPORT, [y] + Listing(d))];
    FirstKept(x, d);
    FirstKept(y, d);
    FirstOnly(a, x, y);
    assert Brings(a, d) && Brings(b, d) && Events(a) != Events(b);
  }

  lemma OneSpellingLists(a: seq<Action>, d: set<Document>)
    requires OneSpelling(d) && Brings(a, d)
    ensures Lists(Events(a), d)
  {
    hide Run, Events;
    EventsAreFirsts(a);
    var all := Delivered(a);
    forall x ensures x in Events(a) <==> x in d {
      if x in d {
        var i :| 0 <= i < |all| && all[i] == x;
        var y := Earliest(all, i);
        assert y in SetOf(all);
      }
    }
  }

  lemma FirstKept(x: Document, d: set<Document>)
    requires x in d
    ensures var a := [CallReport(PLAIN_REPORT, [x] + Listing(d))]; Brings(a, d) && x in Events(a)
  {
    hide Listing, Events, After;
    var a := [CallReport(PLAIN_REPORT, [x] + Listing(d))];
    assert a[..0] == [] && a[0].CallReport?;
    assert Delivered(a[..0]) == [];
    assert Delivered(a) == [x] + Listing(d);
    assert IsFirst(Delivered(a), x) by { assert Delivered(a)[0] == x; }
    EventsAreFirsts(a);
  }

  lemma FirstOnly(a: seq<Action>, x: Document, y: Document)
    requires Reported(a) && x in Events(a) && x.identity == y.identity && x != y
    ensures y !in Events(a)
  {
    hide Events;
    EventsAreFirsts(a);
    if y in Events(a) { FirstIsOne(Delivered(a), x, y); }
  }

  // ---------------------------------------------------------------- results and notices

  /** A real result, once recorded, is never replaced. */
  lemma {:induction false} ResultStays(actions: seq<Action>, i: nat)
    requires i <= |actions| && Ended(Run(actions[..i]))
    ensures Ended(Run(actions)) && Run(actions).record.value.result == Run(actions[..i]).record.value.result
    decreases |actions|
  {
    hide After;
    if i == |actions| {
      assert actions[..i] == actions;
    } else {
      var n := |actions| - 1;
      assert actions[..n][..i] == actions[..i];
      RunHolds(actions[..n]);
      ResultStays(actions[..n], i);
      StepKeeps(Run(actions[..n]), actions[n]);
    }
  }

  /** How often a notice is sent in a run. */
  ghost function Times(actions: seq<Action>, x: Notification): nat {
    if actions == [] then 0
    else Times(actions[..|actions| - 1], x) + Sent(Run(actions[..|actions| - 1]), actions[|actions| - 1])[x]
  }

  /** Exactly once: when the call has really ended, each terminal notice it is worth and the notice of
      every failed external call on record have been sent once; before that, nothing has been sent. */
  lemma {:induction false} NoticesOnce(actions: seq<Action>)
    ensures var last := Run(actions);
            && (forall k :: Times(actions, TerminalNotice(k)) ==
                  if Ended(last) && Worth(last.record.value.policy, last.record.value.result.code, k) then 1 else 0)
            && (forall d :: Times(actions, FailureNotice(d)) ==
                  if Ended(last) && IsFirst(Delivered(actions), d) && d.identity.failure then 1 else 0)
    decreases |actions|
  {
    hide After, Sent, Inv, Lists, Worth, Refused;
    if actions != [] {
      var n := |actions| - 1;
      var s, a := Run(actions[..n]), actions[n];
      NoticesOnce(actions[..n]);
      RunHolds(actions[..n]);
      RunHolds(actions);
      StepKeeps(s, a);
      StepNotices(s, a);
      forall d ensures Times(actions, FailureNotice(d)) ==
                  if Ended(Run(actions)) && IsFirst(Delivered(actions), d) && d.identity.failure then 1 else 0
      {
        StoredIsFirst(s.receipts, Delivered(actions[..n]), d);
        StoredIsFirst(After(s, a).receipts, Delivered(actions), d);
        if IsFirst(Delivered(actions[..n]), d) && !Refused(s, a) { FirstIsFirst(Delivered(actions[..n]), a.documents, d); }
      }
    }
  }

  lemma StoredIsFirst(receipts: Receipts, documents: seq<Document>, d: Document)
    requires Holds(receipts, documents)
    ensures d in Stored(receipts) <==> IsFirst(documents, d)
  {
    if IsFirst(documents, d) {
      assert d.identity in Identities(documents);
      FirstIsOne(documents, receipts[d.identity].document, d);
    }
  }

  /** Repeating any earlier upload at any later time sends nothing and changes nothing. */
  lemma RetryIsSilent(actions: seq<Action>, i: nat)
    requires i < |actions|
    ensures After(Run(actions), actions[i]) == Run(actions)
    ensures Sent(Run(actions), actions[i]) == multiset{}
  {
    hide After, Sent, Inv, AbsorbedAlready;
    RunHolds(actions);
    RunAbsorbs(actions, i);
    AbsorbedIsIdle(Run(actions), actions[i]);
  }

  /** The state has nothing left to learn from an upload: it will be refused, or all it says is there. */
  ghost predicate AbsorbedAlready(s: State, a: Action) {
    || Refused(s, a)
    || (&& Identities(a.documents) <= s.receipts.Keys
        && (a.CallReport? ==>
              && s.record.Some?
              && Taken(s.record.value.result, a.report.result) == s.record.value.result
              && (a.report.audit.Some? ==> s.record.value.audit == a.report.audit)))
  }

  lemma AbsorbedIsIdle(s: State, a: Action)
    requires Inv(s) && AbsorbedAlready(s, a)
    ensures After(s, a) == s && Sent(s, a) == multiset{}
  {
    hide Listing, Receive, TerminalNotices;
    if !Refused(s, a) {
      Absorbing(s, a);
      AlreadyReceived(s.receipts, a.documents);
      if s.record.Some? {
        OneListing(s.record.value.events, Absorbed(s, a).record.value.events, Stored(s.receipts));
      }
      assert Absorbed(s, a) == s;
      NothingPending(s);
    }
  }

  lemma NothingPending(s: State)
    requires Inv(s)
    ensures Claim(s) == s && Claims(s) == multiset{}
  {
    if Ended(s) {
      NoneTwice(s.record.value);
      assert AllClaimed(s.receipts) == s.receipts;
      forall x ensures x !in FailureNotices(s.receipts) {}
    }
  }

  lemma {:induction false} RunAbsorbs(actions: seq<Action>, i: nat)
    requires i < |actions|
    ensures AbsorbedAlready(Run(actions), actions[i])
    decreases |actions|
  {
    hide After, AbsorbedAlready, Inv;
    var n := |actions| - 1;
    RunHolds(actions[..n]);
    if i == n {
      UploadAbsorbs(Run(actions[..n]), actions[n]);
    } else {
      RunAbsorbs(actions[..n], i);
      assert actions[..n][i] == actions[i];
      AbsorbedStays(Run(actions[..n]), actions[n], actions[i]);
    }
  }

  lemma UploadAbsorbs(s: State, a: Action)
    requires Inv(s)
    ensures AbsorbedAlready(After(s, a), a)
  {
    hide Listing, Receive;
    if !Refused(s, a) {
      Absorbing(s, a);
      Receiving(s.receipts, a.documents, false);
    }
  }

  /** What the record and the receipts become in one upload. */
  lemma AfterParts(s: State, b: Action)
    requires Inv(s)
    ensures var t := After(s, b);
      && s.receipts.Keys <= t.receipts.Keys
      && (s.record.Some? ==>
            && t.record.Some?
            && (t == s || (Refused(s, b) == false &&
                 t.record.value.result == (if b.CallReport? then Taken(s.record.value.result, b.report.result) else s.record.value.result)))
            && (s.record.value.audit.Some? ==> t.record.value.audit == s.record.value.audit)
            && (s.record.value.audit.None? && t.record.value.audit.Some? ==>
                  b.CallReport? && t.record.value.audit == b.report.audit && AuditOk(b.report, t.record.value.result)))
  {
    hide Listing, Receive;
    Absorbing(s, b);
    Receiving(s.receipts, b.documents, false);
  }

  lemma AbsorbedStays(s: State, b: Action, a: Action)
    requires Inv(s) && AbsorbedAlready(s, a)
    ensures AbsorbedAlready(After(s, b), a)
  {
    hide After, Inv;
    AfterParts(s, b);
  }

  lemma AlreadyReceived(receipts: Receipts, documents: seq<Document>)
    requires Identities(documents) <= receipts.Keys
    ensures Receive(receipts, documents, false) == receipts
  {
    Receiving(receipts, documents, false);
  }

  lemma MergeFrom(s: State, a: Action, k: Identity)
    requires KeptByIdentity(s.receipts) && k in s.receipts
    ensures var t := Absorbed(s, a); KeptByIdentity(t.receipts) && k in t.receipts && t.receipts[k] == s.receipts[k]
  {
    hide Listing, Receive;
    var opening := if a.CallReport? && s.record.None? then s.(record := Some(Opening(a.report))) else s;
    if opening.record.Some? { Receiving(s.receipts, opening.record.value.events, opening.record.value.result != InProgress); }
    Receiving(Seeded(opening), a.documents, false);
    MergeKeepsFiling(opening, a.documents);
  }

  /** d is listed on a record from before receipts that had already ended, or is claimed by now. */
  ghost predicate Announced(s: State, d: Document) {
    && KeptByIdentity(s.receipts)
    && if d.identity in s.receipts then s.receipts[d.identity].claimed
       else s.record.Some? && s.record.value.result != InProgress && d in s.record.value.events
  }

  lemma AnnouncedStaysSilent(s: State, a: Action, d: Document)
    requires Announced(s, d)
    ensures Announced(After(s, a), d) && Sent(s, a)[FailureNotice(d)] == 0
  {
    hide Listing, Receive, TerminalNotices, Refused;
    if !Refused(s, a) {
      var m := Absorbed(s, a);
      if d.identity in s.receipts {
        MergeFrom(s, a, d.identity);
      } else {
        var events := s.record.value.events;
        Receiving(s.receipts, events, true);
        assert d.identity in Identities(events);
        Receiving(Seeded(s), a.documents, false);
        MergeKeepsFiling(s, a.documents);
      }
      assert KeptByIdentity(m.receipts) && d.identity in m.receipts && m.receipts[d.identity].claimed;
      NoticeOf(m.receipts, d);
      NoFailureAmongTerminal(m);
    }
  }

  lemma NoFailureAmongTerminal(m: State)
    ensures m.record.Some? ==> forall d :: TerminalNotices(m.record.value)[FailureNotice(d)] == 0
  {
    if m.record.Some? && !m.record.value.terminalScheduled && Final(m.record.value.result) { TerminalNoticesAre(m.record.value); }
  }

  /** A call whose record predates receipts and had already ended: its old failures are never announced,
      whatever is uploaded and however often. */
  lemma {:induction false} LegacyIsSilent(s: State, later: seq<Action>, a: Action, d: Document)
    requires s.receipts == map[] && s.record.Some? && s.record.value.result != InProgress
    requires d in s.record.value.events
    ensures Sent(RunFrom(s, later), a)[FailureNotice(d)] == 0
  {
    hide After, Sent, Announced;
    LegacyAnnounced(s, later, d);
    AnnouncedStaysSilent(RunFrom(s, later), a, d);
  }

  lemma {:induction false} LegacyAnnounced(s: State, later: seq<Action>, d: Document)
    requires s.receipts == map[] && s.record.Some? && s.record.value.result != InProgress
    requires d in s.record.value.events
    ensures Announced(RunFrom(s, later), d)
    decreases |later|
  {
    hide After, Sent;
    if later != [] {
      LegacyAnnounced(s, later[..|later| - 1], d);
      AnnouncedStaysSilent(RunFrom(s, later[..|later| - 1]), later[|later| - 1], d);
    }
  }
}
