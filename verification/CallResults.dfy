/**
  What a call record says after any run of uploads, told by the reports themselves: server/app/main.py,
  `upload_events`.
*/
module CallResults {
  import opened Prelude
  import opened CallHistory

  /** The reports of a run that were accepted, in order of arrival. */
  ghost function Reports(actions: seq<Action>): seq<Report> {
    if actions == [] then []
    else
      var front, last := actions[..|actions| - 1], actions[|actions| - 1];
      if last.CallReport? && !Refused(Run(front), last) then Reports(front) + [last.report] else Reports(front)
  }

  /** The first report with a real result. */
  predicate FirstReal(reports: seq<Report>, i: int) {
    0 <= i < |reports| && reports[i].result.Real? && forall j :: 0 <= j < i ==> !reports[j].result.Real?
  }

  /** The first report that brings an audit report. */
  predicate FirstAudit(reports: seq<Report>, i: int) {
    0 <= i < |reports| && reports[i].audit.Some? && forall j :: 0 <= j < i ==> reports[j].audit.None?
  }

  /** How one upload changes the record. */
  lemma OneUpload(s: State, a: Action)
    ensures var t := After(s, a);
      && (!a.CallReport? || Refused(s, a) ==> t.record.Some? == s.record.Some?)
      && ((!a.CallReport? || Refused(s, a)) && s.record.Some? ==>
            t.record.value.result == s.record.value.result && t.record.value.policy == s.record.value.policy
            && t.record.value.audit == s.record.value.audit)
      && (a.CallReport? && !Refused(s, a) ==> t.record.Some?)
      && (a.CallReport? && !Refused(s, a) && s.record.None? ==>
            t.record.value.result == a.report.result && t.record.value.policy == a.report.policy && t.record.value.audit == a.report.audit)
      && (a.CallReport? && !Refused(s, a) && s.record.Some? ==>
            && t.record.value.policy == s.record.value.policy
            && t.record.value.audit == (if s.record.value.audit.None? then a.report.audit else s.record.value.audit)
            && t.record.value.result ==
                 if s.record.value.result.Real? || a.report.result.InProgress? then s.record.value.result else a.report.result)
  {
    hide Receive, Listing, AllClaimed, Refused;
  }

  ghost predicate SomeReal(reports: seq<Report>) {
    exists i :: 0 <= i < |reports| && reports[i].result.Real?
  }

  ghost predicate EndMissing(reports: seq<Report>) {
    exists i :: 0 <= i < |reports| && reports[i].result == EndDetailsUnavailable
  }

  ghost predicate SomeAudit(reports: seq<Report>) {
    exists i :: 0 <= i < |reports| && reports[i].audit.Some?
  }

  lemma RealNext(reports: seq<Report>, r: Report)
    ensures SomeReal(reports + [r]) <==> SomeReal(reports) || r.result.Real?
    ensures EndMissing(reports + [r]) <==> EndMissing(reports) || r.result == EndDetailsUnavailable
    ensures SomeAudit(reports + [r]) <==> SomeAudit(reports) || r.audit.Some?
    ensures forall i :: FirstReal(reports + [r], i) <==> FirstReal(reports, i) || (i == |reports| && r.result.Real? && !SomeReal(reports))
    ensures forall i :: FirstAudit(reports + [r], i) <==> FirstAudit(reports, i) || (i == |reports| && r.audit.Some? && !SomeAudit(reports))
  {
    var all := reports + [r];
    assert all[|reports|] == r;
    assert forall i :: 0 <= i < |reports| ==> all[i] == reports[i];
  }

  /** What the record says of the reports. */
  ghost predicate RecordFollows(record: Option<CallRecord>, reports: seq<Report>) {
    && (record.Some? <==> reports != [])
    && (record.Some? ==>
          && record.value.policy == reports[0].policy
          && (record.value.result.Real? <==> SomeReal(reports))
          && (!record.value.result.Real? ==> (record.value.result == EndDetailsUnavailable <==> EndMissing(reports)))
          && (record.value.audit.Some? <==> SomeAudit(reports)))
    && (forall i :: FirstReal(reports, i) ==> record.Some? && record.value.result == reports[i].result)
    && (forall i :: FirstAudit(reports, i) ==> record.Some? && record.value.audit == reports[i].audit)
  }

  /** The record over every run of uploads: its result is the first real one of an accepted report, for
      good, and without one it says that the end is missing if some accepted report did; its policy is
      that of the first report and its audit report the first to come. */
  lemma {:induction false} RecordIsFirsts(actions: seq<Action>)
    ensures RecordFollows(Run(actions).record, Reports(actions))
    ensures Ended(Run(actions)) <==> SomeReal(Reports(actions))
    decreases |actions|
  {
    hide After, Refused;
    if actions != [] {
      var front, last := actions[..|actions| - 1], actions[|actions| - 1];
      RecordIsFirsts(front);
      OneUpload(Run(front), last);
      if last.CallReport? && !Refused(Run(front), last) {
        RealNext(Reports(front), last.report);
        hide SomeReal, SomeAudit, EndMissing, FirstReal, FirstAudit;
        assert Run(actions) == After(Run(front), last);
      }
    }
  }

  /** An upload is refused exactly if its audit report is not allowed for its call, is for a call the
      stock dialer keeps, or differs from the one already taken. */
  lemma RefusedExactly(actions: seq<Action>, a: Action)
    ensures var reports := Reports(actions);
      Refused(Run(actions), a) <==>
        && a.CallReport? && a.report.audit.Some?
        && (|| (!a.report.audit.value.disabled && (!a.report.allowed || a.report.result == Real("STOCK_DIALER")))
            || (exists i :: FirstAudit(reports, i) && reports[i].audit != a.report.audit)
            || (&& !SomeAudit(reports) && !a.report.audit.value.disabled
                && exists i :: FirstReal(reports, i) && reports[i].result == Real("STOCK_DIALER")))
  {
    RecordIsFirsts(actions);
    FirstsExist(Reports(actions));
    hide Run, Reports;
    var reports, record := Reports(actions), Run(actions).record;
    if record.Some? && record.value.audit.Some? {
      var i :| FirstAudit(reports, i);
      assert record.value.audit == reports[i].audit;
    }
    if record.Some? && record.value.result.Real? {
      var i :| FirstReal(reports, i);
      assert record.value.result == reports[i].result;
    }
  }

  lemma {:induction false} FirstsExist(reports: seq<Report>)
    ensures SomeReal(reports) ==> exists i :: FirstReal(reports, i)
    ensures SomeAudit(reports) ==> exists i :: FirstAudit(reports, i)
  {
    if reports != [] {
      var n := |reports| - 1;
      assert reports == reports[..n] + [reports[n]];
      FirstsExist(reports[..n]);
      RealNext(reports[..n], reports[n]);
      hide SomeReal, SomeAudit, FirstReal, FirstAudit;
      if i :| FirstReal(reports[..n], i) { assert FirstReal(reports, i); }
      if i :| FirstAudit(reports[..n], i) { assert FirstAudit(reports, i); }
      assert FirstReal(reports, n) <==> FirstReal(reports[..n], n) || (reports[n].result.Real? && !SomeReal(reports[..n]));
      assert FirstAudit(reports, n) <==> FirstAudit(reports[..n], n) || (reports[n].audit.Some? && !SomeAudit(reports[..n]));
    } else {
      assert !SomeReal(reports) && !SomeAudit(reports);
    }
  }
}
