// The bounded artifact auditor: output is capped, and what is dropped can never turn a
// failing scan into a pass.
module Audit {
  import opened Wrappers

  const MaxIssues := 200
  const MaxArtifacts := 2000
  const MaxMessage := 320

  datatype Code =
    | RunIdInvalid | RunIdentityForeign
    | FinalIndexUnavailable | FinalIndexInvalid
    | CitationIndexForeign | CitationIndexUnavailable | CitationIndexInvalid
    | ValidatorUnavailable | ValidatorNotPromoted | ValidatorRunForeign
    | CheckedPathForeign | CheckedPathDuplicate | CheckedPathMissingFinal | CheckedPathMissingCitation | FixedPathForeign
    | StagedPathEscape | DocumentUnavailable | ExecutionContamination | Scaffold | SectionMissing | ProposalNotActionable
    | CitationMissing | DocumentMissing | NotReciprocal
    | RepoUnknown | RepoUnavailable | EvidencePathEscape | EvidenceFileMissing | EvidenceNotRegular | EvidenceInvalid(kind: string)
    | ArchitectureHomeMissing
    | EffectiveVerdictUnavailable | EffectiveVerdictInvalid

  datatype Severity = Error | Warning

  datatype Finding = Finding(code: Code, severity: Severity, path: string, message: string)

  // An issue is a check's finding, or the marker that output was cut. The marker's code,
  // audit.scan.truncated, is no check's own.
  datatype Issue = Found(finding: Finding) | ScanTruncated {
    predicate IsError() { ScanTruncated? || finding.severity.Error? }
  }

  datatype Artifact = Artifact(path: string, size: nat, digest: string)

  datatype Status = Pass | Warn | Fail

  datatype Summary = Summary(error: nat, warning: nat, artifact: nat)

  datatype Report = Report(status: Status, summary: Summary, issues: seq<Issue>, artifacts: seq<Artifact>, truncated: bool)

  // ---------------------------------------------------------------- what a scan reports

  // Everything the checks report or read, in the order they do.
  datatype Event = Reported(finding: Finding) | Recorded(artifact: Artifact)

  predicate HasMarker(issues: seq<Issue>) {
    ScanTruncated in issues
  }

  function Marked(r: Report): Report {
    var noted := r.(truncated := true);
    if HasMarker(r.issues) then noted
    else if |r.issues| < MaxIssues then noted.(issues := r.issues + [ScanTruncated])
    else noted.(issues := r.issues[MaxIssues - 1 := ScanTruncated])
  }

  function Cut(f: Finding): Issue {
    Found(if |f.message| > MaxMessage then f.(message := f.message[..MaxMessage]) else f)
  }

  function Next(r: Report, e: Event): Report {
    match e
    case Reported(finding) =>
      if |r.issues| >= MaxIssues - 1 then Marked(r) else r.(issues := r.issues + [Cut(finding)])
    case Recorded(artifact) =>
      if |r.artifacts| >= MaxArtifacts then Marked(r) else r.(artifacts := r.artifacts + [artifact])
  }

  function After(r: Report, es: seq<Event>): Report {
    if es == [] then r else Next(After(r, es[..|es| - 1]), es[|es| - 1])
  }

  const EMPTY := Report(Pass, Summary(0, 0, 0), [], [], false)

  function Errors(issues: seq<Issue>): nat {
    if issues == [] then 0 else Errors(issues[..|issues| - 1]) + if issues[|issues| - 1].IsError() then 1 else 0
  }

  // finalizeReport
  function Final(r: Report): Report {
    var errors := Errors(r.issues);
    ErrorsAtMost(r.issues);
    r.(summary := Summary(errors, |r.issues| - errors, |r.artifacts|),
       status := if r.truncated || errors > 0 then Fail else if |r.issues| - errors > 0 then Warn else Pass)
  }

  lemma {:induction false} ErrorsAtMost(issues: seq<Issue>)
    ensures Errors(issues) <= |issues|
  {
    if issues != [] {
      ErrorsAtMost(issues[..|issues| - 1]);
    }
  }

  // ---------------------------------------------------------------- the auditor

  class Auditor {
    var report: Report

    constructor ()
      ensures report == EMPTY
    {
      report := EMPTY;
    }

    method MarkTruncated()
      modifies this
      ensures report == Marked(old(report))
    {
      report := report.(truncated := true);
      for i := 0 to |report.issues|
        invariant report == old(report).(truncated := true)
        invariant !HasMarker(report.issues[..i])
      {
        if report.issues[i] == ScanTruncated {
          return;
        }
        assert report.issues[..i + 1] == report.issues[..i] + [report.issues[i]];
      }
      assert report.issues[..|report.issues|] == report.issues;
      if |report.issues| < MaxIssues {
        report := report.(issues := report.issues + [ScanTruncated]);
        return;
      }
      report := report.(issues := report.issues[MaxIssues - 1 := ScanTruncated]);
    }

    method Record(artifact: Artifact)
      modifies this
      ensures report == Next(old(report), Recorded(artifact))
    {
      if |report.artifacts| >= MaxArtifacts {
        MarkTruncated();
        return;
      }
      report := report.(artifacts := report.artifacts + [artifact]);
    }

    method Add(finding: Finding)
      modifies this
      ensures report == Next(old(report), Reported(finding))
    {
      if |report.issues| >= MaxIssues - 1 {
        MarkTruncated();
        return;
      }
      var message := finding.message;
      if |message| > MaxMessage {
        message := message[..MaxMessage];
      }
      report := report.(issues := report.issues + [Found(finding.(message := message))]);
    }

    method Finish()
      modifies this
      ensures report == Final(old(report))
    {
      var errors, warnings := 0, 0;
      for i := 0 to |report.issues|
        invariant report == old(report)
        invariant errors == Errors(report.issues[..i]) && errors + warnings == i
      {
        assert report.issues[..i + 1][..i] == report.issues[..i];
        if report.issues[i].IsError() {
          errors := errors + 1;
        } else {
          warnings := warnings + 1;
        }
      }
      assert report.issues[..|report.issues|] == report.issues;
      report := report.(summary := Summary(errors, warnings, |report.artifacts|));
      if report.truncated || errors > 0 {
        report := report.(status := Fail);
      } else if warnings > 0 {
        report := report.(status := Warn);
      } else {
        report := report.(status := Pass);
      }
    }
  }

  // ---------------------------------------------------------------- what the caps keep

  function Issues(es: seq<Event>): seq<Issue> {
    if es == [] then []
    else
      var last := es[|es| - 1];
      Issues(es[..|es| - 1]) + if last.Reported? then [Cut(last.finding)] else []
  }

  function Artifacts(es: seq<Event>): seq<Artifact> {
    if es == [] then []
    else
      var last := es[|es| - 1];
      Artifacts(es[..|es| - 1]) + if last.Recorded? then [last.artifact] else []
  }

  function Markers(issues: seq<Issue>): nat {
    if issues == [] then 0 else Markers(issues[..|issues| - 1]) + if issues[|issues| - 1] == ScanTruncated then 1 else 0
  }

  // Something was dropped.
  predicate Overflows(es: seq<Event>) {
    |Issues(es)| > MaxIssues - 1 || |Artifacts(es)| > MaxArtifacts
  }

  function Kept(issues: seq<Issue>): seq<Issue> {
    if issues == [] then []
    else
      var last := issues[|issues| - 1];
      Kept(issues[..|issues| - 1]) + if last == ScanTruncated then [] else [last]
  }

  predicate Bounded(r: Report, es: seq<Event>) {
    && |r.issues| <= MaxIssues && |r.artifacts| <= MaxArtifacts
    && (r.truncated <==> Overflows(es))
    && Markers(r.issues) == (if r.truncated then 1 else 0)
    && (HasMarker(r.issues) <==> r.truncated)
    && |r.issues| == |Kept(r.issues)| + Markers(r.issues)
    && Kept(r.issues) <= Issues(es) && r.artifacts <= Artifacts(es)
    && (!r.truncated ==> r.issues == Issues(es) && r.artifacts == Artifacts(es))
    && (|r.issues| == MaxIssues ==> r.truncated)
    && (|Kept(r.issues)| < |Issues(es)| ==> |r.issues| >= MaxIssues - 1)
    && (|r.artifacts| < |Artifacts(es)| ==> |r.artifacts| == MaxArtifacts)
  }

  lemma OneMore(issues: seq<Issue>, i: Issue)
    ensures Markers(issues + [i]) == Markers(issues) + if i == ScanTruncated then 1 else 0
    ensures Kept(issues + [i]) == Kept(issues) + if i == ScanTruncated then [] else [i]
    ensures HasMarker(issues + [i]) <==> HasMarker(issues) || i == ScanTruncated
    ensures Errors(issues + [i]) == Errors(issues) + if i.IsError() then 1 else 0
  {
    var all := issues + [i];
    assert all[..|issues|] == issues;
    assert all[|issues|] == i;
  }

  lemma EventAppends(es: seq<Event>, e: Event)
    ensures Issues(es + [e]) == Issues(es) + if e.Reported? then [Cut(e.finding)] else []
    ensures Artifacts(es + [e]) == Artifacts(es) + if e.Recorded? then [e.artifact] else []
  {
    assert (es + [e])[..|es|] == es;
  }

  lemma MarkingIsBounded(r: Report, es: seq<Event>, e: Event)
    requires Bounded(r, es) && Overflows(es + [e])
    requires e.Reported? ==> |r.issues| >= MaxIssues - 1
    requires e.Recorded? ==> |r.artifacts| >= MaxArtifacts
    ensures Bounded(Marked(r), es + [e])
  {
    EventAppends(es, e);
    hide Markers, Kept, HasMarker, Issues, Artifacts, Cut;
    OneMore(r.issues, ScanTruncated);
    assert Kept(r.issues) + [] == Kept(r.issues);
  }

  lemma StepIsBounded(r: Report, es: seq<Event>, e: Event)
    requires Bounded(r, es)
    ensures Bounded(Next(r, e), es + [e])
  {
    EventAppends(es, e);
    hide Markers, Kept, HasMarker, Issues, Artifacts, Marked;
    match e
    case Reported(finding) =>
      if |r.issues| >= MaxIssues - 1 {
        MarkingIsBounded(r, es, e);
      } else {
        OneMore(r.issues, Cut(finding));
      }
    case Recorded(artifact) =>
      if |r.artifacts| >= MaxArtifacts {
        MarkingIsBounded(r, es, e);
      }
  }

  // However many checks fail and artifacts are read: the report stays within its caps, has
  // its one truncation marker exactly when something was dropped, and keeps the first of
  // what was reported and recorded.
  lemma {:induction false} ReportIsBounded(es: seq<Event>)
    ensures Bounded(After(EMPTY, es), es)
  {
    hide Bounded, Next;
    if es == [] {
      EmptyIsBounded();
    } else {
      ReportIsBounded(es[..|es| - 1]);
      StepIsBounded(After(EMPTY, es[..|es| - 1]), es[..|es| - 1], es[|es| - 1]);
      assert es[..|es| - 1] + [es[|es| - 1]] == es;
    }
  }

  lemma EmptyIsBounded()
    ensures Bounded(EMPTY, [])
  {
  }

  // ---------------------------------------------------------------- a full issue list

  // After k events every issue has been kept and only the marker's place is free.
  predicate FullAt(es: seq<Event>, k: nat)
    requires k <= |es|
  {
    |Issues(es[..k])| == MaxIssues - 1 && |Artifacts(es[..k])| <= MaxArtifacts
  }

  // The checks fill the issue list before any artifact is dropped, and then drop something.
  predicate FillsIssues(es: seq<Event>) {
    Overflows(es) && exists k :: 0 <= k <= |es| && FullAt(es, k)
  }

  lemma FullAtStep(es: seq<Event>, e: Event)
    ensures (exists k :: 0 <= k <= |es| + 1 && FullAt(es + [e], k))
            <==> (exists k :: 0 <= k <= |es| && FullAt(es, k)) || FullAt(es + [e], |es| + 1)
  {
    hide Issues, Artifacts;
    var all := es + [e];
    assert forall k :: 0 <= k <= |es| ==> all[..k] == es[..k];
    assert forall k :: 0 <= k <= |es| ==> (FullAt(all, k) <==> FullAt(es, k));
  }

  // Of the issues, one place short of the cap are kept exactly when that happens.
  lemma {:induction false} KeptFull(es: seq<Event>)
    ensures |Kept(After(EMPTY, es).issues)| == MaxIssues - 1 <==> exists k :: 0 <= k <= |es| && FullAt(es, k)
  {
    if es == [] {
      NothingKept();
    } else {
      var init, last := es[..|es| - 1], es[|es| - 1];
      assert es == init + [last] && es[..|es|] == es;
      hide *;
      KeptFull(init);
      FullAtStep(init, last);
      KeptStep(init, last);
    }
  }

  lemma NothingKept()
    ensures Kept([]) == [] && Issues([]) == [] && Artifacts([]) == [] && After(EMPTY, []).issues == []
    ensures !FullAt([], 0)
  {
    var none: seq<Event> := [];
    assert none[..0] == [];
  }

  lemma KeptStep(es: seq<Event>, e: Event)
    ensures |Kept(After(EMPTY, es + [e]).issues)| == MaxIssues - 1
            <==> |Kept(After(EMPTY, es).issues)| == MaxIssues - 1 || FullAt(es + [e], |es| + 1)
  {
    var r := After(EMPTY, es);
    ReportIsBounded(es);
    EventAppends(es, e);
    assert (es + [e])[..|es|] == es && (es + [e])[..|es| + 1] == es + [e];
    assert After(EMPTY, es + [e]) == Next(r, e);
    hide Markers, Kept, HasMarker, Issues, Artifacts, After, Marked;
    OneMore(r.issues, ScanTruncated);
    MarkedKeeps(r);
    if e.Reported? {
      OneMore(r.issues, Cut(e.finding));
    }
  }

  lemma MarkedKeeps(r: Report)
    ensures |r.issues| < MaxIssues || HasMarker(r.issues) ==> Kept(Marked(r).issues) == Kept(r.issues)
  {
    hide Markers, Kept, HasMarker;
    OneMore(r.issues, ScanTruncated);
    assert Kept(r.issues) + [] == Kept(r.issues);
  }

  // The report holds as many issues as its cap exactly when the checks fill it.
  lemma FullExactly(es: seq<Event>)
    ensures |After(EMPTY, es).issues| == MaxIssues <==> FillsIssues(es)
  {
    ReportIsBounded(es);
    KeptFull(es);
    hide Markers, Kept, HasMarker, Issues, Artifacts, After, FullAt, Overflows;
  }

  lemma {:induction false} IssuesReach(es: seq<Event>, n: nat) returns (k: nat)
    requires n <= |Issues(es)|
    ensures k <= |es| && |Issues(es[..k])| == n && |Artifacts(es[..k])| <= |Artifacts(es)|
    decreases |es|
  {
    hide Issues, Artifacts;
    assert es[..|es|] == es;
    if n == |Issues(es)| {
      k := |es|;
    } else {
      if es == [] {
        NothingKept();
      }
      var init, last := es[..|es| - 1], es[|es| - 1];
      assert es == init + [last];
      EventAppends(init, last);
      k := IssuesReach(init, n);
      assert init[..k] == es[..k];
    }
  }

  // More issues than are kept, and no artifact dropped, is enough.
  lemma ManyIssuesFill(es: seq<Event>)
    requires |Issues(es)| >= MaxIssues && |Artifacts(es)| <= MaxArtifacts
    ensures FillsIssues(es)
  {
    var k := IssuesReach(es, MaxIssues - 1);
    hide Issues, Artifacts;
    assert FullAt(es, k);
  }

  // ---------------------------------------------------------------- verdicts

  predicate ReportsError(es: seq<Event>) {
    exists i :: 0 <= i < |es| && es[i].Reported? && es[i].finding.severity.Error?
  }

  predicate ReportsAnything(es: seq<Event>) {
    exists i :: 0 <= i < |es| && es[i].Reported?
  }

  lemma OneMoreEvent(es: seq<Event>, e: Event)
    ensures ReportsError(es + [e]) <==> ReportsError(es) || (e.Reported? && e.finding.severity.Error?)
    ensures ReportsAnything(es + [e]) <==> ReportsAnything(es) || e.Reported?
  {
    var all := es + [e];
    assert all[|es|] == e;
    assert forall k :: 0 <= k < |es| ==> all[k] == es[k];
  }

  lemma {:induction false} ErrorsOfIssues(es: seq<Event>)
    ensures Errors(Issues(es)) > 0 <==> ReportsError(es)
    ensures Issues(es) != [] <==> ReportsAnything(es)
  {
    hide ReportsError, ReportsAnything, Issues, Artifacts, Errors;
    if es == [] {
      NoErrors();
    } else {
      var init, last := es[..|es| - 1], es[|es| - 1];
      assert es == init + [last];
      ErrorsOfIssues(init);
      EventAppends(init, last);
      OneMoreEvent(init, last);
      if last.Reported? {
        OneMore(Issues(init), Cut(last.finding));
      } else {
        assert Issues(init) + [] == Issues(init);
      }
    }
  }

  lemma NoErrors()
    ensures Issues([]) == [] && Errors([]) == 0 && !ReportsError([]) && !ReportsAnything([])
  {
  }

  // The verdict depends only on what the checks reported and on whether anything was
  // dropped: dropping issues never turns a failing scan into a pass or a warning.
  lemma VerdictIsFailClosed(es: seq<Event>)
    ensures var status := Final(After(EMPTY, es)).status;
            && (status.Pass? <==> !ReportsAnything(es) && !Overflows(es))
            && (status.Fail? <==> ReportsError(es) || Overflows(es))
            && (status.Warn? <==> ReportsAnything(es) && !ReportsError(es) && !Overflows(es))
  {
    hide Next, Markers, Kept, HasMarker, Issues, Artifacts;
    ReportIsBounded(es);
    ErrorsOfIssues(es);
  }

  // The order in which the checks run, as over Go's unordered maps, cannot change it.
  lemma VerdictIgnoresOrder(es: seq<Event>, fs: seq<Event>)
    requires multiset(es) == multiset(fs)
    ensures Final(After(EMPTY, es)).status == Final(After(EMPTY, fs)).status
  {
    hide Next, After, Final, Overflows;
    EventsCarry(es, fs);
    EventsCarry(fs, es);
    SameCounts(es, fs);
    OverflowIsCounted(es, fs);
    VerdictIsFailClosed(es);
    VerdictIsFailClosed(fs);
  }

  lemma OverflowIsCounted(es: seq<Event>, fs: seq<Event>)
    requires |Issues(es)| == |Issues(fs)| && |Artifacts(es)| == |Artifacts(fs)|
    ensures Overflows(es) <==> Overflows(fs)
  {
  }

  lemma Among(es: seq<Event>, fs: seq<Event>, i: nat) returns (j: nat)
    requires multiset(es) == multiset(fs) && i < |es|
    ensures j < |fs| && fs[j] == es[i]
  {
    assert es[i] in multiset(es);
    assert es[i] in fs;
    j :| 0 <= j < |fs| && fs[j] == es[i];
  }

  lemma EventsCarry(es: seq<Event>, fs: seq<Event>)
    requires multiset(es) == multiset(fs)
    ensures ReportsAnything(es) ==> ReportsAnything(fs)
    ensures ReportsError(es) ==> ReportsError(fs)
  {
    forall i | 0 <= i < |fs|
      ensures fs[i] in es
    {
      var j := Among(fs, es, i);
    }
    forall i | 0 <= i < |es|
      ensures es[i] in fs
    {
      var j := Among(es, fs, i);
    }
    if ReportsAnything(es) {
      var i :| 0 <= i < |es| && es[i].Reported?;
      var j := Among(es, fs, i);
    }
    if ReportsError(es) {
      var i :| 0 <= i < |es| && es[i].Reported? && es[i].finding.severity.Error?;
      var j := Among(es, fs, i);
    }
  }

  lemma {:induction false} SameCounts(es: seq<Event>, fs: seq<Event>)
    requires multiset(es) == multiset(fs)
    ensures |Issues(es)| == |Issues(fs)| && |Artifacts(es)| == |Artifacts(fs)|
    decreases |es|
  {
    hide Issues, Artifacts;
    assert |multiset(es)| == |es| && |multiset(fs)| == |fs|;
    if es != [] {
      var init, last := es[..|es| - 1], es[|es| - 1];
      var k := Among(es, fs, |es| - 1);
      assert es == init + [last];
      TakenOut(fs, k);
      SameCounts(init, fs[..k] + fs[k + 1..]);
      EventAppends(init, last);
    }
  }

  lemma TakenOut(fs: seq<Event>, k: nat)
    requires k < |fs|
    ensures multiset(fs[..k] + fs[k + 1..]) == multiset(fs) - multiset{fs[k]}
    ensures |Issues(fs)| == |Issues(fs[..k] + fs[k + 1..])| + if fs[k].Reported? then 1 else 0
    ensures |Artifacts(fs)| == |Artifacts(fs[..k] + fs[k + 1..])| + if fs[k].Recorded? then 1 else 0
  {
    hide Issues, Artifacts;
    var before, after := fs[..k], fs[k + 1..];
    assert fs == before + [fs[k]] + after;
    EventAppends(before, fs[k]);
    IssuesJoin(before + [fs[k]], after);
    IssuesJoin(before, after);
  }

  lemma {:induction false} IssuesJoin(es: seq<Event>, fs: seq<Event>)
    ensures Issues(es + fs) == Issues(es) + Issues(fs)
    ensures Artifacts(es + fs) == Artifacts(es) + Artifacts(fs)
  {
    hide Cut;
    if fs == [] {
      assert es + fs == es;
    } else {
      var init, last := fs[..|fs| - 1], fs[|fs| - 1];
      assert es + fs == es + init + [last] && fs == init + [last];
      EventAppends(es + init, last);
      EventAppends(init, last);
      IssuesJoin(es, init);
    }
  }
}
