// The auditor's checks, in order, and what a pass says about the run it scanned.
module AuditScan {
  import opened Wrappers
  import opened Audit

  // ---------------------------------------------------------------- what the scan reads

  datatype Loaded<T> = Unreadable | Unparsable(raw: Artifact) | Parsed(raw: Artifact, value: T)

  datatype Staged = Escapes | Unavailable | Available(raw: Artifact, faults: seq<Code>)

  datatype Document = Document(id: string, stagedPath: string, canonicalPath: string, citationIds: seq<string>, staged: Staged)

  datatype Citation = Citation(id: string, documentIds: seq<string>, evidence: Option<Code>)

  datatype FinalIndex = FinalIndex(
    runId: string, citationPathOwn: bool, documents: seq<Document>, evidence: seq<Option<Code>>)

  datatype CitationIndex = CitationIndex(runId: string, citations: seq<Citation>)

  // A checked or fixed path, normalized, or outside the selected run.
  datatype Checked = Inside(path: string) | Foreign(raw: string)

  datatype Verdict = Verdict(runId: string, pass: bool, checkedPaths: seq<Checked>, fixedPaths: seq<Checked>)

  datatype Input = Input(
    runId: string, finalPath: string, citationPath: string, verdictPath: string,
    finalIndex: Loaded<FinalIndex>, citationIndex: Loaded<CitationIndex>, verdict: Loaded<Verdict>, candidate: Option<Verdict>)

  const HOME := "reports/as-is/overview.md"

  predicate RunIdValid(id: string) {
    id != "" && '/' !in id && '\\' !in id && id != "." && id != ".."
  }

  function Severity(code: Code): Audit.Severity {
    if code.ProposalNotActionable? || code.RepoUnavailable? then Warning else Error
  }

  function Report(code: Code, path: string): Event {
    Reported(Finding(code, Severity(code), path, ""))
  }

  // ---------------------------------------------------------------- events of each check

  predicate SeenBefore(paths: seq<Checked>, k: nat)
    requires k < |paths|
  {
    exists i :: 0 <= i < k && paths[i] == paths[k]
  }

  function CheckedEvents(paths: seq<Checked>): seq<Event> {
    if paths == [] then []
    else
      var last := |paths| - 1;
      CheckedEvents(paths[..last])
      + match paths[last]
        case Foreign(raw) => [Report(CheckedPathForeign, raw)]
        case Inside(path) => if SeenBefore(paths, last) then [Report(CheckedPathDuplicate, path)] else []
  }

  function FixedEvents(paths: seq<Checked>): seq<Event> {
    if paths == [] then []
    else
      var last := paths[|paths| - 1];
      FixedEvents(paths[..|paths| - 1]) + if last.Foreign? then [Report(FixedPathForeign, last.raw)] else []
  }

  function ValidatorEvents(v: Verdict, finalPath: string, citationPath: string): seq<Event> {
    CheckedEvents(v.checkedPaths)
    + (if Inside(finalPath) in v.checkedPaths then [] else [Report(CheckedPathMissingFinal, finalPath)])
    + (if Inside(citationPath) in v.checkedPaths then [] else [Report(CheckedPathMissingCitation, citationPath)])
    + FixedEvents(v.fixedPaths)
  }

  function FaultEvents(faults: seq<Code>, path: string): seq<Event> {
    if faults == [] then [] else FaultEvents(faults[..|faults| - 1], path) + [Report(faults[|faults| - 1], path)]
  }

  function DocumentEvents(d: Document): seq<Event> {
    match d.staged
    case Escapes => [Report(StagedPathEscape, d.stagedPath)]
    case Unavailable => [Report(DocumentUnavailable, d.stagedPath)]
    case Available(raw, faults) => [Recorded(raw)] + FaultEvents(faults, d.stagedPath)
  }

  function DocumentsEvents(ds: seq<Document>): seq<Event> {
    if ds == [] then [] else DocumentsEvents(ds[..|ds| - 1]) + DocumentEvents(ds[|ds| - 1])
  }

  function DocumentMap(ds: seq<Document>): map<string, Document> {
    if ds == [] then map[] else DocumentMap(ds[..|ds| - 1])[ds[|ds| - 1].id := ds[|ds| - 1]]
  }

  function CitationMap(cs: seq<Citation>): map<string, Citation> {
    if cs == [] then map[] else CitationMap(cs[..|cs| - 1])[cs[|cs| - 1].id := cs[|cs| - 1]]
  }

  function CitedEvents(d: Document, ids: seq<string>, citations: map<string, Citation>): seq<Event> {
    if ids == [] then []
    else
      var last := ids[|ids| - 1];
      CitedEvents(d, ids[..|ids| - 1], citations)
      + if last !in citations then [Report(CitationMissing, d.stagedPath)]
        else if d.id !in citations[last].documentIds then [Report(NotReciprocal, d.stagedPath)]
        else []
  }

  function CitingEvents(c: Citation, ids: seq<string>, documents: map<string, Document>): seq<Event> {
    if ids == [] then []
    else
      var last := ids[|ids| - 1];
      CitingEvents(c, ids[..|ids| - 1], documents)
      + if last !in documents then [Report(DocumentMissing, "")]
        else if c.id !in documents[last].citationIds then [Report(NotReciprocal, documents[last].stagedPath)]
        else []
  }

  // Go visits its maps in any order; `order` is the one this scan happened to take.
  function AllCitedEvents(order: seq<string>, documents: map<string, Document>, citations: map<string, Citation>): seq<Event>
    requires forall i :: 0 <= i < |order| ==> order[i] in documents
  {
    if order == [] then []
    else
      var d := documents[order[|order| - 1]];
      AllCitedEvents(order[..|order| - 1], documents, citations) + CitedEvents(d, d.citationIds, citations)
  }

  function AllCitingEvents(order: seq<string>, documents: map<string, Document>, citations: map<string, Citation>): seq<Event>
    requires forall i :: 0 <= i < |order| ==> order[i] in citations
  {
    if order == [] then []
    else
      var c := citations[order[|order| - 1]];
      AllCitingEvents(order[..|order| - 1], documents, citations) + CitingEvents(c, c.documentIds, documents)
  }

  function EvidenceEvents(found: seq<Option<Code>>): seq<Event> {
    if found == [] then []
    else
      var last := found[|found| - 1];
      EvidenceEvents(found[..|found| - 1]) + if last.Some? then [Report(last.value, "")] else []
  }

  function CitationEvidence(cs: seq<Citation>): seq<Option<Code>> {
    seq(|cs|, i requires 0 <= i < |cs| => cs[i].evidence)
  }

  // The order a scan visits its two maps in.
  datatype Orders = Orders(documents: seq<string>, citations: seq<string>)

  predicate Enumerates<T>(order: seq<string>, m: map<string, T>) {
    && (forall i :: 0 <= i < |order| ==> order[i] in m)
    && (forall k :: k in m ==> k in order)
    && (forall i, j :: 0 <= i < j < |order| ==> order[i] != order[j])
  }

  predicate Visits(o: Orders, f: FinalIndex, c: CitationIndex) {
    Enumerates(o.documents, DocumentMap(f.documents)) && Enumerates(o.citations, CitationMap(c.citations))
  }

  function HomeEvents(f: FinalIndex): seq<Event> {
    if exists i :: 0 <= i < |f.documents| && f.documents[i].canonicalPath == HOME then [] else [Report(ArchitectureHomeMissing, HOME)]
  }

  function BodyEvents(input: Input, v: Verdict, f: FinalIndex, c: CitationIndex, o: Orders): seq<Event>
    requires Visits(o, f, c)
  {
    ValidatorEvents(v, input.finalPath, input.citationPath)
    + DocumentsEvents(f.documents)
    + AllCitedEvents(o.documents, DocumentMap(f.documents), CitationMap(c.citations))
    + AllCitingEvents(o.citations, DocumentMap(f.documents), CitationMap(c.citations))
    + EvidenceEvents(CitationEvidence(c.citations))
    + EvidenceEvents(f.evidence)
    + HomeEvents(f)
  }

  // The verdict the scan goes on with, or the issue that ends it.
  function VerdictOf(input: Input): Result<Verdict, Code> {
    var chosen :=
      if input.candidate.Some? then Ok(input.candidate.value)
      else if input.verdict.Unreadable? then Err(ValidatorUnavailable)
      else if input.verdict.Unparsable? || input.verdict.value.runId != input.runId || !input.verdict.value.pass then
        Err(ValidatorNotPromoted)
      else Ok(input.verdict.value);
    chosen
  }

  function VerdictEvents(input: Input): seq<Event> {
    match VerdictOf(input)
    case Err(code) => [Report(code, input.verdictPath)]
    case Ok(v) =>
      (if input.verdict.Unreadable? then [] else [Recorded(input.verdict.raw)])
      + if v.runId != input.runId then [Report(ValidatorRunForeign, input.verdictPath)] else []
  }

  predicate Usable(input: Input) {
    && RunIdValid(input.runId)
    && input.finalIndex.Parsed? && input.finalIndex.value.runId == input.runId && input.finalIndex.value.citationPathOwn
    && input.citationIndex.Parsed? && input.citationIndex.value.runId == input.runId
  }

  // Why the scan ends before the verdict is looked at.
  function GateEvents(input: Input): seq<Event> {
    if !RunIdValid(input.runId) then [Report(RunIdInvalid, "")]
    else if input.finalIndex.Unreadable? then [Report(FinalIndexUnavailable, input.finalPath)]
    else if input.finalIndex.Unparsable? then [Report(FinalIndexInvalid, input.finalPath)]
    else if input.finalIndex.value.runId != input.runId then [Report(RunIdentityForeign, input.finalPath)]
    else
      [Recorded(input.finalIndex.raw)]
      + if !input.finalIndex.value.citationPathOwn then [Report(CitationIndexForeign, input.citationPath)]
        else if input.citationIndex.Unreadable? then [Report(CitationIndexUnavailable, input.citationPath)]
        else if input.citationIndex.Unparsable? || input.citationIndex.value.runId != input.runId then
          [Report(CitationIndexInvalid, input.citationPath)]
        else [Recorded(input.citationIndex.raw)]
  }

  predicate GoesOn(input: Input) {
    Usable(input) && VerdictOf(input).Ok? && VerdictOf(input).value.runId == input.runId
  }

  function ScanEvents(input: Input, o: Orders): seq<Event>
    requires Usable(input) ==> Visits(o, input.finalIndex.value, input.citationIndex.value)
  {
    GateEvents(input)
    + (if Usable(input) then VerdictEvents(input) else [])
    + if GoesOn(input) then BodyEvents(input, VerdictOf(input).value, input.finalIndex.value, input.citationIndex.value, o) else []
  }

  // ---------------------------------------------------------------- the scan as it runs

  lemma {:induction false} AfterJoins(r: Audit.Report, es: seq<Event>, fs: seq<Event>)
    ensures After(After(r, es), fs) == After(r, es + fs)
  {
    hide Next;
    if fs == [] {
      assert es + fs == es;
    } else {
      var init, last := fs[..|fs| - 1], fs[|fs| - 1];
      assert es + fs == es + init + [last] && fs == init + [last];
      AfterJoins(r, es, init);
      AfterOne(r, es + init, last);
      AfterOne(After(r, es), init, last);
    }
  }

  lemma AfterOne(r: Audit.Report, es: seq<Event>, e: Event)
    ensures After(r, es + [e]) == Next(After(r, es), e)
  {
    hide Next;
    assert (es + [e])[..|es|] == es;
  }

  lemma AfterNothing(r: Audit.Report, es: seq<Event>)
    ensures After(r, []) == r && After(r, es + []) == After(r, es)
  {
    assert es + [] == es;
  }

  method Add(audit: Auditor, code: Code, path: string)
    modifies audit
    ensures audit.report == After(old(audit.report), [Report(code, path)])
  {
    hide Next;
    AfterOne(audit.report, [], Report(code, path));
    AfterNothing(audit.report, []);
    assert [] + [Report(code, path)] == [Report(code, path)];
    audit.Add(Finding(code, Severity(code), path, ""));
  }

  method Record(audit: Auditor, raw: Artifact)
    modifies audit
    ensures audit.report == After(old(audit.report), [Recorded(raw)])
  {
    hide Next;
    AfterOne(audit.report, [], Recorded(raw));
    AfterNothing(audit.report, []);
    assert [] + [Recorded(raw)] == [Recorded(raw)];
    audit.Record(raw);
  }

  method ScanChecked(audit: Auditor, paths: seq<Checked>, finalPath: string, citationPath: string)
    returns (hasFinal: bool, hasCitation: bool)
    modifies audit
    ensures audit.report == After(old(audit.report), CheckedEvents(paths))
    ensures hasFinal == (Inside(finalPath) in paths) && hasCitation == (Inside(citationPath) in paths)
  {
    hide After;
    AfterNothing(audit.report, []);
    var seen: set<string> := {};
    hasFinal, hasCitation := false, false;
    for i := 0 to |paths|
      invariant audit.report == After(old(audit.report), CheckedEvents(paths[..i]))
      invariant forall p :: p in seen <==> Inside(p) in paths[..i]
      invariant hasFinal == (Inside(finalPath) in paths[..i]) && hasCitation == (Inside(citationPath) in paths[..i])
    {
      ghost var before := CheckedEvents(paths[..i]);
      assert paths[..i + 1] == paths[..i] + [paths[i]];
      CheckedStep(paths, i);
      match paths[i] {
        case Foreign(raw) =>
          AfterJoins(old(audit.report), before, [Report(CheckedPathForeign, raw)]);
          Add(audit, CheckedPathForeign, raw);
        case Inside(path) =>
          if path in seen {
            AfterJoins(old(audit.report), before, [Report(CheckedPathDuplicate, path)]);
            Add(audit, CheckedPathDuplicate, path);
          } else {
            AfterNothing(old(audit.report), before);
          }
          seen := seen + {path};
          hasFinal := hasFinal || path == finalPath;
          hasCitation := hasCitation || path == citationPath;
      }
    }
    assert paths[..|paths|] == paths;
  }

  lemma CheckedStep(paths: seq<Checked>, i: nat)
    requires i < |paths|
    ensures CheckedEvents(paths[..i + 1])
            == CheckedEvents(paths[..i])
               + match paths[i]
                 case Foreign(raw) => [Report(CheckedPathForeign, raw)]
                 case Inside(path) => if paths[i] in paths[..i] then [Report(CheckedPathDuplicate, path)] else []
  {
    var part := paths[..i + 1];
    assert part[..i] == paths[..i];
    assert SeenBefore(part, i) <==> paths[i] in paths[..i];
  }

  // scanValidatorPaths
  method ScanValidatorPaths(audit: Auditor, v: Verdict, finalPath: string, citationPath: string)
    modifies audit
    ensures audit.report == After(old(audit.report), ValidatorEvents(v, finalPath, citationPath))
  {
    hide After, CheckedEvents;
    ghost var r, done := audit.report, CheckedEvents(v.checkedPaths);
    var hasFinal, hasCitation := ScanChecked(audit, v.checkedPaths, finalPath, citationPath);
    if !hasFinal {
      AfterJoins(r, done, [Report(CheckedPathMissingFinal, finalPath)]);
      Add(audit, CheckedPathMissingFinal, finalPath);
    }
    done := done + if hasFinal then [] else [Report(CheckedPathMissingFinal, finalPath)];
    AfterNothing(r, CheckedEvents(v.checkedPaths));
    if !hasCitation {
      AfterJoins(r, done, [Report(CheckedPathMissingCitation, citationPath)]);
      Add(audit, CheckedPathMissingCitation, citationPath);
    }
    AfterNothing(r, done);
    done := done + if hasCitation then [] else [Report(CheckedPathMissingCitation, citationPath)];
    AfterNothing(r, done);
    for i := 0 to |v.fixedPaths|
      invariant audit.report == After(r, done + FixedEvents(v.fixedPaths[..i]))
    {
      var path := v.fixedPaths[i];
      assert v.fixedPaths[..i + 1][..i] == v.fixedPaths[..i];
      ghost var sofar := FixedEvents(v.fixedPaths[..i]);
      if path.Foreign? {
        AfterJoins(r, done + sofar, [Report(FixedPathForeign, path.raw)]);
        assert done + sofar + [Report(FixedPathForeign, path.raw)] == done + (sofar + [Report(FixedPathForeign, path.raw)]);
        Add(audit, FixedPathForeign, path.raw);
      } else {
        assert sofar + [] == sofar;
      }
    }
    assert v.fixedPaths[..|v.fixedPaths|] == v.fixedPaths;
  }

  // scanDocument
  method ScanDocument(audit: Auditor, d: Document)
    modifies audit
    ensures audit.report == After(old(audit.report), DocumentEvents(d))
  {
    hide After;
    match d.staged {
      case Escapes => Add(audit, StagedPathEscape, d.stagedPath);
      case Unavailable => Add(audit, DocumentUnavailable, d.stagedPath);
      case Available(raw, faults) =>
        ghost var r := audit.report;
        Record(audit, raw);
        AfterNothing(r, [Recorded(raw)]);
        for i := 0 to |faults|
          invariant audit.report == After(r, [Recorded(raw)] + FaultEvents(faults[..i], d.stagedPath))
        {
          ghost var sofar, next := FaultEvents(faults[..i], d.stagedPath), Report(faults[i], d.stagedPath);
          assert faults[..i + 1][..i] == faults[..i];
          AfterJoins(r, [Recorded(raw)] + sofar, [next]);
          assert [Recorded(raw)] + sofar + [next] == [Recorded(raw)] + (sofar + [next]);
          Add(audit, faults[i], d.stagedPath);
        }
        assert faults[..|faults|] == faults;
    }
  }

  method ScanDocuments(audit: Auditor, ds: seq<Document>) returns (documents: map<string, Document>)
    modifies audit
    ensures audit.report == After(old(audit.report), DocumentsEvents(ds)) && documents == DocumentMap(ds)
  {
    hide After, DocumentEvents;
    AfterNothing(audit.report, []);
    documents := map[];
    for i := 0 to |ds|
      invariant audit.report == After(old(audit.report), DocumentsEvents(ds[..i])) && documents == DocumentMap(ds[..i])
    {
      assert ds[..i + 1][..i] == ds[..i];
      documents := documents[ds[i].id := ds[i]];
      AfterJoins(old(audit.report), DocumentsEvents(ds[..i]), DocumentEvents(ds[i]));
      ScanDocument(audit, ds[i]);
    }
    assert ds[..|ds|] == ds;
  }

  method ScanCited(audit: Auditor, d: Document, citations: map<string, Citation>)
    modifies audit
    ensures audit.report == After(old(audit.report), CitedEvents(d, d.citationIds, citations))
  {
    hide After;
    AfterNothing(audit.report, []);
    var ids := d.citationIds;
    for i := 0 to |ids|
      invariant audit.report == After(old(audit.report), CitedEvents(d, ids[..i], citations))
    {
      ghost var sofar := CitedEvents(d, ids[..i], citations);
      assert ids[..i + 1][..i] == ids[..i];
      AfterNothing(old(audit.report), sofar);
      if ids[i] !in citations {
        AfterJoins(old(audit.report), sofar, [Report(CitationMissing, d.stagedPath)]);
        Add(audit, CitationMissing, d.stagedPath);
        continue;
      }
      if d.id !in citations[ids[i]].documentIds {
        AfterJoins(old(audit.report), sofar, [Report(NotReciprocal, d.stagedPath)]);
        Add(audit, NotReciprocal, d.stagedPath);
      }
    }
    assert ids[..|ids|] == ids;
  }

  method ScanCiting(audit: Auditor, c: Citation, documents: map<string, Document>)
    modifies audit
    ensures audit.report == After(old(audit.report), CitingEvents(c, c.documentIds, documents))
  {
    hide After;
    AfterNothing(audit.report, []);
    var ids := c.documentIds;
    for i := 0 to |ids|
      invariant audit.report == After(old(audit.report), CitingEvents(c, ids[..i], documents))
    {
      ghost var sofar := CitingEvents(c, ids[..i], documents);
      assert ids[..i + 1][..i] == ids[..i];
      AfterNothing(old(audit.report), sofar);
      if ids[i] !in documents {
        AfterJoins(old(audit.report), sofar, [Report(DocumentMissing, "")]);
        Add(audit, DocumentMissing, "");
        continue;
      }
      if c.id !in documents[ids[i]].citationIds {
        AfterJoins(old(audit.report), sofar, [Report(NotReciprocal, documents[ids[i]].stagedPath)]);
        Add(audit, NotReciprocal, documents[ids[i]].stagedPath);
      }
    }
    assert ids[..|ids|] == ids;
  }

  // scanReciprocalReferences
  method ScanReciprocalReferences(
      audit: Auditor, documents: map<string, Document>, citations: map<string, Citation>, o: Orders)
    requires Enumerates(o.documents, documents) && Enumerates(o.citations, citations)
    modifies audit
    ensures audit.report
            == After(old(audit.report),
                     AllCitedEvents(o.documents, documents, citations) + AllCitingEvents(o.citations, documents, citations))
  {
    hide After, CitedEvents, CitingEvents, AllCitedEvents, AllCitingEvents;
    NoneCited(documents, citations);
    assert o.documents[..0] == [] && o.citations[..0] == [];
    ghost var r := audit.report;
    AfterNothing(r, []);
    for i := 0 to |o.documents|
      invariant audit.report == After(r, AllCitedEvents(o.documents[..i], documents, citations))
    {
      var d := documents[o.documents[i]];
      CitedGrows(o.documents, i, documents, citations);
      AfterJoins(r, AllCitedEvents(o.documents[..i], documents, citations), CitedEvents(d, d.citationIds, citations));
      ScanCited(audit, d, citations);
    }
    assert o.documents[..|o.documents|] == o.documents;
    ghost var m := audit.report;
    AfterNothing(m, []);
    for i := 0 to |o.citations|
      invariant audit.report == After(m, AllCitingEvents(o.citations[..i], documents, citations))
    {
      var c := citations[o.citations[i]];
      CitingGrows(o.citations, i, documents, citations);
      AfterJoins(m, AllCitingEvents(o.citations[..i], documents, citations), CitingEvents(c, c.documentIds, documents));
      ScanCiting(audit, c, documents);
    }
    assert o.citations[..|o.citations|] == o.citations;
    AfterJoins(r, AllCitedEvents(o.documents, documents, citations), AllCitingEvents(o.citations, documents, citations));
  }

  lemma NoneCited(documents: map<string, Document>, citations: map<string, Citation>)
    ensures AllCitedEvents([], documents, citations) == [] && AllCitingEvents([], documents, citations) == []
  {
  }

  lemma CitedGrows(order: seq<string>, i: nat, documents: map<string, Document>, citations: map<string, Citation>)
    requires i < |order| && forall k :: 0 <= k < |order| ==> order[k] in documents
    ensures var d := documents[order[i]];
            AllCitedEvents(order[..i + 1], documents, citations)
            == AllCitedEvents(order[..i], documents, citations) + CitedEvents(d, d.citationIds, citations)
  {
    hide CitedEvents;
    assert order[..i + 1][..i] == order[..i];
  }

  lemma CitingGrows(order: seq<string>, i: nat, documents: map<string, Document>, citations: map<string, Citation>)
    requires i < |order| && forall k :: 0 <= k < |order| ==> order[k] in citations
    ensures var c := citations[order[i]];
            AllCitingEvents(order[..i + 1], documents, citations)
            == AllCitingEvents(order[..i], documents, citations) + CitingEvents(c, c.documentIds, documents)
  {
    hide CitingEvents;
    assert order[..i + 1][..i] == order[..i];
  }

  method ScanEvidence(audit: Auditor, found: seq<Option<Code>>)
    modifies audit
    ensures audit.report == After(old(audit.report), EvidenceEvents(found))
  {
    hide After;
    AfterNothing(audit.report, []);
    for i := 0 to |found|
      invariant audit.report == After(old(audit.report), EvidenceEvents(found[..i]))
    {
      ghost var sofar := EvidenceEvents(found[..i]);
      assert found[..i + 1][..i] == found[..i];
      AfterNothing(old(audit.report), sofar);
      if found[i].Some? {
        AfterJoins(old(audit.report), sofar, [Report(found[i].value, "")]);
        Add(audit, found[i].value, "");
      }
    }
    assert found[..|found|] == found;
  }

  method CollectCitations(cs: seq<Citation>) returns (citations: map<string, Citation>)
    ensures citations == CitationMap(cs)
  {
    citations := map[];
    for i := 0 to |cs|
      invariant citations == CitationMap(cs[..i])
    {
      assert cs[..i + 1][..i] == cs[..i];
      citations := citations[cs[i].id := cs[i]];
    }
    assert cs[..|cs|] == cs;
  }

  // The checks of a scan whose index, citations and verdict are usable.
  method ScanBody(audit: Auditor, input: Input, v: Verdict, f: FinalIndex, c: CitationIndex, o: Orders)
    requires Visits(o, f, c)
    modifies audit
    ensures audit.report == After(old(audit.report), BodyEvents(input, v, f, c, o))
  {
    hide After, ValidatorEvents, DocumentsEvents, AllCitedEvents, AllCitingEvents, EvidenceEvents;
    ghost var r := audit.report;
    ghost var done := ValidatorEvents(v, input.finalPath, input.citationPath);
    ScanValidatorPaths(audit, v, input.finalPath, input.citationPath);
    var citations := CollectCitations(c.citations);
    AfterJoins(r, done, DocumentsEvents(f.documents));
    var documents := ScanDocuments(audit, f.documents);
    done := done + DocumentsEvents(f.documents);
    ghost var cited, citing := AllCitedEvents(o.documents, documents, citations), AllCitingEvents(o.citations, documents, citations);
    AfterJoins(r, done, cited + citing);
    assert done + (cited + citing) == done + cited + citing;
    ScanReciprocalReferences(audit, documents, citations, o);
    done := done + cited + citing;
    AfterJoins(r, done, EvidenceEvents(CitationEvidence(c.citations)));
    ScanEvidence(audit, CitationEvidence(c.citations));
    done := done + EvidenceEvents(CitationEvidence(c.citations));
    AfterJoins(r, done, EvidenceEvents(f.evidence));
    ScanEvidence(audit, f.evidence);
    done := done + EvidenceEvents(f.evidence);
    AfterNothing(r, done);
    AfterJoins(r, done, HomeEvents(f));
    if !(exists i :: 0 <= i < |f.documents| && f.documents[i].canonicalPath == HOME) {
      Add(audit, ArchitectureHomeMissing, HOME);
    }
  }

  // scan and finish
  method Scan(input: Input, o: Orders) returns (report: Audit.Report)
    requires Usable(input) ==> Visits(o, input.finalIndex.value, input.citationIndex.value)
    ensures report == Final(After(EMPTY, ScanEvents(input, o)))
  {
    hide After, BodyEvents, Final;
    var audit := new Auditor();
    ScanGates(audit, input);
    ghost var done := GateEvents(input);
    AfterNothing(EMPTY, done);
    if Usable(input) {
      AfterJoins(EMPTY, done, VerdictEvents(input));
      ScanVerdict(audit, input);
      done := done + VerdictEvents(input);
      AfterNothing(EMPTY, done);
      if GoesOn(input) {
        AfterJoins(EMPTY, done, BodyEvents(input, VerdictOf(input).value, input.finalIndex.value, input.citationIndex.value, o));
        ScanBody(audit, input, VerdictOf(input).value, input.finalIndex.value, input.citationIndex.value, o);
      }
    } else {
      assert done + [] + [] == done;
    }
    audit.Finish();
    report := audit.report;
  }

  method ScanGates(audit: Auditor, input: Input)
    modifies audit
    ensures audit.report == After(old(audit.report), GateEvents(input))
  {
    hide After;
    if !RunIdValid(input.runId) {
      Add(audit, RunIdInvalid, "");
      return;
    }
    if input.finalIndex.Unreadable? {
      Add(audit, FinalIndexUnavailable, input.finalPath);
      return;
    }
    if input.finalIndex.Unparsable? {
      Add(audit, FinalIndexInvalid, input.finalPath);
      return;
    }
    if input.finalIndex.value.runId != input.runId {
      Add(audit, RunIdentityForeign, input.finalPath);
      return;
    }
    ghost var r, first := audit.report, [Recorded(input.finalIndex.raw)];
    Record(audit, input.finalIndex.raw);
    if !input.finalIndex.value.citationPathOwn {
      AfterJoins(r, first, [Report(CitationIndexForeign, input.citationPath)]);
      Add(audit, CitationIndexForeign, input.citationPath);
      return;
    }
    if input.citationIndex.Unreadable? {
      AfterJoins(r, first, [Report(CitationIndexUnavailable, input.citationPath)]);
      Add(audit, CitationIndexUnavailable, input.citationPath);
      return;
    }
    if input.citationIndex.Unparsable? || input.citationIndex.value.runId != input.runId {
      AfterJoins(r, first, [Report(CitationIndexInvalid, input.citationPath)]);
      Add(audit, CitationIndexInvalid, input.citationPath);
      return;
    }
    AfterJoins(r, first, [Recorded(input.citationIndex.raw)]);
    Record(audit, input.citationIndex.raw);
  }

  method ScanVerdict(audit: Auditor, input: Input)
    modifies audit
    ensures audit.report == After(old(audit.report), VerdictEvents(input))
  {
    hide After;
    if input.candidate.None? {
      if input.verdict.Unreadable? {
        Add(audit, ValidatorUnavailable, input.verdictPath);
        return;
      }
      if input.verdict.Unparsable? || input.verdict.value.runId != input.runId || !input.verdict.value.pass {
        Add(audit, ValidatorNotPromoted, input.verdictPath);
        return;
      }
    }
    ghost var r := audit.report;
    AfterNothing(r, []);
    if !input.verdict.Unreadable? {
      Record(audit, input.verdict.raw);
      AfterNothing(r, [Recorded(input.verdict.raw)]);
    }
    var verdict := if input.candidate.Some? then input.candidate.value else input.verdict.value;
    if verdict.runId != input.runId {
      ghost var recorded := if input.verdict.Unreadable? then [] else [Recorded(input.verdict.raw)];
      AfterJoins(r, recorded, [Report(ValidatorRunForeign, input.verdictPath)]);
      Add(audit, ValidatorRunForeign, input.verdictPath);
    }
  }

  // ---------------------------------------------------------------- what a scan finds

  // Some check reported this code for this path.
  predicate Tells(es: seq<Event>, code: Code, path: string) {
    exists i :: 0 <= i < |es| && es[i].Reported? && es[i].finding.code == code && es[i].finding.path == path
  }

  // Every finding of a scan but these two is an error.
  predicate Excepted(code: Code) { code == ProposalNotActionable || code == RepoUnavailable }

  predicate Graded(es: seq<Event>) {
    forall i :: 0 <= i < |es| && es[i].Reported? ==> (es[i].finding.severity.Error? <==> !Excepted(es[i].finding.code))
  }

  predicate Twice(paths: seq<Checked>, p: Checked) {
    exists i, j :: 0 <= i < j < |paths| && paths[i] == p && paths[j] == p
  }

  // What scanDocument finds wrong with a document.
  predicate Shows(d: Document, code: Code) {
    match d.staged
    case Escapes => code.StagedPathEscape?
    case Unavailable => code.DocumentUnavailable?
    case Available(_, faults) => code in faults
  }

  // A document cites an absent citation, or one that does not name it back.
  predicate Cites(d: Document, ids: seq<string>, citations: map<string, Citation>, code: Code) {
    || (code.CitationMissing? && exists c :: c in ids && c !in citations)
    || (code.NotReciprocal? && exists c :: c in ids && c in citations && d.id !in citations[c].documentIds)
  }

  // The other way round.
  predicate Cited(c: Citation, ids: seq<string>, documents: map<string, Document>, code: Code, path: string) {
    || (code.DocumentMissing? && path == "" && exists d :: d in ids && d !in documents)
    || (code.NotReciprocal?
        && exists d :: d in ids && d in documents && documents[d].stagedPath == path && c.id !in documents[d].citationIds)
  }

  // What ends the scan before the verdict is looked at.
  predicate GateFinds(input: Input, code: Code, path: string) {
    var id := input.runId;
    if id == "" || '/' in id || '\\' in id || id == "." || id == ".." then code.RunIdInvalid? && path == ""
    else if input.finalIndex.Unreadable? then code.FinalIndexUnavailable? && path == input.finalPath
    else if input.finalIndex.Unparsable? then code.FinalIndexInvalid? && path == input.finalPath
    else if input.finalIndex.value.runId != input.runId then code.RunIdentityForeign? && path == input.finalPath
    else if !input.finalIndex.value.citationPathOwn then code.CitationIndexForeign? && path == input.citationPath
    else if input.citationIndex.Unreadable? then code.CitationIndexUnavailable? && path == input.citationPath
    else if input.citationIndex.Unparsable? || input.citationIndex.value.runId != input.runId then
      code.CitationIndexInvalid? && path == input.citationPath
    else false
  }

  // What is wrong with the candidate or, without one, with the provider's verdict.
  predicate VerdictFinds(input: Input, code: Code) {
    if input.candidate.Some? then code.ValidatorRunForeign? && input.candidate.value.runId != input.runId
    else if input.verdict.Unreadable? then code.ValidatorUnavailable?
    else code.ValidatorNotPromoted?
         && !(input.verdict.Parsed? && input.verdict.value.runId == input.runId && input.verdict.value.pass)
  }

  predicate PathsFind(v: Verdict, finalPath: string, citationPath: string, code: Code, path: string) {
    || (code.CheckedPathForeign? && Foreign(path) in v.checkedPaths)
    || (code.CheckedPathDuplicate? && Twice(v.checkedPaths, Inside(path)))
    || (code.CheckedPathMissingFinal? && path == finalPath && Inside(finalPath) !in v.checkedPaths)
    || (code.CheckedPathMissingCitation? && path == citationPath && Inside(citationPath) !in v.checkedPaths)
    || (code.FixedPathForeign? && Foreign(path) in v.fixedPaths)
  }

  predicate DocumentsFind(ds: seq<Document>, code: Code, path: string) {
    exists i :: 0 <= i < |ds| && ds[i].stagedPath == path && Shows(ds[i], code)
  }

  predicate CitesFind(documents: map<string, Document>, citations: map<string, Citation>, code: Code, path: string) {
    exists d :: d in documents && documents[d].stagedPath == path && Cites(documents[d], documents[d].citationIds, citations, code)
  }

  predicate CitedFind(documents: map<string, Document>, citations: map<string, Citation>, code: Code, path: string) {
    exists c :: c in citations && Cited(citations[c], citations[c].documentIds, documents, code, path)
  }

  predicate EvidenceFinds(found: seq<Option<Code>>, code: Code, path: string) {
    path == "" && Some(code) in found
  }

  predicate HomeFinds(f: FinalIndex, code: Code, path: string) {
    code.ArchitectureHomeMissing? && path == HOME && forall i :: 0 <= i < |f.documents| ==> f.documents[i].canonicalPath != HOME
  }

  predicate BodyFinds(input: Input, v: Verdict, f: FinalIndex, c: CitationIndex, code: Code, path: string) {
    || PathsFind(v, input.finalPath, input.citationPath, code, path)
    || DocumentsFind(f.documents, code, path)
    || CitesFind(DocumentMap(f.documents), CitationMap(c.citations), code, path)
    || CitedFind(DocumentMap(f.documents), CitationMap(c.citations), code, path)
    || EvidenceFinds(CitationEvidence(c.citations), code, path)
    || EvidenceFinds(f.evidence, code, path)
    || HomeFinds(f, code, path)
  }

  // Everything that is wrong with a run, code by code and path by path.
  predicate Finds(input: Input, code: Code, path: string) {
    || GateFinds(input, code, path)
    || (Usable(input) && path == input.verdictPath && VerdictFinds(input, code))
    || (GoesOn(input) && BodyFinds(input, VerdictOf(input).value, input.finalIndex.value, input.citationIndex.value, code, path))
  }

  lemma TellsBoth(es: seq<Event>, fs: seq<Event>, code: Code, path: string)
    ensures Tells(es + fs, code, path) <==> Tells(es, code, path) || Tells(fs, code, path)
    ensures Graded(es + fs) <==> Graded(es) && Graded(fs)
  {
    var all := es + fs;
    assert forall i :: 0 <= i < |es| ==> all[i] == es[i];
    assert forall i :: 0 <= i < |fs| ==> all[|es| + i] == fs[i];
    assert forall i :: 0 <= i < |all| ==> all[i] == if i < |es| then es[i] else fs[i - |es|];
  }

  lemma TellsOne(own: Code, at: string, raw: Artifact, code: Code, path: string)
    ensures Tells([Report(own, at)], code, path) <==> code == own && path == at
    ensures !Tells([Recorded(raw)], code, path) && !Tells([], code, path)
    ensures Graded([Report(own, at)]) && Graded([Recorded(raw)]) && Graded([])
  {
    ReportIsGraded(own, at);
    TellsNothing(code, path);
    var one, other := [Report(own, at)], [Recorded(raw)];
    assert one[0].Reported? && one[0].finding.code == own && one[0].finding.path == at;
    assert !other[0].Reported?;
    hide Severity, Excepted, Report;
  }

  lemma ReportIsGraded(own: Code, at: string)
    ensures Report(own, at).finding.severity.Error? <==> !Excepted(own)
  {
  }

  lemma TellsNothing(code: Code, path: string)
    ensures !Tells([], code, path) && Graded([])
  {
  }

  lemma {:induction false} CheckedTell(paths: seq<Checked>, code: Code, path: string)
    ensures Tells(CheckedEvents(paths), code, path)
            <==> (code.CheckedPathForeign? && Foreign(path) in paths) || (code.CheckedPathDuplicate? && Twice(paths, Inside(path)))
    ensures Graded(CheckedEvents(paths))
  {
    hide Tells, Graded, Report, Twice;
    TellsNothing(code, path);
    if paths == [] {
      NoneTwice(Inside(path));
    } else {
      var init, last := paths[..|paths| - 1], paths[|paths| - 1];
      CheckedTell(init, code, path);
      assert paths == init + [last];
      assert SeenBefore(paths, |paths| - 1) <==> last in init;
      TwiceGrows(init, last, Inside(path));
      hide SeenBefore;
      var own := if last.Foreign? then CheckedPathForeign else CheckedPathDuplicate;
      var at := if last.Foreign? then last.raw else last.path;
      TellsOne(own, at, Artifact("", 0, ""), code, path);
      TellsBoth(CheckedEvents(init), if last.Foreign? || last in init then [Report(own, at)] else [], code, path);
    }
  }

  lemma NoneTwice(p: Checked)
    ensures !Twice([], p)
  {
  }

  lemma TwiceGrows(init: seq<Checked>, last: Checked, p: Checked)
    ensures Twice(init + [last], p) <==> Twice(init, p) || (last == p && p in init)
  {
    var all := init + [last];
    assert forall i :: 0 <= i < |init| ==> all[i] == init[i];
    if last == p && p in init {
      var i :| 0 <= i < |init| && init[i] == p;
      assert all[i] == p && all[|init|] == p;
    }
  }

  lemma {:induction false} FixedTell(paths: seq<Checked>, code: Code, path: string)
    ensures Tells(FixedEvents(paths), code, path) <==> code.FixedPathForeign? && Foreign(path) in paths
    ensures Graded(FixedEvents(paths))
  {
    hide Tells, Graded, Report;
    TellsNothing(code, path);
    if paths != [] {
      var init, last := paths[..|paths| - 1], paths[|paths| - 1];
      FixedTell(init, code, path);
      TellsOne(FixedPathForeign, if last.Foreign? then last.raw else "", Artifact("", 0, ""), code, path);
      TellsBoth(FixedEvents(init), if last.Foreign? then [Report(FixedPathForeign, last.raw)] else [], code, path);
      assert paths == init + [last];
    }
  }

  lemma ValidatorTells(v: Verdict, finalPath: string, citationPath: string, code: Code, path: string)
    ensures Tells(ValidatorEvents(v, finalPath, citationPath), code, path) <==> PathsFind(v, finalPath, citationPath, code, path)
    ensures Graded(ValidatorEvents(v, finalPath, citationPath))
  {
    CheckedTell(v.checkedPaths, code, path);
    FixedTell(v.fixedPaths, code, path);
    TellsOne(CheckedPathMissingFinal, finalPath, Artifact("", 0, ""), code, path);
    TellsOne(CheckedPathMissingCitation, citationPath, Artifact("", 0, ""), code, path);
    hide Tells, Graded, Report, CheckedEvents, FixedEvents, Twice;
    var a := if Inside(finalPath) in v.checkedPaths then [] else [Report(CheckedPathMissingFinal, finalPath)];
    var b := if Inside(citationPath) in v.checkedPaths then [] else [Report(CheckedPathMissingCitation, citationPath)];
    TellsBoth(CheckedEvents(v.checkedPaths), a, code, path);
    TellsBoth(CheckedEvents(v.checkedPaths) + a, b, code, path);
    TellsBoth(CheckedEvents(v.checkedPaths) + a + b, FixedEvents(v.fixedPaths), code, path);
  }

  lemma {:induction false} FaultsTell(faults: seq<Code>, at: string, code: Code, path: string)
    ensures Tells(FaultEvents(faults, at), code, path) <==> code in faults && path == at
    ensures Graded(FaultEvents(faults, at))
  {
    hide Tells, Graded, Report;
    TellsNothing(code, path);
    if faults != [] {
      var init, last := faults[..|faults| - 1], faults[|faults| - 1];
      FaultsTell(init, at, code, path);
      TellsOne(last, at, Artifact("", 0, ""), code, path);
      TellsBoth(FaultEvents(init, at), [Report(last, at)], code, path);
      assert faults == init + [last];
    }
  }

  lemma DocumentTells(d: Document, code: Code, path: string)
    ensures Tells(DocumentEvents(d), code, path) <==> d.stagedPath == path && Shows(d, code)
    ensures Graded(DocumentEvents(d))
  {
    var raw := if d.staged.Available? then d.staged.raw else Artifact("", 0, "");
    TellsOne(if d.staged.Escapes? then StagedPathEscape else DocumentUnavailable, d.stagedPath, raw, code, path);
    hide Tells, Graded, Report, FaultEvents;
    if d.staged.Available? {
      FaultsTell(d.staged.faults, d.stagedPath, code, path);
      TellsBoth([Recorded(raw)], FaultEvents(d.staged.faults, d.stagedPath), code, path);
    }
  }

  lemma {:induction false} DocumentsTell(ds: seq<Document>, code: Code, path: string)
    ensures Tells(DocumentsEvents(ds), code, path) <==> DocumentsFind(ds, code, path)
    ensures Graded(DocumentsEvents(ds))
  {
    hide Tells, Graded, DocumentEvents, Shows, DocumentsFind;
    TellsNothing(code, path);
    if ds == [] {
      NoDocument(code, path);
    } else {
      var init, last := ds[..|ds| - 1], ds[|ds| - 1];
      DocumentsTell(init, code, path);
      DocumentTells(last, code, path);
      TellsBoth(DocumentsEvents(init), DocumentEvents(last), code, path);
      assert ds == init + [last];
      OneMoreDocument(init, last, code, path);
    }
  }

  lemma NoDocument(code: Code, path: string)
    ensures !DocumentsFind([], code, path)
  {
  }

  lemma OneMoreDocument(ds: seq<Document>, d: Document, code: Code, path: string)
    ensures DocumentsFind(ds + [d], code, path) <==> DocumentsFind(ds, code, path) || (d.stagedPath == path && Shows(d, code))
  {
    hide Shows;
    var all := ds + [d];
    assert all[|ds|] == d;
    assert forall i :: 0 <= i < |ds| ==> all[i] == ds[i];
  }

  lemma {:induction false} CitesTell(d: Document, ids: seq<string>, citations: map<string, Citation>, code: Code, path: string)
    ensures Tells(CitedEvents(d, ids, citations), code, path) <==> d.stagedPath == path && Cites(d, ids, citations, code)
    ensures Graded(CitedEvents(d, ids, citations))
  {
    hide Tells, Graded, Report;
    TellsNothing(code, path);
    if ids != [] {
      var init, last := ids[..|ids| - 1], ids[|ids| - 1];
      CitesTell(d, init, citations, code, path);
      var own := if last !in citations then CitationMissing else NotReciprocal;
      var bad := last !in citations || d.id !in citations[last].documentIds;
      TellsOne(own, d.stagedPath, Artifact("", 0, ""), code, path);
      TellsBoth(CitedEvents(d, init, citations), if bad then [Report(own, d.stagedPath)] else [], code, path);
      assert ids == init + [last];
    }
  }

  lemma {:induction false} CitedTell(c: Citation, ids: seq<string>, documents: map<string, Document>, code: Code, path: string)
    ensures Tells(CitingEvents(c, ids, documents), code, path) <==> Cited(c, ids, documents, code, path)
    ensures Graded(CitingEvents(c, ids, documents))
  {
    hide Tells, Graded, Report;
    TellsNothing(code, path);
    if ids != [] {
      var init, last := ids[..|ids| - 1], ids[|ids| - 1];
      CitedTell(c, init, documents, code, path);
      var own := if last !in documents then DocumentMissing else NotReciprocal;
      var at := if last !in documents then "" else documents[last].stagedPath;
      var bad := last !in documents || c.id !in documents[last].citationIds;
      TellsOne(own, at, Artifact("", 0, ""), code, path);
      TellsBoth(CitingEvents(c, init, documents), if bad then [Report(own, at)] else [], code, path);
      assert ids == init + [last];
    }
  }

  lemma {:induction false} AllCitesTell(
      order: seq<string>, documents: map<string, Document>, citations: map<string, Citation>, code: Code, path: string)
    requires forall i :: 0 <= i < |order| ==> order[i] in documents
    ensures Tells(AllCitedEvents(order, documents, citations), code, path)
            <==> exists d :: d in order && documents[d].stagedPath == path
                             && Cites(documents[d], documents[d].citationIds, citations, code)
    ensures Graded(AllCitedEvents(order, documents, citations))
  {
    hide Tells, Graded, CitedEvents, Cites;
    TellsNothing(code, path);
    if order != [] {
      var init, last := order[..|order| - 1], order[|order| - 1];
      AllCitesTell(init, documents, citations, code, path);
      var d := documents[last];
      CitesTell(d, d.citationIds, citations, code, path);
      TellsBoth(AllCitedEvents(init, documents, citations), CitedEvents(d, d.citationIds, citations), code, path);
      assert order == init + [last];
    }
  }

  lemma {:induction false} AllCitedTell(
      order: seq<string>, documents: map<string, Document>, citations: map<string, Citation>, code: Code, path: string)
    requires forall i :: 0 <= i < |order| ==> order[i] in citations
    ensures Tells(AllCitingEvents(order, documents, citations), code, path)
            <==> exists c :: c in order && Cited(citations[c], citations[c].documentIds, documents, code, path)
    ensures Graded(AllCitingEvents(order, documents, citations))
  {
    hide Tells, Graded, CitingEvents, Cited;
    TellsNothing(code, path);
    if order != [] {
      var init, last := order[..|order| - 1], order[|order| - 1];
      AllCitedTell(init, documents, citations, code, path);
      var c := citations[last];
      CitedTell(c, c.documentIds, documents, code, path);
      TellsBoth(AllCitingEvents(init, documents, citations), CitingEvents(c, c.documentIds, documents), code, path);
      assert order == init + [last];
    }
  }

  lemma CitesTells(order: seq<string>, documents: map<string, Document>, citations: map<string, Citation>, code: Code, path: string)
    requires Enumerates(order, documents)
    ensures Tells(AllCitedEvents(order, documents, citations), code, path) <==> CitesFind(documents, citations, code, path)
    ensures Graded(AllCitedEvents(order, documents, citations))
  {
    AllCitesTell(order, documents, citations, code, path);
    assert forall d :: d in order <==> d in documents;
    hide Tells, Graded, AllCitedEvents, Cites, Enumerates;
  }

  lemma CitedTells(order: seq<string>, documents: map<string, Document>, citations: map<string, Citation>, code: Code, path: string)
    requires Enumerates(order, citations)
    ensures Tells(AllCitingEvents(order, documents, citations), code, path) <==> CitedFind(documents, citations, code, path)
    ensures Graded(AllCitingEvents(order, documents, citations))
  {
    AllCitedTell(order, documents, citations, code, path);
    assert forall c :: c in order <==> c in citations;
    hide Tells, Graded, AllCitingEvents, Cited, Enumerates;
  }

  lemma {:induction false} EvidenceTells(found: seq<Option<Code>>, code: Code, path: string)
    ensures Tells(EvidenceEvents(found), code, path) <==> EvidenceFinds(found, code, path)
    ensures Graded(EvidenceEvents(found))
  {
    hide Tells, Graded, Report;
    TellsNothing(code, path);
    if found != [] {
      var init, last := found[..|found| - 1], found[|found| - 1];
      EvidenceTells(init, code, path);
      TellsOne(if last.Some? then last.value else RunIdInvalid, "", Artifact("", 0, ""), code, path);
      TellsBoth(EvidenceEvents(init), if last.Some? then [Report(last.value, "")] else [], code, path);
      assert found == init + [last];
    }
  }

  lemma HomeTells(f: FinalIndex, code: Code, path: string)
    ensures Tells(HomeEvents(f), code, path) <==> HomeFinds(f, code, path)
    ensures Graded(HomeEvents(f))
  {
    TellsOne(ArchitectureHomeMissing, HOME, Artifact("", 0, ""), code, path);
    hide Tells, Graded, Report;
  }

  lemma BodyTells(input: Input, v: Verdict, f: FinalIndex, c: CitationIndex, o: Orders, code: Code, path: string)
    requires Visits(o, f, c)
    ensures Tells(BodyEvents(input, v, f, c, o), code, path) <==> BodyFinds(input, v, f, c, code, path)
    ensures Graded(BodyEvents(input, v, f, c, o))
  {
    var documents, citations := DocumentMap(f.documents), CitationMap(c.citations);
    ValidatorTells(v, input.finalPath, input.citationPath, code, path);
    DocumentsTell(f.documents, code, path);
    CitesTells(o.documents, documents, citations, code, path);
    CitedTells(o.citations, documents, citations, code, path);
    EvidenceTells(CitationEvidence(c.citations), code, path);
    EvidenceTells(f.evidence, code, path);
    HomeTells(f, code, path);
    hide Tells, Graded, ValidatorEvents, DocumentsEvents, AllCitedEvents, AllCitingEvents, EvidenceEvents, HomeEvents;
    hide PathsFind, DocumentsFind, CitesFind, CitedFind, EvidenceFinds, HomeFinds, CitationEvidence, DocumentMap, CitationMap;
    var a := ValidatorEvents(v, input.finalPath, input.citationPath);
    var b := a + DocumentsEvents(f.documents);
    var d := b + AllCitedEvents(o.documents, documents, citations);
    var e := d + AllCitingEvents(o.citations, documents, citations);
    var g := e + EvidenceEvents(CitationEvidence(c.citations));
    var h := g + EvidenceEvents(f.evidence);
    TellsBoth(a, DocumentsEvents(f.documents), code, path);
    TellsBoth(b, AllCitedEvents(o.documents, documents, citations), code, path);
    TellsBoth(d, AllCitingEvents(o.citations, documents, citations), code, path);
    TellsBoth(e, EvidenceEvents(CitationEvidence(c.citations)), code, path);
    TellsBoth(g, EvidenceEvents(f.evidence), code, path);
    TellsBoth(h, HomeEvents(f), code, path);
  }

  // An event list that ends the scan with an issue.
  lemma TellsLast(raw: Artifact, own: Code, at: string, code: Code, path: string)
    ensures Tells([Recorded(raw)] + [Report(own, at)], code, path) <==> code == own && path == at
    ensures Graded([Recorded(raw)] + [Report(own, at)])
  {
    TellsOne(own, at, raw, code, path);
    TellsBoth([Recorded(raw)], [Report(own, at)], code, path);
    hide Tells, Graded, Report;
  }

  lemma GateTells(input: Input, code: Code, path: string)
    ensures Tells(GateEvents(input), code, path) <==> GateFinds(input, code, path)
    ensures Graded(GateEvents(input))
  {
    hide Tells, Graded, Report;
    var raw := Artifact("", 0, "");
    if !RunIdValid(input.runId) {
      TellsOne(RunIdInvalid, "", raw, code, path);
    } else if input.finalIndex.Unreadable? {
      TellsOne(FinalIndexUnavailable, input.finalPath, raw, code, path);
    } else if input.finalIndex.Unparsable? {
      TellsOne(FinalIndexInvalid, input.finalPath, raw, code, path);
    } else if input.finalIndex.value.runId != input.runId {
      TellsOne(RunIdentityForeign, input.finalPath, raw, code, path);
    } else {
      CitationGateTells(input, code, path);
    }
  }

  lemma CitationGateTells(input: Input, code: Code, path: string)
    requires RunIdValid(input.runId) && input.finalIndex.Parsed? && input.finalIndex.value.runId == input.runId
    ensures Tells(GateEvents(input), code, path) <==> GateFinds(input, code, path)
    ensures Graded(GateEvents(input))
  {
    hide Tells, Graded, Report;
    if !input.finalIndex.value.citationPathOwn {
      TellsLast(input.finalIndex.raw, CitationIndexForeign, input.citationPath, code, path);
    } else if input.citationIndex.Unreadable? {
      TellsLast(input.finalIndex.raw, CitationIndexUnavailable, input.citationPath, code, path);
    } else if input.citationIndex.Unparsable? || input.citationIndex.value.runId != input.runId {
      TellsLast(input.finalIndex.raw, CitationIndexInvalid, input.citationPath, code, path);
    } else {
      TellsOne(RunIdInvalid, "", input.finalIndex.raw, code, path);
      TellsOne(RunIdInvalid, "", input.citationIndex.raw, code, path);
      TellsBoth([Recorded(input.finalIndex.raw)], [Recorded(input.citationIndex.raw)], code, path);
    }
  }

  lemma VerdictTells(input: Input, code: Code, path: string)
    ensures Tells(VerdictEvents(input), code, path) <==> path == input.verdictPath && VerdictFinds(input, code)
    ensures Graded(VerdictEvents(input))
  {
    hide Tells, Graded, Report;
    TellsNothing(code, path);
    if VerdictOf(input).Ok? {
      var raw := if input.verdict.Unreadable? then Artifact("", 0, "") else input.verdict.raw;
      TellsOne(ValidatorRunForeign, input.verdictPath, raw, code, path);
      TellsBoth(if input.verdict.Unreadable? then [] else [Recorded(raw)],
                if VerdictOf(input).value.runId != input.runId then [Report(ValidatorRunForeign, input.verdictPath)] else [],
                code, path);
    } else {
      TellsOne(VerdictOf(input).error, input.verdictPath, Artifact("", 0, ""), code, path);
    }
  }

  // A scan reports exactly what is wrong with the run, each thing with its own code and
  // path, whatever order Go's maps were visited in; and everything it reports is an error
  // but a proposal that is not actionable and a repository that is not at hand.
  lemma FindingsAreExact(input: Input, o: Orders, code: Code, path: string)
    requires Usable(input) ==> Visits(o, input.finalIndex.value, input.citationIndex.value)
    ensures Tells(ScanEvents(input, o), code, path) <==> Finds(input, code, path)
    ensures Graded(ScanEvents(input, o))
  {
    GateTells(input, code, path);
    TellsNothing(code, path);
    var gate := GateEvents(input);
    var verdict := if Usable(input) then VerdictEvents(input) else [];
    var body :=
      if GoesOn(input) then BodyEvents(input, VerdictOf(input).value, input.finalIndex.value, input.citationIndex.value, o) else [];
    if Usable(input) {
      VerdictTells(input, code, path);
    }
    if GoesOn(input) {
      BodyTells(input, VerdictOf(input).value, input.finalIndex.value, input.citationIndex.value, o, code, path);
    }
    hide Tells, Graded, BodyEvents, GateEvents, VerdictEvents, GateFinds, VerdictFinds, BodyFinds, VerdictOf, Usable;
    TellsBoth(gate, verdict, code, path);
    TellsBoth(gate + verdict, body, code, path);
  }

  // ---------------------------------------------------------------- what a pass says

  // Every citation a document names exists and names it back, and the other way round.
  predicate Reciprocal(documents: map<string, Document>, citations: map<string, Citation>) {
    && (forall d, c :: d in documents && c in documents[d].citationIds ==>
          c in citations && documents[d].id in citations[c].documentIds)
    && (forall c, d :: c in citations && d in citations[c].documentIds ==>
          d in documents && citations[c].id in documents[d].citationIds)
  }

  predicate PathsClean(v: Verdict, finalPath: string, citationPath: string) {
    && (forall i :: 0 <= i < |v.checkedPaths| ==> v.checkedPaths[i].Inside?)
    && (forall i, j :: 0 <= i < j < |v.checkedPaths| ==> v.checkedPaths[i] != v.checkedPaths[j])
    && Inside(finalPath) in v.checkedPaths && Inside(citationPath) in v.checkedPaths
    && (forall i :: 0 <= i < |v.fixedPaths| ==> v.fixedPaths[i].Inside?)
  }

  predicate DocumentsClean(ds: seq<Document>) {
    forall i :: 0 <= i < |ds| ==> ds[i].staged.Available? && ds[i].staged.faults == []
  }

  predicate EvidenceClean(found: seq<Option<Code>>) {
    forall i :: 0 <= i < |found| ==> found[i].None?
  }

  predicate Homed(f: FinalIndex) {
    exists i :: 0 <= i < |f.documents| && f.documents[i].canonicalPath == HOME
  }

  // Nothing is wrong with these but what is only warned of.
  predicate DocumentsTolerable(ds: seq<Document>) {
    forall i :: 0 <= i < |ds| ==> ds[i].staged.Available? && forall code :: code in ds[i].staged.faults ==> Excepted(code)
  }

  predicate EvidenceTolerable(found: seq<Option<Code>>) {
    forall i :: 0 <= i < |found| && found[i].Some? ==> Excepted(found[i].value)
  }

  // A run with nothing wrong but what is only warned of.
  ghost predicate Tolerable(input: Input) {
    && GoesOn(input)
    && var f, c := input.finalIndex.value, input.citationIndex.value;
    && PathsClean(VerdictOf(input).value, input.finalPath, input.citationPath)
    && DocumentsTolerable(f.documents)
    && Reciprocal(DocumentMap(f.documents), CitationMap(c.citations))
    && EvidenceTolerable(CitationEvidence(c.citations)) && EvidenceTolerable(f.evidence)
    && Homed(f)
  }

  // The run the auditor is meant to pass.
  ghost predicate Sound(input: Input) {
    && GoesOn(input)
    && var f, c := input.finalIndex.value, input.citationIndex.value;
    && PathsClean(VerdictOf(input).value, input.finalPath, input.citationPath)
    && DocumentsClean(f.documents)
    && Reciprocal(DocumentMap(f.documents), CitationMap(c.citations))
    && EvidenceClean(CitationEvidence(c.citations)) && EvidenceClean(f.evidence)
    && Homed(f)
  }

  // Whether a finding counts: all of them, or all but the two that only warn.
  predicate Counts(strict: bool, code: Code) { strict || !Excepted(code) }

  lemma PathsQuiet(v: Verdict, finalPath: string, citationPath: string, strict: bool)
    ensures PathsClean(v, finalPath, citationPath)
            <==> forall code, path :: Counts(strict, code) ==> !PathsFind(v, finalPath, citationPath, code, path)
  {
    if Inside(finalPath) !in v.checkedPaths {
      assert PathsFind(v, finalPath, citationPath, CheckedPathMissingFinal, finalPath);
    } else if Inside(citationPath) !in v.checkedPaths {
      assert PathsFind(v, finalPath, citationPath, CheckedPathMissingCitation, citationPath);
    } else if i :| 0 <= i < |v.checkedPaths| && v.checkedPaths[i].Foreign? {
      assert PathsFind(v, finalPath, citationPath, CheckedPathForeign, v.checkedPaths[i].raw);
    } else if i :| 0 <= i < |v.fixedPaths| && v.fixedPaths[i].Foreign? {
      assert PathsFind(v, finalPath, citationPath, FixedPathForeign, v.fixedPaths[i].raw);
    } else if i, j :| 0 <= i < j < |v.checkedPaths| && v.checkedPaths[i] == v.checkedPaths[j] {
      assert Twice(v.checkedPaths, v.checkedPaths[i]);
      assert PathsFind(v, finalPath, citationPath, CheckedPathDuplicate, v.checkedPaths[i].path);
    }
  }

  lemma DocumentsQuiet(ds: seq<Document>, strict: bool)
    ensures (if strict then DocumentsClean(ds) else DocumentsTolerable(ds))
            <==> forall code, path :: Counts(strict, code) ==> !DocumentsFind(ds, code, path)
  {
    forall i | 0 <= i < |ds|
      ensures ds[i].staged.Available? && (strict ==> ds[i].staged.faults == [])
              && (!strict ==> forall code :: code in ds[i].staged.faults ==> Excepted(code))
              <==> forall code :: Counts(strict, code) ==> !Shows(ds[i], code)
    {
      DocumentQuiet(ds[i], strict);
    }
    hide Shows, Counts;
    forall i, code | 0 <= i < |ds| && Shows(ds[i], code)
      ensures DocumentsFind(ds, code, ds[i].stagedPath)
    {
    }
  }

  lemma DocumentQuiet(d: Document, strict: bool)
    ensures d.staged.Available? && (strict ==> d.staged.faults == [])
            && (!strict ==> forall code :: code in d.staged.faults ==> Excepted(code))
            <==> forall code :: Counts(strict, code) ==> !Shows(d, code)
  {
    match d.staged
    case Escapes => assert Shows(d, StagedPathEscape);
    case Unavailable => assert Shows(d, DocumentUnavailable);
    case Available(_, faults) =>
      assert forall code :: code in faults <==> Shows(d, code);
      assert faults != [] ==> faults[0] in faults;
  }

  lemma ReferencesQuiet(documents: map<string, Document>, citations: map<string, Citation>, strict: bool)
    ensures Reciprocal(documents, citations)
            <==> forall code, path :: Counts(strict, code) ==>
                   !CitesFind(documents, citations, code, path) && !CitedFind(documents, citations, code, path)
  {
    if d, c :| d in documents && c in documents[d].citationIds
               && !(c in citations && documents[d].id in citations[c].documentIds) {
      var own := if c in citations then NotReciprocal else CitationMissing;
      assert Cites(documents[d], documents[d].citationIds, citations, own);
      assert CitesFind(documents, citations, own, documents[d].stagedPath);
    } else if c, d :| c in citations && d in citations[c].documentIds
                      && !(d in documents && citations[c].id in documents[d].citationIds) {
      var own, at := if d in documents then NotReciprocal else DocumentMissing, if d in documents then documents[d].stagedPath else "";
      assert Cited(citations[c], citations[c].documentIds, documents, own, at);
      assert CitedFind(documents, citations, own, at);
    }
  }

  lemma EvidenceQuiet(found: seq<Option<Code>>, strict: bool)
    ensures (if strict then EvidenceClean(found) else EvidenceTolerable(found))
            <==> forall code, path :: Counts(strict, code) ==> !EvidenceFinds(found, code, path)
  {
    if i :| 0 <= i < |found| && found[i].Some? && Counts(strict, found[i].value) {
      assert EvidenceFinds(found, found[i].value, "");
    }
  }

  lemma HomeQuiet(f: FinalIndex, strict: bool)
    ensures Homed(f) <==> forall code, path :: Counts(strict, code) ==> !HomeFinds(f, code, path)
  {
    if !Homed(f) {
      assert HomeFinds(f, ArchitectureHomeMissing, HOME);
    }
  }

  lemma GateQuiet(input: Input, strict: bool)
    ensures Usable(input) <==> forall code, path :: Counts(strict, code) ==> !GateFinds(input, code, path)
  {
    assert GateFinds(input, RunIdInvalid, "") || GateFinds(input, FinalIndexUnavailable, input.finalPath)
        || GateFinds(input, FinalIndexInvalid, input.finalPath) || GateFinds(input, RunIdentityForeign, input.finalPath)
        || GateFinds(input, CitationIndexForeign, input.citationPath) || GateFinds(input, CitationIndexUnavailable, input.citationPath)
        || GateFinds(input, CitationIndexInvalid, input.citationPath) || Usable(input);
  }

  lemma VerdictQuiet(input: Input, strict: bool)
    ensures VerdictOf(input).Ok? && VerdictOf(input).value.runId == input.runId
            <==> forall code :: Counts(strict, code) ==> !VerdictFinds(input, code)
  {
    assert VerdictFinds(input, ValidatorRunForeign) || VerdictFinds(input, ValidatorUnavailable)
        || VerdictFinds(input, ValidatorNotPromoted) || (VerdictOf(input).Ok? && VerdictOf(input).value.runId == input.runId);
  }

  lemma BodyQuiet(input: Input, v: Verdict, f: FinalIndex, c: CitationIndex, strict: bool)
    ensures PathsClean(v, input.finalPath, input.citationPath)
            && (if strict then DocumentsClean(f.documents) else DocumentsTolerable(f.documents))
            && Reciprocal(DocumentMap(f.documents), CitationMap(c.citations))
            && (if strict then EvidenceClean(CitationEvidence(c.citations)) else EvidenceTolerable(CitationEvidence(c.citations)))
            && (if strict then EvidenceClean(f.evidence) else EvidenceTolerable(f.evidence))
            && Homed(f)
            <==> forall code, path :: Counts(strict, code) ==> !BodyFinds(input, v, f, c, code, path)
  {
    hide PathsClean, DocumentsClean, DocumentsTolerable, Reciprocal, EvidenceClean, EvidenceTolerable, Homed, Counts;
    hide PathsFind, DocumentsFind, CitesFind, CitedFind, EvidenceFinds, HomeFinds, DocumentMap, CitationMap, CitationEvidence;
    PathsQuiet(v, input.finalPath, input.citationPath, strict);
    DocumentsQuiet(f.documents, strict);
    ReferencesQuiet(DocumentMap(f.documents), CitationMap(c.citations), strict);
    EvidenceQuiet(CitationEvidence(c.citations), strict);
    EvidenceQuiet(f.evidence, strict);
    HomeQuiet(f, strict);
    var documents, citations := DocumentMap(f.documents), CitationMap(c.citations);
    assert forall code, path :: PathsFind(v, input.finalPath, input.citationPath, code, path) ==> BodyFinds(input, v, f, c, code, path);
    assert forall code, path :: DocumentsFind(f.documents, code, path) ==> BodyFinds(input, v, f, c, code, path);
    assert forall code, path :: CitesFind(documents, citations, code, path) ==> BodyFinds(input, v, f, c, code, path);
    assert forall code, path :: CitedFind(documents, citations, code, path) ==> BodyFinds(input, v, f, c, code, path);
    assert forall code, path :: EvidenceFinds(CitationEvidence(c.citations), code, path) ==> BodyFinds(input, v, f, c, code, path);
    assert forall code, path :: EvidenceFinds(f.evidence, code, path) ==> BodyFinds(input, v, f, c, code, path);
    assert forall code, path :: HomeFinds(f, code, path) ==> BodyFinds(input, v, f, c, code, path);
  }

  // A run is sound exactly when nothing is found wrong with it, and tolerable exactly when
  // nothing but the two excepted codes is.
  lemma ScanQuiet(input: Input, strict: bool)
    ensures (if strict then Sound(input) else Tolerable(input))
            <==> forall code, path :: Counts(strict, code) ==> !Finds(input, code, path)
  {
    GateQuiet(input, strict);
    VerdictQuiet(input, strict);
    if GoesOn(input) {
      BodyQuiet(input, VerdictOf(input).value, input.finalIndex.value, input.citationIndex.value, strict);
    }
    hide PathsClean, DocumentsClean, DocumentsTolerable, Reciprocal, EvidenceClean, EvidenceTolerable, Homed, Counts;
    hide GateFinds, VerdictFinds, BodyFinds, VerdictOf, Usable, DocumentMap, CitationMap, CitationEvidence;
    assert forall code, path :: GateFinds(input, code, path) ==> Finds(input, code, path);
    if GoesOn(input) {
      var v, f, c := VerdictOf(input).value, input.finalIndex.value, input.citationIndex.value;
      assert forall code, path :: BodyFinds(input, v, f, c, code, path) ==> Finds(input, code, path);
    } else if Usable(input) {
      var code :| Counts(strict, code) && VerdictFinds(input, code);
      assert Finds(input, code, input.verdictPath);
    }
  }

  lemma ReportsAreTold(es: seq<Event>)
    requires Graded(es)
    ensures ReportsAnything(es) <==> exists code, path :: Counts(true, code) && Tells(es, code, path)
    ensures ReportsError(es) <==> exists code, path :: Counts(false, code) && Tells(es, code, path)
  {
    if i :| 0 <= i < |es| && es[i].Reported? {
      assert Tells(es, es[i].finding.code, es[i].finding.path);
    }
    if i :| 0 <= i < |es| && es[i].Reported? && es[i].finding.severity.Error? {
      assert Tells(es, es[i].finding.code, es[i].finding.path);
    }
  }

  lemma ScanReports(input: Input, o: Orders)
    requires Usable(input) ==> Visits(o, input.finalIndex.value, input.citationIndex.value)
    ensures !ReportsAnything(ScanEvents(input, o)) <==> Sound(input)
    ensures !ReportsError(ScanEvents(input, o)) <==> Tolerable(input)
  {
    hide *;
    forall code, path
      ensures Tells(ScanEvents(input, o), code, path) <==> Finds(input, code, path)
    {
      FindingsAreExact(input, o, code, path);
    }
    FindingsAreExact(input, o, RunIdInvalid, "");
    ReportsAreTold(ScanEvents(input, o));
    ScanQuiet(input, true);
    ScanQuiet(input, false);
  }

  // ---------------------------------------------------------------- what a sound scan reads

  predicate OnlyReports(es: seq<Event>) {
    forall i :: 0 <= i < |es| ==> es[i].Reported?
  }

  lemma {:induction false} CheckedOnlyReport(paths: seq<Checked>)
    ensures OnlyReports(CheckedEvents(paths))
  {
    if paths != [] {
      CheckedOnlyReport(paths[..|paths| - 1]);
    }
  }

  lemma {:induction false} FixedOnlyReport(paths: seq<Checked>)
    ensures OnlyReports(FixedEvents(paths))
  {
    if paths != [] {
      FixedOnlyReport(paths[..|paths| - 1]);
    }
  }

  lemma {:induction false} CitedOnlyReport(d: Document, ids: seq<string>, citations: map<string, Citation>)
    ensures OnlyReports(CitedEvents(d, ids, citations))
  {
    if ids != [] {
      CitedOnlyReport(d, ids[..|ids| - 1], citations);
    }
  }

  lemma {:induction false} CitingOnlyReport(c: Citation, ids: seq<string>, documents: map<string, Document>)
    ensures OnlyReports(CitingEvents(c, ids, documents))
  {
    if ids != [] {
      CitingOnlyReport(c, ids[..|ids| - 1], documents);
    }
  }

  lemma {:induction false} AllCitedOnlyReport(order: seq<string>, documents: map<string, Document>, citations: map<string, Citation>)
    requires forall i :: 0 <= i < |order| ==> order[i] in documents
    ensures OnlyReports(AllCitedEvents(order, documents, citations))
  {
    hide CitedEvents;
    if order != [] {
      var d := documents[order[|order| - 1]];
      AllCitedOnlyReport(order[..|order| - 1], documents, citations);
      CitedOnlyReport(d, d.citationIds, citations);
    }
  }

  lemma {:induction false} AllCitingOnlyReport(order: seq<string>, documents: map<string, Document>, citations: map<string, Citation>)
    requires forall i :: 0 <= i < |order| ==> order[i] in citations
    ensures OnlyReports(AllCitingEvents(order, documents, citations))
  {
    hide CitingEvents;
    if order != [] {
      var c := citations[order[|order| - 1]];
      AllCitingOnlyReport(order[..|order| - 1], documents, citations);
      CitingOnlyReport(c, c.documentIds, documents);
    }
  }

  lemma {:induction false} EvidenceOnlyReport(found: seq<Option<Code>>)
    ensures OnlyReports(EvidenceEvents(found))
  {
    if found != [] {
      EvidenceOnlyReport(found[..|found| - 1]);
    }
  }

  lemma {:induction false} ReportsAreNoArtifacts(es: seq<Event>)
    requires OnlyReports(es)
    ensures Artifacts(es) == []
  {
    if es != [] {
      ReportsAreNoArtifacts(es[..|es| - 1]);
    }
  }

  lemma ReadOne(raw: Artifact)
    ensures |Artifacts([Recorded(raw)])| == 1 && Artifacts([]) == []
    ensures Issues([Recorded(raw)]) == [] && Issues([]) == []
  {
    assert [Recorded(raw)][..0] == [];
  }

  // Every document at hand is one artifact, and every fault one issue.
  lemma {:induction false} DocumentsRead(ds: seq<Document>)
    requires DocumentsTolerable(ds)
    ensures |Artifacts(DocumentsEvents(ds))| == |ds| && |Issues(DocumentsEvents(ds))| == Faults(ds)
  {
    if ds == [] {
      ReadOne(Artifact("", 0, ""));
    } else {
      var init, last := ds[..|ds| - 1], ds[|ds| - 1];
      assert forall i :: 0 <= i < |init| ==> init[i] == ds[i];
      DocumentsRead(init);
      ReadOne(last.staged.raw);
      FaultsRead(last.staged.faults, last.stagedPath);
      hide Artifacts, Issues, FaultEvents;
      IssuesJoin([Recorded(last.staged.raw)], FaultEvents(last.staged.faults, last.stagedPath));
      IssuesJoin(DocumentsEvents(init), DocumentEvents(last));
    }
  }

  function Faults(ds: seq<Document>): nat {
    if ds == [] then 0
    else
      var last := ds[|ds| - 1];
      Faults(ds[..|ds| - 1]) + if last.staged.Available? then |last.staged.faults| else 1
  }

  lemma {:induction false} FaultsRead(faults: seq<Code>, path: string)
    ensures |Issues(FaultEvents(faults, path))| == |faults| && Artifacts(FaultEvents(faults, path)) == []
  {
    hide Issues, Artifacts, Report;
    ReadOne(Artifact("", 0, ""));
    if faults != [] {
      var init, last := faults[..|faults| - 1], faults[|faults| - 1];
      FaultsRead(init, path);
      EventAppends(FaultEvents(init, path), Report(last, path));
      IsReported(last, path);
    }
  }

  // How many places of an evidence list carry a code.
  function Flawed(found: seq<Option<Code>>): nat {
    if found == [] then 0 else Flawed(found[..|found| - 1]) + if found[|found| - 1].Some? then 1 else 0
  }

  lemma {:induction false} EvidenceRead(found: seq<Option<Code>>)
    ensures |Issues(EvidenceEvents(found))| == Flawed(found)
  {
    hide Issues, Artifacts, Report;
    ReadOne(Artifact("", 0, ""));
    if found != [] {
      var init, last := found[..|found| - 1], found[|found| - 1];
      EvidenceRead(init);
      if last.Some? {
        EventAppends(EvidenceEvents(init), Report(last.value, ""));
        IsReported(last.value, "");
      } else {
        assert EvidenceEvents(init) + [] == EvidenceEvents(init);
      }
    }
  }

  lemma IsReported(code: Code, path: string)
    ensures Report(code, path).Reported?
  {
  }

  lemma ValidatorOnlyReports(v: Verdict, finalPath: string, citationPath: string)
    ensures OnlyReports(ValidatorEvents(v, finalPath, citationPath))
  {
    CheckedOnlyReport(v.checkedPaths);
    FixedOnlyReport(v.fixedPaths);
    hide CheckedEvents, FixedEvents;
  }

  // The checks after the documents.
  function LaterEvents(f: FinalIndex, c: CitationIndex, o: Orders): seq<Event>
    requires Visits(o, f, c)
  {
    AllCitedEvents(o.documents, DocumentMap(f.documents), CitationMap(c.citations))
    + AllCitingEvents(o.citations, DocumentMap(f.documents), CitationMap(c.citations))
    + EvidenceEvents(CitationEvidence(c.citations))
    + EvidenceEvents(f.evidence)
    + HomeEvents(f)
  }

  lemma BodyParts(input: Input, v: Verdict, f: FinalIndex, c: CitationIndex, o: Orders)
    requires Visits(o, f, c)
    ensures BodyEvents(input, v, f, c, o)
            == ValidatorEvents(v, input.finalPath, input.citationPath) + DocumentsEvents(f.documents) + LaterEvents(f, c, o)
  {
    hide ValidatorEvents, AllCitedEvents, AllCitingEvents, EvidenceEvents, DocumentsEvents, HomeEvents, DocumentMap, CitationMap;
  }

  lemma OnlyReportsJoin(es: seq<Event>, fs: seq<Event>)
    requires OnlyReports(es) && OnlyReports(fs)
    ensures OnlyReports(es + fs)
  {
  }

  lemma HomeOnlyReports(f: FinalIndex)
    ensures OnlyReports(HomeEvents(f))
  {
  }

  lemma LaterOnlyReports(f: FinalIndex, c: CitationIndex, o: Orders)
    requires Visits(o, f, c)
    ensures OnlyReports(LaterEvents(f, c, o))
  {
    var documents, citations := DocumentMap(f.documents), CitationMap(c.citations);
    AllCitedOnlyReport(o.documents, documents, citations);
    AllCitingOnlyReport(o.citations, documents, citations);
    EvidenceOnlyReport(CitationEvidence(c.citations));
    EvidenceOnlyReport(f.evidence);
    HomeOnlyReports(f);
    hide OnlyReports, AllCitedEvents, AllCitingEvents, EvidenceEvents, HomeEvents, DocumentMap, CitationMap;
    var a, b := AllCitedEvents(o.documents, documents, citations), AllCitingEvents(o.citations, documents, citations);
    OnlyReportsJoin(a, b);
    OnlyReportsJoin(a + b, EvidenceEvents(CitationEvidence(c.citations)));
    OnlyReportsJoin(a + b + EvidenceEvents(CitationEvidence(c.citations)), EvidenceEvents(f.evidence));
    OnlyReportsJoin(a + b + EvidenceEvents(CitationEvidence(c.citations)) + EvidenceEvents(f.evidence), HomeEvents(f));
  }

  lemma BodyReads(input: Input, v: Verdict, f: FinalIndex, c: CitationIndex, o: Orders)
    requires Visits(o, f, c)
    ensures |Artifacts(BodyEvents(input, v, f, c, o))| == |Artifacts(DocumentsEvents(f.documents))|
  {
    hide *;
    BodyParts(input, v, f, c, o);
    var before, after := ValidatorEvents(v, input.finalPath, input.citationPath), LaterEvents(f, c, o);
    ValidatorOnlyReports(v, input.finalPath, input.citationPath);
    LaterOnlyReports(f, c, o);
    ReportsAreNoArtifacts(before);
    ReportsAreNoArtifacts(after);
    IssuesJoin(before, DocumentsEvents(f.documents));
    IssuesJoin(before + DocumentsEvents(f.documents), after);
  }

  lemma AnythingIsTold(es: seq<Event>)
    ensures ReportsAnything(es) ==> exists code, path :: Tells(es, code, path)
  {
    if i :| 0 <= i < |es| && es[i].Reported? {
      assert Tells(es, es[i].finding.code, es[i].finding.path);
    }
  }

  // Where nothing is told nothing is listed.
  lemma UntoldHasNoIssues(es: seq<Event>)
    requires forall code, path :: !Tells(es, code, path)
    ensures Issues(es) == []
  {
    ErrorsOfIssues(es);
    AnythingIsTold(es);
    hide Issues, Errors, Tells, ReportsAnything;
  }

  lemma PathsHaveNoIssues(v: Verdict, finalPath: string, citationPath: string)
    requires PathsClean(v, finalPath, citationPath)
    ensures Issues(ValidatorEvents(v, finalPath, citationPath)) == []
  {
    hide *;
    PathsQuiet(v, finalPath, citationPath, true);
    AllCount();
    forall code, path
      ensures !Tells(ValidatorEvents(v, finalPath, citationPath), code, path)
    {
      ValidatorTells(v, finalPath, citationPath, code, path);
    }
    UntoldHasNoIssues(ValidatorEvents(v, finalPath, citationPath));
  }

  lemma ReferencesHaveNoIssues(o: Orders, documents: map<string, Document>, citations: map<string, Citation>)
    requires Enumerates(o.documents, documents) && Enumerates(o.citations, citations) && Reciprocal(documents, citations)
    ensures (forall i :: 0 <= i < |o.documents| ==> o.documents[i] in documents)
            && (forall i :: 0 <= i < |o.citations| ==> o.citations[i] in citations)
    ensures Issues(AllCitedEvents(o.documents, documents, citations)) == []
    ensures Issues(AllCitingEvents(o.citations, documents, citations)) == []
  {
    hide Tells, AllCitedEvents, AllCitingEvents, Issues, Reciprocal, CitesFind, CitedFind, Counts;
    ReferencesQuiet(documents, citations, true);
    AllCount();
    forall code, path
      ensures !Tells(AllCitedEvents(o.documents, documents, citations), code, path)
      ensures !Tells(AllCitingEvents(o.citations, documents, citations), code, path)
    {
      CitesTells(o.documents, documents, citations, code, path);
      CitedTells(o.citations, documents, citations, code, path);
    }
    UntoldHasNoIssues(AllCitedEvents(o.documents, documents, citations));
    UntoldHasNoIssues(AllCitingEvents(o.citations, documents, citations));
  }

  lemma AllCount()
    ensures forall code :: Counts(true, code)
  {
  }

  lemma HomeHasNoIssues(f: FinalIndex)
    requires Homed(f)
    ensures Issues(HomeEvents(f)) == []
  {
  }

  // With its paths, its references and its home in order, a scan lists the faults of the
  // documents and of the evidence, once each.
  lemma BodyLists(input: Input, v: Verdict, f: FinalIndex, c: CitationIndex, o: Orders)
    requires Visits(o, f, c)
    requires PathsClean(v, input.finalPath, input.citationPath) && Homed(f)
    requires Reciprocal(DocumentMap(f.documents), CitationMap(c.citations)) && DocumentsTolerable(f.documents)
    ensures |Issues(BodyEvents(input, v, f, c, o))|
            == Faults(f.documents) + Flawed(CitationEvidence(c.citations)) + Flawed(f.evidence)
  {
    var documents, citations := DocumentMap(f.documents), CitationMap(c.citations);
    PathsHaveNoIssues(v, input.finalPath, input.citationPath);
    ReferencesHaveNoIssues(o, documents, citations);
    HomeHasNoIssues(f);
    DocumentsRead(f.documents);
    EvidenceRead(CitationEvidence(c.citations));
    EvidenceRead(f.evidence);
    hide Issues, Artifacts, ValidatorEvents, DocumentsEvents, AllCitedEvents, AllCitingEvents, EvidenceEvents, HomeEvents;
    hide PathsClean, Homed, Reciprocal, DocumentsTolerable, DocumentMap, CitationMap, CitationEvidence, Faults, Flawed;
    var a := ValidatorEvents(v, input.finalPath, input.citationPath);
    var b := a + DocumentsEvents(f.documents);
    var d := b + AllCitedEvents(o.documents, documents, citations);
    var e := d + AllCitingEvents(o.citations, documents, citations);
    var g := e + EvidenceEvents(CitationEvidence(c.citations));
    var h := g + EvidenceEvents(f.evidence);
    IssuesJoin(a, DocumentsEvents(f.documents));
    IssuesJoin(b, AllCitedEvents(o.documents, documents, citations));
    IssuesJoin(d, AllCitingEvents(o.citations, documents, citations));
    IssuesJoin(e, EvidenceEvents(CitationEvidence(c.citations)));
    IssuesJoin(g, EvidenceEvents(f.evidence));
    IssuesJoin(h, HomeEvents(f));
  }

  // A tolerable run's scan reads its two indexes, the provider's verdict if it can, and
  // every document.
  function Reads(input: Input): nat
    requires input.finalIndex.Parsed?
  {
    2 + (if input.verdict.Unreadable? then 0 else 1) + |input.finalIndex.value.documents|
  }

  // And this is how much there is to warn of.
  function Notices(input: Input): nat
    requires input.finalIndex.Parsed? && input.citationIndex.Parsed?
  {
    var f, c := input.finalIndex.value, input.citationIndex.value;
    Faults(f.documents) + Flawed(CitationEvidence(c.citations)) + Flawed(f.evidence)
  }

  lemma TolerableReads(input: Input, o: Orders)
    requires Tolerable(input) && Visits(o, input.finalIndex.value, input.citationIndex.value)
    ensures |Artifacts(ScanEvents(input, o))| == Reads(input)
    ensures |Issues(ScanEvents(input, o))| == Notices(input)
  {
    hide *;
    TolerableParts(input, o);
    var f, c, v := input.finalIndex.value, input.citationIndex.value, VerdictOf(input).value;
    DocumentsRead(f.documents);
    BodyReads(input, v, f, c, o);
    BodyLists(input, v, f, c, o);
    ReadOne(input.finalIndex.raw);
    ReadOne(input.citationIndex.raw);
    if !input.verdict.Unreadable? {
      ReadOne(input.verdict.raw);
    }
    IssuesJoin([Recorded(input.finalIndex.raw)], [Recorded(input.citationIndex.raw)]);
    IssuesJoin(GateEvents(input), VerdictEvents(input));
    IssuesJoin(GateEvents(input) + VerdictEvents(input), BodyEvents(input, v, f, c, o));
  }

  lemma TolerableParts(input: Input, o: Orders)
    requires Tolerable(input) && Visits(o, input.finalIndex.value, input.citationIndex.value)
    ensures input.finalIndex.Parsed? && input.citationIndex.Parsed? && GoesOn(input) && VerdictOf(input).Ok? && Usable(input)
    ensures var f, c := input.finalIndex.value, input.citationIndex.value;
            && PathsClean(VerdictOf(input).value, input.finalPath, input.citationPath) && Homed(f)
            && Reciprocal(DocumentMap(f.documents), CitationMap(c.citations)) && DocumentsTolerable(f.documents)
            && Notices(input) == Faults(f.documents) + Flawed(CitationEvidence(c.citations)) + Flawed(f.evidence)
    ensures GateEvents(input) == [Recorded(input.finalIndex.raw)] + [Recorded(input.citationIndex.raw)]
    ensures VerdictEvents(input) == if input.verdict.Unreadable? then [] else [Recorded(input.verdict.raw)]
    ensures ScanEvents(input, o)
            == GateEvents(input) + VerdictEvents(input)
               + BodyEvents(input, VerdictOf(input).value, input.finalIndex.value, input.citationIndex.value, o)
    ensures Reads(input) == 2 + (if input.verdict.Unreadable? then 0 else 1) + |input.finalIndex.value.documents|
  {
    hide BodyEvents, PathsClean, DocumentsTolerable, Reciprocal, EvidenceTolerable, Homed, CitationEvidence, Faults, Flawed;
  }

  lemma SoundIsTolerable(input: Input)
    ensures Sound(input) ==> Tolerable(input) && Notices(input) == 0
  {
    if Sound(input) {
      CleanHasNoFaults(input.finalIndex.value.documents);
      CleanHasNoFlaws(CitationEvidence(input.citationIndex.value.citations));
      CleanHasNoFlaws(input.finalIndex.value.evidence);
    }
    hide PathsClean, Reciprocal, Homed, GoesOn, Faults, Flawed, DocumentMap, CitationMap, CitationEvidence;
  }

  lemma {:induction false} CleanHasNoFaults(ds: seq<Document>)
    requires DocumentsClean(ds)
    ensures Faults(ds) == 0
  {
    if ds != [] {
      CleanHasNoFaults(ds[..|ds| - 1]);
    }
  }

  lemma {:induction false} CleanHasNoFlaws(found: seq<Option<Code>>)
    requires EvidenceClean(found)
    ensures Flawed(found) == 0
  {
    if found != [] {
      CleanHasNoFlaws(found[..|found| - 1]);
    }
  }

  // A scan passes exactly when every check is satisfied and every artifact fitted: then
  // documents and citations name each other, with no dangling id, whatever order Go's maps
  // were visited in. It warns exactly when proposals that are not actionable and
  // repositories that are not at hand are all that is wrong and nothing was dropped, and
  // fails for anything else.
  lemma PassIsExact(input: Input, o: Orders)
    requires Usable(input) ==> Visits(o, input.finalIndex.value, input.citationIndex.value)
    ensures var status := Final(After(EMPTY, ScanEvents(input, o))).status;
            && (status.Pass? <==> Sound(input) && Reads(input) <= MaxArtifacts)
            && (status.Warn? <==> Tolerable(input) && !Sound(input) && Notices(input) < MaxIssues && Reads(input) <= MaxArtifacts)
            && (status.Fail? <==> !Tolerable(input) || Notices(input) >= MaxIssues || Reads(input) > MaxArtifacts)
  {
    SoundIsTolerable(input);
    if Tolerable(input) {
      TolerableReads(input, o);
    }
    hide ScanEvents, After, Final, ReportsAnything, ReportsError, Sound, Reads, Notices, Issues, Artifacts;
    ScanReports(input, o);
    VerdictIsFailClosed(ScanEvents(input, o));
  }

  // ---------------------------------------------------------------- the public surface

  datatype Effective = Missing | Invalid | Effective(raw: Artifact, verdict: Verdict)

  // ScanSelectedRunPublic
  method ScanSelectedRunPublic(input: Input, effective: Effective, path: string, o: Orders) returns (report: Audit.Report)
    requires Usable(input) ==> Visits(o, input.finalIndex.value, input.citationIndex.value)
    requires input.candidate.None?
    ensures report == PublicReport(input, effective, path, o)
  {
    hide ScanEvents, After, Final;
    match effective {
      case Missing =>
        report := Scan(input, o);
        report := Final(report.(issues := report.issues + [Found(Finding(EffectiveVerdictUnavailable, Error, path, ""))]));
      case Invalid =>
        report := Scan(input, o);
        report := Final(report.(issues := report.issues + [Found(Finding(EffectiveVerdictInvalid, Error, path, ""))]));
      case Effective(raw, verdict) =>
        report := Scan(input.(candidate := Some(verdict)), o);
        if |report.artifacts| < MaxArtifacts {
          report := report.(artifacts := report.artifacts + [raw]);
        }
        report := Final(report);
    }
  }

  function PublicReport(input: Input, effective: Effective, path: string, o: Orders): Audit.Report
    requires Usable(input) ==> Visits(o, input.finalIndex.value, input.citationIndex.value)
  {
    match effective
    case Missing =>
      var r := Final(After(EMPTY, ScanEvents(input, o)));
      Final(r.(issues := r.issues + [Found(Finding(EffectiveVerdictUnavailable, Error, path, ""))]))
    case Invalid =>
      var r := Final(After(EMPTY, ScanEvents(input, o)));
      Final(r.(issues := r.issues + [Found(Finding(EffectiveVerdictInvalid, Error, path, ""))]))
    case Effective(raw, verdict) =>
      var r := Final(After(EMPTY, ScanEvents(input.(candidate := Some(verdict)), o)));
      Final(if |r.artifacts| < MaxArtifacts then r.(artifacts := r.artifacts + [raw]) else r)
  }

  // The public surface never passes a run without a valid effective verdict. It appends
  // its own issue past the cap, so the report exceeds MaxIssues, by one, exactly when the
  // checks fill the issue list.
  lemma PublicFailsClosed(input: Input, effective: Effective, path: string, o: Orders)
    requires Usable(input) ==> Visits(o, input.finalIndex.value, input.citationIndex.value)
    ensures var public := PublicReport(input, effective, path, o);
            if effective.Effective? then
              var scanned := input.(candidate := Some(effective.verdict));
              && |public.issues| <= MaxIssues
              && (public.status.Pass? <==> Sound(scanned) && Reads(scanned) <= MaxArtifacts)
              && (public.status.Warn? <==>
                    Tolerable(scanned) && !Sound(scanned) && Notices(scanned) < MaxIssues && Reads(scanned) <= MaxArtifacts)
            else
              && public.status.Fail? && |public.issues| <= MaxIssues + 1
              && (|public.issues| == MaxIssues + 1 <==> FillsIssues(ScanEvents(input, o)))
  {
    hide *;
    var scanned := if effective.Effective? then input.(candidate := Some(effective.verdict)) else input;
    CandidateIsUsable(input, scanned.candidate);
    assert input.(candidate := input.candidate) == input;
    var es := ScanEvents(scanned, o);
    var r := After(EMPTY, es);
    IssuesCapped(es);
    FullExactly(es);
    PassIsExact(scanned, o);
    PublicIs(input, effective, path, o);
    if effective.Effective? {
      ListingKeepsStatus(r, effective.raw);
    } else {
      OwnIssueFails(r, if effective.Missing? then EffectiveVerdictUnavailable else EffectiveVerdictInvalid, path);
    }
  }

  lemma IssuesCapped(es: seq<Event>)
    ensures |After(EMPTY, es).issues| <= MaxIssues
  {
    ReportIsBounded(es);
    hide After, Issues, Artifacts, Kept, Markers, HasMarker, Overflows;
  }

  function WithOwnIssue(r: Audit.Report, code: Code, path: string): Audit.Report {
    Final(Final(r).(issues := Final(r).issues + [Found(Finding(code, Error, path, ""))]))
  }

  function WithListed(r: Audit.Report, raw: Artifact): Audit.Report {
    Final(if |Final(r).artifacts| < MaxArtifacts then Final(r).(artifacts := Final(r).artifacts + [raw]) else Final(r))
  }

  lemma PublicIs(input: Input, effective: Effective, path: string, o: Orders)
    requires Usable(input) ==> Visits(o, input.finalIndex.value, input.citationIndex.value)
    ensures PublicReport(input, effective, path, o)
            == match effective
               case Missing => WithOwnIssue(After(EMPTY, ScanEvents(input, o)), EffectiveVerdictUnavailable, path)
               case Invalid => WithOwnIssue(After(EMPTY, ScanEvents(input, o)), EffectiveVerdictInvalid, path)
               case Effective(raw, verdict) =>
                 WithListed(After(EMPTY, ScanEvents(input.(candidate := Some(verdict)), o)), raw)
  {
    hide After, ScanEvents, Final, Usable, Visits;
  }

  lemma OwnIssueFails(r: Audit.Report, code: Code, path: string)
    ensures WithOwnIssue(r, code, path).status.Fail? && |WithOwnIssue(r, code, path).issues| == |r.issues| + 1
  {
    OneMore(r.issues, Found(Finding(code, Error, path, "")));
    hide Errors, Markers, Kept, HasMarker;
  }

  lemma ListingKeepsStatus(r: Audit.Report, raw: Artifact)
    ensures var p := WithListed(r, raw);
            && p.status == Final(r).status && p.issues == r.issues && p.truncated == r.truncated
            && p.artifacts == if |r.artifacts| < MaxArtifacts then r.artifacts + [raw] else r.artifacts
  {
    hide Errors;
  }

  // A valid effective verdict that finds the artifact list full is left out of it without a
  // trace: the one omission that does not stop a pass. Of the runs that pass it happens to
  // those that read as many artifacts as the list holds.
  lemma EffectiveVerdictCanGoUnlisted(input: Input, effective: Effective, path: string, o: Orders)
    requires Usable(input) ==> Visits(o, input.finalIndex.value, input.citationIndex.value)
    requires effective.Effective?
    ensures var scanned := input.(candidate := Some(effective.verdict));
            var es, public := ScanEvents(scanned, o), PublicReport(input, effective, path, o);
            && public.truncated == Overflows(es)
            && public.artifacts == (if |Artifacts(es)| < MaxArtifacts then Artifacts(es) + [effective.raw]
                                    else Artifacts(es)[..MaxArtifacts])
            && (public.status.Pass? && |public.artifacts| == |Artifacts(es)|
                <==> Sound(scanned) && Reads(scanned) == MaxArtifacts)
  {
    hide *;
    var scanned := input.(candidate := Some(effective.verdict));
    CandidateIsUsable(input, scanned.candidate);
    var es := ScanEvents(scanned, o);
    PublicFailsClosed(input, effective, path, o);
    PublicIs(input, effective, path, o);
    ListingKeepsStatus(After(EMPTY, es), effective.raw);
    ArtifactsKept(es);
    SoundIsTolerable(scanned);
    if Sound(scanned) {
      UsableScan(scanned);
      TolerableReads(scanned, o);
    }
  }

  lemma CandidateIsUsable(input: Input, candidate: Option<Verdict>)
    ensures Usable(input.(candidate := candidate)) <==> Usable(input)
  {
  }

  lemma UsableScan(input: Input)
    requires Sound(input)
    ensures Usable(input) && input.finalIndex.Parsed? && input.citationIndex.Parsed?
  {
  }

  lemma ArtifactsKept(es: seq<Event>)
    ensures After(EMPTY, es).truncated == Overflows(es)
    ensures After(EMPTY, es).artifacts == if |Artifacts(es)| < MaxArtifacts then Artifacts(es) else Artifacts(es)[..MaxArtifacts]
  {
    ReportIsBounded(es);
    hide After, Issues, Artifacts, Kept, Markers, HasMarker, Overflows;
    FullPrefix(After(EMPTY, es).artifacts, Artifacts(es));
  }

  lemma FullPrefix(kept: seq<Artifact>, all: seq<Artifact>)
    requires kept <= all && (|kept| < |all| ==> |kept| == MaxArtifacts) && |kept| <= MaxArtifacts
    ensures kept == if |all| < MaxArtifacts then all else all[..MaxArtifacts]
  {
    assert all[..|all|] == all;
  }

  // The public surface never asks whether the effective verdict passed: it uses its paths,
  // and a failed verdict over a sound run is reported as a pass.
  lemma EffectiveStatusIsIgnored(input: Input, raw: Artifact, verdict: Verdict, pass: bool, path: string, o: Orders)
    requires Usable(input) ==> Visits(o, input.finalIndex.value, input.citationIndex.value)
    ensures PublicReport(input, Effective(raw, verdict.(pass := pass)), path, o)
            == PublicReport(input, Effective(raw, verdict), path, o)
  {
    var one, other := input.(candidate := Some(verdict)), input.(candidate := Some(verdict.(pass := pass)));
    PathsNotStatus(verdict, pass, input.finalPath, input.citationPath);
    hide After, Final, ValidatorEvents, DocumentsEvents, AllCitedEvents, AllCitingEvents, EvidenceEvents, HomeEvents;
    assert GateEvents(one) == GateEvents(other) && VerdictEvents(one) == VerdictEvents(other);
    assert ScanEvents(one, o) == ScanEvents(other, o);
  }

  lemma PathsNotStatus(v: Verdict, pass: bool, finalPath: string, citationPath: string)
    ensures ValidatorEvents(v.(pass := pass), finalPath, citationPath) == ValidatorEvents(v, finalPath, citationPath)
  {
  }
}
