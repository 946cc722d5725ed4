// Scans at the edge of what the auditor promises, on inputs its readers let through: one
// passes with its effective verdict left out of a full artifact list, one reports an issue
// more than the cap, and one passes although its effective verdict failed.
module AuditWitness {
  import opened Wrappers
  import opened Text
  import opened Audit
  import opened AuditScan

  // ---------------------------------------------------------------- what a scan can be given

  const MaxArtifactBytes := 0x10_0000

  function TaskRun(runId: string): string {
    "reports/taskruns/" + runId
  }

  function FinalRoot(runId: string): string {
    TaskRun(runId) + "/staging/final"
  }

  function FinalPath(runId: string): string {
    FinalRoot(runId) + "/final-run-index.json"
  }

  function CitationPath(runId: string): string {
    FinalRoot(runId) + "/citation-index.json"
  }

  function VerdictPath(runId: string): string {
    TaskRun(runId) + "/validator/validator-verdict.json"
  }

  function EffectivePath(runId: string): string {
    TaskRun(runId) + "/validator/effective-verdict.json"
  }

  // validateFinalRunIndex, on the fields the scan looks at
  predicate IndexAccepted(f: FinalIndex) {
    && !Blank(f.runId)
    && (forall i :: 0 <= i < |f.documents| ==>
          !Blank(f.documents[i].id) && !Blank(f.documents[i].canonicalPath) && !Blank(f.documents[i].stagedPath))
    && DistinctIds(f.documents)
    && (forall i, j :: 0 <= i < j < |f.documents| ==> f.documents[i].canonicalPath != f.documents[j].canonicalPath)
  }

  predicate DistinctIds(ds: seq<Document>) {
    forall i, j :: 0 <= i < j < |ds| ==> ds[i].id != ds[j].id
  }

  // validateCitationIndex
  predicate CitationsAccepted(c: CitationIndex) {
    && !Blank(c.runId)
    && (forall i :: 0 <= i < |c.citations| ==> !Blank(c.citations[i].id) && c.citations[i].documentIds != [])
    && (forall i, j :: 0 <= i < j < |c.citations| ==> c.citations[i].id != c.citations[j].id)
  }

  // validateValidatorVerdict and validateEffectiveVerdict
  predicate VerdictAccepted(v: Verdict) {
    !Blank(v.runId) && v.checkedPaths != []
  }

  // The least JSON text of one document entry, its three strings aside.
  const ENTRY := 132

  function IndexText(ds: seq<Document>): nat {
    if ds == [] then 0
    else
      var last := ds[|ds| - 1];
      IndexText(ds[..|ds| - 1]) + ENTRY + |last.id| + |last.canonicalPath| + |last.stagedPath|
  }

  // A file read whole, within the read limit.
  predicate ReadFrom(raw: Artifact, path: string) {
    raw.path == path && raw.size <= MaxArtifactBytes
  }

  predicate DocumentReadable(runId: string, d: Document) {
    && (d.staged.Escapes? <==> !(FinalRoot(runId) + "/" <= d.stagedPath))
    && (d.staged.Available? ==> ReadFrom(d.staged.raw, d.stagedPath))
  }

  // The workspace and the parsers can hand this to the scan.
  predicate Received(input: Input) {
    && input.finalPath == FinalPath(input.runId) && input.citationPath == CitationPath(input.runId)
    && input.verdictPath == VerdictPath(input.runId) && input.candidate.None?
    && (input.finalIndex.Parsed? ==>
          && ReadFrom(input.finalIndex.raw, input.finalPath) && IndexText(input.finalIndex.value.documents) <= input.finalIndex.raw.size
          && IndexAccepted(input.finalIndex.value)
          && forall i :: 0 <= i < |input.finalIndex.value.documents| ==>
               DocumentReadable(input.runId, input.finalIndex.value.documents[i]))
    && (input.citationIndex.Parsed? ==>
          ReadFrom(input.citationIndex.raw, input.citationPath) && CitationsAccepted(input.citationIndex.value))
    && (input.verdict.Parsed? ==> ReadFrom(input.verdict.raw, input.verdictPath) && VerdictAccepted(input.verdict.value))
  }

  // ---------------------------------------------------------------- a run of any length

  const RUN := "run-1"
  const VERDICT := Verdict(RUN, true, [Inside(FinalPath(RUN)), Inside(CitationPath(RUN))], [])
  const INDEX := Artifact(FinalPath(RUN), 0xF_0000, "")
  const CITATIONS := Artifact(CitationPath(RUN), 100, "")
  const PROVIDER := Artifact(VerdictPath(RUN), 200, "")
  const EFFECTIVE := Artifact(EffectivePath(RUN), 300, "")

  // The first document is the Architecture Home.
  function Doc(i: nat, readable: bool): Document {
    var path := FinalRoot(RUN) + "/" + Numeral(i);
    Document(Numeral(i), path, if i == 0 then HOME else "docs/" + Numeral(i), [],
             if readable then Available(Artifact(path, 1000, ""), []) else Unavailable)
  }

  function Docs(n: nat, readable: bool): seq<Document> {
    seq(n, i requires 0 <= i < n => Doc(i, readable))
  }

  // A run of n documents, all readable or none, and no citations.
  function RunOf(n: nat, readable: bool): Input {
    Input(RUN, FinalPath(RUN), CitationPath(RUN), VerdictPath(RUN),
          Parsed(INDEX, FinalIndex(RUN, true, Docs(n, readable), [])), Parsed(CITATIONS, CitationIndex(RUN, [])),
          Parsed(PROVIDER, VERDICT), None)
  }

  function Ids(ds: seq<Document>): seq<string> {
    seq(|ds|, i requires 0 <= i < |ds| => ds[i].id)
  }

  function OrderOf(n: nat, readable: bool): Orders {
    Orders(Ids(Docs(n, readable)), [])
  }

  // ---------------------------------------------------------------- it can be received

  lemma NumeralsDiffer(i: nat, j: nat)
    requires i != j
    ensures Numeral(i) != Numeral(j)
  {
    NumeralReads(i);
    NumeralReads(j);
  }

  lemma NumeralIsShort(i: nat)
    requires i < 10000
    ensures 1 <= |Numeral(i)| <= 4
  {
    assert |Numeral(i)| == (if i < 10 then 0 else |Numeral(i / 10)|) + 1;
    assert |Numeral(i / 10)| == (if i / 10 < 10 then 0 else |Numeral(i / 10 / 10)|) + 1;
    assert |Numeral(i / 10 / 10)| == (if i / 10 / 10 < 10 then 0 else |Numeral(i / 10 / 10 / 10)|) + 1;
    assert |Numeral(i / 10 / 10 / 10)| == 1;
  }

  lemma RootLooks()
    ensures |FinalRoot(RUN)| == 36 && FinalRoot(RUN)[0] == 'r'
    ensures |HOME| == 25 && HOME[0] == 'r'
  {
  }

  lemma DocParts(i: nat, readable: bool)
    ensures var d := Doc(i, readable);
            && d.id == Numeral(i) && d.stagedPath == FinalRoot(RUN) + "/" + Numeral(i) && d.citationIds == []
            && d.canonicalPath == (if i == 0 then HOME else "docs/" + Numeral(i))
            && d.staged == if readable then Available(Artifact(d.stagedPath, 1000, ""), []) else Unavailable
  {
    hide FinalRoot, Numeral;
  }

  lemma DocTexts(d: Document, root: string, name: string, home: bool)
    requires 1 <= |name| <= 4 && AllDigits(name) && |root| == 36 && root[0] == 'r' && root == FinalRoot(RUN)
    requires |HOME| == 25 && HOME[0] == 'r'
    requires d.id == name && d.stagedPath == root + "/" + name && d.canonicalPath == if home then HOME else "docs/" + name
    requires d.staged == (if d.staged.Available? then Available(Artifact(d.stagedPath, 1000, ""), []) else Unavailable)
    ensures !Blank(d.id) && !Blank(d.canonicalPath) && !Blank(d.stagedPath) && DocumentReadable(RUN, d)
    ensures |d.id| <= 4 && |d.canonicalPath| <= 25 && |d.stagedPath| <= 45
  {
    assert d.canonicalPath[0] in {'r', 'd'};
    NotBlank(d.id);
    NotBlank(d.canonicalPath);
    NotBlank(d.stagedPath);
    hide FinalRoot, Blank;
  }

  lemma DocIsAccepted(i: nat, readable: bool)
    requires i < 10000
    ensures var d := Doc(i, readable);
            && !Blank(d.id) && !Blank(d.canonicalPath) && !Blank(d.stagedPath) && DocumentReadable(RUN, d)
            && |d.id| <= 4 && |d.canonicalPath| <= 25 && |d.stagedPath| <= 45
  {
    DocParts(i, readable);
    RootLooks();
    NumeralReads(i);
    NumeralIsShort(i);
    hide *;
    DocTexts(Doc(i, readable), FinalRoot(RUN), Numeral(i), i == 0);
  }

  lemma PathsDiffer(i: nat, j: nat, readable: bool)
    requires i != j
    ensures Doc(i, readable).id != Doc(j, readable).id && Doc(i, readable).canonicalPath != Doc(j, readable).canonicalPath
  {
    NumeralsDiffer(i, j);
    var a, b := Doc(i, readable).canonicalPath, Doc(j, readable).canonicalPath;
    assert ("docs/" + Numeral(i))[5..] == Numeral(i) && ("docs/" + Numeral(j))[5..] == Numeral(j);
    assert HOME[0] == 'r' && ("docs/" + Numeral(i))[0] == ("docs/" + Numeral(j))[0] == 'd';
    hide Numeral;
  }

  lemma {:induction false} IndexIsShort(ds: seq<Document>)
    requires forall i :: 0 <= i < |ds| ==> |ds[i].id| + |ds[i].canonicalPath| + |ds[i].stagedPath| <= 74
    ensures IndexText(ds) <= |ds| * (ENTRY + 74)
  {
    if ds != [] {
      IndexIsShort(ds[..|ds| - 1]);
    }
  }

  lemma DocsAccepted(n: nat, readable: bool)
    requires n <= 4000
    ensures var f := FinalIndex(RUN, true, Docs(n, readable), []);
            && IndexAccepted(f) && IndexText(f.documents) <= 0xF_0000 && !Blank(RUN)
            && forall i :: 0 <= i < |f.documents| ==> DocumentReadable(RUN, f.documents[i])
  {
    var ds := Docs(n, readable);
    forall i | 0 <= i < n
      ensures ds[i] == Doc(i, readable) && !Blank(ds[i].id) && !Blank(ds[i].canonicalPath) && !Blank(ds[i].stagedPath)
      ensures DocumentReadable(RUN, ds[i]) && |ds[i].id| + |ds[i].canonicalPath| + |ds[i].stagedPath| <= 74
    {
      hide *;
      DocAt(n, readable, i);
      DocIsAccepted(i, readable);
    }
    forall i, j | 0 <= i < j < n
      ensures ds[i].id != ds[j].id && ds[i].canonicalPath != ds[j].canonicalPath
    {
      hide *;
      DocAt(n, readable, i);
      DocAt(n, readable, j);
      PathsDiffer(i, j, readable);
    }
    hide Doc, Blank, DocumentReadable, IndexText;
    IndexIsShort(ds);
    NotBlank(RUN);
  }

  lemma DocAt(n: nat, readable: bool, i: nat)
    requires i < n
    ensures |Docs(n, readable)| == n && Docs(n, readable)[i] == Doc(i, readable)
  {
    hide Doc;
  }

  lemma RunIsReceived(n: nat, readable: bool)
    requires n <= 4000
    ensures Received(RunOf(n, readable))
  {
    DocsAccepted(n, readable);
    RunLooks(n, readable);
    VerdictIsAccepted(true);
    hide *;
    IsReceived(RunOf(n, readable));
  }

  lemma RunLooks(n: nat, readable: bool)
    ensures var input := RunOf(n, readable);
            && input.runId == RUN && input.finalPath == FinalPath(RUN) && input.citationPath == CitationPath(RUN)
            && input.verdictPath == VerdictPath(RUN) && input.candidate.None?
            && input.finalIndex == Parsed(INDEX, FinalIndex(RUN, true, Docs(n, readable), []))
            && input.citationIndex == Parsed(CITATIONS, CitationIndex(RUN, [])) && input.verdict == Parsed(PROVIDER, VERDICT)
            && INDEX == Artifact(FinalPath(RUN), 0xF_0000, "") && CITATIONS == Artifact(CitationPath(RUN), 100, "")
            && PROVIDER == Artifact(VerdictPath(RUN), 200, "") && CitationsAccepted(CitationIndex(RUN, [])) && MaxArtifactBytes == 0x10_0000
  {
    NotBlank(RUN);
    hide Blank, Docs, FinalPath, CitationPath, VerdictPath;
  }

  lemma IsReceived(input: Input)
    requires input.finalPath == FinalPath(input.runId) && input.citationPath == CitationPath(input.runId)
    requires input.verdictPath == VerdictPath(input.runId) && input.candidate.None?
    requires input.finalIndex.Parsed? && input.finalIndex.raw == Artifact(input.finalPath, 0xF_0000, "")
    requires IndexAccepted(input.finalIndex.value) && IndexText(input.finalIndex.value.documents) <= 0xF_0000
    requires forall i :: 0 <= i < |input.finalIndex.value.documents| ==> DocumentReadable(input.runId, input.finalIndex.value.documents[i])
    requires input.citationIndex.Parsed? && input.citationIndex.raw == Artifact(input.citationPath, 100, "")
    requires CitationsAccepted(input.citationIndex.value)
    requires input.verdict.Parsed? && input.verdict.raw == Artifact(input.verdictPath, 200, "") && VerdictAccepted(input.verdict.value)
    ensures Received(input)
  {
    hide IndexAccepted, IndexText, DocumentReadable, CitationsAccepted, VerdictAccepted, FinalPath, CitationPath, VerdictPath;
  }

  // ---------------------------------------------------------------- its order and its soundness

  lemma MapStep(ds: seq<Document>)
    requires ds != []
    ensures DocumentMap(ds) == DocumentMap(ds[..|ds| - 1])[ds[|ds| - 1].id := ds[|ds| - 1]]
  {
  }

  lemma IdsStep(ds: seq<Document>)
    requires ds != [] && DistinctIds(ds)
    ensures Ids(ds) == Ids(ds[..|ds| - 1]) + [ds[|ds| - 1].id] && ds[|ds| - 1].id !in Ids(ds[..|ds| - 1])
  {
  }

  lemma OneMoreEntry(order: seq<string>, m: map<string, Document>, k: string, d: Document)
    requires Enumerates(order, m) && k !in order
    ensures Enumerates(order + [k], m[k := d])
  {
  }

  lemma {:induction false} IdsEnumerate(ds: seq<Document>)
    requires DistinctIds(ds)
    ensures Enumerates(Ids(ds), DocumentMap(ds))
    ensures forall k :: k in DocumentMap(ds) ==> DocumentMap(ds)[k] in ds
  {
    if ds == [] {
    } else {
      var init, last := ds[..|ds| - 1], ds[|ds| - 1];
      MapStep(ds);
      IdsStep(ds);
      hide DocumentMap, Ids, Enumerates;
      IdsEnumerate(init);
      OneMoreEntry(Ids(init), DocumentMap(init), last.id, last);
    }
  }

  lemma OrderVisits(n: nat, readable: bool)
    ensures var input := RunOf(n, readable); Visits(OrderOf(n, readable), input.finalIndex.value, input.citationIndex.value)
    ensures forall k :: k in DocumentMap(Docs(n, readable)) ==> DocumentMap(Docs(n, readable))[k].citationIds == []
  {
    forall i, j | 0 <= i < j < n
      ensures Docs(n, readable)[i].id != Docs(n, readable)[j].id
    {
      PathsDiffer(i, j, readable);
    }
    IdsEnumerate(Docs(n, readable));
    assert CitationMap([]) == map[];
  }

  lemma IndexPathsDiffer()
    ensures FinalPath(RUN) != CitationPath(RUN)
  {
    assert |FinalPath(RUN)| == |CitationPath(RUN)| + 1;
  }

  // Whatever the effective verdict says, a readable run is sound.
  lemma RunIsSound(n: nat, pass: bool)
    requires n > 0
    ensures Sound(RunOf(n, true).(candidate := Some(VERDICT.(pass := pass))))
  {
    var input := RunOf(n, true).(candidate := Some(VERDICT.(pass := pass)));
    OrderVisits(n, true);
    IndexPathsDiffer();
    assert input.finalIndex.value.documents[0].canonicalPath == HOME;
    assert VERDICT.checkedPaths[0] == Inside(FinalPath(RUN)) && VERDICT.checkedPaths[1] == Inside(CitationPath(RUN));
    assert CitationMap([]) == map[] && CitationEvidence([]) == [];
    assert '/' !in RUN && '\\' !in RUN;
    hide DocumentMap, FinalPath, CitationPath, VerdictPath, Numeral;
  }

  // ---------------------------------------------------------------- an unlisted verdict

  predicate NotFrom(es: seq<Event>, path: string) {
    forall i :: 0 <= i < |es| && es[i].Recorded? ==> es[i].artifact.path != path
  }

  lemma {:induction false} ArtifactsNotFrom(es: seq<Event>, path: string)
    requires NotFrom(es, path)
    ensures forall a :: a in Artifacts(es) ==> a.path != path
  {
    if es != [] {
      ArtifactsNotFrom(es[..|es| - 1], path);
    }
  }

  lemma NotFromJoins(es: seq<Event>, fs: seq<Event>, path: string)
    requires NotFrom(es, path) && NotFrom(fs, path)
    ensures NotFrom(es + fs, path)
  {
  }

  lemma ReportsAreNotFrom(es: seq<Event>, path: string)
    requires OnlyReports(es)
    ensures NotFrom(es, path)
  {
  }

  lemma {:induction false} DocumentsNotFrom(ds: seq<Document>, path: string)
    requires DocumentsClean(ds) && forall i :: 0 <= i < |ds| ==> ds[i].staged.raw.path != path
    ensures NotFrom(DocumentsEvents(ds), path)
  {
    if ds != [] {
      var init, last := ds[..|ds| - 1], ds[|ds| - 1];
      assert forall i :: 0 <= i < |init| ==> init[i] == ds[i];
      DocumentsNotFrom(init, path);
      assert DocumentEvents(last) == [Recorded(last.staged.raw)];
    }
  }

  // Nothing under the staging root is the effective verdict, nor is the provider's verdict.
  lemma EffectiveStandsAlone(rest: string)
    ensures FinalRoot(RUN) + rest != EffectivePath(RUN) && VerdictPath(RUN) != EffectivePath(RUN)
  {
    assert (FinalRoot(RUN) + rest)[23] == 's' && EffectivePath(RUN)[23] == 'v';
    assert VerdictPath(RUN)[33] == 'v' && EffectivePath(RUN)[33] == 'e';
  }

  lemma DocStandsApart(i: nat)
    ensures Doc(i, true).staged.Available? && Doc(i, true).staged.raw.path != EffectivePath(RUN)
  {
    hide *;
    DocParts(i, true);
    EffectiveStandsAlone("/" + Numeral(i));
    assert FinalRoot(RUN) + "/" + Numeral(i) == FinalRoot(RUN) + ("/" + Numeral(i));
  }

  lemma DocumentsStandApart(n: nat)
    ensures var ds := RunOf(n, true).finalIndex.value.documents;
            forall i :: 0 <= i < |ds| ==> ds[i].staged.Available? && ds[i].staged.raw.path != EffectivePath(RUN)
  {
    forall i | 0 <= i < n
      ensures Docs(n, true)[i].staged.Available? && Docs(n, true)[i].staged.raw.path != EffectivePath(RUN)
    {
      hide *;
      DocAt(n, true, i);
      DocStandsApart(i);
    }
    hide Docs, EffectivePath, FinalPath, CitationPath, VerdictPath;
  }

  lemma GatesStandApart(n: nat)
    ensures var input := RunOf(n, true).(candidate := Some(VERDICT));
            NotFrom(GateEvents(input) + VerdictEvents(input), EffectivePath(RUN))
  {
    EffectiveStandsAlone("/final-run-index.json");
    EffectiveStandsAlone("/citation-index.json");
    hide Docs, EffectivePath, VerdictPath, FinalRoot;
  }

  lemma ScanNeverReadsEffective(n: nat, o: Orders, input: Input)
    requires n > 0 && input == RunOf(n, true).(candidate := Some(VERDICT)) && Sound(input)
    requires Visits(o, input.finalIndex.value, input.citationIndex.value)
    ensures forall a :: a in Artifacts(ScanEvents(input, o)) ==> a.path != EffectivePath(RUN)
  {
    SoundIsTolerable(input);
    TolerableParts(input, o);
    hide *;
    var f, c, v, path := input.finalIndex.value, input.citationIndex.value, VerdictOf(input).value, EffectivePath(RUN);
    DocumentsStandApart(n);
    GatesStandApart(n);
    BodyParts(input, v, f, c, o);
    ValidatorOnlyReports(v, input.finalPath, input.citationPath);
    LaterOnlyReports(f, c, o);
    DocumentsNotFrom(f.documents, path);
    var before, docs, after := ValidatorEvents(v, input.finalPath, input.citationPath), DocumentsEvents(f.documents), LaterEvents(f, c, o);
    ReportsAreNotFrom(before, path);
    ReportsAreNotFrom(after, path);
    NotFromJoins(before, docs, path);
    NotFromJoins(before + docs, after, path);
    NotFromJoins(GateEvents(input) + VerdictEvents(input), before + docs + after, path);
    ArtifactsNotFrom(ScanEvents(input, o), path);
  }

  // A full artifact list: the scan passes and is not truncated, and the valid effective
  // verdict it rests on is not among its artifacts.
  lemma UnlistedVerdict(n: nat)
    requires n == MaxArtifacts - 3
    ensures var input, o := RunOf(n, true), OrderOf(n, true);
            && Received(input) && VerdictAccepted(VERDICT) && Visits(o, input.finalIndex.value, input.citationIndex.value)
            && var public := PublicReport(input, Effective(EFFECTIVE, VERDICT), EFFECTIVE.path, o);
               && public.status.Pass? && !public.truncated && |public.artifacts| == MaxArtifacts
               && forall a :: a in public.artifacts ==> a.path != EffectivePath(RUN)
  {
    VerdictIsAccepted(true);
    RunIsSound(n, true);
    RunLength(n, true);
    hide *;
    RunIsReceived(n, true);
    OrderVisits(n, true);
    var input, o := RunOf(n, true), OrderOf(n, true);
    var scanned := input.(candidate := Some(VERDICT));
    CandidateIsUsable(input, Some(VERDICT));
    SoundIsTolerable(scanned);
    TolerableReads(scanned, o);
    EffectiveVerdictCanGoUnlisted(input, Effective(EFFECTIVE, VERDICT), EFFECTIVE.path, o);
    ScanNeverReadsEffective(n, o, scanned);
    SoundDropsNothing(scanned, o);
  }

  lemma VerdictIsAccepted(pass: bool)
    ensures VERDICT.(pass := true) == VERDICT && VerdictAccepted(VERDICT.(pass := pass))
  {
    assert RUN[0] == 'r';
    NotBlank(RUN);
    hide Blank;
  }

  lemma RunLength(n: nat, readable: bool)
    ensures Reads(RunOf(n, readable)) == 3 + n
    ensures forall c :: Reads(RunOf(n, readable).(candidate := c)) == 3 + n
  {
    hide Doc;
  }

  lemma SoundDropsNothing(input: Input, o: Orders)
    requires Usable(input) ==> Visits(o, input.finalIndex.value, input.citationIndex.value)
    requires Sound(input) && |Artifacts(ScanEvents(input, o))| <= MaxArtifacts
    ensures !Overflows(ScanEvents(input, o))
  {
    hide *;
    ScanReports(input, o);
    QuietDropsNothing(ScanEvents(input, o));
  }

  lemma QuietDropsNothing(es: seq<Event>)
    requires !ReportsAnything(es) && |Artifacts(es)| <= MaxArtifacts
    ensures !Overflows(es)
  {
    ErrorsOfIssues(es);
    hide Issues, Artifacts;
  }

  // ---------------------------------------------------------------- a failed verdict that passes

  // The orchestrator's verdict is FAIL, and the public report is a pass.
  lemma FailedVerdictPasses(n: nat)
    requires 0 < n <= MaxArtifacts - 3
    ensures var input, o, failed := RunOf(n, true), OrderOf(n, true), VERDICT.(pass := false);
            && Received(input) && VerdictAccepted(failed) && Visits(o, input.finalIndex.value, input.citationIndex.value)
            && PublicReport(input, Effective(EFFECTIVE, failed), EFFECTIVE.path, o).status.Pass?
  {
    VerdictIsAccepted(false);
    RunIsSound(n, false);
    RunLength(n, true);
    hide *;
    RunIsReceived(n, true);
    OrderVisits(n, true);
    PublicFailsClosed(RunOf(n, true), Effective(EFFECTIVE, VERDICT.(pass := false)), EFFECTIVE.path, OrderOf(n, true));
  }

  // ---------------------------------------------------------------- an issue too many

  lemma {:induction false} UnreadableDocuments(ds: seq<Document>)
    requires forall i :: 0 <= i < |ds| ==> ds[i].staged.Unavailable?
    ensures |Issues(DocumentsEvents(ds))| == |ds| && Artifacts(DocumentsEvents(ds)) == []
  {
    if ds == [] {
    } else {
      var init, last := ds[..|ds| - 1], ds[|ds| - 1];
      assert forall i :: 0 <= i < |init| ==> init[i] == ds[i];
      UnreadableDocuments(init);
      var e := AuditScan.Report(DocumentUnavailable, last.stagedPath);
      assert DocumentsEvents(ds) == DocumentsEvents(init) + [e];
      hide Issues, Artifacts, DocumentsEvents;
      EventAppends(DocumentsEvents(init), e);
    }
  }

  lemma RunGoesOn(n: nat, readable: bool)
    ensures GoesOn(RunOf(n, readable)) && Usable(RunOf(n, readable)) && VerdictOf(RunOf(n, readable)) == Ok(VERDICT)
    ensures GateEvents(RunOf(n, readable)) + VerdictEvents(RunOf(n, readable)) == [Recorded(INDEX), Recorded(CITATIONS), Recorded(PROVIDER)]
  {
    assert '/' !in RUN && '\\' !in RUN && RUN[0] != '.';
    hide Docs, FinalPath, CitationPath, VerdictPath;
    var input := RunOf(n, readable);
    assert GateEvents(input) == [Recorded(INDEX)] + [Recorded(CITATIONS)];
    assert VerdictEvents(input) == [Recorded(PROVIDER)] + [];
  }

  lemma ThreeRead(a: Event, b: Event, c: Event)
    requires a.Recorded? && b.Recorded? && c.Recorded?
    ensures |Artifacts([a, b, c])| == 3
  {
    NothingKept();
    hide Artifacts, Issues;
    EventAppends([], a);
    EventAppends([a], b);
    EventAppends([a, b], c);
    assert [] + [a] == [a] && [a] + [b] == [a, b] && [a, b] + [c] == [a, b, c];
  }

  // The scan of an unreadable run reports every document.
  lemma UnreadableRun(n: nat, o: Orders)
    requires Visits(o, RunOf(n, false).finalIndex.value, RunOf(n, false).citationIndex.value)
    ensures |Issues(ScanEvents(RunOf(n, false), o))| >= n && |Artifacts(ScanEvents(RunOf(n, false), o))| == 3
  {
    var input := RunOf(n, false);
    var f, c := input.finalIndex.value, input.citationIndex.value;
    RunGoesOn(n, false);
    UnreadableDocuments(f.documents);
    BodyParts(input, VERDICT, f, c, o);
    BodyReads(input, VERDICT, f, c, o);
    ThreeRead(Recorded(INDEX), Recorded(CITATIONS), Recorded(PROVIDER));
    var gate, body := GateEvents(input) + VerdictEvents(input), BodyEvents(input, VERDICT, f, c, o);
    assert ScanEvents(input, o) == gate + body;
    hide *;
    IssuesJoin(gate, body);
    IssuesJoin(ValidatorEvents(VERDICT, input.finalPath, input.citationPath), DocumentsEvents(f.documents));
    IssuesJoin(ValidatorEvents(VERDICT, input.finalPath, input.citationPath) + DocumentsEvents(f.documents), LaterEvents(f, c, o));
  }

  // A run whose documents cannot be read, and whose effective verdict is missing: the
  // report holds the 200 issues of the cap and one more.
  lemma OneIssueTooMany(n: nat)
    requires MaxIssues <= n <= 4000
    ensures var input, o := RunOf(n, false), OrderOf(n, false);
            && Received(input) && Visits(o, input.finalIndex.value, input.citationIndex.value)
            && |PublicReport(input, Missing, EFFECTIVE.path, o).issues| == MaxIssues + 1
  {
    assert 3 <= MaxArtifacts;
    hide *;
    RunIsReceived(n, false);
    OrderVisits(n, false);
    UnreadableRun(n, OrderOf(n, false));
    ManyIssuesFill(ScanEvents(RunOf(n, false), OrderOf(n, false)));
    PublicFailsClosed(RunOf(n, false), Missing, EFFECTIVE.path, OrderOf(n, false));
  }
}
