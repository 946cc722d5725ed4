// `git status --porcelain=v2 -z`: the record parser and the records Git prints.
module Porcelain {
  import opened Wrappers
  import opened Text

  const NUL := '\0'

  datatype File = File(
    path: string, folder: string, originalPath: Option<string>, status: string,
    indexStatus: string, worktreeStatus: string,
    oldMode: string, newMode: string, headOid: string, indexOid: string)

  // ---------------------------------------------------------------- fields

  predicate AllZeros(s: string) {
    forall i :: 0 <= i < |s| ==> s[i] == '0'
  }

  // gitStatusValue
  function StatusValue(value: string): string {
    var v := Trim(value);
    if AllZeros(v) then "" else v
  }

  // gitStatusColumn
  function StatusColumn(code: string, index: nat): string {
    if index >= |code| || code[index] == ' ' || code[index] == '.' then "clean"
    else if code[index] == '?' then "untracked"
    else [code[index]]
  }

  // gitDiffStatusLabel
  function StatusLabel(rawCode: string): string {
    var code := Trim(rawCode);
    if code == "??" then "untracked"
    else if 'R' in code then "renamed"
    else if 'C' in code then "copied"
    else if 'D' in code then "deleted"
    else if 'A' in code then "new"
    else if 'M' in code then "modified"
    else "changed"
  }

  function TrimSlashes(s: string): string {
    if s != "" && s[0] == '/' then TrimSlashes(s[1..])
    else if s != "" && s[|s| - 1] == '/' then TrimSlashes(s[..|s| - 1])
    else s
  }

  // gitDiffFolder
  function Folder(rel: string): string {
    var first := Split(TrimSlashes(rel), '/')[0];
    if first == "" then "root" else first
  }

  // gitDiffFileFromStatusV2
  function FileFrom(code: string, oldMode: string, newMode: string, headOid: string, indexOid: string, rel: string): File {
    File(rel, Folder(rel), None, StatusLabel(code), StatusColumn(code, 0), StatusColumn(code, 1),
         StatusValue(oldMode), StatusValue(newMode), StatusValue(headOid), StatusValue(indexOid))
  }

  function UntrackedFile(rel: string): File {
    File(rel, Folder(rel), None, "untracked", "untracked", "untracked", "", "", "", "")
  }

  // ---------------------------------------------------------------- the parser

  // What one part gives: a file, and how many further parts it takes.
  function Taken(parts: seq<string>, index: nat): Option<(File, nat)>
    requires index < |parts|
  {
    var item := parts[index];
    if item == "" then None
    else if item[0] == '1' then
      var f := SplitN(item, ' ', 9);
      if |f| != 9 || f[8] == "" then None else Some((FileFrom(f[1], f[3], f[4], f[6], f[7], f[8]), 0))
    else if item[0] == '2' then
      var f := SplitN(item, ' ', 10);
      if |f| != 10 || index + 1 >= |parts| || f[9] == "" then None
      else
        var file := FileFrom(f[1], f[3], f[4], f[6], f[7], f[9]);
        Some((if parts[index + 1] != "" then file.(originalPath := Some(parts[index + 1])) else file, 1))
    else if item[0] == 'u' then
      var f := SplitN(item, ' ', 11);
      if |f| != 11 || f[10] == "" then None else Some((FileFrom(f[1], f[3], f[6], f[7], "", f[10]), 0))
    else if item[0] == '?' then
      var rel := TrimPrefix(item, "? ");
      if rel == "" then None else Some((UntrackedFile(rel), 0))
    else None
  }

  function FilesFrom(parts: seq<string>, index: nat): seq<File>
    decreases |parts| - index
  {
    if index >= |parts| then []
    else
      match Taken(parts, index)
      case None => FilesFrom(parts, index + 1)
      case Some((file, more)) => [file] + FilesFrom(parts, index + more + 1)
  }

  function Parsed(output: string): seq<File> {
    FilesFrom(Split(output, NUL), 0)
  }

  // parseGitStatusV2Files
  method ParseGitStatusV2Files(output: string) returns (files: seq<File>)
    ensures files == Parsed(output)
  {
    hide SplitN, FileFrom, UntrackedFile, TrimPrefix, Split, FilesFrom;
    var parts := Split(output, NUL);
    files := [];
    var index := 0;
    while index < |parts|
      invariant files + FilesFrom(parts, index) == FilesFrom(parts, 0)
      decreases |parts| - index
    {
      ghost var before, at := files, index;
      FilesStep(parts, at);
      var item := parts[index];
      index := index + 1;
      if item == "" {
        continue;
      }
      var file, consumed := UntrackedFile(""), 0;
      if item[0] == '1' {
        var fields := SplitN(item, ' ', 9);
        if |fields| != 9 {
          continue;
        }
        file := FileFrom(fields[1], fields[3], fields[4], fields[6], fields[7], fields[8]);
        PathOf(fields[1], fields[3], fields[4], fields[6], fields[7], fields[8]);
      } else if item[0] == '2' {
        var fields := SplitN(item, ' ', 10);
        if |fields| != 10 || index >= |parts| {
          continue;
        }
        file := FileFrom(fields[1], fields[3], fields[4], fields[6], fields[7], fields[9]);
        PathOf(fields[1], fields[3], fields[4], fields[6], fields[7], fields[9]);
        if parts[index] != "" {
          file := file.(originalPath := Some(parts[index]));
        }
        consumed := 1;
      } else if item[0] == 'u' {
        var fields := SplitN(item, ' ', 11);
        if |fields| != 11 {
          continue;
        }
        file := FileFrom(fields[1], fields[3], fields[6], fields[7], "", fields[10]);
        PathOf(fields[1], fields[3], fields[6], fields[7], "", fields[10]);
      } else if item[0] == '?' {
        var rel := TrimPrefix(item, "? ");
        if rel == "" {
          continue;
        }
        file := UntrackedFile(rel);
        UntrackedPath(rel);
      } else {
        continue;
      }
      if file.path == "" {
        continue;
      }
      assert Taken(parts, at) == Some((file, consumed));
      files := files + [file];
      index := index + consumed;
      OneMoreFile(before, file, FilesFrom(parts, index));
    }
    NoFilesPast(parts, index);
    assert files + [] == files;
  }

  lemma OneMoreFile(before: seq<File>, file: File, rest: seq<File>)
    ensures before + [file] + rest == before + ([file] + rest)
  {
  }

  lemma FilesStep(parts: seq<string>, index: nat)
    requires index < |parts|
    ensures FilesFrom(parts, index)
            == match Taken(parts, index)
               case None => FilesFrom(parts, index + 1)
               case Some((file, more)) => [file] + FilesFrom(parts, index + more + 1)
  {
    hide Taken;
  }

  lemma NoFilesPast(parts: seq<string>, index: nat)
    requires index >= |parts|
    ensures FilesFrom(parts, index) == []
  {
  }

  lemma PathOf(code: string, oldMode: string, newMode: string, headOid: string, indexOid: string, rel: string)
    ensures FileFrom(code, oldMode, newMode, headOid, indexOid, rel).path == rel
  {
  }

  lemma UntrackedPath(rel: string)
    ensures UntrackedFile(rel).path == rel
  {
  }

  // ---------------------------------------------------------------- what Git prints

  // The records of git-status, "Porcelain Format Version 2".
  datatype Record =
    | Ordinary(xy: string, sub: string, mH: string, mI: string, mW: string, hH: string, hI: string, path: string)
    | Renamed(xy: string, sub: string, mH: string, mI: string, mW: string, hH: string, hI: string, score: string, path: string,
              original: string)
    | Unmerged(xy: string, sub: string, m1: string, m2: string, m3: string, mW: string, h1: string, h2: string, h3: string,
               path: string)
    | Untracked(path: string)
  {
    // The space-separated fields before the path.
    function Fields(): seq<string> {
      match this
      case Ordinary(xy, sub, mH, mI, mW, hH, hI, path) => ["1", xy, sub, mH, mI, mW, hH, hI]
      case Renamed(xy, sub, mH, mI, mW, hH, hI, score, path, original) => ["2", xy, sub, mH, mI, mW, hH, hI, score]
      case Unmerged(xy, sub, m1, m2, m3, mW, h1, h2, h3, path) => ["u", xy, sub, m1, m2, m3, mW, h1, h2, h3]
      case Untracked(path) => ["?"]
    }

    // The NUL-terminated parts of the record.
    function Parts(): seq<string> {
      [JoinWith(Fields() + [path], ' ')] + if Renamed? then [original] else []
    }

    predicate Printable() {
      && (forall i :: 0 <= i < |Fields()| ==> Free(Fields()[i], ' ') && Free(Fields()[i], NUL))
      && path != "" && Free(path, NUL)
      && (Renamed? ==> original != "" && Free(original, NUL))
    }

    function AsFile(): File {
      match this
      case Ordinary(xy, sub, mH, mI, mW, hH, hI, path) => FileFrom(xy, mH, mI, hH, hI, path)
      case Renamed(xy, sub, mH, mI, mW, hH, hI, score, path, original) =>
        FileFrom(xy, mH, mI, hH, hI, path).(originalPath := Some(original))
      case Unmerged(xy, sub, m1, m2, m3, mW, h1, h2, h3, path) => FileFrom(xy, m1, mW, h1, "", path)
      case Untracked(path) => UntrackedFile(path)
    }
  }

  function AllParts(rs: seq<Record>): seq<string> {
    if rs == [] then [] else rs[0].Parts() + AllParts(rs[1..])
  }

  // Every part, each ended by a NUL.
  function Terminated(parts: seq<string>): string {
    if parts == [] then "" else parts[0] + [NUL] + Terminated(parts[1..])
  }

  function Stream(rs: seq<Record>): string {
    Terminated(AllParts(rs))
  }

  lemma {:induction false} TerminatedSplits(parts: seq<string>)
    requires forall i :: 0 <= i < |parts| ==> Free(parts[i], NUL)
    ensures Split(Terminated(parts), NUL) == parts + [""]
  {
    hide Free;
    if parts != [] {
      var rest := Terminated(parts[1..]);
      TerminatedSplits(parts[1..]);
      FirstOfJoined(parts[0], NUL, rest);
      assert Split(Terminated(parts), NUL) == [parts[0]] + Split(rest, NUL);
    }
  }

  lemma FirstField(first: string, rest: seq<string>, n: nat)
    requires Free(first, ' ') && rest != [] && n > 1
    ensures SplitN(JoinWith([first] + rest, ' '), ' ', n) == [first] + SplitN(JoinWith(rest, ' '), ' ', n - 1)
  {
    assert ([first] + rest)[1..] == rest;
    FirstOfJoined(first, ' ', JoinWith(rest, ' '));
    hide Free;
  }

  // The last field keeps its spaces.
  lemma {:induction false} FieldsSplit(fields: seq<string>, path: string)
    requires forall i :: 0 <= i < |fields| ==> Free(fields[i], ' ')
    ensures SplitN(JoinWith(fields + [path], ' '), ' ', |fields| + 1) == fields + [path]
  {
    if fields == [] {
      assert [] + [path] == [path];
    } else {
      hide Free, SplitN, JoinWith;
      var rest := fields[1..];
      FieldsSplit(rest, path);
      assert fields + [path] == [fields[0]] + (rest + [path]);
      FirstField(fields[0], rest + [path], |fields| + 1);
    }
  }

  lemma {:induction false} JoinIsFree(parts: seq<string>)
    requires forall i :: 0 <= i < |parts| ==> Free(parts[i], NUL)
    ensures Free(JoinWith(parts, ' '), NUL)
  {
    if |parts| > 1 {
      JoinIsFree(parts[1..]);
    }
  }

  lemma PartsAreFree(r: Record)
    requires r.Printable()
    ensures forall i :: 0 <= i < |r.Parts()| ==> Free(r.Parts()[i], NUL)
  {
    JoinIsFree(r.Fields() + [r.path]);
    hide Free, JoinWith;
  }

  lemma {:induction false} AllPartsAreFree(rs: seq<Record>)
    requires forall i :: 0 <= i < |rs| ==> rs[i].Printable()
    ensures forall i :: 0 <= i < |AllParts(rs)| ==> Free(AllParts(rs)[i], NUL)
  {
    hide Record.Printable, Record.Parts, Free;
    if rs != [] {
      PartsAreFree(rs[0]);
      AllPartsAreFree(rs[1..]);
    }
  }

  lemma ItemBegins(r: Record)
    ensures r.Parts()[0] != "" && r.Parts()[0][0] == r.Fields()[0][0]
  {
    hide JoinWith;
    JoinBegins(r.Fields() + [r.path]);
  }

  lemma JoinBegins(parts: seq<string>)
    requires |parts| > 1 && parts[0] != ""
    ensures JoinWith(parts, ' ') != "" && JoinWith(parts, ' ')[0] == parts[0][0]
  {
  }

  lemma UntrackedReads(path: string)
    ensures TrimPrefix(JoinWith(["?"] + [path], ' '), "? ") == path
  {
    var item := JoinWith(["?"] + [path], ' ');
    assert (["?"] + [path])[1..] == [path];
    assert JoinWith([path], ' ') == path;
    assert item == "?" + [' '] + path;
    assert item[..2] == "? " && item[2..] == path;
  }

  // The record's first part, split as the parser splits it.
  lemma ItemSplits(r: Record, parts: seq<string>, index: nat)
    requires r.Printable() && index + |r.Parts()| <= |parts| && parts[index..index + |r.Parts()|] == r.Parts()
    ensures index < |parts| && parts[index] != "" && parts[index][0] == r.Fields()[0][0]
    ensures SplitN(parts[index], ' ', |r.Fields()| + 1) == r.Fields() + [r.path]
    ensures r.Renamed? ==> index + 1 < |parts| && parts[index + 1] == r.original
    ensures r.Untracked? ==> TrimPrefix(parts[index], "? ") == r.path
  {
    ItemBegins(r);
    FieldsSplit(r.Fields(), r.path);
    UntrackedReads(r.path);
    hide SplitN, TrimPrefix, JoinWith, Free;
    var mine := parts[index..index + |r.Parts()|];
    assert parts[index] == mine[0];
    if r.Renamed? {
      assert parts[index + 1] == mine[1];
    }
  }

  // The part splits into these fields.
  predicate Splits(parts: seq<string>, index: nat, fields: seq<string>)
    requires index < |parts| && fields != [] && fields[0] != ""
  {
    parts[index] != "" && parts[index][0] == fields[0][0] && SplitN(parts[index], ' ', |fields|) == fields
  }

  lemma OrdinaryIsTaken(parts: seq<string>, index: nat, f: seq<string>)
    requires index < |parts| && |f| == 9 && f[0] == "1" && f[8] != "" && Splits(parts, index, f)
    ensures Taken(parts, index) == Some((FileFrom(f[1], f[3], f[4], f[6], f[7], f[8]), 0))
  {
    hide SplitN, FileFrom;
  }

  lemma RenamedIsTaken(parts: seq<string>, index: nat, f: seq<string>)
    requires index + 1 < |parts| && |f| == 10 && f[0] == "2" && f[9] != "" && Splits(parts, index, f) && parts[index + 1] != ""
    ensures Taken(parts, index)
            == Some((FileFrom(f[1], f[3], f[4], f[6], f[7], f[9]).(originalPath := Some(parts[index + 1])), 1))
  {
    hide SplitN, FileFrom;
  }

  lemma UnmergedIsTaken(parts: seq<string>, index: nat, f: seq<string>)
    requires index < |parts| && |f| == 11 && f[0] == "u" && f[10] != "" && Splits(parts, index, f)
    ensures Taken(parts, index) == Some((FileFrom(f[1], f[3], f[6], f[7], "", f[10]), 0))
  {
    hide SplitN, FileFrom;
  }

  lemma RecordIsTaken(r: Record, parts: seq<string>, index: nat)
    requires r.Printable() && index + |r.Parts()| <= |parts| && parts[index..index + |r.Parts()|] == r.Parts()
    ensures Taken(parts, index) == Some((r.AsFile(), |r.Parts()| - 1))
  {
    ItemSplits(r, parts, index);
    assert r.path != "" && (r.Renamed? ==> r.original != "");
    hide SplitN, FileFrom, UntrackedFile, TrimPrefix, JoinWith, Free, Record.Printable;
    var f := r.Fields() + [r.path];
    assert Splits(parts, index, f);
    if !r.Untracked? {
      hide Taken, Splits;
      match r
      case Ordinary(xy, sub, mH, mI, mW, hH, hI, path) => OrdinaryIsTaken(parts, index, f);
      case Renamed(xy, sub, mH, mI, mW, hH, hI, score, path, original) => RenamedIsTaken(parts, index, f);
      case Unmerged(xy, sub, m1, m2, m3, mW, h1, h2, h3, path) => UnmergedIsTaken(parts, index, f);
      case _ =>
    }
  }

  function FilesOf(rs: seq<Record>): seq<File> {
    seq(|rs|, i requires 0 <= i < |rs| => rs[i].AsFile())
  }

  lemma FilesOfMore(rs: seq<Record>)
    ensures FilesOf(rs) == if rs == [] then [] else [rs[0].AsFile()] + FilesOf(rs[1..])
  {
    hide Record.AsFile;
  }

  lemma HereAre(parts: seq<string>, index: nat, mine: seq<string>, rest: seq<string>)
    requires index <= |parts| && parts[index..] == mine + rest
    ensures index + |mine| <= |parts| && parts[index..index + |mine|] == mine && parts[index + |mine|..] == rest
  {
    var here := parts[index..];
    assert here[..|mine|] == mine && here[|mine|..] == rest;
    assert parts[index..index + |mine|] == here[..|mine|];
    assert parts[index + |mine|..] == here[|mine|..];
  }

  lemma {:induction false} RecordsAreTaken(rs: seq<Record>, parts: seq<string>, index: nat)
    requires forall i :: 0 <= i < |rs| ==> rs[i].Printable()
    requires index <= |parts| && parts[index..] == AllParts(rs) + [""]
    ensures FilesFrom(parts, index) == FilesOf(rs)
    decreases |rs|
  {
    hide Record.Printable, Record.Parts, Record.AsFile, Taken, FilesOf, Free, JoinWith;
    FilesOfMore(rs);
    if rs == [] {
      HereAre(parts, index, [""], []);
      assert parts[index] == parts[index..index + 1][0];
      NothingTaken(parts, index);
    } else {
      var mine, rest := rs[0].Parts(), AllParts(rs[1..]);
      assert AllParts(rs) + [""] == mine + (rest + [""]);
      HereAre(parts, index, mine, rest + [""]);
      SomeParts(rs[0]);
      RecordIsTaken(rs[0], parts, index);
      RecordsAreTaken(rs[1..], parts, index + |mine|);
    }
  }

  lemma NothingTaken(parts: seq<string>, index: nat)
    requires index < |parts| && parts[index] == ""
    ensures Taken(parts, index) == None
  {
  }

  lemma SomeParts(r: Record)
    ensures |r.Parts()| >= 1
  {
  }

  // Every list of records is read back: one file a record, in order, with its code, modes,
  // object names and path, spaces and all; a rename's original path is never a record.
  lemma StreamReadsBack(rs: seq<Record>)
    requires forall i :: 0 <= i < |rs| ==> rs[i].Printable()
    ensures Parsed(Stream(rs)) == FilesOf(rs)
  {
    hide Record.Printable;
    AllPartsAreFree(rs);
    TerminatedSplits(AllParts(rs));
    var parts := AllParts(rs) + [""];
    assert parts[0..] == parts;
    RecordsAreTaken(rs, parts, 0);
  }

  // A mode or object name is kept as printed unless it is all zeros, Git's way of saying
  // that the side has none.
  lemma {:induction false} ValueIsKept(value: string)
    requires forall i :: 0 <= i < |value| ==> !IsSpace(value[i])
    ensures StatusValue(value) == if forall c :: c in value ==> c == '0' then "" else value
  {
    assert TrimLeft(value) == value && TrimRight(value) == value;
    assert AllZeros(value) <==> forall c :: c in value ==> c == '0' by {
      assert forall i :: 0 <= i < |value| ==> value[i] in value;
    }
  }

  // A mode or object name as a file shows it.
  function Shown(value: string): string {
    if forall c :: c in value ==> c == '0' then "" else value
  }

  predicate Spaceless(s: string) {
    forall i :: 0 <= i < |s| ==> !IsSpace(s[i])
  }

  // Of the letters of a two-letter code a rename tells first, then a copy, a deletion, an
  // addition and a modification.
  predicate Labelled(xy: string, status: string) {
    && (status == "renamed" <==> 'R' in xy)
    && (status == "copied" <==> 'C' in xy && 'R' !in xy)
    && (status == "deleted" <==> 'D' in xy && 'R' !in xy && 'C' !in xy)
    && (status == "new" <==> 'A' in xy && 'R' !in xy && 'C' !in xy && 'D' !in xy)
    && (status == "modified" <==> 'M' in xy && forall c :: c in xy ==> c !in "RCDA")
    && (status == "changed" <==> forall c :: c in xy ==> c !in "RCDAM")
  }

  lemma LabelReads(xy: string)
    requires Spaceless(xy)
    ensures xy != "??" ==> Labelled(xy, StatusLabel(xy))
  {
    assert TrimLeft(xy) == xy && TrimRight(xy) == xy;
    hide Trim;
    assert 'R' in "RCDA" && 'C' in "RCDA" && 'D' in "RCDA" && 'A' in "RCDA" && 'M' !in "RCDA";
    assert 'R' in "RCDAM" && 'C' in "RCDAM" && 'D' in "RCDAM" && 'A' in "RCDAM" && 'M' in "RCDAM";
    assert forall c :: c in "RCDAM" ==> c in {'R', 'C', 'D', 'A', 'M'};
  }

  // A file's folder is what stands before the first slash of its path: a path with no slash
  // is its own, and none is the root.
  predicate Topped(path: string, folder: string) {
    && (path == "" ==> folder == "root")
    && (path != "" && path[0] != '/' && path[|path| - 1] != '/' ==>
      && 0 < |folder| && folder <= path && Free(folder, '/') && (folder == path || path[|folder|] == '/'))
  }

  lemma FolderReads(path: string)
    ensures Topped(path, Folder(path))
  {
    if path != "" && path[0] != '/' && path[|path| - 1] != '/' {
      var at := FirstOf(path, '/');
      assert TrimSlashes(path) == path;
      assert Split(path, '/')[0] == path[..at];
    }
  }

  // What each record says ends up where it belongs: an ordinary or renamed file has its
  // HEAD and index side, an unmerged one its first stage and its worktree mode.
  lemma FileKeepsFields(r: Record)
    requires forall f :: f in r.Fields() ==> Spaceless(f)
    ensures var f := r.AsFile();
            && f.path == r.path
            && f.originalPath == (if r.Renamed? then Some(r.original) else None)
            && (r.Ordinary? || r.Renamed? ==>
                  f.oldMode == Shown(r.mH) && f.newMode == Shown(r.mI) && f.headOid == Shown(r.hH) && f.indexOid == Shown(r.hI))
            && (r.Unmerged? ==> f.oldMode == Shown(r.m1) && f.newMode == Shown(r.mW) && f.headOid == Shown(r.h1) && f.indexOid == "")
            && (!r.Untracked? && |r.xy| == 2 ==>
                  f.indexStatus == Column(r.xy[0]) && f.worktreeStatus == Column(r.xy[1]))
            && (!r.Untracked? && r.xy != "??" ==> Labelled(r.xy, f.status))
            && (r.Untracked? ==> f.status == f.indexStatus == f.worktreeStatus == "untracked" && f.headOid == f.indexOid == "")
            && Topped(r.path, f.folder)
  {
    FolderReads(r.path);
    if !r.Untracked? {
      assert r.xy == r.Fields()[1];
      LabelReads(r.xy);
    }
    forall v | v in r.Fields() || v == ""
      ensures StatusValue(v) == Shown(v)
    {
      ValueIsKept(v);
    }
    if !r.Untracked? && |r.xy| == 2 {
      ColumnsAreTheCode(r.xy);
    }
    hide StatusValue, Folder, StatusLabel, StatusColumn, Column, Shown, Spaceless, Labelled, Topped;
    match r
    case Ordinary(xy, sub, mH, mI, mW, hH, hI, path) => InFields(r, [mH, mI, hH, hI]);
    case Renamed(xy, sub, mH, mI, mW, hH, hI, score, path, original) => InFields(r, [mH, mI, hH, hI]);
    case Unmerged(xy, sub, m1, m2, m3, mW, h1, h2, h3, path) => InFields(r, [m1, mW, h1]);
    case Untracked(path) =>
  }

  // How one letter of a code is shown.
  function Column(c: char): string {
    match c
    case '.' => "clean"
    case '?' => "untracked"
    case _ => [c]
  }

  // The two letters of the code are the index and the worktree column.
  lemma ColumnsAreTheCode(xy: string)
    requires |xy| == 2 && Spaceless(xy)
    ensures StatusColumn(xy, 0) == Column(xy[0]) && StatusColumn(xy, 1) == Column(xy[1])
  {
    assert !IsSpace(xy[0]) && !IsSpace(xy[1]);
  }

  lemma InFields(r: Record, vs: seq<string>)
    requires r.Ordinary? || r.Renamed? ==> vs == [r.mH, r.mI, r.hH, r.hI]
    requires r.Unmerged? ==> vs == [r.m1, r.mW, r.h1]
    requires r.Untracked? ==> vs == []
    ensures forall v :: v in vs ==> v in r.Fields()
  {
    var f := r.Fields();
    assert r.Ordinary? || r.Renamed? ==> f[3] == vs[0] && f[4] == vs[1] && f[6] == vs[2] && f[7] == vs[3];
    assert r.Unmerged? ==> f[3] == vs[0] && f[6] == vs[1] && f[7] == vs[2];
  }
}
