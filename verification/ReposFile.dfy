// The generated repositories file: what the writer prints is what the fallback loader reads.
module ReposFile {
  import opened PythonText
  import opened PythonLiteral
  import opened Wrappers
  import opened Yaml
  import opened YamlPrinter
  import opened YamlRoundTrip

  // A generated repository entry; an absent optional field is empty.
  datatype Repo = Repo(name: Str, path: Str, gitUrl: Str, ref: Str)

  const VERSION := Ascii("version")
  const REPOS := Ascii("repos")
  const NAME := Ascii("name")
  const PATH := Ascii("path")
  const GIT_URL := Ascii("git_url")
  const REF := Ascii("ref")

  // ---------------------------------------------------------------- the writer

  function OptionalLine(prefix: Str, value: Str): seq<Str> {
    if value == [] then [] else [prefix + JsonString(value)]
  }

  function RepoLines(repo: Repo): seq<Str> {
    [Ascii("  - name: ") + JsonString(repo.name)]
    + OptionalLine(Ascii("    path: "), repo.path)
    + OptionalLine(Ascii("    git_url: "), repo.gitUrl)
    + OptionalLine(Ascii("    ref: "), repo.ref)
  }

  function AllRepoLines(repos: seq<Repo>): seq<Str> {
    if repos == [] then [] else AllRepoLines(repos[..|repos| - 1]) + RepoLines(repos[|repos| - 1])
  }

  function FileLines(repos: seq<Repo>): seq<Str> {
    [Ascii("version: 1"), Ascii("repos:")] + AllRepoLines(repos)
  }

  lemma FileLinesGrow(repos: seq<Repo>, i: nat)
    requires i < |repos|
    ensures FileLines(repos[..i + 1]) == FileLines(repos[..i]) + RepoLines(repos[i])
  {
    hide RepoLines, Ascii;
    assert repos[..i + 1][..i] == repos[..i];
  }

  // write_repos_yaml
  method WriteReposYaml(repos: seq<Repo>) returns (text: Str)
    ensures text == JoinLines(FileLines(repos))
  {
    hide JsonString, FileLines, JoinLines;
    NoReposLines();
    var lines := [Ascii("version: 1"), Ascii("repos:")];
    assert repos[..0] == [];
    for i := 0 to |repos|
      invariant lines == FileLines(repos[..i])
    {
      hide Ascii, FileLines, JoinLines;
      var repo := repos[i];
      ghost var before := lines;
      lines := lines + [Ascii("  - name: ") + JsonString(repo.name)];
      if repo.path != [] {
        lines := lines + [Ascii("    path: ") + JsonString(repo.path)];
      }
      if repo.gitUrl != [] {
        lines := lines + [Ascii("    git_url: ") + JsonString(repo.gitUrl)];
      }
      if repo.ref != [] {
        lines := lines + [Ascii("    ref: ") + JsonString(repo.ref)];
      }
      assert lines == before + RepoLines(repo);
      FileLinesGrow(repos, i);
    }
    assert repos[..|repos|] == repos;
    return JoinLines(lines);
  }

  lemma NoReposLines()
    ensures FileLines([]) == [Ascii("version: 1"), Ascii("repos:")]
  {
    hide Ascii;
  }

  // ---------------------------------------------------------------- the tree it means

  function OptionalEntry(key: Str, value: Str): seq<Entry> {
    if value == [] then [] else [Entry(key, String(value))]
  }

  function RepoEntries(repo: Repo): seq<Entry> {
    [Entry(NAME, String(repo.name))]
    + OptionalEntry(PATH, repo.path) + OptionalEntry(GIT_URL, repo.gitUrl) + OptionalEntry(REF, repo.ref)
  }

  function RepoValues(repos: seq<Repo>): seq<Value> {
    seq(|repos|, i requires 0 <= i < |repos| => Map(RepoEntries(repos[i])))
  }

  function Document(repos: seq<Repo>): Value {
    Map([Entry(VERSION, Int(1)), Entry(REPOS, List(RepoValues(repos)))])
  }

  lemma KeysAreKeys()
    ensures IsKey(VERSION) && IsKey(REPOS) && IsKey(NAME) && IsKey(PATH) && IsKey(GIT_URL) && IsKey(REF)
    ensures VERSION != REPOS && NAME != PATH && NAME != GIT_URL && NAME != REF && PATH != GIT_URL && PATH != REF && GIT_URL != REF
  {
    assert |VERSION| == 7 && |REPOS| == 5 && |NAME| == 4 && |PATH| == 4 && |GIT_URL| == 7 && |REF| == 3;
    assert NAME[0] == 'n' as int && PATH[0] == 'p' as int;
  }

  lemma RepoIsTree(repo: Repo)
    ensures Tree(Map(RepoEntries(repo))) && ItemShape(Map(RepoEntries(repo)))
  {
    KeysAreKeys();
    hide IsKey;
    var es := RepoEntries(repo);
    assert forall i :: 0 <= i < |es| ==> IsKey(es[i].key) && es[i].value.String?;
    assert forall i :: 0 <= i < |es| ==> Tree(es[i].value);
  }

  lemma DocumentIsTree(repos: seq<Repo>)
    requires repos != []
    ensures Tree(Document(repos)) && ItemTrees(RepoValues(repos))
  {
    KeysAreKeys();
    forall i | 0 <= i < |repos|
      ensures Tree(RepoValues(repos)[i]) && ItemShape(RepoValues(repos)[i])
    {
      RepoIsTree(repos[i]);
    }
    hide IsKey, ItemShape, RepoEntries;
    var version, list := Entry(VERSION, Int(1)), Entry(REPOS, List(RepoValues(repos)));
    assert Tree(version.value) && Tree(list.value);
    assert Trees([version, list]);
  }

  // ---------------------------------------------------------------- the writer prints that tree

  // The file's list stands two columns under its key.
  const FILE_LAYOUT := Layout(0, [], [NEAREST, Layout(2, [], [])])

  lemma NearestText(v: Value)
    requires IsScalar(v)
    ensures TextOf(v, NEAREST) == ScalarText(v)
  {
    assert |NULL| == 4 && |TRUE| == 4 && |FALSE| == 5 && |TILDE| == 1 && |NEAREST.text| == 0;
    assert |Lower(NEAREST.text)| == 0;
  }

  lemma LinesJoin(a: seq<Token>, b: seq<Token>)
    ensures Lines(a + b) == Lines(a) + Lines(b)
  {
  }

  lemma FieldLine(prefix: Str, key: Str, value: Str)
    requires IsKey(key) && prefix == Spaces(4) + key + [COLON, SPACE]
    ensures Line(Token(4, Scalared(key, JsonString(value)))) == prefix + JsonString(value)
  {
    hide JsonString;
    var text := JsonString(value);
    var content := Scalared(key, text);
    assert content == key + [COLON, SPACE] + text;
    assert Line(Token(4, content)) == Spaces(4) + content + [] == Spaces(4) + content;
    assert Spaces(4) + content == Spaces(4) + key + [COLON, SPACE] + text == prefix + text;
  }

  lemma OptionalLines(prefix: Str, key: Str, value: Str)
    requires IsKey(key) && prefix == Spaces(4) + key + [COLON, SPACE]
    ensures Trees(OptionalEntry(key, value))
    ensures Lines(PrintEntries(OptionalEntry(key, value), [], 4)) == OptionalLine(prefix, value)
  {
    FieldLine(prefix, key, value);
    NearestText(String(value));
    hide JsonString, IsKey, TextOf;
    if value != [] {
      var e := Entry(key, String(value));
      assert [e][1..] == [];
      assert PrintEntries([e], [], 4) == [Token(4, Scalared(key, JsonString(value)))];
    }
  }

  lemma {:induction false} EntriesJoin(a: seq<Entry>, b: seq<Entry>, indent: nat)
    requires Trees(a) && Trees(b) && Trees(a + b)
    ensures PrintEntries(a + b, [], indent) == PrintEntries(a, [], indent) + PrintEntries(b, [], indent)
  {
    hide PrintEntry;
    if a == [] {
      assert a + b == b;
    } else {
      assert (a + b)[1..] == a[1..] + b;
      EntriesJoin(a[1..], b, indent);
    }
  }

  lemma Prefixes()
    ensures Ascii("    path: ") == Spaces(4) + PATH + [COLON, SPACE]
    ensures Ascii("    git_url: ") == Spaces(4) + GIT_URL + [COLON, SPACE]
    ensures Ascii("    ref: ") == Spaces(4) + REF + [COLON, SPACE]
    ensures Ascii("  - name: ") == Spaces(2) + [DASH, SPACE] + NAME + [COLON, SPACE]
    ensures Ascii("repos:") == Spaces(0) + REPOS + [COLON]
    ensures Ascii("version: 1") == Spaces(0) + VERSION + [COLON, SPACE] + Decimal(1)
  {
    assert Decimal(1) == ['1' as int];
  }

  lemma NameLine(name: Str)
    ensures Line(Token(2, Dashed(Scalared(NAME, JsonString(name))))) == Ascii("  - name: ") + JsonString(name)
  {
    Prefixes();
    hide JsonString, Ascii;
    var text := JsonString(name);
    assert Spaces(2) + ([DASH, SPACE] + (NAME + [COLON, SPACE] + text)) == Spaces(2) + [DASH, SPACE] + NAME + [COLON, SPACE] + text;
  }

  lemma OptionsPrint(repo: Repo)
    ensures var options := RepoEntries(repo)[1..];
            && Trees(options)
            && Lines(PrintEntries(options, [], 4))
               == OptionalLine(Ascii("    path: "), repo.path) + OptionalLine(Ascii("    git_url: "), repo.gitUrl)
                  + OptionalLine(Ascii("    ref: "), repo.ref)
  {
    KeysAreKeys();
    Prefixes();
    var path, url, ref := OptionalEntry(PATH, repo.path), OptionalEntry(GIT_URL, repo.gitUrl), OptionalEntry(REF, repo.ref);
    hide IsKey, Ascii, OptionalLine, Line, Trees, PrintEntries, Lines;
    OptionalLines(Ascii("    path: "), PATH, repo.path);
    OptionalLines(Ascii("    git_url: "), GIT_URL, repo.gitUrl);
    OptionalLines(Ascii("    ref: "), REF, repo.ref);
    hide OptionalEntry;
    RestPrints(path, url, ref);
    assert RepoEntries(repo)[1..] == path + url + ref;
  }

  lemma RepoUnfolds(repo: Repo)
    requires Tree(Map(RepoEntries(repo))) && ItemShape(Map(RepoEntries(repo)))
    ensures Trees(RepoEntries(repo)[1..])
    ensures PrintItem(Map(RepoEntries(repo)), NEAREST, 2)
            == [Token(2, Dashed(Scalared(NAME, JsonString(repo.name))))] + PrintEntries(RepoEntries(repo)[1..], [], 4)
  {
    NearestText(String(repo.name));
    hide TextOf, JsonString, OptionalEntry, Ascii, Scalared, Dashed, PrintEntries, Tree, ItemShape;
    var all := RepoEntries(repo);
    assert all[0] == Entry(NAME, String(repo.name));
    assert Trees(all) by {
      TreeOfMap(all);
    }
  }

  lemma TreeOfMap(es: seq<Entry>)
    requires Tree(Map(es))
    ensures Trees(es)
  {
  }

  lemma RepoPrints(repo: Repo)
    requires Tree(Map(RepoEntries(repo))) && ItemShape(Map(RepoEntries(repo)))
    ensures Lines(PrintItem(Map(RepoEntries(repo)), NEAREST, 2)) == RepoLines(repo)
  {
    OptionsPrint(repo);
    NameLine(repo.name);
    RepoUnfolds(repo);
    hide TextOf, JsonString, OptionalLine, OptionalEntry, Ascii, Scalared, Dashed, Line, PrintEntries, PrintItem, Tree, Trees, ItemShape;
    var head := [Token(2, Dashed(Scalared(NAME, JsonString(repo.name))))];
    LinesJoin(head, PrintEntries(RepoEntries(repo)[1..], [], 4));
  }

  lemma RestPrints(path: seq<Entry>, url: seq<Entry>, ref: seq<Entry>)
    requires Trees(path) && Trees(url) && Trees(ref)
    ensures Trees(path + url + ref)
    ensures Lines(PrintEntries(path + url + ref, [], 4))
            == Lines(PrintEntries(path, [], 4)) + Lines(PrintEntries(url, [], 4)) + Lines(PrintEntries(ref, [], 4))
  {
    hide IsKey, Line;
    assert Trees(path + url);
    EntriesJoin(path + url, ref, 4);
    EntriesJoin(path, url, 4);
    LinesJoin(PrintEntries(path + url, [], 4), PrintEntries(ref, [], 4));
    LinesJoin(PrintEntries(path, [], 4), PrintEntries(url, [], 4));
  }

  lemma {:induction false} ItemsJoin(a: seq<Value>, b: seq<Value>, indent: nat)
    requires ItemTrees(a) && ItemTrees(b) && ItemTrees(a + b)
    ensures PrintItems(a + b, [], indent) == PrintItems(a, [], indent) + PrintItems(b, [], indent)
  {
    hide PrintItem, ItemShape, Tree;
    if a == [] {
      assert a + b == b;
    } else {
      assert (a + b)[1..] == a[1..] + b;
      ItemsJoin(a[1..], b, indent);
    }
  }

  lemma {:induction false} ReposPrint(repos: seq<Repo>)
    requires ItemTrees(RepoValues(repos))
    ensures Lines(PrintItems(RepoValues(repos), [], 2)) == AllRepoLines(repos)
  {
    hide PrintItem, RepoLines, RepoEntries, Tree, ItemShape, Line;
    if repos != [] {
      var init, last := repos[..|repos| - 1], repos[|repos| - 1];
      var value := Map(RepoEntries(last));
      assert RepoValues(repos) == RepoValues(init) + [value];
      assert RepoValues(repos)[|repos| - 1] == value;
      assert forall i :: 0 <= i < |init| ==> RepoValues(init)[i] == RepoValues(repos)[i];
      ReposPrint(init);
      RepoPrints(last);
      ItemsJoin(RepoValues(init), [value], 2);
      assert [value][1..] == [];
      assert PrintItems([value], [], 2) == PrintItem(value, NEAREST, 2);
      LinesJoin(PrintItems(RepoValues(init), [], 2), PrintItem(value, NEAREST, 2));
    }
  }

  lemma TwoEntriesPrint(a: Entry, b: Entry, ls: seq<Layout>)
    requires IsKey(a.key) && Tree(a.value) && IsKey(b.key) && Tree(b.value)
    ensures Trees([a, b]) && PrintEntries([a, b], ls, 0) == PrintEntry(a, First(ls), 0) + PrintEntry(b, First(Rest(ls)), 0)
  {
    hide PrintEntry, IsKey, Tree, First, Rest;
    assert [a, b][1..] == [b] && [b][1..] == [];
    assert Trees([a, b]) && Trees([b]);
    assert PrintEntries([b], Rest(ls), 0) == PrintEntry(b, First(Rest(ls)), 0) + PrintEntries([], Rest(Rest(ls)), 0);
  }

  lemma FileLayout()
    ensures First(FILE_LAYOUT.parts) == NEAREST && First(Rest(FILE_LAYOUT.parts)) == Layout(2, [], [])
  {
    assert FILE_LAYOUT.parts[1..] == [Layout(2, [], [])];
  }

  lemma VersionPrints()
    ensures IsKey(VERSION) && PrintEntry(Entry(VERSION, Int(1)), NEAREST, 0) == [Token(0, Scalared(VERSION, Decimal(1)))]
  {
    KeysAreKeys();
    NearestText(Int(1));
    hide IsKey, Scalared, TextOf, Decimal;
  }

  lemma ListPrints(items: seq<Value>)
    requires items != [] && ItemTrees(items)
    ensures IsKey(REPOS) && Tree(List(items))
    ensures PrintEntry(Entry(REPOS, List(items)), Layout(2, [], []), 0) == [Token(0, Head(REPOS))] + PrintItems(items, [], 2)
  {
    KeysAreKeys();
    hide IsKey, Head, PrintItems, ItemTrees;
  }

  lemma DocumentPrints(repos: seq<Repo>)
    requires repos != [] && Tree(Document(repos)) && ItemTrees(RepoValues(repos))
    ensures Print(Document(repos), FILE_LAYOUT)
            == [Token(0, Scalared(VERSION, Decimal(1)))] + [Token(0, Head(REPOS))] + PrintItems(RepoValues(repos), [], 2)
  {
    var version, list := Entry(VERSION, Int(1)), Entry(REPOS, List(RepoValues(repos)));
    FileLayout();
    VersionPrints();
    ListPrints(RepoValues(repos));
    hide IsKey, Scalared, Head, PrintItems, PrintEntry, ItemTrees, First, Rest;
    TwoEntriesPrint(version, list, FILE_LAYOUT.parts);
    assert Document(repos).entries == [version, list];
  }

  lemma HeaderLines()
    ensures Line(Token(0, Scalared(VERSION, Decimal(1)))) == Ascii("version: 1")
    ensures Line(Token(0, Head(REPOS))) == Ascii("repos:")
  {
    Prefixes();
    hide Ascii;
    assert Scalared(VERSION, Decimal(1)) == VERSION + [COLON, SPACE] + Decimal(1);
  }

  lemma WriterPrintsDocument(repos: seq<Repo>)
    requires repos != [] && Tree(Document(repos)) && ItemTrees(RepoValues(repos))
    ensures JoinLines(FileLines(repos)) == PrintText(Document(repos), FILE_LAYOUT)
  {
    HeaderLines();
    ReposPrint(repos);
    DocumentPrints(repos);
    hide Line, Ascii, Scalared, Head, PrintItems, AllRepoLines, RepoValues, Document, Print, Tree, ItemTrees;
    var version, head := [Token(0, Scalared(VERSION, Decimal(1)))], [Token(0, Head(REPOS))];
    LinesJoin(version + head, PrintItems(RepoValues(repos), [], 2));
    assert Lines(version + head) == [Ascii("version: 1"), Ascii("repos:")];
  }

  // ---------------------------------------------------------------- the round trip

  predicate BmpRepo(r: Repo) {
    AllBmp(r.name) && AllBmp(r.path) && AllBmp(r.gitUrl) && AllBmp(r.ref)
  }

  lemma BmpDocument(repos: seq<Repo>)
    ensures BmpTree(Document(repos)) <==> forall i :: 0 <= i < |repos| ==> BmpRepo(repos[i])
  {
    hide AllBmp;
    forall i | 0 <= i < |repos|
      ensures BmpTree(RepoValues(repos)[i]) <==> BmpRepo(repos[i])
    {
      BmpOfRepo(repos[i]);
    }
    var es := Document(repos).entries;
    assert BmpTree(es[0].value);
    assert BmpTree(es[1].value) <==> forall i :: 0 <= i < |repos| ==> BmpTree(RepoValues(repos)[i]);
  }

  lemma DocumentIsDistinct(repos: seq<Repo>)
    ensures DistinctTree(Document(repos))
  {
    KeysAreKeys();
    forall i | 0 <= i < |repos|
      ensures DistinctTree(RepoValues(repos)[i])
    {
      RepoIsDistinct(repos[i]);
    }
    hide IsKey, RepoEntries;
    var es := Document(repos).entries;
    assert DistinctTree(es[0].value) && DistinctTree(es[1].value) && Distinct(es);
  }

  lemma RepoIsDistinct(repo: Repo)
    ensures DistinctTree(Map(RepoEntries(repo)))
  {
    KeysAreKeys();
    hide IsKey;
    var es := RepoEntries(repo);
    assert forall i :: 0 <= i < |es| ==> es[i].value.String?;
    assert Distinct(es);
  }

  lemma BmpOfRepo(repo: Repo)
    ensures BmpTree(Map(RepoEntries(repo))) <==> BmpRepo(repo)
  {
    var es := RepoEntries(repo);
    assert AllBmp([]);
    hide AllBmp;
    assert es[0].value == String(repo.name);
    assert repo.path != [] ==> Entry(PATH, String(repo.path)) in es;
    assert repo.gitUrl != [] ==> Entry(GIT_URL, String(repo.gitUrl)) in es;
    assert repo.ref != [] ==> Entry(REF, String(repo.ref)) in es;
    assert forall e :: e in es ==> e.value in {String(repo.name), String(repo.path), String(repo.gitUrl), String(repo.ref)};
  }

  // Loading the written file returns version 1 and the same repositories, empty fields
  // omitted, exactly when every field lies in the Basic Multilingual Plane; otherwise it
  // still loads, with the characters outside the plane as surrogate pairs.
  lemma WrittenFileLoads(repos: seq<Repo>)
    requires repos != []
    ensures Load(JoinLines(FileLines(repos))).Ok?
    ensures Load(JoinLines(FileLines(repos))) == Ok(Document(repos)) <==> forall i :: 0 <= i < |repos| ==> BmpRepo(repos[i])
  {
    hide Load, Tree, ItemTrees, Narrow, PrintText, BmpTree, DistinctTree, BmpRepo, Document, FileLines;
    DocumentIsTree(repos);
    DocumentIsBlock(repos);
    WriterPrintsDocument(repos);
    PrintedTextLoads(Document(repos), FILE_LAYOUT);
    NarrowIsIdentityExactly(Document(repos));
    BmpDocument(repos);
    DocumentIsDistinct(repos);
  }

  lemma DocumentIsBlock(repos: seq<Repo>)
    ensures Block?(Document(repos))
  {
  }

  // An empty list is not written as one: it loads as an empty mapping.
  lemma EmptyFileLoads()
    ensures Load(JoinLines(FileLines([]))) == Ok(Map([Entry(VERSION, Int(1)), Entry(REPOS, Map([]))]))
  {
    var version, list := Entry(VERSION, Int(1)), Entry(REPOS, Map([]));
    var v := Map([version, list]);
    KeysAreKeys();
    HeaderLines();
    hide IsKey, Ascii, Load, Scalared, Head, Line;
    TwoEntriesPrint(version, list, []);
    NearestText(Int(1));
    hide TextOf, Decimal;
    assert PrintEntries([], [], 1) == [];
    assert Print(v, NEAREST) == [Token(0, Scalared(VERSION, Decimal(1))), Token(0, Head(REPOS))];
    assert FileLines([]) == [Ascii("version: 1"), Ascii("repos:")];
    assert Lines(Print(v, NEAREST)) == FileLines([]);
    PrintedTextLoads(v, NEAREST);
    EmptyIsDistinct(version, list);
    NarrowIsIdentityExactly(v);
  }

  lemma EmptyIsDistinct(version: Entry, list: Entry)
    requires version == Entry(VERSION, Int(1)) && list == Entry(REPOS, Map([]))
    ensures DistinctTree(Map([version, list])) && BmpTree(Map([version, list]))
  {
    KeysAreKeys();
    hide IsKey;
    assert DistinctTree(version.value) && DistinctTree(list.value);
    assert BmpTree(version.value) && BmpTree(list.value);
    assert Distinct([version, list]);
  }
}
