// Unified diff text: the parser's running line counters, and what it reads back from a
// printed diff.
module Hunks {
  import opened Wrappers
  import opened Text

  datatype Kind = Add | Delete | Context {
    predicate Old() { !Add? }

    predicate New() { !Delete? }

    function Marker(): char {
      match this
      case Add => '+'
      case Delete => '-'
      case Context => ' '
    }
  }

  datatype Line = Line(kind: Kind, oldLine: Option<int>, newLine: Option<int>, content: string)

  datatype Hunk = Hunk(header: string, lines: seq<Line>)

  // ---------------------------------------------------------------- headers

  // parseUnifiedLineStart
  function LineStart(value: string): int {
    var trimmed := TrimPrefix(TrimPrefix(value, "-"), "+");
    var parsed := Atoi(Split(trimmed, ',')[0]);
    if parsed.None? || parsed.value < 1 then 1 else parsed.value
  }

  // parseUnifiedHunkStart
  function HunkStart(header: string): (int, int) {
    var parts := Fields(header);
    if |parts| < 3 then (1, 1) else (LineStart(parts[1]), LineStart(parts[2]))
  }

  // ---------------------------------------------------------------- blocks and numbers

  datatype Entry = Entry(kind: Kind, content: string)

  // A hunk before its lines are numbered.
  datatype Block = Block(header: string, body: seq<Entry>)

  predicate IsHeader(line: string) {
    HasPrefix(line, "@@")
  }

  predicate Skipped(line: string) {
    HasPrefix(line, "\\ No newline")
  }

  function Read(line: string): Entry {
    if HasPrefix(line, "+") && !HasPrefix(line, "+++") then Entry(Add, line[1..])
    else if HasPrefix(line, "-") && !HasPrefix(line, "---") then Entry(Delete, line[1..])
    else Entry(Context, if HasPrefix(line, " ") then line[1..] else line)
  }

  // The lines grouped under their headers; lines before the first header belong to none.
  function Blocks(lines: seq<string>): seq<Block> {
    if lines == [] then []
    else
      var before, line := Blocks(lines[..|lines| - 1]), lines[|lines| - 1];
      if IsHeader(line) then before + [Block(line, [])]
      else if before == [] || Skipped(line) then before
      else
        var last := before[|before| - 1];
        before[..|before| - 1] + [last.(body := last.body + [Read(line)])]
  }

  function OldCount(body: seq<Entry>): nat {
    if body == [] then 0 else OldCount(body[..|body| - 1]) + if body[|body| - 1].kind.Old() then 1 else 0
  }

  function NewCount(body: seq<Entry>): nat {
    if body == [] then 0 else NewCount(body[..|body| - 1]) + if body[|body| - 1].kind.New() then 1 else 0
  }

  function NumberedLine(start: (int, int), body: seq<Entry>, k: nat): Line
    requires k < |body|
  {
    var e := body[k];
    Line(e.kind,
         if e.kind.Old() then Some(start.0 + OldCount(body[..k])) else None,
         if e.kind.New() then Some(start.1 + NewCount(body[..k])) else None,
         e.content)
  }

  // The k-th line is numbered by how many lines of its side precede it.
  function Numbered(b: Block): Hunk {
    Hunk(b.header, seq(|b.body|, k requires 0 <= k < |b.body| => NumberedLine(HunkStart(b.header), b.body, k)))
  }

  function AllNumbered(bs: seq<Block>): seq<Hunk> {
    seq(|bs|, i requires 0 <= i < |bs| => Numbered(bs[i]))
  }

  function Parsed(text: string): seq<Hunk> {
    AllNumbered(Blocks(Split(text, '\n')))
  }

  lemma NumberedGrows(b: Block, e: Entry)
    ensures var start := HunkStart(b.header);
            Numbered(b.(body := b.body + [e])).lines
            == Numbered(b).lines
               + [Line(e.kind,
                       if e.kind.Old() then Some(start.0 + OldCount(b.body)) else None,
                       if e.kind.New() then Some(start.1 + NewCount(b.body)) else None,
                       e.content)]
  {
    hide HunkStart, OldCount, NewCount;
    var body := b.body + [e];
    assert body[..|b.body|] == b.body;
    assert forall k :: 0 <= k < |b.body| ==> body[..k] == b.body[..k];
  }

  lemma CountsGrow(body: seq<Entry>, e: Entry)
    ensures OldCount(body + [e]) == OldCount(body) + if e.kind.Old() then 1 else 0
    ensures NewCount(body + [e]) == NewCount(body) + if e.kind.New() then 1 else 0
  {
    assert (body + [e])[..|body|] == body;
  }

  // The counters stand where the last block's next line would be numbered.
  predicate CountersAt(bs: seq<Block>, oldLine: int, newLine: int) {
    bs != [] ==>
      var b := bs[|bs| - 1];
      oldLine == HunkStart(b.header).0 + OldCount(b.body) && newLine == HunkStart(b.header).1 + NewCount(b.body)
  }

  // parseUnifiedDiffHunks
  method ParseUnifiedDiffHunks(diffOutput: string) returns (hunks: seq<Hunk>)
    ensures hunks == Parsed(diffOutput)
  {
    hide HunkStart, IsHeader, Skipped, Numbered, AllNumbered, OldCount, NewCount, Blocks, Split;
    hunks := [];
    var oldLine, newLine := 0, 0;
    var lines := Split(diffOutput, '\n');
    NoBlocksYet();
    assert lines[..0] == [];
    for i := 0 to |lines|
      invariant hunks == AllNumbered(Blocks(lines[..i]))
      invariant CountersAt(Blocks(lines[..i]), oldLine, newLine)
    {
      var line := lines[i];
      ghost var before := Blocks(lines[..i]);
      assert lines[..i + 1] == lines[..i] + [line];
      BlocksStep(lines[..i], line);
      NumberedStep(before);
      if IsHeader(line) {
        var start := HunkStart(line);
        oldLine, newLine := start.0, start.1;
        hunks := hunks + [Hunk(line, [])];
        StartsAtHeader(line);
        NumberedMore(before, Block(line, []));
        LastOf(before, Block(line, []));
        continue;
      }
      if hunks == [] {
        continue;
      }
      if Skipped(line) {
        continue;
      }
      ghost var last := before[|before| - 1];
      NumberedGrows(last, Read(line));
      CountsGrow(last.body, Read(line));
      var current := hunks[|hunks| - 1];
      if HasPrefix(line, "+") && !HasPrefix(line, "+++") {
        current := current.(lines := current.lines + [Line(Add, None, Some(newLine), line[1..])]);
        newLine := newLine + 1;
      } else if HasPrefix(line, "-") && !HasPrefix(line, "---") {
        current := current.(lines := current.lines + [Line(Delete, Some(oldLine), None, line[1..])]);
        oldLine := oldLine + 1;
      } else {
        var content := line;
        if HasPrefix(content, " ") {
          content := content[1..];
        }
        current := current.(lines := current.lines + [Line(Context, Some(oldLine), Some(newLine), content)]);
        oldLine, newLine := oldLine + 1, newLine + 1;
      }
      hunks := hunks[..|hunks| - 1] + [current];
      NumberedHeader(last, Read(line));
      assert current == Numbered(last.(body := last.body + [Read(line)]));
      NumberedMore(before[..|before| - 1], last.(body := last.body + [Read(line)]));
      LastOf(before[..|before| - 1], last.(body := last.body + [Read(line)]));
    }
    assert lines[..|lines|] == lines;
  }

  lemma NoBlocksYet()
    ensures Blocks([]) == [] && AllNumbered([]) == []
  {
  }

  lemma BlocksStep(lines: seq<string>, line: string)
    ensures var before := Blocks(lines);
            Blocks(lines + [line])
            == if IsHeader(line) then before + [Block(line, [])]
               else if before == [] || Skipped(line) then before
               else before[..|before| - 1] + [before[|before| - 1].(body := before[|before| - 1].body + [Read(line)])]
  {
    hide Read, IsHeader, Skipped;
    assert (lines + [line])[..|lines|] == lines;
  }

  lemma NumberedStep(bs: seq<Block>)
    ensures |AllNumbered(bs)| == |bs|
    ensures bs != [] ==>
              AllNumbered(bs)[..|bs| - 1] == AllNumbered(bs[..|bs| - 1]) && AllNumbered(bs)[|bs| - 1] == Numbered(bs[|bs| - 1])
  {
    hide Numbered;
  }

  lemma NumberedMore(bs: seq<Block>, b: Block)
    ensures AllNumbered(bs + [b]) == AllNumbered(bs) + [Numbered(b)]
  {
    hide Numbered;
  }

  lemma LastOf(bs: seq<Block>, b: Block)
    ensures (bs + [b])[|bs + [b]| - 1] == b
  {
  }

  lemma StartsAtHeader(line: string)
    ensures Numbered(Block(line, [])) == Hunk(line, []) && OldCount([]) == 0 && NewCount([]) == 0
  {
  }

  lemma NumberedHeader(b: Block, e: Entry)
    ensures Numbered(b.(body := b.body + [e])).header == b.header == Numbered(b).header
  {
  }

  // ---------------------------------------------------------------- numbering

  // The numbers of one side run on from `start` without a gap.
  predicate RunsOn(numbers: seq<Option<int>>, start: int) {
    && (forall j :: 0 <= j < |numbers| && numbers[j].Some? && (forall m :: 0 <= m < j ==> numbers[m].None?)
          ==> numbers[j].value == start)
    && (forall i, j :: 0 <= i < j < |numbers| && numbers[i].Some? && numbers[j].Some?
                       && (forall m :: i < m < j ==> numbers[m].None?)
          ==> numbers[j].value == numbers[i].value + 1)
  }

  function OldNumbers(h: Hunk): seq<Option<int>> {
    seq(|h.lines|, k requires 0 <= k < |h.lines| => h.lines[k].oldLine)
  }

  function NewNumbers(h: Hunk): seq<Option<int>> {
    seq(|h.lines|, k requires 0 <= k < |h.lines| => h.lines[k].newLine)
  }

  lemma {:induction false} OldCountOverGap(body: seq<Entry>, i: nat, j: nat)
    requires i <= j <= |body| && forall m :: i <= m < j ==> !body[m].kind.Old()
    ensures OldCount(body[..j]) == OldCount(body[..i])
    decreases j
  {
    if i < j {
      OldCountOverGap(body, i, j - 1);
      assert body[..j] == body[..j - 1] + [body[j - 1]];
      CountsGrow(body[..j - 1], body[j - 1]);
    }
  }

  lemma {:induction false} NewCountOverGap(body: seq<Entry>, i: nat, j: nat)
    requires i <= j <= |body| && forall m :: i <= m < j ==> !body[m].kind.New()
    ensures NewCount(body[..j]) == NewCount(body[..i])
    decreases j
  {
    if i < j {
      NewCountOverGap(body, i, j - 1);
      assert body[..j] == body[..j - 1] + [body[j - 1]];
      CountsGrow(body[..j - 1], body[j - 1]);
    }
  }

  lemma OldRunsOn(b: Block)
    ensures RunsOn(OldNumbers(Numbered(b)), HunkStart(b.header).0)
  {
    var start := HunkStart(b.header).0;
    hide HunkStart, OldCount, NewCount;
    var numbers, body := OldNumbers(Numbered(b)), b.body;
    assert forall m {:trigger body[m]} {:trigger numbers[m]} :: 0 <= m < |body| ==>
        numbers[m] == if body[m].kind.Old() then Some(start + OldCount(body[..m])) else None;
    forall j | 0 <= j < |body| && numbers[j].Some? && forall m :: 0 <= m < j ==> numbers[m].None?
      ensures numbers[j].value == start
    {
      NothingCounted();
      assert body[..0] == [];
      OldCountOverGap(body, 0, j);
    }
    forall i, j | 0 <= i < j < |body| && numbers[i].Some? && numbers[j].Some? && forall m :: i < m < j ==> numbers[m].None?
      ensures numbers[j].value == numbers[i].value + 1
    {
      OldCountOverGap(body, i + 1, j);
      assert body[..i + 1] == body[..i] + [body[i]];
      CountsGrow(body[..i], body[i]);
    }
  }

  lemma NewRunsOn(b: Block)
    ensures RunsOn(NewNumbers(Numbered(b)), HunkStart(b.header).1)
  {
    var start := HunkStart(b.header).1;
    hide HunkStart, OldCount, NewCount;
    var numbers, body := NewNumbers(Numbered(b)), b.body;
    assert forall m {:trigger body[m]} {:trigger numbers[m]} :: 0 <= m < |body| ==>
        numbers[m] == if body[m].kind.New() then Some(start + NewCount(body[..m])) else None;
    forall j | 0 <= j < |body| && numbers[j].Some? && forall m :: 0 <= m < j ==> numbers[m].None?
      ensures numbers[j].value == start
    {
      NothingCounted();
      assert body[..0] == [];
      NewCountOverGap(body, 0, j);
    }
    forall i, j | 0 <= i < j < |body| && numbers[i].Some? && numbers[j].Some? && forall m :: i < m < j ==> numbers[m].None?
      ensures numbers[j].value == numbers[i].value + 1
    {
      NewCountOverGap(body, i + 1, j);
      assert body[..i + 1] == body[..i] + [body[i]];
      CountsGrow(body[..i], body[i]);
    }
  }

  lemma NothingCounted()
    ensures OldCount([]) == 0 && NewCount([]) == 0
  {
  }

  // For any text at all, each side's numbers are consecutive from the header's start.
  lemma NumbersAreConsecutive(text: string, i: nat)
    requires i < |Parsed(text)|
    ensures var h := Parsed(text)[i];
            RunsOn(OldNumbers(h), HunkStart(h.header).0) && RunsOn(NewNumbers(h), HunkStart(h.header).1)
  {
    hide HunkStart, Numbered, RunsOn;
    var b := Blocks(Split(text, '\n'))[i];
    OldRunsOn(b);
    NewRunsOn(b);
    SameHeader(b);
  }

  lemma SameHeader(b: Block)
    ensures Numbered(b).header == b.header
  {
  }

  // ---------------------------------------------------------------- printing

  function PrintLine(e: Entry): string {
    [e.kind.Marker()] + e.content
  }

  function PrintBody(body: seq<Entry>): seq<string> {
    seq(|body|, k requires 0 <= k < |body| => PrintLine(body[k]))
  }

  function PrintLines(bs: seq<Block>): seq<string> {
    if bs == [] then []
    else
      var last := bs[|bs| - 1];
      PrintLines(bs[..|bs| - 1]) + [last.header] + PrintBody(last.body)
  }

  // A diff of these hunks, without a final newline.
  function PrintDiff(bs: seq<Block>): string {
    JoinWith(PrintLines(bs), '\n')
  }

  predicate Printable(b: Block) {
    IsHeader(b.header) && Free(b.header, '\n') && forall k :: 0 <= k < |b.body| ==> Free(b.body[k].content, '\n')
  }

  // What a printed line is read back as.
  function ReadBack(e: Entry): Entry {
    match e.kind
    case Context => e
    case Add => if HasPrefix(e.content, "++") then Entry(Context, PrintLine(e)) else e
    case Delete => if HasPrefix(e.content, "--") then Entry(Context, PrintLine(e)) else e
  }

  function ReadBodyBack(body: seq<Entry>): seq<Entry> {
    seq(|body|, k requires 0 <= k < |body| => ReadBack(body[k]))
  }

  function ReadAllBack(bs: seq<Block>): seq<Block> {
    seq(|bs|, i requires 0 <= i < |bs| => bs[i].(body := ReadBodyBack(bs[i].body)))
  }

  lemma LineReadsBack(e: Entry)
    ensures Read(PrintLine(e)) == ReadBack(e) && !IsHeader(PrintLine(e)) && !Skipped(PrintLine(e))
  {
    var line := PrintLine(e);
    assert line[1..] == e.content && line[0] == e.kind.Marker();
    if e.kind.Add? {
      assert HasPrefix(line, "+++") <==> HasPrefix(e.content, "++") by {
        assert HasPrefix(e.content, "++") <==> |e.content| >= 2 && e.content[0] == '+' && e.content[1] == '+';
        assert HasPrefix(line, "+++") <==> |line| >= 3 && line[0] == '+' && line[1] == '+' && line[2] == '+';
      }
    } else if e.kind.Delete? {
      assert HasPrefix(line, "---") <==> HasPrefix(e.content, "--") by {
        assert HasPrefix(e.content, "--") <==> |e.content| >= 2 && e.content[0] == '-' && e.content[1] == '-';
        assert HasPrefix(line, "---") <==> |line| >= 3 && line[0] == '-' && line[1] == '-' && line[2] == '-';
      }
    }
  }

  lemma BodyLengths(body: seq<Entry>)
    ensures |PrintBody(body)| == |ReadBodyBack(body)| == |body|
  {
  }

  lemma BodyAt(body: seq<Entry>, k: nat)
    requires k < |body|
    ensures k < |PrintBody(body)| && PrintBody(body)[k] == PrintLine(body[k])
    ensures k < |ReadBodyBack(body)| && ReadBodyBack(body)[k] == ReadBack(body[k])
  {
    hide PrintLine, ReadBack;
  }

  // A line that is neither a header nor skipped joins the last block.
  lemma LineJoins(lines: seq<string>, line: string, before: seq<Block>, last: Block)
    requires Blocks(lines) == before + [last] && !IsHeader(line) && !Skipped(line)
    ensures Blocks(lines + [line]) == before + [Block(last.header, last.body + [Read(line)])]
  {
    hide Read, IsHeader, Skipped;
    assert (lines + [line])[..|lines|] == lines;
    assert (before + [last])[..|before|] == before;
  }

  lemma {:induction false} BodyReadsBack(lines: seq<string>, b: Block, before: seq<Block>, n: nat)
    requires n <= |b.body| && Blocks(lines) == before + [Block(b.header, [])]
    ensures Blocks(lines + PrintBody(b.body)[..n]) == before + [Block(b.header, ReadBodyBack(b.body)[..n])]
  {
    hide *;
    var printed, back := PrintBody(b.body), ReadBodyBack(b.body);
    BodyLengths(b.body);
    if n == 0 {
      assert lines + printed[..0] == lines && back[..0] == [];
    } else {
      BodyReadsBack(lines, b, before, n - 1);
      BodyAt(b.body, n - 1);
      LineReadsBack(b.body[n - 1]);
      var all := lines + printed[..n];
      assert all == lines + printed[..n - 1] + [printed[n - 1]];
      LineJoins(lines + printed[..n - 1], PrintLine(b.body[n - 1]), before, Block(b.header, back[..n - 1]));
      assert back[..n - 1] + [back[n - 1]] == back[..n];
    }
  }

  lemma {:induction false} LinesReadBack(bs: seq<Block>)
    requires forall i :: 0 <= i < |bs| ==> Printable(bs[i])
    ensures Blocks(PrintLines(bs)) == ReadAllBack(bs)
  {
    hide IsHeader, Free, ReadBodyBack, PrintBody;
    if bs != [] {
      var init, last := bs[..|bs| - 1], bs[|bs| - 1];
      LinesReadBack(init);
      var headed := PrintLines(init) + [last.header];
      assert headed[..|headed| - 1] == PrintLines(init);
      assert Blocks(headed) == ReadAllBack(init) + [Block(last.header, [])];
      WholeBodyReadsBack(headed, last, ReadAllBack(init));
      assert ReadAllBack(bs) == ReadAllBack(init) + [last.(body := ReadBodyBack(last.body))];
    }
  }

  lemma WholeBodyReadsBack(lines: seq<string>, b: Block, before: seq<Block>)
    requires Blocks(lines) == before + [Block(b.header, [])]
    ensures Blocks(lines + PrintBody(b.body)) == before + [b.(body := ReadBodyBack(b.body))]
  {
    BodyReadsBack(lines, b, before, |b.body|);
    assert PrintBody(b.body)[..|b.body|] == PrintBody(b.body) && ReadBodyBack(b.body)[..|b.body|] == ReadBodyBack(b.body);
  }

  lemma {:induction false} PrintedLinesAreFree(bs: seq<Block>)
    requires forall i :: 0 <= i < |bs| ==> Printable(bs[i])
    ensures forall k :: 0 <= k < |PrintLines(bs)| ==> Free(PrintLines(bs)[k], '\n')
    ensures bs != [] ==> PrintLines(bs) != []
  {
    hide IsHeader;
    if bs != [] {
      PrintedLinesAreFree(bs[..|bs| - 1]);
      var last := bs[|bs| - 1];
      forall k | 0 <= k < |last.body|
        ensures Free(PrintBody(last.body)[k], '\n')
      {
      }
    }
  }

  lemma PrintedDiffParses(bs: seq<Block>)
    requires forall i :: 0 <= i < |bs| ==> Printable(bs[i])
    ensures Parsed(PrintDiff(bs)) == AllNumbered(ReadAllBack(bs))
  {
    PrintedLinesAreFree(bs);
    LinesReadBack(bs);
    hide Printable, AllNumbered, PrintLines;
    if bs == [] {
      NoBlocks();
      assert ReadAllBack(bs) == [];
    } else {
      SplitJoined(PrintLines(bs), '\n');
    }
  }

  lemma NoBlocks()
    ensures PrintLines([]) == [] && Split("", '\n') == [""] && Blocks([""]) == []
  {
    assert [""][..0] == [];
  }

  // An added line that begins with "++" or a deleted one that begins with "--" looks like
  // a file header to the parser.
  predicate Faithful(e: Entry) {
    match e.kind
    case Context => true
    case Add => !HasPrefix(e.content, "++")
    case Delete => !HasPrefix(e.content, "--")
  }

  // A printed diff is recovered, kinds, contents and numbers, exactly when no added
  // content begins with "++" and no deleted content with "--".
  lemma RecoveredExactly(bs: seq<Block>)
    requires forall i :: 0 <= i < |bs| ==> Printable(bs[i])
    ensures Parsed(PrintDiff(bs)) == AllNumbered(bs)
            <==> forall i, k :: 0 <= i < |bs| && 0 <= k < |bs[i].body| ==> Faithful(bs[i].body[k])
  {
    PrintedDiffParses(bs);
    hide Printable, HunkStart, OldCount, NewCount, PrintDiff;
    var back := ReadAllBack(bs);
    if forall i, k :: 0 <= i < |bs| && 0 <= k < |bs[i].body| ==> Faithful(bs[i].body[k]) {
      forall i | 0 <= i < |bs|
        ensures back[i] == bs[i]
      {
        assert ReadBodyBack(bs[i].body) == bs[i].body;
      }
      assert back == bs;
    } else {
      var i, k :| 0 <= i < |bs| && 0 <= k < |bs[i].body| && !Faithful(bs[i].body[k]);
      var e := bs[i].body[k];
      assert AllNumbered(back)[i].lines[k].kind == Context;
      assert AllNumbered(bs)[i].lines[k].kind == e.kind;
    }
  }

  // Git ends its output with a newline: every such text yields one line more than the
  // diff has, an empty context line at the end of the last hunk.
  lemma FinalNewline(text: string)
    ensures var hunks, more := Parsed(text), Parsed(text + "\n");
            if hunks == [] then more == []
            else
              var last := |hunks| - 1;
              && |more| == |hunks| && more[..last] == hunks[..last] && more[last].header == hunks[last].header
              && exists line: Line ::
                   more[last].lines == hunks[last].lines + [line] && line.kind == Context && line.content == ""
  {
    var lines := Split(text, '\n');
    SplitAppended(text, '\n', "");
    assert text + ['\n'] + "" == text + "\n";
    assert (lines + [""])[..|lines|] == lines;
    var bs := Blocks(lines);
    if bs != [] {
      var last := bs[|bs| - 1];
      NumberedGrows(last, Read(""));
      NumberedHeader(last, Read(""));
      SameHeader(last);
    }
    hide HunkStart, Numbered;
  }

  const NOTE := "\\ No newline at end of file"

  lemma NoteIsNoLine()
    ensures Skipped(NOTE) && !IsHeader(NOTE) && Free(NOTE, '\n')
  {
    assert NOTE[..12] == "\\ No newline" && NOTE[0] == '\\';
  }

  lemma SkippedLine(lines: seq<string>, line: string)
    requires Skipped(line) && !IsHeader(line)
    ensures Blocks(lines + [line]) == Blocks(lines)
  {
    assert (lines + [line])[..|lines|] == lines;
    hide Skipped, IsHeader, Read;
  }

  // Git's note on a missing final newline is no line of the file.
  lemma NoteIsSkipped(text: string)
    ensures Parsed(text + ['\n'] + NOTE) == Parsed(text)
  {
    NoteIsNoLine();
    hide Split, Skipped, IsHeader, Free, Blocks, AllNumbered;
    SplitAppended(text, '\n', NOTE);
    SkippedLine(Split(text, '\n'), NOTE);
  }

  // ---------------------------------------------------------------- canonical headers

  // A side of a header: a start, and a count unless it is one.
  function Side(sign: char, start: nat, count: Option<nat>): string {
    [sign] + Numeral(start) + if count.Some? then "," + Numeral(count.value) else ""
  }

  // An empty side starts at 0 and is numbered from 1.
  function From(start: nat): int {
    if 1 <= start < INT_LIMIT then start else 1
  }

  lemma StartReads(sign: char, n: nat, count: Option<nat>)
    requires sign == '-' || sign == '+'
    ensures LineStart(Side(sign, n, count)) == From(n)
  {
    var digits := Numeral(n);
    NumeralReads(n);
    AtoiReads(n);
    hide Numeral, DigitsValue, Atoi;
    var value, rest := Side(sign, n, count), digits + if count.Some? then "," + Numeral(count.value) else "";
    assert value[1..] == rest && rest[0] == digits[0] && digits[0] != '-' && digits[0] != '+';
    assert TrimPrefix(TrimPrefix(value, "-"), "+") == rest by {
      assert value[0] == sign;
    }
    FirstOfRange(digits, if count.Some? then Some(Numeral(count.value)) else None);
  }

  lemma FirstOfRange(digits: string, count: Option<string>)
    requires AllDigits(digits)
    ensures Split(digits + if count.Some? then "," + count.value else "", ',')[0] == digits
  {
    assert Free(digits, ',');
    if count.Some? {
      FirstOfJoined(digits, ',', count.value);
      assert digits + [','] + count.value == digits + ("," + count.value);
    } else {
      FreeHasNone(digits, ',');
      assert digits + "" == digits;
    }
  }

  predicate Word(s: string) {
    s != "" && forall i :: 0 <= i < |s| ==> !IsSpace(s[i])
  }

  lemma WordLengthIs(word: string, rest: string)
    requires forall i :: 0 <= i < |word| ==> !IsSpace(word[i])
    ensures WordLength(word + " " + rest) == |word|
  {
    var s := word + " " + rest;
    var n := WordLength(s);
    assert s[|word|] == ' ';
    assert forall i :: 0 <= i < |word| ==> s[i] == word[i];
  }

  lemma FieldsOf(word: string, rest: string)
    requires Word(word)
    ensures Fields(word + " " + rest) == [word] + Fields(" " + rest)
    ensures Fields(" " + rest) == Fields(rest)
  {
    var s := word + " " + rest;
    assert s[0] == word[0];
    WordLengthIs(word, rest);
    assert s[..|word|] == word && s[|word|..] == " " + rest;
    assert (" " + rest)[1..] == rest;
    assert TrimLeft(" " + rest) == TrimLeft(rest);
  }

  lemma SideIsWord(sign: char, start: nat, count: Option<nat>)
    requires sign == '-' || sign == '+'
    ensures Word(Side(sign, start, count))
  {
    NumeralHasNoSpace(start);
    var tail := if count.Some? then "," + Numeral(count.value) else "";
    assert forall i :: 0 <= i < |tail| ==> !IsSpace(tail[i]) by {
      if count.Some? {
        NumeralHasNoSpace(count.value);
        assert tail[0] == ',' && tail[1..] == Numeral(count.value);
      }
    }
    assert !IsSpace(sign);
    hide Numeral, IsSpace, Blank;
  }

  // The header Git prints gives its own starts, a new or deleted file's side the start 1.
  lemma HeaderReads(a: nat, b: Option<nat>, c: nat, d: Option<nat>, section: string)
    ensures var header := "@@" + " " + (Side('-', a, b) + " " + (Side('+', c, d) + " " + section));
            IsHeader(header) && HunkStart(header) == (From(a), From(c))
  {
    SideIsWord('-', a, b);
    SideIsWord('+', c, d);
    assert Word("@@");
    StartReads('-', a, b);
    StartReads('+', c, d);
    hide Fields, Word, Numeral, LineStart, Side, From;
    var tail := Side('+', c, d) + " " + section;
    FieldsOf("@@", Side('-', a, b) + " " + tail);
    FieldsOf(Side('-', a, b), tail);
    FieldsOf(Side('+', c, d), section);
  }

  // A header that names no two sides starts both at 1.
  lemma ShortHeader(header: string)
    requires |Fields(header)| < 3
    ensures HunkStart(header) == (1, 1)
  {
  }
}
