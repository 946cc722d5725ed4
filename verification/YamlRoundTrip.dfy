// Printing a tree in any of its layouts and loading it again.
module YamlRoundTrip {
  import opened PythonText
  import opened PythonLiteral
  import opened Wrappers
  import opened Yaml
  import opened YamlPrinter

  // ---------------------------------------------------------------- trees

  predicate IsKey(k: Str) {
    k != [] && forall i :: 0 <= i < |k| ==> IsKeyChar(k[i])
  }

  predicate Distinct(es: seq<Entry>) {
    forall i, j :: 0 <= i < j < |es| ==> es[i].key != es[j].key
  }

  // Maps and non-empty lists whose items are scalars, maps that begin with a scalar, or maps
  // of one entry.
  predicate Tree(v: Value)
    decreases v
  {
    match v
    case Map(es) => Trees(es)
    case List(items) => items != [] && ItemTrees(items)
    case _ => IsScalar(v)
  }

  predicate ItemShape(v: Value) {
    IsScalar(v) || (v.Map? && v.entries != [] && (IsScalar(v.entries[0].value) || |v.entries| == 1))
  }

  predicate Trees(es: seq<Entry>)
    decreases es
  {
    forall i :: 0 <= i < |es| ==> IsKey(es[i].key) && Tree(es[i].value)
  }

  predicate ItemTrees(items: seq<Value>)
    decreases items
  {
    forall i :: 0 <= i < |items| ==> Tree(items[i]) && ItemShape(items[i])
  }

  predicate Block?(v: Value) {
    v.Map? || v.List?
  }

  // ---------------------------------------------------------------- printing

  // How a node is laid out: how many columns its block stands past the nearest it may, how
  // a scalar is spelled if not as printed, and the layouts of its parts.
  datatype Layout = Layout(shift: nat, text: Str, parts: seq<Layout>)

  const NEAREST := Layout(0, [], [])

  function First(ls: seq<Layout>): Layout {
    if ls == [] then NEAREST else ls[0]
  }

  function Rest(ls: seq<Layout>): seq<Layout> {
    if ls == [] then [] else ls[1..]
  }

  // The column of the block under a key: a list may stand at the key's own.
  function Under(v: Value, l: Layout, indent: nat): nat {
    if v.List? then indent + l.shift else indent + 1 + l.shift
  }

  function TextOf(v: Value, l: Layout): (r: Str)
    requires IsScalar(v)
    ensures Written(r, v)
  {
    if Spells(l.text, v) then l.text else ScalarText(v)
  }

  // An item's text may not read as an entry.
  function ItemText(v: Value, l: Layout): (r: Str)
    requires IsScalar(v)
    ensures Written(r, v)
  {
    if InlineEntry(TextOf(v, l)).None? then TextOf(v, l) else ScalarText(v)
  }

  function Head(k: Str): Str {
    k + [COLON]
  }

  function Scalared(k: Str, text: Str): Str {
    k + [COLON, SPACE] + text
  }

  function Dashed(s: Str): Str {
    [DASH, SPACE] + s
  }

  function PrintEntry(e: Entry, l: Layout, indent: nat): (r: seq<Token>)
    requires IsKey(e.key) && Tree(e.value)
    ensures r != []
    decreases e, 0
  {
    if Block?(e.value) then [Token(indent, Head(e.key))] + PrintBlock(e.value, l, Under(e.value, l, indent))
    else [Token(indent, Scalared(e.key, TextOf(e.value, l)))]
  }

  function PrintBlock(v: Value, l: Layout, indent: nat): seq<Token>
    requires Tree(v) && Block?(v)
    decreases v, 0
  {
    if v.Map? then PrintEntries(v.entries, l.parts, indent) else PrintItems(v.items, l.parts, indent)
  }

  function PrintEntries(es: seq<Entry>, ls: seq<Layout>, indent: nat): seq<Token>
    requires Trees(es)
    decreases es, 0
  {
    if es == [] then [] else PrintEntry(es[0], First(ls), indent) + PrintEntries(es[1..], Rest(ls), indent)
  }

  // An item's first entry stands on the item's line, the rest at least two columns in.
  function PrintItem(v: Value, l: Layout, indent: nat): (r: seq<Token>)
    requires Tree(v) && ItemShape(v)
    ensures r != []
    decreases v, 0
  {
    if v.Map? then
      assert Trees(v.entries);
      var e, own := v.entries[0], First(l.parts);
      if IsScalar(e.value) then
        [Token(indent, Dashed(Scalared(e.key, TextOf(e.value, own))))]
        + PrintEntries(v.entries[1..], Rest(l.parts), indent + 2 + l.shift)
      else [Token(indent, Dashed(Head(e.key)))] + PrintBlock(e.value, own, indent + 2 + l.shift)
    else [Token(indent, Dashed(ItemText(v, l)))]
  }

  function PrintItems(items: seq<Value>, ls: seq<Layout>, indent: nat): seq<Token>
    requires ItemTrees(items)
    decreases items, 0
  {
    if items == [] then [] else PrintItem(items[0], First(ls), indent) + PrintItems(items[1..], Rest(ls), indent)
  }

  function Print(v: Value, l: Layout): seq<Token>
    requires Tree(v) && Block?(v)
  {
    PrintBlock(v, l, 0)
  }

  // ---------------------------------------------------------------- what comes back

  // A key given twice keeps its place and takes the last value.
  function Narrow(v: Value): Value
    requires Tree(v)
    decreases v, 0
  {
    match v
    case Map(es) => Map(Updated([], NarrowEntries(es)))
    case List(items) => List(NarrowItems(items))
    case _ => NarrowScalar(v)
  }

  function NarrowEntries(es: seq<Entry>): (r: seq<Entry>)
    requires Trees(es)
    ensures |r| == |es| && forall i :: 0 <= i < |es| ==> r[i] == Entry(es[i].key, Narrow(es[i].value))
    decreases es, 0
  {
    if es == [] then [] else [Entry(es[0].key, Narrow(es[0].value))] + NarrowEntries(es[1..])
  }

  function NarrowItems(items: seq<Value>): (r: seq<Value>)
    requires ItemTrees(items)
    ensures |r| == |items| && forall i :: 0 <= i < |items| ==> r[i] == Narrow(items[i])
    decreases items, 0
  {
    if items == [] then [] else [Narrow(items[0])] + NarrowItems(items[1..])
  }

  // ---------------------------------------------------------------- one line

  lemma {:induction false} KeyRunOfKey(k: Str, rest: Str)
    requires (forall i :: 0 <= i < |k| ==> IsKeyChar(k[i])) && (rest != [] ==> !IsKeyChar(rest[0]))
    ensures KeyRun(k + rest) == |k|
  {
    if k == [] {
      assert k + rest == rest;
    } else {
      KeyRunOfKey(k[1..], rest);
      assert (k + rest)[1..] == k[1..] + rest;
    }
  }

  lemma HeadReads(k: Str)
    requires IsKey(k)
    ensures InlineEntry(Head(k)) == Some(Inline(k, None))
  {
    KeyRunOfKey(k, [COLON]);
    var s := Head(k);
    assert s[..|k|] == k && s[|k| + 1..] == [];
    assert BlankStr([]);
  }

  lemma StripPadded(text: Str)
    requires Tight(text)
    ensures Strip([SPACE] + text) == text
  {
    assert ([SPACE] + text)[1..] == text;
    StripKeeps(text);
  }

  lemma EntryReads(k: Str, text: Str)
    requires IsKey(k) && Tight(text)
    ensures InlineEntry(k + [COLON, SPACE] + text) == Some(Inline(k, Some(Scalar(text))))
  {
    hide Scalar, Strip, KeyRun;
    StripPadded(text);
    KeyRunOfKey(k, [COLON, SPACE] + text);
    var s := k + [COLON, SPACE] + text;
    assert s == k + ([COLON, SPACE] + text);
    assert s[..|k|] == k && s[|k| + 1..] == [SPACE] + text;
  }

  lemma ScalaredReads(k: Str, text: Str, v: Value)
    requires IsKey(k) && IsScalar(v) && Written(text, v)
    ensures InlineEntry(Scalared(k, text)) == Some(Inline(k, Some(NarrowScalar(v))))
  {
    hide Written, Scalar, InlineEntry, NarrowScalar, IsKey, Tight;
    WrittenReads(text, v);
    EntryReads(k, text);
  }

  // ---------------------------------------------------------------- one step of a loop

  lemma KeyLineIsNoItem(k: Str, rest: Str, indent: nat)
    requires IsKey(k) && rest != [] && rest[0] == COLON
    ensures !Token(indent, k + rest).Item()
  {
    var s := k + rest;
    assert s[1] == if |k| == 1 then rest[0] else k[1];
  }

  lemma EntryLineIsNoItem(e: Entry, l: Layout, indent: nat)
    requires IsKey(e.key) && Tree(e.value)
    ensures !PrintEntry(e, l, indent)[0].Item() && PrintEntry(e, l, indent)[0].indent == indent
  {
    hide TextOf, PrintBlock;
    if Block?(e.value) {
      KeyLineIsNoItem(e.key, [COLON], indent);
    } else {
      var text := TextOf(e.value, l);
      assert Scalared(e.key, text) == e.key + ([COLON, SPACE] + text);
      KeyLineIsNoItem(e.key, [COLON, SPACE] + text, indent);
    }
  }

  lemma EntriesBegin(es: seq<Entry>, ls: seq<Layout>, indent: nat)
    requires Trees(es) && es != []
    ensures var p := PrintEntries(es, ls, indent);
            p != [] && !p[0].Item() && p[0].indent == indent
  {
    EntryLineIsNoItem(es[0], First(ls), indent);
    hide PrintEntry, Token.Item, First, Rest;
  }

  lemma ItemsBegin(items: seq<Value>, ls: seq<Layout>, indent: nat)
    requires ItemTrees(items) && items != []
    ensures var p := PrintItems(items, ls, indent);
            p != [] && p[0].Item() && p[0].indent == indent
  {
    ItemLineIsItem(items[0], First(ls), indent);
    hide PrintItem, Token.Item, ItemShape, First, Rest;
  }

  lemma {:induction false} AssignedNew(d: seq<Entry>, k: Str, v: Value)
    requires forall i :: 0 <= i < |d| ==> d[i].key != k
    ensures Assigned(d, k, v) == d + [Entry(k, v)]
  {
    if d != [] {
      AssignedNew(d[1..], k, v);
    }
  }

  lemma {:induction false} UpdatedNew(d: seq<Entry>, extra: seq<Entry>)
    requires Distinct(d + extra)
    ensures Updated(d, extra) == d + extra
    decreases extra
  {
    if extra == [] {
      assert d + extra == d;
    } else {
      forall i | 0 <= i < |d|
        ensures d[i].key != extra[0].key
      {
        assert (d + extra)[i].key != (d + extra)[|d|].key;
      }
      AssignedNew(d, extra[0].key, extra[0].value);
      assert extra[0] == Entry(extra[0].key, extra[0].value);
      assert d + [extra[0]] + extra[1..] == d + extra;
      UpdatedNew(d + [extra[0]], extra[1..]);
    }
  }

  // ---------------------------------------------------------------- the descent on printed tokens

  predicate At(ts: seq<Token>, i: nat, part: seq<Token>) {
    i + |part| <= |ts| && ts[i..i + |part|] == part
  }

  lemma AtParts(ts: seq<Token>, i: nat, a: seq<Token>, b: seq<Token>)
    requires At(ts, i, a + b)
    ensures At(ts, i, a) && At(ts, i + |a|, b) && i + |a| <= |ts|
    ensures a != [] ==> i < |ts| && ts[i] == a[0]
    ensures b != [] ==> i + |a| < |ts| && ts[i + |a|] == b[0]
  {
    var all := ts[i..i + |a + b|];
    assert ts[i..i + |a|] == all[..|a|] == a;
    assert ts[i + |a|..i + |a| + |b|] == all[|a|..] == b;
    assert a != [] ==> ts[i] == all[0];
    assert b != [] ==> ts[i + |a|] == all[|a|];
  }

  // The block at this indent is over.
  predicate Ends(ts: seq<Token>, i: nat, indent: nat) {
    i >= |ts| || ts[i].indent < indent
  }

  // The block is over or goes on with another mapping entry.
  predicate EndsEntry(ts: seq<Token>, i: nat, indent: nat) {
    Ends(ts, i, indent) || (ts[i].indent == indent && !ts[i].Item())
  }

  lemma {:induction false} EntriesParse(ts: seq<Token>, i: nat, es: seq<Entry>, ls: seq<Layout>, indent: nat, acc: seq<Entry>)
    requires Trees(es)
    requires At(ts, i, PrintEntries(es, ls, indent)) && Ends(ts, i + |PrintEntries(es, ls, indent)|, indent)
    ensures MappingFrom(ts, i, indent, acc) == Ok((Map(Updated(acc, NarrowEntries(es))), i + |PrintEntries(es, ls, indent)|))
    decreases es, 1
  {
    hide *;
    if es == [] {
      NoEntriesParse(ts, i, ls, indent, acc);
    } else {
      FirstAndRest(ts, i, es, ls, indent);
      OneMoreEntry(es, acc);
      var first := PrintEntry(es[0], First(ls), indent);
      EntryParse(ts, i, es[0], First(ls), indent, acc);
      EntriesParse(ts, i + |first|, es[1..], Rest(ls), indent, Assigned(acc, es[0].key, Narrow(es[0].value)));
    }
  }

  // What parsing one entry and then the rest needs to know: where they are printed...
  lemma FirstAndRest(ts: seq<Token>, i: nat, es: seq<Entry>, ls: seq<Layout>, indent: nat)
    requires Trees(es) && es != []
    requires At(ts, i, PrintEntries(es, ls, indent)) && Ends(ts, i + |PrintEntries(es, ls, indent)|, indent)
    ensures IsKey(es[0].key) && Tree(es[0].value) && Trees(es[1..])
    ensures var first, rest := PrintEntry(es[0], First(ls), indent), PrintEntries(es[1..], Rest(ls), indent);
            && |PrintEntries(es, ls, indent)| == |first| + |rest| && i + |first| <= |ts|
            && At(ts, i, first) && At(ts, i + |first|, rest)
            && EndsEntry(ts, i + |first|, indent) && Ends(ts, i + |first| + |rest|, indent)
  {
    hide *;
    EntriesUnfold(es, ls, indent);
    var first, rest := PrintEntry(es[0], First(ls), indent), PrintEntries(es[1..], Rest(ls), indent);
    AtParts(ts, i, first, rest);
    RestBegins(ts, i + |first|, es[1..], Rest(ls), indent);
  }

  // ... and what they add to the entries so far.
  lemma OneMoreEntry(es: seq<Entry>, acc: seq<Entry>)
    requires Trees(es) && es != []
    ensures IsKey(es[0].key) && Tree(es[0].value) && Trees(es[1..])
    ensures Updated(acc, NarrowEntries(es))
            == Updated(Assigned(acc, es[0].key, Narrow(es[0].value)), NarrowEntries(es[1..]))
  {
    EntriesUnfold(es, [], 0);
    hide Trees, NarrowEntries, Narrow, PrintEntries, PrintEntry, Assigned, IsKey, Tree;
    var first, rest := Entry(es[0].key, Narrow(es[0].value)), NarrowEntries(es[1..]);
    assert ([first] + rest)[0] == first && ([first] + rest)[1..] == rest;
  }

  lemma EntriesUnfold(es: seq<Entry>, ls: seq<Layout>, indent: nat)
    requires Trees(es)
    ensures es == [] ==> PrintEntries(es, ls, indent) == [] && NarrowEntries(es) == []
    ensures es != [] ==>
              && IsKey(es[0].key) && Tree(es[0].value) && Trees(es[1..])
              && PrintEntries(es, ls, indent) == PrintEntry(es[0], First(ls), indent) + PrintEntries(es[1..], Rest(ls), indent)
              && NarrowEntries(es) == [Entry(es[0].key, Narrow(es[0].value))] + NarrowEntries(es[1..])
  {
    hide PrintEntry, Narrow, Tree, IsKey, First, Rest;
  }

  // After one entry comes the end of the block or another entry.
  lemma RestBegins(ts: seq<Token>, i: nat, es: seq<Entry>, ls: seq<Layout>, indent: nat)
    requires Trees(es) && At(ts, i, PrintEntries(es, ls, indent)) && Ends(ts, i + |PrintEntries(es, ls, indent)|, indent)
    ensures EndsEntry(ts, i, indent)
  {
    hide Trees, Token.Item;
    if es != [] {
      var part := PrintEntries(es, ls, indent);
      EntriesBegin(es, ls, indent);
      AtParts(ts, i, part, []);
      assert part + [] == part;
    }
  }

  lemma NoEntriesParse(ts: seq<Token>, i: nat, ls: seq<Layout>, indent: nat, acc: seq<Entry>)
    requires At(ts, i, PrintEntries([], ls, indent)) && Ends(ts, i + |PrintEntries([], ls, indent)|, indent)
    ensures MappingFrom(ts, i, indent, acc) == Ok((Map(Updated(acc, NarrowEntries([]))), i + |PrintEntries([], ls, indent)|))
  {
  }

  lemma ScalaredIsNoItem(k: Str, text: Str, indent: nat)
    requires IsKey(k)
    ensures !Token(indent, Scalared(k, text)).Item()
  {
    assert Scalared(k, text) == k + ([COLON, SPACE] + text);
    KeyLineIsNoItem(k, [COLON, SPACE] + text, indent);
    hide Token.Item, Scalared, IsKey;
  }

  // The mapping loop at an entry with a value, and at one with a block to come.
  lemma ValueStep(ts: seq<Token>, i: nat, indent: nat, acc: seq<Entry>, k: Str, v: Value)
    requires i < |ts| && ts[i].indent == indent && !ts[i].Item() && InlineEntry(ts[i].content) == Some(Inline(k, Some(v)))
    ensures MappingFrom(ts, i, indent, acc) == MappingFrom(ts, i + 1, indent, Assigned(acc, k, v))
  {
    hide InlineEntry, Token.Item, ChildBlock;
  }

  lemma KeyStep(ts: seq<Token>, i: nat, indent: nat, acc: seq<Entry>, k: Str)
    requires i < |ts| && ts[i].indent == indent && !ts[i].Item() && InlineEntry(ts[i].content) == Some(Inline(k, None))
    requires ChildBlock(ts, i + 1, indent).Ok?
    ensures var (child, j) := ChildBlock(ts, i + 1, indent).value;
            MappingFrom(ts, i, indent, acc) == MappingFrom(ts, j, indent, Assigned(acc, k, child))
  {
    hide InlineEntry, Token.Item, ChildBlock;
  }

  lemma ScalarStep(ts: seq<Token>, i: nat, k: Str, v: Value, text: Str, indent: nat, acc: seq<Entry>)
    requires IsKey(k) && IsScalar(v) && Written(text, v) && i < |ts| && ts[i] == Token(indent, Scalared(k, text))
    ensures MappingFrom(ts, i, indent, acc) == MappingFrom(ts, i + 1, indent, Assigned(acc, k, NarrowScalar(v)))
  {
    hide *;
    ScalaredIsNoItem(k, text, indent);
    ScalaredReads(k, text, v);
    ValueStep(ts, i, indent, acc, k, NarrowScalar(v));
  }

  lemma BlockStep(ts: seq<Token>, i: nat, k: Str, indent: nat, acc: seq<Entry>)
    requires IsKey(k) && i < |ts| && ts[i] == Token(indent, Head(k))
    requires ChildBlock(ts, i + 1, indent).Ok?
    ensures var (child, j) := ChildBlock(ts, i + 1, indent).value;
            MappingFrom(ts, i, indent, acc) == MappingFrom(ts, j, indent, Assigned(acc, k, child))
  {
    HeadIsNoItem(k, indent);
    hide *;
    HeadReads(k);
    KeyStep(ts, i, indent, acc, k);
  }

  lemma HeadIsNoItem(k: Str, indent: nat)
    requires IsKey(k)
    ensures !Token(indent, Head(k)).Item()
  {
    KeyLineIsNoItem(k, [COLON], indent);
  }

  lemma BlockEntry(ts: seq<Token>, i: nat, e: Entry, l: Layout, indent: nat)
    requires IsKey(e.key) && Tree(e.value) && Block?(e.value)
    requires At(ts, i, PrintEntry(e, l, indent)) && EndsEntry(ts, i + |PrintEntry(e, l, indent)|, indent)
    ensures i < |ts| && ts[i] == Token(indent, Head(e.key))
    ensures var block := PrintBlock(e.value, l, Under(e.value, l, indent));
            && |PrintEntry(e, l, indent)| == 1 + |block| && At(ts, i + 1, block) && EndsEntry(ts, i + 1 + |block|, indent)
  {
    var head, block := [Token(indent, Head(e.key))], PrintBlock(e.value, l, Under(e.value, l, indent));
    assert PrintEntry(e, l, indent) == head + block;
    AtParts(ts, i, head, block);
    hide *;
  }

  lemma ScalarEntry(ts: seq<Token>, i: nat, e: Entry, l: Layout, indent: nat)
    requires IsKey(e.key) && Tree(e.value) && !Block?(e.value) && At(ts, i, PrintEntry(e, l, indent))
    ensures IsScalar(e.value) && Narrow(e.value) == NarrowScalar(e.value)
    ensures i < |ts| && ts[i] == Token(indent, Scalared(e.key, TextOf(e.value, l))) && |PrintEntry(e, l, indent)| == 1
  {
    var line := [Token(indent, Scalared(e.key, TextOf(e.value, l)))];
    assert PrintEntry(e, l, indent) == line + [];
    AtParts(ts, i, line, []);
    hide Scalared, NarrowScalar, TextOf;
  }

  lemma {:induction false} EntryParse(ts: seq<Token>, i: nat, e: Entry, l: Layout, indent: nat, acc: seq<Entry>)
    requires IsKey(e.key) && Tree(e.value)
    requires At(ts, i, PrintEntry(e, l, indent)) && EndsEntry(ts, i + |PrintEntry(e, l, indent)|, indent)
    ensures MappingFrom(ts, i, indent, acc)
            == MappingFrom(ts, i + |PrintEntry(e, l, indent)|, indent, Assigned(acc, e.key, Narrow(e.value)))
    decreases e, 1
  {
    hide *;
    if Block?(e.value) {
      BlockEntry(ts, i, e, l, indent);
      ChildParse(ts, i + 1, e.value, l, indent);
      BlockStep(ts, i, e.key, indent, acc);
    } else {
      ScalarEntry(ts, i, e, l, indent);
      ScalarStep(ts, i, e.key, e.value, TextOf(e.value, l), indent, acc);
    }
  }

  // Which loop reads the block under a key, at whatever column it stands.
  lemma MapUnderKey(ts: seq<Token>, i: nat, v: Value, l: Layout, indent: nat)
    requires Tree(v) && v.Map?
    requires var block := PrintBlock(v, l, Under(v, l, indent)); At(ts, i, block) && EndsEntry(ts, i + |block|, indent)
    ensures i <= |ts| && Ends(ts, i + |PrintBlock(v, l, Under(v, l, indent))|, Under(v, l, indent))
    ensures ChildBlock(ts, i, indent)
            == if v.entries == [] then Ok((Map([]), i)) else MappingFrom(ts, i, Under(v, l, indent), [])
    ensures v.entries == [] ==> PrintBlock(v, l, Under(v, l, indent)) == []
  {
    var part := PrintEntries(v.entries, l.parts, Under(v, l, indent));
    AtParts(ts, i, part, []);
    assert part + [] == part;
    if v.entries != [] {
      EntriesBegin(v.entries, l.parts, Under(v, l, indent));
    }
    hide MappingFrom, ListFrom, PrintEntry, Token.Item, Distinct;
  }

  lemma ListUnderKey(ts: seq<Token>, i: nat, v: Value, l: Layout, indent: nat)
    requires Tree(v) && v.List?
    requires var block := PrintBlock(v, l, Under(v, l, indent)); At(ts, i, block) && EndsEntry(ts, i + |block|, indent)
    ensures i <= |ts| && EndsEntry(ts, i + |PrintBlock(v, l, Under(v, l, indent))|, Under(v, l, indent))
    ensures ChildBlock(ts, i, indent) == ListFrom(ts, i, Under(v, l, indent), [])
  {
    BlockKinds(v);
    BlockUnfold(v, l, Under(v, l, indent));
    ItemsBegin(v.items, l.parts, Under(v, l, indent));
    hide Tree, PrintBlock;
    ListChild(ts, i, PrintItems(v.items, l.parts, Under(v, l, indent)), indent, Under(v, l, indent));
  }

  lemma ListChild(ts: seq<Token>, i: nat, part: seq<Token>, indent: nat, column: nat)
    requires At(ts, i, part) && EndsEntry(ts, i + |part|, indent)
    requires part != [] && part[0].Item() && part[0].indent == column >= indent
    ensures i <= |ts| && EndsEntry(ts, i + |part|, column) && ChildBlock(ts, i, indent) == ListFrom(ts, i, column, [])
  {
    hide MappingFrom, ListFrom, Token.Item;
    AtParts(ts, i, part, []);
    assert part + [] == part;
  }

  lemma BlockUnfold(v: Value, l: Layout, indent: nat)
    requires Tree(v) && Block?(v)
    ensures v.Map? ==> Trees(v.entries) && Narrow(v) == Map(Updated([], NarrowEntries(v.entries)))
                       && PrintBlock(v, l, indent) == PrintEntries(v.entries, l.parts, indent)
                       && (v.entries == [] ==> Narrow(v) == Map([]))
    ensures v.List? ==> ItemTrees(v.items) && v.items != [] && Narrow(v) == List([] + NarrowItems(v.items))
                        && PrintBlock(v, l, indent) == PrintItems(v.items, l.parts, indent)
  {
    if v.List? {
      assert [] + NarrowItems(v.items) == NarrowItems(v.items);
    }
    hide PrintEntries, PrintItems, Trees, ItemTrees;
  }

  lemma {:induction false} ChildParse(ts: seq<Token>, i: nat, v: Value, l: Layout, indent: nat)
    requires Tree(v) && Block?(v)
    requires var block := PrintBlock(v, l, Under(v, l, indent)); At(ts, i, block) && EndsEntry(ts, i + |block|, indent)
    ensures i <= |ts| && ChildBlock(ts, i, indent) == Ok((Narrow(v), i + |PrintBlock(v, l, Under(v, l, indent))|))
    decreases v, 1
  {
    BlockKinds(v);
    hide *;
    var column := Under(v, l, indent);
    BlockUnfold(v, l, column);
    if v.Map? {
      MapUnderKey(ts, i, v, l, indent);
      if v.entries != [] {
        EntriesParse(ts, i, v.entries, l.parts, column, []);
      }
    } else {
      ListUnderKey(ts, i, v, l, indent);
      ItemsParse(ts, i, v.items, l.parts, column, []);
    }
  }

  lemma BlockKinds(v: Value)
    ensures Block?(v) <==> v.Map? || v.List?
  {
  }

  lemma ItemLineIsItem(v: Value, l: Layout, indent: nat)
    requires Tree(v) && ItemShape(v)
    ensures PrintItem(v, l, indent)[0].Item() && PrintItem(v, l, indent)[0].indent == indent
  {
    hide TextOf, ItemText, Scalared, Head, PrintEntries, PrintBlock;
  }

  lemma NoItemsParse(ts: seq<Token>, i: nat, ls: seq<Layout>, indent: nat, acc: seq<Value>)
    requires At(ts, i, PrintItems([], ls, indent)) && EndsEntry(ts, i + |PrintItems([], ls, indent)|, indent)
    ensures i <= |ts| && ListFrom(ts, i, indent, acc) == Ok((List(acc + NarrowItems([])), i + |PrintItems([], ls, indent)|))
  {
    assert acc + NarrowItems([]) == acc;
    hide Token.Item;
  }

  lemma ListStep(ts: seq<Token>, i: nat, indent: nat, acc: seq<Value>, item: Value, j: nat)
    requires i < |ts| && ts[i].indent == indent && ts[i].Item() && Yaml.Item(ts, i, indent) == Ok((item, j))
    ensures j <= |ts| && ListFrom(ts, i, indent, acc) == ListFrom(ts, j, indent, acc + [item])
  {
    hide Token.Item, Yaml.Item;
  }

  lemma ItemsUnfold(items: seq<Value>, ls: seq<Layout>, indent: nat)
    requires ItemTrees(items) && items != []
    ensures Tree(items[0]) && ItemShape(items[0]) && ItemTrees(items[1..])
    ensures PrintItems(items, ls, indent) == PrintItem(items[0], First(ls), indent) + PrintItems(items[1..], Rest(ls), indent)
    ensures NarrowItems(items) == [Narrow(items[0])] + NarrowItems(items[1..])
  {
    hide PrintItem, Narrow, Tree, ItemShape, First, Rest;
  }

  // What follows the first item ends it: the next item, or the end of the list.
  lemma NextItemEnds(ts: seq<Token>, i: nat, items: seq<Value>, ls: seq<Layout>, indent: nat)
    requires ItemTrees(items)
    requires At(ts, i, PrintItems(items, ls, indent)) && EndsEntry(ts, i + |PrintItems(items, ls, indent)|, indent)
    ensures Ends(ts, i, indent + 1)
  {
    hide ItemTrees, Token.Item;
    if items != [] {
      var part := PrintItems(items, ls, indent);
      ItemsBegin(items, ls, indent);
      AtParts(ts, i, part, []);
      assert part + [] == part;
      hide PrintItems;
    }
  }

  lemma FirstItemAndRest(ts: seq<Token>, i: nat, items: seq<Value>, ls: seq<Layout>, indent: nat)
    requires ItemTrees(items) && items != []
    requires At(ts, i, PrintItems(items, ls, indent)) && EndsEntry(ts, i + |PrintItems(items, ls, indent)|, indent)
    ensures Tree(items[0]) && ItemShape(items[0]) && ItemTrees(items[1..])
    ensures NarrowItems(items) == [Narrow(items[0])] + NarrowItems(items[1..])
    ensures var first, rest := PrintItem(items[0], First(ls), indent), PrintItems(items[1..], Rest(ls), indent);
            && |PrintItems(items, ls, indent)| == |first| + |rest| && i < |ts| && i + |first| <= |ts|
            && At(ts, i, first) && At(ts, i + |first|, rest) && ts[i].indent == indent && ts[i].Item()
            && Ends(ts, i + |first|, indent + 1) && EndsEntry(ts, i + |first| + |rest|, indent)
  {
    hide *;
    ItemsUnfold(items, ls, indent);
    var first, rest := PrintItem(items[0], First(ls), indent), PrintItems(items[1..], Rest(ls), indent);
    AtParts(ts, i, first, rest);
    ItemLineIsItem(items[0], First(ls), indent);
    NextItemEnds(ts, i + |first|, items[1..], Rest(ls), indent);
  }

  lemma {:induction false} ItemsParse(ts: seq<Token>, i: nat, items: seq<Value>, ls: seq<Layout>, indent: nat, acc: seq<Value>)
    requires ItemTrees(items)
    requires At(ts, i, PrintItems(items, ls, indent)) && EndsEntry(ts, i + |PrintItems(items, ls, indent)|, indent)
    ensures i <= |ts| && ListFrom(ts, i, indent, acc) == Ok((List(acc + NarrowItems(items)), i + |PrintItems(items, ls, indent)|))
    decreases items, 1
  {
    hide *;
    if items == [] {
      NoItemsParse(ts, i, ls, indent, acc);
    } else {
      FirstItemAndRest(ts, i, items, ls, indent);
      var first := PrintItem(items[0], First(ls), indent);
      ItemParse(ts, i, items[0], First(ls), indent);
      ListStep(ts, i, indent, acc, Narrow(items[0]), i + |first|);
      ItemsParse(ts, i + |first|, items[1..], Rest(ls), indent, acc + [Narrow(items[0])]);
      assert acc + [Narrow(items[0])] + NarrowItems(items[1..]) == acc + ([Narrow(items[0])] + NarrowItems(items[1..]));
    }
  }

  lemma {:induction false} ItemParse(ts: seq<Token>, i: nat, v: Value, l: Layout, indent: nat)
    requires Tree(v) && ItemShape(v)
    requires At(ts, i, PrintItem(v, l, indent)) && Ends(ts, i + |PrintItem(v, l, indent)|, indent + 1)
    requires i < |ts| && ts[i].Item()
    ensures Yaml.Item(ts, i, indent) == Ok((Narrow(v), i + |PrintItem(v, l, indent)|))
    decreases v, 4
  {
    ItemKinds(v);
    hide *;
    if IsScalar(v) {
      ScalarItemParse(ts, i, v, l, indent);
    } else {
      MapItemParse(ts, i, v, l, indent);
    }
  }

  lemma {:induction false} MapItemParse(ts: seq<Token>, i: nat, v: Value, l: Layout, indent: nat)
    requires Tree(v) && ItemShape(v) && v.Map? && v.entries != []
    requires IsScalar(v.entries[0].value) || |v.entries| == 1
    requires At(ts, i, PrintItem(v, l, indent)) && Ends(ts, i + |PrintItem(v, l, indent)|, indent + 1)
    requires i < |ts| && ts[i].Item()
    ensures Yaml.Item(ts, i, indent) == Ok((Narrow(v), i + |PrintItem(v, l, indent)|))
    decreases v, 3
  {
    hide *;
    if IsScalar(v.entries[0].value) {
      ScalarFirstItem(ts, i, v, l, indent);
    } else {
      BlockItem(ts, i, v, l, indent);
    }
  }

  lemma ScalarItemParse(ts: seq<Token>, i: nat, v: Value, l: Layout, indent: nat)
    requires Tree(v) && ItemShape(v) && IsScalar(v) && At(ts, i, PrintItem(v, l, indent)) && i < |ts| && ts[i].Item()
    ensures Yaml.Item(ts, i, indent) == Ok((Narrow(v), i + |PrintItem(v, l, indent)|))
  {
    hide *;
    ScalarItemLine(ts, i, v, l, indent);
    ScalarItem(ts, i, v, ItemText(v, l), indent);
  }

  lemma ItemKinds(v: Value)
    requires Tree(v) && ItemShape(v)
    ensures IsScalar(v) || (v.Map? && v.entries != [] && (IsScalar(v.entries[0].value) || |v.entries| == 1))
    ensures !IsScalar(v) ==> IsKey(v.entries[0].key) && Tree(v.entries[0].value)
  {
  }

  lemma ScalarItemLine(ts: seq<Token>, i: nat, v: Value, l: Layout, indent: nat)
    requires Tree(v) && ItemShape(v) && IsScalar(v) && At(ts, i, PrintItem(v, l, indent))
    ensures i < |ts| && ts[i] == Token(indent, Dashed(ItemText(v, l))) && |PrintItem(v, l, indent)| == 1
    ensures InlineEntry(ItemText(v, l)) == None && Narrow(v) == NarrowScalar(v)
  {
    var line := PrintItem(v, l, indent);
    AtParts(ts, i, line, []);
    assert line + [] == line;
    ScalarReads(v);
    hide Scalar, ScalarText, InlineEntry, Spells, NarrowScalar;
  }

  lemma ScalarItem(ts: seq<Token>, i: nat, v: Value, text: Str, indent: nat)
    requires IsScalar(v) && Written(text, v) && InlineEntry(text) == None
    requires i < |ts| && ts[i] == Token(indent, Dashed(text)) && ts[i].Item()
    ensures Yaml.Item(ts, i, indent) == Ok((NarrowScalar(v), i + 1))
  {
    WrittenReads(text, v);
    hide Written, InlineEntry, Scalar, NarrowScalar, Strip, Block, Token.Item;
    assert Dashed(text)[2..] == text;
    StripKeeps(text);
  }

  lemma EntryItem(ts: seq<Token>, i: nat, indent: nat, text: Str, k: Str, v: Option<Value>)
    requires i < |ts| && ts[i] == Token(indent, Dashed(text)) && ts[i].Item()
    requires text != [] && Strip(text) == text && InlineEntry(text) == Some(Inline(k, v))
    ensures !Deeper(ts, i + 1, indent) ==>
              Yaml.Item(ts, i, indent) == Ok((Map([Entry(k, if v.Some? then v.value else Map([]))]), i + 1))
    ensures Deeper(ts, i + 1, indent) ==>
              var r := Block(ts, i + 1, ts[i + 1].indent);
              && (r.Ok? && v.None? ==> Yaml.Item(ts, i, indent) == Ok((Map([Entry(k, r.value.0)]), r.value.1)))
              && (r.Ok? && v.Some? && r.value.0.Map? ==>
                    Yaml.Item(ts, i, indent) == Ok((Map(Updated([Entry(k, v.value)], r.value.0.entries)), r.value.1)))
              && (r.Ok? && v.Some? && !r.value.0.Map? ==> Yaml.Item(ts, i, indent) == Ok((Map([Entry(k, v.value)]), r.value.1)))
  {
    assert Dashed(text)[2..] == text;
    hide Strip, InlineEntry, Updated, MappingFrom, ListFrom, Token.Item, Block;
  }

  // ---------------------------------------------------------------- items that are mappings

  // A block at least two columns into an item, up to the item's end.
  predicate Inside(ts: seq<Token>, i: nat, block: seq<Token>, column: nat, indent: nat) {
    At(ts, i, block) && Ends(ts, i + |block|, indent + 1) && column >= indent + 2
  }

  lemma InsideBegins(ts: seq<Token>, i: nat, part: seq<Token>, column: nat, indent: nat)
    requires Inside(ts, i, part, column, indent) && (part != [] ==> part[0].indent == column)
    ensures Deeper(ts, i, indent) <==> part != []
    ensures part != [] ==> i < |ts| && ts[i] == part[0]
    ensures At(ts, i, part) && Ends(ts, i + |part|, column)
  {
    AtParts(ts, i, part, []);
    assert part + [] == part;
  }

  lemma EntriesInside(ts: seq<Token>, i: nat, es: seq<Entry>, ls: seq<Layout>, column: nat, indent: nat)
    requires Trees(es) && Inside(ts, i, PrintEntries(es, ls, column), column, indent)
    ensures Deeper(ts, i, indent) <==> es != []
    ensures es == [] ==> PrintEntries(es, ls, column) == [] && NarrowEntries(es) == []
    ensures es != [] ==>
              Block(ts, i, ts[i].indent) == Ok((Map(Updated([], NarrowEntries(es))), i + |PrintEntries(es, ls, column)|))
    decreases es, 2
  {
    hide *;
    var part := PrintEntries(es, ls, column);
    EntriesUnfold(es, ls, column);
    if es != [] {
      EntriesBegin(es, ls, column);
    }
    InsideBegins(ts, i, part, column, indent);
    if es != [] {
      EntriesParse(ts, i, es, ls, column, []);
      BlockStarts(ts, i);
    }
  }

  lemma BlockStarts(ts: seq<Token>, i: nat)
    requires i < |ts|
    ensures Block(ts, i, ts[i].indent)
            == if ts[i].Item() then ListFrom(ts, i, ts[i].indent, []) else MappingFrom(ts, i, ts[i].indent, [])
  {
    hide MappingFrom, ListFrom, Token.Item;
  }

  lemma ItemsInside(ts: seq<Token>, i: nat, items: seq<Value>, ls: seq<Layout>, column: nat, indent: nat)
    requires ItemTrees(items) && items != [] && Inside(ts, i, PrintItems(items, ls, column), column, indent)
    ensures Deeper(ts, i, indent)
    ensures Block(ts, i, ts[i].indent) == Ok((List(NarrowItems(items)), i + |PrintItems(items, ls, column)|))
    decreases items, 2
  {
    hide MappingFrom, ListFrom, PrintItem, Token.Item, NarrowItems, First, Rest, ItemShape;
    var part := PrintItems(items, ls, column);
    AtParts(ts, i, part, []);
    assert part + [] == part;
    ItemsBegin(items, ls, column);
    assert [] + NarrowItems(items) == NarrowItems(items);
    ItemsParse(ts, i, items, ls, column, []);
  }

  lemma BlockInside(ts: seq<Token>, i: nat, v: Value, l: Layout, column: nat, indent: nat)
    requires Tree(v) && Block?(v) && Inside(ts, i, PrintBlock(v, l, column), column, indent)
    ensures !Deeper(ts, i, indent) ==> Narrow(v) == Map([]) && PrintBlock(v, l, column) == []
    ensures Deeper(ts, i, indent) ==> Block(ts, i, ts[i].indent) == Ok((Narrow(v), i + |PrintBlock(v, l, column)|))
    decreases v, 1
  {
    BlockKinds(v);
    hide *;
    BlockUnfold(v, l, column);
    if v.Map? {
      EntriesInside(ts, i, v.entries, l.parts, column, indent);
    } else {
      assert [] + NarrowItems(v.items) == NarrowItems(v.items);
      ItemsInside(ts, i, v.items, l.parts, column, indent);
    }
  }

  lemma FirstEntry(v: Value)
    requires Tree(v) && v.Map? && v.entries != []
    ensures var e, rest := v.entries[0], v.entries[1..];
            v.entries == [e] + rest && IsKey(e.key) && Tree(e.value) && Trees(rest) && Trees([e] + rest)
  {
    assert Trees(v.entries);
    assert v.entries == [v.entries[0]] + v.entries[1..];
    hide IsKey, Tree;
  }

  lemma ScalarFirstPrints(v: Value, l: Layout, indent: nat)
    requires Tree(v) && ItemShape(v) && v.Map? && v.entries != [] && IsScalar(v.entries[0].value) && Trees(v.entries[1..])
    ensures var e, rest := v.entries[0], v.entries[1..];
            PrintItem(v, l, indent)
            == [Token(indent, Dashed(Scalared(e.key, TextOf(e.value, First(l.parts)))))]
               + PrintEntries(rest, Rest(l.parts), indent + 2 + l.shift)
  {
    hide Scalared, Dashed, TextOf, PrintEntries, IsKey, First, Rest, ItemShape, Trees, Tree;
  }

  lemma ScalarFirstUnfold(v: Value, l: Layout, indent: nat)
    requires Tree(v) && ItemShape(v) && v.Map? && v.entries != [] && IsScalar(v.entries[0].value)
    ensures var e, rest := v.entries[0], v.entries[1..];
            && v.entries == [e] + rest && IsKey(e.key) && Trees(rest) && Trees([e] + rest)
            && PrintItem(v, l, indent)
               == [Token(indent, Dashed(Scalared(e.key, TextOf(e.value, First(l.parts)))))]
                  + PrintEntries(rest, Rest(l.parts), indent + 2 + l.shift)
  {
    hide *;
    FirstEntry(v);
    ScalarFirstPrints(v, l, indent);
  }

  lemma ScalarFirstLine(ts: seq<Token>, i: nat, v: Value, l: Layout, indent: nat)
    requires Tree(v) && ItemShape(v) && v.Map? && v.entries != [] && IsScalar(v.entries[0].value)
    requires At(ts, i, PrintItem(v, l, indent)) && Ends(ts, i + |PrintItem(v, l, indent)|, indent + 1)
    ensures var e, rest, column := v.entries[0], v.entries[1..], indent + 2 + l.shift;
            && IsKey(e.key) && Trees(rest) && Trees([e] + rest) && v.entries == [e] + rest
            && i < |ts| && ts[i] == Token(indent, Dashed(Scalared(e.key, TextOf(e.value, First(l.parts)))))
            && Inside(ts, i + 1, PrintEntries(rest, Rest(l.parts), column), column, indent)
            && |PrintItem(v, l, indent)| == 1 + |PrintEntries(rest, Rest(l.parts), column)|
  {
    hide *;
    ScalarFirstUnfold(v, l, indent);
    var e, rest, column := v.entries[0], v.entries[1..], indent + 2 + l.shift;
    var head := Token(indent, Dashed(Scalared(e.key, TextOf(e.value, First(l.parts)))));
    HeadAndBlock(ts, i, head, PrintEntries(rest, Rest(l.parts), column), column, indent);
  }

  lemma HeadAndBlock(ts: seq<Token>, i: nat, head: Token, block: seq<Token>, column: nat, indent: nat)
    requires At(ts, i, [head] + block) && Ends(ts, i + |[head] + block|, indent + 1) && column >= indent + 2
    ensures i < |ts| && ts[i] == head && |[head] + block| == 1 + |block| && Inside(ts, i + 1, block, column, indent)
  {
    AtParts(ts, i, [head], block);
  }

  lemma {:induction false} ScalarFirstItem(ts: seq<Token>, i: nat, v: Value, l: Layout, indent: nat)
    requires Tree(v) && ItemShape(v) && v.Map? && v.entries != [] && IsScalar(v.entries[0].value)
    requires At(ts, i, PrintItem(v, l, indent)) && Ends(ts, i + |PrintItem(v, l, indent)|, indent + 1)
    requires i < |ts| && ts[i].Item()
    ensures Yaml.Item(ts, i, indent) == Ok((Narrow(v), i + |PrintItem(v, l, indent)|))
    decreases v, 2
  {
    hide *;
    var e, rest, text := v.entries[0], v.entries[1..], Scalared(v.entries[0].key, TextOf(v.entries[0].value, First(l.parts)));
    ScalarFirstLine(ts, i, v, l, indent);
    EntriesInside(ts, i + 1, rest, Rest(l.parts), indent + 2 + l.shift, indent);
    ScalaredReads(e.key, TextOf(e.value, First(l.parts)), e.value);
    ScalaredIsTight(e.key, TextOf(e.value, First(l.parts)), e.value);
    EntryItem(ts, i, indent, text, e.key, Some(NarrowScalar(e.value)));
    UpdatedNarrow(e, rest);
    MapNarrows(v);
  }

  lemma MapNarrows(v: Value)
    requires Tree(v) && v.Map?
    ensures Trees(v.entries) && Narrow(v) == Map(Updated([], NarrowEntries(v.entries)))
  {
  }

  lemma BlockFirstUnfold(v: Value, l: Layout, indent: nat)
    requires Tree(v) && ItemShape(v) && v.Map? && |v.entries| == 1 && !IsScalar(v.entries[0].value)
    ensures var e := v.entries[0];
            && IsKey(e.key) && Tree(e.value) && Block?(e.value) && Narrow(v) == Map([Entry(e.key, Narrow(e.value))])
            && PrintItem(v, l, indent)
               == [Token(indent, Dashed(Head(e.key)))] + PrintBlock(e.value, First(l.parts), indent + 2 + l.shift)
  {
    var e := v.entries[0];
    assert Trees(v.entries) && v.entries[1..] == [] && v.entries == [e];
    var one := Entry(e.key, Narrow(e.value));
    assert NarrowEntries(v.entries) == [one] + NarrowEntries([]) == [one];
    assert [one][1..] == [] && Assigned([], one.key, one.value) == [one];
    assert Updated([], [one]) == Updated([one], []);
    hide Head, Dashed, PrintBlock, IsKey, First, Rest;
  }

  lemma BlockFirstLine(ts: seq<Token>, i: nat, v: Value, l: Layout, indent: nat)
    requires Tree(v) && ItemShape(v) && v.Map? && |v.entries| == 1 && !IsScalar(v.entries[0].value)
    requires At(ts, i, PrintItem(v, l, indent)) && Ends(ts, i + |PrintItem(v, l, indent)|, indent + 1)
    ensures var e, column := v.entries[0], indent + 2 + l.shift;
            && IsKey(e.key) && Tree(e.value) && Block?(e.value) && Narrow(v) == Map([Entry(e.key, Narrow(e.value))])
            && i < |ts| && ts[i] == Token(indent, Dashed(Head(e.key)))
            && Inside(ts, i + 1, PrintBlock(e.value, First(l.parts), column), column, indent)
            && |PrintItem(v, l, indent)| == 1 + |PrintBlock(e.value, First(l.parts), column)|
  {
    BlockFirstUnfold(v, l, indent);
    var e, column := v.entries[0], indent + 2 + l.shift;
    hide *;
    HeadAndBlock(ts, i, Token(indent, Dashed(Head(e.key))), PrintBlock(e.value, First(l.parts), column), column, indent);
  }

  lemma {:induction false} BlockItem(ts: seq<Token>, i: nat, v: Value, l: Layout, indent: nat)
    requires Tree(v) && ItemShape(v) && v.Map? && |v.entries| == 1 && !IsScalar(v.entries[0].value)
    requires At(ts, i, PrintItem(v, l, indent)) && Ends(ts, i + |PrintItem(v, l, indent)|, indent + 1)
    requires i < |ts| && ts[i].Item()
    ensures Yaml.Item(ts, i, indent) == Ok((Narrow(v), i + |PrintItem(v, l, indent)|))
    decreases v, 2
  {
    hide *;
    var e := v.entries[0];
    BlockFirstLine(ts, i, v, l, indent);
    BlockInside(ts, i + 1, e.value, First(l.parts), indent + 2 + l.shift, indent);
    HeadReads(e.key);
    HeadIsTight(e.key);
    EntryItem(ts, i, indent, Head(e.key), e.key, None);
  }

  lemma HeadIsTight(k: Str)
    requires IsKey(k)
    ensures Head(k) != [] && Strip(Head(k)) == Head(k)
  {
    StripKeeps(Head(k));
    hide Strip;
  }

  lemma ScalaredIsTight(k: Str, text: Str, v: Value)
    requires IsKey(k) && IsScalar(v) && Written(text, v)
    ensures Scalared(k, text) != [] && Strip(Scalared(k, text)) == Scalared(k, text)
  {
    WrittenReads(text, v);
    hide Written, Strip, Scalar;
    StripKeeps(Scalared(k, text));
  }

  // A list under an item that has its value already is read and dropped.
  lemma ListUnderValueIsDropped(
      ts: seq<Token>, i: nat, k: Str, text: Str, v: Value, items: seq<Value>, ls: seq<Layout>, column: nat, indent: nat)
    requires IsKey(k) && IsScalar(v) && Written(text, v) && ItemTrees(items) && items != []
    requires At(ts, i, [Token(indent, Dashed(Scalared(k, text)))] + PrintItems(items, ls, column)) && column >= indent + 2
    requires Ends(ts, i + 1 + |PrintItems(items, ls, column)|, indent + 1)
    ensures i < |ts| && ts[i].Item()
    ensures Yaml.Item(ts, i, indent) == Ok((Map([Entry(k, NarrowScalar(v))]), i + 1 + |PrintItems(items, ls, column)|))
  {
    var head := Token(indent, Dashed(Scalared(k, text)));
    DashedIsItem(indent, Scalared(k, text));
    hide *;
    assert |[head] + PrintItems(items, ls, column)| == 1 + |PrintItems(items, ls, column)|;
    HeadAndBlock(ts, i, head, PrintItems(items, ls, column), column, indent);
    ItemsInside(ts, i + 1, items, ls, column, indent);
    ScalaredReads(k, text, v);
    ScalaredIsTight(k, text, v);
    EntryItem(ts, i, indent, Scalared(k, text), k, Some(NarrowScalar(v)));
  }

  lemma DashedIsItem(indent: nat, text: Str)
    ensures Token(indent, Dashed(text)).Item()
  {
  }

  // ---------------------------------------------------------------- what an update does

  predicate HasKey(d: seq<Entry>, k: Str) {
    exists i :: 0 <= i < |d| && d[i].key == k
  }

  lemma {:induction false} AssignedKeys(d: seq<Entry>, k: Str, v: Value)
    ensures forall x :: HasKey(Assigned(d, k, v), x) <==> HasKey(d, x) || x == k
  {
    if d == [] {
      assert Assigned(d, k, v)[0].key == k;
    } else {
      AssignedKeys(d[1..], k, v);
      var all := Assigned(d, k, v);
      forall x
        ensures HasKey(d, x) <==> d[0].key == x || HasKey(d[1..], x)
        ensures HasKey(all, x) <==> all[0].key == x || HasKey(all[1..], x)
      {
        KeySplits(d, x);
        KeySplits(all, x);
      }
      hide HasKey;
      assert d[0].key == k ==> all[1..] == d[1..];
      assert d[0].key != k ==> all[1..] == Assigned(d[1..], k, v);
    }
  }

  lemma KeySplits(d: seq<Entry>, x: Str)
    requires d != []
    ensures HasKey(d, x) <==> d[0].key == x || HasKey(d[1..], x)
  {
    if i :| 0 <= i < |d| && d[i].key == x {
      assert i > 0 ==> d[1..][i - 1].key == x;
    }
    if i :| 0 <= i < |d| - 1 && d[1..][i].key == x {
      assert d[i + 1].key == x;
    }
  }

  // A second assignment to a key replaces the first.
  lemma {:induction false} AssignedTwice(d: seq<Entry>, k: Str, v: Value, w: Value)
    ensures Assigned(Assigned(d, k, v), k, w) == Assigned(d, k, w)
  {
    if d != [] && d[0].key != k {
      AssignedTwice(d[1..], k, v, w);
      assert ([d[0]] + Assigned(d[1..], k, v))[1..] == Assigned(d[1..], k, v);
    }
  }

  // Assignments to two keys of which the first is there already can change places.
  lemma {:induction false} AssignedApart(d: seq<Entry>, k: Str, v: Value, x: Str, w: Value)
    requires k != x && HasKey(d, k)
    ensures Assigned(Assigned(d, k, v), x, w) == Assigned(Assigned(d, x, w), k, v)
  {
    KeySplits(d, k);
    if d[0].key == k {
      assert ([Entry(k, v)] + d[1..])[1..] == d[1..];
      assert ([d[0]] + Assigned(d[1..], x, w))[1..] == Assigned(d[1..], x, w);
    } else if d[0].key == x {
      assert ([d[0]] + Assigned(d[1..], k, v))[1..] == Assigned(d[1..], k, v);
      assert ([Entry(x, w)] + d[1..])[1..] == d[1..];
    } else {
      AssignedApart(d[1..], k, v, x, w);
      assert ([d[0]] + Assigned(d[1..], k, v))[1..] == Assigned(d[1..], k, v);
      assert ([d[0]] + Assigned(d[1..], x, w))[1..] == Assigned(d[1..], x, w);
    }
  }

  lemma {:induction false} UpdatedJoins(d: seq<Entry>, a: seq<Entry>, b: seq<Entry>)
    ensures Updated(d, a + b) == Updated(Updated(d, a), b)
    decreases a
  {
    if a == [] {
      assert a + b == b;
    } else {
      assert (a + b)[0] == a[0] && (a + b)[1..] == a[1..] + b;
      UpdatedJoins(Assigned(d, a[0].key, a[0].value), a[1..], b);
    }
  }

  // An assignment to a key that is there, and that the update leaves alone, can come first.
  lemma {:induction false} AssignedFirst(d: seq<Entry>, x: seq<Entry>, k: Str, v: Value)
    requires HasKey(d, k) && !HasKey(x, k)
    ensures Assigned(Updated(d, x), k, v) == Updated(Assigned(d, k, v), x)
    decreases x
  {
    if x != [] {
      KeySplits(x, k);
      AssignedKeys(d, x[0].key, x[0].value);
      AssignedFirst(Assigned(d, x[0].key, x[0].value), x[1..], k, v);
      AssignedApart(d, k, v, x[0].key, x[0].value);
    }
  }

  // Updating with x assigned to is updating with x and then assigning.
  lemma {:induction false} UpdateAssigned(d: seq<Entry>, x: seq<Entry>, k: Str, v: Value)
    requires Distinct(x)
    ensures Updated(d, Assigned(x, k, v)) == Assigned(Updated(d, x), k, v)
    decreases x
  {
    if x == [] {
      assert [Entry(k, v)][1..] == [];
      assert Updated(d, [Entry(k, v)]) == Updated(Assigned(d, k, v), []);
    } else {
      var e, rest := x[0], x[1..];
      if e.key == k {
        assert !HasKey(rest, k);
        AssignedKeys(d, k, e.value);
        AssignedFirst(Assigned(d, k, e.value), rest, k, v);
        AssignedTwice(d, k, e.value, v);
        assert ([Entry(k, v)] + rest)[0] == Entry(k, v) && ([Entry(k, v)] + rest)[1..] == rest;
      } else {
        assert ([e] + Assigned(rest, k, v))[0] == e && ([e] + Assigned(rest, k, v))[1..] == Assigned(rest, k, v);
        UpdateAssigned(Assigned(d, e.key, e.value), rest, k, v);
      }
    }
  }

  lemma {:induction false} AssignedDistinct(d: seq<Entry>, k: Str, v: Value)
    requires Distinct(d)
    ensures Distinct(Assigned(d, k, v))
    ensures forall e :: e in Assigned(d, k, v) <==> e == Entry(k, v) || (e in d && e.key != k)
  {
    if d != [] {
      var rest := d[1..];
      assert Distinct(rest) && !HasKey(rest, d[0].key) && d == [d[0]] + rest;
      AssignedDistinct(rest, k, v);
      AssignedKeys(rest, k, v);
      if d[0].key != k {
        assert !HasKey(Assigned(rest, k, v), d[0].key);
      }
    }
  }

  lemma UpdatedLast(d: seq<Entry>, es: seq<Entry>)
    requires es != []
    ensures var init, last := es[..|es| - 1], es[|es| - 1];
            Updated(d, es) == Assigned(Updated(d, init), last.key, last.value)
  {
    var init, last := es[..|es| - 1], es[|es| - 1];
    assert es == init + [last] && [last][1..] == [];
    UpdatedJoins(d, init, [last]);
    assert Updated(Updated(d, init), [last]) == Updated(Assigned(Updated(d, init), last.key, last.value), []);
  }

  // e stands at i, and its key nowhere after.
  predicate LastAt(es: seq<Entry>, i: nat, e: Entry) {
    i < |es| && es[i] == e && forall j :: i < j < |es| ==> es[j].key != e.key
  }

  // An update gives every key of the extra entries once, with its last value.
  lemma {:induction false} LastBindingWins(es: seq<Entry>)
    ensures Distinct(Updated([], es))
    ensures forall e :: e in Updated([], es) <==> exists i: nat :: LastAt(es, i, e)
  {
    if es == [] {
      assert Updated([], es) == [];
    } else {
      var init, last := es[..|es| - 1], es[|es| - 1];
      LastBindingWins(init);
      UpdatedLast([], es);
      AssignedDistinct(Updated([], init), last.key, last.value);
      assert es == init + [last];
      hide Updated, Assigned, LastAt;
      forall e
        ensures e in Updated([], es) <==> exists i: nat :: LastAt(es, i, e)
      {
        LastIn(init, last, e);
      }
    }
  }

  lemma LastIn(init: seq<Entry>, last: Entry, e: Entry)
    ensures (exists i: nat :: LastAt(init + [last], i, e))
            <==> e == last || (e.key != last.key && exists i: nat :: LastAt(init, i, e))
  {
    var es, n := init + [last], |init|;
    assert es[n] == last && forall j :: 0 <= j < n ==> es[j] == init[j];
    if i: nat :| LastAt(es, i, e) {
      assert i < n ==> LastAt(init, i, e);
    }
    if e == last {
      assert LastAt(es, n, e);
    } else if e.key != last.key {
      if i: nat :| LastAt(init, i, e) {
        assert LastAt(es, i, e);
      }
    }
  }

  // Entries read into a mapping of their own and merged are entries read on.
  lemma {:induction false} UpdateCollapses(d: seq<Entry>, es: seq<Entry>)
    ensures Updated(d, Updated([], es)) == Updated(d, es)
    decreases |es|
  {
    if es != [] {
      var init, last := es[..|es| - 1], es[|es| - 1];
      UpdateCollapses(d, init);
      UpdatedLast([], es);
      UpdatedLast(d, es);
      LastBindingWins(init);
      UpdateAssigned(d, Updated([], init), last.key, last.value);
    }
  }

  lemma UpdatedNarrow(e: Entry, rest: seq<Entry>)
    requires Trees([e] + rest) && Trees(rest) && IsScalar(e.value)
    ensures var first := [Entry(e.key, NarrowScalar(e.value))];
            && Updated(first, Updated([], NarrowEntries(rest))) == Updated([], NarrowEntries([e] + rest))
            && (rest == [] ==> Updated([], NarrowEntries([e] + rest)) == first)
  {
    var first, more := Entry(e.key, NarrowScalar(e.value)), NarrowEntries(rest);
    UpdateCollapses([first], more);
    EntriesUnfold([e] + rest, [], 0);
    hide NarrowScalar, IsKey, Trees, Tree, NarrowEntries, PrintEntries;
    assert ([e] + rest)[1..] == rest;
    assert ([first] + more)[0] == first && ([first] + more)[1..] == more;
    assert Assigned([], first.key, first.value) == [first];
  }

  // ---------------------------------------------------------------- printed lines through the lexer

  // A token on its line, with what follows it there.
  function Line(t: Token, tail: Str := []): Str {
    Spaces(t.indent) + t.content + tail
  }

  // A printed line's content: at any indent and before any tail, it leaves no quote open
  // and holds no comment.
  ghost predicate Clean(s: Str) {
    && s != [] && s[0] != SPACE && s[|s| - 1] != SPACE && Printable(s)
    && forall n: nat, tail :: CommentAt(Line(Token(n, s), tail), 0, UNQUOTED) == CommentAt(Line(Token(n, s), tail), n + |s|, UNQUOTED)
  }

  ghost predicate AllClean(ts: seq<Token>) {
    forall i :: 0 <= i < |ts| ==> Clean(ts[i].content)
  }

  // The text stands at `at`, after ordinary characters only.
  predicate StandsAt(line: Str, at: nat, text: Str) {
    && at + |text| <= |line| && line[at..at + |text|] == text
    && forall k :: 0 <= k < at ==> Ordinary(line[k])
  }

  predicate AllOrdinary(s: Str) {
    forall i :: 0 <= i < |s| ==> Ordinary(s[i])
  }

  lemma PrefixedStands(n: nat, prefix: Str, text: Str, tail: Str)
    requires AllOrdinary(prefix)
    ensures StandsAt(Line(Token(n, prefix + text), tail), n + |prefix|, text) && |prefix + text| == |prefix| + |text|
  {
    var line := Line(Token(n, prefix + text), tail);
    assert line == Spaces(n) + prefix + text + tail;
  }

  lemma WalkStanding(line: Str, at: nat, text: Str, v: Value)
    requires IsScalar(v) && Written(text, v) && StandsAt(line, at, text)
    ensures CommentAt(line, 0, UNQUOTED) == CommentAt(line, at + |text|, UNQUOTED)
  {
    hide Written, CommentAt, IsScalar, Ordinary;
    WalkOrdinary(line, 0, at);
    WalkWritten(line, at, text, v);
  }

  lemma PrefixedLine(n: nat, prefix: Str, text: Str, v: Value, tail: Str)
    requires AllOrdinary(prefix) && IsScalar(v) && Written(text, v)
    ensures var line := Line(Token(n, prefix + text), tail);
            CommentAt(line, 0, UNQUOTED) == CommentAt(line, n + |prefix + text|, UNQUOTED)
  {
    hide *;
    PrefixedStands(n, prefix, text, tail);
    WalkStanding(Line(Token(n, prefix + text), tail), n + |prefix|, text, v);
  }

  lemma PrefixedIsClean(prefix: Str, text: Str, v: Value)
    requires prefix != [] && prefix[0] != SPACE && AllOrdinary(prefix)
    requires IsScalar(v) && Written(text, v)
    ensures Clean(prefix + text)
  {
    WrittenReads(text, v);
    hide Written, CommentAt, IsScalar, Line, Scalar;
    forall n: nat, tail
      ensures var line := Line(Token(n, prefix + text), tail);
              CommentAt(line, 0, UNQUOTED) == CommentAt(line, n + |prefix + text|, UNQUOTED)
    {
      PrefixedLine(n, prefix, text, v, tail);
    }
  }

  lemma OrdinaryIsClean(s: Str)
    requires s != [] && s[0] != SPACE && s[|s| - 1] != SPACE && forall i :: 0 <= i < |s| ==> Ordinary(s[i])
    ensures Clean(s)
  {
    forall n: nat, tail
      ensures CommentAt(Line(Token(n, s), tail), 0, UNQUOTED) == CommentAt(Line(Token(n, s), tail), n + |s|, UNQUOTED)
    {
      var line := Line(Token(n, s), tail);
      assert forall k :: 0 <= k < n + |s| ==> Ordinary(line[k]);
      hide CommentAt, Line;
      WalkOrdinary(line, 0, n + |s|);
    }
    hide CommentAt, Line;
  }

  lemma KeyIsOrdinary(k: Str)
    requires IsKey(k)
    ensures forall i :: 0 <= i < |k| ==> Ordinary(k[i])
    ensures Clean(Head(k)) && Clean(Dashed(Head(k)))
  {
    hide Clean;
    OrdinaryIsClean(Head(k));
    OrdinaryIsClean(Dashed(Head(k)));
  }

  lemma KeyPrefix(k: Str)
    requires IsKey(k)
    ensures k != [] && k[0] != SPACE
    ensures AllOrdinary(k + [COLON, SPACE]) && AllOrdinary([DASH, SPACE] + k + [COLON, SPACE])
  {
  }

  lemma ScalaredIsPrefixed(k: Str, text: Str)
    ensures Scalared(k, text) == k + [COLON, SPACE] + text
    ensures Dashed(Scalared(k, text)) == [DASH, SPACE] + k + [COLON, SPACE] + text
  {
  }

  lemma ScalaredIsClean(k: Str, text: Str, v: Value)
    requires IsKey(k) && IsScalar(v) && Written(text, v)
    ensures Clean(Scalared(k, text)) && Clean(Dashed(Scalared(k, text)))
  {
    KeyIsOrdinary(k);
    KeyPrefix(k);
    hide *;
    ScalaredIsPrefixed(k, text);
    PrefixedIsClean(k + [COLON, SPACE], text, v);
    PrefixedIsClean([DASH, SPACE] + k + [COLON, SPACE], text, v);
  }

  lemma JoinedClean(a: seq<Token>, b: seq<Token>)
    requires AllClean(a) && AllClean(b)
    ensures AllClean(a + b)
  {
    hide Clean;
  }

  lemma OneClean(t: Token)
    requires Clean(t.content)
    ensures AllClean([t])
  {
    hide Clean;
  }

  lemma {:induction false} EntriesAreClean(es: seq<Entry>, ls: seq<Layout>, indent: nat)
    requires Trees(es)
    ensures AllClean(PrintEntries(es, ls, indent))
    decreases es, 1
  {
    hide Clean, PrintEntry, First, Rest;
    if es != [] {
      EntryIsClean(es[0], First(ls), indent);
      EntriesAreClean(es[1..], Rest(ls), indent);
      JoinedClean(PrintEntry(es[0], First(ls), indent), PrintEntries(es[1..], Rest(ls), indent));
    }
  }

  lemma {:induction false} BlockIsClean(v: Value, l: Layout, indent: nat)
    requires Tree(v) && Block?(v)
    ensures AllClean(PrintBlock(v, l, indent))
    decreases v, 1
  {
    hide AllClean, PrintEntries, PrintItems;
    if v.Map? {
      EntriesAreClean(v.entries, l.parts, indent);
    } else {
      ItemsAreClean(v.items, l.parts, indent);
    }
  }

  lemma {:induction false} EntryIsClean(e: Entry, l: Layout, indent: nat)
    requires IsKey(e.key) && Tree(e.value)
    ensures AllClean(PrintEntry(e, l, indent))
    decreases e, 1
  {
    hide Clean, AllClean, Head, Scalared, PrintBlock, TextOf, Under, Written, IsKey;
    if Block?(e.value) {
      KeyIsOrdinary(e.key);
      OneClean(Token(indent, Head(e.key)));
      BlockIsClean(e.value, l, Under(e.value, l, indent));
      JoinedClean([Token(indent, Head(e.key))], PrintBlock(e.value, l, Under(e.value, l, indent)));
    } else {
      ScalaredIsClean(e.key, TextOf(e.value, l), e.value);
      OneClean(Token(indent, Scalared(e.key, TextOf(e.value, l))));
    }
  }

  lemma {:induction false} ItemsAreClean(items: seq<Value>, ls: seq<Layout>, indent: nat)
    requires ItemTrees(items)
    ensures AllClean(PrintItems(items, ls, indent))
    decreases items, 1
  {
    hide Clean, PrintItem, First, Rest;
    if items != [] {
      ItemIsClean(items[0], First(ls), indent);
      ItemsAreClean(items[1..], Rest(ls), indent);
      JoinedClean(PrintItem(items[0], First(ls), indent), PrintItems(items[1..], Rest(ls), indent));
    }
  }

  lemma {:induction false} ItemIsClean(v: Value, l: Layout, indent: nat)
    requires Tree(v) && ItemShape(v)
    ensures AllClean(PrintItem(v, l, indent))
    decreases v, 1
  {
    hide Clean, AllClean, Scalared, Head, PrintEntries, PrintBlock, IsKey, TextOf, ItemText, First, Rest, Written;
    if v.Map? {
      assert Trees(v.entries);
      var e, own, column := v.entries[0], First(l.parts), indent + 2 + l.shift;
      if IsScalar(e.value) {
        ScalaredIsClean(e.key, TextOf(e.value, own), e.value);
        OneClean(Token(indent, Dashed(Scalared(e.key, TextOf(e.value, own)))));
        EntriesAreClean(v.entries[1..], Rest(l.parts), column);
        JoinedClean([Token(indent, Dashed(Scalared(e.key, TextOf(e.value, own))))], PrintEntries(v.entries[1..], Rest(l.parts), column));
      } else {
        KeyIsOrdinary(e.key);
        OneClean(Token(indent, Dashed(Head(e.key))));
        BlockIsClean(e.value, own, column);
        JoinedClean([Token(indent, Dashed(Head(e.key)))], PrintBlock(e.value, own, column));
      }
    } else {
      PrefixedIsClean([DASH, SPACE], ItemText(v, l), v);
      OneClean(Token(indent, Dashed(ItemText(v, l))));
    }
  }

  // ---------------------------------------------------------------- comments and blank lines

  // What may follow a token on its line: spaces, or spaces and a comment.
  predicate Tail(s: Str) {
    OneLine(s) && TAB !in s && (Indent(s) == |s| || (Indent(s) > 0 && s[Indent(s)] == HASH))
  }

  // A line that holds no token: spaces, or a comment after any number of them.
  predicate Idle(s: Str) {
    OneLine(s) && TAB !in s && (Indent(s) == |s| || s[Indent(s)] == HASH)
  }

  datatype Row = Note(line: Str) | Shown(token: Token, tail: Str) {
    predicate Fit() {
      if Note? then Idle(line) else Tail(tail)
    }

    function Text(): Str {
      if Note? then line else Line(token, tail)
    }
  }

  predicate AllFit(rows: seq<Row>) {
    forall i :: 0 <= i < |rows| ==> rows[i].Fit()
  }

  function TextLines(rows: seq<Row>): seq<Str> {
    seq(|rows|, i requires 0 <= i < |rows| => rows[i].Text())
  }

  function ShownTokens(rows: seq<Row>, from: nat := 0): seq<Token>
    requires from <= |rows|
    decreases |rows| - from
  {
    if from == |rows| then []
    else (if rows[from].Note? then [] else [rows[from].token]) + ShownTokens(rows, from + 1)
  }

  lemma {:induction false} RStripSpaces(s: Str, k: nat)
    requires s != [] ==> !IsSpace(s[|s| - 1])
    ensures RStrip(s + Spaces(k)) == s
  {
    if k == 0 {
      assert s + Spaces(k) == s;
    } else {
      var t := s + Spaces(k);
      assert t[..|t| - 1] == s + Spaces(k - 1);
      RStripSpaces(s, k - 1);
    }
  }

  // From a place with no quote open, spaces and then the end of the line or a comment.
  lemma CommentAfterSpaces(line: Str, at: nat, k: nat)
    requires at + k <= |line| && forall x :: at <= x < at + k ==> line[x] == SPACE
    requires at + k == |line| || (line[at + k] == HASH && (at + k == 0 || k > 0))
    ensures CommentAt(line, at, UNQUOTED) == at + k
  {
    WalkOrdinary(line, at, at + k);
  }

  lemma TailStarts(t: Token, tail: Str)
    requires Clean(t.content) && Tail(tail)
    ensures var line, m := Line(t, tail), t.indent + |t.content| + Indent(tail);
            m <= |line| && CommentAt(line, 0, UNQUOTED) == m && line[..m] == Line(t) + Spaces(Indent(tail))
  {
    var line, at, k := Line(t, tail), t.indent + |t.content|, Indent(tail);
    assert t == Token(t.indent, t.content);
    assert CommentAt(line, 0, UNQUOTED) == CommentAt(line, at, UNQUOTED);
    assert forall x :: at <= x < |line| ==> line[x] == tail[x - at];
    hide Clean, CommentAt;
    CommentAfterSpaces(line, at, k);
    assert line[..at + k] == Line(t) + Spaces(k);
  }

  lemma TailIsStripped(t: Token, tail: Str)
    requires Clean(t.content) && Tail(tail)
    ensures WithoutComment(Line(t, tail)) == Line(t)
  {
    TailStarts(t, tail);
    LineEndsTight(t);
    hide CommentAt, Clean, Tail, Line, Spaces, RStrip;
    RStripSpaces(Line(t), Indent(tail));
  }

  lemma LineEndsTight(t: Token)
    requires Clean(t.content)
    ensures Line(t) != [] && !IsSpace(Line(t)[|Line(t)| - 1])
  {
    hide CommentAt;
    assert Line(t) == Spaces(t.indent) + t.content;
  }

  lemma LineText(t: Token, tail: Str)
    requires Clean(t.content) && Tail(tail)
    ensures TAB !in Line(t, tail) && OneLine(Line(t, tail))
  {
    var line, at := Line(t, tail), t.indent + |t.content|;
    assert forall i :: 0 <= i < at ==> ' ' as int <= line[i] <= '~' as int;
    assert forall i :: at <= i < |line| ==> line[i] == tail[i - at];
    hide CommentAt;
  }

  lemma LineIndents(t: Token)
    requires Clean(t.content)
    ensures !BlankStr(Line(t)) && TokenOf(Line(t)) == t
  {
    assert Line(t) == Spaces(t.indent) + t.content;
    IndentOfLine(t.indent, t.content);
    NotBlankLine(Line(t), t.indent);
    hide CommentAt, Printable;
  }

  lemma {:induction false} NotBlankLine(s: Str, i: nat)
    requires i < |s| && !IsSpace(s[i])
    ensures Strip(s) != []
  {
    if IsSpace(s[0]) {
      NotBlankLine(s[1..], i - 1);
    } else {
      NotBlankRight(s);
    }
  }

  lemma {:induction false} NotBlankRight(s: Str)
    requires s != [] && !IsSpace(s[0])
    ensures RStrip(s) != []
  {
    if IsSpace(s[|s| - 1]) {
      NotBlankRight(s[..|s| - 1]);
    }
  }

  lemma NoteIsBlank(s: Str)
    requires Idle(s)
    ensures BlankStr(WithoutComment(s))
  {
    var k := Indent(s);
    CommentAfterSpaces(s, 0, k);
    assert s[..k] == [] + Spaces(k);
    RStripSpaces([], k);
    hide CommentAt;
  }

  lemma RowLexes(row: Row)
    requires row.Fit() && (row.Shown? ==> Clean(row.token.content))
    ensures TAB !in row.Text() && OneLine(row.Text())
    ensures row.Note? ==> BlankStr(WithoutComment(row.Text()))
    ensures row.Shown? ==>
              var line := WithoutComment(row.Text());
              !BlankStr(line) && TokenOf(line) == row.token
  {
    if row.Note? {
      NoteIsBlank(row.line);
    } else {
      LineText(row.token, row.tail);
      TailIsStripped(row.token, row.tail);
      LineIndents(row.token);
    }
    hide Clean, Line, WithoutComment, BlankStr, TokenOf;
  }

  ghost predicate CleanRows(rows: seq<Row>) {
    forall i :: 0 <= i < |rows| && rows[i].Shown? ==> Clean(rows[i].token.content)
  }

  lemma {:induction false} RowsAreClean(rows: seq<Row>, from: nat)
    requires from <= |rows| && AllClean(ShownTokens(rows, from))
    ensures forall i :: from <= i < |rows| && rows[i].Shown? ==> Clean(rows[i].token.content)
    decreases |rows| - from
  {
    hide Clean;
    if from < |rows| {
      var head := if rows[from].Note? then [] else [rows[from].token];
      var all, rest := ShownTokens(rows, from), ShownTokens(rows, from + 1);
      assert all == head + rest;
      assert forall i :: 0 <= i < |rest| ==> rest[i] == all[|head| + i];
      assert rows[from].Shown? ==> all[0] == rows[from].token;
      RowsAreClean(rows, from + 1);
    }
  }

  lemma {:induction false} RowsLex(rows: seq<Row>, from: nat)
    requires CleanRows(rows) && AllFit(rows) && from <= |rows|
    ensures Tokens(TextLines(rows), from) == Ok(ShownTokens(rows, from))
    decreases |rows| - from
  {
    hide Clean, Row.Text, Row.Fit, WithoutComment, BlankStr, TokenOf;
    if from < |rows| {
      assert rows[from].Fit();
      assert TextLines(rows)[from] == rows[from].Text();
      RowLexes(rows[from]);
      RowsLex(rows, from + 1);
      assert [] + ShownTokens(rows, from + 1) == ShownTokens(rows, from + 1);
    }
  }

  // The first line with a tab, wherever it stands on it, is what a document is refused for.
  lemma {:induction false} TabIsRefused(lines: seq<Str>, from: nat, n: nat)
    requires from <= n < |lines| && TAB in lines[n] && forall i :: from <= i < n ==> TAB !in lines[i]
    ensures Tokens(lines, from) == Err(TabsUnsupported(n + 1))
    decreases n - from
  {
    hide WithoutComment, BlankStr, TokenOf;
    if from < n {
      TabIsRefused(lines, from + 1, n);
    }
  }

  // ---------------------------------------------------------------- whole documents

  lemma WholeAt(ts: seq<Token>)
    ensures At(ts, 0, ts) && Ends(ts, |ts|, 0)
  {
    assert ts[0..|ts|] == ts;
  }

  lemma EndsEither(ts: seq<Token>, i: nat, indent: nat)
    requires Ends(ts, i, indent)
    ensures EndsEntry(ts, i, indent)
  {
  }

  // Which loop reads a whole document.
  lemma Starts(ts: seq<Token>, v: Value)
    ensures ts == [] ==> Payload(ts) == Ok(Map([]))
    ensures ts != [] && !ts[0].Item() && MappingFrom(ts, 0, 0, []) == Ok((v, |ts|)) ==> Payload(ts) == Ok(v)
    ensures ts != [] && ts[0].Item() && ListFrom(ts, 0, 0, []) == Ok((v, |ts|)) ==> Payload(ts) == Ok(v)
  {
    hide MappingFrom, ListFrom, Token.Item;
  }

  lemma WholeMap(v: Value, l: Layout)
    requires Tree(v) && v.Map?
    ensures Payload(PrintBlock(v, l, 0)) == Ok(Narrow(v))
  {
    BlockKinds(v);
    hide *;
    var ts := PrintBlock(v, l, 0);
    BlockUnfold(v, l, 0);
    WholeAt(ts);
    Starts(ts, Narrow(v));
    if v.entries == [] {
      EntriesUnfold(v.entries, l.parts, 0);
    } else {
      EntriesParse(ts, 0, v.entries, l.parts, 0, []);
      EntriesBegin(v.entries, l.parts, 0);
    }
  }

  lemma WholeList(v: Value, l: Layout)
    requires Tree(v) && v.List?
    ensures Payload(PrintBlock(v, l, 0)) == Ok(Narrow(v))
  {
    BlockKinds(v);
    hide *;
    var ts := PrintBlock(v, l, 0);
    BlockUnfold(v, l, 0);
    WholeAt(ts);
    EndsEither(ts, |ts|, 0);
    Starts(ts, Narrow(v));
    ItemsParse(ts, 0, v.items, l.parts, 0, []);
    ItemsBegin(v.items, l.parts, 0);
  }

  // Whatever its layout, a tree's tokens are read to the last one, and give the tree.
  lemma PrintedTokensParse(v: Value, l: Layout)
    requires Tree(v) && Block?(v)
    ensures Payload(Print(v, l)) == Ok(Narrow(v)) && AllClean(Print(v, l))
  {
    BlockKinds(v);
    hide Tree, Narrow, Payload, PrintBlock, AllClean;
    BlockIsClean(v, l, 0);
    if v.Map? {
      WholeMap(v, l);
    } else {
      WholeList(v, l);
    }
  }

  // Loading a tree written in any layout, with comments and blank lines anywhere, consumes
  // every token and returns the tree, with each character outside the Basic Multilingual
  // Plane as two surrogates.
  lemma PrintedTreeLoads(v: Value, l: Layout, rows: seq<Row>)
    requires Tree(v) && Block?(v) && AllFit(rows) && ShownTokens(rows) == Print(v, l)
    ensures Load(JoinLines(TextLines(rows))) == Ok(Narrow(v))
  {
    PrintedTokensParse(v, l);
    RowsAreClean(rows, 0);
    hide Print, Narrow, Clean, Line, Row.Text, Row.Fit, WithoutComment, SplitLines, Payload, Tree, ShownTokens;
    forall i | 0 <= i < |rows|
      ensures OneLine(TextLines(rows)[i])
    {
      assert rows[i].Fit();
      RowLexes(rows[i]);
    }
    SplitJoined(TextLines(rows));
    RowsLex(rows, 0);
  }

  function Lines(ts: seq<Token>): seq<Str> {
    seq(|ts|, i requires 0 <= i < |ts| => Line(ts[i]))
  }

  function PrintText(v: Value, l: Layout): Str
    requires Tree(v) && Block?(v)
  {
    JoinLines(Lines(Print(v, l)))
  }

  function BareRows(ts: seq<Token>): seq<Row> {
    seq(|ts|, i requires 0 <= i < |ts| => Shown(ts[i], []))
  }

  lemma {:induction false} BareRowsShow(ts: seq<Token>, from: nat)
    requires from <= |ts|
    ensures AllFit(BareRows(ts)) && ShownTokens(BareRows(ts), from) == ts[from..] && TextLines(BareRows(ts)) == Lines(ts)
    decreases |ts| - from
  {
    if from < |ts| {
      BareRowsShow(ts, from + 1);
    }
  }

  // Without comments and blank lines.
  lemma PrintedTextLoads(v: Value, l: Layout)
    requires Tree(v) && Block?(v)
    ensures Load(PrintText(v, l)) == Ok(Narrow(v))
  {
    var ts := Print(v, l);
    BareRowsShow(ts, 0);
    hide Print, Narrow, Load, Tree, BareRows, ShownTokens, Lines, TextLines;
    assert ts[0..] == ts;
    PrintedTreeLoads(v, l, BareRows(ts));
  }

  // Every string of the tree lies in the Basic Multilingual Plane.
  predicate BmpTree(v: Value)
    decreases v
  {
    match v
    case String(s) => AllBmp(s)
    case Map(es) => forall i :: 0 <= i < |es| ==> BmpTree(es[i].value)
    case List(items) => forall i :: 0 <= i < |items| ==> BmpTree(items[i])
    case _ => true
  }

  // No map of the tree has a key twice.
  predicate DistinctTree(v: Value)
    decreases v
  {
    match v
    case Map(es) => Distinct(es) && forall i :: 0 <= i < |es| ==> DistinctTree(es[i].value)
    case List(items) => forall i :: 0 <= i < |items| ==> DistinctTree(items[i])
    case _ => true
  }

  lemma UpdatedIsIdentityExactly(es: seq<Entry>)
    ensures Updated([], es) == es <==> Distinct(es)
  {
    LastBindingWins(es);
    if Distinct(es) {
      assert [] + es == es;
      UpdatedNew([], es);
    }
  }

  lemma {:induction false} NarrowIsIdentityExactly(v: Value)
    requires Tree(v)
    ensures Narrow(v) == v <==> BmpTree(v) && DistinctTree(v)
  {
    hide IsKey, Distinct, Utf16, AllBmp, Updated;
    if v.String? {
      Utf16IsIdentityExactly(v.text);
    } else if v.Map? {
      EntriesNarrow(v);
    } else if v.List? {
      var items := v.items;
      forall i | 0 <= i < |items|
        ensures NarrowItems(items)[i] == items[i] <==> BmpTree(items[i]) && DistinctTree(items[i])
      {
        NarrowIsIdentityExactly(items[i]);
      }
      assert Narrow(v) == v <==> forall i :: 0 <= i < |items| ==> NarrowItems(items)[i] == items[i];
    } else {
      assert Narrow(v) == NarrowScalar(v) == v;
    }
  }

  lemma {:induction false} EntriesNarrow(v: Value)
    requires Tree(v) && v.Map?
    ensures Narrow(v) == v <==> BmpTree(v) && DistinctTree(v)
    decreases v, 0
  {
    hide IsKey, Utf16, AllBmp;
    var es, narrow := v.entries, NarrowEntries(v.entries);
    forall i | 0 <= i < |es|
      ensures narrow[i] == es[i] <==> BmpTree(es[i].value) && DistinctTree(es[i].value)
    {
      NarrowIsIdentityExactly(es[i].value);
    }
    UpdatedIsIdentityExactly(narrow);
    assert Distinct(narrow) <==> Distinct(es) by {
      assert forall i :: 0 <= i < |es| ==> narrow[i].key == es[i].key;
    }
    hide Updated, Distinct;
    if Updated([], narrow) == es && !Distinct(es) {
      UpdatedIsDistinct(narrow);
      assert false;
    }
    if Updated([], narrow) == es && Distinct(es) {
      assert narrow == es;
    }
    assert narrow == es <==> forall i :: 0 <= i < |es| ==> narrow[i] == es[i];
  }

  lemma UpdatedIsDistinct(es: seq<Entry>)
    ensures Distinct(Updated([], es))
  {
    LastBindingWins(es);
  }

  // Writing a tree down and loading it is the identity exactly on trees without a key given
  // twice whose strings are in the plane, whatever the layout and the comments.
  lemma RoundTripExactly(v: Value, l: Layout, rows: seq<Row>)
    requires Tree(v) && Block?(v) && AllFit(rows) && ShownTokens(rows) == Print(v, l)
    ensures Load(JoinLines(TextLines(rows))) == Ok(v) <==> BmpTree(v) && DistinctTree(v)
  {
    hide Load, Narrow, Tree, BmpTree, DistinctTree, TextLines, Print, ShownTokens, AllFit;
    PrintedTreeLoads(v, l, rows);
    NarrowIsIdentityExactly(v);
  }
}
