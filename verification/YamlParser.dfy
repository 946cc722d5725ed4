// The loader as it runs: mutually recursive parsers that advance one shared cursor.
module YamlParser {
  import opened PythonText
  import opened Wrappers
  import opened Yaml

  class Parser {
    const tokens: seq<Token>
    var index: nat

    constructor (lexed: seq<Token>)
      ensures tokens == lexed && index == 0
    {
      tokens := lexed;
      index := 0;
    }

    // The cursor is where the functional descent leaves it; after an error it is anywhere.
    predicate Does(r: Result<Value, Error>, expected: Parsed)
      reads this
    {
      match expected
      case Err(e) => r == Err(e)
      case Ok((v, j)) => r == Ok(v) && index == j
    }

    method ParseChildBlock(parentIndent: nat) returns (r: Result<Value, Error>)
      requires index <= |tokens|
      modifies this
      ensures Does(r, ChildBlock(tokens, old(index), parentIndent))
      decreases |tokens| - index, 2
    {
      if index >= |tokens| {
        return Ok(Map([]));
      }
      var next := tokens[index];
      if next.indent < parentIndent {
        return Ok(Map([]));
      }
      if next.Item() {
        r := ParseList(next.indent);
        return;
      }
      if next.indent == parentIndent {
        return Ok(Map([]));
      }
      r := ParseBlock(next.indent);
    }

    method ParseBlock(expectedIndent: nat) returns (r: Result<Value, Error>)
      requires index <= |tokens|
      modifies this
      ensures Does(r, Block(tokens, old(index), expectedIndent))
      decreases |tokens| - index, 1
    {
      if index >= |tokens| {
        return Ok(Map([]));
      }
      var next := tokens[index];
      if next.indent < expectedIndent {
        return Ok(Map([]));
      }
      if next.Item() {
        r := ParseList(expectedIndent);
        return;
      }
      r := ParseMapping(expectedIndent);
    }

    method ParseMapping(expectedIndent: nat) returns (r: Result<Value, Error>)
      requires index <= |tokens|
      modifies this
      ensures Does(r, MappingFrom(tokens, old(index), expectedIndent, []))
      decreases |tokens| - index, 0
    {
      var result: seq<Entry> := [];
      while index < |tokens|
        invariant old(index) <= index <= |tokens|
        invariant MappingFrom(tokens, index, expectedIndent, result) == MappingFrom(tokens, old(index), expectedIndent, [])
        decreases |tokens| - index
      {
        var token := tokens[index];
        if token.indent < expectedIndent {
          break;
        }
        if token.indent > expectedIndent {
          return Err(UnexpectedIndent(token.content));
        }
        if token.Item() {
          break;
        }
        var parsed := InlineEntry(token.content);
        if parsed.None? {
          return Err(InvalidEntry(token.content));
        }
        index := index + 1;
        if parsed.value.value.Some? {
          result := Assigned(result, parsed.value.key, parsed.value.value.value);
          continue;
        }
        var child := ParseChildBlock(expectedIndent);
        if child.Err? {
          return Err(child.error);
        }
        result := Assigned(result, parsed.value.key, child.value);
      }
      return Ok(Map(result));
    }

    method ParseList(expectedIndent: nat) returns (r: Result<Value, Error>)
      requires index <= |tokens|
      modifies this
      ensures Does(r, ListFrom(tokens, old(index), expectedIndent, []))
      decreases |tokens| - index, 0
    {
      var items: seq<Value> := [];
      while index < |tokens|
        invariant old(index) <= index <= |tokens|
        invariant ListFrom(tokens, index, expectedIndent, items) == ListFrom(tokens, old(index), expectedIndent, [])
        decreases |tokens| - index
      {
        var token := tokens[index];
        if token.indent < expectedIndent {
          break;
        }
        if token.indent > expectedIndent {
          return Err(UnexpectedIndent(token.content));
        }
        if !token.Item() {
          break;
        }
        var rest := Strip(token.content[2..]);
        index := index + 1;
        if rest == [] {
          var block := ParseBlock(expectedIndent + 2);
          if block.Err? {
            return Err(block.error);
          }
          items := items + [block.value];
          continue;
        }
        var parsed := InlineEntry(rest);
        if parsed.None? {
          items := items + [Scalar(rest)];
          continue;
        }
        var item: seq<Entry> := [];
        if parsed.value.value.Some? {
          item := Assigned(item, parsed.value.key, parsed.value.value.value);
          if index < |tokens| && tokens[index].indent >= expectedIndent + 2 {
            var extra := ParseBlock(tokens[index].indent);
            if extra.Err? {
              return Err(extra.error);
            }
            if extra.value.Map? {
              item := Updated(item, extra.value.entries);
            }
          }
        } else {
          if index < |tokens| && tokens[index].indent >= expectedIndent + 2 {
            var nested := ParseBlock(tokens[index].indent);
            if nested.Err? {
              return Err(nested.error);
            }
            item := Assigned(item, parsed.value.key, nested.value);
          } else {
            item := Assigned(item, parsed.value.key, Map([]));
          }
        }
        items := items + [Map(item)];
      }
      return Ok(List(items));
    }
  }

  method FallbackLoadYaml(text: Str) returns (r: Result<Value, Error>)
    ensures r == Load(text)
  {
    var lexed := Lex(text);
    if lexed.Err? {
      return Err(lexed.error);
    }
    var parser := new Parser(lexed.value);
    var payload := parser.ParseBlock(0);
    if payload.Err? {
      return payload;
    }
    if parser.index != |parser.tokens| {
      return Err(TrailingContent);
    }
    return payload;
  }
}
