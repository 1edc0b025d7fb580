/**
 * GraphQLTokenParser: the `{% graphql %}...{% endgraphql %}` tag. At the
 * template's root level it reads the tag's body from Twig's token stream and
 * turns a body made of one text into a GraphQLFragmentNode holding that text.
 *
 * Twig's token stream is a class over the token list and a cursor; `subparse`
 * is Twig's body loop, reduced to what the tag relies on (see README).
 */
module TokenParser {
  import opened Wrappers

  /** The tag's name and the name that ends its body. */
  const Tag: string := "graphql"
  const EndTag: string := "endgraphql"

  const ScopeMessage: string := "GraphQL queries cannot be defined in blocks."
  const TagNameMessage: string := "A block must start with a tag name."
  const StateMessage: string := "Lexer or parser ended up in unsupported state."

  /** Twig token types; `OtherToken` stands for numbers, strings, operators and punctuation. */
  datatype Kind = EofToken | TextToken | BlockStart | VarStart | BlockEnd | VarEnd | NameToken | OtherToken

  datatype Token = Token(kind: Kind, value: string, line: nat)

  datatype Reason = Message(text: string) | UnexpectedToken(expected: Kind, found: Kind)

  /** A Twig syntax error and the line it is reported at. */
  datatype ParseError = SyntaxError(reason: Reason, line: nat)

  /** The nodes `subparse` collects: texts, printed expressions and other tags. */
  datatype TwigNode = Text(data: string, line: nat) | Print(line: nat) | TagNode(name: string, line: nat)

  /** GraphQLFragmentNode: it only stores its fragment. */
  datatype FragmentNode = FragmentNode(fragment: string)

  /** `decideBlockEnd`: the body ends at the name token `endgraphql`. */
  predicate DecideBlockEnd(t: Token) {
    t.kind == NameToken && t.value == EndTag
  }

  /** A lexed template always ends with exactly one end-of-file token. */
  predicate ValidTokens(ts: seq<Token>) {
    |ts| > 0 && ts[|ts| - 1].kind == EofToken
  }

  /** The first index at or after `i` holding a token of `kind`, or the end-of-file token. */
  function SkipTo(ts: seq<Token>, i: nat, kind: Kind): (j: nat)
    requires ValidTokens(ts) && i < |ts|
    ensures i <= j < |ts| && (ts[j].kind == kind || ts[j].kind == EofToken)
    decreases |ts| - i
  {
    if ts[i].kind == kind || ts[i].kind == EofToken then i else SkipTo(ts, i + 1, kind)
  }

  /** One turn of `subparse`'s loop: go on from a later index with more nodes, or finish. */
  datatype Turn = Continue(next: nat, nodes: seq<TwigNode>) | Stop(result: Result<(seq<TwigNode>, nat), ParseError>)

  /**
   * One turn of Twig's `subparse` loop with `decideBlockEnd` as the test and
   * `dropNeedle` set, at index `pos` with the nodes `acc` collected so far. It
   * finishes at the end-of-file token (keeping the index of that token) and
   * right after the name `endgraphql`.
   */
  function SubparseStep(ts: seq<Token>, pos: nat, acc: seq<TwigNode>): (r: Turn)
    requires ValidTokens(ts) && pos < |ts|
    ensures r.Continue? ==> pos < r.next < |ts|
    ensures r.Continue? ==> |r.nodes| == |acc| + 1 && r.nodes[..|acc|] == acc
    ensures r.Continue? && r.nodes[|acc|].Text? ==>
      ts[pos].kind == TextToken && r.nodes[|acc|].data == ts[pos].value && r.next == pos + 1
    ensures r.Stop? && r.result.Ok? ==> pos <= r.result.value.1 < |ts| && r.result.value.0 == acc
    ensures r.Stop? && r.result.Ok? ==>
      (r.result.value.1 == pos && ts[pos].kind == EofToken) ||
      (r.result.value.1 == pos + 2 && ts[pos].kind == BlockStart && DecideBlockEnd(ts[pos + 1]))
  {
    var t := ts[pos];
    match t.kind
    case EofToken => Stop(Ok((acc, pos)))
    case TextToken => Continue(pos + 1, acc + [Text(t.value, t.line)])
    case VarStart =>
      var e := SkipTo(ts, pos + 1, VarEnd);
      if ts[e].kind == VarEnd then Continue(e + 1, acc + [Print(t.line)])
      else Stop(Err(SyntaxError(UnexpectedToken(VarEnd, ts[e].kind), ts[e].line)))
    case BlockStart =>
      var name := ts[pos + 1];
      if name.kind != NameToken then Stop(Err(SyntaxError(Message(TagNameMessage), name.line)))
      else if DecideBlockEnd(name) then Stop(Ok((acc, pos + 2)))
      else
        var e := SkipTo(ts, pos + 2, BlockEnd);
        if ts[e].kind == BlockEnd then Continue(e + 1, acc + [TagNode(name.value, name.line)])
        else Stop(Err(SyntaxError(UnexpectedToken(BlockEnd, ts[e].kind), ts[e].line)))
    case _ => Stop(Err(SyntaxError(Message(StateMessage), t.line)))
  }

  /** `subparse` from index `pos`: the body's nodes and the index it stops at, or the first error. */
  function SubparseFrom(ts: seq<Token>, pos: nat, acc: seq<TwigNode>): (r: Result<(seq<TwigNode>, nat), ParseError>)
    requires ValidTokens(ts) && pos < |ts|
    ensures r.Ok? ==> pos <= r.value.1 < |ts|
    decreases |ts| - pos
  {
    match SubparseStep(ts, pos, acc)
    case Continue(p, nodes) => SubparseFrom(ts, p, nodes)
    case Stop(result) => result
  }

  /** `$values instanceof Twig_Node_Text`: the body is one text node. */
  function FragmentOf(nodes: seq<TwigNode>): (r: Option<string>)
    ensures r.Some? <==> |nodes| == 1 && nodes[0].Text?
    ensures r.Some? ==> r.value == nodes[0].data
  {
    if |nodes| == 1 && nodes[0].Text? then Some(nodes[0].data) else None
  }

  /**
   * `parse`, from the token after the tag name at index `pos`: the scope
   * check, the block end after the tag, the body, the block end after
   * `endgraphql`, then the fragment (or none) and the index after the tag.
   */
  function ParseTag(ts: seq<Token>, pos: nat, mainScope: bool, line: nat): (r: Result<(Option<string>, nat), ParseError>)
    requires ValidTokens(ts) && pos < |ts|
    ensures r.Ok? ==> mainScope && ts[pos].kind == BlockEnd
    ensures r.Ok? ==> pos + 1 < r.value.1 <= |ts| && ts[r.value.1 - 1].kind == BlockEnd
  {
    if !mainScope then Err(SyntaxError(Message(ScopeMessage), line))
    else if ts[pos].kind != BlockEnd then Err(SyntaxError(UnexpectedToken(BlockEnd, ts[pos].kind), ts[pos].line))
    else match SubparseFrom(ts, pos + 1, [])
      case Err(e) => Err(e)
      case Ok(body) =>
        var p := body.1;
        if ts[p].kind != BlockEnd then Err(SyntaxError(UnexpectedToken(BlockEnd, ts[p].kind), ts[p].line))
        else Ok((FragmentOf(body.0), p + 1))
  }

  // ---------------------------------------------------------------------------
  // The token stream and the parser
  // ---------------------------------------------------------------------------

  /** Twig_TokenStream: the tokens of a template and the index of the current one. */
  class TokenStream {
    var tokens: seq<Token>
    var current: nat

    predicate Valid()
      reads this
    {
      ValidTokens(tokens) && current < |tokens|
    }

    constructor(ts: seq<Token>)
      requires ValidTokens(ts)
      ensures Valid() && tokens == ts && current == 0
    {
      tokens := ts;
      current := 0;
    }

    function Current(): Token
      reads this
      requires Valid()
    {
      tokens[current]
    }

    /** `next`: moves past the current token, which is not the end of the file. */
    method Next()
      requires Valid() && Current().kind != EofToken
      modifies this
      ensures Valid() && tokens == old(tokens) && current == old(current) + 1
    {
      current := current + 1;
    }

    /** `expect`: the current token must have the given kind; it is consumed. */
    method Expect(kind: Kind) returns (r: Result<Token, ParseError>)
      requires Valid() && kind != EofToken
      modifies this
      ensures Valid() && tokens == old(tokens)
      ensures old(Current()).kind == kind ==> r == Ok(old(Current())) && current == old(current) + 1
      ensures old(Current()).kind != kind ==>
        r == Err(SyntaxError(UnexpectedToken(kind, old(Current()).kind), old(Current()).line)) && current == old(current)
    {
      var t := Current();
      if t.kind == kind {
        Next();
        r := Ok(t);
      } else {
        r := Err(SyntaxError(UnexpectedToken(kind, t.kind), t.line));
      }
    }

    /** Moves forward to the first token of `kind` or the end of the file. */
    method SkipUntil(kind: Kind)
      requires Valid()
      modifies this
      ensures Valid() && tokens == old(tokens) && current == SkipTo(tokens, old(current), kind)
    {
      while Current().kind != kind && Current().kind != EofToken
        invariant Valid() && tokens == old(tokens) && old(current) <= current
        invariant SkipTo(tokens, current, kind) == SkipTo(tokens, old(current), kind)
        decreases |tokens| - current
      {
        Next();
      }
    }
  }

  /** One turn of the `subparse` loop on the stream. */
  method Step(s: TokenStream, nodes: seq<TwigNode>) returns (r: Turn)
    requires s.Valid()
    modifies s
    ensures s.Valid() && s.tokens == old(s.tokens)
    ensures r == SubparseStep(old(s.tokens), old(s.current), nodes)
    ensures r.Continue? ==> s.current == r.next
    ensures r.Stop? && r.result.Ok? ==> s.current == r.result.value.1
  {
    var t := s.Current();
    match t.kind
    case EofToken =>
      return Stop(Ok((nodes, s.current)));
    case TextToken =>
      s.Next();
      return Continue(s.current, nodes + [Text(t.value, t.line)]);
    case VarStart =>
      s.Next();
      s.SkipUntil(VarEnd);
      var end := s.Expect(VarEnd);
      if end.Err? {
        return Stop(Err(end.error));
      }
      return Continue(s.current, nodes + [Print(t.line)]);
    case BlockStart =>
      s.Next();
      var name := s.Current();
      if name.kind != NameToken {
        return Stop(Err(SyntaxError(Message(TagNameMessage), name.line)));
      }
      if DecideBlockEnd(name) {
        s.Next();
        return Stop(Ok((nodes, s.current)));
      }
      s.Next();
      s.SkipUntil(BlockEnd);
      var end := s.Expect(BlockEnd);
      if end.Err? {
        return Stop(Err(end.error));
      }
      return Continue(s.current, nodes + [TagNode(name.value, name.line)]);
    case _ =>
      return Stop(Err(SyntaxError(Message(StateMessage), t.line)));
  }

  /** Twig's `subparse` loop for the tag's body. */
  method Subparse(s: TokenStream) returns (r: Result<seq<TwigNode>, ParseError>)
    requires s.Valid()
    modifies s
    ensures s.Valid() && s.tokens == old(s.tokens)
    ensures var spec := SubparseFrom(old(s.tokens), old(s.current), []);
      (spec.Ok? ==> r == Ok(spec.value.0) && s.current == spec.value.1) &&
      (spec.Err? ==> r == Err(spec.error))
  {
    var nodes: seq<TwigNode> := [];
    while true
      invariant s.Valid() && s.tokens == old(s.tokens)
      invariant SubparseFrom(s.tokens, s.current, nodes) == SubparseFrom(s.tokens, old(s.current), [])
      decreases |s.tokens| - s.current
    {
      var st := Step(s, nodes);
      match st
      case Stop(result) =>
        if result.Err? {
          return Err(result.error);
        }
        return Ok(result.value.0);
      case Continue(_, more) =>
        nodes := more;
    }
  }

  /** `parse`, called with the stream just after the tag name `graphql` read at `line`. */
  method Parse(s: TokenStream, mainScope: bool, line: nat) returns (r: Result<Option<FragmentNode>, ParseError>)
    requires s.Valid()
    modifies s
    ensures s.Valid() && s.tokens == old(s.tokens)
    ensures var spec := ParseTag(old(s.tokens), old(s.current), mainScope, line);
      (spec.Ok? ==> (s.current == spec.value.1 &&
        r == Ok(match spec.value.0 case Some(f) => Some(FragmentNode(f)) case None => None))) &&
      (spec.Err? ==> r == Err(spec.error))
  {
    if !mainScope {
      return Err(SyntaxError(Message(ScopeMessage), line));
    }
    var open := s.Expect(BlockEnd);
    if open.Err? {
      return Err(open.error);
    }
    var values := Subparse(s);
    if values.Err? {
      return Err(values.error);
    }
    var close := s.Expect(BlockEnd);
    if close.Err? {
      return Err(close.error);
    }
    match FragmentOf(values.value)
    case Some(f) =>
      return Ok(Some(FragmentNode(f)));
    case None =>
      return Ok(None);
  }

  // ---------------------------------------------------------------------------
  // Properties
  // ---------------------------------------------------------------------------

  /** Outside the template's root level the tag is refused at its own line, whatever follows. */
  lemma OutsideMainScope(ts: seq<Token>, pos: nat, line: nat)
    requires ValidTokens(ts) && pos < |ts|
    ensures ParseTag(ts, pos, false, line) == Err(SyntaxError(Message(ScopeMessage), line))
  {
  }

  /** A block end must follow the tag name. */
  lemma BlockEndAfterTag(ts: seq<Token>, pos: nat, line: nat)
    requires ValidTokens(ts) && pos < |ts| && ts[pos].kind != BlockEnd
    ensures ParseTag(ts, pos, true, line) == Err(SyntaxError(UnexpectedToken(BlockEnd, ts[pos].kind), ts[pos].line))
  {
  }

  /**
   * `subparse` either reaches the end of the file or stops right after a block
   * start and the name `endgraphql`; the nodes already collected are kept.
   */
  lemma {:induction false} SubparseStops(ts: seq<Token>, pos: nat, acc: seq<TwigNode>)
    requires ValidTokens(ts) && pos < |ts|
    requires SubparseFrom(ts, pos, acc).Ok?
    ensures var p := SubparseFrom(ts, pos, acc).value.1;
      pos <= p < |ts| &&
      (ts[p].kind == EofToken || (pos + 2 <= p && ts[p - 2].kind == BlockStart && DecideBlockEnd(ts[p - 1])))
    ensures var nodes := SubparseFrom(ts, pos, acc).value.0; |acc| <= |nodes| && nodes[..|acc|] == acc
    decreases |ts| - pos
  {
    match SubparseStep(ts, pos, acc)
    case Continue(p, nodes) =>
      SubparseStops(ts, p, nodes);
      var r := SubparseFrom(ts, p, nodes).value.0;
      assert r[..|acc|] == nodes[..|acc|];
    case Stop(_) =>
  }

  /**
   * A tag that parses spans a block end, the body, a block start, the name
   * `endgraphql` and a final block end: a body that never reaches
   * `endgraphql` is an error.
   */
  lemma ParsedTagShape(ts: seq<Token>, pos: nat, mainScope: bool, line: nat)
    requires ValidTokens(ts) && pos < |ts|
    requires ParseTag(ts, pos, mainScope, line).Ok?
    ensures var p := ParseTag(ts, pos, mainScope, line).value.1;
      mainScope && pos + 4 <= p <= |ts| && ts[pos].kind == BlockEnd &&
      ts[p - 3].kind == BlockStart && DecideBlockEnd(ts[p - 2]) && ts[p - 1].kind == BlockEnd
  {
    SubparseStops(ts, pos + 1, []);
  }

  /** A body that is one text gives a fragment holding that text exactly, untrimmed. */
  lemma SingleTextBody(ts: seq<Token>, pos: nat, line: nat, data: string)
    requires ValidTokens(ts) && pos + 5 <= |ts|
    requires ts[pos].kind == BlockEnd && ts[pos + 1].kind == TextToken && ts[pos + 1].value == data
    requires ts[pos + 2].kind == BlockStart && DecideBlockEnd(ts[pos + 3]) && ts[pos + 4].kind == BlockEnd
    ensures ParseTag(ts, pos, true, line) == Ok((Some(data), pos + 5))
  {
    var body := [Text(data, ts[pos + 1].line)];
    assert SubparseStep(ts, pos + 1, []) == Continue(pos + 2, body);
    assert SubparseStep(ts, pos + 2, body) == Stop(Ok((body, pos + 4)));
    assert SubparseFrom(ts, pos + 1, []) == SubparseFrom(ts, pos + 2, body);
  }

  /** An empty body gives no fragment. */
  lemma EmptyBody(ts: seq<Token>, pos: nat, line: nat)
    requires ValidTokens(ts) && pos + 4 <= |ts|
    requires ts[pos].kind == BlockEnd && ts[pos + 1].kind == BlockStart && DecideBlockEnd(ts[pos + 2])
    requires ts[pos + 3].kind == BlockEnd
    ensures ParseTag(ts, pos, true, line) == Ok((None, pos + 4))
  {
    assert SubparseStep(ts, pos + 1, []) == Stop(Ok(([], pos + 3)));
  }

  /** Text followed by a printed expression is not one text node: no fragment. */
  lemma TextAndPrintBody(ts: seq<Token>, pos: nat, line: nat)
    requires ValidTokens(ts) && pos + 8 <= |ts|
    requires ts[pos].kind == BlockEnd && ts[pos + 1].kind == TextToken
    requires ts[pos + 2].kind == VarStart && ts[pos + 3].kind == NameToken && ts[pos + 4].kind == VarEnd
    requires ts[pos + 5].kind == BlockStart && DecideBlockEnd(ts[pos + 6]) && ts[pos + 7].kind == BlockEnd
    ensures ParseTag(ts, pos, true, line) == Ok((None, pos + 8))
  {
    var t := ts[pos + 1];
    var one := [Text(t.value, t.line)];
    var two := one + [Print(ts[pos + 2].line)];
    assert SkipTo(ts, pos + 3, VarEnd) == pos + 4;
    assert SubparseStep(ts, pos + 1, []) == Continue(pos + 2, one);
    assert SubparseStep(ts, pos + 2, one) == Continue(pos + 5, two);
    assert SubparseStep(ts, pos + 5, two) == Stop(Ok((two, pos + 7)));
    assert SubparseFrom(ts, pos + 2, one) == SubparseFrom(ts, pos + 5, two);
    assert SubparseFrom(ts, pos + 1, []) == SubparseFrom(ts, pos + 2, one);
  }

  /**
   * Every text node of the body is the value of one of the body's text tokens,
   * so a fragment is always text that stood between the tags.
   */
  lemma {:induction false} SubparseTextsFromTokens(ts: seq<Token>, pos: nat, acc: seq<TwigNode>)
    requires ValidTokens(ts) && pos < |ts|
    requires SubparseFrom(ts, pos, acc).Ok?
    ensures var r := SubparseFrom(ts, pos, acc).value;
      forall j :: |acc| <= j < |r.0| && r.0[j].Text? ==>
        exists i :: pos <= i < r.1 && ts[i].kind == TextToken && ts[i].value == r.0[j].data
    decreases |ts| - pos
  {
    match SubparseStep(ts, pos, acc)
    case Continue(p, nodes) =>
      SubparseTextsFromTokens(ts, p, nodes);
      SubparseStops(ts, p, nodes);
      var r := SubparseFrom(ts, p, nodes).value;
      assert r.0[|acc|] == nodes[|acc|] by {
        assert r.0[..|nodes|] == nodes;
      }
    case Stop(_) =>
  }

  /** A fragment is the verbatim value of a text token lying inside the tag. */
  lemma FragmentIsBodyText(ts: seq<Token>, pos: nat, mainScope: bool, line: nat)
    requires ValidTokens(ts) && pos < |ts|
    requires ParseTag(ts, pos, mainScope, line).Ok? && ParseTag(ts, pos, mainScope, line).value.0.Some?
    ensures var r := ParseTag(ts, pos, mainScope, line).value;
      exists i :: pos < i < r.1 && ts[i].kind == TextToken && ts[i].value == r.0.value
  {
    SubparseTextsFromTokens(ts, pos + 1, []);
  }
}
