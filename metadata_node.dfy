/**
 * GraphQLNode: the Twig node that carries a template's GraphQL metadata (its
 * trimmed query, parent, includes, whether it holds operations and the
 * variables those operations accept) and compiles it into static methods of
 * the generated template class.
 *
 * The GraphQL parser is a parameter: it maps a query to the list of its
 * top-level definitions or to a syntax error message. The Twig compiler's
 * output is a list of chunks: raw code, string literals and boolean literals.
 */
module MetadataNode {
  import opened Wrappers
  import opened Php

  /** A top-level definition of a GraphQL document: an operation with its variable names, or a fragment. */
  datatype Definition = Operation(variables: seq<string>) | FragmentDefinition

  /** The parser: a document's definitions, or the message of its syntax error. */
  type Parser = string -> Result<seq<Definition>, string>

  /** The variable lists of the operation definitions, in document order (the `array_filter`). */
  function Operations(defs: seq<Definition>): (r: seq<seq<string>>)
    ensures |r| <= |defs|
    ensures forall i :: 0 <= i < |defs| && defs[i].Operation? ==> defs[i].variables in r
    ensures r == [] <==> forall i :: 0 <= i < |defs| ==> !defs[i].Operation?
  {
    if defs == [] then []
    else
      var rest := Operations(defs[1..]);
      assert forall i :: 1 <= i < |defs| ==> defs[i] == defs[1..][i - 1];
      if defs[0].Operation? then [defs[0].variables] + rest else rest
  }

  /** `(bool) $operations`: the document holds at least one operation. */
  predicate HasOperations(defs: seq<Definition>)
    ensures HasOperations(defs) <==> exists i :: 0 <= i < |defs| && defs[i].Operation?
  {
    Operations(defs) != []
  }

  /** `array_reduce` with `array_merge`: the lists concatenated left to right, onto `carry`. */
  function Merge(lists: seq<seq<string>>, carry: seq<string>): (r: seq<string>)
    ensures |r| >= |carry| && r[..|carry|] == carry
    ensures forall i, x :: 0 <= i < |lists| && x in lists[i] ==> x in r
    decreases |lists|
  {
    if lists == [] then carry
    else
      var r := Merge(lists[1..], carry + lists[0]);
      assert forall x :: x in lists[0] ==> x in r by {
        forall x | x in lists[0] ensures x in r {
          var k :| 0 <= k < |lists[0]| && lists[0][k] == x;
          assert r[|carry| + k] == (carry + lists[0])[|carry| + k];
        }
      }
      assert forall i :: 1 <= i < |lists| ==> lists[i] == lists[1..][i - 1];
      r
  }

  /** The variable names of all operations, in document order, then declaration order. */
  function Arguments(defs: seq<Definition>): (r: seq<string>)
    ensures forall i, x :: 0 <= i < |defs| && defs[i].Operation? && x in defs[i].variables ==> x in r
    ensures !HasOperations(defs) ==> r == []
  {
    Merge(Operations(defs), [])
  }

  lemma {:induction false} MergeCarry(lists: seq<seq<string>>, carry: seq<string>)
    ensures Merge(lists, carry) == carry + Merge(lists, [])
    decreases |lists|
  {
    if lists != [] {
      MergeCarry(lists[1..], carry + lists[0]);
      MergeCarry(lists[1..], [] + lists[0]);
      assert [] + lists[0] == lists[0];
    }
  }

  lemma {:induction false} OperationsAppend(a: seq<Definition>, b: seq<Definition>)
    ensures Operations(a + b) == Operations(a) + Operations(b)
    decreases |a|
  {
    if a == [] {
      assert a + b == b;
    } else {
      assert (a + b)[1..] == a[1..] + b;
      OperationsAppend(a[1..], b);
    }
  }

  lemma {:induction false} MergeAppend(x: seq<seq<string>>, y: seq<seq<string>>)
    ensures Merge(x + y, []) == Merge(x, []) + Merge(y, [])
    decreases |x|
  {
    if x == [] {
      assert x + y == y;
    } else {
      assert (x + y)[1..] == x[1..] + y;
      MergeAppend(x[1..], y);
      MergeCarry(x[1..] + y, [] + x[0]);
      MergeCarry(x[1..], [] + x[0]);
    }
  }

  /**
   * Arguments of a document are those of its first part followed by those of
   * the rest: order is kept and nothing is dropped or merged, repeats included.
   */
  lemma ArgumentsAppend(a: seq<Definition>, b: seq<Definition>)
    ensures Arguments(a + b) == Arguments(a) + Arguments(b)
  {
    OperationsAppend(a, b);
    MergeAppend(Operations(a), Operations(b));
  }

  /** One operation contributes exactly its own variables; a fragment contributes none. */
  lemma ArgumentsOfOne(d: Definition)
    ensures Arguments([d]) == if d.Operation? then d.variables else []
  {
    assert [d][1..] == [];
    if d.Operation? {
      assert Operations([d]) == [d.variables];
      assert Merge([d.variables], []) == Merge([], [] + d.variables);
      assert [] + d.variables == d.variables;
    }
  }

  /** A document of fragments only has no operations and no arguments. */
  lemma FragmentsOnly(defs: seq<Definition>)
    requires forall i :: 0 <= i < |defs| ==> defs[i] == FragmentDefinition
    ensures !HasOperations(defs) && Arguments(defs) == []
  {
  }

  /** The node's metadata after construction. */
  datatype Node = Node(query: string, parent: string, includes: seq<string>, hasOperations: bool, arguments: seq<string>)

  /**
   * The constructor: the query is trimmed; parent and includes are stored as
   * given; a truthy query is parsed and its operations determine
   * `hasOperations` and the arguments, a syntax error propagating as `Err`.
   */
  function NewNode(query: string, parent: string, includes: seq<string>, parse: Parser): (r: Result<Node, string>)
    ensures r.Ok? ==> r.value.query == Trim(query) && r.value.parent == parent && r.value.includes == includes
    ensures r.Err? <==> Truthy(Trim(query)) && parse(Trim(query)).Err?
    ensures r.Err? ==> r.error == parse(Trim(query)).error
    ensures r.Ok? && !Truthy(Trim(query)) ==> !r.value.hasOperations && r.value.arguments == []
    ensures r.Ok? && Truthy(Trim(query)) ==> var defs := parse(Trim(query)).value;
      r.value.hasOperations == HasOperations(defs) && r.value.arguments == Arguments(defs)
  {
    var q := Trim(query);
    if !Truthy(q) then Ok(Node(q, parent, includes, false, []))
    else match parse(q)
      case Err(e) => Err(e)
      case Ok(defs) => Ok(Node(q, parent, includes, HasOperations(defs), Arguments(defs)))
  }

  /** A falsy trimmed query (empty or "0") is never handed to the parser. */
  lemma FalsyQueryNotParsed(query: string, parent: string, includes: seq<string>, p1: Parser, p2: Parser)
    requires !Truthy(Trim(query))
    ensures NewNode(query, parent, includes, p1) == NewNode(query, parent, includes, p2)
    ensures NewNode(query, parent, includes, p1).Ok?
  {
  }

  /** The parser only ever sees the trimmed query. */
  lemma ParserSeesTrimmedQuery(query: string, parent: string, includes: seq<string>, p1: Parser, p2: Parser)
    requires p1(Trim(query)) == p2(Trim(query))
    ensures NewNode(query, parent, includes, p1) == NewNode(query, parent, includes, p2)
  {
  }

  /** Surrounding whitespace does not change the node. */
  lemma WhitespaceInsensitive(query: string, parent: string, includes: seq<string>, parse: Parser)
    ensures NewNode(Trim(query), parent, includes, parse) == NewNode(query, parent, includes, parse)
  {
    TrimIdempotent(query);
  }

  // ---------------------------------------------------------------------------
  // compile
  // ---------------------------------------------------------------------------

  /** A piece of compiler output: raw code, a quoted string literal or a boolean literal. */
  datatype Chunk = Raw(code: string) | Literal(value: string) | BoolLiteral(b: bool)

  const UseTrait: string := "\nuse \\Drupal\\graphql_twig\\GraphQLTemplateTrait;\n"
  const OperationsHead: string := "\npublic static function hasGraphQLOperations() { return "
  const QueryHead: string := "\npublic static function rawGraphQLQuery() { return "
  const ParentHead: string := "\npublic static function rawGraphQLParent() { return "
  const IncludesHead: string := "\npublic static function rawGraphQLIncludes() { return ["
  const ArgumentsHead: string := "\npublic static function rawGraphQLArguments() { return ["
  const MethodTail: string := "; }\n"
  const ListTail: string := "]; }\n"
  const Separator: string := ","

  /** The Twig compiler: the code written so far. */
  class Compiler {
    var output: seq<Chunk>

    constructor()
      ensures output == []
    {
      output := [];
    }

    /** `write`: raw code. */
    method Write(code: string)
      modifies this
      ensures output == old(output) + [Raw(code)]
    {
      output := output + [Raw(code)];
    }

    /** `string`: a quoted string literal. */
    method String(value: string)
      modifies this
      ensures output == old(output) + [Literal(value)]
    {
      output := output + [Literal(value)];
    }

    /** `repr` of a boolean. */
    method Repr(b: bool)
      modifies this
      ensures output == old(output) + [BoolLiteral(b)]
    {
      output := output + [BoolLiteral(b)];
    }
  }

  /** The items of a list literal: each value followed by a comma. */
  function ListItems(values: seq<string>): seq<Chunk>
  {
    if values == [] then [] else [Literal(values[0]), Raw(Separator)] + ListItems(values[1..])
  }

  /** The trait, the three scalar methods and the opening of the includes list. */
  function Header(n: Node): seq<Chunk>
  {
    [Raw(UseTrait), Raw(OperationsHead), BoolLiteral(n.hasOperations), Raw(MethodTail),
     Raw(QueryHead), Literal(n.query), Raw(MethodTail),
     Raw(ParentHead), Literal(n.parent), Raw(MethodTail),
     Raw(IncludesHead)]
  }

  /** A list literal's items and its closing `]; }`, followed by `rest`. */
  function ListLiteral(values: seq<string>, rest: seq<Chunk>): seq<Chunk>
  {
    ListItems(values) + ([Raw(ListTail)] + rest)
  }

  /** Everything `compile` writes for a node. */
  function Emitted(n: Node): seq<Chunk>
  {
    Header(n) + ListLiteral(n.includes, [Raw(ArgumentsHead)] + ListLiteral(n.arguments, []))
  }

  lemma ListItemsSnoc(values: seq<string>, i: nat)
    requires i < |values|
    ensures ListItems(values[..i + 1]) == ListItems(values[..i]) + [Literal(values[i]), Raw(Separator)]
  {
    ListItemsAppend(values[..i], [values[i]]);
    assert values[..i] + [values[i]] == values[..i + 1];
  }

  lemma {:induction false} ListItemsAppend(a: seq<string>, b: seq<string>)
    ensures ListItems(a + b) == ListItems(a) + ListItems(b)
    decreases |a|
  {
    if a == [] {
      assert a + b == b;
    } else {
      assert (a + b)[1..] == a[1..] + b;
      ListItemsAppend(a[1..], b);
    }
  }

  /** Writes the items of a list literal, one value at a time. */
  method WriteItems(c: Compiler, values: seq<string>)
    modifies c
    ensures c.output == old(c.output) + ListItems(values)
  {
    for i := 0 to |values|
      invariant c.output == old(c.output) + ListItems(values[..i])
    {
      ListItemsSnoc(values, i);
      c.String(values[i]);
      c.Write(Separator);
    }
    assert values[..|values|] == values;
  }

  /** `compile`: the trait, three metadata methods and two list-returning methods. */
  method Compile(n: Node, c: Compiler)
    modifies c
    ensures c.output == old(c.output) + Emitted(n)
  {
    WriteHeader(n, c);
    ghost var o := c.output;
    WriteItems(c, n.includes);
    c.Write(ListTail);
    c.Write(ArgumentsHead);
    ghost var o2 := c.output;
    WriteItems(c, n.arguments);
    c.Write(ListTail);
    ghost var args := ListLiteral(n.arguments, []);
    assert c.output == o2 + args;
    assert o2 == o + ListItems(n.includes) + [Raw(ListTail), Raw(ArgumentsHead)];
    assert c.output == o + ListLiteral(n.includes, [Raw(ArgumentsHead)] + args);
  }

  method WriteHeader(n: Node, c: Compiler)
    modifies c
    ensures c.output == old(c.output) + Header(n)
  {
    c.Write(UseTrait);
    ghost var o := c.output;
    c.Write(OperationsHead);
    c.Repr(n.hasOperations);
    c.Write(MethodTail);
    ghost var o1 := c.output;
    assert o1 == o + [Raw(OperationsHead), BoolLiteral(n.hasOperations), Raw(MethodTail)];
    WriteStringMethod(c, QueryHead, n.query);
    WriteStringMethod(c, ParentHead, n.parent);
    c.Write(IncludesHead);
  }

  /** A static method returning a string literal. */
  method WriteStringMethod(c: Compiler, head: string, value: string)
    modifies c
    ensures c.output == old(c.output) + [Raw(head), Literal(value), Raw(MethodTail)]
  {
    c.Write(head);
    c.String(value);
    c.Write(MethodTail);
  }

  // ---------------------------------------------------------------------------
  // Reading the compiled metadata back
  // ---------------------------------------------------------------------------

  /** A list literal's values, and the chunks after its closing `]; }`. */
  function DecodeList(cs: seq<Chunk>): Option<(seq<string>, seq<Chunk>)>
    decreases |cs|
  {
    if |cs| >= 1 && cs[0] == Raw(ListTail) then Some(([], cs[1..]))
    else if |cs| >= 2 && cs[0].Literal? && cs[1] == Raw(Separator) then
      match DecodeList(cs[2..])
      case Some(p) => Some(([cs[0].value] + p.0, p.1))
      case None => None
    else None
  }

  /** What a generated template class says about its query, parent, includes, operations and arguments. */
  predicate IsHeader(h: seq<Chunk>) {
    |h| == 11 && h[0] == Raw(UseTrait) && h[1] == Raw(OperationsHead) && h[2].BoolLiteral? &&
    h[3] == Raw(MethodTail) && h[4] == Raw(QueryHead) && h[5].Literal? && h[6] == Raw(MethodTail) &&
    h[7] == Raw(ParentHead) && h[8].Literal? && h[9] == Raw(MethodTail) && h[10] == Raw(IncludesHead)
  }

  function Decode(cs: seq<Chunk>): Option<Node>
  {
    if |cs| >= 11 && IsHeader(cs[..11]) then DecodeLists(cs[..11], cs[11..]) else None
  }

  /** The two list literals after the header `h`, and nothing after them. */
  function DecodeLists(h: seq<Chunk>, cs: seq<Chunk>): Option<Node>
    requires IsHeader(h)
  {
    match DecodeList(cs)
    case None => None
    case Some(inc) =>
      if |inc.1| >= 1 && inc.1[0] == Raw(ArgumentsHead) then
        match DecodeList(inc.1[1..])
        case Some(args) =>
          if args.1 == [] then Some(Node(h[5].value, h[8].value, inc.0, h[2].b, args.0)) else None
        case None => None
      else None
  }

  lemma {:induction false} DecodeListItems(values: seq<string>, rest: seq<Chunk>)
    ensures DecodeList(ListLiteral(values, rest)) == Some((values, rest))
    decreases |values|
  {
    var cs := ListLiteral(values, rest);
    if values == [] {
      assert cs == [Raw(ListTail)] + rest;
    } else {
      assert cs[0] == Literal(values[0]) && cs[1] == Raw(Separator);
      assert cs[2..] == ListLiteral(values[1..], rest);
      DecodeListItems(values[1..], rest);
      assert [values[0]] + values[1..] == values;
    }
  }

  /**
   * Round trip: the compiled class gives back exactly the stored flag, query
   * and parent, and one list element per stored include and argument, in order.
   */
  lemma DecodeEmitted(n: Node)
    ensures Decode(Emitted(n)) == Some(n)
  {
    var tail := [Raw(ArgumentsHead)] + ListLiteral(n.arguments, []);
    var body := ListLiteral(n.includes, tail);
    assert Decode(Emitted(n)) == DecodeLists(Header(n), body) by {
      var cs := Emitted(n);
      assert cs[..11] == Header(n);
      assert cs[11..] == body;
    }
    DecodeListItems(n.includes, tail);
    assert tail[1..] == ListLiteral(n.arguments, []);
    DecodeListItems(n.arguments, []);
  }
}
