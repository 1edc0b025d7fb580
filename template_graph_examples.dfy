/**
 * The unit tests of tests/src/Unit/GraphQLTwigExtensionTest.php. Each test
 * template is given with the templates it reaches, as the facts the node
 * visitor records for them: own query, static parent, static includes
 * (a dynamic `extends` or `include` records nothing). Every lemma states the
 * as-written result and the corrected one. A few graphs outside the tests
 * show where the two measures of the as-written resolution part ways.
 */
module TemplateGraphExamples {
  import opened Wrappers
  import opened Php
  import opened TemplateGraph
  import opened TemplateGraphSafe

  const QueryText := "query ($arg: String!) { foo(id: [1, 2, 3], search: \"test\") { bar } }"
  const QueryA := "query a { foo }"
  const QueryB := "query b { foo }"
  const QueryC := "query c { foo }"
  const QueryAB := "query a { ... b }"
  const FragmentB := "fragment b on foo { bar }"

  /** Both measures cover every template of the graph. */
  ghost predicate Measured(g: Graph, prank: map<Id, nat>, irank: map<Id, nat>) {
    ParentRanked(g, prank) && IncludeRanked(g, irank) && forall x :: x in g ==> x in prank && x in irank
  }

  // ---------------------------------------------------------------------------
  // Proof helpers: small unfoldings the shapes below are built from
  // ---------------------------------------------------------------------------

  lemma MeasuredQuery(g: Graph, prank: map<Id, nat>, irank: map<Id, nat>, id: Id)
    requires Measured(g, prank, irank) && id in g
    ensures QueryRanked(g, prank, irank, id)
  {
  }

  lemma IncludesOfLeaf(g: Graph, irank: map<Id, nat>, id: Id)
    requires IncludeRanked(g, irank) && id in irank && g[id].includes == []
    ensures Includes(g, irank, id) == []
  {
    assert FlipKeys(g[id].includes) == [];
  }

  lemma IncludesOfSingle(g: Graph, irank: map<Id, nat>, id: Id, x: Id)
    requires IncludeRanked(g, irank) && id in irank && g[id].includes == [x]
    ensures x in irank && Includes(g, irank, id) == KeyUnion([x], Includes(g, irank, x))
  {
    FlipKeysOfUnique([x]);
    var direct := FlipKeys(g[id].includes);
    assert direct == [x];
    assert Includes(g, irank, id) == Expand(g, irank, id, direct, direct);
    var acc := KeyUnion([x], Includes(g, irank, x));
    assert [x][1..] == [];
    assert Expand(g, irank, id, [x], [x]) == Expand(g, irank, id, acc, []);
  }

  lemma IncludesOfLeafOnly(g: Graph, irank: map<Id, nat>, a: Id, b: Id)
    requires IncludeRanked(g, irank) && a in irank && b in irank && g[a].includes == [b] && g[b].includes == []
    ensures Includes(g, irank, a) == [b]
  {
    IncludesOfLeaf(g, irank, b);
    IncludesOfSingle(g, irank, a, b);
    assert KeyUnion([b], []) == [b];
  }

  lemma IncludesOfChain(g: Graph, irank: map<Id, nat>, a: Id, b: Id, c: Id)
    requires IncludeRanked(g, irank) && a in irank && b in irank && c in irank && b != c
    requires g[a].includes == [b] && g[b].includes == [c] && g[c].includes == []
    ensures Includes(g, irank, a) == [b, c]
  {
    IncludesOfLeafOnly(g, irank, b, c);
    IncludesOfSingle(g, irank, a, b);
    KeyUnionPair(b, c);
  }

  lemma SafeIncludesOfSingle(g: Graph, id: Id, x: Id, stack: set<Id>)
    requires id in g && x in g && g[id].includes == [x]
    ensures SafeIncludes(g, id, stack) ==
      if x in stack then [x] else KeyUnion([x], SafeIncludes(g, x, stack + {x}))
  {
    FlipKeysOfUnique([x]);
    var direct := Known(g, FlipKeys(g[id].includes));
    assert direct == [x];
    assert SafeIncludes(g, id, stack) == SafeExpand(g, id, stack, direct, direct);
    assert [x][1..] == [];
    if x in stack {
      assert SafeExpand(g, id, stack, [x], [x]) == SafeExpand(g, id, stack, [x], []);
    } else {
      var acc := KeyUnion([x], SafeIncludes(g, x, stack + {x}));
      assert SafeExpand(g, id, stack, [x], [x]) == SafeExpand(g, id, stack, acc, []);
    }
  }

  lemma FragmentsOfPair(g: Graph, prank: map<Id, nat>, x: Id, y: Id)
    requires ParentRanked(g, prank) && x in prank && y in prank
    ensures FragmentsOf(g, prank, [x, y]) == [Fragment(g, prank, x), Fragment(g, prank, y)]
  {
    assert [x, y][1..] == [y];
  }

  lemma KeyUnionPair(x: Id, y: Id)
    requires x != y
    ensures KeyUnion([x], [y]) == [x, y]
  {
    assert KeyUnion([x], [y]) == KeyUnion([x, y], [y][1..]);
  }

  lemma ImplodePair(sep: string, a: string, b: string)
    ensures Implode(sep, [a, b]) == a + sep + b
  {
    assert [a, b][1..] == [b];
  }

  lemma ImplodeTriple(sep: string, a: string, b: string, c: string)
    ensures Implode(sep, [a, b, c]) == a + sep + b + sep + c
  {
    assert [a, b, c][1..] == [b, c];
    ImplodePair(sep, b, c);
  }

  /** The composed query of a template without a parent. */
  lemma QueryWithoutParent(g: Graph, prank: map<Id, nat>, irank: map<Id, nat>, id: Id, ids: seq<Id>, fragments: seq<string>)
    requires QueryRanked(g, prank, irank, id) && !HasParent(g[id])
    requires Includes(g, irank, id) == ids && FragmentsOf(g, prank, ids) == fragments
    ensures Query(g, prank, irank, id) == Ok(Implode("\n", [Fragment(g, prank, id)] + fragments))
  {
  }

  /** The composed query of a template with a parent and one include whose text names no template. */
  lemma QueryParentMissing(g: Graph, prank: map<Id, nat>, irank: map<Id, nat>, id: Id, c: Id, qc: string)
    requires QueryRanked(g, prank, irank, id) && HasParent(g[id]) && g[id].parent in g
    requires Includes(g, irank, id) == [c] && Fragment(g, prank, c) == qc && qc !in g
    ensures Query(g, prank, irank, id) == Err(TemplateNotFound(qc))
  {
    assert FragmentsOf(g, prank, [c]) == [qc];
    assert LoadFragments(g, prank, [qc]) == Err(TemplateNotFound(qc));
  }

  /** The corrected composition of a template with a parent, for known include id lists. */
  lemma SafeQueryWithParent(g: Graph, prank: map<Id, nat>, irank: map<Id, nat>, id: Id, own: seq<Id>, inherited: seq<Id>, fragments: seq<string>)
    requires Measured(g, prank, irank) && id in g && HasParent(g[id]) && g[id].parent in g
    requires Includes(g, irank, id) == own && Includes(g, irank, g[id].parent) == inherited
    requires FragmentsOf(g, prank, KeyUnion(own, inherited)) == fragments
    ensures SafeQuery(g, id) == Implode("\n", [Fragment(g, prank, id)] + fragments)
  {
    MeasuredQuery(g, prank, irank, id);
    SafeQueryInheritsParentIncludes(g, prank, irank, id);
  }

  /** The corrected query of a template with a parent whose composed include ids are one id. */
  lemma SafeQueryOfOne(g: Graph, prank: map<Id, nat>, irank: map<Id, nat>, a: Id, c: Id, qa: string, qc: string)
    requires Measured(g, prank, irank) && a in g && c in g && HasParent(g[a]) && g[a].parent in g
    requires KeyUnion(Includes(g, irank, a), Includes(g, irank, g[a].parent)) == [c]
    requires Fragment(g, prank, a) == qa && Fragment(g, prank, c) == qc
    ensures SafeQuery(g, a) == qa + "\n" + qc
  {
    var own, inherited := Includes(g, irank, a), Includes(g, irank, g[a].parent);
    assert FragmentsOf(g, prank, KeyUnion(own, inherited)) == [qc] by {
      assert FragmentsOf(g, prank, [c]) == [qc];
    }
    SafeQueryWithParent(g, prank, irank, a, own, inherited, [qc]);
    assert SafeQuery(g, a) == Implode("\n", [qa, qc]) by {
      assert [qa] + [qc] == [qa, qc];
    }
    ImplodePair("\n", qa, qc);
  }

  // ---------------------------------------------------------------------------
  // The shapes the tests exercise, for any ids and query texts
  // ---------------------------------------------------------------------------

  /** A template with no parent and no includes: its own query, or "" when falsy. */
  lemma LoneShape(g: Graph, prank: map<Id, nat>, irank: map<Id, nat>, a: Id, qa: string)
    requires Measured(g, prank, irank) && a in g && g[a] == Template(qa, "", [])
    ensures QueryRanked(g, prank, irank, a)
    ensures Query(g, prank, irank, a) == Ok(if Truthy(qa) then qa else "")
    ensures SafeQuery(g, a) == if Truthy(qa) then qa else ""
  {
    MeasuredQuery(g, prank, irank, a);
    IncludesOfLeaf(g, irank, a);
    QueryWithoutParent(g, prank, irank, a, [], []);
    SafeQueryAgreesWithoutParent(g, prank, irank, a);
  }

  /** `a` has no query and extends `b`: `b`'s query is the result. */
  lemma ExtendShape(g: Graph, prank: map<Id, nat>, irank: map<Id, nat>, a: Id, b: Id, qb: string)
    requires Measured(g, prank, irank) && a in g && b in g && Truthy(b) && Truthy(qb)
    requires g[a] == Template("", b, []) && g[b] == Template(qb, "", [])
    ensures QueryRanked(g, prank, irank, a)
    ensures Query(g, prank, irank, a) == Ok(qb)
    ensures SafeQuery(g, a) == qb
  {
    MeasuredQuery(g, prank, irank, a);
    IncludesOfLeaf(g, irank, a);
    IncludesOfLeaf(g, irank, b);
    QueryWithoutIncludes(g, prank, irank, a);
    assert KeyUnion<Id>([], []) == [];
    SafeQueryWithParent(g, prank, irank, a, [], [], []);
  }

  /** `a` includes the lone template `b`: `a`'s query, then `b`'s. */
  lemma IncludeShape(g: Graph, prank: map<Id, nat>, irank: map<Id, nat>, a: Id, b: Id, qa: string, qb: string)
    requires Measured(g, prank, irank) && a in g && b in g && Truthy(qa) && Truthy(qb)
    requires g[a] == Template(qa, "", [b]) && g[b] == Template(qb, "", [])
    ensures QueryRanked(g, prank, irank, a)
    ensures Query(g, prank, irank, a) == Ok(qa + "\n" + qb)
    ensures SafeQuery(g, a) == qa + "\n" + qb
  {
    MeasuredQuery(g, prank, irank, a);
    IncludesOfLeafOnly(g, irank, a, b);
    assert FragmentsOf(g, prank, [b]) == [qb];
    assert Query(g, prank, irank, a) == Ok(Implode("\n", [qa, qb])) by {
      QueryWithoutParent(g, prank, irank, a, [b], [qb]);
      assert [qa] + [qb] == [qa, qb];
    }
    ImplodePair("\n", qa, qb);
    SafeQueryAgreesWithoutParent(g, prank, irank, a);
  }

  /** `a` includes `b`, which includes the lone `c`: the three queries in that order. */
  lemma NestedIncludeShape(g: Graph, prank: map<Id, nat>, irank: map<Id, nat>, a: Id, b: Id, c: Id, qa: string, qb: string, qc: string)
    requires Measured(g, prank, irank) && a in g && b in g && c in g && b != c
    requires Truthy(qa) && Truthy(qb) && Truthy(qc)
    requires g[a] == Template(qa, "", [b]) && g[b] == Template(qb, "", [c]) && g[c] == Template(qc, "", [])
    ensures QueryRanked(g, prank, irank, a)
    ensures Query(g, prank, irank, a) == Ok(qa + "\n" + qb + "\n" + qc)
    ensures SafeQuery(g, a) == qa + "\n" + qb + "\n" + qc
  {
    MeasuredQuery(g, prank, irank, a);
    IncludesOfChain(g, irank, a, b, c);
    assert FragmentsOf(g, prank, [b, c]) == [qb, qc] by {
      FragmentsOfPair(g, prank, b, c);
    }
    assert Query(g, prank, irank, a) == Ok(Implode("\n", [qa, qb, qc])) by {
      QueryWithoutParent(g, prank, irank, a, [b, c], [qb, qc]);
      assert [qa] + [qb, qc] == [qa, qb, qc];
    }
    ImplodeTriple("\n", qa, qb, qc);
    SafeQueryAgreesWithoutParent(g, prank, irank, a);
  }

  /**
   * `a` has its own query and extends `b`, which includes the lone `c`. As
   * written `c` is lost; corrected, `c`'s query follows `a`'s.
   */
  lemma ExtendIncludeShape(g: Graph, prank: map<Id, nat>, irank: map<Id, nat>, a: Id, b: Id, c: Id, qa: string, qb: string, qc: string)
    requires Measured(g, prank, irank) && a in g && b in g && c in g && Truthy(b)
    requires Truthy(qa) && Truthy(qc)
    requires g[a] == Template(qa, b, []) && g[b] == Template(qb, "", [c]) && g[c] == Template(qc, "", [])
    ensures QueryRanked(g, prank, irank, a)
    ensures Query(g, prank, irank, a) == Ok(qa)
    ensures SafeQuery(g, a) == qa + "\n" + qc
  {
    MeasuredQuery(g, prank, irank, a);
    IncludesOfLeaf(g, irank, a);
    assert Query(g, prank, irank, a) == Ok(qa) by {
      QueryWithoutIncludes(g, prank, irank, a);
    }
    IncludesOfLeafOnly(g, irank, b, c);
    assert KeyUnion([], [c]) == [c];
    SafeQueryOfOne(g, prank, irank, a, c, qa, qc);
  }

  /**
   * `a` has no query, extends the lone `b` and includes the lone `c`. As
   * written `c`'s query text is looked up as a template name and fails;
   * corrected, `c`'s query follows `b`'s.
   */
  lemma ParentIncludeShape(g: Graph, prank: map<Id, nat>, irank: map<Id, nat>, a: Id, b: Id, c: Id, qb: string, qc: string)
    requires Measured(g, prank, irank) && a in g && b in g && c in g && Truthy(b) && qc !in g
    requires Truthy(qb) && Truthy(qc)
    requires g[a] == Template("", b, [c]) && g[b] == Template(qb, "", []) && g[c] == Template(qc, "", [])
    ensures QueryRanked(g, prank, irank, a)
    ensures Query(g, prank, irank, a) == Err(TemplateNotFound(qc))
    ensures SafeQuery(g, a) == qb + "\n" + qc
  {
    MeasuredQuery(g, prank, irank, a);
    IncludesOfLeaf(g, irank, b);
    IncludesOfLeafOnly(g, irank, a, c);
    assert Fragment(g, prank, c) == qc;
    assert Fragment(g, prank, a) == qb;
    QueryParentMissing(g, prank, irank, a, c, qc);
    assert KeyUnion([c], []) == [c];
    SafeQueryOfOne(g, prank, irank, a, c, qb, qc);
  }

  /**
   * `a` includes `b`, which includes itself. As written `b`'s includes never
   * resolve; corrected, `a`'s query is followed by `b`'s once.
   */
  lemma RecursiveIncludeShape(g: Graph, a: Id, b: Id, qa: string, qb: string, fuel: nat)
    requires a in g && b in g && a != b && Truthy(qa) && Truthy(qb)
    requires g[a] == Template(qa, "", [b]) && g[b] == Template(qb, "", [b])
    ensures IncludesFuel(g, b, fuel) == Unfinished
    ensures SafeQuery(g, a) == qa + "\n" + qb
  {
    SelfIncludeNeverReturns(g, b, fuel);
    SafeIncludesOfSingle(g, b, b, {a, b});
    SafeIncludesOfSingle(g, a, b, {a});
    assert {a} + {b} == {a, b};
    assert KeyUnion([b], [b]) == [b];
    assert ComposedIds(g, a) == KeyUnion([b], []);
    assert KeyUnion([b], []) == [b];
    assert SafeFragments(g, [b]) == [qb];
    assert [qa] + [qb] == [qa, qb];
    ImplodePair("\n", qa, qb);
  }

  // ---------------------------------------------------------------------------
  // The unit tests: each test template with the templates it reaches
  // ---------------------------------------------------------------------------

  /** testQuery. */
  lemma TestQuery()
    ensures var g, r := map["query" := Template(QueryText, "", [])], map["query" := 0];
      && Measured(g, r, r) && QueryRanked(g, r, r, "query")
      && Query(g, r, r, "query") == Ok(QueryText) && SafeQuery(g, "query") == QueryText
  {
    var g, r := map["query" := Template(QueryText, "", [])], map["query" := 0];
    LoneShape(g, r, r, "query", QueryText);
  }

  /** testExtend. */
  lemma TestExtend()
    ensures var g := map["simple" := Template(QueryA, "", []), "extend" := Template("", "simple", [])];
      var p, i := map["simple" := 0, "extend" := 1], map["simple" := 0, "extend" := 0];
      && Measured(g, p, i) && QueryRanked(g, p, i, "extend")
      && Query(g, p, i, "extend") == Ok(QueryA) && SafeQuery(g, "extend") == QueryA
  {
    var g := map["simple" := Template(QueryA, "", []), "extend" := Template("", "simple", [])];
    var p, i := map["simple" := 0, "extend" := 1], map["simple" := 0, "extend" := 0];
    assert Measured(g, p, i);
    ExtendShape(g, p, i, "extend", "simple", QueryA);
  }

  /** testDynamicExtend: a dynamic parent is not recorded, so the query is empty. */
  lemma TestDynamicExtend()
    ensures var g, r := map["dynamic_extend" := Template("", "", [])], map["dynamic_extend" := 0];
      && Measured(g, r, r) && QueryRanked(g, r, r, "dynamic_extend")
      && Query(g, r, r, "dynamic_extend") == Ok("") && SafeQuery(g, "dynamic_extend") == ""
  {
    var g, r := map["dynamic_extend" := Template("", "", [])], map["dynamic_extend" := 0];
    LoneShape(g, r, r, "dynamic_extend", "");
  }

  /** testInclude. */
  lemma TestInclude()
    ensures var g := map["sub_fragment" := Template(QueryC, "", []), "include" := Template(QueryA, "", ["sub_fragment"])];
      var p, i := map["sub_fragment" := 0, "include" := 0], map["sub_fragment" := 0, "include" := 1];
      && Measured(g, p, i) && QueryRanked(g, p, i, "include")
      && Query(g, p, i, "include") == Ok(QueryA + "\n" + QueryC)
      && SafeQuery(g, "include") == QueryA + "\n" + QueryC
  {
    var g := map["sub_fragment" := Template(QueryC, "", []), "include" := Template(QueryA, "", ["sub_fragment"])];
    var p, i := map["sub_fragment" := 0, "include" := 0], map["sub_fragment" := 0, "include" := 1];
    assert Measured(g, p, i);
    IncludeShape(g, p, i, "include", "sub_fragment", QueryA, QueryC);
  }

  /** testNestedInclude. */
  lemma TestNestedInclude()
    ensures var g := map["sub_fragment" := Template(QueryC, "", []), "fragment" := Template(QueryB, "", ["sub_fragment"]),
                         "nested_include" := Template(QueryA, "", ["fragment"])];
      var p := map["sub_fragment" := 0, "fragment" := 0, "nested_include" := 0];
      var i := map["sub_fragment" := 0, "fragment" := 1, "nested_include" := 2];
      && Measured(g, p, i) && QueryRanked(g, p, i, "nested_include")
      && Query(g, p, i, "nested_include") == Ok(QueryA + "\n" + QueryB + "\n" + QueryC)
      && SafeQuery(g, "nested_include") == QueryA + "\n" + QueryB + "\n" + QueryC
  {
    var g := map["sub_fragment" := Template(QueryC, "", []), "fragment" := Template(QueryB, "", ["sub_fragment"]),
                 "nested_include" := Template(QueryA, "", ["fragment"])];
    var p := map["sub_fragment" := 0, "fragment" := 0, "nested_include" := 0];
    var i := map["sub_fragment" := 0, "fragment" := 1, "nested_include" := 2];
    assert Measured(g, p, i);
    NestedIncludeShape(g, p, i, "nested_include", "fragment", "sub_fragment", QueryA, QueryB, QueryC);
  }

  /** testDynamicInclude: a dynamic include is not recorded. */
  lemma TestDynamicInclude()
    ensures var g, r := map["dynamic_include" := Template(QueryA, "", [])], map["dynamic_include" := 0];
      && Measured(g, r, r) && QueryRanked(g, r, r, "dynamic_include")
      && Query(g, r, r, "dynamic_include") == Ok(QueryA) && SafeQuery(g, "dynamic_include") == QueryA
  {
    var g, r := map["dynamic_include" := Template(QueryA, "", [])], map["dynamic_include" := 0];
    LoneShape(g, r, r, "dynamic_include", QueryA);
  }

  /**
   * testExtendInclude expects the parent's include `sub_fragment`: as written
   * the result lacks it; the corrected composition has it.
   */
  lemma TestExtendInclude()
    ensures var g := map["sub_fragment" := Template(QueryC, "", []), "fragment" := Template(QueryB, "", ["sub_fragment"]),
                         "extend_include" := Template(QueryA, "fragment", [])];
      var p := map["sub_fragment" := 0, "fragment" := 0, "extend_include" := 0];
      var i := map["sub_fragment" := 0, "fragment" := 1, "extend_include" := 0];
      && Measured(g, p, i) && QueryRanked(g, p, i, "extend_include")
      && Query(g, p, i, "extend_include") == Ok(QueryA)
      && QueryA != QueryA + "\n" + QueryC
      && SafeQuery(g, "extend_include") == QueryA + "\n" + QueryC
  {
    var g := map["sub_fragment" := Template(QueryC, "", []), "fragment" := Template(QueryB, "", ["sub_fragment"]),
                 "extend_include" := Template(QueryA, "fragment", [])];
    var p := map["sub_fragment" := 0, "fragment" := 0, "extend_include" := 0];
    var i := map["sub_fragment" := 0, "fragment" := 1, "extend_include" := 0];
    assert Measured(g, p, i);
    ExtendIncludeShape(g, p, i, "extend_include", "fragment", "sub_fragment", QueryA, QueryB, QueryC);
    assert |QueryA + "\n" + QueryC| != |QueryA|;
  }

  /** Not one of the unit tests: a template with both a parent and an include. */
  lemma ParentWithIncludeThrows()
    ensures var g := map["simple" := Template(QueryA, "", []), "sub_fragment" := Template(QueryC, "", []),
                         "child" := Template("", "simple", ["sub_fragment"])];
      var p := map["simple" := 0, "sub_fragment" := 0, "child" := 1];
      var i := map["simple" := 0, "sub_fragment" := 0, "child" := 1];
      && Measured(g, p, i) && QueryRanked(g, p, i, "child")
      && Query(g, p, i, "child") == Err(TemplateNotFound(QueryC))
      && SafeQuery(g, "child") == QueryA + "\n" + QueryC
  {
    var g := map["simple" := Template(QueryA, "", []), "sub_fragment" := Template(QueryC, "", []),
                 "child" := Template("", "simple", ["sub_fragment"])];
    var p := map["simple" := 0, "sub_fragment" := 0, "child" := 1];
    var i := map["simple" := 0, "sub_fragment" := 0, "child" := 1];
    assert Measured(g, p, i);
    ParentIncludeShape(g, p, i, "child", "simple", "sub_fragment", QueryA, QueryC);
  }

  /** testRecursiveInclude. */
  lemma TestRecursiveInclude(fuel: nat)
    ensures var g := map["recursive" := Template(QueryAB, "", ["recursive_include"]),
                         "recursive_include" := Template(FragmentB, "", ["recursive_include"])];
      && IncludesFuel(g, "recursive_include", fuel) == Unfinished
      && SafeQuery(g, "recursive") == QueryAB + "\n" + FragmentB
  {
    var g := map["recursive" := Template(QueryAB, "", ["recursive_include"]),
                 "recursive_include" := Template(FragmentB, "", ["recursive_include"])];
    RecursiveIncludeShape(g, "recursive", "recursive_include", QueryAB, FragmentB, fuel);
  }

  // ---------------------------------------------------------------------------
  // Graphs outside the tests: the two recursions follow different links
  // ---------------------------------------------------------------------------

  /**
   * `a` includes `b`, and `b` extends `a`. The include recursion never follows
   * the parent link, and both queries are truthy, so nothing cycles: `a`'s
   * query is `a`'s, then `b`'s.
   */
  lemma IncludedChildQuery()
    ensures var g := map["a" := Template(QueryA, "", ["b"]), "b" := Template(QueryB, "a", [])];
      var p, i := map["a" := 0, "b" := 0], map["a" := 1, "b" := 0];
      && Measured(g, p, i) && QueryRanked(g, p, i, "a")
      && Query(g, p, i, "a") == Ok(QueryA + "\n" + QueryB)
      && SafeQuery(g, "a") == QueryA + "\n" + QueryB
  {
    var g := map["a" := Template(QueryA, "", ["b"]), "b" := Template(QueryB, "a", [])];
    var p, i := map["a" := 0, "b" := 0], map["a" := 1, "b" := 0];
    assert Measured(g, p, i);
    MeasuredQuery(g, p, i, "a");
    IncludesOfLeafOnly(g, i, "a", "b");
    assert FragmentsOf(g, p, ["b"]) == [QueryB];
    QueryWithoutParent(g, p, i, "a", ["b"], [QueryB]);
    assert [QueryA] + [QueryB] == [QueryA, QueryB];
    ImplodePair("\n", QueryA, QueryB);
    SafeQueryAgreesWithoutParent(g, p, i, "a");
  }

  /**
   * `a` and `b` extend each other, each with a truthy query: the fragment
   * never falls back, so `a`'s query is its own.
   */
  lemma MutualParentsQuery()
    ensures var g := map["a" := Template(QueryA, "b", []), "b" := Template(QueryB, "a", [])];
      var r := map["a" := 0, "b" := 0];
      && Measured(g, r, r) && QueryRanked(g, r, r, "a")
      && Query(g, r, r, "a") == Ok(QueryA)
  {
    var g := map["a" := Template(QueryA, "b", []), "b" := Template(QueryB, "a", [])];
    var r := map["a" := 0, "b" := 0];
    assert Measured(g, r, r);
    MeasuredQuery(g, r, r, "a");
    QueryWithoutIncludes(g, r, r, "a");
  }

  /**
   * `a` has a truthy query and extends a template that does not exist: the
   * fragment never loads the parent, but `getGraphQLQuery` does, and throws.
   */
  lemma MissingParentThrows()
    ensures var g, r := map["a" := Template(QueryA, "missing", [])], map["a" := 0];
      && Measured(g, r, r) && QueryRanked(g, r, r, "a")
      && Fragment(g, r, "a") == QueryA
      && Query(g, r, r, "a") == Err(TemplateNotFound("missing"))
  {
    var g, r := map["a" := Template(QueryA, "missing", [])], map["a" := 0];
    assert Measured(g, r, r);
    MeasuredQuery(g, r, r, "a");
    QueryWithoutIncludes(g, r, r, "a");
  }
}
