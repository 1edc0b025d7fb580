/**
 * The query graph resolver of GraphQLTemplateTrait, as written.
 *
 * Every compiled template carries three facts: its own query text, the id of
 * the template it extends ("" when none) and the ids it includes or embeds.
 * `loadTemplate` turns an id into that template and throws for an unknown id;
 * nothing guards against cycles. Two recursions run here and each gets its
 * own termination measure, over just the templates it visits:
 *  - `getGraphQLFragment` falls back to the parent only while the own query
 *    is falsy (`ParentRanked`);
 *  - `getGraphQLIncludes` follows include links and never parent links
 *    (`IncludeRanked`).
 * A measure exists exactly when its recursion returns without a load
 * failing; for includes, the recursion on every graph, returning, throwing or
 * running on, is `TemplateGraphSafe.IncludesFuel`.
 */
module TemplateGraph {
  import opened Wrappers
  import opened Php

  type Id = string

  /** The properties `graphqlQuery`, `graphqlParent` and `graphqlIncludes` of one compiled template. */
  datatype Template = Template(query: string, parent: Id, includes: seq<Id>)

  /** What `loadTemplate` can reach: template id to template. */
  type Graph = map<Id, Template>

  /** A parent link counts only when the stored id is PHP-truthy. */
  predicate HasParent(t: Template) {
    Truthy(t.parent)
  }

  /** `getGraphQLFragment` falls back to the parent: the own query is falsy and a parent is set. */
  predicate FallsBack(t: Template) {
    !Truthy(t.query) && HasParent(t)
  }

  /**
   * A measure for `getGraphQLFragment` on the ids of `prank`: every parent it
   * falls back to exists, is measured and ranks lower. Parent links that are
   * never followed are not constrained.
   */
  ghost predicate ParentRanked(g: Graph, prank: map<Id, nat>) {
    forall id :: id in prank ==>
      id in g &&
      (FallsBack(g[id]) ==> g[id].parent in g && g[id].parent in prank && prank[g[id].parent] < prank[id])
  }

  /**
   * A measure for `getGraphQLIncludes` on the ids of `irank`: every include
   * exists, is measured and ranks lower. Parent links play no part.
   */
  ghost predicate IncludeRanked(g: Graph, irank: map<Id, nat>) {
    forall id :: id in irank ==>
      id in g &&
      forall x :: x in g[id].includes ==> x in g && x in irank && irank[x] < irank[id]
  }

  /** A measure along every parent link, followed or not, for the parent chain. */
  ghost predicate ChainRanked(g: Graph, crank: map<Id, nat>) {
    forall id :: id in crank ==>
      id in g &&
      (HasParent(g[id]) && g[id].parent in g ==> g[id].parent in crank && crank[g[id].parent] < crank[id])
  }

  // ---------------------------------------------------------------------------
  // getGraphQLFragment
  // ---------------------------------------------------------------------------

  /**
   * The effective fragment: the template's own query when it is truthy, else
   * the parent's effective fragment, else "".
   */
  function Fragment(g: Graph, ghost prank: map<Id, nat>, id: Id): (r: string)
    requires ParentRanked(g, prank) && id in prank
    ensures r == "" || Truthy(r)
    decreases prank[id]
  {
    if Truthy(g[id].query) then g[id].query
    else if HasParent(g[id]) then Fragment(g, prank, g[id].parent)
    else ""
  }

  /**
   * The template itself, then its parent, grandparent, ... as far as parent
   * links lead to templates.
   */
  function Chain(g: Graph, ghost crank: map<Id, nat>, id: Id): (r: seq<Id>)
    requires ChainRanked(g, crank) && id in crank
    ensures |r| >= 1 && r[0] == id
    ensures forall k :: 0 <= k < |r| ==> r[k] in g && r[k] in crank
    ensures forall k :: 0 <= k < |r| - 1 ==> HasParent(g[r[k]]) && r[k + 1] == g[r[k]].parent
    ensures !HasParent(g[r[|r| - 1]]) || g[r[|r| - 1]].parent !in g
    decreases crank[id]
  {
    if HasParent(g[id]) && g[id].parent in g then [id] + Chain(g, crank, g[id].parent) else [id]
  }

  /** No template on the parent chain of `id` has a truthy query. */
  ghost predicate NoQueryOnChain(g: Graph, crank: map<Id, nat>, id: Id)
    requires ChainRanked(g, crank) && id in crank
  {
    var c := Chain(g, crank, id);
    forall k :: 0 <= k < |c| ==> !Truthy(g[c[k]].query)
  }

  /** Position `k` of the parent chain holds the nearest truthy query. */
  ghost predicate NearestQueryAt(g: Graph, crank: map<Id, nat>, id: Id, k: nat)
    requires ChainRanked(g, crank) && id in crank
  {
    var c := Chain(g, crank, id);
    k < |c| && Truthy(g[c[k]].query) && forall j :: 0 <= j < k ==> !Truthy(g[c[j]].query)
  }

  /**
   * Reference characterisation of the effective fragment: it is the query of
   * the nearest template on the parent chain whose query is truthy, and it is
   * "" exactly when no template on the chain has a truthy query.
   */
  lemma {:induction false} FragmentIsNearestOnChain(g: Graph, prank: map<Id, nat>, crank: map<Id, nat>, id: Id)
    requires ParentRanked(g, prank) && id in prank
    requires ChainRanked(g, crank) && id in crank
    ensures Fragment(g, prank, id) == "" <==> NoQueryOnChain(g, crank, id)
    ensures Fragment(g, prank, id) != "" ==>
      exists k: nat :: NearestQueryAt(g, crank, id, k) && Fragment(g, prank, id) == g[Chain(g, crank, id)[k]].query
    decreases prank[id]
  {
    var c := Chain(g, crank, id);
    if Truthy(g[id].query) {
      assert c[0] == id;
      assert NearestQueryAt(g, crank, id, 0);
    } else if HasParent(g[id]) {
      var p := g[id].parent;
      assert FallsBack(g[id]);
      FragmentIsNearestOnChain(g, prank, crank, p);
      var cp := Chain(g, crank, p);
      assert c == [id] + cp;
      assert forall k :: 1 <= k < |c| ==> c[k] == cp[k - 1];
      if Fragment(g, prank, id) != "" {
        var k: nat :| NearestQueryAt(g, crank, p, k) && Fragment(g, prank, p) == g[cp[k]].query;
        assert c[k + 1] == cp[k];
        assert NearestQueryAt(g, crank, id, k + 1) by {
          forall j | 0 <= j < k + 1 ensures !Truthy(g[c[j]].query) {
            if j > 0 {
              assert c[j] == cp[j - 1];
            }
          }
        }
      } else {
        assert NoQueryOnChain(g, crank, id) by {
          forall k | 0 <= k < |c| ensures !Truthy(g[c[k]].query) {
            if k > 0 {
              assert c[k] == cp[k - 1];
            }
          }
        }
      }
    } else {
      assert c == [id];
    }
  }

  /** A truthy own query wins, whatever the parent chain holds. */
  lemma OwnQueryWins(g: Graph, prank: map<Id, nat>, id: Id)
    requires ParentRanked(g, prank) && id in prank && Truthy(g[id].query)
    ensures Fragment(g, prank, id) == g[id].query
  {
  }

  /** With a falsy own query the parent's fragment is used; with no parent either, the fragment is "". */
  lemma FallsBackToParent(g: Graph, prank: map<Id, nat>, id: Id)
    requires ParentRanked(g, prank) && id in prank && !Truthy(g[id].query)
    ensures HasParent(g[id]) ==> g[id].parent in prank && Fragment(g, prank, id) == Fragment(g, prank, g[id].parent)
    ensures !HasParent(g[id]) ==> Fragment(g, prank, id) == ""
  {
  }

  // ---------------------------------------------------------------------------
  // getGraphQLIncludes
  // ---------------------------------------------------------------------------

  /**
   * Keys of `getGraphQLIncludes()`: the direct includes (flipped, so each once,
   * in stored order), then, for each direct include in turn, the keys of its own
   * `getGraphQLIncludes()` that are not present yet.
   */
  function Includes(g: Graph, ghost irank: map<Id, nat>, id: Id): (r: seq<Id>)
    requires IncludeRanked(g, irank) && id in irank
    ensures NoDup(r)
    ensures forall x :: x in r ==> x in g && x in irank
    decreases irank[id], 1
  {
    var direct := FlipKeys(g[id].includes);
    Expand(g, irank, id, direct, direct)
  }

  /** The `foreach ... $includes += ...` loop, from accumulated keys `acc` over the direct includes `rest` still to visit. */
  function Expand(g: Graph, ghost irank: map<Id, nat>, id: Id, acc: seq<Id>, rest: seq<Id>): (r: seq<Id>)
    requires IncludeRanked(g, irank) && id in irank
    requires forall x :: x in rest ==> x in g[id].includes
    ensures NoDup(acc) ==> NoDup(r)
    ensures (forall x :: x in acc ==> x in g && x in irank) ==> forall x :: x in r ==> x in g && x in irank
    decreases irank[id], 0, |rest|
  {
    if rest == [] then acc
    else Expand(g, irank, id, KeyUnion(acc, Includes(g, irank, rest[0])), rest[1..])
  }

  /** The imperative `getGraphQLIncludes`: a loop over the flipped direct includes, recursing into each. */
  method GetIncludes(g: Graph, ghost irank: map<Id, nat>, id: Id) returns (includes: seq<Id>)
    requires IncludeRanked(g, irank) && id in irank
    ensures includes == Includes(g, irank, id)
    decreases irank[id]
  {
    var direct := FlipKeys(g[id].includes);
    includes := direct;
    if direct != [] {
      var i := 0;
      while i < |direct|
        invariant 0 <= i <= |direct|
        invariant Expand(g, irank, id, includes, direct[i..]) == Includes(g, irank, id)
      {
        ExpandStep(g, irank, id, includes, direct, i);
        var sub := GetIncludes(g, irank, direct[i]);
        includes := KeyUnion(includes, sub);
        i := i + 1;
      }
      assert direct[i..] == [];
    }
  }

  /** One turn of the loop in `GetIncludes`: the next direct include is merged in. */
  lemma ExpandStep(g: Graph, irank: map<Id, nat>, id: Id, acc: seq<Id>, direct: seq<Id>, i: nat)
    requires IncludeRanked(g, irank) && id in irank
    requires direct == FlipKeys(g[id].includes) && i < |direct|
    ensures direct[i] in g && direct[i] in irank && irank[direct[i]] < irank[id]
    ensures Expand(g, irank, id, acc, direct[i..]) == Expand(g, irank, id, KeyUnion(acc, Includes(g, irank, direct[i])), direct[i + 1..])
  {
    assert direct[i] in g[id].includes;
    assert direct[i..][1..] == direct[i + 1..];
    assert forall x :: x in direct[i..] ==> x in direct;
  }

  /** Reference definition of transitive inclusion: `x` is a direct include, or reached from one. */
  ghost predicate Reaches(g: Graph, irank: map<Id, nat>, id: Id, x: Id)
    requires IncludeRanked(g, irank) && id in irank
    decreases irank[id]
  {
    x in g[id].includes ||
    exists y :: y in g[id].includes && Reaches(g, irank, y, x)
  }

  lemma {:induction false} ExpandMembers(g: Graph, irank: map<Id, nat>, id: Id, acc: seq<Id>, rest: seq<Id>, x: Id)
    requires IncludeRanked(g, irank) && id in irank
    requires forall y :: y in rest ==> y in g[id].includes
    ensures x in Expand(g, irank, id, acc, rest) <==>
      x in acc || exists y :: y in rest && x in Includes(g, irank, y)
    decreases |rest|
  {
    if rest != [] {
      ExpandMembers(g, irank, id, KeyUnion(acc, Includes(g, irank, rest[0])), rest[1..], x);
      if x in Expand(g, irank, id, acc, rest) && x !in acc && x !in Includes(g, irank, rest[0]) {
        var y :| y in rest[1..] && x in Includes(g, irank, y);
        assert y in rest;
      }
      if exists y :: y in rest && x in Includes(g, irank, y) {
        var y :| y in rest && x in Includes(g, irank, y);
        if y != rest[0] {
          assert y in rest[1..];
        }
      }
    }
  }

  /** The include list holds exactly the transitively reachable ids. */
  lemma {:induction false} IncludesAreReachable(g: Graph, irank: map<Id, nat>, id: Id, x: Id)
    requires IncludeRanked(g, irank) && id in irank
    ensures x in Includes(g, irank, id) <==> Reaches(g, irank, id, x)
    decreases irank[id]
  {
    var direct := FlipKeys(g[id].includes);
    ExpandMembers(g, irank, id, direct, direct, x);
    if x in Includes(g, irank, id) && x !in direct {
      var y :| y in direct && x in Includes(g, irank, y);
      IncludesAreReachable(g, irank, y, x);
    }
    if Reaches(g, irank, id, x) && x !in g[id].includes {
      var y :| y in g[id].includes && Reaches(g, irank, y, x);
      IncludesAreReachable(g, irank, y, x);
      assert y in direct;
    }
  }

  /** The loop only appends: the keys accumulated so far stay in front, in order. */
  lemma {:induction false} ExpandPrefix(g: Graph, irank: map<Id, nat>, id: Id, acc: seq<Id>, rest: seq<Id>)
    requires IncludeRanked(g, irank) && id in irank
    requires forall x :: x in rest ==> x in g[id].includes
    ensures |Expand(g, irank, id, acc, rest)| >= |acc|
    ensures Expand(g, irank, id, acc, rest)[..|acc|] == acc
    decreases |rest|
  {
    if rest != [] {
      var next := KeyUnion(acc, Includes(g, irank, rest[0]));
      ExpandPrefix(g, irank, id, next, rest[1..]);
      var r := Expand(g, irank, id, acc, rest);
      assert r[..|acc|] == r[..|next|][..|acc|];
    }
  }

  /** The flipped direct includes come first, in stored order. */
  lemma IncludesPrefix(g: Graph, irank: map<Id, nat>, id: Id)
    requires IncludeRanked(g, irank) && id in irank
    ensures |Includes(g, irank, id)| >= |FlipKeys(g[id].includes)|
    ensures Includes(g, irank, id)[..|FlipKeys(g[id].includes)|] == FlipKeys(g[id].includes)
  {
    var direct := FlipKeys(g[id].includes);
    ExpandPrefix(g, irank, id, direct, direct);
  }

  /** No direct includes means no includes at all, and vice versa. */
  lemma IncludesEmpty(g: Graph, irank: map<Id, nat>, id: Id)
    requires IncludeRanked(g, irank) && id in irank
    ensures Includes(g, irank, id) == [] <==> g[id].includes == []
  {
    if g[id].includes != [] {
      assert g[id].includes[0] in FlipKeys(g[id].includes);
      IncludesPrefix(g, irank, id);
    }
  }

  /** Direct includes stored without repeats come first, exactly in stored order. */
  lemma DirectIncludesFirst(g: Graph, irank: map<Id, nat>, id: Id)
    requires IncludeRanked(g, irank) && id in irank && NoDup(g[id].includes)
    ensures |Includes(g, irank, id)| >= |g[id].includes|
    ensures Includes(g, irank, id)[..|g[id].includes|] == g[id].includes
  {
    FlipKeysOfUnique(g[id].includes);
    IncludesPrefix(g, irank, id);
  }

  // ---------------------------------------------------------------------------
  // getGraphQLQuery
  // ---------------------------------------------------------------------------

  datatype LoadError = TemplateNotFound(name: string)

  /** `array_map(fn ($t) => loadTemplate($t)->getGraphQLFragment(), $ids)` over known ids. */
  function FragmentsOf(g: Graph, ghost prank: map<Id, nat>, ids: seq<Id>): (r: seq<string>)
    requires ParentRanked(g, prank) && forall x :: x in ids ==> x in prank
    ensures |r| == |ids|
    ensures forall k :: 0 <= k < |ids| ==> r[k] == Fragment(g, prank, ids[k])
  {
    if ids == [] then [] else [Fragment(g, prank, ids[0])] + FragmentsOf(g, prank, ids[1..])
  }

  /**
   * The same `array_map`, applied to arbitrary names: the first name that is
   * not a template makes `loadTemplate` throw.
   */
  function LoadFragments(g: Graph, ghost prank: map<Id, nat>, names: seq<string>): (r: Result<seq<string>, LoadError>)
    requires ParentRanked(g, prank) && forall x :: x in names && x in g ==> x in prank
    ensures r.Ok? <==> forall x :: x in names ==> x in g
    ensures r.Ok? ==> |r.value| == |names|
    ensures r.Err? ==> r.error.name in names && r.error.name !in g
  {
    if names == [] then Ok([])
    else if names[0] !in g then Err(TemplateNotFound(names[0]))
    else match LoadFragments(g, prank, names[1..])
      case Err(e) => Err(e)
      case Ok(rest) => Ok([Fragment(g, prank, names[0])] + rest)
  }

  /**
   * The measures under which `getGraphQLQuery` of `id` returns or throws
   * rather than recursing forever: its own fragment and includes terminate,
   * the fragment of every include does, and so does the fragment of every
   * template that the parent branch loads by name.
   */
  ghost predicate QueryRanked(g: Graph, prank: map<Id, nat>, irank: map<Id, nat>, id: Id) {
    && ParentRanked(g, prank) && IncludeRanked(g, irank) && id in prank && id in irank
    && (forall x :: x in Includes(g, irank, id) ==> x in prank)
    && (HasParent(g[id]) ==>
          forall f :: f in FragmentsOf(g, prank, Includes(g, irank, id)) && f in g ==> f in prank)
  }

  /**
   * `getGraphQLQuery()` as written. Loading a parent that is not a template
   * throws. The parent branch then maps `loadTemplate` over the fragment TEXTS
   * already computed, so it throws unless every such text happens to be a
   * template id; otherwise its list union (same numeric keys) adds nothing.
   * The own fragment sits under key -1, ahead of the includes, so it always
   * comes first; without a parent nothing is loaded and nothing throws.
   */
  function Query(g: Graph, ghost prank: map<Id, nat>, ghost irank: map<Id, nat>, id: Id): (r: Result<string, LoadError>)
    requires QueryRanked(g, prank, irank, id)
    ensures r.Err? ==> HasParent(g[id])
    ensures r.Ok? ==> var f := Fragment(g, prank, id); |r.value| >= |f| && r.value[..|f|] == f
  {
    var self := Fragment(g, prank, id);
    var fragments := FragmentsOf(g, prank, Includes(g, irank, id));
    if HasParent(g[id]) then
      if g[id].parent !in g then Err(TemplateNotFound(g[id].parent))
      else match LoadFragments(g, prank, fragments)
        case Err(e) => Err(e)
        case Ok(reloaded) => Ok(Implode("\n", [self] + ListUnion(fragments, reloaded)))
    else
      Ok(Implode("\n", [self] + fragments))
  }

  /**
   * What `Query` computes: it fails exactly when the template has a parent
   * that is not a template, or has a parent and some include fragment text is
   * not a template id. Otherwise it is the own effective fragment followed by
   * each include's effective fragment, joined with newlines and nothing
   * filtered.
   */
  lemma QueryComposition(g: Graph, prank: map<Id, nat>, irank: map<Id, nat>, id: Id)
    requires QueryRanked(g, prank, irank, id)
    ensures var fragments := FragmentsOf(g, prank, Includes(g, irank, id));
      && (Query(g, prank, irank, id).Ok? <==>
            !HasParent(g[id]) || (g[id].parent in g && forall f :: f in fragments ==> f in g))
      && (Query(g, prank, irank, id).Ok? ==>
            Query(g, prank, irank, id).value == Implode("\n", [Fragment(g, prank, id)] + fragments))
      && (Query(g, prank, irank, id).Err? && g[id].parent !in g ==>
            Query(g, prank, irank, id).error == TemplateNotFound(g[id].parent))
      && (Query(g, prank, irank, id).Err? && g[id].parent in g ==>
            Query(g, prank, irank, id).error.name in fragments && Query(g, prank, irank, id).error.name !in g)
  {
  }

  /**
   * No fragment is dropped: the result is as long as all fragments together
   * plus one newline per include, empty fragments included.
   */
  lemma QueryLength(g: Graph, prank: map<Id, nat>, irank: map<Id, nat>, id: Id)
    requires QueryRanked(g, prank, irank, id) && Query(g, prank, irank, id).Ok?
    ensures var fragments := FragmentsOf(g, prank, Includes(g, irank, id));
      |Query(g, prank, irank, id).value| == |Fragment(g, prank, id)| + TotalLength(fragments) + |fragments|
  {
    var fragments := FragmentsOf(g, prank, Includes(g, irank, id));
    QueryComposition(g, prank, irank, id);
    ImplodeLength("\n", [Fragment(g, prank, id)] + fragments);
    assert ([Fragment(g, prank, id)] + fragments)[1..] == fragments;
  }

  /** Without includes, the query is exactly the effective fragment, unless a parent is set that is not a template. */
  lemma QueryWithoutIncludes(g: Graph, prank: map<Id, nat>, irank: map<Id, nat>, id: Id)
    requires QueryRanked(g, prank, irank, id) && g[id].includes == []
    ensures HasParent(g[id]) && g[id].parent !in g ==> Query(g, prank, irank, id) == Err(TemplateNotFound(g[id].parent))
    ensures !HasParent(g[id]) || g[id].parent in g ==> Query(g, prank, irank, id) == Ok(Fragment(g, prank, id))
  {
    IncludesEmpty(g, irank, id);
  }
}
