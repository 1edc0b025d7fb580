/**
 * The include recursion on every graph, and a corrected resolution for the
 * two defects of GraphQLTemplateTrait as written:
 *
 *  - getGraphQLIncludes recurses with no visited set, so a template that
 *    includes itself (directly or through others) never returns. `IncludesFuel`
 *    is the as-written recursion cut off after `fuel` nested calls; it agrees
 *    with `Includes` wherever an include measure exists, throws on an unknown
 *    include and never finishes on a self-include.
 *  - getGraphQLQuery's "parent includes" branch maps `loadTemplate` over
 *    fragment texts instead of the parent's include ids, so a parent's includes
 *    are never added.
 *
 * `SafeFragment`, `SafeIncludes` and `SafeQuery` are total on every graph:
 * they skip an unknown id instead of throwing, expand each include id once
 * instead of recursing without end, and add the parent's transitive include
 * ids. Where the as-written functions return, they agree with them.
 */
module TemplateGraphSafe {
  import opened Wrappers
  import opened Php
  import opened TemplateGraph

  // ---------------------------------------------------------------------------
  // The as-written include recursion, with a depth bound
  // ---------------------------------------------------------------------------

  /** How a bounded run of `getGraphQLIncludes` ends. */
  datatype Run = Done(ids: seq<Id>) | Thrown(name: Id) | Unfinished

  /**
   * `loadTemplate(id)->getGraphQLIncludes()` allowed `fuel` nested calls: its
   * keys, the unknown id whose `loadTemplate` throws, or `Unfinished` when it
   * has not returned by then.
   */
  function IncludesFuel(g: Graph, id: Id, fuel: nat): (r: Run)
    ensures r.Thrown? ==> r.name !in g
    ensures r.Done? ==> id in g && forall x :: x in r.ids ==> x in g
    decreases fuel, 1
  {
    if id !in g then Thrown(id)
    else if fuel == 0 then Unfinished
    else
      var direct := FlipKeys(g[id].includes);
      ExpandFuel(g, direct, direct, fuel - 1)
  }

  function ExpandFuel(g: Graph, acc: seq<Id>, rest: seq<Id>, fuel: nat): (r: Run)
    ensures r.Thrown? ==> r.name !in g
    ensures r.Done? ==> (forall x :: x in rest ==> x in g) && forall x :: x in r.ids ==> x in acc || x in g
    decreases fuel, 2, |rest|
  {
    if rest == [] then Done(acc)
    else match IncludesFuel(g, rest[0], fuel)
      case Done(sub) => ExpandFuel(g, KeyUnion(acc, sub), rest[1..], fuel)
      case other => other
  }

  /** With more fuel than the measure, the bounded recursion returns exactly `Includes`. */
  lemma {:induction false} IncludesFuelAgrees(g: Graph, irank: map<Id, nat>, id: Id, fuel: nat)
    requires IncludeRanked(g, irank) && id in irank && fuel > irank[id]
    ensures IncludesFuel(g, id, fuel) == Done(Includes(g, irank, id))
    decreases irank[id], 1
  {
    var direct := FlipKeys(g[id].includes);
    ExpandFuelAgrees(g, irank, id, direct, direct, 0, fuel - 1);
    assert direct[0..] == direct;
  }

  /** The same for the loop, from the `k`-th direct include on. */
  lemma {:induction false} ExpandFuelAgrees(g: Graph, irank: map<Id, nat>, id: Id, acc: seq<Id>, direct: seq<Id>, k: nat, fuel: nat)
    requires IncludeRanked(g, irank) && id in irank && fuel >= irank[id]
    requires direct == FlipKeys(g[id].includes) && k <= |direct|
    ensures ExpandFuel(g, acc, direct[k..], fuel) == Done(Expand(g, irank, id, acc, direct[k..]))
    decreases irank[id], 0, |direct| - k
  {
    if k < |direct| {
      ExpandStep(g, irank, id, acc, direct, k);
      IncludesFuelAgrees(g, irank, direct[k], fuel);
      assert direct[k..][1..] == direct[k + 1..];
      ExpandFuelAgrees(g, irank, id, KeyUnion(acc, Includes(g, irank, direct[k])), direct, k + 1, fuel);
    }
  }

  /** A template that lists itself among its includes: the recursion never returns, for any depth. */
  lemma {:induction false} SelfIncludeNeverReturns(g: Graph, id: Id, fuel: nat)
    requires id in g && g[id].includes == [id]
    ensures IncludesFuel(g, id, fuel) == Unfinished
    decreases fuel
  {
    if fuel > 0 {
      var direct := FlipKeys(g[id].includes);
      assert direct == [id] by {
        FlipKeysOfUnique(g[id].includes);
      }
      SelfIncludeNeverReturns(g, id, fuel - 1);
    }
  }

  /** Including an id that is not a template makes `loadTemplate` throw on it, at any depth. */
  lemma UnknownIncludeThrows(g: Graph, id: Id, x: Id, fuel: nat)
    requires id in g && g[id].includes == [x] && x !in g && fuel > 0
    ensures IncludesFuel(g, id, fuel) == Thrown(x)
  {
    FlipKeysOfUnique([x]);
    assert FlipKeys(g[id].includes) == [x];
    assert IncludesFuel(g, x, fuel - 1) == Thrown(x);
    assert ExpandFuel(g, [x], [x], fuel - 1) == Thrown(x);
  }

  // ---------------------------------------------------------------------------
  // Corrected, cycle-tolerant resolution
  // ---------------------------------------------------------------------------

  lemma MarkingShrinks(keys: set<Id>, visited: set<Id>, id: Id)
    requires id in keys && id !in visited
    ensures |keys - (visited + {id})| < |keys - visited|
  {
    assert keys - (visited + {id}) == (keys - visited) - {id};
  }

  /** Effective fragment that stops at an unknown or already visited id. */
  function SafeFragment(g: Graph, id: Id, visited: set<Id>): (r: string)
    ensures r == "" || Truthy(r)
    decreases |g.Keys - visited|
  {
    if id !in g || id in visited then ""
    else if Truthy(g[id].query) then g[id].query
    else if HasParent(g[id]) then
      MarkingShrinks(g.Keys, visited, id);
      SafeFragment(g, g[id].parent, visited + {id})
    else ""
  }

  /** The ids of `ids` that `loadTemplate` can find, in order. */
  function Known(g: Graph, ids: seq<Id>): (r: seq<Id>)
    ensures forall x :: x in r <==> x in ids && x in g
    ensures NoDup(ids) ==> NoDup(r)
    ensures (forall x :: x in ids ==> x in g) ==> r == ids
  {
    if ids == [] then []
    else if ids[0] in g then [ids[0]] + Known(g, ids[1..])
    else Known(g, ids[1..])
  }

  /**
   * Transitive includes with the ids on the current recursion path in `stack`:
   * an include already on the path is listed but not expanded again.
   */
  function SafeIncludes(g: Graph, id: Id, stack: set<Id>): (r: seq<Id>)
    requires id in g
    ensures NoDup(r)
    ensures forall x :: x in r ==> x in g
    decreases |g.Keys - stack|, 1
  {
    var direct := Known(g, FlipKeys(g[id].includes));
    SafeExpand(g, id, stack, direct, direct)
  }

  function SafeExpand(g: Graph, id: Id, stack: set<Id>, acc: seq<Id>, rest: seq<Id>): (r: seq<Id>)
    requires id in g
    ensures NoDup(acc) ==> NoDup(r)
    ensures (forall x :: x in acc ==> x in g) ==> forall x :: x in r ==> x in g
    ensures |r| >= |acc| && r[..|acc|] == acc
    decreases |g.Keys - stack|, 0, |rest|
  {
    if rest == [] then acc
    else if rest[0] !in g || rest[0] in stack then SafeExpand(g, id, stack, acc, rest[1..])
    else
      MarkingShrinks(g.Keys, stack, rest[0]);
      SafeExpand(g, id, stack, KeyUnion(acc, SafeIncludes(g, rest[0], stack + {rest[0]})), rest[1..])
  }

  /**
   * Where a parent measure exists the visited set never fires: the corrected
   * fragment is the as-written one.
   */
  lemma {:induction false} SafeFragmentAgrees(g: Graph, prank: map<Id, nat>, id: Id, visited: set<Id>)
    requires ParentRanked(g, prank) && id in prank
    requires forall v :: v in visited && v in prank ==> prank[v] > prank[id]
    ensures SafeFragment(g, id, visited) == Fragment(g, prank, id)
    decreases prank[id]
  {
    if FallsBack(g[id]) {
      SafeFragmentAgrees(g, prank, g[id].parent, visited + {id});
    }
  }

  /**
   * Where an include measure exists, and every id on the stack ranks at least
   * as high as `id`, the corrected include list is the as-written one.
   */
  lemma {:induction false} SafeIncludesAgree(g: Graph, irank: map<Id, nat>, id: Id, stack: set<Id>)
    requires IncludeRanked(g, irank) && id in irank
    requires forall v :: v in stack && v in irank ==> irank[v] >= irank[id]
    ensures SafeIncludes(g, id, stack) == Includes(g, irank, id)
    decreases irank[id], 1
  {
    var direct := FlipKeys(g[id].includes);
    assert Known(g, direct) == direct;
    SafeExpandAgrees(g, irank, id, stack, direct, direct);
  }

  lemma {:induction false} SafeExpandAgrees(g: Graph, irank: map<Id, nat>, id: Id, stack: set<Id>, acc: seq<Id>, rest: seq<Id>)
    requires IncludeRanked(g, irank) && id in irank
    requires forall x :: x in rest ==> x in g[id].includes
    requires forall v :: v in stack && v in irank ==> irank[v] >= irank[id]
    ensures SafeExpand(g, id, stack, acc, rest) == Expand(g, irank, id, acc, rest)
    decreases irank[id], 0, |rest|
  {
    if rest != [] {
      var x := rest[0];
      assert x in g && x in irank && irank[x] < irank[id];
      assert x !in stack;
      SafeIncludesAgree(g, irank, x, stack + {x});
      SafeExpandAgrees(g, irank, id, stack, KeyUnion(acc, Includes(g, irank, x)), rest[1..]);
    }
  }

  /** Effective fragments of known ids, each resolved from an empty visited set. */
  function SafeFragments(g: Graph, ids: seq<Id>): (r: seq<string>)
    ensures |r| == |ids|
    ensures forall k :: 0 <= k < |ids| ==> r[k] == SafeFragment(g, ids[k], {})
  {
    if ids == [] then [] else [SafeFragment(g, ids[0], {})] + SafeFragments(g, ids[1..])
  }

  /** Include ids a template composes: its own, then its parent's that are not present yet. */
  function ComposedIds(g: Graph, id: Id): (r: seq<Id>)
    requires id in g
    ensures NoDup(r)
  {
    var parent := g[id].parent;
    var inherited := if HasParent(g[id]) && parent in g then SafeIncludes(g, parent, {parent}) else [];
    KeyUnion(SafeIncludes(g, id, {id}), inherited)
  }

  /**
   * The composed query, corrected: own effective fragment first, then the
   * effective fragment of every own or inherited include id, newline-joined.
   * An unknown id contributes nothing and each include id is expanded once.
   * The own effective fragment always comes first.
   */
  function SafeQuery(g: Graph, id: Id): (r: string)
    requires id in g
    ensures var f := SafeFragment(g, id, {}); |r| >= |f| && r[..|f|] == f
  {
    Implode("\n", [SafeFragment(g, id, {})] + SafeFragments(g, ComposedIds(g, id)))
  }

  /** Every include id, own or inherited, contributes its effective fragment exactly once. */
  lemma SafeQueryNoRepeatedSource(g: Graph, id: Id)
    requires id in g
    ensures NoDup(ComposedIds(g, id))
    ensures forall x :: x in ComposedIds(g, id) ==> x in g
  {
    var parent := g[id].parent;
    var inherited := if HasParent(g[id]) && parent in g then SafeIncludes(g, parent, {parent}) else [];
    assert forall x :: x in inherited ==> x in g;
  }

  /** Fragments of included ids agree wherever a parent measure covers them. */
  lemma SafeFragmentsAgree(g: Graph, prank: map<Id, nat>, ids: seq<Id>)
    requires ParentRanked(g, prank) && forall x :: x in ids ==> x in prank
    ensures SafeFragments(g, ids) == FragmentsOf(g, prank, ids)
  {
    forall k | 0 <= k < |ids| ensures SafeFragments(g, ids)[k] == FragmentsOf(g, prank, ids)[k] {
      SafeFragmentAgrees(g, prank, ids[k], {});
    }
  }

  /** Where the as-written query was right (no parent, and it returns), the corrected one agrees. */
  lemma SafeQueryAgreesWithoutParent(g: Graph, prank: map<Id, nat>, irank: map<Id, nat>, id: Id)
    requires QueryRanked(g, prank, irank, id) && !HasParent(g[id])
    ensures Query(g, prank, irank, id) == Ok(SafeQuery(g, id))
  {
    SafeIncludesAgree(g, irank, id, {id});
    SafeFragmentAgrees(g, prank, id, {});
    var ids := Includes(g, irank, id);
    assert KeyUnion(ids, []) == ids;
    SafeFragmentsAgree(g, prank, ids);
  }

  /**
   * With a parent, the corrected query composes the own fragment with the
   * fragments of the own include ids followed by the parent's include ids
   * not already present.
   */
  lemma SafeQueryInheritsParentIncludes(g: Graph, prank: map<Id, nat>, irank: map<Id, nat>, id: Id)
    requires QueryRanked(g, prank, irank, id) && HasParent(g[id]) && g[id].parent in irank
    requires forall x :: x in Includes(g, irank, g[id].parent) ==> x in prank
    ensures var ids := KeyUnion(Includes(g, irank, id), Includes(g, irank, g[id].parent));
      SafeQuery(g, id) == Implode("\n", [Fragment(g, prank, id)] + FragmentsOf(g, prank, ids))
  {
    var p := g[id].parent;
    SafeIncludesAgree(g, irank, id, {id});
    SafeIncludesAgree(g, irank, p, {p});
    SafeFragmentAgrees(g, prank, id, {});
    var ids := KeyUnion(Includes(g, irank, id), Includes(g, irank, p));
    assert ComposedIds(g, id) == ids;
    SafeFragmentsAgree(g, prank, ids);
  }
}
