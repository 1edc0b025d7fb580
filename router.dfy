/**
 * GraphQLTwigRouter: the dynamic routes that themes declare in their info
 * files. Each route `N` of a theme becomes the route
 * `graphql_twig.dynamic.N`, served by the route controller with `N` as the
 * theme hook to render.
 *
 * The themes' info arrays, as the theme handler lists them, are an input.
 */
module Router {
  import opened Php

  const RoutePrefix: string := "graphql_twig.dynamic."
  const PageController: string := "Drupal\\graphql_twig\\Controller\\RouteController:page"
  const TitleController: string := "Drupal\\graphql_twig\\Controller\\RouteController:title"

  /** The requirements of a route that declares none: access for everybody. */
  const DefaultRequirements: Value := Arr([("_access", Str("TRUE"))])

  /** The defaults array handed to the Symfony route. */
  datatype Defaults = Defaults(controller: string, titleCallback: string, title: Value, titleQuery: Value, themeHook: string)

  /** The arguments of `new Route($path, $defaults, $requirements)`. */
  datatype Route = Route(path: Value, defaults: Defaults, requirements: Value)

  /** The route built for the declaration `name => route`. */
  function MakeRoute(name: string, route: Value): (r: Route)
    ensures WellNamed((RoutePrefix + name, r))
    ensures r.requirements == DefaultRequirements || IsSetIn(route, "requirements")
    ensures r.defaults.title == Null || IsSetIn(route, "title")
    ensures r.defaults.titleQuery == Null || IsSetIn(route, "title_query")
  {
    Route(
      Get(route, "path"),
      Defaults(PageController, TitleController,
        if IsSetIn(route, "title") then Get(route, "title") else Null,
        if IsSetIn(route, "title_query") then Get(route, "title_query") else Null,
        name),
      if IsSetIn(route, "requirements") then Get(route, "requirements") else DefaultRequirements)
  }

  /** A table entry as every route gets it: keyed by its theme hook, served by the route controller. */
  predicate WellNamed(e: (string, Route)) {
    e.0 == RoutePrefix + e.1.defaults.themeHook &&
    e.1.defaults.controller == PageController && e.1.defaults.titleCallback == TitleController
  }

  /** The table writes for one theme's route declarations, in order. */
  function RouteList(decls: seq<(string, Value)>): (r: seq<(string, Route)>)
    ensures |r| == |decls|
    ensures forall i :: 0 <= i < |decls| ==> r[i] == (RoutePrefix + decls[i].0, MakeRoute(decls[i].0, decls[i].1))
  {
    if decls == [] then []
    else
      var d := decls[|decls| - 1];
      RouteList(decls[..|decls| - 1]) + [(RoutePrefix + d.0, MakeRoute(d.0, d.1))]
  }

  /** A theme's route declarations: none unless its info sets `routes`. */
  function Declarations(info: Value): seq<(string, Value)> {
    if IsSetIn(info, "routes") && Get(info, "routes").Arr? then Get(info, "routes").entries else []
  }

  /** The table writes for all themes, theme by theme. */
  function AllRoutes(themes: seq<Value>): (r: seq<(string, Route)>)
    ensures forall i :: 0 <= i < |r| ==> WellNamed(r[i])
  {
    if themes == [] then []
    else AllRoutes(themes[..|themes| - 1]) + RouteList(Declarations(themes[|themes| - 1]))
  }

  /** The route table `routes` returns. */
  function RouteTable(themes: seq<Value>): (r: Assoc<Route>)
    ensures ValidAssoc(r)
  {
    PutAll(EmptyAssoc(), AllRoutes(themes))
  }

  /** The inner loop over one theme's declarations. */
  method AddThemeRoutes(table: Assoc<Route>, decls: seq<(string, Value)>) returns (r: Assoc<Route>)
    requires ValidAssoc(table)
    ensures r == PutAll(table, RouteList(decls))
  {
    r := table;
    for j := 0 to |decls|
      invariant ValidAssoc(r)
      invariant r == PutAll(table, RouteList(decls[..j]))
    {
      assert decls[..j + 1][..j] == decls[..j];
      var name := decls[j].0;
      r := Put(r, RoutePrefix + name, MakeRoute(name, decls[j].1));
    }
    assert decls[..|decls|] == decls;
  }

  /** `routes`: the table over all themes' declarations. */
  method Routes(themes: seq<Value>) returns (routes: Assoc<Route>)
    ensures routes == RouteTable(themes)
  {
    routes := EmptyAssoc();
    for i := 0 to |themes|
      invariant ValidAssoc(routes)
      invariant routes == RouteTable(themes[..i])
    {
      assert themes[..i + 1][..i] == themes[..i];
      var info := themes[i];
      if IsSetIn(info, "routes") {
        var declared := Get(info, "routes");
        if declared.Arr? {
          routes := AddThemeRoutes(routes, declared.entries);
        }
      }
      PutAllAppend(EmptyAssoc(), AllRoutes(themes[..i]), RouteList(Declarations(info)));
    }
    assert themes[..|themes|] == themes;
  }

  // ---------------------------------------------------------------------------
  // Properties
  // ---------------------------------------------------------------------------

  /** Two route names give the same table key only if they are the same name. */
  lemma PrefixKeys(a: string, b: string)
    ensures RoutePrefix + a == RoutePrefix + b <==> a == b
  {
    if RoutePrefix + a == RoutePrefix + b {
      assert a == (RoutePrefix + a)[|RoutePrefix|..];
      assert b == (RoutePrefix + b)[|RoutePrefix|..];
    }
  }

  /**
   * Every route of the table is keyed `graphql_twig.dynamic.` plus its theme
   * hook and is served by the route controller's `page` and `title`.
   */
  lemma RoutesWellNamed(themes: seq<Value>, k: string)
    requires k in RouteTable(themes).values
    ensures WellNamed((k, RouteTable(themes).values[k]))
  {
    PutAllFrom(EmptyAssoc(), AllRoutes(themes), k);
  }

  /** The title and title query are the declared ones, null when not declared. */
  lemma RouteTitles(name: string, route: Value)
    ensures MakeRoute(name, route).defaults.title == Get(route, "title")
    ensures MakeRoute(name, route).defaults.titleQuery == Get(route, "title_query")
  {
  }

  /** Requirements are passed through when declared and default to open access otherwise. */
  lemma RouteRequirements(name: string, route: Value)
    ensures !IsSetIn(route, "requirements") ==>
      MakeRoute(name, route).requirements == Arr([("_access", Str("TRUE"))])
    ensures IsSetIn(route, "requirements") ==>
      MakeRoute(name, route).requirements == Get(route, "requirements")
  {
  }

  /** Processing themes in two runs is processing them in one. */
  lemma RouteTableAppend(themes: seq<Value>, info: Value)
    ensures RouteTable(themes + [info]) == PutAll(RouteTable(themes), RouteList(Declarations(info)))
  {
    assert (themes + [info])[..|themes|] == themes;
    PutAllAppend(EmptyAssoc(), AllRoutes(themes), RouteList(Declarations(info)));
  }

  /** A theme without `routes` contributes nothing. */
  lemma ThemeWithoutRoutes(themes: seq<Value>, info: Value)
    requires !IsSetIn(info, "routes")
    ensures RouteTable(themes + [info]) == RouteTable(themes)
  {
    RouteTableAppend(themes, info);
  }

  /**
   * A later theme declaring the route name `N` replaces whatever an earlier
   * theme declared under it: the table holds the later declaration's route.
   */
  lemma LaterThemeWins(themes: seq<Value>, info: Value, j: nat)
    requires j < |Declarations(info)|
    requires forall l :: j < l < |Declarations(info)| ==> Declarations(info)[l].0 != Declarations(info)[j].0
    ensures var d := Declarations(info)[j];
      RoutePrefix + d.0 in RouteTable(themes + [info]).values &&
      RouteTable(themes + [info]).values[RoutePrefix + d.0] == MakeRoute(d.0, d.1)
  {
    RouteTableAppend(themes, info);
    ThemeLastWins(RouteTable(themes), Declarations(info), j);
  }

  /** Within one theme, the last declaration of a route name is the route written for it. */
  lemma ThemeLastWins(start: Assoc<Route>, decls: seq<(string, Value)>, j: nat)
    requires ValidAssoc(start)
    requires j < |decls| && forall l :: j < l < |decls| ==> decls[l].0 != decls[j].0
    ensures var r := PutAll(start, RouteList(decls));
      RoutePrefix + decls[j].0 in r.values && r.values[RoutePrefix + decls[j].0] == MakeRoute(decls[j].0, decls[j].1)
  {
    forall l | j < l < |decls| ensures RouteList(decls)[l].0 != RouteList(decls)[j].0 {
      PrefixKeys(decls[l].0, decls[j].0);
    }
    PutAllLast(start, RouteList(decls), j);
  }

  /** A route that a later theme does not declare keeps its earlier definition. */
  lemma UndeclaredRouteKept(themes: seq<Value>, info: Value, name: string)
    requires RoutePrefix + name in RouteTable(themes).values
    requires forall l :: 0 <= l < |Declarations(info)| ==> Declarations(info)[l].0 != name
    ensures RoutePrefix + name in RouteTable(themes + [info]).values
    ensures RouteTable(themes + [info]).values[RoutePrefix + name] == RouteTable(themes).values[RoutePrefix + name]
  {
    var decls := Declarations(info);
    RouteTableAppend(themes, info);
    forall l | 0 <= l < |decls| ensures RouteList(decls)[l].0 != RoutePrefix + name {
      PrefixKeys(decls[l].0, name);
    }
    PutAllAbsent(RouteTable(themes), RouteList(decls), RoutePrefix + name);
  }
}
