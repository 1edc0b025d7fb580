/**
 * GraphQLTwigBlockDeriver: one block plugin derivative per block that a
 * theme declares in its info file. The derivative's own entries (label, theme
 * hook, parameters) take precedence over the base plugin definition's.
 *
 * The themes' info arrays, as the theme handler lists them, are an input;
 * `t()` is the `Translated` marker.
 */
module BlockDeriver {
  import opened Php
  import BlockPlugin

  /** The entries a derivative sets itself, ahead of the base definition. */
  const OwnKeys: seq<string> := ["admin_label", "graphql_theme_hook", "graphql_parameters"]

  /** `$block['parameters'] ?: []`. */
  function Parameters(block: Value): (r: Value)
    ensures !Falsy(r) || r == Arr([])
    ensures !Falsy(Get(block, "parameters")) ==> r == Get(block, "parameters")
  {
    var p := Get(block, "parameters");
    if Falsy(p) then Arr([]) else p
  }

  /** The derivative's own entries. */
  function Own(name: string, block: Value): (r: Assoc<Value>)
    ensures ValidAssoc(r) && r.keys == OwnKeys
  {
    Assoc(OwnKeys, map[
      "admin_label" := Translated(Get(block, "label")),
      "graphql_theme_hook" := Str(name),
      "graphql_parameters" := Parameters(block)])
  }

  /** The derivative for the declaration `name => block`: its own entries `+` the base definition. */
  function Derivative(name: string, block: Value, base: Assoc<Value>): (r: Assoc<Value>)
    requires ValidAssoc(base)
    ensures ValidAssoc(r)
  {
    AssocUnion(Own(name, block), base)
  }

  /** A theme's block declarations: none unless its info sets `blocks`. */
  function Declarations(info: Value): seq<(string, Value)> {
    if IsSetIn(info, "blocks") && Get(info, "blocks").Arr? then Get(info, "blocks").entries else []
  }

  /** The writes `$this->derivatives[$name] = ...` for one theme's declarations, in order. */
  function ThemeDerivatives(decls: seq<(string, Value)>, base: Assoc<Value>): (r: seq<(string, Assoc<Value>)>)
    requires ValidAssoc(base)
    ensures |r| == |decls| && forall i :: 0 <= i < |decls| ==> r[i].0 == decls[i].0
  {
    if decls == [] then []
    else
      var d := decls[|decls| - 1];
      ThemeDerivatives(decls[..|decls| - 1], base) + [(d.0, Derivative(d.0, d.1, base))]
  }

  /** The write for a declaration is its derivative, under the block's name. */
  lemma {:induction false} ThemeDerivativeAt(decls: seq<(string, Value)>, base: Assoc<Value>, i: nat)
    requires ValidAssoc(base) && i < |decls|
    ensures ThemeDerivatives(decls, base)[i] == (decls[i].0, Derivative(decls[i].0, decls[i].1, base))
    decreases |decls|
  {
    if i < |decls| - 1 {
      ThemeDerivativeAt(decls[..|decls| - 1], base, i);
    }
  }

  /** The writes for all themes, theme by theme. */
  function AllDerivatives(themes: seq<Value>, base: Assoc<Value>): (r: seq<(string, Assoc<Value>)>)
    requires ValidAssoc(base)
  {
    if themes == [] then []
    else AllDerivatives(themes[..|themes| - 1], base) + ThemeDerivatives(Declarations(themes[|themes| - 1]), base)
  }

  /** DeriverBase with the `derivatives` field this deriver fills. */
  class Deriver {
    /** `$this->derivatives`: derivative id to plugin definition. */
    var derivatives: Assoc<Assoc<Value>>

    constructor()
      ensures derivatives == EmptyAssoc()
    {
      derivatives := EmptyAssoc();
    }

    /** The inner loop over one theme's block declarations. */
    method AddThemeBlocks(decls: seq<(string, Value)>, base: Assoc<Value>)
      requires ValidAssoc(derivatives) && ValidAssoc(base)
      modifies this
      ensures ValidAssoc(derivatives)
      ensures derivatives == PutAll(old(derivatives), ThemeDerivatives(decls, base))
    {
      for j := 0 to |decls|
        invariant ValidAssoc(derivatives)
        invariant derivatives == PutAll(old(derivatives), ThemeDerivatives(decls[..j], base))
      {
        assert decls[..j + 1][..j] == decls[..j];
        var name := decls[j].0;
        derivatives := Put(derivatives, name, Derivative(name, decls[j].1, base));
      }
      assert decls[..|decls|] == decls;
    }

    /**
     * `getDerivativeDefinitions`: writes every declared block into the field,
     * on top of what earlier calls wrote, and returns the field.
     */
    method GetDerivativeDefinitions(themes: seq<Value>, base: Assoc<Value>) returns (r: Assoc<Assoc<Value>>)
      requires ValidAssoc(derivatives) && ValidAssoc(base)
      modifies this
      ensures ValidAssoc(derivatives)
      ensures derivatives == PutAll(old(derivatives), AllDerivatives(themes, base)) && r == derivatives
    {
      for i := 0 to |themes|
        invariant ValidAssoc(derivatives)
        invariant derivatives == PutAll(old(derivatives), AllDerivatives(themes[..i], base))
      {
        assert themes[..i + 1][..i] == themes[..i];
        var info := themes[i];
        if IsSetIn(info, "blocks") {
          var declared := Get(info, "blocks");
          if declared.Arr? {
            AddThemeBlocks(declared.entries, base);
          }
        }
        PutAllAppend(old(derivatives), AllDerivatives(themes[..i], base), ThemeDerivatives(Declarations(info), base));
      }
      assert themes[..|themes|] == themes;
      return derivatives;
    }
  }

  // ---------------------------------------------------------------------------
  // Properties
  // ---------------------------------------------------------------------------

  /** Falsy parameters become the empty array; any other value is kept verbatim. */
  lemma ParametersDefault(block: Value)
    ensures Falsy(Get(block, "parameters")) ==> Parameters(block) == Arr([])
    ensures !Falsy(Get(block, "parameters")) ==> Parameters(block) == Get(block, "parameters")
  {
  }

  /**
   * A derivative starts with its own three entries and then has the base
   * definition's other keys in their order.
   */
  lemma DerivativeKeys(name: string, block: Value, base: Assoc<Value>)
    requires ValidAssoc(base)
    ensures Derivative(name, block, base).keys == KeyUnion(OwnKeys, base.keys)
    ensures Derivative(name, block, base).keys[..3] == OwnKeys
  {
  }

  /** The derivative's own entries win over the base definition's. */
  lemma DerivativeOverridesBase(name: string, block: Value, base: Assoc<Value>)
    requires ValidAssoc(base)
    ensures var d := Derivative(name, block, base).values;
      "admin_label" in d && d["admin_label"] == Translated(Get(block, "label")) &&
      "graphql_theme_hook" in d && d["graphql_theme_hook"] == Str(name) &&
      "graphql_parameters" in d && d["graphql_parameters"] == Parameters(block)
  {
    var own := Own(name, block);
    assert "admin_label" in own.values && "graphql_theme_hook" in own.values && "graphql_parameters" in own.values;
  }

  /** Every other entry of the base definition is kept unchanged. */
  lemma DerivativeKeepsBase(name: string, block: Value, base: Assoc<Value>, k: string)
    requires ValidAssoc(base) && k in base.values && k !in OwnKeys
    ensures k in Derivative(name, block, base).values && Derivative(name, block, base).values[k] == base.values[k]
  {
    assert k !in Own(name, block).values;
  }

  /** A derivative has the three own keys and the base definition's keys, and no others. */
  lemma DerivativeMembers(name: string, block: Value, base: Assoc<Value>, k: string)
    requires ValidAssoc(base)
    ensures k in Derivative(name, block, base).values <==> k in OwnKeys || k in base.values
  {
    assert k in Own(name, block).values <==> k in OwnKeys;
  }

  /** A theme without `blocks` contributes nothing. */
  lemma ThemeWithoutBlocks(start: Assoc<Assoc<Value>>, themes: seq<Value>, info: Value, base: Assoc<Value>)
    requires ValidAssoc(start) && ValidAssoc(base) && !IsSetIn(info, "blocks")
    ensures PutAll(start, AllDerivatives(themes + [info], base)) == PutAll(start, AllDerivatives(themes, base))
  {
    assert (themes + [info])[..|themes|] == themes;
    assert Declarations(info) == [];
    var none := ThemeDerivatives(Declarations(info), base);
    assert none == [];
    assert AllDerivatives(themes + [info], base) == AllDerivatives(themes, base) + none;
    assert AllDerivatives(themes, base) + none == AllDerivatives(themes, base);
  }

  /** Within one theme, the last declaration of a block name is the derivative written for it. */
  lemma ThemeLastWins(start: Assoc<Assoc<Value>>, decls: seq<(string, Value)>, base: Assoc<Value>, j: nat)
    requires ValidAssoc(start) && ValidAssoc(base)
    requires j < |decls| && forall l :: j < l < |decls| ==> decls[l].0 != decls[j].0
    ensures var r := PutAll(start, ThemeDerivatives(decls, base));
      decls[j].0 in r.values && r.values[decls[j].0] == Derivative(decls[j].0, decls[j].1, base)
  {
    var writes := ThemeDerivatives(decls, base);
    assert forall l :: j < l < |writes| ==> writes[l].0 != writes[j].0;
    PutAllLast(start, writes, j);
    ThemeDerivativeAt(decls, base, j);
  }

  /** A later theme declaring block `name` replaces an earlier derivative of that name. */
  lemma LaterThemeWins(start: Assoc<Assoc<Value>>, themes: seq<Value>, info: Value, base: Assoc<Value>, j: nat)
    requires ValidAssoc(start) && ValidAssoc(base)
    requires j < |Declarations(info)|
    requires forall l :: j < l < |Declarations(info)| ==> Declarations(info)[l].0 != Declarations(info)[j].0
    ensures var d := Declarations(info)[j];
      var r := PutAll(start, AllDerivatives(themes + [info], base));
      d.0 in r.values && r.values[d.0] == Derivative(d.0, d.1, base)
  {
    var decls := Declarations(info);
    assert (themes + [info])[..|themes|] == themes;
    PutAllAppend(start, AllDerivatives(themes, base), ThemeDerivatives(decls, base));
    ThemeLastWins(PutAll(start, AllDerivatives(themes, base)), decls, base, j);
  }

  /** A derivative that a later theme does not declare is kept. */
  lemma UndeclaredBlockKept(start: Assoc<Assoc<Value>>, themes: seq<Value>, info: Value, base: Assoc<Value>, name: string)
    requires ValidAssoc(start) && ValidAssoc(base)
    requires name in PutAll(start, AllDerivatives(themes, base)).values
    requires forall l :: 0 <= l < |Declarations(info)| ==> Declarations(info)[l].0 != name
    ensures var r := PutAll(start, AllDerivatives(themes + [info], base));
      name in r.values && r.values[name] == PutAll(start, AllDerivatives(themes, base)).values[name]
  {
    var decls := Declarations(info);
    assert (themes + [info])[..|themes|] == themes;
    PutAllAppend(start, AllDerivatives(themes, base), ThemeDerivatives(decls, base));
    PutAllAbsent(PutAll(start, AllDerivatives(themes, base)), ThemeDerivatives(decls, base), name);
  }

  /** Every derivative written is keyed by its block name, which is also its theme hook. */
  lemma {:induction false} DerivativesKeyedByHook(themes: seq<Value>, base: Assoc<Value>, i: nat)
    requires ValidAssoc(base) && i < |AllDerivatives(themes, base)|
    ensures var e := AllDerivatives(themes, base)[i];
      "graphql_theme_hook" in e.1.values && e.1.values["graphql_theme_hook"] == Str(e.0)
    decreases |themes|
  {
    var init := themes[..|themes| - 1];
    var n := |AllDerivatives(init, base)|;
    if i < n {
      DerivativesKeyedByHook(init, base, i);
    } else {
      var decls := Declarations(themes[|themes| - 1]);
      var d := decls[i - n];
      ThemeDerivativeAt(decls, base, i - n);
      DerivativeOverridesBase(d.0, d.1, base);
    }
  }

  /**
   * Starting from an empty field, every derivative's `graphql_theme_hook` is
   * the name it is stored under.
   */
  lemma FreshDerivativesKeyedByHook(themes: seq<Value>, base: Assoc<Value>, k: string)
    requires ValidAssoc(base) && k in PutAll(EmptyAssoc(), AllDerivatives(themes, base)).values
    ensures var d := PutAll(EmptyAssoc(), AllDerivatives(themes, base)).values[k];
      "graphql_theme_hook" in d.values && d.values["graphql_theme_hook"] == Str(k)
  {
    PutAllFrom(EmptyAssoc(), AllDerivatives(themes, base), k);
    var i :| 0 <= i < |AllDerivatives(themes, base)| && AllDerivatives(themes, base)[i].0 == k &&
      AllDerivatives(themes, base)[i].1 == PutAll(EmptyAssoc(), AllDerivatives(themes, base)).values[k];
    DerivativesKeyedByHook(themes, base, i);
  }

  /** The block plugin reads its theme hook and parameters from its definition. */
  function PluginDefinition(derivative: Assoc<Value>): BlockPlugin.Definition {
    BlockPlugin.Definition(
      if "graphql_theme_hook" in derivative.values then derivative.values["graphql_theme_hook"] else Null,
      if "graphql_parameters" in derivative.values then derivative.values["graphql_parameters"] else Null)
  }

  /**
   * A block built from a derivative renders the block's name as theme hook
   * and offers the declared parameters, whatever the base definition holds.
   */
  lemma DerivedBlockDefinition(name: string, block: Value, base: Assoc<Value>)
    requires ValidAssoc(base)
    ensures PluginDefinition(Derivative(name, block, base)) == BlockPlugin.Definition(Str(name), Parameters(block))
  {
    DerivativeOverridesBase(name, block, base);
  }
}
