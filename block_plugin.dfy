/**
 * GraphQLTwigBlock: a block plugin whose block renders a GraphQL-enabled
 * theme hook. Its configuration holds a list of `{key, value}` arguments;
 * the block form offers one element per parameter the plugin definition
 * declares, submitting the form appends the entered values, and building the
 * block turns the list into an argument map.
 */
module BlockPlugin {
  import opened Php

  /** One `{key, value}` entry of the `graphql_block` configuration list. */
  datatype Arg = Arg(key: string, value: Value)

  /** The plugin definition's `graphql_theme_hook` and `graphql_parameters` entries. */
  datatype Definition = Definition(themeHook: Value, parameters: Value)

  /** The render array `build` returns: `#theme` and `#graphql_arguments`. */
  datatype Render = Render(theme: Value, arguments: Assoc<Value>)

  /** A block form element: its `#`-prefixed attributes (their order is not kept). */
  type Element = map<string, Value>

  /** The `graphql_block` part of the form: one element per parameter name. */
  type Form = Assoc<Element>

  /** The entries a `foreach` visits: an array's entries; any other value has none. */
  function Entries(v: Value): (r: seq<(string, Value)>)
    ensures v.Arr? ==> r == v.entries
    ensures !v.Arr? ==> r == []
  {
    if v.Arr? then v.entries else []
  }

  /** `array_keys` of the declared parameters, in declaration order. */
  function ParameterNames(parameters: Value): (r: seq<string>)
    ensures r == KeysOf(Entries(parameters))
  {
    KeysOf(Entries(parameters))
  }

  // ---------------------------------------------------------------------------
  // build
  // ---------------------------------------------------------------------------

  /** The configuration list as key/value pairs. */
  function ArgPairs(args: seq<Arg>): (r: seq<(string, Value)>)
    ensures |r| == |args| && forall i :: 0 <= i < |args| ==> r[i] == (args[i].key, args[i].value)
  {
    if args == [] then [] else ArgPairs(args[..|args| - 1]) + [(args[|args| - 1].key, args[|args| - 1].value)]
  }

  /** `$arguments[$arg['key']] = $arg['value']` for each entry in turn. */
  function Arguments(args: seq<Arg>): (r: Assoc<Value>)
    ensures ValidAssoc(r)
  {
    PutAll(EmptyAssoc(), ArgPairs(args))
  }

  /** The argument map has each distinct key once, in order of first appearance. */
  lemma ArgumentsKeys(args: seq<Arg>)
    ensures Arguments(args).keys == FlipKeys(KeysOf(ArgPairs(args)))
  {
    PutAllKeys(EmptyAssoc(), ArgPairs(args));
  }

  /** A later entry for the same key overwrites an earlier one. */
  lemma ArgumentsLastWins(args: seq<Arg>, i: nat)
    requires i < |args|
    requires forall j :: i < j < |args| ==> args[j].key != args[i].key
    ensures args[i].key in Arguments(args).values
    ensures Arguments(args).values[args[i].key] == args[i].value
  {
    PutAllLast(EmptyAssoc(), ArgPairs(args), i);
  }

  /** A key no entry names has no argument. */
  lemma ArgumentsMissing(args: seq<Arg>, k: string)
    requires forall j :: 0 <= j < |args| ==> args[j].key != k
    ensures k !in Arguments(args).values
  {
    PutAllAbsent(EmptyAssoc(), ArgPairs(args), k);
  }

  // ---------------------------------------------------------------------------
  // blockSubmit
  // ---------------------------------------------------------------------------

  /**
   * The entries `blockSubmit` appends: one per declared parameter, in order,
   * with the submitted value, or null when the form state lacks it.
   */
  function Submitted(names: seq<string>, values: map<string, Value>): (r: seq<Arg>)
    ensures |r| == |names|
    ensures forall i :: 0 <= i < |names| ==>
      r[i] == Arg(names[i], if names[i] in values then values[names[i]] else Null)
  {
    if names == [] then []
    else
      var n := names[|names| - 1];
      Submitted(names[..|names| - 1], values) + [Arg(n, if n in values then values[n] else Null)]
  }

  /**
   * After a submission the built arguments hold every submitted value,
   * whatever the list held before, since the new entries come last.
   */
  lemma SubmittedValuesWin(earlier: seq<Arg>, names: seq<string>, values: map<string, Value>, i: nat)
    requires NoDup(names) && i < |names|
    ensures var args := earlier + Submitted(names, values);
      names[i] in Arguments(args).values &&
      Arguments(args).values[names[i]] == if names[i] in values then values[names[i]] else Null
  {
    var args := earlier + Submitted(names, values);
    var k := |earlier| + i;
    assert args[k] == Submitted(names, values)[i];
    forall j | k < j < |args| ensures args[j].key != args[k].key {
      assert args[j] == Submitted(names, values)[j - |earlier|];
    }
    ArgumentsLastWins(args, k);
  }

  // ---------------------------------------------------------------------------
  // blockForm
  // ---------------------------------------------------------------------------

  function EmptyForm(): (r: Form)
    ensures ValidAssoc(r) && r.keys == [] && r.values == map[]
  {
    EmptyAssoc()
  }

  /** The element of a name so far; a name not yet written has an empty one. */
  function ElementAt(f: Form, name: string): Element {
    if name in f.values then f.values[name] else map[]
  }

  /** `title` and `description` are translated; any other attribute is copied as is. */
  function AttributeValue(key: string, value: Value): Value {
    if key == "title" || key == "description" then Translated(value) else value
  }

  /** `#default_value`: the stored argument if it is set, otherwise the empty string. */
  function DefaultValue(arguments: Assoc<Value>, name: string): Value {
    if IsSet(arguments, name) then arguments.values[name] else Str("")
  }

  /**
   * One turn of the inner loop: the attribute under its `#`-prefixed key,
   * then the default value, both written into the parameter's element.
   */
  function WriteAttribute(f: Form, name: string, a: (string, Value), default: Value): (r: Form)
    requires ValidAssoc(f)
    ensures ValidAssoc(r)
    ensures r.values == f.values[name := ElementAt(f, name)["#" + a.0 := AttributeValue(a.0, a.1)]["#default_value" := default]]
  {
    Put(f, name, ElementAt(f, name)["#" + a.0 := AttributeValue(a.0, a.1)]["#default_value" := default])
  }

  /** The inner loop for one parameter, over its attributes in order. */
  function WriteElement(f: Form, name: string, attrs: seq<(string, Value)>, default: Value): (r: Form)
    requires ValidAssoc(f)
    ensures ValidAssoc(r)
    decreases |attrs|
  {
    if attrs == [] then f
    else WriteAttribute(WriteElement(f, name, attrs[..|attrs| - 1], default), name, attrs[|attrs| - 1], default)
  }

  /** The outer loop: one inner loop per declared parameter, in declaration order. */
  function WriteForm(f: Form, params: seq<(string, Value)>, arguments: Assoc<Value>): (r: Form)
    requires ValidAssoc(f)
    ensures ValidAssoc(r)
    decreases |params|
  {
    if params == [] then f
    else
      var p := params[|params| - 1];
      WriteElement(WriteForm(f, params[..|params| - 1], arguments), p.0, Entries(p.1), DefaultValue(arguments, p.0))
  }

  /** The `graphql_block` part of the form `blockForm` returns. */
  function BlockFormOf(d: Definition, args: seq<Arg>): (r: Form)
    ensures ValidAssoc(r)
  {
    WriteForm(EmptyForm(), Entries(d.parameters), Arguments(args))
  }

  /** The inner loop only touches its own parameter's element. */
  lemma {:induction false} WriteElementOther(f: Form, name: string, attrs: seq<(string, Value)>, default: Value, other: string)
    requires ValidAssoc(f) && other != name
    ensures other in WriteElement(f, name, attrs, default).values <==> other in f.values
    ensures other in f.values ==> WriteElement(f, name, attrs, default).values[other] == f.values[other]
    decreases |attrs|
  {
    if attrs != [] {
      WriteElementOther(f, name, attrs[..|attrs| - 1], default, other);
    }
  }

  /** The inner loop creates its element exactly when the parameter has attributes. */
  lemma {:induction false} WriteElementCreates(f: Form, name: string, attrs: seq<(string, Value)>, default: Value)
    requires ValidAssoc(f)
    ensures name in WriteElement(f, name, attrs, default).values <==> name in f.values || attrs != []
    decreases |attrs|
  {
    if attrs != [] {
      WriteElementCreates(f, name, attrs[..|attrs| - 1], default);
    }
  }

  /** The element the inner loop builds depends only on the element it starts from. */
  lemma {:induction false} WriteElementLocal(f: Form, g: Form, name: string, attrs: seq<(string, Value)>, default: Value)
    requires ValidAssoc(f) && ValidAssoc(g)
    requires ElementAt(f, name) == ElementAt(g, name)
    ensures ElementAt(WriteElement(f, name, attrs, default), name) == ElementAt(WriteElement(g, name, attrs, default), name)
    decreases |attrs|
  {
    if attrs != [] {
      WriteElementLocal(f, g, name, attrs[..|attrs| - 1], default);
    }
  }

  /** Once a parameter has an attribute its element carries the default value. */
  lemma DefaultValueWritten(f: Form, name: string, attrs: seq<(string, Value)>, default: Value)
    requires ValidAssoc(f) && attrs != []
    ensures var e := ElementAt(WriteElement(f, name, attrs, default), name);
      "#default_value" in e && e["#default_value"] == default
  {
  }

  /** `#k` and `#k'` are the same key only for the same attribute name. */
  lemma HashKeys(k: string, k': string)
    ensures "#" + k == "#" + k' <==> k == k'
  {
    if "#" + k == "#" + k' {
      assert k == ("#" + k)[1..] && k' == ("#" + k')[1..];
    }
  }

  /** Each attribute other than `default_value` lands, as its last value, under its `#` key. */
  lemma {:induction false} AttributeWritten(f: Form, name: string, attrs: seq<(string, Value)>, default: Value, i: nat)
    requires ValidAssoc(f) && i < |attrs| && attrs[i].0 != "default_value"
    requires forall j :: i < j < |attrs| ==> attrs[j].0 != attrs[i].0
    ensures var e := ElementAt(WriteElement(f, name, attrs, default), name);
      "#" + attrs[i].0 in e && e["#" + attrs[i].0] == AttributeValue(attrs[i].0, attrs[i].1)
    decreases |attrs|
  {
    HashKeys(attrs[i].0, "default_value");
    if i < |attrs| - 1 {
      AttributeWritten(f, name, attrs[..|attrs| - 1], default, i);
      HashKeys(attrs[|attrs| - 1].0, attrs[i].0);
    }
  }

  /** The `#`-prefixed keys of a parameter's attributes. */
  function AttributeKeys(attrs: seq<(string, Value)>): set<string> {
    if attrs == [] then {} else AttributeKeys(attrs[..|attrs| - 1]) + {"#" + attrs[|attrs| - 1].0}
  }

  lemma {:induction false} AttributeKeysMembers(attrs: seq<(string, Value)>, key: string)
    ensures key in AttributeKeys(attrs) <==> exists j :: 0 <= j < |attrs| && key == "#" + attrs[j].0
  {
    if attrs != [] {
      var init := attrs[..|attrs| - 1];
      AttributeKeysMembers(init, key);
      if exists j :: 0 <= j < |init| && key == "#" + init[j].0 {
        var j :| 0 <= j < |init| && key == "#" + init[j].0;
        assert attrs[j] == init[j];
      }
      if exists j :: 0 <= j < |attrs| && key == "#" + attrs[j].0 {
        var j :| 0 <= j < |attrs| && key == "#" + attrs[j].0;
        if j < |init| {
          assert init[j] == attrs[j];
        }
      }
    }
  }

  /** A fresh element holds `#default_value` and the `#`-prefixed attribute keys, nothing else. */
  lemma {:induction false} ElementKeys(f: Form, name: string, attrs: seq<(string, Value)>, default: Value)
    requires ValidAssoc(f) && name !in f.values && attrs != []
    ensures ElementAt(WriteElement(f, name, attrs, default), name).Keys == {"#default_value"} + AttributeKeys(attrs)
    decreases |attrs|
  {
    var init := attrs[..|attrs| - 1];
    var a := attrs[|attrs| - 1];
    var g := WriteElement(f, name, init, default);
    var e := ElementAt(g, name);
    assert ElementAt(WriteElement(f, name, attrs, default), name) == e["#" + a.0 := AttributeValue(a.0, a.1)]["#default_value" := default];
    if init != [] {
      ElementKeys(f, name, init, default);
    } else {
      assert e == map[];
    }
  }

  /** The keys of a fresh element, attribute by attribute. */
  lemma ElementKeyMembers(f: Form, name: string, attrs: seq<(string, Value)>, default: Value, key: string)
    requires ValidAssoc(f) && name !in f.values && attrs != []
    ensures key in ElementAt(WriteElement(f, name, attrs, default), name) <==>
      key == "#default_value" || exists j :: 0 <= j < |attrs| && key == "#" + attrs[j].0
  {
    ElementKeys(f, name, attrs, default);
    AttributeKeysMembers(attrs, key);
  }

  /** The form has an element for exactly the declared parameters that have attributes. */
  lemma {:induction false} FormNames(f: Form, params: seq<(string, Value)>, arguments: Assoc<Value>, name: string)
    requires ValidAssoc(f)
    ensures name in WriteForm(f, params, arguments).values <==>
      name in f.values || exists i :: 0 <= i < |params| && params[i].0 == name && Entries(params[i].1) != []
    decreases |params|
  {
    if params != [] {
      var init := params[..|params| - 1];
      var p := params[|params| - 1];
      FormNames(f, init, arguments, name);
      if p.0 == name {
        WriteElementCreates(WriteForm(f, init, arguments), name, Entries(p.1), DefaultValue(arguments, name));
      } else {
        WriteElementOther(WriteForm(f, init, arguments), p.0, Entries(p.1), DefaultValue(arguments, p.0), name);
      }
      DeclaredSnoc(params, name);
    }
  }

  /** A parameter with attributes is declared in `params` when it is in its front part or is its last entry. */
  lemma DeclaredSnoc(params: seq<(string, Value)>, name: string)
    requires params != []
    ensures var init, p := params[..|params| - 1], params[|params| - 1];
      (exists i :: 0 <= i < |params| && params[i].0 == name && Entries(params[i].1) != []) <==>
        (exists i :: 0 <= i < |init| && init[i].0 == name && Entries(init[i].1) != []) ||
        (p.0 == name && Entries(p.1) != [])
  {
    var init := params[..|params| - 1];
    if exists i :: 0 <= i < |init| && init[i].0 == name && Entries(init[i].1) != [] {
      var i :| 0 <= i < |init| && init[i].0 == name && Entries(init[i].1) != [];
      assert params[i] == init[i];
    }
    if exists i :: 0 <= i < |params| && params[i].0 == name && Entries(params[i].1) != [] {
      var i :| 0 <= i < |params| && params[i].0 == name && Entries(params[i].1) != [];
      if i < |init| {
        assert init[i] == params[i];
      }
    }
  }

  /**
   * A parameter declared once gets the element its own inner loop builds
   * from scratch: no other parameter's loop touches it.
   */
  lemma {:induction false} FormElement(f: Form, params: seq<(string, Value)>, arguments: Assoc<Value>, i: nat)
    requires ValidAssoc(f) && i < |params| && params[i].0 !in f.values
    requires forall j :: 0 <= j < |params| && j != i ==> params[j].0 != params[i].0
    ensures ElementAt(WriteForm(f, params, arguments), params[i].0) ==
      ElementAt(WriteElement(EmptyForm(), params[i].0, Entries(params[i].1), DefaultValue(arguments, params[i].0)), params[i].0)
    decreases |params|
  {
    var name := params[i].0;
    var init := params[..|params| - 1];
    var p := params[|params| - 1];
    if i < |params| - 1 {
      FormElement(f, init, arguments, i);
      WriteElementOther(WriteForm(f, init, arguments), p.0, Entries(p.1), DefaultValue(arguments, p.0), name);
    } else {
      FormNames(f, init, arguments, name);
      WriteElementLocal(WriteForm(f, init, arguments), EmptyForm(), name, Entries(p.1), DefaultValue(arguments, name));
    }
  }

  /** Form elements exist only for declared parameters, and for each one that has attributes. */
  lemma FormOnlyDeclared(d: Definition, args: seq<Arg>, name: string)
    ensures var params := Entries(d.parameters);
      name in BlockFormOf(d, args).values <==>
        exists i :: 0 <= i < |params| && params[i].0 == name && Entries(params[i].1) != []
  {
    FormNames(EmptyForm(), Entries(d.parameters), Arguments(args), name);
  }

  /**
   * A declared parameter's `#default_value` is its stored argument when that
   * is set, and the empty string otherwise.
   */
  lemma FormDefaultValue(d: Definition, args: seq<Arg>, i: nat)
    requires var params := Entries(d.parameters);
      i < |params| && Entries(params[i].1) != [] &&
      forall j :: 0 <= j < |params| && j != i ==> params[j].0 != params[i].0
    ensures var name := Entries(d.parameters)[i].0;
      var e := ElementAt(BlockFormOf(d, args), name);
      "#default_value" in e &&
      e["#default_value"] == if IsSet(Arguments(args), name) then Arguments(args).values[name] else Str("")
  {
    var params := Entries(d.parameters);
    var name := params[i].0;
    FormElement(EmptyForm(), params, Arguments(args), i);
    DefaultValueWritten(EmptyForm(), name, Entries(params[i].1), DefaultValue(Arguments(args), name));
  }

  /**
   * Each attribute of a declared parameter appears under its `#` key,
   * translated when it is the title or the description.
   */
  lemma FormAttribute(d: Definition, args: seq<Arg>, i: nat, k: nat)
    requires var params := Entries(d.parameters);
      i < |params| && forall j :: 0 <= j < |params| && j != i ==> params[j].0 != params[i].0
    requires var attrs := Entries(Entries(d.parameters)[i].1);
      k < |attrs| && attrs[k].0 != "default_value" &&
      forall j :: k < j < |attrs| ==> attrs[j].0 != attrs[k].0
    ensures var p := Entries(d.parameters)[i];
      var a := Entries(p.1)[k];
      var e := ElementAt(BlockFormOf(d, args), p.0);
      "#" + a.0 in e &&
      e["#" + a.0] == if a.0 == "title" || a.0 == "description" then Translated(a.1) else a.1
  {
    var params := Entries(d.parameters);
    var name := params[i].0;
    FormElement(EmptyForm(), params, Arguments(args), i);
    AttributeWritten(EmptyForm(), name, Entries(params[i].1), DefaultValue(Arguments(args), name), k);
  }

  /** A declared parameter's element has its attributes and `#default_value`, and no other key. */
  lemma FormElementKeys(d: Definition, args: seq<Arg>, i: nat, key: string)
    requires var params := Entries(d.parameters);
      i < |params| && Entries(params[i].1) != [] &&
      forall j :: 0 <= j < |params| && j != i ==> params[j].0 != params[i].0
    ensures var p := Entries(d.parameters)[i];
      var attrs := Entries(p.1);
      key in ElementAt(BlockFormOf(d, args), p.0) <==>
        key == "#default_value" || exists j :: 0 <= j < |attrs| && key == "#" + attrs[j].0
  {
    var params := Entries(d.parameters);
    var name := params[i].0;
    FormElement(EmptyForm(), params, Arguments(args), i);
    ElementKeyMembers(EmptyForm(), name, Entries(params[i].1), DefaultValue(Arguments(args), name), key);
  }

  // ---------------------------------------------------------------------------
  // The block
  // ---------------------------------------------------------------------------

  class Block {
    /** The plugin definition the deriver produced for this block. */
    const definition: Definition
    /** `$this->configuration['graphql_block']`; an unset entry is the empty list. */
    var graphqlBlock: seq<Arg>

    constructor(definition: Definition, graphqlBlock: seq<Arg>)
      ensures this.definition == definition && this.graphqlBlock == graphqlBlock
    {
      this.definition := definition;
      this.graphqlBlock := graphqlBlock;
    }

    /** The loop that turns the configuration list into the argument map. */
    method CollectArguments() returns (arguments: Assoc<Value>)
      ensures arguments == Arguments(graphqlBlock)
    {
      arguments := EmptyAssoc();
      for i := 0 to |graphqlBlock|
        invariant arguments == Arguments(graphqlBlock[..i])
      {
        assert graphqlBlock[..i + 1][..i] == graphqlBlock[..i];
        arguments := Put(arguments, graphqlBlock[i].key, graphqlBlock[i].value);
      }
      assert graphqlBlock[..|graphqlBlock|] == graphqlBlock;
    }

    /** `build`: the theme hook and the argument map. */
    method Build() returns (r: Render)
      ensures r == Render(definition.themeHook, Arguments(graphqlBlock))
    {
      var arguments := CollectArguments();
      return Render(definition.themeHook, arguments);
    }

    /** `blockSubmit`: appends one entry per declared parameter and keeps the old ones. */
    method BlockSubmit(values: map<string, Value>)
      modifies this
      ensures graphqlBlock == old(graphqlBlock) + Submitted(ParameterNames(definition.parameters), values)
    {
      var names := ParameterNames(definition.parameters);
      for i := 0 to |names|
        invariant graphqlBlock == old(graphqlBlock) + Submitted(names[..i], values)
      {
        assert names[..i + 1][..i] == names[..i];
        var value := if names[i] in values then values[names[i]] else Null;
        graphqlBlock := graphqlBlock + [Arg(names[i], value)];
      }
      assert names[..|names|] == names;
    }

    /** `blockForm`: the `graphql_block` elements of the form. */
    method BlockForm() returns (form: Form)
      ensures form == BlockFormOf(definition, graphqlBlock)
    {
      var arguments := CollectArguments();
      var params := Entries(definition.parameters);
      form := EmptyForm();
      for i := 0 to |params|
        invariant ValidAssoc(form)
        invariant form == WriteForm(EmptyForm(), params[..i], arguments)
      {
        assert params[..i + 1][..i] == params[..i];
        form := WriteParameter(form, params[i].0, Entries(params[i].1), DefaultValue(arguments, params[i].0));
      }
      assert params[..|params|] == params;
    }
  }

  /** The inner loop of `blockForm` for the parameter `name`. */
  method WriteParameter(start: Form, name: string, attrs: seq<(string, Value)>, default: Value) returns (form: Form)
    requires ValidAssoc(start)
    ensures form == WriteElement(start, name, attrs, default)
  {
    form := start;
    for j := 0 to |attrs|
      invariant ValidAssoc(form)
      invariant form == WriteElement(start, name, attrs[..j], default)
    {
      assert attrs[..j + 1][..j] == attrs[..j];
      var key := attrs[j].0;
      var element := ElementAt(form, name)["#" + key := AttributeValue(key, attrs[j].1)];
      element := element["#default_value" := default];
      form := Put(form, name, element);
    }
    assert attrs[..|attrs|] == attrs;
  }
}
