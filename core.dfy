/** The netlist entities: directives, device models, instances, the templates that
    generate instances (components and subcircuits), and the top-level circuit that
    numbers the instances added to it. */
module Core {
  import opened Dicts
  import opened Values
  import opened Utils

  /** `args or {}`: a missing dict reads as an empty one. */
  function GivenOrEmpty<V>(d: Option<Dict<V>>): Dict<V>
  {
    if d.Some? then d.value else []
  }

  // ---------------------------------------------------------------------------
  // Directives

  /** A simulator control statement. */
  datatype Directive = Directive(command: string, args: Dict<Value>)
  {
    /** `is_raw`: the directive has no arguments. */
    predicate IsRaw()
    {
      |args| == 0
    }
  }

  /** `Directive(command, args, **kwargs)`: the given arguments (or none) updated with
      the keyword arguments. */
  function NewDirective(command: string, args: Option<Dict<Value>>, kwargs: Dict<Value>): (d: Directive)
    ensures d.command == command
    ensures AsMap(d.args) == AsMap(GivenOrEmpty(args)) + AsMap(kwargs)
    ensures |d.args| >= |GivenOrEmpty(args)| && Keys(d.args)[..|GivenOrEmpty(args)|] == Keys(GivenOrEmpty(args))
    ensures d.IsRaw() <==> |GivenOrEmpty(args)| == 0 && |kwargs| == 0
  {
    var base := GivenOrEmpty(args);
    UpdateAsMap(base, kwargs);
    UpdateLookup(base, kwargs);
    UpdateEmpty(base, kwargs);
    Directive(command, Update(base, kwargs))
  }

  /** `Directive.__eq__`: raw directives compare by command, non-raw ones by command
      and arguments (as mappings), and a raw one never equals a non-raw one. */
  predicate DirectiveEq(a: Directive, b: Directive)
  {
    if a.IsRaw() && b.IsRaw() then a.command == b.command
    else if !a.IsRaw() && !b.IsRaw() then a.command == b.command && AsMap(a.args) == AsMap(b.args)
    else false
  }

  /** The raw/non-raw rule is plain field-wise equality, with the arguments compared as
      mappings: rawness is decided by the arguments themselves. */
  lemma DirectiveEqFieldwise(a: Directive, b: Directive)
    ensures DirectiveEq(a, b) <==> a.command == b.command && AsMap(a.args) == AsMap(b.args)
  {
    EmptyIffNoMapping(a.args);
    EmptyIffNoMapping(b.args);
  }

  /** Directive equality is an equivalence relation. */
  lemma DirectiveEqEquivalence(a: Directive, b: Directive, c: Directive)
    ensures DirectiveEq(a, a)
    ensures DirectiveEq(a, b) ==> DirectiveEq(b, a)
    ensures DirectiveEq(a, b) && DirectiveEq(b, c) ==> DirectiveEq(a, c)
  {
    DirectiveEqFieldwise(a, a);
    DirectiveEqFieldwise(a, b);
    DirectiveEqFieldwise(b, a);
    DirectiveEqFieldwise(b, c);
    DirectiveEqFieldwise(a, c);
  }

  /** The directive cases of the library's tests: a command with spaces and no
      arguments is raw, one with arguments is not, raw directives compare by command,
      and a raw directive never equals one with arguments even when their lines read
      the same. */
  lemma DirectiveRawExamples()
    ensures NewDirective("tran tran stop=100n", None, []).IsRaw()
    ensures !NewDirective("tran", Some([("stop", PyStr("100n"))]), []).IsRaw()
    ensures DirectiveEq(NewDirective("tran tran stop=100n", None, []), NewDirective("tran tran stop=100n", None, []))
    ensures !DirectiveEq(NewDirective("tran tran stop=100n", None, []), NewDirective("tran tran stop:200n", None, []))
    ensures !DirectiveEq(NewDirective("tran", Some([("0", PyNone), ("stop", PyStr("100n"))]), []),
                         NewDirective("tran 0 stop=100n", None, []))
  {
    assert "tran tran stop=100n" != "tran tran stop:200n" by {
      assert "tran tran stop=100n"[14] != "tran tran stop:200n"[14];
    }
  }

  /** The same arguments given positionally or as keywords make equal directives. */
  lemma DirectiveArgsExample()
    ensures DirectiveEq(NewDirective("tran", Some([("tran", PyNone), ("stop", PyStr("100n"))]), []),
                        NewDirective("tran", None, [("tran", PyNone), ("stop", PyStr("100n"))]))
  {
    var args: Dict<Value> := [("tran", PyNone), ("stop", PyStr("100n"))];
    ArgsOrKeywordsAgree("tran", args);
  }

  /** Any argument dict, empty or not, gives equal directives whether it is passed
      positionally or as keywords. */
  lemma ArgsOrKeywordsAgree(command: string, args: Dict<Value>)
    ensures DirectiveEq(NewDirective(command, Some(args), []), NewDirective(command, None, args))
  {
    var a := NewDirective(command, Some(args), []);
    var b := NewDirective(command, None, args);
    assert AsMap(a.args) == AsMap(args) + AsMap([]);
    assert AsMap(b.args) == AsMap([]) + AsMap(args);
  }

  // ---------------------------------------------------------------------------
  // Models and instances

  /** A device model: `model <name> <base> (<params>)`. */
  datatype Model = Model(name: string, base: string, params: Dict<Value>)

  /** A placed device: its template's name, node bindings, parameter values, the
      number and owner name its container gives it, and its one-letter tag. */
  datatype Instance = Instance(
    name: string,
    nodes: Dict<Node>,
    params: Dict<Value>,
    uid: Option<int>,
    ctx: Option<string>,
    cap: Option<string>)

  /** The dataclass `__eq__` of `Instance`: every field, dicts compared as mappings. */
  predicate InstanceEq(a: Instance, b: Instance)
  {
    && a.name == b.name
    && AsMap(a.nodes) == AsMap(b.nodes)
    && AsMap(a.params) == AsMap(b.params)
    && a.uid == b.uid && a.ctx == b.ctx && a.cap == b.cap
  }

  // ---------------------------------------------------------------------------
  // Instance generation

  /** How a template's nodes are declared: a list of names, each then required, or a
      dict of names and defaults. */
  datatype NodeDecl = NodeNames(names: seq<string>) | NodeDefaults(defaults: Dict<Value>)

  /** `{n: None for n in nodes}` for a list, the dict itself otherwise. */
  function DeclaredNodes(decl: NodeDecl): Dict<Value>
  {
    match decl
    case NodeNames(names) => FromKeys(names, PyNone)
    case NodeDefaults(defaults) => defaults
  }

  /** Declaring nodes by a list of names makes every one of them required, and
      nothing else. */
  lemma NodeNamesAreRequired(names: seq<string>, k: string)
    ensures k in Required(DeclaredNodes(NodeNames(names))) <==> k in names
  {
    RequiredLookup(DeclaredNodes(NodeNames(names)), k);
  }

  /** The caller's nodes: a dict as given, or a list paired in order with the
      template's node names (`dict(zip(...))`, which stops at the shorter). */
  datatype NodesArg = Positional(values: seq<Node>) | Named(nodes: Dict<Node>)

  function SuppliedNodes(template: Dict<Value>, arg: NodesArg): Dict<Node>
  {
    match arg
    case Positional(values) => Zip(template, values)
    case Named(nodes) => nodes
  }

  /** A `Dict<Node>` seen as a `Dict<Value>`. */
  function NodeValues(d: Dict<Node>): (r: Dict<Value>)
    ensures |r| == |d| && forall i :: 0 <= i < |d| ==> r[i] == d[i]
  {
    seq(|d|, i requires 0 <= i < |d| => (d[i].0, d[i].1))
  }

  /** The `ValueError` raised by `new`. */
  datatype GenError = MissingNodes(nodes: set<string>) | MissingParams(params: set<string>)

  datatype Result<T> = Ok(value: T) | Err(error: GenError)

  /** The body shared by `Component.new` and `Subcircuit.new`. With checking on, it
      fails on missing nodes first and only then on missing parameters; otherwise it
      returns exactly the caller's nodes and parameters (no defaults merged in). */
  function Generate(
    name: string, templateNodes: Dict<Value>, templateParams: Dict<Value>, cap: Option<string>,
    nodesArg: NodesArg, params: Option<Dict<Value>>, uid: Option<int>, ctx: Option<string>,
    checkDefaults: bool): (r: Result<Instance>)
    ensures !checkDefaults ==> r.Ok?
    ensures r.Ok? ==> r.value == Instance(name, SuppliedNodes(templateNodes, nodesArg), GivenOrEmpty(params), uid, ctx, cap)
    ensures r.Ok? && checkDefaults ==>
      MissingDefaults(templateNodes, NodeValues(SuppliedNodes(templateNodes, nodesArg))) == {} &&
      MissingDefaults(templateParams, GivenOrEmpty(params)) == {}
    ensures r.Err? && r.error.MissingNodes? ==>
      checkDefaults && r.error.nodes != {} &&
      r.error.nodes == MissingDefaults(templateNodes, NodeValues(SuppliedNodes(templateNodes, nodesArg)))
    ensures r.Err? && r.error.MissingParams? ==>
      checkDefaults && r.error.params != {} &&
      MissingDefaults(templateNodes, NodeValues(SuppliedNodes(templateNodes, nodesArg))) == {} &&
      r.error.params == MissingDefaults(templateParams, GivenOrEmpty(params))
  {
    var nodes := SuppliedNodes(templateNodes, nodesArg);
    var ps := GivenOrEmpty(params);
    if checkDefaults && MissingDefaults(templateNodes, NodeValues(nodes)) != {} then
      Err(MissingNodes(MissingDefaults(templateNodes, NodeValues(nodes))))
    else if checkDefaults && MissingDefaults(templateParams, ps) != {} then
      Err(MissingParams(MissingDefaults(templateParams, ps)))
    else
      Ok(Instance(name, nodes, ps, uid, ctx, cap))
  }

  /** A required node the caller leaves out makes a checked call fail with a node
      error naming it (a `Node` is never `None`, so passing `None` is not a case here). */
  lemma GenerateRejectsMissingNode(
    name: string, templateNodes: Dict<Value>, templateParams: Dict<Value>, cap: Option<string>,
    nodesArg: NodesArg, params: Option<Dict<Value>>, uid: Option<int>, ctx: Option<string>, k: string)
    requires Lookup(templateNodes, k) == Some(PyNone)
    requires Lookup(SuppliedNodes(templateNodes, nodesArg), k).None?
    ensures var r := Generate(name, templateNodes, templateParams, cap, nodesArg, params, uid, ctx, true);
      r.Err? && r.error.MissingNodes? && k in r.error.nodes
  {
    var nodes := SuppliedNodes(templateNodes, nodesArg);
    LookupFound(nodes, k);
    LookupFound(NodeValues(nodes), k);
    MissingDefaultsSpec(templateNodes, NodeValues(nodes), k);
  }

  /** A checked call fails with a parameter error exactly when every required node is
      supplied and some required parameter is not. */
  lemma GenerateRejectsMissingParam(
    name: string, templateNodes: Dict<Value>, templateParams: Dict<Value>, cap: Option<string>,
    nodesArg: NodesArg, params: Option<Dict<Value>>, uid: Option<int>, ctx: Option<string>, k: string)
    requires MissingDefaults(templateNodes, NodeValues(SuppliedNodes(templateNodes, nodesArg))) == {}
    requires Lookup(templateParams, k) == Some(PyNone)
    requires Lookup(GivenOrEmpty(params), k) == None || Lookup(GivenOrEmpty(params), k) == Some(PyNone)
    ensures var r := Generate(name, templateNodes, templateParams, cap, nodesArg, params, uid, ctx, true);
      r.Err? && r.error.MissingParams? && k in r.error.params
  {
    MissingDefaultsSpec(templateParams, GivenOrEmpty(params), k);
  }

  /** Missing-key checks only see a dict as a mapping. */
  lemma MissingDefaultsByMapping(defaults: Dict<Value>, a: Dict<Value>, b: Dict<Value>)
    requires AsMap(a) == AsMap(b)
    ensures MissingDefaults(defaults, a) == MissingDefaults(defaults, b)
  {
    forall k ensures k in MissingDefaults(defaults, a) <==> k in MissingDefaults(defaults, b) {
      MissingDefaultsSpec(defaults, a, k);
      MissingDefaultsSpec(defaults, b, k);
      SameMapSameLookups(a, b, k);
    }
  }

  lemma NodeValuesLookup(d: Dict<Node>, k: string)
    ensures Lookup(NodeValues(d), k) == match Lookup(d, k) case Some(v) => Some(v) case None => None
    ensures AsMap(NodeValues(d)) == map k' | k' in AsMap(d) :: AsMap(d)[k']
  {
    LookupFound(d, k);
    LookupFound(NodeValues(d), k);
    if Lookup(d, k).Some? {
      var i :| 0 <= i < |d| && d[i] == (k, Lookup(d, k).value);
      LookupAt(NodeValues(d), i);
    } else {
      assert forall i :: 0 <= i < |d| ==> NodeValues(d)[i].0 != k;
    }
    forall k' ensures k' in AsMap(NodeValues(d)) <==> k' in AsMap(d) {
      AsMapLookup(d, k');
      AsMapLookup(NodeValues(d), k');
      LookupFound(d, k');
      LookupFound(NodeValues(d), k');
    }
    forall k' | k' in AsMap(d) ensures AsMap(NodeValues(d))[k'] == AsMap(d)[k'] {
      AsMapLookup(d, k');
      AsMapLookup(NodeValues(d), k');
      LookupFound(d, k');
      var i :| 0 <= i < |d| && d[i] == (k', Lookup(d, k').value);
      LookupAt(NodeValues(d), i);
    }
  }

  /** A list of node values and a dict giving each template node the same value lead
      to the same outcome: the same error, or instances equal as Python compares them. */
  lemma PositionalMatchesNamed(
    name: string, templateNodes: Dict<Value>, templateParams: Dict<Value>, cap: Option<string>,
    values: seq<Node>, named: Dict<Node>, params: Option<Dict<Value>>, uid: Option<int>, ctx: Option<string>,
    checkDefaults: bool)
    requires |values| == |templateNodes| == |named|
    requires forall i :: 0 <= i < |templateNodes| ==> Lookup(named, templateNodes[i].0) == Some(values[i])
    ensures var p := Generate(name, templateNodes, templateParams, cap, Positional(values), params, uid, ctx, checkDefaults);
            var n := Generate(name, templateNodes, templateParams, cap, Named(named), params, uid, ctx, checkDefaults);
            (p.Err? && n.Err? && p.error == n.error) || (p.Ok? && n.Ok? && InstanceEq(p.value, n.value))
  {
    var zipped := Zip(templateNodes, values);
    forall k ensures Lookup(zipped, k) == Lookup(named, k) {
      ZipLookupNamed(templateNodes, values, named, k);
    }
    SameLookupsSameMap(zipped, named);
    NodeValuesLookup(zipped, "");
    NodeValuesLookup(named, "");
    MissingDefaultsByMapping(templateNodes, NodeValues(zipped), NodeValues(named));
  }

  lemma ZipLookupNamed(templateNodes: Dict<Value>, values: seq<Node>, named: Dict<Node>, k: string)
    requires |values| == |templateNodes| == |named|
    requires forall i :: 0 <= i < |templateNodes| ==> Lookup(named, templateNodes[i].0) == Some(values[i])
    ensures Lookup(Zip(templateNodes, values), k) == Lookup(named, k)
  {
    var zipped := Zip(templateNodes, values);
    if i :| 0 <= i < |templateNodes| && templateNodes[i].0 == k {
      LookupAt(zipped, i);
    } else {
      LookupFound(zipped, k);
      NamedKeysAreTemplateKeys(templateNodes, values, named, k);
    }
  }

  /** When a dict has as many keys as the template and covers every template key, it
      has no other key. */
  lemma NamedKeysAreTemplateKeys(templateNodes: Dict<Value>, values: seq<Node>, named: Dict<Node>, k: string)
    requires |values| == |templateNodes| == |named|
    requires forall i :: 0 <= i < |templateNodes| ==> Lookup(named, templateNodes[i].0) == Some(values[i])
    requires forall i :: 0 <= i < |templateNodes| ==> templateNodes[i].0 != k
    ensures Lookup(named, k) == None
  {
    var covered := KeySet(templateNodes);
    assert |covered| == |templateNodes| by {
      KeySetSize(templateNodes);
    }
    assert covered <= KeySet(named) by {
      forall x | x in covered ensures x in KeySet(named) {
        var i :| 0 <= i < |templateNodes| && templateNodes[i].0 == x;
        LookupFound(named, x);
      }
    }
    KeySetSize(named);
    LookupFound(named, k);
    if k in KeySet(named) {
      assert covered + {k} <= KeySet(named);
      assert |covered + {k}| == |covered| + 1;
      SubsetSize(covered + {k}, KeySet(named));
    }
  }

  lemma SubsetSize(a: set<string>, b: set<string>)
    requires a <= b
    ensures |a| <= |b|
  {
    assert b == a + (b - a);
  }

  /** A dict has as many keys as entries. */
  lemma {:induction false} KeySetSize<V>(d: Dict<V>)
    ensures |KeySet(d)| == |d|
    decreases |d|
  {
    if |d| > 0 {
      var t: Dict<V> := d[1..];
      KeySetSize(t);
      assert KeySet(d) == {d[0].0} + KeySet(t);
      assert d[0].0 !in KeySet(t);
    }
  }

  // ---------------------------------------------------------------------------
  // Components

  /** An instance template with node and parameter defaults (`None` marks required). */
  datatype Component = Component(name: string, nodes: Dict<Value>, params: Dict<Value>, cap: Option<string>)
  {
    /** `Component.new`: the shared generator, with the template's tag copied. */
    function New(nodesArg: NodesArg, params: Option<Dict<Value>>, uid: Option<int>, ctx: Option<string>,
                 checkDefaults: bool): (r: Result<Instance>)
      ensures r.Ok? ==> r.value.name == name && r.value.cap == cap
      ensures !checkDefaults ==> r.Ok?
    {
      Generate(name, nodes, this.params, cap, nodesArg, params, uid, ctx, checkDefaults)
    }

    /** `Component.from_instance` as written: node defaults are the instance's values,
        or all `None` with `resetNodes`; the parameters are always the instance's, so
        `resetParams` has no effect. */
    static function FromInstance(inst: Instance, resetNodes: bool, resetParams: bool): (c: Component)
      ensures c.name == inst.name && c.cap == inst.cap
      ensures c.params == inst.params
      ensures !resetNodes ==> c.nodes == NodeValues(inst.nodes)
      ensures resetNodes ==> Keys(c.nodes) == Keys(inst.nodes) && Required(c.nodes) == KeySet(inst.nodes)
    {
      var nodes := if resetNodes then ResetDefaults(inst.nodes) else NodeValues(inst.nodes);
      NewComponent(inst.name, NodeDefaults(nodes), Some(inst.params), inst.cap)
    }

    /** `from_instance` as evidently intended: `resetParams` makes every parameter
        required, as `resetNodes` does for the nodes. */
    static function FromInstanceFixed(inst: Instance, resetNodes: bool, resetParams: bool): (c: Component)
      ensures c.name == inst.name && c.cap == inst.cap
      ensures !resetNodes ==> c.nodes == NodeValues(inst.nodes)
      ensures resetNodes ==> Keys(c.nodes) == Keys(inst.nodes) && Required(c.nodes) == KeySet(inst.nodes)
      ensures !resetParams ==> c.params == inst.params
      ensures resetParams ==> Keys(c.params) == Keys(inst.params) && Required(c.params) == KeySet(inst.params)
    {
      var base := FromInstance(inst, resetNodes, false);
      if resetParams then base.(params := ResetDefaults(inst.params)) else base
    }
  }

  /** `Component(name, nodes, params, cap)`. */
  function NewComponent(name: string, nodes: NodeDecl, params: Option<Dict<Value>>, cap: Option<string>): (c: Component)
    ensures c.name == name && c.cap == cap && c.params == GivenOrEmpty(params)
    ensures nodes.NodeNames? ==> Required(c.nodes) == set n | n in nodes.names
    ensures nodes.NodeDefaults? ==> c.nodes == nodes.defaults
  {
    if nodes.NodeNames? then
      assert forall k :: k in Required(DeclaredNodes(nodes)) <==> k in nodes.names by {
        forall k ensures k in Required(DeclaredNodes(nodes)) <==> k in nodes.names {
          NodeNamesAreRequired(nodes.names, k);
        }
      }
      Component(name, DeclaredNodes(nodes), GivenOrEmpty(params), cap)
    else
      Component(name, DeclaredNodes(nodes), GivenOrEmpty(params), cap)
  }

  /** `{k: None for k, v in d.items()}`: the same keys in the same order, all required. */
  function ResetDefaults<V>(d: Dict<V>): (r: Dict<Value>)
    ensures Keys(r) == Keys(d) && Required(r) == KeySet(d)
  {
    ResetDefaultsKeys(d);
    FromKeys(Keys(d), PyNone)
  }

  lemma ResetDefaultsKeys<V>(d: Dict<V>)
    ensures Keys(FromKeys(Keys(d), PyNone)) == Keys(d)
    ensures Required(FromKeys(Keys(d), PyNone)) == KeySet(d)
  {
    var r := FromKeys(Keys(d), PyNone);
    ResetDefaultsOrder(d);
    RequiredAllNone(r);
    SameKeysSameKeySet(r, d);
  }

  lemma ResetDefaultsOrder<V>(d: Dict<V>)
    ensures Keys(FromKeys(Keys(d), PyNone)) == Keys(d)
  {
    KeysDistinct(d);
    FromKeysOrder(Keys(d), PyNone);
  }

  lemma KeysDistinct<V>(d: Dict<V>)
    ensures Distinct(Keys(d))
  {
  }

  /** When every default is `None`, every key is required. */
  lemma RequiredAllNone(d: Dict<Value>)
    requires forall i :: 0 <= i < |d| ==> d[i].1 == PyNone
    ensures Required(d) == KeySet(d)
  {
  }

  /** As written, `reset_params` changes nothing. */
  lemma FromInstanceIgnoresResetParams(inst: Instance, resetNodes: bool)
    ensures Component.FromInstance(inst, resetNodes, true) == Component.FromInstance(inst, resetNodes, false)
  {
  }

  /** A resistor instance between nodes 1 and 0 with `R=1000.0`. */
  function ResistorInstance(): Instance
  {
    Instance("Res", [("P", PyInt(1)), ("N", PyInt(0))], [("R", PyOther("1000.0", true))], None, None, None)
  }

  /** The input that shows it, as written: asking for the resistor's parameters to
      be reset leaves `R` with its default, so `new` without parameters succeeds. */
  lemma ResetParamsAsWrittenSucceeds()
    ensures Component.FromInstance(ResistorInstance(), false, true)
              .New(Positional([PyStr("P"), PyStr("N")]), None, None, None, true).Ok?
  {
    var asWritten := Component.FromInstance(ResistorInstance(), false, true);
    var supplied := NodeValues(Zip(asWritten.nodes, [PyStr("P"), PyStr("N")]));
    NoRequiredNothingMissing(asWritten.nodes, supplied);
    NoRequiredNothingMissing(asWritten.params, []);
  }

  /** The same call on the intended reset: `R` is required and missing. */
  lemma ResetParamsIntendedFails()
    ensures Component.FromInstanceFixed(ResistorInstance(), false, true)
              .New(Positional([PyStr("P"), PyStr("N")]), None, None, None, true) == Err(MissingParams({"R"}))
  {
    var intended := Component.FromInstanceFixed(ResistorInstance(), false, true);
    var supplied := NodeValues(Zip(intended.nodes, [PyStr("P"), PyStr("N")]));
    NoRequiredNothingMissing(intended.nodes, supplied);
    assert MissingDefaults(intended.params, []) == {"R"};
  }

  // ---------------------------------------------------------------------------
  // Containers: values

  /** What a subcircuit holds, as a value (the copy a circuit stores). */
  datatype SubcircuitData = SubcircuitData(
    name: string,
    nodes: Dict<Value>,
    params: Dict<Value>,
    instances: seq<Instance>,
    uidsMap: map<string, int>,
    cap: Option<string>)

  /** The dataclass `__eq__` of `Subcircuit`: every field, dicts as mappings and the
      instance lists element by element. */
  predicate SubcircuitEq(a: SubcircuitData, b: SubcircuitData)
  {
    && a.name == b.name
    && AsMap(a.nodes) == AsMap(b.nodes)
    && AsMap(a.params) == AsMap(b.params)
    && |a.instances| == |b.instances|
    && (forall i :: 0 <= i < |a.instances| ==> InstanceEq(a.instances[i], b.instances[i]))
    && a.uidsMap == b.uidsMap
    && a.cap == b.cap
  }

  /** What a circuit holds, as a value. */
  datatype CircuitData = CircuitData(
    directives: seq<Directive>,
    subcircuits: seq<SubcircuitData>,
    instances: seq<Instance>,
    uidsMap: map<string, int>)

  /** Anything that can be handed to a circuit or a writer. */
  datatype Element =
    | EDirective(directive: Directive)
    | EModel(model: Model)
    | EInstance(instance: Instance)
    | EComponent(component: Component)
    | ESubcircuit(subcircuit: SubcircuitData)
    | ECircuit(circuit: CircuitData)

  /** Python's `==` between two elements: the kind's own equality, and never equal
      across kinds. A circuit has no `__eq__` of its own (identity is not modelled). */
  predicate ElementEq(a: Element, b: Element)
  {
    match (a, b)
    case (EDirective(x), EDirective(y)) => DirectiveEq(x, y)
    case (EModel(x), EModel(y)) => x.name == y.name && x.base == y.base && AsMap(x.params) == AsMap(y.params)
    case (EInstance(x), EInstance(y)) => InstanceEq(x, y)
    case (EComponent(x), EComponent(y)) =>
      x.name == y.name && AsMap(x.nodes) == AsMap(y.nodes) && AsMap(x.params) == AsMap(y.params) && x.cap == y.cap
    case (ESubcircuit(x), ESubcircuit(y)) => SubcircuitEq(x, y)
    case _ => false
  }

  // ---------------------------------------------------------------------------
  // Uid bookkeeping

  /** How many instances of `s` carry the name `n`. */
  function CountName(s: seq<Instance>, n: string): nat
    decreases |s|
  {
    if |s| == 0 then 0
    else CountName(s[..|s| - 1], n) + (if s[|s| - 1].name == n then 1 else 0)
  }

  /** `uids_map[n]` of a `defaultdict(int)`: 0 for a name never seen. */
  function Count(m: map<string, int>, n: string): int
  {
    if n in m then m[n] else 0
  }

  /** The counters left by adding the instances of `s` one by one. */
  function NameCounts(s: seq<Instance>): map<string, int>
    decreases |s|
  {
    if |s| == 0 then map[]
    else
      var m := NameCounts(s[..|s| - 1]);
      m[s[|s| - 1].name := Count(m, s[|s| - 1].name) + 1]
  }

  /** The counter for a name is the number of instances of that name, and only names
      that occur have a counter. */
  lemma {:induction false} NameCountsCount(s: seq<Instance>, n: string)
    ensures Count(NameCounts(s), n) == CountName(s, n)
    ensures n in NameCounts(s) <==> CountName(s, n) > 0
    decreases |s|
  {
    if |s| > 0 {
      NameCountsCount(s[..|s| - 1], n);
    }
  }

  /** Every instance carries as uid its rank among the instances of its name: the
      k-th instance named `n` has uid k. */
  ghost predicate SequentialUids(s: seq<Instance>)
  {
    forall i :: 0 <= i < |s| ==> s[i].uid == Some(CountName(s[..i + 1], s[i].name))
  }

  lemma CountNamePrefix(s: seq<Instance>, x: Instance, n: string)
    ensures CountName(s + [x], n) == CountName(s, n) + (if x.name == n then 1 else 0)
  {
    assert (s + [x])[..|s|] == s;
  }

  /** Appending an instance bumps the counter of its name. */
  lemma NameCountsAppend(s: seq<Instance>, x: Instance)
    ensures NameCounts(s + [x]) == NameCounts(s)[x.name := Count(NameCounts(s), x.name) + 1]
  {
    assert (s + [x])[..|s|] == s;
  }

  /** Appending the next-numbered instance keeps the counters and the numbering right. */
  lemma StampKeepsNumbering(s: seq<Instance>, m: map<string, int>, inst: Instance)
    requires m == NameCounts(s) && SequentialUids(s)
    ensures var x := inst.(uid := Some(Count(m, inst.name) + 1));
      m[inst.name := Count(m, inst.name) + 1] == NameCounts(s + [x]) &&
      SequentialUids(s + [x]) &&
      x.uid == Some(CountName(s + [x], inst.name))
  {
    var x := inst.(uid := Some(Count(m, inst.name) + 1));
    var t := s + [x];
    NameCountsAppend(s, x);
    NameCountsCount(s, inst.name);
    CountNamePrefix(s, x, inst.name);
    assert t[..|s| + 1] == t;
    forall i | 0 <= i < |t| ensures t[i].uid == Some(CountName(t[..i + 1], t[i].name)) {
      if i < |s| {
        assert t[i] == s[i];
        assert t[..i + 1] == s[..i + 1];
      }
    }
  }

  /** What a subcircuit keeps true of the instances added to it: they are numbered
      per name, counted by `m` and owned by `owner`. */
  ghost predicate OwnedNumbered(s: seq<Instance>, m: map<string, int>, owner: string)
  {
    && m == NameCounts(s)
    && SequentialUids(s)
    && forall i :: 0 <= i < |s| ==> s[i].ctx == Some(owner)
  }

  /** `Subcircuit.add` on values: appending the next-numbered copy, owned by the
      subcircuit, keeps the added instances numbered, counted and owned. */
  lemma OwnedStamp(s: seq<Instance>, m: map<string, int>, owner: string, inst: Instance)
    requires OwnedNumbered(s, m, owner)
    ensures var n := Count(m, inst.name) + 1;
      var copy := inst.(uid := Some(n), ctx := Some(owner));
      OwnedNumbered(s + [copy], m[inst.name := n], owner) && copy.uid == Some(CountName(s + [copy], inst.name))
  {
    StampKeepsNumbering(s, m, inst.(ctx := Some(owner)));
  }

  lemma SliceAppend<T>(s: seq<T>, from: nat, x: T)
    requires from <= |s|
    ensures (s + [x])[from..] == s[from..] + [x]
  {
  }

  /** Within a numbered list, later instances of a name have larger uids. */
  lemma UidsIncrease(s: seq<Instance>, i: nat, j: nat)
    requires SequentialUids(s)
    requires i < j < |s| && s[i].name == s[j].name
    ensures s[i].uid.value < s[j].uid.value
  {
    CountNameGrows(s[..j + 1], i + 1, s[i].name);
    assert s[..j + 1][..i + 1] == s[..i + 1];
  }

  lemma {:induction false} CountNameGrows(s: seq<Instance>, k: nat, n: string)
    requires 0 < k < |s| && s[|s| - 1].name == n
    ensures CountName(s[..k], n) < CountName(s, n)
    decreases |s| - k
  {
    var init := s[..|s| - 1];
    if k < |s| - 1 {
      CountNameMonotone(init, k, n);
      assert init[..k] == s[..k];
    } else {
      assert s[..k] == init;
    }
  }

  lemma {:induction false} CountNameMonotone(s: seq<Instance>, k: nat, n: string)
    requires k <= |s|
    ensures CountName(s[..k], n) <= CountName(s, n)
    decreases |s| - k
  {
    if k < |s| {
      CountNameMonotone(s[..|s| - 1], k, n);
      assert s[..|s| - 1][..k] == s[..k];
    } else {
      assert s[..k] == s;
    }
  }

  // ---------------------------------------------------------------------------
  // Subcircuits

  /** A template that is also a container of its own instances. */
  class Subcircuit {
    const name: string
    const nodes: Dict<Value>
    const params: Dict<Value>
    const cap: Option<string>
    var instances: seq<Instance>
    var uidsMap: map<string, int>
    /** How many instances were handed to the constructor; the rest were added. */
    ghost const given: nat

    /** The added instances are numbered per name, owned by this subcircuit, and
        counted by `uidsMap`. */
    ghost predicate Valid()
      reads this
    {
      given <= |instances| && OwnedNumbered(instances[given..], uidsMap, name)
    }

    constructor (name: string, nodes: NodeDecl, params: Option<Dict<Value>>, cap: Option<string>,
                 instances: Option<seq<Instance>>)
      ensures Valid()
      ensures this.name == name && this.nodes == DeclaredNodes(nodes)
      ensures this.params == GivenOrEmpty(params) && this.cap == cap
      ensures this.instances == (if instances.Some? then instances.value else []) && uidsMap == map[]
    {
      this.name := name;
      this.nodes := DeclaredNodes(nodes);
      this.params := GivenOrEmpty(params);
      this.cap := cap;
      this.instances := if instances.Some? then instances.value else [];
      this.uidsMap := map[];
      this.given := if instances.Some? then |instances.value| else 0;
    }

    /** The subcircuit as a value. */
    function Data(): SubcircuitData
      reads this
    {
      SubcircuitData(name, nodes, params, instances, uidsMap, cap)
    }

    /** `Subcircuit.add`: appends a copy numbered by this subcircuit's counter for its
        name and owned by this subcircuit; other counters and entries stay. */
    method Add(inst: Instance)
      requires Valid()
      modifies this
      ensures Valid()
      ensures uidsMap == old(uidsMap)[inst.name := Count(old(uidsMap), inst.name) + 1]
      ensures instances == old(instances) + [inst.(uid := Some(Count(old(uidsMap), inst.name) + 1), ctx := Some(name))]
      ensures instances[|instances| - 1].uid == Some(CountName(instances[given..], inst.name))
      ensures Contains(EInstance(instances[|instances| - 1]))
    {
      var n := Count(uidsMap, inst.name) + 1;
      var copy := inst.(uid := Some(n), ctx := Some(name));
      OwnedStamp(instances[given..], uidsMap, name, inst);
      SliceAppend(instances, given, copy);
      uidsMap := uidsMap[inst.name := n];
      instances := instances + [copy];
    }

    /** `Subcircuit.new`: the shared generator; the instance gets no tag. */
    function New(nodesArg: NodesArg, params: Option<Dict<Value>>, uid: Option<int>, ctx: Option<string>,
                 checkDefaults: bool): (r: Result<Instance>)
      reads this
      ensures r.Ok? ==> r.value.name == name && r.value.cap.None?
      ensures !checkDefaults ==> r.Ok?
    {
      Generate(name, nodes, this.params, None, nodesArg, params, uid, ctx, checkDefaults)
    }

    /** `Subcircuit.__contains__`: only instances can be members, by equality with a
        stored one. */
    function Contains(o: Element): (r: bool)
      reads this
      ensures r ==> o.EInstance?
      ensures o.EInstance? && o.instance in instances ==> r
      ensures o.EInstance? ==> (r <==> exists k :: 0 <= k < |instances| && InstanceEq(instances[k], o.instance))
    {
      o.EInstance? && exists k :: 0 <= k < |instances| && InstanceEq(instances[k], o.instance)
    }
  }

  // ---------------------------------------------------------------------------
  // Circuits

  predicate HasEqualSubcircuit(subs: seq<SubcircuitData>, s: SubcircuitData)
  {
    exists k :: 0 <= k < |subs| && SubcircuitEq(subs[k], s)
  }

  /** `Circuit.__add_one` on values: a directive is appended; a subcircuit only when
      no equal one is stored; an instance is numbered and appended with its owner
      unchanged; anything else is dropped. */
  function Added(c: CircuitData, e: Element): CircuitData
  {
    match e
    case EDirective(d) => c.(directives := c.directives + [d])
    case ESubcircuit(s) =>
      if HasEqualSubcircuit(c.subcircuits, s) then c else c.(subcircuits := c.subcircuits + [s])
    case EInstance(inst) =>
      var n := Count(c.uidsMap, inst.name) + 1;
      c.(uidsMap := c.uidsMap[inst.name := n], instances := c.instances + [inst.(uid := Some(n))])
    case _ => c
  }

  /** `Circuit.add` of a list: the elements one by one, in order. */
  function AddedAll(c: CircuitData, es: seq<Element>): CircuitData
    decreases |es|
  {
    if |es| == 0 then c else Added(AddedAll(c, es[..|es| - 1]), es[|es| - 1])
  }

  predicate NoEqualSubcircuits(subs: seq<SubcircuitData>)
  {
    forall i, j :: 0 <= i < j < |subs| ==> !SubcircuitEq(subs[i], subs[j])
  }

  /** What a circuit keeps true: counters count, instances are numbered per name, and
      no two stored subcircuits are equal. */
  ghost predicate Wellformed(c: CircuitData)
  {
    c.uidsMap == NameCounts(c.instances) && SequentialUids(c.instances) && NoEqualSubcircuits(c.subcircuits)
  }

  lemma AddedKeepsWellformed(c: CircuitData, e: Element)
    requires Wellformed(c)
    ensures Wellformed(Added(c, e))
  {
    match e
    case EInstance(inst) => AddedInstanceKeepsWellformed(c, inst);
    case ESubcircuit(s) =>
      if !HasEqualSubcircuit(c.subcircuits, s) {
        AppendKeepsNoEqual(c.subcircuits, s);
      }
    case _ =>
  }

  lemma AddedInstanceKeepsWellformed(c: CircuitData, inst: Instance)
    requires Wellformed(c)
    ensures Wellformed(Added(c, EInstance(inst)))
  {
    StampKeepsNumbering(c.instances, c.uidsMap, inst);
    AddedInstanceShape(c, inst);
  }

  /** Adding an instance stores its next-numbered copy and bumps its counter. */
  lemma AddedInstanceShape(c: CircuitData, inst: Instance)
    ensures var n := Count(c.uidsMap, inst.name) + 1;
      Added(c, EInstance(inst)) ==
        CircuitData(c.directives, c.subcircuits, c.instances + [inst.(uid := Some(n))], c.uidsMap[inst.name := n])
  {
  }

  /** Appending a subcircuit with no equal one stored keeps the stored ones pairwise
      different. */
  lemma AppendKeepsNoEqual(subs: seq<SubcircuitData>, s: SubcircuitData)
    requires NoEqualSubcircuits(subs) && !HasEqualSubcircuit(subs, s)
    ensures NoEqualSubcircuits(subs + [s])
  {
    var t := subs + [s];
    forall i, j | 0 <= i < j < |t| ensures !SubcircuitEq(t[i], t[j]) {
      assert t[i] == subs[i];
      if j == |subs| {
        assert t[j] == s;
      } else {
        assert t[j] == subs[j];
      }
    }
  }

  lemma {:induction false} AddedAllKeepsWellformed(c: CircuitData, es: seq<Element>)
    requires Wellformed(c)
    ensures Wellformed(AddedAll(c, es))
    decreases |es|
  {
    if |es| > 0 {
      AddedAllKeepsWellformed(c, es[..|es| - 1]);
      AddedKeepsWellformed(AddedAll(c, es[..|es| - 1]), es[|es| - 1]);
    }
  }

  /** The directives among some elements, in order. */
  function DirectivesOf(es: seq<Element>): seq<Directive>
    decreases |es|
  {
    if |es| == 0 then []
    else DirectivesOf(es[..|es| - 1]) + (if es[|es| - 1].EDirective? then [es[|es| - 1].directive] else [])
  }

  /** The instances among some elements, in order. */
  function InstancesOf(es: seq<Element>): seq<Instance>
    decreases |es|
  {
    if |es| == 0 then []
    else InstancesOf(es[..|es| - 1]) + (if es[|es| - 1].EInstance? then [es[|es| - 1].instance] else [])
  }

  /** Instances with their uids cleared. */
  function Unnumbered(s: seq<Instance>): (r: seq<Instance>)
    ensures |r| == |s| && forall i :: 0 <= i < |s| ==> r[i] == s[i].(uid := None)
  {
    seq(|s|, i requires 0 <= i < |s| => s[i].(uid := None))
  }

  /** Adding a list appends its directives in order, and its instances in order and
      otherwise unchanged apart from the uid (the owner name is left as it was). */
  lemma {:induction false} AddedAllSections(c: CircuitData, es: seq<Element>)
    ensures AddedAll(c, es).directives == c.directives + DirectivesOf(es)
    ensures Unnumbered(AddedAll(c, es).instances) == Unnumbered(c.instances) + Unnumbered(InstancesOf(es))
    decreases |es|
  {
    if |es| > 0 {
      var init := es[..|es| - 1];
      AddedAllSections(c, init);
      var before := AddedAll(c, init);
      var e := es[|es| - 1];
      if e.EInstance? {
        var x := e.instance.(uid := Some(Count(before.uidsMap, e.instance.name) + 1));
        assert Unnumbered(before.instances + [x]) == Unnumbered(before.instances) + [x.(uid := None)];
        assert Unnumbered(InstancesOf(es)) == Unnumbered(InstancesOf(init)) + [e.instance.(uid := None)];
      } else {
        assert InstancesOf(es) == InstancesOf(init);
      }
    }
  }

  /** Adding a list keeps the stored subcircuits in front, and afterwards every
      subcircuit of the list has an equal one stored. */
  lemma {:induction false} AddedAllSubcircuits(c: CircuitData, es: seq<Element>)
    ensures |AddedAll(c, es).subcircuits| >= |c.subcircuits|
    ensures AddedAll(c, es).subcircuits[..|c.subcircuits|] == c.subcircuits
    ensures forall i :: 0 <= i < |es| && es[i].ESubcircuit? ==>
      HasEqualSubcircuit(AddedAll(c, es).subcircuits, es[i].subcircuit)
    decreases |es|
  {
    if |es| > 0 {
      var init := es[..|es| - 1];
      AddedAllSubcircuits(c, init);
      var before := AddedAll(c, init);
      var after := AddedAll(c, es);
      assert before.subcircuits <= after.subcircuits;
      forall i | 0 <= i < |es| && es[i].ESubcircuit?
        ensures HasEqualSubcircuit(after.subcircuits, es[i].subcircuit)
      {
        if i < |es| - 1 {
          assert es[i] == init[i];
          var k :| 0 <= k < |before.subcircuits| && SubcircuitEq(before.subcircuits[k], es[i].subcircuit);
          assert after.subcircuits[k] == before.subcircuits[k];
        } else if !HasEqualSubcircuit(before.subcircuits, es[i].subcircuit) {
          SubcircuitEqReflexive(es[i].subcircuit);
          assert after.subcircuits[|before.subcircuits|] == es[i].subcircuit;
        }
      }
    }
  }

  lemma SubcircuitEqReflexive(s: SubcircuitData)
    ensures SubcircuitEq(s, s)
  {
  }

  lemma SubcircuitEqTransitive(a: SubcircuitData, b: SubcircuitData, c: SubcircuitData)
    requires SubcircuitEq(a, b) && SubcircuitEq(b, c)
    ensures SubcircuitEq(a, c)
  {
    forall i | 0 <= i < |a.instances| ensures InstanceEq(a.instances[i], c.instances[i]) {
      assert InstanceEq(a.instances[i], b.instances[i]);
      assert InstanceEq(b.instances[i], c.instances[i]);
    }
  }

  /** Re-adding a subcircuit equal to one added before leaves the stored list as it is. */
  lemma ReaddEqualSubcircuit(c: CircuitData, s: SubcircuitData, s': SubcircuitData)
    requires SubcircuitEq(s, s')
    ensures var once := Added(c, ESubcircuit(s));
      Added(once, ESubcircuit(s')) == once
  {
    var once := Added(c, ESubcircuit(s));
    if HasEqualSubcircuit(c.subcircuits, s) {
      var k :| 0 <= k < |c.subcircuits| && SubcircuitEq(c.subcircuits[k], s);
      SubcircuitEqTransitive(c.subcircuits[k], s, s');
    } else {
      assert once.subcircuits[|c.subcircuits|] == s;
    }
  }

  /** A model, a component or a circuit handed to `add` is dropped. */
  lemma AddedDropsOtherKinds(c: CircuitData, e: Element)
    requires e.EModel? || e.EComponent? || e.ECircuit?
    ensures Added(c, e) == c
  {
  }

  /** The list a membership query searches, chosen by the query's kind as written:
      subcircuits are looked up among the directives. */
  function Bucket(c: CircuitData, o: Element): seq<Element>
  {
    match o
    case EDirective(_) => seq(|c.directives|, i requires 0 <= i < |c.directives| => EDirective(c.directives[i]))
    case EInstance(_) => seq(|c.instances|, i requires 0 <= i < |c.instances| => EInstance(c.instances[i]))
    case ESubcircuit(_) => seq(|c.directives|, i requires 0 <= i < |c.directives| => EDirective(c.directives[i]))
    case _ => []
  }

  /** `Circuit.__contains__` on values. */
  predicate CircuitContains(c: CircuitData, o: Element)
  {
    var bucket := Bucket(c, o);
    exists k :: 0 <= k < |bucket| && ElementEq(bucket[k], o)
  }

  /** As written, a directive is a member when some stored directive equals it, and an
      instance when some stored instance equals it. */
  lemma CircuitContainsLists(c: CircuitData, o: Element)
    ensures o.EDirective? ==>
      (CircuitContains(c, o) <==> exists k :: 0 <= k < |c.directives| && DirectiveEq(c.directives[k], o.directive))
    ensures o.EInstance? ==>
      (CircuitContains(c, o) <==> exists k :: 0 <= k < |c.instances| && InstanceEq(c.instances[k], o.instance))
  {
    var b := Bucket(c, o);
    if o.EDirective? {
      if CircuitContains(c, o) {
        var k :| 0 <= k < |b| && ElementEq(b[k], o);
        assert DirectiveEq(c.directives[k], o.directive);
      }
      if exists k :: 0 <= k < |c.directives| && DirectiveEq(c.directives[k], o.directive) {
        var k :| 0 <= k < |c.directives| && DirectiveEq(c.directives[k], o.directive);
        assert ElementEq(b[k], o);
      }
    } else if o.EInstance? {
      if CircuitContains(c, o) {
        var k :| 0 <= k < |b| && ElementEq(b[k], o);
        assert InstanceEq(c.instances[k], o.instance);
      }
      if exists k :: 0 <= k < |c.instances| && InstanceEq(c.instances[k], o.instance) {
        var k :| 0 <= k < |c.instances| && InstanceEq(c.instances[k], o.instance);
        assert ElementEq(b[k], o);
      }
    }
  }

  /** As written, no subcircuit is ever a member of a circuit, even one just added. */
  lemma SubcircuitNeverMember(c: CircuitData, s: SubcircuitData)
    ensures !CircuitContains(c, ESubcircuit(s))
    ensures !CircuitContains(Added(c, ESubcircuit(s)), ESubcircuit(s))
  {
  }

  /** A directive just added is a member. */
  lemma AddedDirectiveIsMember(c: CircuitData, d: Directive)
    ensures CircuitContains(Added(c, EDirective(d)), EDirective(d))
  {
    var after := Added(c, EDirective(d));
    DirectiveEqEquivalence(d, d, d);
    assert Bucket(after, EDirective(d))[|c.directives|] == EDirective(d);
  }

  /** An instance without a uid is never a member of a well-formed circuit: every
      stored copy has been numbered. In particular an instance just added is not. */
  lemma UnnumberedInstanceNotMember(c: CircuitData, inst: Instance)
    requires Wellformed(c) && inst.uid.None?
    ensures !CircuitContains(c, EInstance(inst))
    ensures !CircuitContains(Added(c, EInstance(inst)), EInstance(inst))
  {
    AddedKeepsWellformed(c, EInstance(inst));
    var after := Added(c, EInstance(inst));
    NumberedAll(c.instances);
    NumberedAll(after.instances);
    UnnumberedNotIn(c, inst);
    UnnumberedNotIn(after, inst);
  }

  lemma NumberedAll(s: seq<Instance>)
    requires SequentialUids(s)
    ensures forall k :: 0 <= k < |s| ==> s[k].uid.Some?
  {
    forall k | 0 <= k < |s| ensures s[k].uid.Some? {
      assert s[k].uid == Some(CountName(s[..k + 1], s[k].name));
    }
  }

  lemma UnnumberedNotIn(c: CircuitData, inst: Instance)
    requires forall k :: 0 <= k < |c.instances| ==> c.instances[k].uid.Some?
    requires inst.uid.None?
    ensures !CircuitContains(c, EInstance(inst))
  {
  }

  /** `Circuit.__contains__` as evidently intended: subcircuits are looked up among
      the stored subcircuits. */
  predicate CircuitContainsFixed(c: CircuitData, o: Element)
  {
    if o.ESubcircuit? then HasEqualSubcircuit(c.subcircuits, o.subcircuit) else CircuitContains(c, o)
  }

  /** With the intended lookup, a subcircuit just added is a member. */
  lemma AddedSubcircuitIsMemberFixed(c: CircuitData, s: SubcircuitData)
    ensures CircuitContainsFixed(Added(c, ESubcircuit(s)), ESubcircuit(s))
  {
    if !HasEqualSubcircuit(c.subcircuits, s) {
      SubcircuitEqReflexive(s);
      assert Added(c, ESubcircuit(s)).subcircuits[|c.subcircuits|] == s;
    }
  }

  /** How `Circuit.add` is called: one element, or a list or tuple of them. */
  datatype AddArg = One(element: Element) | Many(elements: seq<Element>)

  function Elements(arg: AddArg): seq<Element>
  {
    match arg
    case One(e) => [e]
    case Many(es) => es
  }

  /** The top-level netlist. */
  class Circuit {
    var directives: seq<Directive>
    var subcircuits: seq<SubcircuitData>
    var instances: seq<Instance>
    var uidsMap: map<string, int>

    function Data(): CircuitData
      reads this
    {
      CircuitData(directives, subcircuits, instances, uidsMap)
    }

    ghost predicate Valid()
      reads this
    {
      Wellformed(Data())
    }

    constructor ()
      ensures Valid() && Data() == CircuitData([], [], [], map[])
    {
      directives := [];
      subcircuits := [];
      instances := [];
      uidsMap := map[];
    }

    /** `Circuit.__add_one`. */
    method AddOne(e: Element)
      requires Valid()
      modifies this
      ensures Valid() && Data() == Added(old(Data()), e)
    {
      ghost var before := Data();
      AddedKeepsWellformed(before, e);
      match e {
        case EDirective(d) =>
          directives := directives + [d];
        case ESubcircuit(s) =>
          if !HasEqualSubcircuit(subcircuits, s) {
            subcircuits := subcircuits + [s];
          }
        case EInstance(inst) =>
          var n := Count(uidsMap, inst.name) + 1;
          uidsMap := uidsMap[inst.name := n];
          instances := instances + [inst.(uid := Some(n))];
        case _ =>
      }
      assert Data() == Added(before, e);
    }

    /** `Circuit.add`: a list or tuple element by element, in order, or one element. */
    method Add(arg: AddArg)
      requires Valid()
      modifies this
      ensures Valid() && Data() == AddedAll(old(Data()), Elements(arg))
      ensures arg.One? ==> Data() == Added(old(Data()), arg.element)
    {
      var es := Elements(arg);
      var i := 0;
      while i < |es|
        invariant 0 <= i <= |es|
        invariant Valid()
        invariant Data() == AddedAll(old(Data()), es[..i])
      {
        AddOne(es[i]);
        assert es[..i + 1][..i] == es[..i];
        i := i + 1;
      }
      assert es[..|es|] == es;
      if arg.One? {
        assert es[..0] == [];
      }
    }

    /** `Circuit.__contains__` as written: a directive is looked up among the
        directives and an instance among the instances, each with its own `==`; a
        subcircuit is looked up among the directives, so it is never a member, and
        neither is a model, a component or a circuit. */
    function Contains(o: Element): (r: bool)
      reads this
      ensures r ==> o.EDirective? || o.EInstance?
      ensures o.ESubcircuit? ==> !r
      ensures o.EDirective? ==> (r <==> exists k :: 0 <= k < |directives| && DirectiveEq(directives[k], o.directive))
      ensures o.EInstance? ==> (r <==> exists k :: 0 <= k < |instances| && InstanceEq(instances[k], o.instance))
    {
      CircuitContainsLists(Data(), o);
      CircuitContains(Data(), o)
    }
  }

  /** The inverter's pins of the library's tests: `P`, `N`, ground 0 and supply 1. */
  function InverterPins(): (d: Dict<Node>)
    ensures Keys(d) == ["P", "N", "GND", "VDD"]
  {
    var d: seq<(string, Node)> := [("P", PyStr("P")), ("N", PyStr("N")), ("GND", PyInt(0)), ("VDD", PyInt(1))];
    assert d[0].0 != d[2].0 && d[0].0 != d[3].0 && d[1].0 != d[2].0 && d[1].0 != d[3].0 by {
      assert d[0].0[0] == 'P' && d[1].0[0] == 'N' && d[2].0[0] == 'G' && d[3].0[0] == 'V';
    }
    assert Keys(d)[2] == "GND";
    d
  }

  /** The library's component test: a resistor declared with node defaults equals the
      component rebuilt from an instance with the same nodes and parameters. */
  lemma ComponentFromInstanceExample()
    ensures var params: Dict<Value> := [("R", PyOther("1000.0", true))];
      var nodes: Dict<Node> := [("P", PyInt(1)), ("N", PyInt(0))];
      NewComponent("Res", NodeDefaults(NodeValues(nodes)), Some(params), None) ==
      Component.FromInstance(Instance("Res", nodes, params, None, None, None), false, false)
  {
  }

  /** The values of a node dict, in order: the positional form of a named call. */
  function PinValues(pins: Dict<Node>): (vs: seq<Node>)
    ensures |vs| == |pins| && forall i :: 0 <= i < |pins| ==> vs[i] == pins[i].1
  {
    seq(|pins|, i requires 0 <= i < |pins| => pins[i].1)
  }

  /** A template declared from the names of a node dict has those names in order,
      finds each of the dict's values under its own name, and has nothing missing
      once the dict is supplied. */
  lemma TemplateFromPins(pins: Dict<Node>)
    ensures var template := DeclaredNodes(NodeNames(Keys(pins)));
      |template| == |pins| &&
      (forall i :: 0 <= i < |template| ==> Lookup(pins, template[i].0) == Some(PinValues(pins)[i])) &&
      MissingDefaults(template, NodeValues(pins)) == {}
  {
    var names := Keys(pins);
    var template := DeclaredNodes(NodeNames(names));
    assert Distinct(names);
    FromKeysOrder(names, PyNone);
    forall i | 0 <= i < |template| ensures Lookup(pins, template[i].0) == Some(PinValues(pins)[i]) {
      assert template[i].0 == names[i] == pins[i].0;
      LookupAt(pins, i);
    }
    SameKeysSameKeySet(template, pins);
    AllNodesSupplied(template, pins);
  }

  /** For a template declared from a list of node names, naming every node in a dict
      and giving the same values as a list in the declared order produce equal
      instances; the named call returns exactly the caller's dict. */
  lemma DictAndListCallsAgree(name: string, pins: Dict<Node>)
    ensures var template := DeclaredNodes(NodeNames(Keys(pins)));
      var named := Generate(name, template, [], None, Named(pins), None, None, None, true);
      var positional := Generate(name, template, [], None, Positional(PinValues(pins)), None, None, None, true);
      named == Ok(Instance(name, pins, [], None, None, None)) &&
      positional.Ok? && InstanceEq(positional.value, named.value)
  {
    var template := DeclaredNodes(NodeNames(Keys(pins)));
    TemplateFromPins(pins);
    NamedCallOk(name, template, pins);
    PositionalMatchesNamed(name, template, [], None, PinValues(pins), pins, None, None, None, true);
  }

  /** A checked call by name with nothing missing binds exactly the given pins. */
  lemma NamedCallOk(name: string, template: Dict<Value>, pins: Dict<Node>)
    requires MissingDefaults(template, NodeValues(pins)) == {}
    ensures Generate(name, template, [], None, Named(pins), None, None, None, true)
              == Ok(Instance(name, pins, [], None, None, None))
  {
    NoRequiredNothingMissing([], []);
  }

  /** The library's subcircuit test: generating an inverter instance from a pin dict
      and from the same pins in order gives equal instances, both equal to the
      reference instance. */
  lemma SubcircuitNewExample()
    ensures var template := DeclaredNodes(NodeNames(["P", "N", "GND", "VDD"]));
      var named := Generate("Inv", template, [], None, Named(InverterPins()), None, None, None, true);
      var positional := Generate("Inv", template, [], None, Positional([PyStr("P"), PyStr("N"), PyInt(0), PyInt(1)]), None, None, None, true);
      named == Ok(Instance("Inv", InverterPins(), [], None, None, None)) &&
      positional.Ok? && InstanceEq(positional.value, named.value)
  {
    InverterPinValues();
    DictAndListCallsAgree("Inv", InverterPins());
  }

  lemma InverterPinValues()
    ensures PinValues(InverterPins()) == [PyStr("P"), PyStr("N"), PyInt(0), PyInt(1)]
  {
  }

  lemma SameKeysSameKeySet<V, W>(a: Dict<V>, b: Dict<W>)
    requires Keys(a) == Keys(b)
    ensures KeySet(a) == KeySet(b)
  {
    assert forall i :: 0 <= i < |a| ==> a[i].0 == Keys(a)[i] == Keys(b)[i] == b[i].0;
  }

  /** Node values are never `None`, so a caller that names every node of the template
      passes the node check. */
  lemma AllNodesSupplied(template: Dict<Value>, nodes: Dict<Node>)
    requires KeySet(template) <= KeySet(nodes)
    ensures MissingDefaults(template, NodeValues(nodes)) == {}
  {
    forall k ensures k !in MissingDefaults(template, NodeValues(nodes)) {
      MissingDefaultsSpec(template, NodeValues(nodes), k);
      RequiredLookup(template, k);
      if k in Required(template) {
        assert k in KeySet(template);
        LookupFound(nodes, k);
        NodeValuesLookup(nodes, k);
      }
    }
  }

  /** The library's circuit test on values, for any subcircuit, any instance without a
      uid and any directive: after adding the subcircuit, the instance twice and the
      directive to an empty circuit, the directive is a member, the instance is not,
      two numbered copies are stored, and the subcircuit is a member only under the
      intended lookup. */
  lemma CircuitTestOnValues(s: SubcircuitData, inst: Instance, d: Directive)
    requires inst.uid.None?
    ensures var c1 := Added(CircuitData([], [], [], map[]), ESubcircuit(s));
      var c2 := Added(Added(c1, EInstance(inst)), EInstance(inst));
      var c3 := Added(c2, EDirective(d));
      CircuitContains(c3, EDirective(d)) && !CircuitContains(c3, EInstance(inst)) &&
      !CircuitContains(c3, ESubcircuit(s)) && CircuitContainsFixed(c3, ESubcircuit(s)) &&
      |c3.instances| == 2
  {
    var c0 := CircuitData([], [], [], map[]);
    var c1 := Added(c0, ESubcircuit(s));
    AddedSubcircuitIsMemberFixed(c0, s);
    var c2 := Added(Added(c1, EInstance(inst)), EInstance(inst));
    assert c2.subcircuits == c1.subcircuits;
    var c3 := Added(c2, EDirective(d));
    AddedDirectiveIsMember(c2, d);
    assert Wellformed(c0);
    AddedKeepsWellformed(c0, ESubcircuit(s));
    AddedKeepsWellformed(c1, EInstance(inst));
    AddedKeepsWellformed(Added(c1, EInstance(inst)), EInstance(inst));
    AddedKeepsWellformed(c2, EDirective(d));
    UnnumberedInstanceNotMember(c3, inst);
    SubcircuitNeverMember(c2, s);
  }

  /** The library's circuit test: after adding a subcircuit, an instance twice and a
      raw directive, the directive is a member and the instance is not. The subcircuit
      is not a member as written, and is one under the intended lookup. */
  method CircuitExample() returns (directiveIn: bool, instanceIn: bool, subcircuitIn: bool,
                                   subcircuitInFixed: bool, count: nat)
    ensures directiveIn && !instanceIn && !subcircuitIn && subcircuitInFixed && count == 2
  {
    var c := new Circuit();
    var inv := new Subcircuit("Inv", NodeNames(["P", "N", "GND", "VDD"]), None, None, None);
    var invData := inv.Data();
    var inst := Instance("Inv", InverterPins(), [], None, None, None);
    var d := NewDirective("This is a raw directive", None, []);
    CircuitTestOnValues(invData, inst, d);
    c.Add(One(ESubcircuit(invData)));
    c.Add(One(EInstance(inst)));
    c.Add(One(EInstance(inst)));
    c.Add(One(EDirective(d)));
    directiveIn := c.Contains(EDirective(d));
    instanceIn := c.Contains(EInstance(inst));
    subcircuitIn := c.Contains(ESubcircuit(invData));
    subcircuitInFixed := CircuitContainsFixed(c.Data(), ESubcircuit(invData));
    count := |c.instances|;
  }
}
