/** Helpers of the netlist library: which required keys a caller left out, a counter
    that names fresh nets, and per-corner parameter lookup. */
module Utils {
  import opened Text
  import opened Dicts
  import opened Values

  /** Keys whose default is `None`: the caller must supply them. */
  function Required(defaults: Dict<Value>): set<string>
  {
    set i | 0 <= i < |defaults| && defaults[i].1 == PyNone :: defaults[i].0
  }

  /** Keys the caller supplied with a value other than `None`. */
  function Provided(data: Dict<Value>): set<string>
  {
    set i | 0 <= i < |data| && data[i].1 != PyNone :: data[i].0
  }

  /** `missing_defaults(defaults, data)`: the required keys that `data` does not
      supply. The source turns a set into a list, so the order is unspecified; the
      model returns the set. */
  function MissingDefaults(defaults: Dict<Value>, data: Dict<Value>): set<string>
  {
    var required := Required(defaults);
    if required == {} then {} else required - Provided(data)
  }

  lemma RequiredLookup(defaults: Dict<Value>, k: string)
    ensures k in Required(defaults) <==> Lookup(defaults, k) == Some(PyNone)
  {
    LookupFound(defaults, k);
    if k in Required(defaults) {
      var i :| 0 <= i < |defaults| && defaults[i].1 == PyNone && defaults[i].0 == k;
      LookupAt(defaults, i);
    }
  }

  lemma ProvidedLookup(data: Dict<Value>, k: string)
    ensures k in Provided(data) <==> Lookup(data, k).Some? && Lookup(data, k).value != PyNone
  {
    LookupFound(data, k);
    if k in Provided(data) {
      var i :| 0 <= i < |data| && data[i].1 != PyNone && data[i].0 == k;
      LookupAt(data, i);
    }
  }

  /** A key is reported missing exactly when its default is `None` and `data` either
      lacks it or gives it `None`. Keys that only `data` has are never reported. */
  lemma MissingDefaultsSpec(defaults: Dict<Value>, data: Dict<Value>, k: string)
    ensures k in MissingDefaults(defaults, data) <==>
      Lookup(defaults, k) == Some(PyNone) && (Lookup(data, k) == None || Lookup(data, k) == Some(PyNone))
  {
    RequiredLookup(defaults, k);
    ProvidedLookup(data, k);
  }

  /** When no default is `None`, nothing is ever missing, whatever `data` holds. */
  lemma NoRequiredNothingMissing(defaults: Dict<Value>, data: Dict<Value>)
    requires forall i :: 0 <= i < |defaults| ==> defaults[i].1 != PyNone
    ensures MissingDefaults(defaults, data) == {}
  {
    assert Required(defaults) == {};
  }

  /** The two cases written out in the function's own documentation. */
  lemma MissingDefaultsExamples()
    ensures MissingDefaults([("a", PyNone), ("b", PyInt(42))], [("a", PyInt(32))]) == {}
    ensures MissingDefaults([("a", PyNone), ("b", PyInt(42))], [("b", PyInt(32))]) == {"a"}
  {
    var defaults: Dict<Value> := [("a", PyNone), ("b", PyInt(42))];
    MissingDefaultsSpec(defaults, [("a", PyInt(32))], "a");
    forall k ensures k in MissingDefaults(defaults, [("b", PyInt(32))]) <==> k == "a" {
      MissingDefaultsSpec(defaults, [("b", PyInt(32))], k);
    }
    forall k ensures k !in MissingDefaults(defaults, [("a", PyInt(32))]) {
      MissingDefaultsSpec(defaults, [("a", PyInt(32))], k);
    }
  }

  // Net names.

  /** The regular expression `.*\{id.*\}.*` matched from the start of the pattern:
      `{id` and a later `}`, with no line break before that `}` (`.` does not match
      a line break). */
  predicate PlaceholderAt(pattern: string, i: nat, j: nat)
  {
    i + 3 <= j < |pattern| && pattern[i..i + 3] == "{id" && pattern[j] == '}' && '\n' !in pattern[..j]
  }

  predicate PatternAccepted(pattern: string)
  {
    exists i: nat, j: nat | j < |pattern| :: i <= j && PlaceholderAt(pattern, i, j)
  }

  /** `pattern.format(id=id)` for patterns whose only replacement field is `{id}`. */
  function Format(pattern: string, id: int): string
    decreases |pattern|
  {
    if |pattern| == 0 then ""
    else if |pattern| >= 4 && pattern[..4] == "{id}" then IntToString(id) + Format(pattern[4..], id)
    else [pattern[0]] + Format(pattern[1..], id)
  }

  /** `step or self.__step`: a missing or zero step falls back to the configured one. */
  function EffectiveStep(step: Option<int>, configured: int): (s: int)
    ensures s != 0 || configured == 0
    ensures step.Some? && step.value != 0 ==> s == step.value
    ensures step.None? ==> s == configured
    ensures step.Some? && step.value == 0 ==> s == configured
  {
    if step.None? || step.value == 0 then configured else step.value
  }

  /** `NetGen`: hands out net names from a pattern and a counter. */
  class NetGen {
    const pattern: string
    var id: int
    const step: int

    constructor (pattern: string, start: int, step: int)
      requires PatternAccepted(pattern)
      ensures this.pattern == pattern && id == start && this.step == step
    {
      this.pattern := pattern;
      this.id := start;
      this.step := step;
    }

    /** `gen(step)`: first advances the counter, then formats the new value, so the
        first name carries `start + step`. */
    method Call(step: Option<int>) returns (net: string)
      modifies this
      ensures id == old(id) + EffectiveStep(step, this.step)
      ensures net == Format(pattern, id)
    {
      id := id + EffectiveStep(step, this.step);
      net := Format(pattern, id);
    }

    /** `next(gen)`: the same as `gen()`. */
    method Next() returns (net: string)
      modifies this
      ensures id == old(id) + step
      ensures net == Format(pattern, id)
    {
      net := Call(None);
    }
  }

  lemma PatternExamples()
    ensures PatternAccepted("net{id}")
    ensures PatternAccepted("MyNet-{id}")
    ensures !PatternAccepted("net")
  {
    assert PlaceholderAt("net{id}", 3, 6);
    assert PlaceholderAt("MyNet-{id}", 6, 9);
    forall i: nat, j: nat ensures !PlaceholderAt("net", i, j) {
    }
  }

  /** The class's own documented example, `NetGen("MyNet-{id}", 1)`, as the code
      behaves: `gen()`, `gen(2)`, `gen()` give MyNet-2, MyNet-4, MyNet-5. */
  method NetGenExample() returns (a: string, b: string, c: string)
    ensures a == "MyNet-2" && b == "MyNet-4" && c == "MyNet-5"
  {
    PatternExamples();
    var gen := new NetGen("MyNet-{id}", 1, 1);
    a := gen.Call(None);
    b := gen.Call(Some(2));
    c := gen.Next();
    FormatExamples();
  }

  lemma FormatExamples()
    ensures Format("MyNet-{id}", 2) == "MyNet-2"
    ensures Format("MyNet-{id}", 4) == "MyNet-4"
    ensures Format("MyNet-{id}", 5) == "MyNet-5"
  {
    FormatNetPattern(2);
    FormatNetPattern(4);
    FormatNetPattern(5);
    assert IntToString(2) == "2" && IntToString(4) == "4" && IntToString(5) == "5";
  }

  /** The library's net pattern substitutes the id after its literal prefix. */
  lemma FormatNetPattern(id: int)
    ensures Format("MyNet-{id}", id) == "MyNet-" + IntToString(id)
  {
    assert "MyNet-{id}" == "MyNet-" + "{id}";
    FormatLiteralPrefix("MyNet-", "{id}", id);
    var p := "{id}";
    assert p[..4] == "{id}" && p[4..] == "";
    assert Format(p, id) == IntToString(id) + Format("", id);
  }

  /** Text without `{` before the rest of a pattern is copied as it is. */
  lemma {:induction false} FormatLiteralPrefix(literal: string, rest: string, id: int)
    requires '{' !in literal
    ensures Format(literal + rest, id) == literal + Format(rest, id)
    decreases |literal|
  {
    if |literal| > 0 {
      var p := literal + rest;
      assert p[0] == literal[0];
      if |p| >= 4 {
        assert p[..4][0] == literal[0];
      }
      assert p[1..] == literal[1..] + rest;
      FormatLiteralPrefix(literal[1..], rest, id);
      assert [literal[0]] + literal[1..] == literal;
    } else {
      assert literal + rest == rest;
    }
  }

  /** A pattern without `{` formats to itself. */
  lemma FormatWithoutField(pattern: string, id: int)
    requires '{' !in pattern
    ensures Format(pattern, id) == pattern
  {
    FormatLiteralPrefix(pattern, "", id);
    assert pattern + "" == pattern;
  }

  // Process corners.

  function GetOrNone(params: Dict<Value>, k: string): Value
  {
    match Lookup(params, k)
    case Some(v) => v
    case None => PyNone
  }

  /** `Corner.param(k)`: for every corner, in order, that corner's value for `k`. */
  function CornerParam(corners: Dict<Dict<Value>>, k: string): (r: Dict<Value>)
    ensures |r| == |corners|
    ensures forall i :: 0 <= i < |r| ==> r[i] == (corners[i].0, GetOrNone(corners[i].1, k))
  {
    seq(|corners|, i requires 0 <= i < |corners| => (corners[i].0, GetOrNone(corners[i].1, k)))
  }

  /** Looking a corner up in `param(k)` gives that corner's value for `k`, or `None`
      when the corner lacks `k`; unknown corners are absent. */
  lemma CornerParamLookup(corners: Dict<Dict<Value>>, k: string, corner: string)
    ensures Lookup(CornerParam(corners, k), corner) ==
      match Lookup(corners, corner)
      case Some(params) => Some(GetOrNone(params, k))
      case None => None
  {
    var r := CornerParam(corners, k);
    LookupFound(corners, corner);
    LookupFound(r, corner);
    if Lookup(corners, corner).Some? {
      var i :| 0 <= i < |corners| && corners[i] == (corner, Lookup(corners, corner).value);
      LookupAt(r, i);
    } else {
      assert forall i :: 0 <= i < |r| ==> r[i].0 != corner;
    }
  }
}
