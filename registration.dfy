/** `check_registered`: every subcircuit a circuit defines is used by one of its
    top-level instances. */
module Registration {
  import opened Dicts
  import opened Core

  function InstanceNames(c: CircuitData): set<string>
  {
    set inst | inst in c.instances :: inst.name
  }

  function SubcircuitNames(c: CircuitData): set<string>
  {
    set s | s in c.subcircuits :: s.name
  }

  /** `check_registered`: the subcircuit names are a subset of the instance names. */
  predicate CheckRegistered(c: CircuitData)
  {
    SubcircuitNames(c) <= InstanceNames(c)
  }

  /** Some instance of the list carries the name. */
  predicate HasInstanceNamed(instances: seq<Instance>, n: string)
  {
    exists j :: 0 <= j < |instances| && instances[j].name == n
  }

  /** A circuit is registered exactly when every stored subcircuit is named by some
      stored instance. */
  lemma RegisteredIff(c: CircuitData)
    ensures CheckRegistered(c) <==>
      forall k :: 0 <= k < |c.subcircuits| ==> HasInstanceNamed(c.instances, c.subcircuits[k].name)
  {
    if CheckRegistered(c) {
      forall k | 0 <= k < |c.subcircuits| ensures HasInstanceNamed(c.instances, c.subcircuits[k].name) {
        var s := c.subcircuits[k];
        assert s.name in SubcircuitNames(c);
        var inst :| inst in c.instances && inst.name == s.name;
        var j :| 0 <= j < |c.instances| && c.instances[j] == inst;
      }
    } else {
      var n :| n in SubcircuitNames(c) && n !in InstanceNames(c);
      var s :| s in c.subcircuits && s.name == n;
      var k :| 0 <= k < |c.subcircuits| && c.subcircuits[k] == s;
      forall j | 0 <= j < |c.instances| ensures c.instances[j].name != n {
        assert c.instances[j] in c.instances;
      }
      assert !HasInstanceNamed(c.instances, c.subcircuits[k].name);
    }
  }

  /** Adding a directive, an instance or a kind the circuit drops keeps a registered
      circuit registered: the subcircuits stay as they were and no instance name is
      lost. */
  lemma AddedOtherKeepsRegistered(c: CircuitData, e: Element)
    requires CheckRegistered(c) && !e.ESubcircuit?
    ensures CheckRegistered(Added(c, e))
  {
    var after := Added(c, e);
    assert after.subcircuits == c.subcircuits;
    forall n | n in InstanceNames(c) ensures n in InstanceNames(after) {
      var inst :| inst in c.instances && inst.name == n;
      var j :| 0 <= j < |c.instances| && c.instances[j] == inst;
      assert after.instances[j] == inst;
    }
  }

  /** Adding a subcircuit to a registered circuit keeps it registered exactly when an
      equal subcircuit is already stored (nothing is added) or some instance already
      carries its name. */
  lemma AddedSubcircuitRegistered(c: CircuitData, s: SubcircuitData)
    requires CheckRegistered(c)
    ensures CheckRegistered(Added(c, ESubcircuit(s))) <==>
      HasEqualSubcircuit(c.subcircuits, s) || s.name in InstanceNames(c)
  {
    if !HasEqualSubcircuit(c.subcircuits, s) {
      var after := Added(c, ESubcircuit(s));
      assert after.subcircuits[|c.subcircuits|] == s;
      assert SubcircuitNames(after) == SubcircuitNames(c) + {s.name};
    }
  }

  /** Adding a list of elements without subcircuits keeps a registered circuit
      registered. */
  lemma {:induction false} AddedAllOtherKeepsRegistered(c: CircuitData, es: seq<Element>)
    requires CheckRegistered(c)
    requires forall i :: 0 <= i < |es| ==> !es[i].ESubcircuit?
    ensures CheckRegistered(AddedAll(c, es))
    decreases |es|
  {
    if |es| > 0 {
      AddedAllOtherKeepsRegistered(c, es[..|es| - 1]);
      AddedOtherKeepsRegistered(AddedAll(c, es[..|es| - 1]), es[|es| - 1]);
    }
  }

  /** On the data of the library's circuit test: the inverter subcircuit is registered
      once an inverter instance is added, and not before. */
  lemma RegistrationExample()
    ensures var c0 := CircuitData([], [], [], map[]);
      var inv := SubcircuitData("Inv", [], [], [], map[], None);
      var c1 := Added(c0, ESubcircuit(inv));
      var c2 := Added(c1, EInstance(Instance("Inv", [], [], None, None, None)));
      !CheckRegistered(c1) && CheckRegistered(c2)
  {
    var c0 := CircuitData([], [], [], map[]);
    var inv := SubcircuitData("Inv", [], [], [], map[], None);
    var c1 := Added(c0, ESubcircuit(inv));
    assert c1.subcircuits == [inv] && c1.instances == [];
    assert "Inv" in SubcircuitNames(c1);
    var c2 := Added(c1, EInstance(Instance("Inv", [], [], None, None, None)));
    assert c2.subcircuits == [inv];
    assert SubcircuitNames(c2) == {"Inv"};
    assert c2.instances[0] in c2.instances;
  }
}
