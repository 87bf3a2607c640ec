/** The Spectre netlist writer: each kind of element renders to text, a circuit renders
    its sections in order, and a dump goes to a text sink. */
module Writers {
  import opened Text
  import opened Dicts
  import opened Values
  import opened Core

  // ---------------------------------------------------------------------------
  // Parameter lists

  /** One entry of `fmt_params`: `k=v` for a truthy value, the bare key otherwise. */
  function Entry(k: string, v: Value): string
  {
    if Truthy(v) then k + "=" + Str(v) else k
  }

  function Entries(p: Dict<Value>): (r: seq<string>)
    ensures |r| == |p| && forall i :: 0 <= i < |p| ==> r[i] == Entry(p[i].0, p[i].1)
  {
    seq(|p|, i requires 0 <= i < |p| => Entry(p[i].0, p[i].1))
  }

  /** `SpectreWriter.fmt_params`: the entries in mapping order, separated by spaces. */
  function FmtParams(p: Dict<Value>): string
  {
    Join(" ", Entries(p))
  }

  /** Reads one entry back: the key, and the value text when there is an `=`. */
  function ParseEntry(e: string): (string, Option<string>)
  {
    var parts := Split(e, '=');
    if |parts| == 1 then (parts[0], None) else (parts[0], Some(parts[1]))
  }

  /** Keys and rendered values without line breaks, spaces or `=`. */
  predicate PlainParams(p: Dict<Value>)
  {
    forall i :: 0 <= i < |p| ==> Plain(p[i].0) && (Truthy(p[i].1) ==> Plain(Str(p[i].1)))
  }

  /** Text that stays one word of one line. */
  predicate OneWord(s: string)
  {
    ' ' !in s && '\n' !in s
  }

  lemma EntryParse(k: string, v: Value)
    requires Plain(k) && (Truthy(v) ==> Plain(Str(v)))
    ensures OneWord(Entry(k, v))
    ensures ParseEntry(Entry(k, v)) == (k, if Truthy(v) then Some(Str(v)) else None)
  {
    if Truthy(v) {
      assert k + "=" + Str(v) == k + ['='] + Str(v);
      SplitPrefix(k, '=', Str(v));
      SplitNoSeparator(Str(v), '=');
    } else {
      SplitNoSeparator(k, '=');
    }
  }

  /** Splitting a rendered parameter list at spaces and each entry at `=` gives back
      every key in order, with the value of each truthy entry; a falsy value leaves
      only its key. */
  lemma FmtParamsRoundTrip(p: Dict<Value>)
    requires |p| >= 1 && PlainParams(p)
    ensures Split(FmtParams(p), ' ') == Entries(p)
    ensures forall i :: 0 <= i < |p| ==>
      ParseEntry(Split(FmtParams(p), ' ')[i]) == (p[i].0, if Truthy(p[i].1) then Some(Str(p[i].1)) else None)
  {
    forall i | 0 <= i < |p| ensures OneWord(Entries(p)[i]) && ParseEntry(Entries(p)[i]) == (p[i].0, if Truthy(p[i].1) then Some(Str(p[i].1)) else None) {
      EntryParse(p[i].0, p[i].1);
    }
    SplitJoin(Entries(p), ' ');
  }

  // ---------------------------------------------------------------------------
  // Words of a line

  /** Words wrapped in parentheses: `(` glued to the first, `)` to the last, and `()`
      alone for no words. */
  function Paren(ws: seq<string>): (r: seq<string>)
    ensures |r| >= 1
  {
    if |ws| == 0 then ["()"]
    else
      var withOpen := ws[0 := "(" + ws[0]];
      withOpen[|ws| - 1 := withOpen[|ws| - 1] + ")"]
  }

  lemma JoinPrefixFirst(sep: string, ws: seq<string>, a: string)
    requires |ws| >= 1
    ensures Join(sep, ws[0 := a + ws[0]]) == a + Join(sep, ws)
  {
    if |ws| > 1 {
      assert ws[0 := a + ws[0]][1..] == ws[1..];
    }
  }

  lemma {:induction false} JoinSuffixLast(sep: string, ws: seq<string>, b: string)
    requires |ws| >= 1
    ensures Join(sep, ws[|ws| - 1 := ws[|ws| - 1] + b]) == Join(sep, ws) + b
    decreases |ws|
  {
    if |ws| > 1 {
      var t := ws[1..];
      JoinSuffixLast(sep, t, b);
      assert ws[|ws| - 1 := ws[|ws| - 1] + b][1..] == t[|t| - 1 := t[|t| - 1] + b];
    }
  }

  /** The words in parentheses, joined, are the joined words in parentheses. */
  lemma JoinParen(ws: seq<string>)
    ensures Join(" ", Paren(ws)) == "(" + Join(" ", ws) + ")"
  {
    if |ws| > 0 {
      var withOpen := ws[0 := "(" + ws[0]];
      JoinPrefixFirst(" ", ws, "(");
      JoinSuffixLast(" ", withOpen, ")");
    }
  }

  lemma ParenNoSpace(ws: seq<string>)
    requires NoneContains(ws, ' ')
    ensures NoneContains(Paren(ws), ' ')
  {
    if |ws| > 0 {
      var withOpen := ws[0 := "(" + ws[0]];
      assert ' ' !in "(" + ws[0];
      assert NoneContains(withOpen, ' ');
      assert ' ' !in withOpen[|ws| - 1] + ")";
    }
  }

  // ---------------------------------------------------------------------------
  // Directives and models

  /** `SpectreWriter.directive`. */
  function WriteDirective(d: Directive): (r: string)
    ensures |r| >= |d.command| && r[..|d.command|] == d.command
  {
    if d.IsRaw() || |d.args| == 0 then d.command else d.command + " " + FmtParams(d.args)
  }

  /** A raw directive is its command alone; otherwise the words of the line are the
      command followed by the parameter entries. */
  lemma DirectiveWords(d: Directive)
    requires d.IsRaw() || (Plain(d.command) && PlainParams(d.args))
    ensures d.IsRaw() ==> WriteDirective(d) == d.command
    ensures !d.IsRaw() ==> Split(WriteDirective(d), ' ') == [d.command] + Entries(d.args)
  {
    if !d.IsRaw() {
      FmtParamsRoundTrip(d.args);
      JoinAppend(" ", [d.command], Entries(d.args));
      SplitJoin([d.command] + Entries(d.args), ' ') by {
        forall i | 0 <= i < |d.args| ensures OneWord(Entries(d.args)[i]) {
          EntryParse(d.args[i].0, d.args[i].1);
        }
      }
    }
  }

  /** `SpectreWriter.model`. */
  function WriteModel(m: Model): (r: string)
    ensures |r| > 6 && r[..6] == "model "
  {
    "model " + m.name + " " + m.base + " (" + FmtParams(m.params) + ")"
  }

  function ModelWords(m: Model): seq<string>
  {
    ["model", m.name, m.base] + Paren(Entries(m.params))
  }

  /** The words of a model line are `model`, the name, the base and the
      parenthesised parameter entries. */
  lemma ModelSplit(m: Model)
    requires Plain(m.name) && Plain(m.base) && PlainParams(m.params)
    ensures Split(WriteModel(m), ' ') == ModelWords(m)
  {
    var es := Entries(m.params);
    forall i | 0 <= i < |es| ensures OneWord(es[i]) {
      EntryParse(m.params[i].0, m.params[i].1);
    }
    JoinParen(es);
    ParenNoSpace(es);
    JoinAppend(" ", ["model", m.name, m.base], Paren(es));
    JoinCons(" ", m.name, [m.base]);
    JoinCons(" ", "model", [m.name, m.base]);
    assert ["model", m.name, m.base] == ["model"] + [m.name, m.base];
    assert [m.name, m.base] == [m.name] + [m.base];
    assert "model " == "model" + " " && " (" == " " + "(";
    assert WriteModel(m) == Join(" ", ModelWords(m));
    SplitJoin(ModelWords(m), ' ');
  }

  // ---------------------------------------------------------------------------
  // Instances

  /** `inst.cap or 'M'`. */
  function Tag(inst: Instance): string
  {
    if inst.cap.None? || inst.cap.value == "" then "M" else inst.cap.value
  }

  /** `inst.uid or 0`. */
  function Number(inst: Instance): int
  {
    if inst.uid.None? then 0 else inst.uid.value
  }

  /** The instance label of a netlist line: the tag then the number. */
  function Label(inst: Instance): (r: string)
    ensures |r| >= 1
  {
    Tag(inst) + IntToString(Number(inst))
  }

  function NodeTexts(inst: Instance): (r: seq<string>)
    ensures |r| == |inst.nodes| && forall i :: 0 <= i < |r| ==> r[i] == Str(inst.nodes[i].1)
  {
    seq(|inst.nodes|, i requires 0 <= i < |inst.nodes| => Str(inst.nodes[i].1))
  }

  /** `SpectreWriter.instance`. */
  function WriteInstance(inst: Instance): (r: string)
    ensures |r| > |Label(inst)| && r[..|Label(inst)|] == Label(inst)
  {
    var line := Label(inst) + " (" + Join(" ", NodeTexts(inst)) + ") " + inst.name;
    if |inst.params| > 0 then line + " " + FmtParams(inst.params) else line
  }

  function InstanceWords(inst: Instance): seq<string>
  {
    [Label(inst)] + Paren(NodeTexts(inst)) + [inst.name] + (if |inst.params| > 0 then Entries(inst.params) else [])
  }

  /** The instance fields an instance line is read back from. */
  predicate PlainInstance(inst: Instance)
  {
    && Plain(Tag(inst)) && Plain(inst.name) && PlainParams(inst.params)
    && forall i :: 0 <= i < |inst.nodes| ==> Plain(Str(inst.nodes[i].1))
  }

  /** The words of an instance line are its label, the node values in parentheses,
      the template name, and the parameter entries when there are parameters. */
  lemma InstanceSplit(inst: Instance)
    requires PlainInstance(inst)
    ensures Split(WriteInstance(inst), ' ') == InstanceWords(inst)
  {
    var nodes := NodeTexts(inst);
    var es := Entries(inst.params);
    forall i | 0 <= i < |es| ensures OneWord(es[i]) {
      EntryParse(inst.params[i].0, inst.params[i].1);
    }
    IntToStringPlain(Number(inst));
    assert Plain(Label(inst));
    JoinParen(nodes);
    ParenNoSpace(nodes);
    var front := [Label(inst)] + Paren(nodes) + [inst.name];
    JoinAppend(" ", [Label(inst)], Paren(nodes));
    JoinAppend(" ", [Label(inst)] + Paren(nodes), [inst.name]);
    assert Join(" ", front) == Label(inst) + " (" + Join(" ", nodes) + ") " + inst.name;
    if |inst.params| > 0 {
      JoinAppend(" ", front, es);
    } else {
      assert InstanceWords(inst) == front;
    }
    SplitJoin(InstanceWords(inst), ' ');
  }

  /** A label is read back as its tag and its number: two instances with the same tag
      share a label exactly when they have the same number. */
  lemma LabelsByNumber(a: Instance, b: Instance)
    requires Tag(a) == Tag(b)
    ensures Label(a) == Label(b) <==> Number(a) == Number(b)
  {
    if Label(a) == Label(b) {
      assert IntToString(Number(a)) == Label(a)[|Tag(a)|..];
      assert IntToString(Number(b)) == Label(b)[|Tag(b)|..];
      IntToStringInjective(Number(a), Number(b));
    }
  }

  /** In a circuit, two instances of the same template and tag get different labels. */
  lemma CircuitLabelsDistinct(c: CircuitData, i: nat, j: nat)
    requires Wellformed(c)
    requires i < j < |c.instances|
    requires c.instances[i].name == c.instances[j].name && Tag(c.instances[i]) == Tag(c.instances[j])
    ensures Label(c.instances[i]) != Label(c.instances[j])
  {
    UidsIncrease(c.instances, i, j);
    assert c.instances[i].uid == Some(CountName(c.instances[..i + 1], c.instances[i].name));
    assert c.instances[..i + 1][..i] == c.instances[..i];
    LabelsByNumber(c.instances[i], c.instances[j]);
  }

  /** Numbering is per template name, so instances of two templates that share a tag
      both get the label `R1`. */
  lemma LabelsCollideAcrossNames()
    ensures var c0 := CircuitData([], [], [], map[]);
      var a := Instance("Res1", [], [], None, None, Some("R"));
      var b := Instance("Res2", [], [], None, None, Some("R"));
      var c := AddedAll(c0, [EInstance(a), EInstance(b)]);
      |c.instances| == 2 && Label(c.instances[0]) == Label(c.instances[1]) == "R1"
  {
    var c0 := CircuitData([], [], [], map[]);
    var es := [EInstance(Instance("Res1", [], [], None, None, Some("R"))), EInstance(Instance("Res2", [], [], None, None, Some("R")))];
    assert es[..1][..0] == [];
    assert es[..1] == [es[0]];
  }

  // ---------------------------------------------------------------------------
  // Subcircuits

  function InstanceLines(instances: seq<Instance>): (r: seq<string>)
    ensures |r| == |instances| && forall i :: 0 <= i < |r| ==> r[i] == WriteInstance(instances[i])
  {
    seq(|instances|, i requires 0 <= i < |instances| => WriteInstance(instances[i]))
  }

  /** `SpectreWriter.subcircuit`. */
  function WriteSubcircuit(s: SubcircuitData): (r: string)
    ensures |r| > 7 && r[..7] == "subckt "
  {
    var header := HeaderLine(s) + "\n";
    var header' := if |s.params| > 0 then header + ParamLine(s) + "\n" else header;
    var r := header' + Join("\n", InstanceLines(s.instances)) + "\n" + EndLine(s);
    assert r[..7] == HeaderLine(s)[..7];
    r
  }

  /** `subckt <name> <node keys>`. */
  function HeaderLine(s: SubcircuitData): (r: string)
    ensures |r| > 7 && r[..7] == "subckt "
  {
    "subckt " + s.name + " " + Join(" ", Keys(s.nodes))
  }

  function ParamLine(s: SubcircuitData): string
  {
    "parameters " + FmtParams(s.params)
  }

  function EndLine(s: SubcircuitData): string
  {
    "ends " + s.name
  }

  /** The lines of a subcircuit block. An empty body still leaves one empty line. */
  function SubcircuitLines(s: SubcircuitData): seq<string>
  {
    [HeaderLine(s)] + (ParamLines(s) + (BodyLines(s) + [EndLine(s)]))
  }

  /** The `parameters` line, present only when the subcircuit has parameters. */
  function ParamLines(s: SubcircuitData): (r: seq<string>)
    ensures |r| <= 1
  {
    if |s.params| > 0 then [ParamLine(s)] else []
  }

  predicate NoBreak(s: string) { '\n' !in s }

  /** The fields of a subcircuit block that must stay on one line. */
  predicate OneLineFields(s: SubcircuitData)
  {
    && NoBreak(s.name)
    && (forall i :: 0 <= i < |s.nodes| ==> NoBreak(s.nodes[i].0))
    && PlainParams(s.params)
    && forall i :: 0 <= i < |s.instances| ==> PlainInstance(s.instances[i])
  }

  lemma JoinNoBreak(sep: string, ws: seq<string>)
    requires NoBreak(sep) && NoneContains(ws, '\n')
    ensures NoBreak(Join(sep, ws))
    decreases |ws|
  {
    if |ws| > 1 {
      JoinNoBreak(sep, ws[1..]);
    }
  }

  lemma InstanceLineNoBreak(inst: Instance)
    requires PlainInstance(inst)
    ensures NoBreak(WriteInstance(inst))
  {
    var es := Entries(inst.params);
    forall i | 0 <= i < |es| ensures OneWord(es[i]) {
      EntryParse(inst.params[i].0, inst.params[i].1);
    }
    IntToStringPlain(Number(inst));
    JoinNoBreak(" ", NodeTexts(inst));
    JoinNoBreak(" ", es);
  }

  lemma JoinCons(sep: string, h: string, ws: seq<string>)
    requires |ws| >= 1
    ensures Join(sep, [h] + ws) == h + sep + Join(sep, ws)
  {
    assert ([h] + ws)[1..] == ws;
  }

  /** Joining a block of lines: a first line, a body of one or more lines, and a
      last line. */
  lemma BlockJoin(h: string, body: seq<string>, t: string)
    requires |body| >= 1
    ensures Join("\n", [h] + (body + [t])) == h + "\n" + (Join("\n", body) + "\n" + t)
  {
    JoinAppend("\n", body, [t]);
    JoinCons("\n", h, body + [t]);
  }

  /** The body of a subcircuit block: its instance lines, or one empty line. */
  function BodyLines(s: SubcircuitData): (r: seq<string>)
    ensures |r| >= 1 && Join("\n", r) == Join("\n", InstanceLines(s.instances))
  {
    if |s.instances| > 0 then InstanceLines(s.instances) else [""]
  }

  /** The lines of a block, joined: a first line, at most one optional line, a body of
      one or more lines and a last line. */
  lemma BlockText(h: string, ps: seq<string>, body: seq<string>, t: string)
    requires |ps| <= 1 && |body| >= 1
    ensures Join("\n", [h] + (ps + (body + [t])))
      == (if |ps| == 1 then h + "\n" + ps[0] + "\n" else h + "\n") + Join("\n", body) + "\n" + t
  {
    if |ps| == 1 {
      BlockTextWithParams(h, ps[0], body, t);
      assert ps == [ps[0]];
    } else {
      assert ps + (body + [t]) == body + [t];
      BlockJoin(h, body, t);
    }
  }

  lemma BlockTextWithParams(h: string, p: string, body: seq<string>, t: string)
    requires |body| >= 1
    ensures Join("\n", [h] + ([p] + (body + [t]))) == h + "\n" + p + "\n" + Join("\n", body) + "\n" + t
  {
    var text := Join("\n", body);
    BlockJoin(p, body, t);
    JoinCons("\n", h, [p] + (body + [t]));
    calc {
      h + "\n" + (p + "\n" + (text + "\n" + t));
      == { Assoc(h + "\n", p + "\n", text + "\n" + t); }
      h + "\n" + (p + "\n") + (text + "\n" + t);
      == { Assoc(h + "\n", p, "\n"); }
      h + "\n" + p + "\n" + (text + "\n" + t);
      == { Assoc(h + "\n" + p + "\n", text + "\n", t); }
      h + "\n" + p + "\n" + (text + "\n") + t;
      == { Assoc(h + "\n" + p + "\n", text, "\n"); }
      h + "\n" + p + "\n" + text + "\n" + t;
    }
  }

  lemma Assoc<T>(a: seq<T>, b: seq<T>, c: seq<T>)
    ensures a + (b + c) == a + b + c
  {
  }

  /** A subcircuit block is its lines joined by line breaks. */
  lemma SubcircuitJoin(s: SubcircuitData)
    ensures WriteSubcircuit(s) == Join("\n", SubcircuitLines(s))
  {
    BlockText(HeaderLine(s), ParamLines(s), BodyLines(s), EndLine(s));
  }

  lemma HeaderNoBreak(s: SubcircuitData)
    requires OneLineFields(s)
    ensures NoBreak(HeaderLine(s))
  {
    JoinNoBreak(" ", Keys(s.nodes));
  }

  lemma ParamLinesNoBreak(s: SubcircuitData)
    requires OneLineFields(s)
    ensures NoneContains(ParamLines(s), '\n')
  {
    if |s.params| > 0 {
      forall i | 0 <= i < |s.params| ensures OneWord(Entries(s.params)[i]) {
        EntryParse(s.params[i].0, s.params[i].1);
      }
      JoinNoBreak(" ", Entries(s.params));
      assert NoBreak(ParamLine(s));
    }
  }

  lemma BodyNoBreak(s: SubcircuitData)
    requires OneLineFields(s)
    ensures NoneContains(BodyLines(s), '\n')
  {
    var body := InstanceLines(s.instances);
    forall i | 0 <= i < |body| ensures NoBreak(body[i]) {
      InstanceLineNoBreak(s.instances[i]);
    }
  }

  lemma BlockNoBreak(h: string, ps: seq<string>, body: seq<string>, t: string)
    requires NoBreak(h) && NoneContains(ps, '\n') && NoneContains(body, '\n') && NoBreak(t)
    ensures NoneContains([h] + (ps + (body + [t])), '\n')
  {
    var all := [h] + (ps + (body + [t]));
    forall i | 0 <= i < |all| ensures '\n' !in all[i] {
      if i == 0 {
      } else if i <= |ps| {
        assert all[i] == ps[i - 1];
      } else if i <= |ps| + |body| {
        assert all[i] == body[i - 1 - |ps|];
      } else {
        assert all[i] == t;
      }
    }
  }

  lemma SubcircuitLinesOneLine(s: SubcircuitData)
    requires OneLineFields(s)
    ensures NoneContains(SubcircuitLines(s), '\n')
  {
    HeaderNoBreak(s);
    ParamLinesNoBreak(s);
    BodyNoBreak(s);
    BlockNoBreak(HeaderLine(s), ParamLines(s), BodyLines(s), EndLine(s));
  }

  /** Split at line breaks, a subcircuit block is its header line, a `parameters`
      line when it has parameters, one line per instance (an empty line when it has
      none), and the closing `ends` line. */
  lemma SubcircuitSplit(s: SubcircuitData)
    requires OneLineFields(s)
    ensures Split(WriteSubcircuit(s), '\n') == SubcircuitLines(s)
  {
    SubcircuitJoin(s);
    SubcircuitLinesOneLine(s);
    SplitJoin(SubcircuitLines(s), '\n');
  }

  // ---------------------------------------------------------------------------
  // Circuits

  /** `[l for l in lists if l]`. */
  function NonEmptyTexts(ts: seq<string>): (r: seq<string>)
    ensures forall i :: 0 <= i < |r| ==> r[i] != ""
    decreases |ts|
  {
    if |ts| == 0 then []
    else if ts[0] != "" then [ts[0]] + NonEmptyTexts(ts[1..])
    else NonEmptyTexts(ts[1..])
  }

  function DirectiveLines(ds: seq<Directive>): (r: seq<string>)
    ensures |r| == |ds| && forall i :: 0 <= i < |r| ==> r[i] == WriteDirective(ds[i])
  {
    seq(|ds|, i requires 0 <= i < |ds| => WriteDirective(ds[i]))
  }

  function SubcircuitTexts(ss: seq<SubcircuitData>): (r: seq<string>)
    ensures |r| == |ss| && forall i :: 0 <= i < |r| ==> r[i] == WriteSubcircuit(ss[i])
  {
    seq(|ss|, i requires 0 <= i < |ss| => WriteSubcircuit(ss[i]))
  }

  /** `SpectreWriter.circuit`: the directives, the subcircuits and the instances, each
      section joined by line breaks, and the sections that are not empty joined by
      line breaks. */
  function WriteCircuit(c: CircuitData): string
  {
    var sections := [Join("\n", DirectiveLines(c.directives)), Join("\n", SubcircuitTexts(c.subcircuits)),
                     Join("\n", InstanceLines(c.instances))];
    Join("\n", NonEmptyTexts(sections))
  }

  /** Non-empty groups of a list of groups. */
  function NonEmptyGroups(gs: seq<seq<string>>): (r: seq<seq<string>>)
    ensures forall i :: 0 <= i < |r| ==> |r[i]| >= 1
    decreases |gs|
  {
    if |gs| == 0 then []
    else if |gs[0]| > 0 then [gs[0]] + NonEmptyGroups(gs[1..])
    else NonEmptyGroups(gs[1..])
  }

  lemma JoinNonEmpty(sep: string, ws: seq<string>)
    requires |ws| >= 1 && ws[0] != ""
    ensures Join(sep, ws) != ""
  {
    if |ws| > 1 {
      assert Join(sep, ws)[..|ws[0]|] == ws[0];
    }
  }

  /** When no text is empty, dropping empty joined groups is dropping empty groups, and
      their concatenation loses nothing. */
  lemma {:induction false} FilterSections(gs: seq<seq<string>>)
    requires forall i, j :: 0 <= i < |gs| && 0 <= j < |gs[i]| ==> gs[i][j] != ""
    ensures NonEmptyTexts(JoinEach("\n", gs)) == JoinEach("\n", NonEmptyGroups(gs))
    ensures Concat(NonEmptyGroups(gs)) == Concat(gs)
    decreases |gs|
  {
    if |gs| > 0 {
      FilterSections(gs[1..]);
      assert JoinEach("\n", gs)[1..] == JoinEach("\n", gs[1..]);
      if |gs[0]| > 0 {
        JoinNonEmpty("\n", gs[0]);
      } else {
        assert Concat(gs) == gs[0] + Concat(gs[1..]);
      }
    }
  }

  /** Every element text of a circuit, in order: directives, subcircuits, instances. */
  function CircuitTexts(c: CircuitData): seq<string>
  {
    DirectiveLines(c.directives) + SubcircuitTexts(c.subcircuits) + InstanceLines(c.instances)
  }

  lemma ConcatThree(a: seq<string>, b: seq<string>, c: seq<string>)
    ensures Concat([a, b, c]) == a + b + c
  {
    assert Concat([c]) == c by {
      assert [c][1..] == [];
      assert c + [] == c;
    }
    assert [b, c][1..] == [c];
    assert [a, b, c][1..] == [b, c];
  }

  /** When every directive has a command, a circuit renders as its element texts in
      order, each separated from the next by exactly one line break: empty sections
      leave no blank line. */
  lemma CircuitLayout(c: CircuitData)
    requires forall i :: 0 <= i < |c.directives| ==> c.directives[i].command != ""
    ensures WriteCircuit(c) == Join("\n", CircuitTexts(c))
  {
    var ds := DirectiveLines(c.directives);
    var ss := SubcircuitTexts(c.subcircuits);
    var ins := InstanceLines(c.instances);
    var gs := [ds, ss, ins];
    assert forall j :: 0 <= j < |ds| ==> ds[j] != "";
    assert forall j :: 0 <= j < |ss| ==> ss[j] != "";
    assert forall j :: 0 <= j < |ins| ==> ins[j] != "";
    FilterSections(gs);
    assert JoinEach("\n", gs) == [Join("\n", ds), Join("\n", ss), Join("\n", ins)];
    JoinFlatten("\n", NonEmptyGroups(gs));
    ConcatThree(ds, ss, ins);
  }

  // ---------------------------------------------------------------------------
  // Dispatch

  function QuoteStr(s: string): string { "'" + s + "'" }

  /** `repr` of a dict: `{'k': v, ...}`. */
  function DictRepr<V>(d: Dict<V>, repr: V -> string): string
  {
    "{" + Join(", ", seq(|d|, i requires 0 <= i < |d| => QuoteStr(d[i].0) + ": " + repr(d[i].1))) + "}"
  }

  /** The dataclass `repr` of a component, the writer's fallback for a kind it has no
      rule for. */
  function ComponentRepr(c: Component): (r: string)
    ensures |r| > 16 && r[..16] == "Component(name='"
  {
    var cap := if c.cap.Some? then QuoteStr(c.cap.value) else "None";
    var r := "Component(name=" + QuoteStr(c.name) + ", nodes=" + DictRepr(c.nodes, Repr) + ", params="
      + DictRepr(c.params, Repr) + ", cap=" + cap + ")";
    assert r[..16] == ("Component(name=" + QuoteStr(c.name))[..16];
    r
  }

  /** `Writer._write` for the Spectre writer: the rule named after the element's kind,
      and the default textual form for a kind without one. Only directives and
      circuits can render as empty text. The dispatch only routes: what each kind's
      text says is stated by the rule it routes to. */
  function Write(e: Element): (r: string)
    ensures e.EModel? || e.EInstance? || e.ESubcircuit? || e.EComponent? ==> r != ""
  {
    match e
    case EDirective(d) => WriteDirective(d)
    case EModel(m) => WriteModel(m)
    case EInstance(inst) => WriteInstance(inst)
    case EComponent(c) => ComponentRepr(c)
    case ESubcircuit(s) => WriteSubcircuit(s)
    case ECircuit(c) => WriteCircuit(c)
  }

  /** A text sink: what has been written so far. */
  class Sink {
    var text: string

    constructor ()
      ensures text == ""
    {
      text := "";
    }
  }

  /** `dump_to_file`: appends exactly the element's text to the sink. */
  method DumpToFile(e: Element, sink: Sink)
    modifies sink
    ensures sink.text == old(sink.text) + Write(e)
  {
    sink.text := sink.text + Write(e);
  }

  // ---------------------------------------------------------------------------
  // The library's writer tests

  lemma SimulatorDirectiveText()
    ensures Write(EDirective(NewDirective("simulator", Some([("lang", PyStr("spectre"))]), []))) == "simulator lang=spectre"
  {
    var args: Dict<Value> := [("lang", PyStr("spectre"))];
    DirectiveLine("simulator", args);
    SpectreParams();
    SimulatorLiteral();
  }

  /** A directive built from a non-empty argument dict and no keywords is its command,
      a space and the formatted arguments. */
  lemma DirectiveLine(command: string, args: Dict<Value>)
    requires |args| > 0
    ensures Write(EDirective(NewDirective(command, Some(args), []))) == command + (" " + FmtParams(args))
  {
    assert Update(args, []) == args;
  }

  lemma SpectreParams()
    ensures FmtParams([("lang", PyStr("spectre"))]) == "lang=spectre"
  {
    assert Entries([("lang", PyStr("spectre"))]) == ["lang" + "=" + "spectre"];
  }

  lemma SimulatorLiteral()
    ensures "simulator" + (" " + "lang=spectre") == "simulator lang=spectre"
  {
  }

  lemma GlobalDirectiveText()
    ensures Write(EDirective(NewDirective("global", Some([("0", PyNone), ("gnd!", PyNone)]), []))) == "global 0 gnd!"
  {
    var args: Dict<Value> := [("0", PyNone), ("gnd!", PyNone)];
    DirectiveLine("global", args);
    GlobalParams();
  }

  lemma GlobalParams()
    ensures FmtParams([("0", PyNone), ("gnd!", PyNone)]) == "0 gnd!"
  {
    assert Entries([("0", PyNone), ("gnd!", PyNone)]) == ["0", "gnd!"];
    JoinCons(" ", "0", ["gnd!"]);
    assert ["0", "gnd!"] == ["0"] + ["gnd!"];
  }

  lemma ModelText()
    ensures Write(EModel(Model("name", "base", [("N", PyInt(20))]))) == "model name base (N=20)"
  {
    ModelOneEntry("name", "base", "N", PyInt(20));
    EntryTwenty();
    ModelLiteral();
  }

  lemma EntryTwenty()
    ensures Entry("N", PyInt(20)) == "N=20"
  {
    assert IntToString(20) == "20";
  }

  lemma ModelLiteral()
    ensures "model " + ("name" + (" " + ("base" + (" (" + ("N=20" + ")"))))) == "model name base (N=20)"
  {
  }

  lemma ModelOneEntry(name: string, base: string, k: string, v: Value)
    ensures WriteModel(Model(name, base, [(k, v)])) == "model " + (name + (" " + (base + (" (" + (Entry(k, v) + ")")))))
  {
    assert Entries([(k, v)]) == [Entry(k, v)];
  }

  function Inverter(): Instance
  {
    Instance("Inv", InverterPins(), [], Some(1), None, Some("M"))
  }

  lemma InverterParts()
    ensures Label(Inverter()) == "M1"
    ensures Join(" ", NodeTexts(Inverter())) == "P N 0 1"
  {
    assert IntToString(1) == "1";
    InverterNodes();
    JoinFour(" ", "P", "N", "0", "1");
    InverterNodesLiteral();
  }

  lemma InverterNodes()
    ensures NodeTexts(Inverter()) == ["P", "N", "0", "1"]
  {
    assert IntToString(0) == "0";
    assert IntToString(1) == "1";
  }

  /** Four words joined: each followed by the separator but the last. */
  lemma JoinFour(sep: string, a: string, b: string, c: string, d: string)
    ensures Join(sep, [a, b, c, d]) == a + (sep + (b + (sep + (c + (sep + d)))))
  {
    JoinCons(sep, c, [d]);
    assert [c, d] == [c] + [d];
    JoinCons(sep, b, [c, d]);
    assert [b, c, d] == [b] + [c, d];
    JoinCons(sep, a, [b, c, d]);
    assert [a, b, c, d] == [a] + [b, c, d];
  }

  lemma InverterNodesLiteral()
    ensures "P" + (" " + ("N" + (" " + ("0" + (" " + "1"))))) == "P N 0 1"
  {
  }

  /** An instance line without parameters, from its rendered parts. */
  lemma InstanceTextNoParams(inst: Instance, lbl: string, nodes: string)
    requires Label(inst) == lbl && Join(" ", NodeTexts(inst)) == nodes && |inst.params| == 0
    ensures WriteInstance(inst) == lbl + " (" + nodes + ") " + inst.name
  {}

  lemma InverterInstanceText()
    ensures Write(EInstance(Inverter())) == "M1 (P N 0 1) Inv"
  {
    InverterParts();
    InstanceTextNoParams(Inverter(), "M1", "P N 0 1");
    InverterLineLiteral();
  }

  lemma InverterLineLiteral()
    ensures "M1" + " (" + "P N 0 1" + ") " + "Inv" == "M1 (P N 0 1) Inv"
  {
  }

  /** An instance line with parameters, from its rendered parts. */
  lemma InstanceTextParts(inst: Instance, lbl: string, nodes: string, params: string)
    requires Label(inst) == lbl && Join(" ", NodeTexts(inst)) == nodes
    requires |inst.params| > 0 && FmtParams(inst.params) == params
    ensures WriteInstance(inst) == lbl + " (" + nodes + ") " + inst.name + " " + params
  {}

  function Resistor(): Instance
  {
    Instance("R", [("P", PyStr("P")), ("N", PyStr("N"))], [("R", PyOther("1000.0", true))], Some(2), None, Some("M"))
  }

  lemma ResistorParts()
    ensures Label(Resistor()) == "M2"
    ensures Join(" ", NodeTexts(Resistor())) == "P N"
    ensures FmtParams(Resistor().params) == "R=1000.0"
  {
    var inst := Resistor();
    assert IntToString(2) == "2";
    assert NodeTexts(inst) == ["P", "N"];
    JoinCons(" ", "P", ["N"]);
    assert ["P", "N"] == ["P"] + ["N"];
    assert Entry("R", PyOther("1000.0", true)) == "R" + "=" + "1000.0" == "R=1000.0";
    assert Entries(inst.params) == ["R=1000.0"];
  }

  lemma ResistorInstanceText()
    ensures Write(EInstance(Resistor())) == "M2 (P N) R R=1000.0"
  {
    ResistorParts();
    InstanceTextParts(Resistor(), "M2", "P N", "R=1000.0");
    ResistorLineLiteral();
  }

  lemma ResistorLineLiteral()
    ensures "M2" + " (" + "P N" + ") " + "R" + " " + "R=1000.0" == "M2 (P N) R R=1000.0"
  {
  }
}
