# nimphel netlist core in Dafny

nimphel is a small Python library for building SPICE netlists in code. This
project models its core and proves properties about it:

- **Directives** (`Directive`): a command plus an argument dict. A directive is
  *raw* when it has no arguments. Equality depends on rawness.
- **Models, instances and components.** A `Component` is an instance
  generator. Its `new` fills in nodes given by position or by name and checks
  that every default left as `None` was supplied. If one is missing it fails
  with a "missing nodes" or "missing parameters" error. `from_instance`
  builds a component back from an instance.
- **Subcircuits** (`Subcircuit`): a named block of instances. Each instance
  added gets a per-name running number (`uid`) and the subcircuit's name as
  its context.
- **Circuits** (`Circuit`): a netlist holding directives, registered
  subcircuits (an equal subcircuit is added only once) and numbered instances,
  with membership tests.
- **The Spectre writer**: renders parameters, directives, models, instances,
  subcircuits and whole circuits as netlist text, and appends that text to a
  sink.
- **Utilities**: `missing_defaults`, the net-name generator `NetGen`,
  `Corner.param` and `check_registered`.

Layout:

- `text.dfy`: string helpers (`Join`, `Split`, decimal rendering).
- `dicts.dfy`: Python's insertion-ordered `dict` as an association list with
  distinct keys. `AsMap` gives the order-free view that Python's `==` uses.
- `values.dfy`: the Python values stored in nodes and parameters, with `str`
  and `repr`.
- `utils.dfy`: `missing_defaults`, `NetGen` (a class) and `Corner.param`.
- `core.dfy`: directives, instances, components, subcircuits and circuits.
  `Subcircuit` and `Circuit` are classes whose methods are proved against
  pure functions of their state (`Data`, `Added`, `AddedAll`).
- `writers.dfy`: the Spectre writer and `dump_to_file` onto a `Sink` object.
- `registration.dfy`: `check_registered`.

Python objects that are copied on insertion (`copy.deepcopy`) are values
here. The `Subcircuit` a circuit registers is its `SubcircuitData` snapshot.

## Model

| member | source | states |
|---|---|---|
| Core.Directive.IsRaw | nimphel/nimphel/core.py:54-57 | A directive is raw exactly when its argument dict is empty, which is Python's `not bool(self.args)`. |
| Core.NewDirective | nimphel/nimphel/core.py:46-57 | The command is kept. The arguments map like the given dict (or `{}`) overridden by the keywords, with the given keys first in their order. The directive is raw exactly when both are empty. |
| Core.DirectiveEq | nimphel/nimphel/core.py:62-83 | The three-case `__eq__`: two raw directives compare by command, two non-raw ones by command and arguments as mappings, and a raw one never equals a non-raw one. |
| Core.DirectiveEqFieldwise | nimphel/nimphel/core.py:62-83 | Two directives are equal iff their commands agree and their arguments agree as mappings (both raw or both not raw follows). |
| Core.DirectiveEqEquivalence | nimphel/nimphel/core.py:62-83 | Directive equality is reflexive, symmetric and transitive. |
| Core.ArgsOrKeywordsAgree | nimphel/nimphel/core.py:46-49 | Any argument dict, empty or not, gives equal directives whether it is passed positionally or as keywords. |
| Core.DirectiveRawExamples | nimphel/tests/test_core.py:16-34 | A command-only directive is raw and one with arguments is not. Equal raw commands compare equal, different raw commands do not, and a raw directive never equals one with arguments. |
| Core.DirectiveArgsExample | nimphel/tests/test_core.py:10-14 | Two directives with the same command and equal argument dicts compare equal. |
| Core.InstanceEq | nimphel/nimphel/core.py:109-134 | The dataclass `==` of `Instance`: all six fields agree, with nodes and params compared as mappings. |
| Core.NodeNamesAreRequired | nimphel/nimphel/core.py:169-170 | A node list declares each listed name with no default, so exactly the listed names are required. |
| Core.Generate | nimphel/nimphel/core.py:197-217 | Without default checking the call succeeds. A success carries the supplied nodes, the given params (or `{}`), uid, ctx and cap, and then no required node or parameter is missing. A node error names exactly the required nodes not supplied. A parameter error comes only when all nodes are present and names exactly the required parameters not supplied. |
| Core.GenerateRejectsMissingNode | nimphel/nimphel/core.py:204-207 | When a required node is not supplied, checked generation fails with a node error naming it. |
| Core.GenerateRejectsMissingParam | nimphel/nimphel/core.py:210-212 | When all nodes are present and a required parameter is absent or `None`, checked generation fails with a parameter error naming it. |
| Core.MissingDefaultsByMapping | nimphel/nimphel/utils.py:44-50 | The missing set depends only on the supplied dict as a mapping, not on its order. |
| Core.PositionalMatchesNamed | nimphel/nimphel/core.py:197-198 | Node values given by position in the template's order produce the same instance, as mappings, as the same values given by name. |
| Core.ZipLookupNamed | nimphel/nimphel/core.py:197-198 | Zipping the template keys with positional values looks up like the equivalent named dict. |
| Core.Component.New | nimphel/nimphel/core.py:176-217 | A generated instance takes the component's name and letter. Unchecked generation never fails. |
| Core.NewComponent | nimphel/nimphel/core.py:161-174 | A node list becomes a dict whose required names are exactly the listed ones. A node dict is kept as is. Params default to `{}`. |
| Core.ResetDefaults | nimphel/nimphel/core.py:243-244 | Resetting keeps the keys in order and makes every key required. |
| Core.ResetDefaultsKeys | nimphel/nimphel/core.py:243-244 | `{k: None for k in d}` has the keys of `d` in order, all required. |
| Core.Component.FromInstance | nimphel/nimphel/core.py:229-250 | As written: name and letter come from the instance. The params are always the instance's own. Nodes are the instance's, or reset to all required when `reset_nodes` is set. |
| Core.FromInstanceIgnoresResetParams | nimphel/nimphel/core.py:246-250 | As written, `reset_params` makes no difference to the component produced. |
| Core.Component.FromInstanceFixed | nimphel/nimphel/core.py:229-250 | As documented: like `FromInstance`, except that `reset_params` resets the parameters to all required, keeping their order. |
| Core.ResetParamsAsWrittenSucceeds | nimphel/nimphel/core.py:246-250 | As written, a component built from a resistor instance with `reset_params` still generates without the parameter being supplied. |
| Core.ResetParamsIntendedFails | nimphel/nimphel/core.py:237-238 | With the intended reset, the same call fails with a parameter error naming `R`. |
| Core.NameCountsCount | nimphel/nimphel/core.py:300-301 | The per-name counter map holds, for each name, the number of instances with that name added so far. |
| Core.StampKeepsNumbering | nimphel/nimphel/core.py:391-393 | Numbering a new instance by counter+1 keeps the counters exact and the uids sequential per name. |
| Core.UidsIncrease | nimphel/nimphel/core.py:391-393 | In sequentially numbered instances, a later instance of the same name has a larger uid. |
| Core.Subcircuit.constructor | nimphel/nimphel/core.py:273-289 | The fields are set from the arguments: node list to required dict, params and instances default to empty, and the counters start empty. |
| Core.Subcircuit.Add | nimphel/nimphel/core.py:291-303 | The instance is appended as a copy, renumbered with the per-name counter+1 and given the subcircuit's name as context. Only that name's counter grows. The new uid equals the number of added instances with that name, and the stored copy is a member. |
| Core.Subcircuit.New | nimphel/nimphel/core.py:310-349 | Same generation as a component, named after the subcircuit, but the instance has no letter. Unchecked generation never fails. |
| Core.Subcircuit.Contains | nimphel/nimphel/core.py:357-358 | Only instances can be members. An instance is a member exactly when some stored instance equals it (`InstanceEq`), so any instance in the list is one. |
| Core.SubcircuitEq | nimphel/nimphel/core.py:253-271 | The dataclass `==` of `Subcircuit`: name, nodes, params, counters and letter agree, and the instance lists agree element by element. |
| Core.AddedDropsOtherKinds | nimphel/nimphel/core.py:384-393 | A model, a component or a circuit matches none of the three kinds, so adding it leaves the circuit data unchanged. |
| Core.Added | nimphel/nimphel/core.py:379-393 | `__add_one` on values: a directive is appended; a subcircuit is appended unless an equal one is stored; an instance is appended numbered by its name's counter+1, which it bumps; anything else is dropped. |
| Core.AddedAll | nimphel/nimphel/core.py:395-400 | `add` of a list on values: the elements are added one by one, in order. |
| Core.AddedKeepsWellformed | nimphel/nimphel/core.py:379-393 | Adding one element keeps the circuit well formed: no two equal subcircuits, exact per-name counters, sequential instance uids. |
| Core.AddedAllKeepsWellformed | nimphel/nimphel/core.py:395-400 | Adding a list of elements keeps the circuit well formed. |
| Core.AddedAllSections | nimphel/nimphel/core.py:379-400 | After adding a list, the directives are the old ones followed by the listed directives in order. The instances, apart from their uids, are the old ones followed by the listed instances in order. |
| Core.AddedAllSubcircuits | nimphel/nimphel/core.py:387-389 | Registered subcircuits are only appended. Afterwards every listed subcircuit has an equal one registered. |
| Core.ReaddEqualSubcircuit | nimphel/nimphel/core.py:387-389 | Adding a subcircuit equal to one already registered leaves the circuit unchanged. |
| Core.SubcircuitEqTransitive | nimphel/nimphel/core.py:253-271 | Dataclass equality of subcircuits is transitive. |
| Core.AddedDirectiveIsMember | nimphel/nimphel/core.py:420-426 | A directive just added is a member of the circuit. |
| Core.UnnumberedInstanceNotMember | nimphel/nimphel/core.py:390-393 | An instance without a uid is never a member of a well-formed circuit, even right after it is added, because the stored copy is numbered. |
| Core.CircuitContains | nimphel/nimphel/core.py:420-426 | `__contains__` as written: the query is compared with `==` against the list chosen by its kind. Directives search the directives, instances the instances, subcircuits the directives, and other kinds an empty list. |
| Core.CircuitContainsLists | nimphel/nimphel/core.py:420-426 | As written, a directive is a member iff some stored directive equals it, and an instance iff some stored instance equals it. |
| Core.SubcircuitNeverMember | nimphel/nimphel/core.py:420-426 | As written: a subcircuit is never a member, even right after it is added, because it is looked up among the directives. |
| Core.CircuitContainsFixed | nimphel/nimphel/core.py:420-426 | Corrected `__contains__`: a subcircuit is a member iff an equal one is among the stored subcircuits. Other kinds are looked up as written. |
| Core.AddedSubcircuitIsMemberFixed | nimphel/nimphel/core.py:420-426 | With the lookup among the registered subcircuits, a subcircuit just added is a member. |
| Core.Circuit.constructor | nimphel/nimphel/core.py:372-377 | A new circuit is empty and well formed. |
| Core.Circuit.AddOne | nimphel/nimphel/core.py:379-393 | The new state is the pure `Added` of the old state, and well-formedness is kept. |
| Core.Circuit.Add | nimphel/nimphel/core.py:395-400 | Adding a list adds its elements one by one in order. A single element is added once. Well-formedness is kept. |
| Core.Circuit.Contains | nimphel/nimphel/core.py:420-426 | As written: only directives and instances can be members, and a subcircuit never is. A directive is a member iff some stored directive equals it, and an instance iff some stored instance equals it. |
| Core.DictAndListCallsAgree | nimphel/tests/test_core.py:65-86 | For a component declared by pin names, calling `new` with the pin dict or with the list of its values gives the same instance. |
| Core.NamedCallOk | nimphel/tests/test_core.py:76-80 | Named generation that supplies every required node succeeds and keeps the given nodes. |
| Core.SubcircuitNewExample | nimphel/tests/test_core.py:89-97 | The inverter subcircuit generates an instance named `Inv` with the four pins. |
| Core.ComponentFromInstanceExample | nimphel/tests/test_core.py:66-74 | A component built from a resistor instance keeps its name, nodes, parameters and letter. |
| Core.CircuitTestOnValues | nimphel/tests/test_core.py:100-116 | Adding a subcircuit, an unnumbered instance twice and a directive gives two stored instances. The directive is a member and the instance is not. The subcircuit is not a member as written, but is one under the corrected lookup. |
| Core.CircuitExample | nimphel/tests/test_core.py:100-116 | Run on a circuit object, it gives five answers. The directive is a member, as the test asserts. The original instance is not, as the test asserts. The subcircuit is not a member through `Contains`, but is one under the corrected lookup. The circuit stores two instances. |
| Utils.MissingDefaults | nimphel/nimphel/utils.py:30-50 | The keys whose default is `None`, less the keys the data gives a value other than `None`. This is empty when no key is required. |
| Utils.RequiredLookup | nimphel/nimphel/utils.py:44 | A key is required iff its default is `None`. |
| Utils.ProvidedLookup | nimphel/nimphel/utils.py:48 | A key is provided iff it is present with a value other than `None`. |
| Utils.MissingDefaultsSpec | nimphel/nimphel/utils.py:30-50 | A key is missing iff it is required and not provided. |
| Utils.NoRequiredNothingMissing | nimphel/nimphel/utils.py:45-46 | With no `None` default, nothing is missing whatever the data. |
| Utils.MissingDefaultsExamples | nimphel/nimphel/utils.py:37-42 | `{'a': None, 'b': 42}` against `{'a': 32}` misses nothing, and against `{'b': 32}` misses `a`. |
| Utils.EffectiveStep | nimphel/nimphel/utils.py:82 | The step used is the argument unless it is absent or zero, in which case it is the configured step. |
| Utils.NetGen.constructor | nimphel/nimphel/utils.py:71-75 | Requires a pattern with an `{id…}` field. Stores the pattern, the start id and the step. |
| Utils.NetGen.Call | nimphel/nimphel/utils.py:77-84 | The id advances by the effective step, and the net is the pattern formatted with the new id. |
| Utils.NetGen.Next | nimphel/nimphel/utils.py:89-90 | The id advances by the configured step, and the net is the pattern formatted with the new id. |
| Utils.PatternExamples | nimphel/nimphel/utils.py:72 | `net{id}` and `MyNet-{id}` are accepted and `net` is refused. |
| Utils.NetGenExample | nimphel/nimphel/utils.py:61-66 | `NetGen("MyNet-{id}", 1)` then `()`, `(2)` and `()` yield `MyNet-2`, `MyNet-4` and `MyNet-5`. |
| Utils.Format | nimphel/nimphel/utils.py:83 | `pattern.format(id=…)` for patterns with no brace outside `{id}` fields: each `{id}` becomes the decimal id and other text is copied. |
| Utils.FormatNetPattern | nimphel/nimphel/utils.py:83 | Formatting `MyNet-{id}` gives `MyNet-` followed by the decimal id. |
| Utils.FormatLiteralPrefix | nimphel/nimphel/utils.py:83 | Text before the first brace is copied unchanged. |
| Utils.FormatWithoutField | nimphel/nimphel/utils.py:83 | A pattern without braces formats to itself. |
| Utils.CornerParam | nimphel/nimphel/utils.py:111-113 | One entry per corner, in order, holding that corner's value for the key or `None`. |
| Utils.CornerParamLookup | nimphel/nimphel/utils.py:111-113 | Looking up a known corner gives its value for the key, or `None`. Unknown corners are absent. |
| Registration.RegistrationExample | nimphel/nimphel/utils.py:129-131 | On the data of the library's circuit test (an `Inv` subcircuit, then an `Inv` instance): the check fails after the subcircuit alone and holds once the instance is added. |
| Registration.CheckRegistered | nimphel/nimphel/utils.py:116-131 | The set of subcircuit names is a subset of the set of instance names. |
| Registration.RegisteredIff | nimphel/nimphel/utils.py:116-131 | The check holds iff every registered subcircuit's name is the name of some instance of the circuit. |
| Registration.AddedOtherKeepsRegistered | nimphel/nimphel/utils.py:129-131 | Adding anything but a subcircuit keeps a registered circuit registered. |
| Registration.AddedSubcircuitRegistered | nimphel/nimphel/utils.py:129-131 | After adding a subcircuit to a registered circuit, the check holds iff an equal subcircuit was already registered, so nothing was appended, or some instance already carries its name. |
| Registration.AddedAllOtherKeepsRegistered | nimphel/nimphel/utils.py:129-131 | Adding a list without subcircuits keeps a registered circuit registered. |
| Writers.FmtParams | nimphel/nimphel/writers.py:65-66 | The parameter entries, in dict order, joined by single spaces. |
| Writers.Entries | nimphel/nimphel/writers.py:65-66 | One entry per parameter, in order. |
| Writers.EntryParse | nimphel/nimphel/writers.py:66 | An entry is one word, and parsing it back gives the key and, for a truthy value, its text (a falsy value leaves only the key). |
| Writers.FmtParamsRoundTrip | nimphel/nimphel/writers.py:65-66 | Splitting the rendered parameters on spaces gives back the entries, and each entry parses back to its key and truthy value. |
| Writers.WriteDirective | nimphel/nimphel/writers.py:68-71 | The text starts with the command. |
| Writers.DirectiveWords | nimphel/nimphel/writers.py:68-71 | A raw directive is written as its command alone, for any command. Otherwise the words of the line are the command followed by the parameter entries. |
| Writers.WriteModel | nimphel/nimphel/writers.py:73-74 | The text starts with `model `. |
| Writers.ModelSplit | nimphel/nimphel/writers.py:73-74 | The words are `model`, the name, the base and the entries inside parentheses. |
| Writers.Label | nimphel/nimphel/writers.py:78-79 | The label is never empty. |
| Writers.NodeTexts | nimphel/nimphel/writers.py:77 | One text per node value, in order. |
| Writers.WriteInstance | nimphel/nimphel/writers.py:76-82 | The line starts with the label. |
| Writers.InstanceSplit | nimphel/nimphel/writers.py:76-82 | The words are the label, the node values in parentheses, the name, and the entries when there are parameters. |
| Writers.LabelsByNumber | nimphel/nimphel/writers.py:78-79 | Labels with the same letter are equal iff the numbers are. |
| Writers.CircuitLabelsDistinct | nimphel/nimphel/writers.py:78-79 | In a well-formed circuit, two instances of the same name and letter get different labels. |
| Writers.LabelsCollideAcrossNames | nimphel/nimphel/writers.py:78-79 | Two differently named instances with letter `R`, added to one circuit, both get the label `R1`. |
| Writers.InstanceLines | nimphel/nimphel/writers.py:90 | One line per instance, in order. |
| Writers.WriteSubcircuit | nimphel/nimphel/writers.py:84-91 | The text starts with `subckt `. |
| Writers.SubcircuitJoin | nimphel/nimphel/writers.py:84-91 | The text is the header, the optional `parameters` line, the instance lines and `ends <name>`, joined by newlines. |
| Writers.SubcircuitSplit | nimphel/nimphel/writers.py:84-91 | When no field contains a newline, splitting the text on newlines gives back exactly those lines. |
| Writers.WriteCircuit | nimphel/nimphel/writers.py:93-98 | The directive, subcircuit and instance sections, each joined by line breaks, then the non-empty sections joined by line breaks. |
| Writers.FilterSections | nimphel/nimphel/writers.py:97-98 | Dropping empty joined sections is the same as dropping empty groups. Dropping empty groups loses no line. |
| Writers.CircuitLayout | nimphel/nimphel/writers.py:93-98 | With non-empty directive commands, the circuit text is the directive lines, then the subcircuit texts, then the instance lines, joined by newlines. |
| Writers.ComponentRepr | nimphel/nimphel/writers.py:44-45 | The text is the dataclass-style `Component(name='…` rendering. |
| Writers.Write | nimphel/nimphel/writers.py:47-53 | Models, instances, subcircuits and components always render to non-empty text. |
| Writers.Sink.constructor | nimphel/nimphel/writers.py:36-38 | A fresh sink is empty. |
| Writers.DumpToFile | nimphel/nimphel/writers.py:36-38 | The sink's text gains exactly the rendering of the element. |
| Writers.SimulatorDirectiveText | nimphel/tests/test_writer.py:10-15 | `Directive("simulator", {"lang": "spectre"})` renders as `simulator lang=spectre`. |
| Writers.GlobalDirectiveText | nimphel/tests/test_writer.py:10-15 | `Directive("global", {"0": None, "gnd!": None})` renders as `global 0 gnd!`. |
| Writers.ModelText | nimphel/tests/test_writer.py:17-20 | `Model("name", "base", {"N": 20})` renders as `model name base (N=20)`. |
| Writers.InverterInstanceText | nimphel/tests/test_writer.py:22-27 | The numbered inverter renders as `M1 (P N 0 1) Inv`. |
| Writers.ResistorInstanceText | nimphel/tests/test_writer.py:22-27 | A resistor with `R=1000.0` renders as `M2 (P N) R R=1000.0`. |
| Text.SplitJoin | nimphel/nimphel/writers.py:66 | Joining words without the separator and then splitting gives back the words. This is what all the round trips above rest on. |
| Text.IntToStringRoundTrip | nimphel/nimphel/writers.py:78-79 | Decimal rendering of an integer parses back to it. |
| Text.IntToStringInjective | nimphel/nimphel/writers.py:78-79 | Different integers render differently. |
| Dicts.UpdateLookup | nimphel/nimphel/core.py:49 | After `d.update(e)`, a key maps to its value in `e` if it has one, else to its value in `d`. The keys of `d` keep their places at the front. |
| Dicts.UpdateAsMap | nimphel/nimphel/core.py:49 | As mappings, `d.update(e)` is `d` overridden by `e`. |
| Dicts.FromKeys | nimphel/nimphel/core.py:170 | `{n: v for n in names}` maps exactly the listed names to `v`. |
| Dicts.FromKeysOrder | nimphel/nimphel/core.py:170 | Without repeated names, the keys keep the list's order. |
| Dicts.Zip | nimphel/nimphel/core.py:198 | `dict(zip(keys, values))` pairs keys and values in order and stops at the shorter one. |

## Left out

- Reading and writing files, and the `Circuit.path` property (core.py:406-412), are I/O. `dump_to_file` appends to a `Sink` object's text instead of a file.
- Floating-point values and other Python objects are kept abstract as `PyOther(text, truthy)` with their `str` text given. Python's `1 == 1.0` equality across types is not modelled.
- Utils.Format: only `{id}` fields are replaced. Any other brace is copied as text and later `{id}` fields are still replaced, whereas Python's `str.format` un-escapes `{{` and `}}` and raises `KeyError`, `IndexError` or `ValueError` on other replacement fields or a lone brace. Format specs such as `{id:03d}` are not modelled.
- The constructor's `assert` on the pattern becomes a `requires`, since it stops the program rather than returning an error.
- `Subcircuit.__iadd__` (core.py:305-308) is left out. A non-`Instance` argument fails its `assert` (`AssertionError`); an `Instance` reaches `self.add(instance)` with an undefined name and raises `NameError`. No call succeeds, so there is nothing to model beyond the failure.
- `Circuit.__iadd__` (core.py:402-404) only delegates to `add`, which `Core.Circuit.Add` models.
- `Corner.__getitem__` and `Corner.__setitem__` (utils.py:104-109) call themselves without end. Only `Corner.param` is modelled, on a plain dict of dicts.
- `copy.deepcopy` aliasing is not modelled: added elements are values. The mutable-default aliasing in `Directive.__init__` is not modelled either (`args or {}` then `update` changes the caller's dict).
- In `Circuit.add`, a list nested inside the argument is copied and then matches no kind, so it is silently dropped. A nested tuple has no `copy` method and raises `AttributeError`. The model takes one element or one flat list (`AddArg`).
- Membership uses `==` on values; Python's `in` also matches by identity first. A `Circuit` compares by identity in Python; the model never treats two circuit elements as equal.
- Only `Component` uses the writer's `__default__` (`str`), rendered by `Writers.ComponentRepr` with Python's quoting simplified to single quotes around plain text. Adding a `Model`, a `Component` or a `Circuit` to a circuit stores nothing, as in the code (`Core.AddedDropsOtherKinds`), so membership of those kinds is always false.
- The `__iter__` conversions to dicts, `copy` methods, the `__call__` alias of `new` (same behaviour as `Core.Component.New`), the `Node` enum and the abstract `BaseWriter` methods are not modelled; they add no behaviour of their own.
- Core.Component.New: the missing-name lists are modelled as sets, because the source builds them from a set and their order is unspecified.
- Core.Generate: `new` computes merged defaults and then discards them; the model returns only what the source returns (the supplied nodes and params).
- `dict(zip(...))` silently truncates when fewer or more positional nodes than declared are given; `Dicts.Zip` models the truncation. A node left out this way is reported only when its default is `None` and `check_defaults` is on; a node with a non-`None` default (a template from `from_instance(..., reset_nodes=False)`) passes, and with `check_defaults` off `new` returns the truncated nodes as they are.
- `Circuit` never sets an instance's `ctx`, while `Subcircuit.add` does; the model follows the code.
- The `NetGen` docstring example (utils.py:61-66) lists `MyNet-0`, `MyNet-1`, `MyNet-3`; the code advances the id before formatting, and the model follows the code (`MyNet-2`, `MyNet-4`, `MyNet-5`).
- The writer renders any falsy parameter value (`None`, `0`, `""`) as a bare key, as the code does.
- Instance labels combine only the letter and the number, so instances of different names can share a label (`Writers.LabelsCollideAcrossNames`).
- A subcircuit without instances renders an empty line between its header and `ends`, as the code does.

## Findings

| source | as written | input that shows it | evidently intended | confidence | as-written member | corrected member |
|---|---|---|---|---|---|---|
| nimphel/nimphel/core.py:246-250 | `from_instance` computes the reset parameters under `reset_nodes` and then passes `inst.params` anyway, so `reset_params` has no effect | a resistor instance with `R=1000.0`, `from_instance(inst, reset_params=True)`, then `new` without `R`: succeeds | parameters reset to `None` under `reset_params`, so `new` without `R` fails with missing parameter `R` | not executed | Core.FromInstanceIgnoresResetParams | Core.Component.FromInstanceFixed |
| nimphel/nimphel/core.py:420-426 | `__contains__` looks a `Subcircuit` up in `self.directives`, so a subcircuit is never a member | any circuit after `ckt.add(subckt)`: `subckt in ckt` is false | look it up in `self.subcircuits` | not executed | Core.SubcircuitNeverMember | Core.AddedSubcircuitIsMemberFixed |
