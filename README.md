# pybryt core, modelled in Dafny

This project models the orchestration layer of pybryt, an auto-assessment tool for Python notebooks.

- **Memory footprint** (`memory_footprint.dfy`): the time-stamped list of values observed while student code runs, with its step counter, calls, imports and executed notebook.
  - `combine` merges several footprints. It keeps only the first value for each hash and moves later timestamps up by the step counts of earlier footprints.
- **Student implementation** (`student.dfy`):
  - the submission artifact: built from a notebook, a path or an injected footprint;
  - the check dispatcher for one reference or a list of references;
  - the plagiarism call;
  - the inline `check` context manager, which traces a block of code and checks what it observed.
- **Structural patterns** (`structural.dfy`): patterns built by attribute access and calls (`structural.pkg.Cls(attr=v)`). A pattern is matched against an object by class and attributes.
- **Attribute containers** (`structural_helpers.dfy`): the dictionary-backed test objects that structural patterns are matched against.
- **Import collection** (`imports.dfy`): a syntax-tree visitor and the notebook preprocessor that drives it.
- **IPython frame detection** (`execution_utils.dfy`), with POSIX `os.path.split`.
- `wrappers.dfy` holds the `Option` and `Result` datatypes.

## How the model works

Python objects the core only stores or forwards are abstract types: values, hashes, notebooks, references, results, groups. Calls into code outside the core are function-typed parameters:
- `pickle_and_hash`, `execute_notebook`, `nbformat.read`;
- `ReferenceImplementation.run` and `ReferenceImplementation.load`;
- `create_references` and `get_impl_results`;
- `Value.check_against`, `==`, and `isinstance` of an imported class.

Objects whose fields pybryt updates in place are classes with `modifies` clauses: `Counter`, `MemoryFootprint`, `StudentImplementation`, `AttrContainer`, `ImportFinder` and `ImportFindingPreprocessor`. The loops of pybryt are methods proved against specification functions:
- `combine`;
- `_check_object_attrs`;
- `visit_Import`, the visitor's walk and `preprocess`;
- the validation loops of the inline check.

Python exceptions are `Err` values of a `Result`.

The inline `check` is a generator run by `contextlib.contextmanager`. Its model is an `Interpreter` class holding the process-wide tracing flag and a log of events:
- `BlockRun`, `CollectorCreated`, `TracingOn`, `TracingOff`;
- `ArtifactBuilt(steps)`;
- `Reported(results)`, which stands for the printed report.

`CheckBlock` is proved equal to the function `InlineCheck`, and the lemmas state the protocol's properties about that function. The model follows the generator as written, including where it departs from its design; see "## Findings".

## Model

| member | source | states |
|---|---|---|
| MemoryFootprints.Counter.constructor | pybryt/execution/memory_footprint.py:16-17 | a new counter holds its start value |
| MemoryFootprints.Counter.GetValue | pybryt/execution/memory_footprint.py:19-20 | reads the current count, the one `increment` and `offset` move |
| MemoryFootprints.Counter.Increment | pybryt/execution/memory_footprint.py:22-23 | the counter grows by exactly one |
| MemoryFootprints.Counter.Offset | pybryt/execution/memory_footprint.py:25-26 | the counter grows by exactly the given amount |
| MemoryFootprints.NumSteps | pybryt/execution/memory_footprint.py:122-126 | the result is a timestamp of the list and no timestamp exceeds it; -1 for no observations |
| MemoryFootprints.MemoryFootprint.constructor | pybryt/execution/memory_footprint.py:43-48 | a given counter is shared, otherwise a fresh one at 0; no values, calls, imports or notebook |
| MemoryFootprints.MemoryFootprint.FromValues | pybryt/execution/memory_footprint.py:50-57 | the new footprint holds exactly the given values and its counter equals their num_steps (-1 when empty) |
| MemoryFootprints.MemoryFootprint.IncrementCounter | pybryt/execution/memory_footprint.py:80-83 | the shared counter grows by one |
| MemoryFootprints.MemoryFootprint.OffsetCounter | pybryt/execution/memory_footprint.py:85-88 | the shared counter grows by the given amount |
| MemoryFootprints.MemoryFootprint.AddValue | pybryt/execution/memory_footprint.py:90-95 | exactly one observation is appended, stamped with the given timestamp or the counter's value; it is what `get_value(-1)` returns; nothing else changes |
| MemoryFootprints.MemoryFootprint.GetValue | pybryt/execution/memory_footprint.py:97-100 | Python indexing: defined exactly for -len <= i < len, negative indices count from the end, and the result is an observation of the list |
| MemoryFootprints.MemoryFootprint.AddCall | pybryt/execution/memory_footprint.py:102-105 | appends one (filename, function) call and changes nothing else |
| MemoryFootprints.MemoryFootprint.AddImports | pybryt/execution/memory_footprint.py:107-110 | the imports gain exactly the given module names |
| MemoryFootprints.MemoryFootprint.SetExecutedNotebook | pybryt/execution/memory_footprint.py:112-115 | stores the notebook and changes nothing else |
| MemoryFootprints.MemoryFootprint.Equals | pybryt/execution/memory_footprint.py:129-132 | equality is reflexive; footprints that differ only in their counters compare equal; equal footprints agree on num_steps and on every get_value |
| MemoryFootprints.MemoryFootprint.MergeShifted | pybryt/execution/memory_footprint.py:68-73 | one footprint's pass of the loop adds its shifted values whose hashes were not yet seen, and updates the seen set to match |
| MemoryFootprints.MemoryFootprint.MergeOne | pybryt/execution/memory_footprint.py:69-73 | one observation is added exactly when its hash is new, and the seen set then holds its hash |
| MemoryFootprints.MemoryFootprint.Combine | pybryt/execution/memory_footprint.py:59-78 | the result holds the first occurrence per hash of all values, each shifted by the step counts of earlier footprints; the counter is their sum; calls stay empty |
| MemoryFootprints.MemoryFootprint.MergeAll | pybryt/execution/memory_footprint.py:63-78 | the loop over footprints gives the first occurrence per hash of all shifted values, with the counter at the sum of all num_steps |
| MemoryFootprints.KeepFirstNoDuplicateHashes | pybryt/execution/memory_footprint.py:64-73 | no two values that combine keeps share a hash |
| MemoryFootprints.KeepFirstIsFirstOccurrences | pybryt/execution/memory_footprint.py:64-73 | the kept values are, in their original order, exactly the positions whose hash did not occur earlier |
| MemoryFootprints.KeptIndicesCorrect | pybryt/execution/memory_footprint.py:68-73 | the kept positions increase, pick out the kept values, and are exactly the first occurrences |
| MemoryFootprints.KeepFirstSubset | pybryt/execution/memory_footprint.py:68-73 | every kept value is one of the merged values |
| MemoryFootprints.ShiftedLength | pybryt/execution/memory_footprint.py:66-68 | the merged sequence is as long as all footprints together |
| MemoryFootprints.ShiftedAt | pybryt/execution/memory_footprint.py:66-75 | value j of footprint i lands after all earlier footprints' values, its timestamp raised by the sum of their num_steps |
| MemoryFootprints.CombineAfterEmpty | pybryt/execution/memory_footprint.py:66-77 | an empty footprint first lowers every later timestamp by one, since its num_steps is -1 |
| Student.Dispatch | pybryt/student.py:150-155 | one reference gives its run result; a list gives one result per reference in order; anything else is a TypeError; a missing footprint fails only when read |
| Student.ListCheckAgreesWithSingleChecks | pybryt/student.py:150-153 | checking against a list gives, at each position, what checking that reference alone gives |
| Student.StudentImplementation.WithoutNotebook | pybryt/student.py:47-50 | with None there is no notebook and no path, and nothing is executed |
| Student.StudentImplementation.Create | pybryt/student.py:43-60 | the constructor fails exactly for unsupported input; a path is read and kept; a notebook is kept with path ""; both are executed and store its steps and values |
| Student.StudentImplementation.Execute | pybryt/student.py:62-73 | stores the steps and values execution returns for the notebook and path |
| Student.StudentImplementation.FromFootprint | pybryt/student.py:75-82 | a notebook-less implementation holding exactly the given footprint and steps |
| Student.StudentImplementation.Check | pybryt/student.py:134-155 | the check dispatches on the stored footprint and changes nothing |
| Student.StudentImplementation.CheckPlagiarism | pybryt/student.py:157-177 | fails exactly when no reference is synthesised; otherwise the peer results for the first synthesised reference |
| Student.PlagiarismUsesFirstReferenceOnly | pybryt/student.py:176-177 | synthesisers that agree on the first reference give the same plagiarism results |
| Student.Normalise | pybryt/student.py:187-197 | a name gives [load(name)]; an empty list is a ValueError; a list of references or of names gives them in order; a mixed list or a non-list holding non-references is a TypeError; a lone reference is not iterable |
| Student.AreAllReferences | pybryt/student.py:192 | true exactly when every element is a reference |
| Student.AreAllNames | pybryt/student.py:193 | true exactly when every element is a name |
| Student.LoadEach | pybryt/student.py:195 | loads every name, in order |
| Student.CollectReferences | pybryt/student.py:196 | the references of an iterable, in order |
| Student.ValidateRefs | pybryt/student.py:187-197 | the step-by-step rebinding of `ref` agrees with the normalisation for every input |
| Student.TracingAfterAppend | pybryt/student.py:199-206 | events other than tracing on/off do not change the tracing state |
| Student.AfterBlockEndsUntraced | pybryt/student.py:206-210 | after a clean outermost block, tracing is off however the check ends |
| Student.InlineCheckValidatesFirst | pybryt/student.py:187-202 | outside a trace, a rejected `ref` raises before any collector or tracing and without running the block |
| Student.InlineCheckReportsInOrder | pybryt/student.py:199-210 | a clean outermost block turns tracing off, builds the artifact at the largest timestamp, and reports one result per reference in order |
| Student.InlineCheck | pybryt/student.py:180-210 | a nested check never completes; a check that completes validated `ref`, ran a clean block that observed something, and left tracing off |
| Student.Interpreter.CheckBlock | pybryt/student.py:180-210 | the interpreter's events, outcome and tracing flag are those of the inline check from its current tracing state |
| Student.Interpreter.CheckNested | pybryt/student.py:184-202 | already tracing: the block runs, then validation, a second collector and tracing_on, then the generator does not stop |
| Student.Interpreter.CheckOutermost | pybryt/student.py:187-210 | not tracing: validation, collector, tracing_on, then the block and what follows it |
| Student.Interpreter.TraceBlock | pybryt/student.py:199-210 | once `ref` is accepted: collector, tracing on, the block, then either the block's exception with tracing left on or what follows a clean block |
| Student.Interpreter.FinishTraced | pybryt/student.py:206-210 | tracing off; an empty observation raises; otherwise the artifact is built and checked, with errors raised and results reported |
| Student.InlineCheckTupleFailsLate | pybryt/student.py:196-209 | a tuple of references passes validation but is refused by `check` after tracing has been on |
| Student.NestedCheckFailsAfterBlock | pybryt/student.py:184-185 | already tracing: a valid check of a clean block ends in a RuntimeError after a second tracing_on |
| Student.RaisingBlockLeavesTracingOn | pybryt/student.py:204-206 | a block that raises leaves tracing on |
| Student.EmptyObservationRaises | pybryt/student.py:208 | a clean block that observed nothing raises and reports nothing |
| Student.SingleReferenceRefused | pybryt/student.py:196 | a single reference is refused as not iterable |
| Student.NormaliseIntended | pybryt/student.py:187-197 | the designed validation: a reference or name gives a one-element list, lists as before, every other shape refused |
| Student.IntendedValidatesFirst | pybryt/student.py:187-197 | as designed, a refused `ref` raises before anything else, nested or not |
| Student.IntendedRestoresTracing | pybryt/student.py:184-206 | as designed, every exit leaves tracing as it was found, and a nested check only runs the block |
| Student.IntendedReportsInOrder | pybryt/student.py:206-210 | as designed, a clean outermost block reports in order with step count max(timestamps), or 0 for none |
| Student.IntendedAgreesWhenNothingFails | pybryt/student.py:187-210 | where pybryt as written raises nothing, the design and pybryt produce the same run |
| Structural.Root | pybryt/annotations/structural.py:76-80 | the default pattern has no path, no name and no attributes |
| Structural.GetAttr | pybryt/annotations/structural.py:96-104 | the reserved dill names raise; otherwise a pattern named `attr` with no attributes, whose path gains the current name only when it is non-empty |
| Structural.FirstInitParameter | pybryt/annotations/structural.py:106-112 | finds a keyword named `parents`, `curr` or `unnamed_attrs` exactly when there is one |
| Structural.Call | pybryt/annotations/structural.py:106-112 | a TypeError exactly when a keyword is `self`, `parents`, `curr` or `unnamed_attrs`, naming `self` first; otherwise keeps path and name and takes the call's arguments as the attributes |
| Structural.CallRefusesCurr | pybryt/annotations/structural.py:106-112 | `structural.Foo(curr=v)` raises instead of building a pattern |
| Structural.CallReplacesAttributes | pybryt/annotations/structural.py:106-112 | a later call replaces every attribute of an earlier one |
| Structural.AttributesDoNotAffectPath | pybryt/annotations/structural.py:96-112 | attribute access ignores attributes attached by a call |
| Structural.GetModCls | pybryt/annotations/structural.py:82-89 | the class is `curr`; an empty path gives module "" and a one-element path gives that element |
| Structural.FollowPath | pybryt/annotations/structural.py:96-104 | accessing `a`, `b`, ..., `C` in turn from `structural` gives path [a, b, ...], name C and no attributes |
| Structural.ReprNamed | pybryt/annotations/structural.py:94 | the keyword pairs shown from a position on are empty exactly when no pair is left |
| Structural.ReprHead | pybryt/annotations/structural.py:91-94 | what precedes the parentheses starts with `pybryt.structural.` |
| Structural.Repr | pybryt/annotations/structural.py:91-94 | every repr starts with `pybryt.structural.` and ends with `)`; with no keyword attributes it is the head followed by `()` |
| Structural.ReprNamedOnlyKeywords | pybryt/annotations/structural.py:94 | the keyword part depends only on the keyword attributes |
| Structural.ReprHidesPositional | pybryt/annotations/structural.py:91-112 | calls that differ only in positional attributes succeed together and are shown alike |
| Structural.ReprOneKeyword | pybryt/annotations/structural.py:91-94 | one plain keyword attribute `k` shows as the head followed by `(k=v)`, `v` shown by `str()` |
| Structural.ReprTwoKeywords | pybryt/annotations/structural.py:91-94 | two plain keyword attributes show in their order, separated by `, ` |
| Structural.ReprOfPath | pybryt/annotations/structural.py:91-94 | a pattern with a path of non-empty names, a name and no attributes is shown as `pybryt.structural.` followed by its dotted full name and `()` |
| Structural.FollowFromRoot | pybryt/annotations/structural.py:82-104 | `structural.a.b.C` has path [a, b] and name C, module "a.b", and repr `pybryt.structural.a.b.C()` |
| Structural.RootLevelPattern | pybryt/annotations/structural.py:82-104 | `structural.C` has module "" and class C |
| Structural.Eq | pybryt/annotations/structural.py:146-159 | a match needs the attributes to match; an error can only come from the attribute check; with no module path, a class name other than `curr` gives False |
| Structural.CheckObjectAttrs | pybryt/annotations/structural.py:114-144 | the nested loops with early returns and the has_attr flag agree with the attribute check for every pattern and object |
| Structural.FindFromMeaning | pybryt/annotations/structural.py:134-142 | when every listed name is readable, the search finds a value exactly when some listed attribute equals it |
| Structural.NamedFromMeaning | pybryt/annotations/structural.py:124-132 | the keyword attributes match exactly when each is present and accepted |
| Structural.UnnamedFromMeaning | pybryt/annotations/structural.py:134-144 | the positional attributes match exactly when each equals some listed attribute |
| Structural.AttrsMatchMeaning | pybryt/annotations/structural.py:114-144 | the attribute check holds exactly when every keyword attribute matches and every positional one is found; with no attributes it always holds |
| Structural.EqByNameOnly | pybryt/annotations/structural.py:156-159 | with no module path, a pattern matches exactly when the class name equals `curr` and the attributes match |
| Structural.DataFrameExample | pybryt/annotations/structural.py:46-52 | `structural.DataFrame()` equals any object whose class is named DataFrame |
| StructuralHelpers.AttrContainer.constructor | tests/annotations/structural_helpers.py:10-11 | `attrs` is the keyword arguments |
| StructuralHelpers.AttrContainer.Container | tests/annotations/structural_helpers.py:28-35 | `attrs` holds exactly `elements`, and membership holds exactly for the given elements |
| StructuralHelpers.AttrContainer.SetAttr | tests/annotations/structural_helpers.py:13-17 | the assigned value reads back; assigning `attrs` replaces the dictionary; any other name sets one key while every other key reads as before |
| StructuralHelpers.AttrContainer.GetAttr | tests/annotations/structural_helpers.py:9-22 | `attrs` reads as the dictionary itself; any other name gives the stored value, or an AttributeError exactly when it is missing |
| StructuralHelpers.AttrContainer.Dir | tests/annotations/structural_helpers.py:24-25 | sorted by code point, holds exactly the keys plus "attrs", and every listed name can be read |
| StructuralHelpers.SortedUnique | tests/annotations/structural_helpers.py:24-25 | being sorted with those names decides the listing |
| StructuralHelpers.Insert | tests/annotations/structural_helpers.py:25 | inserting keeps a listing sorted and adds exactly one name |
| StructuralHelpers.AttrContainer.Contains | tests/annotations/structural_helpers.py:34-35 | membership in the stored `elements` list; AttributeError when there is none |
| Imports.ImportsOfAllMeaning | pybryt/preprocessors/imports.py:11-20 | a name is collected from a node's children exactly when one child holds it |
| Imports.ImportFinder.constructor | pybryt/preprocessors/imports.py:12-13 | a new finder has no imports |
| Imports.ImportFinder.VisitImport | pybryt/preprocessors/imports.py:15-17 | adds exactly every alias name, keeping earlier entries |
| Imports.ImportFinder.VisitImportFrom | pybryt/preprocessors/imports.py:19-20 | adds exactly the module, None included |
| Imports.ImportFinder.Visit | pybryt/preprocessors/imports.py:11-20 | walking a tree adds exactly the names of all its import statements |
| Imports.CodeImportsMeaning | pybryt/preprocessors/imports.py:43-49 | only code cells contribute, each with all its imports |
| Imports.ImportFindingPreprocessor.constructor | pybryt/preprocessors/imports.py:30-31 | a new preprocessor has no imports |
| Imports.ImportFindingPreprocessor.Preprocess | pybryt/preprocessors/imports.py:43-52 | returns the notebook unchanged and, as written, leaves its own imports untouched |
| Imports.ImportFindingPreprocessor.PreprocessIntended | pybryt/preprocessors/imports.py:43-52 | as documented, imports gain exactly the imports of the code cells |
| Imports.ImportsLostExample | pybryt/preprocessors/imports.py:50 | for one code cell `import os`, as written no import is recorded, as intended `os` is |
| ExecutionUtils.Split | pybryt/execution/utils.py:20 | the head is a prefix of the path with no trailing slash unless it is all slashes; the tail is a suffix with no slash |
| ExecutionUtils.SplitRecombines | pybryt/execution/utils.py:20 | the tail has no slash, and the path is the head, the dropped slashes and the tail |
| ExecutionUtils.SplitChild | pybryt/execution/utils.py:20 | splitting `d/n` gives tail n, and head d when d does not end in a slash |
| ExecutionUtils.ParentOfChild | pybryt/execution/utils.py:20 | the parent directory of `dir/k/name` is `k` when neither `k` nor `name` holds a slash |
| ExecutionUtils.IsIpythonFrame | pybryt/execution/utils.py:8-23 | true exactly when the name starts with `<ipython` or its parent directory starts with `ipykernel_` |
| ExecutionUtils.NoDirectoryPart | pybryt/execution/utils.py:20-23 | with no slash the parent directory is "", so only the `<ipython` prefix decides |
| ExecutionUtils.KernelDirectory | pybryt/execution/utils.py:20-23 | any file directly inside `.../ipykernel_<k>/` is an IPython file |
| ExecutionUtils.KernelCellFile | pybryt/execution/utils.py:20-23 | `/tmp/ipykernel_42/x.py` is an IPython file |
| ExecutionUtils.LibraryFileIsNot | pybryt/execution/utils.py:18-23 | `/usr/lib/a.py` is not an IPython file |

## Left out

- `StudentImplementation.dump`, `dumps`, `load` and `loads` (pybryt/student.py:84-132): serialisation through `dill` and base64 is foreign code, so the round trip it promises is not modelled.
- `MemoryFootprint.filter_out_unpicklable_values` (pybryt/execution/memory_footprint.py:117-120): it depends on whether values can be pickled, which is foreign.
- `pickle_and_hash`: it is the `hash` parameter of `Combine`.
- `execute_notebook` and `nbformat.read`: they are parameters of `Create`.
- `ReferenceImplementation.run` and `load`: they are parameters.
- A `load` that fails (missing file) is not modelled.
- The inline check's machinery is reduced to the interpreter's flag and event log:
  - `create_collector`, `_currently_tracing`, `tracing_on` and `tracing_off`;
  - frame lookup (`inspect.currentframe().f_back.f_back`);
  - `print`, which is the `Reported` event.
  - What the block observes is given as data.
- Student.RefArg: the `isinstance` tests of the inline check become a classification of `ref` and its elements. The classes are a name, a reference, a list, another iterable, and anything else.
- `Student.CheckArg.ReferenceList` holds only references. A list with another element raises AttributeError at `r.run` (pybryt/student.py:153); that path is not modelled.
- `MemoryFootprints.MemoryFootprint.Equals`: `isinstance(other, type(self))` is not modelled, because `other` is always a footprint.
- The `calls` of merged footprints are not copied by `Combine`. The lazy `map` over their calls (pybryt/execution/memory_footprint.py:67) is never consumed, which the model keeps.
- Structural patterns:
  - `importlib.import_module`, `isinstance` against the imported class, `Value.check_against` and `==` on attribute values are parameters (`Env`). Their own errors are not modelled: a missing module, a missing class, or `curr` being `None` with a module path.
  - `str()` of a plain attribute value, which `__repr__` shows, is the `show` parameter.
- `Structural.Call` requires distinct keyword names. Python refuses a repeated keyword before `__call__` runs.
- `Structural.GetAttr` models `__getattr__`. Python calls it only for names that normal lookup misses, so `structural.parents` and the pattern's other own fields and methods are not modelled.
- `StructuralHelpers.AttrContainer.SetAttr`: it requires a dictionary when the name is `attrs`. Assigning anything else to `attrs` breaks every later access in Python, so that path is not modelled.
- `StructuralHelpers.AttrContainer.GetAttr` models `getattr` for `attrs` and for the names `__getattr__` serves. Other names that normal lookup finds, such as methods or `__class__`, are not modelled.
- `StructuralHelpers.AttrContainer.Contains`: a stored `elements` that is not a list gives `NotAList`. Membership in other Python containers is not modelled.
- `Container` subclasses `AttrContainer`. It is modelled as the named constructor `Container` of `AttrContainer`.
- `ast.parse` and the IPython `transformer_manager` (pybryt/preprocessors/imports.py:46-47): each cell comes with its parsed tree. The tree has only three node kinds: `import`, `from ... import`, and any other node with its children.
- `is_ipython_frmae` takes the frame's `co_filename` string. Its `except` branch cannot be reached for a string and is not modelled.
- pybryt/complexity.py is not part of this model: it is glue around time-complexity annotations and frame tracing that this core does not contain.

## Findings

| source | as written | input that shows it | evidently intended | confidence | as-written member | corrected member |
|---|---|---|---|---|---|---|
| pybryt/student.py:184-185 | when already tracing, the generator yields but does not return, so after the block it validates, creates a second collector, calls tracing_on again and yields a second time (RuntimeError) | a `with check(r):` nested inside a traced block that raises nothing | a nested check just runs the block inside the outer trace | not executed; high | Student.NestedCheckFailsAfterBlock | Student.IntendedRestoresTracing |
| pybryt/student.py:204-206 | no try/finally around the yield, so an exception from the block skips tracing_off | an outermost `with check(r):` whose block raises | tracing is turned off on every exit before the exception propagates | not executed; high | Student.RaisingBlockLeavesTracingOn | Student.IntendedRestoresTracing |
| pybryt/student.py:208 | `max` of no timestamps raises ValueError | an outermost `with check(r):` whose block observes nothing | the step count is 0 when nothing was observed | not executed; medium | Student.EmptyObservationRaises | Student.IntendedReportsInOrder |
| pybryt/student.py:196 | iterates over `ref` even when it is a single reference, which is not iterable | `with check(r):` with one ReferenceImplementation `r` | a single reference is checked as `[r]` | not executed; medium | Student.SingleReferenceRefused | Student.NormaliseIntended |
| pybryt/student.py:196-209 | a tuple of references passes validation, and `check` refuses it only after tracing has been on | `with check((r1, r2)):` | an unsupported shape is refused before tracing starts | not executed; medium | Student.InlineCheckTupleFailsLate | Student.IntendedValidatesFirst |
| pybryt/preprocessors/imports.py:50 | `self.imports.union(...)` returns a new set that is discarded | a notebook whose only code cell is `import os` | `self.imports` gains `os` | not executed; high | Imports.ImportsLostExample | Imports.ImportFindingPreprocessor.PreprocessIntended |
