/**
 * Student implementations (pybryt/student.py): a submission's memory
 * footprint and step count, built by executing a notebook or injected
 * directly; checking it against one or several reference implementations;
 * the plagiarism comparison; and the inline `check` context manager that
 * traces a block of code and checks what it observed.
 */
module Student {
  import opened Wrappers
  import MF = MemoryFootprints

  type Entry = MF.Entry
  type Notebook = MF.Notebook

  /** A `ReferenceImplementation`. */
  type Reference(==)

  /** A `ReferenceResult`. */
  type ReferenceResult(==)

  /** The label of an annotation group. */
  type Group(==)

  /** The keyword arguments forwarded by `check_plagiarism`. */
  type Options

  /** `ReferenceImplementation.run(values, group=group)`. */
  type RunFn = (Reference, seq<Entry>, Option<Group>) -> ReferenceResult

  /** `execute_notebook(nb, nb_path, addl_filenames=..., output=...)`, giving (steps, values). */
  type ExecuteFn = (Notebook, string, seq<string>, Option<string>) -> (int, seq<Entry>)

  /** The exceptions this core raises, by where they are raised. */
  datatype Error =
    | UnsupportedInputType   // TypeError: constructor given neither None, a str nor a notebook
    | UnsupportedCheckType   // TypeError: `check` given neither a reference nor a list
    | MissingFootprint       // AttributeError: `values` was never assigned
    | EmptyReferenceList     // ValueError: inline check given an empty list
    | InvalidReferenceList   // TypeError: list mixing references, names and other values
    | NotIterable            // TypeError: `for r in ref` over a value that is not iterable
    | InvalidReferences      // TypeError: iterable holding something other than references
    | EmptyFootprint         // ValueError: `max` of no timestamps
    | BlockRaised            // the exception raised by the checked block itself
    | GeneratorDidNotStop    // RuntimeError: the context manager's generator yielded twice
    | NoReferenceSynthesised // IndexError: `create_references` returned no reference

  /** What the constructor is given as `path_or_nb`. */
  datatype NotebookInput = NoNotebook | Path(path: string) | NotebookNode(node: Notebook) | UnsupportedInput

  /** What `StudentImplementation.check` is given as `ref`. */
  datatype CheckArg = OneReference(ref: Reference) | ReferenceList(refs: seq<Reference>) | OtherArg

  /** What `StudentImplementation.check` returns: one result, or a list of them. */
  datatype CheckResult = SingleResult(result: ReferenceResult) | ResultList(results: seq<ReferenceResult>)

  /**
   * `StudentImplementation.check` over a footprint (`None` when `values` was
   * never assigned): one reference gives its one result, a list gives the
   * results in list order, and anything else is a TypeError. The footprint is
   * only read.
   */
  function Dispatch(values: Option<seq<Entry>>, ref: CheckArg, group: Option<Group>, run: RunFn): (r: Result<CheckResult, Error>)
    ensures ref.OtherArg? ==> r == Err(UnsupportedCheckType)
    ensures ref.OneReference? && values.Some? ==> r == Ok(SingleResult(run(ref.ref, values.value, group)))
    ensures ref.OneReference? && values.None? ==> r == Err(MissingFootprint)
    ensures ref.ReferenceList? && values.Some? ==>
              && r.Ok? && r.value.ResultList? && |r.value.results| == |ref.refs|
              && forall i :: 0 <= i < |ref.refs| ==> r.value.results[i] == run(ref.refs[i], values.value, group)
    ensures ref.ReferenceList? && ref.refs == [] ==> r == Ok(ResultList([]))
    ensures ref.ReferenceList? && ref.refs != [] && values.None? ==> r == Err(MissingFootprint)
  {
    match ref
    case OneReference(rf) =>
      if values.Some? then Ok(SingleResult(run(rf, values.value, group))) else Err(MissingFootprint)
    case ReferenceList(refs) =>
      if refs == [] then Ok(ResultList([]))
      else if values.None? then Err(MissingFootprint)
      else Ok(ResultList(seq(|refs|, i requires 0 <= i < |refs| => run(refs[i], values.value, group))))
    case OtherArg => Err(UnsupportedCheckType)
  }

  /** Checking against `[r1, ..., rn]` gives, at position i, what checking against `ri` alone gives. */
  lemma {:induction false} ListCheckAgreesWithSingleChecks(values: seq<Entry>, refs: seq<Reference>, group: Option<Group>, run: RunFn)
    ensures var many := Dispatch(Some(values), ReferenceList(refs), group, run);
            many.Ok? && |many.value.results| == |refs|
            && forall i :: 0 <= i < |refs| ==>
                 Dispatch(Some(values), OneReference(refs[i]), group, run) == Ok(SingleResult(many.value.results[i]))
  {
  }

  class StudentImplementation {
    var nb: Option<Notebook>
    var nbPath: Option<string>
    /** `None` while the attribute has never been assigned. */
    var values: Option<seq<Entry>>
    /** `None` while the attribute has never been assigned. */
    var steps: Option<int>

    /** A bare object, before `__init__` has assigned anything. */
    constructor Allocate()
      ensures nb == None && nbPath == None && values == None && steps == None
    {
      nb, nbPath, values, steps := None, None, None, None;
    }

    /** `StudentImplementation(None)`: no notebook, and nothing executed. */
    static method WithoutNotebook() returns (stu: StudentImplementation)
      ensures fresh(stu)
      ensures stu.nb == None && stu.nbPath == None && stu.values == None && stu.steps == None
    {
      stu := new StudentImplementation.Allocate();
      stu.nb := None;
      stu.nbPath := None;
    }

    /**
     * `StudentImplementation(path_or_nb, addl_filenames, output)`: a path is
     * read and kept as `nb_path`, a notebook is kept with `nb_path` "", both are
     * executed; `None` executes nothing; any other input is a TypeError raised
     * before anything is read or executed.
     */
    static method Create(pathOrNb: NotebookInput, addlFilenames: seq<string>, output: Option<string>,
                         read: string -> Notebook, execute: ExecuteFn)
      returns (r: Result<StudentImplementation, Error>)
      ensures r.Err? <==> pathOrNb.UnsupportedInput?
      ensures r.Err? ==> r.error == UnsupportedInputType
      ensures r.Ok? ==> fresh(r.value)
      ensures pathOrNb.NoNotebook? ==>
                r.Ok? && r.value.nb == None && r.value.nbPath == None && r.value.values == None && r.value.steps == None
      ensures pathOrNb.Path? ==>
                var run := execute(read(pathOrNb.path), pathOrNb.path, addlFilenames, output);
                && r.Ok? && r.value.nb == Some(read(pathOrNb.path)) && r.value.nbPath == Some(pathOrNb.path)
                && r.value.steps == Some(run.0) && r.value.values == Some(run.1)
      ensures pathOrNb.NotebookNode? ==>
                var run := execute(pathOrNb.node, "", addlFilenames, output);
                && r.Ok? && r.value.nb == Some(pathOrNb.node) && r.value.nbPath == Some("")
                && r.value.steps == Some(run.0) && r.value.values == Some(run.1)
    {
      if pathOrNb.UnsupportedInput? {
        return Err(UnsupportedInputType);
      }
      var stu: StudentImplementation;
      if pathOrNb.NoNotebook? {
        stu := WithoutNotebook();
        return Ok(stu);
      }
      stu := new StudentImplementation.Allocate();
      if pathOrNb.Path? {
        stu.nb := Some(read(pathOrNb.path));
        stu.nbPath := Some(pathOrNb.path);
      } else {
        stu.nb := Some(pathOrNb.node);
        stu.nbPath := Some("");
      }
      stu.Execute(addlFilenames, output, execute);
      return Ok(stu);
    }

    /** `_execute`: runs the notebook and stores the step count and the footprint. */
    method Execute(addlFilenames: seq<string>, output: Option<string>, execute: ExecuteFn)
      requires nb.Some? && nbPath.Some?
      modifies this
      ensures nb == old(nb) && nbPath == old(nbPath)
      ensures var run := execute(nb.value, nbPath.value, addlFilenames, output);
              steps == Some(run.0) && values == Some(run.1)
    {
      var run := execute(nb.value, nbPath.value, addlFilenames, output);
      steps := Some(run.0);
      values := Some(run.1);
    }

    /** `from_footprint`: an implementation with no notebook holding the given footprint. */
    static method FromFootprint(footprint: seq<Entry>, steps: int) returns (stu: StudentImplementation)
      ensures fresh(stu)
      ensures stu.nb == None && stu.nbPath == None
      ensures stu.values == Some(footprint) && stu.steps == Some(steps)
    {
      stu := WithoutNotebook();
      stu.steps := Some(steps);
      stu.values := Some(footprint);
    }

    /** `check`: dispatches on the shape of `ref` over this footprint, changing nothing. */
    function Check(ref: CheckArg, group: Option<Group>, run: RunFn): (r: Result<CheckResult, Error>)
      reads this
      ensures r == Dispatch(values, ref, group, run)
    {
      Dispatch(values, ref, group, run)
    }

    /**
     * `check_plagiarism`: synthesises references from the one-element list
     * holding this implementation and compares the first of them against
     * every peer; no reference at all is an IndexError.
     */
    function CheckPlagiarism(studentImpls: seq<StudentImplementation>, options: Options,
                             createReferences: (seq<StudentImplementation>, Options) -> seq<Reference>,
                             getImplResults: (Reference, seq<StudentImplementation>, Options) -> seq<ReferenceResult>)
      : (r: Result<seq<ReferenceResult>, Error>)
      ensures r.Err? <==> createReferences([this], options) == []
      ensures r.Err? ==> r.error == NoReferenceSynthesised
      ensures r.Ok? ==> r.value == getImplResults(createReferences([this], options)[0], studentImpls, options)
    {
      var refs := createReferences([this], options);
      if |refs| == 0 then Err(NoReferenceSynthesised) else Ok(getImplResults(refs[0], studentImpls, options))
    }
  }

  /**
   * Only the first synthesised reference matters: two synthesisers that agree
   * on it give the same plagiarism results.
   */
  lemma {:induction false} PlagiarismUsesFirstReferenceOnly(stu: StudentImplementation, peers: seq<StudentImplementation>, options: Options,
                                         create1: (seq<StudentImplementation>, Options) -> seq<Reference>,
                                         create2: (seq<StudentImplementation>, Options) -> seq<Reference>,
                                         getImplResults: (Reference, seq<StudentImplementation>, Options) -> seq<ReferenceResult>)
    requires create1([stu], options) != [] && create2([stu], options) != []
    requires create1([stu], options)[0] == create2([stu], options)[0]
    ensures stu.CheckPlagiarism(peers, options, create1, getImplResults)
            == stu.CheckPlagiarism(peers, options, create2, getImplResults)
  {
  }

  // ---------------------------------------------------------------------------
  // The inline `check` context manager
  // ---------------------------------------------------------------------------

  /** One element of what the inline check's `ref` iterates over. */
  datatype RefElem = ElemReference(ref: Reference) | ElemName(name: string) | ElemOther

  /** The shapes the inline check's `ref` can take. */
  datatype RefArg =
    | RefName(name: string)                // a str naming a stored reference
    | SingleRef(ref: Reference)            // a bare ReferenceImplementation, which is not iterable
    | RefList(elems: seq<RefElem>)         // a list
    | OtherIterable(elems: seq<RefElem>)   // an iterable that is not a list, such as a tuple
    | NotIterableArg                       // any other value

  /** What is left of `ref` once the checks made on it before tracing starts have accepted it. */
  datatype Validated =
    | ListOfRefs(refs: seq<Reference>)       // a list of references
    | IterableOfRefs(refs: seq<Reference>)   // another iterable of references, kept as it is

  predicate AllReferences(es: seq<RefElem>)
  {
    forall i :: 0 <= i < |es| ==> es[i].ElemReference?
  }

  predicate AllNames(es: seq<RefElem>)
  {
    forall i :: 0 <= i < |es| ==> es[i].ElemName?
  }

  function ReferencesOf(es: seq<RefElem>): seq<Reference>
    requires AllReferences(es)
  {
    seq(|es|, i requires 0 <= i < |es| && AllReferences(es) => es[i].ref)
  }

  function LoadAll(es: seq<RefElem>, load: string -> Reference): seq<Reference>
    requires AllNames(es)
  {
    seq(|es|, i requires 0 <= i < |es| && AllNames(es) => load(es[i].name))
  }

  /**
   * The validation of `ref` in the inline check: a name becomes a one-element list of
   * the loaded reference; an empty list is a ValueError; a list of references
   * is kept; a list of names is loaded element by element; any other list is a
   * TypeError; and what is not a list must iterate over references only.
   */
  function Normalise(ref: RefArg, load: string -> Reference): (r: Result<Validated, Error>)
    ensures ref.RefName? ==> r == Ok(ListOfRefs([load(ref.name)]))
    ensures ref.RefList? && ref.elems == [] ==> r == Err(EmptyReferenceList)
    ensures ref.RefList? && ref.elems != [] && AllReferences(ref.elems) ==>
              && r.Ok? && r.value.ListOfRefs? && |r.value.refs| == |ref.elems|
              && forall i :: 0 <= i < |ref.elems| ==> ref.elems[i] == ElemReference(r.value.refs[i])
    ensures ref.RefList? && ref.elems != [] && AllNames(ref.elems) ==>
              && r.Ok? && r.value.ListOfRefs? && |r.value.refs| == |ref.elems|
              && forall i :: 0 <= i < |ref.elems| ==> r.value.refs[i] == load(ref.elems[i].name)
    ensures ref.RefList? && !AllReferences(ref.elems) && !AllNames(ref.elems) ==> r == Err(InvalidReferenceList)
    ensures ref.SingleRef? || ref.NotIterableArg? ==> r == Err(NotIterable)
    ensures ref.OtherIterable? ==>
              if AllReferences(ref.elems) then r == Ok(IterableOfRefs(ReferencesOf(ref.elems)))
              else r == Err(InvalidReferences)
    ensures r.Ok? && r.value.ListOfRefs? ==> r.value.refs != []
  {
    match ref
    case RefName(name) => Ok(ListOfRefs([load(name)]))
    case SingleRef(_) => Err(NotIterable)
    case NotIterableArg => Err(NotIterable)
    case RefList(es) =>
      if es == [] then Err(EmptyReferenceList)
      else if AllReferences(es) then Ok(ListOfRefs(ReferencesOf(es)))
      else if AllNames(es) then Ok(ListOfRefs(LoadAll(es, load)))
      else Err(InvalidReferenceList)
    case OtherIterable(es) =>
      if AllReferences(es) then Ok(IterableOfRefs(ReferencesOf(es))) else Err(InvalidReferences)
  }

  /** `all(isinstance(r, ReferenceImplementation) for r in es)`. */
  method AreAllReferences(es: seq<RefElem>) returns (b: bool)
    ensures b <==> AllReferences(es)
  {
    var i := 0;
    while i < |es|
      invariant 0 <= i <= |es|
      invariant AllReferences(es[..i])
    {
      if !es[i].ElemReference? {
        return false;
      }
      i := i + 1;
    }
    assert es[..i] == es;
    return true;
  }

  /** `all(isinstance(r, str) for r in es)`. */
  method AreAllNames(es: seq<RefElem>) returns (b: bool)
    ensures b <==> AllNames(es)
  {
    var i := 0;
    while i < |es|
      invariant 0 <= i <= |es|
      invariant AllNames(es[..i])
    {
      if !es[i].ElemName? {
        return false;
      }
      i := i + 1;
    }
    assert es[..i] == es;
    return true;
  }

  /** `[ReferenceImplementation.load(r) for r in es]`. */
  method LoadEach(es: seq<RefElem>, load: string -> Reference) returns (refs: seq<Reference>)
    requires AllNames(es)
    ensures refs == LoadAll(es, load)
  {
    refs := [];
    var i := 0;
    while i < |es|
      invariant 0 <= i <= |es|
      invariant refs == LoadAll(es[..i], load)
    {
      refs := refs + [load(es[i].name)];
      i := i + 1;
    }
    assert es[..i] == es;
  }

  /** The items of an iterable whose items are all references. */
  method CollectReferences(es: seq<RefElem>) returns (refs: seq<Reference>)
    requires AllReferences(es)
    ensures refs == ReferencesOf(es)
  {
    refs := [];
    var i := 0;
    while i < |es|
      invariant 0 <= i <= |es|
      invariant refs == ReferencesOf(es[..i])
    {
      refs := refs + [es[i].ref];
      i := i + 1;
    }
    assert es[..i] == es;
  }

  /** The validation of `ref` run step by step, rebinding `ref` as pybryt does. */
  method ValidateRefs(ref: RefArg, load: string -> Reference) returns (r: Result<Validated, Error>)
    ensures r == Normalise(ref, load)
  {
    var current := ref;
    if current.RefName? {
      current := RefList([ElemReference(load(current.name))]);
    }
    if current.RefList? {
      if |current.elems| == 0 {
        return Err(EmptyReferenceList);
      }
      var allRefs := AreAllReferences(current.elems);
      if !allRefs {
        var allNames := AreAllNames(current.elems);
        if !allNames {
          return Err(InvalidReferenceList);
        }
        var loaded := LoadEach(current.elems, load);
        return Ok(ListOfRefs(loaded));
      }
      var refs := CollectReferences(current.elems);
      assert ref.RefName? ==> refs == [load(ref.name)];
      return Ok(ListOfRefs(refs));
    }
    if current.SingleRef? || current.NotIterableArg? {
      return Err(NotIterable);
    }
    var allRefs := AreAllReferences(current.elems);
    if !allRefs {
      return Err(InvalidReferences);
    }
    var refs := CollectReferences(current.elems);
    return Ok(IterableOfRefs(refs));
  }

  /** The checked block: whether it raises, and what the collector observed while it ran. */
  datatype Block = Block(raises: bool, observed: seq<Entry>)

  /** What the inline check does, in order. */
  datatype Event =
    | BlockRun                              // the `with` block executes
    | CollectorCreated                      // `create_collector`
    | TracingOn                             // `tracing_on`
    | TracingOff                            // `tracing_off`
    | ArtifactBuilt(steps: int)             // `from_footprint(observed, steps)`
    | Reported(results: seq<ReferenceResult>)  // the printed report, one result per reference

  /** How the `with` statement ends. */
  datatype Outcome = Completed | Raised(error: Error)

  /** The events of one `with check(ref): block` and how it ends. */
  datatype Run = Run(events: seq<Event>, outcome: Outcome)

  /** Whether tracing is on after the given events, starting from `on`. */
  function TracingAfter(on: bool, events: seq<Event>): bool
  {
    if events == [] then on
    else
      var last := events[|events| - 1];
      if last.TracingOn? then true
      else if last.TracingOff? then false
      else TracingAfter(on, events[..|events| - 1])
  }

  /** Events other than `TracingOn` and `TracingOff` leave the tracing state as it is. */
  lemma {:induction false} TracingAfterAppend(on: bool, events: seq<Event>, tail: seq<Event>)
    requires forall i :: 0 <= i < |tail| ==> !tail[i].TracingOn? && !tail[i].TracingOff?
    ensures TracingAfter(on, events + tail) == TracingAfter(on, events)
  {
    if tail == [] {
      assert events + tail == events;
    } else {
      var init := tail[..|tail| - 1];
      var all := events + tail;
      assert all[..|all| - 1] == events + init;
      assert all[|all| - 1] == tail[|tail| - 1];
      assert forall i :: 0 <= i < |init| ==> init[i] == tail[i];
      TracingAfterAppend(on, events, init);
    }
  }

  /**
   * Whatever happens after a clean outermost block starts with `tracing_off`,
   * so tracing is off afterwards, whatever came before.
   */
  lemma {:induction false} AfterBlockEndsUntraced(on: bool, before: seq<Event>, v: Validated, observed: seq<Entry>, run: RunFn)
    ensures !TracingAfter(on, before + AfterBlock(v, observed, run).events)
  {
    var tail := AfterBlock(v, observed, run).events;
    var head := before + [TracingOff];
    assert before + tail == head + tail[1..];
    assert head[..|head| - 1] == before;
    TracingAfterAppend(on, head, tail[1..]);
  }

  function AsCheckArg(v: Validated): CheckArg
  {
    match v
    case ListOfRefs(refs) => ReferenceList(refs)
    case IterableOfRefs(_) => OtherArg
  }

  /**
   * `with check(ref): block`, as the generator is written and as
   * `contextlib.contextmanager` drives it. When tracing is already on, the
   * generator yields at the `yield` under `_currently_tracing()` and, once
   * the block is done, falls through to validation and a second `tracing_on`
   * and yields again, which `contextmanager` reports as a RuntimeError; so a
   * nested check never completes. Otherwise validation runs first; an
   * exception from the block is thrown in at the `yield` after `tracing_on`
   * and skips `tracing_off`; after a clean block the artifact is built with
   * the largest observed timestamp and checked against the references. A
   * check that completes has validated `ref`, run a clean block that observed
   * something, and left tracing off.
   */
  function InlineCheck(tracing: bool, ref: RefArg, block: Block, load: string -> Reference, run: RunFn): (r: Run)
    ensures tracing ==> r.outcome.Raised?
    ensures r.outcome == Completed ==> Normalise(ref, load).Ok? && !block.raises && block.observed != []
    ensures r.outcome == Completed ==> !TracingAfter(tracing, r.events)
  {
    var validated := Normalise(ref, load);
    if !tracing && validated.Ok? && !block.raises then
      AfterBlockEndsUntraced(false, [CollectorCreated, TracingOn, BlockRun], validated.value, block.observed, run);
      InlineCheckValidated(tracing, validated, block, run)
    else
      InlineCheckValidated(tracing, validated, block, run)
  }

  /** The inline check once the validation of `ref` has produced `validated`. */
  function InlineCheckValidated(tracing: bool, validated: Result<Validated, Error>, block: Block, run: RunFn): Run
  {
    if tracing then
      if block.raises then Run([BlockRun], Raised(BlockRaised))
      else if validated.Err? then Run([BlockRun], Raised(validated.error))
      else Run([BlockRun, CollectorCreated, TracingOn], Raised(GeneratorDidNotStop))
    else if validated.Err? then Run([], Raised(validated.error))
    else
      var traced := [CollectorCreated, TracingOn, BlockRun];
      if block.raises then Run(traced, Raised(BlockRaised))
      else
        var after := AfterBlock(validated.value, block.observed, run);
        Run(traced + after.events, after.outcome)
  }

  /**
   * What follows the last `yield` after a clean outermost block: tracing is turned off, an
   * empty footprint is refused, otherwise the artifact is built with
   * `max` of the observed timestamps and checked.
   */
  function AfterBlock(v: Validated, observed: seq<Entry>, run: RunFn): Run
  {
    if observed == [] then Run([TracingOff], Raised(EmptyFootprint))
    else
      var built := [TracingOff, ArtifactBuilt(MF.NumSteps(observed))];
      var checked := Dispatch(Some(observed), AsCheckArg(v), None, run);
      if checked.Err? then Run(built, Raised(checked.error))
      else Run(built + [Reported(checked.value.results)], Completed)
  }

  /**
   * Validation errors come first: outside a traced region, a `ref` that lines
   * 187-197 reject raises before any collector is created or tracing is turned
   * on, and the block never runs.
   */
  lemma {:induction false} InlineCheckValidatesFirst(ref: RefArg, block: Block, load: string -> Reference, run: RunFn)
    requires Normalise(ref, load).Err?
    ensures InlineCheck(false, ref, block, load, run) == Run([], Raised(Normalise(ref, load).error))
  {
  }

  /**
   * After a clean block with observations and a list of references, tracing
   * is turned off before the artifact is built, its step count is the largest
   * observed timestamp, and the report holds one result per reference in list
   * order.
   */
  lemma {:induction false} InlineCheckReportsInOrder(ref: RefArg, block: Block, load: string -> Reference, run: RunFn)
    requires Normalise(ref, load).Ok? && Normalise(ref, load).value.ListOfRefs?
    requires !block.raises && block.observed != []
    ensures var r := InlineCheck(false, ref, block, load, run);
            var refs := Normalise(ref, load).value.refs;
            && r.outcome == Completed
            && |r.events| == 6 && r.events[3] == TracingOff && r.events[4].ArtifactBuilt?
            && (forall i :: 0 <= i < |block.observed| ==> block.observed[i].1 <= r.events[4].steps)
            && (exists i :: 0 <= i < |block.observed| && block.observed[i].1 == r.events[4].steps)
            && r.events[5].Reported? && |r.events[5].results| == |refs|
            && (forall i :: 0 <= i < |refs| ==> r.events[5].results[i] == run(refs[i], block.observed, None))
            && !TracingAfter(false, r.events)
  {
    AfterBlockEndsUntraced(false, [CollectorCreated, TracingOn, BlockRun], Normalise(ref, load).value, block.observed, run);
  }

  /** A tuple of references passes validation but is refused by `check` after tracing has run. */
  lemma {:induction false} InlineCheckTupleFailsLate(refs: seq<Reference>, block: Block, load: string -> Reference, run: RunFn)
    requires !block.raises && block.observed != []
    ensures var r := InlineCheck(false, OtherIterable(seq(|refs|, i requires 0 <= i < |refs| => ElemReference(refs[i]))), block, load, run);
            r.outcome == Raised(UnsupportedCheckType) && TracingOn in r.events && TracingOff in r.events
  {
    var es := seq(|refs|, i requires 0 <= i < |refs| => ElemReference(refs[i]));
    assert AllReferences(es);
  }

  // ---------------------------------------------------------------------------
  // Where the inline check departs from its scoped, re-entrant design
  // ---------------------------------------------------------------------------

  /**
   * Already tracing, a valid `ref` and a clean block: the generator does not
   * stop after the `yield` under `_currently_tracing()`; it validates, creates a second
   * collector, turns tracing on again and yields a second time, which
   * `contextmanager` turns into a RuntimeError.
   */
  lemma {:induction false} NestedCheckFailsAfterBlock(ref: RefArg, block: Block, load: string -> Reference, run: RunFn)
    requires Normalise(ref, load).Ok? && !block.raises
    ensures InlineCheck(true, ref, block, load, run) == Run([BlockRun, CollectorCreated, TracingOn], Raised(GeneratorDidNotStop))
  {
  }

  /** A block that raises skips `tracing_off` (no `try` guards the `yield` after `tracing_on`), so tracing stays on. */
  lemma {:induction false} RaisingBlockLeavesTracingOn(ref: RefArg, block: Block, load: string -> Reference, run: RunFn)
    requires Normalise(ref, load).Ok? && block.raises
    ensures var r := InlineCheck(false, ref, block, load, run);
            r.outcome == Raised(BlockRaised) && TracingAfter(false, r.events)
  {
  }

  /** A clean block that observed nothing makes the `max` over the observed timestamps raise, so no report is made. */
  lemma {:induction false} EmptyObservationRaises(ref: RefArg, block: Block, load: string -> Reference, run: RunFn)
    requires Normalise(ref, load).Ok? && !block.raises && block.observed == []
    ensures var r := InlineCheck(false, ref, block, load, run);
            r.outcome == Raised(EmptyFootprint) && forall i :: 0 <= i < |r.events| ==> !r.events[i].Reported?
  {
  }

  /** A single reference is refused: the last `all(...)` over `ref` iterates over it, and a reference is not iterable. */
  lemma {:induction false} SingleReferenceRefused(rf: Reference, tracing: bool, block: Block, load: string -> Reference, run: RunFn)
    requires !tracing || !block.raises
    ensures InlineCheck(tracing, SingleRef(rf), block, load, run).outcome == Raised(NotIterable)
  {
  }

  /**
   * The validation the inline check is designed to do: a reference or a name
   * gives a one-element list, a list of references or of names gives that
   * list, and every other shape is refused before anything else happens.
   */
  function NormaliseIntended(ref: RefArg, load: string -> Reference): (r: Result<seq<Reference>, Error>)
    ensures r.Ok? ==> r.value != []
    ensures ref.SingleRef? ==> r == Ok([ref.ref])
    ensures ref.RefName? ==> r == Ok([load(ref.name)])
    ensures ref.RefList? ==>
              && (r.Ok? <==> Normalise(ref, load).Ok?)
              && (r.Ok? ==> r.value == Normalise(ref, load).value.refs)
              && (r.Err? ==> r.error == Normalise(ref, load).error)
    ensures ref.OtherIterable? || ref.NotIterableArg? ==> r == Err(InvalidReferences)
  {
    match ref
    case SingleRef(rf) => Ok([rf])
    case RefName(_) => Ok(Normalise(ref, load).value.refs)
    case RefList(_) =>
      var v := Normalise(ref, load);
      if v.Err? then Err(v.error) else Ok(v.value.refs)
    case OtherIterable(_) => Err(InvalidReferences)
    case NotIterableArg => Err(InvalidReferences)
  }

  /**
   * The inline check as designed: validation first; when already tracing the
   * block just runs inside the outer trace; otherwise tracing is turned off
   * on every exit, the step count of an empty observation is 0, and the
   * report holds one result per reference in order.
   */
  function IntendedCheck(tracing: bool, ref: RefArg, block: Block, load: string -> Reference, run: RunFn): Run
  {
    var validated := NormaliseIntended(ref, load);
    if validated.Err? then Run([], Raised(validated.error))
    else if tracing then Run([BlockRun], if block.raises then Raised(BlockRaised) else Completed)
    else
      var traced := [CollectorCreated, TracingOn, BlockRun, TracingOff];
      if block.raises then Run(traced, Raised(BlockRaised))
      else
        var steps := if block.observed == [] then 0 else MF.NumSteps(block.observed);
        var results := seq(|validated.value|, i requires 0 <= i < |validated.value| => run(validated.value[i], block.observed, None));
        Run(traced + [ArtifactBuilt(steps), Reported(results)], Completed)
  }

  /** As designed, a refused `ref` raises before any collector or tracing, nested or not. */
  lemma {:induction false} IntendedValidatesFirst(tracing: bool, ref: RefArg, block: Block, load: string -> Reference, run: RunFn)
    requires NormaliseIntended(ref, load).Err?
    ensures IntendedCheck(tracing, ref, block, load, run) == Run([], Raised(NormaliseIntended(ref, load).error))
  {
  }

  /**
   * As designed, the inline check leaves tracing as it found it on every
   * exit: a nested check never touches it, an outermost one always turns it
   * off again, and at most one collector is created.
   */
  lemma {:induction false} IntendedRestoresTracing(tracing: bool, ref: RefArg, block: Block, load: string -> Reference, run: RunFn)
    ensures var r := IntendedCheck(tracing, ref, block, load, run);
            && TracingAfter(tracing, r.events) == tracing
            && (tracing ==> forall i :: 0 <= i < |r.events| ==> r.events[i] == BlockRun)
  {
    var r := IntendedCheck(tracing, ref, block, load, run);
    if NormaliseIntended(ref, load).Ok? && !tracing {
      var traced := [CollectorCreated, TracingOn, BlockRun, TracingOff];
      assert r.events[..4] == traced;
      assert r.events == traced + r.events[4..];
      TracingAfterAppend(false, traced, r.events[4..]);
    }
  }

  /**
   * As designed, a clean outermost block is reported: the step count is the
   * largest observed timestamp, or 0 when nothing was observed, and the
   * report holds one result per reference in order.
   */
  lemma {:induction false} IntendedReportsInOrder(ref: RefArg, block: Block, load: string -> Reference, run: RunFn)
    requires NormaliseIntended(ref, load).Ok? && !block.raises
    ensures var r := IntendedCheck(false, ref, block, load, run);
            var refs := NormaliseIntended(ref, load).value;
            && r.outcome == Completed && |r.events| == 6 && r.events[3] == TracingOff
            && r.events[4].ArtifactBuilt?
            && (block.observed == [] ==> r.events[4].steps == 0)
            && (forall i :: 0 <= i < |block.observed| ==> block.observed[i].1 <= r.events[4].steps)
            && (block.observed != [] ==> exists i :: 0 <= i < |block.observed| && block.observed[i].1 == r.events[4].steps)
            && r.events[5].Reported? && |r.events[5].results| == |refs|
            && forall i :: 0 <= i < |refs| ==> r.events[5].results[i] == run(refs[i], block.observed, None)
  {
  }

  /** Where pybryt as written raises no error, the design and pybryt agree. */
  lemma {:induction false} IntendedAgreesWhenNothingFails(ref: RefArg, block: Block, load: string -> Reference, run: RunFn)
    requires Normalise(ref, load).Ok? && Normalise(ref, load).value.ListOfRefs?
    requires !block.raises && block.observed != []
    ensures IntendedCheck(false, ref, block, load, run) == InlineCheck(false, ref, block, load, run)
  {
    var v := Normalise(ref, load).value;
    var after := AfterBlock(v, block.observed, run);
    assert InlineCheck(false, ref, block, load, run).events
           == [CollectorCreated, TracingOn, BlockRun] + after.events;
  }

  /** The process-wide tracing state and a log of what the inline check did. */
  class Interpreter {
    var tracing: bool
    var events: seq<Event>

    constructor (tracing: bool)
      ensures this.tracing == tracing && events == []
    {
      this.tracing := tracing;
      events := [];
    }

    /** Runs `with check(ref): block` against this interpreter's tracing state. */
    method CheckBlock(ref: RefArg, block: Block, load: string -> Reference, run: RunFn) returns (outcome: Outcome)
      modifies this
      ensures var r := InlineCheck(old(tracing), ref, block, load, run);
              && events == old(events) + r.events
              && outcome == r.outcome
              && tracing == TracingAfter(old(tracing), r.events)
    {
      if tracing {
        outcome := CheckNested(ref, block, load, run);
      } else {
        outcome := CheckOutermost(ref, block, load, run);
      }
    }

    /**
     * Already tracing: the generator yields at once, and after the block it
     * falls through to validation and a second `tracing_on`.
     */
    method CheckNested(ref: RefArg, block: Block, load: string -> Reference, run: RunFn) returns (outcome: Outcome)
      requires tracing
      modifies this
      ensures var r := InlineCheck(true, ref, block, load, run);
              && events == old(events) + r.events
              && outcome == r.outcome
              && tracing == TracingAfter(true, r.events)
    {
      events := events + [BlockRun];
      if block.raises {
        return Raised(BlockRaised);
      }
      var validated := ValidateRefs(ref, load);
      if validated.Err? {
        return Raised(validated.error);
      }
      events := events + [CollectorCreated];
      tracing := true;
      events := events + [TracingOn];
      return Raised(GeneratorDidNotStop);
    }

    /** Not yet tracing: validate, trace the block, then build and check the artifact. */
    method CheckOutermost(ref: RefArg, block: Block, load: string -> Reference, run: RunFn) returns (outcome: Outcome)
      requires !tracing
      modifies this
      ensures var r := InlineCheck(false, ref, block, load, run);
              && events == old(events) + r.events
              && outcome == r.outcome
              && tracing == TracingAfter(false, r.events)
    {
      var validated := ValidateRefs(ref, load);
      if validated.Err? {
        return Raised(validated.error);
      }
      outcome := TraceBlock(validated.value, block, run);
    }

    /** The inline check once `ref` is accepted: collector, tracing on, the block, and what follows it. */
    method TraceBlock(v: Validated, block: Block, run: RunFn) returns (outcome: Outcome)
      requires !tracing
      modifies this
      ensures var r := InlineCheckValidated(false, Ok(v), block, run);
              && events == old(events) + r.events
              && outcome == r.outcome
              && tracing == TracingAfter(false, r.events)
    {
      events := events + [CollectorCreated];
      tracing := true;
      events := events + [TracingOn];
      events := events + [BlockRun];
      if block.raises {
        return Raised(BlockRaised);
      }
      ghost var traced := [CollectorCreated, TracingOn, BlockRun];
      assert events == old(events) + traced;
      outcome := FinishTraced(v, block.observed, run);
      AfterBlockEndsUntraced(false, traced, v, block.observed, run);
    }

    /** What follows the last `yield` after a clean outermost block. */
    method FinishTraced(v: Validated, observed: seq<Entry>, run: RunFn) returns (outcome: Outcome)
      modifies this
      ensures var r := AfterBlock(v, observed, run);
              && events == old(events) + r.events
              && outcome == r.outcome
              && !tracing
    {
      tracing := false;
      events := events + [TracingOff];
      if observed == [] {
        return Raised(EmptyFootprint);
      }
      var stu := StudentImplementation.FromFootprint(observed, MF.NumSteps(observed));
      events := events + [ArtifactBuilt(stu.steps.value)];
      var checked := stu.Check(AsCheckArg(v), None, run);
      if checked.Err? {
        return Raised(checked.error);
      }
      events := events + [Reported(checked.value.results)];
      return Completed;
    }
  }
}
