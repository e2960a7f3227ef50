/**
 * The handler that verifies a composed contract with Redlog: from the
 * selected component implementation (composition) or system subcomponent
 * (diagnosis) it builds one Redlog program, queues one result for it,
 * registers the result in the linker, and lets the analysis thread drain
 * the queue.
 */
module VerifyComposedContract {
  import opened Wrappers
  import opened Ast
  import opened ResultsLinker
  import RedlogScript
  import Builder = RedlogAstBuilder
  import XmlParseThread
  import RedlogApi
  import VH = VerifyHandler

  type Failure = RedlogScript.Failure

  // ---------------------------------------------------------------------
  // What the job returns

  /** The status `runJob` returns: OK once the thread is started, CANCEL when instantiation fails, or ERROR with a message. */
  datatype Status = OkStatus | CancelStatus | ErrorStatus(message: string)

  const NotSelectedMessage: string := "Must select an AADL Component Implementation."

  function NoAnnexMessage(typeName: string): string {
    "There is not an AGREE annex in the '" + typeName + "' system type."
  }

  /**
   * The cause chain of a failure: an AGREE exception carries its message
   * and no cause. The messages of the other exceptions are taken as null.
   */
  function FailureChain(f: Failure): seq<Option<string>> {
    if f.AgreeException? then [Some(f.message)] else [None]
  }

  // ---------------------------------------------------------------------
  // The selection and its instance model

  /** A system subcomponent: the implementation that contains it and its own component type. */
  datatype Subcomponent = Subcomponent(containingImpl: ComponentImpl, componentType: ComponentType)

  /** What the user selected. */
  datatype Selection =
    | ImplementationSelected(impl: ComponentImpl)
    | SubcomponentSelected(sub: Subcomponent)
    | OtherSelected

  /** An instance model: its component type and implementation, and the AGREE program built from it. */
  datatype SystemInstance = SystemInstance(instanceType: ComponentType, instanceImpl: ComponentImpl, agreeProgram: AgreeProgram)

  /** The implementation that is instantiated for a selection. */
  function SelectedImpl(root: Selection): ComponentImpl
    requires !root.OtherSelected?
  {
    if root.ImplementationSelected? then root.impl else root.sub.containingImpl
  }

  /** The AGREE subclause an owned annex holds: itself, or the one parsed from a default annex. */
  function ContractOf(a: Annex): Option<AgreeSubclause> {
    match a
    case AgreeAnnex(s) => Some(s)
    case DefaultAnnex(parsed) => parsed
    case OtherAnnex(_) => None
  }

  /** The AGREE contract subclauses of a component type, in order. */
  function ContractSubclauses(annexes: seq<Annex>): (r: seq<AgreeSubclause>)
    ensures forall s :: s in r <==> exists k :: 0 <= k < |annexes| && ContractOf(annexes[k]) == Some(s)
    ensures r == [] <==> forall k :: 0 <= k < |annexes| ==> ContractOf(annexes[k]).None?
  {
    if annexes == [] then []
    else
      var rest := ContractSubclauses(annexes[1..]);
      assert forall k :: 0 < k < |annexes| ==> annexes[k] == annexes[1..][k - 1];
      assert forall k :: 0 <= k < |annexes| - 1 ==> annexes[1..][k] == annexes[k + 1];
      match ContractOf(annexes[0])
      case Some(s) => [s] + rest
      case None => rest
  }

  /**
   * The contract of a diagnosis: the subclause parsed from the first default
   * annex of the subcomponent's type (null when it holds none), or null when
   * the type owns no default annex.
   */
  function DiagnosisContract(annexes: seq<Annex>): (r: Option<AgreeSubclause>)
    ensures (forall k :: 0 <= k < |annexes| ==> !annexes[k].DefaultAnnex?) ==> r.None?
    ensures forall k :: 0 <= k < |annexes| && annexes[k].DefaultAnnex? && (forall j :: 0 <= j < k ==> !annexes[j].DefaultAnnex?) ==>
      r == annexes[k].parsed
  {
    if annexes == [] then None
    else if annexes[0].DefaultAnnex? then annexes[0].parsed
    else
      var r := DiagnosisContract(annexes[1..]);
      assert forall k :: 0 < k < |annexes| ==> annexes[k] == annexes[1..][k - 1];
      r
  }

  /** The loop of wrapDiagnosisResult over the owned annexes, which stops at the first default annex. */
  method FindDiagnosisContract(ct: ComponentType) returns (contract: Option<AgreeSubclause>)
    ensures contract == DiagnosisContract(ct.ownedAnnexes)
  {
    contract := None;
    var annexes := ct.ownedAnnexes;
    for k := 0 to |annexes|
      invariant forall j :: 0 <= j < k ==> !annexes[j].DefaultAnnex?
    {
      if annexes[k].DefaultAnnex? {
        return annexes[k].parsed;
      }
    }
  }

  // ---------------------------------------------------------------------
  // Renamings

  /** The keys of a map, each once, in the order its key set is iterated. */
  ghost predicate Enumerates(keys: seq<VarDecl>, ks: set<VarDecl>) {
    && (forall v :: v in keys <==> v in ks)
    && (forall i, j :: 0 <= i < j < |keys| ==> keys[i] != keys[j])
  }

  /** Iterating a key set: every key once, in an order the model leaves open. */
  method ContractKeys(ks: set<VarDecl>) returns (keys: seq<VarDecl>)
    ensures Enumerates(keys, ks)
  {
    keys := [];
    var rest := ks;
    while rest != {}
      invariant rest <= ks
      invariant forall v :: v in keys <==> v in ks && v !in rest
      invariant forall i, j :: 0 <= i < j < |keys| ==> keys[i] != keys[j]
      decreases |rest|
    {
      var v :| v in rest;
      keys := keys + [v];
      rest := rest - {v};
    }
  }

  /** The variables addRenamings references, in its order: all variables, the inputs, the outputs, the contract keys. */
  function RenamedVars(allVariables: seq<VarDecl>, sysInputs: seq<VarDecl>, sysOutputs: seq<VarDecl>, keys: seq<VarDecl>): seq<VarDecl> {
    allVariables + sysInputs + sysOutputs + keys
  }

  /** addRenamings: the references of the AGREE variables, then the program's properties appended. */
  function ComposedRenamings(b: VH.Book, properties: seq<string>, vars: seq<VarDecl>, programProperties: seq<string>)
    : Result<(VH.Book, seq<string>), Failure>
  {
    var (b', f) := VH.AllReferenced(b, vars);
    if f.Some? then Err(f.value) else Ok((b', properties + programProperties))
  }

  /**
   * The renamings fail exactly when an AGREE variable has no reference
   * string, and then with an AGREE exception; otherwise every AGREE
   * variable's id is a key of the reference map, one rename is recorded
   * per AGREE variable, in order, and the layout stays valid.
   */
  lemma ComposedRenamingsMeaning(b: VH.Book, properties: seq<string>, vars: seq<VarDecl>, programProperties: seq<string>)
    requires VH.LayoutValid(b.layout)
    ensures var c := ComposedRenamings(b, properties, vars, programProperties);
      && (c.Err? <==> exists k :: 0 <= k < |vars| && vars[k].AgreeVar? && VH.ReferenceStr(vars[k]).Err?)
      && (c.Err? ==> c.error.AgreeException?)
      && (c.Ok? ==>
            var (b', props) := c.value;
            && props == properties + programProperties
            && VH.LayoutValid(b'.layout) && b.refMap.Keys <= b'.refMap.Keys
            && (forall v | v in vars && v.AgreeVar? :: Some(v.id) in b'.refMap)
            && |b'.renames| == |b.renames| + |VH.AgreeIds(vars)| && b'.renames[..|b.renames|] == b.renames
            && (forall k :: 0 <= k < |VH.AgreeIds(vars)| ==> b'.renames[|b.renames| + k].0 == VH.AgreeIds(vars)[k]))
  {
    VH.AllReferencedRecords(b, vars);
    VH.AllReferencedFails(b, vars);
  }

  /** addRenamings on the local bookkeeping: it stops at the first exception. */
  method AddRenamings(book: VH.Bookkeeping, program: RedlogScript.RedlogProgram) returns (failure: Option<Failure>, ghost keys: seq<VarDecl>)
    modifies book`refMap, book`renames, book`layout, book`properties
    ensures Enumerates(keys, program.systemContracts.Keys)
    ensures match ComposedRenamings(old(book.State()), old(book.properties),
                                    RenamedVars(program.allVariables, program.sysInputs, program.sysOutputs, keys), program.properties)
      case Err(e) => failure == Some(e) && book.properties == old(book.properties)
      case Ok((b, props)) => failure.None? && book.State() == b && book.properties == props
  {
    ghost var b0 := book.State();
    var contractKeys := ContractKeys(program.systemContracts.Keys);
    keys := contractKeys;
    var all, ins, outs := program.allVariables, program.sysInputs, program.sysOutputs;
    VH.AllReferencedAppend(b0, all + ins + outs, contractKeys);
    VH.AllReferencedAppend(b0, all + ins, outs);
    VH.AllReferencedAppend(b0, all, ins);
    failure := book.AddReferences(all);
    if failure.Some? {
      return;
    }
    failure := book.AddReferences(ins);
    if failure.Some? {
      return;
    }
    failure := book.AddReferences(outs);
    if failure.Some? {
      return;
    }
    failure := book.AddReferences(contractKeys);
    if failure.Some? {
      return;
    }
    book.properties := book.properties + program.properties;
  }

  // ---------------------------------------------------------------------
  // The plan of a job

  /** What a job does: report an error or a cancellation, or queue one result built from an AGREE program. */
  datatype Plan =
    | NotSelected
    | NotInstantiated
    | Fails(failure: Failure)
    | Queues(resultName: string, comp: Option<ComponentImpl>, contract: Option<AgreeSubclause>,
             program: AgreeProgram, book: VH.Book, properties: seq<string>)

  const SystemContractName: string := "System Contract"
  const DiagnosisName: string := "Component Diagnosis"

  /** The key order is every key of the built program's contract map once (nothing is asked of a program that is not built). */
  ghost predicate KeyOrder(p: AgreeProgram, keys: seq<VarDecl>) {
    Builder.ContractProgram(p).Ok? ==> Enumerates(keys, Builder.ContractProgram(p).value.0.systemContracts.Keys)
  }

  /** Building the program and its renamings, with `keys` the iteration order of the contract keys. */
  function Composed(name: string, comp: Option<ComponentImpl>, contract: Option<AgreeSubclause>, p: AgreeProgram, keys: seq<VarDecl>)
    : (plan: Plan)
    ensures plan.Fails? || plan.Queues?
  {
    match Builder.ContractProgram(p)
    case Err(f) => Fails(f)
    case Ok((parts, _, _)) =>
      match ComposedRenamings(VH.EmptyBook, [], RenamedVars(parts.allVariables, parts.sysInputs, parts.sysOutputs, keys), parts.properties)
      case Err(f) => Fails(f)
      case Ok((b, props)) => Queues(name, comp, contract, p, b, props)
  }

  /** The AGREE program the job builds from, when it gets that far. */
  function Reached(root: Selection, instantiate: ComponentImpl -> Option<SystemInstance>): Option<SystemInstance> {
    if root.OtherSelected? then None
    else match instantiate(SelectedImpl(root))
      case None => None
      case Some(inst) => if ContractSubclauses(inst.instanceType.ownedAnnexes) == [] then None else Some(inst)
  }

  /** runJob, given how the selected implementation instantiates. */
  function JobPlan(root: Selection, instantiate: ComponentImpl -> Option<SystemInstance>, keys: seq<VarDecl>): Plan {
    if root.OtherSelected? then NotSelected
    else match instantiate(SelectedImpl(root))
      case None => NotInstantiated
      case Some(inst) =>
        if ContractSubclauses(inst.instanceType.ownedAnnexes) == [] then
          Fails(RedlogScript.AgreeException(NoAnnexMessage(inst.instanceType.typeName)))
        else Wrapped(root, inst, keys)
  }

  /** The result the selection asks for: the system contract of the instance, or the diagnosis of the subcomponent. */
  function Wrapped(root: Selection, inst: SystemInstance, keys: seq<VarDecl>): Plan
    requires !root.OtherSelected?
  {
    if root.ImplementationSelected? then
      Composed(SystemContractName, Some(inst.instanceImpl), VH.FirstAgreeSubclause(inst.instanceImpl.implemented.ownedAnnexes),
               inst.agreeProgram, keys)
    else
      Composed(DiagnosisName, None, DiagnosisContract(root.sub.componentType.ownedAnnexes), inst.agreeProgram, keys)
  }

  /** Past the instantiation and the annex check, the job is the wrapping step. */
  lemma JobWraps(root: Selection, instantiate: ComponentImpl -> Option<SystemInstance>, keys: seq<VarDecl>)
    requires Reached(root, instantiate).Some?
    ensures !root.OtherSelected? && JobPlan(root, instantiate, keys) == Wrapped(root, Reached(root, instantiate).value, keys)
  {
  }

  /** The status of a plan: a failure reports the messages of its cause chain. */
  function StatusOf(plan: Plan, eol: string): (s: Status)
    ensures s == OkStatus <==> plan.Queues?
    ensures s == CancelStatus <==> plan.NotInstantiated?
    ensures plan.NotSelected? ==> s == ErrorStatus(NotSelectedMessage)
    ensures plan.Fails? && plan.failure.AgreeException? ==>
      s == ErrorStatus(if plan.failure.message == "" then "" else plan.failure.message + eol)
    ensures plan.Fails? && !plan.failure.AgreeException? ==> s == ErrorStatus("")
  {
    match plan
    case NotSelected => ErrorStatus(NotSelectedMessage)
    case NotInstantiated => CancelStatus
    case Fails(f) =>
      var chain := FailureChain(f);
      assert chain[..|chain| - 1] == [];
      assert VH.NestedMessages(chain, eol) == "" + VH.MessageLine(chain[0], eol);
      assert "" + VH.MessageLine(chain[0], eol) == VH.MessageLine(chain[0], eol);
      ErrorStatus(VH.NestedMessages(chain, eol))
    case Queues(_, _, _, _, _, _) => OkStatus
  }

  /**
   * A job queues a result only for a selected implementation or subcomponent
   * that instantiates, whose instance type holds an AGREE subclause and whose
   * program builds; every AGREE variable of the program and every AGREE key
   * of its contract map then has its id in the result's reference map, and
   * the result's properties are the program's.
   */
  lemma QueuedPlan(root: Selection, instantiate: ComponentImpl -> Option<SystemInstance>, keys: seq<VarDecl>)
    requires Reached(root, instantiate).Some? ==> KeyOrder(Reached(root, instantiate).value.agreeProgram, keys)
    ensures var plan := JobPlan(root, instantiate, keys);
      plan.Queues? ==>
        && Reached(root, instantiate) == Some(instantiate(SelectedImpl(root)).value)
        && ContractSubclauses(instantiate(SelectedImpl(root)).value.instanceType.ownedAnnexes) != []
        && Builder.ContractProgram(plan.program).Ok?
        && var parts := Builder.ContractProgram(plan.program).value.0;
        && plan.properties == parts.properties
        && VH.LayoutValid(plan.book.layout)
        && (forall v | v in parts.allVariables + parts.sysInputs + parts.sysOutputs && v.AgreeVar? :: Some(v.id) in plan.book.refMap)
        && (forall v | v in parts.systemContracts && v.AgreeVar? :: Some(v.id) in plan.book.refMap)
  {
    var plan := JobPlan(root, instantiate, keys);
    if plan.Queues? {
      var parts := Builder.ContractProgram(plan.program).value.0;
      var vars := RenamedVars(parts.allVariables, parts.sysInputs, parts.sysOutputs, keys);
      ComposedRenamingsMeaning(VH.EmptyBook, [], vars, parts.properties);
      forall v | v in parts.systemContracts && v.AgreeVar?
        ensures Some(v.id) in plan.book.refMap
      {
        assert v in vars;
      }
    }
  }

  /** The diagnosis queues its result with a null component and the diagnosis contract; composition with the instance's implementation and its contract. */
  lemma PlannedDirection(root: Selection, instantiate: ComponentImpl -> Option<SystemInstance>, keys: seq<VarDecl>)
    ensures var plan := JobPlan(root, instantiate, keys);
      && (plan.Queues? && root.SubcomponentSelected? ==>
            plan.resultName == DiagnosisName && plan.comp.None?
            && plan.contract == DiagnosisContract(root.sub.componentType.ownedAnnexes))
      && (plan.Queues? && root.ImplementationSelected? ==>
            var inst := instantiate(root.impl).value;
            plan.resultName == SystemContractName && plan.comp == Some(inst.instanceImpl)
            && plan.contract == VH.FirstAgreeSubclause(inst.instanceImpl.implemented.ownedAnnexes))
      && (plan.NotSelected? <==> root.OtherSelected?)
  {
  }

  /** An instance type without an AGREE subclause stops the job with that message, before anything is built. */
  lemma NoAnnexStops(root: Selection, instantiate: ComponentImpl -> Option<SystemInstance>, keys: seq<VarDecl>, eol: string)
    requires !root.OtherSelected? && instantiate(SelectedImpl(root)).Some?
    requires forall k :: 0 <= k < |instantiate(SelectedImpl(root)).value.instanceType.ownedAnnexes| ==>
      ContractOf(instantiate(SelectedImpl(root)).value.instanceType.ownedAnnexes[k]).None?
    ensures StatusOf(JobPlan(root, instantiate, keys), eol) ==
      ErrorStatus(NoAnnexMessage(instantiate(SelectedImpl(root)).value.instanceType.typeName) + eol)
    ensures Reached(root, instantiate).None?
  {
  }

  // ---------------------------------------------------------------------
  // The linker entries of a result

  /** The entries createVerification makes: all but the Lustre program. */
  function Registered(l: Links, result: object, program: RedlogScript.RedlogProgram, comp: Option<ComponentImpl>,
                      contract: Option<AgreeSubclause>, b: VH.Book, log: string): Links
  {
    l.(redlogPrograms := l.redlogPrograms[result := program], components := l.components[result := comp],
       contracts := l.contracts[result := contract], layouts := l.layouts[result := b.layout],
       referenceMaps := l.referenceMaps[result := b.refMap], logs := l.logs[result := log])
  }

  /** The linker returns what was registered for the result (a null component as null), and nothing for the Lustre program it was not given. */
  lemma RegisteredReadsBack(linker: AgreeResultsLinker, l: Links, result: object, program: RedlogScript.RedlogProgram,
                            comp: Option<ComponentImpl>, contract: Option<AgreeSubclause>, b: VH.Book, log: string)
    requires result !in l.programs
    requires linker.State() == Registered(l, result, program, comp, contract, b, log)
    ensures linker.GetRedlogProgram(result) == Some(program) && linker.GetComponent(result) == comp
    ensures linker.GetContract(result) == contract && linker.GetLayout(result) == Some(b.layout)
    ensures linker.GetReferenceMap(result) == Some(b.refMap) && linker.GetLog(result) == Some(log)
    ensures linker.GetProgram(result).None?
  {
  }

  /** The linker entries createVerification makes for a new result. */
  method Register(linker: AgreeResultsLinker, result: object, program: RedlogScript.RedlogProgram, compImpl: Option<ComponentImpl>,
                  contract: Option<AgreeSubclause>, b: VH.Book, log: string)
    modifies linker`redlogPrograms, linker`components, linker`contracts, linker`layouts, linker`referenceMaps, linker`logs
    ensures linker.redlogPrograms == old(linker.redlogPrograms)[result := program]
    ensures linker.components == old(linker.components)[result := compImpl]
    ensures linker.contracts == old(linker.contracts)[result := contract]
    ensures linker.layouts == old(linker.layouts)[result := b.layout]
    ensures linker.referenceMaps == old(linker.referenceMaps)[result := b.refMap]
    ensures linker.logs == old(linker.logs)[result := log]
  {
    linker.SetRedlogProgram(result, program);
    linker.SetComponent(result, compImpl);
    linker.SetContract(result, contract);
    linker.SetLayout(result, b.layout);
    linker.SetReferenceMap(result, b.refMap);
    linker.SetLog(result, log);
  }

  /** The snapshot of a new result with the given properties. */
  function Initial(properties: seq<string>, erased: set<string>): XmlParseThread.Snapshot {
    XmlParseThread.Snapshot(XmlParseThread.Table(XmlParseThread.Kept(properties, erased), map[]), None, "", XmlParseThread.Waiting)
  }

  /** `r` is a new result queued behind `queue0` and registered, on top of `links0`, with `program` and the bookkeeping. */
  predicate Queued(h: VH.VerifyHandler, r: XmlParseThread.RedlogResult, name: string, comp: Option<ComponentImpl>,
                   contract: Option<AgreeSubclause>, program: RedlogScript.RedlogProgram, b: VH.Book,
                   props: seq<string>, erased: set<string>, log: string, queue0: seq<object>, links0: Links)
    reads h, h.linker, r
  {
    && h.queue == queue0 + [r]
    && r.name == name && r.erased == erased && r.State() == Initial(props, erased)
    && h.linker.State() == Registered(links0, r, program, comp, contract, b, log)
  }

  /** What a wrapping step does for a plan, from queue `queue0` and links `links0`: nothing on a failure, the queued result otherwise. */
  predicate Reports(h: VH.VerifyHandler, r: Result<XmlParseThread.RedlogResult, Failure>, plan: Plan,
                    erased: set<string>, log: string, queue0: seq<object>, links0: Links)
    reads h, h.linker, h.linker.redlogPrograms.Values, if r.Ok? then {r.value} else {}
  {
    && (plan.Fails? ==> r == Err(plan.failure) && h.queue == queue0 && h.linker.State() == links0)
    && (plan.Queues? ==>
          && r.Ok? && r.value in h.linker.redlogPrograms
          && Builder.Builds(h.linker.redlogPrograms[r.value], plan.program)
          && Queued(h, r.value, plan.resultName, plan.comp, plan.contract, h.linker.redlogPrograms[r.value],
                    plan.book, plan.properties, erased, log, queue0, links0))
  }

  // ---------------------------------------------------------------------
  // The analysis thread

  /**
   * How the drain as written classifies an execution: it catches only
   * `RedlogException`, which is what every driver failure is; the script's
   * own exception, raised by `toString` before the driver's `try`, escapes.
   */
  function StepAsWritten(o: RedlogApi.Outcome<RedlogApi.Escape>): VH.Step {
    match o
    case Returned => VH.Completes
    case Hangs => VH.Stalls
    case Threw(e) => if e.ApiError? then VH.Raises else VH.Escapes
  }

  /** The drain as evidently intended: an exception of the script ends the first loop like a driver failure. */
  function CorrectedStep(o: RedlogApi.Outcome<RedlogApi.Escape>): VH.Step {
    match o
    case Returned => VH.Completes
    case Hangs => VH.Stalls
    case Threw(_) => VH.Raises
  }

  function StepsAsWritten(outcomes: object -> RedlogApi.Outcome<RedlogApi.Escape>): object -> VH.Step {
    (o: object) => StepAsWritten(outcomes(o))
  }

  function CorrectedSteps(outcomes: object -> RedlogApi.Outcome<RedlogApi.Escape>): object -> VH.Step {
    (o: object) => CorrectedStep(outcomes(o))
  }

  /** A program without an int and a real variable fails in `toString`, whatever contract it picks, and leaves the result as it was. */
  lemma SatScriptEscapes(program: RedlogScript.RedlogProgram, sys: Option<Contract>, env: RedlogApi.Env, erased: set<string>,
                         r: XmlParseThread.Snapshot, seconds: string -> Option<string>)
    requires !program.hasIntVar && !program.hasRealVar
    ensures RedlogApi.ProgramRun(program.ScriptWith(sys), env, erased, r, seconds) ==
      RedlogApi.Run(r, RedlogApi.Threw(RedlogApi.ScriptError(RedlogScript.AgreeException(RedlogScript.SatMessage))))
  {
  }

  /**
   * As written, a head result whose script fails kills the analysis thread:
   * the first loop stops with the head still queued, and the loop that
   * cancels what is left is never reached.
   */
  lemma AsWrittenDrainDies(queue: seq<object>, outcomes: object -> RedlogApi.Outcome<RedlogApi.Escape>, canceled: nat -> bool,
                           program: RedlogScript.RedlogProgram, sys: Option<Contract>, env: RedlogApi.Env, erased: set<string>,
                           r: XmlParseThread.Snapshot, seconds: string -> Option<string>)
    requires queue != [] && !canceled(0)
    requires !program.hasIntVar && !program.hasRealVar
    requires outcomes(queue[0]) == RedlogApi.ProgramRun(program.ScriptWith(sys), env, erased, r, seconds).outcome
    ensures VH.Drained(queue, StepsAsWritten(outcomes), canceled, 0) == VH.Drain([queue[0]], queue, VH.Died)
  {
    SatScriptEscapes(program, sys, env, erased, r, seconds);
  }

  /**
   * Corrected, the thread always reaches the cancelling loop unless an
   * execution hangs; for the failing script above the first loop stops at the
   * head, which is then cancelled with everything behind it.
   */
  lemma {:induction false} CorrectedDrainFinishes(queue: seq<object>, outcomes: object -> RedlogApi.Outcome<RedlogApi.Escape>,
                                                  canceled: nat -> bool, k: nat)
    requires forall i :: 0 <= i < |queue| ==> outcomes(queue[i]) != RedlogApi.Hangs
    ensures VH.Drained(queue, CorrectedSteps(outcomes), canceled, k).end == VH.Finished
    ensures queue != [] && !canceled(k) && outcomes(queue[0]).Threw? ==>
      VH.Drained(queue, CorrectedSteps(outcomes), canceled, k).rest == queue
  {
    forall q | q in queue
      ensures CorrectedSteps(outcomes)(q) != VH.Escapes && CorrectedSteps(outcomes)(q) != VH.Stalls
    {
      var i :| 0 <= i < |queue| && queue[i] == q;
    }
    VH.DrainFinishes(queue, CorrectedSteps(outcomes), canceled, k);
  }

  // ---------------------------------------------------------------------
  // The handler

  /** The composed-contract handler: the verify handler's linker, queue and thread, with its own jobs. */
  class ComposedHandler {
    const base: VH.VerifyHandler

    constructor (linker: AgreeResultsLinker)
      ensures base.linker == linker && base.queue == [] && base.executed == [] && base.cancelled == []
      ensures fresh(base)
    {
      base := new VH.VerifyHandler(linker);
    }

    /**
     * createVerification: the renamings of the program on fresh
     * bookkeeping, then one result queued and registered. An exception of
     * the renamings leaves the queue and the linker as they were.
     */
    method CreateVerification(resultName: string, compImpl: Option<ComponentImpl>, program: RedlogScript.RedlogProgram,
                              contract: Option<AgreeSubclause>, erased: set<string>, log: string)
      returns (r: Result<XmlParseThread.RedlogResult, Failure>, ghost keys: seq<VarDecl>)
      modifies base`queue, base.linker`redlogPrograms, base.linker`components, base.linker`contracts
      modifies base.linker`layouts, base.linker`referenceMaps, base.linker`logs
      ensures Enumerates(keys, program.systemContracts.Keys)
      ensures match ComposedRenamings(VH.EmptyBook, [], RenamedVars(program.allVariables, program.sysInputs, program.sysOutputs, keys),
                                      program.properties)
        case Err(e) => r == Err(e) && base.queue == old(base.queue) && base.linker.State() == old(base.linker.State())
        case Ok((b, props)) =>
          r.Ok? && fresh(r.value) && Queued(base, r.value, resultName, compImpl, contract, program, b, props, erased, log,
                                            old(base.queue), old(base.linker.State()))
    {
      var book := new VH.Bookkeeping();
      assert book.State() == VH.EmptyBook;
      var failure;
      failure, keys := AddRenamings(book, program);
      if failure.Some? {
        return Err(failure.value), keys;
      }
      var result := new XmlParseThread.RedlogResult(resultName, book.properties, erased);
      base.queue := base.queue + [result];
      Register(base.linker, result, program, compImpl, contract, book.State(), log);
      r := Ok(result);
    }

    /** wrapVerificationResult: the composition program, with the instance's implementation and its contract. */
    method WrapVerificationResult(inst: SystemInstance, erased: set<string>, log: string)
      returns (r: Result<XmlParseThread.RedlogResult, Failure>, ghost keys: seq<VarDecl>)
      modifies base`queue, base.linker`redlogPrograms, base.linker`components, base.linker`contracts
      modifies base.linker`layouts, base.linker`referenceMaps, base.linker`logs
      ensures KeyOrder(inst.agreeProgram, keys)
      ensures Reports(base, r, Composed(SystemContractName, Some(inst.instanceImpl),
                                        VH.FirstAgreeSubclause(inst.instanceImpl.implemented.ownedAnnexes), inst.agreeProgram, keys),
                      erased, log, old(base.queue), old(base.linker.State()))
      ensures r.Ok? ==> fresh(r.value)
    {
      keys := [];
      var redlogProgram := Builder.GetContractRedlogProgram(inst.agreeProgram, Builder.Composition);
      if redlogProgram.Err? {
        return Err(redlogProgram.error), keys;
      }
      var compImpl := inst.instanceImpl;
      var contract := VH.GetContract(compImpl);
      r, keys := CreateVerification(SystemContractName, Some(compImpl), redlogProgram.value, contract, erased, log);
    }

    /** wrapDiagnosisResult: the diagnosis program, with a null component and the subcomponent type's contract. */
    method WrapDiagnosisResult(sub: Subcomponent, inst: SystemInstance, erased: set<string>, log: string)
      returns (r: Result<XmlParseThread.RedlogResult, Failure>, ghost keys: seq<VarDecl>)
      modifies base`queue, base.linker`redlogPrograms, base.linker`components, base.linker`contracts
      modifies base.linker`layouts, base.linker`referenceMaps, base.linker`logs
      ensures KeyOrder(inst.agreeProgram, keys)
      ensures Reports(base, r, Composed(DiagnosisName, None, DiagnosisContract(sub.componentType.ownedAnnexes), inst.agreeProgram, keys),
                      erased, log, old(base.queue), old(base.linker.State()))
      ensures r.Ok? ==> fresh(r.value)
    {
      keys := [];
      var redlogProgram := Builder.GetContractRedlogProgram(inst.agreeProgram, Builder.Diagnosis);
      if redlogProgram.Err? {
        return Err(redlogProgram.error), keys;
      }
      var contract := FindDiagnosisContract(sub.componentType);
      r, keys := CreateVerification(DiagnosisName, None, redlogProgram.value, contract, erased, log);
    }

    /** The branch of runJob that wraps the result the selection asks for. */
    method WrapResult(root: Selection, inst: SystemInstance, erased: set<string>, log: string)
      returns (r: Result<XmlParseThread.RedlogResult, Failure>, ghost keys: seq<VarDecl>)
      requires !root.OtherSelected?
      modifies base`queue, base.linker`redlogPrograms, base.linker`components, base.linker`contracts
      modifies base.linker`layouts, base.linker`referenceMaps, base.linker`logs
      ensures KeyOrder(inst.agreeProgram, keys)
      ensures Reports(base, r, Wrapped(root, inst, keys), erased, log, old(base.queue), old(base.linker.State()))
      ensures r.Ok? ==> fresh(r.value)
    {
      if root.ImplementationSelected? {
        r, keys := WrapVerificationResult(inst, erased, log);
      } else {
        r, keys := WrapDiagnosisResult(root.sub, inst, erased, log);
      }
    }

    /**
     * runJob: the status of the job's plan; the result is queued only when
     * the plan says so, and the thread that drains the queue is started
     * (see DoAnalysis).
     */
    method RunJob(root: Selection, instantiate: ComponentImpl -> Option<SystemInstance>, erased: set<string>, log: string, eol: string)
      returns (status: Status, ghost keys: seq<VarDecl>, ghost queued: Result<XmlParseThread.RedlogResult, Failure>)
      modifies base`queue, base.linker`redlogPrograms, base.linker`components, base.linker`contracts
      modifies base.linker`layouts, base.linker`referenceMaps, base.linker`logs
      ensures Reached(root, instantiate).Some? ==> KeyOrder(Reached(root, instantiate).value.agreeProgram, keys)
      ensures status == StatusOf(JobPlan(root, instantiate, keys), eol)
      ensures !JobPlan(root, instantiate, keys).Queues? ==>
        base.queue == old(base.queue) && base.linker.State() == old(base.linker.State())
      ensures JobPlan(root, instantiate, keys).Queues? ==>
        Reports(base, queued, JobPlan(root, instantiate, keys), erased, log, old(base.queue), old(base.linker.State()))
        && queued.Ok? && fresh(queued.value)
    {
      keys := [];
      queued := Err(RedlogScript.NullArgument);
      if root.OtherSelected? {
        return ErrorStatus(NotSelectedMessage), keys, queued;
      }
      var compImpl := SelectedImpl(root);
      var sysInst := instantiate(compImpl);
      if sysInst.None? {
        return CancelStatus, keys, queued;
      }
      var inst := sysInst.value;
      var annexSubClauses := ContractSubclauses(inst.instanceType.ownedAnnexes);
      if |annexSubClauses| == 0 {
        var messages := VH.GetNestedMessages(FailureChain(RedlogScript.AgreeException(NoAnnexMessage(inst.instanceType.typeName))), eol);
        return ErrorStatus(messages), keys, queued;
      }
      var r;
      r, keys := WrapResult(root, inst, erased, log);
      JobWraps(root, instantiate, keys);
      queued := r;
      if r.Err? {
        var messages := VH.GetNestedMessages(FailureChain(r.error), eol);
        return ErrorStatus(messages), keys, queued;
      }
      status := OkStatus;
    }

    /**
     * doAnalysis's thread on the queue, as corrected: every exception the
     * execution of a result raises ends the first loop, so unless an
     * execution hangs, whatever is left is cancelled.
     */
    method DoAnalysis(outcomes: object -> RedlogApi.Outcome<RedlogApi.Escape>, canceled: nat -> bool) returns (end: VH.ThreadEnd)
      modifies base`queue, base`executed, base`cancelled
      ensures var d := VH.Drained(old(base.queue), CorrectedSteps(outcomes), canceled, 0);
        && base.executed == old(base.executed) + d.executed && end == d.end
        && (d.end == VH.Finished ==> base.queue == [] && base.cancelled == old(base.cancelled) + d.rest)
        && (d.end != VH.Finished ==> base.queue == d.rest && base.cancelled == old(base.cancelled))
    {
      end := base.DoAnalysis(CorrectedSteps(outcomes), canceled);
    }
  }
}
