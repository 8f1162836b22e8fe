/**
 * The worklist reachability closure of the summary-based reachability
 * analysis (ReachabilityAnalysis.java).
 *
 * Types, methods and fields are identified by numbers. Every collaborator
 * the analysis only calls (the method summary provider, virtual-method
 * resolution, the host VM's foreign-call lookup, the constant-tracking
 * policy, the supertype walk) is a total function held in a `Program`
 * value. The concurrent executor is a set of pending tasks with no order
 * among them; a `mark*` call posts a task exactly when it takes a flag
 * from unset to set.
 */
module Reachability {
  import opened Wrappers

  type TypeId = nat
  type MethodId = nat
  type FieldId = nat
  type Descriptor = nat
  type Signature = nat

  /** Number of outer analysis iterations after which the analysis gives up. */
  const MaxIterations: nat := 1000

  datatype JavaKind = ObjectKind | PrimitiveKind

  /** An embedded constant of a method body; `runtimeType` is the type of the object it denotes. */
  datatype Constant = Constant(kind: JavaKind, isNonNull: bool, runtimeType: TypeId)

  /** What the summary provider reports about one method body. */
  datatype Summary = Summary(
    invokedMethods: seq<MethodId>,
    implementationInvokedMethods: seq<MethodId>,
    accessedTypes: seq<TypeId>,
    instantiatedTypes: seq<TypeId>,
    readFields: seq<FieldId>,
    writtenFields: seq<FieldId>,
    embeddedConstants: seq<Constant>,
    foreignCallDescriptors: seq<Descriptor>,
    foreignCallSignatures: seq<Signature>)
  {
    /** The same summary with both method lists emptied. */
    function WithoutMethods(): (r: Summary)
      ensures r.invokedMethods == [] && r.implementationInvokedMethods == []
      ensures r.accessedTypes == accessedTypes && r.instantiatedTypes == instantiatedTypes
      ensures r.readFields == readFields && r.writtenFields == writtenFields
      ensures r.embeddedConstants == embeddedConstants
      ensures r.foreignCallDescriptors == foreignCallDescriptors
      ensures r.foreignCallSignatures == foreignCallSignatures
    {
      this.(invokedMethods := [], implementationInvokedMethods := [])
    }
  }

  /** A constant the analysis registered with the universe, with the method whose graph embeds it. */
  datatype EmbeddedRoot = EmbeddedRoot(constant: Constant, embeddingMethod: MethodId)

  /** The nodes of a compiled graph that `registerForeignCalls` looks at. */
  datatype Node =
    | ForeignCallNode(descriptor: Descriptor)
    | UnaryMathNode(unarySignature: Signature)
    | BinaryMathNode(binarySignature: Signature)
    | FrameStateNode(frameMethod: Option<MethodId>)
    | OtherNode

  datatype Graph = Graph(graphMethod: MethodId, nodes: seq<Node>)

  /** The analysis universe and the collaborators the analysis consults. */
  datatype Program = Program(
    types: set<TypeId>,
    methods: set<MethodId>,
    superclass: map<TypeId, TypeId>,
    arrayClass: TypeId -> TypeId,
    supertypes: TypeId -> set<TypeId>,
    declaredInstanceFields: TypeId -> seq<FieldId>,
    fieldName: FieldId -> string,
    fieldType: FieldId -> TypeId,
    declaringClass: MethodId -> TypeId,
    isStatic: MethodId -> bool,
    resolve: (TypeId, MethodId, TypeId) -> Option<MethodId>,
    summaryOf: MethodId -> Option<Summary>,
    graphSummaryOf: Graph -> Option<Summary>,
    trackConstant: Constant -> bool,
    handleForeignCall: Descriptor -> Option<MethodId>,
    descriptorOf: Signature -> Descriptor)
  {
    /** Everything a summary can make instantiated or invoked lies in the universe. */
    ghost predicate SummaryInUniverse(s: Summary) {
      && (forall m :: m in s.invokedMethods ==> m in methods)
      && (forall m :: m in s.implementationInvokedMethods ==> m in methods)
      && (forall t :: t in s.instantiatedTypes ==> t in types)
      && (forall c :: c in s.embeddedConstants ==> c.runtimeType in types)
    }

    /** The superclass chain is acyclic: a superclass has a smaller number. */
    ghost predicate Acyclic() {
      forall t :: t in superclass ==> superclass[t] < t
    }

    /** The superclass chain is acyclic, and the collaborators never leave the finite universe. */
    ghost predicate Valid() {
      && Acyclic()
      && (forall m :: m in methods ==> declaringClass(m) in types)
      && (forall t, m, s :: resolve(t, m, s).Some? ==> resolve(t, m, s).value in methods)
      && (forall m :: summaryOf(m).Some? ==> SummaryInUniverse(summaryOf(m).value))
      && (forall g :: graphSummaryOf(g).Some? ==> SummaryInUniverse(graphSummaryOf(g).value))
      && (forall d :: handleForeignCall(d).Some? ==> handleForeignCall(d).value in methods)
    }

    /** `getInstanceFields(true)`: the instance fields of `t` and its superclasses, superclass fields first. */
    function AllInstanceFields(t: TypeId): (fs: seq<FieldId>)
      requires Acyclic()
      ensures forall f :: f in declaredInstanceFields(t) ==> f in fs
      ensures t in superclass ==> forall f :: f in AllInstanceFields(superclass[t]) ==> f in fs
      decreases t
    {
      (if t in superclass then AllInstanceFields(superclass[t]) else []) + declaredInstanceFields(t)
    }

    /** The types `addRootClass(t, _, withArrays)` marks reachable. */
    ghost function RootClassTypes(t: TypeId, withArrays: bool): set<TypeId>
      requires Acyclic()
      decreases if withArrays then 1 else 0, t
    {
      {t}
      + (if t in superclass then RootClassTypes(superclass[t], withArrays) else {})
      + (if withArrays then RootClassTypes(arrayClass(t), false) else {})
    }

    /** The fields `addRootClass(t, true, _)` marks accessed: the declared instance fields along the superclass chain. */
    ghost function RootClassFields(t: TypeId): set<FieldId>
      requires Acyclic()
      decreases t
    {
      (set f | f in declaredInstanceFields(t))
      + (if t in superclass then RootClassFields(superclass[t]) else {})
    }

    /** A constant that `processSummary` registers as an embedded root and whose type it puts in the heap. */
    predicate Tracked(c: Constant) {
      c.kind == ObjectKind && c.isNonNull && trackConstant(c)
    }
  }

  /** The set of root types is closed under superclass and, when requested, contains the array class. */
  lemma {:induction false} RootClassTypesUpward(p: Program, t: TypeId, withArrays: bool, x: TypeId)
    requires p.Acyclic()
    requires x in p.RootClassTypes(t, withArrays)
    ensures t in p.RootClassTypes(t, withArrays)
    ensures withArrays ==> p.arrayClass(t) in p.RootClassTypes(t, withArrays)
    ensures x in p.superclass ==> p.superclass[x] in p.RootClassTypes(t, withArrays)
    decreases if withArrays then 1 else 0, t
  {
    if withArrays {
      assert p.arrayClass(t) in p.RootClassTypes(p.arrayClass(t), false);
    }
    if x != t {
      if t in p.superclass && x in p.RootClassTypes(p.superclass[t], withArrays) {
        RootClassTypesUpward(p, p.superclass[t], withArrays, x);
      } else {
        assert withArrays && x in p.RootClassTypes(p.arrayClass(t), false);
        RootClassTypesUpward(p, p.arrayClass(t), false, x);
      }
    } else if t in p.superclass {
      RootClassTypesUpward(p, p.superclass[t], withArrays, p.superclass[t]);
    }
  }

  /** The work units the analysis posts to its executor; the diagnostic `Reason` is not modelled. */
  datatype Task =
    | ImplementationInvokedTask(implMethod: MethodId)
    | TypeInstantiatedTask(instType: TypeId)
    | MethodInvokedTask(invMethod: MethodId)

  /** Every task the analysis of `p` can ever post. */
  ghost function AllTasks(p: Program): set<Task> {
    (set t | t in p.types :: TypeInstantiatedTask(t))
    + (set m | m in p.methods :: ImplementationInvokedTask(m))
    + (set m | m in p.methods :: MethodInvokedTask(m))
  }

  /** `addRootField` finds no field of the name; the summary provider fails on a graph. */
  datatype Error = FieldNotFound(name: string) | SummaryUnavailable(graphMethod: MethodId)

  /** How `runAnalysis` ends: normally, or with one of its two fatal errors. */
  datatype Outcome =
    | Converged(iterations: nat)
    | NonConvergence(iterations: nat, analysisChanged: bool)
    | ConsistencyViolation(atIteration: nat)
  {
    /** The number of times the run drained the executor. */
    function Drains(): nat {
      match this
      case Converged(n) => n
      case NonConvergence(n, _) => n
      case ConsistencyViolation(n) => n
    }
  }

  /** What the `analysisEndCondition` callback does in one outer iteration. */
  datatype HookStep = HookStep(endCondition: bool, newRoots: seq<MethodId>, newTypes: nat, newMethods: nat, newFields: nat)

  /** The callback registered types, methods or fields, so the universe tables grew. */
  predicate GrowsUniverse(step: HookStep) {
    step.newTypes > 0 || step.newMethods > 0 || step.newFields > 0
  }

  /** The outer loop's callbacks, indexed by iteration number. */
  datatype Oracle = Oracle(hook: nat -> HookStep, heapVerifierModifies: nat -> bool)

  /**
   * Iteration `j` of `runAnalysis` ends it whatever state the analysis is
   * in: the callback ends the analysis and either grew the universe, or
   * registered no root method (so no task is pending) and the heap
   * verifier changed nothing.
   */
  predicate Stops(o: Oracle, j: nat) {
    && o.hook(j).endCondition
    && (GrowsUniverse(o.hook(j)) || (o.hook(j).newRoots == [] && !o.heapVerifierModifies(j)))
  }

  /** `j` is the first iteration, within the limit, whose callback ends the analysis. */
  predicate FirstEnd(o: Oracle, j: nat) {
    1 <= j <= MaxIterations && o.hook(j).endCondition && forall i :: 1 <= i < j ==> !o.hook(i).endCondition
  }

  /** No iteration before `k` is one that surely ends the analysis. */
  predicate NoStopBefore(o: Oracle, k: nat) {
    forall j :: 1 <= j < k ==> !Stops(o, j)
  }

  /**
   * Adding the root methods `ms` to the flags `f` sets no instantiated,
   * invoked or implementation-invoked flag that was unset, so it posts no task.
   */
  ghost predicate RootsIdle(p: Program, f: Flags, ms: set<MethodId>) {
    RootClasses(p, ms) <= f.instantiated && ms <= f.invoked && ms <= f.implInvoked
  }

  /**
   * Iteration `j` of `runAnalysis` ends it, given the flags `f` its drain
   * left: the callback ends the analysis and either grew the universe, or
   * its root methods leave nothing pending and the heap verifier changed
   * nothing.
   */
  ghost predicate EndsAt(p: Program, o: Oracle, j: nat, f: Flags) {
    && o.hook(j).endCondition
    && (GrowsUniverse(o.hook(j)) || (RootsIdle(p, f, Members(o.hook(j).newRoots)) && !o.heapVerifierModifies(j)))
  }

  /**
   * `out` is what the outer loop yields when `log` holds the flags after
   * each of its drains: one drain per iteration, no iteration before the
   * last ends the run, and the last one ends it with the outcome's kind,
   * or the limit is exceeded.
   */
  ghost predicate OutcomeOver(p: Program, o: Oracle, log: seq<Flags>, out: Outcome) {
    && |log| == out.Drains()
    && (forall i :: 0 <= i < |log| - 1 ==> !EndsAt(p, o, i + 1, log[i]))
    && match out
       case NonConvergence(n, changed) => n == MaxIterations + 1 && changed
       case ConsistencyViolation(n) => 1 <= n <= MaxIterations && EndsAt(p, o, n, log[n - 1]) && GrowsUniverse(o.hook(n))
       case Converged(n) => 1 <= n <= MaxIterations && EndsAt(p, o, n, log[n - 1]) && !GrowsUniverse(o.hook(n))
  }

  /** No iteration whose drain left the flags in `log` ends the run. */
  ghost predicate NoEndIn(p: Program, o: Oracle, log: seq<Flags>) {
    forall i :: 0 <= i < |log| ==> !EndsAt(p, o, i + 1, log[i])
  }

  /** An iteration that does not end the run extends the drains that did not. */
  lemma NoEndStep(p: Program, o: Oracle, log: seq<Flags>, f: Flags)
    requires NoEndIn(p, o, log) && !EndsAt(p, o, |log| + 1, f)
    ensures NoEndIn(p, o, log + [f])
  {
  }

  /** The drain that ends the run, after drains that did not, gives the outcome of the run. */
  lemma LastDrain(p: Program, o: Oracle, prior: seq<Flags>, f: Flags, out: Outcome)
    requires NoEndIn(p, o, prior) && |prior| + 1 == out.Drains()
    requires out.NonConvergence? ==> out == NonConvergence(MaxIterations + 1, true)
    requires out.ConsistencyViolation? ==>
      1 <= out.atIteration <= MaxIterations && o.hook(out.atIteration).endCondition && GrowsUniverse(o.hook(out.atIteration))
    requires out.Converged? ==>
      && 1 <= out.iterations <= MaxIterations && o.hook(out.iterations).endCondition && !GrowsUniverse(o.hook(out.iterations))
      && RootsIdle(p, f, Members(o.hook(out.iterations).newRoots)) && !o.heapVerifierModifies(out.iterations)
    ensures OutcomeOver(p, o, prior + [f], out) && NoStopBefore(o, out.Drains())
    ensures forall j :: FirstEnd(o, j) && GrowsUniverse(o.hook(j)) ==> out == ConsistencyViolation(j)
    ensures forall j :: FirstEnd(o, j) && Stops(o, j) && !GrowsUniverse(o.hook(j)) ==> out == Converged(j)
    ensures (forall j :: 1 <= j <= MaxIterations ==> !o.hook(j).endCondition) ==> out == NonConvergence(MaxIterations + 1, true)
  {
    NoEndNoStop(p, o, prior);
    OutcomeDecided(o, out);
  }

  /** One more element appended after `a + b` extends `b`, and `a + b` splits back into its two parts. */
  lemma SplitAppend(a: seq<Flags>, b: seq<Flags>, x: Flags)
    ensures (a + b) + [x] == a + (b + [x])
    ensures a <= a + (b + [x]) && (a + (b + [x]))[|a|..] == b + [x]
  {
  }

  /** The drained flags decide the outcome: two runs whose drains agree end the same way. */
  lemma OutcomeOverUnique(p: Program, o: Oracle, log1: seq<Flags>, out1: Outcome, log2: seq<Flags>, out2: Outcome)
    requires OutcomeOver(p, o, log1, out1) && OutcomeOver(p, o, log2, out2)
    requires forall j :: 0 <= j < |log1| && j < |log2| ==> log1[j] == log2[j]
    ensures out1 == out2
  {
  }

  /** A posting of root methods with nothing pending before leaves tasks pending unless it is idle. */
  lemma RootsPost(p: Program, f0: Flags, h0: set<Task>, c: set<Task>, f1: Flags, h1: set<Task>, ms: set<MethodId>)
    requires TasksMatch(h0, f0.instantiated, f0.implInvoked, f0.invoked)
    requires TasksMatch(h1, f1.instantiated, f1.implInvoked, f1.invoked)
    requires f1 == WithRoots(p, f0, ms) && c <= h0
    ensures h1 - c == h0 - c <==> RootsIdle(p, f0, ms)
  {
    if RootsIdle(p, f0, ms) {
      assert f1.instantiated == f0.instantiated && f1.invoked == f0.invoked && f1.implInvoked == f0.implInvoked;
      PostedDetermined(h0, h1, f1.instantiated, f1.implInvoked, f1.invoked);
    } else if !(ms <= f0.invoked) {
      var m :| m in ms && m !in f0.invoked;
      assert MethodInvokedTask(m) in h1 - c;
    } else if !(ms <= f0.implInvoked) {
      var m :| m in ms && m !in f0.implInvoked;
      assert ImplementationInvokedTask(m) in h1 - c;
    } else {
      var t :| t in RootClasses(p, ms) && t !in f0.instantiated;
      assert TypeInstantiatedTask(t) in h1 - c;
    }
  }

  /**
   * The task of a type was posted iff the type is instantiated, the task of
   * a method's implementation iff it is implementation-invoked, and the
   * `onMethodInvoked` task iff the method is dispatched.
   */
  ghost predicate TasksMatch(h: set<Task>, inst: set<TypeId>, impl: set<MethodId>, disp: set<MethodId>) {
    && (forall t {:trigger TypeInstantiatedTask(t) in h} :: TypeInstantiatedTask(t) in h <==> t in inst)
    && (forall m {:trigger ImplementationInvokedTask(m) in h} :: ImplementationInvokedTask(m) in h <==> m in impl)
    && (forall m {:trigger MethodInvokedTask(m) in h} :: MethodInvokedTask(m) in h <==> m in disp)
  }

  /** The posted tasks are determined by the flags and the dispatched methods. */
  lemma PostedDetermined(h0: set<Task>, h1: set<Task>, inst: set<TypeId>, impl: set<MethodId>, disp: set<MethodId>)
    requires TasksMatch(h0, inst, impl, disp) && TasksMatch(h1, inst, impl, disp)
    ensures h0 == h1
  {
    forall x | x in h0
      ensures x in h1
    {
      match x
      case TypeInstantiatedTask(t) =>
      case ImplementationInvokedTask(m) =>
      case MethodInvokedTask(m) =>
    }
    forall x | x in h1
      ensures x in h0
    {
      match x
      case TypeInstantiatedTask(t) =>
      case ImplementationInvokedTask(m) =>
      case MethodInvokedTask(m) =>
    }
  }

  /** Drains none of which ended the run leave no earlier iteration that surely ends it. */
  lemma NoEndNoStop(p: Program, o: Oracle, log: seq<Flags>)
    requires NoEndIn(p, o, log)
    ensures NoStopBefore(o, |log| + 1)
  {
    forall j | 1 <= j < |log| + 1
      ensures !Stops(o, j)
    {
      assert !EndsAt(p, o, j, log[j - 1]);
      assert o.hook(j).newRoots == [] ==> Members(o.hook(j).newRoots) == {};
    }
  }

  /**
   * An outcome that `runAnalysis` can reach, by the iterations before it,
   * is decided by the first iteration whose callback ends the analysis.
   */
  lemma OutcomeDecided(o: Oracle, out: Outcome)
    requires out.NonConvergence? ==> out == NonConvergence(MaxIterations + 1, true) && NoStopBefore(o, MaxIterations + 1)
    requires out.ConsistencyViolation? ==>
      && 1 <= out.atIteration <= MaxIterations && o.hook(out.atIteration).endCondition
      && GrowsUniverse(o.hook(out.atIteration)) && NoStopBefore(o, out.atIteration)
    requires out.Converged? ==>
      && 1 <= out.iterations <= MaxIterations && NoStopBefore(o, out.iterations)
      && o.hook(out.iterations).endCondition && !GrowsUniverse(o.hook(out.iterations))
    ensures forall j :: FirstEnd(o, j) && GrowsUniverse(o.hook(j)) ==> out == ConsistencyViolation(j)
    ensures forall j :: FirstEnd(o, j) && Stops(o, j) && !GrowsUniverse(o.hook(j)) ==> out == Converged(j)
    ensures (forall j :: 1 <= j <= MaxIterations ==> !o.hook(j).endCondition) ==> out == NonConvergence(MaxIterations + 1, true)
  {
    forall j | FirstEnd(o, j) && Stops(o, j)
      ensures GrowsUniverse(o.hook(j)) ==> out == ConsistencyViolation(j)
      ensures !GrowsUniverse(o.hook(j)) ==> out == Converged(j)
    {
      assert out.NonConvergence? ==> !Stops(o, j);
      assert out.ConsistencyViolation? && out.atIteration > j ==> !Stops(o, j);
      assert out.Converged? && out.iterations > j ==> !Stops(o, j);
    }
  }

  /** A posted task belongs to the universe. */
  lemma PostedInUniverse(p: Program, h: set<Task>, inst: set<TypeId>, impl: set<MethodId>, disp: set<MethodId>, x: Task)
    requires TasksMatch(h, inst, impl, disp)
    requires inst <= p.types && impl <= p.methods && disp <= p.methods
    requires x in h
    ensures x in AllTasks(p)
  {
    match x
    case TypeInstantiatedTask(t) =>
      assert x in (set u | u in p.types :: TypeInstantiatedTask(u));
    case ImplementationInvokedTask(m) =>
      assert x in (set u | u in p.methods :: ImplementationInvokedTask(u));
    case MethodInvokedTask(m) =>
      assert x in (set u | u in p.methods :: MethodInvokedTask(u));
  }

  /** The flags `processSummary` and root registration set, as one value. */
  datatype Flags = Flags(
    reachable: set<TypeId>, instantiated: set<TypeId>, inHeap: set<TypeId>,
    invoked: set<MethodId>, implInvoked: set<MethodId>, roots: set<MethodId>,
    read: set<FieldId>, written: set<FieldId>)
  {
    /** Every flag set in `this` is set in `g`. */
    ghost predicate Le(g: Flags) {
      && reachable <= g.reachable && instantiated <= g.instantiated && inHeap <= g.inHeap
      && invoked <= g.invoked && implInvoked <= g.implInvoked && roots <= g.roots
      && read <= g.read && written <= g.written
    }
  }

  /** `registerForeignCall(d)` has happened: the host VM's target, if any, is a root. */
  ghost predicate ForeignCallRegistered(p: Program, d: Descriptor, roots: set<MethodId>) {
    p.handleForeignCall(d).Some? ==> p.handleForeignCall(d).value in roots
  }

  /** The effects of the first six loops of `processSummary` for `s` are present in the flags `f`. */
  ghost predicate UsesApplied(s: Summary, f: Flags) {
    && (forall m :: m in s.invokedMethods ==> m in f.invoked)
    && (forall m :: m in s.implementationInvokedMethods ==> m in f.invoked && m in f.implInvoked)
    && (forall t :: t in s.accessedTypes ==> t in f.reachable)
    && (forall t :: t in s.instantiatedTypes ==> t in f.instantiated)
    && (forall x :: x in s.readFields ==> x in f.read)
    && (forall x :: x in s.writtenFields ==> x in f.written)
  }

  /** The effects of the last three loops of `processSummary` for `s` are present in the flags `f`. */
  ghost predicate RegistrationsApplied(p: Program, s: Summary, f: Flags) {
    && (forall c :: c in s.embeddedConstants && p.Tracked(c) ==> c.runtimeType in f.inHeap)
    && (forall d :: d in s.foreignCallDescriptors ==> ForeignCallRegistered(p, d, f.roots))
    && (forall g :: g in s.foreignCallSignatures ==> ForeignCallRegistered(p, p.descriptorOf(g), f.roots))
  }

  /** The effects of `processSummary` for `s` are present in the flags `f`. */
  ghost predicate Applied(p: Program, s: Summary, f: Flags) {
    UsesApplied(s, f) && RegistrationsApplied(p, s, f)
  }

  /** Setting more flags never undoes the first six loops' effects. */
  lemma UsesAppliedMonotone(s: Summary, f: Flags, g: Flags)
    requires f.Le(g) && UsesApplied(s, f)
    ensures UsesApplied(s, g)
  {
  }

  /** Setting more flags never undoes an applied summary. */
  lemma AppliedMonotone(p: Program, s: Summary, f: Flags, g: Flags)
    requires f.Le(g) && Applied(p, s, f)
    ensures Applied(p, s, g)
  {
    forall d | d in s.foreignCallDescriptors
      ensures ForeignCallRegistered(p, d, g.roots)
    {
      assert ForeignCallRegistered(p, d, f.roots);
    }
    forall x | x in s.foreignCallSignatures
      ensures ForeignCallRegistered(p, p.descriptorOf(x), g.roots)
    {
      assert ForeignCallRegistered(p, p.descriptorOf(x), f.roots);
    }
  }

  /** The declaring classes of the non-static methods of `ms`: the types `addRootMethod` instantiates for them. */
  ghost function RootClasses(p: Program, ms: set<MethodId>): set<TypeId> {
    set m | m in ms && !p.isStatic(m) :: p.declaringClass(m)
  }

  /** The flags after `addRootMethod` of every method of `ms`, starting from the flags `f`. */
  ghost function WithRoots(p: Program, f: Flags, ms: set<MethodId>): Flags {
    f.(instantiated := f.instantiated + RootClasses(p, ms), invoked := f.invoked + ms,
       implInvoked := f.implInvoked + ms, roots := f.roots + ms)
  }

  /** Adding two sets of root methods one after the other adds their union. */
  lemma WithRootsTwice(p: Program, f: Flags, a: set<MethodId>, b: set<MethodId>)
    ensures WithRoots(p, WithRoots(p, f, a), b) == WithRoots(p, f, a + b)
  {
    assert RootClasses(p, a + b) == RootClasses(p, a) + RootClasses(p, b);
  }

  /** Adding one root method sets its four flags and nothing else. */
  lemma WithRootsOne(p: Program, f: Flags, m: MethodId)
    ensures WithRoots(p, f, {m}) ==
      f.(instantiated := f.instantiated + (if p.isStatic(m) then {} else {p.declaringClass(m)}),
         invoked := f.invoked + {m}, implInvoked := f.implInvoked + {m}, roots := f.roots + {m})
  {
    assert RootClasses(p, {m}) == if p.isStatic(m) then {} else {p.declaringClass(m)};
  }

  /** Adding a method that already is a registered root changes nothing. */
  lemma WithRootsPresent(p: Program, f: Flags, m: MethodId)
    requires m in f.roots && RootsRegistered(p, f.roots, f.invoked, f.implInvoked, f.instantiated)
    ensures WithRoots(p, f, {m}) == f
  {
    WithRootsOne(p, f, m);
  }

  /** Adding no root method changes nothing. */
  lemma WithRootsNone(p: Program, f: Flags)
    ensures WithRoots(p, f, {}) == f
  {
    assert RootClasses(p, {}) == {};
  }

  /** The host VM's target for the descriptor `d`, as a set of at most one method. */
  ghost function ForeignTarget(p: Program, d: Descriptor): set<MethodId> {
    if p.handleForeignCall(d).Some? then {p.handleForeignCall(d).value} else {}
  }

  /** The root methods `registerForeignCall` adds for the descriptors `ds`. */
  ghost function ForeignTargets(p: Program, ds: seq<Descriptor>): set<MethodId> {
    set d | d in ds && p.handleForeignCall(d).Some? :: p.handleForeignCall(d).value
  }

  lemma ForeignTargetsAppend(p: Program, a: seq<Descriptor>, b: seq<Descriptor>)
    ensures ForeignTargets(p, a + b) == ForeignTargets(p, a) + ForeignTargets(p, b)
  {
    assert forall d :: d in a + b <==> d in a || d in b;
  }

  lemma ForeignTargetsOne(p: Program, d: Descriptor)
    ensures ForeignTargets(p, [d]) == ForeignTarget(p, d)
  {
  }

  /** One more descriptor's target added to the targets of the descriptors before it. */
  lemma ForeignStep(p: Program, f0: Flags, ds: seq<Descriptor>, i: nat, fi: Flags, fn: Flags)
    requires i < |ds|
    requires fi == WithRoots(p, f0, ForeignTargets(p, ds[..i]))
    requires fn == WithRoots(p, fi, ForeignTarget(p, ds[i]))
    ensures fn == WithRoots(p, f0, ForeignTargets(p, ds[..i + 1]))
  {
    assert ForeignTargets(p, ds[..i + 1]) == ForeignTargets(p, ds[..i]) + ForeignTarget(p, ds[i]) by {
      assert ds[..i + 1] == ds[..i] + [ds[i]];
      ForeignTargetsAppend(p, ds[..i], [ds[i]]);
      ForeignTargetsOne(p, ds[i]);
    }
    WithRootsTwice(p, f0, ForeignTargets(p, ds[..i]), ForeignTarget(p, ds[i]));
  }

  /** The methods a sequence lists. */
  ghost function Members(ms: seq<MethodId>): set<MethodId> {
    set m | m in ms
  }

  /** One more root method added to the methods before it. */
  lemma RootsStep(p: Program, f0: Flags, ms: seq<MethodId>, i: nat, fi: Flags, fn: Flags)
    requires i < |ms|
    requires fi == WithRoots(p, f0, Members(ms[..i]))
    requires fn == WithRoots(p, fi, {ms[i]})
    ensures fn == WithRoots(p, f0, Members(ms[..i + 1]))
  {
    WithRootsTwice(p, f0, Members(ms[..i]), {ms[i]});
    assert ms[..i + 1] == ms[..i] + [ms[i]];
    assert Members(ms[..i + 1]) == Members(ms[..i]) + {ms[i]};
  }

  /** The descriptors the foreign-calls provider gives for the signatures `gs`, in order. */
  ghost function SignatureDescriptors(p: Program, gs: seq<Signature>): seq<Descriptor> {
    seq<Descriptor>(|gs|, k requires 0 <= k < |gs| => p.descriptorOf(gs[k]))
  }

  /** The descriptors a graph node registers: a foreign call's own, a math intrinsic's signature's. */
  ghost function NodeDescriptors(p: Program, n: Node): seq<Descriptor> {
    match n
    case ForeignCallNode(d) => [d]
    case UnaryMathNode(sig) => [p.descriptorOf(sig)]
    case BinaryMathNode(sig) => [p.descriptorOf(sig)]
    case FrameStateNode(_) => []
    case OtherNode => []
  }

  /** The descriptors the nodes `ns` register, in node order. */
  ghost function GraphDescriptors(p: Program, ns: seq<Node>): seq<Descriptor>
    decreases |ns|
  {
    if |ns| == 0 then [] else GraphDescriptors(p, ns[..|ns| - 1]) + NodeDescriptors(p, ns[|ns| - 1])
  }

  /** The declaring classes of the methods of the frame states among `ns`. */
  ghost function FrameClasses(p: Program, ns: seq<Node>): set<TypeId> {
    set n | n in ns && n.FrameStateNode? && n.frameMethod.Some? :: p.declaringClass(n.frameMethod.value)
  }

  /** The declaring class of the method of a frame-state node, if it has one. */
  ghost function FrameClass(p: Program, n: Node): set<TypeId> {
    if n.FrameStateNode? && n.frameMethod.Some? then {p.declaringClass(n.frameMethod.value)} else {}
  }

  /** The flags after `registerForeignCalls` of the nodes `ns`, starting from `f`. */
  ghost function GraphNodesEffect(p: Program, ns: seq<Node>, f: Flags): Flags {
    WithRoots(p, f, ForeignTargets(p, GraphDescriptors(p, ns))).(reachable := f.reachable + FrameClasses(p, ns))
  }

  /** The frame classes of the first `i + 1` nodes add node `i`'s to those of the first `i`. */
  lemma FrameClassesStep(p: Program, ns: seq<Node>, i: nat)
    requires i < |ns|
    ensures FrameClasses(p, ns[..i + 1]) == FrameClasses(p, ns[..i]) + FrameClass(p, ns[i])
  {
    assert ns[..i + 1] == ns[..i] + [ns[i]];
  }

  /** Registering one more node composes with the nodes before it. */
  lemma GraphNodesEffectStep(p: Program, ns: seq<Node>, i: nat, f0: Flags, fi: Flags, fn: Flags)
    requires i < |ns|
    requires fi == GraphNodesEffect(p, ns[..i], f0)
    requires fn == WithRoots(p, fi, ForeignTargets(p, NodeDescriptors(p, ns[i]))).(reachable := fi.reachable + FrameClass(p, ns[i]))
    ensures fn == GraphNodesEffect(p, ns[..i + 1], f0)
  {
    assert GraphDescriptors(p, ns[..i + 1]) == GraphDescriptors(p, ns[..i]) + NodeDescriptors(p, ns[i]) by {
      assert ns[..i + 1][..i] == ns[..i];
    }
    assert ForeignTargets(p, GraphDescriptors(p, ns[..i + 1]))
        == ForeignTargets(p, GraphDescriptors(p, ns[..i])) + ForeignTargets(p, NodeDescriptors(p, ns[i])) by {
      ForeignTargetsAppend(p, GraphDescriptors(p, ns[..i]), NodeDescriptors(p, ns[i]));
    }
    FrameClassesStep(p, ns, i);
    WithRootsTwice(p, f0, ForeignTargets(p, GraphDescriptors(p, ns[..i])), ForeignTargets(p, NodeDescriptors(p, ns[i])));
  }

  /** Registering nodes only sets flags. */
  lemma GraphNodesEffectGrows(p: Program, ns: seq<Node>, f: Flags)
    ensures f.Le(GraphNodesEffect(p, ns, f))
  {
  }

  /** A node's descriptors are among the graph's. */
  lemma {:induction false} NodeDescriptorsInGraph(p: Program, ns: seq<Node>, k: nat)
    requires k < |ns|
    ensures forall d :: d in NodeDescriptors(p, ns[k]) ==> d in GraphDescriptors(p, ns)
    decreases |ns|
  {
    if k < |ns| - 1 {
      NodeDescriptorsInGraph(p, ns[..|ns| - 1], k);
    }
  }

  /** The runtime types of the constants of `cs` that are tracked, in scanning order. */
  ghost function TrackedTypes(p: Program, cs: seq<Constant>): set<TypeId>
    decreases |cs|
  {
    if |cs| == 0 then {}
    else TrackedTypes(p, cs[..|cs| - 1]) + (if p.Tracked(cs[|cs| - 1]) then {cs[|cs| - 1].runtimeType} else {})
  }

  /** The constants of `cs` that are tracked, each paired with the method `m` embedding them. */
  ghost function TrackedRoots(p: Program, m: MethodId, cs: seq<Constant>): set<EmbeddedRoot>
    decreases |cs|
  {
    if |cs| == 0 then {}
    else TrackedRoots(p, m, cs[..|cs| - 1]) + (if p.Tracked(cs[|cs| - 1]) then {EmbeddedRoot(cs[|cs| - 1], m)} else {})
  }

  /** Scanning constant `i` after the first `i` extends the flags to the first `i + 1`. */
  lemma ScanStep(p: Program, cs: seq<Constant>, i: nat, f0: Flags, fi: Flags, fn: Flags)
    requires i < |cs|
    requires fi == f0.(instantiated := f0.instantiated + TrackedTypes(p, cs[..i]), inHeap := f0.inHeap + TrackedTypes(p, cs[..i]))
    requires fn == fi.(instantiated := fi.instantiated + (if p.Tracked(cs[i]) then {cs[i].runtimeType} else {}),
                       inHeap := fi.inHeap + (if p.Tracked(cs[i]) then {cs[i].runtimeType} else {}))
    ensures fn == f0.(instantiated := f0.instantiated + TrackedTypes(p, cs[..i + 1]), inHeap := f0.inHeap + TrackedTypes(p, cs[..i + 1]))
  {
    assert cs[..i + 1][..i] == cs[..i];
  }

  /** The tracked types are exactly the types of the tracked constants. */
  lemma {:induction false} TrackedTypesSpec(p: Program, cs: seq<Constant>)
    ensures forall t :: t in TrackedTypes(p, cs) <==> exists c :: c in cs && p.Tracked(c) && c.runtimeType == t
    decreases |cs|
  {
    if |cs| > 0 {
      var init := cs[..|cs| - 1];
      TrackedTypesSpec(p, init);
      assert cs == init + [cs[|cs| - 1]];
      forall t | t in TrackedTypes(p, cs)
        ensures exists c :: c in cs && p.Tracked(c) && c.runtimeType == t
      {
        if t in TrackedTypes(p, init) {
          var c :| c in init && p.Tracked(c) && c.runtimeType == t;
          assert c in cs;
        } else {
          assert cs[|cs| - 1] in cs;
        }
      }
      forall t | exists c :: c in cs && p.Tracked(c) && c.runtimeType == t
        ensures t in TrackedTypes(p, cs)
      {
        var c :| c in cs && p.Tracked(c) && c.runtimeType == t;
        if c != cs[|cs| - 1] {
          assert c in init;
        }
      }
    }
  }

  /** The embedded roots registered for `m` are exactly its tracked constants. */
  lemma {:induction false} TrackedRootsSpec(p: Program, m: MethodId, cs: seq<Constant>)
    ensures forall e :: e in TrackedRoots(p, m, cs) <==> e.embeddingMethod == m && e.constant in cs && p.Tracked(e.constant)
    decreases |cs|
  {
    if |cs| > 0 {
      var init := cs[..|cs| - 1];
      TrackedRootsSpec(p, m, init);
      assert cs == init + [cs[|cs| - 1]];
    }
  }


  /** The methods the two method lists of a summary name. */
  ghost function NamedMethods(s: Summary): set<MethodId> {
    Members(s.invokedMethods) + Members(s.implementationInvokedMethods)
  }

  /** The flags after the first six loops of `processSummary` for `s`, starting from `f`. */
  ghost function UsesEffect(s: Summary, f: Flags): Flags {
    f.(invoked := f.invoked + NamedMethods(s),
       implInvoked := f.implInvoked + Members(s.implementationInvokedMethods),
       reachable := f.reachable + (set t | t in s.accessedTypes),
       instantiated := f.instantiated + (set t | t in s.instantiatedTypes),
       read := f.read + (set x | x in s.readFields),
       written := f.written + (set x | x in s.writtenFields))
  }

  /** The root methods the foreign calls of `s` register. */
  ghost function SummaryTargets(p: Program, s: Summary): set<MethodId> {
    ForeignTargets(p, s.foreignCallDescriptors) + ForeignTargets(p, SignatureDescriptors(p, s.foreignCallSignatures))
  }

  /** The flags after the last three loops of `processSummary` for `s`, starting from `f`. */
  ghost function RegistrationsEffect(p: Program, s: Summary, f: Flags): Flags {
    var tracked := TrackedTypes(p, s.embeddedConstants);
    WithRoots(p, f.(instantiated := f.instantiated + tracked, inHeap := f.inHeap + tracked), SummaryTargets(p, s))
  }

  /** The flags after `processSummary` for `s`, starting from `f`. */
  ghost function SummaryEffect(p: Program, s: Summary, f: Flags): Flags {
    RegistrationsEffect(p, s, UsesEffect(s, f))
  }

  /**
   * What `processSummary` sets is enough: afterwards every effect of the
   * summary is present, and every flag set before is still set.
   */
  lemma SummaryEffectApplied(p: Program, s: Summary, f: Flags)
    ensures Applied(p, s, SummaryEffect(p, s, f))
    ensures f.Le(SummaryEffect(p, s, f))
  {
    var g := SummaryEffect(p, s, f);
    forall d | d in s.foreignCallDescriptors
      ensures ForeignCallRegistered(p, d, g.roots)
    {
      if p.handleForeignCall(d).Some? {
        assert p.handleForeignCall(d).value in ForeignTargets(p, s.foreignCallDescriptors);
      }
    }
    forall x | x in s.foreignCallSignatures
      ensures ForeignCallRegistered(p, p.descriptorOf(x), g.roots)
    {
      var k :| 0 <= k < |s.foreignCallSignatures| && s.foreignCallSignatures[k] == x;
      var ds := SignatureDescriptors(p, s.foreignCallSignatures);
      assert ds[k] == p.descriptorOf(x);
      if p.handleForeignCall(p.descriptorOf(x)).Some? {
        assert p.handleForeignCall(ds[k]).value in ForeignTargets(p, ds);
      }
    }
    TrackedTypesSpec(p, s.embeddedConstants);
  }

  /** The methods `onTypeInstantiated(t)` makes implementation-invoked, given the invoked methods `inv`. */
  ghost function TypeResolutions(p: Program, t: TypeId, inv: set<MethodId>): set<MethodId> {
    set m | m in inv && Dispatches(p, t, m) :: p.resolve(t, m, p.declaringClass(m)).value
  }

  /** The methods of `inv` declared by one of the classes `cs`. */
  ghost function DeclaredIn(p: Program, inv: set<MethodId>, cs: set<TypeId>): set<MethodId> {
    set m | m in inv && p.declaringClass(m) in cs
  }

  /** Resolving two sets of methods resolves their union. */
  lemma TypeResolutionsUnion(p: Program, t: TypeId, a: set<MethodId>, b: set<MethodId>)
    ensures TypeResolutions(p, t, a + b) == TypeResolutions(p, t, a) + TypeResolutions(p, t, b)
  {
  }

  /** One instance method declared by a supertype of `t` resolves to its non-null resolution, if any. */
  lemma TypeResolutionsOne(p: Program, t: TypeId, m: MethodId)
    requires p.declaringClass(m) in p.supertypes(t)
    ensures TypeResolutions(p, t, {m}) ==
      if !p.isStatic(m) && p.resolve(t, m, p.declaringClass(m)).Some? then {p.resolve(t, m, p.declaringClass(m)).value} else {}
  {
  }

  /** Resolving one more method after the methods `done` extends the resolutions of `done`. */
  lemma ResolvedStep(p: Program, t: TypeId, i0: set<MethodId>, i1: set<MethodId>, i2: set<MethodId>, done: set<MethodId>, m: MethodId)
    requires i1 == i0 + TypeResolutions(p, t, done)
    requires i2 == i1 + TypeResolutions(p, t, {m})
    ensures i2 == i0 + TypeResolutions(p, t, done + {m})
  {
    TypeResolutionsUnion(p, t, done, {m});
  }

  /** Only the methods declared by supertypes of `t` can resolve against `t`. */
  lemma TypeResolutionsDeclared(p: Program, t: TypeId, inv: set<MethodId>)
    ensures TypeResolutions(p, t, DeclaredIn(p, inv, p.supertypes(t))) == TypeResolutions(p, t, inv)
  {
  }

  /** The methods `onMethodInvoked(m)` makes implementation-invoked, given the instantiated types `inst`. */
  ghost function MethodResolutions(p: Program, m: MethodId, inst: set<TypeId>): set<MethodId> {
    if p.isStatic(m) then {m}
    else set t | t in inst && Dispatches(p, t, m) :: p.resolve(t, m, p.declaringClass(m)).value
  }

  /**
   * Exactly what running the handler of `x` changes, between the flags `f0`,
   * dispatched methods `d0` and summaries `s0` before it and `f1`, `d1`, `s1`
   * after it. A method is dispatched when it becomes invoked.
   */
  ghost predicate Effect(p: Program, x: Task,
                         f0: Flags, d0: set<MethodId>, s0: map<MethodId, Summary>,
                         f1: Flags, d1: set<MethodId>, s1: map<MethodId, Summary>) {
    && f1.invoked - d1 == f0.invoked - d0 && d0 <= d1
    && match x
       case TypeInstantiatedTask(t) =>
         s1 == s0 && f1 == f0.(implInvoked := f0.implInvoked + TypeResolutions(p, t, f0.invoked))
       case MethodInvokedTask(m) =>
         s1 == s0 && f1 == f0.(implInvoked := f0.implInvoked + MethodResolutions(p, m, f0.instantiated))
       case ImplementationInvokedTask(m) =>
         match p.summaryOf(m)
         case Some(s) => s1 == s0[m := s] && f1 == SummaryEffect(p, s, f0)
         case None => s1 == s0 && f1 == f0
  }

  /** The embedded roots running the handler of `x` registers. */
  ghost function TaskRoots(p: Program, x: Task): set<EmbeddedRoot> {
    if x.ImplementationInvokedTask? && p.summaryOf(x.implMethod).Some?
    then TrackedRoots(p, x.implMethod, p.summaryOf(x.implMethod).value.embeddedConstants)
    else {}
  }

  /** A root method is invoked and implementation-invoked, and a non-static one has an instantiated declaring class. */
  ghost predicate RootsRegistered(p: Program, roots: set<MethodId>, inv: set<MethodId>, impl: set<MethodId>, inst: set<TypeId>) {
    forall m :: m in roots ==>
      && m in inv && m in impl
      && (!p.isStatic(m) ==> p.declaringClass(m) in inst)
  }

  /** Resolving the non-static method `m` against the type `t`, over the declaring class of `m`. */
  ghost predicate Dispatches(p: Program, t: TypeId, m: MethodId) {
    !p.isStatic(m) && p.declaringClass(m) in p.supertypes(t) && p.resolve(t, m, p.declaringClass(m)).Some?
  }

  /**
   * Every pair of an instantiated type and a dispatched method (one whose
   * `onMethodInvoked` task was posted) that dispatches on it is resolved,
   * or one of the two tasks that resolve it is still pending; a dispatched
   * static method is implementation-invoked or its task is pending.
   */
  ghost predicate DispatchPending(p: Program, inst: set<TypeId>, disp: set<MethodId>, impl: set<MethodId>, q: set<Task>) {
    && (forall t, m :: t in inst && m in disp && Dispatches(p, t, m) ==>
          || p.resolve(t, m, p.declaringClass(m)).value in impl
          || TypeInstantiatedTask(t) in q
          || MethodInvokedTask(m) in q)
    && (forall m :: m in disp && p.isStatic(m) ==> m in impl || MethodInvokedTask(m) in q)
  }

  /** The dispatch closure at quiescence: both dispatch rules have been applied to every pair. */
  ghost predicate DispatchClosed(p: Program, inst: set<TypeId>, disp: set<MethodId>, impl: set<MethodId>) {
    && (forall t, m :: t in inst && m in disp && Dispatches(p, t, m) ==> p.resolve(t, m, p.declaringClass(m)).value in impl)
    && (forall m :: m in disp && p.isStatic(m) ==> m in impl)
  }

  /** A recorded summary is the provider's and has been applied; an implementation-invoked method without one failed or is pending. */
  ghost predicate SummariesPending(p: Program, sums: map<MethodId, Summary>, f: Flags, q: set<Task>) {
    && (forall m :: m in sums ==> m in f.implInvoked && p.summaryOf(m) == Some(sums[m]) && Applied(p, sums[m], f))
    && (forall m :: m in f.implInvoked ==> m in sums || p.summaryOf(m).None? || ImplementationInvokedTask(m) in q)
  }

  /** At quiescence every implementation-invoked method has its summary applied, unless the provider failed for it. */
  ghost predicate SummariesClosed(p: Program, sums: map<MethodId, Summary>, f: Flags) {
    forall m :: m in f.implInvoked ==>
      (m in sums && Applied(p, sums[m], f)) || (p.summaryOf(m).None? && m !in sums)
  }

  /** The first field in `fs` with the given name, as the lookup loop of `addRootField` finds it. */
  function FirstNamed(p: Program, fs: seq<FieldId>, name: string): (r: Option<FieldId>)
    ensures r.Some? ==> r.value in fs && p.fieldName(r.value) == name
    ensures r.None? <==> forall f :: f in fs ==> p.fieldName(f) != name
  {
    if |fs| == 0 then None
    else if p.fieldName(fs[0]) == name then Some(fs[0])
    else FirstNamed(p, fs[1..], name)
  }

  /** Skipping a prefix without the name does not change the first match. */
  lemma {:induction false} FirstNamedSkips(p: Program, fs: seq<FieldId>, name: string, i: nat)
    requires i <= |fs|
    requires forall k :: 0 <= k < i ==> p.fieldName(fs[k]) != name
    ensures FirstNamed(p, fs, name) == FirstNamed(p, fs[i..], name)
  {
    if i > 0 {
      FirstNamedSkips(p, fs[1..], name, i - 1);
      assert fs[1..][i - 1..] == fs[i..];
    }
  }

  /** What `registerForeignCalls` guarantees for one node, given the reachable types and root methods. */
  ghost predicate NodeRegistered(p: Program, n: Node, reachable: set<TypeId>, roots: set<MethodId>) {
    match n
    case ForeignCallNode(d) => ForeignCallRegistered(p, d, roots)
    case UnaryMathNode(sig) => ForeignCallRegistered(p, p.descriptorOf(sig), roots)
    case BinaryMathNode(sig) => ForeignCallRegistered(p, p.descriptorOf(sig), roots)
    case FrameStateNode(om) => om.Some? ==> p.declaringClass(om.value) in reachable
    case OtherNode => true
  }
  /** After `registerForeignCalls` of the nodes `ns`, every node is registered. */
  lemma GraphNodesRegistered(p: Program, ns: seq<Node>, f0: Flags, f: Flags)
    requires f == GraphNodesEffect(p, ns, f0)
    ensures forall n :: n in ns ==> NodeRegistered(p, n, f.reachable, f.roots)
  {
    forall n | n in ns
      ensures NodeRegistered(p, n, f.reachable, f.roots)
    {
      var k :| 0 <= k < |ns| && ns[k] == n;
      NodeDescriptorsInGraph(p, ns, k);
      var ds := GraphDescriptors(p, ns);
      match n
      case ForeignCallNode(d) =>
        assert d in ds;
      case UnaryMathNode(sig) =>
        assert p.descriptorOf(sig) in ds;
      case BinaryMathNode(sig) =>
        assert p.descriptorOf(sig) in ds;
      case FrameStateNode(om) =>
      case OtherNode =>
    }
  }


  /** With no task pending, the invariants are the closure. */
  lemma Quiescent(p: Program, disp: set<MethodId>, sums: map<MethodId, Summary>, f: Flags)
    requires DispatchPending(p, f.instantiated, disp, f.implInvoked, {})
    requires SummariesPending(p, sums, f, {})
    ensures DispatchClosed(p, f.instantiated, disp, f.implInvoked)
    ensures SummariesClosed(p, sums, f)
  {
  }

  /** What running the task `x` achieved, between the flags `f0` and summaries `s0` before it and `f1`, `s1` after it. */
  ghost predicate Handled(p: Program, x: Task, f0: Flags, s0: map<MethodId, Summary>, f1: Flags, s1: map<MethodId, Summary>) {
    match x
    case TypeInstantiatedTask(t) =>
      && s1 == s0
      && (forall m :: m in f0.invoked && Dispatches(p, t, m) ==> p.resolve(t, m, p.declaringClass(m)).value in f1.implInvoked)
    case MethodInvokedTask(m) =>
      && s1 == s0
      && (p.isStatic(m) ==> m in f1.implInvoked)
      && (forall t :: t in f0.instantiated && Dispatches(p, t, m) ==> p.resolve(t, m, p.declaringClass(m)).value in f1.implInvoked)
    case ImplementationInvokedTask(m) =>
      match p.summaryOf(m)
      case Some(s) => s1 == s0[m := s] && Applied(p, s, f1)
      case None => s1 == s0
  }

  /** When no invoked method was left undispatched before, none is after. */
  lemma AllDispatched(i0: set<MethodId>, d0: set<MethodId>, i1: set<MethodId>, d1: set<MethodId>)
    requires d0 == i0 && i1 - d1 == i0 - d0 && d1 <= i1
    ensures d1 == i1
  {
    forall x | x in i1
      ensures x in d1
    {
      assert x !in i0 - d0;
    }
  }

  /** A handler's exact effect does the work its task stands for, and only sets flags. */
  lemma EffectHandles(p: Program, x: Task,
                      f0: Flags, d0: set<MethodId>, s0: map<MethodId, Summary>,
                      f1: Flags, d1: set<MethodId>, s1: map<MethodId, Summary>)
    requires Effect(p, x, f0, d0, s0, f1, d1, s1)
    ensures Handled(p, x, f0, s0, f1, s1)
    ensures f0.Le(f1) && d0 <= d1
  {
    match x
    case TypeInstantiatedTask(t) =>
      forall m | m in f0.invoked && Dispatches(p, t, m)
        ensures p.resolve(t, m, p.declaringClass(m)).value in f1.implInvoked
      {
        assert p.resolve(t, m, p.declaringClass(m)).value in TypeResolutions(p, t, f0.invoked);
      }
    case MethodInvokedTask(m) =>
      forall t | t in f0.instantiated && Dispatches(p, t, m)
        ensures p.resolve(t, m, p.declaringClass(m)).value in f1.implInvoked
      {
        assert p.resolve(t, m, p.declaringClass(m)).value in MethodResolutions(p, m, f0.instantiated);
      }
    case ImplementationInvokedTask(m) =>
      if p.summaryOf(m).Some? {
        SummaryEffectApplied(p, p.summaryOf(m).value, f0);
      }
  }

  /** Tasks are posted exactly for the flags set, so as the flags grow the posted tasks only grow. */
  lemma PostedGrows(h0: set<Task>, h1: set<Task>, f0: Flags, f1: Flags, d0: set<MethodId>, d1: set<MethodId>)
    requires TasksMatch(h0, f0.instantiated, f0.implInvoked, d0) && TasksMatch(h1, f1.instantiated, f1.implInvoked, d1)
    requires f0.Le(f1) && d0 <= d1
    ensures h0 <= h1
  {
    forall x | x in h0
      ensures x in h1
    {
      match x
      case TypeInstantiatedTask(t) =>
      case ImplementationInvokedTask(m) =>
      case MethodInvokedTask(m) =>
    }
  }

  /**
   * Running the pending task `x` and then completing it keeps every pair
   * resolved or pending and every summary applied or pending: the handler
   * did the work `x` stood for, and everything it newly set has its task
   * pending.
   */
  lemma TaskCompleted(p: Program, x: Task,
                      f0: Flags, d0: set<MethodId>, h0: set<Task>, s0: map<MethodId, Summary>, c0: set<Task>,
                      f1: Flags, d1: set<MethodId>, h1: set<Task>, s1: map<MethodId, Summary>, q1: set<Task>)
    requires TasksMatch(h0, f0.instantiated, f0.implInvoked, d0) && TasksMatch(h1, f1.instantiated, f1.implInvoked, d1)
    requires d0 <= f0.invoked && f0.Le(f1) && d0 <= d1 && h0 <= h1 && c0 <= h0 && x in h0 && x !in c0
    requires DispatchPending(p, f0.instantiated, d0, f0.implInvoked, h0 - c0)
    requires SummariesPending(p, s0, f0, h0 - c0)
    requires Handled(p, x, f0, s0, f1, s1)
    requires q1 == h1 - (c0 + {x})
    ensures DispatchPending(p, f1.instantiated, d1, f1.implInvoked, q1)
    ensures SummariesPending(p, s1, f1, q1)
  {
    forall t, m | t in f1.instantiated && m in d1 && Dispatches(p, t, m)
      ensures || p.resolve(t, m, p.declaringClass(m)).value in f1.implInvoked
              || TypeInstantiatedTask(t) in q1
              || MethodInvokedTask(m) in q1
    {
      if t !in f0.instantiated {
        assert TypeInstantiatedTask(t) in h1 - h0;
      } else if m !in d0 {
        assert MethodInvokedTask(m) in h1 - h0;
      }
    }
    forall m | m in s1
      ensures m in f1.implInvoked && p.summaryOf(m) == Some(s1[m]) && Applied(p, s1[m], f1)
    {
      if m in s0 && (x.ImplementationInvokedTask? ==> x.implMethod != m) {
        AppliedMonotone(p, s0[m], f0, f1);
      }
    }
    forall m | m in f1.implInvoked
      ensures m in s1 || p.summaryOf(m).None? || ImplementationInvokedTask(m) in q1
    {
      if m !in f0.implInvoked {
        assert ImplementationInvokedTask(m) in h1 - h0;
      }
    }
  }

  /** Posting tasks for newly set flags, with no task completed and no summary recorded, keeps the invariants. */
  lemma PostingKeeps(p: Program, f0: Flags, d0: set<MethodId>, h0: set<Task>, q0: set<Task>, s: map<MethodId, Summary>, c: set<Task>,
                     f1: Flags, d1: set<MethodId>, h1: set<Task>, q1: set<Task>)
    requires TasksMatch(h0, f0.instantiated, f0.implInvoked, d0) && TasksMatch(h1, f1.instantiated, f1.implInvoked, d1)
    requires f0.Le(f1) && d0 <= d1 && h0 <= h1 && c <= h0 && q0 == h0 - c && q1 == h1 - c
    requires DispatchPending(p, f0.instantiated, d0, f0.implInvoked, q0)
    requires SummariesPending(p, s, f0, q0)
    ensures DispatchPending(p, f1.instantiated, d1, f1.implInvoked, q1)
    ensures SummariesPending(p, s, f1, q1)
  {
    forall t, m | t in f1.instantiated && m in d1 && Dispatches(p, t, m)
      ensures || p.resolve(t, m, p.declaringClass(m)).value in f1.implInvoked
              || TypeInstantiatedTask(t) in q1
              || MethodInvokedTask(m) in q1
    {
      if t !in f0.instantiated {
        assert TypeInstantiatedTask(t) in h1 - h0;
      } else if m !in d0 {
        assert MethodInvokedTask(m) in h1 - h0;
      }
    }
    forall m | m in s
      ensures Applied(p, s[m], f1)
    {
      AppliedMonotone(p, s[m], f0, f1);
    }
    forall m | m in f1.implInvoked
      ensures m in s || p.summaryOf(m).None? || ImplementationInvokedTask(m) in q1
    {
      if m !in f0.implInvoked {
        assert ImplementationInvokedTask(m) in h1 - h0;
      }
    }
  }

  /** The analysis state: one-way flags per element, the summaries map and the executor's pending tasks. */
  class Analysis {
    const prog: Program

    var reachable: set<TypeId>
    var instantiated: set<TypeId>
    var inHeap: set<TypeId>
    var invoked: set<MethodId>
    var implInvoked: set<MethodId>
    var roots: set<MethodId>
    var accessed: set<FieldId>
    var read: set<FieldId>
    var written: set<FieldId>
    var summaries: map<MethodId, Summary>
    /** The constants `processSummary` registered with the universe, each with the method embedding it. */
    var embeddedRoots: set<EmbeddedRoot>
    /** Tasks posted to the executor and not yet run to completion. */
    var pending: set<Task>
    /** Methods whose `onMethodInvoked` task was posted. */
    ghost var dispatched: set<MethodId>
    /** Every task ever posted, and those run to completion. */
    ghost var posted: set<Task>
    ghost var completed: set<Task>
    /** The flags after each drain of the executor, in order. */
    ghost var drains: seq<Flags>

    /** The flags as one value. */
    ghost function CurrentFlags(): Flags
      reads this`reachable, this`instantiated, this`inHeap, this`invoked, this`implInvoked, this`roots, this`read, this`written
    {
      Flags(reachable, instantiated, inHeap, invoked, implInvoked, roots, read, written)
    }

    /**
     * The invariant every operation keeps: flags stay in the universe,
     * in-heap implies instantiated, the pending tasks are the posted ones
     * not yet completed, a task was posted exactly when its flag was set,
     * and root methods are registered.
     */
    ghost predicate Core()
      reads this`instantiated, this`inHeap, this`invoked, this`implInvoked, this`roots
      reads this`dispatched, this`posted, this`completed, this`pending
    {
      && instantiated <= prog.types && invoked <= prog.methods && implInvoked <= prog.methods
      && inHeap <= instantiated && dispatched <= invoked
      && completed <= posted && pending == posted - completed
      && TasksMatch(posted, instantiated, implInvoked, dispatched)
      && RootsRegistered(prog, roots, invoked, implInvoked, instantiated)
    }

    /**
     * `Core` plus the fixpoint invariants the executor loop keeps, and every
     * invoked method dispatched: root methods are added through
     * `AddRootMethodDispatched`.
     */
    ghost predicate Valid()
      reads this`reachable, this`instantiated, this`inHeap, this`invoked, this`implInvoked, this`roots, this`read, this`written
      reads this`dispatched, this`posted, this`completed, this`pending, this`summaries
    {
      && Core() && prog.Valid() && dispatched == invoked
      && DispatchPending(prog, instantiated, dispatched, implInvoked, pending)
      && SummariesPending(prog, summaries, CurrentFlags(), pending)
    }

    constructor (p: Program)
      requires p.Valid()
      ensures Valid() && prog == p && pending == {}
      ensures reachable == instantiated == inHeap == {}
      ensures invoked == implInvoked == roots == {}
      ensures accessed == read == written == {} && summaries == map[]
      ensures embeddedRoots == {} && dispatched == {} && posted == completed == {}
    {
      prog := p;
      reachable, instantiated, inHeap := {}, {}, {};
      invoked, implInvoked, roots := {}, {}, {};
      accessed, read, written := {}, {}, {};
      summaries, embeddedRoots := map[], {};
      pending := {};
      dispatched, posted, completed := {}, {}, {};
    }

    /** `markTypeReachable`: `registerAsReachable`, true on the first transition only. */
    method MarkTypeReachable(t: TypeId) returns (first: bool)
      modifies this`reachable
      ensures reachable == old(reachable) + {t}
      ensures CurrentFlags() == old(CurrentFlags()).(reachable := old(reachable) + {t})
      ensures first <==> t !in old(reachable)
    {
      first := t !in reachable;
      reachable := reachable + {t};
    }

    /** `markTypeInstantiated`: posts `onTypeInstantiated` on the first transition only, and says whether it did. */
    method MarkTypeInstantiated(t: TypeId) returns (first: bool)
      requires Core() && t in prog.types
      modifies this`instantiated, this`pending, this`posted
      ensures Core()
      ensures instantiated == old(instantiated) + {t}
      ensures CurrentFlags() == old(CurrentFlags()).(instantiated := old(instantiated) + {t})
      ensures first <==> t !in old(instantiated)
      ensures first ==> TypeInstantiatedTask(t) !in old(posted)
      ensures posted == old(posted) + (if first then {TypeInstantiatedTask(t)} else {})
      ensures pending == old(pending) + (if first then {TypeInstantiatedTask(t)} else {})
    {
      if t in instantiated {
        return false;
      }
      instantiated := instantiated + {t};
      pending, posted := pending + {TypeInstantiatedTask(t)}, posted + {TypeInstantiatedTask(t)};
      first := true;
    }

    /** `markTypeInHeap`: the type is marked instantiated before it is registered in the heap. */
    method MarkTypeInHeap(t: TypeId)
      requires Core() && t in prog.types
      modifies this`instantiated, this`inHeap, this`pending, this`posted
      ensures Core()
      ensures inHeap == old(inHeap) + {t} && instantiated == old(instantiated) + {t}
      ensures CurrentFlags() == old(CurrentFlags()).(instantiated := old(instantiated) + {t}, inHeap := old(inHeap) + {t})
      ensures posted == old(posted) + (if t in old(instantiated) then {} else {TypeInstantiatedTask(t)})
      ensures pending == old(pending) + (if t in old(instantiated) then {} else {TypeInstantiatedTask(t)})
    {
      var _ := MarkTypeInstantiated(t);
      inHeap := inHeap + {t};
    }

    /** `markMethodInvoked`: posts `onMethodInvoked` on the first transition only. */
    method MarkMethodInvoked(m: MethodId)
      requires Core() && m in prog.methods
      modifies this`invoked, this`dispatched, this`pending, this`posted
      ensures Core()
      ensures invoked == old(invoked) + {m}
      ensures CurrentFlags() == old(CurrentFlags()).(invoked := old(invoked) + {m})
      ensures m !in old(invoked) ==> MethodInvokedTask(m) !in old(posted)
      ensures invoked - dispatched == old(invoked - dispatched) && old(dispatched) <= dispatched
      ensures posted == old(posted) + (if m in old(invoked) then {} else {MethodInvokedTask(m)})
      ensures pending == old(pending) + (if m in old(invoked) then {} else {MethodInvokedTask(m)})
    {
      if m in invoked {
        return;
      }
      invoked := invoked + {m};
      dispatched := dispatched + {m};
      pending, posted := pending + {MethodInvokedTask(m)}, posted + {MethodInvokedTask(m)};
    }

    /**
     * `markMethodImplementationInvoked`: an absent method changes nothing;
     * otherwise `onMethodImplementationInvoked` is posted on the first
     * transition only.
     */
    method MarkMethodImplementationInvoked(om: Option<MethodId>)
      requires Core() && (om.Some? ==> om.value in prog.methods)
      modifies this`implInvoked, this`pending, this`posted
      ensures Core()
      ensures om.None? ==> implInvoked == old(implInvoked) && posted == old(posted) && pending == old(pending)
      ensures om.Some? ==> implInvoked == old(implInvoked) + {om.value}
      ensures CurrentFlags() == old(CurrentFlags()).(implInvoked := old(implInvoked) + (if om.Some? then {om.value} else {}))
      ensures om.Some? && om.value !in old(implInvoked) ==> ImplementationInvokedTask(om.value) !in old(posted)
      ensures om.Some? ==> posted == old(posted) + (if om.value in old(implInvoked) then {} else {ImplementationInvokedTask(om.value)})
      ensures om.Some? ==> pending == old(pending) + (if om.value in old(implInvoked) then {} else {ImplementationInvokedTask(om.value)})
    {
      if om.None? {
        return;
      }
      var m := om.value;
      if m in implInvoked {
        return;
      }
      implInvoked := implInvoked + {m};
      pending, posted := pending + {ImplementationInvokedTask(m)}, posted + {ImplementationInvokedTask(m)};
    }

    /** `registerAsInvoked` called directly, as `addRootMethod` does: the flag is set but `onMethodInvoked` is not posted. */
    method RegisterAsInvoked(m: MethodId)
      requires Core() && m in prog.methods
      modifies this`invoked
      ensures Core() && invoked == old(invoked) + {m}
      ensures CurrentFlags() == old(CurrentFlags()).(invoked := old(invoked) + {m})
    {
      invoked := invoked + {m};
    }

    /** `markFieldAccessed`. */
    method MarkFieldAccessed(f: FieldId)
      modifies this`accessed
      ensures accessed == old(accessed) + {f}
    {
      accessed := accessed + {f};
    }

    /** `markFieldRead`. */
    method MarkFieldRead(f: FieldId)
      modifies this`read
      ensures read == old(read) + {f}
    {
      read := read + {f};
    }

    /** `markFieldWritten`. */
    method MarkFieldWritten(f: FieldId)
      modifies this`written
      ensures written == old(written) + {f}
    {
      written := written + {f};
    }

    /**
     * `addRootMethod` as written: a method that already is a root is
     * returned unchanged; otherwise a non-static method's declaring class
     * becomes instantiated and the method becomes invoked, through
     * `registerAsInvoked`, so without posting `onMethodInvoked`, and
     * implementation-invoked.
     */
    method AddRootMethod(m: MethodId) returns (r: MethodId)
      requires Core() && m in prog.methods && prog.declaringClass(m) in prog.types
      modifies this`roots, this`instantiated, this`invoked, this`implInvoked, this`pending, this`posted
      ensures Core() && r == m
      ensures CurrentFlags() == WithRoots(prog, old(CurrentFlags()), {m})
      ensures posted == old(posted) + RootTasks(m, old(instantiated), old(implInvoked))
    {
      r := m;
      if m in roots {
        WithRootsPresent(prog, CurrentFlags(), m);
        return;
      }
      WithRootsOne(prog, CurrentFlags(), m);
      ghost var inst0, impl0, h0 := instantiated, implInvoked, posted;
      if !prog.isStatic(m) {
        var _ := MarkTypeInstantiated(prog.declaringClass(m));
      }
      RegisterAsInvoked(m);
      MarkMethodImplementationInvoked(Some(m));
      assert posted == h0 + RootTasks(m, inst0, impl0);
      RegisterAsRootMethod(m);
    }

    /**
     * `addRootMethod` with the root made invoked through `markMethodInvoked`,
     * so that its `onMethodInvoked` task is posted like any other invoked
     * method's: every invoked method stays dispatched.
     */
    method AddRootMethodDispatched(m: MethodId) returns (r: MethodId)
      requires Core() && m in prog.methods && prog.declaringClass(m) in prog.types
      modifies this`roots, this`instantiated, this`invoked, this`implInvoked, this`dispatched, this`pending, this`posted
      ensures Core() && r == m
      ensures CurrentFlags() == WithRoots(prog, old(CurrentFlags()), {m})
      ensures invoked - dispatched == old(invoked - dispatched) && old(dispatched) <= dispatched
    {
      r := m;
      if m in roots {
        WithRootsPresent(prog, CurrentFlags(), m);
        return;
      }
      ghost var f0 := CurrentFlags();
      WithRootsOne(prog, f0, m);
      if !prog.isStatic(m) {
        var _ := MarkTypeInstantiated(prog.declaringClass(m));
      }
      MarkMethodInvoked(m);
      MarkMethodImplementationInvoked(Some(m));
      RegisterAsRootMethod(m);
      assert CurrentFlags() == f0.(instantiated := f0.instantiated + (if prog.isStatic(m) then {} else {prog.declaringClass(m)}),
                                   invoked := f0.invoked + {m}, implInvoked := f0.implInvoked + {m}, roots := f0.roots + {m});
    }

    /** `registerAsRootMethod`, once the method is invoked, implementation-invoked and, if non-static, its class instantiated. */
    method RegisterAsRootMethod(m: MethodId)
      requires Core() && m in invoked && m in implInvoked && (!prog.isStatic(m) ==> prog.declaringClass(m) in instantiated)
      modifies this`roots
      ensures Core() && roots == old(roots) + {m}
      ensures CurrentFlags() == old(CurrentFlags()).(roots := old(roots) + {m})
    {
      roots := roots + {m};
    }

    /** The tasks a first `addRootMethod(m)` posts, given the instantiated and implementation-invoked sets before it. */
    ghost function RootTasks(m: MethodId, inst: set<TypeId>, impl: set<MethodId>): set<Task> {
      (if !prog.isStatic(m) && prog.declaringClass(m) !in inst then {TypeInstantiatedTask(prog.declaringClass(m))} else {})
      + (if m in impl then {} else {ImplementationInvokedTask(m)})
    }

    /** `registerForeignCall`: the host VM's target for the descriptor, if any, becomes a root method, and nothing else changes. */
    method RegisterForeignCall(d: Descriptor)
      requires Core() && prog.Valid()
      modifies this`roots, this`instantiated, this`invoked, this`implInvoked, this`dispatched, this`pending, this`posted
      ensures Core()
      ensures CurrentFlags() == WithRoots(prog, old(CurrentFlags()), ForeignTarget(prog, d))
      ensures invoked - dispatched == old(invoked - dispatched) && old(dispatched) <= dispatched
      ensures ForeignCallRegistered(prog, d, roots)
    {
      var target := prog.handleForeignCall(d);
      if target.Some? {
        var _ := AddRootMethodDispatched(target.value);
      } else {
        assert RootClasses(prog, {}) == {};
      }
    }

    /** The first loop of `processSummary`: exactly the listed methods become invoked, each dispatched if new. */
    method MarkAllInvoked(ms: seq<MethodId>)
      requires Core() && forall m :: m in ms ==> m in prog.methods
      modifies this`invoked, this`dispatched, this`pending, this`posted
      ensures Core()
      ensures CurrentFlags() == old(CurrentFlags()).(invoked := old(invoked) + Members(ms))
      ensures invoked - dispatched == old(invoked - dispatched) && old(dispatched) <= dispatched
    {
      for i := 0 to |ms|
        invariant Core()
        invariant CurrentFlags() == old(CurrentFlags()).(invoked := old(invoked) + Members(ms[..i]))
        invariant invoked - dispatched == old(invoked - dispatched) && old(dispatched) <= dispatched
      {
        MarkMethodInvoked(ms[i]);
        assert ms[..i + 1] == ms[..i] + [ms[i]];
        assert Members(ms[..i + 1]) == Members(ms[..i]) + {ms[i]};
      }
      assert ms[..|ms|] == ms;
    }

    /** One iteration of the second loop of `processSummary`: `m` becomes invoked, then implementation-invoked. */
    method MarkInvokedAndImplementationInvoked(m: MethodId)
      requires Core() && m in prog.methods
      modifies this`invoked, this`implInvoked, this`dispatched, this`pending, this`posted
      ensures Core()
      ensures CurrentFlags() == old(CurrentFlags()).(invoked := old(invoked) + {m}, implInvoked := old(implInvoked) + {m})
      ensures invoked - dispatched == old(invoked - dispatched) && old(dispatched) <= dispatched
    {
      MarkMethodInvoked(m);
      MarkMethodImplementationInvoked(Some(m));
    }

    /** The second loop of `processSummary`: exactly the listed methods become invoked, then implementation-invoked. */
    method MarkAllImplementationInvoked(ms: seq<MethodId>)
      requires Core() && forall m :: m in ms ==> m in prog.methods
      modifies this`invoked, this`implInvoked, this`dispatched, this`pending, this`posted
      ensures Core()
      ensures CurrentFlags() == old(CurrentFlags()).(invoked := old(invoked) + Members(ms), implInvoked := old(implInvoked) + Members(ms))
      ensures invoked - dispatched == old(invoked - dispatched) && old(dispatched) <= dispatched
    {
      for i := 0 to |ms|
        invariant Core()
        invariant CurrentFlags() == old(CurrentFlags()).(invoked := old(invoked) + Members(ms[..i]), implInvoked := old(implInvoked) + Members(ms[..i]))
        invariant invoked - dispatched == old(invoked - dispatched) && old(dispatched) <= dispatched
      {
        MarkInvokedAndImplementationInvoked(ms[i]);
        assert ms[..i + 1] == ms[..i] + [ms[i]];
        assert Members(ms[..i + 1]) == Members(ms[..i]) + {ms[i]};
      }
      assert ms[..|ms|] == ms;
    }

    /** The third loop of `processSummary`: every accessed type becomes reachable. */
    method MarkAllReachable(ts: seq<TypeId>)
      modifies this`reachable
      ensures reachable == old(reachable) + set t | t in ts
    {
      for i := 0 to |ts|
        invariant reachable == old(reachable) + set k | 0 <= k < i :: ts[k]
      {
        var _ := MarkTypeReachable(ts[i]);
        assert (set k | 0 <= k < i + 1 :: ts[k]) == (set k | 0 <= k < i :: ts[k]) + {ts[i]};
      }
      assert (set k | 0 <= k < |ts| :: ts[k]) == set t | t in ts;
    }

    /** The fourth loop of `processSummary`: every listed type becomes instantiated. */
    method MarkAllInstantiated(ts: seq<TypeId>)
      requires Core() && forall t :: t in ts ==> t in prog.types
      modifies this`instantiated, this`pending, this`posted
      ensures Core() && old(posted) <= posted
      ensures instantiated == old(instantiated) + set t | t in ts
    {
      for i := 0 to |ts|
        invariant Core() && old(posted) <= posted
        invariant instantiated == old(instantiated) + set k | 0 <= k < i :: ts[k]
      {
        var _ := MarkTypeInstantiated(ts[i]);
        assert (set k | 0 <= k < i + 1 :: ts[k]) == (set k | 0 <= k < i :: ts[k]) + {ts[i]};
      }
      assert (set k | 0 <= k < |ts| :: ts[k]) == set t | t in ts;
    }

    /** The fifth loop of `processSummary`: every listed field becomes read. */
    method MarkAllRead(fs: seq<FieldId>)
      modifies this`read
      ensures read == old(read) + set f | f in fs
    {
      for i := 0 to |fs|
        invariant read == old(read) + set k | 0 <= k < i :: fs[k]
      {
        MarkFieldRead(fs[i]);
        assert (set k | 0 <= k < i + 1 :: fs[k]) == (set k | 0 <= k < i :: fs[k]) + {fs[i]};
      }
      assert (set k | 0 <= k < |fs| :: fs[k]) == set f | f in fs;
    }

    /** The sixth loop of `processSummary`: every listed field becomes written. */
    method MarkAllWritten(fs: seq<FieldId>)
      modifies this`written
      ensures written == old(written) + set f | f in fs
    {
      for i := 0 to |fs|
        invariant written == old(written) + set k | 0 <= k < i :: fs[k]
      {
        MarkFieldWritten(fs[i]);
        assert (set k | 0 <= k < i + 1 :: fs[k]) == (set k | 0 <= k < i :: fs[k]) + {fs[i]};
      }
      assert (set k | 0 <= k < |fs| :: fs[k]) == set f | f in fs;
    }

    /** One iteration of the constant loop of `processSummary`: a tracked constant becomes an embedded root and its type is in the heap. */
    method ScanConstant(m: MethodId, c: Constant)
      requires Core() && c.runtimeType in prog.types
      modifies this`embeddedRoots, this`instantiated, this`inHeap, this`pending, this`posted
      ensures Core()
      ensures CurrentFlags() == old(CurrentFlags()).(instantiated := old(instantiated) + (if prog.Tracked(c) then {c.runtimeType} else {}),
                                                     inHeap := old(inHeap) + (if prog.Tracked(c) then {c.runtimeType} else {}))
      ensures embeddedRoots == old(embeddedRoots) + (if prog.Tracked(c) then {EmbeddedRoot(c, m)} else {})
    {
      if c.kind == ObjectKind && c.isNonNull {
        if prog.trackConstant(c) {
          embeddedRoots := embeddedRoots + {EmbeddedRoot(c, m)};
          MarkTypeInHeap(c.runtimeType);
        }
      }
    }

    /**
     * The embedded-constants loop of `processSummary`: exactly the non-null
     * object constants the scanning policy tracks are registered as embedded
     * roots of `m`, and exactly their types are put in the heap.
     */
    method ScanConstants(m: MethodId, cs: seq<Constant>)
      requires Core() && forall c :: c in cs ==> c.runtimeType in prog.types
      modifies this`embeddedRoots, this`instantiated, this`inHeap, this`pending, this`posted
      ensures Core()
      ensures CurrentFlags() == old(CurrentFlags()).(instantiated := old(instantiated) + TrackedTypes(prog, cs),
                                                     inHeap := old(inHeap) + TrackedTypes(prog, cs))
      ensures embeddedRoots == old(embeddedRoots) + TrackedRoots(prog, m, cs)
    {
      for i := 0 to |cs|
        invariant Core()
        invariant CurrentFlags() == old(CurrentFlags()).(instantiated := old(instantiated) + TrackedTypes(prog, cs[..i]),
                                                         inHeap := old(inHeap) + TrackedTypes(prog, cs[..i]))
        invariant embeddedRoots == old(embeddedRoots) + TrackedRoots(prog, m, cs[..i])
      {
        ghost var fi := CurrentFlags();
        ScanConstant(m, cs[i]);
        ScanStep(prog, cs, i, old(CurrentFlags()), fi, CurrentFlags());
        assert cs[..i + 1][..i] == cs[..i];
      }
      assert cs[..|cs|] == cs;
    }

    /** The foreign-call-descriptor loop of `processSummary`: exactly the descriptors' targets become root methods. */
    method RegisterForeignCalls(ds: seq<Descriptor>)
      requires Core() && prog.Valid()
      modifies this`roots, this`instantiated, this`invoked, this`implInvoked, this`dispatched, this`pending, this`posted
      ensures Core()
      ensures CurrentFlags() == WithRoots(prog, old(CurrentFlags()), ForeignTargets(prog, ds))
      ensures embeddedRoots == old(embeddedRoots)
      ensures invoked - dispatched == old(invoked - dispatched) && old(dispatched) <= dispatched
    {
      for i := 0 to |ds|
        invariant Core()
        invariant CurrentFlags() == WithRoots(prog, old(CurrentFlags()), ForeignTargets(prog, ds[..i]))
        invariant invoked - dispatched == old(invoked - dispatched) && old(dispatched) <= dispatched
      {
        ghost var fi := CurrentFlags();
        RegisterForeignCall(ds[i]);
        ForeignStep(prog, old(CurrentFlags()), ds, i, fi, CurrentFlags());
      }
      assert ds[..|ds|] == ds;
    }

    /** The foreign-call-signature loop of `processSummary`: exactly the targets of the signatures' descriptors become root methods. */
    method RegisterSignatureForeignCalls(gs: seq<Signature>)
      requires Core() && prog.Valid()
      modifies this`roots, this`instantiated, this`invoked, this`implInvoked, this`dispatched, this`pending, this`posted
      ensures Core()
      ensures CurrentFlags() == WithRoots(prog, old(CurrentFlags()), ForeignTargets(prog, SignatureDescriptors(prog, gs)))
      ensures embeddedRoots == old(embeddedRoots)
      ensures invoked - dispatched == old(invoked - dispatched) && old(dispatched) <= dispatched
    {
      ghost var ds := SignatureDescriptors(prog, gs);
      for i := 0 to |gs|
        invariant Core()
        invariant CurrentFlags() == WithRoots(prog, old(CurrentFlags()), ForeignTargets(prog, ds[..i]))
        invariant invoked - dispatched == old(invoked - dispatched) && old(dispatched) <= dispatched
      {
        ghost var fi := CurrentFlags();
        RegisterForeignCall(prog.descriptorOf(gs[i]));
        assert ds[i] == prog.descriptorOf(gs[i]);
        ForeignStep(prog, old(CurrentFlags()), ds, i, fi, CurrentFlags());
      }
      assert ds[..|gs|] == ds;
    }

    /** Every flag that `processSummary` and the handlers set has only grown since the pre-state. */
    twostate predicate FlagsGrew()
      reads this`reachable, this`instantiated, this`inHeap, this`invoked, this`implInvoked, this`roots, this`read, this`written
      reads this`dispatched, this`posted
    {
      && old(CurrentFlags()).Le(CurrentFlags())
      && old(dispatched) <= dispatched && old(posted) <= posted
    }

    /** The first two loops of `processSummary`: exactly the methods the summary names become invoked, each dispatched if new. */
    method ProcessMethodUses(s: Summary)
      requires Core() && prog.SummaryInUniverse(s)
      modifies this`invoked, this`implInvoked, this`dispatched, this`pending, this`posted
      ensures Core()
      ensures invoked == old(invoked) + NamedMethods(s)
      ensures implInvoked == old(implInvoked) + Members(s.implementationInvokedMethods)
      ensures invoked - dispatched == old(invoked - dispatched) && old(dispatched) <= dispatched
    {
      MarkAllInvoked(s.invokedMethods);
      MarkAllImplementationInvoked(s.implementationInvokedMethods);
    }

    /** The first six loops of `processSummary`: exactly the methods, types and fields the summary names get their flags. */
    method ProcessUses(s: Summary)
      requires Core() && prog.SummaryInUniverse(s)
      modifies this`reachable, this`instantiated, this`invoked, this`implInvoked
      modifies this`read, this`written, this`dispatched, this`pending, this`posted
      ensures Core()
      ensures CurrentFlags() == UsesEffect(s, old(CurrentFlags()))
      ensures invoked - dispatched == old(invoked - dispatched) && old(dispatched) <= dispatched
    {
      ProcessMethodUses(s);
      MarkAllReachable(s.accessedTypes);
      MarkAllInstantiated(s.instantiatedTypes);
      MarkAllRead(s.readFields);
      MarkAllWritten(s.writtenFields);
    }

    /** The last three loops of `processSummary`: exactly the tracked constants and the foreign calls' targets are registered. */
    method ProcessRegistrations(m: MethodId, s: Summary)
      requires Core() && prog.Valid() && prog.SummaryInUniverse(s)
      modifies this`instantiated, this`inHeap, this`invoked, this`implInvoked, this`roots
      modifies this`embeddedRoots, this`dispatched, this`pending, this`posted
      ensures Core()
      ensures CurrentFlags() == RegistrationsEffect(prog, s, old(CurrentFlags()))
      ensures invoked - dispatched == old(invoked - dispatched) && old(dispatched) <= dispatched
      ensures embeddedRoots == old(embeddedRoots) + TrackedRoots(prog, m, s.embeddedConstants)
    {
      ScanConstants(m, s.embeddedConstants);
      ghost var f := CurrentFlags();
      RegisterForeignCalls(s.foreignCallDescriptors);
      RegisterSignatureForeignCalls(s.foreignCallSignatures);
      WithRootsTwice(prog, f, ForeignTargets(prog, s.foreignCallDescriptors),
                     ForeignTargets(prog, SignatureDescriptors(prog, s.foreignCallSignatures)));
    }

    /**
     * `processSummary`: afterwards the flags are exactly those the summary
     * adds, so its effects are all present, and its tracked constants are
     * the new embedded roots of `m`.
     */
    method ProcessSummary(m: MethodId, s: Summary)
      requires Core() && prog.Valid() && prog.SummaryInUniverse(s)
      modifies this`reachable, this`instantiated, this`inHeap, this`invoked, this`implInvoked, this`roots
      modifies this`read, this`written, this`embeddedRoots, this`dispatched, this`pending, this`posted
      ensures Core()
      ensures CurrentFlags() == SummaryEffect(prog, s, old(CurrentFlags()))
      ensures invoked - dispatched == old(invoked - dispatched) && old(dispatched) <= dispatched
      ensures embeddedRoots == old(embeddedRoots) + TrackedRoots(prog, m, s.embeddedConstants)
      ensures Applied(prog, s, CurrentFlags())
    {
      ProcessUses(s);
      ProcessRegistrations(m, s);
      SummaryEffectApplied(prog, s, old(CurrentFlags()));
    }

    /** One iteration of the inner loop of `onTypeInstantiated`: a non-null resolution of an instance method `m` against `t` becomes implementation-invoked. */
    method ResolveOnType(t: TypeId, m: MethodId, current: TypeId)
      requires Core() && prog.Valid() && prog.declaringClass(m) == current && current in prog.supertypes(t)
      modifies this`implInvoked, this`pending, this`posted
      ensures Core()
      ensures implInvoked == old(implInvoked) + TypeResolutions(prog, t, {m})
    {
      TypeResolutionsOne(prog, t, m);
      if !prog.isStatic(m) {
        var r := prog.resolve(t, m, current);
        if r.Some? {
          MarkMethodImplementationInvoked(r);
        }
      }
    }

    /**
     * `onTypeInstantiated`: for every supertype `current` of `t` and every
     * non-static method invoked on `current`, a non-null resolution against
     * `t` becomes implementation-invoked, and nothing else does.
     */
    method OnTypeInstantiated(t: TypeId)
      requires Core() && prog.Valid()
      modifies this`implInvoked, this`pending, this`posted
      ensures Core()
      ensures implInvoked == old(implInvoked) + TypeResolutions(prog, t, invoked)
      ensures CurrentFlags() == old(CurrentFlags()).(implInvoked := old(implInvoked) + TypeResolutions(prog, t, invoked))
    {
      var supers := prog.supertypes(t);
      while supers != {}
        invariant Core() && supers <= prog.supertypes(t)
        invariant implInvoked == old(implInvoked) + TypeResolutions(prog, t, DeclaredIn(prog, invoked, prog.supertypes(t) - supers))
        decreases supers
      {
        var current :| current in supers;
        ghost var done := prog.supertypes(t) - supers;
        ResolveDeclaredOn(t, current);
        assert DeclaredIn(prog, invoked, done + {current}) == DeclaredIn(prog, invoked, done) + DeclaredIn(prog, invoked, {current});
        TypeResolutionsUnion(prog, t, DeclaredIn(prog, invoked, done), DeclaredIn(prog, invoked, {current}));
        assert prog.supertypes(t) - (supers - {current}) == done + {current};
        supers := supers - {current};
      }
      TypeResolutionsDeclared(prog, t, invoked);
    }

    /** The inner loop of `onTypeInstantiated`: the invoked methods declared by `current`, a supertype of `t`, are resolved against `t`. */
    method ResolveDeclaredOn(t: TypeId, current: TypeId)
      requires Core() && prog.Valid() && current in prog.supertypes(t)
      modifies this`implInvoked, this`pending, this`posted
      ensures Core()
      ensures implInvoked == old(implInvoked) + TypeResolutions(prog, t, DeclaredIn(prog, invoked, {current}))
    {
      var methodsOf := set m | m in invoked && prog.declaringClass(m) == current;
      ghost var all := methodsOf;
      while methodsOf != {}
        invariant Core() && methodsOf <= all
        invariant implInvoked == old(implInvoked) + TypeResolutions(prog, t, all - methodsOf)
        decreases methodsOf
      {
        var m :| m in methodsOf;
        ghost var done := all - methodsOf;
        ghost var before := implInvoked;
        ResolveOnType(t, m, current);
        ResolvedStep(prog, t, old(implInvoked), before, implInvoked, done, m);
        assert all - (methodsOf - {m}) == done + {m};
        methodsOf := methodsOf - {m};
      }
      assert all - methodsOf == DeclaredIn(prog, invoked, {current});
    }

    /**
     * `onMethodInvoked`: a static method becomes implementation-invoked
     * itself; otherwise, for every instantiated subtype of its declaring
     * class, a non-null resolution becomes implementation-invoked, and
     * nothing else does.
     */
    method OnMethodInvoked(m: MethodId)
      requires Core() && prog.Valid() && m in prog.methods
      modifies this`implInvoked, this`pending, this`posted
      ensures Core()
      ensures implInvoked == old(implInvoked) + MethodResolutions(prog, m, instantiated)
    {
      var clazz := prog.declaringClass(m);
      var subtypes := set t | t in instantiated && clazz in prog.supertypes(t);
      if prog.isStatic(m) {
        MarkMethodImplementationInvoked(Some(m));
        return;
      }
      while subtypes != {}
        invariant Core() && forall t :: t in subtypes ==> t in instantiated && clazz in prog.supertypes(t)
        invariant old(implInvoked) <= implInvoked <= old(implInvoked) + MethodResolutions(prog, m, instantiated)
        invariant forall t :: t in instantiated && Dispatches(prog, t, m) && t !in subtypes ==>
                    prog.resolve(t, m, clazz).value in implInvoked
        decreases subtypes
      {
        var subtype :| subtype in subtypes;
        var resolved := prog.resolve(subtype, m, clazz);
        if resolved.Some? {
          assert Dispatches(prog, subtype, m);
          assert resolved.value in MethodResolutions(prog, m, instantiated);
          MarkMethodImplementationInvoked(resolved);
        }
        subtypes := subtypes - {subtype};
      }
    }

    /**
     * `onMethodImplementationInvoked`: the provider's summary, when it
     * gives one, is processed and then recorded; when it fails nothing
     * changes.
     */
    method OnMethodImplementationInvoked(m: MethodId)
      requires Core() && prog.Valid()
      modifies this`reachable, this`instantiated, this`inHeap, this`invoked, this`implInvoked, this`roots
      modifies this`read, this`written, this`embeddedRoots, this`dispatched, this`pending, this`posted, this`summaries
      ensures Core()
      ensures invoked - dispatched == old(invoked - dispatched) && old(dispatched) <= dispatched
      ensures prog.summaryOf(m).None? ==>
        && CurrentFlags() == old(CurrentFlags()) && summaries == old(summaries) && embeddedRoots == old(embeddedRoots)
      ensures prog.summaryOf(m).Some? ==>
        && CurrentFlags() == SummaryEffect(prog, prog.summaryOf(m).value, old(CurrentFlags()))
        && summaries == old(summaries)[m := prog.summaryOf(m).value]
        && embeddedRoots == old(embeddedRoots) + TrackedRoots(prog, m, prog.summaryOf(m).value.embeddedConstants)
    {
      var summary := prog.summaryOf(m);
      if summary.Some? {
        ProcessSummary(m, summary.value);
        summaries := summaries[m := summary.value];
      }
    }

    /** Runs the handler a posted task stands for, with exactly that handler's effect. */
    method RunTask(x: Task)
      requires Core() && prog.Valid() && x in posted
      modifies this`reachable, this`instantiated, this`inHeap, this`invoked, this`implInvoked, this`roots
      modifies this`read, this`written, this`embeddedRoots, this`dispatched, this`pending, this`posted, this`summaries
      ensures Core()
      ensures Effect(prog, x, old(CurrentFlags()), old(dispatched), old(summaries), CurrentFlags(), dispatched, summaries)
      ensures embeddedRoots == old(embeddedRoots) + TaskRoots(prog, x)
    {
      match x
      case TypeInstantiatedTask(t) =>
        OnTypeInstantiated(t);
      case MethodInvokedTask(m) =>
        OnMethodInvoked(m);
      case ImplementationInvokedTask(m) =>
        OnMethodImplementationInvoked(m);
    }

    /** The executor retires a task whose handler has returned. */
    method CompleteTask(x: Task)
      requires Core() && x in pending
      modifies this`pending, this`completed
      ensures Core() && pending == old(pending) - {x} && completed == old(completed) + {x}
    {
      pending := pending - {x};
      completed := completed + {x};
    }

    /** The executor runs one pending task to completion. */
    method RunPendingTask()
      requires Valid() && pending != {}
      modifies this`reachable, this`instantiated, this`inHeap, this`invoked, this`implInvoked, this`roots
      modifies this`read, this`written, this`embeddedRoots, this`dispatched, this`pending, this`posted, this`summaries
      modifies this`completed
      ensures Valid() && FlagsGrew()
      ensures AllTasks(prog) - completed < old(AllTasks(prog) - completed)
    {
      var x :| x in pending;
      ghost var f0, d0, h0, s0, c0 := CurrentFlags(), dispatched, posted, summaries, completed;
      PostedInUniverse(prog, posted, instantiated, implInvoked, dispatched, x);
      RunTask(x);
      AllDispatched(f0.invoked, d0, invoked, dispatched);
      EffectHandles(prog, x, f0, d0, s0, CurrentFlags(), dispatched, summaries);
      PostedGrows(h0, posted, f0, CurrentFlags(), d0, dispatched);
      CompleteTask(x);
      TaskCompleted(prog, x, f0, d0, h0, s0, c0, CurrentFlags(), dispatched, posted, summaries, pending);
    }

    /**
     * `finish`, through `runReachability`: runs pending tasks, in no
     * particular order, until none is left, and returns true. At that
     * point both dispatch rules have been applied to every pair of an
     * instantiated type and an invoked method, and every
     * implementation-invoked method's summary is applied.
     */
    method Finish() returns (changed: bool)
      requires Valid()
      modifies this`reachable, this`instantiated, this`inHeap, this`invoked, this`implInvoked, this`roots
      modifies this`read, this`written, this`embeddedRoots, this`dispatched, this`pending, this`posted, this`summaries
      modifies this`completed, this`drains
      ensures Valid() && FlagsGrew() && changed && pending == {}
      ensures DispatchClosed(prog, instantiated, invoked, implInvoked)
      ensures SummariesClosed(prog, summaries, CurrentFlags())
      ensures drains == old(drains) + [CurrentFlags()]
    {
      while pending != {}
        invariant Valid() && FlagsGrew() && drains == old(drains)
        decreases AllTasks(prog) - completed
      {
        RunPendingTask();
      }
      Quiescent(prog, dispatched, summaries, CurrentFlags());
      drains := drains + [CurrentFlags()];
      changed := true;
    }

    /** The field loop of `addRootClass` when `addFields` is set: every listed field becomes accessed. */
    method MarkAllAccessed(fs: seq<FieldId>)
      modifies this`accessed
      ensures accessed == old(accessed) + set f | f in fs
    {
      for i := 0 to |fs|
        invariant accessed == old(accessed) + set k | 0 <= k < i :: fs[k]
      {
        MarkFieldAccessed(fs[i]);
        assert (set k | 0 <= k < i + 1 :: fs[k]) == (set k | 0 <= k < i :: fs[k]) + {fs[i]};
      }
      assert (set k | 0 <= k < |fs| :: fs[k]) == set f | f in fs;
    }

    /**
     * `addRootClass`: the type, its superclasses and, when requested, their
     * array classes become reachable; the instance fields declared along
     * the superclass chain become accessed only when `addFields` is set.
     */
    method AddRootClass(t: TypeId, addFields: bool, addArrayClass: bool) returns (r: TypeId)
      requires prog.Acyclic()
      modifies this`reachable, this`accessed
      ensures r == t
      ensures reachable == old(reachable) + prog.RootClassTypes(t, addArrayClass)
      ensures addFields ==> accessed == old(accessed) + prog.RootClassFields(t)
      ensures !addFields ==> accessed == old(accessed)
      decreases if addArrayClass then 1 else 0, t
    {
      if addFields {
        MarkAllAccessed(prog.declaredInstanceFields(t));
      }
      var _ := MarkTypeReachable(t);
      if t in prog.superclass {
        var _ := AddRootClass(prog.superclass[t], addFields, addArrayClass);
      } else {
        assert reachable == old(reachable) + {t};
      }
      assert accessed == old(accessed) + (if addFields then prog.RootClassFields(t) else {});
      assert reachable == old(reachable) + {t} + (if t in prog.superclass then prog.RootClassTypes(prog.superclass[t], addArrayClass) else {});
      if addArrayClass {
        var _ := AddRootClass(prog.arrayClass(t), false, false);
      }
      r := t;
    }

    /**
     * `addRootField`: after registering the class, the first instance field
     * (superclass fields first) with the given name becomes accessed and its
     * type is returned; there is an error when no field has that name.
     */
    method AddRootField(t: TypeId, name: string) returns (r: Result<TypeId, Error>)
      requires prog.Acyclic()
      modifies this`reachable, this`accessed
      ensures reachable == old(reachable) + prog.RootClassTypes(t, false)
      ensures FirstNamed(prog, prog.AllInstanceFields(t), name).None? ==>
        r == Err(FieldNotFound(name)) && accessed == old(accessed)
      ensures FirstNamed(prog, prog.AllInstanceFields(t), name).Some? ==>
        && r == Ok(prog.fieldType(FirstNamed(prog, prog.AllInstanceFields(t), name).value))
        && accessed == old(accessed) + {FirstNamed(prog, prog.AllInstanceFields(t), name).value}
    {
      var _ := AddRootClass(t, false, false);
      var fs := prog.AllInstanceFields(t);
      for i := 0 to |fs|
        invariant accessed == old(accessed)
        invariant forall k :: 0 <= k < i ==> prog.fieldName(fs[k]) != name
      {
        if prog.fieldName(fs[i]) == name {
          MarkFieldAccessed(fs[i]);
          FirstNamedSkips(prog, fs, name, i);
          return Ok(prog.fieldType(fs[i]));
        }
      }
      FirstNamedSkips(prog, fs, name, |fs|);
      return Err(FieldNotFound(name));
    }

    /**
     * `registerForeignCalls`: every foreign call and math intrinsic node
     * registers its foreign call, and every frame state with a method makes
     * that method's declaring class reachable; nothing else changes.
     */
    method RegisterGraphForeignCalls(g: Graph)
      requires Core() && prog.Valid()
      modifies this`reachable, this`roots, this`instantiated, this`invoked, this`implInvoked, this`dispatched, this`pending, this`posted
      ensures Core()
      ensures CurrentFlags() == GraphNodesEffect(prog, g.nodes, old(CurrentFlags()))
      ensures invoked - dispatched == old(invoked - dispatched) && old(dispatched) <= dispatched
      ensures forall n :: n in g.nodes ==> NodeRegistered(prog, n, reachable, roots)
      ensures embeddedRoots == old(embeddedRoots)
    {
      for i := 0 to |g.nodes|
        invariant Core()
        invariant CurrentFlags() == GraphNodesEffect(prog, g.nodes[..i], old(CurrentFlags()))
        invariant invoked - dispatched == old(invoked - dispatched) && old(dispatched) <= dispatched
      {
        ghost var fi := CurrentFlags();
        GraphNodeStep(g.nodes, i);
        GraphNodesEffectStep(prog, g.nodes, i, old(CurrentFlags()), fi, CurrentFlags());
      }
      assert g.nodes[..|g.nodes|] == g.nodes;
      GraphNodesRegistered(prog, g.nodes, old(CurrentFlags()), CurrentFlags());
    }

    /** One iteration of `registerForeignCalls`: node `i` of `ns` is registered. */
    method GraphNodeStep(ns: seq<Node>, i: nat)
      requires Core() && prog.Valid() && i < |ns|
      modifies this`reachable, this`roots, this`instantiated, this`invoked, this`implInvoked, this`dispatched, this`pending, this`posted
      ensures Core()
      ensures CurrentFlags() == WithRoots(prog, old(CurrentFlags()), ForeignTargets(prog, NodeDescriptors(prog, ns[i])))
                                .(reachable := old(reachable) + FrameClass(prog, ns[i]))
      ensures invoked - dispatched == old(invoked - dispatched) && old(dispatched) <= dispatched
    {
      match ns[i]
      case ForeignCallNode(d) =>
        RegisterForeignCall(d);
        ForeignTargetsOne(prog, d);
      case UnaryMathNode(sig) =>
        RegisterForeignCall(prog.descriptorOf(sig));
        ForeignTargetsOne(prog, prog.descriptorOf(sig));
      case BinaryMathNode(sig) =>
        RegisterForeignCall(prog.descriptorOf(sig));
        ForeignTargetsOne(prog, prog.descriptorOf(sig));
      case FrameStateNode(om) =>
        if om.Some? {
          var _ := MarkTypeReachable(prog.declaringClass(om.value));
        }
        assert RootClasses(prog, {}) == {};
      case OtherNode =>
        assert RootClasses(prog, {}) == {};
    }

    /**
     * `processGraph`: the graph's summary, without its method lists, is
     * processed, and then the graph's foreign calls are registered. When
     * the summary provider fails, the failure propagates and nothing changes.
     */
    method ProcessGraph(g: Graph) returns (r: Result<(), Error>)
      requires Core() && prog.Valid()
      modifies this`reachable, this`instantiated, this`inHeap, this`invoked, this`implInvoked, this`roots
      modifies this`read, this`written, this`embeddedRoots, this`dispatched, this`pending, this`posted
      ensures Core()
      ensures invoked - dispatched == old(invoked - dispatched) && old(dispatched) <= dispatched
      ensures prog.graphSummaryOf(g).None? ==>
        && r == Err(SummaryUnavailable(g.graphMethod))
        && CurrentFlags() == old(CurrentFlags()) && embeddedRoots == old(embeddedRoots)
      ensures prog.graphSummaryOf(g).Some? ==>
        && r == Ok(())
        && CurrentFlags() == GraphNodesEffect(prog, g.nodes,
             SummaryEffect(prog, prog.graphSummaryOf(g).value.WithoutMethods(), old(CurrentFlags())))
        && embeddedRoots == old(embeddedRoots) + TrackedRoots(prog, g.graphMethod, prog.graphSummaryOf(g).value.embeddedConstants)
        && Applied(prog, prog.graphSummaryOf(g).value.WithoutMethods(), CurrentFlags())
        && forall n :: n in g.nodes ==> NodeRegistered(prog, n, reachable, roots)
    {
      var provided := prog.graphSummaryOf(g);
      if provided.None? {
        return Err(SummaryUnavailable(g.graphMethod));
      }
      ProcessGraphSummary(g, provided.value.WithoutMethods());
      r := Ok(());
    }

    /** `processGraph` once the provider has given the summary `s`, stripped of its method lists. */
    method ProcessGraphSummary(g: Graph, s: Summary)
      requires Core() && prog.Valid() && prog.SummaryInUniverse(s)
      modifies this`reachable, this`instantiated, this`inHeap, this`invoked, this`implInvoked, this`roots
      modifies this`read, this`written, this`embeddedRoots, this`dispatched, this`pending, this`posted
      ensures Core()
      ensures invoked - dispatched == old(invoked - dispatched) && old(dispatched) <= dispatched
      ensures CurrentFlags() == GraphNodesEffect(prog, g.nodes, SummaryEffect(prog, s, old(CurrentFlags())))
      ensures embeddedRoots == old(embeddedRoots) + TrackedRoots(prog, g.graphMethod, s.embeddedConstants)
      ensures Applied(prog, s, CurrentFlags())
      ensures forall n :: n in g.nodes ==> NodeRegistered(prog, n, reachable, roots)
    {
      ProcessSummary(g.graphMethod, s);
      ghost var f := CurrentFlags();
      RegisterGraphForeignCalls(g);
      GraphNodesEffectGrows(prog, g.nodes, f);
      AppliedMonotone(prog, s, f, GraphNodesEffect(prog, g.nodes, f));
    }

    /** The loop registering a callback's root methods, one `addRootMethod` each. */
    method AddRootMethodsLoop(ms: seq<MethodId>)
      requires Core() && prog.Valid() && forall m :: m in ms ==> m in prog.methods
      modifies this`roots, this`instantiated, this`invoked, this`implInvoked, this`dispatched, this`pending, this`posted
      ensures Core()
      ensures CurrentFlags() == WithRoots(prog, old(CurrentFlags()), set m | m in ms)
      ensures invoked - dispatched == old(invoked - dispatched) && old(dispatched) <= dispatched
    {
      for i := 0 to |ms|
        invariant Core()
        invariant CurrentFlags() == WithRoots(prog, old(CurrentFlags()), Members(ms[..i]))
        invariant invoked - dispatched == old(invoked - dispatched) && old(dispatched) <= dispatched
      {
        ghost var fi := CurrentFlags();
        var _ := AddRootMethodDispatched(ms[i]);
        RootsStep(prog, old(CurrentFlags()), ms, i, fi, CurrentFlags());
      }
      assert ms[..|ms|] == ms;
    }

    /**
     * The root methods a callback registers between two drains: exactly
     * they become roots. The fixpoint invariants survive because every
     * flag set here has its task posted.
     */
    method AddRootMethods(ms: seq<MethodId>)
      requires Valid() && forall m :: m in ms ==> m in prog.methods
      modifies this`roots, this`instantiated, this`invoked, this`implInvoked, this`dispatched, this`pending, this`posted
      ensures Valid()
      ensures CurrentFlags() == WithRoots(prog, old(CurrentFlags()), set m | m in ms)
      ensures ms == [] ==> pending == old(pending)
      ensures pending == old(pending) <==> RootsIdle(prog, old(CurrentFlags()), Members(ms))
    {
      ghost var f0, d0, h0, q0 := CurrentFlags(), dispatched, posted, pending;
      AddRootMethodsLoop(ms);
      AllDispatched(f0.invoked, d0, invoked, dispatched);
      PostedGrows(h0, posted, f0, CurrentFlags(), d0, dispatched);
      PostingKeeps(prog, f0, d0, h0, q0, summaries, completed, CurrentFlags(), dispatched, posted, pending);
      RootsPost(prog, f0, h0, completed, CurrentFlags(), posted, Members(ms));
      if ms == [] {
        assert (set m | m in ms) == {};
        WithRootsNone(prog, f0);
        PostedDetermined(h0, posted, instantiated, implInvoked, dispatched);
      }
    }

    /**
     * `runAnalysis`: alternates draining the executor with the end-condition
     * callback. It fails once more than `MaxIterations` iterations ran, or
     * when the callback ends the analysis after growing the universe; it
     * goes on while tasks are pending, and it returns only when the
     * callback ends the analysis, nothing is pending and the heap verifier
     * changed nothing, with the dispatch closure and every summary applied.
     * Each iteration drains once, and the flags each drain left are logged
     * in `drains`; the outcome is `OutcomeOver` that log, the first
     * iteration that ends the run (`EndsAt`) deciding it. An iteration that
     * surely ends the run whatever the state is one such iteration, so the
     * first callback to end the analysis decides those cases outright
     * (`OutcomeDecided`).
     */
    method RunAnalysis(o: Oracle) returns (out: Outcome)
      requires Valid()
      requires forall n: nat, m :: m in o.hook(n).newRoots ==> m in prog.methods
      modifies this
      ensures Valid()
      ensures out.NonConvergence? ==>
        out.iterations == MaxIterations + 1 && out.analysisChanged && NoStopBefore(o, MaxIterations + 1)
      ensures out.ConsistencyViolation? ==>
        && 1 <= out.atIteration <= MaxIterations && o.hook(out.atIteration).endCondition
        && GrowsUniverse(o.hook(out.atIteration)) && NoStopBefore(o, out.atIteration)
      ensures out.Converged? ==>
        && 1 <= out.iterations <= MaxIterations && NoStopBefore(o, out.iterations)
        && o.hook(out.iterations).endCondition && !GrowsUniverse(o.hook(out.iterations))
        && !o.heapVerifierModifies(out.iterations)
        && pending == {}
        && DispatchClosed(prog, instantiated, invoked, implInvoked)
        && SummariesClosed(prog, summaries, CurrentFlags())
      ensures forall j :: FirstEnd(o, j) && GrowsUniverse(o.hook(j)) ==> out == ConsistencyViolation(j)
      ensures forall j :: FirstEnd(o, j) && Stops(o, j) && !GrowsUniverse(o.hook(j)) ==> out == Converged(j)
      ensures (forall j :: 1 <= j <= MaxIterations ==> !o.hook(j).endCondition) ==> out == NonConvergence(MaxIterations + 1, true)
      ensures old(drains) <= drains
      ensures OutcomeOver(prog, o, drains[|old(drains)|..], out)
    {
      var numIterations: nat := 0;
      // growth of the universe's type, method and field tables since the start
      var typeCount, methodCount, fieldCount := 0, 0, 0;
      // the flags after each drain of this run
      ghost var log: seq<Flags> := [];
      while true
        invariant Valid() && numIterations <= MaxIterations
        invariant drains == old(drains) + log && |log| == numIterations && NoEndIn(prog, o, log)
        decreases MaxIterations - numIterations
      {
        var end;
        ghost var prior := log;
        ghost var drained: Flags;
        end, typeCount, methodCount, fieldCount, drained := OuterIteration(o, numIterations + 1, typeCount, methodCount, fieldCount);
        SplitAppend(old(drains), log, drained);
        log := log + [drained];
        numIterations := numIterations + 1;
        if end.Some? {
          out := end.value;
          LastDrain(prog, o, prior, drained, out);
          return;
        }
        NoEndStep(prog, o, prior, drained);
      }
    }

    /**
     * Iteration `n` of `runAnalysis`: the executor is drained, leaving the
     * flags `drained`; past `MaxIterations` the run fails to converge, and
     * otherwise the callback and the checks after it decide whether the
     * run ends here.
     */
    method OuterIteration(o: Oracle, n: nat, typeCount: nat, methodCount: nat, fieldCount: nat)
      returns (end: Option<Outcome>, typeCount': nat, methodCount': nat, fieldCount': nat, ghost drained: Flags)
      requires Valid() && 1 <= n <= MaxIterations + 1
      requires forall m :: m in o.hook(n).newRoots ==> m in prog.methods
      modifies this
      ensures Valid() && drains == old(drains) + [drained]
      ensures n > MaxIterations ==> end == Some(NonConvergence(n, true))
      ensures n <= MaxIterations ==> (end.None? <==> !EndsAt(prog, o, n, drained))
      ensures n <= MaxIterations && end.Some? ==>
        end.value == if GrowsUniverse(o.hook(n)) then ConsistencyViolation(n) else Converged(n)
      ensures end == Some(Converged(n)) ==>
        && pending == {}
        && DispatchClosed(prog, instantiated, invoked, implInvoked)
        && SummariesClosed(prog, summaries, CurrentFlags())
    {
      var analysisChanged := Finish();
      drained := CurrentFlags();
      if n > MaxIterations {
        end := Some(NonConvergence(n, analysisChanged));
        typeCount', methodCount', fieldCount' := typeCount, methodCount, fieldCount;
        return;
      }
      end, typeCount', methodCount', fieldCount' := AfterDrain(o, n, typeCount, methodCount, fieldCount);
    }

    /**
     * The rest of iteration `n` of `runAnalysis` after its drain: the
     * callback registers its root methods and grows the universe tables,
     * whose sizes are the three counters. When the callback ends the
     * analysis, a grown universe is the consistency failure, pending tasks
     * send the run on to the next iteration, and otherwise the run
     * converges unless the heap verifier changed the analysis. The run
     * ends here exactly when `EndsAt` holds for the drained flags.
     */
    method AfterDrain(o: Oracle, n: nat, typeCount: nat, methodCount: nat, fieldCount: nat)
      returns (end: Option<Outcome>, typeCount': nat, methodCount': nat, fieldCount': nat)
      requires Valid() && pending == {} && 1 <= n <= MaxIterations
      requires forall m :: m in o.hook(n).newRoots ==> m in prog.methods
      modifies this`roots, this`instantiated, this`invoked, this`implInvoked, this`dispatched, this`pending, this`posted
      ensures Valid()
      ensures CurrentFlags() == WithRoots(prog, old(CurrentFlags()), Members(o.hook(n).newRoots))
      ensures typeCount' == typeCount + o.hook(n).newTypes && methodCount' == methodCount + o.hook(n).newMethods
      ensures fieldCount' == fieldCount + o.hook(n).newFields
      ensures end.None? <==> !EndsAt(prog, o, n, old(CurrentFlags()))
      ensures end.Some? ==> end.value == if GrowsUniverse(o.hook(n)) then ConsistencyViolation(n) else Converged(n)
      ensures end == Some(Converged(n)) ==>
        && pending == {}
        && DispatchClosed(prog, instantiated, invoked, implInvoked)
        && SummariesClosed(prog, summaries, CurrentFlags())
    {
      end := None;
      var numTypes, numMethods, numFields := typeCount, methodCount, fieldCount;
      // analysisEndCondition.apply: the callback registers root methods and may grow the universe
      var step := o.hook(n);
      AddRootMethods(step.newRoots);
      typeCount', methodCount', fieldCount' := typeCount + step.newTypes, methodCount + step.newMethods, fieldCount + step.newFields;
      if step.endCondition {
        if numTypes != typeCount' || numMethods != methodCount' || numFields != fieldCount' {
          end := Some(ConsistencyViolation(n));
          return;
        }
        if pending != {} {
          // pending operations: the run goes on with the next iteration
          return;
        }
        if !o.heapVerifierModifies(n) {
          Quiescent(prog, dispatched, summaries, CurrentFlags());
          end := Some(Converged(n));
        }
      }
    }
  }

  /** A summary that names nothing. */
  const EmptySummary := Summary([], [], [], [], [], [], [], [], [])

  /** Processing a summary that names nothing sets no flag. */
  lemma EmptySummaryEffect(p: Program, f: Flags)
    ensures SummaryEffect(p, EmptySummary, f) == f
  {
    assert RootClasses(p, {}) == {};
  }

  /**
   * What the scenarios below need of a program: class 1 is a subclass of
   * class 0 and overrides class 0's instance method 0, whose summary is
   * empty.
   */
  ghost predicate OverrideShape(p: Program) {
    && p.Valid() && p.types == {0, 1} && 0 in p.methods
    && p.supertypes(0) == {0} && p.supertypes(1) == {0, 1}
    && p.declaringClass(0) == 0 && !p.isStatic(0)
    && p.resolve(0, 0, 0) == Some(0) && p.resolve(1, 0, 0) == Some(1)
    && p.summaryOf(0) == Some(EmptySummary)
  }

  /**
   * Two classes: class 1 extends class 0 and overrides its instance method 0
   * with method 1. Every method has an empty summary and no foreign call
   * has a target.
   */
  function OverrideProgram(): (p: Program)
    ensures OverrideShape(p)
  {
    Program(
      types := {0, 1}, methods := {0, 1}, superclass := map[1 := 0],
      arrayClass := t => t, supertypes := t => if t == 1 then {0, 1} else {0},
      declaredInstanceFields := t => [], fieldName := x => "", fieldType := x => 0,
      declaringClass := m => m, isStatic := m => false,
      resolve := (t, m, c) => if m == 0 && t == 1 then Some(1) else if m == 0 then Some(0) else None,
      summaryOf := m => Some(EmptySummary), graphSummaryOf := g => Some(EmptySummary),
      trackConstant := c => false, handleForeignCall := d => None, descriptorOf := g => 0)
  }

  /** Against class 0 itself, method 0 resolves to itself. */
  lemma OverrideResolvesOnBase(p: Program)
    requires OverrideShape(p)
    ensures TypeResolutions(p, 0, {0}) == {0}
  {
    assert Dispatches(p, 0, 0);
  }

  /** Once method 0 is a root, `onTypeInstantiated(0)` changes no flag. */
  lemma RootTypeTaskChangesNothing(p: Program, f: Flags, inv: set<MethodId>)
    requires OverrideShape(p) && inv == f.invoked
    requires f == Flags({}, {0, 1}, {}, {0}, {0}, {0}, {}, {})
    ensures f.(implInvoked := f.implInvoked + TypeResolutions(p, 0, inv)) == f
  {
    assert inv == {0};
    OverrideResolvesOnBase(p);
    AlreadyImplemented(f, 0);
  }

  /** Adding a method that already is implementation-invoked changes no flag. */
  lemma AlreadyImplemented(f: Flags, m: MethodId)
    requires m in f.implInvoked
    ensures f.(implInvoked := f.implInvoked + {m}) == f
  {
    assert f.implInvoked + {m} == f.implInvoked;
  }

  /** Dispatched sets within the same invoked methods that leave the same methods undispatched are equal. */
  lemma SameDispatched(inv: set<MethodId>, d0: set<MethodId>, d1: set<MethodId>)
    requires d0 <= inv && d1 <= inv && inv - d1 == inv - d0
    ensures d1 == d0
  {
    forall m | m in d1
      ensures m in d0
    {
      assert m !in inv - d1;
    }
  }

  /** When the task of every set flag has completed, no posted task is pending. */
  lemma Drained(h: set<Task>, c: set<Task>, inst: set<TypeId>, impl: set<MethodId>, disp: set<MethodId>)
    requires TasksMatch(h, inst, impl, disp)
    requires forall t :: t in inst ==> TypeInstantiatedTask(t) in c
    requires forall m :: m in impl ==> ImplementationInvokedTask(m) in c
    requires forall m :: m in disp ==> MethodInvokedTask(m) in c
    ensures h - c == {}
  {
    forall x | x in h
      ensures x in c
    {
      match x
      case TypeInstantiatedTask(t) =>
      case ImplementationInvokedTask(m) =>
      case MethodInvokedTask(m) =>
    }
  }

  /** Instantiating class 1 while nothing is invoked, and draining the executor. */
  method SubtypeInstantiated(p: Program) returns (a: Analysis)
    requires OverrideShape(p)
    ensures fresh(a) && a.prog == p && a.Core()
    ensures a.CurrentFlags() == Flags({}, {1}, {}, {}, {}, {}, {}, {})
    ensures a.dispatched == {} && a.completed == {TypeInstantiatedTask(1)} && a.pending == {}
  {
    a := new Analysis(p);
    var _ := a.MarkTypeInstantiated(1);
    ghost var f := a.CurrentFlags();
    assert f == Flags({}, {1}, {}, {}, {}, {}, {}, {});
    a.OnTypeInstantiated(1);
    assert TypeResolutions(p, 1, {}) == {};
    assert a.CurrentFlags() == f;
    a.CompleteTask(TypeInstantiatedTask(1));
    Drained(a.posted, a.completed, a.instantiated, a.implInvoked, a.dispatched);
  }

  /**
   * `addRootMethod` as written, after a subtype was instantiated: the
   * executor runs dry, yet the override that instantiating class 1 makes
   * reachable through root method 0 is never implementation-invoked,
   * because `onMethodInvoked(0)` was never posted.
   */
  method RootMethodAfterSubtype(p: Program) returns (a: Analysis)
    requires OverrideShape(p)
    ensures a.prog == p && a.pending == {}
    ensures 1 in a.instantiated && 0 in a.invoked && Dispatches(p, 1, 0)
    ensures 1 !in a.implInvoked
    ensures !DispatchClosed(p, a.instantiated, a.invoked, a.implInvoked)
  {
    a := SubtypeInstantiated(p);
    var _ := a.AddRootMethod(0);
    assert a.CurrentFlags() == Flags({}, {0, 1}, {}, {0}, {0}, {0}, {}, {});
    DrainRoot(a);
  }

  /** The executor runs the two tasks `addRootMethod(0)` posted: `onTypeInstantiated(0)` and `onMethodImplementationInvoked(0)`. */
  method DrainRoot(a: Analysis)
    requires OverrideShape(a.prog) && a.Core()
    requires a.CurrentFlags() == Flags({}, {0, 1}, {}, {0}, {0}, {0}, {}, {})
    requires a.dispatched == {} && a.completed == {TypeInstantiatedTask(1)}
    modifies a
    ensures a.Core() && a.pending == {}
    ensures a.CurrentFlags() == Flags({}, {0, 1}, {}, {0}, {0}, {0}, {}, {})
  {
    RunRootTypeTask(a);
    RunRootImplementationTask(a);
  }

  /** `onTypeInstantiated(0)` finds method 0 already implementation-invoked. */
  method RunRootTypeTask(a: Analysis)
    requires OverrideShape(a.prog) && a.Core()
    requires a.CurrentFlags() == Flags({}, {0, 1}, {}, {0}, {0}, {0}, {}, {})
    requires a.dispatched == {} && a.completed == {TypeInstantiatedTask(1)}
    modifies a
    ensures OverrideShape(a.prog) && a.Core()
    ensures a.CurrentFlags() == Flags({}, {0, 1}, {}, {0}, {0}, {0}, {}, {}) && a.dispatched == {}
    ensures TypeInstantiatedTask(0) in a.completed && TypeInstantiatedTask(1) in a.completed
    ensures ImplementationInvokedTask(0) !in a.completed
  {
    ghost var f := a.CurrentFlags();
    a.OnTypeInstantiated(0);
    RootTypeTaskChangesNothing(a.prog, f, a.invoked);
    assert TypeInstantiatedTask(0) in a.posted;
    a.CompleteTask(TypeInstantiatedTask(0));
  }

  /** `onMethodImplementationInvoked(0)` processes the empty summary of method 0, and the executor runs dry. */
  method RunRootImplementationTask(a: Analysis)
    requires OverrideShape(a.prog) && a.Core()
    requires a.CurrentFlags() == Flags({}, {0, 1}, {}, {0}, {0}, {0}, {}, {}) && a.dispatched == {}
    requires TypeInstantiatedTask(0) in a.completed && TypeInstantiatedTask(1) in a.completed
    requires ImplementationInvokedTask(0) !in a.completed
    modifies a
    ensures a.Core() && a.pending == {}
    ensures a.CurrentFlags() == Flags({}, {0, 1}, {}, {0}, {0}, {0}, {}, {})
  {
    ghost var f := a.CurrentFlags();
    EmptySummaryEffect(a.prog, f);
    a.OnMethodImplementationInvoked(0);
    SameDispatched(f.invoked, {}, a.dispatched);
    assert ImplementationInvokedTask(0) in a.posted;
    a.CompleteTask(ImplementationInvokedTask(0));
    Drained(a.posted, a.completed, a.instantiated, a.implInvoked, a.dispatched);
  }

  /** Against class 1, method 0 resolves to the override. */
  lemma OverrideResolvesOnSubclass(p: Program, inst: set<TypeId>)
    requires OverrideShape(p) && 1 in inst
    ensures 1 in MethodResolutions(p, 0, inst)
  {
    assert Dispatches(p, 1, 0);
  }

  /**
   * The same steps with the root added through `markMethodInvoked`: its
   * `onMethodInvoked(0)` task is posted, and running it makes the override
   * implementation-invoked.
   */
  method RootMethodAfterSubtypeDispatched(p: Program) returns (a: Analysis)
    requires OverrideShape(p)
    ensures a.prog == p && a.Core()
    ensures 1 in a.instantiated && 0 in a.invoked && 1 in a.implInvoked
  {
    a := SubtypeInstantiated(p);
    var _ := a.AddRootMethodDispatched(0);
    assert 0 in a.invoked && 0 !in a.invoked - a.dispatched;
    assert MethodInvokedTask(0) in a.posted;
    OverrideResolvesOnSubclass(p, a.instantiated);
    a.OnMethodInvoked(0);
  }
}
