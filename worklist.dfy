/** The batch verification worklist of the Gamma verification handler, as
    specification functions: the data it works on, what one call of the
    verifier does to the list of retained traces, what one iteration of the
    worklist loop does, and the whole loop. The model checkers, the property
    serializers, the trace utilities, the covered-property reducer and the
    back-annotator are parameters (arrow-typed fields) and are never given a
    meaning of their own. */
module Worklist {
  import opened Common

  /** Identity of a StateFormula object (EMF objects compare by identity). */
  type FormulaRef = nat
  /** Identity of one step of an execution trace. */
  type StepRef = nat
  /** Identity of a Component (a statechart model). */
  type ComponentRef = nat

  /** An execution trace: the component it was recorded on and its steps. */
  datatype ExecutionTrace = ExecutionTrace(component: ComponentRef, steps: seq<StepRef>)

  /** A formula of a property package (its comments are not modelled). */
  datatype CommentableStateFormula = CommentableStateFormula(formula: FormulaRef)

  /** A property package: an ordered list of formulas. */
  datatype PropertyPackage = PropertyPackage(formulas: seq<CommentableStateFormula>)

  /** The file a verifier is run on: a serialized formula saved to the hidden
      property file, or a query file given by its location. */
  datatype QuerySource = SerializedQuery(text: string) | QueryFile(location: string)

  /** What a verifier returns: a verdict and possibly a trace (null in Java). */
  datatype VerifierResult = VerifierResult(result: ThreeStateBoolean, trace: Option<ExecutionTrace>)

  /** One (query, verdict) record of a run. */
  datatype VerificationResult = VerificationResult(query: string, result: ThreeStateBoolean)

  /** A model checker with its property serializer (UPPAAL, Theta or XSTS-UPPAAL). */
  datatype Backend = Backend(
    serialize: FormulaRef -> string,       // PropertySerializer.serialize
    verify: QuerySource -> VerifierResult) // AbstractVerification.execute(modelFile, queryFile)

  /** The trace utilities the handler calls, with their Java counterparts. */
  datatype TraceServices = TraceServices(
    isCovered: (ExecutionTrace, seq<ExecutionTrace>) -> bool,                    // TraceUtil.isCovered
    removeCoveredSteps: ExecutionTrace -> ExecutionTrace,                         // TraceUtil.removeCoveredSteps
    removeCoveredExecutionTraces: seq<ExecutionTrace> -> seq<ExecutionTrace>,     // TraceUtil.removeCoveredExecutionTraces
    coveredProperties: (seq<FormulaRef>, ExecutionTrace) -> seq<FormulaRef>,     // CoveredPropertyReducer.execute
    loadOriginalComponent: ComponentRef -> ComponentRef,                          // StatechartEcoreUtil.loadOriginalComponent
    backAnnotate: (ExecutionTrace, ComponentRef) -> ExecutionTrace)               // UnfoldedExecutionTraceBackAnnotator.execute

  /** Every trace has at least one step. */
  predicate AllNonEmpty(traces: seq<ExecutionTrace>)
  {
    forall i :: 0 <= i < |traces| ==> |traces[i].steps| > 0
  }

  /** a is a subsequence of b: b with some elements deleted, order kept. */
  predicate Subseq<T(==)>(a: seq<T>, b: seq<T>)
    decreases |b|
  {
    if a == [] then true
    else if b == [] then false
    else if a[0] == b[0] then Subseq(a[1..], b[1..])
    else Subseq(a, b[1..])
  }

  /** No element occurs twice. */
  predicate NoDuplicates<T(==)>(s: seq<T>)
    decreases |s|
  {
    s == [] || (s[0] !in s[1..] && NoDuplicates(s[1..]))
  }

  lemma {:induction false} SubseqRefl<T>(a: seq<T>)
    ensures Subseq(a, a)
    decreases |a|
  {
    if a != [] {
      SubseqRefl(a[1..]);
    }
  }

  lemma {:induction false} SubseqDropHead<T>(a: seq<T>, b: seq<T>)
    requires a != [] && Subseq(a, b)
    ensures Subseq(a[1..], b)
    decreases |b|, 1
  {
    if a[0] == b[0] {
      SubseqExtend(a[1..], b);
    } else {
      SubseqDropHead(a, b[1..]);
      SubseqExtend(a[1..], b);
    }
  }

  lemma {:induction false} SubseqExtend<T>(a: seq<T>, b: seq<T>)
    requires b != [] && Subseq(a, b[1..])
    ensures Subseq(a, b)
    decreases |b|, 0
  {
    if a != [] && a[0] == b[0] {
      SubseqDropHead(a, b[1..]);
    }
  }

  /** Subsequences of subsequences are subsequences. */
  lemma {:induction false} SubseqTrans<T>(a: seq<T>, b: seq<T>, c: seq<T>)
    requires Subseq(a, b) && Subseq(b, c)
    ensures Subseq(a, c)
    decreases |c|
  {
    if a != [] {
      assert b != [] && c != [];
      if b[0] == c[0] {
        if a[0] == b[0] {
          SubseqTrans(a[1..], b[1..], c[1..]);
        } else {
          SubseqTrans(a, b[1..], c[1..]);
          SubseqExtend(a, c);
        }
      } else {
        SubseqTrans(a, b, c[1..]);
        SubseqExtend(a, c);
      }
    }
  }

  /** A subsequence holds only elements of the sequence, and is no longer. */
  lemma {:induction false} SubseqElements<T>(a: seq<T>, b: seq<T>)
    requires Subseq(a, b)
    ensures |a| <= |b|
    ensures forall x :: x in a ==> x in b
    decreases |b|
  {
    if a != [] {
      assert a == [a[0]] + a[1..] && b == [b[0]] + b[1..];
      if a[0] == b[0] {
        SubseqElements(a[1..], b[1..]);
      } else {
        SubseqElements(a, b[1..]);
      }
    }
  }

  /** A subsequence of a sequence without duplicates has none either. */
  lemma {:induction false} SubseqNoDuplicates<T>(a: seq<T>, b: seq<T>)
    requires Subseq(a, b) && NoDuplicates(b)
    ensures NoDuplicates(a)
    decreases |b|
  {
    if a != [] {
      if a[0] == b[0] {
        SubseqNoDuplicates(a[1..], b[1..]);
        SubseqElements(a[1..], b[1..]);
      } else {
        SubseqNoDuplicates(a, b[1..]);
      }
    }
  }

  /** `queue.removeAll(covered)`: every element equal to a covered formula goes, the rest stays in order. */
  function RemoveAll(queue: seq<FormulaRef>, covered: seq<FormulaRef>): (r: seq<FormulaRef>)
    ensures Subseq(r, queue)
    ensures forall f :: f in r <==> f in queue && f !in covered
    decreases |queue|
  {
    if queue == [] then []
    else if queue[0] in covered then
      var r := RemoveAll(queue[1..], covered);
      SubseqExtend(r, queue);
      r
    else [queue[0]] + RemoveAll(queue[1..], covered)
  }

  /** The formulas of one package, in package order. */
  function PackageFormulas(p: PropertyPackage): (r: seq<FormulaRef>)
    ensures |r| == |p.formulas|
    ensures forall i :: 0 <= i < |r| ==> r[i] == p.formulas[i].formula
  {
    seq(|p.formulas|, i requires 0 <= i < |p.formulas| => p.formulas[i].formula)
  }

  /** The initial worklist: all formulas of all packages, package after package. */
  function AllFormulas(packages: seq<PropertyPackage>): (r: seq<FormulaRef>)
    decreases |packages|
  {
    if packages == [] then [] else PackageFormulas(packages[0]) + AllFormulas(packages[1..])
  }

  /** The worklist of consecutive package lists is the concatenation of their worklists. */
  lemma {:induction false} AllFormulasAppend(ps: seq<PropertyPackage>, qs: seq<PropertyPackage>)
    ensures AllFormulas(ps + qs) == AllFormulas(ps) + AllFormulas(qs)
    decreases |ps|
  {
    if ps != [] {
      assert (ps + qs)[1..] == ps[1..] + qs;
      AllFormulasAppend(ps[1..], qs);
    } else {
      assert ps + qs == qs;
    }
  }

  /** Every formula of every package is in the worklist. */
  lemma {:induction false} AllFormulasMembers(packages: seq<PropertyPackage>, k: nat, i: nat)
    requires k < |packages| && i < |packages[k].formulas|
    ensures packages[k].formulas[i].formula in AllFormulas(packages)
    decreases k
  {
    if k > 0 {
      AllFormulasMembers(packages[1..], k - 1, i);
    } else {
      assert PackageFormulas(packages[0])[i] == packages[k].formulas[i].formula;
    }
  }

  /** Conversely, the worklist holds nothing but formulas of the packages. */
  lemma {:induction false} AllFormulasOnlyFromPackages(packages: seq<PropertyPackage>, f: FormulaRef)
    requires f in AllFormulas(packages)
    ensures exists k, i :: 0 <= k < |packages| && 0 <= i < |packages[k].formulas| && packages[k].formulas[i].formula == f
    decreases |packages|
  {
    if f in PackageFormulas(packages[0]) {
      var i :| 0 <= i < |packages[0].formulas| && PackageFormulas(packages[0])[i] == f;
      assert packages[0].formulas[i].formula == f;
    } else {
      AllFormulasOnlyFromPackages(packages[1..], f);
      var k, i :| 0 <= k < |packages[1..]| && 0 <= i < |packages[1..][k].formulas| && packages[1..][k].formulas[i].formula == f;
      assert packages[k + 1].formulas[i].formula == f;
    }
  }

  /** The number of commentable formulas of the packages. */
  function FormulaCount(packages: seq<PropertyPackage>): nat
    decreases |packages|
  {
    if packages == [] then 0 else |packages[0].formulas| + FormulaCount(packages[1..])
  }

  /** The worklist holds one formula per commentable formula of the packages. */
  lemma {:induction false} AllFormulasLength(packages: seq<PropertyPackage>)
    ensures |AllFormulas(packages)| == FormulaCount(packages)
    decreases |packages|
  {
    if packages != [] {
      AllFormulasLength(packages[1..]);
    }
  }

  /** What the helper `execute(verificationTask, …)` returns and leaves in the list
      of retained traces, for one verifier run on `query`. */
  function Retain(backend: Backend, services: TraceServices, query: QuerySource,
                  traces: seq<ExecutionTrace>, isOptimize: bool): (r: (VerifierResult, seq<ExecutionTrace>))
    // the verdict is the verifier's, unchanged
    ensures r.0.result == backend.verify(query).result
    // at most one trace is added, it is the returned one and it has steps
    ensures r.1 == traces || (r.0.trace.Some? && |r.0.trace.value.steps| > 0 && r.1 == traces + [r.0.trace.value])
    // no trace from the verifier: nothing changes
    ensures backend.verify(query).trace.None? ==> r.0.trace.None? && r.1 == traces
    // an already covered trace is not returned and not kept
    ensures (isOptimize && backend.verify(query).trace.Some? && services.isCovered(backend.verify(query).trace.value, traces))
              ==> r.0.trace.None? && r.1 == traces
    // without optimisation the verifier's result is returned as it is, and its trace is kept iff it has steps
    ensures !isOptimize ==> r.0 == backend.verify(query)
    ensures !isOptimize && backend.verify(query).trace.Some? ==>
              (r.1 == traces + [backend.verify(query).trace.value] <==> |backend.verify(query).trace.value.steps| > 0)
    // with optimisation an uncovered trace comes back with its covered steps pruned,
    // and it is kept iff the pruned trace still has steps
    ensures isOptimize && backend.verify(query).trace.Some? && !services.isCovered(backend.verify(query).trace.value, traces) ==>
              && r.0.trace == Some(services.removeCoveredSteps(backend.verify(query).trace.value))
              && (r.1 == traces + [r.0.trace.value] <==> |r.0.trace.value.steps| > 0)
  {
    var result := backend.verify(query);
    match result.trace
    case None => (result, traces)
    case Some(trace) =>
      if isOptimize && services.isCovered(trace, traces) then
        (VerifierResult(result.result, None), traces)
      else
        // removeCoveredSteps prunes the very trace object the result refers to
        var pruned := if isOptimize then services.removeCoveredSteps(trace) else trace;
        (VerifierResult(result.result, Some(pruned)), if |pruned.steps| > 0 then traces + [pruned] else traces)
  }

  /** The record a dispatched formula produces: its serialization and the verdict on it. */
  function Record(backend: Backend, formula: FormulaRef): VerificationResult
  {
    var query := backend.serialize(formula);
    VerificationResult(query, backend.verify(SerializedQuery(query)).result)
  }

  /** What the loop has done so far: the formulas it dispatched (in order), the
      records it appended and the traces it kept. */
  datatype WorklistRun = WorklistRun(dispatched: seq<FormulaRef>, results: seq<VerificationResult>,
                                     traces: seq<ExecutionTrace>)

  /** One iteration of the worklist loop: poll the head, run the verifier on its
      serialization, append the record, and when optimising and a trace came back,
      remove the formulas the reducer reports as covered. */
  function Step(backend: Backend, services: TraceServices, isOptimize: bool,
                queue: seq<FormulaRef>, run: WorklistRun): (r: (seq<FormulaRef>, WorklistRun))
    requires queue != []
    // the worklist strictly shrinks and keeps the order of what remains
    ensures |r.0| < |queue| && Subseq(r.0, queue[1..])
    // the head is dispatched and exactly one record is appended for it
    ensures r.1.dispatched == run.dispatched + [queue[0]]
    ensures r.1.results == run.results + [Record(backend, queue[0])]
    // traces are only appended, at most one, and only with steps
    ensures r.1.traces == run.traces || (|r.1.traces| == |run.traces| + 1 && r.1.traces[..|run.traces|] == run.traces
                                         && |r.1.traces[|run.traces|].steps| > 0)
    // coverage removal only when optimising and a trace came back
    ensures !isOptimize ==> r.0 == queue[1..]
    ensures (Retain(backend, services, SerializedQuery(backend.serialize(queue[0])), run.traces, isOptimize).0.trace.None?)
              ==> r.0 == queue[1..]
    // the traces are the ones the helper `execute` leaves
    ensures r.1.traces == Retain(backend, services, SerializedQuery(backend.serialize(queue[0])), run.traces, isOptimize).1
    // when optimising and a trace came back, exactly the formulas the reducer reports as covered leave the worklist
    ensures var t := Retain(backend, services, SerializedQuery(backend.serialize(queue[0])), run.traces, isOptimize).0.trace;
            isOptimize && t.Some? ==>
              forall f :: f in r.0 <==> f in queue[1..] && f !in services.coveredProperties(queue[1..], t.value)
  {
    var formula := queue[0];
    var rest := queue[1..];
    var query := backend.serialize(formula);
    var (result, traces) := Retain(backend, services, SerializedQuery(query), run.traces, isOptimize);
    var remaining :=
      if result.trace.Some? && isOptimize then
        var covered := services.coveredProperties(rest, result.trace.value);
        if |covered| > 0 then RemoveAll(rest, covered) else rest
      else rest;
    SubseqRefl(rest);
    SubseqElements(remaining, rest);
    (remaining, WorklistRun(run.dispatched + [formula], run.results + [VerificationResult(query, result.result)], traces))
  }

  /** The whole worklist loop from a given state: iterate Step until the worklist is empty. */
  function Drain(backend: Backend, services: TraceServices, isOptimize: bool,
                 queue: seq<FormulaRef>, run: WorklistRun): (r: WorklistRun)
    decreases |queue|
  {
    if queue == [] then run
    else
      var (queue', run') := Step(backend, services, isOptimize, queue, run);
      Drain(backend, services, isOptimize, queue', run')
  }

  /** Nothing dispatched, nothing recorded, no trace. */
  const EmptyRun := WorklistRun([], [], [])

  /** The records match the dispatched formulas one to one: same number, same order,
      each the serialized formula with the verifier's verdict on it. */
  predicate RecordsMatch(backend: Backend, run: WorklistRun)
  {
    |run.results| == |run.dispatched| &&
    forall i :: 0 <= i < |run.results| ==> run.results[i] == Record(backend, run.dispatched[i])
  }

  /** Each iteration records exactly the formula it dispatches, so the records follow dispatch order. */
  lemma {:induction false} DrainRecordsMatch(backend: Backend, services: TraceServices, isOptimize: bool,
                                             queue: seq<FormulaRef>, run: WorklistRun)
    requires RecordsMatch(backend, run)
    ensures RecordsMatch(backend, Drain(backend, services, isOptimize, queue, run))
    decreases |queue|
  {
    if queue != [] {
      var (queue', run') := Step(backend, services, isOptimize, queue, run);
      assert RecordsMatch(backend, run') by {
        forall i | 0 <= i < |run'.results| ensures run'.results[i] == Record(backend, run'.dispatched[i]) {
          if i < |run.results| {
            assert run'.results[i] == run.results[i] && run'.dispatched[i] == run.dispatched[i];
          }
        }
      }
      DrainRecordsMatch(backend, services, isOptimize, queue', run');
    }
  }

  /** A sequence extended through an intermediate one keeps its prefix, and what was
      added is what the two extensions added, in order. */
  lemma ExtendThrough<T>(a: seq<T>, b: seq<T>, c: seq<T>)
    requires |a| <= |b| <= |c| && b[..|a|] == a && c[..|b|] == b
    ensures c[..|a|] == a && c[|a|..] == b[|a|..] + c[|b|..]
  {
    assert c[..|a|] == c[..|b|][..|a|];
    assert c[|a|..] == c[|a|..|b|] + c[|b|..];
  }

  /** The loop only appends to what was dispatched, and what it dispatches is the
      worklist with some formulas left out, in worklist order: nothing is added
      to the worklist and nothing is dispatched twice from one position. */
  lemma {:induction false} DrainDispatchesSubsequence(backend: Backend, services: TraceServices, isOptimize: bool,
                                                      queue: seq<FormulaRef>, run: WorklistRun)
    ensures var r := Drain(backend, services, isOptimize, queue, run);
            |run.dispatched| <= |r.dispatched| && r.dispatched[..|run.dispatched|] == run.dispatched &&
            Subseq(r.dispatched[|run.dispatched|..], queue)
    decreases |queue|
  {
    var r := Drain(backend, services, isOptimize, queue, run);
    if queue == [] {
      assert r.dispatched[|run.dispatched|..] == [];
    } else {
      var (queue', run') := Step(backend, services, isOptimize, queue, run);
      DrainDispatchesSubsequence(backend, services, isOptimize, queue', run');
      var tail := r.dispatched[|run'.dispatched|..];
      SubseqTrans(tail, queue', queue[1..]);
      ExtendThrough(run.dispatched, run'.dispatched, r.dispatched);
      assert r.dispatched[|run.dispatched|..] == [queue[0]] + tail;
    }
  }

  /** Without optimisation every formula of the worklist is dispatched, in order. */
  lemma {:induction false} DrainWithoutOptimizeDispatchesAll(backend: Backend, services: TraceServices,
                                                             queue: seq<FormulaRef>, run: WorklistRun)
    ensures Drain(backend, services, false, queue, run).dispatched == run.dispatched + queue
    decreases |queue|
  {
    if queue != [] {
      var (queue', run') := Step(backend, services, false, queue, run);
      DrainWithoutOptimizeDispatchesAll(backend, services, queue', run');
      assert run'.dispatched + queue' == run.dispatched + queue;
    }
  }

  /** Traces are only appended; every appended one has steps; there are no more new
      traces than newly dispatched formulas. */
  lemma {:induction false} DrainKeepsNonEmptyTraces(backend: Backend, services: TraceServices, isOptimize: bool,
                                                    queue: seq<FormulaRef>, run: WorklistRun)
    ensures var r := Drain(backend, services, isOptimize, queue, run);
            |run.traces| <= |r.traces| && r.traces[..|run.traces|] == run.traces &&
            AllNonEmpty(r.traces[|run.traces|..]) &&
            |r.traces| - |run.traces| <= |r.dispatched| - |run.dispatched|
    decreases |queue|
  {
    var r := Drain(backend, services, isOptimize, queue, run);
    if queue == [] {
      assert r.traces[|run.traces|..] == [];
    } else {
      var (queue', run') := Step(backend, services, isOptimize, queue, run);
      DrainKeepsNonEmptyTraces(backend, services, isOptimize, queue', run');
      ExtendThrough(run.traces, run'.traces, r.traces);
    }
  }

  /** A formula the reducer reports as covered by the first iteration's trace is never
      dispatched afterwards, so it never gets a record of its own. */
  lemma RemovedFormulaNeverDispatched(backend: Backend, services: TraceServices, isOptimize: bool,
                                      queue: seq<FormulaRef>, run: WorklistRun, f: FormulaRef)
    requires queue != [] && f != queue[0] && isOptimize
    requires var t := Retain(backend, services, SerializedQuery(backend.serialize(queue[0])), run.traces, isOptimize).0.trace;
             t.Some? && f in services.coveredProperties(queue[1..], t.value)
    ensures var d := Drain(backend, services, isOptimize, queue, run).dispatched;
            forall i :: |run.dispatched| <= i < |d| ==> d[i] != f
  {
    var (queue', run') := Step(backend, services, isOptimize, queue, run);
    assert f !in queue';
    DrainDispatchesSubsequence(backend, services, isOptimize, queue', run');
    var r := Drain(backend, services, isOptimize, queue', run');
    SubseqElements(r.dispatched[|run'.dispatched|..], queue');
    ExtendThrough(run.dispatched, run'.dispatched, r.dispatched);
  }

  /** From a worklist without duplicates, no formula is dispatched twice. */
  lemma DrainDispatchesOnce(backend: Backend, services: TraceServices, isOptimize: bool,
                            queue: seq<FormulaRef>)
    requires NoDuplicates(queue)
    ensures NoDuplicates(Drain(backend, services, isOptimize, queue, EmptyRun).dispatched)
  {
    DrainDispatchesSubsequence(backend, services, isOptimize, queue, EmptyRun);
    var d := Drain(backend, services, isOptimize, queue, EmptyRun).dispatched;
    assert d[0..] == d;
    SubseqNoDuplicates(d, queue);
  }

  /** The run of a whole worklist: one record per dispatched formula in dispatch order,
      dispatched formulas a subsequence of the worklist, kept traces non-empty and
      no more of them than records. */
  lemma WorklistRunProperties(backend: Backend, services: TraceServices, isOptimize: bool,
                              queue: seq<FormulaRef>)
    ensures var r := Drain(backend, services, isOptimize, queue, EmptyRun);
            RecordsMatch(backend, r) && Subseq(r.dispatched, queue) &&
            AllNonEmpty(r.traces) && |r.traces| <= |r.results| <= |queue| &&
            (!isOptimize ==> r.dispatched == queue)
  {
    var r := Drain(backend, services, isOptimize, queue, EmptyRun);
    DrainRecordsMatch(backend, services, isOptimize, queue, EmptyRun);
    DrainDispatchesSubsequence(backend, services, isOptimize, queue, EmptyRun);
    assert r.dispatched[0..] == r.dispatched;
    SubseqElements(r.dispatched, queue);
    DrainKeepsNonEmptyTraces(backend, services, isOptimize, queue, EmptyRun);
    assert r.traces[0..] == r.traces;
    if !isOptimize {
      DrainWithoutOptimizeDispatchesAll(backend, services, queue, EmptyRun);
    }
  }

  /** The traces the query-file loop keeps, starting from `traces`: one helper call per file, results discarded. */
  function RunQueryFiles(backend: Backend, services: TraceServices, locations: seq<string>,
                         traces: seq<ExecutionTrace>, isOptimize: bool): (r: seq<ExecutionTrace>)
    decreases |locations|
  {
    if locations == [] then traces
    else
      var (_, traces') := Retain(backend, services, QueryFile(locations[0]), traces, isOptimize);
      RunQueryFiles(backend, services, locations[1..], traces', isOptimize)
  }

  /** The query-file loop only appends traces with steps, at most one per file. */
  lemma {:induction false} QueryFilesKeepNonEmptyTraces(backend: Backend, services: TraceServices,
                                                        locations: seq<string>, traces: seq<ExecutionTrace>,
                                                        isOptimize: bool)
    ensures var r := RunQueryFiles(backend, services, locations, traces, isOptimize);
            |traces| <= |r| <= |traces| + |locations| && r[..|traces|] == traces &&
            AllNonEmpty(r[|traces|..])
    decreases |locations|
  {
    var r := RunQueryFiles(backend, services, locations, traces, isOptimize);
    if locations == [] {
      assert r[|traces|..] == [];
    } else {
      var (_, traces') := Retain(backend, services, QueryFile(locations[0]), traces, isOptimize);
      QueryFilesKeepNonEmptyTraces(backend, services, locations[1..], traces', isOptimize);
      ExtendThrough(traces, traces', r);
    }
  }

  /** The back-annotated trace of one retained trace. */
  function BackAnnotated(services: TraceServices, trace: ExecutionTrace): ExecutionTrace
  {
    services.backAnnotate(trace, services.loadOriginalComponent(trace.component))
  }
}
