/** The Gamma verification task handler: choosing the back-end from the analysis
    language, filling in the defaults of a Verification task, and running the
    whole batch (worklist loop, query files, final trace reduction and
    back-annotation). Each imperative method is proved against the
    specification functions of module Worklist. */
module Handler {
  import opened Common
  import opened Strings
  import opened Worklist

  /** The analysis languages of a Verification task; languages other than the three
      the handler supports are kept apart by their literal. */
  datatype AnalysisLanguage = Uppaal | Theta | XstsUppaal | Unsupported(literal: string)

  /** The verification back-ends the handler can dispatch to. */
  datatype BackendKind = UppaalVerification | ThetaVerification | XstsUppaalVerification

  /** The exceptions `execute` can end with. */
  datatype Exception = IllegalArgumentException(message: Option<string>) | IndexOutOfBoundsException(index: int)

  const UnsupportedLanguageMessage := "Currently only UPPAAL and Theta are supported."

  /** `new HashSet<AnalysisLanguage>(verification.getAnalysisLanguages())` */
  function LanguageSet(languages: seq<AnalysisLanguage>): set<AnalysisLanguage>
  {
    set l | l in languages
  }

  /** The set of languages has exactly one element iff the list is non-empty and constant. */
  lemma SingleLanguageSet(languages: seq<AnalysisLanguage>)
    ensures |LanguageSet(languages)| == 1 <==>
            |languages| > 0 && forall i :: 0 <= i < |languages| ==> languages[i] == languages[0]
  {
    var s := LanguageSet(languages);
    if |languages| > 0 && forall i :: 0 <= i < |languages| ==> languages[i] == languages[0] {
      assert s == {languages[0]};
    }
    if |s| == 1 {
      assert languages[0] in s;
      assert s * {languages[0]} == {languages[0]};
      assert |s - {languages[0]}| == 0;
      forall i | 0 <= i < |languages| ensures languages[i] == languages[0] {
        assert languages[i] in s && languages[i] !in s - {languages[0]};
      }
    }
  }

  /** The `checkArgument` on the language set and the switch that picks the back-end:
      exactly one distinct language is required, and it must be a supported one. */
  function SelectBackend(languages: seq<AnalysisLanguage>): (r: Result<BackendKind, Exception>)
    ensures |LanguageSet(languages)| != 1 ==> r == Failure(IllegalArgumentException(None))
    ensures r == Success(UppaalVerification) <==> LanguageSet(languages) == {Uppaal}
    ensures r == Success(ThetaVerification) <==> LanguageSet(languages) == {Theta}
    ensures r == Success(XstsUppaalVerification) <==> LanguageSet(languages) == {XstsUppaal}
    ensures r == Failure(IllegalArgumentException(Some(UnsupportedLanguageMessage))) <==>
            exists name :: LanguageSet(languages) == {Unsupported(name)}
  {
    SingleLanguageSet(languages);
    if |LanguageSet(languages)| != 1 then Failure(IllegalArgumentException(None))
    else
      assert LanguageSet(languages) == {languages[0]};
      match languages[0]
      case Uppaal => Success(UppaalVerification)
      case Theta => Success(ThetaVerification)
      case XstsUppaal => Success(XstsUppaalVerification)
      case Unsupported(_) => Failure(IllegalArgumentException(Some(UnsupportedLanguageMessage)))
  }

  /** The helper `execute(verificationTask, modelFile, queryFile, retrievedTraces, isOptimize)`:
      runs the verifier once and decides whether its trace joins the retained traces. */
  method ExecuteQuery(backend: Backend, services: TraceServices, query: QuerySource,
                      traces: seq<ExecutionTrace>, isOptimize: bool)
    returns (result: VerifierResult, retrievedTraces: seq<ExecutionTrace>)
    ensures (result, retrievedTraces) == Retain(backend, services, query, traces, isOptimize)
    ensures result.result == backend.verify(query).result
    ensures retrievedTraces == traces || retrievedTraces == traces + [result.trace.value]
  {
    retrievedTraces := traces;
    result := backend.verify(query);
    if result.trace.Some? {
      var trace := result.trace.value;
      if isOptimize {
        if services.isCovered(trace, retrievedTraces) {
          // an already covered trace is not returned
          result := VerifierResult(result.result, None);
          return;
        }
        trace := services.removeCoveredSteps(trace);
        // the result refers to the same, now pruned, trace object
        result := VerifierResult(result.result, Some(trace));
      }
      if |trace.steps| > 0 {
        retrievedTraces := retrievedTraces + [trace];
      }
    }
  }

  /** Filling the worklist: the formulas of every package, package by package. */
  method CollectFormulas(packages: seq<PropertyPackage>) returns (stateFormulas: seq<FormulaRef>)
    ensures stateFormulas == AllFormulas(packages)
  {
    stateFormulas := [];
    for k := 0 to |packages|
      invariant stateFormulas == AllFormulas(packages[..k])
    {
      var formulas := packages[k].formulas;
      for i := 0 to |formulas|
        invariant stateFormulas == AllFormulas(packages[..k]) + PackageFormulas(packages[k])[..i]
      {
        assert PackageFormulas(packages[k])[..i + 1] == PackageFormulas(packages[k])[..i] + [formulas[i].formula];
        stateFormulas := stateFormulas + [formulas[i].formula];
      }
      assert packages[..k + 1] == packages[..k] + [packages[k]];
      AllFormulasAppend(packages[..k], [packages[k]]);
      assert AllFormulas([packages[k]]) == PackageFormulas(packages[k]) + AllFormulas([]);
      assert PackageFormulas(packages[k])[..|formulas|] == PackageFormulas(packages[k]);
    }
    assert packages[..|packages|] == packages;
  }

  /** The worklist loop: poll a formula, serialize it, verify it, record the verdict,
      and when optimising drop the formulas the returned trace covers. */
  method DrainWorklist(backend: Backend, services: TraceServices, formulas: seq<FormulaRef>, isOptimize: bool)
    returns (results: seq<VerificationResult>, traces: seq<ExecutionTrace>)
    ensures WorklistRun(Drain(backend, services, isOptimize, formulas, EmptyRun).dispatched, results, traces)
            == Drain(backend, services, isOptimize, formulas, EmptyRun)
    ensures |traces| <= |results| <= |formulas|
    ensures AllNonEmpty(traces)
    ensures forall i :: 0 <= i < |results| ==>
              results[i].result == backend.verify(SerializedQuery(results[i].query)).result
    ensures !isOptimize ==> (|results| == |formulas| &&
              forall i :: 0 <= i < |formulas| ==> results[i] == Record(backend, formulas[i]))
  {
    var stateFormulas := formulas;
    results, traces := [], [];
    ghost var dispatched: seq<FormulaRef> := [];
    while stateFormulas != []
      invariant Drain(backend, services, isOptimize, stateFormulas, WorklistRun(dispatched, results, traces))
                == Drain(backend, services, isOptimize, formulas, EmptyRun)
      decreases |stateFormulas|
    {
      ghost var queue, run := stateFormulas, WorklistRun(dispatched, results, traces);
      var formula := stateFormulas[0];
      stateFormulas := stateFormulas[1..];
      var serializedFormula := backend.serialize(formula);
      var result;
      result, traces := ExecuteQuery(backend, services, SerializedQuery(serializedFormula), traces, isOptimize);
      results := results + [VerificationResult(serializedFormula, result.result)];
      dispatched := dispatched + [formula];
      if result.trace.Some? && isOptimize {
        var coveredProperties := services.coveredProperties(stateFormulas, result.trace.value);
        if |coveredProperties| > 0 {
          stateFormulas := RemoveAll(stateFormulas, coveredProperties);
        }
      }
      assert (stateFormulas, WorklistRun(dispatched, results, traces))
             == Step(backend, services, isOptimize, queue, run);
    }
    WorklistRunProperties(backend, services, isOptimize, formulas);
    SubseqElements(Drain(backend, services, isOptimize, formulas, EmptyRun).dispatched, formulas);
  }

  /** The loop over the query files: one helper call per file; the verdicts are not recorded. */
  method ExecuteQueryFiles(backend: Backend, services: TraceServices, queryFileLocations: seq<string>,
                           traces: seq<ExecutionTrace>, isOptimize: bool)
    returns (retrievedTraces: seq<ExecutionTrace>)
    ensures retrievedTraces == RunQueryFiles(backend, services, queryFileLocations, traces, isOptimize)
    ensures |traces| <= |retrievedTraces| <= |traces| + |queryFileLocations|
    ensures retrievedTraces[..|traces|] == traces
    ensures AllNonEmpty(traces) ==> AllNonEmpty(retrievedTraces)
  {
    retrievedTraces := traces;
    for i := 0 to |queryFileLocations|
      invariant RunQueryFiles(backend, services, queryFileLocations[i..], retrievedTraces, isOptimize)
                == RunQueryFiles(backend, services, queryFileLocations, traces, isOptimize)
    {
      assert queryFileLocations[i..][1..] == queryFileLocations[i + 1..];
      var ignored;
      ignored, retrievedTraces := ExecuteQuery(backend, services, QueryFile(queryFileLocations[i]), retrievedTraces, isOptimize);
    }
    QueryFilesKeepNonEmptyTraces(backend, services, queryFileLocations, traces, isOptimize);
    if AllNonEmpty(traces) {
      assert retrievedTraces == traces + retrievedTraces[|traces|..];
    }
  }

  /** Back-annotation: one trace on the original component per retained trace, in the same order. */
  method BackAnnotateAll(services: TraceServices, retrievedTraces: seq<ExecutionTrace>)
    returns (backAnnotatedTraces: seq<ExecutionTrace>)
    ensures |backAnnotatedTraces| == |retrievedTraces|
    ensures forall i :: 0 <= i < |retrievedTraces| ==>
              backAnnotatedTraces[i] == BackAnnotated(services, retrievedTraces[i])
  {
    backAnnotatedTraces := [];
    for i := 0 to |retrievedTraces|
      invariant |backAnnotatedTraces| == i
      invariant forall j :: 0 <= j < i ==> backAnnotatedTraces[j] == BackAnnotated(services, retrievedTraces[j])
    {
      var trace := retrievedTraces[i];
      var originalComponent := services.loadOriginalComponent(trace.component);
      var originalTrace := services.backAnnotate(trace, originalComponent);
      backAnnotatedTraces := backAnnotatedTraces + [originalTrace];
    }
  }

  /** The traces a run ends with: those of the worklist loop, then of the query files,
      then the optional whole-set reduction, then the optional back-annotation. */
  function FinalTraces(backend: Backend, services: TraceServices, formulas: seq<FormulaRef>,
                       queryFiles: seq<string>, isOptimize: bool, backAnnotate: bool): seq<ExecutionTrace>
  {
    var loopTraces := Drain(backend, services, isOptimize, formulas, EmptyRun).traces;
    var fileTraces := RunQueryFiles(backend, services, queryFiles, loopTraces, isOptimize);
    var reduced := if isOptimize then services.removeCoveredExecutionTraces(fileTraces) else fileTraces;
    if backAnnotate then seq(|reduced|, i requires 0 <= i < |reduced| => BackAnnotated(services, reduced[i]))
    else reduced
  }

  /** Without optimisation or back-annotation, every trace of a run has steps and there is
      at most one per formula and query file. */
  lemma FinalTracesNonEmpty(backend: Backend, services: TraceServices, formulas: seq<FormulaRef>,
                            queryFiles: seq<string>)
    ensures var traces := FinalTraces(backend, services, formulas, queryFiles, false, false);
            AllNonEmpty(traces) && |traces| <= |formulas| + |queryFiles|
  {
    WorklistRunProperties(backend, services, false, formulas);
    var loopTraces := Drain(backend, services, false, formulas, EmptyRun).traces;
    QueryFilesKeepNonEmptyTraces(backend, services, queryFiles, loopTraces, false);
    var traces := RunQueryFiles(backend, services, queryFiles, loopTraces, false);
    assert traces == loopTraces + traces[|loopTraces|..];
  }

  /** What a run hands to the trace and result serializers. */
  datatype RunReport = RunReport(
    results: seq<VerificationResult>,
    traces: seq<ExecutionTrace>,
    testFolderUri: Option<string>,  // null unless tests are serialized
    testFileName: Option<string>,   // null unless tests are serialized
    packageName: string,
    svgFileName: Option<string>)    // null unless the task names an SVG file

  /** A Verification task of a .ggen model: only the attributes the handler reads. */
  class Verification {
    var analysisLanguages: seq<AnalysisLanguage>
    var fileName: seq<string>
    var packageName: seq<string>
    var testFolder: seq<string>
    var svgFileName: seq<string>
    var programmingLanguages: seq<string>
    var queryFiles: seq<string>
    var propertyPackages: seq<PropertyPackage>
    var optimize: bool
    var backAnnotateToOriginal: bool

    constructor (analysisLanguages: seq<AnalysisLanguage>, fileName: seq<string>, packageName: seq<string>,
                 testFolder: seq<string>, svgFileName: seq<string>, programmingLanguages: seq<string>,
                 queryFiles: seq<string>, propertyPackages: seq<PropertyPackage>, optimize: bool,
                 backAnnotateToOriginal: bool)
      ensures this.analysisLanguages == analysisLanguages && this.fileName == fileName
      ensures this.packageName == packageName && this.testFolder == testFolder
      ensures this.svgFileName == svgFileName && this.programmingLanguages == programmingLanguages
      ensures this.queryFiles == queryFiles && this.propertyPackages == propertyPackages
      ensures this.optimize == optimize && this.backAnnotateToOriginal == backAnnotateToOriginal
    {
      this.analysisLanguages, this.fileName, this.packageName := analysisLanguages, fileName, packageName;
      this.testFolder, this.svgFileName, this.programmingLanguages := testFolder, svgFileName, programmingLanguages;
      this.queryFiles, this.propertyPackages := queryFiles, propertyPackages;
      this.optimize, this.backAnnotateToOriginal := optimize, backAnnotateToOriginal;
    }
  }

  /** Every path resolved against the task's directory (`fileUtil.exploreRelativeFile`). */
  function Resolved(resolve: string -> string, paths: seq<string>): (r: seq<string>)
    ensures |r| == |paths| && forall i :: 0 <= i < |paths| ==> r[i] == resolve(paths[i])
  {
    seq(|paths|, i requires 0 <= i < |paths| => resolve(paths[i]))
  }

  /** The handler of one Verification task of a project. */
  class VerificationHandler {
    const projectName: string
    const projectLocation: string
    const traceFileName: string
    const testFileName: string
    var serializeTest: bool
    var testFolderUri: Option<string>
    var svgFileName: Option<string>

    constructor (projectName: string, projectLocation: string)
      ensures this.projectName == projectName && this.projectLocation == projectLocation
      ensures traceFileName == "ExecutionTrace" && testFileName == "ExecutionTraceSimulation"
      ensures !serializeTest && testFolderUri == None && svgFileName == None
    {
      this.projectName, this.projectLocation := projectName, projectLocation;
      traceFileName := "ExecutionTrace";
      testFileName := traceFileName + "Simulation";
      serializeTest, testFolderUri, svgFileName := false, None, None;
    }

    /** The effect of `setVerification` on the handler and the task: the package name
        defaults to the lower-cased project name, the test folder to "test-gen", tests are
        serialized iff programming languages are given, and every path is resolved. */
    twostate predicate Defaulted(v: Verification, resolve: string -> string)
      reads this, v
    {
      && v.packageName == (if old(v.packageName) == [] then [ToLower(projectName)] else old(v.packageName))
      && v.testFolder == (if old(v.testFolder) == [] then ["test-gen"] else old(v.testFolder))
      && svgFileName == (if old(v.svgFileName) != [] then Some(old(v.svgFileName)[0]) else old(svgFileName))
      && serializeTest == (old(v.programmingLanguages) != [])
      && testFolderUri == (if serializeTest then Some(projectLocation + "/" + v.testFolder[0]) else old(testFolderUri))
      && v.fileName == Resolved(resolve, old(v.fileName))
      && v.queryFiles == Resolved(resolve, old(v.queryFiles))
      && v.analysisLanguages == old(v.analysisLanguages) && v.svgFileName == old(v.svgFileName)
      && v.programmingLanguages == old(v.programmingLanguages) && v.propertyPackages == old(v.propertyPackages)
      && v.optimize == old(v.optimize) && v.backAnnotateToOriginal == old(v.backAnnotateToOriginal)
    }

    /** `setVerification`: fills in the defaults of the task and the handler's options. */
    method SetVerification(v: Verification, resolve: string -> string)
      modifies this, v
      ensures Defaulted(v, resolve)
    {
      if v.packageName == [] {
        v.packageName := v.packageName + [ToLower(projectName)];
      }
      if v.testFolder == [] {
        v.testFolder := v.testFolder + ["test-gen"];
      }
      if v.svgFileName != [] {
        svgFileName := Some(v.svgFileName[0]);
      }
      if v.programmingLanguages == [] {
        serializeTest := false;
      } else {
        serializeTest := true;
        testFolderUri := Some(projectLocation + "/" + v.testFolder[0]);
      }
      v.fileName := Resolved(resolve, v.fileName);
      v.queryFiles := Resolved(resolve, v.queryFiles);
    }

    /** `execute(Verification)`: the whole batch. `backends(kind, modelFile)` is the chosen
        verifier and property serializer bound to the model file. */
    method Execute(v: Verification, backends: (BackendKind, string) -> Backend, services: TraceServices,
                   resolve: string -> string)
      returns (r: Result<RunReport, Exception>)
      modifies this, v
      ensures Defaulted(v, resolve)
      ensures SelectBackend(v.analysisLanguages).Failure? ==> r == Failure(SelectBackend(v.analysisLanguages).error)
      ensures SelectBackend(v.analysisLanguages).Success? && v.fileName == [] ==> r == Failure(IndexOutOfBoundsException(0))
      ensures r.Success? <==> SelectBackend(v.analysisLanguages).Success? && v.fileName != []
      ensures r.Success? ==>
        var backend := backends(SelectBackend(v.analysisLanguages).value, v.fileName[0]);
        var formulas := AllFormulas(v.propertyPackages);
        && r.value.results == Drain(backend, services, v.optimize, formulas, EmptyRun).results
        && r.value.traces == FinalTraces(backend, services, formulas, v.queryFiles, v.optimize, v.backAnnotateToOriginal)
        && r.value.testFolderUri == (if serializeTest then testFolderUri else None)
        && r.value.testFileName == (if serializeTest then Some(testFileName) else None)
        && r.value.packageName == v.packageName[0]
        && r.value.svgFileName == svgFileName
    {
      SetVerification(v, resolve);
      var selected := SelectBackend(v.analysisLanguages);
      if selected.Failure? {
        return Failure(selected.error);
      }
      if |v.fileName| == 0 {
        return Failure(IndexOutOfBoundsException(0));
      }
      var backend := backends(selected.value, v.fileName[0]);
      var isOptimize := v.optimize;
      var packageName := v.packageName[0];
      var stateFormulas := CollectFormulas(v.propertyPackages);
      var retrievedVerificationResults, retrievedTraces := DrainWorklist(backend, services, stateFormulas, isOptimize);
      retrievedTraces := ExecuteQueryFiles(backend, services, v.queryFiles, retrievedTraces, isOptimize);
      if isOptimize {
        retrievedTraces := services.removeCoveredExecutionTraces(retrievedTraces);
      }
      var testFolder := if serializeTest then testFolderUri else None;
      var testFile := if serializeTest then Some(testFileName) else None;
      if v.backAnnotateToOriginal {
        retrievedTraces := BackAnnotateAll(services, retrievedTraces);
      }
      r := Success(RunReport(retrievedVerificationResults, retrievedTraces, testFolder, testFile, packageName, svgFileName));
    }
  }
}
