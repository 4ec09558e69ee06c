# Gamma verification drivers in Dafny

This project models three sequential parts of the Gamma Statechart Composition
Framework that drive model checkers, and proves properties of them:

- **The batch verification handler** (`VerificationHandler`). It is the task
  handler of a `Verification` task of a `.ggen` model. It:
  - fills in the task's defaults;
  - picks the back-end (UPPAAL, Theta or XSTS-UPPAAL) from the task's single
    analysis language;
  - drains a FIFO worklist of the state formulas of every property package. Each
    formula is serialized and verified, and its (query, verdict) record is
    appended. With optimisation on, the formulas the returned trace covers are
    dropped;
  - runs the query files;
  - optionally reduces the set of traces and back-annotates every trace to the
    original component.
- **The generated-test verifier** (`GeneratedTestVerifier.run`). It reads the
  generated query file entry by entry (`readLineSkipComments` attaches a
  `/* … */` comment as the label of the query line that follows it). It then
  either hands each query to a verifier of its own, or, in reuse-state-space
  mode, hands all the queries joined by the line separator to one verifier. It
  polls each verifier until it is done, the timeout is reached or the user
  presses Stop. It reports one sentence per answered query, cancels every
  verifier and finally re-enables the buttons.
- **The query generator window's decision logic** (`View`):
  - the verdict shown for a query mode and a returned trace;
  - the Reuse State Space / Optimize Test Set pair of menu items;
  - the condition text that the operator and element selectors append to;
  - the option getters and their defaults;
  - the Verify/Reset/Generate button states and the Reset action;
  - the exception handler.

Modules:

- `Common`: Option, Result, ThreeStateBoolean and Java's string conversion of a
  possibly null string.
- `Strings`: the `java.lang.String` operations used, such as `contains`,
  `lastIndexOf`, `toLowerCase`, joining and concatenation.
- `Worklist`: the data model of a verification run and the specification
  functions of the worklist loop.
- `Handler`: `VerificationHandler.java`.
- `QueryView`: `View.java`.
- `TestVerifier`: `GeneratedTestVerifier.java`.

How the collaborators are modelled:

- The model checkers, the property serializers, `TraceUtil`,
  `CoveredPropertyReducer` and the back-annotator are uninterpreted function
  values (the `Backend` and `TraceServices` datatypes). Nothing is assumed about
  them.
- Formulas, steps and components are identities, because EMF objects compare by
  identity.
- The other threads of `GeneratedTestVerifier` are an `Environment` value. It
  fixes two things:
  - what each created verifier does (after how many polls it is done, whether
    the user's Stop cancelled its process, and its verdict);
  - from which read on the volatile `isCancelled` flag is seen set.

The imperative code stays imperative. Each method is proved against a
specification function:

| method | specification function |
|---|---|
| the worklist loop | `Drain` |
| the helper `execute` | `Retain` |
| the outer loop of `run` | `Simulate` / `Generate`, related through the `Continues` family of predicates |
| the reuse-state-space inner loop | `Gather` |
| the poll loop | `Poll` |
| `readLineSkipComments` | `ReadEntry` |

The properties are proved about those functions.

## Model

Source paths are relative to the repository root.

| member | source | states |
|---|---|---|
| `Strings.LastIndexOf` | plugins/core/hu.bme.mit.gamma.querygenerator.gui/src/hu/bme/mit/gamma/querygenerator/gui/util/GeneratedTestVerifier.java:65 | The result is -1 or a position where the separator occurs, and no occurrence starts after it. |
| `Strings.TrailingIsLastIndex` | plugins/core/hu.bme.mit.gamma.querygenerator.gui/src/hu/bme/mit/gamma/querygenerator/gui/util/GeneratedTestVerifier.java:65 | A non-empty separator at the end of the builder is its last occurrence, so the deletion cuts exactly that separator. |
| `Strings.TerminatedIsJoinPlusSeparator` | plugins/core/hu.bme.mit.gamma.querygenerator.gui/src/hu/bme/mit/gamma/querygenerator/gui/util/GeneratedTestVerifier.java:61-65 | Appending every query followed by the separator gives the queries joined by the separator, plus one trailing separator. |
| `Strings.JoinLength` | plugins/core/hu.bme.mit.gamma.querygenerator.gui/src/hu/bme/mit/gamma/querygenerator/gui/util/GeneratedTestVerifier.java:61-65 | The joined query is exactly as long as all the queries plus one separator between each consecutive pair. |
| `Strings.JoinParts` | plugins/core/hu.bme.mit.gamma.querygenerator.gui/src/hu/bme/mit/gamma/querygenerator/gui/util/GeneratedTestVerifier.java:61-65 | Every query sits in the joined query at its offset (the queries before it and one separator after each), with a separator right before every query but the first: each query is kept, in order. |
| `Strings.ToLower` | plugins/core/hu.bme.mit.gamma.ui/src/hu/bme/mit/gamma/ui/taskhandler/VerificationHandler.java:217 | Lower-casing keeps the length, turns each upper-case ASCII letter into its lower-case letter and keeps every other character. |
| `Worklist.RemoveAll` | plugins/core/hu.bme.mit.gamma.ui/src/hu/bme/mit/gamma/ui/taskhandler/VerificationHandler.java:147 | `removeAll` keeps the queue's order. A formula stays in the queue iff it was in it and is not covered. |
| `Worklist.AllFormulasAppend` | plugins/core/hu.bme.mit.gamma.ui/src/hu/bme/mit/gamma/ui/taskhandler/VerificationHandler.java:117-122 | The worklist of consecutive package lists is the concatenation of their worklists: package order, then in-package order. |
| `Worklist.AllFormulasMembers` | plugins/core/hu.bme.mit.gamma.ui/src/hu/bme/mit/gamma/ui/taskhandler/VerificationHandler.java:117-122 | Every formula of every package is in the initial worklist. |
| `Worklist.AllFormulasOnlyFromPackages` | plugins/core/hu.bme.mit.gamma.ui/src/hu/bme/mit/gamma/ui/taskhandler/VerificationHandler.java:117-122 | Conversely, every formula of the initial worklist is a formula of some package. |
| `Worklist.AllFormulasLength` | plugins/core/hu.bme.mit.gamma.ui/src/hu/bme/mit/gamma/ui/taskhandler/VerificationHandler.java:117-122 | The initial worklist holds one formula per commentable formula of the packages. |
| `Worklist.Retain` | plugins/core/hu.bme.mit.gamma.ui/src/hu/bme/mit/gamma/ui/taskhandler/VerificationHandler.java:192-213 | The verifier's verdict is returned unchanged. At most one trace is added, and only one with steps. Without a trace nothing is added. With optimisation on, a covered trace yields a null trace and an unchanged list. Without optimisation, the verifier's result comes back as is, and its trace is added iff it has steps. With optimisation on, an uncovered trace comes back as `removeCoveredSteps(trace)` and is added iff that pruned trace still has steps. |
| `Worklist.Step` | plugins/core/hu.bme.mit.gamma.ui/src/hu/bme/mit/gamma/ui/taskhandler/VerificationHandler.java:123-149 | One iteration polls the head and appends the head to the dispatched formulas. It appends exactly one record, (serialized head, verdict). The worklist strictly shrinks to a subsequence of its tail. Traces grow by at most one non-empty trace. Without optimisation, or without a returned trace, the only change to the worklist is the polled head. The traces are the ones `execute` (`Retain`) leaves. When optimising and a trace came back, a formula stays in the worklist iff it was in the tail and the reducer does not report it as covered by that trace. |
| `Worklist.DrainRecordsMatch` | plugins/core/hu.bme.mit.gamma.ui/src/hu/bme/mit/gamma/ui/taskhandler/VerificationHandler.java:123-136 | The records match the dispatched formulas one to one, in dispatch order. |
| `Worklist.DrainDispatchesSubsequence` | plugins/core/hu.bme.mit.gamma.ui/src/hu/bme/mit/gamma/ui/taskhandler/VerificationHandler.java:123-149 | The loop only appends to the dispatched formulas, and what it dispatches is a subsequence of the worklist: nothing is added to the worklist. |
| `Worklist.DrainWithoutOptimizeDispatchesAll` | plugins/core/hu.bme.mit.gamma.ui/src/hu/bme/mit/gamma/ui/taskhandler/VerificationHandler.java:123-149 | Without optimisation every formula is dispatched, in worklist order. |
| `Worklist.DrainKeepsNonEmptyTraces` | plugins/core/hu.bme.mit.gamma.ui/src/hu/bme/mit/gamma/ui/taskhandler/VerificationHandler.java:123-150 | Traces are only appended, every appended trace has steps, and there are no more new traces than dispatched formulas. |
| `Worklist.RemovedFormulaNeverDispatched` | plugins/core/hu.bme.mit.gamma.ui/src/hu/bme/mit/gamma/ui/taskhandler/VerificationHandler.java:139-149 | When optimising, a formula that the reducer reports as covered by the first iteration's trace is never dispatched afterwards, so it never gets a result entry. |
| `Worklist.DrainDispatchesOnce` | plugins/core/hu.bme.mit.gamma.ui/src/hu/bme/mit/gamma/ui/taskhandler/VerificationHandler.java:123-149 | From a worklist without duplicates, no formula is dispatched twice. |
| `Worklist.WorklistRunProperties` | plugins/core/hu.bme.mit.gamma.ui/src/hu/bme/mit/gamma/ui/taskhandler/VerificationHandler.java:117-150 | A whole worklist run has the following properties. There is one record per dispatched formula, in dispatch order. The dispatched formulas are a subsequence of the worklist, and all of it without optimisation. Kept traces are non-empty, and traces ≤ records ≤ formulas. |
| `Worklist.QueryFilesKeepNonEmptyTraces` | plugins/core/hu.bme.mit.gamma.ui/src/hu/bme/mit/gamma/ui/taskhandler/VerificationHandler.java:152-157 | The query-file loop keeps the earlier traces as a prefix and appends at most one trace with steps per file. |
| `Handler.SingleLanguageSet` | plugins/core/hu.bme.mit.gamma.ui/src/hu/bme/mit/gamma/ui/taskhandler/VerificationHandler.java:82-83 | The language set has exactly one element iff the language list is non-empty and names one language throughout. |
| `Handler.SelectBackend` | plugins/core/hu.bme.mit.gamma.ui/src/hu/bme/mit/gamma/ui/taskhandler/VerificationHandler.java:82-103 | A set of size other than one fails `checkArgument`. Each of UPPAAL, Theta and XSTS-UPPAAL is chosen iff it is the only language. The unsupported-language exception, with its message, is thrown iff the only language is another one. |
| `Handler.ExecuteQuery` | plugins/core/hu.bme.mit.gamma.ui/src/hu/bme/mit/gamma/ui/taskhandler/VerificationHandler.java:192-213 | The helper `execute` computes `Retain`. Its verdict is the verifier's, and the trace list is unchanged or gains the returned trace. |
| `Handler.CollectFormulas` | plugins/core/hu.bme.mit.gamma.ui/src/hu/bme/mit/gamma/ui/taskhandler/VerificationHandler.java:117-122 | The nested loop fills the worklist with exactly `AllFormulas`: package order, then in-package order. |
| `Handler.DrainWorklist` | plugins/core/hu.bme.mit.gamma.ui/src/hu/bme/mit/gamma/ui/taskhandler/VerificationHandler.java:123-150 | The loop computes the records and traces of `Drain`. Traces ≤ records ≤ formulas. Every kept trace has steps. Every record's verdict is the verifier's verdict on its serialized query. |
| `Handler.ExecuteQueryFiles` | plugins/core/hu.bme.mit.gamma.ui/src/hu/bme/mit/gamma/ui/taskhandler/VerificationHandler.java:152-157 | The loop computes `RunQueryFiles` and keeps the earlier traces as a prefix. It adds at most one trace per file and keeps every trace non-empty. |
| `Handler.BackAnnotateAll` | plugins/core/hu.bme.mit.gamma.ui/src/hu/bme/mit/gamma/ui/taskhandler/VerificationHandler.java:168-180 | Exactly one back-annotated trace per retained trace, in the same order, each on its original component. |
| `Handler.FinalTracesNonEmpty` | plugins/core/hu.bme.mit.gamma.ui/src/hu/bme/mit/gamma/ui/taskhandler/VerificationHandler.java:117-161 | Without optimisation or back-annotation, every trace a run ends with has steps, and there is at most one per formula and query file. |
| `Handler.VerificationHandler.constructor` | plugins/core/hu.bme.mit.gamma.ui/src/hu/bme/mit/gamma/ui/taskhandler/VerificationHandler.java:63-68 | The trace file is named "ExecutionTrace" and the test file "ExecutionTraceSimulation". No test is serialized yet. |
| `Handler.VerificationHandler.SetVerification` | plugins/core/hu.bme.mit.gamma.ui/src/hu/bme/mit/gamma/ui/taskhandler/VerificationHandler.java:215-241 | An empty package name becomes the lower-cased project name, and an empty test folder becomes "test-gen". The SVG file name is taken when given. Tests are serialized iff programming languages are given, and then the test folder URI is set. File and query paths are resolved. Nothing else in the task changes. |
| `Handler.VerificationHandler.Execute` | plugins/core/hu.bme.mit.gamma.ui/src/hu/bme/mit/gamma/ui/taskhandler/VerificationHandler.java:77-190 | A run succeeds iff the language check passes and a model file is given. Otherwise it ends with the `checkArgument`/unsupported-language exception or the index error. On success the records are those of `Drain` over `AllFormulas`. The traces are those of the worklist, then the query files, then the optional reduction and back-annotation. The test folder and test file are passed on only when tests are serialized, the package name is the task's first, and the SVG file name is the one `setVerification` took from the task. |
| `QueryView.ConditionHoldsCharacterization` | plugins/core/hu.bme.mit.gamma.querygenerator.gui/src/hu/bme/mit/gamma/querygenerator/application/View.java:928-950 | The trace alone decides the verdict. A condition holds iff a trace came back exactly for "Might eventually"/"Might always"; "Must always"/"Must eventually"/"Leads to" hold iff none came back. |
| `QueryView.DualModesDisagree` | plugins/core/hu.bme.mit.gamma.querygenerator.gui/src/hu/bme/mit/gamma/querygenerator/application/View.java:928-950 | The same trace witnesses an existential query and refutes its dual universal one. |
| `QueryView.OperatorToken` | plugins/core/hu.bme.mit.gamma.querygenerator.gui/src/hu/bme/mit/gamma/querygenerator/application/View.java:470-493 | An operator item appends a non-empty token iff it is one of AND, OR, IMPLICATION, NEGATION, EQUALITY. |
| `QueryView.OperatorTokenRoundTrip` | plugins/core/hu.bme.mit.gamma.querygenerator.gui/src/hu/bme/mit/gamma/querygenerator/application/View.java:470-493 | Different operators append different tokens: the item is recovered from its token. |
| `QueryView.ElementToken` | plugins/core/hu.bme.mit.gamma.querygenerator.gui/src/hu/bme/mit/gamma/querygenerator/application/View.java:449-468 | A state, variable or event selector appends the element's name enclosed in one pair of parentheses. |
| `QueryView.View.constructor` | plugins/core/hu.bme.mit.gamma.querygenerator.gui/src/hu/bme/mit/gamma/querygenerator/application/View.java:244-365 | Initially breadth-first, some trace, 512 MB, DBM, conservative reduction and 90 s are selected, one per group, so the timeout getter answers 90. Reuse and Optimize are unselected, Optimize is disabled, and the remembered selection is false. The texts are empty. |
| `QueryView.View.GetSelectedSearchOrder` | plugins/core/hu.bme.mit.gamma.querygenerator.gui/src/hu/bme/mit/gamma/querygenerator/application/View.java:772-789 | With at most one item selected, each search order is answered iff its item is selected, and the default iff none is. |
| `QueryView.View.GetStateSpaceRepresentation` | plugins/core/hu.bme.mit.gamma.querygenerator.gui/src/hu/bme/mit/gamma/querygenerator/application/View.java:791-799 | DBM is never answered. Over- and under-approximation are answered iff selected, and the default iff DBM or nothing is selected. |
| `QueryView.View.GetSelectedTrace` | plugins/core/hu.bme.mit.gamma.querygenerator.gui/src/hu/bme/mit/gamma/querygenerator/application/View.java:801-812 | Each diagnostic trace is answered iff its item is selected, and the default iff none is. |
| `QueryView.View.GetHashTableSize` | plugins/core/hu.bme.mit.gamma.querygenerator.gui/src/hu/bme/mit/gamma/querygenerator/application/View.java:822-833 | 512 MB is never answered. 64, 256 and 1024 MB are answered iff selected, and the default iff 512 MB or nothing is selected. |
| `QueryView.View.GetStateSpaceReduction` | plugins/core/hu.bme.mit.gamma.querygenerator.gui/src/hu/bme/mit/gamma/querygenerator/application/View.java:855-863 | Conservative is never answered. None and aggressive are answered iff selected, and the default iff conservative or nothing is selected. |
| `QueryView.View.GetTestGenerationTimeout` | plugins/core/hu.bme.mit.gamma.querygenerator.gui/src/hu/bme/mit/gamma/querygenerator/application/View.java:835-853 | The answer is one of 15/30/60/90/180/360. Each of 30 to 360 is answered iff its item is selected, and 15 iff "15 sec" or nothing is selected. |
| `QueryView.View.ClickReuseStateSpace` | plugins/core/hu.bme.mit.gamma.querygenerator.gui/src/hu/bme/mit/gamma/querygenerator/application/View.java:297-314 | Reuse toggles. Deselecting it disables Optimize, remembers Optimize's selection and clears it; reselecting it enables Optimize and restores the remembered selection. Optimize stays enabled exactly while Reuse is selected. |
| `QueryView.View.ClickOptimizeTestSet` | plugins/core/hu.bme.mit.gamma.querygenerator.gui/src/hu/bme/mit/gamma/querygenerator/application/View.java:313-314 | Optimize toggles only while enabled, and the toggle invariant is kept. |
| `QueryView.View.ReuseStateSpaceOffAndOn` | plugins/core/hu.bme.mit.gamma.querygenerator.gui/src/hu/bme/mit/gamma/querygenerator/application/View.java:298-312 | Deselecting and reselecting Reuse gives Optimize back its selection and leaves it enabled. |
| `QueryView.View.FocusPrimeText` | plugins/core/hu.bme.mit.gamma.querygenerator.gui/src/hu/bme/mit/gamma/querygenerator/application/View.java:516-523 | Focusing the condition field makes it the active text. |
| `QueryView.View.FocusOptionalText` | plugins/core/hu.bme.mit.gamma.querygenerator.gui/src/hu/bme/mit/gamma/querygenerator/application/View.java:524-532 | Focusing the condition B field makes it the active text. |
| `QueryView.View.SelectOperator` | plugins/core/hu.bme.mit.gamma.querygenerator.gui/src/hu/bme/mit/gamma/querygenerator/application/View.java:470-493 | The active text keeps its content as a prefix and gains the operator's token. An unknown item leaves it unchanged, and the other field is untouched. |
| `QueryView.View.SelectElement` | plugins/core/hu.bme.mit.gamma.querygenerator.gui/src/hu/bme/mit/gamma/querygenerator/application/View.java:449-468 | The active text keeps its content as a prefix and gains "(" + name + ")". The other field is untouched. |
| `QueryView.View.SetVerificationLabel` | plugins/core/hu.bme.mit.gamma.querygenerator.gui/src/hu/bme/mit/gamma/querygenerator/application/View.java:756-759 | The label shows the text in black. |
| `QueryView.View.SetVerificationLabelFor` | plugins/core/hu.bme.mit.gamma.querygenerator.gui/src/hu/bme/mit/gamma/querygenerator/application/View.java:928-965 | The label reads "The condition holds." in green iff the condition holds for the mode and trace, and "The condition does not hold!" in red otherwise. |
| `QueryView.View.SetVerificationButtons` | plugins/core/hu.bme.mit.gamma.querygenerator.gui/src/hu/bme/mit/gamma/querygenerator/application/View.java:761-770 | Disabling labels Reset "Stop" and disables Verify and Generate; enabling restores "Reset" and enables both. |
| `QueryView.View.Reset` | plugins/core/hu.bme.mit.gamma.querygenerator.gui/src/hu/bme/mit/gamma/querygenerator/application/View.java:569-583 | After a successful cancellation the texts are kept and the label reads "Verification cancelled." in black. Otherwise the condition, optional and result texts and the label are cleared. |
| `QueryView.View.HandleVerificationExceptions` | plugins/core/hu.bme.mit.gamma.querygenerator.gui/src/hu/bme/mit/gamma/querygenerator/application/View.java:907-926 | The label is cleared in every case. The log area is left alone for a message-less exception and for a "[warning]" one. An "[error]" message reports an invalid condition in the log area. Any other message is shown there as is. |
| `TestVerifier.FirstClosing` | plugins/core/hu.bme.mit.gamma.querygenerator.gui/src/hu/bme/mit/gamma/querygenerator/gui/util/GeneratedTestVerifier.java:165-167 | The first line from the given one on that contains "*/", or none if no later line does. |
| `TestVerifier.LineReader.ReadLine` | plugins/core/hu.bme.mit.gamma.querygenerator.gui/src/hu/bme/mit/gamma/querygenerator/gui/util/GeneratedTestVerifier.java:155 | `readLine` returns the next line and advances, or null at the end of the file. |
| `TestVerifier.ReadLineSkipComments` | plugins/core/hu.bme.mit.gamma.querygenerator.gui/src/hu/bme/mit/gamma/querygenerator/gui/util/GeneratedTestVerifier.java:152-172 | The method returns exactly the entry `ReadEntry` describes and consumes exactly its lines. It returns null at the end of the file. It fails with a NullPointerException when a comment is never closed. |
| `TestVerifier.ReadAllRender` | plugins/core/hu.bme.mit.gamma.querygenerator.gui/src/hu/bme/mit/gamma/querygenerator/gui/util/GeneratedTestVerifier.java:155-171 | Round trip: reading a file of query lines, each optionally preceded by a one-line comment, gives back the entries with their comments as labels. A line without "/*" is a query with an empty label. |
| `TestVerifier.MultiLineComment` | plugins/core/hu.bme.mit.gamma.querygenerator.gui/src/hu/bme/mit/gamma/querygenerator/gui/util/GeneratedTestVerifier.java:160-171 | The label of a multi-line comment is the concatenation of the lines strictly between its opening line and the first line with "*/". The query is the line after that one. |
| `TestVerifier.UnterminatedComment` | plugins/core/hu.bme.mit.gamma.querygenerator.gui/src/hu/bme/mit/gamma/querygenerator/gui/util/GeneratedTestVerifier.java:165 | A comment that is never closed dereferences the null line at the end of the file. |
| `TestVerifier.Message` | plugins/core/hu.bme.mit.gamma.querygenerator.gui/src/hu/bme/mit/gamma/querygenerator/gui/util/GeneratedTestVerifier.java:126-127 | An exception carries no message iff it is a NullPointerException. |
| `TestVerifier.TimeoutPolls` | plugins/core/hu.bme.mit.gamma.querygenerator.gui/src/hu/bme/mit/gamma/querygenerator/gui/util/GeneratedTestVerifier.java:48-49 | The poll budget, slept at 250 ms per poll, is exactly the selected number of seconds. |
| `TestVerifier.ReportSentenceDeterminesVerdict` | plugins/core/hu.bme.mit.gamma.querygenerator.gui/src/hu/bme/mit/gamma/querygenerator/gui/util/GeneratedTestVerifier.java:82-115 | Different verdicts give different sentences, both for the deadlock query and for a reachability query. |
| `TestVerifier.Poll` | plugins/core/hu.bme.mit.gamma.querygenerator.gui/src/hu/bme/mit/gamma/querygenerator/gui/util/GeneratedTestVerifier.java:71-75 | The poll loop never exceeds the timeout and never sleeps again once the verifier is done; it may stop at the timeout or on a seen Stop while the verifier is still running. If it stops short of the timeout without a verdict, its last read of the flag saw the Stop. It stops at the first read of the flag that sees the Stop: no earlier read saw it. |
| `TestVerifier.GeneratedTestVerifier.AwaitVerifier` | plugins/core/hu.bme.mit.gamma.querygenerator.gui/src/hu/bme/mit/gamma/querygenerator/gui/util/GeneratedTestVerifier.java:71-75 | The poll loop sleeps exactly as many polls, and reads the flag as often, as `Poll` says, so it stops at the first read of the flag that sees the Stop and never sleeps once the verifier is done. |
| `TestVerifier.Gather` | plugins/core/hu.bme.mit.gamma.querygenerator.gui/src/hu/bme/mit/gamma/querygenerator/gui/util/GeneratedTestVerifier.java:62-64 | The inner loop only consumes the file, only adds keys after the first, and only reads the flag more. It stops at the first read of the flag that sees the Stop, so no key is gathered after that read. |
| `TestVerifier.GeneratedTestVerifier.GatherQueries` | plugins/core/hu.bme.mit.gamma.querygenerator.gui/src/hu/bme/mit/gamma/querygenerator/gui/util/GeneratedTestVerifier.java:59-66 | The loop computes `Gather`, so it stops at the first read of the flag that sees the Stop. The combined query is the collected queries joined by the separator, with no trailing one. A NullPointerException is thrown iff reading fails. |
| `TestVerifier.GeneratedTestVerifier.ReadQuery` | plugins/core/hu.bme.mit.gamma.querygenerator.gui/src/hu/bme/mit/gamma/querygenerator/gui/util/GeneratedTestVerifier.java:56-66 | The first half of an iteration is exactly `Prepare`. It stops at the end of the file, on an exception or on a seen Stop. Otherwise it is ready for the entry's query, or, when reusing, for all remaining queries joined. |
| `TestVerifier.GeneratedTestVerifier.AwaitQuery` | plugins/core/hu.bme.mit.gamma.querygenerator.gui/src/hu/bme/mit/gamma/querygenerator/gui/util/GeneratedTestVerifier.java:69-124 | One new verifier is created for the query and polled. The verdict sentence is produced only if the verifier is done and its process not cancelled. The verifier is cancelled afterwards unless a missing query threw first. The outcome is exactly `AwaitVerdict`. |
| `TestVerifier.GeneratedTestVerifier.VerifyQueries` | plugins/core/hu.bme.mit.gamma.querygenerator.gui/src/hu/bme/mit/gamma/querygenerator/gui/util/GeneratedTestVerifier.java:56-125 | The outer loop runs exactly as the `Continues` relation describes. The buffer holds each reported sentence followed by the line separator, in order. The verifiers match the dispatches, and every verifier but the last one is cancelled (all of them when no exception ended the loop). |
| `TestVerifier.GeneratedTestVerifier.VerifyFile` | plugins/core/hu.bme.mit.gamma.querygenerator.gui/src/hu/bme/mit/gamma/querygenerator/gui/util/GeneratedTestVerifier.java:54-127 | The `try` block computes `Generate`. A file that cannot be opened ends the run with that failure and no dispatch. |
| `TestVerifier.GeneratedTestVerifier.Finish` | plugins/core/hu.bme.mit.gamma.querygenerator.gui/src/hu/bme/mit/gamma/querygenerator/gui/util/GeneratedTestVerifier.java:126-145 | After the `finally` block every verifier is cancelled and the buttons are enabled again. "Finished generation." is shown when the flag is not set. When it is set, the label stays as it was, or as the exception handler cleared it. The buffer is shown iff it is not empty. |
| `TestVerifier.GeneratedTestVerifier.Run` | plugins/core/hu.bme.mit.gamma.querygenerator.gui/src/hu/bme/mit/gamma/querygenerator/gui/util/GeneratedTestVerifier.java:47-146 | The whole run creates exactly the dispatches of `Generate`, cancels all verifiers and re-enables the buttons on every exit path. It shows the reported sentences, each followed by the separator, iff there are any. It reports the end when not cancelled, and otherwise leaves the label as it was or as the exception handler cleared it. |
| `TestVerifier.GeneratedTestVerifier.CancelProcess` | plugins/core/hu.bme.mit.gamma.querygenerator.gui/src/hu/bme/mit/gamma/querygenerator/gui/util/GeneratedTestVerifier.java:148-150 | The Stop request sets the flag. |
| `TestVerifier.GeneratedTestVerifier.ReadCancelled` | plugins/core/hu.bme.mit.gamma.querygenerator.gui/src/hu/bme/mit/gamma/querygenerator/gui/util/GeneratedTestVerifier.java:72 | A read of the volatile flag sees it set once it was set before, or once the Stop has reached it. |
| `TestVerifier.AwaitVerdictExtends` | plugins/core/hu.bme.mit.gamma.querygenerator.gui/src/hu/bme/mit/gamma/querygenerator/gui/util/GeneratedTestVerifier.java:69-124 | Awaiting a verdict adds exactly one dispatch that agrees with its verifier's outcome. It waited no longer than the timeout. It has a sentence only if the verifier answered, and always when it answered, unless a missing query threw first. |
| `TestVerifier.RunAccountsDispatches` | plugins/core/hu.bme.mit.gamma.querygenerator.gui/src/hu/bme/mit/gamma/querygenerator/gui/util/GeneratedTestVerifier.java:56-125 | Every dispatch of a run agrees with its verifier's outcome. A sentence exists only for a verifier that is done and not process-cancelled. It is "Test generation has been finished." when reusing, and otherwise the deadlock or reachability sentence of its verdict. |
| `TestVerifier.RunBoundsSleep` | plugins/core/hu.bme.mit.gamma.querygenerator.gui/src/hu/bme/mit/gamma/querygenerator/gui/util/GeneratedTestVerifier.java:71-75 | A run sleeps at most the timeout per verifier it creates. |
| `TestVerifier.GatherStops` | plugins/core/hu.bme.mit.gamma.querygenerator.gui/src/hu/bme/mit/gamma/querygenerator/gui/util/GeneratedTestVerifier.java:62 | An inner loop that did not fail ended at the end of the file or on a read of the flag that saw the Stop. |
| `TestVerifier.AdvanceStopsQuietly` | plugins/core/hu.bme.mit.gamma.querygenerator.gui/src/hu/bme/mit/gamma/querygenerator/gui/util/GeneratedTestVerifier.java:56 | Once the file is exhausted or the next read of the flag sees the Stop, the iteration stops without dispatching anything. The entry read at :56 before the flag is tested is dropped. |
| `TestVerifier.ReuseNextStops` | plugins/core/hu.bme.mit.gamma.querygenerator.gui/src/hu/bme/mit/gamma/querygenerator/gui/util/GeneratedTestVerifier.java:56-66 | When reusing, the iteration after a dispatching one stops without dispatching. |
| `TestVerifier.ReuseDispatchesAtMostOnce` | plugins/core/hu.bme.mit.gamma.querygenerator.gui/src/hu/bme/mit/gamma/querygenerator/gui/util/GeneratedTestVerifier.java:56-66 | When reusing, at most one verifier run happens. |
| `TestVerifier.GatherReadsAll` | plugins/core/hu.bme.mit.gamma.querygenerator.gui/src/hu/bme/mit/gamma/querygenerator/gui/util/GeneratedTestVerifier.java:62-64 | Without Stop, the inner loop collects every remaining query, in order. It fails exactly when reading the file does, and otherwise leaves the file exhausted. |
| `TestVerifier.ReuseAdvanceReadsAll` | plugins/core/hu.bme.mit.gamma.querygenerator.gui/src/hu/bme/mit/gamma/querygenerator/gui/util/GeneratedTestVerifier.java:56-70 | Without Stop, the first reusing iteration fails if reading the file does. Otherwise it dispatches all of the file's queries joined, and it leaves the file exhausted. |
| `TestVerifier.ReuseDispatchesWholeFile` | plugins/core/hu.bme.mit.gamma.querygenerator.gui/src/hu/bme/mit/gamma/querygenerator/gui/util/GeneratedTestVerifier.java:56-66 | Without Stop, a reusing run that ends normally hands one query to one verifier: the file's queries joined by the separator, none lost or duplicated. |
| `TestVerifier.AdvanceOneAtATime` | plugins/core/hu.bme.mit.gamma.querygenerator.gui/src/hu/bme/mit/gamma/querygenerator/gui/util/GeneratedTestVerifier.java:56-125 | One query at a time, an iteration dispatches at most the entry it reads, with that entry's label. It goes on only after dispatching it. Without Stop it ends normally only at the end of the file. |
| `TestVerifier.OneAtATimeFollowsFile` | plugins/core/hu.bme.mit.gamma.querygenerator.gui/src/hu/bme/mit/gamma/querygenerator/gui/util/GeneratedTestVerifier.java:56-125 | One query at a time, the i-th verifier gets the i-th entry of the file, query and label. |
| `TestVerifier.OneAtATimeReadsWholeFile` | plugins/core/hu.bme.mit.gamma.querygenerator.gui/src/hu/bme/mit/gamma/querygenerator/gui/util/GeneratedTestVerifier.java:56-125 | One query at a time and without Stop, a run that ends normally verifies every entry of the file, and the file was read without an exception. |
| `TestVerifier.GenerateProperties` | plugins/core/hu.bme.mit.gamma.querygenerator.gui/src/hu/bme/mit/gamma/querygenerator/gui/util/GeneratedTestVerifier.java:47-127 | For a whole run:<br>• every dispatch agrees with its verifier's outcome;<br>• total sleep ≤ timeout × verifiers;<br>• an unopenable file dispatches nothing and ends in its failure;<br>• when reusing, at most one dispatch, and without Stop it is all the queries joined;<br>• one at a time, the dispatched queries are the file's in order, and without Stop all of them;<br>• without Stop, a normal end means the file was read without an exception. |

## Left out

- Threads, `volatile` and `Thread.sleep`: the verifier's thread and the Stop button's thread are an `Environment` value. It fixes each verifier's outcome and the read of `isCancelled` from which the flag is seen set. The model sequentialises them and does not model interleavings within one read.
- The `GuiVerifier` process itself (UPPAAL as an external process): reduced to its query, its outcome from the environment and its `processCancelled` flag.
- Logging (`Logger`) and `DialogUtil.showInfo`: the text `run` would show is returned as `shown` instead.
- The controller's deregistration of the verifier in `finally` (GeneratedTestVerifier.java:129-132) and the controller's `getGeneratedQueryFile`: the query file's lines, or the failure to open it, are a parameter of `run`.
- `System.lineSeparator()`: a parameter `sep`, assumed non-empty.
- TestVerifier.GeneratedTestVerifier.Run: the Reuse State Space menu item is read once, as it stands when the run starts (`reuse`). GeneratedTestVerifier.java:59 and :78 read it again in every iteration, and the item stays enabled during a run (`setVerificationButtons` touches only the three buttons). `Prepare`, `AwaitVerdict` and `Run` therefore do not capture the user switching it mid-run. Switching it off after a reuse gather that reached the end of the file makes :82 dereference a null entry. Switching it on between :59 and :78 reports "Test generation has been finished." after a single query.
- TestVerifier.GeneratedTestVerifier.VerifyQueries: does not state which verifier it returns; it states only that every other verifier is cancelled, which is what the `finally` block relies on.
- The message of a NullPointerException is taken to be null, as on JVMs without helpful NullPointerException messages.
- TestVerifier.GeneratedTestVerifier.Finish: when an exception other than a NullPointerException ended the run, it does not state what the log area shows. `QueryView.View.HandleVerificationExceptions` states that separately.
- `Worklist`/`Handler`: the model checkers, `PropertySerializer`s, `TraceUtil.isCovered`/`removeCoveredSteps`/`removeCoveredExecutionTraces`, `CoveredPropertyReducer`, `StatechartEcoreUtil.loadOriginalComponent` and `UnfoldedExecutionTraceBackAnnotator` are uninterpreted function values. No coverage semantics is assumed, so no property depends on what they compute.
- Saving each serialized formula to a hidden property file: the verifier is applied to the serialized text directly.
- `ExecutionTraceSerializer` and the serialization loops (VerificationHandler.java:182-189): file output. The model returns the records and traces handed to them in a `RunReport`.
- `setTargetFolder` (inherited from the task handler base class): not part of this model.
- The Verification's resource lookup (`eResource`, `ecoreUtil.getFile`): the resolution of relative paths is a parameter `resolve`.
- `URI.decode` and `File.separator`: the test folder URI is the project location, "/" and the folder, undecoded.
- Strings.ToLower: lower-cases ASCII letters only, where Java's `toLowerCase` follows the default locale over all of Unicode.
- The UPPAAL setting constants behind the option getters: each is a constructor of its own (`BreadthFirst`, `SearchOrderDefault`, …) rather than a string or number.
- Swing layout, fonts, frame sizes, help texts, the how-to combo box's help and example texts, `parseText` and the Verify button's action: not decision logic of the modelled core.
- QueryView.View.HandleVerificationExceptions: a null exception object (which makes Java throw in the handler) is not modelled; only an exception without a message is.
