/** The decision logic of the query generator window: the verdict shown for a
    query mode and a trace, the Reuse-State-Space / Optimize-Test-Set pair of
    menu items, the condition text the selectors build, the option getters and
    the state of the Verify, Reset and Generate buttons. Every Swing widget is
    reduced to the boolean or string it holds. */
module QueryView {
  import opened Common
  import opened Strings

  /** The query modes of the how-to combo box. */
  datatype QueryMode = MightEventually | MustEventually | MightAlways | MustAlways | LeadsTo

  /** The text fields the selectors can write into. */
  datatype TextField = PrimeText | OptionalText

  /** Foreground colours of the verification result label. */
  datatype Color = Black | Red | Green

  /** The values of the option getters; the *Default constructors stand for the
      UPPAAL settings' default constants. */
  datatype SearchOrder = BreadthFirst | DepthFirst | RandomDepthFirst | OptimalFirst | RandomOptimalDepthFirst
                       | SearchOrderDefault
  datatype DiagnosticTrace = SomeTrace | ShortestTrace | FastestTrace | TraceDefault
  datatype StateSpaceRepresentation = Dbm | OverApproximation | UnderApproximation | RepresentationDefault
  datatype HashtableSize = Size64 | Size256 | Size512 | Size1024 | HashtableSizeDefault
  datatype StateSpaceReduction = NoReduction | ConservativeReduction | AggressiveReduction | ReductionDefault

  const ConditionHoldsText := "The condition holds."
  const ConditionFailsText := "The condition does not hold!"
  const CancelledText := "Verification cancelled."
  const InvalidExpressionText := "The condition is not a valid expression!"

  /** The items of the operator selector. */
  const OperatorNames: seq<string> := ["AND", "OR", "IMPLICATION", "NEGATION", "EQUALITY"]

  /** "Might eventually" (E<>) and "Might always" (E[]) ask for some behaviour: a trace is a witness. */
  predicate IsExistential(mode: QueryMode)
  {
    mode == MightEventually || mode == MightAlways
  }

  /** The verdict of `setVerificationLabel(boolean)`: an existential query holds iff the
      model checker returned a trace, a universal or leads-to query holds iff it returned none. */
  function ConditionHolds(mode: QueryMode, hasTrace: bool): (holds: bool)
  {
    match mode
    case MightEventually | MightAlways => hasTrace
    case MustAlways | MustEventually | LeadsTo => !hasTrace
  }

  /** The trace alone decides the verdict, and existential modes read it as a witness. */
  lemma ConditionHoldsCharacterization(mode: QueryMode, hasTrace: bool)
    ensures ConditionHolds(mode, hasTrace) != ConditionHolds(mode, !hasTrace)
    ensures ConditionHolds(mode, hasTrace) <==> (hasTrace <==> IsExistential(mode))
  {
  }

  /** The universal mode that is the negation of an existential one (E<> p is not A[] not p,
      E[] p is not A<> not p). */
  function Dual(mode: QueryMode): QueryMode
    requires IsExistential(mode)
  {
    if mode == MightEventually then MustAlways else MustEventually
  }

  /** The same trace is a witness of an existential query and a counterexample of its dual. */
  lemma DualModesDisagree(mode: QueryMode, hasTrace: bool)
    requires IsExistential(mode)
    ensures ConditionHolds(mode, hasTrace) == !ConditionHolds(Dual(mode), hasTrace)
  {
  }

  /** What the operator selector appends for an item; unknown items append nothing. */
  function OperatorToken(op: string): (token: string)
    ensures op in OperatorNames <==> token != ""
  {
    match op
    case "AND" => " && "
    case "OR" => " || "
    case "IMPLICATION" => " imply "
    case "NEGATION" => "!"
    case "EQUALITY" => " == "
    case _ => ""
  }

  /** The operator item a token was appended for. */
  function OperatorOfToken(token: string): Option<string>
  {
    match token
    case " && " => Some("AND")
    case " || " => Some("OR")
    case " imply " => Some("IMPLICATION")
    case "!" => Some("NEGATION")
    case " == " => Some("EQUALITY")
    case _ => None
  }

  /** Different operators append different tokens: the item can be read back from its token. */
  lemma OperatorTokenRoundTrip(op: string)
    requires op in OperatorNames
    ensures OperatorOfToken(OperatorToken(op)) == Some(op)
  {
  }

  /** What a state, variable or event selector appends: the element's name in parentheses. */
  function ElementToken(name: string): (token: string)
    ensures |token| == |name| + 2 && token[0] == '(' && token[|token| - 1] == ')'
    ensures token[1..|token| - 1] == name
  {
    "(" + name + ")"
  }

  /** At most one item of a button group is selected. */
  predicate AtMostOne(items: seq<bool>)
  {
    forall i, j :: 0 <= i < j < |items| ==> !(items[i] && items[j])
  }

  /** None of the items is selected. */
  predicate NoneSelected(items: seq<bool>)
  {
    forall i :: 0 <= i < |items| ==> !items[i]
  }

  /** The query generator window, reduced to the state of its widgets. */
  class View {
    // Search order radio items
    var breadthFirst: bool
    var depthFirst: bool
    var randomDepthFirst: bool
    var optimalFirst: bool
    var randomOptimalDepthFirst: bool
    // Diagnostic trace radio items
    var someTrace: bool
    var shortestTrace: bool
    var fastestTrace: bool
    // Hash table size radio items
    var size64M: bool
    var size256M: bool
    var size512M: bool
    var size1024M: bool
    // State space representation radio items
    var dbm: bool
    var overApproximation: bool
    var underApproximation: bool
    // State space reduction radio items
    var noStateSpaceReduction: bool
    var conservativeStateSpaceReduction: bool
    var aggressiveStateSpaceReduction: bool
    // Test generation timeout radio items
    var sec15: bool
    var sec30: bool
    var sec60: bool
    var sec90: bool
    var sec180: bool
    var sec360: bool
    // Test generation menu items, and the selection the Reuse listener remembers
    var reuseStateSpaceSelected: bool
    var optimizeTestSetSelected: bool
    var optimizeTestSetEnabled: bool
    var wasOptimizeTestSetItemSelected: bool
    // Query mode and condition texts
    var howTo: QueryMode
    var primeText: string
    var optionalText: string
    var resultText: string
    var activeText: TextField
    // Result label, log area and buttons
    var verificationResultLabel: string
    var labelColor: Color
    var logText: string
    var resetButtonText: string
    var verifyEnabled: bool
    var generateTestSetEnabled: bool

    function SearchOrderItems(): seq<bool> reads this
    {
      [breadthFirst, depthFirst, randomDepthFirst, optimalFirst, randomOptimalDepthFirst]
    }
    function TraceItems(): seq<bool> reads this { [someTrace, shortestTrace, fastestTrace] }
    function HashtableItems(): seq<bool> reads this { [size64M, size256M, size512M, size1024M] }
    function RepresentationItems(): seq<bool> reads this { [dbm, overApproximation, underApproximation] }
    function ReductionItems(): seq<bool> reads this
    {
      [noStateSpaceReduction, conservativeStateSpaceReduction, aggressiveStateSpaceReduction]
    }
    function TimeoutItems(): seq<bool> reads this { [sec15, sec30, sec60, sec90, sec180, sec360] }

    /** Each button group has at most one selected item; Optimize Test Set is enabled
        exactly while Reuse State Space is selected, and can be selected only then. */
    ghost predicate Valid()
      reads this
    {
      && AtMostOne(SearchOrderItems()) && AtMostOne(TraceItems()) && AtMostOne(HashtableItems())
      && AtMostOne(RepresentationItems()) && AtMostOne(ReductionItems()) && AtMostOne(TimeoutItems())
      && optimizeTestSetEnabled == reuseStateSpaceSelected
      && (optimizeTestSetSelected ==> optimizeTestSetEnabled)
    }

    /** The widget state the constructor leaves (controllers and layout are not modelled). */
    constructor ()
      ensures Valid()
      ensures SearchOrderItems() == [true, false, false, false, false]
      ensures TraceItems() == [true, false, false]
      ensures HashtableItems() == [false, false, true, false]
      ensures RepresentationItems() == [true, false, false]
      ensures ReductionItems() == [false, true, false]
      ensures TimeoutItems() == [false, false, false, true, false, false]
      ensures GetTestGenerationTimeout() == 90
      ensures !reuseStateSpaceSelected && !optimizeTestSetSelected && !optimizeTestSetEnabled
      ensures !wasOptimizeTestSetItemSelected
      ensures howTo == MightEventually && activeText == PrimeText
      ensures primeText == "" && optionalText == "" && resultText == ""
      ensures verificationResultLabel == "" && logText == ""
      ensures resetButtonText == "Reset" && verifyEnabled && generateTestSetEnabled
    {
      breadthFirst, depthFirst, randomDepthFirst, optimalFirst, randomOptimalDepthFirst := true, false, false, false, false;
      someTrace, shortestTrace, fastestTrace := true, false, false;
      size64M, size256M, size512M, size1024M := false, false, true, false;
      dbm, overApproximation, underApproximation := true, false, false;
      noStateSpaceReduction, conservativeStateSpaceReduction, aggressiveStateSpaceReduction := false, true, false;
      sec15, sec30, sec60, sec90, sec180, sec360 := false, false, false, true, false, false;
      reuseStateSpaceSelected, optimizeTestSetSelected, optimizeTestSetEnabled := false, false, false;
      wasOptimizeTestSetItemSelected := false;
      howTo, activeText := MightEventually, PrimeText;
      primeText, optionalText, resultText := "", "", "";
      verificationResultLabel, labelColor, logText := "", Black, "";
      resetButtonText, verifyEnabled, generateTestSetEnabled := "Reset", true, true;
    }

    /** `getSelectedSearchOrder`: the selected search order, or the default if none is. */
    function GetSelectedSearchOrder(): (r: SearchOrder)
      reads this
      ensures AtMostOne(SearchOrderItems()) ==>
        && (r == BreadthFirst <==> breadthFirst) && (r == DepthFirst <==> depthFirst)
        && (r == RandomDepthFirst <==> randomDepthFirst) && (r == OptimalFirst <==> optimalFirst)
        && (r == RandomOptimalDepthFirst <==> randomOptimalDepthFirst)
        && (r == SearchOrderDefault <==> NoneSelected(SearchOrderItems()))
    {
      assert SearchOrderItems()[0] == breadthFirst && SearchOrderItems()[1] == depthFirst && SearchOrderItems()[2] == randomDepthFirst && SearchOrderItems()[3] == optimalFirst && SearchOrderItems()[4] == randomOptimalDepthFirst;
      if breadthFirst then BreadthFirst
      else if depthFirst then DepthFirst
      else if randomDepthFirst then RandomDepthFirst
      else if optimalFirst then OptimalFirst
      else if randomOptimalDepthFirst then RandomOptimalDepthFirst
      else SearchOrderDefault
    }

    /** `getStateSpaceRepresentation`: DBM is not checked, so it yields the default. */
    function GetStateSpaceRepresentation(): (r: StateSpaceRepresentation)
      reads this
      ensures r != Dbm
      ensures AtMostOne(RepresentationItems()) ==>
        && (r == OverApproximation <==> overApproximation) && (r == UnderApproximation <==> underApproximation)
        && (r == RepresentationDefault <==> dbm || NoneSelected(RepresentationItems()))
    {
      assert RepresentationItems()[0] == dbm && RepresentationItems()[1] == overApproximation && RepresentationItems()[2] == underApproximation;
      if overApproximation then OverApproximation
      else if underApproximation then UnderApproximation
      else RepresentationDefault
    }

    /** `getSelectedTrace`: the selected diagnostic trace, or the default if none is. */
    function GetSelectedTrace(): (r: DiagnosticTrace)
      reads this
      ensures AtMostOne(TraceItems()) ==>
        && (r == SomeTrace <==> someTrace) && (r == ShortestTrace <==> shortestTrace)
        && (r == FastestTrace <==> fastestTrace) && (r == TraceDefault <==> NoneSelected(TraceItems()))
    {
      assert TraceItems()[0] == someTrace && TraceItems()[1] == shortestTrace && TraceItems()[2] == fastestTrace;
      if someTrace then SomeTrace
      else if shortestTrace then ShortestTrace
      else if fastestTrace then FastestTrace
      else TraceDefault
    }

    /** `getHashTableSize`: 512 MB is not checked, so it yields the default. */
    function GetHashTableSize(): (r: HashtableSize)
      reads this
      ensures r != Size512
      ensures AtMostOne(HashtableItems()) ==>
        && (r == Size64 <==> size64M) && (r == Size256 <==> size256M) && (r == Size1024 <==> size1024M)
        && (r == HashtableSizeDefault <==> size512M || NoneSelected(HashtableItems()))
    {
      assert HashtableItems()[0] == size64M && HashtableItems()[1] == size256M && HashtableItems()[2] == size512M && HashtableItems()[3] == size1024M;
      if size64M then Size64
      else if size256M then Size256
      else if size1024M then Size1024
      else HashtableSizeDefault
    }

    /** `getStateSpaceReduction`: conservative is not checked, so it yields the default. */
    function GetStateSpaceReduction(): (r: StateSpaceReduction)
      reads this
      ensures r != ConservativeReduction
      ensures AtMostOne(ReductionItems()) ==>
        && (r == NoReduction <==> noStateSpaceReduction) && (r == AggressiveReduction <==> aggressiveStateSpaceReduction)
        && (r == ReductionDefault <==> conservativeStateSpaceReduction || NoneSelected(ReductionItems()))
    {
      assert ReductionItems()[0] == noStateSpaceReduction && ReductionItems()[1] == conservativeStateSpaceReduction && ReductionItems()[2] == aggressiveStateSpaceReduction;
      if noStateSpaceReduction then NoReduction
      else if aggressiveStateSpaceReduction then AggressiveReduction
      else ReductionDefault
    }

    /** `getTestGenerationTmeout`: the selected number of seconds; 15 when "15 sec" or nothing is selected. */
    function GetTestGenerationTimeout(): (seconds: int)
      reads this
      ensures seconds in {15, 30, 60, 90, 180, 360}
      ensures AtMostOne(TimeoutItems()) ==>
        && (seconds == 30 <==> sec30) && (seconds == 60 <==> sec60) && (seconds == 90 <==> sec90)
        && (seconds == 180 <==> sec180) && (seconds == 360 <==> sec360)
        && (seconds == 15 <==> sec15 || NoneSelected(TimeoutItems()))
    {
      assert TimeoutItems()[0] == sec15 && TimeoutItems()[1] == sec30 && TimeoutItems()[2] == sec60 && TimeoutItems()[3] == sec90 && TimeoutItems()[4] == sec180 && TimeoutItems()[5] == sec360;
      if sec30 then 30
      else if sec60 then 60
      else if sec90 then 90
      else if sec180 then 180
      else if sec360 then 360
      else 15
    }

    function IsReuseStateSpace(): bool reads this { reuseStateSpaceSelected }

    function IsOptimizeTestSet(): bool reads this { optimizeTestSetSelected }

    /** The text of the field the selectors currently write into. */
    function ActiveText(): string reads this
    {
      if activeText == PrimeText then primeText else optionalText
    }

    /** A click on Reuse State Space: the item toggles, then its listener runs. Deselecting
        disables Optimize Test Set, remembers its selection and clears it; reselecting
        enables it and restores the remembered selection. */
    method ClickReuseStateSpace()
      requires Valid()
      modifies this`reuseStateSpaceSelected, this`optimizeTestSetEnabled, this`optimizeTestSetSelected,
               this`wasOptimizeTestSetItemSelected
      ensures Valid()
      ensures reuseStateSpaceSelected == !old(reuseStateSpaceSelected)
      ensures reuseStateSpaceSelected ==> optimizeTestSetEnabled && optimizeTestSetSelected == old(wasOptimizeTestSetItemSelected)
                                          && wasOptimizeTestSetItemSelected == old(wasOptimizeTestSetItemSelected)
      ensures !reuseStateSpaceSelected ==> !optimizeTestSetEnabled && !optimizeTestSetSelected
                                           && wasOptimizeTestSetItemSelected == old(optimizeTestSetSelected)
    {
      reuseStateSpaceSelected := !reuseStateSpaceSelected;
      if reuseStateSpaceSelected {
        optimizeTestSetEnabled := true;
        optimizeTestSetSelected := wasOptimizeTestSetItemSelected;
      } else {
        optimizeTestSetEnabled := false;
        wasOptimizeTestSetItemSelected := optimizeTestSetSelected;
        optimizeTestSetSelected := false;
      }
    }

    /** A click on Optimize Test Set toggles it, and does nothing while it is disabled. */
    method ClickOptimizeTestSet()
      requires Valid()
      modifies this`optimizeTestSetSelected
      ensures Valid()
      ensures optimizeTestSetSelected == (if optimizeTestSetEnabled then !old(optimizeTestSetSelected)
                                          else old(optimizeTestSetSelected))
    {
      if optimizeTestSetEnabled {
        optimizeTestSetSelected := !optimizeTestSetSelected;
      }
    }

    /** Deselecting and reselecting Reuse State Space gives Optimize Test Set back its selection. */
    method ReuseStateSpaceOffAndOn()
      requires Valid() && reuseStateSpaceSelected
      modifies this
      ensures Valid() && reuseStateSpaceSelected
      ensures optimizeTestSetSelected == old(optimizeTestSetSelected) && optimizeTestSetEnabled
    {
      ClickReuseStateSpace();
      ClickReuseStateSpace();
    }

    /** Focus on the condition field (condition A for leads-to). */
    method FocusPrimeText()
      modifies this`activeText
      ensures activeText == PrimeText
    {
      activeText := PrimeText;
    }

    /** Focus on the condition B field. */
    method FocusOptionalText()
      modifies this`activeText
      ensures activeText == OptionalText
    {
      activeText := OptionalText;
    }

    /** Sets the text of the active field. */
    method SetActiveText(text: string)
      modifies this`primeText, this`optionalText
      ensures ActiveText() == text
      ensures activeText == PrimeText ==> optionalText == old(optionalText)
      ensures activeText == OptionalText ==> primeText == old(primeText)
    {
      if activeText == PrimeText {
        primeText := text;
      } else {
        optionalText := text;
      }
    }

    /** The operator selector's listener: the active text keeps its content and gets the operator's token. */
    method SelectOperator(op: string)
      modifies this`primeText, this`optionalText
      ensures ActiveText() == old(ActiveText()) + OperatorToken(op)
      ensures op !in OperatorNames ==> ActiveText() == old(ActiveText())
      ensures activeText == PrimeText ==> optionalText == old(optionalText)
      ensures activeText == OptionalText ==> primeText == old(primeText)
    {
      var token := OperatorToken(op);
      SetActiveText(ActiveText() + token);
    }

    /** The state, variable and event selectors' listener: the active text keeps its
        content and gets the element's name in parentheses. */
    method SelectElement(name: string)
      modifies this`primeText, this`optionalText
      ensures ActiveText() == old(ActiveText()) + ElementToken(name)
      ensures activeText == PrimeText ==> optionalText == old(optionalText)
      ensures activeText == OptionalText ==> primeText == old(primeText)
    {
      SetActiveText(ActiveText() + "(" + name + ")");
    }

    /** `setVerificationLabel(String)`: the text in black. */
    method SetVerificationLabel(text: string)
      modifies this`verificationResultLabel, this`labelColor
      ensures verificationResultLabel == text && labelColor == Black
    {
      verificationResultLabel, labelColor := text, Black;
    }

    /** `setVerificationLabel(boolean)`: the verdict on the current query mode for a
        returned trace or none, green when the condition holds and red otherwise. */
    method SetVerificationLabelFor(hasTrace: bool)
      modifies this`verificationResultLabel, this`labelColor
      ensures ConditionHolds(howTo, hasTrace) ==> verificationResultLabel == ConditionHoldsText && labelColor == Green
      ensures !ConditionHolds(howTo, hasTrace) ==> verificationResultLabel == ConditionFailsText && labelColor == Red
    {
      match howTo {
        case MightEventually | MightAlways =>
          if hasTrace {
            verificationResultLabel, labelColor := ConditionHoldsText, Green;
          } else {
            verificationResultLabel, labelColor := ConditionFailsText, Red;
          }
        case MustAlways | MustEventually | LeadsTo =>
          if !hasTrace {
            verificationResultLabel, labelColor := ConditionHoldsText, Green;
          } else {
            verificationResultLabel, labelColor := ConditionFailsText, Red;
          }
      }
    }

    /** `setVerificationButtons`: while a verification runs Reset reads "Stop" and Verify
        and Generate Test Set are disabled; afterwards all is restored. */
    method SetVerificationButtons(isEnabled: bool)
      modifies this`resetButtonText, this`verifyEnabled, this`generateTestSetEnabled
      ensures resetButtonText == (if isEnabled then "Reset" else "Stop")
      ensures verifyEnabled == isEnabled && generateTestSetEnabled == isEnabled
    {
      if isEnabled {
        resetButtonText := "Reset";
      } else {
        resetButtonText := "Stop";
      }
      verifyEnabled := isEnabled;
      generateTestSetEnabled := isEnabled;
    }

    /** The Reset (Stop) button. `cancelled` is what the controller's cancelVerification
        answered: a cancelled verification keeps the texts and reports the cancellation,
        otherwise the condition, query and label texts are cleared. */
    method Reset(cancelled: bool)
      modifies this`primeText, this`optionalText, this`resultText, this`verificationResultLabel, this`labelColor
      ensures cancelled ==> && primeText == old(primeText) && optionalText == old(optionalText)
                            && resultText == old(resultText)
                            && verificationResultLabel == CancelledText && labelColor == Black
      ensures !cancelled ==> && primeText == "" && optionalText == "" && resultText == ""
                             && verificationResultLabel == "" && labelColor == old(labelColor)
    {
      if cancelled {
        verificationResultLabel, labelColor := CancelledText, Black;
        return;
      }
      primeText := "";
      optionalText := "";
      resultText := "";
      verificationResultLabel := "";
    }

    /** `handleVerificationExceptions`, for an exception with the given message: an "[error]"
        message reports an invalid condition, an "[warning]" one is only logged, any other
        message is shown in the log area; the result label is cleared in every case. */
    method HandleVerificationExceptions(message: Option<string>)
      modifies this`logText, this`verificationResultLabel
      ensures verificationResultLabel == ""
      ensures message.None? ==> logText == old(logText)
      ensures message.Some? && Contains(message.value, "[error]") ==> logText == InvalidExpressionText
      ensures (message.Some? && !Contains(message.value, "[error]") && Contains(message.value, "[warning]"))
                ==> logText == old(logText)
      ensures (message.Some? && !Contains(message.value, "[error]") && !Contains(message.value, "[warning]"))
                ==> logText == message.value
    {
      if message.None? {
        // only logged
      } else if Contains(message.value, "[error]") {
        logText := InvalidExpressionText;
      } else if Contains(message.value, "[warning]") {
        verificationResultLabel := "";
      } else {
        logText := message.value;
      }
      verificationResultLabel := "";
    }
  }
}
