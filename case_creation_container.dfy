/** The case-creation wizard: the steps of the case type's flow, the step the
  * user is on, and the progress marks of every step. */
module CaseCreationContainer {
  import opened Seqs

  /** A step of the progress indicator; `status` is the `activeStatus` text
    * and `styleClass` its CSS class list. */
  datatype Step = Step(title: string, isCompleted: bool, isActive: bool, status: string, styleClass: string)

  const ItemClass := "slds-progress__item"
  const ActiveClass := "slds-progress__item slds-is-active"
  const CompletedClass := "slds-progress__item slds-is-completed"

  /** The step fetched at index `i` of the flow's metadata. */
  function FreshStep(title: string, i: nat): Step {
    Step(title, false, i == 0, if i == 0 then "Active" else "", if i == 0 then ActiveClass else ItemClass)
  }

  /** `fetchFlowMetadata`, after the metadata arrives. */
  function FreshSteps(labels: seq<string>): seq<Step> {
    seq(|labels|, i requires 0 <= i < |labels| => FreshStep(labels[i], i))
  }

  /** One step per label, in order; only the first is active and none is
    * completed. */
  lemma FreshStepsProperties(labels: seq<string>)
    ensures |FreshSteps(labels)| == |labels|
    ensures forall i :: 0 <= i < |labels| ==>
      FreshSteps(labels)[i].title == labels[i] && !FreshSteps(labels)[i].isCompleted &&
      (FreshSteps(labels)[i].isActive <==> i == 0)
  {
  }

  /** The marks of a step at index `i` when the user is on step `current`. */
  function Marked(step: Step, i: nat, current: int): Step {
    if i < current then step.(isCompleted := true, isActive := false, styleClass := CompletedClass)
    else if i == current then step.(isCompleted := false, isActive := true, styleClass := ActiveClass)
    else step.(isCompleted := false, isActive := false, styleClass := ItemClass)
  }

  /** `updateSteps`. */
  function MarkedSteps(steps: seq<Step>, current: int): seq<Step> {
    seq(|steps|, i requires 0 <= i < |steps| => Marked(steps[i], i, current))
  }

  /** Steps before the current one are completed, the current one is active,
    * later ones are neither; labels and status texts are kept. */
  lemma MarkedStepsProperties(steps: seq<Step>, current: int)
    ensures |MarkedSteps(steps, current)| == |steps|
    ensures forall i :: 0 <= i < |steps| ==>
      var m := MarkedSteps(steps, current)[i];
      m.title == steps[i].title && m.status == steps[i].status &&
      (m.isCompleted <==> i < current) && (m.isActive <==> i == current)
  {
  }

  /** Marking is determined by the current step alone: marking again gives
    * the same steps. */
  lemma MarkedStepsIdempotent(steps: seq<Step>, current: int, other: int)
    ensures MarkedSteps(MarkedSteps(steps, other), current) == MarkedSteps(steps, current)
  {
    var once := MarkedSteps(steps, other);
    var twice := MarkedSteps(once, current);
    forall i | 0 <= i < |steps| ensures twice[i] == MarkedSteps(steps, current)[i] {
      assert once[i].title == steps[i].title;
    }
  }

  class Container {
    var currentStep: int
    var steps: seq<Step>
    var caseType: string

    constructor ()
      ensures currentStep == 0 && steps == [] && caseType == "Estates"
    {
      currentStep := 0;
      steps := [];
      caseType := "Estates";
    }

    /** `fetchFlowMetadata`: the steps of the fetch, or the old steps when the
      * fetch fails. */
    method FetchFlowMetadata(result: Option<seq<string>>)
      modifies this`steps
      ensures steps == if result.Some? then FreshSteps(result.value) else old(steps)
    {
      if result.Some? {
        steps := FreshSteps(result.value);
      }
    }

    /** `handleCaseTypeEvent`: a new case type refetches its flow and puts the
      * user on step 1, whether or not the fetch succeeded; a blank one is
      * ignored. */
    method HandleCaseTypeEvent(newCaseType: string, result: Option<seq<string>>)
      modifies this
      ensures newCaseType == "" ==> caseType == old(caseType) && steps == old(steps) && currentStep == old(currentStep)
      ensures newCaseType != "" ==>
        caseType == newCaseType && currentStep == 1 &&
        steps == MarkedSteps(if result.Some? then FreshSteps(result.value) else old(steps), 1)
    {
      if newCaseType != "" {
        caseType := newCaseType;
        FetchFlowMetadata(result);
        currentStep := 1;
        UpdateSteps();
      }
    }

    /** `handleNext`: on one step unless on the last. */
    method HandleNext()
      modifies this`currentStep, this`steps
      ensures old(currentStep) < |old(steps)| - 1 ==>
        currentStep == old(currentStep) + 1 && steps == MarkedSteps(old(steps), currentStep)
      ensures old(currentStep) >= |old(steps)| - 1 ==> currentStep == old(currentStep) && steps == old(steps)
      ensures old(0 <= currentStep < |steps|) ==> 0 <= currentStep < |steps|
    {
      if currentStep < |steps| - 1 {
        currentStep := currentStep + 1;
        UpdateSteps();
      }
    }

    /** `handleBack`: back one step unless on the first. */
    method HandleBack()
      modifies this`currentStep, this`steps
      ensures old(currentStep) > 0 ==>
        currentStep == old(currentStep) - 1 && steps == MarkedSteps(old(steps), currentStep)
      ensures old(currentStep) <= 0 ==> currentStep == old(currentStep) && steps == old(steps)
      ensures old(0 <= currentStep < |steps|) ==> 0 <= currentStep < |steps|
    {
      if currentStep > 0 {
        currentStep := currentStep - 1;
        UpdateSteps();
      }
    }

    /** `updateSteps`. */
    method UpdateSteps()
      modifies this`steps
      ensures steps == MarkedSteps(old(steps), currentStep)
    {
      steps := MarkedSteps(steps, currentStep);
    }
  }
}
