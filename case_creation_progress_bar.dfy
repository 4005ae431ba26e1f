/** The progress bar of the case-creation wizard: each step marked completed
  * or active from the step the wizard reports. */
module CaseCreationProgressBar {
  import opened Text

  /** A step as the bar shows it, with the class lists of its item and its
    * marker. */
  datatype BarStep = BarStep(title: string, isCompleted: bool, isActive: bool, stepClass: string, markerClass: string)

  /** `slds-progress__item ${completed} ${active}`. */
  function StepClass(completed: bool, active: bool): string {
    "slds-progress__item " + (if completed then "slds-is-completed" else "") + " " +
    (if active then "slds-is-active" else "")
  }

  /** `slds-progress__marker ${completed}`. */
  function MarkerClass(completed: bool): string {
    "slds-progress__marker " + (if completed then "slds-progress__marker_icon" else "")
  }

  function Marked(step: BarStep, i: nat, current: int): BarStep {
    step.(isCompleted := i < current, isActive := i == current,
          stepClass := StepClass(i < current, i == current), markerClass := MarkerClass(i < current))
  }

  /** `updateSteps`. */
  function MarkedSteps(steps: seq<BarStep>, current: int): seq<BarStep> {
    seq(|steps|, i requires 0 <= i < |steps| => Marked(steps[i], i, current))
  }

  /** A step is completed exactly below the current step and active exactly
    * at it; labels and the number of steps are kept. */
  lemma MarkedStepsProperties(steps: seq<BarStep>, current: int)
    ensures |MarkedSteps(steps, current)| == |steps|
    ensures forall i :: 0 <= i < |steps| ==>
      var m := MarkedSteps(steps, current)[i];
      m.title == steps[i].title && (m.isCompleted <==> i < current) && (m.isActive <==> i == current)
  {
  }

  /** At most one step is active, and none when the current step is not one
    * of the steps. */
  lemma AtMostOneActive(steps: seq<BarStep>, current: int, i: nat, j: nat)
    requires i < |steps| && j < |steps|
    requires MarkedSteps(steps, current)[i].isActive && MarkedSteps(steps, current)[j].isActive
    ensures i == j && 0 <= current < |steps|
  {
  }

  /** The item class names the completed state exactly when the step is
    * completed. */
  lemma StepClassCompleted(completed: bool, active: bool)
    ensures Contains(StepClass(completed, active), "slds-is-completed") <==> completed
  {
    var s := StepClass(completed, active);
    var p := "slds-is-completed";
    if completed {
      assert StartsWith(s[20..], p);
    } else {
      // No occurrence can reach the `c` of "completed": the only `c` of the
      // class lies too far along.
      var a := "slds-progress__item  ";
      var t := if active then "slds-is-active" else "";
      assert s == a + t;
      assert 'c' !in a;
      forall i | 0 <= i <= |s| ensures !StartsWith(s[i..], p) {
        if i + |p| <= |s| {
          if i + 8 < |a| {
            assert s[i + 8] == a[i + 8];
          } else {
            assert active && t[..6] == "slds-i";
            assert s[i + 8] == t[..6][i + 8 - |a|];
          }
          MismatchAt(s[i..], p, 8);
        }
      }
    }
  }

  /** The marker class carries the icon exactly when the step is completed. */
  lemma MarkerClassCompleted(completed: bool)
    ensures Contains(MarkerClass(completed), "slds-progress__marker_icon") <==> completed
  {
    var s := MarkerClass(completed);
    var p := "slds-progress__marker_icon";
    if completed {
      assert StartsWith(s[22..], p);
    } else {
      forall i | 0 <= i <= |s| ensures !StartsWith(s[i..], p) {
      }
    }
  }

  class ProgressBar {
    var currentStep: int
    var steps: seq<BarStep>

    constructor (steps: seq<BarStep>, currentStep: int)
      ensures this.steps == steps && this.currentStep == currentStep
    {
      this.steps := steps;
      this.currentStep := currentStep;
    }

    /** `updateStep`: the reported step becomes current and every step is
      * marked from it. */
    method UpdateStep(step: int)
      modifies this
      ensures currentStep == step && steps == MarkedSteps(old(steps), step)
    {
      currentStep := step;
      UpdateSteps();
    }

    /** `updateSteps`. */
    method UpdateSteps()
      modifies this`steps
      ensures steps == MarkedSteps(old(steps), currentStep)
    {
      steps := MarkedSteps(steps, currentStep);
    }
  }
}
