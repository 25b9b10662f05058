/** The first-run tutorial: five steps shown in a dialog that opens once,
    on a delay, for a user who has not completed or skipped it. */
module Onboarding {
  import opened Wrappers

  datatype Step = Step(title: string, description: string)

  const Steps: seq<Step> := [
    Step("Bem-vindo ao PEC.AI! \U{1F44B}", "Vamos te ensinar como usar o app em 4 passos simples."),
    Step("Passo 1: Criar Cartões \U{1F4F8}", "Tire uma foto ou escolha uma imagem da galeria"),
    Step("Passo 2: Montar Frases \U{1F4AC}", "Combine cartões para se comunicar"),
    Step("Passo 3: Usar Áudio \U{1F50A}", "Fale sua frase em voz alta"),
    Step("Pronto para começar! \U{1F389}", "Agora você sabe usar o PEC.AI")
  ]

  /** The browser-storage key that records completion. */
  const CompletedKey := "pec-ai-tutorial-completed"

  /** Where "next" leads from a step: the following step, or completion
      (`None`) from the last one. */
  function NextStep(step: nat): (r: Option<nat>)
    requires step < |Steps|
    ensures r.Some? ==> r.value < |Steps|
  {
    if step < |Steps| - 1 then Some(step + 1) else None
  }

  /** Where "previous" leads: one step back, never before the first. */
  function PreviousStep(step: nat): (r: nat)
    requires step < |Steps|
    ensures r < |Steps|
  {
    if step > 0 then step - 1 else step
  }

  /** Going forward then back, or back then forward, returns to the step,
      away from the ends. */
  lemma NextPreviousInverse(step: nat)
    requires step < |Steps|
    ensures step < |Steps| - 1 ==> PreviousStep(NextStep(step).value) == step
    ensures step > 0 ==> NextStep(PreviousStep(step)) == Some(step)
  {
  }

  /** Where `n` presses of "next" lead, or completion. */
  function PressNext(step: nat, n: nat): Option<nat>
    requires step < |Steps|
    decreases n
  {
    if n == 0 then Some(step)
    else match NextStep(step)
      case None => None
      case Some(s) => PressNext(s, n - 1)
  }

  /** From any step, the last step is `|Steps| - 1 - step` presses away and
      one more press completes the tutorial. */
  lemma {:induction false} PressesToFinish(step: nat)
    requires step < |Steps|
    ensures PressNext(step, |Steps| - 1 - step) == Some(|Steps| - 1)
    ensures PressNext(step, |Steps| - step) == None
    decreases |Steps| - step
  {
    if step < |Steps| - 1 {
      PressesToFinish(step + 1);
    }
  }

  /** A progress segment before, at or after the current step. */
  datatype Segment = Done | Current | Upcoming

  function SegmentOf(index: nat, current: nat): Segment
  {
    if index == current then Current else if index < current then Done else Upcoming
  }

  function SegmentRank(s: Segment): nat
  {
    match s
    case Done => 0
    case Current => 1
    case Upcoming => 2
  }

  /** The bar reads done segments, then exactly the current one, then upcoming ones. */
  lemma SegmentsInOrder(current: nat)
    ensures forall i, j :: i < j ==> SegmentRank(SegmentOf(i, current)) <= SegmentRank(SegmentOf(j, current))
    ensures forall i :: SegmentOf(i, current) == Current <==> i == current
  {
  }

  /** "Começar!" on the last step, "Próximo" before it. */
  function NextLabel(step: nat): string
  {
    if step == |Steps| - 1 then "Começar!" else "Próximo"
  }

  /** The next button reads "Começar!" exactly on the step where pressing it
      completes the tutorial. */
  lemma NextLabelCompletes(step: nat)
    requires step < |Steps|
    ensures NextLabel(step) == "Começar!" <==> NextStep(step).None?
  {
    assert "Próximo"[0] != "Começar!"[0];
  }

  class OnboardingTutorial {
    var open: bool
    var currentStep: nat
    /** The stored completion entry, if any. */
    var completed: Option<string>
    /** The delayed opening scheduled on mount and not yet fired. */
    var timerPending: bool

    ghost predicate Valid()
      reads this
    {
      currentStep < |Steps|
    }

    constructor (stored: Option<string>)
      ensures Valid() && !open && currentStep == 0 && completed == stored && !timerPending
    {
      open := false;
      currentStep := 0;
      completed := stored;
      timerPending := false;
    }

    /** On mount, a user with no (or an empty) completion entry gets the
        dialog after a delay. */
    method Mount()
      modifies this`timerPending
      ensures timerPending == (completed.None? || completed.value == "")
    {
      timerPending := completed.None? || completed.value == "";
    }

    /** The delay elapsed. */
    method TimerFires()
      modifies this`open, this`timerPending
      ensures open == (old(open) || old(timerPending))
      ensures !timerPending
    {
      if timerPending {
        open := true;
        timerPending := false;
      }
    }

    /** Leaving the page cancels the delayed opening. */
    method Unmount()
      modifies this`timerPending
      ensures !timerPending
    {
      timerPending := false;
    }

    method HandleNext()
      requires Valid()
      modifies this`currentStep, this`open, this`completed
      ensures Valid()
      ensures NextStep(old(currentStep)).Some? ==>
                currentStep == NextStep(old(currentStep)).value && open == old(open) && completed == old(completed)
      ensures NextStep(old(currentStep)).None? ==>
                currentStep == old(currentStep) && !open && completed == Some("true")
    {
      if currentStep < |Steps| - 1 {
        currentStep := currentStep + 1;
      } else {
        HandleComplete();
      }
    }

    method HandlePrevious()
      requires Valid()
      modifies this`currentStep
      ensures Valid()
      ensures currentStep == PreviousStep(old(currentStep))
    {
      if currentStep > 0 {
        currentStep := currentStep - 1;
      }
    }

    /** Finishing records completion and closes the dialog. */
    method HandleComplete()
      modifies this`completed, this`open
      ensures completed == Some("true") && !open
    {
      completed := Some("true");
      open := false;
    }

    /** Skipping does the same as finishing, from any step. */
    method HandleSkip()
      modifies this`completed, this`open
      ensures completed == Some("true") && !open
    {
      completed := Some("true");
      open := false;
    }

    /** Dismissing the dialog closes it without recording completion. */
    method OnOpenChange(isOpen: bool)
      modifies this`open
      ensures open == isOpen
    {
      open := isOpen;
    }

    /** "Anterior" shows from the second step on. */
    predicate ShowsPrevious()
      reads this
    {
      currentStep > 0
    }

    /** The previous button shows exactly when pressing it would move back. */
    lemma PreviousShownWhenEffective()
      requires Valid()
      ensures ShowsPrevious() <==> PreviousStep(currentStep) != currentStep
    {
    }
  }
}
