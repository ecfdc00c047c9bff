/** The use-cases page: a four-step timeline whose clicked step drives a detail panel
    read by position, and use-case cards that remember which one the mouse is over. */
module UseCases {
  import opened Wrappers

  datatype TimelineStep = TimelineStep(id: int, title: string)

  const TimelineSteps: seq<TimelineStep> := [
    TimelineStep(1, "Clinician Input"),
    TimelineStep(2, "AI Processing"),
    TimelineStep(3, "Automatic Mapping"),
    TimelineStep(4, "EMR Integration")
  ]

  /** The number of use-case cards. */
  const UseCaseCount: nat := 4

  datatype UseCasesPage = UseCasesPage(activeStep: int, hoveredUseCase: Option<nat>)

  const Initial := UseCasesPage(1, None)

  /** Clicking timeline step `index` makes its id the active step. */
  function ClickStep(st: UseCasesPage, index: nat): (r: UseCasesPage)
    requires index < |TimelineSteps|
    ensures r.activeStep == TimelineSteps[index].id && r.hoveredUseCase == st.hoveredUseCase
  {
    st.(activeStep := TimelineSteps[index].id)
  }

  function MouseEnter(st: UseCasesPage, index: nat): (r: UseCasesPage)
    requires index < UseCaseCount
    ensures r.hoveredUseCase == Some(index) && r.activeStep == st.activeStep
  {
    st.(hoveredUseCase := Some(index))
  }

  function MouseLeave(st: UseCasesPage): (r: UseCasesPage)
    ensures r.hoveredUseCase.None? && r.activeStep == st.activeStep
  {
    st.(hoveredUseCase := None)
  }

  /** The detail panel reads the step at position `activeStep - 1`; `None` stands for the
      out-of-range read that would make rendering fail. */
  function DetailStep(st: UseCasesPage): (r: Option<TimelineStep>)
    ensures r.Some? <==> 1 <= st.activeStep <= |TimelineSteps|
    ensures r.Some? ==> r.value in TimelineSteps
  {
    if 1 <= st.activeStep <= |TimelineSteps| then Some(TimelineSteps[st.activeStep - 1]) else None
  }

  datatype UseCasesEvent = StepClicked(index: nat) | CardEntered(index: nat) | CardLeft

  /** One event; clicks and hovers name existing steps and cards, as the rendered lists do. */
  function Step(st: UseCasesPage, ev: UseCasesEvent): UseCasesPage
  {
    match ev
    case StepClicked(i) => if i < |TimelineSteps| then ClickStep(st, i) else st
    case CardEntered(i) => if i < UseCaseCount then MouseEnter(st, i) else st
    case CardLeft => MouseLeave(st)
  }

  /** Reachable states: the active step is the id of some step and the hovered card, if any, exists. */
  ghost predicate Inv(st: UseCasesPage)
  {
    && (exists i :: 0 <= i < |TimelineSteps| && TimelineSteps[i].id == st.activeStep)
    && (st.hoveredUseCase.Some? ==> st.hoveredUseCase.value < UseCaseCount)
  }

  /** The step ids are 1 to 4, each at its own position minus one. */
  lemma StepIdsArePositions()
    ensures forall i :: 0 <= i < |TimelineSteps| ==> TimelineSteps[i].id == i + 1
  {
  }

  lemma InitialInv()
    ensures Inv(Initial)
  {
    assert TimelineSteps[0].id == 1;
  }

  lemma StepInv(st: UseCasesPage, ev: UseCasesEvent)
    requires Inv(st)
    ensures Inv(Step(st, ev))
  {
    match ev
    case StepClicked(i) =>
      if i < |TimelineSteps| {
        assert TimelineSteps[i].id == Step(st, ev).activeStep;
      }
    case CardEntered(i) =>
    case CardLeft =>
  }

  /** In every reachable state the detail panel's read is in range and shows the step whose id is active. */
  lemma DetailShowsActiveStep(st: UseCasesPage)
    requires Inv(st)
    ensures DetailStep(st).Some? && DetailStep(st).value.id == st.activeStep
  {
    StepIdsArePositions();
  }

  /** After clicking step `index`, the panel shows exactly that step, and it alone is highlighted. */
  lemma ClickShowsStep(st: UseCasesPage, index: nat)
    requires index < |TimelineSteps|
    ensures DetailStep(ClickStep(st, index)) == Some(TimelineSteps[index])
    ensures forall j :: 0 <= j < |TimelineSteps| ==> (TimelineSteps[j].id == ClickStep(st, index).activeStep <==> j == index)
  {
    StepIdsArePositions();
  }
}
