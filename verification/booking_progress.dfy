/** The three-step progress bar of the booking page: each step's status, its
    marker, its label highlight and the connector after it. */
module BookingProgress {

  datatype Step = Step(id: nat, name: string, description: string)

  const Steps: seq<Step> := [
    Step(0, "Details", "Passenger Information"),
    Step(1, "Review", "Review & Confirm"),
    Step(2, "Payment", "Complete Payment")
  ]

  datatype StepStatus = Completed | Current | Upcoming

  /** The circle's style class: completed before the current step, current
      on it, upcoming after it. */
  function Status(currentStep: int, id: int): StepStatus {
    if currentStep > id then Completed
    else if currentStep == id then Current
    else Upcoming
  }

  /** What the circle shows. */
  datatype Marker = CheckMark | Number(n: nat)

  /** How one step is drawn. `connector` is the line after the step, when
      there is one, and whether it is highlighted. */
  datatype StepView = StepView(step: Step, status: StepStatus, marker: Marker,
                               labelHighlighted: bool, connector: Connector)

  datatype Connector = NoLine | Line(highlighted: bool)

  /** The whole bar for a given current step. */
  function Render(currentStep: int): (v: seq<StepView>)
    ensures |v| == |Steps| == 3
    ensures forall i :: 0 <= i < |v| ==> v[i].step == Steps[i] && v[i].step.id == i
    ensures forall i :: 0 <= i < |v| ==>
              (v[i].status == Completed <==> currentStep > i)
              && (v[i].status == Current <==> currentStep == i)
              && (v[i].status == Upcoming <==> currentStep < i)
    ensures forall i :: 0 <= i < |v| ==>
              (v[i].marker == CheckMark <==> v[i].status == Completed)
              && (v[i].marker != CheckMark ==> v[i].marker == Number(i + 1))
    ensures forall i :: 0 <= i < |v| ==> (v[i].labelHighlighted <==> v[i].status != Upcoming)
    ensures forall i :: 0 <= i < |v| ==> (v[i].connector.Line? <==> i < |v| - 1)
    ensures forall i :: 0 <= i < |v| && v[i].connector.Line? ==>
              (v[i].connector.highlighted <==> v[i].status == Completed)
  {
    seq(|Steps|, i requires 0 <= i < |Steps| =>
      var id := Steps[i].id;
      StepView(
        Steps[i],
        Status(currentStep, id),
        if currentStep > id then CheckMark else Number(id + 1),
        currentStep >= id,
        if i < |Steps| - 1 then Line(currentStep > id) else NoLine))
  }

  function Rank(st: StepStatus): nat {
    match st
    case Completed => 2
    case Current => 1
    case Upcoming => 0
  }

  /** Along the bar the statuses never move backwards: completed steps come
      first, then at most one current step, then upcoming ones. */
  lemma StatusesOrdered(currentStep: int, i: nat, j: nat)
    requires i < j < 3
    ensures Rank(Render(currentStep)[i].status) >= Rank(Render(currentStep)[j].status)
    ensures !(Render(currentStep)[i].status == Current && Render(currentStep)[j].status == Current)
  {
  }

  /** The number of completed steps is the current step, clamped to the bar. */
  lemma CompletedCount(currentStep: int)
    requires 0 <= currentStep <= 3
    ensures forall i :: 0 <= i < 3 ==> (Render(currentStep)[i].status == Completed <==> i < currentStep)
  {
  }

  /** On the first page of the flow the first step is current, the rest
      upcoming, and no connector is lit. */
  lemma FirstStepView()
    ensures Render(0)[0].status == Current && Render(0)[0].marker == Number(1)
    ensures Render(0)[1].status == Upcoming && Render(0)[2].status == Upcoming
    ensures Render(0)[0].connector == Line(false) && Render(0)[1].connector == Line(false)
    ensures Render(0)[2].connector == NoLine
  {
  }
}
