/** Case and step statuses and the transitions the frozen state machine allows. */
module CaseContracts {
  import opened ToolPlan

  datatype CaseStatus = CasePending | CasePlanned | CaseRunning | CaseWaitingApproval | CaseCompleted | CaseFailed

  datatype StepStatus = StepPending | StepRunning | StepCompleted | StepFailed | StepSkipped

  predicate CaseMayMove(a: CaseStatus, b: CaseStatus) {
    match a
    case CasePending => b in {CasePlanned, CaseFailed}
    case CasePlanned => b in {CaseRunning, CaseFailed}
    case CaseRunning => b in {CaseWaitingApproval, CaseCompleted, CaseFailed}
    case CaseWaitingApproval => b in {CaseRunning, CaseCompleted, CaseFailed}
    case CaseCompleted => false
    case CaseFailed => false
  }

  predicate StepMayMove(a: StepStatus, b: StepStatus) {
    match a
    case StepPending => b in {StepRunning, StepSkipped, StepFailed}
    case StepRunning => b in {StepCompleted, StepFailed}
    case StepCompleted => false
    case StepFailed => false
    case StepSkipped => false
  }

  /** The step records of a case do not accept an empty id or an empty tool name. */
  predicate Buildable(plan: Plan) {
    forall c :: c in plan ==> c.id != "" && c.tool != OtherTool("")
  }

  datatype Built = Rejected | Built(record: CaseRecord)

  /** The case record a run updates: its status and the status of each step.
      A transition that the state machine forbids raises and changes nothing. */
  class CaseRecord {
    var status: CaseStatus
    var steps: map<StepId, StepStatus>

    constructor (plan: Plan)
      requires Buildable(plan)
      ensures status == CasePlanned
      ensures steps == map x | x in Ids(plan) :: StepPending
    {
      status := CasePlanned;
      steps := map x | x in Ids(plan) :: StepPending;
    }

    /** A new case has all steps pending and is planned; a plan with a step the
        record does not accept raises instead. */
    static method FromPlan(plan: Plan) returns (built: Built)
      ensures built.Rejected? <==> exists c :: c in plan && (c.id == "" || c.tool == OtherTool(""))
      ensures built.Built? ==>
        && fresh(built.record) && built.record.status == CasePlanned
        && built.record.steps == map x | x in Ids(plan) :: StepPending
    {
      for i := 0 to |plan|
        invariant forall k :: 0 <= k < i ==> plan[k].id != "" && plan[k].tool != OtherTool("")
      {
        if plan[i].id == "" || plan[i].tool == OtherTool("") {
          return Rejected;
        }
      }
      var record := new CaseRecord(plan);
      built := Built(record);
    }

    method TransitionStep(id: StepId, next: StepStatus) returns (legal: bool)
      requires id in steps
      modifies this`steps
      ensures legal == StepMayMove(old(steps[id]), next)
      ensures steps == if legal then old(steps)[id := next] else old(steps)
    {
      legal := StepMayMove(steps[id], next);
      if legal {
        steps := steps[id := next];
      }
    }

    method TransitionCase(next: CaseStatus) returns (legal: bool)
      modifies this`status
      ensures legal == CaseMayMove(old(status), next)
      ensures status == if legal then next else old(status)
    {
      legal := CaseMayMove(status, next);
      if legal {
        status := next;
      }
    }
  }
}
