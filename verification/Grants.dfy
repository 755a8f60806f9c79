/** Durable plan and step grants.

    The rows live in a database whose every statement is atomic.  A broker call is a
    short program of such statements, so two calls may interleave between statements;
    `Advance` is one statement of one call, and `RunAlone` is a call nobody interrupts. */
module Grants {
  import opened Wrappers

  /** Instants; ISO-8601 strings in one fixed format compare as instants. */
  type Time = int

  datatype PlanStatus =
    | Pending | Approved | InProgress | Consumed | Failed | Rejected | Cancelled | Expired

  datatype StepStatus = StepApproved | StepConsumed

  /** A stored JSON text, seen through its parse: an object with countable steps (none when
      the field is absent), an object whose steps have no length, another value, or no JSON. */
  datatype Payload =
    | Document(text: string, steps: seq<string>)
    | Uncountable(text: string)
    | NoObject(text: string)
    | Malformed(text: string)

  /** Digests are free constructors: equal exactly when their preimages are. */
  datatype Digest = Sha256(of: Payload)
  datatype ParamsHash = ParamsHash(toolId: string, params: string, planId: string, identityHash: string)

  datatype Identity = Identity(userId: string, sessionId: string, identityHash: string)

  datatype Plan = Plan(
    owner: Identity, planId: string, planHash: Digest, payload: Payload, riskLevel: string,
    status: PlanStatus, approvedAt: Option<Time>, expiresAt: Time)

  /** UNIQUE(plan_grant_id, step_index) makes this pair a key of the step table. */
  datatype Slot = Slot(plan: string, index: int)

  datatype Binding = Binding(
    planId: string, planHash: Digest, stepId: string, toolId: string,
    paramsHash: ParamsHash, identityHash: string, sessionId: string)

  datatype StepRow = StepRow(id: string, binding: Binding, status: StepStatus, expiresAt: Time)

  datatype Db = Db(plans: map<string, Plan>, rows: map<Slot, StepRow>)

  datatype Error = PermissionError | ValueError | IntegrityError | AttributeError

  // ---------------------------------------------------------------- statements

  predicate LegalEdge(source: PlanStatus, target: PlanStatus)
  {
    || (source == Pending && target in {Approved, Rejected, Cancelled})
    || (source == Approved && target in {InProgress, Cancelled})
    || (source == InProgress && target in {Consumed, Failed})
  }

  predicate Live(status: PlanStatus) { status in {Pending, Approved, InProgress} }

  function CreatePlan(db: Db, g: string, plan: Plan): (Db, Option<Error>)
  {
    if g == "" || plan.owner.userId == "" || plan.owner.sessionId == "" || plan.owner.identityHash == ""
       || plan.planId == "" || plan.payload.text == "" || plan.riskLevel == "" then (db, Some(ValueError))
    else if g in db.plans then (db, Some(IntegrityError))
    else (db.(plans := db.plans[g := plan.(status := Pending, approvedAt := None)]), None)
  }

  /** Compare-and-swap on the status; an overdue live row expires instead. */
  function Transition(db: Db, g: string, expected: PlanStatus, target: PlanStatus, now: Time): (Db, bool)
  {
    if !LegalEdge(expected, target) || g !in db.plans then (db, false)
    else
      var row := db.plans[g];
      if row.expiresAt <= now && Live(row.status) then
        (db.(plans := db.plans[g := row.(status := Expired)]), false)
      else if row.status != expected || row.expiresAt <= now then (db, false)
      else
        var row' := row.(status := target, approvedAt := if target == Approved then Some(now) else row.approvedAt);
        (db.(plans := db.plans[g := row']), true)
  }

  datatype Insert = Inserted | Refused | Violates(error: Error)

  predicate Complete(slot: Slot, row: StepRow)
  {
    && row.id != "" && slot.plan != "" && row.binding.planId != "" && row.binding.stepId != ""
    && row.binding.toolId != "" && row.binding.identityHash != "" && row.binding.sessionId != ""
  }

  function CreateStep(db: Db, slot: Slot, row: StepRow): (Db, Insert)
  {
    if !Complete(slot, row) then (db, Violates(ValueError))
    else if slot.plan !in db.plans || db.plans[slot.plan].status !in {Approved, InProgress} then (db, Refused)
    else
      var parent := db.plans[slot.plan];
      if parent.planId != row.binding.planId || parent.planHash != row.binding.planHash
         || parent.owner.identityHash != row.binding.identityHash
         || parent.owner.sessionId != row.binding.sessionId then (db, Refused)
      else if slot in db.rows || exists s :: s in db.rows && db.rows[s].id == row.id then
        (db, Violates(IntegrityError))
      else (db.(rows := db.rows[slot := row.(status := StepApproved)]), Inserted)
  }

  /** One conditional UPDATE: approved, unexpired and every bound column equal. */
  function ConsumeStep(db: Db, id: string, slot: Slot, binding: Binding, now: Time): (Db, bool)
  {
    if slot !in db.rows then (db, false)
    else
      var row := db.rows[slot];
      if !Complete(slot, row.(binding := binding))
         || row.id != id || row.status != StepApproved || row.expiresAt <= now || row.binding != binding then
        (db, false)
      else (db.(rows := db.rows[slot := row.(status := StepConsumed)]), true)
  }

  predicate IsConsumed(db: Db, g: string, i: int)
  {
    Slot(g, i) in db.rows && db.rows[Slot(g, i)].status == StepConsumed
  }

  function ConsumedSlots(db: Db, g: string): set<Slot>
  {
    set s | s in db.rows && s.plan == g && db.rows[s].status == StepConsumed
  }

  // --------------------------------------------------------------- broker calls

  datatype Op =
    | Issue(g: string, who: Identity, rowId: string, stepId: string, index: nat,
            toolId: string, params: string, expires: Time)
    | Close(g: string, who: Identity)
    | Resume(g: string, who: Identity)
    | Abort(g: string, who: Identity)

  datatype Context = Context(id: string, slot: Slot, userId: string, binding: Binding,
                             approvedAt: Option<Time>, expiresAt: Time)

  datatype Reply = Granted(ctx: Context) | Closed(ok: bool) | Resumed(payload: Payload) | Raised(error: Error)

  datatype Pc =
    | Start
    | Scanning(plan: Plan, k: nat)   // Issue: earlier indexes below k were seen consumed
    | Creating(plan: Plan)           // Issue: no row was seen at the index
    | Created                        // Issue: the row is in, to be read back
    | Fetched(row: StepRow)          // Issue: the row was read back, the plan is still to be read
    | Claiming                       // Resume: the plan was seen approved
    | Rereading                      // Resume: the claim succeeded
    | Recovering                     // Resume: the plan was seen in progress
    | Counting(expected: nat)        // Close: the payload lists this many steps
    | Closing(counted: nat)          // Close: the consumed count matched
    | Aborting                       // Abort: the owner matched
    | Done(reply: Reply)

  function NewRow(op: Op, plan: Plan): StepRow
    requires op.Issue?
  {
    StepRow(op.rowId,
            Binding(plan.planId, plan.planHash, op.stepId, op.toolId,
                    ParamsHash(op.toolId, op.params, plan.planId, op.who.identityHash),
                    op.who.identityHash, op.who.sessionId),
            StepApproved, op.expires)
  }

  function Recover(db: Db, g: string): Reply
  {
    if g !in db.plans || db.plans[g].status !in {Approved, InProgress} then Raised(PermissionError)
    else if Sha256(db.plans[g].payload) != db.plans[g].planHash then Raised(PermissionError)
    else if db.plans[g].payload.Malformed? then Raised(PermissionError)
    else Resumed(db.plans[g].payload)
  }

  function AdvanceIssue(db: Db, op: Op, pc: Pc): (Db, Pc)
    requires op.Issue?
  {
    match pc
    case Start =>
      if op.g !in db.plans || db.plans[op.g].status != InProgress then (db, Done(Raised(PermissionError)))
      else if db.plans[op.g].owner != op.who then (db, Done(Raised(PermissionError)))
      else (db, Scanning(db.plans[op.g], 0))
    case Scanning(plan, k) =>
      if k < op.index then
        if !IsConsumed(db, op.g, k) then (db, Done(Raised(PermissionError))) else (db, Scanning(plan, k + 1))
      else if Slot(op.g, op.index) in db.rows then
        var row := db.rows[Slot(op.g, op.index)];
        if row.status != StepApproved then (db, Done(Raised(PermissionError)))
        else
          var binding := row.binding.(planId := plan.planId, planHash := plan.planHash,
                                      identityHash := op.who.identityHash, sessionId := op.who.sessionId);
          (db, Done(Granted(Context(row.id, Slot(op.g, op.index), op.who.userId, binding,
                                    plan.approvedAt, row.expiresAt))))
      else (db, Creating(plan))
    case Creating(plan) =>
      var (db', result) := CreateStep(db, Slot(op.g, op.index), NewRow(op, plan));
      (db', match result
            case Inserted => Created
            case Refused => Done(Raised(PermissionError))
            case Violates(error) => Done(Raised(error)))
    case Created =>
      if Slot(op.g, op.index) !in db.rows then (db, Done(Raised(PermissionError)))
      else (db, Fetched(db.rows[Slot(op.g, op.index)]))
    case Fetched(row) =>
      if op.g !in db.plans || db.plans[op.g].approvedAt.None? then (db, Done(Raised(PermissionError)))
      else
        var plan := db.plans[op.g];
        (db, Done(Granted(Context(row.id, Slot(op.g, op.index), plan.owner.userId, row.binding,
                                  plan.approvedAt, row.expiresAt))))
    case _ => (db, pc)
  }

  function AdvanceResume(db: Db, op: Op, pc: Pc, now: Time): (Db, Pc)
    requires op.Resume?
  {
    match pc
    case Start =>
      if op.who.userId == "" || op.who.sessionId == "" || op.who.identityHash == "" then (db, Done(Raised(PermissionError)))
      else if op.g !in db.plans || db.plans[op.g].owner != op.who then (db, Done(Raised(PermissionError)))
      else if db.plans[op.g].status == Approved then (db, Claiming)
      else if db.plans[op.g].status == InProgress then (db, Recovering)
      else (db, Done(Raised(PermissionError)))
    case Claiming =>
      var (db', ok) := Transition(db, op.g, Approved, InProgress, now);
      (db', if ok then Rereading else Done(Raised(PermissionError)))
    case Rereading =>
      if op.g !in db.plans || db.plans[op.g].status != InProgress then (db, Done(Raised(PermissionError)))
      else (db, Recovering)
    case Recovering => (db, Done(Recover(db, op.g)))
    case _ => (db, pc)
  }

  function AdvanceClose(db: Db, op: Op, pc: Pc, now: Time): (Db, Pc)
    requires op.Close? || op.Abort?
  {
    match pc
    case Start =>
      if op.g !in db.plans || db.plans[op.g].owner != op.who then (db, Done(Closed(false)))
      else if op.Abort? then (db, Aborting)
      else
        var payload := db.plans[op.g].payload;
        if payload.NoObject? then (db, Done(Raised(AttributeError)))
        else if !payload.Document? then (db, Done(Closed(false)))
        else (db, Counting(|payload.steps|))
    case Counting(expected) =>
      if expected == 0 || |ConsumedSlots(db, op.g)| != expected then (db, Done(Closed(false)))
      else (db, Closing(expected))
    case Closing(_) =>
      var (db', ok) := Transition(db, op.g, InProgress, Consumed, now);
      (db', Done(Closed(ok)))
    case Aborting =>
      var (db', ok) := Transition(db, op.g, InProgress, Failed, now);
      (db', Done(Closed(ok)))
    case _ => (db, pc)
  }

  /** One database statement of the call `op`, now at `pc`. */
  function Advance(db: Db, op: Op, pc: Pc, now: Time): (Db, Pc)
  {
    match op
    case Issue(_, _, _, _, _, _, _, _) => AdvanceIssue(db, op, pc)
    case Resume(_, _) => AdvanceResume(db, op, pc, now)
    case _ => AdvanceClose(db, op, pc, now)
  }

  /** The program points a call can be at. */
  predicate AtHome(op: Op, pc: Pc)
  {
    match pc
    case Start => true
    case Done(_) => true
    case Scanning(_, k) => op.Issue? && k <= op.index
    case Creating(_) => op.Issue?
    case Created => op.Issue?
    case Fetched(_) => op.Issue?
    case Claiming => op.Resume?
    case Rereading => op.Resume?
    case Recovering => op.Resume?
    case Counting(_) => op.Close?
    case Closing(_) => op.Close?
    case Aborting => op.Abort?
  }

  function Remaining(op: Op, pc: Pc): nat
    requires AtHome(op, pc)
  {
    match pc
    case Start => if op.Issue? then op.index + 5 else 4
    case Scanning(_, k) => op.index - k + 4
    case Creating(_) => 3
    case Created => 2
    case Claiming => 3
    case Rereading => 2
    case Counting(_) => 2
    case Done(_) => 0
    case _ => 1
  }

  lemma AdvanceStaysHome(db: Db, op: Op, pc: Pc, now: Time)
    requires AtHome(op, pc)
    ensures AtHome(op, Advance(db, op, pc, now).1)
    ensures !pc.Done? ==> Remaining(op, Advance(db, op, pc, now).1) < Remaining(op, pc)
  {
  }

  /** The call run to its end with no other call in between. */
  function RunAlone(db: Db, op: Op, pc: Pc, now: Time): (Db, Reply)
    requires AtHome(op, pc)
    decreases Remaining(op, pc)
  {
    if pc.Done? then (db, pc.reply)
    else
      AdvanceStaysHome(db, op, pc, now);
      var (db', pc') := Advance(db, op, pc, now);
      RunAlone(db', op, pc', now)
  }
}
