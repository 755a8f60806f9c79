/** The repository and the broker as objects.  Every broker method is proved to do what
    the interleaved program does when nobody interrupts it. */
module GrantBroker {
  import opened Wrappers
  import opened Grants

  class ExecutionGrantRepository {
    var plans: map<string, Plan>
    var rows: map<Slot, StepRow>

    constructor ()
      ensures Contents() == Db(map[], map[])
    {
      plans, rows := map[], map[];
    }

    function Contents(): Db
      reads this
    {
      Db(plans, rows)
    }

    method AddPlan(g: string, plan: Plan) returns (error: Option<Error>)
      modifies this
      ensures (Contents(), error) == CreatePlan(old(Contents()), g, plan)
    {
      if g == "" || plan.owner.userId == "" || plan.owner.sessionId == "" || plan.owner.identityHash == ""
         || plan.planId == "" || plan.payload.text == "" || plan.riskLevel == "" {
        return Some(ValueError);
      }
      if g in plans {
        return Some(IntegrityError);
      }
      plans := plans[g := plan.(status := Pending, approvedAt := None)];
      error := None;
    }

    method TransitionPlan(g: string, expected: PlanStatus, target: PlanStatus, now: Time) returns (ok: bool)
      modifies this
      ensures (Contents(), ok) == Transition(old(Contents()), g, expected, target, now)
    {
      if !LegalEdge(expected, target) || g !in plans {
        return false;
      }
      var row := plans[g];
      if row.expiresAt <= now && Live(row.status) {
        plans := plans[g := row.(status := Expired)];
        return false;
      }
      if row.status != expected || row.expiresAt <= now {
        return false;
      }
      if target == Approved {
        row := row.(approvedAt := Some(now));
      }
      plans := plans[g := row.(status := target)];
      ok := true;
    }

    method InsertStep(slot: Slot, row: StepRow) returns (result: Insert)
      modifies this
      ensures (Contents(), result) == CreateStep(old(Contents()), slot, row)
    {
      if !Complete(slot, row) {
        return Violates(ValueError);
      }
      if slot.plan !in plans || plans[slot.plan].status !in {Approved, InProgress} {
        return Refused;
      }
      var parent := plans[slot.plan];
      if parent.planId != row.binding.planId || parent.planHash != row.binding.planHash
         || parent.owner.identityHash != row.binding.identityHash
         || parent.owner.sessionId != row.binding.sessionId {
        return Refused;
      }
      if slot in rows || exists s :: s in rows && rows[s].id == row.id {
        return Violates(IntegrityError);
      }
      rows := rows[slot := row.(status := StepApproved)];
      result := Inserted;
    }

    method UseStep(id: string, slot: Slot, binding: Binding, now: Time) returns (ok: bool)
      modifies this
      ensures (Contents(), ok) == ConsumeStep(old(Contents()), id, slot, binding, now)
    {
      if slot !in rows || !Complete(slot, rows[slot].(binding := binding)) {
        return false;
      }
      var row := rows[slot];
      if row.id != id || row.status != StepApproved || row.expiresAt <= now || row.binding != binding {
        return false;
      }
      rows := rows[slot := row.(status := StepConsumed)];
      ok := true;
    }
  }

  class ConfirmationBroker {
    const grants: ExecutionGrantRepository

    constructor (grants: ExecutionGrantRepository)
      ensures this.grants == grants
    {
      this.grants := grants;
    }

    method RecoverApprovedPlan(g: string) returns (reply: Reply)
      ensures reply == Recover(grants.Contents(), g)
    {
      if g !in grants.plans || grants.plans[g].status !in {Approved, InProgress} {
        return Raised(PermissionError);
      }
      var plan := grants.plans[g];
      if Sha256(plan.payload) != plan.planHash {
        return Raised(PermissionError);
      }
      if plan.payload.Malformed? {
        return Raised(PermissionError);
      }
      return Resumed(plan.payload);
    }

    method ApprovePlanGrant(g: string, now: Time) returns (ok: bool)
      modifies grants
      ensures (grants.Contents(), ok) == Transition(old(grants.Contents()), g, Pending, Approved, now)
    {
      ok := grants.TransitionPlan(g, Pending, Approved, now);
    }

    method ResumeApprovedPlan(g: string, who: Identity, now: Time) returns (reply: Reply)
      modifies grants
      ensures (grants.Contents(), reply) == RunAlone(old(grants.Contents()), Op.Resume(g, who), Start, now)
    {
      ghost var op, db := Op.Resume(g, who), grants.Contents();
      if who.userId == "" || who.sessionId == "" || who.identityHash == "" {
        return Raised(PermissionError);
      }
      if g !in grants.plans || grants.plans[g].owner != who {
        return Raised(PermissionError);
      }
      if grants.plans[g].status == Approved {
        assert RunAlone(db, op, Start, now) == RunAlone(db, op, Claiming, now);
        var claimed := grants.TransitionPlan(g, Approved, InProgress, now);
        if !claimed {
          assert Advance(db, op, Claiming, now) == (grants.Contents(), Done(Raised(PermissionError)));
          assert RunAlone(db, op, Claiming, now)
              == RunAlone(grants.Contents(), op, Done(Raised(PermissionError)), now);
          return Raised(PermissionError);
        }
        assert RunAlone(db, op, Claiming, now) == RunAlone(grants.Contents(), op, Rereading, now);
        if g !in grants.plans || grants.plans[g].status != InProgress {
          return Raised(PermissionError);
        }
        assert RunAlone(grants.Contents(), op, Rereading, now) == RunAlone(grants.Contents(), op, Recovering, now);
      } else if grants.plans[g].status != InProgress {
        return Raised(PermissionError);
      }
      assert RunAlone(db, op, Start, now) == RunAlone(grants.Contents(), op, Recovering, now);
      reply := RecoverApprovedPlan(g);
      assert Advance(grants.Contents(), op, Recovering, now) == (grants.Contents(), Done(reply));
      assert RunAlone(grants.Contents(), op, Recovering, now) == RunAlone(grants.Contents(), op, Done(reply), now);
    }

    method IssueNextStepGrant(op: Op, now: Time) returns (reply: Reply)
      requires op.Issue?
      modifies grants
      ensures (grants.Contents(), reply) == RunAlone(old(grants.Contents()), op, Start, now)
    {
      ghost var db := grants.Contents();
      if op.g !in grants.plans || grants.plans[op.g].status != InProgress {
        return Raised(PermissionError);
      }
      var plan := grants.plans[op.g];
      if plan.owner != op.who {
        return Raised(PermissionError);
      }
      for k := 0 to op.index
        invariant grants.Contents() == db
        invariant RunAlone(db, op, Start, now) == RunAlone(db, op, Scanning(plan, k), now)
      {
        if Slot(op.g, k) !in grants.rows || grants.rows[Slot(op.g, k)].status != StepConsumed {
          assert Advance(db, op, Scanning(plan, k), now) == (db, Done(Raised(PermissionError)));
          return Raised(PermissionError);
        }
        assert Advance(db, op, Scanning(plan, k), now) == (db, Scanning(plan, k + 1));
      }
      var slot := Slot(op.g, op.index);
      if slot in grants.rows {
        var row := grants.rows[slot];
        if row.status != StepApproved {
          assert Advance(db, op, Scanning(plan, op.index), now) == (db, Done(Raised(PermissionError)));
          return Raised(PermissionError);
        }
        var binding := Binding(plan.planId, plan.planHash, row.binding.stepId, row.binding.toolId,
                               row.binding.paramsHash, op.who.identityHash, op.who.sessionId);
        reply := Granted(Context(row.id, slot, op.who.userId, binding, plan.approvedAt, row.expiresAt));
        assert Advance(db, op, Scanning(plan, op.index), now) == (db, Done(reply));
        return;
      }
      assert Advance(db, op, Scanning(plan, op.index), now) == (db, Creating(plan));
      assert RunAlone(db, op, Start, now) == RunAlone(db, op, Creating(plan), now);
      reply := IssueStepGrant(op, plan, now);
    }

    method IssueStepGrant(op: Op, plan: Plan, now: Time) returns (reply: Reply)
      requires op.Issue?
      modifies grants
      ensures (grants.Contents(), reply) == RunAlone(old(grants.Contents()), op, Creating(plan), now)
    {
      ghost var db := grants.Contents();
      var slot := Slot(op.g, op.index);
      var result := grants.InsertStep(slot, NewRow(op, plan));
      match result {
        case Refused => return Raised(PermissionError);
        case Violates(error) => return Raised(error);
        case Inserted =>
          assert RunAlone(db, op, Creating(plan), now) == RunAlone(grants.Contents(), op, Created, now);
          reply := ReadBack(op, now);
      }
    }

    /** The two reads behind the insert. */
    method ReadBack(op: Op, now: Time) returns (reply: Reply)
      requires op.Issue?
      ensures (grants.Contents(), reply) == RunAlone(grants.Contents(), op, Created, now)
    {
      ghost var db := grants.Contents();
      var slot := Slot(op.g, op.index);
      if slot !in grants.rows {
        return Raised(PermissionError);
      }
      var row := grants.rows[slot];
      assert Advance(db, op, Created, now) == (db, Fetched(row));
      assert RunAlone(db, op, Created, now) == RunAlone(db, op, Fetched(row), now);
      if op.g !in grants.plans || grants.plans[op.g].approvedAt.None? {
        reply := Raised(PermissionError);
      } else {
        var plan := grants.plans[op.g];
        reply := Granted(Context(row.id, slot, plan.owner.userId, row.binding, plan.approvedAt, row.expiresAt));
      }
      assert Advance(db, op, Fetched(row), now) == (db, Done(reply));
      assert RunAlone(db, op, Fetched(row), now) == RunAlone(db, op, Done(reply), now);
    }

    method ConsumeStepGrant(id: string, slot: Slot, binding: Binding, now: Time) returns (ok: bool)
      modifies grants
      ensures (grants.Contents(), ok) == ConsumeStep(old(grants.Contents()), id, slot, binding, now)
    {
      ok := grants.UseStep(id, slot, binding, now);
    }

    method CompletePlan(g: string, who: Identity, now: Time) returns (reply: Reply)
      modifies grants
      ensures (grants.Contents(), reply) == RunAlone(old(grants.Contents()), Op.Close(g, who), Start, now)
    {
      ghost var op, db := Op.Close(g, who), grants.Contents();
      if g !in grants.plans || grants.plans[g].owner != who {
        return Closed(false);
      }
      match grants.plans[g].payload {
        case Malformed(_) => return Closed(false);
        case Uncountable(_) => return Closed(false);
        case NoObject(_) => return Raised(AttributeError);
        case Document(_, steps) =>
          assert RunAlone(db, op, Start, now) == RunAlone(db, op, Counting(|steps|), now);
          var consumed := set s | s in grants.rows && s.plan == g && grants.rows[s].status == StepConsumed;
          assert consumed == ConsumedSlots(db, g);
          if |steps| == 0 || |consumed| != |steps| {
            assert Advance(db, op, Counting(|steps|), now) == (db, Done(Closed(false)));
            assert RunAlone(db, op, Counting(|steps|), now) == RunAlone(db, op, Done(Closed(false)), now);
            return Closed(false);
          }
          assert RunAlone(db, op, Counting(|steps|), now) == RunAlone(db, op, Closing(|steps|), now);
          var ok := grants.TransitionPlan(g, InProgress, Consumed, now);
          assert Advance(db, op, Closing(|steps|), now) == (grants.Contents(), Done(Closed(ok)));
          assert RunAlone(db, op, Closing(|steps|), now) == RunAlone(grants.Contents(), op, Done(Closed(ok)), now);
          return Closed(ok);
      }
    }

    method FailPlan(g: string, who: Identity, now: Time) returns (ok: bool)
      modifies grants
      ensures (grants.Contents(), Closed(ok)) == RunAlone(old(grants.Contents()), Op.Abort(g, who), Start, now)
    {
      if g !in grants.plans || grants.plans[g].owner != who {
        return false;
      }
      assert RunAlone(grants.Contents(), Op.Abort(g, who), Start, now)
          == RunAlone(grants.Contents(), Op.Abort(g, who), Aborting, now);
      ok := grants.TransitionPlan(g, InProgress, Failed, now);
    }
  }
}
