/** Two runs in which a plan with one step sees a second one consumed. */
module GrantExamples {
  import opened Wrappers
  import opened Grants
  import opened GrantRuns
  import opened GrantTheorems

  // ------------------------------------------------------------- a running plan

  predicate Requestable(g: string, plan: Plan)
  {
    plan.status == Pending && plan.approvedAt == None && 0 < plan.expiresAt && CreatePlan(EMPTY.db, g, plan).1 == None
  }

  function Approved0(plan: Plan): Plan { plan.(status := Approved, approvedAt := Some(0)) }

  function Running0(plan: Plan): Plan { plan.(status := InProgress, approvedAt := Some(0)) }

  lemma RequestPlan(g: string, plan: Plan)
    requires Requestable(g, plan)
    ensures Run([PlanRequested(g, plan)]) == Config(Db(map[g := plan], map[]), map[])
  {
    RunSnoc([], PlanRequested(g, plan));
    assert [] + [PlanRequested(g, plan)] == [PlanRequested(g, plan)];
  }

  lemma {:induction false} ApprovePlan(events: seq<Event>, g: string, plan: Plan)
    requires Requestable(g, plan) && Run(events) == Config(Db(map[g := plan], map[]), map[])
    ensures Run(events + [Decided(g, Pending, Approved, 0)]) == Config(Db(map[g := Approved0(plan)], map[]), map[])
  {
    RunSnoc(events, Decided(g, Pending, Approved, 0));
    assert Transition(Run(events).db, g, Pending, Approved, 0).0 == Db(map[g := plan][g := Approved0(plan)], map[]);
  }

  lemma {:induction false} ResumeAloneClaims(db: Db, op: Op)
    requires op.Resume? && op.who.userId != "" && op.who.sessionId != "" && op.who.identityHash != ""
    requires op.g in db.plans && db.plans[op.g].owner == op.who
    requires db.plans[op.g].status == Approved && 0 < db.plans[op.g].expiresAt
    ensures RunAlone(db, op, Start, 0).0 == db.(plans := db.plans[op.g := db.plans[op.g].(status := InProgress)])
  {
    var db' := Transition(db, op.g, Approved, InProgress, 0).0;
    assert Advance(db, op, Start, 0) == (db, Claiming);
    assert RunAlone(db, op, Start, 0) == RunAlone(db, op, Claiming, 0);
    assert Advance(db, op, Claiming, 0) == (db', Rereading);
    assert RunAlone(db, op, Claiming, 0) == RunAlone(db', op, Rereading, 0);
    assert Advance(db', op, Rereading, 0) == (db', Recovering);
    assert RunAlone(db', op, Rereading, 0) == RunAlone(db', op, Recovering, 0);
    var pc := Advance(db', op, Recovering, 0).1;
    assert RunAlone(db', op, Recovering, 0) == RunAlone(db', op, pc, 0);
  }

  lemma Open(g: string, plan: Plan) returns (events: seq<Event>)
    requires Requestable(g, plan)
    ensures Run(events).db == Db(map[g := Running0(plan)], map[]) && Run(events).calls.Keys == {0}
  {
    var resume := Op.Resume(g, plan.owner);
    RequestPlan(g, plan);
    ApprovePlan([PlanRequested(g, plan)], g, plan);
    events := [PlanRequested(g, plan)] + [Decided(g, Pending, Approved, 0)];
    ResumeAloneClaims(Run(events).db, resume);
    events := CallThrough(events, 0, resume);
  }

  /** Starting a call and running it alone. */
  lemma CallThrough(events: seq<Event>, id: nat, op: Op) returns (more: seq<Event>)
    requires id !in Run(events).calls
    ensures Run(more).db == RunAlone(Run(events).db, op, Start, 0).0
    ensures Run(more).calls.Keys == Run(events).calls.Keys + {id}
    ensures forall other :: other in Run(events).calls ==> Run(more).calls[other] == Run(events).calls[other]
  {
    RunSnoc(events, CallStarted(id, op));
    var rest := AloneIsARun(events + [CallStarted(id, op)], id, 0);
    more := events + [CallStarted(id, op)] + rest;
  }

  /** An uninterrupted issue at the end of the consumed prefix adds exactly its row. */
  lemma {:induction false} IssueAloneInserts(db: Db, op: Op, k: nat, now: Time)
    requires op.Issue? && k <= op.index && op.g in db.plans
    requires db.plans[op.g].status == InProgress && db.plans[op.g].owner == op.who
    requires PrefixConsumed(db, op.g, op.index) && Slot(op.g, op.index) !in db.rows
    requires CreateStep(db, Slot(op.g, op.index), NewRow(op, db.plans[op.g])).1 == Inserted
    ensures var plan := db.plans[op.g];
            RunAlone(db, op, Scanning(plan, k), now).0 == db.(rows := db.rows[Slot(op.g, op.index) := NewRow(op, plan)])
    decreases op.index - k
  {
    var plan := db.plans[op.g];
    if k < op.index {
      assert IsConsumed(db, op.g, k);
      assert Advance(db, op, Scanning(plan, k), now) == (db, Scanning(plan, k + 1));
      IssueAloneInserts(db, op, k + 1, now);
    } else {
      assert Advance(db, op, Scanning(plan, k), now) == (db, Creating(plan));
      var db' := CreateStep(db, Slot(op.g, op.index), NewRow(op, plan)).0;
      assert Advance(db, op, Creating(plan), now) == (db', Created);
      assert RunAlone(db, op, Creating(plan), now) == RunAlone(db', op, Created, now);
      var row := db'.rows[Slot(op.g, op.index)];
      assert Advance(db', op, Created, now) == (db', Fetched(row));
      assert RunAlone(db', op, Created, now) == RunAlone(db', op, Fetched(row), now);
      var pc' := Advance(db', op, Fetched(row), now).1;
      assert RunAlone(db', op, Fetched(row), now) == RunAlone(db', op, pc', now);
    }
  }

  lemma IssueThrough(events: seq<Event>, id: nat, op: Op) returns (more: seq<Event>)
    requires id !in Run(events).calls && op.Issue? && op.g in Run(events).db.plans
    requires Run(events).db.plans[op.g].status == InProgress && Run(events).db.plans[op.g].owner == op.who
    requires PrefixConsumed(Run(events).db, op.g, op.index) && Slot(op.g, op.index) !in Run(events).db.rows
    requires CreateStep(Run(events).db, Slot(op.g, op.index), NewRow(op, Run(events).db.plans[op.g])).1 == Inserted
    ensures Run(more).db == Run(events).db.(rows := Run(events).db.rows[
              Slot(op.g, op.index) := NewRow(op, Run(events).db.plans[op.g])])
    ensures Run(more).calls.Keys == Run(events).calls.Keys + {id}
    ensures forall other :: other in Run(events).calls ==> Run(more).calls[other] == Run(events).calls[other]
  {
    var db := Run(events).db;
    assert Advance(db, op, Start, 0) == (db, Scanning(db.plans[op.g], 0));
    IssueAloneInserts(db, op, 0, 0);
    more := CallThrough(events, id, op);
  }

  lemma UseThrough(events: seq<Event>, slot: Slot) returns (more: seq<Event>)
    requires slot in Run(events).db.rows && Run(events).db.rows[slot].status == StepApproved
    requires 0 < Run(events).db.rows[slot].expiresAt && Complete(slot, Run(events).db.rows[slot])
    ensures Run(more) == Run(events).(db := Run(events).db.(rows := Run(events).db.rows[
              slot := Run(events).db.rows[slot].(status := StepConsumed)]))
  {
    var row := Run(events).db.rows[slot];
    var use := StepUsed(row.id, slot, row.binding, 0);
    assert row.(binding := row.binding) == row;
    RunSnoc(events, use);
    more := events + [use];
  }

  const OWNER := Identity("u", "s", "h")
  const ONE_STEP := Document("{\"steps\":[\"only\"]}", ["only"])
  const RUNNING := Plan(OWNER, "p", Sha256(ONE_STEP), ONE_STEP, "low", InProgress, Some(0), 9)

  lemma OneStepUsed() returns (events: seq<Event>)
    ensures Run(events).db.plans == map["g" := RUNNING] && Run(events).calls.Keys == {0, 1}
    ensures var rows := Run(events).db.rows;
            rows.Keys == {Slot("g", 0)} && rows[Slot("g", 0)].id == "r0" && rows[Slot("g", 0)].status == StepConsumed
  {
    events := Open("g", RUNNING.(status := Pending, approvedAt := None));
    events := IssueThrough(events, 1, Issue("g", OWNER, "r0", "s0", 0, "t", "{}", 9));
    events := UseThrough(events, Slot("g", 0));
  }

  lemma ExtraStepOpen() returns (events: seq<Event>)
    ensures Run(events).db.plans == map["g" := RUNNING] && Run(events).calls.Keys == {0, 1, 2}
    ensures var rows := Run(events).db.rows;
            && rows.Keys == {Slot("g", 0), Slot("g", 1)} && rows[Slot("g", 0)].status == StepConsumed
            && rows[Slot("g", 1)] == NewRow(Issue("g", OWNER, "r1", "s1", 1, "t", "{}", 9), RUNNING)
  {
    events := OneStepUsed();
    assert IsConsumed(Run(events).db, "g", 0);
    events := IssueThrough(events, 2, Issue("g", OWNER, "r1", "s1", 1, "t", "{}", 9));
  }

  /** It does happen: the plan has one step, is closed, and then sees index 1 consumed. */
  lemma OverrunHappens() returns (events: seq<Event>)
    ensures var db := Run(events).db;
            && "g" in db.plans && db.plans["g"].status == Consumed && db.plans["g"].payload == ONE_STEP
            && IsConsumed(db, "g", 0) && IsConsumed(db, "g", 1)
  {
    events := ExtraStepOpen();
    assert ConsumedSlots(Run(events).db, "g") == {Slot("g", 0)};
    CloseAloneUnfolded(Run(events).db, Op.Close("g", OWNER), 0);
    events := CallThrough(events, 3, Op.Close("g", OWNER));
    events := UseThrough(events, Slot("g", 1));
  }

  lemma CloseCounted() returns (events: seq<Event>)
    ensures Run(events).db.plans == map["g" := RUNNING] && Run(events).calls.Keys == {0, 1, 3}
    ensures Run(events).calls[3] == Call(Op.Close("g", OWNER), Closing(1))
    ensures var rows := Run(events).db.rows;
            rows.Keys == {Slot("g", 0)} && rows[Slot("g", 0)].id == "r0" && rows[Slot("g", 0)].status == StepConsumed
  {
    var close := Op.Close("g", OWNER);
    events := OneStepUsed();
    assert ConsumedSlots(Run(events).db, "g") == {Slot("g", 0)};
    RunSnoc(events, CallStarted(3, close)); events := events + [CallStarted(3, close)];
    assert Run(events).calls[3] == Call(close, Start);
    RunSnoc(events, CallAdvances(3, 0)); events := events + [CallAdvances(3, 0)];
    assert Run(events).calls[3] == Call(close, Counting(1));
    RunSnoc(events, CallAdvances(3, 0)); events := events + [CallAdvances(3, 0)];
  }

  lemma ExtraStepRaces() returns (events: seq<Event>)
    ensures Run(events).db.plans == map["g" := RUNNING]
    ensures 3 in Run(events).calls && Run(events).calls[3] == Call(Op.Close("g", OWNER), Closing(1))
    ensures IsConsumed(Run(events).db, "g", 0) && IsConsumed(Run(events).db, "g", 1)
  {
    events := CloseCounted();
    assert IsConsumed(Run(events).db, "g", 0);
    events := IssueThrough(events, 2, Issue("g", OWNER, "r1", "s1", 1, "t", "{}", 9));
    events := UseThrough(events, Slot("g", 1));
  }

  /** It also happens to a close that answers True afterwards: index 1 is issued and used
      between its count and its last statement. */
  lemma RacedCloseOverruns() returns (events: seq<Event>)
    ensures 3 in Run(events).calls && Run(events).calls[3] == Call(Op.Close("g", OWNER), Done(Closed(true)))
    ensures var db := Run(events).db;
            && "g" in db.plans && db.plans["g"].payload == ONE_STEP && IsConsumed(db, "g", 0) && IsConsumed(db, "g", 1)
  {
    events := ExtraStepRaces();
    RunSnoc(events, CallAdvances(3, 0));
    events := events + [CallAdvances(3, 0)];
  }
}
