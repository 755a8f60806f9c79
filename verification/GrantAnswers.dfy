/** The answers and effects of uninterrupted calls, read off the rows, and where step rows
    come from. */
module GrantAnswers {
  import opened Wrappers
  import opened Grants
  import opened GrantRuns
  import opened GrantTheorems

  // ------------------------------------------------------------ single statements

  /** A plan row enters as pending, under a new id, with all its mandatory fields. */
  lemma PlanEntersIff(db: Db, g: string, plan: Plan)
    ensures var (db', error) := CreatePlan(db, g, plan);
            && (error == None <==>
                  g != "" && g !in db.plans && plan.owner.userId != "" && plan.owner.sessionId != ""
                  && plan.owner.identityHash != "" && plan.planId != "" && plan.payload.text != "" && plan.riskLevel != "")
            && (error != None ==> db' == db)
            && (error == None ==>
                  && db'.rows == db.rows
                  && db'.plans == db.plans[g := Plan(plan.owner, plan.planId, plan.planHash, plan.payload, plan.riskLevel,
                                                     Pending, None, plan.expiresAt)])
  {
  }

  predicate Edge(source: PlanStatus, target: PlanStatus)
  {
    (source, target) in {(Pending, Approved), (Approved, InProgress), (InProgress, Consumed), (Pending, Rejected),
                         (Pending, Cancelled), (Approved, Cancelled), (InProgress, Failed)}
  }

  lemma MovesIff(db: Db, g: string, expected: PlanStatus, target: PlanStatus, now: Time)
    ensures var (db', ok) := Transition(db, g, expected, target, now);
            && (ok <==> Edge(expected, target) && g in db.plans && db.plans[g].status == expected && now < db.plans[g].expiresAt)
            && (ok ==> db' == db.(plans := db.plans[g := db.plans[g].(
                         status := target, approvedAt := if target == Approved then Some(now) else db.plans[g].approvedAt)]))
            && (!ok ==> db' == if Edge(expected, target) && g in db.plans && db.plans[g].expiresAt <= now
                                  && db.plans[g].status in {Pending, Approved, InProgress}
                               then db.(plans := db.plans[g := db.plans[g].(status := Expired)]) else db)
  {
  }

  lemma StepEntersIff(db: Db, slot: Slot, row: StepRow)
    ensures var (db', result) := CreateStep(db, slot, row);
            && (result == Inserted <==>
                  && row.id != "" && row.binding.planId != "" && row.binding.stepId != "" && row.binding.toolId != ""
                  && row.binding.identityHash != "" && row.binding.sessionId != "" && slot.plan != ""
                  && slot.plan in db.plans && db.plans[slot.plan].status in {Approved, InProgress}
                  && db.plans[slot.plan].planId == row.binding.planId && db.plans[slot.plan].planHash == row.binding.planHash
                  && db.plans[slot.plan].owner.identityHash == row.binding.identityHash
                  && db.plans[slot.plan].owner.sessionId == row.binding.sessionId
                  && slot !in db.rows && forall s :: s in db.rows ==> db.rows[s].id != row.id)
            && db' == if result == Inserted
                      then Db(db.plans, db.rows[slot := StepRow(row.id, row.binding, StepApproved, row.expiresAt)]) else db
  {
  }

  lemma ConsumesIff(db: Db, id: string, slot: Slot, binding: Binding, now: Time)
    ensures var (db', ok) := ConsumeStep(db, id, slot, binding, now);
            && (ok <==>
                  && slot in db.rows && id == db.rows[slot].id && id != "" && slot.plan != ""
                  && db.rows[slot].status == StepApproved && now < db.rows[slot].expiresAt
                  && binding.planId == db.rows[slot].binding.planId && binding.planHash == db.rows[slot].binding.planHash
                  && binding.stepId == db.rows[slot].binding.stepId && binding.toolId == db.rows[slot].binding.toolId
                  && binding.paramsHash == db.rows[slot].binding.paramsHash
                  && binding.identityHash == db.rows[slot].binding.identityHash
                  && binding.sessionId == db.rows[slot].binding.sessionId
                  && "" !in [binding.planId, binding.stepId, binding.toolId, binding.identityHash, binding.sessionId])
            && db' == if ok then Db(db.plans, db.rows[slot := StepRow(id, binding, StepConsumed, db.rows[slot].expiresAt)]) else db
  {
  }

  // ----------------------------------------------------------------------- issuing

  /** The row that a request asks for under a plan. */
  function AskedRow(op: Op, plan: Plan): StepRow
    requires op.Issue?
  {
    var who := op.who;
    StepRow(op.rowId,
            Binding(planId := plan.planId, planHash := plan.planHash, stepId := op.stepId, toolId := op.toolId,
                    paramsHash := ParamsHash(toolId := op.toolId, params := op.params, planId := plan.planId,
                                             identityHash := who.identityHash),
                    identityHash := who.identityHash, sessionId := who.sessionId),
            StepApproved, op.expires)
  }

  /** The context that hands out a row under a running plan. */
  function ContextOf(op: Op, plan: Plan, row: StepRow): Context
    requires op.Issue?
  {
    Context(id := row.id, slot := Slot(op.g, op.index), userId := op.who.userId,
            binding := Binding(plan.planId, plan.planHash, row.binding.stepId, row.binding.toolId, row.binding.paramsHash,
                               op.who.identityHash, op.who.sessionId),
            approvedAt := plan.approvedAt, expiresAt := row.expiresAt)
  }

  predicate RunsFor(db: Db, op: Op)
  {
    op.g in db.plans && db.plans[op.g].owner == op.who && db.plans[op.g].status == InProgress
  }

  /** What an uninterrupted issue answers, read off the rows. */
  function IssueAnswer(db: Db, op: Op): Reply
    requires op.Issue?
  {
    if !RunsFor(db, op) || !PrefixConsumed(db, op.g, op.index) then Raised(PermissionError)
    else
      var plan, slot := db.plans[op.g], Slot(op.g, op.index);
      if slot in db.rows then
        if db.rows[slot].status == StepConsumed then Raised(PermissionError) else Granted(ContextOf(op, plan, db.rows[slot]))
      else if "" in [op.rowId, op.g, plan.planId, op.stepId, op.toolId, op.who.identityHash, op.who.sessionId] then
        Raised(ValueError)
      else if exists s :: s in db.rows && db.rows[s].id == op.rowId then Raised(IntegrityError)
      else Granted(ContextOf(op, plan, AskedRow(op, plan)))
  }

  /** It adds the asked row when it answers with a new one, and changes nothing otherwise. */
  function IssueEffect(db: Db, op: Op): Db
    requires op.Issue?
  {
    if IssueAnswer(db, op).Granted? && Slot(op.g, op.index) !in db.rows
    then Db(db.plans, db.rows[Slot(op.g, op.index) := AskedRow(op, db.plans[op.g])]) else db
  }

  lemma {:induction false} ScanAlone(db: Db, op: Op, plan: Plan, k: nat, now: Time)
    requires op.Issue? && k <= op.index && PrefixConsumed(db, op.g, k)
    ensures RunAlone(db, op, Scanning(plan, k), now)
         == if PrefixConsumed(db, op.g, op.index) then RunAlone(db, op, Scanning(plan, op.index), now)
            else (db, Raised(PermissionError))
    decreases op.index - k
  {
    if k < op.index {
      if IsConsumed(db, op.g, k) {
        assert Advance(db, op, Scanning(plan, k), now) == (db, Scanning(plan, k + 1));
        ScanAlone(db, op, plan, k + 1, now);
      } else {
        assert Advance(db, op, Scanning(plan, k), now) == (db, Done(Raised(PermissionError)));
      }
    }
  }

  lemma {:induction false} FoundAlone(db: Db, op: Op, plan: Plan, now: Time)
    requires op.Issue? && Slot(op.g, op.index) in db.rows
    ensures RunAlone(db, op, Scanning(plan, op.index), now)
         == (db, if db.rows[Slot(op.g, op.index)].status == StepConsumed then Raised(PermissionError)
                 else Granted(ContextOf(op, plan, db.rows[Slot(op.g, op.index)])))
  {
    var pc := Advance(db, op, Scanning(plan, op.index), now).1;
    assert RunAlone(db, op, Scanning(plan, op.index), now) == RunAlone(db, op, pc, now);
  }

  lemma {:induction false} RefusedAlone(db: Db, op: Op, now: Time)
    requires RunsFor(db, op) && op.Issue? && Slot(op.g, op.index) !in db.rows
    requires CreateStep(db, Slot(op.g, op.index), NewRow(op, db.plans[op.g])).1 != Inserted
    ensures RunAlone(db, op, Creating(db.plans[op.g]), now)
         == (db, Raised(if "" in [op.rowId, op.g, db.plans[op.g].planId, op.stepId, op.toolId, op.who.identityHash, op.who.sessionId]
                        then ValueError else IntegrityError))
  {
    var pc := Advance(db, op, Creating(db.plans[op.g]), now).1;
    assert RunAlone(db, op, Creating(db.plans[op.g]), now) == RunAlone(db, op, pc, now);
  }

  lemma {:induction false} InsertedAlone(db: Db, op: Op, now: Time)
    requires RunsFor(db, op) && op.Issue? && db.plans[op.g].approvedAt.Some?
    requires CreateStep(db, Slot(op.g, op.index), NewRow(op, db.plans[op.g])).1 == Inserted
    ensures RunAlone(db, op, Creating(db.plans[op.g]), now)
         == (Db(db.plans, db.rows[Slot(op.g, op.index) := AskedRow(op, db.plans[op.g])]),
             Granted(ContextOf(op, db.plans[op.g], AskedRow(op, db.plans[op.g]))))
  {
    var plan, row := db.plans[op.g], AskedRow(op, db.plans[op.g]);
    var db' := CreateStep(db, Slot(op.g, op.index), NewRow(op, plan)).0;
    assert Advance(db, op, Creating(plan), now) == (db', Created);
    assert RunAlone(db, op, Creating(plan), now) == RunAlone(db', op, Created, now);
    assert Advance(db', op, Created, now) == (db', Fetched(row));
    assert RunAlone(db', op, Created, now) == RunAlone(db', op, Fetched(row), now);
    assert Advance(db', op, Fetched(row), now) == (db', Done(Granted(ContextOf(op, plan, row))));
    assert RunAlone(db', op, Fetched(row), now) == RunAlone(db', op, Done(Granted(ContextOf(op, plan, row))), now);
  }

  lemma {:induction false} CreateAlone(db: Db, op: Op, now: Time)
    requires RunsFor(db, op) && op.Issue? && db.plans[op.g].approvedAt.Some?
    requires PrefixConsumed(db, op.g, op.index) && Slot(op.g, op.index) !in db.rows
    ensures RunAlone(db, op, Creating(db.plans[op.g]), now) == (IssueEffect(db, op), IssueAnswer(db, op))
  {
    StepEntersIff(db, Slot(op.g, op.index), NewRow(op, db.plans[op.g]));
    if CreateStep(db, Slot(op.g, op.index), NewRow(op, db.plans[op.g])).1 == Inserted {
      InsertedAlone(db, op, now);
    } else {
      RefusedAlone(db, op, now);
    }
  }

  /** After any run, an uninterrupted issue answers with the context of an open row at the
      index, or with a new row for just the step, tool and parameters asked for, exactly when
      the owner asks under a running plan with all earlier indices consumed. */
  lemma {:induction false} IssueAloneAnswers(events: seq<Event>, op: Op, now: Time)
    requires op.Issue?
    ensures RunAlone(Run(events).db, op, Start, now) == (IssueEffect(Run(events).db, op), IssueAnswer(Run(events).db, op))
  {
    var db := Run(events).db;
    RunKeepsInv(events);
    if RunsFor(db, op) {
      var plan := db.plans[op.g];
      assert PlanSound(db, op.g);
      assert Advance(db, op, Start, now) == (db, Scanning(plan, 0));
      assert RunAlone(db, op, Start, now) == RunAlone(db, op, Scanning(plan, 0), now);
      ScanAlone(db, op, plan, 0, now);
      if PrefixConsumed(db, op.g, op.index) {
        if Slot(op.g, op.index) in db.rows {
          FoundAlone(db, op, plan, now);
        } else {
          assert Advance(db, op, Scanning(plan, op.index), now) == (db, Creating(plan));
          assert RunAlone(db, op, Scanning(plan, op.index), now) == RunAlone(db, op, Creating(plan), now);
          CreateAlone(db, op, now);
        }
      }
    } else {
      assert Advance(db, op, Start, now) == (db, Done(Raised(PermissionError)));
    }
  }

  // ------------------------------------------------------------ where rows come from

  /** The row is the one that this request asked for. */
  predicate AskedBy(slot: Slot, row: StepRow, op: Op)
  {
    && op.Issue? && op.g == slot.plan && op.index == slot.index && op.rowId == row.id && op.expires == row.expiresAt
    && op.stepId == row.binding.stepId && op.toolId == row.binding.toolId
    && row.binding.paramsHash == ParamsHash(op.toolId, op.params, row.binding.planId, op.who.identityHash)
    && row.binding.identityHash == op.who.identityHash && row.binding.sessionId == op.who.sessionId
  }

  predicate Requested(events: seq<Event>, slot: Slot, row: StepRow)
  {
    exists e :: e in events && e.CallStarted? && AskedBy(slot, row, e.op)
  }

  lemma RequestedLater(events: seq<Event>, e: Event, slot: Slot, row: StepRow, row': StepRow)
    requires Requested(events, slot, row) && row' == row.(status := row'.status)
    ensures Requested(events + [e], slot, row')
  {
    var started :| started in events && started.CallStarted? && AskedBy(slot, row, started.op);
    assert started in events + [e] && AskedBy(slot, row', started.op);
  }

  /** A call's operation is the one it was started with. */
  lemma {:induction false} CallsAreStarted(events: seq<Event>, id: nat)
    requires id in Run(events).calls
    ensures CallStarted(id, Run(events).calls[id].op) in events
  {
    if events != [] {
      var front, e := events[..|events| - 1], events[|events| - 1];
      assert events == front + [e];
      if id in Run(front).calls { CallsAreStarted(front, id); }
    }
  }

  /** One event adds at most the row that an issue call asked for. */
  lemma OnlyIssuesAddRows(c: Config, e: Event, slot: Slot)
    requires slot in Apply(c, e).db.rows && slot !in c.db.rows && Inv(c)
    ensures e.CallAdvances? && e.id in c.calls && AskedBy(slot, Apply(c, e).db.rows[slot], c.calls[e.id].op)
  {
    if e.CallAdvances? && e.id in c.calls {
      assert CallInv(c.db, c.calls[e.id]);
      AdvanceAddsAsked(c.db, c.calls[e.id].op, c.calls[e.id].pc, e.at, slot);
    } else {
      OthersAddNone(c, e, slot);
    }
  }

  lemma OthersAddNone(c: Config, e: Event, slot: Slot)
    requires !(e.CallAdvances? && e.id in c.calls)
    ensures slot in Apply(c, e).db.rows ==> slot in c.db.rows
  {
  }

  lemma AdvanceAddsAsked(db: Db, op: Op, pc: Pc, now: Time, slot: Slot)
    ensures var rows := Advance(db, op, pc, now).0.rows;
            slot in rows && slot !in db.rows ==> AskedBy(slot, rows[slot], op)
  {
    match op
    case Issue(_, _, _, _, _, _, _, _) => assert Advance(db, op, pc, now) == AdvanceIssue(db, op, pc);
    case Resume(_, _) => assert Advance(db, op, pc, now).0.rows == db.rows;
    case _ => assert Advance(db, op, pc, now).0.rows == db.rows;
  }

  /** In every run each row was asked for by a started request: its id, plan, index, step,
      tool, parameters, identity, session and expiry are the request's. */
  lemma {:induction false} RowsAreRequested(events: seq<Event>, slot: Slot)
    requires slot in Run(events).db.rows
    ensures Requested(events, slot, Run(events).db.rows[slot])
  {
    if events != [] {
      var front, e := events[..|events| - 1], events[|events| - 1];
      assert events == front + [e];
      RunKeepsInv(front);
      RunGrows(front, [e]);
      if slot in Run(front).db.rows {
        RowsAreRequested(front, slot);
        RequestedLater(front, e, slot, Run(front).db.rows[slot], Run(events).db.rows[slot]);
      } else {
        OnlyIssuesAddRows(Run(front), e, slot);
        CallsAreStarted(front, e.id);
        var started := CallStarted(e.id, Run(front).calls[e.id].op);
        assert started in events && AskedBy(slot, Run(events).db.rows[slot], started.op);
      }
    }
  }

  // ------------------------------------------------------------- resuming and failing

  function WithStatus(db: Db, g: string, status: PlanStatus): Db
    requires g in db.plans
  {
    db.(plans := db.plans[g := db.plans[g].(status := status)])
  }

  predicate Owns(db: Db, op: Op)
  {
    op.g in db.plans && db.plans[op.g].owner == op.who
  }

  predicate Claims(db: Db, op: Op, now: Time)
  {
    && op.who.userId != "" && op.who.sessionId != "" && op.who.identityHash != "" && Owns(db, op)
    && (db.plans[op.g].status == InProgress || (db.plans[op.g].status == Approved && now < db.plans[op.g].expiresAt))
  }

  /** What an uninterrupted resume answers: the stored payload, when its digest is recorded
      and it is JSON. */
  function ResumeAnswer(db: Db, op: Op, now: Time): Reply
  {
    if Claims(db, op, now) && db.plans[op.g].planHash == Sha256(db.plans[op.g].payload) && !db.plans[op.g].payload.Malformed?
    then Resumed(db.plans[op.g].payload) else Raised(PermissionError)
  }

  /** A claim leaves the plan running whatever it answers; an overdue approved plan expires. */
  function ResumeEffect(db: Db, op: Op, now: Time): Db
  {
    if Claims(db, op, now) then WithStatus(db, op.g, InProgress)
    else if op.who.userId != "" && op.who.sessionId != "" && op.who.identityHash != "" && Owns(db, op)
            && db.plans[op.g].status == Approved then WithStatus(db, op.g, Expired)
    else db
  }

  /** A recovery returns the stored payload of an approved or running plan, when its digest
      is recorded and it is JSON. */
  lemma RecoversIff(db: Db, g: string)
    ensures Recover(db, g) == if g in db.plans && db.plans[g].status in {Approved, InProgress}
                                 && db.plans[g].planHash == Sha256(db.plans[g].payload) && !db.plans[g].payload.Malformed?
                              then Resumed(db.plans[g].payload) else Raised(PermissionError)
  {
  }

  lemma {:induction false} RecoverAlone(db: Db, op: Op, now: Time)
    requires op.Resume? && op.g in db.plans && db.plans[op.g].status == InProgress
    ensures RunAlone(db, op, Recovering, now)
         == (db, if db.plans[op.g].planHash == Sha256(db.plans[op.g].payload) && !db.plans[op.g].payload.Malformed?
                 then Resumed(db.plans[op.g].payload) else Raised(PermissionError))
  {
    var pc := Advance(db, op, Recovering, now).1;
    assert RunAlone(db, op, Recovering, now) == RunAlone(db, op, pc, now);
  }

  lemma {:induction false} ClaimAlone(db: Db, op: Op, now: Time)
    requires op.Resume? && Owns(db, op) && db.plans[op.g].status == Approved
    ensures RunAlone(db, op, Claiming, now)
         == if now < db.plans[op.g].expiresAt then RunAlone(WithStatus(db, op.g, InProgress), op, Recovering, now)
            else (WithStatus(db, op.g, Expired), Raised(PermissionError))
  {
    MovesIff(db, op.g, Approved, InProgress, now);
    var db' := Transition(db, op.g, Approved, InProgress, now).0;
    if now < db.plans[op.g].expiresAt {
      assert Advance(db, op, Claiming, now) == (db', Rereading);
      assert RunAlone(db, op, Claiming, now) == RunAlone(db', op, Rereading, now);
      assert Advance(db', op, Rereading, now) == (db', Recovering);
      assert RunAlone(db', op, Rereading, now) == RunAlone(db', op, Recovering, now);
    } else {
      assert Advance(db, op, Claiming, now) == (db', Done(Raised(PermissionError)));
      assert RunAlone(db, op, Claiming, now) == RunAlone(db', op, Done(Raised(PermissionError)), now);
    }
  }

  /** The answer and the effect of an uninterrupted resume, on any rows. */
  lemma {:induction false} ResumeAloneAnswers(db: Db, op: Op, now: Time)
    requires op.Resume?
    ensures RunAlone(db, op, Start, now) == (ResumeEffect(db, op, now), ResumeAnswer(db, op, now))
  {
    var pc := Advance(db, op, Start, now).1;
    assert RunAlone(db, op, Start, now) == RunAlone(db, op, pc, now);
    if pc.Claiming? {
      ClaimAlone(db, op, now);
      if now < db.plans[op.g].expiresAt { RecoverAlone(WithStatus(db, op.g, InProgress), op, now); }
    } else if pc.Recovering? {
      RecoverAlone(db, op, now);
      assert WithStatus(db, op.g, InProgress) == db;
    }
  }

  /** An uninterrupted failure closes the owner's running, unexpired plan, and answers so. */
  lemma {:induction false} FailAloneAnswers(db: Db, op: Op, now: Time)
    requires op.Abort?
    ensures RunAlone(db, op, Start, now)
         == if !Owns(db, op) then (db, Closed(false))
            else if now < db.plans[op.g].expiresAt then
              if db.plans[op.g].status == InProgress then (WithStatus(db, op.g, Failed), Closed(true)) else (db, Closed(false))
            else (if db.plans[op.g].status in {Pending, Approved, InProgress} then WithStatus(db, op.g, Expired) else db, Closed(false))
  {
    if Owns(db, op) {
      MovesIff(db, op.g, InProgress, Failed, now);
      assert Advance(db, op, Start, now) == (db, Aborting);
      assert RunAlone(db, op, Start, now) == RunAlone(db, op, Aborting, now);
      var (db', ok) := Transition(db, op.g, InProgress, Failed, now);
      assert Advance(db, op, Aborting, now) == (db', Done(Closed(ok)));
      assert RunAlone(db, op, Aborting, now) == RunAlone(db', op, Done(Closed(ok)), now);
    } else {
      assert Advance(db, op, Start, now) == (db, Done(Closed(false)));
    }
  }

  /** What an uninterrupted close leaves: a consumed plan when it answers True, an expired one
      when only the time is over, and the same rows otherwise. */
  lemma {:induction false} CloseAloneEffect(db: Db, op: Op, now: Time)
    requires op.Close?
    ensures RunAlone(db, op, Start, now).0
         == if CloseAnswer(db, op, now) == Closed(true) then WithStatus(db, op.g, Consumed)
            else if Owns(db, op) && Counts(db.plans[op.g].payload, |ConsumedSlots(db, op.g)|)
                    && db.plans[op.g].expiresAt <= now && db.plans[op.g].status in {Pending, Approved, InProgress}
                 then WithStatus(db, op.g, Expired) else db
  {
    CloseAloneAnswers(db, op, now);
    if Owns(db, op) && db.plans[op.g].payload.Document? {
      CloseAloneUnfolded(db, op, now);
      MovesIff(db, op.g, InProgress, Consumed, now);
    } else {
      var pc := Advance(db, op, Start, now).1;
      assert RunAlone(db, op, Start, now) == RunAlone(db, op, pc, now);
    }
  }
}
