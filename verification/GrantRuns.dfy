/** Every run of interleaved broker calls, from the empty database. */
module GrantRuns {
  import opened Grants

  datatype Call = Call(op: Op, pc: Pc)
  datatype Config = Config(db: Db, calls: map<nat, Call>)

  /** What can happen next: a new plan row, a decision about a plan that is not yet
      running, a new call, one statement of a call, the consumption of a step, or a stored
      payload rewritten behind the broker's back. */
  datatype Event =
    | PlanRequested(g: string, plan: Plan)
    | Decided(g: string, expected: PlanStatus, verdict: PlanStatus, at: Time)
    | CallStarted(id: nat, op: Op)
    | CallAdvances(id: nat, at: Time)
    | StepUsed(rowId: string, slot: Slot, binding: Binding, at: Time)
    | Rewritten(g: string, payload: Payload)

  function Rewrite(db: Db, g: string, payload: Payload): Db
  {
    if g in db.plans then db.(plans := db.plans[g := db.plans[g].(payload := payload)]) else db
  }

  const EMPTY := Config(Db(map[], map[]), map[])

  function Apply(c: Config, e: Event): Config
  {
    match e
    case PlanRequested(g, plan) => c.(db := CreatePlan(c.db, g, plan).0)
    case Decided(g, expected, verdict, at) =>
      if verdict in {Approved, Rejected, Cancelled} then c.(db := Transition(c.db, g, expected, verdict, at).0) else c
    case CallStarted(id, op) => if id in c.calls then c else c.(calls := c.calls[id := Call(op, Start)])
    case CallAdvances(id, at) =>
      if id !in c.calls then c
      else
        var (db', pc') := Advance(c.db, c.calls[id].op, c.calls[id].pc, at);
        Config(db', c.calls[id := Call(c.calls[id].op, pc')])
    case StepUsed(rowId, slot, binding, at) => c.(db := ConsumeStep(c.db, rowId, slot, binding, at).0)
    case Rewritten(g, payload) => c.(db := Rewrite(c.db, g, payload))
  }

  function Run(events: seq<Event>): Config
  {
    if events == [] then EMPTY else Apply(Run(events[..|events| - 1]), events[|events| - 1])
  }

  // ------------------------------------------------------------- what only grows

  predicate Terminal(status: PlanStatus) { !Live(status) }

  /** `b` can follow `a` along the edges, expiry included. */
  predicate StatusLeads(a: PlanStatus, b: PlanStatus)
  {
    || a == b
    || (a == Pending)
    || (a == Approved && b in {InProgress, Consumed, Failed, Cancelled, Expired})
    || (a == InProgress && b in {Consumed, Failed, Expired})
  }

  predicate PlanGrows(a: Plan, b: Plan)
  {
    && b == a.(status := b.status, approvedAt := b.approvedAt, payload := b.payload)
    && StatusLeads(a.status, b.status)
    && (a.status != Pending ==> a.approvedAt == b.approvedAt)
  }

  predicate Grows(a: Db, b: Db)
  {
    && (forall g :: g in a.plans ==> g in b.plans && PlanGrows(a.plans[g], b.plans[g]))
    && (forall s :: s in a.rows ==>
          s in b.rows && b.rows[s] == a.rows[s].(status := b.rows[s].status)
          && (a.rows[s].status == StepConsumed ==> b.rows[s].status == StepConsumed))
  }

  // ---------------------------------------------------------------- the invariant

  predicate PrefixConsumed(db: Db, g: string, n: int)
  {
    forall j :: 0 <= j < n ==> IsConsumed(db, g, j)
  }

  predicate RowsOrdered(db: Db)
  {
    forall s :: s in db.rows ==> 0 <= s.index && PrefixConsumed(db, s.plan, s.index)
  }

  predicate RowBound(db: Db, s: Slot)
    requires s in db.rows
  {
    && s.plan in db.plans
    && var plan, row := db.plans[s.plan], db.rows[s];
    && row.binding.planId == plan.planId && row.binding.planHash == plan.planHash
    && row.binding.identityHash == plan.owner.identityHash && row.binding.sessionId == plan.owner.sessionId
    && Complete(s, row)
    && plan.approvedAt.Some? && plan.status != Pending
  }

  predicate PlanSound(db: Db, g: string)
    requires g in db.plans
  {
    db.plans[g].status in {Approved, InProgress, Consumed, Failed} ==> db.plans[g].approvedAt.Some?
  }

  predicate IdsUnique(db: Db)
  {
    forall s, t :: s in db.rows && t in db.rows && db.rows[s].id == db.rows[t].id ==> s == t
  }

  predicate DbInv(db: Db)
  {
    && RowsOrdered(db)
    && IdsUnique(db)
    && (forall s :: s in db.rows ==> RowBound(db, s))
    && (forall g :: g in db.plans ==> PlanSound(db, g))
  }

  /** What a call has read stays true while others run. */
  predicate CallInv(db: Db, call: Call)
  {
    var op, pc := call.op, call.pc;
    && AtHome(op, pc)
    && (pc.Start? || (pc.Done? && (pc.reply.Raised? || pc.reply == Closed(false))) || op.g in db.plans)
    && match pc
       case Scanning(plan, k) =>
         plan.status == InProgress && plan.owner == op.who && plan.approvedAt.Some?
         && PlanGrows(plan, db.plans[op.g]) && PrefixConsumed(db, op.g, k)
       case Creating(plan) =>
         plan.status == InProgress && plan.owner == op.who && plan.approvedAt.Some?
         && PlanGrows(plan, db.plans[op.g]) && PrefixConsumed(db, op.g, op.index)
       case Created =>
         Slot(op.g, op.index) in db.rows && db.rows[Slot(op.g, op.index)].id == op.rowId
         && db.plans[op.g].owner == op.who
       case Fetched(row) =>
         Slot(op.g, op.index) in db.rows && row.id == op.rowId
         && db.rows[Slot(op.g, op.index)] == row.(status := db.rows[Slot(op.g, op.index)].status)
         && db.plans[op.g].owner == op.who
       case Closing(n) => n > 0 && PrefixConsumed(db, op.g, n)
       case Done(Granted(ctx)) =>
         ctx.slot.plan == op.g && ctx.slot in db.rows && ctx.id == db.rows[ctx.slot].id
         && ctx.binding == db.rows[ctx.slot].binding && ctx.expiresAt == db.rows[ctx.slot].expiresAt
         && ctx.userId == op.who.userId && db.plans[op.g].owner == op.who
         && ctx.approvedAt.Some? && ctx.approvedAt == db.plans[op.g].approvedAt
       case Done(Resumed(payload)) =>
         !payload.Malformed? && Sha256(payload) == db.plans[op.g].planHash
       case Done(Closed(true)) =>
         (op.Close? ==> db.plans[op.g].status == Consumed) && (op.Abort? ==> db.plans[op.g].status == Failed)
       case _ => true
  }

  predicate Inv(c: Config)
  {
    DbInv(c.db) && forall id :: id in c.calls ==> CallInv(c.db, c.calls[id])
  }

  // ------------------------------------------------------- counting a consumed prefix

  /** A downward-closed finite set of indices is an initial segment. */
  lemma {:induction false} DownwardClosed(indices: set<int>, bound: nat)
    requires forall i :: i in indices ==> 0 <= i < bound
    requires forall i, j :: i in indices && 0 <= j < i ==> j in indices
    ensures forall i :: i in indices <==> 0 <= i < |indices|
  {
    if bound == 0 {
      assert forall i :: i !in indices;
      assert indices == {};
    } else if bound - 1 in indices {
      var rest := indices - {bound - 1};
      DownwardClosed(rest, bound - 1);
      assert bound >= 2 ==> bound - 2 in rest;
      assert bound - 1 !in rest && |indices| == |rest| + 1;
    } else {
      DownwardClosed(indices, bound - 1);
    }
  }

  lemma {:induction false} SameSize(slots: set<Slot>, g: string)
    requires forall s :: s in slots ==> s.plan == g
    ensures |set s | s in slots :: s.index| == |slots|
  {
    if slots != {} {
      var s :| s in slots;
      SameSize(slots - {s}, g);
      assert (set t | t in slots :: t.index) == (set t | t in slots - {s} :: t.index) + {s.index};
    }
  }

  lemma {:induction false} Bounded(indices: set<int>) returns (bound: nat)
    requires forall i :: i in indices ==> 0 <= i
    ensures forall i :: i in indices ==> i < bound
  {
    bound := 0;
    if i0: int :| i0 in indices {
      var i := i0;
      var rest := Bounded(indices - {i});
      bound := if i < rest then rest else i + 1;
      forall j | j in indices ensures j < bound { if j != i { assert j in indices - {i}; } }
    }
  }

  /** The number of consumed steps alone tells which indices they are. */
  lemma CountIsPrefix(db: Db, g: string)
    requires RowsOrdered(db)
    ensures forall i :: IsConsumed(db, g, i) <==> 0 <= i < |ConsumedSlots(db, g)|
  {
    var slots := ConsumedSlots(db, g);
    var indices := set s | s in slots :: s.index;
    SameSize(slots, g);
    forall i ensures i in indices <==> IsConsumed(db, g, i) {
      if IsConsumed(db, g, i) { assert Slot(g, i) in slots; }
    }
    forall i, j | i in indices && 0 <= j < i ensures j in indices {
      assert PrefixConsumed(db, g, i);
      assert IsConsumed(db, g, j);
    }
    var bound := Bounded(indices);
    DownwardClosed(indices, bound);
  }

  // -------------------------------------------------------------- preservation

  lemma GrowsKeepsPrefix(a: Db, b: Db, g: string, n: int)
    requires Grows(a, b) && PrefixConsumed(a, g, n)
    ensures PrefixConsumed(b, g, n)
  {
    forall j | 0 <= j < n ensures IsConsumed(b, g, j) {
      assert IsConsumed(a, g, j);
    }
  }

  lemma GrowsTransitive(a: Db, b: Db, c: Db)
    requires Grows(a, b) && Grows(b, c)
    ensures Grows(a, c)
  {
  }

  lemma CallInvStable(a: Db, b: Db, call: Call)
    requires Grows(a, b) && CallInv(a, call)
    requires forall g :: g in a.plans ==> PlanSound(a, g)
    requires forall s :: s in a.rows ==> RowBound(a, s)
    ensures CallInv(b, call)
  {
    var op, pc := call.op, call.pc;
    match pc
    case Scanning(_, k) => GrowsKeepsPrefix(a, b, op.g, k);
    case Creating(_) => GrowsKeepsPrefix(a, b, op.g, op.index);
    case Closing(n) => GrowsKeepsPrefix(a, b, op.g, n);
    case _ =>
  }

  predicate RowKept(db: Db, s: Slot)
    requires s in db.rows
  {
    0 <= s.index && PrefixConsumed(db, s.plan, s.index) && RowBound(db, s)
  }

  lemma GrowsKeepsRow(a: Db, b: Db, s: Slot)
    requires DbInv(a) && Grows(a, b) && s in a.rows
    ensures RowKept(b, s)
  {
    assert RowBound(a, s);
    GrowsKeepsPrefix(a, b, s.plan, s.index);
  }

  /** Replacing one plan row by a sound later version keeps the database invariant. */
  lemma PlanUpdateKeepsInv(db: Db, g: string, plan': Plan)
    requires DbInv(db) && g in db.plans && PlanGrows(db.plans[g], plan')
    requires plan'.status in {Approved, InProgress, Consumed, Failed} ==> plan'.approvedAt.Some?
    ensures DbInv(db.(plans := db.plans[g := plan'])) && Grows(db, db.(plans := db.plans[g := plan']))
  {
    var db' := db.(plans := db.plans[g := plan']);
    forall s | s in db'.rows ensures RowKept(db', s) { GrowsKeepsRow(db, db', s); }
    forall h | h in db'.plans ensures PlanSound(db', h) { assert h != g ==> PlanSound(db, h); }
  }

  lemma TransitionKeepsInv(db: Db, g: string, expected: PlanStatus, target: PlanStatus, now: Time)
    requires DbInv(db)
    ensures DbInv(Transition(db, g, expected, target, now).0)
    ensures Grows(db, Transition(db, g, expected, target, now).0)
  {
    var db' := Transition(db, g, expected, target, now).0;
    if db' != db {
      assert PlanSound(db, g);
      PlanUpdateKeepsInv(db, g, db'.plans[g]);
    }
  }

  lemma RewriteKeepsInv(db: Db, g: string, payload: Payload)
    requires DbInv(db)
    ensures DbInv(Rewrite(db, g, payload)) && Grows(db, Rewrite(db, g, payload))
  {
    if g in db.plans {
      assert PlanSound(db, g);
      PlanUpdateKeepsInv(db, g, db.plans[g].(payload := payload));
    }
  }

  lemma CreatePlanKeepsInv(db: Db, g: string, plan: Plan)
    requires DbInv(db)
    ensures DbInv(CreatePlan(db, g, plan).0) && Grows(db, CreatePlan(db, g, plan).0)
  {
    var db' := CreatePlan(db, g, plan).0;
    assert Grows(db, db');
    forall s | s in db'.rows ensures RowKept(db', s) { GrowsKeepsRow(db, db', s); }
    forall h | h in db'.plans ensures PlanSound(db', h) { assert h in db.plans ==> PlanSound(db, h); }
  }

  lemma ConsumeKeepsInv(db: Db, id: string, slot: Slot, binding: Binding, now: Time)
    requires DbInv(db)
    ensures DbInv(ConsumeStep(db, id, slot, binding, now).0)
    ensures Grows(db, ConsumeStep(db, id, slot, binding, now).0)
  {
    var db' := ConsumeStep(db, id, slot, binding, now).0;
    assert Grows(db, db');
    forall s | s in db'.rows ensures RowKept(db', s) { GrowsKeepsRow(db, db', s); }
    forall h | h in db'.plans ensures PlanSound(db', h) { assert PlanSound(db, h); }
  }

  lemma CreatedRowKept(db: Db, slot: Slot, row: StepRow)
    requires DbInv(db) && 0 <= slot.index && PrefixConsumed(db, slot.plan, slot.index)
    requires CreateStep(db, slot, row).0 != db
    ensures slot in CreateStep(db, slot, row).0.rows && RowKept(CreateStep(db, slot, row).0, slot)
  {
    assert PlanSound(db, slot.plan);
    GrowsKeepsPrefix(db, CreateStep(db, slot, row).0, slot.plan, slot.index);
  }

  lemma CreateStepKeepsInv(db: Db, slot: Slot, row: StepRow)
    requires DbInv(db) && 0 <= slot.index && PrefixConsumed(db, slot.plan, slot.index)
    ensures DbInv(CreateStep(db, slot, row).0) && Grows(db, CreateStep(db, slot, row).0)
  {
    var db' := CreateStep(db, slot, row).0;
    assert Grows(db, db');
    forall s | s in db'.rows ensures RowKept(db', s) {
      if s in db.rows { GrowsKeepsRow(db, db', s); } else { CreatedRowKept(db, slot, row); }
    }
    forall h | h in db'.plans ensures PlanSound(db', h) { assert PlanSound(db, h); }
  }

  /** One statement keeps the invariant, its own call's part included. */
  predicate Kept(db: Db, op: Op, next: (Db, Pc))
  {
    DbInv(next.0) && Grows(db, next.0) && CallInv(next.0, Call(op, next.1))
  }

  lemma StartKeepsInv(db: Db, op: Op)
    requires op.Issue? && DbInv(db)
    ensures Kept(db, op, AdvanceIssue(db, op, Start))
  {
    if op.g in db.plans { assert PlanSound(db, op.g); }
  }

  /** A statement that only reads. */
  lemma Unmoved(db: Db, op: Op, pc: Pc)
    requires DbInv(db) && CallInv(db, Call(op, pc))
    ensures Kept(db, op, (db, pc))
  {
  }

  lemma FoundRowIsGranted(db: Db, op: Op, plan: Plan)
    requires op.Issue? && DbInv(db) && op.index >= 0 && CallInv(db, Call(op, Scanning(plan, op.index)))
    requires Slot(op.g, op.index) in db.rows
    ensures CallInv(db, Call(op, AdvanceIssue(db, op, Scanning(plan, op.index)).1))
  {
    assert RowBound(db, Slot(op.g, op.index));
    assert db.plans[op.g].approvedAt == plan.approvedAt;
  }

  lemma ScanningKeepsInv(db: Db, op: Op, plan: Plan, k: nat)
    requires op.Issue? && DbInv(db) && CallInv(db, Call(op, Scanning(plan, k)))
    ensures Kept(db, op, AdvanceIssue(db, op, Scanning(plan, k)))
  {
    if k == op.index && Slot(op.g, op.index) in db.rows { FoundRowIsGranted(db, op, plan); }
    Unmoved(db, op, AdvanceIssue(db, op, Scanning(plan, k)).1);
  }

  lemma CreatingKeepsInv(db: Db, op: Op, plan: Plan)
    requires op.Issue? && DbInv(db) && CallInv(db, Call(op, Creating(plan)))
    ensures Kept(db, op, AdvanceIssue(db, op, Creating(plan)))
  {
    CreateStepKeepsInv(db, Slot(op.g, op.index), NewRow(op, plan));
  }

  lemma CreatedKeepsInv(db: Db, op: Op)
    requires op.Issue? && DbInv(db) && CallInv(db, Call(op, Created))
    ensures Kept(db, op, AdvanceIssue(db, op, Created))
  {
    assert RowBound(db, Slot(op.g, op.index));
  }

  lemma FetchedKeepsInv(db: Db, op: Op, row: StepRow)
    requires op.Issue? && DbInv(db) && CallInv(db, Call(op, Fetched(row)))
    ensures Kept(db, op, AdvanceIssue(db, op, Fetched(row)))
  {
    assert RowBound(db, Slot(op.g, op.index));
    Unmoved(db, op, AdvanceIssue(db, op, Fetched(row)).1);
  }

  lemma AdvanceIssueKeepsInv(db: Db, op: Op, pc: Pc)
    requires op.Issue? && DbInv(db) && CallInv(db, Call(op, pc))
    ensures Kept(db, op, AdvanceIssue(db, op, pc))
  {
    match pc
    case Start => StartKeepsInv(db, op);
    case Scanning(plan, k) => ScanningKeepsInv(db, op, plan, k);
    case Creating(plan) => CreatingKeepsInv(db, op, plan);
    case Created => CreatedKeepsInv(db, op);
    case Fetched(row) => FetchedKeepsInv(db, op, row);
    case Done(_) => assert AdvanceIssue(db, op, pc) == (db, pc);
    case _ => assert false;
  }

  lemma ClaimingKeepsInv(db: Db, op: Op, now: Time)
    requires op.Resume? && DbInv(db) && CallInv(db, Call(op, Claiming))
    ensures Kept(db, op, AdvanceResume(db, op, Claiming, now))
  {
    TransitionKeepsInv(db, op.g, Approved, InProgress, now);
  }

  lemma ReadingKeepsInv(db: Db, op: Op, pc: Pc, now: Time)
    requires op.Resume? && DbInv(db) && CallInv(db, Call(op, pc))
    requires pc.Start? || pc.Rereading? || pc.Recovering?
    ensures Kept(db, op, AdvanceResume(db, op, pc, now))
  {
    assert Grows(db, db);
  }

  lemma AdvanceResumeKeepsInv(db: Db, op: Op, pc: Pc, now: Time)
    requires op.Resume? && DbInv(db) && CallInv(db, Call(op, pc))
    ensures Kept(db, op, AdvanceResume(db, op, pc, now))
  {
    match pc
    case Start => ReadingKeepsInv(db, op, pc, now);
    case Claiming => ClaimingKeepsInv(db, op, now);
    case Rereading => ReadingKeepsInv(db, op, pc, now);
    case Recovering => ReadingKeepsInv(db, op, pc, now);
    case Done(_) => assert AdvanceResume(db, op, pc, now) == (db, pc);
    case _ => assert false;
  }

  lemma CloseStartKeepsInv(db: Db, op: Op, now: Time)
    requires (op.Close? || op.Abort?) && DbInv(db)
    ensures Kept(db, op, AdvanceClose(db, op, Start, now))
  {
    Unmoved(db, op, AdvanceClose(db, op, Start, now).1);
  }

  lemma CountingKeepsInv(db: Db, op: Op, n: nat, now: Time)
    requires op.Close? && DbInv(db) && CallInv(db, Call(op, Counting(n)))
    ensures Kept(db, op, AdvanceClose(db, op, Counting(n), now))
  {
    CountIsPrefix(db, op.g);
    Unmoved(db, op, AdvanceClose(db, op, Counting(n), now).1);
  }

  lemma ClosingKeepsInv(db: Db, op: Op, pc: Pc, now: Time)
    requires (op.Close? && pc.Closing?) || (op.Abort? && pc.Aborting?)
    requires DbInv(db) && CallInv(db, Call(op, pc))
    ensures Kept(db, op, AdvanceClose(db, op, pc, now))
  {
    TransitionKeepsInv(db, op.g, InProgress, if pc.Closing? then Consumed else Failed, now);
  }

  lemma AdvanceCloseKeepsInv(db: Db, op: Op, pc: Pc, now: Time)
    requires (op.Close? || op.Abort?) && DbInv(db) && CallInv(db, Call(op, pc))
    ensures Kept(db, op, AdvanceClose(db, op, pc, now))
  {
    match pc
    case Start => CloseStartKeepsInv(db, op, now);
    case Counting(n) => CountingKeepsInv(db, op, n, now);
    case Closing(_) => ClosingKeepsInv(db, op, pc, now);
    case Aborting => ClosingKeepsInv(db, op, pc, now);
    case Done(_) => assert AdvanceClose(db, op, pc, now) == (db, pc);
    case _ => assert false;
  }

  lemma AdvanceKeepsInv(db: Db, op: Op, pc: Pc, now: Time)
    requires DbInv(db) && CallInv(db, Call(op, pc))
    ensures Kept(db, op, Advance(db, op, pc, now))
  {
    match op
    case Issue(_, _, _, _, _, _, _, _) => AdvanceIssueKeepsInv(db, op, pc);
    case Resume(_, _) => AdvanceResumeKeepsInv(db, op, pc, now);
    case _ => AdvanceCloseKeepsInv(db, op, pc, now);
  }

  lemma ApplyKeepsInv(c: Config, e: Event)
    requires Inv(c)
    ensures Inv(Apply(c, e)) && Grows(c.db, Apply(c, e).db)
  {
    var c' := Apply(c, e);
    match e {
      case PlanRequested(g, plan) => CreatePlanKeepsInv(c.db, g, plan);
      case Decided(g, expected, verdict, at) =>
        if verdict in {Approved, Rejected, Cancelled} { TransitionKeepsInv(c.db, g, expected, verdict, at); }
      case CallStarted(_, _) =>
      case CallAdvances(id, at) =>
        if id in c.calls {
          assert CallInv(c.db, c.calls[id]);
          AdvanceKeepsInv(c.db, c.calls[id].op, c.calls[id].pc, at);
        }
      case StepUsed(rowId, slot, binding, at) => ConsumeKeepsInv(c.db, rowId, slot, binding, at);
      case Rewritten(g, payload) => RewriteKeepsInv(c.db, g, payload);
    }
    forall id | id in c'.calls ensures CallInv(c'.db, c'.calls[id]) {
      if id in c.calls && c'.calls[id] == c.calls[id] { CallInvStable(c.db, c'.db, c.calls[id]); }
    }
  }

  lemma {:induction false} RunKeepsInv(events: seq<Event>)
    ensures Inv(Run(events))
  {
    if events != [] {
      RunKeepsInv(events[..|events| - 1]);
      ApplyKeepsInv(Run(events[..|events| - 1]), events[|events| - 1]);
    }
  }

  lemma {:induction false} RunGrows(events: seq<Event>, later: seq<Event>)
    ensures Grows(Run(events).db, Run(events + later).db)
  {
    if later == [] {
      assert events + later == events;
    } else {
      var all := events + later;
      assert all[..|all| - 1] == events + later[..|later| - 1];
      RunGrows(events, later[..|later| - 1]);
      RunKeepsInv(all[..|all| - 1]);
      ApplyKeepsInv(Run(all[..|all| - 1]), all[|all| - 1]);
      GrowsTransitive(Run(events).db, Run(all[..|all| - 1]).db, Run(all).db);
    }
  }
}
