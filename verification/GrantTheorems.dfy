/** What every run of the grant protocol guarantees. */
module GrantTheorems {
  import opened Grants
  import opened GrantRuns

  /** A plan's steps are a consumed prefix plus at most one open grant, right behind it. */
  lemma {:induction false} StepsFormAPrefix(events: seq<Event>, g: string)
    ensures var db := Run(events).db; var k := |ConsumedSlots(db, g)|;
            && (forall i :: IsConsumed(db, g, i) <==> 0 <= i < k)
            && (forall s :: s in db.rows && s.plan == g && db.rows[s].status == StepApproved ==> s.index == k)
  {
    var db := Run(events).db;
    RunKeepsInv(events);
    CountIsPrefix(db, g);
    var k := |ConsumedSlots(db, g)|;
    forall s | s in db.rows && s.plan == g && db.rows[s].status == StepApproved ensures s.index == k {
      assert s == Slot(g, s.index) && !IsConsumed(db, g, s.index) && PrefixConsumed(db, g, s.index);
      assert 0 <= k < s.index ==> IsConsumed(db, g, k);
    }
  }

  // --------------------------------------------------------------- what a close read

  predicate ListsSteps(db: Db, g: string, n: nat)
  {
    g in db.plans && db.plans[g].payload.Document? && |db.plans[g].payload.steps| == n
  }

  /** At event i the close `id` read a payload listing n steps, and went on to count. */
  ghost predicate ReadsAt(events: seq<Event>, id: nat, n: nat, i: nat)
  {
    && i < |events| && id in Run(events[..i]).calls && id in Run(events[..i + 1]).calls
    && var call := Run(events[..i]).calls[id];
    && call.op.Close? && call.pc == Start && ListsSteps(Run(events[..i]).db, call.op.g, n)
    && Run(events[..i + 1]).calls[id] == Call(call.op, Counting(n))
  }

  ghost predicate Read(events: seq<Event>, id: nat, n: nat) { exists i: nat :: ReadsAt(events, id, n, i) }

  /** All the n > 0 steps that the close `id` read are consumed. */
  ghost predicate Covers(events: seq<Event>, id: nat, g: string, n: nat)
  {
    n > 0 && Read(events, id, n) && PrefixConsumed(Run(events).db, g, n)
  }

  ghost predicate Answered(events: seq<Event>, id: nat, g: string) { exists n :: Covers(events, id, g, n) }

  ghost predicate CallCounted(events: seq<Event>, id: nat, call: Call)
  {
    call.op.Close? ==>
      match call.pc
      case Counting(n) => Read(events, id, n)
      case Closing(n) => Covers(events, id, call.op.g, n)
      case Done(Closed(true)) => Answered(events, id, call.op.g)
      case _ => true
  }

  predicate ClosedBy(c: Config, g: string, id: nat)
  {
    id in c.calls && c.calls[id].op.Close? && c.calls[id].op.g == g && c.calls[id].pc == Done(Closed(true))
  }

  predicate PlanConsumed(db: Db, g: string) { g in db.plans && db.plans[g].status == Consumed }

  /** A plan is consumed only by a close that answered True, and every close has counted
      the steps that it read. */
  ghost predicate History(events: seq<Event>)
  {
    && (forall g :: PlanConsumed(Run(events).db, g) ==> exists id :: ClosedBy(Run(events), g, id))
    && forall id :: id in Run(events).calls ==> CallCounted(events, id, Run(events).calls[id])
  }

  lemma ReadLater(events: seq<Event>, e: Event, id: nat, n: nat)
    requires Read(events, id, n)
    ensures Read(events + [e], id, n)
  {
    var i: nat :| ReadsAt(events, id, n, i);
    assert (events + [e])[..i] == events[..i] && (events + [e])[..i + 1] == events[..i + 1];
    assert ReadsAt(events + [e], id, n, i);
  }

  lemma CoversLater(events: seq<Event>, e: Event, id: nat, g: string, n: nat)
    requires Covers(events, id, g, n)
    ensures Covers(events + [e], id, g, n)
  {
    ReadLater(events, e, id, n);
    RunGrows(events, [e]);
    GrowsKeepsPrefix(Run(events).db, Run(events + [e]).db, g, n);
  }

  lemma CallCountedLater(events: seq<Event>, e: Event, id: nat, call: Call)
    requires CallCounted(events, id, call)
    ensures CallCounted(events + [e], id, call)
  {
    if call.op.Close? && call.pc.Counting? { ReadLater(events, e, id, call.pc.expected); }
    if call.op.Close? && call.pc.Closing? { CoversLater(events, e, id, call.op.g, call.pc.counted); }
    if call.op.Close? && call.pc == Done(Closed(true)) {
      var n :| Covers(events, id, call.op.g, n);
      CoversLater(events, e, id, call.op.g, n);
    }
  }

  lemma {:induction false} StartCounted(events: seq<Event>, id: nat, at: Time)
    requires id in Run(events).calls && Run(events).calls[id].op.Close? && Run(events).calls[id].pc == Start
    requires Run(events + [CallAdvances(id, at)]).calls[id].pc.Counting?
    ensures Read(events + [CallAdvances(id, at)], id, Run(events + [CallAdvances(id, at)]).calls[id].pc.expected)
  {
    var all := events + [CallAdvances(id, at)];
    RunSnoc(events, CallAdvances(id, at));
    assert all[..|events|] == events && all[..|events| + 1] == all;
    assert ReadsAt(all, id, Run(all).calls[id].pc.expected, |events|);
  }

  lemma {:induction false} CountingCounted(events: seq<Event>, id: nat, at: Time)
    requires id in Run(events).calls && Run(events).calls[id].op.Close? && Run(events).calls[id].pc.Counting?
    requires CallCounted(events, id, Run(events).calls[id])
    ensures CallCounted(events + [CallAdvances(id, at)], id, Run(events + [CallAdvances(id, at)]).calls[id])
  {
    var call := Run(events).calls[id];
    RunSnoc(events, CallAdvances(id, at));
    RunKeepsInv(events);
    ReadLater(events, CallAdvances(id, at), id, call.pc.expected);
    CountIsPrefix(Run(events).db, call.op.g);
  }

  lemma {:induction false} AdvanceCounted(events: seq<Event>, id: nat, at: Time)
    requires id in Run(events).calls && CallCounted(events, id, Run(events).calls[id])
    ensures CallCounted(events + [CallAdvances(id, at)], id, Run(events + [CallAdvances(id, at)]).calls[id])
  {
    var call := Run(events).calls[id];
    RunSnoc(events, CallAdvances(id, at));
    RunKeepsInv(events);
    assert CallInv(Run(events).db, call);
    if call.op.Close? {
      var pc' := Run(events + [CallAdvances(id, at)]).calls[id].pc;
      match call.pc
      case Start => if pc'.Counting? { StartCounted(events, id, at); }
      case Counting(_) => CountingCounted(events, id, at);
      case Closing(n) => CoversLater(events, CallAdvances(id, at), id, call.op.g, n);
      case _ => CallCountedLater(events, CallAdvances(id, at), id, call);
    }
  }

  // ---------------------------------------------------------- what a statement does

  predicate OneEdge(a: Db, b: Db, g: string)
    requires g in a.plans
  {
    && g in b.plans
    && var source, target := a.plans[g].status, b.plans[g].status;
    && (source == target || LegalEdge(source, target) || (Live(source) && target == Expired))
  }

  /** One statement keeps the set of plans and their payloads, moves a plan along at most one
      edge, and consumes one only as the last statement of its close. */
  lemma AdvanceOnPlans(db: Db, op: Op, pc: Pc, now: Time)
    requires AtHome(op, pc)
    ensures var (db', pc') := Advance(db, op, pc, now);
            && db'.plans.Keys == db.plans.Keys
            && forall g :: g in db.plans ==>
                 && OneEdge(db, db', g) && db'.plans[g].payload == db.plans[g].payload
                 && (db'.plans[g].status == Consumed != db.plans[g].status ==>
                       op.Close? && op.g == g && pc' == Done(Closed(true)))
  {
    match op
    case Issue(_, _, _, _, _, _, _, _) => assert AdvanceIssue(db, op, pc).0.plans == db.plans;
    case Resume(_, _) => assert pc.Claiming? || AdvanceResume(db, op, pc, now).0 == db;
    case _ => assert pc.Closing? || pc.Aborting? || AdvanceClose(db, op, pc, now).0 == db;
  }

  lemma OthersDoNotConsume(c: Config, e: Event, g: string)
    requires !(e.CallAdvances? && e.id in c.calls)
    ensures PlanConsumed(Apply(c, e).db, g) ==> PlanConsumed(c.db, g)
  {
  }

  /** Only a close makes a plan consumed, and it answers True. */
  lemma ConsumedByClose(c: Config, e: Event, g: string) returns (id: nat)
    requires Inv(c) && PlanConsumed(Apply(c, e).db, g) && !PlanConsumed(c.db, g)
    ensures ClosedBy(Apply(c, e), g, id)
  {
    if e.CallAdvances? && e.id in c.calls {
      id := e.id;
      assert CallInv(c.db, c.calls[id]);
      AdvanceOnPlans(c.db, c.calls[id].op, c.calls[id].pc, e.at);
    } else {
      id := 0;
      OthersDoNotConsume(c, e, g);
    }
  }

  lemma ClosedByLater(c: Config, e: Event, g: string, id: nat)
    requires ClosedBy(c, g, id)
    ensures ClosedBy(Apply(c, e), g, id)
  {
  }

  lemma {:induction false} RunHistory(events: seq<Event>)
    ensures History(events)
  {
    if events != [] {
      var front, e := events[..|events| - 1], events[|events| - 1];
      assert events == front + [e];
      RunHistory(front);
      RunKeepsInv(front);
      forall g | PlanConsumed(Run(events).db, g) ensures exists id :: ClosedBy(Run(events), g, id) {
        if PlanConsumed(Run(front).db, g) {
          var id :| ClosedBy(Run(front), g, id);
          ClosedByLater(Run(front), e, g, id);
        } else {
          var id := ConsumedByClose(Run(front), e, g);
        }
      }
      forall id | id in Run(events).calls ensures CallCounted(events, id, Run(events).calls[id]) {
        HistoryOfCall(front, e, id);
      }
    }
  }

  lemma {:induction false} HistoryOfCall(events: seq<Event>, e: Event, id: nat)
    requires History(events) && id in Run(events + [e]).calls
    ensures CallCounted(events + [e], id, Run(events + [e]).calls[id])
  {
    RunSnoc(events, e);
    if id in Run(events).calls && Run(events + [e]).calls[id] == Run(events).calls[id] {
      CallCountedLater(events, e, id, Run(events).calls[id]);
    } else if id in Run(events).calls {
      assert e == CallAdvances(id, e.at);
      AdvanceCounted(events, id, e.at);
    }
  }

  lemma {:induction false} SameOperation(events: seq<Event>, later: seq<Event>, id: nat)
    requires id in Run(events).calls
    ensures id in Run(events + later).calls && Run(events + later).calls[id].op == Run(events).calls[id].op
  {
    if later == [] {
      assert events + later == events;
    } else {
      SameOperation(events, later[..|later| - 1], id);
      assert events + later == (events + later[..|later| - 1]) + [later[|later| - 1]];
      RunSnoc(events + later[..|later| - 1], later[|later| - 1]);
    }
  }

  lemma {:induction false} ReadsItsPlan(events: seq<Event>, id: nat, n: nat, i: nat)
    requires ReadsAt(events, id, n, i)
    ensures id in Run(events).calls && ListsSteps(Run(events[..i]).db, Run(events).calls[id].op.g, n)
  {
    assert events == events[..i] + events[i..];
    SameOperation(events[..i], events[i..], id);
  }

  /** The close read n > 0 steps of its plan at event i, and all of them are consumed. */
  ghost predicate ReadAndConsumed(events: seq<Event>, id: nat, g: string, n: nat, i: nat)
  {
    && n > 0 && ReadsAt(events, id, n, i) && ListsSteps(Run(events[..i]).db, g, n)
    && PrefixConsumed(Run(events).db, g, n)
  }

  /** A close that reports success leaves the plan consumed, with all the n > 0 steps that
      this close read consumed, whatever ran in between and however the payload was rewritten. */
  lemma {:induction false} ClosedPlanIsCovered(events: seq<Event>, id: nat)
    requires id in Run(events).calls
    requires Run(events).calls[id].op.Close? && Run(events).calls[id].pc == Done(Closed(true))
    ensures var g := Run(events).calls[id].op.g;
            PlanConsumed(Run(events).db, g) && exists n: nat, i: nat :: ReadAndConsumed(events, id, g, n, i)
  {
    RunKeepsInv(events);
    assert CallInv(Run(events).db, Run(events).calls[id]);
    AnsweredHasRead(events, id);
  }

  lemma {:induction false} AnsweredHasRead(events: seq<Event>, id: nat)
    requires id in Run(events).calls && ClosedBy(Run(events), Run(events).calls[id].op.g, id)
    ensures exists n: nat, i: nat :: ReadAndConsumed(events, id, Run(events).calls[id].op.g, n, i)
  {
    RunHistory(events);
    assert CallCounted(events, id, Run(events).calls[id]);
    var n :| Covers(events, id, Run(events).calls[id].op.g, n);
    var i: nat :| ReadsAt(events, id, n, i);
    ReadsItsPlan(events, id, n, i);
    assert ReadAndConsumed(events, id, Run(events).calls[id].op.g, n, i);
  }

  /** A call reads once: the count it read is one number. */
  lemma ReadsOnce(events: seq<Event>, id: nat, n: nat, i: nat, m: nat, j: nat)
    requires ReadsAt(events, id, n, i) && ReadsAt(events, id, m, j)
    ensures i == j && n == m
  {
    if i < j {
      assert events[..j] == events[..i + 1] + events[i + 1..j];
      NoWayBack(events[..i + 1], events[i + 1..j], id);
    } else if j < i {
      assert events[..i] == events[..j + 1] + events[j + 1..i];
      NoWayBack(events[..j + 1], events[j + 1..i], id);
    }
  }

  lemma {:induction false} NoWayBack(events: seq<Event>, later: seq<Event>, id: nat)
    requires id in Run(events).calls && Run(events).calls[id].pc != Start
    ensures id in Run(events + later).calls && Run(events + later).calls[id].pc != Start
  {
    if later == [] {
      assert events + later == events;
    } else {
      var before, e := later[..|later| - 1], later[|later| - 1];
      NoWayBack(events, before, id);
      assert events + later == (events + before) + [e];
      RunSnoc(events + before, e);
      NotBackToStart(Run(events + before), e, id);
    }
  }

  lemma NotBackToStart(c: Config, e: Event, id: nat)
    requires id in c.calls && c.calls[id].pc != Start
    ensures id in Apply(c, e).calls && Apply(c, e).calls[id].pc != Start
  {
    if e.CallAdvances? && e.id == id {
      var op := c.calls[id].op;
      assert Advance(c.db, op, c.calls[id].pc, e.at).1 != Start;
    }
  }

  // -------------------------------------------------------------- untouched payloads

  predicate Untouched(events: seq<Event>, g: string) { forall e :: e in events ==> !(e.Rewritten? && e.g == g) }

  lemma {:induction false} PayloadIsFixed(events: seq<Event>, later: seq<Event>, g: string)
    requires Untouched(later, g) && g in Run(events).db.plans
    ensures g in Run(events + later).db.plans
    ensures Run(events + later).db.plans[g].payload == Run(events).db.plans[g].payload
  {
    if later == [] {
      assert events + later == events;
    } else {
      var before, e := later[..|later| - 1], later[|later| - 1];
      PayloadIsFixed(events, before, g);
      assert events + later == (events + before) + [e];
      OnlyRewritingRewrites(events + before, e, g);
    }
  }

  lemma {:induction false} OnlyRewritingRewrites(events: seq<Event>, e: Event, g: string)
    requires g in Run(events).db.plans && !(e.Rewritten? && e.g == g)
    ensures g in Run(events + [e]).db.plans
    ensures Run(events + [e]).db.plans[g].payload == Run(events).db.plans[g].payload
  {
    RunSnoc(events, e);
    var c := Run(events);
    RunKeepsInv(events);
    if e.CallAdvances? && e.id in c.calls {
      assert CallInv(c.db, c.calls[e.id]);
      AdvanceOnPlans(c.db, c.calls[e.id].op, c.calls[e.id].pc, e.at);
    }
  }

  /** While nobody rewrites its payload, a consumed plan has all its listed steps consumed. */
  lemma {:induction false} UntouchedPlanIsCovered(events: seq<Event>, g: string)
    requires Untouched(events, g) && g in Run(events).db.plans && Run(events).db.plans[g].status == Consumed
    ensures var db := Run(events).db;
            && db.plans[g].payload.Document? && db.plans[g].payload.steps != []
            && PrefixConsumed(db, g, |db.plans[g].payload.steps|)
  {
    RunHistory(events);
    assert PlanConsumed(Run(events).db, g);
    var id :| ClosedBy(Run(events), g, id);
    ClosedPlanIsCovered(events, id);
    var n: nat, i: nat :| ReadAndConsumed(events, id, g, n, i);
    UntouchedSince(events, g, n, i);
  }

  lemma {:induction false} UntouchedSince(events: seq<Event>, g: string, n: nat, i: nat)
    requires Untouched(events, g) && i <= |events| && ListsSteps(Run(events[..i]).db, g, n)
    ensures ListsSteps(Run(events).db, g, n)
  {
    assert events == events[..i] + events[i..];
    PayloadIsFixed(events[..i], events[i..], g);
  }

  // ---------------------------------------------------------------- a close by itself

  predicate Counts(payload: Payload, consumed: nat)
  {
    payload.Document? && consumed > 0 && |payload.steps| == consumed
  }

  /** The answer of an uninterrupted close, read off the rows. */
  function CloseAnswer(db: Db, op: Op, now: Time): Reply
    requires op.Close?
  {
    if op.g !in db.plans || db.plans[op.g].owner != op.who then Closed(false)
    else
      var plan := db.plans[op.g];
      if plan.payload.NoObject? then Raised(AttributeError)
      else Closed(Counts(plan.payload, |ConsumedSlots(db, op.g)|) && plan.status == InProgress && now < plan.expiresAt)
  }

  lemma {:induction false} CloseAloneAnswers(db: Db, op: Op, now: Time)
    requires op.Close?
    ensures RunAlone(db, op, Start, now).1 == CloseAnswer(db, op, now)
  {
    if op.g in db.plans && db.plans[op.g].owner == op.who && db.plans[op.g].payload.Document? {
      CloseAloneUnfolded(db, op, now);
    } else {
      var pc := Advance(db, op, Start, now).1;
      assert RunAlone(db, op, Start, now) == RunAlone(db, op, pc, now);
    }
  }

  /** Once a close has read the plan, a statement does the same beside a rewritten payload. */
  lemma LateRewriteStep(db: Db, op: Op, pc: Pc, g: string, payload: Payload, now: Time)
    requires op.Close? && AtHome(op, pc) && !pc.Start?
    ensures Advance(Rewrite(db, g, payload), op, pc, now)
         == (Rewrite(Advance(db, op, pc, now).0, g, payload), Advance(db, op, pc, now).1)
  {
    assert ConsumedSlots(Rewrite(db, g, payload), op.g) == ConsumedSlots(db, op.g);
    if pc.Closing? { RewriteCommutes(db, op.g, g, payload, now); }
  }

  lemma RewriteCommutes(db: Db, h: string, g: string, payload: Payload, now: Time)
    ensures Transition(Rewrite(db, g, payload), h, InProgress, Consumed, now)
         == (Rewrite(Transition(db, h, InProgress, Consumed, now).0, g, payload),
             Transition(db, h, InProgress, Consumed, now).1)
  {
    var moved := Transition(db, h, InProgress, Consumed, now).0;
    if g in db.plans && h in db.plans {
      var p, row := db.plans[g].(payload := payload), moved.plans[h];
      if g == h {
        assert db.plans[g := p][g := row.(payload := payload)] == db.plans[g := row][g := row.(payload := payload)];
      } else {
        assert db.plans[g := p][h := row] == db.plans[h := row][g := p];
      }
    }
  }

  /** So its answer, and all else that it does, are those without the rewrite. */
  lemma {:induction false} LateRewriteIsUnseen(db: Db, op: Op, pc: Pc, g: string, payload: Payload, now: Time)
    requires op.Close? && AtHome(op, pc) && !pc.Start?
    ensures RunAlone(Rewrite(db, g, payload), op, pc, now)
         == (Rewrite(RunAlone(db, op, pc, now).0, g, payload), RunAlone(db, op, pc, now).1)
    decreases Remaining(op, pc)
  {
    if !pc.Done? {
      AdvanceStaysHome(db, op, pc, now);
      LateRewriteStep(db, op, pc, g, payload, now);
      var (db', pc') := Advance(db, op, pc, now);
      assert !pc'.Start?;
      LateRewriteIsUnseen(db', op, pc', g, payload, now);
    }
  }

  /** An uninterrupted close succeeds exactly when the owner closes a running, unexpired
      plan whose consumed indices are 0 .. n-1 for its n > 0 steps. */
  lemma {:induction false} CloseAloneIsExact(events: seq<Event>, op: Op, now: Time)
    requires op.Close?
    ensures var db := Run(events).db; var (db', reply) := RunAlone(db, op, Start, now);
            reply == Closed(true) <==>
            (&& op.g in db.plans && db.plans[op.g].owner == op.who
             && db.plans[op.g].status == InProgress && now < db.plans[op.g].expiresAt
             && db.plans[op.g].payload.Document? && db.plans[op.g].payload.steps != []
             && forall i :: IsConsumed(db, op.g, i) <==> 0 <= i < |db.plans[op.g].payload.steps|)
  {
    var db := Run(events).db;
    RunKeepsInv(events);
    CountIsPrefix(db, op.g);
    CloseAloneAnswers(db, op, now);
    var counted := |ConsumedSlots(db, op.g)|;
    if op.g in db.plans && db.plans[op.g].payload.Document? {
      var n := |db.plans[op.g].payload.steps|;
      if counted != n { assert IsConsumed(db, op.g, if counted < n then counted else n) <==> n < counted; }
    }
  }

  /** The close does not look at the digest: it answers the same on a rewritten payload if
      and only if it never gets to count, or both payloads pass or fail the count. */
  lemma {:induction false} RewrittenPayloadKeepsAnswerIff(db: Db, op: Op, payload: Payload, now: Time)
    requires op.Close?
    ensures RunAlone(Rewrite(db, op.g, payload), op, Start, now).1 == RunAlone(db, op, Start, now).1 <==>
              || op.g !in db.plans || db.plans[op.g].owner != op.who
              || (&& (payload.NoObject? <==> db.plans[op.g].payload.NoObject?)
                  && (|| payload.NoObject? || db.plans[op.g].status != InProgress || db.plans[op.g].expiresAt <= now
                      || (Counts(payload, |ConsumedSlots(db, op.g)|)
                          <==> Counts(db.plans[op.g].payload, |ConsumedSlots(db, op.g)|))))
  {
    CloseAloneAnswers(db, op, now);
    CloseAloneAnswers(Rewrite(db, op.g, payload), op, now);
  }

  lemma {:induction false} CloseAloneUnfolded(db: Db, op: Op, now: Time)
    requires op.Close? && op.g in db.plans && db.plans[op.g].owner == op.who && db.plans[op.g].payload.Document?
    ensures var n := |db.plans[op.g].payload.steps|;
            RunAlone(db, op, Start, now) ==
            if n == 0 || |ConsumedSlots(db, op.g)| != n then (db, Closed(false))
            else var (db', ok) := Transition(db, op.g, InProgress, Consumed, now); (db', Closed(ok))
  {
    var n := |db.plans[op.g].payload.steps|;
    assert Advance(db, op, Start, now) == (db, Counting(n));
    assert RunAlone(db, op, Start, now) == RunAlone(db, op, Counting(n), now);
    if n == 0 || |ConsumedSlots(db, op.g)| != n {
      assert Advance(db, op, Counting(n), now) == (db, Done(Closed(false)));
      assert RunAlone(db, op, Counting(n), now) == RunAlone(db, op, Done(Closed(false)), now);
    } else {
      assert Advance(db, op, Counting(n), now) == (db, Closing(n));
      assert RunAlone(db, op, Counting(n), now) == RunAlone(db, op, Closing(n), now);
      var (db', ok) := Transition(db, op.g, InProgress, Consumed, now);
      assert Advance(db, op, Closing(n), now) == (db', Done(Closed(ok)));
      assert RunAlone(db, op, Closing(n), now) == RunAlone(db', op, Done(Closed(ok)), now);
    }
  }

  lemma {:induction false} RunSnoc(events: seq<Event>, e: Event)
    ensures Run(events + [e]) == Apply(Run(events), e)
  {
    assert (events + [e])[..|events + [e]| - 1] == events;
  }

  /** A call run alone is one of the runs: its statements as consecutive events. */
  lemma {:induction false} AloneIsARun(events: seq<Event>, id: nat, now: Time) returns (rest: seq<Event>)
    requires id in Run(events).calls && AtHome(Run(events).calls[id].op, Run(events).calls[id].pc)
    ensures var c := Run(events);
            var (db', reply) := RunAlone(c.db, c.calls[id].op, c.calls[id].pc, now);
            Run(events + rest) == Config(db', c.calls[id := Call(c.calls[id].op, Done(reply))])
    decreases Remaining(Run(events).calls[id].op, Run(events).calls[id].pc)
  {
    var c := Run(events);
    var op, pc := c.calls[id].op, c.calls[id].pc;
    if pc.Done? {
      rest := [];
      assert events + rest == events && c.calls[id := Call(op, pc)] == c.calls;
    } else {
      AdvanceStaysHome(c.db, op, pc, now);
      var e := CallAdvances(id, now);
      RunSnoc(events, e);
      var more := AloneIsARun(events + [e], id, now);
      rest := [e] + more;
      assert events + rest == events + [e] + more;
      var (db', pc') := Advance(c.db, op, pc, now);
      var reply := RunAlone(db', op, pc', now).1;
      assert c.calls[id := Call(op, pc')][id := Call(op, Done(reply))] == c.calls[id := Call(op, Done(reply))];
    }
  }

  // ------------------------------------------------- steps used after the close

  /** No consumption in `later` happens before t. */
  predicate From(later: seq<Event>, t: Time) { forall e :: e in later && e.StepUsed? ==> t <= e.at }

  /** A grant at the slot that was used, or can still be used at t. */
  predicate Usable(db: Db, slot: Slot, t: Time)
  {
    slot in db.rows && (db.rows[slot].status == StepConsumed || t < db.rows[slot].expiresAt)
  }

  lemma {:induction false} UnusableStays(events: seq<Event>, later: seq<Event>, slot: Slot, t: Time)
    requires slot.plan in Run(events).db.plans && Terminal(Run(events).db.plans[slot.plan].status)
    requires From(later, t) && !Usable(Run(events).db, slot, t)
    ensures !Usable(Run(events + later).db, slot, t)
  {
    if later == [] {
      assert events + later == events;
    } else {
      var before, e := later[..|later| - 1], later[|later| - 1];
      UnusableStays(events, before, slot, t);
      TerminalPlansAreFrozen(events, before, slot.plan);
      assert events + later == (events + before) + [e];
      RunSnoc(events + before, e);
      TerminalPlanSurvives(Run(events + before), e, slot.plan);
      RunGrows(events + before, [e]);
      if slot in Run(events + before).db.rows { OnlyUseConsumes(Run(events + before), e, slot); }
    }
  }

  lemma OnlyUseConsumes(c: Config, e: Event, slot: Slot)
    requires slot in c.db.rows
    ensures slot in Apply(c, e).db.rows && c.db.rows[slot].status != Apply(c, e).db.rows[slot].status
            ==> e.StepUsed? && e.at < c.db.rows[slot].expiresAt
  {
    if e.CallAdvances? && e.id in c.calls { AdvanceKeepsRow(c.db, c.calls[e.id].op, c.calls[e.id].pc, e.at, slot); }
  }

  lemma AdvanceKeepsRow(db: Db, op: Op, pc: Pc, now: Time, slot: Slot)
    requires slot in db.rows
    ensures slot in Advance(db, op, pc, now).0.rows && Advance(db, op, pc, now).0.rows[slot] == db.rows[slot]
  {
    match op
    case Issue(_, _, _, _, _, _, _, _) => assert Advance(db, op, pc, now) == AdvanceIssue(db, op, pc);
    case Resume(_, _) => assert Advance(db, op, pc, now).0.rows == db.rows;
    case _ => assert Advance(db, op, pc, now).0.rows == db.rows;
  }

  lemma UsableIsUsed(events: seq<Event>, slot: Slot, t: Time) returns (later: seq<Event>)
    requires Usable(Run(events).db, slot, t)
    ensures From(later, t) && IsConsumed(Run(events + later).db, slot.plan, slot.index)
  {
    var row := Run(events).db.rows[slot];
    assert slot == Slot(slot.plan, slot.index);
    RunKeepsInv(events);
    assert RowBound(Run(events).db, slot);
    if row.status == StepConsumed {
      later := [];
      assert events + later == events;
    } else {
      later := [StepUsed(row.id, slot, row.binding, t)];
      assert row.(binding := row.binding) == row;
      RunSnoc(events, later[0]);
    }
  }

  /** Nothing bounds the index of a request.  From t on a terminal plan can come to have
      index n consumed if and only if a grant at n was used or is unexpired at t. */
  lemma {:induction false} ClosedPlanOverrunsIff(events: seq<Event>, g: string, n: nat, t: Time)
    requires g in Run(events).db.plans && Terminal(Run(events).db.plans[g].status)
    ensures (exists later :: From(later, t) && IsConsumed(Run(events + later).db, g, n))
            <==> Usable(Run(events).db, Slot(g, n), t)
  {
    if Usable(Run(events).db, Slot(g, n), t) {
      var later := UsableIsUsed(events, Slot(g, n), t);
    } else {
      forall later | From(later, t) ensures !IsConsumed(Run(events + later).db, g, n) {
        UnusableStays(events, later, Slot(g, n), t);
      }
    }
  }

  ghost predicate ExactlyConsumed(db: Db, g: string, n: nat) { forall i :: IsConsumed(db, g, i) <==> 0 <= i < n }

  /** A terminal plan with its n steps consumed is exact, and stays exact in everything that
      can happen from t on, if and only if no grant at n was used or is unexpired at t. */
  lemma {:induction false} ClosedPlanStaysExactIff(events: seq<Event>, g: string, n: nat, t: Time)
    requires g in Run(events).db.plans && Terminal(Run(events).db.plans[g].status)
    requires PrefixConsumed(Run(events).db, g, n)
    ensures (forall later :: From(later, t) ==> ExactlyConsumed(Run(events + later).db, g, n))
            <==> !Usable(Run(events).db, Slot(g, n), t)
  {
    if Usable(Run(events).db, Slot(g, n), t) {
      var later := UsableIsUsed(events, Slot(g, n), t);
      assert !ExactlyConsumed(Run(events + later).db, g, n);
    } else {
      forall later | From(later, t) ensures ExactlyConsumed(Run(events + later).db, g, n) {
        UnusableStays(events, later, Slot(g, n), t);
        assert !IsConsumed(Run(events + later).db, g, n);
        RunGrows(events, later);
        GrowsKeepsPrefix(Run(events).db, Run(events + later).db, g, n);
        RunKeepsInv(events + later);
        CountIsPrefix(Run(events + later).db, g);
        PrefixEndsAt(Run(events + later).db, g, n);
      }
    }
  }

  lemma PrefixEndsAt(db: Db, g: string, n: nat)
    requires RowsOrdered(db) && PrefixConsumed(db, g, n) && !IsConsumed(db, g, n)
    ensures ExactlyConsumed(db, g, n)
  {
    CountIsPrefix(db, g);
    var k := |ConsumedSlots(db, g)|;
    assert IsConsumed(db, g, n) <==> n < k;
    assert n > 0 ==> IsConsumed(db, g, n - 1);
  }

  lemma {:induction false} BoundedRequestsBoundRows(events: seq<Event>, g: string, n: nat)
    requires forall e :: e in events && e.CallStarted? && e.op.Issue? && e.op.g == g ==> e.op.index < n
    ensures forall s :: s in Run(events).db.rows && s.plan == g ==> s.index < n
    ensures forall id :: id in Run(events).calls ==>
              var op := Run(events).calls[id].op; op.Issue? && op.g == g ==> op.index < n
  {
    if events != [] {
      BoundedRequestsBoundRows(events[..|events| - 1], g, n);
      var c, e := Run(events[..|events| - 1]), events[|events| - 1];
      forall s | s in Apply(c, e).db.rows && s.plan == g ensures s.index < n {
        if s !in c.db.rows { assert e.CallAdvances? && c.calls[e.id].op.Issue?; }
      }
    }
  }

  /** When every requested index lies inside the plan, a closed plan is exact. */
  lemma {:induction false} BoundedRunsCloseExactly(events: seq<Event>, g: string)
    requires g in Run(events).db.plans && Run(events).db.plans[g].status == Consumed && Untouched(events, g)
    requires Run(events).db.plans[g].payload.Document? ==>
               forall e :: e in events && e.CallStarted? && e.op.Issue? && e.op.g == g ==>
                 e.op.index < |Run(events).db.plans[g].payload.steps|
    ensures var db := Run(events).db;
            db.plans[g].payload.Document? && ExactlyConsumed(db, g, |db.plans[g].payload.steps|)
  {
    var db := Run(events).db;
    RunKeepsInv(events);
    UntouchedPlanIsCovered(events, g);
    var n := |db.plans[g].payload.steps|;
    BoundedRequestsBoundRows(events, g, n);
    PrefixEndsAt(db, g, n);
  }

  // ----------------------------------------------------------- status and payload

  /** One event moves a plan along one edge, or lets an overdue live plan expire. */
  lemma {:induction false} StatusFollowsEdges(events: seq<Event>, e: Event, g: string)
    requires g in Run(events).db.plans
    ensures OneEdge(Run(events).db, Run(events + [e]).db, g)
  {
    RunSnoc(events, e);
    RunKeepsInv(events);
    var c := Run(events);
    if e.CallAdvances? && e.id in c.calls {
      assert CallInv(c.db, c.calls[e.id]);
      AdvanceOnPlans(c.db, c.calls[e.id].op, c.calls[e.id].pc, e.at);
    }
  }

  /** A closed, failed, rejected, cancelled or expired plan never gains a step and never
      changes again, but for its payload being rewritten. */
  lemma {:induction false} TerminalPlansAreFrozen(events: seq<Event>, later: seq<Event>, g: string)
    requires g in Run(events).db.plans && Terminal(Run(events).db.plans[g].status)
    ensures g in Run(events + later).db.plans
    ensures var (plan, plan') := (Run(events).db.plans[g], Run(events + later).db.plans[g]);
            plan' == plan.(payload := plan'.payload) && (Untouched(later, g) ==> plan' == plan)
    ensures forall i :: Slot(g, i) in Run(events + later).db.rows ==> Slot(g, i) in Run(events).db.rows
  {
    if later == [] {
      assert events + later == events;
    } else {
      var before, e := later[..|later| - 1], later[|later| - 1];
      assert events + later == (events + before) + [e];
      TerminalPlansAreFrozen(events, before, g);
      RunSnoc(events + before, e);
      TerminalPlanSurvives(Run(events + before), e, g);
      assert Untouched(later, g) ==> Untouched(before, g) && !(e.Rewritten? && e.g == g);
    }
  }

  lemma TerminalPlanSurvives(c: Config, e: Event, g: string)
    requires g in c.db.plans && Terminal(c.db.plans[g].status)
    ensures g in Apply(c, e).db.plans
    ensures var plan' := Apply(c, e).db.plans[g];
            plan' == c.db.plans[g].(payload := plan'.payload) && (!(e.Rewritten? && e.g == g) ==> plan' == c.db.plans[g])
    ensures forall i :: Slot(g, i) in Apply(c, e).db.rows ==> Slot(g, i) in c.db.rows
  {
    if e.CallAdvances? && e.id in c.calls {
      var op, pc := c.calls[e.id].op, c.calls[e.id].pc;
      match op
      case Issue(_, _, _, _, _, _, _, _) => assert Advance(c.db, op, pc, e.at) == AdvanceIssue(c.db, op, pc);
      case Resume(_, _) => assert Advance(c.db, op, pc, e.at) == AdvanceResume(c.db, op, pc, e.at);
      case _ => assert Advance(c.db, op, pc, e.at) == AdvanceClose(c.db, op, pc, e.at);
    }
  }

  /** Tampering fails closed.  However payloads are rewritten, all successful resumes of a
      plan in a run return one payload, whose digest was recorded, and a recovery returns it
      exactly while the plan is live and holds that payload, and raises otherwise. */
  lemma {:induction false} OnePayloadPerPlan(events: seq<Event>, later: seq<Event>, id: nat, g: string, payload: Payload)
    requires id in Run(events).calls
    requires Run(events).calls[id].op.g == g && Run(events).calls[id].pc == Done(Resumed(payload))
    ensures g in Run(events + later).db.plans
    ensures Run(events + later).db.plans[g].planHash == Sha256(payload) && !payload.Malformed?
    ensures var db := Run(events + later).db;
            Recover(db, g) == if db.plans[g].status in {Approved, InProgress} && db.plans[g].payload == payload
                              then Resumed(payload) else Raised(PermissionError)
    ensures forall id' :: id' in Run(events + later).calls ==>
              var call := Run(events + later).calls[id'];
              call.op.g == g && call.pc.Done? && call.pc.reply.Resumed? ==> call.pc.reply.payload == payload
  {
    RunKeepsInv(events);
    RunGrows(events, later);
    RunKeepsInv(events + later);
    assert CallInv(Run(events).db, Run(events).calls[id]);
    forall id' | id' in Run(events + later).calls
      ensures var call := Run(events + later).calls[id'];
              call.op.g == g && call.pc.Done? && call.pc.reply.Resumed? ==> call.pc.reply.payload == payload
    {
      assert CallInv(Run(events + later).db, Run(events + later).calls[id']);
    }
  }

  // ------------------------------------------------------------------ step grants

  /** A granted context is exactly what consumption asks for: it works until it is used or
      expires, no matter what else ran. */
  lemma {:induction false} GrantedContextIsUsable(events: seq<Event>, id: nat, ctx: Context, now: Time)
    requires id in Run(events).calls && Run(events).calls[id].pc == Done(Granted(ctx))
    ensures ctx.slot in Run(events).db.rows && ctx.approvedAt.Some?
    ensures ConsumeStep(Run(events).db, ctx.id, ctx.slot, ctx.binding, now).1
            <==> Run(events).db.rows[ctx.slot].status == StepApproved && now < ctx.expiresAt
  {
    RunKeepsInv(events);
    var c := Run(events);
    assert CallInv(c.db, c.calls[id]);
    assert RowBound(c.db, ctx.slot);
  }

  /** Once its row is in, a call always gets its context: the approval time is on record. */
  lemma {:induction false} InsertedStepIsGranted(events: seq<Event>, id: nat, now: Time)
    requires id in Run(events).calls && (Run(events).calls[id].pc.Created? || Run(events).calls[id].pc.Fetched?)
    ensures var call := Run(events).calls[id];
            var pc' := Advance(Run(events).db, call.op, call.pc, now).1;
            if call.pc.Created? then pc'.Fetched?
            else pc'.Done? && pc'.reply.Granted? && pc'.reply.ctx.id == call.op.rowId
  {
    RunKeepsInv(events);
    var c := Run(events);
    assert CallInv(c.db, c.calls[id]);
    assert RowBound(c.db, Slot(c.calls[id].op.g, c.calls[id].op.index));
  }

  predicate Succeeds(events: seq<Event>, i: nat, rowId: string)
    requires i < |events|
  {
    var e := events[i];
    e.StepUsed? && e.rowId == rowId && ConsumeStep(Run(events[..i]).db, e.rowId, e.slot, e.binding, e.at).1
  }

  /** A step grant is consumed at most once in any run. */
  lemma StepsAreSingleUse(events: seq<Event>, i: nat, j: nat, rowId: string)
    requires i < j < |events| && Succeeds(events, i, rowId)
    ensures !Succeeds(events, j, rowId)
  {
    var e := events[i];
    assert events[..i + 1][..i] == events[..i];
    var after := Run(events[..i + 1]).db;
    assert after.rows[e.slot].status == StepConsumed && after.rows[e.slot].id == rowId;
    assert events[..i + 1] + events[i + 1..j] == events[..j];
    RunGrows(events[..i + 1], events[i + 1..j]);
    RunKeepsInv(events[..j]);
    assert IdsUnique(Run(events[..j]).db);
  }
}
