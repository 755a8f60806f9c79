/** Single-use, identity-bound confirmations of one tool call. */
module Confirmations {
  import opened Wrappers

  type Time = int

  /** `identity["session_id"]` as the dictionary holds it. */
  datatype SessionKey = Absent | Null | Value(session: string)

  /** Truncated SHA-256 digests, taken as injective. */
  datatype IdentityHash = IdentityHash(userId: string, session: SessionKey)
  datatype ParamsHash = ParamsHash(params: string)

  /** The rest of the context that a record keeps. */
  datatype SafeContext = SafeContext(role: Option<string>, executionId: Option<string>)

  datatype Caller = Caller(userId: string, session: SessionKey, contextSession: string, context: SafeContext)

  /** What a confirmation is asked for; `params` are the parameters after redaction. */
  datatype Asked = Asked(toolId: string, params: string, reason: string, riskLevel: string, planId: string)

  datatype Record = Record(
    confirmation: bool, toolId: string, params: string, reason: string, userId: string, session: string,
    context: SafeContext, createdAt: Time, ttl: Time, riskLevel: string, planId: string,
    paramsHash: ParamsHash, identityHash: IdentityHash)

  datatype Attempt = Attempt(id: string, userId: string, approved: bool, session: Option<string>)

  datatype Grant = Grant(id: string, toolId: string, params: string, session: string, context: SafeContext,
                         userId: string, riskLevel: string, planId: string,
                         paramsHash: ParamsHash, identityHash: IdentityHash)

  datatype Outcome = Granted(grant: Grant) | Nothing | PermissionError

  /** Why a request is refused: no authenticated user, or too many pending actions. */
  datatype Refusal = ValueError | RuntimeError

  // ---------------------------------------------------------------- operations

  /** The session the record keeps: the identity's own if truthy, else the context's. */
  function StoredSession(caller: Caller): string
  {
    if caller.session.Value? && caller.session.session != "" then caller.session.session else caller.contextSession
  }

  /** The session value that is hashed: the identity's own, "" when the key is missing. */
  function HashedSession(caller: Caller): SessionKey
  {
    if caller.session.Absent? then Value("") else caller.session
  }

  function NewRecord(caller: Caller, asked: Asked, now: Time, ttl: Time): Record
  {
    Record(true, asked.toolId, asked.params, asked.reason, caller.userId, StoredSession(caller), caller.context,
           now, ttl, asked.riskLevel, asked.planId,
           ParamsHash(asked.params), IdentityHash(caller.userId, HashedSession(caller)))
  }

  function GrantOf(id: string, record: Record, userId: string): Grant
  {
    Grant(id, record.toolId, record.params, record.session, record.context, userId,
          record.riskLevel, record.planId, record.paramsHash, record.identityHash)
  }

  datatype Taken = Missing | WrongUser | Took(record: Record)

  /** Look up, compare the owner and delete, in one transaction. */
  function Take(store: map<string, Record>, id: string, userId: string): (map<string, Record>, Taken)
  {
    if id !in store then (store, Missing)
    else if userId != "" && store[id].userId != userId then (store, WrongUser)
    else (store - {id}, Took(store[id]))
  }

  function EffectiveSession(record: Record, attempt: Attempt): string
  {
    match attempt.session case None => record.session case Some(s) => s
  }

  /** What the approver gets for the record it removed. */
  function Judge(record: Record, attempt: Attempt, now: Time): Outcome
  {
    if attempt.approved && ParamsHash(record.params) != record.paramsHash then PermissionError
    else if attempt.approved
         && record.identityHash != IdentityHash(attempt.userId, Value(EffectiveSession(record, attempt))) then
      PermissionError
    else if now - record.createdAt > record.ttl || !attempt.approved then Nothing
    else Granted(GrantOf(attempt.id, record, attempt.userId))
  }

  function Finish(store: map<string, Record>, attempt: Attempt, now: Time): (map<string, Record>, Outcome)
  {
    match Take(store, attempt.id, attempt.userId)
    case (store', Missing) => (store', Nothing)
    case (store', WrongUser) => (store', PermissionError)
    case (store', Took(record)) => (store', if record.confirmation then Judge(record, attempt, now) else Nothing)
  }

  predicate Visible(store: map<string, Record>, id: string) { id in store && store[id].confirmation }

  /** A whole consume: the read that may answer early, then the removal and the checks. */
  function Consumption(store: map<string, Record>, attempt: Attempt, now: Time): (map<string, Record>, Outcome)
  {
    if Visible(store, attempt.id) then Finish(store, attempt, now) else (store, Nothing)
  }

  // ---------------------------------------------------------- what a consume answers

  /** The stored digests are those of the stored parameters and of the attempt's user and
      session, the record's own session when the attempt names none. */
  predicate DigestsAgree(record: Record, attempt: Attempt)
  {
    && record.paramsHash == ParamsHash(record.params)
    && record.identityHash == IdentityHash(attempt.userId, Value(match attempt.session case Some(s) => s case None => record.session))
  }

  /** The removal: a stored confirmation goes to its owner, or to an attempt naming no user. */
  predicate Removes(store: map<string, Record>, attempt: Attempt)
  {
    && attempt.id in store && store[attempt.id].confirmation
    && (attempt.userId == "" || attempt.userId == store[attempt.id].userId)
  }

  predicate Confirms(store: map<string, Record>, attempt: Attempt, now: Time)
  {
    && Removes(store, attempt) && attempt.approved && DigestsAgree(store[attempt.id], attempt)
    && now <= store[attempt.id].createdAt + store[attempt.id].ttl
  }

  predicate Denies(store: map<string, Record>, attempt: Attempt)
  {
    && attempt.id in store && store[attempt.id].confirmation
    && (!Removes(store, attempt) || (attempt.approved && !DigestsAgree(store[attempt.id], attempt)))
  }

  /** Exactly when a consume grants, denies, answers nothing and removes, and what it grants. */
  lemma ConsumptionAnswers(store: map<string, Record>, attempt: Attempt, now: Time)
    ensures var (store', outcome) := Consumption(store, attempt, now);
            && (outcome.Granted? <==> Confirms(store, attempt, now))
            && (outcome.PermissionError? <==> Denies(store, attempt))
            && store' == (if Removes(store, attempt) then store - {attempt.id} else store)
    ensures Confirms(store, attempt, now) ==>
              var record, grant := store[attempt.id], Consumption(store, attempt, now).1.grant;
              && grant.id == attempt.id && grant.toolId == record.toolId && grant.params == record.params
              && grant.session == record.session && grant.context == record.context && grant.userId == attempt.userId
              && grant.riskLevel == record.riskLevel && grant.planId == record.planId
              && grant.paramsHash == record.paramsHash && grant.identityHash == record.identityHash
  {
  }

  /** What a request stores. */
  lemma RequestedRecord(caller: Caller, asked: Asked, now: Time, ttl: Time)
    ensures var record := NewRecord(caller, asked, now, ttl);
            && record.confirmation && record.toolId == asked.toolId && record.params == asked.params
            && record.reason == asked.reason && record.riskLevel == asked.riskLevel && record.planId == asked.planId
            && record.userId == caller.userId && record.context == caller.context
            && record.createdAt == now && record.ttl == ttl
            && record.paramsHash == ParamsHash(asked.params)
            && record.identityHash.userId == caller.userId
            && record.identityHash.session == (match caller.session case Absent => Value("") case session => session)
            && record.session == match caller.session
                                 case Value(s) => if s != "" then s else caller.contextSession
                                 case _ => caller.contextSession
  {
  }

  class PendingActions {
    var pending: map<string, Record>
    const limit: nat

    constructor (limit: nat)
      ensures pending == map[] && this.limit == limit
    {
      pending := map[];
      this.limit := limit;
    }

    method Store(id: string, record: Record) returns (stored: bool)
      modifies this
      ensures stored == (|old(pending)| < limit)
      ensures pending == if stored then old(pending)[id := record] else old(pending)
    {
      if |pending| >= limit {
        return false;
      }
      pending := pending[id := record];
      stored := true;
    }

    method ConsumePending(id: string, userId: string) returns (taken: Taken)
      modifies this
      ensures (pending, taken) == Take(old(pending), id, userId)
    {
      if id !in pending {
        return Missing;
      }
      var record := pending[id];
      if userId != "" && record.userId != userId {
        return WrongUser;
      }
      pending := pending - {id};
      taken := Took(record);
    }
  }

  class ConfirmationDesk {
    const memory: PendingActions
    const ttl: Time

    constructor (memory: PendingActions, ttl: Time)
      ensures this.memory == memory && this.ttl == ttl
    {
      this.memory := memory;
      this.ttl := ttl;
    }

    /** `id` is the fresh uuid. */
    method Request(id: string, caller: Caller, asked: Asked, now: Time) returns (refusal: Option<Refusal>)
      modifies memory
      ensures refusal == if caller.userId == "" then Some(ValueError)
                         else if |old(memory.pending)| >= memory.limit then Some(RuntimeError) else None
      ensures memory.pending ==
        if refusal.None? then old(memory.pending)[id := NewRecord(caller, asked, now, ttl)]
        else old(memory.pending)
    {
      if caller.userId == "" {
        return Some(ValueError);
      }
      var session := caller.contextSession;
      var hashed := caller.session;
      match caller.session {
        case Value(s) => if s != "" { session := s; }
        case Absent => hashed := Value("");
        case Null =>
      }
      var stored := memory.Store(id, Record(true, asked.toolId, asked.params, asked.reason, caller.userId, session,
                                    caller.context, now, ttl, asked.riskLevel, asked.planId,
                                    ParamsHash(asked.params), IdentityHash(caller.userId, hashed)));
      refusal := if stored then None else Some(RuntimeError);
    }

    /** A read that may answer early, then the atomic removal and the checks on the copy. */
    method Consume(attempt: Attempt, now: Time) returns (outcome: Outcome)
      modifies memory
      ensures (memory.pending, outcome) == Consumption(old(memory.pending), attempt, now)
      ensures outcome.Granted? <==> Confirms(old(memory.pending), attempt, now)
      ensures outcome.PermissionError? <==> Denies(old(memory.pending), attempt)
      ensures memory.pending ==
        if Removes(old(memory.pending), attempt) then old(memory.pending) - {attempt.id} else old(memory.pending)
    {
      if attempt.id !in memory.pending || !memory.pending[attempt.id].confirmation {
        return Nothing;
      }
      var taken := memory.ConsumePending(attempt.id, attempt.userId);
      match taken {
        case Missing => return Nothing;
        case WrongUser => return PermissionError;
        case Took(record) =>
          if attempt.approved {
            if ParamsHash(record.params) != record.paramsHash {
              return PermissionError;
            }
            var session := match attempt.session case Some(s) => s case None => record.session;
            if record.identityHash != IdentityHash(attempt.userId, Value(session)) {
              return PermissionError;
            }
          }
          if now - record.createdAt > record.ttl || !attempt.approved {
            return Nothing;
          }
          return Granted(GrantOf(attempt.id, record, attempt.userId));
      }
    }
  }

  // ------------------------------------------------- who can consume a request

  /** Does the session an attempt effectively shows equal the one hashed at request time? */
  predicate SessionAgrees(caller: Caller, shown: Option<string>)
  {
    match caller.session
    case Null => false
    case Absent => (if shown.None? then caller.contextSession else shown.value) == ""
    case Value(s) => if shown.None? then s != "" || caller.contextSession == "" else shown.value == s
  }

  /** An approval of a fresh request yields its grant exactly for the requesting user,
      within the time to live, under an agreeing session. */
  lemma ConsumableIff(store: map<string, Record>, id: string, caller: Caller, asked: Asked, made: Time, ttl: Time,
                      attempt: Attempt, now: Time)
    requires caller.userId != "" && attempt.id == id
    ensures var record := NewRecord(caller, asked, made, ttl);
            var (_, outcome) := Consumption(store[id := record], attempt, now);
            outcome.Granted? <==>
              attempt.approved && attempt.userId == caller.userId && now - made <= ttl
              && SessionAgrees(caller, attempt.session)
  {
  }

  /** An identity with a non-empty session id can confirm its own request, naming the session or not. */
  lemma OwnSessionConsumes(store: map<string, Record>, id: string, caller: Caller, asked: Asked, made: Time, ttl: Time,
                           named: bool, now: Time)
    requires caller.userId != "" && caller.session.Value? && caller.session.session != "" && now - made <= ttl
    ensures var record := NewRecord(caller, asked, made, ttl);
            var shown := if named then Some(caller.session.session) else None;
            Consumption(store[id := record], Attempt(id, caller.userId, true, shown), now)
            == (store - {id}, Granted(GrantOf(id, record, caller.userId)))
    ensures var grant := GrantOf(id, NewRecord(caller, asked, made, ttl), caller.userId);
            grant.params == asked.params && grant.session == caller.session.session && grant.context == caller.context
  {
    var record := NewRecord(caller, asked, made, ttl);
    assert store[id := record] - {id} == store - {id};
  }

  // ------------------------------------------------------------------- all runs

  datatype Entry = Entry(attempt: Attempt, at: Time, outcome: Outcome)

  /** `issued` remembers every record as it was requested; nothing reads it. */
  datatype Config = Config(store: map<string, Record>, issued: map<string, Record>,
                           waiting: map<nat, Attempt>, log: seq<Entry>)

  /** Requests under fresh ids, the two halves of a consume, and changes to a stored
      record behind the broker's back. */
  datatype Event =
    | Requested(id: string, record: Record)
    | Peeks(worker: nat, attempt: Attempt)
    | Takes(worker: nat, at: Time)
    | Altered(id: string, params: string, session: string)

  predicate Fresh(record: Record)
  {
    record.userId != "" && record.paramsHash == ParamsHash(record.params) && record.identityHash.userId == record.userId
  }

  function Apply(c: Config, e: Event): Config
  {
    match e
    case Requested(id, record) =>
      if id in c.issued || !Fresh(record) then c
      else c.(store := c.store[id := record], issued := c.issued[id := record])
    case Peeks(worker, attempt) =>
      if worker in c.waiting then c
      else if !Visible(c.store, attempt.id) then c
      else c.(waiting := c.waiting[worker := attempt])
    case Takes(worker, at) =>
      if worker !in c.waiting then c
      else
        var attempt := c.waiting[worker];
        var (store', outcome) := Finish(c.store, attempt, at);
        c.(store := store', waiting := c.waiting - {worker}, log := c.log + [Entry(attempt, at, outcome)])
    case Altered(id, params, session) =>
      if id !in c.store then c
      else c.(store := c.store[id := c.store[id].(params := params, session := session)])
  }

  function Run(events: seq<Event>): Config
  {
    if events == [] then Config(map[], map[], map[], []) else Apply(Run(events[..|events| - 1]), events[|events| - 1])
  }

  /** A granted entry carries what was requested, to the requester, in time. */
  predicate Honest(c: Config, entry: Entry)
  {
    entry.outcome.Granted? ==>
      && var grant := entry.outcome.grant;
      && grant.id in c.issued && grant.id == entry.attempt.id && grant.id !in c.store
      && var record := c.issued[grant.id];
      && record.confirmation && entry.attempt.approved
      && grant.params == record.params && grant.toolId == record.toolId
      && grant.riskLevel == record.riskLevel && grant.planId == record.planId && grant.context == record.context
      && grant.paramsHash == ParamsHash(record.params)
      && grant.userId == entry.attempt.userId == record.userId
      && entry.at - record.createdAt <= record.ttl
      && (entry.attempt.session.Some? ==> record.identityHash.session == Value(entry.attempt.session.value))
  }

  predicate Inv(c: Config)
  {
    && (forall id :: id in c.issued ==> Fresh(c.issued[id]))
    && (forall id :: id in c.store ==>
          id in c.issued && c.store[id] == c.issued[id].(params := c.store[id].params, session := c.store[id].session))
    && (forall i :: 0 <= i < |c.log| ==> Honest(c, c.log[i]))
    && (forall i, j :: 0 <= i < j < |c.log| && c.log[i].outcome.Granted? && c.log[j].outcome.Granted? ==>
          c.log[i].outcome.grant.id != c.log[j].outcome.grant.id)
  }

  lemma FinishIsHonest(c: Config, worker: nat, at: Time)
    requires Inv(c) && worker in c.waiting
    ensures var c' := Apply(c, Takes(worker, at)); Honest(c', c'.log[|c.log|])
    ensures var outcome := Finish(c.store, c.waiting[worker], at).1;
            outcome.Granted? ==> outcome.grant.id in c.store
  {
    var attempt := c.waiting[worker];
    if attempt.id in c.store { assert Fresh(c.issued[attempt.id]); }
  }

  /** Entries stay honest while records are only added under fresh ids or removed. */
  lemma HonestyIsStable(c: Config, c': Config, entry: Entry)
    requires Honest(c, entry)
    requires forall id :: id in c.issued ==> id in c'.issued && c'.issued[id] == c.issued[id]
    requires forall id :: id in c.issued && id !in c.store ==> id !in c'.store
    ensures Honest(c', entry)
  {
  }

  lemma TakesKeepsInv(c: Config, worker: nat, at: Time)
    requires Inv(c) && worker in c.waiting
    ensures Inv(Apply(c, Takes(worker, at)))
  {
    var c' := Apply(c, Takes(worker, at));
    FinishIsHonest(c, worker, at);
    forall i | 0 <= i < |c'.log| ensures Honest(c', c'.log[i]) {
      if i < |c.log| { HonestyIsStable(c, c', c.log[i]); }
    }
    forall i, j | 0 <= i < j < |c'.log| && c'.log[i].outcome.Granted? && c'.log[j].outcome.Granted?
      ensures c'.log[i].outcome.grant.id != c'.log[j].outcome.grant.id
    {
      assert Honest(c, c.log[i]);
    }
  }

  lemma ApplyKeepsInv(c: Config, e: Event)
    requires Inv(c)
    ensures Inv(Apply(c, e))
  {
    if e.Takes? && e.worker in c.waiting {
      TakesKeepsInv(c, e.worker, e.at);
    } else {
      forall i | 0 <= i < |c.log| ensures Honest(Apply(c, e), c.log[i]) {
        HonestyIsStable(c, Apply(c, e), c.log[i]);
      }
    }
  }

  lemma {:induction false} RunKeepsInv(events: seq<Event>)
    ensures Inv(Run(events))
  {
    if events != [] {
      RunKeepsInv(events[..|events| - 1]);
      ApplyKeepsInv(Run(events[..|events| - 1]), events[|events| - 1]);
    }
  }

  /** Over any interleaving, an action id yields at most one grant, and every grant is honest. */
  lemma {:induction false} GrantsAreSingleUse(events: seq<Event>)
    ensures var c := Run(events);
            && (forall i :: 0 <= i < |c.log| ==> Honest(c, c.log[i]))
            && (forall i, j :: 0 <= i < j < |c.log| && c.log[i].outcome.Granted? && c.log[j].outcome.Granted? ==>
                  c.log[i].outcome.grant.id != c.log[j].outcome.grant.id)
  {
    RunKeepsInv(events);
  }

  // ------------------------------------------------------------- grants do come out

  predicate TakesBy(e: Event, worker: nat) { e.Takes? && e.worker == worker }

  lemma {:induction false} WaitsUntilTaken(events: seq<Event>, later: seq<Event>, worker: nat)
    requires worker in Run(events).waiting && forall e :: e in later ==> !TakesBy(e, worker)
    ensures worker in Run(events + later).waiting && Run(events + later).waiting[worker] == Run(events).waiting[worker]
  {
    if later == [] {
      assert events + later == events;
    } else {
      var last := later[|later| - 1];
      assert last in later && !TakesBy(last, worker) && (events + later)[|events + later| - 1] == last;
      WaitsUntilTaken(events, later[..|later| - 1], worker);
      assert (events + later)[..|events + later| - 1] == events + later[..|later| - 1];
    }
  }

  /** In every run: an attempt that found the confirmation, and whose removal finds it still
      stored as requested, owned, agreeing and in time, is logged with its grant, whatever
      else ran between the two. */
  lemma {:induction false} AgreeingAttemptIsGranted(events: seq<Event>, between: seq<Event>, worker: nat, attempt: Attempt, at: Time)
    requires worker !in Run(events).waiting && forall e :: e in between ==> !TakesBy(e, worker)
    requires attempt.id in Run(events).store && Run(events).store[attempt.id].confirmation
    requires Confirms(Run(events + [Peeks(worker, attempt)] + between).store, attempt, at)
    ensures var c := Run(events + [Peeks(worker, attempt)] + between);
            var log := Run(events + [Peeks(worker, attempt)] + between + [Takes(worker, at)]).log;
            && |log| == |c.log| + 1 && log[|c.log|].attempt == attempt && log[|c.log|].at == at
            && log[|c.log|].outcome == Granted(GrantOf(attempt.id, c.store[attempt.id], attempt.userId))
  {
    var peeked := events + [Peeks(worker, attempt)];
    assert peeked[..|peeked| - 1] == events;
    WaitsUntilTaken(peeked, between, worker);
    var all := peeked + between + [Takes(worker, at)];
    assert all[..|all| - 1] == peeked + between;
    ConsumptionAnswers(Run(peeked + between).store, attempt, at);
  }
}
