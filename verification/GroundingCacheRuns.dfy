/** The cache over whole runs on a clock that does not go back. */
module GroundingCacheRuns {
  import opened Wrappers
  import opened GroundingCaches

  datatype Op =
    | DoGet(key: string)
    | DoSet(key: string, value: string, ttl: Time)
    | DoInvalidate(key: string)
    | DoCleanup
    | DoClear

  datatype Event = Event(op: Op, at: Time)

  datatype Answer = Found(data: Option<string>) | Present(present: bool) | Removed(count: nat) | Silence

  function Step(c: Cache, e: Event, maxSize: nat): (Cache, Answer)
  {
    match e.op
    case DoGet(key) => (Get(c, key, e.at).0, Found(Get(c, key, e.at).1))
    case DoSet(key, value, ttl) => (Set(c, key, value, ttl, e.at, maxSize), Silence)
    case DoInvalidate(key) => (Invalidate(c, key), Present(key in c.entries))
    case DoCleanup => (Cleanup(c, e.at), Removed(|c.entries.Keys - Unexpired(c.entries, e.at).Keys|))
    case DoClear => (Cache([], map[]), Removed(|c.entries.Keys|))
  }

  // ----------------------------------------------- what is in the cache, and in what order

  /** Beside the cache: the last set of every key, and the event number at which it was last
      touched, that is inserted while absent or hit. */
  datatype History = History(cache: Cache, lastSet: map<string, Entry>, touched: map<string, nat>, count: nat)

  predicate Touches(c: Cache, e: Event, maxSize: nat, key: string)
  {
    match e.op
    case DoGet(k) => k == key && Get(c, k, e.at).1.Some?
    case DoSet(k, _, _) => k == key && key !in (if |c.entries| >= maxSize then EvictOldest(c) else c).entries
    case _ => false
  }

  function Extend(h: History, e: Event, maxSize: nat): History
  {
    var key := match e.op case DoGet(k) => k case DoSet(k, _, _) => k case DoInvalidate(k) => k case _ => "";
    History(Step(h.cache, e, maxSize).0,
            if e.op.DoSet? then h.lastSet[e.op.key := Entry(e.op.value, e.at, e.op.ttl, 0)] else h.lastSet,
            if Touches(h.cache, e, maxSize, key) then h.touched[key := h.count] else h.touched,
            h.count + 1)
  }

  function Past(events: seq<Event>, maxSize: nat): History
  {
    if events == [] then History(Cache([], map[]), map[], map[], 0)
    else Extend(Past(events[..|events| - 1], maxSize), events[|events| - 1], maxSize)
  }

  predicate SameSetting(e: Entry, written: Entry) { e == written.(accessCount := e.accessCount) }

  /** The keys stand in the order of their last touch, all touched before `bound`. */
  predicate InTouchOrder(order: seq<string>, touched: map<string, nat>, bound: nat)
  {
    order == []
    || var last := order[|order| - 1];
       last in touched && touched[last] < bound && InTouchOrder(order[..|order| - 1], touched, touched[last])
  }

  lemma {:induction false} KeepInOrder(order: seq<string>, keys: set<string>, touched: map<string, nat>, bound: nat, later: nat)
    requires InTouchOrder(order, touched, bound) && bound <= later
    ensures InTouchOrder(Keep(order, keys), touched, later)
  {
    if order != [] {
      var front, last := order[..|order| - 1], order[|order| - 1];
      if last in keys {
        KeepInOrder(front, keys, touched, touched[last], touched[last]);
        assert Keep(order, keys)[..|Keep(order, keys)| - 1] == Keep(front, keys);
      } else {
        KeepInOrder(front, keys, touched, touched[last], later);
        assert Keep(order, keys) == Keep(front, keys);
      }
    }
  }

  lemma {:induction false} OtherTouch(order: seq<string>, key: string, touched: map<string, nat>, bound: nat, now: nat)
    requires InTouchOrder(order, touched, bound) && key !in order
    ensures InTouchOrder(order, touched[key := now], bound)
  {
    if order != [] {
      var front, last := order[..|order| - 1], order[|order| - 1];
      assert order == front + [last];
      OtherTouch(front, key, touched, touched[last], now);
    }
  }

  /** A key touched now goes to the end. */
  lemma AppendInOrder(order: seq<string>, key: string, touched: map<string, nat>, bound: nat)
    requires InTouchOrder(order, touched, bound) && key !in order
    ensures InTouchOrder(order + [key], touched[key := bound], bound + 1)
  {
    OtherTouch(order, key, touched, bound, bound);
    assert (order + [key])[..|order|] == order;
  }

  // -------------------------------------------------- one event, one property at a time

  lemma StepWellFormed(c: Cache, e: Event, maxSize: nat)
    requires WellFormed(c)
    ensures WellFormed(Step(c, e, maxSize).0)
  {
    match e.op
    case DoGet(key) => GetWellFormed(c, key, e.at);
    case DoSet(key, value, ttl) => SetWellFormed(c, key, value, ttl, e.at, maxSize);
    case DoInvalidate(key) => DeleteWellFormed(c, key);
    case DoCleanup => CleanupWellFormed(c, e.at);
    case DoClear =>
  }

  lemma SubsetSize(a: set<string>, b: set<string>)
    requires a <= b
    ensures |a| <= |b|
  {
    assert b == a + (b - a);
  }

  lemma SetBounded(c: Cache, key: string, value: string, ttl: Time, at: Time, maxSize: nat)
    requires WellFormed(c) && |c.entries.Keys| <= maxSize && maxSize > 0
    ensures |Set(c, key, value, ttl, at, maxSize).entries.Keys| <= maxSize
  {
    var e := Entry(value, at, ttl, 0);
    assert |c.entries| == |c.entries.Keys|;
    if |c.entries| >= maxSize {
      assert c.entries.Keys != {};
      var k :| k in c.entries.Keys;
      assert k in c.order;
      assert c.order[0] in c.entries.Keys;
      DeleteWellFormed(c, c.order[0]);
      PutWellFormed(EvictOldest(c), key, e);
    } else {
      PutWellFormed(c, key, e);
    }
  }

  lemma StepBounded(c: Cache, e: Event, maxSize: nat)
    requires WellFormed(c) && |c.entries.Keys| <= maxSize && maxSize > 0
    ensures |Step(c, e, maxSize).0.entries.Keys| <= maxSize
  {
    if e.op.DoSet? {
      SetBounded(c, e.op.key, e.op.value, e.op.ttl, e.at, maxSize);
    } else {
      var after := Step(c, e, maxSize).0.entries.Keys;
      assert after <= c.entries.Keys;
      SubsetSize(after, c.entries.Keys);
    }
  }

  predicate Recorded(c: Cache, lastSet: map<string, Entry>)
  {
    forall k :: k in c.entries ==> k in lastSet && SameSetting(c.entries[k], lastSet[k])
  }

  lemma StepRecorded(h: History, e: Event, maxSize: nat)
    requires Recorded(h.cache, h.lastSet)
    ensures Recorded(Extend(h, e, maxSize).cache, Extend(h, e, maxSize).lastSet)
  {
  }

  lemma {:induction false} GetOrdered(c: Cache, key: string, at: Time, touched: map<string, nat>, count: nat)
    requires WellFormed(c) && InTouchOrder(c.order, touched, count)
    ensures var (c', answer) := Get(c, key, at);
            InTouchOrder(c'.order, if answer.Some? then touched[key := count] else touched, count + 1)
  {
    var keys := c.entries.Keys - {key};
    KeepKeys(c.order, keys);
    KeepInOrder(c.order, keys, touched, count, count);
    KeepInOrder(c.order, keys, touched, count, count + 1);
    AppendInOrder(Keep(c.order, keys), key, touched, count);
  }

  lemma {:induction false} SetOrdered(c: Cache, key: string, e: Entry, touched: map<string, nat>, count: nat, maxSize: nat)
    requires WellFormed(c) && InTouchOrder(c.order, touched, count)
    ensures var c' := if |c.entries| >= maxSize then EvictOldest(c) else c;
            InTouchOrder(Put(c', key, e).order, if key in c'.entries then touched else touched[key := count], count + 1)
  {
    var c' := if |c.entries| >= maxSize then EvictOldest(c) else c;
    if c' != c {
      DeleteWellFormed(c, c.order[0]);
      KeepInOrder(c.order, c.entries.Keys - {c.order[0]}, touched, count, count);
    }
    if key !in c'.entries { AppendInOrder(c'.order, key, touched, count); }
  }

  predicate Ordered(h: History) { InTouchOrder(h.cache.order, h.touched, h.count) }

  lemma GetStepOrdered(h: History, e: Event, maxSize: nat)
    requires WellFormed(h.cache) && Ordered(h) && e.op.DoGet?
    ensures Ordered(Extend(h, e, maxSize))
  {
    GetOrdered(h.cache, e.op.key, e.at, h.touched, h.count);
  }

  lemma SetStepOrdered(h: History, e: Event, maxSize: nat)
    requires WellFormed(h.cache) && Ordered(h) && e.op.DoSet?
    ensures Ordered(Extend(h, e, maxSize))
  {
    SetOrdered(h.cache, e.op.key, Entry(e.op.value, e.at, e.op.ttl, 0), h.touched, h.count, maxSize);
  }

  lemma RemovalStepOrdered(h: History, e: Event, maxSize: nat)
    requires WellFormed(h.cache) && Ordered(h) && !e.op.DoGet? && !e.op.DoSet?
    ensures Ordered(Extend(h, e, maxSize))
  {
    var c := h.cache;
    match e.op
    case DoInvalidate(key) => KeepInOrder(c.order, c.entries.Keys - {key}, h.touched, h.count, h.count + 1);
    case DoCleanup => KeepInOrder(c.order, Unexpired(c.entries, e.at).Keys, h.touched, h.count, h.count + 1);
    case DoClear =>
  }

  lemma StepOrdered(h: History, e: Event, maxSize: nat)
    requires WellFormed(h.cache) && Ordered(h)
    ensures Ordered(Extend(h, e, maxSize))
  {
    if e.op.DoGet? { GetStepOrdered(h, e, maxSize); }
    else if e.op.DoSet? { SetStepOrdered(h, e, maxSize); }
    else { RemovalStepOrdered(h, e, maxSize); }
  }

  ghost predicate Inv(h: History, maxSize: nat)
  {
    WellFormed(h.cache) && |h.cache.entries.Keys| <= maxSize && Recorded(h.cache, h.lastSet)
    && Ordered(h)
  }

  lemma {:induction false} PastKeepsInv(events: seq<Event>, maxSize: nat)
    requires maxSize > 0
    ensures Inv(Past(events, maxSize), maxSize)
  {
    if events != [] {
      var h, e := Past(events[..|events| - 1], maxSize), events[|events| - 1];
      PastKeepsInv(events[..|events| - 1], maxSize);
      StepWellFormed(h.cache, e, maxSize);
      StepBounded(h.cache, e, maxSize);
      StepRecorded(h, e, maxSize);
      StepOrdered(h, e, maxSize);
    }
  }

  lemma {:induction false} TouchOrderPairs(order: seq<string>, touched: map<string, nat>, bound: nat)
    requires InTouchOrder(order, touched, bound)
    ensures forall k :: k in order ==> k in touched && touched[k] < bound
    ensures forall i, j :: 0 <= i < j < |order| ==> touched[order[i]] < touched[order[j]]
  {
    if order != [] {
      var front, last := order[..|order| - 1], order[|order| - 1];
      assert order == front + [last];
      TouchOrderPairs(front, touched, touched[last]);
      assert forall i :: 0 <= i < |front| ==> order[i] in front;
    }
  }

  /** In every run: at most `maxSize` entries, and the keys in order of last touch. */
  lemma {:induction false} BoundedAndOrdered(events: seq<Event>, maxSize: nat)
    requires maxSize > 0
    ensures var h := Past(events, maxSize);
            && |h.cache.entries| <= maxSize
            && (forall k :: k in h.cache.order <==> k in h.cache.entries)
            && (forall k :: k in h.cache.order ==> k in h.touched)
            && forall i, j :: 0 <= i < j < |h.cache.order| ==> h.touched[h.cache.order[i]] < h.touched[h.cache.order[j]]
  {
    PastKeepsInv(events, maxSize);
    var h := Past(events, maxSize);
    TouchOrderPairs(h.cache.order, h.touched, h.count);
  }

  /** A hit returns the value last set for the key, not older than its time to live. */
  lemma {:induction false} HitsReturnLastSet(events: seq<Event>, key: string, now: Time, maxSize: nat)
    requires maxSize > 0 && Get(Past(events, maxSize).cache, key, now).1.Some?
    ensures var h := Past(events, maxSize);
            key in h.lastSet && Get(h.cache, key, now).1 == Some(h.lastSet[key].data)
            && now - h.lastSet[key].stamp <= h.lastSet[key].ttl
  {
    PastKeepsInv(events, maxSize);
    var h := Past(events, maxSize);
    assert SameSetting(h.cache.entries[key], h.lastSet[key]);
  }

  /** A set on a full cache evicts the key whose last touch is oldest. */
  lemma {:induction false} EvictsLeastRecentlyTouched(events: seq<Event>, maxSize: nat, key: string)
    requires maxSize > 0 && |Past(events, maxSize).cache.entries| >= maxSize
    requires key in Past(events, maxSize).cache.entries
    ensures var h := Past(events, maxSize);
            && h.cache.order != [] && h.cache.order[0] !in EvictOldest(h.cache).entries
            && h.cache.order[0] in h.touched && key in h.touched
            && (key == h.cache.order[0] || h.touched[h.cache.order[0]] < h.touched[key])
  {
    PastKeepsInv(events, maxSize);
    var h := Past(events, maxSize);
    TouchOrderPairs(h.cache.order, h.touched, h.count);
    assert key in h.cache.order;
    var i :| 0 <= i < |h.cache.order| && h.cache.order[i] == key;
    assert h.cache.order[0] in h.cache.order;
  }

  // ------------------------------------------------------------ exactly when a get hits

  /** The event removes what was set for the key at `stamp`: the key is invalidated, found or
      swept away after its time to live, evicted as the first in a full cache, or all is
      cleared. */
  predicate Drops(c: Cache, e: Event, key: string, stamp: Time, ttl: Time, maxSize: nat)
  {
    match e.op
    case DoGet(k) => k == key && e.at - stamp > ttl
    case DoSet(_, _, _) => |c.entries| >= maxSize && c.order != [] && c.order[0] == key
    case DoInvalidate(k) => k == key
    case DoCleanup => e.at - stamp > ttl
    case DoClear => true
  }

  predicate Sets(e: Event, key: string) { e.op.DoSet? && e.op.key == key }

  /** Event i set the key, and nothing since has set it anew or removed it. */
  predicate Held(events: seq<Event>, key: string, i: nat, maxSize: nat)
  {
    && i < |events| && Sets(events[i], key)
    && forall j :: i < j < |events| ==>
         !Sets(events[j], key)
         && !Drops(Past(events[..j], maxSize).cache, events[j], key, events[i].at, events[i].op.ttl, maxSize)
  }

  predicate HoldsSetting(entries: map<string, Entry>, key: string, e: Event)
    requires e.op.DoSet?
  {
    key in entries && entries[key].data == e.op.value && entries[key].stamp == e.at && entries[key].ttl == e.op.ttl
  }

  lemma {:induction false} HeldOneMore(front: seq<Event>, last: Event, key: string, i: nat, maxSize: nat)
    requires i < |front|
    ensures Held(front + [last], key, i, maxSize)
            <==> Held(front, key, i, maxSize) && !Sets(last, key)
                 && !Drops(Past(front, maxSize).cache, last, key, front[i].at, front[i].op.ttl, maxSize)
  {
    var events := front + [last];
    assert events[..|front|] == front && events[|front|] == last;
    forall j | 0 <= j < |front| ensures events[..j] == front[..j] && events[j] == front[j] {}
  }

  lemma HeldNow(front: seq<Event>, last: Event, key: string, maxSize: nat)
    ensures Held(front + [last], key, |front|, maxSize) <==> Sets(last, key)
  {
  }

  /** One event keeps an entry unless it sets the key anew or drops it. */
  lemma StepHolds(c: Cache, e: Event, key: string, written: Event, maxSize: nat)
    requires WellFormed(c) && Sets(written, key) && HoldsSetting(c.entries, key, written) && !Sets(e, key)
    ensures HoldsSetting(Step(c, e, maxSize).0.entries, key, written)
            <==> !Drops(c, e, key, written.at, written.op.ttl, maxSize)
    ensures key in Step(c, e, maxSize).0.entries ==> HoldsSetting(Step(c, e, maxSize).0.entries, key, written)
  {
  }

  lemma StepSets(c: Cache, e: Event, key: string, maxSize: nat)
    ensures Sets(e, key) ==> HoldsSetting(Step(c, e, maxSize).0.entries, key, e)
    ensures !Sets(e, key) && key in Step(c, e, maxSize).0.entries ==> key in c.entries
  {
  }

  lemma {:induction false} EntriesAreHeld(events: seq<Event>, key: string, maxSize: nat)
    requires maxSize > 0
    ensures key in Past(events, maxSize).cache.entries ==> exists i: nat :: Held(events, key, i, maxSize)
    ensures forall i: nat :: Held(events, key, i, maxSize) ==> HoldsSetting(Past(events, maxSize).cache.entries, key, events[i])
  {
    if events != [] {
      var front, last := events[..|events| - 1], events[|events| - 1];
      var c := Past(front, maxSize).cache;
      assert events == front + [last];
      EntriesAreHeld(front, key, maxSize);
      PastKeepsInv(front, maxSize);
      StepSets(c, last, key, maxSize);
      HeldNow(front, last, key, maxSize);
      forall i: nat | i < |front| && Held(front, key, i, maxSize)
        ensures !Sets(last, key) && key in Past(events, maxSize).cache.entries ==> Held(events, key, i, maxSize)
        ensures Held(events, key, i, maxSize) ==> HoldsSetting(Past(events, maxSize).cache.entries, key, events[i])
      {
        HeldOneMore(front, last, key, i, maxSize);
        if !Sets(last, key) { StepHolds(c, last, key, front[i], maxSize); }
      }
      forall i: nat | Held(events, key, i, maxSize)
        ensures HoldsSetting(Past(events, maxSize).cache.entries, key, events[i])
      {
        if i < |front| { HeldOneMore(front, last, key, i, maxSize); }
      }
    }
  }

  /** In every run a get answers a value exactly if an earlier event set it for the key within
      its time to live, and no event since has set the key anew, invalidated, evicted or
      cleared it, or come upon it after that time. */
  lemma {:induction false} HitIff(events: seq<Event>, key: string, now: Time, maxSize: nat, value: string)
    requires maxSize > 0
    ensures Get(Past(events, maxSize).cache, key, now).1 == Some(value)
            <==> exists i: nat :: Held(events, key, i, maxSize) && events[i].op.value == value && now - events[i].at <= events[i].op.ttl
  {
    EntriesAreHeld(events, key, maxSize);
    var entries := Past(events, maxSize).cache.entries;
    if key in entries {
      var i: nat :| Held(events, key, i, maxSize);
      assert HoldsSetting(entries, key, events[i]);
    }
    forall i: nat | Held(events, key, i, maxSize) ensures HoldsSetting(entries, key, events[i]) {}
  }

  // --------------------------------------------------------- cleaning up is invisible

  /** `d` lacks only entries of `c` that were expired at `since`. */
  ghost predicate LacksExpired(c: Cache, d: Cache, since: Time)
  {
    WellFormed(c) && WellFormed(d) && EntriesLack(c.entries, d.entries, since)
  }

  predicate EntriesLack(c: map<string, Entry>, d: map<string, Entry>, since: Time)
  {
    && (forall k :: k in d ==> k in c && d[k] == c[k])
    && (forall k :: k in c && k !in d ==> Expired(c[k], since))
  }

  lemma LackAges(c: map<string, Entry>, d: map<string, Entry>, since: Time, now: Time, key: string, e: Entry)
    requires EntriesLack(c, d, since) && since <= now
    ensures EntriesLack(c, d, now)
    ensures EntriesLack(Unexpired(c, now), Unexpired(d, now), now)
    ensures EntriesLack(c - {key}, d - {key}, now) && EntriesLack(c[key := e], d[key := e], now)
    ensures key in c && !Expired(c[key], now) ==> key in d
  {
  }

  predicate Rising(events: seq<Event>, from: Time)
  {
    (forall i :: 0 <= i < |events| ==> from <= events[i].at)
    && forall i, j :: 0 <= i < j < |events| ==> events[i].at <= events[j].at
  }

  function Replayed(c: Cache, events: seq<Event>, maxSize: nat): Cache
  {
    if events == [] then c else Step(Replayed(c, events[..|events| - 1], maxSize), events[|events| - 1], maxSize).0
  }

  function AnswerAt(c: Cache, events: seq<Event>, i: nat, maxSize: nat): Answer
    requires i < |events|
  {
    Step(Replayed(c, events[..i], maxSize), events[i], maxSize).1
  }

  /** No set in the run finds the cache full, so nothing is evicted. */
  predicate NeverFull(c: Cache, events: seq<Event>, maxSize: nat)
  {
    forall i :: 0 <= i < |events| && events[i].op.DoSet? ==> |Replayed(c, events[..i], maxSize).entries| < maxSize
  }

  predicate Disposes(op: Op, key: string)
  {
    match op
    case DoGet(k) => k == key
    case DoSet(k, _, _) => k == key
    case DoInvalidate(k) => k == key
    case _ => true
  }

  /** A key whose entry a cleanup at `now` would have removed and no later call did. */
  predicate Lingers(c: Cache, now: Time, events: seq<Event>, key: string)
  {
    key in c.entries && Expired(c.entries[key], now) && forall e :: e in events ==> !Disposes(e.op, key)
  }

  lemma StepKeepsLack(c: Cache, d: Cache, e: Event, since: Time, maxSize: nat)
    requires LacksExpired(c, d, since) && since <= e.at
    requires e.op.DoSet? ==> |c.entries| < maxSize
    ensures LacksExpired(Step(c, e, maxSize).0, Step(d, e, maxSize).0, e.at)
    ensures e.op.DoGet? ==> Step(c, e, maxSize).1 == Step(d, e, maxSize).1
  {
    StepWellFormed(c, e, maxSize);
    StepWellFormed(d, e, maxSize);
    var key := match e.op case DoSet(k, _, _) => k case DoInvalidate(k) => k case _ => "";
    var put := if e.op.DoSet? then Entry(e.op.value, e.at, e.op.ttl, 0) else Entry("", 0, 0, 0);
    LackAges(c.entries, d.entries, since, e.at, key, put);
    match e.op
    case DoGet(key) => GetKeepsLack(c, d, key, e.at);
    case DoSet(_, _, _) => BothHaveRoom(c, d, maxSize);
    case DoInvalidate(key) => assert key !in d.entries ==> d.entries - {key} == d.entries;
    case _ =>
  }

  lemma BothHaveRoom(c: Cache, d: Cache, maxSize: nat)
    requires d.entries.Keys <= c.entries.Keys && |c.entries| < maxSize
    ensures |d.entries| < maxSize
  {
    SubsetSize(d.entries.Keys, c.entries.Keys);
    assert |d.entries| == |d.entries.Keys| && |c.entries| == |c.entries.Keys|;
  }

  lemma GetKeepsLack(c: Cache, d: Cache, key: string, at: Time)
    requires EntriesLack(c.entries, d.entries, at)
    ensures EntriesLack(Get(c, key, at).0.entries, Get(d, key, at).0.entries, at)
    ensures Get(c, key, at).1 == Get(d, key, at).1
  {
  }

  predicate Lacked(c: Cache, d: Cache, key: string) { key in c.entries && key !in d.entries }

  lemma GetDisposes(c: Cache, d: Cache, k: string, at: Time, key: string)
    requires EntriesLack(c.entries, d.entries, at)
    ensures Lacked(Get(c, k, at).0, Get(d, k, at).0, key) <==> Lacked(c, d, key) && k != key
  {
  }

  lemma SetDisposes(c: Cache, d: Cache, k: string, e: Entry, key: string)
    ensures Lacked(Put(c, k, e), Put(d, k, e), key) <==> Lacked(c, d, key) && k != key
  {
  }

  lemma InvalidateDisposes(c: Cache, d: Cache, k: string, key: string)
    ensures Lacked(Invalidate(c, k), Invalidate(d, k), key) <==> Lacked(c, d, key) && k != key
  {
  }

  lemma CleanupDisposes(c: Cache, d: Cache, at: Time, key: string)
    requires EntriesLack(c.entries, d.entries, at)
    ensures !Lacked(Cleanup(c, at), Cleanup(d, at), key)
  {
  }

  /** One call disposes of the keys that it concerns, and of no other. */
  lemma StepDisposes(c: Cache, d: Cache, e: Event, since: Time, maxSize: nat, key: string)
    requires LacksExpired(c, d, since) && since <= e.at
    requires e.op.DoSet? ==> |c.entries| < maxSize
    ensures Lacked(Step(c, e, maxSize).0, Step(d, e, maxSize).0, key) <==> Lacked(c, d, key) && !Disposes(e.op, key)
  {
    LackAges(c.entries, d.entries, since, e.at, key, Entry("", 0, 0, 0));
    match e.op
    case DoGet(k) => GetDisposes(c, d, k, e.at, key);
    case DoSet(k, value, ttl) =>
      BothHaveRoom(c, d, maxSize);
      SetDisposes(c, d, k, Entry(value, e.at, ttl, 0), key);
    case DoInvalidate(k) => InvalidateDisposes(c, d, k, key);
    case DoCleanup => CleanupDisposes(c, d, e.at, key);
    case DoClear =>
  }

  ghost predicate LagIsLingering(c': Cache, d': Cache, c: Cache, now: Time, events: seq<Event>)
  {
    forall key :: Lacked(c', d', key) <==> Lingers(c, now, events, key)
  }

  lemma StepKeepsLag(c': Cache, d': Cache, e: Event, since: Time, maxSize: nat, c: Cache, now: Time, front: seq<Event>)
    requires LacksExpired(c', d', since) && since <= e.at && (e.op.DoSet? ==> |c'.entries| < maxSize)
    requires LagIsLingering(c', d', c, now, front)
    ensures LagIsLingering(Step(c', e, maxSize).0, Step(d', e, maxSize).0, c, now, front + [e])
  {
    forall key ensures Lacked(Step(c', e, maxSize).0, Step(d', e, maxSize).0, key) <==> Lingers(c, now, front + [e], key) {
      StepDisposes(c', d', e, since, maxSize, key);
      LingersOneMore(c, now, front, e, key);
    }
  }

  lemma CleanupLags(c: Cache, now: Time)
    requires WellFormed(c)
    ensures LacksExpired(c, Cleanup(c, now), now) && LagIsLingering(c, Cleanup(c, now), c, now, [])
  {
    CleanupWellFormed(c, now);
  }

  function Latest(events: seq<Event>, from: Time): Time { if events == [] then from else events[|events| - 1].at }

  lemma {:induction false} Prefix(c: Cache, now: Time, events: seq<Event>, i: nat, maxSize: nat)
    requires Rising(events, now) && NeverFull(c, events, maxSize) && i < |events|
    ensures Rising(events[..i], now) && NeverFull(c, events[..i], maxSize) && Latest(events[..i], now) <= events[i].at
    ensures events[i].op.DoSet? ==> |Replayed(c, events[..i], maxSize).entries| < maxSize
  {
    forall j | 0 <= j < i ensures events[..i][..j] == events[..j] {}
  }

  ghost predicate Lags(c: Cache, now: Time, events: seq<Event>, maxSize: nat)
  {
    var c', d' := Replayed(c, events, maxSize), Replayed(Cleanup(c, now), events, maxSize);
    LacksExpired(c', d', Latest(events, now)) && LagIsLingering(c', d', c, now, events)
  }

  lemma {:induction false} LagsOneMore(c: Cache, now: Time, front: seq<Event>, e: Event, maxSize: nat)
    requires Lags(c, now, front, maxSize) && Latest(front, now) <= e.at
    requires e.op.DoSet? ==> |Replayed(c, front, maxSize).entries| < maxSize
    ensures Lags(c, now, front + [e], maxSize)
  {
    var c', d' := Replayed(c, front, maxSize), Replayed(Cleanup(c, now), front, maxSize);
    assert (front + [e])[..|front|] == front;
    StepKeepsLack(c', d', e, Latest(front, now), maxSize);
    StepKeepsLag(c', d', e, Latest(front, now), maxSize, c, now, front);
  }

  /** The caches with and without the cleanup differ in the lingering keys alone. */
  lemma {:induction false} LackIsLingering(c: Cache, now: Time, events: seq<Event>, maxSize: nat)
    requires WellFormed(c) && Rising(events, now) && NeverFull(c, events, maxSize)
    ensures Lags(c, now, events, maxSize)
  {
    if events == [] {
      CleanupLags(c, now);
    } else {
      var front, e := events[..|events| - 1], events[|events| - 1];
      Prefix(c, now, events, |events| - 1, maxSize);
      LackIsLingering(c, now, front, maxSize);
      LagsOneMore(c, now, front, e, maxSize);
      assert events == front + [e];
    }
  }

  lemma LingersOneMore(c: Cache, now: Time, front: seq<Event>, e: Event, key: string)
    ensures Lingers(c, now, front + [e], key) <==> Lingers(c, now, front, key) && !Disposes(e.op, key)
  {
  }

  lemma CountsAgreeIff(c: set<string>, d: set<string>, kept: set<string>)
    requires d <= c && kept <= d
    ensures |c - kept| == |d - kept| <==> c == d
    ensures |c| == |d| <==> c == d
  {
    assert c == d + (c - d);
    assert c - kept == (d - kept) + (c - d);
  }

  ghost predicate ShowsCleanup(c: Cache, now: Time, events: seq<Event>, op: Op)
  {
    match op
    case DoInvalidate(key) => Lingers(c, now, events, key)
    case DoCleanup => exists key :: Lingers(c, now, events, key)
    case DoClear => exists key :: Lingers(c, now, events, key)
    case _ => false
  }

  /** Cleaning up, evictions aside, never changes what a later get returns.  A later
      invalidation answers differently exactly for a lingering key, a later cleanup or clear
      exactly when there is one. */
  lemma CleanupShowsIff(c: Cache, now: Time, events: seq<Event>, i: nat, maxSize: nat)
    requires WellFormed(c) && Rising(events, now) && NeverFull(c, events, maxSize) && i < |events|
    ensures AnswerAt(Cleanup(c, now), events, i, maxSize) != AnswerAt(c, events, i, maxSize)
            <==> ShowsCleanup(c, now, events[..i], events[i].op)
  {
    var before, e := events[..i], events[i];
    Prefix(c, now, events, i, maxSize);
    LackIsLingering(c, now, before, maxSize);
    var c', d' := Replayed(c, before, maxSize), Replayed(Cleanup(c, now), before, maxSize);
    LackAges(c'.entries, d'.entries, Latest(before, now), e.at, "", Entry("", 0, 0, 0));
    AnswersDifferIff(c', d', e, maxSize);
    assert forall key :: Lacked(c', d', key) <==> Lingers(c, now, before, key);
  }

  lemma AnswersDifferIff(c: Cache, d: Cache, e: Event, maxSize: nat)
    requires EntriesLack(c.entries, d.entries, e.at)
    ensures Step(d, e, maxSize).1 != Step(c, e, maxSize).1 <==>
              match e.op
              case DoInvalidate(key) => Lacked(c, d, key)
              case DoCleanup => exists key :: Lacked(c, d, key)
              case DoClear => exists key :: Lacked(c, d, key)
              case _ => false
  {
    GetKeepsLack(c, d, if e.op.DoGet? then e.op.key else "", e.at);
    assert Unexpired(c.entries, e.at).Keys == Unexpired(d.entries, e.at).Keys;
    CountsAgreeIff(c.entries.Keys, d.entries.Keys, Unexpired(d.entries, e.at).Keys);
    KeysDifferIff(c, d);
  }

  lemma KeysDifferIff(c: Cache, d: Cache)
    requires d.entries.Keys <= c.entries.Keys
    ensures c.entries.Keys != d.entries.Keys <==> exists key :: Lacked(c, d, key)
  {
    assert c.entries.Keys == d.entries.Keys + (c.entries.Keys - d.entries.Keys);
    if key :| key in c.entries.Keys - d.entries.Keys { assert Lacked(c, d, key); }
  }
}
