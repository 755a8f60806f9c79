/** The per-provider circuit breaker. */
module CircuitBreakers {
  import opened Wrappers

  type Time = int

  datatype State = Closed | Open | HalfOpen

  /** One provider as the breaker sees it. */
  datatype Provider = Provider(state: State, failures: nat, lastFailure: Option<Time>, probing: bool)

  const UNKNOWN := Provider(Closed, 0, None, false)

  datatype Settings = Settings(threshold: int, cooldown: Time)

  datatype Event = Succeeded(at: Time) | Failed(at: Time) | Asked(at: Time) | Forgotten

  // ------------------------------------------------------------- one provider's steps

  function Fail(p: Provider, s: Settings, now: Time): Provider
  {
    var opens := p.state == HalfOpen || p.failures + 1 >= s.threshold;
    Provider(if opens then Open else p.state, p.failures + 1, Some(now), p.probing && !opens)
  }

  function Ask(p: Provider, s: Settings, now: Time): (Provider, bool)
  {
    match p.state
    case Closed => (p, true)
    case Open =>
      if p.lastFailure.Some? && now - p.lastFailure.value >= s.cooldown then
        (p.(state := HalfOpen, probing := true), true)
      else (p, false)
    case HalfOpen => if p.probing then (p, false) else (p.(probing := true), true)
  }

  function Step(p: Provider, s: Settings, e: Event): Provider
  {
    match e
    case Succeeded(_) => p.(state := Closed, failures := 0, probing := false)
    case Failed(at) => Fail(p, s, at)
    case Asked(at) => Ask(p, s, at).0
    case Forgotten => UNKNOWN
  }

  function After(s: Settings, events: seq<Event>): Provider
  {
    if events == [] then UNKNOWN else Step(After(s, events[..|events| - 1]), s, events[|events| - 1])
  }

  // ------------------------------------------------------------------- the dictionaries

  class CircuitBreaker {
    const settings: Settings
    var failures: map<string, nat>
    var state: map<string, State>
    var lastFailureTime: map<string, Time>
    var lastSuccessTime: map<string, Time>
    var halfOpenProbeActive: map<string, bool>

    constructor (threshold: int, cooldown: Time)
      ensures settings == Settings(threshold, cooldown)
      ensures forall id :: View(id) == UNKNOWN
    {
      settings := Settings(threshold, cooldown);
      failures, state, lastFailureTime, lastSuccessTime, halfOpenProbeActive := map[], map[], map[], map[], map[];
    }

    function View(id: string): Provider
      reads this
    {
      Provider(if id in state then state[id] else Closed,
               if id in failures then failures[id] else 0,
               if id in lastFailureTime then Some(lastFailureTime[id]) else None,
               id in halfOpenProbeActive && halfOpenProbeActive[id])
    }

    /** Only `id` moves, and it moves by `e`. */
    twostate predicate Moves(id: string, e: Event)
      reads this
    {
      View(id) == Step(old(View(id)), settings, e) && forall other :: other != id ==> View(other) == old(View(other))
    }

    method RecordSuccess(id: string, now: Time)
      modifies this
      ensures Moves(id, Succeeded(now)) && lastSuccessTime == old(lastSuccessTime)[id := now]
    {
      failures := failures[id := 0];
      state := state[id := Closed];
      halfOpenProbeActive := halfOpenProbeActive - {id};
      lastSuccessTime := lastSuccessTime[id := now];
    }

    method RecordFailure(id: string, now: Time)
      modifies this
      ensures Moves(id, Failed(now)) && lastSuccessTime == old(lastSuccessTime)
    {
      var count := (if id in failures then failures[id] else 0) + 1;
      failures := failures[id := count];
      lastFailureTime := lastFailureTime[id := now];
      if (id in state && state[id] == HalfOpen) || count >= settings.threshold {
        state := state[id := Open];
        halfOpenProbeActive := halfOpenProbeActive - {id};
      }
    }

    method AllowRequest(id: string, now: Time) returns (allowed: bool)
      modifies this
      ensures Moves(id, Asked(now)) && allowed == Ask(old(View(id)), settings, now).1
      ensures lastSuccessTime == old(lastSuccessTime)
    {
      var current := if id in state then state[id] else Closed;
      if current == Closed {
        return true;
      }
      if current == Open {
        if id in lastFailureTime && now - lastFailureTime[id] >= settings.cooldown {
          state := state[id := HalfOpen];
          halfOpenProbeActive := halfOpenProbeActive[id := true];
          return true;
        }
        return false;
      }
      if id in halfOpenProbeActive && halfOpenProbeActive[id] {
        return false;
      }
      halfOpenProbeActive := halfOpenProbeActive[id := true];
      allowed := true;
    }

    /** No provider, or an empty name, forgets them all. */
    method Reset(id: Option<string>) returns (count: nat)
      modifies this
      ensures id.Some? && id.value != "" ==> count == 1 && Moves(id.value, Forgotten)
      ensures id.None? || id.value == "" ==> count == |old(failures)| && forall any :: View(any) == UNKNOWN
    {
      if id.Some? && id.value != "" {
        failures, state := failures - {id.value}, state - {id.value};
        lastFailureTime, lastSuccessTime := lastFailureTime - {id.value}, lastSuccessTime - {id.value};
        halfOpenProbeActive := halfOpenProbeActive - {id.value};
        return 1;
      }
      count := |failures|;
      failures, state, lastFailureTime, lastSuccessTime, halfOpenProbeActive := map[], map[], map[], map[], map[];
    }
  }

  // ------------------------------------------------------------------- every run

  predicate Sound(p: Provider, s: Settings)
  {
    && (p.state == Closed ==> p.failures < s.threshold && !p.probing)
    && (p.state != Closed ==> p.failures >= s.threshold && p.lastFailure.Some?)
    && (p.state == HalfOpen <==> p.probing)
  }

  /** With a threshold of at least one, every reachable provider is sound. */
  lemma {:induction false} ReachableIsSound(s: Settings, events: seq<Event>)
    requires s.threshold >= 1
    ensures Sound(After(s, events), s)
  {
    if events != [] { ReachableIsSound(s, events[..|events| - 1]); }
  }

  /** A threshold below one breaks it, already before any event. */
  lemma {:induction false} SoundnessNeedsThreshold(s: Settings)
    ensures (forall events :: Sound(After(s, events), s)) <==> s.threshold >= 1
  {
    if s.threshold >= 1 {
      forall events ensures Sound(After(s, events), s) { ReachableIsSound(s, events); }
    } else {
      assert !Sound(After(s, []), s);
    }
  }

  predicate OnlyAsks(asks: seq<Event>) { forall e :: e in asks ==> e.Asked? }

  function AfterAsks(p: Provider, s: Settings, asks: seq<Event>): Provider
  {
    if asks == [] then p else Step(AfterAsks(p, s, asks[..|asks| - 1]), s, asks[|asks| - 1])
  }

  /** Is a request after this run admitted? */
  predicate Admits(s: Settings, events: seq<Event>, e: Event)
    requires e.Asked?
  {
    Ask(After(s, events), s, e.at).1
  }

  predicate Cooled(p: Provider, s: Settings, e: Event)
    requires e.Asked?
  {
    p.lastFailure.Some? && e.at - p.lastFailure.value >= s.cooldown
  }

  /** Between outcomes an open provider stays open until the first request after the
      cooldown, and is half-open from then on. */
  lemma {:induction false} AsksWhileOpen(p: Provider, s: Settings, asks: seq<Event>)
    requires Sound(p, s) && p.state != Closed && OnlyAsks(asks)
    ensures var q := AfterAsks(p, s, asks);
            if p.state == Open && forall k :: 0 <= k < |asks| ==> !Cooled(p, s, asks[k]) then q == p
            else q == p.(state := HalfOpen, probing := true)
  {
    if asks != [] {
      var front, last := asks[..|asks| - 1], asks[|asks| - 1];
      assert asks == front + [last] && last in asks;
      assert forall e :: e in front ==> e in asks;
      AsksWhileOpen(p, s, front);
    }
  }

  /** From any reachable open or half-open state, of all requests before the next outcome or
      reset exactly the first one after the cooldown is admitted, and none if a probe is
      already in flight; a closed provider admits them all. */
  lemma {:induction false} AdmitsOneProbe(s: Settings, events: seq<Event>, asks: seq<Event>, i: nat)
    requires s.threshold >= 1 && OnlyAsks(asks) && i < |asks|
    ensures asks[i] in asks
    ensures var p := After(s, events);
            Admits(s, events + asks[..i], asks[i]) <==>
              p.state == Closed
              || (p.state == Open && Cooled(p, s, asks[i])
                  && forall k :: 0 <= k < i ==> asks[k] in asks && !Cooled(p, s, asks[k]))
  {
    var p := After(s, events);
    ReachableIsSound(s, events);
    AfterIsAfterAsks(s, events, asks[..i]);
    forall e | e in asks[..i] ensures e in asks {}
    if p.state == Closed {
      ClosedAdmitsAll(p, s, asks[..i]);
    } else {
      AsksWhileOpen(p, s, asks[..i]);
      assert forall k :: 0 <= k < i ==> asks[..i][k] == asks[k] && asks[k] in asks;
    }
  }

  lemma {:induction false} ClosedAdmitsAll(p: Provider, s: Settings, asks: seq<Event>)
    requires p.state == Closed && OnlyAsks(asks)
    ensures AfterAsks(p, s, asks) == p
  {
    if asks != [] {
      var front, last := asks[..|asks| - 1], asks[|asks| - 1];
      assert asks == front + [last] && last in asks;
      assert forall e :: e in front ==> e in asks;
      ClosedAdmitsAll(p, s, front);
    }
  }

  lemma {:induction false} AfterIsAfterAsks(s: Settings, events: seq<Event>, asks: seq<Event>)
    ensures After(s, events + asks) == AfterAsks(After(s, events), s, asks)
  {
    if asks == [] {
      assert events + asks == events;
    } else {
      assert (events + asks)[..|events + asks| - 1] == events + asks[..|asks| - 1];
      AfterIsAfterAsks(s, events, asks[..|asks| - 1]);
    }
  }

  // ------------------------------------------------------------- read off the history

  /** The failures after the last success or reset. */
  function Streak(events: seq<Event>): set<nat>
  {
    set i: nat | i < |events| && events[i].Failed? && Unbroken(events, i)
  }

  predicate Unbroken(events: seq<Event>, i: nat)
  {
    forall j :: i < j < |events| ==> !events[j].Succeeded? && !events[j].Forgotten?
  }

  /** Event i is the last failure, and no reset came after it. */
  predicate LastFailed(events: seq<Event>, i: nat)
  {
    i < |events| && events[i].Failed? && forall j :: i < j < |events| ==> !events[j].Failed? && !events[j].Forgotten?
  }

  lemma {:induction false} CountsTheStreak(s: Settings, events: seq<Event>)
    ensures After(s, events).failures == |Streak(events)|
  {
    if events != [] {
      var front, last := events[..|events| - 1], events[|events| - 1];
      assert events == front + [last];
      CountsTheStreak(s, front);
      StreakGrows(front, last);
    }
  }

  lemma StreakGrows(front: seq<Event>, last: Event)
    ensures last.Failed? ==> |Streak(front + [last])| == |Streak(front)| + 1
    ensures last.Asked? ==> Streak(front + [last]) == Streak(front)
    ensures last.Succeeded? || last.Forgotten? ==> Streak(front + [last]) == {}
  {
    var events := front + [last];
    if last.Failed? || last.Asked? {
      forall i: nat | i < |front| ensures Unbroken(events, i) <==> Unbroken(front, i) {
        assert forall j :: i < j < |front| ==> events[j] == front[j];
      }
      assert Streak(events) == Streak(front) + if last.Failed? then {|front|} else {};
    } else {
      forall i: nat | i < |front| ensures !Unbroken(events, i) { assert events[|front|] == last; }
    }
  }

  lemma {:induction false} RemembersLastFailure(s: Settings, events: seq<Event>)
    ensures forall i: nat :: LastFailed(events, i) ==> After(s, events).lastFailure == Some(events[i].at)
    ensures (forall i: nat :: !LastFailed(events, i)) ==> After(s, events).lastFailure.None?
  {
    if events != [] {
      var front, last := events[..|events| - 1], events[|events| - 1];
      assert events == front + [last];
      RemembersLastFailure(s, front);
      forall i: nat ensures LastFailed(events, i) <==>
                            if last.Failed? then i == |front| else !last.Forgotten? && LastFailed(front, i) {
        assert forall j :: i < j < |front| ==> events[j] == front[j];
        assert events[|front|] == last;
      }
      assert last.Failed? ==> LastFailed(events, |front|);
    }
  }

  /** A provider is closed exactly while its failures since the last success or reset stay
      below the threshold, and the failure that reaches it, like every later one, opens it. */
  lemma {:induction false} ThresholdDecides(s: Settings, events: seq<Event>)
    requires s.threshold >= 1
    ensures After(s, events).state == Closed <==> |Streak(events)| < s.threshold
    ensures events != [] && events[|events| - 1].Failed? && |Streak(events)| >= s.threshold ==> After(s, events).state == Open
  {
    ReachableIsSound(s, events);
    CountsTheStreak(s, events);
    if events != [] {
      ReachableIsSound(s, events[..|events| - 1]);
      CountsTheStreak(s, events[..|events| - 1]);
    }
  }
}
