/** The learning service over whole histories of observations. */
module EnvironmentHistory {
  import opened Wrappers
  import opened Ordering
  import opened Environment

  type Memory = map<string, Snapshot>

  function ObserveStep(memory: Memory, userId: string, context: DeepContext): (Memory, seq<Change>)
  {
    match BuildSnapshot(userId, context)
    case None => (memory, [])
    case Some(current) =>
      if userId !in memory then (memory[userId := current], [])
      else if memory[userId].data == current.data then (memory, [])
      else (memory[userId := current], Detect(memory[userId], current))
  }

  /** The changes stored for a user. */
  function ChangesOf(stored: map<string, seq<Change>>, u: string): seq<Change>
  {
    if u in stored then stored[u] else []
  }

  /** A change is kept under a digest of its whole content, so a repeated one is not kept again. */
  function StoreChanges(kept: seq<Change>, changes: seq<Change>): seq<Change>
  {
    if changes == [] then kept
    else
      var before := StoreChanges(kept, changes[..|changes| - 1]);
      var last := changes[|changes| - 1];
      if last in before then before else before + [last]
  }

  class EnvironmentLearningService {
    var memory: Memory
    var stored: map<string, seq<Change>>

    constructor ()
      ensures memory == map[] && stored == map[]
    {
      memory, stored := map[], map[];
    }

    ghost predicate Valid()
      reads this
    {
      forall u :: u in memory ==> memory[u].userId == u
    }

    method Observe(userId: string, context: DeepContext) returns (changes: seq<Change>)
      requires Valid()
      modifies this
      ensures Valid()
      ensures (memory, changes) == ObserveStep(old(memory), userId, context)
      ensures forall u :: ChangesOf(stored, u) ==
                StoreChanges(ChangesOf(old(stored), u), if u == userId then changes else [])
    {
      var snapshot := BuildSnapshot(userId, context);
      if snapshot.None? {
        return [];
      }
      var current := snapshot.value;
      if userId !in memory {
        memory := memory[userId := current];
        return [];
      }
      if memory[userId].data == current.data {
        return [];
      }
      var found := DetectChanges(memory[userId], current);
      changes := found.value;
      KeepChanges(userId, changes);
      memory := memory[userId := current];
    }

    method KeepChanges(userId: string, changes: seq<Change>)
      modifies this`stored
      ensures stored == old(stored)[userId := StoreChanges(ChangesOf(old(stored), userId), changes)]
    {
      var kept := ChangesOf(stored, userId);
      for i := 0 to |changes|
        invariant kept == StoreChanges(ChangesOf(stored, userId), changes[..i]) && stored == old(stored)
      {
        assert changes[..i + 1][..i] == changes[..i];
        if changes[i] !in kept {
          kept := kept + [changes[i]];
        }
      }
      assert changes[..|changes|] == changes;
      stored := stored[userId := kept];
    }

    method DeleteEnvironmentData(userId: string) returns (count: nat)
      requires Valid()
      modifies this
      ensures Valid() && memory == old(memory) - {userId} && stored == old(stored) - {userId}
      ensures count == |ChangesOf(old(stored), userId)| + if userId in old(memory) then 1 else 0
    {
      count := |ChangesOf(stored, userId)| + if userId in memory then 1 else 0;
      memory, stored := memory - {userId}, stored - {userId};
    }
  }

  // --------------------------------------------------------------------- histories

  datatype Event = Observed(userId: string, context: DeepContext) | Erased(userId: string)

  /** Beside the stored snapshots and changes, each user's first view and every change
      returned since. */
  datatype History = History(memory: Memory, stored: map<string, seq<Change>>,
                             first: map<string, View>, returned: map<string, seq<Change>>)

  function Extend(h: History, e: Event): History
  {
    match e
    case Observed(u, context) =>
      var (memory', changes) := ObserveStep(h.memory, u, context);
      if u !in memory' then h
      else if u !in h.memory || u !in h.returned then
        h.(memory := memory', first := h.first[u := ViewOf(memory'[u])], returned := h.returned[u := []])
      else
        h.(memory := memory', stored := h.stored[u := StoreChanges(ChangesOf(h.stored, u), changes)],
           returned := h.returned[u := h.returned[u] + changes])
    case Erased(u) => History(h.memory - {u}, h.stored - {u}, h.first - {u}, h.returned - {u})
  }

  function Past(events: seq<Event>): History
  {
    if events == [] then History(map[], map[], map[], map[]) else Extend(Past(events[..|events| - 1]), events[|events| - 1])
  }

  predicate Replays(h: History, u: string)
    requires u in h.memory
  {
    u in h.first && u in h.returned && Replay(h.first[u], h.returned[u]) == ViewOf(h.memory[u])
  }

  predicate Faithful(h: History)
  {
    forall u :: u in h.memory ==> Replays(h, u)
  }

  lemma ExtendStaysFaithful(h: History, e: Event)
    requires Faithful(h)
    ensures Faithful(Extend(h, e))
  {
    var h' := Extend(h, e);
    forall v | v in h'.memory ensures Replays(h', v) {
      if v in h.memory { assert Replays(h, v); }
      if e.Observed? && v == e.userId && v in h.memory {
        var (memory', changes) := ObserveStep(h.memory, v, e.context);
        ObservationReplays(h.memory, v, e.context);
        ReplayAppend(h.first[v], h.returned[v], changes);
      }
    }
  }

  /** One observation's answer takes the stored view to the next stored view. */
  lemma ObservationReplays(memory: Memory, u: string, context: DeepContext)
    requires u in memory
    ensures var (memory', changes) := ObserveStep(memory, u, context);
            u in memory' && Replay(ViewOf(memory[u]), changes) == ViewOf(memory'[u])
  {
    var snapshot := BuildSnapshot(u, context);
    if snapshot.Some? { DiffReplays(memory[u], snapshot.value); }
  }

  /** Whatever the users observe and erase, in any order, each user's returned changes
      replayed on that user's first view give the latest view. */
  lemma {:induction false} HistoriesReplay(events: seq<Event>)
    ensures Faithful(Past(events))
  {
    if events != [] {
      HistoriesReplay(events[..|events| - 1]);
      ExtendStaysFaithful(Past(events[..|events| - 1]), events[|events| - 1]);
    }
  }

  /** The same over the plain fields: the returned changes take the categories and
      capabilities of the first view to those of the latest applications. */
  lemma {:induction false} HistoriesReplayFacts(events: seq<Event>, u: string)
    requires u in Past(events).memory
    ensures var h := Past(events);
            && u in h.first && u in h.returned
            && ReplayFacts(FactsOfView(h.first[u]), h.returned[u]) == FactsOf(Applications(h.memory[u]))
  {
    var h := Past(events);
    HistoriesReplay(events);
    assert Replays(h, u);
    ReplaysAgree(h.first[u], h.returned[u]);
    ViewFacts(h.memory[u]);
  }

  // ------------------------------------------------------- what one observation answers

  predicate Observable(u: string, context: DeepContext)
  {
    u != "" && (context.installedApps.Some? || context.hardware.Some?)
  }

  /** The applications of a snapshot: the reported entries with an id, cleaned, by id. */
  predicate CleanApps(reported: seq<Reported>, apps: seq<App>)
  {
    && (forall app :: app in apps ==> exists r :: r in reported && r.appId != "" && app == SanitizeApp(r))
    && (forall r :: r in reported && r.appId != "" ==> SanitizeApp(r) in apps)
    && forall i, j :: 0 <= i < j < |apps| ==> Leq(apps[i].appId, apps[j].appId)
  }

  predicate Keeps(u: string, context: DeepContext, s: Snapshot)
  {
    && s.userId == u
    && (context.installedApps.None? ==> s.data.applications.None?)
    && (context.installedApps.Some? ==>
          s.data.applications.Some? && CleanApps(context.installedApps.value, s.data.applications.value))
    && (context.hardware.None? ==> s.data.hardware.None?)
    && (context.hardware.Some? ==>
          s.data.hardware.Some? && s.data.hardware.value.capacity == context.hardware.value.capacity)
  }

  lemma {:induction false} CleanedAre(reported: seq<Reported>)
    ensures forall app :: app in Cleaned(reported) ==> exists r :: r in reported && r.appId != "" && app == SanitizeApp(r)
    ensures forall r :: r in reported && r.appId != "" ==> SanitizeApp(r) in Cleaned(reported)
  {
    if reported != [] {
      var front, last := reported[..|reported| - 1], reported[|reported| - 1];
      assert reported == front + [last];
      CleanedAre(front);
    }
  }

  lemma SnapshotKeeps(u: string, context: DeepContext)
    ensures BuildSnapshot(u, context).Some? <==> Observable(u, context)
    ensures Observable(u, context) ==> Keeps(u, context, BuildSnapshot(u, context).value)
  {
    if context.installedApps.Some? {
      var reported := context.installedApps.value;
      CleanedAre(reported);
      SortSorted(Cleaned(reported), IdOf);
      SortHolds(reported);
    }
  }

  lemma {:induction false} SortHolds(reported: seq<Reported>)
    ensures forall app :: app in SanitizeApps(reported) <==> app in Cleaned(reported)
  {
    var clean := Cleaned(reported);
    assert forall app :: app in Sort(clean, IdOf) <==> app in multiset(Sort(clean, IdOf));
    assert forall app :: app in multiset(clean) <==> app in clean;
  }

  /** An observation without an owner or without facts leaves everything and answers nothing.
      Any other becomes the user's snapshot; the first of a user answers nothing, a later one
      exactly the changes from the snapshot before. Nobody else's snapshot moves. */
  lemma ObservationAnswers(memory: Memory, u: string, context: DeepContext)
    ensures var (memory', changes) := ObserveStep(memory, u, context);
            && (!Observable(u, context) ==> memory' == memory && changes == [])
            && (Observable(u, context) ==> u in memory' && memory' == memory[u := memory'[u]])
            && (Observable(u, context) && u !in memory ==> Keeps(u, context, memory'[u]) && changes == [])
            && (Observable(u, context) && u in memory ==>
                  && memory'[u].data == BuildSnapshot(u, context).value.data
                  && forall c :: c in changes <==>
                       Tells(c, Applications(memory[u]), Applications(memory'[u]), memory[u].data.hardware, memory'[u].data.hardware))
  {
    SnapshotKeeps(u, context);
    var memory' := ObserveStep(memory, u, context).0;
    if Observable(u, context) && u in memory {
      forall c ensures c in ObserveStep(memory, u, context).1 <==>
                       Tells(c, Applications(memory[u]), Applications(memory'[u]), memory[u].data.hardware, memory'[u].data.hardware) {
        DiffTells(memory[u], memory'[u], c);
        if memory[u].data == BuildSnapshot(u, context).value.data { DiffTells(memory[u], memory[u], c); }
      }
    }
  }

  // ------------------------------------------------------------- the stored changes

  predicate NoRepeats(changes: seq<Change>) { forall i, j :: 0 <= i < j < |changes| ==> changes[i] != changes[j] }

  lemma {:induction false} StoreKeepsEach(kept: seq<Change>, changes: seq<Change>)
    requires NoRepeats(kept)
    ensures NoRepeats(StoreChanges(kept, changes))
    ensures forall c :: c in StoreChanges(kept, changes) <==> c in kept || c in changes
  {
    if changes != [] {
      StoreKeepsEach(kept, changes[..|changes| - 1]);
      assert changes == changes[..|changes| - 1] + [changes[|changes| - 1]];
    }
  }

  lemma {:induction false} StoreAppend(kept: seq<Change>, a: seq<Change>, b: seq<Change>)
    ensures StoreChanges(kept, a + b) == StoreChanges(StoreChanges(kept, a), b)
  {
    if b == [] {
      assert a + b == a;
    } else {
      assert (a + b)[..|a + b| - 1] == a + b[..|b| - 1];
      StoreAppend(kept, a, b[..|b| - 1]);
    }
  }

  predicate StoresReturned(h: History, u: string)
  {
    && (u in h.memory <==> u in h.returned)
    && ChangesOf(h.stored, u) == StoreChanges([], ChangesOf(h.returned, u))
  }

  lemma ExtendStoresReturned(h: History, e: Event, u: string)
    requires StoresReturned(h, u)
    ensures StoresReturned(Extend(h, e), u)
  {
    if e.Observed? && e.userId == u {
      StoreAppend([], ChangesOf(h.returned, u), ObserveStep(h.memory, u, e.context).1);
    }
  }

  /** In every run the store holds the returned changes in order, each where it first came. */
  lemma {:induction false} StoredAreReturned(events: seq<Event>, u: string)
    ensures StoresReturned(Past(events), u)
    ensures var (stored, returned) := (ChangesOf(Past(events).stored, u), ChangesOf(Past(events).returned, u));
            NoRepeats(stored) && forall c :: c in stored <==> c in returned
  {
    if events != [] {
      StoredAreReturned(events[..|events| - 1], u);
      ExtendStoresReturned(Past(events[..|events| - 1]), events[|events| - 1], u);
    }
    StoreKeepsEach([], ChangesOf(Past(events).returned, u));
  }

  /** The change a has come up by some place before which b has not. */
  predicate ComesUpBefore(changes: seq<Change>, a: Change, b: Change)
  {
    exists p :: 0 <= p < |changes| && changes[p] == a && forall q :: 0 <= q <= p ==> changes[q] != b
  }

  predicate InOrderOf(changes: seq<Change>, kept: seq<Change>)
  {
    forall i, j :: 0 <= i < j < |kept| ==> ComesUpBefore(changes, kept[i], kept[j])
  }

  /** The store keeps the changes in the order of their first appearances. */
  lemma {:induction false} StoredInOrder(changes: seq<Change>)
    ensures InOrderOf(changes, StoreChanges([], changes))
  {
    if changes != [] {
      var front, last := changes[..|changes| - 1], changes[|changes| - 1];
      var kept := StoreChanges([], front);
      assert changes == front + [last];
      StoredInOrder(front);
      StoreKeepsEach([], front);
      forall a, b | ComesUpBefore(front, a, b) ensures ComesUpBefore(changes, a, b) { StillBefore(front, last, a, b); }
      forall i | 0 <= i < |kept| && last !in kept ensures ComesUpBefore(changes, kept[i], last) {
        assert kept[i] in kept && kept[i] in front;
        var p :| 0 <= p < |front| && front[p] == kept[i];
        assert changes[p] == kept[i];
        forall q | 0 <= q <= p ensures changes[q] != last { assert front[q] in front; }
      }
      var longer := StoreChanges([], changes);
      assert longer == if last in kept then kept else kept + [last];
      forall i, j | 0 <= i < j < |longer| ensures ComesUpBefore(changes, longer[i], longer[j]) {
        if j < |kept| { assert InOrderOf(front, kept) && ComesUpBefore(front, kept[i], kept[j]); }
      }
    }
  }

  lemma StillBefore(front: seq<Change>, last: Change, a: Change, b: Change)
    requires ComesUpBefore(front, a, b)
    ensures ComesUpBefore(front + [last], a, b)
  {
    var p :| 0 <= p < |front| && front[p] == a && forall q :: 0 <= q <= p ==> front[q] != b;
    assert (front + [last])[p] == a;
  }

  // ------------------------------------------------------ when the stored changes replay

  /** The last change about an application. */
  function LastAbout(changes: seq<Change>, id: string): Option<Change>
  {
    if changes == [] then None
    else
      var last := changes[|changes| - 1];
      if !last.CapacityChanged? && last.subject == id then Some(last) else LastAbout(changes[..|changes| - 1], id)
  }

  function ProfileAt(view: View, id: string): Option<Profile> { if id in view then Some(view[id]) else None }

  /** What a change about an application leaves of it. */
  function Effect(change: Change): Option<Profile>
    requires !change.CapacityChanged?
  {
    match change
    case AppAdded(_, app) => Some(ProfileOf(app))
    case AppRemoved(_, _) => None
    case CapabilitiesChanged(_, _, app) => Some(ProfileOf(app))
  }

  lemma {:induction false} LastIsAbout(changes: seq<Change>, id: string)
    ensures var last := LastAbout(changes, id);
            && (last.Some? ==> last.value in changes && !last.value.CapacityChanged? && last.value.subject == id)
            && (last.None? ==> forall c :: c in changes && !c.CapacityChanged? ==> c.subject != id)
  {
    if changes != [] {
      LastIsAbout(changes[..|changes| - 1], id);
      assert changes == changes[..|changes| - 1] + [changes[|changes| - 1]];
    }
  }

  /** Replaying leaves of an application what the last change about it leaves. */
  lemma {:induction false} ReplayAt(view: View, changes: seq<Change>, id: string)
    ensures var last := LastAbout(changes, id);
            && (last.Some? ==> !last.value.CapacityChanged?)
            && ProfileAt(Replay(view, changes), id) == if last.Some? then Effect(last.value) else ProfileAt(view, id)
  {
    LastIsAbout(changes, id);
    if changes != [] { ReplayAt(view, changes[..|changes| - 1], id); }
  }

  /** The last changes about an application agree: neither list has one, or both leave the
      same profile or remove it. */
  predicate LastAgree(stored: seq<Change>, returned: seq<Change>, id: string)
  {
    match (LastAbout(stored, id), LastAbout(returned, id))
    case (None, None) => true
    case (Some(s), Some(r)) => !s.CapacityChanged? && !r.CapacityChanged? && Effect(s) == Effect(r)
    case _ => false
  }

  lemma ViewsAgreeIff(a: View, b: View)
    ensures a == b <==> forall id :: ProfileAt(a, id) == ProfileAt(b, id)
  {
    if forall id :: ProfileAt(a, id) == ProfileAt(b, id) {
      forall id ensures id in a <==> id in b { assert ProfileAt(a, id) == ProfileAt(b, id); }
      forall id | id in a ensures a[id] == b[id] { assert ProfileAt(a, id) == ProfileAt(b, id); }
    }
  }

  lemma {:induction false} ReplayTheSameIff(view: View, stored: seq<Change>, returned: seq<Change>)
    requires forall c :: c in stored <==> c in returned
    ensures Replay(view, stored) == Replay(view, returned) <==> forall id :: LastAgree(stored, returned, id)
  {
    ViewsAgreeIff(Replay(view, stored), Replay(view, returned));
    forall id ensures LastAgree(stored, returned, id)
                      <==> ProfileAt(Replay(view, stored), id) == ProfileAt(Replay(view, returned), id) {
      LastIsAbout(stored, id);
      LastIsAbout(returned, id);
      ReplayAt(view, stored, id);
      ReplayAt(view, returned, id);
    }
  }

  /** In every run the stored changes replay to the latest view exactly when, for every
      application, the last stored and the last returned change about it leave the same. */
  lemma {:induction false} StoredReplayIff(events: seq<Event>, u: string)
    requires u in Past(events).memory
    ensures u in Past(events).first
    ensures var h := Past(events);
            Replay(h.first[u], ChangesOf(h.stored, u)) == ViewOf(h.memory[u])
            <==> forall id :: LastAgree(ChangesOf(h.stored, u), ChangesOf(h.returned, u), id)
  {
    HistoriesReplay(events);
    assert Replays(Past(events), u);
    StoredAreReturned(events, u);
    ReplayTheSameIff(Past(events).first[u], ChangesOf(Past(events).stored, u), ChangesOf(Past(events).returned, u));
  }

  lemma {:induction false} NothingDropped(changes: seq<Change>)
    requires NoRepeats(changes)
    ensures StoreChanges([], changes) == changes
  {
    if changes != [] {
      var front, last := changes[..|changes| - 1], changes[|changes| - 1];
      NothingDropped(front);
      assert changes == front + [last] && last !in front;
    }
  }

  /** While no change comes back, the store replays. */
  lemma {:induction false} FreshChangesReplay(events: seq<Event>, u: string)
    requires u in Past(events).memory && NoRepeats(ChangesOf(Past(events).returned, u))
    ensures u in Past(events).first
    ensures Replay(Past(events).first[u], ChangesOf(Past(events).stored, u)) == ViewOf(Past(events).memory[u])
  {
    HistoriesReplay(events);
    assert Replays(Past(events), u);
    StoredAreReturned(events, u);
    NothingDropped(ChangesOf(Past(events).returned, u));
  }

  lemma OneKey(id: string)
    ensures SortedSet({id}) == [id] && SortedSet({}) == []
  {
    LeastIsCertain({id});
    assert {id} - {id} == {};
  }

  lemma ComesAndGoes(u: string, app: App)
    ensures var (a, b) := (Snapshot(u, Data(Some([app]), None)), Snapshot(u, Data(Some([]), None)));
            && Applications(a) == map[app.appId := app] && Applications(b) == map[]
            && Detect(a, b) == [AppRemoved(app.appId, app)] && Detect(b, a) == [AppAdded(app.appId, app)]
  {
    var a, b := map[app.appId := app], map[];
    OneKey(app.appId);
    assert [app][..0] == [] && AppsById([app]) == a;
    assert a.Keys - b.Keys == {app.appId} && b.Keys - a.Keys == {} && a.Keys * b.Keys == {};
    assert b.Keys * a.Keys == {};
    OneChange(app.appId, a, b);
  }

  lemma OneChange(id: string, a: AppMap, b: AppMap)
    requires a.Keys == {id} && b == map[]
    ensures AppChanges(a, b) == [AppRemoved(id, a[id])] && AppChanges(b, a) == [AppAdded(id, a[id])]
  {
    OneKey(id);
    assert a.Keys - b.Keys == {id} && b.Keys - a.Keys == {} && a.Keys * b.Keys == {} && b.Keys * a.Keys == {};
    assert [id][..0] == [];
    assert Removed([id], a) == [AppRemoved(id, a[id])] && Added([id], a) == [AppAdded(id, a[id])];
  }

  function With(r: Reported): DeepContext { DeepContext(Some([r]), None) }

  const WITHOUT := DeepContext(Some([]), None)

  /** The stored changes alone do not replay: an application that goes, comes back and goes
      again leaves no second removal in the store. */
  lemma StoredChangesFallShort(u: string, r: Reported)
    requires u != "" && r.appId != ""
    ensures var h := Past([Observed(u, With(r))] + [Observed(u, WITHOUT)] + [Observed(u, With(r))] + [Observed(u, WITHOUT)]);
            && u in h.memory && u in h.first && ViewOf(h.memory[u]) == map[]
            && Replay(h.first[u], ChangesOf(h.stored, u)) == h.first[u] != map[]
  {
    var app := SanitizeApp(r);
    var gone, back := AppRemoved(app.appId, app), AppAdded(app.appId, app);
    TheTwoViews(u, r);
    FourObservations(u, r);
    StoredTwice(gone, back);
    ReplayBack(map[app.appId := ProfileOf(app)], gone, back);
  }

  lemma TheTwoViews(u: string, r: Reported)
    ensures ViewOf(Holding(u, r)) == map[r.appId := ProfileOf(SanitizeApp(r))] != map[]
    ensures ViewOf(Lacking(u)) == map[]
  {
    ComesAndGoes(u, SanitizeApp(r));
    assert r.appId in ViewOf(Holding(u, r));
  }

  lemma ReportedOnce(u: string, r: Reported)
    requires u != "" && r.appId != ""
    ensures BuildSnapshot(u, With(r)) == Some(Snapshot(u, Data(Some([SanitizeApp(r)]), None)))
    ensures BuildSnapshot(u, WITHOUT) == Some(Snapshot(u, Data(Some([]), None)))
  {
    assert [r][..0] == [] && Cleaned([r]) == [SanitizeApp(r)];
    assert Sort([SanitizeApp(r)], IdOf) == [SanitizeApp(r)];
  }

  lemma {:induction false} PastOneMore(events: seq<Event>, e: Event)
    ensures Past(events + [e]) == Extend(Past(events), e)
  {
    assert (events + [e])[..|events|] == events;
  }

  /** An observation that differs from the stored snapshot. */
  lemma ExtendKnown(h: History, u: string, context: DeepContext, current: Snapshot)
    requires BuildSnapshot(u, context) == Some(current) && u in h.memory && u in h.returned
    requires h.memory[u].data != current.data
    ensures var h' := Extend(h, Observed(u, context));
            && h'.memory == h.memory[u := current] && h'.first == h.first && u in h'.returned
            && ChangesOf(h'.stored, u) == StoreChanges(ChangesOf(h.stored, u), Detect(h.memory[u], current))
  {
  }

  lemma ExtendNew(u: string, context: DeepContext, current: Snapshot)
    requires BuildSnapshot(u, context) == Some(current)
    ensures var h := Past([Observed(u, context)]);
            && h.memory == map[u := current] && u in h.first && h.first[u] == ViewOf(current)
            && u in h.returned && ChangesOf(h.stored, u) == []
  {
    PastOneMore([], Observed(u, context));
    assert [] + [Observed(u, context)] == [Observed(u, context)];
  }

  function Holding(u: string, r: Reported): Snapshot { Snapshot(u, Data(Some([SanitizeApp(r)]), None)) }

  function Lacking(u: string): Snapshot { Snapshot(u, Data(Some([]), None)) }

  predicate Stands(h: History, u: string, snapshot: Snapshot, first: View, stored: seq<Change>)
  {
    && u in h.memory && h.memory[u] == snapshot && u in h.first && h.first[u] == first
    && u in h.returned && ChangesOf(h.stored, u) == stored
  }

  lemma {:induction false} Leaves(events: seq<Event>, u: string, r: Reported, first: View, stored: seq<Change>)
    requires u != "" && r.appId != "" && Stands(Past(events), u, Holding(u, r), first, stored)
    ensures Stands(Past(events + [Observed(u, WITHOUT)]), u, Lacking(u), first,
                   StoreChanges(stored, [AppRemoved(r.appId, SanitizeApp(r))]))
  {
    ReportedOnce(u, r);
    ComesAndGoes(u, SanitizeApp(r));
    assert |[SanitizeApp(r)]| == 1;
    PastOneMore(events, Observed(u, WITHOUT));
    ExtendKnown(Past(events), u, WITHOUT, Lacking(u));
  }

  lemma {:induction false} Returns(events: seq<Event>, u: string, r: Reported, first: View, stored: seq<Change>)
    requires u != "" && r.appId != "" && Stands(Past(events), u, Lacking(u), first, stored)
    ensures Stands(Past(events + [Observed(u, With(r))]), u, Holding(u, r), first,
                   StoreChanges(stored, [AppAdded(r.appId, SanitizeApp(r))]))
  {
    ReportedOnce(u, r);
    ComesAndGoes(u, SanitizeApp(r));
    assert |[SanitizeApp(r)]| == 1;
    PastOneMore(events, Observed(u, With(r)));
    ExtendKnown(Past(events), u, With(r), Holding(u, r));
  }

  lemma FourObservations(u: string, r: Reported)
    requires u != "" && r.appId != ""
    ensures var (gone, back) := (AppRemoved(r.appId, SanitizeApp(r)), AppAdded(r.appId, SanitizeApp(r)));
            Stands(Past([Observed(u, With(r))] + [Observed(u, WITHOUT)] + [Observed(u, With(r))] + [Observed(u, WITHOUT)]),
                   u, Lacking(u), ViewOf(Holding(u, r)), StoreChanges(StoreChanges(StoreChanges([], [gone]), [back]), [gone]))
  {
    var e1, e2, first := Observed(u, With(r)), Observed(u, WITHOUT), ViewOf(Holding(u, r));
    var gone, back := AppRemoved(r.appId, SanitizeApp(r)), AppAdded(r.appId, SanitizeApp(r));
    var once := StoreChanges([], [gone]);
    ReportedOnce(u, r);
    ExtendNew(u, With(r), Holding(u, r));
    Leaves([e1], u, r, first, []);
    Returns([e1] + [e2], u, r, first, once);
    Leaves([e1] + [e2] + [e1], u, r, first, StoreChanges(once, [back]));
  }

  lemma StoredTwice(gone: Change, back: Change)
    requires gone != back
    ensures StoreChanges(StoreChanges(StoreChanges([], [gone]), [back]), [gone]) == [gone, back]
  {
    assert [gone][..0] == [] && [back][..0] == [];
  }

  lemma {:induction false} ReplayBack(view: View, gone: Change, back: Change)
    requires gone.AppRemoved? && back.AppAdded? && gone.subject == back.subject
    requires view == map[back.subject := ProfileOf(back.current)]
    ensures Replay(view, [gone, back]) == view
  {
    assert [gone, back][..1] == [gone] && [gone][..0] == [];
    assert Replay(view, [gone]) == Patch(view, gone) == map[];
  }

  // ------------------------------------------------------- when reporting order matters

  lemma {:induction false} CutAllAppend(a: seq<string>, b: seq<string>)
    ensures CutAll(a + b) == CutAll(a) + CutAll(b)
  {
    if b == [] {
      assert a + b == a;
    } else {
      assert (a + b)[..|a + b| - 1] == a + b[..|b| - 1];
      CutAllAppend(a, b[..|b| - 1]);
    }
  }

  lemma CutAllPull(x: seq<string>, c: string, y: seq<string>)
    ensures multiset(CutAll(x + [c] + y)) == multiset(CutAll([c])) + multiset(CutAll(x + y))
  {
    CutAllAppend(x + [c], y);
    CutAllAppend(x, [c]);
    CutAllAppend(x, y);
  }

  lemma {:induction false} CutAllKeepsMultiset(a: seq<string>, b: seq<string>)
    requires multiset(a) == multiset(b)
    ensures multiset(CutAll(a)) == multiset(CutAll(b))
  {
    if a == [] {
      assert |multiset(b)| == 0;
    } else {
      var i := WithoutFirst(a, b);
      assert [] + [a[0]] + a[1..] == a && [] + a[1..] == a[1..];
      CutAllPull([], a[0], a[1..]);
      CutAllPull(b[..i], a[0], b[i + 1..]);
      CutAllKeepsMultiset(a[1..], b[..i] + b[i + 1..]);
    }
  }

  lemma WithoutFirst(a: seq<string>, b: seq<string>) returns (i: nat)
    requires a != [] && multiset(a) == multiset(b)
    ensures i < |b| && b == b[..i] + [a[0]] + b[i + 1..]
    ensures multiset(a[1..]) == multiset(b[..i] + b[i + 1..])
  {
    assert a[0] in multiset(a) && a[0] in multiset(b);
    i :| 0 <= i < |b| && b[i] == a[0];
    CutOne(b, i);
    CutOne(a, 0);
    assert a[..0] + a[1..] == a[1..];
  }

  lemma CutOne(s: seq<string>, i: nat)
    requires i < |s|
    ensures s == s[..i] + [s[i]] + s[i + 1..]
    ensures multiset(s[..i] + s[i + 1..]) == multiset(s) - multiset{s[i]}
  {
    assert s == s[..i] + [s[i]] + s[i + 1..];
    assert multiset(s) == multiset(s[..i]) + multiset{s[i]} + multiset(s[i + 1..]);
  }

  /** Listing the capabilities in another order describes the same application. */
  lemma CapabilityOrderIsIrrelevant(r: Reported, capabilities: seq<string>)
    requires multiset(capabilities) == multiset(r.capabilities)
    ensures SanitizeApp(r.(capabilities := capabilities)) == SanitizeApp(r)
  {
    CutAllKeepsMultiset(capabilities, r.capabilities);
    SortCanonical(CutAll(capabilities), CutAll(r.capabilities), Itself);
  }

  lemma DataDecides(memory: Memory, u: string, first: DeepContext, second: DeepContext)
    requires BuildSnapshot(u, first).Some? && BuildSnapshot(u, second).Some?
    ensures var (memory', _) := ObserveStep(memory, u, first);
            ObserveStep(memory', u, second) == (memory', [])
            <==> BuildSnapshot(u, first).value.data == BuildSnapshot(u, second).value.data
  {
    var memory' := ObserveStep(memory, u, first).0;
    assert memory'[u].data == BuildSnapshot(u, first).value.data;
    assert memory'[u := BuildSnapshot(u, second).value][u] == BuildSnapshot(u, second).value;
  }

  lemma {:induction false} ReportedData(u: string, reported: seq<Reported>, hardware: Option<Hardware>)
    requires u != ""
    ensures var snapshot := BuildSnapshot(u, DeepContext(Some(reported), hardware));
            snapshot.Some? && snapshot.value.data.applications == Some(Sort(Cleaned(reported), IdOf))
            && snapshot.value.data.hardware == match hardware case Some(h) => Some(h.(confidence := Clamp(h.confidence))) case None => None
  {
  }

  /** Two reports in a row are no change at all exactly when they agree, for each application
      id, on the cleaned entries with that id and their order; the order across ids, and
      entries without an id, do not matter. */
  lemma {:induction false} ReportsAgreeIff(memory: Memory, u: string, a: seq<Reported>, b: seq<Reported>, hardware: Option<Hardware>)
    requires u != ""
    ensures var (memory', _) := ObserveStep(memory, u, DeepContext(Some(a), hardware));
            ObserveStep(memory', u, DeepContext(Some(b), hardware)) == (memory', [])
            <==> SameGroups(Cleaned(a), Cleaned(b), IdOf)
  {
    ReportedData(u, a, hardware);
    ReportedData(u, b, hardware);
    DataDecides(memory, u, DeepContext(Some(a), hardware), DeepContext(Some(b), hardware));
    SortsAgreeIff(Cleaned(a), Cleaned(b), IdOf);
  }
}
