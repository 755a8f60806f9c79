/** Learning environment changes from successive capability snapshots. */
module Environment {
  import opened Wrappers
  import opened Ordering

  /** An application as a profiler reports it; absent fields take their defaults. */
  datatype Reported = Reported(
    appId: string, name: Option<string>, category: Option<string>, capabilities: seq<string>,
    source: Option<string>, confidence: real)

  datatype App = App(appId: string, name: string, category: string, capabilities: seq<string>,
                     source: string, confidence: real)

  /** The hardware facts other than confidence, in field order. */
  datatype Hardware = Hardware(capacity: seq<Option<real>>, confidence: real)

  datatype DeepContext = DeepContext(installedApps: Option<seq<Reported>>, hardware: Option<Hardware>)

  datatype Data = Data(applications: Option<seq<App>>, hardware: Option<Hardware>)

  /** The fingerprint is a digest of the data, taken as injective: comparing fingerprints is
      comparing data. */
  datatype Snapshot = Snapshot(userId: string, data: Data)

  datatype Change =
    | AppAdded(subject: string, current: App)
    | AppRemoved(subject: string, previous: App)
    | CapabilitiesChanged(subject: string, previous: App, current: App)
    | CapacityChanged(before: Hardware, after: Hardware)

  // ------------------------------------------------------------------- sanitizing

  function Clamp(confidence: real): real { if confidence < 0.0 then 0.0 else if confidence > 1.0 then 1.0 else confidence }

  function Cut(s: string, limit: nat): string { if |s| <= limit then s else s[..limit] }

  function GetOr(field: Option<string>, default: string): string
  {
    match field case Some(value) => value case None => default
  }

  function Itself(s: string): string { s }

  function IdOf(app: App): string { app.appId }

  function CutAll(capabilities: seq<string>): seq<string>
  {
    if capabilities == [] then []
    else
      var last := capabilities[|capabilities| - 1];
      CutAll(capabilities[..|capabilities| - 1]) + if last == "" then [] else [Cut(last, 80)]
  }

  function SanitizeApp(r: Reported): App
  {
    App(r.appId, Cut(GetOr(r.name, "Application"), 160), Cut(GetOr(r.category, "other"), 80),
        Sort(CutAll(r.capabilities), Itself), Cut(GetOr(r.source, "application_knowledge"), 80), Clamp(r.confidence))
  }

  /** Entries without an id are dropped, the others cleaned in order. */
  function Cleaned(reported: seq<Reported>): seq<App>
  {
    if reported == [] then []
    else Cleaned(reported[..|reported| - 1])
         + if reported[|reported| - 1].appId == "" then [] else [SanitizeApp(reported[|reported| - 1])]
  }

  function SanitizeApps(reported: seq<Reported>): seq<App> { Sort(Cleaned(reported), IdOf) }

  function BuildSnapshot(userId: string, context: DeepContext): Option<Snapshot>
  {
    var apps := match context.installedApps case Some(reported) => Some(SanitizeApps(reported)) case None => None;
    var hardware := match context.hardware
      case Some(h) => Some(h.(confidence := Clamp(h.confidence)))
      case None => None;
    if userId == "" || (apps.None? && hardware.None?) then None
    else Some(Snapshot(userId, Data(apps, hardware)))
  }

  // -------------------------------------------------------------------- the diff

  type AppMap = map<string, App>

  /** `{app["app_id"]: app for app in apps}`: a later entry with the same id wins. */
  function AppsById(apps: seq<App>): (byId: AppMap)
    ensures forall id :: id in byId ==> byId[id].appId == id
  {
    if apps == [] then map[]
    else AppsById(apps[..|apps| - 1])[apps[|apps| - 1].appId := apps[|apps| - 1]]
  }

  function Applications(s: Snapshot): AppMap
  {
    AppsById(match s.data.applications case Some(apps) => apps case None => [])
  }

  datatype Profile = Profile(category: string, capabilities: seq<string>)

  function ProfileOf(app: App): Profile { Profile(app.category, app.capabilities) }

  predicate SameCapabilities(a: App, b: App) { a.category == b.category && a.capabilities == b.capabilities }

  type View = map<string, Profile>

  function Profiles(apps: AppMap): View { map id | id in apps :: ProfileOf(apps[id]) }

  function ViewOf(s: Snapshot): View { Profiles(Applications(s)) }

  function Added(ids: seq<string>, after: AppMap): seq<Change>
    requires forall id :: id in ids ==> id in after
  {
    seq(|ids|, i requires 0 <= i < |ids| => assert ids[i] in ids; AppAdded(ids[i], after[ids[i]]))
  }

  function Removed(ids: seq<string>, before: AppMap): seq<Change>
    requires forall id :: id in ids ==> id in before
  {
    seq(|ids|, i requires 0 <= i < |ids| => assert ids[i] in ids; AppRemoved(ids[i], before[ids[i]]))
  }

  function Reprofiled(ids: seq<string>, before: AppMap, after: AppMap): seq<Change>
    requires forall id :: id in ids ==> id in before && id in after
  {
    if ids == [] then []
    else
      var last := ids[|ids| - 1];
      Reprofiled(ids[..|ids| - 1], before, after)
      + if SameCapabilities(before[last], after[last]) then [] else [CapabilitiesChanged(last, before[last], after[last])]
  }

  function HardwareChange(previous: Snapshot, current: Snapshot): seq<Change>
  {
    match (previous.data.hardware, current.data.hardware)
    case (Some(before), Some(after)) => if before.capacity != after.capacity then [CapacityChanged(before, after)] else []
    case _ => []
  }

  function Arrivals(before: AppMap, after: AppMap): seq<Change>
  {
    Added(SortedSet(after.Keys - before.Keys), after)
  }

  function Departures(before: AppMap, after: AppMap): seq<Change>
  {
    Removed(SortedSet(before.Keys - after.Keys), before)
  }

  function Shifts(before: AppMap, after: AppMap): seq<Change>
  {
    Reprofiled(SortedSet(before.Keys * after.Keys), before, after)
  }

  function AppChanges(before: AppMap, after: AppMap): seq<Change>
  {
    Arrivals(before, after) + Departures(before, after) + Shifts(before, after)
  }

  function Detect(previous: Snapshot, current: Snapshot): seq<Change>
  {
    if previous.data == current.data then [] else AppChanges(Applications(previous), Applications(current)) + HardwareChange(previous, current)
  }

  method DetectAppChanges(before: AppMap, after: AppMap) returns (changes: seq<Change>)
    ensures changes == AppChanges(before, after)
  {
    var added := DetectAdded(SortedSet(after.Keys - before.Keys), after);
    var removed := DetectRemoved(SortedSet(before.Keys - after.Keys), before);
    var shifts := DetectShifts(SortedSet(before.Keys * after.Keys), before, after);
    changes := added + removed + shifts;
  }

  method DetectAdded(ids: seq<string>, after: AppMap) returns (changes: seq<Change>)
    requires forall id :: id in ids ==> id in after
    ensures changes == Added(ids, after)
  {
    changes := [];
    for i := 0 to |ids|
      invariant changes == Added(ids, after)[..i]
    {
      assert ids[i] in ids;
      changes := changes + [AppAdded(ids[i], after[ids[i]])];
    }
  }

  method DetectRemoved(ids: seq<string>, before: AppMap) returns (changes: seq<Change>)
    requires forall id :: id in ids ==> id in before
    ensures changes == Removed(ids, before)
  {
    changes := [];
    for i := 0 to |ids|
      invariant changes == Removed(ids, before)[..i]
    {
      assert ids[i] in ids;
      changes := changes + [AppRemoved(ids[i], before[ids[i]])];
    }
  }

  method DetectShifts(kept: seq<string>, before: AppMap, after: AppMap) returns (changes: seq<Change>)
    requires forall id :: id in kept ==> id in before && id in after
    ensures changes == Reprofiled(kept, before, after)
  {
    changes := [];
    for i := 0 to |kept|
      invariant forall id :: id in kept[..i] ==> id in before && id in after
      invariant changes == Reprofiled(kept[..i], before, after)
    {
      assert kept[i] in kept && kept[..i + 1][..i] == kept[..i];
      if !SameCapabilities(before[kept[i]], after[kept[i]]) {
        changes := changes + [CapabilitiesChanged(kept[i], before[kept[i]], after[kept[i]])];
      }
    }
    assert kept[..|kept|] == kept;
  }

  /** None for snapshots of different owners, which the code refuses. */
  method DetectChanges(previous: Snapshot, current: Snapshot) returns (changes: Option<seq<Change>>)
    ensures changes == if previous.userId == current.userId then Some(Detect(previous, current)) else None
  {
    if previous.userId != current.userId {
      return None;
    }
    if previous.data == current.data {
      return Some([]);
    }
    var found := DetectAppChanges(Applications(previous), Applications(current));
    match (previous.data.hardware, current.data.hardware) {
      case (Some(b), Some(a)) =>
        if b.capacity != a.capacity {
          found := found + [CapacityChanged(b, a)];
        }
      case _ =>
    }
    assert found == Detect(previous, current);
    changes := Some(found);
  }

  // ------------------------------------------------------------- replaying a diff

  function Patch(view: View, change: Change): View
  {
    match change
    case AppAdded(id, app) => view[id := ProfileOf(app)]
    case AppRemoved(id, _) => view - {id}
    case CapabilitiesChanged(id, _, app) => view[id := ProfileOf(app)]
    case CapacityChanged(_, _) => view
  }

  function Replay(view: View, changes: seq<Change>): View
  {
    if changes == [] then view else Patch(Replay(view, changes[..|changes| - 1]), changes[|changes| - 1])
  }

  lemma {:induction false} ReplayAppend(view: View, a: seq<Change>, b: seq<Change>)
    ensures Replay(view, a + b) == Replay(Replay(view, a), b)
  {
    if b == [] {
      assert a + b == a;
    } else {
      assert (a + b)[..|a + b| - 1] == a + b[..|b| - 1];
      ReplayAppend(view, a, b[..|b| - 1]);
    }
  }

  function Members(ids: seq<string>): set<string> { set id | id in ids }

  function Pick(after: AppMap, ids: set<string>): View
  {
    map id | id in ids && id in after :: ProfileOf(after[id])
  }

  lemma MembersSplit(ids: seq<string>)
    requires ids != []
    ensures Members(ids) == Members(ids[..|ids| - 1]) + {ids[|ids| - 1]}
    ensures forall id :: id in ids[..|ids| - 1] ==> id in ids
  {
    assert ids == ids[..|ids| - 1] + [ids[|ids| - 1]];
  }

  lemma {:induction false} ReplayAdded(view: View, ids: seq<string>, after: AppMap)
    requires forall id :: id in ids ==> id in after
    ensures Replay(view, Added(ids, after)) == view + Pick(after, Members(ids))
  {
    if ids != [] {
      var front := ids[..|ids| - 1];
      MembersSplit(ids);
      ReplayAdded(view, front, after);
      PickOneMore(view, Members(front), ids[|ids| - 1], after);
      assert Added(ids, after)[..|ids| - 1] == Added(front, after);
    }
  }

  lemma {:induction false} ReplayRemoved(view: View, ids: seq<string>, before: AppMap)
    requires forall id :: id in ids ==> id in before
    ensures Replay(view, Removed(ids, before)) == view - Members(ids)
  {
    if ids != [] {
      var front := ids[..|ids| - 1];
      MembersSplit(ids);
      ReplayRemoved(view, front, before);
      assert Removed(ids, before)[..|ids| - 1] == Removed(front, before);
    }
  }

  lemma {:induction false} ReplayReprofiled(view: View, ids: seq<string>, before: AppMap, after: AppMap)
    requires forall id :: id in ids ==> id in before && id in after
    requires forall id :: id in ids ==> id in view && view[id] == ProfileOf(before[id])
    ensures Replay(view, Reprofiled(ids, before, after)) == view + Pick(after, Members(ids))
  {
    if ids != [] {
      var front, last := ids[..|ids| - 1], ids[|ids| - 1];
      MembersSplit(ids);
      ReplayReprofiled(view, front, before, after);
      PickOneMore(view, Members(front), last, after);
      var change := CapabilitiesChanged(last, before[last], after[last]);
      ReplayOneMore(view, Reprofiled(front, before, after), change);
    }
  }

  lemma {:induction false} ReplayOneMore(view: View, changes: seq<Change>, change: Change)
    ensures Replay(view, changes + [change]) == Patch(Replay(view, changes), change)
    ensures Replay(view, changes + []) == Replay(view, changes)
  {
    assert (changes + [change])[..|changes|] == changes && changes + [] == changes;
  }

  lemma PickOneMore(view: View, ids: set<string>, last: string, after: AppMap)
    requires last in after
    ensures view + Pick(after, ids + {last}) == (view + Pick(after, ids))[last := ProfileOf(after[last])]
    ensures last in view && view[last] == ProfileOf(after[last]) ==>
              view + Pick(after, ids + {last}) == view + Pick(after, ids)
  {
  }

  lemma ArrivalsReplay(before: AppMap, after: AppMap)
    ensures Replay(Profiles(before), Arrivals(before, after)) == Profiles(before) + Pick(after, after.Keys - before.Keys)
  {
    ReplayAdded(Profiles(before), SortedSet(after.Keys - before.Keys), after);
    assert Members(SortedSet(after.Keys - before.Keys)) == after.Keys - before.Keys;
  }

  lemma {:induction false} DeparturesReplay(view: View, before: AppMap, after: AppMap)
    ensures Replay(view, Departures(before, after)) == view - (before.Keys - after.Keys)
  {
    ReplayRemoved(view, SortedSet(before.Keys - after.Keys), before);
    assert Members(SortedSet(before.Keys - after.Keys)) == before.Keys - after.Keys;
  }

  lemma {:induction false} ShiftsReplay(view: View, before: AppMap, after: AppMap)
    requires forall id :: id in before && id in after ==> id in view && view[id] == ProfileOf(before[id])
    ensures Replay(view, Shifts(before, after)) == view + Pick(after, before.Keys * after.Keys)
  {
    ReplayReprofiled(view, SortedSet(before.Keys * after.Keys), before, after);
    assert Members(SortedSet(before.Keys * after.Keys)) == before.Keys * after.Keys;
  }

  function Arrived(before: AppMap, after: AppMap): View
  {
    Profiles(before) + Pick(after, after.Keys - before.Keys)
  }

  function Departed(before: AppMap, after: AppMap): View
  {
    Arrived(before, after) - (before.Keys - after.Keys)
  }

  lemma ViewsMeet(before: AppMap, after: AppMap)
    ensures forall id :: id in before && id in after ==>
              id in Departed(before, after) && Departed(before, after)[id] == ProfileOf(before[id])
    ensures Departed(before, after) + Pick(after, before.Keys * after.Keys) == Profiles(after)
  {
  }

  lemma AppChangesReplay(before: AppMap, after: AppMap)
    ensures Replay(Profiles(before), AppChanges(before, after)) == Profiles(after)
  {
    var arrivals, departures, shifts := Arrivals(before, after), Departures(before, after), Shifts(before, after);
    ArrivalsReplay(before, after);
    DeparturesReplay(Arrived(before, after), before, after);
    ReplayAppend(Profiles(before), arrivals, departures);
    ViewsMeet(before, after);
    ShiftsReplay(Departed(before, after), before, after);
    ReplayAppend(Profiles(before), arrivals + departures, shifts);
  }

  /** Replaying a diff on the previous view gives the current view. */
  lemma DiffReplays(previous: Snapshot, current: Snapshot)
    ensures Replay(ViewOf(previous), Detect(previous, current)) == ViewOf(current)
  {
    if previous.data != current.data {
      var before, after := Applications(previous), Applications(current);
      AppChangesReplay(before, after);
      ReplayAppend(ViewOf(previous), AppChanges(before, after), HardwareChange(previous, current));
      HardwareLeavesView(ViewOf(current), previous, current);
    }
  }

  lemma {:induction false} HardwareLeavesView(view: View, previous: Snapshot, current: Snapshot)
    ensures Replay(view, HardwareChange(previous, current)) == view
  {
    var changes := HardwareChange(previous, current);
    if changes != [] { assert changes[..|changes| - 1] == [] && Replay(view, []) == view; }
  }

  // ------------------------------------------------------------- shape of one diff

  predicate AboutApp(c: Change) { !c.CapacityChanged? }

  predicate OncePerSubject(changes: seq<Change>)
  {
    forall i, j :: 0 <= i < j < |changes| && AboutApp(changes[i]) && AboutApp(changes[j]) ==>
      changes[i].subject != changes[j].subject
  }

  predicate SubjectsIn(changes: seq<Change>, ids: set<string>)
  {
    forall c :: c in changes ==> AboutApp(c) && c.subject in ids
  }

  lemma {:induction false} ReprofiledOnce(ids: seq<string>, before: AppMap, after: AppMap)
    requires forall id :: id in ids ==> id in before && id in after
    requires forall i, j :: 0 <= i < j < |ids| ==> ids[i] != ids[j]
    ensures OncePerSubject(Reprofiled(ids, before, after))
    ensures SubjectsIn(Reprofiled(ids, before, after), Members(ids))
  {
    if ids != [] {
      var front, last := ids[..|ids| - 1], ids[|ids| - 1];
      MembersSplit(ids);
      ReprofiledOnce(front, before, after);
      assert last !in front;
    }
  }

  lemma OnceConcat(a: seq<Change>, b: seq<Change>, idsA: set<string>, idsB: set<string>)
    requires OncePerSubject(a) && OncePerSubject(b) && SubjectsIn(a, idsA) && SubjectsIn(b, idsB) && idsA !! idsB
    ensures OncePerSubject(a + b) && SubjectsIn(a + b, idsA + idsB)
  {
    var all := a + b;
    forall i, j | 0 <= i < j < |all| && AboutApp(all[i]) && AboutApp(all[j])
      ensures all[i].subject != all[j].subject
    {
      if i < |a| { assert all[i] in a; }
      if j >= |a| { assert all[j] in b; }
    }
  }

  lemma AppChangesOnce(before: AppMap, after: AppMap)
    ensures OncePerSubject(AppChanges(before, after))
  {
    var come, gone, kept := after.Keys - before.Keys, before.Keys - after.Keys, before.Keys * after.Keys;
    ReprofiledOnce(SortedSet(kept), before, after);
    assert Members(SortedSet(kept)) == kept;
    OnceConcat(Arrivals(before, after), Departures(before, after), come, gone);
    OnceConcat(Arrivals(before, after) + Departures(before, after), Shifts(before, after), come + gone, kept);
  }

  lemma OnceThenHardware(changes: seq<Change>, rest: seq<Change>)
    requires OncePerSubject(changes) && forall i :: 0 <= i < |rest| ==> !AboutApp(rest[i])
    ensures OncePerSubject(changes + rest)
  {
  }

  lemma HardwareIsNoApp(previous: Snapshot, current: Snapshot)
    ensures forall i :: 0 <= i < |HardwareChange(previous, current)| ==> !AboutApp(HardwareChange(previous, current)[i])
  {
  }

  /** Within one diff each application is the subject of at most one change. */
  lemma DiffMentionsAppsOnce(previous: Snapshot, current: Snapshot)
    ensures OncePerSubject(Detect(previous, current))
  {
    if previous.data != current.data {
      var changes, rest := AppChanges(Applications(previous), Applications(current)), HardwareChange(previous, current);
      AppChangesOnce(Applications(previous), Applications(current));
      HardwareIsNoApp(previous, current);
      OnceThenHardware(changes, rest);
    }
  }

  lemma {:induction false} NothingReprofiled(ids: seq<string>, before: AppMap, after: AppMap)
    requires forall id :: id in ids ==> id in before && id in after && ProfileOf(before[id]) == ProfileOf(after[id])
    ensures Reprofiled(ids, before, after) == []
  {
    if ids != [] {
      MembersSplit(ids);
      NothingReprofiled(ids[..|ids| - 1], before, after);
    }
  }

  /** A diff reports no application exactly when the two views agree, whatever else moved. */
  lemma NoAppChangeIff(before: AppMap, after: AppMap)
    ensures AppChanges(before, after) == [] <==> Profiles(before) == Profiles(after)
  {
    if AppChanges(before, after) == [] {
      AppChangesReplay(before, after);
    }
    if Profiles(before) == Profiles(after) {
      assert before.Keys == Profiles(before).Keys == after.Keys;
      assert after.Keys - before.Keys == {} && before.Keys - after.Keys == {};
      forall id | id in before.Keys * after.Keys ensures ProfileOf(before[id]) == ProfileOf(after[id]) {
        assert Profiles(before)[id] == Profiles(after)[id];
      }
      NothingReprofiled(SortedSet(before.Keys * after.Keys), before, after);
    }
  }

  // --------------------------------------------------------- what a diff says, field by field

  /** The last entry with the id. */
  predicate IsLatest(apps: seq<App>, i: nat, id: string)
  {
    i < |apps| && apps[i].appId == id && forall j :: i < j < |apps| ==> apps[j].appId != id
  }

  lemma {:induction false} LatestEntryWins(apps: seq<App>, id: string)
    ensures forall i: nat :: IsLatest(apps, i, id) ==> id in AppsById(apps) && AppsById(apps)[id] == apps[i]
    ensures (forall i :: 0 <= i < |apps| ==> apps[i].appId != id) ==> id !in AppsById(apps)
  {
    if apps != [] {
      var front := apps[..|apps| - 1];
      LatestEntryWins(front, id);
      forall i: nat | IsLatest(apps, i, id) ensures id in AppsById(apps) && AppsById(apps)[id] == apps[i] {
        if i < |front| { assert IsLatest(front, i, id); }
      }
    }
  }

  lemma {:induction false} ReprofiledAre(ids: seq<string>, before: AppMap, after: AppMap, c: Change)
    requires forall id :: id in ids ==> id in before && id in after
    ensures c in Reprofiled(ids, before, after)
            <==> c.CapabilitiesChanged? && c.subject in ids && c.previous == before[c.subject] && c.current == after[c.subject]
                 && (c.previous.category != c.current.category || c.previous.capabilities != c.current.capabilities)
  {
    if ids != [] {
      MembersSplit(ids);
      ReprofiledAre(ids[..|ids| - 1], before, after, c);
      assert ids == ids[..|ids| - 1] + [ids[|ids| - 1]];
    }
  }

  lemma AddedAre(ids: seq<string>, after: AppMap, c: Change)
    requires forall id :: id in ids ==> id in after
    ensures c in Added(ids, after) <==> c.AppAdded? && c.subject in ids && c.current == after[c.subject]
  {
    if c.AppAdded? && c.subject in ids && c.current == after[c.subject] {
      var i :| 0 <= i < |ids| && ids[i] == c.subject;
      assert Added(ids, after)[i] == c;
    }
  }

  lemma RemovedAre(ids: seq<string>, before: AppMap, c: Change)
    requires forall id :: id in ids ==> id in before
    ensures c in Removed(ids, before) <==> c.AppRemoved? && c.subject in ids && c.previous == before[c.subject]
  {
    if c.AppRemoved? && c.subject in ids && c.previous == before[c.subject] {
      var i :| 0 <= i < |ids| && ids[i] == c.subject;
      assert Removed(ids, before)[i] == c;
    }
  }

  /** What a change between two application tables and two hardware reports has to be. */
  predicate Tells(c: Change, before: AppMap, after: AppMap, was: Option<Hardware>, now: Option<Hardware>)
  {
    match c
    case AppAdded(id, app) => id !in before && id in after && app == after[id]
    case AppRemoved(id, app) => id in before && id !in after && app == before[id]
    case CapabilitiesChanged(id, b, a) =>
      && id in before && id in after && b == before[id] && a == after[id]
      && (b.category != a.category || b.capabilities != a.capabilities)
    case CapacityChanged(b, a) => was == Some(b) && now == Some(a) && b.capacity != a.capacity
  }

  lemma AppChangesAre(before: AppMap, after: AppMap, c: Change)
    ensures c in AppChanges(before, after) <==> !c.CapacityChanged? && Tells(c, before, after, None, None)
  {
    AddedAre(SortedSet(after.Keys - before.Keys), after, c);
    RemovedAre(SortedSet(before.Keys - after.Keys), before, c);
    ReprofiledAre(SortedSet(before.Keys * after.Keys), before, after, c);
  }

  lemma HardwareChangeIs(previous: Snapshot, current: Snapshot, c: Change)
    ensures c in HardwareChange(previous, current)
            <==> c.CapacityChanged? && Tells(c, map[], map[], previous.data.hardware, current.data.hardware)
  {
  }

  lemma NothingToTell(apps: AppMap, hardware: Option<Hardware>, c: Change)
    ensures !Tells(c, apps, apps, hardware, hardware)
  {
  }

  /** A diff holds exactly these: an addition with the new entry for an id that is new, a
      removal with the old entry for an id that is gone, a capability change with both entries
      for an id whose category or capabilities differ, and a capacity change with both reports
      if both were made and their capacities differ. */
  lemma DiffTells(previous: Snapshot, current: Snapshot, c: Change)
    ensures c in Detect(previous, current)
            <==> Tells(c, Applications(previous), Applications(current), previous.data.hardware, current.data.hardware)
  {
    AppChangesAre(Applications(previous), Applications(current), c);
    HardwareChangeIs(previous, current, c);
    if previous.data == current.data { NothingToTell(Applications(previous), previous.data.hardware, c); }
  }

  // ------------------------------------------------------------------ the order of a diff

  function Rank(c: Change): nat
  {
    match c
    case AppAdded(_, _) => 0
    case AppRemoved(_, _) => 1
    case CapabilitiesChanged(_, _, _) => 2
    case CapacityChanged(_, _) => 3
  }

  predicate Precedes(c: Change, d: Change)
  {
    Rank(c) < Rank(d) || (Rank(c) == Rank(d) < 3 && c.subject != d.subject && Leq(c.subject, d.subject))
  }

  predicate InOrder(changes: seq<Change>) { forall i, j :: 0 <= i < j < |changes| ==> Precedes(changes[i], changes[j]) }

  lemma InOrderConcat(a: seq<Change>, b: seq<Change>)
    requires InOrder(a) && InOrder(b) && forall c, d :: c in a && d in b ==> Rank(c) < Rank(d)
    ensures InOrder(a + b)
  {
    forall i, j | 0 <= i < j < |a + b| ensures Precedes((a + b)[i], (a + b)[j]) {
      if i < |a| <= j { assert a[i] in a && b[j - |a|] in b; }
    }
  }

  predicate Ascending(ids: seq<string>) { forall i, j :: 0 <= i < j < |ids| ==> ids[i] != ids[j] && Leq(ids[i], ids[j]) }

  lemma {:induction false} ReprofiledInOrder(ids: seq<string>, before: AppMap, after: AppMap)
    requires Ascending(ids) && forall id :: id in ids ==> id in before && id in after
    ensures InOrder(Reprofiled(ids, before, after))
    ensures forall c :: c in Reprofiled(ids, before, after) ==> c.CapabilitiesChanged? && c.subject in ids
  {
    if ids != [] {
      var front, last := ids[..|ids| - 1], ids[|ids| - 1];
      MembersSplit(ids);
      ReprofiledInOrder(front, before, after);
      var rest := Reprofiled(front, before, after);
      forall i | 0 <= i < |rest| ensures rest[i].subject != last && Leq(rest[i].subject, last) {
        assert rest[i] in rest;
        var k :| 0 <= k < |front| && front[k] == rest[i].subject;
        assert ids[k] == front[k];
      }
    }
  }

  lemma ArrivalsInOrder(before: AppMap, after: AppMap)
    ensures InOrder(Arrivals(before, after)) && forall c :: c in Arrivals(before, after) ==> Rank(c) == 0
  {
  }

  lemma DeparturesInOrder(before: AppMap, after: AppMap)
    ensures InOrder(Departures(before, after)) && forall c :: c in Departures(before, after) ==> Rank(c) == 1
  {
  }

  lemma ShiftsInOrder(before: AppMap, after: AppMap)
    ensures InOrder(Shifts(before, after)) && forall c :: c in Shifts(before, after) ==> Rank(c) == 2
  {
    ReprofiledInOrder(SortedSet(before.Keys * after.Keys), before, after);
  }

  lemma AppChangesInOrder(before: AppMap, after: AppMap)
    ensures InOrder(AppChanges(before, after)) && forall c :: c in AppChanges(before, after) ==> Rank(c) < 3
  {
    ArrivalsInOrder(before, after);
    DeparturesInOrder(before, after);
    ShiftsInOrder(before, after);
    InOrderConcat(Arrivals(before, after), Departures(before, after));
    InOrderConcat(Arrivals(before, after) + Departures(before, after), Shifts(before, after));
  }

  lemma HardwareComesLast(changes: seq<Change>, previous: Snapshot, current: Snapshot)
    requires InOrder(changes) && forall c :: c in changes ==> Rank(c) < 3
    ensures InOrder(changes + HardwareChange(previous, current))
  {
    HardwareIsLast(previous, current);
    InOrderConcat(changes, HardwareChange(previous, current));
  }

  lemma JoinedInOrder(before: AppMap, after: AppMap, previous: Snapshot, current: Snapshot)
    ensures InOrder(AppChanges(before, after) + HardwareChange(previous, current))
  {
    AppChangesInOrder(before, after);
    HardwareComesLast(AppChanges(before, after), previous, current);
  }

  /** Additions come first, then removals, capability changes and the hardware; each kind by
      ascending id, no two changes of a kind for the same id. */
  lemma DiffIsOrdered(previous: Snapshot, current: Snapshot)
    ensures InOrder(Detect(previous, current))
  {
    if previous.data != current.data { JoinedInOrder(Applications(previous), Applications(current), previous, current); }
  }

  lemma HardwareIsLast(previous: Snapshot, current: Snapshot)
    ensures InOrder(HardwareChange(previous, current))
    ensures forall c :: c in HardwareChange(previous, current) ==> Rank(c) == 3
  {
  }

  // --------------------------------------------------------- replay over the plain fields

  /** Category and capabilities of each application. */
  type Facts = map<string, (string, seq<string>)>

  function FactsOf(apps: AppMap): Facts { map id | id in apps :: (apps[id].category, apps[id].capabilities) }

  function FactsOfView(view: View): Facts { map id | id in view :: (view[id].category, view[id].capabilities) }

  /** Apply changes one after the other, reading category and capabilities off the entries. */
  function ReplayFacts(facts: Facts, changes: seq<Change>): Facts
  {
    if changes == [] then facts
    else
      var before := ReplayFacts(facts, changes[..|changes| - 1]);
      match changes[|changes| - 1]
      case AppAdded(id, app) => before[id := (app.category, app.capabilities)]
      case AppRemoved(id, _) => before - {id}
      case CapabilitiesChanged(id, _, app) => before[id := (app.category, app.capabilities)]
      case CapacityChanged(_, _) => before
  }

  lemma {:induction false} ReplaysAgree(view: View, changes: seq<Change>)
    ensures FactsOfView(Replay(view, changes)) == ReplayFacts(FactsOfView(view), changes)
  {
    if changes != [] { ReplaysAgree(view, changes[..|changes| - 1]); }
  }

  /** Replaying a diff on the categories and capabilities of the previous applications gives
      those of the current ones. */
  lemma DiffReplaysFacts(previous: Snapshot, current: Snapshot)
    ensures ReplayFacts(FactsOf(Applications(previous)), Detect(previous, current)) == FactsOf(Applications(current))
  {
    DiffReplays(previous, current);
    ReplaysAgree(ViewOf(previous), Detect(previous, current));
    ViewFacts(previous);
    ViewFacts(current);
  }

  lemma ViewFacts(s: Snapshot)
    ensures FactsOfView(ViewOf(s)) == FactsOf(Applications(s))
  {
  }

  // ------------------------------------------------------------------ what sanitizing keeps

  predicate CutTo(long: string, short: string, limit: nat)
  {
    short <= long && (|short| == limit || (|short| < limit && short == long))
  }

  function NonEmpty(capabilities: seq<string>): set<nat> { set i: nat | i < |capabilities| && capabilities[i] != "" }

  predicate IsCutOf(c: string, capabilities: seq<string>)
  {
    exists long :: long in capabilities && long != "" && CutTo(long, c, 80)
  }

  lemma OneMoreCut(front: seq<string>, last: string, c: string)
    ensures IsCutOf(c, front + [last]) <==> IsCutOf(c, front) || (last != "" && CutTo(last, c, 80))
  {
    if IsCutOf(c, front) {
      var long :| long in front && long != "" && CutTo(long, c, 80);
      assert long in front + [last];
    }
    if last != "" && CutTo(last, c, 80) { assert last in front + [last]; }
  }

  lemma {:induction false} CutAllAre(capabilities: seq<string>)
    ensures |CutAll(capabilities)| == |NonEmpty(capabilities)|
    ensures forall c :: c in CutAll(capabilities) <==> IsCutOf(c, capabilities)
  {
    if capabilities != [] {
      var front, last := capabilities[..|capabilities| - 1], capabilities[|capabilities| - 1];
      assert capabilities == front + [last];
      CutAllAre(front);
      assert NonEmpty(capabilities) == NonEmpty(front) + if last == "" then {} else {|front|};
      CutIs(last, 80);
      forall c ensures c in CutAll(capabilities) <==> IsCutOf(c, capabilities) { OneMoreCut(front, last, c); }
    }
  }

  lemma CutIs(s: string, limit: nat)
    ensures forall c :: c == Cut(s, limit) <==> CutTo(s, c, limit)
  {
  }

  /** A clean entry keeps the id; name, category and source are cut to 160, 80 and 80
      characters, or to their defaults; its capabilities are the non-empty ones cut to 80, as
      many of them, in ascending order; its confidence lies between 0 and 1. */
  lemma CleanEntryIs(r: Reported)
    ensures var app := SanitizeApp(r);
            && app.appId == r.appId
            && CutTo(if r.name.Some? then r.name.value else "Application", app.name, 160)
            && CutTo(if r.category.Some? then r.category.value else "other", app.category, 80)
            && CutTo(if r.source.Some? then r.source.value else "application_knowledge", app.source, 80)
            && (forall c :: c in app.capabilities <==> IsCutOf(c, r.capabilities))
            && |app.capabilities| == |NonEmpty(r.capabilities)|
            && (forall i, j :: 0 <= i < j < |app.capabilities| ==> Leq(app.capabilities[i], app.capabilities[j]))
            && 0.0 <= app.confidence <= 1.0 && (0.0 <= r.confidence <= 1.0 ==> app.confidence == r.confidence)
  {
    var clean := CutAll(r.capabilities);
    CutAllAre(r.capabilities);
    SortSorted(clean, Itself);
    SortKeeps(clean);
    CutIs(if r.name.Some? then r.name.value else "Application", 160);
    CutIs(if r.category.Some? then r.category.value else "other", 80);
    CutIs(if r.source.Some? then r.source.value else "application_knowledge", 80);
  }

  lemma SortKeeps(s: seq<string>)
    ensures |Sort(s, Itself)| == |s| && forall c :: c in Sort(s, Itself) <==> c in s
  {
    var r := Sort(s, Itself);
    assert |multiset(r)| == |r| && |multiset(s)| == |s|;
    assert forall c :: c in r <==> c in multiset(r);
  }
}
