/** The registry object and its candidate search. */
module GoalRegistries {
  import opened Wrappers
  import opened Goals

  datatype Error = KeyError | ValueError

  datatype Kind = Exact | FuzzyIntent | Capability | Keyword

  datatype Match = Match(id: string, kind: Kind)

  /** The string comparisons of the search: token similarity above the threshold, and a
      word shared with a goal's name, description or keywords. */
  datatype Likeness = Likeness(similar: (string, string) -> bool, sharesWord: (string, Goal) -> bool)

  predicate Resembles(goal: Goal, target: string, like: Likeness)
  {
    exists ref :: ref in goal.intents && like.similar(target, ref)
  }

  predicate Offers(goal: Goal, target: string, like: Likeness)
  {
    exists cap :: cap in goal.capabilities && cap != target && like.similar(target, cap)
  }

  /** The first way, in search order, in which a goal matches. */
  function KindOf(r: Registry, id: string, target: string, like: Likeness): Option<Kind>
    requires id in r.definitions
  {
    if id in IdsFor(r.index, target) then Some(Exact)
    else if Resembles(r.definitions[id], target, like) then Some(FuzzyIntent)
    else if Offers(r.definitions[id], target, like) then Some(Capability)
    else if like.sharesWord(target, r.definitions[id]) then Some(Keyword)
    else None
  }

  /** Found in a stage before the one for `kind`. */
  predicate FoundEarlier(found: Option<Kind>, kind: Kind)
  {
    match found
    case Some(Exact) => kind != Exact
    case Some(FuzzyIntent) => kind == Capability || kind == Keyword
    case Some(Capability) => kind == Keyword
    case _ => false
  }

  /** What a later stage asks of a goal not found before. */
  predicate Asks(goal: Goal, target: string, like: Likeness, kind: Kind)
  {
    match kind
    case FuzzyIntent => Resembles(goal, target, like)
    case Capability => Offers(goal, target, like)
    case _ => like.sharesWord(target, goal)
  }

  lemma AskingFinds(r: Registry, id: string, target: string, like: Likeness, kind: Kind)
    requires id in r.definitions && kind != Exact
    ensures KindOf(r, id, target, like) == Some(kind)
            <==> !FoundEarlier(KindOf(r, id, target, like), kind) && Asks(r.definitions[id], target, like, kind)
  {
  }

  function OfKind(r: Registry, order: seq<string>, target: string, like: Likeness, kind: Kind): seq<Match>
    requires forall id :: id in order ==> id in r.definitions
  {
    if order == [] then []
    else
      var last := order[|order| - 1];
      OfKind(r, order[..|order| - 1], target, like, kind)
      + if KindOf(r, last, target, like) == Some(kind) then [Match(last, kind)] else []
  }

  function ExactMatches(ids: seq<string>): seq<Match>
  {
    seq(|ids|, i requires 0 <= i < |ids| => Match(ids[i], Exact))
  }

  function Candidates(r: Registry, target: string, like: Likeness): seq<Match>
    requires forall id :: id in r.order ==> id in r.definitions
  {
    ExactMatches(IdsFor(r.index, target)) + OfKind(r, r.order, target, like, FuzzyIntent)
    + OfKind(r, r.order, target, like, Capability) + OfKind(r, r.order, target, like, Keyword)
  }

  class GoalRegistry {
    var definitions: map<string, Goal>
    var order: seq<string>
    var intentIndex: Index

    constructor ()
      ensures Contents() == EMPTY && Valid()
    {
      definitions, order, intentIndex := map[], [], map[];
    }

    function Contents(): Registry
      reads this
    {
      Registry(definitions, order, intentIndex)
    }

    ghost predicate Valid()
      reads this
    {
      Inv(Contents())
    }

    method AddGoal(goal: Goal) returns (error: Option<Error>)
      requires Valid()
      modifies this
      ensures Valid() && Contents() == Register(old(Contents()), goal)
      ensures error == if goal.id in old(definitions) then Some(ValueError) else None
    {
      ghost var before := Contents();
      RegisterKeepsInv(before, goal);
      if goal.id in definitions {
        return Some(ValueError);
      }
      definitions, order := definitions[goal.id := goal], order + [goal.id];
      LinkIntents(goal.intents, goal.id);
      error := None;
    }

    method LinkIntents(intents: seq<string>, id: string)
      modifies this`intentIndex
      ensures intentIndex == LinkAll(old(intentIndex), intents, id)
    {
      for i := 0 to |intents|
        invariant intentIndex == LinkAll(old(intentIndex), intents[..i], id)
      {
        assert intents[..i + 1][..i] == intents[..i];
        var listed := if intents[i] in intentIndex then intentIndex[intents[i]] else [];
        intentIndex := intentIndex[intents[i] := listed + [id]];
      }
      assert intents[..|intents|] == intents;
    }

    method UnlinkIntents(intents: seq<string>, id: string)
      modifies this`intentIndex
      ensures intentIndex == UnlinkAll(old(intentIndex), intents, id)
    {
      for i := 0 to |intents|
        invariant intentIndex == UnlinkAll(old(intentIndex), intents[..i], id)
      {
        assert intents[..i + 1][..i] == intents[..i];
        if intents[i] in intentIndex && id in intentIndex[intents[i]] {
          var listed := Remove(intentIndex[intents[i]], id);
          intentIndex := intentIndex[intents[i] := listed];
          if listed == [] {
            intentIndex := intentIndex - {intents[i]};
            assert intentIndex == UnlinkAll(old(intentIndex), intents[..i], id) - {intents[i]};
          }
        }
      }
      assert intents[..|intents|] == intents;
    }

    method DropGoal(id: string) returns (error: Option<Error>)
      requires Valid()
      modifies this
      ensures Valid() && Contents() == Unregister(old(Contents()), id)
      ensures error == if id in old(definitions) then None else Some(KeyError)
    {
      UnregisterKeepsInv(Contents(), id);
      if id !in definitions {
        return Some(KeyError);
      }
      var goal := definitions[id];
      definitions, order := definitions - {id}, Remove(order, id);
      UnlinkIntents(goal.intents, id);
      error := None;
    }

    method ChangeGoal(id: string, changes: seq<FieldChange>) returns (error: Option<Error>)
      requires Valid() && IntentsOnce(changes)
      modifies this
      ensures Valid() && Contents() == Update(old(Contents()), id, changes)
      ensures error == if id !in old(definitions) then Some(KeyError)
                       else if exists i :: 0 <= i < |changes| && changes[i].Forbidden? then Some(ValueError) else None
    {
      ghost var before := Contents();
      UpdateKeepsInv(before, id, changes);
      if id !in definitions {
        return Some(KeyError);
      }
      var former := definitions[id].intents;
      for i := 0 to |changes|
        invariant id in definitions
        invariant ApplyChanges(Contents(), id, former, changes[i..]) == Update(before, id, changes)
        invariant forall k :: 0 <= k < i ==> !changes[k].Forbidden?
      {
        assert changes[i..][0] == changes[i] && changes[i..][1..] == changes[i + 1..];
        if changes[i].Forbidden? {
          return Some(ValueError);
        }
        if changes[i].SetIntents? {
          UnlinkIntents(former, id);
          LinkIntents(changes[i].intents, id);
        }
        definitions := definitions[id := SetField(definitions[id], changes[i])];
      }
      error := None;
    }

    method Clear()
      modifies this
      ensures Valid() && Contents() == EMPTY
    {
      definitions, order, intentIndex := map[], [], map[];
    }

    method FindByIntent(target: string) returns (goals: seq<Goal>)
      requires Valid()
      ensures forall id :: id in order ==> id in definitions
      ensures (forall id :: id in IdsFor(intentIndex, target) ==> id in definitions)
              && goals == Lookup(IdsFor(intentIndex, target), definitions)
      ensures multiset(goals) == Scan(order, definitions, target)
    {
      FindAgreesWithScan(Contents(), target);
      var ids := if target in intentIndex then intentIndex[target] else [];
      goals := [];
      for i := 0 to |ids|
        invariant goals == Lookup(ids, definitions)[..i]
      {
        assert ids[i] in ids;
        if ids[i] in definitions {
          goals := goals + [definitions[ids[i]]];
        }
      }
      assert goals == Lookup(IdsFor(Contents().index, target), definitions);
    }

    /** One later stage of the search: the goals not seen yet that match in its way. */
    method SearchStage(target: string, like: Likeness, kind: Kind, seen: set<string>)
      returns (found: seq<Match>, seen': set<string>)
      requires Valid() && kind != Exact
      requires forall id :: id in definitions ==>
        (id in seen <==> FoundEarlier(KindOf(Contents(), id, target, like), kind))
      ensures found == OfKind(Contents(), order, target, like, kind)
      ensures forall id :: id in definitions ==> (id in seen' <==> id in seen || KindOf(Contents(), id, target, like) == Some(kind))
    {
      found, seen' := [], seen;
      for i := 0 to |order|
        invariant found == OfKind(Contents(), order[..i], target, like, kind)
        invariant forall id :: id in definitions ==>
          (id in seen' <==> id in seen || (id in order[..i] && KindOf(Contents(), id, target, like) == Some(kind)))
      {
        var id := order[i];
        assert order[..i + 1][..i] == order[..i] && id !in order[..i];
        var goal := definitions[id];
        AskingFinds(Contents(), id, target, like, kind);
        if id !in seen' && Asks(goal, target, like, kind) {
          found := found + [Match(id, kind)];
          seen' := seen' + {id};
        }
      }
      assert order[..|order|] == order;
    }

    method ExactStage(target: string) returns (found: seq<Match>, seen: set<string>)
      requires Valid()
      ensures found == ExactMatches(IdsFor(Contents().index, target))
      ensures forall id :: id in seen <==> id in IdsFor(Contents().index, target)
    {
      IndexedAreDefined(Contents(), target);
      var ids := if target in intentIndex then intentIndex[target] else [];
      found, seen := [], {};
      for i := 0 to |ids|
        invariant found == ExactMatches(ids)[..i]
        invariant seen == set id | id in ids[..i]
      {
        assert ids[i] in ids;
        if ids[i] in definitions {
          found := found + [Match(ids[i], Exact)];
          seen := seen + {ids[i]};
        }
      }
    }

    method FindCandidates(target: string, like: Likeness) returns (found: seq<Match>)
      requires Valid()
      ensures found == Candidates(Contents(), target, like)
    {
      var seen, stage;
      found, seen := ExactStage(target);
      assert forall id :: id in seen ==> id in IdsFor(Contents().index, target);
      stage, seen := SearchStage(target, like, FuzzyIntent, seen);
      found := found + stage;
      stage, seen := SearchStage(target, like, Capability, seen);
      found := found + stage;
      stage, seen := SearchStage(target, like, Keyword, seen);
      found := found + stage;
    }
  }

  // -------------------------------------------------------------------- the search

  lemma {:induction false} OfKindMembers(r: Registry, order: seq<string>, target: string, like: Likeness, kind: Kind)
    requires NoRepeats(order) && forall id :: id in order ==> id in r.definitions
    ensures forall m :: m in OfKind(r, order, target, like, kind) <==>
              m.kind == kind && m.id in order && KindOf(r, m.id, target, like) == Some(kind)
    ensures DistinctIds(OfKind(r, order, target, like, kind))
  {
    if order != [] {
      var front, last := order[..|order| - 1], order[|order| - 1];
      assert order == front + [last] && last !in front;
      OfKindMembers(r, front, target, like, kind);
    }
  }

  predicate DistinctIds(matches: seq<Match>)
  {
    forall i, j :: 0 <= i < j < |matches| ==> matches[i].id != matches[j].id
  }

  lemma DistinctConcat(a: seq<Match>, b: seq<Match>)
    requires forall m, n :: m in a && n in b ==> m.id != n.id
    ensures DistinctIds(a + b) <==> DistinctIds(a) && DistinctIds(b)
  {
    if DistinctIds(a + b) {
      forall i, j | 0 <= i < j < |a| ensures a[i].id != a[j].id { assert (a + b)[i].id != (a + b)[j].id; }
      forall i, j | 0 <= i < j < |b| ensures b[i].id != b[j].id {
        assert (a + b)[|a| + i].id != (a + b)[|a| + j].id;
      }
    }
    if DistinctIds(a) && DistinctIds(b) {
      forall i, j | 0 <= i < j < |a + b| ensures (a + b)[i].id != (a + b)[j].id {
        if i < |a| <= j { assert a[i] in a && b[j - |a|] in b; }
      }
    }
  }

  lemma {:induction false} NoRepeatsIffCounts(ids: seq<string>)
    ensures NoRepeats(ids) <==> forall id :: multiset(ids)[id] <= 1
  {
    if ids != [] {
      var front, last := ids[..|ids| - 1], ids[|ids| - 1];
      assert ids == front + [last];
      NoRepeatsIffCounts(front);
      if NoRepeats(ids) {
        assert NoRepeats(front) && last !in front;
      } else if NoRepeats(front) {
        assert last in front;
        assert multiset(ids)[last] == multiset(front)[last] + 1 >= 2;
      } else {
        var id :| multiset(front)[id] > 1;
        assert multiset(ids)[id] > 1;
      }
    }
  }

  /** "exact" labels exactly the goals listing the target. */
  lemma ExactIff(r: Registry, target: string, like: Likeness, id: string)
    requires Inv(r)
    ensures Match(id, Exact) in Candidates(r, target, like)
            <==> id in r.definitions && target in r.definitions[id].intents
  {
    OfKindMembers(r, r.order, target, like, FuzzyIntent);
    OfKindMembers(r, r.order, target, like, Capability);
    OfKindMembers(r, r.order, target, like, Keyword);
    var ids := IdsFor(r.index, target);
    assert Match(id, Exact) in ExactMatches(ids) <==> id in ids by {
      if id in ids {
        var i :| 0 <= i < |ids| && ids[i] == id;
        assert ExactMatches(ids)[i] == Match(id, Exact);
      }
    }
    assert Listed(r.index, target, id) == Wanted(r.definitions, target, id);
    assert id in ids <==> Listed(r.index, target, id) > 0 by { assert id in ids <==> multiset(ids)[id] > 0; }
  }

  /** Every goal appears at most once exactly when no goal lists the target twice. */
  lemma OncePerGoalIff(r: Registry, target: string, like: Likeness)
    requires Inv(r)
    ensures DistinctIds(Candidates(r, target, like))
            <==> forall id :: id in r.definitions ==> multiset(r.definitions[id].intents)[target] <= 1
  {
    var ids := IdsFor(r.index, target);
    var exact := ExactMatches(ids);
    var fuzzy, capable, worded := OfKind(r, r.order, target, like, FuzzyIntent),
      OfKind(r, r.order, target, like, Capability), OfKind(r, r.order, target, like, Keyword);
    OfKindMembers(r, r.order, target, like, FuzzyIntent);
    OfKindMembers(r, r.order, target, like, Capability);
    OfKindMembers(r, r.order, target, like, Keyword);
    forall m | m in exact ensures m.id in ids {}
    DistinctConcat(exact, fuzzy);
    DistinctConcat(exact + fuzzy, capable);
    DistinctConcat(exact + fuzzy + capable, worded);
    assert Candidates(r, target, like) == exact + fuzzy + capable + worded;
    assert DistinctIds(Candidates(r, target, like)) <==> DistinctIds(exact);
    ExactDistinctIff(ids);
    RepeatedListingIff(r, target);
  }

  lemma RepeatedListingIff(r: Registry, target: string)
    requires Inv(r)
    ensures NoRepeats(IdsFor(r.index, target))
            <==> forall id :: id in r.definitions ==> multiset(r.definitions[id].intents)[target] <= 1
  {
    var ids := IdsFor(r.index, target);
    NoRepeatsIffCounts(ids);
    forall id ensures multiset(ids)[id] == Wanted(r.definitions, target, id) {
      assert Listed(r.index, target, id) == Wanted(r.definitions, target, id);
    }
    if NoRepeats(ids) {
      forall id | id in r.definitions ensures multiset(r.definitions[id].intents)[target] <= 1 {
        assert multiset(ids)[id] <= 1;
      }
    }
  }

  lemma ExactDistinctIff(ids: seq<string>)
    ensures DistinctIds(ExactMatches(ids)) <==> NoRepeats(ids)
  {
    if DistinctIds(ExactMatches(ids)) {
      forall i, j | 0 <= i < j < |ids| ensures ids[i] != ids[j] {
        assert ExactMatches(ids)[i].id != ExactMatches(ids)[j].id;
      }
    }
  }

  /** The goal matches in this way: it lists the target, has an intent similar to it, offers
      another capability similar to it, or shares a word with it. */
  predicate Way(goal: Goal, target: string, like: Likeness, kind: Kind)
  {
    match kind
    case Exact => target in goal.intents
    case FuzzyIntent => exists ref :: ref in goal.intents && like.similar(target, ref)
    case Capability => exists cap :: cap in goal.capabilities && cap != target && like.similar(target, cap)
    case Keyword => like.sharesWord(target, goal)
  }

  function Stage(kind: Kind): nat
  {
    match kind
    case Exact => 0
    case FuzzyIntent => 1
    case Capability => 2
    case Keyword => 3
  }

  /** The search finds exactly the registered goals that match in some way, each under the
      first such way. */
  lemma CandidatesAre(r: Registry, target: string, like: Likeness, m: Match)
    requires Inv(r)
    ensures m in Candidates(r, target, like)
            <==> m.id in r.definitions && Way(r.definitions[m.id], target, like, m.kind)
                 && forall kind :: Stage(kind) < Stage(m.kind) ==> !Way(r.definitions[m.id], target, like, kind)
  {
    ExactIff(r, target, like, m.id);
    OfKindMembers(r, r.order, target, like, FuzzyIntent);
    OfKindMembers(r, r.order, target, like, Capability);
    OfKindMembers(r, r.order, target, like, Keyword);
    IndexedAreDefined(r, target);
    ExactIsListed(r, target, m.id);
    assert m.kind == Exact || m !in ExactMatches(IdsFor(r.index, target));
    WaysAre(r, target, like, m);
    assert m.kind != Exact ==> (m in Candidates(r, target, like) <==> m in OfKind(r, r.order, target, like, m.kind));
  }

  lemma ExactIsListed(r: Registry, target: string, id: string)
    requires Inv(r)
    ensures id in IdsFor(r.index, target) <==> id in r.definitions && target in r.definitions[id].intents
  {
    var ids := IdsFor(r.index, target);
    assert Listed(r.index, target, id) == Wanted(r.definitions, target, id);
    assert id in ids <==> multiset(ids)[id] > 0;
  }

  lemma WaysAre(r: Registry, target: string, like: Likeness, m: Match)
    requires Inv(r)
    ensures m.id in r.definitions ==>
              (KindOf(r, m.id, target, like) == Some(m.kind)
               <==> Way(r.definitions[m.id], target, like, m.kind)
                    && forall kind :: Stage(kind) < Stage(m.kind) ==> !Way(r.definitions[m.id], target, like, kind))
  {
    ExactIsListed(r, target, m.id);
    if m.id in r.definitions {
      var goal := r.definitions[m.id];
      assert Way(goal, target, like, Exact) <==> m.id in IdsFor(r.index, target);
      assert Way(goal, target, like, FuzzyIntent) <==> Resembles(goal, target, like);
      assert Way(goal, target, like, Capability) <==> Offers(goal, target, like);
      assert Stage(Exact) < Stage(FuzzyIntent) < Stage(Capability) < Stage(Keyword);
    }
  }

  /** The first match comes before the second: found in an earlier stage, or in the same
      later stage and registered earlier. */
  predicate Before(order: seq<string>, m: Match, n: Match)
  {
    || Stage(m.kind) < Stage(n.kind)
    || (m.kind == n.kind && (m.kind == Exact || exists i, j :: 0 <= i < j < |order| && order[i] == m.id && order[j] == n.id))
  }

  predicate AllBefore(order: seq<string>, matches: seq<Match>)
  {
    forall i, j :: 0 <= i < j < |matches| ==> Before(order, matches[i], matches[j])
  }

  lemma {:induction false} StageInOrder(r: Registry, order: seq<string>, target: string, like: Likeness, kind: Kind)
    requires NoRepeats(order) && forall id :: id in order ==> id in r.definitions
    ensures AllBefore(order, OfKind(r, order, target, like, kind))
  {
    if order != [] {
      var front, last := order[..|order| - 1], order[|order| - 1];
      var found := OfKind(r, front, target, like, kind);
      assert order == front + [last];
      StageInOrder(r, front, target, like, kind);
      OfKindMembers(r, front, target, like, kind);
      forall i, j | 0 <= i < j < |found| ensures Before(order, found[i], found[j]) {
        StillBefore(front, last, found[i], found[j]);
      }
      forall i | 0 <= i < |found| ensures Before(order, found[i], Match(last, kind)) {
        assert found[i] in found;
        var k :| 0 <= k < |front| && front[k] == found[i].id;
        assert order[k] == found[i].id && order[|front|] == last;
      }
    }
  }

  lemma StillBefore(front: seq<string>, last: string, m: Match, n: Match)
    requires Before(front, m, n)
    ensures Before(front + [last], m, n)
  {
    if i, j :| 0 <= i < j < |front| && front[i] == m.id && front[j] == n.id {
      assert (front + [last])[i] == m.id && (front + [last])[j] == n.id;
    }
  }

  lemma BeforeConcat(order: seq<string>, a: seq<Match>, b: seq<Match>)
    requires AllBefore(order, a) && AllBefore(order, b)
    requires forall m, n :: m in a && n in b ==> Stage(m.kind) < Stage(n.kind)
    ensures AllBefore(order, a + b)
  {
    forall i, j | 0 <= i < j < |a + b| ensures Before(order, (a + b)[i], (a + b)[j]) {
      if i < |a| <= j { assert a[i] in a && b[j - |a|] in b; }
    }
  }

  /** The stages follow one another, and every stage after the first goes by registration. */
  lemma CandidatesInOrder(r: Registry, target: string, like: Likeness)
    requires Inv(r)
    ensures AllBefore(r.order, Candidates(r, target, like))
  {
    var exact := ExactMatches(IdsFor(r.index, target));
    var fuzzy, capable, worded := OfKind(r, r.order, target, like, FuzzyIntent),
      OfKind(r, r.order, target, like, Capability), OfKind(r, r.order, target, like, Keyword);
    OfKindMembers(r, r.order, target, like, FuzzyIntent);
    OfKindMembers(r, r.order, target, like, Capability);
    OfKindMembers(r, r.order, target, like, Keyword);
    StageInOrder(r, r.order, target, like, FuzzyIntent);
    StageInOrder(r, r.order, target, like, Capability);
    StageInOrder(r, r.order, target, like, Keyword);
    BeforeConcat(r.order, exact, fuzzy);
    BeforeConcat(r.order, exact + fuzzy, capable);
    BeforeConcat(r.order, exact + fuzzy + capable, worded);
    assert Candidates(r, target, like) == exact + fuzzy + capable + worded;
  }
}
