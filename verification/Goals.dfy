/** The goal registry and its inverted index from intents to goals. */
module Goals {

  datatype Goal = Goal(
    id: string, name: string, description: string, intents: seq<string>, capabilities: seq<string>,
    priority: int, keywords: seq<string>, enabled: bool)

  /** One entry of an update dictionary; `Forbidden` is a field outside the allowed set. */
  datatype FieldChange =
    | SetIntents(intents: seq<string>)
    | SetName(name: string)
    | SetDescription(description: string)
    | SetCapabilities(capabilities: seq<string>)
    | SetPriority(priority: int)
    | SetKeywords(keywords: seq<string>)
    | SetEnabled(enabled: bool)
    | Forbidden(field: string)

  type Index = map<string, seq<string>>

  /** `order` is the insertion order of the definitions. */
  datatype Registry = Registry(definitions: map<string, Goal>, order: seq<string>, index: Index)

  const EMPTY := Registry(map[], [], map[])

  // ------------------------------------------------------------------- index upkeep

  function Remove(ids: seq<string>, id: string): seq<string>
  {
    if ids == [] then [] else if ids[0] == id then ids[1..] else [ids[0]] + Remove(ids[1..], id)
  }

  /** `setdefault(intent, []).append(id)` */
  function Link(index: Index, intent: string, id: string): Index
  {
    index[intent := (if intent in index then index[intent] else []) + [id]]
  }

  /** Remove one listing, and the entry itself once it is empty. */
  function Unlink(index: Index, intent: string, id: string): Index
  {
    if intent !in index || id !in index[intent] then index
    else if Remove(index[intent], id) == [] then index - {intent}
    else index[intent := Remove(index[intent], id)]
  }

  function LinkAll(index: Index, intents: seq<string>, id: string): Index
  {
    if intents == [] then index else Link(LinkAll(index, intents[..|intents| - 1], id), intents[|intents| - 1], id)
  }

  function UnlinkAll(index: Index, intents: seq<string>, id: string): Index
  {
    if intents == [] then index else Unlink(UnlinkAll(index, intents[..|intents| - 1], id), intents[|intents| - 1], id)
  }

  // --------------------------------------------------------------------- operations

  function Register(r: Registry, goal: Goal): Registry
  {
    if goal.id in r.definitions then r
    else Registry(r.definitions[goal.id := goal], r.order + [goal.id], LinkAll(r.index, goal.intents, goal.id))
  }

  function Unregister(r: Registry, id: string): Registry
  {
    if id !in r.definitions then r
    else Registry(r.definitions - {id}, Remove(r.order, id), UnlinkAll(r.index, r.definitions[id].intents, id))
  }

  function SetField(goal: Goal, change: FieldChange): Goal
  {
    match change
    case SetIntents(intents) => goal.(intents := intents)
    case SetName(name) => goal.(name := name)
    case SetDescription(description) => goal.(description := description)
    case SetCapabilities(capabilities) => goal.(capabilities := capabilities)
    case SetPriority(priority) => goal.(priority := priority)
    case SetKeywords(keywords) => goal.(keywords := keywords)
    case SetEnabled(enabled) => goal.(enabled := enabled)
    case Forbidden(_) => goal
  }

  /** One entry of the update; `former` are the intents before the update began. */
  function ApplyChange(r: Registry, id: string, former: seq<string>, change: FieldChange): Registry
    requires id in r.definitions
  {
    var index' := if change.SetIntents? then LinkAll(UnlinkAll(r.index, former, id), change.intents, id) else r.index;
    r.(definitions := r.definitions[id := SetField(r.definitions[id], change)], index := index')
  }

  /** Entries take effect one by one until one is refused. */
  function ApplyChanges(r: Registry, id: string, former: seq<string>, changes: seq<FieldChange>): (r': Registry)
    requires id in r.definitions
    ensures id in r'.definitions
    decreases |changes|
  {
    if changes == [] || changes[0].Forbidden? then r
    else ApplyChanges(ApplyChange(r, id, former, changes[0]), id, former, changes[1..])
  }

  function Update(r: Registry, id: string, changes: seq<FieldChange>): Registry
  {
    if id !in r.definitions then r else ApplyChanges(r, id, r.definitions[id].intents, changes)
  }

  /** Dictionary keys are unique, so the intents are set at most once. */
  predicate IntentsOnce(changes: seq<FieldChange>)
  {
    forall i, j :: 0 <= i < j < |changes| ==> !(changes[i].SetIntents? && changes[j].SetIntents?)
  }

  // ------------------------------------------------------------------ the invariant

  function Listed(index: Index, intent: string, id: string): nat
  {
    if intent in index then multiset(index[intent])[id] else 0
  }

  function Wanted(definitions: map<string, Goal>, intent: string, id: string): nat
  {
    if id in definitions then multiset(definitions[id].intents)[intent] else 0
  }

  /** Every intent is mapped to exactly the multiset of goals listing it. */
  ghost predicate Mirrors(index: Index, definitions: map<string, Goal>)
  {
    && (forall intent, id :: Listed(index, intent, id) == Wanted(definitions, intent, id))
    && (forall intent :: intent in index ==> index[intent] != [])
  }

  predicate NoRepeats(ids: seq<string>) { forall i, j :: 0 <= i < j < |ids| ==> ids[i] != ids[j] }

  ghost predicate Ordered(r: Registry)
  {
    && (forall id :: id in r.order <==> id in r.definitions)
    && NoRepeats(r.order)
    && (forall id :: id in r.definitions ==> r.definitions[id].id == id)
  }

  ghost predicate Inv(r: Registry) { Mirrors(r.index, r.definitions) && Ordered(r) }

  lemma {:induction false} RemoveCounts(ids: seq<string>, id: string)
    ensures multiset(Remove(ids, id)) == multiset(ids) - multiset{id}
  {
    if ids != [] {
      FirstCounts(ids);
      if ids[0] == id {
        TakeBack(id, multiset(ids[1..]));
      } else {
        RemoveCounts(ids[1..], id);
        FirstCounts([ids[0]] + Remove(ids[1..], id));
        assert ([ids[0]] + Remove(ids[1..], id))[1..] == Remove(ids[1..], id);
        TakeOther(ids[0], id, multiset(ids[1..]));
      }
    }
  }

  lemma FirstCounts(ids: seq<string>)
    requires ids != []
    ensures multiset(ids) == multiset{ids[0]} + multiset(ids[1..])
  {
    assert ids == [ids[0]] + ids[1..];
  }

  lemma TakeBack(id: string, rest: multiset<string>)
    ensures multiset{id} + rest - multiset{id} == rest
  {
  }

  lemma TakeOther(first: string, id: string, rest: multiset<string>)
    requires first != id
    ensures multiset{first} + rest - multiset{id} == multiset{first} + (rest - multiset{id})
  {
  }

  lemma LinkCounts(index: Index, intent: string, id: string)
    ensures forall t, g :: Listed(Link(index, intent, id), t, g)
                           == Listed(index, t, g) + if t == intent && g == id then 1 else 0
  {
  }

  lemma UnlinkCounts(index: Index, intent: string, id: string)
    requires Listed(index, intent, id) > 0
    ensures forall t, g :: Listed(Unlink(index, intent, id), t, g)
                           == Listed(index, t, g) - if t == intent && g == id then 1 else 0
  {
    RemoveCounts(index[intent], id);
    assert id in index[intent];
  }

  predicate NoEmptyEntry(index: Index) { forall intent :: intent in index ==> index[intent] != [] }

  lemma {:induction false} LinkAllCounts(index: Index, intents: seq<string>, id: string)
    requires NoEmptyEntry(index)
    ensures NoEmptyEntry(LinkAll(index, intents, id))
    ensures forall t, g :: Listed(LinkAll(index, intents, id), t, g)
                           == Listed(index, t, g) + if g == id then multiset(intents)[t] else 0
  {
    if intents != [] {
      var front, last := intents[..|intents| - 1], intents[|intents| - 1];
      assert intents == front + [last];
      LinkAllCounts(index, front, id);
      LinkCounts(LinkAll(index, front, id), last, id);
    }
  }

  lemma {:induction false} UnlinkAllCounts(index: Index, intents: seq<string>, id: string)
    requires NoEmptyEntry(index)
    requires forall t :: Listed(index, t, id) >= multiset(intents)[t]
    ensures NoEmptyEntry(UnlinkAll(index, intents, id))
    ensures forall t, g :: Listed(UnlinkAll(index, intents, id), t, g)
                           == Listed(index, t, g) - if g == id then multiset(intents)[t] else 0
  {
    if intents != [] {
      var front, last := intents[..|intents| - 1], intents[|intents| - 1];
      assert intents == front + [last];
      forall t ensures Listed(index, t, id) >= multiset(front)[t] {
        assert multiset(intents)[t] >= multiset(front)[t];
      }
      UnlinkAllCounts(index, front, id);
      assert Listed(index, last, id) >= multiset(intents)[last] == multiset(front)[last] + 1;
      UnlinkCounts(UnlinkAll(index, front, id), last, id);
    }
  }

  lemma RegisterKeepsInv(r: Registry, goal: Goal)
    requires Inv(r)
    ensures Inv(Register(r, goal))
  {
    if goal.id !in r.definitions {
      LinkAllCounts(r.index, goal.intents, goal.id);
      var r' := Register(r, goal);
      forall t, g ensures Listed(r'.index, t, g) == Wanted(r'.definitions, t, g) {
        assert Listed(r.index, t, g) == Wanted(r.definitions, t, g);
      }
    }
  }

  lemma {:induction false} RemoveFromOrder(order: seq<string>, id: string)
    requires NoRepeats(order)
    ensures forall x :: x in Remove(order, id) <==> x in order && x != id
    ensures NoRepeats(Remove(order, id))
  {
    if order != [] {
      var head, tail := order[0], order[1..];
      assert forall i :: 0 <= i < |tail| ==> tail[i] == order[i + 1];
      assert head !in tail && NoRepeats(tail) && order == [head] + tail;
      RemoveFromOrder(tail, id);
    }
  }

  lemma UnregisterKeepsInv(r: Registry, id: string)
    requires Inv(r)
    ensures Inv(Unregister(r, id))
  {
    if id in r.definitions {
      forall t ensures Listed(r.index, t, id) >= multiset(r.definitions[id].intents)[t] {
        assert Listed(r.index, t, id) == Wanted(r.definitions, t, id);
      }
      UnlinkAllCounts(r.index, r.definitions[id].intents, id);
      RemoveFromOrder(r.order, id);
      var r' := Unregister(r, id);
      forall t, g ensures Listed(r'.index, t, g) == Wanted(r'.definitions, t, g) {
        assert Listed(r.index, t, g) == Wanted(r.definitions, t, g);
      }
    }
  }

  lemma ChangeKeepsInv(r: Registry, id: string, former: seq<string>, change: FieldChange)
    requires Inv(r) && id in r.definitions
    requires change.SetIntents? ==> r.definitions[id].intents == former
    ensures Inv(ApplyChange(r, id, former, change))
  {
    var r' := ApplyChange(r, id, former, change);
    if change.SetIntents? {
      forall t ensures Listed(r.index, t, id) >= multiset(former)[t] {
        assert Listed(r.index, t, id) == Wanted(r.definitions, t, id);
      }
      UnlinkAllCounts(r.index, former, id);
      LinkAllCounts(UnlinkAll(r.index, former, id), change.intents, id);
    }
    forall t, g ensures Listed(r'.index, t, g) == Wanted(r'.definitions, t, g) {
      assert Listed(r.index, t, g) == Wanted(r.definitions, t, g);
    }
  }

  lemma {:induction false} ChangesKeepInv(r: Registry, id: string, former: seq<string>, changes: seq<FieldChange>)
    requires Inv(r) && id in r.definitions && IntentsOnce(changes)
    requires (exists i :: 0 <= i < |changes| && changes[i].SetIntents?) ==> r.definitions[id].intents == former
    ensures Inv(ApplyChanges(r, id, former, changes))
    decreases |changes|
  {
    if changes != [] && !changes[0].Forbidden? {
      ChangeKeepsInv(r, id, former, changes[0]);
      var rest := changes[1..];
      assert forall i :: 0 <= i < |rest| ==> rest[i] == changes[i + 1];
      ChangesKeepInv(ApplyChange(r, id, former, changes[0]), id, former, rest);
    }
  }

  lemma UpdateKeepsInv(r: Registry, id: string, changes: seq<FieldChange>)
    requires Inv(r) && IntentsOnce(changes)
    ensures Inv(Update(r, id, changes))
  {
    if id in r.definitions { ChangesKeepInv(r, id, r.definitions[id].intents, changes); }
  }

  // ------------------------------------------------------------- what an update changes

  /** The goal holds what the entry sets. */
  predicate Holds(goal: Goal, change: FieldChange)
  {
    match change
    case SetIntents(intents) => goal.intents == intents
    case SetName(name) => goal.name == name
    case SetDescription(description) => goal.description == description
    case SetCapabilities(capabilities) => goal.capabilities == capabilities
    case SetPriority(priority) => goal.priority == priority
    case SetKeywords(keywords) => goal.keywords == keywords
    case SetEnabled(enabled) => goal.enabled == enabled
    case Forbidden(_) => true
  }

  predicate SameField(c: FieldChange, d: FieldChange)
  {
    match c
    case SetIntents(_) => d.SetIntents?
    case SetName(_) => d.SetName?
    case SetDescription(_) => d.SetDescription?
    case SetCapabilities(_) => d.SetCapabilities?
    case SetPriority(_) => d.SetPriority?
    case SetKeywords(_) => d.SetKeywords?
    case SetEnabled(_) => d.SetEnabled?
    case Forbidden(_) => d.Forbidden?
  }

  /** Entry j comes before every refused one. */
  predicate Effective(changes: seq<FieldChange>, j: nat)
  {
    j < |changes| && forall i :: 0 <= i <= j ==> !changes[i].Forbidden?
  }

  /** Entry j is the last effective one for its field. */
  ghost predicate Decides(changes: seq<FieldChange>, j: nat)
  {
    Effective(changes, j) && forall i: nat :: j < i && Effective(changes, i) ==> !SameField(changes[j], changes[i])
  }

  lemma SetFieldSets(goal: Goal, change: FieldChange, other: FieldChange)
    ensures Holds(SetField(goal, change), change)
    ensures SetField(goal, change).id == goal.id
    ensures !SameField(other, change) ==> (Holds(SetField(goal, change), other) <==> Holds(goal, other))
  {
  }

  lemma EffectiveShifts(changes: seq<FieldChange>, j: nat)
    requires changes != [] && !changes[0].Forbidden?
    ensures Effective(changes[1..], j) <==> Effective(changes, j + 1)
  {
    if Effective(changes[1..], j) {
      forall i | 0 <= i <= j + 1 ensures !changes[i].Forbidden? {
        if i > 0 { assert !changes[1..][i - 1].Forbidden?; }
      }
    }
    if Effective(changes, j + 1) {
      forall i | 0 <= i <= j ensures !changes[1..][i].Forbidden? { assert !changes[i + 1].Forbidden?; }
    }
  }

  ghost predicate Untouched(changes: seq<FieldChange>, other: FieldChange)
  {
    forall j: nat :: Effective(changes, j) ==> !SameField(other, changes[j])
  }

  lemma UntouchedShifts(changes: seq<FieldChange>, other: FieldChange)
    requires changes != [] && !changes[0].Forbidden?
    ensures Untouched(changes, other) <==> !SameField(other, changes[0]) && Untouched(changes[1..], other)
  {
    if Untouched(changes, other) {
      assert Effective(changes, 0);
      forall j: nat | Effective(changes[1..], j) ensures !SameField(other, changes[1..][j]) {
        EffectiveShifts(changes, j);
        assert !SameField(other, changes[j + 1]);
      }
    }
    if !SameField(other, changes[0]) && Untouched(changes[1..], other) {
      forall j: nat | Effective(changes, j) ensures !SameField(other, changes[j]) {
        if j > 0 {
          EffectiveShifts(changes, j - 1);
          assert !SameField(other, changes[1..][j - 1]);
        }
      }
    }
  }

  lemma {:induction false} UntouchedStays(r: Registry, id: string, former: seq<string>, changes: seq<FieldChange>, other: FieldChange)
    requires id in r.definitions && Untouched(changes, other)
    ensures Holds(ApplyChanges(r, id, former, changes).definitions[id], other) <==> Holds(r.definitions[id], other)
    decreases |changes|
  {
    if changes != [] && !changes[0].Forbidden? {
      UntouchedShifts(changes, other);
      UntouchedStays(ApplyChange(r, id, former, changes[0]), id, former, changes[1..], other);
      SetFieldSets(r.definitions[id], changes[0], other);
    }
  }

  lemma {:induction false} LastEntryDecides(r: Registry, id: string, former: seq<string>, changes: seq<FieldChange>, j: nat)
    requires id in r.definitions && Decides(changes, j)
    ensures Holds(ApplyChanges(r, id, former, changes).definitions[id], changes[j])
    decreases |changes|
  {
    assert !changes[0].Forbidden?;
    var next, rest := ApplyChange(r, id, former, changes[0]), changes[1..];
    if j == 0 {
      forall i: nat | Effective(rest, i) ensures !SameField(changes[0], rest[i]) {
        EffectiveShifts(changes, i);
        assert !SameField(changes[0], changes[i + 1]);
      }
      UntouchedStays(next, id, former, rest, changes[0]);
      SetFieldSets(r.definitions[id], changes[0], changes[0]);
    } else {
      EffectiveShifts(changes, j - 1);
      forall i: nat | j - 1 < i && Effective(rest, i) ensures !SameField(rest[j - 1], rest[i]) {
        EffectiveShifts(changes, i);
        assert !SameField(changes[j], changes[i + 1]);
      }
      LastEntryDecides(next, id, former, rest, j - 1);
    }
  }

  lemma {:induction false} OthersStay(r: Registry, id: string, former: seq<string>, changes: seq<FieldChange>)
    requires id in r.definitions
    ensures var r' := ApplyChanges(r, id, former, changes);
            && r'.order == r.order && r'.definitions.Keys == r.definitions.Keys
            && r'.definitions[id].id == r.definitions[id].id
            && forall other :: other in r.definitions && other != id ==> r'.definitions[other] == r.definitions[other]
    decreases |changes|
  {
    if changes != [] && !changes[0].Forbidden? {
      OthersStay(ApplyChange(r, id, former, changes[0]), id, former, changes[1..]);
      SetFieldSets(r.definitions[id], changes[0], changes[0]);
    }
  }

  /** An update leaves each field as the last entry before a refused one sets it, or as it
      was where no such entry names it; no other goal changes, and no goal moves. */
  lemma UpdateSets(r: Registry, id: string, changes: seq<FieldChange>)
    requires id in r.definitions
    ensures var r' := Update(r, id, changes);
            && r'.order == r.order && r'.definitions.Keys == r.definitions.Keys
            && r'.definitions[id].id == r.definitions[id].id
            && (forall j: nat :: Decides(changes, j) ==> Holds(r'.definitions[id], changes[j]))
            && (forall other :: Untouched(changes, other) ==>
                  (Holds(r'.definitions[id], other) <==> Holds(r.definitions[id], other)))
            && forall other :: other in r.definitions && other != id ==> r'.definitions[other] == r.definitions[other]
  {
    var former := r.definitions[id].intents;
    OthersStay(r, id, former, changes);
    forall j: nat | Decides(changes, j) ensures Holds(Update(r, id, changes).definitions[id], changes[j]) {
      LastEntryDecides(r, id, former, changes, j);
    }
    forall other | Untouched(changes, other)
      ensures Holds(Update(r, id, changes).definitions[id], other) <==> Holds(r.definitions[id], other)
    {
      UntouchedStays(r, id, former, changes, other);
    }
  }

  // ------------------------------------------------------------------------ all runs

  datatype Operation =
    | DoRegister(goal: Goal)
    | DoUnregister(id: string)
    | DoUpdate(id: string, changes: seq<FieldChange>)
    | DoClear

  function Perform(r: Registry, op: Operation): Registry
  {
    match op
    case DoRegister(goal) => Register(r, goal)
    case DoUnregister(id) => Unregister(r, id)
    case DoUpdate(id, changes) => if IntentsOnce(changes) then Update(r, id, changes) else r
    case DoClear => EMPTY
  }

  function Run(operations: seq<Operation>): Registry
  {
    if operations == [] then EMPTY
    else Perform(Run(operations[..|operations| - 1]), operations[|operations| - 1])
  }

  /** After any operations, refused and half-refused updates included, the index mirrors
      the definitions and has no empty entry. */
  lemma {:induction false} IndexAlwaysMirrors(operations: seq<Operation>)
    ensures Inv(Run(operations))
  {
    if operations != [] {
      var r := Run(operations[..|operations| - 1]);
      IndexAlwaysMirrors(operations[..|operations| - 1]);
      match operations[|operations| - 1]
      case DoRegister(goal) => RegisterKeepsInv(r, goal);
      case DoUnregister(id) => UnregisterKeepsInv(r, id);
      case DoUpdate(id, changes) => if IntentsOnce(changes) { UpdateKeepsInv(r, id, changes); }
      case DoClear =>
    }
  }

  // ------------------------------------------------------------------------- queries

  function IdsFor(index: Index, target: string): seq<string> { if target in index then index[target] else [] }

  function Lookup(ids: seq<string>, definitions: map<string, Goal>): seq<Goal>
    requires forall id :: id in ids ==> id in definitions
  {
    seq(|ids|, i requires 0 <= i < |ids| => assert ids[i] in ids; definitions[ids[i]])
  }

  /** The scan the index replaces: each goal as often as it lists the target. */
  function Scan(order: seq<string>, definitions: map<string, Goal>, target: string): multiset<Goal>
    requires forall id :: id in order ==> id in definitions
  {
    if order == [] then multiset{}
    else
      var goal := definitions[order[|order| - 1]];
      Scan(order[..|order| - 1], definitions, target)
      + multiset{}[goal := multiset(goal.intents)[target]]
  }

  lemma IndexedAreDefined(r: Registry, target: string)
    requires Inv(r)
    ensures forall id :: id in IdsFor(r.index, target) ==> id in r.definitions
  {
    forall id | id in IdsFor(r.index, target) ensures id in r.definitions {
      assert multiset(r.index[target])[id] > 0;
      assert Listed(r.index, target, id) == Wanted(r.definitions, target, id);
    }
  }

  lemma {:induction false} ScanCounts(order: seq<string>, definitions: map<string, Goal>, target: string)
    requires NoRepeats(order) && forall id :: id in order ==> id in definitions && definitions[id].id == id
    ensures forall g: Goal :: Scan(order, definitions, target)[g]
              == if g.id in order && definitions[g.id] == g then multiset(g.intents)[target] else 0
  {
    if order != [] {
      var front, last := order[..|order| - 1], order[|order| - 1];
      assert order == front + [last] && last !in front;
      ScanCounts(front, definitions, target);
    }
  }

  lemma {:induction false} LookupCounts(ids: seq<string>, definitions: map<string, Goal>)
    requires forall id :: id in ids ==> id in definitions && definitions[id].id == id
    ensures forall g: Goal :: multiset(Lookup(ids, definitions))[g]
              == if g.id in ids && definitions[g.id] == g then multiset(ids)[g.id] else 0
  {
    if ids != [] {
      var front, last := ids[..|ids| - 1], ids[|ids| - 1];
      assert ids == front + [last];
      LookupCounts(front, definitions);
      assert Lookup(ids, definitions) == Lookup(front, definitions) + [definitions[last]];
    }
  }

  /** `find_by_intent` returns the goals a scan finds, each as often as it lists the intent. */
  lemma FindAgreesWithScan(r: Registry, target: string)
    requires Inv(r)
    ensures forall id :: id in IdsFor(r.index, target) ==> id in r.definitions
    ensures multiset(Lookup(IdsFor(r.index, target), r.definitions)) == Scan(r.order, r.definitions, target)
  {
    var ids := IdsFor(r.index, target);
    IndexedAreDefined(r, target);
    ScanCounts(r.order, r.definitions, target);
    LookupCounts(ids, r.definitions);
    forall g: Goal
      ensures multiset(Lookup(ids, r.definitions))[g] == Scan(r.order, r.definitions, target)[g]
    {
      assert Listed(r.index, target, g.id) == Wanted(r.definitions, target, g.id);
      assert g.id in ids <==> multiset(ids)[g.id] > 0;
    }
  }

  /** It returns every registered goal exactly as often as the goal lists the intent. */
  lemma FoundAsOftenAsListed(r: Registry, target: string, g: Goal)
    requires Inv(r)
    ensures forall id :: id in IdsFor(r.index, target) ==> id in r.definitions
    ensures multiset(Lookup(IdsFor(r.index, target), r.definitions))[g]
            == if g.id in r.definitions && r.definitions[g.id] == g then multiset(g.intents)[target] else 0
  {
    FindAgreesWithScan(r, target);
    ScanCounts(r.order, r.definitions, target);
  }

  // ------------------------------------------------------- unregistering undoes registering

  function Times(id: string, n: nat): seq<string> { seq(n, _ => id) }

  lemma {:induction false} LinkedAtTheEnd(index: Index, intents: seq<string>, id: string, t: string)
    ensures IdsFor(LinkAll(index, intents, id), t) == IdsFor(index, t) + Times(id, multiset(intents)[t])
  {
    if intents != [] {
      var front, last := intents[..|intents| - 1], intents[|intents| - 1];
      assert intents == front + [last];
      LinkedAtTheEnd(index, front, id, t);
    }
  }

  lemma {:induction false} RemoveAdded(ids: seq<string>, id: string, n: nat)
    requires id !in ids && n > 0
    ensures Remove(ids + Times(id, n), id) == ids + Times(id, n - 1)
  {
    if ids != [] {
      assert (ids + Times(id, n))[1..] == ids[1..] + Times(id, n);
      RemoveAdded(ids[1..], id, n);
    }
  }

  lemma UnlinkTakes(index: Index, intent: string, id: string, ids: seq<string>, n: nat)
    requires IdsFor(index, intent) == ids + Times(id, n) && id !in ids && n > 0
    ensures IdsFor(Unlink(index, intent, id), intent) == ids + Times(id, n - 1)
  {
    RemoveAdded(ids, id, n);
    assert IdsFor(index, intent)[|ids|] == id;
  }

  lemma UnlinkElsewhere(index: Index, intent: string, id: string, t: string)
    requires t != intent
    ensures IdsFor(Unlink(index, intent, id), t) == IdsFor(index, t)
  {
  }

  lemma {:induction false} UnlinkedFromTheEnd(index: Index, intents: seq<string>, id: string, t: string, ids: seq<string>, n: nat)
    requires IdsFor(index, t) == ids + Times(id, n) && id !in ids && multiset(intents)[t] <= n
    ensures IdsFor(UnlinkAll(index, intents, id), t) == ids + Times(id, n - multiset(intents)[t])
  {
    if intents != [] {
      var front, last := intents[..|intents| - 1], intents[|intents| - 1];
      assert intents == front + [last];
      UnlinkedFromTheEnd(index, front, id, t, ids, n);
      if last == t {
        UnlinkTakes(UnlinkAll(index, front, id), last, id, ids, n - multiset(front)[t]);
      } else {
        UnlinkElsewhere(UnlinkAll(index, front, id), last, id, t);
      }
    }
  }

  lemma {:induction false} LinkThenUnlink(index: Index, intents: seq<string>, id: string, t: string)
    requires id !in IdsFor(index, t)
    ensures IdsFor(UnlinkAll(LinkAll(index, intents, id), intents, id), t) == IdsFor(index, t)
  {
    LinkedAtTheEnd(index, intents, id, t);
    UnlinkedFromTheEnd(LinkAll(index, intents, id), intents, id, t, IdsFor(index, t), multiset(intents)[t]);
  }

  lemma {:induction false} RemoveLast(ids: seq<string>, id: string)
    requires id !in ids
    ensures Remove(ids + [id], id) == ids
  {
    if ids != [] {
      assert (ids + [id])[1..] == ids[1..] + [id];
      RemoveLast(ids[1..], id);
    }
  }

  /** Unregistering a goal just registered restores the whole registry, the order within the
      index entries included. */
  lemma UnregisterUndoesRegister(r: Registry, goal: Goal)
    requires Inv(r) && goal.id !in r.definitions
    ensures Unregister(Register(r, goal), goal.id) == r
  {
    var r' := Unregister(Register(r, goal), goal.id);
    forall t ensures IdsFor(r'.index, t) == IdsFor(r.index, t) {
      IndexedAreDefined(r, t);
      LinkThenUnlink(r.index, goal.intents, goal.id, t);
    }
    RemoveLast(r.order, goal.id);
    RegisterKeepsInv(r, goal);
    UnregisterKeepsInv(Register(r, goal), goal.id);
    assert r'.definitions == r.definitions;
    forall t ensures t in r'.index <==> t in r.index { assert IdsFor(r'.index, t) == IdsFor(r.index, t); }
    forall t | t in r.index ensures r'.index[t] == r.index[t] { assert IdsFor(r'.index, t) == IdsFor(r.index, t); }
  }
}
