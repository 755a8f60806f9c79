/** Trimming a conversation to a token budget. */
module ContextTrim {

  datatype Message = Message(role: string, content: string)

  /** Two ways to price a message: role and content tokens plus four of overhead, or a
      quarter of the content's length and at least one. */
  datatype Pricing = Tokens(count: string -> nat) | Estimate

  function Cost(price: Pricing, m: Message): nat
  {
    match price
    case Tokens(count) => count(m.role) + count(m.content) + 4
    case Estimate => if |m.content| / 4 < 1 then 1 else |m.content| / 4
  }

  predicate IsSystem(m: Message) { m.role == "system" }

  function Systems(messages: seq<Message>): seq<Message>
  {
    if messages == [] then []
    else if IsSystem(messages[0]) then [messages[0]] + Systems(messages[1..])
    else Systems(messages[1..])
  }

  function Others(messages: seq<Message>): seq<Message>
  {
    if messages == [] then []
    else if IsSystem(messages[0]) then Others(messages[1..])
    else [messages[0]] + Others(messages[1..])
  }

  function Sum(messages: seq<Message>, price: Pricing): nat
  {
    if messages == [] then 0 else Cost(price, messages[0]) + Sum(messages[1..], price)
  }

  /** `messages[k..]` is the longest suffix whose sum stays within `room`; it is empty when
      nothing fits. */
  predicate LongestSuffix(messages: seq<Message>, k: nat, price: Pricing, room: int)
  {
    && k <= |messages|
    && (k < |messages| ==> Sum(messages[k..], price) <= room)
    && forall j :: 0 <= j < k ==> Sum(messages[j..], price) > room
  }

  /** Where that suffix begins: the first position from which on everything fits. */
  function SuffixStart(messages: seq<Message>, price: Pricing, room: int): (k: nat)
    ensures k <= |messages|
  {
    if messages == [] || Sum(messages, price) <= room then 0 else 1 + SuffixStart(messages[1..], price, room)
  }

  function Suffix(messages: seq<Message>, price: Pricing, room: int): seq<Message>
  {
    messages[SuffixStart(messages, price, room)..]
  }

  lemma {:induction false} SuffixIsLongest(messages: seq<Message>, k: nat, price: Pricing, room: int)
    ensures LongestSuffix(messages, k, price, room) <==> k == SuffixStart(messages, price, room)
  {
    SuffixStartFits(messages, price, room);
    var start := SuffixStart(messages, price, room);
    if k <= |messages| { var _, _ := Sum(messages[k..], price), Sum(messages[start..], price); }
  }

  lemma {:induction false} OneMoreBehind(messages: seq<Message>, k: nat, price: Pricing, room: int)
    requires messages != [] && Sum(messages, price) > room && LongestSuffix(messages[1..], k, price, room)
    ensures LongestSuffix(messages, k + 1, price, room)
  {
    assert messages[k + 1..] == messages[1..][k..] && messages[0..] == messages;
    forall j | 0 <= j < k + 1 ensures Sum(messages[j..], price) > room {
      if j > 0 { assert messages[j..] == messages[1..][j - 1..]; }
    }
  }

  lemma {:induction false} SuffixStartFits(messages: seq<Message>, price: Pricing, room: int)
    ensures LongestSuffix(messages, SuffixStart(messages, price, room), price, room)
  {
    if messages != [] && Sum(messages, price) > room {
      SuffixStartFits(messages[1..], price, room);
      OneMoreBehind(messages, SuffixStart(messages[1..], price, room), price, room);
    } else {
      assert messages[0..] == messages;
    }
  }

  lemma {:induction false} SumConcat(a: seq<Message>, b: seq<Message>, price: Pricing)
    ensures Sum(a + b, price) == Sum(a, price) + Sum(b, price)
  {
    if a == [] {
      assert a + b == b;
    } else {
      assert (a + b)[1..] == a[1..] + b;
      SumConcat(a[1..], b, price);
    }
  }

  lemma {:induction false} SumOfPermuted(a: seq<Message>, b: seq<Message>, price: Pricing)
    requires |a| == |b| && forall i :: 0 <= i < |a| ==> b[i] == a[|a| - 1 - i]
    ensures Sum(a, price) == Sum(b, price)
  {
    if a != [] {
      var last := a[|a| - 1];
      SumOfPermuted(a[..|a| - 1], b[1..], price);
      assert a == a[..|a| - 1] + [last];
      SumConcat(a[..|a| - 1], [last], price);
    }
  }

  lemma {:induction false} LongerCostsMore(messages: seq<Message>, j: nat, k: nat, price: Pricing)
    requires j <= k <= |messages|
    ensures Sum(messages[j..], price) >= Sum(messages[k..], price)
    decreases k - j
  {
    if j < k { LongerCostsMore(messages, j + 1, k, price); }
  }

  lemma {:induction false} Partition(messages: seq<Message>)
    ensures forall m :: m in Systems(messages) <==> m in messages && IsSystem(m)
    ensures forall m :: m in Others(messages) <==> m in messages && !IsSystem(m)
    ensures |Systems(messages)| + |Others(messages)| == |messages|
    ensures multiset(Systems(messages)) + multiset(Others(messages)) == multiset(messages)
  {
    if messages != [] {
      Partition(messages[1..]);
      assert messages == [messages[0]] + messages[1..];
    }
  }

  lemma {:induction false} AllOneKind(messages: seq<Message>)
    ensures (forall m :: m in messages ==> !IsSystem(m)) ==> Others(messages) == messages && Systems(messages) == []
    ensures (forall m :: m in messages ==> IsSystem(m)) ==> Others(messages) == [] && Systems(messages) == messages
  {
    if messages != [] {
      AllOneKind(messages[1..]);
      assert messages[0] in messages;
    }
  }

  lemma {:induction false} SystemsConcat(a: seq<Message>, b: seq<Message>)
    ensures Systems(a + b) == Systems(a) + Systems(b)
  {
    if a == [] {
      assert a + b == b;
    } else {
      assert (a + b)[1..] == a[1..] + b;
      SystemsConcat(a[1..], b);
    }
  }

  lemma {:induction false} OthersConcat(a: seq<Message>, b: seq<Message>)
    ensures Others(a + b) == Others(a) + Others(b)
  {
    if a == [] {
      assert a + b == b;
    } else {
      assert (a + b)[1..] == a[1..] + b;
      OthersConcat(a[1..], b);
    }
  }

  /** The messages whose role is "system", and the others, each in order. */
  lemma {:induction false} OneMoreMessage(messages: seq<Message>, m: Message)
    ensures Systems(messages + [m]) == if m.role == "system" then Systems(messages) + [m] else Systems(messages)
    ensures Others(messages + [m]) == if m.role == "system" then Others(messages) else Others(messages) + [m]
  {
    SystemsConcat(messages, [m]);
    OthersConcat(messages, [m]);
    assert [m][1..] == [];
  }

  function Reversed(s: seq<Message>): (r: seq<Message>)
    ensures |r| == |s| && forall i :: 0 <= i < |s| ==> r[i] == s[|s| - 1 - i]
  {
    seq(|s|, i requires 0 <= i < |s| => s[|s| - 1 - i])
  }

  /** All system messages, then the longest suffix of the others within `room`. */
  function Beside(messages: seq<Message>, price: Pricing, room: int): seq<Message>
  {
    Systems(messages) + Suffix(Others(messages), price, room)
  }

  // ------------------------------------------------------ the context-window trimmer

  function CountTokens(messages: seq<Message>, tokens: string -> nat): nat { Sum(messages, Tokens(tokens)) + 2 }

  function Floor2(n: int): int { n / 2 }

  function TrimBudget(maxTokens: int, reserve: nat): int
  {
    var half := Floor2(maxTokens);
    var budget := if maxTokens - reserve > half then maxTokens - reserve else half;
    if budget <= 0 then maxTokens else budget
  }

  /** A conversation that fits stays; otherwise all system messages, then the longest suffix
      of the others that fits beside them. */
  function Trimmed(messages: seq<Message>, maxTokens: int, reserve: nat, tokens: string -> nat): seq<Message>
  {
    if CountTokens(messages, tokens) <= maxTokens || messages == [] then messages
    else
      Beside(messages, Tokens(tokens), TrimBudget(maxTokens, reserve) - CountTokens(Systems(messages), tokens))
  }

  lemma ReversedConcat(a: seq<Message>, b: seq<Message>)
    ensures Reversed(a + b) == Reversed(b) + Reversed(a)
  {
  }

  lemma ReversedOne(m: Message)
    ensures Reversed([m]) == [m] && Reversed([]) == []
  {
  }

  lemma Regroup(a: seq<Message>, b: seq<Message>, m: Message)
    ensures a + b + [m] == a + (b + [m])
  {
  }

  lemma {:induction false} TrialCost(systems: seq<Message>, others: seq<Message>, i: nat, price: Pricing)
    requires i <= |others|
    ensures Sum(systems + Reversed(others[i..]), price) == Sum(systems, price) + Sum(others[i..], price)
    ensures i > 0 ==> systems + Reversed(others[i..]) + [others[i - 1]] == systems + Reversed(others[i - 1..])
    ensures i > 0 ==> Sum(others[i - 1..], price) == Cost(price, others[i - 1]) + Sum(others[i..], price)
  {
    SumConcat(systems, Reversed(others[i..]), price);
    SumOfPermuted(others[i..], Reversed(others[i..]), price);
    if i > 0 {
      var m := others[i - 1];
      assert others[i - 1..] == [m] + others[i..];
      ReversedConcat([m], others[i..]);
      ReversedOne(m);
      Regroup(systems, Reversed(others[i..]), m);
    }
  }

  lemma {:induction false} StopsAtLongest(others: seq<Message>, i: nat, price: Pricing, room: int)
    requires 0 < i <= |others| && Sum(others[i - 1..], price) > room
    requires i < |others| ==> Sum(others[i..], price) <= room
    ensures LongestSuffix(others, i, price, room)
  {
    forall j | 0 <= j < i ensures Sum(others[j..], price) > room { LongerCostsMore(others, j, i - 1, price); }
  }

  lemma {:induction false} RestoreOrder(systems: seq<Message>, tail: seq<Message>)
    requires forall m :: m in systems ==> IsSystem(m)
    ensures Reversed(Others(systems + Reversed(tail))) == Others(tail)
  {
    OthersConcat(systems, Reversed(tail));
    AllOneKind(systems);
    OthersReversed(tail);
    assert [] + Others(Reversed(tail)) == Others(Reversed(tail));
  }

  lemma {:induction false} Rearranged(systems: seq<Message>, tail: seq<Message>, kept: seq<Message>)
    requires kept == systems + Reversed(tail) && forall m :: m in systems ==> IsSystem(m)
    ensures Reversed(Others(kept)) == Others(tail)
  {
    RestoreOrder(systems, tail);
  }

  lemma {:induction false} SuffixOfOthers(messages: seq<Message>, price: Pricing, room: int, tail: seq<Message>)
    requires tail == Suffix(Others(messages), price, room)
    ensures Others(tail) == tail
  {
    OthersOfOthers(messages, SuffixStart(Others(messages), price, room));
  }

  /** The other messages gathered from the back, put in order behind the system messages. */
  function InOrder(systems: seq<Message>, kept: seq<Message>): seq<Message> { systems + Reversed(Others(kept)) }

  /** Filtering and reversing what was gathered from the back puts it beside the system messages. */
  lemma {:induction false} GatheredIsBeside(messages: seq<Message>, price: Pricing, room: int, kept: seq<Message>)
    requires kept == Systems(messages) + Reversed(Suffix(Others(messages), price, room))
    ensures InOrder(Systems(messages), kept) == Beside(messages, price, room)
  {
    var tail := Suffix(Others(messages), price, room);
    SystemsAreSystems(messages);
    Rearranged(Systems(messages), tail, kept);
    SuffixOfOthers(messages, price, room, tail);
  }

  lemma {:induction false} OthersOfOthers(messages: seq<Message>, i: nat)
    requires i <= |Others(messages)|
    ensures Others(Others(messages)[i..]) == Others(messages)[i..]
  {
    Partition(messages);
    forall m | m in Others(messages)[i..] ensures !IsSystem(m) { assert m in Others(messages); }
    AllOneKind(Others(messages)[i..]);
  }

  lemma {:induction false} OthersReversed(s: seq<Message>)
    ensures Reversed(Others(Reversed(s))) == Others(s)
  {
    if s != [] {
      var head, tail := s[0], s[1..];
      OthersReversed(tail);
      assert s == [head] + tail;
      ReversedConcat([head], tail);
      ReversedOne(head);
      OthersConcat(Reversed(tail), [head]);
      OthersOfOne(head);
      ReversedConcat(Others(Reversed(tail)), Others([head]));
    }
  }

  lemma OthersOfOne(m: Message)
    ensures Others([m]) == if IsSystem(m) then [] else [m]
    ensures Reversed(Others([m])) == Others([m])
  {
    assert [m][1..] == [];
    ReversedOne(m);
  }

  /** The loop of the trimmer: from the newest message back, until one does not fit. */
  method KeepNewest(systems: seq<Message>, others: seq<Message>, budget: int, tokens: string -> nat)
    returns (kept: seq<Message>)
    ensures kept == systems + Reversed(Suffix(others, Tokens(tokens), budget - CountTokens(systems, tokens)))
  {
    ghost var room := budget - CountTokens(systems, tokens);
    kept := systems;
    var i := |others|;
    assert Reversed(others[i..]) == [];
    while i > 0
      invariant 0 <= i <= |others|
      invariant kept == systems + Reversed(others[i..])
      invariant i < |others| ==> Sum(others[i..], Tokens(tokens)) <= room
      decreases i
    {
      var trial := kept + [others[i - 1]];
      TrialCost(systems, others, i, Tokens(tokens));
      TrialCost(systems, others, i - 1, Tokens(tokens));
      if CountTokens(trial, tokens) > budget {
        StopsAtLongest(others, i, Tokens(tokens), room);
        break;
      }
      kept := trial;
      i := i - 1;
    }
    SuffixIsLongest(others, i, Tokens(tokens), room);
  }

  method TrimToBudget(messages: seq<Message>, budget: int, tokens: string -> nat) returns (result: seq<Message>)
    ensures result == Beside(messages, Tokens(tokens), budget - CountTokens(Systems(messages), tokens))
  {
    var systems, others := Systems(messages), Others(messages);
    var kept := KeepNewest(systems, others, budget, tokens);
    GatheredIsBeside(messages, Tokens(tokens), budget - CountTokens(systems, tokens), kept);
    result := InOrder(systems, kept);
  }

  method TrimMessages(messages: seq<Message>, maxTokens: int, reserve: nat, tokens: string -> nat)
    returns (result: seq<Message>)
    ensures result == Trimmed(messages, maxTokens, reserve, tokens)
  {
    if messages == [] || CountTokens(messages, tokens) <= maxTokens {
      return messages;
    }
    result := TrimToBudget(messages, TrimBudget(maxTokens, reserve), tokens);
  }

  lemma {:induction false} SystemsAreSystems(messages: seq<Message>)
    ensures forall m :: m in Systems(messages) ==> IsSystem(m)
  {
    Partition(messages);
  }

  lemma {:induction false} BesideFits(messages: seq<Message>, price: Pricing, room: int)
    ensures var result := Beside(messages, price, room);
            && (Sum(result, price) <= Sum(Systems(messages), price) + room || result == Systems(messages))
            && |result| <= |Systems(messages)| + |Others(messages)|
  {
    SuffixStartFits(Others(messages), price, room);
    SumConcat(Systems(messages), Suffix(Others(messages), price, room), price);
  }

  lemma BudgetIsWithin(maxTokens: int, reserve: nat)
    ensures TrimBudget(maxTokens, reserve) <= maxTokens
  {
  }

  lemma {:induction false} SizesAddUp(messages: seq<Message>)
    ensures |Systems(messages)| + |Others(messages)| == |messages|
  {
    if messages != [] { SizesAddUp(messages[1..]); }
  }

  predicate FitsOrSystems(messages: seq<Message>, result: seq<Message>, maxTokens: int, tokens: string -> nat)
  {
    (CountTokens(result, tokens) <= maxTokens || result == Systems(messages)) && |result| <= |messages|
  }

  lemma {:induction false} WithinBudget(messages: seq<Message>, budget: int, maxTokens: int, tokens: string -> nat)
    requires budget <= maxTokens
    ensures FitsOrSystems(messages, Beside(messages, Tokens(tokens), budget - CountTokens(Systems(messages), tokens)),
                          maxTokens, tokens)
  {
    SizesAddUp(messages);
    BesideFits(messages, Tokens(tokens), budget - CountTokens(Systems(messages), tokens));
  }

  lemma {:induction false} OverBudgetFits(messages: seq<Message>, maxTokens: int, reserve: nat, tokens: string -> nat)
    ensures FitsOrSystems(messages, Beside(messages, Tokens(tokens),
                                           TrimBudget(maxTokens, reserve) - CountTokens(Systems(messages), tokens)), maxTokens, tokens)
  {
    BudgetIsWithin(maxTokens, reserve);
    WithinBudget(messages, TrimBudget(maxTokens, reserve), maxTokens, tokens);
  }

  /** The trimmed conversation fits the window unless only the system messages are left. */
  lemma TrimFits(messages: seq<Message>, maxTokens: int, reserve: nat, tokens: string -> nat)
    ensures FitsOrSystems(messages, Trimmed(messages, maxTokens, reserve, tokens), maxTokens, tokens)
  {
    if messages == [] {
      assert Systems([]) == [];
    } else if CountTokens(messages, tokens) > maxTokens {
      OverBudgetFits(messages, maxTokens, reserve, tokens);
    }
  }

  /** The budget of a conversation that does not fit: what is left beside the reserve, but
      at least half the window; the whole window where neither is positive. */
  predicate IsBudget(budget: int, maxTokens: int, reserve: nat)
  {
    var largest := (b: int) => maxTokens - reserve <= b && maxTokens <= 2 * b + 1
                               && (b == maxTokens - reserve || 2 * b <= maxTokens);
    || (budget > 0 && largest(budget))
    || (budget == maxTokens && maxTokens <= reserve && maxTokens <= 1)
  }

  lemma {:induction false} PricesAre(messages: seq<Message>, m: Message, tokens: string -> nat)
    ensures CountTokens([], tokens) == 2
    ensures CountTokens(messages + [m], tokens) == CountTokens(messages, tokens) + tokens(m.role) + tokens(m.content) + 4
    ensures 4 <= |m.content| ==> 4 * Cost(Estimate, m) <= |m.content| < 4 * Cost(Estimate, m) + 4
    ensures |m.content| < 4 ==> Cost(Estimate, m) == 1
    ensures Sum(messages + [m], Estimate) == Sum(messages, Estimate) + Cost(Estimate, m)
  {
    SumConcat(messages, [m], Tokens(tokens));
    SumConcat(messages, [m], Estimate);
    assert [m][1..] == [];
  }

  /** The others from the k-th on fit the budget behind the system messages, and one more
      would not. */
  predicate IsTight(systems: seq<Message>, others: seq<Message>, k: nat, budget: int, tokens: string -> nat)
  {
    && k <= |others|
    && (k < |others| ==> CountTokens(systems + others[k..], tokens) <= budget)
    && (k > 0 ==> CountTokens(systems + others[k - 1..], tokens) > budget)
  }

  lemma LongestIsTight(systems: seq<Message>, others: seq<Message>, k: nat, budget: int, tokens: string -> nat)
    requires LongestSuffix(others, k, Tokens(tokens), budget - CountTokens(systems, tokens))
    ensures IsTight(systems, others, k, budget, tokens)
  {
    SumConcat(systems, others[k..], Tokens(tokens));
    if k > 0 { SumConcat(systems, others[k - 1..], Tokens(tokens)); }
  }

  /** A conversation over the window keeps all its system messages and, behind them, the
      others from some point on: these fit the budget with the system messages, and one more
      would not. */
  lemma TrimIsTight(messages: seq<Message>, maxTokens: int, reserve: nat, tokens: string -> nat)
    returns (k: nat, budget: int)
    requires messages != [] && CountTokens(messages, tokens) > maxTokens
    ensures IsBudget(budget, maxTokens, reserve) && IsTight(Systems(messages), Others(messages), k, budget, tokens)
    ensures Trimmed(messages, maxTokens, reserve, tokens) == Systems(messages) + Others(messages)[k..]
  {
    budget := TrimBudget(maxTokens, reserve);
    k := TightCut(Systems(messages), Others(messages), budget, tokens);
  }

  lemma TightCut(systems: seq<Message>, others: seq<Message>, budget: int, tokens: string -> nat) returns (k: nat)
    ensures IsTight(systems, others, k, budget, tokens)
    ensures Suffix(others, Tokens(tokens), budget - CountTokens(systems, tokens)) == others[k..]
  {
    var room := budget - CountTokens(systems, tokens);
    k := SuffixStart(others, Tokens(tokens), room);
    SuffixStartFits(others, Tokens(tokens), room);
    LongestIsTight(systems, others, k, budget, tokens);
  }

  // ---------------------------------------------------------- the budget truncation

  /** With the system messages kept first: all of them, then the longest suffix of the
      others beside them.  Otherwise: the longest suffix of the whole conversation, from
      which the system messages are then dropped. */
  function Truncated(messages: seq<Message>, available: nat, keepSystemFirst: bool): seq<Message>
  {
    if keepSystemFirst then Beside(messages, Estimate, available - Sum(Systems(messages), Estimate))
    else Others(Suffix(messages, Estimate, available))
  }

  /** The loop of the truncation: a running remainder instead of a recount. */
  method SpendBudget(systems: seq<Message>, others: seq<Message>, room: int) returns (kept: seq<Message>)
    ensures kept == systems + Reversed(Suffix(others, Estimate, room))
  {
    var remaining := room;
    kept := systems;
    var i := |others|;
    assert Reversed(others[i..]) == [];
    while i > 0
      invariant 0 <= i <= |others|
      invariant kept == systems + Reversed(others[i..])
      invariant remaining == room - Sum(others[i..], Estimate)
      invariant i < |others| ==> remaining >= 0
      decreases i
    {
      TrialCost(systems, others, i, Estimate);
      if Cost(Estimate, others[i - 1]) > remaining {
        StopsAtLongest(others, i, Estimate, room);
        break;
      }
      kept := kept + [others[i - 1]];
      remaining := remaining - Cost(Estimate, others[i - 1]);
      i := i - 1;
    }
    SuffixIsLongest(others, i, Estimate, room);
  }

  method TruncateBeside(messages: seq<Message>, available: nat) returns (result: seq<Message>)
    ensures result == Beside(messages, Estimate, available - Sum(Systems(messages), Estimate))
  {
    var systems := Systems(messages);
    var others := NotAmong(messages, systems);
    NotAmongSystems(messages, messages, true);
    var kept := SpendBudget(systems, others, available - Sum(systems, Estimate));
    GatheredIsBeside(messages, Estimate, available - Sum(systems, Estimate), kept);
    result := InOrder(systems, kept);
  }

  method TruncateAll(messages: seq<Message>, available: nat) returns (result: seq<Message>)
    ensures result == Others(Suffix(messages, Estimate, available))
  {
    var others := NotAmong(messages, []);
    NotAmongSystems(messages, messages, false);
    var kept := SpendBudget([], others, available);
    Rearranged([], Suffix(messages, Estimate, available), kept);
    result := InOrder([], kept);
  }

  /** One loop for both values of the flag, which only decides what it starts from. */
  method Truncate(messages: seq<Message>, available: nat, keepSystemFirst: bool) returns (result: seq<Message>)
    ensures result == Truncated(messages, available, keepSystemFirst)
  {
    if keepSystemFirst {
      result := TruncateBeside(messages, available);
    } else {
      result := TruncateAll(messages, available);
    }
  }

  function NotAmong(messages: seq<Message>, excluded: seq<Message>): seq<Message>
  {
    if messages == [] then []
    else if messages[0] in excluded then NotAmong(messages[1..], excluded)
    else [messages[0]] + NotAmong(messages[1..], excluded)
  }

  lemma {:induction false} NotAmongSystems(all: seq<Message>, messages: seq<Message>, keep: bool)
    requires forall m :: m in messages ==> m in all
    ensures NotAmong(messages, if keep then Systems(all) else []) == if keep then Others(messages) else messages
  {
    if messages != [] {
      assert messages[0] in messages;
      Partition(all);
      NotAmongSystems(all, messages[1..], keep);
    }
  }

  /** With the system messages kept, truncation respects the budget unless they alone exceed it. */
  lemma {:induction false} TruncateFits(messages: seq<Message>, available: nat)
    ensures var result := Truncated(messages, available, true);
            Sum(result, Estimate) <= available || result == Systems(messages)
  {
    BesideFits(messages, Estimate, available - Sum(Systems(messages), Estimate));
  }

  // ------------------------------------------------ when system messages cost the others

  lemma {:induction false} OthersCostNoMore(messages: seq<Message>, price: Pricing)
    ensures Sum(Others(messages), price) <= Sum(messages, price)
  {
    if messages != [] {
      OthersCostNoMore(messages[1..], price);
      if !IsSystem(messages[0]) { assert ([messages[0]] + Others(messages[1..]))[1..] == Others(messages[1..]); }
    }
  }

  lemma {:induction false} OthersOfTail(messages: seq<Message>, i: nat)
    requires i <= |messages|
    ensures |Others(messages[i..])| <= |Others(messages)|
    ensures Others(messages[i..]) == Others(messages)[|Others(messages)| - |Others(messages[i..])|..]
  {
    assert messages == messages[..i] + messages[i..];
    OthersConcat(messages[..i], messages[i..]);
  }

  /** Where the last k of the other messages begin. */
  function OtherStart(messages: seq<Message>, k: nat): (p: nat)
    requires k <= |Others(messages)|
    ensures p <= |messages|
  {
    if k == 0 then |messages|
    else if !IsSystem(messages[0]) && |Others(messages)| == k then 0
    else 1 + OtherStart(messages[1..], k)
  }

  lemma {:induction false} OtherStartHolds(messages: seq<Message>, k: nat, j: nat)
    requires k <= |Others(messages)| && j <= |messages|
    ensures |Others(messages[OtherStart(messages, k)..])| == k
    ensures k > 0 ==> (|Others(messages[j..])| >= k <==> j <= OtherStart(messages, k))
  {
    if k > 0 {
      assert messages[0..] == messages;
      if !IsSystem(messages[0]) && |Others(messages)| == k {
        if j > 0 {
          assert messages[j..] == messages[1..][j - 1..];
          OthersOfTail(messages[1..], j - 1);
        }
      } else {
        OtherStartHolds(messages[1..], k, if j > 0 then j - 1 else 0);
        assert messages[1 + OtherStart(messages[1..], k)..] == messages[1..][OtherStart(messages[1..], k)..];
        if j > 0 { assert messages[j..] == messages[1..][j - 1..]; }
      }
    }
  }

  lemma TailsOfOthers(others: seq<Message>, a: nat, b: nat)
    requires a <= |others| && b <= |others|
    ensures others[a..] == others[b..] <==> a == b
  {
    assert |others[a..]| == |others| - a && |others[b..]| == |others| - b;
  }

  lemma FittingIsNoLonger(others: seq<Message>, from: nat, available: nat)
    requires from <= |others| && Sum(others[from..], Estimate) <= available
    ensures |others| - from <= |Suffix(others, Estimate, available)|
  {
    SuffixStartFits(others, Estimate, available);
  }

  lemma {:induction false} TailFits(messages: seq<Message>, start: nat, available: nat)
    requires start <= |messages| && Sum(messages[start..], Estimate) <= available
    ensures |Others(messages[start..])| <= |Suffix(Others(messages), Estimate, available)|
  {
    OthersOfTail(messages, start);
    OthersCostNoMore(messages[start..], Estimate);
    FittingIsNoLonger(Others(messages), |Others(messages)| - |Others(messages[start..])|, available);
  }

  lemma SuffixFits(messages: seq<Message>, available: nat)
    ensures Sum(Suffix(messages, Estimate, available), Estimate) <= available
  {
    SuffixStartFits(messages, Estimate, available);
    assert messages[|messages|..] == [];
  }

  /** A tail of the conversation that fits has no more other messages than fit by themselves. */
  lemma {:induction false} TailIsNoLonger(messages: seq<Message>, available: nat)
    ensures |Others(Suffix(messages, Estimate, available))| <= |Suffix(Others(messages), Estimate, available)|
  {
    SuffixFits(messages, available);
    TailFits(messages, SuffixStart(messages, Estimate, available), available);
  }

  /** With the system messages not kept first they use up budget and are then dropped.  The
      other messages that fit are all kept exactly when everything from the first of them
      on, system messages included, fits. */
  lemma {:induction false} DroppedSystemsCostNothingIff(messages: seq<Message>, available: nat)
    ensures var kept := Suffix(Others(messages), Estimate, available);
            && |kept| <= |Others(messages)|
            && (Truncated(messages, available, false) == kept
                <==> Sum(messages[OtherStart(messages, |kept|)..], Estimate) <= available)
  {
    var others := Others(messages);
    var kept := Suffix(others, Estimate, available);
    var start, p := SuffixStart(messages, Estimate, available), OtherStart(messages, |kept|);
    TailIsNoLonger(messages, available);
    OthersOfTail(messages, start);
    TailsOfOthers(others, |others| - |Others(messages[start..])|, |others| - |kept|);
    SuffixStartFits(messages, Estimate, available);
    OtherStartHolds(messages, |kept|, start);
    if kept == [] {
      assert messages[p..] == [];
    } else if start <= p {
      LongerCostsMore(messages, start, p, Estimate);
    } else {
      assert Sum(messages[p..], Estimate) > available;
    }
  }

  /** A system message behind the only other one: that one fits, and is lost. */
  lemma DroppedSystemCosts()
    ensures var messages := [Message("user", "y"), Message("system", "x")];
            && Suffix(Others(messages), Estimate, 1) == [Message("user", "y")]
            && Truncated(messages, 1, false) == []
  {
    var y, x := Message("user", "y"), Message("system", "x");
    var messages := [y, x];
    assert messages[1..] == [x] && [x][1..] == [] && !IsSystem(y) && IsSystem(x);
    OthersOfOne(y);
    OthersOfOne(x);
    OthersConcat([y], [x]);
    assert [y] + [x] == messages && [y] + [] == [y] && [y][1..] == [];
    assert Sum([x], Estimate) == 1 && Sum(messages, Estimate) == 2 && Sum([y], Estimate) == 1;
    assert SuffixStart(messages, Estimate, 1) == 1;
  }
}
