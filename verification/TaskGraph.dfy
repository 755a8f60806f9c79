/** Dependency graphs, their least fixed point, and the layers that reach it. */
module TaskGraph {
  datatype Node = Node(id: string, deps: seq<string>)

  function Ids(nodes: seq<Node>): set<string> { set n | n in nodes :: n.id }

  predicate Satisfied(n: Node, done: set<string>) { forall d :: d in n.deps ==> d in done }

  predicate Distinct(nodes: seq<Node>)
  {
    forall i, j :: 0 <= i < j < |nodes| ==> nodes[i].id != nodes[j].id
  }

  // -------------------------------------------------- the declarative specification

  /** A set of finished ids that leaves no satisfied task unfinished. */
  predicate Closed(nodes: seq<Node>, finished: set<string>)
  {
    forall n :: n in nodes && Satisfied(n, finished) ==> n.id in finished
  }

  /** In the least fixed point of "every dependency is finished". */
  ghost predicate Completable(nodes: seq<Node>, id: string)
  {
    forall finished: set<string> :: Closed(nodes, finished) ==> id in finished
  }

  // ---------------------------------------------------------------------- layers

  function Ready(nodes: seq<Node>, done: set<string>): (ready: seq<Node>)
    ensures forall n :: n in ready <==> n in nodes && Satisfied(n, done)
  {
    if nodes == [] then []
    else if Satisfied(nodes[0], done) then [nodes[0]] + Ready(nodes[1..], done)
    else Ready(nodes[1..], done)
  }

  function Blocked(nodes: seq<Node>, done: set<string>): (blocked: seq<Node>)
    ensures forall n :: n in blocked <==> n in nodes && !Satisfied(n, done)
    ensures |blocked| + |Ready(nodes, done)| == |nodes|
  {
    if nodes == [] then []
    else if Satisfied(nodes[0], done) then Blocked(nodes[1..], done)
    else [nodes[0]] + Blocked(nodes[1..], done)
  }

  function Layers(nodes: seq<Node>, done: set<string>): seq<seq<Node>>
    decreases |nodes|
  {
    var batch := Ready(nodes, done);
    if batch == [] then [] else [batch] + Layers(Blocked(nodes, done), done + Ids(batch))
  }

  function Stuck(nodes: seq<Node>, done: set<string>): seq<Node>
    decreases |nodes|
  {
    var batch := Ready(nodes, done);
    if batch == [] then nodes else Stuck(Blocked(nodes, done), done + Ids(batch))
  }

  function Finished(nodes: seq<Node>, done: set<string>): set<string>
    decreases |nodes|
  {
    var batch := Ready(nodes, done);
    if batch == [] then done else Finished(Blocked(nodes, done), done + Ids(batch))
  }

  /** Contained in every closed set. */
  ghost predicate Forced(nodes: seq<Node>, done: set<string>)
  {
    forall finished :: Closed(nodes, finished) ==> done <= finished
  }

  lemma {:induction false} PeelingIsLeast(all: seq<Node>, nodes: seq<Node>, done: set<string>)
    requires forall n :: n in nodes ==> n in all
    requires forall n :: n in all && n !in nodes ==> n.id in done
    requires Forced(all, done)
    ensures Closed(all, Finished(nodes, done)) && Forced(all, Finished(nodes, done))
    ensures forall n :: n in Stuck(nodes, done) <==> n in nodes && !Satisfied(n, Finished(nodes, done))
    ensures done <= Finished(nodes, done)
    decreases |nodes|
  {
    var batch := Ready(nodes, done);
    if batch != [] {
      var done' := done + Ids(batch);
      forall finished | Closed(all, finished) ensures done' <= finished {
        forall n | n in batch ensures n.id in finished { assert Satisfied(n, finished); }
      }
      PeelingIsLeast(all, Blocked(nodes, done), done');
      forall n | n in batch ensures Satisfied(n, Finished(nodes, done)) { assert Satisfied(n, done); }
    }
  }

  /** Peeling layers finishes exactly the least fixed point; a task is left over exactly
      when one of its dependencies lies outside it. */
  lemma {:induction false} LayersReachLeastFixedPoint(nodes: seq<Node>)
    ensures forall id :: id in Finished(nodes, {}) <==> Completable(nodes, id)
    ensures forall n :: n in Stuck(nodes, {}) <==> n in nodes && exists d :: d in n.deps && !Completable(nodes, d)
  {
    PeelingIsLeast(nodes, nodes, {});
    forall id | id in Finished(nodes, {}) ensures Completable(nodes, id) {}
    forall n | n in nodes && !Satisfied(n, Finished(nodes, {}))
      ensures exists d :: d in n.deps && !Completable(nodes, d)
    {
      var d :| d in n.deps && d !in Finished(nodes, {});
      assert !Completable(nodes, d);
    }
  }

  // ------------------------------------------------------------- acyclic task lists

  predicate Below(n: Node, rank: map<string, nat>)
  {
    n.id in rank && forall d :: d in n.deps ==> d in rank && rank[d] < rank[n.id]
  }

  /** A rank on exactly the listed ids that every dependency decreases. */
  predicate Ranks(nodes: seq<Node>, rank: map<string, nat>)
  {
    rank.Keys == Ids(nodes) && forall n :: n in nodes ==> Below(n, rank)
  }

  lemma {:induction false} RankedIsFinished(nodes: seq<Node>, rank: map<string, nat>, finished: set<string>, n: Node)
    requires Ranks(nodes, rank) && Closed(nodes, finished) && n in nodes
    ensures n.id in finished
    decreases rank[n.id]
  {
    assert Below(n, rank);
    forall d | d in n.deps ensures d in finished {
      assert d in Ids(nodes);
      var m :| m in nodes && m.id == d;
      RankedIsFinished(nodes, rank, finished, m);
    }
    assert Satisfied(n, finished);
  }

  lemma {:induction false} FinishedIsCompletable(nodes: seq<Node>)
    ensures Closed(nodes, Finished(nodes, {})) && forall id :: id in Finished(nodes, {}) ==> Completable(nodes, id)
    ensures (forall n :: n in nodes ==> Satisfied(n, Finished(nodes, {}))) ==> Stuck(nodes, {}) == []
  {
    PeelingIsLeast(nodes, nodes, {});
    forall id | id in Finished(nodes, {}) ensures Completable(nodes, id) {}
    if Stuck(nodes, {}) != [] { assert Stuck(nodes, {})[0] in Stuck(nodes, {}); }
  }

  predicate LowRank(rank: map<string, nat>, level: nat) { forall id :: id in rank ==> rank[id] < level }

  predicate Extends(rank: map<string, nat>, rank': map<string, nat>)
  {
    forall id :: id in rank ==> id in rank' && rank'[id] == rank[id]
  }

  /** One more layer, ranked above everything finished before it. */
  lemma LayerRanks(batch: seq<Node>, done: set<string>, rank: map<string, nat>, level: nat)
    returns (next: map<string, nat>)
    requires rank.Keys == done && Ids(batch) !! done
    requires LowRank(rank, level)
    requires forall n :: n in batch ==> Satisfied(n, done)
    ensures next.Keys == done + Ids(batch) && Extends(rank, next)
    ensures LowRank(next, level + 1)
    ensures forall n :: n in batch ==> Below(n, next)
  {
    var layer := map id | id in Ids(batch) :: level;
    next := rank + layer;
    forall n | n in batch ensures Below(n, next) {
      assert n.id in layer && next[n.id] == level;
      forall d | d in n.deps ensures d in next && next[d] < next[n.id] { assert d in done && d !in layer; }
    }
  }

  lemma {:induction false} PeelingRanks(nodes: seq<Node>, done: set<string>, rank: map<string, nat>, level: nat)
    returns (rank': map<string, nat>)
    requires Distinct(nodes) && Ids(nodes) !! done && rank.Keys == done
    requires LowRank(rank, level)
    requires Stuck(nodes, done) == []
    ensures rank'.Keys == done + Ids(nodes) && Extends(rank, rank')
    ensures forall n :: n in nodes ==> Below(n, rank')
    decreases |nodes|
  {
    if Ready(nodes, done) == [] {
      assert nodes == [];
      rank' := rank;
    } else {
      PeelOne(nodes, done);
      var next := LayerRanks(Ready(nodes, done), done, rank, level);
      rank' := PeelingRanks(Blocked(nodes, done), done + Ids(Ready(nodes, done)), next, level + 1);
      AllBelow(nodes, done, next, rank');
    }
  }

  lemma {:induction false} PeelOne(nodes: seq<Node>, done: set<string>)
    requires Distinct(nodes) && Ids(nodes) !! done && Ready(nodes, done) != []
    ensures var batch, blocked := Ready(nodes, done), Blocked(nodes, done);
            && Distinct(blocked) && Ids(batch) !! done && Ids(blocked) !! done + Ids(batch)
            && Ids(nodes) == Ids(batch) + Ids(blocked) && |blocked| < |nodes|
            && Stuck(nodes, done) == Stuck(blocked, done + Ids(batch))
  {
    BlockedIsDisjoint(nodes, done);
    IdsSplit(nodes, done);
  }

  lemma {:induction false} AllBelow(nodes: seq<Node>, done: set<string>, next: map<string, nat>, rank: map<string, nat>)
    requires forall n :: n in Ready(nodes, done) ==> Below(n, next)
    requires forall n :: n in Blocked(nodes, done) ==> Below(n, rank)
    requires Extends(next, rank)
    ensures forall n :: n in nodes ==> Below(n, rank)
  {
    forall n | n in nodes ensures Below(n, rank) {
      if n in Ready(nodes, done) { BelowExtends(n, next, rank); }
    }
  }

  lemma BelowExtends(n: Node, rank: map<string, nat>, rank': map<string, nat>)
    requires Below(n, rank) && Extends(rank, rank')
    ensures Below(n, rank')
  {
  }

  lemma {:induction false} IdsSplit(nodes: seq<Node>, done: set<string>)
    ensures Ids(nodes) == Ids(Ready(nodes, done)) + Ids(Blocked(nodes, done))
  {
    forall id | id in Ids(nodes) ensures id in Ids(Ready(nodes, done)) + Ids(Blocked(nodes, done)) {
      var n :| n in nodes && n.id == id;
      assert n in Ready(nodes, done) || n in Blocked(nodes, done);
    }
  }

  lemma {:induction false} BlockedIsDisjoint(nodes: seq<Node>, done: set<string>)
    requires Distinct(nodes)
    ensures Distinct(Blocked(nodes, done)) && Ids(Blocked(nodes, done)) !! Ids(Ready(nodes, done))
  {
    if nodes != [] {
      BlockedIsDisjoint(nodes[1..], done);
      forall n | n in nodes[1..] ensures n.id != nodes[0].id {}
    }
  }

  lemma {:induction false} RankedCompletes(nodes: seq<Node>, rank: map<string, nat>)
    requires Ranks(nodes, rank)
    ensures Stuck(nodes, {}) == []
  {
    FinishedIsCompletable(nodes);
    var finished := Finished(nodes, {});
    forall n | n in nodes ensures Satisfied(n, finished) {
      assert Below(n, rank);
      forall d | d in n.deps ensures d in finished {
        assert d in Ids(nodes);
        var m :| m in nodes && m.id == d;
        RankedIsFinished(nodes, rank, finished, m);
      }
    }
  }

  /** A list with distinct ids runs to completion if and only if it has a rank: it is
      acyclic and names no missing dependency. */
  lemma {:induction false} CompletesIffRanked(nodes: seq<Node>)
    requires Distinct(nodes)
    ensures Stuck(nodes, {}) == [] <==> exists rank :: Ranks(nodes, rank)
  {
    if Stuck(nodes, {}) == [] {
      var rank := PeelingRanks(nodes, {}, map[], 0);
      assert Ranks(nodes, rank);
    }
    if rank :| Ranks(nodes, rank) { RankedCompletes(nodes, rank); }
  }

  /** Depending only on tasks listed earlier is enough. */
  predicate Forward(nodes: seq<Node>)
  {
    forall i, d :: 0 <= i < |nodes| && d in nodes[i].deps ==> exists j :: 0 <= j < i && nodes[j].id == d
  }

  lemma {:induction false} ForwardPrefixFinishes(nodes: seq<Node>, finished: set<string>, k: nat)
    requires Forward(nodes) && Closed(nodes, finished) && k <= |nodes|
    ensures forall i :: 0 <= i < k ==> nodes[i].id in finished
  {
    if k > 0 {
      ForwardPrefixFinishes(nodes, finished, k - 1);
      assert Satisfied(nodes[k - 1], finished);
    }
  }

  lemma {:induction false} ForwardListsComplete(nodes: seq<Node>)
    requires Forward(nodes)
    ensures Stuck(nodes, {}) == []
    ensures forall n :: n in nodes ==> Completable(nodes, n.id)
  {
    FinishedIsCompletable(nodes);
    var finished := Finished(nodes, {});
    ForwardPrefixFinishes(nodes, finished, |nodes|);
    forall n | n in nodes ensures Satisfied(n, finished) && n.id in finished {
      var i :| 0 <= i < |nodes| && nodes[i] == n;
      forall d | d in n.deps ensures d in finished {
        var j :| 0 <= j < i && nodes[j].id == d;
        assert nodes[j].id in finished;
      }
    }
  }

  // --------------------------------------------------------------------- flattening

  function Concat(layers: seq<seq<Node>>): seq<Node>
  {
    if layers == [] then [] else layers[0] + Concat(layers[1..])
  }

  lemma {:induction false} ConcatAppend(layers: seq<seq<Node>>, batch: seq<Node>)
    ensures Concat(layers + [batch]) == Concat(layers) + batch
  {
    if layers == [] {
      assert layers + [batch] == [batch] && Concat([batch]) == batch + Concat([]);
    } else {
      assert (layers + [batch])[1..] == layers[1..] + [batch];
      ConcatAppend(layers[1..], batch);
    }
  }

  /** Layers and leftovers together are a rearrangement of the list. */
  lemma {:induction false} LayersPartition(nodes: seq<Node>, done: set<string>)
    ensures multiset(Concat(Layers(nodes, done))) + multiset(Stuck(nodes, done)) == multiset(nodes)
    decreases |nodes|
  {
    var batch := Ready(nodes, done);
    if batch != [] {
      var blocked := Blocked(nodes, done);
      LayersPartition(blocked, done + Ids(batch));
      FilterPartition(nodes, done);
      var rest := Layers(blocked, done + Ids(batch));
      assert Layers(nodes, done) == [batch] + rest && Concat([batch] + rest) == batch + Concat(rest);
    }
  }

  lemma {:induction false} FilterPartition(nodes: seq<Node>, done: set<string>)
    ensures multiset(Ready(nodes, done)) + multiset(Blocked(nodes, done)) == multiset(nodes)
  {
    if nodes != [] {
      var n, rest := nodes[0], nodes[1..];
      FilterPartition(rest, done);
      assert nodes == [n] + rest;
      OneMore(n, rest);
      FilterOne(n, rest, done);
    }
  }

  lemma {:induction false} FilterOne(n: Node, rest: seq<Node>, done: set<string>)
    ensures multiset(Ready([n] + rest, done)) + multiset(Blocked([n] + rest, done))
         == multiset{n} + (multiset(Ready(rest, done)) + multiset(Blocked(rest, done)))
  {
    assert ([n] + rest)[1..] == rest;
    OneMore(n, if Satisfied(n, done) then Ready(rest, done) else Blocked(rest, done));
  }

  lemma OneMore(n: Node, rest: seq<Node>)
    ensures multiset([n] + rest) == multiset{n} + multiset(rest)
  {
  }
}
