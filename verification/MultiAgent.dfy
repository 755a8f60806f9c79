/** The multi-agent orchestrator: run every sub-task whose dependencies are complete,
    batch after batch, until all are complete or none is ready. */
module MultiAgent {
  import opened TaskGraph

  datatype SubTaskResult = SubTaskResult(success: bool, data: string, error: string)

  type Completed = map<string, SubTaskResult>

  /** The outcome of a sub-task, given the results complete when its batch starts. */
  type Runner = (Node, Completed) -> SubTaskResult

  /** `dep_map`: of several sub-tasks with one id, the last one's dependencies count. */
  function DepsOf(tasks: seq<Node>, id: string): seq<string>
    requires id in Ids(tasks)
  {
    if tasks[|tasks| - 1].id == id then tasks[|tasks| - 1].deps
    else
      assert forall t :: t in tasks && t.id == id ==> t in tasks[..|tasks| - 1];
      DepsOf(tasks[..|tasks| - 1], id)
  }

  function Normalised(tasks: seq<Node>): (nodes: seq<Node>)
    ensures |nodes| == |tasks| && forall i :: 0 <= i < |tasks| ==> nodes[i].id == tasks[i].id
    ensures OnePerId(nodes)
  {
    seq(|tasks|, i requires 0 <= i < |tasks| =>
      assert tasks[i] in tasks;
      Node(tasks[i].id, DepsOf(tasks, tasks[i].id)))
  }

  lemma {:induction false} OwnDeps(tasks: seq<Node>, i: nat)
    requires Distinct(tasks) && i < |tasks|
    ensures tasks[i].id in Ids(tasks) && DepsOf(tasks, tasks[i].id) == tasks[i].deps
  {
    assert tasks[i] in tasks;
    if i < |tasks| - 1 { OwnDeps(tasks[..|tasks| - 1], i); }
  }

  lemma DistinctIsNormal(tasks: seq<Node>)
    requires Distinct(tasks)
    ensures Normalised(tasks) == tasks
  {
    forall i | 0 <= i < |tasks| ensures Normalised(tasks)[i] == tasks[i] { OwnDeps(tasks, i); }
  }

  predicate LastWithId(tasks: seq<Node>, i: nat, id: string)
  {
    i < |tasks| && tasks[i].id == id && forall j :: i < j < |tasks| ==> tasks[j].id != id
  }

  lemma {:induction false} LastDepsCount(tasks: seq<Node>, i: nat, id: string)
    requires LastWithId(tasks, i, id)
    ensures id in Ids(tasks) && DepsOf(tasks, id) == tasks[i].deps
  {
    assert tasks[i] in tasks;
    if i < |tasks| - 1 { LastDepsCount(tasks[..|tasks| - 1], i, id); }
  }

  /** Every sub-task is scheduled with the dependencies of the last one that has its id. */
  lemma NormalisedDeps(tasks: seq<Node>)
    ensures |Normalised(tasks)| == |tasks|
    ensures forall k, i: nat :: 0 <= k < |tasks| && LastWithId(tasks, i, tasks[k].id) ==>
              Normalised(tasks)[k] == Node(tasks[k].id, tasks[i].deps)
  {
    forall k, i: nat | 0 <= k < |tasks| && LastWithId(tasks, i, tasks[k].id)
      ensures Normalised(tasks)[k] == Node(tasks[k].id, tasks[i].deps)
    {
      LastDepsCount(tasks, i, tasks[k].id);
    }
  }

  // ------------------------------------------------------------ what the run computes

  function RunBatch(batch: seq<Node>, run: Runner, before: Completed, completed: Completed): Completed
  {
    if batch == [] then completed
    else
      var last := batch[|batch| - 1];
      RunBatch(batch[..|batch| - 1], run, before, completed)[last.id := run(last, before)]
  }

  function RunFrom(nodes: seq<Node>, run: Runner, completed: Completed): Completed
    decreases |nodes|
  {
    var batch := Ready(nodes, completed.Keys);
    if batch == [] then completed
    else RunFrom(Blocked(nodes, completed.Keys), run, RunBatch(batch, run, completed, completed))
  }

  /** Insertion order of a dictionary: each id where it first appeared. */
  function FirstSeen(nodes: seq<Node>): seq<string>
  {
    if nodes == [] then []
    else
      var seen := FirstSeen(nodes[..|nodes| - 1]);
      if nodes[|nodes| - 1].id in seen then seen else seen + [nodes[|nodes| - 1].id]
  }

  /** The id a has come up by some place before which b has not. */
  predicate ComesUpBefore(nodes: seq<Node>, a: string, b: string)
  {
    exists p :: 0 <= p < |nodes| && nodes[p].id == a && forall q :: 0 <= q <= p ==> nodes[q].id != b
  }

  /** Each id once, in the order of their first appearances. */
  lemma {:induction false} FirstSeenInOrder(nodes: seq<Node>)
    ensures forall id :: id in FirstSeen(nodes) <==> id in Ids(nodes)
    ensures forall i, j :: 0 <= i < j < |FirstSeen(nodes)| ==> ComesUpBefore(nodes, FirstSeen(nodes)[i], FirstSeen(nodes)[j])
  {
    if nodes != [] {
      var front, last := nodes[..|nodes| - 1], nodes[|nodes| - 1];
      var seen := FirstSeen(front);
      assert nodes == front + [last];
      FirstSeenInOrder(front);
      forall a, b | ComesUpBefore(front, a, b) ensures ComesUpBefore(nodes, a, b) { StillBefore(front, last, a, b); }
      forall i | 0 <= i < |seen| && last.id !in seen ensures ComesUpBefore(nodes, seen[i], last.id) {
        FirstOfAll(front, last, seen[i]);
      }
    }
  }

  lemma StillBefore(front: seq<Node>, last: Node, a: string, b: string)
    requires ComesUpBefore(front, a, b)
    ensures ComesUpBefore(front + [last], a, b)
  {
    var p :| 0 <= p < |front| && front[p].id == a && forall q :: 0 <= q <= p ==> front[q].id != b;
    assert (front + [last])[p].id == a;
  }

  lemma FirstOfAll(front: seq<Node>, last: Node, a: string)
    requires a in Ids(front) && last.id !in Ids(front)
    ensures ComesUpBefore(front + [last], a, last.id)
  {
    var n :| n in front && n.id == a;
    var p :| 0 <= p < |front| && front[p] == n;
    assert (front + [last])[p].id == a;
    forall q | 0 <= q <= p ensures (front + [last])[q].id != last.id { assert front[q] in front; }
  }

  function Unfinished(tasks: seq<Node>, done: set<string>): seq<Node>
  {
    if tasks == [] then []
    else if tasks[0].id in done then Unfinished(tasks[1..], done)
    else [tasks[0]] + Unfinished(tasks[1..], done)
  }

  lemma {:induction false} UnfinishedAppend(tasks: seq<Node>, n: Node, done: set<string>)
    ensures Unfinished(tasks + [n], done) == Unfinished(tasks, done) + if n.id in done then [] else [n]
  {
    if tasks == [] {
      assert tasks + [n] == [n];
    } else {
      assert (tasks + [n])[1..] == tasks[1..] + [n];
      UnfinishedAppend(tasks[1..], n, done);
    }
  }

  lemma {:induction false} ReadyAppend(nodes: seq<Node>, n: Node, done: set<string>)
    ensures Ready(nodes + [n], done) == Ready(nodes, done) + if Satisfied(n, done) then [n] else []
  {
    if nodes == [] {
      assert nodes + [n] == [n];
    } else {
      assert (nodes + [n])[1..] == nodes[1..] + [n];
      ReadyAppend(nodes[1..], n, done);
    }
  }

  lemma {:induction false} UnfinishedOfNothing(nodes: seq<Node>)
    ensures Unfinished(nodes, {}) == nodes
  {
    if nodes != [] { UnfinishedOfNothing(nodes[1..]); }
  }

  lemma {:induction false} UnfinishedMembers(nodes: seq<Node>, done: set<string>)
    ensures forall n :: n in Unfinished(nodes, done) <==> n in nodes && n.id !in done
    ensures |Unfinished(nodes, done)| <= |nodes|
  {
    if nodes != [] { UnfinishedMembers(nodes[1..], done); }
  }

  lemma {:induction false} UnfinishedSplits(nodes: seq<Node>, done: set<string>, batch: set<string>)
    requires forall n :: n in nodes && n.id !in done ==> (n.id in batch <==> Satisfied(n, done))
    ensures Unfinished(nodes, done + batch) == Blocked(Unfinished(nodes, done), done)
  {
    if nodes != [] {
      var n, rest := nodes[0], nodes[1..];
      UnfinishedSplits(rest, done, batch);
      if n.id in done {
        assert Unfinished(nodes, done) == Unfinished(rest, done);
      } else {
        assert n in nodes && (n.id in batch <==> Satisfied(n, done));
        assert Unfinished(nodes, done)[1..] == Unfinished(rest, done) && Unfinished(nodes, done)[0] == n;
      }
    }
  }

  predicate OnePerId(nodes: seq<Node>)
  {
    forall n, m :: n in nodes && m in nodes && n.id == m.id ==> n == m
  }

  /** Finishing a whole batch leaves exactly the tasks that were not ready. */
  lemma {:induction false} UnfinishedAfterBatch(nodes: seq<Node>, done: set<string>)
    requires OnePerId(nodes)
    ensures var open := Unfinished(nodes, done);
            Unfinished(nodes, done + Ids(Ready(open, done))) == Blocked(open, done)
  {
    UnfinishedMembers(nodes, done);
    var batch := Ids(Ready(Unfinished(nodes, done), done));
    forall n | n in nodes && n.id !in done ensures n.id in batch <==> Satisfied(n, done) {
      if n.id in batch {
        var m :| m in Ready(Unfinished(nodes, done), done) && m.id == n.id;
        assert m == n;
      }
    }
    UnfinishedSplits(nodes, done, batch);
  }

  lemma DistinctAppend(front: seq<Node>, last: Node)
    ensures Distinct(front + [last]) <==> Distinct(front) && last.id !in Ids(front)
  {
    var nodes := front + [last];
    if Distinct(nodes) {
      forall i, j | 0 <= i < j < |front| ensures front[i].id != front[j].id {
        assert front[i] == nodes[i] && front[j] == nodes[j];
      }
      forall m | m in front ensures m.id != last.id {
        var i :| 0 <= i < |front| && front[i] == m;
        assert nodes[i] == m && nodes[|front|] == last;
      }
    }
    if Distinct(front) && last.id !in Ids(front) {
      forall i | 0 <= i < |front| ensures nodes[i].id != last.id { assert front[i] in front; }
    }
  }

  lemma {:induction false} IdsAtMost(nodes: seq<Node>)
    ensures |Ids(nodes)| <= |nodes|
    ensures |Ids(nodes)| == |nodes| <==> Distinct(nodes)
  {
    if nodes != [] {
      var last, front := nodes[|nodes| - 1], nodes[..|nodes| - 1];
      IdsAtMost(front);
      DistinctAppend(front, last);
      assert nodes == front + [last];
      assert Ids(nodes) == Ids(front) + {last.id};
      assert last.id in Ids(front) ==> Ids(nodes) == Ids(front);
    }
  }

  lemma {:induction false} AllFinished(nodes: seq<Node>, done: set<string>)
    requires done <= Ids(nodes) && |nodes| <= |done|
    ensures Unfinished(nodes, done) == []
  {
    var open := Unfinished(nodes, done);
    assert open != [] ==> open[0] in open;
    IdsAtMost(nodes);
    SubsetOfSameSize(done, Ids(nodes));
    UnfinishedMembers(nodes, done);
    forall n | n in nodes ensures n.id in done { assert n.id in Ids(nodes); }
  }

  lemma SubsetOfSameSize(a: set<string>, b: set<string>)
    requires a <= b && |b| <= |a|
    ensures a == b
  {
    assert |b - a| == |b| - |a|;
    assert b == a + (b - a);
  }

  // ----------------------------------------------------------------- the scheduler

  method ReadyTasks(nodes: seq<Node>, completed: Completed) returns (ready: seq<Node>)
    ensures ready == Ready(Unfinished(nodes, completed.Keys), completed.Keys)
  {
    ready := [];
    for i := 0 to |nodes|
      invariant ready == Ready(Unfinished(nodes[..i], completed.Keys), completed.Keys)
    {
      assert nodes[..i + 1] == nodes[..i] + [nodes[i]];
      UnfinishedAppend(nodes[..i], nodes[i], completed.Keys);
      ghost var open := Unfinished(nodes[..i], completed.Keys);
      assert open + [] == open && ready + [] == ready;
      ReadyAppend(open, nodes[i], completed.Keys);
      if nodes[i].id !in completed && forall d | d in nodes[i].deps :: d in completed {
        ready := ready + [nodes[i]];
      }
    }
    assert nodes[..|nodes|] == nodes;
  }

  method RemainingIds(nodes: seq<Node>, completed: Completed) returns (remaining: seq<string>)
    ensures |remaining| == |Unfinished(nodes, completed.Keys)|
    ensures forall k :: 0 <= k < |remaining| ==> remaining[k] == Unfinished(nodes, completed.Keys)[k].id
  {
    remaining := [];
    for i := 0 to |nodes|
      invariant |remaining| == |Unfinished(nodes[..i], completed.Keys)|
      invariant forall k :: 0 <= k < |remaining| ==> remaining[k] == Unfinished(nodes[..i], completed.Keys)[k].id
    {
      assert nodes[..i + 1] == nodes[..i] + [nodes[i]];
      UnfinishedAppend(nodes[..i], nodes[i], completed.Keys);
      if nodes[i].id !in completed {
        remaining := remaining + [nodes[i].id];
      }
    }
    assert nodes[..|nodes|] == nodes;
  }

  /** Every ready task runs on the same snapshot; results are stored in list order. */
  method RunReady(ready: seq<Node>, run: Runner, before: Completed, earlier: seq<string>, ghost past: seq<Node>)
    returns (completed: Completed, order: seq<string>)
    requires earlier == FirstSeen(past) && forall id :: id in before <==> id in earlier
    ensures completed == RunBatch(ready, run, before, before)
    ensures completed.Keys == before.Keys + Ids(ready)
    ensures order == FirstSeen(past + ready) && forall id :: id in completed <==> id in order
  {
    completed, order := before, earlier;
    assert past + ready[..0] == past;
    for i := 0 to |ready|
      invariant completed == RunBatch(ready[..i], run, before, before)
      invariant completed.Keys == before.Keys + Ids(ready[..i])
      invariant order == FirstSeen(past + ready[..i]) && forall id :: id in completed <==> id in order
    {
      var task := ready[i];
      assert ready[..i + 1] == ready[..i] + [task];
      assert past + ready[..i + 1] == (past + ready[..i]) + [task];
      if task.id !in completed {
        order := order + [task.id];
      }
      completed := completed[task.id := run(task, before)];
    }
    assert ready[..|ready|] == ready;
  }

  /** What is left to do: the state of the run between two batches. */
  ghost predicate OnTrack(nodes: seq<Node>, run: Runner, completed: Completed, layers: seq<seq<Node>>)
  {
    var open := Unfinished(nodes, completed.Keys);
    && RunFrom(open, run, completed) == RunFrom(nodes, run, map[])
    && layers + Layers(open, completed.Keys) == Layers(nodes, {})
    && Stuck(open, completed.Keys) == Stuck(nodes, {})
    && Finished(open, completed.Keys) == Finished(nodes, {})
    && completed.Keys <= Ids(nodes)
  }

  lemma StartOnTrack(nodes: seq<Node>, run: Runner)
    ensures OnTrack(nodes, run, map[], [])
  {
    UnfinishedOfNothing(nodes);
    var none: Completed := map[];
    assert none.Keys == {};
    assert [] + Layers(nodes, {}) == Layers(nodes, {});
  }

  lemma {:induction false} BatchStaysOnTrack(nodes: seq<Node>, run: Runner, completed: Completed, layers: seq<seq<Node>>)
    requires OnePerId(nodes) && OnTrack(nodes, run, completed, layers)
    requires Ready(Unfinished(nodes, completed.Keys), completed.Keys) != []
    ensures var open := Unfinished(nodes, completed.Keys);
            var ready := Ready(open, completed.Keys);
            var after := RunBatch(ready, run, completed, completed);
            OnTrack(nodes, run, after, layers + [ready])
            && |Unfinished(nodes, after.Keys)| < |open|
  {
    var done := completed.Keys;
    var open := Unfinished(nodes, done);
    var ready := Ready(open, done);
    UnfinishedMembers(nodes, done);
    UnfinishedAfterBatch(nodes, done);
    OneBatch(open, run, completed);
    var rest := Layers(Blocked(open, done), done + Ids(ready));
    Reassociate(layers, ready, rest);
    forall id | id in Ids(ready) ensures id in Ids(nodes) {
      var n :| n in ready && n.id == id;
      assert n in open;
    }
  }

  lemma Reassociate<T>(a: seq<T>, x: T, b: seq<T>)
    ensures a + [x] + b == a + ([x] + b)
  {
  }

  lemma {:induction false} OneBatch(open: seq<Node>, run: Runner, completed: Completed)
    requires OnePerId(open) && Ids(open) !! completed.Keys && Ready(open, completed.Keys) != []
    ensures var done := completed.Keys;
            var ready, blocked := Ready(open, done), Blocked(open, done);
            var after := RunBatch(ready, run, completed, completed);
            && after.Keys == done + Ids(ready) && |blocked| < |open|
            && RunFrom(open, run, completed) == RunFrom(blocked, run, after)
            && Layers(open, done) == [ready] + Layers(blocked, done + Ids(ready))
            && Stuck(open, done) == Stuck(blocked, done + Ids(ready))
            && Finished(open, done) == Finished(blocked, done + Ids(ready))
  {
    BatchResults(Ready(open, completed.Keys), run, completed);
  }

  method ExecuteMulti(tasks: seq<Node>, run: Runner)
    returns (completed: Completed, order: seq<string>, stuck: bool, remaining: seq<string>, ghost layers: seq<seq<Node>>)
    ensures layers == Layers(Normalised(tasks), {})
    ensures completed == RunFrom(Normalised(tasks), run, map[])
    ensures completed.Keys == Finished(Normalised(tasks), {})
    ensures order == FirstSeen(Concat(layers))
    ensures stuck <==> |completed| < |tasks|
    ensures stuck ==> |remaining| == |Stuck(Normalised(tasks), {})|
                      && forall i :: 0 <= i < |remaining| ==> remaining[i] == Stuck(Normalised(tasks), {})[i].id
  {
    completed, order, remaining, layers := map[], [], [], [];
    var nodes := Normalised(tasks);   // the dependency map, one entry per sub-task
    StartOnTrack(nodes, run);
    while |completed| < |tasks|
      invariant OnTrack(nodes, run, completed, layers)
      invariant order == FirstSeen(Concat(layers)) && forall id :: id in completed <==> id in order
      decreases |Unfinished(nodes, completed.Keys)|
    {
      var ready := ReadyTasks(nodes, completed);
      if ready == [] {
        remaining := RemainingIds(nodes, completed);
        stuck := true;
        return;
      }
      BatchStaysOnTrack(nodes, run, completed, layers);
      ConcatAppend(layers, ready);
      completed, order := RunReady(ready, run, completed, order, Concat(layers));
      layers := layers + [ready];
    }
    stuck := false;
    AllFinished(nodes, completed.Keys);
    assert layers + [] == layers;
  }

  // -------------------------------------------------------------------- theorems

  lemma {:induction false} BatchKeys(batch: seq<Node>, run: Runner, before: Completed, completed: Completed)
    ensures RunBatch(batch, run, before, completed).Keys == completed.Keys + Ids(batch)
  {
    if batch != [] {
      var last, front := batch[|batch| - 1], batch[..|batch| - 1];
      assert batch == front + [last];
      BatchKeys(front, run, before, completed);
    }
  }

  lemma {:induction false} RunFinishes(nodes: seq<Node>, run: Runner, completed: Completed)
    ensures RunFrom(nodes, run, completed).Keys == Finished(nodes, completed.Keys)
    decreases |nodes|
  {
    var batch := Ready(nodes, completed.Keys);
    if batch != [] {
      BatchKeys(batch, run, completed, completed);
      RunFinishes(Blocked(nodes, completed.Keys), run, RunBatch(batch, run, completed, completed));
    }
  }

  /** The orchestrator completes exactly the least fixed point of "every dependency is
      finished". */
  lemma {:induction false} CompletedIsCompletable(nodes: seq<Node>, run: Runner)
    ensures RunFrom(nodes, run, map[]).Keys == Finished(nodes, {})
    ensures forall id :: id in RunFrom(nodes, run, map[]) <==> Completable(nodes, id)
  {
    var none: Completed := map[];
    assert none.Keys == {};
    RunFinishes(nodes, run, none);
    LayersReachLeastFixedPoint(nodes);
  }

  /** On distinct ids nothing is reported stuck exactly when every task is in the least
      fixed point; a repeated id is always reported stuck. */
  lemma StuckIff(tasks: seq<Node>)
    ensures |Finished(Normalised(tasks), {})| < |tasks|
            <==> !Distinct(tasks) || exists t :: t in tasks && !Completable(tasks, t.id)
  {
    var nodes := Normalised(tasks);
    LayersReachLeastFixedPoint(nodes);
    FinishedWithinIds(nodes, {});
    IdsAtMost(nodes);
    if Distinct(tasks) {
      DistinctIsNormal(tasks);
      var done := Finished(tasks, {});
      if |done| < |tasks| {
        assert done != Ids(tasks);
        var id :| id in Ids(tasks) && id !in done;
        var t :| t in tasks && t.id == id;
        assert !Completable(tasks, t.id);
      } else {
        SubsetOfSameSize(done, Ids(tasks));
        forall t | t in tasks ensures Completable(tasks, t.id) { assert t.id in Ids(tasks); }
      }
    } else {
      assert !Distinct(nodes);
      if |Ids(nodes)| <= |Finished(nodes, {})| { SubsetOfSameSize(Finished(nodes, {}), Ids(nodes)); }
    }
  }

  lemma {:induction false} FinishedWithinIds(nodes: seq<Node>, done: set<string>)
    ensures Finished(nodes, done) <= done + Ids(nodes)
    decreases |nodes|
  {
    if Ready(nodes, done) != [] {
      IdsSplit(nodes, done);
      FinishedWithinIds(Blocked(nodes, done), done + Ids(Ready(nodes, done)));
    }
  }

  predicate Submap(before: Completed, after: Completed)
  {
    forall id :: id in before ==> id in after && after[id] == before[id]
  }

  /** The task ran on a snapshot holding the final results of all its dependencies. */
  ghost predicate SawDependencies(n: Node, run: Runner, final: Completed)
  {
    n.id in final && exists before: Completed ::
      Submap(before, final) && Satisfied(n, before.Keys) && final[n.id] == run(n, before)
  }

  lemma {:induction false} BatchResults(batch: seq<Node>, run: Runner, before: Completed)
    requires OnePerId(batch) && Ids(batch) !! before.Keys
    ensures var after := RunBatch(batch, run, before, before);
            && after.Keys == before.Keys + Ids(batch) && Submap(before, after)
            && forall n :: n in batch ==> after[n.id] == run(n, before)
  {
    if batch != [] {
      var last, front := batch[|batch| - 1], batch[..|batch| - 1];
      assert batch == front + [last];
      BatchResults(front, run, before);
      forall n | n in batch ensures RunBatch(batch, run, before, before)[n.id] == run(n, before) {
        if n.id == last.id { assert n == last; }
      }
    }
  }

  lemma {:induction false} RunsSawDependencies(nodes: seq<Node>, run: Runner, completed: Completed)
    requires OnePerId(nodes) && Ids(nodes) !! completed.Keys
    ensures Submap(completed, RunFrom(nodes, run, completed))
    ensures forall n :: n in nodes && n !in Stuck(nodes, completed.Keys) ==>
              SawDependencies(n, run, RunFrom(nodes, run, completed))
    decreases |nodes|
  {
    var batch := Ready(nodes, completed.Keys);
    if batch != [] {
      var after := RunBatch(batch, run, completed, completed);
      var final := RunFrom(nodes, run, completed);
      BatchResults(batch, run, completed);
      var blocked := Blocked(nodes, completed.Keys);
      forall n, m | n in blocked && m in batch ensures n.id != m.id { assert n != m; }
      RunsSawDependencies(blocked, run, after);
      forall n | n in batch ensures SawDependencies(n, run, final) {
        assert Submap(completed, final) && final[n.id] == after[n.id] == run(n, completed);
      }
    }
  }

  /** No sub-task runs before its dependencies: every result comes from a snapshot that
      already held their final results. */
  lemma EveryResultSawItsDependencies(tasks: seq<Node>, run: Runner)
    ensures forall n :: n in Normalised(tasks) && n !in Stuck(Normalised(tasks), {}) ==>
              SawDependencies(n, run, RunFrom(Normalised(tasks), run, map[]))
  {
    var none: Completed := map[];
    assert none.Keys == {};
    RunsSawDependencies(Normalised(tasks), run, none);
  }

  // ------------------------------------------------------------ default decomposition

  function ListedIds(tasks: seq<Node>): seq<string>
  {
    seq(|tasks|, i requires 0 <= i < |tasks| => tasks[i].id)
  }

  /** Every task depends on all the tasks before it. */
  predicate Cumulative(tasks: seq<Node>)
  {
    forall i :: 0 <= i < |tasks| ==> tasks[i].deps == ListedIds(tasks[..i])
  }

  lemma AppendCumulative(tasks: seq<Node>, id: string)
    requires Cumulative(tasks)
    ensures Cumulative(tasks + [Node(id, ListedIds(tasks))])
    ensures ListedIds(tasks + [Node(id, ListedIds(tasks))]) == ListedIds(tasks) + [id]
  {
    var longer := tasks + [Node(id, ListedIds(tasks))];
    assert longer[..|tasks|] == tasks;
    forall i | 0 <= i < |tasks| ensures longer[i].deps == ListedIds(longer[..i]) {
      assert longer[..i] == tasks[..i];
    }
  }

  lemma CumulativeIsForward(tasks: seq<Node>)
    requires Cumulative(tasks)
    ensures Forward(tasks)
  {
    forall i, d | 0 <= i < |tasks| && d in tasks[i].deps ensures exists j :: 0 <= j < i && tasks[j].id == d {
      var j :| 0 <= j < i && ListedIds(tasks[..i])[j] == d;
      assert tasks[j].id == d;
    }
  }

  function Part(wanted: bool, id: string): seq<string> { if wanted then [id] else [] }

  function Steps(research: bool, analyze: bool, design: bool): seq<string>
  {
    Part(research, "st_research") + Part(analyze, "st_analyze") + Part(design, "st_design")
  }

  lemma StepsAreDistinct(tasks: seq<Node>, research: bool, analyze: bool, design: bool)
    requires ListedIds(tasks) == Steps(research, analyze, design)
    ensures Distinct(tasks)
  {
    var ids := Steps(research, analyze, design);
    assert "st_research"[3] == 'r' && "st_analyze"[3] == 'a' && "st_design"[3] == 'd';
    forall i, j | 0 <= i < j < |tasks| ensures tasks[i].id != tasks[j].id {
      assert tasks[i].id == ids[i] && tasks[j].id == ids[j];
    }
  }

  lemma {:induction false} DecompositionCompletes(tasks: seq<Node>)
    requires Cumulative(tasks)
    ensures Forward(tasks) && Stuck(tasks, {}) == []
  {
    CumulativeIsForward(tasks);
    ForwardListsComplete(tasks);
  }

  /** `mentions(w)` tells whether the lower-cased task text contains w. A complex task is cut
      into the steps it mentions, each depending on all before it. */
  method DefaultDecompose(isComplex: bool, mentions: string -> bool) returns (tasks: seq<Node>)
    ensures tasks != [] && Distinct(tasks) && Cumulative(tasks) && Forward(tasks)
    ensures Stuck(tasks, {}) == []
    ensures ListedIds(tasks) ==
              var parts := Steps(isComplex && (mentions("research") || mentions("investigate")),
                                 isComplex && (mentions("analyze") || mentions("evaluate")),
                                 isComplex && (mentions("design") || mentions("architect") || mentions("plan")));
              if parts == [] then ["st_main"] else parts
  {
    tasks := [];
    if !isComplex {
      tasks := [Node("st_main", [])];
      DecompositionCompletes(tasks);
      return;
    }
    var research := mentions("research") || mentions("investigate");
    if research {
      tasks := tasks + [Node("st_research", [])];
    }
    assert Cumulative(tasks) && ListedIds(tasks) == Steps(research, false, false);
    var analyze := mentions("analyze") || mentions("evaluate");
    if analyze {
      AppendCumulative(tasks, "st_analyze");
      tasks := tasks + [Node("st_analyze", ListedIds(tasks))];
    }
    assert Cumulative(tasks) && ListedIds(tasks) == Steps(research, analyze, false);
    var design := mentions("design") || mentions("architect") || mentions("plan");
    if design {
      AppendCumulative(tasks, "st_design");
      tasks := tasks + [Node("st_design", ListedIds(tasks))];
    }
    assert Cumulative(tasks) && ListedIds(tasks) == Steps(research, analyze, design);
    StepsAreDistinct(tasks, research, analyze, design);
    if tasks == [] {
      tasks := tasks + [Node("st_main", [])];
    }
    DecompositionCompletes(tasks);
  }
}
