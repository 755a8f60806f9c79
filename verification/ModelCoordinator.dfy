/** The model coordinator: the same peeling on a shrinking task list. */
module ModelCoordinator {
  import opened TaskGraph

  datatype TaskResult = TaskResult(taskId: string, success: bool, error: string)

  /** What executing a task yields; every exception inside it becomes a failure. */
  datatype Outcome = Outcome(success: bool, error: string)

  /** The task ids that were assigned a model, and how each execution turns out. */
  datatype Models = Models(withModel: set<string>, outcome: Node -> Outcome)

  datatype Strategy = Parallel | Sequential | Mixed

  // ------------------------------------------------------------ what the run computes

  function NoModel(n: Node): TaskResult { TaskResult(n.id, false, "No compatible model") }

  function Execute(n: Node, models: Models): TaskResult
  {
    TaskResult(n.id, models.outcome(n).success, models.outcome(n).error)
  }

  function Unassigned(batch: seq<Node>, models: Models): seq<TaskResult>
  {
    if batch == [] then []
    else
      var last := batch[|batch| - 1];
      Unassigned(batch[..|batch| - 1], models) + if last.id in models.withModel then [] else [NoModel(last)]
  }

  function Executed(batch: seq<Node>, models: Models): seq<TaskResult>
  {
    if batch == [] then []
    else
      var last := batch[|batch| - 1];
      Executed(batch[..|batch| - 1], models) + if last.id in models.withModel then [Execute(last, models)] else []
  }

  /** Tasks without a model fail first, then the others' outcomes, each in list order. */
  function BatchResults(batch: seq<Node>, models: Models): seq<TaskResult>
  {
    Unassigned(batch, models) + Executed(batch, models)
  }

  function ResultsFrom(nodes: seq<Node>, done: set<string>, models: Models): seq<TaskResult>
    decreases |nodes|
  {
    var batch := Ready(nodes, done);
    if batch == [] then []
    else BatchResults(batch, models) + ResultsFrom(Blocked(nodes, done), done + Ids(batch), models)
  }

  function RemoveFirst(nodes: seq<Node>, n: Node): seq<Node>
  {
    if nodes == [] then [] else if nodes[0] == n then nodes[1..] else [nodes[0]] + RemoveFirst(nodes[1..], n)
  }

  function RemoveAll(nodes: seq<Node>, gone: seq<Node>): seq<Node>
    decreases |gone|
  {
    if gone == [] then nodes else RemoveAll(RemoveFirst(nodes, gone[0]), gone[1..])
  }

  function Successes(results: seq<TaskResult>): nat
  {
    if results == [] then 0
    else Successes(results[..|results| - 1]) + if results[|results| - 1].success then 1 else 0
  }

  predicate HasDependencies(tasks: seq<Node>) { exists n :: n in tasks && n.deps != [] }

  // ----------------------------------------------------------------- list surgery

  lemma {:induction false} RemoveAllSkipsHead(n: Node, rest: seq<Node>, gone: seq<Node>)
    requires n !in gone
    ensures RemoveAll([n] + rest, gone) == [n] + RemoveAll(rest, gone)
    decreases |gone|
  {
    if gone != [] {
      assert ([n] + rest)[1..] == rest;
      RemoveAllSkipsHead(n, RemoveFirst(rest, gone[0]), gone[1..]);
    }
  }

  /** Removing the ready tasks one by one, first equal element first, leaves the blocked ones. */
  lemma {:induction false} RemovingReady(nodes: seq<Node>, done: set<string>)
    ensures RemoveAll(nodes, Ready(nodes, done)) == Blocked(nodes, done)
  {
    if nodes != [] {
      var n, rest := nodes[0], nodes[1..];
      RemovingReady(rest, done);
      assert nodes == [n] + rest;
      if Satisfied(n, done) {
        assert Ready(nodes, done)[1..] == Ready(rest, done);
        assert RemoveFirst(nodes, n) == rest;
      } else {
        assert Ready(nodes, done) == Ready(rest, done);
        RemoveAllSkipsHead(n, rest, Ready(rest, done));
      }
    }
  }

  lemma {:induction false} NoDependenciesAllReady(tasks: seq<Node>, done: set<string>)
    requires !HasDependencies(tasks)
    ensures Ready(tasks, done) == tasks && Blocked(tasks, done) == []
  {
    if tasks != [] {
      assert tasks[0] in tasks;
      assert !HasDependencies(tasks[1..]) by {
        forall n | n in tasks[1..] ensures n.deps == [] { assert n in tasks; }
      }
      NoDependenciesAllReady(tasks[1..], done);
    }
  }

  lemma {:induction false} OneLayerResults(tasks: seq<Node>, models: Models)
    requires !HasDependencies(tasks)
    ensures ResultsFrom(tasks, {}, models) == BatchResults(tasks, models)
  {
    NoDependenciesAllReady(tasks, {});
    assert ResultsFrom([], Ids(tasks), models) == [];
    if tasks != [] {
      assert ResultsFrom(tasks, {}, models) == BatchResults(tasks, models) + [];
    }
  }

  // ----------------------------------------------------------------- the scheduler

  lemma {:induction false} OneMoreTask(tasks: seq<Node>, n: Node, models: Models)
    ensures Ids(tasks + [n]) == Ids(tasks) + {n.id}
    ensures Unassigned(tasks + [n], models)
            == Unassigned(tasks, models) + if n.id in models.withModel then [] else [NoModel(n)]
    ensures Executed(tasks + [n], models)
            == Executed(tasks, models) + if n.id in models.withModel then [Execute(n, models)] else []
  {
    assert (tasks + [n])[..|tasks|] == tasks;
  }

  /** Tasks without a model fail and complete at once; the others are set aside. */
  method SetAside(batch: seq<Node>, models: Models, before: set<string>)
    returns (results: seq<TaskResult>, completed: set<string>, pending: seq<Node>)
    ensures results == Unassigned(batch, models)
    ensures Executed(pending, models) == Executed(batch, models)
    ensures forall n :: n in pending ==> n.id in models.withModel
    ensures completed + Ids(pending) == before + Ids(batch)
  {
    results, completed, pending := [], before, [];
    for i := 0 to |batch|
      invariant results == Unassigned(batch[..i], models)
      invariant Executed(pending, models) == Executed(batch[..i], models)
      invariant forall n :: n in pending ==> n.id in models.withModel
      invariant completed + Ids(pending) == before + Ids(batch[..i])
    {
      var task := batch[i];
      assert batch[..i + 1] == batch[..i] + [task];
      OneMoreTask(batch[..i], task, models);
      OneMoreTask(pending, task, models);
      if task.id !in models.withModel {
        results := results + [NoModel(task)];
        completed := completed + {task.id};
      } else {
        pending := pending + [task];
      }
    }
    assert batch[..|batch|] == batch;
  }

  method RunTasks(batch: seq<Node>, models: Models, before: set<string>)
    returns (results: seq<TaskResult>, completed: set<string>)
    ensures results == BatchResults(batch, models)
    ensures completed == before + Ids(batch)
  {
    var pending;
    results, completed, pending := SetAside(batch, models, before);
    ghost var failures, already := results, completed;
    for i := 0 to |pending|
      invariant results == failures + Executed(pending[..i], models)
      invariant completed == already + Ids(pending[..i])
    {
      assert pending[..i + 1] == pending[..i] + [pending[i]];
      assert pending[i] in pending;
      var result := Execute(pending[i], models);
      results := results + [result];
      completed := completed + {result.taskId};
    }
    assert pending[..|pending|] == pending;
  }

  method RemoveBatch(tasks: seq<Node>, batch: seq<Node>) returns (remaining: seq<Node>)
    ensures remaining == RemoveAll(tasks, batch)
  {
    remaining := tasks;
    for i := 0 to |batch|
      invariant RemoveAll(remaining, batch[i..]) == RemoveAll(tasks, batch)
    {
      assert batch[i..][0] == batch[i] && batch[i..][1..] == batch[i + 1..];
      remaining := RemoveFirst(remaining, batch[i]);
    }
  }

  method ExecutePlan(tasks: seq<Node>, strategy: Strategy, models: Models)
    returns (results: seq<TaskResult>, total: nat, successful: nat, failed: nat)
    ensures results == ResultsOfLayers(Layers(tasks, {}), models)
    ensures forall id :: id in TaskIds(results) <==> Completable(tasks, id)
    ensures total == |tasks| && successful + failed == |results|
    ensures successful == |Winners(tasks, models)|
  {
    var completed: set<string>;
    if strategy == Parallel && !HasDependencies(tasks) {
      results, completed := RunTasks(tasks, models, {});
      OneLayerResults(tasks, models);
    } else {
      results, completed := [], {};
      var remaining := tasks;
      while remaining != []
        invariant results + ResultsFrom(remaining, completed, models) == ResultsFrom(tasks, {}, models)
        decreases |remaining|
      {
        var batch := Ready(remaining, completed);
        if batch == [] {
          break;
        }
        RemovingReady(remaining, completed);
        ghost var rest := ResultsFrom(Blocked(remaining, completed), completed + Ids(batch), models);
        assert results + (BatchResults(batch, models) + rest) == results + BatchResults(batch, models) + rest;
        var more;
        more, completed := RunTasks(batch, models, completed);
        results := results + more;
        remaining := RemoveBatch(remaining, batch);
      }
    }
    ResultsFollowLayers(tasks, {}, models);
    ResultsAreCompletable(tasks, models);
    successful := CountSuccesses(results);
    SuccessesAreWinners(tasks, models);
    total, failed := |tasks|, |results| - successful;
  }

  method CountSuccesses(results: seq<TaskResult>) returns (n: nat)
    ensures n == Successes(results) && n <= |results|
  {
    n := 0;
    for i := 0 to |results|
      invariant n == Successes(results[..i]) && n <= i
    {
      assert results[..i + 1][..i] == results[..i];
      n := n + if results[i].success then 1 else 0;
    }
    assert results[..|results|] == results;
  }

  // -------------------------------------------------------------------- theorems

  lemma {:induction false} BatchSize(batch: seq<Node>, models: Models)
    ensures |BatchResults(batch, models)| == |batch|
    ensures forall n :: n in batch ==> exists r :: r in BatchResults(batch, models) && r.taskId == n.id
  {
    if batch != [] {
      var last, front := batch[|batch| - 1], batch[..|batch| - 1];
      BatchSize(front, models);
      assert batch == front + [last];
      var r := if last.id in models.withModel then Execute(last, models) else NoModel(last);
      assert r in BatchResults(batch, models);
      forall n | n in batch ensures exists r :: r in BatchResults(batch, models) && r.taskId == n.id {
        if n in front {
          var r :| r in BatchResults(front, models) && r.taskId == n.id;
          assert r in BatchResults(batch, models);
        }
      }
    }
  }

  lemma {:induction false} ResultsCountTheRun(nodes: seq<Node>, done: set<string>, models: Models)
    ensures |ResultsFrom(nodes, done, models)| + |Stuck(nodes, done)| == |nodes|
    decreases |nodes|
  {
    var batch := Ready(nodes, done);
    if batch != [] {
      BatchSize(batch, models);
      ResultsCountTheRun(Blocked(nodes, done), done + Ids(batch), models);
    }
  }

  function TaskIds(results: seq<TaskResult>): set<string> { set r | r in results :: r.taskId }

  lemma {:induction false} BatchIds(batch: seq<Node>, models: Models)
    ensures TaskIds(BatchResults(batch, models)) == Ids(batch)
  {
    if batch != [] {
      var last, front := batch[|batch| - 1], batch[..|batch| - 1];
      BatchIds(front, models);
      assert batch == front + [last];
      OneMoreTask(front, last, models);
      OneMoreResult(front, last, models);
    }
  }

  lemma OneMoreResult(front: seq<Node>, last: Node, models: Models)
    ensures TaskIds(BatchResults(front + [last], models)) == TaskIds(BatchResults(front, models)) + {last.id}
  {
    OneMoreTask(front, last, models);
    var r := if last.id in models.withModel then Execute(last, models) else NoModel(last);
    assert forall x :: x in BatchResults(front + [last], models) <==> x in BatchResults(front, models) || x == r;
    assert r in BatchResults(front + [last], models);
  }

  lemma ConcatIds(a: seq<TaskResult>, b: seq<TaskResult>)
    ensures TaskIds(a + b) == TaskIds(a) + TaskIds(b)
  {
    assert forall x :: x in a + b <==> x in a || x in b;
  }

  lemma {:induction false} ResultsReachFinished(nodes: seq<Node>, done: set<string>, models: Models)
    ensures done + TaskIds(ResultsFrom(nodes, done, models)) == Finished(nodes, done)
    decreases |nodes|
  {
    var batch := Ready(nodes, done);
    if batch != [] {
      var rest := ResultsFrom(Blocked(nodes, done), done + Ids(batch), models);
      BatchIds(batch, models);
      ConcatIds(BatchResults(batch, models), rest);
      ResultsReachFinished(Blocked(nodes, done), done + Ids(batch), models);
    }
  }

  /** The coordinator returns results for exactly the least fixed point of "every
      dependency is finished". */
  lemma {:induction false} ResultsAreCompletable(tasks: seq<Node>, models: Models)
    ensures TaskIds(ResultsFrom(tasks, {}, models)) == Finished(tasks, {})
    ensures forall id :: id in TaskIds(ResultsFrom(tasks, {}, models)) <==> Completable(tasks, id)
  {
    ResultsReachFinished(tasks, {}, models);
    LayersReachLeastFixedPoint(tasks);
  }

  function ResultsOfLayers(layers: seq<seq<Node>>, models: Models): seq<TaskResult>
  {
    if layers == [] then [] else BatchResults(layers[0], models) + ResultsOfLayers(layers[1..], models)
  }

  /** It does so layer by layer: its results are those of the layers, batch after batch. */
  lemma {:induction false} ResultsFollowLayers(nodes: seq<Node>, done: set<string>, models: Models)
    ensures ResultsFrom(nodes, done, models) == ResultsOfLayers(Layers(nodes, done), models)
    decreases |nodes|
  {
    var batch := Ready(nodes, done);
    if batch != [] {
      var rest := Layers(Blocked(nodes, done), done + Ids(batch));
      ResultsFollowLayers(Blocked(nodes, done), done + Ids(batch), models);
      assert Layers(nodes, done) == [batch] + rest && ([batch] + rest)[1..] == rest;
    }
  }

  /** Leftover tasks get no result at all: the counts add up to the total exactly when every
      task's dependencies lie in the least fixed point. */
  lemma {:induction false} CountsAddUpIff(tasks: seq<Node>, models: Models)
    ensures |ResultsFrom(tasks, {}, models)| == |tasks|
            <==> forall n, d :: n in tasks && d in n.deps ==> Completable(tasks, d)
  {
    ResultsCountTheRun(tasks, {}, models);
    LayersReachLeastFixedPoint(tasks);
    if Stuck(tasks, {}) != [] { assert Stuck(tasks, {})[0] in Stuck(tasks, {}); }
  }

  /** "All successful" only says that nothing failed: a plan passes with no result at all
      exactly when every task of it waits for another. */
  lemma {:induction false} WaitingPlanPassesIff(tasks: seq<Node>, models: Models)
    ensures ResultsFrom(tasks, {}, models) == [] <==> forall n :: n in tasks ==> n.deps != []
  {
    BatchSize(Ready(tasks, {}), models);
    if forall n :: n in tasks ==> n.deps != [] {
      forall n | n in tasks ensures !Satisfied(n, {}) { assert n.deps[0] in n.deps; }
      assert forall n :: n !in Ready(tasks, {});
    } else {
      var n :| n in tasks && n.deps == [];
      assert n in Ready(tasks, {});
    }
  }

  // ----------------------------------------------------- what the results say, task by task

  /** The task is reported by a result that is wanted: the task's id with what executing it
      yielded, or, without a model, a failure. */
  predicate Reported(n: Node, models: Models, want: TaskResult -> bool)
  {
    if n.id in models.withModel
    then want(TaskResult(n.id, models.outcome(n).success, models.outcome(n).error))
    else want(TaskResult(n.id, false, "No compatible model"))
  }

  function Matches(results: seq<TaskResult>, want: TaskResult -> bool): set<nat>
  {
    set j: nat | j < |results| && want(results[j])
  }

  /** The places of the tasks that are not left over and are reported by a wanted result. */
  function Places(tasks: seq<Node>, finished: set<string>, models: Models, want: TaskResult -> bool): set<nat>
  {
    set i: nat | i < |tasks| && Satisfied(tasks[i], finished) && Reported(tasks[i], models, want)
  }

  lemma {:induction false} MatchesConcat(a: seq<TaskResult>, b: seq<TaskResult>, want: TaskResult -> bool)
    ensures |Matches(a + b, want)| == |Matches(a, want)| + |Matches(b, want)|
    decreases |b|
  {
    if b == [] {
      assert a + b == a;
    } else {
      var front, last := b[..|b| - 1], b[|b| - 1];
      assert b == front + [last] && a + b == a + front + [last];
      MatchesConcat(a, front, want);
      MatchOneMore(front, last, want);
      MatchOneMore(a + front, last, want);
    }
  }

  lemma MatchOneMore(results: seq<TaskResult>, r: TaskResult, want: TaskResult -> bool)
    ensures |Matches(results + [r], want)| == |Matches(results, want)| + if want(r) then 1 else 0
  {
    assert Matches(results + [r], want) == Matches(results, want) + if want(r) then {|results|} else {};
  }

  lemma PlaceOneMore(tasks: seq<Node>, n: Node, finished: set<string>, models: Models, want: TaskResult -> bool)
    ensures |Places(tasks + [n], finished, models, want)|
            == |Places(tasks, finished, models, want)| + if Satisfied(n, finished) && Reported(n, models, want) then 1 else 0
  {
    assert Places(tasks + [n], finished, models, want) == Places(tasks, finished, models, want)
           + if Satisfied(n, finished) && Reported(n, models, want) then {|tasks|} else {};
  }

  lemma {:induction false} PlacesConcat(a: seq<Node>, b: seq<Node>, finished: set<string>, models: Models, want: TaskResult -> bool)
    ensures |Places(a + b, finished, models, want)| == |Places(a, finished, models, want)| + |Places(b, finished, models, want)|
    decreases |b|
  {
    if b == [] {
      assert a + b == a;
    } else {
      var front, last := b[..|b| - 1], b[|b| - 1];
      assert b == front + [last] && a + b == a + front + [last];
      PlacesConcat(a, front, finished, models, want);
      PlaceOneMore(front, last, finished, models, want);
      PlaceOneMore(a + front, last, finished, models, want);
    }
  }

  lemma {:induction false} PlacesSplit(nodes: seq<Node>, done: set<string>, finished: set<string>, models: Models, want: TaskResult -> bool)
    ensures |Places(nodes, finished, models, want)|
            == |Places(Ready(nodes, done), finished, models, want)| + |Places(Blocked(nodes, done), finished, models, want)|
  {
    if nodes != [] {
      var n, rest := nodes[0], nodes[1..];
      assert nodes == [n] + rest;
      PlacesSplit(rest, done, finished, models, want);
      PlacesConcat([n], rest, finished, models, want);
      PlacesConcat([n], Ready(rest, done), finished, models, want);
      PlacesConcat([n], Blocked(rest, done), finished, models, want);
    }
  }

  lemma {:induction false} BatchReports(batch: seq<Node>, finished: set<string>, models: Models, want: TaskResult -> bool)
    requires forall n :: n in batch ==> Satisfied(n, finished)
    ensures |Matches(BatchResults(batch, models), want)| == |Places(batch, finished, models, want)|
  {
    MatchesConcat(Unassigned(batch, models), Executed(batch, models), want);
    if batch != [] {
      var front, last := batch[..|batch| - 1], batch[|batch| - 1];
      assert batch == front + [last] && last in batch;
      BatchReports(front, finished, models, want);
      MatchesConcat(Unassigned(front, models), Executed(front, models), want);
      PlaceOneMore(front, last, finished, models, want);
      OneMoreTask(front, last, models);
      assert Unassigned(front, models) + [] == Unassigned(front, models);
      assert Executed(front, models) + [] == Executed(front, models);
      MatchOneMore(Unassigned(front, models), NoModel(last), want);
      MatchOneMore(Executed(front, models), Execute(last, models), want);
    }
  }

  lemma {:induction false} FinishedGrows(nodes: seq<Node>, done: set<string>)
    ensures done <= Finished(nodes, done)
    decreases |nodes|
  {
    if Ready(nodes, done) != [] { FinishedGrows(Blocked(nodes, done), done + Ids(Ready(nodes, done))); }
  }

  lemma {:induction false} RunReports(nodes: seq<Node>, done: set<string>, models: Models, want: TaskResult -> bool)
    ensures |Matches(ResultsFrom(nodes, done, models), want)| == |Places(nodes, Finished(nodes, done), models, want)|
    decreases |nodes|
  {
    var batch, finished := Ready(nodes, done), Finished(nodes, done);
    if batch == [] {
      forall i: nat | i < |nodes| ensures !Satisfied(nodes[i], done) { assert nodes[i] !in batch; }
      assert Places(nodes, finished, models, want) == {};
    } else {
      FinishedGrows(nodes, done);
      RunReports(Blocked(nodes, done), done + Ids(batch), models, want);
      PlacesSplit(nodes, done, finished, models, want);
      BatchReports(batch, finished, models, want);
      MatchesConcat(BatchResults(batch, models), ResultsFrom(Blocked(nodes, done), done + Ids(batch), models), want);
    }
  }

  /** Every dependency of the task lies in the least fixed point. */
  ghost predicate Runs(tasks: seq<Node>, n: Node) { forall d :: d in n.deps ==> Completable(tasks, d) }

  /** The places of the tasks that run and are reported by a wanted result. */
  ghost function RunPlaces(tasks: seq<Node>, models: Models, want: TaskResult -> bool): set<nat>
  {
    set i: nat | i < |tasks| && Runs(tasks, tasks[i]) && Reported(tasks[i], models, want)
  }

  /** Whatever is asked of a result, as many results have it as there are tasks that run and
      whose id, success and error have it: each task that runs is reported once, with its
      execution's outcome if it has a model and as a failure if it has none. */
  lemma {:induction false} ResultsTellOutcomes(tasks: seq<Node>, models: Models, want: TaskResult -> bool)
    ensures |Matches(ResultsFrom(tasks, {}, models), want)| == |RunPlaces(tasks, models, want)|
  {
    RunReports(tasks, {}, models, want);
    LayersReachLeastFixedPoint(tasks);
    assert RunPlaces(tasks, models, want) == Places(tasks, Finished(tasks, {}), models, want);
  }

  /** The tasks that succeed: they run, have a model, and their execution succeeds. */
  ghost function Winners(tasks: seq<Node>, models: Models): set<nat>
  {
    set i: nat | i < |tasks| && Runs(tasks, tasks[i]) && tasks[i].id in models.withModel && models.outcome(tasks[i]).success
  }

  lemma {:induction false} SuccessesAreMatches(results: seq<TaskResult>)
    ensures Successes(results) == |Matches(results, (r: TaskResult) => r.success)|
  {
    if results != [] {
      var front, last := results[..|results| - 1], results[|results| - 1];
      SuccessesAreMatches(front);
      assert results == front + [last];
      MatchOneMore(front, last, (r: TaskResult) => r.success);
    }
  }

  lemma {:induction false} SuccessesAreWinners(tasks: seq<Node>, models: Models)
    ensures Successes(ResultsFrom(tasks, {}, models)) == |Winners(tasks, models)|
  {
    var succeeds := (r: TaskResult) => r.success;
    var results := ResultsFrom(tasks, {}, models);
    ResultsTellOutcomes(tasks, models, succeeds);
    SuccessesAreMatches(results);
    assert Matches(results, (r: TaskResult) => r.success) == Matches(results, succeeds);
    assert Winners(tasks, models) == RunPlaces(tasks, models, succeeds);
  }

  /** One task's own result. */
  predicate Tells(r: TaskResult, n: Node, models: Models)
  {
    && r.taskId == n.id
    && if n.id in models.withModel
       then r.success == models.outcome(n).success && r.error == models.outcome(n).error
       else !r.success && r.error == "No compatible model"
  }

  /** With distinct ids, every result tells of the task with its id, and every task that runs
      has exactly one result. */
  lemma {:induction false} ResultsTell(tasks: seq<Node>, models: Models)
    requires Distinct(tasks)
    ensures var results := ResultsFrom(tasks, {}, models);
            && (forall r, n :: r in results && n in tasks && n.id == r.taskId ==> Runs(tasks, n) && Tells(r, n, models))
            && (forall r :: r in results ==> r.taskId in Ids(tasks))
            && (forall n :: n in tasks && Runs(tasks, n) ==> exists r :: r in results && Tells(r, n, models))
            && forall j, k :: 0 <= j < k < |results| ==> results[j].taskId != results[k].taskId
  {
    var results := ResultsFrom(tasks, {}, models);
    forall r | r in results
      ensures r.taskId in Ids(tasks)
      ensures forall n :: n in tasks && n.id == r.taskId ==> Runs(tasks, n) && Tells(r, n, models)
    {
      ResultHasTask(tasks, models, r);
    }
    forall n | n in tasks && Runs(tasks, n) ensures exists r :: r in results && Tells(r, n, models) {
      TaskHasResult(tasks, models, n);
    }
    forall j, k | 0 <= j < k < |results| ensures results[j].taskId != results[k].taskId {
      OnePerId(tasks, models, j, k);
    }
  }

  lemma Someone(results: seq<TaskResult>, tasks: seq<Node>, models: Models, want: TaskResult -> bool)
    requires |Matches(results, want)| == |RunPlaces(tasks, models, want)|
    ensures (exists r :: r in results && want(r))
            <==> exists n :: n in tasks && Runs(tasks, n) && Reported(n, models, want)
  {
    var found, places := Matches(results, want), RunPlaces(tasks, models, want);
    if r :| r in results && want(r) {
      var j: nat :| j < |results| && results[j] == r;
      assert j in found && |places| != 0;
      var i: nat :| i in places;
      assert tasks[i] in tasks;
    }
    if n :| n in tasks && Runs(tasks, n) && Reported(n, models, want) {
      var i: nat :| i < |tasks| && tasks[i] == n;
      assert i in places && |found| != 0;
      var j: nat :| j in found;
      assert results[j] in results;
    }
  }

  lemma {:induction false} ResultHasTask(tasks: seq<Node>, models: Models, r: TaskResult)
    requires Distinct(tasks) && r in ResultsFrom(tasks, {}, models)
    ensures r.taskId in Ids(tasks)
    ensures forall n :: n in tasks && n.id == r.taskId ==> Runs(tasks, n) && Tells(r, n, models)
  {
    var want := (x: TaskResult) => x == r;
    ResultsTellOutcomes(tasks, models, want);
    Someone(ResultsFrom(tasks, {}, models), tasks, models, want);
    assert want(r);
    var m :| m in tasks && Runs(tasks, m) && Reported(m, models, want);
    assert Tells(r, m, models);
  }

  lemma {:induction false} TaskHasResult(tasks: seq<Node>, models: Models, n: Node)
    requires n in tasks && Runs(tasks, n)
    ensures exists r :: r in ResultsFrom(tasks, {}, models) && Tells(r, n, models)
  {
    var own := if n.id in models.withModel then Execute(n, models) else NoModel(n);
    var want := (x: TaskResult) => x == own;
    var results := ResultsFrom(tasks, {}, models);
    assert Reported(n, models, want) && Tells(own, n, models);
    ResultsTellOutcomes(tasks, models, want);
    Someone(results, tasks, models, want);
  }

  lemma {:induction false} OnePerId(tasks: seq<Node>, models: Models, j: nat, k: nat)
    requires Distinct(tasks) && j < k < |ResultsFrom(tasks, {}, models)|
    ensures ResultsFrom(tasks, {}, models)[j].taskId != ResultsFrom(tasks, {}, models)[k].taskId
  {
    var results := ResultsFrom(tasks, {}, models);
    var id := results[j].taskId;
    var want := (x: TaskResult) => x.taskId == id;
    ResultsTellOutcomes(tasks, models, want);
    AtMostOne(tasks, models, id, want);
    if results[k].taskId == id { AtLeastTwo(Matches(results, want), j, k); }
  }

  lemma AtLeastTwo(s: set<nat>, j: nat, k: nat)
    requires j != k && j in s && k in s
    ensures |s| >= 2
  {
    assert |s - {j}| == |s| - 1 && k in s - {j};
  }

  lemma AtMostOne(tasks: seq<Node>, models: Models, id: string, want: TaskResult -> bool)
    requires Distinct(tasks) && forall x: TaskResult :: want(x) ==> x.taskId == id
    ensures |RunPlaces(tasks, models, want)| <= 1
  {
    var places := RunPlaces(tasks, models, want);
    if places != {} {
      var i :| i in places;
      assert places == {i};
    }
  }
}
