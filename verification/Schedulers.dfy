/** The two schedulers side by side. */
module Schedulers {
  import opened TaskGraph
  import MultiAgent
  import ModelCoordinator

  /** On distinct ids both run the same layers: the orchestrator completes exactly the ids
      that the coordinator returns results for, which are the least fixed point, in the same
      batches, and one reports stuck tasks exactly when the other's counts fall short. */
  lemma {:induction false} SchedulersAgree(tasks: seq<Node>, run: MultiAgent.Runner, models: ModelCoordinator.Models)
    requires Distinct(tasks)
    ensures var results := ModelCoordinator.ResultsFrom(tasks, {}, models);
            var completed := MultiAgent.RunFrom(MultiAgent.Normalised(tasks), run, map[]);
            && completed.Keys == ModelCoordinator.TaskIds(results)
            && (forall id :: id in completed <==> Completable(tasks, id))
            && results == ModelCoordinator.ResultsOfLayers(Layers(MultiAgent.Normalised(tasks), {}), models)
            && (|completed| < |tasks| <==> |results| < |tasks|)
  {
    var results := ModelCoordinator.ResultsFrom(tasks, {}, models);
    var completed := MultiAgent.RunFrom(tasks, run, map[]);
    MultiAgent.DistinctIsNormal(tasks);
    MultiAgent.CompletedIsCompletable(tasks, run);
    ModelCoordinator.ResultsAreCompletable(tasks, models);
    ModelCoordinator.ResultsFollowLayers(tasks, {}, models);
    assert |completed| == |completed.Keys|;
    FallShortTogether(tasks, models);
  }

  lemma {:induction false} FallShortTogether(tasks: seq<Node>, models: ModelCoordinator.Models)
    requires Distinct(tasks)
    ensures |Finished(tasks, {})| < |tasks| <==> |ModelCoordinator.ResultsFrom(tasks, {}, models)| < |tasks|
  {
    MultiAgent.DistinctIsNormal(tasks);
    MultiAgent.StuckIff(tasks);
    ModelCoordinator.ResultsCountTheRun(tasks, {}, models);
    PeelingIsLeast(tasks, tasks, {});
    LayersReachLeastFixedPoint(tasks);
    var done := Finished(tasks, {});
    if Stuck(tasks, {}) == [] {
      forall t | t in tasks ensures Completable(tasks, t.id) {
        assert t !in Stuck(tasks, {}) && Satisfied(t, done) && t.id in done;
      }
    } else {
      var t := Stuck(tasks, {})[0];
      assert t in Stuck(tasks, {});
      MultiAgent.IdsAtMost(tasks);
      StuckIsUnfinished(tasks, {}, t);
    }
  }

  lemma {:induction false} StuckIsUnfinished(nodes: seq<Node>, done: set<string>, t: Node)
    requires Distinct(nodes) && t in Stuck(nodes, done) && t.id !in done
    ensures t.id !in Finished(nodes, done)
    decreases |nodes|
  {
    if Ready(nodes, done) != [] {
      BlockedIsDisjoint(nodes, done);
      StuckWithin(Blocked(nodes, done), done + Ids(Ready(nodes, done)), t);
      StuckIsUnfinished(Blocked(nodes, done), done + Ids(Ready(nodes, done)), t);
    }
  }

  lemma {:induction false} StuckWithin(nodes: seq<Node>, done: set<string>, t: Node)
    requires t in Stuck(nodes, done)
    ensures t in nodes && t.id in Ids(nodes)
    decreases |nodes|
  {
    if Ready(nodes, done) != [] {
      StuckWithin(Blocked(nodes, done), done + Ids(Ready(nodes, done)), t);
    }
  }
}
