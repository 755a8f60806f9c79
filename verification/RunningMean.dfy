/** The registry's running success rate, rounded to three decimals at every result. */
module RunningMean {
  import opened Wrappers

  datatype Config = Config(
    latencyAvg: Option<real>, costInput: Option<real>, costOutput: Option<real>,
    successRate: Option<real>, usageCount: Option<nat>)

  datatype Model = Model(id: string, status: string, config: Config)

  // ------------------------------------------------------------------------ rounding

  function Nearest(x: real): int
  {
    var below := x.Floor;
    var part := x - below as real;
    if part < 0.5 then below else if part > 0.5 then below + 1 else if below % 2 == 0 then below else below + 1
  }

  /** `round(x, 3)`: half to even. */
  function Round3(x: real): real { Nearest(x * 1000.0) as real / 1000.0 }

  function Abs(x: real): real { if x < 0.0 then -x else x }

  lemma NearestIsNear(x: real)
    ensures Abs(Nearest(x) as real - x) <= 0.5
  {
  }

  lemma NearestIs(x: real, k: int)
    requires Abs(k as real - x) < 0.5
    ensures Nearest(x) == k
  {
    NearestIsNear(x);
    var gap := Nearest(x) as real - k as real;
    assert -1.0 < gap < 1.0 && gap == (Nearest(x) - k) as real;
  }

  lemma Scale(c: real, a: real, b: real)
    requires c >= 0.0 && a <= b
    ensures c * a <= c * b
  {
  }

  lemma ScaleUnit(c: real, a: real, p: real)
    requires c >= 0.0 && 0.0 <= a <= 1.0 && p == c * a
    ensures 0.0 <= p <= c
  {
    assert c * (1.0 - a) >= 0.0;
    assert c * (1.0 - a) == c - p;
  }

  /** Comparing scaled values compares the values. */
  lemma Unscale(c: real, a: real, b: real, ca: real, cb: real)
    requires c > 0.0 && ca == c * a && cb == c * b
    ensures ca <= cb <==> a <= b
    ensures ca < cb <==> a < b
  {
    if a < b {
      assert c * (b - a) > 0.0 && c * (b - a) == cb - ca;
    } else if b < a {
      assert c * (a - b) > 0.0 && c * (a - b) == ca - cb;
    }
  }

  lemma AbsScale(c: real, a: real)
    requires c >= 0.0
    ensures Abs(c * a) == c * Abs(a)
  {
    Scale(c, 0.0, Abs(a));
    assert c * (-a) == -(c * a);
  }

  lemma AbsScaled(c: real, a: real, p: real, k: real)
    requires c >= 0.0 && p == c * a
    ensures c * (Abs(a) * k) == Abs(p) * k
  {
    AbsScale(c, a);
    assert c * (Abs(a) * k) == (c * Abs(a)) * k;
  }

  lemma AbsSum(a: real, b: real)
    ensures Abs(a + b) <= Abs(a) + Abs(b)
  {
  }

  lemma NearestWithin(x: real, lo: int, hi: int)
    requires lo as real <= x <= hi as real
    ensures lo <= Nearest(x) <= hi
  {
  }

  lemma Round3Error(x: real)
    ensures Abs(Round3(x) - x) <= 1.0 / 2000.0
  {
    NearestIsNear(x * 1000.0);
  }

  lemma Round3Unit(x: real)
    requires 0.0 <= x <= 1.0
    ensures 0.0 <= Round3(x) <= 1.0
  {
    NearestWithin(x * 1000.0, 0, 1000);
  }

  // ------------------------------------------------------------------------ recording

  function GetOr<T>(value: Option<T>, default: T): T { match value case Some(v) => v case None => default }

  function Bit(success: bool): real { if success then 1.0 else 0.0 }

  function Mean(rate: real, usage: nat, success: bool): real
    requires usage > 0
  {
    (rate * (usage - 1) as real + Bit(success)) / usage as real
  }

  function Merge(c: Config, latency: Option<real>, costIn: Option<real>, costOut: Option<real>,
                 rate: Option<real>, usage: Option<nat>): Config
  {
    Config(if latency.Some? then latency else c.latencyAvg, if costIn.Some? then costIn else c.costInput,
           if costOut.Some? then costOut else c.costOutput, if rate.Some? then rate else c.successRate,
           if usage.Some? then usage else c.usageCount)
  }

  function Record(c: Config, success: bool, latency: real): Config
  {
    var usage := GetOr(c.usageCount, 0) + 1;
    Merge(c, Some(latency), None, None, Some(Round3(Mean(GetOr(c.successRate, 1.0), usage, success))), Some(usage))
  }

  class ModelRegistry {
    var models: map<string, Model>

    constructor ()
      ensures models == map[]
    {
      models := map[];
    }

    method Upsert(model: Model) returns (isNew: bool)
      modifies this
      ensures models == old(models)[model.id := model] && isNew == (model.id !in old(models))
    {
      isNew := model.id !in models;
      models := models[model.id := model];
    }

    method UpdateMetrics(id: string, latency: Option<real>, costIn: Option<real>, costOut: Option<real>,
                         rate: Option<real>, usage: Option<nat>, status: Option<string>) returns (found: bool)
      modifies this
      ensures found == (id in old(models))
      ensures models == if !found then old(models) else
        old(models)[id := old(models)[id].(config := Merge(old(models)[id].config, latency, costIn, costOut, rate, usage),
                                           status := GetOr(status, old(models)[id].status))]
    {
      if id !in models {
        return false;
      }
      var model := models[id];
      var config := model.config;
      if latency.Some? { config := config.(latencyAvg := latency); }
      if costIn.Some? { config := config.(costInput := costIn); }
      if costOut.Some? { config := config.(costOutput := costOut); }
      if rate.Some? { config := config.(successRate := rate); }
      if usage.Some? { config := config.(usageCount := usage); }
      if status.Some? { model := model.(status := status.value); }
      models := models[id := model.(config := config)];
      found := true;
    }

    /** The coordinator's update after one result. */
    method UpdateRegistryMetrics(id: string, success: bool, latencyMs: real)
      modifies this
      ensures models == if id !in old(models) then old(models) else
        old(models)[id := old(models)[id].(config := Record(old(models)[id].config, success, latencyMs / 1000.0))]
    {
      if id !in models {
        return;
      }
      var config := models[id].config;
      var usage := GetOr(config.usageCount, 0) + 1;
      var rate := (GetOr(config.successRate, 1.0) * (usage - 1) as real + Bit(success)) / usage as real;
      assert rate == Mean(GetOr(config.successRate, 1.0), usage, success);
      var _ := UpdateMetrics(id, Some(latencyMs / 1000.0), None, None, Some(Round3(rate)), Some(usage), None);
    }
  }

  // -------------------------------------------------------------------------- all runs

  /** Results of any model, and changes of other metrics or of a status. */
  datatype Event =
    | Result(id: string, success: bool, latency: real)
    | Metrics(id: string, latencyAvg: Option<real>, costIn: Option<real>, costOut: Option<real>, status: Option<string>)

  function Apply(models: map<string, Model>, e: Event): map<string, Model>
  {
    if e.id !in models then models
    else
      var m := models[e.id];
      match e
      case Result(id, success, latency) => models[id := m.(config := Record(m.config, success, latency))]
      case Metrics(id, latencyAvg, costIn, costOut, status) =>
        models[id := m.(config := Merge(m.config, latencyAvg, costIn, costOut, None, None), status := GetOr(status, m.status))]
  }

  function Run(models: map<string, Model>, events: seq<Event>): map<string, Model>
  {
    if events == [] then models else Apply(Run(models, events[..|events| - 1]), events[|events| - 1])
  }

  function Results(events: seq<Event>, id: string): nat
  {
    if events == [] then 0
    else Results(events[..|events| - 1], id)
         + if events[|events| - 1].Result? && events[|events| - 1].id == id then 1 else 0
  }

  function Successes(events: seq<Event>, id: string): nat
  {
    if events == [] then 0
    else Successes(events[..|events| - 1], id)
         + if events[|events| - 1].Result? && events[|events| - 1].id == id && events[|events| - 1].success then 1 else 0
  }

  predicate FreshConfig(c: Config) { c.successRate.None? && c.usageCount.None? }

  /** The error of the rate, scaled by the number of results. */
  predicate Close(rate: real, n: real, s: real)
  {
    Abs(n * rate - s) * 4000.0 <= n * (n + 1.0)
  }

  predicate Tracks(c: Config, n: nat, s: nat)
  {
    && s <= n && GetOr(c.usageCount, 0) == n
    && 0.0 <= GetOr(c.successRate, 1.0) <= 1.0
    && Close(GetOr(c.successRate, 1.0), n as real, s as real)
  }

  lemma MeanScaled(rate: real, n: nat, success: bool)
    ensures (n as real + 1.0) * Mean(rate, n + 1, success) == rate * n as real + Bit(success)
  {
  }

  lemma MeanUnit(rate: real, usage: nat, success: bool)
    requires usage > 0 && 0.0 <= rate <= 1.0
    ensures 0.0 <= Mean(rate, usage, success) <= 1.0
  {
    MeanScaled(rate, usage - 1, success);
    UnitKept(usage as real, (usage - 1) as real, rate, Mean(rate, usage, success), Bit(success));
  }

  lemma UnitKept(u: real, n: real, rate: real, y: real, bit: real)
    requires n >= 0.0 && u == n + 1.0 && u * y == rate * n + bit && 0.0 <= rate <= 1.0 && 0.0 <= bit <= 1.0
    ensures 0.0 <= y <= 1.0
  {
    var p, uy := n * rate, u * y;
    ScaleUnit(n, rate, p);
    assert 0.0 <= p <= n && uy == p + bit;
    Unscale(u, 0.0, y, 0.0, uy);
    Unscale(u, y, 1.0, uy, u);
  }

  lemma ScaledRounding(u: real, y: real, r: real, uy: real)
    requires u > 0.0 && r == Round3(y) && uy == u * y
    ensures Abs(u * r - uy) * 4000.0 <= 2.0 * u
  {
    Round3Error(y);
    assert u * r - uy == u * (r - y);
    AbsScale(u, r - y);
    Scale(u, Abs(r - y), 1.0 / 2000.0);
  }

  lemma CloseStep(rate: real, n: nat, s: nat, success: bool)
    requires Close(rate, n as real, s as real)
    ensures Close(Round3(Mean(rate, n + 1, success)), (n + 1) as real, s as real + Bit(success))
  {
    MeanScaled(rate, n, success);
    RoundedStep((n + 1) as real, Mean(rate, n + 1, success), n as real, rate, s as real, Bit(success));
  }

  lemma RoundedStep(u: real, y: real, n: real, rate: real, s: real, bit: real)
    requires n >= 0.0 && u == n + 1.0 && u * y == rate * n + bit && Close(rate, n, s)
    ensures Close(Round3(y), u, s + bit)
  {
    var r, uy := Round3(y), u * y;
    ScaledRounding(u, y, r, uy);
    AddUp(u, r, uy, n, rate, s, bit);
  }

  lemma AddUp(u: real, r: real, uy: real, n: real, rate: real, s: real, bit: real)
    requires u == n + 1.0 && uy == rate * n + bit
    requires Abs(u * r - uy) * 4000.0 <= 2.0 * u && Close(rate, n, s)
    ensures Close(r, u, s + bit)
  {
    AbsSum(u * r - uy, n * rate - s);
    assert u * r - (s + bit) == (u * r - uy) + (n * rate - s);
    assert n * (n + 1.0) + 2.0 * u == u * (u + 1.0);
  }

  lemma RecordTracks(c: Config, n: nat, s: nat, success: bool, latency: real)
    requires Tracks(c, n, s)
    ensures Tracks(Record(c, success, latency), n + 1, s + if success then 1 else 0)
  {
    var rate := GetOr(c.successRate, 1.0);
    CloseStep(rate, n, s, success);
    MeanUnit(rate, n + 1, success);
    Round3Unit(Mean(rate, n + 1, success));
  }

  /** k thousandths. */
  predicate Thousandths(k: int, x: real) { x == k as real / 1000.0 }

  lemma RoundedToThousandths(x: real)
    ensures Thousandths(Nearest(x * 1000.0), Round3(x)) && Abs(Round3(x) - x) <= 1.0 / 2000.0
  {
    Round3Error(x);
  }

  /** The mean over all uses, where an unknown rate counts as one. */
  function MeanAfter(rate: Option<real>, uses: nat, success: bool): real
  {
    ((if rate.Some? then rate.value else 1.0) * uses as real + if success then 1.0 else 0.0) / (uses + 1) as real
  }

  lemma MeanIs(rate: Option<real>, uses: nat, success: bool)
    ensures Mean(GetOr(rate, 1.0), uses + 1, success) == MeanAfter(rate, uses, success)
  {
  }

  /** One result sets the latency, leaves the costs, counts one more use, and moves the rate to
      a number of thousandths within a two-thousandth of the mean. */
  lemma ResultRecords(c: Config, success: bool, latency: real)
    ensures var r := Record(c, success, latency);
            var uses := if c.usageCount.Some? then c.usageCount.value else 0;
            && r.latencyAvg == Some(latency) && r.costInput == c.costInput && r.costOutput == c.costOutput
            && r.usageCount == Some(uses + 1) && r.successRate.Some?
            && (exists k: int :: Thousandths(k, r.successRate.value))
            && Abs(r.successRate.value - MeanAfter(c.successRate, uses, success)) <= 1.0 / 2000.0
  {
    var uses := GetOr(c.usageCount, 0);
    MeanIs(c.successRate, uses, success);
    RoundedToThousandths(MeanAfter(c.successRate, uses, success));
  }

  /** Given metrics replace the stored ones, absent ones leave them. */
  lemma MetricsMerge(c: Config, given: Config)
    ensures var r := Merge(c, given.latencyAvg, given.costInput, given.costOutput, given.successRate, given.usageCount);
            && (given.latencyAvg.Some? ==> r.latencyAvg == given.latencyAvg)
            && (given.latencyAvg.None? ==> r.latencyAvg == c.latencyAvg)
            && (given.costInput.Some? ==> r.costInput == given.costInput)
            && (given.costInput.None? ==> r.costInput == c.costInput)
            && (given.costOutput.Some? ==> r.costOutput == given.costOutput)
            && (given.costOutput.None? ==> r.costOutput == c.costOutput)
            && (given.successRate.Some? ==> r.successRate == given.successRate)
            && (given.successRate.None? ==> r.successRate == c.successRate)
            && (given.usageCount.Some? ==> r.usageCount == given.usageCount)
            && (given.usageCount.None? ==> r.usageCount == c.usageCount)
  {
  }

  lemma {:induction false} RunTracks(models: map<string, Model>, events: seq<Event>, id: string)
    requires id in models && FreshConfig(models[id].config)
    ensures id in Run(models, events)
    ensures Tracks(Run(models, events)[id].config, Results(events, id), Successes(events, id))
  {
    if events != [] {
      var front, e := events[..|events| - 1], events[|events| - 1];
      RunTracks(models, front, id);
      var c := Run(models, front)[id].config;
      if e.id == id && e.Result? { RecordTracks(c, Results(front, id), Successes(front, id), e.success, e.latency); }
    }
  }

  /** After n results with s successes, among whatever else happens to this and to other
      models, the usage count is n and the rate lies in [0, 1] within (n + 1) / 4000 of s / n. */
  lemma {:induction false} RateIsNearTheMean(models: map<string, Model>, events: seq<Event>, id: string)
    requires id in models && FreshConfig(models[id].config) && Results(events, id) > 0
    ensures id in Run(models, events)
    ensures var c := Run(models, events)[id].config; var n, s := Results(events, id), Successes(events, id);
            && c.usageCount == Some(n) && c.successRate.Some?
            && 0.0 <= c.successRate.value <= 1.0
            && Abs(c.successRate.value - s as real / n as real) <= (n + 1) as real / 4000.0
  {
    RunTracks(models, events, id);
    RateIsStored(models, events, id);
    var c := Run(models, events)[id].config;
    var n, s := Results(events, id) as real, Successes(events, id) as real;
    var rate := c.successRate.value;
    DivideOut(n, rate, s);
  }

  lemma DivideOut(n: real, rate: real, s: real)
    requires n > 0.0 && Close(rate, n, s)
    ensures Abs(rate - s / n) <= (n + 1.0) / 4000.0
  {
    var d, p := rate - s / n, n * rate - s;
    assert n * (s / n) == s;
    assert n * d == n * rate - n * (s / n);
    AbsScaled(n, d, p, 4000.0);
    Unscale(n, Abs(d) * 4000.0, n + 1.0, Abs(p) * 4000.0, n * (n + 1.0));
  }

  lemma {:induction false} RateIsStored(models: map<string, Model>, events: seq<Event>, id: string)
    requires id in models
    ensures id in Run(models, events)
    ensures Results(events, id) > 0 ==>
              Run(models, events)[id].config.successRate.Some? && Run(models, events)[id].config.usageCount.Some?
  {
    if events != [] { RateIsStored(models, events[..|events| - 1], id); }
  }

  // ------------------------------------------------------------- the rate gets stuck

  /** A rate of k thousandths moves exactly when the result is further than usage / 2000
      away from it (at a tie, when k is odd): the longer the history, the less a result can do. */
  lemma MovesIff(k: int, usage: nat, success: bool)
    requires usage > 0
    ensures var rate := k as real / 1000.0; var reach := Abs(Bit(success) - rate) * 2000.0;
            Round3(Mean(rate, usage, success)) != rate <==>
              reach > usage as real || (reach == usage as real && k % 2 == 1)
  {
    var rate, y := k as real / 1000.0, Mean(k as real / 1000.0, usage, success);
    MeanScaled(rate, usage - 1, success);
    MoveSize(usage as real, y, rate, Bit(success));
    RoundsAway(k, rate, y);
  }

  lemma RoundsAway(k: int, rate: real, y: real)
    requires rate == k as real / 1000.0
    ensures var gap := Abs(rate * 1000.0 - y * 1000.0);
            Round3(y) != rate <==> gap > 0.5 || (gap == 0.5 && k % 2 == 1)
  {
    var x := y * 1000.0;
    NearestIsNear(x);
    if Abs(rate * 1000.0 - x) < 0.5 { NearestIs(x, k); }
    if x == k as real + 0.5 { assert x.Floor == k; }
    if x == k as real - 0.5 { assert x.Floor == k - 1; }
  }

  lemma MoveSize(u: real, y: real, rate: real, bit: real)
    requires u > 0.0 && u * y == rate * (u - 1.0) + bit
    ensures Abs(rate * 1000.0 - y * 1000.0) < 0.5 <==> Abs(bit - rate) * 2000.0 < u
    ensures Abs(rate * 1000.0 - y * 1000.0) > 0.5 <==> Abs(bit - rate) * 2000.0 > u
  {
    var d, p := y - rate, bit - rate;
    assert u * d == p;
    AbsScaled(u, d, p, 2000.0);
    Unscale(u, Abs(d) * 2000.0, 1.0, Abs(p) * 2000.0, u);
    Unscale(u, 1.0, Abs(d) * 2000.0, u, Abs(p) * 2000.0);
    assert Abs(rate * 1000.0 - y * 1000.0) == Abs(d) * 1000.0;
  }

  /** After two thousand flawless results no number of failures ever shows. */
  lemma {:induction false} PerfectRateIsFrozen(models: map<string, Model>, events: seq<Event>, id: string)
    requires id in models && models[id].config.successRate == Some(1.0)
    requires models[id].config.usageCount.Some? && models[id].config.usageCount.value >= 2000
    ensures id in Run(models, events) && Run(models, events)[id].config.successRate == Some(1.0)
    ensures Run(models, events)[id].config.usageCount
         == Some(models[id].config.usageCount.value + Results(events, id))
  {
    if events != [] {
      var front, e := events[..|events| - 1], events[|events| - 1];
      PerfectRateIsFrozen(models, front, id);
      if e.id == id && e.Result? { PerfectStep(Run(models, front)[id].config, e.success, e.latency); }
    }
  }

  lemma PerfectStep(c: Config, success: bool, latency: real)
    requires c.successRate == Some(1.0) && c.usageCount.Some? && c.usageCount.value >= 2000
    ensures Record(c, success, latency).successRate == Some(1.0)
  {
    MovesIff(1000, c.usageCount.value + 1, success);
  }
}
