/** Summarising and trimming a conversation in one call. */
module ContextManage {
  import opened ContextTrim

  /** Token counters: with the model's encoding for reporting, without it for deciding. */
  datatype Counters = Counters(ofModel: string -> nat, plain: string -> nat)

  datatype Settings = Settings(maxTokens: int, reserve: nat, threshold: real, summary: seq<Message> -> string)

  datatype Managed = Managed(
    messages: seq<Message>, originalCount: nat, finalCount: nat, trimmed: nat, summarized: bool, totalTokens: nat)

  predicate ShouldSummarize(messages: seq<Message>, settings: Settings, counters: Counters)
  {
    messages != [] && settings.maxTokens > 0
    && CountTokens(messages, counters.plain) as real > settings.maxTokens as real * settings.threshold
  }

  /** What follows as many messages as there are system messages, wherever those stand. */
  function Rest(messages: seq<Message>): seq<Message>
  {
    Partition(messages);
    messages[|Systems(messages)|..]
  }

  predicate Summarizes(messages: seq<Message>, force: bool, settings: Settings, counters: Counters)
  {
    (force || ShouldSummarize(messages, settings, counters)) && |Rest(messages)| > 4
  }

  /** The conversation after the summarising phase. */
  function Condensed(messages: seq<Message>, settings: Settings): seq<Message>
    requires |Rest(messages)| > 4
  {
    var rest := Rest(messages);
    Systems(messages) + [Message("system", settings.summary(rest[..|rest| - 4]))] + rest[|rest| - 4..]
  }

  /** The summarising phase: the conversation left, and what was taken from it. */
  method Summarize(messages: seq<Message>, force: bool, settings: Settings, counters: Counters)
    returns (current: seq<Message>, trimmed: nat, summarized: bool, total: nat)
    ensures summarized == Summarizes(messages, force, settings, counters)
    ensures current == if summarized then Condensed(messages, settings) else messages
    ensures total == CountTokens(current, counters.ofModel)
    ensures |messages| + (if summarized then 1 else 0) == |current| + trimmed
  {
    current, trimmed, summarized := messages, 0, false;
    total := CountTokens(messages, counters.ofModel);
    if force || ShouldSummarize(messages, settings, counters) {
      var systems, rest := Systems(messages), Rest(messages);
      if |rest| > 4 {
        var recent, older := rest[|rest| - 4..], rest[..|rest| - 4];
        Partition(messages);
        current := systems + [Message("system", settings.summary(older))] + recent;
        summarized := true;
        trimmed := |older|;
        total := CountTokens(current, counters.ofModel);
      }
    }
  }

  method Manage(messages: seq<Message>, force: bool, settings: Settings, counters: Counters)
    returns (r: Managed)
    ensures r.originalCount == |messages|
    ensures r.summarized == (messages != [] && Summarizes(messages, force, settings, counters))
    ensures r.originalCount + (if r.summarized then 1 else 0) == r.finalCount + r.trimmed
    ensures var before := if r.summarized then Condensed(messages, settings) else messages;
            var kept := Trimmed(before, settings.maxTokens, settings.reserve, counters.plain);
            && r.totalTokens == CountTokens(before, counters.ofModel) && r.finalCount == |kept|
            && r.messages == if kept == [] && messages != [] then [messages[|messages| - 1]] else kept
  {
    if messages == [] {
      return Managed(messages, 0, 0, 0, false, CountTokens(messages, counters.ofModel));
    }
    var current, trimmed, summarized, total := Summarize(messages, force, settings, counters);
    var kept := TrimMessages(current, settings.maxTokens, settings.reserve, counters.plain);
    TrimFits(current, settings.maxTokens, settings.reserve, counters.plain);
    trimmed := trimmed + |current| - |kept|;
    r := Managed(if kept == [] then [messages[|messages| - 1]] else kept, |messages|, |kept|, trimmed, summarized, total);
  }

  /** Summarising is done exactly when it is forced or the tokens pass the threshold, and
      more than four messages follow the first as many as there are system messages.  Then
      the system messages come first, one system message sums up what stood in between, and
      the last four messages stay. */
  lemma {:induction false} SummarizingIs(messages: seq<Message>, force: bool, settings: Settings, counters: Counters)
    ensures var n := |Systems(messages)|;
            && n <= |messages|
            && (Summarizes(messages, force, settings, counters) <==>
                  && (force || (settings.maxTokens > 0
                                && CountTokens(messages, counters.plain) as real > settings.maxTokens as real * settings.threshold))
                  && |messages| > n + 4)
            && (|messages| > n + 4 ==>
                  && |Rest(messages)| > 4
                  && |Condensed(messages, settings)| == n + 5
                  && Condensed(messages, settings)[..n] == Systems(messages)
                  && Condensed(messages, settings)[n] == Message("system", settings.summary(messages[n..|messages| - 4]))
                  && Condensed(messages, settings)[n + 1..] == messages[|messages| - 4..])
  {
    Partition(messages);
    var n := |Systems(messages)|;
    if |messages| > n + 4 {
      var rest := Rest(messages);
      assert rest[..|rest| - 4] == messages[n..|messages| - 4];
      assert rest[|rest| - 4..] == messages[|messages| - 4..];
    }
  }

  // ------------------------------------------------------- what summarising covers

  /** No system message stands behind another kind. */
  predicate SystemsFirst(messages: seq<Message>)
  {
    forall i, j :: 0 <= i < j < |messages| && IsSystem(messages[j]) ==> IsSystem(messages[i])
  }

  /** A cut behind which nothing is a system message bounds their number. */
  lemma {:induction false} SystemsBeforeCut(messages: seq<Message>, cut: nat)
    requires cut <= |messages| && forall j :: cut <= j < |messages| ==> !IsSystem(messages[j])
    ensures |Systems(messages)| <= cut
  {
    var head, tail := messages[..cut], messages[cut..];
    assert messages == head + tail;
    SystemsConcat(head, tail);
    Partition(head);
    AllOneKind(tail);
  }

  /** All system messages stand in a prefix that they fill. */
  lemma {:induction false} NoneBehindFullPrefix(messages: seq<Message>, j: nat)
    requires forall i :: 0 <= i < |Systems(messages)| && i < |messages| ==> IsSystem(messages[i])
    requires |Systems(messages)| <= j < |messages|
    ensures !IsSystem(messages[j])
  {
    var n := |Systems(messages)|;
    var head, tail := messages[..n], messages[n..];
    assert messages == head + tail;
    SystemsConcat(head, tail);
    AllOneKind(head);
    Partition(tail);
    assert |Systems(tail)| == 0;
    assert messages[j] in tail;
  }

  lemma {:induction false} SystemsFirstIff(messages: seq<Message>)
    ensures |Systems(messages)| <= |messages|
    ensures SystemsFirst(messages) <==> forall i :: 0 <= i < |Systems(messages)| ==> IsSystem(messages[i])
  {
    Partition(messages);
    var n := |Systems(messages)|;
    if forall i :: 0 <= i < n ==> IsSystem(messages[i]) {
      forall j | n <= j < |messages| ensures !IsSystem(messages[j]) { NoneBehindFullPrefix(messages, j); }
    }
    if SystemsFirst(messages) {
      forall i | 0 <= i < n ensures IsSystem(messages[i]) {
        if !IsSystem(messages[i]) { SystemsBeforeCut(messages, i); }
      }
    }
  }

  /** Summarising accounts for every message once (kept as system, summarised, or kept as
      recent) exactly when the system messages all come first; otherwise messages at the
      head are dropped without a trace while system messages appear twice. */
  lemma {:induction false} SummaryCoversIff(messages: seq<Message>)
    ensures multiset(Systems(messages)) + multiset(Rest(messages)) == multiset(messages) <==> SystemsFirst(messages)
  {
    SystemsFirstIff(messages);
    Partition(messages);
    var n := |Systems(messages)|;
    var head, rest := messages[..n], messages[n..];
    assert messages == head + rest && multiset(messages) == multiset(head) + multiset(rest);
    if SystemsFirst(messages) {
      SystemsConcat(head, rest);
      AllOneKind(head);
      assert |Systems(rest)| == 0;
      assert Systems(messages) == head;
    }
    if multiset(Systems(messages)) + multiset(rest) == multiset(messages) {
      SameMultiset(multiset(Systems(messages)), multiset(head), multiset(rest));
      forall i | 0 <= i < n ensures IsSystem(messages[i]) {
        assert head[i] in multiset(head) && head[i] in multiset(Systems(messages));
      }
    }
  }

  lemma SameMultiset(a: multiset<Message>, b: multiset<Message>, c: multiset<Message>)
    requires a + c == b + c
    ensures a == b
  {
    assert a == (a + c) - c && b == (b + c) - c;
  }
}
