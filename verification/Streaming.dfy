/** Streaming a reply from the first candidate provider that delivers. */
module Streaming {
  import opened Wrappers

  datatype Chunk = Delta(text: string) | Notice(kind: string)

  /** What a provider's stream yields before it ends, normally or with an error. */
  datatype Stream = Stream(chunks: seq<Chunk>, error: Option<string>)

  datatype Candidate = Candidate(provider: string, known: bool, local: bool, reason: string, stream: Stream)

  datatype Event =
    | OfflineFallback(primary: string, used: string)
    | Meta(provider: string, fallbackReason: Option<string>)
    | Passed(index: nat, chunk: Chunk)
    | Interrupted(provider: string)

  datatype Outcome = Success(provider: string) | Failure(provider: string)

  datatype End = Returned | AllFailed(lastError: Option<string>) | NoCandidates

  /** The router's side of a call: the chosen provider and why the network is down, if it is. */
  datatype Routing = Routing(chosen: string, offlineReason: Option<string>)

  datatype Reply = Reply(events: seq<Event>, outcomes: seq<Outcome>, fallbacks: seq<string>, end: End)

  predicate HasText(chunk: Chunk) { chunk.Delta? && chunk.text != "" }

  predicate Emits(stream: Stream) { exists c :: c in stream.chunks && HasText(c) }

  // ---------------------------------------------------------------- what a call does

  function PassedOn(index: nat, chunks: seq<Chunk>): seq<Event>
  {
    seq(|chunks|, k requires 0 <= k < |chunks| => Passed(index, chunks[k]))
  }

  predicate FallsBackOffline(candidates: seq<Candidate>, i: nat, routing: Routing, announced: bool)
    requires i < |candidates|
  {
    candidates[i].provider != candidates[0].provider && routing.offlineReason.Some? && candidates[i].local && !announced
  }

  function Opening(candidates: seq<Candidate>, i: nat, routing: Routing, announced: bool, lastError: Option<string>): seq<Event>
    requires i < |candidates|
  {
    var c := candidates[i];
    var default := if c.reason != "" then c.reason else "fallback";
    var reason := match lastError case Some(e) => e case None => default;
    (if FallsBackOffline(candidates, i, routing, announced) then [OfflineFallback(candidates[0].provider, c.provider)] else [])
    + [Meta(c.provider, if c.provider != routing.chosen then Some(reason) else None)]
  }

  /** The call from candidate `i` on. */
  function Play(candidates: seq<Candidate>, i: nat, routing: Routing, announced: bool, lastError: Option<string>): Reply
    requires i <= |candidates|
    decreases |candidates| - i
  {
    if i == |candidates| then Reply([], [], [], AllFailed(lastError))
    else
      var c := candidates[i];
      if !c.known then Play(candidates, i + 1, routing, announced, lastError)
      else
        var events := Opening(candidates, i, routing, announced, lastError) + PassedOn(i, c.stream.chunks);
        var announced' := announced || FallsBackOffline(candidates, i, routing, announced);
        match c.stream.error
        case None =>
          Reply(events, [Success(c.provider)], if c.provider != candidates[0].provider then [c.provider] else [], Returned)
        case Some(error) =>
          if Emits(c.stream) then Reply(events + [Interrupted(c.provider)], [Failure(c.provider)], [], Returned)
          else
            var rest := Play(candidates, i + 1, routing, announced', Some(error));
            Reply(events + rest.events, [Failure(c.provider)] + rest.outcomes, rest.fallbacks, rest.end)
  }

  function ChatStream(candidates: seq<Candidate>, routing: Routing): Reply
  {
    if candidates == [] then Reply([], [], [], NoCandidates) else Play(candidates, 0, routing, false, None)
  }

  method PassChunks(index: nat, chunks: seq<Chunk>) returns (events: seq<Event>, emitted: bool)
    ensures events == PassedOn(index, chunks)
    ensures emitted <==> exists c :: c in chunks && HasText(c)
  {
    events, emitted := [], false;
    for k := 0 to |chunks|
      invariant events == PassedOn(index, chunks)[..k]
      invariant emitted <==> exists c :: c in chunks[..k] && HasText(c)
    {
      assert chunks[..k + 1] == chunks[..k] + [chunks[k]];
      if chunks[k].Delta? && chunks[k].text != "" {
        emitted := true;
        assert chunks[k] in chunks[..k + 1];
      }
      events := events + [Passed(index, chunks[k])];
    }
    assert chunks[..|chunks|] == chunks;
  }

  predicate Continues(all: Reply, events: seq<Event>, outcomes: seq<Outcome>, rest: Reply)
  {
    all == Reply(events + rest.events, outcomes + rest.outcomes, rest.fallbacks, rest.end)
  }

  lemma ContinuesOne(all: Reply, events: seq<Event>, outcomes: seq<Outcome>, some: seq<Event>, o: Outcome, rest: Reply)
    requires Continues(all, events, outcomes, Reply(some + rest.events, [o] + rest.outcomes, rest.fallbacks, rest.end))
    ensures Continues(all, events + some, outcomes + [o], rest)
  {
    assert events + some + rest.events == events + (some + rest.events);
    assert outcomes + [o] + rest.outcomes == outcomes + ([o] + rest.outcomes);
  }

  method RunChatStream(candidates: seq<Candidate>, routing: Routing) returns (reply: Reply)
    ensures reply == ChatStream(candidates, routing)
  {
    if candidates == [] {
      return Reply([], [], [], NoCandidates);
    }
    var events, outcomes, lastError, announced := [], [], None, false;
    ghost var all := Play(candidates, 0, routing, false, None);
    for i := 0 to |candidates|
      invariant Continues(all, events, outcomes, Play(candidates, i, routing, announced, lastError))
    {
      var c := candidates[i];
      if !c.known {
        continue;
      }
      var opening := Opening(candidates, i, routing, announced, lastError);
      ghost var before := announced;
      if FallsBackOffline(candidates, i, routing, announced) {
        announced := true;
      }
      var passed, emitted := PassChunks(i, c.stream.chunks);
      ghost var next := Play(candidates, i + 1, routing, announced, c.stream.error);
      match c.stream.error {
        case None =>
          return Reply(events + (opening + passed), outcomes + [Success(c.provider)],
                       if c.provider != candidates[0].provider then [c.provider] else [], Returned);
        case Some(error) =>
          if emitted {
            return Reply(events + (opening + passed + [Interrupted(c.provider)]), outcomes + [Failure(c.provider)], [], Returned);
          }
          ContinuesOne(all, events, outcomes, opening + passed, Failure(c.provider), next);
          events, outcomes, lastError := events + (opening + passed), outcomes + [Failure(c.provider)], Some(error);
      }
    }
    reply := Reply(events, outcomes, [], AllFailed(lastError));
    assert events + [] == events && outcomes + [] == outcomes;
  }

  // -------------------------------------------------------------------- theorems

  /** A candidate that ends the call: it completes, or fails after showing text. */
  predicate Decisive(c: Candidate) { c.known && (c.stream.error.None? || Emits(c.stream)) }

  /** One failure for every known candidate. */
  function FailuresOf(candidates: seq<Candidate>): seq<Outcome>
  {
    if candidates == [] then []
    else (if candidates[0].known then [Failure(candidates[0].provider)] else []) + FailuresOf(candidates[1..])
  }

  /** The text a consumer reads off a run of events, or a stream delivers. */
  function Transcript(events: seq<Event>): string
  {
    if events == [] then ""
    else (if events[0].Passed? && events[0].chunk.Delta? then events[0].chunk.text else "") + Transcript(events[1..])
  }

  function TextOf(chunks: seq<Chunk>): string
  {
    if chunks == [] then "" else (if chunks[0].Delta? then chunks[0].text else "") + TextOf(chunks[1..])
  }

  lemma {:induction false} TranscriptConcat(a: seq<Event>, b: seq<Event>)
    ensures Transcript(a + b) == Transcript(a) + Transcript(b)
  {
    if a == [] {
      assert a + b == b;
    } else {
      assert (a + b)[1..] == a[1..] + b;
      TranscriptConcat(a[1..], b);
    }
  }

  lemma {:induction false} TranscriptOfPassed(index: nat, chunks: seq<Chunk>)
    ensures Transcript(PassedOn(index, chunks)) == TextOf(chunks)
    ensures (forall c :: c in chunks ==> !HasText(c)) ==> TextOf(chunks) == ""
  {
    if chunks != [] {
      assert PassedOn(index, chunks)[1..] == PassedOn(index, chunks[1..]);
      assert chunks[0] in chunks;
      TranscriptOfPassed(index, chunks[1..]);
    }
  }

  /** Only candidate `w` contributes non-empty text. */
  predicate TextOnlyFrom(events: seq<Event>, w: nat)
  {
    forall e :: e in events && e.Passed? && HasText(e.chunk) ==> e.index == w
  }

  lemma AttemptShows(candidates: seq<Candidate>, i: nat, routing: Routing, announced: bool, lastError: Option<string>)
    requires i < |candidates|
    ensures var events := Opening(candidates, i, routing, announced, lastError) + PassedOn(i, candidates[i].stream.chunks);
            && Transcript(events) == TextOf(candidates[i].stream.chunks)
            && (forall w :: w == i || !Emits(candidates[i].stream) ==> TextOnlyFrom(events, w))
            && (!Emits(candidates[i].stream) ==> TextOf(candidates[i].stream.chunks) == "")
  {
    var opening, chunks := Opening(candidates, i, routing, announced, lastError), candidates[i].stream.chunks;
    TranscriptConcat(opening, PassedOn(i, chunks));
    TranscriptOfPassed(i, chunks);
    assert Transcript(opening) == "";
    forall e | e in PassedOn(i, chunks) ensures e.Passed? && e.index == i && (HasText(e.chunk) ==> Emits(candidates[i].stream)) {
      assert e.chunk in chunks;
    }
  }

  lemma SkippedCandidates(candidates: seq<Candidate>, i: nat, j: nat)
    requires i < j <= |candidates|
    ensures FailuresOf(candidates[i..j])
            == (if candidates[i].known then [Failure(candidates[i].provider)] else []) + FailuresOf(candidates[i + 1..j])
  {
    assert candidates[i..j][1..] == candidates[i + 1..j];
  }

  /** What the call shows from candidate `i` on, `w` being the first decisive one. */
  predicate Shape(candidates: seq<Candidate>, i: nat, w: nat, reply: Reply)
    requires i <= w < |candidates|
  {
    var c := candidates[w];
    && reply.end == Returned
    && reply.outcomes == FailuresOf(candidates[i..w]) + [if c.stream.error.None? then Success(c.provider) else Failure(c.provider)]
    && TextOnlyFrom(reply.events, w) && Transcript(reply.events) == TextOf(c.stream.chunks)
  }

  lemma {:induction false} EndsHere(candidates: seq<Candidate>, i: nat, routing: Routing, announced: bool, lastError: Option<string>)
    requires i < |candidates| && Decisive(candidates[i])
    ensures Shape(candidates, i, i, Play(candidates, i, routing, announced, lastError))
  {
    var c := candidates[i];
    AttemptShows(candidates, i, routing, announced, lastError);
    var events := Opening(candidates, i, routing, announced, lastError) + PassedOn(i, c.stream.chunks);
    TranscriptConcat(events, [Interrupted(c.provider)]);
    assert Transcript([Interrupted(c.provider)]) == "" + Transcript([]);
    assert candidates[i..i] == [];
  }

  /** A known candidate that fails without text leaves the call to the next one. */
  lemma PlayPasses(candidates: seq<Candidate>, i: nat, routing: Routing, announced: bool, lastError: Option<string>)
    requires i < |candidates| && candidates[i].known && !Decisive(candidates[i])
    ensures var c := candidates[i];
            var events := Opening(candidates, i, routing, announced, lastError) + PassedOn(i, c.stream.chunks);
            var rest := Play(candidates, i + 1, routing, announced || FallsBackOffline(candidates, i, routing, announced), c.stream.error);
            Play(candidates, i, routing, announced, lastError)
              == Reply(events + rest.events, [Failure(c.provider)] + rest.outcomes, rest.fallbacks, rest.end)
  {
  }

  lemma {:induction false} SilentThen(events: seq<Event>, rest: seq<Event>, w: nat)
    requires Transcript(events) == "" && TextOnlyFrom(events, w)
    ensures Transcript(events + rest) == Transcript(rest)
    ensures TextOnlyFrom(rest, w) ==> TextOnlyFrom(events + rest, w)
  {
    TranscriptConcat(events, rest);
  }

  lemma GoesOn(candidates: seq<Candidate>, i: nat, routing: Routing, announced: bool, lastError: Option<string>, w: nat)
    requires i < |candidates| && candidates[i].known && !Decisive(candidates[i])
    ensures var reply := Play(candidates, i, routing, announced, lastError);
            var announced' := announced || FallsBackOffline(candidates, i, routing, announced);
            var rest := Play(candidates, i + 1, routing, announced', candidates[i].stream.error);
            && reply.outcomes == [Failure(candidates[i].provider)] + rest.outcomes && reply.end == rest.end
            && Transcript(reply.events) == Transcript(rest.events)
            && (TextOnlyFrom(rest.events, w) ==> TextOnlyFrom(reply.events, w))
  {
    var events := Opening(candidates, i, routing, announced, lastError) + PassedOn(i, candidates[i].stream.chunks);
    var announced' := announced || FallsBackOffline(candidates, i, routing, announced);
    PlayPasses(candidates, i, routing, announced, lastError);
    AttemptShows(candidates, i, routing, announced, lastError);
    SilentThen(events, Play(candidates, i + 1, routing, announced', candidates[i].stream.error).events, w);
  }

  lemma {:induction false} PlayShape(candidates: seq<Candidate>, i: nat, routing: Routing, announced: bool,
                                     lastError: Option<string>, w: nat)
    requires i <= w < |candidates| && Decisive(candidates[w])
    requires forall k :: i <= k < w ==> !Decisive(candidates[k])
    ensures Shape(candidates, i, w, Play(candidates, i, routing, announced, lastError))
    decreases w - i
  {
    if i == w {
      EndsHere(candidates, i, routing, announced, lastError);
    } else {
      SkippedCandidates(candidates, i, w);
      if candidates[i].known {
        GoesOn(candidates, i, routing, announced, lastError, w);
        PlayShape(candidates, i + 1, routing, announced || FallsBackOffline(candidates, i, routing, announced),
                  candidates[i].stream.error, w);
      } else {
        PlayShape(candidates, i + 1, routing, announced, lastError, w);
        assert [] + FailuresOf(candidates[i + 1..w]) == FailuresOf(candidates[i + 1..w]);
      }
    }
  }

  lemma {:induction false} PlayFails(candidates: seq<Candidate>, i: nat, routing: Routing, announced: bool, lastError: Option<string>)
    requires i <= |candidates| && forall k :: i <= k < |candidates| ==> !Decisive(candidates[k])
    ensures var reply := Play(candidates, i, routing, announced, lastError);
            reply.end.AllFailed? && reply.outcomes == FailuresOf(candidates[i..]) && Transcript(reply.events) == ""
    decreases |candidates| - i
  {
    if i < |candidates| {
      SkippedCandidates(candidates, i, |candidates|);
      assert candidates[i..] == candidates[i..|candidates|] && candidates[i + 1..] == candidates[i + 1..|candidates|];
      if candidates[i].known {
        GoesOn(candidates, i, routing, announced, lastError, 0);
        PlayFails(candidates, i + 1, routing, announced || FallsBackOffline(candidates, i, routing, announced),
                  candidates[i].stream.error);
      } else {
        PlayFails(candidates, i + 1, routing, announced, lastError);
      }
    }
  }

  /** The call stops at the first decisive candidate: everything before it failed silently
      and is recorded once, all text shown is that candidate's, and its own outcome, the only
      possible success, comes last. */
  lemma OneCandidateSpeaks(candidates: seq<Candidate>, routing: Routing, w: nat)
    requires w < |candidates| && Decisive(candidates[w]) && forall k :: 0 <= k < w ==> !Decisive(candidates[k])
    ensures Shape(candidates, 0, w, ChatStream(candidates, routing))
  {
    PlayShape(candidates, 0, routing, false, None, w);
  }

  lemma {:induction false} FirstDecisive(candidates: seq<Candidate>, i: nat) returns (w: nat)
    requires i <= |candidates| && forall k :: 0 <= k < i ==> !Decisive(candidates[k])
    requires exists k :: i <= k < |candidates| && Decisive(candidates[k])
    ensures w < |candidates| && Decisive(candidates[w]) && forall k :: 0 <= k < w ==> !Decisive(candidates[k])
    decreases |candidates| - i
  {
    if Decisive(candidates[i]) { w := i; } else { w := FirstDecisive(candidates, i + 1); }
  }

  /** The final error is raised exactly when every known candidate failed without text; each
      of them is then recorded as one failure. */
  lemma {:induction false} AllFailedIff(candidates: seq<Candidate>, routing: Routing)
    requires candidates != []
    ensures ChatStream(candidates, routing).end.AllFailed? <==> forall c :: c in candidates ==> !Decisive(c)
    ensures ChatStream(candidates, routing).end.AllFailed? ==>
              ChatStream(candidates, routing).outcomes == FailuresOf(candidates)
              && Transcript(ChatStream(candidates, routing).events) == ""
  {
    if forall c :: c in candidates ==> !Decisive(c) {
      PlayFails(candidates, 0, routing, false, None);
      assert candidates[0..] == candidates;
    } else {
      var c :| c in candidates && Decisive(c);
      var k :| 0 <= k < |candidates| && candidates[k] == c;
      var w := FirstDecisive(candidates, 0);
      PlayShape(candidates, 0, routing, false, None, w);
    }
  }

  // -------------------------------------------------------- the call without a state

  /** A known local candidate other than the first, while the network is down. */
  predicate RunsOffline(candidates: seq<Candidate>, i: nat, routing: Routing)
    requires i < |candidates|
  {
    var c := candidates[i];
    c.known && c.local && routing.offlineReason.Some? && c.provider != candidates[0].provider
  }

  predicate FirstOffline(candidates: seq<Candidate>, i: nat, routing: Routing)
    requires i < |candidates|
  {
    RunsOffline(candidates, i, routing) && !SomeOffline(candidates, i, routing)
  }

  predicate SomeOffline(candidates: seq<Candidate>, i: nat, routing: Routing)
    requires i <= |candidates|
  {
    exists j :: 0 <= j < i && RunsOffline(candidates, j, routing)
  }

  /** The error of the nearest known candidate before the i-th. */
  function ErrorBefore(candidates: seq<Candidate>, i: nat): Option<string>
    requires i <= |candidates|
  {
    if i == 0 then None
    else if candidates[i - 1].known then candidates[i - 1].stream.error
    else ErrorBefore(candidates, i - 1)
  }

  function ReasonFor(candidates: seq<Candidate>, i: nat): string
    requires i < |candidates|
  {
    match ErrorBefore(candidates, i)
    case Some(error) => error
    case None => if candidates[i].reason == "" then "fallback" else candidates[i].reason
  }

  /** What one candidate shows, read off the list alone: an unknown one nothing; a known one
      the offline notice if it is the first to run offline, its name, with a reason unless it
      is the chosen one, its chunks, and the interruption if it fails after showing text. */
  function Part(candidates: seq<Candidate>, i: nat, routing: Routing): seq<Event>
    requires i < |candidates|
  {
    var c := candidates[i];
    if !c.known then []
    else
      (if FirstOffline(candidates, i, routing) then [OfflineFallback(candidates[0].provider, c.provider)] else [])
      + [Meta(c.provider, if c.provider == routing.chosen then None else Some(ReasonFor(candidates, i)))]
      + PassedOn(i, c.stream.chunks)
      + Closing(c)
  }

  function Closing(c: Candidate): seq<Event>
  {
    if c.stream.error.Some? && Emits(c.stream) then [Interrupted(c.provider)] else []
  }

  function Script(candidates: seq<Candidate>, i: nat, stop: nat, routing: Routing): seq<Event>
    requires i <= stop <= |candidates|
    decreases stop - i
  {
    if i == stop then [] else Part(candidates, i, routing) + Script(candidates, i + 1, stop, routing)
  }

  /** The call from candidate i on, its state read off the candidates before. */
  function PlayOn(candidates: seq<Candidate>, i: nat, routing: Routing): Reply
    requires i <= |candidates|
  {
    Play(candidates, i, routing, SomeOffline(candidates, i, routing), ErrorBefore(candidates, i))
  }

  lemma {:induction false} OpeningIs(candidates: seq<Candidate>, i: nat, routing: Routing)
    requires i < |candidates| && candidates[i].known
    ensures Part(candidates, i, routing)
            == Opening(candidates, i, routing, SomeOffline(candidates, i, routing), ErrorBefore(candidates, i))
               + PassedOn(i, candidates[i].stream.chunks) + Closing(candidates[i])
  {
    assert FallsBackOffline(candidates, i, routing, SomeOffline(candidates, i, routing)) <==> FirstOffline(candidates, i, routing);
  }

  lemma OneMoreOffline(candidates: seq<Candidate>, i: nat, routing: Routing)
    requires i < |candidates|
    ensures SomeOffline(candidates, i + 1, routing) <==> SomeOffline(candidates, i, routing) || RunsOffline(candidates, i, routing)
  {
    if RunsOffline(candidates, i, routing) { assert SomeOffline(candidates, i + 1, routing); }
  }

  lemma {:induction false} KnownSkips(candidates: seq<Candidate>, i: nat, routing: Routing)
    requires i < |candidates| && candidates[i].known && !Decisive(candidates[i])
    ensures var rest := Play(candidates, i + 1, routing, SomeOffline(candidates, i + 1, routing), candidates[i].stream.error);
            && PlayOn(candidates, i, routing).events == Part(candidates, i, routing) + rest.events
            && PlayOn(candidates, i, routing).fallbacks == rest.fallbacks && PlayOn(candidates, i, routing).end == rest.end
  {
    OneMoreOffline(candidates, i, routing);
    OpeningIs(candidates, i, routing);
    assert Closing(candidates[i]) == [];
    PlayPasses(candidates, i, routing, SomeOffline(candidates, i, routing), ErrorBefore(candidates, i));
  }

  lemma UnknownSkips(candidates: seq<Candidate>, i: nat, routing: Routing)
    requires i < |candidates| && !candidates[i].known
    ensures PlayOn(candidates, i, routing) == PlayOn(candidates, i + 1, routing) && Part(candidates, i, routing) == []
  {
    OneMoreOffline(candidates, i, routing);
  }

  lemma PlaySkips(candidates: seq<Candidate>, i: nat, routing: Routing)
    requires i < |candidates| && !Decisive(candidates[i])
    ensures PlayOn(candidates, i, routing).events == Part(candidates, i, routing) + PlayOn(candidates, i + 1, routing).events
    ensures PlayOn(candidates, i, routing).fallbacks == PlayOn(candidates, i + 1, routing).fallbacks
    ensures PlayOn(candidates, i, routing).end == PlayOn(candidates, i + 1, routing).end
  {
    if candidates[i].known {
      KnownSkips(candidates, i, routing);
    } else {
      UnknownSkips(candidates, i, routing);
      assert [] + PlayOn(candidates, i + 1, routing).events == PlayOn(candidates, i + 1, routing).events;
    }
  }

  function FallbackTo(candidates: seq<Candidate>, w: nat): seq<string>
    requires w < |candidates|
  {
    var c := candidates[w];
    if c.stream.error.None? && c.provider != candidates[0].provider then [c.provider] else []
  }

  lemma PlayEnds(candidates: seq<Candidate>, i: nat, routing: Routing)
    requires i < |candidates| && Decisive(candidates[i])
    ensures PlayOn(candidates, i, routing).events == Part(candidates, i, routing)
    ensures PlayOn(candidates, i, routing).fallbacks == FallbackTo(candidates, i)
  {
    OpeningIs(candidates, i, routing);
  }

  lemma ScriptStarts(candidates: seq<Candidate>, i: nat, stop: nat, routing: Routing)
    requires i < stop <= |candidates|
    ensures Script(candidates, i, stop, routing) == Part(candidates, i, routing) + Script(candidates, i + 1, stop, routing)
  {
  }

  lemma {:induction false} PlayFollowsScript(candidates: seq<Candidate>, i: nat, routing: Routing, w: nat)
    requires i <= w < |candidates| && Decisive(candidates[w]) && forall k :: i <= k < w ==> !Decisive(candidates[k])
    ensures PlayOn(candidates, i, routing).events == Script(candidates, i, w + 1, routing)
    ensures PlayOn(candidates, i, routing).fallbacks == FallbackTo(candidates, w)
    decreases w - i
  {
    ScriptStarts(candidates, i, w + 1, routing);
    if i == w {
      PlayEnds(candidates, i, routing);
      assert Script(candidates, i + 1, w + 1, routing) == [];
    } else {
      PlaySkips(candidates, i, routing);
      PlayFollowsScript(candidates, i + 1, routing, w);
    }
  }

  lemma {:induction false} FailureFollowsScript(candidates: seq<Candidate>, i: nat, routing: Routing)
    requires i <= |candidates| && forall k :: i <= k < |candidates| ==> !Decisive(candidates[k])
    ensures var reply := PlayOn(candidates, i, routing);
            && reply.events == Script(candidates, i, |candidates|, routing) && reply.fallbacks == []
            && reply.end == AllFailed(ErrorBefore(candidates, |candidates|))
    decreases |candidates| - i
  {
    if i < |candidates| {
      PlaySkips(candidates, i, routing);
      FailureFollowsScript(candidates, i + 1, routing);
    }
  }

  /** Up to the first decisive candidate every known candidate shows its part, nothing else is
      shown, and a fallback is counted exactly if that candidate completes and is not the
      first.  Without a decisive one all show theirs, and the error raised is the last one. */
  lemma {:induction false} StreamFollowsScript(candidates: seq<Candidate>, routing: Routing)
    requires candidates != []
    ensures var reply := ChatStream(candidates, routing);
            && (forall w :: 0 <= w < |candidates| && Decisive(candidates[w]) && (forall k :: 0 <= k < w ==> !Decisive(candidates[k])) ==>
                  && reply.events == Script(candidates, 0, w + 1, routing)
                  && reply.fallbacks == FallbackTo(candidates, w))
            && ((forall k :: 0 <= k < |candidates| ==> !Decisive(candidates[k])) ==>
                  && reply.events == Script(candidates, 0, |candidates|, routing)
                  && reply.fallbacks == [] && reply.end == AllFailed(ErrorBefore(candidates, |candidates|)))
  {
    assert ChatStream(candidates, routing) == PlayOn(candidates, 0, routing);
    forall w | 0 <= w < |candidates| && Decisive(candidates[w]) && forall k :: 0 <= k < w ==> !Decisive(candidates[k])
      ensures ChatStream(candidates, routing).events == Script(candidates, 0, w + 1, routing)
      ensures ChatStream(candidates, routing).fallbacks == FallbackTo(candidates, w)
    {
      PlayFollowsScript(candidates, 0, routing, w);
    }
    if forall k :: 0 <= k < |candidates| ==> !Decisive(candidates[k]) { FailureFollowsScript(candidates, 0, routing); }
  }
}
