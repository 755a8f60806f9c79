/** Collecting report sources under a character budget and a file cap. */
module ReportSources {
  import opened Wrappers
  import opened Text
  import opened Boundary

  /** A path as the collector probes it, in probing order. */
  datatype Candidate = Candidate(
    path: string, isFile: bool, sensitive: bool, supported: bool, oversize: bool,
    extractable: bool, failed: bool, text: string)

  datatype Source = Source(path: string, text: string)

  datatype Report = Report(sources: seq<Source>, usedChars: nat, skippedSensitive: seq<string>)

  predicate Skipped(c: Candidate) { c.isFile && c.sensitive }

  predicate Eligible(c: Candidate)
  {
    c.isFile && !c.sensitive && c.supported && !c.oversize && c.extractable && !c.failed && !Blank(c.text)
  }

  function Cap(maxFiles: int): nat
  {
    var bounded := if maxFiles < 100 then maxFiles else 100;
    if bounded < 1 then 1 else bounded
  }

  function TotalChars(sources: seq<Source>): nat
  {
    if sources == [] then 0 else TotalChars(sources[..|sources| - 1]) + |sources[|sources| - 1].text|
  }

  function Cut(text: string, room: int): string { if room < |text| then text[..if room < 0 then 0 else room] else text }

  /** The sources of a list of candidates all of which were looked at. */
  function SourcesOf(candidates: seq<Candidate>, maxChars: int): seq<Source>
  {
    if candidates == [] then []
    else
      var before := SourcesOf(candidates[..|candidates| - 1], maxChars);
      var c := candidates[|candidates| - 1];
      if Eligible(c) then before + [Source(c.path, Wrap(Cut(c.text, maxChars - TotalChars(before))))] else before
  }

  function SkippedOf(candidates: seq<Candidate>): seq<string>
  {
    if candidates == [] then []
    else
      var c := candidates[|candidates| - 1];
      SkippedOf(candidates[..|candidates| - 1]) + if Skipped(c) then [c.path] else []
  }

  predicate Full(sources: seq<Source>, maxFiles: int, maxChars: int)
  {
    |sources| >= Cap(maxFiles) || TotalChars(sources) >= maxChars
  }

  /** The report is full once the first k candidates were looked at. */
  predicate FullAfter(candidates: seq<Candidate>, k: nat, maxFiles: int, maxChars: int)
    requires k <= |candidates|
  {
    Full(SourcesOf(candidates[..k], maxChars), maxFiles, maxChars)
  }

  lemma {:induction false} LookAtOne(before: seq<Candidate>, c: Candidate, maxChars: int)
    ensures var sources := SourcesOf(before, maxChars);
            SourcesOf(before + [c], maxChars)
              == if Eligible(c) then sources + [Source(c.path, Wrap(Cut(c.text, maxChars - TotalChars(sources))))] else sources
  {
    assert (before + [c])[..|before|] == before;
  }

  lemma {:induction false} NoteOne(before: seq<Candidate>, c: Candidate)
    ensures SkippedOf(before + [c]) == SkippedOf(before) + if Skipped(c) then [c.path] else []
  {
    assert (before + [c])[..|before|] == before;
  }

  /** Text beyond whitespace. */
  predicate SaysSomething(text: string) { exists c :: c in text && !IsSpace(c) }

  /** A candidate is taken as a source exactly if it is a file, not sensitive, of a supported
      type and size, and was extracted without failing to something beyond whitespace; its
      text is then what the budget still allows of it, wrapped.  It is noted as skipped
      exactly if it is a sensitive file. */
  lemma {:induction false} CandidateIsTakenIff(before: seq<Candidate>, c: Candidate, maxChars: int)
    requires TotalChars(SourcesOf(before, maxChars)) < maxChars
    ensures var sources := SourcesOf(before, maxChars);
            var room := maxChars - TotalChars(sources);
            var taken := c.isFile && !c.sensitive && c.supported && !c.oversize && c.extractable && !c.failed && SaysSomething(c.text);
            && (taken ==> SourcesOf(before + [c], maxChars)
                          == sources + [Source(c.path, Wrap(if |c.text| <= room then c.text else c.text[..room]))])
            && (!taken ==> SourcesOf(before + [c], maxChars) == sources)
    ensures SkippedOf(before + [c]) == if c.isFile && c.sensitive then SkippedOf(before) + [c.path] else SkippedOf(before)
    ensures SourcesOf([], maxChars) == [] && SkippedOf([]) == []
  {
    LookAtOne(before, c, maxChars);
    NoteOne(before, c);
  }

  /** At most as many files as asked for, but at least one and at most a hundred; the report is
      full at that many sources or when their characters reach the budget. */
  lemma {:induction false} FullIff(sources: seq<Source>, source: Source, maxFiles: int, maxChars: int)
    ensures 1 <= maxFiles <= 100 ==> Cap(maxFiles) == maxFiles
    ensures maxFiles < 1 ==> Cap(maxFiles) == 1
    ensures 100 < maxFiles ==> Cap(maxFiles) == 100
    ensures Full([], maxFiles, maxChars) <==> maxChars <= 0
    ensures Full(sources + [source], maxFiles, maxChars)
            <==> |sources| + 1 >= Cap(maxFiles) || TotalChars(sources) + |source.text| >= maxChars
  {
    OneMoreTotal(sources, source);
  }

  lemma {:induction false} OneMoreTotal(sources: seq<Source>, source: Source)
    ensures TotalChars(sources + [source]) == TotalChars(sources) + |source.text|
  {
    assert (sources + [source])[..|sources|] == sources;
  }

  lemma CutWrapFits(text: string, room: int)
    requires room > 0
    ensures |Wrap(Cut(text, room))| <= room + 59
  {
    WrapLength(Cut(text, room));
  }

  predicate Collected(seen: seq<Candidate>, maxChars: int, sources: seq<Source>, skipped: seq<string>, used: nat)
  {
    sources == SourcesOf(seen, maxChars) && skipped == SkippedOf(seen) && used == TotalChars(sources)
  }

  /** One round of the loop below, with room left. */
  method TakeCandidate(ghost seen: seq<Candidate>, c: Candidate, maxChars: int, sources: seq<Source>, skipped: seq<string>, used: nat)
    returns (sources': seq<Source>, skipped': seq<string>, used': nat)
    requires Collected(seen, maxChars, sources, skipped, used) && used < maxChars
    ensures Collected(seen + [c], maxChars, sources', skipped', used') && |sources'| <= |sources| + 1
    ensures used' <= maxChars + 59
  {
    sources', skipped', used' := sources, skipped, used;
    LookAtOne(seen, c, maxChars);
    NoteOne(seen, c);
    if !c.isFile {
      return;
    }
    if c.sensitive {
      skipped' := skipped + [c.path];
      return;
    }
    if !c.supported || c.oversize || !c.extractable {
      return;
    }
    StripBlankIff(c.text);
    if c.failed || Strip(c.text) == [] {
      return;
    }
    var text := Wrap(Cut(c.text, maxChars - used));
    CutWrapFits(c.text, maxChars - used);
    OneMoreTotal(sources, Source(c.path, text));
    used' := used + |text|;
    sources' := sources + [Source(c.path, text)];
  }

  /** The first k candidates are looked at, and no further one. */
  predicate StopsAt(candidates: seq<Candidate>, k: nat, maxFiles: int, maxChars: int)
  {
    && k <= |candidates| && OpenBefore(candidates, k, maxFiles, maxChars)
    && (k == |candidates| || FullAfter(candidates, k, maxFiles, maxChars))
  }

  predicate OpenBefore(candidates: seq<Candidate>, k: nat, maxFiles: int, maxChars: int)
    requires k <= |candidates|
  {
    forall j :: 0 <= j < k ==> !FullAfter(candidates, j, maxFiles, maxChars)
  }

  predicate Within(sources: seq<Source>, used: nat, maxFiles: int, maxChars: int)
  {
    |sources| <= Cap(maxFiles) && (sources != [] ==> used <= maxChars + 59)
  }

  lemma OneMoreOpen(candidates: seq<Candidate>, k: nat, maxFiles: int, maxChars: int)
    requires k < |candidates| && OpenBefore(candidates, k, maxFiles, maxChars) && !FullAfter(candidates, k, maxFiles, maxChars)
    ensures OpenBefore(candidates, k + 1, maxFiles, maxChars)
  {
  }

  method LookInOrder(candidates: seq<Candidate>, maxFiles: int, maxChars: int)
    returns (sources: seq<Source>, skipped: seq<string>, used: nat, ghost seen: nat)
    ensures StopsAt(candidates, seen, maxFiles, maxChars)
    ensures Collected(candidates[..seen], maxChars, sources, skipped, used) && Within(sources, used, maxFiles, maxChars)
  {
    sources, skipped, used := [], [], 0;
    var i := 0;
    while i < |candidates|
      invariant i <= |candidates| && OpenBefore(candidates, i, maxFiles, maxChars)
      invariant Collected(candidates[..i], maxChars, sources, skipped, used) && Within(sources, used, maxFiles, maxChars)
    {
      if |sources| >= Cap(maxFiles) || used >= maxChars {
        return sources, skipped, used, i;
      }
      OneMoreOpen(candidates, i, maxFiles, maxChars);
      assert candidates[..i + 1] == candidates[..i] + [candidates[i]];
      sources, skipped, used := TakeCandidate(candidates[..i], candidates[i], maxChars, sources, skipped, used);
      i := i + 1;
    }
    seen := i;
  }

  /** Collection looks at candidates in order until the report is full. */
  method CollectReportSources(candidates: seq<Candidate>, maxFiles: int, maxChars: int)
    returns (report: Option<Report>, ghost seen: nat)
    ensures StopsAt(candidates, seen, maxFiles, maxChars)
    ensures report.None? <==> SourcesOf(candidates[..seen], maxChars) == []
    ensures report.Some? ==> Collected(candidates[..seen], maxChars, report.value.sources,
                                       report.value.skippedSensitive, report.value.usedChars)
    ensures report.Some? ==> |report.value.sources| <= Cap(maxFiles) && report.value.usedChars <= maxChars + 59
  {
    var sources, skipped, used;
    sources, skipped, used, seen := LookInOrder(candidates, maxFiles, maxChars);
    report := if sources == [] then None else Some(Report(sources, used, skipped));
  }

  /** The bound on the characters is reached: the budget, the tags and two newlines. */
  lemma BudgetBoundIsTight(c: Candidate, maxChars: nat)
    requires 0 < maxChars <= |c.text| && Eligible(c)
    requires Free(c.text[..maxChars], BEGIN) && Free(c.text[..maxChars], END)
    ensures TotalChars(SourcesOf([c], maxChars)) == maxChars + 59
  {
    PassesUnchangedIff(c.text[..maxChars]);
    WrapLength(c.text[..maxChars]);
    assert SourcesOf([c][..0], maxChars) == [] && Cut(c.text, maxChars) == c.text[..maxChars];
    var source := Source(c.path, Wrap(c.text[..maxChars]));
    assert SourcesOf([c], maxChars) == [] + [source];
    assert TotalChars([source][..0]) == 0;
  }

  /** In every collected source the fence holds. */
  lemma {:induction false} SourcesAreFenced(candidates: seq<Candidate>, maxChars: int)
    ensures forall s :: s in SourcesOf(candidates, maxChars) ==> Fenced(s.text)
  {
    if candidates != [] {
      var before, c := candidates[..|candidates| - 1], candidates[|candidates| - 1];
      SourcesAreFenced(before, maxChars);
      WrapHasOneOfEach(Cut(c.text, maxChars - TotalChars(SourcesOf(before, maxChars))));
    }
  }
}
