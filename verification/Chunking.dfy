/** Splitting a document into chunks. */
module Chunking {
  import opened Text

  const BLANK_LINE := "\n\n"

  // ------------------------------------------------------------ overlapping segments

  /** `width` words from every `step`-th word on. */
  function Segments(words: seq<string>, i: nat, width: nat, step: nat): seq<seq<string>>
    requires step > 0
    decreases |words| - i
  {
    if i >= |words| then []
    else [words[i..if i + width < |words| then i + width else |words|]] + Segments(words, i + step, width, step)
  }

  function Drop(words: seq<string>, n: nat): seq<string> { if |words| <= n then [] else words[n..] }

  function WithoutOverlap(segments: seq<seq<string>>, overlap: nat): seq<string>
  {
    if segments == [] then [] else Drop(segments[0], overlap) + WithoutOverlap(segments[1..], overlap)
  }

  /** The first segment in full, then the new words of each later one. */
  function Reassembled(segments: seq<seq<string>>, overlap: nat): seq<string>
    requires segments != []
  {
    segments[0] + WithoutOverlap(segments[1..], overlap)
  }

  lemma {:induction false} LaterSegments(words: seq<string>, i: nat, width: nat, overlap: nat)
    requires overlap < width
    ensures WithoutOverlap(Segments(words, i, width, width - overlap), overlap) == Drop(words, i + overlap)
    decreases |words| - i
  {
    var step := width - overlap;
    if i < |words| {
      var first := words[i..if i + width < |words| then i + width else |words|];
      LaterSegments(words, i + step, width, overlap);
      FirstSegment(first, Segments(words, i + step, width, step), overlap);
      NewWords(words, i, width, overlap);
    }
  }

  lemma FirstSegment(first: seq<string>, rest: seq<seq<string>>, overlap: nat)
    ensures WithoutOverlap([first] + rest, overlap) == Drop(first, overlap) + WithoutOverlap(rest, overlap)
  {
    assert ([first] + rest)[1..] == rest;
  }

  lemma NewWords(words: seq<string>, i: nat, width: nat, overlap: nat)
    requires overlap < width && i < |words|
    ensures var end := if i + width < |words| then i + width else |words|;
            Drop(words[i..end], overlap) + Drop(words, i + width) == Drop(words, i + overlap)
  {
  }

  /** Dropping the repeated words of every later segment gives back the word list. */
  lemma SegmentsReassemble(words: seq<string>, width: nat, overlap: nat)
    requires overlap < width && words != []
    ensures var segments := Segments(words, 0, width, width - overlap);
            segments != [] && Reassembled(segments, overlap) == words
  {
    var step := width - overlap;
    var end := if width < |words| then width else |words|;
    LaterSegments(words, step, width, overlap);
    assert Segments(words, 0, width, step)[1..] == Segments(words, step, width, step);
    assert words[0..end] + Drop(words, width) == words;
  }

  /** After n rounds the index has passed the last word. */
  predicate Passes(n: nat, step: int, words: seq<string>) { n * step >= |words| }

  ghost predicate SplitEnds(words: seq<string>, step: int)
  {
    exists n: nat :: Passes(n, step, words)
  }

  /** The segment loop ends if and only if there are no words or the index advances. */
  lemma SplitEndsIff(words: seq<string>, chunkSize: nat, overlap: nat)
    ensures SplitEnds(words, chunkSize / 5 - overlap / 5) <==> words == [] || chunkSize / 5 > overlap / 5
  {
    var step := chunkSize / 5 - overlap / 5;
    if words == [] {
      assert Passes(0, step, words);
    } else if step > 0 {
      assert |words| * step >= |words| * 1;
      assert Passes(|words|, step, words);
    } else {
      forall n: nat ensures !Passes(n, step, words) {
        assert n * step <= n * 0;
      }
    }
  }

  // ----------------------------------------------------------------------- paragraphs

  /** `text.split("\n\n")`, the piece read so far in front. */
  function SplitBlank(read: string, text: string): seq<string>
    decreases |text|
  {
    if |text| < 2 then [read + text]
    else if text[..2] == BLANK_LINE then [read] + SplitBlank("", text[2..])
    else SplitBlank(read + [text[0]], text[1..])
  }

  function Stripped(pieces: seq<string>): seq<string>
  {
    if pieces == [] then []
    else (if Blank(pieces[0]) then [] else [Strip(pieces[0])]) + Stripped(pieces[1..])
  }

  function Paragraphs(text: string): seq<string> { Stripped(SplitBlank("", text)) }

  function WordsOf(parts: seq<string>): seq<string>
  {
    if parts == [] then [] else WordsOf(parts[..|parts| - 1]) + Words(parts[|parts| - 1])
  }

  lemma {:induction false} WordsOfConcat(a: seq<string>, b: seq<string>)
    ensures WordsOf(a + b) == WordsOf(a) + WordsOf(b)
  {
    if b == [] {
      assert a + b == a;
    } else {
      assert (a + b)[..|a + b| - 1] == a + b[..|b| - 1];
      WordsOfConcat(a, b[..|b| - 1]);
    }
  }

  lemma WordsOfOne(s: string)
    ensures WordsOf([s]) == Words(s)
  {
    assert WordsOf([s][..0]) == [];
  }

  lemma BlankLineSeparates(a: string, b: string)
    ensures Words(a + (BLANK_LINE + b)) == Words(a) + Words(b)
    ensures Words(a + BLANK_LINE + b) == Words(a) + Words(b)
  {
    var tail := ['\n'] + b;
    assert BLANK_LINE + b == ['\n'] + tail;
    assert a + (BLANK_LINE + b) == a + ['\n'] + tail == a + BLANK_LINE + b;
    SpaceSeparates(a, '\n', tail);
    SpaceSeparates([], '\n', b);
    assert [] + ['\n'] + b == tail;
  }

  lemma {:induction false} SplitKeepsWords(read: string, text: string)
    ensures WordsOf(SplitBlank(read, text)) == Words(read + text)
    decreases |text|
  {
    if |text| < 2 {
      WordsOfOne(read + text);
    } else if text[..2] == BLANK_LINE {
      var rest := text[2..];
      SplitKeepsWords("", rest);
      WordsOfConcat([read], SplitBlank("", rest));
      WordsOfOne(read);
      assert text == BLANK_LINE + rest && "" + rest == rest;
      BlankLineSeparates(read, rest);
    } else {
      SplitKeepsWords(read + [text[0]], text[1..]);
      assert read + [text[0]] + text[1..] == read + text;
    }
  }

  lemma {:induction false} StrippedKeepsWords(pieces: seq<string>)
    ensures WordsOf(Stripped(pieces)) == WordsOf(pieces)
    ensures forall p :: p in Stripped(pieces) ==> Trim(p)
  {
    if pieces != [] {
      var head, tail := pieces[0], pieces[1..];
      StrippedKeepsWords(tail);
      assert pieces == [head] + tail;
      WordsOfConcat([head], tail);
      WordsOfOne(head);
      StripBlankIff(head);
      if Blank(head) {
        BlankHasNoWords(head);
        assert Stripped(pieces) == Stripped(tail);
      } else {
        StripKeepsWords(head);
        WordsOfConcat([Strip(head)], Stripped(tail));
        WordsOfOne(Strip(head));
      }
    }
  }

  lemma ParagraphsKeepWords(text: string)
    ensures WordsOf(Paragraphs(text)) == Words(text)
    ensures forall p :: p in Paragraphs(text) ==> Trim(p)
  {
    SplitKeepsWords("", text);
    StrippedKeepsWords(SplitBlank("", text));
    assert "" + text == text;
  }

  // -------------------------------------------------------------------------- chunks

  /** Ghost label of a chunk: whole paragraphs, or the first or a later part of a long one. */
  datatype Kind = Whole | First | Later

  /** The words of the chunks, the repeated ones of later parts dropped. */
  function Rebuild(chunks: seq<string>, kinds: seq<Kind>, overlap: nat): seq<string>
    requires |chunks| == |kinds|
  {
    if chunks == [] then []
    else
      var words := Words(chunks[|chunks| - 1]);
      Rebuild(chunks[..|chunks| - 1], kinds[..|kinds| - 1], overlap)
      + if kinds[|kinds| - 1].Later? then Drop(words, overlap) else words
  }

  lemma {:induction false} RebuildAppend(chunks: seq<string>, kinds: seq<Kind>, overlap: nat, chunk: string, kind: Kind)
    requires |chunks| == |kinds|
    ensures Rebuild(chunks + [chunk], kinds + [kind], overlap)
            == Rebuild(chunks, kinds, overlap) + if kind.Later? then Drop(Words(chunk), overlap) else Words(chunk)
  {
    assert (chunks + [chunk])[..|chunks|] == chunks && (kinds + [kind])[..|kinds|] == kinds;
  }

  /** One line per segment. */
  function Lines(segments: seq<seq<string>>): seq<string>
  {
    seq(|segments|, k requires 0 <= k < |segments| => Strip(Join(" ", segments[k])))
  }

  lemma OneMoreLine(segments: seq<seq<string>>, segment: seq<string>)
    ensures Lines(segments + [segment]) == Lines(segments) + [Strip(Join(" ", segment))]
  {
  }

  class DocumentChunker {
    const chunkSize: nat
    const overlap: nat

    constructor (chunkSize: nat, overlap: nat)
      ensures this.chunkSize == chunkSize && this.overlap == overlap
    {
      this.chunkSize, this.overlap := chunkSize, overlap;
    }

    function LongChunks(text: string): seq<string>
      requires chunkSize / 5 > overlap / 5
    {
      Lines(Segments(Words(text), 0, chunkSize / 5, chunkSize / 5 - overlap / 5))
    }

    method SplitLong(text: string) returns (chunks: seq<string>)
      requires chunkSize / 5 > overlap / 5
      ensures chunks == LongChunks(text)
      ensures Parsed(chunks, Segments(Words(text), 0, chunkSize / 5, chunkSize / 5 - overlap / 5))
      ensures forall chunk :: chunk in chunks ==> |Words(chunk)| <= chunkSize / 5
    {
      chunks := [];
      ghost var segments := [];
      var words := Words(text);
      WordsAreWords(text);
      var width, step := chunkSize / 5, chunkSize / 5 - overlap / 5;
      var i := 0;
      while i < |words|
        invariant 0 <= i && Parsed(chunks, segments) && chunks == Lines(segments)
        invariant segments + Segments(words, i, width, step) == Segments(words, 0, width, step)
      {
        var segment := words[i..if i + width < |words| then i + width else |words|];
        SegmentReadsBack(words, segment);
        TakeSegment(segments, words, i, width, step);
        var line := Strip(Join(" ", segment));
        ParsedOneMore(chunks, segments, line);
        OneMoreLine(segments, segment);
        chunks := chunks + [line];
        segments := segments + [segment];
        i := i + step;
      }
      assert segments + [] == segments;
      SegmentsFit(words, 0, width, step);
    }

    /** `buffer` and a paragraph of trimmed text, a blank line between them. */
    method Merge(buffer: string, para: string) returns (merged: string)
      requires (buffer == "" || Trim(buffer)) && Trim(para)
      ensures merged == Join(BLANK_LINE, (if buffer == "" then [] else [buffer]) + [para])
      ensures Trim(merged) && Words(merged) == Words(buffer) + Words(para)
      ensures |merged| <= |buffer| + |para| + 2
    {
      merged := Strip(buffer + BLANK_LINE + para);
      if buffer == "" {
        assert buffer + BLANK_LINE + para == BLANK_LINE + para;
        StripKeepsTrim(BLANK_LINE, para);
        assert [] + [para] == [para];
      } else {
        var all := buffer + BLANK_LINE + para;
        assert Trim(all);
        JoinAppend(BLANK_LINE, [buffer], para);
        BlankLineSeparates(buffer, para);
        StripIsIdentity(all);
      }
    }

    /** No paragraph is longer than a chunk. */
    predicate AllShort(paras: seq<string>) { forall p :: p in paras ==> |p| <= chunkSize }

    function Flushed(chunks: seq<string>, buffer: string): seq<string>
    {
      if buffer == "" then chunks else chunks + [buffer]
    }

    /** So far the flushed chunks join to the paragraphs taken. */
    predicate Rejoins(chunks: seq<string>, buffer: string, taken: seq<string>)
    {
      && Join(BLANK_LINE, Flushed(chunks, buffer)) == Join(BLANK_LINE, taken)
      && (Flushed(chunks, buffer) == [] <==> taken == [])
    }

    /** The chunks and the buffer after one more paragraph. */
    function Taken(chunks: seq<string>, buffer: string, para: string): (seq<string>, string)
      requires |para| <= chunkSize || chunkSize / 5 > overlap / 5
    {
      if |buffer| + |para| + 2 <= chunkSize
      then (chunks, Join(BLANK_LINE, (if buffer == "" then [] else [buffer]) + [para]))
      else if |para| > chunkSize then (Flushed(chunks, buffer) + LongChunks(para), "")
      else (Flushed(chunks, buffer), para)
    }

    function Gathered(paras: seq<string>): (seq<string>, string)
      requires Ends(paras)
    {
      if paras == [] then ([], "")
      else
        var front, last := paras[..|paras| - 1], paras[|paras| - 1];
        assert last in paras && forall p :: p in front ==> p in paras;
        var (chunks, buffer) := Gathered(front);
        Taken(chunks, buffer, last)
    }

    /** Every paragraph is short, or long ones can be split. */
    predicate Ends(paras: seq<string>) { AllShort(paras) || chunkSize / 5 > overlap / 5 }

    lemma GatheredOneMore(paras: seq<string>, para: string)
      requires Ends(paras + [para])
      ensures Ends(paras) && (|para| <= chunkSize || chunkSize / 5 > overlap / 5)
      ensures Gathered(paras + [para]) == Taken(Gathered(paras).0, Gathered(paras).1, para)
    {
      var all := paras + [para];
      assert all[..|all| - 1] == paras && all[|all| - 1] == para;
      assert para in all && forall p :: p in paras ==> p in all;
    }

    lemma EndsBefore(paras: seq<string>, i: nat)
      requires Ends(paras) && i <= |paras|
      ensures Ends(paras[..i])
    {
    }

    /** One round of the paragraph loop. */
    method TakeParagraph(chunks: seq<string>, ghost kinds: seq<Kind>, buffer: string, para: string, ghost taken: seq<string>)
      returns (chunks': seq<string>, ghost kinds': seq<Kind>, buffer': string)
      requires |para| <= chunkSize || chunkSize / 5 > overlap / 5
      requires Sized(chunks, kinds) && (buffer == "" || Trim(buffer)) && |buffer| <= chunkSize && Trim(para)
      ensures Sized(chunks', kinds') && (buffer' == "" || Trim(buffer')) && |buffer'| <= chunkSize
      ensures Rebuild(chunks', kinds', overlap / 5) + Words(buffer')
              == Rebuild(chunks, kinds, overlap / 5) + Words(buffer) + Words(para)
      ensures (chunks', buffer') == Taken(chunks, buffer, para)
      ensures |para| <= chunkSize && Plain(kinds) && Rejoins(chunks, buffer, taken) ==>
                Plain(kinds') && Rejoins(chunks', buffer', taken + [para])
    {
      chunks', kinds', buffer' := chunks, kinds, buffer;
      JoinAppend(BLANK_LINE, taken, para);
      if |buffer| + |para| + 2 <= chunkSize {
        buffer' := Merge(buffer, para);
        MergedJoin(chunks, buffer, para);
        Assoc(Rebuild(chunks, kinds, overlap / 5), Words(buffer), Words(para));
        return;
      }
      chunks', kinds' := Flush(chunks, kinds, buffer);
      JoinAppend(BLANK_LINE, chunks', para);
      if |para| > chunkSize {
        chunks', kinds' := AddLong(chunks', kinds', para);
        buffer' := "";
        NothingAdded(Rebuild(chunks', kinds', overlap / 5));
      } else {
        buffer' := para;
      }
    }

    method Flush(chunks: seq<string>, ghost kinds: seq<Kind>, buffer: string)
      returns (chunks': seq<string>, ghost kinds': seq<Kind>)
      requires Sized(chunks, kinds) && (buffer == "" || Trim(buffer)) && |buffer| <= chunkSize
      ensures chunks' == Flushed(chunks, buffer) && Sized(chunks', kinds') && (Plain(kinds) ==> Plain(kinds'))
      ensures Rebuild(chunks', kinds', overlap / 5) == Rebuild(chunks, kinds, overlap / 5) + Words(buffer)
    {
      chunks', kinds' := chunks, kinds;
      if buffer != "" {
        RebuildAppend(chunks, kinds, overlap / 5, buffer, Whole);
        StripIsIdentity(buffer);
        chunks', kinds' := chunks + [Strip(buffer)], kinds + [Whole];
      }
    }

    method AddLong(chunks: seq<string>, ghost kinds: seq<Kind>, para: string)
      returns (chunks': seq<string>, ghost kinds': seq<Kind>)
      requires chunkSize / 5 > overlap / 5 && Sized(chunks, kinds) && Trim(para)
      ensures Sized(chunks', kinds') && chunks' == chunks + LongChunks(para)
      ensures Rebuild(chunks', kinds', overlap / 5) == Rebuild(chunks, kinds, overlap / 5) + Words(para)
    {
      var parts := SplitLong(para);
      TrimHasWords(para);
      AppendParts(chunks, kinds, parts, Words(para), chunkSize / 5, overlap / 5);
      chunks', kinds' := chunks + parts, kinds + PartKinds(|parts|);
      assert forall k :: 0 <= k < |parts| ==> chunks'[|chunks| + k] == parts[k];
    }

    lemma MergedJoin(chunks: seq<string>, buffer: string, para: string)
      ensures var merged := Join(BLANK_LINE, (if buffer == "" then [] else [buffer]) + [para]);
              Join(BLANK_LINE, chunks + [merged]) == Join(BLANK_LINE, Flushed(chunks, buffer) + [para])
    {
      JoinAppend(BLANK_LINE, if buffer == "" then [] else [buffer], para);
      JoinAppend(BLANK_LINE, chunks, buffer);
      JoinAppend(BLANK_LINE, chunks, para);
      JoinAppend(BLANK_LINE, Flushed(chunks, buffer), para);
      var merged := Join(BLANK_LINE, (if buffer == "" then [] else [buffer]) + [para]);
      JoinAppend(BLANK_LINE, chunks, merged);
    }

    /** After the paragraphs taken: their words are chunked or buffered, and while all of them
        were short, the chunks and the buffer join to them. */
    predicate Progress(taken: seq<string>, chunks: seq<string>, kinds: seq<Kind>, buffer: string)
    {
      && Sized(chunks, kinds) && (buffer == "" || Trim(buffer)) && |buffer| <= chunkSize
      && Rebuild(chunks, kinds, overlap / 5) + Words(buffer) == WordsOf(taken)
      && (AllShort(taken) ==> Plain(kinds) && Rejoins(chunks, buffer, taken))
    }

    lemma OneMoreParagraph(taken: seq<string>, para: string)
      ensures AllShort(taken + [para]) <==> AllShort(taken) && |para| <= chunkSize
      ensures WordsOf(taken + [para]) == WordsOf(taken) + Words(para)
    {
      WordsOfConcat(taken, [para]);
      WordsOfOne(para);
    }

    method AddParagraph(chunks: seq<string>, ghost kinds: seq<Kind>, buffer: string, para: string, ghost taken: seq<string>)
      returns (chunks': seq<string>, ghost kinds': seq<Kind>, buffer': string)
      requires (|para| <= chunkSize || chunkSize / 5 > overlap / 5) && Trim(para) && Progress(taken, chunks, kinds, buffer)
      ensures Progress(taken + [para], chunks', kinds', buffer') && (chunks', buffer') == Taken(chunks, buffer, para)
    {
      chunks', kinds', buffer' := TakeParagraph(chunks, kinds, buffer, para, taken);
      OneMoreParagraph(taken, para);
    }

    method GatherChunks(paras: seq<string>) returns (chunks: seq<string>, ghost kinds: seq<Kind>, buffer: string)
      requires Ends(paras)
      requires forall p :: p in paras ==> Trim(p)
      ensures Progress(paras, chunks, kinds, buffer) && (chunks, buffer) == Gathered(paras)
    {
      chunks, kinds, buffer := [], [], "";
      for i := 0 to |paras|
        invariant Progress(paras[..i], chunks, kinds, buffer)
        invariant Ends(paras[..i])
        invariant (chunks, buffer) == Gathered(paras[..i])
      {
        ParagraphAt(paras, i);
        EndsBefore(paras, i + 1);
        GatheredOneMore(paras[..i], paras[i]);
        chunks, kinds, buffer := AddParagraph(chunks, kinds, buffer, paras[i], paras[..i]);
      }
      assert paras[..|paras|] == paras;
    }

    /** With a long paragraph the index of the segment loop must advance; see `ChunkingEndsIff`. */
    method ChunkText(text: string)
      returns (chunks: seq<string>, ghost kinds: seq<Kind>, ghost groups: seq<seq<string>>)
      requires AllShort(Paragraphs(text)) || chunkSize / 5 > overlap / 5
      ensures Sized(chunks, kinds) && Rebuild(chunks, kinds, overlap / 5) == Words(text)
      ensures Grouping(groups, Paragraphs(text), chunkSize) && Splittable(groups) && chunks == ChunksOf(groups)
      ensures AllShort(Paragraphs(text)) ==>
                AllShort(chunks) && Join(BLANK_LINE, chunks) == Join(BLANK_LINE, Paragraphs(text))
    {
      var buffer;
      ParagraphsKeepWords(text);
      chunks, kinds, buffer := GatherChunks(Paragraphs(text));
      chunks, kinds := Flush(chunks, kinds, buffer);
      WholeChunksFit(chunks, kinds);
      groups := GroupsAre(Paragraphs(text));
    }

    // ---------------------------------------------------------------- how paragraphs group

    /** Long groups can be split. */
    predicate Splittable(groups: seq<seq<string>>)
    {
      forall g :: g in groups ==> !Long(g, chunkSize) || chunkSize / 5 > overlap / 5
    }

    /** A short group is one chunk, its paragraphs joined by blank lines; a long paragraph is
        cut into lines of overlapping segments of its words. */
    function ChunksOf(groups: seq<seq<string>>): seq<string>
      requires Splittable(groups)
    {
      if groups == [] then []
      else
        var last := groups[|groups| - 1];
        assert last in groups && forall g :: g in groups[..|groups| - 1] ==> g in groups;
        ChunksOf(groups[..|groups| - 1]) + if Long(last, chunkSize) then LongChunks(last[0]) else [Join(BLANK_LINE, last)]
    }

    lemma ChunksOneMore(groups: seq<seq<string>>, g: seq<string>)
      requires Splittable(groups) && (Long(g, chunkSize) ==> chunkSize / 5 > overlap / 5)
      ensures Splittable(groups + [g])
      ensures ChunksOf(groups + [g])
              == ChunksOf(groups) + if Long(g, chunkSize) then LongChunks(g[0]) else [Join(BLANK_LINE, g)]
    {
      assert (groups + [g])[..|groups|] == groups;
    }

    /** What the chunks and the buffer hold of the groups so far: the last group is buffered
        unless it is a long one. */
    predicate Holds(groups: seq<seq<string>>, chunks: seq<string>, buffer: string)
      requires Splittable(groups)
    {
      if buffer == "" then chunks == ChunksOf(groups) && (groups == [] || Long(groups[|groups| - 1], chunkSize))
      else
        && groups != [] && !Long(groups[|groups| - 1], chunkSize) && buffer == Join(BLANK_LINE, groups[|groups| - 1])
        && Splittable(groups[..|groups| - 1]) && chunks == ChunksOf(groups[..|groups| - 1])
    }

    lemma FlushedHolds(groups: seq<seq<string>>, chunks: seq<string>, buffer: string)
      requires Splittable(groups) && Holds(groups, chunks, buffer)
      ensures Flushed(chunks, buffer) == ChunksOf(groups)
    {
    }

    /** The paragraph joins the open group. */
    lemma JoinsGroup(groups: seq<seq<string>>, paras: seq<string>, chunks: seq<string>, buffer: string, para: string)
      returns (groups': seq<seq<string>>)
      requires Grouping(groups, paras, chunkSize) && Splittable(groups) && Holds(groups, chunks, buffer)
      requires buffer != "" && |buffer| + |para| + 2 <= chunkSize && para != ""
      ensures Grouping(groups', paras + [para], chunkSize) && Splittable(groups')
      ensures Holds(groups', chunks, Join(BLANK_LINE, [buffer] + [para]))
    {
      var front, last := groups[..|groups| - 1], groups[|groups| - 1];
      groups' := front + [last + [para]];
      assert groups == front + [last];
      JoinAppend(BLANK_LINE, last, para);
      JoinAppend(BLANK_LINE, [buffer], para);
      FlatOneMore(front, last);
      FlatOneMore(front, last + [para]);
      assert groups'[..|front|] == front;
      ChunksOneMore(front, last + [para]);
      GroupingGrows(front, last, paras, para, chunkSize);
    }

    /** The paragraph starts a group of its own. */
    lemma StartsGroup(groups: seq<seq<string>>, paras: seq<string>, chunks: seq<string>, buffer: string, para: string)
      returns (groups': seq<seq<string>>)
      requires Grouping(groups, paras, chunkSize) && Splittable(groups) && Holds(groups, chunks, buffer)
      requires (buffer == "" || |buffer| + |para| + 2 > chunkSize) && para != ""
      requires |para| <= chunkSize || chunkSize / 5 > overlap / 5
      ensures Grouping(groups', paras + [para], chunkSize) && Splittable(groups')
      ensures if |para| > chunkSize then Holds(groups', Flushed(chunks, buffer) + LongChunks(para), "")
              else Holds(groups', Flushed(chunks, buffer), para)
    {
      groups' := groups + [[para]];
      FlushedHolds(groups, chunks, buffer);
      FlatOneMore(groups, [para]);
      ChunksOneMore(groups, [para]);
      assert groups'[..|groups|] == groups && Join(BLANK_LINE, [para]) == para;
      GroupingStarts(groups, paras, para, chunkSize);
    }

    lemma NextGroups(groups: seq<seq<string>>, paras: seq<string>, chunks: seq<string>, buffer: string, para: string)
      returns (groups': seq<seq<string>>)
      requires Grouping(groups, paras, chunkSize) && Splittable(groups) && Holds(groups, chunks, buffer)
      requires para != "" && (|para| <= chunkSize || chunkSize / 5 > overlap / 5)
      ensures Grouping(groups', paras + [para], chunkSize) && Splittable(groups')
      ensures Holds(groups', Taken(chunks, buffer, para).0, Taken(chunks, buffer, para).1)
    {
      if buffer != "" && |buffer| + |para| + 2 <= chunkSize {
        groups' := JoinsGroup(groups, paras, chunks, buffer, para);
      } else {
        groups' := StartsGroup(groups, paras, chunks, buffer, para);
        assert buffer == "" ==> Flushed(chunks, buffer) == chunks && Join(BLANK_LINE, [] + [para]) == para;
      }
    }

    lemma {:induction false} GroupsSoFar(paras: seq<string>) returns (groups: seq<seq<string>>)
      requires Ends(paras)
      requires forall p :: p in paras ==> p != ""
      ensures Grouping(groups, paras, chunkSize) && Splittable(groups)
      ensures Holds(groups, Gathered(paras).0, Gathered(paras).1)
    {
      if paras == [] {
        groups := [];
      } else {
        var front, para := paras[..|paras| - 1], paras[|paras| - 1];
        assert para in paras && (forall p :: p in front ==> p in paras) && front + [para] == paras;
        GatheredOneMore(front, para);
        var before := GroupsSoFar(front);
        groups := NextGroups(before, front, Gathered(front).0, Gathered(front).1, para);
      }
    }

    lemma GroupsAre(paras: seq<string>) returns (groups: seq<seq<string>>)
      requires Ends(paras)
      requires forall p :: p in paras ==> Trim(p)
      ensures Grouping(groups, paras, chunkSize) && Splittable(groups)
      ensures Flushed(Gathered(paras).0, Gathered(paras).1) == ChunksOf(groups)
    {
      groups := GroupsSoFar(paras);
      FlushedHolds(groups, Gathered(paras).0, Gathered(paras).1);
    }

    lemma ParagraphAt(paras: seq<string>, i: nat)
      requires i < |paras| && forall p :: p in paras ==> Trim(p)
      ensures Trim(paras[i]) && paras[..i + 1] == paras[..i] + [paras[i]] && (AllShort(paras) ==> |paras[i]| <= chunkSize)
    {
      assert paras[i] in paras;
    }

    /** Chunking gets past every paragraph if and only if none is long or the index advances. */
    lemma ChunkingEndsIff(text: string)
      ensures (forall p :: p in Paragraphs(text) ==> |p| <= chunkSize || SplitEnds(Words(p), chunkSize / 5 - overlap / 5))
              <==> AllShort(Paragraphs(text)) || chunkSize / 5 > overlap / 5
    {
      ParagraphsKeepWords(text);
      forall p | p in Paragraphs(text)
        ensures SplitEnds(Words(p), chunkSize / 5 - overlap / 5) <==> chunkSize / 5 > overlap / 5 {
        TrimHasWords(p);
        SplitEndsIff(Words(p), chunkSize, overlap);
      }
    }

    lemma WholeChunksFit(chunks: seq<string>, kinds: seq<Kind>)
      requires Sized(chunks, kinds)
      ensures Plain(kinds) ==> AllShort(chunks)
    {
    }

    predicate Sized(chunks: seq<string>, kinds: seq<Kind>)
    {
      |kinds| == |chunks|
      && forall k :: 0 <= k < |chunks| ==>
           if kinds[k].Whole? then |chunks[k]| <= chunkSize else |Words(chunks[k])| <= chunkSize / 5
    }

    predicate Plain(kinds: seq<Kind>) { forall k :: 0 <= k < |kinds| ==> kinds[k].Whole? }
  }

  lemma StripIsIdentity(s: string)
    requires Trim(s)
    ensures Strip(s) == s
  {
    StripKeepsTrim("", s);
    assert "" + s == s;
  }

  lemma TrimHasWords(s: string)
    requires Trim(s)
    ensures Words(s) != []
  {
  }

  lemma AppendParts(chunks: seq<string>, kinds: seq<Kind>, parts: seq<string>, words: seq<string>, width: nat, overlap: nat)
    requires |chunks| == |kinds| && overlap < width && words != []
    requires Parsed(parts, Segments(words, 0, width, width - overlap))
    ensures Rebuild(chunks + parts, kinds + PartKinds(|parts|), overlap) == Rebuild(chunks, kinds, overlap) + words
  {
    SegmentsReassemble(words, width, overlap);
    AppendLater(chunks, kinds, parts, Segments(words, 0, width, width - overlap), overlap);
  }

  /** The words of each part are those of its segment. */
  predicate Parsed(parts: seq<string>, segments: seq<seq<string>>)
  {
    |parts| == |segments| && forall k :: 0 <= k < |parts| ==> Words(parts[k]) == segments[k]
  }

  function PartKinds(n: nat): seq<Kind> { seq(n, i => if i == 0 then First else Later) }

  lemma {:induction false} AppendLater(chunks: seq<string>, kinds: seq<Kind>, parts: seq<string>, segments: seq<seq<string>>, overlap: nat)
    requires |chunks| == |kinds| && parts != [] && Parsed(parts, segments)
    ensures Rebuild(chunks + parts, kinds + PartKinds(|parts|), overlap)
            == Rebuild(chunks, kinds, overlap) + Reassembled(segments, overlap)
  {
    if |parts| == 1 {
      AppendFirst(chunks, kinds, parts[0], segments[0], overlap);
      assert parts == [parts[0]] && segments == [segments[0]];
    } else {
      var front, last := parts[..|parts| - 1], parts[|parts| - 1];
      var early, final := segments[..|parts| - 1], segments[|parts| - 1];
      assert parts == front + [last] && segments == early + [final] && Words(last) == final;
      AppendLater(chunks, kinds, front, early, overlap);
      AppendStep(chunks, kinds, front, last, early, overlap);
    }
  }

  lemma {:induction false} AppendFirst(chunks: seq<string>, kinds: seq<Kind>, part: string, segment: seq<string>, overlap: nat)
    requires |chunks| == |kinds| && Words(part) == segment
    ensures Rebuild(chunks + [part], kinds + PartKinds(1), overlap)
            == Rebuild(chunks, kinds, overlap) + Reassembled([segment], overlap)
  {
    RebuildAppend(chunks, kinds, overlap, part, First);
    assert PartKinds(1) == [First];
    assert WithoutOverlap([segment][1..], overlap) == [];
    NothingAdded(segment);
  }

  lemma {:induction false} AppendStep(chunks: seq<string>, kinds: seq<Kind>, front: seq<string>, last: string,
                   early: seq<seq<string>>, overlap: nat)
    requires |chunks| == |kinds| && front != [] && early != []
    requires Rebuild(chunks + front, kinds + PartKinds(|front|), overlap)
             == Rebuild(chunks, kinds, overlap) + Reassembled(early, overlap)
    ensures Rebuild(chunks + (front + [last]), kinds + PartKinds(|front| + 1), overlap)
            == Rebuild(chunks, kinds, overlap) + Reassembled(early + [Words(last)], overlap)
  {
    OneMorePart(chunks, kinds, front, last, overlap);
    ReassembledAppend(early, Words(last), overlap);
    Assoc(Rebuild(chunks, kinds, overlap), Reassembled(early, overlap), Drop(Words(last), overlap));
  }

  lemma ReassembledAppend(early: seq<seq<string>>, final: seq<string>, overlap: nat)
    requires early != []
    ensures Reassembled(early + [final], overlap) == Reassembled(early, overlap) + Drop(final, overlap)
  {
    assert (early + [final])[1..] == early[1..] + [final];
    WithoutOverlapAppend(early[1..], final, overlap);
    Assoc(early[0], WithoutOverlap(early[1..], overlap), Drop(final, overlap));
  }

  lemma OneMorePart(chunks: seq<string>, kinds: seq<Kind>, front: seq<string>, last: string, overlap: nat)
    requires |chunks| == |kinds| && front != []
    ensures Rebuild(chunks + (front + [last]), kinds + PartKinds(|front| + 1), overlap)
            == Rebuild(chunks + front, kinds + PartKinds(|front|), overlap) + Drop(Words(last), overlap)
  {
    RebuildAppend(chunks + front, kinds + PartKinds(|front|), overlap, last, Later);
    assert PartKinds(|front| + 1) == PartKinds(|front|) + [Later];
    Regroup(chunks, front, last);
    Regroup(kinds, PartKinds(|front|), Later);
  }

  lemma Assoc<T>(a: seq<T>, b: seq<T>, c: seq<T>)
    ensures a + (b + c) == a + b + c
  {
  }

  lemma NothingAdded<T>(a: seq<T>)
    ensures a + [] == a
  {
  }

  lemma Regroup<T>(a: seq<T>, b: seq<T>, x: T)
    ensures a + (b + [x]) == a + b + [x]
  {
  }

  lemma {:induction false} WithoutOverlapAppend(segments: seq<seq<string>>, last: seq<string>, overlap: nat)
    ensures WithoutOverlap(segments + [last], overlap) == WithoutOverlap(segments, overlap) + Drop(last, overlap)
  {
    if segments == [] {
      assert segments + [last] == [last] && WithoutOverlap([last][1..], overlap) == [];
    } else {
      assert (segments + [last])[1..] == segments[1..] + [last];
      WithoutOverlapAppend(segments[1..], last, overlap);
    }
  }

  lemma SegmentReadsBack(words: seq<string>, segment: seq<string>)
    requires (forall w :: w in words ==> IsWord(w)) && segment != [] && forall w :: w in segment ==> w in words
    ensures Words(Strip(Join(" ", segment))) == segment
  {
    WordsOfJoined(segment);
    StripKeepsWords(Join(" ", segment));
  }

  lemma ParsedOneMore(parts: seq<string>, segments: seq<seq<string>>, part: string)
    requires Parsed(parts, segments)
    ensures Parsed(parts + [part], segments + [Words(part)])
  {
  }

  lemma {:induction false} SegmentsFit(words: seq<string>, i: nat, width: nat, step: nat)
    requires step > 0
    ensures forall segment :: segment in Segments(words, i, width, step) ==> |segment| <= width
    decreases |words| - i
  {
    if i < |words| { SegmentsFit(words, i + step, width, step); }
  }

  lemma TakeSegment(taken: seq<seq<string>>, words: seq<string>, i: nat, width: nat, step: nat)
    requires step > 0 && i < |words|
    ensures var segment := words[i..if i + width < |words| then i + width else |words|];
            taken + [segment] + Segments(words, i + step, width, step) == taken + Segments(words, i, width, step)
  {
  }

  // --------------------------------------------------------------- the grouping is greedy

  predicate Long(group: seq<string>, size: nat) { |group| == 1 && |group[0]| > size }

  function Flat(groups: seq<seq<string>>): seq<string>
  {
    if groups == [] then [] else Flat(groups[..|groups| - 1]) + groups[|groups| - 1]
  }

  lemma FlatOneMore(groups: seq<seq<string>>, g: seq<string>)
    ensures Flat(groups + [g]) == Flat(groups) + g
  {
    assert (groups + [g])[..|groups|] == groups;
  }

  /** A long paragraph alone, or paragraphs that fit one chunk together. */
  predicate IsGroup(group: seq<string>, size: nat)
  {
    group != [] && (Long(group, size) || |Join(BLANK_LINE, group)| <= size)
  }

  /** The next paragraph does not fit beside a group that is not long. */
  predicate Full(group: seq<string>, next: seq<string>, size: nat)
  {
    !Long(group, size) ==> next != [] && |Join(BLANK_LINE, group)| + |next[0]| + 2 > size
  }

  /** The paragraphs in order, cut into groups each of which takes all it can. */
  predicate Grouping(groups: seq<seq<string>>, paras: seq<string>, size: nat)
  {
    && Flat(groups) == paras
    && (forall k :: 0 <= k < |groups| ==> IsGroup(groups[k], size))
    && forall k :: 0 <= k < |groups| - 1 ==> Full(groups[k], groups[k + 1], size)
  }

  lemma GroupingGrows(front: seq<seq<string>>, last: seq<string>, paras: seq<string>, para: string, size: nat)
    requires Grouping(front + [last], paras, size) && !Long(last, size)
    requires |Join(BLANK_LINE, last)| + |para| + 2 <= size
    ensures Grouping(front + [last + [para]], paras + [para], size)
  {
    var groups, groups' := front + [last], front + [last + [para]];
    FlatOneMore(front, last);
    FlatOneMore(front, last + [para]);
    JoinAppend(BLANK_LINE, last, para);
    assert IsGroup(groups[|front|], size);
    forall k | 0 <= k < |groups'| ensures IsGroup(groups'[k], size) {
      if k < |front| { assert IsGroup(groups[k], size); }
    }
    forall k | 0 <= k < |groups'| - 1 ensures Full(groups'[k], groups'[k + 1], size) {
      assert Full(groups[k], groups[k + 1], size);
    }
  }

  lemma GroupingStarts(groups: seq<seq<string>>, paras: seq<string>, para: string, size: nat)
    requires Grouping(groups, paras, size)
    requires groups != [] ==> Full(groups[|groups| - 1], [para], size)
    ensures Grouping(groups + [[para]], paras + [para], size)
  {
    FlatOneMore(groups, [para]);
    assert Join(BLANK_LINE, [para]) == para;
    var groups' := groups + [[para]];
    forall k | 0 <= k < |groups'| - 1 ensures Full(groups'[k], groups'[k + 1], size) {
      if k < |groups| - 1 { assert Full(groups[k], groups[k + 1], size); }
    }
  }

  lemma {:induction false} FlatHead(groups: seq<seq<string>>)
    requires groups != []
    ensures Flat(groups) == groups[0] + Flat(groups[1..])
  {
    var tail := groups[1..];
    if tail == [] {
      assert groups == [] + [groups[0]];
      FlatOneMore([], groups[0]);
    } else {
      var front, last := groups[..|groups| - 1], groups[|groups| - 1];
      FlatHead(front);
      assert tail == front[1..] + [last];
      FlatOneMore(front[1..], last);
    }
  }

  lemma {:induction false} JoinIsLonger(a: seq<string>, b: seq<string>)
    ensures |Join(BLANK_LINE, a)| <= |Join(BLANK_LINE, a + b)|
    ensures forall p :: p in a ==> |p| <= |Join(BLANK_LINE, a)|
    decreases |a| + 2 * |b|
  {
    if b != [] {
      var front, last := b[..|b| - 1], b[|b| - 1];
      assert a + b == a + front + [last];
      JoinIsLonger(a, front);
      JoinAppend(BLANK_LINE, a + front, last);
    } else if a != [] {
      assert a + b == a && a == a[..|a| - 1] + [a[|a| - 1]];
      JoinIsLonger(a[..|a| - 1], []);
      JoinAppend(BLANK_LINE, a[..|a| - 1], a[|a| - 1]);
      assert a[..|a| - 1] + [] == a[..|a| - 1];
    } else {
      assert a + b == a;
    }
  }

  /** A full group cannot take the next paragraph. */
  lemma CannotTakeMore(group: seq<string>, next: string, rest: seq<string>, size: nat)
    requires IsGroup(group, size) && Full(group, [next], size)
    ensures !IsGroup(group + [next] + rest, size)
  {
    JoinAppend(BLANK_LINE, group, next);
    JoinIsLonger(group, []);
    JoinIsLonger(group, [next]);
    JoinIsLonger(group + [next], rest);
    assert group + [] == group && group[0] in group;
  }

  /** The first groups of two groupings of the same paragraphs end at the same place. */
  lemma NoLongerFirst(a: seq<seq<string>>, b: seq<seq<string>>, paras: seq<string>, size: nat)
    requires Grouping(a, paras, size) && Grouping(b, paras, size) && a != [] && b != []
    ensures |a[0]| >= |b[0]|
  {
    FlatHead(a);
    FlatHead(b);
    assert IsGroup(a[0], size) && IsGroup(b[0], size);
    var n := |a[0]|;
    if n < |b[0]| {
      FlatHead(a[1..]);
      assert Full(a[0], a[1], size) && IsGroup(a[1], size);
      SamePlace(a[0], a[1], Flat(a[1..][1..]), b[0], Flat(b[1..]));
      CannotTakeMore(a[0], a[1][0], b[0][n + 1..], size);
    }
  }

  lemma SamePlace(g: seq<string>, next: seq<string>, restA: seq<string>, h: seq<string>, restB: seq<string>)
    requires g + (next + restA) == h + restB && next != [] && |g| < |h|
    ensures h == g + [next[0]] + h[|g| + 1..]
  {
    var all := g + (next + restA);
    assert h == all[..|h|] && g == all[..|g|] && all[|g|] == next[0];
  }

  /** Paragraphs can be grouped in this way at most once: the chunks are determined. */
  lemma {:induction false} GroupingIsUnique(a: seq<seq<string>>, b: seq<seq<string>>, paras: seq<string>, size: nat)
    requires Grouping(a, paras, size) && Grouping(b, paras, size)
    ensures a == b
    decreases |a|
  {
    if a != [] { FlatHead(a); assert IsGroup(a[0], size); }
    if b != [] { FlatHead(b); assert IsGroup(b[0], size); }
    if a != [] && b != [] {
      NoLongerFirst(a, b, paras, size);
      NoLongerFirst(b, a, paras, size);
      assert a[0] == paras[..|a[0]|] == b[0];
      var rest := paras[|a[0]|..];
      TailIsGrouping(a, paras, size);
      TailIsGrouping(b, paras, size);
      GroupingIsUnique(a[1..], b[1..], rest, size);
      assert a == [a[0]] + a[1..] && b == [b[0]] + b[1..];
    }
  }

  lemma TailIsGrouping(groups: seq<seq<string>>, paras: seq<string>, size: nat)
    requires Grouping(groups, paras, size) && groups != []
    ensures |groups[0]| <= |paras| && Grouping(groups[1..], paras[|groups[0]|..], size)
  {
    FlatHead(groups);
    var tail := groups[1..];
    forall k | 0 <= k < |tail| ensures IsGroup(tail[k], size) { assert IsGroup(groups[k + 1], size); }
    forall k | 0 <= k < |tail| - 1 ensures Full(tail[k], tail[k + 1], size) {
      assert Full(groups[k + 1], groups[k + 2], size);
    }
  }

  // ---------------------------------------------------------------- where paragraphs end

  predicate BlankAt(text: string, k: nat) { k + 2 <= |text| && text[k] == '\n' && text[k + 1] == '\n' }

  /** No blank line begins before the end of the piece. */
  predicate NoEarlierBlank(piece: string, followed: bool)
  {
    var text := if followed then piece + BLANK_LINE else piece;
    forall k :: 0 <= k < |piece| ==> !BlankAt(text, k)
  }

  /** The pieces joined by blank lines are the text, and each is as short as can be. */
  predicate SplitsAtBlankLines(pieces: seq<string>, text: string)
  {
    && pieces != [] && Join(BLANK_LINE, pieces) == text
    && forall k :: 0 <= k < |pieces| ==> NoEarlierBlank(pieces[k], k < |pieces| - 1)
  }

  /** A blank line follows the piece read. */
  lemma OnePiece(read: string, rest: string, pieces: seq<string>)
    requires forall k :: 0 <= k < |read| ==> !BlankAt(read + BLANK_LINE + rest, k)
    requires SplitsAtBlankLines(pieces, rest)
    ensures SplitsAtBlankLines([read] + pieces, read + BLANK_LINE + rest)
  {
    JoinHead(BLANK_LINE, read, pieces);
    forall k | 0 <= k < |read| ensures !BlankAt(read + BLANK_LINE, k) {
      assert !BlankAt(read + BLANK_LINE + rest, k);
    }
    forall k | 0 <= k < |pieces| + 1 ensures NoEarlierBlank(([read] + pieces)[k], k < |pieces|) {
      if k > 0 { assert NoEarlierBlank(pieces[k - 1], k - 1 < |pieces| - 1); }
    }
  }

  lemma OneMoreRead(read: string, text: string)
    requires text != [] && !BlankAt(text, 0)
    requires forall k :: 0 <= k < |read| ==> !BlankAt(read + text, k)
    ensures read + [text[0]] + text[1..] == read + text
    ensures forall k :: 0 <= k < |read| + 1 ==> !BlankAt(read + text, k)
  {
  }

  lemma BlankStart(text: string)
    requires |text| >= 2
    ensures BlankAt(text, 0) <==> text[..2] == BLANK_LINE
  {
  }

  lemma {:induction false} PiecesAre(read: string, text: string)
    requires forall k :: 0 <= k < |read| ==> !BlankAt(read + text, k)
    ensures SplitsAtBlankLines(SplitBlank(read, text), read + text)
    decreases |text|
  {
    if |text| < 2 {
      assert Join(BLANK_LINE, [read + text]) == read + text;
      forall k | 0 <= k < |read + text| ensures !BlankAt(read + text, k) {}
    } else if text[..2] == BLANK_LINE {
      PiecesAre("", text[2..]);
      assert "" + text[2..] == text[2..] && read + text == read + BLANK_LINE + text[2..];
      OnePiece(read, text[2..], SplitBlank("", text[2..]));
    } else {
      BlankStart(text);
      OneMoreRead(read, text);
      PiecesAre(read + [text[0]], text[1..]);
    }
  }

  /** The pieces that are not blank are the paragraphs, stripped and in order. */
  lemma ParagraphsAre(text: string)
    ensures SplitsAtBlankLines(SplitBlank("", text), text)
    ensures forall p :: p in Paragraphs(text) <==> exists piece :: piece in SplitBlank("", text) && !Blank(piece) && p == Strip(piece)
  {
    PiecesAre("", text);
    assert "" + text == text;
    StrippedAre(SplitBlank("", text));
  }

  lemma {:induction false} StrippedAre(pieces: seq<string>)
    ensures forall p :: p in Stripped(pieces) <==> exists piece :: piece in pieces && !Blank(piece) && p == Strip(piece)
  {
    if pieces != [] {
      assert pieces == [pieces[0]] + pieces[1..];
      StrippedAre(pieces[1..]);
    }
  }
}
