/** The boundary that fences untrusted text off, and the collector that budgets with it. */
module Boundary {
  import opened Text

  const BEGIN := "<sentinel-untrusted-content>"
  const END := "</sentinel-untrusted-content>"
  const BLOCKED := "[blocked-untrusted-boundary]"

  predicate OccursAt(text: string, pattern: string, i: int)
  {
    0 <= i <= |text| - |pattern| && text[i..i + |pattern|] == pattern
  }

  ghost predicate Free(text: string, pattern: string)
  {
    forall i :: !OccursAt(text, pattern, i)
  }

  /** `str.replace`: one left-to-right pass over non-overlapping occurrences. */
  function Replace(text: string, pattern: string, mark: string): string
    requires pattern != []
  {
    if |text| < |pattern| then text
    else if pattern <= text then mark + Replace(text[|pattern|..], pattern, mark)
    else [text[0]] + Replace(text[1..], pattern, mark)
  }

  function Neutralise(text: string): string
  {
    Replace(Replace(text, BEGIN, BLOCKED), END, BLOCKED)
  }

  function Wrap(text: string): string
  {
    BEGIN + "\n" + Neutralise(text) + "\n" + END
  }

  // ------------------------------------------------------- what a replacement leaves

  /** No occurrence of `target` can overlap an inserted `mark`. */
  predicate Unmixable(target: string, mark: string)
  {
    target != [] && mark != [] && mark[0] !in target && target[0] !in mark
  }

  /** Every character under an occurrence belongs to the pattern, the first one first. */
  lemma UnderOccurrence(text: string, pattern: string, i: int, k: int)
    ensures OccursAt(text, pattern, i) && i <= k < i + |pattern| ==> text[k] in pattern
    ensures OccursAt(text, pattern, i) && pattern != [] ==> text[i] == pattern[0]
    ensures OccursAt(text, pattern, 0) <==> pattern <= text
  {
    if OccursAt(text, pattern, i) && i <= k < i + |pattern| { assert text[i..i + |pattern|][k - i] == text[k]; }
    if OccursAt(text, pattern, i) && pattern != [] { assert text[i..i + |pattern|][0] == text[i]; }
    if |pattern| <= |text| { assert text[0..|pattern|] == text[..|pattern|]; }
  }

  /** A prefix of the output without the replacement's first character is a prefix of the input. */
  lemma {:induction false} PrefixWasThere(text: string, pattern: string, mark: string, target: string)
    requires pattern != [] && mark != [] && mark[0] !in target
    requires target <= Replace(text, pattern, mark)
    ensures target <= text
  {
    var out := Replace(text, pattern, mark);
    assert target != [] ==> out[0] == target[0] && target[0] in target;
    if target != [] && |text| >= |pattern| && !(pattern <= text) {
      assert out[1..] == Replace(text[1..], pattern, mark);
      assert target[1..] <= out[1..];
      PrefixWasThere(text[1..], pattern, mark, target[1..]);
      assert target == [target[0]] + target[1..] && text == [text[0]] + text[1..];
    }
  }

  lemma OccursInTail(text: string, pattern: string, k: nat, i: int)
    requires k <= |text|
    ensures OccursAt(text[k..], pattern, i) ==> OccursAt(text, pattern, i + k)
    ensures k <= i && OccursAt(text, pattern, i) ==> OccursAt(text[k..], pattern, i - k)
  {
    if OccursAt(text[k..], pattern, i) { assert text[k..][i..i + |pattern|] == text[i + k..i + k + |pattern|]; }
    if k <= i && OccursAt(text, pattern, i) { assert text[k..][i - k..i - k + |pattern|] == text[i..i + |pattern|]; }
  }

  lemma FreeTail(text: string, pattern: string, k: nat)
    requires k <= |text| && Free(text, pattern)
    ensures Free(text[k..], pattern)
  {
    forall i ensures !OccursAt(text[k..], pattern, i) { OccursInTail(text, pattern, k, i); }
  }

  /** Replacing creates no fresh occurrence of any tag the replacement cannot mix with. */
  lemma {:induction false} ReplaceStaysFree(text: string, pattern: string, mark: string, target: string)
    requires pattern != [] && Unmixable(target, mark) && Free(text, target)
    ensures Free(Replace(text, pattern, mark), target)
  {
    if |text| >= |pattern| {
      var skip, head := if pattern <= text then |pattern| else 1, if pattern <= text then mark else [text[0]];
      FreeTail(text, target, skip);
      ReplaceStaysFree(text[skip..], pattern, mark, target);
      SeamStaysFree(text, pattern, mark, target, head, Replace(text[skip..], pattern, mark));
    }
  }

  lemma SeamStaysFree(text: string, pattern: string, mark: string, target: string, head: string, rest: string)
    requires pattern != [] && Unmixable(target, mark) && |text| >= |pattern|
    requires !OccursAt(text, target, 0) && Free(rest, target)
    requires Replace(text, pattern, mark) == head + rest
    requires head == mark || head == [text[0]]
    ensures Free(head + rest, target)
  {
    var out := head + rest;
    assert out[|head|..] == rest;
    UnderOccurrence(text, target, 0, 0);
    UnderOccurrence(out, target, 0, 0);
    forall i ensures !OccursAt(out, target, i) {
      OccursInTail(out, target, |head|, i);
      UnderOccurrence(out, target, i, i);
      if 0 <= i < |head| { assert out[i] == head[i] && head[i] in head; }
      if head != mark && target <= out { PrefixWasThere(text, pattern, mark, target); }
    }
  }

  /** Replacing removes every occurrence of its own pattern. */
  lemma {:induction false} ReplaceRemoves(text: string, pattern: string, mark: string)
    requires Unmixable(pattern, mark)
    ensures Free(Replace(text, pattern, mark), pattern)
  {
    if |text| >= |pattern| {
      if pattern <= text {
        var rest := Replace(text[|pattern|..], pattern, mark);
        ReplaceRemoves(text[|pattern|..], pattern, mark);
        var out := mark + rest;
        assert out[|mark|..] == rest;
        forall i ensures !OccursAt(out, pattern, i) {
          OccursInTail(out, pattern, |mark|, i);
          UnderOccurrence(out, pattern, i, i);
          if 0 <= i < |mark| { assert out[i] == mark[i] && mark[i] in mark; }
        }
      } else {
        ReplaceRemoves(text[1..], pattern, mark);
        UnderOccurrence(text, pattern, 0, 0);
        SeamStaysFree(text, pattern, mark, pattern, [text[0]], Replace(text[1..], pattern, mark));
      }
    }
  }

  lemma {:induction false} ReplaceNothing(text: string, pattern: string, mark: string)
    requires pattern != [] && Free(text, pattern)
    ensures Replace(text, pattern, mark) == text
  {
    if |text| >= |pattern| {
      assert !OccursAt(text, pattern, 0);
      assert text[0..|pattern|] == text[..|pattern|];
      FreeTail(text, pattern, 1);
      ReplaceNothing(text[1..], pattern, mark);
    }
  }

  /** No occurrence begins before the k-th character. */
  predicate Earliest(text: string, pattern: string, k: nat) { forall i :: 0 <= i < k ==> !OccursAt(text, pattern, i) }

  /** Each piece ends where the pattern first begins, the last one nowhere holds it. */
  predicate AllEarliest(pieces: seq<string>, pattern: string)
  {
    pieces == []
    || (Earliest(if |pieces| > 1 then pieces[0] + pattern else pieces[0], pattern, |pieces[0]|)
        && AllEarliest(pieces[1..], pattern))
  }

  /** The pieces joined by the pattern are the text, cut as early as can be. */
  predicate CutsAt(pieces: seq<string>, text: string, pattern: string)
  {
    pieces != [] && Join(pattern, pieces) == text && AllEarliest(pieces, pattern)
  }

  /** Replacing is cutting the text at the occurrences, leftmost first, and joining the pieces
      by the mark: nothing else of the text changes. */
  lemma {:induction false} ReplaceJoinsPieces(text: string, pattern: string, mark: string) returns (pieces: seq<string>)
    requires pattern != []
    ensures CutsAt(pieces, text, pattern)
    ensures Replace(text, pattern, mark) == Join(mark, pieces)
  {
    if |text| < |pattern| {
      pieces := [text];
    } else if pattern <= text {
      var rest := ReplaceJoinsPieces(text[|pattern|..], pattern, mark);
      pieces := [""] + rest;
      CutInFront(rest, pattern, mark);
      assert text == pattern + text[|pattern|..];
    } else {
      var rest := ReplaceJoinsPieces(text[1..], pattern, mark);
      pieces := [[text[0]] + rest[0]] + rest[1..];
      assert text == [text[0]] + text[1..];
      NotInFront(text, pattern);
      LongerHead(text[0], rest, mark);
      FirstIsLater(text[0], rest, pattern);
    }
  }

  lemma NotInFront(text: string, pattern: string)
    ensures OccursAt(text, pattern, 0) <==> pattern <= text
  {
    UnderOccurrence(text, pattern, 0, 0);
  }

  lemma CutInFront(rest: seq<string>, pattern: string, mark: string)
    requires rest != [] && AllEarliest(rest, pattern)
    ensures AllEarliest([""] + rest, pattern)
    ensures Join(pattern, [""] + rest) == pattern + Join(pattern, rest)
    ensures Join(mark, [""] + rest) == mark + Join(mark, rest)
  {
    JoinHead(pattern, "", rest);
    JoinHead(mark, "", rest);
    assert "" + pattern == pattern && "" + mark == mark;
    assert ([""] + rest)[1..] == rest;
  }

  lemma LongerHead(c: char, rest: seq<string>, separator: string)
    requires rest != []
    ensures Join(separator, [[c] + rest[0]] + rest[1..]) == [c] + Join(separator, rest)
  {
    assert rest == [rest[0]] + rest[1..];
    if |rest| > 1 {
      JoinHead(separator, [c] + rest[0], rest[1..]);
      JoinHead(separator, rest[0], rest[1..]);
    }
  }

  lemma EarliestFirst(head: string, rest: seq<string>, pattern: string)
    requires AllEarliest(rest, pattern)
    requires Earliest(if rest != [] then head + pattern else head, pattern, |head|)
    ensures AllEarliest([head] + rest, pattern)
  {
    assert ([head] + rest)[1..] == rest;
  }

  lemma EarliestAfter(c: char, rest: seq<string>, pattern: string)
    requires rest != [] && !OccursAt([c] + Join(pattern, rest), pattern, 0)
    requires Earliest(if |rest| > 1 then rest[0] + pattern else rest[0], pattern, |rest[0]|)
    ensures Earliest(if |rest| > 1 then [c] + rest[0] + pattern else [c] + rest[0], pattern, |rest[0]| + 1)
  {
    var head := if |rest| > 1 then rest[0] + pattern else rest[0];
    PrefixOfText(rest, pattern, head);
    LaterByOne(c, head, Join(pattern, rest), pattern, |rest[0]|);
    assert [c] + head == if |rest| > 1 then [c] + rest[0] + pattern else [c] + rest[0];
  }

  /** A character in front of the first piece, where the pattern does not begin. */
  lemma FirstIsLater(c: char, rest: seq<string>, pattern: string)
    requires rest != [] && AllEarliest(rest, pattern) && !OccursAt([c] + Join(pattern, rest), pattern, 0)
    ensures CutsAt([[c] + rest[0]] + rest[1..], [c] + Join(pattern, rest), pattern)
  {
    var first, others := rest[0], rest[1..];
    LongerHead(c, rest, pattern);
    EarliestAfter(c, rest, pattern);
    EarliestFirst([c] + first, others, pattern);
  }

  lemma LaterByOne(c: char, tail: string, text: string, pattern: string, k: nat)
    requires tail <= text && Earliest(tail, pattern, k) && !OccursAt([c] + text, pattern, 0)
    ensures Earliest([c] + tail, pattern, k + 1)
  {
    OccursInPrefix([c] + tail, [c] + text, pattern);
    assert ([c] + tail)[1..] == tail;
    forall i | 0 <= i < k + 1 ensures !OccursAt([c] + tail, pattern, i) {
      if i > 0 { OccursInTail([c] + tail, pattern, 1, i); }
    }
  }

  lemma OccursInPrefix(prefix: string, text: string, pattern: string)
    requires prefix <= text
    ensures OccursAt(prefix, pattern, 0) ==> OccursAt(text, pattern, 0)
  {
    if OccursAt(prefix, pattern, 0) { assert text[0..|pattern|] == prefix[0..|pattern|]; }
  }

  lemma PrefixOfText(rest: seq<string>, pattern: string, head: string)
    requires rest != [] && head == if |rest| > 1 then rest[0] + pattern else rest[0]
    ensures head <= Join(pattern, rest)
  {
    assert rest == [rest[0]] + rest[1..];
    if |rest| > 1 { JoinHead(pattern, rest[0], rest[1..]); }
  }

  lemma {:induction false} ReplaceNeverLengthens(text: string, pattern: string, mark: string)
    requires pattern != [] && |mark| <= |pattern|
    ensures |Replace(text, pattern, mark)| <= |text|
  {
    if |text| >= |pattern| {
      ReplaceNeverLengthens(if pattern <= text then text[|pattern|..] else text[1..], pattern, mark);
    }
  }

  lemma TagsDoNotMix()
    ensures |BEGIN| == 28 && |END| == 29 && |BLOCKED| == 28
    ensures Unmixable(BEGIN, BLOCKED) && Unmixable(END, BLOCKED)
  {
  }

  // -------------------------------------------------------------- the neutral text

  lemma NeutraliseIsFree(text: string)
    ensures Free(Neutralise(text), BEGIN) && Free(Neutralise(text), END)
  {
    TagsDoNotMix();
    var once := Replace(text, BEGIN, BLOCKED);
    ReplaceRemoves(text, BEGIN, BLOCKED);
    ReplaceStaysFree(once, END, BLOCKED, BEGIN);
    ReplaceRemoves(once, END, BLOCKED);
  }

  /** Text passes unchanged exactly when it holds neither tag. */
  lemma PassesUnchangedIff(text: string)
    ensures Neutralise(text) == text <==> Free(text, BEGIN) && Free(text, END)
  {
    NeutraliseIsFree(text);
    if Free(text, BEGIN) && Free(text, END) {
      ReplaceNothing(text, BEGIN, BLOCKED);
      ReplaceNothing(text, END, BLOCKED);
    }
  }

  lemma NeutraliseTwice(text: string)
    ensures Neutralise(Neutralise(text)) == Neutralise(text)
  {
    NeutraliseIsFree(text);
    PassesUnchangedIff(Neutralise(text));
  }

  lemma WrapLength(text: string)
    ensures |Wrap(text)| == |Neutralise(text)| + 59 <= |text| + 59
  {
    TagsDoNotMix();
    ReplaceNeverLengthens(text, BEGIN, BLOCKED);
    ReplaceNeverLengthens(Replace(text, BEGIN, BLOCKED), END, BLOCKED);
  }

  // ---------------------------------------------------------------- the fence holds

  /** An occurrence of a newline-free pattern lies on one side of a newline. */
  lemma OneSide(left: string, right: string, pattern: string, i: int)
    requires pattern != [] && '\n' !in pattern
    ensures OccursAt(left + "\n" + right, pattern, i) <==>
            OccursAt(left, pattern, i) || OccursAt(right, pattern, i - |left| - 1)
  {
    var text := left + "\n" + right;
    assert text[|left| + 1..] == right;
    UnderOccurrence(text, pattern, i, |left|);
    OccursInTail(text, pattern, |left| + 1, i);
    OccursInTail(text, pattern, |left| + 1, i - |left| - 1);
    if OccursAt(left, pattern, i) { assert text[i..i + |pattern|] == left[i..i + |pattern|]; }
    if OccursAt(text, pattern, i) {
      if i + |pattern| <= |left| { assert text[i..i + |pattern|] == left[i..i + |pattern|]; }
    }
  }

  lemma BeginInTags(i: int)
    ensures OccursAt(BEGIN, BEGIN, i) <==> i == 0
    ensures !OccursAt(END, BEGIN, i)
    ensures !OccursAt(BEGIN, END, i)
    ensures OccursAt(END, END, i) <==> i == 0
  {
    TagsDoNotMix();
    OccursInItself(BEGIN, i);
    OccursInItself(END, i);
    NotInEnd(i);
  }

  lemma OccursInItself(pattern: string, i: int)
    ensures OccursAt(pattern, pattern, i) <==> i == 0
  {
    assert pattern[0..|pattern|] == pattern;
  }

  lemma NotInEnd(i: int)
    ensures !OccursAt(END, BEGIN, i)
  {
    TagsDoNotMix();
    UnderOccurrence(END, BEGIN, i, i + 1);
  }

  lemma BeginOnce(safe: string, i: int)
    requires Free(safe, BEGIN)
    ensures OccursAt(BEGIN + "\n" + (safe + "\n" + END), BEGIN, i) <==> i == 0
  {
    TagsDoNotMix();
    var j := i - |BEGIN| - 1;
    OneSide(BEGIN, safe + "\n" + END, BEGIN, i);
    OneSide(safe, END, BEGIN, j);
    BeginInTags(i);
    BeginInTags(j - |safe| - 1);
  }

  lemma EndOnce(safe: string, i: int)
    requires Free(safe, END)
    ensures OccursAt(BEGIN + "\n" + (safe + "\n" + END), END, i) <==> i == |BEGIN| + |safe| + 2
  {
    TagsDoNotMix();
    var j := i - |BEGIN| - 1;
    OneSide(BEGIN, safe + "\n" + END, END, i);
    OneSide(safe, END, END, j);
    BeginInTags(i);
    BeginInTags(j - |safe| - 1);
  }

  /** The begin tag once, at the start, and the end tag once, at the end. */
  ghost predicate Fenced(text: string)
  {
    forall i :: (OccursAt(text, BEGIN, i) <==> i == 0) && (OccursAt(text, END, i) <==> i == |text| - |END|)
  }

  lemma WrapHasOneOfEach(text: string)
    ensures Fenced(Wrap(text))
  {
    var safe, all := Neutralise(text), Wrap(text);
    NeutraliseIsFree(text);
    assert all == BEGIN + "\n" + (safe + "\n" + END);
    forall i ensures (OccursAt(all, BEGIN, i) <==> i == 0) && (OccursAt(all, END, i) <==> i == |all| - |END|) {
      BeginOnce(safe, i);
      EndOnce(safe, i);
    }
  }

  /** A reader that takes what stands between the first begin tag and the next end tag. */
  function FindFrom(text: string, pattern: string, i: nat): int
    requires i <= |text|
    decreases |text| - i
  {
    if OccursAt(text, pattern, i) then i else if i == |text| then -1 else FindFrom(text, pattern, i + 1)
  }

  lemma {:induction false} FindsOnly(text: string, pattern: string, i: nat, at: nat)
    requires i <= at <= |text| && OccursAt(text, pattern, at)
    requires forall k :: OccursAt(text, pattern, k) ==> k == at
    ensures FindFrom(text, pattern, i) == at
    decreases at - i
  {
    if i < at { FindsOnly(text, pattern, i + 1, at); }
  }

  function ReadRegion(text: string): string
  {
    var start := FindFrom(text, BEGIN, 0);
    var stop := FindFrom(text, END, 0);
    if 0 <= start && start + 29 <= stop - 1 <= |text| then text[start + 29..stop - 1] else ""
  }

  /** Whatever the text was, the fenced region reads back as its neutral form, all of it. */
  lemma RegionReadsBack(text: string)
    ensures ReadRegion(Wrap(text)) == Neutralise(text)
  {
    TagsDoNotMix();
    WrapLength(text);
    var out := Wrap(text);
    WrapHasOneOfEach(text);
    FindsOnly(out, BEGIN, 0, 0);
    FindsOnly(out, END, 0, |out| - |END|);
  }
}
