/** Whitespace and words, as Python's `str.strip` and `str.split` see them. */
module Text {
  predicate IsSpace(c: char)
  {
    || '\t' <= c <= '\r' || '\U{1C}' <= c <= ' '
    || c in {'\U{85}', '\U{A0}', '\U{1680}', '\U{2028}', '\U{2029}', '\U{202F}', '\U{205F}', '\U{3000}'}
    || '\U{2000}' <= c <= '\U{200A}'
  }

  predicate Blank(s: string) { forall c :: c in s ==> IsSpace(c) }

  /** `str.strip`: drop whitespace at both ends. */
  function Strip(s: string): string
  {
    if s == [] then []
    else if IsSpace(s[0]) then Strip(s[1..])
    else if IsSpace(s[|s| - 1]) then Strip(s[..|s| - 1])
    else s
  }

  predicate Trim(s: string) { s != [] && !IsSpace(s[0]) && !IsSpace(s[|s| - 1]) }

  lemma {:induction false} StripBlankIff(s: string)
    ensures Strip(s) == [] <==> Blank(s)
    ensures Strip(s) != [] ==> Trim(Strip(s))
  {
    if s != [] {
      if IsSpace(s[0]) {
        StripBlankIff(s[1..]);
        assert s == [s[0]] + s[1..];
      } else if IsSpace(s[|s| - 1]) {
        StripBlankIff(s[..|s| - 1]);
        assert s == s[..|s| - 1] + [s[|s| - 1]];
      } else {
        assert s[0] in s;
      }
    }
  }

  lemma {:induction false} StripKeepsTrim(left: string, s: string)
    requires Trim(s) && Blank(left)
    ensures Strip(left + s) == s
  {
    if left == [] {
      assert left + s == s;
    } else {
      assert left[0] in left && (left + s)[1..] == left[1..] + s;
      StripKeepsTrim(left[1..], s);
    }
  }

  /** Stripping takes whitespace off both ends and nothing else. */
  lemma {:induction false} StripCutsOut(s: string) returns (left: string, right: string)
    ensures s == left + Strip(s) + right && Blank(left) && Blank(right)
    ensures Strip(s) == [] || Trim(Strip(s))
  {
    left, right := [], [];
    StripBlankIff(s);
    if s != [] {
      if IsSpace(s[0]) {
        left, right := StripCutsOut(s[1..]);
        left := [s[0]] + left;
      } else if IsSpace(s[|s| - 1]) {
        left, right := StripCutsOut(s[..|s| - 1]);
        right := right + [s[|s| - 1]];
      }
    }
  }

  // --------------------------------------------------------------------------- words

  function WordEnd(s: string): (k: nat)
    ensures k <= |s| && (forall i :: 0 <= i < k ==> !IsSpace(s[i])) && (k < |s| ==> IsSpace(s[k]))
  {
    if s == [] || IsSpace(s[0]) then 0 else 1 + WordEnd(s[1..])
  }

  /** `str.split()`: the maximal runs of non-whitespace. */
  function Words(s: string): seq<string>
    decreases |s|
  {
    if s == [] then []
    else if IsSpace(s[0]) then Words(s[1..])
    else [s[..WordEnd(s)]] + Words(s[WordEnd(s)..])
  }

  predicate IsWord(w: string) { w != [] && forall i :: 0 <= i < |w| ==> !IsSpace(w[i]) }

  lemma {:induction false} WordEndUnique(s: string, k: nat)
    requires k <= |s| && (forall i :: 0 <= i < k ==> !IsSpace(s[i])) && (k < |s| ==> IsSpace(s[k]))
    ensures WordEnd(s) == k
  {
    if s != [] && !IsSpace(s[0]) { WordEndUnique(s[1..], k - 1); }
  }

  lemma {:induction false} WordsAreWords(s: string)
    ensures forall w :: w in Words(s) ==> IsWord(w)
    decreases |s|
  {
    if s != [] {
      if IsSpace(s[0]) { WordsAreWords(s[1..]); } else { WordsAreWords(s[WordEnd(s)..]); }
    }
  }

  lemma WordIsItsOnlyWord(w: string)
    requires IsWord(w)
    ensures Words(w) == [w]
  {
    WordEndUnique(w, |w|);
    assert w[..|w|] == w && w[|w|..] == [];
  }

  /** Whitespace separates: the words on its two sides are the words of the whole. */
  lemma {:induction false} SpaceSeparates(a: string, c: char, b: string)
    requires IsSpace(c)
    ensures Words(a + [c] + b) == Words(a) + Words(b)
    decreases |a|
  {
    if a == [] {
      assert a + [c] + b == [c] + b && ([c] + b)[1..] == b;
    } else if IsSpace(a[0]) {
      assert (a + [c] + b)[1..] == a[1..] + [c] + b;
      SpaceSeparates(a[1..], c, b);
    } else {
      FirstWordBeforeSpace(a, c, b);
      SpaceSeparates(a[WordEnd(a)..], c, b);
    }
  }

  lemma FirstWordBeforeSpace(a: string, c: char, b: string)
    requires a != [] && !IsSpace(a[0]) && IsSpace(c)
    ensures Words(a + [c] + b) == [a[..WordEnd(a)]] + Words(a[WordEnd(a)..] + [c] + b)
  {
    var s, k := a + [c] + b, WordEnd(a);
    WordEndUnique(s, k);
    assert s[..k] == a[..k];
    assert s[k..] == a[k..] + [c] + b;
  }

  lemma {:induction false} BlankHasNoWords(s: string)
    requires Blank(s)
    ensures Words(s) == []
  {
    if s != [] {
      assert s[0] in s;
      BlankHasNoWords(s[1..]);
    }
  }

  lemma {:induction false} StripKeepsWords(s: string)
    ensures Words(Strip(s)) == Words(s)
    decreases |s|
  {
    if s != [] {
      if IsSpace(s[0]) {
        StripKeepsWords(s[1..]);
      } else if IsSpace(s[|s| - 1]) {
        var front := s[..|s| - 1];
        StripKeepsWords(front);
        SpaceSeparates(front, s[|s| - 1], []);
        assert s == front + [s[|s| - 1]] + [];
      }
    }
  }

  // ------------------------------------------------------------------------- joining

  function Join(separator: string, parts: seq<string>): string
  {
    if parts == [] then ""
    else if |parts| == 1 then parts[0]
    else Join(separator, parts[..|parts| - 1]) + separator + parts[|parts| - 1]
  }

  lemma JoinAppend(separator: string, parts: seq<string>, last: string)
    ensures Join(separator, parts + [last]) == if parts == [] then last else Join(separator, parts) + separator + last
  {
    assert (parts + [last])[..|parts|] == parts;
  }

  /** Words joined by single spaces split back into the same words. */
  lemma {:induction false} JoinHead(separator: string, head: string, rest: seq<string>)
    requires rest != []
    ensures Join(separator, [head] + rest) == head + separator + Join(separator, rest)
  {
    var front, last := rest[..|rest| - 1], rest[|rest| - 1];
    assert rest == front + [last] && [head] + rest == ([head] + front) + [last];
    JoinAppend(separator, [head] + front, last);
    JoinAppend(separator, front, last);
    if front == [] {
      assert [head] + front == [head];
    } else {
      JoinHead(separator, head, front);
    }
  }

  lemma {:induction false} WordsOfJoined(words: seq<string>)
    requires forall w :: w in words ==> IsWord(w)
    ensures Words(Join(" ", words)) == words
    ensures words != [] ==> Trim(Join(" ", words))
  {
    if words != [] {
      var front, last := words[..|words| - 1], words[|words| - 1];
      assert words == front + [last] && IsWord(last);
      WordIsItsOnlyWord(last);
      if front != [] {
        WordsOfJoined(front);
        JoinAppend(" ", front, last);
        SpaceSeparates(Join(" ", front), ' ', last);
      }
    }
  }
}
