/** The order of strings and the stable sort by a string key. */
module Ordering {
  predicate Leq(a: string, b: string)
  {
    a == [] || (b != [] && (a[0] < b[0] || (a[0] == b[0] && Leq(a[1..], b[1..]))))
  }

  lemma {:induction false} LeqTotal(a: string, b: string)
    ensures Leq(a, b) || Leq(b, a)
    ensures Leq(a, a)
  {
    if a != [] {
      LeqTotal(a[1..], a[1..]);
      if b != [] { LeqTotal(a[1..], b[1..]); }
    }
  }

  lemma {:induction false} LeqAntisymmetric(a: string, b: string)
    requires Leq(a, b) && Leq(b, a)
    ensures a == b
  {
    if a != [] {
      LeqAntisymmetric(a[1..], b[1..]);
      assert a == [a[0]] + a[1..] && b == [b[0]] + b[1..];
    }
  }

  lemma {:induction false} LeqTransitive(a: string, b: string, c: string)
    requires Leq(a, b) && Leq(b, c)
    ensures Leq(a, c)
  {
    if a != [] && a[0] == b[0] == c[0] { LeqTransitive(a[1..], b[1..], c[1..]); }
  }

  /** The order is lexicographic: a prefix is below, else the first difference decides. */
  lemma {:induction false} LeqIff(a: string, b: string)
    ensures Leq(a, b) <==> a <= b || exists k: nat :: DiffersAt(a, b, k) && a[k] < b[k]
  {
    if a != [] && b != [] {
      var a', b' := a[1..], b[1..];
      assert a == [a[0]] + a' && b == [b[0]] + b';
      LeqIff(a', b');
      assert a <= b <==> a[0] == b[0] && a' <= b';
      if a[0] != b[0] {
        assert forall k: nat :: DiffersAt(a, b, k) ==> k == 0;
        assert DiffersAt(a, b, 0);
      } else {
        DifferenceShifts(a, b);
      }
    }
  }

  predicate DiffersAt(a: string, b: string, k: nat) { k < |a| && k < |b| && a[k] != b[k] && a[..k] == b[..k] }

  lemma DifferenceShifts(a: string, b: string)
    requires a != [] && b != [] && a[0] == b[0]
    ensures (exists k: nat :: DiffersAt(a, b, k) && a[k] < b[k])
            <==> exists k: nat :: DiffersAt(a[1..], b[1..], k) && a[1..][k] < b[1..][k]
  {
    if k: nat :| DiffersAt(a, b, k) && a[k] < b[k] {
      assert a[1..][..k - 1] == a[..k][1..] && b[1..][..k - 1] == b[..k][1..];
      assert DiffersAt(a[1..], b[1..], k - 1);
    }
    if k: nat :| DiffersAt(a[1..], b[1..], k) && a[1..][k] < b[1..][k] {
      assert a[..k + 1] == [a[0]] + a[1..][..k] && b[..k + 1] == [b[0]] + b[1..][..k];
      assert DiffersAt(a, b, k + 1);
    }
  }

  // -------------------------------------------------------------- sorted key sets

  predicate IsLeast(s: set<string>, x: string) { x in s && forall y :: y in s ==> Leq(x, y) }

  lemma {:induction false} LeastExists(s: set<string>) returns (least: string)
    requires s != {}
    ensures IsLeast(s, least)
  {
    var x :| x in s;
    LeqTotal(x, x);
    if s == {x} {
      least := x;
    } else {
      assert s == {x} + (s - {x});
      var rest := LeastExists(s - {x});
      LeqTotal(x, rest);
      least := if Leq(x, rest) then x else rest;
      forall y | y in s ensures Leq(least, y) {
        if y != x { LeqTransitive(least, rest, y); }
      }
    }
  }

  lemma LeastUnique(s: set<string>, x: string, y: string)
    requires IsLeast(s, x) && IsLeast(s, y)
    ensures x == y
  {
    LeqAntisymmetric(x, y);
  }

  /** The members in ascending order. */
  function SortedSet(s: set<string>): (keys: seq<string>)
    ensures forall k :: k in keys <==> k in s
    ensures forall i, j :: 0 <= i < j < |keys| ==> keys[i] != keys[j] && Leq(keys[i], keys[j])
  {
    if s == {} then []
    else
      LeastIsCertain(s);
      var least :| IsLeast(s, least);
      [least] + SortedSet(s - {least})
  }

  lemma LeastIsCertain(s: set<string>)
    requires s != {}
    ensures exists x :: IsLeast(s, x)
    ensures forall x, y :: IsLeast(s, x) && IsLeast(s, y) ==> x == y
  {
    var least := LeastExists(s);
    forall x, y | IsLeast(s, x) && IsLeast(s, y) ensures x == y { LeastUnique(s, x, y); }
  }

  // --------------------------------------------------------------- sorting by key

  predicate Sorted<T>(s: seq<T>, key: T -> string)
  {
    forall i, j :: 0 <= i < j < |s| ==> Leq(key(s[i]), key(s[j]))
  }

  function Insert<T>(x: T, s: seq<T>, key: T -> string): (r: seq<T>)
    ensures multiset(r) == multiset{x} + multiset(s)
  {
    if s == [] then [x]
    else if Leq(key(x), key(s[0])) then [x] + s
    else
      assert s == [s[0]] + s[1..];
      [s[0]] + Insert(x, s[1..], key)
  }

  /** Stable: an element goes before the equal ones that came after it. */
  function Sort<T>(s: seq<T>, key: T -> string): (r: seq<T>)
    ensures multiset(r) == multiset(s)
  {
    if s == [] then []
    else
      assert s == [s[0]] + s[1..];
      Insert(s[0], Sort(s[1..], key), key)
  }

  lemma {:induction false} InsertSorted<T>(x: T, s: seq<T>, key: T -> string)
    requires Sorted(s, key)
    ensures Sorted(Insert(x, s, key), key)
  {
    var r := Insert(x, s, key);
    if s != [] {
      LeqTotal(key(x), key(s[0]));
      if Leq(key(x), key(s[0])) {
        forall j | 0 <= j < |s| ensures Leq(key(x), key(s[j])) {
          if j > 0 { LeqTransitive(key(x), key(s[0]), key(s[j])); }
        }
      } else {
        InsertSorted(x, s[1..], key);
        var tail := Insert(x, s[1..], key);
        forall j | 0 <= j < |tail| ensures Leq(key(s[0]), key(tail[j])) {
          assert tail[j] in multiset(tail);
          assert tail[j] == x || tail[j] in s[1..];
        }
      }
    }
  }

  lemma {:induction false} SortSorted<T>(s: seq<T>, key: T -> string)
    ensures Sorted(Sort(s, key), key)
  {
    if s != [] {
      SortSorted(s[1..], key);
      InsertSorted(s[0], Sort(s[1..], key), key);
    }
  }

  lemma HeadIsBelow<T>(a: seq<T>, key: T -> string, x: T)
    requires Sorted(a, key) && x in multiset(a)
    ensures a != [] && Leq(key(a[0]), key(x))
  {
    var i :| 0 <= i < |a| && a[i] == x;
    LeqTotal(key(x), key(x));
  }

  lemma HeadsAgree<T>(a: seq<T>, b: seq<T>, key: T -> string)
    requires Sorted(a, key) && Sorted(b, key) && multiset(a) == multiset(b) && a != [] && b != []
    requires forall x, y :: x in a && y in a && key(x) == key(y) ==> x == y
    ensures a[0] == b[0] && multiset(a[1..]) == multiset(b[1..])
  {
    assert a[0] in multiset(a) && b[0] in multiset(b);
    HeadIsBelow(a, key, b[0]);
    HeadIsBelow(b, key, a[0]);
    LeqAntisymmetric(key(a[0]), key(b[0]));
    assert a[0] in a && b[0] in a;
    TailCounts(a);
    TailCounts(b);
  }

  lemma TailCounts<T>(a: seq<T>)
    requires a != []
    ensures multiset(a[1..]) == multiset(a) - multiset{a[0]}
  {
    assert a == [a[0]] + a[1..];
  }

  /** With injective keys a multiset has one sorted arrangement. */
  lemma {:induction false} SortedUnique<T>(a: seq<T>, b: seq<T>, key: T -> string)
    requires Sorted(a, key) && Sorted(b, key) && multiset(a) == multiset(b)
    requires forall x, y :: x in a && y in a && key(x) == key(y) ==> x == y
    ensures a == b
  {
    assert |multiset(a)| == |a| && |multiset(b)| == |b|;
    if a != [] {
      HeadsAgree(a, b, key);
      SortedUnique(a[1..], b[1..], key);
      assert a == [a[0]] + a[1..] && b == [b[0]] + b[1..];
    }
  }

  lemma {:induction false} SortCanonical<T>(a: seq<T>, b: seq<T>, key: T -> string)
    requires multiset(a) == multiset(b)
    requires forall x, y :: x in a && y in a && key(x) == key(y) ==> x == y
    ensures Sort(a, key) == Sort(b, key)
  {
    SortSorted(a, key);
    SortSorted(b, key);
    forall x | x in Sort(a, key) ensures x in a { assert x in multiset(Sort(a, key)); }
    SortedUnique(Sort(a, key), Sort(b, key), key);
  }

  // ------------------------------------------------------------------------ stability

  /** The elements with key k, in order. */
  function Group<T(!new)>(s: seq<T>, key: T -> string, k: string): (r: seq<T>)
    ensures forall x :: x in r <==> x in s && key(x) == k
  {
    if s == [] then [] else if key(s[0]) == k then [s[0]] + Group(s[1..], key, k) else Group(s[1..], key, k)
  }

  lemma {:induction false} InsertKeepsGroup<T(!new)>(x: T, s: seq<T>, key: T -> string, k: string)
    ensures Group(Insert(x, s, key), key, k) == if key(x) == k then [x] + Group(s, key, k) else Group(s, key, k)
  {
    assert ([x] + s)[1..] == s;
    if s != [] && !Leq(key(x), key(s[0])) {
      LeqTotal(key(x), key(x));
      InsertKeepsGroup(x, s[1..], key, k);
      assert ([s[0]] + Insert(x, s[1..], key))[1..] == Insert(x, s[1..], key);
    }
  }

  /** Sorting keeps the elements of one key in their order. */
  lemma {:induction false} SortKeepsGroup<T(!new)>(s: seq<T>, key: T -> string, k: string)
    ensures Group(Sort(s, key), key, k) == Group(s, key, k)
  {
    if s != [] {
      SortKeepsGroup(s[1..], key, k);
      InsertKeepsGroup(s[0], Sort(s[1..], key), key, k);
    }
  }

  ghost predicate SameGroups<T(!new)>(a: seq<T>, b: seq<T>, key: T -> string)
  {
    forall k :: Group(a, key, k) == Group(b, key, k)
  }

  lemma SameHeads<T(!new)>(a: seq<T>, b: seq<T>, key: T -> string)
    requires Sorted(a, key) && Sorted(b, key) && SameGroups(a, b, key) && a != [] && b != []
    ensures a[0] == b[0] && SameGroups(a[1..], b[1..], key)
  {
    assert a[0] in Group(b, key, key(a[0])) by { assert Group(a, key, key(a[0])) == Group(b, key, key(a[0])); }
    assert b[0] in Group(a, key, key(b[0])) by { assert Group(a, key, key(b[0])) == Group(b, key, key(b[0])); }
    HeadIsBelow(a, key, b[0]);
    HeadIsBelow(b, key, a[0]);
    LeqAntisymmetric(key(a[0]), key(b[0]));
    assert Group(a, key, key(a[0]))[0] == a[0] && Group(b, key, key(a[0]))[0] == b[0];
    forall k ensures Group(a[1..], key, k) == Group(b[1..], key, k) {
      assert Group(a, key, k) == Group(b, key, k);
      assert Group(a, key, k)[if key(a[0]) == k then 1 else 0..] == Group(a[1..], key, k);
      assert Group(b, key, k)[if key(a[0]) == k then 1 else 0..] == Group(b[1..], key, k);
    }
  }

  lemma {:induction false} GroupsDecide<T(!new)>(a: seq<T>, b: seq<T>, key: T -> string)
    requires Sorted(a, key) && Sorted(b, key) && SameGroups(a, b, key)
    ensures a == b
  {
    if a != [] && b != [] {
      SameHeads(a, b, key);
      GroupsDecide(a[1..], b[1..], key);
      assert a == [a[0]] + a[1..] && b == [b[0]] + b[1..];
    } else if a == [] {
      NothingToGroup(b, key);
    } else {
      NothingToGroup(a, key);
    }
  }

  lemma NothingToGroup<T(!new)>(s: seq<T>, key: T -> string)
    ensures SameGroups([], s, key) || SameGroups(s, [], key) ==> s == []
  {
    if s != [] { assert s[0] in Group(s, key, key(s[0])) && Group([], key, key(s[0])) == []; }
  }

  /** Two lists sort alike exactly when they hold the same elements of every key, in order. */
  lemma {:induction false} SortsAgreeIff<T(!new)>(a: seq<T>, b: seq<T>, key: T -> string)
    ensures Sort(a, key) == Sort(b, key) <==> SameGroups(a, b, key)
  {
    forall k ensures Group(Sort(a, key), key, k) == Group(a, key, k) && Group(Sort(b, key), key, k) == Group(b, key, k) {
      SortKeepsGroup(a, key, k);
      SortKeepsGroup(b, key, k);
    }
    SortSorted(a, key);
    SortSorted(b, key);
    if SameGroups(a, b, key) { GroupsDecide(Sort(a, key), Sort(b, key), key); }
  }
}
