/**
 * Python's list.sort(key=..., reverse=...) as the album uses it: a stable
 * sort on one key per element.  With reverse=True the keys come out in
 * descending order and elements with equal keys still keep their original
 * order.  The keys the album sorts on are texts (CaptureTime, compared code
 * point by code point) and integers (FaceID).
 */
module Sorting {

  /** A sort key: the program sorts on texts or on integers, never on both in one call. */
  datatype SortKey = TextKey(text: string) | IdKey(id: int)

  /** Python's < on two strings: lexicographic on code points, a proper prefix first. */
  predicate TextLess(a: string, b: string)
    decreases |a|
  {
    && b != []
    && (a == [] || a[0] < b[0] || (a[0] == b[0] && TextLess(a[1..], b[1..])))
  }

  /** Python's < on two keys of the same kind; a text key is put before an integer key. */
  predicate KeyLess(a: SortKey, b: SortKey)
  {
    match (a, b)
    case (TextKey(s), TextKey(t)) => TextLess(s, t)
    case (IdKey(m), IdKey(n)) => m < n
    case (TextKey(_), IdKey(_)) => true
    case (IdKey(_), TextKey(_)) => false
  }

  lemma {:induction false} TextLessIrreflexive(a: string)
    ensures !TextLess(a, a)
    decreases |a|
  {
    if a != [] {
      TextLessIrreflexive(a[1..]);
    }
  }

  lemma {:induction false} TextLessTransitive(a: string, b: string, c: string)
    requires TextLess(a, b) && TextLess(b, c)
    ensures TextLess(a, c)
    decreases |a|
  {
    if a != [] && a[0] == b[0] && b[0] == c[0] {
      TextLessTransitive(a[1..], b[1..], c[1..]);
    }
  }

  lemma {:induction false} TextLessTotal(a: string, b: string)
    ensures a == b || TextLess(a, b) || TextLess(b, a)
    decreases |a|
  {
    if a != [] && b != [] && a[0] == b[0] {
      TextLessTotal(a[1..], b[1..]);
      if a[1..] == b[1..] {
        assert a == [a[0]] + a[1..] && b == [b[0]] + b[1..];
      }
    }
  }

  /** KeyLess is a strict total order: irreflexive, transitive and total. */
  lemma KeyLessIsStrictTotalOrder(a: SortKey, b: SortKey, c: SortKey)
    ensures !KeyLess(a, a)
    ensures KeyLess(a, b) && KeyLess(b, c) ==> KeyLess(a, c)
    ensures a == b || KeyLess(a, b) || KeyLess(b, a)
  {
    if a.TextKey? {
      TextLessIrreflexive(a.text);
      if b.TextKey? {
        TextLessTotal(a.text, b.text);
        if c.TextKey? && KeyLess(a, b) && KeyLess(b, c) {
          TextLessTransitive(a.text, b.text, c.text);
        }
      }
    }
  }

  /** Whether a key strictly precedes another in the requested direction. */
  predicate Precedes(a: SortKey, b: SortKey, reverse: bool)
  {
    if reverse then KeyLess(b, a) else KeyLess(a, b)
  }

  /** No later element's key precedes an earlier element's key. */
  ghost predicate SortedBy<T>(s: seq<T>, key: T -> SortKey, reverse: bool)
  {
    forall i, j :: 0 <= i < j < |s| ==> !Precedes(key(s[j]), key(s[i]), reverse)
  }

  /** Inserts x after every element whose key it does not precede: equal keys keep their order. */
  function Insert<T>(s: seq<T>, x: T, key: T -> SortKey, reverse: bool): seq<T>
    decreases |s|
  {
    if s == [] then [x]
    else if Precedes(key(x), key(s[|s| - 1]), reverse) then Insert(s[..|s| - 1], x, key, reverse) + [s[|s| - 1]]
    else s + [x]
  }

  /** list.sort(key=key, reverse=reverse), as insertion of each element in turn. */
  function SortBy<T>(xs: seq<T>, key: T -> SortKey, reverse: bool): seq<T>
    decreases |xs|
  {
    if xs == [] then [] else Insert(SortBy(xs[..|xs| - 1], key, reverse), xs[|xs| - 1], key, reverse)
  }

  /** The elements with key k, in order. */
  function WithKey<T>(s: seq<T>, key: T -> SortKey, k: SortKey): seq<T>
    decreases |s|
  {
    if s == [] then []
    else WithKey(s[..|s| - 1], key, k) + (if key(s[|s| - 1]) == k then [s[|s| - 1]] else [])
  }

  lemma {:induction false} InsertPermutes<T>(s: seq<T>, x: T, key: T -> SortKey, reverse: bool)
    ensures multiset(Insert(s, x, key, reverse)) == multiset(s) + multiset{x}
    decreases |s|
  {
    if s != [] && Precedes(key(x), key(s[|s| - 1]), reverse) {
      InsertPermutes(s[..|s| - 1], x, key, reverse);
      assert s == s[..|s| - 1] + [s[|s| - 1]];
    }
  }

  lemma {:induction false} InsertIsStable<T>(s: seq<T>, x: T, key: T -> SortKey, reverse: bool, k: SortKey)
    ensures WithKey(Insert(s, x, key, reverse), key, k) == WithKey(s, key, k) + (if key(x) == k then [x] else [])
    decreases |s|
  {
    if s == [] {
      assert [x][..0] == [];
    } else {
      var init, last := s[..|s| - 1], s[|s| - 1];
      if Precedes(key(x), key(last), reverse) {
        InsertIsStable(init, x, key, reverse, k);
        var r := Insert(init, x, key, reverse);
        assert (r + [last])[..|r|] == r;
        InsertMovesPast(init, x, last, key, reverse, k);
      } else {
        assert (s + [x])[..|s|] == s;
      }
    }
  }

  /** The step of InsertIsStable where x moves in front of last: their keys differ, so their WithKey parts commute. */
  lemma InsertMovesPast<T>(init: seq<T>, x: T, last: T, key: T -> SortKey, reverse: bool, k: SortKey)
    requires Precedes(key(x), key(last), reverse)
    ensures var xs := if key(x) == k then [x] else [];
            var ls := if key(last) == k then [last] else [];
            WithKey(init, key, k) + xs + ls == WithKey(init + [last], key, k) + xs
  {
    KeyLessIsStrictTotalOrder(key(x), key(x), key(x));
    assert (init + [last])[..|init|] == init;
  }

  lemma {:induction false} InsertKeepsSorted<T>(s: seq<T>, x: T, key: T -> SortKey, reverse: bool)
    requires SortedBy(s, key, reverse)
    ensures SortedBy(Insert(s, x, key, reverse), key, reverse)
    decreases |s|
  {
    if s != [] {
      var init, last := s[..|s| - 1], s[|s| - 1];
      if Precedes(key(x), key(last), reverse) {
        InsertKeepsSorted(init, x, key, reverse);
        InsertPermutes(init, x, key, reverse);
        var r := Insert(init, x, key, reverse);
        forall i | 0 <= i < |r| ensures !Precedes(key(last), key(r[i]), reverse) {
          assert r[i] in multiset(r);
          if r[i] == x {
            KeyLessIsStrictTotalOrder(key(x), key(last), key(x));
          } else {
            assert r[i] in multiset(init);
            var m :| 0 <= m < |init| && init[m] == r[i];
            assert s[m] == init[m];
          }
        }
        assert r + [last] == Insert(s, x, key, reverse);
      } else {
        forall i | 0 <= i < |s| ensures !Precedes(key(x), key(s[i]), reverse) {
          if i < |s| - 1 {
            KeyLessIsStrictTotalOrder(key(x), key(last), key(s[i]));
            KeyLessIsStrictTotalOrder(key(s[i]), key(last), key(x));
            KeyLessIsStrictTotalOrder(key(last), key(s[i]), key(x));
            KeyLessIsStrictTotalOrder(key(x), key(s[i]), key(last));
          }
        }
      }
    }
  }

  /** The sort returns the same elements, with every key in order. */
  lemma {:induction false} SortBySortsAndPermutes<T>(xs: seq<T>, key: T -> SortKey, reverse: bool)
    ensures SortedBy(SortBy(xs, key, reverse), key, reverse)
    ensures multiset(SortBy(xs, key, reverse)) == multiset(xs)
    decreases |xs|
  {
    if xs != [] {
      var init := xs[..|xs| - 1];
      SortBySortsAndPermutes(init, key, reverse);
      InsertKeepsSorted(SortBy(init, key, reverse), xs[|xs| - 1], key, reverse);
      InsertPermutes(SortBy(init, key, reverse), xs[|xs| - 1], key, reverse);
      assert xs == init + [xs[|xs| - 1]];
    }
  }

  /** The sort is stable in both directions: the elements sharing a key keep their original order. */
  lemma {:induction false} SortByIsStable<T>(xs: seq<T>, key: T -> SortKey, reverse: bool, k: SortKey)
    ensures WithKey(SortBy(xs, key, reverse), key, k) == WithKey(xs, key, k)
    decreases |xs|
  {
    if xs != [] {
      var init := xs[..|xs| - 1];
      SortByIsStable(init, key, reverse, k);
      InsertIsStable(SortBy(init, key, reverse), xs[|xs| - 1], key, reverse, k);
    }
  }
}
