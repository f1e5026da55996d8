/** `Array.prototype.filter` on sequences, and the facts about it that the
    link derivation and the sparkle list rely on. */
module Filtering {

  /** The elements of `s` that satisfy `f`, in their original order. */
  function Filter<T>(f: T -> bool, s: seq<T>): (r: seq<T>)
    ensures |r| <= |s|
  {
    if s == [] then []
    else
      assert s == s[..|s| - 1] + [s[|s| - 1]];
      Filter(f, s[..|s| - 1]) + (if f(s[|s| - 1]) then [s[|s| - 1]] else [])
  }

  /** The kept elements are exactly the elements that pass. */
  lemma {:induction false} FilterMembers<T>(f: T -> bool, s: seq<T>, x: T)
    ensures x in Filter(f, s) <==> x in s && f(x)
  {
    if s != [] {
      var init, last := s[..|s| - 1], s[|s| - 1];
      assert s == init + [last];
      FilterMembers(f, init, x);
    }
  }

  /** Filtering one more element. */
  lemma FilterSnoc<T>(f: T -> bool, s: seq<T>, x: T)
    ensures Filter(f, s + [x]) == Filter(f, s) + (if f(x) then [x] else [])
  {
    assert (s + [x])[..|s|] == s;
  }

  /** When every element passes, filtering changes nothing. */
  lemma {:induction false} FilterAll<T>(f: T -> bool, s: seq<T>)
    requires forall k :: 0 <= k < |s| ==> f(s[k])
    ensures Filter(f, s) == s
  {
    if s != [] {
      var init, last := s[..|s| - 1], s[|s| - 1];
      assert s == init + [last];
      FilterAll(f, init);
    }
  }

  /** Filtering keeps the length exactly when every element passes. */
  lemma {:induction false} FilterLength<T>(f: T -> bool, s: seq<T>)
    ensures |Filter(f, s)| == |s| <==> forall k :: 0 <= k < |s| ==> f(s[k])
  {
    if s != [] {
      var init, last := s[..|s| - 1], s[|s| - 1];
      assert s == init + [last];
      FilterLength(f, init);
      if |Filter(f, s)| == |s| {
        forall k | 0 <= k < |s| ensures f(s[k]) {
          if k < |init| {
            assert s[k] == init[k];
          }
        }
      }
    }
  }

  /** Filtering distributes over concatenation. */
  lemma {:induction false} FilterAppend<T>(f: T -> bool, a: seq<T>, b: seq<T>)
    ensures Filter(f, a + b) == Filter(f, a) + Filter(f, b)
    decreases |b|
  {
    if b == [] {
      assert a + b == a;
    } else {
      var init, last := b[..|b| - 1], b[|b| - 1];
      var tail := if f(last) then [last] else [];
      assert b == init + [last];
      calc {
        Filter(f, a + b);
        { assert a + b == (a + init) + [last]; }
        Filter(f, (a + init) + [last]);
        { FilterSnoc(f, a + init, last); }
        Filter(f, a + init) + tail;
        { FilterAppend(f, a, init); }
        Filter(f, a) + Filter(f, init) + tail;
        { FilterSnoc(f, init, last); }
        Filter(f, a) + Filter(f, b);
      }
    }
  }

  /** Each element keeps its multiplicity if it passes, and is gone if not. */
  lemma {:induction false} FilterMultiset<T>(f: T -> bool, s: seq<T>)
    ensures forall x :: multiset(Filter(f, s))[x] == if f(x) then multiset(s)[x] else 0
  {
    if s != [] {
      var init, last := s[..|s| - 1], s[|s| - 1];
      assert s == init + [last];
      FilterMultiset(f, init);
      FilterSnoc(f, init, last);
    }
  }

  predicate NoDuplicates<T(==)>(s: seq<T>)
  {
    forall k, l :: 0 <= k < l < |s| ==> s[k] != s[l]
  }

  /** A list without repeats has as many elements as its set. */
  lemma {:induction false} DistinctCard<T>(s: seq<T>)
    requires NoDuplicates(s)
    ensures |set x | x in s| == |s|
  {
    if s != [] {
      var init, last := s[..|s| - 1], s[|s| - 1];
      assert NoDuplicates(init) by {
        forall k, l | 0 <= k < l < |init| ensures init[k] != init[l] {
          assert init[k] == s[k] && init[l] == s[l];
        }
      }
      DistinctCard(init);
      assert last !in init by {
        forall k | 0 <= k < |init| ensures init[k] != last {
          assert init[k] == s[k];
        }
      }
      assert (set x | x in s) == (set x | x in init) + {last} by {
        assert s == init + [last];
      }
    }
  }

  /** Filtering a list without repeats gives a list without repeats. */
  lemma {:induction false} FilterDistinct<T>(f: T -> bool, s: seq<T>)
    requires NoDuplicates(s)
    ensures NoDuplicates(Filter(f, s))
  {
    if s != [] {
      var init, last := s[..|s| - 1], s[|s| - 1];
      assert s == init + [last];
      assert NoDuplicates(init) by {
        forall k, l | 0 <= k < l < |init| ensures init[k] != init[l] {
          assert init[k] == s[k] && init[l] == s[l];
        }
      }
      FilterDistinct(f, init);
      assert last !in Filter(f, init) by {
        forall k | 0 <= k < |init| ensures init[k] != last {
          assert init[k] == s[k];
        }
        FilterMembers(f, init, last);
      }
      FilterSnoc(f, init, last);
    }
  }
}
