/**
 * Sequence filtering, the shape of a Django `.filter(...)` over a table
 * and of a list comprehension with an `if`, with the facts the models
 * use about it.
 */
module Collections {
  import opened Wrappers

  /** The elements of `s` satisfying `p`, in order. */
  function Filter<T(!new)>(s: seq<T>, p: T -> bool): (r: seq<T>)
    ensures forall x :: x in r <==> x in s && p(x)
    ensures |r| <= |s|
  {
    if s == [] then []
    else
      var init := Filter(s[..|s| - 1], p);
      var last := s[|s| - 1];
      assert s == s[..|s| - 1] + [last];
      if p(last) then init + [last] else init
  }

  /** Filtering depends only on the predicate's answers for the elements. */
  lemma {:induction false} FilterExt<T(!new)>(s: seq<T>, p: T -> bool, q: T -> bool)
    requires forall x :: x in s ==> p(x) == q(x)
    ensures Filter(s, p) == Filter(s, q)
  {
    if s != [] {
      assert s == s[..|s| - 1] + [s[|s| - 1]];
      FilterExt(s[..|s| - 1], p, q);
    }
  }

  /** Two filters in a row are one filter by a predicate that holds where both do. */
  lemma {:induction false} FilterFilter<T(!new)>(s: seq<T>, p: T -> bool, q: T -> bool, both: T -> bool)
    requires forall x :: x in s ==> both(x) == (p(x) && q(x))
    ensures Filter(Filter(s, p), q) == Filter(s, both)
  {
    if s != [] {
      var init := s[..|s| - 1];
      var last := s[|s| - 1];
      assert s == init + [last];
      FilterFilter(init, p, q, both);
      var f := Filter(init, p);
      if p(last) {
        var g := f + [last];
        assert g[..|g| - 1] == f;
      }
    }
  }

  /** Filtering again by the same predicate changes nothing. */
  lemma FilterIdempotent<T(!new)>(s: seq<T>, p: T -> bool)
    ensures Filter(Filter(s, p), p) == Filter(s, p)
  {
    FilterFilter(s, p, p, p);
  }

  /** A filter every element passes keeps everything. */
  lemma {:induction false} FilterAllPass<T(!new)>(s: seq<T>, p: T -> bool)
    requires forall x :: x in s ==> p(x)
    ensures Filter(s, p) == s
  {
    if s != [] {
      assert s == s[..|s| - 1] + [s[|s| - 1]];
      FilterAllPass(s[..|s| - 1], p);
    }
  }

  /** An element passes exactly one of two complementary filters: the parts add up to the whole. */
  lemma {:induction false} FilterPartition<T(!new)>(s: seq<T>, p: T -> bool, q: T -> bool)
    requires forall x :: x in s ==> q(x) == !p(x)
    ensures |Filter(s, p)| + |Filter(s, q)| == |s|
  {
    if s != [] {
      assert s == s[..|s| - 1] + [s[|s| - 1]];
      FilterPartition(s[..|s| - 1], p, q);
    }
  }

  /** Filtering keeps a key that was distinct across positions distinct. */
  lemma {:induction false} FilterKeepsDistinct<T(!new)>(s: seq<T>, p: T -> bool, key: T -> int)
    requires forall i, j :: 0 <= i < j < |s| ==> key(s[i]) != key(s[j])
    ensures forall i, j :: 0 <= i < j < |Filter(s, p)| ==> key(Filter(s, p)[i]) != key(Filter(s, p)[j])
  {
    if s != [] {
      var init := s[..|s| - 1];
      var last := s[|s| - 1];
      FilterKeepsDistinct(init, p, key);
      var f := Filter(init, p);
      if p(last) {
        var g := f + [last];
        forall i, j | 0 <= i < j < |g|
          ensures key(g[i]) != key(g[j])
        {
          if j == |f| {
            assert g[i] in init;
            var k :| 0 <= k < |init| && init[k] == g[i];
            assert s[k] == g[i] && s[|s| - 1] == last;
          } else {
            assert g[i] == f[i] && g[j] == f[j];
          }
        }
        assert Filter(s, p) == g;
      }
    }
  }

  /** No value occurs twice. */
  predicate Distinct<T(==)>(s: seq<T>)
  {
    forall i, j :: 0 <= i < j < |s| ==> s[i] != s[j]
  }

  /** set(s). */
  function SeqSet<T(!new)>(s: seq<T>): (r: set<T>)
    ensures forall x :: x in r <==> x in s
    ensures |r| <= |s|
  {
    if s == [] then {}
    else
      assert s == s[..|s| - 1] + [s[|s| - 1]];
      SeqSet(s[..|s| - 1]) + {s[|s| - 1]}
  }

  /** `len(s) != len(set(s))` tests exactly for a repeated value. */
  lemma {:induction false} DistinctIffSetSize<T(!new)>(s: seq<T>)
    ensures |SeqSet(s)| == |s| <==> Distinct(s)
  {
    if s != [] {
      var init, last := s[..|s| - 1], s[|s| - 1];
      InitLast(s);
      DistinctIffSetSize(init);
      DistinctSnoc(init, last);
      if last in init {
        assert SeqSet(s) == SeqSet(init);
      } else {
        assert SeqSet(s) == SeqSet(init) + {last};
      }
    }
  }

  /** One more element keeps a sequence distinct exactly when it is new. */
  lemma DistinctSnoc<T>(init: seq<T>, last: T)
    ensures Distinct(init + [last]) <==> Distinct(init) && last !in init
  {
    var s := init + [last];
    if Distinct(s) {
      assert forall i, j :: 0 <= i < j < |init| ==> init[i] == s[i] && init[j] == s[j];
      forall k | 0 <= k < |init| ensures init[k] != last {
        assert s[k] == init[k] && s[|s| - 1] == last;
      }
    }
    if Distinct(init) && last !in init {
      forall i, j | 0 <= i < j < |s|
        ensures s[i] != s[j]
      {
        assert s[i] == init[i];
        if j < |init| { assert s[j] == init[j]; }
      }
    }
  }

  /** `[f(x) for x in s if keep(x)]`. */
  function Collect<T(!new), U(!new)>(s: seq<T>, keep: T -> bool, f: T -> U): (r: seq<U>)
    ensures forall y :: y in r <==> exists i :: 0 <= i < |s| && keep(s[i]) && f(s[i]) == y
    ensures |r| <= |s|
  {
    if s == [] then []
    else
      var init := Collect(s[..|s| - 1], keep, f);
      var last := s[|s| - 1];
      assert forall i :: 0 <= i < |s| - 1 ==> s[..|s| - 1][i] == s[i];
      if keep(last) then init + [f(last)] else init
  }

  /** The collected values are distinct exactly when no two kept elements share a value. */
  lemma {:induction false} DistinctCollect<T(!new), U(!new)>(s: seq<T>, keep: T -> bool, f: T -> U)
    ensures Distinct(Collect(s, keep, f)) <==>
              forall i, j :: 0 <= i < j < |s| && keep(s[i]) && keep(s[j]) ==> f(s[i]) != f(s[j])
  {
    if s != [] {
      var init := s[..|s| - 1];
      var last := s[|s| - 1];
      DistinctCollect(init, keep, f);
      var c := Collect(init, keep, f);
      assert forall i :: 0 <= i < |init| ==> init[i] == s[i];
      if keep(last) {
        var c' := c + [f(last)];
        assert Collect(s, keep, f) == c';
        if Distinct(c') {
          assert Distinct(c) by {
            assert forall i, j :: 0 <= i < j < |c| ==> c[i] == c'[i] && c[j] == c'[j];
          }
          forall i, j | 0 <= i < j < |s| && keep(s[i]) && keep(s[j])
            ensures f(s[i]) != f(s[j])
          {
            if j == |s| - 1 {
              assert f(init[i]) in c;
              var k :| 0 <= k < |c| && c[k] == f(init[i]);
              assert c'[k] != c'[|c|];
            }
          }
        }
        if forall i, j :: 0 <= i < j < |s| && keep(s[i]) && keep(s[j]) ==> f(s[i]) != f(s[j]) {
          forall i, j | 0 <= i < j < |c'|
            ensures c'[i] != c'[j]
          {
            if j == |c| {
              assert c'[i] in c;
              var k :| 0 <= k < |init| && keep(init[k]) && f(init[k]) == c'[i];
              assert k < |s| - 1;
            } else {
              assert c'[i] == c[i] && c'[j] == c[j];
            }
          }
        }
      }
    }
  }

  /** At least two elements pass exactly when two positions do. */
  lemma {:induction false} FilterAtLeastTwo<T(!new)>(s: seq<T>, p: T -> bool)
    ensures |Filter(s, p)| >= 2 <==> exists i, j :: 0 <= i < j < |s| && p(s[i]) && p(s[j])
  {
    if s != [] {
      var init := s[..|s| - 1];
      var last := s[|s| - 1];
      FilterAtLeastTwo(init, p);
      assert forall i :: 0 <= i < |init| ==> init[i] == s[i];
      if |Filter(s, p)| >= 2 && !(exists i, j :: 0 <= i < j < |init| && p(init[i]) && p(init[j])) {
        assert p(last) && |Filter(init, p)| >= 1;
        var x := Filter(init, p)[0];
        assert x in Filter(init, p);
        var k :| 0 <= k < |init| && init[k] == x;
        assert p(s[k]) && p(s[|s| - 1]);
      }
      if exists i, j :: 0 <= i < j < |s| && p(s[i]) && p(s[j]) {
        var i, j :| 0 <= i < j < |s| && p(s[i]) && p(s[j]);
        if j == |s| - 1 {
          assert init[i] in Filter(init, p);
          assert |Filter(init, p)| >= 1;
        } else {
          assert p(init[i]) && p(init[j]);
        }
      }
    }
  }

  /** Nothing passes exactly when no element does. */
  lemma FilterEmpty<T(!new)>(s: seq<T>, p: T -> bool)
    ensures |Filter(s, p)| == 0 <==> forall i :: 0 <= i < |s| ==> !p(s[i])
  {
    if |Filter(s, p)| > 0 {
      assert Filter(s, p)[0] in Filter(s, p);
    }
  }

  /** Collecting takes one value per kept element. */
  lemma {:induction false} CollectLength<T(!new), U(!new)>(s: seq<T>, keep: T -> bool, f: T -> U)
    ensures |Collect(s, keep, f)| == |Filter(s, keep)|
  {
    if s != [] {
      CollectLength(s[..|s| - 1], keep, f);
    }
  }

  /** Filtering a sequence without repeats gives one without repeats. */
  lemma FilterKeepsDistinctValues<T(!new)>(s: seq<T>, p: T -> bool)
    requires Distinct(s)
    ensures Distinct(Filter(s, p))
  {
    DistinctCollect(s, p, (x: T) => x);
    CollectIsFilter(s, p);
  }

  /** Collecting the elements themselves is filtering. */
  lemma {:induction false} CollectIsFilter<T(!new)>(s: seq<T>, p: T -> bool)
    ensures Collect(s, p, (x: T) => x) == Filter(s, p)
  {
    if s != [] {
      CollectIsFilter(s[..|s| - 1], p);
    }
  }

  /** Dropping one value from a sequence without repeats shortens it by one. */
  lemma FilterOutOne<T(!new)>(s: seq<T>, x: T, p: T -> bool)
    requires Distinct(s) && x in s
    requires forall y :: p(y) == (y != x)
    ensures |Filter(s, p)| == |s| - 1
  {
    var r := Filter(s, p);
    FilterKeepsDistinctValues(s, p);
    DistinctIffSetSize(r);
    DistinctIffSetSize(s);
    var all, kept := SeqSet(s), SeqSet(r);
    assert kept == all - {x} by {
      forall y ensures y in kept <==> y in all - {x} {
        assert y in kept <==> y in r;
        assert y in r <==> y in s && p(y);
      }
    }
    assert |kept| == |all| - 1;
  }

  /**
   * get_object_or_404 (and the lookup half of get_or_create) over a table keyed by id: the one row that matches,
   * Http404 when none does and MultipleObjectsReturned when several do.
   */
  function SoleKey<K(!new), V>(m: map<K, V>, matches: V -> bool): (r: Result<K, string>)
    ensures r.Ok? ==> r.value in m && matches(m[r.value])
    ensures r.Ok? ==> forall k :: k in m && matches(m[k]) ==> k == r.value
    ensures r == Err("Http404") <==> forall k :: k in m ==> !matches(m[k])
    ensures r == Err("MultipleObjectsReturned") <==>
              exists j, k :: j in m && k in m && j != k && matches(m[j]) && matches(m[k])
    ensures r.Ok? || r == Err("Http404") || r == Err("MultipleObjectsReturned")
  {
    var keys := set k | k in m && matches(m[k]);
    if keys == {} then
      assert forall k :: k in m ==> k !in keys;
      Err("Http404")
    else
      var k :| k in keys;
      if keys == {k} then
        assert forall j :: j in m && matches(m[j]) ==> j in keys;
        Ok(k)
      else
        assert (keys - {k}) + {k} == keys;
        var j :| j in keys - {k};
        assert j in m && k in m && j != k && matches(m[j]) && matches(m[k]);
        Err("MultipleObjectsReturned")
  }

  /** A non-empty sequence is its front followed by its last element. */
  lemma InitLast<T>(s: seq<T>)
    requires s != []
    ensures s == s[..|s| - 1] + [s[|s| - 1]]
  {
  }

  /** Dropping the last element of a concatenation drops it from the second part. */
  lemma AppendInitLast<T>(us: seq<T>, vs: seq<T>)
    requires vs != []
    ensures (us + vs)[..|us + vs| - 1] == us + vs[..|vs| - 1]
    ensures (us + vs)[|us + vs| - 1] == vs[|vs| - 1]
  {
    assert (us + vs)[..|us + vs| - 1] == us + vs[..|vs| - 1];
  }

  /** Concatenation is associative. */
  lemma AppendAssoc<T>(x: seq<T>, y: seq<T>, z: seq<T>)
    ensures x + (y + z) == (x + y) + z
  {
  }

  /** A non-empty sequence is its first element followed by the rest. */
  lemma HeadTail<T>(s: seq<T>)
    requires s != []
    ensures s == [s[0]] + s[1..]
  {
  }
}
