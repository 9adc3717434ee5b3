/** The array operations the screens and the store are built from:
    `filter`, `reduce` to a sum, `find`, `some`, a newest-first `sort`,
    and the index-based removal used for preview lists. */
module Lists {

  datatype Option<+T> = None | Some(value: T)

  /** The complement of a predicate, as in `filter(x => !p(x))`. */
  function Not<T>(p: T -> bool): T -> bool
  {
    x => !p(x)
  }

  /** `s.filter(p)`: the elements of `s` satisfying `p`, in their order. */
  function Filter<T(!new)>(s: seq<T>, p: T -> bool): (r: seq<T>)
    ensures |r| <= |s|
    ensures forall x :: x in r <==> x in s && p(x)
  {
    if |s| == 0 then []
    else
      var init, last := s[..|s| - 1], s[|s| - 1];
      assert s == init + [last];
      Filter(init, p) + (if p(last) then [last] else [])
  }

  /** Each element is kept exactly as often as it occurs in `s` when it satisfies `p`, and never otherwise. */
  lemma {:induction false} FilterCount<T(!new)>(s: seq<T>, p: T -> bool)
    ensures forall x :: multiset(Filter(s, p))[x] == if p(x) then multiset(s)[x] else 0
  {
    if |s| > 0 {
      var init, last := s[..|s| - 1], s[|s| - 1];
      assert s == init + [last];
      FilterCount(init, p);
      assert multiset(s) == multiset(init) + multiset{last};
      if p(last) {
        assert multiset(Filter(s, p)) == multiset(Filter(init, p)) + multiset{last};
      } else {
        assert Filter(s, p) == Filter(init, p) + [];
        assert Filter(init, p) + [] == Filter(init, p);
      }
    }
  }

  /** Filtering distributes over concatenation, so it keeps the relative order of the elements. */
  lemma {:induction false} FilterAppend<T(!new)>(s: seq<T>, t: seq<T>, p: T -> bool)
    ensures Filter(s + t, p) == Filter(s, p) + Filter(t, p)
  {
    if |t| == 0 {
      assert s + t == s;
    } else {
      var init, last := t[..|t| - 1], t[|t| - 1];
      assert (s + t)[..|s + t| - 1] == s + init;
      FilterAppend(s, init, p);
    }
  }

  /** Filtering with a predicate that holds of every element changes nothing. */
  lemma {:induction false} FilterAll<T(!new)>(s: seq<T>, p: T -> bool)
    requires forall k :: 0 <= k < |s| ==> p(s[k])
    ensures Filter(s, p) == s
  {
    if |s| > 0 {
      var init, last := s[..|s| - 1], s[|s| - 1];
      assert s == init + [last];
      assert forall k :: 0 <= k < |init| ==> p(init[k]) by {
        forall k | 0 <= k < |init| ensures p(init[k]) {
          assert init[k] == s[k];
        }
      }
      FilterAll(init, p);
      assert Filter(s, p) == Filter(init, p) + [last];
    }
  }

  /** Filtering twice is filtering once by both conditions. */
  lemma {:induction false} FilterOfFilter<T(!new)>(s: seq<T>, p: T -> bool, q: T -> bool, both: T -> bool)
    requires forall x :: both(x) <==> p(x) && q(x)
    ensures Filter(Filter(s, p), q) == Filter(s, both)
  {
    if |s| > 0 {
      var init, last := s[..|s| - 1], s[|s| - 1];
      FilterOfFilter(init, p, q, both);
      if p(last) {
        FilterAppend(Filter(init, p), [last], q);
        assert [last][..0] == [];
      } else {
        assert Filter(s, p) == Filter(init, p) + [];
        assert Filter(init, p) + [] == Filter(init, p);
      }
    }
  }

  /** An element is kept or dropped, never both: the two filters split the length. */
  lemma {:induction false} FilterSplitsLength<T(!new)>(s: seq<T>, p: T -> bool)
    ensures |Filter(s, p)| + |Filter(s, Not(p))| == |s|
  {
    if |s| > 0 {
      FilterSplitsLength(s[..|s| - 1], p);
    }
  }

  /** `s.reduce((sum, x) => sum + f(x), 0)`, folded from the left as `reduce` does. */
  function Sum<T>(s: seq<T>, f: T -> real): real
  {
    if |s| == 0 then 0.0 else Sum(s[..|s| - 1], f) + f(s[|s| - 1])
  }

  lemma {:induction false} SumAppend<T>(s: seq<T>, t: seq<T>, f: T -> real)
    ensures Sum(s + t, f) == Sum(s, f) + Sum(t, f)
  {
    if |t| == 0 {
      assert s + t == s;
    } else {
      var init := t[..|t| - 1];
      assert (s + t)[..|s + t| - 1] == s + init;
      SumAppend(s, init, f);
    }
  }

  /** Summing the kept and the dropped elements separately gives the whole sum. */
  lemma {:induction false} SumSplitsByFilter<T(!new)>(s: seq<T>, p: T -> bool, f: T -> real)
    ensures Sum(Filter(s, p), f) + Sum(Filter(s, Not(p)), f) == Sum(s, f)
  {
    if |s| > 0 {
      var init, last := s[..|s| - 1], s[|s| - 1];
      SumSplitsByFilter(init, p, f);
      assert Sum([last], f) == f(last) by {
        assert [last][..0] == [];
      }
      if p(last) {
        assert Filter(s, p) == Filter(init, p) + [last];
        assert Filter(s, Not(p)) == Filter(init, Not(p)) + [];
        assert Filter(init, Not(p)) + [] == Filter(init, Not(p));
        SumAppend(Filter(init, p), [last], f);
      } else {
        assert Filter(s, p) == Filter(init, p) + [];
        assert Filter(init, p) + [] == Filter(init, p);
        assert Filter(s, Not(p)) == Filter(init, Not(p)) + [last];
        SumAppend(Filter(init, Not(p)), [last], f);
      }
    }
  }

  /** Appending one element to a filtered list adds its term when the filter keeps it. */
  lemma SumFilterSnoc<T(!new)>(s: seq<T>, x: T, p: T -> bool, f: T -> real)
    ensures Sum(Filter(s + [x], p), f) == Sum(Filter(s, p), f) + (if p(x) then f(x) else 0.0)
  {
    assert (s + [x])[..|s + [x]| - 1] == s;
    if p(x) {
      assert Filter(s + [x], p)[..|Filter(s + [x], p)| - 1] == Filter(s, p);
    } else {
      assert Filter(s + [x], p) == Filter(s, p) + [];
      assert Filter(s, p) + [] == Filter(s, p);
    }
  }

  /** When the filter keeps exactly one element, the filtered sum is that element's term. */
  lemma {:induction false} SumOfSingleMatch<T(!new)>(s: seq<T>, p: T -> bool, f: T -> real, k: nat)
    requires k < |s| && p(s[k])
    requires forall j :: 0 <= j < |s| && j != k ==> !p(s[j])
    ensures Sum(Filter(s, p), f) == f(s[k])
  {
    var init, last := s[..|s| - 1], s[|s| - 1];
    assert s == init + [last];
    SumFilterSnoc(init, last, p, f);
    if k == |s| - 1 {
      SumOfEmptyFilter(init, p, f);
    } else {
      SumOfSingleMatch(init, p, f, k);
    }
  }

  /** A sum over no element that the filter keeps is zero. */
  lemma {:induction false} SumOfEmptyFilter<T(!new)>(s: seq<T>, p: T -> bool, f: T -> real)
    requires forall k :: 0 <= k < |s| ==> !p(s[k])
    ensures Sum(Filter(s, p), f) == 0.0
  {
    if |s| > 0 {
      var init := s[..|s| - 1];
      SumOfEmptyFilter(init, p, f);
      assert Filter(s, p) == Filter(init, p) + [];
      assert Filter(init, p) + [] == Filter(init, p);
    }
  }

  /** Taking one term out of a sum, wherever it stands. */
  lemma SumWithout<T>(t: seq<T>, k: nat, f: T -> real)
    requires k < |t|
    ensures Sum(t, f) == Sum(t[..k] + t[k + 1..], f) + f(t[k])
  {
    var front, x, back := t[..k], t[k], t[k + 1..];
    assert t == front + ([x] + back);
    SumAppend(front, [x] + back, f);
    SumAppend([x], back, f);
    SumAppend(front, back, f);
    assert [x][..0] == [];
    assert Sum([x], f) == f(x);
  }

  /** The order of the terms does not matter: a sum depends only on the multiset of its terms. */
  lemma {:induction false} SumOfPermutation<T>(s: seq<T>, t: seq<T>, f: T -> real)
    requires multiset(s) == multiset(t)
    ensures Sum(s, f) == Sum(t, f)
  {
    if |s| == 0 {
      assert |t| == |multiset(t)| == 0;
    } else {
      var init, last := s[..|s| - 1], s[|s| - 1];
      assert s == init + [last];
      assert last in multiset(t);
      var k :| 0 <= k < |t| && t[k] == last;
      var rest := t[..k] + t[k + 1..];
      assert t == t[..k] + [last] + t[k + 1..];
      assert multiset(t) == multiset(rest) + multiset{last};
      assert multiset(s) == multiset(init) + multiset{last};
      assert multiset(init) == multiset(s) - multiset{last};
      SumOfPermutation(init, rest, f);
      SumWithout(t, k, f);
    }
  }

  /** `s.find(p)`: the first element satisfying `p`, if any. */
  function Find<T>(s: seq<T>, p: T -> bool): (r: Option<T>)
    ensures r.None? <==> forall k :: 0 <= k < |s| ==> !p(s[k])
    ensures r.Some? ==> r.value in s && p(r.value)
  {
    if |s| == 0 then None
    else if p(s[0]) then Some(s[0])
    else Find(s[1..], p)
  }

  /** What `find` returns is the element at the first index satisfying `p`. */
  lemma {:induction false} FindFirst<T>(s: seq<T>, p: T -> bool)
    requires Find(s, p).Some?
    ensures exists k :: 0 <= k < |s| && s[k] == Find(s, p).value && forall j :: 0 <= j < k ==> !p(s[j])
  {
    if !p(s[0]) {
      FindFirst(s[1..], p);
      var k :| 0 <= k < |s[1..]| && s[1..][k] == Find(s, p).value && forall j :: 0 <= j < k ==> !p(s[1..][j]);
      forall j | 0 <= j < k + 1 ensures !p(s[j]) {
        if j > 0 {
          assert s[j] == s[1..][j - 1];
        }
      }
      assert s[k + 1] == Find(s, p).value;
    } else {
      assert s[0] == Find(s, p).value;
    }
  }

  /** Conversely, the element at the first index satisfying `p` is what `find` returns. */
  lemma {:induction false} FindAt<T>(s: seq<T>, p: T -> bool, k: nat)
    requires k < |s| && p(s[k])
    requires forall j :: 0 <= j < k ==> !p(s[j])
    ensures Find(s, p) == Some(s[k])
  {
    if k > 0 {
      assert !p(s[0]);
      FindAt(s[1..], p, k - 1);
    }
  }

  /** `s.filter((_, i) => i !== index)`: drops the element at `index`; any other index drops nothing. */
  function RemoveAt<T>(s: seq<T>, index: int): (r: seq<T>)
    ensures 0 <= index < |s| ==> r == s[..index] + s[index + 1..]
    ensures !(0 <= index < |s|) ==> r == s
  {
    if |s| == 0 then []
    else
      var rest := RemoveAt(s[1..], index - 1);
      assert 0 < index < |s| ==> rest == s[1..index] + s[index + 1..];
      (if index == 0 then [] else [s[0]]) + rest
  }

  /** Cutting out the element at an index takes out exactly one occurrence of it. */
  lemma CutDropsOne<T>(s: seq<T>, index: nat)
    requires index < |s|
    ensures |s[..index] + s[index + 1..]| == |s| - 1
    ensures multiset(s[..index] + s[index + 1..]) == multiset(s) - multiset{s[index]}
  {
    var before, after := s[..index], s[index + 1..];
    assert s == before + ([s[index]] + after);
    var rest := multiset(before) + multiset(after);
    assert multiset(s) == rest + multiset{s[index]};
    assert multiset(before + after) == rest;
    TakeBackOne(rest, s[index]);
  }

  lemma TakeBackOne<T>(m: multiset<T>, x: T)
    ensures (m + multiset{x}) - multiset{x} == m
  {
  }

  /** Every element is at least as new as the ones after it. */
  predicate NewestFirst<T>(s: seq<T>, time: T -> int)
  {
    forall i, j :: 0 <= i < j < |s| ==> time(s[i]) >= time(s[j])
  }

  /** Filtering keeps the relative order, so a newest-first list stays newest first. */
  lemma {:induction false} FilterKeepsNewestFirst<T(!new)>(s: seq<T>, p: T -> bool, time: T -> int)
    requires NewestFirst(s, time)
    ensures NewestFirst(Filter(s, p), time)
  {
    if |s| > 0 {
      var init, last := s[..|s| - 1], s[|s| - 1];
      assert s == init + [last];
      assert NewestFirst(init, time) by {
        forall i, j | 0 <= i < j < |init|
          ensures time(init[i]) >= time(init[j])
        {
          assert init[i] == s[i] && init[j] == s[j];
        }
      }
      FilterKeepsNewestFirst(init, p, time);
      var f := Filter(init, p);
      if p(last) {
        var r := f + [last];
        forall i, j | 0 <= i < j < |r|
          ensures time(r[i]) >= time(r[j])
        {
          if j < |f| {
            assert r[i] == f[i] && r[j] == f[j];
          } else {
            assert r[i] == f[i] && f[i] in f;
            var k :| 0 <= k < |init| && init[k] == r[i];
            assert init[k] == s[k] && r[j] == s[|s| - 1];
          }
        }
      } else {
        assert Filter(s, p) == f + [];
        assert f + [] == f;
      }
    }
  }

  /** Places `x` in front of the first element that is not newer than it. */
  function InsertNewestFirst<T>(x: T, s: seq<T>, time: T -> int): (r: seq<T>)
    ensures multiset(r) == multiset(s) + multiset{x}
  {
    if |s| == 0 || time(s[0]) <= time(x) then
      [x] + s
    else
      assert s == [s[0]] + s[1..];
      [s[0]] + InsertNewestFirst(x, s[1..], time)
  }

  /** Inserting into a newest-first list keeps it newest-first. */
  lemma {:induction false} InsertKeepsNewestFirst<T>(x: T, s: seq<T>, time: T -> int)
    requires NewestFirst(s, time)
    ensures NewestFirst(InsertNewestFirst(x, s, time), time)
  {
    var r := InsertNewestFirst(x, s, time);
    if |s| == 0 || time(s[0]) <= time(x) {
      assert r == [x] + s;
      forall i, j | 0 <= i < j < |r| ensures time(r[i]) >= time(r[j]) {
        if i == 0 {
          assert r[j] == s[j - 1];
        } else {
          assert r[i] == s[i - 1] && r[j] == s[j - 1];
        }
      }
    } else {
      var tail := s[1..];
      assert NewestFirst(tail, time) by {
        forall i, j | 0 <= i < j < |tail| ensures time(tail[i]) >= time(tail[j]) {
          assert tail[i] == s[i + 1] && tail[j] == s[j + 1];
        }
      }
      var rest := InsertNewestFirst(x, tail, time);
      InsertKeepsNewestFirst(x, tail, time);
      assert r == [s[0]] + rest;
      forall i, j | 0 <= i < j < |r| ensures time(r[i]) >= time(r[j]) {
        if i == 0 {
          var y := rest[j - 1];
          assert y in multiset(rest);
          if y != x {
            assert y in multiset(tail);
            var m :| 0 <= m < |tail| && tail[m] == y;
            assert s[m + 1] == y;
          }
        } else {
          assert r[i] == rest[i - 1] && r[j] == rest[j - 1];
        }
      }
    }
  }

  /** `s.sort((a, b) => time(b) - time(a))`: a stable sort, newest first. */
  function SortNewestFirst<T>(s: seq<T>, time: T -> int): (r: seq<T>)
    ensures multiset(r) == multiset(s)
    ensures NewestFirst(r, time)
  {
    if |s| == 0 then []
    else
      assert s == [s[0]] + s[1..];
      var sorted := SortNewestFirst(s[1..], time);
      InsertKeepsNewestFirst(s[0], sorted, time);
      InsertNewestFirst(s[0], sorted, time)
  }
}
