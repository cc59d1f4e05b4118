/** Python's `sorted(xs, key=key, reverse=True)` on an integer key: a stable
    sort into descending key order, where elements with equal keys keep the
    order they had in `xs`. Both bucket lists and the anomaly candidates are
    sorted this way. */
module StableSort {
  import opened Seqs

  ghost predicate Descending<T>(xs: seq<T>, key: T -> int) {
    forall i, j :: 0 <= i < j < |xs| ==> key(xs[i]) >= key(xs[j])
  }

  /** The elements of `xs` whose key is `v`, in order. Stability says that
      this subsequence is the same before and after sorting. */
  function KeyFilter<T>(xs: seq<T>, key: T -> int, v: int): seq<T> {
    if |xs| == 0 then []
    else (if key(xs[0]) == v then [xs[0]] else []) + KeyFilter(xs[1..], key, v)
  }

  /** Insert `x` in front of the first element whose key does not exceed
      its own. */
  function Insert<T>(x: T, ys: seq<T>, key: T -> int): (r: seq<T>)
    ensures |r| == |ys| + 1
    ensures r[0] == x || (|ys| > 0 && r[0] == ys[0])
  {
    if |ys| == 0 || key(x) >= key(ys[0]) then [x] + ys
    else [ys[0]] + Insert(x, ys[1..], key)
  }

  lemma DescendingCons<T>(y: T, t: seq<T>, key: T -> int)
    requires Descending(t, key)
    requires |t| == 0 || key(y) >= key(t[0])
    ensures Descending([y] + t, key)
  {
    var r := [y] + t;
    forall i, j | 0 <= i < j < |r| ensures key(r[i]) >= key(r[j]) {
      if i == 0 {
        assert r[j] == t[j - 1];
      } else {
        assert r[i] == t[i - 1] && r[j] == t[j - 1];
      }
    }
  }

  /** Inserting into a descending sequence keeps it descending. */
  lemma {:induction false} InsertDescending<T>(x: T, ys: seq<T>, key: T -> int)
    requires Descending(ys, key)
    ensures Descending(Insert(x, ys, key), key)
  {
    if |ys| == 0 || key(x) >= key(ys[0]) {
      DescendingCons(x, ys, key);
    } else {
      var t := Insert(x, ys[1..], key);
      InsertDescending(x, ys[1..], key);
      DescendingCons(ys[0], t, key);
    }
  }

  /** Inserting `x` places it before every element with the same key, and
      leaves every other key's subsequence alone. */
  lemma {:induction false} InsertKeyFilter<T>(x: T, ys: seq<T>, key: T -> int, v: int)
    ensures KeyFilter(Insert(x, ys, key), key, v)
         == (if key(x) == v then [x] else []) + KeyFilter(ys, key, v)
  {
    var r := Insert(x, ys, key);
    if |ys| == 0 || key(x) >= key(ys[0]) {
      assert r[1..] == ys;
    } else {
      InsertKeyFilter(x, ys[1..], key, v);
      assert r[1..] == Insert(x, ys[1..], key);
      if key(x) == v {
        assert key(ys[0]) != v;
      }
    }
  }

  lemma {:induction false} InsertMultiset<T>(x: T, ys: seq<T>, key: T -> int)
    ensures multiset(Insert(x, ys, key)) == multiset(ys) + multiset{x}
  {
    if |ys| > 0 && key(x) < key(ys[0]) {
      InsertMultiset(x, ys[1..], key);
      assert ys == [ys[0]] + ys[1..];
    }
  }

  /** The stable descending sort (an insertion sort). */
  function SortDesc<T>(xs: seq<T>, key: T -> int): (r: seq<T>)
    ensures |r| == |xs|
    ensures multiset(r) == multiset(xs)
    ensures Descending(r, key)
    ensures forall v :: KeyFilter(r, key, v) == KeyFilter(xs, key, v)
  {
    if |xs| == 0 then []
    else
      var t := SortDesc(xs[1..], key);
      InsertDescending(xs[0], t, key);
      InsertMultiset(xs[0], t, key);
      assert xs == [xs[0]] + xs[1..];
      assert forall v :: KeyFilter(Insert(xs[0], t, key), key, v) == KeyFilter(xs, key, v) by {
        forall v ensures KeyFilter(Insert(xs[0], t, key), key, v) == KeyFilter(xs, key, v) {
          InsertKeyFilter(xs[0], t, key, v);
        }
      }
      Insert(xs[0], t, key)
  }

  lemma {:induction false} CountInsert<T>(x: T, ys: seq<T>, key: T -> int, p: T -> bool)
    ensures Count(Insert(x, ys, key), p) == Count([x], p) + Count(ys, p)
  {
    if |ys| == 0 || key(x) >= key(ys[0]) {
      FilterAppend([x], ys, p);
    } else {
      var t := Insert(x, ys[1..], key);
      CountInsert(x, ys[1..], key, p);
      FilterAppend([ys[0]], t, p);
      FilterAppend([ys[0]], ys[1..], p);
      assert [ys[0]] + ys[1..] == ys;
    }
  }

  /** Sorting neither adds nor drops elements of any kind. */
  lemma {:induction false} SortPreservesCount<T>(xs: seq<T>, key: T -> int, p: T -> bool)
    ensures Count(SortDesc(xs, key), p) == Count(xs, p)
  {
    if |xs| > 0 {
      SortPreservesCount(xs[1..], key, p);
      CountInsert(xs[0], SortDesc(xs[1..], key), key, p);
      FilterAppend([xs[0]], xs[1..], p);
      assert [xs[0]] + xs[1..] == xs;
    }
  }

  lemma {:induction false} SumOfInsert<T>(x: T, ys: seq<T>, key: T -> int, w: T -> int)
    ensures SumOf(Insert(x, ys, key), w) == w(x) + SumOf(ys, w)
  {
    if |ys| > 0 && key(x) < key(ys[0]) {
      SumOfInsert(x, ys[1..], key, w);
      assert Insert(x, ys, key)[1..] == Insert(x, ys[1..], key);
    } else {
      assert Insert(x, ys, key)[1..] == ys;
    }
  }

  /** Sorting keeps every sum over the elements. */
  lemma {:induction false} SortPreservesSumOf<T>(xs: seq<T>, key: T -> int, w: T -> int)
    ensures SumOf(SortDesc(xs, key), w) == SumOf(xs, w)
  {
    if |xs| > 0 {
      SortPreservesSumOf(xs[1..], key, w);
      SumOfInsert(xs[0], SortDesc(xs[1..], key), key, w);
    }
  }

  lemma {:induction false} KeyFilterHead<T>(xs: seq<T>, key: T -> int)
    requires |xs| > 0
    ensures |KeyFilter(xs, key, key(xs[0]))| > 0 && KeyFilter(xs, key, key(xs[0]))[0] == xs[0]
  {
  }

  lemma {:induction false} KeyFilterMember<T>(xs: seq<T>, key: T -> int, v: int)
    requires |KeyFilter(xs, key, v)| > 0
    ensures exists i :: 0 <= i < |xs| && key(xs[i]) == v
  {
    if key(xs[0]) != v {
      KeyFilterMember(xs[1..], key, v);
      var i :| 0 <= i < |xs[1..]| && key(xs[1..][i]) == v;
      assert key(xs[i + 1]) == v;
    }
  }

  /** Two non-empty descending sequences with the same subsequence for
      every key start with the same element. */
  lemma {:induction false} SameHead<T>(a: seq<T>, b: seq<T>, key: T -> int)
    requires |a| > 0 && |b| > 0
    requires Descending(a, key) && Descending(b, key)
    requires forall v :: KeyFilter(a, key, v) == KeyFilter(b, key, v)
    ensures a[0] == b[0]
  {
    var va, vb := key(a[0]), key(b[0]);
    KeyFilterHead(a, key);
    KeyFilterHead(b, key);
    assert KeyFilter(b, key, va) == KeyFilter(a, key, va);
    KeyFilterMember(b, key, va);
    var i :| 0 <= i < |b| && key(b[i]) == va;
    assert vb >= va;
    assert KeyFilter(a, key, vb) == KeyFilter(b, key, vb);
    KeyFilterMember(a, key, vb);
    var j :| 0 <= j < |a| && key(a[j]) == vb;
    assert va >= vb;
  }

  /** Dropping a common head keeps every key's subsequence equal. */
  lemma {:induction false} SameTailFilters<T>(a: seq<T>, b: seq<T>, key: T -> int)
    requires |a| > 0 && |b| > 0 && a[0] == b[0]
    requires forall v :: KeyFilter(a, key, v) == KeyFilter(b, key, v)
    ensures forall v :: KeyFilter(a[1..], key, v) == KeyFilter(b[1..], key, v)
  {
    var va := key(a[0]);
    forall v ensures KeyFilter(a[1..], key, v) == KeyFilter(b[1..], key, v) {
      assert KeyFilter(a, key, v) == KeyFilter(b, key, v);
      assert KeyFilter(a, key, v) == (if va == v then [a[0]] else []) + KeyFilter(a[1..], key, v);
      assert KeyFilter(b, key, v) == (if va == v then [b[0]] else []) + KeyFilter(b[1..], key, v);
      if v == va {
        assert KeyFilter(a, key, v)[1..] == KeyFilter(a[1..], key, v);
        assert KeyFilter(b, key, v)[1..] == KeyFilter(b[1..], key, v);
      } else {
        assert KeyFilter(a, key, v) == KeyFilter(a[1..], key, v);
        assert KeyFilter(b, key, v) == KeyFilter(b[1..], key, v);
      }
    }
  }

  lemma DescendingTail<T>(a: seq<T>, key: T -> int)
    requires |a| > 0 && Descending(a, key)
    ensures Descending(a[1..], key)
  {
    var t := a[1..];
    forall i, j | 0 <= i < j < |t| ensures key(t[i]) >= key(t[j]) {
      assert t[i] == a[i + 1] && t[j] == a[j + 1];
    }
  }

  /** There is only one stable descending arrangement: two descending
      sequences that agree on every key's subsequence are equal. With the
      ensures of SortDesc this makes SortDesc the unique stable sort. */
  lemma {:induction false} StableSortUnique<T>(a: seq<T>, b: seq<T>, key: T -> int)
    requires Descending(a, key) && Descending(b, key)
    requires forall v :: KeyFilter(a, key, v) == KeyFilter(b, key, v)
    ensures a == b
    decreases |a|
  {
    if |a| == 0 {
      if |b| > 0 {
        KeyFilterHead(b, key);
      }
    } else if |b| == 0 {
      KeyFilterHead(a, key);
    } else {
      SameHead(a, b, key);
      SameTailFilters(a, b, key);
      DescendingTail(a, key);
      DescendingTail(b, key);
      StableSortUnique(a[1..], b[1..], key);
      assert a == [a[0]] + a[1..] && b == [b[0]] + b[1..];
    }
  }
}
