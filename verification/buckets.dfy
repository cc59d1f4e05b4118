/** The `by_merchant` / `by_category` accumulation: a dict keyed by bucket
    key, filled with `setdefault` and `+=` in one pass, so buckets appear in
    the order their key was first seen. */
module Buckets {
  import opened Seqs

  datatype Bucket = Bucket(key: string, spend: int, count: nat)

  /** What one admitted record contributes: its bucket key and magnitude. */
  datatype Entry = Entry(key: string, amount: int)

  function KeyList(bs: seq<Bucket>): (r: seq<string>)
    ensures |r| == |bs|
    ensures forall i :: 0 <= i < |bs| ==> r[i] == bs[i].key
  {
    seq(|bs|, i requires 0 <= i < |bs| => bs[i].key)
  }

  predicate DistinctKeys(bs: seq<Bucket>) {
    forall i, j :: 0 <= i < j < |bs| ==> bs[i].key != bs[j].key
  }

  /** Spend and count recorded under key `k` (at most one bucket when the
      keys are distinct). */
  function SpendOf(bs: seq<Bucket>, k: string): int {
    if |bs| == 0 then 0 else (if bs[0].key == k then bs[0].spend else 0) + SpendOf(bs[1..], k)
  }

  function CountOf(bs: seq<Bucket>, k: string): nat {
    if |bs| == 0 then 0 else (if bs[0].key == k then bs[0].count else 0) + CountOf(bs[1..], k)
  }

  function BucketSpend(b: Bucket): int {
    b.spend
  }

  function BucketCount(b: Bucket): int {
    b.count
  }

  function TotalSpend(bs: seq<Bucket>): int {
    SumOf(bs, BucketSpend)
  }

  function TotalCount(bs: seq<Bucket>): int {
    SumOf(bs, BucketCount)
  }

  /** Reference readings of the entries themselves. */
  function EntrySpend(es: seq<Entry>, k: string): int {
    if |es| == 0 then 0 else (if es[0].key == k then es[0].amount else 0) + EntrySpend(es[1..], k)
  }

  function EntryCount(es: seq<Entry>, k: string): nat {
    if |es| == 0 then 0 else (if es[0].key == k then 1 else 0) + EntryCount(es[1..], k)
  }

  function EntryKeys(es: seq<Entry>): (r: seq<string>)
    ensures |r| == |es|
    ensures forall i :: 0 <= i < |es| ==> r[i] == es[i].key
  {
    seq(|es|, i requires 0 <= i < |es| => es[i].key)
  }

  function EntryAmounts(es: seq<Entry>): (r: seq<int>)
    ensures |r| == |es|
    ensures forall i :: 0 <= i < |es| ==> r[i] == es[i].amount
  {
    seq(|es|, i requires 0 <= i < |es| => es[i].amount)
  }

  /** `ks` without repetitions, each key at its first occurrence, appended
      to `seen` (the key order of a Python dict filled from `ks`). */
  function FirstSeen(seen: seq<string>, ks: seq<string>): seq<string>
    decreases |ks|
  {
    if |ks| == 0 then seen
    else FirstSeen(if ks[0] in seen then seen else seen + [ks[0]], ks[1..])
  }

  /** One loop step: `b = d.setdefault(key, {spend: 0, count: 0});
      b.spend += amount; b.count += 1`. */
  function Add(bs: seq<Bucket>, e: Entry): (r: seq<Bucket>)
    ensures |r| > 0
  {
    if |bs| == 0 then [Bucket(e.key, e.amount, 1)]
    else if bs[0].key == e.key then
      [bs[0].(spend := bs[0].spend + e.amount, count := bs[0].count + 1)] + bs[1..]
    else [bs[0]] + Add(bs[1..], e)
  }

  /** Add creates a bucket for a new key at the end and otherwise keeps the
      key order. */
  lemma {:induction false} AddKeys(bs: seq<Bucket>, e: Entry)
    ensures KeyList(Add(bs, e)) == if e.key in KeyList(bs) then KeyList(bs) else KeyList(bs) + [e.key]
  {
    if |bs| > 0 {
      assert KeyList(bs) == [bs[0].key] + KeyList(bs[1..]);
      if bs[0].key != e.key {
        AddKeys(bs[1..], e);
        assert KeyList(Add(bs, e)) == [bs[0].key] + KeyList(Add(bs[1..], e));
      } else {
        assert KeyList(Add(bs, e)) == KeyList(bs);
      }
    }
  }

  lemma AddDistinct(bs: seq<Bucket>, e: Entry)
    requires DistinctKeys(bs)
    ensures DistinctKeys(Add(bs, e))
  {
    var r := Add(bs, e);
    AddKeys(bs, e);
    forall i, j | 0 <= i < j < |r| ensures r[i].key != r[j].key {
      assert KeyList(r)[i] == r[i].key && KeyList(r)[j] == r[j].key;
      if j < |bs| {
        assert KeyList(bs)[i] == bs[i].key && KeyList(bs)[j] == bs[j].key;
      } else {
        assert e.key !in KeyList(bs);
        assert KeyList(bs)[i] == bs[i].key;
      }
    }
  }

  /** Add credits the entry to its own key and to no other. */
  lemma {:induction false} AddAmounts(bs: seq<Bucket>, e: Entry, k: string)
    ensures SpendOf(Add(bs, e), k) == SpendOf(bs, k) + (if k == e.key then e.amount else 0)
    ensures CountOf(Add(bs, e), k) == CountOf(bs, k) + (if k == e.key then 1 else 0)
    ensures TotalSpend(Add(bs, e)) == TotalSpend(bs) + e.amount
    ensures TotalCount(Add(bs, e)) == TotalCount(bs) + 1
  {
    var r := Add(bs, e);
    if |bs| == 0 {
    } else if bs[0].key == e.key {
      assert r[1..] == bs[1..];
    } else {
      AddAmounts(bs[1..], e, k);
      assert r[1..] == Add(bs[1..], e);
    }
  }

  lemma {:induction false} AddPositive(bs: seq<Bucket>, e: Entry)
    requires forall i :: 0 <= i < |bs| ==> bs[i].count > 0
    ensures forall i :: 0 <= i < |Add(bs, e)| ==> Add(bs, e)[i].count > 0
  {
    if |bs| > 0 && bs[0].key != e.key {
      AddPositive(bs[1..], e);
      assert Add(bs, e)[1..] == Add(bs[1..], e);
    }
  }

  function GroupInto(acc: seq<Bucket>, es: seq<Entry>): seq<Bucket>
    decreases |es|
  {
    if |es| == 0 then acc else GroupInto(Add(acc, es[0]), es[1..])
  }

  /** Grouping keeps keys distinct and counts positive. */
  lemma {:induction false} GroupIntoWellFormed(acc: seq<Bucket>, es: seq<Entry>)
    requires DistinctKeys(acc)
    requires forall i :: 0 <= i < |acc| ==> acc[i].count > 0
    ensures DistinctKeys(GroupInto(acc, es))
    ensures forall i :: 0 <= i < |GroupInto(acc, es)| ==> GroupInto(acc, es)[i].count > 0
    decreases |es|
  {
    if |es| > 0 {
      var acc' := Add(acc, es[0]);
      AddDistinct(acc, es[0]);
      AddPositive(acc, es[0]);
      GroupIntoWellFormed(acc', es[1..]);
      assert GroupInto(acc, es) == GroupInto(acc', es[1..]);
    }
  }

  /** Grouping lists the keys in first-seen order. */
  lemma {:induction false} GroupIntoKeys(acc: seq<Bucket>, es: seq<Entry>)
    ensures KeyList(GroupInto(acc, es)) == FirstSeen(KeyList(acc), EntryKeys(es))
    decreases |es|
  {
    if |es| > 0 {
      var acc' := Add(acc, es[0]);
      AddKeys(acc, es[0]);
      GroupIntoKeys(acc', es[1..]);
      assert EntryKeys(es)[0] == es[0].key && EntryKeys(es)[1..] == EntryKeys(es[1..]);
      assert GroupInto(acc, es) == GroupInto(acc', es[1..]);
    }
  }

  /** Grouping credits every entry to its own key. */
  lemma {:induction false} GroupIntoAmounts(acc: seq<Bucket>, es: seq<Entry>, k: string)
    ensures SpendOf(GroupInto(acc, es), k) == SpendOf(acc, k) + EntrySpend(es, k)
    ensures CountOf(GroupInto(acc, es), k) == CountOf(acc, k) + EntryCount(es, k)
    decreases |es|
  {
    if |es| > 0 {
      AddAmounts(acc, es[0], k);
      GroupIntoAmounts(Add(acc, es[0]), es[1..], k);
    }
  }

  /** Grouping loses no spend and no count. */
  lemma {:induction false} GroupIntoTotals(acc: seq<Bucket>, es: seq<Entry>)
    ensures TotalSpend(GroupInto(acc, es)) == TotalSpend(acc) + Sum(EntryAmounts(es))
    ensures TotalCount(GroupInto(acc, es)) == TotalCount(acc) + |es|
    decreases |es|
  {
    if |es| > 0 {
      AddAmounts(acc, es[0], "");
      GroupIntoTotals(Add(acc, es[0]), es[1..]);
      assert EntryAmounts(es) == [es[0].amount] + EntryAmounts(es[1..]);
    }
  }

  /** The grouping of the whole pass. */
  function Group(es: seq<Entry>): (r: seq<Bucket>)
    ensures DistinctKeys(r)
    ensures forall i :: 0 <= i < |r| ==> r[i].count > 0
    ensures KeyList(r) == FirstSeen([], EntryKeys(es))
    ensures forall k :: SpendOf(r, k) == EntrySpend(es, k)
    ensures forall k :: CountOf(r, k) == EntryCount(es, k)
    ensures TotalSpend(r) == Sum(EntryAmounts(es))
    ensures TotalCount(r) == |es|
  {
    GroupIntoWellFormed([], es);
    GroupIntoKeys([], es);
    GroupIntoTotals([], es);
    forall k ensures SpendOf(GroupInto([], es), k) == EntrySpend(es, k) && CountOf(GroupInto([], es), k) == EntryCount(es, k) {
      GroupIntoAmounts([], es, k);
    }
    GroupInto([], es)
  }

  lemma {:induction false} GroupIntoSnoc(acc: seq<Bucket>, es: seq<Entry>, e: Entry)
    ensures GroupInto(acc, es + [e]) == Add(GroupInto(acc, es), e)
    decreases |es|
  {
    if |es| > 0 {
      assert (es + [e])[1..] == es[1..] + [e];
      GroupIntoSnoc(Add(acc, es[0]), es[1..], e);
    } else {
      assert es + [e] == [e];
    }
  }

  /** One more record in the pass is one more `Add` (the loop body). */
  lemma GroupSnoc(es: seq<Entry>, e: Entry)
    ensures Group(es + [e]) == Add(Group(es), e)
  {
    GroupIntoSnoc([], es, e);
  }

  /** With distinct keys, the bucket holding `k` carries the whole spend and
      count recorded under `k`. */
  lemma {:induction false} BucketCarriesKey(bs: seq<Bucket>, i: nat)
    requires DistinctKeys(bs) && i < |bs|
    ensures SpendOf(bs, bs[i].key) == bs[i].spend
    ensures CountOf(bs, bs[i].key) == bs[i].count
  {
    if i > 0 {
      assert bs[1..][i - 1] == bs[i];
      BucketCarriesKey(bs[1..], i - 1);
    } else {
      AbsentKey(bs[1..], bs[0].key);
    }
  }

  lemma {:induction false} AbsentKey(bs: seq<Bucket>, k: string)
    requires forall i :: 0 <= i < |bs| ==> bs[i].key != k
    ensures SpendOf(bs, k) == 0 && CountOf(bs, k) == 0
  {
    if |bs| > 0 {
      AbsentKey(bs[1..], k);
    }
  }

  /** Every bucket of a grouping totals exactly the entries with its key. */
  lemma GroupBucketExact(es: seq<Entry>, i: nat)
    requires i < |Group(es)|
    ensures Group(es)[i].spend == EntrySpend(es, Group(es)[i].key)
    ensures Group(es)[i].count == EntryCount(es, Group(es)[i].key)
  {
    BucketCarriesKey(Group(es), i);
  }

  lemma {:induction false} TotalsSplit(a: seq<Bucket>, b: seq<Bucket>)
    ensures TotalSpend(a + b) == TotalSpend(a) + TotalSpend(b)
    ensures TotalCount(a + b) == TotalCount(a) + TotalCount(b)
  {
    if |a| > 0 {
      assert (a + b)[1..] == a[1..] + b;
      TotalsSplit(a[1..], b);
    } else {
      assert a + b == b;
    }
  }

  /** With distinct keys no bucket occurs twice. */
  lemma {:induction false} DistinctOnce(bs: seq<Bucket>, b: Bucket)
    requires DistinctKeys(bs)
    ensures multiset(bs)[b] <= 1
  {
    if |bs| > 0 {
      var rest := bs[1..];
      assert bs == [bs[0]] + rest;
      assert DistinctKeys(rest) by {
        forall i, j | 0 <= i < j < |rest| ensures rest[i].key != rest[j].key {
          assert rest[i] == bs[i + 1] && rest[j] == bs[j + 1];
        }
      }
      DistinctOnce(rest, b);
      if bs[0] == b {
        forall j | 0 <= j < |rest| ensures rest[j] != b {
          assert rest[j] == bs[j + 1];
        }
        assert b !in rest;
      }
    }
  }

  /** A key with a positive count has a bucket. */
  lemma {:induction false} CountedKeyPresent(bs: seq<Bucket>, k: string)
    requires CountOf(bs, k) > 0
    ensures exists j :: 0 <= j < |bs| && bs[j].key == k
  {
    if bs[0].key != k {
      CountedKeyPresent(bs[1..], k);
      var j :| 0 <= j < |bs[1..]| && bs[1..][j].key == k;
      assert bs[j + 1].key == k;
    }
  }

  lemma {:induction false} EntryCounted(es: seq<Entry>, i: nat)
    requires i < |es|
    ensures EntryCount(es, es[i].key) > 0
  {
    if i > 0 {
      assert es[1..][i - 1] == es[i];
      EntryCounted(es[1..], i - 1);
    }
  }

  /** Every entry's key has a bucket in the grouping. */
  lemma GroupCovers(es: seq<Entry>, i: nat)
    requires i < |es|
    ensures exists j :: 0 <= j < |Group(es)| && Group(es)[j].key == es[i].key
  {
    EntryCounted(es, i);
    CountedKeyPresent(Group(es), es[i].key);
  }
}
