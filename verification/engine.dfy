/** The banking window analytics engine. The repository holds two copies of
    it (the director's `bank_window_summary` and the A2A
    `bank_window_summary_tool`); both are instances of one engine, told apart
    by a Variant. */
module Engine {
  import opened Options
  import opened Text
  import opened Seqs
  import opened StableSort
  import opened TimeWindow
  import opened Ledger
  import opened Buckets
  import opened Anomalies
  import opened ReportText

  /** Which recurring charges the findings list: all of them (director), or
      only those due inside the window or without a due date (A2A). */
  datatype RecurringScope = AllCharges | WindowedCharges

  /** The key the buckets are sorted on: the spend after `round(.., 2)`
      (director) or before it (A2A). */
  datatype SortKey = RoundedSpend | UnroundedSpend

  datatype Variant = Variant(recurring: RecurringScope, sortKey: SortKey)

  const DirectorCopy: Variant := Variant(AllCharges, RoundedSpend)
  const A2ACopy: Variant := Variant(WindowedCharges, UnroundedSpend)

  /** The tool's arguments: the bank document (`inline_json`), the optional
      window, the currency and the trace id. */
  datatype Request = Request(bank: Bank, window: Option<WindowSpec>, currency: Option<string>, traceId: Option<string>)

  datatype Totals = Totals(spend: int, count: nat)

  datatype Findings = Findings(
    totals: Totals,
    byMerchant: seq<Bucket>,
    byCategory: seq<Bucket>,
    recurring: seq<RecurringCharge>,
    anomalies: seq<Anomaly>)

  /** The returned envelope `{status, data: {findings}, summary, sms, error, traceId}`. */
  datatype Report = Report(
    status: string,
    findings: Findings,
    summary: string,
    sms: string,
    error: Option<string>,
    traceId: Option<string>)

  // ---------------------------------------------------------------------
  // Admission.

  /** The loop's two `continue` tests: the record's instant (posted, else
      created) lies in the window, and its type is `debit` in any case. */
  function Admits(parse: IsoParser, w: Window): (admit: Tagged -> bool)
    ensures forall t: Tagged :: admit(t) ==> IsDebit(t.txn) && InstantOf(parse, t.txn).Some?
    ensures forall t: Tagged :: !Present(t.txn.postedAt) && !Present(t.txn.createdAt) ==> !admit(t)
    ensures forall t: Tagged :: Present(t.txn.postedAt) ==>
              (admit(t) <==> IsDebit(t.txn) && InWindow(parse(t.txn.postedAt.value), w))
    ensures forall t: Tagged :: !Present(t.txn.postedAt) && Present(t.txn.createdAt) ==>
              (admit(t) <==> IsDebit(t.txn) && InWindow(parse(t.txn.createdAt.value), w))
  {
    (t: Tagged) => InWindow(InstantOf(parse, t.txn), w) && IsDebit(t.txn)
  }

  function MerchantEntry(t: Tagged): Entry {
    Entry(MerchantKey(t.txn), Magnitude(t.txn))
  }

  function CategoryEntry(t: Tagged): Entry {
    Entry(CategoryKey(t.txn), Magnitude(t.txn))
  }

  // ---------------------------------------------------------------------
  // Bucket order.

  /** `round(x, 2)`: amounts are whole cents, so rounding to two decimals
      leaves them as they are. */
  function Round2(cents: int): int {
    cents
  }

  function SpendKey(v: Variant): Bucket -> int {
    match v.sortKey
    case RoundedSpend => (b: Bucket) => Round2(b.spend)
    case UnroundedSpend => (b: Bucket) => b.spend
  }

  lemma SpendKeyIsSpend(v: Variant)
    ensures forall b :: SpendKey(v)(b) == BucketSpend(b)
  {
  }

  lemma {:induction false} KeyFilterSameKey<T>(xs: seq<T>, k1: T -> int, k2: T -> int, val: int)
    requires forall i :: 0 <= i < |xs| ==> k1(xs[i]) == k2(xs[i])
    ensures KeyFilter(xs, k1, val) == KeyFilter(xs, k2, val)
  {
    if |xs| > 0 {
      KeyFilterSameKey(xs[1..], k1, k2, val);
    }
  }

  /** Stable sorting on two keys that agree on every element gives the same
      order. */
  lemma SortSameKey<T>(xs: seq<T>, k1: T -> int, k2: T -> int)
    requires forall i :: 0 <= i < |xs| ==> k1(xs[i]) == k2(xs[i])
    ensures SortDesc(xs, k1) == SortDesc(xs, k2)
  {
    var a, b := SortDesc(xs, k1), SortDesc(xs, k2);
    forall i | 0 <= i < |a| ensures k1(a[i]) == k2(a[i]) {
      assert a[i] in multiset(xs);
      var j :| 0 <= j < |xs| && xs[j] == a[i];
    }
    assert Descending(a, k2) by {
      forall i, j | 0 <= i < j < |a| ensures k2(a[i]) >= k2(a[j]) {
        assert k1(a[i]) >= k1(a[j]);
      }
    }
    forall val ensures KeyFilter(a, k2, val) == KeyFilter(b, k2, val) {
      KeyFilterSameKey(a, k1, k2, val);
      KeyFilterSameKey(xs, k1, k2, val);
    }
    StableSortUnique(a, b, k2);
  }

  /** On whole cents the director's rounded key and the A2A unrounded key
      sort the buckets identically. With float sums they need not: the
      rounded key can tie two buckets that the unrounded key separates. */
  lemma SortKeysAgree(bs: seq<Bucket>)
    ensures SortDesc(bs, SpendKey(DirectorCopy)) == SortDesc(bs, SpendKey(A2ACopy))
  {
    SpendKeyIsSpend(DirectorCopy);
    SpendKeyIsSpend(A2ACopy);
    SortSameKey(bs, SpendKey(DirectorCopy), SpendKey(A2ACopy));
  }

  /** Sorting buckets on either variant's key orders them by spend, keeps
      buckets of equal spend in their original order and loses none. */
  lemma SortedBySpend(v: Variant, bs: seq<Bucket>)
    ensures multiset(SortDesc(bs, SpendKey(v))) == multiset(bs)
    ensures Descending(SortDesc(bs, SpendKey(v)), BucketSpend)
    ensures forall val :: KeyFilter(SortDesc(bs, SpendKey(v)), BucketSpend, val) == KeyFilter(bs, BucketSpend, val)
  {
    var s := SortDesc(bs, SpendKey(v));
    SpendKeyIsSpend(v);
    forall val ensures KeyFilter(s, BucketSpend, val) == KeyFilter(bs, BucketSpend, val) {
      KeyFilterSameKey(s, SpendKey(v), BucketSpend, val);
      KeyFilterSameKey(bs, SpendKey(v), BucketSpend, val);
    }
  }

  /** Sorting a grouping leaves every bucket holding exactly its key's
      entries. */
  lemma SortedExact(v: Variant, es: seq<Entry>)
    ensures var s := SortDesc(Group(es), SpendKey(v));
      forall i :: 0 <= i < |s| ==>
        && s[i].spend == EntrySpend(es, s[i].key)
        && s[i].count == EntryCount(es, s[i].key)
        && s[i].count > 0
  {
    var g := Group(es);
    var s := SortDesc(g, SpendKey(v));
    forall i | 0 <= i < |s|
      ensures s[i].spend == EntrySpend(es, s[i].key) && s[i].count == EntryCount(es, s[i].key) && s[i].count > 0
    {
      assert s[i] in multiset(g);
      var j :| 0 <= j < |g| && g[j] == s[i];
      GroupBucketExact(es, j);
    }
  }

  /** Sorting a grouping keeps one bucket per key, and the key of every
      entry has its bucket. */
  lemma SortedKeys(v: Variant, es: seq<Entry>)
    ensures var s := SortDesc(Group(es), SpendKey(v));
      && DistinctKeys(s)
      && forall i :: 0 <= i < |es| ==> exists j :: 0 <= j < |s| && s[j].key == es[i].key
  {
    var g := Group(es);
    var s := SortDesc(g, SpendKey(v));
    SortedExact(v, es);
    forall i, j | 0 <= i < j < |s| ensures s[i].key != s[j].key {
      if s[i].key == s[j].key {
        assert s[i] == s[j];
        Twice(s, i, j);
        DistinctOnce(g, s[i]);
        assert false;
      }
    }
    forall i | 0 <= i < |es| ensures exists j :: 0 <= j < |s| && s[j].key == es[i].key {
      GroupCovers(es, i);
      var j :| 0 <= j < |g| && g[j].key == es[i].key;
      assert g[j] in multiset(s);
      var k :| 0 <= k < |s| && s[k] == g[j];
    }
  }

  /** `sorted(d.values(), key=spend, reverse=True)` over the grouping of the
      entries: descending by spend with ties in first-seen order, every
      bucket holding exactly the spend and count of the entries with its
      key, and the totals kept. */
  function SortBuckets(v: Variant, es: seq<Entry>): (s: seq<Bucket>)
    ensures multiset(s) == multiset(Group(es))
    ensures DistinctKeys(s)
    ensures forall i :: 0 <= i < |es| ==> exists j :: 0 <= j < |s| && s[j].key == es[i].key
    ensures Descending(s, BucketSpend)
    ensures forall val :: KeyFilter(s, BucketSpend, val) == KeyFilter(Group(es), BucketSpend, val)
    ensures forall i :: 0 <= i < |s| ==>
              && s[i].spend == EntrySpend(es, s[i].key)
              && s[i].count == EntryCount(es, s[i].key)
              && s[i].count > 0
    ensures TotalSpend(s) == Sum(EntryAmounts(es))
    ensures TotalCount(s) == |es|
  {
    SortedBySpend(v, Group(es));
    SortedExact(v, es);
    SortedKeys(v, es);
    SortPreservesSumOf(Group(es), SpendKey(v), BucketSpend);
    SortPreservesSumOf(Group(es), SpendKey(v), BucketCount);
    SortDesc(Group(es), SpendKey(v))
  }

  // ---------------------------------------------------------------------
  // Recurring charges.

  /** The A2A filter: the charge's `next_charge` parses to an instant in the
      window, or the charge has no `next_charge` at all. */
  function InScope(parse: IsoParser, w: Window): RecurringCharge -> bool {
    (c: RecurringCharge) => InWindow(ParseStamp(parse, c.nextCharge), w) || c.nextCharge.None?
  }

  function RecurringIn(v: Variant, parse: IsoParser, w: Window, charges: seq<RecurringCharge>): (r: seq<RecurringCharge>)
    ensures v.recurring == AllCharges ==> r == charges
    ensures v.recurring == WindowedCharges ==>
              && (forall i :: 0 <= i < |r| ==> r[i] in charges && InScope(parse, w)(r[i]))
              && (forall i :: 0 <= i < |charges| && InScope(parse, w)(charges[i]) ==> charges[i] in r)
              && (forall c :: multiset(r)[c] == if InScope(parse, w)(c) then multiset(charges)[c] else 0)
  {
    match v.recurring
    case AllCharges => charges
    case WindowedCharges =>
      FilterMultiset(charges, InScope(parse, w));
      Filter(charges, InScope(parse, w))
  }

  /** The listing grows with the charge list one charge at a time, keeping
      the order: a charge appended to the list is appended to the listing
      when the variant keeps it, and nothing else changes. */
  lemma RecurringSnoc(v: Variant, parse: IsoParser, w: Window, charges: seq<RecurringCharge>, c: RecurringCharge)
    ensures RecurringIn(v, parse, w, []) == []
    ensures RecurringIn(v, parse, w, charges + [c])
              == RecurringIn(v, parse, w, charges) + (if v.recurring == AllCharges || InScope(parse, w)(c) then [c] else [])
  {
    if v.recurring == WindowedCharges {
      FilterSnoc(charges, c, InScope(parse, w));
    }
  }

  /** A charge with no due date is always listed; one whose due date is
      present but unreadable never is. */
  lemma RecurringDueDates(v: Variant, parse: IsoParser, w: Window, charges: seq<RecurringCharge>, i: nat)
    requires i < |charges|
    ensures charges[i].nextCharge.None? ==> charges[i] in RecurringIn(v, parse, w, charges)
    ensures v.recurring == WindowedCharges && charges[i].nextCharge.Some?
              && ParseStamp(parse, charges[i].nextCharge).None? ==>
              forall j :: 0 <= j < |RecurringIn(v, parse, w, charges)| ==> RecurringIn(v, parse, w, charges)[j] != charges[i]
  {
  }

  // ---------------------------------------------------------------------
  // The findings.

  lemma {:induction false} SumNonNegative(xs: seq<int>)
    requires forall i :: 0 <= i < |xs| ==> xs[i] >= 0
    ensures Sum(xs) >= 0
  {
    if |xs| > 0 {
      SumNonNegative(xs[1..]);
    }
  }

  /** Both entry lists carry the admitted magnitudes, whose sum is never
      negative. */
  lemma EntryAmountsAreMagnitudes(adm: seq<Tagged>)
    ensures EntryAmounts(Map(adm, MerchantEntry)) == Magnitudes(adm)
    ensures EntryAmounts(Map(adm, CategoryEntry)) == Magnitudes(adm)
    ensures Sum(Magnitudes(adm)) >= 0
  {
    assert EntryAmounts(Map(adm, MerchantEntry)) == Magnitudes(adm);
    assert EntryAmounts(Map(adm, CategoryEntry)) == Magnitudes(adm);
    SumNonNegative(Magnitudes(adm));
  }

  /** `by_merchant`, sorted: a rearrangement of the grouping with one bucket
      for every admitted merchant key, each holding exactly the admitted
      spend and count under its key, descending by spend with ties in
      first-seen order, and together holding all of the admitted spend and
      records. */
  function MerchantBuckets(v: Variant, adm: seq<Tagged>): (s: seq<Bucket>)
    ensures multiset(s) == multiset(Group(Map(adm, MerchantEntry)))
    ensures DistinctKeys(s)
    ensures forall i :: 0 <= i < |adm| ==> exists j :: 0 <= j < |s| && s[j].key == MerchantKey(adm[i].txn)
    ensures Descending(s, BucketSpend)
    ensures forall val :: KeyFilter(s, BucketSpend, val) == KeyFilter(Group(Map(adm, MerchantEntry)), BucketSpend, val)
    ensures TotalSpend(s) == Sum(Magnitudes(adm)) && TotalCount(s) == |adm|
    ensures forall i :: 0 <= i < |s| ==>
              && s[i].spend == EntrySpend(Map(adm, MerchantEntry), s[i].key)
              && s[i].count == EntryCount(Map(adm, MerchantEntry), s[i].key)
  {
    EntryAmountsAreMagnitudes(adm);
    SortBuckets(v, Map(adm, MerchantEntry))
  }


  /** `by_category`, sorted, with the same guarantees per category key. */
  function CategoryBuckets(v: Variant, adm: seq<Tagged>): (s: seq<Bucket>)
    ensures multiset(s) == multiset(Group(Map(adm, CategoryEntry)))
    ensures DistinctKeys(s)
    ensures forall i :: 0 <= i < |adm| ==> exists j :: 0 <= j < |s| && s[j].key == CategoryKey(adm[i].txn)
    ensures Descending(s, BucketSpend)
    ensures forall val :: KeyFilter(s, BucketSpend, val) == KeyFilter(Group(Map(adm, CategoryEntry)), BucketSpend, val)
    ensures TotalSpend(s) == Sum(Magnitudes(adm)) && TotalCount(s) == |adm|
    ensures forall i :: 0 <= i < |s| ==>
              && s[i].spend == EntrySpend(Map(adm, CategoryEntry), s[i].key)
              && s[i].count == EntryCount(Map(adm, CategoryEntry), s[i].key)
  {
    EntryAmountsAreMagnitudes(adm);
    SortBuckets(v, Map(adm, CategoryEntry))
  }


  /** The findings once the admitted records `adm` are known: totals,
      both bucket lists, the recurring list and the anomalies. */
  function FromAdmitted(v: Variant, parse: IsoParser, w: Window, adm: seq<Tagged>, charges: seq<RecurringCharge>): (f: Findings)
    ensures f.totals.count == |adm|
    ensures f.totals.spend == Sum(Magnitudes(adm)) >= 0
    ensures TotalCount(f.byMerchant) == f.totals.count && TotalCount(f.byCategory) == f.totals.count
    ensures TotalSpend(f.byMerchant) == f.totals.spend && TotalSpend(f.byCategory) == f.totals.spend
    ensures f.byMerchant == MerchantBuckets(v, adm) && f.byCategory == CategoryBuckets(v, adm)
    ensures f.recurring == RecurringIn(v, parse, w, charges)
    ensures f.anomalies == DetectAnomalies(adm)
  {
    EntryAmountsAreMagnitudes(adm);
    Findings(
      Totals(Sum(Magnitudes(adm)), |adm|),
      MerchantBuckets(v, adm),
      CategoryBuckets(v, adm),
      RecurringIn(v, parse, w, charges),
      DetectAnomalies(adm))
  }

  /** The findings over the flattened records `txns` and the recurring
      charges `charges`: every admitted record, and only those, feeds the
      totals, the buckets and the anomalies. */
  function Analyze(v: Variant, parse: IsoParser, w: Window, txns: seq<Tagged>, charges: seq<RecurringCharge>): Findings {
    FromAdmitted(v, parse, w, Filter(txns, Admits(parse, w)), charges)
  }

  function FindingsOf(v: Variant, parse: IsoParser, req: Request): Findings {
    Analyze(v, parse, ResolveWindow(parse, req.window), FlattenTxns(req.bank), AllRecurring(req.bank))
  }

  /** A record that is not admitted (a credit, or a record outside the
      window or without a readable instant) changes nothing but the
      recurring list, wherever it appears among the records. */
  lemma NotAdmittedIgnored(v: Variant, parse: IsoParser, w: Window, a: seq<Tagged>, b: seq<Tagged>, t: Tagged, charges: seq<RecurringCharge>)
    requires !Admits(parse, w)(t)
    ensures Analyze(v, parse, w, a + [t] + b, charges) == Analyze(v, parse, w, a + b, charges)
  {
    FilterSkip(a, t, b, Admits(parse, w));
  }

  /** In particular a credit never reaches the totals, the buckets or the
      anomalies. */
  lemma CreditIgnored(v: Variant, parse: IsoParser, w: Window, a: seq<Tagged>, b: seq<Tagged>, t: Tagged, charges: seq<RecurringCharge>)
    requires !IsDebit(t.txn)
    ensures Analyze(v, parse, w, a + [t] + b, charges) == Analyze(v, parse, w, a + b, charges)
  {
    NotAdmittedIgnored(v, parse, w, a, b, t, charges);
  }

  /** On whole cents both copies list the same buckets in the same order. */
  lemma SortBucketsAgree(es: seq<Entry>)
    ensures SortBuckets(DirectorCopy, es) == SortBuckets(A2ACopy, es)
  {
    SortKeysAgree(Group(es));
  }

  lemma FromAdmittedAgree(parse: IsoParser, w: Window, adm: seq<Tagged>, charges: seq<RecurringCharge>)
    ensures FromAdmitted(DirectorCopy, parse, w, adm, charges).(recurring := [])
            == FromAdmitted(A2ACopy, parse, w, adm, charges).(recurring := [])
  {
    SortBucketsAgree(Map(adm, MerchantEntry));
    SortBucketsAgree(Map(adm, CategoryEntry));
    assert MerchantBuckets(DirectorCopy, adm) == MerchantBuckets(A2ACopy, adm);
    assert CategoryBuckets(DirectorCopy, adm) == CategoryBuckets(A2ACopy, adm);
  }

  /** On whole cents the two copies report the same totals, buckets and
      anomalies; they differ only in the recurring list. */
  lemma CopiesAgree(parse: IsoParser, req: Request)
    ensures FindingsOf(DirectorCopy, parse, req).(recurring := []) == FindingsOf(A2ACopy, parse, req).(recurring := [])
  {
    var w := ResolveWindow(parse, req.window);
    FromAdmittedAgree(parse, w, Filter(FlattenTxns(req.bank), Admits(parse, w)), AllRecurring(req.bank));
  }

  /** The A2A copy lists a subset of the director's recurring charges. */
  lemma WindowedRecurringSubset(parse: IsoParser, req: Request)
    ensures forall i :: 0 <= i < |FindingsOf(A2ACopy, parse, req).recurring| ==>
              FindingsOf(A2ACopy, parse, req).recurring[i] in FindingsOf(DirectorCopy, parse, req).recurring
  {
    var w, charges := ResolveWindow(parse, req.window), AllRecurring(req.bank);
    var windowed, all := RecurringIn(A2ACopy, parse, w, charges), RecurringIn(DirectorCopy, parse, w, charges);
    assert FindingsOf(A2ACopy, parse, req).recurring == windowed;
    assert FindingsOf(DirectorCopy, parse, req).recurring == all;
    assert forall i :: 0 <= i < |windowed| ==> windowed[i] in all;
  }

  // ---------------------------------------------------------------------
  // The envelope.

  /** The whole call, as a reference for the loop in BankWindowSummary. */
  function Summarize(v: Variant, parse: IsoParser, req: Request): (r: Report)
    ensures r.status == "ok" && r.error == None && r.traceId == req.traceId
    ensures r.findings == FindingsOf(v, parse, req)
    ensures EndsWith(r.summary, AnomalyClauseEnd) <==> |r.findings.anomalies| > 0
    ensures |r.findings.anomalies| > 0 ==>
              EndsWith(r.summary, " Flagged " + NatToString(|r.findings.anomalies|) + AnomalyClauseEnd)
    ensures r.summary == SummaryText(CaptionText(CaptionOf(ResolveWindow(parse, req.window))), CurrencyCode(req.currency),
                                     r.findings.totals.spend, r.findings.totals.count, |r.findings.anomalies|)
    ensures r.sms == SmsText(CaptionText(CaptionOf(ResolveWindow(parse, req.window))), CurrencyCode(req.currency),
                             r.findings.totals.spend, r.findings.totals.count)
  {
    var w := ResolveWindow(parse, req.window);
    var f := FindingsOf(v, parse, req);
    var caption := CaptionText(CaptionOf(w));
    var currency := CurrencyCode(req.currency);
    SummaryAnomalyClause(caption, currency, f.totals.spend, f.totals.count, |f.anomalies|);
    Report(
      "ok",
      f,
      SummaryText(caption, currency, f.totals.spend, f.totals.count, |f.anomalies|),
      SmsText(caption, currency, f.totals.spend, f.totals.count),
      None,
      req.traceId)
  }

  /** One iteration of the pass: a record the pass admits is appended to
      the debits and added to both bucket maps; any other record changes
      nothing. The bucket maps are tracked through the raw fold
      `GroupInto`, which `Group` starts from the empty list. */
  lemma CollectStep(parse: IsoParser, w: Window, done: seq<Tagged>, t: Tagged)
    ensures var p := Admits(parse, w);
      var adm, adm' := Filter(done, p), Filter(done + [t], p);
      if p(t) then
        && adm' == adm + [t]
        && Magnitudes(adm') == Magnitudes(adm) + [Magnitude(t.txn)]
        && GroupInto([], Map(adm', MerchantEntry)) == Add(GroupInto([], Map(adm, MerchantEntry)), MerchantEntry(t))
        && GroupInto([], Map(adm', CategoryEntry)) == Add(GroupInto([], Map(adm, CategoryEntry)), CategoryEntry(t))
      else adm' == adm
  {
    var p := Admits(parse, w);
    var adm := Filter(done, p);
    FilterSnoc(done, t, p);
    if p(t) {
      MapSnoc(adm, t, MerchantEntry);
      MapSnoc(adm, t, CategoryEntry);
      MapSnoc(adm, t, MagnitudeKey);
      GroupIntoSnoc([], Map(adm, MerchantEntry), MerchantEntry(t));
      GroupIntoSnoc([], Map(adm, CategoryEntry), CategoryEntry(t));
    }
  }

  /** The source's single pass over the flattened records: skip records
      outside the window, skip non-debits, and for each debit append its
      magnitude and record and add it to both bucket maps. */
  method CollectDebits(parse: IsoParser, w: Window, txns: seq<Tagged>)
    returns (debits: seq<int>, debitTxns: seq<Tagged>, byMerchant: seq<Bucket>, byCategory: seq<Bucket>)
    ensures debitTxns == Filter(txns, Admits(parse, w))
    ensures debits == Magnitudes(debitTxns)
    ensures byMerchant == Group(Map(debitTxns, MerchantEntry))
    ensures byCategory == Group(Map(debitTxns, CategoryEntry))
  {
    debits, debitTxns, byMerchant, byCategory := [], [], [], [];
    var i := 0;
    while i < |txns|
      invariant 0 <= i <= |txns|
      invariant debitTxns == Filter(txns[..i], Admits(parse, w))
      invariant debits == Magnitudes(debitTxns)
      invariant byMerchant == GroupInto([], Map(debitTxns, MerchantEntry))
      invariant byCategory == GroupInto([], Map(debitTxns, CategoryEntry))
    {
      var t := txns[i];
      assert txns[..i + 1] == txns[..i] + [t];
      CollectStep(parse, w, txns[..i], t);
      if InWindow(InstantOf(parse, t.txn), w) && IsDebit(t.txn) {
        debits := debits + [Magnitude(t.txn)];
        debitTxns := debitTxns + [t];
        byMerchant := Add(byMerchant, MerchantEntry(t));
        byCategory := Add(byCategory, CategoryEntry(t));
      }
      i := i + 1;
    }
    assert txns[..i] == txns;
    assert byMerchant == Group(Map(debitTxns, MerchantEntry));
  }

  /** The engine as the source writes it: the pass above, then the totals,
      the sorted buckets, the recurring list, the anomalies (only when there
      are debits) and the envelope. */
  method BankWindowSummary(v: Variant, parse: IsoParser, req: Request) returns (r: Report)
    ensures r == Summarize(v, parse, req)
  {
    var w := ResolveWindow(parse, req.window);
    var currency := CurrencyCode(req.currency);
    var debits, debitTxns, byMerchant, byCategory := CollectDebits(parse, w, FlattenTxns(req.bank));
    var totals := Totals(Sum(debits), |debits|);
    var anomalies := if |debits| > 0 then DetectAnomalies(debitTxns) else [];
    var findings := Findings(
      totals,
      SortDesc(byMerchant, SpendKey(v)),
      SortDesc(byCategory, SpendKey(v)),
      RecurringIn(v, parse, w, AllRecurring(req.bank)),
      anomalies);
    assert findings == FromAdmitted(v, parse, w, debitTxns, AllRecurring(req.bank));
    var caption := CaptionText(CaptionOf(w));
    r := Report(
      "ok",
      findings,
      SummaryText(caption, currency, findings.totals.spend, totals.count, |anomalies|),
      SmsText(caption, currency, findings.totals.spend, totals.count),
      None,
      req.traceId);
  }
}
