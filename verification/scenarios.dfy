/** Worked cases of the engine on small ledgers, for any timestamp parser
    that can read the one stamp the records carry. */
module Scenarios {
  import opened Options
  import opened Text
  import opened Seqs
  import opened TimeWindow
  import opened Ledger
  import opened Buckets
  import opened Anomalies
  import opened ReportText
  import opened Engine

  /** A $42.53 card purchase at a named merchant. */
  function Coffee(stamp: string): Txn {
    Txn(Some(stamp), None, Some(-4253), Some("debit"), Some("Flat white"),
        Some(MerchantInfo(Some("Blue Bottle"), Some("Dining"))), None)
  }

  /** A $100.00 refund posted at the same instant. */
  function Refund(stamp: string): Txn {
    Txn(Some(stamp), None, Some(10000), Some("credit"), Some("Refund"), None, None)
  }

  function SingleAccount(txns: seq<Txn>): Bank {
    Bank(Some(User(Some([Account(Some("Checking"), None, Some(txns), None)]))))
  }

  lemma SingleAccountRecords(txns: seq<Txn>)
    ensures |FlattenTxns(SingleAccount(txns))| == |txns|
    ensures forall k :: 0 <= k < |txns| ==> FlattenTxns(SingleAccount(txns))[k] == Tagged(txns[k], Some("Checking"))
  {
    var bank := SingleAccount(txns);
    var a := Account(Some("Checking"), None, Some(txns), None);
    assert Accounts(bank) == [a];
    assert Sum(Map([a], TxnCount)) == |txns|;
    var r := FlattenTxns(bank);
    forall k | 0 <= k < |r| ensures r[k] == Tagged(txns[k], Some("Checking")) {
      assert TagAll(a)[k] == Tagged(txns[k], Some("Checking"));
    }
  }

  /** With no window, the debit is admitted and the credit is not. */
  lemma DebitAndCreditAdmitted(parse: IsoParser, stamp: string)
    requires stamp != "" && parse(stamp).Some?
    ensures Filter(FlattenTxns(SingleAccount([Coffee(stamp), Refund(stamp)])), Admits(parse, Window(None, None)))
              == [Tagged(Coffee(stamp), Some("Checking"))]
  {
    var p := Admits(parse, Window(None, None));
    var coffee, refund := Tagged(Coffee(stamp), Some("Checking")), Tagged(Refund(stamp), Some("Checking"));
    assert FlattenTxns(SingleAccount([Coffee(stamp), Refund(stamp)])) == [coffee] + [refund] by {
      var txns := [Coffee(stamp), Refund(stamp)];
      SingleAccountRecords(txns);
      var r := FlattenTxns(SingleAccount(txns));
      assert |r| == 2 && r[0] == coffee && r[1] == refund;
    }
    assert p(coffee) && !p(refund);
    FilterSnoc([coffee], refund, p);
    FilterSnoc([], coffee, p);
    assert [] + [coffee] == [coffee];
  }

  /** One entry makes one bucket, and sorting one bucket keeps it. */
  lemma SingleEntryBuckets(v: Variant, e: Entry)
    ensures SortBuckets(v, [e]) == [Bucket(e.key, e.amount, 1)]
  {
    assert [e] == [] + [e];
    GroupSnoc([], e);
    var s := SortBuckets(v, [e]);
    assert |s| == 1 && s[0] in multiset(Group([e]));
  }

  /** Records all below the anomaly floor raise no anomaly. */
  lemma NoAnomalyBelowFloor(ts: seq<Tagged>)
    requires forall i :: 0 <= i < |ts| ==> Magnitude(ts[i].txn) < AnomalyFloor
    ensures DetectAnomalies(ts) == []
  {
  }

  lemma SingleBelowFloor(t: Tagged)
    requires Magnitude(t.txn) < AnomalyFloor
    ensures DetectAnomalies([t]) == []
  {
    NoAnomalyBelowFloor([t]);
  }

  lemma SingleMerchantBucket(v: Variant, t: Tagged)
    ensures MerchantBuckets(v, [t]) == [Bucket(MerchantKey(t.txn), Magnitude(t.txn), 1)]
  {
    assert Map([t], MerchantEntry) == [MerchantEntry(t)];
    SingleEntryBuckets(v, MerchantEntry(t));
  }

  lemma SingleCategoryBucket(v: Variant, t: Tagged)
    ensures CategoryBuckets(v, [t]) == [Bucket(CategoryKey(t.txn), Magnitude(t.txn), 1)]
  {
    assert Map([t], CategoryEntry) == [CategoryEntry(t)];
    SingleEntryBuckets(v, CategoryEntry(t));
  }

  lemma SingleMagnitudeSum(t: Tagged)
    ensures Sum(Magnitudes([t])) == Magnitude(t.txn)
  {
    assert Magnitudes([t]) == [Magnitude(t.txn)];
    assert Sum([Magnitude(t.txn)]) == Magnitude(t.txn);
  }

  /** A single admitted record below the anomaly floor makes one bucket of
      each kind and no anomaly. */
  lemma SingleRecordFindings(v: Variant, parse: IsoParser, w: Window, t: Tagged, charges: seq<RecurringCharge>)
    requires Magnitude(t.txn) < AnomalyFloor
    ensures var f := FromAdmitted(v, parse, w, [t], charges);
      && f.totals == Totals(Magnitude(t.txn), 1)
      && f.byMerchant == [Bucket(MerchantKey(t.txn), Magnitude(t.txn), 1)]
      && f.byCategory == [Bucket(CategoryKey(t.txn), Magnitude(t.txn), 1)]
      && f.anomalies == []
  {
    SingleMagnitudeSum(t);
    SingleMerchantBucket(v, t);
    SingleCategoryBucket(v, t);
    SingleBelowFloor(t);
  }

  lemma MoneyExample()
    ensures Money(4253) == "42.53"
  {
    assert Grouped(42) == "42";
    assert PadNat(53, 2) == "53";
  }

  lemma ExampleHead()
    ensures "In the " + "selected window" + " you spent " + "USD" + " " == "In the selected window you spent USD "
  {
    assert "In the " + "selected window" == "In the selected window";
    assert "In the selected window" + " you spent " == "In the selected window you spent ";
    assert "In the selected window you spent " + "USD" == "In the selected window you spent USD";
  }

  lemma ExampleTail()
    ensures "42.53" + " across " + "1" + " transactions." == "42.53 across 1 transactions."
  {
    assert "42.53" + " across " == "42.53 across ";
    assert "42.53 across " + "1" == "42.53 across 1";
  }

  lemma JoinFive(a: string, b: string, c: string, d: string, e: string)
    ensures a + b + c + d + e == a + (b + c + d + e)
  {
  }

  /** The pieces of the example sentence, joined into its two halves. */
  lemma ExampleSentence()
    ensures "In the " + "selected window" + " you spent " + "USD" + " " + "42.53" + " across " + "1" + " transactions."
            == "In the selected window you spent USD " + "42.53 across 1 transactions."
  {
    var head := "In the " + "selected window" + " you spent " + "USD" + " ";
    ExampleHead();
    ExampleTail();
    JoinFive(head, "42.53", " across ", "1", " transactions.");
  }

  lemma ExampleSummary()
    ensures SummaryText("selected window", "USD", 4253, 1, 0) == "In the selected window you spent USD " + "42.53 across 1 transactions."
  {
    MoneyExample();
    assert NatToString(1) == "1";
    assert AnomalyClause(0) == "";
    ExampleSentence();
  }

  lemma CoffeeKeys(stamp: string)
    ensures MerchantKey(Coffee(stamp)) == "Blue Bottle"
    ensures CategoryKey(Coffee(stamp)) == "Dining"
    ensures Magnitude(Coffee(stamp)) == 4253
  {
    StripPlainWord("Dining");
  }

  lemma DebitAndCreditFindings(v: Variant, parse: IsoParser, stamp: string)
    requires stamp != "" && parse(stamp).Some?
    ensures var f := FindingsOf(v, parse, Request(SingleAccount([Coffee(stamp), Refund(stamp)]), None, None, None));
      && f.totals == Totals(4253, 1)
      && f.byMerchant == [Bucket("Blue Bottle", 4253, 1)]
      && f.byCategory == [Bucket("Dining", 4253, 1)]
      && f.anomalies == []
  {
    var bank := SingleAccount([Coffee(stamp), Refund(stamp)]);
    var coffee := Tagged(Coffee(stamp), Some("Checking"));
    DebitAndCreditAdmitted(parse, stamp);
    CoffeeKeys(stamp);
    SingleRecordFindings(v, parse, Window(None, None), coffee, AllRecurring(bank));
  }

  /** The summary sentence of a report, in terms of its findings. */
  lemma SummaryOfReport(v: Variant, parse: IsoParser, req: Request)
    ensures var r := Summarize(v, parse, req);
      r.summary == SummaryText(CaptionText(CaptionOf(ResolveWindow(parse, req.window))), CurrencyCode(req.currency),
                               r.findings.totals.spend, r.findings.totals.count, |r.findings.anomalies|)
  {
  }

  /** One debit and one credit, no window, no currency: the credit is
      ignored, the debit is the whole spend, it sits in its merchant's and
      its category's bucket, it is far below the anomaly floor, and the
      summary reads "In the selected window you spent USD 42.53 across 1
      transactions." */
  lemma DebitAndCredit(v: Variant, parse: IsoParser, stamp: string)
    requires stamp != "" && parse(stamp).Some?
    ensures var r := Summarize(v, parse, Request(SingleAccount([Coffee(stamp), Refund(stamp)]), None, None, None));
      && r.findings.totals == Totals(4253, 1)
      && r.findings.byMerchant == [Bucket("Blue Bottle", 4253, 1)]
      && r.findings.byCategory == [Bucket("Dining", 4253, 1)]
      && r.findings.anomalies == []
      && r.summary == "In the selected window you spent USD " + "42.53 across 1 transactions."
  {
    DebitAndCreditFindings(v, parse, stamp);
    DebitAndCreditSummary(v, parse, stamp);
  }

  lemma DebitAndCreditSummary(v: Variant, parse: IsoParser, stamp: string)
    requires stamp != "" && parse(stamp).Some?
    ensures var r := Summarize(v, parse, Request(SingleAccount([Coffee(stamp), Refund(stamp)]), None, None, None));
      r.summary == "In the selected window you spent USD " + "42.53 across 1 transactions."
  {
    var req := Request(SingleAccount([Coffee(stamp), Refund(stamp)]), None, None, None);
    var f := FindingsOf(v, parse, req);
    DebitAndCreditFindings(v, parse, stamp);
    SummaryOfReport(v, parse, req);
    assert CaptionText(CaptionOf(ResolveWindow(parse, None))) == "selected window";
    assert CurrencyCode(None) == "USD";
    assert f.totals.spend == 4253 && f.totals.count == 1 && |f.anomalies| == 0;
    ExampleSummary();
  }

  lemma EmptyLedgerFindings(v: Variant, parse: IsoParser, req: Request)
    requires req.bank == Bank(None)
    ensures FindingsOf(v, parse, req) == Findings(Totals(0, 0), [], [], [], [])
  {
    var w := ResolveWindow(parse, req.window);
    assert Filter(FlattenTxns(req.bank), Admits(parse, w)) == [];
    assert Map([], MerchantEntry) == [];
    assert Map([], CategoryEntry) == [];
    assert Group([]) == [];
    assert MerchantBuckets(v, []) == [];
    assert CategoryBuckets(v, []) == [];
  }

  /** A ledger without accounts gives zero totals, no buckets, no
      recurring charges and no anomalies, and the summary ends at
      " 0 transactions." with no anomaly clause. */
  lemma EmptyLedger(v: Variant, parse: IsoParser, window: Option<WindowSpec>, currency: Option<string>, traceId: Option<string>)
    ensures var r := Summarize(v, parse, Request(Bank(None), window, currency, traceId));
      && r.findings == Findings(Totals(0, 0), [], [], [], [])
      && r.traceId == traceId
      && EndsWith(r.summary, " 0" + TransactionsEnd)
  {
    var req := Request(Bank(None), window, currency, traceId);
    EmptyLedgerFindings(v, parse, req);
    SummaryOfReport(v, parse, req);
    NoRecordsSummary(CaptionText(CaptionOf(ResolveWindow(parse, window))), CurrencyCode(currency), 0);
  }

  /** With no records and no anomalies the summary ends at " 0 transactions.". */
  lemma NoRecordsSummary(caption: string, currency: string, spend: nat)
    ensures EndsWith(SummaryText(caption, currency, spend, 0, 0), " 0" + TransactionsEnd)
  {
    var head := "In the " + caption + " you spent " + currency + " " + Money(spend) + " across";
    assert SummaryText(caption, currency, spend, 0, 0) == head + (" 0" + TransactionsEnd) by {
      assert NatToString(0) == "0";
      assert SpendSentence(caption, currency, spend, 0) == head + " 0";
      assert AnomalyClause(0) == "";
    }
    EndsWithAppend(head, " 0" + TransactionsEnd);
  }
}
