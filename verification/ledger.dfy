/** The bank dataset as the analytics read it (`user.accounts[]` with their
    `transactions[]` and `recurring_payments[]`), its flattening
    (`_flatten_txns`, `_recurring`) and the per-record readings the
    aggregation uses: effective timestamp, debit test, magnitude and the
    merchant and category keys. */
module Ledger {
  import opened Options
  import opened Text
  import opened Seqs
  import opened TimeWindow

  /** `transaction["merchant"]`. */
  datatype MerchantInfo = MerchantInfo(name: Option<string>, category: Option<string>)

  /** One entry of `transactions[]`. `None` stands for an absent key (or a
      JSON null, which the source reads the same way through `or`).
      `amount` is in cents; an absent amount reads as 0. */
  datatype Txn = Txn(
    postedAt: Option<string>,
    createdAt: Option<string>,
    amount: Option<int>,
    kind: Option<string>,        // the "type" field
    description: Option<string>,
    merchant: Option<MerchantInfo>,
    category: Option<string>)

  /** One entry of `recurring_payments[]`. */
  datatype RecurringPayment = RecurringPayment(
    name: Option<string>,
    amount: Option<int>,
    frequency: Option<string>,
    nextCharge: Option<string>)

  datatype Account = Account(
    nickname: Option<string>,
    accountType: Option<string>,
    transactions: Option<seq<Txn>>,
    recurringPayments: Option<seq<RecurringPayment>>)

  datatype User = User(accounts: Option<seq<Account>>)

  datatype Bank = Bank(user: Option<User>)

  /** A flattened transaction: the record with its `_account` tag. */
  datatype Tagged = Tagged(txn: Txn, account: Option<string>)

  /** One element of the `recurring` list of the findings. */
  datatype RecurringCharge = RecurringCharge(
    account: Option<string>,
    name: Option<string>,
    amount: Option<int>,
    frequency: Option<string>,
    nextCharge: Option<string>)

  /** `acct.get("nickname") or acct.get("account_type")`. */
  function AccountLabel(a: Account): Option<string> {
    OrElse(a.nickname, a.accountType)
  }

  /** `bank.get("user", {}).get("accounts", [])`. */
  function Accounts(bank: Bank): seq<Account> {
    match bank.user
    case None => []
    case Some(u) => u.accounts.GetOr([])
  }

  /** `acct.get("transactions", []) or []`. */
  function TxnsOf(a: Account): seq<Txn> {
    a.transactions.GetOr([])
  }

  function PaymentsOf(a: Account): seq<RecurringPayment> {
    a.recurringPayments.GetOr([])
  }

  /** The account's transactions, each tagged with the account label. */
  function TagAll(a: Account): (r: seq<Tagged>)
    ensures |r| == |TxnsOf(a)|
    ensures forall j :: 0 <= j < |r| ==> r[j] == Tagged(TxnsOf(a)[j], AccountLabel(a))
  {
    var ts := TxnsOf(a);
    seq(|ts|, j requires 0 <= j < |ts| => Tagged(ts[j], AccountLabel(a)))
  }

  function ChargeOf(a: Account, p: RecurringPayment): RecurringCharge {
    RecurringCharge(AccountLabel(a), p.name, p.amount, p.frequency, p.nextCharge)
  }

  function ChargesOf(a: Account): (r: seq<RecurringCharge>)
    ensures |r| == |PaymentsOf(a)|
    ensures forall j :: 0 <= j < |r| ==> r[j] == ChargeOf(a, PaymentsOf(a)[j])
  {
    var ps := PaymentsOf(a);
    seq(|ps|, j requires 0 <= j < |ps| => ChargeOf(a, ps[j]))
  }

  /** Concatenation of `f(a)` over the accounts, in account order (the
      nested `for acct ... for t ...` loop of both helpers). */
  function FlatMap<X>(accts: seq<Account>, f: Account -> seq<X>): seq<X> {
    if |accts| == 0 then [] else f(accts[0]) + FlatMap(accts[1..], f)
  }

  /** Every element comes from some account's part, and every element of
      every part is there. */
  lemma {:induction false} FlatMapMembers<X>(accts: seq<Account>, f: Account -> seq<X>)
    ensures forall k :: 0 <= k < |FlatMap(accts, f)| ==> exists i :: 0 <= i < |accts| && FlatMap(accts, f)[k] in f(accts[i])
    ensures forall i, j :: 0 <= i < |accts| && 0 <= j < |f(accts[i])| ==> f(accts[i])[j] in FlatMap(accts, f)
  {
    if |accts| > 0 {
      var head, rest := f(accts[0]), FlatMap(accts[1..], f);
      var r := head + rest;
      assert FlatMap(accts, f) == r;
      FlatMapMembers(accts[1..], f);
      forall k | 0 <= k < |r| ensures exists i :: 0 <= i < |accts| && r[k] in f(accts[i]) {
        if k < |head| {
          assert r[k] == head[k] && r[k] in f(accts[0]);
        } else {
          var k' := k - |head|;
          assert r[k] == rest[k'];
          var i :| 0 <= i < |accts[1..]| && rest[k'] in f(accts[1..][i]);
          assert accts[1..][i] == accts[i + 1];
          assert r[k] in f(accts[i + 1]);
        }
      }
      forall i, j | 0 <= i < |accts| && 0 <= j < |f(accts[i])| ensures f(accts[i])[j] in r {
        if i > 0 {
          assert accts[1..][i - 1] == accts[i];
          assert f(accts[i])[j] in rest;
        } else {
          assert r[j] == head[j];
        }
      }
    } else {
      assert FlatMap(accts, f) == [];
    }
  }

  lemma {:induction false} FlatMapLength<X>(accts: seq<Account>, f: Account -> seq<X>, g: Account -> nat)
    requires forall i :: 0 <= i < |accts| ==> |f(accts[i])| == g(accts[i])
    ensures |FlatMap(accts, f)| == Sum(Map(accts, g))
  {
    if |accts| > 0 {
      FlatMapLength(accts[1..], f, g);
      assert Map(accts, g) == [g(accts[0])] + Map(accts[1..], g);
    }
  }

  /** Element `j` of account `i`'s part sits right after the parts of the
      accounts before it. */
  lemma {:induction false} FlatMapAt<X>(accts: seq<Account>, f: Account -> seq<X>, g: Account -> nat, i: nat, j: nat)
    requires forall a :: 0 <= a < |accts| ==> |f(accts[a])| == g(accts[a])
    requires i < |accts| && j < |f(accts[i])|
    ensures 0 <= Sum(Map(accts[..i], g)) && Sum(Map(accts[..i], g)) + j < |FlatMap(accts, f)|
    ensures FlatMap(accts, f)[Sum(Map(accts[..i], g)) + j] == f(accts[i])[j]
  {
    var tail := accts[1..];
    var rest := FlatMap(tail, f);
    var r := FlatMap(accts, f);
    assert r == f(accts[0]) + rest;
    var m := Map(accts[..i], g);
    if i == 0 {
      assert m == [];
    } else {
      FlatMapAt(tail, f, g, i - 1, j);
      var m' := Map(tail[..i - 1], g);
      assert m[1..] == m' by {
        forall k | 0 <= k < |m'| ensures m[1..][k] == m'[k] {
          assert tail[..i - 1][k] == accts[..i][k + 1];
        }
      }
      assert Sum(m) == |f(accts[0])| + Sum(m');
      assert tail[i - 1] == accts[i];
    }
  }

  /** Account `i`'s part fits after the parts of the accounts before it. */
  lemma {:induction false} FlatMapBlock<X>(accts: seq<Account>, f: Account -> seq<X>, g: Account -> nat, i: nat)
    requires forall a :: 0 <= a < |accts| ==> |f(accts[a])| == g(accts[a])
    requires i < |accts|
    ensures 0 <= Sum(Map(accts[..i], g)) && Sum(Map(accts[..i], g)) + |f(accts[i])| <= |FlatMap(accts, f)|
  {
    var tail := accts[1..];
    assert FlatMap(accts, f) == f(accts[0]) + FlatMap(tail, f);
    var m := Map(accts[..i], g);
    if i == 0 {
      assert m == [];
    } else {
      FlatMapBlock(tail, f, g, i - 1);
      var m' := Map(tail[..i - 1], g);
      assert m[1..] == m' by {
        forall k | 0 <= k < |m'| ensures m[1..][k] == m'[k] {
          assert tail[..i - 1][k] == accts[..i][k + 1];
        }
      }
      assert Sum(m) == |f(accts[0])| + Sum(m');
      assert tail[i - 1] == accts[i];
    }
  }

  function TxnCount(a: Account): nat {
    |TxnsOf(a)|
  }

  /** `r` lists the accounts' transactions block by block, each tagged with
      its account's label: account `i`'s block starts after the transactions
      of the accounts before it, and holds its transactions in their order. */
  predicate TxnsPlaced(accts: seq<Account>, r: seq<Tagged>) {
    && |r| == Sum(Map(accts, TxnCount))
    && (forall i {:trigger Sum(Map(accts[..i], TxnCount))} :: 0 <= i < |accts| ==>
          0 <= Sum(Map(accts[..i], TxnCount)) && Sum(Map(accts[..i], TxnCount)) + |TxnsOf(accts[i])| <= |r|)
    && (forall i, j {:trigger Sum(Map(accts[..i], TxnCount)), TxnsOf(accts[i])[j]} :: 0 <= i < |accts| && 0 <= j < |TxnsOf(accts[i])| ==>
          r[Sum(Map(accts[..i], TxnCount)) + j] == Tagged(TxnsOf(accts[i])[j], AccountLabel(accts[i])))
  }

  /** Placement puts every transaction of every account in the list. */
  lemma PlacedTxnsPresent(accts: seq<Account>, r: seq<Tagged>)
    requires TxnsPlaced(accts, r)
    ensures forall i, j :: 0 <= i < |accts| && 0 <= j < |TxnsOf(accts[i])| ==>
              Tagged(TxnsOf(accts[i])[j], AccountLabel(accts[i])) in r
  {
    forall i, j | 0 <= i < |accts| && 0 <= j < |TxnsOf(accts[i])|
      ensures Tagged(TxnsOf(accts[i])[j], AccountLabel(accts[i])) in r
    {
      assert r[Sum(Map(accts[..i], TxnCount)) + j] == Tagged(TxnsOf(accts[i])[j], AccountLabel(accts[i]));
    }
  }

  /** Where each account's tagged transactions sit in the flattening. */
  lemma FlattenOffsets(accts: seq<Account>)
    ensures TxnsPlaced(accts, FlatMap(accts, TagAll))
  {
    var r := FlatMap(accts, TagAll);
    FlatMapLength(accts, TagAll, TxnCount);
    forall i | 0 <= i < |accts|
      ensures 0 <= Sum(Map(accts[..i], TxnCount)) && Sum(Map(accts[..i], TxnCount)) + |TxnsOf(accts[i])| <= |r|
    {
      FlatMapBlock(accts, TagAll, TxnCount, i);
    }
    forall i, j | 0 <= i < |accts| && 0 <= j < |TxnsOf(accts[i])|
      ensures r[Sum(Map(accts[..i], TxnCount)) + j] == Tagged(TxnsOf(accts[i])[j], AccountLabel(accts[i]))
    {
      FlatMapAt(accts, TagAll, TxnCount, i, j);
      assert TagAll(accts[i])[j] == Tagged(TxnsOf(accts[i])[j], AccountLabel(accts[i]));
    }
  }


  /** Which tagged transactions the flattening holds. */
  lemma FlattenMembers(accts: seq<Account>)
    ensures var r := FlatMap(accts, TagAll);
      && |r| == Sum(Map(accts, TxnCount))
      && (forall k :: 0 <= k < |r| ==>
            exists i :: 0 <= i < |accts| && r[k].txn in TxnsOf(accts[i]) && r[k].account == AccountLabel(accts[i]))
      && (forall i, j :: 0 <= i < |accts| && 0 <= j < |TxnsOf(accts[i])| ==>
            Tagged(TxnsOf(accts[i])[j], AccountLabel(accts[i])) in r)
  {
    var r := FlatMap(accts, TagAll);
    FlatMapLength(accts, TagAll, TxnCount);
    FlatMapMembers(accts, TagAll);
    forall k | 0 <= k < |r|
      ensures exists i :: 0 <= i < |accts| && r[k].txn in TxnsOf(accts[i]) && r[k].account == AccountLabel(accts[i])
    {
      var i :| 0 <= i < |accts| && r[k] in TagAll(accts[i]);
      var j :| 0 <= j < |TagAll(accts[i])| && TagAll(accts[i])[j] == r[k];
      assert r[k].txn == TxnsOf(accts[i])[j];
    }
    forall i, j | 0 <= i < |accts| && 0 <= j < |TxnsOf(accts[i])|
      ensures Tagged(TxnsOf(accts[i])[j], AccountLabel(accts[i])) in r
    {
      assert TagAll(accts[i])[j] == Tagged(TxnsOf(accts[i])[j], AccountLabel(accts[i]));
    }
  }

  /** `_flatten_txns`: every transaction of every account, in order, tagged
      with its account's label. A bank without `user` or `accounts` has
      none. The offset clause places each transaction exactly, so it fixes
      both the order and the repeats. */
  function FlattenTxns(bank: Bank): (r: seq<Tagged>)
    ensures Accounts(bank) == [] ==> r == []
    ensures |r| == Sum(Map(Accounts(bank), TxnCount))
    ensures forall k :: 0 <= k < |r| ==>
              exists i :: 0 <= i < |Accounts(bank)|
                && r[k].txn in TxnsOf(Accounts(bank)[i])
                && r[k].account == AccountLabel(Accounts(bank)[i])
    ensures TxnsPlaced(Accounts(bank), r)
  {
    FlattenMembers(Accounts(bank));
    FlattenOffsets(Accounts(bank));
    FlatMap(Accounts(bank), TagAll)
  }

  function PaymentCount(a: Account): nat {
    |PaymentsOf(a)|
  }

  /** `r` lists the accounts' recurring charges block by block: account
      `i`'s block starts after the payments of the accounts before it, and
      holds the charge of each of its payments in their order. */
  predicate ChargesPlaced(accts: seq<Account>, r: seq<RecurringCharge>) {
    && |r| == Sum(Map(accts, PaymentCount))
    && (forall i {:trigger Sum(Map(accts[..i], PaymentCount))} :: 0 <= i < |accts| ==>
          0 <= Sum(Map(accts[..i], PaymentCount)) && Sum(Map(accts[..i], PaymentCount)) + |PaymentsOf(accts[i])| <= |r|)
    && (forall i, j {:trigger Sum(Map(accts[..i], PaymentCount)), PaymentsOf(accts[i])[j]} :: 0 <= i < |accts| && 0 <= j < |PaymentsOf(accts[i])| ==>
          r[Sum(Map(accts[..i], PaymentCount)) + j] == ChargeOf(accts[i], PaymentsOf(accts[i])[j]))
  }

  /** Placement puts the charge of every payment of every account in the list. */
  lemma PlacedChargesPresent(accts: seq<Account>, r: seq<RecurringCharge>)
    requires ChargesPlaced(accts, r)
    ensures forall i, j :: 0 <= i < |accts| && 0 <= j < |PaymentsOf(accts[i])| ==>
              ChargeOf(accts[i], PaymentsOf(accts[i])[j]) in r
  {
    forall i, j | 0 <= i < |accts| && 0 <= j < |PaymentsOf(accts[i])|
      ensures ChargeOf(accts[i], PaymentsOf(accts[i])[j]) in r
    {
      assert r[Sum(Map(accts[..i], PaymentCount)) + j] == ChargeOf(accts[i], PaymentsOf(accts[i])[j]);
    }
  }

  /** Where each account's charges sit in the list. */
  lemma RecurringOffsets(accts: seq<Account>)
    ensures ChargesPlaced(accts, FlatMap(accts, ChargesOf))
  {
    var r := FlatMap(accts, ChargesOf);
    FlatMapLength(accts, ChargesOf, PaymentCount);
    forall i | 0 <= i < |accts|
      ensures 0 <= Sum(Map(accts[..i], PaymentCount)) && Sum(Map(accts[..i], PaymentCount)) + |PaymentsOf(accts[i])| <= |r|
    {
      FlatMapBlock(accts, ChargesOf, PaymentCount, i);
    }
    forall i, j | 0 <= i < |accts| && 0 <= j < |PaymentsOf(accts[i])|
      ensures r[Sum(Map(accts[..i], PaymentCount)) + j] == ChargeOf(accts[i], PaymentsOf(accts[i])[j])
    {
      FlatMapAt(accts, ChargesOf, PaymentCount, i, j);
      assert ChargesOf(accts[i])[j] == ChargeOf(accts[i], PaymentsOf(accts[i])[j]);
    }
  }

  /** `c` is the charge of some payment of some account. */
  predicate ChargeFrom(accts: seq<Account>, c: RecurringCharge) {
    exists i, j :: 0 <= i < |accts| && 0 <= j < |PaymentsOf(accts[i])| && c == ChargeOf(accts[i], PaymentsOf(accts[i])[j])
  }

  /** Which charges the list holds. */
  lemma RecurringMembers(accts: seq<Account>)
    ensures |FlatMap(accts, ChargesOf)| == Sum(Map(accts, PaymentCount))
    ensures forall k :: 0 <= k < |FlatMap(accts, ChargesOf)| ==> ChargeFrom(accts, FlatMap(accts, ChargesOf)[k])
    ensures forall i, j :: 0 <= i < |accts| && 0 <= j < |PaymentsOf(accts[i])| ==>
              ChargeOf(accts[i], PaymentsOf(accts[i])[j]) in FlatMap(accts, ChargesOf)
  {
    var r := FlatMap(accts, ChargesOf);
    FlatMapLength(accts, ChargesOf, PaymentCount);
    FlatMapMembers(accts, ChargesOf);
    forall k | 0 <= k < |r|
      ensures ChargeFrom(accts, r[k])
    {
      var i :| 0 <= i < |accts| && r[k] in ChargesOf(accts[i]);
      var j :| 0 <= j < |ChargesOf(accts[i])| && ChargesOf(accts[i])[j] == r[k];
      assert 0 <= j < |PaymentsOf(accts[i])|;
      assert r[k] == ChargeOf(accts[i], PaymentsOf(accts[i])[j]);
    }
    forall i, j | 0 <= i < |accts| && 0 <= j < |PaymentsOf(accts[i])|
      ensures ChargeOf(accts[i], PaymentsOf(accts[i])[j]) in r
    {
      assert ChargesOf(accts[i])[j] == ChargeOf(accts[i], PaymentsOf(accts[i])[j]);
    }
  }

  /** `_recurring`: every recurring payment of every account, in order,
      carrying its account's label. The offset clause places each charge
      exactly, so it fixes both the order and the repeats. */
  function AllRecurring(bank: Bank): (r: seq<RecurringCharge>)
    ensures Accounts(bank) == [] ==> r == []
    ensures |r| == Sum(Map(Accounts(bank), PaymentCount))
    ensures forall k :: 0 <= k < |r| ==> ChargeFrom(Accounts(bank), r[k])
    ensures ChargesPlaced(Accounts(bank), r)
  {
    RecurringMembers(Accounts(bank));
    RecurringOffsets(Accounts(bank));
    FlatMap(Accounts(bank), ChargesOf)
  }

  // ---------------------------------------------------------------------
  // Per-record readings.

  /** `t.get("posted_at") or t.get("created_at")`. */
  function EffectiveStamp(t: Txn): Option<string> {
    OrElse(t.postedAt, t.createdAt)
  }

  /** The record's instant: the posted time, falling back to the created
      time; `None` when neither is present or the chosen one does not
      parse. */
  function InstantOf(parse: IsoParser, t: Txn): (r: Option<Instant>)
    ensures Present(t.postedAt) ==> r == parse(t.postedAt.value)
    ensures !Present(t.postedAt) && Present(t.createdAt) ==> r == parse(t.createdAt.value)
    ensures !Present(t.postedAt) && !Present(t.createdAt) ==> r.None?
  {
    ParseStamp(parse, EffectiveStamp(t))
  }

  /** `(t.get("type") or "").lower() == "debit"`. */
  predicate IsDebit(t: Txn) {
    Lower(TextOr(t.kind, "")) == "debit"
  }

  /** The debit test ignores letter case and nothing else: the type must be
      the five letters of "debit" in any mixture of cases. */
  lemma IsDebitCaseInsensitive(t: Txn)
    ensures IsDebit(t) <==>
              t.kind.Some? && |t.kind.value| == 5
              && forall i :: 0 <= i < 5 ==> t.kind.value[i] == "debit"[i] || t.kind.value[i] == "DEBIT"[i]
  {
    if IsDebit(t) {
      var k := t.kind.value;
      assert Lower(k) == "debit";
      forall i | 0 <= i < 5 ensures k[i] == "debit"[i] || k[i] == "DEBIT"[i] {
        assert LowerChar(k[i]) == "debit"[i];
      }
    }
    if t.kind.Some? && |t.kind.value| == 5
       && forall i :: 0 <= i < 5 ==> t.kind.value[i] == "debit"[i] || t.kind.value[i] == "DEBIT"[i] {
      var k := t.kind.value;
      assert Lower(k) == "debit";
    }
  }

  function Abs(x: int): nat {
    if x < 0 then -x else x
  }

  /** `abs(float(t.get("amount", 0.0)))`, in cents. */
  function Magnitude(t: Txn): nat {
    Abs(t.amount.GetOr(0))
  }

  /** `(t.get("merchant") or {}).get("name")`. */
  function MerchantName(t: Txn): Option<string> {
    match t.merchant
    case None => None
    case Some(m) => m.name
  }

  function MerchantCategory(t: Txn): Option<string> {
    match t.merchant
    case None => None
    case Some(m) => m.category
  }

  /** The merchant bucket key: the merchant's name as given, else the
      stripped description, else "unknown". */
  function MerchantKey(t: Txn): (k: string)
    ensures Present(MerchantName(t)) ==> k == MerchantName(t).value
    ensures !Present(MerchantName(t)) && Present(t.description) ==> k == Strip(t.description.value) && IsStripped(k)
    ensures !Present(MerchantName(t)) && !Present(t.description) ==> k == "unknown"
  {
    if Present(MerchantName(t)) then MerchantName(t).value
    else
      StripPlainWord("unknown");
      Strip(TextOr(t.description, "unknown"))
  }

  /** The category bucket key: the record's category, else the merchant's
      category, else "uncategorized"; always stripped. */
  function CategoryKey(t: Txn): (k: string)
    ensures IsStripped(k)
    ensures Present(t.category) ==> k == Strip(t.category.value)
    ensures !Present(t.category) && Present(MerchantCategory(t)) ==> k == Strip(MerchantCategory(t).value)
    ensures !Present(t.category) && !Present(MerchantCategory(t)) ==> k == "uncategorized"
  {
    StripPlainWord("uncategorized");
    Strip(TextOr(t.category, TextOr(MerchantCategory(t), "uncategorized")))
  }

  /** A word without whitespace is left alone by Strip. */
  lemma StripPlainWord(w: string)
    requires forall i :: 0 <= i < |w| ==> !IsSpace(w[i])
    ensures Strip(w) == w
  {
    assert "" + w + "" == w;
    StripUnique("", w, "");
  }
}
