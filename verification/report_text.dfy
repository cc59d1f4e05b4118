/** The human-readable parts of the banking envelope: the window caption,
    the `{:,.2f}` rendering of the spend, and the `summary` and `sms`
    sentences. */
module ReportText {
  import opened Options
  import opened Text
  import opened TimeWindow

  // ---------------------------------------------------------------------
  // Digit strings.

  predicate AllDigits(s: string) {
    forall i :: 0 <= i < |s| ==> IsDigit(s[i])
  }

  function Pow10(k: nat): (r: nat)
    ensures r >= 1
  {
    if k == 0 then 1 else 10 * Pow10(k - 1)
  }

  lemma ShiftDigit(x: int, y: int, z: int, d: int)
    ensures 10 * (x * y + z) + d == x * (10 * y) + (10 * z + d)
  {
  }

  /** Reading the concatenation of two digit strings. */
  lemma {:induction false} DigitsAppend(a: string, b: string)
    requires AllDigits(a) && AllDigits(b)
    ensures AllDigits(a + b)
    ensures DigitsValue(a + b) == DigitsValue(a) * Pow10(|b|) + DigitsValue(b)
  {
    if |b| == 0 {
      assert a + b == a;
    } else {
      var ab := a + b;
      var b' := b[..|b| - 1];
      assert AllDigits(b');
      assert ab[..|ab| - 1] == a + b';
      DigitsAppend(a, b');
      var d := b[|b| - 1] as int - 48;
      assert ab[|ab| - 1] == b[|b| - 1];
      assert DigitsValue(ab) == 10 * DigitsValue(a + b') + d;
      assert DigitsValue(b) == 10 * DigitsValue(b') + d;
      ShiftDigit(DigitsValue(a), Pow10(|b'|), DigitsValue(b'), d);
    }
  }

  /** `n` left-padded with zeros to `w` digits (`f"{n:0w}"`). */
  function PadNat(n: nat, w: nat): (r: string)
    ensures AllDigits(r)
    ensures |r| == if |NatToString(n)| >= w then |NatToString(n)| else w
  {
    var s := NatToString(n);
    if |s| >= w then s else seq(w - |s|, _ => '0') + s
  }

  lemma {:induction false} ZerosValue(k: nat)
    ensures AllDigits(seq(k, _ => '0'))
    ensures DigitsValue(seq(k, _ => '0')) == 0
  {
    if k > 0 {
      var z := seq(k, _ => '0');
      assert z[..k - 1] == seq(k - 1, _ => '0');
      ZerosValue(k - 1);
    }
  }

  /** Leading zeros do not change the value. */
  lemma PadNatValue(n: nat, w: nat)
    ensures DigitsValue(PadNat(n, w)) == n
  {
    var s := NatToString(n);
    NatToStringRoundTrip(n);
    if |s| < w {
      ZerosValue(w - |s|);
      DigitsAppend(seq(w - |s|, _ => '0'), s);
    }
  }

  lemma NatToStringShort(n: nat, w: nat)
    requires 0 < w && n < Pow10(w)
    ensures |NatToString(n)| <= w
    decreases w
  {
    if n >= 10 {
      NatToStringShort(n / 10, w - 1);
    }
  }

  // ---------------------------------------------------------------------
  // Thousands grouping: the `,` of `{:,.2f}`.

  /** The integer part with a comma between every group of three digits. */
  function Grouped(n: nat): string {
    if n < 1000 then NatToString(n) else Grouped(n / 1000) + "," + PadNat(n % 1000, 3)
  }

  /** A first group of one to three digits, then groups of `,ddd`. */
  predicate WellGrouped(s: string) {
    if |s| <= 4 then 1 <= |s| <= 3 && AllDigits(s)
    else s[|s| - 4] == ',' && AllDigits(s[|s| - 3..]) && WellGrouped(s[..|s| - 4])
  }

  /** The digits of `s` with the separators `,` and `.` removed. */
  function Unseparated(s: string): string {
    if |s| == 0 then ""
    else (if s[0] == ',' || s[0] == '.' then "" else [s[0]]) + Unseparated(s[1..])
  }

  lemma {:induction false} UnseparatedAppend(a: string, b: string)
    ensures Unseparated(a + b) == Unseparated(a) + Unseparated(b)
  {
    if |a| > 0 {
      assert (a + b)[1..] == a[1..] + b;
      UnseparatedAppend(a[1..], b);
    } else {
      assert a + b == b;
    }
  }

  lemma {:induction false} UnseparatedDigits(s: string)
    requires AllDigits(s)
    ensures Unseparated(s) == s
  {
    if |s| > 0 {
      UnseparatedDigits(s[1..]);
    }
  }

  lemma PadNatWidth(n: nat, w: nat)
    requires 0 < w && n < Pow10(w)
    ensures |PadNat(n, w)| == w
  {
    NatToStringShort(n, w);
  }

  /** Appending a `,ddd` group keeps a grouping well formed. */
  lemma GroupedShape(hi: string, lo: string)
    requires WellGrouped(hi) && AllDigits(lo) && |lo| == 3
    ensures WellGrouped(hi + "," + lo)
  {
    var g := hi + "," + lo;
    assert g[|g| - 4] == ',';
    assert g[|g| - 3..] == lo;
    assert g[..|g| - 4] == hi;
  }

  /** Dropping a separator between a prefix and a digit string. */
  lemma UnseparatedJoin(hi: string, sep: string, lo: string)
    requires sep == "," || sep == "."
    requires AllDigits(lo)
    ensures Unseparated(hi + sep + lo) == Unseparated(hi) + lo
  {
    UnseparatedAppend(hi + sep, lo);
    UnseparatedAppend(hi, sep);
    UnseparatedDigits(lo);
    assert Unseparated(sep) == "" + Unseparated(sep[1..]);
  }

  /** Reading a number split at `Pow10(w)` back from its two parts. */
  lemma SplitValue(hi: string, lo: string, n: nat, w: nat)
    requires 0 < w
    requires AllDigits(hi) && DigitsValue(hi) == n / Pow10(w)
    requires lo == PadNat(n % Pow10(w), w)
    ensures AllDigits(hi + lo)
    ensures DigitsValue(hi + lo) == n
  {
    var p := Pow10(w);
    PadNatWidth(n % p, w);
    DigitsAppend(hi, lo);
    PadNatValue(n % p, w);
    DivMod(n, p);
  }

  lemma DivMod(n: nat, p: nat)
    requires p > 0
    ensures (n / p) * p + n % p == n
  {
  }

  /** The grouping is well formed, and dropping its commas gives back the
      digits of the number. */
  lemma {:induction false} GroupedFacts(n: nat)
    ensures WellGrouped(Grouped(n))
    ensures AllDigits(Unseparated(Grouped(n)))
    ensures DigitsValue(Unseparated(Grouped(n))) == n
  {
    assert Pow10(3) == 1000 by {
      assert Pow10(1) == 10 && Pow10(2) == 100;
    }
    if n < 1000 {
      NatToStringShort(n, 3);
      UnseparatedDigits(NatToString(n));
      NatToStringRoundTrip(n);
    } else {
      var hi, lo := Grouped(n / 1000), PadNat(n % 1000, 3);
      GroupedFacts(n / 1000);
      PadNatWidth(n % 1000, 3);
      GroupedShape(hi, lo);
      UnseparatedJoin(hi, ",", lo);
      SplitValue(Unseparated(hi), lo, n, 3);
    }
  }

  /** `f"{x:,.2f}"` for an amount of `cents` hundredths. */
  function Money(cents: nat): string {
    Grouped(cents / 100) + "." + PadNat(cents % 100, 2)
  }

  /** The rendering is a well-grouped integer part, a point and exactly two
      decimals, and reading its digits back gives the amount: no cent is
      lost or invented by the formatting. */
  lemma MoneyRoundTrip(cents: nat)
    ensures var s := Money(cents);
      && |s| >= 4
      && s[|s| - 3] == '.'
      && WellGrouped(s[..|s| - 3])
      && AllDigits(s[|s| - 2..])
      && AllDigits(Unseparated(s))
      && DigitsValue(Unseparated(s)) == cents
  {
    assert Pow10(2) == 100 by {
      assert Pow10(1) == 10;
    }
    var hi, lo := Grouped(cents / 100), PadNat(cents % 100, 2);
    GroupedFacts(cents / 100);
    PadNatWidth(cents % 100, 2);
    var s := hi + "." + lo;
    assert s[..|s| - 3] == hi;
    assert s[|s| - 3] == '.';
    assert s[|s| - 2..] == lo;
    UnseparatedJoin(hi, ".", lo);
    SplitValue(Unseparated(hi), lo, cents, 2);
  }

  // ---------------------------------------------------------------------
  // Caption, currency and the two sentences.

  function CaptionText(c: Caption): string {
    match c
    case LastDays(n) => "last " + IntToString(n) + " days"
    case SelectedWindow => "selected window"
  }

  /** `(currency or "USD").upper()`. */
  function CurrencyCode(currency: Option<string>): (r: string)
    ensures |r| > 0
    ensures !Present(currency) ==> r == "USD"
    ensures Present(currency) ==> r == Upper(currency.value)
  {
    Upper(TextOr(currency, "USD"))
  }

  const AnomalyClauseEnd: string := " potential anomalies."
  const TransactionsEnd: string := " transactions."

  /** Where each piece of the summary's first sentence sits: the caption,
      the currency, the amount and the count, between their fixed words. */
  lemma SpendLayout(caption: string, currency: string, money: string, tally: string)
    ensures var r := "In the " + caption + " you spent " + currency + " " + money + " across " + tally;
      && |r| == |caption| + |currency| + |money| + |tally| + 27
      && r[..7] == "In the "
      && r[7..7 + |caption|] == caption
      && r[7 + |caption|..18 + |caption|] == " you spent "
      && r[18 + |caption|..18 + |caption| + |currency|] == currency
      && r[19 + |caption| + |currency|..|r| - |tally| - 8] == money
      && r[|r| - |tally| - 8..] == " across " + tally
  {
    var a := "In the " + caption + " you spent " + currency + " ";
    var r := a + money + " across " + tally;
    var tail := " across " + tally;
    assert r == a + money + tail;
    assert r[..|a|] == a;
    assert r[|a|..|a| + |money|] == money;
    assert r[|a| + |money|..] == tail;
    assert a[..7] == "In the ";
    assert a[7..7 + |caption|] == caption;
    assert a[7 + |caption|..18 + |caption|] == " you spent ";
    assert a[18 + |caption|..18 + |caption| + |currency|] == currency;
  }

  /** The first sentence of the summary, up to its closing word: the caption,
      the currency, the amount and the count, the last two reading back to
      their values. */
  function SpendSentence(caption: string, currency: string, spend: nat, count: nat): (r: string)
    ensures |r| == |caption| + |currency| + |Money(spend)| + |NatToString(count)| + 27
    ensures r[..7] == "In the "
    ensures r[7..7 + |caption|] == caption
    ensures r[7 + |caption|..18 + |caption|] == " you spent "
    ensures r[18 + |caption|..18 + |caption| + |currency|] == currency
    ensures r[19 + |caption| + |currency|..|r| - |NatToString(count)| - 8] == Money(spend)
    ensures r[|r| - |NatToString(count)| - 8..] == " across " + NatToString(count)
    ensures AllDigits(Unseparated(Money(spend))) && DigitsValue(Unseparated(Money(spend))) == spend
    ensures DigitsValue(NatToString(count)) == count
  {
    SpendLayout(caption, currency, Money(spend), NatToString(count));
    FiguresReadBack(spend, count);
    "In the " + caption + " you spent " + currency + " " + Money(spend) + " across " + NatToString(count)
  }

  /** The optional second sentence. */
  function AnomalyClause(flagged: nat): string {
    if flagged > 0 then " Flagged " + NatToString(flagged) + AnomalyClauseEnd else ""
  }

  /** The `summary` text: the spend sentence closed by " transactions.",
      then, when anomalies were flagged, a second sentence with their
      number; with none flagged the text ends after the first sentence. */
  function SummaryText(caption: string, currency: string, spend: nat, count: nat, flagged: nat): (r: string)
    ensures var n := |caption| + |currency| + |Money(spend)| + |NatToString(count)| + 27;
      && n + 14 <= |r|
      && r[..n] == SpendSentence(caption, currency, spend, count)
      && r[n..n + 14] == TransactionsEnd
      && (flagged == 0 ==> |r| == n + 14)
      && (flagged > 0 ==> r[n + 14..] == " Flagged " + NatToString(flagged) + AnomalyClauseEnd)
    ensures DigitsValue(NatToString(flagged)) == flagged
  {
    var sentence := SpendSentence(caption, currency, spend, count);
    var r := sentence + TransactionsEnd + AnomalyClause(flagged);
    assert r == sentence + (TransactionsEnd + AnomalyClause(flagged));
    NatToStringRoundTrip(flagged);
    r
  }

  /** Where each piece of the SMS line sits: the caption, the currency, the
      amount and the count, between their fixed separators. */
  lemma SmsLayout(caption: string, currency: string, money: string, tally: string)
    ensures var r := Capitalize(caption) + " spend " + currency + " " + money + "; " + tally + " txns.";
      && |r| == |caption| + |currency| + |money| + |tally| + 16
      && r[..|caption|] == Capitalize(caption)
      && r[|caption|..|caption| + 7] == " spend "
      && r[|caption| + 7..|caption| + 7 + |currency|] == currency
      && r[|caption| + 8 + |currency|..|r| - |tally| - 8] == money
      && r[|r| - |tally| - 8..] == "; " + tally + " txns."
  {
    var head := Capitalize(caption);
    var a := head + " spend " + currency + " ";
    var r := a + money + "; " + tally + " txns.";
    var tail := "; " + tally + " txns.";
    assert r == a + money + tail;
    assert r[..|a|] == a;
    assert r[|a|..|a| + |money|] == money;
    assert r[|a| + |money|..] == tail;
    assert |head| == |caption|;
    assert r[..|caption|] == a[..|head|] == head;
    assert r[|caption|..|caption| + 7] == a[|head|..|head| + 7] == " spend ";
    assert r[|caption| + 7..|caption| + 7 + |currency|] == a[|head| + 7..|head| + 7 + |currency|] == currency;
  }

  /** The amount and the count, as rendered, read back to their values. */
  lemma FiguresReadBack(spend: nat, count: nat)
    ensures AllDigits(Unseparated(Money(spend))) && DigitsValue(Unseparated(Money(spend))) == spend
    ensures DigitsValue(NatToString(count)) == count
  {
    MoneyRoundTrip(spend);
    NatToStringRoundTrip(count);
  }

  /** The `sms` line: the capitalised caption, then the currency, then the
      amount and the count, each of which reads back to its value. */
  function SmsText(caption: string, currency: string, spend: nat, count: nat): (r: string)
    ensures |r| == |caption| + |currency| + |Money(spend)| + |NatToString(count)| + 16
    ensures r[..|caption|] == Capitalize(caption)
    ensures r[|caption|..|caption| + 7] == " spend "
    ensures r[|caption| + 7..|caption| + 7 + |currency|] == currency
    ensures r[|caption| + 8 + |currency|..|r| - |NatToString(count)| - 8] == Money(spend)
    ensures r[|r| - |NatToString(count)| - 8..] == "; " + NatToString(count) + " txns."
    ensures AllDigits(Unseparated(Money(spend))) && DigitsValue(Unseparated(Money(spend))) == spend
    ensures DigitsValue(NatToString(count)) == count
  {
    SmsLayout(caption, currency, Money(spend), NatToString(count));
    FiguresReadBack(spend, count);
    Capitalize(caption) + " spend " + currency + " " + Money(spend) + "; " + NatToString(count) + " txns."
  }

  lemma EndsWithAppend(a: string, b: string)
    ensures EndsWith(a + b, b)
  {
    assert (a + b)[|a + b| - |b|..] == b;
  }

  /** A sentence closed by " transactions." does not end with the anomaly
      clause: the two endings differ seven characters before the end of the
      longer one. */
  lemma EndingsDiffer(s: string)
    requires EndsWith(s, TransactionsEnd)
    ensures !EndsWith(s, AnomalyClauseEnd)
  {
    assert s[|s| - 14] == TransactionsEnd[0] == ' ';
    if |s| >= |AnomalyClauseEnd| {
      assert s[|s| - 21..][7] == s[|s| - 14];
      assert AnomalyClauseEnd[7] == 'i';
    }
  }

  lemma EndsWithTrans(s: string, t: string, u: string)
    requires EndsWith(s, t) && EndsWith(t, u)
    ensures EndsWith(s, u)
  {
    assert s[|s| - |u|..] == t[|t| - |u|..];
  }

  /** Closing a sentence that ends in " transactions." with the anomaly
      clause. */
  lemma ClauseAfterTransactions(head: string, flagged: nat)
    requires EndsWith(head, TransactionsEnd)
    ensures EndsWith(head + AnomalyClause(flagged), AnomalyClauseEnd) <==> flagged > 0
    ensures flagged > 0 ==> EndsWith(head + AnomalyClause(flagged), " Flagged " + NatToString(flagged) + AnomalyClauseEnd)
    ensures flagged == 0 ==> EndsWith(head + AnomalyClause(flagged), TransactionsEnd)
  {
    if flagged == 0 {
      assert head + AnomalyClause(flagged) == head;
      EndingsDiffer(head);
    } else {
      var lead := " Flagged " + NatToString(flagged);
      EndsWithAppend(head, lead + AnomalyClauseEnd);
      EndsWithAppend(lead, AnomalyClauseEnd);
      EndsWithTrans(head + AnomalyClause(flagged), lead + AnomalyClauseEnd, AnomalyClauseEnd);
    }
  }

  /** The summary mentions anomalies exactly when some were flagged, and
      then with their number; otherwise it ends after the transaction count. */
  lemma SummaryAnomalyClause(caption: string, currency: string, spend: nat, count: nat, flagged: nat)
    ensures EndsWith(SummaryText(caption, currency, spend, count, flagged), AnomalyClauseEnd) <==> flagged > 0
    ensures flagged > 0 ==> EndsWith(SummaryText(caption, currency, spend, count, flagged), " Flagged " + NatToString(flagged) + AnomalyClauseEnd)
    ensures flagged == 0 ==> EndsWith(SummaryText(caption, currency, spend, count, flagged), TransactionsEnd)
  {
    var sentence := SpendSentence(caption, currency, spend, count);
    EndsWithAppend(sentence, TransactionsEnd);
    ClauseAfterTransactions(sentence + TransactionsEnd, flagged);
  }

  predicate NoUpper(s: string) {
    forall i :: 0 <= i < |s| ==> !('A' <= s[i] <= 'Z')
  }

  lemma NoUpperAppend(a: string, b: string)
    requires NoUpper(a) && NoUpper(b)
    ensures NoUpper(a + b)
  {
  }

  lemma LowerKeepsNonLetters(s: string)
    requires NoUpper(s)
    ensures Lower(s) == s
  {
  }

  lemma IntToStringNoUpper(n: int)
    ensures NoUpper(IntToString(n))
  {
    if n < 0 {
      assert IntToString(n) == "-" + NatToString(-n);
    }
  }

  /** Capitalising a string whose tail has no capital letter only
      upper-cases its first character. */
  lemma CapitalizeLowerTail(c: char, rest: string)
    requires NoUpper(rest)
    ensures Capitalize([c] + rest) == [UpperChar(c)] + rest
  {
    assert ([c] + rest)[1..] == rest;
    LowerKeepsNonLetters(rest);
  }

  /** "last N days" with any lower-case N only gains its capital L. */
  lemma CapitalizeLastWords(digits: string)
    requires NoUpper(digits)
    ensures Capitalize("last " + digits + " days") == "Last " + digits + " days"
  {
    var rest := "ast " + digits + " days";
    NoUpperAppend("ast ", digits);
    NoUpperAppend("ast " + digits, " days");
    assert "last " + digits + " days" == ['l'] + rest;
    assert "Last " + digits + " days" == ['L'] + rest;
    CapitalizeLowerTail('l', rest);
  }

  lemma CapitalizeLastDays(n: int)
    ensures Capitalize("last " + IntToString(n) + " days") == "Last " + IntToString(n) + " days"
  {
    IntToStringNoUpper(n);
    CapitalizeLastWords(IntToString(n));
  }

  lemma SelectedTailLower()
    ensures NoUpper("elected window")
  {
    var a, b := "elected", " window";
    assert NoUpper(a) && NoUpper(b);
    NoUpperAppend(a, b);
    assert a + b == "elected window";
  }

  lemma CapitalizeSelected()
    ensures Capitalize("selected window") == "Selected window"
  {
    SelectedTailLower();
    assert "selected window" == ['s'] + "elected window";
    CapitalizeLowerTail('s', "elected window");
  }

  /** `window_caption.capitalize()` only upper-cases the first letter of the
      caption: the rest is already lower case. */
  lemma CaptionCapitalized(c: Caption)
    ensures c.LastDays? ==> Capitalize(CaptionText(c)) == "Last " + IntToString(c.days) + " days"
    ensures c.SelectedWindow? ==> Capitalize(CaptionText(c)) == "Selected window"
  {
    if c.LastDays? {
      CapitalizeLastDays(c.days);
    } else {
      CapitalizeSelected();
    }
  }
}
