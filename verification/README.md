# Banking window analytics and the daily-report router, in Dafny

This project models the two deterministic cores of the repository and proves
properties of them.

**The banking window analytics engine.** The repository holds it twice:

- the director's `bank_window_summary`;
- the A2A agent's `bank_window_summary_tool`.

It reads a bank document (`user.accounts[]`, each with `transactions[]` and
`recurring_payments[]`) and does the following:

- flattens the transactions and tags each one with its account's label;
- admits only the debits whose timestamp lies in the caller's window;
- adds their absolute amounts into totals and into per-merchant and
  per-category buckets;
- sorts the buckets by spend;
- lists the recurring charges;
- flags as anomalies those of the ten largest debits that reach
  `max(mean + 2·pstdev, 500)`;
- returns an `ok` envelope with a summary sentence and an SMS line.

The two copies are one engine here, `Engine`, told apart by a `Variant`:

- the director copy lists every recurring charge and sorts the buckets on the
  rounded spend;
- the A2A copy lists only the charges due inside the window (or with no due
  date) and sorts on the unrounded spend.

**The router's daily-report fast path** (`Router`):

- it normalises the query (stripped, lower-cased);
- a query naming a daily report injects a "today" window into a payload that
  has none;
- it hands the call to the routing model;
- it turns a non-JSON reply into an error envelope that carries the trace id.

The routing model is an oracle: a function from the call to `Option<Json>`.

Amounts are integer cents, so two-decimal rounding is exact. The
anomaly threshold is decided in exact integer arithmetic: with `n` debits
of sum `S`, and `d = n·amt − S`, the test is
`d >= 0 && d² >= 4·(n·Q − S²)`. This is proved equivalent to the source's
real-valued `amt >= max(S/n + 2·std, 500)`. The ISO-8601 reader is a
parameter, `IsoParser`, and the clock's date is a parameter `today`.

Modules, one per file: `Options`, `Text`, `Json`, `Seqs`, `StableSort`,
`TimeWindow` (window.dfy), `Ledger`, `Buckets`, `Anomalies`, `ReportText`,
`Engine`, `Router`, and `Scenarios` (worked cases).

The window caption follows the code as written: it is "last N days" with
`N = (until − since).days or 1`. A window whose end comes before its start
therefore gets a negative N, not a minimum of 1. `TimeWindow.CaptionOf`
states every case: a span under one day gives N = 1, and any other span,
negative ones included, lies between N and N+1 days.

## Model

| member | source | states |
|---|---|---|
| TimeWindow.ResolveWindow | src/agents/banking_agent_a2a.py:70-73 | A missing, empty or unparseable bound is open (None); a present bound is what the reader makes of it; resolving never fails |
| TimeWindow.InWindow | src/director_agent/agent_folder/banking_agent/agent.py:38-42 | `_in_window`: an instant is inside exactly when it is present and its one-point window lies within the bounds, each present bound inclusive and each absent bound open |
| TimeWindow.InWindowClosed | src/director_agent/agent_folder/banking_agent/agent.py:38-42 | With both bounds present, an instant is admitted iff `since <= t <= until` (both inclusive); a record without an instant never is |
| TimeWindow.OpenWindowAdmitsAll | src/agents/banking_agent_a2a.py:28-35 | With both bounds absent, every record with an instant is admitted and only those |
| TimeWindow.InWindowMonotone | src/director_agent/agent_folder/banking_agent/agent.py:38-42 | Widening a window never drops an admitted instant |
| TimeWindow.ReversedWindowEmpty | src/director_agent/agent_folder/banking_agent/agent.py:38-42 | A window whose start is after its end admits nothing (the source does not reject it) |
| TimeWindow.CaptionOf | src/director_agent/agent_folder/banking_agent/agent.py:143-147 | "last N days" iff both bounds are known. N is never 0. A span of 0 up to one day gives N = 1; any other span, reversed windows included, is at least N days and under N+1 days (the floor of `timedelta.days`), so a reversed window gives N < 0 |
| Ledger.FlattenTxns | src/agents/banking_agent_a2a.py:37-44 | No accounts (missing `user` or `accounts`) gives no records. Every record is some account's transaction tagged with that account's label (nickname, else type). Placement (`TxnsPlaced`): the count is the sum of the accounts' transaction counts, and transaction j of account i sits at index (transactions of accounts 0..i-1) + j, tagged with account i's label, so order and repeats follow the nested loops |
| Ledger.PlacedTxnsPresent | src/agents/banking_agent_a2a.py:37-44 | Under that placement every transaction of every account appears in the list |
| Ledger.AllRecurring | src/director_agent/agent_folder/banking_agent/agent.py:53-64 | No accounts gives no charges. Every element is the charge (label, name, amount, frequency, next charge) of some account's payment. Placement (`ChargesPlaced`): the count is the sum of the payment counts, and payment j of account i's charge sits at index (payments of accounts 0..i-1) + j |
| Ledger.PlacedChargesPresent | src/director_agent/agent_folder/banking_agent/agent.py:53-64 | Under that placement the charge of every payment of every account is listed |
| Ledger.InstantOf | src/agents/banking_agent_a2a.py:84-85 | A record's instant is its posted time when present, else its created time, else none |
| Ledger.IsDebitCaseInsensitive | src/director_agent/agent_folder/banking_agent/agent.py:91-92 | A record is a debit iff its type is the five letters of "debit" in any mixture of cases |
| Ledger.MerchantKey | src/director_agent/agent_folder/banking_agent/agent.py:98 | The merchant key is the merchant's name when truthy, else the stripped description, else "unknown" |
| Ledger.CategoryKey | src/director_agent/agent_folder/banking_agent/agent.py:99 | The category key is the stripped category, else the stripped merchant category, else "uncategorized"; it is always stripped |
| Text.Strip | src/director_agent/agent_folder/banking_agent/agent.py:98 | `.strip()` returns the input's middle part: nothing but whitespace is removed, and only from the two ends |
| Text.StripUnique | src/director_agent/agent_folder/banking_agent/agent.py:99 | Whitespace around a stripped string is exactly what `.strip()` removes |
| Text.StripIdempotent | src/common/router_consumer_a2a.py:84 | Stripping twice is stripping once |
| Buckets.Group | src/director_agent/agent_folder/banking_agent/agent.py:101-107 | The `setdefault` buckets: one per key, keys in first-seen order, each holding exactly the spend and the count of its key's entries (count > 0), and together all the spend and all the entries |
| StableSort.SortDesc | src/agents/banking_agent_a2a.py:125-126 | `sorted(..., reverse=True)` is a permutation in descending key order that keeps equal-key elements in their original order |
| StableSort.StableSortUnique | src/agents/banking_agent_a2a.py:125-126 | Two descending orders that keep every equal-key group in the same order are the same sequence: the stable sort is unique |
| StableSort.SortPreservesCount | src/director_agent/agent_folder/banking_agent/agent.py:116 | Sorting does not change how many elements satisfy a test |
| Engine.Admits | src/director_agent/agent_folder/banking_agent/agent.py:87-92 | A record is admitted only if it is a debit with an instant. With a posted time, it is admitted iff it is a debit and the posted time parses into the window; without one, the same for the created time; with neither, never |
| Engine.CollectDebits | src/director_agent/agent_folder/banking_agent/agent.py:87-107 | The loop: the debits and debit records are exactly the admitted records in order, and the two bucket maps are the groupings of their merchant and category entries |
| Engine.NotAdmittedIgnored | src/director_agent/agent_folder/banking_agent/agent.py:87-92 | A record that is not admitted changes nothing in the findings, wherever it appears among the records |
| Engine.CreditIgnored | src/agents/banking_agent_a2a.py:88-89 | A non-debit never reaches the totals, buckets or anomalies |
| Engine.SortedKeys | src/agents/banking_agent_a2a.py:125-126 | Sorting a grouping keeps one bucket per key, and the key of every entry still has its bucket |
| Engine.SortBuckets | src/agents/banking_agent_a2a.py:125-126 | The sorted buckets are a permutation of the grouping with one bucket per key and a bucket for every entry's key, descending by spend with ties in first-seen order; each holds exactly its key's spend and count; the totals are kept |
| Engine.SortKeysAgree | src/director_agent/agent_folder/banking_agent/agent.py:129-138 | For amounts in exact cents, sorting on the rounded spend gives the same order as sorting on the unrounded spend |
| Engine.SortBucketsAgree | src/director_agent/agent_folder/banking_agent/agent.py:129-138 | For amounts in exact cents, both copies list the same buckets in the same order |
| Engine.MerchantBuckets | src/director_agent/agent_folder/banking_agent/agent.py:101-103 | The per-merchant buckets rearrange the grouping of the admitted records: one bucket per merchant key and one for every admitted record's merchant, descending by spend with ties in first-seen order, each holding exactly its merchant's admitted spend and count, and together the admitted spend and record count |
| Engine.CategoryBuckets | src/director_agent/agent_folder/banking_agent/agent.py:105-107 | The same for the per-category buckets, one per category key |
| Engine.RecurringIn | src/agents/banking_agent_a2a.py:132 | Director: every charge. A2A: a charge is listed iff its due date parses into the window or it has no due date, and each kept charge keeps all its copies (multiset count equal to the input's) while a dropped one has none |
| Engine.RecurringSnoc | src/agents/banking_agent_a2a.py:132 | The empty list lists nothing; appending a charge to the input appends it to the listing exactly when the variant keeps it, so the listing keeps input order |
| Engine.RecurringDueDates | src/agents/banking_agent_a2a.py:132 | A charge without a due date is always listed; in the A2A copy one with an unreadable due date never is |
| Engine.FromAdmitted | src/director_agent/agent_folder/banking_agent/agent.py:109-141 | Count = number of admitted records. Spend = sum of their magnitudes (never negative). Both bucket lists hold exactly the total spend and count. Recurring and anomalies as defined |
| Engine.CopiesAgree | src/agents/banking_agent_a2a.py:125-131 | For amounts in exact cents, the two copies report the same totals, buckets and anomalies; they differ only in the recurring list |
| Engine.WindowedRecurringSubset | src/agents/banking_agent_a2a.py:132 | Every charge the A2A copy lists is also listed by the director copy |
| Engine.Summarize | src/agents/banking_agent_a2a.py:142-156 | Status "ok", error None and the caller's trace id. The summary ends with "Flagged K potential anomalies." iff K > 0 anomalies were found. The summary and the SMS line are the texts laid out by SummaryText and SmsText for the window's caption, the currency code and the findings' spend, count and anomaly count |
| Engine.BankWindowSummary | src/director_agent/agent_folder/banking_agent/agent.py:67-154 | The loop-and-sort implementation computes the same envelope as the functional reference Summarize |
| Anomalies.FlaggedDebits | src/director_agent/agent_folder/banking_agent/agent.py:111-125 | At most ten flagged debits, none when there are no debits. Each is a debit that reaches the threshold (so at least 500.00), with fewer than ten debits larger. In descending order, and exactly the `min(10, K)` largest debits, where K debits reach the threshold |
| Anomalies.DetectAnomalies | src/agents/banking_agent_a2a.py:108-123 | The anomaly records: record i is built from the i-th flagged debit, as many as the flagged debits (at most ten), none without debits; every amount reaches the threshold, is at least 500.00, and the amounts descend; each record comes from an admitted debit |
| Anomalies.AnomalyProvenance | src/agents/banking_agent_a2a.py:117-123 | Every anomaly record is built from one of the admitted debits |
| Anomalies.ThresholdMatchesSource | src/director_agent/agent_folder/banking_agent/agent.py:113-118 | For any std >= 0 whose square is the population variance (0 for a single debit), an amount passes the exact test iff it is `>= max(mean + 2·std, 500)` |
| Anomalies.SpreadIsScaledVariance | src/director_agent/agent_folder/banking_agent/agent.py:113-114 | With two or more debits, `n·Q − S²` equals `n²` times the population variance computed from the mean |
| Anomalies.SpreadNonNegative | src/director_agent/agent_folder/banking_agent/agent.py:114 | The scaled variance is never negative |
| Anomalies.SingleDebitThreshold | src/director_agent/agent_folder/banking_agent/agent.py:114-115 | With a single debit the deviation is 0, so the threshold is exactly `max(amount, 500)` |
| Anomalies.UniformDebitsAllFlagged | src/director_agent/agent_folder/banking_agent/agent.py:111-118 | Debits that all have the same amount of at least 500.00 are all flagged, up to ten |
| ReportText.MoneyRoundTrip | src/director_agent/agent_folder/banking_agent/agent.py:149 | `{:,.2f}` gives a well-grouped integer part, a point and two decimals, and its digits read back as the amount in cents |
| ReportText.CurrencyCode | src/director_agent/agent_folder/banking_agent/agent.py:79 | The currency is the upper-cased argument when truthy, else "USD"; never empty |
| ReportText.SummaryAnomalyClause | src/agents/banking_agent_a2a.py:143-145 | The summary ends with " potential anomalies." iff anomalies were flagged, then as " Flagged K potential anomalies."; otherwise it ends with " transactions." |
| ReportText.SpendSentence | src/agents/banking_agent_a2a.py:150 | The first sentence is "In the ", the caption, " you spent ", the currency, the amount and " across " with the count, each at its place; the amount's digits read back to the spend in cents and the count reads back |
| ReportText.SummaryText | src/agents/banking_agent_a2a.py:150-152 | The summary starts with the spend sentence, then " transactions."; with no anomaly it ends there, otherwise it continues with " Flagged K potential anomalies." where K reads back to the anomaly count |
| ReportText.SmsText | src/agents/banking_agent_a2a.py:147 | The SMS line is the capitalised caption, " spend ", the currency, the amount and "; N txns.", each at its place; the amount's digits read back to the spend in cents and N reads back to the count |
| ReportText.CaptionCapitalized | src/agents/banking_agent_a2a.py:147 | `.capitalize()` on the caption only upper-cases its first letter: "Last N days" or "Selected window" |
| Router.MentionsAny | src/common/router_consumer_a2a.py:87 | `any(kw in query for kw in kws)` holds iff some keyword is a substring of the query |
| Router.KeywordMakesDaily | src/common/router_consumer_a2a.py:22-25 | Any daily keyword anywhere in the query selects the fast path |
| Router.ShortQueryNotDaily | src/common/router_consumer_a2a.py:22-25 | A query shorter than the shortest keyword (12 characters) never selects it |
| Router.Task | src/common/router_consumer_a2a.py:80 | The task is the envelope's when the key is present (even null), else "USER_QUERY" |
| Router.PayloadOf | src/common/router_consumer_a2a.py:81 | The payload is the envelope's when truthy, else empty |
| Router.TraceId | src/common/router_consumer_a2a.py:82 | The trace id is the envelope's when truthy, else the payload's |
| Router.Query | src/common/router_consumer_a2a.py:84 | The query is the first truthy of `query` and `prompt` (else ""), stripped and lower-cased; it has no surrounding whitespace and no capital letter |
| Router.IsoStamp | src/common/router_consumer_a2a.py:63-64 | `isoformat()` gives `YYYY-MM-DDTHH:MM:SS`: 19 characters with the separators in place, and every field reads back as the date and time given |
| Router.IsoStampDate | src/common/router_consumer_a2a.py:63-64 | The first ten characters depend on the date alone |
| Router.TodayWindow | src/common/router_consumer_a2a.py:60-65 | The window has exactly `since` (today 00:00:00) and `until` (today 23:59:59) |
| Router.TodayWindowSameDay | src/common/router_consumer_a2a.py:60-65 | Both bounds fall on today's date, at the first and the last second of the day |
| Router.TodayWindowCaption | src/common/router_consumer_a2a.py:63-65 | When the banking engine reads the injected window, it captions it "last 1 days" and admits exactly that day's instants |
| Router.EnsureDailyWindow | src/common/router_consumer_a2a.py:72-77 | A truthy window leaves the payload as it is. Otherwise the result has the same keys plus "window", holds today's window there, and agrees with the input on every other key; the result's window is always truthy |
| Router.EnsureDailyWindowIdempotent | src/common/router_consumer_a2a.py:72-77 | Ensuring the daily window twice is ensuring it once |
| Router.RouterCall | src/common/router_consumer_a2a.py:79-89 | The model sees the task and the normalised query. Daily mode iff some daily keyword occurs in the query. Only then is the payload given the daily window; otherwise it is passed as received |
| Router.Reply | src/common/router_consumer_a2a.py:90-102 | A JSON reply is returned as is. A non-JSON reply becomes `{status: "error", error, traceId}`, whose message is the daily one iff the call was in daily mode |
| Router.Route | src/common/router_consumer_a2a.py:79-102 | The whole `route`: the model's JSON reply, or the error envelope with the resolved trace id and the message of the path taken |
| Router.NonDailyKeepsWindow | src/common/router_consumer_a2a.py:96-97 | Outside daily mode the payload, and in particular its window, reaches the model unchanged |
| Router.DailyHasWindow | src/common/router_consumer_a2a.py:86-88 | In daily mode the model always sees a truthy window, and it is the caller's own when the caller sent one |
| Scenarios.DebitAndCredit | src/director_agent/agent_folder/banking_agent/agent.py:87-154 | One $42.53 debit and one $100 credit, with no window: totals 4253/1; one merchant and one category bucket; no anomaly; the summary "In the selected window you spent USD 42.53 across 1 transactions." |
| Scenarios.SingleRecordFindings | src/director_agent/agent_folder/banking_agent/agent.py:94-125 | A single admitted record below 500.00 makes one bucket of each kind holding it, and no anomaly |
| Scenarios.EmptyLedger | src/agents/banking_agent_a2a.py:37-57 | A document without accounts gives zero totals, no buckets, no recurring charges and no anomalies; the summary ends " 0 transactions." |

## Left out

- **Loading the bank document.** `json_path` file loading and the built-in `BANK_JSON` fallback are file I/O. The model starts from the parsed document.
- **ISO-8601 parsing.** `datetime.fromisoformat`, the "Z" rewrite and the naive-to-UTC step are the `IsoParser` parameter. Instants are microseconds since the epoch, in UTC.
- **Floating point.** Amounts are integer cents, so `round(x, 2)` is exact. Float summation error and float `pstdev` rounding are not modelled. The threshold is exact: `Anomalies.ThresholdMatchesSource` ties it to the real-valued mean and deviation.
- Engine.SortKeysAgree: holds for amounts in exact cents only. With float sums the director's rounded key can tie where the A2A key does not: merchant B seen first with one 0.30 charge, merchant A with 0.10 and 0.20 (0.30000000000000004), gives [B, A] in the director copy and [A, B] in the A2A copy.
- Engine.SortBucketsAgree: the same order for both copies holds for exact cents only, for the reason above.
- Engine.CopiesAgree: the same bucket order for both copies holds for exact cents only, for the reason above.
- **Null versus missing keys.** An explicit JSON null in a record field reads like a missing key, through `or`. An explicit null `user` or `accounts` also reads as missing and gives no records, whereas the source's `bank.get("user", {}).get("accounts", [])` has no `or` there and raises.
- Ledger.Magnitude: an explicit null `amount` reads as 0. The source's `float(None)` raises instead.
- **Ill-typed documents.** A document whose fields have the wrong JSON types (an amount that is a string, accounts that are not a list) cannot be written in the typed datatypes.
- **Case mapping.** `lower()`, `upper()` and `capitalize()` map ASCII letters only. The strings the model compares against ("debit" and the daily keywords) are ASCII.
- **The envelope layout.** `Report` carries the findings directly rather than under `data`.
- **The clock and the zone.** `datetime.now().date()` is the parameter `today`. The zone lookup in `_ensure_daily_window` is computed but never used. The model keeps only the condition under which the lookup does not raise (`Router.ZoneReadable`).
- **Inputs on which Python raises.** RouterCall, Route, Query and EnsureDailyWindow require envelopes on which the source does not raise: a payload that is not an object, a query that is not a string, or a `user` that is not an object when the zone is read. The exception is not modelled.
- **JSON numbers and key order.** `Json` numbers are integers only, and an object is a `map`, which has no key order. `json.dumps(payload)` hands the routing model both float values and the payload's insertion order, including where the appended "window" key lands.
- **Exceptions from the model call.** `run_agent_once` is called outside the `try` (router_consumer_a2a.py:90 and :98), so an exception it raises escapes `route` instead of becoming an error reply. The `Agent` oracle always returns, so the model has no such outcome; its `None` stands only for a reply that is missing or not JSON.
- **The prompt and the model.** The `user_input` prompt string (`json.dumps` of the payload) is not built; `AgentCall` carries its parts instead. The routing model, its single-target keyword routing (prompt text only) and its merging of the three agents' replies are the `Agent` oracle, which returns the reply of `run_agent_once` as parsed inside the `try`.
- **The remaining components.** The calendar and mail agents, the bot, the ingest server, the tool and agent registration, and the A2A servers are outside the two cores.
