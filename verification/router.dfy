/** The A2A router's deterministic part: reading the envelope, the
    daily-report fast path with its injected "today" window, and the error
    envelopes returned when the routing model does not answer with JSON.
    The routing model itself is an oracle: a function from what the router
    sends it to its reply, read as JSON (None when the reply is not JSON). */
module Router {
  import opened Options
  import opened Text
  import opened Json
  import opened TimeWindow
  import opened ReportText

  // ---------------------------------------------------------------------
  // The daily-report test.

  const DailyKeywords: seq<string> := [
    "daily report", "today report", "todays report", "today's report",
    "daily summary", "today summary", "today's summary", "summary for today"
  ]

  /** Some keyword of `kws` is a substring of `query`. */
  function MentionsAny(query: string, kws: seq<string>): (r: bool)
    ensures r <==> exists i :: 0 <= i < |kws| && Contains(query, kws[i])
  {
    if |kws| == 0 then false
    else
      assert forall i :: 1 <= i < |kws| ==> kws[i] == kws[1..][i - 1];
      Contains(query, kws[0]) || MentionsAny(query, kws[1..])
  }

  /** The fast-path test on the normalised query. */
  predicate IsDaily(query: string) {
    MentionsAny(query, DailyKeywords)
  }

  /** Any keyword anywhere in the query selects the fast path. */
  lemma KeywordMakesDaily(a: string, i: nat, b: string)
    requires i < |DailyKeywords|
    ensures IsDaily(a + DailyKeywords[i] + b)
  {
    var q := a + DailyKeywords[i] + b;
    assert q[|a|..|a| + |DailyKeywords[i]|] == DailyKeywords[i];
    assert OccursAt(q, DailyKeywords[i], |a|);
    ContainsAt(q, DailyKeywords[i]);
  }

  /** The shortest keyword has twelve characters, so a shorter query never
      selects the fast path. */
  lemma ShortQueryNotDaily(q: string)
    requires |q| < 12
    ensures !IsDaily(q)
  {
    forall i | 0 <= i < |DailyKeywords| ensures !Contains(q, DailyKeywords[i]) {
      assert |DailyKeywords[i]| >= 12;
      ContainsAt(q, DailyKeywords[i]);
    }
  }

  // ---------------------------------------------------------------------
  // Reading the envelope.

  /** `envelope.get("task", "USER_QUERY")`: the default applies only when
      the key is missing, so an explicit null stays null. */
  function Task(env: map<string, Json>): (t: Json)
    ensures "task" !in env ==> t == Str("USER_QUERY")
    ensures "task" in env ==> t == env["task"]
  {
    if "task" in env then env["task"] else Str("USER_QUERY")
  }

  /** The payload can be read as a dict: a truthy payload that is not an
      object makes the later `payload.get` fail. */
  predicate PayloadReadable(env: map<string, Json>) {
    Truthy(Get(env, "payload")) ==> Get(env, "payload").Obj?
  }

  /** `envelope.get("payload", {}) or {}`. */
  function PayloadOf(env: map<string, Json>): (p: map<string, Json>)
    requires PayloadReadable(env)
    ensures Truthy(Get(env, "payload")) ==> Obj(p) == env["payload"]
    ensures !Truthy(Get(env, "payload")) ==> p == map[]
  {
    var j := Get(env, "payload");
    if Truthy(j) then j.fields else map[]
  }

  /** `envelope.get("traceId") or payload.get("traceId")`. */
  function TraceId(env: map<string, Json>, payload: map<string, Json>): (t: Json)
    ensures Truthy(Get(env, "traceId")) ==> t == env["traceId"]
    ensures !Truthy(Get(env, "traceId")) ==> t == Get(payload, "traceId")
  {
    Or(Get(env, "traceId"), Get(payload, "traceId"))
  }

  /** `payload.get("query") or payload.get("prompt") or ""`, before
      normalisation. */
  function RawQuery(payload: map<string, Json>): Json {
    Or(Or(Get(payload, "query"), Get(payload, "prompt")), Str(""))
  }

  /** `.strip()` can be called: the chosen value is a string. */
  predicate QueryReadable(payload: map<string, Json>) {
    RawQuery(payload).Str?
  }

  lemma LowerKeepsStripped(s: string)
    requires IsStripped(s)
    ensures IsStripped(Lower(s))
  {
    if |s| > 0 {
      assert Lower(s)[0] == LowerChar(s[0]);
      assert Lower(s)[|s| - 1] == LowerChar(s[|s| - 1]);
    }
  }

  lemma LowerHasNoUpper(s: string)
    ensures NoUpper(Lower(s))
  {
    forall i | 0 <= i < |s| ensures !('A' <= Lower(s)[i] <= 'Z') {
      assert Lower(s)[i] == LowerChar(s[i]);
    }
  }

  /** Which field the raw query comes from. */
  lemma RawQuerySource(payload: map<string, Json>)
    ensures Truthy(Get(payload, "query")) ==> RawQuery(payload) == payload["query"]
    ensures !Truthy(Get(payload, "query")) && Truthy(Get(payload, "prompt")) ==> RawQuery(payload) == payload["prompt"]
    ensures !Truthy(Get(payload, "query")) && !Truthy(Get(payload, "prompt")) ==> RawQuery(payload) == Str("")
  {
  }

  /** The normalised query: the first truthy of `query` and `prompt`,
      stripped of surrounding whitespace and lower-cased. */
  function Query(payload: map<string, Json>): (q: string)
    requires QueryReadable(payload)
    ensures IsStripped(q) && NoUpper(q)
    ensures Truthy(Get(payload, "query")) ==> q == Lower(Strip(payload["query"].s))
    ensures !Truthy(Get(payload, "query")) && Truthy(Get(payload, "prompt")) ==> q == Lower(Strip(payload["prompt"].s))
    ensures !Truthy(Get(payload, "query")) && !Truthy(Get(payload, "prompt")) ==> q == ""
  {
    var raw := RawQuery(payload).s;
    RawQuerySource(payload);
    LowerKeepsStripped(Strip(raw));
    LowerHasNoUpper(Strip(raw));
    Lower(Strip(raw))
  }

  // ---------------------------------------------------------------------
  // The "today" window.

  datatype Date = Date(year: int, month: int, day: int)

  function DaysInMonth(year: int, month: int): int {
    if month == 2 then (if (year % 4 == 0 && year % 100 != 0) || year % 400 == 0 then 29 else 28)
    else if month == 4 || month == 6 || month == 9 || month == 11 then 30
    else 31
  }

  /** A date the clock can report (`datetime.date`'s range). */
  predicate ValidDate(d: Date) {
    1 <= d.year <= 9999 && 1 <= d.month <= 12 && 1 <= d.day <= DaysInMonth(d.year, d.month)
  }

  lemma TwoDigits(n: nat)
    requires n < 100
    ensures |PadNat(n, 2)| == 2
  {
    assert Pow10(2) == 100;
    PadNatWidth(n, 2);
  }

  /** Six fields laid out as `YYYY-MM-DDTHH:MM:SS`. */
  function StampLayout(y: string, mo: string, d: string, h: string, mi: string, s: string): string {
    y + "-" + mo + "-" + d + "T" + h + ":" + mi + ":" + s
  }

  /** The fields of the layout sit at fixed offsets. */
  lemma LayoutFields(y: string, mo: string, d: string, h: string, mi: string, s: string)
    requires |y| == 4 && |mo| == 2 && |d| == 2 && |h| == 2 && |mi| == 2 && |s| == 2
    ensures var t := StampLayout(y, mo, d, h, mi, s);
      && |t| == 19
      && t[4] == '-' && t[7] == '-' && t[10] == 'T' && t[13] == ':' && t[16] == ':'
      && t[..4] == y && t[5..7] == mo && t[8..10] == d
      && t[11..13] == h && t[14..16] == mi && t[17..] == s
      && t[..10] == y + "-" + mo + "-" + d
  {
    var date, time := y + "-" + mo + "-" + d, h + ":" + mi + ":" + s;
    var t := StampLayout(y, mo, d, h, mi, s);
    assert t == date + "T" + time;
    assert t[..10] == date;
    assert date[..4] == y && date[5..7] == mo && date[8..10] == d;
    assert t[11..] == time;
    assert time[..2] == h && time[3..5] == mi && time[6..] == s;
  }

  /** The zero-padded fields of a valid date and time of day. */
  lemma PaddedFields(d: Date, hh: nat, mm: nat, ss: nat)
    requires ValidDate(d) && hh < 24 && mm < 60 && ss < 60
    ensures |PadNat(d.year, 4)| == 4 && AllDigits(PadNat(d.year, 4)) && DigitsValue(PadNat(d.year, 4)) == d.year
    ensures |PadNat(d.month, 2)| == 2 && AllDigits(PadNat(d.month, 2)) && DigitsValue(PadNat(d.month, 2)) == d.month
    ensures |PadNat(d.day, 2)| == 2 && AllDigits(PadNat(d.day, 2)) && DigitsValue(PadNat(d.day, 2)) == d.day
    ensures |PadNat(hh, 2)| == 2 && AllDigits(PadNat(hh, 2)) && DigitsValue(PadNat(hh, 2)) == hh
    ensures |PadNat(mm, 2)| == 2 && AllDigits(PadNat(mm, 2)) && DigitsValue(PadNat(mm, 2)) == mm
    ensures |PadNat(ss, 2)| == 2 && AllDigits(PadNat(ss, 2)) && DigitsValue(PadNat(ss, 2)) == ss
  {
    assert Pow10(4) == 10000;
    PadNatWidth(d.year, 4);
    TwoDigits(d.month);
    TwoDigits(d.day);
    TwoDigits(hh);
    TwoDigits(mm);
    TwoDigits(ss);
    PadNatValue(d.year, 4);
    PadNatValue(d.month, 2);
    PadNatValue(d.day, 2);
    PadNatValue(hh, 2);
    PadNatValue(mm, 2);
    PadNatValue(ss, 2);
  }

  /** `datetime(y, m, d, hh, mm, ss).isoformat()`: `YYYY-MM-DDTHH:MM:SS`
      with every field zero-padded; the fields read back as the date and
      the time of day. */
  function IsoStamp(d: Date, hh: nat, mm: nat, ss: nat): (s: string)
    requires ValidDate(d) && hh < 24 && mm < 60 && ss < 60
    ensures |s| == 19
    ensures s[4] == '-' && s[7] == '-' && s[10] == 'T' && s[13] == ':' && s[16] == ':'
    ensures AllDigits(s[..4]) && AllDigits(s[5..7]) && AllDigits(s[8..10])
    ensures AllDigits(s[11..13]) && AllDigits(s[14..16]) && AllDigits(s[17..])
    ensures DigitsValue(s[..4]) == d.year && DigitsValue(s[5..7]) == d.month && DigitsValue(s[8..10]) == d.day
    ensures DigitsValue(s[11..13]) == hh && DigitsValue(s[14..16]) == mm && DigitsValue(s[17..]) == ss
  {
    PaddedFields(d, hh, mm, ss);
    LayoutFields(PadNat(d.year, 4), PadNat(d.month, 2), PadNat(d.day, 2), PadNat(hh, 2), PadNat(mm, 2), PadNat(ss, 2));
    StampLayout(PadNat(d.year, 4), PadNat(d.month, 2), PadNat(d.day, 2), PadNat(hh, 2), PadNat(mm, 2), PadNat(ss, 2))
  }

  /** The stamp's date part depends on the date alone. */
  lemma IsoStampDate(d: Date, hh: nat, mm: nat, ss: nat, hh': nat, mm': nat, ss': nat)
    requires ValidDate(d) && hh < 24 && mm < 60 && ss < 60 && hh' < 24 && mm' < 60 && ss' < 60
    ensures IsoStamp(d, hh, mm, ss)[..10] == IsoStamp(d, hh', mm', ss')[..10]
  {
    var y, mo, da := PadNat(d.year, 4), PadNat(d.month, 2), PadNat(d.day, 2);
    PaddedFields(d, hh, mm, ss);
    PaddedFields(d, hh', mm', ss');
    LayoutFields(y, mo, da, PadNat(hh, 2), PadNat(mm, 2), PadNat(ss, 2));
    LayoutFields(y, mo, da, PadNat(hh', 2), PadNat(mm', 2), PadNat(ss', 2));
  }

  /** `_today_window(tz)`: the whole of today, from `00:00:00` to
      `23:59:59`. The zone argument is computed by the caller but never
      used, so it is not a parameter here; `today` is the clock's reading. */
  function TodayWindow(today: Date): (w: map<string, Json>)
    requires ValidDate(today)
    ensures w.Keys == {"since", "until"}
    ensures w["since"] == Str(IsoStamp(today, 0, 0, 0))
    ensures w["until"] == Str(IsoStamp(today, 23, 59, 59))
  {
    map["since" := Str(IsoStamp(today, 0, 0, 0)), "until" := Str(IsoStamp(today, 23, 59, 59))]
  }

  /** The injected window is a non-empty object, so it counts as given. */
  lemma TodayWindowTruthy(today: Date)
    requires ValidDate(today)
    ensures |TodayWindow(today)| > 0 && Truthy(Obj(TodayWindow(today)))
  {
    assert "since" in TodayWindow(today);
  }

  /** Both bounds fall on today's date, at the first and the last second
      of the day. */
  lemma TodayWindowSameDay(today: Date)
    requires ValidDate(today)
    ensures var since, until := TodayWindow(today)["since"].s, TodayWindow(today)["until"].s;
      && since[..10] == until[..10]
      && DigitsValue(since[..4]) == today.year
      && DigitsValue(since[5..7]) == today.month
      && DigitsValue(since[8..10]) == today.day
      && DigitsValue(since[11..13]) == 0 && DigitsValue(since[14..16]) == 0 && DigitsValue(since[17..]) == 0
      && DigitsValue(until[11..13]) == 23 && DigitsValue(until[14..16]) == 59 && DigitsValue(until[17..]) == 59
  {
    IsoStampDate(today, 0, 0, 0, 23, 59, 59);
  }

  /** Read back by the banking engine with a parser that places the two
      stamps one second short of a day apart, the injected window is
      captioned "last 1 days" and admits exactly the instants of that day. */
  lemma TodayWindowCaption(parse: IsoParser, today: Date, start: Instant, t: Instant)
    requires ValidDate(today)
    requires parse(IsoStamp(today, 0, 0, 0)) == Some(start)
    requires parse(IsoStamp(today, 23, 59, 59)) == Some(start + 86_399_000_000)
    ensures var w := ResolveWindow(parse, Some(WindowSpec(Some(IsoStamp(today, 0, 0, 0)), Some(IsoStamp(today, 23, 59, 59)))));
      && CaptionOf(w) == LastDays(1)
      && (InWindow(Some(t), w) <==> start <= t <= start + 86_399_000_000)
  {
    var w := ResolveWindow(parse, Some(WindowSpec(Some(IsoStamp(today, 0, 0, 0)), Some(IsoStamp(today, 23, 59, 59)))));
    assert w == Window(Some(start), Some(start + 86_399_000_000));
    assert DayDiff(start, start + 86_399_000_000) == 0;
  }

  // ---------------------------------------------------------------------
  // The daily window.

  /** The zone lookup `payload.get("tz") or payload.get("user", {}).get("tz")`
      can be evaluated: either `tz` is truthy, or `user` is missing or an
      object. */
  predicate ZoneReadable(payload: map<string, Json>) {
    Truthy(Get(payload, "tz")) || "user" !in payload || payload["user"].Obj?
  }

  /** A payload `_ensure_daily_window` accepts: it has a truthy window, or
      the zone lookup succeeds. */
  predicate WindowReadable(payload: map<string, Json>) {
    Truthy(Get(payload, "window")) || ZoneReadable(payload)
  }

  /** `_ensure_daily_window`: a payload with a truthy window is returned as
      it is; otherwise a copy gets today's window and nothing else changes. */
  function EnsureDailyWindow(payload: map<string, Json>, today: Date): (r: map<string, Json>)
    requires ValidDate(today)
    requires WindowReadable(payload)
    ensures r.Keys == payload.Keys + {"window"}
    ensures Truthy(Get(payload, "window")) ==> r == payload
    ensures !Truthy(Get(payload, "window")) ==> r["window"] == Obj(TodayWindow(today))
    ensures forall k :: k in payload && k != "window" ==> r[k] == payload[k]
    ensures Truthy(Get(r, "window"))
  {
    if Truthy(Get(payload, "window")) then payload
    else
      TodayWindowTruthy(today);
      WithWindow(payload, TodayWindow(today))
  }

  /** The payload with a non-empty window object stored under "window". */
  function WithWindow(payload: map<string, Json>, w: map<string, Json>): (r: map<string, Json>)
    requires |w| > 0
    ensures r.Keys == payload.Keys + {"window"}
    ensures r["window"] == Obj(w) && Truthy(Get(r, "window"))
    ensures forall k :: k in payload && k != "window" ==> r[k] == payload[k]
  {
    payload["window" := Obj(w)]
  }

  /** Applying it twice is applying it once. */
  lemma EnsureDailyWindowIdempotent(payload: map<string, Json>, today: Date)
    requires ValidDate(today)
    requires WindowReadable(payload)
    ensures WindowReadable(EnsureDailyWindow(payload, today))
    ensures EnsureDailyWindow(EnsureDailyWindow(payload, today), today) == EnsureDailyWindow(payload, today)
  {
  }

  // ---------------------------------------------------------------------
  // Routing.

  /** What the router hands the routing model: the task, the payload, the
      normalised query and whether the daily mode is forced. */
  datatype AgentCall = AgentCall(task: Json, payload: map<string, Json>, query: string, daily: bool)

  /** The routing model with its reply parsed: None when the reply cannot be
      read as JSON inside the `try` (no events, no text in the last event,
      or text that is not JSON). A call that raises before any reply exists
      is not covered: the source lets that exception out of `route`. */
  type Agent = AgentCall -> Option<Json>

  const DailyFailure: string := "Router produced non-JSON response (daily report)"
  const PlainFailure: string := "Router produced non-JSON response"

  lemma FailuresDiffer()
    ensures DailyFailure != PlainFailure
  {
    assert |DailyFailure| != |PlainFailure|;
  }

  /** An envelope `route` can process without raising. */
  predicate Routable(env: map<string, Json>) {
    && PayloadReadable(env)
    && QueryReadable(PayloadOf(env))
    && (IsDaily(Query(PayloadOf(env))) ==> WindowReadable(PayloadOf(env)))
  }

  function RouterCall(env: map<string, Json>, today: Date): (c: AgentCall)
    requires ValidDate(today) && Routable(env)
    ensures c.task == Task(env) && c.query == Query(PayloadOf(env))
    ensures c.daily <==> exists i :: 0 <= i < |DailyKeywords| && Contains(c.query, DailyKeywords[i])
    ensures !c.daily ==> c.payload == PayloadOf(env)
    ensures c.daily ==> c.payload == EnsureDailyWindow(PayloadOf(env), today)
  {
    var payload := PayloadOf(env);
    var query := Query(payload);
    var daily := MentionsAny(query, DailyKeywords);
    AgentCall(Task(env), if daily then EnsureDailyWindow(payload, today) else payload, query, daily)
  }

  function ErrorEnvelope(message: string, traceId: Json): (j: Json)
    ensures j.Obj? && j.fields.Keys == {"status", "error", "traceId"}
    ensures j.fields["status"] == Str("error")
    ensures j.fields["error"] == Str(message)
    ensures j.fields["traceId"] == traceId
  {
    Obj(map["status" := Str("error"), "error" := Str(message), "traceId" := traceId])
  }

  /** The tail of `route`: the model's JSON reply is returned as it is; a
      non-JSON reply becomes an error envelope carrying the trace id, whose
      message tells the daily path from the normal one. */
  function Reply(call: AgentCall, trace: Json, agent: Agent): (r: Json)
    ensures agent(call).Some? ==> r == agent(call).value
    ensures agent(call).None? ==>
              && r.Obj? && r.fields.Keys == {"status", "error", "traceId"}
              && r.fields["status"] == Str("error")
              && r.fields["traceId"] == trace
              && (r.fields["error"] == Str(DailyFailure) <==> call.daily)
              && (r.fields["error"] == Str(PlainFailure) <==> !call.daily)
  {
    FailuresDiffer();
    match agent(call)
    case Some(reply) => reply
    case None => ErrorEnvelope(if call.daily then DailyFailure else PlainFailure, trace)
  }

  /** `route`: one call to the model, in daily mode exactly when the query
      names a daily report, and its reply handled as above with the
      envelope's (or else the payload's) trace id. */
  function Route(env: map<string, Json>, today: Date, agent: Agent): (r: Json)
    requires ValidDate(today) && Routable(env)
    ensures var call := RouterCall(env, today);
      agent(call).Some? ==> r == agent(call).value
    ensures var call := RouterCall(env, today);
      agent(call).None? ==>
        && r.Obj? && r.fields.Keys == {"status", "error", "traceId"}
        && r.fields["status"] == Str("error")
        && r.fields["traceId"] == TraceId(env, PayloadOf(env))
        && (r.fields["error"] == Str(DailyFailure) <==> IsDaily(Query(PayloadOf(env))))
        && (r.fields["error"] == Str(PlainFailure) <==> !IsDaily(Query(PayloadOf(env))))
  {
    Reply(RouterCall(env, today), TraceId(env, PayloadOf(env)), agent)
  }

  /** Outside the daily path the router never touches the payload: in
      particular it injects no window. */
  lemma NonDailyKeepsWindow(env: map<string, Json>, today: Date)
    requires ValidDate(today) && Routable(env)
    requires !IsDaily(Query(PayloadOf(env)))
    ensures RouterCall(env, today).payload == PayloadOf(env)
    ensures Get(RouterCall(env, today).payload, "window") == Get(PayloadOf(env), "window")
  {
  }

  /** On the daily path the model always sees a truthy window, and it is
      the caller's own whenever the caller sent one. */
  lemma DailyHasWindow(env: map<string, Json>, today: Date)
    requires ValidDate(today) && Routable(env)
    requires IsDaily(Query(PayloadOf(env)))
    ensures Truthy(Get(RouterCall(env, today).payload, "window"))
    ensures Truthy(Get(PayloadOf(env), "window")) ==>
              RouterCall(env, today).payload["window"] == PayloadOf(env)["window"]
  {
  }
}
