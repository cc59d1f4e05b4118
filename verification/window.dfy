/** The time window that scopes the analytics (`_parse_iso`, `_in_window`
    and the window caption of both banking copies). */
module TimeWindow {
  import opened Options

  /** Microseconds since the Unix epoch, UTC: Python's `datetime` resolution.
      `_parse_iso` normalises every timestamp to an aware UTC datetime, so
      comparisons between instants are plain integer comparisons. */
  type Instant = int

  const MicrosPerDay: int := 86_400_000_000

  /** The ISO-8601 reader (`datetime.fromisoformat` behind `_parse_iso`),
      taken as a parameter: `None` where Python raises. */
  type IsoParser = string -> Option<Instant>

  /** `_parse_iso` applied to an optional field. An absent or empty string
      never reaches the reader: the A2A copy guards with `if s`, and the
      director copy's `_parse_iso(s or "")` fails on "" because
      `fromisoformat("")` raises, so both give `None`. */
  function ParseStamp(parse: IsoParser, s: Option<string>): Option<Instant> {
    if Present(s) then parse(s.value) else None
  }

  /** The caller's window as received: `{"since": .., "until": ..}`. */
  datatype WindowSpec = WindowSpec(since: Option<string>, until: Option<string>)

  /** The parsed window; an absent bound is open. */
  datatype Window = Window(since: Option<Instant>, until: Option<Instant>)

  /** `since = _parse_iso(...)`, `until = _parse_iso(...)` from
      `(window or {})`. A bound that is missing, empty or unparseable is
      open; it is never an error. */
  function ResolveWindow(parse: IsoParser, spec: Option<WindowSpec>): (w: Window)
    ensures spec.None? ==> w == Window(None, None)
    ensures spec.Some? && !Present(spec.value.since) ==> w.since.None?
    ensures spec.Some? && !Present(spec.value.until) ==> w.until.None?
    ensures spec.Some? && Present(spec.value.since) ==> w.since == parse(spec.value.since.value)
    ensures spec.Some? && Present(spec.value.until) ==> w.until == parse(spec.value.until.value)
  {
    match spec
    case None => Window(None, None)
    case Some(s) => Window(ParseStamp(parse, s.since), ParseStamp(parse, s.until))
  }

  /** `_in_window`: no instant is never inside; each present bound is
      inclusive, so an instant is inside exactly when its one-point window
      lies within `w`. */
  predicate InWindow(dt: Option<Instant>, w: Window)
    ensures InWindow(dt, w) <==> dt.Some? && Within(Window(dt, dt), w)
  {
    && dt.Some?
    && (w.since.Some? ==> w.since.value <= dt.value)
    && (w.until.Some? ==> dt.value <= w.until.value)
  }

  /** `w` lies inside `outer`: every bound of `outer` is at least as loose. */
  predicate Within(w: Window, outer: Window) {
    && (outer.since.Some? ==> w.since.Some? && outer.since.value <= w.since.value)
    && (outer.until.Some? ==> w.until.Some? && w.until.value <= outer.until.value)
  }

  /** A closed window admits exactly the instants between its bounds,
      both bounds included; a record without an instant is never admitted. */
  lemma InWindowClosed(dt: Option<Instant>, a: Instant, b: Instant)
    ensures InWindow(dt, Window(Some(a), Some(b))) <==> dt.Some? && a <= dt.value <= b
    ensures !InWindow(None, Window(Some(a), Some(b)))
  {
  }

  /** The fully open window admits every instant and nothing else. */
  lemma OpenWindowAdmitsAll(dt: Option<Instant>)
    ensures InWindow(dt, Window(None, None)) <==> dt.Some?
  {
  }

  /** Widening a window never drops an instant. */
  lemma InWindowMonotone(dt: Option<Instant>, w: Window, outer: Window)
    requires Within(w, outer)
    requires InWindow(dt, w)
    ensures InWindow(dt, outer)
  {
  }

  /** A window whose start is after its end admits nothing; the source does
      not reject such a window. */
  lemma ReversedWindowEmpty(dt: Option<Instant>, a: Instant, b: Instant)
    requires b < a
    ensures !InWindow(dt, Window(Some(a), Some(b)))
  {
  }

  /** The phrase the summary uses for the window. */
  datatype Caption = LastDays(days: int) | SelectedWindow

  /** `(until - since).days`: the whole days in the difference, rounded
      towards minus infinity as `timedelta` does. */
  function DayDiff(since: Instant, until: Instant): int {
    (until - since) / MicrosPerDay
  }

  /** "last N days" when both bounds are known, N being the day difference
      or 1 when that is 0 (`days or 1`); otherwise "selected window". Outside
      the first day N is the floor of the span in days, negative spans
      included; within it N is 1. */
  function CaptionOf(w: Window): (c: Caption)
    ensures c.LastDays? <==> w.since.Some? && w.until.Some?
    ensures c.LastDays? ==> c.days != 0
    ensures c.LastDays? && w.since.value <= w.until.value ==>
              && c.days >= 1
              && (c.days == 1 ==> w.until.value - w.since.value < 2 * MicrosPerDay)
              && (c.days > 1 ==> c.days * MicrosPerDay <= w.until.value - w.since.value < (c.days + 1) * MicrosPerDay)
    ensures c.LastDays? && w.since.value > w.until.value ==> c.days < 0
    ensures c.LastDays? && 0 <= w.until.value - w.since.value < MicrosPerDay ==> c.days == 1
    ensures c.LastDays? && (w.until.value - w.since.value >= MicrosPerDay || w.until.value - w.since.value < 0) ==>
              c.days * MicrosPerDay <= w.until.value - w.since.value < (c.days + 1) * MicrosPerDay
  {
    if w.since.Some? && w.until.Some? then
      var d := DayDiff(w.since.value, w.until.value);
      LastDays(if d == 0 then 1 else d)
    else SelectedWindow
  }
}
