/**
 * The FocusTimer stopwatch: the `HH:MM:SS.mmm` rendering of a duration and the
 * window's run/pause/reset/tick state machine with its derived button states and
 * daily-goal progress.  The clock, the CSV file and the Qt widgets are outside:
 * the current time, the ISO timestamp and the day's saved total arrive as
 * parameters, and the CSV rows appended on reset are kept as a sequence.
 */
module FocusTimer {
  import opened Wrappers
  import opened Text

  const MsPerSecond := 1000
  const MsPerMinute := 60000
  const MsPerHour := 3600000
  /** Interval of the tick timer, the delta `on_tick` adds when no last tick is recorded. */
  const TickIntervalMs := 100
  const GoalMinMinutes := 1
  const GoalMaxMinutes := 600
  const GoalDefaultMinutes := 120

  datatype Parts = Parts(hours: int, mins: int, secs: int, millis: int)

  /** The three nested `divmod`s of `format_elapsed` (divisors are positive, so they floor). */
  function Split(ms: int): (p: Parts)
    ensures 0 <= p.mins < 60 && 0 <= p.secs < 60 && 0 <= p.millis < 1000
    ensures p.hours * 3600000 + p.mins * 60000 + p.secs * 1000 + p.millis == ms
    ensures ms >= 0 <==> p.hours >= 0
  {
    var seconds, millis := ms / 1000, ms % 1000;
    var minutes, secs := seconds / 60, seconds % 60;
    var hours, mins := minutes / 60, minutes % 60;
    assert minutes == hours * 60 + mins;
    assert seconds == minutes * 60 + secs;
    assert ms == seconds * 1000 + millis;
    Parts(hours, mins, secs, millis)
  }

  /** The decomposition is the only one with those bounds. */
  lemma SplitUnique(ms: int, p: Parts)
    requires 0 <= p.mins < 60 && 0 <= p.secs < 60 && 0 <= p.millis < 1000
    requires p.hours * 3600000 + p.mins * 60000 + p.secs * 1000 + p.millis == ms
    ensures p == Split(ms)
  {
    var q := Split(ms);
    var a := p.mins * 60000 + p.secs * 1000 + p.millis;
    var b := q.mins * 60000 + q.secs * 1000 + q.millis;
    assert 0 <= a < 3600000 && 0 <= b < 3600000;
    assert p.hours == q.hours;
    assert p.mins == q.mins;
    assert p.secs == q.secs;
  }

  /** Python's `format(n, "0wd")` for any integer: a minus sign counts towards the width. */
  function PadInt(n: int, w: nat): (r: string)
    ensures |r| >= w
    ensures n >= 0 ==> AllDigits(r) && ParseDigits(r) == n
    ensures n < 0 ==> |r| >= 2 && r[0] == '-' && AllDigits(r[1..]) && ParseDigits(r[1..]) == -n
  {
    if n >= 0 then ZeroPad(n, w)
    else
      var d := ZeroPad(-n, if w == 0 then 0 else w - 1);
      assert ("-" + d)[1..] == d;
      "-" + d
  }

  /** `format_elapsed`: hours with at least two digits, then fixed-width minutes, seconds and millis. */
  function FormatElapsed(ms: int): (r: string)
    ensures |r| >= 12
  {
    var p := Split(ms);
    PadInt(p.hours, 2) + ":" + ZeroPad(p.mins, 2) + ":" + ZeroPad(p.secs, 2) + "." + ZeroPad(p.millis, 3)
  }

  /** Where the fields of a rendering sit, given the widths of the fixed ones. */
  lemma FieldsAt(hh: string, mm: string, ss: string, fff: string)
    requires |mm| == 2 && |ss| == 2 && |fff| == 3
    ensures var s := hh + ":" + mm + ":" + ss + "." + fff;
      var n := |s|;
      && n == |hh| + 10
      && s[..n - 10] == hh && s[n - 10] == ':' && s[n - 9..n - 7] == mm
      && s[n - 7] == ':' && s[n - 6..n - 4] == ss && s[n - 4] == '.' && s[n - 3..] == fff
  {
  }

  /** Reads a signed hours field back: digits, or a minus sign and digits. */
  function ParseHours(s: string): Option<int> {
    if AllDigits(s) then Some(ParseDigits(s))
    else if |s| >= 2 && s[0] == '-' && AllDigits(s[1..]) then Some(0 - ParseDigits(s[1..]) as int)
    else None
  }

  /** Reads a rendered duration back; `None` for anything not of the `HH:MM:SS.mmm` shape. */
  function ParseElapsed(s: string): (r: Option<int>)
    ensures r.Some? ==> |s| >= 12 && s[|s| - 10] == ':' && s[|s| - 7] == ':' && s[|s| - 4] == '.'
    ensures r.Some? ==> AllDigits(s[|s| - 9..|s| - 7]) && AllDigits(s[|s| - 6..|s| - 4]) && AllDigits(s[|s| - 3..])
  {
    var n := |s|;
    if n < 12 || s[n - 10] != ':' || s[n - 7] != ':' || s[n - 4] != '.' then None
    else
      var mm, ss, fff := s[n - 9..n - 7], s[n - 6..n - 4], s[n - 3..];
      if !AllDigits(mm) || !AllDigits(ss) || !AllDigits(fff) then None
      else if ParseDigits(mm) >= 60 || ParseDigits(ss) >= 60 then None
      else match ParseHours(s[..n - 10])
        case None => None
        case Some(h) =>
          Some(h * 3600000 + ParseDigits(mm) * 60000 + ParseDigits(ss) * 1000 + ParseDigits(fff))
  }

  /** Rendering loses nothing: every duration, negative ones included, reads back exactly. */
  lemma ParseFormatElapsed(ms: int)
    ensures ParseElapsed(FormatElapsed(ms)) == Some(ms)
  {
    var p := Split(ms);
    var hh := PadInt(p.hours, 2);
    var mm := ZeroPad(p.mins, 2);
    var ss := ZeroPad(p.secs, 2);
    var fff := ZeroPad(p.millis, 3);
    assert Pow10(2) == 100 && Pow10(3) == 1000;
    FieldsAt(hh, mm, ss, fff);
    assert ParseHours(hh) == Some(p.hours) by {
      if p.hours < 0 {
        assert !IsDigit(hh[0]);
      }
    }
  }

  /** Minutes and seconds take two digits, millis three, and hours the rest (at least two). */
  lemma FormatElapsedShape(ms: int)
    ensures var r := FormatElapsed(ms);
      && |r| >= 12 && r[|r| - 10] == ':' && r[|r| - 7] == ':' && r[|r| - 4] == '.'
      && AllDigits(r[|r| - 9..|r| - 7]) && AllDigits(r[|r| - 6..|r| - 4]) && AllDigits(r[|r| - 3..])
  {
    ParseFormatElapsed(ms);
  }

  /** A zero duration renders as the label's initial text. */
  lemma FormatElapsedZero()
    ensures FormatElapsed(0) == "00:00:00.000"
  {
    assert Split(0) == Parts(0, 0, 0, 0);
    assert ZeroPad(0, 2) == "00" && ZeroPad(0, 3) == "000";
  }

  /** Distinct durations never render alike. */
  lemma FormatElapsedInjective(a: int, b: int)
    requires FormatElapsed(a) == FormatElapsed(b)
    ensures a == b
  {
    ParseFormatElapsed(a);
    ParseFormatElapsed(b);
  }

  /** `int(x)` of a real quotient `num / den`: rounds towards zero. */
  function TruncDiv(num: int, den: int): int
    requires den > 0
  {
    if num >= 0 then num / den else -((-num) / den)
  }

  /** For a non-negative numerator, the truncated quotient reaches `k` exactly when
      the numerator reaches `k * den`. */
  lemma TruncDivAtLeast(num: int, den: int, k: nat)
    requires den > 0 && num >= 0
    ensures TruncDiv(num, den) >= 0
    ensures TruncDiv(num, den) >= k <==> num >= k * den
  {
    var q := num / den;
    assert num == q * den + num % den;
    if q >= k {
      assert q * den >= k * den;
    } else {
      assert q + 1 <= k;
      assert (q + 1) * den <= k * den;
    }
  }

  /** A negative product with a positive factor has a negative other factor. */
  lemma NegativeFactor(x: int, d: int)
    requires d > 0 && x * d < 0
    ensures x < 0
  {
  }

  /** Truncating division is monotone in the numerator. */
  lemma TruncDivMonotone(a: int, b: int, den: int)
    requires den > 0 && 0 <= a <= b
    ensures TruncDiv(a, den) <= TruncDiv(b, den)
  {
    var qa, qb := a / den, b / den;
    assert a == qa * den + a % den;
    assert b == qb * den + b % den;
    assert (qa - qb - 1) * den == qa * den - qb * den - den;
    NegativeFactor(qa - qb - 1, den);
  }

  /** `_update_progress`: percent of the daily goal reached, capped at 100. */
  function Progress(totalMs: int, goalMinutes: int): (percent: int)
    ensures goalMinutes <= 0 ==> percent == 0
    ensures percent <= 100
  {
    var goalMs := goalMinutes * 60000;
    if goalMs > 0 then Min(100, TruncDiv(totalMs * 100, goalMs)) else 0
  }

  /** With a goal of at least one minute and no negative time, the bar lies in [0,100]
      and is full exactly when the goal is reached. */
  lemma ProgressBounds(totalMs: int, goalMinutes: int)
    requires goalMinutes >= GoalMinMinutes && totalMs >= 0
    ensures 0 <= Progress(totalMs, goalMinutes) <= 100
    ensures Progress(totalMs, goalMinutes) == 100 <==> totalMs >= goalMinutes * 60000
  {
    var goalMs := goalMinutes * 60000;
    TruncDivAtLeast(totalMs * 100, goalMs, 100);
  }

  /** More time never lowers the bar. */
  lemma ProgressMonotone(a: int, b: int, goalMinutes: int)
    requires goalMinutes >= GoalMinMinutes && 0 <= a <= b
    ensures Progress(a, goalMinutes) <= Progress(b, goalMinutes)
  {
    TruncDivMonotone(a * 100, b * 100, goalMinutes * 60000);
  }

  /** A finished session as logged on reset: when, how long in ms, and the comment. */
  datatype Session = Session(when: string, durationMs: int, comment: string)

  const CsvHeader: seq<string> := ["datetime", "duration_ms", "duration_str", "comment"]

  /** The log row written for a session; the third column is the rendered duration. */
  function CsvRow(s: Session): seq<string> {
    [s.when, IntToString(s.durationMs), FormatElapsed(s.durationMs), s.comment]
  }

  /** A logged row fills the header's four columns, and both duration columns read back
      as the session's duration. */
  lemma CsvRowReadsBack(s: Session)
    ensures |CsvRow(s)| == |CsvHeader|
    ensures CsvRow(s)[0] == s.when && CsvRow(s)[3] == s.comment
    ensures ParseElapsed(CsvRow(s)[2]) == Some(s.durationMs)
    ensures s.durationMs >= 0 ==> AllDigits(CsvRow(s)[1]) && ParseDigits(CsvRow(s)[1]) == s.durationMs
  {
    ParseFormatElapsed(s.durationMs);
    if s.durationMs >= 0 {
      ParseNatToString(s.durationMs);
    }
  }

  /** Clamp like the goal spin box's `setRange(1, 600)`. */
  function ClampGoal(v: int): (g: int)
    ensures GoalMinMinutes <= g <= GoalMaxMinutes
    ensures GoalMinMinutes <= v <= GoalMaxMinutes ==> g == v
  {
    if v < GoalMinMinutes then GoalMinMinutes else if v > GoalMaxMinutes then GoalMaxMinutes else v
  }

  class FocusTimerWindow {
    var isRunning: bool
    var elapsedMs: int
    var lastTickMs: Option<int>
    /** Cache of the day's saved session total, re-read from the log by the caller. */
    var todaySavedMs: int
    var goalMinutes: int
    var comment: string
    /** Rows appended to the session log. */
    var sessions: seq<Session>
    /** The duration the time label displays; its text is `TimeLabel()`. */
    var labelMs: int
    var startEnabled: bool
    var pauseEnabled: bool
    var resetEnabled: bool
    var percent: int

    function TimeLabel(): string
      reads this
    {
      FormatElapsed(labelMs)
    }

    /** The time counted towards the goal: saved time, plus the running session. */
    function TotalMs(): int
      reads this
    {
      todaySavedMs + (if isRunning && elapsedMs > 0 then elapsedMs else 0)
    }

    /** The widgets show what the state says. */
    ghost predicate Shown()
      reads this
    {
      && startEnabled == !isRunning
      && pauseEnabled == isRunning
      && resetEnabled == (elapsedMs > 0)
      && labelMs == elapsedMs
      && percent == Progress(TotalMs(), goalMinutes)
    }

    ghost predicate Valid()
      reads this
    {
      && elapsedMs >= 0
      && GoalMinMinutes <= goalMinutes <= GoalMaxMinutes
      && Shown()
    }

    /** A fresh window; `savedMs` is the day's total read from the log. */
    constructor (savedMs: int)
      ensures Valid()
      ensures !isRunning && elapsedMs == 0 && lastTickMs == None
      ensures todaySavedMs == savedMs && goalMinutes == GoalDefaultMinutes
      ensures comment == "" && sessions == []
    {
      isRunning := false;
      elapsedMs := 0;
      lastTickMs := None;
      todaySavedMs := savedMs;
      goalMinutes := GoalDefaultMinutes;
      comment := "";
      sessions := [];
      startEnabled := true;
      pauseEnabled := false;
      resetEnabled := false;
      labelMs := 0;
      new;
      UpdateProgress();
    }

    /** `_update_ui_state`. */
    method UpdateUiState()
      modifies this`startEnabled, this`pauseEnabled, this`resetEnabled
      ensures startEnabled == !isRunning && pauseEnabled == isRunning && resetEnabled == (elapsedMs > 0)
    {
      startEnabled := !isRunning;
      pauseEnabled := isRunning;
      resetEnabled := elapsedMs > 0;
    }

    /** `_update_progress`. */
    method UpdateProgress()
      modifies this`percent
      ensures percent == Progress(TotalMs(), goalMinutes)
    {
      var total := todaySavedMs;
      if isRunning && elapsedMs > 0 {
        total := total + elapsedMs;
      }
      var goalMs := goalMinutes * 60000;
      percent := if goalMs > 0 then Min(100, TruncDiv(total * 100, goalMs)) else 0;
    }

    /** `on_start_clicked`: a no-op while running; otherwise starts and notes the time. */
    method OnStart(nowMs: int)
      requires Valid()
      modifies this`isRunning, this`lastTickMs, this`startEnabled, this`pauseEnabled, this`resetEnabled, this`percent
      ensures Valid()
      ensures old(isRunning) ==> isRunning && lastTickMs == old(lastTickMs)
      ensures !old(isRunning) ==> isRunning && lastTickMs == Some(nowMs)
    {
      if isRunning {
        return;
      }
      isRunning := true;
      lastTickMs := Some(nowMs);
      UpdateUiState();
      UpdateProgress();
    }

    /** `on_pause_clicked`: a no-op while stopped; otherwise stops, keeping the elapsed time. */
    method OnPause()
      requires Valid()
      modifies this`isRunning, this`startEnabled, this`pauseEnabled, this`resetEnabled, this`percent
      ensures Valid()
      ensures !isRunning
    {
      if !isRunning {
        return;
      }
      isRunning := false;
      UpdateUiState();
      UpdateProgress();
    }

    /** `on_reset_clicked`.  A non-empty session is logged first (when `writeOk`, i.e. the
        append to the log did not fail); then everything returns to zero.  `nowIso` is
        the clock and `savedMs` the day's total re-read from the log afterwards. */
    method OnReset(nowIso: string, writeOk: bool, savedMs: int)
      requires Valid()
      modifies this
      ensures Valid()
      ensures !isRunning && elapsedMs == 0 && lastTickMs == None && comment == ""
      ensures todaySavedMs == savedMs && goalMinutes == old(goalMinutes)
      ensures old(elapsedMs) > 0 && writeOk ==>
        sessions == old(sessions) + [Session(nowIso, old(elapsedMs), Strip(old(comment)))]
      ensures !(old(elapsedMs) > 0 && writeOk) ==> sessions == old(sessions)
    {
      if elapsedMs > 0 {
        var duration := elapsedMs;
        var row := Session(nowIso, duration, Strip(comment));
        if writeOk {
          sessions := sessions + [row];
        }
      }
      isRunning := false;
      elapsedMs := 0;
      lastTickMs := None;
      labelMs := 0;
      comment := "";
      UpdateUiState();
      todaySavedMs := savedMs;
      UpdateProgress();
    }

    /** `on_tick`: adds the time since the last tick, never a negative amount, or the
        timer interval when no last tick is recorded. */
    method OnTick(nowMs: int)
      requires Valid()
      modifies this`elapsedMs, this`lastTickMs, this`labelMs, this`startEnabled, this`pauseEnabled, this`resetEnabled, this`percent
      ensures Valid()
      ensures old(lastTickMs) == None ==> elapsedMs == old(elapsedMs) + TickIntervalMs
      ensures old(lastTickMs).Some? ==> elapsedMs == old(elapsedMs) + Max(0, nowMs - old(lastTickMs).value)
      ensures elapsedMs >= old(elapsedMs)
      ensures lastTickMs == Some(nowMs)
    {
      var delta;
      if lastTickMs == None {
        delta := TickIntervalMs;
      } else {
        delta := Max(0, nowMs - lastTickMs.value);
      }
      elapsedMs := elapsedMs + delta;
      lastTickMs := Some(nowMs);
      labelMs := elapsedMs;
      UpdateUiState();
      UpdateProgress();
    }

    /** The goal spin box: clamps, and refreshes the bar when the value changes. */
    method SetGoalMinutes(v: int)
      requires Valid()
      modifies this`goalMinutes, this`percent
      ensures Valid()
      ensures goalMinutes == ClampGoal(v)
    {
      var g := ClampGoal(v);
      if g != goalMinutes {
        goalMinutes := g;
        UpdateProgress();
      }
    }

    /** Typing in the comment field. */
    method SetComment(text: string)
      requires Valid()
      modifies this`comment
      ensures Valid() && comment == text
    {
      comment := text;
    }
  }
}
