/** The exam countdown (src/components/exam/ExamTimer.tsx): a tick that
    decrements the session's counter while it is positive, the effect that
    submits the module when the counter is zero, the `H:MM:SS` / `M:SS`
    display and the urgency thresholds. */
module ExamTimer {
  import opened Types
  import opened Text
  import opened ExamContext

  const SecondsPerHour: int := 3600
  const UrgentThreshold: int := 300
  const CriticalThreshold: int := 60

  // ---------------------------------------------------------------------
  // Ticks

  /** The counter after one interval tick: decremented while positive; no
      interval is scheduled once it is zero or below. */
  function TickValue(t: int): int {
    if t > 0 then t - 1 else t
  }

  /** The counter after `k` ticks. */
  function AfterTicks(t: int, k: nat): int
    decreases k
  {
    if k == 0 then t else AfterTicks(TickValue(t), k - 1)
  }

  /** A positive counter counts down to zero and stays there; a counter at or
      below zero is never touched. */
  lemma {:induction false} AfterTicksValue(t: int, k: nat)
    ensures AfterTicks(t, k) == if t <= 0 then t else if k <= t then t - k else 0
    decreases k
  {
    if k > 0 {
      AfterTicksValue(TickValue(t), k - 1);
    }
  }

  /** Ticking never takes a non-negative counter below zero. */
  lemma CountdownNeverNegative(t: int, k: nat)
    requires t >= 0
    ensures AfterTicks(t, k) >= 0
  {
    AfterTicksValue(t, k);
  }

  /** From `n > 0` the counter is zero exactly after `n` ticks or more, so the
      submitting effect first fires after the `n`-th tick. */
  lemma CountdownReachesZero(n: int, k: nat)
    requires n > 0
    ensures AfterTicks(n, k) == 0 <==> k >= n
  {
    AfterTicksValue(n, k);
  }

  /** The interval callback: `setTimeRemaining(timeRemaining - 1)`, run only
      while the counter is positive. */
  method Tick(session: ExamSession)
    modifies session`timeRemaining
    ensures session.timeRemaining == TickValue(old(session.timeRemaining))
  {
    if session.timeRemaining <= 0 {
      return;
    }
    session.SetTimeRemaining(session.timeRemaining - 1);
  }

  /** The effect watching the counter: it calls `submitModule` exactly when the
      counter equals zero, and otherwise does nothing. */
  method AutoSubmit(session: ExamSession, submissionId: string, submittedAt: string)
      returns (fired: bool, ok: bool, submission: Option<ExamSubmission>)
    requires session.Valid()
    modifies session
    ensures session.Valid()
    ensures fired <==> old(session.timeRemaining) == 0
    ensures ok <==> fired && old(session.currentModule).Some?
    ensures !ok ==> unchanged(session) && submission == None
    ensures ok ==> session.Idle() && submission == Some(PendingSubmission(old(session.currentModule).value,
      old(session.currentAnswers), submissionId, submittedAt))
  {
    fired, ok, submission := false, false, None;
    if session.timeRemaining == 0 {
      fired := true;
      ok, submission := session.SubmitModule(submissionId, submittedAt);
    }
  }

  // ---------------------------------------------------------------------
  // Display

  /** JavaScript's `%`: the remainder takes the sign of the dividend. */
  function JsRem(a: int, b: int): (r: int)
    requires b > 0
    ensures a >= 0 ==> 0 <= r < b
    ensures a < 0 ==> -b < r <= 0
  {
    if a >= 0 then a % b else -((-a) % b)
  }

  /** `Math.floor(seconds / 3600)`; Dafny's division by a positive divisor is floor division. */
  function ClockHours(seconds: int): int {
    seconds / SecondsPerHour
  }

  /** `Math.floor((seconds % 3600) / 60)`. */
  function ClockMinutes(seconds: int): int {
    JsRem(seconds, SecondsPerHour) / 60
  }

  /** `seconds % 60`. */
  function ClockSeconds(seconds: int): int {
    JsRem(seconds, 60)
  }

  /** `n.toString().padStart(2, '0')`. */
  function Pad2(s: string): string {
    PadStart(s, 2, '0')
  }

  /** `formatTime`: `H:MM:SS` when there is at least one hour, else `M:SS`. */
  function FormatTime(seconds: int): string {
    var h, m, s := ClockHours(seconds), ClockMinutes(seconds), ClockSeconds(seconds);
    if h > 0 then HoursText(h, m, s) else MinutesText(m, s)
  }

  /** The `H:MM:SS` form. */
  function HoursText(h: int, m: int, s: int): string {
    IntToString(h) + ":" + Pad2(IntToString(m)) + ":" + Pad2(IntToString(s))
  }

  /** The `M:SS` form. */
  function MinutesText(m: int, s: int): string {
    IntToString(m) + ":" + Pad2(IntToString(s))
  }

  /** The number of seconds in `h` hours, `m` minutes and `s` seconds. */
  function ClockValue(h: int, m: int, s: int): int {
    h * 3600 + m * 60 + s
  }

  /** For a non-negative count the three parts decompose it exactly, with
      minutes and seconds below sixty. */
  lemma ClockDecomposition(seconds: int)
    requires seconds >= 0
    ensures ClockValue(ClockHours(seconds), ClockMinutes(seconds), ClockSeconds(seconds)) == seconds
    ensures ClockHours(seconds) >= 0
    ensures ClockHours(seconds) > 0 <==> seconds >= SecondsPerHour
    ensures 0 <= ClockMinutes(seconds) < 60 && 0 <= ClockSeconds(seconds) < 60
  {
    var h, r := seconds / 3600, seconds % 3600;
    var m, q := r / 60, r % 60;
    assert seconds == 3600 * h + r;
    assert r == 60 * m + q;
    assert seconds == 60 * (60 * h + m) + q;
  }

  /** A time string in either display form read back as a number of seconds:
      `H:MM:SS` or `M:SS`, hours and minutes-without-hours as plain numerals,
      the other fields as two digits. */
  function ParseTime(text: string): (r: Option<int>)
    ensures r.Some? ==> r.value >= 0
  {
    ReadFields(Split(text, ':'))
  }

  /** The value of the colon-separated fields of a time string. */
  function ReadFields(p: seq<string>): (r: Option<int>)
    ensures r.Some? ==> r.value >= 0
  {
    if |p| == 3 && IsNumeral(p[0]) && IsTwoDigits(p[1]) && IsTwoDigits(p[2]) then
      Some(ClockValue(DigitsValue(p[0]), DigitsValue(p[1]), DigitsValue(p[2])))
    else if |p| == 2 && IsNumeral(p[0]) && IsTwoDigits(p[1]) then
      Some(ClockValue(0, DigitsValue(p[0]), DigitsValue(p[1])))
    else None
  }

  predicate IsNumeral(s: string) {
    |s| >= 1 && AllDigits(s)
  }

  predicate IsTwoDigits(s: string) {
    |s| == 2 && AllDigits(s)
  }

  /** The display loses nothing: reading it back gives the counter, and the
      hours field is shown exactly from one hour up. */
  lemma FormatTimeRoundTrip(seconds: int)
    requires seconds >= 0
    ensures ParseTime(FormatTime(seconds)) == Some(seconds)
    ensures |Split(FormatTime(seconds), ':')| == 3 <==> seconds >= SecondsPerHour
  {
    if seconds >= SecondsPerHour {
      HoursFormRoundTrip(seconds);
    } else {
      MinutesFormRoundTrip(seconds);
    }
  }

  lemma HoursFormRoundTrip(seconds: int)
    requires seconds >= SecondsPerHour
    ensures ParseTime(FormatTime(seconds)) == Some(seconds)
    ensures |Split(FormatTime(seconds), ':')| == 3
  {
    ClockDecomposition(seconds);
    HoursTextRoundTrip(ClockHours(seconds), ClockMinutes(seconds), ClockSeconds(seconds));
  }

  lemma MinutesFormRoundTrip(seconds: int)
    requires 0 <= seconds < SecondsPerHour
    ensures ParseTime(FormatTime(seconds)) == Some(seconds)
    ensures |Split(FormatTime(seconds), ':')| == 2
  {
    MinutesFormIs(seconds);
    MinutesTextRoundTrip(ClockMinutes(seconds), ClockSeconds(seconds));
  }

  /** Below one hour the display is the `M:SS` form, whose fields add up to the counter. */
  lemma MinutesFormIs(seconds: int)
    requires 0 <= seconds < SecondsPerHour
    ensures FormatTime(seconds) == MinutesText(ClockMinutes(seconds), ClockSeconds(seconds))
    ensures ClockValue(0, ClockMinutes(seconds), ClockSeconds(seconds)) == seconds
    ensures 0 <= ClockMinutes(seconds) < 60 && 0 <= ClockSeconds(seconds) < 60
  {
    ClockDecomposition(seconds);
    assert ClockHours(seconds) == 0;
  }

  /** `H:MM:SS` splits into three fields and reads back as its total. */
  lemma HoursTextRoundTrip(h: int, m: int, s: int)
    requires h > 0 && 0 <= m < 60 && 0 <= s < 60
    ensures ParseTime(HoursText(h, m, s)) == Some(ClockValue(h, m, s))
    ensures |Split(HoursText(h, m, s), ':')| == 3
  {
    Pad2Digits(m);
    Pad2Digits(s);
    NumeralValue(h);
    ReadThree(IntToString(h), Pad2(IntToString(m)), Pad2(IntToString(s)));
  }

  /** `M:SS` splits into two fields and reads back as its total. */
  lemma MinutesTextRoundTrip(m: int, s: int)
    requires 0 <= m < 60 && 0 <= s < 60
    ensures ParseTime(MinutesText(m, s)) == Some(ClockValue(0, m, s))
    ensures |Split(MinutesText(m, s), ':')| == 2
  {
    Pad2Digits(s);
    NumeralValue(m);
    ReadTwo(IntToString(m), Pad2(IntToString(s)));
  }

  lemma ReadThree(a: string, b: string, c: string)
    requires IsNumeral(a) && IsTwoDigits(b) && IsTwoDigits(c)
    ensures ParseTime(a + ":" + b + ":" + c) == Some(ClockValue(DigitsValue(a), DigitsValue(b), DigitsValue(c)))
    ensures |Split(a + ":" + b + ":" + c, ':')| == 3
  {
    SplitThree(a, b, c);
  }

  lemma ReadTwo(a: string, c: string)
    requires IsNumeral(a) && IsTwoDigits(c)
    ensures ParseTime(a + ":" + c) == Some(ClockValue(0, DigitsValue(a), DigitsValue(c)))
    ensures |Split(a + ":" + c, ':')| == 2
  {
    SplitTwo(a, c);
  }

  lemma NumeralValue(n: int)
    requires n >= 0
    ensures IsNumeral(IntToString(n)) && DigitsValue(IntToString(n)) == n
  {
    NatToStringValue(n);
  }

  lemma SplitThree(a: string, b: string, c: string)
    requires AllDigits(a) && AllDigits(b) && AllDigits(c)
    ensures Split(a + ":" + b + ":" + c, ':') == [a, b, c]
  {
    NoSeparatorInDigits(a);
    NoSeparatorInDigits(b);
    NoSeparatorInDigits(c);
    SplitNoSep(c, ':');
    SplitCons(b, ':', c);
    assert a + ":" + b + ":" + c == a + [':'] + (b + [':'] + c);
    SplitCons(a, ':', b + [':'] + c);
  }

  lemma SplitTwo(a: string, c: string)
    requires AllDigits(a) && AllDigits(c)
    ensures Split(a + ":" + c, ':') == [a, c]
  {
    NoSeparatorInDigits(a);
    NoSeparatorInDigits(c);
    SplitNoSep(c, ':');
    assert a + ":" + c == a + [':'] + c;
    SplitCons(a, ':', c);
  }

  /** Two different non-negative counters never show the same text. */
  lemma FormatTimeInjective(x: int, y: int)
    requires x >= 0 && y >= 0 && FormatTime(x) == FormatTime(y)
    ensures x == y
  {
    FormatTimeRoundTrip(x);
    FormatTimeRoundTrip(y);
  }

  /** A number below sixty padded to two places is two digits of the same value. */
  lemma Pad2Digits(n: int)
    requires 0 <= n < 60
    ensures IsTwoDigits(Pad2(IntToString(n)))
    ensures DigitsValue(Pad2(IntToString(n))) == n
    ensures ':' !in Pad2(IntToString(n))
  {
    var d := NatToString(n);
    NatToStringValue(n);
    if n < 10 {
      PadOneDigit(d);
      LeadingZeroValue(d);
    } else {
      assert |NatToString(n / 10)| == 1;
    }
    NoSeparatorInDigits(Pad2(d));
  }

  lemma PadOneDigit(d: string)
    requires |d| == 1
    ensures Pad2(d) == "0" + d
  {
    assert |"0" + d| == 2;
  }

  lemma NoSeparatorInDigits(s: string)
    requires AllDigits(s)
    ensures ':' !in s
  {
    forall i | 0 <= i < |s| ensures s[i] != ':' {
      assert IsDigit(s[i]);
    }
  }

  // ---------------------------------------------------------------------
  // Urgency

  /** `isUrgent`: five minutes or less. */
  predicate IsUrgent(timeRemaining: int) {
    timeRemaining <= UrgentThreshold
  }

  /** `isCritical`: one minute or less. */
  predicate IsCritical(timeRemaining: int) {
    timeRemaining <= CriticalThreshold
  }

  datatype Banner = Normal | HurryUp | TimeUp

  /** The warning shown beside the clock: none, "Dépêchez-vous!" or "TEMPS ÉCOULÉ!". */
  function BannerFor(timeRemaining: int): (b: Banner)
    ensures b == TimeUp <==> IsCritical(timeRemaining)
    ensures b == HurryUp <==> IsUrgent(timeRemaining) && !IsCritical(timeRemaining)
    ensures b == Normal <==> !IsUrgent(timeRemaining)
  {
    if !IsUrgent(timeRemaining) then Normal
    else if IsCritical(timeRemaining) then TimeUp
    else HurryUp
  }
}
