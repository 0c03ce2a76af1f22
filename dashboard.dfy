/**
 * The operator dashboard's figures (DashboardPage.tsx): the completed-call
 * filter, the rounded average duration, "m:ss" formatting, and the two
 * summary lines. Date parsing is outside the model: each call carries the
 * number of milliseconds between its parsed start and end.
 */
module Dashboard {
  import opened Wrappers
  import opened Decimal

  const NotAvailable := "N/A"
  /** What formatDuration prints for NaN. */
  const NaNDuration := "NaN:NaN"

  /** A time field of a listed call: left out of the record, null, or a date text. */
  datatype TimeField = Absent | Null | Text(s: string)

  /**
   * A call as the dashboard receives it from listCalls. `elapsedMs` is
   * `new Date(end_time).getTime() - new Date(start_time).getTime()` where both
   * dates are valid; a null date counts as time 0.
   */
  datatype DashCall = DashCall(id: nat, startTime: TimeField, endTime: TimeField, elapsedMs: int)

  /** JavaScript truthiness of a time field: only a non-empty text is truthy. */
  predicate Present(field: TimeField) {
    field.Text? && field.s != ""
  }

  predicate Completed(c: DashCall) {
    Present(c.endTime) && Present(c.startTime)
  }

  /** `calls.filter(call => call.end_time && call.start_time)`. */
  function CompletedCalls(calls: seq<DashCall>): (r: seq<DashCall>)
    ensures |r| <= |calls|
    ensures forall c | c in r :: Completed(c)
    ensures forall c | c in calls && Completed(c) :: c in r
  {
    if calls == [] then []
    else if Completed(calls[0]) then [calls[0]] + CompletedCalls(calls[1..])
    else CompletedCalls(calls[1..])
  }

  /** The filter keeps every completed call exactly as often as the list holds it, and nothing else. */
  lemma {:induction false} CompletedCallsCounts(calls: seq<DashCall>, c: DashCall)
    ensures multiset(CompletedCalls(calls))[c] == if Completed(c) then multiset(calls)[c] else 0
  {
    if calls != [] {
      CompletedCallsCounts(calls[1..], c);
      assert calls == [calls[0]] + calls[1..];
    }
  }

  /** The filter keeps the original order: filtering a concatenation concatenates the filtered parts. */
  lemma {:induction false} CompletedCallsAppend(a: seq<DashCall>, b: seq<DashCall>)
    ensures CompletedCalls(a + b) == CompletedCalls(a) + CompletedCalls(b)
  {
    if a != [] {
      assert (a + b)[1..] == a[1..] + b;
      CompletedCallsAppend(a[1..], b);
    } else {
      assert a + b == b;
    }
  }

  /** `Math.floor(sec / 60)` for an integer number of seconds. */
  function Minutes(sec: int): (m: int)
    ensures 60 * m <= sec < 60 * m + 60
  {
    sec / 60
  }

  /** `sec % 60` in JavaScript: the remainder takes the sign of `sec`. */
  function Seconds(sec: int): (s: int)
    ensures sec >= 0 ==> 0 <= s < 60 && s == sec % 60
    ensures sec < 0 ==> -60 < s <= 0 && s == -((-sec) % 60)
  {
    if sec >= 0 then sec % 60 else -((-sec) % 60)
  }

  /** formatDuration: minutes, a colon, and the seconds padded to two characters. */
  function FormatDuration(sec: int): (text: string)
    ensures sec >= 0 ==> text == NatToDecimal(sec / 60) + ":" + PadStart(NatToDecimal(sec % 60), 2, '0')
  {
    IntToString(Minutes(sec)) + ":" + PadStart(IntToString(Seconds(sec)), 2, '0')
  }

  /** Reads "m:ss" text back: the digits before the last three characters, a colon, two digits. */
  function ParseDuration(text: string): (sec: Option<int>)
  {
    var n := |text|;
    if n >= 4 && text[n - 3] == ':' && AllDigits(text[..n - 3]) && AllDigits(text[n - 2..]) then
      Some(DecimalValue(text[..n - 3]) * 60 + DecimalValue(text[n - 2..]))
    else None
  }

  lemma TwoDigitsAtMost(n: nat)
    requires n < 100
    ensures |NatToDecimal(n)| <= 2
  {
  }

  /** The seconds part is two characters for every non-negative duration. */
  lemma SecondsPartTwoChars(sec: int)
    requires sec >= 0
    ensures |PadStart(NatToDecimal(sec % 60), 2, '0')| == 2
    ensures AllDigits(PadStart(NatToDecimal(sec % 60), 2, '0'))
    ensures DecimalValue(PadStart(NatToDecimal(sec % 60), 2, '0')) == sec % 60
  {
    var d := NatToDecimal(sec % 60);
    TwoDigitsAtMost(sec % 60);
    DecimalRoundTrip(sec % 60);
    if |d| < 2 {
      LeadingZerosIgnored(2 - |d|, d);
    }
  }

  /** The parser splits a text of the right shape at its colon. */
  lemma ParseShape(t: string, m: string, ss: string)
    requires |m| >= 1 && AllDigits(m) && |ss| == 2 && AllDigits(ss)
    requires |t| == |m| + 3 && t[..|m|] == m && t[|m|] == ':' && t[|m| + 1..] == ss
    ensures ParseDuration(t) == Some(DecimalValue(m) * 60 + DecimalValue(ss))
  {
  }

  lemma ParseParts(m: string, ss: string)
    requires |m| >= 1 && AllDigits(m) && |ss| == 2 && AllDigits(ss)
    ensures ParseDuration(m + ":" + ss) == Some(DecimalValue(m) * 60 + DecimalValue(ss))
  {
    var t := m + ":" + ss;
    assert t[..|m|] == m;
    assert t[|m| + 1..] == ss;
    ParseShape(t, m, ss);
  }

  lemma ParseValues(sec: int, m: string, ss: string)
    requires |m| >= 1 && AllDigits(m) && |ss| == 2 && AllDigits(ss)
    requires DecimalValue(m) * 60 + DecimalValue(ss) == sec
    ensures ParseDuration(m + ":" + ss) == Some(sec)
  {
    ParseParts(m, ss);
  }

  /** Minutes and seconds read back from the text give the duration again. */
  lemma FormatDurationRoundTrip(sec: int)
    requires sec >= 0
    ensures ParseDuration(FormatDuration(sec)) == Some(sec)
  {
    var q, r := sec / 60, sec % 60;
    DivMod60(sec);
    var m, ss := NatToDecimal(q), PadStart(NatToDecimal(r), 2, '0');
    SecondsPartTwoChars(sec);
    DecimalRoundTrip(q);
    ParseValues(sec, m, ss);
  }

  lemma DivMod60(sec: int)
    requires sec >= 0
    ensures sec / 60 >= 0 && (sec / 60) * 60 + sec % 60 == sec
  {
  }

  /** Minutes are neither padded nor capped at an hour. */
  lemma OneHour()
    ensures FormatDuration(3600) == "60:00"
  {
    assert NatToDecimal(60) == "60";
    assert NatToDecimal(0) == "0";
  }

  /** Math.round(x) for x = num / den with den > 0: the nearest integer, halves rounded up. */
  function RoundDiv(num: int, den: int): (r: int)
    requires den > 0
    ensures 2 * den * r <= 2 * num + den < 2 * den * (r + 1)
  {
    (2 * num + den) / (2 * den)
  }

  /** The reduce over the completed calls: their durations added up, starting from 0. */
  function SumElapsed(calls: seq<DashCall>): (total: int)
    ensures |calls| == 1 ==> total == calls[0].elapsedMs
  {
    if calls == [] then 0 else SumElapsed(calls[..|calls| - 1]) + calls[|calls| - 1].elapsedMs
  }

  /** The total of two runs of calls is the sum of their totals, so the order of the calls does not matter to it. */
  lemma {:induction false} SumElapsedAppend(a: seq<DashCall>, b: seq<DashCall>)
    ensures SumElapsed(a + b) == SumElapsed(a) + SumElapsed(b)
  {
    if b == [] {
      assert a + b == a;
    } else {
      var ab := a + b;
      assert ab[..|ab| - 1] == a + b[..|b| - 1] && ab[|ab| - 1] == b[|b| - 1];
      SumElapsedAppend(a, b[..|b| - 1]);
    }
  }

  /** avgDurationSec: the mean of the completed calls' durations in seconds, rounded; 0 with none. */
  function AverageDurationSec(calls: seq<DashCall>): (avg: int)
    ensures CompletedCalls(calls) == [] ==> avg == 0
    ensures CompletedCalls(calls) != [] ==>
              var n := |CompletedCalls(calls)|;
              var total := SumElapsed(CompletedCalls(calls));
              2000 * n * avg <= 2 * total + 1000 * n < 2000 * n * (avg + 1)
  {
    var done := CompletedCalls(calls);
    if |done| > 0 then RoundDiv(SumElapsed(done), 1000 * |done|) else 0
  }

  /** The two figures at the top of the page. */
  datatype Summary = Summary(totalCalls: nat, averageText: string)

  function DashboardSummary(calls: seq<DashCall>): (s: Summary)
    ensures s.totalCalls == |calls|
    ensures s.averageText == NotAvailable <==> CompletedCalls(calls) == []
    ensures CompletedCalls(calls) != [] ==> s.averageText == FormatDuration(AverageDurationSec(calls))
  {
    var done := CompletedCalls(calls);
    var text := if |done| > 0 then FormatDuration(AverageDurationSec(calls)) else NotAvailable;
    assert text != NotAvailable <== |done| > 0 by {
      if |done| > 0 {
        var t := FormatDuration(AverageDurationSec(calls));
        assert ':' in t by {
          var m := IntToString(Minutes(AverageDurationSec(calls)));
          assert t[|m|] == ':';
        }
        assert ':' !in NotAvailable;
      }
    }
    Summary(|calls|, text)
  }

  /** A call card's duration line: shown when the call has an end time. */
  function CardDuration(c: DashCall): (line: Option<string>)
    ensures line.Some? <==> Present(c.endTime)
    ensures Present(c.endTime) && (Present(c.startTime) || c.startTime == Null) ==>
              line == Some(FormatDuration(RoundDiv(c.elapsedMs, 1000)))
    ensures Present(c.endTime) && (c.startTime == Absent || c.startTime == Text("")) ==> line == Some(NaNDuration)
  {
    if !Present(c.endTime) then None
    else if c.startTime == Null || Present(c.startTime) then Some(FormatDuration(RoundDiv(c.elapsedMs, 1000)))
    else Some(NaNDuration)   // `new Date(undefined)` and `new Date("")` are invalid, and every figure becomes NaN
  }

  /**
   * The call list the back end serves carries no end time (its serializer lists
   * id, start_time and caller_info only), so on real data no call is ever
   * completed and the average always reads "N/A".
   */
  lemma BackendCallsShowNoAverage(calls: seq<DashCall>)
    requires forall c | c in calls :: c.endTime == Absent
    ensures CompletedCalls(calls) == []
    ensures DashboardSummary(calls).averageText == NotAvailable
  {
  }
}
