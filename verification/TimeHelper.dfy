// Clock arithmetic of src/common/helpers/time.helper.ts: "HH:mm" strings, windows that may wrap
// past midnight, and the overlap test used for blocked slots.
module TimeHelper {

  const DAY := 24 * 60

  predicate IsDigit(c: char) {
    '0' <= c <= '9'
  }

  function Digit(c: char): nat
    requires IsDigit(c)
  {
    c as int - '0' as int
  }

  // The zero-padded 24-hour pattern ([01]\d|2[0-3]):([0-5]\d).
  predicate IsClock(s: string) {
    && |s| == 5
    && s[2] == ':'
    && IsDigit(s[0]) && IsDigit(s[1]) && IsDigit(s[3]) && IsDigit(s[4])
    && (s[0] <= '1' || (s[0] == '2' && s[1] <= '3'))
    && s[3] <= '5'
  }

  type Clock = s: string | IsClock(s) witness "00:00"

  function TimeToMinutes(hhmm: Clock): (m: nat)
    ensures m < DAY
  {
    (10 * Digit(hhmm[0]) + Digit(hhmm[1])) * 60 + (10 * Digit(hhmm[3]) + Digit(hhmm[4]))
  }

  // JavaScript's `<` on strings: the first differing character decides, a proper prefix is smaller.
  predicate StringLess(a: string, b: string) {
    if b == [] then false
    else if a == [] then true
    else if a[0] != b[0] then a[0] < b[0]
    else StringLess(a[1..], b[1..])
  }

  lemma StringLessAt(a: string, b: string, k: nat)
    requires k < |a| && k < |b|
    ensures StringLess(a[k..], b[k..]) == if a[k] != b[k] then a[k] < b[k] else StringLess(a[k+1..], b[k+1..])
  {
    assert a[k..][1..] == a[k+1..] && b[k..][1..] == b[k+1..];
  }

  // Comparing two clock strings as text is comparing the minutes they denote.
  lemma ClockOrderIsMinuteOrder(a: Clock, b: Clock)
    ensures StringLess(a, b) <==> TimeToMinutes(a) < TimeToMinutes(b)
  {
    assert a == a[0..] && b == b[0..];
    StringLessAt(a, b, 0);
    StringLessAt(a, b, 1);
    StringLessAt(a, b, 2);
    StringLessAt(a, b, 3);
    StringLessAt(a, b, 4);
  }

  // ----- isRangeWithinWindow -------------------------------------------------------------

  // The end of a range, moved to the next day when it does not come after the start.
  function Lifted(start: int, end: int, day: int): int {
    if end <= start then end + day else end
  }

  // The outcome of isRangeWithinWindow on parsed minutes, for a day of any length.
  predicate WithinWindow(evStart: int, evEnd: int, winStart: int, winEnd: int, day: int) {
    var shift := if winEnd <= winStart && evStart < winStart then day else 0;
    winStart <= evStart + shift && Lifted(evStart, evEnd, day) + shift <= Lifted(winStart, winEnd, day)
  }

  method IsRangeWithinWindow(evStartRaw: Clock, evEndRaw: Clock, winStartRaw: Clock, winEndRaw: Clock)
    returns (inside: bool)
    ensures inside <==> WithinWindow(TimeToMinutes(evStartRaw), TimeToMinutes(evEndRaw),
                                     TimeToMinutes(winStartRaw), TimeToMinutes(winEndRaw), DAY)
  {
    var winStart: int := TimeToMinutes(winStartRaw);
    var winEnd: int := TimeToMinutes(winEndRaw);
    var winWraps := winEnd <= winStart;
    if winWraps {
      winEnd := winEnd + 24 * 60;
    }
    var evStart: int := TimeToMinutes(evStartRaw);
    var evEnd: int := TimeToMinutes(evEndRaw);
    if evEnd <= evStart {
      evEnd := evEnd + 24 * 60;
    }
    if winWraps && evStart < winStart {
      evStart := evStart + 24 * 60;
      evEnd := evEnd + 24 * 60;
    }
    inside := winStart <= evStart && evEnd <= winEnd;
  }

  // Minute m of the clock face is covered by the range that runs from start to end, wrapping
  // modulo the day.
  predicate Covers(start: int, end: int, day: int, m: int)
    requires day > 0
  {
    (m - start) % day < Lifted(start, end, day) - start
  }

  ghost predicate CoveredBy(evStart: int, evEnd: int, winStart: int, winEnd: int, day: int)
    requires day > 0
  {
    forall m :: 0 <= m < day && Covers(evStart, evEnd, day, m) ==> Covers(winStart, winEnd, day, m)
  }

  lemma ClockDistance(m: int, start: int, day: int)
    requires 0 <= m < day && 0 <= start < day
    ensures (m - start) % day == if start <= m then m - start else m - start + day
  {
  }

  lemma CoversWithoutModulo(start: int, end: int, day: int, m: int)
    requires 0 <= m < day && 0 <= start < day && 0 <= end < day
    ensures Covers(start, end, day, m) <==> if start < end then start <= m < end else start <= m || m < end
  {
    ClockDistance(m, start, day);
  }

  // The test is exact: it answers true precisely when every minute of the event lies in the window,
  // both taken around the clock face. The one family of windows it may misjudge is start == end
  // (read as 24 hours from its start): there everything is covered, and the test still refuses the
  // events that run across the window's own start.
  lemma {:induction false} WindowTestIsExact(evStart: int, evEnd: int, winStart: int, winEnd: int, day: int)
    requires 0 <= evStart < day && 0 <= evEnd < day && 0 <= winStart < day && 0 <= winEnd < day
    ensures winStart != winEnd ==>
              (WithinWindow(evStart, evEnd, winStart, winEnd, day)
               <==> CoveredBy(evStart, evEnd, winStart, winEnd, day))
    ensures winStart == winEnd ==>
              CoveredBy(evStart, evEnd, winStart, winEnd, day)
    ensures winStart == winEnd ==>
              (WithinWindow(evStart, evEnd, winStart, winEnd, day) <==>
               evStart == winStart || !Covers(evStart, evEnd, day, winStart))
  {
    forall m | 0 <= m < day
      ensures Covers(evStart, evEnd, day, m) <==>
              if evStart < evEnd then evStart <= m < evEnd else evStart <= m || m < evEnd
      ensures Covers(winStart, winEnd, day, m) <==>
              if winStart < winEnd then winStart <= m < winEnd else winStart <= m || m < winEnd
    {
      CoversWithoutModulo(evStart, evEnd, day, m);
      CoversWithoutModulo(winStart, winEnd, day, m);
    }
    if winStart == winEnd {
      var covered := Covers(evStart, evEnd, day, winStart);
    } else {
      // The minutes at which a difference can show.
      var first := Covers(evStart, evEnd, day, evStart);
      var last := Covers(evStart, evEnd, day, if evEnd == 0 then day - 1 else evEnd - 1);
      var gapStart := Covers(evStart, evEnd, day, winEnd);
      var gapEnd := Covers(evStart, evEnd, day, if winStart == 0 then day - 1 else winStart - 1);
      var midnight := Covers(evStart, evEnd, day, 0);
    }
  }

  // ----- rangesOverlap ------------------------------------------------------------------

  predicate RangesOverlap(aStart: int, aEnd: int, bStart: int, bEnd: int) {
    aStart < bEnd && bStart < Lifted(aStart, aEnd, DAY)
  }

  method RangesOverlapClocks(aStartRaw: Clock, aEndRaw: Clock, bStartRaw: Clock, bEndRaw: Clock)
    returns (overlap: bool)
    ensures overlap <==> RangesOverlap(TimeToMinutes(aStartRaw), TimeToMinutes(aEndRaw),
                                       TimeToMinutes(bStartRaw), TimeToMinutes(bEndRaw))
  {
    var aStart: int := TimeToMinutes(aStartRaw);
    var aEnd: int := TimeToMinutes(aEndRaw);
    if aEnd <= aStart {
      aEnd := aEnd + 24 * 60;
    }
    var bStart: int := TimeToMinutes(bStartRaw);
    var bEnd: int := TimeToMinutes(bEndRaw);
    overlap := aStart < bEnd && bStart < aEnd;
  }

  predicate InSpan(m: int, start: int, end: int) {
    start <= m < end
  }

  ghost predicate ShareAMinute(aStart: int, aEnd: int, bStart: int, bEnd: int) {
    exists m :: InSpan(m, aStart, Lifted(aStart, aEnd, DAY)) && InSpan(m, bStart, bEnd)
  }

  // Against every block that is not empty the overlap test means "some minute is shared", the event
  // being carried past midnight when it has to be; an empty block shares no minute with anything.
  lemma OverlapTestIsExact(aStart: nat, aEnd: nat, bStart: int, bEnd: int)
    requires aStart < DAY && aEnd < DAY
    ensures bStart < bEnd ==> (RangesOverlap(aStart, aEnd, bStart, bEnd) <==> ShareAMinute(aStart, aEnd, bStart, bEnd))
    ensures bEnd <= bStart ==> !ShareAMinute(aStart, aEnd, bStart, bEnd)
  {
    if bStart < bEnd && RangesOverlap(aStart, aEnd, bStart, bEnd) {
      var m := if aStart <= bStart then bStart else aStart;
      assert InSpan(m, aStart, Lifted(aStart, aEnd, DAY)) && InSpan(m, bStart, bEnd);
    }
  }

  // ----- end of an event, as the sweepers compute it --------------------------------------

  // Both sweepers move the end to the next day by comparing hours only.
  function SweptEnd(start: int, end: int): int {
    if end / 60 < start / 60 then end + DAY else end
  }

  // The sweepers agree with the window test on when an event ends unless it starts and ends within
  // the same hour of the clock without the end coming after the start: such an event is taken to
  // end a full day early.
  lemma SweptEndIsTrueEndIff(start: nat, end: nat)
    requires start < DAY && end < DAY
    ensures SweptEnd(start, end) == Lifted(start, end, DAY) <==> !(end / 60 == start / 60 && end <= start)
    ensures SweptEnd(start, end) != Lifted(start, end, DAY) ==> SweptEnd(start, end) + DAY == Lifted(start, end, DAY)
  {
  }
}
