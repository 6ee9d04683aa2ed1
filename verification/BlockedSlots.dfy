// src/modules/blocked-slots/blocked-slots.service.ts: the stored blocks of a provider, and the test
// that booking admission runs against them.
module BlockedSlots {
  import opened Wrappers
  import opened TimeHelper

  const MAX_BLOCK_DAYS := 31

  // One stored row. Every accepted request gets a group of its own with one row per day, so group and day
  // name the row. A row without a service blocks every service of its provider, a row without times blocks
  // the whole day.
  datatype Block = Block(
    provider: nat, service: Option<nat>, day: int, fromTime: Option<Clock>, toTime: Option<Clock>, group: nat)

  datatype Request = Request(
    service: Option<nat>, fromDay: int, toDay: Option<int>, fromTime: Option<Clock>, toTime: Option<Clock>)

  datatype Refusal = NotOwner | TimesNotPaired | TimesNotOrdered | DaysNotOrdered | TooManyDays | NoSuchBlock

  function LastDay(req: Request): int {
    if req.toDay.Some? then req.toDay.value else req.fromDay
  }

  // `ownsService`: the service that the request names, if it names one, is the provider's.
  function CheckRequest(req: Request, ownsService: bool): Outcome<Refusal> {
    if req.service.Some? && !ownsService then Fail(NotOwner)
    else if req.fromTime.Some? != req.toTime.Some? then Fail(TimesNotPaired)
    else if req.fromTime.Some? && !StringLess(req.fromTime.value, req.toTime.value) then Fail(TimesNotOrdered)
    else if LastDay(req) < req.fromDay then Fail(DaysNotOrdered)
    else if LastDay(req) - req.fromDay + 1 > MAX_BLOCK_DAYS then Fail(TooManyDays)
    else Pass
  }

  // A group that no stored row has, in place of a random one.
  function NewGroup(rows: seq<Block>): (group: nat)
    ensures forall i :: 0 <= i < |rows| ==> rows[i].group < group
  {
    if rows == [] then 0
    else
      var earlier := NewGroup(rows[..|rows| - 1]);
      if rows[|rows| - 1].group < earlier then earlier else rows[|rows| - 1].group + 1
  }

  function RowsFor(provider: nat, group: nat, req: Request): seq<Block>
    requires req.fromDay <= LastDay(req)
  {
    seq(LastDay(req) - req.fromDay + 1, i requires i >= 0 =>
      Block(provider, req.service, req.fromDay + i, req.fromTime, req.toTime, group))
  }

  function Created(rows: seq<Block>, provider: nat, req: Request, ownsService: bool): Result<seq<Block>, Refusal> {
    var checked := CheckRequest(req, ownsService);
    if checked.Pass? then Success(rows + RowsFor(provider, NewGroup(rows), req)) else Failure(checked.error)
  }

  predicate Named(b: Block, provider: nat, group: nat, day: Option<int>) {
    b.provider == provider && b.group == group && (day.None? || b.day == day.value)
  }

  function Without(rows: seq<Block>, provider: nat, group: nat, day: Option<int>): seq<Block> {
    if rows == [] then []
    else
      var rest := Without(rows[..|rows| - 1], provider, group, day);
      if Named(rows[|rows| - 1], provider, group, day) then rest else rest + [rows[|rows| - 1]]
  }

  // One row, or every row of its group.
  function Removed(rows: seq<Block>, provider: nat, group: nat, day: int, wholeGroup: bool)
    : Result<seq<Block>, Refusal>
  {
    if forall i | 0 <= i < |rows| :: !Named(rows[i], provider, group, Some(day)) then Failure(NoSuchBlock)
    else Success(Without(rows, provider, group, if wholeGroup then None else Some(day)))
  }

  predicate Hits(b: Block, provider: nat, service: nat, day: int, start: int, end: int) {
    && b.provider == provider
    && b.day == day
    && (b.service.None? || b.service.value == service)
    && (b.fromTime.None? || b.toTime.None?
        || RangesOverlap(start, end, TimeToMinutes(b.fromTime.value), TimeToMinutes(b.toTime.value)))
  }

  predicate IsBlocked(rows: seq<Block>, provider: nat, service: nat, day: int, start: int, end: int) {
    exists i | 0 <= i < |rows| :: Hits(rows[i], provider, service, day, start, end)
  }

  // A stored block is a whole day or a stretch with at least one minute in it.
  predicate WellTimed(b: Block) {
    && b.fromTime.Some? == b.toTime.Some?
    && (b.fromTime.Some? ==> TimeToMinutes(b.fromTime.value) < TimeToMinutes(b.toTime.value))
  }

  ghost predicate AllWellTimed(rows: seq<Block>) {
    forall b :: b in rows ==> WellTimed(b)
  }

  ghost predicate RowsAreNamed(rows: seq<Block>) {
    forall i, j :: 0 <= i < j < |rows| ==> rows[i].group != rows[j].group || rows[i].day != rows[j].day
  }

  ghost predicate BlocksOk(rows: seq<Block>) {
    AllWellTimed(rows) && RowsAreNamed(rows)
  }

  // The text comparison in `create` is enough to keep every stored block non-empty.
  lemma CreateKeepsBlocks(rows: seq<Block>, provider: nat, req: Request, ownsService: bool)
    requires BlocksOk(rows)
    ensures BlocksOk(After(Created(rows, provider, req, ownsService), rows))
  {
    if req.fromTime.Some? && req.toTime.Some? {
      ClockOrderIsMinuteOrder(req.fromTime.value, req.toTime.value);
    }
  }

  // ----- removal ---------------------------------------------------------------------------------

  lemma {:induction false} WithoutIsExact(rows: seq<Block>, provider: nat, group: nat, day: Option<int>, b: Block)
    ensures b in Without(rows, provider, group, day) <==> b in rows && !Named(b, provider, group, day)
  {
    if rows != [] {
      var n := |rows| - 1;
      WithoutIsExact(rows[..n], provider, group, day, b);
      assert rows == rows[..n] + [rows[n]];
    }
  }

  lemma {:induction false} NothingNamed(rows: seq<Block>, provider: nat, group: nat, day: Option<int>)
    requires forall i :: 0 <= i < |rows| ==> !Named(rows[i], provider, group, day)
    ensures Without(rows, provider, group, day) == rows
  {
    if rows != [] {
      NothingNamed(rows[..|rows| - 1], provider, group, day);
    }
  }

  lemma {:induction false} WithoutOneRow(rows: seq<Block>, provider: nat, group: nat, day: int, k: nat)
    requires RowsAreNamed(rows) && k < |rows| && Named(rows[k], provider, group, Some(day))
    ensures Without(rows, provider, group, Some(day)) == rows[..k] + rows[k + 1..]
  {
    var n := |rows| - 1;
    forall i | 0 <= i < |rows| && i != k ensures !Named(rows[i], provider, group, Some(day)) {
      assert rows[i].group != rows[k].group || rows[i].day != rows[k].day;
    }
    if k == n {
      NothingNamed(rows[..n], provider, group, Some(day));
    } else {
      WithoutOneRow(rows[..n], provider, group, day, k);
      assert rows[..n][..k] + rows[..n][k + 1..] + [rows[n]] == rows[..k] + rows[k + 1..];
    }
  }

  // Removing a single row takes out that row and keeps the others in place.
  lemma OneRowIsRemoved(rows: seq<Block>, provider: nat, group: nat, day: int, k: nat)
    requires RowsAreNamed(rows) && k < |rows| && Named(rows[k], provider, group, Some(day))
    ensures Removed(rows, provider, group, day, false) == Success(rows[..k] + rows[k + 1..])
  {
    WithoutOneRow(rows, provider, group, day, k);
  }

  lemma {:induction false} WithoutKeepsNames(rows: seq<Block>, provider: nat, group: nat, day: Option<int>)
    requires RowsAreNamed(rows)
    ensures RowsAreNamed(Without(rows, provider, group, day))
  {
    if rows != [] {
      var n := |rows| - 1;
      WithoutKeepsNames(rows[..n], provider, group, day);
      var rest := Without(rows[..n], provider, group, day);
      forall i | 0 <= i < |rest| ensures rest[i].group != rows[n].group || rest[i].day != rows[n].day {
        WithoutIsExact(rows[..n], provider, group, day, rest[i]);
        var j :| 0 <= j < n && rows[..n][j] == rest[i];
        assert rows[j].group != rows[n].group || rows[j].day != rows[n].day;
      }
    }
  }

  lemma RemoveKeepsBlocks(rows: seq<Block>, provider: nat, group: nat, day: int, wholeGroup: bool)
    requires BlocksOk(rows)
    ensures BlocksOk(After(Removed(rows, provider, group, day, wholeGroup), rows))
  {
    var which := if wholeGroup then None else Some(day);
    WithoutKeepsNames(rows, provider, group, which);
    forall b | b in Without(rows, provider, group, which) ensures WellTimed(b) {
      WithoutIsExact(rows, provider, group, which, b);
    }
  }

  // ----- what a block means in time ----------------------------------------------------------------

  predicate EventCovers(day: int, start: int, end: int, t: Time) {
    day * DAY + start <= t < day * DAY + Lifted(start, end, DAY)
  }

  predicate BlockCovers(b: Block, t: Time) {
    if b.fromTime.None? || b.toTime.None? then b.day * DAY <= t < (b.day + 1) * DAY
    else b.day * DAY + TimeToMinutes(b.fromTime.value) <= t < b.day * DAY + TimeToMinutes(b.toTime.value)
  }

  predicate Concerns(b: Block, provider: nat, service: nat) {
    b.provider == provider && (b.service.None? || b.service.value == service)
  }

  // The block takes a minute of the event, on whatever day that minute falls.
  ghost predicate Excludes(b: Block, provider: nat, service: nat, day: int, start: int, end: int) {
    Concerns(b, provider, service) && exists t: Time :: EventCovers(day, start, end, t) && BlockCovers(b, t)
  }

  function BlockStart(b: Block): nat {
    if b.fromTime.None? || b.toTime.None? then 0 else TimeToMinutes(b.fromTime.value)
  }

  // The block lies on the following day, and an event past midnight is still on when it starts.
  predicate MetAfterMidnight(b: Block, provider: nat, service: nat, day: int, start: int, end: int) {
    Concerns(b, provider, service) && b.day == day + 1 && end <= start && BlockStart(b) < end
  }

  lemma SharedMinute(b: Block, day: int, start: int, end: int, t: Time)
    requires WellTimed(b) && 0 <= start < DAY && 0 <= end < DAY
    requires EventCovers(day, start, end, t) && BlockCovers(b, t)
    ensures b.day == day || (b.day == day + 1 && end <= start && BlockStart(b) < end)
  {
  }

  // The test looks at the blocks of the event's own day only. It recognises every block but those that an
  // event past midnight meets on the following day, and it always misses these.
  lemma HitIsExactIff(b: Block, provider: nat, service: nat, day: int, start: nat, end: nat)
    requires WellTimed(b) && start < DAY && end < DAY
    ensures (Hits(b, provider, service, day, start, end) <==> Excludes(b, provider, service, day, start, end))
            <==> !MetAfterMidnight(b, provider, service, day, start, end)
    ensures Hits(b, provider, service, day, start, end) <==>
            Excludes(b, provider, service, day, start, end) && b.day == day
    ensures MetAfterMidnight(b, provider, service, day, start, end) ==> Excludes(b, provider, service, day, start, end)
  {
    if Concerns(b, provider, service) {
      if Hits(b, provider, service, day, start, end) {
        var from := BlockStart(b);
        var t := day * DAY + (if start <= from then from else start);
        assert EventCovers(day, start, end, t) && BlockCovers(b, t);
      }
      if MetAfterMidnight(b, provider, service, day, start, end) {
        var t := (day + 1) * DAY + BlockStart(b);
        assert EventCovers(day, start, end, t) && BlockCovers(b, t);
      }
      forall t: Time | EventCovers(day, start, end, t) && BlockCovers(b, t)
        ensures b.day == day || MetAfterMidnight(b, provider, service, day, start, end)
      {
        SharedMinute(b, day, start, end, t);
      }
    }
  }

  ghost predicate SomeExcludes(rows: seq<Block>, provider: nat, service: nat, day: int, start: int, end: int) {
    exists b :: b in rows && Excludes(b, provider, service, day, start, end)
  }

  ghost predicate SomeExcludesSameDay(rows: seq<Block>, provider: nat, service: nat, day: int, start: int, end: int) {
    exists b :: b in rows && b.day == day && Excludes(b, provider, service, day, start, end)
  }

  ghost predicate SomeMetAfterMidnight(rows: seq<Block>, provider: nat, service: nat, day: int, start: int, end: int) {
    exists b :: b in rows && MetAfterMidnight(b, provider, service, day, start, end)
  }

  // Over a table of well timed blocks the admission test refuses exactly the events that share a minute
  // with a block of their own day. That is every event that shares a minute with any block, unless blocks
  // of the following day are all it meets.
  lemma BlockedTestIsExactIff(rows: seq<Block>, provider: nat, service: nat, day: int, start: nat, end: nat)
    requires AllWellTimed(rows) && start < DAY && end < DAY
    ensures IsBlocked(rows, provider, service, day, start, end) <==>
            SomeExcludesSameDay(rows, provider, service, day, start, end)
    ensures (IsBlocked(rows, provider, service, day, start, end) <==>
             SomeExcludes(rows, provider, service, day, start, end))
            <==> (SomeMetAfterMidnight(rows, provider, service, day, start, end) ==>
                  SomeExcludesSameDay(rows, provider, service, day, start, end))
    ensures start < end ==> !SomeMetAfterMidnight(rows, provider, service, day, start, end)
  {
    hide Hits, Excludes, WellTimed;
    forall b | b in rows
      ensures Hits(b, provider, service, day, start, end) <==>
              Excludes(b, provider, service, day, start, end) && b.day == day
      ensures Excludes(b, provider, service, day, start, end) ==>
              b.day == day || MetAfterMidnight(b, provider, service, day, start, end)
      ensures MetAfterMidnight(b, provider, service, day, start, end) ==>
              Excludes(b, provider, service, day, start, end)
    {
      HitIsExactIff(b, provider, service, day, start, end);
    }
    if IsBlocked(rows, provider, service, day, start, end) {
      var i :| 0 <= i < |rows| && Hits(rows[i], provider, service, day, start, end);
      assert rows[i] in rows;
    }
    if SomeExcludesSameDay(rows, provider, service, day, start, end) {
      var b :| b in rows && b.day == day && Excludes(b, provider, service, day, start, end);
      var i :| 0 <= i < |rows| && rows[i] == b;
      assert Hits(rows[i], provider, service, day, start, end);
    }
  }

  // A party from 22:00 to 02:00 is not stopped by a block on all of the next day, two hours of which it takes.
  lemma NextDayBlockIsMissed(provider: nat, service: nat, day: int, group: nat)
    ensures var rows := [Block(provider, None, day + 1, None, None, group)];
            && !IsBlocked(rows, provider, service, day, 22 * 60, 2 * 60)
            && SomeExcludes(rows, provider, service, day, 22 * 60, 2 * 60)
            && forall t: Time :: (day + 1) * DAY <= t < (day + 1) * DAY + 2 * 60 ==>
                 EventCovers(day, 22 * 60, 2 * 60, t) && BlockCovers(rows[0], t)
  {
    var rows := [Block(provider, None, day + 1, None, None, group)];
    HitIsExactIff(rows[0], provider, service, day, 22 * 60, 2 * 60);
    assert rows[0] in rows;
  }

  // A whole-day block that was accepted excludes every event of that service on each of its days,
  // and the block for all services excludes each service of the provider.
  lemma AcceptedBlockTakesEffect(rows: seq<Block>, provider: nat, req: Request, ownsService: bool,
                                 service: nat, day: int, start: int, end: int)
    requires CheckRequest(req, ownsService).Pass?
    requires req.fromDay <= day <= LastDay(req) && req.fromTime.None?
    requires req.service.None? || req.service.value == service
    ensures IsBlocked(Created(rows, provider, req, ownsService).value, provider, service, day, start, end)
  {
    var all := Created(rows, provider, req, ownsService).value;
    var i := |rows| + (day - req.fromDay);
    assert all[i] == RowsFor(provider, NewGroup(rows), req)[day - req.fromDay];
    assert Hits(all[i], provider, service, day, start, end);
  }

  // A request is accepted exactly for the provider's own service or all of them, with both times or none, in order
  // on the clock, and for one to 31 days.
  lemma RequestAcceptedIff(req: Request, ownsService: bool)
    ensures var lastDay := if req.toDay.Some? then req.toDay.value else req.fromDay;
            CheckRequest(req, ownsService).Pass? <==>
            && (req.service.Some? ==> ownsService)
            && (req.fromTime.Some? <==> req.toTime.Some?)
            && (req.fromTime.Some? && req.toTime.Some? ==>
                  TimeToMinutes(req.fromTime.value) < TimeToMinutes(req.toTime.value))
            && req.fromDay <= lastDay < req.fromDay + 31
  {
    if req.fromTime.Some? && req.toTime.Some? {
      ClockOrderIsMinuteOrder(req.fromTime.value, req.toTime.value);
    }
    hide StringLess;
  }

  predicate Wanted(req: Request, service: nat, day: int, start: int, end: int) {
    && req.fromDay <= day <= LastDay(req)
    && (req.service.None? || req.service.value == service)
    && (req.fromTime.None? || req.toTime.None?
        || RangesOverlap(start, end, TimeToMinutes(req.fromTime.value), TimeToMinutes(req.toTime.value)))
  }

  // An accepted block refuses what it was asked for, and nothing else that was not refused before.
  lemma AcceptedBlockIsExact(rows: seq<Block>, owner: nat, req: Request, ownsService: bool,
                             provider: nat, service: nat, day: int, start: int, end: int)
    requires CheckRequest(req, ownsService).Pass?
    ensures IsBlocked(Created(rows, owner, req, ownsService).value, provider, service, day, start, end) <==>
            IsBlocked(rows, provider, service, day, start, end)
            || (provider == owner && Wanted(req, service, day, start, end))
  {
    var all := Created(rows, owner, req, ownsService).value;
    var added := RowsFor(owner, NewGroup(rows), req);
    hide CheckRequest, RangesOverlap, NewGroup;
    if IsBlocked(rows, provider, service, day, start, end) {
      var i :| 0 <= i < |rows| && Hits(rows[i], provider, service, day, start, end);
      assert all[i] == rows[i];
    }
    if provider == owner && Wanted(req, service, day, start, end) {
      var i := |rows| + (day - req.fromDay);
      assert all[i] == added[day - req.fromDay];
      assert Hits(all[i], provider, service, day, start, end);
    }
    if IsBlocked(all, provider, service, day, start, end) {
      var i :| 0 <= i < |all| && Hits(all[i], provider, service, day, start, end);
      assert all[i] == if i < |rows| then rows[i] else added[i - |rows|];
    }
  }

  // A removal needs a row of the provider under that group and day, and takes it out, with its group if asked.
  lemma RemovalIsExact(rows: seq<Block>, provider: nat, group: nat, day: int, wholeGroup: bool)
    ensures var r := Removed(rows, provider, group, day, wholeGroup);
            && (r.Success? <==> exists b :: b in rows && b.provider == provider && b.group == group && b.day == day)
            && (r.Success? ==>
                  forall b :: b in r.value <==>
                              b in rows
                              && !(b.provider == provider && b.group == group && (wholeGroup || b.day == day)))
  {
    forall b ensures b in Without(rows, provider, group, if wholeGroup then None else Some(day)) <==>
                     b in rows && !(b.provider == provider && b.group == group && (wholeGroup || b.day == day))
    {
      WithoutIsExact(rows, provider, group, if wholeGroup then None else Some(day), b);
    }
    if b :| b in rows && b.provider == provider && b.group == group && b.day == day {
      var i :| 0 <= i < |rows| && rows[i] == b;
      assert Named(rows[i], provider, group, Some(day));
    }
  }
}
