// src/modules/discounts/discounts.service.ts: the discount table, the rule that two auto-applied
// discounts of one target never overlap in time, and the lookups that rely on it.
module Discounts {
  import opened Wrappers
  import opened Pricing

  datatype Target = ForService(s: nat) | ForPackage(p: nat)
  datatype Status = Active | Withdrawn

  // Dates are inclusive, a missing date is unbounded. A code of None is applied without being asked for.
  datatype Discount = Discount(
    target: Target, code: Option<string>, percent: Percent, status: Status, needsReconfirmation: bool,
    startsAt: Option<Time>, endsAt: Option<Time>)

  // The services and packages that exist, each with its provider.
  type Owners = map<Target, nat>

  datatype Refusal =
    | NoSuchTarget | NotOwner | OverlappingAuto | CodeTaken | NoSuchDiscount | NotActive | NothingToReconfirm | BadCode

  // JavaScript reads a missing and an empty code alike.
  predicate Truthy(code: Option<string>) {
    code.Some? && code.value != ""
  }

  predicate RangesOverlap(aStart: Option<Time>, aEnd: Option<Time>, bStart: Option<Time>, bEnd: Option<Time>) {
    && (bEnd.None? || aStart.None? || aStart.value <= bEnd.value)
    && (aEnd.None? || bStart.None? || bStart.value <= aEnd.value)
  }

  predicate Auto(d: Discount) {
    d.status == Active && d.code.None?
  }

  predicate Conflicts(rows: seq<Discount>, target: Target, startsAt: Option<Time>, endsAt: Option<Time>) {
    exists i | 0 <= i < |rows| ::
      rows[i].target == target && Auto(rows[i]) && RangesOverlap(startsAt, endsAt, rows[i].startsAt, rows[i].endsAt)
  }

  // ----- operations ------------------------------------------------------------------------------

  // `actor` is a provider, or None for an administrator, who may touch every target.
  predicate MayTouch(owners: Owners, actor: Option<nat>, target: Target) {
    actor.Some? ==> target in owners && owners[target] == actor.value
  }

  predicate CodeInUse(rows: seq<Discount>, code: Option<string>) {
    code.Some? && exists i | 0 <= i < |rows| :: rows[i].code == code
  }

  // Both creation endpoints; codes are unique over the table.
  function Create(owners: Owners, rows: seq<Discount>, actor: Option<nat>, target: Target, code: Option<string>,
                  percent: Percent, startsAt: Option<Time>, endsAt: Option<Time>): Result<seq<Discount>, Refusal>
  {
    if target !in owners then Failure(NoSuchTarget)
    else if !MayTouch(owners, actor, target) then Failure(NotOwner)
    else if !Truthy(code) && Conflicts(rows, target, startsAt, endsAt) then Failure(OverlappingAuto)
    else if CodeInUse(rows, code) then Failure(CodeTaken)
    else Success(rows + [Discount(target, code, percent, Active, false, startsAt, endsAt)])
  }

  function Cancel(owners: Owners, rows: seq<Discount>, actor: Option<nat>, d: nat): Result<seq<Discount>, Refusal> {
    if d >= |rows| then Failure(NoSuchDiscount)
    else if !MayTouch(owners, actor, rows[d].target) then Failure(NotOwner)
    else if rows[d].status != Active then Failure(NotActive)
    else Success(rows[d := rows[d].(status := Withdrawn)])
  }

  function Reconfirm(owners: Owners, rows: seq<Discount>, provider: nat, d: nat): Result<seq<Discount>, Refusal> {
    if d >= |rows| then Failure(NoSuchDiscount)
    else if !MayTouch(owners, Some(provider), rows[d].target) then Failure(NotOwner)
    else if !rows[d].needsReconfirmation then Failure(NothingToReconfirm)
    else Success(rows[d := rows[d].(needsReconfirmation := false)])
  }

  // suspendDiscountsForPackage, on activation of a package.
  function Suspend(rows: seq<Discount>, p: nat): (r: seq<Discount>)
    ensures |r| == |rows|
    ensures forall i :: 0 <= i < |rows| ==>
              r[i] == if rows[i].target == ForPackage(p) && rows[i].status == Active
                      then rows[i].(needsReconfirmation := true) else rows[i]
  {
    seq(|rows|, i requires 0 <= i < |rows| =>
      if rows[i].target == ForPackage(p) && rows[i].status == Active then rows[i].(needsReconfirmation := true)
           else rows[i])
  }

  datatype Operation =
    | DoCreate(actor: Option<nat>, target: Target, code: Option<string>, percent: Percent, startsAt: Option<Time>,
               endsAt: Option<Time>)
    | DoCancel(canceller: Option<nat>, d: nat)
    | DoReconfirm(provider: nat, d: nat)
    | DoSuspend(p: nat)

  function Apply(owners: Owners, rows: seq<Discount>, op: Operation): seq<Discount> {
    match op
    case DoCreate(actor, t, c, pct, s, e) => After(Create(owners, rows, actor, t, c, pct, s, e), rows)
    case DoCancel(actor, d) => After(Cancel(owners, rows, actor, d), rows)
    case DoReconfirm(provider, d) => After(Reconfirm(owners, rows, provider, d), rows)
    case DoSuspend(p) => Suspend(rows, p)
  }

  function Run(owners: Owners, ops: seq<Operation>): seq<Discount> {
    if ops == [] then [] else Apply(owners, Run(owners, ops[..|ops| - 1]), ops[|ops| - 1])
  }

  // ----- validity ----------------------------------------------------------------------------------

  predicate CurrentlyValid(d: Discount, now: Time) {
    && d.status == Active && !d.needsReconfirmation
    && (d.startsAt.Some? ==> d.startsAt.value <= now)
    && (d.endsAt.Some? ==> now <= d.endsAt.value)
  }

  // Suspended discounts keep their place on the calendar.
  ghost predicate NoOverlap(rows: seq<Discount>) {
    forall i, j :: 0 <= i < j < |rows| && Auto(rows[i]) && Auto(rows[j]) && rows[i].target == rows[j].target ==>
      !RangesOverlap(rows[i].startsAt, rows[i].endsAt, rows[j].startsAt, rows[j].endsAt)
  }

  lemma OverlapIsSymmetric(a: Discount, b: Discount)
    ensures RangesOverlap(a.startsAt, a.endsAt, b.startsAt, b.endsAt) <==>
            RangesOverlap(b.startsAt, b.endsAt, a.startsAt, a.endsAt)
  {
  }

  ghost predicate CodesUnique(rows: seq<Discount>) {
    forall i, j :: 0 <= i < j < |rows| && rows[i].code.Some? ==> rows[i].code != rows[j].code
  }

  lemma StepKeepsApart(owners: Owners, rows: seq<Discount>, op: Operation)
    requires NoOverlap(rows)
    ensures NoOverlap(Apply(owners, rows, op))
  {
    if op.DoCreate? && Apply(owners, rows, op) != rows {
      var rows' := Apply(owners, rows, op);
      forall i | 0 <= i < |rows| && Auto(rows'[i]) && Auto(rows'[|rows|]) && rows'[i].target == rows'[|rows|].target
        ensures !RangesOverlap(rows'[i].startsAt, rows'[i].endsAt, rows'[|rows|].startsAt, rows'[|rows|].endsAt)
      {
        OverlapIsSymmetric(rows'[i], rows'[|rows|]);
      }
    }
  }

  lemma StepKeepsCodes(owners: Owners, rows: seq<Discount>, op: Operation)
    requires CodesUnique(rows)
    ensures CodesUnique(Apply(owners, rows, op))
  {
    hide Conflicts, MayTouch;
  }

  lemma {:induction false} RunKeepsApart(owners: Owners, ops: seq<Operation>)
    ensures NoOverlap(Run(owners, ops)) && CodesUnique(Run(owners, ops))
  {
    if ops != [] {
      RunKeepsApart(owners, ops[..|ops| - 1]);
      StepKeepsApart(owners, Run(owners, ops[..|ops| - 1]), ops[|ops| - 1]);
      StepKeepsCodes(owners, Run(owners, ops[..|ops| - 1]), ops[|ops| - 1]);
      hide NoOverlap, CodesUnique, Apply;
    }
  }

  // At any instant of any history at most one auto-applied discount of a target is valid.
  lemma AtMostOneAutoDiscount(owners: Owners, ops: seq<Operation>, now: Time, i: nat, j: nat)
    requires i < |Run(owners, ops)| && j < |Run(owners, ops)|
    requires var a, b := Run(owners, ops)[i], Run(owners, ops)[j];
             a.code.None? && b.code.None? && a.target == b.target && CurrentlyValid(a, now) && CurrentlyValid(b, now)
    ensures i == j
  {
    RunKeepsApart(owners, ops);
  }

  // ----- what makes a discount valid ---------------------------------------------------------------------------

  predicate InRange(t: Time, startsAt: Option<Time>, endsAt: Option<Time>) {
    (startsAt.Some? ==> startsAt.value <= t) && (endsAt.Some? ==> t <= endsAt.value)
  }

  // Two periods that are not empty overlap exactly when they share an instant.
  lemma OverlapIsSharedInstant(a: Discount, b: Discount)
    requires a.startsAt.Some? && a.endsAt.Some? ==> a.startsAt.value <= a.endsAt.value
    requires b.startsAt.Some? && b.endsAt.Some? ==> b.startsAt.value <= b.endsAt.value
    ensures RangesOverlap(a.startsAt, a.endsAt, b.startsAt, b.endsAt) <==>
            exists t: Time :: InRange(t, a.startsAt, a.endsAt) && InRange(t, b.startsAt, b.endsAt)
  {
    if RangesOverlap(a.startsAt, a.endsAt, b.startsAt, b.endsAt) {
      var t := if a.startsAt.Some? && b.startsAt.Some? then
                 (if a.startsAt.value <= b.startsAt.value then b.startsAt.value else a.startsAt.value)
               else if a.startsAt.Some? then a.startsAt.value
               else if b.startsAt.Some? then b.startsAt.value
               else if a.endsAt.Some? && b.endsAt.Some? then
                 (if a.endsAt.value <= b.endsAt.value then a.endsAt.value else b.endsAt.value)
               else if a.endsAt.Some? then a.endsAt.value
               else if b.endsAt.Some? then b.endsAt.value
               else 0;
      assert InRange(t, a.startsAt, a.endsAt) && InRange(t, b.startsAt, b.endsAt);
    }
  }

  // A discount is created exactly for an existing target, by an administrator or its provider, under a code nobody
  // uses, and, without a code, if no other such discount of the target overlaps it.
  lemma CreateAcceptsIff(owners: Owners, rows: seq<Discount>, actor: Option<nat>, target: Target, code: Option<string>,
                         percent: Percent, startsAt: Option<Time>, endsAt: Option<Time>)
    ensures var r := Create(owners, rows, actor, target, code, percent, startsAt, endsAt);
            && (r.Success? <==>
                && target in owners && (actor == None || actor == Some(owners[target]))
                && (forall i :: 0 <= i < |rows| && code.Some? ==> rows[i].code != code)
                && (code == None || code == Some("") ==>
                      forall i :: 0 <= i < |rows| && rows[i].target == target && rows[i].status == Active
                                  && rows[i].code.None? ==>
                        !RangesOverlap(startsAt, endsAt, rows[i].startsAt, rows[i].endsAt)))
            && (r.Success? ==> |r.value| == |rows| + 1 && rows <= r.value
                               && r.value[|rows|] == Discount(target, code, percent, Active, false, startsAt, endsAt))
  {
  }

  // The provider of the target, or an administrator, withdraws discount d in step k.
  predicate Withdraws(owners: Owners, ops: seq<Operation>, k: nat, d: nat)
    requires k < |ops|
  {
    var rows := Run(owners, ops[..k]);
    && d < |rows| && ops[k].DoCancel? && ops[k].d == d
    && (ops[k].canceller == None || (rows[d].target in owners && ops[k].canceller == Some(owners[rows[d].target])))
  }

  // Step k activates the package that discount d is for.
  predicate Suspends(owners: Owners, ops: seq<Operation>, k: nat, d: nat)
    requires k < |ops|
  {
    var rows := Run(owners, ops[..k]);
    d < |rows| && ops[k].DoSuspend? && rows[d].target == ForPackage(ops[k].p)
  }

  // The provider of the target confirms discount d again in step k.
  predicate Reconfirms(owners: Owners, ops: seq<Operation>, k: nat, d: nat)
    requires k < |ops|
  {
    var rows := Run(owners, ops[..k]);
    && d < |rows| && ops[k].DoReconfirm? && ops[k].d == d
    && rows[d].target in owners && ops[k].provider == owners[rows[d].target]
  }

  ghost predicate Withdrawal(owners: Owners, ops: seq<Operation>, d: nat) {
    exists k :: 0 <= k < |ops| && Withdraws(owners, ops, k, d)
  }

  ghost predicate Suspended(owners: Owners, ops: seq<Operation>, d: nat) {
    exists k :: 0 <= k < |ops| && Suspends(owners, ops, k, d)
                && forall j :: k < j < |ops| ==> !Reconfirms(owners, ops, j, d)
  }

  // The columns that decide validity, after one more step.
  lemma StepOnDiscount(owners: Owners, ops: seq<Operation>, op: Operation, d: nat)
    requires d < |Run(owners, ops + [op])|
    ensures d < |Run(owners, ops)| ==>
              var row, row' := Run(owners, ops)[d], Run(owners, ops + [op])[d];
              && row' == row.(status := row'.status, needsReconfirmation := row'.needsReconfirmation)
              && (row'.status == Active <==> row.status == Active && !Withdraws(owners, ops + [op], |ops|, d))
              && (row'.needsReconfirmation <==>
                  (Suspends(owners, ops + [op], |ops|, d) && row.status == Active)
                  || (row.needsReconfirmation && !Reconfirms(owners, ops + [op], |ops|, d)))
    ensures d >= |Run(owners, ops)| ==>
              Run(owners, ops + [op])[d].status == Active && !Run(owners, ops + [op])[d].needsReconfirmation
  {
    assert (ops + [op])[..|ops|] == ops;
  }

  lemma EarlierSteps(owners: Owners, ops: seq<Operation>, op: Operation, k: nat, d: nat)
    requires k < |ops|
    ensures Withdraws(owners, ops + [op], k, d) <==> Withdraws(owners, ops, k, d)
    ensures Suspends(owners, ops + [op], k, d) <==> Suspends(owners, ops, k, d)
    ensures Reconfirms(owners, ops + [op], k, d) <==> Reconfirms(owners, ops, k, d)
  {
    assert (ops + [op])[..k] == ops[..k];
  }

  lemma HistoryGrows(owners: Owners, ops: seq<Operation>, op: Operation, d: nat)
    ensures Withdrawal(owners, ops + [op], d) <==>
            Withdrawal(owners, ops, d) || Withdraws(owners, ops + [op], |ops|, d)
    ensures Suspended(owners, ops + [op], d) <==>
            Suspends(owners, ops + [op], |ops|, d)
            || (Suspended(owners, ops, d) && !Reconfirms(owners, ops + [op], |ops|, d))
  {
    var all := ops + [op];
    forall k | 0 <= k < |ops|
      ensures Withdraws(owners, all, k, d) <==> Withdraws(owners, ops, k, d)
      ensures Suspends(owners, all, k, d) <==> Suspends(owners, ops, k, d)
      ensures Reconfirms(owners, all, k, d) <==> Reconfirms(owners, ops, k, d)
    {
      EarlierSteps(owners, ops, op, k, d);
    }
    hide Withdraws, Suspends, Reconfirms;
    if Withdrawal(owners, ops, d) {
      var k :| 0 <= k < |ops| && Withdraws(owners, ops, k, d);
      assert Withdraws(owners, all, k, d);
    }
    if Suspended(owners, ops, d) && !Reconfirms(owners, all, |ops|, d) {
      var k :| 0 <= k < |ops| && Suspends(owners, ops, k, d)
               && forall j :: k < j < |ops| ==> !Reconfirms(owners, ops, j, d);
      assert Suspends(owners, all, k, d);
    }
  }

  lemma NotYetThere(owners: Owners, ops: seq<Operation>, d: nat)
    requires d >= |Run(owners, ops)|
    ensures !Withdrawal(owners, ops, d) && !Suspended(owners, ops, d)
  {
    forall k | 0 <= k < |ops| ensures d >= |Run(owners, ops[..k])| {
      RowsStay(owners, ops, k);
    }
  }

  lemma {:induction false} RowsStay(owners: Owners, ops: seq<Operation>, k: nat)
    requires k <= |ops|
    ensures |Run(owners, ops[..k])| <= |Run(owners, ops)|
  {
    if k < |ops| {
      var n := |ops| - 1;
      assert ops[..n][..k] == ops[..k];
      RowsStay(owners, ops[..n], k);
    } else {
      assert ops[..k] == ops;
    }
  }

  lemma {:induction false} DiscountHistory(owners: Owners, ops: seq<Operation>, d: nat)
    requires d < |Run(owners, ops)|
    ensures Run(owners, ops)[d].status == Active <==> !Withdrawal(owners, ops, d)
    ensures Run(owners, ops)[d].status == Active ==>
              (Run(owners, ops)[d].needsReconfirmation <==> Suspended(owners, ops, d))
  {
    assert ops != [];
    var n := |ops| - 1;
    var before := ops[..n];
    assert ops == before + [ops[n]];
    hide Run, Withdraws, Suspends, Reconfirms;
    StepOnDiscount(owners, before, ops[n], d);
    HistoryGrows(owners, before, ops[n], d);
    if d < |Run(owners, before)| {
      DiscountHistory(owners, before, d);
    } else {
      NotYetThere(owners, before, d);
      NothingOnNewRow(owners, before, ops[n], d);
    }
    hide Withdrawal, Suspended;
  }

  lemma NothingOnNewRow(owners: Owners, ops: seq<Operation>, op: Operation, d: nat)
    requires d >= |Run(owners, ops)|
    ensures !Withdraws(owners, ops + [op], |ops|, d) && !Suspends(owners, ops + [op], |ops|, d)
  {
    assert (ops + [op])[..|ops|] == ops;
  }

  // Over any history: a discount is valid exactly in its period, unless it was withdrawn, or its package was
  // activated and the provider has not confirmed it since.
  lemma ValidIff(owners: Owners, ops: seq<Operation>, d: nat, now: Time)
    requires d < |Run(owners, ops)|
    ensures CurrentlyValid(Run(owners, ops)[d], now) <==>
            && InRange(now, Run(owners, ops)[d].startsAt, Run(owners, ops)[d].endsAt)
            && !Withdrawal(owners, ops, d) && !Suspended(owners, ops, d)
  {
    DiscountHistory(owners, ops, d);
    hide Run, Withdrawal, Suspended;
  }

  // ----- batch lookup -----------------------------------------------------------------------------------

  // The map that getActiveAutoDiscountsFor... builds from the fetched rows, the last one winning.
  function Lookup(rows: seq<Discount>, fetched: seq<nat>, now: Time): map<Target, nat>
    requires forall k :: 0 <= k < |fetched| ==> fetched[k] < |rows|
  {
    if fetched == [] then map[]
    else
      var d := fetched[|fetched| - 1];
      var earlier := Lookup(rows, fetched[..|fetched| - 1], now);
      if CurrentlyValid(rows[d], now) then earlier[rows[d].target := d] else earlier
  }

  method ActiveAutoDiscounts(rows: seq<Discount>, fetched: seq<nat>, now: Time) returns (found: map<Target, nat>)
    requires forall k :: 0 <= k < |fetched| ==> fetched[k] < |rows| && Auto(rows[fetched[k]])
    requires NoOverlap(rows)
    ensures forall t :: t in found <==> exists d: nat :: Entry(rows, fetched, now, t, d)
    ensures forall t :: t in found ==> Entry(rows, fetched, now, t, found[t])
    ensures found == Lookup(rows, fetched, now)
  {
    found := map[];
    for k := 0 to |fetched|
      invariant found == Lookup(rows, fetched[..k], now)
    {
      var d := fetched[k];
      if CurrentlyValid(rows[d], now) {
        found := found[rows[d].target := d];
      }
      assert fetched[..k + 1][..k] == fetched[..k];
    }
    assert fetched[..|fetched|] == fetched;
    forall t ensures t in found ==> Entry(rows, fetched, now, t, found[t])
             ensures t !in found ==> forall d: nat :: !Entry(rows, fetched, now, t, d)
    {
      LookupFinds(rows, fetched, now, t);
    }
  }

  // An entry of the map: a fetched row of that target, valid now.
  predicate Entry(rows: seq<Discount>, fetched: seq<nat>, now: Time, t: Target, d: nat) {
    d in fetched && d < |rows| && rows[d].target == t && CurrentlyValid(rows[d], now)
  }

  lemma {:induction false} LookupFinds(rows: seq<Discount>, fetched: seq<nat>, now: Time, t: Target)
    requires forall k :: 0 <= k < |fetched| ==> fetched[k] < |rows|
    ensures t in Lookup(rows, fetched, now) ==> Entry(rows, fetched, now, t, Lookup(rows, fetched, now)[t])
    ensures t !in Lookup(rows, fetched, now) ==> forall d: nat :: !Entry(rows, fetched, now, t, d)
  {
    hide CurrentlyValid;
    if fetched != [] {
      var n := |fetched| - 1;
      LookupFinds(rows, fetched[..n], now, t);
      forall d: nat ensures Entry(rows, fetched, now, t, d) <==>
                            Entry(rows, fetched[..n], now, t, d)
                            || (d == fetched[n] && rows[d].target == t && CurrentlyValid(rows[d], now))
      {
        assert fetched == fetched[..n] + [fetched[n]];
      }
    }
  }

  // Without overlaps a target has one entry at most.
  lemma EntryIsUnique(rows: seq<Discount>, a: seq<nat>, b: seq<nat>, now: Time, t: Target, d: nat, e: nat)
    requires NoOverlap(rows) && Entry(rows, a, now, t, d) && Entry(rows, b, now, t, e)
    requires Auto(rows[d]) && Auto(rows[e])
    ensures d == e
  {
  }

  // In a table without overlaps the order in which the rows arrive does not matter.
  lemma LookupIgnoresOrder(rows: seq<Discount>, a: seq<nat>, b: seq<nat>, now: Time)
    requires NoOverlap(rows)
    requires forall d :: d in a <==> d in b
    requires forall k :: 0 <= k < |a| ==> a[k] < |rows| && Auto(rows[a[k]])
    requires forall k :: 0 <= k < |b| ==> b[k] < |rows|
    ensures Lookup(rows, a, now) == Lookup(rows, b, now)
  {
    var fromA, fromB := Lookup(rows, a, now), Lookup(rows, b, now);
    forall t ensures t in fromA <==> t in fromB
             ensures t in fromA && t in fromB ==> fromA[t] == fromB[t]
    {
      LookupFinds(rows, a, now, t);
      LookupFinds(rows, b, now, t);
      assert forall d: nat :: Entry(rows, a, now, t, d) <==> Entry(rows, b, now, t, d);
      if t in fromA && t in fromB {
        EntryIsUnique(rows, a, b, now, t, fromA[t], fromB[t]);
      }
    }
  }

  // ----- single lookup ------------------------------------------------------------------------------------

  // matchOrNull on whichever ACTIVE row findFirst returned.
  function MatchOrNull(d: Option<Discount>, supplied: Option<string>, now: Time): Result<Option<Discount>, Refusal> {
    if d.None? || !CurrentlyValid(d.value, now) then
      if Truthy(supplied) then Failure(BadCode) else Success(None)
    else if Truthy(d.value.code) && supplied != d.value.code then
      if Truthy(supplied) then Failure(BadCode) else Success(None)
    else Success(d)
  }

  // The single lookup returns the row it was given exactly when that is valid now and either needs no code or was
  // asked for by its code; otherwise a customer who supplied a code is told so, and any other gets nothing.
  lemma ResolutionIsSound(d: Option<Discount>, supplied: Option<string>, now: Time)
    ensures var r := MatchOrNull(d, supplied, now);
            var given := d.Some? && CurrentlyValid(d.value, now)
                         && (d.value.code == None || d.value.code == Some("") || supplied == d.value.code);
            && (given <==> r == Success(d) && d.Some?)
            && (!given <==> r == (if supplied == None || supplied == Some("") then Success(None) else Failure(BadCode)))
  {
  }

  predicate Candidate(rows: seq<Discount>, target: Target, d: nat) {
    d < |rows| && rows[d].target == target && rows[d].status == Active
  }

  // It is not complete. A customer without a code is sure to get the target's valid discount that needs none
  // exactly when it is the target's only active one: any other that the query picks hides it or goes in its
  // place.
  lemma AutoDiscountIsGivenIff(owners: Owners, ops: seq<Operation>, target: Target, d0: nat, now: Time)
    requires var rows := Run(owners, ops);
             Candidate(rows, target, d0) && !Truthy(rows[d0].code) && CurrentlyValid(rows[d0], now)
    ensures var rows := Run(owners, ops);
            (forall d: nat :: Candidate(rows, target, d) ==>
               MatchOrNull(Some(rows[d]), None, now) == Success(Some(rows[d0])))
            <==> (forall d: nat :: Candidate(rows, target, d) ==> d == d0)
  {
    var rows := Run(owners, ops);
    RunKeepsApart(owners, ops);
    forall d: nat | Candidate(rows, target, d) && d != d0
      ensures MatchOrNull(Some(rows[d]), None, now) != Success(Some(rows[d0]))
    {
      if rows[d] == rows[d0] && rows[d0].code.None? {
        EntryIsUnique(rows, [d], [d0], now, target, d, d0);
      }
    }
  }

  // A customer who supplies a valid code is sure to get the discount of that code exactly when it is the
  // target's only active one: any other that the query picks turns the code away or goes in its place.
  lemma CodeIsHonouredIff(owners: Owners, ops: seq<Operation>, target: Target, d0: nat, now: Time)
    requires var rows := Run(owners, ops);
             Candidate(rows, target, d0) && Truthy(rows[d0].code) && CurrentlyValid(rows[d0], now)
    ensures var rows := Run(owners, ops);
            (forall d: nat :: Candidate(rows, target, d) ==>
               MatchOrNull(Some(rows[d]), rows[d0].code, now) == Success(Some(rows[d0])))
            <==> (forall d: nat :: Candidate(rows, target, d) ==> d == d0)
  {
    var rows := Run(owners, ops);
    RunKeepsApart(owners, ops);
    forall d: nat | Candidate(rows, target, d) && d != d0
      ensures MatchOrNull(Some(rows[d]), rows[d0].code, now) != Success(Some(rows[d0]))
    {
      assert rows[d].code != rows[d0].code;
    }
  }

  const SPRING := DoCreate(None, ForService(0), Some("SPRING"), 10.0, None, None)
  const AUTUMN := DoCreate(None, ForService(0), Some("AUTUMN"), 20.0, None, None)

  // Two codes for one service: the customer who types SPRING, valid and active, is refused when the query
  // comes back with AUTUMN.
  lemma ValidCodeIsRefused(now: Time)
    ensures var rows := Run(map[ForService(0) := 1], [SPRING, AUTUMN]);
            && Candidate(rows, ForService(0), 0) && Candidate(rows, ForService(0), 1)
            && rows[0].code == Some("SPRING") && CurrentlyValid(rows[0], now)
            && MatchOrNull(Some(rows[0]), Some("SPRING"), now) == Success(Some(rows[0]))
            && MatchOrNull(Some(rows[1]), Some("SPRING"), now) == Failure(BadCode)
  {
    var owners := map[ForService(0) := 1];
    assert [SPRING, AUTUMN][..1] == [SPRING] && [SPRING][..0] == [];
    assert Run(owners, [SPRING]) == [Discount(ForService(0), Some("SPRING"), 10.0, Active, false, None, None)];
    assert "SPRING" != "AUTUMN" by {
      assert "SPRING"[0] != "AUTUMN"[0];
    }
  }

  const ALWAYS := DoCreate(None, ForService(0), None, 10.0, None, None)

  // A service with a discount for everybody and one for a code: a customer without a code gets nothing when
  // the query comes back with the coded one.
  lemma ValidDiscountIsHidden(now: Time)
    ensures var rows := Run(map[ForService(0) := 1], [ALWAYS, SPRING]);
            && Candidate(rows, ForService(0), 0) && Candidate(rows, ForService(0), 1)
            && rows[0].code.None? && CurrentlyValid(rows[0], now)
            && MatchOrNull(Some(rows[0]), None, now) == Success(Some(rows[0]))
            && MatchOrNull(Some(rows[1]), None, now) == Success(None)
  {
    var owners := map[ForService(0) := 1];
    assert [ALWAYS, SPRING][..1] == [ALWAYS] && [ALWAYS][..0] == [];
    assert Run(owners, [ALWAYS]) == [Discount(ForService(0), None, 10.0, Active, false, None, None)];
    assert Truthy(Some("SPRING")) by {
      assert |"SPRING"| > 0;
    }
  }

  // ----- the table ------------------------------------------------------------------------------------------

  class DiscountTable {
    const owners: Owners
    var rows: seq<Discount>

    ghost predicate Valid()
      reads this
    {
      NoOverlap(rows) && CodesUnique(rows)
    }

    constructor (owners: Owners)
      ensures Valid() && rows == [] && this.owners == owners
    {
      this.owners := owners;
      rows := [];
    }

    method CreateDiscount(actor: Option<nat>, target: Target, code: Option<string>, percent: Percent,
                          startsAt: Option<Time>, endsAt: Option<Time>) returns (outcome: Outcome<Refusal>)
      requires Valid()
      modifies this
      ensures Valid()
      ensures var r := Create(owners, old(rows), actor, target, code, percent, startsAt, endsAt);
              outcome == Report(r) && rows == After(r, old(rows))
    {
      ghost var op := DoCreate(actor, target, code, percent, startsAt, endsAt);
      StepKeepsApart(owners, rows, op);
      StepKeepsCodes(owners, rows, op);
      hide NoOverlap, CodesUnique;
      if target !in owners {
        return Fail(NoSuchTarget);
      }
      if actor.Some? && owners[target] != actor.value {
        return Fail(NotOwner);
      }
      if !Truthy(code) {
        for i := 0 to |rows|
          invariant forall j :: 0 <= j < i ==>
                      !(rows[j].target == target && Auto(rows[j])
                        && RangesOverlap(startsAt, endsAt, rows[j].startsAt, rows[j].endsAt))
          invariant rows == old(rows)
        {
          if rows[i].target == target && Auto(rows[i])
               && RangesOverlap(startsAt, endsAt, rows[i].startsAt, rows[i].endsAt) {
            return Fail(OverlappingAuto);
          }
        }
      }
      if CodeInUse(rows, code) {
        return Fail(CodeTaken);
      }
      rows := rows + [Discount(target, code, percent, Active, false, startsAt, endsAt)];
      outcome := Pass;
    }

    method CancelDiscount(actor: Option<nat>, d: nat) returns (outcome: Outcome<Refusal>)
      requires Valid()
      modifies this
      ensures Valid()
      ensures outcome == Report(Cancel(owners, old(rows), actor, d))
                && rows == After(Cancel(owners, old(rows), actor, d), old(rows))
    {
      StepKeepsApart(owners, rows, DoCancel(actor, d));
      StepKeepsCodes(owners, rows, DoCancel(actor, d));
      hide NoOverlap, CodesUnique;
      if d >= |rows| {
        return Fail(NoSuchDiscount);
      }
      if actor.Some? && (rows[d].target !in owners || owners[rows[d].target] != actor.value) {
        return Fail(NotOwner);
      }
      if rows[d].status != Active {
        return Fail(NotActive);
      }
      rows := rows[d := rows[d].(status := Withdrawn)];
      outcome := Pass;
    }

    method ReconfirmDiscount(provider: nat, d: nat) returns (outcome: Outcome<Refusal>)
      requires Valid()
      modifies this
      ensures Valid()
      ensures outcome == Report(Reconfirm(owners, old(rows), provider, d))
      ensures rows == After(Reconfirm(owners, old(rows), provider, d), old(rows))
    {
      StepKeepsApart(owners, rows, DoReconfirm(provider, d));
      StepKeepsCodes(owners, rows, DoReconfirm(provider, d));
      hide NoOverlap, CodesUnique;
      if d >= |rows| {
        return Fail(NoSuchDiscount);
      }
      if rows[d].target !in owners || owners[rows[d].target] != provider {
        return Fail(NotOwner);
      }
      if !rows[d].needsReconfirmation {
        return Fail(NothingToReconfirm);
      }
      rows := rows[d := rows[d].(needsReconfirmation := false)];
      outcome := Pass;
    }

    method SuspendForPackage(p: nat)
      requires Valid()
      modifies this
      ensures Valid()
      ensures rows == Suspend(old(rows), p)
    {
      StepKeepsApart(owners, rows, DoSuspend(p));
      StepKeepsCodes(owners, rows, DoSuspend(p));
      hide NoOverlap, CodesUnique;
      for i := 0 to |rows|
        invariant |rows| == |old(rows)|
        invariant forall j :: 0 <= j < |rows| ==> rows[j] == if j < i then Suspend(old(rows), p)[j] else old(rows)[j]
      {
        if rows[i].target == ForPackage(p) && rows[i].status == Active {
          rows := rows[i := rows[i].(needsReconfirmation := true)];
        }
      }
      assert rows == Suspend(old(rows), p);
    }
  }
}
