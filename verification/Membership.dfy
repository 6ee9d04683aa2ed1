// Who belongs to a package: what each authoring step does to the sets of active, pending and rejected services,
// and that a partner's service is only ever sold through a package with that partner's consent.
module Membership {
  import opened Wrappers
  import opened Marketplace
  import opened Pricing
  import opened Sequences
  import opened Composition
  import opened Runs
  import opened Guarantees
  import Admission
  import Acceptance
  import AdmissionSafety
  import Safety
  import BlockedSlots

  // ----- sets of services ------------------------------------------------------------------------------------

  predicate Holds(members: seq<Member>, s: nat, status: MemberStatus) {
    exists m | 0 <= m < |members| :: members[m].service == s && members[m].status == status
  }

  ghost function Services(members: seq<Member>, status: MemberStatus): set<nat> {
    set m | 0 <= m < |members| && members[m].status == status :: members[m].service
  }

  lemma ServicesHold(members: seq<Member>, status: MemberStatus)
    ensures forall s: nat :: s in Services(members, status) <==> Holds(members, s, status)
  {
  }

  lemma ServicesOfOneMore(members: seq<Member>, status: MemberStatus)
    requires members != []
    ensures var last := members[|members| - 1];
            Services(members, status) == Services(members[..|members| - 1], status)
                                         + (if last.status == status then {last.service} else {})
  {
    var n := |members| - 1;
    forall s: nat ensures s in Services(members, status) <==>
                          s in Services(members[..n], status)
                          || (members[n].status == status && s == members[n].service)
    {
      if s in Services(members[..n], status) {
        var m :| 0 <= m < n && members[..n][m].status == status && members[..n][m].service == s;
        assert members[m].service == s;
      }
      if s in Services(members, status) {
        var m :| 0 <= m <= n && members[m].status == status && members[m].service == s;
        assert m < n ==> members[..n][m] == members[m];
      }
    }
  }

  // With no service twice, counting active rows is counting active services.
  lemma {:induction false} ActiveRowsAreServices(members: seq<Member>)
    requires NoRepeats(ServiceIds(members))
    ensures CountActive(members) == |Services(members, MemActive)|
  {
    if members == [] {
      assert Services(members, MemActive) == {};
    } else {
      var n := |members| - 1;
      assert ServiceIds(members)[..n] == ServiceIds(members[..n]);
      ActiveRowsAreServices(members[..n]);
      ServicesOfOneMore(members, MemActive);
      forall m | 0 <= m < n ensures members[m].service != members[n].service {
        assert ServiceIds(members)[m] != ServiceIds(members)[n];
      }
      assert members[n].service !in Services(members[..n], MemActive);
    }
  }

  lemma RowsDiffer(cat: Catalogue, packages: seq<Package>, p: nat)
    requires PackagesOk(cat, packages) && p < |packages|
    ensures var members := packages[p].members;
            && NoRepeats(ServiceIds(members))
            && (forall i, j :: 0 <= i < j < |members| ==> members[i].service != members[j].service)
            && (forall i :: 0 <= i < |members| ==>
                  members[i].service < |cat.services|
                  && members[i].provider == cat.services[members[i].service].provider)
  {
    var members := packages[p].members;
    assert PackageOk(cat, packages[p]);
    forall i, j | 0 <= i < j < |members| ensures members[i].service != members[j].service {
      assert ServiceIds(members)[i] != ServiceIds(members)[j];
    }
    forall i | 0 <= i < |members| ensures members[i].service < |cat.services| {
      assert ServiceIds(members)[i] < |cat.services|;
    }
  }

  // ----- one row is rewritten --------------------------------------------------------------------------------

  lemma OneRowRewritten(members: seq<Member>, m: nat, status: MemberStatus)
    requires m < |members|
    requires forall i, j :: 0 <= i < j < |members| ==> members[i].service != members[j].service
    ensures var after := members[m := members[m].(status := status)];
            forall st :: Services(after, st) == Services(members, st) - {members[m].service}
                                                + (if st == status then {members[m].service} else {})
  {
    var s, after := members[m].service, members[m := members[m].(status := status)];
    forall st
      ensures Services(after, st) == Services(members, st) - {s} + (if st == status then {s} else {})
    {
      forall x: nat ensures x in Services(after, st) <==>
                            (x in Services(members, st) && x != s) || (x == s && st == status)
      {
        if x in Services(members, st) && x != s {
          var k :| 0 <= k < |members| && members[k].status == st && members[k].service == x;
          assert after[k] == members[k];
        }
        if x == s && st == status {
          assert after[m].service == s && after[m].status == st;
        }
      }
    }
  }

  // An answer needs a pending row of the caller. Accepting adds its service to the active ones, refusing adds
  // none; either way the service is no longer asked for and nothing else changes.
  lemma AnswerIsExact(cat: Catalogue, packages: seq<Package>, provider: nat, p: nat, m: nat, accept: bool)
    requires PackagesOk(cat, packages)
    ensures AnswerJoin(packages, provider, p, m, accept).Success? <==>
            && p < |packages| && m < |packages[p].members|
            && packages[p].members[m].provider == provider && packages[p].members[m].status == MemPending
    ensures AnswerJoin(packages, provider, p, m, accept).Success? ==>
              var before, after := packages[p], AnswerJoin(packages, provider, p, m, accept).value[p];
              var s := before.members[m].service;
              && AnswerJoin(packages, provider, p, m, accept).value == packages[p := after]
              && after == before.(members := after.members) && |after.members| == |before.members|
              && (forall k :: 0 <= k < |before.members| && k != m ==> after.members[k] == before.members[k])
              && Services(after.members, MemActive)
                 == Services(before.members, MemActive) + (if accept then {s} else {})
              && Services(after.members, MemPending) == Services(before.members, MemPending) - {s}
              && Services(after.members, MemRejected)
                 == Services(before.members, MemRejected) + (if accept then {} else {s})
  {
    if AnswerJoin(packages, provider, p, m, accept).Success? {
      RowsDiffer(cat, packages, p);
      OneRowRewritten(packages[p].members, m, if accept then MemActive else MemRejected);
      OnlyPending(packages[p].members, m);
    }
  }

  lemma OnlyPending(members: seq<Member>, m: nat)
    requires m < |members|
    requires forall i, j :: 0 <= i < j < |members| ==> members[i].service != members[j].service
    ensures forall st :: st != members[m].status ==> members[m].service !in Services(members, st)
  {
  }

  // ----- leaving ---------------------------------------------------------------------------------------------

  // A package booking of the package still runs.
  predicate StillBooked(db: Db, p: nat) {
    exists o | 0 <= o < |db.orders| ::
      db.orders[o].package == p
      && (db.orders[o].status == OrdPending || db.orders[o].status == OrdConfirmed
          || db.orders[o].status == OrdPendingPayment || db.orders[o].status == OrdInProgress)
  }

  // A confirmed or running child of some package booking is for the service.
  predicate StillNeeded(db: Db, s: nat) {
    exists b | 0 <= b < |db.bookings| ::
      db.bookings[b].service == s && db.bookings[b].order.Some?
      && (db.bookings[b].status == Confirmed || db.bookings[b].status == InProgress)
  }

  predicate OwnerCanLeave(db: Db, provider: nat, p: nat) {
    && p < |db.packages| && db.packages[p].owner == provider && db.packages[p].status != PkgCancelled
    && !StillBooked(db, p)
  }

  predicate PartnerCanLeave(db: Db, provider: nat, p: nat, m: nat) {
    && p < |db.packages| && db.packages[p].owner != provider && m < |db.packages[p].members|
    && db.packages[p].members[m].provider == provider && db.packages[p].members[m].status == MemActive
    && !StillNeeded(db, db.packages[p].members[m].service)
  }

  lemma LeaveNeeds(cat: Catalogue, db: Db, provider: nat, p: nat, m: nat)
    ensures ExecutePackage(cat, db, DoLeavePackage(provider, p, m)).Success? <==>
            OwnerCanLeave(db, provider, p) || PartnerCanLeave(db, provider, p, m)
  {
  }

  // The owner calls the package off, unless a booking of it still runs. A partner takes out a service that no
  // running booking needs; with fewer than two services left active the package is a draft again.
  lemma LeaveIsExact(cat: Catalogue, db: Db, provider: nat, p: nat, m: nat)
    requires PackagesOk(cat, db.packages)
    ensures ExecutePackage(cat, db, DoLeavePackage(provider, p, m)).Success? <==>
            OwnerCanLeave(db, provider, p) || PartnerCanLeave(db, provider, p, m)
    ensures var packages := After(ExecutePackage(cat, db, DoLeavePackage(provider, p, m)), db).packages;
            && (OwnerCanLeave(db, provider, p) ==>
                  |packages| == |db.packages| && packages[p].status == PkgCancelled
                  && packages == db.packages[p := db.packages[p].(status := PkgCancelled,
                                                                  members := packages[p].members)]
                  && |packages[p].members| == |db.packages[p].members|
                  && forall k :: 0 <= k < |packages[p].members| ==>
                       packages[p].members[k] == db.packages[p].members[k].(status := MemRejected))
            && (PartnerCanLeave(db, provider, p, m) ==>
                  |packages| == |db.packages|
                  && var before, after := db.packages[p], packages[p];
                  var s := before.members[m].service;
                  && packages == db.packages[p := after]
                  && after == before.(status := after.status, members := after.members)
                  && Services(after.members, MemActive) == Services(before.members, MemActive) - {s}
                  && Services(after.members, MemRejected) == Services(before.members, MemRejected) + {s}
                  && Services(after.members, MemPending) == Services(before.members, MemPending)
                  && after.status == if before.status == PkgActive && |Services(after.members, MemActive)| < 2
                                     then PkgDraft else before.status)
  {
    hide StillBooked, StillNeeded, HasEngagedOrders, MemberEngaged, PackagesOk, Services, CountActive, LeavePackage,
         OwnerCanLeave, PartnerCanLeave;
    LeaveNeeds(cat, db, provider, p, m);
    if OwnerCanLeave(db, provider, p) {
      OwnerLeaves(cat, db, provider, p, m);
    }
    if PartnerCanLeave(db, provider, p, m) {
      PartnerLeaves(cat, db, provider, p, m);
    }
  }

  lemma OwnerLeaves(cat: Catalogue, db: Db, provider: nat, p: nat, m: nat)
    requires OwnerCanLeave(db, provider, p)
    ensures p < |db.packages|
    ensures var packages := After(ExecutePackage(cat, db, DoLeavePackage(provider, p, m)), db).packages;
            && |packages| == |db.packages| && packages[p].status == PkgCancelled
            && packages == db.packages[p := db.packages[p].(status := PkgCancelled, members := packages[p].members)]
            && |packages[p].members| == |db.packages[p].members|
            && forall k :: 0 <= k < |packages[p].members| ==>
                 packages[p].members[k] == db.packages[p].members[k].(status := MemRejected)
  {
    LeaveNeeds(cat, db, provider, p, m);
  }

  lemma PartnerLeaves(cat: Catalogue, db: Db, provider: nat, p: nat, m: nat)
    requires PackagesOk(cat, db.packages) && PartnerCanLeave(db, provider, p, m)
    ensures p < |db.packages| && m < |db.packages[p].members|
    ensures var packages := After(ExecutePackage(cat, db, DoLeavePackage(provider, p, m)), db).packages;
            && |packages| == |db.packages|
            && var before, after := db.packages[p], packages[p];
            var s := before.members[m].service;
            && packages == db.packages[p := after]
            && after == before.(status := after.status, members := after.members)
            && Services(after.members, MemActive) == Services(before.members, MemActive) - {s}
            && Services(after.members, MemRejected) == Services(before.members, MemRejected) + {s}
            && Services(after.members, MemPending) == Services(before.members, MemPending)
            && after.status == if before.status == PkgActive && |Services(after.members, MemActive)| < 2
                               then PkgDraft else before.status
  {
    hide Services, CountActive, PackagesOk, StillNeeded, MemberEngaged, HasEngagedOrders, NoRepeats;
    LeaveNeeds(cat, db, provider, p, m);
    RowsDiffer(cat, db.packages, p);
    var members := db.packages[p].members;
    OneRowRewritten(members, m, MemRejected);
    OnlyPending(members, m);
    var left := members[m := members[m].(status := MemRejected)];
    assert ServiceIds(left) == ServiceIds(members);
    ActiveRowsAreServices(left);
  }

  // ----- activation and the join sweep -----------------------------------------------------------------------

  lemma ActivateIsExact(cat: Catalogue, packages: seq<Package>, provider: nat, p: nat)
    requires PackagesOk(cat, packages)
    ensures ActivatePackage(packages, provider, p).Success? <==>
            && p < |packages| && packages[p].owner == provider && packages[p].status == PkgDraft
            && |Services(packages[p].members, MemActive)| >= 2
    ensures ActivatePackage(packages, provider, p).Success? ==>
              ActivatePackage(packages, provider, p).value == packages[p := packages[p].(status := PkgActive)]
  {
    if p < |packages| {
      RowsDiffer(cat, packages, p);
      ActiveRowsAreServices(packages[p].members);
      hide CountActive, PackagesOk, Services;
    }
  }

  // A request unanswered for more than 24 hours is taken as refused; no other row and no package changes.
  lemma JoinSweepIsExact(packages: seq<Package>, now: Time)
    ensures var r := SweepJoins(packages, now, |packages|);
            && |r| == |packages|
            && forall p :: 0 <= p < |packages| ==>
                 && r[p] == packages[p].(members := r[p].members) && |r[p].members| == |packages[p].members|
                 && forall m :: 0 <= m < |packages[p].members| ==>
                      var row := packages[p].members[m];
                      if row.status == MemPending && now - row.createdAt > 24 * 60
                      then r[p].members[m] == row.(status := MemRejected) else r[p].members[m] == row
  {
  }

  // ----- authoring -------------------------------------------------------------------------------------------

  predicate OwnPackagedHall(cat: Catalogue, owner: nat, s: nat) {
    && s < |cat.services| && cat.services[s].provider == owner && cat.services[s].packaged
    && cat.services[s].kind == "HALL"
  }

  predicate OpenOn(cat: Catalogue, s: nat, weekday: nat) {
    exists a | 0 <= a < |cat.availabilities| ::
      cat.availabilities[a].service == s && weekday in cat.availabilities[a].days
  }

  ghost predicate AllOpen(cat: Catalogue, ids: set<nat>, weekday: nat) {
    forall x :: x in ids ==> OpenOn(cat, x, weekday)
  }

  // A set of services may form a package: two at least, of different kinds, a packaged hall of the owner among
  // them, one weekday on which all of them are open, and no other package that is not cancelled is this set.
  ghost predicate MayForm(cat: Catalogue, packages: seq<Package>, owner: nat, ids: set<nat>, except: Option<nat>) {
    && |ids| >= 2
    && (forall x, y :: x in ids && y in ids && x != y ==>
          x < |cat.services| && y < |cat.services| && cat.services[x].kind != cat.services[y].kind)
    && (exists x :: x in ids && OwnPackagedHall(cat, owner, x))
    && (exists weekday: nat :: weekday < 7 && AllOpen(cat, ids, weekday))
    && (forall q :: 0 <= q < |packages| && Some(q) != except && packages[q].status != PkgCancelled ==>
          ServiceSet(packages[q]) != ids)
  }

  lemma {:induction false} SizeOfElements(ids: seq<nat>)
    requires NoRepeats(ids)
    ensures |Elements(ids)| == |ids|
  {
    if ids == [] {
      assert Elements(ids) == {};
    } else {
      var n := |ids| - 1;
      SizeOfElements(ids[..n]);
      assert ids[n] !in Elements(ids[..n]);
      assert Elements(ids) == Elements(ids[..n]) + {ids[n]};
    }
  }

  lemma KindsDiffer(cat: Catalogue, ids: seq<nat>)
    requires KnownServices(cat, ids) && NoRepeats(ids)
    ensures DistinctKinds(cat, ids) <==>
            forall x, y :: x in ids && y in ids && x != y ==> cat.services[x].kind != cat.services[y].kind
  {
    if DistinctKinds(cat, ids) {
      forall x, y | x in ids && y in ids && x != y ensures cat.services[x].kind != cat.services[y].kind {
        var i :| 0 <= i < |ids| && ids[i] == x;
        var j :| 0 <= j < |ids| && ids[j] == y;
        assert if i < j then cat.services[ids[i]].kind != cat.services[ids[j]].kind
               else cat.services[ids[j]].kind != cat.services[ids[i]].kind;
      }
    } else {
      var i, j :| 0 <= i < j < |ids| && cat.services[ids[i]].kind == cat.services[ids[j]].kind;
      assert ids[i] in ids && ids[j] in ids && ids[i] != ids[j];
    }
  }

  lemma SharedDay(cat: Catalogue, ids: seq<nat>)
    ensures HasCommonDay(cat, ids) <==> exists weekday: nat :: weekday < 7 && AllOpen(cat, Elements(ids), weekday)
  {
    forall w: nat ensures AllOpenOn(cat, ids, w) <==> AllOpen(cat, Elements(ids), w) {
      forall x: nat ensures WorksOn(cat, x, w) <==> OpenOn(cat, x, w) {
      }
      hide WorksOn, OpenOn;
      if AllOpenOn(cat, ids, w) {
        forall x | x in Elements(ids) ensures OpenOn(cat, x, w) {
          var i :| 0 <= i < |ids| && ids[i] == x;
        }
      }
      if AllOpen(cat, Elements(ids), w) {
        forall i | 0 <= i < |ids| ensures WorksOn(cat, ids[i], w) {
          assert ids[i] in Elements(ids);
        }
      }
    }
    hide AllOpenOn, AllOpen;
    if HasCommonDay(cat, ids) {
      var w :| 0 <= w < 7 && AllOpenOn(cat, ids, w);
      assert AllOpen(cat, Elements(ids), w);
    }
  }

  lemma OwnHallAmong(cat: Catalogue, owner: nat, ids: seq<nat>)
    ensures HasOwnHall(cat, owner, ids) <==> exists x :: x in Elements(ids) && OwnPackagedHall(cat, owner, x)
  {
    if HasOwnHall(cat, owner, ids) {
      var i :| 0 <= i < |ids| && IsOwnHall(cat, owner, ids[i]);
      assert ids[i] in Elements(ids) && OwnPackagedHall(cat, owner, ids[i]);
    }
  }

  lemma SoundIffMayForm(cat: Catalogue, packages: seq<Package>, owner: nat, ids: seq<nat>, except: Option<nat>)
    requires PackagesOk(cat, packages) && KnownServices(cat, ids) && NoRepeats(ids)
    ensures SoundSelection(cat, packages, owner, ids, except) <==>
            MayForm(cat, packages, owner, Elements(ids), except)
  {
    SizeOfElements(ids);
    KindsDiffer(cat, ids);
    SharedDay(cat, ids);
    OwnHallAmong(cat, owner, ids);
    if |ids| > 0 {
      DuplicateTestIsExact(cat, packages, ids, except);
    }
    hide DuplicatesSome, HasCommonDay, HasOwnHall, DistinctKinds, AllOpen, PackagesOk, ServiceSet, NoRepeats,
         OwnPackagedHall;
    forall x ensures x in Elements(ids) <==> x in ids {
    }
    forall x | x in ids ensures x < |cat.services| {
      var i :| 0 <= i < |ids| && ids[i] == x;
    }
  }

  predicate AllApproved(cat: Catalogue, ids: seq<nat>) {
    forall x | x in ids :: x < |cat.services| && cat.services[x].approved
  }

  lemma ApprovedIff(cat: Catalogue, requested: seq<nat>)
    ensures ApprovedServices(cat, Dedup(requested)) <==> AllApproved(cat, requested)
    ensures Elements(Dedup(requested)) == Elements(requested)
  {
    var ids := Dedup(requested);
    if AllApproved(cat, requested) {
      forall i | 0 <= i < |ids| ensures ids[i] < |cat.services| && cat.services[ids[i]].approved {
        assert ids[i] in ids && ids[i] in requested;
      }
    }
    if ApprovedServices(cat, ids) {
      forall x | x in requested ensures x < |cat.services| && cat.services[x].approved {
        assert x in ids;
        var i :| 0 <= i < |ids| && ids[i] == x;
      }
    }
  }

  // A package is created exactly from approved services that may form one. The owner's own are active from the
  // start, every partner is asked.
  lemma CreateIsExact(cat: Catalogue, packages: seq<Package>, owner: nat, requested: seq<nat>, discount: Percent,
                      now: Time)
    requires PackagesOk(cat, packages)
    ensures CreatePackage(cat, packages, owner, requested, discount, now).Success? <==>
            AllApproved(cat, requested) && MayForm(cat, packages, owner, Elements(requested), None)
    ensures CreatePackage(cat, packages, owner, requested, discount, now).Success? ==>
              var r := CreatePackage(cat, packages, owner, requested, discount, now).value;
              && |r| == |packages| + 1 && packages <= r
              && var pkg := r[|packages|];
              && pkg.owner == owner && pkg.discount == discount && pkg.status == PkgDraft
              && ServiceSet(pkg) == Elements(requested)
              && forall m :: 0 <= m < |pkg.members| ==> AskedRow(cat, owner, now, pkg.members[m])
  {
    var ids := Dedup(requested);
    ApprovedIff(cat, requested);
    if ApprovedServices(cat, ids) {
      SoundIffMayForm(cat, packages, owner, ids, None);
      var pkg := Package(owner, discount, PkgDraft, NewMembers(cat, owner, ids, now));
      ServiceSetOfIds(pkg);
      assert ServiceIds(pkg.members) == ids;
    }
    hide SoundSelection, MayForm, PackagesOk, Elements, ServiceSet;
  }

  predicate AskedRow(cat: Catalogue, owner: nat, now: Time, row: Member) {
    && row.service < |cat.services| && row.provider == cat.services[row.service].provider && row.createdAt == now
    && row.status == if row.provider == owner then MemActive else MemPending
  }

  ghost function EditedSet(pkg: Package, add: seq<nat>, remove: seq<nat>): set<nat> {
    ServiceSet(pkg) - Elements(remove) + Elements(add)
  }

  // A draft can be edited by its owner: new services are approved and not in it, old ones are in it and not its own
  // hall, and what is left may form a package if anything was added or removed.
  ghost predicate MayEdit(cat: Catalogue, packages: seq<Package>, provider: nat, p: nat, add: seq<nat>,
                          remove: seq<nat>)
  {
    && p < |packages| && packages[p].owner == provider && packages[p].status == PkgDraft
    && (forall x :: x in add ==> x !in remove && x !in ServiceSet(packages[p]))
    && (forall x :: x in remove ==> x in ServiceSet(packages[p]) && !OwnPackagedHall(cat, provider, x))
    && AllApproved(cat, add)
    && EditedSet(packages[p], add, remove) != {}
    && (add != [] || remove != [] ==> MayForm(cat, packages, provider, EditedSet(packages[p], add, remove), Some(p)))
  }

  // The row of a service that stays: asked again if the percentage changed and it is a partner's, else as it was.
  predicate KeptRow(before: seq<Member>, owner: nat, changed: bool, row: Member) {
    exists m | 0 <= m < |before| ::
      row == if changed && before[m].provider != owner then before[m].(status := MemPending) else before[m]
  }

  lemma EditedServiceSet(pkg: Package, add: seq<nat>, remove: seq<nat>)
    ensures var ids := ServiceIds(Kept(pkg.members, Dedup(remove))) + Dedup(add);
            forall x :: x in ids <==> x in EditedSet(pkg, add, remove)
  {
    var kept := Kept(pkg.members, Dedup(remove));
    var ids := ServiceIds(kept) + Dedup(add);
    KeptContents(pkg.members, Dedup(remove));
    forall x | x in ids ensures x in EditedSet(pkg, add, remove) {
      var i :| 0 <= i < |ids| && ids[i] == x;
      if i < |kept| {
        assert kept[i] in kept && kept[i] in pkg.members;
        var m :| 0 <= m < |pkg.members| && pkg.members[m] == kept[i];
        assert pkg.members[m].service == x;
      } else {
        assert x == Dedup(add)[i - |kept|] && x in Dedup(add);
      }
    }
    forall x | x in EditedSet(pkg, add, remove) ensures x in ids {
      if x in add {
        var k :| 0 <= k < |Dedup(add)| && Dedup(add)[k] == x;
        assert ids[|kept| + k] == x;
      } else {
        var m :| 0 <= m < |pkg.members| && pkg.members[m].service == x;
        assert pkg.members[m] in kept;
        var k :| 0 <= k < |kept| && kept[k] == pkg.members[m];
        assert ids[k] == x;
      }
    }
  }

  lemma UpdateNeeds(cat: Catalogue, packages: seq<Package>, provider: nat, p: nat, add: seq<nat>, remove: seq<nat>,
                    discount: Option<Percent>, now: Time)
    requires PackagesOk(cat, packages)
    ensures UpdatePackage(cat, packages, provider, p, add, remove, discount, now).Success? <==>
            MayEdit(cat, packages, provider, p, add, remove)
  {
    hide UpdatePackage, LoopsPass, AddsAndRemoves, MayForm, SoundSelection, PackagesOk, Kept, AllApproved,
         ApprovedServices, EditedSet, ServiceSet, OwnPackagedHall;
    UpdatePasses(cat, packages, provider, p, add, remove, discount, now);
    AddsAndRemovesNeeds(cat, packages, provider, p, add, remove);
    if p < |packages| && packages[p].owner == provider {
      EditNeeds(cat, packages, p, add, remove);
    }
  }

  predicate LoopsPass(cat: Catalogue, pkg: Package, add: seq<nat>, remove: seq<nat>) {
    && (forall i | 0 <= i < |add| :: !(add[i] in remove || add[i] in ServiceIds(pkg.members)))
    && (forall i | 0 <= i < |remove| :: remove[i] in ServiceIds(pkg.members))
    && (forall m | 0 <= m < |pkg.members| ::
          !(pkg.members[m].provider == pkg.owner && IsOwnHall(cat, pkg.owner, pkg.members[m].service)
            && pkg.members[m].service in remove))
  }

  lemma UpdatePasses(cat: Catalogue, packages: seq<Package>, provider: nat, p: nat, add: seq<nat>, remove: seq<nat>,
                     discount: Option<Percent>, now: Time)
    ensures UpdatePackage(cat, packages, provider, p, add, remove, discount, now).Success? <==>
            && p < |packages| && packages[p].owner == provider && packages[p].status == PkgDraft
            && LoopsPass(cat, packages[p], Dedup(add), Dedup(remove))
            && var ids := ServiceIds(Kept(packages[p].members, Dedup(remove))) + Dedup(add);
            && ids != [] && ApprovedServices(cat, Dedup(add))
            && (Dedup(add) != [] || Dedup(remove) != [] ==>
                  KnownServices(cat, ids) && SoundSelection(cat, packages, provider, ids, Some(p)))
  {
    hide SoundSelection, KnownServices, Kept, ApprovedServices, IsOwnHall, Dedup;
  }

  lemma AddsAndRemovesNeeds(cat: Catalogue, packages: seq<Package>, provider: nat, p: nat, add: seq<nat>,
                            remove: seq<nat>)
    ensures MayEdit(cat, packages, provider, p, add, remove) <==>
            && p < |packages| && packages[p].owner == provider && packages[p].status == PkgDraft
            && AddsAndRemoves(cat, packages[p], add, remove) && AllApproved(cat, add)
            && EditedSet(packages[p], add, remove) != {}
            && (add != [] || remove != [] ==>
                  MayForm(cat, packages, provider, EditedSet(packages[p], add, remove), Some(p)))
  {
    hide MayForm, EditedSet, AllApproved, ServiceSet, OwnPackagedHall;
  }

  // Loop by loop, the checks on lists without repetition are those on sets.
  lemma EditNeeds(cat: Catalogue, packages: seq<Package>, p: nat, add: seq<nat>, remove: seq<nat>)
    requires PackagesOk(cat, packages) && p < |packages|
    ensures var pkg := packages[p];
            var ids := ServiceIds(Kept(pkg.members, Dedup(remove))) + Dedup(add);
            && (LoopsPass(cat, pkg, Dedup(add), Dedup(remove)) <==> AddsAndRemoves(cat, pkg, add, remove))
            && (ids != [] <==> EditedSet(pkg, add, remove) != {})
            && (ApprovedServices(cat, Dedup(add)) <==> AllApproved(cat, add))
            && (Dedup(add) == [] <==> add == []) && (Dedup(remove) == [] <==> remove == [])
            && (AddsAndRemoves(cat, pkg, add, remove) && AllApproved(cat, add) ==>
                  KnownServices(cat, ids)
                  && (SoundSelection(cat, packages, pkg.owner, ids, Some(p)) <==>
                      MayForm(cat, packages, pkg.owner, EditedSet(pkg, add, remove), Some(p))))
  {
    hide LoopsPass, AddsAndRemoves, MayForm, SoundSelection, PackagesOk, Kept, AllApproved, ApprovedServices, EditedSet,
         KnownServices, NoRepeats;
    var pkg := packages[p];
    var ids := ServiceIds(Kept(pkg.members, Dedup(remove))) + Dedup(add);
    RowsDiffer(cat, packages, p);
    AddAndRemove(cat, pkg, add, remove);
    EditedServiceSet(pkg, add, remove);
    if ids != [] {
      assert ids[0] in EditedSet(pkg, add, remove);
    }
    ApprovedIff(cat, add);
    NothingToDedup(add);
    NothingToDedup(remove);
    if AddsAndRemoves(cat, pkg, add, remove) && AllApproved(cat, add) {
      EditedIdsFit(cat, packages, p, add, remove);
      SoundIffMayForm(cat, packages, pkg.owner, ids, Some(p));
      assert Elements(ids) == EditedSet(pkg, add, remove);
    }
  }

  lemma NothingToDedup(ids: seq<nat>)
    ensures Dedup(ids) == [] <==> ids == []
  {
    if ids != [] {
      assert ids[0] in ids && ids[0] in Dedup(ids);
    }
  }

  ghost predicate AddsAndRemoves(cat: Catalogue, pkg: Package, add: seq<nat>, remove: seq<nat>) {
    && (forall x :: x in add ==> x !in remove && x !in ServiceSet(pkg))
    && (forall x :: x in remove ==> x in ServiceSet(pkg) && !OwnPackagedHall(cat, pkg.owner, x))
  }

  // The three loops over ids and rows check just that.
  lemma AddAndRemove(cat: Catalogue, pkg: Package, addRequested: seq<nat>, removeRequested: seq<nat>)
    requires forall i :: 0 <= i < |pkg.members| ==>
               pkg.members[i].service < |cat.services|
               && pkg.members[i].provider == cat.services[pkg.members[i].service].provider
    ensures LoopsPass(cat, pkg, Dedup(addRequested), Dedup(removeRequested)) <==>
            AddsAndRemoves(cat, pkg, addRequested, removeRequested)
  {
    var add, remove, current := Dedup(addRequested), Dedup(removeRequested), ServiceIds(pkg.members);
    CurrentServices(pkg);
    hide ServiceIds, ServiceSet;
    if AddsAndRemoves(cat, pkg, addRequested, removeRequested) {
      forall i | 0 <= i < |add| ensures !(add[i] in remove || add[i] in current) {
        assert add[i] in add && add[i] in addRequested;
      }
      forall i | 0 <= i < |remove| ensures remove[i] in current {
        assert remove[i] in remove && remove[i] in removeRequested;
      }
    }
    if LoopsPass(cat, pkg, add, remove) {
      forall x | x in addRequested ensures x !in removeRequested && x !in ServiceSet(pkg) {
        assert x in add;
        var i :| 0 <= i < |add| && add[i] == x;
      }
      forall x | x in removeRequested ensures x in ServiceSet(pkg) && !OwnPackagedHall(cat, pkg.owner, x) {
        assert x in remove;
        var i :| 0 <= i < |remove| && remove[i] == x;
        var m :| 0 <= m < |pkg.members| && pkg.members[m].service == x;
      }
    }
  }

  lemma CurrentServices(pkg: Package)
    ensures forall x: nat :: x in ServiceIds(pkg.members) <==> x in ServiceSet(pkg)
    ensures forall x: nat :: x in ServiceSet(pkg) <==>
                             exists m :: 0 <= m < |pkg.members| && pkg.members[m].service == x
  {
    ServiceSetOfIds(pkg);
    forall x: nat ensures x in ServiceIds(pkg.members) <==> x in Elements(ServiceIds(pkg.members)) {
    }
  }

  lemma EditedIdsFit(cat: Catalogue, packages: seq<Package>, p: nat, add: seq<nat>, remove: seq<nat>)
    requires PackagesOk(cat, packages) && p < |packages|
    requires AddsAndRemoves(cat, packages[p], add, remove) && AllApproved(cat, add)
    ensures var ids := ServiceIds(Kept(packages[p].members, Dedup(remove))) + Dedup(add);
            KnownServices(cat, ids) && NoRepeats(ids)
  {
    var pkg := packages[p];
    assert PackageOk(cat, pkg);
    ApprovedIff(cat, add);
    ServiceSetOfIds(pkg);
    forall x | x in Dedup(add) ensures x !in ServiceIds(pkg.members) {
      assert x in add && x !in ServiceSet(pkg);
      assert x !in Elements(ServiceIds(pkg.members));
    }
    EditedServices(cat, pkg.members, Dedup(add), Dedup(remove));
  }

  // An accepted edit leaves exactly the edited set of services, with the percentage asked for. Added services of
  // partners are asked, and a changed percentage asks every partner again; all other rows stay as they were.
  lemma UpdateIsExact(cat: Catalogue, packages: seq<Package>, provider: nat, p: nat, add: seq<nat>, remove: seq<nat>,
                      discount: Option<Percent>, now: Time)
    requires PackagesOk(cat, packages)
    ensures UpdatePackage(cat, packages, provider, p, add, remove, discount, now).Success? <==>
            MayEdit(cat, packages, provider, p, add, remove)
    ensures UpdatePackage(cat, packages, provider, p, add, remove, discount, now).Success? ==>
              var r := UpdatePackage(cat, packages, provider, p, add, remove, discount, now).value;
              && p < |packages| == |r| && r == packages[p := r[p]]
              && r[p] == packages[p].(members := r[p].members,
                                      discount := if discount.Some? then discount.value else packages[p].discount)
              && ServiceSet(r[p]) == EditedSet(packages[p], add, remove)
              && forall m :: 0 <= m < |r[p].members| ==>
                   if r[p].members[m].service in add then AskedRow(cat, provider, now, r[p].members[m])
                   else KeptRow(packages[p].members, provider, discount.Some? && discount.value != packages[p].discount,
                                r[p].members[m])
  {
    UpdateNeeds(cat, packages, provider, p, add, remove, discount, now);
    hide PackagesOk, MayEdit;
    if UpdatePackage(cat, packages, provider, p, add, remove, discount, now).Success? {
      UpdatedRows(cat, packages, provider, p, add, remove, discount, now);
    }
  }

  // The rows of an accepted edit, before anybody is asked again.
  function EditedMembers(cat: Catalogue, pkg: Package, provider: nat, add: seq<nat>, remove: seq<nat>, now: Time)
    : seq<Member>
    requires KnownServices(cat, Dedup(add))
  {
    Kept(pkg.members, Dedup(remove)) + NewMembers(cat, provider, Dedup(add), now)
  }

  lemma UpdatedPackage(cat: Catalogue, packages: seq<Package>, provider: nat, p: nat, add: seq<nat>, remove: seq<nat>,
                       discount: Option<Percent>, now: Time)
    requires UpdatePackage(cat, packages, provider, p, add, remove, discount, now).Success?
    ensures p < |packages| && KnownServices(cat, Dedup(add)) && packages[p].owner == provider
    ensures LoopsPass(cat, packages[p], Dedup(add), Dedup(remove))
    ensures var r := UpdatePackage(cat, packages, provider, p, add, remove, discount, now).value;
            var rows := EditedMembers(cat, packages[p], provider, add, remove, now);
            && |packages| == |r| && r == packages[p := r[p]]
            && r[p] == packages[p].(discount := if discount.Some? then discount.value else packages[p].discount,
                                    members := if discount.Some? && discount.value != packages[p].discount
                                               then AskAgain(rows, provider) else rows)
  {
    hide SoundSelection, Kept, DistinctKinds, IsOwnHall, ApprovedServices, LoopsPass, AskAgain, NewMembers, Dedup,
         KnownServices;
    KnownWhenApproved(cat, Dedup(add));
    UpdatePasses(cat, packages, provider, p, add, remove, discount, now);
  }

  lemma EditedMembersServe(cat: Catalogue, pkg: Package, pkg': Package, provider: nat, add: seq<nat>, remove: seq<nat>,
                           now: Time)
    requires KnownServices(cat, Dedup(add))
    requires var rows := EditedMembers(cat, pkg, provider, add, remove, now);
             pkg'.members == rows || pkg'.members == AskAgain(rows, provider)
    ensures ServiceSet(pkg') == EditedSet(pkg, add, remove)
  {
    hide Kept, EditedSet, ServiceSet;
    var rows := EditedMembers(cat, pkg, provider, add, remove, now);
    EditedServiceSet(pkg, add, remove);
    CurrentServices(pkg');
    SameServices(rows, pkg'.members);
    assert ServiceIds(rows) == ServiceIds(Kept(pkg.members, Dedup(remove))) + Dedup(add);
    hide ServiceIds, EditedMembers, AskAgain, KnownServices;
    assert forall x: nat :: x in ServiceSet(pkg') <==> x in EditedSet(pkg, add, remove);
  }

  lemma UpdatedRows(cat: Catalogue, packages: seq<Package>, provider: nat, p: nat, add: seq<nat>, remove: seq<nat>,
                    discount: Option<Percent>, now: Time)
    requires UpdatePackage(cat, packages, provider, p, add, remove, discount, now).Success?
    ensures p < |packages|
    ensures var r := UpdatePackage(cat, packages, provider, p, add, remove, discount, now).value;
            var changed := discount.Some? && discount.value != packages[p].discount;
            && |packages| == |r| && r == packages[p := r[p]]
            && r[p] == packages[p].(members := r[p].members,
                                    discount := if discount.Some? then discount.value else packages[p].discount)
            && ServiceSet(r[p]) == EditedSet(packages[p], add, remove)
            && forall m :: 0 <= m < |r[p].members| ==>
                 if r[p].members[m].service in add then AskedRow(cat, provider, now, r[p].members[m])
                 else KeptRow(packages[p].members, provider, changed, r[p].members[m])
  {
    hide UpdatePackage, EditedSet, ServiceSet, AskedRow, KeptRow, LoopsPass, EditedMembers, KnownServices;
    UpdatedPackage(cat, packages, provider, p, add, remove, discount, now);
    var pkg := packages[p];
    var pkg' := UpdatePackage(cat, packages, provider, p, add, remove, discount, now).value[p];
    EditedMembersServe(cat, pkg, pkg', provider, add, remove, now);
    var changed := discount.Some? && discount.value != pkg.discount;
    forall m | 0 <= m < |pkg'.members|
      ensures if pkg'.members[m].service in add then AskedRow(cat, provider, now, pkg'.members[m])
              else KeptRow(pkg.members, provider, changed, pkg'.members[m])
    {
      EditedRow(cat, pkg, provider, add, remove, changed, now, m);
    }
  }

  lemma KnownWhenApproved(cat: Catalogue, ids: seq<nat>)
    ensures ApprovedServices(cat, ids) ==> KnownServices(cat, ids)
  {
  }

  lemma SameServices(a: seq<Member>, b: seq<Member>)
    requires |a| == |b| && forall i :: 0 <= i < |a| ==> a[i].service == b[i].service
    ensures ServiceIds(a) == ServiceIds(b)
  {
  }

  lemma EditedRow(cat: Catalogue, pkg: Package, provider: nat, add: seq<nat>, remove: seq<nat>, changed: bool,
                  now: Time, m: nat)
    requires KnownServices(cat, Dedup(add)) && LoopsPass(cat, pkg, Dedup(add), Dedup(remove))
    requires m < |EditedMembers(cat, pkg, provider, add, remove, now)|
    ensures var rows := EditedMembers(cat, pkg, provider, add, remove, now);
            var row := (if changed then AskAgain(rows, provider) else rows)[m];
            if row.service in add then AskedRow(cat, provider, now, row)
            else KeptRow(pkg.members, provider, changed, row)
  {
    var kept, ids := Kept(pkg.members, Dedup(remove)), Dedup(add);
    var rows := kept + NewMembers(cat, provider, ids, now);
    var row := (if changed then AskAgain(rows, provider) else rows)[m];
    if m < |kept| {
      KeptContents(pkg.members, Dedup(remove));
      assert kept[m] in kept && kept[m] in pkg.members;
      var k :| 0 <= k < |pkg.members| && pkg.members[k] == kept[m];
      assert ServiceIds(pkg.members)[k] == row.service;
      AddedAreNew(cat, pkg, add, remove);
      hide KeptRow;
      KeptAt(pkg.members, provider, changed, row, k);
    } else {
      assert ids[m - |kept|] in ids && ids[m - |kept|] in add;
    }
  }

  lemma KeptAt(before: seq<Member>, owner: nat, changed: bool, row: Member, m: nat)
    requires m < |before|
    requires row == if changed && before[m].provider != owner then before[m].(status := MemPending) else before[m]
    ensures KeptRow(before, owner, changed, row)
  {
  }

  lemma AddedAreNew(cat: Catalogue, pkg: Package, add: seq<nat>, remove: seq<nat>)
    requires LoopsPass(cat, pkg, Dedup(add), Dedup(remove))
    ensures forall x: nat :: x in add ==> x !in ServiceIds(pkg.members)
  {
    forall x: nat | x in add ensures x !in ServiceIds(pkg.members) {
      assert x in Dedup(add);
      var i :| 0 <= i < |Dedup(add)| && Dedup(add)[i] == x;
    }
  }

  // ----- consent ---------------------------------------------------------------------------------------------

  predicate Sells(packages: seq<Package>, p: nat, s: nat) {
    p < |packages| && Holds(packages[p].members, s, MemActive)
  }

  predicate IsPartners(cat: Catalogue, packages: seq<Package>, p: nat, s: nat) {
    p < |packages| && s < |cat.services| && cat.services[s].provider != packages[p].owner
  }

  // The provider of the service accepts a request for it.
  predicate AcceptsFor(cat: Catalogue, packages: seq<Package>, op: PackageOp, p: nat, s: nat) {
    && op.DoAnswerJoin? && op.accept && op.p == p && p < |packages| && op.m < |packages[p].members|
    && packages[p].members[op.m].service == s && packages[p].members[op.m].status == MemPending
    && s < |cat.services| && op.provider == cat.services[s].provider
  }

  // A step keeps every package's owner, and a partner's service becomes active only by that partner's acceptance.
  ghost predicate JoinsByConsent(cat: Catalogue, packages: seq<Package>, packages': seq<Package>, op: PackageOp) {
    && |packages| <= |packages'|
    && (forall p: nat :: p < |packages| ==> packages'[p].owner == packages[p].owner)
    && forall p: nat, s: nat ::
         IsPartners(cat, packages', p, s) && Sells(packages', p, s) && !Sells(packages, p, s) ==>
         AcceptsFor(cat, packages, op, p, s)
  }

  // Enough to look at one package and its rows.
  lemma OnePackageJoins(cat: Catalogue, packages: seq<Package>, p: nat, pkg: Package, op: PackageOp)
    requires p < |packages| && pkg.owner == packages[p].owner
    requires forall s: nat :: s < |cat.services| && cat.services[s].provider != pkg.owner
                              && Holds(pkg.members, s, MemActive) && !Holds(packages[p].members, s, MemActive) ==>
               AcceptsFor(cat, packages, op, p, s)
    ensures JoinsByConsent(cat, packages, packages[p := pkg], op)
  {
    hide Holds, AcceptsFor;
  }

  lemma NothingJoins(cat: Catalogue, packages: seq<Package>, op: PackageOp)
    ensures JoinsByConsent(cat, packages, packages, op)
  {
  }

  lemma CreateJoins(cat: Catalogue, packages: seq<Package>, op: PackageOp)
    requires PackagesOk(cat, packages) && op.DoCreatePackage?
    ensures JoinsByConsent(cat, packages,
                           After(CreatePackage(cat, packages, op.provider, op.services, op.percent, op.now), packages),
                           op)
  {
    hide PackagesOk, CreatePackage, MayForm, AcceptsFor, ServiceSet;
    CreateIsExact(cat, packages, op.provider, op.services, op.percent, op.now);
    if CreatePackage(cat, packages, op.provider, op.services, op.percent, op.now).Success? {
      var r := CreatePackage(cat, packages, op.provider, op.services, op.percent, op.now).value;
      forall p: nat, s: nat | IsPartners(cat, r, p, s) && Sells(r, p, s) ensures Sells(packages, p, s) {
        var m :| 0 <= m < |r[p].members| && r[p].members[m].service == s && r[p].members[m].status == MemActive;
        assert p < |packages|;
        assert r[p] == packages[p];
      }
    }
  }

  lemma UpdateJoins(cat: Catalogue, packages: seq<Package>, op: PackageOp)
    requires PackagesOk(cat, packages) && op.DoUpdatePackage?
    ensures JoinsByConsent(cat, packages,
                           After(UpdatePackage(cat, packages, op.provider, op.p, op.add, op.remove, op.newPercent,
                                               op.now), packages), op)
  {
    hide PackagesOk, UpdatePackage, MayEdit, AcceptsFor, EditedSet, ServiceSet;
    var result := UpdatePackage(cat, packages, op.provider, op.p, op.add, op.remove, op.newPercent, op.now);
    UpdateIsExact(cat, packages, op.provider, op.p, op.add, op.remove, op.newPercent, op.now);
    if result.Success? {
      OwnerEdits(cat, packages, op.provider, op.p, op.add, op.remove);
      var pkg := result.value[op.p];
      forall s: nat | s < |cat.services| && cat.services[s].provider != pkg.owner && Holds(pkg.members, s, MemActive)
        ensures Holds(packages[op.p].members, s, MemActive)
      {
        var m :| 0 <= m < |pkg.members| && pkg.members[m].service == s && pkg.members[m].status == MemActive;
        KeptActive(cat, packages[op.p].members, op.provider, op.newPercent, packages[op.p].discount, op.now,
                   s in op.add, pkg.members[m]);
      }
      OnePackageJoins(cat, packages, op.p, pkg, op);
    }
  }

  lemma OwnerEdits(cat: Catalogue, packages: seq<Package>, provider: nat, p: nat, add: seq<nat>, remove: seq<nat>)
    requires MayEdit(cat, packages, provider, p, add, remove)
    ensures p < |packages| && packages[p].owner == provider
  {
  }

  lemma KeptActive(cat: Catalogue, before: seq<Member>, owner: nat, percent: Option<Percent>, was: Percent, now: Time,
                   added: bool, row: Member)
    requires row.status == MemActive && row.service < |cat.services| && cat.services[row.service].provider != owner
    requires if added then AskedRow(cat, owner, now, row)
             else KeptRow(before, owner, percent.Some? && percent.value != was, row)
    ensures Holds(before, row.service, MemActive)
  {
  }

  lemma AnswerJoins(cat: Catalogue, packages: seq<Package>, op: PackageOp)
    requires PackagesOk(cat, packages) && op.DoAnswerJoin?
    ensures JoinsByConsent(cat, packages,
                           After(AnswerJoin(packages, op.provider, op.p, op.m, op.accept), packages), op)
  {
    hide PackagesOk, AnswerJoin;
    AnswerIsExact(cat, packages, op.provider, op.p, op.m, op.accept);
    var result := AnswerJoin(packages, op.provider, op.p, op.m, op.accept);
    if result.Success? {
      RowsDiffer(cat, packages, op.p);
      ServicesHold(packages[op.p].members, MemActive);
      ServicesHold(result.value[op.p].members, MemActive);
      hide Services, Holds;
      OnePackageJoins(cat, packages, op.p, result.value[op.p], op);
    }
  }

  lemma LeaveJoins(cat: Catalogue, db: Db, op: PackageOp)
    requires PackagesOk(cat, db.packages) && op.DoLeavePackage?
    ensures JoinsByConsent(cat, db.packages, After(ExecutePackage(cat, db, op), db).packages, op)
  {
    hide PackagesOk, ExecutePackage, AcceptsFor;
    LeaveIsExact(cat, db, op.provider, op.p, op.m);
    var packages := After(ExecutePackage(cat, db, op), db).packages;
    if ExecutePackage(cat, db, op).Success? {
      LeavesOne(db, op.provider, op.p, op.m);
      if PartnerCanLeave(db, op.provider, op.p, op.m) {
        ServicesHold(db.packages[op.p].members, MemActive);
        ServicesHold(packages[op.p].members, MemActive);
        hide Services, Holds;
      }
      hide OwnerCanLeave, PartnerCanLeave;
      OnePackageJoins(cat, db.packages, op.p, packages[op.p], op);
    }
  }

  lemma LeavesOne(db: Db, provider: nat, p: nat, m: nat)
    ensures OwnerCanLeave(db, provider, p) || PartnerCanLeave(db, provider, p, m) ==> p < |db.packages|
    ensures PartnerCanLeave(db, provider, p, m) ==> !OwnerCanLeave(db, provider, p)
  {
  }

  lemma SweepJoinsNone(cat: Catalogue, packages: seq<Package>, op: PackageOp)
    requires op.DoSweepJoins?
    ensures JoinsByConsent(cat, packages, SweepJoins(packages, op.now, |packages|), op)
  {
    hide AcceptsFor, SweepJoins;
    JoinSweepIsExact(packages, op.now);
    var r := SweepJoins(packages, op.now, |packages|);
    forall p: nat, s: nat | Sells(r, p, s) ensures Sells(packages, p, s) {
      var m :| 0 <= m < |r[p].members| && r[p].members[m].service == s && r[p].members[m].status == MemActive;
      assert packages[p].members[m] == r[p].members[m];
    }
  }

  lemma ActivateJoins(cat: Catalogue, packages: seq<Package>, op: PackageOp)
    requires PackagesOk(cat, packages) && op.DoActivatePackage?
    ensures JoinsByConsent(cat, packages, After(ActivatePackage(packages, op.provider, op.p), packages), op)
  {
    hide PackagesOk, ActivatePackage, AcceptsFor, Holds;
    ActivateIsExact(cat, packages, op.provider, op.p);
    NothingJoins(cat, packages, op);
    if ActivatePackage(packages, op.provider, op.p).Success? {
      OnePackageJoins(cat, packages, op.p, packages[op.p].(status := PkgActive), op);
    }
  }

  lemma PackageOpJoins(cat: Catalogue, db: Db, op: PackageOp)
    requires PackagesOk(cat, db.packages)
    ensures JoinsByConsent(cat, db.packages, After(ExecutePackage(cat, db, op), db).packages, op)
  {
    hide PackagesOk, JoinsByConsent, CreatePackage, UpdatePackage, ActivatePackage, AnswerJoin, LeavePackage,
         SweepJoins;
    match op
    case DoCreatePackage(_, _, _, _) => CreateJoins(cat, db.packages, op);
    case DoUpdatePackage(_, _, _, _, _, _) => UpdateJoins(cat, db.packages, op);
    case DoActivatePackage(_, _) => ActivateJoins(cat, db.packages, op);
    case DoAnswerJoin(_, _, _, _) => AnswerJoins(cat, db.packages, op);
    case DoLeavePackage(_, _, _) => LeaveJoins(cat, db, op);
    case DoSweepJoins(_) => SweepJoinsNone(cat, db.packages, op);
  }

  // Operation k of the run is the partner's acceptance, and the service has been active in the package ever since:
  // it was not asked for again, nor taken out.
  ghost predicate Consent(cat: Catalogue, ops: seq<Operation>, p: nat, s: nat, k: nat) {
    && k < |ops| && ops[k].OnPackage?
    && AcceptsFor(cat, Reached(cat, ops[..k]).packages, ops[k].package, p, s)
    && forall j :: k < j <= |ops| ==> Sells(Reached(cat, ops[..j]).packages, p, s)
  }

  lemma OtherOpsKeepPackages(cat: Catalogue, db: Db, op: Operation)
    requires Sound(cat, db) && !op.OnPackage?
    ensures Apply(cat, db, op).packages == db.packages
  {
    hide PackagesOk, Safety.Invariant, Safety.Evolves, ExecuteAdmission, ExecuteBooking, ExecutePayment, ExecuteOrder,
         ExecuteSweep, ExecuteBlocks, BlockedSlots.BlocksOk;
    match op
    case OnAdmission(a) => AdmissionStepIsSafe(cat, db, a);
    case OnBooking(b) => BookingStepIsSafe(db, b);
    case OnPayment(p) => PaymentStepIsSafe(db, p);
    case OnOrder(o) => OrderStepIsSafe(db, o);
    case OnSweep(s) => SweepStepIsSafe(db, s);
    case OnBlocks(b) => BlockStepIsSafe(cat, db, b);
  }

  lemma ConsentLasts(cat: Catalogue, ops: seq<Operation>, op: Operation, p: nat, s: nat, k: nat)
    requires Consent(cat, ops, p, s, k) && Sells(Reached(cat, ops + [op]).packages, p, s)
    ensures Consent(cat, ops + [op], p, s, k)
  {
    hide Reached, Sells, AcceptsFor;
    assert (ops + [op])[..k] == ops[..k];
    forall j | k < j <= |ops| + 1 ensures Sells(Reached(cat, (ops + [op])[..j]).packages, p, s) {
      if j <= |ops| {
        assert (ops + [op])[..j] == ops[..j];
      } else {
        assert (ops + [op])[..j] == ops + [op];
      }
    }
  }

  lemma ConsentIsGiven(cat: Catalogue, ops: seq<Operation>, op: Operation, p: nat, s: nat)
    requires op.OnPackage? && AcceptsFor(cat, Reached(cat, ops).packages, op.package, p, s)
    requires Sells(Reached(cat, ops + [op]).packages, p, s)
    ensures Consent(cat, ops + [op], p, s, |ops|)
  {
    hide Reached, Sells, AcceptsFor;
    assert (ops + [op])[..|ops|] == ops && (ops + [op])[..|ops| + 1] == ops + [op];
  }

  lemma StepJoins(cat: Catalogue, db: Db, op: Operation, p: nat, s: nat)
    requires Sound(cat, db)
    requires var packages := Apply(cat, db, op).packages; IsPartners(cat, packages, p, s) && Sells(packages, p, s)
    ensures (Sells(db.packages, p, s) && IsPartners(cat, db.packages, p, s))
            || (op.OnPackage? && AcceptsFor(cat, db.packages, op.package, p, s))
  {
    if op.OnPackage? {
      PackageOpJoins(cat, db, op.package);
      hide ExecutePackage, Sound, Holds, AcceptsFor;
    } else {
      OtherOpsKeepPackages(cat, db, op);
    }
  }

  // A partner's service is active in a package only if the partner accepted the request for it, and since then it
  // was neither asked for again nor refused, withdrawn or taken out.
  lemma {:induction false} PartnersConsented(cat: Catalogue, ops: seq<Operation>, p: nat, s: nat)
    requires IsPartners(cat, Reached(cat, ops).packages, p, s) && Sells(Reached(cat, ops).packages, p, s)
    ensures exists k: nat :: Consent(cat, ops, p, s, k)
  {
    assert ops != [];
    hide Reached, Sells, IsPartners, AcceptsFor, Consent;
    var n := |ops| - 1;
    assert ops == ops[..n] + [ops[n]];
    LastStepJoins(cat, ops[..n], ops[n], p, s);
    if Sells(Reached(cat, ops[..n]).packages, p, s) && IsPartners(cat, Reached(cat, ops[..n]).packages, p, s) {
      PartnersConsented(cat, ops[..n], p, s);
      var k: nat :| Consent(cat, ops[..n], p, s, k);
      ConsentLasts(cat, ops[..n], ops[n], p, s, k);
    } else {
      ConsentIsGiven(cat, ops[..n], ops[n], p, s);
    }
  }

  lemma LastStepJoins(cat: Catalogue, ops: seq<Operation>, op: Operation, p: nat, s: nat)
    requires var packages := Reached(cat, ops + [op]).packages; IsPartners(cat, packages, p, s) && Sells(packages, p, s)
    ensures (Sells(Reached(cat, ops).packages, p, s) && IsPartners(cat, Reached(cat, ops).packages, p, s))
            || (op.OnPackage? && AcceptsFor(cat, Reached(cat, ops).packages, op.package, p, s))
  {
    hide Apply, Sound, Sells, IsPartners, AcceptsFor;
    ReachedIsSound(cat, ops);
    OneMore(cat, ops, op);
    hide Reached;
    StepJoins(cat, Reached(cat, ops), op, p, s);
  }

  // So nobody's service is booked through a package of somebody else without that consent.
  lemma BookedPartnersConsented(cat: Catalogue, ops: seq<Operation>, op: AdmissionOp, i: nat)
    requires op.DoBookPackage? && ExecuteAdmission(cat, Reached(cat, ops), op).Success? && i < |op.sels|
    requires IsPartners(cat, Reached(cat, ops).packages, op.p, op.sels[i].service)
    ensures exists k: nat :: Consent(cat, ops, op.p, op.sels[i].service, k)
  {
    var db := Reached(cat, ops);
    var ev := Event(op.customer, op.day, op.start, op.end, op.guests, EvDraft);
    ReachedIsSound(cat, ops);
    hide Reached, Safety.Invariant, Admission.BookPackage, Consent, Admission.Validate, Admission.Admit,
         Acceptance.Suits;
    Acceptance.BookPackageAcceptsIff(cat, db, op.p, ev, op.sels, op.discount, op.now);
    assert Acceptance.Chosen(op.sels, op.sels[i].service);
    assert Acceptance.ActiveIn(db.packages[op.p], op.sels[i].service);
    assert Sells(db.packages, op.p, op.sels[i].service);
    PartnersConsented(cat, ops, op.p, op.sels[i].service);
  }
}
