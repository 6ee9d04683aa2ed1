// Package authoring (src/modules/packages/packages.service.ts): which services a package holds, how
// partners join and leave, and the rules that survive every such step.
module Composition {
  import opened Wrappers
  import opened Marketplace
  import opened Pricing
  import opened Sequences

  // ----- Array.sort and the duplicate-set test -----------------------------------------------------

  function Insert(x: nat, s: seq<nat>): seq<nat> {
    if s == [] || x <= s[0] then [x] + s else [s[0]] + Insert(x, s[1..])
  }

  function Sort(s: seq<nat>): seq<nat> {
    if s == [] then [] else Insert(s[0], Sort(s[1..]))
  }

  function ServiceIds(members: seq<Member>): (ids: seq<nat>)
    ensures |ids| == |members| && forall i :: 0 <= i < |ids| ==> ids[i] == members[i].service
  {
    seq(|members|, i requires 0 <= i < |members| => members[i].service)
  }

  predicate SharesService(members: seq<Member>, ids: seq<nat>) {
    exists i | 0 <= i < |members| :: members[i].service in ids
  }

  // assertNoDuplicatePackageServiceSet: prefilter on a shared service, then compare the sorted lists.
  predicate DuplicatesSome(packages: seq<Package>, ids: seq<nat>, excluded: Option<nat>) {
    exists p | 0 <= p < |packages| ::
      && packages[p].status != PkgCancelled
      && excluded != Some(p)
      && SharesService(packages[p].members, ids)
      && Sort(ServiceIds(packages[p].members)) == Sort(ids)
  }

  // ----- authoring rules ----------------------------------------------------------------------------

  // [...new Set(ids)]: first occurrences, in order.
  function Dedup(ids: seq<nat>): (r: seq<nat>)
    ensures forall x :: x in r <==> x in ids
    ensures NoRepeats(r)
  {
    if ids == [] then []
    else
      var rest := Dedup(ids[..|ids| - 1]);
      if ids[|ids| - 1] in rest then rest else rest + [ids[|ids| - 1]]
  }

  predicate KnownServices(cat: Catalogue, ids: seq<nat>) {
    forall i | 0 <= i < |ids| :: ids[i] < |cat.services|
  }

  predicate ApprovedServices(cat: Catalogue, ids: seq<nat>) {
    forall i | 0 <= i < |ids| :: ids[i] < |cat.services| && cat.services[ids[i]].approved
  }

  predicate DistinctKinds(cat: Catalogue, ids: seq<nat>)
    requires KnownServices(cat, ids)
  {
    forall i, j | 0 <= i < j < |ids| :: cat.services[ids[i]].kind != cat.services[ids[j]].kind
  }

  predicate IsOwnHall(cat: Catalogue, owner: nat, s: nat) {
    s < |cat.services| && cat.services[s].provider == owner && cat.services[s].packaged
      && cat.services[s].kind == "HALL"
  }

  predicate HasOwnHall(cat: Catalogue, owner: nat, ids: seq<nat>) {
    exists i | 0 <= i < |ids| :: IsOwnHall(cat, owner, ids[i])
  }

  predicate AllOpenOn(cat: Catalogue, ids: seq<nat>, weekday: nat) {
    forall i | 0 <= i < |ids| :: WorksOn(cat, ids[i], weekday)
  }

  predicate HasCommonDay(cat: Catalogue, ids: seq<nat>) {
    exists weekday | 0 <= weekday < 7 :: AllOpenOn(cat, ids, weekday)
  }

  predicate SoundSelection(cat: Catalogue, packages: seq<Package>, owner: nat, ids: seq<nat>, excluded: Option<nat>)
    requires KnownServices(cat, ids)
  {
    && |ids| >= 2
    && DistinctKinds(cat, ids)
    && HasOwnHall(cat, owner, ids)
    && !DuplicatesSome(packages, ids, excluded)
    && HasCommonDay(cat, ids)
  }

  function NewMembers(cat: Catalogue, owner: nat, ids: seq<nat>, now: Time): (r: seq<Member>)
    requires KnownServices(cat, ids)
    ensures |r| == |ids|
    ensures forall i :: 0 <= i < |ids| ==> r[i].service == ids[i] && r[i].provider == cat.services[ids[i]].provider
  {
    seq(|ids|, i requires 0 <= i < |ids| =>
      var provider := cat.services[ids[i]].provider;
      Member(ids[i], provider, if provider == owner then MemActive else MemPending, now))
  }

  // ----- operations -------------------------------------------------------------------------------

  function CreatePackage(cat: Catalogue, packages: seq<Package>, owner: nat, requested: seq<nat>, discount: Percent,
                         now: Time): Result<seq<Package>, Error>
  {
    var ids := Dedup(requested);
    if !ApprovedServices(cat, ids) then Failure(NotFound)
    else if !SoundSelection(cat, packages, owner, ids, None) then Failure(PackageRule)
    else Success(packages + [Package(owner, discount, PkgDraft, NewMembers(cat, owner, ids, now))])
  }

  function Kept(members: seq<Member>, remove: seq<nat>): seq<Member> {
    if members == [] then []
    else
      var rest := Kept(members[..|members| - 1], remove);
      if members[|members| - 1].service in remove then rest else rest + [members[|members| - 1]]
  }

  // A changed percentage asks every partner row again.
  function AskAgain(members: seq<Member>, owner: nat): (r: seq<Member>)
    ensures |r| == |members|
    ensures forall i :: 0 <= i < |members| ==>
              r[i] == if members[i].provider != owner then members[i].(status := MemPending) else members[i]
  {
    seq(|members|, i requires 0 <= i < |members| =>
      if members[i].provider != owner then members[i].(status := MemPending) else members[i])
  }

  function UpdatePackage(cat: Catalogue, packages: seq<Package>, provider: nat, p: nat, addRequested: seq<nat>,
                         removeRequested: seq<nat>, discount: Option<Percent>, now: Time): Result<seq<Package>, Error>
  {
    if p >= |packages| || packages[p].owner != provider then Failure(NotFound)
    else if packages[p].status != PkgDraft then Failure(BadStatus)
    else
      var pkg := packages[p];
      var current := ServiceIds(pkg.members);
      var add, remove := Dedup(addRequested), Dedup(removeRequested);
      var kept := Kept(pkg.members, remove);
      var finalIds := ServiceIds(kept) + add;
      if exists i | 0 <= i < |add| :: add[i] in remove || add[i] in current then Failure(PackageRule)
      else if exists i | 0 <= i < |remove| :: remove[i] !in current then Failure(PackageRule)
      else if exists m | 0 <= m < |pkg.members| ::
                pkg.members[m].provider == provider && IsOwnHall(cat, provider, pkg.members[m].service)
                && pkg.members[m].service in remove
      then Failure(PackageRule)
      else if |finalIds| == 0 || !ApprovedServices(cat, add) then Failure(PackageRule)
      else if |add| + |remove| > 0
                && !(KnownServices(cat, finalIds) && SoundSelection(cat, packages, provider, finalIds, Some(p)))
      then Failure(PackageRule)
      else
        var members := kept + NewMembers(cat, provider, add, now);
        var changed := discount.Some? && discount.value != pkg.discount;
        Success(packages[p := pkg.(discount := if changed then discount.value else pkg.discount,
                                   members := if changed then AskAgain(members, provider) else members)])
  }

  function CountActive(members: seq<Member>): nat {
    if members == [] then 0
    else CountActive(members[..|members| - 1]) + (if members[|members| - 1].status == MemActive then 1 else 0)
  }

  function ActivatePackage(packages: seq<Package>, provider: nat, p: nat): Result<seq<Package>, Error> {
    if p >= |packages| || packages[p].owner != provider then Failure(NotFound)
    else if packages[p].status != PkgDraft then Failure(BadStatus)
    else if CountActive(packages[p].members) < 2 then Failure(PackageRule)
    else Success(packages[p := packages[p].(status := PkgActive)])
  }

  function WithMember(pkg: Package, m: nat, status: MemberStatus): Package
    requires m < |pkg.members|
  {
    pkg.(members := pkg.members[m := pkg.members[m].(status := status)])
  }

  // acceptJoinRequest and rejectJoinRequest; m is the row that findFirst returned.
  function AnswerJoin(packages: seq<Package>, provider: nat, p: nat, m: nat, accept: bool)
    : Result<seq<Package>, Error>
  {
    if p >= |packages| || m >= |packages[p].members| || packages[p].members[m].provider != provider
       || packages[p].members[m].status != MemPending
    then Failure(NotFound)
    else Success(packages[p := WithMember(packages[p], m, if accept then MemActive else MemRejected)])
  }

  function CallOff(members: seq<Member>): (r: seq<Member>)
    ensures |r| == |members|
    ensures forall i :: 0 <= i < |members| ==> r[i] == members[i].(status := MemRejected)
  {
    seq(|members|, i requires 0 <= i < |members| => members[i].(status := MemRejected))
  }

  // leavePackage. The owner cancels the whole package unless it has engaged bookings; a partner gives
  // up the active row m unless its service is engaged, and a package left with fewer than two active
  // rows goes back to draft.
  function LeavePackage(packages: seq<Package>, provider: nat, p: nat, m: nat, hasOrders: bool, engaged: bool)
    : Result<seq<Package>, Error>
  {
    if p >= |packages| then Failure(NotFound)
    else
      var pkg := packages[p];
      if pkg.owner == provider then
        if pkg.status == PkgCancelled then Failure(BadStatus)
        else if hasOrders then Failure(ActiveEngagement)
        else Success(packages[p := pkg.(status := PkgCancelled, members := CallOff(pkg.members))])
      else if m >= |pkg.members| || pkg.members[m].provider != provider || pkg.members[m].status != MemActive
      then Failure(NotFound)
      else if engaged then Failure(ActiveEngagement)
      else
        var left := WithMember(pkg, m, MemRejected);
        Success(packages[p := if CountActive(left.members) < 2 && pkg.status == PkgActive
                         then left.(status := PkgDraft) else left])
  }

  // expirePendingJoinRequests, all rows of a package.
  function ExpireJoins(members: seq<Member>, now: Time): (r: seq<Member>)
    ensures |r| == |members|
    ensures forall i :: 0 <= i < |members| ==>
              r[i] == if members[i].status == MemPending && members[i].createdAt < now - JOIN_REQUEST_TIMEOUT
                      then members[i].(status := MemRejected) else members[i]
  {
    seq(|members|, i requires 0 <= i < |members| =>
      if members[i].status == MemPending && members[i].createdAt < now - JOIN_REQUEST_TIMEOUT
      then members[i].(status := MemRejected) else members[i])
  }

  // ... for the first k packages.
  function SweepJoins(packages: seq<Package>, now: Time, k: nat): (r: seq<Package>)
    requires k <= |packages|
    ensures |r| == |packages|
    ensures forall p :: 0 <= p < |packages| ==>
              r[p] == if p < k then packages[p].(members := ExpireJoins(packages[p].members, now)) else packages[p]
  {
    seq(|packages|, p requires 0 <= p < |packages| =>
      if p < k then packages[p].(members := ExpireJoins(packages[p].members, now)) else packages[p])
  }

  // ----- invariants ----------------------------------------------------------------------------------

  // What holds of every package on its own.
  ghost predicate PackageOk(cat: Catalogue, pkg: Package) {
    var ids := ServiceIds(pkg.members);
    && KnownServices(cat, ids)
    && NoRepeats(ids)
    && |ids| >= 2
    && DistinctKinds(cat, ids)
    && HasOwnHall(cat, pkg.owner, ids)
    && (forall i :: 0 <= i < |pkg.members| ==> pkg.members[i].provider == cat.services[pkg.members[i].service].provider)
    && (pkg.status == PkgActive ==> CountActive(pkg.members) >= 2)
    && (pkg.status == PkgCancelled ==> forall i :: 0 <= i < |pkg.members| ==> pkg.members[i].status == MemRejected)
  }

  ghost function ServiceSet(pkg: Package): set<nat> {
    set i | 0 <= i < |pkg.members| :: pkg.members[i].service
  }

  ghost function Elements(s: seq<nat>): set<nat> {
    set x | x in s
  }

  // No two packages that are not cancelled hold the same set of services.
  ghost predicate SetsUnique(packages: seq<Package>) {
    forall p, q ::
      0 <= p < q < |packages| && packages[p].status != PkgCancelled && packages[q].status != PkgCancelled ==>
      ServiceSet(packages[p]) != ServiceSet(packages[q])
  }

  ghost predicate PackagesOk(cat: Catalogue, packages: seq<Package>) {
    && (forall p :: 0 <= p < |packages| ==> PackageOk(cat, packages[p]))
    && SetsUnique(packages)
  }

  // ----- the duplicate test is set equality --------------------------------------------------------------

  predicate Ascending(s: seq<nat>) {
    forall i, j | 0 <= i < j < |s| :: s[i] <= s[j]
  }

  lemma TailContents(s: seq<nat>)
    requires s != []
    ensures multiset(s[1..]) == multiset(s) - multiset{s[0]}
    ensures forall y :: y in s <==> y == s[0] || y in s[1..]
  {
    assert s == [s[0]] + s[1..];
  }

  lemma {:induction false} InsertContents(x: nat, s: seq<nat>)
    ensures multiset(Insert(x, s)) == multiset(s) + multiset{x}
    ensures forall y :: y in Insert(x, s) <==> y == x || y in s
  {
    if s != [] {
      TailContents(s);
      if x > s[0] {
        InsertContents(x, s[1..]);
        assert Insert(x, s) == [s[0]] + Insert(x, s[1..]);
      }
    }
  }

  lemma {:induction false} InsertIsOrdered(x: nat, s: seq<nat>)
    requires Ascending(s)
    ensures Ascending(Insert(x, s))
  {
    var r := Insert(x, s);
    if s != [] && x > s[0] {
      InsertIsOrdered(x, s[1..]);
      InsertContents(x, s[1..]);
      var rest := Insert(x, s[1..]);
      assert r == [s[0]] + rest;
      forall j | 0 <= j < |rest| ensures s[0] <= rest[j] {
        assert rest[j] in rest;
      }
    }
  }

  lemma {:induction false} SortIsOrdered(s: seq<nat>)
    ensures Ascending(Sort(s)) && multiset(Sort(s)) == multiset(s)
  {
    if s != [] {
      SortIsOrdered(s[1..]);
      InsertIsOrdered(s[0], Sort(s[1..]));
      InsertContents(s[0], Sort(s[1..]));
      TailContents(s);
    }
  }

  lemma SameFirst(a: seq<nat>, b: seq<nat>)
    requires Ascending(a) && Ascending(b) && multiset(a) == multiset(b) && a != []
    ensures b != [] && a[0] == b[0]
  {
    assert a[0] in multiset(a) && a[0] in multiset(b);
    assert a[0] in b;
    assert b[0] in multiset(b) && b[0] in multiset(a);
    assert b[0] in a;
  }

  lemma {:induction false} OrderedIsUnique(a: seq<nat>, b: seq<nat>)
    requires Ascending(a) && Ascending(b) && multiset(a) == multiset(b)
    ensures a == b
  {
    if a != [] {
      SameFirst(a, b);
      TailContents(a);
      TailContents(b);
      OrderedIsUnique(a[1..], b[1..]);
      assert a == [a[0]] + a[1..] && b == [b[0]] + b[1..];
    } else if b != [] {
      SameFirst(b, a);
    }
  }

  // For lists without repetition, equal sorted lists are equal sets.
  lemma SortedListsAgreeIffSetsAgree(a: seq<nat>, b: seq<nat>)
    requires NoRepeats(a) && NoRepeats(b)
    ensures Sort(a) == Sort(b) <==> Elements(a) == Elements(b)
  {
    SortIsOrdered(a);
    SortIsOrdered(b);
    NoRepeatsCounts(a);
    NoRepeatsCounts(b);
    var sa, sb := Elements(a), Elements(b);
    if Sort(a) == Sort(b) {
      assert multiset(a) == multiset(b);
      forall x ensures x in sa <==> x in sb {
        assert x in a <==> multiset(a)[x] == 1;
      }
    }
    if sa == sb {
      forall x ensures multiset(a)[x] == multiset(b)[x] {
        assert x in sa <==> x in sb;
      }
      OrderedIsUnique(Sort(a), Sort(b));
    }
  }

  lemma ServiceSetOfIds(pkg: Package)
    ensures ServiceSet(pkg) == Elements(ServiceIds(pkg.members))
  {
    var ids := ServiceIds(pkg.members);
    forall x | x in ids ensures x in ServiceSet(pkg) {
      var i :| 0 <= i < |ids| && ids[i] == x;
      assert pkg.members[i].service == x;
    }
  }

  // Neither the sort nor the prefilter loses a duplicate: the test finds one exactly when some other
  // live package holds the same set of services.
  lemma DuplicateTestIsExact(cat: Catalogue, packages: seq<Package>, ids: seq<nat>, excluded: Option<nat>)
    requires forall p :: 0 <= p < |packages| ==> PackageOk(cat, packages[p])
    requires NoRepeats(ids) && |ids| > 0
    ensures DuplicatesSome(packages, ids, excluded) <==>
            exists p :: 0 <= p < |packages| && excluded != Some(p) && packages[p].status != PkgCancelled
                        && ServiceSet(packages[p]) == Elements(ids)
  {
    forall p | 0 <= p < |packages|
      ensures SharesService(packages[p].members, ids) && Sort(ServiceIds(packages[p].members)) == Sort(ids)
              <==> ServiceSet(packages[p]) == Elements(ids)
    {
      assert PackageOk(cat, packages[p]);
      var own := ServiceIds(packages[p].members);
      SortedListsAgreeIffSetsAgree(own, ids);
      ServiceSetOfIds(packages[p]);
      if Elements(own) == Elements(ids) {
        assert ids[0] in Elements(ids);
        var i :| 0 <= i < |own| && own[i] == ids[0];
        assert packages[p].members[i].service in ids;
      }
    }
  }

  // ----- every operation keeps the invariants -----------------------------------------------------------

  lemma {:induction false} ActiveCountAfterChange(members: seq<Member>, members': seq<Member>)
    requires |members| == |members'|
    requires forall i :: 0 <= i < |members| ==> members[i].status == MemActive ==> members'[i].status == MemActive
    ensures CountActive(members) <= CountActive(members')
  {
    if members != [] {
      var n := |members| - 1;
      assert forall i :: 0 <= i < n ==> members[..n][i] == members[i] && members'[..n][i] == members'[i];
      ActiveCountAfterChange(members[..n], members'[..n]);
    }
  }

  // Replacing a package by one with the same services keeps everything, once the new row is in order.
  lemma SameServicesKeep(cat: Catalogue, packages: seq<Package>, p: nat, pkg: Package)
    requires PackagesOk(cat, packages) && p < |packages|
    requires pkg.owner == packages[p].owner && |pkg.members| == |packages[p].members|
    requires forall i :: 0 <= i < |pkg.members| ==>
               pkg.members[i].service == packages[p].members[i].service
                 && pkg.members[i].provider == packages[p].members[i].provider
    requires pkg.status == PkgActive ==> CountActive(pkg.members) >= 2
    requires pkg.status == PkgCancelled ==> forall i :: 0 <= i < |pkg.members| ==> pkg.members[i].status == MemRejected
    requires packages[p].status == PkgCancelled ==> pkg.status == PkgCancelled
    ensures PackagesOk(cat, packages[p := pkg])
  {
    assert PackageOk(cat, packages[p]);
    assert ServiceIds(pkg.members) == ServiceIds(packages[p].members);
    ServiceSetOfIds(pkg);
    ServiceSetOfIds(packages[p]);
  }

  lemma {:induction false} KeptContents(members: seq<Member>, remove: seq<nat>)
    ensures forall m :: m in Kept(members, remove) <==> m in members && m.service !in remove
  {
    if members != [] {
      var n := |members| - 1;
      KeptContents(members[..n], remove);
      assert members == members[..n] + [members[n]];
    }
  }

  lemma {:induction false} KeptHasNoRepeats(members: seq<Member>, remove: seq<nat>)
    requires NoRepeats(ServiceIds(members))
    ensures NoRepeats(ServiceIds(Kept(members, remove)))
  {
    if members != [] {
      var n := |members| - 1;
      assert ServiceIds(members)[..n] == ServiceIds(members[..n]);
      KeptHasNoRepeats(members[..n], remove);
      KeptContents(members[..n], remove);
      var rest := Kept(members[..n], remove);
      forall i | 0 <= i < |rest| ensures rest[i].service != members[n].service {
        var j :| 0 <= j < n && members[..n][j] == rest[i];
        assert ServiceIds(members)[j] != ServiceIds(members)[n];
      }
    }
  }

  lemma {:induction false} NothingRemoved(members: seq<Member>)
    ensures Kept(members, []) == members
  {
    if members != [] {
      NothingRemoved(members[..|members| - 1]);
    }
  }

  // The services of an edited package are again known and without repetition.
  lemma EditedServices(cat: Catalogue, members: seq<Member>, add: seq<nat>, remove: seq<nat>)
    requires KnownServices(cat, ServiceIds(members)) && NoRepeats(ServiceIds(members))
    requires KnownServices(cat, add) && NoRepeats(add)
    requires forall x :: x in add ==> x !in ServiceIds(members)
    ensures KnownServices(cat, ServiceIds(Kept(members, remove)) + add)
    ensures NoRepeats(ServiceIds(Kept(members, remove)) + add)
  {
    var kept := Kept(members, remove);
    KeptHasNoRepeats(members, remove);
    KeptContents(members, remove);
    forall i | 0 <= i < |kept|
      ensures kept[i].service < |cat.services| && kept[i].service !in add
    {
      var j :| 0 <= j < |members| && members[j] == kept[i];
      assert ServiceIds(members)[j] == kept[i].service;
    }
  }

  lemma KeptProviders(cat: Catalogue, members: seq<Member>, remove: seq<nat>)
    requires KnownServices(cat, ServiceIds(members))
    requires forall i :: 0 <= i < |members| ==> members[i].provider == cat.services[members[i].service].provider
    ensures forall i :: 0 <= i < |Kept(members, remove)| ==>
              Kept(members, remove)[i].service < |cat.services|
              && Kept(members, remove)[i].provider == cat.services[Kept(members, remove)[i].service].provider
  {
    KeptContents(members, remove);
    forall i | 0 <= i < |members| ensures members[i].service < |cat.services| {
      assert ServiceIds(members)[i] < |cat.services|;
    }
  }

  // The tables before and after an edit: none of the packages outside `except` was cancelled by it.
  ghost predicate CancelsNoneBut(packages: seq<Package>, packages': seq<Package>, except: Option<nat>) {
    && |packages| <= |packages'|
    && forall p :: 0 <= p < |packages| && Some(p) != except && packages[p].status != PkgCancelled ==>
         packages'[p].status != PkgCancelled
  }

  lemma CreateKeeps(cat: Catalogue, packages: seq<Package>, owner: nat, requested: seq<nat>, discount: Percent,
                    now: Time)
    requires PackagesOk(cat, packages)
    ensures PackagesOk(cat, After(CreatePackage(cat, packages, owner, requested, discount, now), packages))
    ensures CancelsNoneBut(packages, After(CreatePackage(cat, packages, owner, requested, discount, now), packages),
                           None)
  {
    var result := CreatePackage(cat, packages, owner, requested, discount, now);
    if result.Success? {
      var ids := Dedup(requested);
      var pkg := Package(owner, discount, PkgDraft, NewMembers(cat, owner, ids, now));
      assert ServiceIds(pkg.members) == ids;
      ServiceSetOfIds(pkg);
      DuplicateTestIsExact(cat, packages, ids, None);
      assert PackageOk(cat, pkg);
    }
  }

  // A package row whose new set of services passed the checks takes its place among the others.
  lemma ReplacedBySound(cat: Catalogue, packages: seq<Package>, p: nat, pkg: Package)
    requires PackagesOk(cat, packages) && p < |packages|
    requires PackageOk(cat, pkg) && !DuplicatesSome(packages, ServiceIds(pkg.members), Some(p))
    ensures PackagesOk(cat, packages[p := pkg])
  {
    DuplicateTestIsExact(cat, packages, ServiceIds(pkg.members), Some(p));
    ServiceSetOfIds(pkg);
  }

  lemma UpdateKeeps(cat: Catalogue, packages: seq<Package>, provider: nat, p: nat, addRequested: seq<nat>,
                    removeRequested: seq<nat>, discount: Option<Percent>, now: Time)
    requires PackagesOk(cat, packages)
    ensures var r := UpdatePackage(cat, packages, provider, p, addRequested, removeRequested, discount, now);
            PackagesOk(cat, After(r, packages)) && CancelsNoneBut(packages, After(r, packages), None)
  {
    hide DuplicatesSome, HasCommonDay, DistinctKinds, HasOwnHall, NoRepeats, CountActive, Kept, IsOwnHall;
    var result := UpdatePackage(cat, packages, provider, p, addRequested, removeRequested, discount, now);
    if result.Success? {
      var pkg := packages[p];
      assert PackageOk(cat, pkg);
      var add, remove := Dedup(addRequested), Dedup(removeRequested);
      var kept := Kept(pkg.members, remove);
      var pkg' := result.value[p];
      assert ServiceIds(pkg'.members) == ServiceIds(kept) + add;
      KeptProviders(cat, pkg.members, remove);
      if |add| + |remove| == 0 {
        NothingRemoved(pkg.members);
        SameServicesKeep(cat, packages, p, pkg');
      } else {
        EditedServices(cat, pkg.members, add, remove);
        assert PackageOk(cat, pkg');
        ReplacedBySound(cat, packages, p, pkg');
      }
    }
  }

  lemma ActivateKeeps(cat: Catalogue, packages: seq<Package>, provider: nat, p: nat)
    requires PackagesOk(cat, packages)
    ensures PackagesOk(cat, After(ActivatePackage(packages, provider, p), packages))
    ensures CancelsNoneBut(packages, After(ActivatePackage(packages, provider, p), packages), None)
  {
    var result := ActivatePackage(packages, provider, p);
    if result.Success? {
      SameServicesKeep(cat, packages, p, result.value[p]);
    }
  }

  lemma AnswerJoinKeeps(cat: Catalogue, packages: seq<Package>, provider: nat, p: nat, m: nat, accept: bool)
    requires PackagesOk(cat, packages)
    ensures PackagesOk(cat, After(AnswerJoin(packages, provider, p, m, accept), packages))
    ensures CancelsNoneBut(packages, After(AnswerJoin(packages, provider, p, m, accept), packages), None)
  {
    var result := AnswerJoin(packages, provider, p, m, accept);
    if result.Success? {
      assert PackageOk(cat, packages[p]);
      ActiveCountAfterChange(packages[p].members, result.value[p].members);
      SameServicesKeep(cat, packages, p, result.value[p]);
    }
  }

  lemma LeaveKeeps(cat: Catalogue, packages: seq<Package>, provider: nat, p: nat, m: nat, hasOrders: bool,
                   engaged: bool)
    requires PackagesOk(cat, packages)
    ensures PackagesOk(cat, After(LeavePackage(packages, provider, p, m, hasOrders, engaged), packages))
    ensures CancelsNoneBut(packages, After(LeavePackage(packages, provider, p, m, hasOrders, engaged), packages),
                           if hasOrders then None else Some(p))
  {
    var result := LeavePackage(packages, provider, p, m, hasOrders, engaged);
    if result.Success? {
      assert PackageOk(cat, packages[p]);
      SameServicesKeep(cat, packages, p, result.value[p]);
    }
  }

  lemma ExpiryKeeps(cat: Catalogue, packages: seq<Package>, p: nat, now: Time)
    requires PackagesOk(cat, packages) && p < |packages|
    ensures var pkg := packages[p].(members := ExpireJoins(packages[p].members, now));
            PackagesOk(cat, packages[p := pkg]) && CancelsNoneBut(packages, packages[p := pkg], None)
  {
    var pkg := packages[p].(members := ExpireJoins(packages[p].members, now));
    assert PackageOk(cat, packages[p]);
    ActiveCountAfterChange(packages[p].members, pkg.members);
    hide DistinctKinds, HasOwnHall, NoRepeats, KnownServices, CountActive, SetsUnique;
    SameServicesKeep(cat, packages, p, pkg);
  }

  lemma {:induction false} SweepJoinsKeeps(cat: Catalogue, packages: seq<Package>, now: Time, k: nat)
    requires PackagesOk(cat, packages) && k <= |packages|
    ensures PackagesOk(cat, SweepJoins(packages, now, k))
    ensures CancelsNoneBut(packages, SweepJoins(packages, now, k), None)
  {
    hide PackagesOk;
    if k == 0 {
      assert SweepJoins(packages, now, 0) == packages;
    } else {
      SweepJoinsKeeps(cat, packages, now, k - 1);
      var before := SweepJoins(packages, now, k - 1);
      ExpiryKeeps(cat, before, k - 1, now);
      assert SweepJoins(packages, now, k)
             == before[k - 1 := before[k - 1].(members := ExpireJoins(before[k - 1].members, now))];
    }
  }
}
