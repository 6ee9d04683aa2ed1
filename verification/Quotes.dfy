// sendQuote (src/modules/bookings/provider-bookings.service.ts): a provider prices a booking item by
// item. The submitted lines are accepted exactly when they are a permutation of the booking's items.
module Quotes {
  import opened Wrappers
  import opened Marketplace
  import opened Sequences

  datatype Line = Line(item: nat, unit: nat)

  predicate ItemExists(items: seq<Item>, id: nat) {
    exists i | 0 <= i < |items| :: items[i].id == id
  }

  // The three checks of the source, in its order, for a booking that has items.
  predicate Acceptable(items: seq<Item>, lines: seq<Line>) {
    && |lines| > 0
    && (forall k | 0 <= k < |lines| :: ItemExists(items, lines[k].item))
    && |lines| == |items|
    && (forall j, k | 0 <= j < k < |lines| :: lines[j].item != lines[k].item)
  }

  ghost predicate DistinctIds(items: seq<Item>) {
    forall i, j :: 0 <= i < j < |items| ==> items[i].id != items[j].id
  }

  function QuantityOf(items: seq<Item>, id: nat): nat {
    if items == [] then 0 else if items[0].id == id then items[0].quantity else QuantityOf(items[1..], id)
  }

  function UnitFor(lines: seq<Line>, id: nat): nat {
    if lines == [] then 0 else if lines[0].item == id then lines[0].unit else UnitFor(lines[1..], id)
  }

  function QuotedItem(item: Item, lines: seq<Line>): Item {
    item.(finalUnit := Some(UnitFor(lines, item.id)), finalTotal := Some(UnitFor(lines, item.id) * item.quantity))
  }

  // Every item with the price its line gives it.
  function QuotedItems(items: seq<Item>, lines: seq<Line>): (r: seq<Item>)
    ensures |r| == |items|
    ensures forall i :: 0 <= i < |items| ==> r[i] == QuotedItem(items[i], lines)
  {
    seq(|items|, i requires 0 <= i < |items| => QuotedItem(items[i], lines))
  }

  // Sum of the final totals over the items, in table order.
  function FinalTotals(items: seq<Item>): nat {
    if items == [] then 0
    else FinalTotals(items[..|items| - 1])
         + (if items[|items| - 1].finalTotal.Some? then items[|items| - 1].finalTotal.value else 0)
  }

  // What the source's loop accumulates, in the order the lines were submitted.
  function Accumulated(items: seq<Item>, lines: seq<Line>): nat {
    if lines == [] then 0
    else Accumulated(items, lines[..|lines| - 1]) + lines[|lines| - 1].unit * QuantityOf(items, lines[|lines| - 1].item)
  }

  // ----- the loop -----------------------------------------------------------------------------

  function PositionOf(items: seq<Item>, id: nat): (i: nat)
    requires ItemExists(items, id)
    ensures i < |items| && items[i].id == id && items[i].quantity == QuantityOf(items, id)
  {
    if items[0].id == id then 0
    else
      assert ItemExists(items[1..], id) by {
        var i :| 0 <= i < |items| && items[i].id == id;
        assert items[1..][i - 1].id == id;
      }
      1 + PositionOf(items[1..], id)
  }

  predicate Listed(lines: seq<Line>, k: nat, id: nat)
    requires k <= |lines|
  {
    exists j | 0 <= j < k :: lines[j].item == id
  }

  ghost predicate PricedUpTo(items: seq<Item>, lines: seq<Line>, priced: seq<Item>, k: nat) {
    && |priced| == |items| && k <= |lines|
    && forall i :: 0 <= i < |items| ==>
         priced[i] == if Listed(lines, k, items[i].id) then QuotedItem(items[i], lines) else items[i]
  }

  // The pricing loop: each line updates the row of its item and adds to the amount.
  method PriceItems(items: seq<Item>, lines: seq<Line>) returns (priced: seq<Item>, finalAmount: nat)
    requires Acceptable(items, lines) && DistinctIds(items)
    ensures priced == QuotedItems(items, lines)
    ensures finalAmount == FinalTotals(priced)
  {
    hide DistinctIds;
    priced, finalAmount := items, 0;
    for k := 0 to |lines|
      invariant PricedUpTo(items, lines, priced, k)
      invariant finalAmount == Accumulated(items, lines[..k])
    {
      var i := PositionOf(items, lines[k].item);
      var finalTotalPrice := lines[k].unit * items[i].quantity;
      NextPriced(items, lines, priced, k, i);
      finalAmount := finalAmount + finalTotalPrice;
      priced := priced[i := items[i].(finalUnit := Some(lines[k].unit), finalTotal := Some(finalTotalPrice))];
      assert lines[..k + 1][..k] == lines[..k];
    }
    assert lines[..|lines|] == lines;
    EveryItemIsPriced(items, lines);
    assert priced == QuotedItems(items, lines);
    QuoteTotalIsSumOverItems(items, lines);
  }

  lemma NextPriced(items: seq<Item>, lines: seq<Line>, priced: seq<Item>, k: nat, i: nat)
    requires PricedUpTo(items, lines, priced, k) && k < |lines| && i < |items| && items[i].id == lines[k].item
    requires Acceptable(items, lines) && DistinctIds(items)
    ensures QuotedItem(items[i], lines)
            == items[i].(finalUnit := Some(lines[k].unit), finalTotal := Some(lines[k].unit * items[i].quantity))
    ensures PricedUpTo(items, lines, priced[i := QuotedItem(items[i], lines)], k + 1)
  {
    UnitOfLine(lines, k);
    hide Listed;
    forall j | 0 <= j < |items|
      ensures Listed(lines, k + 1, items[j].id) <==> Listed(lines, k, items[j].id) || j == i
    {
      ListedNext(lines, k, items[j].id);
    }
  }

  lemma ListedNext(lines: seq<Line>, k: nat, id: nat)
    requires k < |lines|
    ensures Listed(lines, k + 1, id) <==> Listed(lines, k, id) || lines[k].item == id
  {
  }

  lemma {:induction false} UnitOfLine(lines: seq<Line>, k: nat)
    requires k < |lines|
    requires forall i, j :: 0 <= i < j < |lines| ==> lines[i].item != lines[j].item
    ensures UnitFor(lines, lines[k].item) == lines[k].unit
  {
    if k > 0 {
      assert lines[1..][k - 1] == lines[k];
      UnitOfLine(lines[1..], k - 1);
    }
  }

  // ----- membership, equal length and no repetition make a permutation ---------------------------

  function Ids(items: seq<Item>): (r: seq<nat>)
    ensures |r| == |items| && forall i :: 0 <= i < |items| ==> r[i] == items[i].id
  {
    seq(|items|, i requires 0 <= i < |items| => items[i].id)
  }

  function LineIds(lines: seq<Line>): (r: seq<nat>)
    ensures |r| == |lines| && forall i :: 0 <= i < |lines| ==> r[i] == lines[i].item
  {
    seq(|lines|, i requires 0 <= i < |lines| => lines[i].item)
  }

  // The pigeonhole step behind the source's three checks, and its converse.
  lemma AcceptedQuoteIsAPermutation(items: seq<Item>, lines: seq<Line>)
    requires DistinctIds(items)
    ensures Acceptable(items, lines) <==> |lines| > 0 && multiset(LineIds(lines)) == multiset(Ids(items))
  {
    var a, b := LineIds(lines), Ids(items);
    NoRepeatsCounts(b);
    if Acceptable(items, lines) {
      NoRepeatsCounts(a);
      forall x | x in a ensures x in b {
        var k :| 0 <= k < |a| && a[k] == x;
        var i :| 0 <= i < |items| && items[i].id == lines[k].item;
        assert b[i] == x;
      }
      assert multiset(a) <= multiset(b);
      assert |multiset(b) - multiset(a)| == |b| - |a|;
      assert multiset(b) == multiset(a) + (multiset(b) - multiset(a));
    }
    if |lines| > 0 && multiset(a) == multiset(b) {
      assert |multiset(a)| == |multiset(b)|;
      forall k | 0 <= k < |lines| ensures ItemExists(items, lines[k].item) {
        assert a[k] in multiset(a) && a[k] in multiset(b);
        assert a[k] in b;
        var i :| 0 <= i < |b| && b[i] == a[k];
        assert items[i].id == lines[k].item;
      }
      forall j, k | 0 <= j < k < |lines| ensures lines[j].item != lines[k].item {
        if a[j] == a[k] {
          TwiceCounts(a, j, k);
          assert false;
        }
      }
    }
  }

  lemma EveryItemIsPriced(items: seq<Item>, lines: seq<Line>)
    requires Acceptable(items, lines) && DistinctIds(items)
    ensures forall i :: 0 <= i < |items| ==> Listed(lines, |lines|, items[i].id)
  {
    AcceptedQuoteIsAPermutation(items, lines);
    var a, b := LineIds(lines), Ids(items);
    forall i | 0 <= i < |items| ensures Listed(lines, |lines|, items[i].id) {
      assert b[i] in multiset(b) && b[i] in multiset(a);
      assert b[i] in a;
      var j :| 0 <= j < |a| && a[j] == b[i];
      assert lines[j].item == items[i].id;
    }
  }

  // ----- the amount does not depend on the submission order --------------------------------------

  function SumOver(ids: seq<nat>, f: nat -> nat): nat {
    if ids == [] then 0 else SumOver(ids[..|ids| - 1], f) + f(ids[|ids| - 1])
  }

  lemma {:induction false} SumOfConcat(a: seq<nat>, b: seq<nat>, f: nat -> nat)
    ensures SumOver(a + b, f) == SumOver(a, f) + SumOver(b, f)
  {
    if b == [] {
      assert a + b == a;
    } else {
      var n := |b| - 1;
      assert (a + b)[..|a| + n] == a + b[..n];
      SumOfConcat(a, b[..n], f);
    }
  }

  lemma SumWithout(a: seq<nat>, x: nat, b: seq<nat>, f: nat -> nat)
    ensures SumOver(a + [x] + b, f) == SumOver(a + b, f) + f(x)
  {
    SumOfConcat(a + [x], b, f);
    SumOfConcat(a, [x], f);
    SumOfConcat(a, b, f);
  }

  lemma {:induction false} SumOfPermutation(a: seq<nat>, b: seq<nat>, f: nat -> nat)
    requires multiset(a) == multiset(b)
    ensures SumOver(a, f) == SumOver(b, f)
    decreases |a|
  {
    assert |multiset(a)| == |a| && |multiset(b)| == |b|;
    if a != [] {
      var n := |a| - 1;
      assert a == a[..n] + [a[n]];
      assert a[n] in multiset(b);
      var k :| 0 <= k < |b| && b[k] == a[n];
      assert b == b[..k] + [b[k]] + b[k + 1..];
      assert multiset(b[..k] + b[k + 1..]) == multiset(b) - multiset{b[k]};
      SumWithout(b[..k], b[k], b[k + 1..], f);
      SumOfPermutation(a[..n], b[..k] + b[k + 1..], f);
    }
  }

  lemma {:induction false} AccumulatedAsSum(items: seq<Item>, lines: seq<Line>, all: seq<Line>)
    requires forall i, j :: 0 <= i < j < |all| ==> all[i].item != all[j].item
    requires lines <= all
    ensures Accumulated(items, lines) == SumOver(LineIds(lines), (id: nat) => UnitFor(all, id) * QuantityOf(items, id))
  {
    if lines != [] {
      var n := |lines| - 1;
      AccumulatedAsSum(items, lines[..n], all);
      assert LineIds(lines)[..n] == LineIds(lines[..n]);
      UnitOfLine(all, n);
    }
  }

  lemma {:induction false} QuantityAt(items: seq<Item>, i: nat)
    requires i < |items| && DistinctIds(items)
    ensures QuantityOf(items, items[i].id) == items[i].quantity
  {
    if i > 0 {
      assert items[1..][i - 1] == items[i];
      QuantityAt(items[1..], i - 1);
    }
  }

  lemma {:induction false} FinalTotalsAsSum(items: seq<Item>, lines: seq<Line>, k: nat)
    requires k <= |items| && DistinctIds(items)
    ensures FinalTotals(QuotedItems(items, lines)[..k])
            == SumOver(Ids(items)[..k], (id: nat) => UnitFor(lines, id) * QuantityOf(items, id))
  {
    if k > 0 {
      FinalTotalsAsSum(items, lines, k - 1);
      assert QuotedItems(items, lines)[..k][..k - 1] == QuotedItems(items, lines)[..k - 1];
      assert Ids(items)[..k][..k - 1] == Ids(items)[..k - 1];
      QuantityAt(items, k - 1);
    }
  }

  lemma PermutationKeepsSum(items: seq<Item>, lines: seq<Line>, f: nat -> nat)
    requires Acceptable(items, lines) && DistinctIds(items)
    ensures SumOver(LineIds(lines), f) == SumOver(Ids(items), f)
  {
    AcceptedQuoteIsAPermutation(items, lines);
    hide Acceptable, DistinctIds, LineIds, Ids, SumOver;
    SumOfPermutation(LineIds(lines), Ids(items), f);
  }

  lemma TotalOfQuotedItems(items: seq<Item>, lines: seq<Line>)
    requires DistinctIds(items)
    ensures FinalTotals(QuotedItems(items, lines))
            == SumOver(Ids(items), (id: nat) => UnitFor(lines, id) * QuantityOf(items, id))
  {
    hide FinalTotals, SumOver, DistinctIds, UnitFor, QuantityOf;
    FinalTotalsAsSum(items, lines, |items|);
    assert QuotedItems(items, lines)[..|items|] == QuotedItems(items, lines);
    assert Ids(items)[..|items|] == Ids(items);
  }

  // In whatever order the lines came, the quoted amount is unit price times quantity summed over all
  // of the booking's items.
  lemma QuoteTotalIsSumOverItems(items: seq<Item>, lines: seq<Line>)
    requires Acceptable(items, lines) && DistinctIds(items)
    ensures Accumulated(items, lines) == FinalTotals(QuotedItems(items, lines))
  {
    assert forall i, j :: 0 <= i < j < |lines| ==> lines[i].item != lines[j].item;
    PermutationKeepsSum(items, lines, (id: nat) => UnitFor(lines, id) * QuantityOf(items, id));
    hide Acceptable, DistinctIds, Accumulated, FinalTotals, QuotedItems, SumOver, UnitFor, QuantityOf, LineIds, Ids;
    AccumulatedAsSum(items, lines, lines);
    TotalOfQuotedItems(items, lines);
  }
}
