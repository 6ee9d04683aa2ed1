// Review aggregates: createReview (src/modules/reviews/reviews.service.ts) recomputes a service's
// average, and the provider's dashboard combines the averages of its services.
module Reviews {
  import opened Wrappers
  import opened Marketplace
  import Store

  datatype Review = Review(booking: nat, service: nat, rating: int)
  datatype Score = Score(rating: real, total: nat)

  function SumFor(reviews: seq<Review>, s: nat): int {
    if reviews == [] then 0
    else
      SumFor(reviews[..|reviews| - 1], s)
      + (if reviews[|reviews| - 1].service == s then reviews[|reviews| - 1].rating else 0)
  }

  function CountFor(reviews: seq<Review>, s: nat): nat {
    if reviews == [] then 0
    else CountFor(reviews[..|reviews| - 1], s) + (if reviews[|reviews| - 1].service == s then 1 else 0)
  }

  function Average(reviews: seq<Review>, s: nat): real {
    if CountFor(reviews, s) == 0 then 0.0 else SumFor(reviews, s) as real / CountFor(reviews, s) as real
  }

  // All ratings received by a provider's services together.
  function SumOver(reviews: seq<Review>, services: seq<nat>): int {
    if reviews == [] then 0
    else SumOver(reviews[..|reviews| - 1], services)
         + (if reviews[|reviews| - 1].service in services then reviews[|reviews| - 1].rating else 0)
  }

  function CountOver(reviews: seq<Review>, services: seq<nat>): nat {
    if reviews == [] then 0
    else CountOver(reviews[..|reviews| - 1], services) + (if reviews[|reviews| - 1].service in services then 1 else 0)
  }

  // The reduces of getProviderDashboardSummary.
  function TotalReviews(scores: seq<Score>, services: seq<nat>): nat
    requires forall k :: 0 <= k < |services| ==> services[k] < |scores|
  {
    if services == [] then 0
         else TotalReviews(scores, services[..|services| - 1]) + scores[services[|services| - 1]].total
  }

  function WeightedSum(scores: seq<Score>, services: seq<nat>): real
    requires forall k :: 0 <= k < |services| ==> services[k] < |scores|
  {
    if services == [] then 0.0
    else
      var score := scores[services[|services| - 1]];
      WeightedSum(scores, services[..|services| - 1]) + score.rating * score.total as real
  }

  function ProviderAverage(scores: seq<Score>, services: seq<nat>): real
    requires forall k :: 0 <= k < |services| ==> services[k] < |scores|
  {
    if TotalReviews(scores, services) > 0 then WeightedSum(scores, services) / TotalReviews(scores, services) as real
         else 0.0
  }

  // Each service's stored score is the aggregate of its own reviews.
  ghost predicate UpToDate(reviews: seq<Review>, scores: seq<Score>) {
    forall s :: 0 <= s < |scores| ==> scores[s] == Score(Average(reviews, s), CountFor(reviews, s))
  }

  class ReviewBook {
    var reviews: seq<Review>
    var scores: seq<Score>

    ghost predicate Valid()
      reads this
    {
      && UpToDate(reviews, scores)
      && forall i, j :: 0 <= i < j < |reviews| ==> reviews[i].booking != reviews[j].booking
    }

    constructor (services: nat)
      ensures Valid() && reviews == [] && |scores| == services
    {
      reviews := [];
      scores := seq(services, _ => Score(0.0, 0));
    }

    // One review per completed booking, by its customer; the service's aggregate is recomputed with it.
    method CreateReview(db: Store.Database, user: nat, b: nat, rating: int) returns (outcome: Outcome<Error>)
      requires Valid()
      modifies this
      ensures Valid() && |scores| == |old(scores)|
      ensures outcome.Pass? <==>
              b < |db.bookings| && db.bookings[b].customer == user && db.bookings[b].status == Completed
              && db.bookings[b].service < |old(scores)|
              && forall i :: 0 <= i < |old(reviews)| ==> old(reviews)[i].booking != b
      ensures outcome.Pass? ==> reviews == old(reviews) + [Review(b, db.bookings[b].service, rating)]
      ensures outcome.Fail? ==> reviews == old(reviews) && scores == old(scores)
    {
      var bookings := db.bookings;
      if b >= |bookings| {
        return Fail(NotFound);
      }
      if bookings[b].customer != user {
        return Fail(Forbidden);
      }
      if bookings[b].status != Completed || bookings[b].service >= |scores| {
        return Fail(BadStatus);
      }
      if exists i | 0 <= i < |reviews| :: reviews[i].booking == b {
        return Fail(BadStatus);
      }
      var s := bookings[b].service;
      reviews := reviews + [Review(b, s, rating)];
      scores := scores[s := Score(Average(reviews, s), CountFor(reviews, s))];
      assert reviews[..|reviews| - 1] == old(reviews);
      outcome := Pass;
    }

    // The dashboard figure before it is rounded for display.
    method DashboardAverage(services: seq<nat>) returns (average: real)
      requires Valid()
      requires forall k :: 0 <= k < |services| ==> services[k] < |scores|
      requires forall j, k :: 0 <= j < k < |services| ==> services[j] != services[k]
      ensures average == if CountOver(reviews, services) > 0
                         then SumOver(reviews, services) as real / CountOver(reviews, services) as real else 0.0
    {
      hide UpToDate, SumOver, CountOver, Average, CountFor, SumFor, ProviderAverage;
      var total, weighted := 0, 0.0;
      for k := 0 to |services|
        invariant total == TotalReviews(scores, services[..k])
        invariant weighted == WeightedSum(scores, services[..k])
      {
        assert services[..k + 1][..k] == services[..k];
        total := total + scores[services[k]].total;
        weighted := weighted + scores[services[k]].rating * scores[services[k]].total as real;
      }
      assert services[..|services|] == services;
      DashboardIsPlainMean(reviews, scores, services);
      average := if total > 0 then weighted / total as real else 0.0;
    }
  }

  lemma {:induction false} OneMoreService(reviews: seq<Review>, services: seq<nat>, s: nat)
    requires s !in services
    ensures SumOver(reviews, services + [s]) == SumOver(reviews, services) + SumFor(reviews, s)
    ensures CountOver(reviews, services + [s]) == CountOver(reviews, services) + CountFor(reviews, s)
  {
    if reviews != [] {
      OneMoreService(reviews[..|reviews| - 1], services, s);
    }
  }

  lemma AverageTimesCount(reviews: seq<Review>, s: nat)
    ensures Average(reviews, s) * CountFor(reviews, s) as real == SumFor(reviews, s) as real
  {
    if CountFor(reviews, s) == 0 {
      NoReviewsNoSum(reviews, s);
    } else {
      QuotientTimesDivisor(SumFor(reviews, s) as real, CountFor(reviews, s) as real);
    }
  }

  lemma QuotientTimesDivisor(a: real, b: real)
    requires b != 0.0
    ensures a / b * b == a
  {
  }

  lemma {:induction false} NoReviewsNoSum(reviews: seq<Review>, s: nat)
    requires CountFor(reviews, s) == 0
    ensures SumFor(reviews, s) == 0
  {
    if reviews != [] {
      NoReviewsNoSum(reviews[..|reviews| - 1], s);
    }
  }

  lemma {:induction false} NoServices(reviews: seq<Review>)
    ensures SumOver(reviews, []) == 0 && CountOver(reviews, []) == 0
  {
    if reviews != [] {
      NoServices(reviews[..|reviews| - 1]);
    }
  }

  lemma {:induction false} DashboardSums(reviews: seq<Review>, scores: seq<Score>, services: seq<nat>)
    requires UpToDate(reviews, scores)
    requires forall k :: 0 <= k < |services| ==> services[k] < |scores|
    requires forall j, k :: 0 <= j < k < |services| ==> services[j] != services[k]
    ensures TotalReviews(scores, services) == CountOver(reviews, services)
    ensures WeightedSum(scores, services) == SumOver(reviews, services) as real
  {
    hide Average, SumOver, CountOver, CountFor, SumFor;
    if services == [] {
      NoServices(reviews);
    } else {
      var n := |services| - 1;
      DashboardSums(reviews, scores, services[..n]);
      OneMoreService(reviews, services[..n], services[n]);
      AverageTimesCount(reviews, services[n]);
      assert services == services[..n] + [services[n]];
      assert scores[services[n]] == Score(Average(reviews, services[n]), CountFor(reviews, services[n]));
    }
  }

  // Averaging the services' averages by their counts is the plain mean of all their ratings.
  lemma DashboardIsPlainMean(reviews: seq<Review>, scores: seq<Score>, services: seq<nat>)
    requires UpToDate(reviews, scores)
    requires forall k :: 0 <= k < |services| ==> services[k] < |scores|
    requires forall j, k :: 0 <= j < k < |services| ==> services[j] != services[k]
    ensures TotalReviews(scores, services) == CountOver(reviews, services)
    ensures WeightedSum(scores, services) == SumOver(reviews, services) as real
    ensures ProviderAverage(scores, services) ==
            if CountOver(reviews, services) > 0
            then SumOver(reviews, services) as real / CountOver(reviews, services) as real else 0.0
  {
    DashboardSums(reviews, scores, services);
  }
}
