/** Feedback and ratings (`app/routers/feedback.py`): viewers rate shows
    and rate the recommendations, and the statistics endpoint reports counts,
    average scores and the share of helpful recommendations.
    `feedback.json` is the `file` field of a store: `None` when it is
    missing or cannot be parsed, and a list it lacks is `None` inside it.
    Writing it back is not modelled, nor are the request timestamps. */
module Feedback {
  import opened Text
  import opened Catalog

  /** A `show_ratings` entry (`FeedbackRequest`); the rating is not range-checked. */
  datatype ShowRating = ShowRating(userId: string, showTitle: string, rating: int, liked: bool, comment: Option<string>)

  /** A `recommendation_feedback` entry (`RecommendationFeedback`). */
  datatype RecommendationRating = RecommendationRating(userId: string, helpful: bool, accuracyScore: int, comment: Option<string>)

  /** The feedback document. */
  datatype FeedbackDoc = FeedbackDoc(
    showRatings: Option<seq<ShowRating>>,
    recommendationFeedback: Option<seq<RecommendationRating>>)

  const EmptyDoc: FeedbackDoc := FeedbackDoc(Some([]), Some([]))

  /** `load_feedback`: the empty structure when the file is missing or unreadable. */
  function LoadFeedback(file: Option<FeedbackDoc>): (doc: FeedbackDoc)
    ensures file.None? ==> doc == EmptyDoc
    ensures file.Some? ==> doc == file.value
  {
    file.GetOr(EmptyDoc)
  }

  /** What escapes a handler: an HTTP 500 whose detail names the missing list. */
  datatype Failure = ServerError(status: int, missingKey: string)

  /** The acknowledgement of a rating: a fixed message and the stored entry. */
  datatype Ack<T> = Ack(message: string, feedback: T)

  /** The file after `rate_show`, and its answer. A document without
      `show_ratings` raises `KeyError`, turned into an HTTP 500. */
  function AfterRateShow(file: Option<FeedbackDoc>, entry: ShowRating): (Option<FeedbackDoc>, Result<Ack<ShowRating>, Failure>) {
    var doc := LoadFeedback(file);
    match doc.showRatings
    case None => (file, Err(ServerError(500, "show_ratings")))
    case Some(list) =>
      (Some(doc.(showRatings := Some(list + [entry]))), Ok(Ack("Thank you for your feedback!", entry)))
  }

  /** The file after `rate_recommendation`, and its answer. */
  function AfterRateRecommendation(file: Option<FeedbackDoc>, entry: RecommendationRating): (Option<FeedbackDoc>, Result<Ack<RecommendationRating>, Failure>) {
    var doc := LoadFeedback(file);
    match doc.recommendationFeedback
    case None => (file, Err(ServerError(500, "recommendation_feedback")))
    case Some(list) =>
      (Some(doc.(recommendationFeedback := Some(list + [entry]))), Ok(Ack("Thank you for helping us improve!", entry)))
  }

  /** `rate_show` fails exactly when the stored document lacks
      `show_ratings`, and then changes nothing. Otherwise the list grows by
      exactly the new entry, at the end, the other list is untouched, and
      the answer echoes the entry. Without a file the result is the empty
      structure plus the entry. */
  lemma RateShowProperties(file: Option<FeedbackDoc>, entry: ShowRating)
    ensures var (after, r) := AfterRateShow(file, entry);
      var doc := LoadFeedback(file);
      && (r.Err? <==> doc.showRatings.None?)
      && (r.Err? ==> after == file && r.error.status == 500)
      && (r.Ok? ==>
            && r.value.feedback == entry
            && after.Some?
            && after.value.showRatings.Some?
            && |after.value.showRatings.value| == |doc.showRatings.value| + 1
            && after.value.showRatings.value[..|doc.showRatings.value|] == doc.showRatings.value
            && after.value.showRatings.value[|doc.showRatings.value|] == entry
            && after.value.recommendationFeedback == doc.recommendationFeedback)
      && (file.None? ==> after == Some(FeedbackDoc(Some([entry]), Some([]))))
  {
    var doc := LoadFeedback(file);
    if doc.showRatings.Some? {
      var list := doc.showRatings.value;
      assert (list + [entry])[..|list|] == list;
    }
  }

  /** `rate_recommendation` mirrors `rate_show` on the other list. */
  lemma RateRecommendationProperties(file: Option<FeedbackDoc>, entry: RecommendationRating)
    ensures var (after, r) := AfterRateRecommendation(file, entry);
      var doc := LoadFeedback(file);
      && (r.Err? <==> doc.recommendationFeedback.None?)
      && (r.Err? ==> after == file && r.error.status == 500)
      && (r.Ok? ==>
            && r.value.feedback == entry
            && after.Some?
            && after.value.recommendationFeedback.Some?
            && |after.value.recommendationFeedback.value| == |doc.recommendationFeedback.value| + 1
            && after.value.recommendationFeedback.value[..|doc.recommendationFeedback.value|] == doc.recommendationFeedback.value
            && after.value.recommendationFeedback.value[|doc.recommendationFeedback.value|] == entry
            && after.value.showRatings == doc.showRatings)
      && (file.None? ==> after == Some(FeedbackDoc(Some([]), Some([entry]))))
  {
    var doc := LoadFeedback(file);
    if doc.recommendationFeedback.Some? {
      var list := doc.recommendationFeedback.value;
      assert (list + [entry])[..|list|] == list;
    }
  }

  // ---------------------------------------------------------------------
  // Statistics
  // ---------------------------------------------------------------------

  function Sum(xs: seq<int>): int {
    if |xs| == 0 then 0 else Sum(xs[..|xs| - 1]) + xs[|xs| - 1]
  }

  /** `sum(xs) / len(xs) if xs else 0` */
  function Mean(xs: seq<int>): real {
    if |xs| == 0 then 0.0 else Sum(xs) as real / |xs| as real
  }

  /** `[r[key] for r in rs]` for one integer field `f` of the entries. */
  function Column<T>(rs: seq<T>, f: T -> int): (xs: seq<int>)
    ensures |xs| == |rs|
    ensures forall i :: 0 <= i < |rs| ==> xs[i] == f(rs[i])
  {
    seq(|rs|, i requires 0 <= i < |rs| => f(rs[i]))
  }

  function RatingOf(r: ShowRating): int {
    r.rating
  }

  function AccuracyOf(r: RecommendationRating): int {
    r.accuracyScore
  }

  /** `sum(1 for r in rs if r["recommendation_helpful"])` */
  function HelpfulCount(rs: seq<RecommendationRating>): nat {
    if |rs| == 0 then 0 else HelpfulCount(rs[..|rs| - 1]) + (if rs[|rs| - 1].helpful then 1 else 0)
  }

  /** `helpful_count / len(rs) * 100 if rs else 0` */
  function HelpfulPercentage(rs: seq<RecommendationRating>): real {
    if |rs| == 0 then 0.0 else HelpfulCount(rs) as real / |rs| as real * 100.0
  }

  /** The response of `get_feedback_stats`, before rounding. */
  datatype Stats = Stats(
    totalShowRatings: nat,
    averageShowRating: real,
    totalRecommendationFeedback: nat,
    averageAccuracyScore: real,
    helpfulPercentage: real)

  /** `get_feedback_stats`: a list the document lacks counts as empty here. */
  function FeedbackStats(file: Option<FeedbackDoc>): Stats {
    var doc := LoadFeedback(file);
    var shows := doc.showRatings.GetOr([]);
    var recs := doc.recommendationFeedback.GetOr([]);
    Stats(|shows|, Mean(Column(shows, RatingOf)), |recs|, Mean(Column(recs, AccuracyOf)), HelpfulPercentage(recs))
  }

  lemma {:induction false} SumBounds(xs: seq<int>, lo: int, hi: int)
    requires forall i :: 0 <= i < |xs| ==> lo <= xs[i] <= hi
    ensures lo * |xs| <= Sum(xs) <= hi * |xs|
  {
    if |xs| > 0 {
      var n := |xs| - 1;
      SumBounds(xs[..n], lo, hi);
      assert lo * |xs| == lo * n + lo;
      assert hi * |xs| == hi * n + hi;
    }
  }

  /** `s / n` lies between `lo` and `hi` when `s` lies between `lo * n` and `hi * n`. */
  lemma Quotient(s: int, n: int, lo: int, hi: int)
    requires n > 0 && lo * n <= s <= hi * n
    ensures lo as real <= s as real / n as real <= hi as real
  {
    var q := s as real / n as real;
    assert q * n as real == s as real;
    assert (q - lo as real) * n as real == s as real - (lo * n) as real;
    assert (hi as real - q) * n as real == (hi * n) as real - s as real;
  }

  /** An average is 0 for no scores, and otherwise lies between any lower
      and upper bound of the scores. */
  lemma MeanBounds(xs: seq<int>, lo: int, hi: int)
    requires forall i :: 0 <= i < |xs| ==> lo <= xs[i] <= hi
    ensures |xs| == 0 ==> Mean(xs) == 0.0
    ensures |xs| > 0 ==> lo as real <= Mean(xs) <= hi as real
  {
    if |xs| > 0 {
      SumBounds(xs, lo, hi);
      Quotient(Sum(xs), |xs|, lo, hi);
    }
  }

  lemma {:induction false} HelpfulAtMost(rs: seq<RecommendationRating>)
    ensures HelpfulCount(rs) <= |rs|
    ensures HelpfulCount(rs) == |rs| <==> forall i :: 0 <= i < |rs| ==> rs[i].helpful
  {
    if |rs| > 0 {
      var p := rs[..|rs| - 1];
      HelpfulAtMost(p);
      assert forall i :: 0 <= i < |p| ==> p[i] == rs[i];
    }
  }

  /** The helpful share is a percentage, 0 with no feedback (and with no
      helpful feedback), 100 exactly when every piece of feedback was helpful. */
  lemma HelpfulPercentageBounds(rs: seq<RecommendationRating>)
    ensures 0.0 <= HelpfulPercentage(rs) <= 100.0
    ensures |rs| == 0 ==> HelpfulPercentage(rs) == 0.0
    ensures |rs| > 0 ==> (HelpfulPercentage(rs) == 100.0 <==> forall i :: 0 <= i < |rs| ==> rs[i].helpful)
  {
    HelpfulAtMost(rs);
    if |rs| > 0 {
      var c := HelpfulCount(rs) as real;
      var n := |rs| as real;
      Quotient(HelpfulCount(rs), |rs|, 0, 1);
      var q := c / n;
      assert q * n == c;
      if q * 100.0 == 100.0 {
        assert q == 1.0;
      }
      if c == n {
        assert q == 1.0;
      }
    }
  }

  /** The totals are the lengths of the two lists, each average lies between
      the smallest and largest possible scores given bounds on them, and the
      helpful share is a percentage. A missing file reports all zeros. */
  lemma StatsProperties(file: Option<FeedbackDoc>, lo: int, hi: int)
    requires var doc := LoadFeedback(file);
      && (forall r :: r in doc.showRatings.GetOr([]) ==> lo <= r.rating <= hi)
      && (forall r :: r in doc.recommendationFeedback.GetOr([]) ==> lo <= r.accuracyScore <= hi)
    ensures var doc := LoadFeedback(file);
      var s := FeedbackStats(file);
      && s.totalShowRatings == |doc.showRatings.GetOr([])|
      && s.totalRecommendationFeedback == |doc.recommendationFeedback.GetOr([])|
      && (s.totalShowRatings == 0 ==> s.averageShowRating == 0.0)
      && (s.totalShowRatings > 0 ==> lo as real <= s.averageShowRating <= hi as real)
      && (s.totalRecommendationFeedback == 0 ==> s.averageAccuracyScore == 0.0 && s.helpfulPercentage == 0.0)
      && (s.totalRecommendationFeedback > 0 ==> lo as real <= s.averageAccuracyScore <= hi as real)
      && 0.0 <= s.helpfulPercentage <= 100.0
    ensures file.None? ==> FeedbackStats(file) == Stats(0, 0.0, 0, 0.0, 0.0)
  {
    var doc := LoadFeedback(file);
    var shows := doc.showRatings.GetOr([]);
    var recs := doc.recommendationFeedback.GetOr([]);
    assert forall i :: 0 <= i < |shows| ==> shows[i] in shows;
    assert forall i :: 0 <= i < |recs| ==> recs[i] in recs;
    MeanBounds(Column(shows, RatingOf), lo, hi);
    MeanBounds(Column(recs, AccuracyOf), lo, hi);
    HelpfulPercentageBounds(recs);
  }

  /** A successful rating shows up in the statistics: one more rating of
      its kind, the other total unchanged. */
  lemma RatingCounted(file: Option<FeedbackDoc>, show: ShowRating, rec: RecommendationRating)
    ensures var (after, r) := AfterRateShow(file, show);
      r.Ok? ==>
        && FeedbackStats(after).totalShowRatings == FeedbackStats(file).totalShowRatings + 1
        && FeedbackStats(after).totalRecommendationFeedback == FeedbackStats(file).totalRecommendationFeedback
    ensures var (after, r) := AfterRateRecommendation(file, rec);
      r.Ok? ==>
        && FeedbackStats(after).totalRecommendationFeedback == FeedbackStats(file).totalRecommendationFeedback + 1
        && FeedbackStats(after).totalShowRatings == FeedbackStats(file).totalShowRatings
  {
  }

  /** The feedback store behind the three endpoints. */
  class FeedbackStore {
    var file: Option<FeedbackDoc>

    constructor (file: Option<FeedbackDoc>)
      ensures this.file == file
    {
      this.file := file;
    }

    /** `rate_show` */
    method RateShow(entry: ShowRating) returns (r: Result<Ack<ShowRating>, Failure>)
      modifies this
      ensures (file, r) == AfterRateShow(old(file), entry)
    {
      var allFeedback := LoadFeedback(file);
      if allFeedback.showRatings.None? {
        return Err(ServerError(500, "show_ratings"));
      }
      allFeedback := allFeedback.(showRatings := Some(allFeedback.showRatings.value + [entry]));
      file := Some(allFeedback);
      r := Ok(Ack("Thank you for your feedback!", entry));
    }

    /** `rate_recommendation` */
    method RateRecommendation(entry: RecommendationRating) returns (r: Result<Ack<RecommendationRating>, Failure>)
      modifies this
      ensures (file, r) == AfterRateRecommendation(old(file), entry)
    {
      var allFeedback := LoadFeedback(file);
      if allFeedback.recommendationFeedback.None? {
        return Err(ServerError(500, "recommendation_feedback"));
      }
      allFeedback := allFeedback.(recommendationFeedback := Some(allFeedback.recommendationFeedback.value + [entry]));
      file := Some(allFeedback);
      r := Ok(Ack("Thank you for helping us improve!", entry));
    }
  }
}
