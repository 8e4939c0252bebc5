/** The legacy recommender (`recommender/app/recommender.py`): extract mood
    and tone from the prompt, keep the catalogue rows whose mood tag or tone
    matches (all rows when nothing matches, or when both are neutral), score
    each kept row by a weighted sum of its similarity to the prompt and to
    the average watched show, and return the best `top_n`.

    The sentence embeddings are not modelled: `toPrompt[i]` and
    `toWatched[i]` are the cosine similarities of row `i`'s description to
    the prompt and to the average embedding of the watched titles. */
module LegacyRecommender {
  import opened Text
  import opened Catalog
  import opened Ranking
  import MoodExtractor
  import UserProfile

  /** One row of `synthetic_ott_data_with_users.csv`; an empty cell is `None`. */
  datatype Show = Show(
    title: Option<string>,
    genre: Option<string>,
    moodTag: Option<string>,
    tone: Option<string>,
    description: Option<string>,
    rating: Option<real>)

  /** One element of `recommendations`: the listed columns and the score. */
  datatype Pick = Pick(
    title: Option<string>,
    genre: Option<string>,
    moodTag: Option<string>,
    tone: Option<string>,
    description: Option<string>,
    rating: Option<real>,
    hybridScore: real)

  /** The response dictionary; this variant has no user profile. */
  datatype LegacyResponse = LegacyResponse(userId: string, extractedMood: MoodInfo, recommendations: seq<Pick>)

  function PickOf(s: Show, score: real): Pick {
    Pick(s.title, s.genre, s.moodTag, s.tone, s.description, s.rating, score)
  }

  /** `column.str.lower() == x` on one cell: an empty cell never matches. */
  predicate CellIs(cell: Option<string>, x: string) {
    cell.Some? && Lower(cell.value) == x
  }

  /** The row passes the mood-or-tone filter. */
  predicate Matches(s: Show, mood: string, tone: string) {
    CellIs(s.moodTag, mood) || CellIs(s.tone, tone)
  }

  /** The rows that pass the mood-or-tone filter, in row order. */
  function MatchingRows(df: seq<Show>, mood: string, tone: string): (r: seq<nat>)
    ensures Increasing(r)
    ensures forall a :: 0 <= a < |r| ==> r[a] < |df|
    ensures forall i: nat :: i in r <==> i < |df| && Matches(df[i], mood, tone)
  {
    Positions(df, (s: Show) => Matches(s, mood, tone))
  }

  /** `df.copy()`: every row, in order. */
  function AllRows(n: nat): (r: seq<nat>)
    ensures |r| == n
    ensures forall a :: 0 <= a < n ==> r[a] == a
  {
    seq(n, i requires 0 <= i => i as nat)
  }

  /** `temp_df`: the rows the mood/tone filter keeps, in row order. */
  function Candidates(df: seq<Show>, mood: string, tone: string): seq<nat> {
    if mood != "neutral" || tone != "neutral" then
      var m := MatchingRows(df, mood, tone);
      if |m| == 0 then AllRows(|df|) else m
    else AllRows(|df|)
  }

  /** Both neutral: the whole catalogue. Otherwise exactly the matching rows,
      unless no row matches, and then the whole catalogue again. The
      candidates are distinct rows of the catalogue, in row order. */
  lemma CandidatesExact(df: seq<Show>, mood: string, tone: string)
    ensures mood == "neutral" && tone == "neutral" ==> Candidates(df, mood, tone) == AllRows(|df|)
    ensures (mood != "neutral" || tone != "neutral") && (exists i :: 0 <= i < |df| && Matches(df[i], mood, tone)) ==>
      forall i: nat :: i in Candidates(df, mood, tone) <==> i < |df| && Matches(df[i], mood, tone)
    ensures (mood != "neutral" || tone != "neutral") && (forall i :: 0 <= i < |df| ==> !Matches(df[i], mood, tone)) ==>
      Candidates(df, mood, tone) == AllRows(|df|)
    ensures Increasing(Candidates(df, mood, tone))
    ensures forall a :: 0 <= a < |Candidates(df, mood, tone)| ==> Candidates(df, mood, tone)[a] < |df|
  {
    var m := MatchingRows(df, mood, tone);
    if exists i :: 0 <= i < |df| && Matches(df[i], mood, tone) {
      var i :| 0 <= i < |df| && Matches(df[i], mood, tone);
      assert (i as nat) in m;
    }
    if |m| > 0 {
      assert m[0] in m;
    }
  }

  /** Some title of the history is a title of the catalogue (`t in df["title"].values`). */
  predicate Watched(df: seq<Show>, history: seq<string>) {
    exists t :: t in history && exists i :: 0 <= i < |df| && df[i].title == Some(t)
  }

  /** The `history_similarity` column over the whole catalogue. */
  function HistorySimilarity(df: seq<Show>, history: seq<string>, toWatched: seq<real>): (h: seq<real>)
    requires |toWatched| == |df|
    ensures |h| == |df|
  {
    if |history| > 0 && Watched(df, history) then toWatched
    else seq(|df|, i => 0.0)
  }

  /** `mood_weight * prompt_similarity + history_weight * history_similarity` for row `i`. */
  function Hybrid(moodWeight: real, historyWeight: real, toPrompt: seq<real>, h: seq<real>, i: nat): real
    requires i < |toPrompt| && i < |h|
  {
    moodWeight * toPrompt[i] + historyWeight * h[i]
  }

  /** The hybrid scores of the candidates, in candidate order. */
  function CandidateScores(c: seq<nat>, moodWeight: real, historyWeight: real, toPrompt: seq<real>, h: seq<real>): (s: seq<real>)
    requires forall a :: 0 <= a < |c| ==> c[a] < |toPrompt| && c[a] < |h|
    ensures |s| == |c|
    ensures forall a :: 0 <= a < |c| ==> s[a] == Hybrid(moodWeight, historyWeight, toPrompt, h, c[a])
  {
    seq(|c|, a requires 0 <= a < |c| => Hybrid(moodWeight, historyWeight, toPrompt, h, c[a]))
  }

  /** `mood_info.get(key, "neutral").lower()`; the rule table never sends
      `null`, on which `.lower()` would raise. */
  function KeyOr(v: JsonText): string
    requires !v.Null?
  {
    Lower(TextOr(v, "neutral").value)
  }

  /** Everything a request is given besides the catalogue: the stored
      histories stand for `user_history.json`. */
  datatype Query = Query(
    userId: string,
    prompt: string,
    topN: nat,
    moodWeight: real,
    historyWeight: real,
    histories: map<string, seq<string>>,
    toPrompt: seq<real>,
    toWatched: seq<real>)

  predicate Fits(df: seq<Show>, q: Query) {
    |q.toPrompt| == |df| && |q.toWatched| == |df|
  }

  /** The extracted mood: `extract_mood` with `USE_GPT = False`. */
  function MoodOf(q: Query): MoodInfo {
    MoodExtractor.RuleBased(q.prompt)
  }

  /** The candidate rows for the request. */
  function CandidatesOf(df: seq<Show>, q: Query): (c: seq<nat>)
    ensures Increasing(c)
    ensures forall a :: 0 <= a < |c| ==> c[a] < |df|
  {
    MoodExtractor.RuleBasedRange(q.prompt);
    CandidatesExact(df, KeyOr(MoodOf(q).mood), KeyOr(MoodOf(q).tone));
    Candidates(df, KeyOr(MoodOf(q).mood), KeyOr(MoodOf(q).tone))
  }

  /** The `history_similarity` column for the request. */
  function HistoryOf(df: seq<Show>, q: Query): (h: seq<real>)
    requires Fits(df, q)
    ensures |h| == |df|
  {
    HistorySimilarity(df, UserProfile.Lookup(q.histories, q.userId), q.toWatched)
  }

  /** The candidates' hybrid scores, in candidate order. */
  function ScoresOf(df: seq<Show>, q: Query): (s: seq<real>)
    requires Fits(df, q)
    ensures |s| == |CandidatesOf(df, q)|
  {
    CandidateScores(CandidatesOf(df, q), q.moodWeight, q.historyWeight, q.toPrompt, HistoryOf(df, q))
  }

  /** Positions in the candidate list of the rows kept by `head(top_n)`. */
  function TopOf(df: seq<Show>, q: Query): (top: seq<nat>)
    requires Fits(df, q)
    ensures IsRanking(ScoresOf(df, q), top)
    ensures |top| == Min(q.topN, |CandidatesOf(df, q)|)
  {
    TopIndicesRank(ScoresOf(df, q), q.topN);
    TopIndices(ScoresOf(df, q), q.topN)
  }

  /** The candidate at each chosen position. */
  function Through(c: seq<nat>, top: seq<nat>): (rows: seq<nat>)
    requires forall b :: 0 <= b < |top| ==> top[b] < |c|
    ensures |rows| == |top|
    ensures forall b :: 0 <= b < |top| ==> rows[b] == c[top[b]]
  {
    seq(|top|, b requires 0 <= b < |top| => c[top[b]])
  }

  /** Ranked positions of an increasing list of rows give distinct rows of
      that list, and a row left out scores no higher than a chosen one. */
  lemma ThroughRanking(c: seq<nat>, s: seq<real>, top: seq<nat>)
    requires Increasing(c) && |s| == |c| && IsRanking(s, top)
    ensures NoDup(Through(c, top))
    ensures forall b :: 0 <= b < |top| ==> Through(c, top)[b] in c
    ensures forall b, x :: 0 <= b < |top| && 0 <= x < |c| && c[x] !in Through(c, top) ==> s[x] <= s[top[b]]
  {
    var rows := Through(c, top);
    forall a, b | 0 <= a < b < |rows| ensures rows[a] != rows[b] {
      assert top[a] != top[b];
      assert top[a] < top[b] ==> c[top[a]] < c[top[b]];
      assert top[b] < top[a] ==> c[top[b]] < c[top[a]];
    }
    forall b, x | 0 <= b < |top| && 0 <= x < |c| && c[x] !in rows ensures s[x] <= s[top[b]] {
      assert x !in top by {
        forall y | 0 <= y < |top| ensures top[y] != x {
          assert rows[y] == c[top[y]];
        }
      }
    }
  }

  /** The rows chosen by `sort_values(by="hybrid_score", ascending=False).head(top_n)`. */
  function Chosen(df: seq<Show>, q: Query): (rows: seq<nat>)
    requires Fits(df, q)
    ensures forall b :: 0 <= b < |rows| ==> rows[b] < |df|
  {
    var c := CandidatesOf(df, q);
    var top := TopOf(df, q);
    var rows := Through(c, top);
    assert forall b :: 0 <= b < |rows| ==> rows[b] in c;
    rows
  }

  /** `get_recommendations` */
  function Recommend(df: seq<Show>, q: Query): LegacyResponse
    requires Fits(df, q)
  {
    LegacyResponseOf(q, MoodOf(q), df, Chosen(df, q), HistoryOf(df, q))
  }

  function LegacyResponseOf(q: Query, info: MoodInfo, df: seq<Show>, rows: seq<nat>, h: seq<real>): (r: LegacyResponse)
    requires |q.toPrompt| == |df| && |h| == |df|
    requires forall b :: 0 <= b < |rows| ==> rows[b] < |df|
    ensures |r.recommendations| == |rows|
    ensures forall b :: 0 <= b < |rows| ==>
      r.recommendations[b] == PickOf(df[rows[b]], Hybrid(q.moodWeight, q.historyWeight, q.toPrompt, h, rows[b]))
  {
    LegacyResponse(q.userId, info, seq(|rows|, b requires 0 <= b < |rows| =>
      PickOf(df[rows[b]], Hybrid(q.moodWeight, q.historyWeight, q.toPrompt, h, rows[b]))))
  }

  /** The history term vanishes for every row when the user has no history
      or none of the watched titles is in the catalogue. */
  lemma NoHistoryNoBoost(df: seq<Show>, history: seq<string>, toWatched: seq<real>, moodWeight: real, historyWeight: real, toPrompt: seq<real>)
    requires |toWatched| == |df| && |toPrompt| == |df|
    requires |history| == 0 || forall t, i :: t in history && 0 <= i < |df| ==> df[i].title != Some(t)
    ensures forall i :: 0 <= i < |df| ==> HistorySimilarity(df, history, toWatched)[i] == 0.0
    ensures forall i: nat :: i < |df| ==>
      Hybrid(moodWeight, historyWeight, toPrompt, HistorySimilarity(df, history, toWatched), i) == moodWeight * toPrompt[i]
  {
    assert !Watched(df, history);
  }

  /** With a watched title in the catalogue, the history term is the
      similarity to the average watched embedding. */
  lemma HistoryBoost(df: seq<Show>, history: seq<string>, toWatched: seq<real>, t: string, j: nat)
    requires |toWatched| == |df|
    requires t in history && j < |df| && df[j].title == Some(t)
    ensures HistorySimilarity(df, history, toWatched) == toWatched
  {
  }

  /** The response echoes the user and the extracted mood and lists
      min(top_n, number of candidates) rows, each with its own columns and
      its hybrid score. */
  lemma RecommendShape(df: seq<Show>, q: Query)
    requires Fits(df, q)
    ensures var r := Recommend(df, q);
      var rows := Chosen(df, q);
      && r.userId == q.userId && r.extractedMood == MoodExtractor.RuleBased(q.prompt)
      && |rows| == Min(q.topN, |CandidatesOf(df, q)|) == |r.recommendations|
      && (forall b :: 0 <= b < |rows| ==>
            r.recommendations[b] == PickOf(df[rows[b]], Hybrid(q.moodWeight, q.historyWeight, q.toPrompt, HistoryOf(df, q), rows[b])))
  {
  }

  /** The listed rows are distinct candidates, by non-increasing hybrid
      score, and no candidate left out scores higher than one listed. */
  lemma RecommendRanked(df: seq<Show>, q: Query)
    requires Fits(df, q)
    ensures var r := Recommend(df, q);
      var rows := Chosen(df, q);
      var c := CandidatesOf(df, q);
      var h := HistoryOf(df, q);
      && NoDup(rows)
      && (forall b :: 0 <= b < |rows| ==> rows[b] in c)
      && (forall a, b :: 0 <= a < b < |r.recommendations| ==> r.recommendations[a].hybridScore >= r.recommendations[b].hybridScore)
      && (forall b, u :: 0 <= b < |r.recommendations| && u in c && u !in rows ==>
            Hybrid(q.moodWeight, q.historyWeight, q.toPrompt, h, u) <= r.recommendations[b].hybridScore)
  {
    var c := CandidatesOf(df, q);
    var s := ScoresOf(df, q);
    var top := TopOf(df, q);
    ThroughRanking(c, s, top);
    var rows := Chosen(df, q);
    var r := Recommend(df, q);
    assert forall b :: 0 <= b < |rows| ==> r.recommendations[b].hybridScore == s[top[b]];
    forall b, u | 0 <= b < |rows| && u in c && u !in rows
      ensures Hybrid(q.moodWeight, q.historyWeight, q.toPrompt, HistoryOf(df, q), u) <= r.recommendations[b].hybridScore
    {
      var x :| 0 <= x < |c| && c[x] == u;
      assert s[x] <= s[top[b]];
    }
  }

  /** With `USE_GPT = False`, the extracted mood is the rule table's. */
  lemma LegacyMood(df: seq<Show>, q: Query, content: Option<string>, parse: string -> Option<MoodInfo>)
    requires Fits(df, q)
    ensures Recommend(df, q).extractedMood == MoodExtractor.ExtractMood(MoodExtractor.LegacyMode(), q.prompt, content, parse)
  {
    MoodExtractor.LegacyIsRuleBased(q.prompt, content, parse);
  }
}
