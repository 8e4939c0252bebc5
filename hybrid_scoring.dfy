/** The live scoring pipeline shared by the eager and the lazy recommender:
    a score per catalogue row, built in place in a numpy array by keyword
    matching, normalisation to a 0.4 ceiling, a watch-history boost and a
    classifier boost, then cut to the top N rows. The top-rated fallback both
    variants return on an error is here too. */
module HybridScoring {
  import opened Text
  import opened Catalog
  import opened KeywordIndex
  import opened Ranking

  // ---------------------------------------------------------------------------
  // 1. keyword matching
  // ---------------------------------------------------------------------------

  /** `set(user_prompt.lower().split())`, listed without repetition. */
  function PromptWords(prompt: string): (ws: seq<string>)
    ensures NoDup(ws)
    ensures forall w :: w in ws <==> w in Split(Lower(prompt))
  {
    var toks := Split(Lower(prompt));
    var d := Dedup(toks);
    assert forall w :: w in toks ==> w in d by {
      forall w | w in toks ensures w in d {
        var i :| 0 <= i < |toks| && toks[i] == w;
      }
    }
    d
  }

  /** Occurrences in `kw` of each word of `ws`, summed over `ws`: what the
      keyword loop adds to a row whose tokens are `kw`. */
  function Hits(kw: seq<string>, ws: seq<string>): nat
    decreases |ws|
  {
    if ws == [] then 0 else Hits(kw, ws[..|ws| - 1]) + multiset(kw)[ws[|ws| - 1]]
  }

  /** The number of tokens of `kw` that are among `ws`. */
  function Matches(kw: seq<string>, ws: seq<string>): nat
    decreases |kw|
  {
    if kw == [] then 0
    else Matches(kw[..|kw| - 1], ws) + (if kw[|kw| - 1] in ws then 1 else 0)
  }

  lemma {:induction false} MatchesAddWord(kw: seq<string>, ws: seq<string>, w: string)
    requires w !in ws
    ensures Matches(kw, ws + [w]) == Matches(kw, ws) + multiset(kw)[w]
    decreases |kw|
  {
    if kw != [] {
      var init := kw[..|kw| - 1];
      assert kw == init + [kw[|kw| - 1]];
      MatchesAddWord(init, ws, w);
    }
  }

  /** Because the prompt's words are a set, a row's raw keyword score is the
      number of its keyword tokens that occur in the prompt. */
  lemma {:induction false} HitsAreMatches(kw: seq<string>, ws: seq<string>)
    requires NoDup(ws)
    ensures Hits(kw, ws) == Matches(kw, ws)
    decreases |ws|
  {
    if ws == [] {
      MatchesNone(kw, ws);
    } else {
      var init := ws[..|ws| - 1];
      var w := ws[|ws| - 1];
      assert ws == init + [w];
      assert NoDup(init);
      assert w !in init by {
        forall a | 0 <= a < |init| ensures init[a] != w {
          assert ws[a] != ws[|ws| - 1];
        }
      }
      HitsAreMatches(kw, init);
      MatchesAddWord(kw, init, w);
      assert Hits(kw, ws) == Hits(kw, init) + multiset(kw)[w];
    }
  }

  /** A row without any prompt word among its tokens scores nothing. */
  lemma {:induction false} MatchesNone(kw: seq<string>, ws: seq<string>)
    requires forall t :: t in kw ==> t !in ws
    ensures Matches(kw, ws) == 0
    decreases |kw|
  {
    if kw != [] {
      MatchesNone(kw[..|kw| - 1], ws);
    }
  }

  /** Raw keyword scores of all rows. */
  function RawScores(rows: seq<seq<string>>, ws: seq<string>): (s: seq<real>)
    ensures |s| == |rows|
  {
    seq(|rows|, i requires 0 <= i < |rows| => Hits(rows[i], ws) as real)
  }

  /** For each prompt word found in the index, add 1.0 to every listed row. */
  method KeywordScores(scores: array<real>, index: Index, ws: seq<string>, ghost rows: seq<seq<string>>)
    requires index == IndexOf(rows) && scores.Length == |rows|
    requires forall i :: 0 <= i < scores.Length ==> scores[i] == 0.0
    modifies scores
    ensures scores[..] == RawScores(rows, ws)
  {
    var k := 0;
    while k < |ws|
      invariant k <= |ws|
      invariant forall i :: 0 <= i < scores.Length ==> scores[i] == Hits(rows[i], ws[..k]) as real
    {
      var w := ws[k];
      IndexExact(rows, w);
      assert ws[..k + 1][..k] == ws[..k];
      if w in index {
        AddPostings(scores, index[w]);
      } else {
        forall i | 0 <= i < |rows| ensures multiset(rows[i])[w] == 0 {
          assert w !in rows[i];
        }
      }
      forall i | 0 <= i < scores.Length ensures scores[i] == Hits(rows[i], ws[..k + 1]) as real {
        assert Hits(rows[i], ws[..k + 1]) == Hits(rows[i], ws[..k]) + multiset(rows[i])[w];
      }
      k := k + 1;
    }
    assert ws[..k] == ws;
  }

  /** `for movie_idx in _word_index[word]: scores[movie_idx] += 1.0` */
  method AddPostings(scores: array<real>, l: seq<nat>)
    requires forall a :: 0 <= a < |l| ==> l[a] < scores.Length
    modifies scores
    ensures forall i :: 0 <= i < scores.Length ==> scores[i] == old(scores[i]) + multiset(l)[i] as real
  {
    var m := 0;
    while m < |l|
      invariant m <= |l|
      invariant forall i :: 0 <= i < scores.Length ==> scores[i] == old(scores[i]) + multiset(l[..m])[i] as real
    {
      assert l[..m + 1] == l[..m] + [l[m]];
      scores[l[m]] := scores[l[m]] + 1.0;
      m := m + 1;
    }
    assert l[..m] == l;
  }

  // ---------------------------------------------------------------------------
  // 2. normalisation: `scores / scores.max() * 0.4` when the maximum is positive
  //    (the ultra-light variant divides without scaling: ceiling 1.0)
  // ---------------------------------------------------------------------------

  function Max(a: real, b: real): real {
    if a >= b then a else b
  }

  /** `ndarray.max()`; numpy raises on an empty array, hence the requires. */
  function SeqMax(s: seq<real>): (m: real)
    requires |s| > 0
    ensures forall i :: 0 <= i < |s| ==> s[i] <= m
    ensures exists i :: 0 <= i < |s| && s[i] == m
    decreases |s|
  {
    if |s| == 1 then s[0]
    else
      var m := SeqMax(s[..|s| - 1]);
      assert forall i :: 0 <= i < |s| - 1 ==> s[..|s| - 1][i] == s[i];
      Max(m, s[|s| - 1])
  }

  method MaxOf(a: array<real>) returns (m: real)
    requires a.Length > 0
    ensures m == SeqMax(a[..])
  {
    m := a[0];
    var i := 1;
    assert a[..1] == [a[0]];
    while i < a.Length
      invariant 1 <= i <= a.Length
      invariant m == SeqMax(a[..i])
    {
      assert a[..i + 1][..i] == a[..i];
      m := Max(m, a[i]);
      i := i + 1;
    }
    assert a[..i] == a[..];
  }

  /** Each score divided by the maximum and scaled to `ceiling`, when the
      maximum is positive. */
  function Normalised(s: seq<real>, ceiling: real): (r: seq<real>)
    requires |s| > 0
    ensures |r| == |s|
  {
    var m := SeqMax(s);
    if m > 0.0 then seq(|s|, i requires 0 <= i < |s| => Scaled(s[i], m, ceiling)) else s
  }

  /** `x / m * c` */
  function Scaled(x: real, m: real, c: real): real
    requires m > 0.0
  {
    x / m * c
  }

  method Normalise(scores: array<real>, ceiling: real)
    requires scores.Length > 0
    modifies scores
    ensures scores[..] == Normalised(old(scores[..]), ceiling)
  {
    var m := MaxOf(scores);
    ghost var s := scores[..];
    if m > 0.0 {
      var j := 0;
      while j < scores.Length
        invariant j <= scores.Length
        invariant forall i :: 0 <= i < j ==> scores[i] == Scaled(old(scores[i]), m, ceiling)
        invariant forall i :: j <= i < scores.Length ==> scores[i] == old(scores[i])
      {
        scores[j] := Scaled(scores[j], m, ceiling);
        j := j + 1;
      }
      assert forall i :: 0 <= i < scores.Length ==> scores[i] == Normalised(s, ceiling)[i];
    }
  }

  /** Normalisation keeps non-negative scores within [0, ceiling], keeps
      their order, gives the best row exactly the ceiling when any row scored,
      and leaves an all-zero vector as it is. */
  lemma NormalisedProperties(s: seq<real>, ceiling: real)
    requires |s| > 0 && ceiling > 0.0
    requires forall i :: 0 <= i < |s| ==> s[i] >= 0.0
    ensures forall i :: 0 <= i < |s| ==> 0.0 <= Normalised(s, ceiling)[i] <= ceiling
    ensures forall i, j :: 0 <= i < |s| && 0 <= j < |s| && s[i] <= s[j] ==> Normalised(s, ceiling)[i] <= Normalised(s, ceiling)[j]
    ensures (exists i :: 0 <= i < |s| && s[i] > 0.0) ==> exists i :: 0 <= i < |s| && Normalised(s, ceiling)[i] == ceiling
    ensures (forall i :: 0 <= i < |s| ==> s[i] == 0.0) ==> Normalised(s, ceiling) == s
    ensures (exists i :: 0 <= i < |s| && Normalised(s, ceiling)[i] == ceiling) ==> exists i :: 0 <= i < |s| && s[i] > 0.0
  {
    var m := SeqMax(s);
    var r := Normalised(s, ceiling);
    if m <= 0.0 {
      assert forall i :: 0 <= i < |s| ==> r[i] == 0.0;
    } else {
      assert forall i :: 0 <= i < |s| ==> r[i] == Scaled(s[i], m, ceiling);
      forall i | 0 <= i < |s| ensures 0.0 <= r[i] <= ceiling {
        Scale(s[i], s[i], m, ceiling);
      }
      forall i, j | 0 <= i < |s| && 0 <= j < |s| && s[i] <= s[j]
        ensures r[i] <= r[j]
      {
        Scale(s[i], s[j], m, ceiling);
      }
      var b :| 0 <= b < |s| && s[b] == m;
      Scale(s[b], s[b], m, ceiling);
      assert r[b] == ceiling && s[b] > 0.0;
    }
  }

  /** Arithmetic of `x / m * c` for `0 <= x <= y <= m`. */
  lemma Scale(x: real, y: real, m: real, c: real)
    requires m > 0.0 && c > 0.0 && 0.0 <= x <= y <= m
    ensures 0.0 <= Scaled(x, m, c) <= Scaled(y, m, c) <= c
    ensures y == m ==> Scaled(y, m, c) == c
  {
    Div(x, y, m);
    Div(y, m, m);
    assert m / m == 1.0;
    Mul(x / m, y / m, c);
    Mul(y / m, 1.0, c);
  }

  lemma Div(x: real, y: real, m: real)
    requires m > 0.0 && x <= y
    ensures x / m <= y / m
  {
    assert (y - x) / m >= 0.0;
  }

  lemma Mul(a: real, b: real, c: real)
    requires 0.0 <= a <= b && c > 0.0
    ensures 0.0 <= a * c <= b * c
  {
    assert (b - a) * c >= 0.0;
  }

  // ---------------------------------------------------------------------------
  // 3. watch-history boost
  // ---------------------------------------------------------------------------

  /** Rows `h < k` that were watched and share row `i`'s genre. */
  function GenreHits(movies: seq<Movie>, history: seq<string>, i: nat, k: nat): nat
    requires i < |movies| && k <= |movies|
    decreases k
  {
    if k == 0 then 0
    else GenreHits(movies, history, i, k - 1) + (if WatchedOfGenre(movies, history, k - 1, i) then 1 else 0)
  }

  /** Row `h` was watched and has row `i`'s genre. */
  predicate WatchedOfGenre(movies: seq<Movie>, history: seq<string>, h: nat, i: nat)
    requires h < |movies| && i < |movies|
  {
    TitleIn(movies[h], history) && SameGenre(movies[h], movies[i])
  }

  /** What the history loop adds to row `i` after visiting rows `h < k`
      (the watched row itself counted when `self` holds). */
  function HistoryGain(movies: seq<Movie>, history: seq<string>, i: nat, k: nat, self: bool): real
    requires i < |movies| && k <= |movies|
  {
    (if TitleIn(movies[i], history) && self then 0.2 else 0.0) + 0.1 * GenreHits(movies, history, i, k) as real
  }

  /** Each row whose title is in the history gains 0.2; every row gains 0.1 for
      each watched row of its genre. An empty history changes nothing. */
  function HistoryBoosted(s: seq<real>, movies: seq<Movie>, history: seq<string>): (r: seq<real>)
    requires |s| == |movies|
    ensures |r| == |s|
  {
    if history == [] then s
    else seq(|s|, i requires 0 <= i < |s| => s[i] + HistoryGain(movies, history, i, |movies|, true))
  }

  /** The history loop over the watched rows, in row order. */
  method HistoryBoost(scores: array<real>, movies: seq<Movie>, history: seq<string>)
    requires scores.Length == |movies|
    modifies scores
    ensures scores[..] == HistoryBoosted(old(scores[..]), movies, history)
  {
    if history != [] {
      var n := |movies|;
      var h := 0;
      assert forall i :: 0 <= i < n ==> HistoryGain(movies, history, i, 0, false) == 0.0;
      while h < n
        invariant h <= n
        invariant forall i :: 0 <= i < n ==> scores[i] == old(scores[i]) + HistoryGain(movies, history, i, h, i < h)
      {
        if TitleIn(movies[h], history) {
          scores[h] := scores[h] + 0.2;
          var j := 0;
          while j < n
            invariant j <= n
            invariant forall i :: 0 <= i < n ==>
              scores[i] == old(scores[i]) + HistoryGain(movies, history, i, h, i <= h) + (if i < j && SameGenre(movies[i], movies[h]) then 0.1 else 0.0)
          {
            if SameGenre(movies[j], movies[h]) {
              scores[j] := scores[j] + 0.1;
            }
            j := j + 1;
          }
        }
        h := h + 1;
      }
    }
  }

  lemma {:induction false} GenreHitsBounds(movies: seq<Movie>, history: seq<string>, i: nat, k: nat)
    requires i < |movies| && k <= |movies|
    ensures i < k && TitleIn(movies[i], history) && movies[i].genre.Some? ==> GenreHits(movies, history, i, k) >= 1
    ensures (forall h :: 0 <= h < k ==> !WatchedOfGenre(movies, history, h, i)) ==> GenreHits(movies, history, i, k) == 0
    decreases k
  {
    if k > 0 {
      GenreHitsBounds(movies, history, i, k - 1);
    }
  }

  /** The history boost never lowers a score; a watched row with a genre
      gains at least 0.3; a row that is not watched and shares no watched
      row's genre keeps its score. */
  lemma HistoryBoostedProperties(s: seq<real>, movies: seq<Movie>, history: seq<string>)
    requires |s| == |movies|
    ensures forall i :: 0 <= i < |s| ==> HistoryBoosted(s, movies, history)[i] >= s[i]
    ensures forall i :: 0 <= i < |s| && TitleIn(movies[i], history) && movies[i].genre.Some? ==>
      HistoryBoosted(s, movies, history)[i] >= s[i] + 0.3
    ensures forall i :: 0 <= i < |s| && !TitleIn(movies[i], history) && (forall h :: 0 <= h < |movies| ==> !WatchedOfGenre(movies, history, h, i)) ==>
      HistoryBoosted(s, movies, history)[i] == s[i]
  {
    forall i | 0 <= i < |s| {
      GenreHitsBounds(movies, history, i, |movies|);
    }
  }

  // ---------------------------------------------------------------------------
  // 4. classifier boost
  // ---------------------------------------------------------------------------

  /** A loaded mood classifier with its label encoders: the moods the mood
      encoder knows, and the movie id the model predicts for an encoded mood
      with context "alone" and time "evening" (`None` when an encoder or the
      model raises, which the source catches). */
  datatype Classifier = Classifier(moods: set<string>, predict: string -> Option<int>)

  /** The mood fed to the classifier: the request's mood if the encoder knows
      it, otherwise "neutral" if the encoder knows that, otherwise none (the
      encoder raises and the boost is skipped). */
  function EncodedMood(c: Classifier, mood: string): (r: Option<string>)
    ensures r.Some? ==> r.value in c.moods
    ensures r.Some? && r.value != mood ==> mood !in c.moods && r.value == "neutral"
    ensures r.None? <==> mood !in c.moods && "neutral" !in c.moods
  {
    if mood in c.moods then Some(mood)
    else if "neutral" in c.moods then Some("neutral")
    else None
  }

  /** The first row whose `movie_id` equals `id`. */
  function FirstWithId(movies: seq<Movie>, id: int): (r: Option<nat>)
    ensures r.Some? ==> r.value < |movies| && movies[r.value].movieId == id
    ensures r.Some? ==> forall j :: 0 <= j < r.value ==> movies[j].movieId != id
    ensures r.None? ==> forall j :: 0 <= j < |movies| ==> movies[j].movieId != id
    decreases |movies|
  {
    if movies == [] then None
    else if movies[0].movieId == id then Some(0)
    else match FirstWithId(movies[1..], id)
      case None => None
      case Some(j) => Some(j + 1)
  }

  /** The row the classifier boosts, if any. */
  function PredictedRow(classifier: Option<Classifier>, mood: string, movies: seq<Movie>): (r: Option<nat>)
    ensures r.Some? ==> r.value < |movies|
    ensures r.Some? ==> classifier.Some? && EncodedMood(classifier.value, mood).Some?
    ensures r.Some? ==> classifier.value.predict(EncodedMood(classifier.value, mood).value) == Some(movies[r.value].movieId)
    ensures r.Some? ==> forall j :: 0 <= j < r.value ==> movies[j].movieId != movies[r.value].movieId
    ensures r.None? ==>
      || classifier.None? || EncodedMood(classifier.value, mood).None?
      || classifier.value.predict(EncodedMood(classifier.value, mood).value).None?
      || (forall j :: 0 <= j < |movies| ==>
            Some(movies[j].movieId) != classifier.value.predict(EncodedMood(classifier.value, mood).value))
  {
    match classifier
    case None => None
    case Some(c) =>
      match EncodedMood(c, mood)
      case None => None
      case Some(em) =>
        match c.predict(em)
        case None => None
        case Some(id) => FirstWithId(movies, id)
  }

  /** The predicted row gains 0.5; every row of the predicted row's genre gains 0.2. */
  function ClassifierBoosted(s: seq<real>, movies: seq<Movie>, p: Option<nat>): (r: seq<real>)
    requires |s| == |movies| && (p.Some? ==> p.value < |movies|)
    ensures |r| == |s|
  {
    if p.None? then s
    else seq(|s|, i requires 0 <= i < |s| => s[i] + ClassifierGain(movies, p.value, i, |movies|))
  }

  /** What the classifier boost of row `q` adds to row `i` once the genre loop
      has visited rows below `j`. */
  function ClassifierGain(movies: seq<Movie>, q: nat, i: nat, j: nat): real
    requires q < |movies| && i < |movies|
  {
    (if i == q then 0.5 else 0.0) + (if i < j && SameGenre(movies[i], movies[q]) then 0.2 else 0.0)
  }

  method ClassifierBoost(scores: array<real>, movies: seq<Movie>, p: Option<nat>)
    requires scores.Length == |movies| && (p.Some? ==> p.value < |movies|)
    modifies scores
    ensures scores[..] == ClassifierBoosted(old(scores[..]), movies, p)
  {
    if p.Some? {
      var q := p.value;
      scores[q] := scores[q] + 0.5;
      var j := 0;
      while j < scores.Length
        invariant j <= scores.Length
        invariant forall i :: 0 <= i < scores.Length ==> scores[i] == old(scores[i]) + ClassifierGain(movies, q, i, j)
      {
        if SameGenre(movies[j], movies[q]) {
          scores[j] := scores[j] + 0.2;
        }
        j := j + 1;
      }
    }
  }

  /** The classifier boost never lowers a score; the predicted row gains at
      least 0.5 and 0.7 when it has a genre; a row of another genre keeps its score. */
  lemma ClassifierBoostedProperties(s: seq<real>, movies: seq<Movie>, p: Option<nat>)
    requires |s| == |movies| && (p.Some? ==> p.value < |movies|)
    ensures forall i :: 0 <= i < |s| ==> ClassifierBoosted(s, movies, p)[i] >= s[i]
    ensures p.Some? ==> ClassifierBoosted(s, movies, p)[p.value] >= s[p.value] + 0.5
    ensures p.Some? && movies[p.value].genre.Some? ==>
      ClassifierBoosted(s, movies, p)[p.value] == s[p.value] + 0.7
    ensures forall i :: 0 <= i < |s| && (p.None? || (i != p.value && !SameGenre(movies[i], movies[p.value]))) ==>
      ClassifierBoosted(s, movies, p)[i] == s[i]
  {
  }

  // ---------------------------------------------------------------------------
  // the whole live path
  // ---------------------------------------------------------------------------

  /** The extractor sent `null` under "mood" or under "tone". */
  predicate HasNull(info: MoodInfo) {
    info.mood.Null? || info.tone.Null?
  }

  /** `mood_info.get("mood", "neutral").lower()`, used to encode the mood. */
  function RequestMood(info: MoodInfo): string
    requires !info.mood.Null?
  {
    Lower(TextOr(info.mood, "neutral").value)
  }

  /** The normalised keyword scores of the catalogue for a prompt. */
  function KeywordScoresOf(movies: seq<Movie>, prompt: string): (r: seq<real>)
    requires |movies| > 0
    ensures |r| == |movies|
  {
    Normalised(RawScores(KeywordRows(movies), PromptWords(prompt)), 0.4)
  }

  /** For each row, how many of its keyword tokens are prompt words. */
  function MatchCounts(movies: seq<Movie>, prompt: string): (c: seq<nat>)
    ensures |c| == |movies|
  {
    seq(|movies|, i requires 0 <= i < |movies| => Matches(Keywords(movies[i]), PromptWords(prompt)))
  }

  /** A row's raw keyword score counts its keyword tokens that are prompt words. */
  lemma RawScoresCount(movies: seq<Movie>, prompt: string)
    ensures forall i :: 0 <= i < |movies| ==>
      RawScores(KeywordRows(movies), PromptWords(prompt))[i] == MatchCounts(movies, prompt)[i] as real
  {
    var ws := PromptWords(prompt);
    forall i | 0 <= i < |movies|
      ensures RawScores(KeywordRows(movies), ws)[i] == MatchCounts(movies, prompt)[i] as real
    {
      HitsAreMatches(Keywords(movies[i]), ws);
    }
  }

  /** Normalised keyword scores lie in [0, 0.4] and order the rows by how many
      of their keyword tokens are prompt words. */
  lemma KeywordScoresOrder(movies: seq<Movie>, prompt: string)
    requires |movies| > 0
    ensures forall i :: 0 <= i < |movies| ==> 0.0 <= KeywordScoresOf(movies, prompt)[i] <= 0.4
    ensures forall i, j :: 0 <= i < |movies| && 0 <= j < |movies| && MatchCounts(movies, prompt)[i] <= MatchCounts(movies, prompt)[j] ==>
      KeywordScoresOf(movies, prompt)[i] <= KeywordScoresOf(movies, prompt)[j]
  {
    RawScoresCount(movies, prompt);
    NormalisedCounts(RawScores(KeywordRows(movies), PromptWords(prompt)), MatchCounts(movies, prompt), 0.4);
  }

  /** Some row scores exactly 0.4 if and only if some row matched, and
      otherwise every row scores 0. */
  lemma KeywordScoresTop(movies: seq<Movie>, prompt: string)
    requires |movies| > 0
    ensures (exists i :: 0 <= i < |movies| && MatchCounts(movies, prompt)[i] > 0) <==>
      (exists i :: 0 <= i < |movies| && KeywordScoresOf(movies, prompt)[i] == 0.4)
    ensures (forall i :: 0 <= i < |movies| ==> MatchCounts(movies, prompt)[i] == 0) ==>
      forall i :: 0 <= i < |movies| ==> KeywordScoresOf(movies, prompt)[i] == 0.0
  {
    var raw := RawScores(KeywordRows(movies), PromptWords(prompt));
    var c := MatchCounts(movies, prompt);
    var k := KeywordScoresOf(movies, prompt);
    assert k == Normalised(raw, 0.4);
    RawScoresCount(movies, prompt);
    NormalisedCounts(raw, c, 0.4);
    assert (exists i :: 0 <= i < |c| && c[i] > 0) <==> (exists i :: 0 <= i < |c| && k[i] == 0.4);
  }

  /** `NormalisedProperties` for scores that are counts, stated on the counts. */
  lemma NormalisedCounts(raw: seq<real>, c: seq<nat>, ceiling: real)
    requires |raw| == |c| > 0 && ceiling > 0.0
    requires forall i :: 0 <= i < |c| ==> raw[i] == c[i] as real
    ensures forall i :: 0 <= i < |c| ==> 0.0 <= Normalised(raw, ceiling)[i] <= ceiling
    ensures forall i, j :: 0 <= i < |c| && 0 <= j < |c| && c[i] <= c[j] ==>
      Normalised(raw, ceiling)[i] <= Normalised(raw, ceiling)[j]
    ensures (exists i :: 0 <= i < |c| && c[i] > 0) <==> (exists i :: 0 <= i < |c| && Normalised(raw, ceiling)[i] == ceiling)
    ensures (forall i :: 0 <= i < |c| ==> c[i] == 0) ==> forall i :: 0 <= i < |c| ==> Normalised(raw, ceiling)[i] == 0.0
  {
    NormalisedProperties(raw, ceiling);
    var k := Normalised(raw, ceiling);
    if exists i :: 0 <= i < |c| && c[i] > 0 {
      var i :| 0 <= i < |c| && c[i] > 0;
      assert raw[i] > 0.0;
    }
    if exists i :: 0 <= i < |c| && k[i] == ceiling {
      var i :| 0 <= i < |c| && raw[i] > 0.0;
      assert c[i] > 0;
    }
  }

  /** The final score vector of the live path. */
  function FinalScores(movies: seq<Movie>, prompt: string, history: seq<string>,
                       classifier: Option<Classifier>, mood: string): (r: seq<real>)
    requires |movies| > 0
    ensures |r| == |movies|
  {
    ClassifierBoosted(HistoryBoosted(KeywordScoresOf(movies, prompt), movies, history), movies,
                      PredictedRow(classifier, mood, movies))
  }

  /** The boosts only add: every final score is at least the row's keyword
      score, so never negative; with no history and no prediction the final
      scores are the keyword scores. */
  lemma FinalScoresProperties(movies: seq<Movie>, prompt: string, history: seq<string>,
                              classifier: Option<Classifier>, mood: string)
    requires |movies| > 0
    ensures forall i :: 0 <= i < |movies| ==>
      FinalScores(movies, prompt, history, classifier, mood)[i] >= KeywordScoresOf(movies, prompt)[i] >= 0.0
    ensures history == [] && PredictedRow(classifier, mood, movies).None? ==>
      FinalScores(movies, prompt, history, classifier, mood) == KeywordScoresOf(movies, prompt)
  {
    KeywordScoresOrder(movies, prompt);
    var k := KeywordScoresOf(movies, prompt);
    HistoryBoostedProperties(k, movies, history);
    ClassifierBoostedProperties(HistoryBoosted(k, movies, history), movies, PredictedRow(classifier, mood, movies));
  }

  /** The live scoring steps on one fresh score array, as `get_recommendations` runs them. */
  method ScoreCatalogue(movies: seq<Movie>, index: Index, prompt: string, history: seq<string>,
                        classifier: Option<Classifier>, mood: string) returns (scores: seq<real>)
    requires |movies| > 0 && index == IndexOf(KeywordRows(movies))
    ensures scores == FinalScores(movies, prompt, history, classifier, mood)
  {
    var a := new real[|movies|](_ => 0.0);
    KeywordScores(a, index, PromptWords(prompt), KeywordRows(movies));
    Normalise(a, 0.4);
    HistoryBoost(a, movies, history);
    ClassifierBoost(a, movies, PredictedRow(classifier, mood, movies));
    scores := a[..];
  }

  // ---------------------------------------------------------------------------
  // top N and the two response shapes
  // ---------------------------------------------------------------------------

  /** `r` lists the rows of `movies` at a ranking of `scores` (distinct rows,
      by non-increasing score, none left out scoring higher), each with its
      score. */
  ghost predicate RankedRows(r: seq<Recommendation>, movies: seq<Movie>, scores: seq<real>)
    requires |scores| == |movies|
  {
    exists idx :: IsRanking(scores, idx) && |idx| == |r| &&
      (forall a :: 0 <= a < |r| ==> r[a] == ToRecommendation(movies[idx[a]], scores[idx[a]]))
  }

  /** `df.iloc[top_indices]` with `hybrid_score`. */
  function Ranked(movies: seq<Movie>, scores: seq<real>, topN: nat): (r: seq<Recommendation>)
    requires |scores| == |movies|
    ensures |r| == Min(topN, |movies|)
    ensures forall a, b :: 0 <= a < b < |r| ==> r[a].hybridScore >= r[b].hybridScore
    ensures forall a :: 0 <= a < |r| ==> exists i :: 0 <= i < |movies| && r[a] == ToRecommendation(movies[i], scores[i])
    ensures RankedRows(r, movies, scores)
  {
    TopIndicesRank(scores, topN);
    var idx := TopIndices(scores, topN);
    var r := Rows(movies, idx, scores);
    assert forall a :: 0 <= a < |r| ==> r[a].hybridScore == scores[idx[a]];
    r
  }

  /** The response of the live path. */
  function LiveResponse(userId: string, info: MoodInfo, users: seq<UserRow>, movies: seq<Movie>,
                        scores: seq<real>, topN: nat): (r: Response)
    requires |scores| == |movies|
    ensures r.userId == userId && r.extractedMood == info
    ensures r.userProfile == UserProfile(users, userId)
    ensures |r.recommendations| == Min(topN, |movies|)
    ensures RankedRows(r.recommendations, movies, scores)
  {
    Response(userId, info, UserProfile(users, userId), Ranked(movies, scores, topN))
  }

  /** The fallback: the `top_n` highest-rated rows (first rows first among
      equal ratings, as `nlargest` keeps them), each with score 0.5, a neutral
      mood and an empty profile: the listed rows are the catalogue rows at a
      ranking of the ratings. */
  function TopRatedFallback(userId: string, movies: seq<Movie>, topN: nat): (r: Response)
    ensures r.userId == userId && r.extractedMood == Neutral && r.userProfile == []
    ensures |r.recommendations| == Min(topN, |movies|)
    ensures forall a :: 0 <= a < |r.recommendations| ==> r.recommendations[a].hybridScore == 0.5
    ensures forall a, b :: 0 <= a < b < |r.recommendations| ==>
      r.recommendations[a].rating >= r.recommendations[b].rating
    ensures exists idx ::
      && IsRanking(Ratings(movies), idx) && |idx| == |r.recommendations|
      && (forall a :: 0 <= a < |r.recommendations| ==> r.recommendations[a] == ToRecommendation(movies[idx[a]], 0.5))
  {
    var s := Ratings(movies);
    TopIndicesRank(s, topN);
    var idx := TopIndices(s, topN);
    var recs := seq(|idx|, a requires 0 <= a < |idx| => ToRecommendation(movies[idx[a]], 0.5));
    Response(userId, Neutral, [], recs)
  }

  /** No catalogue row missing from the fallback has a higher rating than a
      row in it. */
  lemma FallbackIsTopRated(userId: string, movies: seq<Movie>, topN: nat, a: nat, u: nat)
    requires a < |TopRatedFallback(userId, movies, topN).recommendations| && u < |movies|
    requires ToRecommendation(movies[u], 0.5) !in TopRatedFallback(userId, movies, topN).recommendations
    ensures TopRatedFallback(userId, movies, topN).recommendations[a].rating >= movies[u].rating
  {
    var recs := TopRatedFallback(userId, movies, topN).recommendations;
    var s := Ratings(movies);
    var idx :| && IsRanking(s, idx) && |idx| == |recs|
               && (forall b :: 0 <= b < |recs| ==> recs[b] == ToRecommendation(movies[idx[b]], 0.5));
    assert u !in idx by {
      forall b | 0 <= b < |idx| ensures idx[b] != u {
        assert recs[b] in recs;
      }
    }
    assert s[idx[a]] >= s[u];
  }

  // ---------------------------------------------------------------------------
  // module state and one request
  // ---------------------------------------------------------------------------

  /** The data directory as the loaders see it: each CSV table, `None` when it
      cannot be read, and the classifier that loading the pickles (or, in the
      lazy variant, training one) yields, `None` when there is none. */
  datatype DataFiles = DataFiles(
    movies: Option<seq<Movie>>,
    users: Option<seq<UserRow>>,
    classifier: Option<Classifier>)

  /** The module globals `_movies_df`, `_users_df`, `_word_index`, the
      model/encoder pair and `_DATA_LOADED`. */
  datatype Globals = Globals(
    movies: Option<seq<Movie>>,
    users: Option<seq<UserRow>>,
    index: Index,
    classifier: Option<Classifier>,
    dataLoaded: bool)

  /** The globals as initialisation leaves them: the users table is only read
      after the movies table, and once it is, the index is built. */
  ghost predicate Coherent(g: Globals) {
    && (g.users.Some? ==> g.movies.Some? && g.index == IndexOf(KeywordRows(g.movies.value)))
    && (g.dataLoaded <==> g.users.Some?)
  }

  /** One call of `get_recommendations`: its arguments, plus what
      `extract_mood(user_prompt)` and `get_user_history(user_id)` return. */
  datatype Request = Request(
    userId: string,
    prompt: string,
    topN: nat,
    mood: MoodInfo,
    history: seq<string>)

  /** The live path: `None` when it raises (a `null` mood or tone, on which
      `.lower()` raises; no users table; or an empty catalogue, on which
      `scores.max()` raises), else the ranked response. */
  function Live(g: Globals, req: Request): (r: Option<Response>)
    requires Coherent(g)
    ensures r.Some? <==> !HasNull(req.mood) && g.users.Some? && |g.movies.value| > 0
  {
    if HasNull(req.mood) || g.users.None? || |g.movies.value| == 0 then None
    else
      var movies := g.movies.value;
      var scores := FinalScores(movies, req.prompt, req.history, g.classifier, RequestMood(req.mood));
      Some(LiveResponse(req.userId, req.mood, g.users.value, movies, scores, req.topN))
  }

  /** A live response echoes the request's mood and the user's profile rows,
      and lists min(top_n, n) distinct catalogue rows with their final scores,
      non-negative and non-increasing, none left out scoring higher than a
      listed one. */
  lemma LiveShape(g: Globals, req: Request)
    requires Coherent(g) && Live(g, req).Some?
    ensures Live(g, req).value.userId == req.userId && Live(g, req).value.extractedMood == req.mood
    ensures Live(g, req).value.userProfile == UserProfile(g.users.value, req.userId)
    ensures |Live(g, req).value.recommendations| == Min(req.topN, |g.movies.value|)
    ensures RankedRows(Live(g, req).value.recommendations, g.movies.value,
                       FinalScores(g.movies.value, req.prompt, req.history, g.classifier, RequestMood(req.mood)))
    ensures forall a, b :: 0 <= a < b < |Live(g, req).value.recommendations| ==>
      Live(g, req).value.recommendations[a].hybridScore >= Live(g, req).value.recommendations[b].hybridScore
    ensures forall a :: 0 <= a < |Live(g, req).value.recommendations| ==> Live(g, req).value.recommendations[a].hybridScore >= 0.0
  {
    var movies := g.movies.value;
    var scores := FinalScores(movies, req.prompt, req.history, g.classifier, RequestMood(req.mood));
    FinalScoresProperties(movies, req.prompt, req.history, g.classifier, RequestMood(req.mood));
    var recs := Ranked(movies, scores, req.topN);
    assert Live(g, req).value.recommendations == recs;
    forall a | 0 <= a < |recs| ensures recs[a].hybridScore >= 0.0 {
      var i :| 0 <= i < |movies| && recs[a] == ToRecommendation(movies[i], scores[i]);
    }
  }
}
