/** The ultra-light variant (`recommender_ultra_light.py`): nothing is loaded
    at import; the first request reads both tables and precomputes a
    movie-by-movie similarity from a binary matrix over the 50 most common
    words. A request scores rows by how many distinct prompt words their text
    shares, divides by the best score, adds 0.3 times the similarity row of
    each watched title and returns the top rows; on an exception it returns
    the first rows of the table, or an empty list. */
module UltraLight {
  import opened Text
  import opened Catalog
  import opened Ranking
  import opened HybridScoring

  // ---------------------------------------------------------------------
  // Vocabulary: `Counter(...).most_common(50)` over every row's tokens
  // ---------------------------------------------------------------------

  /** Every row's `text.split()` tokens, row after row, as the counter sees them. */
  function AllTokens(movies: seq<Movie>): seq<string>
    decreases |movies|
  {
    if movies == [] then [] else AllTokens(movies[..|movies| - 1]) + Keywords(movies[|movies| - 1])
  }

  lemma {:induction false} AllTokensFrom(movies: seq<Movie>, w: string)
    ensures w in AllTokens(movies) <==> exists i :: 0 <= i < |movies| && w in Keywords(movies[i])
    decreases |movies|
  {
    if movies != [] {
      var init := movies[..|movies| - 1];
      var last := Keywords(movies[|movies| - 1]);
      AllTokensFrom(init, w);
      assert AllTokens(movies) == AllTokens(init) + last;
      assert w in AllTokens(movies) <==> w in AllTokens(init) || w in last;
      if exists i :: 0 <= i < |init| && w in Keywords(init[i]) {
        var i :| 0 <= i < |init| && w in Keywords(init[i]);
        assert movies[i] == init[i];
      }
      if exists i :: 0 <= i < |movies| && w in Keywords(movies[i]) {
        var i :| 0 <= i < |movies| && w in Keywords(movies[i]);
        if i < |init| {
          assert init[i] == movies[i];
        }
      }
    }
  }

  /** The counter's keys in insertion order (first occurrence). */
  function Distinct(movies: seq<Movie>): seq<string> {
    Dedup(AllTokens(movies))
  }

  /** The count of each distinct word. */
  function WordCounts(movies: seq<Movie>): (c: seq<real>)
    ensures |c| == |Distinct(movies)|
  {
    var d := Distinct(movies);
    seq(|d|, i requires 0 <= i < |d| => multiset(AllTokens(movies))[d[i]] as real)
  }

  /** `[word for word, _ in word_counts.most_common(50)]`: the most frequent
      words, most frequent first; `most_common` keeps insertion order among
      equal counts. */
  function TopWords(movies: seq<Movie>): (vocab: seq<string>)
    ensures |vocab| == Min(50, |Distinct(movies)|)
  {
    var c := WordCounts(movies);
    TopIndicesRank(c, 50);
    var top := TopIndices(c, 50);
    seq(|top|, a requires 0 <= a < |top| => Distinct(movies)[top[a]])
  }

  /** How often `w` occurs over all rows. */
  function Count(movies: seq<Movie>, w: string): nat {
    multiset(AllTokens(movies))[w]
  }

  /** Top word `a` is the distinct word ranked `a`-th by count. */
  lemma TopWordsAt(movies: seq<Movie>)
    ensures IsRanking(WordCounts(movies), TopIndices(WordCounts(movies), 50))
    ensures |TopIndices(WordCounts(movies), 50)| == |TopWords(movies)|
    ensures forall a :: 0 <= a < |TopWords(movies)| ==>
      TopIndices(WordCounts(movies), 50)[a] < |Distinct(movies)| &&
      TopWords(movies)[a] == Distinct(movies)[TopIndices(WordCounts(movies), 50)[a]]
  {
    TopIndicesRank(WordCounts(movies), 50);
  }

  /** The top words are at most 50 distinct words, each a token of some row. */
  lemma TopWordsFromCatalogue(movies: seq<Movie>)
    ensures |TopWords(movies)| <= 50 && NoDup(TopWords(movies))
    ensures forall a :: 0 <= a < |TopWords(movies)| ==>
      exists i :: 0 <= i < |movies| && TopWords(movies)[a] in Keywords(movies[i])
  {
    TopWordsAt(movies);
    var v := TopWords(movies);
    var d := Distinct(movies);
    forall a | 0 <= a < |v|
      ensures exists i :: 0 <= i < |movies| && v[a] in Keywords(movies[i])
    {
      AllTokensFrom(movies, v[a]);
    }
  }

  /** The count of the `u`-th distinct word. */
  lemma CountOf(movies: seq<Movie>, u: nat)
    requires u < |Distinct(movies)|
    ensures WordCounts(movies)[u] == Count(movies, Distinct(movies)[u]) as real
  {
  }

  /** The top words come by non-increasing count. */
  lemma TopWordsOrdered(movies: seq<Movie>)
    ensures forall a, b :: 0 <= a < b < |TopWords(movies)| ==>
      Count(movies, TopWords(movies)[a]) >= Count(movies, TopWords(movies)[b])
  {
    TopWordsAt(movies);
    var v := TopWords(movies);
    var c := WordCounts(movies);
    var top := TopIndices(c, 50);
    forall a, b | 0 <= a < b < |v|
      ensures Count(movies, v[a]) >= Count(movies, v[b])
    {
      assert c[top[a]] >= c[top[b]];
      CountOf(movies, top[a]);
      CountOf(movies, top[b]);
    }
  }

  /** No word left out occurs more often than any word kept. */
  lemma TopWordsDominate(movies: seq<Movie>, w: string, a: nat)
    requires w in AllTokens(movies) && w !in TopWords(movies) && a < |TopWords(movies)|
    ensures Count(movies, w) <= Count(movies, TopWords(movies)[a])
  {
    TopWordsAt(movies);
    var v := TopWords(movies);
    var d := Distinct(movies);
    var c := WordCounts(movies);
    var top := TopIndices(c, 50);
    var u :| 0 <= u < |d| && d[u] == w;
    assert c[u] <= c[top[a]];
    CountOf(movies, u);
    CountOf(movies, top[a]);
  }

  /** With at most 50 distinct words, every word is a top word. */
  lemma TopWordsAll(movies: seq<Movie>)
    requires |Distinct(movies)| <= 50
    ensures forall w :: w in AllTokens(movies) ==> w in TopWords(movies)
  {
    TopWordsAt(movies);
    var v := TopWords(movies);
    var d := Distinct(movies);
    var c := WordCounts(movies);
    var top := TopIndices(c, 50);
    TopIndicesAll(c, 50);
    forall w | w in AllTokens(movies) ensures w in v {
      var u :| 0 <= u < |d| && d[u] == w;
      assert u in top;
      var a :| 0 <= a < |top| && top[a] == u;
      assert v[a] == w;
    }
  }

  // ---------------------------------------------------------------------
  // The binary matrix, its normalised rows and the similarity
  // ---------------------------------------------------------------------

  /** Every row of `m` has `width` entries. */
  predicate Rectangular(m: seq<seq<real>>, width: nat) {
    forall i :: 0 <= i < |m| ==> |m[i]| == width
  }

  /** `matrix[i, j] = 1.0` exactly when top word `j` is among row `i`'s tokens. */
  function Binary(movies: seq<Movie>, vocab: seq<string>): (b: seq<seq<real>>)
    ensures |b| == |movies| && Rectangular(b, |vocab|)
  {
    seq(|movies|, i requires 0 <= i < |movies| =>
      seq(|vocab|, j requires 0 <= j < |vocab| => if vocab[j] in Keywords(movies[i]) then 1.0 else 0.0))
  }

  function Dot(a: seq<real>, b: seq<real>): real
    requires |a| == |b|
    decreases |a|
  {
    if a == [] then 0.0 else Dot(a[..|a| - 1], b[..|b| - 1]) + a[|a| - 1] * b[|b| - 1]
  }

  /** A row's norm, `root` standing for the square root, with a zero norm
      replaced by 1 (`norms[norms == 0] = 1`). */
  function Norm(row: seq<real>, root: real -> real): (n: real)
    ensures n != 0.0
  {
    var r := root(Dot(row, row));
    if r == 0.0 then 1.0 else r
  }

  /** Every entry divided by `n`. */
  function Over(row: seq<real>, n: real): (u: seq<real>)
    requires n != 0.0
    ensures |u| == |row|
  {
    seq(|row|, j requires 0 <= j < |row| => row[j] / n)
  }

  /** `matrix / norms`, row by row. */
  function UnitRows(m: seq<seq<real>>, root: real -> real): (u: seq<seq<real>>)
    ensures |u| == |m|
    ensures forall i :: 0 <= i < |m| ==> |u[i]| == |m[i]|
  {
    seq(|m|, i requires 0 <= i < |m| => Over(m[i], Norm(m[i], root)))
  }

  /** `np.dot(matrix, matrix.T)` */
  function Gram(m: seq<seq<real>>, width: nat): (g: seq<seq<real>>)
    requires Rectangular(m, width)
    ensures |g| == |m| && Rectangular(g, |m|)
  {
    seq(|m|, i requires 0 <= i < |m| => seq(|m|, k requires 0 <= k < |m| => Dot(m[i], m[k])))
  }

  /** The normalised binary matrix over the top words. */
  function Features(movies: seq<Movie>, root: real -> real): (f: seq<seq<real>>)
    ensures |f| == |movies| && Rectangular(f, |TopWords(movies)|)
  {
    UnitRows(Binary(movies, TopWords(movies)), root)
  }

  /** The similarity matrix `_compute_simple_similarity` returns. */
  function Similarity(movies: seq<Movie>, root: real -> real): (s: seq<seq<real>>)
    ensures |s| == |movies| && Rectangular(s, |movies|)
  {
    Gram(Features(movies, root), |TopWords(movies)|)
  }

  lemma {:induction false} DotSymmetric(a: seq<real>, b: seq<real>)
    requires |a| == |b|
    ensures Dot(a, b) == Dot(b, a)
    decreases |a|
  {
    if a != [] {
      DotSymmetric(a[..|a| - 1], b[..|b| - 1]);
    }
  }

  lemma {:induction false} DotZero(a: seq<real>, b: seq<real>)
    requires |a| == |b| && forall j :: 0 <= j < |b| ==> b[j] == 0.0
    ensures Dot(a, b) == 0.0
    decreases |a|
  {
    if a != [] {
      DotZero(a[..|a| - 1], b[..|b| - 1]);
    }
  }

  /** For 0/1 entries the squared norm is non-negative, and zero exactly for
      an all-zero row. */
  lemma {:induction false} DotBinary(a: seq<real>)
    requires forall j :: 0 <= j < |a| ==> a[j] == 0.0 || a[j] == 1.0
    ensures Dot(a, a) >= 0.0
    ensures Dot(a, a) == 0.0 <==> forall j :: 0 <= j < |a| ==> a[j] == 0.0
    decreases |a|
  {
    if a != [] {
      var init := a[..|a| - 1];
      DotBinary(init);
      assert forall j :: 0 <= j < |init| ==> init[j] == a[j];
    }
  }

  lemma DivMul(x: real, y: real, n: real, m: real)
    requires n != 0.0 && m != 0.0
    ensures (x / n) * (y / m) == (x * y) / (n * m)
  {
  }

  lemma {:induction false} DotOver(a: seq<real>, b: seq<real>, n: real, m: real)
    requires |a| == |b| && n != 0.0 && m != 0.0
    ensures Dot(Over(a, n), Over(b, m)) == Dot(a, b) / (n * m)
    decreases |a|
  {
    if a != [] {
      var k := |a| - 1;
      var oa, ob := Over(a, n), Over(b, m);
      DotOver(a[..k], b[..k], n, m);
      OverPrefix(a, n);
      OverPrefix(b, m);
      DotOverStep(Dot(oa, ob), Dot(a, b), Dot(oa[..k], ob[..k]), Dot(a[..k], b[..k]), a[k], b[k], oa[k], ob[k], n, m);
    }
  }

  /** Dividing a non-empty row keeps its prefix divided and its last entry divided. */
  lemma OverPrefix(a: seq<real>, n: real)
    requires n != 0.0 && |a| > 0
    ensures Over(a, n)[..|a| - 1] == Over(a[..|a| - 1], n)
    ensures Over(a, n)[|a| - 1] == a[|a| - 1] / n
  {
  }

  /** One step of `DotOver`: a scaled partial sum plus one scaled product. */
  lemma DotOverStep(p: real, t: real, q: real, d: real, x: real, y: real, ox: real, oy: real, n: real, m: real)
    requires n != 0.0 && m != 0.0
    requires q == d / (n * m) && ox == x / n && oy == y / m
    requires p == q + ox * oy && t == d + x * y
    ensures p == t / (n * m)
  {
    DivMul(x, y, n, m);
    AddDiv(d, x * y, n * m);
  }

  lemma AddDiv(x: real, y: real, d: real)
    requires d != 0.0
    ensures (x + y) / d == x / d + y / d
  {
  }

  /** The similarity is symmetric. */
  lemma SimilaritySymmetric(movies: seq<Movie>, root: real -> real, i: nat, k: nat)
    requires i < |movies| && k < |movies|
    ensures Similarity(movies, root)[i][k] == Similarity(movies, root)[k][i]
  {
    var f := Features(movies, root);
    DotSymmetric(f[i], f[k]);
  }

  /** After normalisation a row keeps its zero pattern: an entry is zero
      exactly when the row lacks that top word. */
  lemma FeatureZeros(movies: seq<Movie>, root: real -> real, i: nat)
    requires i < |movies|
    ensures forall j :: 0 <= j < |TopWords(movies)| ==>
      (Features(movies, root)[i][j] == 0.0 <==> TopWords(movies)[j] !in Keywords(movies[i]))
  {
    var v := TopWords(movies);
    var b := Binary(movies, v);
    var f := Features(movies, root);
    var n := Norm(b[i], root);
    assert f[i] == Over(b[i], n);
    forall j | 0 <= j < |v|
      ensures f[i][j] == 0.0 <==> v[j] !in Keywords(movies[i])
    {
      assert f[i][j] == b[i][j] / n;
      DivZero(b[i][j], n);
    }
  }

  lemma DivZero(x: real, n: real)
    requires n != 0.0
    ensures x / n == 0.0 <==> x == 0.0
  {
  }

  /** A row holding none of the top words stays an all-zero row after
      normalisation, so it is similar to nothing: its row and column of the
      similarity are zero. */
  lemma ZeroRowsStayZero(movies: seq<Movie>, root: real -> real, i: nat)
    requires i < |movies|
    requires forall j :: 0 <= j < |TopWords(movies)| ==> TopWords(movies)[j] !in Keywords(movies[i])
    ensures forall k :: 0 <= k < |movies| ==> Similarity(movies, root)[i][k] == 0.0 && Similarity(movies, root)[k][i] == 0.0
  {
    FeatureZeros(movies, root, i);
    var f := Features(movies, root);
    forall k | 0 <= k < |movies|
      ensures Similarity(movies, root)[i][k] == 0.0 && Similarity(movies, root)[k][i] == 0.0
    {
      DotZero(f[k], f[i]);
      DotSymmetric(f[k], f[i]);
    }
  }

  /** With a true square root at the row's squared norm, a row holding some
      top word is a unit vector: its self-similarity is 1. */
  lemma UnitDiagonal(movies: seq<Movie>, root: real -> real, i: nat)
    requires i < |movies|
    requires exists j :: 0 <= j < |TopWords(movies)| && TopWords(movies)[j] in Keywords(movies[i])
    requires var b := Binary(movies, TopWords(movies))[i]; root(Dot(b, b)) * root(Dot(b, b)) == Dot(b, b)
    ensures Similarity(movies, root)[i][i] == 1.0
  {
    var v := TopWords(movies);
    var b := Binary(movies, v)[i];
    var j :| 0 <= j < |v| && v[j] in Keywords(movies[i]);
    assert b[j] == 1.0;
    assert forall x :: 0 <= x < |b| ==> b[x] == (if v[x] in Keywords(movies[i]) then 1.0 else 0.0);
    UnitVector(b, root, j);
    var f := Features(movies, root);
    assert f[i] == Over(b, Norm(b, root));
  }

  lemma UnitVector(b: seq<real>, root: real -> real, j: nat)
    requires forall x :: 0 <= x < |b| ==> b[x] == 0.0 || b[x] == 1.0
    requires j < |b| && b[j] == 1.0
    requires root(Dot(b, b)) * root(Dot(b, b)) == Dot(b, b)
    ensures Dot(Over(b, Norm(b, root)), Over(b, Norm(b, root))) == 1.0
  {
    DotBinary(b);
    UnitScale(b, Dot(b, b), root(Dot(b, b)));
  }

  lemma UnitScale(b: seq<real>, s: real, r: real)
    requires s == Dot(b, b) && s != 0.0 && r * r == s
    ensures r != 0.0
    ensures Dot(Over(b, r), Over(b, r)) == 1.0
  {
    DotOver(b, b, r, r);
    DivSelf(s, r * r);
  }

  lemma DivSelf(x: real, y: real)
    requires x == y && y != 0.0
    ensures x / y == 1.0
  {
  }

  /** `np.sqrt` never returns a negative number; under that assumption every
      similarity is non-negative. */
  ghost predicate NonNegativeRoot(root: real -> real) {
    forall x :: root(x) >= 0.0
  }

  lemma {:induction false} DotNonNegative(a: seq<real>, b: seq<real>)
    requires |a| == |b|
    requires forall j :: 0 <= j < |a| ==> a[j] >= 0.0 && b[j] >= 0.0
    ensures Dot(a, b) >= 0.0
    decreases |a|
  {
    if a != [] {
      DotNonNegative(a[..|a| - 1], b[..|b| - 1]);
    }
  }

  lemma SimilarityNonNegative(movies: seq<Movie>, root: real -> real, i: nat, k: nat)
    requires NonNegativeRoot(root) && i < |movies| && k < |movies|
    ensures Similarity(movies, root)[i][k] >= 0.0
  {
    var b := Binary(movies, TopWords(movies));
    var f := Features(movies, root);
    forall j | 0 <= j < |TopWords(movies)|
      ensures f[i][j] >= 0.0 && f[k][j] >= 0.0
    {
      assert f[i][j] == b[i][j] / Norm(b[i], root);
      assert f[k][j] == b[k][j] / Norm(b[k], root);
    }
    DotNonNegative(f[i], f[k]);
  }

  // ---------------------------------------------------------------------
  // Request scoring
  // ---------------------------------------------------------------------

  /** `len(prompt_words & movie_words)`, with the prompt words listed once each. */
  function Overlap(ws: seq<string>, kw: seq<string>): nat
    decreases |ws|
  {
    if ws == [] then 0 else Overlap(ws[..|ws| - 1], kw) + (if ws[|ws| - 1] in kw then 1 else 0)
  }

  /** Counting the listed prompt words found among the row's tokens is the
      size of the intersection of the two word sets; it is positive exactly
      when they share a word, and at most the number of prompt words. */
  lemma {:induction false} OverlapIsIntersection(ws: seq<string>, kw: seq<string>)
    requires NoDup(ws)
    ensures Overlap(ws, kw) == |(set w | w in ws) * (set t | t in kw)|
    ensures Overlap(ws, kw) > 0 <==> exists w :: w in ws && w in kw
    ensures Overlap(ws, kw) <= |ws|
    decreases |ws|
  {
    if ws != [] {
      var k := |ws| - 1;
      var init := ws[..k];
      var x := ws[k];
      assert NoDup(init);
      OverlapIsIntersection(init, kw);
      assert ws == init + [x];
      assert x !in init;
      assert forall w :: w in ws <==> w in init || w == x;
      IntersectOneMore(init, x, kw);
    }
  }

  lemma IntersectOneMore(init: seq<string>, x: string, kw: seq<string>)
    requires x !in init
    ensures |(set w | w in init + [x]) * (set t | t in kw)| ==
      |(set w | w in init) * (set t | t in kw)| + (if x in kw then 1 else 0)
  {
    var a := set w | w in init;
    var t := set w | w in kw;
    assert (set w | w in init + [x]) == a + {x};
    assert x !in a;
    if x in kw {
      assert (a + {x}) * t == a * t + {x};
    } else {
      assert (a + {x}) * t == a * t;
    }
  }

  /** The overlap score of every row. */
  function Overlaps(movies: seq<Movie>, prompt: string): (r: seq<real>)
    ensures |r| == |movies|
  {
    seq(|movies|, i requires 0 <= i < |movies| => Overlap(PromptWords(prompt), Keywords(movies[i])) as real)
  }

  /** Every square matrix over the catalogue rows. */
  predicate Square(sim: seq<seq<real>>, n: nat) {
    |sim| == n && Rectangular(sim, n)
  }

  /** What the watched rows among the first `k` add to row `j`: 0.3 times
      their similarity to it. */
  function SimGain(sim: seq<seq<real>>, movies: seq<Movie>, history: seq<string>, j: nat, k: nat): real
    requires Square(sim, |movies|) && j < |movies| && k <= |movies|
    decreases k
  {
    if k == 0 then 0.0
    else SimGain(sim, movies, history, j, k - 1) + (if TitleIn(movies[k - 1], history) then sim[k - 1][j] * 0.3 else 0.0)
  }

  /** `scores += _similarity_matrix[idx] * 0.3` for every watched row. */
  function Boosted(s: seq<real>, sim: seq<seq<real>>, movies: seq<Movie>, history: seq<string>): (r: seq<real>)
    requires |s| == |movies| && Square(sim, |movies|)
    ensures |r| == |s|
  {
    seq(|s|, j requires 0 <= j < |s| => s[j] + SimGain(sim, movies, history, j, |movies|))
  }

  lemma {:induction false} SimGainZero(sim: seq<seq<real>>, movies: seq<Movie>, history: seq<string>, j: nat, k: nat)
    requires Square(sim, |movies|) && j < |movies| && k <= |movies|
    requires forall h :: 0 <= h < k && TitleIn(movies[h], history) ==> sim[h][j] == 0.0
    ensures SimGain(sim, movies, history, j, k) == 0.0
    decreases k
  {
    if k > 0 {
      SimGainZero(sim, movies, history, j, k - 1);
    }
  }

  lemma {:induction false} SimGainAtLeast(sim: seq<seq<real>>, movies: seq<Movie>, history: seq<string>, j: nat, k: nat)
    requires Square(sim, |movies|) && j < |movies| && k <= |movies|
    requires forall h :: 0 <= h < k ==> sim[h][j] >= 0.0
    ensures SimGain(sim, movies, history, j, k) >= 0.0
    ensures j < k && TitleIn(movies[j], history) ==> SimGain(sim, movies, history, j, k) >= sim[j][j] * 0.3
    decreases k
  {
    if k > 0 {
      SimGainAtLeast(sim, movies, history, j, k - 1);
    }
  }

  /** The final scores of a request over a non-empty catalogue. */
  function Scores(movies: seq<Movie>, root: real -> real, prompt: string, history: seq<string>): (r: seq<real>)
    requires |movies| > 0
    ensures |r| == |movies|
  {
    Boosted(Normalised(Overlaps(movies, prompt), 1.0), Similarity(movies, root), movies, history)
  }

  /** Before the history boost a score lies in [0, 1], keeps the order of the
      overlaps, and some row scores exactly 1 exactly when some row shares a
      word with the prompt. */
  lemma OverlapScoresProperties(movies: seq<Movie>, prompt: string)
    requires |movies| > 0
    ensures forall i :: 0 <= i < |movies| ==> 0.0 <= Normalised(Overlaps(movies, prompt), 1.0)[i] <= 1.0
    ensures forall i, j :: 0 <= i < |movies| && 0 <= j < |movies| && Overlaps(movies, prompt)[i] <= Overlaps(movies, prompt)[j] ==>
      Normalised(Overlaps(movies, prompt), 1.0)[i] <= Normalised(Overlaps(movies, prompt), 1.0)[j]
    ensures (exists i :: 0 <= i < |movies| && Normalised(Overlaps(movies, prompt), 1.0)[i] == 1.0) <==>
      exists i, w :: 0 <= i < |movies| && w in PromptWords(prompt) && w in Keywords(movies[i])
  {
    var o := Overlaps(movies, prompt);
    var ws := PromptWords(prompt);
    NormalisedProperties(o, 1.0);
    forall i | 0 <= i < |movies|
      ensures o[i] > 0.0 <==> exists w :: w in ws && w in Keywords(movies[i])
    {
      OverlapIsIntersection(ws, Keywords(movies[i]));
    }
  }

  /** The history boost: nothing changes when no watched title is in the
      catalogue, nor for a row holding none of the top words; with a
      non-negative square root no score goes down, and a watched row holding
      a top word gains at least 0.3 when the root is exact at its squared norm. */
  lemma BoostProperties(movies: seq<Movie>, root: real -> real, s: seq<real>, history: seq<string>, j: nat)
    requires |s| == |movies| && j < |movies|
    ensures (forall h :: 0 <= h < |movies| ==> !TitleIn(movies[h], history)) ==>
      Boosted(s, Similarity(movies, root), movies, history) == s
    ensures (forall x :: 0 <= x < |TopWords(movies)| ==> TopWords(movies)[x] !in Keywords(movies[j])) ==>
      Boosted(s, Similarity(movies, root), movies, history)[j] == s[j]
    ensures NonNegativeRoot(root) ==> Boosted(s, Similarity(movies, root), movies, history)[j] >= s[j]
  {
    var sim := Similarity(movies, root);
    if forall h :: 0 <= h < |movies| ==> !TitleIn(movies[h], history) {
      forall x | 0 <= x < |movies| ensures SimGain(sim, movies, history, x, |movies|) == 0.0 {
        SimGainZero(sim, movies, history, x, |movies|);
      }
    }
    if forall x :: 0 <= x < |TopWords(movies)| ==> TopWords(movies)[x] !in Keywords(movies[j]) {
      ZeroRowsStayZero(movies, root, j);
      SimGainZero(sim, movies, history, j, |movies|);
    }
    if NonNegativeRoot(root) {
      forall h | 0 <= h < |movies| ensures sim[h][j] >= 0.0 {
        SimilarityNonNegative(movies, root, h, j);
      }
      SimGainAtLeast(sim, movies, history, j, |movies|);
    }
  }

  /** A watched row holding a top word gains at least 0.3 from its own
      similarity when the root is non-negative and exact at its squared norm. */
  lemma WatchedRowGains(movies: seq<Movie>, root: real -> real, s: seq<real>, history: seq<string>, j: nat)
    requires |s| == |movies| && j < |movies| && TitleIn(movies[j], history) && NonNegativeRoot(root)
    requires exists x :: 0 <= x < |TopWords(movies)| && TopWords(movies)[x] in Keywords(movies[j])
    requires var b := Binary(movies, TopWords(movies))[j]; root(Dot(b, b)) * root(Dot(b, b)) == Dot(b, b)
    ensures Boosted(s, Similarity(movies, root), movies, history)[j] >= s[j] + 0.3
  {
    var sim := Similarity(movies, root);
    UnitDiagonal(movies, root, j);
    forall h | 0 <= h < |movies| ensures sim[h][j] >= 0.0 {
      SimilarityNonNegative(movies, root, h, j);
    }
    SimGainAtLeast(sim, movies, history, j, |movies|);
  }

  // ---------------------------------------------------------------------
  // Loading and serving
  // ---------------------------------------------------------------------

  /** `_movies_df` and `_users_df`; the similarity is stored exactly when the
      users table is. */
  datatype Loaded = Loaded(movies: Option<seq<Movie>>, users: Option<seq<UserRow>>)

  predicate LoadedCoherent(st: Loaded) {
    st.users.Some? ==> st.movies.Some?
  }

  /** `_load_data`: nothing to do once the movies table is set; otherwise read
      it, then the users table, then compute the similarity. A failed read
      raises; a failed users read leaves the movies table set. The second
      component says whether it returned normally. */
  function AfterLoad(st: Loaded, files: DataFiles): (r: (Loaded, bool))
    ensures r.1 ==> r.0.movies.Some?
  {
    if st.movies.Some? then (st, true)
    else if files.movies.None? then (st, false)
    else if files.users.None? then (Loaded(files.movies, None), false)
    else (Loaded(files.movies, files.users), true)
  }

  /** Loading is idempotent and, once the movies table is set, ignores the
      files; it keeps the state coherent. */
  lemma LoadOnce(st: Loaded, files: DataFiles, later: DataFiles)
    ensures st.movies.Some? ==> AfterLoad(st, later) == (st, true)
    ensures AfterLoad(AfterLoad(st, files).0, files).0 == AfterLoad(st, files).0
    ensures LoadedCoherent(st) ==> LoadedCoherent(AfterLoad(st, files).0)
    ensures AfterLoad(st, files).1 <==> st.movies.Some? || (files.movies.Some? && files.users.Some?)
  {
  }

  /** The fallback: `_movies_df.head(top_n)` with score 0.5, a neutral mood
      and an empty profile. */
  function HeadFallback(userId: string, movies: seq<Movie>, topN: nat): (r: Response)
    ensures r.userId == userId && r.extractedMood == Neutral && r.userProfile == []
    ensures |r.recommendations| == Min(topN, |movies|)
    ensures forall a :: 0 <= a < |r.recommendations| ==> r.recommendations[a] == ToRecommendation(movies[a], 0.5)
  {
    Response(userId, Neutral, [], seq(Min(topN, |movies|), a requires 0 <= a < Min(topN, |movies|) => ToRecommendation(movies[a], 0.5)))
  }

  /** The last resort when even the fallback raises. */
  function EmptyReply(userId: string): Response {
    Response(userId, Neutral, [], [])
  }

  /** `get_recommendations`: load, then score live; on an exception (among
      them `.lower()` on a `null` mood) load again and answer with the first
      rows, or with nothing. No exception escapes. Returns the response and
      the new state. */
  function Serve(st: Loaded, files: DataFiles, root: real -> real, req: Request): (Response, Loaded) {
    var (st1, ok) := AfterLoad(st, files);
    if ok && !req.mood.mood.Null? && st1.users.Some? && |st1.movies.value| > 0 then
      var m := st1.movies.value;
      (Response(req.userId, req.mood, UserProfile(st1.users.value, req.userId), Ranked(m, Scores(m, root, req.prompt, req.history), req.topN)), st1)
    else
      var (st2, ok2) := AfterLoad(st1, files);
      if ok2 then (HeadFallback(req.userId, st2.movies.value, req.topN), st2)
      else (EmptyReply(req.userId), st2)
  }

  /** With both tables loaded, a non-empty catalogue and a mood that is not
      `null` the request is scored live; a `null` mood or an empty catalogue
      gets the head; the reply is empty only when the movies table was never
      loaded and cannot be read, which leaves the state as it was. */
  lemma ServeOutcome(st: Loaded, files: DataFiles, root: real -> real, req: Request)
    requires LoadedCoherent(st)
    ensures var (r, st1) := Serve(st, files, root, req);
      st.users.Some? && |st.movies.value| > 0 && !req.mood.mood.Null? ==>
      st1 == st && r.extractedMood == req.mood && r.userProfile == UserProfile(st.users.value, req.userId) &&
      r.recommendations == Ranked(st.movies.value, Scores(st.movies.value, root, req.prompt, req.history), req.topN)
    ensures var (r, st1) := Serve(st, files, root, req);
      st1.movies.Some? && (req.mood.mood.Null? || |st1.movies.value| == 0) ==>
      r == HeadFallback(req.userId, st1.movies.value, req.topN)
    ensures var (r, st1) := Serve(st, files, root, req);
      st1.movies.Some? ==> |r.recommendations| == Min(req.topN, |st1.movies.value|)
    ensures var (r, st1) := Serve(st, files, root, req);
      st1.movies.None? <==> st.movies.None? && files.movies.None?
    ensures var (r, st1) := Serve(st, files, root, req);
      st1.movies.None? ==> r == EmptyReply(req.userId) && st1 == st
    ensures var (r, st1) := Serve(st, files, root, req);
      st == Loaded(None, None) && files.movies.Some? && files.users.Some? && |files.movies.value| > 0 && !req.mood.mood.Null? ==>
      st1 == Loaded(files.movies, files.users) &&
      r.recommendations == Ranked(files.movies.value, Scores(files.movies.value, root, req.prompt, req.history), req.topN)
    ensures LoadedCoherent(Serve(st, files, root, req).1)
  {
  }

  /** After a failed users read the movies table stays set, so `_load_data`
      never reads the users table again: every later request is answered
      with the first rows of the table, whatever the files now hold. */
  lemma PartialLoadSticks(movies: seq<Movie>, files: DataFiles, root: real -> real, req: Request)
    ensures Serve(Loaded(Some(movies), None), files, root, req) ==
      (HeadFallback(req.userId, movies, req.topN), Loaded(Some(movies), None))
  {
  }

  // ---------------------------------------------------------------------
  // The top-word column, as written
  // ---------------------------------------------------------------------

  /** `_movies_df`, `_users_df`, and whether `_similarity_matrix` was stored. */
  datatype LoadedAsWritten = LoadedAsWritten(movies: Option<seq<Movie>>, users: Option<seq<UserRow>>, similarityStored: bool)

  /** `_movies_df['top_words'] = top_words`: pandas accepts a list as a column
      only when it has one entry per row, and raises `ValueError` otherwise. */
  predicate TopWordsColumnFits(movies: seq<Movie>) {
    |TopWords(movies)| == |movies|
  }

  /** `_load_data` as written: the column assignment at the end of
      `_compute_simple_similarity` raises unless the top words happen to be
      as many as the rows, and then `_similarity_matrix` is never assigned
      while both tables stay set. */
  function AfterLoadAsWritten(st: LoadedAsWritten, files: DataFiles): (r: (LoadedAsWritten, bool)) {
    if st.movies.Some? then (st, true)
    else if files.movies.None? then (st, false)
    else if files.users.None? then (LoadedAsWritten(files.movies, None, false), false)
    else if TopWordsColumnFits(files.movies.value) then (LoadedAsWritten(files.movies, files.users, true), true)
    else (LoadedAsWritten(files.movies, files.users, false), false)
  }

  /** The column fits only when the catalogue has exactly min(50, distinct
      words) rows, so it never fits a catalogue of more than 50 rows; when it
      does not fit, the first load raises and leaves the similarity unset for
      good (later loads return at once), while the corrected load stores it. */
  lemma TopWordsColumnRaises(files: DataFiles, later: DataFiles)
    requires files.movies.Some? && files.users.Some?
    ensures TopWordsColumnFits(files.movies.value) <==> Min(50, |Distinct(files.movies.value)|) == |files.movies.value|
    ensures |files.movies.value| > 50 ==> !TopWordsColumnFits(files.movies.value)
    ensures var (st, ok) := AfterLoadAsWritten(LoadedAsWritten(None, None, false), files);
      !TopWordsColumnFits(files.movies.value) ==> !ok && !st.similarityStored && AfterLoadAsWritten(st, later) == (st, true)
    ensures AfterLoad(Loaded(None, None), files) == (Loaded(files.movies, files.users), true)
  {
  }

  /** Some catalogue row's title is in the watch history (`history_indices`
      is non-empty). */
  predicate AnyWatched(movies: seq<Movie>, history: seq<string>) {
    exists h :: 0 <= h < |movies| && TitleIn(movies[h], history)
  }

  /** `get_recommendations` over the as-written load. A load that raised
      sends the request to the head fallback (the second `_load_data` returns
      at once, the movies table being set). When the similarity was never
      stored, indexing `None` with a watched row raises and sends the request
      there too; without a watched row the boost loop never runs. */
  function ServeAsWritten(st: LoadedAsWritten, files: DataFiles, root: real -> real, req: Request): (Response, LoadedAsWritten) {
    var (st1, ok) := AfterLoadAsWritten(st, files);
    if ok && !req.mood.mood.Null? && st1.users.Some? && |st1.movies.value| > 0 &&
       (st1.similarityStored || !AnyWatched(st1.movies.value, req.history)) then
      var m := st1.movies.value;
      (Response(req.userId, req.mood, UserProfile(st1.users.value, req.userId), Ranked(m, Scores(m, root, req.prompt, req.history), req.topN)), st1)
    else
      var (st2, ok2) := AfterLoadAsWritten(st1, files);
      if ok2 then (HeadFallback(req.userId, st2.movies.value, req.topN), st2)
      else (EmptyReply(req.userId), st2)
  }

  /** For a catalogue whose top words are not one per row (every catalogue of
      more than 50 rows, and smaller ones such as 3 rows holding 10 distinct
      words), as written: the first request gets the first rows and leaves
      both tables set with no similarity; after that a request without a
      watched title is scored live on the overlap alone, and one with a
      watched title gets the first rows again. */
  lemma ServeAsWrittenOutcome(files: DataFiles, later: DataFiles, root: real -> real, req: Request)
    requires files.movies.Some? && files.users.Some? && !TopWordsColumnFits(files.movies.value)
    ensures var m := files.movies.value;
      ServeAsWritten(LoadedAsWritten(None, None, false), files, root, req) ==
      (HeadFallback(req.userId, m, req.topN), LoadedAsWritten(files.movies, files.users, false))
    ensures var m := files.movies.value;
      var st := LoadedAsWritten(files.movies, files.users, false);
      !req.mood.mood.Null? && !AnyWatched(m, req.history) ==>
      ServeAsWritten(st, later, root, req) ==
      (Response(req.userId, req.mood, UserProfile(files.users.value, req.userId),
                Ranked(m, Normalised(Overlaps(m, req.prompt), 1.0), req.topN)), st)
    ensures var m := files.movies.value;
      var st := LoadedAsWritten(files.movies, files.users, false);
      AnyWatched(m, req.history) ==>
      ServeAsWritten(st, later, root, req) == (HeadFallback(req.userId, m, req.topN), st)
  {
    var m := files.movies.value;
    TopWordsColumnRaises(files, later);
    if !AnyWatched(m, req.history) {
      BoostProperties(m, root, Normalised(Overlaps(m, req.prompt), 1.0), req.history, 0);
    }
  }

  // ---------------------------------------------------------------------
  // The similarity computation over arrays
  // ---------------------------------------------------------------------

  /** The array holds the matrix `m`. */
  ghost predicate Holds(a: array2<real>, m: seq<seq<real>>)
    reads a
  {
    a.Length0 == |m| && Rectangular(m, a.Length1) &&
    forall i, j :: 0 <= i < a.Length0 && 0 <= j < a.Length1 ==> a[i, j] == m[i][j]
  }

  /** The nested loops that set `matrix[i, j] = 1.0`. */
  method BuildBinary(movies: seq<Movie>, vocab: seq<string>) returns (mat: array2<real>)
    ensures fresh(mat) && mat.Length1 == |vocab| && Holds(mat, Binary(movies, vocab))
  {
    ghost var b := Binary(movies, vocab);
    mat := new real[|movies|, |vocab|]((i, j) => 0.0);
    for i := 0 to |movies|
      invariant forall x, j :: 0 <= x < i && 0 <= j < |vocab| ==> mat[x, j] == b[x][j]
      invariant forall x, j :: i <= x < |movies| && 0 <= j < |vocab| ==> mat[x, j] == 0.0
    {
      var words := Keywords(movies[i]);
      for j := 0 to |vocab|
        invariant forall x, y :: 0 <= x < i && 0 <= y < |vocab| ==> mat[x, y] == b[x][y]
        invariant forall y :: 0 <= y < j ==> mat[i, y] == b[i][y]
        invariant forall x, y :: i <= x < |movies| && 0 <= y < |vocab| && (x > i || y >= j) ==> mat[x, y] == 0.0
      {
        if vocab[j] in words {
          mat[i, j] := 1.0;
        }
      }
    }
  }

  /** `np.linalg.norm(matrix, axis=1)`, then `norms[norms == 0] = 1`. */
  method RowNorms(mat: array2<real>, ghost m: seq<seq<real>>, root: real -> real) returns (norms: array<real>)
    requires Holds(mat, m)
    ensures fresh(norms) && norms.Length == |m|
    ensures forall i :: 0 <= i < |m| ==> norms[i] == Norm(m[i], root)
  {
    norms := new real[mat.Length0];
    for i := 0 to mat.Length0
      invariant forall x :: 0 <= x < i ==> norms[x] == root(Dot(m[x], m[x]))
    {
      var acc := 0.0;
      for j := 0 to mat.Length1
        invariant acc == Dot(m[i][..j], m[i][..j])
      {
        assert m[i][..j + 1][..j] == m[i][..j];
        acc := acc + mat[i, j] * mat[i, j];
      }
      assert m[i][..mat.Length1] == m[i];
      norms[i] := root(acc);
    }
    for i := 0 to mat.Length0
      invariant forall x :: 0 <= x < i ==> norms[x] == Norm(m[x], root)
      invariant forall x :: i <= x < mat.Length0 ==> norms[x] == root(Dot(m[x], m[x]))
    {
      if norms[i] == 0.0 {
        norms[i] := 1.0;
      }
    }
  }

  /** `matrix / norms` */
  method DivideRows(mat: array2<real>, norms: array<real>, ghost m: seq<seq<real>>, root: real -> real)
    requires Holds(mat, m) && norms.Length == |m|
    requires forall i :: 0 <= i < |m| ==> norms[i] == Norm(m[i], root)
    modifies mat
    ensures Holds(mat, UnitRows(m, root))
  {
    ghost var u := UnitRows(m, root);
    for i := 0 to mat.Length0
      invariant forall x, j :: 0 <= x < i && 0 <= j < mat.Length1 ==> mat[x, j] == u[x][j]
      invariant forall x, j :: i <= x < mat.Length0 && 0 <= j < mat.Length1 ==> mat[x, j] == m[x][j]
    {
      for j := 0 to mat.Length1
        invariant forall x, y :: 0 <= x < i && 0 <= y < mat.Length1 ==> mat[x, y] == u[x][y]
        invariant forall y :: 0 <= y < j ==> mat[i, y] == u[i][y]
        invariant forall x, y :: i <= x < mat.Length0 && 0 <= y < mat.Length1 && (x > i || y >= j) ==> mat[x, y] == m[x][y]
      {
        mat[i, j] := mat[i, j] / norms[i];
      }
    }
  }

  /** `np.dot(matrix, matrix.T)` */
  method GramOf(mat: array2<real>, ghost f: seq<seq<real>>) returns (sim: array2<real>)
    requires Holds(mat, f)
    ensures fresh(sim) && Holds(sim, Gram(f, mat.Length1)) && sim.Length1 == |f|
  {
    ghost var g := Gram(f, mat.Length1);
    var n := mat.Length0;
    sim := new real[n, n];
    for i := 0 to n
      invariant forall x, k :: 0 <= x < i && 0 <= k < n ==> sim[x, k] == g[x][k]
    {
      for k := 0 to n
        invariant forall x, y :: 0 <= x < i && 0 <= y < n ==> sim[x, y] == g[x][y]
        invariant forall y :: 0 <= y < k ==> sim[i, y] == g[i][y]
      {
        var acc := 0.0;
        for j := 0 to mat.Length1
          invariant acc == Dot(f[i][..j], f[k][..j])
        {
          assert f[i][..j + 1][..j] == f[i][..j];
          assert f[k][..j + 1][..j] == f[k][..j];
          acc := acc + mat[i, j] * mat[k, j];
        }
        assert f[i][..mat.Length1] == f[i] && f[k][..mat.Length1] == f[k];
        sim[i, k] := acc;
      }
    }
  }

  /** `_compute_simple_similarity`, without the failing column assignment:
      returns the similarity and the top words. */
  method ComputeSimilarity(movies: seq<Movie>, root: real -> real) returns (sim: array2<real>, vocab: seq<string>)
    ensures fresh(sim) && sim.Length1 == |movies| && Holds(sim, Similarity(movies, root))
    ensures vocab == TopWords(movies)
  {
    vocab := TopWords(movies);
    var mat := BuildBinary(movies, vocab);
    ghost var b := Binary(movies, vocab);
    var norms := RowNorms(mat, b, root);
    DivideRows(mat, norms, b, root);
    sim := GramOf(mat, UnitRows(b, root));
  }

  /** The keyword-overlap loop: `scores[i] = len(prompt_words & movie_words)`. */
  method OverlapScores(movies: seq<Movie>, prompt: string) returns (scores: array<real>)
    ensures fresh(scores) && scores[..] == Overlaps(movies, prompt)
  {
    var ws := PromptWords(prompt);
    scores := new real[|movies|];
    for i := 0 to |movies|
      invariant forall x :: 0 <= x < i ==> scores[x] == Overlaps(movies, prompt)[x]
    {
      scores[i] := Overlap(ws, Keywords(movies[i])) as real;
    }
  }

  /** For each watched row, add 0.3 times its similarity row. */
  method BoostBySimilarity(scores: array<real>, movies: seq<Movie>, history: seq<string>, sim: array2<real>, ghost s: seq<seq<real>>)
    requires scores.Length == |movies| && Holds(sim, s) && Square(s, |movies|) && sim.Length1 == |movies|
    modifies scores
    ensures scores[..] == Boosted(old(scores[..]), s, movies, history)
  {
    ghost var s0 := scores[..];
    var n := |movies|;
    for h := 0 to n
      invariant forall j :: 0 <= j < n ==> scores[j] == s0[j] + SimGain(s, movies, history, j, h)
    {
      if TitleIn(movies[h], history) {
        for j := 0 to n
          invariant forall y :: 0 <= y < j ==> scores[y] == s0[y] + SimGain(s, movies, history, y, h + 1)
          invariant forall y :: j <= y < n ==> scores[y] == s0[y] + SimGain(s, movies, history, y, h)
        {
          scores[j] := scores[j] + sim[h, j] * 0.3;
        }
      }
    }
  }

  /** The module's globals; `root` stands for the square root NumPy takes. */
  class Recommender {
    var movies: Option<seq<Movie>>
    var users: Option<seq<UserRow>>
    var topWords: seq<string>
    var similarity: array2?<real>
    const root: real -> real

    function State(): Loaded
      reads this
    {
      Loaded(movies, users)
    }

    /** The similarity is stored exactly when the users table is, and then
        it is the similarity of the loaded catalogue. */
    ghost predicate Valid()
      reads this, similarity
    {
      && LoadedCoherent(State())
      && (users.Some? <==> similarity != null)
      && (similarity != null ==>
            topWords == TopWords(movies.value) && similarity.Length1 == |movies.value| &&
            Holds(similarity, Similarity(movies.value, root)))
    }

    /** The globals at import: all unset. */
    constructor (root: real -> real)
      ensures Valid() && State() == Loaded(None, None) && this.root == root
    {
      movies := None;
      users := None;
      topWords := [];
      similarity := null;
      this.root := root;
    }

    /** `_load_data`, with the top words kept beside the similarity. */
    method LoadData(files: DataFiles) returns (ok: bool)
      requires Valid()
      modifies this
      ensures Valid()
      ensures (State(), ok) == AfterLoad(old(State()), files)
    {
      if movies.Some? {
        return true;
      }
      if files.movies.None? {
        return false;
      }
      movies := files.movies;
      if files.users.None? {
        return false;
      }
      users := files.users;
      similarity, topWords := ComputeSimilarity(files.movies.value, root);
      ok := true;
    }

    /** `get_recommendations` */
    method GetRecommendations(files: DataFiles, req: Request) returns (r: Response)
      requires Valid()
      modifies this
      ensures Valid()
      ensures (r, State()) == Serve(old(State()), files, root, req)
    {
      var ok := LoadData(files);
      if ok && !req.mood.mood.Null? && users.Some? && |movies.value| > 0 {
        var m := movies.value;
        var scores := OverlapScores(m, req.prompt);
        Normalise(scores, 1.0);
        BoostBySimilarity(scores, m, req.history, similarity, Similarity(m, root));
        r := Response(req.userId, req.mood, UserProfile(users.value, req.userId), Ranked(m, scores[..], req.topN));
        return;
      }
      var ok2 := LoadData(files);
      if ok2 {
        r := HeadFallback(req.userId, movies.value, req.topN);
      } else {
        r := EmptyReply(req.userId);
      }
    }
  }
}
