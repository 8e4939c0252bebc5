/** The inverted keyword index built at initialisation by the eager and the
    lazy recommender: every keyword token maps to the list of catalogue rows it
    occurs in, a row listed once per occurrence. */
module KeywordIndex {
  import opened Text
  import opened Catalog

  type Index = map<string, seq<nat>>

  /** `index.get(w, [])` */
  function Postings(index: Index, w: string): seq<nat> {
    if w in index then index[w] else []
  }

  /** The index after the inner loop has appended row `i` for each of the
      tokens `ws`, in order. */
  function AddTokens(index: Index, i: nat, ws: seq<string>): Index
    decreases |ws|
  {
    if ws == [] then index
    else
      var m := AddTokens(index, i, ws[..|ws| - 1]);
      var w := ws[|ws| - 1];
      m[w := Postings(m, w) + [i]]
  }

  /** The index the two nested loops build from the `keywords` column. */
  function IndexOf(rows: seq<seq<string>>): Index
    decreases |rows|
  {
    if rows == [] then map[]
    else AddTokens(IndexOf(rows[..|rows| - 1]), |rows| - 1, rows[|rows| - 1])
  }

  /** `_word_index` construction: for each row, for each of its tokens, create
      the list if needed and append the row. */
  method BuildIndex(rows: seq<seq<string>>) returns (index: Index)
    ensures index == IndexOf(rows)
  {
    index := map[];
    var r := 0;
    while r < |rows|
      invariant r <= |rows|
      invariant index == IndexOf(rows[..r])
    {
      var ws := rows[r];
      ghost var start := index;
      var k := 0;
      while k < |ws|
        invariant k <= |ws|
        invariant index == AddTokens(start, r, ws[..k])
      {
        var w := ws[k];
        if w !in index {
          index := index[w := []];
        }
        index := index[w := index[w] + [r]];
        assert ws[..k + 1][..k] == ws[..k];
        k := k + 1;
      }
      assert ws[..k] == ws;
      assert rows[..r + 1][..r] == rows[..r];
      r := r + 1;
    }
    assert rows[..r] == rows;
  }

  /** `n` copies of row `i`. */
  function Repeat(i: nat, n: nat): (r: seq<nat>)
    ensures |r| == n && forall a :: 0 <= a < n ==> r[a] == i
  {
    seq(n, _ => i)
  }

  /** What the postings of `w` should be: each row, in row order, repeated
      once per occurrence of `w` among its tokens. */
  ghost function ExpectedPostings(rows: seq<seq<string>>, w: string): seq<nat>
    decreases |rows|
  {
    if rows == [] then []
    else ExpectedPostings(rows[..|rows| - 1], w) + Repeat(|rows| - 1, multiset(rows[|rows| - 1])[w])
  }

  lemma {:induction false} AddTokensPostings(index: Index, i: nat, ws: seq<string>, w: string)
    ensures Postings(AddTokens(index, i, ws), w) == Postings(index, w) + Repeat(i, multiset(ws)[w])
    ensures w in AddTokens(index, i, ws) <==> w in index || w in ws
    decreases |ws|
  {
    if ws != [] {
      var init := ws[..|ws| - 1];
      assert ws == init + [ws[|ws| - 1]];
      AddTokensPostings(index, i, init, w);
    }
  }

  lemma {:induction false} IndexPostings(rows: seq<seq<string>>, w: string)
    ensures Postings(IndexOf(rows), w) == ExpectedPostings(rows, w)
    ensures w in IndexOf(rows) <==> exists i :: 0 <= i < |rows| && w in rows[i]
    decreases |rows|
  {
    if rows != [] {
      var init := rows[..|rows| - 1];
      IndexPostings(init, w);
      AddTokensPostings(IndexOf(init), |rows| - 1, rows[|rows| - 1], w);
      assert forall i :: 0 <= i < |init| ==> init[i] == rows[i];
      if w in IndexOf(rows) && w !in IndexOf(init) {
        assert w in rows[|rows| - 1];
      }
    }
  }

  lemma {:induction false} ExpectedPostingsCount(rows: seq<seq<string>>, w: string, i: nat)
    ensures multiset(ExpectedPostings(rows, w))[i] == if i < |rows| then multiset(rows[i])[w] else 0
    ensures forall a :: 0 <= a < |ExpectedPostings(rows, w)| ==> ExpectedPostings(rows, w)[a] < |rows|
    decreases |rows|
  {
    if rows != [] {
      var init := rows[..|rows| - 1];
      var n := |rows| - 1;
      ExpectedPostingsCount(init, w, i);
      RepeatCount(n, multiset(rows[n])[w], i);
      if i < n {
        assert init[i] == rows[i];
      }
    }
  }

  lemma {:induction false} RepeatCount(i: nat, n: nat, j: nat)
    ensures multiset(Repeat(i, n))[j] == if i == j then n else 0
    decreases n
  {
    if n > 0 {
      assert Repeat(i, n) == Repeat(i, n - 1) + [i];
      RepeatCount(i, n - 1, j);
    }
  }

  /** Postings are in row order. */
  lemma {:induction false} ExpectedPostingsSorted(rows: seq<seq<string>>, w: string)
    ensures forall a, b :: 0 <= a < b < |ExpectedPostings(rows, w)| ==>
      ExpectedPostings(rows, w)[a] <= ExpectedPostings(rows, w)[b]
    decreases |rows|
  {
    if rows != [] {
      var init := rows[..|rows| - 1];
      ExpectedPostingsSorted(init, w);
      ExpectedPostingsCount(init, w, 0);
    }
  }

  /** Soundness and completeness of the index: row `i` appears in the postings
      of `w` exactly as often as `w` occurs among row `i`'s tokens, no other
      number appears, the postings are in row order, and `w` is a key exactly
      when some row has it as a token. */
  lemma IndexExact(rows: seq<seq<string>>, w: string)
    ensures forall i :: 0 <= i < |rows| ==> multiset(Postings(IndexOf(rows), w))[i] == multiset(rows[i])[w]
    ensures forall a :: 0 <= a < |Postings(IndexOf(rows), w)| ==> Postings(IndexOf(rows), w)[a] < |rows|
    ensures forall a, b :: 0 <= a < b < |Postings(IndexOf(rows), w)| ==>
      Postings(IndexOf(rows), w)[a] <= Postings(IndexOf(rows), w)[b]
    ensures w in IndexOf(rows) <==> exists i :: 0 <= i < |rows| && w in rows[i]
  {
    IndexPostings(rows, w);
    ExpectedPostingsCount(rows, w, 0);
    forall i | 0 <= i < |rows|
      ensures multiset(Postings(IndexOf(rows), w))[i] == multiset(rows[i])[w]
    {
      ExpectedPostingsCount(rows, w, i);
    }
    ExpectedPostingsSorted(rows, w);
  }

  /** For the catalogue's own `keywords` column, with missing fields read as empty. */
  lemma CatalogueIndexExact(movies: seq<Movie>, w: string, i: nat)
    requires i < |movies|
    ensures multiset(Postings(IndexOf(KeywordRows(movies)), w))[i] ==
      multiset(Split(Field(movies[i].title)) + Split(Field(movies[i].genre)) + Split(Field(movies[i].tags)))[w]
  {
    IndexExact(KeywordRows(movies), w);
    KeywordsAreFieldTokens(movies[i]);
  }
}
