/** The lazy variant (`recommender_ml_optimized.py`): nothing is loaded at
    import; the first request runs `_lazy_init`, which loads the data, builds
    the keyword index, loads or trains the classifier and sets
    `_DATA_LOADED`, after which it does nothing. There is no cache. */
module LazyRecommender {
  import opened Text
  import opened Catalog
  import opened KeywordIndex
  import opened HybridScoring

  /** The globals after `_lazy_init`, and whether it returned normally. The
      movies table is assigned before the users table is read, so a failed
      users read leaves the new `_movies_df` set; either failure leaves
      `_DATA_LOADED` false, so the next call reads both files again. */
  function AfterInit(g: Globals, files: DataFiles): (Globals, bool) {
    if g.dataLoaded then (g, true)
    else if files.movies.None? then (g, false)
    else if files.users.None? then (g.(movies := files.movies), false)
    else (Globals(files.movies, files.users, IndexOf(KeywordRows(files.movies.value)), files.classifier, true), true)
  }

  /** Once loaded, initialising again changes nothing, whatever the files now
      hold; initialising twice is initialising once; a successful
      initialisation leaves coherent, loaded globals. */
  lemma InitIdempotent(g: Globals, files: DataFiles, later: DataFiles)
    ensures g.dataLoaded ==> AfterInit(g, later) == (g, true)
    ensures AfterInit(AfterInit(g, files).0, files) == AfterInit(g, files)
    ensures AfterInit(g, files).1 <==> g.dataLoaded || (files.movies.Some? && files.users.Some?)
    ensures Coherent(g) ==> Coherent(AfterInit(g, files).0)
    ensures AfterInit(g, files).1 ==> AfterInit(g, files).0.dataLoaded
  {
  }

  /** `get_recommendations`: initialise, then score live; on an exception,
      initialise again and answer with the top-rated rows, or let the second
      initialisation's exception escape. Returns the reply and the new globals. */
  function Serve(g: Globals, files: DataFiles, req: Request): (r: (Result<Response, PyError>, Globals))
    requires Coherent(g)
    ensures Coherent(r.1)
  {
    InitIdempotent(g, files, files);
    InitIdempotent(AfterInit(g, files).0, files, files);
    var (g1, ok) := AfterInit(g, files);
    if ok && Live(g1, req).Some? then (Ok(Live(g1, req).value), g1)
    else
      var (g2, ok2) := AfterInit(g1, files);
      if ok2 then (Ok(TopRatedFallback(req.userId, g2.movies.value, req.topN)), g2)
      else (Err(FileUnreadable("movies_metadata.csv or users.csv")), g2)
  }

  /** A request fails only if the data was never loaded and cannot be read
      now, and then the data stays unloaded: only `_movies_df` may have
      changed, to the movies table just read. Otherwise it leaves the data
      loaded and answers with min(top_n, n) rows: live-scored rows for a
      non-empty catalogue and a mood without `null`, the top-rated fallback
      otherwise. */
  lemma ServeOutcome(g: Globals, files: DataFiles, req: Request)
    requires Coherent(g)
    ensures Serve(g, files, req).0.Err? <==> !g.dataLoaded && (files.movies.None? || files.users.None?)
    ensures Serve(g, files, req).0.Err? ==>
      Serve(g, files, req).1 == (if files.movies.Some? then g.(movies := files.movies) else g) &&
      !Serve(g, files, req).1.dataLoaded
    ensures Serve(g, files, req).0.Ok? ==> Serve(g, files, req).1.dataLoaded && Coherent(Serve(g, files, req).1)
    ensures Serve(g, files, req).0.Ok? ==>
      |Serve(g, files, req).0.value.recommendations| == Ranking.Min(req.topN, |Serve(g, files, req).1.movies.value|)
    ensures var g1 := Serve(g, files, req).1;
      Serve(g, files, req).0.Ok? && (|g1.movies.value| == 0 || HasNull(req.mood)) ==>
      Serve(g, files, req).0.value == TopRatedFallback(req.userId, g1.movies.value, req.topN)
    ensures var g1 := Serve(g, files, req).1;
      Serve(g, files, req).0.Ok? && |g1.movies.value| > 0 && !HasNull(req.mood) ==>
      Serve(g, files, req).0 == Ok(Live(g1, req).value)
  {
    InitIdempotent(g, files, files);
  }

  /** A second request sees the globals the first one left: once a request
      has succeeded, later ones neither reload nor depend on the files. */
  lemma LoadedOnce(g: Globals, files: DataFiles, later: DataFiles, req1: Request, req2: Request)
    requires Coherent(g) && Serve(g, files, req1).0.Ok?
    ensures Serve(Serve(g, files, req1).1, later, req2).1 == Serve(g, files, req1).1
    ensures Serve(Serve(g, files, req1).1, later, req2).0.Ok?
  {
    ServeOutcome(g, files, req1);
    var g1 := Serve(g, files, req1).1;
    InitIdempotent(g1, later, later);

  }

  /** The module's globals. */
  class Recommender {
    var movies: Option<seq<Movie>>
    var users: Option<seq<UserRow>>
    var wordIndex: Index
    var classifier: Option<Classifier>
    var dataLoaded: bool

    function State(): Globals
      reads this
    {
      Globals(movies, users, wordIndex, classifier, dataLoaded)
    }

    ghost predicate Valid()
      reads this
    {
      Coherent(State())
    }

    /** The globals at import: all unset. */
    constructor ()
      ensures Valid() && State() == Globals(None, None, map[], None, false)
    {
      movies := None;
      users := None;
      wordIndex := map[];
      classifier := None;
      dataLoaded := false;
    }

    /** `_lazy_init` */
    method LazyInit(files: DataFiles) returns (ok: bool)
      requires Valid()
      modifies this
      ensures Valid()
      ensures (State(), ok) == AfterInit(old(State()), files)
    {
      if dataLoaded {
        return true;
      }
      if files.movies.None? {
        return false;
      }
      movies := files.movies;
      if files.users.None? {
        return false;
      }
      users := files.users;
      wordIndex := BuildIndex(KeywordRows(files.movies.value));
      classifier := files.classifier;
      dataLoaded := true;
      ok := true;
    }

    /** `get_recommendations` */
    method GetRecommendations(files: DataFiles, req: Request) returns (r: Result<Response, PyError>)
      requires Valid()
      modifies this
      ensures Valid()
      ensures (r, State()) == Serve(old(State()), files, req)
    {
      ghost var g0 := State();
      var ok := LazyInit(files);
      ghost var g1 := State();
      if ok && !HasNull(req.mood) && |movies.value| > 0 {
        var scores := ScoreCatalogue(movies.value, wordIndex, req.prompt, req.history, classifier, RequestMood(req.mood));
        r := Ok(LiveResponse(req.userId, req.mood, users.value, movies.value, scores, req.topN));
        assert Live(g1, req) == Some(r.value);
        return;
      }
      assert Live(g1, req).None? || !ok;
      var ok2 := LazyInit(files);
      if ok2 {
        r := Ok(TopRatedFallback(req.userId, movies.value, req.topN));
      } else {
        r := Err(FileUnreadable("movies_metadata.csv or users.csv"));
      }
    }
  }
}
