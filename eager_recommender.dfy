/** The eager variant (`recommender.py`): data, keyword index and classifier
    are loaded once when the module is imported, the precomputed index right
    after; each request tries the cache, then live scoring, then the
    top-rated fallback. */
module EagerRecommender {
  import opened Text
  import opened Catalog
  import opened KeywordIndex
  import opened HybridScoring
  import opened PrecomputedCache

  /** What a request returns: a stored result document, or a computed response. */
  datatype Reply = Cached(document: Document) | Computed(response: Response)

  /** The fallback as it is meant to work: the top-rated rows. It raises only
      when the movies table was never read. */
  function Fallback(g: Globals, req: Request): (r: Result<Response, PyError>)
    ensures r.Ok? <==> g.movies.Some?
    ensures r.Ok? ==> r.value == TopRatedFallback(req.userId, g.movies.value, req.topN)
  {
    if g.movies.Some? then Ok(TopRatedFallback(req.userId, g.movies.value, req.topN))
    else Err(NoneHasNoAttribute("nlargest"))
  }

  /** The fallback as written: its first statement calls `_lazy_init`, which
      this module does not define, so it raises `NameError` whatever the state. */
  function FallbackAsWritten(g: Globals, req: Request): (r: Result<Response, PyError>)
    ensures r.Err?
  {
    Err(NameNotDefined("_lazy_init"))
  }

  function Lift(r: Result<Response, PyError>): Result<Reply, PyError> {
    match r
    case Ok(resp) => Ok(Computed(resp))
    case Err(e) => Err(e)
  }

  /** `get_recommendations`, with the fallback as intended. */
  function Serve(g: Globals, cacheIndex: seq<IndexEntry>, docs: map<string, Document>, req: Request): Result<Reply, PyError>
    requires Coherent(g)
  {
    match CacheHit(cacheIndex, docs, req.prompt, req.userId)
    case Some(doc) => Ok(Cached(doc))
    case None =>
      match Live(g, req)
      case Some(resp) => Ok(Computed(resp))
      case None => Lift(Fallback(g, req))
  }

  /** `get_recommendations` as written. */
  function ServeAsWritten(g: Globals, cacheIndex: seq<IndexEntry>, docs: map<string, Document>, req: Request): Result<Reply, PyError>
    requires Coherent(g)
  {
    match CacheHit(cacheIndex, docs, req.prompt, req.userId)
    case Some(doc) => Ok(Cached(doc))
    case None =>
      match Live(g, req)
      case Some(resp) => Ok(Computed(resp))
      case None => Lift(FallbackAsWritten(g, req))
  }

  /** A usable cache hit is answered from the cache, before any scoring. */
  lemma CacheAnswersFirst(g: Globals, cacheIndex: seq<IndexEntry>, docs: map<string, Document>, req: Request)
    requires Coherent(g) && CacheHit(cacheIndex, docs, req.prompt, req.userId).Some?
    ensures Serve(g, cacheIndex, docs, req).Ok? && Serve(g, cacheIndex, docs, req).value.Cached?
    ensures exists key :: key in docs && OnlyUserIdDiffers(docs[key], Serve(g, cacheIndex, docs, req).value.document, req.userId)
  {
    CacheHitOnlyRestamps(cacheIndex, docs, req.prompt, req.userId);
  }

  /** With the intended fallback, without a cache hit the answer is computed:
      a live response while the data is loaded, the catalogue is non-empty
      and the extracted mood holds no `null`, otherwise the top-rated
      fallback; it is an error only when the movies table was never read. */
  lemma ComputedAnswer(g: Globals, cacheIndex: seq<IndexEntry>, docs: map<string, Document>, req: Request)
    requires Coherent(g) && CacheHit(cacheIndex, docs, req.prompt, req.userId).None?
    ensures Serve(g, cacheIndex, docs, req).Err? <==> g.movies.None?
    ensures g.dataLoaded && |g.movies.value| > 0 && !HasNull(req.mood) ==>
      Serve(g, cacheIndex, docs, req) == Ok(Computed(Live(g, req).value))
    ensures g.movies.Some? && (!g.dataLoaded || |g.movies.value| == 0 || HasNull(req.mood)) ==>
      Serve(g, cacheIndex, docs, req) == Ok(Computed(TopRatedFallback(req.userId, g.movies.value, req.topN)))
    ensures Serve(g, cacheIndex, docs, req).Ok? ==>
      |Serve(g, cacheIndex, docs, req).value.response.recommendations| == Ranking.Min(req.topN, |g.movies.value|)
  {
  }

  /** Whenever the live path raises (here: the catalogue is empty,
      `users.csv` could not be read at start-up, or the mood or tone is
      `null`) and the cache has nothing,
      the code as written raises `NameError` out of its own fallback, while the
      intended fallback answers with the top-rated rows. */
  lemma FallbackRaisesAsWritten(g: Globals, cacheIndex: seq<IndexEntry>, docs: map<string, Document>, req: Request)
    requires Coherent(g) && CacheHit(cacheIndex, docs, req.prompt, req.userId).None?
    requires g.movies.Some? && (!g.dataLoaded || |g.movies.value| == 0 || HasNull(req.mood))
    ensures ServeAsWritten(g, cacheIndex, docs, req) == Err(NameNotDefined("_lazy_init"))
    ensures Serve(g, cacheIndex, docs, req).Ok?
  {
  }

  /** A concrete instance: a loaded empty catalogue and an empty cache. */
  lemma EmptyCatalogueExample()
    ensures var g := Globals(Some([]), Some([]), map[], None, true);
      var req := Request("u1", "anything", 5, Neutral, []);
      && ServeAsWritten(g, [], map[], req).Err?
      && Serve(g, [], map[], req) == Ok(Computed(Response("u1", Neutral, [], [])))
  {
    var g := Globals(Some([]), Some([]), map[], None, true);
    assert IndexOf(KeywordRows([])) == map[];
    var req := Request("u1", "anything", 5, Neutral, []);
    FallbackRaisesAsWritten(g, [], map[], req);
    assert TopRatedFallback("u1", [], 5).recommendations == [];
  }

  /** The module's globals and the precomputed cache it loaded at import. */
  class Recommender {
    var movies: Option<seq<Movie>>
    var users: Option<seq<UserRow>>
    var wordIndex: Index
    var classifier: Option<Classifier>
    var dataLoaded: bool
    const cacheIndex: seq<IndexEntry>
    const docs: map<string, Document>

    function State(): Globals
      reads this
    {
      Globals(movies, users, wordIndex, classifier, dataLoaded)
    }

    ghost predicate Valid()
      reads this
    {
      Coherent(State())
    }

    /** `_eager_init` at import: read the movies table, then the users table,
        build the keyword index and take the classifier; a read failure stops
        it there (the import catches the exception). Then `PRECOMPUTED_INDEX`
        is loaded; `docs` stands for the result files. */
    constructor (files: DataFiles, cacheIndex: seq<IndexEntry>, docs: map<string, Document>)
      ensures Valid()
      ensures this.cacheIndex == cacheIndex && this.docs == docs
      ensures movies == files.movies
      ensures users == (if files.movies.Some? then files.users else None)
      ensures dataLoaded <==> files.movies.Some? && files.users.Some?
      ensures dataLoaded ==> classifier == files.classifier
    {
      this.cacheIndex := cacheIndex;
      this.docs := docs;
      movies := None;
      users := None;
      wordIndex := map[];
      classifier := None;
      dataLoaded := false;
      new;
      if files.movies.Some? {
        movies := files.movies;
        if files.users.Some? {
          users := files.users;
          wordIndex := BuildIndex(KeywordRows(files.movies.value));
          classifier := files.classifier;
          dataLoaded := true;
        }
      }
    }

    /** `get_recommendations`: the cache, then the live scoring over the
        loaded globals, then the fallback. Nothing in the state changes. */
    method GetRecommendations(req: Request) returns (r: Result<Reply, PyError>)
      requires Valid()
      ensures r == Serve(State(), cacheIndex, docs, req)
    {
      var hit := CacheHit(cacheIndex, docs, req.prompt, req.userId);
      if hit.Some? {
        return Ok(Cached(hit.value));
      }
      if !HasNull(req.mood) && users.Some? && |movies.value| > 0 {
        var scores := ScoreCatalogue(movies.value, wordIndex, req.prompt, req.history, classifier, RequestMood(req.mood));
        return Ok(Computed(LiveResponse(req.userId, req.mood, users.value, movies.value, scores, req.topN)));
      }
      r := Lift(Fallback(State(), req));
    }
  }
}
