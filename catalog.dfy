/** The records the recommenders share: catalogue rows of `movies_metadata.csv`,
    user rows of `users.csv`, the `{mood, tone}` signal and the response
    dictionary `get_recommendations` returns. */
module Catalog {
  import opened Text

  /** One row of the movie catalogue. Text columns may be missing (NaN in
      pandas), which `None` stands for. */
  datatype Movie = Movie(
    movieId: int,
    title: Option<string>,
    genre: Option<string>,
    tags: Option<string>,
    rating: real,
    releaseYear: int)

  /** `column.fillna('').str.lower()` for one cell. */
  function Field(f: Option<string>): string {
    Lower(f.GetOr(""))
  }

  /** The lower-cased `title + ' ' + genre + ' ' + tags` text of a row, missing
      fields read as the empty string (the `text` column of the ultra-light
      variant, and the text the `keywords` column splits). */
  function RowText(m: Movie): string {
    Field(m.title) + " " + Field(m.genre) + " " + Field(m.tags)
  }

  /** The `keywords` column: the whitespace tokens of `RowText`. */
  function Keywords(m: Movie): seq<string> {
    Split(RowText(m))
  }

  /** A row's keywords are the tokens of its title, then of its genre, then of
      its tags; a missing field contributes no token. */
  lemma KeywordsAreFieldTokens(m: Movie)
    ensures Keywords(m) == Split(Field(m.title)) + Split(Field(m.genre)) + Split(Field(m.tags))
    ensures m.title.None? && m.genre.None? && m.tags.None? ==> Keywords(m) == []
  {
    var t, g, a := Field(m.title), Field(m.genre), Field(m.tags);
    assert RowText(m) == (t + [' '] + g) + [' '] + a;
    SplitJoin(t + [' '] + g, ' ', a);
    SplitJoin(t, ' ', g);
  }

  /** The `keywords` column of the whole catalogue. */
  function KeywordRows(movies: seq<Movie>): (rows: seq<seq<string>>)
    ensures |rows| == |movies|
    ensures forall i :: 0 <= i < |movies| ==> rows[i] == Keywords(movies[i])
  {
    seq(|movies|, i requires 0 <= i < |movies| => Keywords(movies[i]))
  }

  /** `df['genre'] == other['genre']` on two rows: pandas compares a missing
      genre as unequal to everything, itself included. */
  predicate SameGenre(a: Movie, b: Movie) {
    a.genre.Some? && b.genre.Some? && a.genre.value == b.genre.value
  }

  /** `df['title'].isin(history)` for one row. */
  predicate TitleIn(m: Movie, history: seq<string>) {
    m.title.Some? && m.title.value in history
  }

  /** One row of `users.csv`; only the id column is interpreted. */
  datatype UserRow = UserRow(userId: string, columns: map<string, string>)

  /** The positions of the user rows with id `userId`, in row order. */
  function ProfileRows(users: seq<UserRow>, userId: string): (rows: seq<nat>)
    ensures Increasing(rows)
    ensures forall a :: 0 <= a < |rows| ==> rows[a] < |users|
    ensures forall i: nat :: i in rows <==> i < |users| && users[i].userId == userId
  {
    Positions(users, (u: UserRow) => u.userId == userId)
  }

  /** `users_df[users_df['user_id'] == user_id].to_dict(orient='records')`:
      the boolean mask keeps the matching rows in row order, duplicates
      included, so the profile is the user rows at `ProfileRows`. */
  function UserProfile(users: seq<UserRow>, userId: string): (r: seq<UserRow>)
    ensures |r| == |ProfileRows(users, userId)|
    ensures forall a :: 0 <= a < |r| ==> r[a] == users[ProfileRows(users, userId)[a]]
  {
    if users == [] then []
    else
      var init := users[..|users| - 1];
      var p := UserProfile(init, userId);
      assert forall a :: 0 <= a < |p| ==> ProfileRows(init, userId)[a] < |init|;
      if users[|users| - 1].userId == userId then p + [users[|users| - 1]] else p
  }

  /** The value a JSON object holds under one key: the key may be absent, hold
      `null`, or hold a string. */
  datatype JsonText = Absent | Null | Str(value: string)

  /** `d.get(key, default)` read as a string: the default for an absent key,
      `None` for `null` (on which a following `.lower()` raises). */
  function TextOr(v: JsonText, default: string): (r: Option<string>)
    ensures r.None? <==> v.Null?
    ensures v.Absent? ==> r == Some(default)
    ensures v.Str? ==> r == Some(v.value)
  {
    match v
    case Absent => Some(default)
    case Null => None
    case Str(s) => Some(s)
  }

  /** The value of `mood_info`: what the extractor returned under "mood" and
      under "tone" (a language model may omit a key or send `null`). */
  datatype MoodInfo = MoodInfo(mood: JsonText, tone: JsonText)

  const Neutral: MoodInfo := MoodInfo(Str("neutral"), Str("neutral"))

  /** One element of `recommendations`. */
  datatype Recommendation = Recommendation(
    title: Option<string>,
    genre: Option<string>,
    releaseYear: int,
    rating: real,
    tags: Option<string>,
    hybridScore: real)

  /** The response dictionary of `get_recommendations`. */
  datatype Response = Response(
    userId: string,
    extractedMood: MoodInfo,
    userProfile: seq<UserRow>,
    recommendations: seq<Recommendation>)

  function ToRecommendation(m: Movie, score: real): Recommendation {
    Recommendation(m.title, m.genre, m.releaseYear, m.rating, m.tags, score)
  }

  /** `df.iloc[indices]` with a `hybrid_score` column taken from `scores`. */
  function Rows(movies: seq<Movie>, indices: seq<nat>, scores: seq<real>): (r: seq<Recommendation>)
    requires forall a :: 0 <= a < |indices| ==> indices[a] < |movies| && indices[a] < |scores|
    ensures |r| == |indices|
    ensures forall a :: 0 <= a < |indices| ==>
      r[a] == ToRecommendation(movies[indices[a]], scores[indices[a]])
  {
    seq(|indices|, a requires 0 <= a < |indices| =>
      ToRecommendation(movies[indices[a]], scores[indices[a]]))
  }

  /** The ratings column. */
  function Ratings(movies: seq<Movie>): (r: seq<real>)
    ensures |r| == |movies|
    ensures forall i :: 0 <= i < |movies| ==> r[i] == movies[i].rating
  {
    seq(|movies|, i requires 0 <= i < |movies| => movies[i].rating)
  }

  /** Errors that escape a recommender to its caller. */
  datatype PyError =
    | FileUnreadable(path: string)
    | NameNotDefined(name: string)
    | NoneHasNoAttribute(name: string)

  datatype Result<T, E> = Ok(value: T) | Err(error: E)
}
