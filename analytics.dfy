/** The analytics endpoints (`app/routers/analytics.py`): a user's insights
    (watch count, recent conversations, the most frequent mood, the three
    most frequent genres) and the genre their trending list is based on.
    The watch history comes from `app/recommender/user_profile.py`, which is
    not part of this model: it is given as the list it returns. */
module Analytics {
  import opened Text
  import opened Ranking
  import opened ConversationMemory

  /** The counts of a counting dict, as scores to rank. */
  function Counts<K>(d: seq<Tally<K>>): (s: seq<real>)
    ensures |s| == |d|
    ensures forall i :: 0 <= i < |d| ==> s[i] == d[i].count as real
  {
    seq(|d|, i requires 0 <= i < |d| => d[i].count as real)
  }

  /** `max(d.items(), key=lambda x: x[1])[0]`: the first key, in insertion
      order, with the largest count. */
  function MostFrequent<K>(d: seq<Tally<K>>): K
    requires |d| > 0
  {
    TopIndicesRank(Counts(d), 1);
    d[TopIndices(Counts(d), 1)[0]].key
  }

  /** The key returned is held with a count no other key exceeds, and every
      key before it in the dict has a smaller count. */
  lemma MostFrequentProperties<K>(d: seq<Tally<K>>)
    requires |d| > 0
    ensures exists i ::
      && 0 <= i < |d| && d[i].key == MostFrequent(d)
      && (forall j :: 0 <= j < |d| ==> d[j].count <= d[i].count)
      && (forall j :: 0 <= j < i ==> d[j].count < d[i].count)
  {
    var s := Counts(d);
    TopIndicesRank(s, 1);
    var top := TopIndices(s, 1);
    var i := top[0];
    forall j | 0 <= j < |d| ensures d[j].count <= d[i].count && (j < i ==> d[j].count < d[i].count) {
      if j != i {
        assert j !in top;
        assert s[i] >= s[j] && (s[j] == s[i] ==> i < j);
      }
    }
  }

  /** With distinct keys, the key returned is a key of the dict and no key,
      present or not, counts more. */
  lemma MostFrequentMax<K>(d: seq<Tally<K>>)
    requires |d| > 0 && NoDup(KeysOf(d))
    ensures MostFrequent(d) in KeysOf(d)
    ensures forall k :: Get(d, k) <= Get(d, MostFrequent(d))
  {
    MostFrequentProperties(d);
    var i :| 0 <= i < |d| && d[i].key == MostFrequent(d)
      && (forall j :: 0 <= j < |d| ==> d[j].count <= d[i].count);
    GetAt(d, i);
    assert KeysOf(d)[i] in KeysOf(d);
    GetAtMost(d, d[i].count);
  }

  /** No key counts more than a bound every item keeps to. */
  lemma {:induction false} GetAtMost<K>(d: seq<Tally<K>>, c: nat)
    requires forall j :: 0 <= j < |d| ==> d[j].count <= c
    ensures forall k :: Get(d, k) <= c
  {
    if |d| > 0 {
      assert forall j :: 0 <= j < |d| - 1 ==> d[1..][j] == d[j + 1];
      GetAtMost(d[1..], c);
    }
  }

  /** `top_mood`: the most frequent mood, "neutral" when there is none. */
  function TopMood(moods: seq<Tally<Option<string>>>): Option<string> {
    if |moods| == 0 then Some("neutral") else MostFrequent(moods)
  }

  /** `[genre for genre, _ in sorted(d.items(), key=count, reverse=True)[:3]]`.
      Python's sort is stable, also with `reverse=True`, so equal counts
      keep their insertion order. */
  function TopGenres(genres: seq<Tally<Option<string>>>): seq<Option<string>> {
    var top := TopRows(genres);
    seq(|top|, b requires 0 <= b < |top| => genres[top[b]].key)
  }

  /** The rows of the dict `TopGenres` lists. */
  function TopRows<K>(d: seq<Tally<K>>): (rows: seq<nat>)
    ensures |rows| == Min(3, |d|)
    ensures IsRanking(Counts(d), rows)
  {
    TopIndicesRank(Counts(d), 3);
    TopIndices(Counts(d), 3)
  }

  lemma TopGenresRows(genres: seq<Tally<Option<string>>>)
    ensures |TopGenres(genres)| == |TopRows(genres)|
    ensures forall b :: 0 <= b < |TopRows(genres)| ==> TopGenres(genres)[b] == genres[TopRows(genres)[b]].key
  {
  }

  /** At most three genres, all three when there are that many, each a
      distinct key of the dict. */
  lemma TopGenresShape(genres: seq<Tally<Option<string>>>)
    requires NoDup(KeysOf(genres))
    ensures |TopGenres(genres)| == Min(3, |genres|)
    ensures NoDup(TopGenres(genres))
    ensures forall b :: 0 <= b < |TopGenres(genres)| ==> TopGenres(genres)[b] in KeysOf(genres)
  {
    var top := TopRows(genres);
    var r := TopGenres(genres);
    var ks := KeysOf(genres);
    TopGenresRows(genres);
    forall a, b | 0 <= a < b < |r| ensures r[a] != r[b] {
      assert top[a] != top[b];
      assert r[a] == ks[top[a]] && r[b] == ks[top[b]];
    }
    forall b | 0 <= b < |r| ensures r[b] in ks {
      assert r[b] == ks[top[b]];
    }
  }

  /** The genres are listed by non-increasing count, and no genre left out
      counts more than one listed. */
  lemma TopGenresOrder(genres: seq<Tally<Option<string>>>)
    requires NoDup(KeysOf(genres))
    ensures forall a, b :: 0 <= a < b < |TopGenres(genres)| ==> Get(genres, TopGenres(genres)[a]) >= Get(genres, TopGenres(genres)[b])
    ensures forall g, b :: g in KeysOf(genres) && g !in TopGenres(genres) && 0 <= b < |TopGenres(genres)| ==>
      Get(genres, g) <= Get(genres, TopGenres(genres)[b])
  {
    var s := Counts(genres);
    var top := TopRows(genres);
    var r := TopGenres(genres);
    var ks := KeysOf(genres);
    TopGenresRows(genres);
    forall b | 0 <= b < |r| ensures Get(genres, r[b]) == s[top[b]] as int {
      GetAt(genres, top[b]);
    }
    forall g, b | g in ks && g !in r && 0 <= b < |r| ensures Get(genres, g) <= Get(genres, r[b]) {
      var u :| 0 <= u < |ks| && ks[u] == g;
      GetAt(genres, u);
      assert u !in top by {
        forall y | 0 <= y < |top| ensures top[y] != u {
          assert r[y] == ks[top[y]];
        }
      }
      assert s[u] <= s[top[b]];
    }
  }

  /** With distinct keys, the count of the key at position `i` is that item's count. */
  lemma {:induction false} GetAt<K>(d: seq<Tally<K>>, i: nat)
    requires NoDup(KeysOf(d)) && i < |d|
    ensures Get(d, d[i].key) == d[i].count
  {
    if i > 0 {
      assert KeysOf(d)[0] != KeysOf(d)[i];
      assert KeysOf(d[1..]) == KeysOf(d)[1..];
      GetAt(d[1..], i - 1);
    }
  }

  lemma NoMemberEmpty<T>(s: seq<T>)
    ensures |s| == 0 <==> forall x :: x !in s
  {
    if |s| > 0 {
      assert s[0] in s;
    }
  }

  /** The response of `get_user_insights`. */
  datatype Insights = Insights(
    userId: string,
    watchHistoryCount: nat,
    conversationCount: nat,
    topMood: Option<string>,
    moodDistribution: seq<Tally<Option<string>>>,
    topGenres: seq<Option<string>>,
    genreDistribution: seq<Tally<Option<string>>>,
    recentConversations: seq<Conversation>)

  /** `get_user_insights` */
  function UserInsights(userId: string, watchHistory: seq<string>, store: map<string, seq<Conversation>>): Insights {
    var moods := MoodCounts(Lookup(store, userId));
    var genres := GenreCounts(Lookup(store, userId));
    var recent := Recent(store, userId, 5);
    Insights(userId, |watchHistory|, |recent|, TopMood(moods), moods, TopGenres(genres), genres, recent)
  }

  /** The insights count the watch history and at most the five latest
      conversations; the top mood is "neutral" for a user with no
      conversations and otherwise a mood no other mood outnumbers; the top
      genres are at most three genres some conversation lists. */
  lemma InsightsProperties(userId: string, watchHistory: seq<string>, store: map<string, seq<Conversation>>)
    requires Bounded(store)
    ensures var r := UserInsights(userId, watchHistory, store);
      var l := Lookup(store, userId);
      && r.userId == userId
      && r.watchHistoryCount == |watchHistory|
      && r.conversationCount == Min(5, |l|) <= 5
      && r.recentConversations == l[|l| - r.conversationCount..]
      && (|l| == 0 ==> r.topMood == Some("neutral") && r.topGenres == [])
      && (|l| > 0 ==> exists i :: 0 <= i < |l| && MoodKey(l[i]) == r.topMood)
      && (|l| > 0 ==> forall m :: WithMood(l, m) <= WithMood(l, r.topMood))
      && |r.topGenres| <= 3
      && (forall b :: 0 <= b < |r.topGenres| ==> exists i :: 0 <= i < |l| && r.topGenres[b] in l[i].genres)
  {
    var l := Lookup(store, userId);
    RecentProperties(store, userId, 5);
    var moods := MoodCounts(l);
    MoodCountsProperties(l);
    if |l| > 0 {
      assert |moods| > 0 by {
        assert MoodKey(l[0]) in KeysOf(moods);
      }
      MostFrequentMax(moods);
    }
    var genres := GenreCounts(l);
    assert forall i :: 0 <= i < |l| ==> NoDup(l[i].genres);
    GenreCountsProperties(l);
    TopGenresShape(genres);
  }

  /** The response of `get_trending_for_user`. */
  datatype Trending =
    | NoPreferenceData(message: string, trending: seq<string>)
    | BasedOn(userId: string, topGenre: Option<string>)

  /** `get_trending_for_user`; the message of a non-empty answer, a
      formatted string naming the genre, is not modelled. */
  function TrendingFor(userId: string, store: map<string, seq<Conversation>>): Trending {
    var genres := GenreCounts(Lookup(store, userId));
    if |genres| == 0 then NoPreferenceData("No preference data yet. Start chatting to build your profile!", [])
    else BasedOn(userId, MostFrequent(genres))
  }

  /** With no genre preferences the trending list is empty, and there are
      none exactly when no conversation of the user lists a genre; otherwise
      the top genre is one a conversation lists and no genre is listed by
      more conversations. */
  lemma TrendingProperties(userId: string, store: map<string, seq<Conversation>>)
    requires Bounded(store)
    ensures var l := Lookup(store, userId);
      var r := TrendingFor(userId, store);
      && (r.NoPreferenceData? <==> forall i :: 0 <= i < |l| ==> |l[i].genres| == 0)
      && (r.NoPreferenceData? ==> r.trending == [])
      && (r.BasedOn? ==>
            && r.userId == userId
            && (exists i :: 0 <= i < |l| && r.topGenre in l[i].genres)
            && (forall g :: Listing(l, g) <= Listing(l, r.topGenre)))
  {
    var l := Lookup(store, userId);
    var genres := GenreCounts(l);
    assert forall i :: 0 <= i < |l| ==> NoDup(l[i].genres);
    GenreCountsProperties(l);
    NoGenresListed(l, genres);
    if |genres| > 0 {
      MostFrequentMax(genres);
      forall g ensures Listing(l, g) <= Listing(l, MostFrequent(genres)) {
        assert Get(genres, g) == Listing(l, g);
      }
    }
  }

  /** The genre counts are empty exactly when no conversation lists a genre. */
  lemma NoGenresListed(l: seq<Conversation>, genres: seq<Tally<Option<string>>>)
    requires forall g :: g in KeysOf(genres) <==> exists i :: 0 <= i < |l| && g in l[i].genres
    ensures |genres| == 0 <==> forall i :: 0 <= i < |l| ==> |l[i].genres| == 0
  {
    if |genres| == 0 {
      forall i | 0 <= i < |l| ensures |l[i].genres| == 0 {
        forall x ensures x !in l[i].genres {
          assert x in l[i].genres ==> x in KeysOf(genres);
        }
        NoMemberEmpty(l[i].genres);
      }
    } else {
      assert KeysOf(genres)[0] in KeysOf(genres);
    }
  }
}
