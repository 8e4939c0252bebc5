/** Conversation memory (`app/recommender/conversation_memory.py`): per
    user, the last 50 exchanges with the chatbot, and the mood and genre
    statistics drawn from them. `conversations.json` is the
    `conversations` field of a store; reading and writing it are not
    modelled, and neither is the timestamp of an entry.

    A Python dict that counts is a list of (key, count) pairs in insertion
    order, because the analytics that read the counts break ties by that
    order. */
module ConversationMemory {
  import opened Text
  import opened Catalog
  import opened Ranking

  /** One stored exchange: the message, the extracted mood, and the titles
      and the distinct genres of the first three recommendations. */
  datatype Conversation = Conversation(
    message: string,
    mood: MoodInfo,
    recommendations: seq<Option<string>>,
    genres: seq<Option<string>>)

  /** How many exchanges are kept per user. */
  const Kept: nat := 50

  function Titles(recs: seq<Recommendation>): (t: seq<Option<string>>)
    ensures |t| == |recs|
    ensures forall i :: 0 <= i < |recs| ==> t[i] == recs[i].title
  {
    seq(|recs|, i requires 0 <= i < |recs| => recs[i].title)
  }

  function Genres(recs: seq<Recommendation>): (g: seq<Option<string>>)
    ensures |g| == |recs|
    ensures forall i :: 0 <= i < |recs| ==> g[i] == recs[i].genre
  {
    seq(|recs|, i requires 0 <= i < |recs| => recs[i].genre)
  }

  /** The entry `add_conversation` builds. */
  function EntryOf(message: string, mood: MoodInfo, recs: seq<Recommendation>): Conversation {
    var top := recs[..Min(3, |recs|)];
    Conversation(message, mood, Titles(top), Dedup(Genres(top)))
  }

  /** The entry stores the message and the mood as given, the titles of the
      first min(3, n) recommendations in order, and each genre of those same
      recommendations exactly once. */
  lemma EntryProperties(message: string, mood: MoodInfo, recs: seq<Recommendation>)
    ensures var e := EntryOf(message, mood, recs);
      && e.message == message && e.mood == mood
      && |e.recommendations| == Min(3, |recs|)
      && (forall i :: 0 <= i < |e.recommendations| ==> e.recommendations[i] == recs[i].title)
      && NoDup(e.genres)
      && (forall g :: g in e.genres <==> exists i :: 0 <= i < Min(3, |recs|) && recs[i].genre == g)
  {
    var top := recs[..Min(3, |recs|)];
    var gs := Genres(top);
    forall g ensures g in Dedup(gs) <==> exists i :: 0 <= i < Min(3, |recs|) && recs[i].genre == g {
      if exists i :: 0 <= i < Min(3, |recs|) && recs[i].genre == g {
        var i :| 0 <= i < Min(3, |recs|) && recs[i].genre == g;
        assert gs[i] == g;
      }
      if g in Dedup(gs) {
        var i :| 0 <= i < |gs| && gs[i] == g;
        assert top[i] == recs[i];
      }
    }
  }

  /** `l[-k:]` for a positive `k`: the last `k` elements, or all of them. */
  function LastAtMost<T>(s: seq<T>, k: nat): seq<T> {
    if |s| <= k then s else s[|s| - k..]
  }

  /** `conversations.get(user_id, [])` */
  function Lookup(store: map<string, seq<Conversation>>, userId: string): seq<Conversation> {
    if userId in store then store[userId] else []
  }

  /** The store after `add_conversation` appends `entry` for `userId`. */
  function WithConversation(store: map<string, seq<Conversation>>, userId: string, entry: Conversation): map<string, seq<Conversation>> {
    store[userId := LastAtMost(Lookup(store, userId) + [entry], Kept)]
  }

  /** The user's list ends with the new entry and holds min(old + 1, 50)
      entries: the newest of the old ones followed by the new one, so only
      the oldest are dropped. Other users' lists are unchanged. */
  lemma WithConversationProperties(store: map<string, seq<Conversation>>, userId: string, entry: Conversation)
    ensures var old_ := Lookup(store, userId);
      var l := Lookup(WithConversation(store, userId, entry), userId);
      && |l| == Min(|old_| + 1, Kept)
      && l[|l| - 1] == entry
      && l[..|l| - 1] == old_[|old_| + 1 - |l|..]
      && (|old_| < Kept ==> l == old_ + [entry])
    ensures forall v :: v != userId ==> Lookup(WithConversation(store, userId, entry), v) == Lookup(store, v)
    ensures WithConversation(store, userId, entry).Keys == store.Keys + {userId}
  {
    var w := WithConversation(store, userId, entry);
    var old_ := Lookup(store, userId);
    var s := old_ + [entry];
    var l := LastAtMost(s, Kept);
    assert Lookup(w, userId) == l;
    if |s| <= Kept {
      assert l == s;
      assert l[..|l| - 1] == old_;
    } else {
      assert l == s[|s| - Kept..];
      assert |l| == Kept;
      assert l[..|l| - 1] == old_[|old_| + 1 - Kept..];
    }
    forall v | v != userId ensures Lookup(w, v) == Lookup(store, v) {
    }
  }

  /** Every list of the store holds at most 50 entries, each listing its
      genres once. */
  ghost predicate Bounded(store: map<string, seq<Conversation>>) {
    forall u :: u in store ==> |store[u]| <= Kept && forall i :: 0 <= i < |store[u]| ==> NoDup(store[u][i].genres)
  }

  lemma AddKeepsBounded(store: map<string, seq<Conversation>>, userId: string, message: string, mood: MoodInfo, recs: seq<Recommendation>)
    requires Bounded(store)
    ensures Bounded(WithConversation(store, userId, EntryOf(message, mood, recs)))
  {
    var e := EntryOf(message, mood, recs);
    var s := Lookup(store, userId) + [e];
    forall i | 0 <= i < |LastAtMost(s, Kept)| ensures NoDup(LastAtMost(s, Kept)[i].genres) {
      var j := if |s| <= Kept then i else i + |s| - Kept;
      assert LastAtMost(s, Kept)[i] == s[j];
    }
  }

  /** `l[-limit:]`: a negative start counts from the end, and `-0` is `0`. */
  function PyTail<T>(s: seq<T>, limit: int): seq<T> {
    if limit == 0 then s
    else if limit > 0 then LastAtMost(s, limit)
    else if -limit >= |s| then []
    else s[-limit..]
  }

  /** `get_user_conversations(user_id, limit)` */
  function Recent(store: map<string, seq<Conversation>>, userId: string, limit: int): seq<Conversation> {
    PyTail(Lookup(store, userId), limit)
  }

  /** An unknown user has no conversations. A positive limit gives the last
      min(limit, n) entries; a limit of 0 gives all of them, since `[-0:]`
      is the whole list; a negative limit drops that many from the front.
      The result is always a suffix of the user's list. */
  lemma RecentProperties(store: map<string, seq<Conversation>>, userId: string, limit: int)
    ensures userId !in store ==> Recent(store, userId, limit) == []
    ensures var l := Lookup(store, userId);
      var r := Recent(store, userId, limit);
      && |r| <= |l| && r == l[|l| - |r|..]
      && (limit > 0 ==> |r| == Min(limit, |l|))
      && (limit == 0 ==> r == l)
      && (limit < 0 ==> |r| == |l| - Min(-limit, |l|))
  {
  }

  // ---------------------------------------------------------------------
  // Counting dictionaries
  // ---------------------------------------------------------------------

  /** One item of a counting dict. */
  datatype Tally<K> = Tally(key: K, count: nat)

  function KeysOf<K>(d: seq<Tally<K>>): (ks: seq<K>)
    ensures |ks| == |d|
    ensures forall i :: 0 <= i < |d| ==> ks[i] == d[i].key
  {
    seq(|d|, i requires 0 <= i < |d| => d[i].key)
  }

  /** `d.get(k, 0)` */
  function Get<K(==)>(d: seq<Tally<K>>, k: K): nat {
    if |d| == 0 then 0
    else if d[0].key == k then d[0].count
    else Get(d[1..], k)
  }

  /** `d[k] = d.get(k, 0) + 1`: an existing key keeps its place, a new one goes last. */
  function Bump<K(==)>(d: seq<Tally<K>>, k: K): seq<Tally<K>> {
    if |d| == 0 then [Tally(k, 1)]
    else if d[0].key == k then [Tally(k, d[0].count + 1)] + d[1..]
    else [d[0]] + Bump(d[1..], k)
  }

  /** The sum of the counts. */
  function Total<K>(d: seq<Tally<K>>): nat {
    if |d| == 0 then 0 else d[0].count + Total(d[1..])
  }

  /** Bumping `k` adds one to `k`'s count and to the total and leaves every
      other count alone; `k` joins the keys at the end if it was new, and
      keys stay distinct. */
  lemma BumpProperties<K>(d: seq<Tally<K>>, k: K)
    requires NoDup(KeysOf(d))
    ensures NoDup(KeysOf(Bump(d, k)))
    ensures KeysOf(Bump(d, k)) == if k in KeysOf(d) then KeysOf(d) else KeysOf(d) + [k]
    ensures forall j :: Get(Bump(d, k), j) == Get(d, j) + (if j == k then 1 else 0)
    ensures Total(Bump(d, k)) == Total(d) + 1
  {
    BumpKeys(d, k);
    BumpGet(d, k);
    BumpTotal(d, k);
  }

  lemma BumpKeys<K>(d: seq<Tally<K>>, k: K)
    requires NoDup(KeysOf(d))
    ensures NoDup(KeysOf(Bump(d, k)))
    ensures KeysOf(Bump(d, k)) == if k in KeysOf(d) then KeysOf(d) else KeysOf(d) + [k]
  {
    BumpKeyOrder(d, k);
    var ks := KeysOf(d);
    if k !in ks {
      forall i, j | 0 <= i < j < |ks| + 1 ensures (ks + [k])[i] != (ks + [k])[j] {
        if j == |ks| {
          assert (ks + [k])[i] == ks[i];
        }
      }
    }
  }

  /** Bumping keeps the key order and appends a new key. */
  lemma {:induction false} BumpKeyOrder<K>(d: seq<Tally<K>>, k: K)
    ensures KeysOf(Bump(d, k)) == if k in KeysOf(d) then KeysOf(d) else KeysOf(d) + [k]
  {
    if |d| == 0 {
    } else if d[0].key == k {
      var b := Bump(d, k);
      assert b[1..] == d[1..];
      assert KeysOf(b) == KeysOf(d);
    } else {
      var t := d[1..];
      BumpKeyOrder(t, k);
      var b := Bump(d, k);
      var kt := KeysOf(t);
      assert b == [d[0]] + Bump(t, k);
      assert KeysOf(b) == [d[0].key] + KeysOf(Bump(t, k));
      assert KeysOf(d) == [d[0].key] + kt;
      if k in kt {
        assert k in KeysOf(d);
      } else {
        assert k !in KeysOf(d);
        assert [d[0].key] + (kt + [k]) == ([d[0].key] + kt) + [k];
      }
    }
  }

  lemma {:induction false} BumpGet<K>(d: seq<Tally<K>>, k: K)
    ensures forall j :: Get(Bump(d, k), j) == Get(d, j) + (if j == k then 1 else 0)
  {
    if |d| > 0 {
      var b := Bump(d, k);
      if d[0].key == k {
        assert b[1..] == d[1..];
      } else {
        BumpGet(d[1..], k);
        assert b[1..] == Bump(d[1..], k);
      }
    }
  }

  lemma {:induction false} BumpTotal<K>(d: seq<Tally<K>>, k: K)
    ensures Total(Bump(d, k)) == Total(d) + 1
  {
    if |d| > 0 {
      var b := Bump(d, k);
      if d[0].key == k {
        assert b[1..] == d[1..];
      } else {
        BumpTotal(d[1..], k);
        assert b[1..] == Bump(d[1..], k);
      }
    }
  }

  /** A key the dict does not hold has count zero (`d.get(k, 0)`). */
  lemma {:induction false} GetOfKeys<K>(d: seq<Tally<K>>, k: K)
    ensures k !in KeysOf(d) ==> Get(d, k) == 0
  {
    if |d| > 0 && d[0].key != k {
      assert KeysOf(d[1..]) == KeysOf(d)[1..];
      GetOfKeys(d[1..], k);
    }
  }

  /** The key `get_user_mood_history` counts an entry under:
      `convo.get("mood", {}).get("mood", "neutral")`, which is `None` for a
      stored `null`. */
  function MoodKey(c: Conversation): Option<string> {
    TextOr(c.mood.mood, "neutral")
  }

  /** `mood_count` after the loop over `cs`. */
  function MoodCounts(cs: seq<Conversation>): seq<Tally<Option<string>>> {
    if |cs| == 0 then [] else Bump(MoodCounts(cs[..|cs| - 1]), MoodKey(cs[|cs| - 1]))
  }

  /** How many entries of `cs` are counted under mood `m`. */
  function WithMood(cs: seq<Conversation>, m: Option<string>): nat {
    if |cs| == 0 then 0 else WithMood(cs[..|cs| - 1], m) + (if MoodKey(cs[|cs| - 1]) == m then 1 else 0)
  }

  /** Each mood is counted once per entry carrying it (an entry without a
      mood counts as "neutral", a `null` one under `None`), the moods are the distinct keys, and the
      counts add up to the number of entries. */
  lemma {:induction false} MoodCountsProperties(cs: seq<Conversation>)
    ensures NoDup(KeysOf(MoodCounts(cs)))
    ensures forall m :: Get(MoodCounts(cs), m) == WithMood(cs, m)
    ensures forall m :: m in KeysOf(MoodCounts(cs)) <==> exists i :: 0 <= i < |cs| && MoodKey(cs[i]) == m
    ensures Total(MoodCounts(cs)) == |cs|
  {
    if |cs| > 0 {
      var p := cs[..|cs| - 1];
      MoodCountsProperties(p);
      BumpProperties(MoodCounts(p), MoodKey(cs[|cs| - 1]));
      forall m ensures m in KeysOf(MoodCounts(cs)) <==> exists i :: 0 <= i < |cs| && MoodKey(cs[i]) == m {
        MoodAmong(cs, p, m);
      }
    }
  }

  /** An entry carries mood `m` when an earlier one or the last one does. */
  lemma MoodAmong(cs: seq<Conversation>, p: seq<Conversation>, m: Option<string>)
    requires |cs| > 0 && p == cs[..|cs| - 1]
    ensures (exists i :: 0 <= i < |cs| && MoodKey(cs[i]) == m) <==>
      (exists i :: 0 <= i < |p| && MoodKey(p[i]) == m) || MoodKey(cs[|cs| - 1]) == m
  {
    if exists i :: 0 <= i < |p| && MoodKey(p[i]) == m {
      var i :| 0 <= i < |p| && MoodKey(p[i]) == m;
      assert cs[i] == p[i];
    }
    if exists i :: 0 <= i < |cs| && MoodKey(cs[i]) == m {
      var i :| 0 <= i < |cs| && MoodKey(cs[i]) == m;
      if i < |p| {
        assert p[i] == cs[i];
      }
    }
  }

  /** An entry whose mood dictionary lacks "mood" is counted as "neutral",
      and one holding `null` under "mood" is counted under `None`. */
  lemma MissingMoodIsNeutral(c: Conversation)
    ensures c.mood.mood.Absent? ==> MoodKey(c) == Some("neutral")
    ensures c.mood.mood.Null? ==> MoodKey(c) == None
    ensures Get(MoodCounts([c]), MoodKey(c)) == 1
  {
    BumpProperties(MoodCounts([]), MoodKey(c));
  }

  /** The inner loop of `get_user_genre_preferences`: bump each genre in order. */
  function AddGenres(d: seq<Tally<Option<string>>>, gs: seq<Option<string>>): seq<Tally<Option<string>>> {
    if |gs| == 0 then d else Bump(AddGenres(d, gs[..|gs| - 1]), gs[|gs| - 1])
  }

  /** `genre_count` after the loop over `cs`. */
  function GenreCounts(cs: seq<Conversation>): seq<Tally<Option<string>>> {
    if |cs| == 0 then [] else AddGenres(GenreCounts(cs[..|cs| - 1]), cs[|cs| - 1].genres)
  }

  /** How many entries of `cs` list genre `g`. */
  function Listing(cs: seq<Conversation>, g: Option<string>): nat {
    if |cs| == 0 then 0 else Listing(cs[..|cs| - 1], g) + (if g in cs[|cs| - 1].genres then 1 else 0)
  }

  lemma {:induction false} ListingAtMost(cs: seq<Conversation>, g: Option<string>)
    ensures Listing(cs, g) <= |cs|
    ensures Listing(cs, g) > 0 <==> exists i :: 0 <= i < |cs| && g in cs[i].genres
  {
    if |cs| > 0 {
      var p := cs[..|cs| - 1];
      ListingAtMost(p, g);
      if exists i :: 0 <= i < |p| && g in p[i].genres {
        var i :| 0 <= i < |p| && g in p[i].genres;
        assert cs[i] == p[i];
      }
      if exists i :: 0 <= i < |cs| && g in cs[i].genres {
        var i :| 0 <= i < |cs| && g in cs[i].genres;
        if i < |p| {
          assert p[i] == cs[i];
        }
      }
    }
  }

  lemma {:induction false} AddGenresProperties(d: seq<Tally<Option<string>>>, gs: seq<Option<string>>)
    requires NoDup(KeysOf(d)) && NoDup(gs)
    ensures NoDup(KeysOf(AddGenres(d, gs)))
    ensures forall g :: Get(AddGenres(d, gs), g) == Get(d, g) + (if g in gs then 1 else 0)
    ensures forall g :: g in KeysOf(AddGenres(d, gs)) <==> g in KeysOf(d) || g in gs
  {
    if |gs| > 0 {
      var p := gs[..|gs| - 1];
      var x := gs[|gs| - 1];
      assert gs == p + [x];
      assert NoDup(p);
      assert x !in p;
      assert forall g :: g in gs <==> g in p || g == x;
      AddGenresProperties(d, p);
      BumpProperties(AddGenres(d, p), x);
    }
  }

  /** Genre counts: each genre's count is the number of entries listing it,
      so none exceeds the number of entries; the genres are the distinct
      keys. Entries built by `add_conversation` list each genre once. */
  lemma {:induction false} GenreCountsProperties(cs: seq<Conversation>)
    requires forall i :: 0 <= i < |cs| ==> NoDup(cs[i].genres)
    ensures NoDup(KeysOf(GenreCounts(cs)))
    ensures forall g :: Get(GenreCounts(cs), g) == Listing(cs, g)
    ensures forall g :: g in KeysOf(GenreCounts(cs)) <==> exists i :: 0 <= i < |cs| && g in cs[i].genres
  {
    if |cs| > 0 {
      var p := cs[..|cs| - 1];
      assert forall i :: 0 <= i < |p| ==> p[i] == cs[i];
      GenreCountsProperties(p);
      AddGenresProperties(GenreCounts(p), cs[|cs| - 1].genres);
      forall g ensures g in KeysOf(GenreCounts(cs)) <==> exists i :: 0 <= i < |cs| && g in cs[i].genres {
        if exists i :: 0 <= i < |cs| && g in cs[i].genres {
          var i :| 0 <= i < |cs| && g in cs[i].genres;
          if i < |p| {
            assert p[i] == cs[i];
          }
        }
      }
    }
  }

  /** The contents of `conversations.json`. */
  class ConversationStore {
    var conversations: map<string, seq<Conversation>>

    /** The store `load_conversations` returns without a file: empty. */
    constructor ()
      ensures conversations == map[]
    {
      conversations := map[];
    }

    /** `add_conversation` */
    method AddConversation(userId: string, message: string, mood: MoodInfo, recs: seq<Recommendation>)
      modifies this
      ensures conversations == WithConversation(old(conversations), userId, EntryOf(message, mood, recs))
    {
      if userId !in conversations {
        conversations := conversations[userId := []];
      }
      var entry := EntryOf(message, mood, recs);
      conversations := conversations[userId := conversations[userId] + [entry]];
      var l := conversations[userId];
      conversations := conversations[userId := if |l| > Kept then l[|l| - Kept..] else l];
    }

    /** `get_user_conversations` */
    method GetUserConversations(userId: string, limit: int) returns (r: seq<Conversation>)
      ensures r == Recent(conversations, userId, limit)
    {
      var userConvos := Lookup(conversations, userId);
      if limit == 0 {
        r := userConvos;
      } else if limit > 0 {
        r := if |userConvos| <= limit then userConvos else userConvos[|userConvos| - limit..];
      } else {
        r := if -limit >= |userConvos| then [] else userConvos[-limit..];
      }
    }

    /** `get_user_mood_history` */
    method GetUserMoodHistory(userId: string) returns (moodCount: seq<Tally<Option<string>>>)
      ensures moodCount == MoodCounts(Lookup(conversations, userId))
    {
      var userConvos := Lookup(conversations, userId);
      moodCount := [];
      var i := 0;
      while i < |userConvos|
        invariant 0 <= i <= |userConvos|
        invariant moodCount == MoodCounts(userConvos[..i])
      {
        assert userConvos[..i + 1][..i] == userConvos[..i];
        moodCount := Bump(moodCount, MoodKey(userConvos[i]));
        i := i + 1;
      }
      assert userConvos[..i] == userConvos;
    }

    /** `get_user_genre_preferences` */
    method GetUserGenrePreferences(userId: string) returns (genreCount: seq<Tally<Option<string>>>)
      ensures genreCount == GenreCounts(Lookup(conversations, userId))
    {
      var userConvos := Lookup(conversations, userId);
      genreCount := [];
      var i := 0;
      while i < |userConvos|
        invariant 0 <= i <= |userConvos|
        invariant genreCount == GenreCounts(userConvos[..i])
      {
        var gs := userConvos[i].genres;
        var j := 0;
        while j < |gs|
          invariant 0 <= j <= |gs|
          invariant genreCount == AddGenres(GenreCounts(userConvos[..i]), gs[..j])
        {
          assert gs[..j + 1][..j] == gs[..j];
          genreCount := Bump(genreCount, gs[j]);
          j := j + 1;
        }
        assert gs[..j] == gs;
        assert userConvos[..i + 1][..i] == userConvos[..i];
        i := i + 1;
      }
      assert userConvos[..i] == userConvos;
    }
  }
}
