/** The legacy watch-history store (`recommender/app/user_profile.py`): a
    map from user id to the titles the user watched, in the order they were
    first added. The JSON file is the `history` field; reading it and
    writing it back are not modelled. */
module UserProfile {
  import opened Text

  /** `history.get(user_id, [])` */
  function Lookup(h: map<string, seq<string>>, userId: string): seq<string> {
    if userId in h then h[userId] else []
  }

  /** The store after `add_to_history(user_id, show_title)`. */
  function WithTitle(h: map<string, seq<string>>, userId: string, title: string): map<string, seq<string>> {
    var titles := Lookup(h, userId);
    if title in titles then h else h[userId := titles + [title]]
  }

  /** Every user's list is free of duplicates. */
  ghost predicate Distinct(h: map<string, seq<string>>) {
    forall u :: u in h ==> NoDup(h[u])
  }

  /** The title is appended at the end exactly when it was absent, and is
      in the list afterwards; nothing else in the store changes. */
  lemma WithTitleProperties(h: map<string, seq<string>>, userId: string, title: string)
    ensures title in Lookup(h, userId) ==> WithTitle(h, userId, title) == h
    ensures title !in Lookup(h, userId) ==> Lookup(WithTitle(h, userId, title), userId) == Lookup(h, userId) + [title]
    ensures title in Lookup(WithTitle(h, userId, title), userId)
    ensures forall v :: v != userId ==> Lookup(WithTitle(h, userId, title), v) == Lookup(h, v)
    ensures WithTitle(h, userId, title).Keys == h.Keys + (if title in Lookup(h, userId) then {} else {userId})
  {
  }

  /** Adding the same title twice is adding it once, and a duplicate-free
      store stays duplicate-free. */
  lemma WithTitleIdempotent(h: map<string, seq<string>>, userId: string, title: string)
    ensures WithTitle(WithTitle(h, userId, title), userId, title) == WithTitle(h, userId, title)
    ensures Distinct(h) ==> Distinct(WithTitle(h, userId, title))
  {
    var h1 := WithTitle(h, userId, title);
    if Distinct(h) && title !in Lookup(h, userId) {
      var s := Lookup(h, userId);
      assert NoDup(s);
      assert NoDup(s + [title]) by {
        forall i, j | 0 <= i < j < |s| + 1 ensures (s + [title])[i] != (s + [title])[j] {
          if j == |s| {
            assert (s + [title])[i] == s[i];
          }
        }
      }
    }
  }

  /** The contents of `user_history.json`. */
  class HistoryStore {
    var history: map<string, seq<string>>

    /** `load_user_history` when the file does not exist yet: an empty store. */
    constructor ()
      ensures history == map[]
    {
      history := map[];
    }

    /** `add_to_history` */
    method AddToHistory(userId: string, showTitle: string)
      modifies this
      ensures history == WithTitle(old(history), userId, showTitle)
    {
      var userData := Lookup(history, userId);
      if showTitle !in userData {
        userData := userData + [showTitle];
        history := history[userId := userData];
      }
    }

    /** `get_user_history`: the user's titles, none for an unknown user. */
    method GetUserHistory(userId: string) returns (titles: seq<string>)
      ensures userId in history ==> titles == history[userId]
      ensures userId !in history ==> titles == []
    {
      titles := Lookup(history, userId);
    }
  }
}
