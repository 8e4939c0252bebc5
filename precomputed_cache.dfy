/** The precomputed-result cache of the eager recommender: a lookup of the
    prompt in the index of stored queries (an exact case-insensitive match on
    the stored message first, then an ordered table of trigger words tried as
    substrings), and the stored result handed back with only its `user_id`
    rewritten. */
module PrecomputedCache {
  import opened Text

  /** A JSON value as `json.load` returns it. */
  datatype Json =
    | JNull
    | JBool(b: bool)
    | JNum(x: real)
    | JStr(s: string)
    | JArr(items: seq<Json>)
    | JObj(fields: map<string, Json>)

  /** A stored result file: a JSON object. */
  type Document = map<string, Json>

  /** One element of `_index.json`; the other fields are not read. */
  datatype IndexEntry = IndexEntry(key: string, message: string)

  /** One row of `keywords_map`: a key fragment and the words that select it. */
  datatype Bucket = Bucket(name: string, triggers: seq<string>)

  /** `keywords_map`, in its insertion order, which is the order it is tried in. */
  const Buckets: seq<Bucket> := [
    Bucket("action", ["action", "exciting", "energetic", "thrilling"]),
    Bucket("comedy", ["funny", "comedy", "laugh", "light", "entertaining"]),
    Bucket("drama", ["drama", "emotional"]),
    Bucket("thriller", ["thriller", "suspense"]),
    Bucket("romance", ["romance", "romantic", "love", "date"]),
    Bucket("horror", ["horror", "scary", "frightening"]),
    Bucket("happy_comedy", ["happy", "funny"]),
    Bucket("sad_uplifting", ["sad", "uplifting"]),
    Bucket("calm_relaxing", ["calm", "relaxing"]),
    Bucket("energetic_action", ["energetic", "action"])
  ]

  /** The first entry from position `k` on whose lower-cased message is `p`. */
  function ExactFrom(index: seq<IndexEntry>, p: string, k: nat): (r: Option<nat>)
    ensures r.Some? ==> k <= r.value < |index| && Lower(index[r.value].message) == p
    ensures r.Some? ==> forall j :: k <= j < r.value ==> Lower(index[j].message) != p
    ensures r.None? ==> forall j :: k <= j < |index| ==> Lower(index[j].message) != p
    decreases |index| - k
  {
    if k >= |index| then None
    else if Lower(index[k].message) == p then Some(k)
    else ExactFrom(index, p, k + 1)
  }

  /** The first entry from position `k` on whose key contains `name`. */
  function KeyFrom(index: seq<IndexEntry>, name: string, k: nat): (r: Option<nat>)
    ensures r.Some? ==> k <= r.value < |index| && Contains(index[r.value].key, name)
    ensures r.Some? ==> forall j :: k <= j < r.value ==> !Contains(index[j].key, name)
    ensures r.None? ==> forall j :: k <= j < |index| ==> !Contains(index[j].key, name)
    decreases |index| - k
  {
    if k >= |index| then None
    else if Contains(index[k].key, name) then Some(k)
    else KeyFrom(index, name, k + 1)
  }

  /** `any(word in prompt_lower for word in words)` */
  predicate Triggered(b: Bucket, p: string) {
    exists i :: 0 <= i < |b.triggers| && Contains(p, b.triggers[i])
  }

  /** A bucket selects an entry: one of its words occurs in the prompt and
      some key contains its name. */
  predicate Selects(index: seq<IndexEntry>, b: Bucket, p: string) {
    Triggered(b, p) && KeyFrom(index, b.name, 0).Some?
  }

  /** The keyword stage from bucket `t` on: the first selecting bucket's first key. */
  function BucketFrom(index: seq<IndexEntry>, p: string, t: nat): (r: Option<nat>)
    ensures r.Some? ==> r.value < |index|
    decreases |Buckets| - t
  {
    if t >= |Buckets| then None
    else if Selects(index, Buckets[t], p) then KeyFrom(index, Buckets[t].name, 0)
    else BucketFrom(index, p, t + 1)
  }

  /** `_find_precomputed`: the position of the matching entry. */
  function FindEntry(index: seq<IndexEntry>, prompt: string): (r: Option<nat>)
    ensures r.Some? ==> r.value < |index|
  {
    if index == [] then None
    else
      var p := Lower(prompt);
      match ExactFrom(index, p, 0)
      case Some(j) => Some(j)
      case None => BucketFrom(index, p, 0)
  }

  /** `_find_precomputed`: the key of the matching entry. */
  function FindPrecomputed(index: seq<IndexEntry>, prompt: string): (r: Option<string>)
    ensures r.Some? ==> exists j :: 0 <= j < |index| && index[j].key == r.value
  {
    match FindEntry(index, prompt)
    case None => None
    case Some(j) => Some(index[j].key)
  }

  /** No stored message equals `p` after lower-casing. */
  predicate NoExact(index: seq<IndexEntry>, p: string) {
    forall j :: 0 <= j < |index| ==> Lower(index[j].message) != p
  }

  /** Bucket `b` triggers on `p` and its name occurs in entry `j`'s key. */
  predicate KeyedBy(index: seq<IndexEntry>, b: nat, p: string, j: nat)
    requires b < |Buckets| && j < |index|
  {
    Triggered(Buckets[b], p) && Contains(index[j].key, Buckets[b].name)
  }

  lemma {:induction false} BucketFromSound(index: seq<IndexEntry>, p: string, t: nat)
    ensures BucketFrom(index, p, t).Some? ==>
      exists b :: t <= b < |Buckets| && KeyedBy(index, b, p, BucketFrom(index, p, t).value)
    ensures BucketFrom(index, p, t).None? ==> forall b :: t <= b < |Buckets| ==> !Selects(index, Buckets[b], p)
    decreases |Buckets| - t
  {
    if t < |Buckets| {
      if Selects(index, Buckets[t], p) {
        assert KeyedBy(index, t, p, BucketFrom(index, p, t).value);
      } else {
        BucketFromSound(index, p, t + 1);
      }
    }
  }

  /** An empty index finds nothing; the first entry whose message equals the
      prompt up to letter case wins before any keyword test. */
  lemma ExactMatchFirst(index: seq<IndexEntry>, prompt: string, j: nat)
    requires j < |index| && Lower(index[j].message) == Lower(prompt)
    requires forall i :: 0 <= i < j ==> Lower(index[i].message) != Lower(prompt)
    ensures FindPrecomputed(index, prompt) == Some(index[j].key)
    ensures FindPrecomputed([], prompt).None?
  {
    var r := ExactFrom(index, Lower(prompt), 0);
    assert r.Some? && r.value == j;
  }

  /** Without an exact match, a found key belongs to an entry whose key
      contains the name of a bucket one of whose words occurs in the
      lower-cased prompt; nothing is found exactly when no bucket both
      triggers and names some key. */
  lemma KeywordStage(index: seq<IndexEntry>, prompt: string)
    requires index != [] && NoExact(index, Lower(prompt))
    ensures FindEntry(index, prompt).Some? ==>
      exists b :: 0 <= b < |Buckets| && KeyedBy(index, b, Lower(prompt), FindEntry(index, prompt).value)
    ensures FindPrecomputed(index, prompt).None? <==>
      forall b :: 0 <= b < |Buckets| ==> !Selects(index, Buckets[b], Lower(prompt))
  {
    BucketFromSound(index, Lower(prompt), 0);
    assert ExactFrom(index, Lower(prompt), 0).None?;
  }

  /** Buckets are tried in table order: a found key comes from the first
      bucket that both triggers and names a key, and is the first key naming it. */
  lemma {:induction false} BucketFromFirst(index: seq<IndexEntry>, p: string, t: nat, b: nat)
    requires t <= b < |Buckets| && Selects(index, Buckets[b], p)
    requires forall c :: t <= c < b ==> !Selects(index, Buckets[c], p)
    ensures BucketFrom(index, p, t) == KeyFrom(index, Buckets[b].name, 0)
    decreases b - t
  {
    if t < b {
      BucketFromFirst(index, p, t + 1, b);
    }
  }

  /** Without an exact match, a prompt that mentions "action" is answered
      from the first entry when that entry's key contains "action": the
      action bucket is tried first and keys are matched by substring. */
  lemma ActionBucketFirst(index: seq<IndexEntry>, prompt: string)
    requires |index| > 0 && NoExact(index, Lower(prompt))
    requires Contains(Lower(prompt), "action") && Contains(index[0].key, "action")
    ensures FindPrecomputed(index, prompt) == Some(index[0].key)
  {
    var p := Lower(prompt);
    assert ExactFrom(index, p, 0).None?;
    assert Buckets[0].name == "action" && Buckets[0].triggers[0] == "action";
    assert Triggered(Buckets[0], p);
    assert KeyFrom(index, "action", 0) == Some(0);
  }

  lemma OccursContains(h: string, n: string, i: nat)
    requires OccursAt(h, n, i)
    ensures Contains(h, n)
  {
    ContainsIffOccurs(h, n);
  }

  /** The key test is a substring test, so the first key containing the
      bucket name wins even when a later key is the name itself: with
      "energetic_action" stored before "action", a prompt that merely
      mentions action is answered from "energetic_action". */
  lemma ActionFindsEnergeticAction()
    ensures FindPrecomputed([IndexEntry("energetic_action", "I want exciting action movies"),
                             IndexEntry("action", "I want action movies")], "Action please") == Some("energetic_action")
  {
    var index := [IndexEntry("energetic_action", "I want exciting action movies"),
                  IndexEntry("action", "I want action movies")];
    var p := Lower("Action please");
    assert NoExact(index, p) by {
      assert |Lower(index[0].message)| != |p|;
      assert |Lower(index[1].message)| != |p|;
    }
    assert p[0..6] == "action";
    OccursContains(p, "action", 0);
    var key := "energetic_action";
    assert key[10..16] == "action";
    OccursContains(key, "action", 10);
    ActionBucketFirst(index, "Action please");
  }

  /** Stage one is case-insensitive and comes first. */
  lemma ExactMatchIgnoresCase()
    ensures FindPrecomputed([IndexEntry("energetic_action", "I want exciting action movies"),
                             IndexEntry("action", "I want action movies")], "I WANT ACTION MOVIES") == Some("action")
  {
    var index := [IndexEntry("energetic_action", "I want exciting action movies"),
                  IndexEntry("action", "I want action movies")];
    var p := Lower("I WANT ACTION MOVIES");
    assert Lower(index[1].message) == p;
    assert |Lower(index[0].message)| != |p|;
    ExactMatchFirst(index, "I WANT ACTION MOVIES", 1);
  }

  /** `result['user_id'] = user_id` */
  function Restamp(doc: Document, userId: string): (r: Document)
    ensures "user_id" in r && r["user_id"] == JStr(userId)
    ensures forall f :: f != "user_id" ==> (f in r <==> f in doc)
    ensures forall f :: f != "user_id" && f in doc ==> r[f] == doc[f]
  {
    doc["user_id" := JStr(userId)]
  }

  /** Restamping twice keeps only the second id. */
  lemma RestampTwice(doc: Document, a: string, b: string)
    ensures Restamp(Restamp(doc, a), b) == Restamp(doc, b)
  {
  }

  /** A found key is used only when it is non-empty and names a stored,
      non-empty object (`if precomputed_key:` and `if result:`). */
  predicate Usable(docs: map<string, Document>, key: Option<string>) {
    key.Some? && key.value != "" && key.value in docs && docs[key.value] != map[]
  }

  /** The cache-hit path of `get_recommendations`: a found, non-empty key
      whose result file exists and holds a non-empty object yields that
      object restamped with the caller's id; anything else falls through to
      live scoring. `docs` stands for the readable result files by key. */
  function CacheHit(index: seq<IndexEntry>, docs: map<string, Document>, prompt: string, userId: string): (r: Option<Document>)
    ensures r.Some? ==> FindPrecomputed(index, prompt).Some? && FindPrecomputed(index, prompt).value in docs
    ensures r.Some? ==> r.value == Restamp(docs[FindPrecomputed(index, prompt).value], userId)
    ensures r.None? <==> !Usable(docs, FindPrecomputed(index, prompt))
  {
    match FindPrecomputed(index, prompt)
    case None => None
    case Some(key) =>
      if key != "" && key in docs && docs[key] != map[] then Some(Restamp(docs[key], userId)) else None
  }

  /** A cache hit is the stored result with `user_id` replaced and every other
      field as stored. */
  lemma CacheHitOnlyRestamps(index: seq<IndexEntry>, docs: map<string, Document>, prompt: string, userId: string)
    requires CacheHit(index, docs, prompt, userId).Some?
    ensures var r := CacheHit(index, docs, prompt, userId).value;
      exists key :: key in docs && docs[key] != map[] && OnlyUserIdDiffers(docs[key], r, userId)
  {
    var key := FindPrecomputed(index, prompt).value;
    assert key in docs && docs[key] != map[];
    assert OnlyUserIdDiffers(docs[key], CacheHit(index, docs, prompt, userId).value, userId);
  }

  /** `r` is `doc` with `user_id` set to `userId` and every other field as in `doc`. */
  ghost predicate OnlyUserIdDiffers(doc: Document, r: Document, userId: string) {
    && "user_id" in r && r["user_id"] == JStr(userId)
    && (forall f :: f != "user_id" ==> (f in r <==> f in doc))
    && (forall f :: f != "user_id" && f in doc ==> r[f] == doc[f])
  }
}
