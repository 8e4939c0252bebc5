/** Python string primitives the recommender relies on, stated over `seq<char>`:
    `str.lower()`, `str.split()` (no separator), `str.split(sep)`, `str.strip()`
    and the substring test `needle in haystack`. Only the ASCII range is modelled
    for case and whitespace. */
module Text {

  datatype Option<+T> = None | Some(value: T) {
    function GetOr(default: T): T {
      match this
      case Some(v) => v
      case None => default
    }
  }

  /** Python's `str.isspace()` on the ASCII range: tab, line feed, vertical tab,
      form feed, carriage return, the four information separators, space. */
  predicate IsSpace(c: char) {
    var k := c as int;
    k == 32 || 9 <= k <= 13 || 28 <= k <= 31
  }

  function LowerChar(c: char): (r: char)
    ensures 'A' <= c <= 'Z' ==> r as int == c as int + 32
    ensures !('A' <= c <= 'Z') ==> r == c
    ensures !('A' <= r <= 'Z')
  {
    if 'A' <= c <= 'Z' then (c as int + 32) as char else c
  }

  /** `s.lower()` */
  function Lower(s: string): (r: string)
    ensures |r| == |s|
    ensures forall i :: 0 <= i < |s| ==> r[i] == LowerChar(s[i])
  {
    seq(|s|, i requires 0 <= i < |s| => LowerChar(s[i]))
  }

  lemma LowerConcat(a: string, b: string)
    ensures Lower(a + b) == Lower(a) + Lower(b)
  {
    assert forall i :: 0 <= i < |a + b| ==> Lower(a + b)[i] == (Lower(a) + Lower(b))[i];
  }

  /** Lower-casing twice is lower-casing once. */
  lemma LowerIdempotent(s: string)
    ensures Lower(Lower(s)) == Lower(s)
  {
  }

  /** A character that `Lower` maps to a lower-case ASCII letter `c` was `c`
      itself or its upper-case form. */
  lemma LowerCharFrom(x: char, c: char)
    requires 'a' <= c <= 'z' && LowerChar(x) == c
    ensures x == c || x as int == c as int - 32
  {
  }

  // ---------------------------------------------------------------------------
  // str.split() with no argument: maximal runs of non-whitespace
  // ---------------------------------------------------------------------------

  /** Length of the leading run of non-whitespace characters. */
  function TokenLen(s: string): (n: nat)
    ensures n <= |s|
    ensures s != [] && !IsSpace(s[0]) ==> n > 0
    ensures forall i :: 0 <= i < n ==> !IsSpace(s[i])
    ensures n < |s| ==> IsSpace(s[n])
  {
    if s == [] || IsSpace(s[0]) then 0 else 1 + TokenLen(s[1..])
  }

  /** `s.split()`: the whitespace-separated tokens of `s`, in order, empty
      tokens dropped. */
  function Split(s: string): (r: seq<string>)
    decreases |s|
  {
    if s == [] then []
    else if IsSpace(s[0]) then Split(s[1..])
    else
      var n := TokenLen(s);
      [s[..n]] + Split(s[n..])
  }

  /** Every token is non-empty and free of whitespace. */
  lemma {:induction false} SplitTokensAreWords(s: string)
    ensures forall t :: t in Split(s) ==> |t| > 0 && forall c :: c in t ==> !IsSpace(c)
    decreases |s|
  {
    if s == [] {
    } else if IsSpace(s[0]) {
      SplitTokensAreWords(s[1..]);
    } else {
      var n := TokenLen(s);
      SplitTokensAreWords(s[n..]);
      assert forall c :: c in s[..n] ==> !IsSpace(c) by {
        forall c | c in s[..n] ensures !IsSpace(c) {
          var i :| 0 <= i < n && s[..n][i] == c;
          assert s[i] == c;
        }
      }
    }
  }

  lemma {:induction false} TokenLenBeforeSpace(a: string, c: char, b: string)
    requires IsSpace(c)
    ensures TokenLen(a + [c] + b) == TokenLen(a)
    decreases |a|
  {
    if a == [] {
      assert (a + [c] + b)[0] == c;
    } else if IsSpace(a[0]) {
      assert (a + [c] + b)[0] == a[0];
    } else {
      assert (a + [c] + b)[0] == a[0];
      assert (a + [c] + b)[1..] == a[1..] + [c] + b;
      TokenLenBeforeSpace(a[1..], c, b);
    }
  }

  /** Splitting two texts joined by a whitespace character gives the tokens of
      each, in order: this is why the concatenated keyword text of a catalogue
      row splits into the tokens of its title, its genre and its tags. */
  lemma {:induction false} SplitJoin(a: string, c: char, b: string)
    requires IsSpace(c)
    ensures Split(a + [c] + b) == Split(a) + Split(b)
    decreases |a|
  {
    var s := a + [c] + b;
    if a == [] {
      assert s == [c] + b;
      assert s[1..] == b;
    } else if IsSpace(a[0]) {
      assert s[0] == a[0];
      assert s[1..] == a[1..] + [c] + b;
      SplitJoin(a[1..], c, b);
    } else {
      assert s[0] == a[0];
      TokenLenBeforeSpace(a, c, b);
      var n := TokenLen(a);
      assert s[..n] == a[..n];
      assert s[n..] == a[n..] + [c] + b;
      SplitJoin(a[n..], c, b);
    }
  }

  // ---------------------------------------------------------------------------
  // substring search, `needle in haystack`, and str.split(sep)
  // ---------------------------------------------------------------------------

  predicate StartsWith(s: string, prefix: string) {
    |prefix| <= |s| && s[..|prefix|] == prefix
  }

  /** Index of the first occurrence of `sep` in `s` at or after `k`. */
  function FindFrom(s: string, sep: string, k: nat): (r: Option<nat>)
    ensures r.Some? ==> k <= r.value && r.value + |sep| <= |s| && s[r.value..r.value + |sep|] == sep
    ensures r.Some? ==> forall j :: k <= j < r.value ==> !StartsWith(s[j..], sep)
    ensures r.None? ==> forall j :: k <= j <= |s| ==> !StartsWith(s[j..], sep)
    decreases |s| + 1 - k
  {
    if k > |s| then None
    else if StartsWith(s[k..], sep) then
      assert s[k..][..|sep|] == s[k..k + |sep|];
      Some(k)
    else FindFrom(s, sep, k + 1)
  }

  /** Index of the first occurrence of `sep` in `s` (Python's `s.find(sep)`,
      with None for -1). */
  function FirstIndex(s: string, sep: string): (r: Option<nat>)
    ensures r.Some? ==> r.value + |sep| <= |s| && s[r.value..r.value + |sep|] == sep
    ensures r.Some? ==> forall j :: 0 <= j < r.value ==> !StartsWith(s[j..], sep)
    ensures r.None? ==> forall j :: 0 <= j <= |s| ==> !StartsWith(s[j..], sep)
  {
    FindFrom(s, sep, 0)
  }

  /** Python's `needle in haystack` on strings. */
  predicate Contains(haystack: string, needle: string) {
    FirstIndex(haystack, needle).Some?
  }

  /** `needle` occurs in `h` at position `i`. */
  predicate OccursAt(h: string, needle: string, i: nat) {
    i + |needle| <= |h| && h[i..i + |needle|] == needle
  }

  /** The substring test in its textbook form: the needle occurs at some position. */
  lemma ContainsIffOccurs(h: string, n: string)
    ensures Contains(h, n) <==> exists i: nat :: OccursAt(h, n, i)
  {
    if Contains(h, n) {
      assert OccursAt(h, n, FirstIndex(h, n).value);
    } else {
      forall i: nat | i + |n| <= |h|
        ensures !OccursAt(h, n, i)
      {
        assert !StartsWith(h[i..], n);
        assert h[i..][..|n|] == h[i..i + |n|];
      }
    }
  }

  /** Every character of a contained needle occurs in the haystack. */
  lemma ContainsChars(h: string, n: string, c: char)
    requires Contains(h, n) && c in n
    ensures c in h
  {
    var i := FirstIndex(h, n).value;
    var k :| 0 <= k < |n| && n[k] == c;
    assert h[i..i + |n|][k] == h[i + k];
  }

  /** Python's `s.split(sep)` for a non-empty separator: the pieces between
      occurrences, always at least one. */
  function SplitOn(s: string, sep: string): (parts: seq<string>)
    requires |sep| > 0
    ensures |parts| >= 1
    ensures |parts| >= 2 <==> Contains(s, sep)
    ensures !Contains(parts[0], sep)
    decreases |s|
  {
    match FirstIndex(s, sep)
    case None => [s]
    case Some(i) =>
      FirstPieceFree(s, sep, i);
      [s[..i]] + SplitOn(s[i + |sep|..], sep)
  }

  /** The text before the first occurrence of `sep` does not contain `sep`. */
  lemma FirstPieceFree(s: string, sep: string, i: nat)
    requires |sep| > 0 && FirstIndex(s, sep) == Some(i)
    ensures !Contains(s[..i], sep)
  {
    forall k: nat | k + |sep| <= i
      ensures !OccursAt(s[..i], sep, k)
    {
      assert !StartsWith(s[k..], sep);
      assert s[..i][k..k + |sep|] == s[k..][..|sep|];
    }
    ContainsIffOccurs(s[..i], sep);
  }

  /** A string without `sep` divides into itself alone. */
  lemma SplitOnAbsent(s: string, sep: string)
    requires |sep| > 0 && !Contains(s, sep)
    ensures SplitOn(s, sep) == [s]
  {
  }

  // ---------------------------------------------------------------------------
  // str.strip()
  // ---------------------------------------------------------------------------

  function StripLeft(s: string): (r: string)
    ensures r == [] || !IsSpace(r[0])
    ensures |r| <= |s| && r == s[|s| - |r|..]
  {
    if s != [] && IsSpace(s[0]) then StripLeft(s[1..]) else s
  }

  function StripRight(s: string): (r: string)
    ensures r == [] || !IsSpace(r[|r| - 1])
    ensures |r| <= |s| && r == s[..|r|]
  {
    if s != [] && IsSpace(s[|s| - 1]) then StripRight(s[..|s| - 1]) else s
  }

  /** `s.strip()`: `s` without leading and trailing whitespace. */
  function Strip(s: string): string {
    StripRight(StripLeft(s))
  }

  /** A trimmed text has no whitespace at either end. */
  lemma StripTrims(s: string)
    ensures Strip(s) == [] || (!IsSpace(Strip(s)[0]) && !IsSpace(Strip(s)[|Strip(s)| - 1]))
  {
    var l := StripLeft(s);
    var r := StripRight(l);
    if r != [] {
      assert r[0] == l[0];
    }
  }

  /** A leading whitespace character does not change the trimmed text. */
  lemma StripSpaceFront(c: char, s: string)
    requires IsSpace(c)
    ensures Strip([c] + s) == Strip(s)
  {
    assert ([c] + s)[1..] == s;
  }

  /** A trailing whitespace character does not change the trimmed text. */
  lemma {:induction false} StripSpaceBack(s: string, c: char)
    requires IsSpace(c)
    ensures Strip(s + [c]) == Strip(s)
    decreases |s|
  {
    if s != [] && IsSpace(s[0]) {
      assert (s + [c])[1..] == s[1..] + [c];
      StripSpaceBack(s[1..], c);
    } else if s == [] {
      assert StripLeft([c]) == [];
    } else {
      // StripLeft keeps everything from the first character on
      var t := s + [c];
      assert StripLeft(t) == t;
      assert StripLeft(s) == s;
      assert t[..|t| - 1] == s;
    }
  }

  // ---------------------------------------------------------------------------
  // first-occurrence deduplication (insertion order of a Python dict or set
  // built by a left-to-right loop)
  // ---------------------------------------------------------------------------

  predicate NoDup<T(==)>(s: seq<T>) {
    forall i, j :: 0 <= i < j < |s| ==> s[i] != s[j]
  }

  /** The distinct elements of `s`, each at its first occurrence. */
  function Dedup<T(==)>(s: seq<T>): (r: seq<T>)
    ensures NoDup(r)
    ensures forall i :: 0 <= i < |s| ==> s[i] in r
    ensures forall i :: 0 <= i < |r| ==> r[i] in s
    ensures |r| <= |s|
  {
    if s == [] then []
    else
      var d := Dedup(s[..|s| - 1]);
      var x := s[|s| - 1];
      assert forall i :: 0 <= i < |s| - 1 ==> s[i] == s[..|s| - 1][i];
      if x in d then d else d + [x]
  }

  // ---------------------------------------------------------------------------
  // boolean-mask filtering
  // ---------------------------------------------------------------------------

  /** The elements of `r` strictly increase. */
  predicate Increasing(r: seq<nat>) {
    forall a, b :: 0 <= a < b < |r| ==> r[a] < r[b]
  }

  /** The positions of the elements of `s` that satisfy `keep`, in order: the
      rows a boolean mask such as `df[df[col] == x]` selects. */
  function Positions<T>(s: seq<T>, keep: T -> bool): (r: seq<nat>)
    ensures Increasing(r)
    ensures forall a :: 0 <= a < |r| ==> r[a] < |s|
    ensures forall i: nat :: i in r <==> i < |s| && keep(s[i])
  {
    if s == [] then []
    else
      var p := Positions(s[..|s| - 1], keep);
      if keep(s[|s| - 1]) then p + [|s| - 1] else p
  }
}
