/** The daily dedupe marker (`already_alerted_today` / `mark_alerted_today`,
    commute_check.py:74-87). The marker file is a store holding its text,
    `None` when the file does not exist. */
module Dedupe {
  import opened Wrappers

  type Store = Option<string>

  /** Python's `str.isspace()`: the characters `str.strip()` removes. */
  predicate IsSpace(c: char) {
    || c == ' ' || c == '\t' || c == '\n' || c == '\r'
    || c == '\U{0B}' || c == '\U{0C}'
    || ('\U{1C}' <= c <= '\U{1F}')
    || c == '\U{85}' || c == '\U{A0}' || c == '\U{1680}'
    || ('\U{2000}' <= c <= '\U{200A}')
    || c == '\U{2028}' || c == '\U{2029}' || c == '\U{202F}' || c == '\U{205F}' || c == '\U{3000}'
  }

  /** Neither end of `s` is whitespace. */
  predicate IsTrimmed(s: string) {
    |s| == 0 || (!IsSpace(s[0]) && !IsSpace(s[|s| - 1]))
  }

  /** `s` with its leading whitespace removed: a suffix of `s`. */
  function TrimStart(s: string): (r: string)
    ensures |r| <= |s| && r == s[|s| - |r|..]
    ensures forall i :: 0 <= i < |s| - |r| ==> IsSpace(s[i])
    ensures |r| == 0 || !IsSpace(r[0])
    decreases |s|
  {
    if |s| > 0 && IsSpace(s[0]) then TrimStart(s[1..]) else s
  }

  /** `s` with its trailing whitespace removed: a prefix of `s`. */
  function TrimEnd(s: string): (r: string)
    ensures |r| <= |s| && r == s[..|r|]
    ensures forall i :: |r| <= i < |s| ==> IsSpace(s[i])
    ensures |r| == 0 || !IsSpace(r[|r| - 1])
    decreases |s|
  {
    if |s| > 0 && IsSpace(s[|s| - 1]) then TrimEnd(s[..|s| - 1]) else s
  }

  /** `r` is the slice of `s` starting at `i`, and everything of `s`
      outside that slice is whitespace. */
  predicate Surrounds(s: string, r: string, i: int) {
    && 0 <= i <= |s| - |r|
    && r == s[i..i + |r|]
    && (forall j :: 0 <= j < i ==> IsSpace(s[j]))
    && (forall j :: i + |r| <= j < |s| ==> IsSpace(s[j]))
  }

  /** Python's `str.strip()`: the slice of `s` between its leading and its
      trailing run of whitespace. */
  function Strip(s: string): (r: string)
    ensures IsTrimmed(r)
    ensures |r| <= |s|
    ensures exists i :: Surrounds(s, r, i)
    ensures IsTrimmed(s) ==> r == s
    ensures |r| == 0 <==> forall i :: 0 <= i < |s| ==> IsSpace(s[i])
  {
    var a := TrimStart(s);
    var r := TrimEnd(a);
    TrimBothSurrounds(s, a, r);
    r
  }

  /** A prefix `r` of a suffix `a` of `s`, where `s` outside `a` and `a`
      outside `r` are whitespace and `r` has none at either end, is the slice
      between the whitespace runs of `s`; it is empty exactly when `s` is all
      whitespace. */
  lemma TrimBothSurrounds(s: string, a: string, r: string)
    requires |a| <= |s| && a == s[|s| - |a|..]
    requires forall j :: 0 <= j < |s| - |a| ==> IsSpace(s[j])
    requires |r| <= |a| && r == a[..|r|]
    requires forall j :: |r| <= j < |a| ==> IsSpace(a[j])
    requires IsTrimmed(r)
    ensures Surrounds(s, r, |s| - |a|)
    ensures |r| == 0 <==> forall i :: 0 <= i < |s| ==> IsSpace(s[i])
  {
    TrailingSpaces(s, a, r);
    AllSpaceIffEmpty(s, r, |s| - |a|);
  }

  /** A slice with no outer whitespace, surrounded only by whitespace, is
      empty exactly when the whole text is whitespace. */
  lemma AllSpaceIffEmpty(s: string, r: string, i: int)
    requires IsTrimmed(r) && Surrounds(s, r, i)
    ensures |r| == 0 <==> forall j :: 0 <= j < |s| ==> IsSpace(s[j])
  {
    if |r| > 0 {
      assert r[0] == s[i];
    }
  }

  /** What `TrimEnd` drops from the suffix `a` of `s` is whitespace of `s`. */
  lemma TrailingSpaces(s: string, a: string, r: string)
    requires |a| <= |s| && a == s[|s| - |a|..]
    requires |r| <= |a| && r == a[..|r|]
    requires forall j :: |r| <= j < |a| ==> IsSpace(a[j])
    ensures r == s[|s| - |a|..|s| - |a| + |r|]
    ensures forall j :: |s| - |a| + |r| <= j < |s| ==> IsSpace(s[j])
  {
    var i := |s| - |a|;
    forall j | i + |r| <= j < |s|
      ensures IsSpace(s[j])
    {
      assert s[j] == a[j - i];
    }
  }

  /** The slice kept by `str.strip()` is unique: two whitespace-free-ended
      slices surrounded only by whitespace are the same text. */
  lemma SurroundsUnique(s: string, r: string, i: int, k: string, i': int)
    requires IsTrimmed(r) && Surrounds(s, r, i)
    requires IsTrimmed(k) && Surrounds(s, k, i')
    ensures r == k
  {
    if |r| > 0 && |k| > 0 {
      assert r[0] == s[i] && k[0] == s[i'];
      assert r[|r| - 1] == s[i + |r| - 1] && k[|k| - 1] == s[i' + |k| - 1];
      assert i == i';
      assert i + |r| == i' + |k|;
    }
  }

  /** Stripping text that is `k` padded with whitespace gives back `k`. */
  lemma StripOfPadded(s: string, k: string, i: int)
    requires IsTrimmed(k) && Surrounds(s, k, i)
    ensures Strip(s) == k
  {
    var r := Strip(s);
    var i' :| Surrounds(s, r, i');
    SurroundsUnique(s, r, i', k, i);
  }

  /** Stripping gives `k` exactly when `k` has no outer whitespace and the
      text is `k` padded with whitespace. */
  lemma StripIsKeyIff(s: string, k: string)
    ensures Strip(s) == k <==> IsTrimmed(k) && exists i :: Surrounds(s, k, i)
  {
    if IsTrimmed(k) && exists i :: Surrounds(s, k, i) {
      var i :| Surrounds(s, k, i);
      StripOfPadded(s, k, i);
    }
  }

  /** `already_alerted_today`: the stored text, stripped, is today's key. */
  function AlreadyAlerted(store: Store, todayKey: string): (b: bool)
    ensures store.None? ==> !b
    ensures b ==> IsTrimmed(todayKey)
    ensures store.Some? && IsTrimmed(store.value) ==> (b <==> store.value == todayKey)
    ensures store.Some? ==>
      (b <==> IsTrimmed(todayKey) && exists i :: Surrounds(store.value, todayKey, i))
  {
    if store.Some? then
      StripIsKeyIff(store.value, todayKey);
      Strip(store.value) == todayKey
    else
      false
  }

  /** `mark_alerted_today`: the file is overwritten with today's key. */
  function Mark(store: Store, todayKey: string): (r: Store)
    ensures forall k :: AlreadyAlerted(r, k) <==> k == Strip(todayKey)
  {
    Some(todayKey)
  }

  /** Marking forgets what was stored before, and marking again changes nothing. */
  lemma MarkOverwrites(s1: Store, s2: Store, todayKey: string)
    ensures Mark(s1, todayKey) == Mark(s2, todayKey)
    ensures Mark(Mark(s1, todayKey), todayKey) == Mark(s1, todayKey)
  {
  }

  /** After a mark, only that key reads as already alerted. */
  lemma MarkThenCheck(store: Store, todayKey: string, otherKey: string)
    requires IsTrimmed(todayKey)
    ensures AlreadyAlerted(Mark(store, todayKey), todayKey)
    ensures otherKey != todayKey ==> !AlreadyAlerted(Mark(store, todayKey), otherKey)
  {
  }

  /** A `%Y-%m-%d` date key such as `2024-03-31`. */
  predicate IsDateKey(k: string) {
    && |k| == 10
    && k[4] == '-' && k[7] == '-'
    && forall i :: 0 <= i < 10 && i != 4 && i != 7 ==> '0' <= k[i] <= '9'
  }

  /** Date keys survive the strip, so the marker round-trips. */
  lemma DateKeyIsTrimmed(k: string)
    requires IsDateKey(k)
    ensures IsTrimmed(k)
  {
  }

  /** A marker file whose date has a line ending or other padding around it
      still reads as today's alert. */
  lemma PaddedMarkerReadsAsAlerted(k: string)
    requires IsDateKey(k)
    ensures AlreadyAlerted(Some(k + "\n"), k)
    ensures AlreadyAlerted(Some(" " + k + "\r\n"), k)
  {
    DateKeyIsTrimmed(k);
    assert Surrounds(k + "\n", k, 0);
    assert Surrounds(" " + k + "\r\n", k, 1);
  }
}
