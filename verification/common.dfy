/** Shared vocabulary for the trip front end: optional JavaScript values, the outcome of a
    back-end request, the loaded/loading pair every page keeps, order-preserving filtering
    (`Array.prototype.filter`), and the ASCII part of `toLowerCase` / `includes`. */
module Common {

  /** A JavaScript value that may be `undefined` or `null`. */
  datatype Option<+T> = None | Some(value: T)

  /** True when an optional string is present and non-empty, i.e. truthy in JavaScript. */
  predicate Truthy(s: Option<string>) {
    s.Some? && s.value != ""
  }

  /** The outcome of one request to the back end: the value it returned, or a rejected promise. */
  datatype Fetch<+T> = Fetched(value: T) | FetchFailed

  /** What a page keeps about data it loads: the last value it stored and the spinner flag. */
  datatype Loadable<T> = Loadable(value: T, loading: bool)

  /** The `try { set(await fetch()) } catch { log } finally { setLoading(false) }` pattern:
      a success replaces the value, a failure keeps the last good one, and the spinner
      stops either way. */
  function Settle<T>(l: Loadable<T>, r: Fetch<T>): (l': Loadable<T>)
    ensures !l'.loading
    ensures r.Fetched? ==> l'.value == r.value
    ensures r.FetchFailed? ==> l' == l.(loading := false)
  {
    match r
    case Fetched(v) => Loadable(v, false)
    case FetchFailed => l.(loading := false)
  }

  /** `a` is obtained from `b` by deleting elements, without reordering. */
  predicate IsSubsequence<T(==)>(a: seq<T>, b: seq<T>)
    decreases |b|
  {
    |a| == 0 || (|b| > 0 && ((a[0] == b[0] && IsSubsequence(a[1..], b[1..])) || IsSubsequence(a, b[1..])))
  }

  lemma {:induction false} SubsequenceReflexive<T>(a: seq<T>)
    ensures IsSubsequence(a, a)
    decreases |a|
  {
    if |a| > 0 {
      SubsequenceReflexive(a[1..]);
    }
  }

  lemma {:induction false} SubsequenceTransitive<T>(a: seq<T>, b: seq<T>, c: seq<T>)
    requires IsSubsequence(a, b) && IsSubsequence(b, c)
    ensures IsSubsequence(a, c)
    decreases |c|
  {
    if |a| == 0 {
    } else if a[0] == b[0] && IsSubsequence(a[1..], b[1..]) {
      if b[0] == c[0] && IsSubsequence(b[1..], c[1..]) {
        SubsequenceTransitive(a[1..], b[1..], c[1..]);
      } else {
        SubsequenceTransitive(a, b, c[1..]);
      }
    } else {
      if b[0] == c[0] && IsSubsequence(b[1..], c[1..]) {
        SubsequenceTransitive(a, b[1..], c[1..]);
      } else {
        SubsequenceTransitive(a, b, c[1..]);
      }
    }
  }

  /** `Array.prototype.filter`: the elements of `s` satisfying `p`, in their original order. */
  function Keep<T(==,!new)>(s: seq<T>, p: T -> bool): (r: seq<T>)
    ensures IsSubsequence(r, s)
    ensures |r| <= |s|
  {
    if |s| == 0 then []
    else
      var rest := Keep(s[1..], p);
      if p(s[0]) then
        assert ([s[0]] + rest)[1..] == rest;
        [s[0]] + rest
      else rest
  }

  /** `Keep` holds each element exactly as often as `s` does when it satisfies `p`, and never
      otherwise. */
  lemma {:induction false} KeepMultiset<T(!new)>(s: seq<T>, p: T -> bool)
    ensures forall x :: multiset(Keep(s, p))[x] == (if p(x) then multiset(s)[x] else 0)
    decreases |s|
  {
    if |s| > 0 {
      KeepMultiset(s[1..], p);
      assert s == [s[0]] + s[1..];
    }
  }

  /** One step of `Keep`, as a count: the head adds one exactly when it satisfies `p`. */
  lemma KeepLengthCons<T(!new)>(s: seq<T>, p: T -> bool)
    requires |s| > 0
    ensures |Keep(s, p)| == (if p(s[0]) then 1 else 0) + |Keep(s[1..], p)|
  {
  }

  /** Everything `Keep` retains satisfies the predicate, and everything in `s` that satisfies
      it is retained. */
  lemma KeepMembership<T(!new)>(s: seq<T>, p: T -> bool, x: T)
    ensures x in Keep(s, p) <==> x in s && p(x)
  {
    var r := Keep(s, p);
    KeepMultiset(s, p);
    assert x in r <==> multiset(r)[x] > 0;
    assert x in s <==> multiset(s)[x] > 0;
  }

  /** Filtering distributes over concatenation. */
  lemma {:induction false} KeepAppend<T(!new)>(a: seq<T>, b: seq<T>, p: T -> bool)
    ensures Keep(a + b, p) == Keep(a, p) + Keep(b, p)
    decreases |a|
  {
    if |a| == 0 {
      assert a + b == b;
    } else {
      assert (a + b)[1..] == a[1..] + b;
      KeepAppend(a[1..], b, p);
    }
  }

  /** The ASCII part of `String.prototype.toLowerCase` on one character. */
  function LowerChar(c: char): char {
    if 'A' <= c <= 'Z' then (c as int + 32) as char else c
  }

  /** `String.prototype.toLowerCase`, restricted to the ASCII letters. */
  function ToLower(s: string): (r: string)
    ensures |r| == |s|
    ensures forall i :: 0 <= i < |s| ==> r[i] == LowerChar(s[i])
  {
    seq(|s|, i requires 0 <= i < |s| => LowerChar(s[i]))
  }

  /** `needle` occurs in `hay` starting at position `i`. */
  ghost predicate OccursAt(hay: string, needle: string, i: int) {
    0 <= i && i + |needle| <= |hay| && hay[i..i + |needle|] == needle
  }

  /** `String.prototype.includes`, computed by scanning `hay` from the left. */
  function Includes(hay: string, needle: string): (b: bool)
    ensures b <==> exists i :: OccursAt(hay, needle, i)
    decreases |hay|
  {
    if |needle| > |hay| then
      assert forall i :: !OccursAt(hay, needle, i);
      false
    else if hay[..|needle|] == needle then
      assert OccursAt(hay, needle, 0);
      true
    else
      var b := Includes(hay[1..], needle);
      forall i ensures OccursAt(hay[1..], needle, i) <==> OccursAt(hay, needle, i + 1) {
        if 0 <= i && i + |needle| <= |hay| - 1 {
          assert hay[1..][i..i + |needle|] == hay[i + 1..i + 1 + |needle|];
        }
      }
      assert forall i :: OccursAt(hay, needle, i) ==> i == 0 || OccursAt(hay[1..], needle, i - 1);
      b
  }

  /** `opt?.toLowerCase().includes(term)` where an absent value never matches. */
  predicate OptionIncludes(opt: Option<string>, term: string) {
    opt.Some? && Includes(ToLower(opt.value), term)
  }

  /** `err.response?.data?.message || fallback`: the server's message when it sent a non-empty
      one, the page's fixed text otherwise. */
  function ErrorText(message: Option<string>, fallback: string): (text: string)
    requires fallback != ""
    ensures text != ""
    ensures Truthy(message) ==> text == message.value
    ensures !Truthy(message) ==> text == fallback
  {
    if Truthy(message) then message.value else fallback
  }

  function Min(a: int, b: int): int {
    if a <= b then a else b
  }

  /** Whether a character lies outside the Basic Multilingual Plane, so that UTF-16 stores it
      as a surrogate pair. */
  predicate IsAstral(c: char) {
    c as int >= 0x1_0000
  }

  /** `String.prototype.length`: the number of UTF-16 code units, which counts a character
      outside the Basic Multilingual Plane twice. */
  function Utf16Length(s: string): (n: nat)
    ensures |s| <= n <= 2 * |s|
    ensures n == |s| <==> forall i :: 0 <= i < |s| ==> !IsAstral(s[i])
    ensures n == 2 * |s| <==> forall i :: 0 <= i < |s| ==> IsAstral(s[i])
    ensures |s| == 1 ==> n == (if IsAstral(s[0]) then 2 else 1)
    decreases |s|
  {
    if |s| == 0 then 0
    else
      var n := (if IsAstral(s[0]) then 2 else 1) + Utf16Length(s[1..]);
      assert forall i :: 1 <= i < |s| ==> s[i] == s[1..][i - 1];
      n
  }

  /** The code-unit length of a concatenation is the sum of the parts' lengths, so together
      with the one-character case it fixes the length of every string. */
  lemma {:induction false} Utf16LengthAppend(a: string, b: string)
    ensures Utf16Length(a + b) == Utf16Length(a) + Utf16Length(b)
    decreases |a|
  {
    if |a| == 0 {
      assert a + b == b;
    } else {
      assert (a + b)[0] == a[0] && (a + b)[1..] == a[1..] + b;
      Utf16LengthAppend(a[1..], b);
    }
  }

  /** The code-unit length is the number of characters plus the number of astral ones. */
  lemma {:induction false} Utf16LengthCountsAstral(s: string)
    ensures Utf16Length(s) == |s| + |Keep(s, IsAstral)|
    decreases |s|
  {
    if |s| > 0 {
      Utf16LengthCountsAstral(s[1..]);
    }
  }
}
