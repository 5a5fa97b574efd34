/**
 * The few `str` operations of Rust's standard library that the log sink relies on:
 * `char::is_whitespace`, `trim`, `find` of a single character and `replace` of a
 * one-character pattern by the empty string. Strings are sequences of characters;
 * the sink is only ever fed ASCII, so character indices coincide with the byte
 * indices Rust slices by.
 */
module Text {
  import opened Wrappers

  /** Rust's `char::is_whitespace`: the Unicode White_Space property. */
  predicate IsWhitespace(c: char) {
    || ('\U{0009}' <= c <= '\U{000D}')
    || c == ' '
    || c == '\U{0085}'
    || c == '\U{00A0}'
    || c == '\U{1680}'
    || ('\U{2000}' <= c <= '\U{200A}')
    || c == '\U{2028}'
    || c == '\U{2029}'
    || c == '\U{202F}'
    || c == '\U{205F}'
    || c == '\U{3000}'
  }

  predicate AllWhitespace(s: string) {
    forall k :: 0 <= k < |s| ==> IsWhitespace(s[k])
  }

  /** Neither end of `s` is whitespace (vacuously true of the empty string). */
  predicate IsTrimmed(s: string) {
    s == [] || (!IsWhitespace(s[0]) && !IsWhitespace(s[|s| - 1]))
  }

  /** The first index at or after `i` that holds no whitespace, or `|s|`. */
  function SkipForward(s: string, i: nat): (r: nat)
    requires i <= |s|
    ensures i <= r <= |s|
    ensures forall k :: i <= k < r ==> IsWhitespace(s[k])
    ensures r < |s| ==> !IsWhitespace(s[r])
    decreases |s| - i
  {
    if i < |s| && IsWhitespace(s[i]) then SkipForward(s, i + 1) else i
  }

  /** The smallest `r` in `lo..j` such that `s[r..j]` is all whitespace. */
  function SkipBackward(s: string, lo: nat, j: nat): (r: nat)
    requires lo <= j <= |s|
    ensures lo <= r <= j
    ensures forall k :: r <= k < j ==> IsWhitespace(s[k])
    ensures r > lo ==> !IsWhitespace(s[r - 1])
    decreases j
  {
    if j > lo && IsWhitespace(s[j - 1]) then SkipBackward(s, lo, j - 1) else j
  }

  /** Where the text that `trim` keeps starts. */
  function TrimStartIndex(s: string): nat {
    SkipForward(s, 0)
  }

  /** Where the text that `trim` keeps ends (exclusive). */
  function TrimEndIndex(s: string): (r: nat)
    ensures TrimStartIndex(s) <= r <= |s|
  {
    SkipBackward(s, TrimStartIndex(s), |s|)
  }

  /** `str::trim`: `s` without its leading and trailing whitespace. */
  function Trim(s: string): (r: string)
    ensures IsTrimmed(r)
    ensures |r| <= |s|
  {
    s[TrimStartIndex(s)..TrimEndIndex(s)]
  }

  /** `SkipForward` is determined by its contract. */
  lemma SkipForwardAt(s: string, i: nat, p: nat)
    requires i <= p <= |s|
    requires forall k :: i <= k < p ==> IsWhitespace(s[k])
    requires p < |s| ==> !IsWhitespace(s[p])
    ensures SkipForward(s, i) == p
  {
  }

  /** `SkipBackward` is determined by its contract. */
  lemma SkipBackwardAt(s: string, lo: nat, j: nat, p: nat)
    requires lo <= p <= j <= |s|
    requires forall k :: p <= k < j ==> IsWhitespace(s[k])
    requires p > lo ==> !IsWhitespace(s[p - 1])
    ensures SkipBackward(s, lo, j) == p
  {
  }

  /**
   * The characterisation of `trim`: whenever `s` is whitespace, then a trimmed
   * middle part, then whitespace, `trim` returns exactly that middle part.
   */
  lemma TrimUnique(s: string, a: string, m: string, b: string)
    requires s == a + m + b
    requires AllWhitespace(a) && AllWhitespace(b) && IsTrimmed(m)
    ensures Trim(s) == m
  {
    forall k | 0 <= k < |a| ensures s[k] == a[k] { }
    forall k | |a| + |m| <= k < |s| ensures s[k] == b[k - |a| - |m|] { }
    if m == [] {
      SkipForwardAt(s, 0, |s|);
    } else {
      assert s[|a|] == m[0];
      assert s[|a| + |m| - 1] == m[|m| - 1];
      SkipForwardAt(s, 0, |a|);
      SkipBackwardAt(s, |a|, |s|, |a| + |m|);
      assert s[|a|..|a| + |m|] == m;
    }
  }

  /** `trim` yields the empty string exactly when every character is whitespace. */
  lemma TrimEmptyIff(s: string)
    ensures Trim(s) == [] <==> AllWhitespace(s)
  {
    var i := TrimStartIndex(s);
    if AllWhitespace(s) {
      SkipForwardAt(s, 0, |s|);
    } else if i < |s| {
      assert !IsWhitespace(s[i]);
      assert TrimEndIndex(s) > i;
    }
  }

  /**
   * Trim keeps a contiguous middle part of `s`: what it drops at either end
   * is whitespace only.
   */
  lemma TrimSplits(s: string)
    ensures TrimStartIndex(s) + |Trim(s)| == TrimEndIndex(s)
    ensures s == s[..TrimStartIndex(s)] + Trim(s) + s[TrimEndIndex(s)..]
    ensures AllWhitespace(s[..TrimStartIndex(s)])
    ensures AllWhitespace(s[TrimEndIndex(s)..])
  {
    var i, j := TrimStartIndex(s), TrimEndIndex(s);
    assert s == s[..i] + s[i..j] + s[j..];
    assert AllWhitespace(s[..i]) by {
      forall k | 0 <= k < |s[..i]| ensures IsWhitespace(s[..i][k]) {
        assert s[..i][k] == s[k];
      }
    }
    assert AllWhitespace(s[j..]) by {
      forall k | 0 <= k < |s[j..]| ensures IsWhitespace(s[j..][k]) {
        assert s[j..][k] == s[j + k];
      }
    }
  }

  /** A string without whitespace at either end is its own trim. */
  lemma TrimTrimmed(s: string)
    requires IsTrimmed(s)
    ensures Trim(s) == s
  {
    assert s == [] + s + [];
    TrimUnique(s, [], s, []);
  }

  /** `trim` is idempotent. */
  lemma TrimIdempotent(s: string)
    ensures Trim(Trim(s)) == Trim(s)
  {
    TrimTrimmed(Trim(s));
  }

  lemma AllWhitespaceConcat(a: string, b: string)
    requires AllWhitespace(a) && AllWhitespace(b)
    ensures AllWhitespace(a + b)
  {
    forall k | 0 <= k < |a + b| ensures IsWhitespace((a + b)[k]) {
      if k < |a| { assert (a + b)[k] == a[k]; } else { assert (a + b)[k] == b[k - |a|]; }
    }
  }

  /** Trimming after whitespace has been prepended gives the same result. */
  lemma TrimAfterWhitespace(w: string, s: string)
    requires AllWhitespace(w)
    ensures Trim(w + s) == Trim(s)
  {
    var m := Trim(s);
    var a := s[..TrimStartIndex(s)];
    var b := s[TrimEndIndex(s)..];
    assert s == a + m + b && AllWhitespace(a) && AllWhitespace(b) by {
      TrimSplits(s);
    }
    assert AllWhitespace(w + a) by {
      AllWhitespaceConcat(w, a);
    }
    assert w + s == (w + a) + m + b;
    TrimUnique(w + s, w + a, m, b);
  }

  /** Trimming after whitespace has been appended gives the same result. */
  lemma TrimBeforeWhitespace(s: string, w: string)
    requires AllWhitespace(w)
    ensures Trim(s + w) == Trim(s)
  {
    var m := Trim(s);
    var a := s[..TrimStartIndex(s)];
    var b := s[TrimEndIndex(s)..];
    assert s == a + m + b && AllWhitespace(a) && AllWhitespace(b) by {
      TrimSplits(s);
    }
    assert AllWhitespace(b + w) by {
      AllWhitespaceConcat(b, w);
    }
    assert s + w == a + m + (b + w);
    TrimUnique(s + w, a, m, b + w);
  }

  /** When `s` starts with a non-empty trimmed head, trimming starts at 0 and ends no earlier than the head. */
  lemma {:induction false} TrimBoundsAfterHead(s: string, n: nat)
    requires 0 < n <= |s| && !IsWhitespace(s[0]) && !IsWhitespace(s[n - 1])
    ensures TrimStartIndex(s) == 0 && n <= TrimEndIndex(s)
  {
    SkipForwardAt(s, 0, 0);
  }

  lemma {:induction false} HeadSlices(h: string, t: string, e: nat)
    requires |h| <= e <= |h + t|
    ensures (h + t)[..e][..|h|] == h
    ensures (h + t)[..e][|h|..] == t[..e - |h|]
    ensures (h + t)[e..] == t[e - |h|..]
  {
  }

  /**
   * A head that neither starts nor ends with whitespace survives trimming
   * untouched, and what follows it in the trimmed text trims to `Trim(t)`.
   */
  lemma {:induction false} TrimKeepsHead(h: string, t: string)
    requires h != [] && IsTrimmed(h)
    ensures |Trim(h + t)| >= |h|
    ensures Trim(h + t)[..|h|] == h
    ensures Trim(Trim(h + t)[|h|..]) == Trim(t)
  {
    var s := h + t;
    var e := TrimEndIndex(s);
    assert TrimStartIndex(s) == 0 && |h| <= e by {
      assert s[0] == h[0] && s[|h| - 1] == h[|h| - 1];
      TrimBoundsAfterHead(s, |h|);
    }
    var x := e - |h|;
    assert Trim(s)[..|h|] == h && Trim(s)[|h|..] == t[..x] && s[e..] == t[x..] by {
      HeadSlices(h, t, e);
    }
    assert AllWhitespace(t[x..]) by {
      TrimSplits(s);
    }
    assert Trim(t[..x]) == Trim(t) by {
      assert t == t[..x] + t[x..];
      TrimBeforeWhitespace(t[..x], t[x..]);
    }
  }

  /** The first index at or after `i` where `s` holds `c`, if any. */
  function FindFrom(s: string, c: char, i: nat): (r: Option<nat>)
    requires i <= |s|
    ensures r.Some? ==> i <= r.value < |s| && s[r.value] == c
    ensures r.Some? ==> forall k :: i <= k < r.value ==> s[k] != c
    ensures r.None? ==> forall k :: i <= k < |s| ==> s[k] != c
    decreases |s| - i
  {
    if i == |s| then None
    else if s[i] == c then Some(i)
    else FindFrom(s, c, i + 1)
  }

  /** `str::find(c)`: the index of the first occurrence of `c`, if any. */
  function IndexOf(s: string, c: char): (r: Option<nat>)
    ensures r.Some? ==> r.value < |s| && s[r.value] == c && c !in s[..r.value]
    ensures r.None? <==> c !in s
  {
    var r := FindFrom(s, c, 0);
    assert r.Some? ==> forall k :: 0 <= k < r.value ==> s[..r.value][k] == s[k];
    r
  }

  /** A prefix of a prefix of `s` is a prefix of `s`. */
  lemma PrefixOfPrefix(s: string, n: nat, m: nat)
    requires m <= n <= |s|
    ensures s[..n][..m] == s[..m]
  {
  }

  /** `find` returns the one index whose character matches and that no earlier character does. */
  lemma IndexOfAt(s: string, c: char, i: nat)
    requires i < |s| && s[i] == c && c !in s[..i]
    ensures IndexOf(s, c) == Some(i)
  {
  }

  /** The number of occurrences of `c` in `s`. */
  function Count(s: string, c: char): (r: nat)
    ensures r <= |s|
    ensures r == 0 <==> c !in s
  {
    if s == [] then 0
    else
      assert s == [s[0]] + s[1..];
      (if s[0] == c then 1 else 0) + Count(s[1..], c)
  }

  /** Occurrences in a concatenation add up. */
  lemma {:induction false} CountConcat(a: string, b: string, c: char)
    ensures Count(a + b, c) == Count(a, c) + Count(b, c)
    decreases |a|
  {
    if a == [] {
      assert a + b == b;
    } else {
      assert (a + b)[0] == a[0];
      assert (a + b)[1..] == a[1..] + b;
      CountConcat(a[1..], b, c);
    }
  }

  /** `str::replace(c, "")`: `s` with every occurrence of `c` deleted, the rest in order. */
  function RemoveChar(s: string, c: char): (r: string)
    ensures c !in r
    ensures c !in s ==> r == s
    ensures forall d :: d != c ==> multiset(r)[d] == multiset(s)[d]
  {
    if s == [] then []
    else
      var rest := RemoveChar(s[1..], c);
      assert s == [s[0]] + s[1..];
      if s[0] == c then rest else [s[0]] + rest
  }

  /** Removing a character distributes over concatenation. */
  lemma {:induction false} RemoveCharConcat(a: string, b: string, c: char)
    ensures RemoveChar(a + b, c) == RemoveChar(a, c) + RemoveChar(b, c)
    decreases |a|
  {
    if a == [] {
      assert a + b == b;
    } else {
      assert (a + b)[0] == a[0];
      assert (a + b)[1..] == a[1..] + b;
      RemoveCharConcat(a[1..], b, c);
    }
  }
}
