/**
 * The string operations the strategy parser relies on, with the meaning
 * they have in Go's `strings` package: `TrimSpace`, `HasPrefix`,
 * `TrimPrefix` and `Split` with a one-character separator.
 * Strings are sequences of Unicode code points (Go's runes).
 */
module Text {

  /** Go's `unicode.IsSpace`: the Latin-1 layout characters, NEL, NBSP and the other White_Space code points. */
  predicate IsSpace(c: char) {
    || c == ' ' || c == '\t' || c == '\n' || c == '\U{000B}' || c == '\U{000C}' || c == '\r'
    || c == '\U{0085}' || c == '\U{00A0}' || c == '\U{1680}'
    || ('\U{2000}' <= c <= '\U{200A}')
    || c == '\U{2028}' || c == '\U{2029}' || c == '\U{202F}' || c == '\U{205F}' || c == '\U{3000}'
  }

  predicate AllSpace(s: string) {
    forall k :: 0 <= k < |s| ==> IsSpace(s[k])
  }

  /** A string with no white space at either end. */
  predicate IsTrimmed(s: string) {
    s == [] || (!IsSpace(s[0]) && !IsSpace(s[|s| - 1]))
  }

  /** `r` is `s` with its leading and trailing white space, and only that, removed. */
  ghost predicate IsTrimOf(r: string, s: string) {
    exists i, j :: 0 <= i <= j <= |s| && r == s[i..j] && AllSpace(s[..i]) && AllSpace(s[j..]) && IsTrimmed(r)
  }

  /** Go's `strings.TrimSpace` (main.go:53, 56, 67, 68, 72): drops white space from the front, then from the back. */
  function TrimSpace(s: string): (r: string)
    ensures IsTrimmed(r) && |r| <= |s|
    decreases |s|
  {
    if |s| > 0 && IsSpace(s[0]) then TrimSpace(s[1..])
    else if |s| > 0 && IsSpace(s[|s| - 1]) then TrimSpace(s[..|s| - 1])
    else s
  }

  /** `TrimSpace` removes the leading and trailing white space of `s` and nothing else. */
  lemma TrimSpaceTrims(s: string)
    ensures IsTrimOf(TrimSpace(s), s)
  {
    var i, j := TrimSpaceSlice(s);
  }

  /** Where in `s` the trimmed text sits. */
  lemma {:induction false} TrimSpaceSlice(s: string) returns (i: nat, j: nat)
    ensures i <= j <= |s| && TrimSpace(s) == s[i..j]
    ensures AllSpace(s[..i]) && AllSpace(s[j..]) && IsTrimmed(s[i..j])
    decreases |s|
  {
    if |s| > 0 && IsSpace(s[0]) {
      var i', j' := TrimSpaceSlice(s[1..]);
      i, j := LeadingSpaceSlice(s, i', j');
    } else if |s| > 0 && IsSpace(s[|s| - 1]) {
      i, j := TrimSpaceSlice(s[..|s| - 1]);
      TrailingSpaceSlice(s, i, j);
    } else {
      i, j := 0, |s|;
      assert s[i..j] == s;
    }
  }

  lemma LeadingSpaceSlice(s: string, i': nat, j': nat) returns (i: nat, j: nat)
    requires |s| > 0 && IsSpace(s[0])
    requires i' <= j' <= |s| - 1 && TrimSpace(s[1..]) == s[1..][i'..j']
    requires AllSpace(s[1..][..i']) && AllSpace(s[1..][j'..]) && IsTrimmed(s[1..][i'..j'])
    ensures i == i' + 1 && j == j' + 1
    ensures i <= j <= |s| && TrimSpace(s) == s[i..j]
    ensures AllSpace(s[..i]) && AllSpace(s[j..]) && IsTrimmed(s[i..j])
  {
    i, j := i' + 1, j' + 1;
    ConsSlices(s, i', j');
    AllSpaceCons(s[0], s[1..][..i']);
  }

  lemma TrailingSpaceSlice(s: string, i: nat, j: nat)
    requires |s| > 0 && !IsSpace(s[0]) && IsSpace(s[|s| - 1])
    requires i <= j <= |s| - 1 && TrimSpace(s[..|s| - 1]) == s[..|s| - 1][i..j]
    requires AllSpace(s[..|s| - 1][..i]) && AllSpace(s[..|s| - 1][j..]) && IsTrimmed(s[..|s| - 1][i..j])
    ensures TrimSpace(s) == s[i..j]
    ensures AllSpace(s[..i]) && AllSpace(s[j..]) && IsTrimmed(s[i..j])
  {
    SnocSlices(s, i, j);
    AllSpaceSnoc(s[..|s| - 1][j..], s[|s| - 1]);
  }

  /** The slices of `s` around `[i + 1, j + 1)` are those of its tail around `[i, j)`. */
  lemma ConsSlices(s: string, i: nat, j: nat)
    requires i <= j <= |s| - 1
    ensures s[1..][i..j] == s[i + 1..j + 1]
    ensures s[..i + 1] == [s[0]] + s[1..][..i]
    ensures s[j + 1..] == s[1..][j..]
  {
  }

  /** The slices of `s` around `[i, j)` are those of `s` without its last character, plus that character at the end. */
  lemma SnocSlices(s: string, i: nat, j: nat)
    requires i <= j <= |s| - 1
    ensures s[..|s| - 1][i..j] == s[i..j]
    ensures s[..|s| - 1][..i] == s[..i]
    ensures s[j..] == s[..|s| - 1][j..] + [s[|s| - 1]]
  {
  }

  lemma AllSpaceCons(c: char, u: string)
    requires IsSpace(c) && AllSpace(u)
    ensures AllSpace([c] + u)
  {
    assert forall k :: 1 <= k < |u| + 1 ==> ([c] + u)[k] == u[k - 1];
  }

  lemma AllSpaceSnoc(u: string, c: char)
    requires AllSpace(u) && IsSpace(c)
    ensures AllSpace(u + [c])
  {
    assert forall k :: 0 <= k < |u| ==> (u + [c])[k] == u[k];
  }

  /** Trimming removes exactly the white-space padding around an already trimmed string. */
  lemma {:induction false} TrimSpacePadded(p: string, t: string, q: string)
    requires AllSpace(p) && AllSpace(q) && IsTrimmed(t)
    ensures TrimSpace(p + t + q) == t
    decreases |p|
  {
    if |p| > 0 {
      TrimLeadingPad(p, t, q);
      TrimSpacePadded(p[1..], t, q);
    } else {
      assert p + t + q == t + q;
      TrimSpaceSuffixed(t, q);
    }
  }

  /** Trimming removes exactly the white space that follows an already trimmed string. */
  lemma {:induction false} TrimSpaceSuffixed(t: string, q: string)
    requires AllSpace(q) && IsTrimmed(t)
    ensures TrimSpace(t + q) == t
    decreases |q|
  {
    if |q| == 0 {
      assert t + q == t;
    } else if |t| == 0 {
      TrimLeadingPad(q, [], []);
      assert t + q == q + [] + [] && q[1..] + [] + [] == [] + q[1..];
      TrimSpaceSuffixed([], q[1..]);
    } else {
      TrimTrailingPad(t, q);
      TrimSpaceSuffixed(t, q[..|q| - 1]);
    }
  }

  lemma TrimLeadingPad(p: string, t: string, q: string)
    requires |p| > 0 && IsSpace(p[0])
    ensures TrimSpace(p + t + q) == TrimSpace(p[1..] + t + q)
  {
    var s := p + t + q;
    assert s[0] == p[0] && s[1..] == p[1..] + t + q;
  }

  lemma TrimTrailingPad(t: string, q: string)
    requires |t| > 0 && !IsSpace(t[0]) && |q| > 0 && IsSpace(q[|q| - 1])
    ensures TrimSpace(t + q) == TrimSpace(t + q[..|q| - 1])
  {
    var s := t + q;
    assert s[0] == t[0] && s[|s| - 1] == q[|q| - 1];
    TrimTrailingSpace(s);
    assert s[..|s| - 1] == t + q[..|q| - 1];
  }

  /** A string that starts with a non-space and ends with a space trims as it does without its last character. */
  lemma TrimTrailingSpace(s: string)
    requires |s| > 0 && !IsSpace(s[0]) && IsSpace(s[|s| - 1])
    ensures TrimSpace(s) == TrimSpace(s[..|s| - 1])
  {
  }

  /** Trimming twice is trimming once. */
  lemma TrimSpaceIdempotent(s: string)
    ensures TrimSpace(TrimSpace(s)) == TrimSpace(s)
  {
    var t := TrimSpace(s);
    TrimSpaceTrims(s);
    assert "" + t + "" == t;
    TrimSpacePadded("", t, "");
  }

  /** Go's `strings.HasPrefix` (main.go:54, 61). */
  predicate HasPrefix(s: string, prefix: string)
    ensures HasPrefix(s, prefix) <==> |prefix| <= |s| && s[..|prefix|] == prefix
  {
    prefix <= s
  }

  /** Go's `strings.TrimPrefix` (main.go:55, 62): drops `prefix` when `s` starts with it. */
  function TrimPrefix(s: string, prefix: string): (r: string)
    ensures HasPrefix(s, prefix) ==> prefix + r == s
    ensures !HasPrefix(s, prefix) ==> r == s
  {
    if HasPrefix(s, prefix) then s[|prefix|..] else s
  }

  /** Concatenation of `parts` with `sep` between neighbours: the inverse of `Split`. */
  function Join(parts: seq<string>, sep: char): string {
    if |parts| == 0 then ""
    else if |parts| == 1 then parts[0]
    else parts[0] + [sep] + Join(parts[1..], sep)
  }

  /**
   * Go's `strings.Split` with a one-character separator (main.go:49, 63):
   * the pieces between separators, one more piece than there are separators.
   */
  function Split(s: string, sep: char): (pieces: seq<string>)
    ensures |pieces| >= 1
    ensures sep !in s ==> pieces == [s]
  {
    if |s| == 0 then [""]
    else
      var rest := Split(s[1..], sep);
      assert s == [s[0]] + s[1..];
      if s[0] == sep then [""] + rest else [[s[0]] + rest[0]] + rest[1..]
  }

  /** No piece `Split` returns contains the separator, and joining them back gives the input. */
  lemma {:induction false} SplitPieces(s: string, sep: char)
    ensures forall k :: 0 <= k < |Split(s, sep)| ==> sep !in Split(s, sep)[k]
    ensures Join(Split(s, sep), sep) == s
  {
    if |s| > 0 {
      var rest := Split(s[1..], sep);
      SplitPieces(s[1..], sep);
      assert s == [s[0]] + s[1..];
      if s[0] == sep {
        assert ([""] + rest)[1..] == rest;
      } else {
        ExtendFirstPiece(s[0], rest, sep);
      }
    }
  }

  /** `Split` cuts at every separator: one more piece than there are separators. */
  lemma {:induction false} SplitCount(s: string, sep: char)
    ensures |Split(s, sep)| == multiset(s)[sep] + 1
  {
    if |s| > 0 {
      SplitCount(s[1..], sep);
      assert |Split(s, sep)| == |Split(s[1..], sep)| + (if s[0] == sep then 1 else 0);
      assert multiset(s)[sep] == multiset(s[1..])[sep] + (if s[0] == sep then 1 else 0) by {
        assert s == [s[0]] + s[1..];
        assert multiset(s) == multiset([s[0]]) + multiset(s[1..]);
      }
    }
  }

  lemma ExtendFirstPiece(c: char, rest: seq<string>, sep: char)
    requires |rest| >= 1 && c != sep
    requires forall k :: 0 <= k < |rest| ==> sep !in rest[k]
    ensures Join([[c] + rest[0]] + rest[1..], sep) == [c] + Join(rest, sep)
    ensures forall k :: 0 <= k < |rest| ==> sep !in ([[c] + rest[0]] + rest[1..])[k]
  {
    var parts := [[c] + rest[0]] + rest[1..];
    if |rest| > 1 {
      assert parts[1..] == rest[1..];
    }
    forall k | 0 <= k < |rest|
      ensures sep !in parts[k]
    {
      if k == 0 {
        assert parts[0] == [c] + rest[0];
      } else {
        assert parts[k] == rest[k];
      }
    }
  }

  lemma {:induction false} SplitWithoutSeparator(u: string, sep: char)
    requires sep !in u
    ensures Split(u, sep) == [u]
  {
    SplitCount(u, sep);
    SplitPieces(u, sep);
    assert multiset(u)[sep] == 0;
  }

  /** How `Split` treats the first character of its input. */
  lemma SplitCons(c: char, t: string, sep: char)
    ensures Split([c] + t, sep) ==
      if c == sep then [""] + Split(t, sep) else [[c] + Split(t, sep)[0]] + Split(t, sep)[1..]
  {
    assert ([c] + t)[0] == c && ([c] + t)[1..] == t;
  }

  lemma {:induction false} SplitAtFirstSeparator(u: string, sep: char, v: string)
    requires sep !in u
    ensures Split(u + [sep] + v, sep) == [u] + Split(v, sep)
    decreases |u|
  {
    if |u| == 0 {
      assert u + [sep] + v == [sep] + v;
      SplitCons(sep, v, sep);
    } else {
      var t := u[1..] + [sep] + v;
      calc {
        Split(u + [sep] + v, sep);
      == { assert u + [sep] + v == [u[0]] + t; }
        Split([u[0]] + t, sep);
      == { SplitCons(u[0], t, sep); }
        [[u[0]] + Split(t, sep)[0]] + Split(t, sep)[1..];
      == { SplitAtFirstSeparator(u[1..], sep, v); }
        [[u[0]] + u[1..]] + Split(v, sep);
      == { assert [u[0]] + u[1..] == u; }
        [u] + Split(v, sep);
      }
    }
  }

  /** Splitting a join of separator-free pieces gives the pieces back. */
  lemma {:induction false} SplitJoin(parts: seq<string>, sep: char)
    requires |parts| >= 1
    requires forall k :: 0 <= k < |parts| ==> sep !in parts[k]
    ensures Split(Join(parts, sep), sep) == parts
  {
    if |parts| == 1 {
      SplitWithoutSeparator(parts[0], sep);
    } else {
      SplitJoin(parts[1..], sep);
      SplitAtFirstSeparator(parts[0], sep, Join(parts[1..], sep));
      assert [parts[0]] + parts[1..] == parts;
    }
  }
}
