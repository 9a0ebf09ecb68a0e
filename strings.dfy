/** The Ruby String operations the crawler uses with literal (non-regex)
    arguments: `gsub` with a string pattern, `split` on one character,
    `squeeze` and suffix tests. */
module Strings {

  /** `p` occurs in `s` starting at index `i`. */
  predicate At(s: string, p: string, i: nat)
  {
    i + |p| <= |s| && s[i..i + |p|] == p
  }

  /** `s` contains `p` literally. */
  predicate Contains(s: string, p: string)
  {
    exists i :: 0 <= i <= |s| && At(s, p, i)
  }

  predicate EndsWith(s: string, suffix: string)
  {
    |suffix| <= |s| && s[|s| - |suffix|..] == suffix
  }

  /** Ruby's `s.gsub(p, q)` for a string pattern `p`: a left-to-right scan that
      replaces every non-overlapping occurrence of `p` by `q`. With an empty
      pattern Ruby inserts `q` before every character and at the end. `q` is
      inserted as it is: Ruby's backslash sequences in `q` (`\0`, `\&`, `\\`
      and the like) are not expanded, so this is `gsub` for a `q` without `\`. */
  function ReplaceAll(s: string, p: string, q: string): string
    decreases |s|
  {
    if p == [] then InsertAround(s, q)
    else if |s| < |p| then s
    else if s[..|p|] == p then q + ReplaceAll(s[|p|..], p, q)
    else [s[0]] + ReplaceAll(s[1..], p, q)
  }

  /** `s.gsub("", q)`: `q`, then each character of `s` followed by `q`. */
  function InsertAround(s: string, q: string): string
  {
    if s == [] then q else q + [s[0]] + InsertAround(s[1..], q)
  }

  /** The pieces of `s` between the non-overlapping occurrences of `p`, found
      left to right (Ruby's `s.split(p, -1)`: empty pieces are kept). */
  function SplitOn(s: string, p: string): (parts: seq<string>)
    requires |p| > 0
    ensures |parts| > 0
    decreases |s|
  {
    if |s| < |p| then [s]
    else if s[..|p|] == p then [""] + SplitOn(s[|p|..], p)
    else
      var rest := SplitOn(s[1..], p);
      [[s[0]] + rest[0]] + rest[1..]
  }

  /** Ruby's `parts.join(q)`. */
  function JoinWith(parts: seq<string>, q: string): string
    requires |parts| > 0
  {
    if |parts| == 1 then parts[0] else parts[0] + q + JoinWith(parts[1..], q)
  }

  /** Ruby's `s.split(c)` for a one-character separator: the pieces between
      the separators, with the trailing empty pieces removed (so `"".split(c)`
      is empty). */
  function Split(s: string, c: char): seq<string>
  {
    DropTrailingEmpty(SplitOn(s, [c]))
  }

  function DropTrailingEmpty(parts: seq<string>): (r: seq<string>)
    ensures |r| <= |parts| && r == parts[..|r|]
    ensures |r| > 0 ==> r[|r| - 1] != ""
    ensures forall k :: |r| <= k < |parts| ==> parts[k] == ""
  {
    if |parts| == 0 then []
    else if parts[|parts| - 1] == "" then DropTrailingEmpty(parts[..|parts| - 1])
    else parts
  }

  /** Ruby's `s.squeeze(c)`: every run of `c` becomes a single `c`. */
  function Squeeze(s: string, c: char): string
  {
    if |s| <= 1 then s
    else if s[0] == c && s[1] == c then Squeeze(s[1..], c)
    else [s[0]] + Squeeze(s[1..], c)
  }

  /** No two neighbouring characters of `s` are both `c`. */
  predicate NoRun(s: string, c: char)
  {
    forall i :: 0 <= i < |s| - 1 ==> s[i] != c || s[i + 1] != c
  }

  /** `s` with every `c` removed. */
  function Without(s: string, c: char): string
  {
    if s == [] then [] else (if s[0] == c then [] else [s[0]]) + Without(s[1..], c)
  }

  // ---------------------------------------------------------------- gsub

  lemma {:induction false} JoinWithCons(c: char, parts: seq<string>, q: string)
    requires |parts| > 0
    ensures JoinWith([[c] + parts[0]] + parts[1..], q) == [c] + JoinWith(parts, q)
  {
    var ps := [[c] + parts[0]] + parts[1..];
    if |parts| > 1 {
      assert ps[1..] == parts[1..];
    }
  }

  /** `gsub` with a non-empty literal pattern is "split on the pattern, join
      with the replacement". */
  lemma {:induction false} ReplaceIsSplitJoin(s: string, p: string, q: string)
    requires |p| > 0
    ensures ReplaceAll(s, p, q) == JoinWith(SplitOn(s, p), q)
    decreases |s|
  {
    if |s| < |p| {
    } else if s[..|p|] == p {
      ReplaceIsSplitJoin(s[|p|..], p, q);
      var rest := SplitOn(s[|p|..], p);
      assert ([""] + rest)[1..] == rest;
    } else {
      ReplaceIsSplitJoin(s[1..], p, q);
      JoinWithCons(s[0], SplitOn(s[1..], p), q);
    }
  }

  /** Splitting on `p` and joining with `p` gives back the input. */
  lemma {:induction false} SplitJoinRoundTrip(s: string, p: string)
    requires |p| > 0
    ensures JoinWith(SplitOn(s, p), p) == s
    decreases |s|
  {
    if |s| < |p| {
    } else if s[..|p|] == p {
      SplitJoinRoundTrip(s[|p|..], p);
      var rest := SplitOn(s[|p|..], p);
      assert SplitOn(s, p) == [""] + rest;
      assert ([""] + rest)[1..] == rest;
      assert JoinWith([""] + rest, p) == "" + p + JoinWith(rest, p);
      assert s == p + s[|p|..];
    } else {
      SplitJoinRoundTrip(s[1..], p);
      JoinWithCons(s[0], SplitOn(s[1..], p), p);
      assert s == [s[0]] + s[1..];
    }
  }

  /** Replacing a pattern by itself changes nothing. */
  lemma ReplaceSelf(s: string, p: string)
    requires |p| > 0
    ensures ReplaceAll(s, p, p) == s
  {
    ReplaceIsSplitJoin(s, p, p);
    SplitJoinRoundTrip(s, p);
  }

  lemma ContainsTail(s: string, p: string)
    requires |s| > 0 && Contains(s[1..], p)
    ensures Contains(s, p)
  {
    var i :| 0 <= i <= |s[1..]| && At(s[1..], p, i);
    assert s[1..][i..i + |p|] == s[i + 1..i + 1 + |p|];
    assert At(s, p, i + 1);
  }

  lemma ContainsSkip(s: string, p: string, n: nat)
    requires n <= |s| && Contains(s[n..], p)
    ensures Contains(s, p)
  {
    var i :| 0 <= i <= |s[n..]| && At(s[n..], p, i);
    assert s[n..][i..i + |p|] == s[i + n..i + n + |p|];
    assert At(s, p, i + n);
  }

  /** A literal `gsub` whose pattern does not occur leaves the string as it is. */
  lemma {:induction false} ReplaceAbsent(s: string, p: string, q: string)
    requires |p| > 0 && !Contains(s, p)
    ensures ReplaceAll(s, p, q) == s
    decreases |s|
  {
    if |s| >= |p| {
      if s[..|p|] == p {
        assert At(s, p, 0);
      }
      if Contains(s[1..], p) {
        ContainsTail(s, p);
      }
      ReplaceAbsent(s[1..], p, q);
    }
  }

  /** Splitting on a pattern that does not occur gives one piece: the input. */
  lemma {:induction false} SplitAbsent(s: string, p: string)
    requires |p| > 0 && !Contains(s, p)
    ensures SplitOn(s, p) == [s]
    decreases |s|
  {
    if |s| >= |p| {
      if s[..|p|] == p {
        assert At(s, p, 0);
      }
      if Contains(s[1..], p) {
        ContainsTail(s, p);
      }
      SplitAbsent(s[1..], p);
      assert s == [s[0]] + s[1..];
    }
  }

  /** The first piece of a split is a prefix of the input. */
  lemma {:induction false} SplitHeadPrefix(s: string, p: string)
    requires |p| > 0
    ensures |SplitOn(s, p)[0]| <= |s| && SplitOn(s, p)[0] == s[..|SplitOn(s, p)[0]|]
    decreases |s|
  {
    if |s| >= |p| && s[..|p|] != p {
      SplitHeadPrefix(s[1..], p);
    }
  }

  /** No piece of a split contains the pattern. */
  lemma {:induction false} SplitPiecesFree(s: string, p: string)
    requires |p| > 0
    ensures forall k :: 0 <= k < |SplitOn(s, p)| ==> !Contains(SplitOn(s, p)[k], p)
    decreases |s|
  {
    if |s| < |p| {
      assert SplitOn(s, p) == [s];
      assert !Contains(s, p);
    } else if s[..|p|] == p {
      SplitPiecesFree(s[|p|..], p);
      var rest := SplitOn(s[|p|..], p);
      assert SplitOn(s, p) == [""] + rest;
      assert !Contains("", p);
    } else {
      SplitPiecesFree(s[1..], p);
      var rest := SplitOn(s[1..], p);
      SplitHeadPrefix(s[1..], p);
      FirstPieceFree(s, p, rest[0]);
      assert SplitOn(s, p) == [[s[0]] + rest[0]] + rest[1..];
      forall k | 0 <= k < |SplitOn(s, p)|
        ensures !Contains(SplitOn(s, p)[k], p)
      {
        if k > 0 {
          assert SplitOn(s, p)[k] == rest[k];
        }
      }
    }
  }

  /** A piece that does not start with `p`, extended by one character of the
      input in front, still does not contain `p`. */
  lemma FirstPieceFree(s: string, p: string, r0: string)
    requires |p| > 0 && |s| >= |p| && s[..|p|] != p
    requires |r0| < |s| && r0 == s[1..][..|r0|] && !Contains(r0, p)
    ensures !Contains([s[0]] + r0, p)
  {
    var first := [s[0]] + r0;
    assert first == s[..|first|];
    forall i | 0 <= i <= |first|
      ensures !At(first, p, i)
    {
      if i > 0 && At(first, p, i) {
        assert first[i..i + |p|] == r0[i - 1..i - 1 + |p|];
        assert At(r0, p, i - 1);
      }
    }
  }

  /** `s.gsub("", q)` puts `q` at each of the `|s| + 1` gaps of `s`. */
  lemma {:induction false} InsertAroundLength(s: string, q: string)
    ensures |ReplaceAll(s, "", q)| == |s| + (|s| + 1) * |q|
  {
    if s != [] {
      InsertAroundLength(s[1..], q);
    }
  }

  // ---------------------------------------------------------------- split

  /** A character that does not occur in `s` splits it into itself alone
      (nothing at all for the empty string). */
  lemma SplitWithoutSeparator(s: string, c: char)
    requires c !in s
    ensures Split(s, c) == if s == "" then [] else [s]
  {
    ContainsChar(s, c);
    SplitAbsent(s, [c]);
  }

  /** A one-character string occurs in `s` exactly when that character does. */
  lemma ContainsChar(s: string, c: char)
    ensures Contains(s, [c]) <==> c in s
  {
    if c in s {
      var i :| 0 <= i < |s| && s[i] == c;
      assert s[i..i + 1] == [c];
      assert At(s, [c], i);
    }
    if Contains(s, [c]) {
      var i :| 0 <= i <= |s| && At(s, [c], i);
      assert s[i..i + 1][0] == s[i];
    }
  }

  /** No piece of `Split(s, c)` contains `c`. */
  lemma SplitPiecesHaveNoSeparator(s: string, c: char)
    ensures forall k, j :: 0 <= k < |Split(s, c)| && 0 <= j < |Split(s, c)[k]| ==> Split(s, c)[k][j] != c
  {
    SplitPiecesFree(s, [c]);
    forall k, j | 0 <= k < |Split(s, c)| && 0 <= j < |Split(s, c)[k]|
      ensures Split(s, c)[k][j] != c
    {
      var piece := Split(s, c)[k];
      assert piece == SplitOn(s, [c])[k];
      assert !Contains(piece, [c]);
      ContainsChar(piece, c);
    }
  }

  /** A separator after a separator-free prefix ends the first piece there. */
  lemma {:induction false} SplitOnSeparated(a: string, c: char, b: string)
    requires c !in a
    ensures SplitOn(a + [c] + b, [c]) == [a] + SplitOn(b, [c])
  {
    var s := a + [c] + b;
    if a == [] {
      assert s[..1] == [c] && s[1..] == b;
    } else {
      SplitOnSeparated(a[1..], c, b);
      assert s[..1] == [a[0]] && s[1..] == a[1..] + [c] + b;
      assert [a[0]] + a[1..] == a;
    }
  }

  /** Without the separator, the string is its own only piece. */
  lemma SplitOnWithout(s: string, c: char)
    requires c !in s
    ensures SplitOn(s, [c]) == [s]
  {
    ContainsChar(s, c);
    SplitAbsent(s, [c]);
  }

  /** Joining pieces that are all empty gives nothing but separators. */
  lemma {:induction false} JoinAllEmpty(parts: seq<string>, c: char)
    requires |parts| > 0 && forall k :: 0 <= k < |parts| ==> parts[k] == ""
    ensures forall j :: 0 <= j < |JoinWith(parts, [c])| ==> JoinWith(parts, [c])[j] == c
  {
    if |parts| > 1 {
      JoinAllEmpty(parts[1..], c);
      assert JoinWith(parts, [c]) == [c] + JoinWith(parts[1..], [c]);
    }
  }

  /** Every character of every piece occurs in the joined string. */
  lemma {:induction false} PieceCharInJoin(parts: seq<string>, q: string, k: nat, j: nat)
    requires k < |parts| && j < |parts[k]|
    ensures parts[k][j] in JoinWith(parts, q)
  {
    if k == 0 {
      if |parts| > 1 {
        assert JoinWith(parts, q)[j] == parts[0][j];
      }
    } else {
      PieceCharInJoin(parts[1..], q, k - 1, j);
      var rest := JoinWith(parts[1..], q);
      var i :| 0 <= i < |rest| && rest[i] == parts[k][j];
      assert JoinWith(parts, q)[|parts[0]| + |q| + i] == rest[i];
    }
  }

  /** `s.split(c)` is empty exactly when `s` holds nothing but `c`. */
  lemma SplitEmptyIff(s: string, c: char)
    ensures Split(s, c) == [] <==> forall k :: 0 <= k < |s| ==> s[k] == c
  {
    var parts := SplitOn(s, [c]);
    SplitJoinRoundTrip(s, [c]);
    if Split(s, c) == [] {
      JoinAllEmpty(parts, c);
    } else {
      var r := Split(s, c);
      var last := r[|r| - 1];
      assert last == parts[|r| - 1];
      SplitPiecesFree(s, [c]);
      ContainsChar(last, c);
      PieceCharInJoin(parts, [c], |r| - 1, 0);
      assert last[0] != c;
    }
  }

  // ---------------------------------------------------------------- squeeze

  lemma {:induction false} SqueezeHead(s: string, c: char)
    requires |s| > 0
    ensures |Squeeze(s, c)| > 0 && Squeeze(s, c)[0] == s[0]
  {
    if |s| > 1 && s[0] == c && s[1] == c {
      SqueezeHead(s[1..], c);
    }
  }

  /** After `squeeze(c)` no two neighbouring characters are both `c`. */
  lemma {:induction false} SqueezeNoRun(s: string, c: char)
    ensures NoRun(Squeeze(s, c), c)
  {
    if |s| > 1 {
      SqueezeNoRun(s[1..], c);
      SqueezeHead(s[1..], c);
      if !(s[0] == c && s[1] == c) {
        var t := Squeeze(s[1..], c);
        assert forall i :: 1 <= i < |t| ==> ([s[0]] + t)[i] == t[i - 1];
      }
    }
  }

  lemma {:induction false} WithoutAppend(a: string, b: string, c: char)
    ensures Without(a + b, c) == Without(a, c) + Without(b, c)
  {
    if a == [] {
      assert a + b == b;
    } else {
      assert (a + b)[1..] == a[1..] + b;
      assert (a + b)[0] == a[0];
      WithoutAppend(a[1..], b, c);
      var h := if a[0] == c then [] else [a[0]];
      assert Without(a + b, c) == h + Without(a[1..] + b, c);
      assert Without(a, c) == h + Without(a[1..], c);
    }
  }

  /** `squeeze(c)` removes only copies of `c`: every other character stays, in order. */
  lemma {:induction false} SqueezeKeepsOthers(s: string, c: char)
    ensures Without(Squeeze(s, c), c) == Without(s, c)
  {
    if |s| > 1 {
      SqueezeKeepsOthers(s[1..], c);
      WithoutAppend([s[0]], Squeeze(s[1..], c), c);
      assert s == [s[0]] + s[1..];
      WithoutAppend([s[0]], s[1..], c);
    }
  }

  /** A string without runs of `c` is left as it is by `squeeze(c)`. */
  lemma {:induction false} SqueezeNoRunIdentity(s: string, c: char)
    requires NoRun(s, c)
    ensures Squeeze(s, c) == s
  {
    if |s| > 1 {
      assert NoRun(s[1..], c) by {
        forall i | 0 <= i < |s[1..]| - 1
          ensures s[1..][i] != c || s[1..][i + 1] != c
        {
          assert s[1..][i] == s[i + 1] && s[1..][i + 1] == s[i + 2];
        }
      }
      SqueezeNoRunIdentity(s[1..], c);
      assert s == [s[0]] + s[1..];
    }
  }

  /** Squeezing twice is squeezing once. */
  lemma SqueezeIdempotent(s: string, c: char)
    ensures Squeeze(Squeeze(s, c), c) == Squeeze(s, c)
  {
    SqueezeNoRun(s, c);
    SqueezeNoRunIdentity(Squeeze(s, c), c);
  }
}
