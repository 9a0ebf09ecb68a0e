/** `CssPathExtractor#run`: the text inside the parentheses of each
    declaration value, as the regular expression `.*\(([^)]*)\)` captures it,
    then `uniq` and `compact`. Also the crawler's pre-filter that keeps the
    `background-image` declarations whose value mentions `url(`. */
module CssExtract {
  import opened Util
  import opened Strings
  import opened StyleTree

  /** Index of the first ')' at or after `k`. */
  function CloseFrom(s: string, k: nat): (r: Option<nat>)
    requires k <= |s|
    ensures r.Some? ==> k <= r.value < |s| && s[r.value] == ')' && ')' !in s[k..r.value]
    ensures r.None? ==> ')' !in s[k..]
    decreases |s| - k
  {
    if k == |s| then None
    else if s[k] == ')' then Some(k)
    else
      var r := CloseFrom(s, k + 1);
      assert s[k..] == [s[k]] + s[k + 1..];
      assert r.Some? ==> s[k..r.value] == [s[k]] + s[k + 1..r.value];
      r
  }

  /** `\(([^)]*)\)` matches at `j`: a '(' with a ')' somewhere after it. */
  predicate Opens(s: string, j: nat)
  {
    j < |s| && s[j] == '(' && CloseFrom(s, j + 1).Some?
  }

  /** The first newline at or after `i`, or the end of `s`: how far `.` can run. */
  function LineEnd(s: string, i: nat): (e: nat)
    requires i <= |s|
    ensures i <= e <= |s| && (e < |s| ==> s[e] == '\n')
    ensures forall k :: i <= k < e ==> s[k] != '\n'
    decreases |s| - i
  {
    if i == |s| || s[i] == '\n' then i else LineEnd(s, i + 1)
  }

  /** The last place in `[i, e)` where a group opens. */
  function LastOpen(s: string, i: nat, e: nat): (r: Option<nat>)
    requires i <= e <= |s|
    ensures r.Some? ==> i <= r.value < e && Opens(s, r.value)
    ensures r.Some? ==> forall j :: r.value < j < e ==> !Opens(s, j)
    ensures r.None? ==> forall j :: i <= j < e ==> !Opens(s, j)
    decreases e
  {
    if e == i then None
    else if Opens(s, e - 1) then Some(e - 1)
    else LastOpen(s, i, e - 1)
  }

  /** The '(' at which `.*\(([^)]*)\)` matches when the search starts at line
      start `i`: the leftmost match starts at the beginning of the first line
      holding an opening group (`.` does not cross a newline), and the greedy
      `.*` then makes it the last such '(' of that line. */
  function MatchOpen(s: string, i: nat): (r: Option<nat>)
    requires i <= |s|
    ensures r.Some? ==> i <= r.value < |s| && Opens(s, r.value)
    decreases |s| - i
  {
    var e := LineEnd(s, i);
    match LastOpen(s, i, e)
    case Some(j) => Some(j)
    case None => if e < |s| then MatchOpen(s, e + 1) else None
  }

  /** `value.match(/.*\(([^)]*)\)/).to_a[1]`: the first capture, or `nil`. */
  function Capture(value: string): Option<string>
  {
    match MatchOpen(value, 0)
    case None => None
    case Some(j) => Some(value[j + 1..CloseFrom(value, j + 1).value])
  }

  /** `x` is the text strictly between a '(' and a ')' of `v`. */
  predicate Parenthesised(x: string, v: string)
  {
    exists j, k :: 0 <= j < k < |v| && v[j] == '(' && v[k] == ')' && x == v[j + 1..k]
  }

  /** `doc.map { |row| capture(row[:value]) }.uniq.compact`. */
  function CssPaths(rows: seq<Decl>): seq<string>
  {
    Compact(Uniq(Captures(rows)))
  }

  function Captures(rows: seq<Decl>): (caps: seq<Option<string>>)
    ensures |caps| == |rows|
  {
    seq(|rows|, i requires 0 <= i < |rows| => Capture(rows[i].value))
  }

  /** The crawler's filter before the extractor: property `background-image`
      and a value matching `/url\(/`. */
  function BackgroundImages(rows: seq<Decl>): (r: seq<Decl>)
    ensures forall d :: d in r <==> d in rows && d.property == Some("background-image") && Contains(d.value, "url(")
  {
    if rows == [] then []
    else
      var rest := BackgroundImages(rows[1..]);
      assert forall d :: d in rows <==> d == rows[0] || d in rows[1..];
      if rows[0].property == Some("background-image") && Contains(rows[0].value, "url(") then [rows[0]] + rest else rest
  }

  // ---------------------------------------------------------------- the regex

  /** The search from line start `i` succeeds exactly when some group opens at
      or after `i`, and then it finds one. */
  lemma {:induction false} MatchOpenFinds(s: string, i: nat)
    requires i <= |s|
    ensures MatchOpen(s, i).Some? <==> exists j :: i <= j < |s| && Opens(s, j)
    decreases |s| - i
  {
    var e := LineEnd(s, i);
    if LastOpen(s, i, e).None? && e < |s| {
      MatchOpenFinds(s, e + 1);
      assert !Opens(s, e);
    }
  }

  /** A value yields a capture exactly when it has a '(' with a ')' somewhere
      after it; so `none` yields `nil`. */
  lemma CaptureExists(value: string)
    ensures Capture(value).Some? <==> exists j :: 0 <= j < |value| && Opens(value, j)
  {
    MatchOpenFinds(value, 0);
  }

  /** A capture is the text strictly between a '(' and the first ')' after it:
      a substring of the value that never contains ')'. */
  lemma CaptureIsParenthesised(value: string)
    requires Capture(value).Some?
    ensures Parenthesised(Capture(value).value, value)
    ensures ')' !in Capture(value).value
  {
    MatchOpenFinds(value, 0);
    var j := MatchOpen(value, 0).value;
    var k := CloseFrom(value, j + 1).value;
    assert value[j] == '(' && value[k] == ')';
  }

  /** On a one-line value the greedy `.*` selects the last '(' that a later ')'
      closes: `url(a) url(b)` yields `b`. */
  lemma CaptureIsLastGroup(value: string)
    requires '\n' !in value && Capture(value).Some?
    ensures var j := MatchOpen(value, 0).value;
      Capture(value) == Some(value[j + 1..CloseFrom(value, j + 1).value]) &&
      forall j' :: j < j' < |value| ==> !Opens(value, j')
  {
    MatchOpenFinds(value, 0);
    assert LineEnd(value, 0) == |value|;
  }

  lemma {:induction false} LineEndWithoutNewline(s: string, i: nat)
    requires i <= |s| && '\n' !in s
    ensures LineEnd(s, i) == |s|
    decreases |s| - i
  {
    if i < |s| {
      LineEndWithoutNewline(s, i + 1);
    }
  }

  /** On a one-line value whose last opening group is at `j`, the capture is
      the text from `j` to the first ')' after it. */
  lemma CaptureOfLastGroup(value: string, j: nat)
    requires '\n' !in value && Opens(value, j)
    requires forall j' :: j < j' < |value| ==> value[j'] != '('
    ensures Capture(value) == Some(value[j + 1..CloseFrom(value, j + 1).value])
  {
    LineEndWithoutNewline(value, 0);
    var r := LastOpen(value, 0, |value|);
    assert r.Some? && r.value == j;
  }

  /** `CloseFrom` finds the first ')' from `k` on. */
  lemma {:induction false} CloseFromFirst(s: string, k: nat, m: nat)
    requires k <= m < |s| && s[m] == ')' && forall i :: k <= i < m ==> s[i] != ')'
    ensures CloseFrom(s, k) == Some(m)
    decreases m - k
  {
    if k < m {
      CloseFromFirst(s, k + 1, m);
    }
  }

  /** `url(x)` captures `x` when `x` holds no parenthesis and no newline: so
      `url(/img/bg.png)` gives `/img/bg.png`. */
  lemma CaptureOfUrl(value: string, x: string)
    requires value == "url(" + x + ")" && '(' !in x && ')' !in x && '\n' !in x
    ensures Capture(value) == Some(x)
  {
    var m := 4 + |x|;
    assert value[m] == ')';
    forall i | 4 <= i < m
      ensures value[i] != ')' && value[i] != '('
    {
      assert value[i] == x[i - 4];
    }
    CloseFromFirst(value, 4, m);
    assert '\n' !in value by {
      forall i | 0 <= i < |value|
        ensures value[i] != '\n'
      {
        if 4 <= i < m {
          assert value[i] == x[i - 4];
        }
      }
    }
    CaptureOfLastGroup(value, 3);
    assert value[4..m] == x;
  }

  lemma CaptureOfNone(value: string)
    requires value == "none"
    ensures Capture(value) == None
  {
    CaptureExists(value);
  }

  /** `url()` captures the empty string: `compact` removes `nil` only. */
  lemma CaptureOfEmptyUrl(value: string)
    requires value == "url()"
    ensures Capture(value) == Some("")
  {
    CaptureOfUrl(value, "");
  }

  // ---------------------------------------------------------------- the extractor

  /** The extractor's result has no duplicates. */
  lemma CssPathsNoDup(rows: seq<Decl>)
    ensures NoDup(CssPaths(rows))
  {
    CompactUniqCommute(Captures(rows));
  }

  /** Every path comes from some row's value (as its capture), and every row
      that has a capture contributes it. */
  lemma CssPathsMembers(rows: seq<Decl>)
    ensures forall x :: x in CssPaths(rows) <==> exists i :: 0 <= i < |rows| && Capture(rows[i].value) == Some(x)
  {
    var caps := Captures(rows);
    CompactUniqCommute(caps);
    CompactMembers(caps);
    forall x
      ensures x in CssPaths(rows) <==> exists i :: 0 <= i < |rows| && Capture(rows[i].value) == Some(x)
    {
      if Some(x) in caps {
        var i :| 0 <= i < |caps| && caps[i] == Some(x);
        assert Capture(rows[i].value) == Some(x);
      }
      if exists i :: 0 <= i < |rows| && Capture(rows[i].value) == Some(x) {
        var i :| 0 <= i < |rows| && Capture(rows[i].value) == Some(x);
        assert caps[i] == Some(x);
      }
    }
  }

  /** Each path is a parenthesised substring of one of the values, without ')'. */
  lemma CssPathsAreSubstrings(rows: seq<Decl>, x: string)
    requires x in CssPaths(rows)
    ensures ')' !in x
    ensures exists i :: 0 <= i < |rows| && Parenthesised(x, rows[i].value)
  {
    CssPathsMembers(rows);
    var i :| 0 <= i < |rows| && Capture(rows[i].value) == Some(x);
    CaptureIsParenthesised(rows[i].value);
  }

  /** No more paths than rows, listed in the order of their first occurrence. */
  lemma CssPathsOrder(rows: seq<Decl>, a: nat, b: nat)
    requires a < b < |CssPaths(rows)|
    ensures |CssPaths(rows)| <= |rows|
    ensures var caps, p := Compact(Captures(rows)), CssPaths(rows);
      p[a] in caps && p[b] in caps && IndexOf(caps, p[a]) < IndexOf(caps, p[b])
  {
    var caps := Captures(rows);
    CompactUniqCommute(caps);
    UniqFirstOccurrenceOrder(Compact(caps), a, b);
  }

  /** The examples: `url(/img/bg.png)` gives `/img/bg.png`, `none` gives
      nothing, and a repeated value is listed once. */
  lemma CssPathsExample(d1: Decl, d2: Decl, d3: Decl)
    requires d1.value == "url(/img/bg.png)" && d2.value == "none" && d3.value == d1.value
    ensures CssPaths([d1, d2, d3]) == ["/img/bg.png"]
  {
    var caps := Captures([d1, d2, d3]);
    var url := Some("/img/bg.png");
    CapturesExample(d1, d2, d3);
    assert caps == [url, None, url];
    UniqCompactExample("/img/bg.png");
    assert CssPaths([d1, d2, d3]) == Compact(Uniq(caps));
  }

  lemma CapturesExample(d1: Decl, d2: Decl, d3: Decl)
    requires d1.value == "url(/img/bg.png)" && d2.value == "none" && d3.value == d1.value
    ensures Captures([d1, d2, d3]) == [Some("/img/bg.png"), None, Some("/img/bg.png")]
  {
    CaptureOfUrl(d1.value, "/img/bg.png");
    CaptureOfNone(d2.value);
  }

  lemma UniqCompactExample(x: string)
    ensures Compact(Uniq([Some(x), None, Some(x)])) == [x]
  {
    var none: Option<string> := None;
    var a, b := [Some(x)], [Some(x), none];
    assert b == a + [none];
    assert [Some(x), none, Some(x)] == b + [Some(x)];
    UniqSnoc(b, Some(x));
    UniqSnoc(a, none);
    assert a == [] + [Some(x)];
    UniqSnoc([], Some(x));
    assert Uniq(b) == b;
    CompactSnoc(a, none);
    assert a[1..] == [];
  }
}
