/** Small value types and the Ruby Array operations the crawler relies on:
    `uniq`, `compact` and the set union `|`. */
module Util {

  /** Ruby's `nil` or a value. */
  datatype Option<+T> = None | Some(value: T)

  /** No element occurs twice. */
  predicate NoDup<T(==)>(s: seq<T>)
  {
    forall i, j :: 0 <= i < j < |s| ==> s[i] != s[j]
  }

  /** Index of the first occurrence of `x` in `s`. */
  function IndexOf<T(==)>(s: seq<T>, x: T): (k: nat)
    requires x in s
    ensures k < |s| && s[k] == x && x !in s[..k]
  {
    if s[0] == x then 0 else 1 + IndexOf(s[1..], x)
  }

  /** Ruby's `Array#uniq`: drops every element that occurred earlier. */
  function Uniq<T(==,!new)>(s: seq<T>): (r: seq<T>)
    ensures NoDup(r)
    ensures forall x :: x in r <==> x in s
    ensures |r| <= |s|
  {
    if |s| == 0 then []
    else
      var u := Uniq(s[..|s| - 1]);
      var x := s[|s| - 1];
      assert forall y :: y in s <==> y in s[..|s| - 1] || y == x by {
        assert s == s[..|s| - 1] + [x];
      }
      if x in u then u else u + [x]
  }

  /** Ruby's `Array#compact`: drops every `nil`. */
  function Compact<T(!new)>(s: seq<Option<T>>): (r: seq<T>)
    ensures |r| <= |s|
  {
    if |s| == 0 then []
    else
      var rest := Compact(s[1..]);
      match s[0]
      case None => rest
      case Some(x) => [x] + rest
  }

  /** Ruby's `Array#|`: the elements of `a`, then those of `b`, without duplicates. */
  function Union<T(==,!new)>(a: seq<T>, b: seq<T>): seq<T>
  {
    Uniq(a + b)
  }

  /** `a | b` keeps `a` as it is, in front, when `a` has no duplicates; what
      it adds comes from `b` and was not in `a`. */
  lemma {:induction false} UnionKeepsPrefix<T(!new)>(a: seq<T>, b: seq<T>)
    requires NoDup(a)
    ensures |a| <= |Union(a, b)| && Union(a, b)[..|a|] == a
    ensures forall x :: x in Union(a, b)[|a|..] ==> x in b && x !in a
  {
    if b == [] {
      assert a + b == a;
      UniqOfNoDup(a);
    } else {
      var init, y := b[..|b| - 1], b[|b| - 1];
      assert a + b == (a + init) + [y];
      UnionKeepsPrefix(a, init);
      UniqSnoc(a + init, y);
      var u := Uniq(a + init);
      if y !in a + init {
        assert (u + [y])[..|a|] == u[..|a|];
        assert (u + [y])[|a|..] == u[|a|..] + [y];
      }
    }
  }

  /** `IndexOf` in `s + [x]` agrees with `IndexOf` in `s` for the elements of `s`. */
  lemma {:induction false} IndexOfSnoc<T>(s: seq<T>, x: T, y: T)
    requires y in s
    ensures IndexOf(s + [x], y) == IndexOf(s, y)
  {
    if s[0] != y {
      assert (s + [x])[1..] == s[1..] + [x];
      IndexOfSnoc(s[1..], x, y);
    }
  }

  /** `uniq` keeps first occurrences: its elements appear in the order in which
      they first occur in the input. */
  lemma {:induction false} UniqFirstOccurrenceOrder<T(!new)>(s: seq<T>, i: nat, j: nat)
    requires i < j < |Uniq(s)|
    ensures IndexOf(s, Uniq(s)[i]) < IndexOf(s, Uniq(s)[j])
  {
    var init, x := s[..|s| - 1], s[|s| - 1];
    assert s == init + [x];
    var u := Uniq(init);
    if x in u {
      IndexOfSnoc(init, x, u[i]);
      IndexOfSnoc(init, x, u[j]);
      UniqFirstOccurrenceOrder(init, i, j);
    } else if j < |u| {
      IndexOfSnoc(init, x, u[i]);
      IndexOfSnoc(init, x, u[j]);
      UniqFirstOccurrenceOrder(init, i, j);
    } else {
      IndexOfSnoc(init, x, u[i]);
      assert x !in init;
      assert IndexOf(s, x) == |init| by {
        assert s[..|init|] == init;
      }
    }
  }

  /** A sequence without duplicates is left as it is by `uniq`. */
  lemma {:induction false} UniqOfNoDup<T(!new)>(s: seq<T>)
    requires NoDup(s)
    ensures Uniq(s) == s
  {
    if |s| > 0 {
      var init := s[..|s| - 1];
      UniqOfNoDup(init);
      assert s[|s| - 1] !in init;
      assert s == init + [s[|s| - 1]];
    }
  }

  /** In `map { }.uniq.compact` the order of `uniq` and `compact` does not matter. */
  lemma {:induction false} CompactUniqCommute<T(!new)>(s: seq<Option<T>>)
    ensures Compact(Uniq(s)) == Uniq(Compact(s))
  {
    if |s| > 0 {
      var init, x := s[..|s| - 1], s[|s| - 1];
      assert s == init + [x];
      CompactUniqCommute(init);
      var u, c := Uniq(init), Compact(init);
      UniqSnoc(init, x);
      CompactSnoc(init, x);
      if x.Some? {
        UniqSnoc(c, x.value);
        CompactMembers(init);
      }
      if x !in init {
        CompactSnoc(u, x);
        assert Uniq(s) == u + [x];
        assert Compact(Uniq(s)) == Compact(u) + (if x.Some? then [x.value] else []);
        if x.Some? {
          assert Some(x.value) == x;
          assert x.value !in c;
          assert Compact(s) == c + [x.value];
          assert Uniq(Compact(s)) == Uniq(c) + [x.value];
        } else {
          assert Compact(Uniq(s)) == Compact(u);
          assert Compact(s) == c;
        }
      }
    }
  }

  /** The elements that `compact` keeps are exactly the non-`nil` ones. */
  lemma {:induction false} CompactMembers<T(!new)>(s: seq<Option<T>>)
    ensures forall x :: x in Compact(s) <==> Some(x) in s
  {
    if |s| > 0 {
      CompactMembers(s[1..]);
      assert forall y :: y in s <==> y == s[0] || y in s[1..] by {
        assert s == [s[0]] + s[1..];
      }
    }
  }

  lemma UniqSnoc<T(!new)>(s: seq<T>, x: T)
    ensures Uniq(s + [x]) == if x in s then Uniq(s) else Uniq(s) + [x]
  {
    assert (s + [x])[..|s|] == s;
  }

  lemma {:induction false} CompactSnoc<T(!new)>(s: seq<Option<T>>, x: Option<T>)
    ensures Compact(s + [x]) == Compact(s) + (if x.Some? then [x.value] else [])
  {
    if |s| > 0 {
      assert (s + [x])[1..] == s[1..] + [x];
      CompactSnoc(s[1..], x);
    }
  }
}
