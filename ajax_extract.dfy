/** `AjaxPathExtractor#run`: the `href` of every anchor that has one and whose
    `data-remote` attribute is `'true'`, with `.js` appended, in document
    order. The parsed HTML document is modelled as its sequence of anchors. */
module AjaxExtract {
  import opened Util

  /** An `<a>` element: its `href` and `data-remote` attributes, if present. */
  datatype Anchor = Anchor(href: Option<string>, dataRemote: Option<string>)

  /** The XPath `//a[@href and @data-remote='true']`. */
  predicate Selected(a: Anchor)
  {
    a.href.Some? && a.dataRemote == Some("true")
  }

  /** `doc.search(...).map { |a| a['href'].dup << ".js" }`. The `dup` means
      the anchors themselves are left as they were: here the document is a
      value and the result a new sequence. */
  function AjaxPaths(doc: seq<Anchor>): (r: seq<string>)
    ensures |r| <= |doc|
  {
    if doc == [] then []
    else
      var rest := AjaxPaths(doc[1..]);
      if Selected(doc[0]) then [doc[0].href.value + ".js"] + rest else rest
  }

  /** How many anchors of `doc` the XPath selects. */
  function SelectedCount(doc: seq<Anchor>): nat
  {
    if doc == [] then 0 else (if Selected(doc[0]) then 1 else 0) + SelectedCount(doc[1..])
  }

  // ---------------------------------------------------------------- lemmas

  lemma {:induction false} AjaxPathsAppend(a: seq<Anchor>, b: seq<Anchor>)
    ensures AjaxPaths(a + b) == AjaxPaths(a) + AjaxPaths(b)
  {
    if a != [] {
      assert (a + b)[1..] == a[1..] + b;
      AjaxPathsAppend(a[1..], b);
    } else {
      assert a + b == b;
    }
  }

  lemma {:induction false} SelectedCountAppend(a: seq<Anchor>, b: seq<Anchor>)
    ensures SelectedCount(a + b) == SelectedCount(a) + SelectedCount(b)
  {
    if a != [] {
      assert (a + b)[1..] == a[1..] + b;
      SelectedCountAppend(a[1..], b);
    } else {
      assert a + b == b;
    }
  }

  /** Exactly one entry per selected anchor: no deduplication happens here. */
  lemma {:induction false} AjaxPathsCount(doc: seq<Anchor>)
    ensures |AjaxPaths(doc)| == SelectedCount(doc)
  {
    if doc != [] {
      AjaxPathsCount(doc[1..]);
    }
  }

  /** The entries are in document order: the selected anchor at `j` gives the
      entry whose position is the number of selected anchors before it, and
      that entry is its `href` followed by `.js`. */
  lemma AjaxPathsOrder(doc: seq<Anchor>, j: nat)
    requires j < |doc| && Selected(doc[j])
    ensures SelectedCount(doc[..j]) < |AjaxPaths(doc)|
    ensures AjaxPaths(doc)[SelectedCount(doc[..j])] == doc[j].href.value + ".js"
  {
    assert doc == doc[..j] + [doc[j]] + doc[j + 1..];
    AjaxPathsAppend(doc[..j] + [doc[j]], doc[j + 1..]);
    AjaxPathsAppend(doc[..j], [doc[j]]);
    AjaxPathsCount(doc[..j]);
  }

  /** Every entry is the `href` of a selected anchor followed by `.js`, and
      every selected anchor contributes its entry. */
  lemma {:induction false} AjaxPathsMembers(doc: seq<Anchor>)
    ensures forall x :: x in AjaxPaths(doc) <==> exists a :: a in doc && Selected(a) && x == a.href.value + ".js"
  {
    if doc != [] {
      AjaxPathsMembers(doc[1..]);
      assert forall a :: a in doc <==> a == doc[0] || a in doc[1..];
    }
  }

  /** Anchors without `href`, or whose `data-remote` is missing or anything
      but `'true'`, contribute nothing. */
  lemma {:induction false} UnselectedContributeNothing(doc: seq<Anchor>)
    requires forall a :: a in doc ==> a.href.None? || a.dataRemote != Some("true")
    ensures AjaxPaths(doc) == []
  {
    if doc != [] {
      UnselectedContributeNothing(doc[1..]);
    }
  }

  /** `<a href="/api/items" data-remote="true">` gives `/api/items.js`; an
      anchor with `data-remote="false"` and one without `href` give nothing. */
  lemma AjaxPathsExample()
    ensures AjaxPaths([
      Anchor(Some("/api/items"), Some("true")),
      Anchor(Some("/about"), Some("false")),
      Anchor(None, Some("true"))
    ]) == ["/api/items.js"]
  {
    var a1, a2, a3 := Anchor(Some("/api/items"), Some("true")), Anchor(Some("/about"), Some("false")), Anchor(None, Some("true"));
    assert [a1, a2, a3][1..] == [a2, a3];
    assert [a2, a3][1..] == [a3];
    assert [a3][1..] == [];
    assert AjaxPaths([a3]) == [];
    assert AjaxPaths([a2, a3]) == [];
    assert "/api/items" + ".js" == "/api/items.js";
  }
}
