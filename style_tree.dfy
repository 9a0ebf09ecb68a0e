/** The `ToArray` visitor that flattens a parsed style sheet into a list of
    declarations, in document order, carrying the current media query and
    selector as it goes. The style-sheet parser itself is not modelled: its
    tree is the input. */
module StyleTree {
  import opened Util

  /** The nodes of a parsed style sheet that the visitor tells apart. `Other`
      stands for every node kind without a visit method of its own (comments,
      directives, ...): the visitor only descends into its children. */
  datatype Node =
    | Root(children: seq<Node>)
    | Media(query: seq<string>, children: seq<Node>)
    | Rule(rule: seq<string>, children: seq<Node>)
    | Prop(name: seq<string>, value: Option<string>, children: seq<Node>)
    | Other(children: seq<Node>)

  /** One flattened declaration: `{media:, selector:, property:, value:}`. */
  datatype Decl = Decl(media: Option<string>, selector: Option<string>, property: Option<string>, value: string)

  /** The visitor's instance variables `@media`, `@selector` and `@array`. */
  datatype State = State(media: Option<string>, selector: Option<string>, out: seq<Decl>)

  /** Ruby's `a[0]` on an array: `nil` when it is empty. */
  function First(a: seq<string>): Option<string>
  {
    if a == [] then None else Some(a[0])
  }

  /** Ruby's `a.join('')`. */
  function Concat(a: seq<string>): string
  {
    if a == [] then "" else a[0] + Concat(a[1..])
  }

  /** `visit(node, parent)`: a child of the root first resets `@media` to
      "all"; then the node's own visit method runs. */
  function Visit(n: Node, parentIsRoot: bool, st: State): State
    decreases n, 1
  {
    var st := if parentIsRoot then st.(media := Some("all")) else st;
    match n
    case Root(cs) => VisitChildren(cs, true, st)
    case Media(q, cs) => VisitChildren(cs, false, st.(media := Some(Concat(q))))
    case Rule(r, cs) => VisitChildren(cs, false, st.(selector := First(r)))
    case Prop(name, value, _) =>
      if value.None? then st
      else st.(out := st.out + [Decl(st.media, st.selector, First(name), value.value)])
    case Other(cs) => VisitChildren(cs, false, st)
  }

  /** `visit_children(parent)`: the children in order, threading the state. */
  function VisitChildren(cs: seq<Node>, parentIsRoot: bool, st: State): State
    decreases cs, 0
  {
    if cs == [] then st
    else VisitChildren(cs[1..], parentIsRoot, Visit(cs[0], parentIsRoot, st))
  }

  /** `tree.to_a`: the visitor starts with `@array = []` and the other two
      instance variables unset. */
  function ToArray(tree: Node): seq<Decl>
  {
    Visit(tree, false, State(None, None, [])).out
  }

  // ---------------------------------------------------------------- reference

  /** (property, value) of every property node that has a value, in document
      order, not looking below a property node. */
  function Props(n: Node): seq<(Option<string>, string)>
    decreases n, 1
  {
    match n
    case Prop(name, value, _) => if value.None? then [] else [(First(name), value.value)]
    case _ => PropsAll(n.children)
  }

  function PropsAll(cs: seq<Node>): seq<(Option<string>, string)>
    decreases cs, 0
  {
    if cs == [] then [] else Props(cs[0]) + PropsAll(cs[1..])
  }

  function Pairs(ds: seq<Decl>): seq<(Option<string>, string)>
  {
    seq(|ds|, i requires 0 <= i < |ds| => (ds[i].property, ds[i].value))
  }

  /** The tree holds no media node. */
  predicate NoMedia(n: Node)
    decreases n, 1
  {
    match n
    case Media(_, _) => false
    case Prop(_, _, _) => true
    case _ => NoMediaAll(n.children)
  }

  predicate NoMediaAll(cs: seq<Node>)
    decreases cs, 0
  {
    cs == [] || (NoMedia(cs[0]) && NoMediaAll(cs[1..]))
  }

  // ---------------------------------------------------------------- lemmas

  /** The visitor only appends: it emits, in order, exactly the (property,
      value) pairs of the valued property nodes. */
  lemma {:induction false} VisitEmitsProps(n: Node, parentIsRoot: bool, st: State)
    ensures var r := Visit(n, parentIsRoot, st).out;
      |st.out| <= |r| && r[..|st.out|] == st.out && Pairs(r[|st.out|..]) == Props(n)
    decreases n, 1
  {
    var st' := if parentIsRoot then st.(media := Some("all")) else st;
    match n
    case Root(cs) => VisitChildrenEmitsProps(cs, true, st');
    case Media(q, cs) => VisitChildrenEmitsProps(cs, false, st'.(media := Some(Concat(q))));
    case Rule(r, cs) => VisitChildrenEmitsProps(cs, false, st'.(selector := First(r)));
    case Prop(name, value, _) =>
    case Other(cs) => VisitChildrenEmitsProps(cs, false, st');
  }

  lemma {:induction false} VisitChildrenEmitsProps(cs: seq<Node>, parentIsRoot: bool, st: State)
    ensures var r := VisitChildren(cs, parentIsRoot, st).out;
      |st.out| <= |r| && r[..|st.out|] == st.out && Pairs(r[|st.out|..]) == PropsAll(cs)
    decreases cs, 0
  {
    if cs != [] {
      var mid := Visit(cs[0], parentIsRoot, st);
      VisitEmitsProps(cs[0], parentIsRoot, st);
      VisitChildrenEmitsProps(cs[1..], parentIsRoot, mid);
      var r := VisitChildren(cs, parentIsRoot, st).out;
      assert r[|st.out|..] == mid.out[|st.out|..] + r[|mid.out|..];
      PairsAppend(mid.out[|st.out|..], r[|mid.out|..]);
    }
  }

  lemma PairsAppend(a: seq<Decl>, b: seq<Decl>)
    ensures Pairs(a + b) == Pairs(a) + Pairs(b)
  {
  }

  /** `to_a` lists exactly the valued property nodes of the tree, in document order. */
  lemma ToArrayIsProps(tree: Node)
    ensures Pairs(ToArray(tree)) == Props(tree)
  {
    VisitEmitsProps(tree, false, State(None, None, []));
  }

  /** Below the root and outside any media block every declaration is
      reported with media "all": the root resets `@media` for each child. */
  lemma {:induction false} VisitWithoutMediaIsAll(n: Node, parentIsRoot: bool, st: State)
    requires NoMedia(n) && (parentIsRoot || st.media == Some("all"))
    ensures var r := Visit(n, parentIsRoot, st);
      r.media == Some("all") && forall k :: |st.out| <= k < |r.out| ==> r.out[k].media == Some("all")
    decreases n, 1
  {
    VisitEmitsProps(n, parentIsRoot, st);
    var st' := if parentIsRoot then st.(media := Some("all")) else st;
    match n
    case Root(cs) => VisitChildrenWithoutMediaIsAll(cs, true, st');
    case Rule(r, cs) => VisitChildrenWithoutMediaIsAll(cs, false, st'.(selector := First(r)));
    case Prop(name, value, _) =>
    case Other(cs) => VisitChildrenWithoutMediaIsAll(cs, false, st');
  }

  lemma {:induction false} VisitChildrenWithoutMediaIsAll(cs: seq<Node>, parentIsRoot: bool, st: State)
    requires NoMediaAll(cs) && (parentIsRoot || st.media == Some("all"))
    ensures var r := VisitChildren(cs, parentIsRoot, st);
      (cs != [] ==> r.media == Some("all")) &&
      forall k :: |st.out| <= k < |r.out| ==> r.out[k].media == Some("all")
    decreases cs, 0
  {
    if cs != [] {
      var mid := Visit(cs[0], parentIsRoot, st);
      VisitWithoutMediaIsAll(cs[0], parentIsRoot, st);
      VisitEmitsProps(cs[0], parentIsRoot, st);
      VisitChildrenWithoutMediaIsAll(cs[1..], parentIsRoot, mid);
      VisitChildrenEmitsProps(cs[1..], parentIsRoot, mid);
      var r := VisitChildren(cs, parentIsRoot, st);
      forall k | |st.out| <= k < |r.out|
        ensures r.out[k].media == Some("all")
      {
        if k < |mid.out| {
          assert r.out[k] == mid.out[k];
        }
      }
    }
  }

  /** A style sheet without media blocks has every declaration in media "all". */
  lemma SheetWithoutMediaIsAll(cs: seq<Node>)
    requires NoMediaAll(cs)
    ensures forall d :: d in ToArray(Root(cs)) ==> d.media == Some("all")
  {
    VisitChildrenWithoutMediaIsAll(cs, true, State(None, None, []));
  }

  /** A rule that follows a media block at the top level is back in media
      "all", and each declaration carries the selector of its own rule. */
  lemma MediaIsResetAtTopLevel()
    ensures ToArray(Root([
      Media(["print"], [Rule(["a"], [Prop(["color"], Some("red"), [])])]),
      Rule(["b"], [Prop(["background-image"], Some("url(/x.png)"), []), Prop(["margin"], None, [])])
    ])) == [
      Decl(Some("print"), Some("a"), Some("color"), "red"),
      Decl(Some("all"), Some("b"), Some("background-image"), "url(/x.png)")
    ]
  {
    var color := Prop(["color"], Some("red"), []);
    var image := Prop(["background-image"], Some("url(/x.png)"), []);
    var margin := Prop(["margin"], None, []);
    var media := Media(["print"], [Rule(["a"], [color])]);
    var rule := Rule(["b"], [image, margin]);
    var d1 := Decl(Some("print"), Some("a"), Some("color"), "red");
    var d2 := Decl(Some("all"), Some("b"), Some("background-image"), "url(/x.png)");
    assert Concat(["print"]) == "print";
    var pa := State(Some("print"), Some("a"), []);
    assert Visit(color, false, pa) == pa.(out := [d1]);
    assert [color][1..] == [];
    assert VisitChildren([color], false, pa) == pa.(out := [d1]);
    var pn := State(Some("print"), None, []);
    assert Visit(Rule(["a"], [color]), false, pn) == pa.(out := [d1]);
    assert [Rule(["a"], [color])][1..] == [];
    assert VisitChildren([Rule(["a"], [color])], false, pn) == pa.(out := [d1]);
    var s1 := Visit(media, true, State(None, None, []));
    assert s1 == pa.(out := [d1]);
    var t := State(Some("all"), Some("b"), [d1]);
    assert Visit(image, false, t) == t.(out := [d1, d2]);
    assert Visit(margin, false, t.(out := [d1, d2])) == t.(out := [d1, d2]);
    assert [image, margin][1..] == [margin];
    assert [margin][1..] == [];
    assert VisitChildren([margin], false, t.(out := [d1, d2])) == t.(out := [d1, d2]);
    assert VisitChildren([image, margin], false, t) == t.(out := [d1, d2]);
    var s2 := Visit(rule, true, s1);
    assert s2 == t.(out := [d1, d2]);
    assert [media, rule][1..] == [rule];
    assert [rule][1..] == [];
    assert VisitChildren([rule], true, s1) == s2;
    assert VisitChildren([media, rule], true, State(None, None, [])) == s2;
  }
}
