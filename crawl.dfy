/** The crawl engine: the response callback of `run` (dispatch on the media
    type, link extraction, link rewriting, storing) as a function, and the
    `Crawler` object with its stack of paths, its sitemap and its done flag. */
module Crawl {
  import opened Util
  import opened Strings
  import opened StyleTree
  import opened CssExtract
  import opened AjaxExtract
  import opened Scope
  import opened Mirror

  /** A fetched response as the callback sees it. `links` is what the path
      extractor returns for the page (`None` where it raises), `anchors` the
      anchors of the parsed page, `sheet` the parsed style sheet (`None`
      where the Sass parser raises). */
  datatype Response = Response(
    url: string,
    code: int,
    contentType: Option<string>,
    body: string,
    links: Option<seq<Item>>,
    anchors: seq<Anchor>,
    sheet: Option<Node>)

  /** What the callback does with a media type. */
  datatype Kind = HtmlPage | StyleSheet | Asset | Ignored

  /** The types that are stored without looking inside. */
  const AssetTypes: set<string> := {
    "text/javascript", "application/javascript", "application/pdf", "image/jpeg",
    "image/png", "image/webp", "image/vnd.microsoft.icon", "image/x-icon"}

  /** `headers["Content-Type"].split(";").first`. */
  function MediaType(header: string): Option<string>
  {
    var parts := Split(header, ';');
    if parts == [] then None else Some(parts[0])
  }

  /** The `case type` of the callback. */
  function KindOf(t: Option<string>): Kind
  {
    if t == Some("text/html") then HtmlPage
    else if t == Some("text/css") then StyleSheet
    else if t.Some? && t.value in AssetTypes then Asset
    else Ignored
  }

  /** What one callback does: the new `@html_paths`, the file it writes (if
      any) and the paths it distributes (`None` where it raises before
      `distribute`). */
  datatype Outcome = Outcome(htmlPaths: seq<string>, stored: Option<(LocalPath, string)>, pushed: Option<seq<string>>)

  /** `store_file(response, type) if store`, then `distribute(new_paths)`.
      `File.join` raises on a missing file name. */
  function StoreThen(base: string, r: Response, t: Option<string>, body: string, htmlPaths: seq<string>, newPaths: seq<string>): Outcome
  {
    if r.code != 200 then Outcome(htmlPaths, None, Some(newPaths))
    else
      var lp := FilePath(base, r.url, t);
      if lp.file.None? then Outcome(htmlPaths, None, None)
      else Outcome(htmlPaths, Some((lp, PutsContent(body))), Some(newPaths))
  }

  /** `extract_paths(html)`: `[]` where the extractor raises. */
  function PagePaths(ops: UriOps, base: string, sitemap: set<string>, block: Option<string -> bool>, r: Response): seq<string>
  {
    if r.links.None? then [] else Dedup(ops, base, sitemap, block, r.links.value)
  }

  /** `extract_ajax_paths(html)`. */
  function PageAjaxPaths(ops: UriOps, base: string, sitemap: set<string>, block: Option<string -> bool>, r: Response): seq<string>
  {
    Dedup(ops, base, sitemap, block, Strs(AjaxPaths(r.anchors)))
  }

  /** `extract_css_paths(css)` for a parsed sheet. */
  function SheetPaths(tree: Node): seq<string>
  {
    CssPaths(BackgroundImages(ToArray(tree)))
  }

  /** The block passed to `http.get` in `run`, for response `r`. */
  function Callback(ops: UriOps, base: string, sitemap: set<string>, block: Option<string -> bool>, htmlPaths: seq<string>, r: Response): Outcome
  {
    match r.contentType
    case None => Outcome(htmlPaths, None, None)
    case Some(header) =>
      var t := MediaType(header);
      match KindOf(t)
      case Ignored => Outcome(htmlPaths, None, Some([]))
      case Asset => StoreThen(base, r, t, r.body, htmlPaths, [])
      case HtmlPage => PageOutcome(ops, base, sitemap, block, htmlPaths, r, t)
      case StyleSheet => SheetOutcome(base, htmlPaths, r, t)
  }

  /** The `text/html` branch: the paths of the page join `@html_paths`
      before the body is rewritten with all of them. */
  function PageOutcome(ops: UriOps, base: string, sitemap: set<string>, block: Option<string -> bool>, htmlPaths: seq<string>, r: Response, t: Option<string>): Outcome
  {
    var paths := PagePaths(ops, base, sitemap, block, r);
    var ajax := PageAjaxPaths(ops, base, sitemap, block, r);
    var hp := htmlPaths + paths;
    match RewriteHtml(r.body, base, Uniq(hp))
    case None => Outcome(hp, None, None)
    case Some(body) => StoreThen(base, r, t, body, hp, paths + ajax)
  }

  /** The `text/css` branch; a sheet that does not parse raises. */
  function SheetOutcome(base: string, htmlPaths: seq<string>, r: Response, t: Option<string>): Outcome
  {
    match r.sheet
    case None => Outcome(htmlPaths, None, None)
    case Some(tree) =>
      var css := SheetPaths(tree);
      StoreThen(base, r, t, RewriteCss(r.body, css), htmlPaths, css)
  }

  // ---------------------------------------------------------------- reachable URLs

  /** The strings a response can make the callback distribute, whatever the
      sitemap: the absolute forms of its page and AJAX links, and its CSS
      paths as they are. */
  ghost function Pushable(ops: UriOps, base: string, r: Response): set<string>
  {
    var raw := (if r.links.None? then [] else Compact(Flatten(r.links.value))) + AjaxPaths(r.anchors);
    var css := if r.sheet.None? then [] else SheetPaths(r.sheet.value);
    (set s | s in raw && ToAbsolute(ops, base, s).Some? :: ToAbsolute(ops, base, s).value) + (set s | s in css)
  }

  /** The URLs that `push` can add to the stack after response `r`. */
  ghost function Discoverable(ops: UriOps, base: string, r: Response): set<string>
  {
    set s | s in Pushable(ops, base, r) && ToAbsolute(ops, base, s).Some? :: ToAbsolute(ops, base, s).value
  }

  // ---------------------------------------------------------------- lemmas: dispatch

  /** A media type without parameters is itself; parameters after ';' are
      ignored. */
  lemma MediaTypeBeforeSemicolon(t: string, rest: string)
    requires t != "" && ';' !in t
    ensures MediaType(t) == Some(t)
    ensures MediaType(t + ";" + rest) == Some(t)
  {
    SplitWithoutSeparator(t, ';');
    assert t + ";" + rest == t + [';'] + rest;
    SplitOnSeparated(t, ';', rest);
    var parts := SplitOn(t + ";" + rest, ";");
    assert parts[0] == t;
    var r := Split(t + ";" + rest, ';');
    assert |r| > 0 && r[0] == t;
  }

  /** HTML and CSS are extracted, the listed types stored as they are, and
      every other type, a missing one included, ignored. */
  lemma KindOfTypes(t: Option<string>)
    ensures KindOf(t) == HtmlPage <==> t == Some("text/html")
    ensures KindOf(t) == StyleSheet <==> t == Some("text/css")
    ensures KindOf(t) == Asset <==> t.Some? && t.value in AssetTypes
    ensures t.None? ==> KindOf(t) == Ignored
  {
  }

  /** Without a Content-Type header the callback raises at once: nothing is
      stored and nothing distributed. An ignored type stores nothing and
      distributes no paths. */
  lemma CallbackWithoutWork(ops: UriOps, base: string, sitemap: set<string>, block: Option<string -> bool>, htmlPaths: seq<string>, r: Response)
    ensures r.contentType.None? ==> Callback(ops, base, sitemap, block, htmlPaths, r) == Outcome(htmlPaths, None, None)
    ensures r.contentType.Some? && KindOf(MediaType(r.contentType.value)) == Ignored ==>
      Callback(ops, base, sitemap, block, htmlPaths, r) == Outcome(htmlPaths, None, Some([]))
  {
  }

  /** A file is written only for status 200 and a handled type; then it is
      written where `parse_file_path` says, with the `puts` newline. */
  lemma CallbackStoresOnly200(ops: UriOps, base: string, sitemap: set<string>, block: Option<string -> bool>, htmlPaths: seq<string>, r: Response)
    ensures var o := Callback(ops, base, sitemap, block, htmlPaths, r);
      o.stored.Some? ==>
        r.code == 200 && r.contentType.Some? &&
        KindOf(MediaType(r.contentType.value)) != Ignored &&
        o.stored.value.0 == FilePath(base, r.url, MediaType(r.contentType.value)) &&
        EndsWith(o.stored.value.1, "\n")
  {
  }

  /** An asset is stored unchanged (status 200, a file name) and yields no
      new paths. */
  lemma CallbackAsset(ops: UriOps, base: string, sitemap: set<string>, block: Option<string -> bool>, htmlPaths: seq<string>, r: Response)
    requires r.contentType.Some? && KindOf(MediaType(r.contentType.value)) == Asset
    ensures var o := Callback(ops, base, sitemap, block, htmlPaths, r);
      var lp := FilePath(base, r.url, MediaType(r.contentType.value));
      o.htmlPaths == htmlPaths &&
      (r.code == 200 && lp.file.Some? ==> o.stored == Some((lp, PutsContent(r.body)))) &&
      (o.pushed.Some? ==> o.pushed.value == [])
  {
  }

  /** A page never fails to get a file name: the HTML rule always gives one,
      so a page is stored whenever its status is 200 and its links rewrite. */
  lemma CallbackPageStored(ops: UriOps, base: string, sitemap: set<string>, block: Option<string -> bool>, htmlPaths: seq<string>, r: Response)
    requires r.contentType.Some? && MediaType(r.contentType.value) == Some("text/html") && r.code == 200
    ensures var o := Callback(ops, base, sitemap, block, htmlPaths, r);
      var hp := htmlPaths + PagePaths(ops, base, sitemap, block, r);
      o.htmlPaths == hp &&
      (RewriteHtml(r.body, base, Uniq(hp)).Some? ==>
        o.stored.Some? && o.stored.value.1 == PutsContent(RewriteHtml(r.body, base, Uniq(hp)).value) &&
        o.pushed == Some(PagePaths(ops, base, sitemap, block, r) + PageAjaxPaths(ops, base, sitemap, block, r)))
  {
    var lp := FilePath(base, r.url, Some("text/html"));
    assert lp.file.Some?;
  }

  /** The paths a page adds to `@html_paths` are those of the path
      extractor only (not the AJAX ones), and the rewrite of every page uses
      all the paths collected so far. */
  lemma CallbackHtmlPathsGrow(ops: UriOps, base: string, sitemap: set<string>, block: Option<string -> bool>, htmlPaths: seq<string>, r: Response)
    ensures var o := Callback(ops, base, sitemap, block, htmlPaths, r);
      o.htmlPaths == htmlPaths ||
      (r.contentType.Some? && MediaType(r.contentType.value) == Some("text/html") &&
       o.htmlPaths == htmlPaths + PagePaths(ops, base, sitemap, block, r))
  {
  }

  /** A style sheet distributes the paths of its `background-image`
      declarations, as they are, and is stored with each of them behind the
      subfolder. */
  lemma CallbackStyleSheet(ops: UriOps, base: string, sitemap: set<string>, block: Option<string -> bool>, htmlPaths: seq<string>, r: Response, tree: Node)
    requires r.contentType.Some? && MediaType(r.contentType.value) == Some("text/css") && r.sheet == Some(tree)
    ensures var o := Callback(ops, base, sitemap, block, htmlPaths, r);
      o.htmlPaths == htmlPaths &&
      (o.pushed.Some? ==> o.pushed.value == SheetPaths(tree)) &&
      (o.stored.Some? ==> o.stored.value.1 == PutsContent(RewriteCss(r.body, SheetPaths(tree))))
  {
  }

  /** Everything a callback distributes is pushable from its response. */
  lemma CallbackPushesPushable(ops: UriOps, base: string, sitemap: set<string>, block: Option<string -> bool>, htmlPaths: seq<string>, r: Response)
    ensures var o := Callback(ops, base, sitemap, block, htmlPaths, r);
      o.pushed.Some? ==> forall s :: s in o.pushed.value ==> s in Pushable(ops, base, r)
  {
    var o := Callback(ops, base, sitemap, block, htmlPaths, r);
    if o.pushed.Some? && r.contentType.Some? && KindOf(MediaType(r.contentType.value)) == HtmlPage {
      var paths := PagePaths(ops, base, sitemap, block, r);
      var ajax := PageAjaxPaths(ops, base, sitemap, block, r);
      assert o.pushed.value == paths + ajax;
      var raw := (if r.links.None? then [] else Compact(Flatten(r.links.value))) + AjaxPaths(r.anchors);
      forall s | s in paths + ajax
        ensures s in Pushable(ops, base, r)
      {
        var u: string;
        if s in paths {
          assert r.links.Some?;
          DedupMembers(ops, base, sitemap, block, r.links.value, s);
          u :| Some(u) in Flatten(r.links.value) && ToAbsolute(ops, base, u) == Some(s);
          CompactMembers(Flatten(r.links.value));
        } else {
          DedupOfAjax(ops, base, sitemap, block, AjaxPaths(r.anchors), s);
          u :| u in AjaxPaths(r.anchors) && ToAbsolute(ops, base, u) == Some(s);
        }
        assert u in raw && ToAbsolute(ops, base, u).Some?;
      }
    }
  }

  lemma DedupOfAjax(ops: UriOps, base: string, sitemap: set<string>, block: Option<string -> bool>, ps: seq<string>, x: string)
    requires x in Dedup(ops, base, sitemap, block, Strs(ps))
    ensures exists u :: u in ps && ToAbsolute(ops, base, u) == Some(x)
  {
    DedupMembers(ops, base, sitemap, block, Strs(ps), x);
    FlattenStrs(ps);
  }

  /** Every URL the crawl can ever hold: the start URL and what each
      response of the site (and the fallback response) can make `push` add. */
  ghost function Universe(ops: UriOps, base: string, site: map<string, Response>, fallback: Response): set<string>
  {
    {base} + (set u, x | u in site && x in Discoverable(ops, base, site[u]) :: x) + Discoverable(ops, base, fallback)
  }

  /** The absolute forms of `ps`, where `to_absolute` succeeds. */
  ghost function AbsoluteForms(ops: UriOps, base: string, ps: seq<string>): set<string>
  {
    set s | s in ps && ToAbsolute(ops, base, s).Some? :: ToAbsolute(ops, base, s).value
  }

  /** What `push` queues for the paths an outcome distributes unless they
      are visited already: their absolute forms that are in the domain and
      not rejected. */
  ghost function Reaches(ops: UriOps, base: string, block: Option<string -> bool>, o: Outcome): set<string>
  {
    if o.pushed.None? then {}
    else set s | s in o.pushed.value && !Skip(ops, base, {}, block, ToAbsolute(ops, base, s)) :: ToAbsolute(ops, base, s).value
  }

  /** One fetch of the crawl: the URL, the sitemap and reject block the
      callback saw, `@html_paths` and the queue before it, what the callback
      did, and the queue after it. */
  datatype Entry = Entry(url: string, sitemap: set<string>, block: Option<string -> bool>, htmlPaths: seq<string>,
                         queued: seq<string>, outcome: Outcome, after: seq<string>)

  /** The stored files after outcome `o`. */
  function Store(m: map<LocalPath, string>, o: Outcome): map<LocalPath, string>
  {
    if o.stored.Some? then m[o.stored.value.0 := o.stored.value.1] else m
  }

  /** The stored files after the fetches `es[k..]`, in order, from `m`: a
      later write to the same place wins. */
  ghost function Stores(m: map<LocalPath, string>, es: seq<Entry>, k: nat): map<LocalPath, string>
    decreases |es|
  {
    if |es| <= k then m else Store(Stores(m, es[..|es| - 1], k), es[|es| - 1].outcome)
  }

  /** What the fetches `es[k..]` reach, together. */
  ghost function Reached(ops: UriOps, base: string, block: Option<string -> bool>, es: seq<Entry>, k: nat): set<string>
    decreases |es|
  {
    if |es| <= k then {} else Reached(ops, base, block, es[..|es| - 1], k) + Reaches(ops, base, block, es[|es| - 1].outcome)
  }

  /** A stored file was there before the fetches `es[k..]` and untouched
      by them, or the last of them to store at its place put it there. */
  lemma {:induction false} StoresHoldsStored(m: map<LocalPath, string>, es: seq<Entry>, k: nat, p: LocalPath)
    requires p in Stores(m, es, k)
    ensures (p in m && Stores(m, es, k)[p] == m[p]) ||
            exists i :: k <= i < |es| && es[i].outcome.stored == Some((p, Stores(m, es, k)[p]))
    decreases |es|
  {
    if |es| > k {
      var prev := es[..|es| - 1];
      var o := es[|es| - 1].outcome;
      if o.stored.Some? && o.stored.value.0 == p {
        assert es[|es| - 1].outcome.stored == Some((p, Stores(m, es, k)[p]));
      } else {
        StoresHoldsStored(m, prev, k, p);
        if !(p in m && Stores(m, prev, k)[p] == m[p]) {
          var i :| k <= i < |prev| && prev[i].outcome.stored == Some((p, Stores(m, prev, k)[p]));
          assert es[i] == prev[i];
        }
      }
    }
  }

  /** What each of the fetches `es[k..]` reaches is among what they reach
      together. */
  lemma {:induction false} ReachedCovers(ops: UriOps, base: string, block: Option<string -> bool>, es: seq<Entry>, k: nat, i: nat)
    requires k <= i < |es|
    ensures Reaches(ops, base, block, es[i].outcome) <= Reached(ops, base, block, es, k)
    decreases |es|
  {
    if i < |es| - 1 {
      ReachedCovers(ops, base, block, es[..|es| - 1], k, i);
      assert es[..|es| - 1][i] == es[i];
    }
  }

  /** The sitemap after the fetches `es[k..]`, from `s0`: each fetch's
      callback saw the sitemap with its own URL added. */
  ghost function SitemapAt(es: seq<Entry>, k: nat, s0: set<string>): set<string>
  {
    if |es| <= k then s0 else es[|es| - 1].sitemap
  }

  /** `@html_paths` after the fetches `es[k..]`, from `h0`. */
  ghost function HtmlAt(es: seq<Entry>, k: nat, h0: seq<string>): seq<string>
  {
    if |es| <= k then h0 else es[|es| - 1].outcome.htmlPaths
  }

  /** The fetches `es[k..]` follow one another: each saw the reject block
      `block`, the sitemap its predecessor left with its own URL added, and
      the `@html_paths` its predecessor left. */
  ghost predicate Chained(es: seq<Entry>, k: nat, block: Option<string -> bool>, s0: set<string>, h0: seq<string>)
    decreases |es|
  {
    |es| <= k ||
    (var prev := es[..|es| - 1];
     Chained(prev, k, block, s0, h0) && es[|es| - 1].block == block &&
     es[|es| - 1].sitemap == SitemapAt(prev, k, s0) + {es[|es| - 1].url} &&
     es[|es| - 1].htmlPaths == HtmlAt(prev, k, h0))
  }

  /** The last of the fetches `es[k..]` raised. */
  ghost predicate Raised(es: seq<Entry>, k: nat)
  {
    |es| > k && es[|es| - 1].outcome.pushed.None?
  }

  /** None of the fetches `es[k..]` but the last raised. */
  ghost predicate Continued(es: seq<Entry>, k: nat)
    decreases |es|
  {
    |es| <= k || (Continued(es[..|es| - 1], k) && !Raised(es[..|es| - 1], k))
  }

  /** Logging one more fetch `e`, made after the fetches `es[k..]` with
      what they left, extends the chain. */
  lemma LogStep(ops: UriOps, base: string, es: seq<Entry>, k: nat, block: Option<string -> bool>, s0: set<string>, h0: seq<string>,
                m0: map<LocalPath, string>, e: Entry)
    requires k <= |es| && Chained(es, k, block, s0, h0) && Continued(es, k) && !Raised(es, k)
    requires e.block == block && e.sitemap == SitemapAt(es, k, s0) + {e.url} && e.htmlPaths == HtmlAt(es, k, h0)
    ensures Chained(es + [e], k, block, s0, h0) && Continued(es + [e], k)
    ensures Raised(es + [e], k) == e.outcome.pushed.None?
    ensures SitemapAt(es + [e], k, s0) == e.sitemap && HtmlAt(es + [e], k, h0) == e.outcome.htmlPaths
    ensures Stores(m0, es + [e], k) == Store(Stores(m0, es, k), e.outcome)
    ensures Reached(ops, base, block, es + [e], k) == Reached(ops, base, block, es, k) + Reaches(ops, base, block, e.outcome)
  {
    assert (es + [e])[..|es|] == es;
  }

  /** The fetches `es` are of the URLs `us`, in order. */
  ghost predicate Matches(es: seq<Entry>, us: seq<string>)
    decreases |es|
  {
    |es| == |us| && (es == [] || (Matches(es[..|es| - 1], us[..|us| - 1]) && es[|es| - 1].url == us[|us| - 1]))
  }

  /** Logging the fetch of the URL just popped keeps the two in step. */
  lemma MatchesTurn(es: seq<Entry>, us: seq<string>, es2: seq<Entry>, us2: seq<string>)
    requires Matches(es, us) && |es2| == |es| + 1 && es2[..|es|] == es && us2 == us + [es2[|es|].url]
    ensures Matches(es2, us2)
  {
    assert us2[..|us|] == us;
  }

  /** What the loop of `run` looks at: the log, the visiting order, the
      queue, the sitemap, `@html_paths` and the stored files. */
  datatype Snapshot = Snapshot(log: seq<Entry>, popped: seq<string>, paths: seq<string>, sitemap: set<string>,
                               htmlPaths: seq<string>, mirror: map<LocalPath, string>)

  /** The callback for `url` takes `s1` to `s2`: the fetch is logged with
      what the callback saw, and the callback did what the logged outcome
      says (which `Crawler.Recorded` ties to `Callback`) to `@html_paths`,
      the stored files and the queue, with `distribute` a direct `push`;
      `raised` tells whether it raised. What was queued stays queued, and
      what the fetch reaches is visited or queued. */
  ghost predicate Fetched(ops: UriOps, base: string, block: Option<string -> bool>, s1: Snapshot, s2: Snapshot, url: string, raised: bool)
  {
    s2.sitemap == s1.sitemap && s2.popped == s1.popped &&
    |s2.log| == |s1.log| + 1 && s2.log[..|s1.log|] == s1.log &&
    var e := s2.log[|s1.log|];
    e.url == url && e.sitemap == s1.sitemap && e.block == block && e.htmlPaths == s1.htmlPaths &&
    e.queued == s1.paths && s2.paths == e.after && raised == e.outcome.pushed.None? &&
    s2.htmlPaths == e.outcome.htmlPaths && s2.mirror == Store(s1.mirror, e.outcome) &&
    (forall u :: u in s1.paths ==> u in s2.paths) &&
    (forall a :: a in Reaches(ops, base, block, e.outcome) ==> a in s2.sitemap || a in s2.paths)
  }

  /** A turn of the loop of `run` takes `s1` to `s2`: it pops `url`, the
      last URL queued, visits it, and the callback for it does the rest. */
  ghost predicate Turned(ops: UriOps, base: string, block: Option<string -> bool>, s1: Snapshot, s2: Snapshot, url: string, raised: bool)
  {
    s1.paths != [] && url == s1.paths[|s1.paths| - 1] &&
    Fetched(ops, base, block, s1.(paths := s1.paths[..|s1.paths| - 1], sitemap := s1.sitemap + {url}, popped := s1.popped + [url]),
            s2, url, raised)
  }

  /** What the loop of `run` keeps, from the state `s0` where it started to
      the state `s`: the log and the visiting order extend those of `s0`,
      every URL queued in `s0` is visited or still queued, the fetches since
      follow one another, the files stored since are theirs, none of them but
      the last raised, and what they reach is visited or queued. */
  ghost predicate Progress(ops: UriOps, base: string, block: Option<string -> bool>, s0: Snapshot, s: Snapshot)
  {
    var k := |s0.log|;
    k <= |s.log| && s.log[..k] == s0.log &&
    |s0.popped| <= |s.popped| && s.popped[..|s0.popped|] == s0.popped &&
    s0.sitemap <= s.sitemap && (forall u :: u in s0.paths ==> u in s.sitemap || u in s.paths) &&
    Chained(s.log, k, block, s0.sitemap, s0.htmlPaths) &&
    s.sitemap == SitemapAt(s.log, k, s0.sitemap) && s.htmlPaths == HtmlAt(s.log, k, s0.htmlPaths) &&
    s.mirror == Stores(s0.mirror, s.log, k) &&
    Continued(s.log, k) &&
    (forall a :: a in Reached(ops, base, block, s.log, k) ==> a in s.sitemap || a in s.paths)
  }

  /** A turn keeps `Progress` from `s0` unless the fetches before it
      raised. */
  lemma ProgressTurn(ops: UriOps, base: string, block: Option<string -> bool>, s0: Snapshot, s1: Snapshot, s2: Snapshot,
                      url: string, raised: bool)
    requires Progress(ops, base, block, s0, s1) && !Raised(s1.log, |s0.log|)
    requires Turned(ops, base, block, s1, s2, url, raised)
    ensures Progress(ops, base, block, s0, s2) && Raised(s2.log, |s0.log|) == raised
  {
    var k := |s0.log|;
    assert s2.log == s1.log + [s2.log[|s1.log|]];
    LogStep(ops, base, s1.log, k, block, s0.sitemap, s0.htmlPaths, s0.mirror, s2.log[|s1.log|]);
    assert s2.log[..k] == s1.log[..k];
    assert s2.popped[..|s0.popped|] == s1.popped[..|s0.popped|];
    forall u | u in s1.paths
      ensures u == url || u in s2.paths
    {
      var i :| 0 <= i < |s1.paths| && s1.paths[i] == u;
      if i < |s1.paths| - 1 {
        assert u in s1.paths[..|s1.paths| - 1];
      }
    }
  }

  /** A block given to `on_complete` or `after_run`, by identity: what it
      does happens outside the crawler. */
  datatype Block = Block(id: nat)

  /** A call the crawler makes to a registered block. */
  datatype Call = OnCompleteCall(block: Block) | AfterRunCall(block: Block)

  /** `Roundabout::Crawler`. The web is fixed when the crawler is made:
      `site` gives the response for the URLs it knows and `fallback`, with
      the URL put in, answers every other one. */
  class Crawler {
    /** `@url`, the start URL. */
    const base: string
    /** The URI library. */
    const ops: UriOps
    const site: map<string, Response>
    const fallback: Response
    /** Every URL the crawler can queue: `Universe` of the above, and the
        absolute forms of every path pushed from outside since. */
    ghost var universe: set<string>

    /** `@paths`: the URLs still to fetch; `run` pops from the end. */
    var paths: seq<string>
    /** `@sitemap`: every URL fetched so far. */
    var sitemap: set<string>
    /** `@html_paths`: every page link collected so far. */
    var htmlPaths: seq<string>
    /** `@done`. */
    var done: bool
    /** The files written below the store directory. */
    var mirror: map<LocalPath, string>
    /** `@reject_block`, `@on_complete_block` and `@after_run_block`. */
    var rejectBlock: Option<string -> bool>
    var onCompleteBlock: Option<Block>
    var afterRunBlock: Option<Block>
    /** The calls made to the registered blocks, in order. */
    var calls: seq<Call>
    /** The URLs popped so far, in order. */
    ghost var popped: seq<string>
    /** The fetches so far, in order. */
    ghost var log: seq<Entry>

    /** The response `http.get(u)` delivers. */
    function Fetch(u: string): Response
    {
      if u in site then site[u] else fallback.(url := u)
    }

    /** `universe` holds the start URL and everything a response can queue. */
    ghost predicate Bounded()
      reads this`universe
    {
      base in universe &&
      (forall u :: u in site ==> Discoverable(ops, base, site[u]) <= universe) &&
      Discoverable(ops, base, fallback) <= universe
    }

    /** No URL is queued twice, none is queued once visited, none is visited
        twice, and every queued URL but the start URL is in the domain. */
    ghost predicate Valid()
      reads this`paths, this`popped, this`sitemap, this`universe
    {
      NoDup(paths) && NoDup(popped) &&
      (forall u :: u in popped <==> u in sitemap) &&
      sitemap <= universe &&
      (forall i :: 0 <= i < |paths| ==>
        paths[i] !in sitemap && paths[i] in universe &&
        (paths[i] == base || InDomain(ops, base, Some(paths[i]))))
    }

    /** The outcome of entry `e` is what the callback does for the response
        to its URL, given what it saw, and the queue after it is the queue
        before it with the distributed paths `push`ed (unchanged when the
        callback raised). */
    ghost predicate Faithful(e: Entry)
    {
      e.outcome == Callback(ops, base, e.sitemap, e.block, e.htmlPaths, Fetch(e.url)) &&
      e.after == if e.outcome.pushed.Some? then Union(e.queued, Dedup(ops, base, e.sitemap, e.block, [Arr(Strs(e.outcome.pushed.value))])) else e.queued
    }

    /** Every log entry is a faithful record of its callback. */
    ghost predicate Recorded()
      reads this`log
    {
      forall i {:trigger Faithful(log[i])} :: 0 <= i < |log| ==> Faithful(log[i])
    }

    /** One log entry per visited URL, in the order of visiting, each a
        faithful record of its callback. */
    ghost predicate Logged()
      reads this`log, this`popped
    {
      Matches(log, popped) && Recorded()
    }

    /** `initialize`: only the start URL is queued, nothing is visited. */
    constructor (base: string, ops: UriOps, site: map<string, Response>, fallback: Response)
      ensures Valid() && Bounded() && Logged()
      ensures this.base == base && this.ops == ops && this.site == site && this.fallback == fallback
      ensures paths == [base] && sitemap == {} && htmlPaths == [] && !done && mirror == map[]
      ensures rejectBlock.None? && onCompleteBlock.None? && afterRunBlock.None?
      ensures calls == [] && popped == [] && log == []
    {
      this.base := base;
      this.ops := ops;
      this.site := site;
      this.fallback := fallback;
      universe := Universe(ops, base, site, fallback);
      paths := [base];
      sitemap := {};
      htmlPaths := [];
      done := false;
      mirror := map[];
      rejectBlock := None;
      onCompleteBlock := None;
      afterRunBlock := None;
      calls := [];
      popped := [];
      log := [];
    }

    /** `on_complete(&block)`: raises (false) without a block. */
    method OnComplete(block: Option<Block>) returns (ok: bool)
      modifies this`onCompleteBlock
      ensures ok == block.Some?
      ensures onCompleteBlock == if ok then block else old(onCompleteBlock)
    {
      ok := block.Some?;
      if ok {
        onCompleteBlock := block;
      }
    }

    /** `after_run(&block)`: raises (false) without a block. */
    method AfterRun(block: Option<Block>) returns (ok: bool)
      modifies this`afterRunBlock
      ensures ok == block.Some?
      ensures afterRunBlock == if ok then block else old(afterRunBlock)
    {
      ok := block.Some?;
      if ok {
        afterRunBlock := block;
      }
    }

    /** `reject(&block)`: raises (false) without a block. */
    method Reject(block: Option<string -> bool>) returns (ok: bool)
      modifies this`rejectBlock
      ensures ok == block.Some?
      ensures rejectBlock == if ok then block else old(rejectBlock)
    {
      ok := block.Some?;
      if ok {
        rejectBlock := block;
      }
    }

    /** `@paths.pop`: the last queued URL, which is not yet visited, lies
        in the universe, and leaves the crawler valid once visited. */
    method Pop() returns (url: string)
      requires Valid() && paths != []
      modifies this`paths
      ensures old(paths) == paths + [url]
      ensures url !in sitemap && url in universe
      ensures forall i :: 0 <= i < |paths| ==> paths[i] != url
      ensures ValidAfterVisit(url)
    {
      url := paths[|paths| - 1];
      paths := paths[..|paths| - 1];
    }

    /** Adding `url` to the sitemap keeps the crawler valid. */
    ghost predicate ValidAfterVisit(url: string)
      reads this`paths, this`popped, this`sitemap, this`universe
    {
      url !in sitemap && url !in popped && NoDup(paths) && NoDup(popped) &&
      (forall u :: u in popped <==> u in sitemap) &&
      sitemap + {url} <= universe &&
      (forall i :: 0 <= i < |paths| ==>
        paths[i] !in sitemap + {url} && paths[i] in universe &&
        (paths[i] == base || InDomain(ops, base, Some(paths[i]))))
    }

    lemma MeasureDecreases(sitemap0: set<string>, url: string)
      requires url in universe && url !in sitemap0
      ensures |universe - (sitemap0 + {url})| < |universe - sitemap0|
    {
      assert universe - (sitemap0 + {url}) == (universe - sitemap0) - {url};
    }

    /** `visited(url)`. */
    method Visit(url: string)
      requires ValidAfterVisit(url)
      modifies this`sitemap, this`popped
      ensures sitemap == old(sitemap) + {url} && popped == old(popped) + [url]
      ensures Valid()
    {
      sitemap := sitemap + {url};
      popped := popped + [url];
    }

    /** `push(paths)`: `@paths |= dedup([paths])`. What is added is in the
        domain, not visited and not yet queued, and goes to the end. Any
        paths are accepted: the universe grows by their absolute forms. */
    method Push(newPaths: seq<string>)
      requires Valid()
      modifies this`paths, this`universe
      ensures universe == old(universe) + AbsoluteForms(ops, base, newPaths)
      ensures paths == Union(old(paths), Dedup(ops, base, sitemap, rejectBlock, [Arr(Strs(newPaths))]))
      ensures |old(paths)| <= |paths| && paths[..|old(paths)|] == old(paths)
      ensures Valid()
    {
      var added := Dedup(ops, base, sitemap, rejectBlock, [Arr(Strs(newPaths))]);
      universe := universe + AbsoluteForms(ops, base, newPaths);
      paths := Union(paths, added);
      UnionKeepsPrefix(old(paths), added);
      forall i | 0 <= i < |paths|
        ensures paths[i] !in sitemap && paths[i] in universe &&
          (paths[i] == base || InDomain(ops, base, Some(paths[i])))
      {
        var x := paths[i];
        assert x in old(paths) + added;
        if x !in old(paths) {
          DedupOfStrings(ops, base, sitemap, rejectBlock, newPaths, x);
        }
      }
    }

    /** `store_file(response, type)`: writes only for status 200; false
        where `File.join` raises on a missing file name. */
    method StoreFile(r: Response, t: Option<string>, body: string) returns (ok: bool)
      modifies this`mirror
      ensures var lp := FilePath(base, r.url, t);
        ok == (r.code != 200 || lp.file.Some?) &&
        mirror == if r.code == 200 && lp.file.Some? then old(mirror)[lp := PutsContent(body)] else old(mirror)
    {
      ok := true;
      if r.code == 200 {
        var lp := FilePath(base, r.url, t);
        if lp.file.None? {
          ok := false;
          return;
        }
        mirror := mirror[lp := PutsContent(body)];
      }
    }

    /** `http.get(url)` with the block `run` passes to it, and `distribute`
        a direct `push`. The fetch is logged with what the callback saw and
        did; a step that raises ends the block, keeping what was done
        before, and `raised` reports it. Whatever the distributed paths
        reach is then visited or queued. */
    method Get(url: string) returns (raised: bool)
      requires Valid() && Bounded() && Recorded() && url in sitemap
      modifies this`paths, this`htmlPaths, this`mirror, this`universe, this`log
      ensures Valid() && Bounded() && Recorded() && universe == old(universe)
      ensures Fetched(ops, base, rejectBlock, old(Now()), Now(), url, raised)
    {
      var r := Fetch(url);
      FetchDiscoverable(url);
      ghost var e := Entry(url, sitemap, rejectBlock, htmlPaths, paths, Callback(ops, base, sitemap, rejectBlock, htmlPaths, r), paths);
      raised := Respond(r);
      log := log + [e.(after := paths)];
      assert Faithful(log[|log| - 1]);
    }

    /** The block given to `http.get`, run on the response `r`: its outcome
        is `Callback`'s, `raised` tells whether it raised, and the paths it
        distributes are `push`ed. */
    method Respond(r: Response) returns (raised: bool)
      requires Valid() && Bounded() && Discoverable(ops, base, r) <= universe
      modifies this`paths, this`htmlPaths, this`mirror, this`universe
      ensures Valid() && Bounded() && universe == old(universe)
      ensures var o := Callback(ops, base, sitemap, rejectBlock, old(htmlPaths), r);
        raised == o.pushed.None? && htmlPaths == o.htmlPaths && mirror == Store(old(mirror), o) &&
        paths == (if o.pushed.Some? then Union(old(paths), Dedup(ops, base, sitemap, rejectBlock, [Arr(Strs(o.pushed.value))])) else old(paths)) &&
        (forall u :: u in old(paths) ==> u in paths) &&
        forall a :: a in Reaches(ops, base, rejectBlock, o) ==> a in sitemap || a in paths
    {
      ghost var o := Callback(ops, base, sitemap, rejectBlock, htmlPaths, r);
      raised := true;
      if r.contentType.None? {
        return;
      }
      var t := MediaType(r.contentType.value);
      var newPaths, body, store, ok := Dispatch(r, t);
      if !ok {
        return;
      }
      if store {
        var stored := StoreFile(r, t, body);
        if !stored {
          return;
        }
      }
      raised := false;
      CallbackPushesPushable(ops, base, sitemap, rejectBlock, old(htmlPaths), r);
      assert o.pushed == Some(newPaths);
      assert AbsoluteForms(ops, base, newPaths) <= universe;
      ghost var paths0 := paths;
      Push(newPaths);
      forall a | a in Reaches(ops, base, rejectBlock, o)
        ensures a in sitemap || a in paths
      {
        var s :| s in newPaths && !Skip(ops, base, {}, rejectBlock, ToAbsolute(ops, base, s)) && ToAbsolute(ops, base, s).value == a;
        if a !in sitemap {
          DedupOfStrings(ops, base, sitemap, rejectBlock, newPaths, a);
          assert a in paths0 + Dedup(ops, base, sitemap, rejectBlock, [Arr(Strs(newPaths))]);
        }
      }
    }

    /** The `case type` of the callback: the paths to distribute, the body to
        store and whether to store it; `ok` is false where a step raises.
        Together with storing and pushing it is `Callback`. */
    method Dispatch(r: Response, t: Option<string>) returns (newPaths: seq<string>, body: string, store: bool, ok: bool)
      requires r.contentType.Some? && t == MediaType(r.contentType.value)
      modifies this`htmlPaths
      ensures var o := Callback(ops, base, sitemap, rejectBlock, old(htmlPaths), r);
        htmlPaths == o.htmlPaths &&
        if !ok then o == Outcome(htmlPaths, None, None)
        else if store then o == StoreThen(base, r, t, body, htmlPaths, newPaths)
        else o == Outcome(htmlPaths, None, Some(newPaths))
    {
      newPaths, body, store, ok := [], r.body, false, true;
      match KindOf(t) {
        case HtmlPage =>
          var ps := PagePaths(ops, base, sitemap, rejectBlock, r);
          var ajax := PageAjaxPaths(ops, base, sitemap, rejectBlock, r);
          newPaths := ps + ajax;
          htmlPaths := htmlPaths + ps;
          var rewritten := RewriteHtmlUrls(r.body, base, htmlPaths);
          if rewritten.None? {
            ok := false;
            return;
          }
          body := rewritten.value;
          store := true;
        case StyleSheet =>
          if r.sheet.None? {
            ok := false;
            return;
          }
          var css := SheetPaths(r.sheet.value);
          newPaths := css;
          body := RewriteCssUrls(r.body, css);
          store := true;
        case Asset =>
          store := true;
        case Ignored =>
      }
    }

    /** The `on_complete` handler registered in `initialize`, which the
        HTTP layer runs once a callback has returned (`raised` is false):
        once no path is left, the crawl is done and the user's block is
        called. */
    method HandleComplete(raised: bool)
      modifies this`done, this`calls
      ensures done == ((!raised && paths == []) || old(done))
      ensures calls == old(calls) + if !raised && paths == [] && onCompleteBlock.Some? then [OnCompleteCall(onCompleteBlock.value)] else []
    {
      if raised || paths != [] {
        return;
      }
      done := true;
      if onCompleteBlock.Some? {
        calls := calls + [OnCompleteCall(onCompleteBlock.value)];
      }
    }

    /** `run`: pops and fetches until no path is left, then calls the
        `after_run` block. Each fetch is logged as its callback did it.
        Unless a callback raises, every URL queued at the start and every
        URL a callback makes `push` queue is visited, each once; the crawl
        ends done, and the `on_complete` block is called exactly once then.
        A callback that raises ends `run` there, before `after_run`. */
    method Run() returns (raised: bool)
      requires Valid() && Bounded() && Logged()
      modifies this`paths, this`sitemap, this`popped, this`done, this`htmlPaths, this`mirror, this`calls, this`universe, this`log
      ensures Valid() && Bounded() && Logged() && universe == old(universe)
      ensures !raised ==> paths == [] && forall u :: u in old(paths) ==> u in sitemap
      ensures forall u :: u in old(paths) ==> u in sitemap || u in paths
      ensures forall a :: a in Reached(ops, base, rejectBlock, log, |old(log)|) ==> a in sitemap || a in paths
      ensures old(sitemap) <= sitemap && |old(popped)| <= |popped| && popped[..|old(popped)|] == old(popped)
      ensures |old(log)| <= |log| && log[..|old(log)|] == old(log)
      ensures Chained(log, |old(log)|, rejectBlock, old(sitemap), old(htmlPaths))
      ensures sitemap == SitemapAt(log, |old(log)|, old(sitemap)) && htmlPaths == HtmlAt(log, |old(log)|, old(htmlPaths))
      ensures mirror == Stores(old(mirror), log, |old(log)|)
      ensures raised == Raised(log, |old(log)|) && Continued(log, |old(log)|)
      ensures !raised ==> forall i :: |old(log)| <= i < |log| ==> Reaches(ops, base, rejectBlock, log[i].outcome) <= sitemap
      ensures done == (!raised && (old(paths) != [] || old(done)))
      ensures calls == old(calls) +
        (if !raised && old(paths) != [] && onCompleteBlock.Some? then [OnCompleteCall(onCompleteBlock.value)] else []) +
        (if !raised && afterRunBlock.Some? then [AfterRunCall(afterRunBlock.value)] else [])
    {
      raised := Crawl();
      forall i | |old(log)| <= i < |log|
        ensures !raised ==> Reaches(ops, base, rejectBlock, log[i].outcome) <= sitemap
      {
        ReachedCovers(ops, base, rejectBlock, log, |old(log)|, i);
      }
      if !raised && afterRunBlock.Some? {
        calls := calls + [AfterRunCall(afterRunBlock.value)];
      }
    }

    /** The `while` loop of `run`. */
    method Crawl() returns (raised: bool)
      requires Valid() && Bounded() && Logged()
      modifies this`paths, this`sitemap, this`popped, this`done, this`htmlPaths, this`mirror, this`calls, this`universe, this`log
      ensures Valid() && Bounded() && Logged() && universe == old(universe)
      ensures !raised ==> paths == [] && forall u :: u in old(paths) ==> u in sitemap
      ensures forall u :: u in old(paths) ==> u in sitemap || u in paths
      ensures forall a :: a in Reached(ops, base, rejectBlock, log, |old(log)|) ==> a in sitemap || a in paths
      ensures old(sitemap) <= sitemap && |old(popped)| <= |popped| && popped[..|old(popped)|] == old(popped)
      ensures |old(log)| <= |log| && log[..|old(log)|] == old(log)
      ensures Chained(log, |old(log)|, rejectBlock, old(sitemap), old(htmlPaths))
      ensures sitemap == SitemapAt(log, |old(log)|, old(sitemap)) && htmlPaths == HtmlAt(log, |old(log)|, old(htmlPaths))
      ensures mirror == Stores(old(mirror), log, |old(log)|)
      ensures raised == Raised(log, |old(log)|) && Continued(log, |old(log)|)
      ensures !raised ==> forall a :: a in Reached(ops, base, rejectBlock, log, |old(log)|) ==> a in sitemap
      ensures done == (!raised && (old(paths) != [] || old(done)))
      ensures calls == old(calls) + if !raised && old(paths) != [] && onCompleteBlock.Some? then [OnCompleteCall(onCompleteBlock.value)] else []
    {
      raised := false;
      if paths == [] {
        return;
      }
      ghost var start := Now();
      while paths != [] && !raised
        invariant Valid() && Bounded() && Logged() && universe == old(universe)
        invariant Progress(ops, base, rejectBlock, start, Now())
        invariant raised == Raised(log, |old(log)|)
        invariant !raised && paths == [] ==> done
        invariant raised ==> !done
        invariant calls == old(calls) + if !raised && paths == [] && onCompleteBlock.Some? then [OnCompleteCall(onCompleteBlock.value)] else []
        decreases |universe - sitemap|
      {
        raised := Turn(start);
      }
    }

    /** The crawler's state as the loop of `run` sees it. */
    ghost function Now(): Snapshot
      reads this`log, this`popped, this`paths, this`sitemap, this`htmlPaths, this`mirror
    {
      Snapshot(log, popped, paths, sitemap, htmlPaths, mirror)
    }

    /** One turn of the loop of `run` keeps its `Progress` from `start`,
        and visits one more URL of the universe. */
    method Turn(ghost start: Snapshot) returns (raised: bool)
      requires Valid() && Bounded() && Logged() && paths != []
      requires Progress(ops, base, rejectBlock, start, Now()) && !Raised(log, |start.log|)
      modifies this`paths, this`sitemap, this`popped, this`done, this`htmlPaths, this`mirror, this`calls, this`universe, this`log
      ensures Valid() && Bounded() && Logged() && universe == old(universe)
      ensures Progress(ops, base, rejectBlock, start, Now()) && raised == Raised(log, |start.log|)
      ensures |universe - sitemap| < old(|universe - sitemap|)
      ensures done == (!raised && paths == [])
      ensures calls == old(calls) + if !raised && paths == [] && onCompleteBlock.Some? then [OnCompleteCall(onCompleteBlock.value)] else []
    {
      ghost var before := Now();
      var url;
      url, raised := Step();
      MeasureDecreases(before.sitemap, url);
      ProgressTurn(ops, base, rejectBlock, start, before, Now(), url, raised);
    }

    /** One turn of the loop of `run`: pop a URL, clear the done flag, mark
        the URL visited, fetch it and run the callback; unless that raised,
        let the `on_complete` handler look at what is left. */
    method Step() returns (url: string, raised: bool)
      requires Valid() && Bounded() && Logged() && paths != []
      modifies this`paths, this`sitemap, this`popped, this`done, this`htmlPaths, this`mirror, this`calls, this`universe, this`log
      ensures Valid() && Bounded() && Logged() && universe == old(universe)
      ensures Turned(ops, base, rejectBlock, old(Now()), Now(), url, raised) && url !in old(sitemap) && url in universe
      ensures done == (!raised && paths == [])
      ensures calls == old(calls) + if !raised && paths == [] && onCompleteBlock.Some? then [OnCompleteCall(onCompleteBlock.value)] else []
    {
      url := Next();
      raised := Get(url);
      MatchesTurn(old(log), old(popped), log, popped);
      HandleComplete(raised);
    }

    /** The head of the loop body of `run`: `@paths.pop`, `@done = false`
        and `visited(url)`. */
    method Next() returns (url: string)
      requires Valid() && paths != []
      modifies this`paths, this`sitemap, this`popped, this`done
      ensures Valid() && !done && url in sitemap && url !in old(sitemap) && url in universe
      ensures url == old(paths)[|old(paths)| - 1] &&
        Now() == old(Now()).(paths := old(paths)[..|old(paths)| - 1], sitemap := old(sitemap) + {url}, popped := old(popped) + [url])
    {
      url := Pop();
      done := false;
      Visit(url);
    }

    /** What a fetched response can queue lies in the universe. */
    lemma FetchDiscoverable(u: string)
      requires Bounded()
      ensures Discoverable(ops, base, Fetch(u)) <= universe
    {
      if u !in site {
        assert Discoverable(ops, base, fallback.(url := u)) == Discoverable(ops, base, fallback);
      }
    }
  }
}
