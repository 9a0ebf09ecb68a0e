/** Which URLs the crawler follows: `to_absolute`, `in_domain?`, `reject?`,
    `visited?`, `skip?` and the `dedup` pipeline. Parsing, encoding and
    resolving URIs belong to the URI library; they are parameters here, and
    each may fail (`None`), as the library may raise. */
module Scope {
  import opened Util
  import opened Strings

  /** A resolved URI, split around its path. */
  datatype Uri = Uri(prefix: string, path: Option<string>, suffix: string)

  /** `uri.to_s`. */
  function UriString(u: Uri): string
  {
    u.prefix + (if u.path.Some? then u.path.value else "") + u.suffix
  }

  /** The URI library as the crawler calls it; `None` where it raises.
      `encode` is `uri_encode`, `parseHost` the host of `uri_parser.parse`,
      `host` the host of `uri_parse`, and `merge` resolves a reference
      against the start URL (section 5.2 of RFC 3986). */
  datatype UriOps = UriOps(
    encode: string -> Option<string>,
    parseHost: string -> Option<Option<string>>,
    host: string -> Option<Option<string>>,
    merge: (string, string) -> Option<Uri>)

  // ---------------------------------------------------------------- to_absolute

  /** A character of `[a-zA-Z0-9_-]`. */
  predicate AnchorChar(c: char)
  {
    'a' <= c <= 'z' || 'A' <= c <= 'Z' || '0' <= c <= '9' || c == '_' || c == '-'
  }

  /** The start of the run of anchor characters that ends at `e`. */
  function AnchorRunStart(l: string, e: nat): (k: nat)
    requires e <= |l|
    ensures k <= e && forall j :: k <= j < e ==> AnchorChar(l[j])
    ensures k > 0 ==> !AnchorChar(l[k - 1])
  {
    if e == 0 || !AnchorChar(l[e - 1]) then e else AnchorRunStart(l, e - 1)
  }

  /** A `#` at `k` followed only by anchor characters up to the end of the line. */
  predicate AnchorAt(l: string, k: nat)
  {
    k < |l| && l[k] == '#' && forall j :: k < j < |l| ==> AnchorChar(l[j])
  }

  /** `gsub(/#[a-zA-Z0-9_-]*$/, '')` on one line: the match can only start at
      the last '#', and only when anchor characters alone follow it. */
  function StripLine(l: string): string
  {
    var k := AnchorRunStart(l, |l|);
    if k > 0 && l[k - 1] == '#' then l[..k - 1] else l
  }

  /** The same substitution on a whole string: `$` matches at the end of
      every line, so each line loses its own anchor. */
  function StripAnchor(s: string): string
  {
    JoinWith(StripLines(SplitOn(s, "\n")), "\n")
  }

  function StripLines(ls: seq<string>): (r: seq<string>)
    ensures |r| == |ls|
  {
    seq(|ls|, i requires 0 <= i < |ls| => StripLine(ls[i]))
  }

  /** `to_absolute(relative_url)`: drop the anchor, encode, keep a URL that
      already has a host, otherwise resolve it against the start URL and
      make an empty path `/`; `None` for the `nil` of every rescued error. */
  function ToAbsolute(ops: UriOps, base: string, relative: string): Option<string>
  {
    match ops.encode(StripAnchor(relative))
    case None => None
    case Some(e) =>
      match ops.parseHost(e)
      case None => None
      case Some(Some(_)) => Some(e)
      case Some(None) =>
        match ops.merge(base, e)
        case None => None
        case Some(u) => Some(UriString(if u.path == Some("") then u.(path := Some("/")) else u))
  }

  // ---------------------------------------------------------------- skip?

  /** `in_domain?(url)`: the URL's host equals the start URL's host. Any
      error, `nil` included, gives false. The source caches the start URL's
      host; it is the same value every time, so it is recomputed here. */
  function InDomain(ops: UriOps, base: string, url: Option<string>): (r: bool)
    ensures r ==> url.Some?
  {
    match url
    case None => false
    case Some(u) =>
      match (ops.host(base), ops.host(u))
      case (Some(h0), Some(h1)) => h0 == h1
      case _ => false
  }

  /** `reject?(url)`: false without a reject block, else the block's answer. */
  function Reject(block: Option<string -> bool>, url: string): bool
  {
    match block
    case None => false
    case Some(f) => f(url)
  }

  /** `skip?(url)`: out of the domain, or visited, or rejected. */
  function Skip(ops: UriOps, base: string, sitemap: set<string>, block: Option<string -> bool>, url: Option<string>): bool
  {
    !InDomain(ops, base, url) || url.value in sitemap || Reject(block, url.value)
  }

  // ---------------------------------------------------------------- dedup

  /** What `dedup` receives: strings, `nil`s and nested arrays of them. */
  datatype Item = Nil | Str(s: string) | Arr(items: seq<Item>)

  /** `Array#flatten`. */
  function Flatten(xs: seq<Item>): seq<Option<string>>
    decreases xs
  {
    if xs == [] then []
    else
      var head := match xs[0]
        case Nil => [None]
        case Str(s) => [Some(s)]
        case Arr(ys) => Flatten(ys);
      head + Flatten(xs[1..])
  }

  /** `map { |path| to_absolute(path) }`. */
  function Absolutes(ops: UriOps, base: string, us: seq<string>): (r: seq<Option<string>>)
    ensures |r| == |us|
  {
    seq(|us|, i requires 0 <= i < |us| => ToAbsolute(ops, base, us[i]))
  }

  /** `reject { |p| skip?(p) }`; what remains is never `nil`. */
  function Keep(ops: UriOps, base: string, sitemap: set<string>, block: Option<string -> bool>, xs: seq<Option<string>>): seq<string>
  {
    if xs == [] then []
    else
      var rest := Keep(ops, base, sitemap, block, xs[1..]);
      if Skip(ops, base, sitemap, block, xs[0]) then rest else [xs[0].value] + rest
  }

  /** `dedup(urls)`: `urls.flatten.compact.uniq.map { to_absolute }.reject { skip? }`. */
  function Dedup(ops: UriOps, base: string, sitemap: set<string>, block: Option<string -> bool>, urls: seq<Item>): seq<string>
  {
    Keep(ops, base, sitemap, block, Absolutes(ops, base, Uniq(Compact(Flatten(urls)))))
  }

  /** `[paths]` for an array of strings. */
  function Strs(ps: seq<string>): (r: seq<Item>)
    ensures |r| == |ps|
  {
    seq(|ps|, i requires 0 <= i < |ps| => Str(ps[i]))
  }

  // ---------------------------------------------------------------- lemmas: anchors

  /** `StripLine` removes exactly the `#anchor` at the end of the line, if there is one. */
  lemma StripLineRemovesAnchor(l: string, k: nat)
    requires AnchorAt(l, k)
    ensures StripLine(l) == l[..k]
  {
  }

  /** A line without a trailing `#anchor` is left as it is; in particular a
      line without '#'. */
  lemma StripLineKeeps(l: string)
    requires forall k :: 0 <= k < |l| ==> !AnchorAt(l, k)
    ensures StripLine(l) == l
  {
    var s := AnchorRunStart(l, |l|);
    if s > 0 && l[s - 1] == '#' {
      assert AnchorAt(l, s - 1);
    }
  }

  /** On a string without newline, the substitution acts on the one line. */
  lemma StripAnchorOneLine(s: string)
    requires '\n' !in s
    ensures StripAnchor(s) == StripLine(s)
  {
    SplitOnWithout(s, '\n');
  }

  /** `/page#top` loses its anchor. */
  lemma StripAnchorOfPage(p: string)
    requires p == "/page#top"
    ensures StripAnchor(p) == "/page"
  {
    StripAnchorOneLine(p);
    StripLineRemovesAnchor(p, 5);
  }

  /** `/a#b#c` loses only `#c`, so stripping is not idempotent. */
  lemma StripAnchorTwice(p: string)
    requires p == "/a#b#c"
    ensures StripAnchor(p) == "/a#b" && StripAnchor(StripAnchor(p)) == "/a"
  {
    StripAnchorOneLine(p);
    StripLineRemovesAnchor(p, 4);
    var q := p[..4];
    assert q == "/a#b";
    StripAnchorOneLine(q);
    StripLineRemovesAnchor(q, 2);
  }

  /** `#a.b` is not an anchor because of the '.'. */
  lemma StripAnchorNeedsAnchorChars(p: string)
    requires p == "/q#a.b"
    ensures StripAnchor(p) == p
  {
    StripAnchorOneLine(p);
    forall k | 0 <= k < |p|
      ensures !AnchorAt(p, k)
    {
      if k != 2 {
        assert p[k] != '#';
      } else {
        assert !AnchorChar(p[4]);
      }
    }
    StripLineKeeps(p);
  }

  // ---------------------------------------------------------------- lemmas: to_absolute

  /** A URL that has a host after encoding is returned as it is (encoded). */
  lemma ToAbsoluteKeepsHosted(ops: UriOps, base: string, relative: string, e: string, h: string)
    requires ops.encode(StripAnchor(relative)) == Some(e) && ops.parseHost(e) == Some(Some(h))
    ensures ToAbsolute(ops, base, relative) == Some(e)
  {
  }

  /** A resolved URL with an empty path gets the path `/`. */
  lemma ToAbsoluteEmptyPath(ops: UriOps, base: string, relative: string, e: string, u: Uri)
    requires ops.encode(StripAnchor(relative)) == Some(e) && ops.parseHost(e) == Some(None)
    requires ops.merge(base, e) == Some(u) && u.path == Some("")
    ensures ToAbsolute(ops, base, relative) == Some(u.prefix + "/" + u.suffix)
  {
  }

  /** `to_absolute` gives `nil` exactly when one of the library calls raises. */
  lemma ToAbsoluteFails(ops: UriOps, base: string, relative: string)
    ensures ToAbsolute(ops, base, relative).None? <==>
      ops.encode(StripAnchor(relative)).None? ||
      ops.parseHost(ops.encode(StripAnchor(relative)).value).None? ||
      (ops.parseHost(ops.encode(StripAnchor(relative)).value) == Some(None) &&
       ops.merge(base, ops.encode(StripAnchor(relative)).value).None?)
  {
  }

  // ---------------------------------------------------------------- lemmas: skip?

  /** `in_domain?` fails closed: `nil`, an unparsable URL or an unparsable
      start URL is out of the domain, and a URL in the domain has the start
      URL's host. */
  lemma InDomainFailsClosed(ops: UriOps, base: string, url: Option<string>)
    ensures url.None? ==> !InDomain(ops, base, url)
    ensures url.Some? && (ops.host(url.value).None? || ops.host(base).None?) ==> !InDomain(ops, base, url)
    ensures InDomain(ops, base, url) <==> url.Some? && ops.host(base).Some? && ops.host(base) == ops.host(url.value)
  {
  }

  /** `skip?` holds exactly when the URL is out of the domain, visited, or
      rejected; `nil` is always skipped. */
  lemma SkipIff(ops: UriOps, base: string, sitemap: set<string>, block: Option<string -> bool>, u: string)
    ensures Skip(ops, base, sitemap, block, None)
    ensures Skip(ops, base, sitemap, block, Some(u)) <==>
      !InDomain(ops, base, Some(u)) || u in sitemap || (block.Some? && block.value(u))
  {
  }

  /** Without a reject block, skipping depends on the domain and the
      sitemap alone. */
  lemma SkipWithoutRejectBlock(ops: UriOps, base: string, sitemap: set<string>, url: Option<string>)
    ensures Skip(ops, base, sitemap, None, url) <==> !InDomain(ops, base, url) || url.value in sitemap
  {
  }

  /** As the sitemap grows, a skipped URL stays skipped. */
  lemma SkipMonotone(ops: UriOps, base: string, s1: set<string>, s2: set<string>, block: Option<string -> bool>, url: Option<string>)
    requires s1 <= s2 && Skip(ops, base, s1, block, url)
    ensures Skip(ops, base, s2, block, url)
  {
  }

  // ---------------------------------------------------------------- lemmas: dedup

  lemma {:induction false} KeepMembers(ops: UriOps, base: string, sitemap: set<string>, block: Option<string -> bool>, xs: seq<Option<string>>)
    ensures forall x :: x in Keep(ops, base, sitemap, block, xs) <==> Some(x) in xs && !Skip(ops, base, sitemap, block, Some(x))
  {
    if xs != [] {
      KeepMembers(ops, base, sitemap, block, xs[1..]);
      assert forall y :: y in xs <==> y == xs[0] || y in xs[1..];
    }
  }

  /** What `dedup` returns is exactly the absolute forms of the input URLs
      that are in the domain, not yet visited and not rejected. */
  lemma DedupMembers(ops: UriOps, base: string, sitemap: set<string>, block: Option<string -> bool>, urls: seq<Item>, x: string)
    ensures x in Dedup(ops, base, sitemap, block, urls) <==>
      !Skip(ops, base, sitemap, block, Some(x)) &&
      exists u :: Some(u) in Flatten(urls) && ToAbsolute(ops, base, u) == Some(x)
  {
    var fl := Flatten(urls);
    var us := Uniq(Compact(fl));
    var abs := Absolutes(ops, base, us);
    KeepMembers(ops, base, sitemap, block, abs);
    CompactMembers(fl);
    if Some(x) in abs {
      var i :| 0 <= i < |abs| && abs[i] == Some(x);
      assert Some(us[i]) in fl;
    }
    if exists u :: Some(u) in fl && ToAbsolute(ops, base, u) == Some(x) {
      var u :| Some(u) in fl && ToAbsolute(ops, base, u) == Some(x);
      assert u in us;
      var i :| 0 <= i < |us| && us[i] == u;
      assert abs[i] == Some(x);
    }
  }

  /** So nothing `dedup` returns has been visited. */
  lemma DedupAvoidsVisited(ops: UriOps, base: string, sitemap: set<string>, block: Option<string -> bool>, urls: seq<Item>)
    ensures forall x :: x in Dedup(ops, base, sitemap, block, urls) ==> x !in sitemap && InDomain(ops, base, Some(x))
  {
    forall x | x in Dedup(ops, base, sitemap, block, urls)
      ensures x !in sitemap && InDomain(ops, base, Some(x))
    {
      DedupMembers(ops, base, sitemap, block, urls, x);
    }
  }

  /** Flattening a list of strings gives them back, none of them `nil`. */
  lemma {:induction false} FlattenStrs(ps: seq<string>)
    ensures Compact(Flatten(Strs(ps))) == ps
    ensures forall u :: Some(u) in Flatten(Strs(ps)) <==> u in ps
  {
    if ps != [] {
      FlattenStrs(ps[1..]);
      assert Strs(ps)[1..] == Strs(ps[1..]);
      assert Flatten(Strs(ps)) == [Some(ps[0])] + Flatten(Strs(ps[1..]));
      assert forall u :: u in ps <==> u == ps[0] || u in ps[1..];
    }
  }

  /** `dedup([paths])` for an array of strings, as `push` calls it. */
  lemma DedupOfStrings(ops: UriOps, base: string, sitemap: set<string>, block: Option<string -> bool>, ps: seq<string>, x: string)
    ensures x in Dedup(ops, base, sitemap, block, [Arr(Strs(ps))]) <==>
      !Skip(ops, base, sitemap, block, Some(x)) && exists u :: u in ps && ToAbsolute(ops, base, u) == Some(x)
  {
    assert Flatten([Arr(Strs(ps))]) == Flatten(Strs(ps)) + Flatten([]);
    FlattenStrs(ps);
    DedupMembers(ops, base, sitemap, block, [Arr(Strs(ps))], x);
  }
}
