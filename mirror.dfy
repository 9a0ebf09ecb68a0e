/** How the crawler mirrors what it fetches: the local (directory, file name)
    of a response, the rewriting of links inside stored HTML and CSS so that
    they point into the `/v2` subfolder, and what is written to disk. */
module Mirror {
  import opened Util
  import opened Strings

  /** `subfolder`. */
  const Subfolder: string := "/v2"

  // ---------------------------------------------------------------- file names

  /** `file.match(/\.html$/)`: `.html` right before the end of the string or
      before a newline (`$` is an end-of-line anchor). */
  predicate HtmlEnd(file: string)
  {
    exists i :: 0 <= i <= |file| && HtmlEndAt(file, i)
  }

  /** `.html` starts at `i` and a line ends right after it. */
  predicate HtmlEndAt(file: string, i: nat)
  {
    i + 5 <= |file| && file[i..i + 5] == ".html" && (i + 5 == |file| || file[i + 5] == '\n')
  }

  /** `check_content_type_suffix(file, content_type)`: only HTML names change. */
  function ContentTypeSuffix(file: Option<string>, contentType: Option<string>): (r: Option<string>)
  {
    if contentType != Some("text/html") then file
    else if file.None? then Some("index.html")
    else if |file.value| > 0 && file.value[0] == '?' then Some("index.html" + file.value)
    else if HtmlEnd(file.value) then file
    else Some(file.value + ".html")
  }

  /** Where a response is stored, below the dated store directory. `dir` is
      what `File.join(store_path, *dirs)` adds to it, `file` the name. */
  datatype LocalPath = LocalPath(dir: Option<string>, file: Option<string>)

  /** `url.gsub(@url, "")`: every occurrence of the start URL removed. */
  function Relative(base: string, url: string): string
  {
    ReplaceAll(url, base, "")
  }

  /** `parse_file_path(url, content_type)`. The second `gsub(/$\//, "")` can
      never match (after `$` comes a newline or nothing, never a '/'), so it
      is left out. `file, dirs = *segments.reverse` makes `file` the last
      segment and `dirs` only the one before it, a string, which `compact!`
      then leaves alone and `File.join` adds as one directory. */
  function FilePath(base: string, url: string, contentType: Option<string>): (r: LocalPath)
  {
    var segs := Split(Relative(base, url), '/');
    var file := if |segs| == 0 then None else Some(segs[|segs| - 1]);
    var dir := if |segs| < 2 then None else Some(segs[|segs| - 2]);
    LocalPath(dir, ContentTypeSuffix(file, contentType))
  }

  /** What `file.puts body` writes: the body, and a newline unless it already
      ends with one. */
  function PutsContent(body: string): (r: string)
    ensures EndsWith(r, "\n")
    ensures |body| <= |r| <= |body| + 1 && r[..|body|] == body
  {
    if EndsWith(body, "\n") then body else body + "\n"
  }

  // ---------------------------------------------------------------- html links

  /** The new link for one relative URL in `rewrite_html_urls`, or `None`
      where the source raises: `relative_url.split(".")` is empty, so `path`
      is `nil` and `path[0]` fails. */
  function HtmlTarget(relative: string): Option<string>
  {
    var parts := Split(relative, '.');
    if parts == [] then None
    else
      var path := parts[0];
      var newUrl :=
        if path == "/" then Subfolder + "/index.html"
        else if |path| > 1 && path[1] == '?' then Subfolder + "/index.html" + path[1..]
        else if |parts| < 2 || parts[1] == "" then Subfolder + "/" + relative + ".html"
        else Subfolder + "/" + relative;
      Some(Squeeze(newUrl, '/'))
  }

  /** `'"' + s + '"'`. */
  function Quoted(s: string): string
  {
    "\"" + s + "\""
  }

  /** One turn of the loop in `rewrite_html_urls`. The guard `body.match(old_url)`
      is modelled as literal containment of the quoted link. */
  function RewriteHtmlStep(body: string, base: string, url: string): Option<string>
  {
    var relative := Relative(base, url);
    match HtmlTarget(relative)
    case None => None
    case Some(target) =>
      var quoted := Quoted(relative);
      if Contains(body, quoted) then Some(ReplaceAll(body, quoted, Quoted(target))) else Some(body)
  }

  /** The loop of `rewrite_html_urls` over `us`, in order, stopping at the
      first URL that raises. */
  function RewriteHtml(body: string, base: string, us: seq<string>): Option<string>
    decreases |us|
  {
    if us == [] then Some(body)
    else
      match RewriteHtmlStep(body, base, us[0])
      case None => None
      case Some(b) => RewriteHtml(b, base, us[1..])
  }

  /** `rewrite_html_urls(body, urls)`: `gsub!` on the body for each URL of
      `urls.uniq`; `None` when one of them raises. */
  method RewriteHtmlUrls(body: string, base: string, urls: seq<string>) returns (r: Option<string>)
    ensures r == RewriteHtml(body, base, Uniq(urls))
  {
    var us := Uniq(urls);
    var b := body;
    var i := 0;
    while i < |us|
      invariant 0 <= i <= |us|
      invariant RewriteHtml(b, base, us[i..]) == RewriteHtml(body, base, us)
    {
      var relative := Relative(base, us[i]);
      var target := HtmlTarget(relative);
      if target.None? {
        return None;
      }
      var quoted := Quoted(relative);
      if Contains(b, quoted) {
        b := ReplaceAll(b, quoted, Quoted(target.value));
      }
      assert us[i..][1..] == us[i + 1..];
      i := i + 1;
    }
    return Some(b);
  }

  // ---------------------------------------------------------------- css links

  /** The loop of `rewrite_css_urls`: each URL, in order, replaced everywhere
      by itself behind the subfolder. */
  function RewriteCss(body: string, urls: seq<string>): string
    decreases |urls|
  {
    if urls == [] then body
    else RewriteCss(ReplaceAll(body, urls[0], Subfolder + "/" + urls[0]), urls[1..])
  }

  /** `rewrite_css_urls(body, urls)`: `body.gsub!(url, "#{subfolder}/#{url}")`
      for each URL, with no quoting, no `uniq` and no squeezing. */
  method RewriteCssUrls(body: string, urls: seq<string>) returns (r: string)
    ensures r == RewriteCss(body, urls)
  {
    r := body;
    var i := 0;
    while i < |urls|
      invariant 0 <= i <= |urls|
      invariant RewriteCss(r, urls[i..]) == RewriteCss(body, urls)
    {
      r := ReplaceAll(r, urls[i], Subfolder + "/" + urls[i]);
      assert urls[i..][1..] == urls[i + 1..];
      i := i + 1;
    }
  }

  // ---------------------------------------------------------------- lemmas: names

  /** The HTML name rule: a missing name becomes `index.html`, a bare query
      `?q` becomes `index.html?q`, any other name ends in `.html` afterwards,
      the suffix being added only when it is missing; other types keep the
      name as it is. */
  lemma ContentTypeSuffixRule(file: Option<string>, contentType: Option<string>)
    ensures var r := ContentTypeSuffix(file, contentType);
      (contentType != Some("text/html") ==> r == file) &&
      (contentType == Some("text/html") ==>
        r.Some? &&
        (file.None? ==> r == Some("index.html")) &&
        (file.Some? && |file.value| > 0 && file.value[0] == '?' ==> r == Some("index.html" + file.value)) &&
        (file.Some? && (|file.value| == 0 || file.value[0] != '?') ==>
          HtmlEnd(r.value) && (r == file <==> HtmlEnd(file.value)) && (r != file ==> r == Some(file.value + ".html"))))
  {
    if contentType == Some("text/html") && file.Some? && (|file.value| == 0 || file.value[0] != '?') && !HtmlEnd(file.value) {
      var f := file.value + ".html";
      assert HtmlEndAt(f, |file.value|);
      assert f != file.value;
    }
  }

  /** On a one-line name, the regex test is "ends with `.html`". */
  lemma HtmlEndOneLine(file: string)
    requires '\n' !in file
    ensures HtmlEnd(file) <==> EndsWith(file, ".html")
  {
    if HtmlEnd(file) {
      var i :| 0 <= i <= |file| && HtmlEndAt(file, i);
      assert i + 5 == |file|;
    }
    if EndsWith(file, ".html") {
      assert HtmlEndAt(file, |file| - 5);
    }
  }

  /** `parse_file_path` keeps the last segment of the relative path as the
      file (before the HTML rule) and the segment before it as the only
      directory; neither holds a '/'. */
  lemma FilePathSegments(base: string, url: string, contentType: Option<string>)
    ensures var segs, r := Split(Relative(base, url), '/'), FilePath(base, url, contentType);
      (r.file.None? <==> segs == [] && contentType != Some("text/html")) &&
      (r.dir.Some? <==> |segs| >= 2) &&
      (r.dir.Some? ==> r.dir.value == segs[|segs| - 2] && '/' !in r.dir.value) &&
      (segs != [] && contentType != Some("text/html") ==> r.file == Some(segs[|segs| - 1]) && '/' !in r.file.value && r.file.value != "")
  {
    var segs := Split(Relative(base, url), '/');
    SplitPiecesHaveNoSeparator(Relative(base, url), '/');
    if segs != [] {
      assert Split(Relative(base, url), '/')[|segs| - 1] != "";
    }
  }

  /** The page at the start URL itself, or at the start URL with a '/', is
      stored as `index.html` at the top of the mirror. */
  lemma FilePathOfStartPage(base: string)
    requires |base| > 1
    ensures FilePath(base, base, Some("text/html")) == LocalPath(None, Some("index.html"))
    ensures FilePath(base, base + "/", Some("text/html")) == LocalPath(None, Some("index.html"))
  {
    assert base[..|base|] == base && base[|base|..] == "";
    assert ReplaceAll("", base, "") == "";
    assert ReplaceAll(base, base, "") == "" + ReplaceAll("", base, "");
    assert Relative(base, base) == "";
    var slash := base + "/";
    assert slash[..|base|] == base && slash[|base|..] == "/";
    assert ReplaceAll("/", base, "") == "/";
    assert ReplaceAll(slash, base, "") == "" + ReplaceAll("/", base, "");
    assert Relative(base, slash) == "/";
    SplitEmptyIff("", '/');
    SplitEmptyIff("/", '/');
  }

  /** Only the parent directory survives: `<start>/a/b/c.css` is stored as
      `c.css` in directory `b`, not in `a/b`. */
  lemma FilePathKeepsOneDirectory(base: string, a: string, b: string, f: string, contentType: Option<string>)
    requires base != "" && '/' !in a && '/' !in b && '/' !in f && f != ""
    requires !Contains("/" + a + "/" + b + "/" + f, base)
    requires contentType != Some("text/html")
    ensures FilePath(base, base + "/" + a + "/" + b + "/" + f, contentType) == LocalPath(Some(b), Some(f))
  {
    var tail := ['/'] + (a + (['/'] + (b + (['/'] + f))));
    var url := base + tail;
    assert url == base + "/" + a + "/" + b + "/" + f;
    assert tail == "/" + a + "/" + b + "/" + f;
    assert url[..|base|] == base && url[|base|..] == tail;
    ReplaceAbsent(tail, base, "");
    assert Relative(base, url) == tail;
    SplitThreeSlashes(a, b, f);
  }

  lemma SplitThreeSlashes(a: string, b: string, f: string)
    requires '/' !in a && '/' !in b && '/' !in f
    ensures SplitOn(['/'] + (a + (['/'] + (b + (['/'] + f)))), ['/']) == ["", a, b, f]
  {
    var bf := b + (['/'] + f);
    SplitOnWithout(f, '/');
    assert bf == b + ['/'] + f;
    SplitOnSeparated(b, '/', f);
    var abf := a + (['/'] + bf);
    assert abf == a + ['/'] + bf;
    SplitOnSeparated(a, '/', bf);
    assert ['/'] + abf == [] + ['/'] + abf;
    SplitOnSeparated([], '/', abf);
  }

  /** What is written always ends with a newline, and writing it again would
      change nothing. */
  lemma PutsContentStable(body: string)
    ensures PutsContent(PutsContent(body)) == PutsContent(body)
    ensures EndsWith(body, "\n") ==> PutsContent(body) == body
  {
  }

  // ---------------------------------------------------------------- lemmas: html

  /** `Squeeze` keeps the subfolder prefix of a new link. */
  lemma SqueezeKeepsSubfolder(t: string)
    requires |t| >= 4 && t[..4] == Subfolder + "/"
    ensures var q := Squeeze(t, '/'); |q| >= 4 && q[..4] == Subfolder + "/"
  {
    assert t[0] == '/' && t[1] == 'v' && t[2] == '2' && t[3] == '/';
    SqueezeHead(t[3..], '/');
    SqueezeKeepsPrefix(t);
  }

  /** `Squeeze` leaves the `/v2` in front of a new link alone. */
  lemma SqueezeKeepsPrefix(t: string)
    requires |t| >= 4 && t[0] == '/' && t[1] == 'v' && t[2] == '2' && t[3] == '/'
    ensures Squeeze(t, '/') == ['/', 'v', '2'] + Squeeze(t[3..], '/')
  {
    assert t[1..][1..] == t[2..] && t[2..][1..] == t[3..];
    assert Squeeze(t[2..], '/') == ['2'] + Squeeze(t[3..], '/');
    assert Squeeze(t[1..], '/') == ['v'] + Squeeze(t[2..], '/');
    assert Squeeze(t, '/') == ['/'] + Squeeze(t[1..], '/');
  }

  /** Every new link lies in the subfolder and holds no `//`. */
  lemma HtmlTargetShape(relative: string)
    requires HtmlTarget(relative).Some?
    ensures var t := HtmlTarget(relative).value;
      |t| >= 4 && t[..4] == Subfolder + "/" && NoRun(t, '/')
  {
    var parts := Split(relative, '.');
    var path := parts[0];
    var newUrl :=
      if path == "/" then Subfolder + "/index.html"
      else if |path| > 1 && path[1] == '?' then Subfolder + "/index.html" + path[1..]
      else if |parts| < 2 || parts[1] == "" then Subfolder + "/" + relative + ".html"
      else Subfolder + "/" + relative;
    assert newUrl[..4] == Subfolder + "/";
    SqueezeKeepsSubfolder(newUrl);
    SqueezeNoRun(newUrl, '/');
  }

  /** `rewrite_html_urls` raises exactly for a relative URL made of dots
      alone (the empty one included). */
  lemma HtmlTargetFails(relative: string)
    ensures HtmlTarget(relative).None? <==> forall k :: 0 <= k < |relative| ==> relative[k] == '.'
  {
    SplitEmptyIff(relative, '.');
  }

  /** A relative URL gets `.html` appended when its first '.' (at `i`, or
      `i` is its end when it has none) ends it or is followed by another
      '.', so that no extension follows — `/a`, `/a.`, `/a..b` — unless what
      comes before is the root `/` or a bare query. */
  lemma HtmlTargetAppendsHtml(relative: string, i: nat)
    requires 0 < i <= |relative| && '.' !in relative[..i] && (i < |relative| ==> relative[i] == '.')
    requires i + 1 < |relative| ==> relative[i + 1] == '.'
    requires relative[..i] != "/" && (i < 2 || relative[1] != '?')
    ensures HtmlTarget(relative) == Some(Squeeze(Subfolder + "/" + relative + ".html", '/'))
  {
    SplitBeforeDots(relative, i);
  }

  /** When the first '.' of `relative`, at `i`, ends it or is doubled, the
      first piece is what comes before it and no piece with text follows it
      directly. */
  lemma SplitBeforeDots(relative: string, i: nat)
    requires 0 < i <= |relative| && '.' !in relative[..i] && (i < |relative| ==> relative[i] == '.')
    requires i + 1 < |relative| ==> relative[i + 1] == '.'
    ensures var parts := Split(relative, '.');
      |parts| > 0 && parts[0] == relative[..i] && (|parts| < 2 || parts[1] == "")
  {
    var a := relative[..i];
    var pieces := SplitOn(relative, ['.']);
    if i == |relative| {
      assert a == relative;
      SplitOnWithout(relative, '.');
    } else {
      var b := relative[i + 1..];
      assert relative == a + ['.'] + b;
      SplitOnSeparated(a, '.', b);
      if b != "" {
        assert b == [] + ['.'] + b[1..];
        SplitOnSeparated([], '.', b[1..]);
      }
    }
    assert pieces[0] == a && (|pieces| < 2 || pieces[1] == "");
  }

  /** The worked cases: the root `/` and a bare query become the index page. */
  lemma HtmlTargetOfRoot(root: string)
    requires root == "/"
    ensures HtmlTarget(root) == Some("/v2/index.html")
  {
    SplitWithoutSeparator(root, '.');
    var t := Subfolder + "/index.html";
    assert t == "/v2/index.html";
    SqueezeNoRunIdentity(t, '/');
  }

  lemma HtmlTargetOfQuery(query: string)
    requires query == "/?a=1"
    ensures HtmlTarget(query) == Some("/v2/index.html?a=1")
  {
    SplitWithoutSeparator(query, '.');
    var u := Subfolder + "/index.html" + query[1..];
    assert u == "/v2/index.html?a=1";
    SqueezeNoRunIdentity(u, '/');
  }

  /** A page without suffix gets `.html`; the doubled '/' is squeezed. */
  lemma HtmlTargetOfPage(page: string)
    requires page == "/foo/bar"
    ensures HtmlTarget(page) == Some("/v2/foo/bar.html")
  {
    assert page[..|page|] == page;
    HtmlTargetAppendsHtml(page, |page|);
    var rest := page + ".html";
    assert rest == "/foo/bar.html";
    var t := Subfolder + "/" + rest;
    assert t == Subfolder + "/" + page + ".html";
    SubfolderSqueeze(t, rest);
    assert Subfolder + rest == "/v2/foo/bar.html";
  }

  /** A new link `/v2/` + `/x` with `x` free of runs squeezes to `/v2/x`. */
  lemma SubfolderSqueeze(t: string, rest: string)
    requires |rest| > 0 && rest[0] == '/' && NoRun(rest, '/') && t == Subfolder + "/" + rest
    ensures Squeeze(t, '/') == Subfolder + rest
  {
    SqueezeKeepsPrefix(t);
    var r := t[3..];
    assert r == ['/'] + rest;
    assert r[1..] == rest;
    assert Squeeze(r, '/') == Squeeze(rest, '/');
    SqueezeNoRunIdentity(rest, '/');
  }

  /** A file with a suffix keeps it. */
  lemma HtmlTargetOfFile(file: string)
    requires file == "/style.css"
    ensures HtmlTarget(file) == Some("/v2/style.css")
  {
    SplitOnePeriod(file, "/style", "css");
    var t := Subfolder + "/" + file;
    SubfolderSqueeze(t, file);
    assert HtmlTarget(file) == Some(Squeeze(t, '/'));
    assert Subfolder + file == "/v2/style.css";
  }

  lemma SplitOnePeriod(s: string, a: string, b: string)
    requires '.' !in a && '.' !in b && b != "" && s == a + "." + b
    ensures Split(s, '.') == [a, b]
  {
    SplitOnWithout(b, '.');
    assert s == a + ['.'] + b;
    SplitOnSeparated(a, '.', b);
  }

  /** The query after a bare `?` is taken from the part before the first '.',
      so a dot in the query cuts it: `/?f=a.pdf` becomes `/v2/index.html?f=a`. */
  lemma HtmlTargetQueryStopsAtDot(relative: string)
    requires relative == "/?f=a.pdf"
    ensures HtmlTarget(relative) == Some("/v2/index.html?f=a")
  {
    SplitOnePeriod(relative, "/?f=a", "pdf");
    var u := Subfolder + "/index.html" + "/?f=a"[1..];
    assert u == "/v2/index.html?f=a";
    SqueezeNoRunIdentity(u, '/');
  }

  /** The containment guard changes nothing: a quoted link that does not
      occur would have been left alone by `gsub!` anyway. So a link not found
      in the body leaves it unchanged, and every found one is replaced. */
  lemma RewriteHtmlStepIsReplace(body: string, base: string, url: string)
    requires HtmlTarget(Relative(base, url)).Some?
    ensures var rel := Relative(base, url);
      RewriteHtmlStep(body, base, url) == Some(ReplaceAll(body, Quoted(rel), Quoted(HtmlTarget(rel).value)))
    ensures !Contains(body, Quoted(Relative(base, url))) ==> RewriteHtmlStep(body, base, url) == Some(body)
  {
    var rel := Relative(base, url);
    if !Contains(body, Quoted(rel)) {
      ReplaceAbsent(body, Quoted(rel), Quoted(HtmlTarget(rel).value));
    }
  }

  /** The rewrite of a page fails exactly when one of the URLs has a relative
      part made of dots alone; otherwise every URL is rewritten. */
  lemma {:induction false} RewriteHtmlFails(body: string, base: string, us: seq<string>)
    ensures RewriteHtml(body, base, us).None? <==>
      exists i :: 0 <= i < |us| && HtmlTarget(Relative(base, us[i])).None?
    decreases |us|
  {
    if us != [] {
      match RewriteHtmlStep(body, base, us[0])
      case None =>
      case Some(b) =>
        RewriteHtmlFails(b, base, us[1..]);
        if exists i :: 0 <= i < |us| && HtmlTarget(Relative(base, us[i])).None? {
          var i :| 0 <= i < |us| && HtmlTarget(Relative(base, us[i])).None?;
          assert us[1..][i - 1] == us[i];
        }
    }
  }

  // ---------------------------------------------------------------- lemmas: css

  /** One CSS URL: the text between its occurrences is kept and each
      occurrence gets the subfolder in front of it. */
  lemma RewriteCssOne(body: string, url: string)
    requires url != ""
    ensures RewriteCss(body, [url]) == JoinWith(SplitOn(body, url), Subfolder + "/" + url)
    ensures JoinWith(SplitOn(body, url), url) == body
  {
    ReplaceIsSplitJoin(body, url, Subfolder + "/" + url);
    SplitJoinRoundTrip(body, url);
  }

  /** URLs that occur nowhere leave the style sheet as it is. */
  lemma {:induction false} RewriteCssAbsent(body: string, urls: seq<string>)
    requires forall k :: 0 <= k < |urls| ==> urls[k] != "" && !Contains(body, urls[k])
    ensures RewriteCss(body, urls) == body
  {
    if urls != [] {
      ReplaceAbsent(body, urls[0], Subfolder + "/" + urls[0]);
      RewriteCssAbsent(body, urls[1..]);
    }
  }

  /** `url()` gives the empty URL, and `gsub!("", "/v2/")` puts the subfolder
      before every character and at the end. */
  lemma RewriteCssEmptyUrl(body: string)
    ensures |RewriteCss(body, [""])| == |body| + 4 * (|body| + 1)
    ensures body == "a" ==> RewriteCss(body, [""]) == "/v2/a/v2/"
  {
    assert Subfolder + "/" == "/v2/";
    assert [""][1..] == [];
    var q := Subfolder + "/" + [""][0];
    assert q == "/v2/";
    assert RewriteCss(body, [""]) == RewriteCss(ReplaceAll(body, "", "/v2/"), []);
    InsertAroundLength(body, Subfolder + "/");
    if body == "a" {
      assert body[1..] == "";
      assert InsertAround(body, "/v2/") == "/v2/" + "a" + InsertAround("", "/v2/");
    }
  }
}
