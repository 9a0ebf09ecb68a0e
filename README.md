# Roundabout crawler core, modelled in Dafny

Roundabout crawls one web application. It starts from a single URL and keeps a stack of
URLs to fetch (`@paths`) and a set of URLs already fetched (`@sitemap`). The HTTP fetch
calls a block, which looks at the response's media type and acts on it:

- an HTML page yields new links: the links from the path extractor and the AJAX links
  (`data-remote` anchors plus `.js`). The links inside the page are rewritten to point
  into the `/v2` mirror folder, and the page is stored.
- a style sheet yields the `url(...)` paths of its `background-image` declarations. Those
  paths are prefixed with the folder, and the sheet is stored.
- scripts, PDFs and images are stored as they are.
- anything else is skipped.

New links pass through `dedup`:

1. flatten, compact and make unique;
2. make each link absolute;
3. drop what is out of the domain, already visited or rejected.

`push` then merges the result into the stack with `|=`. When no path is left, the
`on_complete` handler sets the done flag and calls the user's block.

The model follows the program's files:

| file | module | what |
|---|---|---|
| `util.dfy` | `Util` | `Option`, Ruby's `uniq`, `compact` and `\|` on arrays |
| `strings.dfy` | `Strings` | `gsub` with a literal pattern, `split`, `squeeze`, containment |
| `style_tree.dfy` | `StyleTree` | the `ToArray` visitor over a style-sheet tree |
| `css_extract.dfy` | `CssExtract` | `CssPathExtractor#run` and the `background-image` filter |
| `ajax_extract.dfy` | `AjaxExtract` | `AjaxPathExtractor#run` over a document's anchors |
| `scope.dfy` | `Scope` | `to_absolute`, `in_domain?`, `reject?`, `skip?`, `dedup` |
| `mirror.dfy` | `Mirror` | `check_content_type_suffix`, `parse_file_path`, both rewrites, what `puts` writes |
| `crawl.dfy` | `Crawl` | the response block as a function, and the `Crawler` class with `run` and `push` |

Parts of the program are state changes, and the model keeps them as state changes:

- `run`, `push`, `visited`, `store_file`, the `on_complete` handler and the block setters
  are methods of `Crawl.Crawler`. They update the fields `paths`, `sitemap`, `htmlPaths`,
  `done` and `mirror` (the stored files).
- Both rewrite loops are methods with loop invariants.

Each of these methods is proved against a function:

- the response block is `Crawl.Callback`;
- the rewrite loops are `Mirror.RewriteHtml` and `Mirror.RewriteCss`.

The properties of those functions are then proved as lemmas.

The rest is functions and lemmas about them. Ruby's regular expressions appear in six
places. Five are modelled by their exact meaning:

- the anchor strip `/#[a-zA-Z0-9_-]*$/` (per line);
- the `.html` test `/\.html$/` (end of a line);
- `/$\//` in `parse_file_path`, which can never match;
- the CSS capture `/.*\(([^)]*)\)/`: the first line with a `(` followed later by a `)`,
  where the greedy `.*` picks the last such `(`;
- the `background-image` filter `/url\(/`: the value contains `url(`.

The sixth is the guard `body.match(old_url)` in `rewrite_html_urls`. `String#match`
compiles the quoted link into a regular expression. The model reads it as literal
containment instead (see `Mirror.RewriteHtmlStep` under "Left out").

The URI library is a parameter, `Scope.UriOps`. Each of its calls may fail (`None`) where
Ruby raises. Relative resolution (section 5.2 of RFC 3986) is uninterpreted.

Behaviour of the code that a reader may not expect, all modelled as written:

- `parse_file_path` keeps only the second-to-last path segment as the directory, because
  `file, dirs = *segments.reverse` binds `dirs` to one string.
- In `rewrite_html_urls` the `?query` case uses the text before the first `.`. So
  the new link computed for `/?f=a.pdf` is `/v2/index.html?f=a`.
- A relative URL made only of dots (or empty) has no `path`, so `path[0]` raises.
- A callback that raises ends `run`, because nothing in `run` rescues it. The callback
  raises for a missing `Content-Type`, a style sheet Sass cannot parse, a relative URL
  without `path`, and a file name `parse_file_path` cannot find. The raising response
  stores and distributes nothing, the rest of the stack is not crawled, and `after_run`
  is not called. `Crawl.Crawler.Run` returns `raised` and stops there.
- CSS paths are not deduplicated against the crawl and are substituted as they are. A
  `url()` gives `""`, and `gsub("", "/v2/")` inserts the folder around every character.
- `to_absolute` may map two unique inputs to the same URL (`uniq` runs before the `map`).
  `push`'s `|=` removes that duplicate again.
- The CSS extractor keeps the empty string that `url()` yields, because `compact` drops
  only `nil`.

## Model

| member | source | states |
|---|---|---|
| Util.Uniq | lib/roundabout/crawler.rb:438 | `uniq`: no duplicates, exactly the input's elements, no longer than the input |
| Util.UniqFirstOccurrenceOrder | lib/roundabout/css_path_extractor.rb:32 | `uniq` keeps first occurrences, in input order |
| Util.CompactMembers | lib/roundabout/crawler.rb:438 | `compact` keeps exactly the non-`nil` elements |
| Util.CompactUniqCommute | lib/roundabout/css_path_extractor.rb:32 | `uniq.compact` equals `compact.uniq` |
| Util.UnionKeepsPrefix | lib/roundabout/crawler.rb:233 | `a \| b` keeps a duplicate-free `a` unchanged in front and adds only elements of `b` not in `a` |
| Strings.ReplaceIsSplitJoin | lib/roundabout/crawler.rb:355 | `gsub` with a String pattern is split on the pattern, joined with the replacement (inserted as it is) |
| Strings.SplitJoinRoundTrip | lib/roundabout/crawler.rb:368 | joining the pieces of a split with the separator gives the string back |
| Strings.ReplaceAbsent | lib/roundabout/crawler.rb:353-356 | `gsub` of a pattern that does not occur leaves the string unchanged |
| Strings.SplitEmptyIff | lib/roundabout/crawler.rb:332-333 | `split(c)` is empty exactly when the string is made only of `c` |
| Strings.SplitPiecesHaveNoSeparator | lib/roundabout/crawler.rb:320 | no piece of `split(c)` contains `c` |
| Strings.SqueezeNoRun | lib/roundabout/crawler.rb:351 | `squeeze("/")` leaves no two adjacent slashes |
| Strings.SqueezeIdempotent | lib/roundabout/crawler.rb:351 | squeezing twice is squeezing once |
| StyleTree.ToArrayIsProps | lib/roundabout/crawler.rb:35-78 | the visitor emits, in document order, one entry per property node with a value, with that property's name and value |
| StyleTree.VisitEmitsProps | lib/roundabout/crawler.rb:35-78 | visiting a node only appends to the output, and what it appends is the node's valued properties |
| StyleTree.SheetWithoutMediaIsAll | lib/roundabout/crawler.rb:36-38 | in a sheet without `@media`, every entry has media `all` |
| StyleTree.MediaIsResetAtTopLevel | lib/roundabout/crawler.rb:36-38 | after an `@media` block, the next top-level rule is back to media `all`; a property without a value is skipped |
| CssExtract.CaptureExists | lib/roundabout/css_path_extractor.rb:31 | a value gives a capture exactly when a line of it has a `(` with a later `)` |
| CssExtract.CaptureIsParenthesised | lib/roundabout/css_path_extractor.rb:31 | the capture sits between a `(` and a `)` in the value and contains no `)` |
| CssExtract.CaptureIsLastGroup | lib/roundabout/css_path_extractor.rb:31 | on one line, the greedy match takes the last `(` that is followed by a `)` |
| CssExtract.CaptureOfUrl | lib/roundabout/css_path_extractor.rb:30-31 | `url(x)` captures `x` |
| CssExtract.CaptureOfNone | lib/roundabout/css_path_extractor.rb:31 | `none` captures nothing |
| CssExtract.CaptureOfEmptyUrl | lib/roundabout/css_path_extractor.rb:31-32 | `url()` captures the empty string |
| CssExtract.CssPathsNoDup | lib/roundabout/css_path_extractor.rb:32 | the result has no duplicates |
| CssExtract.CssPathsMembers | lib/roundabout/css_path_extractor.rb:29-32 | the result holds exactly the captures of the rows |
| CssExtract.CssPathsAreSubstrings | lib/roundabout/css_path_extractor.rb:29-32 | each result is a parenthesised substring of some row's value and contains no `)` |
| CssExtract.CssPathsOrder | lib/roundabout/css_path_extractor.rb:29-32 | the result is no longer than the input and keeps first-occurrence order |
| CssExtract.CssPathsExample | lib/roundabout/css_path_extractor.rb:29-32 | `url(/img/bg.png)`, `none`, `url(/img/bg.png)` give `["/img/bg.png"]` |
| CssExtract.BackgroundImages | lib/roundabout/crawler.rb:428 | keeps exactly the `background-image` rows whose value contains `url(` |
| AjaxExtract.AjaxPathsCount | lib/roundabout/ajax_path_extractor.rb:29-31 | one entry per selected anchor, with no dedup |
| AjaxExtract.AjaxPathsOrder | lib/roundabout/ajax_path_extractor.rb:29-31 | the selected anchor at position j gives the entry after all earlier selected anchors: its `href` plus `.js` |
| AjaxExtract.AjaxPathsMembers | lib/roundabout/ajax_path_extractor.rb:29-30 | every entry is a selected anchor's `href` plus `.js`, and every selected anchor gives one |
| AjaxExtract.UnselectedContributeNothing | lib/roundabout/ajax_path_extractor.rb:29 | anchors without `href` or without `data-remote='true'` give nothing |
| AjaxExtract.AjaxPathsExample | lib/roundabout/ajax_path_extractor.rb:29-31 | `/api/items` with `data-remote="true"` gives `/api/items.js`; the others give nothing |
| Scope.StripLineRemovesAnchor | lib/roundabout/crawler.rb:394 | a trailing `#anchor` of a line is removed exactly |
| Scope.StripLineKeeps | lib/roundabout/crawler.rb:394 | a line without a trailing anchor is unchanged |
| Scope.StripAnchorOneLine | lib/roundabout/crawler.rb:394 | on a string without newline, the substitution acts on the one line |
| Scope.StripAnchorOfPage | lib/roundabout/crawler.rb:394 | `/page#top` becomes `/page` |
| Scope.StripAnchorTwice | lib/roundabout/crawler.rb:394 | `/a#b#c` becomes `/a#b`, which strips again to `/a` |
| Scope.StripAnchorNeedsAnchorChars | lib/roundabout/crawler.rb:394 | `/q#a.b` is unchanged: `.` is not an anchor character |
| Scope.ToAbsoluteKeepsHosted | lib/roundabout/crawler.rb:394-396 | a URL with a host is returned encoded and otherwise unchanged |
| Scope.ToAbsoluteEmptyPath | lib/roundabout/crawler.rb:404-408 | a resolved URL with an empty path gets the path `/` |
| Scope.ToAbsoluteFails | lib/roundabout/crawler.rb:391-415 | the result is `nil` exactly when a library call raises |
| Scope.InDomainFailsClosed | lib/roundabout/crawler.rb:279-286 | `nil` and unparsable URLs are out of the domain; in the domain iff the hosts are equal and both parse |
| Scope.SkipIff | lib/roundabout/crawler.rb:262-274 | skip iff out of the domain, visited, or rejected by the block; `nil` is always skipped |
| Scope.SkipWithoutRejectBlock | lib/roundabout/crawler.rb:271-274 | without a reject block, only domain and sitemap decide |
| Scope.SkipMonotone | lib/roundabout/crawler.rb:262-264 | a skipped URL stays skipped as the sitemap grows |
| Scope.DedupMembers | lib/roundabout/crawler.rb:437-440 | `dedup` returns exactly the absolute forms of the input strings that are not skipped |
| Scope.DedupAvoidsVisited | lib/roundabout/crawler.rb:437-440 | nothing `dedup` returns is visited or out of the domain |
| Scope.FlattenStrs | lib/roundabout/crawler.rb:438 | flattening and compacting an array of strings gives it back |
| Scope.DedupOfStrings | lib/roundabout/crawler.rb:232-233 | `dedup([paths])` returns the non-skipped absolute forms of `paths` |
| Mirror.ContentTypeSuffixRule | lib/roundabout/crawler.rb:306-316 | non-HTML names are unchanged. For HTML, `nil` becomes `index.html`, `?q` becomes `index.html?q`, and any other name ends in `.html` afterwards; `.html` is added only when missing |
| Mirror.HtmlEndOneLine | lib/roundabout/crawler.rb:311 | on one line, `/\.html$/` is "ends with `.html`" |
| Mirror.FilePathSegments | lib/roundabout/crawler.rb:318-323 | the file is the last `/`-segment of the relative URL; the directory is only the second-to-last one |
| Mirror.FilePathOfStartPage | lib/roundabout/crawler.rb:318-323 | the start page is stored as `index.html` at the top |
| Mirror.FilePathKeepsOneDirectory | lib/roundabout/crawler.rb:320-322 | `base/a/b/f` is stored as `b/f`: the directory `a` is lost |
| Mirror.PutsContent | lib/roundabout/crawler.rb:378-380 | the stored content is the body plus a newline unless it ends with one |
| Mirror.PutsContentStable | lib/roundabout/crawler.rb:378-380 | writing is idempotent on its own output |
| Mirror.HtmlTargetShape | lib/roundabout/crawler.rb:336-351 | every new link starts with `/v2/` and has no repeated `/` |
| Mirror.HtmlTargetFails | lib/roundabout/crawler.rb:332-336 | the rewrite raises exactly for a relative URL that is empty or made only of dots |
| Mirror.HtmlTargetAppendsHtml | lib/roundabout/crawler.rb:332-345 | a link gets `.html` appended after the folder when its first `.` ends it or is followed by another `.` (so `/a`, `/a.` and `/a..b`), unless the part before is `/` or a bare query |
| Mirror.SplitBeforeDots | lib/roundabout/crawler.rb:332-334 | `split(".")` of such a link: the first piece is the text before the first `.`, and the second, if any, is empty |
| Mirror.HtmlTargetOfRoot | lib/roundabout/crawler.rb:336-337 | `/` becomes `/v2/index.html` |
| Mirror.HtmlTargetOfQuery | lib/roundabout/crawler.rb:339-340 | `/?a=1` becomes `/v2/index.html?a=1` |
| Mirror.HtmlTargetOfPage | lib/roundabout/crawler.rb:342-345 | `/foo/bar` becomes `/v2/foo/bar.html` |
| Mirror.HtmlTargetOfFile | lib/roundabout/crawler.rb:346-347 | `/style.css` becomes `/v2/style.css` |
| Mirror.HtmlTargetQueryStopsAtDot | lib/roundabout/crawler.rb:332-340 | `/?f=a.pdf` becomes `/v2/index.html?f=a`: the query is cut at the first `.` |
| Mirror.RewriteHtmlStepIsReplace | lib/roundabout/crawler.rb:349-356 | one step replaces every double-quoted occurrence of the relative link; a link not in the body leaves it unchanged |
| Mirror.RewriteHtmlFails | lib/roundabout/crawler.rb:329-363 | the loop raises exactly when one of its URLs has no new link |
| Mirror.RewriteHtmlUrls | lib/roundabout/crawler.rb:329-363 | the loop over `urls.uniq` computes `RewriteHtml` over the unique URLs, or raises |
| Mirror.RewriteCssUrls | lib/roundabout/crawler.rb:365-372 | the loop computes `RewriteCss` over the URLs in order |
| Mirror.RewriteCssOne | lib/roundabout/crawler.rb:366-368 | one URL: every literal occurrence becomes `/v2/` + URL (inserted as it is), and nothing else changes |
| Mirror.RewriteCssAbsent | lib/roundabout/crawler.rb:366-368 | URLs that do not occur leave the body unchanged |
| Mirror.RewriteCssEmptyUrl | lib/roundabout/crawler.rb:366-368 | an empty URL inserts `/v2/` around every character: `a` becomes `/v2/a/v2/` |
| Crawl.MediaTypeBeforeSemicolon | lib/roundabout/crawler.rb:190 | the media type is the header up to the first `;` |
| Crawl.KindOfTypes | lib/roundabout/crawler.rb:193-217 | HTML and CSS are extracted, the listed script/pdf/image types are stored, everything else is ignored |
| Crawl.CallbackWithoutWork | lib/roundabout/crawler.rb:189-219 | no header raises before any effect; an ignored type stores nothing and distributes no paths |
| Crawl.CallbackStoresOnly200 | lib/roundabout/crawler.rb:374-385 | a file is written only for status 200 and a handled type, at `parse_file_path`'s place, ending in a newline |
| Crawl.CallbackAsset | lib/roundabout/crawler.rb:209-211 | an asset is stored unchanged and yields no paths |
| Crawl.CallbackPageStored | lib/roundabout/crawler.rb:194-201 | a 200 page adds its links to the HTML paths, is stored rewritten with all HTML paths so far, and distributes links plus AJAX links |
| Crawl.CallbackHtmlPathsGrow | lib/roundabout/crawler.rb:199 | `@html_paths` changes only for a page, by appending that page's links (not the AJAX ones) |
| Crawl.CallbackStyleSheet | lib/roundabout/crawler.rb:203-207 | a sheet distributes its CSS paths as they are and is stored with them rewritten |
| Crawl.CallbackPushesPushable | lib/roundabout/crawler.rb:194-219 | whatever a response distributes comes from its links, its AJAX anchors or its CSS paths |
| Crawl.Crawler.constructor | lib/roundabout/crawler.rb:125-150 | the stack holds only the start URL; nothing is visited, done is false, no block is registered |
| Crawl.Crawler.OnComplete | lib/roundabout/crawler.rb:163-166 | registers the block; raises without one |
| Crawl.Crawler.AfterRun | lib/roundabout/crawler.rb:174-177 | registers the block; raises without one |
| Crawl.Crawler.Reject | lib/roundabout/crawler.rb:242-245 | registers the reject block; raises without one |
| Crawl.Crawler.Pop | lib/roundabout/crawler.rb:183 | takes the last queued URL, which is not yet visited |
| Crawl.Crawler.Visit | lib/roundabout/crawler.rb:387-389 | adds the URL to the sitemap, keeping the invariant |
| Crawl.Crawler.Push | lib/roundabout/crawler.rb:232-233 | any paths are accepted. `@paths \|= dedup([paths])`: old entries stay in front; only in-domain, unvisited, unqueued URLs are added; the universe of queueable URLs grows by the paths' absolute forms |
| Crawl.Crawler.StoreFile | lib/roundabout/crawler.rb:374-385 | writes body plus newline at `parse_file_path`'s place only for status 200; raises for a missing file name |
| Crawl.Crawler.Dispatch | lib/roundabout/crawler.rb:189-217 | the `case type` part of the block, as `Callback` specifies |
| Crawl.Crawler.Respond | lib/roundabout/crawler.rb:188-220 | the block on response `r`: the HTML paths and stored files are `Callback`'s; `raised` is true exactly when `Callback` raises; otherwise the stack becomes the old stack `\|` `dedup` of the distributed paths, else it is unchanged; queued URLs stay queued; what the distributed paths reach is visited or queued |
| Crawl.Crawler.Get | lib/roundabout/crawler.rb:188-220 | `http.get(url)` for a visited URL logs one fetch (`Fetched`): the entry holds the sitemap, reject block, HTML paths and stack the block saw; it is a faithful record of `Callback` on `Fetch(url)` (`Recorded`); the HTML paths, stored files and stack become what it records; `raised` says whether it raised; what it reaches is visited or queued |
| Crawl.Crawler.HandleComplete | lib/roundabout/crawler.rb:145-149 | after a block that did not raise, when no path is left: done is set, and the block (if any) is called once; otherwise nothing changes |
| Crawl.Crawler.Next | lib/roundabout/crawler.rb:183-186 | pops the last queued URL, which was not visited and lies in the universe, clears done and visits it; nothing else changes |
| Crawl.Crawler.Step | lib/roundabout/crawler.rb:183-220 | one turn (`Turned`): pops the last queued URL, visits it, then fetches it as `Get` states; the other queued URLs stay queued; the log stays in step with the visiting order; done is set, and `on_complete` called, exactly when the block did not raise and the stack ends empty |
| Crawl.Crawler.Turn | lib/roundabout/crawler.rb:183-220 | one turn keeps the loop's `Progress` from the start, reports through `raised` whether its fetch raised, and visits one more URL of the finite universe |
| Crawl.Crawler.Crawl | lib/roundabout/crawler.rb:183-221 | the `while` loop terminates on a finite site. Every URL queued at the start, and every URL a logged fetch reaches, is visited or still queued. Unless a block raised, the stack ends empty, every URL queued at the start is visited, and all each logged fetch reaches is visited. The fetches follow one another (`Chained`), the stored files are theirs (`Stores`), and only the last may have raised. Done and the `on_complete` call are as in `run` |
| Crawl.Crawler.Run | lib/roundabout/crawler.rb:182-225 | all of `Crawl`'s statements, with every URL a logged fetch reaches in the sitemap at the end. `after_run` is called exactly when no block raised; a block that raises ends `run`, with `raised` true and every URL queued at the start or reached by a logged fetch visited or still queued |
| Crawl.LogStep | lib/roundabout/crawler.rb:183-220 | logging one more fetch that saw what the earlier ones left extends the chain, the stored files and what is reached |
| Crawl.ProgressTurn | lib/roundabout/crawler.rb:183-220 | a turn after fetches none of which raised keeps the loop's `Progress`, and the log's last fetch raised exactly when the turn did |
| Crawl.MatchesTurn | lib/roundabout/crawler.rb:183-188 | logging the fetch of the URL just popped keeps the log in step with the visiting order |
| Crawl.StoresHoldsStored | lib/roundabout/crawler.rb:374-380 | every stored file was there before the crawl and untouched, or was written by a logged fetch: the last one to store at that place |
| Crawl.ReachedCovers | lib/roundabout/crawler.rb:232-233 | what each logged fetch reaches is among what the fetches reach together |

## Left out

- HTTP transport and the asynchronous `http.get`/`on_complete` machinery are left out.
  The fetch is a lookup in a fixed table of responses (`site`, with `fallback` for every
  other URL). Each response's block runs to completion before the next pop. The table
  is finite and the fallback gives the same links for every URL, so only finitely many
  URLs can be queued and `run` terminates. A server that keeps generating new in-domain
  links would make the program's `run` go on forever; the model does not cover that.
- The distributor is left out. `distribute` is a direct `push`, and the nested `run` that
  `push` starts is folded into the one loop of `Crawl.Crawler.Run`. It pops in the same
  order from the same stack.
- Crawl.Crawler.Run: does not model the repeated `after_run` and `on_complete` calls that
  the nested `run` inside `push` would make. The model calls each block at most once per
  crawl.
- Crawl.Crawler.Run: the fetch log (`Crawler.log`) is ghost state of the model, not a
  field of the program. It records what each block saw and did so that the contracts can
  say so.
- Crawl.Crawler.Push: does not call `run` again; the outer loop does the draining.
- Nokogiri, XPath and the Sass parser are left out. A page is given as the path
  extractor's result (`None` where it raises, which the `rescue` turns into `[]`) and its
  anchors. A style sheet is given as its parsed tree (`None` where Sass raises; there is
  no `rescue` there, so `run` ends).
- `Roundabout::PathExtractor` is not part of this model. Its output is an input of the
  response.
- `uri_encode`, `uri_parse`, `uri_parser.parse` and `URI#merge` are parameters that may
  fail (`Scope.UriOps`). Relative resolution is not modelled.
- `in_domain?` caches the start URL's host in `@host`. The model recomputes it each time,
  which gives the same value.
- Mirror.RewriteHtmlStep: the guard `body.match(old_url)` compiles the quoted link into a
  regular expression; the model tests literal containment instead. `gsub!` with a String
  pattern looks for the link literally, so only the guard differs (the replacement's
  backslash sequences are a separate gap, under `Strings.ReplaceAll` below). This line
  also covers `Mirror.RewriteHtmlStepIsReplace` and `Mirror.RewriteHtmlUrls`, which state
  the step and the loop with the literal guard. The differences are these:
  - a link holding `?`, such as `"/?a=1"`, does not match itself, because `/?` means an
    optional `/`. Such a link is rewritten only if the body also holds a text the pattern
    matches, such as `"a=1"` with its quotes; in the program a query link on its own is
    never rewritten.
    The same holds for `+`, `*`, `{n}`, `^`, `$` and balanced `( )` or `[ ]`;
  - a link with an unbalanced `(`, `)` or `[` makes `match` raise `RegexpError`. Nothing
    rescues it, so `run` ends; the model computes a result instead;
  - `.` and `|` can make the guard match where the literal link is absent; `gsub!` then
    changes nothing, as in the model.
  Under the program's guard, three things the model states hold only for the page body's
  literal links: the `?query` rewrite above, `Mirror.HtmlTargetOfQuery` and
  `Mirror.HtmlTargetQueryStopsAtDot` as replacements in the body, and the "exactly when"
  of `Mirror.RewriteHtmlFails`. Each of them holds for the new link the program computes.
- Strings.ReplaceAll: Ruby's `gsub` and `gsub!` expand backslash sequences in a String
  replacement even when the pattern is a String. `\0` and `\&` give the match, `\\` gives
  one `\`, `` \` `` and `\'` give the text before and after the match, and `\1`-`\9` give
  nothing. The model inserts the replacement as it is, so it is exact only for
  replacements without `\`. The replacements are `""` for the relative URL (exact), the
  quoted new link in `rewrite_html_urls`, and `/v2/` plus the raw CSS capture in
  `rewrite_css_urls`. A capture such as `a\0b` is written `/v2/aa\0bb` by the program and
  `/v2/a\0b` by the model.
- Strings.ReplaceIsSplitJoin: states split-and-join for the replacement inserted as it
  is; a replacement holding `\` is expanded by Ruby (see `Strings.ReplaceAll`).
- Mirror.RewriteCssUrls: each step inserts `/v2/` plus the URL as it is; a CSS path
  holding `\` is expanded by Ruby's `gsub!` (see `Strings.ReplaceAll`).
- Mirror.RewriteCssOne: "nothing else changes" and "becomes `/v2/` + URL" hold for a URL
  without `\`; with `\0`, `\&` or `\\` in it Ruby writes a different text (see
  `Strings.ReplaceAll`).
- Filesystem effects are not modelled: removing the old dump, `mkdir_p`, `File.open`, and
  the dated `store_path` (`Time.now`). Only the (directory, file name) pair and the written
  content remain, in `Crawler.mirror`.
- All `puts` logging is left out.
- `peer_url`, `done?`, `sitemap_as_array` and the attribute readers are left out. They
  only read fields.
- A reject block that raises is not modelled. The block is a total function.
