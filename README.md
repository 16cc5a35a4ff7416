# A verified model of the kujiale.com offline mirror

The repository builds an offline copy of a kujiale.com 3D design. It has three parts:

- **`save_responses.py`** is a mitmproxy hook. It captures the browser's responses and
  stores each one under `./webroot`.
- **`post_process.py`**
  - scans the captured files for kujiale.com references;
  - downloads the render images they point to, including every tile variant of each cube
    face;
  - rewrites absolute and protocol-relative links to root-relative ones (`/host/path`).
- **`serve.go`** is a local Go server. It maps each root-relative request back to the
  file the other two programs stored.

The model is a Dafny project of ten modules:

- `Text`: the string operations the programs depend on
- `PyUrl`: Python's `urlparse`/`urlsplit` and `unquote`
- `GoUrl`: Go's `url.Parse`
- `Paths`: `pathlib` parts, `filepath.Clean`/`Join`/`Ext` and `os.path.join`
- `Domains`: which hosts are processed, and the query sanitisation
- `Expander`: the 180 requests of a `%s` template
- `Scanner`: the three regular expressions, the download set, the rewriting and `extract_and_rewrite_file`
- `Downloader`: `normalize_path`, `download_file`, `handle_url` and `download_all_urls`
- `Capture`: `sanitize_path` and the text/binary decision of `save_responses.py`
- `Serve`: `translatePath` and `getContentType`

A further module, `Agreement`, collects the properties that span programs:

- The server serves the file the downloader stored for a rewritten reference.
- The capture hook stores a subdomain response exactly where the downloader looks for it.

### Modelling choices

- **Python state.**
  - The shared download set is a class `Scanner.UrlSet`, which `ExtractAndRewriteFile`
    updates in place.
  - The filesystem is a `Downloader.Disk`: the set of existing paths plus the list of
    fetches attempted.
  - The network's answer is a function `saved(url)`, true when the request succeeded.
- **Method bodies.**
  - `download_all_urls` is a method with the program's nested loops.
  - Each loop body is its own method, proved against the function `Expander.ExpandAll`.
- **Server oracles.**
  - `os.Stat(...).IsDir()` is a parameter `isDir: string -> bool`.
  - `mime.TypeByExtension` is a parameter `typeByExtension: string -> string`.

### Where the model follows the code rather than its stated intent

- **`URL_PATTERN` matches the main site too** (`post_process.py:24-25`), although the
  comment says it excludes `www.kujiale.com`.
  - Only the render host is queued (`Scanner.QueuedExactly`).
  - The main site's own group is never replaced, because its host is in `EXCLUDE_REWRITE`
    (`Domains.HostRoles`). Its text can still change: the replacement for another group
    also rewrites a copy of that group inside a main-site URL, for example in its query.
    Only a file whose matches are all excluded is left exactly as it is
    (`Scanner.RewriteExcludedOnly`).
- **A template can request the same URL several times.** When `%s` occurs only in the
  query, all six faces share the text before the `?`, so each of the 29 variant URLs is
  requested six times (`Expander.PlaceholderInQueryRepeats`).
- **A file is written back whenever `URL_PATTERN` matches in it**
  (`post_process.py:137-139,174-175`), even when nothing was queued or rewritten.
- **The server tests the whole raw request for `www.kujiale.com`**
  (`serve.go:58-61`), the query included. A CDN request whose query mentions the main site
  gets no query suffix (`Serve.QueryMentionsMainSite`).
- **The host filters differ.**
  - The server's domain pattern needs at least one character before `.kujiale.com`.
    `should_process_domain` also admits the bare name `.kujiale.com`, so the agreement
    lemma requires a host longer than that suffix.
  - `save_responses.py`'s `should_process_domain` admits the panorama JSON host, unlike
    `post_process.py`'s (`Domains.ProcessFilters`). Its own hook never calls it.
- **Main-site paths do not get the host directory** (`save_responses.py:24-26`). A
  main-site path that begins with a host name is stored where that host's file would be
  (`Capture.MainSiteShadowsHost`).
- **`strings.ToLower` of an extension is `Text.GoLower`.** It lowers the ASCII capitals,
  and also U+0130 (capital I with dot above) to `i` and U+212A (Kelvin sign) to `k`,
  as Go's simple case mapping does. So with no library type, `x.G\u0130F` is served as
  `image/gif` (`Serve.DottedCapitalIGif`). Go lowers other non-ASCII letters too, but never
  to ASCII, so no other one can reach a key of the table.
- **The two programs read `;` in a path differently.** `urlparse` moves `;X` in the last
  segment out of the path, so the downloader stores `https://D/P;X?Q` as the file for
  `D/P` and the query. The server keeps `;X` in the request path and serves the file for
  `D/P;X` and the query (`Agreement.ParamsServedElsewhere`).
- **The two programs read `..` differently.** Go's `filepath.Clean` collapses a `..`
  component; `pathlib` keeps it. The agreement lemma therefore asks for a path without
  `..` and without `;`.
- **A literal `%7C` in a query names two different files.** The downloader sanitises the
  query without unquoting it (`post_process.py:69-70`), so `%7C` stays in the file name.
  The server turns `%7C` into `|` after sanitising (`serve.go:66-70`). So the query `%7C`
  is stored with the suffix `__%7C` and served from `__|`
  (`Agreement.LiteralEscapeServedElsewhere`). The agreement lemmas ask for a query
  without `%`.
- **The capture hook does not unquote the path.** The downloader unquotes `%XX` in the
  path (`post_process.py:68`), and so does Go's `url.Parse`. `sanitize_path` uses the
  path as `urlparse` gives it (`save_responses.py:16-17,36`). So a response for
  `https://D/a%20b` is captured as `D/a%20b`, while the downloader looks for, and the
  server serves, `D/a b`. The agreement lemmas ask for a path without `%`.
- **The request form of a query is an assumption.** The agreement lemmas take the query
  of the request as `Agreement.EncodePipes(Q)`, with `|` written as `%7C`, the form the
  server's decoding undoes. A client that sends `|` unencoded agrees as well: for a query
  without `%` the decoding changes nothing (`Agreement.RawPipeRoundTrip`).
- **Each group is replaced everywhere in the file, not where it was found**
  (`post_process.py:162-172`). A reference whose text contains another reference can be
  broken: by the first pass when the inner one is also a reference of its own, and by
  the second pass when the inner one is in the outer one's path or query, since the
  `//` pass then finds its `//`. See "## Findings".

## Model

| member | source | states |
|---|---|---|
| Text.LStrip | post_process.py:68 | the result is a suffix of the input that does not start with the character, and every character removed is that character |
| Text.RStrip | save_responses.py:36 | the result is a prefix of the input that does not end with the character, and every character removed is that character |
| Text.Strip | save_responses.py:36 | the result is a slice `s[i..j]` of the input that neither starts nor ends with the character, and everything cut off on either side is that character |
| Text.TrimPrefix | serve.go:32 | when the text starts with the prefix, it is the prefix followed by the result; otherwise the text is unchanged |
| Text.StripSpace | save_responses.py:50 | the result is a slice `s[i..j]` of the input with no whitespace at either end, everything cut off on either side is whitespace, and text already trimmed is unchanged |
| Text.LStripSpace | save_responses.py:50 | the result is a suffix of the input that does not start with whitespace, and everything removed is whitespace |
| Text.RStripSpace | save_responses.py:50 | the result is a prefix of the input that does not end with whitespace, and everything removed is whitespace |
| Text.IndexOf | post_process.py:103 | the index is the first occurrence of the character, or the length when it does not occur |
| Text.Before | post_process.py:103 | `split(c)[0]` is a prefix without `c`, and the whole text when `c` does not occur |
| Text.After | post_process.py:87 | the text is `Before`, the separator and the result when the separator occurs, and the result is empty otherwise |
| Text.Split | save_responses.py:36 | `split` yields at least one part and no part holds the separator |
| Text.MapChar | post_process.py:70 | the length is kept and exactly the matching characters are replaced |
| Text.LowerAscii | post_process.py:87 | lower-casing a scheme keeps the length and leaves no ASCII capital |
| Text.GoLower | serve.go:97 | `strings.ToLower` keeps the length, leaves no ASCII capital, and gives an ASCII character exactly for an ASCII character, U+0130 or U+212A |
| Text.ReplaceChar | post_process.py:70 | `str.replace` of one character by one character is the character map |
| Text.ReplaceAbsent | post_process.py:165 | `replace` of a pattern that does not occur leaves the text unchanged |
| Text.SplitConcat | save_responses.py:36 | splitting `a + sep + b` gives the parts of `a` followed by the parts of `b` |
| Text.SplitAppend | post_process.py:69-70 | appending text without the separator extends only the last part |
| Text.SplitNoSep | save_responses.py:36 | text without the separator splits into itself alone |
| Text.JoinSplit | save_responses.py:36 | joining the parts of a split gives back the text |
| Text.SplitJoin | save_responses.py:36 | splitting the join of separator-free parts gives back the parts |
| Text.JoinAppend | save_responses.py:36 | joining one more part appends the separator and that part |
| Text.IndexOfAt | post_process.py:163 | the first separator of `a + sep + b`, for `a` without it, is at the length of `a` |
| PyUrl.LStripC0 | post_process.py:87 | `urlsplit`'s leading strip leaves a suffix that starts above the space character |
| PyUrl.RemoveUnsafe | post_process.py:87 | tab, CR and LF are removed and nothing else is: text without them is unchanged |
| PyUrl.NetlocEnd | post_process.py:87 | the network location ends at the first `/`, `?` or `#` |
| PyUrl.LastIndexOf | post_process.py:87 | the index is the last occurrence of the character, or -1 when it does not occur |
| PyUrl.SplitParams | post_process.py:87 | `;params` are split from the last path segment without inventing characters |
| PyUrl.SplitNetloc | post_process.py:87 | `//netloc rest` is split back exactly, with no `/`, `?` or `#` in the netloc |
| PyUrl.UrlSplit | post_process.py:87 | the netloc has no `/`, `?` or `#`; the path has no `?` or `#`; the query has no `#` |
| PyUrl.UrlParse | post_process.py:87 | the same delimiter facts hold after the params split of `urlparse` |
| PyUrl.Unquote | post_process.py:68 | `unquote` returns text without `%` unchanged |
| PyUrl.ParseHttps | post_process.py:87 | `urlparse` of `https://host/path?query` gives exactly those fields |
| PyUrl.SplitHttps | post_process.py:87 | `urlsplit` of `https://host/path?query` gives exactly those fields |
| PyUrl.CleanHttps | post_process.py:87 | an https URL without tab, CR or LF passes the cleaning steps unchanged |
| PyUrl.NetlocHttps | post_process.py:87 | the netloc split stops at the host when a `/` or `?` follows it |
| PyUrl.QueryHttps | post_process.py:87 | the query split finds the path and the query of `path?query` |
| PyUrl.SchemeHttps | post_process.py:87 | `https:` is recognised as the scheme |
| PyUrl.NetlocEndAt | post_process.py:87 | the netloc end of `host + rest` is the end of the host |
| GoUrl.Unescape | serve.go:26 | text without `%` unescapes to itself |
| GoUrl.Parse | serve.go:26-30 | a control character before the fragment makes `url.Parse` fail |
| GoUrl.ParseReference | serve.go:26-30 | any control character is an error, and the raw query of input without `#` has no `#` |
| GoUrl.GetSchemeRest | serve.go:26 | the text after a scheme is made of characters of the input |
| PyUrl.ParseHttpsParams | post_process.py:87 | `urlparse` of `https://host/path;params?query` gives the path without `;params` and the params as a field of their own |
| PyUrl.ParseHttpsPlain | post_process.py:87 | `urlparse` of `https://host/path` with no `?` gives that host and path, no parameters and an empty query |
| PyUrl.SplitHttpsPlain | post_process.py:87 | `urlsplit` of the same URL gives that host and path and an empty query |
| GoUrl.ParsePathQuery | serve.go:26 | a request `/tail?query` without control characters parses to that path and raw query, with no scheme or host |
| GoUrl.ParsePlainPath | serve.go:26 | `url.Parse` of `/tail` with no `?`, for a tail without control characters, `?`, `#` and `%` that does not start with `/`, has that path and an empty raw query |
| Paths.Keep | post_process.py:71 | `pathlib` keeps no empty or `.` component and never adds components |
| Paths.Ext | serve.go:85 | `filepath.Ext` is a suffix that is empty or starts with the last `.` of the final element |
| Paths.KeepConcat | post_process.py:71 | filtering components distributes over concatenation |
| Paths.CleanWithoutDotDot | serve.go:74 | without `..`, `filepath.Clean` (`Paths.Clean`) drops exactly what `pathlib` drops |
| Paths.PyPartsSlash | post_process.py:68-71 | a leading `/` does not change the `pathlib` parts |
| Paths.PyPartsLStrip | post_process.py:68 | stripping leading slashes does not change the parts, even with text appended |
| Paths.PyPartsConcat | post_process.py:71 | the `pathlib` parts (`Paths.PyParts`) of `a/b` are those of `a` followed by those of `b` |
| Paths.KeepClean | post_process.py:71 | components with no empty or `.` entry are kept as they are |
| Paths.OsJoinSplit | save_responses.py:36 | `os.path.join(a, *parts)` (`Paths.OsJoin`) is `a/` followed by the parts joined with `/` |
| Paths.CleanJoined | serve.go:74 | text that is already clean is left unchanged by `filepath.Clean` |
| Paths.JoinFirst | save_responses.py:36 | a join starts with the first part's first character |
| Paths.OsJoinText | save_responses.py:36 | `os.path.join(a, *s.split('/'))` is `a/s` when `s` has no empty component |
| Capture.OsJoinPlain | save_responses.py:36 | `os.path.join(a, x)` is `a/x` when `a` does not end and `x` does not start with `/` |
| Paths.NoEmptyPartSingle | save_responses.py:36 | a non-empty name without `/` has no empty component |
| Paths.NoEmptyPartConcat | save_responses.py:36 | joining two paths without empty components with `/` keeps that property |
| Paths.NoEmptyPartAppend | save_responses.py:34-36 | appending a suffix without `/` keeps that property |
| Domains.SanitizeQuery | post_process.py:70 | the length is kept, each `/`, `:` and `?` becomes `_`, all else is kept, and no reserved character remains |
| Domains.QuerySuffix | post_process.py:69-70 | the suffix is empty for an empty query, otherwise `__` and the sanitised query, and it never contains `/` |
| Domains.WithScheme | post_process.py:84-85 | `https:` is prepended exactly to protocol-relative references, and every other URL is kept as it is |
| Domains.ProcessFilters | post_process.py:74-79 | the downloader's host filter `Domains.ShouldProcessDomain` is `save_responses.py`'s filter `Domains.CaptureShouldProcessDomain` (`save_responses.py:10-12`) minus exactly the panorama JSON host |
| Domains.EligibleHasQueryName | save_responses.py:29-32 | every host the downloader processes also gets its query in the captured file name |
| Domains.HostRoles | post_process.py:13-16 | render host: downloaded and rewritten. Static host: downloaded, not rewritten. Main site: not downloaded, not rewritten. Panorama JSON host: not downloaded |
| Domains.SanitizeIdempotent | post_process.py:70 | sanitising twice is sanitising once, and a query without reserved characters is unchanged |
| Domains.SanitizeCollision | post_process.py:70 | two queries sanitise to the same name if and only if they have the same length and, at every position, agree or both hold one of `/`, `:`, `?` and `_` |
| Expander.PlanItem | post_process.py:103-124 | variant 0 is the info record and variant 1 the 256-pixel resize, and no other index gives either |
| Expander.PlanIndex | post_process.py:103-124 | every variant has a position below 29 |
| Expander.Plan | post_process.py:103-124 | one face asks for 29 variants, the k-th being `PlanItem(k)` |
| Expander.DerivedUrl | post_process.py:103 | a variant URL keeps the text before the first `?` of the expanded URL, followed by `?` and a query |
| Expander.Derive | post_process.py:103-124 | the first n variants give n URLs |
| Expander.ExpandAllStep | post_process.py:97 | `Expander.ExpandAll`: each URL of the set appends its own requests after those of the URLs before it |
| Expander.PlanNumbering | post_process.py:103-124 | `PlanIndex` and `PlanItem` are inverse bijections between variants and 0..28 |
| Expander.QueryInjective | post_process.py:103-124 | different variants have different `x-oss-process` queries |
| Expander.PlanDistinct | post_process.py:103-124 | the 29 queries of a face are pairwise distinct |
| Expander.PlanCovers | post_process.py:103-124 | every variant (info, thumbnail, each tile at each resolution) is requested |
| Expander.PlanOrder | post_process.py:111-124 | info, thumbnail, then row by row, column by column, native/512/1024, at position `2 + 9y + 3x + r` |
| Expander.CropInPlan | post_process.py:111-124 | tile (x, y) at resolution r is variant `2 + 9y + 3x + r` |
| Expander.DeriveNext | post_process.py:103-124 | the variants are requested one after another in plan order |
| Expander.DerivePrefix | post_process.py:103-124 | a shorter run of the plan is a prefix of a longer one |
| Expander.FacesLength | post_process.py:99-124 | n faces give 30n requests |
| Expander.FacesAt | post_process.py:99-124 | face k's requests sit at positions 30k to 30k + 29 |
| Expander.FaceCallsShape | post_process.py:100-124 | a face asks for the expanded URL, then its 29 variants in plan order |
| Expander.ExpandUrlShape | post_process.py:97-126 | `Expander.ExpandUrl`: a template gives 180 requests, face by face in the order f, b, l, r, u, d; any other URL is requested once, unchanged |
| Expander.ReplacePrefix | post_process.py:100 | replacing `%s` leaves a prefix without `%` untouched |
| Expander.PlaceholderInQueryRepeats | post_process.py:100-124 | with `%s` only in the query, every face requests the same variant URLs, so the expansion has repeats |
| Expander.ExpandedBase | post_process.py:100-103 | expanding placeholders that all follow the `?` keeps the text before it |
| Scanner.NextSlash | post_process.py:25 | the host run `[^/]+` ends at the first `/` |
| Scanner.PathEnd | post_process.py:25 | the path run is the longest run of non-stop characters |
| Scanner.TailAt | post_process.py:25 | a tail match is a `/`-free host ending in `.kujiale.com`, then `/` and the path |
| Scanner.MatchAt | post_process.py:25 | what is found at a position is a match of the pattern in the declarative sense (`IsMatch`) |
| Scanner.FindAll | post_process.py:137 | each match found is the match at its start, and the matches do not overlap and come in increasing order |
| Scanner.FindAllLeftmost | post_process.py:137 | `findall` misses nothing: no match begins at a position that no returned match covers |
| Scanner.FreePosition | post_process.py:137 | the same for one uncovered position |
| Scanner.ScanStep | post_process.py:137 | one scan step either settles the position or moves forward and leaves it uncovered |
| Scanner.NotCoveredCons | post_process.py:137 | a position covered by no match of a list is covered by neither its head nor its rest |
| Scanner.NextSlashIs | post_process.py:25 | a host span is the one `NextSlash` finds |
| Scanner.PathEndIs | post_process.py:25 | a maximal path span is the one `PathEnd` finds |
| Scanner.MatchAtComplete | post_process.py:25 | every declarative match is the one `MatchAt` returns at its start, so the two agree both ways |
| Scanner.NotHttpsAt | post_process.py:25 | the `https:` alternative cannot match where a `/` stands |
| Scanner.TailAtComplete | post_process.py:25 | every host, slash and path span is found by `TailAt` |
| Scanner.MatchAtSlashes | post_process.py:25 | every match has `//` at its start or six characters later |
| Scanner.DomainPaths | post_process.py:160-161 | the groups of the matches are listed one per match, in order |
| Scanner.RewritePassStep | post_process.py:162-165 | a rewriting loop handles the groups one after another |
| Scanner.ExtractAndRewriteFile | post_process.py:129-178 | an unreadable file or one without matches leaves the set alone and writes nothing; otherwise render references are added and `Scanner.Rewrite` of the text, the two global-replacement passes of the code, is written |
| Scanner.RewriteHttpsReference | post_process.py:160-165 | `Scanner.Rewrite` turns `https://D/P`, for a kujiale.com host D that is not excluded and a path P of non-stop characters such that `/P` has no `//`, into `/D/P` |
| Scanner.RewriteProtocolReference | post_process.py:167-172 | `Scanner.Rewrite` turns the protocol-relative `//D/P` into `/D/P` under the same conditions |
| Scanner.RewriteFromSplice | post_process.py:158-172 | the corrected rewrite `Scanner.RewriteFixed` is the splice of the matches `re.findall` reports: each replaced where it stands, every character between them copied |
| Scanner.RewriteFixedReference | post_process.py:158-172 | `Scanner.RewriteFixed` turns every `https://D/P` and `//D/P` on a host that is not excluded into `/D/P`, whatever the path |
| Scanner.RewriteFixedNoMatch | post_process.py:158-172 | `Scanner.RewriteFixed` leaves a text without matches unchanged |
| Scanner.OnePass | post_process.py:160-172 | one pass over a single reference on a host that is not excluded replaces it by `/host/path` |
| Scanner.OneGroup | post_process.py:158-160 | the groups `re.findall` reports for a text that is one reference are its `host/path`, whose host is the reference's host |
| Scanner.PassOfOneGroup | post_process.py:162-165 | `Scanner.RewritePass` over one group whose host is not excluded is one global `str.replace` (`Scanner.RewriteGroup`) |
| Findings.RewriteBreaksNestedReference | post_process.py:158-172 | `Scanner.Rewrite` of `https://a.kujiale.com/x https://b.kujiale.com/q?https://a.kujiale.com/x` is `/a.kujiale.com/x https:/b.kujiale.com/q?/a.kujiale.com/x` |
| Findings.RewriteFixedKeepsNestedReference | post_process.py:158-172 | `Scanner.RewriteFixed` of the same text is `/a.kujiale.com/x /b.kujiale.com/q?https://a.kujiale.com/x` |
| Findings.RewriteBreaksQueryReference | post_process.py:158-172 | `Scanner.Rewrite` of the single reference `https://b.kujiale.com/q?https://a.kujiale.com/x` is `/b.kujiale.com/q?https:/a.kujiale.com/x` |
| Findings.RewriteFixedKeepsQueryReference | post_process.py:158-172 | `Scanner.RewriteFixed` of it is `/b.kujiale.com/q?https://a.kujiale.com/x` |
| Scanner.QueueRenderUrls | post_process.py:141-152 | the set grows by exactly the queued references of the matches |
| Scanner.QueuedStep | post_process.py:141-152 | one match adds its reference, with scheme, exactly when its host is the render host |
| Scanner.RewriteLoop | post_process.py:158-172 | the loop's text is the rewriting pass over the matches' groups |
| Scanner.QueuedOnRenderHost | post_process.py:141-152 | everything queued is an `https://qhrenderpicoss.kujiale.com/...` URL |
| Scanner.ReferenceShape | post_process.py:150-151 | a reference with its scheme is `https://`, the host, `/` and the path |
| Scanner.SchemeOfLead | post_process.py:150-151 | both leads of the pattern become `https://` |
| Scanner.QueuedExactly | post_process.py:141-152 | `Scanner.Queued`: a URL is queued if and only if some match on the render host has it as its reference with scheme |
| Scanner.QueuedComplete | post_process.py:141-152 | every render-host match is queued |
| Scanner.QueuedSound | post_process.py:141-152 | everything queued comes from a render-host match |
| Scanner.RewritePassExcluded | post_process.py:162-172 | a pass whose groups all have excluded hosts does not change the text |
| Scanner.GroupHost | post_process.py:163 | `domain_path.split('/')[0]` is the match's host |
| Scanner.RewriteExcludedOnly | post_process.py:158-172 | a file whose references are all on the main site or the static host is not changed by rewriting |
| Scanner.PassExcluded | post_process.py:160-172 | one pass over only excluded hosts leaves the text as it is |
| Scanner.NoDoubleSlashNoMatch | post_process.py:137-139 | a text with no `//` has no match, so it is neither queued from nor written |
| Scanner.UrlSet.constructor | post_process.py:129 | the download set starts empty |
| Downloader.NormalizePath | post_process.py:65-71 | the stored path starts with `webroot` and has no empty or `.` component |
| Downloader.Ancestors | post_process.py:56 | `makedirs` of the parent creates each proper prefix of the path, never the path itself |
| Downloader.DownloadFile | post_process.py:45-62 | an existing path or a `/download` path does nothing; otherwise one fetch is recorded, the parents are created, and the file exists if and only if the request succeeded; a path is its unresolved part list |
| Downloader.HandleUrl | post_process.py:82-92 | a URL whose host the filter rejects changes nothing |
| Downloader.DownloadAllUrls | post_process.py:95-126 | the URLs handed to `handle_url` are the expansion of the set in iteration order, and the disk has seen each of them in turn |
| Downloader.RequestAll | post_process.py:97-126 | the loops request the expansion of the URLs, for any handler |
| Downloader.VisitUrl | post_process.py:98-126 | one URL of the set adds its expansion: the faces of a template, or the URL itself |
| Downloader.VisitTemplate | post_process.py:99-124 | a template adds the requests of its six faces in suffix order |
| Downloader.VisitFace | post_process.py:100-124 | one face adds the expanded URL and its 29 variants |
| Downloader.VisitTiles | post_process.py:111-124 | the grid loops add variants 2 to 28 of the plan |
| Downloader.VisitRow | post_process.py:112-124 | row y adds variants `2 + 9y` to `10 + 9y` |
| Downloader.VisitTile | post_process.py:113-124 | tile (x, y) adds its native, 512 and 1024 variants |
| Downloader.VisitVariant | post_process.py:103-124 | one request adds the next variant of the plan |
| Downloader.Visit | post_process.py:101 | one `handle_url` call appends its URL and applies the handler |
| Downloader.DownloadIdempotent | post_process.py:45-62 | once the file is stored or skipped, downloading it again changes nothing |
| Downloader.HandleUrlConsistent | post_process.py:82-92 | `handle_url` keeps the disk consistent (only eligible, non-`/download` fetches to the normalised path; stored files exist; no part list that was stored fetched twice) and only adds paths and fetches |
| Downloader.DownloadFileConsistent | post_process.py:45-62 | a fetch the guards let through keeps the disk consistent, with no stored part list fetched twice, and only adds |
| Downloader.AppendFetchConsistent | post_process.py:45-62 | recording one allowed fetch to a new path keeps consistency |
| Downloader.AppendStored | post_process.py:57-60 | a successful fetch leaves its file existing, and earlier stored files stay |
| Downloader.AppendNoRefetch | post_process.py:47-48 | a part list that did not exist was never stored, so the new fetch refetches no stored part list |
| Downloader.HandleAllConsistent | post_process.py:95-126 | `Downloader.HandleAll`: any sequence of `handle_url` calls keeps the disk consistent (no stored part list fetched twice), only adds paths, and only extends the fetch record |
| Downloader.ProtocolRelativeIsHttps | post_process.py:84-85 | `//host/...` is handled exactly like `https://host/...` |
| Agreement.DotDotKeptInParts | post_process.py:65-71 | `https://D/A/../F` is stored under the parts `webroot`, D, A, `..`, F and `https://D/F` under `webroot`, D, F: `pathlib` keeps `..`, so two URLs the operating system stores in one file get two paths |
| Agreement.DotDotParts | post_process.py:71 | the parts of `D/A/../F` are D, A, `..` and F |
| Downloader.NormalizeNoQuery | post_process.py:67-71 | with no query, the path is `webroot`, the host and the components of the unquoted path |
| Downloader.NormalizeQuery | post_process.py:69-70 | with a query, the file name ends with `__` and the sanitised query, which holds no `/`, `:` or `?` |
| Downloader.PyPartsAppend | post_process.py:69-71 | the query suffix ends up at the end of the last component |
| Capture.MediaType | save_responses.py:50 | the media type holds no `;` and no outer whitespace, and a header already in that form is kept |
| Capture.Response | save_responses.py:39-65 | an empty body stores nothing; otherwise the body is stored unchanged under `sanitize_path(url)`, in text mode exactly when the media type is a text type |
| Capture.IndexBeforeSuffix | save_responses.py:20-34 | a directory-like path is stored as `index.html`, with the query suffix after that name |
| Capture.NestedIndex | save_responses.py:20-26 | a directory-like path is stored as `index.html` |
| Capture.LStripSuffix | save_responses.py:26 | stripping leading slashes keeps a suffix that does not start with one |
| Capture.OsJoinEnds | save_responses.py:26 | joining one component keeps that component's suffix |
| Capture.NestedUnderHost | save_responses.py:24-26 | the main site's path is not prefixed; any other host gets a directory of its own |
| Capture.SuffixExactly | save_responses.py:29-34 | the query is in the name if and only if it is non-empty and the host contains `kujiale.com` and is neither the panorama JSON host nor the main site |
| Capture.CaptureSubdomain | save_responses.py:15-36 | `Capture.SanitizePath`: a subdomain response is stored as `./webroot/<host>/<path>`, plus the query suffix when the host admits one |
| Capture.ParseSlashPath | save_responses.py:16 | `urlparse` of `https://host/p?q` gives host, `/p` and q |
| Capture.SanitizeSlashPath | save_responses.py:15-36 | `sanitize_path` of such a URL depends only on those three fields |
| Capture.SanitizeParsed | save_responses.py:15-36 | `sanitize_path` depends on the URL only through its parse |
| Capture.SlashPathIndex | save_responses.py:20-26 | a path with non-empty components names a file, so it gets no `index.html` |
| Capture.SlashFile | save_responses.py:20-26 | `/p` for a `p` without outer slashes gets no `index.html`, and stripping gives `p` |
| Capture.NoIndexForFile | save_responses.py:20-21 | a path not ending in `/` gets no `index.html` |
| Capture.SubdomainRel | save_responses.py:24-36 | for a subdomain, the relative name is host, path and suffix, with no outer slash |
| Capture.CaptureMainSite | save_responses.py:15-36 | a main-site response is stored under its path alone, whatever its query |
| Capture.MainDomainPlain | save_responses.py:7 | the main site's name holds no URL delimiter |
| Capture.MainSiteRel | save_responses.py:24-36 | for the main site, the relative name is the path alone |
| Capture.MainSiteShadowsHost | save_responses.py:24-36 | a main-site path that starts with a host name is stored where that host's file would be |
| Capture.PartsOfText | save_responses.py:36 | text with no empty component has no outer slash |
| Capture.OuterSlashParts | save_responses.py:36 | a leading slash gives an empty first component, a trailing one an empty last component |
| Capture.StripUnchanged | save_responses.py:36 | a relative name with no outer slash is unchanged by `strip("/")` |
| Capture.MediaTypeParams | save_responses.py:50 | parameters after the first `;` do not count in the media type |
| Capture.TextTypeWithParams | save_responses.py:50-55 | a text type stays in text mode whatever parameters follow it |
| Capture.TextTypeHead | save_responses.py:53-55 | every text type (`Capture.IsTextType`) starts with `t` or `a` |
| Capture.MissingHeaderIsBinary | save_responses.py:50-63 | a response without `content-type` is stored in binary mode |
| Serve.MatchDomain | serve.go:35-36 | a match of the domain pattern satisfies its independent reading (`PatternMatch`) |
| Serve.ServeSuffix | serve.go:62-70 | the server's suffix starts with `__` and holds no `/`, `:` or `?` |
| Serve.RequestFile | serve.go:32-72 | main-site requests name the path itself; a domain request names `domain/subpath`; the suffix ends the name whenever its condition holds |
| Serve.TranslatePath | serve.go:25-82 | a request that does not parse is joined to the base directory; otherwise the named file under the base directory is served, or its `index.html` |
| Serve.GetContentType | serve.go:84-121 | a type is given only for a name with an extension; the library's answer wins whenever it has one; otherwise the result is the fallback table on the extension lowered by `strings.ToLower` |
| Serve.FallbackType | serve.go:96-118 | the table gives a type exactly for its twelve keys |
| Serve.DottedFallback | serve.go:84-118 | `name.x` with no library type for `.x` gets the fallback type of `.x` lowered |
| Serve.DottedCapitalIGif | serve.go:97-111 | with no library type, `name.G\u0130F` is served as `image/gif` |
| Serve.LowerHtml | serve.go:97-99 | `strings.ToLower(".HTML")` is `.html`, a key of the table |
| Serve.ReplaceAllChars | serve.go:62-70 | a replacement leaves only original characters and replacement text |
| Serve.MatchDomainIsPattern | serve.go:35-36 | the hand-written matcher and the pattern's reading agree in both directions |
| Serve.FirstSegment | serve.go:35-36 | the first segment is everything before the first `/` |
| Serve.ParseErrorFallback | serve.go:26-30 | a request that does not parse is served from the raw text, whatever the directory oracle says |
| Serve.ControlCharFallback | serve.go:26-30 | a control character before any `#` makes the request fall back to the raw text |
| Serve.ServeSubdomain | serve.go:32-78 | `/D/P?Q` for a kujiale.com subdomain is served from `D/P` plus the suffix when its condition holds |
| Serve.TranslateParsed | serve.go:32-78 | a parsed request is served from its named file, subject to the directory check |
| Serve.SegmentRequest | serve.go:26-36 | the request `/D/P?Q` parses to path `/D/P` and raw query Q, and the pattern splits it at D |
| Serve.SegmentMatch | serve.go:35-36 | a kujiale.com first segment followed by `/P` matches with domain D and rest `/P` |
| Serve.SubdomainFile | serve.go:50-72 | a subdomain request names `D/P`, followed by the suffix exactly when its condition holds |
| Serve.WwwIgnoresQuery | serve.go:41-48 | two requests for the same main-site path with different queries are served the same file |
| Serve.MainDomainShape | serve.go:18 | the main site's name is a kujiale.com host name without `/` |
| Serve.WwwRequest | serve.go:41-48 | a main-site request is served from its path, resolved by the directory check |
| Serve.QueryMentionsMainSite | serve.go:58-61 | a request whose query contains `www.kujiale.com` never gets a suffix |
| Serve.FallbackIgnoresCase | serve.go:96-118 | two extensions that agree after lower-casing get the same fallback type |
| Serve.UpperCaseHtml | serve.go:97-99 | without a library type, `.HTML` is served as `text/html` |
| Serve.ExtOfDotted | serve.go:85 | `name.x` with no further dot or slash has extension `.x` |
| Agreement.EncodePipes | serve.go:66-70 | the request form the agreement lemmas assume for a query, `|` written as `%7C`: it is non-empty for a non-empty query and uses only the query's characters and `%7C` |
| Agreement.PipeRoundTrip | serve.go:62-70 | for a non-empty query without `%`, the server's suffix of the encoded query is the downloader's suffix for the query |
| Agreement.RawPipeRoundTrip | serve.go:62-70 | for a non-empty query without `%` sent as it is, the server's suffix is again the downloader's |
| Agreement.LiteralEscapeServedElsewhere | serve.go:66-70 | the query `%7C` gets the suffix `__%7C` from the downloader and `__|` from the server |
| Agreement.SanitizeEncode | serve.go:62-70 | sanitising and encoding the pipe character commute |
| Agreement.SanitizeConcat | post_process.py:70 | sanitising works character by character over concatenation |
| Agreement.DecodeEncode | serve.go:70 | decoding `%7C` undoes the encoding of text without `%` |
| Agreement.NoDotDotFile | serve.go:74 | a host directory, a path without `..` and a suffix have no `..` component |
| Agreement.BaseDirSplit | serve.go:74 | `./webroot/` plus a file splits into `.`, `webroot`, an empty component, then the file's components |
| Agreement.SplitTwoDirs | serve.go:74 | the same for any two directory names without `/` |
| Agreement.GoJoinBase | serve.go:74 | `filepath.Join(BASE_DIR, file)` (`Paths.GoJoin`) is the downloader's `webroot/...` string when the file has no `..` |
| Agreement.DownloadParts | post_process.py:65-71 | the downloader stores `https://D/P?Q` under `webroot`, then the parts of `D/P__Q'` |
| Agreement.NormalizeSlashPath | post_process.py:65-71 | for a path `/p` without escapes, the stored parts are host, p and the suffix |
| Agreement.SlashPathParts | post_process.py:68 | unquoting and stripping `/p` without `%` gives the same parts as p |
| Agreement.ServedFileIsDownloadedFile | serve.go:25-82 | for a rewritten `/D/P?Q` whose query is sent as `EncodePipes(Q)`, the server serves exactly the file the downloader stored for `https://D/P?Q`, when: D is an eligible host longer than `.kujiale.com` and without `/`; `D/P` has no control character, `?`, `#`, `%` or `;`; no component of P is `..`; Q is non-empty and has no control character, `#` or `%`; and the request names neither the main site nor the panorama JSON host |
| Agreement.BareReferenceAgreement | serve.go:25-82 | for a rewritten `/D/P` with no `?`, under the same conditions on D and P, the server serves the file the downloader stored for `https://D/P`, with no suffix |
| Agreement.EmptyQueryAgreement | serve.go:25-82 | the same for `/D/P?` with an empty query and the downloader's `https://D/P?` |
| Agreement.ServedBare | serve.go:25-82 | the server serves `/D/P` from `D/P` under the base directory, with no suffix |
| Agreement.ServedEmptyQuery | serve.go:25-82 | the server serves `/D/P?`, whose raw query is empty, from `D/P` under the base directory, with no suffix |
| Agreement.DownloadedBare | post_process.py:65-71 | the downloader stores `https://D/P` under `webroot`, then the parts of `D/P` |
| Agreement.DownloadedEmptyQuery | post_process.py:65-71 | the downloader stores `https://D/P?` the same way, with no suffix |
| Agreement.NoDotDotPath | serve.go:74 | a host directory followed by a path without `..` has no `..` component |
| Agreement.ParamsServedElsewhere | serve.go:32-54 | with `;X` after P, the server serves the file for `D/P;X` and the query, while the downloader stores the file for `D/P` and the query |
| Agreement.ServedSide | serve.go:32-78 | the encoded request is served from `D/P__sanitised(Q)` |
| Agreement.EncodedQueryChars | serve.go:26 | encoding the pipe character adds no control character or `#` |
| Agreement.SuffixHolds | serve.go:58-61 | the encoded request of a kujiale.com host qualifies for the query suffix |
| Agreement.CdnRequest | serve.go:59 | a request under a kujiale.com host contains `.kujiale.com/` |
| Agreement.PathChars | post_process.py:87 | the server lemma's character conditions give those `urlparse` needs |
| Agreement.CaptureWhereDownloadLooks | save_responses.py:15-36 | the capture hook stores a response for `https://D/P?Q` at `./` followed by the downloader's path for the same URL, when: D is an eligible host without `/`, `?`, `#` or `;`; P has no `?`, `#`, `;` or `%`; Q has no `#`; none holds a tab, CR or LF; and P is non-empty with no component that is empty, `.` or `..` |
| Agreement.JoinFirstPart | post_process.py:71 | `webroot` joined in front of parts gives `webroot/` and their join |
| Agreement.PlainParts | post_process.py:71 | the parts of `D/P` plus a suffix are its plain components when none is empty or `.` |
| Agreement.PlainList | post_process.py:71 | such components pass the `pathlib` filter unchanged |
| Agreement.FallbackTextTypes | serve.go:96-118 | the capture hook stores in text mode exactly the fallback types for HTML, JavaScript, CSS, JSON and plain text |

## Left out

- Network I/O (`requests.get`) is the parameter `saved`. Timeouts, HTTP status codes and the response body are not modelled; a request either stores the file or fails.
- Disk I/O is not modelled in detail:
  - `read_text`, `write_text` and the binary and text writes of the capture hook are the
    values they read or write;
  - a failing write is not modelled;
  - `os.makedirs` is assumed to succeed.
- `Scanner.ExtractAndRewriteFile`: `os.makedirs(domain_dir)` in the queue loop (`post_process.py:154-155`) is not modelled, so the model's disk does not gain `webroot/qhrenderpicoss.kujiale.com`. The directory is read later: a queued URL whose path is empty or `/` and has no query, such as `https://qhrenderpicoss.kujiale.com/#x`, normalises to that directory, and the existence test at `post_process.py:47` finds it and skips the request. `Downloader.DownloadAllUrls` started on a disk without that directory records a fetch for such a URL that the program does not make.
- The capture hook's `makedirs` (`save_responses.py:48`) is not modelled either.
- `is_text_file`, `add_redirect_to_airoaming`, the `rglob` driver loop and `main` of `post_process.py` are outside the model, as are mitmproxy's flow objects, `ServeHTTP`, the HTTP server and `main` of `serve.go`.
- `print`, `log.Printf` and `fmt.Printf` are left out: they produce no state the model needs.
- `get_download_path` is inlined as `webroot` followed by the host, the only way it is used.
- `Downloader.DownloadAllUrls`: the iteration order of the Python set is a sequence parameter, because set order is not part of the language's semantics.
- `Downloader.DownloadFile`: a stored file is identified by its unresolved `pathlib` part list. The operating system's resolution of `..` and of symbolic links in `exists()`, `os.makedirs` and the write (`post_process.py:47-60`) is not modelled. So `https://R/a/../b.jpg` and `https://R/b.jpg` are two paths to the model and one file to the program (`Agreement.DotDotKeptInParts`).
- `Downloader.HandleUrlConsistent`: "no stored file fetched twice" holds for part lists. For files it holds only for URLs whose paths have no `..` component: with `webroot/R/a` missing, the program fetches `webroot/R/b.jpg` through `https://R/b.jpg` and again through `https://R/a/../b.jpg`.
- `Downloader.DownloadFileConsistent`: the same gap. Its no-refetch part holds for part lists, and for files only without `..`.
- `Downloader.AppendNoRefetch`: the same gap. A part list that did not exist was never stored, but a file the operating system reaches through `..` may have been.
- `Downloader.HandleAllConsistent`: its `NoRefetch` conjunct has the same gap, for part lists rather than files, when a URL's path has a `..` component.
- `PyUrl.UrlSplit`: the `ValueError` cases of `urlsplit` (malformed IPv6 netlocs) and its parse cache are not modelled; the netloc is taken as text.
- `GoUrl.Unescape`: each `%XX` decodes to the character with that code (Latin-1), while Go produces the bytes, which `strings.ToLower` then reads as UTF-8. So an escaped name such as `x.%C4%B0F` is not lowered as Go lowers it: Go reads U+0130 and maps it to `i`, while the model keeps two Latin-1 characters. The U+0130 and U+212A handling of `Text.GoLower` applies to names that reach the server unescaped.
- `PyUrl.Unquote`: `%XX` escapes decode to the character with that code (Latin-1). The UTF-8 decoding of multi-byte escapes and the replacement of invalid sequences are not modelled.
- `GoUrl.Parse`: user information, ports, IPv6 hosts and `RawPath` are not modelled. The server uses only the path and the raw query of root-relative requests, which have no authority.
- `Capture.Response`: the UTF-8 decoding of text-mode bodies with `errors='replace'` is not modelled; the bytes are kept as they are and only the mode is recorded.
- `Serve.GetContentType`: `mime.TypeByExtension` is the parameter `typeByExtension`, since its table depends on the host system.
- `Serve.TranslatePath`: `os.Stat(...).IsDir()` is the parameter `isDir`, since it depends on the filesystem.
- `Text.GoLower`: Go's lower-casing of non-ASCII letters other than U+0130 and U+212A is not modelled; those characters are kept. Go never lowers them to ASCII, so the fallback lookup is the same.
- `Domains.CaptureShouldProcessDomain`: `save_responses.py` defines it but its `response` hook never calls it, so it appears only in `Domains.ProcessFilters`.
- `Scanner.Rewrite` has no general coverage lemma. A reference inside another reference can be broken, by the first pass or by the second (see "## Findings"). Coverage is proved for a text that is one reference and has no `//` after its host (`Scanner.RewriteHttpsReference`, `Scanner.RewriteProtocolReference`), and in general for the corrected `Scanner.RewriteFixed`.
- `Scanner.RewriteFixed` departs from the code in two ways. A reference that is also the tail of another's query keeps its first-pass copy, and a `//host/path` inside another reference's path or query is not rewritten by a second pass. In both cases only the outer match is replaced, since the matches of one scan do not overlap.
- The ordering of `extract_and_rewrite_file` calls across files is not modelled. Each call is modelled on its own against the shared `Scanner.UrlSet`.

## Findings

| source | as written | input that shows it | evidently intended | confidence | as-written member | corrected member |
|---|---|---|---|---|---|---|
| post_process.py:158-172 | each group is replaced by a global `str.replace`, so a reference that contains another reference is changed by that reference's replacement before its own pass sees it | `https://a.kujiale.com/x https://b.kujiale.com/q?https://a.kujiale.com/x` becomes `/a.kujiale.com/x https:/b.kujiale.com/q?/a.kujiale.com/x` | each match is replaced where it stands, giving `/a.kujiale.com/x /b.kujiale.com/q?https://a.kujiale.com/x` | not executed | Findings.RewriteBreaksNestedReference | Scanner.RewriteFixed |
| post_process.py:167-172 | the `//` pass runs over the output of the `https://` pass, so it finds the `//` of a reference nested in the path or query of one already rewritten | `https://b.kujiale.com/q?https://a.kujiale.com/x` becomes `/b.kujiale.com/q?https:/a.kujiale.com/x` | the outer reference is replaced and the nested one is kept, giving `/b.kujiale.com/q?https://a.kujiale.com/x` | not executed | Findings.RewriteBreaksQueryReference | Scanner.RewriteFixed |

The corrected rewrite is one scan with `URL_PATTERN`: where a match begins it is replaced by
`/host/path`, or kept when its host is excluded, and every other character is copied
(`Scanner.RewriteFrom`). `Scanner.RewriteFromSplice`, `Scanner.RewriteFixedReference`,
`Scanner.RewriteFixedNoMatch`, `Findings.RewriteFixedKeepsNestedReference` and
`Findings.RewriteFixedKeepsQueryReference` state its properties.
`Scanner.ExtractAndRewriteFile` keeps the code's two passes, so that it states what the
program writes. The agreement between downloader and server starts from the rewritten
reference `/D/P?Q` or `/D/P`. The corrected `Scanner.RewriteFixedReference` gives that
for every reference. The program as written gives it when the path has no `//` after the
host (`Scanner.RewriteHttpsReference`).
