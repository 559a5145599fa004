# Crawler bookkeeping model

A Dafny model of the bookkeeping shared by the two crawler scripts of this
repository, `usr/58.py` (the `CrawlerCompleto` pipeline) and
`usr/share/crawler/crawler.py` (`SophisticatedCrawler`):

- link discovery and dedup: resolved anchor hrefs are added to `visited_urls`;
  in `crawler.py` a URL goes to `_store_url` only the first time it is seen;
- asset recording: every `<script src>` and then every `<img src>` is appended
  to the `assets` table, with no dedup;
- the two database tables: `urls` (UNIQUE url, written with `INSERT OR IGNORE`)
  as a `map<Url, string>` from URL to status, and `assets` (append-only) as a
  sequence of rows;
- the guards: proxy rotation on a possibly empty pool, the Content-Type gate
  before extraction, and the `http://`/`https://` check on the seed URL.

HTML parsing, URL resolution and HTTP are inputs. `urljoin` is a parameter of
type `Resolver`, so every property holds for any total resolver. What BeautifulSoup
finds is a `Page` of hrefs and srcs in document order. A request is a
`FetchOutcome`: `RequestFailed` (any `RequestException`, including the
`HTTPError` of `raise_for_status`) or `Fetched` with its Content-Type header.
A database file that already exists keeps its rows: constructors take the
tables' prior contents.

Files: `crawl_types.dfy` (shared values), `content_type.dfy` (the HTML gate),
`politeness.dfy` (proxy rotation), `discovery.dfy` (the dedup walk `NewUrls`
and its lemmas), `storage.dfy` (the two tables), `crawler58.dfy` (the classes of
`usr/58.py`), `crawler.dfy` (`SophisticatedCrawler` and the entry point).

`Discovery.NewUrls(seen, us)` is the sequence of URLs that pass the check
`full_url not in self.visited_urls` during one walk over the resolved hrefs
`us`, starting from the visited set `seen`. The class `SophisticatedCrawler`
keeps a ghost log `storeCalls` of every URL handed to `_store_url`, and its
invariant `Valid()` says the log has no duplicates and holds exactly the
visited URLs.

Neither script normalizes URLs, keeps a status other than `"pending"`,
queues work, retries, or follows links from page to page. In `crawler.py`
extraction writes to storage as it goes; in `58.py` extraction only fills
`visited_urls`, `ejecutar` stores the whole visited set after `parse`, and no
asset row is ever written. Both scripts carry a defect that stops them partway
(see "## Findings"): each is modelled as written, and the rest of the model
uses the corrected definition.

## Model

| member | source | states |
|---|---|---|
| `Politeness.RotateProxy` | usr/58.py:23-27 | returns `None` exactly when the pool is empty, otherwise a member of the pool |
| `Crawler58.Configuracion.RotateProxy` | usr/58.py:23-27 | `rotate_proxy` of `Configuración`: `None` iff the configured pool is empty, otherwise a member of it |
| `Crawler58.NewConfiguracion` | usr/58.py:18-21 | a missing proxy list, or an empty one, gives the empty pool; a given list is kept; the path is kept |
| `Crawler58.RotateWithoutProxyList` | usr/58.py:18-27 | with no proxy list given, rotation yields `None`, not an error |
| `Crawler58.ExtraccionUrls.constructor` | usr/58.py:36-38 | starts with no visited URL |
| `Crawler58.ExtraccionUrls.Parse` | usr/58.py:40-57 | a failed request or a non-HTML Content-Type leaves `visited_urls` unchanged; otherwise every resolved anchor is added |
| `Crawler58.ExtraccionUrls.ExtraerLinks` | usr/58.py:59-67 | `visited_urls` becomes its old value plus every resolved href, nothing removed; over hrefs already visited it changes nothing (idempotent) |
| `Crawler58.AnalisisDinamico.constructor` | usr/58.py:71-72 | no driver, no browser running |
| `Crawler58.AnalisisDinamico.IniciarSelenium` | usr/58.py:74-78 | a driver is set and its browser is running |
| `Crawler58.AnalisisDinamico.CerrarSelenium` | usr/58.py:87-90 | quits the browser only when a driver was set; the driver reference is not cleared |
| `Crawler58.Almacenamiento.constructor` | usr/58.py:94-118 | the tables start with the rows the database file already held |
| `Crawler58.Almacenamiento.AlmacenarUrl` | usr/58.py:120-127 | insert-or-ignore: an existing URL keeps its status, a new one gets the given status, no other row changes, assets untouched |
| `Crawler58.Almacenamiento.AlmacenarAsset` | usr/58.py:129-136 | appends exactly the row `(url, asset_type, asset_url)`; earlier rows and the urls table unchanged |
| `Crawler58.CrawlerCompleto.constructor` | usr/58.py:140-144 | wires a configuration with the default database path, an empty extractor, a closed browser and the database |
| `Crawler58.CrawlerCompleto.StoreVisited` | usr/58.py:151-152 | after the store loop every visited URL is a key of the urls table; existing keys keep their status; new keys are `"pending"` |
| `Crawler58.CrawlerCompleto.EjecutarAsWritten` | usr/58.py:146-161 | parse then store as above; with any visited URL it raises (the render's WebDriver fault, else `AttributeError` on `analizar_con_selenium`) and leaves the browser running; with none it completes and quits the browser; either way `self.driver` stays set |
| `Crawler58.CrawlerCompleto.Ejecutar` | usr/58.py:146-161 | with line 158 removed: parse then store as above; completes exactly when every visited URL renders to a page with a `<title>`, and then quits the browser; otherwise raises the failing render's error (WebDriver fault, or `AttributeError` of `soup.title.string`) with the browser left running; either way `self.driver` stays set |
| `Crawler58.ScriptRunLeavesBrowserRunning` | usr/58.py:163-170 | the script's run with no proxy list (direct connection), on an HTML page with one link whose rendering has a title, raises `AttributeError` and leaves the browser running |
| `Crawler58.ScriptRunCorrected` | usr/58.py:163-170 | the same run with the missing call removed completes, quits the browser and stores exactly the discovered URL |
| `Crawler58.ScriptRunCorrectedUntitled` | usr/58.py:156-161 | the corrected run on a page rendered without `<title>` still raises, at the title print, with the browser left running |
| `ContentType.Contains` | usr/58.py:49 | Python's `in` on strings: true iff the substring occurs at some index |
| `ContentType.IsHtml` | usr/share/crawler/crawler.py:82 | true iff the header (absent reads as `''`) contains `text/html`; an absent or short header is never HTML; one starting with `text/html` always is |
| `Storage.InsertOrIgnore` | usr/58.py:124-126 | `INSERT OR IGNORE` on a UNIQUE key: keys grow by the URL, existing statuses are kept, a new URL gets the given status |
| `Storage.InsertOrIgnoreEach` | usr/58.py:151-152 | inserting a set of URLs with one status: keys are the union, existing statuses kept, new keys get the status |
| `Storage.Rows` | usr/share/crawler/crawler.py:118-126 | one row per src, in document order, each with the page as source, the tag kind and the resolved src |
| `Storage.AssetRowsLayout` | usr/share/crawler/crawler.py:116-126 | `_extract_assets` writes exactly `|scripts| + |imgs|` rows, all script rows before all image rows, each in document order, each with `base_url` as its source |
| `Storage.Database.constructor` | usr/58.py:98-118 | the tables hold the prior rows of the database file |
| `Storage.Database.InsertOrIgnoreUrl` | usr/58.py:124-126 | the urls table becomes `InsertOrIgnore` of the old one; assets unchanged |
| `Storage.Database.InsertAsset` | usr/58.py:133-135 | appends exactly one row; earlier rows and the urls table unchanged |
| `Discovery.NewUrlsLength` | usr/share/crawler/crawler.py:108-113 | the dedup walk `NewUrls` (the URLs that pass `full_url not in visited_urls`, in the order they pass) stores at most one URL per href |
| `Discovery.NewUrlsConcat` | usr/share/crawler/crawler.py:108-113 | walking `a + b` stores what walking `a` stores, then what walking `b` stores with `a` already visited |
| `Discovery.NewUrlsSnoc` | usr/share/crawler/crawler.py:110-113 | one more href is stored exactly when its URL is neither visited before nor among the earlier hrefs |
| `Discovery.NewUrlsElems` | usr/share/crawler/crawler.py:111-113 | the URLs stored in one walk are exactly the resolved URLs that were not yet visited |
| `Discovery.NewUrlsNoDuplicates` | usr/share/crawler/crawler.py:111-113 | no URL is stored twice in one walk |
| `Discovery.NewUrlsOfVisited` | usr/share/crawler/crawler.py:111 | a walk over already-visited URLs stores nothing |
| `Discovery.FirstOccurrenceOrder` | usr/share/crawler/crawler.py:108-114 | the stored URLs follow the first-occurrence order of the resolved hrefs |
| `Discovery.NewUrlsAfterVisited` | usr/share/crawler/crawler.py:110-113 | after hrefs whose URLs were all visited, the first unvisited URL is the first one stored, and the walk continues with it marked visited |
| `Crawler.SophisticatedCrawler.constructor` | usr/share/crawler/crawler.py:18-23 | no URL visited, `proxy_list or []`, the database as found at the path |
| `Crawler.SophisticatedCrawler.RotateProxy` | usr/share/crawler/crawler.py:65-69 | `None` iff the pool is empty, otherwise a member of the pool |
| `Crawler.SophisticatedCrawler.StoreUrlAsWritten` | usr/share/crawler/crawler.py:47-54 | the call always raises `AttributeError` on `self.h` and writes nothing |
| `Crawler.SophisticatedCrawler.StoreUrl` | usr/share/crawler/crawler.py:47-54 | corrected store: insert-or-ignore of the URL with its status; assets unchanged |
| `Crawler.SophisticatedCrawler.StoreAsset` | usr/share/crawler/crawler.py:56-63 | appends exactly the row `(url, asset_type, asset_url)`; urls table unchanged |
| `Crawler.SophisticatedCrawler.ExtractLinksAsWritten` | usr/share/crawler/crawler.py:106-114 | if some resolved URL is new, the first one is added to `visited_urls`, handed to `_store_url`, and the call raises with the database untouched; otherwise nothing changes |
| `Crawler.SophisticatedCrawler.ExtractLinks` | usr/share/crawler/crawler.py:106-114 | with the corrected `_store_url`: visited grows by all resolved hrefs; stored URLs are exactly the new ones, once each, in first-occurrence order, as `"pending"`; the store-once invariant is kept; assets untouched |
| `Crawler.SophisticatedCrawler.ExtractAssets` | usr/share/crawler/crawler.py:116-126 | appends the script rows then the image rows, no dedup; urls table and `visited_urls` untouched |
| `Crawler.SophisticatedCrawler.Parse` | usr/share/crawler/crawler.py:71-90 | with the corrected `_store_url`: a failed request or non-HTML Content-Type changes nothing; otherwise links then assets are extracted as above |
| `Crawler.SophisticatedCrawler.ParseWithSelenium` | usr/share/crawler/crawler.py:92-104 | with the corrected `_store_url`: on the rendered page, links then assets are extracted, with no Content-Type gate |
| `Crawler.SophisticatedCrawler.ParseAsWritten` | usr/share/crawler/crawler.py:71-90 | as written: a failed request or non-HTML Content-Type changes nothing; on a page with a new link, the first new URL becomes visited, no table changes (no asset row), and `AttributeError` escapes past `except RequestException`; on a page with no new link, all asset rows are appended |
| `Crawler.SophisticatedCrawler.ParseWithSeleniumAsWritten` | usr/share/crawler/crawler.py:92-104 | as written, on the rendered page: the same outcomes with no Content-Type gate |
| `Crawler.StoreFailureLeavesUrlVisited` | usr/share/crawler/crawler.py:80-90 | `parse` as written, with no proxy list, on an HTML page with one new link and one script: the URL ends visited, the urls table stays empty, no asset row is written and the error escapes |
| `Crawler.ExtractLinksIdempotent` | usr/share/crawler/crawler.py:111 | a second `_extract_links` over the same hrefs stores nothing |
| `Crawler.StoreCallsOverLifetime` | usr/share/crawler/crawler.py:106-114 | over any run of `_extract_links` calls, the stored URLs are those of the whole run in first-occurrence order, none twice |
| `Crawler.ExtractLinksStep` | usr/share/crawler/crawler.py:108-113 | one iteration of the `_extract_links` loop takes the visited set, the stored URLs and the urls table from their values after the earlier hrefs to their values after one more |
| `Crawler.FirstUnvisitedStored` | usr/share/crawler/crawler.py:108-113 | when every href before position `i` resolves to a visited URL and the one at `i` does not, that URL is the first the walk stores |
| `Crawler.StripLeading` | usr/share/crawler/crawler.py:141 | removes exactly the leading whitespace (Python's `str.isspace` set) |
| `Crawler.StripTrailing` | usr/share/crawler/crawler.py:141 | removes exactly the trailing whitespace |
| `Crawler.Strip` | usr/share/crawler/crawler.py:141 | the result is a slice of the input with only whitespace around it, and it neither starts nor ends with whitespace |
| `Crawler.SeedToCrawl` | usr/share/crawler/crawler.py:141-146 | `start_crawl` is called, with the stripped input, exactly when it begins with `http://` or `https://`; otherwise nothing runs |
| `Crawler.PaddedSeedIsAccepted` | usr/share/crawler/crawler.py:141-146 | for an http(s) URL with whitespace around it, `start_crawl` is called with the URL itself |

## Left out

- HTTP: `requests.get`, headers, the proxies dict, timeouts and `raise_for_status` are replaced by the `FetchOutcome` input. Both `parse` methods still draw a proxy first, as the source does, but the proxy only feeds that request, so it is otherwise unused.
- `response.headers` is case-insensitive in `requests`; the model takes the header's value (or its absence) as given.
- BeautifulSoup parsing: the page's hrefs and srcs are the `Page` input.
- `urljoin`: a `Resolver` parameter, taken as total. In Python, `urljoin` raises `ValueError` on an href such as `http://[::1/x` (an unbalanced `[`). That error is not a `RequestException`, so it would escape `parse` partway through the walk. The earlier hrefs would stay visited (and, with the corrected `_store_url`, stored), the later ones would not, and `_extract_assets` would not run. The model has no such path.
- Selenium: loading pages in the browser and the `time.sleep`/`random.uniform` waits are browser I/O. Only the browser's running state is kept. What `analizar_con_selenium` (`usr/58.py:80-85`) yields for each URL is an input of `ejecutar` (a page with or without `<title>`, or a WebDriver fault), and the rendered page is an input of `ParseWithSelenium`. A failure to start the browser (`iniciar_selenium`, `_parse_with_selenium`) is not modelled.
- `obtener_headers` and `fake_useragent`: foreign, output-only header generation.
- `start_crawl` (`multiprocessing.Pool` over the single seed URL): its point is concurrency. `pool.map` must pickle the function it sends to the workers, and a lambda cannot be pickled, so `start_crawl` (usr/share/crawler/crawler.py:130-131) raises before any `parse` runs: the entry point never crawls as written. `SeedToCrawl` stops at the decision to call `start_crawl`.
- SQLite: connections, commits, `id` autoincrement and the file-existence check of `_setup_database`. Only the insert-or-ignore and append semantics are kept, and a pre-existing file is the tables' prior contents.
- `print` and `logging` output.
- Python's set iteration order in `ejecutar`: the store loop picks URLs in an unspecified order. The resulting table does not depend on the order.
- `Politeness.RotateProxy`: does not model that `random.choice` is uniform; it only states that the result is a member of the pool.
- `Crawler58.CrawlerCompleto.Ejecutar`: the render of a URL is a function of the URL alone; that a browser may render the same URL differently on two visits is not modelled (each URL is visited once).

## Findings

| source | as written | input that shows it | evidently intended | confidence | as-written member | corrected member |
|---|---|---|---|---|---|---|
| usr/share/crawler/crawler.py:49 | `_store_url` opens `self.h`, which is never assigned, so every call raises `AttributeError` before writing. `visited_urls.add` runs first (line 112), so the URL stays visited but is never stored. The error is not a `RequestException` and escapes `parse` (line 89). | a fresh crawler with no proxy list, whose request succeeds, on an HTML page with one new link `http://example.com/about` and one script | open `self.db_path` and insert-or-ignore the URL as `"pending"`, so every visited URL is in the urls table | not executed | `Crawler.SophisticatedCrawler.ParseAsWritten` via `Crawler.SophisticatedCrawler.ExtractLinksAsWritten` (concrete run: `Crawler.StoreFailureLeavesUrlVisited`) | `Crawler.SophisticatedCrawler.Parse` via `Crawler.SophisticatedCrawler.ExtractLinks` |
| usr/58.py:158 | `ejecutar` calls `self.analizar_con_selenium`, which `CrawlerCompleto` does not define. The first visited URL raises `AttributeError` and `cerrar_selenium` is never reached, so the browser keeps running. | the script's run with no proxy list (a direct connection), `http://example.com` serving an HTML page with one link, every page rendering with a `<title>` | render each URL with `self.analisis_dinamico` only, then quit the browser; a page without `<title>` or a WebDriver fault still raises at lines 157-159 | not executed | `Crawler58.CrawlerCompleto.EjecutarAsWritten` (concrete run: `Crawler58.ScriptRunLeavesBrowserRunning`) | `Crawler58.CrawlerCompleto.Ejecutar` (concrete run: `Crawler58.ScriptRunCorrected`) |
