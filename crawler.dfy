/**
 * `SophisticatedCrawler` from usr/share/crawler/crawler.py and its entry point.
 *
 * The crawler owns the `visited_urls` set and writes to the database at
 * `db_path`. The ghost field `storeCalls` records, in order, every URL handed
 * to `_store_url`, so that "each URL is stored at most once" can be stated.
 */
module Crawler {
  import opened CrawlTypes
  import opened ContentType
  import opened Discovery
  import opened Storage
  import Politeness

  /** What `_store_url` raises as written: it opens `self.h`, an attribute no method assigns. */
  const StoreUrlError: PyError := AttributeError("h")

  /**
   * One step of `_extract_links`: given the state after the hrefs `done`,
   * handling one more resolved URL `u` yields the state after `done + [u]`.
   */
  lemma ExtractLinksStep(v0: set<Url>, c0: seq<Url>, t0: map<Url, string>, done: seq<Url>, u: Url,
                         visited: set<Url>, calls: seq<Url>, urls: map<Url, string>)
    requires visited == v0 + Elems(done)
    requires calls == c0 + NewUrls(v0, done)
    requires urls == InsertOrIgnoreEach(t0, Elems(done) - v0, Pending)
    ensures u !in visited ==>
      && visited + {u} == v0 + Elems(done + [u])
      && calls + [u] == c0 + NewUrls(v0, done + [u])
      && InsertOrIgnore(urls, u, Pending) == InsertOrIgnoreEach(t0, Elems(done + [u]) - v0, Pending)
    ensures u in visited ==>
      && visited == v0 + Elems(done + [u])
      && calls == c0 + NewUrls(v0, done + [u])
      && urls == InsertOrIgnoreEach(t0, Elems(done + [u]) - v0, Pending)
  {
    ElemsConcat(done, [u]);
    assert Elems([u]) == {u};
    NewUrlsSnoc(v0, done, u);
    if u !in visited {
      assert Elems(done + [u]) - v0 == Elems(done) - v0 + {u};
      InsertOrIgnoreEachStep(t0, Elems(done) - v0, u, Pending);
      assert c0 + NewUrls(v0, done + [u]) == (c0 + NewUrls(v0, done)) + [u];
    } else {
      assert Elems(done + [u]) - v0 == Elems(done) - v0;
    }
  }

  /**
   * When every href before `i` resolves to a visited URL and the one at `i`
   * does not, the walk over all the hrefs stores that URL first.
   */
  lemma FirstUnvisitedStored(resolve: Resolver, baseUrl: Url, hrefs: seq<string>, i: nat, v0: set<Url>)
    requires i < |hrefs|
    requires Elems(ResolveAll(resolve, baseUrl, hrefs[..i])) <= v0
    requires resolve(baseUrl, hrefs[i]) !in v0
    ensures var added := NewUrls(v0, ResolveAll(resolve, baseUrl, hrefs));
      added != [] && added[0] == resolve(baseUrl, hrefs[i])
  {
    var done := ResolveAll(resolve, baseUrl, hrefs[..i]);
    var rest := ResolveAll(resolve, baseUrl, hrefs[i + 1..]);
    var u := resolve(baseUrl, hrefs[i]);
    assert ResolveAll(resolve, baseUrl, hrefs) == done + ResolveAll(resolve, baseUrl, hrefs[i..]) by {
      assert hrefs == hrefs[..i] + hrefs[i..];
      ResolveAllConcat(resolve, baseUrl, hrefs[..i], hrefs[i..]);
    }
    assert ResolveAll(resolve, baseUrl, hrefs[i..]) == [u] + rest by {
      assert hrefs[i..] == [hrefs[i]] + hrefs[i + 1..];
      ResolveAllConcat(resolve, baseUrl, [hrefs[i]], hrefs[i + 1..]);
      ResolveAllSingle(resolve, baseUrl, hrefs[i]);
    }
    NewUrlsAfterVisited(v0, done, u, rest);
  }

  class SophisticatedCrawler {
    var visitedUrls: set<Url>
    const proxyList: seq<Url>
    const db: Database
    ghost var storeCalls: seq<Url>

    /** Every visited URL was handed to `_store_url`, exactly once, and nothing else was. */
    ghost predicate Valid()
      reads this
    {
      NoDuplicates(storeCalls) && Elems(storeCalls) == visitedUrls
    }

    /** `__init__`: `proxy_list or []`; the database holds whatever `db_path` already held. */
    constructor (proxyList: Option<seq<Url>>, priorUrls: map<Url, string>, priorAssets: seq<AssetRow>)
      ensures Valid() && visitedUrls == {}
      ensures this.proxyList == (if proxyList.Some? then proxyList.value else [])
      ensures fresh(db) && db.urls == priorUrls && db.assets == priorAssets
    {
      visitedUrls := {};
      this.proxyList := if proxyList.Some? then proxyList.value else [];
      db := new Database(priorUrls, priorAssets);
      storeCalls := [];
    }

    /** `rotate_proxy`: `None` exactly when the pool is empty, otherwise a member of the pool. */
    method RotateProxy() returns (proxy: Option<Url>)
      ensures proxy.None? <==> proxyList == []
      ensures proxy.Some? ==> proxy.value in proxyList
    {
      proxy := Politeness.RotateProxy(proxyList);
    }

    /** `_store_url` as written: the lookup of `self.h` raises before the database is opened. */
    method StoreUrlAsWritten(url: Url) returns (outcome: Outcome)
      modifies this`storeCalls
      ensures storeCalls == old(storeCalls) + [url]
      ensures outcome == Raised(StoreUrlError)
    {
      storeCalls := storeCalls + [url];
      outcome := Raised(StoreUrlError);
    }

    /** `_store_url` corrected to open `self.db_path`: `INSERT OR IGNORE` of the URL with its status. */
    method StoreUrl(url: Url, status: string)
      modifies this`storeCalls, db
      ensures storeCalls == old(storeCalls) + [url]
      ensures db.urls == InsertOrIgnore(old(db.urls), url, status)
      ensures db.assets == old(db.assets)
    {
      storeCalls := storeCalls + [url];
      db.InsertOrIgnoreUrl(url, status);
    }

    /** `_store_asset`: appends one row to the `assets` table. */
    method StoreAsset(url: Url, assetType: string, assetUrl: Url)
      modifies db
      ensures db.assets == old(db.assets) + [AssetRow(url, assetType, assetUrl)]
      ensures db.urls == old(db.urls)
    {
      db.InsertAsset(AssetRow(url, assetType, assetUrl));
    }

    /**
     * `_extract_links` as written. The first resolved URL not yet visited is
     * added to `visited_urls` and then handed to `_store_url`, which raises;
     * the walk stops there, the URL stays visited and the database is untouched.
     * The exception is an `AttributeError`, which the `except RequestException`
     * of `parse` does not catch.
     */
    method ExtractLinksAsWritten(baseUrl: Url, resolve: Resolver, hrefs: seq<string>) returns (outcome: Outcome)
      requires Valid()
      modifies this
      ensures Valid()
      ensures var added := NewUrls(old(visitedUrls), ResolveAll(resolve, baseUrl, hrefs));
        if added == [] then
          outcome == Completed && visitedUrls == old(visitedUrls) && storeCalls == old(storeCalls)
        else
          && outcome == Raised(StoreUrlError)
          && visitedUrls == old(visitedUrls) + {added[0]}
          && storeCalls == old(storeCalls) + [added[0]]
    {
      ghost var v0 := visitedUrls;
      var i := 0;
      while i < |hrefs|
        invariant 0 <= i <= |hrefs|
        invariant visitedUrls == v0 && storeCalls == old(storeCalls)
        invariant Elems(ResolveAll(resolve, baseUrl, hrefs[..i])) <= v0
      {
        var fullUrl := resolve(baseUrl, hrefs[i]);
        assert hrefs[..i + 1][..i] == hrefs[..i];
        if fullUrl !in visitedUrls {
          FirstUnvisitedStored(resolve, baseUrl, hrefs, i, v0);
          visitedUrls := visitedUrls + {fullUrl};
          outcome := StoreUrlAsWritten(fullUrl);
          assert NoDuplicates(storeCalls) by {
            NoDuplicatesConcat(old(storeCalls), [fullUrl]);
          }
          assert Elems(storeCalls) == visitedUrls by {
            ElemsConcat(old(storeCalls), [fullUrl]);
            assert Elems([fullUrl]) == {fullUrl};
          }
          return;
        }
        assert ResolveAll(resolve, baseUrl, hrefs[..i + 1]) == ResolveAll(resolve, baseUrl, hrefs[..i]) + [fullUrl];
        ElemsConcat(ResolveAll(resolve, baseUrl, hrefs[..i]), [fullUrl]);
        i := i + 1;
      }
      assert hrefs[..i] == hrefs;
      NewUrlsOfVisited(v0, ResolveAll(resolve, baseUrl, hrefs));
      outcome := Completed;
    }

    /**
     * `_extract_links` with the corrected `_store_url`: every resolved href is
     * marked visited; those not visited before are stored as pending, once
     * each, in first-occurrence order; the `assets` table is untouched.
     */
    method ExtractLinks(baseUrl: Url, resolve: Resolver, hrefs: seq<string>)
      requires Valid()
      modifies this, db
      ensures Valid()
      ensures var rs := ResolveAll(resolve, baseUrl, hrefs);
        && visitedUrls == old(visitedUrls) + Elems(rs)
        && storeCalls == old(storeCalls) + NewUrls(old(visitedUrls), rs)
        && db.urls == InsertOrIgnoreEach(old(db.urls), Elems(rs) - old(visitedUrls), Pending)
      ensures db.assets == old(db.assets)
      ensures old(visitedUrls <= db.urls.Keys) ==> visitedUrls <= db.urls.Keys
    {
      ghost var v0 := visitedUrls;
      ghost var c0 := storeCalls;
      ghost var t0 := db.urls;
      var i := 0;
      while i < |hrefs|
        invariant 0 <= i <= |hrefs|
        invariant visitedUrls == v0 + Elems(ResolveAll(resolve, baseUrl, hrefs[..i]))
        invariant storeCalls == c0 + NewUrls(v0, ResolveAll(resolve, baseUrl, hrefs[..i]))
        invariant db.urls == InsertOrIgnoreEach(t0, Elems(ResolveAll(resolve, baseUrl, hrefs[..i])) - v0, Pending)
        invariant db.assets == old(db.assets)
      {
        var fullUrl := resolve(baseUrl, hrefs[i]);
        assert hrefs[..i + 1][..i] == hrefs[..i];
        ExtractLinksStep(v0, c0, t0, ResolveAll(resolve, baseUrl, hrefs[..i]), fullUrl, visitedUrls, storeCalls, db.urls);
        if fullUrl !in visitedUrls {
          visitedUrls := visitedUrls + {fullUrl};
          StoreUrl(fullUrl, Pending);
        }
        i := i + 1;
      }
      assert hrefs[..i] == hrefs;
      ghost var rs := ResolveAll(resolve, baseUrl, hrefs);
      NewUrlsNoDuplicates(v0, rs);
      NewUrlsElems(v0, rs);
      NoDuplicatesConcat(c0, NewUrls(v0, rs));
      ElemsConcat(c0, NewUrls(v0, rs));
    }

    /**
     * `_extract_assets`: one row per `<script src>`, then one per `<img src>`,
     * each found on `baseUrl`; no dedup, and `visited_urls` is untouched.
     */
    method ExtractAssets(baseUrl: Url, resolve: Resolver, scripts: seq<string>, images: seq<string>)
      modifies db
      ensures db.assets == old(db.assets) + AssetRows(resolve, baseUrl, scripts, images)
      ensures db.urls == old(db.urls)
    {
      for i := 0 to |scripts|
        invariant db.assets == old(db.assets) + Rows(resolve, baseUrl, "script", scripts[..i])
        invariant db.urls == old(db.urls)
      {
        var scriptUrl := resolve(baseUrl, scripts[i]);
        StoreAsset(baseUrl, "script", scriptUrl);
        assert scripts[..i + 1][..i] == scripts[..i];
      }
      assert scripts[..|scripts|] == scripts;
      ghost var afterScripts := db.assets;
      for i := 0 to |images|
        invariant db.assets == afterScripts + Rows(resolve, baseUrl, "image", images[..i])
        invariant db.urls == old(db.urls)
      {
        var imgUrl := resolve(baseUrl, images[i]);
        StoreAsset(baseUrl, "image", imgUrl);
        assert images[..i + 1][..i] == images[..i];
      }
      assert images[..|images|] == images;
    }

    /**
     * The static branch of `parse` (`use_selenium=False`), with the corrected
     * `_store_url`. A failed request,
     * or a response whose Content-Type does not contain `text/html`, changes
     * nothing; otherwise links and then assets are extracted.
     */
    method Parse(baseUrl: Url, resolve: Resolver, response: FetchOutcome)
      requires Valid()
      modifies this, db
      ensures Valid()
      ensures response.RequestFailed? || !IsHtml(response.contentType) ==>
        && visitedUrls == old(visitedUrls) && storeCalls == old(storeCalls)
        && db.urls == old(db.urls) && db.assets == old(db.assets)
      ensures response.Fetched? && IsHtml(response.contentType) ==>
        var rs := ResolveAll(resolve, baseUrl, response.page.anchors);
        && visitedUrls == old(visitedUrls) + Elems(rs)
        && storeCalls == old(storeCalls) + NewUrls(old(visitedUrls), rs)
        && db.urls == InsertOrIgnoreEach(old(db.urls), Elems(rs) - old(visitedUrls), Pending)
        && db.assets == old(db.assets) + AssetRows(resolve, baseUrl, response.page.scripts, response.page.images)
    {
      // The proxy only feeds the HTTP request, whose outcome is `response`.
      var proxy := RotateProxy();
      if response.RequestFailed? {
        return;
      }
      if !IsHtml(response.contentType) {
        return;
      }
      ExtractLinks(baseUrl, resolve, response.page.anchors);
      ExtractAssets(baseUrl, resolve, response.page.scripts, response.page.images);
    }

    /**
     * `_parse_with_selenium` once the browser has rendered the page, with the
     * corrected `_store_url`: links and then assets of the rendered document,
     * with no Content-Type gate.
     */
    method ParseWithSelenium(url: Url, resolve: Resolver, rendered: Page)
      requires Valid()
      modifies this, db
      ensures Valid()
      ensures var rs := ResolveAll(resolve, url, rendered.anchors);
        && visitedUrls == old(visitedUrls) + Elems(rs)
        && storeCalls == old(storeCalls) + NewUrls(old(visitedUrls), rs)
        && db.urls == InsertOrIgnoreEach(old(db.urls), Elems(rs) - old(visitedUrls), Pending)
        && db.assets == old(db.assets) + AssetRows(resolve, url, rendered.scripts, rendered.images)
    {
      ExtractLinks(url, resolve, rendered.anchors);
      ExtractAssets(url, resolve, rendered.scripts, rendered.images);
    }

    /**
     * The static branch of `parse` as written. A failed request or a non-HTML
     * Content-Type changes nothing. Otherwise, if the page has a new link, the
     * `AttributeError` of `_store_url` escapes `_extract_links` and passes the
     * `except RequestException` of `parse`: the first new URL stays visited and
     * `_extract_assets` never runs. A page with no new link has its assets
     * recorded.
     */
    method ParseAsWritten(baseUrl: Url, resolve: Resolver, response: FetchOutcome) returns (outcome: Outcome)
      requires Valid()
      modifies this, db
      ensures Valid()
      ensures response.RequestFailed? || !IsHtml(response.contentType) ==>
        && outcome == Completed
        && visitedUrls == old(visitedUrls) && storeCalls == old(storeCalls)
        && db.urls == old(db.urls) && db.assets == old(db.assets)
      ensures response.Fetched? && IsHtml(response.contentType) ==>
        var added := NewUrls(old(visitedUrls), ResolveAll(resolve, baseUrl, response.page.anchors));
        if added == [] then
          && outcome == Completed
          && visitedUrls == old(visitedUrls) && storeCalls == old(storeCalls)
          && db.urls == old(db.urls)
          && db.assets == old(db.assets) + AssetRows(resolve, baseUrl, response.page.scripts, response.page.images)
        else
          && outcome == Raised(StoreUrlError)
          && visitedUrls == old(visitedUrls) + {added[0]} && storeCalls == old(storeCalls) + [added[0]]
          && db.urls == old(db.urls) && db.assets == old(db.assets)
    {
      // The proxy only feeds the HTTP request, whose outcome is `response`.
      var proxy := RotateProxy();
      if response.RequestFailed? {
        return Completed;
      }
      if !IsHtml(response.contentType) {
        return Completed;
      }
      outcome := ExtractLinksAsWritten(baseUrl, resolve, response.page.anchors);
      if outcome.Raised? {
        return;
      }
      ExtractAssets(baseUrl, resolve, response.page.scripts, response.page.images);
    }

    /**
     * `_parse_with_selenium` as written, once the browser has rendered the
     * page: the same as the static branch without the Content-Type gate. The
     * `with` block quits the browser as the `AttributeError` leaves it.
     */
    method ParseWithSeleniumAsWritten(url: Url, resolve: Resolver, rendered: Page) returns (outcome: Outcome)
      requires Valid()
      modifies this, db
      ensures Valid()
      ensures
        var added := NewUrls(old(visitedUrls), ResolveAll(resolve, url, rendered.anchors));
        if added == [] then
          && outcome == Completed
          && visitedUrls == old(visitedUrls) && storeCalls == old(storeCalls)
          && db.urls == old(db.urls)
          && db.assets == old(db.assets) + AssetRows(resolve, url, rendered.scripts, rendered.images)
        else
          && outcome == Raised(StoreUrlError)
          && visitedUrls == old(visitedUrls) + {added[0]} && storeCalls == old(storeCalls) + [added[0]]
          && db.urls == old(db.urls) && db.assets == old(db.assets)
    {
      outcome := ExtractLinksAsWritten(url, resolve, rendered.anchors);
      if outcome.Raised? {
        return;
      }
      ExtractAssets(url, resolve, rendered.scripts, rendered.images);
    }
  }

  /**
   * The static branch of `parse` as written, for a fresh crawler with no
   * proxy list over an empty database, on an HTML page with one new absolute
   * link and one script: the URL is marked visited, the `urls` table stays
   * empty, no asset row is written, and an `AttributeError` escapes.
   */
  method StoreFailureLeavesUrlVisited() returns (outcome: Outcome, visited: bool, stored: bool, assetRows: nat)
    ensures outcome == Raised(StoreUrlError) && visited && !stored && assetRows == 0
  {
    var crawler := new SophisticatedCrawler(None, map[], []);
    var resolve := JoinAbsolute;
    var page := Page(["http://example.com/about"], ["http://example.com/app.js"], []);
    ResolveSingleAbsolute("http://example.com/", "http://example.com/about");
    assert ResolveAll(resolve, "http://example.com/", page.anchors) == page.anchors;
    assert NewUrls({}, page.anchors) == page.anchors;
    PlainHtmlHeader();
    outcome := crawler.ParseAsWritten("http://example.com/", resolve, Fetched(Some("text/html"), page));
    visited := "http://example.com/about" in crawler.visitedUrls;
    stored := "http://example.com/about" in crawler.db.urls;
    assetRows := |crawler.db.assets|;
  }

  /** A second `_extract_links` over the same page stores nothing and visits nothing new. */
  lemma ExtractLinksIdempotent(visited: set<Url>, rs: seq<Url>)
    ensures NewUrls(visited + Elems(rs), rs) == []
  {
    NewUrlsOfVisited(visited + Elems(rs), rs);
  }

  /**
   * Over any run of `_extract_links` calls, the URLs handed to `_store_url`
   * are the URLs of the whole run in first-occurrence order, none twice.
   */
  lemma {:induction false} StoreCallsOverLifetime(visited: set<Url>, pages: seq<seq<Url>>)
    ensures NewUrls(visited, Flatten(pages)) == Lifetime(visited, pages)
    ensures NoDuplicates(Lifetime(visited, pages))
    decreases |pages|
  {
    if pages != [] {
      NewUrlsConcat(visited, pages[0], Flatten(pages[1..]));
      StoreCallsOverLifetime(visited + Elems(pages[0]), pages[1..]);
    }
    NewUrlsNoDuplicates(visited, Flatten(pages));
  }

  /** All resolved hrefs of a run of pages, in order. */
  function Flatten(pages: seq<seq<Url>>): seq<Url>
    decreases |pages|
  {
    if pages == [] then [] else pages[0] + Flatten(pages[1..])
  }

  /** The URLs stored by successive `_extract_links` calls, each starting from the visited set the previous one left. */
  function Lifetime(visited: set<Url>, pages: seq<seq<Url>>): seq<Url>
    decreases |pages|
  {
    if pages == [] then [] else NewUrls(visited, pages[0]) + Lifetime(visited + Elems(pages[0]), pages[1..])
  }

  /** The characters Python's `str.strip()` removes (those for which `str.isspace()` holds). */
  predicate IsSpace(c: char)
  {
    var n := c as int;
    || 0x09 <= n <= 0x0D || 0x1C <= n <= 0x20
    || n == 0x85 || n == 0xA0 || n == 0x1680
    || 0x2000 <= n <= 0x200A
    || n == 0x2028 || n == 0x2029 || n == 0x202F || n == 0x205F || n == 0x3000
  }

  predicate AllSpace(s: string)
  {
    forall i :: 0 <= i < |s| ==> IsSpace(s[i])
  }

  /** `s.lstrip()`: the suffix of `s` left after removing its leading whitespace. */
  function StripLeading(s: string): (r: string)
    ensures |r| <= |s| && r == s[|s| - |r|..]
    ensures AllSpace(s[..|s| - |r|])
    ensures r == [] || !IsSpace(r[0])
    decreases |s|
  {
    if s != [] && IsSpace(s[0]) then
      var r := StripLeading(s[1..]);
      assert s[..|s| - |r|] == [s[0]] + s[1..][..|s| - 1 - |r|];
      r
    else s
  }

  /** `s.rstrip()`: the prefix of `s` left after removing its trailing whitespace. */
  function StripTrailing(s: string): (r: string)
    ensures |r| <= |s| && r == s[..|r|]
    ensures AllSpace(s[|r|..])
    ensures r == [] || !IsSpace(r[|r| - 1])
    decreases |s|
  {
    if s != [] && IsSpace(s[|s| - 1]) then
      var r := StripTrailing(s[..|s| - 1]);
      assert s[|r|..] == s[..|s| - 1][|r|..] + [s[|s| - 1]];
      r
    else s
  }

  /** `s` is `r` with whitespace only before it (the first `lead` characters) and after it. */
  predicate StrippedAt(s: string, r: string, lead: int)
  {
    && 0 <= lead <= |s| - |r| && r == s[lead..lead + |r|]
    && AllSpace(s[..lead]) && AllSpace(s[lead + |r|..])
  }

  /** `s.strip()`: `s` is its result with whitespace only before and after it. */
  function Strip(s: string): (r: string)
    ensures exists lead :: StrippedAt(s, r, lead)
    ensures r == [] || (!IsSpace(r[0]) && !IsSpace(r[|r| - 1]))
  {
    StripShape(s);
    var r := StripTrailing(StripLeading(s));
    assert StrippedAt(s, r, |s| - |StripLeading(s)|);
    r
  }

  /** Stripping the leading, then the trailing whitespace leaves a middle slice with non-space ends. */
  lemma StripShape(s: string)
    ensures var r := StripTrailing(StripLeading(s));
      && StrippedAt(s, r, |s| - |StripLeading(s)|)
      && (r == [] || (!IsSpace(r[0]) && !IsSpace(r[|r| - 1])))
  {
    var left := StripLeading(s);
    var r := StripTrailing(left);
    var lead := |s| - |left|;
    SliceOfSuffix(s, lead, |r|);
    assert left == s[lead..];
    assert r == s[lead..lead + |r|];
    assert s[lead + |r|..] == left[|r|..];
    assert AllSpace(s[..lead]) && AllSpace(left[|r|..]);
    assert StrippedAt(s, r, lead);
    if r != [] {
      assert r[0] == left[0];
    }
  }

  /** Slicing the suffix `s[lead..]` is slicing `s` shifted by `lead`. */
  lemma SliceOfSuffix(s: string, lead: nat, n: nat)
    requires lead + n <= |s|
    ensures s[lead..][..n] == s[lead..lead + n]
    ensures s[lead..][n..] == s[lead + n..]
  {
  }

  /**
   * The entry point: the input, stripped, starts a crawl only when it begins
   * with `http://` or `https://`; otherwise nothing runs.
   */
  function SeedToCrawl(input: string): (seed: Option<Url>)
    ensures seed.Some? ==> seed.value == Strip(input) && ("http://" <= seed.value || "https://" <= seed.value)
    ensures seed.None? ==> !("http://" <= Strip(input)) && !("https://" <= Strip(input))
  {
    var u := Strip(input);
    if "http://" <= u || "https://" <= u then Some(u) else None
  }

  lemma {:induction false} StripLeadingPadded(pad: string, t: string)
    requires AllSpace(pad)
    requires t == [] || !IsSpace(t[0])
    ensures StripLeading(pad + t) == t
    decreases |pad|
  {
    if pad != [] {
      assert (pad + t)[1..] == pad[1..] + t;
      StripLeadingPadded(pad[1..], t);
    } else {
      assert pad + t == t;
    }
  }

  lemma {:induction false} StripTrailingPadded(t: string, pad: string)
    requires AllSpace(pad)
    requires t == [] || !IsSpace(t[|t| - 1])
    ensures StripTrailing(t + pad) == t
    decreases |pad|
  {
    if pad != [] {
      assert (t + pad)[..|t + pad| - 1] == t + pad[..|pad| - 1];
      StripTrailingPadded(t, pad[..|pad| - 1]);
    } else {
      assert t + pad == t;
    }
  }

  /** Whitespace around an http(s) URL typed at the prompt is removed and the crawl starts from the URL itself. */
  lemma PaddedSeedIsAccepted(pad: string, u: Url, pad': string)
    requires AllSpace(pad) && AllSpace(pad')
    requires "http://" <= u || "https://" <= u
    requires !IsSpace(u[|u| - 1])
    ensures SeedToCrawl(pad + u + pad') == Some(u)
  {
    var s := pad + u + pad';
    assert u[0] == 'h';
    assert s == pad + (u + pad');
    StripLeadingPadded(pad, u + pad');
    StripTrailingPadded(u, pad');
    assert Strip(s) == StripTrailing(StripLeading(s));
    assert Strip(s) == u;
  }
}
