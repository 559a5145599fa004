/**
 * The classes of usr/58.py: `Configuración`, `ExtracciónURLs`,
 * `AnalisisDinamico`, `Almacenamiento` and `CrawlerCompleto`, which wires
 * them together.
 */
module Crawler58 {
  import opened CrawlTypes
  import opened ContentType
  import opened Storage
  import Politeness

  /** `Configuración`: the proxy pool and the database path; neither changes after construction. */
  datatype Configuracion = Configuracion(proxyList: seq<Url>, dbPath: string)
  {
    /** `rotate_proxy`: `None` exactly when the pool is empty, otherwise a member of the pool. */
    method RotateProxy() returns (proxy: Option<Url>)
      ensures proxy.None? <==> proxyList == []
      ensures proxy.Some? ==> proxy.value in proxyList
    {
      proxy := Politeness.RotateProxy(proxyList);
    }
  }

  /** `Configuración.__init__`: a missing proxy list (`proxy_list or []`) becomes the empty pool. */
  function NewConfiguracion(proxyList: Option<seq<Url>>, dbPath: string): (config: Configuracion)
    ensures config.dbPath == dbPath
    ensures config.proxyList == [] <==> proxyList.None? || proxyList.value == []
    ensures proxyList.Some? ==> config.proxyList == proxyList.value
  {
    Configuracion(if proxyList.Some? then proxyList.value else [], dbPath)
  }

  /** With no proxy list given, rotation yields no proxy rather than an error. */
  method RotateWithoutProxyList(dbPath: string) returns (proxy: Option<Url>)
    ensures proxy == None
  {
    var config := NewConfiguracion(None, dbPath);
    proxy := config.RotateProxy();
  }

  /** `ExtracciónURLs`: owns the set of URLs discovered so far. */
  class ExtraccionUrls {
    const config: Configuracion
    var visitedUrls: set<Url>

    constructor (config: Configuracion)
      ensures this.config == config && visitedUrls == {}
    {
      this.config := config;
      visitedUrls := {};
    }

    /**
     * `parse`: a failed request (caught as `RequestException`) or a response
     * whose Content-Type does not contain `text/html` leaves `visited_urls`
     * as it was; otherwise the page's anchors are extracted.
     */
    method Parse(baseUrl: Url, resolve: Resolver, response: FetchOutcome)
      modifies this
      ensures if response.Fetched? && IsHtml(response.contentType)
        then visitedUrls == old(visitedUrls) + Elems(ResolveAll(resolve, baseUrl, response.page.anchors))
        else visitedUrls == old(visitedUrls)
    {
      // The proxy only feeds the HTTP request, whose outcome is `response`.
      var proxy := config.RotateProxy();
      if response.RequestFailed? {
        return;
      }
      if !IsHtml(response.contentType) {
        return;
      }
      ExtraerLinks(baseUrl, resolve, response.page.anchors);
    }

    /**
     * `extraer_links`: every resolved href ends up in `visited_urls`; nothing
     * is removed. A second call over hrefs already visited changes nothing.
     */
    method ExtraerLinks(baseUrl: Url, resolve: Resolver, hrefs: seq<string>)
      modifies this
      ensures visitedUrls == old(visitedUrls) + Elems(ResolveAll(resolve, baseUrl, hrefs))
      ensures Elems(ResolveAll(resolve, baseUrl, hrefs)) <= old(visitedUrls) ==> visitedUrls == old(visitedUrls)
    {
      for i := 0 to |hrefs|
        invariant visitedUrls == old(visitedUrls) + Elems(ResolveAll(resolve, baseUrl, hrefs[..i]))
      {
        var fullUrl := resolve(baseUrl, hrefs[i]);
        if fullUrl !in visitedUrls {
          visitedUrls := visitedUrls + {fullUrl};
        }
        assert hrefs[..i + 1][..i] == hrefs[..i];
        ElemsConcat(ResolveAll(resolve, baseUrl, hrefs[..i]), [fullUrl]);
      }
      assert hrefs[..|hrefs|] == hrefs;
    }
  }

  /** `AnalisisDinamico`: whether `self.driver` is set, and whether that browser is still running. */
  class AnalisisDinamico {
    var hasDriver: bool
    var browserRunning: bool

    constructor ()
      ensures !hasDriver && !browserRunning
    {
      hasDriver, browserRunning := false, false;
    }

    /** `iniciar_selenium`: starts a headless Chrome and keeps it in `self.driver`. */
    method IniciarSelenium()
      modifies this
      ensures hasDriver && browserRunning
    {
      hasDriver, browserRunning := true, true;
    }

    /** `cerrar_selenium`: quits the browser if a driver was ever set; `self.driver` itself is not cleared. */
    method CerrarSelenium()
      modifies this
      ensures hasDriver == old(hasDriver)
      ensures browserRunning == (old(browserRunning) && !old(hasDriver))
    {
      if hasDriver {
        browserRunning := false;
      }
    }
  }

  /** `Almacenamiento`: the store methods over the database at its path. */
  class Almacenamiento {
    const db: Database

    /** `_setup_database` only creates the tables when the file is absent; existing rows stay. */
    constructor (priorUrls: map<Url, string>, priorAssets: seq<AssetRow>)
      ensures fresh(db) && db.urls == priorUrls && db.assets == priorAssets
    {
      db := new Database(priorUrls, priorAssets);
    }

    /** `almacenar_url`: insert-or-ignore; an existing URL keeps its status. */
    method AlmacenarUrl(url: Url, status: string)
      modifies db
      ensures db.urls == InsertOrIgnore(old(db.urls), url, status)
      ensures db.assets == old(db.assets)
    {
      db.InsertOrIgnoreUrl(url, status);
    }

    /** `almacenar_asset`: appends exactly the row `(url, asset_type, asset_url)`. */
    method AlmacenarAsset(url: Url, assetType: string, assetUrl: Url)
      modifies db
      ensures db.assets == old(db.assets) + [AssetRow(url, assetType, assetUrl)]
      ensures db.urls == old(db.urls)
    {
      db.InsertAsset(AssetRow(url, assetType, assetUrl));
    }
  }

  /** What the dynamic pass of `ejecutar` raises as written: `self` has no `analizar_con_selenium`. */
  const DynamicPassError: PyError := AttributeError("analizar_con_selenium")

  /**
   * What the browser yields for one URL in `analizar_con_selenium`: the
   * rendered document, with or without a `<title>`, or a WebDriver fault.
   */
  datatype RenderOutcome = Rendered(hasTitle: bool) | DriverFault

  /**
   * The exception one failed render raises in the dynamic pass: the WebDriver
   * fault itself, or, for a page without `<title>`, the `AttributeError` of
   * `soup.title.string` on `None`.
   */
  function RenderError(r: RenderOutcome): PyError
  {
    if r.DriverFault? then WebDriverException else AttributeError("string")
  }

  /** A render after which the dynamic pass goes on to the next URL. */
  predicate RenderSucceeds(r: RenderOutcome)
  {
    r == Rendered(true)
  }

  /** `CrawlerCompleto`: one of each component. */
  class CrawlerCompleto {
    const config: Configuracion
    const extraccion: ExtraccionUrls
    const analisis: AnalisisDinamico
    const almacenamiento: Almacenamiento

    constructor (proxyList: Option<seq<Url>>, priorUrls: map<Url, string>, priorAssets: seq<AssetRow>)
      ensures config == NewConfiguracion(proxyList, "crawler_data.db")
      ensures fresh(extraccion) && extraccion.config == config && extraccion.visitedUrls == {}
      ensures fresh(analisis) && !analisis.hasDriver && !analisis.browserRunning
      ensures fresh(almacenamiento) && fresh(almacenamiento.db)
      ensures almacenamiento.db.urls == priorUrls && almacenamiento.db.assets == priorAssets
    {
      config := NewConfiguracion(proxyList, "crawler_data.db");
      extraccion := new ExtraccionUrls(NewConfiguracion(proxyList, "crawler_data.db"));
      analisis := new AnalisisDinamico();
      almacenamiento := new Almacenamiento(priorUrls, priorAssets);
    }

    /**
     * The store loop of `ejecutar`: every URL of `visited_urls`, in whatever
     * order the set yields them, is inserted-or-ignored as pending.
     */
    method StoreVisited()
      modifies almacenamiento.db
      ensures almacenamiento.db.urls == InsertOrIgnoreEach(old(almacenamiento.db.urls), extraccion.visitedUrls, Pending)
      ensures almacenamiento.db.assets == old(almacenamiento.db.assets)
    {
      ghost var t0 := almacenamiento.db.urls;
      var remaining := extraccion.visitedUrls;
      while remaining != {}
        invariant remaining <= extraccion.visitedUrls
        invariant almacenamiento.db.urls == InsertOrIgnoreEach(t0, extraccion.visitedUrls - remaining, Pending)
        invariant almacenamiento.db.assets == old(almacenamiento.db.assets)
        decreases remaining
      {
        var url :| url in remaining;
        InsertOrIgnoreEachStep(t0, extraccion.visitedUrls - remaining, url, Pending);
        almacenamiento.AlmacenarUrl(url, Pending);
        assert extraccion.visitedUrls - (remaining - {url}) == extraccion.visitedUrls - remaining + {url};
        remaining := remaining - {url};
      }
    }

    /**
     * `ejecutar` as written: parse the start page, store every visited URL,
     * start the browser, then, for the first visited URL (in set order),
     * render it and call `self.analizar_con_selenium`, which raises; if the
     * render itself faults, that fault escapes first. Either way the browser
     * is never quit. With no visited URL the loop body never runs and the
     * browser is quit.
     */
    method EjecutarAsWritten(startUrl: Url, resolve: Resolver, response: FetchOutcome, render: Url -> RenderOutcome)
      returns (outcome: Outcome)
      modifies extraccion, almacenamiento.db, analisis
      ensures extraccion.visitedUrls == old(extraccion.visitedUrls)
        + (if response.Fetched? && IsHtml(response.contentType)
           then Elems(ResolveAll(resolve, startUrl, response.page.anchors)) else {})
      ensures almacenamiento.db.urls == InsertOrIgnoreEach(old(almacenamiento.db.urls), extraccion.visitedUrls, Pending)
      ensures almacenamiento.db.assets == old(almacenamiento.db.assets)
      ensures analisis.hasDriver
      ensures extraccion.visitedUrls == {} ==> outcome == Completed && !analisis.browserRunning
      ensures extraccion.visitedUrls != {} ==>
        && analisis.browserRunning
        && exists url :: url in extraccion.visitedUrls
             && outcome == Raised(if render(url).DriverFault? then WebDriverException else DynamicPassError)
    {
      extraccion.Parse(startUrl, resolve, response);
      StoreVisited();
      analisis.IniciarSelenium();
      if extraccion.visitedUrls != {} {
        var url :| url in extraccion.visitedUrls;
        var page := render(url);
        if page.DriverFault? {
          outcome := Raised(WebDriverException);
        } else {
          outcome := Raised(DynamicPassError);
        }
        return;
      }
      analisis.CerrarSelenium();
      outcome := Completed;
    }

    /**
     * `ejecutar` without the call to the missing method: after the store
     * loop, each visited URL is rendered and its title printed. It completes,
     * and quits the browser, exactly when every render yields a page with a
     * `<title>`; otherwise the first failing render (in set order) raises and
     * the browser is left running.
     */
    method Ejecutar(startUrl: Url, resolve: Resolver, response: FetchOutcome, render: Url -> RenderOutcome)
      returns (outcome: Outcome)
      modifies extraccion, almacenamiento.db, analisis
      ensures extraccion.visitedUrls == old(extraccion.visitedUrls)
        + (if response.Fetched? && IsHtml(response.contentType)
           then Elems(ResolveAll(resolve, startUrl, response.page.anchors)) else {})
      ensures almacenamiento.db.urls == InsertOrIgnoreEach(old(almacenamiento.db.urls), extraccion.visitedUrls, Pending)
      ensures almacenamiento.db.assets == old(almacenamiento.db.assets)
      ensures analisis.hasDriver
      ensures outcome == Completed <==> forall url :: url in extraccion.visitedUrls ==> RenderSucceeds(render(url))
      ensures outcome == Completed ==> !analisis.browserRunning
      ensures outcome != Completed ==>
        && analisis.browserRunning
        && exists url :: url in extraccion.visitedUrls && !RenderSucceeds(render(url))
             && outcome == Raised(RenderError(render(url)))
    {
      extraccion.Parse(startUrl, resolve, response);
      StoreVisited();
      analisis.IniciarSelenium();
      var remaining := extraccion.visitedUrls;
      while remaining != {}
        invariant remaining <= extraccion.visitedUrls
        invariant analisis.browserRunning
        invariant forall url :: url in extraccion.visitedUrls - remaining ==> RenderSucceeds(render(url))
        decreases remaining
      {
        var url :| url in remaining;
        var page := render(url);
        if !RenderSucceeds(page) {
          outcome := Raised(RenderError(page));
          return;
        }
        remaining := remaining - {url};
      }
      analisis.CerrarSelenium();
      outcome := Completed;
    }
  }

  /**
   * The script's own run, with no proxy list (a direct connection) so that
   * the start page `http://example.com` is fetched, here as an HTML page with
   * one absolute link whose rendering has a `<title>`. As written, `ejecutar`
   * raises and leaves the browser running.
   */
  method ScriptRunLeavesBrowserRunning() returns (outcome: Outcome, browserRunning: bool)
    ensures outcome == Raised(DynamicPassError) && browserRunning
  {
    var crawler := new CrawlerCompleto(None, map[], []);
    var page := Page(["http://example.com/about"], [], []);
    var resolve := JoinAbsolute;
    PlainHtmlHeader();
    ResolveSingleAbsolute("http://example.com", "http://example.com/about");
    outcome := crawler.EjecutarAsWritten("http://example.com", resolve, Fetched(Some("text/html"), page), (u: Url) => Rendered(true));
    browserRunning := crawler.analisis.browserRunning;
  }

  /** The same run with the missing call removed completes, quits the browser and stores the discovered URL. */
  method ScriptRunCorrected() returns (outcome: Outcome, browserRunning: bool, stored: set<Url>)
    ensures outcome == Completed && !browserRunning
    ensures stored == {"http://example.com/about"}
  {
    var crawler := new CrawlerCompleto(None, map[], []);
    var page := Page(["http://example.com/about"], [], []);
    var resolve := JoinAbsolute;
    PlainHtmlHeader();
    ResolveSingleAbsolute("http://example.com", "http://example.com/about");
    var render := (u: Url) => Rendered(true);
    assert forall u :: RenderSucceeds(render(u));
    outcome := crawler.Ejecutar("http://example.com", resolve, Fetched(Some("text/html"), page), render);
    assert crawler.extraccion.visitedUrls == {"http://example.com/about"};
    browserRunning := crawler.analisis.browserRunning;
    stored := crawler.almacenamiento.db.urls.Keys;
  }

  /** The corrected run on a page whose rendering has no `<title>` still raises, at the title print. */
  method ScriptRunCorrectedUntitled() returns (outcome: Outcome, browserRunning: bool)
    ensures outcome == Raised(AttributeError("string")) && browserRunning
  {
    var crawler := new CrawlerCompleto(None, map[], []);
    var page := Page(["http://example.com/about"], [], []);
    var resolve := JoinAbsolute;
    PlainHtmlHeader();
    ResolveSingleAbsolute("http://example.com", "http://example.com/about");
    outcome := crawler.Ejecutar("http://example.com", resolve, Fetched(Some("text/html"), page), (u: Url) => Rendered(false));
    browserRunning := crawler.analisis.browserRunning;
  }
}
