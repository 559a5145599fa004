/**
 * The SQLite database both scripts write to, reduced to its two tables:
 * `urls(url UNIQUE, status)` as a map from URL to status, written with
 * `INSERT OR IGNORE`, and `assets(url, asset_type, asset_url)` as an
 * append-only sequence of rows, written with `INSERT`.
 */
module Storage {
  import opened CrawlTypes

  /** The status every discovered URL is stored with (the default argument of the store methods). */
  const Pending: string := "pending"

  /** One row of the `assets` table: the page it was found on, `'script'` or `'image'`, the resolved asset URL. */
  datatype AssetRow = AssetRow(url: Url, assetType: string, assetUrl: Url)

  /**
   * `INSERT OR IGNORE INTO urls (url, status)`: a URL already present keeps
   * its status; a new URL is added with `status`; no other row changes.
   */
  function InsertOrIgnore(table: map<Url, string>, url: Url, status: string): (r: map<Url, string>)
    ensures r.Keys == table.Keys + {url}
    ensures forall u :: u in table ==> r[u] == table[u]
    ensures url !in table ==> r[url] == status
  {
    if url in table then table else table[url := status]
  }

  /** The `urls` table after `INSERT OR IGNORE` of every URL of `urls`, all with the same status, in any order. */
  function InsertOrIgnoreEach(table: map<Url, string>, urls: set<Url>, status: string): (r: map<Url, string>)
    ensures r.Keys == table.Keys + urls
    ensures forall u :: u in table ==> r[u] == table[u]
    ensures forall u :: u in urls && u !in table ==> r[u] == status
  {
    map u | u in table.Keys + urls :: if u in table then table[u] else status
  }

  /** Inserting one more URL into the batch is inserting it after the batch. */
  lemma InsertOrIgnoreEachStep(table: map<Url, string>, urls: set<Url>, url: Url, status: string)
    ensures InsertOrIgnore(InsertOrIgnoreEach(table, urls, status), url, status)
         == InsertOrIgnoreEach(table, urls + {url}, status)
  {
  }

  /** The rows `_extract_assets` writes for one tag kind: one per source, in document order, found on `baseUrl`. */
  function Rows(resolve: Resolver, baseUrl: Url, assetType: string, srcs: seq<string>): (rows: seq<AssetRow>)
    ensures |rows| == |srcs|
    ensures forall i :: 0 <= i < |srcs| ==> rows[i] == AssetRow(baseUrl, assetType, resolve(baseUrl, srcs[i]))
    decreases |srcs|
  {
    if srcs == [] then []
    else Rows(resolve, baseUrl, assetType, srcs[..|srcs| - 1]) + [AssetRow(baseUrl, assetType, resolve(baseUrl, srcs[|srcs| - 1]))]
  }

  /** The rows `_extract_assets` writes for a page: every script, then every image. */
  function AssetRows(resolve: Resolver, baseUrl: Url, scripts: seq<string>, images: seq<string>): seq<AssetRow>
  {
    Rows(resolve, baseUrl, "script", scripts) + Rows(resolve, baseUrl, "image", images)
  }

  /**
   * `_extract_assets` records exactly one row per `<script src>` and per
   * `<img src>`, every script row before every image row, each in document
   * order, each with the page URL as its source and no dedup.
   */
  lemma AssetRowsLayout(resolve: Resolver, baseUrl: Url, scripts: seq<string>, images: seq<string>)
    ensures var rows := AssetRows(resolve, baseUrl, scripts, images);
      && |rows| == |scripts| + |images|
      && (forall i :: 0 <= i < |scripts| ==> rows[i] == AssetRow(baseUrl, "script", resolve(baseUrl, scripts[i])))
      && (forall i :: 0 <= i < |images| ==> rows[|scripts| + i] == AssetRow(baseUrl, "image", resolve(baseUrl, images[i])))
      && (forall i, j :: 0 <= i < j < |rows| && rows[j].assetType == "script" ==> rows[i].assetType == "script")
      && (forall i :: 0 <= i < |rows| ==> rows[i].url == baseUrl)
  {
    var rows := AssetRows(resolve, baseUrl, scripts, images);
    forall i, j | 0 <= i < j < |rows| && rows[j].assetType == "script"
      ensures rows[i].assetType == "script"
    {
      assert j < |scripts|;
    }
  }

  /** The database file: its two tables. */
  class Database {
    var urls: map<Url, string>
    var assets: seq<AssetRow>

    /** The database as found at `db_path`: empty tables when the file did not exist. */
    constructor (priorUrls: map<Url, string>, priorAssets: seq<AssetRow>)
      ensures urls == priorUrls && assets == priorAssets
    {
      urls := priorUrls;
      assets := priorAssets;
    }

    method InsertOrIgnoreUrl(url: Url, status: string)
      modifies this
      ensures urls == InsertOrIgnore(old(urls), url, status)
      ensures assets == old(assets)
    {
      urls := InsertOrIgnore(urls, url, status);
    }

    /** `INSERT INTO assets`: appends exactly one row and leaves the earlier rows as they were. */
    method InsertAsset(row: AssetRow)
      modifies this
      ensures assets == old(assets) + [row]
      ensures urls == old(urls)
    {
      assets := assets + [row];
    }
  }
}
