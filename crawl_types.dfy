/**
 * Values shared by both crawler scripts: URLs, the resolver that stands for
 * `urljoin`, the parsed page, the outcome of an HTTP request and the Python
 * exceptions the scripts raise.
 */
module CrawlTypes {

  datatype Option<+T> = None | Some(value: T)

  type Url = string

  /**
   * `urljoin(base, href)`: reference resolution in the sense of section 5.2
   * of RFC 3986. Its internals are not modelled; every operation takes it as
   * a parameter, so every property proved holds for any resolver.
   */
  type Resolver = (Url, string) -> Url

  /**
   * What BeautifulSoup finds in a document, in document order: the `href` of
   * every `<a href>`, the `src` of every `<script src>` and of every `<img src>`.
   */
  datatype Page = Page(anchors: seq<string>, scripts: seq<string>, images: seq<string>)

  /**
   * The outcome of `requests.get` followed by `raise_for_status`: either a
   * `RequestException` (connection fault, timeout, non-2xx status), or a
   * response with its Content-Type header (absent or present) and its parsed body.
   */
  datatype FetchOutcome =
    | RequestFailed
    | Fetched(contentType: Option<string>, page: Page)

  /** The Python exceptions the model can raise. */
  datatype PyError = AttributeError(attribute: string) | WebDriverException

  /** How a call returns: normally, or by raising an exception that escapes it. */
  datatype Outcome = Completed | Raised(error: PyError)

  function Elems(us: seq<Url>): set<Url>
  {
    set u | u in us
  }

  predicate NoDuplicates(us: seq<Url>)
  {
    forall i, j :: 0 <= i < j < |us| ==> us[i] != us[j]
  }

  /** `urljoin(base_url, h)` for every `h` of `hrefs`, in order. */
  function ResolveAll(resolve: Resolver, baseUrl: Url, hrefs: seq<string>): seq<Url>
  {
    if hrefs == [] then []
    else ResolveAll(resolve, baseUrl, hrefs[..|hrefs| - 1]) + [resolve(baseUrl, hrefs[|hrefs| - 1])]
  }

  /** `urljoin(base, href)` for an absolute `href`: the href itself. */
  function JoinAbsolute(baseUrl: Url, href: string): Url
  {
    href
  }

  /** A page whose single link is absolute resolves to that link, whatever the base. */
  lemma ResolveSingleAbsolute(baseUrl: Url, link: Url)
    ensures ResolveAll(JoinAbsolute, baseUrl, [link]) == [link]
    ensures Elems([link]) == {link}
  {
    assert [link][..0] == [];
  }

  /** A single href resolves to its join with the base. */
  lemma ResolveAllSingle(resolve: Resolver, baseUrl: Url, href: string)
    ensures ResolveAll(resolve, baseUrl, [href]) == [resolve(baseUrl, href)]
  {
    assert [href][..0] == [];
  }

  /** Resolving `a + b` is resolving `a`, then `b`. */
  lemma {:induction false} ResolveAllConcat(resolve: Resolver, baseUrl: Url, a: seq<string>, b: seq<string>)
    ensures ResolveAll(resolve, baseUrl, a + b) == ResolveAll(resolve, baseUrl, a) + ResolveAll(resolve, baseUrl, b)
    decreases |b|
  {
    if b == [] {
      assert a + b == a;
    } else {
      var init := b[..|b| - 1];
      assert (a + b)[..|a + b| - 1] == a + init;
      ResolveAllConcat(resolve, baseUrl, a, init);
    }
  }

  lemma ElemsConcat(a: seq<Url>, b: seq<Url>)
    ensures Elems(a + b) == Elems(a) + Elems(b)
  {
    assert forall u :: u in a + b <==> u in a || u in b;
  }

  lemma ElemsCons(a: seq<Url>)
    requires a != []
    ensures Elems(a) == {a[0]} + Elems(a[1..])
  {
    assert a == [a[0]] + a[1..];
    ElemsConcat([a[0]], a[1..]);
  }

  /** Two duplicate-free sequences with no element in common concatenate to a duplicate-free one. */
  lemma NoDuplicatesConcat(a: seq<Url>, b: seq<Url>)
    requires NoDuplicates(a) && NoDuplicates(b)
    requires Elems(a) !! Elems(b)
    ensures NoDuplicates(a + b)
  {
    forall i, j | 0 <= i < j < |a + b|
      ensures (a + b)[i] != (a + b)[j]
    {
      if j >= |a| && i < |a| {
        assert (a + b)[i] in Elems(a);
        assert (a + b)[j] == b[j - |a|] && b[j - |a|] in Elems(b);
      }
    }
  }
}
