/** Proxy rotation, identical in both scripts. */
module Politeness {
  import opened CrawlTypes

  /**
   * `rotate_proxy`: `None` when the pool is empty, otherwise some member of
   * the pool. `random.choice` is modelled as an unconstrained choice of index;
   * its uniform distribution is not modelled.
   */
  method RotateProxy(proxyList: seq<Url>) returns (proxy: Option<Url>)
    ensures proxy.None? <==> proxyList == []
    ensures proxy.Some? ==> proxy.value in proxyList
  {
    if proxyList != [] {
      var i :| 0 <= i < |proxyList|;
      proxy := Some(proxyList[i]);
    } else {
      proxy := None;
    }
  }
}
