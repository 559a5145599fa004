/**
 * The gate both `parse` methods apply before extraction:
 * `'text/html' not in response.headers.get('Content-Type', '')`.
 */
module ContentType {
  import opened CrawlTypes

  /** `sub` occurs in `s` starting at index `i`. */
  predicate OccursAt(s: string, sub: string, i: int)
  {
    0 <= i && i + |sub| <= |s| && s[i..i + |sub|] == sub
  }

  /** Python's `sub in s` on strings: `sub` occurs in `s` as a contiguous slice. */
  function Contains(s: string, sub: string): (r: bool)
    ensures r <==> exists i :: OccursAt(s, sub, i)
    decreases |s|
  {
    if |s| < |sub| then false
    else if s[..|sub|] == sub then assert OccursAt(s, sub, 0); true
    else
      var tail := Contains(s[1..], sub);
      assert tail <==> exists i :: OccursAt(s, sub, i) by {
        if tail {
          var k :| OccursAt(s[1..], sub, k);
          ShiftOccurrence(s, sub, k + 1);
        }
        if i :| OccursAt(s, sub, i) {
          assert i != 0;
          ShiftOccurrence(s, sub, i);
        }
      }
      tail
  }

  lemma ShiftOccurrence(s: string, sub: string, i: int)
    requires 1 <= i && |s| > 0
    ensures OccursAt(s, sub, i) <==> OccursAt(s[1..], sub, i - 1)
  {
    if i + |sub| <= |s| {
      assert s[i..i + |sub|] == s[1..][i - 1..i - 1 + |sub|];
    }
  }

  /** `headers.get('Content-Type', '')`: an absent header reads as the empty string. */
  function HeaderValue(contentType: Option<string>): string
  {
    if contentType.Some? then contentType.value else ""
  }

  /**
   * The response is parsed only when its Content-Type contains `text/html`.
   * A missing header, or one too short to hold `text/html`, is never HTML;
   * a header that begins with `text/html` (parameters such as a charset may
   * follow) always is.
   */
  function IsHtml(contentType: Option<string>): (r: bool)
    ensures r <==> Contains(HeaderValue(contentType), "text/html")
    ensures r ==> contentType.Some? && |contentType.value| >= 9
    ensures contentType.Some? && "text/html" <= contentType.value ==> r
  {
    var v := HeaderValue(contentType);
    assert "text/html" <= v ==> OccursAt(v, "text/html", 0);
    Contains(v, "text/html")
  }

  /** A bare `text/html` header is HTML. */
  lemma PlainHtmlHeader()
    ensures IsHtml(Some("text/html"))
  {
    assert "text/html" <= "text/html";
  }
}
