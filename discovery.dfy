/**
 * Link dedup: the check `full_url not in self.visited_urls` followed by
 * `self.visited_urls.add(full_url)`, run over the resolved hrefs in document
 * order. `NewUrls(seen, us)` is the sequence of URLs that pass the check, in
 * the order they pass it, when `seen` is the visited set before the walk.
 */
module Discovery {
  import opened CrawlTypes

  function NewUrls(seen: set<Url>, us: seq<Url>): seq<Url>
    decreases |us|
  {
    if us == [] then []
    else if us[0] in seen then NewUrls(seen, us[1..])
    else [us[0]] + NewUrls(seen + {us[0]}, us[1..])
  }

  /** Walking `a + b` is walking `a` and then walking `b` with everything in `a` marked visited. */
  lemma {:induction false} NewUrlsConcat(seen: set<Url>, a: seq<Url>, b: seq<Url>)
    ensures NewUrls(seen, a + b) == NewUrls(seen, a) + NewUrls(seen + Elems(a), b)
    decreases |a|
  {
    if a == [] {
      assert a + b == b;
      assert Elems(a) == {};
      assert seen + Elems(a) == seen;
    } else {
      assert (a + b)[0] == a[0];
      assert (a + b)[1..] == a[1..] + b;
      ElemsCons(a);
      if a[0] in seen {
        NewUrlsConcat(seen, a[1..], b);
        assert seen + Elems(a[1..]) == seen + Elems(a);
      } else {
        NewUrlsConcat(seen + {a[0]}, a[1..], b);
        assert seen + {a[0]} + Elems(a[1..]) == seen + Elems(a);
      }
    }
  }

  /** Walking one more href adds it exactly when it is neither in `seen` nor among the earlier hrefs. */
  lemma NewUrlsSnoc(seen: set<Url>, a: seq<Url>, u: Url)
    ensures NewUrls(seen, a + [u]) == NewUrls(seen, a) + (if u in seen + Elems(a) then [] else [u])
  {
    NewUrlsConcat(seen, a, [u]);
    assert [u][1..] == [];
  }

  /** The URLs that pass the check are exactly the hrefs' URLs that were not yet visited. */
  lemma {:induction false} NewUrlsElems(seen: set<Url>, us: seq<Url>)
    ensures Elems(NewUrls(seen, us)) == Elems(us) - seen
    decreases |us|
  {
    if us != [] {
      ElemsCons(us);
      if us[0] in seen {
        NewUrlsElems(seen, us[1..]);
      } else {
        NewUrlsElems(seen + {us[0]}, us[1..]);
        ElemsConcat([us[0]], NewUrls(seen + {us[0]}, us[1..]));
      }
    }
  }

  /** A walk stores at most one URL per href. */
  lemma {:induction false} NewUrlsLength(seen: set<Url>, us: seq<Url>)
    ensures |NewUrls(seen, us)| <= |us|
    decreases |us|
  {
    if us != [] {
      if us[0] in seen {
        NewUrlsLength(seen, us[1..]);
      } else {
        NewUrlsLength(seen + {us[0]}, us[1..]);
      }
    }
  }

  /** No URL passes the check twice in one walk. */
  lemma {:induction false} NewUrlsNoDuplicates(seen: set<Url>, us: seq<Url>)
    ensures NoDuplicates(NewUrls(seen, us))
    decreases |us|
  {
    if us != [] {
      if us[0] in seen {
        NewUrlsNoDuplicates(seen, us[1..]);
      } else {
        var rest := NewUrls(seen + {us[0]}, us[1..]);
        NewUrlsNoDuplicates(seen + {us[0]}, us[1..]);
        NewUrlsElems(seen + {us[0]}, us[1..]);
        assert us[0] !in Elems(rest);
        NoDuplicatesConcat([us[0]], rest);
      }
    }
  }

  /** A walk over hrefs that all resolve to visited URLs stores nothing. */
  lemma NewUrlsOfVisited(seen: set<Url>, us: seq<Url>)
    requires Elems(us) <= seen
    ensures NewUrls(seen, us) == []
  {
    NewUrlsElems(seen, us);
  }

  /** After hrefs that are all visited, the first unvisited URL is the first to pass the check. */
  lemma NewUrlsAfterVisited(seen: set<Url>, done: seq<Url>, u: Url, rest: seq<Url>)
    requires Elems(done) <= seen && u !in seen
    ensures NewUrls(seen, done + ([u] + rest)) == [u] + NewUrls(seen + {u}, rest)
  {
    NewUrlsConcat(seen, done, [u] + rest);
    NewUrlsOfVisited(seen, done);
    assert seen + Elems(done) == seen;
    assert ([u] + rest)[0] == u;
    assert ([u] + rest)[1..] == rest;
  }

  /**
   * First-occurrence order: if the href at `j` is the first occurrence of an
   * unvisited URL, every unvisited URL met before `j` passes the check before it.
   */
  lemma FirstOccurrenceOrder(seen: set<Url>, us: seq<Url>, i: nat, j: nat)
    requires i < j < |us|
    requires us[i] !in seen && us[j] !in seen && us[j] !in us[..j]
    ensures exists k :: 0 < k < |NewUrls(seen, us)| && NewUrls(seen, us)[k] == us[j] && us[i] in NewUrls(seen, us)[..k]
  {
    assert us == us[..j] + us[j..];
    NewUrlsConcat(seen, us[..j], us[j..]);
    var before := NewUrls(seen, us[..j]);
    var after := NewUrls(seen + Elems(us[..j]), us[j..]);
    assert us[j..][0] == us[j];
    assert after == [us[j]] + NewUrls(seen + Elems(us[..j]) + {us[j]}, us[j + 1..]) by {
      assert us[j..][1..] == us[j + 1..];
    }
    NewUrlsElems(seen, us[..j]);
    assert us[i] in Elems(us[..j]);
    assert us[i] in Elems(before);
    var r := NewUrls(seen, us);
    assert r == before + after;
    assert r[|before|] == us[j];
    assert r[..|before|] == before;
  }
}
