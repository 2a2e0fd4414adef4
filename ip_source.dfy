/** The earlier proxy-list scrapers: `request` catches the fetch error itself and
    returns None, `get` repeats each request until it returns a page, and the row
    loops run unguarded, so an error in a row propagates out of `get`. */
module IpSource {
  import opened Wrappers
  import opened Decimal
  import opened Seqs
  import opened PoolConfig
  import opened ProxyPage
  import PoolSource

  /** `request(url)` on one fetch attempt: None when the fetch failed or the
      status is not 200, the body otherwise. */
  function IpRequest(a: Attempt): (r: Option<Document>)
    ensures r.Some? <==> a.Response? && a.status == 200
  {
    match a
    case Failure => None
    case Response(status, body) => if status != 200 then None else Some(body)
  }

  /** Catching the error inside `request` gives what the undecorated request of
      the other scrapers gives once wrapped by `return_none_when_exception`. */
  lemma IpRequestIsGuarded(a: Attempt)
    ensures ReturnNoneWhenException(PoolSource.Requested(a)) == Return(IpRequest(a))
  {
  }

  /** `content = request(url)` followed by `while content is None: content =
      request(url)`, over the given attempts; Exhausted when they run out. It ends
      as the decorated request of the other scrapers does. */
  method FetchPage(attempts: seq<Attempt>) returns (r: Repeated<Document>)
    ensures r == PoolSource.Request(attempts)
    ensures r.Value? ==> 1 <= r.calls <= |attempts| && Some(r.value) == IpRequest(attempts[r.calls - 1])
  {
    PoolSource.RequestFirstSuccess(attempts);
    if attempts == [] {
      return Exhausted;
    }
    var content := IpRequest(attempts[0]);
    var i := 1;
    while content.None?
      invariant 1 <= i <= |attempts|
      invariant content == IpRequest(attempts[i - 1])
      invariant forall j :: 0 <= j < i - 1 ==> !(attempts[j].Response? && attempts[j].status == 200)
      decreases |attempts| - i
    {
      if i == |attempts| {
        return Exhausted;
      }
      content := IpRequest(attempts[i]);
      i := i + 1;
    }
    r := Value(content.value, i);
  }

  /** The row loop of one page of `get`, unguarded: the site's rows, then the
      URLs of the accepted rows or the error that escapes. */
  function PageCall(site: Site, doc: Document): Result<seq<string>> {
    match RowsOf(site, doc)
    case Raised(e) => Raised(e)
    case Ok(rows) => Scan(site, true, rows)
  }

  /** The row loop of one page written out. */
  method ScanPage(site: Site, doc: Document) returns (r: Result<seq<string>>)
    ensures r == PageCall(site, doc)
  {
    var rows := RowsOf(site, doc);
    if rows.Raised? {
      return Raised(rows.error);
    }
    r := CollectRows(site, true, rows.value);
  }

  /** The pages' row loops run in page order: the URLs of all of them, or the
      first page whose loop raised, with its error. */
  datatype PageRun = AllPages(urls: seq<string>) | FailedOn(page: nat, error: Exception)

  function RunPages(site: Site, docs: seq<Document>): PageRun {
    if docs == [] then AllPages([])
    else
      match RunPages(site, docs[..|docs| - 1])
      case FailedOn(p, e) => FailedOn(p, e)
      case AllPages(urls) =>
        match PageCall(site, docs[|docs| - 1])
        case Raised(e) => FailedOn(|docs| - 1, e)
        case Ok(found) => AllPages(urls + found)
  }

  /** `get()` over `n` pages: a page whose row loop raises ends it with that
      error; otherwise the attempts running out ends it on the page being
      fetched; otherwise it returns the URLs of every page. */
  function IpHarvested(site: Site, n: nat, attempts: seq<Attempt>): Harvest {
    var f := PoolSource.Fetched(n, attempts);
    match RunPages(site, f.docs)
    case FailedOn(p, e) => Crashed(p, e)
    case AllPages(urls) => if f.complete then Urls(urls, f.used) else GaveUp(|f.docs|)
  }

  /** The pages of `n` styles of `n` pages each, style by style, as the two nested
      loops of `get` visit them: `prefix + style + middle + page + suffix`. */
  function StyledPages(prefix: string, middle: string, suffix: string, lo: nat, hi: nat, first: nat, last: nat): (r: seq<string>)
    requires lo <= hi && first <= last
    ensures |r| == (hi - lo) * (last - first)
    decreases hi - lo
  {
    if lo == hi then []
    else
      var rest := StyledPages(prefix, middle, suffix, lo + 1, hi, first, last);
      MulSucc(hi - lo - 1, last - first);
      PoolSource.Numbered(prefix + NatToString(lo) + middle, suffix, first, last) + rest
  }

  /** The pages a site's `get` fetches, in order. XiCi returns from inside its
      style loop, so only the "nn" pages are fetched. */
  function IpPageUrls(site: Site): seq<string> {
    match site
    case XiCi => PoolSource.PageUrls(XiCi, "nn")
    case YunDaiLi => StyledPages("http://www.ip3366.net/?stype=", "&page=", "", 1, 5, 1, 8)
    case YunHai => StyledPages("http://www.kxdaili.com/dailiip/", "/", ".html", 1, 5, 1, 11)
    case _ => PoolSource.PageUrls(site, "")
  }

  /** The nested loops of YunDaiLi and YunHai fetch, style after style, the pages
      the other scrapers fetch for one style each. */
  lemma StyledPagesAreStyles()
    ensures IpPageUrls(YunDaiLi) == PoolSource.PageUrls(YunDaiLi, "1") + PoolSource.PageUrls(YunDaiLi, "2") +
      PoolSource.PageUrls(YunDaiLi, "3") + PoolSource.PageUrls(YunDaiLi, "4")
    ensures IpPageUrls(YunHai) == PoolSource.PageUrls(YunHai, "1") + PoolSource.PageUrls(YunHai, "2") +
      PoolSource.PageUrls(YunHai, "3") + PoolSource.PageUrls(YunHai, "4")
    ensures |IpPageUrls(YunDaiLi)| == 28 && |IpPageUrls(YunHai)| == 40
  {
    FourStyles("http://www.ip3366.net/?stype=", "&page=", "", 1, 8);
    FourStyles("http://www.kxdaili.com/dailiip/", "/", ".html", 1, 11);
  }

  /** Styles 1 to 4, written out. */
  lemma FourStyles(prefix: string, middle: string, suffix: string, first: nat, last: nat)
    requires first <= last
    ensures StyledPages(prefix, middle, suffix, 1, 5, first, last) ==
      PoolSource.Numbered(prefix + "1" + middle, suffix, first, last) + PoolSource.Numbered(prefix + "2" + middle, suffix, first, last) +
      PoolSource.Numbered(prefix + "3" + middle, suffix, first, last) + PoolSource.Numbered(prefix + "4" + middle, suffix, first, last)
  {
    assert NatToString(1) == "1" && NatToString(2) == "2" && NatToString(3) == "3" && NatToString(4) == "4";
    var s1 := PoolSource.Numbered(prefix + "1" + middle, suffix, first, last);
    var s2 := PoolSource.Numbered(prefix + "2" + middle, suffix, first, last);
    var s3 := PoolSource.Numbered(prefix + "3" + middle, suffix, first, last);
    var s4 := PoolSource.Numbered(prefix + "4" + middle, suffix, first, last);
    assert StyledPages(prefix, middle, suffix, 5, 5, first, last) == [];
    assert StyledPages(prefix, middle, suffix, 4, 5, first, last) == s4;
    assert StyledPages(prefix, middle, suffix, 3, 5, first, last) == s3 + s4;
    assert StyledPages(prefix, middle, suffix, 2, 5, first, last) == s2 + (s3 + s4);
    assert StyledPages(prefix, middle, suffix, 1, 5, first, last) == s1 + (s2 + (s3 + s4));
  }

  /** `get()`: request every page in order until it comes back and run its row
      loop. `fetched` is the pages whose body came back: all of them; or, when the
      attempts ran out on page k, the pages before k (page k was requested but
      never came back); or, when page k's row loop raised, the pages up to and
      including k. */
  method Get(site: Site, attempts: seq<Attempt>) returns (h: Harvest, fetched: seq<string>)
    ensures h == IpHarvested(site, |IpPageUrls(site)|, attempts)
    ensures !h.GaveUp? || (h.page < |IpPageUrls(site)| && fetched == IpPageUrls(site)[..h.page])
    ensures h.Urls? ==> fetched == IpPageUrls(site)
    ensures h.Crashed? ==> h.page < |IpPageUrls(site)| && fetched == IpPageUrls(site)[..h.page + 1]
  {
    h, fetched := GetPages(site, IpPageUrls(site), attempts);
  }

  /** The page loop of `get()` over the given pages; `fetched` as for `Get`. */
  method GetPages(site: Site, pages: seq<string>, attempts: seq<Attempt>) returns (h: Harvest, fetched: seq<string>)
    ensures h == IpHarvested(site, |pages|, attempts)
    ensures !h.GaveUp? || (h.page < |pages| && fetched == pages[..h.page])
    ensures h.Urls? ==> fetched == pages
    ensures h.Crashed? ==> h.page < |pages| && fetched == pages[..h.page + 1]
  {
    var urls: seq<string> := [];
    var used: nat := 0;
    var rest := attempts;
    var k: nat := 0;
    var left := |pages|;
    ghost var docs: seq<Document> := [];
    PoolSource.ThenNothing(PoolSource.Fetched(|pages|, attempts));
    while left > 0
      invariant 0 <= k <= |pages| && used + |rest| == |attempts|
      invariant |docs| == k && left + k == |pages|
      invariant RunPages(site, docs) == AllPages(urls)
      invariant PoolSource.Fetched(|pages|, attempts) == PoolSource.Then(docs, used, PoolSource.Fetched(left, rest))
    {
      var served, found, calls := ServePage(site, left, rest, docs, urls);
      if !served {
        GaveUpAt(site, |pages|, attempts, docs, urls, used, rest);
        return GaveUp(k), pages[..k];
      }
      PoolSource.FetchedAdvance(|pages|, attempts, docs, used, left, rest, calls);
      if found.Raised? {
        CrashedAt(site, |pages|, attempts, docs + [PoolSource.Request(rest).value], found.error, used + calls,
                  PoolSource.Fetched(left - 1, rest[calls..]));
        return Crashed(k, found.error), pages[..k + 1];
      }
      docs := docs + [PoolSource.Request(rest).value];
      urls := urls + found.value;
      used := used + calls;
      rest := rest[calls..];
      k := k + 1;
      left := left - 1;
    }
    AllServed(site, |pages|, attempts, docs, urls, used, rest);
    h, fetched := Urls(urls, used), pages;
  }

  /** One round of the page loop: request the next page until it comes back and
      run its row loop, after the pages `docs` whose loops gave `urls`. */
  method ServePage(site: Site, n: nat, attempts: seq<Attempt>, ghost docs: seq<Document>, urls: seq<string>)
    returns (served: bool, found: Result<seq<string>>, calls: nat)
    requires n > 0 && RunPages(site, docs) == AllPages(urls)
    ensures served <==> PoolSource.Request(attempts).Value?
    ensures !served ==> PoolSource.Fetched(n, attempts) == PoolSource.Fetch([], |attempts|, false)
    ensures served ==> calls == PoolSource.Request(attempts).calls && 1 <= calls <= |attempts|
    ensures served ==> (PoolSource.Fetched(n, attempts) ==
      PoolSource.Then([PoolSource.Request(attempts).value], calls, PoolSource.Fetched(n - 1, attempts[calls..])))
    ensures served && found.Ok? ==> RunPages(site, docs + [PoolSource.Request(attempts).value]) == AllPages(urls + found.value)
    ensures served && found.Raised? ==> RunPages(site, docs + [PoolSource.Request(attempts).value]) == FailedOn(|docs|, found.error)
  {
    var content := FetchPage(attempts);
    PoolSource.FetchStep(n, attempts);
    PoolSource.RequestUses(attempts);
    if !content.Value? {
      return false, Ok([]), 0;
    }
    found := ScanPage(site, content.value);
    assert (docs + [content.value])[..|docs|] == docs;
    calls := content.calls;
    served := true;
  }

  /** The harvest when the row loop of the last page of `docs` raised. */
  lemma CrashedAt(site: Site, total: nat, attempts: seq<Attempt>, docs: seq<Document>, e: Exception, used: nat, later: PoolSource.Fetch)
    requires docs != [] && RunPages(site, docs) == FailedOn(|docs| - 1, e)
    requires PoolSource.Fetched(total, attempts) == PoolSource.Then(docs, used, later)
    ensures IpHarvested(site, total, attempts) == Crashed(|docs| - 1, e)
  {
    var all := PoolSource.Fetched(total, attempts).docs;
    assert all[..|docs|] == docs;
    RunPagesKeepsFailure(site, all, |docs|);
  }

  /** Once the pages up to `k` fail, the run over all pages fails the same way. */
  lemma {:induction false} RunPagesKeepsFailure(site: Site, docs: seq<Document>, k: nat)
    requires k <= |docs| && RunPages(site, docs[..k]).FailedOn?
    ensures RunPages(site, docs) == RunPages(site, docs[..k])
    decreases |docs| - k
  {
    if k < |docs| {
      assert docs[..k + 1][..k] == docs[..k];
      assert RunPages(site, docs[..k + 1]) == RunPages(site, docs[..k]);
      RunPagesKeepsFailure(site, docs, k + 1);
    } else {
      assert docs[..k] == docs;
    }
  }

  /** The harvest when the attempts ran out on the page after `docs`. */
  lemma GaveUpAt(site: Site, total: nat, attempts: seq<Attempt>, docs: seq<Document>, urls: seq<string>, used: nat, rest: seq<Attempt>)
    requires |docs| < total && used + |rest| == |attempts| && RunPages(site, docs) == AllPages(urls)
    requires PoolSource.Fetched(total, attempts) == PoolSource.Then(docs, used, PoolSource.Fetch([], |rest|, false))
    ensures IpHarvested(site, total, attempts) == GaveUp(|docs|)
  {
    assert docs + [] == docs;
  }

  /** The harvest when every page came back and no row loop raised. */
  lemma AllServed(site: Site, total: nat, attempts: seq<Attempt>, docs: seq<Document>, urls: seq<string>, used: nat, rest: seq<Attempt>)
    requires |docs| == total && RunPages(site, docs) == AllPages(urls)
    requires PoolSource.Fetched(total, attempts) == PoolSource.Then(docs, used, PoolSource.Fetched(0, rest))
    ensures IpHarvested(site, total, attempts) == Urls(urls, used)
  {
    assert docs + [] == docs;
  }

  /** A failed attempt only costs one more attempt: the harvest is the same. */
  lemma IpRetryIsTransparent(site: Site, n: nat, attempts: seq<Attempt>)
    requires n > 0 && attempts != [] && !(attempts[0].Response? && attempts[0].status == 200)
    ensures IpHarvested(site, n, attempts) == Shifted([], 1, 0, IpHarvested(site, n, attempts[1..]))
  {
    PoolSource.RetryIsTransparent(n, attempts);
    var f := PoolSource.Fetched(n, attempts[1..]);
    assert [] + f.docs == f.docs;
    var h := IpHarvested(site, n, attempts[1..]);
    if h.Urls? {
      assert [] + h.urls == h.urls;
    }
  }

  /** The sites whose row tests are the same in both scrapers. */
  predicate SameTests(site: Site) {
    site == XiCi || site == SixSix || site == QuanMin
  }

  lemma ScanIgnoresFlag(site: Site, rows: seq<Row>)
    requires SameTests(site)
    ensures Scan(site, true, rows) == Scan(site, false, rows)
  {
    forall i | 0 <= i < |rows|
      ensures Decide(site, true, rows[i]) == Decide(site, false, rows[i])
    {
    }
    assert Verdicts(site, true, rows) == Verdicts(site, false, rows);
  }

  /** Pages whose row loops all return give the URLs the guarded row loops give. */
  lemma {:induction false} RunPagesAgree(site: Site, docs: seq<Document>, urls: seq<string>)
    requires SameTests(site) && RunPages(site, docs) == AllPages(urls)
    ensures PoolSource.PagesUrls(site, docs) == urls
  {
    if docs != [] {
      var init, doc := docs[..|docs| - 1], docs[|docs| - 1];
      var before := RunPages(site, init);
      assert before.AllPages?;
      RunPagesAgree(site, init, before.urls);
      assert PageCall(site, doc).Ok?;
      if RowsOf(site, doc).Ok? {
        ScanIgnoresFlag(site, RowsOf(site, doc).value);
      }
    }
  }

  /** For a site whose row tests are the same in both scrapers, a run in which no
      page's row loop raises ends exactly as the other scraper's `get` does. */
  lemma SameTestsAgree(site: Site, n: nat, attempts: seq<Attempt>)
    requires SameTests(site)
    ensures !IpHarvested(site, n, attempts).Crashed? ==> PoolSource.Harvested(site, n, attempts) == IpHarvested(site, n, attempts)
  {
    var f := PoolSource.Fetched(n, attempts);
    if RunPages(site, f.docs).AllPages? {
      RunPagesAgree(site, f.docs, RunPages(site, f.docs).urls);
    }
  }
}
