/** The proxy-list scrapers whose `request` is decorated to retry and whose
    `_extract` is decorated to turn any error into None. */
module PoolSource {
  import opened Wrappers
  import opened Decimal
  import opened Seqs
  import opened PoolConfig
  import opened ProxyPage

  /** One call of the undecorated `request(url)` on one fetch attempt: the fetch
      raises when it fails, and a status other than 200 raises too; otherwise the
      body is returned. */
  function Requested(a: Attempt): (c: Call<Document>)
    ensures c.Return? <==> a.Response? && a.status == 200
    ensures c.Return? ==> c.value == Some(a.body)
  {
    match a
    case Failure => Raise(RequestError)
    case Response(status, body) => if status != 200 then Raise(StatusError) else Return(Some(body))
  }

  /** The calls of `request` on successive attempts. */
  function Calls(attempts: seq<Attempt>): (r: seq<Call<Document>>)
    ensures |r| == |attempts| && forall i :: 0 <= i < |r| ==> r[i] == Requested(attempts[i])
  {
    if attempts == [] then [] else [Requested(attempts[0])] + Calls(attempts[1..])
  }

  /** The decorated `request` on successive attempts: the first attempt that got
      status 200 gives its body; every other attempt is skipped. */
  function Request(attempts: seq<Attempt>): Repeated<Document> {
    if attempts == [] then Exhausted
    else if attempts[0].Response? && attempts[0].status == 200 then Value(attempts[0].body, 1)
    else
      match Request(attempts[1..])
      case Value(d, k) => Value(d, k + 1)
      case Propagated(e, k) => Propagated(e, k + 1)
      case Exhausted => Exhausted
  }

  /** `Request` is `repeat_while_return_none` around `return_none_when_exception`
      around the undecorated fetch. */
  lemma {:induction false} DecoratedRequest(attempts: seq<Attempt>)
    ensures Request(attempts) == Repeat(Guarded(Calls(attempts)))
  {
    if attempts != [] {
      DecoratedRequest(attempts[1..]);
      var g := Guarded(Calls(attempts));
      assert g[0] == ReturnNoneWhenException(Requested(attempts[0]));
      assert Guarded(Calls(attempts[1..])) == g[1..] by {
        assert Calls(attempts[1..]) == Calls(attempts)[1..];
      }
    }
  }

  /** The decorated request returns the body of the first attempt that got status
      200, after using every attempt up to it; it never raises, and it runs out only
      when no attempt succeeds. */
  lemma RequestFirstSuccess(attempts: seq<Attempt>)
    ensures !Request(attempts).Propagated?
    ensures Request(attempts).Value? ==> var n := Request(attempts).calls;
      1 <= n <= |attempts| && attempts[n - 1] == Response(200, Request(attempts).value) &&
      forall j :: 0 <= j < n - 1 ==> !(attempts[j].Response? && attempts[j].status == 200)
    ensures Request(attempts).Exhausted? <==> forall j :: 0 <= j < |attempts| ==> !(attempts[j].Response? && attempts[j].status == 200)
  {
    DecoratedRequest(attempts);
    var g := Guarded(Calls(attempts));
    GuardedNeverPropagates(Calls(attempts));
    RepeatFirstResult(g);
  }

  /** The decorated request as called: `repeat_while_return_none` around
      `return_none_when_exception` around the fetch. */
  method RequestPage(attempts: seq<Attempt>) returns (r: Repeated<Document>)
    ensures r == Request(attempts)
  {
    var guarded := Guarded(Calls(attempts));
    r := RepeatWhileReturnNone(guarded);
    DecoratedRequest(attempts);
  }

  /** The undecorated `_extract(html)`: the site's rows, then the row loop. */
  function ExtractCall(site: Site, doc: Document): Call<seq<string>> {
    match RowsOf(site, doc)
    case Raised(e) => Raise(e)
    case Ok(rows) =>
      match Scan(site, false, rows)
      case Raised(e) => Raise(e)
      case Ok(urls) => Return(Some(urls))
  }

  /** The decorated `_extract(html)`, followed by `or []`: an error gives no URLs. */
  function Extracted(site: Site, doc: Document): seq<string> {
    var r := ReturnNoneWhenException(ExtractCall(site, doc)).value;
    if r.None? then [] else r.value
  }

  /** A page contributes the URLs of its accepted rows when its rows can be found
      and no row test raises, and nothing otherwise. */
  lemma ExtractedRule(site: Site, doc: Document)
    ensures RowsOf(site, doc).Raised? ==> Extracted(site, doc) == []
    ensures RowsOf(site, doc).Ok? ==> var rows := RowsOf(site, doc).value;
      Extracted(site, doc) == if exists i :: 0 <= i < |rows| && Decide(site, false, rows[i]).Fail? then [] else Emitted(site, false, rows)
  {
    if RowsOf(site, doc).Ok? {
      ScanChoices(site, false, RowsOf(site, doc).value);
    }
  }

  /** `_extract(html) or []`, with the row loop written out. */
  method ExtractPage(site: Site, doc: Document) returns (urls: seq<string>)
    ensures urls == Extracted(site, doc)
  {
    var rows := RowsOf(site, doc);
    if rows.Raised? {
      return [];
    }
    var scanned := CollectRows(site, false, rows.value);
    if scanned.Raised? {
      return [];
    }
    urls := scanned.value;
  }

  /** The pages `lo` to `hi - 1` of a numbered listing. */
  function Numbered(prefix: string, suffix: string, lo: nat, hi: nat): (r: seq<string>)
    requires lo <= hi
    ensures |r| == hi - lo && forall i :: 0 <= i < |r| ==> r[i] == prefix + NatToString(lo + i) + suffix
    decreases hi - lo
  {
    if lo == hi then [] else [prefix + NatToString(lo) + suffix] + Numbered(prefix, suffix, lo + 1, hi)
  }

  /** The styles of the Data5U listings. */
  const Data5UStyles: seq<string> := ["gngn", "gnpt", "gwgn", "gwpt"]

  /** The pages a site's `get` fetches, in order; `style` is the `str` of the style
      the scraper was built with (XiCi, YunDaiLi and YunHai only). */
  function PageUrls(site: Site, style: string): seq<string> {
    match site
    case XiCi => Numbered("http://www.xicidaili.com/" + style + "/", "", 1, 11)
    case SixSix => Numbered("http://www.66ip.cn/", ".html", 2, 12)
    case QuanMin => Numbered("http://www.goubanjia.com/index", ".shtml", 1, 11)
    case CooBoBo => Numbered("http://www.coobobo.com/free-http-proxy/", "", 1, 11)
    case YunDaiLi => Numbered("http://www.ip3366.net/?stype=" + style + "&page=", "", 1, 8)
    case YunHai => Numbered("http://www.kxdaili.com/dailiip/" + style + "/", ".html", 1, 11)
    case Data5U => seq(4, i requires 0 <= i < 4 => "http://www.data5u.com/free/" + Data5UStyles[i] + "/index.shtml")
  }

  lemma RequestUses(attempts: seq<Attempt>)
    ensures Request(attempts).Value? ==> 1 <= Request(attempts).calls <= |attempts|
  {
    RequestFirstSuccess(attempts);
  }

  /** The documents the page loop fetched, in page order, the attempts it used,
      and whether every page came back. */
  datatype Fetch = Fetch(docs: seq<Document>, used: nat, complete: bool)

  /** A fetch of the later pages after `docs` were fetched using `used` attempts. */
  function Then(docs: seq<Document>, used: nat, f: Fetch): Fetch {
    Fetch(docs + f.docs, used + f.used, f.complete)
  }

  /** The page loop's requests over `n` pages: each page is requested until it
      comes back, and the loop stops at the first page that never does. */
  function Fetched(n: nat, attempts: seq<Attempt>): Fetch
    decreases n
  {
    if n == 0 then Fetch([], 0, true)
    else
      RequestUses(attempts);
      match Request(attempts)
      case Value(doc, k) => Then([doc], k, Fetched(n - 1, attempts[k..]))
      case Propagated(_, _) => Fetch([], |attempts|, false)
      case Exhausted => Fetch([], |attempts|, false)
  }

  /** The fetch stops only before its last page, uses no more attempts than it
      was given, and uses them all when it stops. */
  lemma {:induction false} FetchedShape(n: nat, attempts: seq<Attempt>)
    ensures |Fetched(n, attempts).docs| <= n && Fetched(n, attempts).used <= |attempts|
    ensures Fetched(n, attempts).complete <==> |Fetched(n, attempts).docs| == n
    ensures !Fetched(n, attempts).complete ==> Fetched(n, attempts).used == |attempts|
    decreases n
  {
    if n > 0 {
      RequestUses(attempts);
      if Request(attempts).Value? {
        FetchedShape(n - 1, attempts[Request(attempts).calls..]);
      }
    }
  }

  /** The URLs of the pages `docs`, page after page, each page's in row order. */
  function PagesUrls(site: Site, docs: seq<Document>): seq<string>
  {
    if docs == [] then [] else PagesUrls(site, docs[..|docs| - 1]) + Extracted(site, docs[|docs| - 1])
  }


  /** `get()` over `n` pages: the URLs of every page when all pages came back,
      and the page the attempts ran out on otherwise. */
  function Harvested(site: Site, n: nat, attempts: seq<Attempt>): Harvest {
    var f := Fetched(n, attempts);
    if f.complete then Urls(PagesUrls(site, f.docs), f.used) else GaveUp(|f.docs|)
  }

  /** `get()`: request every page of the site in order and collect the URLs of
      their accepted rows. `fetched` is the pages whose body came back: all of them,
      or, when the attempts ran out on page k, the pages before k (page k was
      requested but never came back). */
  method Get(site: Site, style: string, attempts: seq<Attempt>) returns (h: Harvest, fetched: seq<string>)
    ensures h == Harvested(site, |PageUrls(site, style)|, attempts)
    ensures h.Urls? ==> fetched == PageUrls(site, style)
    ensures h.GaveUp? ==> h.page < |PageUrls(site, style)| && fetched == PageUrls(site, style)[..h.page]
  {
    h, fetched := GetPages(site, PageUrls(site, style), attempts);
  }

  /** The page loop of `get()` over the given pages; `fetched` as for `Get`. */
  method GetPages(site: Site, pages: seq<string>, attempts: seq<Attempt>) returns (h: Harvest, fetched: seq<string>)
    ensures h == Harvested(site, |pages|, attempts)
    ensures h.Urls? ==> fetched == pages
    ensures h.GaveUp? ==> h.page < |pages| && fetched == pages[..h.page]
  {
    var urls: seq<string> := [];
    var used: nat := 0;
    var rest := attempts;
    var k: nat := 0;
    var left := |pages|;
    ghost var docs: seq<Document> := [];
    ThenNothing(Fetched(|pages|, attempts));
    while left > 0
      invariant 0 <= k <= |pages| && used + |rest| == |attempts|
      invariant |docs| == k && left + k == |pages|
      invariant urls == PagesUrls(site, docs)
      invariant Fetched(|pages|, attempts) == Then(docs, used, Fetched(left, rest))
    {
      var served, more, calls := ServePage(site, left, rest, docs, urls);
      if !served {
        GaveUpAt(site, |pages|, attempts, docs, used, rest);
        return GaveUp(k), pages[..k];
      }
      FetchedAdvance(|pages|, attempts, docs, used, left, rest, calls);
      docs := docs + [Request(rest).value];
      urls := more;
      used := used + calls;
      rest := rest[calls..];
      k := k + 1;
      left := left - 1;
    }
    AllServed(site, |pages|, attempts, docs, used, rest);
    h, fetched := Urls(urls, used), pages;
  }

  /** One round of the page loop: request the next page until it comes back,
      and add its URLs to the `urls` found on the pages `docs` before it. */
  method ServePage(site: Site, n: nat, attempts: seq<Attempt>, ghost docs: seq<Document>, urls: seq<string>)
    returns (served: bool, more: seq<string>, calls: nat)
    requires n > 0 && urls == PagesUrls(site, docs)
    ensures served <==> Request(attempts).Value?
    ensures !served ==> Fetched(n, attempts) == Fetch([], |attempts|, false)
    ensures served ==> calls == Request(attempts).calls && 1 <= calls <= |attempts|
    ensures served ==> more == PagesUrls(site, docs + [Request(attempts).value])
    ensures served ==> Fetched(n, attempts) == Then([Request(attempts).value], calls, Fetched(n - 1, attempts[calls..]))
  {
    var content := RequestPage(attempts);
    FetchStep(n, attempts);
    RequestUses(attempts);
    if !content.Value? {
      return false, [], 0;
    }
    var found := ExtractPage(site, content.value);
    PagesUrlsSnoc(site, docs, content.value);
    more := urls + found;
    calls := content.calls;
    served := true;
  }

  /** The harvest when the attempts ran out on the page after `docs`. */
  lemma GaveUpAt(site: Site, total: nat, attempts: seq<Attempt>, docs: seq<Document>, used: nat, rest: seq<Attempt>)
    requires |docs| < total && used + |rest| == |attempts|
    requires Fetched(total, attempts) == Then(docs, used, Fetch([], |rest|, false))
    ensures Harvested(site, total, attempts) == GaveUp(|docs|)
  {
    assert docs + [] == docs;
  }

  /** The harvest when every page came back. */
  lemma AllServed(site: Site, total: nat, attempts: seq<Attempt>, docs: seq<Document>, used: nat, rest: seq<Attempt>)
    requires |docs| == total
    requires Fetched(total, attempts) == Then(docs, used, Fetched(0, rest))
    ensures Harvested(site, total, attempts) == Urls(PagesUrls(site, docs), used)
  {
    assert docs + [] == docs;
  }

  lemma PagesUrlsSnoc(site: Site, docs: seq<Document>, doc: Document)
    ensures PagesUrls(site, docs + [doc]) == PagesUrls(site, docs) + Extracted(site, doc)
  {
    assert (docs + [doc])[..|docs|] == docs;
  }


  lemma ThenNothing(f: Fetch)
    ensures Then([], 0, f) == f
  {
    assert [] + f.docs == f.docs;
  }

  lemma ThenThen(a: seq<Document>, x: nat, b: seq<Document>, y: nat, f: Fetch)
    ensures Then(a, x, Then(b, y, f)) == Then(a + b, x + y, f)
  {
    assert a + (b + f.docs) == (a + b) + f.docs;
  }

  /** The page loop's account of the fetch after one more page has come back. */
  lemma FetchedAdvance(total: nat, attempts: seq<Attempt>, docs: seq<Document>, used: nat, n: nat, rest: seq<Attempt>, calls: nat)
    requires Fetched(total, attempts) == Then(docs, used, Fetched(n, rest))
    requires n > 0 && Request(rest).Value? && calls <= |rest|
    requires Fetched(n, rest) == Then([Request(rest).value], calls, Fetched(n - 1, rest[calls..]))
    ensures Fetched(total, attempts) == Then(docs + [Request(rest).value], used + calls, Fetched(n - 1, rest[calls..]))
  {
    ThenThen(docs, used, [Request(rest).value], calls, Fetched(n - 1, rest[calls..]));
  }

  /** One round of the page loop: a page that comes back is fetched before the
      remaining pages, a page that does not ends the fetch. */
  lemma FetchStep(n: nat, attempts: seq<Attempt>)
    requires n > 0
    ensures Request(attempts).Value? ==> Request(attempts).calls <= |attempts|
    ensures Request(attempts).Value? ==>
      Fetched(n, attempts) == Then([Request(attempts).value], Request(attempts).calls, Fetched(n - 1, attempts[Request(attempts).calls..]))
    ensures !Request(attempts).Value? ==> Fetched(n, attempts) == Fetch([], |attempts|, false)
  {
    RequestUses(attempts);
  }

  /** Errors inside a page never escape `get`: it either collects every page or
      runs out of attempts on one of them. */
  lemma HarvestNeverCrashes(site: Site, n: nat, attempts: seq<Attempt>)
    ensures Harvested(site, n, attempts).Urls? || (Harvested(site, n, attempts).GaveUp? && Harvested(site, n, attempts).page < n)
    ensures Harvested(site, n, attempts).Urls? ==> Harvested(site, n, attempts).used <= |attempts|
  {
    FetchedShape(n, attempts);
  }

  /** A failed attempt only costs one more attempt: the pages fetched are the same. */
  lemma RetryIsTransparent(n: nat, attempts: seq<Attempt>)
    requires n > 0 && attempts != [] && !(attempts[0].Response? && attempts[0].status == 200)
    ensures Fetched(n, attempts) == Then([], 1, Fetched(n, attempts[1..]))
  {
    RequestUses(attempts);
    RequestUses(attempts[1..]);
    RequestFirstSuccess(attempts[1..]);
    if Request(attempts[1..]).Value? {
      var k := Request(attempts[1..]).calls;
      var doc := Request(attempts[1..]).value;
      assert attempts[1..][k..] == attempts[k + 1..];
      var rest := Fetched(n - 1, attempts[k + 1..]);
      ThenThen([], 1, [doc], k, rest);
    }
  }

  /** So a failed attempt leaves the harvested URLs unchanged. */
  lemma RetryKeepsUrls(site: Site, n: nat, attempts: seq<Attempt>)
    requires n > 0 && attempts != [] && !(attempts[0].Response? && attempts[0].status == 200)
    ensures Harvested(site, n, attempts) == Shifted([], 1, 0, Harvested(site, n, attempts[1..]))
  {
    RetryIsTransparent(n, attempts);
    var f := Fetched(n, attempts[1..]);
    assert [] + f.docs == f.docs;
    var h := Harvested(site, n, attempts[1..]);
    if h.Urls? {
      assert [] + h.urls == h.urls;
    }
  }

  /** The bodies of the given responses. */
  function Bodies(attempts: seq<Attempt>): (r: seq<Document>)
    requires forall i :: 0 <= i < |attempts| ==> attempts[i].Response?
    ensures |r| == |attempts|
  {
    seq(|attempts|, i requires 0 <= i < |attempts| => attempts[i].body)
  }

  /** When every page comes back on its first attempt, the fetch takes one
      attempt per page and gets the pages' bodies in order. */
  lemma {:induction false} FetchedFirstAttempts(n: nat, attempts: seq<Attempt>)
    requires n <= |attempts| && forall i :: 0 <= i < n ==> attempts[i].Response? && attempts[i].status == 200
    ensures Fetched(n, attempts) == Fetch(Bodies(attempts[..n]), n, true)
    decreases n
  {
    if n > 0 {
      var rest := attempts[1..];
      FetchedFirstAttempts(n - 1, rest);
      assert Request(attempts) == Value(attempts[0].body, 1);
      assert [attempts[0].body] + Bodies(rest[..n - 1]) == Bodies(attempts[..n]);
    }
  }

  /** When every page comes back on its first attempt, `get` returns the pages'
      URLs concatenated in page order, having used one attempt per page. */
  lemma HarvestInPageOrder(site: Site, n: nat, attempts: seq<Attempt>)
    requires n <= |attempts| && forall i :: 0 <= i < n ==> attempts[i].Response? && attempts[i].status == 200
    ensures Harvested(site, n, attempts) == Urls(PagesUrls(site, Bodies(attempts[..n])), n)
  {
    FetchedFirstAttempts(n, attempts);
  }
}
