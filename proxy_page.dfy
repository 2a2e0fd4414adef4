/** What the proxy-list scrapers see of a page and how they turn table rows into
    proxy URLs. A page is given already parsed: the HTML parser is not modelled,
    only the parts of the parsed tree the scrapers look at. */
module ProxyPage {
  import opened Wrappers
  import opened Decimal
  import opened Seqs
  import PortCipher

  /** A table cell or list item. */
  datatype Cell = Cell(
    text: string,                   // its `.text`
    classes: Option<seq<string>>,   // its `class` attribute, None when it has none
    shown: seq<string>,             // texts of the descendants whose style starts with "display"
    portClasses: seq<seq<string>>)  // class lists of the descendants with a class starting with "port"

  /** A table row, as its `td` cells (or a list, as its `li` items). */
  type Row = seq<Cell>

  /** The parts of a parsed page the scrapers query. */
  datatype Document = Document(
    rows: seq<Row>,           // `find_all('tr')` over the whole page
    tables: seq<seq<Row>>,    // `find_all('table')`, each table as its rows
    tbodies: seq<seq<Row>>,   // `find_all('tbody')`, each as its rows
    lists: seq<Row>)          // `find_all('ul', class_='l2')`, each as its `li` items

  /** One fetch of a page: the connection failed, or a response came back. */
  datatype Attempt = Failure | Response(status: int, body: Document)

  /** The sites scraped. The styles only change which pages are fetched. */
  datatype Site = XiCi | SixSix | QuanMin | CooBoBo | YunDaiLi | YunHai | Data5U

  /** What a row loop does with one row. */
  datatype Verdict = Skip | Emit(url: string) | Fail(error: Exception)

  /** What a scraper's `get` ends with, given a finite sequence of fetch attempts. */
  datatype Harvest =
    | Urls(urls: seq<string>, used: nat)       // all pages done, with the attempts used
    | GaveUp(page: nat)                        // the attempts ran out while fetching this page
    | Crashed(page: nat, error: Exception)     // this page's row loop raised

  /** A harvest of the later pages, after `urls` were collected from `pages`
      earlier pages using `used` attempts. */
  function Shifted(urls: seq<string>, used: nat, pages: nat, h: Harvest): Harvest {
    match h
    case Urls(u, m) => Urls(urls + u, used + m)
    case GaveUp(p) => GaveUp(pages + p)
    case Crashed(p, e) => Crashed(pages + p, e)
  }

  /** `"http://{}:{}".format(host, port)`. */
  function ProxyUrl(host: string, port: string): string {
    "http://" + host + ":" + port
  }

  /** Whether a text is plain ASCII, one character at a time. */
  predicate Ascii(s: string) {
    s == [] || (s[0] as int < 128 && Ascii(s[1..]))
  }

  /** A text is ASCII exactly when every character is below 128. */
  lemma {:induction false} AsciiChars(s: string)
    ensures Ascii(s) <==> forall i :: 0 <= i < |s| ==> s[i] as int < 128
  {
    if s != [] {
      AsciiChars(s[1..]);
      assert forall i :: 1 <= i < |s| ==> s[i] == s[1..][i - 1];
    }
  }

  /** The loop body's `url.append("http://{}:{}".format(host, port))`. The template
      is a Python 2 byte string and the cell texts are unicode, so `format` encodes
      them as ASCII: a text with any other character raises UnicodeEncodeError. */
  function Formatted(host: string, port: string): Verdict {
    if Ascii(host) && Ascii(port) then Emit(ProxyUrl(host, port)) else Fail(UnicodeEncodeError)
  }

  /** `str` of a decoded port is plain ASCII, so only the host text can make
      `format` raise. */
  lemma IntToStringAscii(i: int)
    ensures Ascii(IntToString(i))
  {
    AsciiChars(IntToString(i));
  }

  /** A parsed element compared with a string by `==`: never equal. */
  function TagEqualsString(cell: Cell, s: string): bool {
    false
  }

  /** The rows a site's loop walks over. A missing table or `tbody` makes the
      indexing raise IndexError. */
  function RowsOf(site: Site, doc: Document): Result<seq<Row>> {
    match site
    case XiCi => Ok(doc.rows)
    case QuanMin => Ok(doc.rows)
    case SixSix => if |doc.tables| > 2 then Ok(doc.tables[2]) else Raised(IndexError)
    case Data5U => Ok(doc.lists)
    case _ => if |doc.tbodies| > 0 then Ok(doc.tbodies[0]) else Raised(IndexError)
  }

  /** The decoded port of a row: what `_decrypt` gives for the second class of the
      given class list, or the error of getting it. */
  function PortOf(classes: Option<seq<string>>): Result<Option<int>> {
    match classes
    case None => Raised(KeyError)
    case Some(cs) => if |cs| < 2 then Raised(IndexError) else PortCipher.Decrypted(Some(cs[1]))
  }

  /** The decision a site's loop body makes for one row. `skipPort80` is the extra
      test on port 80 that the retrying scrapers add for CooBoBo, YunDaiLi, YunHai
      and Data5U; the other sites' tests are the same in both scrapers. */
  function Decide(site: Site, skipPort80: bool, row: Row): Verdict {
    if row == [] then Skip
    else match site
      case XiCi =>
        if |row| < 6 then Fail(IndexError)
        else if row[5].text != "HTTP" then Skip
        else Formatted(row[1].text, row[2].text)
      case SixSix =>
        if row[0].text == "ip" then Skip
        else if |row| < 2 then Fail(IndexError)
        else Formatted(row[0].text, row[1].text)
      case QuanMin =>
        var ip := Concat(row[0].shown);
        if row[0].portClasses == [] then Fail(IndexError)
        else (match PortOf(Some(row[0].portClasses[0]))
          case Raised(e) => Fail(e)
          case Ok(None) => Skip
          case Ok(Some(port)) => if port == 80 then Skip else Formatted(ip, IntToString(port)))
      case YunDaiLi =>
        if |row| < 2 then Fail(IndexError)
        else if skipPort80 && row[1].text == "80" then Skip
        else if |row| < 4 then Fail(IndexError)
        else if TagEqualsString(row[3], "HTTPS") then Skip
        else Formatted(row[0].text, row[1].text)
      case Data5U =>
        if |row| < 2 then Fail(IndexError)
        else (match PortOf(row[1].classes)
          case Raised(e) => Fail(e)
          case Ok(None) => Skip
          case Ok(Some(port)) => if skipPort80 && port == 80 then Skip else Formatted(row[0].text, IntToString(port)))
      case _ =>
        if |row| < 2 then Fail(IndexError)
        else if skipPort80 && row[1].text == "80" then Skip
        else Formatted(row[0].text, row[1].text)
  }

  /** The verdicts of the rows, one per row, in row order. */
  function Verdicts(site: Site, skipPort80: bool, rows: seq<Row>): seq<Verdict> {
    seq(|rows|, i requires 0 <= i < |rows| => Decide(site, skipPort80, rows[i]))
  }

  /** The row loop over the rows' verdicts: the URLs of the accepted rows in row
      order, or the error of the first row whose test raised. */
  function Collect(vs: seq<Verdict>): Result<seq<string>> {
    if vs == [] then Ok([])
    else match Collect(vs[..|vs| - 1])
      case Raised(e) => Raised(e)
      case Ok(urls) =>
        match vs[|vs| - 1]
        case Skip => Ok(urls)
        case Emit(u) => Ok(urls + [u])
        case Fail(e) => Raised(e)
  }

  /** The row loop of `_extract` and `get`. */
  function Scan(site: Site, skipPort80: bool, rows: seq<Row>): Result<seq<string>> {
    Collect(Verdicts(site, skipPort80, rows))
  }

  /** The URLs of the accepted verdicts, in order. */
  function AcceptedUrls(vs: seq<Verdict>): seq<string> {
    if vs == [] then [] else (if vs[0].Emit? then [vs[0].url] else []) + AcceptedUrls(vs[1..])
  }

  /** The URLs of the accepted rows, in row order. */
  function Emitted(site: Site, skipPort80: bool, rows: seq<Row>): seq<string> {
    AcceptedUrls(Verdicts(site, skipPort80, rows))
  }

  /** The verdicts of a prefix of the rows are that prefix of the verdicts. */
  lemma VerdictsPrefix(site: Site, skipPort80: bool, rows: seq<Row>, k: nat)
    requires k <= |rows|
    ensures Verdicts(site, skipPort80, rows[..k]) == Verdicts(site, skipPort80, rows)[..k]
  {
  }

  /** The row loop of `_extract` and `get`: append one URL per accepted row. */
  method CollectRows(site: Site, skipPort80: bool, rows: seq<Row>) returns (r: Result<seq<string>>)
    ensures r == Scan(site, skipPort80, rows)
  {
    ghost var vs := Verdicts(site, skipPort80, rows);
    var urls: seq<string> := [];
    var i := 0;
    while i < |rows|
      invariant 0 <= i <= |rows|
      invariant Collect(vs[..i]) == Ok(urls)
    {
      assert vs[..i + 1][..i] == vs[..i];
      assert vs[i] == Decide(site, skipPort80, rows[i]);
      match Decide(site, skipPort80, rows[i]) {
        case Skip =>
        case Emit(u) => urls := urls + [u];
        case Fail(e) =>
          CollectFailStops(vs, i + 1);
          assert vs[..|vs|] == vs;
          return Raised(e);
      }
      i := i + 1;
    }
    assert vs[..i] == vs;
    r := Ok(urls);
  }

  /** Once a prefix of the verdicts fails, so do all longer prefixes, with the same error. */
  lemma {:induction false} CollectFailStops(vs: seq<Verdict>, k: nat)
    requires k <= |vs| && Collect(vs[..k]).Raised?
    ensures Collect(vs) == Collect(vs[..k])
    decreases |vs| - k
  {
    if k < |vs| {
      assert vs[..k + 1][..k] == vs[..k];
      assert Collect(vs[..k + 1]) == Collect(vs[..k]);
      CollectFailStops(vs, k + 1);
    } else {
      assert vs[..k] == vs;
    }
  }

  lemma {:induction false} AcceptedUrlsAppend(vs: seq<Verdict>, ws: seq<Verdict>)
    ensures AcceptedUrls(vs + ws) == AcceptedUrls(vs) + AcceptedUrls(ws)
  {
    if vs == [] {
      assert vs + ws == ws;
    } else {
      assert (vs + ws)[1..] == vs[1..] + ws;
      AcceptedUrlsAppend(vs[1..], ws);
    }
  }

  /** The loop over verdicts fails exactly when some verdict fails, with the first
      failing verdict's error; otherwise it returns the accepted URLs in order. */
  lemma {:induction false} CollectChoices(vs: seq<Verdict>)
    ensures Collect(vs).Ok? <==> forall i :: 0 <= i < |vs| ==> !vs[i].Fail?
    ensures Collect(vs).Ok? ==> Collect(vs).value == AcceptedUrls(vs)
    ensures Collect(vs).Raised? ==>
      exists i :: 0 <= i < |vs| && vs[i] == Fail(Collect(vs).error) && forall j :: 0 <= j < i ==> !vs[j].Fail?
  {
    if vs != [] {
      var init := vs[..|vs| - 1];
      var last := vs[|vs| - 1];
      CollectChoices(init);
      assert forall i :: 0 <= i < |init| ==> init[i] == vs[i];
      assert vs == init + [last];
      AcceptedUrlsAppend(init, [last]);
      assert AcceptedUrls([last]) == (if last.Emit? then [last.url] else []) by {
        assert [last][1..] == [];
      }
    }
  }

  /** The row loop raises exactly when some row's test raises, with the error of the
      first such row; otherwise it returns one URL per accepted row, in row order. */
  lemma ScanChoices(site: Site, skipPort80: bool, rows: seq<Row>)
    ensures Scan(site, skipPort80, rows).Ok? <==> forall i :: 0 <= i < |rows| ==> !Decide(site, skipPort80, rows[i]).Fail?
    ensures Scan(site, skipPort80, rows).Ok? ==> Scan(site, skipPort80, rows).value == Emitted(site, skipPort80, rows)
    ensures Scan(site, skipPort80, rows).Raised? ==>
      exists i :: 0 <= i < |rows| && Decide(site, skipPort80, rows[i]) == Fail(Scan(site, skipPort80, rows).error) &&
        forall j :: 0 <= j < i ==> !Decide(site, skipPort80, rows[j]).Fail?
  {
    var vs := Verdicts(site, skipPort80, rows);
    CollectChoices(vs);
    assert forall i :: 0 <= i < |rows| ==> vs[i] == Decide(site, skipPort80, rows[i]);
  }

  /** The number of accepted verdicts. */
  function AcceptedCount(vs: seq<Verdict>): nat {
    if vs == [] then 0 else (if vs[0].Emit? then 1 else 0) + AcceptedCount(vs[1..])
  }

  /** Every accepted URL comes from one accepted verdict, in order: there are exactly
      as many URLs as accepted verdicts. */
  lemma {:induction false} AcceptedUrlsCount(vs: seq<Verdict>)
    ensures |AcceptedUrls(vs)| == AcceptedCount(vs) <= |vs|
    ensures forall u :: u in AcceptedUrls(vs) ==> exists i :: 0 <= i < |vs| && vs[i] == Emit(u)
  {
    if vs != [] {
      AcceptedUrlsCount(vs[1..]);
      assert forall i :: 1 <= i < |vs| ==> vs[i] == vs[1..][i - 1];
    }
  }

  /** Every URL comes from one accepted row, in row order: there are exactly as many
      URLs as accepted rows. */
  lemma EmittedCount(site: Site, skipPort80: bool, rows: seq<Row>)
    ensures |Emitted(site, skipPort80, rows)| == AcceptedCount(Verdicts(site, skipPort80, rows)) <= |rows|
    ensures forall u :: u in Emitted(site, skipPort80, rows) ==> exists i :: 0 <= i < |rows| && Decide(site, skipPort80, rows[i]) == Emit(u)
  {
    var vs := Verdicts(site, skipPort80, rows);
    AcceptedUrlsCount(vs);
    assert forall i :: 0 <= i < |rows| ==> vs[i] == Decide(site, skipPort80, rows[i]);
  }

  /** XiCi keeps the non-empty rows whose sixth cell reads "HTTP", as
      `http://<second cell>:<third cell>`; a non-empty row with fewer than six cells
      makes the loop raise IndexError, and a kept row whose address or port text is
      not ASCII makes it raise UnicodeEncodeError. */
  lemma XiCiRule(skipPort80: bool, row: Row)
    ensures Decide(XiCi, skipPort80, row).Emit? <==>
      |row| >= 6 && row[5].text == "HTTP" && Ascii(row[1].text) && Ascii(row[2].text)
    ensures Decide(XiCi, skipPort80, row).Emit? ==> Decide(XiCi, skipPort80, row).url == ProxyUrl(row[1].text, row[2].text)
    ensures Decide(XiCi, skipPort80, row) == Fail(IndexError) <==> 0 < |row| < 6
    ensures Decide(XiCi, skipPort80, row) == Fail(UnicodeEncodeError) <==>
      |row| >= 6 && row[5].text == "HTTP" && !(Ascii(row[1].text) && Ascii(row[2].text))
  {
  }

  /** SixSix drops empty rows and the header row whose first cell reads "ip" and
      keeps every other row of at least two cells, raising UnicodeEncodeError when
      its address or port text is not ASCII. */
  lemma SixSixRule(skipPort80: bool, row: Row)
    ensures row == [] || row[0].text == "ip" ==> Decide(SixSix, skipPort80, row) == Skip
    ensures |row| == 1 && row[0].text != "ip" ==> Decide(SixSix, skipPort80, row) == Fail(IndexError)
    ensures |row| >= 2 && row[0].text != "ip" ==>
      Decide(SixSix, skipPort80, row) == (if Ascii(row[0].text) && Ascii(row[1].text) then Emit(ProxyUrl(row[0].text, row[1].text)) else Fail(UnicodeEncodeError))
  {
  }

  /** QuanMin reads only the first cell. It skips a row whose port decodes to None
      or to 80, and otherwise writes the decoded port after the address shown in the
      cell; an address that is not ASCII raises UnicodeEncodeError. */
  lemma DecodedPortRule(skipPort80: bool, row: Row, port: int)
    requires |row| >= 1 && row[0].portClasses != [] && PortOf(Some(row[0].portClasses[0])) == Ok(Some(port))
    ensures Decide(QuanMin, skipPort80, row) ==
      if port == 80 then Skip
      else if Ascii(Concat(row[0].shown)) then Emit(ProxyUrl(Concat(row[0].shown), IntToString(port)))
      else Fail(UnicodeEncodeError)
  {
    IntToStringAscii(port);
  }

  /** Data5U skips a row whose port decodes to None, and port 80 only with the extra
      test; otherwise it writes the decoded port after the first item's text, which
      raises UnicodeEncodeError when that text is not ASCII. */
  lemma Data5URule(skipPort80: bool, row: Row)
    requires |row| >= 2 && PortOf(row[1].classes).Ok?
    ensures PortOf(row[1].classes).value.None? ==> Decide(Data5U, skipPort80, row) == Skip
    ensures PortOf(row[1].classes) == Ok(Some(80)) ==>
      Decide(Data5U, skipPort80, row) == (if skipPort80 then Skip else if Ascii(row[0].text) then Emit(ProxyUrl(row[0].text, "80")) else Fail(UnicodeEncodeError))
    ensures forall p :: PortOf(row[1].classes) == Ok(Some(p)) && p != 80 ==>
      Decide(Data5U, skipPort80, row) == (if Ascii(row[0].text) then Emit(ProxyUrl(row[0].text, IntToString(p))) else Fail(UnicodeEncodeError))
  {
    if PortOf(row[1].classes).Ok? && PortOf(row[1].classes).value.Some? {
      IntToStringAscii(PortOf(row[1].classes).value.value);
    }
    if PortOf(row[1].classes) == Ok(Some(80)) {
      assert IntToString(80) == "80" by {
        assert NatToString(8) == "8" && NatToString(0) == "0";
      }
    }
  }

  /** The "HTTPS" test of YunDaiLi compares a cell with a string and never holds:
      every row of four cells or more is kept unless the extra test on port 80 drops
      it, raising UnicodeEncodeError when its address or port text is not ASCII. */
  lemma YunDaiLiKeepsHttps(skipPort80: bool, row: Row)
    requires |row| >= 4
    ensures Decide(YunDaiLi, skipPort80, row) ==
      if skipPort80 && row[1].text == "80" then Skip
      else if Ascii(row[0].text) && Ascii(row[1].text) then Emit(ProxyUrl(row[0].text, row[1].text))
      else Fail(UnicodeEncodeError)
  {
  }

  /** CooBoBo and YunHai keep every row of two cells or more, except, with the extra
      test, those whose port cell reads "80"; a kept row whose address or port text
      is not ASCII raises UnicodeEncodeError. */
  lemma PlainRule(site: Site, skipPort80: bool, row: Row)
    requires site == CooBoBo || site == YunHai
    requires |row| >= 2
    ensures Decide(site, skipPort80, row) ==
      if skipPort80 && row[1].text == "80" then Skip
      else if Ascii(row[0].text) && Ascii(row[1].text) then Emit(ProxyUrl(row[0].text, row[1].text))
      else Fail(UnicodeEncodeError)
  {
  }

  /** A row whose port class spells 80 ("GEA") is skipped by QuanMin. */
  lemma QuanMinSkipsGEA(skipPort80: bool, row: Row)
    requires row != [] && row[0].portClasses != [] && |row[0].portClasses[0]| >= 2 && row[0].portClasses[0][1] == "GEA"
    ensures Decide(QuanMin, skipPort80, row) == Skip
  {
    PortCipher.DecryptExample();
  }
}
