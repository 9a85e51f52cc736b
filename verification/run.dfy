/** One crawl end to end: each request's page is parsed, every item goes
    through the pipeline, and the sheet is saved once when the spider closes. */
module Run {
  import opened Wrappers
  import opened Items
  import opened Spider
  import opened Pipeline

  /** The answer to one request: the neighbourhood from its meta and the
      `a.listings-item` nodes found on the page. */
  datatype Response = Response(neighbourhood: Option<string>, nodes: seq<Node>)

  /** Every response answers one of the requests: responses may come in any
      order, and a request may have none (a failed fetch, or a repeated URL
      dropped by the duplicate filter). */
  predicate RespondsTo(reqs: seq<Request>, responses: seq<Response>) {
    forall j :: 0 <= j < |responses| ==>
      exists i :: 0 <= i < |reqs| && responses[j].neighbourhood == reqs[i].neighbourhood
  }

  /** Items of every response, response by response, page order within each. */
  function Crawl(sp: Spider, responses: seq<Response>): (items: seq<Item>) {
    if |responses| == 0 then []
    else Parse(sp, responses[0].nodes, responses[0].neighbourhood) + Crawl(sp, responses[1..])
  }

  /** `it` was parsed from one of the responses. */
  predicate FromSomeResponse(sp: Spider, responses: seq<Response>, it: Item) {
    exists j :: 0 <= j < |responses| && InContext(sp, responses[j].neighbourhood, it)
  }

  /** Crawling two runs of responses one after the other gives the first
      run's items followed by the second's. */
  lemma {:induction false} CrawlAppend(sp: Spider, a: seq<Response>, c: seq<Response>)
    ensures Crawl(sp, a + c) == Crawl(sp, a) + Crawl(sp, c)
  {
    if |a| == 0 {
      assert a + c == c;
    } else {
      assert (a + c)[1..] == a[1..] + c;
      CrawlAppend(sp, a[1..], c);
    }
  }

  /** The items of response `j` form one block of the crawl, after the items
      of the responses before it and before those of the responses after it. */
  lemma CrawlBlock(sp: Spider, responses: seq<Response>, j: nat)
    requires j < |responses|
    ensures Crawl(sp, responses)
      == Crawl(sp, responses[..j])
         + Parse(sp, responses[j].nodes, responses[j].neighbourhood)
         + Crawl(sp, responses[j + 1..])
  {
    assert responses == responses[..j] + ([responses[j]] + responses[j + 1..]);
    CrawlAppend(sp, responses[..j], [responses[j]] + responses[j + 1..]);
    CrawlAppend(sp, [responses[j]], responses[j + 1..]);
    assert Crawl(sp, [responses[j]]) == Parse(sp, responses[j].nodes, responses[j].neighbourhood);
  }

  /** The items of response `j` appear as one block of the crawl, starting
      after the items of the responses before it, and every one of them
      carries the label of response `j`'s own neighbourhood. */
  predicate ResponseBlock(sp: Spider, responses: seq<Response>, j: nat)
    requires j < |responses|
  {
    var items := Crawl(sp, responses);
    var page := Parse(sp, responses[j].nodes, responses[j].neighbourhood);
    var offset := |Crawl(sp, responses[..j])|;
    && offset + |page| <= |items|
    && items[offset..offset + |page|] == page
    && forall k :: offset <= k < offset + |page| ==> InContext(sp, responses[j].neighbourhood, items[k])
  }

  /** Response `j`'s items form its block of the crawl. */
  lemma BlockItems(sp: Spider, responses: seq<Response>, j: nat)
    requires j < |responses|
    ensures ResponseBlock(sp, responses, j)
  {
    CrawlBlock(sp, responses, j);
    var items := Crawl(sp, responses);
    var before := Crawl(sp, responses[..j]);
    var page := Parse(sp, responses[j].nodes, responses[j].neighbourhood);
    assert items[|before|..|before| + |page|] == page;
    forall k | |before| <= k < |before| + |page|
      ensures InContext(sp, responses[j].neighbourhood, items[k])
    {
      assert items[k] == page[k - |before|];
    }
  }

  /** Every crawled item carries the spider's term, state and city and the
      label of the neighbourhood of some response; more precisely, each
      response's items form one block of the crawl, in response order, and
      carry the label of that response's own neighbourhood. */
  lemma CrawlContext(sp: Spider, responses: seq<Response>)
    ensures forall k :: 0 <= k < |Crawl(sp, responses)| ==> FromSomeResponse(sp, responses, Crawl(sp, responses)[k])
    ensures forall j :: 0 <= j < |responses| ==> ResponseBlock(sp, responses, j)
  {
    SomeResponse(sp, responses);
    forall j | 0 <= j < |responses| {
      BlockItems(sp, responses, j);
    }
  }

  /** The weak half of `CrawlContext`: the label of some response. */
  lemma {:induction false} SomeResponse(sp: Spider, responses: seq<Response>)
    ensures forall k :: 0 <= k < |Crawl(sp, responses)| ==> FromSomeResponse(sp, responses, Crawl(sp, responses)[k])
  {
    if |responses| == 0 {
      assert Crawl(sp, responses) == [];
    } else {
      SomeResponse(sp, responses[1..]);
      var head := Parse(sp, responses[0].nodes, responses[0].neighbourhood);
      var tail := Crawl(sp, responses[1..]);
      var items := Crawl(sp, responses);
      assert items == head + tail;
      forall k | 0 <= k < |items|
        ensures FromSomeResponse(sp, responses, items[k])
      {
        if k < |head| {
          assert InContext(sp, responses[0].neighbourhood, items[k]);
        } else {
          assert items[k] == tail[k - |head|];
          var j :| 0 <= j < |responses[1..]| && InContext(sp, responses[1..][j].neighbourhood, tail[k - |head|]);
          assert InContext(sp, responses[j + 1].neighbourhood, items[k]);
        }
      }
    }
  }

  /** The file a crawl produces when the spider closes at `now`. */
  function Export(sp: Spider, responses: seq<Response>, now: Timestamp): (f: OutputFile)
    requires ValidTimestamp(now)
  {
    CloseSpider(ProcessAll(OpenSpider(), Crawl(sp, responses)), now)
  }

  /** Exactly one file, named after `now`, holding the header and then one row
      per crawled item, in crawl order, every field read back unchanged. */
  lemma ExportContents(sp: Spider, responses: seq<Response>, now: Timestamp)
    requires ValidTimestamp(now)
    ensures var f := Export(sp, responses, now);
      && ParseFileName(f.name) == Some(now)
      && f.title == SheetTitle
      && |f.rows| == 1 + |Crawl(sp, responses)|
      && f.rows[0] == Header
      && DataItems(f.rows) == Crawl(sp, responses)
  {
    SheetReadBack(Crawl(sp, responses));
  }

  /** A page none of whose nodes yields an item (an empty page, or one whose
      nodes are all skipped) contributes nothing. */
  lemma {:induction false} NoItemNodesNoItems(sp: Spider, nodes: seq<Node>, b: Option<string>)
    requires forall i :: 0 <= i < |nodes| ==> !YieldsItem(nodes[i])
    ensures Parse(sp, nodes, b) == []
  {
    if |nodes| > 0 {
      assert forall i :: 0 <= i < |nodes[1..]| ==> nodes[1..][i] == nodes[i + 1];
      NoItemNodesNoItems(sp, nodes[1..], b);
    }
  }

  /** A crawl in which no node of any page yields an item still writes one file: the
      header row alone. */
  lemma {:induction false} HeaderOnlyExport(sp: Spider, responses: seq<Response>, now: Timestamp)
    requires ValidTimestamp(now)
    requires forall j, i :: 0 <= j < |responses| && 0 <= i < |responses[j].nodes| ==> !YieldsItem(responses[j].nodes[i])
    ensures Export(sp, responses, now).rows == [Header]
    decreases |responses|
  {
    if |responses| > 0 {
      NoItemNodesNoItems(sp, responses[0].nodes, responses[0].neighbourhood);
      HeaderOnlyExport(sp, responses[1..], now);
    }
  }

  /** For the unfiltered search every item's neighbourhood is the
      placeholder. */
  lemma UnfilteredRunIsUnspecified(sp: Spider, quote: string -> string, responses: seq<Response>)
    requires sp.neighbourhoods == [""]
    requires RespondsTo(StartRequests(sp, quote), responses)
    ensures forall k :: 0 <= k < |Crawl(sp, responses)| ==> Crawl(sp, responses)[k].neighbourhood == Unspecified
  {
    CrawlContext(sp, responses);
    var reqs := StartRequests(sp, quote);
    var items := Crawl(sp, responses);
    forall k | 0 <= k < |items|
      ensures items[k].neighbourhood == Unspecified
    {
      var j :| 0 <= j < |responses| && InContext(sp, responses[j].neighbourhood, items[k]);
      var i :| 0 <= i < |reqs| && responses[j].neighbourhood == reqs[i].neighbourhood;
    }
  }

  /** For a neighbourhood search every item's neighbourhood is one of the
      listed neighbourhoods, or the placeholder for an empty entry. */
  lemma FilteredRunNamesNeighbourhood(sp: Spider, quote: string -> string, responses: seq<Response>)
    requires sp.neighbourhoods != [""]
    requires RespondsTo(StartRequests(sp, quote), responses)
    ensures forall k :: 0 <= k < |Crawl(sp, responses)| ==>
      || Crawl(sp, responses)[k].neighbourhood in sp.neighbourhoods
      || (Crawl(sp, responses)[k].neighbourhood == Unspecified && "" in sp.neighbourhoods)
  {
    CrawlContext(sp, responses);
    var items := Crawl(sp, responses);
    forall k | 0 <= k < |items|
      ensures || items[k].neighbourhood in sp.neighbourhoods
              || (items[k].neighbourhood == Unspecified && "" in sp.neighbourhoods)
    {
      var reqs := StartRequests(sp, quote);
      var j :| 0 <= j < |responses| && InContext(sp, responses[j].neighbourhood, items[k]);
      var i :| 0 <= i < |reqs| && responses[j].neighbourhood == reqs[i].neighbourhood;
      assert responses[j].neighbourhood == Some(sp.neighbourhoods[i]);
    }
  }
}
