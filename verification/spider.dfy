/** `BingMapsSpider`: turning the run arguments into search queries, and a
    page of already-selected listing nodes into lead items. */
module Spider {
  import opened Wrappers
  import opened Text
  import opened Items

  /** Constructor defaults for `termo`, `estado`, `cidade` and `bairros`. */
  const DefaultTerm: string := ""
  const DefaultState: string := "RS"
  const DefaultCity: string := "Porto Alegre"
  const DefaultNeighbourhoods: string := ""

  /** Placeholders written when a value is missing. */
  const Unspecified: string := "Não especificado"
  const NoTitle: string := "Sem título"
  const NoAddress: string := "Sem endereço"
  const NoPhone: string := "Telefone não disponível"
  const NoWebsite: string := "Website não disponível"

  /** The search page every query is appended to. */
  const SearchUrl: string := "https://www.bing.com/maps?q="

  /** The spider's run parameters; `neighbourhoods` is `[""]` for an
      unfiltered search. */
  datatype Spider = Spider(term: string, state: string, city: string, neighbourhoods: seq<string>)

  /** The neighbourhood list: the comma split of `bairros`, or the sentinel
      `[""]` when `bairros` is empty. Every comma separates two entries, so
      joining the entries back with commas restores the argument. */
  function SplitNeighbourhoods(bairros: string): (ns: seq<string>)
    ensures bairros == "" ==> ns == [""]
    ensures |ns| == Occurrences(bairros, ',') + 1
    ensures forall k :: 0 <= k < |ns| ==> ',' !in ns[k]
    ensures Join(ns, ',') == bairros
  {
    JoinSplit(bairros, ',');
    if bairros == "" then [""] else Split(bairros, ',')
  }

  /** The sentinel list arises from the empty argument and from nothing else. */
  lemma SentinelIffEmpty(bairros: string)
    ensures SplitNeighbourhoods(bairros) == [""] <==> bairros == ""
  {
  }

  /** The emptiness guard changes nothing: the empty text splits to `[""]` too. */
  lemma GuardIsSplit(bairros: string)
    ensures SplitNeighbourhoods(bairros) == Split(bairros, ',')
  {
  }

  /** The spider constructor. */
  function NewSpider(termo: string, estado: string, cidade: string, bairros: string): (sp: Spider)
    ensures sp.term == termo && sp.state == estado && sp.city == cidade
    ensures bairros == "" ==> sp.neighbourhoods == [""]
    ensures |sp.neighbourhoods| == Occurrences(bairros, ',') + 1
    ensures forall k :: 0 <= k < |sp.neighbourhoods| ==> ',' !in sp.neighbourhoods[k]
    ensures Join(sp.neighbourhoods, ',') == bairros
  {
    Spider(termo, estado, cidade, SplitNeighbourhoods(bairros))
  }

  /** A search request: the unencoded query text, the URL built from the
      percent-encoded text, and the neighbourhood carried to `parse`. */
  datatype Request = Request(query: string, url: string, neighbourhood: Option<string>)

  /** The query text for the unfiltered search (`None`) or for one neighbourhood. */
  function QueryText(sp: Spider, n: Option<string>): (q: string) {
    match n
    case None => sp.term + " em " + sp.city + ", " + sp.state
    case Some(b) => sp.term + " em " + b + ", " + sp.city + ", " + sp.state
  }

  /** Where each parameter sits in the query text: the term then " em ", the
      neighbourhood then ", " when there is one, and ", "-separated city and
      state at the end; nothing else is added. */
  lemma QueryTextLayout(sp: Spider, n: Option<string>)
    ensures var q := QueryText(sp, n);
      && |q| == |sp.term| + |sp.city| + |sp.state| + 6 + (if n.Some? then |n.value| + 2 else 0)
      && q[..|sp.term| + 4] == sp.term + " em "
      && q[|q| - |sp.city| - |sp.state| - 2..] == sp.city + ", " + sp.state
      && (n.Some? ==> q[|sp.term| + 4..|sp.term| + 6 + |n.value|] == n.value + ", ")
  {
    var q := QueryText(sp, n);
    var tail := sp.city + ", " + sp.state;
    match n
    case None =>
      assert q == sp.term + " em " + tail;
      assert q[..|sp.term| + 4] == sp.term + " em ";
      assert q[|q| - |tail|..] == tail;
    case Some(b) =>
      assert q == sp.term + " em " + (b + ", ") + tail;
      assert q[..|sp.term| + 4] == sp.term + " em ";
      assert q[|sp.term| + 4..|sp.term| + 6 + |b|] == b + ", ";
      assert q[|q| - |tail|..] == tail;
  }

  function MakeRequest(sp: Spider, n: Option<string>, quote: string -> string): (r: Request) {
    var q := QueryText(sp, n);
    Request(q, SearchUrl + quote(q), n)
  }

  /** One request per neighbourhood of `ns`, in list order. */
  function PerNeighbourhood(sp: Spider, ns: seq<string>, quote: string -> string): (reqs: seq<Request>)
    ensures |reqs| == |ns|
    ensures forall k :: 0 <= k < |ns| ==>
      && reqs[k].neighbourhood == Some(ns[k])
      && reqs[k].query == sp.term + " em " + ns[k] + ", " + sp.city + ", " + sp.state
      && reqs[k].url == SearchUrl + quote(reqs[k].query)
  {
    if |ns| == 0 then []
    else [MakeRequest(sp, Some(ns[0]), quote)] + PerNeighbourhood(sp, ns[1..], quote)
  }

  /** `start_requests`: a single unfiltered request tagged `None` for the
      sentinel list, otherwise one request per neighbourhood in order.
      `quote` stands for the percent-encoder. */
  function StartRequests(sp: Spider, quote: string -> string): (reqs: seq<Request>)
    ensures |reqs| == |sp.neighbourhoods|
    ensures sp.neighbourhoods == [""] ==>
      && reqs[0].neighbourhood == None
      && reqs[0].query == sp.term + " em " + sp.city + ", " + sp.state
      && reqs[0].url == SearchUrl + quote(reqs[0].query)
    ensures sp.neighbourhoods != [""] ==> forall k :: 0 <= k < |reqs| ==>
      && reqs[k].neighbourhood == Some(sp.neighbourhoods[k])
      && reqs[k].query == sp.term + " em " + sp.neighbourhoods[k] + ", " + sp.city + ", " + sp.state
      && reqs[k].url == SearchUrl + quote(reqs[k].query)
  {
    if sp.neighbourhoods == [""] then [MakeRequest(sp, None, quote)]
    else PerNeighbourhood(sp, sp.neighbourhoods, quote)
  }

  /** The neighbourhood each request carries, with `None` read as "". */
  function CarriedNeighbourhoods(reqs: seq<Request>): (ns: seq<string>)
    ensures |ns| == |reqs|
    ensures forall k :: 0 <= k < |reqs| ==> ns[k] == reqs[k].neighbourhood.GetOr("")
  {
    if |reqs| == 0 then [] else [reqs[0].neighbourhood.GetOr("")] + CarriedNeighbourhoods(reqs[1..])
  }

  /** From the constructor arguments to the requests: there are as many
      requests as commas plus one; the empty argument gives the single
      unfiltered request; otherwise every request names a neighbourhood and
      the names, joined with commas, give back `bairros` exactly. */
  lemma RequestsFromArguments(termo: string, estado: string, cidade: string, bairros: string,
                              quote: string -> string)
    ensures var reqs := StartRequests(NewSpider(termo, estado, cidade, bairros), quote);
      && |reqs| == Occurrences(bairros, ',') + 1
      && (bairros == "" <==> (|reqs| == 1 && reqs[0].neighbourhood == None))
      && (bairros != "" ==> forall k :: 0 <= k < |reqs| ==> reqs[k].neighbourhood.Some?)
      && Join(CarriedNeighbourhoods(reqs), ',') == bairros
  {
    var sp := NewSpider(termo, estado, cidade, bairros);
    var reqs := StartRequests(sp, quote);
    if bairros == "" {
      assert CarriedNeighbourhoods(reqs) == [""];
    } else {
      SentinelIffEmpty(bairros);
      assert CarriedNeighbourhoods(reqs) == sp.neighbourhoods;
    }
  }

  /** With every argument but the term left at its default, the spider issues
      exactly one unfiltered request for the default city and state. */
  lemma DefaultsGiveOneUnfilteredRequest(termo: string, quote: string -> string)
    ensures var reqs := StartRequests(NewSpider(termo, DefaultState, DefaultCity, DefaultNeighbourhoods), quote);
      && |reqs| == 1
      && reqs[0].neighbourhood == None
      && reqs[0].query == termo + " em Porto Alegre, RS"
  {
  }

  /** The decoded `data-entity` object's `entity` member: `None` marks an
      absent key. */
  datatype Entity = Entity(title: Option<string>, address: Option<string>,
                           phone: Option<string>, website: Option<string>)

  /** What decoding a `data-entity` attribute yields: invalid JSON, JSON with
      no usable `entity` object, or the entity itself. */
  datatype Payload = Malformed | NoEntity | Decoded(entity: Entity)

  /** One `a.listings-item` node: its `data-entity` attribute (`None` when
      missing) and what that attribute decodes to. */
  datatype Node = Node(dataEntity: Option<string>, payload: Payload)

  /** The attribute is present and non-empty (Python truthiness). */
  predicate HasAttribute(node: Node) {
    node.dataEntity.Some? && node.dataEntity.value != ""
  }

  /** A node that yields an item: its attribute is non-empty and decodes to
      an `entity` object. */
  predicate YieldsItem(node: Node) {
    HasAttribute(node) && node.payload.Decoded?
  }

  /** A node whose decoding raises, which is logged and skipped. */
  predicate IsDecodeError(node: Node) {
    HasAttribute(node) && !node.payload.Decoded?
  }

  /** `bairro or 'Não especificado'`: a falsy neighbourhood (`None` or "")
      becomes the placeholder, any other is kept verbatim. The label is
      never empty. */
  function NeighbourhoodLabel(b: Option<string>): (shown: string)
    ensures shown != ""
    ensures b.Some? && b.value != "" ==> shown == b.value
    ensures b.None? || b.value == "" ==> shown == Unspecified
  {
    if b.Some? && b.value != "" then b.value else Unspecified
  }

  /** The item built from a decoded entity: context fields verbatim, the
      neighbourhood label, and each entity key's value when present or its
      placeholder when absent. A present value is copied even if empty. */
  function ToItem(sp: Spider, e: Entity, b: Option<string>): (it: Item)
    ensures it.term == sp.term && it.state == sp.state && it.city == sp.city
    ensures it.neighbourhood == NeighbourhoodLabel(b)
    ensures it.name == (if e.title.Some? then e.title.value else NoTitle)
    ensures it.address == (if e.address.Some? then e.address.value else NoAddress)
    ensures it.phone == (if e.phone.Some? then e.phone.value else NoPhone)
    ensures it.website == (if e.website.Some? then e.website.value else NoWebsite)
  {
    Item(sp.term, sp.state, sp.city, NeighbourhoodLabel(b),
         e.title.GetOr(NoTitle), e.address.GetOr(NoAddress),
         e.phone.GetOr(NoPhone), e.website.GetOr(NoWebsite))
  }

  /** The item a node yields, if any. */
  function Extract(sp: Spider, node: Node, b: Option<string>): (r: Option<Item>)
    ensures r.Some? <==> YieldsItem(node)
    ensures r.Some? ==> r.value == ToItem(sp, node.payload.entity, b)
  {
    if YieldsItem(node) then Some(ToItem(sp, node.payload.entity, b)) else None
  }

  /** The item carries the spider's term, state and city verbatim and the
      neighbourhood label of the request. */
  predicate InContext(sp: Spider, b: Option<string>, it: Item) {
    && it.term == sp.term && it.state == sp.state && it.city == sp.city
    && it.neighbourhood == NeighbourhoodLabel(b)
  }

  /** `parse`: the items of the item-yielding nodes, in node order, each carrying
      the spider's term, state and city and the request's neighbourhood label. */
  function Parse(sp: Spider, nodes: seq<Node>, b: Option<string>): (items: seq<Item>)
    ensures |items| <= |nodes|
    ensures forall k :: 0 <= k < |items| ==> InContext(sp, b, items[k])
  {
    if |nodes| == 0 then []
    else
      var rest := Parse(sp, nodes[1..], b);
      if YieldsItem(nodes[0]) then [ToItem(sp, nodes[0].payload.entity, b)] + rest else rest
  }

  /** `it` is the item `node` yields. */
  predicate YieldedBy(sp: Spider, node: Node, b: Option<string>, it: Item) {
    YieldsItem(node) && it == ToItem(sp, node.payload.entity, b)
  }

  /** `it` is the item of some node of `nodes`. */
  predicate YieldedBySome(sp: Spider, nodes: seq<Node>, b: Option<string>, it: Item) {
    exists i :: 0 <= i < |nodes| && YieldedBy(sp, nodes[i], b, it)
  }

  /** Every item of `items` is the item of some node of `nodes`. */
  predicate FromNodes(sp: Spider, nodes: seq<Node>, b: Option<string>, items: seq<Item>) {
    forall k :: 0 <= k < |items| ==> YieldedBySome(sp, nodes, b, items[k])
  }

  /** An item that some node of the tail yields is yielded by a node of the
      whole sequence. */
  lemma SoundStep(sp: Spider, nodes: seq<Node>, b: Option<string>, it: Item)
    requires |nodes| > 0 && YieldedBySome(sp, nodes[1..], b, it)
    ensures YieldedBySome(sp, nodes, b, it)
  {
    var i :| 0 <= i < |nodes[1..]| && YieldedBy(sp, nodes[1..][i], b, it);
    assert nodes[1..][i] == nodes[i + 1];
  }

  /** Putting the item of an item-yielding first node in front of a result
      that the tail accounts for gives a result the whole sequence accounts for. */
  lemma SoundPrepend(sp: Spider, nodes: seq<Node>, b: Option<string>, rest: seq<Item>)
    requires |nodes| > 0 && YieldsItem(nodes[0])
    requires FromNodes(sp, nodes[1..], b, rest)
    ensures FromNodes(sp, nodes, b, [ToItem(sp, nodes[0].payload.entity, b)] + rest)
  {
    var items := [ToItem(sp, nodes[0].payload.entity, b)] + rest;
    forall k | 0 <= k < |items|
      ensures YieldedBySome(sp, nodes, b, items[k])
    {
      if k == 0 {
        assert YieldedBy(sp, nodes[0], b, items[k]);
      } else {
        SoundStep(sp, nodes, b, rest[k - 1]);
      }
    }
  }

  /** A result the tail accounts for is accounted for by the whole sequence. */
  lemma SoundSkip(sp: Spider, nodes: seq<Node>, b: Option<string>, rest: seq<Item>)
    requires |nodes| > 0
    requires FromNodes(sp, nodes[1..], b, rest)
    ensures FromNodes(sp, nodes, b, rest)
  {
    forall k | 0 <= k < |rest|
      ensures YieldedBySome(sp, nodes, b, rest[k])
    {
      SoundStep(sp, nodes, b, rest[k]);
    }
  }

  /** Every item comes from some item-yielding node of the page. */
  lemma {:induction false} ParseSound(sp: Spider, nodes: seq<Node>, b: Option<string>)
    ensures FromNodes(sp, nodes, b, Parse(sp, nodes, b))
  {
    if |nodes| > 0 {
      ParseSound(sp, nodes[1..], b);
      if YieldsItem(nodes[0]) {
        SoundPrepend(sp, nodes, b, Parse(sp, nodes[1..], b));
      } else {
        SoundSkip(sp, nodes, b, Parse(sp, nodes[1..], b));
      }
    } else {
      assert Parse(sp, nodes, b) == [];
    }
  }

  /** Every item-yielding node's item is in the result. */
  lemma {:induction false} ParseComplete(sp: Spider, nodes: seq<Node>, b: Option<string>)
    ensures forall i :: 0 <= i < |nodes| && YieldsItem(nodes[i]) ==>
      ToItem(sp, nodes[i].payload.entity, b) in Parse(sp, nodes, b)
  {
    if |nodes| > 0 {
      ParseComplete(sp, nodes[1..], b);
      forall i | 1 <= i < |nodes| && YieldsItem(nodes[i])
        ensures ToItem(sp, nodes[i].payload.entity, b) in Parse(sp, nodes, b)
      {
        assert nodes[i] == nodes[1..][i - 1];
      }
    }
  }

  /** No node is skipped exactly when the result is as long as the page. */
  lemma {:induction false} ParseKeepsAll(sp: Spider, nodes: seq<Node>, b: Option<string>)
    ensures |Parse(sp, nodes, b)| == |nodes| <==> forall i :: 0 <= i < |nodes| ==> YieldsItem(nodes[i])
  {
    if |nodes| > 0 {
      ParseKeepsAll(sp, nodes[1..], b);
      if forall i :: 0 <= i < |nodes| ==> YieldsItem(nodes[i]) {
        assert forall i :: 0 <= i < |nodes[1..]| ==> YieldsItem(nodes[1..][i]) by {
          forall i | 0 <= i < |nodes[1..]| ensures YieldsItem(nodes[1..][i]) {
            assert nodes[1..][i] == nodes[i + 1];
          }
        }
      } else if YieldsItem(nodes[0]) {
        var j :| 0 <= j < |nodes| && !YieldsItem(nodes[j]);
        assert !YieldsItem(nodes[1..][j - 1]);
      }
    }
  }

  /** Parsing distributes over concatenation: a node's outcome depends on that
      node alone, and items keep the order of their nodes. */
  lemma {:induction false} ParseAppend(sp: Spider, a: seq<Node>, c: seq<Node>, b: Option<string>)
    ensures Parse(sp, a + c, b) == Parse(sp, a, b) + Parse(sp, c, b)
    decreases |a|
  {
    if |a| == 0 {
      assert a + c == c;
    } else {
      assert (a + c)[0] == a[0];
      assert (a + c)[1..] == a[1..] + c;
      ParseAppend(sp, a[1..], c, b);
    }
  }

  /** A skipped node (missing or empty attribute, bad JSON, no entity) can be
      removed from anywhere in the page without changing the result. */
  lemma SkipNode(sp: Spider, a: seq<Node>, node: Node, c: seq<Node>, b: Option<string>)
    requires !YieldsItem(node)
    ensures Parse(sp, a + [node] + c, b) == Parse(sp, a + c, b)
  {
    ParseAppend(sp, a + [node], c, b);
    ParseAppend(sp, a, [node], b);
    ParseAppend(sp, a, c, b);
  }

  /** Number of nodes whose decoding raised, one logged error each. */
  function DecodeErrors(nodes: seq<Node>): (n: nat) {
    if |nodes| == 0 then 0
    else (if IsDecodeError(nodes[0]) then 1 else 0) + DecodeErrors(nodes[1..])
  }

  /** Number of nodes skipped silently for a missing or empty attribute. */
  function MissingAttributes(nodes: seq<Node>): (n: nat) {
    if |nodes| == 0 then 0
    else (if HasAttribute(nodes[0]) then 0 else 1) + MissingAttributes(nodes[1..])
  }

  /** Every node is accounted for exactly once: it yields an item, or raises
      a logged decode error, or is skipped for its attribute. */
  lemma {:induction false} ParsePartition(sp: Spider, nodes: seq<Node>, b: Option<string>)
    ensures |Parse(sp, nodes, b)| + DecodeErrors(nodes) + MissingAttributes(nodes) == |nodes|
  {
    if |nodes| > 0 {
      ParsePartition(sp, nodes[1..], b);
    }
  }

  /** Parsing one node more extends the result by that node's item, if any. */
  lemma ParseSnoc(sp: Spider, nodes: seq<Node>, i: nat, b: Option<string>)
    requires i < |nodes|
    ensures Parse(sp, nodes[..i + 1], b)
      == Parse(sp, nodes[..i], b) + (if YieldsItem(nodes[i]) then [ToItem(sp, nodes[i].payload.entity, b)] else [])
  {
    assert nodes[..i + 1] == nodes[..i] + [nodes[i]];
    ParseAppend(sp, nodes[..i], [nodes[i]], b);
    assert [nodes[i]][1..] == [];
  }

  /** The generator loop of `parse`, one node at a time: the items emitted and
      the number of errors logged. */
  method ParseListings(sp: Spider, nodes: seq<Node>, b: Option<string>) returns (items: seq<Item>, errors: nat)
    ensures items == Parse(sp, nodes, b)
    ensures errors == DecodeErrors(nodes)
  {
    items, errors := [], 0;
    var i := 0;
    while i < |nodes|
      invariant 0 <= i <= |nodes|
      invariant items == Parse(sp, nodes[..i], b)
      invariant errors + DecodeErrors(nodes[i..]) == DecodeErrors(nodes)
    {
      var node := nodes[i];
      ParseSnoc(sp, nodes, i, b);
      assert nodes[i..][1..] == nodes[i + 1..];
      match Extract(sp, node, b) {
        case Some(it) =>
          items := items + [it];
        case None =>
          if HasAttribute(node) {
            errors := errors + 1;
          }
      }
      i := i + 1;
    }
    assert nodes[..i] == nodes;
  }

  /** Three nodes, the middle one malformed: the first and third yield items,
      in that order, and one error is counted. */
  lemma MalformedMiddleNode(sp: Spider, e1: Entity, e3: Entity, b: Option<string>)
    ensures var nodes := [Node(Some("{...}"), Decoded(e1)), Node(Some("{"), Malformed), Node(Some("{...}"), Decoded(e3))];
      && Parse(sp, nodes, b) == [ToItem(sp, e1, b), ToItem(sp, e3, b)]
      && DecodeErrors(nodes) == 1
  {
    var n1, n2, n3 := Node(Some("{...}"), Decoded(e1)), Node(Some("{"), Malformed), Node(Some("{...}"), Decoded(e3));
    assert [n1, n2, n3][1..] == [n2, n3];
    assert [n2, n3][1..] == [n3];
    assert Parse(sp, [n3], b) == [ToItem(sp, e3, b)];
    assert DecodeErrors([n3]) == 0;
  }

  /** The code does not keep fields non-empty: the default term is empty and
      an entity key present with an empty value is copied as is. */
  lemma EmptyFieldsAreKept()
    ensures var sp := NewSpider(DefaultTerm, DefaultState, DefaultCity, DefaultNeighbourhoods);
      Parse(sp, [Node(Some("{...}"), Decoded(Entity(Some(""), None, None, None)))], None)
        == [Item("", "RS", "Porto Alegre", Unspecified, "", NoAddress, NoPhone, NoWebsite)]
  {
  }
}
