# lead_scraper: search planning, listing extraction and the Excel row accumulator

A Dafny model of the two pieces of logic inside the `lead_scraper` Scrapy
project:

- **`BingMapsSpider`** (`spiders/bing_maps_spider.py`): the comma split of the
  `bairros` argument, the search requests `start_requests` issues (one
  unfiltered query, or one query per neighbourhood, each tagged with the
  neighbourhood carried to `parse`), and `parse`, which turns a page's listing
  nodes into `LeadScraperItem`s with Portuguese placeholders for absent
  fields and `'Não especificado'` for a falsy neighbourhood, skipping nodes
  whose `data-entity` attribute is missing, empty or does not decode to an
  object with an `entity`.
- **`ExcelExportPipeline`** (`pipelines.py`): the sheet that starts as the
  fixed eight-label header, gains exactly one row per `process_item` (which
  hands the item on unchanged), and is saved by `close_spider` under
  `leads_YYYYMMDD_HHMMSS.xlsx`.

Files and modules:

| file | module | contents |
|---|---|---|
| `wrappers.dfy` | `Wrappers` | `Option`, standing for Python's `None` and for absent keys |
| `text.dfy` | `Text` | `str.split(sep)` and `sep.join`, zero-padded decimals as `strftime` writes them |
| `items.dfy` | `Items` | the eight-field `Item` of `items.py` |
| `spider.dfy` | `Spider` | constructor, `start_requests`, `parse` |
| `pipeline.dfy` | `Pipeline` | sheet, rows, file name, `close_spider` |
| `run.dfy` | `Run` | a crawl end to end: pages parsed, items fed to the pipeline, one file saved |

A page is modelled as the already-selected sequence of `a.listings-item`
nodes; each node is its `data-entity` attribute (`None` when missing) and the
outcome of decoding it: `Malformed` (invalid JSON), `NoEntity` (no `entity`
key, or a value without `.get`), or `Decoded` with the four optional entity
fields. The percent-encoder is a function parameter of `StartRequests`; the
clock reading is a parameter of `CloseSpider`.

Two observations made while modelling:

- `bairros.split(',') if bairros else ['']` is the same as `bairros.split(',')`
  for every argument, because Python splits the empty string into `['']`
  (`Spider.GuardIsSplit`). A non-empty argument never yields the sentinel
  (`Spider.SentinelIffEmpty`); an argument such as `","` yields two empty
  neighbourhoods, two requests, and items labelled `'Não especificado'`.
- One might expect every field of a lead to be non-empty text; the code does
  not ensure this: `termo` defaults to `''` and
  `entity.get` substitutes a placeholder only for an absent key, so a key
  present with an empty value is copied as is. The model follows the code
  (`Spider.EmptyFieldsAreKept`); only the neighbourhood is proved never empty
  (`Spider.NeighbourhoodLabel`).

## Model

| member | source | states |
|---|---|---|
| `Text.Split` | lead_scraper/lead_scraper/spiders/bing_maps_spider.py:14 | `str.split(',')`: one piece more than there are commas, no piece contains a comma |
| `Text.JoinSplit` | lead_scraper/lead_scraper/spiders/bing_maps_spider.py:14 | joining the split pieces with the separator restores the text exactly: nothing trimmed or dropped |
| `Text.SplitJoin` | lead_scraper/lead_scraper/spiders/bing_maps_spider.py:14 | splitting joined comma-free pieces gives back the same pieces, so the split is the unique such decomposition |
| `Text.PadDecimal` | lead_scraper/lead_scraper/pipelines.py:32 | a `strftime` field is exactly its width long and all digits |
| `Text.DecimalOfPad` | lead_scraper/lead_scraper/pipelines.py:32 | a zero-padded field reads back as the number written |
| `Text.PadOfDecimal` | lead_scraper/lead_scraper/pipelines.py:32 | every digit string is the padded form of its value, so padding loses nothing |
| `Text.FieldsRoundTrip` | lead_scraper/lead_scraper/pipelines.py:32 | cutting `%Y%m%d` or `%H%M%S` text at the field widths reads back the numbers written |
| `Text.FieldsComplete` | lead_scraper/lead_scraper/pipelines.py:32 | every digit string is the padded text of its field values |
| `Spider.SplitNeighbourhoods` | lead_scraper/lead_scraper/spiders/bing_maps_spider.py:14 | empty argument gives `['']`; otherwise commas + 1 comma-free entries that join back to the argument |
| `Spider.SentinelIffEmpty` | lead_scraper/lead_scraper/spiders/bing_maps_spider.py:14 | the list is `['']` if and only if the argument is empty |
| `Spider.GuardIsSplit` | lead_scraper/lead_scraper/spiders/bing_maps_spider.py:14 | the emptiness guard agrees with a plain split on every argument |
| `Spider.NewSpider` | lead_scraper/lead_scraper/spiders/bing_maps_spider.py:9-14 | term, state and city kept verbatim; `bairros` split at every comma: commas + 1 comma-free entries that join back to `bairros`, `['']` when it is empty |
| `Spider.QueryTextLayout` | lead_scraper/lead_scraper/spiders/bing_maps_spider.py:18-24 | the search text is the term, `" em "`, the neighbourhood and `", "` when there is one, then city `", "` state, and nothing else |
| `Spider.PerNeighbourhood` | lead_scraper/lead_scraper/spiders/bing_maps_spider.py:23-27 | one request per neighbourhood in list order, text `"{termo} em {bairro}, {cidade}, {estado}"`, tagged with that neighbourhood, URL the search page plus the encoded text |
| `Spider.StartRequests` | lead_scraper/lead_scraper/spiders/bing_maps_spider.py:16-27 | sentinel list: one request `"{termo} em {cidade}, {estado}"` tagged `None`; otherwise one tagged request per neighbourhood, in order |
| `Spider.RequestsFromArguments` | lead_scraper/lead_scraper/spiders/bing_maps_spider.py:14-27 | from `bairros` to requests: commas + 1 requests; the unfiltered request exactly when `bairros` is empty; otherwise every request names a neighbourhood and the names join back to `bairros` |
| `Spider.DefaultsGiveOneUnfilteredRequest` | lead_scraper/lead_scraper/spiders/bing_maps_spider.py:9-21 | with default state, city and neighbourhoods: one request `"{termo} em Porto Alegre, RS"` tagged `None` |
| `Spider.NeighbourhoodLabel` | lead_scraper/lead_scraper/spiders/bing_maps_spider.py:44 | a truthy neighbourhood is kept, `None` or `""` becomes `'Não especificado'`; never empty |
| `Spider.ToItem` | lead_scraper/lead_scraper/spiders/bing_maps_spider.py:40-48 | context fields verbatim; each entity field its value when the key is present (even empty), its fixed placeholder when absent |
| `Spider.Extract` | lead_scraper/lead_scraper/spiders/bing_maps_spider.py:36-53 | a node yields an item if and only if its attribute is non-empty and decodes to an `entity` object |
| `Spider.Parse` | lead_scraper/lead_scraper/spiders/bing_maps_spider.py:29-55 | no more items than nodes; every item has the spider's term, state, city and the request's neighbourhood label |
| `Spider.ParseSound` | lead_scraper/lead_scraper/spiders/bing_maps_spider.py:35-51 | every item is the item of some item-yielding node of the page |
| `Spider.ParseComplete` | lead_scraper/lead_scraper/spiders/bing_maps_spider.py:35-51 | every item-yielding node's item appears in the result |
| `Spider.ParseKeepsAll` | lead_scraper/lead_scraper/spiders/bing_maps_spider.py:35-53 | as many items as nodes if and only if no node is skipped |
| `Spider.ParseAppend` | lead_scraper/lead_scraper/spiders/bing_maps_spider.py:35-53 | parsing distributes over concatenation of pages: items keep node order and a node's outcome is independent of the others |
| `Spider.SkipNode` | lead_scraper/lead_scraper/spiders/bing_maps_spider.py:36-53 | a node with missing/empty attribute, bad JSON or no entity can be removed anywhere without changing the result |
| `Spider.ParsePartition` | lead_scraper/lead_scraper/spiders/bing_maps_spider.py:35-53 | items + logged decode errors + attribute skips = number of nodes |
| `Spider.ParseListings` | lead_scraper/lead_scraper/spiders/bing_maps_spider.py:33-55 | the node-by-node loop emits exactly the items of `Parse` and counts one error per node whose decoding raises |
| `Spider.MalformedMiddleNode` | lead_scraper/lead_scraper/spiders/bing_maps_spider.py:35-53 | three nodes with the middle one malformed: items of the first and third, in order, one error |
| `Spider.EmptyFieldsAreKept` | lead_scraper/lead_scraper/spiders/bing_maps_spider.py:41-48 | default (empty) term and an empty present title appear as empty fields |
| `Pipeline.OpenSpider` | lead_scraper/lead_scraper/pipelines.py:6-10 | the sheet holds one row, the header, and has the opened shape |
| `Pipeline.RowRoundTrip` | lead_scraper/lead_scraper/pipelines.py:19-28 | an item's row reads back as the same item, and every eight-cell row is an item's row |
| `Pipeline.ItemRow` | lead_scraper/lead_scraper/pipelines.py:19-28 | eight cells, one per header column, holding term, state, city, neighbourhood, name, address, phone and website in that order, so each field lands under its label |
| `Pipeline.ProcessItem` | lead_scraper/lead_scraper/pipelines.py:18-29 | exactly one row appended, earlier rows unchanged, new row reads back as the item, item returned unchanged, sheet shape preserved |
| `Pipeline.ProcessAll` | lead_scraper/lead_scraper/pipelines.py:18-29 | n items add n rows after the existing ones, in submission order, earlier rows unchanged |
| `Pipeline.SheetReadBack` | lead_scraper/lead_scraper/pipelines.py:6-29 | after opening and n items: 1 + n rows, header first, data rows read back as the items in order |
| `Pipeline.FileName` | lead_scraper/lead_scraper/pipelines.py:32-33 | 26 characters: `leads_`, eight digits, `_`, six digits, `.xlsx` |
| `Pipeline.FileNameRoundTrip` | lead_scraper/lead_scraper/pipelines.py:32-33 | the timestamp is recovered from the file name |
| `Pipeline.FileNameComplete` | lead_scraper/lead_scraper/pipelines.py:32-33 | every name that parses is the file name of the timestamp it parses to |
| `Pipeline.FileNameInjective` | lead_scraper/lead_scraper/pipelines.py:32-33 | distinct timestamps give distinct names |
| `Pipeline.FileNameExample` | tests/unit/test_pipeline.py:150-157 | 2025-10-04 14:30:45 gives `leads_20251004_143045.xlsx` |
| `Pipeline.CloseSpider` | lead_scraper/lead_scraper/pipelines.py:31-34 | one file whose name parses back to the clock reading, titled `Resultados`, holding the sheet as it stands |
| `Run.CrawlAppend` | lead_scraper/lead_scraper/spiders/bing_maps_spider.py:29-55 | crawling two runs of responses gives the first run's items followed by the second's |
| `Run.CrawlBlock` | lead_scraper/lead_scraper/spiders/bing_maps_spider.py:29-55 | the crawl is the items of the responses before `j`, then response `j`'s parsed page, then the items of the responses after it |
| `Run.CrawlContext` | lead_scraper/lead_scraper/spiders/bing_maps_spider.py:30-44 | each response's items form one block of the crawl, at the offset of the items before it, and every item in that block carries the spider's term, state, city and the label of that response's own neighbourhood |
| `Run.ExportContents` | tests/integration/test_spider_pipeline.py:71-88 | a crawl writes one file named after the clock reading, header first, then one row per crawled item read back in crawl order |
| `Run.NoItemNodesNoItems` | lead_scraper/lead_scraper/spiders/bing_maps_spider.py:33-55 | a page without item-yielding nodes (including an empty page) yields no item |
| `Run.HeaderOnlyExport` | lead_scraper/lead_scraper/pipelines.py:31-34 | with no item-yielding node on any page the single file holds the header row alone |
| `Run.UnfilteredRunIsUnspecified` | lead_scraper/lead_scraper/spiders/bing_maps_spider.py:17-44 | in an unfiltered search every item's neighbourhood is `'Não especificado'`, whatever order the responses arrive in and whichever requests go unanswered |
| `Run.FilteredRunNamesNeighbourhood` | lead_scraper/lead_scraper/spiders/bing_maps_spider.py:23-44 | in a neighbourhood search every item's neighbourhood is a listed neighbourhood, or the placeholder when the list has an empty entry, whatever order the responses arrive in and whichever requests go unanswered |

## Left out

- CSS selection of `a.listings-item` and `json.loads`: foreign library calls; a page is the selected node sequence with an abstract decode outcome.
- JSON values other than strings under the entity keys (`null`, numbers, objects) are not modelled; `entity.get` would copy them unchanged into the item.
- `urllib.parse.quote`: the encoder is a function parameter; its percent-encoding rules are not modelled.
- Logging: only the count of decode errors logged by `parse` is modelled (`Spider.ParseListings`); the info and warning messages are not.
- openpyxl workbook creation and `save`, `os.makedirs` and the computation of the `data` folder path: I/O outside the core; the output is the `OutputFile` value.
- `datetime.now()`: the clock reading is a parameter.
- `Pipeline.FileName`: years below 1000 are excluded, because `strftime("%Y")` pads them differently across platforms; datetime's years 1000-9999 are covered.
- Scrapy's `Request` objects, callbacks and engine scheduling: the crawl is a sequence of responses in any order, each carrying the neighbourhood of some request; requests may go unanswered or be answered more than once. The items of one response are taken as contiguous and the responses as handled one after another; Scrapy may interleave the items of responses processed at the same time, so the order of rows across responses is not promised by the program.
- `Pipeline.ProcessItem`: openpyxl's cell check is not modelled; it truncates strings to 32767 characters and raises `IllegalCharacterError` on the control characters \x00-\x08, \x0b, \x0c and \x0e-\x1f. The model stores every cell verbatim and never fails.
- `utils/localidades_api.py` (two HTTP GET wrappers) and `test-container.py` (a container smoke script): not part of this model.
