# vice-crawling: the feed crawl loop and its row mapping, in Dafny

`index.ts` harvests the "latest" feed of a GraphQL API page by page, starting at page 34.
It flattens every item of a page into one CSV row and appends the page's rows to
`output.csv`. This project models the two parts of that file that make decisions:

- **`FeedRecord`** (`feed_record.dfy`) models the mapping of one feed item to one row,
  written as pure functions. The body payload `body_components_json` is decoded, and only
  the components whose role is `"body"` are kept. Their `html` and `text` fields become
  two position-aligned columns. `topic` defaults to `""`. Id, type, title, publish date,
  URL and summary (`dek`) are copied through. The contributions are kept as an opaque
  serialised value. A page is mapped item by item, and the first item whose payload does
  not decode aborts the page.
- **`CrawlLoop`** (`crawl_loop.dfy`) models the `while (hasMore)` loop of
  `fetchLatestFeed`. `Step` is one iteration and `Run` is the loop over a sequence of
  outcomes. `FetchLatestFeed` is the loop itself, written as a method with a `while` loop
  and proved to compute `Run`. The state is `page`, `hasMore`, whether the function has
  returned, and the batches of rows appended so far, one batch per page.

The network call and the CSV writer are not modelled. Each iteration receives an
`Attempt` that says what the POST returned and whether `writeRecords` succeeded:

- **`Fetched(items)`**: the request returned the items of the page.
- **`TransportFault`**: the request failed with an axios error, and the function returns.
- **`ResponseShapeFault`**: the response has no item list, so a TypeError is thrown and caught.

The write result is `Appended` or `WriteFailed`. `JSON.parse` is modelled as a parameter
`parse: string -> Decoded` that can fail.

Three behaviours of the code are easy to miss when reading it, and the model keeps
each of them:

- **A malformed item does not get skipped.** When one item's body payload fails to decode,
  the exception escapes the `items.map` call. Nothing from that page is written, `page` is
  not incremented, and the same page is requested again. That repeats for as long as the
  server returns that item (`MalformedItemStallsCrawl`).
- **Only transport errors end the run.** A response without an item list or a failed
  write is caught, and the same page is retried (`OtherFaultRetriesPage`).
- **An empty page still counts.** It still goes through an (empty) write and still
  increments `page`. `hasMore` is cleared before the write, so if that write fails the
  loop still ends, with `page` unchanged (`EmptyPageEndsLoop`).

The query requests `body_components_json` only for articles. A Video or Linkout item
therefore has no payload, and `JSON.parse(undefined)` throws. In the model such an item
(`bodyComponentsJson == None`) is malformed, with the consequences above.

## Model

| member | source | states |
|---|---|---|
| `FeedRecord.BodyOnly` | index.ts:232 | every retained component has role "body" and comes from the decoded payload; never more components than the payload |
| `FeedRecord.BodyOnlyCount` | index.ts:232-234 | the number of retained components equals the number of "body" components in the payload, counted independently from the back |
| `FeedRecord.Origin` | index.ts:232 | the k-th retained component is the payload's component at position `Origin(cs, k)`, and that component has role "body" |
| `FeedRecord.OriginIncreasing` | index.ts:232 | retained components keep their original relative order |
| `FeedRecord.OriginOnto` | index.ts:232 | every "body" component of the payload is retained at some position |
| `FeedRecord.NonBodyIgnored` | index.ts:232-234 | inserting a component whose role is not "body" anywhere in the payload leaves the retained list unchanged |
| `FeedRecord.Htmls` | index.ts:233 | `content_html` has one entry per retained component, the `html` of that component, with a missing `html` kept in its slot |
| `FeedRecord.Texts` | index.ts:234 | `content_md` has one entry per retained component, the `text` of that component, with a missing `text` kept in its slot |
| `FeedRecord.Flatten` | index.ts:229-247 | an item maps to a row exactly when its body payload is present and decodes, otherwise to a failure naming the item id; the row copies id, type, title, publish date, URL and summary; its topic is `primary_topic.name` when topic and name are present and `""` otherwise; its contributors are the contribution list unchanged, or the empty object when the list is missing; its two content columns are equally long and drawn from the retained components |
| `FeedRecord.ContentAligned` | index.ts:232-234 | `content_html[k]` and `content_md[k]` are the `html` and `text` of the same "body" component of the payload, and both columns are as long as the number of such components |
| `FeedRecord.FlattenPage` | index.ts:229-247 | a page maps to rows exactly when every item maps; then there is one row per item, in item order; otherwise the failure is that of the first item that does not map |
| `FeedRecord.ArticleExample` | index.ts:229-247 | an article whose payload holds one "body" component and one other maps to a row with `content_html = ["<p>hi</p>"]`, `content_md = ["hi"]` and topic "Tech" |
| `CrawlLoop.Step` | index.ts:203-265 | one iteration, with `hasMore` cleared on an empty page before mapping and writing and every non-axios error caught: it appends at most one batch, never drops a written batch, moves `page` by exactly the number of batches it appends, never sets `hasMore` back to true, and keeps the consecutive-pages invariant; its case-by-case behaviour is stated by the one-iteration lemmas below |
| `CrawlLoop.Run` | index.ts:202-266 | `while (hasMore)` over a sequence of outcomes: a stopped loop does nothing, written batches are never lost, and `page` moves by exactly the number of pages written; `RunKeepsValid` and `CleanFeedTerminates` state the rest |
| `CrawlLoop.FetchLatestFeed` | index.ts:198-268 | the loop's final `page`, `hasMore`, early return and the rows appended, in order, are those of `Run` from page 34 over the same outcomes |
| `CrawlLoop.PageAdvancesOnlyByWrite` | index.ts:249-257 | an iteration that fetches, maps and writes a page increments `page` by exactly 1 and appends that page's rows, one per item; any other iteration changes neither `page` nor the output |
| `CrawlLoop.WrittenRowsFollowItems` | index.ts:229-250 | the i-th row appended for a page is the mapping of the page's i-th item, with its id, type, title, publish date, URL and summary |
| `CrawlLoop.HasMoreClearedIffEmptyPage` | index.ts:226-228 | `hasMore` becomes false exactly when a fetched page has no items |
| `CrawlLoop.EmptyPageEndsLoop` | index.ts:202-257 | after an empty page the loop stops; the empty write leaves the output unchanged and `page` still increments unless that write fails |
| `CrawlLoop.TransportFaultReturns` | index.ts:259-263 | an axios error returns from the crawl with `page` and the output unchanged, and nothing further happens |
| `CrawlLoop.OtherFaultRetriesPage` | index.ts:259-265 | a response without items, a payload that does not decode, or a failed write of a non-empty page leaves the whole state unchanged, so the same page is requested again |
| `CrawlLoop.MalformedItemStallsCrawl` | index.ts:232 | a page holding one item whose payload does not decode, fetched any number of times, never writes a row and never moves `page` |
| `CrawlLoop.RunKeepsValid` | index.ts:199-257 | over any outcomes, `page` is the page after the last one written, pages are written in consecutive order, `page` never decreases and written batches are never lost |
| `CrawlLoop.CrawlWritesConsecutivePages` | index.ts:199-200 | from the start the crawl writes pages 34, 35, ... in that order, and `page` is 34 plus the number of pages written |
| `CrawlLoop.CleanFeedTerminates` | index.ts:202-257 | for a feed of pages that all decode and end with one empty page, the crawl stops after exactly those pages with `hasMore` cleared, `page` advanced once per page, and their rows appended in page order |

## Left out

- The HTTP request (index.ts:203-223) and the GraphQL query text (index.ts:22-196) are not modelled. The outcome of each request is an input of the model. The query variables other than `page` are fixed constants.
- The CSV writer's configuration and file format (index.ts:4-20) are not modelled. A write is modelled as appending the page's rows as one batch, all at once or not at all. A writer that fails part-way through a page is not modelled.
- `JSON.parse` is a parameter that may fail, and `JSON.stringify` of the contributions is a constructor that keeps the list unchanged. Their internals are not part of this model. The separate ways the decoded value can be unusable (not JSON, not an array, a null entry) are all one `Malformed` outcome.
- Console logging (index.ts:231, 252-254, 261, 264, 267), async scheduling and the top-level call (index.ts:270) are not modelled.
- `item.data` is assumed to be present. A missing `data` would throw when it is read, and the loop would then retry the page exactly as it does for a malformed payload.
- CrawlLoop.FetchLatestFeed: the real loop runs for as long as the server answers. The model's run also ends when its sequence of outcomes is used up, so an endless retry is represented by arbitrarily many repeated outcomes (`MalformedItemStallsCrawl`), not by a loop that does not terminate.
