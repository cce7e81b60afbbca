/** The page loop of fetchLatestFeed (index.ts): fetch a page, map its items to rows,
    append the rows to the CSV output, advance the page; stop on an empty page, return
    on a transport error, and retry the same page after any other error.

    The network and the CSV writer are outside the model: each iteration is given an
    `Attempt` that says what the POST and the append did. `Step` is one iteration,
    `Run` the loop over a sequence of attempts, and `FetchLatestFeed` the loop itself,
    proved to compute `Run`. */
module CrawlLoop {
  import opened FeedRecord

  /** The page the crawl starts from. */
  const FirstPage: nat := 34

  /** What the POST for one page yields, as far as the loop can tell. */
  datatype Fetch =
    | Fetched(items: seq<FeedItem>)  // `response.data.data.latest`
    | TransportFault                 // the request rejected with an axios error
    | ResponseShapeFault             // no `data.data.latest` in the response: a TypeError

  /** What `csvWriter.writeRecords` did with the rows: all appended, or rejected. */
  datatype Write = Appended | WriteFailed

  /** The outside world's answer to one iteration of the loop. */
  datatype Attempt = Attempt(fetch: Fetch, write: Write)

  /** The rows of one page, appended in one call of the writer. */
  datatype Batch = Batch(page: nat, records: seq<FlatRecord>)

  /** `page` and `hasMore` of the loop, whether it has returned, and every batch it
      appended so far. */
  datatype State = State(page: nat, hasMore: bool, returned: bool, batches: seq<Batch>)

  function Start(): State {
    State(FirstPage, true, false, [])
  }

  /** The loop goes on while `hasMore` holds and it has not returned. */
  predicate Running(s: State) {
    s.hasMore && !s.returned
  }

  /** The output rows, in the order they were appended. */
  function Rows(batches: seq<Batch>): (r: seq<FlatRecord>)
    ensures batches == [] ==> r == []
  {
    if batches == [] then [] else Rows(batches[..|batches| - 1]) + batches[|batches| - 1].records
  }

  /** Whether an iteration gets as far as `page += 1`. */
  predicate Completes(a: Attempt, parse: string -> Decoded) {
    a.fetch.Fetched? && FlattenPage(a.fetch.items, parse).Ok? && a.write == Appended
  }

  /** One iteration of `while (hasMore)`. `hasMore` is cleared as soon as an empty page
      arrives, before the rows are mapped and written; every exception after the fetch
      is caught, so the page is only advanced by an iteration that writes its rows. */
  function Step(s: State, a: Attempt, parse: string -> Decoded): (r: State)
    ensures |s.batches| <= |r.batches| <= |s.batches| + 1
    ensures r.batches[..|s.batches|] == s.batches
    ensures r.page - s.page == |r.batches| - |s.batches|
    ensures r.hasMore ==> s.hasMore
    ensures Valid(s) ==> Valid(r)
  {
    match a.fetch
    case TransportFault => s.(returned := true)
    case ResponseShapeFault => s
    case Fetched(items) =>
      var hasMore := if |items| == 0 then false else s.hasMore;
      match FlattenPage(items, parse)
      case Err(_) => s.(hasMore := hasMore)
      case Ok(records) =>
        if a.write == WriteFailed then s.(hasMore := hasMore)
        else State(s.page + 1, hasMore, s.returned, s.batches + [Batch(s.page, records)])
  }

  /** The loop over the attempts in `trace`; it stops when the loop would stop, or when
      the trace has no further attempt. */
  function Run(s: State, trace: seq<Attempt>, parse: string -> Decoded): (r: State)
    ensures !Running(s) ==> r == s
    ensures |s.batches| <= |r.batches| && r.batches[..|s.batches|] == s.batches
    ensures r.page - s.page == |r.batches| - |s.batches|
    decreases |trace|
  {
    if !Running(s) || trace == [] then s
    else Run(Step(s, trace[0], parse), trace[1..], parse)
  }

  /** Pages are written one after another from the first page on, each once, and
      `page` is always the page after the last one written. */
  predicate Valid(s: State) {
    && s.page == FirstPage + |s.batches|
    && forall k :: 0 <= k < |s.batches| ==> s.batches[k].page == FirstPage + k
  }

  /** The crawl: `while (hasMore)` over the attempts in `trace`. Returns the final
      `page` and `hasMore`, whether it returned on a transport error, and the rows it
      appended to the output, in order. */
  method FetchLatestFeed(trace: seq<Attempt>, parse: string -> Decoded)
    returns (page: nat, hasMore: bool, returned: bool, written: seq<FlatRecord>)
    ensures
      var s := Run(Start(), trace, parse);
      page == s.page && hasMore == s.hasMore && returned == s.returned &&
      written == Rows(s.batches)
  {
    page, hasMore, returned, written := FirstPage, true, false, [];
    ghost var batches: seq<Batch> := [];
    var i := 0;
    while hasMore && i < |trace|
      invariant 0 <= i <= |trace|
      invariant Run(Start(), trace, parse) == Run(State(page, hasMore, false, batches), trace[i..], parse)
      invariant written == Rows(batches)
    {
      ghost var before := State(page, hasMore, false, batches);
      var attempt := trace[i];
      RunUnfold(before, trace[i..], parse);
      assert trace[i..][1..] == trace[i + 1..];
      i := i + 1;
      match attempt.fetch {
        case TransportFault =>
          returned := true;
          assert State(page, hasMore, true, batches) == Step(before, attempt, parse);
          return;
        case ResponseShapeFault =>
        case Fetched(items) =>
          StepFetched(before, attempt, parse);
          if |items| == 0 {
            hasMore := false;
          }
          var records := FlattenPage(items, parse);
          if records.Ok? && attempt.write == Appended {
            written := written + records.value;
            batches := batches + [Batch(page, records.value)];
            page := page + 1;
          }
      }
      assert State(page, hasMore, false, batches) == Step(before, attempt, parse);
    }
  }

  lemma StepFetched(s: State, a: Attempt, parse: string -> Decoded)
    requires Running(s) && a.fetch.Fetched?
    ensures
      var hasMore := |a.fetch.items| != 0;
      var records := FlattenPage(a.fetch.items, parse);
      Step(s, a, parse) ==
        if records.Ok? && a.write == Appended
        then State(s.page + 1, hasMore, false, s.batches + [Batch(s.page, records.value)])
        else s.(hasMore := hasMore)
  {
  }

  lemma RunUnfold(s: State, trace: seq<Attempt>, parse: string -> Decoded)
    requires Running(s) && trace != []
    ensures Run(s, trace, parse) == Run(Step(s, trace[0], parse), trace[1..], parse)
  {
  }

  // ---------------------------------------------------------------------------
  // Properties of one iteration

  /** `page` moves by exactly one, and the page's rows are appended, precisely when the
      iteration gets through the fetch, the mapping and the write; otherwise neither the
      page nor the output changes. */
  lemma PageAdvancesOnlyByWrite(s: State, a: Attempt, parse: string -> Decoded)
    requires Running(s)
    ensures Completes(a, parse) ==>
      var records := FlattenPage(a.fetch.items, parse).value;
      && Step(s, a, parse).page == s.page + 1
      && Step(s, a, parse).batches == s.batches + [Batch(s.page, records)]
      && Rows(Step(s, a, parse).batches) == Rows(s.batches) + records
      && |records| == |a.fetch.items|
    ensures !Completes(a, parse) ==>
      Step(s, a, parse).page == s.page && Step(s, a, parse).batches == s.batches
  {
  }

  /** The rows appended for a page are the page's items mapped one by one, in order. */
  lemma WrittenRowsFollowItems(s: State, a: Attempt, parse: string -> Decoded, i: nat)
    requires Running(s) && Completes(a, parse) && i < |a.fetch.items|
    ensures
      var row := Rows(Step(s, a, parse).batches)[|Rows(s.batches)| + i];
      var item := a.fetch.items[i];
      && Flatten(item, parse) == Ok(row)
      && row.id == item.id && row.kind == item.kind
      && row.title == item.data.title && row.publishDate == item.data.publishDate
      && row.url == item.data.url && row.summary == item.data.dek
  {
  }

  /** `hasMore` is cleared exactly by an empty page. */
  lemma HasMoreClearedIffEmptyPage(s: State, a: Attempt, parse: string -> Decoded)
    requires Running(s)
    ensures !Step(s, a, parse).hasMore <==> a.fetch.Fetched? && |a.fetch.items| == 0
  {
  }

  /** An empty page ends the loop after its iteration; that iteration still writes (no
      rows) and still advances `page`, unless the write is rejected. */
  lemma EmptyPageEndsLoop(s: State, w: Write, parse: string -> Decoded, rest: seq<Attempt>)
    requires Running(s)
    ensures
      var s' := Step(s, Attempt(Fetched([]), w), parse);
      && !Running(s')
      && Run(s', rest, parse) == s'
      && Rows(s'.batches) == Rows(s.batches)
      && s'.page == (if w == Appended then s.page + 1 else s.page)
  {
  }

  /** A transport error makes the crawl return: nothing more is fetched or written and
      `page` keeps its value. */
  lemma TransportFaultReturns(s: State, w: Write, parse: string -> Decoded, rest: seq<Attempt>)
    requires Running(s)
    ensures
      var s' := Step(s, Attempt(TransportFault, w), parse);
      && s'.returned && s'.page == s.page && s'.batches == s.batches
      && Run(s', rest, parse) == s'
  {
  }

  /** Any other error (a response without items, a body payload that does not decode, a
      rejected write of a non-empty page) is caught: the state is exactly as before, so
      the next iteration asks for the same page again. */
  lemma OtherFaultRetriesPage(s: State, a: Attempt, parse: string -> Decoded)
    requires Running(s)
    requires a.fetch.ResponseShapeFault? || (a.fetch.Fetched? && |a.fetch.items| > 0 && !Completes(a, parse))
    ensures Step(s, a, parse) == s
  {
  }

  /** `n` copies of the same attempt. */
  function Repeat(a: Attempt, n: nat): (r: seq<Attempt>)
    ensures |r| == n
    ensures forall k :: 0 <= k < n ==> r[k] == a
  {
    if n == 0 then [] else [a] + Repeat(a, n - 1)
  }

  /** One item whose body payload does not decode blocks its whole page: none of the
      page's rows is ever written and the same page is asked for again and again, for as
      long as the server keeps sending that item. */
  lemma {:induction false} MalformedItemStallsCrawl(
    s: State, items: seq<FeedItem>, w: Write, parse: string -> Decoded, i: nat, n: nat)
    requires Running(s)
    requires i < |items| && Flatten(items[i], parse).Err?
    ensures Run(s, Repeat(Attempt(Fetched(items), w), n), parse) == s
  {
    var a := Attempt(Fetched(items), w);
    assert FlattenPage(items, parse).Err?;
    if n > 0 {
      assert Step(s, a, parse) == s;
      assert Repeat(a, n)[1..] == Repeat(a, n - 1);
      MalformedItemStallsCrawl(s, items, w, parse, i, n - 1);
    }
  }

  // ---------------------------------------------------------------------------
  // Properties of the whole run

  lemma RowsAppend(batches: seq<Batch>, b: Batch)
    ensures Rows(batches + [b]) == Rows(batches) + b.records
  {
  }

  /** `page` starts at the first page and grows by one for every page written; pages are
      written in increasing order, each once, and what was written is never undone. */
  lemma {:induction false} RunKeepsValid(s: State, trace: seq<Attempt>, parse: string -> Decoded)
    requires Valid(s)
    ensures
      var s' := Run(s, trace, parse);
      && Valid(s')
      && s.page <= s'.page
      && |s.batches| <= |s'.batches| && s'.batches[..|s.batches|] == s.batches
    decreases |trace|
  {
    if Running(s) && trace != [] {
      var s1 := Step(s, trace[0], parse);
      PageAdvancesOnlyByWrite(s, trace[0], parse);
      RunKeepsValid(s1, trace[1..], parse);
      var s' := Run(s1, trace[1..], parse);
      assert s'.batches[..|s.batches|] == s'.batches[..|s1.batches|][..|s.batches|];
    }
  }

  /** The crawl, from its start, writes page 34, 35, ... in that order. */
  lemma CrawlWritesConsecutivePages(trace: seq<Attempt>, parse: string -> Decoded)
    ensures
      var s := Run(Start(), trace, parse);
      && s.page == FirstPage + |s.batches|
      && forall k :: 0 <= k < |s.batches| ==> s.batches[k].page == FirstPage + k
  {
    RunKeepsValid(Start(), trace, parse);
  }

  /** Attempts that fetch each of `pages` in turn and write every time. */
  function CleanAttempts(pages: seq<seq<FeedItem>>): seq<Attempt>
  {
    if pages == [] then [] else [Attempt(Fetched(pages[0]), Appended)] + CleanAttempts(pages[1..])
  }

  /** Whether every item of every one of `pages` decodes. */
  predicate AllDecode(pages: seq<seq<FeedItem>>, parse: string -> Decoded) {
    forall k :: 0 <= k < |pages| ==> FlattenPage(pages[k], parse).Ok?
  }

  /** The rows of `pages`, page after page. */
  function PagesRows(pages: seq<seq<FeedItem>>, parse: string -> Decoded): seq<FlatRecord>
    requires AllDecode(pages, parse)
  {
    if pages == [] then []
    else
      assert AllDecode(pages[1..], parse) by {
        forall k | 0 <= k < |pages| - 1 ensures FlattenPage(pages[1..][k], parse).Ok? {
          assert pages[1..][k] == pages[k + 1];
        }
      }
      FlattenPage(pages[0], parse).value + PagesRows(pages[1..], parse)
  }

  lemma CleanStep(s: State, items: seq<FeedItem>, parse: string -> Decoded)
    requires Running(s) && FlattenPage(items, parse).Ok?
    ensures Step(s, Attempt(Fetched(items), Appended), parse) ==
      State(s.page + 1, items != [], false, s.batches + [Batch(s.page, FlattenPage(items, parse).value)])
  {
  }

  /** What is left of a clean feed after its first page is again a clean feed. */
  lemma CleanTail(pages: seq<seq<FeedItem>>, parse: string -> Decoded)
    requires |pages| > 1 && pages[|pages| - 1] == []
    requires forall k :: 0 <= k < |pages| - 1 ==> pages[k] != []
    requires AllDecode(pages, parse)
    ensures pages[1..][|pages| - 2] == []
    ensures forall k :: 0 <= k < |pages| - 2 ==> pages[1..][k] != []
    ensures AllDecode(pages[1..], parse)
    ensures PagesRows(pages, parse) == FlattenPage(pages[0], parse).value + PagesRows(pages[1..], parse)
  {
  }

  lemma ConsConcat<T>(x: T, xs: seq<T>, rest: seq<T>)
    ensures ([x] + xs + rest)[0] == x
    ensures ([x] + xs + rest)[1..] == xs + rest
  {
  }

  lemma RunCleanPage(s: State, pages: seq<seq<FeedItem>>, rest: seq<Attempt>, parse: string -> Decoded)
    requires Running(s) && |pages| > 0 && FlattenPage(pages[0], parse).Ok?
    ensures Run(s, CleanAttempts(pages) + rest, parse) ==
      Run(State(s.page + 1, pages[0] != [], false,
                s.batches + [Batch(s.page, FlattenPage(pages[0], parse).value)]),
          CleanAttempts(pages[1..]) + rest, parse)
  {
    CleanStep(s, pages[0], parse);
    ConsConcat(Attempt(Fetched(pages[0]), Appended), CleanAttempts(pages[1..]), rest);
  }

  lemma ConcatAssoc<T>(x: seq<T>, y: seq<T>, z: seq<T>)
    ensures x + y + z == x + (y + z)
  {
  }

  /** A feed whose pages all decode, whose last page is empty and whose other pages are
      not: the crawl fetches exactly these pages, writes their rows in page order, stops
      with `hasMore` cleared, and `page` has moved once per page, the empty one included. */
  lemma {:induction false} CleanFeedTerminates(
    s: State, pages: seq<seq<FeedItem>>, rest: seq<Attempt>, parse: string -> Decoded)
    requires Running(s)
    requires |pages| > 0 && pages[|pages| - 1] == []
    requires forall k :: 0 <= k < |pages| - 1 ==> pages[k] != []
    requires AllDecode(pages, parse)
    ensures
      var s' := Run(s, CleanAttempts(pages) + rest, parse);
      && !s'.hasMore && !s'.returned
      && s'.page == s.page + |pages|
      && Rows(s'.batches) == Rows(s.batches) + PagesRows(pages, parse)
    decreases |pages|
  {
    var records := FlattenPage(pages[0], parse).value;
    var s1 := State(s.page + 1, pages[0] != [], false, s.batches + [Batch(s.page, records)]);
    var tail := CleanAttempts(pages[1..]) + rest;
    RunCleanPage(s, pages, rest, parse);
    var s' := Run(s1, tail, parse);
    assert Run(s, CleanAttempts(pages) + rest, parse) == s';
    if |pages| == 1 {
      assert !Running(s1);
      assert s' == s1;
      RowsAppend(s.batches, Batch(s.page, records));
      assert PagesRows(pages, parse) == records by {
        assert pages[1..] == [];
      }
    } else {
      CleanTail(pages, parse);
      CleanFeedTerminates(s1, pages[1..], rest, parse);
      assert Rows(s'.batches) == Rows(s.batches) + PagesRows(pages, parse) by {
        var rowsBefore := Rows(s.batches);
        var later := PagesRows(pages[1..], parse);
        RowsAppend(s.batches, Batch(s.page, records));
        assert Rows(s'.batches) == rowsBefore + records + later;
        ConcatAssoc(rowsBefore, records, later);
      }
    }
  }
}
