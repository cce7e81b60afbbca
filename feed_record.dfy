/** Flattening of one feed item into one output row: the mapping applied to every
    item of a fetched page inside fetchLatestFeed (index.ts).

    A field that the response may lack (JavaScript `undefined` or `null`) is an
    `Option`; the row keeps `None` where the source copies `undefined` through. */
module FeedRecord {

  datatype Option<+T> = None | Some(value: T)

  /** The only failure of the mapping: the body payload of the item with this id
      could not be decoded into a list of components. */
  datatype Failure = MalformedBody(itemId: string)

  datatype Result<+T> = Ok(value: T) | Err(failure: Failure)

  /** One entry of the decoded `body_components_json` array. */
  datatype Component = Component(role: Option<string>, html: Option<string>, text: Option<string>)

  /** What `JSON.parse` followed by `.filter` makes of a body payload string: a list
      of components, or an exception (not JSON, not an array, a null entry). */
  datatype Decoded = Parsed(components: seq<Component>) | Malformed

  /** `primary_topic`; only its `name` is read. */
  datatype Topic = Topic(name: Option<string>)

  /** `contributor` of a contribution, with every field the query requests. */
  datatype Contributor = Contributor(
    fullName: Option<string>,
    id: Option<string>,
    slug: Option<string>,
    publicUrl: Option<string>,
    typename: Option<string>)

  /** One entry of `contributions`, with every field the query requests; carried
      through as opaque data. */
  datatype Contribution = Contribution(
    roleId: Option<string>,
    role: Option<string>,
    contributor: Option<Contributor>,
    typename: Option<string>)

  /** `JSON.stringify(data?.contributions ?? {})`: the serialised contribution list,
      or the serialisation of the empty object when the list is missing. */
  datatype ContributorsBlob = Serialized(contributions: seq<Contribution>) | EmptyObject

  datatype ItemData = ItemData(
    title: Option<string>,
    publishDate: Option<string>,
    url: Option<string>,
    dek: Option<string>,
    primaryTopic: Option<Topic>,
    bodyComponentsJson: Option<string>,
    contributions: Option<seq<Contribution>>)

  datatype FeedItem = FeedItem(id: string, kind: string, data: ItemData)

  /** One output row. */
  datatype FlatRecord = FlatRecord(
    id: string,
    kind: string,
    title: Option<string>,
    publishDate: Option<string>,
    url: Option<string>,
    topic: string,
    contentHtml: seq<Option<string>>,
    contentMd: seq<Option<string>>,
    summary: Option<string>,
    contributors: ContributorsBlob)

  predicate IsBody(c: Component) {
    c.role == Some("body")
  }

  /** The `filter` keeping the components whose role is "body", in their original order. */
  function BodyOnly(cs: seq<Component>): (r: seq<Component>)
    ensures |r| <= |cs|
    ensures forall k :: 0 <= k < |r| ==> IsBody(r[k]) && r[k] in cs
  {
    if cs == [] then []
    else if IsBody(cs[0]) then [cs[0]] + BodyOnly(cs[1..])
    else BodyOnly(cs[1..])
  }

  /** Number of "body" components, counted from the back of the list. */
  function CountBody(cs: seq<Component>): nat
  {
    if cs == [] then 0
    else CountBody(cs[..|cs| - 1]) + (if IsBody(cs[|cs| - 1]) then 1 else 0)
  }

  /** `body.map(component => component.html)`. */
  function Htmls(body: seq<Component>): (r: seq<Option<string>>)
    ensures |r| == |body|
    ensures forall k :: 0 <= k < |body| ==> r[k] == body[k].html
  {
    if body == [] then [] else [body[0].html] + Htmls(body[1..])
  }

  /** `body.map(component => component.text)`. */
  function Texts(body: seq<Component>): (r: seq<Option<string>>)
    ensures |r| == |body|
    ensures forall k :: 0 <= k < |body| ==> r[k] == body[k].text
  {
    if body == [] then [] else [body[0].text] + Texts(body[1..])
  }

  /** `data?.primary_topic?.name ?? ""`. */
  function TopicName(t: Option<Topic>): string
  {
    match t
    case Some(Topic(Some(name))) => name
    case _ => ""
  }

  /** `JSON.stringify(data?.contributions ?? {})`. */
  function ContributorsOf(cs: Option<seq<Contribution>>): ContributorsBlob
  {
    match cs
    case Some(list) => Serialized(list)
    case None => EmptyObject
  }

  /** Decoding the body payload; `JSON.parse(undefined)` throws, so a missing payload fails. */
  function DecodeBody(payload: Option<string>, parse: string -> Decoded): Decoded
  {
    match payload
    case Some(json) => parse(json)
    case None => Malformed
  }

  /** The mapping of one item to one row. A row exists exactly when the payload is
      present and decodes; the topic falls back to "" and the contributors to the empty
      object; everything else is copied from the item. */
  function Flatten(item: FeedItem, parse: string -> Decoded): (r: Result<FlatRecord>)
    ensures item.data.bodyComponentsJson.None? ==> r.Err?
    ensures item.data.bodyComponentsJson.Some? ==>
      (r.Ok? <==> parse(item.data.bodyComponentsJson.value).Parsed?)
    ensures r.Err? ==> r.failure == MalformedBody(item.id)
    ensures r.Ok? ==>
      && r.value.topic == (if item.data.primaryTopic.Some? && item.data.primaryTopic.value.name.Some?
                           then item.data.primaryTopic.value.name.value else "")
      && r.value.contributors == (if item.data.contributions.Some?
                                  then Serialized(item.data.contributions.value) else EmptyObject)
    ensures r.Ok? ==>
      var cs := parse(item.data.bodyComponentsJson.value).components;
      && r.value.id == item.id
      && r.value.kind == item.kind
      && r.value.title == item.data.title
      && r.value.publishDate == item.data.publishDate
      && r.value.url == item.data.url
      && r.value.summary == item.data.dek
      && |r.value.contentHtml| == |r.value.contentMd| == |BodyOnly(cs)|
      && (forall k :: 0 <= k < |r.value.contentHtml| ==>
            r.value.contentHtml[k] == BodyOnly(cs)[k].html &&
            r.value.contentMd[k] == BodyOnly(cs)[k].text)
  {
    match DecodeBody(item.data.bodyComponentsJson, parse)
    case Malformed => Err(MalformedBody(item.id))
    case Parsed(cs) =>
      var body := BodyOnly(cs);
      Ok(FlatRecord(
        item.id,
        item.kind,
        item.data.title,
        item.data.publishDate,
        item.data.url,
        TopicName(item.data.primaryTopic),
        Htmls(body),
        Texts(body),
        item.data.dek,
        ContributorsOf(item.data.contributions)))
  }

  /** `items.map(...)`: the rows of a whole page, or the failure of the first item
      whose body cannot be decoded (the exception leaves the `map` at once). */
  function FlattenPage(items: seq<FeedItem>, parse: string -> Decoded): (r: Result<seq<FlatRecord>>)
    ensures r.Ok? <==> forall i :: 0 <= i < |items| ==> Flatten(items[i], parse).Ok?
    ensures r.Ok? ==>
      |r.value| == |items| &&
      forall i :: 0 <= i < |items| ==> Flatten(items[i], parse) == Ok(r.value[i])
    ensures r.Err? ==>
      exists i :: 0 <= i < |items| && Flatten(items[i], parse) == Err(r.failure) &&
        forall j :: 0 <= j < i ==> Flatten(items[j], parse).Ok?
  {
    if items == [] then Ok([])
    else
      match Flatten(items[0], parse)
      case Err(e) => Err(e)
      case Ok(first) =>
        match FlattenPage(items[1..], parse)
        case Err(e) =>
          assert forall j :: 1 <= j < |items| ==> items[j] == items[1..][j - 1];
          Err(e)
        case Ok(rest) => Ok([first] + rest)
  }

  // ---------------------------------------------------------------------------
  // Properties of the body projection

  lemma {:induction false} BodyOnlyAppend(cs: seq<Component>, c: Component)
    ensures BodyOnly(cs + [c]) == BodyOnly(cs) + (if IsBody(c) then [c] else [])
  {
    if cs != [] {
      assert (cs + [c])[1..] == cs[1..] + [c];
      BodyOnlyAppend(cs[1..], c);
    }
  }

  /** Both content columns have one entry per "body" component of the payload. */
  lemma {:induction false} BodyOnlyCount(cs: seq<Component>)
    ensures |BodyOnly(cs)| == CountBody(cs)
  {
    if cs != [] {
      var init := cs[..|cs| - 1];
      assert cs == init + [cs[|cs| - 1]];
      BodyOnlyAppend(init, cs[|cs| - 1]);
      BodyOnlyCount(init);
    }
  }

  /** Position in `cs` of the `k`-th retained component. */
  function Origin(cs: seq<Component>, k: nat): (i: nat)
    requires k < |BodyOnly(cs)|
    ensures i < |cs| && IsBody(cs[i]) && cs[i] == BodyOnly(cs)[k]
    decreases |cs|
  {
    if IsBody(cs[0]) then
      if k == 0 then 0 else 1 + Origin(cs[1..], k - 1)
    else 1 + Origin(cs[1..], k)
  }

  /** Retained components keep their relative order. */
  lemma {:induction false} OriginIncreasing(cs: seq<Component>, j: nat, k: nat)
    requires j < k < |BodyOnly(cs)|
    ensures Origin(cs, j) < Origin(cs, k)
    decreases |cs|
  {
    if IsBody(cs[0]) {
      if j > 0 { OriginIncreasing(cs[1..], j - 1, k - 1); }
    } else {
      OriginIncreasing(cs[1..], j, k);
    }
  }

  /** Every "body" component of the payload is retained. */
  lemma {:induction false} OriginOnto(cs: seq<Component>, i: nat)
    requires i < |cs| && IsBody(cs[i])
    ensures exists k :: 0 <= k < |BodyOnly(cs)| && Origin(cs, k) == i
    decreases |cs|
  {
    if i == 0 {
      assert Origin(cs, 0) == 0;
    } else {
      OriginOnto(cs[1..], i - 1);
      var k' :| 0 <= k' < |BodyOnly(cs[1..])| && Origin(cs[1..], k') == i - 1;
      if IsBody(cs[0]) {
        assert Origin(cs, k' + 1) == i;
      } else {
        assert Origin(cs, k') == i;
      }
    }
  }

  /** A component whose role is not "body" contributes nothing, wherever it stands. */
  lemma {:induction false} NonBodyIgnored(cs: seq<Component>, i: nat, c: Component)
    requires i <= |cs| && !IsBody(c)
    ensures BodyOnly(cs[..i] + [c] + cs[i..]) == BodyOnly(cs)
  {
    if i == 0 {
      assert (cs[..0] + [c] + cs[0..])[1..] == cs;
    } else {
      assert (cs[..i] + [c] + cs[i..])[0] == cs[0];
      assert (cs[..i] + [c] + cs[i..])[1..] == cs[1..][..i - 1] + [c] + cs[1..][i - 1..];
      NonBodyIgnored(cs[1..], i - 1, c);
    }
  }

  /** `content_html[k]` and `content_md[k]` are the `html` and `text` of one and the same
      "body" component, and the columns are as long as the number of such components. */
  lemma ContentAligned(item: FeedItem, parse: string -> Decoded, k: nat)
    requires Flatten(item, parse).Ok?
    requires k < |Flatten(item, parse).value.contentHtml|
    ensures
      var cs := DecodeBody(item.data.bodyComponentsJson, parse).components;
      var row := Flatten(item, parse).value;
      && |row.contentHtml| == |row.contentMd| == CountBody(cs)
      && k < |BodyOnly(cs)|
      && IsBody(cs[Origin(cs, k)])
      && row.contentHtml[k] == cs[Origin(cs, k)].html
      && row.contentMd[k] == cs[Origin(cs, k)].text
  {
    BodyOnlyCount(DecodeBody(item.data.bodyComponentsJson, parse).components);
  }

  /** The worked example of one article: one "body" component and one other. */
  lemma ArticleExample(parse: string -> Decoded, json: string)
    requires parse(json) == Parsed([
      Component(Some("body"), Some("<p>hi</p>"), Some("hi")),
      Component(Some("other"), None, None)])
    ensures
      var item := FeedItem("a1", "articles", ItemData(
        Some("T"), Some("2024-01-01"), Some("u"), Some("sum"),
        Some(Topic(Some("Tech"))), Some(json), Some([])));
      Flatten(item, parse) == Ok(FlatRecord(
        "a1", "articles", Some("T"), Some("2024-01-01"), Some("u"), "Tech",
        [Some("<p>hi</p>")], [Some("hi")], Some("sum"), Serialized([])))
  {
    var cs := parse(json).components;
    assert !IsBody(cs[1]);
    assert BodyOnly(cs[1..]) == [] by { assert cs[1..][1..] == []; }
    assert BodyOnly(cs) == [cs[0]];
    assert Htmls([cs[0]]) == [Some("<p>hi</p>")];
    assert Texts([cs[0]]) == [Some("hi")];
  }
}

