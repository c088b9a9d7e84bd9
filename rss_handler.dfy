/** The `/rss` request handler: query defaults, normalise, filter, cap, then HTML or JSON. */
module RssHandler {
  import opened JsValues
  import Text
  import opened FeedItems
  import opened RequestQuery
  import opened KeywordFilter
  import opened JsonBody
  import opened HtmlList

  /** What fetching and parsing the feed at a URL gives: the feed, or a failure with its message. */
  datatype FetchResult = Parsed(feed: Feed) | Failed(message: string)

  /** The handler's answer. */
  datatype Response =
    | HtmlPage(title: string, description: string, list: string)  // status 200, `res.send(html)`
    | JsonPage(body: Json)                                           // status 200, `res.json(...)`
    | ErrorPage(body: Json)                                          // status 500, `res.status(500).json(...)`

  function Status(r: Response): int
  {
    if r.ErrorPage? then 500 else 200
  }

  /** The items the response carries: normalised, filtered when there is a keyword, then capped. */
  function ResultItems(feed: Feed, query: Query): (items: seq<Item>)
    ensures |items| <= Limit
  {
    var normalized := NormalizeAll(feed.items);
    var keyword := Keyword(query);
    var filtered := if Truthy(keyword) then Filter(normalized, keyword.s) else normalized;
    Take(filtered, Limit)
  }

  /** The handler body; `fetch` stands for `parser.parseURL`. */
  function Handle(query: Query, fetch: string -> FetchResult): (r: Response)
    ensures Status(r) == 500 <==> fetch(FeedUrl(query)).Failed?
    ensures r.HtmlPage? <==> fetch(FeedUrl(query)).Parsed? && WantsHtml(query)
  {
    var url := FeedUrl(query);
    match fetch(url)
    case Failed(message) => ErrorPage(ErrorBody(message))
    case Parsed(feed) =>
      var items := ResultItems(feed, query);
      if WantsHtml(query) then
        HtmlPage(ToStr(feed.title), ToStr(feed.description), RenderList(Entries(items)))
      else
        JsonPage(SuccessBody(feed.title, url, Keyword(query), items))
  }

  /** Without a keyword nothing is filtered: the result is the first min(N, 100) items, normalised, in feed order. */
  lemma NoKeywordTakesFirstItems(feed: Feed, query: Query)
    requires !Truthy(query.q)
    ensures var n := if |feed.items| <= Limit then |feed.items| else Limit;
      && |ResultItems(feed, query)| == n
      && forall k :: 0 <= k < n ==> ResultItems(feed, query)[k] == Normalize(feed.items[k])
  {
  }

  /**
   * With a keyword the result is the first min(M, 100) of the M matching items, in feed
   * order: its j-th item is the item at the j-th kept position of the feed.
   */
  lemma KeywordTakesFirstMatches(feed: Feed, query: Query)
    requires Truthy(query.q)
    ensures var keyword := Text.Lower(query.q.s);
      var kept := KeptIndices(NormalizeAll(feed.items), keyword);
      var n := if |kept| <= Limit then |kept| else Limit;
      && |ResultItems(feed, query)| == n
      && forall j :: 0 <= j < n ==>
        0 <= kept[j] < |feed.items| && ResultItems(feed, query)[j] == Normalize(feed.items[kept[j]])
  {
    var normalized := NormalizeAll(feed.items);
    var keyword := Text.Lower(query.q.s);
    FilterSelectsKeptIndices(normalized, keyword);
    var filtered := Filter(normalized, keyword);
    var kept := KeptIndices(normalized, keyword);
    assert Keyword(query) == Str(keyword);
    var result := Take(filtered, Limit);
    assert ResultItems(feed, query) == result;
    forall j | 0 <= j < |result|
      ensures 0 <= kept[j] < |feed.items| && result[j] == Normalize(feed.items[kept[j]])
    {
      assert result[j] == filtered[j] == normalized[kept[j]];
    }
  }

  /** Every returned item has the keyword in its title or link, and the result is a prefix of the filtered list. */
  lemma KeywordResultMatches(feed: Feed, query: Query)
    requires Truthy(query.q)
    ensures var filtered := Filter(NormalizeAll(feed.items), Text.Lower(query.q.s));
      && ResultItems(feed, query) == filtered[..|ResultItems(feed, query)|]
      && forall x :: x in ResultItems(feed, query) ==> Matches(x, Text.Lower(query.q.s))
  {
    var filtered := Filter(NormalizeAll(feed.items), Text.Lower(query.q.s));
    FilterSoundAndComplete(NormalizeAll(feed.items), Text.Lower(query.q.s));
    var r := ResultItems(feed, query);
    forall x | x in r ensures x in filtered {
      var j :| 0 <= j < |r| && r[j] == x;
      assert filtered[j] == x;
    }
  }

  /** A response never carries more than 100 items. */
  lemma AtMostLimit(feed: Feed, query: Query)
    ensures |ResultItems(feed, query)| <= Limit
    ensures |ResultItems(feed, query)| <= |feed.items|
  {
    var normalized := NormalizeAll(feed.items);
    if Truthy(Keyword(query)) {
      FilterIsStableSelection(normalized, Keyword(query).s);
      var kept := KeptIndices(normalized, Keyword(query).s);
      KeptPositionsFit(kept, |normalized|);
    }
  }

  /** Strictly increasing positions below `n` are at most `n` in number. */
  lemma {:induction false} KeptPositionsFit(kept: seq<int>, n: nat)
    requires forall j :: 0 <= j < |kept| ==> 0 <= kept[j] < n
    requires forall j1, j2 :: 0 <= j1 < j2 < |kept| ==> kept[j1] < kept[j2]
    ensures |kept| <= n
    decreases n
  {
    if kept != [] {
      var last := kept[|kept| - 1];
      var init := kept[..|kept| - 1];
      assert forall j :: 0 <= j < |init| ==> init[j] < last;
      KeptPositionsFit(init, last);
    }
  }

  /** A failed fetch gives status 500 and the error object, whatever format was asked for. */
  lemma FailureIsUniform(query: Query, fetch: string -> FetchResult)
    ensures Handle(query, fetch).ErrorPage? <==> fetch(FeedUrl(query)).Failed?
    ensures fetch(FeedUrl(query)).Failed? ==>
      && Status(Handle(query, fetch)) == 500
      && Handle(query, fetch).body.JObject?
      && Lookup(Handle(query, fetch).body.members, "error") == Some(JString("Erro ao processar o feed RSS"))
      && Lookup(Handle(query, fetch).body.members, "detalhe") == Some(JString(fetch(FeedUrl(query)).message))
  {
  }

  /** A fetched feed gives HTML exactly when `format` is absent, empty or "html"; any other value gives JSON. */
  lemma FormatChoice(query: Query, fetch: string -> FetchResult)
    requires fetch(FeedUrl(query)).Parsed?
    ensures Handle(query, fetch).HtmlPage? <==> !Truthy(query.format) || query.format == Str("html")
    ensures Handle(query, fetch).JsonPage? <==> Truthy(query.format) && query.format != Str("html")
    ensures Status(Handle(query, fetch)) == 200
  {
  }

  /**
   * The JSON summary: `total` counts the items in `itens`, `itens` reads back as the result
   * items, `filtro` is the lowered keyword or "nenhum", and `url` is the URL that was fetched.
   */
  lemma JsonResponse(query: Query, fetch: string -> FetchResult)
    requires fetch(FeedUrl(query)).Parsed? && !WantsHtml(query)
    ensures var items := ResultItems(fetch(FeedUrl(query)).feed, query);
      && Handle(query, fetch).JsonPage?
      && Handle(query, fetch).body.JObject?
      && var ms := Handle(query, fetch).body.members;
      && (forall m :: m in ms ==> m.0 in {"feed", "url", "filtro", "total", "itens"})
      && ValueOf(Lookup(ms, "feed")) == fetch(FeedUrl(query)).feed.title
      && Lookup(ms, "total") == Some(JNumber(|items|))
      && Lookup(ms, "itens").Some? && Lookup(ms, "itens").value.JArray?
      && |Lookup(ms, "itens").value.elems| == |items|
      && ItemsFromJson(Lookup(ms, "itens").value.elems) == items
      && Lookup(ms, "filtro") == Some(JString(if Truthy(query.q) then Text.Lower(query.q.s) else "nenhum"))
      && Lookup(ms, "url") == Some(JString(if Truthy(query.url) then query.url.s else DefaultUrl))
  {
    var feed := fetch(FeedUrl(query)).feed;
    SuccessBodyFields(feed.title, FeedUrl(query), Keyword(query), ResultItems(feed, query));
  }

  /** The item is one whose text cannot be mistaken for the list's markup. */
  predicate PlainItem(item: Item)
  {
    MarkupFree(EntryOf(item))
  }

  /**
   * The HTML list holds one `<li>` per result item, in order: it reads back as the items'
   * entries, each linking `link` with text `titulo`, with a date line exactly when
   * `publicado` is truthy. Text with markup characters is inserted unescaped, so this
   * reading is stated for items without them.
   */
  lemma HtmlResponse(query: Query, fetch: string -> FetchResult)
    requires fetch(FeedUrl(query)).Parsed? && WantsHtml(query)
    requires forall x :: x in ResultItems(fetch(FeedUrl(query)).feed, query) ==> PlainItem(x)
    ensures var items := ResultItems(fetch(FeedUrl(query)).feed, query);
      && Handle(query, fetch).HtmlPage?
      && ParseList(Handle(query, fetch).list) == Some(Entries(items))
      && forall k :: 0 <= k < |items| ==>
        && Entries(items)[k].href == ToStr(items[k].link)
        && Entries(items)[k].text == ToStr(items[k].titulo)
        && (Entries(items)[k].date.Some? <==> Truthy(items[k].publicado))
  {
    var items := ResultItems(fetch(FeedUrl(query)).feed, query);
    var es := Entries(items);
    forall k | 0 <= k < |es| ensures MarkupFree(es[k]) {
      assert items[k] in items;
    }
    ListRoundTrip(es);
  }

  /** Asking for HTML or for JSON with the same `url` and `q` shows the same items in the same order. */
  lemma SameItemsEitherFormat(html: Query, json: Query, fetch: string -> FetchResult)
    requires html.url == json.url && html.q == json.q
    requires WantsHtml(html) && !WantsHtml(json)
    requires fetch(FeedUrl(html)).Parsed?
    requires forall x :: x in ResultItems(fetch(FeedUrl(html)).feed, html) ==> PlainItem(x)
    ensures var items := ResultItems(fetch(FeedUrl(html)).feed, html);
      && Handle(html, fetch).HtmlPage? && Handle(json, fetch).JsonPage?
      && ParseList(Handle(html, fetch).list) == Some(Entries(items))
      && Handle(json, fetch).body.JObject?
      && var itens := Lookup(Handle(json, fetch).body.members, "itens");
      && itens.Some? && itens.value.JArray? && ItemsFromJson(itens.value.elems) == items
  {
    HtmlResponse(html, fetch);
    JsonResponse(json, fetch);
    assert FeedUrl(html) == FeedUrl(json);
    assert ResultItems(fetch(FeedUrl(html)).feed, html) == ResultItems(fetch(FeedUrl(json)).feed, json);
  }

  /** An empty feed gives an empty HTML list, or `total: 0` with an empty `itens` array. */
  lemma EmptyFeed(query: Query, fetch: string -> FetchResult)
    requires fetch(FeedUrl(query)).Parsed? && fetch(FeedUrl(query)).feed.items == []
    ensures ResultItems(fetch(FeedUrl(query)).feed, query) == []
    ensures Handle(query, fetch).HtmlPage? ==> Handle(query, fetch).list == ""
    ensures Handle(query, fetch).JsonPage? ==>
      && Handle(query, fetch).body.JObject?
      && Lookup(Handle(query, fetch).body.members, "total") == Some(JNumber(0))
      && Lookup(Handle(query, fetch).body.members, "itens") == Some(JArray([]))
  {
    var feed := fetch(FeedUrl(query)).feed;
    AtMostLimit(feed, query);
    if !WantsHtml(query) {
      JsonResponse(query, fetch);
    }
  }

  /** A feed of more than 100 items, without a keyword, gives exactly its first 100 items. */
  lemma LargeFeedCapped(feed: Feed, query: Query)
    requires |feed.items| > Limit && !Truthy(query.q)
    ensures |ResultItems(feed, query)| == Limit
    ensures ResultItems(feed, query) == NormalizeAll(feed.items[..Limit])
  {
    NoKeywordTakesFirstItems(feed, query);
  }

  /** Asking for `q` in upper or lower case gives the same response. */
  lemma KeywordCaseInsensitive(a: Query, b: Query, fetch: string -> FetchResult)
    requires a.url == b.url && a.format == b.format
    requires Truthy(a.q) && Truthy(b.q) && Text.Lower(a.q.s) == Text.Lower(b.q.s)
    ensures Handle(a, fetch) == Handle(b, fetch)
  {
    assert Keyword(a) == Keyword(b);
    assert FeedUrl(a) == FeedUrl(b);
  }

  /**
   * `/rss?format=json&q=economia` against a feed with "Crise na Economia Brasileira" and
   * "Esporte" keeps the first item only and reports `filtro: "economia"`.
   */
  lemma EconomiaExample(fetch: string -> FetchResult)
    requires fetch(DefaultUrl) == Parsed(Feed(Str("g1"), Str("noticias"), [
      RawItem(Str("Crise na Economia Brasileira"), Undefined, Undefined),
      RawItem(Str("Esporte"), Undefined, Undefined)]))
    ensures var query := Query(Undefined, Str("economia"), Str("json"));
      && Handle(query, fetch).JsonPage?
      && Handle(query, fetch).body.JObject?
      && Lookup(Handle(query, fetch).body.members, "filtro") == Some(JString("economia"))
      && Lookup(Handle(query, fetch).body.members, "itens").Some?
      && Lookup(Handle(query, fetch).body.members, "itens").value.JArray?
      && ItemsFromJson(Lookup(Handle(query, fetch).body.members, "itens").value.elems)
         == [Item(Str("Crise na Economia Brasileira"), Undefined, Null)]
  {
    var query := Query(Undefined, Str("economia"), Str("json"));
    var crise := Item(Str("Crise na Economia Brasileira"), Undefined, Null);
    var esporte := Item(Str("Esporte"), Undefined, Null);
    var feed := fetch(DefaultUrl).feed;
    assert NormalizeAll(feed.items) == [crise, esporte];
    assert Text.Lower("economia") == "economia";
    var title := "Crise na Economia Brasileira";
    var lowered := Text.Lower(title);
    assert title[9..17] == "Economia";
    assert Text.Lower("Economia") == "economia";
    assert lowered[9..17] == Text.Lower(title[9..17]);
    assert Text.OccursAt(lowered, "economia", 9);
    assert Callback(crise, "economia");
    assert |Text.Lower("Esporte")| == 7;
    assert !Callback(esporte, "economia");
    assert Filter([crise, esporte], "economia") == [crise] by {
      assert [crise, esporte][..1] == [crise];
      assert Filter([crise], "economia") == [crise] by {
        assert [crise][..0] == [];
      }
    }
    assert ResultItems(feed, query) == [crise];
    JsonResponse(query, fetch);
  }
}
