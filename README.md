# RSS search handler: a Dafny model

This project models the item pipeline of the single `GET /rss` handler of a small web
server. The handler fetches an RSS/Atom feed and normalises each item to
`{ titulo, link, publicado }`. When a `q` keyword is given it keeps only the items whose
title or link contains that keyword, ignoring case. It keeps at most 100 items. It then
answers with an HTML page (a list of links) or with a JSON summary
`{ feed, url, filtro, total, itens }`. If fetching or parsing fails, it answers with status 500
and `{ error, detalhe }`.

The model is a set of pure functions over sequences, with lemmas about them, like the
handler itself: it only builds new arrays with `map`, `filter` and `slice`.

- `js_values.dfy` (`JsValues`): the JavaScript values the handler reads (`undefined`, `null`,
  strings), truthiness, `||` and string conversion in template literals.
- `text.dfy` (`Text`): `toLowerCase` (ASCII letters only) and `includes`, proved equal to
  "occurs at some position".
- `feed_items.dfy` (`FeedItems`): the parsed feed and item normalisation.
- `request_query.dfy` (`RequestQuery`): query defaults (`url`, `q`, `format`), the cap of 100
  and `slice(0, n)`.
- `keyword_filter.dfy` (`KeywordFilter`): the filter callback as written, including its
  `resumo` (summary) disjunct, and the proof that it is a stable, sound and complete selection.
- `json_body.dfy` (`JsonBody`): the JSON documents. A property whose value is `undefined` is
  omitted, as `JSON.stringify` does. Reading an item back from its JSON gives the same item.
- `html_list.dfy` (`HtmlList`): the `<li>` markup for each item and a reader for it. The reader
  proves that the list holds one entry per item, in order, with a date line exactly when the
  item has a date.
- `rss_handler.dfy` (`RssHandler`): the handler as one function `Handle(query, fetch)`, plus
  end-to-end lemmas.

The fetch (`parser.parseURL`) is a parameter, `fetch: string -> FetchResult`. It gives either the
parsed feed or a failure message. `Handle` calls it with the resolved URL.

On these points the model follows the code exactly:
- The JSON sentinel for "no keyword" is `"nenhum"` (server.js:171).
- The error text is `"Erro ao processar o feed RSS"` (server.js:178).
- In the HTML, a missing title or link is shown as the text `undefined`, because the template
  interpolates `${i.titulo}` and `${i.link}` directly. Only the date line is omitted when it is
  absent (server.js:142-143).
- Feed text is inserted without HTML escaping (server.js:41, server.js:129-130, server.js:142).
  No escaping property is stated.

## Model

| member | source | states |
|---|---|---|
| `FeedItems.Normalize` | server.js:19-23 | an item keeps its title and link unchanged; `publicado` is the `pubDate` when that is a non-empty string and `null` otherwise |
| `FeedItems.NormalizeAll` | server.js:19-23 | normalisation is one-to-one and keeps order: as many items out as in, the k-th being the normalisation of the k-th raw item |
| `FeedItems.NormalizedShape` | server.js:19-23 | a normalised item has no `resumo` property, and its date is a non-empty string or `null`, never `undefined` |
| `RequestQuery.FeedUrl` | server.js:9 | the fetched URL is the `url` query value when non-empty, else the default G1 feed URL |
| `RequestQuery.Keyword` | server.js:13 | there is a keyword exactly when `q` is a non-empty string, and it is `q` lowered; otherwise it is `null` |
| `RequestQuery.WantsHtml` | server.js:15 | HTML is chosen exactly when `format` is absent, empty or exactly "html" |
| `RequestQuery.Take` | server.js:34 | `slice(0, n)` gives a prefix of length min(length, n) |
| `Text.Lower` | server.js:13 | definition of `toLowerCase` on ASCII letters; keeps the length; its case folding is stated by `Text.LowerFoldsCase` |
| `Text.LowerFoldsCase` | server.js:28-29 | lowered text has no ASCII capital letter, and only ASCII capital letters are changed |
| `Text.Includes` | server.js:28-29 | `includes` is true exactly when the keyword occurs at some position of the lowered text |
| `Text.LowerKeepsLength` | server.js:13 | lowering keeps the length, so a non-empty `q` gives a non-empty keyword |
| `KeywordFilter.Callback` | server.js:26-31 | definition of the filter callback with its three disjuncts; an accepted item has a non-empty title or link; its meaning is stated by `KeywordFilter.CallbackIsTitleOrLink` |
| `KeywordFilter.Filter` | server.js:26-31 | definition of `filter`; never longer than its input, and every element is accepted by the callback; its full behaviour is stated by `KeywordFilter.FilterSelectsKeptIndices` and `KeywordFilter.FilterIsStableSelection` |
| `KeywordFilter.CallbackIsTitleOrLink` | server.js:26-31 | the `resumo` disjunct never holds, so the callback accepts an item exactly when its non-empty title or link contains the keyword |
| `KeywordFilter.BlankItemNeverMatches` | server.js:28-29 | an item whose title and link are both absent or empty is never kept |
| `KeywordFilter.FilterSelectsKeptIndices` | server.js:26-31 | the filter's j-th result is the item at the j-th accepted position; accepted positions increase; a position is accepted exactly when the callback holds |
| `KeywordFilter.FilterIsStableSelection` | server.js:26-31 | the filter is a stable subsequence; a position is kept if and only if its item has the keyword in its title or link |
| `KeywordFilter.FilterSoundAndComplete` | server.js:26-31 | every kept item matches, and every matching item is kept |
| `JsonBody.Property` | server.js:173 | definition of how `JSON.stringify` writes one property: no member exactly when the value is `undefined`, else one member with that name; read back by `JsonBody.PropertyReadsBack` |
| `JsonBody.PropertyReadsBack` | server.js:173 | a property's member reads back as its value, and is missing exactly when the value is `undefined` |
| `JsonBody.ItemToJson` | server.js:19-23 | definition of an item's JSON object; it is an object whose members are only `titulo`, `link` and `publicado`; its content is stated by `JsonBody.ItemRoundTrip` |
| `JsonBody.ItemsToJson` | server.js:173 | `itens` has one element per item, in order, the k-th being the JSON object of the k-th item |
| `JsonBody.ItemRoundTrip` | server.js:173 | an item's JSON object reads back as the same item; a field has no member exactly when it is `undefined`, and `null` and strings are kept; the object has no member other than `titulo`, `link` and `publicado` |
| `JsonBody.ItemsRoundTrip` | server.js:173 | the `itens` array reads back as exactly the items, in order |
| `JsonBody.SuccessBody` | server.js:168-174 | definition of the success object; it is an object whose members are only `feed`, `url`, `filtro`, `total` and `itens`; their values are stated by `JsonBody.SuccessBodyFields` |
| `JsonBody.ErrorBody` | server.js:177-180 | the error object has only the members `error`, set to the fixed text, and `detalhe`, set to the message |
| `JsonBody.SuccessBodyFields` | server.js:168-174 | the body has no member other than `feed`, `url`, `filtro`, `total` and `itens`; `feed` reads back as the feed title and is missing exactly when that is `undefined`; `total` is the number of items in `itens`; `itens` reads back as the items; `filtro` is the keyword or "nenhum"; `url` is the URL |
| `HtmlList.EntryOf` | server.js:140-145 | definition of one item's list entry; it has a date exactly when `publicado` is truthy, links a string `link` and shows a string `titulo` as they are |
| `HtmlList.RenderEntry` | server.js:140-145 | definition of one `<li>` of markup; its framing is stated by `HtmlList.EntryFraming` and its reading back by `HtmlList.EntryRoundTrip` |
| `HtmlList.EntryFraming` | server.js:141-144 | every entry's markup starts with `<li><a href="` and ends with `</li>` |
| `HtmlList.RenderList` | server.js:138-147 | definition of the joined list; it is empty exactly when there are no entries; its reading back is stated by `HtmlList.ListRoundTrip` |
| `HtmlList.Entries` | server.js:138-147 | one list entry per item, in order, each built from that item |
| `HtmlList.DateLineIffPublished` | server.js:143 | an entry has a `<br><small>` date line exactly when `publicado` is truthy, and that line shows the date |
| `HtmlList.DateLineRoundTrip` | server.js:143 | the optional date line reads back as the date, or as no date when it was omitted, for a date without `<` |
| `HtmlList.EntryRoundTrip` | server.js:140-145 | one `<li>` whose text has no markup characters reads back as its link, title and date |
| `HtmlList.ListRoundTrip` | server.js:138-147 | the joined list reads back as exactly its entries, in order: one `<li>` per item |
| `RssHandler.ResultItems` | server.js:19-34 | definition of the normalise, filter and slice pipeline; never more than 100 items; its content is stated by `RssHandler.NoKeywordTakesFirstItems` and `RssHandler.KeywordTakesFirstMatches` |
| `RssHandler.Handle` | server.js:7-182 | definition of the handler; status 500 exactly when the fetch fails; HTML exactly when the fetch succeeds and HTML is asked for; its answers are stated by `RssHandler.FailureIsUniform`, `RssHandler.JsonResponse` and `RssHandler.HtmlResponse` |
| `RssHandler.NoKeywordTakesFirstItems` | server.js:13-34 | without a keyword, the result is the first min(N, 100) feed items, normalised, in feed order |
| `RssHandler.KeywordTakesFirstMatches` | server.js:25-34 | with a keyword, the result is the first min(M, 100) of the M matching items, in feed order |
| `RssHandler.KeywordResultMatches` | server.js:25-34 | with a keyword, every returned item matches, and the result is a prefix of the filtered list |
| `RssHandler.AtMostLimit` | server.js:11-34 | a response carries at most 100 items, and never more than the feed has |
| `RssHandler.FailureIsUniform` | server.js:176-181 | a failed fetch, and only a failed fetch, gives status 500 with `error` set to the fixed text and `detalhe` set to the failure message, whatever the format |
| `RssHandler.FormatChoice` | server.js:36 | with a fetched feed, the answer is HTML exactly when `format` is absent, empty or "html", and JSON otherwise; the status is 200 |
| `RssHandler.JsonResponse` | server.js:168-174 | the JSON answer has no member other than `feed`, `url`, `filtro`, `total` and `itens`; its `feed` reads back as the feed title; its `total` equals the number of `itens`; `itens` reads back as the result items; `filtro` is the lowered `q` or "nenhum"; `url` is the `url` value or the default |
| `RssHandler.HtmlResponse` | server.js:138-147 | the HTML list reads back as one entry per result item, in order, linking `link` with text `titulo`, with a date line exactly when `publicado` is truthy |
| `RssHandler.SameItemsEitherFormat` | server.js:36-175 | HTML and JSON answers for the same `url` and `q` show the same items in the same order |
| `RssHandler.EmptyFeed` | server.js:19-175 | an empty feed gives no items: the HTML answer's list is empty, and the JSON answer has `total: 0` and an empty `itens` |
| `RssHandler.LargeFeedCapped` | server.js:11-34 | a feed of more than 100 items, without a keyword, gives exactly its first 100 items |
| `RssHandler.KeywordCaseInsensitive` | server.js:13 | two `q` values that lower to the same text give the same response |
| `RssHandler.EconomiaExample` | server.js:25-31 | `format=json&q=economia` keeps "Crise na Economia Brasileira", drops "Esporte" and reports `filtro: "economia"` |

## Left out

- The Express app, routing, `res.send`/`res.json`/`res.status` and `app.listen` with its
  startup banner (server.js:1-7, server.js:184-193): I/O plumbing. A response is a value, and
  its status is given by `Status`.
- `parser.parseURL` (server.js:17), a network fetch plus XML parsing in a library: it is the
  `fetch` parameter.
- The `async`/`await` suspension: it does not affect the item logic.
- Failures other than a failed fetch, such as `toLowerCase` on an array-valued `q`: query
  values are modelled as absent or a string only. Non-string feed fields, such as a number
  title, are also not modelled.
- The page template (head, CSS, headings, search box, client-side script, server.js:37-137,
  server.js:148-164) and the whitespace the template puts between tags. `HtmlPage` keeps the
  feed title, the feed description and the list markup.
- `Text.Lower` lowers ASCII letters only. Unicode case mapping is not modelled.
- HTML escaping: the code does none, so no property of it is stated.
- `HtmlList.DateLineRoundTrip`: stated only for dates without `<`. Other text is inserted
  unescaped and can be read as the end of the date line.
- `HtmlList.EntryRoundTrip` and `HtmlList.ListRoundTrip`: stated only for entries whose link
  has no `"` and whose title and date have no `<`. Other text is inserted unescaped and can
  change the list's structure.
- `RssHandler.HtmlResponse`: stated only for result items whose link, title and date have no
  markup characters, for the same reason.
- `RssHandler.SameItemsEitherFormat`: stated only for result items whose link, title and date
  have no markup characters, for the same reason.
