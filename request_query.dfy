/** How the handler reads its query parameters (`url`, `q`, `format`) and its fixed cap. */
module RequestQuery {
  import opened JsValues
  import Text

  /** The query values `req.query.url`, `req.query.q` and `req.query.format`. */
  datatype Query = Query(url: Value, q: Value, format: Value)

  /** The feed fetched when no `url` is given. */
  const DefaultUrl: string := "https://g1.globo.com/rss/g1/"

  /** The most items a response carries. */
  const Limit: nat := 100

  /** `req.query.url || DefaultUrl`. */
  function FeedUrl(query: Query): (url: string)
    ensures Truthy(query.url) ==> url == query.url.s
    ensures !Truthy(query.url) ==> url == DefaultUrl
  {
    ToStr(Or(query.url, Str(DefaultUrl)))
  }

  /** `req.query.q ? req.query.q.toLowerCase() : null`. */
  function Keyword(query: Query): (keyword: Value)
    ensures Truthy(keyword) <==> Truthy(query.q)
    ensures Truthy(query.q) ==> keyword == Str(Text.Lower(query.q.s))
    ensures !Truthy(query.q) ==> keyword == Null
  {
    if Truthy(query.q) then Str(Text.Lower(query.q.s)) else Null
  }

  /** `(req.query.format || "html") === "html"`: HTML when the format is absent, empty or "html". */
  function WantsHtml(query: Query): (html: bool)
    ensures html <==> !Truthy(query.format) || query.format == Str("html")
  {
    Or(query.format, Str("html")) == Str("html")
  }

  /** `items.slice(0, n)`: the first `n` elements, or all of them when there are fewer. */
  function Take<T>(s: seq<T>, n: nat): (prefix: seq<T>)
    ensures |prefix| == if |s| <= n then |s| else n
    ensures prefix == s[..|prefix|]
  {
    if |s| <= n then s else s[..n]
  }
}
