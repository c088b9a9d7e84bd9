/** The JSON documents `res.json` sends: the success summary and the error object. */
module JsonBody {
  import opened JsValues
  import opened FeedItems

  /** A JSON value; an object keeps its members in insertion order. */
  datatype Json =
    | JNull
    | JString(s: string)
    | JNumber(n: int)
    | JArray(elems: seq<Json>)
    | JObject(members: seq<(string, Json)>)

  /** The members a property contributes: `JSON.stringify` drops a property whose value is `undefined`. */
  function Property(name: string, v: Value): (ms: seq<(string, Json)>)
    ensures ms == [] <==> v == Undefined
    ensures |ms| <= 1
    ensures forall m :: m in ms ==> m.0 == name
  {
    match v
    case Undefined => []
    case Null => [(name, JNull)]
    case Str(s) => [(name, JString(s))]
  }

  /** The value of the first member called `name`, if there is one. */
  function Lookup(members: seq<(string, Json)>, name: string): Option<Json>
  {
    if members == [] then None
    else if members[0].0 == name then Some(members[0].1)
    else Lookup(members[1..], name)
  }

  /** Reads a property back: missing is `undefined`, `null` is `null`, a string is itself. */
  function ValueOf(j: Option<Json>): Value
  {
    match j
    case Some(JNull) => Null
    case Some(JString(s)) => Str(s)
    case _ => Undefined
  }

  /** One normalised item as an object with members `titulo`, `link`, `publicado`. */
  function ItemToJson(item: Item): (j: Json)
    ensures j.JObject?
    ensures forall m :: m in j.members ==> m.0 in {"titulo", "link", "publicado"}
  {
    JObject(Property("titulo", item.titulo) + Property("link", item.link) + Property("publicado", item.publicado))
  }

  /** Reads an item back from its JSON object. */
  function ItemFromJson(j: Json): Item
  {
    match j
    case JObject(ms) => Item(ValueOf(Lookup(ms, "titulo")), ValueOf(Lookup(ms, "link")), ValueOf(Lookup(ms, "publicado")))
    case _ => Item(Undefined, Undefined, Undefined)
  }

  /** The `itens` array: one object per item, in the same order. */
  function ItemsToJson(items: seq<Item>): (js: seq<Json>)
    ensures |js| == |items|
    ensures forall k :: 0 <= k < |items| ==> js[k].JObject? && js[k] == ItemToJson(items[k])
  {
    if items == [] then [] else [ItemToJson(items[0])] + ItemsToJson(items[1..])
  }

  function ItemsFromJson(js: seq<Json>): (items: seq<Item>)
    ensures |items| == |js|
  {
    if js == [] then [] else [ItemFromJson(js[0])] + ItemsFromJson(js[1..])
  }

  /** A lookup skips a leading block of members that has no member of that name. */
  lemma {:induction false} LookupSkips(front: seq<(string, Json)>, back: seq<(string, Json)>, name: string)
    requires forall m :: m in front ==> m.0 != name
    ensures Lookup(front + back, name) == Lookup(back, name)
    decreases |front|
  {
    if front == [] {
      assert front + back == back;
    } else {
      assert front[0] in front;
      assert (front + back)[1..] == front[1..] + back;
      LookupSkips(front[1..], back, name);
    }
  }

  /** Reading back a property's members gives the property's value. */
  lemma PropertyReadsBack(name: string, v: Value, back: seq<(string, Json)>)
    requires forall m :: m in back ==> m.0 != name
    ensures ValueOf(Lookup(Property(name, v) + back, name)) == v
    ensures v == Undefined <==> Lookup(Property(name, v) + back, name) == None
  {
    if v == Undefined {
      assert Property(name, v) + back == back;
      LookupSkips([], back, name);
      assert Lookup(back, name) == None by {
        LookupSkips(back, [], name);
        assert back + [] == back;
      }
    }
  }

  /**
   * The JSON form of an item loses nothing: every item reads back as itself, and a field
   * that is `undefined` has no member at all, while every other field has one.
   */
  lemma ItemRoundTrip(item: Item)
    ensures ItemFromJson(ItemToJson(item)) == item
    ensures item.titulo == Undefined <==> Lookup(ItemToJson(item).members, "titulo") == None
    ensures item.link == Undefined <==> Lookup(ItemToJson(item).members, "link") == None
    ensures item.publicado == Undefined <==> Lookup(ItemToJson(item).members, "publicado") == None
    ensures forall m :: m in ItemToJson(item).members ==> m.0 in {"titulo", "link", "publicado"}
  {
    var t, l, p := Property("titulo", item.titulo), Property("link", item.link), Property("publicado", item.publicado);
    assert t + l + p == t + (l + p);
    PropertyReadsBack("titulo", item.titulo, l + p);
    LookupSkips(t, l + p, "link");
    PropertyReadsBack("link", item.link, p);
    assert t + l + p == (t + l) + p;
    LookupSkips(t + l, p, "publicado");
    PropertyReadsBack("publicado", item.publicado, []);
    assert p + [] == p;
  }

  /** The `itens` array reads back as exactly the items, in order. */
  lemma {:induction false} ItemsRoundTrip(items: seq<Item>)
    ensures ItemsFromJson(ItemsToJson(items)) == items
  {
    if items != [] {
      ItemRoundTrip(items[0]);
      ItemsRoundTrip(items[1..]);
    }
  }

  /** `{ feed, url, filtro: keyword || "nenhum", total: items.length, itens: items }`. */
  function SuccessBody(feedTitle: Value, url: string, keyword: Value, items: seq<Item>): (body: Json)
    ensures body.JObject?
    ensures forall m :: m in body.members ==> m.0 in {"feed", "url", "filtro", "total", "itens"}
  {
    JObject(Property("feed", feedTitle) + [
      ("url", JString(url)),
      ("filtro", JString(ToStr(Or(keyword, Str("nenhum"))))),
      ("total", JNumber(|items|)),
      ("itens", JArray(ItemsToJson(items)))
    ])
  }

  /** The text of the `error` member of every failure response. */
  const ErrorText: string := "Erro ao processar o feed RSS"

  /** `{ error: ErrorText, detalhe: error.message }`. */
  function ErrorBody(message: string): (body: Json)
    ensures body.JObject?
    ensures forall m :: m in body.members ==> m.0 in {"error", "detalhe"}
    ensures Lookup(body.members, "error") == Some(JString(ErrorText))
    ensures Lookup(body.members, "detalhe") == Some(JString(message))
  {
    JObject([("error", JString(ErrorText)), ("detalhe", JString(message))])
  }

  /**
   * The success summary: `total` is the number of items in `itens`, `itens` reads back as
   * the items, `url` is the URL, and `filtro` is the keyword or "nenhum" when there is none.
   */
  lemma SuccessBodyFields(feedTitle: Value, url: string, keyword: Value, items: seq<Item>)
    ensures SuccessBody(feedTitle, url, keyword, items).JObject?
    ensures var ms := SuccessBody(feedTitle, url, keyword, items).members;
      && (forall m :: m in ms ==> m.0 in {"feed", "url", "filtro", "total", "itens"})
      && ValueOf(Lookup(ms, "feed")) == feedTitle
      && (feedTitle == Undefined <==> Lookup(ms, "feed") == None)
      && Lookup(ms, "url") == Some(JString(url))
      && Lookup(ms, "filtro") == Some(JString(if Truthy(keyword) then keyword.s else "nenhum"))
      && Lookup(ms, "total") == Some(JNumber(|items|))
      && Lookup(ms, "itens") == Some(JArray(ItemsToJson(items)))
      && |ItemsToJson(items)| == |items|
      && ItemsFromJson(ItemsToJson(items)) == items
  {
    var front := Property("feed", feedTitle);
    var back := [
      ("url", JString(url)),
      ("filtro", JString(ToStr(Or(keyword, Str("nenhum"))))),
      ("total", JNumber(|items|)),
      ("itens", JArray(ItemsToJson(items)))
    ];
    LookupSkips(front, back, "url");
    LookupSkips(front, back, "filtro");
    LookupSkips(front, back, "total");
    LookupSkips(front, back, "itens");
    assert forall m :: m in back ==> m.0 != "feed";
    PropertyReadsBack("feed", feedTitle, back);
    assert Lookup(back, "total") == Lookup(back[2..], "total");
    assert Lookup(back, "itens") == Lookup(back[2..], "itens") == Lookup(back[3..], "itens");
    ItemsRoundTrip(items);
  }
}
