/** The parsed feed and the normalisation of its items (`feed.items.map(...)`). */
module FeedItems {
  import opened JsValues

  /** A feed item as the parser yields it: the three properties the handler reads. */
  datatype RawItem = RawItem(title: Value, link: Value, pubDate: Value)

  /** A parsed feed: its title, its description and its items in document order. */
  datatype Feed = Feed(title: Value, description: Value, items: seq<RawItem>)

  /** The object literal `{ titulo, link, publicado }` built for each raw item. */
  datatype Item = Item(titulo: Value, link: Value, publicado: Value)
  {
    /** The property read `item[name]`: the literal has these three properties and no other. */
    function Get(name: string): Value
    {
      if name == "titulo" then titulo
      else if name == "link" then link
      else if name == "publicado" then publicado
      else Undefined
    }
  }

  /** One item: title and link copied as they are, `pubDate || null` as the date. */
  function Normalize(raw: RawItem): (item: Item)
    ensures item.titulo == raw.title && item.link == raw.link
    ensures Truthy(raw.pubDate) ==> item.publicado == raw.pubDate
    ensures !Truthy(raw.pubDate) ==> item.publicado == Null
  {
    Item(raw.title, raw.link, Or(raw.pubDate, Null))
  }

  /** `feed.items.map(Normalize)`: one item out per item in, in the same order. */
  function NormalizeAll(raws: seq<RawItem>): (items: seq<Item>)
    ensures |items| == |raws|
    ensures forall k :: 0 <= k < |raws| ==> items[k] == Normalize(raws[k])
  {
    if raws == [] then [] else [Normalize(raws[0])] + NormalizeAll(raws[1..])
  }

  /** A normalised item never has a summary, and its date is a non-empty string or `null`. */
  lemma NormalizedShape(raw: RawItem)
    ensures Normalize(raw).Get("resumo") == Undefined
    ensures Truthy(Normalize(raw).publicado) || Normalize(raw).publicado == Null
  {
  }
}
