/**
 * The item list of the HTML page: `items.map(i => <li>...</li>).join("")`.
 * The template's whitespace between tags is not part of this model.
 */
module HtmlList {
  import opened JsValues
  import opened FeedItems

  /** What one `<li>` shows: the anchor's `href`, the anchor's text and the optional date line. */
  datatype Entry = Entry(href: string, text: string, date: Option<string>)

  /** The entry for an item: `${i.link}`, `${i.titulo}`, and a date line only when `publicado` is truthy. */
  function EntryOf(item: Item): (e: Entry)
    ensures e.date.Some? <==> Truthy(item.publicado)
    ensures item.link.Str? ==> e.href == item.link.s
    ensures item.titulo.Str? ==> e.text == item.titulo.s
  {
    Entry(ToStr(item.link), ToStr(item.titulo), if Truthy(item.publicado) then Some(item.publicado.s) else None)
  }

  /** The entries of a list of items, one per item in the same order. */
  function Entries(items: seq<Item>): (es: seq<Entry>)
    ensures |es| == |items|
    ensures forall k :: 0 <= k < |items| ==> es[k] == EntryOf(items[k])
  {
    if items == [] then [] else [EntryOf(items[0])] + Entries(items[1..])
  }

  const ItemOpen: string := "<li><a href=\""
  const AnchorMid: string := "\" target=\"_blank\">"
  const AnchorClose: string := "</a>"
  const DateOpen: string := "<br><small>"
  const DateClose: string := "</small>"
  const ItemClose: string := "</li>"

  function DateLine(date: Option<string>): string
  {
    match date
    case None => ""
    case Some(d) => DateOpen + (d + DateClose)
  }

  /** The markup of one entry. Its text is inserted as it is: nothing is escaped. */
  function RenderEntry(e: Entry): (markup: string)
    ensures |ItemOpen| + |ItemClose| <= |markup|
  {
    ItemOpen + (e.href + (AnchorMid + (e.text + (AnchorClose + (DateLine(e.date) + ItemClose)))))
  }

  /** The markup of the whole list, the entries' markup joined with nothing between them. */
  function RenderList(es: seq<Entry>): (markup: string)
    ensures markup == "" <==> es == []
  {
    if es == [] then "" else RenderEntry(es[0]) + RenderList(es[1..])
  }

  /** Every entry's markup opens with `<li><a href="` and closes with `</li>`. */
  lemma EntryFraming(e: Entry)
    ensures StartsWith(RenderEntry(e), ItemOpen)
    ensures RenderEntry(e)[|RenderEntry(e)| - |ItemClose|..] == ItemClose
  {
    var tail := e.href + (AnchorMid + (e.text + (AnchorClose + (DateLine(e.date) + ItemClose))));
    assert RenderEntry(e) == ItemOpen + tail;
    assert (ItemOpen + tail)[..|ItemOpen|] == ItemOpen;
  }

  predicate StartsWith(s: string, p: string)
  {
    |p| <= |s| && s[..|p|] == p
  }

  /** The position of the first `c` in `s`, or `|s|` when there is none. */
  function Until(s: string, c: char): (n: nat)
    ensures n <= |s|
    ensures c !in s[..n]
    ensures n < |s| ==> s[n] == c
  {
    if s == [] || s[0] == c then 0
    else
      assert s[..1 + Until(s[1..], c)] == [s[0]] + s[1..][..Until(s[1..], c)];
      1 + Until(s[1..], c)
  }

  /** Reads the optional date line, returning it and what follows it. */
  function ParseDateLine(s: string): (r: Option<(Option<string>, string)>)
    ensures r.Some? ==> |r.value.1| <= |s|
  {
    if !StartsWith(s, DateOpen) then Some((None, s))
    else
      var s1 := s[|DateOpen|..];
      var d := Until(s1, '<');
      if !StartsWith(s1[d..], DateClose) then None
      else Some((Some(s1[..d]), s1[d..][|DateClose|..]))
  }

  /** Reads one entry from the front of `s`, returning it and what follows it. */
  function ParseEntry(s: string): (r: Option<(Entry, string)>)
    ensures r.Some? ==> |r.value.1| < |s|
  {
    if !StartsWith(s, ItemOpen) then None
    else
      var s1 := s[|ItemOpen|..];
      var h := Until(s1, '"');
      var s2 := s1[h..];
      if !StartsWith(s2, AnchorMid) then None
      else
        var s3 := s2[|AnchorMid|..];
        var t := Until(s3, '<');
        var s4 := s3[t..];
        if !StartsWith(s4, AnchorClose) then None
        else
          match ParseDateLine(s4[|AnchorClose|..])
          case None => None
          case Some((date, s5)) =>
            if !StartsWith(s5, ItemClose) then None
            else Some((Entry(s1[..h], s3[..t], date), s5[|ItemClose|..]))
  }

  /** Reads a whole list back into its entries. */
  function ParseList(s: string): Option<seq<Entry>>
    decreases |s|
  {
    if s == "" then Some([])
    else
      match ParseEntry(s)
      case None => None
      case Some((e, rest)) =>
        match ParseList(rest)
        case None => None
        case Some(es) => Some([e] + es)
  }

  /** Feed text that cannot be mistaken for the surrounding markup. */
  predicate MarkupFree(e: Entry)
  {
    && '"' !in e.href
    && '<' !in e.text
    && (e.date.Some? ==> '<' !in e.date.value)
  }

  /** Scanning `a + b` for `c` stops where `b` begins, when `a` has no `c` and `b` starts with one. */
  lemma UntilStopsAfter(a: string, b: string, c: char)
    requires c !in a && |b| > 0 && b[0] == c
    ensures Until(a + b, c) == |a|
    ensures (a + b)[..|a|] == a && (a + b)[|a|..] == b
  {
    var s := a + b;
    forall i | 0 <= i < |a| ensures s[i] != c {
      assert s[i] == a[i];
      assert a[i] in a;
    }
    forall m | |a| < m <= |s| ensures c in s[..m] {
      assert s[..m][|a|] == c;
    }
  }

  /** Reading a literal back off the front of `lit + rest` leaves `rest`. */
  lemma StripLiteral(lit: string, rest: string)
    ensures StartsWith(lit + rest, lit)
    ensures (lit + rest)[|lit|..] == rest
  {
    assert (lit + rest)[..|lit|] == lit;
  }

  /** The date line reads back as the date. */
  lemma DateLineRoundTrip(date: Option<string>, tail: string)
    requires date.Some? ==> '<' !in date.value
    requires StartsWith(tail, ItemClose)
    ensures ParseDateLine(DateLine(date) + tail) == Some((date, tail))
  {
    match date
    case None =>
      assert DateLine(date) + tail == tail;
      assert tail[1] == '/';
    case Some(d) =>
      var after := DateClose + tail;
      var s1 := d + after;
      var s := DateLine(date) + tail;
      assert s == DateOpen + s1;
      StripLiteral(DateOpen, s1);
      assert s[|DateOpen|..] == s1;
      UntilStopsAfter(d, after, '<');
      StripLiteral(DateClose, tail);
  }

  /** One entry whose text has no markup characters reads back as itself, leaving what followed it. */
  lemma EntryRoundTrip(e: Entry, rest: string)
    requires MarkupFree(e)
    ensures ParseEntry(RenderEntry(e) + rest) == Some((e, rest))
  {
    var tail5 := ItemClose + rest;
    var tail4 := DateLine(e.date) + tail5;
    var tail3 := AnchorClose + tail4;
    var tail2 := e.text + tail3;
    var tail1 := AnchorMid + tail2;
    var tail0 := e.href + tail1;
    var s := RenderEntry(e) + rest;
    assert s == ItemOpen + tail0;
    StripLiteral(ItemOpen, tail0);
    UntilStopsAfter(e.href, tail1, '"');
    StripLiteral(AnchorMid, tail2);
    UntilStopsAfter(e.text, tail3, '<');
    StripLiteral(AnchorClose, tail4);
    StripLiteral(ItemClose, rest);
    DateLineRoundTrip(e.date, tail5);
  }

  /** A list whose entries have no markup characters in their text reads back as exactly its entries, in order. */
  lemma {:induction false} ListRoundTrip(es: seq<Entry>)
    requires forall k :: 0 <= k < |es| ==> MarkupFree(es[k])
    ensures ParseList(RenderList(es)) == Some(es)
  {
    if es != [] {
      EntryRoundTrip(es[0], RenderList(es[1..]));
      ListRoundTrip(es[1..]);
      assert [es[0]] + es[1..] == es;
    }
  }

  /** An entry carries a date line exactly when its item's `publicado` is truthy, and then it shows that date. */
  lemma DateLineIffPublished(item: Item)
    ensures EntryOf(item).date.Some? <==> Truthy(item.publicado)
    ensures EntryOf(item).date.Some? ==> EntryOf(item).date.value == item.publicado.s
    ensures EntryOf(item).date.None? ==> DateLine(EntryOf(item).date) == ""
  {
  }
}
