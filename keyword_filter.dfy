/** The keyword filter (`items.filter(...)`) applied when a keyword is present. */
module KeywordFilter {
  import opened JsValues
  import opened Text
  import opened FeedItems

  /** `v && v.toLowerCase().includes(keyword)`, read as a condition. */
  predicate FieldMatches(v: Value, keyword: string)
  {
    Truthy(v) && Includes(Lower(v.s), keyword)
  }

  /** The callback given to `filter`, with its three disjuncts: title, link and summary. */
  predicate Callback(item: Item, keyword: string)
    ensures Callback(item, keyword) ==> Truthy(item.titulo) || Truthy(item.link)
  {
    || FieldMatches(item.Get("titulo"), keyword)
    || FieldMatches(item.Get("link"), keyword)
    || FieldMatches(item.Get("resumo"), keyword)
  }

  /** What a kept item satisfies: a present, non-empty title or link that contains the keyword once lowered. */
  ghost predicate Matches(item: Item, keyword: string)
  {
    || (Truthy(item.titulo) && exists p :: OccursAt(Lower(item.titulo.s), keyword, p))
    || (Truthy(item.link) && exists p :: OccursAt(Lower(item.link.s), keyword, p))
  }

  /** The summary disjunct never holds, so the callback is exactly the title-or-link test. */
  lemma CallbackIsTitleOrLink(item: Item, keyword: string)
    ensures !FieldMatches(item.Get("resumo"), keyword)
    ensures Callback(item, keyword) <==> Matches(item, keyword)
  {
  }

  /** `items.filter(Callback)`; written from the back, which keeps the same elements in the same order. */
  function Filter(items: seq<Item>, keyword: string): (kept: seq<Item>)
    ensures |kept| <= |items|
    ensures forall j :: 0 <= j < |kept| ==> Callback(kept[j], keyword)
    decreases |items|
  {
    if items == [] then []
    else
      var last := items[|items| - 1];
      Filter(items[..|items| - 1], keyword) + (if Callback(last, keyword) then [last] else [])
  }

  /** The positions, in increasing order, of the items the callback accepts. */
  ghost function KeptIndices(items: seq<Item>, keyword: string): seq<int>
    decreases |items|
  {
    if items == [] then []
    else
      KeptIndices(items[..|items| - 1], keyword)
      + (if Callback(items[|items| - 1], keyword) then [|items| - 1] else [])
  }

  /** The positions kept by the filter, as a stable selection of positions whose items the callback accepts. */
  lemma {:induction false} FilterSelectsKeptIndices(items: seq<Item>, keyword: string)
    ensures |Filter(items, keyword)| == |KeptIndices(items, keyword)|
    ensures forall j :: 0 <= j < |KeptIndices(items, keyword)| ==>
      0 <= KeptIndices(items, keyword)[j] < |items| &&
      Filter(items, keyword)[j] == items[KeptIndices(items, keyword)[j]]
    ensures forall j1, j2 :: 0 <= j1 < j2 < |KeptIndices(items, keyword)| ==>
      KeptIndices(items, keyword)[j1] < KeptIndices(items, keyword)[j2]
    ensures forall k :: 0 <= k < |items| ==>
      (k in KeptIndices(items, keyword) <==> Callback(items[k], keyword))
    decreases |items|
  {
    if items != [] {
      var n := |items| - 1;
      var init := items[..n];
      FilterSelectsKeptIndices(init, keyword);
      var kept, r := KeptIndices(init, keyword), Filter(init, keyword);
      assert Filter(items, keyword) == r + (if Callback(items[n], keyword) then [items[n]] else []);
      assert KeptIndices(items, keyword) == kept + (if Callback(items[n], keyword) then [n] else []);
      assert forall k :: 0 <= k < n ==> items[k] == init[k];
      assert forall j :: 0 <= j < |kept| ==> kept[j] < n;
    }
  }

  /**
   * The filter is a stable selection: its j-th result is the item at the j-th kept
   * position, the kept positions increase, and a position is kept exactly when its item
   * has the keyword in its title or link.
   */
  lemma FilterIsStableSelection(items: seq<Item>, keyword: string)
    ensures |Filter(items, keyword)| == |KeptIndices(items, keyword)|
    ensures forall j :: 0 <= j < |KeptIndices(items, keyword)| ==>
      0 <= KeptIndices(items, keyword)[j] < |items| &&
      Filter(items, keyword)[j] == items[KeptIndices(items, keyword)[j]]
    ensures forall j1, j2 :: 0 <= j1 < j2 < |KeptIndices(items, keyword)| ==>
      KeptIndices(items, keyword)[j1] < KeptIndices(items, keyword)[j2]
    ensures forall k :: 0 <= k < |items| ==>
      (k in KeptIndices(items, keyword) <==> Matches(items[k], keyword))
  {
    FilterSelectsKeptIndices(items, keyword);
    forall k | 0 <= k < |items|
      ensures Callback(items[k], keyword) <==> Matches(items[k], keyword)
    {
      CallbackIsTitleOrLink(items[k], keyword);
    }
  }

  /** Every kept item matches, and every matching item is kept. */
  lemma FilterSoundAndComplete(items: seq<Item>, keyword: string)
    ensures forall x :: x in Filter(items, keyword) ==> Matches(x, keyword)
    ensures forall k :: 0 <= k < |items| && Matches(items[k], keyword) ==> items[k] in Filter(items, keyword)
  {
    FilterIsStableSelection(items, keyword);
    var kept := KeptIndices(items, keyword);
    var r := Filter(items, keyword);
    forall x | x in r ensures Matches(x, keyword) {
      var j :| 0 <= j < |r| && r[j] == x;
      assert kept[j] in kept;
    }
    forall k | 0 <= k < |items| && Matches(items[k], keyword) ensures items[k] in r {
      var j :| 0 <= j < |kept| && kept[j] == k;
      assert r[j] == items[k];
    }
  }

  /** An item whose title and link are both absent or empty never passes the filter. */
  lemma BlankItemNeverMatches(item: Item, keyword: string)
    requires !Truthy(item.titulo) && !Truthy(item.link)
    ensures !Callback(item, keyword)
  {
  }
}
