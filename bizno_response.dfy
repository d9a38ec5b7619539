/** The business-registry lookup response: an optional list of items, any
    of which may be null, and the tests the verification applies to it. */
module BiznoResponse {
  import opened Common
  import opened JavaText

  /** The two item fields the tests read: the status code and its name. */
  datatype Item = Item(statusCode: Option<string>, status: Option<string>)

  /** The response body; `itemList` is absent when the body had no items. */
  datatype Response = Response(itemList: Option<seq<Option<Item>>>)

  /** `Item.isActive`: no status code, a blank one, or "01". */
  predicate IsActive(item: Item) {
    match item.statusCode
    case None => true
    case Some(code) => IsBlank(code) || code == "01"
  }

  /** Some non-null item of the list is active. */
  predicate AnyActive(items: seq<Option<Item>>) {
    exists i | 0 <= i < |items| :: items[i].Some? && IsActive(items[i].value)
  }

  /** `hasValidBusiness`: a list is present and one of its non-null items
      is active. */
  predicate HasValidBusiness(r: Response) {
    r.itemList.Some? && AnyActive(r.itemList.value)
  }

  /** The non-null items, in their original order. */
  function NonNull(items: seq<Option<Item>>): (r: seq<Item>)
    ensures |r| <= |items|
    ensures forall x :: x in r <==> Some(x) in items
  {
    if items == [] then []
    else
      assert items == [items[0]] + items[1..];
      (if items[0].Some? then [items[0].value] else []) + NonNull(items[1..])
  }

  /** `getValidItemList`: empty for an absent list, else the non-null items. */
  function GetValidItemList(r: Response): (items: seq<Item>)
    ensures r.itemList.None? ==> items == []
    ensures r.itemList.Some? ==> items == NonNull(r.itemList.value)
  {
    if r.itemList.None? then [] else NonNull(r.itemList.value)
  }

  /** Filtering works piece by piece, so it keeps the input's order. */
  lemma {:induction false} NonNullConcat(a: seq<Option<Item>>, b: seq<Option<Item>>)
    ensures NonNull(a + b) == NonNull(a) + NonNull(b)
  {
    if a == [] {
      assert a + b == b;
    } else {
      assert (a + b)[0] == a[0];
      assert (a + b)[1..] == a[1..] + b;
      NonNullConcat(a[1..], b);
    }
  }

  /** A list of nulls filters to nothing. */
  lemma {:induction false} NonNullOfNulls(items: seq<Option<Item>>)
    requires forall j | 0 <= j < |items| :: items[j].None?
    ensures NonNull(items) == []
  {
    if items != [] {
      NonNullOfNulls(items[1..]);
    }
  }

  /** The first valid item is the first non-null item of the list. */
  lemma {:induction false} FirstValidItem(items: seq<Option<Item>>, k: nat)
    requires k < |items| && items[k].Some?
    requires forall j | 0 <= j < k :: items[j].None?
    ensures NonNull(items) != [] && NonNull(items)[0] == items[k].value
  {
    if k > 0 {
      FirstValidItem(items[1..], k - 1);
    }
  }

  /** Without nulls the filter changes nothing. */
  lemma {:induction false} NonNullOfPresent(items: seq<Item>)
    ensures NonNull(seq(|items|, i requires 0 <= i < |items| => Some(items[i]))) == items
  {
    var wrapped := seq(|items|, i requires 0 <= i < |items| => Some(items[i]));
    if items != [] {
      assert wrapped[1..] == seq(|items[1..]|, i requires 0 <= i < |items[1..]| => Some(items[1..][i]));
      NonNullOfPresent(items[1..]);
      assert items == [items[0]] + items[1..];
    }
  }

  /** `hasValidBusiness` holds exactly when some valid item is active. */
  lemma HasValidBusinessViaValidItems(r: Response)
    ensures HasValidBusiness(r) <==> exists i | 0 <= i < |GetValidItemList(r)| :: IsActive(GetValidItemList(r)[i])
  {
    var v := GetValidItemList(r);
    if HasValidBusiness(r) {
      var i :| 0 <= i < |r.itemList.value| && r.itemList.value[i].Some? && IsActive(r.itemList.value[i].value);
      assert r.itemList.value[i] in r.itemList.value;
      assert r.itemList.value[i].value in v;
    }
    if exists i | 0 <= i < |v| :: IsActive(v[i]) {
      var i :| 0 <= i < |v| && IsActive(v[i]);
      assert v[i] in v;
      assert Some(v[i]) in r.itemList.value;
    }
  }
}
