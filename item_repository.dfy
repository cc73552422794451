/**
 * The finders of `repository/ItemRepository.java`, as filters and sorts
 * over the item table. The table is scanned in primary-key order; the
 * queries without an `order by` promise no order, so only their contents
 * are stated.
 */
module ItemRepository {
  import opened Common
  import opened Seqs
  import opened Items

  /** The sort key of `order by i.price desc`. */
  function Price(x: ItemData): int {
    x.price
  }

  /** `pat` occurs in `text` at position `i`. */
  ghost predicate OccursAt(text: string, pat: string, i: int) {
    0 <= i && i + |pat| <= |text| && text[i..i + |pat|] == pat
  }

  /** `text like %pat%`: `pat` occurs somewhere in `text`. */
  function Contains(text: string, pat: string): (b: bool)
    ensures b <==> exists i :: OccursAt(text, pat, i)
    decreases |text|
  {
    if |pat| > |text| then
      assert forall i :: !OccursAt(text, pat, i);
      false
    else if text[..|pat|] == pat then
      assert OccursAt(text, pat, 0);
      true
    else
      var rest := Contains(text[1..], pat);
      assert forall i :: OccursAt(text, pat, i) <==> OccursAt(text[1..], pat, i - 1) by {
        forall i ensures OccursAt(text, pat, i) <==> OccursAt(text[1..], pat, i - 1) {
          if 1 <= i && i + |pat| <= |text| {
            assert text[1..][i - 1..i - 1 + |pat|] == text[i..i + |pat|];
          }
        }
      }
      assert rest ==> exists i :: OccursAt(text, pat, i) by {
        if rest {
          var j :| OccursAt(text[1..], pat, j);
          assert OccursAt(text, pat, j + 1);
        }
      }
      rest
  }

  /** `findByItemNm(itemNm)`: the items named exactly `itemNm`. */
  function FindByItemNm(rows: map<int, ItemData>, bound: nat, itemNm: string): (r: seq<ItemData>)
    ensures forall x :: x in r <==> Stored(x, rows, bound) && x.itemNm == itemNm
  {
    Filter(ScanTable(rows, bound), (x: ItemData) => x.itemNm == itemNm)
  }

  /** `findByItemNmOrItemDetail(itemNm, itemDetail)`: the items with that name or that detail. */
  function FindByItemNmOrItemDetail(rows: map<int, ItemData>, bound: nat, itemNm: string, itemDetail: string)
    : (r: seq<ItemData>)
    ensures forall x :: x in r <==> Stored(x, rows, bound) && (x.itemNm == itemNm || x.itemDetail == itemDetail)
  {
    Filter(ScanTable(rows, bound), (x: ItemData) => x.itemNm == itemNm || x.itemDetail == itemDetail)
  }

  /** `findByPriceLessThan(price)`: the items strictly cheaper than `price`. */
  function FindByPriceLessThan(rows: map<int, ItemData>, bound: nat, price: Int32): (r: seq<ItemData>)
    ensures forall x :: x in r <==> Stored(x, rows, bound) && x.price < price
  {
    Filter(ScanTable(rows, bound), (x: ItemData) => x.price < price)
  }

  /**
   * `findByPriceLessThanOrderByPriceDesc(price)`: the rows of
   * `findByPriceLessThan(price)`, each as often, most expensive first.
   */
  function FindByPriceLessThanOrderByPriceDesc(rows: map<int, ItemData>, bound: nat, price: Int32)
    : (r: seq<ItemData>)
    ensures SortedDesc(r, Price)
    ensures multiset(r) == multiset(FindByPriceLessThan(rows, bound, price))
  {
    SortDesc(FindByPriceLessThan(rows, bound, price), Price)
  }

  /** The rows of `findByItemDetail(itemDetail)` before sorting: the items whose detail contains `itemDetail`. */
  function DetailMatches(rows: map<int, ItemData>, bound: nat, itemDetail: string): (r: seq<ItemData>)
    ensures forall x :: x in r <==> Stored(x, rows, bound) && exists i :: OccursAt(x.itemDetail, itemDetail, i)
  {
    Filter(ScanTable(rows, bound), (x: ItemData) => Contains(x.itemDetail, itemDetail))
  }

  /**
   * `findByItemDetail(itemDetail)`: the items whose detail contains
   * `itemDetail`, most expensive first.
   */
  function FindByItemDetail(rows: map<int, ItemData>, bound: nat, itemDetail: string): (r: seq<ItemData>)
    ensures SortedDesc(r, Price)
    ensures multiset(r) == multiset(DetailMatches(rows, bound, itemDetail))
    ensures forall x :: x in r <==> Stored(x, rows, bound) && exists i :: OccursAt(x.itemDetail, itemDetail, i)
  {
    var found := DetailMatches(rows, bound, itemDetail);
    var r := SortDesc(found, Price);
    assert forall x :: x in r <==> x in found by {
      forall x: ItemData ensures x in r <==> x in found {
        assert x in r <==> x in multiset(r);
        assert x in found <==> x in multiset(found);
      }
    }
    r
  }

  /** Sorting keeps exactly the rows of the unsorted finder. */
  lemma PriceOrderSameRows(rows: map<int, ItemData>, bound: nat, price: Int32)
    ensures forall x ::
      x in FindByPriceLessThanOrderByPriceDesc(rows, bound, price) <==> Stored(x, rows, bound) && x.price < price
  {
    var sorted := FindByPriceLessThanOrderByPriceDesc(rows, bound, price);
    var plain := FindByPriceLessThan(rows, bound, price);
    forall x ensures x in sorted <==> x in plain {
      assert x in sorted <==> x in multiset(sorted);
      assert x in plain <==> x in multiset(plain);
    }
  }

  /** `like %%` matches every detail: the empty search returns every item. */
  lemma EmptySearchFindsAll(rows: map<int, ItemData>, bound: nat)
    ensures forall x :: x in FindByItemDetail(rows, bound, "") <==> Stored(x, rows, bound)
  {
    forall x: ItemData ensures OccursAt(x.itemDetail, "", 0) {
      assert x.itemDetail[0..0] == "";
    }
  }
}
