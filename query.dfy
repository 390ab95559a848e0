/**
 * The variables the component passes to its three remote operations, and
 * the guards of the Prev/Next pagination buttons.
 */
module Query {
  import opened Common
  import opened Selection

  /** Variables of the listing query: `{first, offset}`. */
  datatype ListingVars = ListingVars(first: int, offset: int)

  function ListingVariables(count: int, page: int): ListingVars {
    ListingVars(count, count * (page - 1))
  }

  /**
   * With a positive page size the listing windows tile the rows: every row
   * index lies in the window of exactly one page.
   */
  lemma RowOnExactlyOnePage(count: int, row: nat, page: int)
    requires count > 0 && page >= 1
    ensures var w := ListingVariables(count, page);
            w.offset <= row < w.offset + w.first <==> page == row / count + 1
  {
    var w := ListingVariables(count, page);
    var p := row / count + 1;
    assert row / count * count <= row < row / count * count + count;
    if page == p {
      assert w.offset == row / count * count;
    } else if page < p {
      assert page - 1 <= row / count - 1;
      assert count * (page - 1) + count == count * page <= count * (row / count);
    } else {
      assert page - 1 >= row / count + 1;
      assert count * (page - 1) >= count * (row / count + 1) == count * (row / count) + count;
    }
  }

  /** One element of `pairsParams`: `{id, buyOrSell}`. */
  datatype PairParam = PairParam(id: PairId, buyOrSell: Side)

  /** `selectedSpreads.map(...)` for the historical query, in selection order. */
  function PairsParams(sel: seq<Entry>): (r: seq<PairParam>)
    ensures |r| == |sel|
    ensures forall i :: 0 <= i < |sel| ==> r[i] == PairParam(sel[i].spread.pair.pk, sel[i].side)
  {
    if sel == [] then [] else [PairParam(sel[0].spread.pair.pk, sel[0].side)] + PairsParams(sel[1..])
  }

  /** `selectedSpreads.map(...)` for the subscription: one pk per entry, duplicates kept. */
  function PairsIds(sel: seq<Entry>): (r: seq<PairId>)
    ensures |r| == |sel|
    ensures forall i :: 0 <= i < |sel| ==> r[i] == sel[i].spread.pair.pk
  {
    if sel == [] then [] else [sel[0].spread.pair.pk] + PairsIds(sel[1..])
  }

  /** The subscription subscribes to exactly the ids the historical query asks for, position by position. */
  lemma PairsIdsMatchParams(sel: seq<Entry>)
    ensures |PairsIds(sel)| == |PairsParams(sel)|
    ensures forall i :: 0 <= i < |sel| ==> PairsIds(sel)[i] == PairsParams(sel)[i].id
  {
  }

  /** Selecting extends both query parameter lists by exactly the new entry's parameters. */
  lemma SelectExtendsQueries(sel: seq<Entry>, spread: Spread, side: Side)
    ensures PairsParams(Select(sel, spread, side)) == PairsParams(sel) + [PairParam(spread.pair.pk, side)]
    ensures PairsIds(Select(sel, spread, side)) == PairsIds(sel) + [spread.pair.pk]
  {
    var s := Select(sel, spread, side);
    assert s[|sel|] == Entry(spread, side);
  }

  /** Selecting both sides of one pair subscribes to that pair twice more. */
  lemma BothSidesSubscribeTwice(sel: seq<Entry>, spread: Spread)
    ensures PairsIds(Select(Select(sel, spread, Buy), spread, Sell)) == PairsIds(sel) + [spread.pair.pk, spread.pair.pk]
  {
    SelectExtendsQueries(sel, spread, Buy);
    SelectExtendsQueries(Select(sel, spread, Buy), spread, Sell);
  }

  datatype TimeFrame = Minute | Hour | Day | Week | Month | Year

  /** Variables of the historical query. */
  datatype HistoricalVars = HistoricalVars(
    pairsParams: seq<PairParam>, timeFrame: TimeFrame, startDate: Option<Timestamp>, endDate: Option<Timestamp>)

  function HistoricalVariables(sel: seq<Entry>, timeFrame: TimeFrame, startDate: Option<Timestamp>,
                               endDate: Option<Timestamp>): HistoricalVars {
    HistoricalVars(PairsParams(sel), timeFrame, startDate, endDate)
  }

  /** `disabled={page === 1}` on the Prev button. */
  predicate PrevDisabled(page: int) {
    page == 1
  }

  /** `disabled={page * count === 100}` on the Next button, as written. */
  predicate NextDisabled(page: int, count: int) {
    page * count == 100
  }

  /** The page after a click on Prev: a disabled button does nothing, otherwise `currPage - 1`. */
  function PrevPage(page: int): (r: int)
    ensures page >= 1 ==> r >= 1
  {
    if PrevDisabled(page) then page else page - 1
  }

  /** The page after a click on Next: a disabled button does nothing, otherwise `currPage + 1`. */
  function NextPage(page: int, count: int): (r: int)
    ensures page >= 1 ==> r >= 1
  {
    if NextDisabled(page, count) then page else page + 1
  }

  /** The page reached from `page` by `clicks` clicks on Next. */
  function AdvancePages(page: int, count: int, clicks: nat): int {
    if clicks == 0 then page else NextPage(AdvancePages(page, count, clicks - 1), count)
  }

  /**
   * With the default page size of 6, Next is never disabled: 100 is not a
   * multiple of 6, so every click advances the page.
   */
  lemma {:induction false} DefaultPageSizeNeverStops(clicks: nat)
    ensures AdvancePages(1, 6, clicks) == 1 + clicks
  {
    if clicks > 0 {
      DefaultPageSizeNeverStops(clicks - 1);
      assert (clicks) * 6 != 100;
    }
  }

  /**
   * When the page size divides 100, the guard as written does stop Next:
   * from page 1 the clicks advance one page each until page `100 / count`,
   * the last page inside the first 100 rows, and then do nothing.
   */
  lemma {:induction false} DivisorPageSizeStops(count: int, clicks: nat)
    requires 0 < count && 100 % count == 0
    ensures AdvancePages(1, count, clicks) == if clicks < 100 / count then 1 + clicks else 100 / count
  {
    if clicks > 0 {
      DivisorPageSizeStops(count, clicks - 1);
      var p := AdvancePages(1, count, clicks - 1);
      PagesBelowLast(count, p);
      assert AdvancePages(1, count, clicks) == NextPage(p, count);
    }
  }

  /** For a page size dividing 100, page `p` is the one that ends at row 100 exactly when it is page `100 / count`. */
  lemma PagesBelowLast(count: int, p: int)
    requires 0 < count && 100 % count == 0
    ensures p * count == 100 <==> p == 100 / count
  {
    var q := 100 / count;
    assert q * count == 100;
    if p < q {
      assert p * count <= (q - 1) * count == q * count - count;
    } else if p > q {
      assert p * count >= (q + 1) * count == q * count + count;
    }
  }

  /** After 17 clicks from page 1 with page size 6 the listing starts past the first 100 rows. */
  lemma DefaultPageSizePassesHundred()
    ensures ListingVariables(6, AdvancePages(1, 6, 17)).offset == 102
  {
    DefaultPageSizeNeverStops(17);
  }

  /** The guard the constant 100 evidently stands for: no page may start at or past row 100. */
  predicate NextDisabledIntended(page: int, count: int) {
    page * count >= 100
  }

  function NextPageIntended(page: int, count: int): int {
    if NextDisabledIntended(page, count) then page else page + 1
  }

  function AdvancePagesIntended(page: int, count: int, clicks: nat): int {
    if clicks == 0 then page else NextPageIntended(AdvancePagesIntended(page, count, clicks - 1), count)
  }

  /** With the intended guard, however often Next is clicked, the listing never starts past row 99. */
  lemma {:induction false} IntendedOffsetBounded(count: int, clicks: nat)
    ensures AdvancePagesIntended(1, count, clicks) >= 1
    ensures ListingVariables(count, AdvancePagesIntended(1, count, clicks)).offset < 100
  {
    if clicks > 0 {
      IntendedOffsetBounded(count, clicks - 1);
      var p := AdvancePagesIntended(1, count, clicks - 1);
      if !NextDisabledIntended(p, count) {
        assert count * (p + 1 - 1) == p * count;
      }
    }
  }
}
