/**
 * The dashboard component's state and its event handlers, and the chart
 * view one render derives from that state and the latest query results.
 */
module Dashboard {
  import opened Common
  import opened Selection
  import opened Query
  import opened Colors
  import opened Assembly
  import opened LiveMerge

  /** Why a render throws: a series no entry owns, or a live target whose dataset is missing. */
  datatype RenderError = UnmatchedSeries(index: nat) | MissingDataset(title: string)

  /**
   * The datasets one render hands to the chart: the assembled historical
   * series, then, when live mode is on and an event has arrived, the merge
   * of that event. No historical data yet behaves like an empty response.
   */
  function ChartView(sel: seq<Entry>, historical: Option<seq<Series>>, colors: seq<string>, isLive: bool,
                     event: Option<PushEvent>, pct: Value -> string): Result<seq<Dataset>, RenderError> {
    var response := if historical.Some? then historical.value else [];
    match Assemble(sel, response, colors, pct)
    case Err(k) => Err(UnmatchedSeries(k))
    case Ok(ds) =>
      if isLive && event.Some? then
        var m := Merge(ds, Targets(sel, event.value.pair), event.value, pct);
        if m.missing.Some? then Err(MissingDataset(m.missing.value)) else Ok(m.datasets)
      else Ok(ds)
  }

  /** How many series the assembly gets through before it finishes or throws. */
  function SeriesReached(sel: seq<Entry>, historical: Option<seq<Series>>, colors: seq<string>,
                         pct: Value -> string): nat {
    var response := if historical.Some? then historical.value else [];
    match Assemble(sel, response, colors, pct)
    case Err(k) => k
    case Ok(_) => |response|
  }

  /** While live mode is off, the pushed event has no effect on the chart. */
  lemma OffModeIgnoresEvents(sel: seq<Entry>, historical: Option<seq<Series>>, colors: seq<string>,
                             event: Option<PushEvent>, pct: Value -> string)
    ensures ChartView(sel, historical, colors, false, event, pct) == ChartView(sel, historical, colors, false, None, pct)
  {
  }

  /**
   * In a live render the chart shows the historical datasets with their
   * labels and colours, each followed by exactly the live points routed to
   * it; a dataset no selected entry of the pushed pair routes to shows its
   * historical points only.
   */
  lemma LiveViewExtendsHistory(sel: seq<Entry>, response: seq<Series>, colors: seq<string>,
                               event: PushEvent, pct: Value -> string, k: nat)
    requires Assemble(sel, response, colors, pct).Ok?
    requires ChartView(sel, Some(response), colors, true, Some(event), pct).Ok?
    requires k < |response|
    ensures var ds := Assemble(sel, response, colors, pct).value;
            var view := ChartView(sel, Some(response), colors, true, Some(event), pct).value;
            |view| == |response| && view[k].title == ds[k].title && view[k].borderColor == ds[k].borderColor &&
            view[k].points == SeriesPoints(response[k], pct) + PointsFor(ds, Targets(sel, event.pair), k, event, pct)
  {
    var ds := Assemble(sel, response, colors, pct).value;
    var targets := Targets(sel, event.pair);
    AssembledDatasets(sel, response, colors, pct, k);
    assert AssembleOne(sel, response[k], k, colors, pct) == Some(ds[k]);
    MergeKeepsFrame(ds, targets, event, pct);
    MergeAppendsRoutedPoints(ds, targets, event, pct, k);
  }

  /**
   * The live merge finds a target's dataset by label alone, so a live point
   * lands on the dataset of a series whose owning entry has the target's
   * pair name and side, and that series is for the target's side; its pair
   * pk may differ when two pairs share a name.
   */
  lemma RoutedDatasetMatchesNameAndSide(sel: seq<Entry>, response: seq<Series>, colors: seq<string>,
                                        pct: Value -> string, target: Entry, k: nat)
    requires Assemble(sel, response, colors, pct).Ok?
    requires FirstTitled(Assemble(sel, response, colors, pct).value, EntryLabel(target), 0) == Some(k)
    ensures k < |response|
    ensures var owner := FindOwner(sel, SeriesPair(response[k]), SeriesSide(response[k]));
            owner.Some? && owner.value < |sel| &&
            sel[owner.value].spread.pair.name == target.spread.pair.name &&
            sel[owner.value].side == target.side && SeriesSide(response[k]) == target.side
  {
    var ds := Assemble(sel, response, colors, pct).value;
    AssembledDatasets(sel, response, colors, pct, k);
    var owner := FindOwner(sel, SeriesPair(response[k]), SeriesSide(response[k])).value;
    LabelInjective(sel[owner].spread.pair.name, sel[owner].side, target.spread.pair.name, target.side);
  }

  /** The datasets of one render, with the live merge run in place on a fresh array. */
  method DrawChart(sel: seq<Entry>, historical: Option<seq<Series>>, colors: seq<string>, isLive: bool,
                   event: Option<PushEvent>, pct: Value -> string) returns (view: Result<seq<Dataset>, RenderError>)
    ensures view == ChartView(sel, historical, colors, isLive, event, pct)
  {
    var response := if historical.Some? then historical.value else [];
    var assembled := Assemble(sel, response, colors, pct);
    if assembled.Err? {
      return Err(UnmatchedSeries(assembled.error));
    }
    var ds := assembled.value;
    if !(isLive && event.Some?) {
      return Ok(ds);
    }
    var datasets := new Dataset[|ds|](j requires 0 <= j < |ds| => ds[j]);
    assert datasets[..] == ds;
    var missing := MergeLive(datasets, sel, event.value, pct);
    view := if missing.Some? then Err(MissingDataset(missing.value)) else Ok(datasets[..]);
  }

  class Dashboard {
    var count: int
    var page: int
    var timeFrame: TimeFrame
    var isLive: bool
    var selection: seq<Entry>
    var colors: seq<string>

    /** Pages count from 1, and live mode always charts by the minute. */
    ghost predicate Valid()
      reads this
    {
      page >= 1 && (isLive ==> timeFrame == Minute)
    }

    /** The initial state of the component's `useState` hooks. */
    constructor ()
      ensures Valid()
      ensures count == 6 && page == 1 && timeFrame == Minute && !isLive
      ensures selection == [] && colors == []
    {
      count, page, timeFrame, isLive := 6, 1, Minute, false;
      selection, colors := [], [];
    }

    /** The Prev button: disabled on page 1, otherwise one page back. */
    method Prev()
      requires Valid()
      modifies this`page
      ensures Valid()
      ensures page == PrevPage(old(page))
    {
      page := PrevPage(page);
    }

    /** The Next button: disabled when `page * count` is exactly 100, otherwise one page on. */
    method Next()
      requires Valid()
      modifies this`page
      ensures Valid()
      ensures page == NextPage(old(page), count)
    {
      page := NextPage(page, count);
    }

    /** The page-size input; the page is kept. */
    method SetCount(n: int)
      requires Valid()
      modifies this`count
      ensures Valid() && count == n
    {
      count := n;
    }

    /** The time-frame selector, which is disabled while live. */
    method SetTimeFrame(t: TimeFrame)
      requires Valid()
      modifies this`timeFrame
      ensures Valid()
      ensures timeFrame == if old(isLive) then old(timeFrame) else t
    {
      if !isLive {
        timeFrame := t;
      }
    }

    /** The live toggle, followed by the effect that resets the time frame to minutes when live mode is entered. */
    method SetLive(live: bool)
      requires Valid()
      modifies this`isLive, this`timeFrame
      ensures Valid() && isLive == live
      ensures timeFrame == if live then Minute else old(timeFrame)
    {
      isLive := live;
      if isLive {
        timeFrame := Minute;
      }
    }

    /**
     * A click on a spread's buy or sell checkbox, which calls
     * `onSpreadSelectChange`: a ticked box selects, an unticked one
     * deselects by `(pair.pk, side)`. The checkboxes are disabled while
     * live, so then the selection stays as it is.
     */
    method OnSpreadSelectChange(selected: bool, spread: Spread, side: Side)
      requires Valid()
      modifies this`selection
      ensures Valid()
      ensures selection == if old(isLive) then old(selection)
                           else if selected then Select(old(selection), spread, side)
                           else Deselect(old(selection), spread.pair.pk, side)
    {
      if isLive {
        return;
      }
      if selected {
        selection := Select(selection, spread, side);
      } else {
        selection := Deselect(selection, spread.pair.pk, side);
      }
    }

    /**
     * The colour requests of a render that got through `reached` series:
     * each slot that is empty in the snapshot taken at the start of the
     * render gets the queued updater, with `draw(i)` as the colour
     * `getRandomColor` returns for slot `i`.
     */
    method RequestColors(reached: nat, draw: nat -> Rgb)
      requires Valid()
      modifies this`colors
      ensures Valid()
      ensures colors == QueuedFills(old(colors), reached, draw)
      ensures forall k :: IsSet(old(colors), k) ==> Slot(colors, k) == Slot(old(colors), k)
      ensures forall k :: 0 <= k < reached ==> IsSet(colors, k)
    {
      var snapshot, current := colors, colors;
      var i := 0;
      while i < reached
        invariant 0 <= i <= reached
        invariant current == QueuedFills(snapshot, i, draw)
      {
        ghost var next := QueuedFills(snapshot, i + 1, draw);
        assert next == if IsSet(snapshot, i) then current else Splice(current, i, RgbString(draw(i)));
        if !IsSet(snapshot, i) {
          current := Splice(current, i, RgbString(draw(i)));
        }
        i := i + 1;
      }
      QueuedMatchesSequential(snapshot, reached, draw);
      FillsCoverAndKeep(snapshot, reached, draw);
      colors := current;
    }

    /**
     * One render of the chart: the datasets drawn from the state as it is
     * at the start of the render, and the colour requests the assembly
     * queues up to the series where it throws. `pct` is `toPercentage`.
     */
    method Render(historical: Option<seq<Series>>, event: Option<PushEvent>, draw: nat -> Rgb,
                  pct: Value -> string) returns (view: Result<seq<Dataset>, RenderError>)
      requires Valid()
      modifies this`colors
      ensures Valid()
      ensures view == ChartView(selection, historical, old(colors), isLive, event, pct)
      ensures colors == QueuedFills(old(colors), SeriesReached(selection, historical, old(colors), pct), draw)
    {
      view := DrawChart(selection, historical, colors, isLive, event, pct);
      RequestColors(SeriesReached(selection, historical, colors, pct), draw);
    }
  }
}
