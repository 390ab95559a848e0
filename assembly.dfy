/**
 * The historical series assembler: the `chartData` block, which turns the
 * historical query's response into one chart dataset per response series.
 */
module Assembly {
  import opened Common
  import opened Colors
  import opened Query

  /** One sample of a historical series: `{buySpread, sellSpread, timestamp, pair}`. */
  datatype Sample = Sample(pair: PairId, buySpread: Value, sellSpread: Value, timestamp: Timestamp)

  type Series = seq<Sample>

  /** `chartPairSpreads[0]?.pair`: absent for an empty series. */
  function SeriesPair(series: Series): Option<PairId> {
    if series == [] then None else Some(series[0].pair)
  }

  /** The side is `buy` exactly when the first sample's `buySpread` is truthy. */
  function SeriesSide(series: Series): (side: Side)
    ensures side == Buy <==> series != [] && Truthy(series[0].buySpread)
  {
    if series != [] && Truthy(series[0].buySpread) then Buy else Sell
  }

  /** The `find` predicate: the entry's pk equals the series' pair and its side matches. */
  predicate Owns(e: Entry, pair: Option<PairId>, side: Side) {
    pair == Some(e.spread.pair.pk) && e.side == side
  }

  /** `selectedSpreads.find(...)`, as the index of the first owning entry at or after `from`. */
  function FindOwnerFrom(sel: seq<Entry>, pair: Option<PairId>, side: Side, from: nat): (r: Option<nat>)
    requires from <= |sel|
    ensures r.Some? ==> from <= r.value < |sel| && Owns(sel[r.value], pair, side) &&
                        forall j :: from <= j < r.value ==> !Owns(sel[j], pair, side)
    ensures r.None? ==> forall j :: from <= j < |sel| ==> !Owns(sel[j], pair, side)
    decreases |sel| - from
  {
    if from == |sel| then None
    else if Owns(sel[from], pair, side) then Some(from)
    else FindOwnerFrom(sel, pair, side, from + 1)
  }

  function FindOwner(sel: seq<Entry>, pair: Option<PairId>, side: Side): Option<nat> {
    FindOwnerFrom(sel, pair, side, 0)
  }

  /** The value a sample plots: its `buySpread` when truthy, otherwise its `sellSpread`. */
  function SampleValue(s: Sample): Value {
    if Truthy(s.buySpread) then s.buySpread else s.sellSpread
  }

  /** `chartPairSpreads.map(...)`: one point per sample, in order; `pct` stands for `toPercentage`. */
  function SeriesPoints(series: Series, pct: Value -> string): (r: seq<Point>)
    ensures |r| == |series|
    ensures forall j :: 0 <= j < |series| ==> r[j] == Point(series[j].timestamp, pct(SampleValue(series[j])))
  {
    if series == [] then [] else [Point(series[0].timestamp, pct(SampleValue(series[0])))] + SeriesPoints(series[1..], pct)
  }

  /**
   * The dataset of the series at `index`, or nothing where the code crashes
   * reading `spread.spread` of an undefined `find` result. `colors` is the
   * render's snapshot of the colour slots.
   */
  function AssembleOne(sel: seq<Entry>, series: Series, index: nat, colors: seq<string>,
                       pct: Value -> string): Option<Dataset> {
    match FindOwner(sel, SeriesPair(series), SeriesSide(series))
    case None => None
    case Some(j) => Some(Dataset(EntryLabel(sel[j]), SeriesPoints(series, pct), Slot(colors, index)))
  }

  function AssembleFrom(sel: seq<Entry>, response: seq<Series>, colors: seq<string>, pct: Value -> string,
                        from: nat): (r: Result<seq<Dataset>, nat>)
    requires from <= |response|
    ensures r.Ok? <==> forall k :: from <= k < |response| ==> AssembleOne(sel, response[k], k, colors, pct).Some?
    ensures r.Ok? ==> |r.value| == |response| - from &&
                      forall k :: from <= k < |response| ==>
                        AssembleOne(sel, response[k], k, colors, pct) == Some(r.value[k - from])
    ensures r.Err? ==> from <= r.error < |response| &&
                       AssembleOne(sel, response[r.error], r.error, colors, pct).None? &&
                       forall k :: from <= k < r.error ==> AssembleOne(sel, response[k], k, colors, pct).Some?
    decreases |response| - from
  {
    if from == |response| then Ok([])
    else
      match AssembleOne(sel, response[from], from, colors, pct)
      case None => Err(from)
      case Some(d) =>
        match AssembleFrom(sel, response, colors, pct, from + 1)
        case Err(k) => Err(k)
        case Ok(ds) => Ok([d] + ds)
  }

  /**
   * `chartPairsSpreads.map(...)`: the datasets in response order, or the
   * index of the first series the selection cannot account for.
   */
  function Assemble(sel: seq<Entry>, response: seq<Series>, colors: seq<string>,
                    pct: Value -> string): Result<seq<Dataset>, nat> {
    AssembleFrom(sel, response, colors, pct, 0)
  }

  /**
   * A successful assembly has one dataset per series, in response order.
   * Each is labelled with the first selection entry whose pk is the series'
   * pair and whose side is `buy` exactly when the first sample's
   * `buySpread` is truthy. It has one point per sample with that sample's
   * timestamp, and its colour is the snapshot's slot at its index.
   */
  lemma AssembledDatasets(sel: seq<Entry>, response: seq<Series>, colors: seq<string>,
                          pct: Value -> string, k: nat)
    requires Assemble(sel, response, colors, pct).Ok?
    requires k < |response|
    ensures var ds := Assemble(sel, response, colors, pct).value;
            var owner := FindOwner(sel, SeriesPair(response[k]), SeriesSide(response[k]));
            |ds| == |response| && response[k] != [] && owner.Some? && owner.value < |sel| &&
            sel[owner.value].spread.pair.pk == response[k][0].pair &&
            (sel[owner.value].side == Buy <==> Truthy(response[k][0].buySpread)) &&
            (forall i :: 0 <= i < owner.value ==> !HasKey(sel[i], response[k][0].pair, sel[owner.value].side)) &&
            ds[k].title == EntryLabel(sel[owner.value])
    ensures var ds := Assemble(sel, response, colors, pct).value;
            |ds[k].points| == |response[k]| &&
            (forall i :: 0 <= i < |response[k]| ==>
              ds[k].points[i].x == response[k][i].timestamp && ds[k].points[i].y == pct(SampleValue(response[k][i]))) &&
            ds[k].borderColor == Slot(colors, k)
  {
    var o := FindOwner(sel, SeriesPair(response[k]), SeriesSide(response[k]));
    assert AssembleOne(sel, response[k], k, colors, pct).Some?;
    var j := o.value;
    forall i | 0 <= i < j
      ensures !HasKey(sel[i], response[k][0].pair, sel[j].side)
    {
      assert !Owns(sel[i], SeriesPair(response[k]), SeriesSide(response[k]));
    }
  }

  /** An empty series or a series no entry owns makes the whole assembly fail, at the first such series. */
  lemma UnmatchedSeriesFails(sel: seq<Entry>, response: seq<Series>, colors: seq<string>,
                             pct: Value -> string, k: nat)
    requires k < |response|
    requires response[k] == [] || forall j :: 0 <= j < |sel| ==> !HasKey(sel[j], response[k][0].pair, SeriesSide(response[k]))
    ensures Assemble(sel, response, colors, pct).Err?
    ensures Assemble(sel, response, colors, pct).error <= k
  {
    assert AssembleOne(sel, response[k], k, colors, pct).None?;
  }

  /** No two entries of the selection share a `(pk, side)` key. */
  ghost predicate DistinctKeys(sel: seq<Entry>) {
    forall i, j :: 0 <= i < j < |sel| ==> !HasKey(sel[j], sel[i].spread.pair.pk, sel[i].side)
  }

  /** The response answers the request series by series: its `k`-th series is for `pairsParams[k]`. */
  ghost predicate AlignedWith(response: seq<Series>, params: seq<PairParam>) {
    |response| == |params| &&
    forall k :: 0 <= k < |response| ==>
      response[k] != [] && response[k][0].pair == params[k].id &&
      (Truthy(response[k][0].buySpread) <==> params[k].buyOrSell == Buy)
  }

  /**
   * When the selection has no duplicate keys and the response answers the
   * request's `pairsParams` in order, the assembly succeeds and the
   * datasets correspond one to one, in order, with the selection entries.
   */
  lemma AlignedResponseMatchesSelection(sel: seq<Entry>, response: seq<Series>, colors: seq<string>,
                                        pct: Value -> string)
    requires DistinctKeys(sel)
    requires AlignedWith(response, PairsParams(sel))
    ensures Assemble(sel, response, colors, pct).Ok?
    ensures |Assemble(sel, response, colors, pct).value| == |sel|
    ensures forall k :: 0 <= k < |sel| ==> Assemble(sel, response, colors, pct).value[k].title == EntryLabel(sel[k])
  {
    forall k | 0 <= k < |response|
      ensures AssembleOne(sel, response[k], k, colors, pct) ==
              Some(Dataset(EntryLabel(sel[k]), SeriesPoints(response[k], pct), Slot(colors, k)))
    {
      var pair, side := SeriesPair(response[k]), SeriesSide(response[k]);
      assert Owns(sel[k], pair, side);
      var o := FindOwner(sel, pair, side);
      if o.value < k {
        assert HasKey(sel[k], sel[o.value].spread.pair.pk, sel[o.value].side);
        assert false;
      }
    }
  }
}
