/**
 * The live merger: when live mode is on, the latest pushed spread is
 * appended, in place, to the datasets of the selection entries for its pair.
 */
module LiveMerge {
  import opened Common

  /** The pushed `spread.spread`: `{buySpread, sellSpread, timestamp, pair: {pk}}`. */
  datatype PushEvent = PushEvent(pair: PairId, buySpread: Value, sellSpread: Value, timestamp: Timestamp)

  /** How many entries of `sel` belong to pair `pk`. */
  function CountPair(sel: seq<Entry>, pk: PairId): nat {
    if sel == [] then 0 else (if sel[0].spread.pair.pk == pk then 1 else 0) + CountPair(sel[1..], pk)
  }

  /** `selectedSpreads.filter(...)` on the pushed pk: every entry of that pair, in selection order. */
  function Targets(sel: seq<Entry>, pk: PairId): (r: seq<Entry>)
    ensures IsSubsequence(r, sel)
    ensures forall i :: 0 <= i < |r| ==> r[i].spread.pair.pk == pk
    ensures |r| == CountPair(sel, pk)
  {
    if sel == [] then []
    else if sel[0].spread.pair.pk == pk then [sel[0]] + Targets(sel[1..], pk)
    else Targets(sel[1..], pk)
  }

  /** The point an entry receives: the event's timestamp, and the spread field of the entry's side. */
  function LivePoint(e: Entry, ev: PushEvent, pct: Value -> string): Point {
    Point(ev.timestamp, pct(if e.side == Buy then ev.buySpread else ev.sellSpread))
  }

  /** `datasets.find(d => d.label === title)`, as the index of the first match at or after `from`. */
  function FirstTitled(ds: seq<Dataset>, title: string, from: nat): (r: Option<nat>)
    requires from <= |ds|
    ensures r.Some? ==> from <= r.value < |ds| && ds[r.value].title == title &&
                        forall j :: from <= j < r.value ==> ds[j].title != title
    ensures r.None? ==> forall j :: from <= j < |ds| ==> ds[j].title != title
    decreases |ds| - from
  {
    if from == |ds| then None
    else if ds[from].title == title then Some(from)
    else FirstTitled(ds, title, from + 1)
  }

  /** `dataset.data.push(point)` on the dataset at `k`. */
  function PushPoint(ds: seq<Dataset>, k: nat, p: Point): seq<Dataset>
    requires k < |ds|
  {
    ds[k := ds[k].(points := ds[k].points + [p])]
  }

  /** The datasets after the merge, and the label whose dataset was missing if the loop crashed. */
  datatype MergeOutcome = MergeOutcome(datasets: seq<Dataset>, missing: Option<string>)

  /**
   * The `forEach` over the targets: each pushes its point onto the first
   * dataset carrying its label; a target with no such dataset crashes the
   * loop, keeping the pushes already made.
   */
  function Merge(ds: seq<Dataset>, targets: seq<Entry>, ev: PushEvent, pct: Value -> string): MergeOutcome
    decreases |targets|
  {
    if targets == [] then MergeOutcome(ds, None)
    else
      var title := EntryLabel(targets[0]);
      match FirstTitled(ds, title, 0)
      case None => MergeOutcome(ds, Some(title))
      case Some(k) => Merge(PushPoint(ds, k, LivePoint(targets[0], ev, pct)), targets[1..], ev, pct)
  }

  /**
   * The reference view of a merge, dataset by dataset: the points the
   * targets route to dataset `k`, in target order, up to the first target
   * whose label no dataset carries.
   */
  function PointsFor(ds: seq<Dataset>, targets: seq<Entry>, k: nat, ev: PushEvent, pct: Value -> string): seq<Point>
    decreases |targets|
  {
    if targets == [] then []
    else
      match FirstTitled(ds, EntryLabel(targets[0]), 0)
      case None => []
      case Some(k') =>
        (if k' == k then [LivePoint(targets[0], ev, pct)] else []) + PointsFor(ds, targets[1..], k, ev, pct)
  }

  /** Two dataset lists with the same labels and colours, position by position. */
  predicate SameFrame(a: seq<Dataset>, b: seq<Dataset>) {
    |a| == |b| && forall k :: 0 <= k < |a| ==> a[k].title == b[k].title && a[k].borderColor == b[k].borderColor
  }

  lemma {:induction false} FirstTitledSameFrame(a: seq<Dataset>, b: seq<Dataset>, title: string, from: nat)
    requires SameFrame(a, b) && from <= |a|
    ensures FirstTitled(a, title, from) == FirstTitled(b, title, from)
    decreases |a| - from
  {
    if from < |a| {
      FirstTitledSameFrame(a, b, title, from + 1);
    }
  }

  lemma {:induction false} PointsForSameFrame(a: seq<Dataset>, b: seq<Dataset>, targets: seq<Entry>, k: nat,
                                              ev: PushEvent, pct: Value -> string)
    requires SameFrame(a, b)
    ensures PointsFor(a, targets, k, ev, pct) == PointsFor(b, targets, k, ev, pct)
    decreases |targets|
  {
    if targets != [] {
      FirstTitledSameFrame(a, b, EntryLabel(targets[0]), 0);
      PointsForSameFrame(a, b, targets[1..], k, ev, pct);
    }
  }

  /** A merge keeps every dataset, its label and its colour, in place: it only ever changes points. */
  lemma {:induction false} MergeKeepsFrame(ds: seq<Dataset>, targets: seq<Entry>, ev: PushEvent, pct: Value -> string)
    ensures SameFrame(Merge(ds, targets, ev, pct).datasets, ds)
    decreases |targets|
  {
    if targets != [] {
      var first := FirstTitled(ds, EntryLabel(targets[0]), 0);
      if first.Some? {
        MergeKeepsFrame(PushPoint(ds, first.value, LivePoint(targets[0], ev, pct)), targets[1..], ev, pct);
      }
    }
  }

  /**
   * Dataset `k` gains exactly the points the targets route to it, appended
   * after its own; a dataset no target routes to is unchanged.
   */
  lemma {:induction false} MergeAppendsRoutedPoints(ds: seq<Dataset>, targets: seq<Entry>, ev: PushEvent,
                                                    pct: Value -> string, k: nat)
    requires k < |ds|
    ensures |Merge(ds, targets, ev, pct).datasets| == |ds|
    ensures Merge(ds, targets, ev, pct).datasets[k].points == ds[k].points + PointsFor(ds, targets, k, ev, pct)
    decreases |targets|
  {
    MergeKeepsFrame(ds, targets, ev, pct);
    if targets != [] {
      var first := FirstTitled(ds, EntryLabel(targets[0]), 0);
      if first.Some? {
        var ds' := PushPoint(ds, first.value, LivePoint(targets[0], ev, pct));
        MergeAppendsRoutedPoints(ds', targets[1..], ev, pct, k);
        PointsForSameFrame(ds', ds, targets[1..], k, ev, pct);
      }
    }
  }

  /** A merge crashes exactly when some target's label is carried by no dataset, and then names such a label. */
  lemma {:induction false} MergeCrashesIffMissing(ds: seq<Dataset>, targets: seq<Entry>, ev: PushEvent,
                                                  pct: Value -> string)
    ensures Merge(ds, targets, ev, pct).missing.None? <==>
              forall i :: 0 <= i < |targets| ==> FirstTitled(ds, EntryLabel(targets[i]), 0).Some?
    ensures Merge(ds, targets, ev, pct).missing.Some? ==>
              (forall j :: 0 <= j < |ds| ==> ds[j].title != Merge(ds, targets, ev, pct).missing.value) &&
              exists i :: 0 <= i < |targets| && EntryLabel(targets[i]) == Merge(ds, targets, ev, pct).missing.value
    decreases |targets|
  {
    if targets != [] {
      var first := FirstTitled(ds, EntryLabel(targets[0]), 0);
      if first.Some? {
        var ds' := PushPoint(ds, first.value, LivePoint(targets[0], ev, pct));
        assert SameFrame(ds', ds);
        MergeCrashesIffMissing(ds', targets[1..], ev, pct);
        forall i | 0 <= i < |targets|
          ensures FirstTitled(ds', EntryLabel(targets[i]), 0) == FirstTitled(ds, EntryLabel(targets[i]), 0)
        {
          FirstTitledSameFrame(ds', ds, EntryLabel(targets[i]), 0);
        }
        var m := Merge(ds', targets[1..], ev, pct);
        if m.missing.Some? {
          var i :| 0 <= i < |targets[1..]| && EntryLabel(targets[1..][i]) == m.missing.value;
          assert EntryLabel(targets[i + 1]) == m.missing.value;
        } else {
          forall i | 0 <= i < |targets|
            ensures FirstTitled(ds, EntryLabel(targets[i]), 0).Some?
          {
            if i > 0 {
              assert targets[i] == targets[1..][i - 1];
            }
          }
        }
      }
    }
  }

  /**
   * The `forEach` loop, run in place on the chart's datasets. It returns
   * the label whose dataset was missing when it crashed.
   */
  method MergeLive(datasets: array<Dataset>, sel: seq<Entry>, ev: PushEvent, pct: Value -> string)
    returns (missing: Option<string>)
    modifies datasets
    ensures MergeOutcome(datasets[..], missing) == Merge(old(datasets[..]), Targets(sel, ev.pair), ev, pct)
  {
    var targets := Targets(sel, ev.pair);
    var i := 0;
    while i < |targets|
      invariant 0 <= i <= |targets|
      invariant Merge(old(datasets[..]), targets, ev, pct) == Merge(datasets[..], targets[i..], ev, pct)
    {
      var t := targets[i];
      var title := EntryLabel(t);
      assert targets[i..][0] == t && targets[i..][1..] == targets[i + 1..];
      var found := FirstTitled(datasets[..], title, 0);
      if found.None? {
        return Some(title);
      }
      var k := found.value;
      ghost var before := datasets[..];
      datasets[k] := datasets[k].(points := datasets[k].points + [LivePoint(t, ev, pct)]);
      assert datasets[..] == PushPoint(before, k, LivePoint(t, ev, pct));
      i := i + 1;
    }
    assert targets[i..] == [];
    return None;
  }
}
