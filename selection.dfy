/**
 * The selection store: the ordered list of `{spread, buyOrSell}` entries the
 * user has ticked in the listing table, and the two updaters that
 * `onSpreadSelectChange` hands to `setSelectedSpreads`.
 */
module Selection {
  import opened Common

  /** How many entries of `sel` carry the key `(pk, side)`. */
  function CountKey(sel: seq<Entry>, pk: PairId, side: Side): nat {
    if sel == [] then 0
    else (if HasKey(sel[0], pk, side) then 1 else 0) + CountKey(sel[1..], pk, side)
  }

  lemma {:induction false} CountKeyAppend(a: seq<Entry>, b: seq<Entry>, pk: PairId, side: Side)
    ensures CountKey(a + b, pk, side) == CountKey(a, pk, side) + CountKey(b, pk, side)
  {
    if a == [] {
      assert a + b == b;
    } else {
      assert (a + b)[1..] == a[1..] + b;
      CountKeyAppend(a[1..], b, pk, side);
    }
  }

  /** Ticking a checkbox: the entry goes at the end, whatever is already selected. */
  function Select(sel: seq<Entry>, spread: Spread, side: Side): seq<Entry> {
    sel + [Entry(spread, side)]
  }

  /**
   * Unticking a checkbox: every entry with the same `(pair.pk, side)` is
   * filtered out. The result is exactly the entries with another key, in
   * their original order.
   */
  function Deselect(sel: seq<Entry>, pk: PairId, side: Side): (r: seq<Entry>)
    ensures IsSubsequence(r, sel)
    ensures forall i :: 0 <= i < |r| ==> !HasKey(r[i], pk, side)
    ensures |r| + CountKey(sel, pk, side) == |sel|
  {
    if sel == [] then []
    else if !HasKey(sel[0], pk, side) then [sel[0]] + Deselect(sel[1..], pk, side)
    else Deselect(sel[1..], pk, side)
  }

  /**
   * Selecting appends exactly one entry at the end and keeps the earlier
   * ones; there is no duplicate check, so a key already present is counted
   * once more.
   */
  lemma SelectAppendsOne(sel: seq<Entry>, spread: Spread, side: Side, pk: PairId, side': Side)
    ensures |Select(sel, spread, side)| == |sel| + 1
    ensures Select(sel, spread, side)[..|sel|] == sel
    ensures Select(sel, spread, side)[|sel|] == Entry(spread, side)
    ensures CountKey(Select(sel, spread, side), pk, side') ==
            CountKey(sel, pk, side') + (if spread.pair.pk == pk && side == side' then 1 else 0)
  {
    CountKeyAppend(sel, [Entry(spread, side)], pk, side');
    assert [Entry(spread, side)][1..] == [];
  }

  lemma {:induction false} DeselectAppend(a: seq<Entry>, b: seq<Entry>, pk: PairId, side: Side)
    ensures Deselect(a + b, pk, side) == Deselect(a, pk, side) + Deselect(b, pk, side)
  {
    if a == [] {
      assert a + b == b;
    } else {
      assert (a + b)[0] == a[0];
      assert (a + b)[1..] == a[1..] + b;
      DeselectAppend(a[1..], b, pk, side);
    }
  }

  /** Deselecting a key that is not selected changes nothing. */
  lemma {:induction false} DeselectAbsent(sel: seq<Entry>, pk: PairId, side: Side)
    requires CountKey(sel, pk, side) == 0
    ensures Deselect(sel, pk, side) == sel
  {
    if sel != [] {
      DeselectAbsent(sel[1..], pk, side);
    }
  }

  /** An entry survives deselection exactly when its key differs from the removed one. */
  lemma {:induction false} DeselectMembership(sel: seq<Entry>, pk: PairId, side: Side, e: Entry)
    ensures e in Deselect(sel, pk, side) <==> e in sel && !HasKey(e, pk, side)
  {
    if sel != [] {
      DeselectMembership(sel[1..], pk, side, e);
      assert sel == [sel[0]] + sel[1..];
    }
  }

  /** Selecting an absent key and then deselecting it restores the selection exactly. */
  lemma SelectThenDeselect(sel: seq<Entry>, spread: Spread, side: Side)
    requires CountKey(sel, spread.pair.pk, side) == 0
    ensures Deselect(Select(sel, spread, side), spread.pair.pk, side) == sel
  {
    var e := Entry(spread, side);
    DeselectAppend(sel, [e], spread.pair.pk, side);
    DeselectAbsent(sel, spread.pair.pk, side);
    assert [e][1..] == [];
  }

  /** Deselection also removes every duplicate the unchecked selection let in. */
  lemma SelectTwiceThenDeselect(sel: seq<Entry>, spread: Spread, spread': Spread, side: Side)
    requires CountKey(sel, spread.pair.pk, side) == 0
    requires spread'.pair.pk == spread.pair.pk
    ensures Deselect(Select(Select(sel, spread, side), spread', side), spread.pair.pk, side) == sel
  {
    var pk := spread.pair.pk;
    DeselectAppend(sel + [Entry(spread, side)], [Entry(spread', side)], pk, side);
    assert [Entry(spread', side)][1..] == [];
    SelectThenDeselect(sel, spread, side);
  }
}
