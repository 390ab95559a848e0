/**
 * The colour slot cache: the `colors` state array, indexed by a dataset's
 * position in the chart, and the updater the assembler queues for a slot
 * that has no colour yet.
 */
module Colors {
  import opened Common

  /** The three channels `getRandomColor` draws. */
  datatype Rgb = Rgb(r: nat, g: nat, b: nat)

  function DigitChar(d: nat): char
    requires d < 10
  {
    "0123456789"[d]
  }

  /** Decimal text of a natural number, as a template literal prints it. */
  function NatString(n: nat): (s: string)
    ensures |s| >= 1
    decreases n
  {
    if n < 10 then [DigitChar(n)] else NatString(n / 10) + [DigitChar(n % 10)]
  }

  /** `rgb(${r}, ${g}, ${b})`. */
  function RgbString(c: Rgb): (s: string)
    ensures s != ""
  {
    "rgb(" + NatString(c.r) + ", " + NatString(c.g) + ", " + NatString(c.b) + ")"
  }

  /** `colors[index]`: absent past the end of the array. */
  function Slot(colors: seq<string>, index: nat): Option<string> {
    if index < |colors| then Some(colors[index]) else None
  }

  /** `colors[index]` is truthy: present and not the empty string. */
  predicate IsSet(colors: seq<string>, index: nat) {
    Slot(colors, index).Some? && Slot(colors, index).value != ""
  }

  /**
   * The updater `[...c.slice(0, index), color, ...c.slice(index + 1)]`.
   * `slice` clamps its bounds to the array, so past the end the colour is
   * appended rather than written at `index`.
   */
  function Splice(colors: seq<string>, index: nat, color: string): (r: seq<string>)
    ensures index < |colors| ==> |r| == |colors| && r[index] == color &&
                                 forall k :: 0 <= k < |colors| && k != index ==> r[k] == colors[k]
    ensures index >= |colors| ==> r == colors + [color]
  {
    var lo := if index < |colors| then index else |colors|;
    var hi := if index + 1 < |colors| then index + 1 else |colors|;
    colors[..lo] + [color] + colors[hi..]
  }

  /** One guarded request evaluated against the current array: a set slot is kept. */
  function Fill(colors: seq<string>, index: nat, color: string): (r: seq<string>)
  {
    if IsSet(colors, index) then colors else Splice(colors, index, color)
  }

  /**
   * A slot that holds a colour is never overwritten; an empty slot inside
   * the array is filled in place and nothing else changes; past the end
   * the colour is appended.
   */
  lemma FillSlot(colors: seq<string>, index: nat, color: string)
    ensures IsSet(colors, index) ==> Fill(colors, index, color) == colors
    ensures !IsSet(colors, index) && index < |colors| ==>
              |Fill(colors, index, color)| == |colors| && Fill(colors, index, color)[index] == color &&
              forall k :: 0 <= k < |colors| && k != index ==> Fill(colors, index, color)[k] == colors[k]
    ensures index >= |colors| ==> Fill(colors, index, color) == colors + [color]
  {
  }

  /** A splice never touches the slots after the one it was asked for. */
  lemma SpliceKeepsLater(colors: seq<string>, index: nat, color: string, k: nat)
    requires k > index
    ensures Slot(Splice(colors, index, color), k) == Slot(colors, k)
  {
  }

  /**
   * What one render does to `colors`: for each of the first `n` datasets
   * whose slot is not set in the render's snapshot `snap`, the updater is
   * queued; React applies the queued updaters in order.
   */
  function QueuedFills(snap: seq<string>, n: nat, draw: nat -> Rgb): seq<string> {
    if n == 0 then snap
    else
      var before := QueuedFills(snap, n - 1, draw);
      if IsSet(snap, n - 1) then before else Splice(before, n - 1, RgbString(draw(n - 1)))
  }

  /** The same requests, each checked against the array as it is when it is applied. */
  function SequentialFills(colors: seq<string>, n: nat, draw: nat -> Rgb): seq<string> {
    if n == 0 then colors else Fill(SequentialFills(colors, n - 1, draw), n - 1, RgbString(draw(n - 1)))
  }

  lemma {:induction false} QueuedMatchesSequentialFrom(snap: seq<string>, n: nat, draw: nat -> Rgb)
    ensures QueuedFills(snap, n, draw) == SequentialFills(snap, n, draw)
    ensures forall k :: k >= n ==> Slot(SequentialFills(snap, n, draw), k) == Slot(snap, k)
  {
    if n > 0 {
      QueuedMatchesSequentialFrom(snap, n - 1, draw);
      var before := SequentialFills(snap, n - 1, draw);
      var c := RgbString(draw(n - 1));
      assert IsSet(before, n - 1) == IsSet(snap, n - 1) by {
        assert Slot(before, n - 1) == Slot(snap, n - 1);
      }
      var after := if IsSet(snap, n - 1) then before else Splice(before, n - 1, c);
      assert QueuedFills(snap, n, draw) == after;
      assert SequentialFills(snap, n, draw) == after;
      forall k | k >= n
        ensures Slot(after, k) == Slot(snap, k)
      {
        SpliceKeepsLater(before, n - 1, c, k);
      }
    }
  }

  /**
   * Checking every request against the render's snapshot, as the component
   * does, gives the same array as checking each against the current array:
   * a request only ever writes at or before its own slot.
   */
  lemma QueuedMatchesSequential(snap: seq<string>, n: nat, draw: nat -> Rgb)
    ensures QueuedFills(snap, n, draw) == SequentialFills(snap, n, draw)
  {
    QueuedMatchesSequentialFrom(snap, n, draw);
  }

  /**
   * After the requests of a render with `n` datasets, every one of the `n`
   * slots holds a colour, and every slot that held one before still holds
   * the same one.
   */
  lemma {:induction false} FillsCoverAndKeep(colors: seq<string>, n: nat, draw: nat -> Rgb)
    ensures forall k :: 0 <= k < n ==> IsSet(SequentialFills(colors, n, draw), k)
    ensures forall k :: IsSet(colors, k) ==> Slot(SequentialFills(colors, n, draw), k) == Slot(colors, k)
  {
    if n > 0 {
      FillsCoverAndKeep(colors, n - 1, draw);
      var before := SequentialFills(colors, n - 1, draw);
      if n >= 2 {
        assert IsSet(before, n - 2);
      }
      assert |before| >= n - 1;
      forall k | 0 <= k < n
        ensures IsSet(SequentialFills(colors, n, draw), k)
      {
        if k < n - 1 {
          assert IsSet(before, k);
        }
      }
    }
  }
}
