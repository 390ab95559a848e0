/**
 * Values shared by the dashboard's state engine: the listing rows a user
 * selects from, the selection entries, and the chart datasets with their
 * points.
 */
module Common {

  datatype Option<+T> = None | Some(value: T)

  datatype Result<+T, +E> = Ok(value: T) | Err(error: E)

  /** The primary key of a pair (`pair.pk`); keys are compared with `===`. */
  type PairId = int

  /** Timestamps are only passed through, so their text is all the model keeps. */
  type Timestamp = string

  /** A spread field as the server sends it: a number or null. */
  type Value = Option<real>

  /** JavaScript truthiness of a spread field: null and 0 are falsy. */
  predicate Truthy(v: Value) {
    v.Some? && v.value != 0.0
  }

  datatype Side = Buy | Sell

  /** The strings `'buy'` and `'sell'` the component uses for a side. */
  function SideName(side: Side): string {
    match side
    case Buy => "buy"
    case Sell => "sell"
  }

  datatype Pair = Pair(pk: PairId, name: string, legA: string, legB: string)

  /** A node of the listing query: one spread observation of one pair. */
  datatype Spread = Spread(id: string, pair: Pair, buySpread: Value, sellSpread: Value, timestamp: Timestamp)

  /** A selection entry `{spread, buyOrSell}`. */
  datatype Entry = Entry(spread: Spread, side: Side)

  /** The key the deselection filter compares: `(spread.pair.pk, buyOrSell)`. */
  predicate HasKey(e: Entry, pk: PairId, side: Side) {
    e.spread.pair.pk == pk && e.side == side
  }

  /** A dataset label, `"<name> (<side>)"`. */
  function Label(name: string, side: Side): string {
    name + " (" + SideName(side) + ")"
  }

  /** The label both the assembler and the live merger give an entry's dataset. */
  function EntryLabel(e: Entry): string {
    Label(e.spread.pair.name, e.side)
  }

  /** A label determines the pair name and the side it was built from. */
  lemma LabelInjective(n1: string, s1: Side, n2: string, s2: Side)
    requires Label(n1, s1) == Label(n2, s2)
    ensures n1 == n2 && s1 == s2
  {
    var l := Label(n1, s1);
    var t1, t2 := " (" + SideName(s1) + ")", " (" + SideName(s2) + ")";
    assert t1[|t1| - 2] == (if s1 == Buy then 'y' else 'l');
    assert t2[|t2| - 2] == (if s2 == Buy then 'y' else 'l');
    assert l == n1 + t1 == n2 + t2;
    assert l[|l| - 2] == t1[|t1| - 2] == t2[|t2| - 2];
    assert n1 == l[..|n1|] && n2 == l[..|n2|];
  }

  /** A chart point `{x, y}`; `y` is the formatted percentage. */
  datatype Point = Point(x: Timestamp, y: string)

  /** A chart.js dataset: its label (`title`), its points and its border colour (absent while the slot has none). */
  datatype Dataset = Dataset(title: string, points: seq<Point>, borderColor: Option<string>)

  /** `a` is `b` with some elements left out, the rest in their original order. */
  ghost predicate IsSubsequence<T>(a: seq<T>, b: seq<T>)
    decreases |b|
  {
    a == [] || (b != [] && ((a[0] == b[0] && IsSubsequence(a[1..], b[1..])) || IsSubsequence(a, b[1..])))
  }
}
