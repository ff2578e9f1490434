/** Tumbling windows without grace, as the stream processor's windowed aggregations use them.
    A record with timestamp `ts` belongs to window `ts / size` of its grouping key; the window starts at
    `(ts / size) * size`. An aggregate is a fold of an update function over the transactions of one
    window, in arrival order; the state store is a table from (key, window) to the aggregate so far.
 */
module Windowing {
  import opened Transactions

  type WindowSize = n: nat | n > 0 witness 1

  /** `Duration.ofDays(1)` and `Duration.ofDays(30)` in milliseconds. */
  const DayMillis: WindowSize := 86_400_000
  const ThirtyDayMillis: WindowSize := 30 * 86_400_000

  /** A record of the transaction-events topic: its key, its value and its timestamp (milliseconds). */
  datatype Rec = Rec(key: string, txn: CreatedTxn, ts: nat)

  /** A grouping key together with a window index. */
  datatype WindowKey = WindowKey(key: string, window: nat)

  /** How one windowed aggregation groups records: which records it takes, under which key, and into
      windows of which size. */
  datatype Grouping = Grouping(selects: Rec -> bool, keyOf: Rec -> string, size: WindowSize)

  function WindowOf(g: Grouping, r: Rec): WindowKey
  {
    WindowKey(g.keyOf(r), r.ts / g.size)
  }

  function WindowStart(size: WindowSize, window: nat): nat
  {
    window * size
  }

  lemma MulMonotone(a: nat, b: nat, c: nat)
    requires a <= b
    ensures a * c <= b * c
  {
    assert b * c == a * c + (b - a) * c;
  }

  /** A record's window is the one interval [start, start + size) that holds its timestamp. */
  lemma WindowHoldsTimestamp(size: WindowSize, ts: nat, window: nat)
    ensures window == ts / size <==> WindowStart(size, window) <= ts < WindowStart(size, window) + size
  {
    var q := ts / size;
    var m := ts % size;
    assert ts == q * size + m && 0 <= m < size;
    if window < q {
      MulMonotone(window + 1, q, size);
      assert (window + 1) * size == window * size + size;
    } else if window > q {
      MulMonotone(q + 1, window, size);
      assert (q + 1) * size == q * size + size;
    }
  }

  /** The transactions of window `wk`, in arrival order. */
  function Contents(rs: seq<Rec>, g: Grouping, wk: WindowKey): seq<CreatedTxn>
  {
    if rs == [] then []
    else
      var last := rs[|rs| - 1];
      Contents(rs[..|rs| - 1], g, wk) + (if g.selects(last) && WindowOf(g, last) == wk then [last.txn] else [])
  }

  /** A selected record joins exactly one window: its own. Every other window is left as it was. */
  lemma RecordJoinsOneWindow(rs: seq<Rec>, g: Grouping, r: Rec, wk: WindowKey)
    ensures g.selects(r) && wk == WindowOf(g, r) ==> Contents(rs + [r], g, wk) == Contents(rs, g, wk) + [r.txn]
    ensures !(g.selects(r) && wk == WindowOf(g, r)) ==> Contents(rs + [r], g, wk) == Contents(rs, g, wk)
  {
    assert (rs + [r])[..|rs|] == rs;
  }

  /** The transactions of a record sequence. */
  function Txns(rs: seq<Rec>): (s: seq<CreatedTxn>)
    ensures |s| == |rs| && forall i :: 0 <= i < |rs| ==> s[i] == rs[i].txn
  {
    if rs == [] then [] else Txns(rs[..|rs| - 1]) + [rs[|rs| - 1].txn]
  }

  /** When every record is selected and falls into window `wk`, the window holds all of them. */
  lemma {:induction false} WholeStreamInOneWindow(rs: seq<Rec>, g: Grouping, wk: WindowKey)
    requires forall i :: 0 <= i < |rs| ==> g.selects(rs[i]) && WindowOf(g, rs[i]) == wk
    ensures Contents(rs, g, wk) == Txns(rs)
  {
    if rs != [] {
      WholeStreamInOneWindow(rs[..|rs| - 1], g, wk);
    }
  }

  /** The aggregate of a sequence: the update applied to each transaction in turn, from `init`. */
  function Fold<A>(init: A, f: (A, CreatedTxn) -> A, s: seq<CreatedTxn>): A
  {
    if s == [] then init else f(Fold(init, f, s[..|s| - 1]), s[|s| - 1])
  }

  /** A state-store read: a window not yet in the table holds the initial aggregate. */
  function Lookup<A>(table: map<WindowKey, A>, wk: WindowKey, init: A): A
  {
    if wk in table then table[wk] else init
  }

  /** The state store after the records `rs`: every window holds the fold over its transactions. */
  ghost predicate Mirrors<A>(table: map<WindowKey, A>, rs: seq<Rec>, g: Grouping, init: A, f: (A, CreatedTxn) -> A)
  {
    forall wk :: Lookup(table, wk, init) == Fold(init, f, Contents(rs, g, wk))
  }

  /** The state-store write for one record: a selected record replaces its window's aggregate by the
      update of it; every other entry stays. */
  function Advance<A>(table: map<WindowKey, A>, g: Grouping, init: A, f: (A, CreatedTxn) -> A, r: Rec): (next: map<WindowKey, A>)
    ensures forall wk :: wk != WindowOf(g, r) ==> Lookup(next, wk, init) == Lookup(table, wk, init)
    ensures g.selects(r) ==> Lookup(next, WindowOf(g, r), init) == f(Lookup(table, WindowOf(g, r), init), r.txn)
    ensures !g.selects(r) ==> next == table
  {
    if g.selects(r) then
      var wk := WindowOf(g, r);
      table[wk := f(Lookup(table, wk, init), r.txn)]
    else
      table
  }

  /** Processing one more record keeps the state store equal to the per-window folds. */
  lemma AdvanceMirrors<A>(table: map<WindowKey, A>, rs: seq<Rec>, g: Grouping, init: A, f: (A, CreatedTxn) -> A, r: Rec)
    requires Mirrors(table, rs, g, init, f)
    ensures Mirrors(Advance(table, g, init, f, r), rs + [r], g, init, f)
  {
    var next := Advance(table, g, init, f, r);
    forall wk
      ensures Lookup(next, wk, init) == Fold(init, f, Contents(rs + [r], g, wk))
    {
      RecordJoinsOneWindow(rs, g, r, wk);
      var c := Contents(rs, g, wk);
      if g.selects(r) && wk == WindowOf(g, r) {
        assert (c + [r.txn])[..|c|] == c;
      }
    }
  }

  /** The empty state store mirrors the empty stream. */
  lemma EmptyMirrors<A>(g: Grouping, init: A, f: (A, CreatedTxn) -> A)
    ensures Mirrors(map[], [], g, init, f)
  {
  }
}
