/**
 * The loop over the subtrees in the parallel construction, with its atomic additions in any order.
 *
 * An iteration adds its subtree's counts to the shared ones by fetch-and-add, one counter at a time. A run of the
 * loop is any order in which every iteration has made each of its additions once.
 */
module ParallelStats {
  import opened TreeStats

  /** The five counters of a row, and a counter of the whole tree. */
  datatype Counter = Internals | Leaves | Keys | KeysInLeaves | KeysInInternals
  datatype Cell = OfRow(d: nat, counter: Counter) | KeySum

  /** Iteration `i` adds to `cell`. */
  datatype Addition = Addition(i: nat, cell: Cell)

  function Count(row: Row, counter: Counter): nat {
    match counter
    case Internals => row.internals
    case Leaves => row.leaves
    case Keys => row.keys
    case KeysInLeaves => row.keysInLeaves
    case KeysInInternals => row.keysInInternals
  }

  /** What the statistics of `ts`, a level at depth `c`, add to a shared counter. */
  function Amount(ts: seq<Tree>, c: nat, cell: Cell): nat
    requires c <= MAX_HEIGHT
  {
    match cell
    case OfRow(d, counter) => Count(Share(ts, c, UNLIMITED, d), counter)
    case KeySum => SumAbove(ts, MAX_HEIGHT - c)
  }

  /** A counter after the additions, made in this order. */
  function After(start: nat, parts: seq<Tree>, c: nat, run: seq<Addition>, cell: Cell): nat
    requires c <= MAX_HEIGHT
    decreases |run|
  {
    if run == [] then start else
    var last := run[|run| - 1];
    var before := After(start, parts, c, run[..|run| - 1], cell);
    if last.cell == cell && last.i < |parts| then before + Amount([parts[last.i]], c, cell) else before
  }

  /** The counters an iteration adds to: the rows from the cut down, and the key sum. */
  predicate Touched(c: nat, cell: Cell) {
    cell.OfRow? ==> c <= cell.d < MAX_HEIGHT
  }

  /** Each of `n` iterations has made each of its additions exactly once. */
  ghost predicate OnceEach(run: seq<Addition>, n: nat, c: nat) {
    forall i: nat, cell :: multiset(run)[Addition(i, cell)] == if i < n && Touched(c, cell) then 1 else 0
  }

  lemma AmountJoin(a: seq<Tree>, b: seq<Tree>, c: nat, cell: Cell)
    requires c <= MAX_HEIGHT
    ensures Amount(a + b, c, cell) == Amount(a, c, cell) + Amount(b, c, cell)
  {
    hide Share, SumAbove;
    match cell
    case OfRow(d, counter) => ShareJoin(a, b, c, UNLIMITED, d);
    case KeySum => SumJoin(a, b, MAX_HEIGHT - c);
  }

  lemma AmountNone(c: nat, cell: Cell)
    requires c <= MAX_HEIGHT
    ensures Amount([], c, cell) == 0
  {
    hide Share, SumAbove;
    match cell
    case OfRow(d, counter) => ShareNone(c, UNLIMITED, d);
    case KeySum => ShareNone(0, 0, MAX_HEIGHT - c);
  }

  /** `k` additions of `x`. */
  function Times(k: nat, x: nat): nat { k * x }

  lemma TimesMore(k: nat, x: nat)
    ensures Times(k + 1, x) == Times(k, x) + x && Times(0, x) == 0 && Times(1, x) == x
  {}

  /** What the additions made to `cell` by the first `n` iterations come to. */
  function Made(parts: seq<Tree>, c: nat, made: multiset<Addition>, cell: Cell, n: nat): nat
    requires c <= MAX_HEIGHT && n <= |parts|
  {
    if n == 0 then 0 else Made(parts, c, made, cell, n - 1) + Times(made[Addition(n - 1, cell)], Amount([parts[n - 1]], c, cell))
  }

  lemma {:induction false} MadeMore(parts: seq<Tree>, c: nat, made: multiset<Addition>, more: Addition, cell: Cell, n: nat)
    requires c <= MAX_HEIGHT && n <= |parts|
    ensures Made(parts, c, made + multiset{more}, cell, n)
         == Made(parts, c, made, cell, n) + if more.cell == cell && more.i < n then Amount([parts[more.i]], c, cell) else 0
  {
    hide Amount, Times;
    if n > 0 {
      MadeMore(parts, c, made, more, cell, n - 1);
      TimesMore(made[Addition(n - 1, cell)], Amount([parts[n - 1]], c, cell));
    }
  }

  lemma {:induction false} MadeNone(parts: seq<Tree>, c: nat, cell: Cell, n: nat)
    requires c <= MAX_HEIGHT && n <= |parts|
    ensures Made(parts, c, multiset{}, cell, n) == 0
  {
    hide Amount, Times;
    if n > 0 {
      MadeNone(parts, c, cell, n - 1);
      TimesMore(0, Amount([parts[n - 1]], c, cell));
    }
  }

  lemma {:induction false} MadeAll(parts: seq<Tree>, c: nat, made: multiset<Addition>, cell: Cell, n: nat)
    requires c <= MAX_HEIGHT && n <= |parts| && forall i: nat :: i < n ==> made[Addition(i, cell)] == 1
    ensures Made(parts, c, made, cell, n) == Amount(parts[..n], c, cell)
  {
    hide Amount, Times;
    if n == 0 {
      AmountNone(c, cell);
    } else {
      MadeAll(parts, c, made, cell, n - 1);
      TimesMore(0, Amount([parts[n - 1]], c, cell));
      assert parts[..n] == parts[..n - 1] + [parts[n - 1]];
      AmountJoin(parts[..n - 1], [parts[n - 1]], c, cell);
    }
  }

  /** Whatever the order, a counter has grown by what has been added to it. */
  lemma {:induction false} AfterIs(start: nat, parts: seq<Tree>, c: nat, run: seq<Addition>, cell: Cell)
    requires c <= MAX_HEIGHT
    ensures After(start, parts, c, run, cell) == start + Made(parts, c, multiset(run), cell, |parts|)
    decreases |run|
  {
    hide Amount;
    if run == [] {
      MadeNone(parts, c, cell, |parts|);
    } else {
      var n := |run| - 1;
      assert run == run[..n] + [run[n]];
      AfterIs(start, parts, c, run[..n], cell);
      MadeMore(parts, c, multiset(run[..n]), run[n], cell, |parts|);
    }
  }

  /** Every order of the additions leaves in each counter what the whole level adds to it. */
  lemma EveryOrderAdds(start: nat, parts: seq<Tree>, c: nat, run: seq<Addition>, cell: Cell)
    requires c <= MAX_HEIGHT && OnceEach(run, |parts|, c) && Touched(c, cell)
    ensures After(start, parts, c, run, cell) == start + Amount(parts, c, cell)
  {
    hide Amount;
    AfterIs(start, parts, c, run, cell);
    MadeAll(parts, c, multiset(run), cell, |parts|);
    assert parts[..|parts|] == parts;
  }

  lemma {:induction false} Untouched(start: nat, parts: seq<Tree>, c: nat, run: seq<Addition>, cell: Cell)
    requires c <= MAX_HEIGHT && forall j :: 0 <= j < |run| ==> run[j].cell != cell
    ensures After(start, parts, c, run, cell) == start
    decreases |run|
  {
    if run != [] { Untouched(start, parts, c, run[..|run| - 1], cell); }
  }

  lemma NotAmong(run: seq<Addition>, n: nat, c: nat, cell: Cell)
    requires OnceEach(run, n, c) && !Touched(c, cell)
    ensures forall j :: 0 <= j < |run| ==> run[j].cell != cell
  {
    forall j | 0 <= j < |run| ensures run[j].cell != cell { assert run[j] in multiset(run) && run[j] == Addition(run[j].i, run[j].cell); }
  }

  /** What the top of the tree, above the cut, adds to a counter. */
  function TopAmount(root: Tree, c: nat, cell: Cell): nat {
    if c == 0 then 0 else
    match cell
    case OfRow(d, counter) => Count(Share([root], 0, c - 1, d), counter)
    case KeySum => SumAbove([root], c)
  }

  /** The counters of the whole tree. */
  function TreeAmount(root: Tree, cell: Cell): nat {
    match cell
    case OfRow(d, counter) => Count(RowAt([root], d), counter)
    case KeySum => SumAbove([root], MAX_HEIGHT)
  }

  /** Cut anywhere, with the additions of the subtrees in any order, the counters come to those of the whole tree. */
  lemma EveryOrderIsSequential(root: Tree, c: nat, run: seq<Addition>, cell: Cell)
    requires c <= MAX_HEIGHT && OnceEach(run, |Level([root], c)|, c) && (cell.OfRow? ==> cell.d < MAX_HEIGHT)
    ensures After(0, Level([root], c), c, run, cell) + TopAmount(root, c, cell) == TreeAmount(root, cell)
  {
    hide Share, SumAbove, RowAt, Level;
    var parts := Level([root], c);
    if Touched(c, cell) {
      EveryOrderAdds(0, parts, c, run, cell);
    } else {
      NotAmong(run, |parts|, c, cell);
      Untouched(0, parts, c, run, cell);
      ShareIs(parts, c, UNLIMITED, cell.d);
    }
    if c == 0 { LevelZero(root); }
    match cell
    case OfRow(d, counter) => {
      ShareIs([root], 0, UNLIMITED, d);
      if c > 0 {
        var mid := Plus(ZERO, Share(parts, c, UNLIMITED, d));
        AssembledRow(root, c, d, mid, Plus(mid, Share([root], 0, c - 1, d)));
      }
    }
    case KeySum => SumOfLevel([root], c, MAX_HEIGHT - c);
  }
}
