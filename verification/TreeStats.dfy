/**
 * Statistics of a tree by depth: the recursion over the tree, and the parallel construction that cuts the
 * tree at one depth, computes the subtrees below the cut on their own and adds them to the top.
 *
 * The five counts kept per depth are one row. Counts do not wrap around. What is to be computed is defined
 * level by level, without recursion over trees.
 */
module TreeStats {

  const MAX_HEIGHT: nat := 1024
  const UNLIMITED: nat := 0xffff_ffff_ffff_ffff

  datatype Tree = Null | Leaf(numKeys: nat, keySum: nat) | Internal(numKeys: nat, keySum: nat, children: Children)

  /** Children in the order of the child iterator. */
  datatype Children = End | Child(first: Tree, rest: Children)

  datatype Row = Row(internals: nat, leaves: nat, keys: nat, keysInLeaves: nat, keysInInternals: nat)

  const ZERO := Row(0, 0, 0, 0, 0)

  function Plus(a: Row, b: Row): Row {
    Row(a.internals + b.internals, a.leaves + b.leaves, a.keys + b.keys, a.keysInLeaves + b.keysInLeaves, a.keysInInternals + b.keysInInternals)
  }

  lemma PlusLaws(a: Row, b: Row, c: Row)
    ensures Plus(a, ZERO) == a && Plus(ZERO, a) == a && Plus(Plus(a, b), c) == Plus(a, Plus(b, c))
  {}

  function Listed(c: Children): seq<Tree> { if c.End? then [] else [c.first] + Listed(c.rest) }

  function Kids(t: Tree): seq<Tree> { if t.Internal? then Listed(t.children) else [] }

  /** A node's own contribution. */
  function Own(t: Tree): Row {
    match t
    case Null => ZERO
    case Leaf(n, _) => Row(0, 1, n, n, 0)
    case Internal(n, _, _) => Row(1, 0, n, 0, n)
  }

  function OwnSum(t: Tree): nat { if t.Null? then 0 else t.keySum }

  // ---------------------------------------------------------------- what is to be computed

  function Owns(ts: seq<Tree>): Row {
    if ts == [] then ZERO else Plus(Own(ts[0]), Owns(ts[1..]))
  }

  function OwnSums(ts: seq<Tree>): nat {
    if ts == [] then 0 else OwnSum(ts[0]) + OwnSums(ts[1..])
  }

  /** The children of a level, from left to right, null ones included. */
  function Below(ts: seq<Tree>): seq<Tree> {
    if ts == [] then [] else Kids(ts[0]) + Below(ts[1..])
  }

  /** The level `c` levels further down. */
  function Level(ts: seq<Tree>, c: nat): seq<Tree>
    decreases c
  {
    if c == 0 then ts else Level(Below(ts), c - 1)
  }

  /** The row of depth `d` of the trees `ts`. */
  function RowAt(ts: seq<Tree>, d: nat): Row {
    Owns(Level(ts, d))
  }

  /** The sum of the keys at depths less than `n`. */
  function SumAbove(ts: seq<Tree>, n: nat): nat
    decreases n
  {
    if n == 0 then 0 else OwnSums(ts) + SumAbove(Below(ts), n - 1)
  }

  /** No nodes from depth `n` on. */
  predicate Fits(ts: seq<Tree>, n: nat) {
    AllNull(Level(ts, n))
  }

  // ---------------------------------------------------------------- levels

  lemma {:induction false} BelowJoin(a: seq<Tree>, b: seq<Tree>)
    ensures Below(a + b) == Below(a) + Below(b)
  {
    if a == [] {
      assert a + b == b;
    } else {
      assert (a + b)[1..] == a[1..] + b;
      BelowJoin(a[1..], b);
    }
  }

  lemma {:induction false} LevelJoin(a: seq<Tree>, b: seq<Tree>, c: nat)
    ensures Level(a + b, c) == Level(a, c) + Level(b, c)
    decreases c
  {
    if c > 0 {
      BelowJoin(a, b);
      LevelJoin(Below(a), Below(b), c - 1);
    }
  }

  lemma {:induction false} LevelOfLevel(ts: seq<Tree>, c: nat, d: nat)
    ensures Level(Level(ts, c), d) == Level(ts, c + d)
    decreases c
  {
    if c > 0 { LevelOfLevel(Below(ts), c - 1, d); }
  }

  lemma {:induction false} OwnsJoin(a: seq<Tree>, b: seq<Tree>)
    ensures Owns(a + b) == Plus(Owns(a), Owns(b))
  {
    hide Plus, Own;
    if a == [] {
      assert a + b == b;
      PlusLaws(Owns(b), ZERO, ZERO);
    } else {
      assert (a + b)[1..] == a[1..] + b;
      OwnsJoin(a[1..], b);
      PlusLaws(Own(a[0]), Owns(a[1..]), Owns(b));
    }
  }

  lemma {:induction false} OwnSumsJoin(a: seq<Tree>, b: seq<Tree>)
    ensures OwnSums(a + b) == OwnSums(a) + OwnSums(b)
  {
    if a == [] {
      assert a + b == b;
    } else {
      assert (a + b)[1..] == a[1..] + b;
      OwnSumsJoin(a[1..], b);
    }
  }

  lemma RowJoin(a: seq<Tree>, b: seq<Tree>, d: nat)
    ensures RowAt(a + b, d) == Plus(RowAt(a, d), RowAt(b, d))
  {
    LevelJoin(a, b, d);
    OwnsJoin(Level(a, d), Level(b, d));
  }

  lemma {:induction false} SumJoin(a: seq<Tree>, b: seq<Tree>, n: nat)
    ensures SumAbove(a + b, n) == SumAbove(a, n) + SumAbove(b, n)
    decreases n
  {
    hide Below, OwnSums;
    if n > 0 {
      OwnSumsJoin(a, b);
      BelowJoin(a, b);
      SumJoin(Below(a), Below(b), n - 1);
    }
  }

  lemma BelowOne(t: Tree)
    ensures Below([t]) == Kids(t) && Owns([t]) == Own(t) && OwnSums([t]) == OwnSum(t)
  {
    hide Plus, Own;
    assert [t][1..] == [];
    PlusLaws(Own(t), ZERO, ZERO);
  }

  /** Depth `c + d` of a tree is depth `d` of the subtrees at depth `c`. */
  lemma RowOfLevel(ts: seq<Tree>, c: nat, d: nat)
    ensures RowAt(ts, c + d) == RowAt(Level(ts, c), d)
  {
    LevelOfLevel(ts, c, d);
  }

  /** The keys above a cut and those of the subtrees below it are all the keys. */
  lemma {:induction false} SumOfLevel(ts: seq<Tree>, c: nat, n: nat)
    ensures SumAbove(ts, c + n) == SumAbove(ts, c) + SumAbove(Level(ts, c), n)
    decreases c
  {
    if c > 0 { SumOfLevel(Below(ts), c - 1, n); }
  }

  lemma FitsJoin(a: seq<Tree>, b: seq<Tree>, n: nat)
    ensures Fits(a + b, n) <==> Fits(a, n) && Fits(b, n)
  {
    LevelJoin(a, b, n);
  }

  predicate AllNull(ts: seq<Tree>) {
    forall t :: t in ts ==> t.Null?
  }

  lemma NullTail(ts: seq<Tree>)
    requires AllNull(ts) && ts != []
    ensures ts[0] == Null && AllNull(ts[1..])
  {
    assert ts[0] in ts;
  }

  lemma {:induction false} NullsBelow(ts: seq<Tree>)
    requires AllNull(ts)
    ensures Below(ts) == []
  {
    hide AllNull;
    if ts != [] {
      NullTail(ts);
      NullsBelow(ts[1..]);
    }
  }

  lemma {:induction false} NullsOwn(ts: seq<Tree>)
    requires AllNull(ts)
    ensures Owns(ts) == ZERO
  {
    hide AllNull, Plus;
    if ts != [] {
      NullTail(ts);
      NullsOwn(ts[1..]);
      PlusLaws(Own(Null), Owns(ts[1..]), Owns(ts[1..]));
    }
  }

  lemma {:induction false} NullsSum(ts: seq<Tree>)
    requires AllNull(ts)
    ensures OwnSums(ts) == 0
  {
    hide AllNull;
    if ts != [] {
      NullTail(ts);
      NullsSum(ts[1..]);
    }
  }

  lemma NullsSumAbove(ts: seq<Tree>, n: nat)
    requires AllNull(ts)
    ensures SumAbove(ts, n) == 0
  {
    hide AllNull;
    NullsBelow(ts);
    NullsSum(ts);
    if n > 0 { NothingBelow(n - 1); }
  }

  lemma {:induction false} NothingBelow(n: nat)
    ensures Level([], n) == [] && SumAbove([], n) == 0
  {
    if n > 0 { NothingBelow(n - 1); }
  }

  /** Past its height a tree has no rows. */
  lemma RowBeyond(ts: seq<Tree>, n: nat, d: nat)
    requires Fits(ts, n) && d >= n
    ensures RowAt(ts, d) == ZERO && Fits(ts, d)
  {
    var below := Level(ts, n);
    LevelOfLevel(ts, n, d - n);
    if d == n {
      NullsOwn(below);
    } else {
      NullsBelow(below);
      NothingBelow(d - n - 1);
      NullsOwn([]);
    }
  }

  lemma SumBeyond(ts: seq<Tree>, n: nat, m: nat)
    requires Fits(ts, n) && m >= n
    ensures SumAbove(ts, m) == SumAbove(ts, n)
  {
    hide SumAbove, Level;
    SumOfLevel(ts, n, m - n);
    NullsSumAbove(Level(ts, n), m - n);
  }

  // ---------------------------------------------------------------- what the counts of a row are

  /** The positions of the leaves, and of the internal nodes, among `ts`. */
  ghost function LeavesOf(ts: seq<Tree>): set<nat> { set i | 0 <= i < |ts| && ts[i].Leaf? }
  ghost function InternalsOf(ts: seq<Tree>): set<nat> { set i | 0 <= i < |ts| && ts[i].Internal? }

  /** The keys held at the positions in `at`. */
  ghost function KeysAt(ts: seq<Tree>, at: set<nat>): nat {
    if ts == [] then 0
    else KeysAt(ts[..|ts| - 1], at) + if |ts| - 1 in at && !ts[|ts| - 1].Null? then ts[|ts| - 1].numKeys else 0
  }

  lemma {:induction false} KeysWithin(ts: seq<Tree>, a: set<nat>, b: set<nat>)
    requires forall i: nat :: i < |ts| ==> (i in a <==> i in b)
    ensures KeysAt(ts, a) == KeysAt(ts, b)
  {
    if ts != [] { KeysWithin(ts[..|ts| - 1], a, b); }
  }

  /** What the last node adds. */
  lemma OneMore(ts: seq<Tree>)
    requires ts != []
    ensures var n := |ts| - 1;
      && LeavesOf(ts) == LeavesOf(ts[..n]) + (if ts[n].Leaf? then {n} else {}) && |LeavesOf(ts)| == |LeavesOf(ts[..n])| + (if ts[n].Leaf? then 1 else 0)
      && InternalsOf(ts) == InternalsOf(ts[..n]) + (if ts[n].Internal? then {n} else {}) && |InternalsOf(ts)| == |InternalsOf(ts[..n])| + (if ts[n].Internal? then 1 else 0)
  {
    var n := |ts| - 1;
    MoreLeaves(ts, n);
    MoreInternals(ts, n);
    Larger(LeavesOf(ts[..n]), n);
    Larger(InternalsOf(ts[..n]), n);
    hide LeavesOf, InternalsOf;
  }

  lemma Larger(a: set<nat>, n: nat)
    ensures n !in a ==> |a + {n}| == |a| + 1
    ensures a + {} == a
  {}

  lemma MoreLeaves(ts: seq<Tree>, n: nat)
    requires n + 1 == |ts|
    ensures LeavesOf(ts) == LeavesOf(ts[..n]) + (if ts[n].Leaf? then {n} else {}) && n !in LeavesOf(ts[..n])
  {}

  lemma MoreInternals(ts: seq<Tree>, n: nat)
    requires n + 1 == |ts|
    ensures InternalsOf(ts) == InternalsOf(ts[..n]) + (if ts[n].Internal? then {n} else {}) && n !in InternalsOf(ts[..n])
  {}

  lemma KeysMore(ts: seq<Tree>)
    requires ts != []
    ensures var n := |ts| - 1;
      && KeysAt(ts, LeavesOf(ts)) == KeysAt(ts[..n], LeavesOf(ts[..n])) + (if ts[n].Leaf? then ts[n].numKeys else 0)
      && KeysAt(ts, InternalsOf(ts)) == KeysAt(ts[..n], InternalsOf(ts[..n])) + (if ts[n].Internal? then ts[n].numKeys else 0)
  {
    var n := |ts| - 1;
    OneMore(ts);
    KeysWithin(ts[..n], LeavesOf(ts), LeavesOf(ts[..n]));
    KeysWithin(ts[..n], InternalsOf(ts), InternalsOf(ts[..n]));
  }

  lemma OwnsLast(ts: seq<Tree>)
    requires ts != []
    ensures Owns(ts) == Plus(Owns(ts[..|ts| - 1]), Own(ts[|ts| - 1]))
  {
    hide Plus, Own;
    assert ts == ts[..|ts| - 1] + [ts[|ts| - 1]];
    OwnsJoin(ts[..|ts| - 1], [ts[|ts| - 1]]);
    BelowOne(ts[|ts| - 1]);
  }

  lemma {:induction false} OwnsCount(ts: seq<Tree>)
    ensures var a, b := KeysAt(ts, LeavesOf(ts)), KeysAt(ts, InternalsOf(ts)); Owns(ts) == Row(|InternalsOf(ts)|, |LeavesOf(ts)|, a + b, a, b)
  {
    if ts == [] {
      assert LeavesOf(ts) == {} && InternalsOf(ts) == {};
    } else {
      OwnsCount(ts[..|ts| - 1]);
      OwnsLast(ts);
      OneMore(ts);
      KeysMore(ts);
      hide Owns, LeavesOf, InternalsOf, KeysAt;
    }
  }

  /** The five counts of row `d`: the internal nodes and the leaves of the level at depth `d`, and the keys in them. */
  lemma RowCounts(ts: seq<Tree>, d: nat)
    ensures var level, row := Level(ts, d), RowAt(ts, d);
      && row.internals == |set i | 0 <= i < |level| && level[i].Internal?|
      && row.leaves == |set i | 0 <= i < |level| && level[i].Leaf?|
      && row.keysInInternals == KeysAt(level, set i | 0 <= i < |level| && level[i].Internal?)
      && row.keysInLeaves == KeysAt(level, set i | 0 <= i < |level| && level[i].Leaf?)
      && row.keys == row.keysInInternals + row.keysInLeaves
  {
    var level := Level(ts, d);
    OwnsCount(level);
    assert InternalsOf(level) == set i | 0 <= i < |level| && level[i].Internal?;
    assert LeavesOf(level) == set i | 0 <= i < |level| && level[i].Leaf?;
    hide Level, Owns;
  }

  /** The sum of the keys in the nodes of a level. */
  ghost function KeySums(ts: seq<Tree>): nat {
    if ts == [] then 0 else KeySums(ts[..|ts| - 1]) + if ts[|ts| - 1].Null? then 0 else ts[|ts| - 1].keySum
  }

  lemma {:induction false} OwnSumsCount(ts: seq<Tree>)
    ensures OwnSums(ts) == KeySums(ts)
    decreases |ts|
  {
    if ts != [] {
      var n := |ts| - 1;
      OwnSumsCount(ts[..n]);
      assert ts == ts[..n] + [ts[n]];
      OwnSumsJoin(ts[..n], [ts[n]]);
      BelowOne(ts[n]);
      hide OwnSums;
    }
  }

  /** The key sum is the sum of the keys of the levels. */
  lemma SumCounts(ts: seq<Tree>, n: nat)
    ensures SumAbove(ts, 0) == 0 && SumAbove(ts, n + 1) == SumAbove(ts, n) + KeySums(Level(ts, n))
  {
    SumOfLevel(ts, n, 1);
    OwnSumsCount(Level(ts, n));
    assert SumAbove(Level(ts, n), 1) == OwnSums(Level(ts, n)) + SumAbove(Below(Level(ts, n)), 0);
  }

  // ---------------------------------------------------------------- one node and its children

  /** What the trees `ts`, rooted at `depth`, add to row `d` when depths past `maxDepth` are left out. */
  function Share(ts: seq<Tree>, depth: nat, maxDepth: nat, d: nat): Row {
    if depth <= d <= maxDepth then RowAt(ts, d - depth) else ZERO
  }

  function Span(depth: nat, maxDepth: nat): nat {
    if depth <= maxDepth then maxDepth + 1 - depth else 0
  }

  lemma ShareNode(t: Tree, depth: nat, maxDepth: nat, d: nat)
    requires depth <= maxDepth
    ensures Share([t], depth, maxDepth, d) == Plus(if d == depth then Own(t) else ZERO, Share(Kids(t), depth + 1, maxDepth, d))
  {
    BelowOne(t);
    hide Plus, Own;
    PlusLaws(Own(t), ZERO, ZERO);
    PlusLaws(RowAt(Kids(t), if d > depth then d - depth - 1 else 0), ZERO, ZERO);
    PlusLaws(ZERO, ZERO, ZERO);
  }

  lemma SumNode(t: Tree, depth: nat, maxDepth: nat)
    requires depth <= maxDepth
    ensures SumAbove([t], Span(depth, maxDepth)) == OwnSum(t) + SumAbove(Kids(t), Span(depth + 1, maxDepth))
  {
    BelowOne(t);
    hide Below, Kids, OwnSum, OwnSums, Owns, Own;
  }

  lemma ShareJoin(a: seq<Tree>, b: seq<Tree>, depth: nat, maxDepth: nat, d: nat)
    ensures Share(a + b, depth, maxDepth, d) == Plus(Share(a, depth, maxDepth, d), Share(b, depth, maxDepth, d))
  {
    hide Plus;
    PlusLaws(ZERO, ZERO, ZERO);
    if depth <= d { RowJoin(a, b, d - depth); }
  }

  lemma ShareNone(depth: nat, maxDepth: nat, d: nat)
    ensures Share([], depth, maxDepth, d) == ZERO && SumAbove([], d) == 0
  {
    NothingBelow(d);
    if depth <= d { NothingBelow(d - depth); }
  }

  /** A node that is not null lies above the height; its children fit below it. */
  lemma FitsNode(t: Tree, n: nat)
    requires Fits([t], n) && !t.Null?
    ensures n > 0 && Fits(Kids(t), n - 1)
  {
    assert t in [t];
    BelowOne(t);
  }

  lemma FitsNull(n: nat)
    ensures Fits([Null], n)
  {
    assert AllNull([Null]);
    RowBeyond([Null], 0, n);
  }

  function Size(t: Tree): nat
    decreases t
  { if t.Internal? then 1 + SizeOf(t.children) else 1 }

  function SizeOf(c: Children): nat
    decreases c
  { if c.End? then 0 else 1 + Size(c.first) + SizeOf(c.rest) }

  // ---------------------------------------------------------------- the recursion over a tree

  ghost predicate Grown(was: seq<Row>, rows: seq<Row>, ts: seq<Tree>, depth: nat, maxDepth: nat) {
    |was| == |rows| == MAX_HEIGHT && forall d :: 0 <= d < MAX_HEIGHT ==> rows[d] == Plus(was[d], Share(ts, depth, maxDepth, d))
  }

  lemma GrownNone(was: seq<Row>, depth: nat, maxDepth: nat)
    requires |was| == MAX_HEIGHT
    ensures Grown(was, was, [], depth, maxDepth)
  {
    forall d | 0 <= d < MAX_HEIGHT ensures was[d] == Plus(was[d], Share([], depth, maxDepth, d)) {
      ShareNone(depth, maxDepth, d);
      hide Plus, Share;
      PlusLaws(was[d], ZERO, ZERO);
    }
  }

  lemma GrownMore(was: seq<Row>, mid: seq<Row>, rows: seq<Row>, a: seq<Tree>, b: seq<Tree>, depth: nat, maxDepth: nat)
    requires Grown(was, mid, a, depth, maxDepth) && Grown(mid, rows, b, depth, maxDepth)
    ensures Grown(was, rows, a + b, depth, maxDepth)
  {
    forall d | 0 <= d < MAX_HEIGHT ensures rows[d] == Plus(was[d], Share(a + b, depth, maxDepth, d)) {
      ShareJoin(a, b, depth, maxDepth, d);
      hide Plus, Share;
      PlusLaws(was[d], Share(a, depth, maxDepth, d), Share(b, depth, maxDepth, d));
    }
  }

  /** Own row first, children after. */
  lemma GrownNode(was: seq<Row>, rows: seq<Row>, t: Tree, depth: nat, maxDepth: nat)
    requires depth < MAX_HEIGHT == |was| && depth <= maxDepth && Grown(was[depth := Plus(was[depth], Own(t))], rows, Kids(t), depth + 1, maxDepth)
    ensures Grown(was, rows, [t], depth, maxDepth)
  {
    forall d | 0 <= d < MAX_HEIGHT ensures rows[d] == Plus(was[d], Share([t], depth, maxDepth, d)) {
      ShareNode(t, depth, maxDepth, d);
      hide Plus, Share, Own;
      PlusLaws(was[d], Own(t), Share(Kids(t), depth + 1, maxDepth, d));
      PlusLaws(was[d], ZERO, Share(Kids(t), depth + 1, maxDepth, d));
    }
  }

  class Stats {
    var rows: array<Row>
    var sumOfKeys: nat

    /** computeStats adds the tree's rows, as far down as asked for, and their keys. */
    method ComputeStats(node: Tree, depth: nat, maxDepth: nat)
      requires rows.Length == MAX_HEIGHT && depth <= MAX_HEIGHT && Fits([node], MAX_HEIGHT - depth)
      modifies this`sumOfKeys, rows
      ensures Grown(old(rows[..]), rows[..], [node], depth, maxDepth)
      ensures sumOfKeys == old(sumOfKeys) + SumAbove([node], Span(depth, maxDepth))
      decreases Size(node)
    {
      ghost var was := rows[..];
      if node.Null? || depth > maxDepth {
        Nothing(node, was, depth, maxDepth);
        return;
      }
      FitsNode(node, MAX_HEIGHT - depth);
      var numKeys := node.numKeys;
      rows[depth] := rows[depth].(keys := rows[depth].keys + numKeys);
      sumOfKeys := sumOfKeys + node.keySum;
      if node.Leaf? {
        rows[depth] := rows[depth].(leaves := rows[depth].leaves + 1, keysInLeaves := rows[depth].keysInLeaves + numKeys);
      } else {
        rows[depth] := rows[depth].(internals := rows[depth].internals + 1, keysInInternals := rows[depth].keysInInternals + numKeys);
      }
      assert rows[..] == was[depth := Plus(was[depth], Own(node))];
      SumNode(node, depth, maxDepth);
      ComputeChildren(node, depth, maxDepth);
      GrownNode(was, rows[..], node, depth, maxDepth);
    }

    /** The loop over the children of an internal node; a leaf has none. */
    method ComputeChildren(node: Tree, depth: nat, maxDepth: nat)
      requires rows.Length == MAX_HEIGHT && depth < MAX_HEIGHT && Fits(Kids(node), MAX_HEIGHT - depth - 1)
      modifies this`sumOfKeys, rows
      ensures Grown(old(rows[..]), rows[..], Kids(node), depth + 1, maxDepth)
      ensures sumOfKeys == old(sumOfKeys) + SumAbove(Kids(node), Span(depth + 1, maxDepth))
      decreases Size(node), 0
    {
      hide SumAbove, Grown, Fits;
      ghost var was, done := rows[..], [];
      GrownNone(was, depth + 1, maxDepth);
      ShareNone(0, 0, Span(depth + 1, maxDepth));
      var it := if node.Internal? then node.children else End;
      while it.Child?
        invariant SizeOf(it) < Size(node) && done + Listed(it) == Kids(node)
        invariant Grown(was, rows[..], done, depth + 1, maxDepth) && sumOfKeys == old(sumOfKeys) + SumAbove(done, Span(depth + 1, maxDepth))
        decreases it
      {
        ghost var mid := rows[..];
        NextChild(done, it.first, Listed(it.rest), Kids(node), MAX_HEIGHT - depth - 1);
        ComputeStats(it.first, depth + 1, maxDepth);
        GrownMore(was, mid, rows[..], done, [it.first], depth + 1, maxDepth);
        SumJoin(done, [it.first], Span(depth + 1, maxDepth));
        done := done + [it.first];
        it := it.rest;
      }
      assert done == Kids(node);
    }

    /** The sequential constructor. */
    constructor Sequential(root: Tree)
      requires Fits([root], MAX_HEIGHT)
      ensures rows.Length == MAX_HEIGHT && fresh(rows) && sumOfKeys == SumAbove([root], MAX_HEIGHT)
      ensures Complete(rows[..], root)
    {
      rows := new Row[MAX_HEIGHT](_ => ZERO);
      sumOfKeys := 0;
      new;
      ghost var was := rows[..];
      assert Zeros(was);
      hide Grown, Fits, SumAbove, Zeros, Complete;
      ComputeStats(root, 0, UNLIMITED);
      Whole(was, rows[..], root);
    }

    /** The parallel constructor, for any threshold: the same rows and the same sum as the sequential one. */
    constructor Parallel(root: Tree, minNodes: nat)
      requires Fits([root], MAX_HEIGHT)
      ensures rows.Length == MAX_HEIGHT && fresh(rows) && sumOfKeys == SumAbove([root], MAX_HEIGHT)
      ensures Complete(rows[..], root)
    {
      rows := new Row[MAX_HEIGHT](_ => ZERO);
      sumOfKeys := 0;
      new;
      assert Zeros(rows[..]);
      hide Fits, SumAbove, Zeros, Complete;
      Assemble(root, minNodes);
    }

    /** The body of the parallel constructor: cut, subtrees, top. */
    method Assemble(root: Tree, minNodes: nat)
      requires Fits([root], MAX_HEIGHT) && rows.Length == MAX_HEIGHT && Zeros(rows[..]) && sumOfKeys == 0
      modifies this`sumOfKeys, rows
      ensures sumOfKeys == SumAbove([root], MAX_HEIGHT) && Complete(rows[..], root)
    {
      hide Grown, Fits, SumAbove, Zeros, Complete, Level, RowAt;
      ghost var was := rows[..];
      var currDepth, parts := Partition(root, minNodes);
      CutWithin(root, currDepth);
      AddSubtrees(parts, root, currDepth);
      ghost var mid := rows[..];
      if currDepth > 0 {
        ComputeStats(root, 0, currDepth - 1);
        Assembled(was, mid, rows[..], root, currDepth);
        SumOfLevel([root], currDepth, MAX_HEIGHT - currDepth);
      } else {
        LevelZero(root);
        Whole(was, rows[..], root);
      }
    }

    /** The loop over the subtrees, each with its own sequential statistics. */
    method AddSubtrees(parts: seq<Tree>, ghost root: Tree, currDepth: nat)
      requires rows.Length == MAX_HEIGHT && Fits([root], MAX_HEIGHT) && parts == Level([root], currDepth) && currDepth <= MAX_HEIGHT
      modifies this`sumOfKeys, rows
      ensures Grown(old(rows[..]), rows[..], parts, currDepth, UNLIMITED)
      ensures sumOfKeys == old(sumOfKeys) + SumAbove(parts, MAX_HEIGHT - currDepth)
    {
      hide Grown, Fits, SumAbove, Level;
      ghost var was := rows[..];
      GrownNone(was, currDepth, UNLIMITED);
      ShareNone(0, 0, MAX_HEIGHT - currDepth);
      var i := 0;
      while i < |parts|
        invariant 0 <= i <= |parts| && Grown(was, rows[..], parts[..i], currDepth, UNLIMITED)
        invariant sumOfKeys == old(sumOfKeys) + SumAbove(parts[..i], MAX_HEIGHT - currDepth)
      {
        ghost var mid := rows[..];
        PartFits(root, currDepth, parts, i);
        var ts := new Stats.Sequential(parts[i]);
        AddRows(ts, parts[i], currDepth);
        sumOfKeys := sumOfKeys + ts.sumOfKeys;
        SumBeyond([parts[i]], MAX_HEIGHT - currDepth, MAX_HEIGHT);
        assert parts[..i + 1] == parts[..i] + [parts[i]];
        GrownMore(was, mid, rows[..], parts[..i], [parts[i]], currDepth, UNLIMITED);
        SumJoin(parts[..i], [parts[i]], MAX_HEIGHT - currDepth);
        i := i + 1;
      }
      assert parts[..i] == parts;
    }

    /** The rows of a subtree are added `currDepth` rows further down. */
    method AddRows(ts: Stats, ghost part: Tree, currDepth: nat)
      requires ts != this && ts.rows != rows && ts.rows.Length == MAX_HEIGHT == rows.Length && currDepth <= MAX_HEIGHT
      requires Complete(ts.rows[..], part)
      modifies rows
      ensures Grown(old(rows[..]), rows[..], [part], currDepth, UNLIMITED)
    {
      ghost var was, sub := rows[..], ts.rows[..];
      hide RowAt, Complete, Plus;
      MergedNone(was, sub, currDepth);
      hide MergedTo, Grown;
      for d := 0 to MAX_HEIGHT - currDepth
        invariant ts.rows[..] == sub && MergedTo(was, sub, rows[..], currDepth, d)
      {
        ghost var before := rows[..];
        MergedOne(was, sub, before, currDepth, d);
        rows[d + currDepth] := Plus(rows[d + currDepth], ts.rows[d]);
        assert rows[..] == before[d + currDepth := Plus(before[d + currDepth], sub[d])];
      }
      MergedIsGrown(was, sub, rows[..], part, currDepth);
    }
  }

  /** Row `j` after the first `n` rows of `sub` have been added from row `c` on. */
  function Merged(was: seq<Row>, sub: seq<Row>, c: nat, n: nat, j: nat): Row
    requires j < MAX_HEIGHT == |was| == |sub| && c + n <= MAX_HEIGHT
  {
    if c <= j < c + n then Plus(was[j], sub[j - c]) else was[j]
  }

  ghost predicate MergedTo(was: seq<Row>, sub: seq<Row>, rows: seq<Row>, c: nat, n: nat) {
    && |was| == |sub| == |rows| == MAX_HEIGHT && c + n <= MAX_HEIGHT
    && forall j :: 0 <= j < MAX_HEIGHT ==> rows[j] == Merged(was, sub, c, n, j)
  }

  lemma MergedNone(was: seq<Row>, sub: seq<Row>, c: nat)
    requires |was| == |sub| == MAX_HEIGHT && c <= MAX_HEIGHT
    ensures MergedTo(was, sub, was, c, 0)
  {}

  lemma MergedOne(was: seq<Row>, sub: seq<Row>, rows: seq<Row>, c: nat, n: nat)
    requires MergedTo(was, sub, rows, c, n) && c + n < MAX_HEIGHT
    ensures MergedTo(was, sub, rows[n + c := Plus(rows[n + c], sub[n])], c, n + 1)
  {
    hide Plus;
  }

  lemma MergedIsGrown(was: seq<Row>, sub: seq<Row>, rows: seq<Row>, part: Tree, c: nat)
    requires c <= MAX_HEIGHT && Complete(sub, part) && MergedTo(was, sub, rows, c, MAX_HEIGHT - c)
    ensures Grown(was, rows, [part], c, UNLIMITED)
  {
    forall d | 0 <= d < MAX_HEIGHT ensures rows[d] == Plus(was[d], Share([part], c, UNLIMITED, d)) {
      hide RowAt, Plus, Share;
      ShareIs([part], c, UNLIMITED, d);
      PlusLaws(was[d], ZERO, ZERO);
    }
  }

  lemma Nothing(t: Tree, was: seq<Row>, depth: nat, maxDepth: nat)
    requires |was| == MAX_HEIGHT && (t.Null? || depth > maxDepth)
    ensures Grown(was, was, [t], depth, maxDepth) && SumAbove([t], Span(depth, maxDepth)) == 0
  {
    forall d | 0 <= d < MAX_HEIGHT ensures was[d] == Plus(was[d], Share([t], depth, maxDepth, d)) {
      if depth <= d <= maxDepth {
        assert t == Null;
        FitsNull(0);
        RowBeyond([t], 0, d - depth);
      }
      assert Share([t], depth, maxDepth, d) == ZERO;
      hide Plus, Share;
      PlusLaws(was[d], ZERO, ZERO);
    }
    if t.Null? { FitsNull(0); NullsSumAbove([t], Span(depth, maxDepth)); }
  }

  lemma NextChild(done: seq<Tree>, t: Tree, rest: seq<Tree>, kids: seq<Tree>, n: nat)
    requires done + ([t] + rest) == kids && Fits(kids, n)
    ensures Fits([t], n) && (done + [t]) + rest == kids
  {
    FitsJoin(done, [t] + rest, n);
    FitsJoin([t], rest, n);
  }

  lemma Whole(was: seq<Row>, rows: seq<Row>, root: Tree)
    requires Zeros(was) && Grown(was, rows, [root], 0, UNLIMITED) && Fits([root], MAX_HEIGHT)
    ensures Complete(rows, root) && SumAbove([root], Span(0, UNLIMITED)) == SumAbove([root], MAX_HEIGHT)
  {
    SumBeyond([root], MAX_HEIGHT, Span(0, UNLIMITED));
    hide RowAt, SumAbove, Fits;
    forall d | 0 <= d < MAX_HEIGHT ensures rows[d] == RowAt([root], d) {
      PlusLaws(RowAt([root], d), ZERO, ZERO);
      hide Plus;
    }
  }

  ghost predicate Zeros(rows: seq<Row>) {
    |rows| == MAX_HEIGHT && forall d :: 0 <= d < MAX_HEIGHT ==> rows[d] == ZERO
  }

  /** Every row of the tree. */
  ghost predicate Complete(rows: seq<Row>, root: Tree) {
    |rows| == MAX_HEIGHT && forall d :: 0 <= d < MAX_HEIGHT ==> rows[d] == RowAt([root], d)
  }

  /** The subtrees of a level, and the tree above it, make up the whole tree. */
  lemma Assembled(was: seq<Row>, mid: seq<Row>, rows: seq<Row>, root: Tree, c: nat)
    requires Zeros(was) && 0 < c <= MAX_HEIGHT
    requires Grown(was, mid, Level([root], c), c, UNLIMITED) && Grown(mid, rows, [root], 0, c - 1)
    ensures Complete(rows, root)
  {
    hide Grown, Level, RowAt, Plus, Share;
    GrownAt(mid, rows, [root], 0, c - 1, 0);
    forall d | 0 <= d < MAX_HEIGHT ensures |rows| == MAX_HEIGHT && rows[d] == RowAt([root], d) {
      GrownAt(was, mid, Level([root], c), c, UNLIMITED, d);
      GrownAt(mid, rows, [root], 0, c - 1, d);
      AssembledRow(root, c, d, mid[d], rows[d]);
    }
  }

  lemma GrownAt(was: seq<Row>, rows: seq<Row>, ts: seq<Tree>, depth: nat, maxDepth: nat, d: nat)
    requires Grown(was, rows, ts, depth, maxDepth) && d < MAX_HEIGHT
    ensures |was| == |rows| == MAX_HEIGHT && rows[d] == Plus(was[d], Share(ts, depth, maxDepth, d))
  {}

  lemma ShareIs(ts: seq<Tree>, depth: nat, maxDepth: nat, d: nat)
    ensures Share(ts, depth, maxDepth, d) == if depth <= d <= maxDepth then RowAt(ts, d - depth) else ZERO
  {}

  lemma AssembledRow(root: Tree, c: nat, d: nat, mid: Row, row: Row)
    requires 0 < c && d < MAX_HEIGHT && mid == Plus(ZERO, Share(Level([root], c), c, UNLIMITED, d)) && row == Plus(mid, Share([root], 0, c - 1, d))
    ensures row == RowAt([root], d)
  {
    hide Plus, RowAt, Level, Share;
    var below, above := Share(Level([root], c), c, UNLIMITED, d), Share([root], 0, c - 1, d);
    ShareIs(Level([root], c), c, UNLIMITED, d);
    ShareIs([root], 0, c - 1, d);
    if d >= c { RowOfLevel([root], c, d - c); }
    PlusLaws(below, ZERO, ZERO);
    PlusLaws(above, ZERO, ZERO);
  }

  lemma LevelZero(root: Tree)
    ensures Level([root], 0) == [root]
  {}

  /** A level with a node in it, be it null, is not below the height. */
  lemma CutWithin(root: Tree, c: nat)
    requires Fits([root], MAX_HEIGHT) && Level([root], c) != []
    ensures c <= MAX_HEIGHT
  {
    if c > MAX_HEIGHT {
      NullsBelow(Level([root], MAX_HEIGHT));
      LevelOfLevel([root], MAX_HEIGHT, c - MAX_HEIGHT);
      NothingBelow(c - MAX_HEIGHT - 1);
    }
  }

  lemma LevelFits(root: Tree, c: nat)
    requires Fits([root], MAX_HEIGHT) && c <= MAX_HEIGHT
    ensures Fits(Level([root], c), MAX_HEIGHT - c)
  {
    LevelOfLevel([root], c, MAX_HEIGHT - c);
  }

  lemma PartFits(root: Tree, c: nat, parts: seq<Tree>, i: nat)
    requires Fits([root], MAX_HEIGHT) && parts == Level([root], c) && c <= MAX_HEIGHT && i < |parts|
    ensures Fits([parts[i]], MAX_HEIGHT - c) && Fits([parts[i]], MAX_HEIGHT)
  {
    hide Fits, Level;
    LevelFits(root, c);
    assert parts == parts[..i] + ([parts[i]] + parts[i + 1..]);
    NextChild(parts[..i], parts[i], parts[i + 1..], parts, MAX_HEIGHT - c);
    RowBeyond([parts[i]], MAX_HEIGHT - c, MAX_HEIGHT);
  }

  // ---------------------------------------------------------------- the breadth-first cut

  function SizeAll(ts: seq<Tree>): nat {
    if ts == [] then 0 else Size(ts[0]) + SizeAll(ts[1..])
  }

  lemma {:induction false} SizeJoin(a: seq<Tree>, b: seq<Tree>)
    ensures SizeAll(a + b) == SizeAll(a) + SizeAll(b)
  {
    if a == [] {
      assert a + b == b;
    } else {
      assert (a + b)[1..] == a[1..] + b;
      SizeJoin(a[1..], b);
    }
  }

  lemma {:induction false} SizeListed(c: Children)
    ensures SizeAll(Listed(c)) <= SizeOf(c)
  {
    if c.Child? {
      SizeListed(c.rest);
      assert Listed(c)[1..] == Listed(c.rest);
    }
  }

  /** Replacing the first tree of a queue by its children at the end leaves less to do. */
  lemma QueueShrinks(ts: seq<Tree>)
    requires ts != []
    ensures SizeAll(ts[1..] + Kids(ts[0])) < SizeAll(ts)
  {
    SizeJoin(ts[1..], Kids(ts[0]));
    if ts[0].Internal? { SizeListed(ts[0].children); }
  }

  lemma QueueStep(qn: seq<Tree>, ix: nat)
    requires ix < |qn|
    ensures SizeAll((qn + Kids(qn[ix]))[ix + 1..]) < SizeAll(qn[ix..])
  {
    QueueShrinks(qn[ix..]);
    assert (qn + Kids(qn[ix]))[ix + 1..] == qn[ix..][1..] + Kids(qn[ix]);
  }

  lemma NextLevel(ts: seq<Tree>, c: nat)
    ensures Level(ts, c + 1) == Below(Level(ts, c))
  {
    LevelOfLevel(ts, c, 1);
    assert Level(Level(ts, c), 1) == Level(Below(Level(ts, c)), 0);
  }

  /**
   * The queue from `start` on is the level of depth `currDepth` and the children of its first `seen` nodes; the
   * depths in the other queue say which is which.
   */
  ghost predicate Cut(root: Tree, qn: seq<Tree>, qd: seq<nat>, currDepth: nat, start: nat, seen: nat) {
    var level := Level([root], currDepth);
    && start <= |qn| == |qd| && seen <= |level| && level != []
    && qn[start..] == level + Below(level[..seen])
    && (forall j :: start <= j < |qd| ==> qd[j] == if j < start + |level| then currDepth else currDepth + 1)
  }

  lemma CutStart(root: Tree)
    ensures Cut(root, [root], [0], 0, 0, 0)
  {
    var level := Level([root], 0);
    assert level[..0] == [] && Below([]) == [];
    assert [root][0..] == level + [];
  }

  /** The next node tells by its depth whether the level has been seen. */
  lemma CutDepth(root: Tree, qn: seq<Tree>, qd: seq<nat>, currDepth: nat, start: nat, seen: nat)
    requires Cut(root, qn, qd, currDepth, start, seen) && start + seen <= |qn|
    ensures |qd| == |qn| && seen <= |Level([root], currDepth)| && Level([root], currDepth) != []
    ensures start + seen == |qn| ==> seen == |Level([root], currDepth)|
    ensures start + seen < |qn| ==> (qd[start + seen] != currDepth <==> seen == |Level([root], currDepth)|)
    ensures start + seen < |qn| ==> qd[start + seen] == currDepth || qd[start + seen] == currDepth + 1
    ensures seen == |Level([root], currDepth)| ==> qn[start..start + seen] == Level([root], currDepth)
  {
    var level := Level([root], currDepth);
    assert |qn[start..]| == |level| + |Below(level[..seen])|;
    if seen == |level| {
      assert qn[start..start + seen] == qn[start..][..seen];
    }
  }

  lemma CutNextLevel(root: Tree, qn: seq<Tree>, qd: seq<nat>, currDepth: nat, start: nat)
    requires Cut(root, qn, qd, currDepth, start, |Level([root], currDepth)|) && start + |Level([root], currDepth)| < |qn|
    ensures Cut(root, qn, qd, currDepth + 1, start + |Level([root], currDepth)|, 0)
  {
    var level := Level([root], currDepth);
    NextLevel([root], currDepth);
    assert level[..|level|] == level;
    var next := Below(level);
    assert qn[start + |level|..] == qn[start..][|level|..] == next;
    assert next[..0] == [] && Below([]) == [] && next + [] == next;
  }

  /** A node of the level is seen and its children are queued. */
  lemma CutVisit(root: Tree, qn: seq<Tree>, qd: seq<nat>, currDepth: nat, start: nat, seen: nat, qd': seq<nat>)
    requires Cut(root, qn, qd, currDepth, start, seen) && seen < |Level([root], currDepth)| && start + seen < |qn|
    requires |qd'| == |qd| + |Kids(qn[start + seen])| && qd <= qd' && forall j :: |qd| <= j < |qd'| ==> qd'[j] == currDepth + 1
    ensures Cut(root, qn + Kids(qn[start + seen]), qd', currDepth, start, seen + 1)
  {
    var level, node := Level([root], currDepth), qn[start + seen];
    hide Level;
    assert node == qn[start..][seen] == level[seen];
    BelowMore(level, seen);
    hide Below;
    Regroup(qn, Kids(node), start, level, Below(level[..seen]));
    hide Kids;
  }

  lemma Regroup(qn: seq<Tree>, kids: seq<Tree>, start: nat, level: seq<Tree>, below: seq<Tree>)
    requires start <= |qn| && qn[start..] == level + below
    ensures (qn + kids)[start..] == level + (below + kids)
  {
    assert (qn + kids)[start..] == qn[start..] + kids;
  }

  lemma BelowMore(level: seq<Tree>, seen: nat)
    requires seen < |level|
    ensures Below(level[..seen + 1]) == Below(level[..seen]) + Kids(level[seen])
  {
    assert level[..seen + 1] == level[..seen] + [level[seen]];
    BelowJoin(level[..seen], [level[seen]]);
    BelowOne(level[seen]);
  }

  /** The state of the walk before it takes the node at `start + seen` from the queues. */
  ghost predicate Walk(root: Tree, qn: seq<Tree>, qd: seq<nat>, currDepth: nat, start: nat, seen: nat) {
    start + seen <= |qn| == |qd| && |qn| > 0 && qn[0] == root && Cut(root, qn, qd, currDepth, start, seen)
  }

  lemma WalkStart(root: Tree)
    ensures Walk(root, [root], [0], 0, 0, 0)
  {
    hide Cut;
    CutStart(root);
  }

  lemma WalkSizes(root: Tree, qn: seq<Tree>, qd: seq<nat>, currDepth: nat, start: nat, seen: nat)
    requires Walk(root, qn, qd, currDepth, start, seen)
    ensures start + seen <= |qn| == |qd| && |qn| > 0
  {}

  /** A node of another depth is the first of the next level. */
  lemma WalkTurn(root: Tree, qn: seq<Tree>, qd: seq<nat>, currDepth: nat, start: nat, seen: nat)
    requires Walk(root, qn, qd, currDepth, start, seen) && start + seen < |qn| && qd[start + seen] != currDepth
    ensures qd[start + seen] == currDepth + 1 && Walk(root, qn, qd, currDepth + 1, start + seen, 0)
  {
    hide Cut, Level;
    CutDepth(root, qn, qd, currDepth, start, seen);
    CutNextLevel(root, qn, qd, currDepth, start);
  }

  /** Both queues have the children of a node of depth `depth` at their end. */
  ghost predicate Queued(qn: seq<Tree>, qd: seq<nat>, node: Tree, depth: nat, qn': seq<Tree>, qd': seq<nat>) {
    qn' == qn + Kids(node) && |qd'| == |qn'| && qd <= qd' && forall j :: |qd| <= j < |qd'| ==> qd'[j] == depth + 1
  }

  /** A node of the level is visited. */
  lemma WalkVisit(root: Tree, qn: seq<Tree>, qd: seq<nat>, currDepth: nat, start: nat, seen: nat, qn': seq<Tree>, qd': seq<nat>)
    requires Walk(root, qn, qd, currDepth, start, seen) && start + seen < |qn| && qd[start + seen] == currDepth
    requires Queued(qn, qd, qn[start + seen], currDepth, qn', qd')
    ensures Walk(root, qn', qd', currDepth, start, seen + 1)
  {
    hide Cut, Level, Kids;
    CutDepth(root, qn, qd, currDepth, start, seen);
    CutVisit(root, qn, qd, currDepth, start, seen, qd');
  }

  lemma WalkShrinks(qn: seq<Tree>, qd: seq<nat>, ix: nat, depth: nat, qn': seq<Tree>, qd': seq<nat>)
    requires ix < |qn| && Queued(qn, qd, qn[ix], depth, qn', qd')
    ensures |qn'| > ix && SizeAll(qn'[ix + 1..]) < SizeAll(qn[ix..])
  {
    hide SizeAll, Kids;
    QueueStep(qn, ix);
  }

  /** Where the walk stops, the nodes seen are the whole level. */
  lemma WalkStop(root: Tree, qn: seq<Tree>, qd: seq<nat>, currDepth: nat, start: nat, seen: nat)
    requires Walk(root, qn, qd, currDepth, start, seen) && (start + seen < |qn| ==> qd[start + seen] != currDepth)
    ensures qn[start..start + seen] == Level([root], currDepth) && seen > 0 && qn[0..1] == Level([root], 0)
  {
    assert Level([root], 0) == [root];
    hide Cut, Level;
    CutDepth(root, qn, qd, currDepth, start, seen);
    assert qn[0..1] == [qn[0]];
  }

  /** The children of a node go to the end of both queues. */
  method Enqueue(qn: seq<Tree>, qd: seq<nat>, node: Tree, depth: nat) returns (qn': seq<Tree>, qd': seq<nat>)
    requires |qn| == |qd|
    ensures Queued(qn, qd, node, depth, qn', qd')
  {
    qn', qd' := qn, qd;
    var it := if node.Internal? then node.children else End;
    while it.Child?
      invariant |qn'| == |qd'| && qd <= qd' && qn' + Listed(it) == qn + Kids(node) && forall j :: |qd| <= j < |qd'| ==> qd'[j] == depth + 1
      decreases it
    {
      assert qn' + Listed(it) == (qn' + [it.first]) + Listed(it.rest);
      qn', qd' := qn' + [it.first], qd' + [depth + 1];
      it := it.rest;
    }
  }

  /** The breadth-first search stops at a whole level: one with at least `minNodes` nodes, or the root if there is none. */
  method Partition(root: Tree, minNodes: nat) returns (currDepth: nat, parts: seq<Tree>)
    ensures parts == Level([root], currDepth) && parts != [] && (currDepth == 0 || |parts| >= minNodes)
  {
    hide Level, Walk, SizeAll, Queued;
    var qn, qd := [root], [0];
    var ix, ixStartOfDepth, nodesSeenAtDepth := 0, 0, 0;
    currDepth := 0;
    WalkStart(root);
    while ix < |qn|
      invariant ix == ixStartOfDepth + nodesSeenAtDepth <= |qn| == |qd| && Walk(root, qn, qd, currDepth, ixStartOfDepth, nodesSeenAtDepth)
      decreases SizeAll(qn[ix..])
    {
      var node, depth := qn[ix], qd[ix];
      ix := ix + 1;
      if depth != currDepth {
        if nodesSeenAtDepth >= minNodes {
          ix := ix - 1;
          break;
        }
        WalkTurn(root, qn, qd, currDepth, ixStartOfDepth, nodesSeenAtDepth);
        currDepth := depth;
        nodesSeenAtDepth := 0;
        ixStartOfDepth := ix - 1;
      }
      nodesSeenAtDepth := nodesSeenAtDepth + 1;
      ghost var qn0, qd0 := qn, qd;
      qn, qd := Enqueue(qn, qd, node, depth);
      WalkShrinks(qn0, qd0, ix - 1, depth, qn, qd);
      WalkVisit(root, qn0, qd0, currDepth, ixStartOfDepth, nodesSeenAtDepth - 1, qn, qd);
      WalkSizes(root, qn, qd, currDepth, ixStartOfDepth, nodesSeenAtDepth);
    }
    WalkSizes(root, qn, qd, currDepth, ixStartOfDepth, nodesSeenAtDepth);
    WalkStop(root, qn, qd, currDepth, ixStartOfDepth, nodesSeenAtDepth);
    if nodesSeenAtDepth < minNodes {
      currDepth := 0;
      ix := 1;
      ixStartOfDepth := 0;
    }
    parts := qn[ixStartOfDepth..ix];
  }
}
