/**
 * Bags of objects as linked blocks of fixed size: a stack at the head, full blocks added at the tail.
 *
 * The used part of a block's array is a sequence. Blocks come from `new` and are dropped when emptied;
 * the pool of spare blocks is not modelled.
 */
module BlockBag {
  import opened BagView

  class Block<T> {
    var next: Block?<T>
    var items: seq<T>

    constructor (next: Block?<T>)
      ensures this.next == next && items == []
    {
      this.next := next;
      items := [];
    }

    method Push(x: T)
      requires |items| < BLOCK_SIZE
      modifies this`items
      ensures items == old(items) + [x]
    {
      items := items + [x];
    }

    method Pop() returns (x: T)
      requires items != []
      modifies this`items
      ensures old(items) == items + [x]
    {
      x := items[|items| - 1];
      items := items[..|items| - 1];
    }
  }

  function BlockAt<T>(blocks: seq<Block<T>>, i: nat): Block?<T> {
    if i < |blocks| then blocks[i] else null
  }

  /** Following `next` from `head` goes through `blocks`, which are different, and ends. */
  ghost predicate Spine<T>(head: Block?<T>, blocks: seq<Block<T>>)
    reads blocks`next
  {
    && head == BlockAt(blocks, 0)
    && (forall i :: 0 <= i < |blocks| ==> blocks[i].next == BlockAt(blocks, i + 1))
    && (forall i, j :: 0 <= i < j < |blocks| ==> blocks[i] != blocks[j])
  }

  /** The blocks hold `v`. */
  ghost predicate Shows<T>(blocks: seq<Block<T>>, v: View<T>)
    reads blocks`items
  {
    |blocks| == |v| && forall i :: 0 <= i < |v| ==> blocks[i].items == v[i]
  }

  lemma HeadFirst<T>(head: Block<T>, blocks: seq<Block<T>>)
    requires Spine(head, blocks) && blocks != []
    ensures blocks == [head] + blocks[1..]
  {}

  lemma SpinePrepend<T>(b: Block<T>, blocks: seq<Block<T>>)
    requires Spine(b.next, blocks) && b !in blocks
    ensures Spine(b, [b] + blocks)
  {}

  ghost predicate NoneIn<T>(a: seq<Block<T>>, b: seq<Block<T>>) {
    forall x :: x in a ==> x !in b
  }

  /** A chain of different blocks, whatever its last block points to. */
  ghost predicate Inner<T>(a: seq<Block<T>>)
    requires a != []
    reads a[..|a| - 1]`next
  {
    && (forall i :: 0 <= i < |a| - 1 ==> assert a[i] == a[..|a| - 1][i]; a[i].next == a[i + 1])
    && (forall i, j :: 0 <= i < j < |a| ==> a[i] != a[j])
  }

  lemma InnerLast<T>(a: seq<Block<T>>)
    requires a != [] && Inner(a)
    ensures a[|a| - 1] !in a[..|a| - 1]
  {}

  lemma SpineInner<T>(head: Block?<T>, a: seq<Block<T>>)
    requires a != [] && Spine(head, a)
    ensures head == a[0] && Inner(a) && a[|a| - 1] !in a[..|a| - 1]
  {}

  /** A chain whose last block points to the first of another goes on through that one. */
  lemma SpineJoin<T>(a: seq<Block<T>>, b: seq<Block<T>>)
    requires a != [] && Inner(a) && Spine(a[|a| - 1].next, b) && NoneIn(a, b)
    ensures Spine(a[0], a + b)
  {
    var c := a + b;
    forall i | 0 <= i < |c| ensures c[i].next == BlockAt(c, i + 1) {
      assert i >= |a| ==> c[i] == b[i - |a|];
      assert i < |a| ==> c[i] == a[i];
    }
    forall i, j | 0 <= i < j < |c| ensures c[i] != c[j] {
      assert i < |a| <= j ==> a[i] in a && b[j - |a|] in b;
    }
  }

  lemma SpineSplit<T>(head: Block?<T>, a: seq<Block<T>>, b: seq<Block<T>>)
    requires a != [] && Spine(head, a + b)
    ensures head == a[0] && Inner(a) && a[|a| - 1].next == BlockAt(b, 0) && Spine(BlockAt(b, 0), b) && NoneIn(a, b)
    ensures b != [] ==> (a + b)[|a + b| - 1] == b[|b| - 1]
  {
    var c := a + b;
    forall i | 0 <= i < |b| ensures b[i].next == BlockAt(b, i + 1) { assert b[i] == c[|a| + i]; }
    forall i, j | 0 <= i < j < |b| ensures b[i] != b[j] { assert b[i] == c[|a| + i] && b[j] == c[|a| + j]; }
    forall i, j | 0 <= i < |a| && 0 <= j < |b| ensures a[i] != b[j] { assert a[i] == c[i] && b[j] == c[|a| + j]; }
    forall i | 0 <= i < |a| ensures a[i] == c[i] {}
    assert BlockAt(c, |a|) == BlockAt(b, 0);
  }

  lemma LastNotIn<T>(a: seq<Block<T>>, b: seq<Block<T>>)
    requires a != [] && NoneIn(a, b)
    ensures a[|a| - 1] !in b
  {
    assert a[|a| - 1] in a;
  }

  /** The blocks of one bag are not among those of another, before or after a cut. */
  lemma Elsewhere<T>(blocks: seq<Block<T>>, left: seq<Block<T>>, moved: seq<Block<T>>)
    requires blocks != [] && left != [] && NoneIn(blocks, left + moved) && NoneIn(left, moved)
    ensures blocks[|blocks| - 1] !in left && NoneIn(blocks, moved) && left[|left| - 1] !in blocks && left[|left| - 1] !in moved
  {
    assert blocks[|blocks| - 1] in blocks && left[|left| - 1] in left + moved;
  }

  lemma NoSpine<T>()
    ensures Spine<T>(null, [])
  {}

  lemma ShowsJoin<T>(a: seq<Block<T>>, v: View<T>, b: seq<Block<T>>, w: View<T>)
    requires Shows(a, v) && Shows(b, w)
    ensures Shows(a + b, v + w)
  {}

  lemma ShowsSplit<T>(a: seq<Block<T>>, v: View<T>, b: seq<Block<T>>, w: View<T>)
    requires Shows(a + b, v + w) && |a| == |v|
    ensures Shows(a, v) && Shows(b, w)
  {
    forall i | 0 <= i < |a| ensures a[i].items == v[i] { assert a[i] == (a + b)[i] && v[i] == (v + w)[i]; }
    forall i | 0 <= i < |b| ensures b[i].items == w[i] { assert b[i] == (a + b)[|a| + i] && w[i] == (v + w)[|a| + i]; }
  }

  /** Joins two chains. */
  method LinkTo<T>(last: Block<T>, first: Block<T>, ghost a: seq<Block<T>>, ghost b: seq<Block<T>>)
    requires a != [] && Inner(a) && last == a[|a| - 1] && Spine(first, b) && NoneIn(a, b)
    modifies last`next
    ensures Spine(a[0], a + b)
  {
    LastNotIn(a, b);
    InnerLast(a);
    hide Spine, NoneIn, Inner;
    last.next := first;
    SpineJoin(a, b);
  }

  class Bag<T> {
    var head: Block<T>
    var tail: Block<T>
    var sizeInBlocks: nat
    ghost var blocks: seq<Block<T>>
    ghost var view: View<T>

    ghost predicate Linked()
      reads this, blocks`next
    {
      Spine(head, blocks) && blocks != [] && tail == blocks[|blocks| - 1] && sizeInBlocks == |blocks|
    }

    ghost predicate Valid()
      reads this, blocks`next, blocks`items
    {
      Linked() && Shows(blocks, view) && BagView.Valid(view)
    }

    constructor ()
      ensures Valid() && Empty(view) && |blocks| == 1 && fresh(blocks[0])
    {
      var b := new Block<T>(null);
      head, tail, sizeInBlocks := b, b, 1;
      blocks, view := [b], [[]];
    }

    /** add */
    method Add(x: T)
      requires Valid()
      modifies this`head, this`sizeInBlocks, this`blocks, this`view, head`items
      ensures Valid() && view == Added(old(view), x)
      ensures if |old(head.items)| + 1 == BLOCK_SIZE then fresh(head) && blocks == [head] + old(blocks) else head == old(head) && blocks == old(blocks)
    {
      AddPushes(view, x);
      PushHead(x);
      hide Spine, Shows;
      if |head.items| == BLOCK_SIZE { NewHead(); }
    }

    method PushHead(x: T)
      requires Valid()
      modifies head`items, this`view
      ensures Linked() && Shows(blocks, view) && view == [old(view)[0] + [x]] + old(view)[1..] && view[0] == head.items && head.items == old(head.items) + [x]
    {
      head.Push(x);
      view := [view[0] + [x]] + view[1..];
    }

    method NewHead()
      requires Linked() && Shows(blocks, view)
      modifies this`head, this`sizeInBlocks, this`blocks, this`view
      ensures Linked() && Shows(blocks, view) && view == [[]] + old(view) && fresh(head) && blocks == [head] + old(blocks)
    {
      var b := new Block<T>(head);
      SpinePrepend(b, blocks);
      ShowsJoin([b], [[]], blocks, view);
      hide Spine, Shows;
      head := b;
      sizeInBlocks := sizeInBlocks + 1;
      blocks, view := [b] + blocks, [[]] + view;
    }

    /** remove: the object first in iteration order. */
    method Remove() returns (x: T)
      requires Valid() && !Empty(view)
      modifies this`head, this`sizeInBlocks, this`blocks, this`view, blocks`items
      ensures Valid() && (view, x) == Removed(old(view))
      ensures blocks == if old(head.items) == [] then old(blocks)[1..] else old(blocks)
    {
      RemovePops(view);
      if head.items == [] { DropHead(); }
      x := PopHead();
    }

    /** The empty head goes; the next block, which is full, becomes the head. */
    method DropHead()
      requires Valid() && |blocks| > 1
      modifies this`head, this`sizeInBlocks, this`blocks, this`view
      ensures Linked() && Shows(blocks, view) && blocks == old(blocks)[1..] && view == old(view)[1..] && view[0] == head.items
    {
      head := head.next;
      sizeInBlocks := sizeInBlocks - 1;
      blocks, view := blocks[1..], view[1..];
    }

    method PopHead() returns (x: T)
      requires Linked() && Shows(blocks, view) && head.items != []
      modifies head`items, this`view
      ensures Linked() && Shows(blocks, view) && old(view)[0] == view[0] + [x] && view == [view[0]] + old(view)[1..]
    {
      x := head.Pop();
      view := [head.items] + view[1..];
    }

    method IsEmpty() returns (r: bool)
      requires Valid()
      ensures r <==> Empty(view)
    {
      r := head.next == null && head.items == [];
    }

    /** removeFullBlock: the block after the head, from two full blocks on. */
    method RemoveFullBlock() returns (b: Block?<T>)
      requires Valid()
      modifies this`sizeInBlocks, this`blocks, this`view, blocks`next
      ensures Valid() && (b != null <==> |old(blocks)| >= 3)
      ensures b == null ==> view == old(view) && blocks == old(blocks)
      ensures b != null ==> (view, b.items) == Given(old(view)) && b.next == null && b == old(blocks)[1] && blocks == [old(blocks)[0]] + old(blocks)[2..]
    {
      var second := head.next;
      if second != null && second.next != null {
        GiveConserves(view);
        UnlinkSecond(second);
        view := [view[0]] + view[2..];
        return second;
      }
      return null;
    }

    method UnlinkSecond(second: Block<T>)
      requires Linked() && |blocks| > 2 && second == blocks[1]
      modifies this`sizeInBlocks, this`blocks, head`next, second`next
      ensures Linked() && blocks == [old(blocks)[0]] + old(blocks)[2..] && second.next == null
    {
      ghost var first, rest := [blocks[0]], blocks[2..];
      assert blocks == [head, second] + rest;
      SpineSplit(head, [head, second], rest);
      assert head in [head, second] && second in [head, second] && head !in rest && second !in rest;
      head.next := second.next;
      second.next := null;
      SpineJoin(first, rest);
      hide Spine;
      sizeInBlocks := sizeInBlocks - 1;
      blocks := first + rest;
    }

    /** addFullBlock: at the tail. */
    method AddFullBlock(b: Block<T>)
      requires Valid() && |b.items| == BLOCK_SIZE && b.next == null && b !in blocks
      modifies this`tail, this`sizeInBlocks, this`blocks, this`view, tail`next
      ensures Valid() && view == old(view) + [b.items] && blocks == old(blocks) + [b]
    {
      AppendFull(view, [b.items]);
      ShowsJoin(blocks, view, [b], [b.items]);
      Extend(b);
      view := view + [b.items];
    }

    method Extend(b: Block<T>)
      requires Linked() && b.next == null && b !in blocks
      modifies this`tail, this`sizeInBlocks, this`blocks, tail`next
      ensures Linked() && blocks == old(blocks) + [b]
    {
      assert Spine(b, [b]) && NoneIn(blocks, [b]);
      SpineInner(head, blocks);
      hide Spine, NoneIn, Inner;
      LinkTo(tail, b, blocks, [b]);
      tail := b;
      sizeInBlocks := sizeInBlocks + 1;
      blocks := blocks + [b];
    }

    method ComputeSizeInBlocks() returns (n: nat)
      requires Spine(head, blocks)
      ensures n == |blocks|
    {
      n := 0;
      var curr: Block?<T> := head;
      while curr != null
        invariant n <= |blocks| && curr == BlockAt(blocks, n)
        decreases |blocks| - n
      {
        n := n + 1;
        curr := curr.next;
      }
    }

    /**
     * The blocks of `other` after `predecessor` move to the tail of this bag. `left` and `moved` are the blocks of
     * `other` up to and after `predecessor`, and `kept` and `gone` what they hold.
     */
    method AppendMoveFullBlocks(other: Bag<T>, predecessor: Block<T>, ghost left: seq<Block<T>>, ghost moved: seq<Block<T>>, ghost kept: View<T>, ghost gone: View<T>)
      requires Valid() && other.Valid() && other != this && NoneIn(blocks, other.blocks)
      requires other.blocks == left + moved && other.view == kept + gone && |left| == |kept| && left != [] && predecessor == left[|left| - 1]
      modifies this`tail, this`sizeInBlocks, this`blocks, this`view, other`tail, other`sizeInBlocks, other`blocks, other`view, tail`next, predecessor`next
      ensures Valid() && blocks == old(blocks) + moved && view == old(view) + gone
      ensures other.Valid() && other.blocks == left && other.view == kept
    {
      hide Spine, Shows, BagView.Valid, NoneIn;
      ValidMove(view, kept, gone);
      ShowsSplit(left, kept, moved, gone);
      ShowsJoin(blocks, view, moved, gone);
      MoveBlocks(other, predecessor, left, moved);
      view, other.view := view + gone, kept;
    }

    /**
     * appendMoveAll: the full blocks of `other` go to the tail and the objects of its head block are added one by one,
     * which turns their order around; `other` is left empty.
     */
    method AppendMoveAll(other: Bag<T>)
      requires Valid() && other.Valid() && other != this && NoneIn(blocks, other.blocks)
      modifies this, other, blocks, other.blocks
      ensures Valid() && other.Valid() && Empty(other.view)
      ensures Order(view) == old(other.view)[0] + (Order(old(view)) + Order(old(other.view)[1..]))
    {
      OrderAppend(view, other.view[1..]);
      hide Order, Valid, other.Valid, NoneIn;
      MoveRest(other);
      Drain(other);
      Recount();
    }

    /** Every block of `other` but its head goes to the tail. */
    method MoveRest(other: Bag<T>)
      requires Valid() && other.Valid() && other != this && NoneIn(blocks, other.blocks)
      modifies this`tail, this`sizeInBlocks, this`blocks, this`view, other`tail, other`sizeInBlocks, other`blocks, other`view, tail`next, other.head`next
      ensures Apart(other) && view == old(view) + old(other.view)[1..] && other.view == [old(other.view)[0]]
    {
      ghost var first, rest := other.view[0], other.view[1..];
      HeadFirst(other.head, other.blocks);
      assert other.view == [first] + rest;
      hide Spine, Shows, NoneIn;
      hide Valid, other.Valid;
      AppendMoveFullBlocks(other, other.head, [other.head], other.blocks[1..], [first], rest);
    }

    method Recount()
      requires Valid()
      modifies this`sizeInBlocks
      ensures Valid()
    {
      sizeInBlocks := ComputeSizeInBlocks();
    }

    /** The one block of `other` is emptied object by object. */
    method Drain(other: Bag<T>)
      requires Apart(other)
      modifies this, other, head`items, other.head`items
      ensures Apart(other) && Empty(other.view) && Order(view) == old(other.view)[0] + Order(old(view))
    {
      ghost var first, base := other.view[0], Order(view);
      ghost var mine := head;
      assert first[|first|..] == [];
      while true
        invariant Apart(other) && other.head == old(other.head) && (head == mine || fresh(head))
        invariant other.view[0] <= first && Order(view) == first[|other.view[0]|..] + base
        decreases |other.view[0]|
      {
        hide Order, Valid;
        var done := CanStop(other);
        if done { break; }
        TakeOne(first, other.view[0], Order(view), base);
        var _ := MoveOne(other);
      }
    }

    /** Two valid bags with no block in common, the second with one block. */
    ghost predicate Apart(other: Bag<T>)
      reads this, blocks`next, blocks`items, other, other.blocks`next, other.blocks`items
    {
      Valid() && other.Valid() && other != this && other.blocks == [other.head] && |other.view| == 1 && other.head !in blocks
    }

    method CanStop(other: Bag<T>) returns (r: bool)
      requires Apart(other)
      ensures r <==> other.view[0] == []
    {
      r := other.IsEmpty();
    }

    method MoveOne(other: Bag<T>) returns (x: T)
      requires Apart(other) && other.view[0] != []
      modifies this, other, head`items, other.head`items
      ensures Apart(other) && other.head == old(other.head) && (head == old(head) || fresh(head))
      ensures old(other.view[0]) == other.view[0] + [x] && Order(view) == [x] + Order(old(view))
    {
      x := other.Remove();
      AddPushes(view, x);
      hide Spine, Shows, Order;
      Add(x);
    }

    /** The links of appendMoveFullBlocks. */
    method MoveBlocks(other: Bag<T>, predecessor: Block<T>, ghost left: seq<Block<T>>, ghost moved: seq<Block<T>>)
      requires Linked() && other.Linked() && other != this && NoneIn(blocks, other.blocks)
      requires other.blocks == left + moved && left != [] && predecessor == left[|left| - 1]
      modifies this`tail, this`sizeInBlocks, this`blocks, other`tail, other`sizeInBlocks, other`blocks, tail`next, predecessor`next
      ensures Linked() && blocks == old(blocks) + moved
      ensures other.Linked() && other.blocks == left
    {
      hide Spine, Inner, NoneIn;
      SpineSplit(other.head, left, moved);
      Elsewhere(blocks, left, moved);
      InnerLast(left);
      if predecessor.next != null {
        Take(other, predecessor.next, moved);
        other.Truncate(predecessor, left);
      } else {
        assert moved == [];
        assert blocks + moved == blocks && left + moved == left;
      }
    }

    method Take(other: Bag<T>, first: Block<T>, ghost moved: seq<Block<T>>)
      requires Linked() && Spine(first, moved) && moved != [] && NoneIn(blocks, moved) && other != this
      requires other.tail == moved[|moved| - 1]
      modifies this`tail, this`sizeInBlocks, this`blocks, tail`next
      ensures Linked() && blocks == old(blocks) + moved
    {
      SpineInner(head, blocks);
      ghost var all := blocks + moved;
      assert all != [] && all[|all| - 1] == moved[|moved| - 1];
      hide Spine, NoneIn, Inner;
      LinkTo(tail, first, blocks, moved);
      Become(all, other.tail);
    }

    /** The fields follow a change of the chain. */
    method Become(ghost all: seq<Block<T>>, last: Block<T>)
      requires Spine(head, all) && all != [] && last == all[|all| - 1]
      modifies this`tail, this`sizeInBlocks, this`blocks
      ensures Linked() && blocks == all
    {
      tail := last;
      blocks := all;
      sizeInBlocks := ComputeSizeInBlocks();
    }

    method Truncate(last: Block<T>, ghost left: seq<Block<T>>)
      requires left != [] && last == left[|left| - 1] && head == left[0] && Inner(left)
      modifies this`tail, this`sizeInBlocks, this`blocks, last`next
      ensures Linked() && blocks == left
    {
      InnerLast(left);
      hide Spine, Inner;
      last.next := null;
      NoSpine<T>();
      assert left + [] == left && NoneIn(left, []);
      SpineJoin(left, []);
      Become(left, last);
    }

    /** computeSizeFast and computeSize both count the objects. */
    method ComputeSizeFast() returns (n: nat)
      requires Valid()
      ensures n == |Order(view)|
    {
      FastSize(view);
      n := (sizeInBlocks - 1) * BLOCK_SIZE + |head.items|;
    }

    method ComputeSize() returns (n: nat)
      requires Valid()
      ensures n == |Order(view)|
    {
      n := 0;
      var curr: Block?<T> := head;
      ghost var i := 0;
      assert view[0..] == view;
      while curr != null
        invariant i <= |blocks| && curr == BlockAt(blocks, i) && n + |Order(view[i..])| == |Order(view)|
        decreases |blocks| - i
      {
        assert view[i..][1..] == view[i + 1..];
        n := n + |curr.items|;
        curr := curr.next;
        i := i + 1;
      }
    }

    /** operator++ of an iterator: down the block, then to the top of the next one. */
    method Advance(curr: Block<T>, ix: int, ghost n: nat) returns (curr1: Block?<T>, ix1: int, ghost n1: nat)
      requires Valid() && n < |blocks| && curr == blocks[n] && (ix <= 0 || ix <= |view[n]|)
      ensures At(curr1, ix1, n1) && (n1, ix1) == if ix > 0 then (n, ix - 1) else (n + 1, if n + 1 == |view| then -1 else |view[n + 1]| - 1)
      ensures 0 <= ix <= |view[n]| ==> Rank(view, n1, ix1) == Rank(view, n, ix) + 1
    {
      StopFacts(n);
      curr1, ix1, n1 := curr, ix - 1, n;
      if ix1 < 0 {
        curr1 := curr.next;
        ix1 := if curr1 != null then |curr1.items| - 1 else -1;
        n1 := n + 1;
      }
    }

    /** An iterator at index `ix` of block `n`, or past the last block. */
    ghost predicate At(curr: Block?<T>, ix: int, n: nat)
      reads this
    {
      |view| == |blocks| && n <= |blocks| && curr == BlockAt(blocks, n) && if n < |blocks| then 0 <= ix < |view[n]| else ix == -1
    }

    /** The iterator is dereferenced. */
    method Visit(curr: Block<T>, ix: nat, ghost n: nat, visited: seq<T>) returns (visited1: seq<T>)
      requires Valid() && At(curr, ix, n) && Passed(view, n, ix, visited)
      ensures |visited1| == Rank(view, n, ix) + 1 && visited1 <= Order(view)
    {
      StopFacts(n);
      hide Order, Valid, Rank;
      Pass(view, n, ix, visited);
      visited1 := visited + [curr.items[ix]];
    }

    /** From begin() to end(): every object once, in the bag's order. */
    method Traverse() returns (visited: seq<T>)
      requires Valid()
      ensures visited == Order(view)
    {
      visited := [];
      StopFacts(0);
      RankEnds(view);
      hide Order, Valid, Rank, Base, BagView.Valid, BlockAt;
      var curr, ix, n := Advance(head, |head.items|, 0);
      while curr != null
        invariant At(curr, ix, n) && Passed(view, n, ix, visited)
        decreases |blocks| - n, ix
      {
        visited := Visit(curr, ix, n, visited);
        curr, ix, n := Advance(curr, ix, n);
      }
    }

    lemma StopFacts(n: nat)
      requires Valid() && n < |blocks|
      ensures |view| == |blocks| && blocks[n].items == view[n] && blocks[n].next == BlockAt(blocks, n + 1)
      ensures n + 1 < |blocks| ==> blocks[n + 1].items == view[n + 1] != []
      ensures blocks[0] == head && BagView.Valid(view)
    {}
  }

  lemma TakeOne<T>(first: seq<T>, left: seq<T>, order: seq<T>, base: seq<T>)
    requires left != [] && left <= first && order == first[|left|..] + base
    ensures [left[|left| - 1]] + order == first[|left| - 1..] + base && left[..|left| - 1] <= first
  {
    assert first[|left| - 1..] == [left[|left| - 1]] + first[|left|..];
  }
}
