/**
 * What a block bag holds, as values: the contents of its blocks, head first, each block bottom first.
 */
module BagView {

  // 512 bytes of pointers, less the room taken by the other fields
  const BLOCK_SIZE: nat := 512 / 8 - 3 * 8

  type View<!T> = seq<seq<T>>

  /** Only the head is not full. */
  predicate Valid<T>(v: View<T>) {
    && |v| > 0 && |v[0]| < BLOCK_SIZE
    && forall i :: 0 < i < |v| ==> |v[i]| == BLOCK_SIZE
  }

  function Reversed<T>(s: seq<T>): (r: seq<T>)
    ensures |r| == |s| && forall i :: 0 <= i < |r| ==> r[i] == s[|s| - 1 - i]
  {
    if s == [] then [] else [s[|s| - 1]] + Reversed(s[..|s| - 1])
  }

  /** The order in which an iterator visits the objects. */
  function Order<T>(v: View<T>): seq<T> {
    if v == [] then [] else Reversed(v[0]) + Order(v[1..])
  }

  function Added<T>(v: View<T>, x: T): View<T>
    requires |v| > 0
  {
    var h := v[0] + [x];
    if |h| == BLOCK_SIZE then [[], h] + v[1..] else [h] + v[1..]
  }

  predicate Empty<T>(v: View<T>) {
    |v| == 1 && v[0] == []
  }

  function Removed<T>(v: View<T>): (View<T>, T)
    requires Valid(v) && !Empty(v)
  {
    if v[0] == [] then ([v[1][..BLOCK_SIZE - 1]] + v[2..], v[1][BLOCK_SIZE - 1])
    else ([v[0][..|v[0]| - 1]] + v[1..], v[0][|v[0]| - 1])
  }

  /** removeFullBlock gives a block away only from two full blocks on. */
  predicate CanGive<T>(v: View<T>) {
    |v| >= 3
  }

  function Given<T>(v: View<T>): (View<T>, seq<T>)
    requires CanGive(v)
  {
    ([v[0]] + v[2..], v[1])
  }

  // ---------------------------------------------------------------- a stack, and a multiset

  lemma {:induction false} OrderAppend<T>(v: View<T>, w: View<T>)
    ensures Order(v + w) == Order(v) + Order(w)
  {
    if v == [] {
      assert v + w == w;
    } else {
      assert (v + w)[1..] == v[1..] + w;
      OrderAppend(v[1..], w);
    }
  }

  lemma ReversedPush<T>(s: seq<T>, x: T)
    ensures Reversed(s + [x]) == [x] + Reversed(s)
  {
    assert (s + [x])[..|s|] == s;
  }

  /** add puts the object first in iteration order. */
  lemma AddPushes<T>(v: View<T>, x: T)
    requires Valid(v)
    ensures Valid(Added(v, x)) && Order(Added(v, x)) == [x] + Order(v)
  {
    var h := v[0] + [x];
    ReversedPush(v[0], x);
    assert ([h] + v[1..])[1..] == v[1..];
    assert ([[], h] + v[1..])[1..] == [h] + v[1..];
    assert Order([h] + v[1..]) == [x] + Order(v);
  }

  /** remove takes the object that is first in iteration order. */
  lemma RemovePops<T>(v: View<T>)
    requires Valid(v) && !Empty(v)
    ensures Valid(Removed(v).0) && Order(v) == [Removed(v).1] + Order(Removed(v).0)
  {
    var (w, x) := Removed(v);
    if v[0] == [] {
      assert v[1] == v[1][..BLOCK_SIZE - 1] + [x];
      ReversedPush(v[1][..BLOCK_SIZE - 1], x);
      assert v[1..][1..] == v[2..] && w[1..] == v[2..];
      assert Order(v) == Order(v[1..]);
    } else {
      assert v[0] == v[0][..|v[0]| - 1] + [x];
      ReversedPush(v[0][..|v[0]| - 1], x);
      assert w[1..] == v[1..];
    }
  }

  lemma AddThenRemove<T>(v: View<T>, x: T)
    requires Valid(v)
    ensures Removed(Added(v, x)) == (v, x)
  {
    var h := v[0] + [x];
    if |h| == BLOCK_SIZE {
      assert h[..BLOCK_SIZE - 1] == v[0];
      assert [v[0]] + ([[], h] + v[1..])[2..] == v;
    } else {
      assert [v[0]] + ([h] + v[1..])[1..] == v;
    }
  }

  lemma {:induction false} OrderMultiset<T>(v: View<T>)
    ensures v != [] ==> multiset(Order(v)) == multiset(v[0]) + multiset(Order(v[1..]))
  {
    if v != [] { ReversedMultiset(v[0]); }
  }

  lemma {:induction false} ReversedMultiset<T>(s: seq<T>)
    ensures multiset(Reversed(s)) == multiset(s)
  {
    if s != [] {
      ReversedMultiset(s[..|s| - 1]);
      assert s == s[..|s| - 1] + [s[|s| - 1]];
    }
  }

  /** removeFullBlock takes a full block and loses no object. */
  lemma GiveConserves<T>(v: View<T>)
    requires Valid(v) && CanGive(v)
    ensures Valid(Given(v).0) && |Given(v).1| == BLOCK_SIZE
    ensures multiset(Order(v)) == multiset(Order(Given(v).0)) + multiset(Given(v).1)
  {
    var (w, b) := Given(v);
    OrderMultiset(v);
    OrderMultiset(v[1..]);
    OrderMultiset(w);
    assert v[1..][1..] == v[2..] && w[1..] == v[2..];
  }

  /** Full blocks appended at the tail come last. */
  lemma AppendFull<T>(v: View<T>, w: View<T>)
    requires Valid(v) && forall i :: 0 <= i < |w| ==> |w[i]| == BLOCK_SIZE
    ensures Valid(v + w) && Order(v + w) == Order(v) + Order(w)
  {
    OrderAppend(v, w);
  }

  /** Moving the last blocks of one bag to the end of another keeps both valid. */
  lemma ValidMove<T>(v: View<T>, kept: View<T>, gone: View<T>)
    requires Valid(v) && Valid(kept + gone) && kept != []
    ensures Valid(v + gone) && Valid(kept)
  {
    forall i | 0 <= i < |gone| ensures |gone[i]| == BLOCK_SIZE { assert gone[i] == (kept + gone)[|kept| + i]; }
    forall i | 0 <= i < |kept| ensures kept[i] == (kept + gone)[i] {}
  }

  lemma {:induction false} FullSize<T>(v: View<T>)
    requires forall i :: 0 <= i < |v| ==> |v[i]| == BLOCK_SIZE
    ensures |Order(v)| == |v| * BLOCK_SIZE
  {
    if v != [] {
      FullSize(v[1..]);
      assert |v| * BLOCK_SIZE == BLOCK_SIZE + |v[1..]| * BLOCK_SIZE;
    }
  }

  /** computeSizeFast counts the objects. */
  lemma FastSize<T>(v: View<T>)
    requires Valid(v)
    ensures (|v| - 1) * BLOCK_SIZE + |v[0]| == |Order(v)|
  {
    FullSize(v[1..]);
  }

  // ---------------------------------------------------------------- positions in iteration order

  /** The number of objects in the first `n` blocks. */
  function Base<T>(v: View<T>, n: nat): nat
    requires n <= |v|
  {
    if n == 0 then 0 else Base(v, n - 1) + |v[n - 1]|
  }

  /** The number of objects an iterator has passed at index `ix` of block `n`. */
  function Rank<T>(v: View<T>, n: nat, ix: int): int {
    if n < |v| then Base(v, n) + |v[n]| - 1 - ix else if n == |v| then Base(v, n) else 0
  }

  lemma {:induction false} BaseTail<T>(v: View<T>, n: nat)
    requires 0 < n <= |v|
    ensures Base(v, n) == |v[0]| + Base(v[1..], n - 1)
  {
    if n > 1 { BaseTail(v, n - 1); }
  }

  lemma {:induction false} OrderSize<T>(v: View<T>)
    ensures |Order(v)| == Base(v, |v|)
  {
    if v != [] {
      OrderSize(v[1..]);
      BaseTail(v, |v|);
    }
  }

  /** The object at index `ix` of block `n` is visited when as many objects have been passed. */
  lemma {:induction false} OrderAt<T>(v: View<T>, n: nat, ix: nat)
    requires n < |v| && ix < |v[n]|
    ensures 0 <= Rank(v, n, ix) < |Order(v)| && Order(v)[Rank(v, n, ix)] == v[n][ix]
  {
    if n > 0 {
      OrderAt(v[1..], n - 1, ix);
      BaseTail(v, n);
    }
  }

  lemma RankEnds<T>(v: View<T>)
    requires |v| > 0
    ensures Rank(v, 0, |v[0]|) == -1 && forall ix: int :: Rank(v, |v|, ix) == |Order(v)|
  {
    OrderSize(v);
  }

  /** `visited` is what an iterator at index `ix` of block `n` has passed. */
  ghost predicate Passed<T>(v: View<T>, n: nat, ix: int, visited: seq<T>) {
    |visited| == Rank(v, n, ix) && visited <= Order(v)
  }

  lemma Pass<T>(v: View<T>, n: nat, ix: nat, visited: seq<T>)
    requires n < |v| && ix < |v[n]| && Passed(v, n, ix, visited)
    ensures |visited| + 1 == Rank(v, n, ix) + 1 && visited + [v[n][ix]] <= Order(v)
  {
    OrderAt(v, n, ix);
  }

  // ---------------------------------------------------------------- runs of add and remove

  datatype Op<T> = Add(x: T) | Remove

  function RunBag<T>(v: View<T>, ops: seq<Op<T>>): View<T>
    requires Valid(v)
    decreases |ops|
  {
    if ops == [] then v else
    match ops[0]
    case Add(x) => AddPushes(v, x); RunBag(Added(v, x), ops[1..])
    case Remove => if Empty(v) then RunBag(v, ops[1..]) else RemovePops(v); RunBag(Removed(v).0, ops[1..])
  }

  /** The same on a plain stack, newest first. */
  function RunStack<T>(s: seq<T>, ops: seq<Op<T>>): seq<T>
    decreases |ops|
  {
    if ops == [] then s else
    match ops[0]
    case Add(x) => RunStack([x] + s, ops[1..])
    case Remove => RunStack(if s == [] then s else s[1..], ops[1..])
  }

  /** A bag built by add and remove is visited in reverse order of insertion: it is a stack. */
  lemma {:induction false} BagIsStack<T>(v: View<T>, ops: seq<Op<T>>)
    requires Valid(v)
    ensures Valid(RunBag(v, ops)) && Order(RunBag(v, ops)) == RunStack(Order(v), ops)
    decreases |ops|
  {
    if ops != [] {
      match ops[0]
      case Add(x) =>
        AddPushes(v, x);
        BagIsStack(Added(v, x), ops[1..]);
      case Remove =>
        EmptyOrder(v);
        if Empty(v) {
          BagIsStack(v, ops[1..]);
        } else {
          RemovePops(v);
          BagIsStack(Removed(v).0, ops[1..]);
        }
    }
  }

  lemma EmptyOrder<T>(v: View<T>)
    requires Valid(v)
    ensures Empty(v) <==> Order(v) == []
  {
    FastSize(v);
  }
}
