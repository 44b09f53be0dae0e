/**
 * A set of elements as a linked list threaded through an open-addressing hash table.
 *
 * The table is modelled for every mixing function `mix`; masking with a power of two less one is
 * reduction modulo that power.
 */
module HashList {
  import opened Probing

  /** A node is in a list and in a hash table. */
  class HLNode<T> {
    var next: HLNode?<T>
    var element: T
    var hashTableIndex: int

    constructor (next: HLNode?<T>, element: T)
      ensures this.next == next && this.element == element
    {
      this.next := next;
      this.element := element;
      hashTableIndex := -1;
    }
  }

  function NodeAt<T>(list: seq<HLNode<T>>, i: nat): HLNode?<T> {
    if i < |list| then list[i] else null
  }

  function SetOf<T>(list: seq<HLNode<T>>): set<HLNode<T>> {
    set x | x in list
  }

  /** Following `next` from `head` goes through `list` and ends. */
  ghost predicate Spine<T>(head: HLNode?<T>, list: seq<HLNode<T>>)
    reads list`next
  {
    && head == NodeAt(list, 0)
    && (forall i :: 0 <= i < |list| ==> list[i].next == NodeAt(list, i + 1))
    && (forall i, j :: 0 <= i < j < |list| ==> list[i] != list[j])
  }

  ghost function ElementsOf<T>(list: seq<HLNode<T>>): set<T>
    reads list`element
  {
    set x | x in list :: x.element
  }

  lemma ElementsCons<T>(node: HLNode<T>, list: seq<HLNode<T>>)
    ensures ElementsOf([node] + list) == ElementsOf(list) + {node.element}
    ensures SetOf([node] + list) == SetOf(list) + {node}
  {
    var all := [node] + list;
    assert forall x :: x in all <==> x == node || x in list;
    assert forall e :: e in ElementsOf(all) ==> e in ElementsOf(list) + {node.element};
    assert node in all;
    assert forall x :: x in list ==> x in all && x.element in ElementsOf(all);
  }

  ghost predicate Apart<T>(a: seq<HLNode<T>>, b: seq<HLNode<T>>) {
    forall x :: x in a ==> x !in b
  }

  lemma NoSpine<T>(all: seq<HLNode<T>>)
    ensures Spine<T>(null, []) && Apart([], all)
  {}

  lemma SpineTail<T>(head: HLNode?<T>, list: seq<HLNode<T>>)
    requires Spine(head, list) && list != []
    ensures head == list[0] && Spine(list[0].next, list[1..]) && list[0] !in list[1..]
  {}

  lemma SpineCons<T>(node: HLNode<T>, head: HLNode?<T>, list: seq<HLNode<T>>)
    requires Spine(head, list) && node.next == head && node !in list
    ensures Spine(node, [node] + list)
  {}

  lemma ApartCons<T>(node: HLNode<T>, list: seq<HLNode<T>>, free: seq<HLNode<T>>)
    requires Apart(list, free) && node !in free
    ensures Apart([node] + list, free)
  {}

  /** A list whose last node points to the head of another goes on through that one. */
  lemma SpineAppend<T>(head: HLNode<T>, list: seq<HLNode<T>>, front: HLNode?<T>, rest: seq<HLNode<T>>)
    requires list != [] && head == list[0] && list[|list| - 1].next == front && Spine(front, rest)
    requires forall i :: 0 <= i < |list| - 1 ==> list[i].next == list[i + 1]
    requires (forall i, j :: 0 <= i < j < |list| ==> list[i] != list[j]) && forall x :: x in list ==> x !in rest
    ensures Spine(head, list + rest)
  {
    var all, n := list + rest, |list|;
    forall i, j | 0 <= i < j < |all| ensures all[i] != all[j] {
      assert i < n <= j ==> list[i] in list && rest[j - n] in rest;
    }
    forall i | 0 <= i < |all| ensures all[i].next == NodeAt(all, i + 1) {
      assert i >= n ==> all[i] == rest[i - n];
    }
  }

  /** The nodes of a list are different, so a prefix is a set of as many nodes. */
  lemma {:induction false} SetOfSize<T>(list: seq<HLNode<T>>, n: nat)
    requires n <= |list| && forall i, j :: 0 <= i < j < |list| ==> list[i] != list[j]
    ensures |SetOf(list[..n])| == n
  {
    if n == 0 {
      assert SetOf(list[..0]) == {};
    } else {
      SetOfSize(list, n - 1);
      assert SetOf(list[..n]) == SetOf(list[..n - 1]) + {list[n - 1]};
    }
  }

  /** Nodes hold different elements. */
  ghost predicate Different<T>(nodes: set<HLNode<T>>)
    reads nodes`element
  {
    forall x, y :: x in nodes && y in nodes && x.element == y.element ==> x == y
  }

  /** An element whose probes start at `h` is found in slot `ix`: no slot before it on the way is empty. */
  ghost predicate Chained<T>(slots: seq<HLNode?<T>>, h: nat, ix: nat)
    requires |slots| > 0
  {
    exists n: nat :: ReachedIn(slots, h, ix, n)
  }

  ghost predicate ReachedIn<T>(slots: seq<HLNode?<T>>, h: nat, ix: nat, n: nat)
    requires |slots| > 0
  {
    Probe(h, n, |slots|) == ix && forall m: nat :: m < n ==> slots[Probe(h, m, |slots|)] != null
  }

  /** Filling slots keeps every element where its search ends. */
  lemma ChainStays<T>(slots: seq<HLNode?<T>>, slots': seq<HLNode?<T>>, h: nat, ix: nat)
    requires 0 < |slots| == |slots'| && forall i :: 0 <= i < |slots| && slots[i] != null ==> slots'[i] != null
    requires Chained(slots, h, ix)
    ensures Chained(slots', h, ix)
  {
    var n: nat :| ReachedIn(slots, h, ix, n);
    assert ReachedIn(slots', h, ix, n);
  }

  /** With fewer nodes than slots, a slot is empty. */
  lemma {:induction false} RoomLeft<T>(slots: seq<HLNode?<T>>, nodes: set<HLNode<T>>) returns (ix: nat)
    requires |nodes| < |slots|
    requires forall i :: 0 <= i < |slots| && slots[i] != null ==> slots[i] in nodes
    requires forall i, j :: 0 <= i < j < |slots| && slots[i] != null ==> slots[i] != slots[j]
    ensures ix < |slots| && slots[ix] == null
  {
    var n := |slots| - 1;
    if slots[n] == null {
      ix := n;
    } else {
      ix := RoomLeft(slots[..n], nodes - {slots[n]});
    }
  }

  /** A search from any hash value meets an empty slot before step 2 * capacity. */
  lemma SearchEnds<T>(slots: seq<HLNode?<T>>, k: nat, h: nat, ix: nat) returns (n: nat)
    requires |slots| == Pow2(k) && ix < |slots| && slots[ix] == null
    ensures n < 2 * |slots| && slots[Probe(h, n, |slots|)] == null
  {
    var m := EvenProbesPermute(k, h, ix);
    n := 2 * m;
  }

  /** A search for an element that is not there ends exactly when a slot is empty, from whatever hash value it starts. */
  lemma SearchEndsIffRoom<T>(slots: seq<HLNode?<T>>, k: nat, h: nat)
    requires |slots| == Pow2(k)
    ensures EndsFrom(slots, h) <==> null in slots
  {
    if null in slots {
      var ix :| 0 <= ix < |slots| && slots[ix] == null;
      var n := SearchEnds(slots, k, h, ix);
    }
  }

  /** A table of capacity 1 with a node in it: no search for another element ends. */
  lemma FullOfOne<T>(x: HLNode<T>, h: nat)
    ensures !EndsFrom([x], h)
  {
    SearchEndsIffRoom([x], 0, h);
  }

  ghost predicate EndsFrom<T>(slots: seq<HLNode?<T>>, h: nat)
    requires |slots| > 0
  {
    exists n: nat :: slots[Probe(h, n, |slots|)] == null
  }

  /** The slots hold exactly `nodes`, each where its probes find it, with different elements. */
  ghost predicate Holding<T>(slots: seq<HLNode?<T>>, nodes: set<HLNode<T>>, mix: T -> nat)
    requires |slots| > 0
    reads nodes
  {
    && (forall i :: 0 <= i < |slots| && slots[i] != null ==> slots[i] in nodes && slots[i].hashTableIndex == i)
    && (forall x :: x in nodes ==> InPlace(slots, x, mix))
    && Different(nodes)
  }

  ghost predicate InPlace<T>(slots: seq<HLNode?<T>>, x: HLNode<T>, mix: T -> nat)
    requires |slots| > 0
    reads x
  {
    0 <= x.hashTableIndex < |slots| && slots[x.hashTableIndex] == x && Chained(slots, mix(x.element), x.hashTableIndex)
  }

  lemma NothingHeld<T>(slots: seq<HLNode?<T>>, mix: T -> nat)
    requires |slots| > 0 && forall i :: 0 <= i < |slots| ==> slots[i] == null
    ensures Holding(slots, {}, mix)
  {}

  /** Every slot in use is the stored index of a listed node. */
  lemma HoldingIndices<T>(slots: seq<HLNode?<T>>, list: seq<HLNode<T>>, mix: T -> nat)
    requires |slots| > 0 && Holding(slots, SetOf(list), mix)
    ensures forall i :: 0 <= i < |slots| && slots[i] != null ==> slots[i] in list && slots[i].hashTableIndex == i
    ensures forall j :: 0 <= j < |list| ==> 0 <= list[j].hashTableIndex < |slots|
  {
    hide Chained;
    forall j | 0 <= j < |list| ensures 0 <= list[j].hashTableIndex < |slots| { assert InPlace(slots, list[j], mix); }
  }

  /** A node put in the empty slot where its search ended leaves every other node where its search ends. */
  lemma PutKeeps<T>(slots: seq<HLNode?<T>>, ix: nat, node: HLNode<T>, nodes: set<HLNode<T>>, mix: T -> nat)
    requires ix < |slots| && slots[ix] == null && Holding(slots, nodes, mix) && Chained(slots, mix(node.element), ix)
    requires node !in nodes && node.hashTableIndex == ix && forall x :: x in nodes ==> x.element != node.element
    ensures Holding(slots[ix := node], nodes + {node}, mix)
  {
    forall x | x in nodes + {node} ensures InPlace(slots[ix := node], x, mix) {
      assert x in nodes ==> InPlace(slots, x, mix);
      ChainStays(slots, slots[ix := node], mix(x.element), x.hashTableIndex);
    }
  }

  // ---------------------------------------------------------------- when searches end

  /** The search for `element` comes to an empty slot or to a node with that element. */
  ghost predicate Stops<T>(slots: seq<HLNode?<T>>, h: nat, element: T)
    requires |slots| > 0
    reads set x | x in slots
  {
    exists n: nat :: StopsAt(slots, h, element, n)
  }

  ghost predicate StopsAt<T>(slots: seq<HLNode?<T>>, h: nat, element: T, n: nat)
    requires |slots| > 0
    reads set x | x in slots
  {
    var x := slots[Probe(h, n, |slots|)];
    x == null || x.element == element
  }

  ghost predicate Present<T>(nodes: set<HLNode<T>>, element: T)
    reads nodes
  {
    exists x :: x in nodes && x.element == element
  }

  /** Nodes that all have a slot are no more than the slots, and fewer if a slot is empty. */
  lemma {:induction false} NodesFit<T>(slots: seq<HLNode?<T>>, nodes: set<HLNode<T>>)
    requires forall x :: x in nodes ==> x in slots
    ensures |nodes| <= |slots| && (null in slots ==> |nodes| < |slots|)
  {
    if slots == [] {
      assert nodes == {};
    } else {
      var n := |slots| - 1;
      assert slots == slots[..n] + [slots[n]];
      if slots[n] == null {
        NodesFit(slots[..n], nodes);
      } else {
        NodesFit(slots[..n], nodes - {slots[n]});
      }
    }
  }

  /** findIx returns exactly when there is room or the element is in the table. */
  lemma ReturnsIff<T>(slots: seq<HLNode?<T>>, nodes: set<HLNode<T>>, mix: T -> nat, k: nat, element: T)
    requires |slots| == Pow2(k) && Holding(slots, nodes, mix)
    ensures Stops(slots, mix(element), element) <==> |nodes| < |slots| || Present(nodes, element)
  {
    if |nodes| < |slots| || Present(nodes, element) {
      var n := StopsBy(slots, nodes, mix, k, element);
      assert StopsAt(slots, mix(element), element, n);
    } else if Stops(slots, mix(element), element) {
      var n: nat :| StopsAt(slots, mix(element), element, n);
      forall x | x in nodes ensures x in slots { assert InPlace(slots, x, mix); }
      NodesFit(slots, nodes);
    }
  }

  /** The search stops before step 2 * capacity. */
  lemma StopsBy<T>(slots: seq<HLNode?<T>>, nodes: set<HLNode<T>>, mix: T -> nat, k: nat, element: T) returns (n: nat)
    requires |slots| == Pow2(k) && Holding(slots, nodes, mix) && (|nodes| < |slots| || Present(nodes, element))
    ensures n < 2 * |slots| && StopsAt(slots, mix(element), element, n)
  {
    if |nodes| < |slots| {
      var free := RoomLeft(slots, nodes);
      n := SearchEnds(slots, k, mix(element), free);
    } else {
      var x :| x in nodes && x.element == element;
      assert InPlace(slots, x, mix);
      var m := EvenProbesPermute(k, mix(element), x.hashTableIndex);
      n := 2 * m;
    }
  }

  // ---------------------------------------------------------------- the load rule

  /** How many nodes and slots a table has, and the operations that change it. */
  datatype Load = Load(size: nat, capacity: nat)
  datatype TableOp = Inserting | Clearing

  function NextLoad(l: Load, op: TableOp): Load {
    match op
    case Inserting => Load(l.size + 1, if l.size * 2 < l.capacity then l.capacity else 2 * l.capacity)
    case Clearing => l.(size := 0)
  }

  function LoadAfter(initialCapacity: nat, ops: seq<TableOp>): Load
    decreases |ops|
  {
    if ops == [] then Load(0, initialCapacity) else NextLoad(LoadAfter(initialCapacity, ops[..|ops| - 1]), ops[|ops| - 1])
  }

  /** From capacity 2 on, the table stays at most half full. */
  lemma {:induction false} HalfFull(j: nat, ops: seq<TableOp>)
    requires Pow2(j) >= 2
    ensures var l := LoadAfter(Pow2(j), ops); l.capacity >= 2 && l.capacity % 2 == 0 && l.size * 2 <= l.capacity
    decreases |ops|
  {
    if ops != [] { HalfFull(j, ops[..|ops| - 1]); }
  }

  /** After every sequence of operations there is room for a search to end, if and only if the initial capacity is at least 2. */
  lemma RoomIffTwo(k: nat)
    ensures (forall ops :: LoadAfter(Pow2(k), ops).size < LoadAfter(Pow2(k), ops).capacity) <==> Pow2(k) >= 2
  {
    if Pow2(k) >= 2 {
      forall ops ensures LoadAfter(Pow2(k), ops).size < LoadAfter(Pow2(k), ops).capacity { HalfFull(k, ops); }
    } else {
      assert Pow2(k) == 1 && [Inserting][..0] == [];
      assert LoadAfter(1, [Inserting]) == NextLoad(LoadAfter(1, []), Inserting) == Load(1, 1);
    }
  }

  /**
   * In a table that has come about by insertions and clearing from capacity 2 or more, every search ends. In one of
   * initial capacity 1 after its first insertion, the search for the inserted element is the only one that does.
   */
  lemma SearchesEnd<T>(slots: seq<HLNode?<T>>, nodes: set<HLNode<T>>, mix: T -> nat, k: nat, j: nat, ops: seq<TableOp>, element: T)
    requires |slots| == Pow2(k) && Holding(slots, nodes, mix) && LoadAfter(Pow2(j), ops) == Load(|nodes|, |slots|)
    ensures Pow2(j) >= 2 ==> Stops(slots, mix(element), element)
    ensures Pow2(j) == 1 && ops == [Inserting] ==> (Stops(slots, mix(element), element) <==> Present(nodes, element))
  {
    ReturnsIff(slots, nodes, mix, k, element);
    if Pow2(j) >= 2 {
      HalfFull(j, ops);
    } else if ops == [Inserting] {
      assert LoadAfter(1, ops[..0]) == Load(0, 1);
    }
  }

  class HashTable<T(==)> {
    const mix: T -> nat
    var data: array<HLNode?<T>>
    var size: nat
    var capacity: nat

    ghost predicate Shape()
      reads this
    {
      capacity == data.Length && exists k: nat :: capacity == Pow2(k)
    }

    /** The table holds exactly `nodes`. */
    ghost predicate Valid(nodes: set<HLNode<T>>)
      reads this, data, nodes
    {
      Shape() && size == |nodes| <= capacity && Holding(data[..], nodes, mix)
    }

    ghost function TableLoad(): Load
      reads this
    {
      Load(size, capacity)
    }

    /** HashTable::init */
    constructor (mix: T -> nat, initialCapacity: nat, ghost k: nat)
      requires initialCapacity == Pow2(k)
      ensures Valid({}) && fresh(data) && TableLoad() == LoadAfter(initialCapacity, []) && this.mix == mix
    {
      this.mix := mix;
      size := 0;
      capacity := initialCapacity;
      data := new HLNode?<T>[initialCapacity](_ => null);
    }

    /**
     * Wherever it returns at all, the search ends within 2 * capacity probes, at the node that holds the element or at
     * the empty slot where it belongs.
     */
    method FindIx(element: T, ghost nodes: set<HLNode<T>>) returns (ix: nat, ghost steps: nat)
      requires Valid(nodes) && (size < capacity || Present(nodes, element))
      ensures ix < data.Length && steps < 2 * capacity && ix == Probe(mix(element), steps, capacity)
      ensures data[ix] == null ==> (forall x :: x in nodes ==> x.element != element) && Chained(data[..], mix(element), ix)
      ensures data[ix] != null ==> data[ix] in nodes && data[ix].element == element
    {
      ghost var h, slots := mix(element), data[..];
      ghost var k: nat :| capacity == Pow2(k);
      ghost var last := StopsBy(slots, nodes, mix, k, element);
      ix := mix(element) % capacity;
      var i := 0;
      while data[ix] != null
        invariant i <= last && ix < capacity && ix == Probe(h, i, capacity)
        invariant forall m: nat :: m < i ==> slots[Probe(h, m, capacity)] != null && slots[Probe(h, m, capacity)].element != element
        decreases last - i
      {
        if data[ix].element == element { return ix, i; }
        ProbeStep(h, i, capacity);
        i := i + 1;
        ix := (ix + i * i) % capacity;
      }
      steps := i;
      assert ReachedIn(slots, h, ix, i);
      forall x | x in nodes ensures x.element != element { NotThere(element, ix, i, nodes, x); }
    }

    /** An empty slot on the way of an element's probes, with no node of that element before it, shows the element is not in the table. */
    lemma NotThere(element: T, ix: nat, i: nat, nodes: set<HLNode<T>>, x: HLNode<T>)
      requires Valid(nodes) && x in nodes && ix < capacity && data[ix] == null && ix == Probe(mix(element), i, capacity)
      requires forall m: nat :: m < i ==> data[Probe(mix(element), m, capacity)] != null && data[Probe(mix(element), m, capacity)].element != element
      ensures x.element != element
    {
      assert InPlace(data[..], x, mix);
      var n: nat :| ReachedIn(data[..], mix(x.element), x.hashTableIndex, n);
      assert data[..][x.hashTableIndex] == x;
    }

    /** HashTable::find */
    method Find(element: T, ghost nodes: set<HLNode<T>>) returns (node: HLNode?<T>)
      requires Valid(nodes) && (size < capacity || Present(nodes, element))
      ensures node == null ==> forall x :: x in nodes ==> x.element != element
      ensures node != null ==> node in nodes && node.element == element
    {
      var ix, steps := FindIx(element, nodes);
      node := data[ix];
    }

    /** insertNode without its call of tryExpand. */
    method Place(node: HLNode<T>, ghost nodes: set<HLNode<T>>)
      requires Valid(nodes) && size < capacity
      requires node !in nodes && forall x :: x in nodes ==> x.element != node.element
      modifies this`size, data, node`hashTableIndex
      ensures Valid(nodes + {node}) && size == old(size) + 1
    {
      hide Holding, Chained;
      var ix, steps := FindIx(node.element, nodes);
      ghost var slots := data[..];
      data[ix] := node;
      node.hashTableIndex := ix;
      size := size + 1;
      assert data[..] == slots[ix := node];
      PutKeeps(slots, ix, node, nodes, mix);
    }

    /**
     * insertNode: the table may first double and rehash the whole list, whose nodes are then `nodes`.
     */
    method InsertNode(node: HLNode<T>, head: HLNode?<T>, ghost list: seq<HLNode<T>>, ghost nodes: set<HLNode<T>>)
      requires Valid(nodes) && node !in nodes && forall x :: x in nodes ==> x.element != node.element
      requires size * 2 >= capacity ==> Spine(head, list) && SetOf(list) == nodes
      modifies this`size, this`data, this`capacity, data, nodes`hashTableIndex, node`hashTableIndex
      ensures Valid(nodes + {node}) && (data == old(data) || fresh(data)) && TableLoad() == NextLoad(old(TableLoad()), Inserting)
      ensures old(size * 2 < capacity) ==> data == old(data)
      decreases if size * 2 >= capacity then 1 else 0, 1
    {
      TryExpand(head, list, nodes);
      Place(node, nodes);
    }

    /** tryExpand: afterwards the table has room and holds the same nodes. */
    method TryExpand(head: HLNode?<T>, ghost list: seq<HLNode<T>>, ghost nodes: set<HLNode<T>>)
      requires Valid(nodes)
      requires size * 2 >= capacity ==> Spine(head, list) && SetOf(list) == nodes
      modifies this`size, this`data, this`capacity, nodes`hashTableIndex
      ensures Valid(nodes) && size == old(size) < capacity && (data == old(data) || fresh(data))
      ensures old(size * 2 < capacity) ==> data == old(data)
      ensures capacity == if old(size * 2 < capacity) then old(capacity) else 2 * old(capacity)
      decreases if size * 2 >= capacity then 1 else 0, 0
    {
      if size * 2 < capacity { return; }
      ghost var k: nat :| capacity == Pow2(k);
      assert 2 * capacity == Pow2(k + 1);
      assert Different(nodes);
      hide Holding;
      capacity := 2 * capacity;
      data := new HLNode?<T>[capacity](_ => null);
      size := 0;
      NothingHeld(data[..], mix);
      assert list[..|list|] == list;
      SetOfSize(list, |list|);
      Rehash(head, list, nodes);
    }

    /** The loop of tryExpand, over a table that is empty and large enough. */
    method Rehash(head: HLNode?<T>, ghost list: seq<HLNode<T>>, ghost nodes: set<HLNode<T>>)
      requires Valid({}) && Spine(head, list) && SetOf(list) == nodes && Different(nodes) && |list| * 2 <= capacity
      modifies this`size, this`data, this`capacity, data, nodes`hashTableIndex
      ensures Valid(nodes) && size == |list| && capacity == old(capacity) && data == old(data)
      decreases 0, 2
    {
      hide Holding;
      var curr := head;
      ghost var i := 0;
      assert SetOf(list[..0]) == {};
      while curr != null
        invariant i <= |list| && curr == NodeAt(list, i) && Spine(head, list) && Different(nodes)
        invariant Valid(SetOf(list[..i])) && size == i && capacity == old(capacity) && data == old(data)
        decreases |list| - i
      {
        hide Valid;
        NextNode(list, i);
        InsertNode(curr, head, list, SetOf(list[..i]));
        SizeIs(SetOf(list[..i + 1]));
        curr := curr.next;
        i := i + 1;
      }
      assert list[..i] == list;
    }

    /** clear: emptying through the list's stored indices leaves the same table as emptying every slot. */
    method Clear(head: HLNode?<T>, ghost list: seq<HLNode<T>>)
      requires Valid(SetOf(list)) && Spine(head, list)
      modifies this`size, data
      ensures Valid({}) && TableLoad() == NextLoad(old(TableLoad()), Clearing) && forall i :: 0 <= i < data.Length ==> data[i] == null
    {
      if size * 4 < capacity {
        ClearListed(head, list);
      } else {
        for i := 0 to capacity
          invariant forall j :: 0 <= j < i ==> data[j] == null
        {
          data[i] := null;
        }
      }
      size := 0;
      NothingHeld(data[..], mix);
    }

    method ClearListed(head: HLNode?<T>, ghost list: seq<HLNode<T>>)
      requires Valid(SetOf(list)) && Spine(head, list)
      modifies data
      ensures forall i :: 0 <= i < data.Length ==> data[i] == null
    {
      var curr := head;
      ghost var n := 0;
      HoldingIndices(data[..], list, mix);
      hide Valid, Holding;
      assert list[0..] == list && forall i :: 0 <= i < data.Length ==> data[..][i] == data[i];
      while curr != null
        invariant n <= |list| && curr == NodeAt(list, n)
        invariant forall i :: 0 <= i < data.Length && data[i] != null ==> data[i] in list[n..] && data[i].hashTableIndex == i
        decreases |list| - n
      {
        data[curr.hashTableIndex] := null;
        assert list[n..] == [curr] + list[n + 1..];
        curr := curr.next;
        n := n + 1;
      }
    }

    lemma SizeIs(nodes: set<HLNode<T>>)
      requires Valid(nodes)
      ensures size == |nodes|
    {}
  }

  lemma NextNode<T>(list: seq<HLNode<T>>, i: nat)
    requires i < |list| && (forall a, b :: 0 <= a < b < |list| ==> list[a] != list[b]) && Different(SetOf(list))
    ensures list[i] !in SetOf(list[..i]) && SetOf(list[..i]) + {list[i]} == SetOf(list[..i + 1]) && |SetOf(list[..i + 1])| == i + 1
    ensures SetOf(list[..i]) <= SetOf(list) && forall x :: x in SetOf(list[..i]) ==> x.element != list[i].element
  {
    SetOfSize(list, i + 1);
    forall x | x in SetOf(list[..i]) ensures x.element != list[i].element { assert x in SetOf(list) && list[i] in SetOf(list); }
  }

  class HashList<T(==)> {
    var ht: HashTable<T>
    var head: HLNode?<T>
    var tail: HLNode?<T>
    var freeNodes: HLNode?<T>
    var size: nat
    ghost var list: seq<HLNode<T>>
    ghost var free: seq<HLNode<T>>

    ghost predicate Linked()
      reads this, list`next, free`next
    {
      && Spine(head, list) && Spine(freeNodes, free) && Apart(list, free)
      && (if list == [] then tail == null else tail == list[|list| - 1])
      && size == |list|
    }

    ghost predicate Valid()
      reads this, ht, ht.data, list, free
    {
      Linked() && ht.Valid(SetOf(list))
    }

    /** The set the list stands for. */
    ghost function Elements(): set<T>
      reads this, list`element
    {
      ElementsOf(list)
    }

    constructor (mix: T -> nat, initialCapacity: nat, ghost k: nat)
      requires initialCapacity == Pow2(k)
      ensures Valid() && Elements() == {} && ht.TableLoad() == LoadAfter(initialCapacity, []) && fresh(ht) && fresh(ht.data) && list == [] && free == []
    {
      head, tail, freeNodes, size := null, null, null, 0;
      list, free := [], [];
      ht := new HashTable(mix, initialCapacity, k);
      new;
      assert SetOf(list) == {};
    }

    /** The search for the element returns. */
    ghost predicate Returns(element: T)
      reads this, ht, list`element
    {
      ht.size < ht.capacity || element in Elements()
    }

    /** With an initial capacity of 2 or more, every search returns. */
    lemma AlwaysReturns(j: nat, ops: seq<TableOp>, element: T)
      requires Pow2(j) >= 2 && ht.TableLoad() == LoadAfter(Pow2(j), ops)
      ensures Returns(element)
    {
      HalfFull(j, ops);
    }

    method Contains(element: T) returns (found: bool)
      requires Valid() && Returns(element)
      ensures found <==> element in Elements()
    {
      var node := ht.Find(element, SetOf(list));
      found := node != null;
    }

    /** A freed node is used again before a new one is made. */
    method AllocateNode(element: T) returns (node: HLNode<T>)
      requires Linked()
      modifies this`freeNodes, this`free, free
      ensures Elements() == old(Elements()) && forall x :: x in list ==> x !in old(free)
      ensures Linked() && node !in list && node !in free && node.next == head && node.element == element
      ensures if old(free) == [] then fresh(node) && free == [] else node == old(free)[0] && free == old(free)[1..]
    {
      if freeNodes != null {
        SpineTail(freeNodes, free);
        node := freeNodes;
        assert node in free;
        freeNodes := freeNodes.next;
        free := free[1..];
        node.element := element;
        node.next := head;
      } else {
        node := new HLNode(head, element);
      }
    }

    /** The node becomes the head of the list. */
    method Link(node: HLNode<T>)
      requires Linked() && node !in list && node !in free && node.next == head
      modifies this`head, this`tail, this`list, this`size
      ensures Linked() && list == [node] + old(list)
    {
      SpineCons(node, head, list);
      ApartCons(node, list, free);
      hide Spine, Apart;
      if head == null { tail := node; }
      head := node;
      list := [node] + list;
      size := size + 1;
    }

    /** The part of insert for an element that is not in the table. */
    method Add(element: T)
      requires Valid() && forall x :: x in SetOf(list) ==> x.element != element
      modifies this, ht, ht.data, list, free
      ensures Valid() && Elements() == old(Elements()) + {element} && ht == old(ht)
      ensures free == if old(free) == [] then [] else old(free)[1..]
      ensures ht.TableLoad() == NextLoad(old(ht.TableLoad()), Inserting)
    {
      ghost var nodes := SetOf(list);
      hide ht.Valid, Spine, Linked, ElementsOf;
      var node := AllocateNode(element);
      assert forall x :: x in nodes ==> x !in old(free) && x.element == old(x.element);
      InsertInto(node);
      ElementsCons(node, list);
      Link(node);
    }

    /** The table takes the node in; the lists do not depend on where. */
    method InsertInto(node: HLNode<T>)
      requires Valid() && node !in list && node !in free && forall x :: x in SetOf(list) ==> x.element != node.element
      modifies ht, ht.data, SetOf(list)`hashTableIndex, node`hashTableIndex
      ensures Linked() && ht.Valid(SetOf(list) + {node}) && Elements() == old(Elements())
      ensures (ht.data == old(ht.data) || fresh(ht.data)) && ht.TableLoad() == NextLoad(old(ht.TableLoad()), Inserting)
    {
      ht.InsertNode(node, head, list, SetOf(list));
      hide ht.Valid, Spine, ElementsOf;
    }

    /** insert adds the element to the set, and nothing else. */
    method Insert(element: T)
      requires Valid() && Returns(element)
      modifies this, ht, ht.data, list, free
      ensures Valid() && Elements() == old(Elements()) + {element} && ht == old(ht)
      ensures old(element in Elements()) ==> list == old(list) && free == old(free)
      ensures ht.TableLoad() == if old(element in Elements()) then old(ht.TableLoad()) else NextLoad(old(ht.TableLoad()), Inserting)
    {
      var node := ht.Find(element, SetOf(list));
      if node == null { Add(element); }
    }

    /** The last node of the list goes on to the free ones. */
    method Chain()
      requires Linked() && tail != null
      modifies list`next
      ensures head != null && Spine(head, list + free)
    {
      assert tail in list;
      tail.next := freeNodes;
      SpineAppend(head, list, freeNodes, free);
    }

    /** The list's nodes go in front of the free ones. */
    method Splice()
      requires Linked()
      modifies this`head, this`tail, this`size, this`freeNodes, this`list, this`free, list`next
      ensures Linked() && list == [] && free == old(list) + old(free)
    {
      hide Spine, Apart;
      if tail != null {
        Chain();
        freeNodes := head;
      } else {
        assert list + free == free;
      }
      NoSpine<T>(list + free);
      head, tail, size := null, null, 0;
      free := list + free;
      list := [];
    }

    /** clear empties the set and keeps every node for reuse, the list's own first. */
    method Clear()
      requires Valid()
      modifies this, ht, ht.data, list
      ensures Valid() && Elements() == {} && list == [] && free == old(list) + old(free) && ht == old(ht)
      ensures ht.TableLoad() == NextLoad(old(ht.TableLoad()), Clearing)
    {
      ht.Clear(head, list);
      hide Spine;
      Splice();
      assert SetOf(list) == {};
    }
  }
}
