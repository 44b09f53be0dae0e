/**
 * LLX and SCX with reusable descriptors, as a step machine: one atomic load, store or
 * compare-and-swap per step, any number of threads, any schedule.
 *
 * `ops`, and `used` in a node, are history: no step of the algorithm reads them. `used` appears in
 * the usage rule of `scxExecute`, which asks that the new value has never been in the field.
 */
module ScxModel {

  type Tid = nat
  type NodeId = nat
  type Val = int

  datatype OpId = OpId(tid: Tid, sn: nat)

  /** scxPtr of a node: INIT_SCX_HANDLE or the tag of an SCX. */
  datatype Handle = InitHandle | Tag(k: OpId)

  datatype Node = Node(scxPtr: Handle, marked: bool, vals: seq<Val>, used: seq<set<Val>>)

  datatype State = InProgress | Committed | Aborted

  /** One word of a descriptor: a value, the address of a field, a count, a node, a flag, a handle. */
  datatype Word = WVal(v: Val) | WField(fn: NodeId, ix: nat) | WCount(c: nat) | WNode(n: NodeId) | WFlag(b: bool) | WHandle(h: Handle)

  /** `pay` is oldVal, newVal, field, numNodes, then node, finalize and scxPtrSeen of each entry. */
  datatype Slot = Slot(sn: nat, st: State, allFrozen: bool, pay: seq<Word>)

  datatype Entry = Entry(n: NodeId, fin: bool, seen: Handle)
  datatype Desc = Desc(oldv: Val, newv: Val, fn: NodeId, ix: nat, es: seq<Entry>)

  /** The history of an SCX: how many nodes were ever frozen for it, whether its update happened, what its LLXs saw. */
  datatype Op = Op(pay: seq<Word>, d: Desc, snaps: seq<seq<Val>>, st: State, allFrozen: bool, frozen: nat, updated: bool)

  datatype Shared = Shared(nodes: map<NodeId, Node>, slots: map<Tid, Slot>, ops: map<OpId, Op>)

  datatype HelpPc =
    | Copy                                  // helpOther: copying the record, then the sequence check
    | Freeze(i: nat)                        // freezing CAS on node i
    | Check(i: nat, done: bool)             // reading scxPtr of node i after it
    | ReadFrozen                            // reading allFrozen after a failed freeze
    | AbortRead | AbortCas(v: Slot)         // writing ABORTED
    | FrozenRead | FrozenCas(v: Slot)       // setting allFrozen
    | Mark(i: nat)                          // marking finalized nodes
    | Update                                // update CAS
    | CommitRead | CommitCas(v: Slot)       // writing COMMITTED

  datatype Frame = Frame(k: OpId, own: bool, buf: seq<Word>, hp: HelpPc)

  datatype Pc =
    | Idle
    | LlxMarked(x: NodeId)                                        // first read of marked
    | LlxPtr(x: NodeId, m: bool)                                  // read of scxPtr
    | LlxState(x: NodeId, m: bool, h: Handle)                     // read of the state
    | LlxMarked2(x: NodeId, m: bool, h: Handle)                   // second read of marked
    | LlxCopy(x: NodeId, m: bool, h: Handle, vals: seq<Val>)      // memcpy, then second read of scxPtr
    | LlxHelp(x: NodeId, m: bool, f: Frame)                       // helping the SCX found
    | Exec(f: Frame)
    | ExecNew(k: OpId, ok: bool)                                  // DESC1_NEW after help

  /** What the thread's last successful LLX on a node returned. */
  datatype Link = Link(h: Handle, vals: seq<Val>)

  datatype Result = NoResult | Linked(x: NodeId) | LlxFailed(x: NodeId) | LlxFinalized(x: NodeId) | Executed(k: OpId, ok: bool)

  datatype Thread = Thread(pc: Pc, links: map<NodeId, Link>, res: Result)

  datatype System = System(g: Shared, th: map<Tid, Thread>)

  datatype Action = NewNode(x: NodeId, vals: seq<Val>) | Fill(c: nat, w: Word) | Execute | Llx(n: NodeId) | Run

  // ---------------------------------------------------------------- descriptors

  function EntryAt(pay: seq<Word>, i: nat): Entry {
    if 3 * i + 6 < |pay| && pay[3 * i + 4].WNode? && pay[3 * i + 5].WFlag? && pay[3 * i + 6].WHandle?
    then Entry(pay[3 * i + 4].n, pay[3 * i + 5].b, pay[3 * i + 6].h)
    else Entry(0, false, InitHandle)
  }

  function Decode(pay: seq<Word>): Desc {
    if |pay| > 3 && pay[0].WVal? && pay[1].WVal? && pay[2].WField? && pay[3].WCount?
    then Desc(pay[0].v, pay[1].v, pay[2].fn, pay[2].ix, seq(pay[3].c, i requires i >= 0 => EntryAt(pay, i)))
    else Desc(0, 0, 0, 0, [])
  }

  // ---------------------------------------------------------------- shared memory

  function PtrAt(g: Shared, x: NodeId): Handle {
    if x in g.nodes then g.nodes[x].scxPtr else InitHandle
  }

  function SlotAt(g: Shared, t: Tid): Slot {
    if t in g.slots then g.slots[t] else Slot(0, Committed, true, [])
  }

  /** The state LLX reads for a handle: the dummy descriptor is COMMITTED, and so is a recycled one. */
  function StateOf(g: Shared, h: Handle): State {
    match h
    case InitHandle => Committed
    case Tag(k) => if SlotAt(g, k.tid).sn == k.sn then SlotAt(g, k.tid).st else Committed
  }

  /** initNode on a new node. */
  function FreshNode(vals: seq<Val>): Node {
    Node(InitHandle, false, vals, seq(|vals|, i requires 0 <= i < |vals| => {vals[i]}))
  }

  function FreezeNode(g: Shared, k: OpId, x: NodeId): Shared
    requires x in g.nodes && k in g.ops
  {
    g.(nodes := g.nodes[x := g.nodes[x].(scxPtr := Tag(k))],
       ops := g.ops[k := g.ops[k].(frozen := g.ops[k].frozen + 1)])
  }

  function SetAllFrozen(g: Shared, k: OpId): Shared
    requires k in g.ops && k.tid in g.slots
  {
    g.(slots := g.slots[k.tid := g.slots[k.tid].(allFrozen := true)],
       ops := g.ops[k := g.ops[k].(allFrozen := true)])
  }

  function SetState(g: Shared, k: OpId, st: State): Shared
    requires k in g.ops && k.tid in g.slots
  {
    g.(slots := g.slots[k.tid := g.slots[k.tid].(st := st)], ops := g.ops[k := g.ops[k].(st := st)])
  }

  function MarkNode(g: Shared, x: NodeId): Shared
    requires x in g.nodes
  {
    g.(nodes := g.nodes[x := g.nodes[x].(marked := true)])
  }

  function UpdateField(g: Shared, k: OpId, x: NodeId, ix: nat, v: Val): Shared
    requires x in g.nodes && k in g.ops && ix < |g.nodes[x].vals| && ix < |g.nodes[x].used|
  {
    var n := g.nodes[x];
    g.(nodes := g.nodes[x := n.(vals := n.vals[ix := v], used := n.used[ix := n.used[ix] + {v}])],
       ops := g.ops[k := g.ops[k].(updated := true)])
  }

  /** DESC1_NEW. */
  function NewSlot(g: Shared, t: Tid): Shared {
    var slot := SlotAt(g, t);
    g.(slots := g.slots[t := slot.(sn := slot.sn + 1, st := InProgress, allFrozen := false)])
  }

  /** DESC1_INITIALIZED, which publishes the operation. */
  function Publish(g: Shared, t: Tid, snaps: seq<seq<Val>>): Shared {
    var slot := SlotAt(g, t);
    g.(slots := g.slots[t := slot.(sn := slot.sn + 1)],
       ops := g.ops[OpId(t, slot.sn + 1) := Op(slot.pay, Decode(slot.pay), snaps, slot.st, slot.allFrozen, 0, false)])
  }

  // ---------------------------------------------------------------- help

  datatype HelpOut = More(f: Frame) | Done(committed: bool)

  function Pay(g: Shared, f: Frame): seq<Word> {
    if f.own then SlotAt(g, f.k.tid).pay else f.buf
  }

  /** One step of `help` (after the copy, for a helper). */
  function StepHelp(g: Shared, f: Frame): (Shared, HelpOut) {
    var slot := SlotAt(g, f.k.tid);
    var d := Decode(Pay(g, f));
    var current := slot.sn == f.k.sn;
    match f.hp
    case Copy =>
      if |f.buf| < |slot.pay| then (g, More(f.(buf := f.buf + [slot.pay[|f.buf|]])))
      else if current then (g, More(f.(hp := Freeze(1))))
      else (g, Done(false))
    case Freeze(i) =>
      if i >= |d.es| then (g, More(f.(hp := FrozenRead)))
      else
        var e := d.es[i];
        if e.n in g.nodes && f.k in g.ops && g.nodes[e.n].scxPtr == e.seen
        then (FreezeNode(g, f.k, e.n), More(f.(hp := Check(i, true))))
        else (g, More(f.(hp := Check(i, false))))
    case Check(i, done) =>
      if i < |d.es| && (done || PtrAt(g, d.es[i].n) == Tag(f.k)) then (g, More(f.(hp := Freeze(i + 1))))
      else (g, More(f.(hp := ReadFrozen)))
    case ReadFrozen =>
      if !current then (g, Done(false))
      else if slot.allFrozen then (g, Done(true))
      else (g, More(f.(hp := AbortRead)))
    case AbortRead =>
      if current && !slot.st.Aborted? then (g, More(f.(hp := AbortCas(slot)))) else (g, Done(false))
    case AbortCas(v) =>
      if SameMutables(slot, v) && f.k in g.ops && f.k.tid in g.slots then (SetState(g, f.k, Aborted), Done(false))
      else (g, More(f.(hp := AbortRead)))
    case FrozenRead =>
      if current && !slot.allFrozen then (g, More(f.(hp := FrozenCas(slot)))) else (g, More(f.(hp := Mark(0))))
    case FrozenCas(v) =>
      if SameMutables(slot, v) && f.k in g.ops && f.k.tid in g.slots then (SetAllFrozen(g, f.k), More(f.(hp := Mark(0))))
      else (g, More(f.(hp := FrozenRead)))
    case Mark(i) =>
      if i >= |d.es| then (g, More(f.(hp := Update)))
      else if d.es[i].fin && d.es[i].n in g.nodes then (MarkNode(g, d.es[i].n), More(f.(hp := Mark(i + 1))))
      else (g, More(f.(hp := Mark(i + 1))))
    case Update =>
      if d.fn in g.nodes && d.ix < |g.nodes[d.fn].vals| && d.ix < |g.nodes[d.fn].used| && f.k in g.ops
         && g.nodes[d.fn].vals[d.ix] == d.oldv
      then (UpdateField(g, f.k, d.fn, d.ix, d.newv), More(f.(hp := CommitRead)))
      else (g, More(f.(hp := CommitRead)))
    case CommitRead =>
      if current && !slot.st.Committed? then (g, More(f.(hp := CommitCas(slot)))) else (g, Done(true))
    case CommitCas(v) =>
      if SameMutables(slot, v) && f.k in g.ops && f.k.tid in g.slots then (SetState(g, f.k, Committed), Done(true))
      else (g, More(f.(hp := CommitRead)))
  }

  /** The mutables word: sequence number, state and allFrozen. */
  predicate SameMutables(a: Slot, b: Slot) {
    a.sn == b.sn && a.st == b.st && a.allFrozen == b.allFrozen
  }

  // ---------------------------------------------------------------- llx and scxExecute

  function LlxFail(x: NodeId, m: bool): Result {
    if m then LlxFinalized(x) else LlxFailed(x)
  }

  function StepRun(g: Shared, t: Tid, T: Thread): (Shared, Thread) {
    match T.pc
    case Idle => (g, T)
    case LlxMarked(x) => (g, T.(pc := LlxPtr(x, x in g.nodes && g.nodes[x].marked)))
    case LlxPtr(x, m) => (g, T.(pc := LlxState(x, m, PtrAt(g, x))))
    case LlxState(x, m, h) => (
      match StateOf(g, h)
      case Aborted => (g, T.(pc := LlxCopy(x, m, h, [])))
      case Committed => (g, T.(pc := LlxMarked2(x, m, h)))
      case InProgress =>
        if h.Tag? then (g, T.(pc := LlxHelp(x, m, Frame(h.k, false, [], Copy)))) else (g, T)
    )
    case LlxMarked2(x, m, h) =>
      if x in g.nodes && !g.nodes[x].marked then (g, T.(pc := LlxCopy(x, m, h, [])))
      else (g, T.(pc := Idle, res := LlxFail(x, m)))
    case LlxCopy(x, m, h, vals) =>
      if x !in g.nodes then (g, T)
      else if |vals| < |g.nodes[x].vals| then (g, T.(pc := LlxCopy(x, m, h, vals + [g.nodes[x].vals[|vals|]])))
      else if g.nodes[x].scxPtr == h then (g, T.(pc := Idle, res := Linked(x), links := T.links[x := Link(h, vals)]))
      else (g, T.(pc := Idle, res := LlxFail(x, m)))
    case LlxHelp(x, m, f) => (
      var (g1, out) := StepHelp(g, f);
      match out
      case More(f1) => (g1, T.(pc := LlxHelp(x, m, f1)))
      case Done(_) => (g1, T.(pc := Idle, res := LlxFail(x, m)))
    )
    case Exec(f) => (
      var (g1, out) := StepHelp(g, f);
      match out
      case More(f1) => (g1, T.(pc := Exec(f1)))
      case Done(ok) => (g1, T.(pc := ExecNew(f.k, ok)))
    )
    case ExecNew(k, ok) => (NewSlot(g, t), T.(pc := Idle, res := Executed(k, ok)))
  }

  /** The usage rule: every listed node with the handle of the thread's last successful LLX on it; the field in a
      listed node, its old value as that LLX saw it; and a new value that has never been in the field. */
  predicate Usable(g: Shared, T: Thread, d: Desc) {
    && (forall i :: 0 <= i < |d.es| ==>
          d.es[i].n in g.nodes && d.es[i].n in T.links && T.links[d.es[i].n].h == d.es[i].seen)
    && (forall i, j :: 0 <= i < j < |d.es| ==> d.es[i].n != d.es[j].n)
    && (exists i :: 0 <= i < |d.es| && d.es[i].n == d.fn)
    && d.fn in g.nodes && d.fn in T.links && d.ix < |T.links[d.fn].vals|
    && T.links[d.fn].vals[d.ix] == d.oldv
    && d.ix < |g.nodes[d.fn].used| && d.newv !in g.nodes[d.fn].used[d.ix]
  }

  function Snaps(T: Thread, d: Desc): seq<seq<Val>> {
    seq(|d.es|, i requires 0 <= i < |d.es| => if d.es[i].n in T.links then T.links[d.es[i].n].vals else [])
  }

  function Step(s: System, t: Tid, a: Action): System {
    if t !in s.th then s else
    var g, T := s.g, s.th[t];
    var slot := SlotAt(g, t);
    match a
    case NewNode(x, vals) =>
      if x !in g.nodes
      then System(g.(nodes := g.nodes[x := FreshNode(vals)]), s.th)
      else s
    case Fill(c, w) =>
      if T.pc.Idle? && c < |slot.pay|
      then System(g.(slots := g.slots[t := slot.(pay := slot.pay[c := w])]), s.th) else s
    case Execute =>
      var d := Decode(slot.pay);
      if T.pc.Idle? && Usable(g, T, d)
      then System(Publish(g, t, Snaps(T, d)), s.th[t := T.(pc := Exec(Frame(OpId(t, slot.sn + 1), true, [], Freeze(0))))])
      else s
    case Llx(x) =>
      if T.pc.Idle? && x in g.nodes then System(g, s.th[t := T.(pc := LlxMarked(x))]) else s
    case Run =>
      var (g1, T1) := StepRun(g, t, T);
      System(g1, s.th[t := T1])
  }

  type Schedule = seq<(Tid, Action)>

  function RunFrom(s: System, sched: Schedule): System
    decreases |sched|
  {
    if sched == [] then s
    else Step(RunFrom(s, sched[..|sched| - 1]), sched[|sched| - 1].0, sched[|sched| - 1].1)
  }

  /** After the constructor, on nodes freshly initialized. */
  predicate Initial(s: System) {
    && s.g.slots.Keys == s.th.Keys && s.g.ops == map[]
    && (forall x :: x in s.g.nodes ==>
          var n := s.g.nodes[x];
          n.scxPtr.InitHandle? && !n.marked && |n.used| == |n.vals| && forall i :: 0 <= i < |n.vals| ==> n.vals[i] in n.used[i])
    && (forall t :: t in s.g.slots ==> s.g.slots[t].sn == 2 && s.g.slots[t].st.InProgress? && !s.g.slots[t].allFrozen)
    && (forall t :: t in s.th ==> s.th[t] == Thread(Idle, map[], NoResult))
  }
}
