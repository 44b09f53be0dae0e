/**
 * Double-compare-single-swap with reusable descriptors, as a step machine: one atomic load, store or
 * compare-and-swap per step, any number of threads, any schedule.
 *
 * `mem` holds the words that DCSS changes, `aux` the words it only compares, which anyone may write.
 * `ops` is history that no step reads: of each operation, whether its tag has been installed and
 * removed, and whether addr1 has been seen equal to or different from old1 while the tag was
 * installed and the operation undecided.
 */
module Dcss {

  type Tid = nat
  type Addr = int

  datatype OpId = OpId(tid: Tid, sn: nat)
  datatype Word = Plain(v: int) | Tag(k: OpId)
  datatype State = Undecided | Succeeded | Failed

  /** `pay` is addr1, old1, addr2, old2, new2. */
  datatype Slot = Slot(sn: nat, st: State, pay: seq<int>, building: bool)

  datatype Phase = Fresh | Installed | Removed
  datatype Op = Op(pay: seq<int>, st: State, phase: Phase, sawEqual: bool, sawOther: bool)

  datatype Shared = Shared(mem: map<Addr, Word>, aux: map<Addr, int>, slots: map<Tid, Slot>, ops: map<OpId, Op>)

  datatype Call = Idle | Trying(k: OpId) | Finishing(k: OpId) | Reading(a: Addr)

  /** An activation of dcssHelp; `buf` is the owner's own slot or a helper's copy. */
  datatype Help =
    | NoHelp
    | Copy(k: OpId, buf: seq<int>)                                   // memcpy, then the sequence check
    | ReadAddr1(k: OpId, own: bool, buf: seq<int>)
    | ReadState(k: OpId, own: bool, buf: seq<int>, eq: bool)         // MUTABLES_VAL_CAS_FIELD: first read
    | CasState(k: OpId, own: bool, buf: seq<int>, eq: bool)          // its compare-and-swap
    | Finish(k: OpId, own: bool, buf: seq<int>, ok: bool)            // the CAS on addr2

  datatype Result = NoResult | Success(k: OpId) | FailedAddr1(k: OpId) | FailedAddr2(k: OpId, v: int) | Got(a: Addr, v: int)

  datatype Thread = Thread(call: Call, h: Help, res: Result)

  datatype System = System(g: Shared, th: map<Tid, Thread>)

  datatype Action = Start | Fill(c: nat, w: int) | Execute | ReadPtr(a: Addr) | WriteAux(x: Addr, v: int) | Run

  predicate PayOk(p: seq<int>) { |p| == 5 }

  function SlotAt(g: Shared, t: Tid): Slot {
    if t in g.slots then g.slots[t] else Slot(0, Undecided, [], false)
  }

  function AuxAt(g: Shared, a: Addr): int {
    if a in g.aux then g.aux[a] else 0
  }

  /** Reading addr1 in dcssHelp, with what it shows noted in the history. */
  function NoteAddr1(g: Shared, k: OpId, eq: bool): Shared {
    if k in g.ops && g.ops[k].st.Undecided? then
      g.(ops := g.ops[k := if eq then g.ops[k].(sawEqual := true) else g.ops[k].(sawOther := true)])
    else g
  }

  function SetState(g: Shared, k: OpId, st: State): Shared
    requires k in g.ops && k.tid in g.slots
  {
    g.(slots := g.slots[k.tid := g.slots[k.tid].(st := st)], ops := g.ops[k := g.ops[k].(st := st)])
  }

  function Install(g: Shared, k: OpId, a: Addr): Shared
    requires k in g.ops
  {
    g.(mem := g.mem[a := Tag(k)], ops := g.ops[k := g.ops[k].(phase := Installed)])
  }

  function Remove(g: Shared, k: OpId, a: Addr, v: int): Shared
    requires k in g.ops
  {
    g.(mem := g.mem[a := Plain(v)], ops := g.ops[k := g.ops[k].(phase := Removed)])
  }

  function Publish(g: Shared, t: Tid): Shared {
    var slot := SlotAt(g, t);
    g.(slots := g.slots[t := slot.(sn := slot.sn + 1, building := false)],
       ops := g.ops[OpId(t, slot.sn + 1) := Op(slot.pay, slot.st, Fresh, false, false)])
  }

  /** The end of dcssHelp. A helper goes back to what it was doing. */
  function Return(T: Thread, k: OpId, own: bool, ok: bool): Thread {
    if own then T.(h := NoHelp, call := Idle, res := if ok then Success(k) else FailedAddr1(k)) else T.(h := NoHelp)
  }

  function StepHelp(g: Shared, T: Thread): (Shared, Thread) {
    match T.h
    case NoHelp => (g, T)
    case Copy(k, buf) =>
      var slot := SlotAt(g, k.tid);
      if |buf| < |slot.pay| then (g, T.(h := Copy(k, buf + [slot.pay[|buf|]])))
      else if slot.sn == k.sn then (g, T.(h := ReadAddr1(k, false, buf)))
      else (g, T.(h := NoHelp))
    case ReadAddr1(k, own, buf) =>
      if !PayOk(buf) then (g, T) else
      var eq := AuxAt(g, buf[0]) == buf[1];
      (NoteAddr1(g, k, eq), T.(h := ReadState(k, own, buf, eq)))
    case ReadState(k, own, buf, eq) =>
      if SlotAt(g, k.tid).sn == k.sn then (g, T.(h := CasState(k, own, buf, eq))) else (g, T.(h := NoHelp))
    case CasState(k, own, buf, eq) =>
      var slot := SlotAt(g, k.tid);
      if slot.sn == k.sn && slot.st.Undecided? && k in g.ops && k.tid in g.slots
      then (SetState(g, k, if eq then Succeeded else Failed), T.(h := Finish(k, own, buf, eq)))
      else if !slot.st.Undecided? then (g, T.(h := Finish(k, own, buf, slot.st.Succeeded?)))  // may be a later operation's state
      else (g, T.(h := NoHelp))
    case Finish(k, own, buf, ok) =>
      if !PayOk(buf) then (g, T) else
      var a := buf[2];
      if a in g.mem && g.mem[a] == Tag(k) && k in g.ops
      then (Remove(g, k, a, if ok then buf[4] else buf[3]), Return(T, k, own, ok))
      else (g, Return(T, k, own, ok))
  }

  function StepCall(g: Shared, T: Thread): (Shared, Thread) {
    match T.call
    case Idle => (g, T)
    case Finishing(k) => (g, T)
    case Trying(k) =>
      var p := SlotAt(g, k.tid).pay;
      if !PayOk(p) || p[2] !in g.mem || k !in g.ops then (g, T) else (
      match g.mem[p[2]]
      case Plain(v) =>
        if v == p[3] then (Install(g, k, p[2]), T.(call := Finishing(k), h := ReadAddr1(k, true, p)))
        else (g, T.(call := Idle, res := FailedAddr2(k, v)))
      case Tag(other) => (g, T.(h := Copy(other, [])))
      )
    case Reading(a) =>
      if a !in g.mem then (g, T) else (
      match g.mem[a]
      case Plain(v) => (g, T.(call := Idle, res := Got(a, v)))
      case Tag(k) => (g, T.(h := Copy(k, [])))
      )
  }

  function StepRun(g: Shared, T: Thread): (Shared, Thread) {
    if T.h.NoHelp? then StepCall(g, T) else StepHelp(g, T)
  }

  function Step(s: System, t: Tid, a: Action): System {
    if t !in s.th then s else
    var g, T := s.g, s.th[t];
    var slot := SlotAt(g, t);
    match a
    case Start =>
      if T.call.Idle? && T.h.NoHelp?
      then System(g.(slots := g.slots[t := slot.(sn := slot.sn + 1, st := Undecided, building := true)]), s.th) else s
    case Fill(c, w) =>
      if T.call.Idle? && T.h.NoHelp? && slot.building && c < |slot.pay|
      then System(g.(slots := g.slots[t := slot.(pay := slot.pay[c := w])]), s.th) else s
    case Execute =>
      if T.call.Idle? && T.h.NoHelp? && slot.building && PayOk(slot.pay) && slot.pay[2] in g.mem
      then System(Publish(g, t), s.th[t := T.(call := Trying(OpId(t, slot.sn + 1)))]) else s
    case ReadPtr(x) =>
      if T.call.Idle? && T.h.NoHelp? && x in g.mem then System(g, s.th[t := T.(call := Reading(x))]) else s
    case WriteAux(x, v) => System(g.(aux := g.aux[x := v]), s.th)
    case Run =>
      var (g1, T1) := StepRun(g, T);
      System(g1, s.th[t := T1])
  }

  type Schedule = seq<(Tid, Action)>

  function RunFrom(s: System, sched: Schedule): System
    decreases |sched|
  {
    if sched == [] then s
    else Step(RunFrom(s, sched[..|sched| - 1]), sched[|sched| - 1].0, sched[|sched| - 1].1)
  }

  predicate Initial(s: System) {
    && s.g.slots.Keys == s.th.Keys && s.g.ops == map[]
    && (forall a :: a in s.g.mem ==> s.g.mem[a].Plain?)
    && (forall t :: t in s.g.slots ==> s.g.slots[t].sn == 1 && s.g.slots[t].st.Undecided? && !s.g.slots[t].building && |s.g.slots[t].pay| == 5)
    && (forall t :: t in s.th ==> s.th[t] == Thread(Idle, NoHelp, NoResult))
  }

  // ---------------------------------------------------------------- the invariant

  ghost predicate OpOk(g: Shared, k: OpId)
    requires k in g.ops
  {
    var op := g.ops[k];
    && k.tid in g.slots && k.sn <= g.slots[k.tid].sn && PayOk(op.pay) && op.pay[2] in g.mem
    && (k.sn == g.slots[k.tid].sn ==>
          g.slots[k.tid].st == op.st && g.slots[k.tid].pay == op.pay && !g.slots[k.tid].building)
    && (k.sn < g.slots[k.tid].sn ==> !op.phase.Installed?)
    && (op.phase.Installed? <==> g.mem[op.pay[2]] == Tag(k))
    && (op.phase.Fresh? ==> op.st.Undecided?)
    && (op.phase.Removed? ==> !op.st.Undecided?)
    && (op.st.Succeeded? ==> op.sawEqual) && (op.st.Failed? ==> op.sawOther)
  }

  ghost predicate WordOk(g: Shared, a: Addr)
    requires a in g.mem
  {
    g.mem[a].Tag? ==> g.mem[a].k in g.ops && PayOk(g.ops[g.mem[a].k].pay) && g.ops[g.mem[a].k].pay[2] == a
  }

  ghost predicate GInv(g: Shared) {
    && (forall k :: k in g.ops ==> OpOk(g, k))
    && (forall a :: a in g.mem ==> WordOk(g, a))
    && (forall t :: t in g.slots && g.slots[t].building ==> g.slots[t].st.Undecided?)
  }

  ghost predicate HelpOk(g: Shared, t: Tid, T: Thread) {
    match T.h
    case NoHelp => !T.call.Finishing?
    case Copy(k, buf) =>
      && !T.call.Finishing? && !T.call.Idle? && k in g.ops && k.tid in g.slots && !g.ops[k].phase.Fresh?
      && (g.slots[k.tid].sn == k.sn ==> buf <= g.ops[k].pay)
    case ReadAddr1(k, own, buf) => Reached(g, t, T, k, own, buf)
    case ReadState(k, own, buf, eq) => Reached(g, t, T, k, own, buf) && Saw(g, k, eq)
    case CasState(k, own, buf, eq) => Reached(g, t, T, k, own, buf) && Saw(g, k, eq)
    case Finish(k, own, buf, ok) =>
      && Reached(g, t, T, k, own, buf)
      && (own || g.ops[k].phase.Installed? ==> !g.ops[k].st.Undecided? && ok == g.ops[k].st.Succeeded?)
  }

  /** dcssHelp for an operation whose tag has been in memory, on an untorn copy of its descriptor. */
  ghost predicate Reached(g: Shared, t: Tid, T: Thread, k: OpId, own: bool, buf: seq<int>) {
    && k in g.ops && !g.ops[k].phase.Fresh? && buf == g.ops[k].pay && k.tid in g.slots
    && (own <==> T.call.Finishing?) && !T.call.Idle?
    && (own ==> T.call == Finishing(k) && k.tid == t && g.slots[t].sn == k.sn)
  }

  ghost predicate Saw(g: Shared, k: OpId, eq: bool)
    requires k in g.ops
  {
    g.ops[k].st.Undecided? ==> if eq then g.ops[k].sawEqual else g.ops[k].sawOther
  }

  ghost predicate CallOk(g: Shared, t: Tid, T: Thread) {
    && t in g.slots
    && (T.call.Trying? ==>
          T.call.k in g.ops && T.call.k.tid == t && g.slots[t].sn == T.call.k.sn && g.ops[T.call.k].phase.Fresh?)
    && (T.call.Reading? ==> T.call.a in g.mem)
  }

  ghost predicate ResOk(g: Shared, t: Tid, T: Thread) {
    && (T.res.Success? ==> T.res.k in g.ops && g.ops[T.res.k].st.Succeeded? && g.ops[T.res.k].phase.Removed?)
    && (T.res.FailedAddr1? ==> T.res.k in g.ops && g.ops[T.res.k].st.Failed? && g.ops[T.res.k].phase.Removed?)
    && (T.res.FailedAddr2? ==>
          && T.res.k in g.ops && g.ops[T.res.k].phase.Fresh? && PayOk(g.ops[T.res.k].pay) && T.res.v != g.ops[T.res.k].pay[3]
          && T.res.k.tid == t && (T.call.Trying? ==> T.call.k != T.res.k))
  }

  ghost predicate ThreadOk(g: Shared, t: Tid, T: Thread) {
    CallOk(g, t, T) && HelpOk(g, t, T) && ResOk(g, t, T)
  }

  /** An operation that is current and installed is being finished by its owner. */
  ghost predicate OwnedBy(th: map<Tid, Thread>, k: OpId) {
    k.tid in th && th[k.tid].call == Finishing(k)
  }

  ghost predicate Inv(s: System) {
    && GInv(s.g) && s.g.slots.Keys == s.th.Keys
    && (forall t :: t in s.th ==> ThreadOk(s.g, t, s.th[t]))
    && (forall k :: k in s.g.ops && s.g.ops[k].phase.Installed? ==> OwnedBy(s.th, k))
  }

  // ---------------------------------------------------------------- what every step keeps

  ghost predicate OpRely(g: Shared, g': Shared, k: OpId)
    requires k in g.ops
  {
    && k in g'.ops
    && var op, op' := g.ops[k], g'.ops[k];
    && op'.pay == op.pay
    && (!op.st.Undecided? ==> op'.st == op.st)
    && (op.sawEqual ==> op'.sawEqual) && (op.sawOther ==> op'.sawOther)
    && (!op.phase.Fresh? ==> !op'.phase.Fresh?)
    && (op.phase.Removed? ==> op'.phase.Removed?)
  }

  ghost predicate Rely(g: Shared, g': Shared) {
    && (forall k :: k in g.ops ==> OpRely(g, g', k))
    && g'.mem.Keys == g.mem.Keys && g'.slots.Keys == g.slots.Keys
    && (forall t :: t in g.slots ==> g.slots[t].sn <= g'.slots[t].sn)
  }

  /** No step of another thread touches the sequence number of slot `t`, or installs an operation of `t`. */
  ghost predicate SameSlot(g: Shared, g': Shared, t: Tid) {
    && t in g.slots && t in g'.slots && g'.slots[t].sn == g.slots[t].sn
    && (forall k :: k in g.ops && k.tid == t && g.ops[k].phase.Fresh? ==> k in g'.ops && g'.ops[k].phase.Fresh?)
  }

  lemma KnownOp(g: Shared, k: OpId)
    requires GInv(g) && k in g.ops
    ensures OpOk(g, k)
  {}

  lemma RelyOp(g: Shared, g': Shared, k: OpId)
    requires Rely(g, g') && k in g.ops
    ensures OpRely(g, g', k)
  {}

  lemma ThreadStable(g: Shared, g': Shared, t: Tid, T: Thread)
    requires GInv(g) && GInv(g') && Rely(g, g') && SameSlot(g, g', t) && ThreadOk(g, t, T)
    ensures ThreadOk(g', t, T)
  {
    hide GInv;
    if !T.h.NoHelp? { KnownOp(g, T.h.k); RelyOp(g, g', T.h.k); KnownOp(g', T.h.k); }
    if T.res.Success? || T.res.FailedAddr1? || T.res.FailedAddr2? { RelyOp(g, g', T.res.k); }
  }

  // ---------------------------------------------------------------- the user-visible memory

  /** A tag hides old2 until the operation has succeeded, then new2. */
  ghost function Logical(g: Shared, a: Addr): int
    requires a in g.mem
  {
    match g.mem[a]
    case Plain(v) => v
    case Tag(k) =>
      if k in g.ops && PayOk(g.ops[k].pay) then (if g.ops[k].st.Succeeded? then g.ops[k].pay[4] else g.ops[k].pay[3]) else 0
  }

  /** `k` takes effect: its word, holding its tag, goes from old2 to new2, and no other word changes. */
  ghost predicate TakesEffect(g: Shared, g1: Shared, k: OpId) {
    && k in g.ops && k in g1.ops && g.ops[k].st.Undecided? && g1.ops[k].st.Succeeded? && PayOk(g.ops[k].pay)
    && var p := g.ops[k].pay;
    && p[2] in g.mem && p[2] in g1.mem && g.mem[p[2]] == Tag(k)
    && Logical(g, p[2]) == p[3] && Logical(g1, p[2]) == p[4]
    && forall a :: a in g.mem && a != p[2] ==> a in g1.mem && Logical(g1, a) == Logical(g, a)
  }

  ghost predicate Quiet(g: Shared, g1: Shared) {
    && (forall a :: a in g.mem ==> a in g1.mem && Logical(g1, a) == Logical(g, a))
    && (forall k :: k in g1.ops && g1.ops[k].st.Succeeded? ==> k in g.ops && g.ops[k].st.Succeeded?)
  }

  /** Words change for their users only when one DCSS takes effect. */
  ghost predicate Lawful(g: Shared, g1: Shared) {
    Quiet(g, g1) || exists k :: TakesEffect(g, g1, k) && forall x :: x in g1.ops && g1.ops[x].st.Succeeded? && x != k ==> x in g.ops && g.ops[x].st.Succeeded?
  }

  // ---------------------------------------------------------------- steps

  ghost predicate Good(g: Shared, t: Tid, r: (Shared, Thread)) {
    && GInv(r.0) && Rely(g, r.0) && Lawful(g, r.0)
    && (forall u :: u in g.slots && u != t ==> SameSlot(g, r.0, u))
    && ThreadOk(r.0, t, r.1)
    && (forall k :: k in r.0.ops && r.0.ops[k].phase.Installed? ==>
          if k.tid == t then r.1.call == Finishing(k) else k in g.ops && g.ops[k].phase.Installed?)
  }

  ghost predicate OwnInstalled(g: Shared, t: Tid, T: Thread) {
    forall k :: k in g.ops && g.ops[k].phase.Installed? && k.tid == t ==> T.call == Finishing(k)
  }

  lemma LocalStep(g: Shared, t: Tid, T1: Thread)
    requires GInv(g) && ThreadOk(g, t, T1) && OwnInstalled(g, t, T1)
    ensures Good(g, t, (g, T1))
  {
    assert Quiet(g, g);
  }

  /** A step that changes at most one operation and the word it is installed in. */
  lemma OneOpStep(g: Shared, g1: Shared, k0: OpId)
    requires GInv(g) && k0 in g.ops && k0 in g1.ops && g1.ops == g.ops[k0 := g1.ops[k0]] && g1.mem.Keys == g.mem.Keys
    requires k0.tid in g.slots && (g1.slots == g.slots || (g.slots[k0.tid].sn == k0.sn && g1.slots == g.slots[k0.tid := g.slots[k0.tid].(st := g1.ops[k0].st)]))
    requires PayOk(g.ops[k0].pay) && forall a :: a in g.mem && a != g.ops[k0].pay[2] ==> g1.mem[a] == g.mem[a]
    requires g.ops[k0].pay[2] in g.mem
    requires g1.mem[g.ops[k0].pay[2]] == g.mem[g.ops[k0].pay[2]] || g.mem[g.ops[k0].pay[2]] == Tag(k0) || g1.mem[g.ops[k0].pay[2]] == Tag(k0)
    requires g.mem[g.ops[k0].pay[2]].Plain? || g.mem[g.ops[k0].pay[2]] == Tag(k0) || g1.mem[g.ops[k0].pay[2]] == g.mem[g.ops[k0].pay[2]]
    requires g1.mem[g.ops[k0].pay[2]].Plain? || g1.mem[g.ops[k0].pay[2]] == Tag(k0) || g1.mem[g.ops[k0].pay[2]] == g.mem[g.ops[k0].pay[2]]
    requires OpOk(g1, k0) && OpRely(g, g1, k0)
    ensures GInv(g1) && Rely(g, g1)
  {
    var a0 := g.ops[k0].pay[2];
    forall k | k in g.ops ensures OpOk(g1, k) && OpRely(g, g1, k) {
      assert OpOk(g, k);
      if k != k0 { OtherOp(g, g1, k, a0, k0); }
    }
    forall a | a in g1.mem ensures WordOk(g1, a) {
      assert WordOk(g, a);
      assert a != a0 ==> g1.mem[a] == g.mem[a];
    }
  }

  lemma OtherOp(g: Shared, g1: Shared, k: OpId, a0: Addr, k0: OpId)
    requires k in g.ops && OpOk(g, k) && k != k0 && k in g1.ops && g1.ops[k] == g.ops[k] && g1.mem.Keys == g.mem.Keys && a0 in g.mem
    requires g1.slots.Keys == g.slots.Keys && (k.tid in g.slots && k.tid in g1.slots ==> g1.slots[k.tid] == g.slots[k.tid] || (k.tid == k0.tid && g.slots[k.tid].sn == k0.sn && g1.slots[k.tid] == g.slots[k.tid].(st := g1.slots[k.tid].st)))
    requires forall a :: a in g.mem && a != a0 ==> g1.mem[a] == g.mem[a]
    requires g1.mem[a0] == g.mem[a0] || ((g.mem[a0].Plain? || g.mem[a0] == Tag(k0)) && (g1.mem[a0].Plain? || g1.mem[a0] == Tag(k0)))
    ensures OpOk(g1, k) && OpRely(g, g1, k)
  {
    assert k == OpId(k.tid, k.sn) && k0 == OpId(k0.tid, k0.sn);
    var a := g.ops[k].pay[2];
    assert g1.mem[a] == Tag(k) <==> g.mem[a] == Tag(k);
  }

  lemma CopyStep(g: Shared, t: Tid, T: Thread)
    requires GInv(g) && ThreadOk(g, t, T) && OwnInstalled(g, t, T) && (T.h.Copy? || T.h.ReadState?)
    ensures Good(g, t, StepHelp(g, T))
  {
    KnownOp(g, T.h.k);
    LocalStep(g, t, StepHelp(g, T).1);
  }

  /** Puts together a step of `t` that changes operation `k0`. */
  lemma GoodOne(g: Shared, g1: Shared, t: Tid, T1: Thread, k0: OpId)
    requires GInv(g1) && Rely(g, g1) && Lawful(g, g1) && ThreadOk(g1, t, T1)
    requires k0 in g.ops && k0 in g1.ops && g1.ops == g.ops[k0 := g1.ops[k0]] && forall u :: u in g.slots ==> u in g1.slots && g1.slots[u].sn == g.slots[u].sn
    requires g.ops[k0].phase.Fresh? && k0.tid != t ==> g1.ops[k0].phase.Fresh?
    requires forall k :: k in g.ops && g.ops[k].phase.Installed? && k.tid == t && k != k0 ==> T1.call == Finishing(k)
    requires g1.ops[k0].phase.Installed? ==> if k0.tid == t then T1.call == Finishing(k0) else g.ops[k0].phase.Installed?
    ensures Good(g, t, (g1, T1))
  {
    hide GInv, Rely, Lawful, ThreadOk;
  }

  lemma ReadAddr1Thread(g: Shared, t: Tid, T: Thread)
    requires GInv(g) && ThreadOk(g, t, T) && T.h.ReadAddr1?
    ensures var r := StepHelp(g, T); ThreadOk(r.0, t, r.1) && r.1.call == T.call
    ensures T.h.k in g.ops && PayOk(T.h.buf)
  {
    KnownOp(g, T.h.k);
  }

  lemma NoteIsQuiet(g: Shared, k: OpId, eq: bool)
    requires GInv(g) && k in g.ops && !g.ops[k].phase.Fresh?
    ensures var g1 := NoteAddr1(g, k, eq); GInv(g1) && Rely(g, g1) && Quiet(g, g1)
  {
    KnownOp(g, k);
    OneOpStep(g, NoteAddr1(g, k, eq), k);
  }

  lemma ReadAddr1Step(g: Shared, t: Tid, T: Thread)
    requires GInv(g) && ThreadOk(g, t, T) && OwnInstalled(g, t, T) && T.h.ReadAddr1?
    ensures Good(g, t, StepHelp(g, T))
  {
    var k, eq := T.h.k, PayOk(T.h.buf) && AuxAt(g, T.h.buf[0]) == T.h.buf[1];
    ReadAddr1Thread(g, t, T);
    NoteIsQuiet(g, k, eq);
    hide GInv, Rely, Quiet, ThreadOk;
    GoodOne(g, NoteAddr1(g, k, eq), t, StepHelp(g, T).1, k);
  }

  lemma CasThread(g: Shared, t: Tid, T: Thread)
    requires GInv(g) && ThreadOk(g, t, T) && T.h.CasState?
    ensures T.h.k in g.ops && T.h.k.tid in g.slots
    ensures var r := StepHelp(g, T); ThreadOk(r.0, t, r.1) && r.1.call == T.call
  {
    KnownOp(g, T.h.k);
  }

  /** The CAS on the state of an operation whose tag is installed decides it as addr1 was seen. */
  lemma DecideKeeps(g: Shared, k: OpId, eq: bool)
    requires GInv(g) && k in g.ops && k.tid in g.slots && g.ops[k].st.Undecided? && !g.ops[k].phase.Fresh? && Saw(g, k, eq) && g.slots[k.tid].sn == k.sn
    ensures var g1 := SetState(g, k, if eq then Succeeded else Failed); GInv(g1) && Rely(g, g1) && Lawful(g, g1)
  {
    KnownOp(g, k);
    OneOpStep(g, SetState(g, k, if eq then Succeeded else Failed), k);
    DecideLaw(g, k, eq);
  }

  lemma CasStateStep(g: Shared, t: Tid, T: Thread)
    requires GInv(g) && ThreadOk(g, t, T) && OwnInstalled(g, t, T) && T.h.CasState?
    ensures Good(g, t, StepHelp(g, T))
  {
    var k := T.h.k;
    CasThread(g, t, T);
    KnownOp(g, k);
    if g.slots[k.tid].sn == k.sn && g.slots[k.tid].st.Undecided? {
      DecideKeeps(g, k, T.h.eq);
      hide GInv, Rely, Lawful, ThreadOk;
      GoodOne(g, SetState(g, k, if T.h.eq then Succeeded else Failed), t, StepHelp(g, T).1, k);
    } else {
      hide GInv, ThreadOk;
      LocalStep(g, t, StepHelp(g, T).1);
    }
  }

  lemma DecideLaw(g: Shared, k: OpId, eq: bool)
    requires GInv(g) && k in g.ops && k.tid in g.slots && g.ops[k].st.Undecided? && g.ops[k].phase.Installed?
    ensures Lawful(g, SetState(g, k, if eq then Succeeded else Failed))
  {
    KnownOp(g, k);
    var g1 := SetState(g, k, if eq then Succeeded else Failed);
    forall a | a in g.mem && a != g.ops[k].pay[2] ensures Logical(g1, a) == Logical(g, a) { assert WordOk(g, a); }
    if eq { assert TakesEffect(g, g1, k); } else { assert Quiet(g, g1); }
  }

  lemma RemoveIsQuiet(g: Shared, k: OpId)
    requires GInv(g) && k in g.ops && g.ops[k].phase.Installed? && !g.ops[k].st.Undecided?
    requires PayOk(g.ops[k].pay)
    ensures Quiet(g, Remove(g, k, g.ops[k].pay[2], if g.ops[k].st.Succeeded? then g.ops[k].pay[4] else g.ops[k].pay[3]))
  {
    KnownOp(g, k);
  }

  lemma FinishThread(g: Shared, t: Tid, T: Thread)
    requires GInv(g) && ThreadOk(g, t, T) && T.h.Finish?
    ensures var r := StepHelp(g, T); ThreadOk(r.0, t, r.1) && (T.h.own ==> r.0.ops[T.h.k].phase.Removed?)
    ensures T.h.k in g.ops && T.h.k.tid in g.slots && PayOk(T.h.buf) && T.h.buf == g.ops[T.h.k].pay
  {
    KnownOp(g, T.h.k);
  }

  lemma FinishStep(g: Shared, t: Tid, T: Thread)
    requires GInv(g) && ThreadOk(g, t, T) && OwnInstalled(g, t, T) && T.h.Finish?
    ensures Good(g, t, StepHelp(g, T))
  {
    var k, p := T.h.k, T.h.buf;
    FinishThread(g, t, T);
    KnownOp(g, k);
    if g.mem[p[2]] == Tag(k) {
      var g1 := Remove(g, k, p[2], if T.h.ok then p[4] else p[3]);
      assert T.h.ok == g.ops[k].st.Succeeded? && !g.ops[k].st.Undecided?;
      hide ThreadOk, HelpOk, CallOk, ResOk, Reached;
      OneOpStep(g, g1, k);
      RemoveIsQuiet(g, k);
      hide GInv, Rely, Quiet;
      assert forall u :: u in g.slots && u != t ==> SameSlot(g, g1, u);
    } else {
      LocalStep(g, t, StepHelp(g, T).1);
    }
  }

  lemma InstallKeeps(g: Shared, k: OpId, a: Addr)
    requires GInv(g) && k in g.ops && k.tid in g.slots && g.ops[k].phase.Fresh? && g.slots[k.tid].sn == k.sn && PayOk(g.ops[k].pay) && a == g.ops[k].pay[2]
    requires a in g.mem && g.mem[a] == Plain(g.ops[k].pay[3])
    ensures var g1 := Install(g, k, a); GInv(g1) && Rely(g, g1) && Quiet(g, g1)
  {
    KnownOp(g, k);
    OneOpStep(g, Install(g, k, a), k);
  }

  lemma TryThread(g: Shared, t: Tid, T: Thread)
    requires GInv(g) && ThreadOk(g, t, T) && T.h.NoHelp? && T.call.Trying?
    ensures var r := StepCall(g, T); ThreadOk(r.0, t, r.1)
  {
    KnownOp(g, T.call.k);
    var a := g.ops[T.call.k].pay[2];
    assert WordOk(g, a);
    if g.mem[a].Tag? { KnownOp(g, g.mem[a].k); }
  }

  lemma TryStep(g: Shared, t: Tid, T: Thread)
    requires GInv(g) && ThreadOk(g, t, T) && OwnInstalled(g, t, T) && T.h.NoHelp? && T.call.Trying?
    ensures Good(g, t, StepCall(g, T))
  {
    var k := T.call.k;
    KnownOp(g, k);
    TryThread(g, t, T);
    var a := g.ops[k].pay[2];
    if g.mem[a] == Plain(g.ops[k].pay[3]) {
      InstallKeeps(g, k, a);
      assert k.tid == t;
      hide GInv, Rely, Quiet, ThreadOk;
      GoodOne(g, Install(g, k, a), t, StepCall(g, T).1, k);
    } else {
      hide GInv, ThreadOk;
      LocalStep(g, t, StepCall(g, T).1);
    }
  }

  lemma ReadStep(g: Shared, t: Tid, T: Thread)
    requires GInv(g) && ThreadOk(g, t, T) && OwnInstalled(g, t, T) && T.h.NoHelp? && T.call.Reading?
    ensures Good(g, t, StepCall(g, T))
  {
    assert WordOk(g, T.call.a);
    if g.mem[T.call.a].Tag? { KnownOp(g, g.mem[T.call.a].k); }
    LocalStep(g, t, StepCall(g, T).1);
  }

  lemma RunStep(g: Shared, t: Tid, T: Thread)
    requires GInv(g) && ThreadOk(g, t, T) && OwnInstalled(g, t, T)
    ensures Good(g, t, StepRun(g, T))
  {
    hide GInv, Good;
    match T.h
    case NoHelp =>
      if T.call.Trying? { TryStep(g, t, T); }
      else if T.call.Reading? { ReadStep(g, t, T); }
      else { LocalStep(g, t, T); }
    case Copy(_, _) => CopyStep(g, t, T);
    case ReadAddr1(_, _, _) => ReadAddr1Step(g, t, T);
    case ReadState(_, _, _, _) => CopyStep(g, t, T);
    case CasState(_, _, _, _) => CasStateStep(g, t, T);
    case Finish(_, _, _, _) => FinishStep(g, t, T);
  }

  // ---------------------------------------------------------------- the whole system

  lemma RunKeeps(s: System, t: Tid)
    requires Inv(s) && t in s.th
    ensures Inv(Step(s, t, Run)) && Rely(s.g, Step(s, t, Run).g) && Lawful(s.g, Step(s, t, Run).g)
  {
    hide GInv, ThreadOk, Lawful;
    var r := StepRun(s.g, s.th[t]);
    assert OwnInstalled(s.g, t, s.th[t]);
    RunStep(s.g, t, s.th[t]);
    forall u | u in s.th && u != t ensures ThreadOk(r.0, u, s.th[u]) { ThreadStable(s.g, r.0, u, s.th[u]); }
  }

  /** The owner starts to refill its descriptor, fills a word of it, or publishes it. */
  predicate OwnerAction(a: Action) { a.Start? || a.Fill? || a.Execute? }

  /** Slot `t` changes while no operation of `t` is installed, and perhaps one operation is added. */
  lemma OwnSlotStep(g: Shared, g1: Shared, t: Tid, added: set<OpId>)
    requires GInv(g) && g1.mem == g.mem && t in g.slots && g1.slots == g.slots[t := SlotAt(g1, t)]
    requires g1.ops.Keys == g.ops.Keys + added && added !! g.ops.Keys && forall k :: k in g.ops ==> g1.ops[k] == g.ops[k]
    requires forall k :: k in added ==> OpOk(g1, k) && g1.ops[k].st.Undecided?
    requires forall k :: k in g.ops && k.tid == t ==> !g.ops[k].phase.Installed?
    requires g.slots[t].sn <= SlotAt(g1, t).sn && (SlotAt(g1, t).building ==> SlotAt(g1, t).st.Undecided?)
    requires g.slots[t].sn < SlotAt(g1, t).sn || (g.slots[t].building && SlotAt(g1, t).building)
    ensures GInv(g1) && Rely(g, g1) && Quiet(g, g1) && (forall u :: u in g.slots && u != t ==> SameSlot(g, g1, u))
  {
    forall k | k in g.ops ensures OpOk(g1, k) && OpRely(g, g1, k) { assert OpOk(g, k); }
    forall x | x in g1.mem ensures WordOk(g1, x) && Logical(g1, x) == Logical(g, x) { assert WordOk(g, x); }
  }

  lemma OwnerShared(s: System, t: Tid, a: Action)
    requires Inv(s) && t in s.th && OwnerAction(a)
    ensures var g1 := Step(s, t, a).g;
      GInv(g1) && Rely(s.g, g1) && Quiet(s.g, g1) && (forall u :: u in s.g.slots && u != t ==> SameSlot(s.g, g1, u))
  {
    var g, g1, k0 := s.g, Step(s, t, a).g, OpId(t, SlotAt(s.g, t).sn + 1);
    assert k0 !in g.ops by { if k0 in g.ops { KnownOp(g, k0); } }
    assert ThreadOk(g, t, s.th[t]);
    hide GInv, ThreadOk;
    if Step(s, t, a) == s {
      assert Quiet(g, g) && Rely(g, g);
    } else {
      forall k | k in g.ops && k.tid == t ensures !g.ops[k].phase.Installed? {
        assert g.ops[k].phase.Installed? ==> OwnedBy(s.th, k);
      }
      assert t in g.slots;
      if a.Execute? {
        assert g.mem[g.slots[t].pay[2]] != Tag(k0) by { NoTag(g, g.slots[t].pay[2], k0); }
        assert g.slots[t].st.Undecided? by { BuildingUndecided(g, t); }
        OwnSlotStep(g, g1, t, {k0});
      } else {
        if a.Fill? { BuildingUndecided(g, t); }
        OwnSlotStep(g, g1, t, {});
      }
    }
  }

  lemma NoTag(g: Shared, a: Addr, k: OpId)
    requires GInv(g) && a in g.mem && k !in g.ops
    ensures g.mem[a] != Tag(k)
  {
    assert WordOk(g, a);
  }

  lemma BuildingUndecided(g: Shared, t: Tid)
    requires GInv(g) && t in g.slots && g.slots[t].building
    ensures g.slots[t].st.Undecided?
  {}

  lemma OwnerThread(s: System, t: Tid, a: Action)
    requires Inv(s) && t in s.th && OwnerAction(a)
    ensures ThreadOk(Step(s, t, a).g, t, Step(s, t, a).th[t])
  {
    var T := s.th[t];
    assert ThreadOk(s.g, t, T);
    if T.res.Success? || T.res.FailedAddr1? || T.res.FailedAddr2? { assert OpOk(s.g, T.res.k); }
    if Step(s, t, a) == s {
    } else {
      assert T.call.Idle? && T.h.NoHelp?;
    }
  }

  lemma OwnerFrame(s: System, t: Tid, a: Action)
    requires Inv(s) && t in s.th && OwnerAction(a)
    ensures var s1 := Step(s, t, a);
      && s1.th.Keys == s.th.Keys && s1.g.slots.Keys == s.g.slots.Keys
      && (forall u :: u in s.th && u != t ==> s1.th[u] == s.th[u])
      && (s.th[t].call.Finishing? ==> s1.th[t] == s.th[t])
      && (forall k :: k in s1.g.ops && s1.g.ops[k].phase.Installed? ==> k in s.g.ops && s.g.ops[k].phase.Installed?)
  {
    assert ThreadOk(s.g, t, s.th[t]);
  }

  lemma OwnerKeeps(s: System, t: Tid, a: Action)
    requires Inv(s) && t in s.th && OwnerAction(a)
    ensures Inv(Step(s, t, a)) && Rely(s.g, Step(s, t, a).g) && Lawful(s.g, Step(s, t, a).g)
  {
    var s1 := Step(s, t, a);
    OwnerShared(s, t, a);
    OwnerThread(s, t, a);
    OwnerFrame(s, t, a);
    hide GInv, ThreadOk, Quiet, Rely, Step;
    forall u | u in s1.th ensures ThreadOk(s1.g, u, s1.th[u]) { if u != t { ThreadStable(s.g, s1.g, u, s.th[u]); } }
    forall k | k in s1.g.ops && s1.g.ops[k].phase.Installed? ensures OwnedBy(s1.th, k) { assert OwnedBy(s.th, k); }
  }

  lemma StepKeeps(s: System, t: Tid, a: Action)
    requires Inv(s)
    ensures Inv(Step(s, t, a)) && Rely(s.g, Step(s, t, a).g) && Lawful(s.g, Step(s, t, a).g)
  {
    assert Quiet(s.g, s.g);
    if t !in s.th {
    } else if a.Run? {
      RunKeeps(s, t);
    } else if OwnerAction(a) {
      OwnerKeeps(s, t, a);
    } else {
      OtherKeeps(s, t, a);
    }
  }

  lemma AuxIsIgnored(g: Shared, aux: map<Addr, int>)
    requires GInv(g)
    ensures var g1 := g.(aux := aux); GInv(g1) && Rely(g, g1) && Quiet(g, g1)
  {
    var g1 := g.(aux := aux);
    forall k | k in g.ops ensures OpOk(g1, k) { assert OpOk(g, k); }
    forall x | x in g.mem ensures WordOk(g1, x) { assert WordOk(g, x); }
  }

  /** A write of a compared word, or the start of a read. */
  lemma OtherKeeps(s: System, t: Tid, a: Action)
    requires Inv(s) && t in s.th && (a.ReadPtr? || a.WriteAux?)
    ensures Inv(Step(s, t, a)) && Rely(s.g, Step(s, t, a).g) && Lawful(s.g, Step(s, t, a).g)
  {
    var s1 := Step(s, t, a);
    AuxIsIgnored(s.g, s1.g.aux);
    hide GInv, Quiet, Rely;
    forall u | u in s1.th ensures ThreadOk(s1.g, u, s1.th[u]) {
      if s1.th[u] == s.th[u] {
        hide ThreadOk;
        ThreadStable(s.g, s1.g, u, s.th[u]);
      } else {
        assert s1.g == s.g && ThreadOk(s.g, u, s.th[u]);
        StartsReading(s.g, u, s.th[u], s1.th[u]);
      }
    }
    forall k | k in s1.g.ops && s1.g.ops[k].phase.Installed? ensures OwnedBy(s1.th, k) { assert OwnedBy(s.th, k); }
  }

  lemma StartsReading(g: Shared, t: Tid, T: Thread, T1: Thread)
    requires ThreadOk(g, t, T) && T.call.Idle? && T.h.NoHelp? && T1.call.Reading? && T1 == T.(call := T1.call) && T1.call.a in g.mem
    ensures ThreadOk(g, t, T1)
  {}

  lemma {:induction false} RunInv(s: System, sched: Schedule)
    requires Initial(s)
    ensures Inv(RunFrom(s, sched))
    decreases |sched|
  {
    if sched != [] {
      var n := |sched| - 1;
      RunInv(s, sched[..n]);
      StepKeeps(RunFrom(s, sched[..n]), sched[n].0, sched[n].1);
    }
  }
}
