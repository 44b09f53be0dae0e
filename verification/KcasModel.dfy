/**
 * Multi-word compare-and-swap over RDCSS with reusable descriptors, as a step machine.
 *
 * Every step of a thread is one atomic load, store or compare-and-swap on shared memory, so a run
 * is a schedule: a sequence of (thread, action) pairs. The machine is sequentially consistent, has
 * any finite set of threads, and recycles one k-CAS slot and one RDCSS slot per thread.
 *
 * `kops` and `rops` keep the history of all operations ever published. They only serve to state
 * properties: no step reads them to decide what to do.
 */
module KcasModel {

  type Tid = nat
  type Addr = int

  /** An operation is named by the slot it was published in and the slot's sequence number then. */
  datatype KId = KId(tid: Tid, sn: nat)
  datatype RId = RId(tid: Tid, sn: nat)

  /** A shared word: a user value, or the tag of a k-CAS or of an RDCSS. */
  datatype Word = Plain(v: int) | KTag(k: KId) | RTag(r: RId)

  datatype Entry = Entry(addr: Addr, oldval: int, newval: int)
  datatype State = Undecided | Succeeded | Failed

  /** `pay` is the descriptor past `seqBits`, word by word: numEntries, then addr, oldval, newval of each entry. */
  datatype KSlot = KSlot(sn: nat, state: State, pay: seq<int>, building: bool)

  /** `pay` is addr1 (the slot whose seqBits is read), old1, addr2, old2, new2. */
  datatype RSlot = RSlot(sn: nat, pay: seq<Word>)

  datatype KOp = KOp(pay: seq<int>, es: seq<Entry>, st: State, mismatch: bool)
  datatype ROp = ROp(k: KId, i: nat, e: Entry, installed: bool)

  datatype Shared = Shared(
    mem: map<Addr, Word>,
    kslot: map<Tid, KSlot>,
    rslot: map<Tid, RSlot>,
    kops: map<KId, KOp>,
    rops: map<RId, ROp>)

  /** Where one activation of `help` stands. */
  datatype Pc =
    | Copy                        // helpOther: memcpy of the descriptor, then the sequence check
    | ReadState                   // first read of the state
    | AtEntry(i: nat)             // retry_entry
    | InRdcss(i: nat)             // inside the RDCSS for entry i
    | Helping(i: nat)             // suspended in helpOther for the operation found at entry i
    | Decide(ok: bool)            // SEQBITS_CAS_FIELD: initial read
    | DecideCas(ok: bool)         // its compare-and-swap
    | DecideReread(ok: bool)      // its read after a failed compare-and-swap
    | Phase2                      // second read of the state
    | Release(j: nat, ok: bool)   // unlocking entry j

  datatype Frame = Frame(k: KId, own: bool, buf: seq<int>, pc: Pc)

  /** The thread's own RDCSS: writing the descriptor, trying to install it, or finishing it. */
  datatype Rdcss = NoRdcss | Filling(c: nat) | Trying(r: RId) | Finishing(r: RId)

  /** An activation of rdcssHelp: copying the descriptor, reading the k-CAS state, final CAS. */
  datatype RHelp = NoRHelp | RCopy(r: RId, buf: seq<Word>) | RRead(r: RId, buf: seq<Word>) | RCas(r: RId, buf: seq<Word>, undecided: bool)

  datatype Activity = Idle | Executing | Reading(a: Addr)
  datatype Result = NoResult | Returned(k: KId, ok: bool) | Got(a: Addr, v: int)

  datatype Thread = Thread(act: Activity, stack: seq<Frame>, rd: Rdcss, rh: RHelp, res: Result)

  datatype System = System(g: Shared, th: map<Tid, Thread>)

  /** Client calls, and `Run`: the thread's next atomic step inside a call. */
  datatype Action = Start | Fill(c: nat, w: int) | Execute | ReadPtr(a: Addr) | Run

  // ---------------------------------------------------------------- descriptors as words

  function EntryAt(pay: seq<int>, i: nat): Entry {
    if 3 * i + 3 < |pay| then Entry(pay[3 * i + 1], pay[3 * i + 2], pay[3 * i + 3]) else Entry(0, 0, 0)
  }

  function NumEntries(pay: seq<int>): nat {
    if |pay| > 0 && pay[0] >= 0 then pay[0] else 0
  }

  function Decode(pay: seq<int>): seq<Entry> {
    seq(NumEntries(pay), i requires i >= 0 => EntryAt(pay, i))
  }

  /** The five words an RDCSS descriptor for entry `e` of operation `k` holds. */
  function RPay(k: KId, e: Entry): seq<Word> {
    [Plain(k.tid), KTag(k), Plain(e.addr), Plain(e.oldval), KTag(k)]
  }

  predicate RPayOk(p: seq<Word>) {
    && |p| == 5 && p[0].Plain? && p[0].v >= 0 && p[1].KTag? && p[2].Plain? && p[3].Plain? && p[4].KTag?
  }

  /** The order in which `help` writes the five words: addr1, old1, old2, addr2, new2. */
  function FillOrder(c: nat): nat {
    if c == 2 then 3 else if c == 3 then 2 else c
  }

  // ---------------------------------------------------------------- shared memory

  function MemAt(g: Shared, a: Addr): Word {
    if a in g.mem then g.mem[a] else Plain(0)
  }

  function KSlotAt(g: Shared, t: Tid): KSlot {
    if t in g.kslot then g.kslot[t] else KSlot(0, Undecided, [], false)
  }

  function RSlotAt(g: Shared, t: Tid): RSlot {
    if t in g.rslot then g.rslot[t] else RSlot(0, [])
  }

  function Cas(g: Shared, a: Addr, expected: Word, update: Word): Shared {
    if a in g.mem && g.mem[a] == expected then g.(mem := g.mem[a := update]) else g
  }

  /** What the client must hand to `execute`: valid addresses; ascending, as the sort leaves distinct ones. */
  predicate OpOk(g: Shared, pay: seq<int>) {
    && |pay| > 0 && 0 <= pay[0] && 3 * pay[0] < |pay|
    && var es := Decode(pay);
    && (forall i :: 0 <= i < |es| ==> es[i].addr in g.mem)
    && Ascending(es)
  }

  predicate Ascending(es: seq<Entry>) {
    forall i, j :: 0 <= i < j < |es| ==> es[i].addr < es[j].addr
  }

  // ---------------------------------------------------------------- shared-state effects

  function WithKSlot(g: Shared, t: Tid, slot: KSlot): Shared {
    g.(kslot := g.kslot[t := slot])
  }

  /** DESC_NEW on the k-CAS slot. */
  function StartK(g: Shared, t: Tid): Shared {
    var slot := KSlotAt(g, t);
    WithKSlot(g, t, slot.(sn := slot.sn + 1, state := Undecided, building := true))
  }

  /** DESC_INITIALIZED on the k-CAS slot, which publishes the operation. */
  function PublishK(g: Shared, t: Tid): Shared {
    var slot := KSlotAt(g, t);
    var k := KId(t, slot.sn + 1);
    WithKSlot(g, t, slot.(sn := slot.sn + 1, building := false))
    .(kops := g.kops[k := KOp(slot.pay, Decode(slot.pay), slot.state, false)])
  }

  /** DESC_NEW on the RDCSS slot. */
  function StartR(g: Shared, t: Tid): Shared {
    var slot := RSlotAt(g, t);
    g.(rslot := g.rslot[t := slot.(sn := slot.sn + 1)])
  }

  function WriteR(g: Shared, t: Tid, c: nat, w: Word): Shared {
    var slot := RSlotAt(g, t);
    if c < |slot.pay| then g.(rslot := g.rslot[t := slot.(pay := slot.pay[c := w])]) else g
  }

  /** DESC_INITIALIZED on the RDCSS slot. */
  function PublishR(g: Shared, t: Tid, k: KId, i: nat, e: Entry): Shared {
    var slot := RSlotAt(g, t);
    g.(rslot := g.rslot[t := slot.(sn := slot.sn + 1)],
       rops := g.rops[RId(t, slot.sn + 1) := ROp(k, i, e, false)])
  }

  /** The successful VAL_CAS of `rdcss`: old2 becomes the RDCSS tag. */
  function InstallR(g: Shared, r: RId, a: Addr): Shared
    requires r in g.rops
  {
    g.(mem := g.mem[a := RTag(r)], rops := g.rops[r := g.rops[r].(installed := true)])
  }

  /** The successful compare-and-swap on the state of `k`. */
  function DecideK(g: Shared, k: KId, st: State): Shared
    requires k in g.kops
  {
    WithKSlot(g, k.tid, KSlotAt(g, k.tid).(state := st)).(kops := g.kops[k := g.kops[k].(st := st)])
  }

  /** Notes in the history that an entry of the still undecided `k` was seen holding another value. */
  function NoteMismatch(g: Shared, k: KId): Shared {
    if k in g.kops && g.kops[k].st.Undecided? then g.(kops := g.kops[k := g.kops[k].(mismatch := true)]) else g
  }

  // ---------------------------------------------------------------- thread steps

  function Top(T: Thread): Frame
    requires T.stack != []
  {
    T.stack[|T.stack| - 1]
  }

  function WithTop(T: Thread, f: Frame): Thread
    requires T.stack != []
  {
    T.(stack := T.stack[..|T.stack| - 1] + [f])
  }

  function Goto(T: Thread, pc: Pc): Thread
    requires T.stack != []
  {
    WithTop(T, Top(T).(pc := pc))
  }

  /** The words of the descriptor `help` works on: the owner's slot itself, or the helper's copy. */
  function Pay(g: Shared, f: Frame): seq<int> {
    if f.own then KSlotAt(g, f.k.tid).pay else f.buf
  }

  /** Return from `help`: `execute` reports, a suspended caller retries its entry, a reader reloads. */
  function Return(T: Thread, ok: bool): Thread
    requires T.stack != []
  {
    var f := Top(T);
    var rest := T.stack[..|T.stack| - 1];
    if f.own then T.(stack := rest, act := Idle, res := Returned(f.k, ok))
    else if rest == [] || !rest[|rest| - 1].pc.Helping? then T.(stack := rest)
    else
      var T1 := T.(stack := rest);
      Goto(T1, AtEntry(Top(T1).pc.i))
  }

  function HelpFrame(k: KId): Frame {
    Frame(k, false, [], Copy)
  }

  /** One step of `rdcssHelpOther` / `rdcssHelp`. */
  function StepRHelp(g: Shared, T: Thread): (Shared, Thread) {
    match T.rh
    case NoRHelp => (g, T)
    case RCopy(r, buf) =>
      var slot := RSlotAt(g, r.tid);
      if |buf| < |slot.pay| then (g, T.(rh := RCopy(r, buf + [slot.pay[|buf|]])))
      else if slot.sn == r.sn then (g, T.(rh := RRead(r, buf)))
      else (g, T.(rh := NoRHelp))
    case RRead(r, buf) =>
      if !RPayOk(buf) then (g, T) else
      var slot := KSlotAt(g, buf[0].v);
      (g, T.(rh := RCas(r, buf, slot.sn == buf[1].k.sn && slot.state.Undecided?)))
    case RCas(r, buf, undecided) =>
      if !RPayOk(buf) then (g, T) else
      var g1 := Cas(g, buf[2].v, RTag(r), if undecided then buf[4] else buf[3]);
      var T1 := T.(rh := NoRHelp);
      if T.rd.Finishing? && T.stack != [] && Top(T).pc.InRdcss?
      then (g1, Goto(T1.(rd := NoRdcss), AtEntry(Top(T).pc.i + 1)))
      else (g1, T1)
  }

  /** One step of the thread's own RDCSS: filling the descriptor and the VAL_CAS loop of `rdcss`. */
  function StepRdcss(g: Shared, t: Tid, T: Thread): (Shared, Thread)
    requires T.stack != [] && Top(T).pc.InRdcss?
  {
    var f := Top(T);
    var i := f.pc.i;
    match T.rd
    case Filling(c) =>
      var e := EntryAt(Pay(g, f), i);
      if c < 5 then (WriteR(g, t, FillOrder(c), RPay(f.k, e)[FillOrder(c)]), T.(rd := Filling(c + 1)))
      else (PublishR(g, t, f.k, i, e), T.(rd := Trying(RId(t, RSlotAt(g, t).sn + 1))))
    case Trying(r) =>
      var p := RSlotAt(g, t).pay;
      if !RPayOk(p) || r !in g.rops || p[2].v !in g.mem then (g, T) else
      var w := g.mem[p[2].v];
      if w == p[3] then (InstallR(g, r, p[2].v), T.(rd := Finishing(r), rh := RRead(r, p)))
      else (
        match w
        case RTag(other) => (g, T.(rh := RCopy(other, [])))
        case KTag(other) =>
          if other == f.k then (g, Goto(T.(rd := NoRdcss), AtEntry(i + 1)))
          else
            var T1 := Goto(T.(rd := NoRdcss), Helping(i));
            (g, T1.(stack := T1.stack + [HelpFrame(other)]))
        case Plain(_) => (NoteMismatch(g, f.k), Goto(T.(rd := NoRdcss), Decide(false)))
      )
    case _ => (g, T)
  }

  /** One step of the innermost activation of `help`. */
  function StepFrame(g: Shared, t: Tid, T: Thread): (Shared, Thread)
    requires T.stack != []
  {
    var f := Top(T);
    var slot := KSlotAt(g, f.k.tid);
    var pay := Pay(g, f);
    match f.pc
    case Copy =>
      if |f.buf| < |slot.pay| then (g, WithTop(T, f.(buf := f.buf + [slot.pay[|f.buf|]])))
      else if slot.sn == f.k.sn then (g, Goto(T, ReadState))
      else (g, Return(T, false))
    case ReadState =>
      if slot.sn != f.k.sn then (g, Return(T, false))
      else if slot.state.Undecided? then (g, Goto(T, AtEntry(if f.own then 0 else 1)))
      else (g, Goto(T, Phase2))
    case AtEntry(i) =>
      if i < NumEntries(pay) then (StartR(g, t), Goto(T.(rd := Filling(0)), InRdcss(i)))
      else (g, Goto(T, Decide(true)))
    case Decide(ok) =>
      (g, Goto(T, if slot.sn == f.k.sn then DecideCas(ok) else Phase2))
    case DecideCas(ok) =>
      if slot.sn == f.k.sn && slot.state.Undecided? && f.k in g.kops
      then (DecideK(g, f.k, if ok then Succeeded else Failed), Goto(T, Phase2))
      else (g, Goto(T, DecideReread(ok)))
    case DecideReread(ok) =>
      (g, Goto(T, if slot.state.Undecided? && slot.sn == f.k.sn then DecideCas(ok) else Phase2))
    case Phase2 =>
      if slot.sn != f.k.sn then (g, Return(T, false))
      else (g, Goto(T, Release(0, slot.state.Succeeded?)))
    case Release(j, ok) =>
      if j < NumEntries(pay) then
        var e := EntryAt(pay, j);
        (Cas(g, e.addr, KTag(f.k), Plain(if ok then e.newval else e.oldval)), Goto(T, Release(j + 1, ok)))
      else (g, Return(T, ok))
    case _ => (g, T)
  }

  /** One load of `readPtr`, which returns a user value and helps whatever else it finds. */
  function StepRead(g: Shared, T: Thread): Thread
    requires T.act.Reading?
  {
    match MemAt(g, T.act.a)
    case Plain(v) => T.(act := Idle, res := Got(T.act.a, v))
    case RTag(r) => T.(rh := RCopy(r, []))
    case KTag(k) => T.(stack := T.stack + [HelpFrame(k)])
  }

  function StepRun(g: Shared, t: Tid, T: Thread): (Shared, Thread) {
    if T.rh != NoRHelp then StepRHelp(g, T)
    else if T.rd != NoRdcss then
      if T.stack != [] && Top(T).pc.InRdcss? then StepRdcss(g, t, T) else (g, T)
    else if T.stack != [] then StepFrame(g, t, T)
    else if T.act.Reading? then (g, StepRead(g, T))
    else (g, T)
  }

  /** The effect of one scheduled action. An action that is not possible leaves the system as it is. */
  function Step(s: System, t: Tid, a: Action): System {
    if t !in s.th then s else
    var g, T := s.g, s.th[t];
    var slot := KSlotAt(g, t);
    match a
    case Start =>
      if T.act.Idle? then System(StartK(g, t), s.th) else s
    case Fill(c, w) =>
      if T.act.Idle? && slot.building && c < |slot.pay|
      then System(WithKSlot(g, t, slot.(pay := slot.pay[c := w])), s.th) else s
    case Execute =>
      if T.act.Idle? && slot.building && OpOk(g, slot.pay) then
        System(PublishK(g, t),
               s.th[t := T.(act := Executing, stack := [Frame(KId(t, slot.sn + 1), true, [], ReadState)])])
      else s
    case ReadPtr(a) =>
      if T.act.Idle? && a in g.mem then System(g, s.th[t := T.(act := Reading(a))]) else s
    case Run =>
      var (g1, T1) := StepRun(g, t, T);
      System(g1, s.th[t := T1])
  }

  type Schedule = seq<(Tid, Action)>

  function RunFrom(s: System, sched: Schedule): System
    decreases |sched|
  {
    if sched == [] then s
    else Step(RunFrom(s, sched[..|sched| - 1]), sched[|sched| - 1].0, sched[|sched| - 1].1)
  }

  /** The state after the constructor: sequence numbers 1, arbitrary descriptor contents, user values in memory. */
  predicate Initial(s: System) {
    && s.g.kslot.Keys == s.g.rslot.Keys == s.th.Keys
    && s.g.kops == map[] && s.g.rops == map[]
    && (forall a :: a in s.g.mem ==> s.g.mem[a].Plain?)
    && (forall t :: t in s.g.kslot ==> s.g.kslot[t].sn == 1 && !s.g.kslot[t].building && s.g.kslot[t].state.Undecided?)
    && (forall t :: t in s.g.rslot ==> s.g.rslot[t].sn == 1 && |s.g.rslot[t].pay| == 5)
    && (forall t :: t in s.th ==> s.th[t] == Thread(Idle, [], NoRdcss, NoRHelp, NoResult))
  }
}
