/**
 * A thread that runs alone: what its steps come to while no other thread takes one, and what a whole `execute` does.
 */
module KcasAlone {
  import opened KcasModel
  import opened KcasInvariant
  import opened KcasTheorems
  import opened KcasAbandoned

  // ---------------------------------------------------------------- steps of one thread

  /** From `s` to `s1` only thread `t`, its RDCSS slot and memory have changed, and perhaps the history of RDCSSs. */
  ghost predicate Only(s: System, s1: System, t: Tid, mem: map<Addr, Word>, slot: RSlot, T: Thread) {
    && s1.g.mem == mem && s1.g.kslot == s.g.kslot && s1.g.kops == s.g.kops
    && s1.g.rslot == s.g.rslot[t := slot] && s1.th == s.th[t := T]
  }

  lemma OnlyChain(s: System, s1: System, s2: System, t: Tid, mem: map<Addr, Word>, slot: RSlot, T: Thread, mem1: map<Addr, Word>, slot1: RSlot, T1: Thread)
    requires Only(s, s1, t, mem1, slot1, T1) && Only(s1, s2, t, mem, slot, T)
    ensures Only(s, s2, t, mem, slot, T)
  {}

  lemma OnlyGives(s: System, s1: System, t: Tid, mem: map<Addr, Word>, slot: RSlot, T: Thread)
    requires Only(s, s1, t, mem, slot, T)
    ensures t in s1.th && s1.th[t] == T && t in s1.g.rslot && s1.g.rslot[t] == slot && s1.g.mem == mem
    ensures forall u :: KSlotAt(s1.g, u) == KSlotAt(s.g, u)
  {}

  /** `n` steps of thread `t`. */
  function Go(s: System, t: Tid, n: nat): System
    decreases n
  {
    if n == 0 then s else Go(Step(s, t, Run), t, n - 1)
  }

  lemma GoNone(s: System, t: Tid)
    ensures Go(s, t, 0) == s
  {}

  lemma GoFirst(s: System, t: Tid, n: nat)
    ensures Go(s, t, n + 1) == Go(Step(s, t, Run), t, n)
  {
    hide Step;
  }

  lemma GoOne(s: System, t: Tid)
    ensures Go(s, t, 1) == Step(s, t, Run)
  {
    hide Step;
  }

  lemma {:induction false} GoIsRun(s: System, t: Tid, n: nat)
    ensures Go(s, t, n) == RunFrom(s, Runs(t, n))
    decreases n
  {
    hide Step;
    if n > 0 {
      GoIsRun(Step(s, t, Run), t, n - 1);
      RunFirst(s, t, Run, Runs(t, n - 1));
      assert Runs(t, n) == [(t, Run)] + Runs(t, n - 1);
    }
  }

  lemma {:induction false} GoJoin(s: System, t: Tid, m: nat, n: nat)
    ensures Go(Go(s, t, m), t, n) == Go(s, t, m + n)
    decreases m
  {
    hide Step;
    if m > 0 { GoJoin(Step(s, t, Run), t, m - 1, n); }
  }

  /** Thread `t` is in one activation of `help`, `f`, and in its RDCSS, `rd`. */
  predicate Working(s: System, t: Tid, f: Frame, rd: Rdcss) {
    t in s.th && t in s.g.rslot && |s.g.rslot[t].pay| == 5 && s.th[t].stack == [f] && s.th[t].rd == rd && s.th[t].rh.NoRHelp?
  }

  function EntryOf(s: System, f: Frame, i: nat): Entry {
    EntryAt(Pay(s.g, f), i)
  }

  lemma OneFrame(T: Thread, f: Frame)
    requires |T.stack| == 1
    ensures WithTop(T, f) == T.(stack := [f])
  {}

  lemma FillStep(s: System, t: Tid, f: Frame, c: nat, i: nat, e: Entry)
    requires c < 5 && f.pc == InRdcss(i) && Working(s, t, f, Filling(c)) && EntryOf(s, f, i) == e
    ensures var slot := s.g.rslot[t];
      Only(s, Step(s, t, Run), t, s.g.mem, slot.(pay := slot.pay[FillOrder(c) := RPay(f.k, e)[FillOrder(c)]]), s.th[t].(rd := Filling(c + 1)))
  {
    RunIs(s, t);
    hide Step, Pay, EntryAt;
  }

  lemma PublishStep(s: System, t: Tid, f: Frame)
    requires f.pc.InRdcss? && Working(s, t, f, Filling(5))
    ensures var s1, slot := Step(s, t, Run), s.g.rslot[t];
      Only(s, s1, t, s.g.mem, slot.(sn := slot.sn + 1), s.th[t].(rd := Trying(RId(t, slot.sn + 1)))) && RId(t, slot.sn + 1) in s1.g.rops
  {
    RunIs(s, t);
    hide Step, Pay, EntryAt;
  }

  lemma SameEntry(s: System, s1: System, f: Frame, i: nat)
    requires forall u :: KSlotAt(s1.g, u) == KSlotAt(s.g, u)
    ensures EntryOf(s1, f, i) == EntryOf(s, f, i)
  {}

  /** The first `c` words of the descriptor are written. */
  ghost predicate Filled(pay: seq<Word>, want: seq<Word>, c: nat) {
    |pay| == |want| == 5 && forall j: nat :: j < c ==> j < 5 && pay[FillOrder(j)] == want[FillOrder(j)]
  }

  lemma FilledMore(pay: seq<Word>, want: seq<Word>, c: nat)
    requires c < 5 && Filled(pay, want, c)
    ensures Filled(pay[FillOrder(c) := want[FillOrder(c)]], want, c + 1)
  {}

  lemma AllFilled(pay: seq<Word>, want: seq<Word>)
    requires Filled(pay, want, 5)
    ensures pay == want
  {
    assert FillOrder(0) == 0 && FillOrder(1) == 1 && FillOrder(2) == 3 && FillOrder(3) == 2 && FillOrder(4) == 4;
  }

  /** The words still to be written, and the publication. */
  lemma {:induction false} FillRun(s: System, t: Tid, f: Frame, c: nat, i: nat, e: Entry)
    requires c <= 5 && f.pc == InRdcss(i) && Working(s, t, f, Filling(c)) && EntryOf(s, f, i) == e && Filled(s.g.rslot[t].pay, RPay(f.k, e), c)
    ensures var s1, sn := Go(s, t, 6 - c), s.g.rslot[t].sn;
      Only(s, s1, t, s.g.mem, RSlot(sn + 1, RPay(f.k, e)), s.th[t].(rd := Trying(RId(t, sn + 1)))) && RId(t, sn + 1) in s1.g.rops
    decreases 5 - c
  {
    hide Step, EntryOf, Filled, Only, RPay, Go;
    var T, slot, s1 := s.th[t], s.g.rslot[t], Step(s, t, Run);
    GoFirst(s, t, 5 - c);
    if c == 5 {
      GoNone(s1, t);
      PublishStep(s, t, f);
      AllFilled(slot.pay, RPay(f.k, e));
    } else {
      FillStep(s, t, f, c, i, e);
      FilledMore(slot.pay, RPay(f.k, e), c);
      hide FillOrder;
      var slot1, T1 := slot.(pay := slot.pay[FillOrder(c) := RPay(f.k, e)[FillOrder(c)]]), T.(rd := Filling(c + 1));
      OnlyGives(s, s1, t, s.g.mem, slot1, T1);
      SameEntry(s, s1, f, i);
      FillRun(s1, t, f, c + 1, i, e);
      OnlyChain(s, s1, Go(s1, t, 5 - c), t, s.g.mem, RSlot(slot.sn + 1, RPay(f.k, e)), T1.(rd := Trying(RId(t, slot.sn + 1))), s.g.mem, slot1, T1);
    }
  }

  lemma BeginStep(s: System, t: Tid, f: Frame, i: nat)
    requires f.pc == AtEntry(i) && Working(s, t, f, NoRdcss) && i < NumEntries(Pay(s.g, f))
    ensures var slot := s.g.rslot[t];
      Only(s, Step(s, t, Run), t, s.g.mem, slot.(sn := slot.sn + 1), s.th[t].(rd := Filling(0), stack := [f.(pc := InRdcss(i))]))
  {
    RunIs(s, t);
    OneFrame(s.th[t].(rd := Filling(0)), f.(pc := InRdcss(i)));
    hide Step, Pay, WithTop, NumEntries;
  }

  /** Entry `i` of the activation `f` is `e`. */
  predicate HasEntry(s: System, f: Frame, i: nat, e: Entry) {
    i < NumEntries(Pay(s.g, f)) && EntryOf(s, f, i) == e
  }

  lemma Prepare(s: System, t: Tid, f: Frame, i: nat, e: Entry)
    requires f.pc == AtEntry(i) && Working(s, t, f, NoRdcss) && HasEntry(s, f, i, e)
    ensures var s1, r := Go(s, t, 7), RId(t, s.g.rslot[t].sn + 2);
      Only(s, s1, t, s.g.mem, RSlot(r.sn, RPay(f.k, e)), s.th[t].(rd := Trying(r), stack := [f.(pc := InRdcss(i))])) && r in s1.g.rops
  {
    hide Step, Only, Go, NumEntries, EntryAt;
    assert |RPay(f.k, e)| == 5;
    hide RPay;
    var slot, f1, s1 := s.g.rslot[t], f.(pc := InRdcss(i)), Step(s, t, Run);
    var T1 := s.th[t].(rd := Filling(0), stack := [f1]);
    BeginStep(s, t, f, i);
    GoFirst(s, t, 6);
    hide EntryOf, Pay;
    OnlyGives(s, s1, t, s.g.mem, slot.(sn := slot.sn + 1), T1);
    SameEntry(s, s1, f1, i);
    FillRun(s1, t, f1, 0, i, e);
    var r := RId(t, slot.sn + 2);
    OnlyChain(s, s1, Go(s1, t, 6), t, s.g.mem, RSlot(r.sn, RPay(f.k, e)), T1.(rd := Trying(r)), s.g.mem, slot.(sn := slot.sn + 1), T1);
  }

  lemma InstallStep(s: System, t: Tid, f: Frame, e: Entry, r: RId)
    requires f.pc.InRdcss? && Working(s, t, f, Trying(r)) && r in s.g.rops && s.g.rslot[t].pay == RPay(f.k, e)
    requires e.addr in s.g.mem && s.g.mem[e.addr] == Plain(e.oldval)
    ensures Only(s, Step(s, t, Run), t, s.g.mem[e.addr := RTag(r)], s.g.rslot[t], s.th[t].(rd := Finishing(r), rh := RRead(r, RPay(f.k, e))))
  {
    RunIs(s, t);
    hide Step, Goto;
  }

  lemma ReadStep(s: System, t: Tid, k: KId, e: Entry, r: RId)
    requires t in s.th && t in s.g.rslot && s.th[t].rh == RRead(r, RPay(k, e))
    requires KSlotAt(s.g, k.tid).sn == k.sn && KSlotAt(s.g, k.tid).state.Undecided?
    ensures Only(s, Step(s, t, Run), t, s.g.mem, s.g.rslot[t], s.th[t].(rh := RCas(r, RPay(k, e), true)))
  {
    RunIs(s, t);
    hide Step;
  }

  /** The last compare-and-swap of an RDCSS that has read UNDECIDED. */
  lemma CasStep(s: System, t: Tid, f: Frame, i: nat, e: Entry, r: RId)
    requires t in s.th && t in s.g.rslot && s.th[t].rh == RCas(r, RPay(f.k, e), true) && s.th[t].rd.Finishing? && f.pc == InRdcss(i) && s.th[t].stack == [f]
    requires e.addr in s.g.mem && s.g.mem[e.addr] == RTag(r)
    ensures Only(s, Step(s, t, Run), t, s.g.mem[e.addr := KTag(f.k)], s.g.rslot[t], s.th[t].(rd := NoRdcss, rh := NoRHelp, stack := [f.(pc := AtEntry(i + 1))]))
  {
    RunIs(s, t);
    OneFrame(s.th[t].(rd := NoRdcss, rh := NoRHelp), f.(pc := AtEntry(i + 1)));
    hide Step, WithTop;
  }

  /** From the start of an entry to the last compare-and-swap of its RDCSS, with nothing in the way. */
  lemma Reach(s: System, t: Tid, f: Frame, i: nat, e: Entry)
    requires f.pc == AtEntry(i) && Working(s, t, f, NoRdcss) && HasEntry(s, f, i, e)
    requires e.addr in s.g.mem && s.g.mem[e.addr] == Plain(e.oldval)
    requires KSlotAt(s.g, f.k.tid).sn == f.k.sn && KSlotAt(s.g, f.k.tid).state.Undecided?
    ensures var r := RId(t, s.g.rslot[t].sn + 2);
      Only(s, Go(s, t, 9), t, s.g.mem[e.addr := RTag(r)], RSlot(r.sn, RPay(f.k, e)), s.th[t].(rd := Finishing(r), rh := RCas(r, RPay(f.k, e), true), stack := [f.(pc := InRdcss(i))]))
  {
    hide Step, HasEntry, Only, Go;
    var r, s7 := RId(t, s.g.rslot[t].sn + 2), Go(s, t, 7);
    var s8, slot, f1 := Step(s7, t, Run), RSlot(r.sn, RPay(f.k, e)), f.(pc := InRdcss(i));
    var T7 := s.th[t].(rd := Trying(r), stack := [f1]);
    Prepare(s, t, f, i, e);
    GoJoin(s, t, 7, 2);
    GoFirst(s7, t, 1);
    GoOne(s8, t);
    assert |slot.pay| == 5;
    hide RPay;
    var T8, mem := T7.(rd := Finishing(r), rh := RRead(r, RPay(f.k, e))), s.g.mem[e.addr := RTag(r)];
    OnlyGives(s, s7, t, s.g.mem, slot, T7);
    InstallStep(s7, t, f1, e, r);
    OnlyGives(s7, s8, t, mem, slot, T8);
    ReadStep(s8, t, f.k, e, r);
    OnlyChain(s, s7, s8, t, mem, slot, T8, s.g.mem, slot, T7);
    OnlyChain(s, s8, Go(s, t, 9), t, mem, slot, T8.(rh := RCas(r, RPay(f.k, e), true)), mem, slot, T8);
  }

  /** Locking an entry, with nothing in the way. */
  lemma LockRun(s: System, t: Tid, f: Frame, i: nat, e: Entry)
    requires f.pc == AtEntry(i) && Working(s, t, f, NoRdcss) && HasEntry(s, f, i, e)
    requires e.addr in s.g.mem && s.g.mem[e.addr] == Plain(e.oldval)
    requires KSlotAt(s.g, f.k.tid).sn == f.k.sn && KSlotAt(s.g, f.k.tid).state.Undecided?
    ensures Only(s, Go(s, t, 10), t, s.g.mem[e.addr := KTag(f.k)], RSlot(s.g.rslot[t].sn + 2, RPay(f.k, e)), s.th[t].(stack := [f.(pc := AtEntry(i + 1))]))
  {
    hide Step, HasEntry, Only, Go, RPay;
    var r, s9, f1 := RId(t, s.g.rslot[t].sn + 2), Go(s, t, 9), f.(pc := InRdcss(i));
    var mem, slot, T9 := s.g.mem[e.addr := RTag(r)], RSlot(r.sn, RPay(f.k, e)), s.th[t].(rd := Finishing(r), rh := RCas(r, RPay(f.k, e), true), stack := [f1]);
    Reach(s, t, f, i, e);
    GoJoin(s, t, 9, 1);
    GoOne(s9, t);
    OnlyGives(s, s9, t, mem, slot, T9);
    CasStep(s9, t, f1, i, e, r);
    assert mem[e.addr := KTag(f.k)] == s.g.mem[e.addr := KTag(f.k)];
    OnlyChain(s, s9, Go(s, t, 10), t, mem[e.addr := KTag(f.k)], slot, T9.(rd := NoRdcss, rh := NoRHelp, stack := [f1.(pc := AtEntry(i + 1))]), mem, slot, T9);
  }

  // ---------------------------------------------------------------- the other steps

  /** As `Only`, for steps that may also change k-CAS slots and the history of k-CASs. */
  ghost predicate Next(s: System, s1: System, t: Tid, mem: map<Addr, Word>, ks: map<Tid, KSlot>, slot: RSlot, T: Thread) {
    && s1.g.mem == mem && s1.g.kslot == ks && s.g.kops.Keys <= s1.g.kops.Keys
    && s1.g.rslot == s.g.rslot[t := slot] && s1.th == s.th[t := T]
  }

  lemma StartStep(s: System, t: Tid)
    requires t in s.th && t in s.g.rslot && t in s.g.kslot && s.th[t].act.Idle?
    ensures var slot := s.g.kslot[t];
      Next(s, Step(s, t, Start), t, s.g.mem, s.g.kslot[t := KSlot(slot.sn + 1, Undecided, slot.pay, true)], s.g.rslot[t], s.th[t])
  {
    assert s.th == s.th[t := s.th[t]] && s.g.rslot == s.g.rslot[t := s.g.rslot[t]];
  }

  lemma ExecuteStep(s: System, t: Tid)
    requires t in s.th && t in s.g.rslot && t in s.g.kslot && s.th[t].act.Idle? && s.g.kslot[t].building && OpOk(s.g, s.g.kslot[t].pay)
    ensures var s1, slot := Step(s, t, Execute), s.g.kslot[t]; var k := KId(t, slot.sn + 1);
      && Next(s, s1, t, s.g.mem, s.g.kslot[t := KSlot(slot.sn + 1, slot.state, slot.pay, false)], s.g.rslot[t], s.th[t].(act := Executing, stack := [Frame(k, true, [], ReadState)]))
      && k in s1.g.kops && s1.g.kops[k].es == Decode(slot.pay)
  {
    hide OpOk, Decode;
  }

  lemma ReadPtrStep(s: System, t: Tid, a: Addr)
    requires t in s.th && t in s.g.rslot && s.th[t].act.Idle? && a in s.g.mem
    ensures Next(s, Step(s, t, ReadPtr(a)), t, s.g.mem, s.g.kslot, s.g.rslot[t], s.th[t].(act := Reading(a)))
  {}

  /** `readPtr` finds the tag of a k-CAS. */
  lemma FindStep(s: System, t: Tid, k: KId)
    requires t in s.th && t in s.g.rslot && s.th[t].act.Reading? && s.th[t].stack == [] && s.th[t].rd.NoRdcss? && s.th[t].rh.NoRHelp? && MemAt(s.g, s.th[t].act.a) == KTag(k)
    ensures Next(s, Step(s, t, Run), t, s.g.mem, s.g.kslot, s.g.rslot[t], s.th[t].(stack := [HelpFrame(k)]))
  {
    RunIs(s, t);
    assert [] + [HelpFrame(k)] == [HelpFrame(k)];
    hide Step;
  }

  lemma WorkingRuns(s: System, t: Tid, f: Frame)
    requires Working(s, t, f, NoRdcss)
    ensures StepRun(s.g, t, s.th[t]) == StepFrame(s.g, t, s.th[t]) && Top(s.th[t]) == f
  {
    hide StepFrame;
  }

  /** A step of `help` that only moves on. */
  lemma MoveStep(s: System, t: Tid, f: Frame, f1: Frame)
    requires Working(s, t, f, NoRdcss) && StepFrame(s.g, t, s.th[t]) == (s.g, WithTop(s.th[t], f1))
    ensures Next(s, Step(s, t, Run), t, s.g.mem, s.g.kslot, s.g.rslot[t], s.th[t].(stack := [f1]))
  {
    RunIs(s, t);
    WorkingRuns(s, t, f);
    OneFrame(s.th[t], f1);
    hide Step, StepRun, StepFrame, WithTop;
  }

  lemma CopyStep(s: System, t: Tid, f: Frame)
    requires Working(s, t, f, NoRdcss) && f.pc.Copy? && |f.buf| < |KSlotAt(s.g, f.k.tid).pay|
    ensures Only(s, Step(s, t, Run), t, s.g.mem, s.g.rslot[t], s.th[t].(stack := [f.(buf := f.buf + [KSlotAt(s.g, f.k.tid).pay[|f.buf|]])]))
  {
    RunIs(s, t);
    WorkingRuns(s, t, f);
    OneFrame(s.th[t], f.(buf := f.buf + [KSlotAt(s.g, f.k.tid).pay[|f.buf|]]));
    hide Step, StepRun, WithTop;
  }

  /** The copy of a descriptor that does not change meanwhile. */
  lemma {:induction false} CopyRun(s: System, t: Tid, f: Frame)
    requires Working(s, t, f, NoRdcss) && f.pc.Copy? && f.buf <= KSlotAt(s.g, f.k.tid).pay
    ensures var pay := KSlotAt(s.g, f.k.tid).pay;
      Only(s, Go(s, t, |pay| - |f.buf|), t, s.g.mem, s.g.rslot[t], s.th[t].(stack := [f.(buf := pay)]))
    decreases |KSlotAt(s.g, f.k.tid).pay| - |f.buf|
  {
    hide Step, Go, Only, KSlotAt;
    var pay, T := KSlotAt(s.g, f.k.tid).pay, s.th[t];
    if f.buf == pay {
      GoNone(s, t);
      OnlySame(s, t);
    } else {
      var f1, s1 := f.(buf := f.buf + [pay[|f.buf|]]), Step(s, t, Run);
      var T1 := T.(stack := [f1]);
      CopyStep(s, t, f);
      OnlyGives(s, s1, t, s.g.mem, s.g.rslot[t], T1);
      GoFirst(s, t, |pay| - |f1.buf|);
      CopyRun(s1, t, f1);
      OnlyChain(s, s1, Go(s1, t, |pay| - |f1.buf|), t, s.g.mem, s.g.rslot[t], T1.(stack := [f1.(buf := pay)]), s.g.mem, s.g.rslot[t], T1);
    }
  }

  lemma OnlySame(s: System, t: Tid)
    requires t in s.th && t in s.g.rslot
    ensures Only(s, s, t, s.g.mem, s.g.rslot[t], s.th[t])
  {
    assert s.th == s.th[t := s.th[t]] && s.g.rslot == s.g.rslot[t := s.g.rslot[t]];
  }

  /** The RDCSS finds another user value than the expected one. */
  lemma SeeOtherStep(s: System, t: Tid, f: Frame, i: nat, e: Entry, r: RId)
    requires f.pc == InRdcss(i) && Working(s, t, f, Trying(r)) && r in s.g.rops && s.g.rslot[t].pay == RPay(f.k, e)
    requires e.addr in s.g.mem && s.g.mem[e.addr].Plain? && s.g.mem[e.addr] != Plain(e.oldval)
    ensures Next(s, Step(s, t, Run), t, s.g.mem, s.g.kslot, s.g.rslot[t], s.th[t].(rd := NoRdcss, stack := [f.(pc := Decide(false))]))
  {
    RunIs(s, t);
    OneFrame(s.th[t].(rd := NoRdcss), f.(pc := Decide(false)));
    hide Step, WithTop;
  }

  lemma DecideStep(s: System, t: Tid, f: Frame, ok: bool)
    requires f.pc == DecideCas(ok) && Working(s, t, f, NoRdcss) && f.k.tid in s.g.kslot && f.k in s.g.kops
    requires s.g.kslot[f.k.tid].sn == f.k.sn && s.g.kslot[f.k.tid].state.Undecided?
    ensures Next(s, Step(s, t, Run), t, s.g.mem, s.g.kslot[f.k.tid := s.g.kslot[f.k.tid].(state := if ok then Succeeded else Failed)], s.g.rslot[t], s.th[t].(stack := [f.(pc := Phase2)]))
  {
    RunIs(s, t);
    WorkingRuns(s, t, f);
    OneFrame(s.th[t], f.(pc := Phase2));
    hide Step, StepRun, WithTop;
  }

  lemma UnlockStep(s: System, t: Tid, f: Frame, j: nat, ok: bool, e: Entry)
    requires f.pc == Release(j, ok) && Working(s, t, f, NoRdcss) && HasEntry(s, f, j, e)
    ensures Next(s, Step(s, t, Run), t, Cas(s.g, e.addr, KTag(f.k), Plain(if ok then e.newval else e.oldval)).mem, s.g.kslot, s.g.rslot[t], s.th[t].(stack := [f.(pc := Release(j + 1, ok))]))
  {
    RunIs(s, t);
    WorkingRuns(s, t, f);
    OneFrame(s.th[t], f.(pc := Release(j + 1, ok)));
    hide Step, StepRun, WithTop;
  }

  lemma ReturnStep(s: System, t: Tid, f: Frame, j: nat, ok: bool)
    requires f.pc == Release(j, ok) && f.own && Working(s, t, f, NoRdcss) && j >= NumEntries(Pay(s.g, f))
    ensures Next(s, Step(s, t, Run), t, s.g.mem, s.g.kslot, s.g.rslot[t], s.th[t].(stack := [], act := Idle, res := Returned(f.k, ok)))
  {
    RunIs(s, t);
    WorkingRuns(s, t, f);
    hide Step, StepRun, Pay, NumEntries;
  }

  lemma OnlyIsNext(s: System, s1: System, t: Tid, mem: map<Addr, Word>, slot: RSlot, T: Thread)
    requires Only(s, s1, t, mem, slot, T)
    ensures Next(s, s1, t, mem, s.g.kslot, slot, T)
  {}

  // ---------------------------------------------------------------- a whole execute

  /** The word of entry `q` after the first `i` entries have been locked and the first `j` of these unlocked with the decision `ok`. */
  function WordAfter(m0: map<Addr, Word>, es: seq<Entry>, k: KId, i: nat, j: nat, ok: bool, q: nat): Word
    requires q < |es| && es[q].addr in m0
  {
    if q >= i then m0[es[q].addr] else if q >= j then KTag(k) else Plain(if ok then es[q].newval else es[q].oldval)
  }

  /** Memory after that. */
  ghost predicate MemAfter(m0: map<Addr, Word>, m: map<Addr, Word>, es: seq<Entry>, k: KId, i: nat, j: nat, ok: bool) {
    && m.Keys == m0.Keys && (forall q: nat :: q < |es| ==> es[q].addr in m0 && m[es[q].addr] == WordAfter(m0, es, k, i, j, ok, q))
    && forall a :: a in m0 && (forall q :: 0 <= q < |es| ==> es[q].addr != a) ==> m[a] == m0[a]
  }

  ghost predicate Distinct(es: seq<Entry>) {
    forall p, q :: 0 <= p < q < |es| ==> es[p].addr != es[q].addr
  }

  lemma LockedOneMore(m0: map<Addr, Word>, m: map<Addr, Word>, es: seq<Entry>, k: KId, i: nat, ok: bool)
    requires MemAfter(m0, m, es, k, i, 0, ok) && i < |es| && Distinct(es)
    ensures MemAfter(m0, m[es[i].addr := KTag(k)], es, k, i + 1, 0, ok)
  {
    var m1 := m[es[i].addr := KTag(k)];
    forall q: nat | q < |es| ensures m1[es[q].addr] == WordAfter(m0, es, k, i + 1, 0, ok, q) {
      if q != i { assert es[q].addr != es[i].addr; }
    }
  }

  /** The compare-and-swap that unlocks entry `j` finds the tag exactly if it was locked. */
  lemma UnlockedOneMore(g: Shared, m0: map<Addr, Word>, es: seq<Entry>, k: KId, i: nat, j: nat, ok: bool)
    requires MemAfter(m0, g.mem, es, k, i, j, ok) && j < |es| && Distinct(es) && forall q :: 0 <= q < |es| ==> m0[es[q].addr].Plain?
    ensures MemAfter(m0, Cas(g, es[j].addr, KTag(k), Plain(if ok then es[j].newval else es[j].oldval)).mem, es, k, i, j + 1, ok)
  {
    var m1 := Cas(g, es[j].addr, KTag(k), Plain(if ok then es[j].newval else es[j].oldval)).mem;
    assert g.mem[es[j].addr] == WordAfter(m0, es, k, i, j, ok, j);
    forall q: nat | q < |es| ensures m1[es[q].addr] == WordAfter(m0, es, k, i, j + 1, ok, q) {
      if q != j { assert es[q].addr != es[j].addr; }
    }
  }

  /** Thread `t`, alone, is at `pc` of its own operation `k` for `es`. */
  ghost predicate Alone(s: System, t: Tid, k: KId, es: seq<Entry>, st: State, pc: Pc) {
    && Working(s, t, Frame(k, true, [], pc), NoRdcss) && k.tid == t && k in s.g.kops
    && t in s.g.kslot && s.g.kslot[t].sn == k.sn && s.g.kslot[t].state == st
    && NumEntries(s.g.kslot[t].pay) == |es| && forall i: nat :: i < |es| ==> EntryAt(s.g.kslot[t].pay, i) == es[i]
  }

  lemma AloneNext(s: System, s1: System, t: Tid, k: KId, es: seq<Entry>, st: State, pc: Pc, st1: State, pc1: Pc, mem: map<Addr, Word>, slot: RSlot, T: Thread)
    requires Alone(s, t, k, es, st, pc) && Next(s, s1, t, mem, s.g.kslot[t := s.g.kslot[t].(state := st1)], slot, T)
    requires |slot.pay| == 5 && T.stack == [Frame(k, true, [], pc1)] && T.rd.NoRdcss? && T.rh.NoRHelp?
    ensures Alone(s1, t, k, es, st1, pc1) && s1.g.mem == mem
  {}

  lemma SameState(ks: map<Tid, KSlot>, t: Tid, st: State)
    requires t in ks && ks[t].state == st
    ensures ks[t := ks[t].(state := st)] == ks
  {
    assert ks[t].(state := st) == ks[t];
  }

  /** A step of `help` that only moves on. */
  lemma AloneMoves(s: System, t: Tid, k: KId, es: seq<Entry>, st: State, pc: Pc, pc1: Pc)
    requires Alone(s, t, k, es, st, pc) && StepFrame(s.g, t, s.th[t]) == (s.g, WithTop(s.th[t], Frame(k, true, [], pc1)))
    ensures Alone(Step(s, t, Run), t, k, es, st, pc1) && Step(s, t, Run).g.mem == s.g.mem
  {
    hide Step, StepFrame, WithTop, NumEntries, EntryAt;
    MoveStep(s, t, Frame(k, true, [], pc), Frame(k, true, [], pc1));
    SameState(s.g.kslot, t, st);
    AloneNext(s, Step(s, t, Run), t, k, es, st, pc, st, pc1, s.g.mem, s.g.rslot[t], s.th[t].(stack := [Frame(k, true, [], pc1)]));
  }

  /** Locking entry `i`, which holds its old value. */
  lemma AloneLocks(s: System, t: Tid, k: KId, es: seq<Entry>, i: nat)
    requires Alone(s, t, k, es, Undecided, AtEntry(i)) && i < |es| && es[i].addr in s.g.mem && s.g.mem[es[i].addr] == Plain(es[i].oldval)
    ensures var s1 := Go(s, t, 10); Alone(s1, t, k, es, Undecided, AtEntry(i + 1)) && s1.g.mem == s.g.mem[es[i].addr := KTag(k)]
  {
    hide Step, Go, NumEntries, EntryAt;
    var f := Frame(k, true, [], AtEntry(i));
    LockRun(s, t, f, i, es[i]);
    var mem, slot, T := s.g.mem[es[i].addr := KTag(k)], RSlot(s.g.rslot[t].sn + 2, RPay(k, es[i])), s.th[t].(stack := [f.(pc := AtEntry(i + 1))]);
    OnlyIsNext(s, Go(s, t, 10), t, mem, slot, T);
    SameState(s.g.kslot, t, Undecided);
    AloneNext(s, Go(s, t, 10), t, k, es, Undecided, AtEntry(i), Undecided, AtEntry(i + 1), mem, slot, T);
  }

  /** Coming to entry `i`, which holds another value. */
  lemma AloneDiffers(s: System, t: Tid, k: KId, es: seq<Entry>, i: nat)
    requires Alone(s, t, k, es, Undecided, AtEntry(i)) && i < |es| && es[i].addr in s.g.mem && s.g.mem[es[i].addr].Plain? && s.g.mem[es[i].addr] != Plain(es[i].oldval)
    ensures var s1 := Go(s, t, 8); Alone(s1, t, k, es, Undecided, Decide(false)) && s1.g.mem == s.g.mem
  {
    hide Step, Go, NumEntries, EntryAt;
    var f, e, r, s7 := Frame(k, true, [], AtEntry(i)), es[i], RId(t, s.g.rslot[t].sn + 2), Go(s, t, 7);
    Prepare(s, t, f, i, e);
    var slot, T7 := RSlot(r.sn, RPay(k, e)), s.th[t].(rd := Trying(r), stack := [f.(pc := InRdcss(i))]);
    OnlyGives(s, s7, t, s.g.mem, slot, T7);
    SeeOtherStep(s7, t, f.(pc := InRdcss(i)), i, e, r);
    GoJoin(s, t, 7, 1);
    GoOne(s7, t);
    var T8 := T7.(rd := NoRdcss, stack := [f.(pc := Decide(false))]);
    SameState(s.g.kslot, t, Undecided);
    NextTwice(s, s7, Go(s, t, 8), t, slot, T7, T8);
    AloneNext(s, Go(s, t, 8), t, k, es, Undecided, AtEntry(i), Undecided, Decide(false), s.g.mem, slot, T8);
  }

  lemma NextTwice(s: System, s1: System, s2: System, t: Tid, slot: RSlot, T1: Thread, T2: Thread)
    requires Only(s, s1, t, s.g.mem, slot, T1) && Next(s1, s2, t, s1.g.mem, s1.g.kslot, slot, T2)
    ensures Next(s, s2, t, s.g.mem, s.g.kslot, slot, T2)
  {}

  /** All entries from `i` to `n` hold their old values. */
  ghost predicate Match(m0: map<Addr, Word>, es: seq<Entry>, n: nat) {
    n <= |es| && forall q: nat :: q < n ==> es[q].addr in m0 && m0[es[q].addr] == Plain(es[q].oldval)
  }

  ghost predicate AllPlain(m0: map<Addr, Word>, es: seq<Entry>) {
    forall q :: 0 <= q < |es| ==> es[q].addr in m0 && m0[es[q].addr].Plain?
  }

  /** The first phase: to the decision, which is positive exactly if all words match. */
  lemma {:induction false} FirstPhase(s: System, t: Tid, k: KId, es: seq<Entry>, m0: map<Addr, Word>, i: nat) returns (n: nat, p: nat, ok: bool)
    requires Alone(s, t, k, es, Undecided, AtEntry(i)) && i <= |es| && Distinct(es) && AllPlain(m0, es)
    requires MemAfter(m0, s.g.mem, es, k, i, 0, true) && Match(m0, es, i)
    ensures Alone(Go(s, t, n), t, k, es, Undecided, Decide(ok)) && MemAfter(m0, Go(s, t, n).g.mem, es, k, p, 0, true)
    ensures p <= |es| && Match(m0, es, p) && (ok <==> p == |es|) && (ok <==> Match(m0, es, |es|))
    decreases |es| - i
  {
    hide Step, Go, Alone, MemAfter, NumEntries, EntryAt;
    if i == |es| {
      AloneEnds(s, t, k, es);
      GoOne(s, t);
      n, p, ok := 1, i, true;
    } else {
      WordAt(m0, s.g.mem, es, k, i);
      if m0[es[i].addr] == Plain(es[i].oldval) {
        AloneLocks(s, t, k, es, i);
        LockedOneMore(m0, s.g.mem, es, k, i, true);
        n, p, ok := FirstPhase(Go(s, t, 10), t, k, es, m0, i + 1);
        GoJoin(s, t, 10, n);
        n := 10 + n;
      } else {
        AloneDiffers(s, t, k, es, i);
        n, p, ok := 8, i, false;
      }
    }
  }

  lemma AloneEnds(s: System, t: Tid, k: KId, es: seq<Entry>)
    requires Alone(s, t, k, es, Undecided, AtEntry(|es|))
    ensures Alone(Step(s, t, Run), t, k, es, Undecided, Decide(true)) && Step(s, t, Run).g.mem == s.g.mem
  {
    hide Step;
    AloneMoves(s, t, k, es, Undecided, AtEntry(|es|), Decide(true));
  }

  lemma WordAt(m0: map<Addr, Word>, m: map<Addr, Word>, es: seq<Entry>, k: KId, i: nat)
    requires MemAfter(m0, m, es, k, i, 0, true) && i < |es|
    ensures es[i].addr in m0 && es[i].addr in m && m[es[i].addr] == m0[es[i].addr]
  {}

  /** The decision. */
  lemma DecisionAlone(s: System, t: Tid, k: KId, es: seq<Entry>, ok: bool)
    requires Alone(s, t, k, es, Undecided, Decide(ok))
    ensures var s1 := Go(s, t, 3); Alone(s1, t, k, es, if ok then Succeeded else Failed, Release(0, ok)) && s1.g.mem == s.g.mem
  {
    hide Step, Go, NumEntries, EntryAt;
    var st := if ok then Succeeded else Failed;
    var s1 := Step(s, t, Run);
    var s2 := Step(s1, t, Run);
    AloneMoves(s, t, k, es, Undecided, Decide(ok), DecideCas(ok));
    DecideStep(s1, t, Frame(k, true, [], DecideCas(ok)), ok);
    AloneNext(s1, s2, t, k, es, Undecided, DecideCas(ok), st, Phase2, s1.g.mem, s1.g.rslot[t], s1.th[t].(stack := [Frame(k, true, [], Phase2)]));
    AloneMoves(s2, t, k, es, st, Phase2, Release(0, ok));
    GoFirst(s, t, 2);
    GoFirst(s1, t, 1);
    GoOne(s2, t);
  }

  /** The second phase: every entry is unlocked. */
  lemma {:induction false} SecondPhase(s: System, t: Tid, k: KId, es: seq<Entry>, m0: map<Addr, Word>, i: nat, j: nat, ok: bool)
    requires Alone(s, t, k, es, if ok then Succeeded else Failed, Release(j, ok)) && j <= |es| && Distinct(es) && AllPlain(m0, es)
    requires MemAfter(m0, s.g.mem, es, k, i, j, ok)
    ensures var s1 := Go(s, t, |es| - j + 1);
      t in s1.th && s1.th[t].act.Idle? && s1.th[t].res == Returned(k, ok) && MemAfter(m0, s1.g.mem, es, k, i, |es|, ok)
    decreases |es| - j
  {
    hide Step, Go, MemAfter, EntryAt;
    var st, f, s1 := if ok then Succeeded else Failed, Frame(k, true, [], Release(j, ok)), Step(s, t, Run);
    GoFirst(s, t, |es| - j);
    if j == |es| {
      ReturnStep(s, t, f, j, ok);
      GoNone(s1, t);
    } else {
      UnlockStep(s, t, f, j, ok, es[j]);
      UnlockedOneMore(s.g, m0, es, k, i, j, ok);
      SameState(s.g.kslot, t, st);
      var mem := Cas(s.g, es[j].addr, KTag(k), Plain(if ok then es[j].newval else es[j].oldval)).mem;
      AloneNext(s, s1, t, k, es, st, Release(j, ok), st, Release(j + 1, ok), mem, s.g.rslot[t], s.th[t].(stack := [Frame(k, true, [], Release(j + 1, ok))]));
      hide Alone;
      SecondPhase(s1, t, k, es, m0, i, j + 1, ok);
    }
  }

  /**
   * An execute that runs alone, on words that hold user values, returns, and returns true exactly if every word holds
   * its old value; then every word has its new value, otherwise every word is as it was, and no other word changes.
   */
  lemma ExecuteAlone(s: System, t: Tid, k: KId, es: seq<Entry>) returns (n: nat)
    requires Alone(s, t, k, es, Undecided, ReadState) && Distinct(es) && AllPlain(s.g.mem, es)
    ensures var s1, ok := Go(s, t, n), Match(s.g.mem, es, |es|);
      && t in s1.th && s1.th[t].act.Idle? && s1.th[t].res == Returned(k, ok) && s1.g.mem.Keys == s.g.mem.Keys
      && (forall i :: 0 <= i < |es| ==> s1.g.mem[es[i].addr] == Plain(if ok then es[i].newval else s.g.mem[es[i].addr].v))
      && (forall a :: a in s.g.mem && (forall i :: 0 <= i < |es| ==> es[i].addr != a) ==> s1.g.mem[a] == s.g.mem[a])
  {
    hide Step, Go, NumEntries, EntryAt;
    var m0, s1 := s.g.mem, Step(s, t, Run);
    AloneMoves(s, t, k, es, Undecided, ReadState, AtEntry(0));
    assert MemAfter(m0, s1.g.mem, es, k, 0, 0, true);
    hide Alone, MemAfter;
    var a, p, ok := FirstPhase(s1, t, k, es, m0, 0);
    var s2 := Go(s1, t, a);
    DecisionAlone(s2, t, k, es, ok);
    var s3 := Go(s2, t, 3);
    NoneUnlocked(m0, s3.g.mem, es, k, p, ok);
    SecondPhase(s3, t, k, es, m0, p, 0, ok);
    GoJoin(s2, t, 3, |es| + 1);
    GoJoin(s1, t, a, 3 + (|es| + 1));
    GoFirst(s, t, a + (3 + (|es| + 1)));
    n := a + (3 + (|es| + 1)) + 1;
    MemIsRight(m0, Go(s, t, n).g.mem, es, k, p, ok);
  }

  lemma NoneUnlocked(m0: map<Addr, Word>, m: map<Addr, Word>, es: seq<Entry>, k: KId, i: nat, ok: bool)
    requires MemAfter(m0, m, es, k, i, 0, true)
    ensures MemAfter(m0, m, es, k, i, 0, ok)
  {
    forall q: nat | q < |es| ensures WordAfter(m0, es, k, i, 0, ok, q) == WordAfter(m0, es, k, i, 0, true, q) {}
  }

  lemma MemIsRight(m0: map<Addr, Word>, m: map<Addr, Word>, es: seq<Entry>, k: KId, p: nat, ok: bool)
    requires MemAfter(m0, m, es, k, p, |es|, ok) && AllPlain(m0, es) && Match(m0, es, p) && (ok <==> p == |es|)
    ensures m.Keys == m0.Keys
    ensures forall i :: 0 <= i < |es| ==> m[es[i].addr] == Plain(if ok then es[i].newval else m0[es[i].addr].v)
    ensures forall a :: a in m0 && (forall i :: 0 <= i < |es| ==> es[i].addr != a) ==> m[a] == m0[a]
  {
    forall i | 0 <= i < |es| ensures m[es[i].addr] == Plain(if ok then es[i].newval else m0[es[i].addr].v) {
      assert m[es[i].addr] == WordAfter(m0, es, k, p, |es|, ok, i);
    }
  }
}
