/**
 * Every atomic step of a thread keeps the invariant and is either invisible to users of the
 * memory or is one whole k-word swap.
 */
module KcasSteps {
  import opened KcasModel
  import opened KcasInvariant
  import opened KcasEffects

  /** The step of the atomic k-word memory that a step of the machine stands for. */
  ghost predicate AtomicStep(g: Shared, g1: Shared) {
    || (SameLogical(g, g1) && SucceededBut(g, g1, {}))
    || exists k :: Commits(g, g1, k)
  }

  /** Only the operations in `ks` turn SUCCEEDED. */
  ghost predicate SucceededBut(g: Shared, g1: Shared, ks: set<KId>) {
    forall k :: k in g1.kops && g1.kops[k].st.Succeeded? && k !in ks ==> k in g.kops && g.kops[k].st.Succeeded?
  }

  ghost predicate Commits(g: Shared, g1: Shared, k: KId) {
    && k in g.kops && k in g1.kops
    && g.kops[k].st.Undecided? && g1.kops[k].st.Succeeded?
    && SucceededBut(g, g1, {k})
    && SwapsAll(g, g1, g.kops[k].es)
  }

  ghost predicate OthersKept(g: Shared, g1: Shared, t: Tid) {
    forall u :: u in g.kslot && u in g.rslot && u != t ==> SameSlots(g, g1, u)
  }

  ghost predicate OwnerKept(g1: Shared, T: Thread, T1: Thread) {
    T.act.Executing? && T.stack != [] ==>
      || (T1.act.Executing? && T1.stack != [] && T1.stack[0].k == T.stack[0].k)
      || (T.stack[0].k in g1.kops && !g1.kops[T.stack[0].k].st.Undecided?)
  }

  /** What is to be shown of one step of thread `t`. */
  ghost predicate Good(g: Shared, t: Tid, T: Thread, r: (Shared, Thread)) {
    && GInv(r.0) && Rely(g, r.0) && AtomicStep(g, r.0)
    && r.0.kops.Keys == g.kops.Keys
    && OthersKept(g, r.0, t)
    && ThreadOk(r.0, t, r.1)
    && OwnerKept(r.0, T, r.1)
  }

  /** A step on one word, or on the state of an operation whose slot is not being rewritten, is no business of other slots. */
  lemma SlotsKept(g: Shared, g1: Shared, t: Tid)
    requires g1.kslot.Keys == g.kslot.Keys && g1.rslot == g.rslot && g1.rops == g.rops
    requires forall u :: u in g.kslot ==> g1.kslot[u] == g.kslot[u].(state := g1.kslot[u].state)
    ensures OthersKept(g, g1, t)
  {}

  // ---------------------------------------------------------------- moving on the stack

  lemma TopOk(g: Shared, t: Tid, T: Thread)
    requires StackOk(g, t, T) && T.stack != []
    ensures FrameOk(g, t, Top(T)) && !Top(T).pc.Helping?
  {}

  lemma GotoOk(g: Shared, t: Tid, T: Thread, f: Frame)
    requires StackOk(g, t, T) && T.stack != []
    requires f.k == Top(T).k && f.own == Top(T).own && !f.pc.Helping?
    requires FrameOk(g, t, f)
    ensures StackOk(g, t, WithTop(T, f)) && Top(WithTop(T, f)) == f
    ensures WithTop(T, f).stack[0].k == T.stack[0].k
  {
    var T1 := WithTop(T, f);
    var n := |T.stack|;
    assert forall i :: 0 <= i < n - 1 ==> T1.stack[i] == T.stack[i];
    assert T1.stack[n - 1] == f;
    forall i | 0 <= i < n - 1 ensures SuspendedOn(g, T1.stack[i], T1.stack[i + 1]) {
      assert SuspendedOn(g, T.stack[i], T.stack[i + 1]);
    }
  }

  /** A caller suspended in helpOther goes on with the entry it was at. */
  lemma ResumeOk(g: Shared, t: Tid, T: Thread)
    requires StackOk(g, t, T) && |T.stack| > 1 && T.rd.NoRdcss? && T.rh.NoRHelp?
    ensures var n := |T.stack|;
      && T.stack[n - 2].pc.Helping? && !T.stack[n - 1].own
      && StackOk(g, t, Goto(T.(stack := T.stack[..n - 1]), AtEntry(T.stack[n - 2].pc.i)))
      && Goto(T.(stack := T.stack[..n - 1]), AtEntry(T.stack[n - 2].pc.i)).stack[0].k == T.stack[0].k
  {
    var n := |T.stack|;
    var f := T.stack[n - 2];
    assert SuspendedOn(g, f, T.stack[n - 1]) && FrameOk(g, t, f);
    assert FrameOk(g, t, f.(pc := AtEntry(f.pc.i)));
    var T1 := Goto(T.(stack := T.stack[..n - 1]), AtEntry(f.pc.i));
    assert |T1.stack| == n - 1 && T1.stack[n - 2] == f.(pc := AtEntry(f.pc.i)) && forall i :: 0 <= i < n - 2 ==> T1.stack[i] == T.stack[i];
    hide Goto, HigherUp, FrameOk, SuspendedOn;
    forall i | 0 <= i < n - 2 ensures SuspendedOn(g, T1.stack[i], T1.stack[i + 1]) {
      SuspendedSame(g, T.stack[i], T.stack[i + 1], T1.stack[i + 1]);
    }
  }

  lemma PopOk(g: Shared, t: Tid, T: Thread, ok: bool)
    requires StackOk(g, t, T) && T.stack != [] && T.rd.NoRdcss? && T.rh.NoRHelp? && ResultOk(g, t, T.res)
    requires Top(T).own ==> ResultOk(g, t, Returned(Top(T).k, ok))
    ensures var T1 := Return(T, ok);
            StackOk(g, t, T1) && RdcssOk(g, t, T1) && ResultOk(g, t, T1.res) && T1.rh.NoRHelp? && OwnerKept(g, T, T1)
  {
    hide HigherUp, FrameOk, SuspendedOn, WithTop;
    if |T.stack| > 1 {
      ResumeOk(g, t, T);
      ResumedTop(T);
      hide ResultOk, StackOk, Goto;
    }
  }

  lemma ResumedTop(T: Thread)
    requires |T.stack| > 1 && T.stack[|T.stack| - 2].pc.Helping?
    ensures var n := |T.stack|; var T1 := Goto(T.(stack := T.stack[..n - 1]), AtEntry(T.stack[n - 2].pc.i));
      T1.stack != [] && Top(T1).pc.AtEntry? && T1 == T.(stack := T1.stack)
  {}

  lemma PushOk(g: Shared, t: Tid, T: Thread, f: Frame)
    requires StackOk(g, t, T) && !T.act.Idle? && FrameOk(g, t, f) && !f.own && !f.pc.Helping? && !f.pc.InRdcss?
    requires T.stack == [] || (Top(T).pc.InRdcss? && SuspendedOn(g, Top(T).(pc := Helping(Top(T).pc.i)), f))
    requires |T.stack| > 1 ==> HigherUp(g, T.stack[|T.stack| - 2], Top(T).(pc := Helping(Top(T).pc.i)))
    ensures var T0 := if T.stack == [] then T else Goto(T, Helping(Top(T).pc.i));
            var T1 := T0.(stack := T0.stack + [f]);
            StackOk(g, t, T1) && Top(T1) == f && (T.stack != [] ==> T1.stack[0].k == T.stack[0].k)
  {
    var n := |T.stack|;
    if n > 0 {
      var top := Top(T).(pc := Helping(Top(T).pc.i));
      var T1 := Goto(T, Helping(Top(T).pc.i)).(stack := Goto(T, Helping(Top(T).pc.i)).stack + [f]);
      HelpingFrame(g, t, Top(T));
      assert T1.stack[n - 1] == top && T1.stack[n] == f && forall i :: 0 <= i < n - 1 ==> T1.stack[i] == T.stack[i];
      hide Goto, FrameOk, HigherUp;
      forall i | 0 <= i < n ensures SuspendedOn(g, T1.stack[i], T1.stack[i + 1]) {
        if i < n - 1 { SuspendedSame(g, T.stack[i], T.stack[i + 1], T1.stack[i + 1]); }
      }
      hide SuspendedOn;
      assert forall i :: 0 <= i < n - 1 ==> HigherUp(g, T1.stack[i], T1.stack[i + 1]);
    }
  }

  lemma HelpingFrame(g: Shared, t: Tid, f: Frame)
    requires FrameOk(g, t, f) && f.pc.InRdcss?
    ensures FrameOk(g, t, f.(pc := Helping(f.pc.i)))
  {}

  /** What an activation waits for is the operation above it, wherever that stands. */
  lemma SuspendedSame(g: Shared, f: Frame, above: Frame, above1: Frame)
    requires SuspendedOn(g, f, above) && above1.k == above.k
    ensures SuspendedOn(g, f, above1)
  {
  }

  /** A tag found in memory names an operation worth helping: its first entry is locked, or it is decided. */
  lemma FoundKTag(g: Shared, t: Tid, a: Addr, k: KId)
    requires GInv(g) && t in g.kslot && a in g.mem && g.mem[a] == KTag(k)
    ensures FrameOk(g, t, HelpFrame(k))
    ensures exists m: nat :: m < |g.kops[k].es| && g.kops[k].es[m].addr == a && LockedOrDone(g, k, m)
  {
    assert WordOk(g, a) && KOpOk(g, k) && LocksArePrefix(g, k);
    var m: nat := IndexOf(g.kops[k].es, a);
    assert Locked(g, k, m);
    assert LockedOrDone(g, k, m) && LockedOrDone(g, k, 0);
  }

  lemma FoundRTag(g: Shared, a: Addr, r: RId)
    requires GInv(g) && a in g.mem && g.mem[a] == RTag(r)
    ensures RHelpOk(g, RCopy(r, []))
  {
    assert WordOk(g, a);
    KnownR(g, r);
  }

  /** `Pay` is the published descriptor, word for word. */
  lemma PayOk(g: Shared, t: Tid, f: Frame)
    requires GInv(g) && FrameOk(g, t, f) && !f.pc.Copy?
    ensures f.k in g.kops && Pay(g, f) == g.kops[f.k].pay
    ensures NumEntries(Pay(g, f)) == |g.kops[f.k].es|
    ensures forall i: nat :: i < |g.kops[f.k].es| ==> EntryAt(Pay(g, f), i) == g.kops[f.k].es[i]
    ensures KOpOk(g, f.k)
  {
    assert KOpOk(g, f.k);
  }

  /** A step that changes only the thread. */
  lemma LocalStep(g: Shared, t: Tid, T: Thread, T1: Thread)
    requires GInv(g) && ThreadOk(g, t, T) && ThreadOk(g, t, T1) && OwnerKept(g, T, T1)
    ensures Good(g, t, T, (g, T1))
  {
    RelyReflexive(g);
  }

  // ---------------------------------------------------------------- rdcssHelp

  lemma RHelpStep(g: Shared, t: Tid, T: Thread)
    requires GInv(g) && ThreadOk(g, t, T) && !T.rh.NoRHelp?
    ensures Good(g, t, T, StepRHelp(g, T))
  {
    hide GInv, Rely, Good, FrameOk, SuspendedOn, HigherUp, ResultOk;
    if T.rh.RCas? {
      RCasStep(g, t, T);
    } else {
      RReadStep(g, T);
      hide StepRHelp;
      LocalStep(g, t, T, StepRHelp(g, T).1);
    }
  }

  lemma RReadStep(g: Shared, T: Thread)
    requires GInv(g) && RHelpOk(g, T.rh) && (T.rh.RCopy? || T.rh.RRead?)
    ensures var (g1, T1) := StepRHelp(g, T);
            g1 == g && T1 == T.(rh := T1.rh) && RHelpOk(g, T1.rh)
            && (T.rh.RRead? ==> T1.rh.RCas? && T1.rh.r == T.rh.r)
  {
    hide GInv, Rely;
    KnownR(g, T.rh.r);
  }

  lemma RCasStep(g: Shared, t: Tid, T: Thread)
    requires GInv(g) && ThreadOk(g, t, T) && T.rh.RCas?
    ensures Good(g, t, T, StepRHelp(g, T))
  {
    hide GInv, Rely;
    var (g1, T1) := StepRHelp(g, T);
    RCasShared(g, T.rh);
    RCasThread(g, g1, t, T);
  }

  lemma RCasShared(g: Shared, rh: RHelp)
    requires GInv(g) && rh.RCas? && RHelpOk(g, rh)
    ensures var g1 := Cas(g, rh.buf[2].v, RTag(rh.r), if rh.undecided then rh.buf[4] else rh.buf[3]);
            GInv(g1) && Rely(g, g1) && SameLogical(g, g1) && MemAt(g1, g.rops[rh.r].e.addr) != RTag(rh.r)
  {
    hide GInv, Rely;
    var r := rh.r;
    KnownR(g, r);
    if g.mem[g.rops[r].e.addr] != RTag(r) {
      RelyReflexive(g);
    } else if rh.undecided {
      LockEffect(g, r);
    } else {
      UnlockREffect(g, r);
    }
  }

  /** When the thread's own RDCSS is over, its entry is locked or the operation is decided. */
  lemma RdcssDone(g: Shared, t: Tid, T: Thread)
    requires GInv(g) && StackOk(g, t, T) && RdcssOk(g, t, T) && T.rd.Finishing?
    requires MemAt(g, g.rops[T.rd.r].e.addr) != RTag(T.rd.r)
    ensures StackOk(g, t, Goto(T, AtEntry(Top(T).pc.i + 1)))
    ensures Goto(T, AtEntry(Top(T).pc.i + 1)).stack[0].k == T.stack[0].k
  {
    hide GInv, SuspendedOn, HigherUp;
    var f := Top(T);
    KnownR(g, T.rd.r);
    TopOk(g, t, T);
    assert LockedOrDone(g, f.k, f.pc.i);
    GotoOk(g, t, T, f.(pc := AtEntry(f.pc.i + 1)));
  }

  lemma RCasThread(g: Shared, g1: Shared, t: Tid, T: Thread)
    requires GInv(g) && GInv(g1) && Rely(g, g1) && ThreadOk(g, t, T) && T.rh.RCas?
    requires g1 == g.(mem := g1.mem) && MemAt(g1, g.rops[T.rh.r].e.addr) != RTag(T.rh.r)
    ensures var T1 := StepRHelp(g, T).1; ThreadOk(g1, t, T1) && OwnerKept(g1, T, T1)
  {
    hide GInv, Rely, SuspendedOn, HigherUp, RPay, FrameOk, ResultOk, LockedOrDone;
    StackStable(g, g1, t, T);
    ResultStable(g, g1, t, T.res);
    RdcssStable(g, g1, t, T);
    if T.rd.Finishing? {
      RdcssDone(g1, t, T);
    }
  }

  // ---------------------------------------------------------------- the thread's own RDCSS

  lemma FillStep(g: Shared, t: Tid, T: Thread)
    requires GInv(g) && ThreadOk(g, t, T) && T.rh.NoRHelp? && T.rd.Filling? && T.rd.c < 5
    ensures Good(g, t, T, StepRdcss(g, t, T))
  {
    hide GInv, Rely;
    var (g1, T1) := StepRdcss(g, t, T);
    PayOk(g, t, Top(T));
    forall r | r in g.rops && r.tid == t ensures r.sn < g.rslot[t].sn {
      KnownR(g, r);
      assert r != RId(t, g.rslot[t].sn);
    }
    RSlotChange(g, t, g1.rslot[t]);
    FillThread(g, g1, t, T);
  }

  lemma FillThread(g: Shared, g1: Shared, t: Tid, T: Thread)
    requires GInv(g) && Rely(g, g1) && ThreadOk(g, t, T) && T.rh.NoRHelp? && T.rd.Filling? && T.rd.c < 5
    requires g1 == WriteR(g, t, FillOrder(T.rd.c), RPay(Top(T).k, g.kops[Top(T).k].es[Top(T).pc.i])[FillOrder(T.rd.c)])
    ensures ThreadOk(g1, t, T.(rd := Filling(T.rd.c + 1)))
  {
    hide GInv, Rely;
    StackStable(g, g1, t, T);
    ResultStable(g, g1, t, T.res);
  }

  lemma PublishRStep(g: Shared, t: Tid, T: Thread)
    requires GInv(g) && ThreadOk(g, t, T) && T.rh.NoRHelp? && T.rd.Filling? && T.rd.c == 5
    ensures Good(g, t, T, StepRdcss(g, t, T))
  {
    hide GInv, Rely;
    var (g1, T1) := StepRdcss(g, t, T);
    var f := Top(T);
    PayOk(g, t, f);
    FilledOk(g, t, T);
    PublishREffect(g, t, f.k, f.pc.i);
    StackStable(g, g1, t, T);
    ResultStable(g, g1, t, T.res);
  }

  lemma FilledOk(g: Shared, t: Tid, T: Thread)
    requires RdcssOk(g, t, T) && T.rd.Filling? && T.rd.c == 5
    ensures g.rslot[t].pay == RPay(Top(T).k, g.kops[Top(T).k].es[Top(T).pc.i])
  {
    assert FillOrder(0) == 0 && FillOrder(1) == 1 && FillOrder(2) == 3 && FillOrder(3) == 2 && FillOrder(4) == 4;
  }

  lemma TryStep(g: Shared, t: Tid, T: Thread)
    requires GInv(g) && ThreadOk(g, t, T) && T.rh.NoRHelp? && T.rd.Trying?
    ensures Good(g, t, T, StepRdcss(g, t, T))
  {
    hide GInv, Rely, StackOk, ResultOk, SameLogical, Good;
    var f, r := Top(T), T.rd.r;
    TopOk(g, t, T);
    KnownR(g, r);
    var e := g.rops[r].e;
    match g.mem[e.addr]
    case RTag(other) =>
      SeeRTag(g, t, T, e.addr, other);
    case KTag(other) =>
      if other == f.k { SeeOwnTag(g, t, T); } else { SeeOtherTag(g, t, T, e.addr, other); }
    case Plain(v) =>
      if v == e.oldval {
        assert StepRdcss(g, t, T) == (InstallR(g, r, e.addr), T.(rd := Finishing(r), rh := RRead(r, g.rslot[t].pay)));
        InstallStep(g, t, T);
      } else {
        assert StepRdcss(g, t, T) == (NoteMismatch(g, f.k), Goto(T.(rd := NoRdcss), Decide(false)));
        MismatchStep(g, t, T);
      }
  }

  lemma SeeRTag(g: Shared, t: Tid, T: Thread, a: Addr, r: RId)
    requires GInv(g) && ThreadOk(g, t, T) && T.rh.NoRHelp? && T.rd.Trying?
    requires a in g.mem && g.mem[a] == RTag(r)
    ensures Good(g, t, T, (g, T.(rh := RCopy(r, []))))
  {
    hide GInv, Rely, FrameOk, SuspendedOn, HigherUp;
    FoundRTag(g, a, r);
    LocalStep(g, t, T, T.(rh := RCopy(r, [])));
  }

  lemma SeeOwnTag(g: Shared, t: Tid, T: Thread)
    requires GInv(g) && ThreadOk(g, t, T) && T.rh.NoRHelp? && T.rd.Trying?
    requires Locked(g, Top(T).k, Top(T).pc.i)
    ensures Good(g, t, T, (g, Goto(T.(rd := NoRdcss), AtEntry(Top(T).pc.i + 1))))
  {
    hide GInv, Rely;
    var f := Top(T);
    assert FrameOk(g, t, f);
    assert LockedOrDone(g, f.k, f.pc.i);
    GotoOk(g, t, T, f.(pc := AtEntry(f.pc.i + 1)));
    LocalStep(g, t, T, Goto(T.(rd := NoRdcss), AtEntry(f.pc.i + 1)));
  }

  /** A helper finds its operation blocked only above the entry at which the helped caller was blocked. */
  lemma BlockedHigher(g: Shared, t: Tid, T: Thread, a: Addr, k: KId)
    requires GInv(g) && StackOk(g, t, T) && |T.stack| > 1 && Top(T).pc.InRdcss? && Top(T).k != k
    requires Top(T).k in g.kops && Top(T).pc.i < |g.kops[Top(T).k].es|
    requires a in g.mem && g.mem[a] == KTag(k) && a == g.kops[Top(T).k].es[Top(T).pc.i].addr
    ensures HigherUp(g, T.stack[|T.stack| - 2], Top(T).(pc := Helping(Top(T).pc.i)))
  {
    var n := |T.stack|;
    var f, above := T.stack[n - 2], Top(T);
    assert SuspendedOn(g, f, T.stack[n - 2 + 1]);
    KnownK(g, above.k);
    var es := g.kops[above.k].es;
    var m: nat :| m < |es| && es[m].addr == g.kops[f.k].es[f.pc.i].addr && LockedOrDone(g, above.k, m);
    if g.kops[above.k].st.Undecided? {
      assert Locked(g, above.k, m) && !Locked(g, above.k, above.pc.i);
    }
  }

  lemma SeeOtherTag(g: Shared, t: Tid, T: Thread, a: Addr, k: KId)
    requires GInv(g) && ThreadOk(g, t, T) && T.rh.NoRHelp? && T.rd.Trying?
    requires a in g.mem && g.mem[a] == KTag(k) && a == g.kops[Top(T).k].es[Top(T).pc.i].addr && k != Top(T).k
    ensures var T1 := Goto(T.(rd := NoRdcss), Helping(Top(T).pc.i));
            Good(g, t, T, (g, T1.(stack := T1.stack + [HelpFrame(k)])))
  {
    hide GInv, Rely;
    FoundKTag(g, t, a, k);
    if |T.stack| > 1 { BlockedHigher(g, t, T, a, k); }
    PushOk(g, t, T, HelpFrame(k));
    var T1 := Goto(T.(rd := NoRdcss), Helping(Top(T).pc.i));
    LocalStep(g, t, T, T1.(stack := T1.stack + [HelpFrame(k)]));
  }

  lemma InstallStep(g: Shared, t: Tid, T: Thread)
    requires GInv(g) && ThreadOk(g, t, T) && T.rh.NoRHelp? && T.rd.Trying?
    requires var e := g.rops[T.rd.r].e; e.addr in g.mem && g.mem[e.addr] == Plain(e.oldval)
    ensures Good(g, t, T, (InstallR(g, T.rd.r, g.rops[T.rd.r].e.addr),
                           T.(rd := Finishing(T.rd.r), rh := RRead(T.rd.r, g.rslot[t].pay))))
  {
    hide GInv, Rely;
    var r := T.rd.r;
    var g1 := InstallR(g, r, g.rops[r].e.addr);
    InstallEffect(g, r);
    InstallThread(g, g1, t, T);
  }

  lemma InstallThread(g: Shared, g1: Shared, t: Tid, T: Thread)
    requires GInv(g) && Rely(g, g1) && ThreadOk(g, t, T) && T.rh.NoRHelp? && T.rd.Trying?
    requires g1.kslot == g.kslot && g1.rslot == g.rslot
    requires g1.rops == g.rops[T.rd.r := g.rops[T.rd.r].(installed := true)]
    ensures ThreadOk(g1, t, T.(rd := Finishing(T.rd.r), rh := RRead(T.rd.r, g.rslot[t].pay)))
  {
    hide GInv, Rely;
    KnownR(g, T.rd.r);
    StackStable(g, g1, t, T);
    ResultStable(g, g1, t, T.res);
  }

  lemma MismatchStep(g: Shared, t: Tid, T: Thread)
    requires GInv(g) && ThreadOk(g, t, T) && T.rh.NoRHelp? && T.rd.Trying?
    ensures Good(g, t, T, (NoteMismatch(g, Top(T).k), Goto(T.(rd := NoRdcss), Decide(false))))
  {
    hide GInv, Rely;
    var f := Top(T);
    assert FrameOk(g, t, f);
    var g1 := NoteMismatch(g, f.k);
    if g.kops[f.k].st.Undecided? {
      NoteMismatchEffect(g, f.k);
    } else {
      RelyReflexive(g);
    }
    JumpOk(g, g1, t, T, f.(pc := Decide(false)));
  }

  /** After a step that leaves the slots of `t` alone, its innermost activation moves to `f`. */
  lemma JumpOk(g: Shared, g1: Shared, t: Tid, T: Thread, f: Frame)
    requires GInv(g) && Rely(g, g1) && ThreadOk(g, t, T) && T.rh.NoRHelp? && T.stack != []
    requires t in g1.kslot && g1.kslot[t].sn == g.kslot[t].sn && g1.kslot[t].building == g.kslot[t].building
    requires f == Top(T).(pc := f.pc) && !f.pc.Helping? && !f.pc.InRdcss? && !f.pc.Copy? && !Top(T).pc.Copy?
    requires f.k in g1.kops && f.k.tid in g1.kslot && PcOk(g1, f)
    ensures var T1 := Goto(T.(rd := NoRdcss), f.pc); ThreadOk(g1, t, T1) && OwnerKept(g1, T, T1)
  {
    hide GInv, Rely;
    StackStable(g, g1, t, T);
    ResultStable(g, g1, t, T.res);
    assert FrameOk(g1, t, Top(T));
    GotoOk(g1, t, T, f);
  }

  lemma RdcssStep(g: Shared, t: Tid, T: Thread)
    requires GInv(g) && ThreadOk(g, t, T) && T.rh.NoRHelp? && !T.rd.NoRdcss?
    ensures Good(g, t, T, StepRdcss(g, t, T))
  {
    match T.rd
    case Filling(c) => if c < 5 { FillStep(g, t, T); } else { PublishRStep(g, t, T); }
    case Trying(r) => TryStep(g, t, T);
    case Finishing(r) =>
  }

  // ---------------------------------------------------------------- help

  lemma CopyStep(g: Shared, t: Tid, T: Thread)
    requires GInv(g) && ThreadOk(g, t, T) && T.rh.NoRHelp? && T.rd.NoRdcss? && T.stack != [] && Top(T).pc.Copy?
    ensures Good(g, t, T, StepFrame(g, t, T))
  {
    hide GInv, Rely;
    var (g1, T1) := StepFrame(g, t, T);
    var f := Top(T);
    var slot := KSlotAt(g, f.k.tid);
    assert FrameOk(g, t, f);
    KnownK(g, f.k);
    if |f.buf| < |slot.pay| {
      GotoOk(g, t, T, f.(buf := f.buf + [slot.pay[|f.buf|]]));
    } else if slot.sn == f.k.sn {
      assert f.buf == g.kops[f.k].pay;
      GotoOk(g, t, T, f.(pc := ReadState));
    } else {
      PopOk(g, t, T, false);
    }
    LocalStep(g, t, T, T1);
  }

  lemma EntryStep(g: Shared, t: Tid, T: Thread)
    requires GInv(g) && ThreadOk(g, t, T) && T.rh.NoRHelp? && T.rd.NoRdcss? && T.stack != [] && Top(T).pc.AtEntry?
    ensures Good(g, t, T, StepFrame(g, t, T))
  {
    hide Rely, GInv, SuspendedOn, HigherUp, ResultOk;
    FiveWords(g, t);
    var (g1, T1) := StepFrame(g, t, T);
    var f := Top(T);
    assert FrameOk(g, t, f);
    PayOk(g, t, f);
    if f.pc.i < |g.kops[f.k].es| {
      forall r | r in g.rops && r.tid == t ensures r.sn < g.rslot[t].sn + 1 { KnownR(g, r); }
      RSlotChange(g, t, g1.rslot[t]);
      BeginThread(g, g1, t, T);
    } else {
      GotoOk(g, t, T, f.(pc := Decide(true)));
      LocalStep(g, t, T, T1);
    }
  }

  lemma FiveWords(g: Shared, t: Tid)
    requires GInv(g)
    ensures t in g.rslot ==> |g.rslot[t].pay| == 5
  {}

  lemma BeginThread(g: Shared, g1: Shared, t: Tid, T: Thread)
    requires GInv(g) && Rely(g, g1) && ThreadOk(g, t, T) && T.rh.NoRHelp? && T.rd.NoRdcss?
    requires T.stack != [] && Top(T).pc.AtEntry? && Top(T).pc.i < |g.kops[Top(T).k].es|
    requires g1 == StartR(g, t)
    ensures var T1 := Goto(T.(rd := Filling(0)), InRdcss(Top(T).pc.i)); ThreadOk(g1, t, T1) && OwnerKept(g1, T, T1)
  {
    hide Rely;
    var f := Top(T);
    var r := RId(t, g.rslot[t].sn + 1);
    if r in g.rops { KnownR(g, r); }
    StackStable(g, g1, t, T);
    ResultStable(g, g1, t, T.res);
    assert FrameOk(g1, t, f);
    GotoOk(g1, t, T, f.(pc := InRdcss(f.pc.i)));
  }

  lemma DecideCasStep(g: Shared, t: Tid, T: Thread)
    requires GInv(g) && ThreadOk(g, t, T) && T.rh.NoRHelp? && T.rd.NoRdcss? && T.stack != [] && Top(T).pc.DecideCas?
    ensures Good(g, t, T, StepFrame(g, t, T))
  {
    var f := Top(T);
    TopOk(g, t, T);
    KnownK(g, f.k);
    hide GInv, ThreadOk, FrameOk, Good;
    if KSlotAt(g, f.k.tid).sn == f.k.sn && KSlotAt(g, f.k.tid).state.Undecided? { DecideNow(g, t, T); } else { DecideLost(g, t, T); }
  }

  lemma DecideNow(g: Shared, t: Tid, T: Thread)
    requires GInv(g) && ThreadOk(g, t, T) && T.rh.NoRHelp? && T.rd.NoRdcss? && T.stack != [] && Top(T).pc.DecideCas?
    requires Top(T).k in g.kops && KSlotAt(g, Top(T).k.tid).sn == Top(T).k.sn && KSlotAt(g, Top(T).k.tid).state.Undecided?
    ensures Good(g, t, T, (DecideK(g, Top(T).k, if Top(T).pc.ok then Succeeded else Failed), Goto(T, Phase2)))
  {
    hide GInv, Rely, StackOk, SameLogical, OthersKept;
    var f := Top(T);
    var g1 := DecideK(g, f.k, if f.pc.ok then Succeeded else Failed);
    TopOk(g, t, T);
    KnownK(g, f.k);
    DecideShared(g, f.k, f.pc.ok);
    hide AtomicStep, MayDecide, DecideK;
    DecideFacts(g, t, f.k, if f.pc.ok then Succeeded else Failed);
    hide KOpOk;
    JumpOk(g, g1, t, T, f.(pc := Phase2));
  }

  lemma DecideFacts(g: Shared, t: Tid, k: KId, st: State)
    requires k in g.kops && k.tid in g.kslot
    ensures var g1 := DecideK(g, k, st);
      && g1.kops.Keys == g.kops.Keys && g1.kops[k].st == st && g1.kslot.Keys == g.kslot.Keys && OthersKept(g, g1, t)
      && (forall u :: u in g.kslot ==> g1.kslot[u].sn == g.kslot[u].sn && g1.kslot[u].building == g.kslot[u].building)
  {
    SlotsKept(g, DecideK(g, k, st), t);
    hide OthersKept;
  }

  lemma DecideLost(g: Shared, t: Tid, T: Thread)
    requires GInv(g) && ThreadOk(g, t, T) && T.rh.NoRHelp? && T.rd.NoRdcss? && T.stack != [] && Top(T).pc.DecideCas?
    requires Top(T).k in g.kops && !(KSlotAt(g, Top(T).k.tid).sn == Top(T).k.sn && KSlotAt(g, Top(T).k.tid).state.Undecided?)
    ensures Good(g, t, T, (g, Goto(T, DecideReread(Top(T).pc.ok))))
  {
    hide GInv, Rely, StackOk, SameLogical, OthersKept;
    TopOk(g, t, T);
    KnownK(g, Top(T).k);
    GotoOk(g, t, T, Top(T).(pc := DecideReread(Top(T).pc.ok)));
    LocalStep(g, t, T, Goto(T, DecideReread(Top(T).pc.ok)));
  }

  lemma DecideShared(g: Shared, k: KId, ok: bool)
    requires GInv(g) && k in g.kops && g.kops[k].st.Undecided? && MayDecide(g, k, ok)
    requires k.tid in g.kslot && g.kslot[k.tid].sn == k.sn
    ensures var g1 := DecideK(g, k, if ok then Succeeded else Failed);
            GInv(g1) && Rely(g, g1) && AtomicStep(g, g1)
  {
    DecideEffect(g, k, ok);
    if ok {
      SucceedIsAtomic(g, k);
      assert Commits(g, DecideK(g, k, Succeeded), k);
    } else {
      FailIsInvisible(g, k);
    }
  }

  lemma ReleaseStep(g: Shared, t: Tid, T: Thread)
    requires GInv(g) && ThreadOk(g, t, T) && T.rh.NoRHelp? && T.rd.NoRdcss? && T.stack != [] && Top(T).pc.Release?
    ensures Good(g, t, T, StepFrame(g, t, T))
  {
    hide GInv, Rely, StackOk, SameLogical, RdcssOk, ResultOk, OthersKept;
    var (g1, T1) := StepFrame(g, t, T);
    var f := Top(T);
    TopOk(g, t, T);
    PayOk(g, t, f);
    if f.pc.j < |g.kops[f.k].es| {
      ReleaseShared(g, f);
      SlotsKept(g, g1, t);
      JumpOk(g, g1, t, T, f.(pc := Release(f.pc.j + 1, f.pc.ok)));
    } else {
      FinishStep(g, t, T);
    }
  }

  lemma FinishStep(g: Shared, t: Tid, T: Thread)
    requires GInv(g) && ThreadOk(g, t, T) && T.rh.NoRHelp? && T.rd.NoRdcss? && T.stack != []
    requires Top(T).pc.Release? && Top(T).k in g.kops && Top(T).pc.j >= |g.kops[Top(T).k].es|
    ensures Good(g, t, T, (g, Return(T, Top(T).pc.ok)))
  {
    hide GInv, Rely, StackOk, SameLogical, RdcssOk;
    TopOk(g, t, T);
    ReleasedAll(g, Top(T));
    PopOk(g, t, T, Top(T).pc.ok);
    LocalStep(g, t, T, Return(T, Top(T).pc.ok));
  }

  lemma ReleaseShared(g: Shared, f: Frame)
    requires GInv(g) && f.k in g.kops && f.k.tid in g.kslot && f.pc.Release? && PcOk(g, f) && f.pc.j < |g.kops[f.k].es|
    ensures var e := g.kops[f.k].es[f.pc.j];
            var g1 := Cas(g, e.addr, KTag(f.k), Plain(if f.pc.ok then e.newval else e.oldval));
            GInv(g1) && Rely(g, g1) && SameLogical(g, g1) && PcOk(g1, f.(pc := Release(f.pc.j + 1, f.pc.ok)))
  {
    hide GInv, Rely, SameLogical;
    KnownK(g, f.k);
    ReleasedPc(g, f);
    if Locked(g, f.k, f.pc.j) { ReleaseEffect(g, f.k, f.pc.j); } else { RelyReflexive(g); }
    hide PcOk, KOpOk, LocksArePrefix;
  }

  lemma ReleasedPc(g: Shared, f: Frame)
    requires f.k in g.kops && f.k.tid in g.kslot && f.pc.Release? && PcOk(g, f) && f.pc.j < |g.kops[f.k].es| && g.kops[f.k].es[f.pc.j].addr in g.mem
    ensures var e := g.kops[f.k].es[f.pc.j];
            var g1 := Cas(g, e.addr, KTag(f.k), Plain(if f.pc.ok then e.newval else e.oldval));
            PcOk(g1, f.(pc := Release(f.pc.j + 1, f.pc.ok)))
  {}

  lemma ReleasedAll(g: Shared, f: Frame)
    requires GInv(g) && f.k in g.kops && f.k.tid in g.kslot && f.pc.Release? && PcOk(g, f) && f.pc.j >= |g.kops[f.k].es|
    ensures ResultOk(g, f.k.tid, Returned(f.k, f.pc.ok))
  {
    forall a | a in g.mem && f.pc.ok ensures g.mem[a] != KTag(f.k) {
      assert WordOk(g, a);
    }
  }

  lemma FrameStep(g: Shared, t: Tid, T: Thread)
    requires GInv(g) && ThreadOk(g, t, T) && T.rh.NoRHelp? && T.rd.NoRdcss? && T.stack != []
    ensures Good(g, t, T, StepFrame(g, t, T))
  {
    var (g1, T1) := StepFrame(g, t, T);
    var f := Top(T);
    assert FrameOk(g, t, f) && KOpOk(g, f.k);
    match f.pc
    case Copy => CopyStep(g, t, T);
    case AtEntry(i) => EntryStep(g, t, T);
    case DecideCas(ok) => DecideCasStep(g, t, T);
    case Release(j, ok) => ReleaseStep(g, t, T);
    case ReadState => StateReadStep(g, t, T);
    case Decide(ok) => StateReadStep(g, t, T);
    case DecideReread(ok) => StateReadStep(g, t, T);
    case Phase2 => StateReadStep(g, t, T);
  }

  lemma StateReadStep(g: Shared, t: Tid, T: Thread)
    requires GInv(g) && ThreadOk(g, t, T) && T.rh.NoRHelp? && T.rd.NoRdcss? && T.stack != []
    requires Top(T).pc.ReadState? || Top(T).pc.Decide? || Top(T).pc.DecideReread? || Top(T).pc.Phase2?
    ensures Good(g, t, T, StepFrame(g, t, T))
  {
    hide GInv, Rely;
    var (g1, T1) := StepFrame(g, t, T);
    var f := Top(T);
    assert FrameOk(g, t, f);
    KnownK(g, f.k);
    var slot := KSlotAt(g, f.k.tid);
    if (f.pc.ReadState? || f.pc.Phase2?) && slot.sn != f.k.sn {
      PopOk(g, t, T, false);
    } else {
      var pc1 := Top(T1).pc;
      assert T1 == WithTop(T, f.(pc := pc1));
      GotoOk(g, t, T, f.(pc := pc1));
    }
    LocalStep(g, t, T, T1);
  }

  // ---------------------------------------------------------------- any step inside a call

  lemma ReadStep(g: Shared, t: Tid, T: Thread)
    requires GInv(g) && ThreadOk(g, t, T) && T.rh.NoRHelp? && T.rd.NoRdcss? && T.stack == [] && T.act.Reading?
    ensures Good(g, t, T, (g, StepRead(g, T)))
  {
    var T1 := StepRead(g, T);
    var a := T.act.a;
    if a in g.mem {
      assert WordOk(g, a);
      if g.mem[a].KTag? {
        FoundKTag(g, t, a, g.mem[a].k);
        PushOk(g, t, T, HelpFrame(g.mem[a].k));
      } else if g.mem[a].RTag? {
        assert ROpOk(g, g.mem[a].r);
      }
    }
    LocalStep(g, t, T, T1);
  }

  lemma RunStep(g: Shared, t: Tid, T: Thread)
    requires GInv(g) && ThreadOk(g, t, T)
    ensures Good(g, t, T, StepRun(g, t, T))
  {
    if !T.rh.NoRHelp? { RHelpStep(g, t, T); }
    else if !T.rd.NoRdcss? { RdcssStep(g, t, T); }
    else if T.stack != [] { FrameStep(g, t, T); }
    else if T.act.Reading? { ReadStep(g, t, T); }
    else { LocalStep(g, t, T, T); }
  }
}
