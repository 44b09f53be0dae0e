/**
 * The inductive invariant of the k-CAS machine: a part about shared memory and the operation
 * history, a part about each thread's activations, and the relation every step keeps (`Rely`),
 * under which the second part is stable.
 */
module KcasInvariant {
  import opened KcasModel

  // ---------------------------------------------------------------- shared part

  ghost predicate Locked(g: Shared, k: KId, i: nat)
    requires k in g.kops && i < |g.kops[k].es|
  {
    MemAt(g, g.kops[k].es[i].addr) == KTag(k)
  }

  /** Entry `i` holds the tag of `k`, or `k` is decided already. */
  ghost predicate LockedOrDone(g: Shared, k: KId, i: nat)
    requires k in g.kops && i < |g.kops[k].es|
  {
    !g.kops[k].st.Undecided? || Locked(g, k, i)
  }

  ghost predicate LockedBelow(g: Shared, k: KId, n: nat)
    requires k in g.kops && n <= |g.kops[k].es|
  {
    forall j: nat :: j < n ==> LockedOrDone(g, k, j)
  }

  ghost predicate KOpOk(g: Shared, k: KId)
    requires k in g.kops
  {
    var op := g.kops[k];
    && k.tid in g.kslot
    && k.sn <= g.kslot[k.tid].sn
    && op.es == Decode(op.pay) && Ascending(op.es)
    && (forall i :: 0 <= i < |op.es| ==> op.es[i].addr in g.mem)
    && (k.sn == g.kslot[k.tid].sn ==>
          && g.kslot[k.tid].state == op.st
          && g.kslot[k.tid].pay == op.pay
          && !g.kslot[k.tid].building)
    && (k.sn < g.kslot[k.tid].sn ==> !op.st.Undecided?)
    && (op.st.Failed? ==> op.mismatch)
  }

  /** While `k` is undecided the entries it has locked are a prefix of its address order. */
  ghost predicate LocksArePrefix(g: Shared, k: KId)
    requires k in g.kops
  {
    g.kops[k].st.Undecided? ==>
      forall i: nat, j: nat :: j < i < |g.kops[k].es| && Locked(g, k, i) ==> Locked(g, k, j)
  }

  ghost predicate ROpOk(g: Shared, r: RId)
    requires r in g.rops
  {
    var op := g.rops[r];
    && r.tid in g.rslot
    && r.sn <= g.rslot[r.tid].sn
    && op.k in g.kops
    && op.i < |g.kops[op.k].es|
    && op.e == g.kops[op.k].es[op.i]
    && (r.sn == g.rslot[r.tid].sn ==> g.rslot[r.tid].pay == RPay(op.k, op.e))
    && LockedBelow(g, op.k, op.i)
    && (op.installed && MemAt(g, op.e.addr) != RTag(r) ==> LockedOrDone(g, op.k, op.i))
  }

  ghost predicate WordOk(g: Shared, a: Addr)
    requires a in g.mem
  {
    match g.mem[a]
    case Plain(_) => true
    case RTag(r) => r in g.rops && g.rops[r].installed && g.rops[r].e.addr == a
    case KTag(k) => k in g.kops && HasAddr(g.kops[k].es, a)
  }

  ghost predicate HasAddr(es: seq<Entry>, a: Addr) {
    exists i :: 0 <= i < |es| && es[i].addr == a
  }

  ghost predicate GInv(g: Shared) {
    && (forall k :: k in g.kops ==> KOpOk(g, k))
    && (forall k :: k in g.kops ==> LocksArePrefix(g, k))
    && (forall r :: r in g.rops ==> ROpOk(g, r))
    && (forall a :: a in g.mem ==> WordOk(g, a))
    && (forall t :: t in g.rslot ==> |g.rslot[t].pay| == 5)
    && (forall t :: t in g.kslot && g.kslot[t].building ==> g.kslot[t].state.Undecided?)
  }

  lemma KnownK(g: Shared, k: KId)
    requires GInv(g) && k in g.kops
    ensures KOpOk(g, k) && LocksArePrefix(g, k)
  {}

  lemma KnownR(g: Shared, r: RId)
    requires GInv(g) && r in g.rops
    ensures ROpOk(g, r) && KOpOk(g, g.rops[r].k)
  {
    assert ROpOk(g, r);
  }

  // ---------------------------------------------------------------- thread part

  ghost predicate FrameOk(g: Shared, t: Tid, f: Frame) {
    && t in g.kslot
    && f.k in g.kops && f.k.tid in g.kslot
    && (f.own ==> f.k.tid == t && g.kslot[t].sn == f.k.sn)
    && (!f.own ==> |g.kops[f.k].es| > 0 && LockedOrDone(g, f.k, 0))
    && (!f.own && !f.pc.Copy? ==> f.buf == g.kops[f.k].pay)
    && PcOk(g, f)
  }

  ghost predicate PcOk(g: Shared, f: Frame)
    requires f.k in g.kops && f.k.tid in g.kslot
  {
    var op := g.kops[f.k];
    match f.pc
    case Copy => !f.own && (g.kslot[f.k.tid].sn == f.k.sn ==> f.buf <= op.pay)
    case ReadState => true
    case AtEntry(i) => i <= |op.es| && LockedBelow(g, f.k, i)
    case InRdcss(i) => i < |op.es| && LockedBelow(g, f.k, i)
    case Helping(i) => i < |op.es| && LockedBelow(g, f.k, i)
    case Decide(ok) => MayDecide(g, f.k, ok)
    case DecideCas(ok) => MayDecide(g, f.k, ok)
    case DecideReread(ok) => MayDecide(g, f.k, ok)
    case Phase2 => !op.st.Undecided?
    case Release(j, ok) =>
      && !op.st.Undecided? && ok == op.st.Succeeded?
      && (ok ==> forall i :: 0 <= i < j && i < |op.es| ==> MemAt(g, op.es[i].addr) != KTag(f.k))
  }

  ghost predicate MayDecide(g: Shared, k: KId, ok: bool)
    requires k in g.kops
  {
    if ok then LockedBelow(g, k, |g.kops[k].es|) else !g.kops[k].st.Undecided? || g.kops[k].mismatch
  }

  ghost predicate RHelpOk(g: Shared, rh: RHelp) {
    match rh
    case NoRHelp => true
    case RCopy(r, buf) =>
      && r in g.rops && r.tid in g.rslot && g.rops[r].installed
      && (g.rslot[r.tid].sn == r.sn ==> buf <= RPay(g.rops[r].k, g.rops[r].e))
    case RRead(r, buf) =>
      r in g.rops && g.rops[r].installed && buf == RPay(g.rops[r].k, g.rops[r].e)
    case RCas(r, buf, undecided) =>
      && r in g.rops && g.rops[r].installed && buf == RPay(g.rops[r].k, g.rops[r].e)
      && g.rops[r].k in g.kops
      && (if undecided then !(g.kops[g.rops[r].k].st.Succeeded? && MemAt(g, g.rops[r].e.addr) == RTag(r))
          else !g.kops[g.rops[r].k].st.Undecided?)
  }

  ghost predicate RdcssOk(g: Shared, t: Tid, T: Thread) {
    if T.rd.NoRdcss? then T.stack == [] || (!Top(T).pc.InRdcss? && T.rh.NoRHelp?)
    else
      && T.stack != [] && Top(T).pc.InRdcss? && t in g.rslot
      && Top(T).k in g.kops && Top(T).pc.i < |g.kops[Top(T).k].es|
      && (match T.rd
          case Filling(c) =>
            && c <= 5 && RId(t, g.rslot[t].sn) !in g.rops
            && |g.rslot[t].pay| == 5
            && T.rh.NoRHelp?
            && (forall j: nat :: j < c ==>
                  FillOrder(j) < 5 &&
                  g.rslot[t].pay[FillOrder(j)] == RPay(Top(T).k, g.kops[Top(T).k].es[Top(T).pc.i])[FillOrder(j)])
          case Trying(r) => OwnR(g, t, T, r) && !g.rops[r].installed
          case Finishing(r) =>
            && OwnR(g, t, T, r) && g.rops[r].installed
            && ((T.rh.RRead? && T.rh.r == r) || (T.rh.RCas? && T.rh.r == r)))
  }

  ghost predicate OwnR(g: Shared, t: Tid, T: Thread, r: RId)
    requires t in g.rslot && T.stack != [] && Top(T).pc.InRdcss?
  {
    && r in g.rops && r.tid == t && r.sn == g.rslot[t].sn
    && g.rops[r].k == Top(T).k && g.rops[r].i == Top(T).pc.i
  }

  /** `f` is suspended at an address where it found the tag of `above.k`. */
  ghost predicate SuspendedOn(g: Shared, f: Frame, above: Frame) {
    && f.pc.Helping? && f.k in g.kops && f.pc.i < |g.kops[f.k].es|
    && above.k in g.kops
    && exists m: nat :: m < |g.kops[above.k].es|
         && g.kops[above.k].es[m].addr == g.kops[f.k].es[f.pc.i].addr
         && LockedOrDone(g, above.k, m)
  }

  /** The operation being helped was itself found blocked, at a higher address, unless it is decided. */
  ghost predicate HigherUp(g: Shared, f: Frame, above: Frame) {
    f.pc.Helping? && above.pc.Helping? && f.k in g.kops && above.k in g.kops
    && f.pc.i < |g.kops[f.k].es| && above.pc.i < |g.kops[above.k].es|
    && (g.kops[above.k].st.Undecided? ==>
          g.kops[f.k].es[f.pc.i].addr < g.kops[above.k].es[above.pc.i].addr)
  }

  ghost predicate StackOk(g: Shared, t: Tid, T: Thread) {
    && t in g.kslot && t in g.rslot
    && (T.act.Idle? ==> T.stack == [] && T.rd.NoRdcss? && T.rh.NoRHelp?)
    && (T.act.Executing? ==> T.stack != [] && T.stack[0].own && !g.kslot[t].building)
    && (forall i :: 0 <= i < |T.stack| && T.stack[i].own ==> i == 0 && T.act.Executing?)
    && (forall i :: 0 <= i < |T.stack| - 1 ==> SuspendedOn(g, T.stack[i], T.stack[i + 1]))
    && (forall i :: 0 <= i < |T.stack| - 2 ==> HigherUp(g, T.stack[i], T.stack[i + 1]))
    && (T.stack != [] ==> !Top(T).pc.Helping?)
    && (forall i :: 0 <= i < |T.stack| ==> FrameOk(g, t, T.stack[i]))
  }

  /** What `execute` returned is the outcome of its operation; on success no word holds its tag any more. */
  ghost predicate ResultOk(g: Shared, t: Tid, res: Result) {
    res.Returned? ==>
      && res.k in g.kops && res.k.tid == t
      && !g.kops[res.k].st.Undecided?
      && res.ok == g.kops[res.k].st.Succeeded?
      && (res.ok ==> forall a :: a in g.mem ==> g.mem[a] != KTag(res.k))
  }

  ghost predicate ThreadOk(g: Shared, t: Tid, T: Thread) {
    StackOk(g, t, T) && RdcssOk(g, t, T) && RHelpOk(g, T.rh) && ResultOk(g, t, T.res)
  }

  /** An undecided operation is still being executed by its owner. */
  ghost predicate OwnedBy(th: map<Tid, Thread>, k: KId) {
    k.tid in th && th[k.tid].act.Executing? && th[k.tid].stack != [] && th[k.tid].stack[0].k == k
  }

  ghost predicate Inv(s: System) {
    && GInv(s.g)
    && s.g.kslot.Keys == s.g.rslot.Keys == s.th.Keys
    && (forall t :: t in s.th ==> ThreadOk(s.g, t, s.th[t]))
    && (forall k :: k in s.g.kops && s.g.kops[k].st.Undecided? ==> OwnedBy(s.th, k))
  }

  // ---------------------------------------------------------------- what every step keeps

  ghost predicate RelyK(g: Shared, g': Shared, k: KId)
    requires k in g.kops
  {
    && k in g'.kops
    && var op, op' := g.kops[k], g'.kops[k];
    && op'.pay == op.pay && op'.es == op.es
    && (!op.st.Undecided? ==> op'.st == op.st)
    && (op.mismatch ==> op'.mismatch)
    && (forall i: nat :: i < |op.es| && LockedOrDone(g, k, i) ==> LockedOrDone(g', k, i))
    && (op'.st.Succeeded? && !op.st.Succeeded? ==> forall i: nat :: i < |op.es| ==> Locked(g', k, i))
    && (op.st.Succeeded? ==> forall a :: a in g.mem && g.mem[a] != KTag(k) ==> MemAt(g', a) != KTag(k))
  }

  ghost predicate RelyR(g: Shared, g': Shared, r: RId)
    requires r in g.rops
  {
    && r in g'.rops
    && var op, op' := g.rops[r], g'.rops[r];
    && op'.k == op.k && op'.i == op.i && op'.e == op.e
    && (op.installed ==> op'.installed)
    && (op.installed && MemAt(g, op.e.addr) != RTag(r) ==> MemAt(g', op.e.addr) != RTag(r))
  }

  ghost predicate Rely(g: Shared, g': Shared) {
    && g'.mem.Keys == g.mem.Keys && g'.kslot.Keys == g.kslot.Keys && g'.rslot.Keys == g.rslot.Keys
    && (forall k :: k in g.kops ==> RelyK(g, g', k))
    && (forall r :: r in g.rops ==> RelyR(g, g', r))
    && (forall t :: t in g.kslot ==> g.kslot[t].sn <= g'.kslot[t].sn)
    && (forall t :: t in g.rslot ==> g.rslot[t].sn <= g'.rslot[t].sn)
  }

  /** The slots of `t` are untouched, up to the state another thread may decide, and `t` published nothing. */
  ghost predicate SameSlots(g: Shared, g': Shared, t: Tid) {
    && t in g.kslot && t in g'.kslot && t in g.rslot && t in g'.rslot
    && g'.kslot[t].sn == g.kslot[t].sn
    && g'.kslot[t].building == g.kslot[t].building
    && g'.rslot[t] == g.rslot[t]
    && (RId(t, g.rslot[t].sn) in g'.rops ==> RId(t, g.rslot[t].sn) in g.rops)
    && (forall r :: r in g.rops && r.tid == t ==> r in g'.rops && g'.rops[r] == g.rops[r])
  }

  // ---------------------------------------------------------------- stability

  lemma FrameStable(g: Shared, g': Shared, t: Tid, f: Frame)
    requires GInv(g) && Rely(g, g') && FrameOk(g, t, f)
    requires f.own ==> g'.kslot[t].sn == g.kslot[t].sn
    ensures FrameOk(g', t, f)
  {
    assert RelyK(g, g', f.k) && KOpOk(g, f.k);
    var n := |g.kops[f.k].es|;
    assert forall m: nat :: m <= n && LockedBelow(g, f.k, m) ==> LockedBelow(g', f.k, m);
    if f.pc.Release? && f.pc.ok {
      forall i | 0 <= i < f.pc.j && i < n
        ensures MemAt(g', g'.kops[f.k].es[i].addr) != KTag(f.k)
      {
        assert g.kops[f.k].es[i].addr in g.mem;
      }
    }
  }

  lemma SuspendedStable(g: Shared, g': Shared, f: Frame, above: Frame)
    requires Rely(g, g') && SuspendedOn(g, f, above)
    ensures SuspendedOn(g', f, above)
  {
    assert RelyK(g, g', f.k) && RelyK(g, g', above.k);
  }

  lemma HigherUpStable(g: Shared, g': Shared, f: Frame, above: Frame)
    requires Rely(g, g') && HigherUp(g, f, above)
    ensures HigherUp(g', f, above)
  {
    assert RelyK(g, g', f.k) && RelyK(g, g', above.k);
  }

  lemma RHelpStable(g: Shared, g': Shared, rh: RHelp)
    requires GInv(g) && GInv(g') && Rely(g, g') && RHelpOk(g, rh)
    ensures RHelpOk(g', rh)
  {
    if !rh.NoRHelp? {
      var r := rh.r;
      assert RelyR(g, g', r) && ROpOk(g, r) && ROpOk(g', r);
      var k := g.rops[r].k;
      assert RelyK(g, g', k);
      if rh.RCas? && rh.undecided && g'.kops[k].st.Succeeded? && !g.kops[k].st.Succeeded? {
        assert Locked(g', k, g.rops[r].i);
      }
    }
  }

  lemma ResultStable(g: Shared, g': Shared, t: Tid, res: Result)
    requires Rely(g, g') && ResultOk(g, t, res)
    ensures ResultOk(g', t, res)
  {
    if res.Returned? {
      assert RelyK(g, g', res.k);
    }
  }

  lemma RdcssStable(g: Shared, g': Shared, t: Tid, T: Thread)
    requires GInv(g) && Rely(g, g') && SameSlots(g, g', t)
    requires RdcssOk(g, t, T)
    ensures RdcssOk(g', t, T)
  {
    if !T.rd.NoRdcss? {
      assert RelyK(g, g', Top(T).k);
    }
  }

  lemma StackStable(g: Shared, g': Shared, t: Tid, T: Thread)
    requires GInv(g) && Rely(g, g') && StackOk(g, t, T)
    requires g'.kslot[t].sn == g.kslot[t].sn && g'.kslot[t].building == g.kslot[t].building
    ensures StackOk(g', t, T)
  {
    forall i | 0 <= i < |T.stack| ensures FrameOk(g', t, T.stack[i]) {
      FrameStable(g, g', t, T.stack[i]);
    }
    forall i | 0 <= i < |T.stack| - 1 ensures SuspendedOn(g', T.stack[i], T.stack[i + 1]) {
      SuspendedStable(g, g', T.stack[i], T.stack[i + 1]);
    }
    forall i | 0 <= i < |T.stack| - 2 ensures HigherUp(g', T.stack[i], T.stack[i + 1]) {
      HigherUpStable(g, g', T.stack[i], T.stack[i + 1]);
    }
  }

  /** A thread whose slots are untouched keeps its part of the invariant. */
  lemma ThreadStable(g: Shared, g': Shared, t: Tid, T: Thread)
    requires GInv(g) && GInv(g') && Rely(g, g') && SameSlots(g, g', t)
    requires ThreadOk(g, t, T)
    ensures ThreadOk(g', t, T)
  {
    StackStable(g, g', t, T);
    RdcssStable(g, g', t, T);
    RHelpStable(g, g', T.rh);
    ResultStable(g, g', t, T.res);
  }
}
