/**
 * The theorems about every run of the k-CAS machine, from any initial state and under any schedule.
 */
module KcasTheorems {
  import opened KcasModel
  import opened KcasInvariant
  import opened KcasEffects
  import opened KcasSteps

  // ---------------------------------------------------------------- the invariant holds in every run

  lemma InitialOk(s: System)
    requires Initial(s)
    ensures Inv(s)
  {
    forall t | t in s.th ensures ThreadOk(s.g, t, s.th[t]) {}
  }

  /** What one scheduled action keeps and does. */
  ghost predicate GoodStep(s: System, s1: System) {
    Inv(s1) && Rely(s.g, s1.g) && AtomicStep(s.g, s1.g)
  }

  lemma RelyKnown(g: Shared, g1: Shared, k: KId)
    requires Rely(g, g1) && k in g.kops
    ensures RelyK(g, g1, k)
  {}

  lemma RelyKeys(g: Shared, g1: Shared)
    requires Rely(g, g1)
    ensures g1.kslot.Keys == g.kslot.Keys && g1.rslot.Keys == g.rslot.Keys
  {}

  lemma RunKeeps(s: System, t: Tid)
    requires Inv(s) && t in s.th
    ensures GoodStep(s, Step(s, t, Run))
  {
    hide GInv, Rely, ThreadOk, AtomicStep, StepRun;
    var (g1, T1) := StepRun(s.g, t, s.th[t]);
    var s1 := Step(s, t, Run);
    RunStep(s.g, t, s.th[t]);
    RelyKeys(s.g, g1);
    forall u | u in s1.th ensures ThreadOk(g1, u, s1.th[u]) {
      if u != t { ThreadStable(s.g, g1, u, s.th[u]); }
    }
    forall k | k in g1.kops && g1.kops[k].st.Undecided? ensures OwnedBy(s1.th, k) {
      RelyKnown(s.g, g1, k);
      assert OwnedBy(s.th, k);
    }
  }

  lemma NoCurrent(s: System, t: Tid)
    requires Inv(s) && t in s.th && s.th[t].act.Idle?
    ensures forall k :: k in s.g.kops && k.tid == t ==> k.sn <= s.g.kslot[t].sn && !s.g.kops[k].st.Undecided?
  {
    forall k | k in s.g.kops && k.tid == t
      ensures k.sn <= s.g.kslot[t].sn && !s.g.kops[k].st.Undecided?
    {
      KnownK(s.g, k);
      assert s.g.kops[k].st.Undecided? ==> OwnedBy(s.th, k);
    }
  }

  /** A client that rewrites its own idle slot. */
  lemma SlotKeeps(s: System, t: Tid, slot: KSlot)
    requires Inv(s) && t in s.th && s.th[t].act.Idle?
    requires slot.sn > s.g.kslot[t].sn || (slot.sn == s.g.kslot[t].sn && s.g.kslot[t].building)
    requires slot.building ==> slot.state.Undecided?
    ensures GoodStep(s, System(WithKSlot(s.g, t, slot), s.th))
  {
    hide GInv, Rely, SameLogical, ThreadOk;
    var g1 := WithKSlot(s.g, t, slot);
    NoCurrent(s, t);
    forall k | k in s.g.kops && k.tid == t ensures k.sn < slot.sn { KnownK(s.g, k); }
    SlotChange(s.g, t, slot);
    RelyKeys(s.g, g1);
    forall u | u in s.th ensures ThreadOk(g1, u, s.th[u]) {
      if u != t {
        ThreadStable(s.g, g1, u, s.th[u]);
      } else {
        IdleStable(s.g, g1, t, s.th[t]);
      }
    }
  }

  lemma IdleStable(g: Shared, g1: Shared, t: Tid, T: Thread)
    requires Rely(g, g1) && ThreadOk(g, t, T) && T.act.Idle?
    ensures ThreadOk(g1, t, T)
  {
    ResultStable(g, g1, t, T.res);
  }

  lemma ExecuteKeeps(s: System, t: Tid)
    requires Inv(s) && t in s.th && s.th[t].act.Idle?
    requires s.g.kslot[t].building && OpOk(s.g, s.g.kslot[t].pay)
    ensures GoodStep(s, Step(s, t, Execute))
  {
    hide GInv, Rely, OpOk, SameLogical, RdcssOk, RHelpOk, StackOk, ResultOk;
    var g1, s1 := PublishK(s.g, t), Step(s, t, Execute);
    NoCurrent(s, t);
    BuildingIsUndecided(s.g, t);
    PublishKEffect(s.g, t);
    RelyKeys(s.g, g1);
    assert s1.g == g1;
    ExecuteThreads(s, t);
    hide ThreadOk, AtomicStep;
    forall k | k in g1.kops && g1.kops[k].st.Undecided? ensures OwnedBy(s1.th, k) {
      if k in s.g.kops { assert OwnedBy(s.th, k); }
    }
  }

  lemma ExecuteThreads(s: System, t: Tid)
    requires Inv(s) && t in s.th && s.th[t].act.Idle? && s.g.kslot[t].building && OpOk(s.g, s.g.kslot[t].pay)
    requires GInv(PublishK(s.g, t)) && Rely(s.g, PublishK(s.g, t))
    ensures var s1 := Step(s, t, Execute); s1.g == PublishK(s.g, t) && s1.th.Keys == s.th.Keys && forall u :: u in s.th ==> ThreadOk(s1.g, u, s1.th[u])
  {
    hide GInv, Rely, OpOk, RdcssOk, RHelpOk, StackOk, ResultOk;
    var g1, s1 := PublishK(s.g, t), Step(s, t, Execute);
    forall u | u in s.th ensures ThreadOk(g1, u, s1.th[u]) {
      if u != t {
        ThreadStable(s.g, g1, u, s.th[u]);
      } else {
        ResultStable(s.g, g1, t, s.th[t].res);
        PublishedThread(s.g, t, s.th[t]);
      }
    }
  }

  lemma PublishedThread(g: Shared, t: Tid, T: Thread)
    requires t in g.kslot && t in g.rslot && T.act.Idle? && ThreadOk(g, t, T)
    ensures var g1 := PublishK(g, t);
            var T1 := T.(act := Executing, stack := [Frame(KId(t, g.kslot[t].sn + 1), true, [], ReadState)]);
            StackOk(g1, t, T1) && RdcssOk(g1, t, T1) && RHelpOk(g1, T1.rh)
  {}

  /** Every action of every thread keeps the invariant, and is invisible or one whole k-word swap. */
  lemma StepKeeps(s: System, t: Tid, a: Action)
    requires Inv(s)
    ensures GoodStep(s, Step(s, t, a))
  {
    hide GInv, Rely, SameLogical, ThreadOk, OwnedBy, StepRun, GoodStep;
    Stutter(s);
    if t in s.th {
      var slot := s.g.kslot[t];
      match a
      case Start => if s.th[t].act.Idle? { SlotKeeps(s, t, slot.(sn := slot.sn + 1, state := Undecided, building := true)); }
      case Fill(c, w) =>
        if s.th[t].act.Idle? && slot.building && c < |slot.pay| {
          BuildingIsUndecided(s.g, t);
          SlotKeeps(s, t, slot.(pay := slot.pay[c := w]));
        }
      case Execute => if s.th[t].act.Idle? && slot.building && OpOk(s.g, slot.pay) { ExecuteKeeps(s, t); }
      case ReadPtr(x) => ReadCallKeeps(s, t, x);
      case Run => RunKeeps(s, t);
    }
  }

  lemma Stutter(s: System)
    requires Inv(s)
    ensures GoodStep(s, s)
  {
    RelyReflexive(s.g);
  }

  lemma BuildingIsUndecided(g: Shared, t: Tid)
    requires GInv(g) && t in g.kslot && g.kslot[t].building
    ensures g.kslot[t].state.Undecided?
  {}

  lemma ReadCallKeeps(s: System, t: Tid, x: Addr)
    requires Inv(s) && t in s.th
    ensures GoodStep(s, Step(s, t, ReadPtr(x)))
  {
    hide GInv, Rely, FrameOk, SameLogical, ResultOk, SuspendedOn, HigherUp, RHelpOk;
    RelyReflexive(s.g);
    var s1 := Step(s, t, ReadPtr(x));
    forall u | u in s1.th ensures ThreadOk(s1.g, u, s1.th[u]) { assert ThreadOk(s.g, u, s.th[u]); }
    forall k | k in s.g.kops && s.g.kops[k].st.Undecided? ensures OwnedBy(s1.th, k) { assert OwnedBy(s.th, k); }
  }

  lemma {:induction false} RunInv(s: System, sched: Schedule)
    requires Inv(s)
    ensures Inv(RunFrom(s, sched))
    decreases |sched|
  {
    if sched != [] {
      RunInv(s, sched[..|sched| - 1]);
      var last := sched[|sched| - 1];
      StepKeeps(RunFrom(s, sched[..|sched| - 1]), last.0, last.1);
    }
  }

  // ---------------------------------------------------------------- atomicity

  ghost function LogicalMem(g: Shared): map<Addr, int> {
    map a | a in g.mem :: Logical(g, a)
  }

  ghost predicate Matches(m: map<Addr, int>, es: seq<Entry>) {
    forall i :: 0 <= i < |es| ==> es[i].addr in m && m[es[i].addr] == es[i].oldval
  }

  /** The atomic k-word memory: all the words of the entries take their new values in one step. */
  ghost function Swap(m: map<Addr, int>, es: seq<Entry>): map<Addr, int> {
    map a | a in m :: if HasAddr(es, a) then es[IndexOf(es, a)].newval else m[a]
  }

  datatype Commit = Commit(k: KId, es: seq<Entry>)

  /** Performing the operations of `log` one after the other, each as one atomic swap of all its words. */
  ghost function Replay(m: map<Addr, int>, log: seq<Commit>): map<Addr, int> {
    if log == [] then m else Swap(Replay(m, log[..|log| - 1]), log[|log| - 1].es)
  }

  /** Each operation of `log` finds all its old values when its turn comes. */
  ghost predicate AllMatch(m: map<Addr, int>, log: seq<Commit>) {
    log == [] ||
    (AllMatch(m, log[..|log| - 1]) && Matches(Replay(m, log[..|log| - 1]), log[|log| - 1].es))
  }

  lemma CommitIsSwap(g: Shared, g1: Shared, k: KId)
    requires GInv(g) && Rely(g, g1) && Commits(g, g1, k)
    ensures Matches(LogicalMem(g), g.kops[k].es)
    ensures LogicalMem(g1) == Swap(LogicalMem(g), g.kops[k].es)
  {
    KnownK(g, k);
    var es := g.kops[k].es;
    var m, m1 := LogicalMem(g), Swap(LogicalMem(g), es);
    forall a | a in g.mem ensures Logical(g1, a) == m1[a] {
      if HasAddr(es, a) {
        assert Logical(g1, es[IndexOf(es, a)].addr) == es[IndexOf(es, a)].newval;
      }
    }
  }

  ghost predicate Lists(log: seq<Commit>, k: KId) {
    exists i :: 0 <= i < |log| && log[i].k == k
  }

  /** `log` lists each operation that succeeded, and only those, once. */
  ghost predicate LogOf(log: seq<Commit>, g: Shared) {
    && (forall i, j :: 0 <= i < j < |log| ==> log[i].k != log[j].k)
    && (forall i :: 0 <= i < |log| ==>
          log[i].k in g.kops && g.kops[log[i].k].st.Succeeded? && g.kops[log[i].k].es == log[i].es)
    && (forall k :: k in g.kops && g.kops[k].st.Succeeded? ==> Lists(log, k))
  }

  /** `log` explains memory: atomic swaps in that order lead from `m0` to what users see now. */
  ghost predicate Explains(m0: map<Addr, int>, log: seq<Commit>, g: Shared) {
    LogOf(log, g) && AllMatch(m0, log) && Replay(m0, log) == LogicalMem(g)
  }

  lemma LogStep(log: seq<Commit>, g: Shared, g1: Shared)
    requires Rely(g, g1) && LogOf(log, g)
    ensures SucceededBut(g, g1, {}) ==> LogOf(log, g1)
    ensures forall k :: Commits(g, g1, k) ==> LogOf(log + [Commit(k, g.kops[k].es)], g1)
  {
    hide Rely, SwapsAll;
    forall i | 0 <= i < |log| ensures log[i].k in g1.kops && g1.kops[log[i].k].st.Succeeded? && g1.kops[log[i].k].es == log[i].es {
      RelyKnown(g, g1, log[i].k);
    }
    forall k | Commits(g, g1, k) ensures LogOf(log + [Commit(k, g.kops[k].es)], g1) {
      var log1 := log + [Commit(k, g.kops[k].es)];
      RelyKnown(g, g1, k);
      forall x | x in g1.kops && g1.kops[x].st.Succeeded? ensures Lists(log1, x) {
        if x == k {
          assert log1[|log|].k == x;
        } else {
          var i :| 0 <= i < |log| && log[i].k == x;
          assert log1[i].k == x;
        }
      }
    }
  }

  lemma ExplainsStep(m0: map<Addr, int>, log: seq<Commit>, g: Shared, g1: Shared) returns (log1: seq<Commit>)
    requires GInv(g) && Rely(g, g1) && AtomicStep(g, g1) && Explains(m0, log, g)
    ensures Explains(m0, log1, g1)
  {
    LogStep(log, g, g1);
    if SameLogical(g, g1) && SucceededBut(g, g1, {}) {
      log1 := log;
      SameLogicalMem(g, g1);
    } else {
      var k :| Commits(g, g1, k);
      log1 := log + [Commit(k, g.kops[k].es)];
      CommitExplains(m0, log, g, g1, k);
    }
    hide GInv, LogOf, SwapsAll, Matches, Swap;
  }

  lemma SameLogicalMem(g: Shared, g1: Shared)
    requires SameLogical(g, g1) && Rely(g, g1)
    ensures LogicalMem(g1) == LogicalMem(g)
  {
    hide RelyK, RelyR, Logical;
  }

  lemma CommitExplains(m0: map<Addr, int>, log: seq<Commit>, g: Shared, g1: Shared, k: KId)
    requires GInv(g) && Rely(g, g1) && Commits(g, g1, k) && Explains(m0, log, g)
    ensures var log1 := log + [Commit(k, g.kops[k].es)]; AllMatch(m0, log1) && Replay(m0, log1) == LogicalMem(g1)
  {
    var log1 := log + [Commit(k, g.kops[k].es)];
    CommitIsSwap(g, g1, k);
    hide GInv, LogOf, SwapsAll, Matches, Swap, Rely, LogicalMem;
    assert log1[..|log1| - 1] == log;
  }

  /**
   * k-CAS is atomic. In every run, the user-visible memory is what one gets by performing the
   * succeeded operations one at a time as atomic k-word swaps, each finding all its old values;
   * and each operation that succeeded is performed exactly once.
   */
  lemma {:induction false} RunIsAtomic(s: System, sched: Schedule) returns (log: seq<Commit>)
    requires Initial(s)
    ensures Explains(LogicalMem(s.g), log, RunFrom(s, sched).g)
    decreases |sched|
  {
    InitialOk(s);
    hide Inv, Step, AtomicStep, Rely;
    if sched == [] {
      log := [];
    } else {
      var before := RunFrom(s, sched[..|sched| - 1]);
      var log0 := RunIsAtomic(s, sched[..|sched| - 1]);
      RunInv(s, sched[..|sched| - 1]);
      StepKeeps(before, sched[|sched| - 1].0, sched[|sched| - 1].1);
      log := ExplainsStep(LogicalMem(s.g), log0, before.g, RunFrom(s, sched).g);
    }
  }

  // ---------------------------------------------------------------- outcomes

  /** In every run, what `execute` returned is the fate of its operation, and on success its tag is nowhere. */
  lemma ExecuteOutcome(s: System, sched: Schedule, t: Tid)
    requires Initial(s)
    ensures var s1 := RunFrom(s, sched);
      t in s1.th && s1.th[t].res.Returned? ==>
        var k := s1.th[t].res.k;
        && k in s1.g.kops && !s1.g.kops[k].st.Undecided?
        && (s1.th[t].res.ok <==> s1.g.kops[k].st.Succeeded?)
        && (s1.th[t].res.ok ==> forall a :: a in s1.g.mem ==> s1.g.mem[a] != KTag(k))
  {
    InitialOk(s);
    RunInv(s, sched);
    var s1 := RunFrom(s, sched);
    if t in s1.th { assert ThreadOk(s1.g, t, s1.th[t]); }
  }

  /** In every run, a word that does not hold the tag of a succeeded operation never holds it again. */
  lemma {:induction false} SucceededTagNeverReturns(s: System, sched: Schedule, k: KId, a: Addr)
    requires Inv(s) && k in s.g.kops && s.g.kops[k].st.Succeeded?
    requires a in s.g.mem && s.g.mem[a] != KTag(k)
    ensures var g1 := RunFrom(s, sched).g;
            k in g1.kops && g1.kops[k].st.Succeeded? && a in g1.mem && g1.mem[a] != KTag(k)
    decreases |sched|
  {
    hide Inv, Step, AtomicStep;
    if sched != [] {
      var before := RunFrom(s, sched[..|sched| - 1]);
      SucceededTagNeverReturns(s, sched[..|sched| - 1], k, a);
      RunInv(s, sched[..|sched| - 1]);
      StepKeeps(before, sched[|sched| - 1].0, sched[|sched| - 1].1);
      assert RelyK(before.g, RunFrom(s, sched).g, k);
    }
  }

  /** Some word of `k` holds another value than `k` expects. */
  ghost predicate Differs(g: Shared, k: KId) {
    k in g.kops && g.kops[k].st.Undecided? && exists i :: 0 <= i < |g.kops[k].es| && Logical(g, g.kops[k].es[i].addr) != g.kops[k].es[i].oldval
  }

  /** Only the VAL_CAS of an RDCSS notes a mismatch. */
  lemma OthersNoteNothing(g: Shared, t: Tid, T: Thread, k: KId)
    requires k in g.kops
    ensures k in StepRHelp(g, T).0.kops && StepRHelp(g, T).0.kops[k].mismatch == g.kops[k].mismatch
    ensures T.stack != [] ==> k in StepFrame(g, t, T).0.kops && StepFrame(g, t, T).0.kops[k].mismatch == g.kops[k].mismatch
  {
    if T.stack != [] { FrameNotesNothing(g, t, T, k); }
  }

  lemma FrameNotesNothing(g: Shared, t: Tid, T: Thread, k: KId)
    requires k in g.kops && T.stack != []
    ensures k in StepFrame(g, t, T).0.kops && StepFrame(g, t, T).0.kops[k].mismatch == g.kops[k].mismatch
  {}

  lemma RdcssNotes(g: Shared, t: Tid, T: Thread, k: KId)
    requires GInv(g) && ThreadOk(g, t, T) && T.stack != [] && Top(T).pc.InRdcss?
    requires k in StepRdcss(g, t, T).0.kops && StepRdcss(g, t, T).0.kops[k].mismatch
    requires k in g.kops ==> !g.kops[k].mismatch
    ensures Differs(g, k)
  {
    hide GInv, StackOk, ResultOk;
    assert T.rd.Trying?;
    var r := T.rd.r;
    KnownR(g, r);
    var e := g.rops[r].e;
    assert k == Top(T).k && MemAt(g, e.addr).Plain?;
    assert e == g.kops[k].es[g.rops[r].i];
  }

  lemma MismatchIsReal(s: System, t: Tid, a: Action, k: KId)
    requires Inv(s) && k in Step(s, t, a).g.kops && Step(s, t, a).g.kops[k].mismatch
    requires k in s.g.kops ==> !s.g.kops[k].mismatch
    ensures Differs(s.g, k)
  {
    hide GInv, StepRHelp, StepFrame, StepRdcss, ThreadOk, Differs;
    assert a.Run? && t in s.th;
    var T := s.th[t];
    assert ThreadOk(s.g, t, T);
    if k in s.g.kops { OthersNoteNothing(s.g, t, T, k); }
    OthersAddNothing(s.g, t, T);
    RdcssNotes(s.g, t, T, k);
  }

  lemma OthersAddNothing(g: Shared, t: Tid, T: Thread)
    ensures StepRHelp(g, T).0.kops.Keys == g.kops.Keys
    ensures T.stack != [] ==> StepFrame(g, t, T).0.kops.Keys == g.kops.Keys
  {}

  /** The instant `n` of a run at which `k` was undecided and one of its words held another value than expected. */
  ghost predicate SawMismatchAt(s: System, sched: Schedule, k: KId, n: nat) {
    n <= |sched| && Differs(RunFrom(s, sched[..n]).g, k)
  }

  /** An operation fails only if at some instant between its publication and its decision it could not have succeeded. */
  lemma {:induction false} FailureIsJustified(s: System, sched: Schedule, k: KId) returns (n: nat)
    requires Inv(s) && (k in s.g.kops ==> !s.g.kops[k].mismatch)
    requires k in RunFrom(s, sched).g.kops && RunFrom(s, sched).g.kops[k].mismatch
    ensures SawMismatchAt(s, sched, k, n)
    decreases |sched|
  {
    hide Step, Inv, SawMismatchAt;
    var head := sched[..|sched| - 1];
    var before := RunFrom(s, head);
    RunInv(s, head);
    if k in before.g.kops && before.g.kops[k].mismatch {
      n := FailureIsJustified(s, head, k);
      SawBefore(s, sched, k, n);
    } else {
      hide Differs;
      MismatchIsReal(before, sched[|sched| - 1].0, sched[|sched| - 1].1, k);
      n := |head|;
      SawNow(s, sched, k);
    }
  }

  lemma SawBefore(s: System, sched: Schedule, k: KId, n: nat)
    requires sched != [] && SawMismatchAt(s, sched[..|sched| - 1], k, n)
    ensures SawMismatchAt(s, sched, k, n)
  {
    hide Differs, RunFrom;
    assert sched[..|sched| - 1][..n] == sched[..n];
  }

  lemma SawNow(s: System, sched: Schedule, k: KId)
    requires sched != [] && Differs(RunFrom(s, sched[..|sched| - 1]).g, k)
    ensures SawMismatchAt(s, sched, k, |sched| - 1)
  {
    hide Differs, RunFrom;
  }

  lemma FailedOperationCouldNotSucceed(s: System, sched: Schedule, k: KId) returns (n: nat)
    requires Initial(s)
    requires k in RunFrom(s, sched).g.kops && RunFrom(s, sched).g.kops[k].st.Failed?
    ensures SawMismatchAt(s, sched, k, n)
  {
    InitialOk(s);
    RunInv(s, sched);
    KnownK(RunFrom(s, sched).g, k);
    n := FailureIsJustified(s, sched, k);
  }

  /** `readPtr` returns the user-visible value of the word at the instant it returns. */
  lemma ReadReturnsLogical(s: System, sched: Schedule, t: Tid)
    requires Initial(s) && t in RunFrom(s, sched).th && RunFrom(s, sched).th[t].act.Reading?
    ensures var s1 := RunFrom(s, sched);
            var s2 := Step(s1, t, Run);
            s2.th[t].act.Idle? ==> s2.th[t].res == Got(s1.th[t].act.a, Logical(s1.g, s1.th[t].act.a))
  {
    hide Initial, GInv, ThreadOk;
    InitialOk(s);
    RunInv(s, sched);
    var s1 := RunFrom(s, sched);
    assert ThreadOk(s1.g, t, s1.th[t]);
    HelpersStayInCall(s1.g, t, s1.th[t]);
  }

  lemma HelpersStayInCall(g: Shared, t: Tid, T: Thread)
    requires ThreadOk(g, t, T) && T.act.Reading?
    ensures StepRHelp(g, T).1.act == T.act
    ensures T.stack != [] ==> StepFrame(g, t, T).1.act == T.act
    ensures T.stack != [] && Top(T).pc.InRdcss? ==> StepRdcss(g, t, T).1.act == T.act
  {
    hide FrameOk, SuspendedOn, HigherUp, RHelpOk, ResultOk, RdcssOk;
  }

  // ---------------------------------------------------------------- descriptors and helping

  /** A descriptor copy that passed its sequence check holds exactly the words of the operation its tag names. */
  lemma CopiesAreUntorn(s: System, sched: Schedule, t: Tid)
    requires Initial(s)
    ensures var s1 := RunFrom(s, sched);
      t in s1.th ==>
        && (forall i :: 0 <= i < |s1.th[t].stack| && !s1.th[t].stack[i].own && !s1.th[t].stack[i].pc.Copy? ==>
              s1.th[t].stack[i].k in s1.g.kops && s1.th[t].stack[i].buf == s1.g.kops[s1.th[t].stack[i].k].pay)
        && (var rh := s1.th[t].rh; rh.RRead? || rh.RCas? ==>
              rh.r in s1.g.rops && rh.buf == RPay(s1.g.rops[rh.r].k, s1.g.rops[rh.r].e))
  {
    InitialOk(s);
    RunInv(s, sched);
    var s1 := RunFrom(s, sched);
    if t in s1.th {
      var T := s1.th[t];
      assert ThreadOk(s1.g, t, T);
      forall i | 0 <= i < |T.stack| ensures FrameOk(s1.g, t, T.stack[i]) {}
    }
  }

  /** While an operation is undecided its locked entries are a prefix of its address order. */
  lemma LockedEntriesArePrefix(s: System, sched: Schedule, k: KId, i: nat, j: nat)
    requires Initial(s)
    ensures var g := RunFrom(s, sched).g;
      k in g.kops && g.kops[k].st.Undecided? && j < i < |g.kops[k].es| && Locked(g, k, i) ==> Locked(g, k, j)
  {
    InitialOk(s);
    RunInv(s, sched);
    var g := RunFrom(s, sched).g;
    if k in g.kops { KnownK(g, k); }
  }

  /** A helper that skips entry 0 skips one that is locked already, unless the operation is decided. */
  lemma SkippedEntryIsLocked(s: System, sched: Schedule, t: Tid, i: nat)
    requires Initial(s) && t in RunFrom(s, sched).th && i < |RunFrom(s, sched).th[t].stack|
    requires !RunFrom(s, sched).th[t].stack[i].own
    ensures var s1 := RunFrom(s, sched);
            var k := s1.th[t].stack[i].k;
            k in s1.g.kops && |s1.g.kops[k].es| > 0 && LockedOrDone(s1.g, k, 0)
  {
    InitialOk(s);
    RunInv(s, sched);
    var s1 := RunFrom(s, sched);
    assert ThreadOk(s1.g, t, s1.th[t]);
    assert FrameOk(s1.g, t, s1.th[t].stack[i]);
  }

  ghost function BlockedAt(g: Shared, f: Frame): Addr
    requires f.pc.Helping? && f.k in g.kops && f.pc.i < |g.kops[f.k].es|
  {
    g.kops[f.k].es[f.pc.i].addr
  }

  /** Nested helping climbs: the addresses at which a thread's suspended activations are blocked strictly increase. */
  lemma {:induction false} HelpingAscends(s: System, t: Tid, i: nat, j: nat)
    requires Inv(s) && t in s.th && i < j < |s.th[t].stack| - 1
    requires forall m :: i < m <= j ==> s.th[t].stack[m].k in s.g.kops && s.g.kops[s.th[t].stack[m].k].st.Undecided?
    ensures HigherUp(s.g, s.th[t].stack[j - 1], s.th[t].stack[j])
    ensures HigherUp(s.g, s.th[t].stack[i], s.th[t].stack[i + 1])
    ensures BlockedAt(s.g, s.th[t].stack[i]) < BlockedAt(s.g, s.th[t].stack[j])
    decreases j
  {
    assert ThreadOk(s.g, t, s.th[t]);
    assert HigherUp(s.g, s.th[t].stack[j - 1], s.th[t].stack[j - 1 + 1]);
    assert HigherUp(s.g, s.th[t].stack[i], s.th[t].stack[i + 1]);
    if i < j - 1 {
      HelpingAscends(s, t, i, j - 1);
    }
  }

  // ---------------------------------------------------------------- the tag of a failed operation

  /**
   * An RDCSS that read UNDECIDED never writes the tag of a succeeded operation, in any run. It may write that of an
   * operation that has failed, whose owner may have returned.
   */
  lemma LateTagIsNotOfSucceeded(s: System, sched: Schedule, t: Tid)
    requires Initial(s) && t in RunFrom(s, sched).th && RunFrom(s, sched).th[t].rh.RCas? && RunFrom(s, sched).th[t].rh.undecided
    ensures var s1 := RunFrom(s, sched);
      var r := s1.th[t].rh.r;
      && r in s1.g.rops && s1.g.rops[r].k in s1.g.kops
      && var a, k := s1.g.rops[r].e.addr, s1.g.rops[r].k;
      MemAt(s1.g, a) == RTag(r) ==> !s1.g.kops[k].st.Succeeded? && MemAt(Step(s1, t, Run).g, a) == KTag(k)
  {
    hide Initial, GInv, Inv, RunFrom, ThreadOk;
    InitialOk(s);
    RunInv(s, sched);
    LateTagStep(RunFrom(s, sched), t);
  }

  lemma LateTagStep(s: System, t: Tid)
    requires Inv(s) && t in s.th && s.th[t].rh.RCas? && s.th[t].rh.undecided
    ensures var r := s.th[t].rh.r;
      && r in s.g.rops && s.g.rops[r].k in s.g.kops
      && var a, k := s.g.rops[r].e.addr, s.g.rops[r].k;
      MemAt(s.g, a) == RTag(r) ==> !s.g.kops[k].st.Succeeded? && MemAt(Step(s, t, Run).g, a) == KTag(k)
  {
    hide Step, StepRHelp, StackOk, RdcssOk, ResultOk, GInv;
    var T := s.th[t];
    assert ThreadOk(s.g, t, T);
    KnownR(s.g, T.rh.r);
    LateCas(s.g, T);
    HelpsRdcss(s, t);
  }

  lemma HelpsRdcss(s: System, t: Tid)
    requires t in s.th && !s.th[t].rh.NoRHelp?
    ensures Step(s, t, Run).g == StepRHelp(s.g, s.th[t]).0
  {
    hide StepRHelp;
  }

  lemma LateCas(g: Shared, T: Thread)
    requires T.rh.RCas? && T.rh.undecided && RHelpOk(g, T.rh) && ROpOk(g, T.rh.r)
    ensures MemAt(g, g.rops[T.rh.r].e.addr) == RTag(T.rh.r) ==> MemAt(StepRHelp(g, T).0, g.rops[T.rh.r].e.addr) == KTag(g.rops[T.rh.r].k)
  {}
}
