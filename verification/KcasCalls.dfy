/**
 * k-CAS as its caller sees it: what the words written into a descriptor make of `execute`, and what `execute` and
 * `readPtr` report when they return.
 */
module KcasCalls {
  import opened DescriptorWords
  import opened KcasModel
  import opened KcasInvariant
  import opened KcasEffects
  import opened KcasSteps
  import opened KcasTheorems
  import opened KcasAbandoned
  import KcasAlone

  // ---------------------------------------------------------------- the caller's part of a run

  /** What thread `t` does in a schedule, in order. */
  function Of(sched: Schedule, t: Tid): seq<Action>
    decreases |sched|
  {
    if sched == [] then []
    else Of(sched[..|sched| - 1], t) + if sched[|sched| - 1].0 == t then [sched[|sched| - 1].1] else []
  }

  /** The words written are the number of entries, and address, old and new value of each. */
  ghost predicate Describes(writes: seq<Write<int>>, es: seq<Entry>) {
    LastWrite(writes, 0, |es|) && forall i: nat :: i < |es| ==> DescribesEntry(writes, i, es[i])
  }

  ghost predicate DescribesEntry(writes: seq<Write<int>>, i: nat, e: Entry) {
    LastWrite(writes, 3 * i + 1, e.addr) && LastWrite(writes, 3 * i + 2, e.oldval) && LastWrite(writes, 3 * i + 3, e.newval)
  }

  /** The writes as actions. */
  function Fills(writes: seq<Write<int>>): seq<Action> {
    seq(|writes|, i requires 0 <= i < |writes| => Fill(writes[i].0, writes[i].1))
  }

  /** Different valid addresses in ascending order, and room for the entries. */
  ghost predicate Admissible(s: System, t: Tid, es: seq<Entry>) {
    && t in s.th && s.th[t].act.Idle? && t in s.g.kslot && 3 * |es| < |s.g.kslot[t].pay|
    && (forall i :: 0 <= i < |es| ==> es[i].addr in s.g.mem)
    && (forall i, j :: 0 <= i < j < |es| ==> es[i].addr < es[j].addr)
  }

  /** In `sched`, among any steps of other threads, `t` begins an operation, describes `es` and executes it. */
  ghost predicate Calls(sched: Schedule, t: Tid, writes: seq<Write<int>>, es: seq<Entry>) {
    Of(sched, t) == [Start] + Fills(writes) + [Execute] && Describes(writes, es)
  }

  // ---------------------------------------------------------------- words

  /** Decoding gives back the entries that were described. */
  lemma DecodesDescription(pay: seq<int>, writes: seq<Write<int>>, es: seq<Entry>)
    requires Describes(writes, es) && 3 * |es| < |pay|
    ensures var p := Written(pay, writes); p[0] == |es| && Decode(p) == es
  {
    var p := Written(pay, writes);
    hide Written, LastWrite;
    LastIsWritten(pay, writes, 0, |es|);
    forall i: nat | i < |es| ensures EntryAt(p, i) == es[i] { DecodesEntry(pay, writes, es, i); }
  }

  lemma DecodesEntry(pay: seq<int>, writes: seq<Write<int>>, es: seq<Entry>, i: nat)
    requires Describes(writes, es) && i < |es| && 3 * |es| < |pay|
    ensures EntryAt(Written(pay, writes), i) == es[i]
  {
    assert DescribesEntry(writes, i, es[i]);
    hide LastWrite, Written, Describes;
    LastIsWritten(pay, writes, 3 * i + 1, es[i].addr);
    LastIsWritten(pay, writes, 3 * i + 2, es[i].oldval);
    LastIsWritten(pay, writes, 3 * i + 3, es[i].newval);
  }

  // ---------------------------------------------------------------- steps of others

  lemma RunKeepsSlot(g: Shared, u: Tid, T: Thread, t: Tid)
    requires t in g.kslot
    ensures var g1 := StepRun(g, u, T).0; t in g1.kslot && g1.kslot[t] == g.kslot[t].(state := g1.kslot[t].state)
  {
    hide StepRHelp, StepRdcss, StepFrame;
    RHelpKeepsSlot(g, T);
    if T.stack != [] {
      FrameKeepsSlot(g, u, T, t);
      if Top(T).pc.InRdcss? { RdcssKeepsSlot(g, u, T); }
    }
  }

  lemma RHelpKeepsSlot(g: Shared, T: Thread)
    ensures StepRHelp(g, T).0.kslot == g.kslot
  {
    hide Goto;
  }

  lemma RdcssKeepsSlot(g: Shared, u: Tid, T: Thread)
    requires T.stack != [] && Top(T).pc.InRdcss?
    ensures StepRdcss(g, u, T).0.kslot == g.kslot
  {
    hide Goto;
  }

  lemma FrameKeepsSlot(g: Shared, u: Tid, T: Thread, t: Tid)
    requires t in g.kslot && T.stack != []
    ensures var g1 := StepFrame(g, u, T).0; t in g1.kslot && g1.kslot[t] == g.kslot[t].(state := g1.kslot[t].state)
  {
    hide Goto, Return, WithTop;
  }

  /** No step of another thread, and no step of `t` inside a call, writes to the descriptor of `t`. */
  lemma OthersKeepSlot(s: System, u: Tid, a: Action, t: Tid)
    requires t in s.th && t in s.g.kslot && u != t
    ensures var s1 := Step(s, u, a); t in s1.th && s1.th[t] == s.th[t] && t in s1.g.kslot && s1.g.kslot[t] == s.g.kslot[t].(state := s1.g.kslot[t].state)
  {
    hide StepRun, OpOk, Decode;
    if u in s.th { RunKeepsSlot(s.g, u, s.th[u], t); }
  }

  // ---------------------------------------------------------------- publication

  /** Where `t` is after the part `acts` of its actions. */
  ghost predicate Stage(s: System, s1: System, t: Tid, writes: seq<Write<int>>, acts: seq<Action>) {
    && t in s.th && t in s.g.kslot && t in s1.th && t in s1.g.kslot && s1.th[t] == s.th[t]
    && acts <= [Start] + Fills(writes)
    && var slot, slot1 := s.g.kslot[t], s1.g.kslot[t];
    && (acts == [] ==> slot1 == slot.(state := slot1.state))
    && (acts != [] ==> slot1 == KSlot(slot.sn + 1, slot1.state, Written(slot.pay, writes[..|acts| - 1]), true))
  }

  lemma StageStep(s: System, s0: System, u: Tid, a: Action, t: Tid, writes: seq<Write<int>>, acts: seq<Action>)
    requires Stage(s, s0, t, writes, acts) && s.th[t].act.Idle?
    requires u == t ==> acts + [a] <= [Start] + Fills(writes)
    ensures Stage(s, Step(s0, u, a), t, writes, if u == t then acts + [a] else acts)
  {
    hide Step, Written;
    var pay := s.g.kslot[t].pay;
    if u != t {
      OthersKeepSlot(s0, u, a, t);
    } else if acts == [] {
      assert ([Start] + Fills(writes))[0] == Start && writes[..0] == [];
      WrittenNone(pay);
      StartIs(s0, t);
    } else {
      var n := |acts| - 1;
      assert ([Start] + Fills(writes))[n + 1] == Fills(writes)[n] == a;
      assert writes[..n + 1] == writes[..n] + [writes[n]];
      WrittenMore(pay, writes[..n], writes[n]);
      FillIs(s0, t, a);
    }
  }

  lemma StartIs(s: System, t: Tid)
    requires t in s.th && t in s.g.kslot && s.th[t].act.Idle?
    ensures var s1 := Step(s, t, Start); s1.th == s.th && t in s1.g.kslot && s1.g.kslot[t] == KSlot(s.g.kslot[t].sn + 1, Undecided, s.g.kslot[t].pay, true)
  {}

  lemma FillIs(s: System, t: Tid, a: Action)
    requires t in s.th && t in s.g.kslot && s.th[t].act.Idle? && s.g.kslot[t].building && a.Fill?
    ensures var s1, slot := Step(s, t, a), s.g.kslot[t];
      s1.th == s.th && t in s1.g.kslot && s1.g.kslot[t] == if a.c < |slot.pay| then slot.(pay := slot.pay[a.c := a.w]) else slot
  {}

  lemma OfLast(sched: Schedule, t: Tid)
    requires sched != []
    ensures var n := |sched| - 1; Of(sched, t) == if sched[n].0 == t then Of(sched[..n], t) + [sched[n].1] else Of(sched[..n], t)
  {}

  lemma {:induction false} Stages(s: System, sched: Schedule, t: Tid, writes: seq<Write<int>>)
    requires t in s.th && t in s.g.kslot && s.th[t].act.Idle?
    requires Of(sched, t) <= [Start] + Fills(writes)
    ensures Stage(s, RunFrom(s, sched), t, writes, Of(sched, t))
    decreases |sched|
  {
    hide Step, Stage;
    if sched == [] {
      StageNone(s, t, writes);
    } else {
      var n := |sched| - 1;
      Stages(s, sched[..n], t, writes);
      OfLast(sched, t);
      hide Of;
      StageStep(s, RunFrom(s, sched[..n]), sched[n].0, sched[n].1, t, writes, Of(sched[..n], t));
    }
  }

  lemma StageNone(s: System, t: Tid, writes: seq<Write<int>>)
    requires t in s.th && t in s.g.kslot
    ensures Stage(s, s, t, writes, [])
  {}

  /** `k` is under way in `t`, for the entries `es`. */
  ghost predicate UnderWay(s: System, t: Tid, k: KId, es: seq<Entry>) {
    && t in s.th && s.th[t].act.Executing? && s.th[t].stack != [] && s.th[t].stack[0].k == k
    && k in s.g.kops && s.g.kops[k].es == es
  }

  ghost predicate JustPublished(s: System, t: Tid, k: KId, es: seq<Entry>) {
    UnderWay(s, t, k, es) && s.th[t].stack == [Frame(k, true, [], ReadState)] && s.g.kops[k].mismatch == false && s.g.kops[k].st.Undecided?
  }

  lemma ExecuteStep(s: System, s0: System, t: Tid, writes: seq<Write<int>>, es: seq<Entry>)
    requires Inv(s0) && Stage(s, s0, t, writes, [Start] + Fills(writes)) && s.th[t].act.Idle? && Describes(writes, es) && 3 * |es| < |s.g.kslot[t].pay|
    requires (forall i :: 0 <= i < |es| ==> es[i].addr in s0.g.mem) && (forall i, j :: 0 <= i < j < |es| ==> es[i].addr < es[j].addr)
    ensures JustPublished(Step(s0, t, Execute), t, KId(t, s.g.kslot[t].sn + 2), es)
  {
    hide Written, Describes, Decode, GInv, Step, ThreadOk, OwnedBy;
    assert writes[..|writes|] == writes;
    DecodesDescription(s.g.kslot[t].pay, writes, es);
    BuildingIsUndecided(s0.g, t);
    var pay := Written(s.g.kslot[t].pay, writes);
    Executable(s0.g, pay, es);
    hide OpOk;
    ExecuteIs(s0, t);
  }

  lemma Executable(g: Shared, pay: seq<int>, es: seq<Entry>)
    requires 3 * |es| < |pay| && pay[0] == |es| && Decode(pay) == es
    requires (forall i :: 0 <= i < |es| ==> es[i].addr in g.mem) && (forall i, j :: 0 <= i < j < |es| ==> es[i].addr < es[j].addr)
    ensures OpOk(g, pay)
  {
    hide Decode;
  }

  lemma ExecuteIs(s: System, t: Tid)
    requires t in s.th && t in s.g.kslot && s.th[t].act.Idle? && s.g.kslot[t].building && s.g.kslot[t].state.Undecided? && OpOk(s.g, s.g.kslot[t].pay)
    ensures JustPublished(Step(s, t, Execute), t, KId(t, s.g.kslot[t].sn + 1), Decode(s.g.kslot[t].pay))
  {
    hide OpOk, Decode;
  }

  lemma {:induction false} MemStays(s: System, sched: Schedule)
    requires Inv(s)
    ensures RunFrom(s, sched).g.mem.Keys == s.g.mem.Keys
    decreases |sched|
  {
    hide Inv, Step, Rely, AtomicStep;
    if sched != [] {
      var n := |sched| - 1;
      MemStays(s, sched[..n]);
      RunInv(s, sched[..n]);
      StepKeeps(RunFrom(s, sched[..n]), sched[n].0, sched[n].1);
      RelyMem(RunFrom(s, sched[..n]).g, RunFrom(s, sched).g);
    }
  }

  lemma RelyMem(g: Shared, g1: Shared)
    requires Rely(g, g1)
    ensures g1.mem.Keys == g.mem.Keys
  {}

  /**
   * Whatever other threads do meanwhile, beginning an operation, writing its words in any order and executing it
   * publishes an operation with exactly the entries described.
   */
  lemma {:induction false} PublishesDescription(s: System, sched: Schedule, t: Tid, writes: seq<Write<int>>, es: seq<Entry>)
    requires Inv(s) && Admissible(s, t, es) && Calls(sched, t, writes, es)
    ensures UnderWay(RunFrom(s, sched), t, KId(t, s.g.kslot[t].sn + 2), es)
    decreases |sched|
  {
    hide Inv, Step, Describes, Rely, AtomicStep, JustPublished;
    OfLast(sched, t);
    var n := |sched| - 1;
    var s0, last := RunFrom(s, sched[..n]), sched[n];
    RunInv(s, sched[..n]);
    hide Of;
    if last.0 == t {
      LastAction([Start] + Fills(writes), Of(sched[..n], t), Execute, last.1);
      Stages(s, sched[..n], t, writes);
      MemStays(s, sched[..n]);
      ExecuteStep(s, s0, t, writes, es);
      JustIsUnderWay(RunFrom(s, sched), t, KId(t, s.g.kslot[t].sn + 2), es);
    } else {
      PublishesDescription(s, sched[..n], t, writes, es);
      OthersKeepCall(s0, last.0, last.1, t, KId(t, s.g.kslot[t].sn + 2), es);
    }
  }

  lemma JustIsUnderWay(s: System, t: Tid, k: KId, es: seq<Entry>)
    requires JustPublished(s, t, k, es)
    ensures UnderWay(s, t, k, es)
  {}

  lemma LastAction(a: seq<Action>, b: seq<Action>, x: Action, y: Action)
    requires a + [x] == b + [y]
    ensures a == b && x == y
  {
    assert (a + [x])[..|a|] == a && (b + [y])[..|b|] == b;
  }

  lemma OthersKeepCall(s: System, u: Tid, a: Action, t: Tid, k: KId, es: seq<Entry>)
    requires Inv(s) && UnderWay(s, t, k, es) && u != t
    ensures UnderWay(Step(s, u, a), t, k, es)
  {
    hide Inv, Step, Rely, AtomicStep;
    StepKeeps(s, u, a);
    RelyKnown(s.g, Step(s, u, a).g, k);
    SlotThere(s, t);
    OthersKeepSlot(s, u, a, t);
  }

  lemma SlotThere(s: System, t: Tid)
    requires Inv(s) && t in s.th
    ensures t in s.g.kslot && ThreadOk(s.g, t, s.th[t])
  {}

  // ---------------------------------------------------------------- what a call reports

  /** A step that ends `execute` reports the decision of the operation it was for. */
  lemma ExecuteReports(s: System, u: Tid, a: Action, t: Tid)
    requires Inv(s) && t in s.th && s.th[t].act.Executing? && t in Step(s, u, a).th && Step(s, u, a).th[t].act.Idle?
    ensures s.th[t].stack != []
    ensures var s1, k := Step(s, u, a), s.th[t].stack[0].k;
      k in s1.g.kops && !s1.g.kops[k].st.Undecided? && s1.th[t].res == Returned(k, s1.g.kops[k].st.Succeeded?)
  {
    hide StepRHelp, StepRdcss, StepFrame, GInv, ThreadOk, Rely, AtomicStep, OwnedBy;
    StepKeeps(s, u, a);
    SlotThere(s, t);
    assert u == t && a.Run?;
    RunIs(s, t);
    hide Step;
    assert ThreadOk(Step(s, t, Run).g, t, Step(s, t, Run).th[t]);
    OnlyReturnEnds(s.g, t, s.th[t]);
    ReportIsOutcome(Step(s, t, Run).g, t, Step(s, t, Run).th[t]);
  }

  lemma ReportIsOutcome(g: Shared, t: Tid, T: Thread)
    requires ThreadOk(g, t, T) && T.res.Returned?
    ensures T.res.k in g.kops && !g.kops[T.res.k].st.Undecided? && T.res.ok == g.kops[T.res.k].st.Succeeded?
  {}

  lemma OnlyReturnEnds(g: Shared, t: Tid, T: Thread)
    requires ThreadOk(g, t, T) && T.act.Executing? && StepRun(g, t, T).1.act.Idle?
    ensures T.stack != [] && StepRun(g, t, T).1.res.Returned? && StepRun(g, t, T).1.res.k == T.stack[0].k
  {
    hide FrameOk, SuspendedOn, HigherUp, RHelpOk, ResultOk, RdcssOk;
    hide StepRHelp, StepRdcss, StepFrame;
    RHelpStays(g, T);
    if T.stack != [] {
      if T.rh.NoRHelp? && T.rd.NoRdcss? { FrameEnds(g, t, T); }
      if Top(T).pc.InRdcss? { RdcssStays(g, t, T); }
    }
  }

  lemma RHelpStays(g: Shared, T: Thread)
    ensures StepRHelp(g, T).1.act == T.act
  {}

  lemma RdcssStays(g: Shared, t: Tid, T: Thread)
    requires T.stack != [] && Top(T).pc.InRdcss?
    ensures StepRdcss(g, t, T).1.act == T.act
  {}

  lemma FrameEnds(g: Shared, t: Tid, T: Thread)
    requires StackOk(g, t, T) && T.stack != [] && !T.act.Idle? && StepFrame(g, t, T).1.act.Idle?
    ensures StepFrame(g, t, T).1.res.Returned? && StepFrame(g, t, T).1.res.k == T.stack[0].k
  {
    hide FrameOk, SuspendedOn, HigherUp;
  }

  /** A step that ends `readPtr` reports the user-visible value of its word at that instant. */
  lemma ReadReports(s: System, u: Tid, a: Action, t: Tid)
    requires Inv(s) && t in s.th && s.th[t].act.Reading? && t in Step(s, u, a).th && Step(s, u, a).th[t].act.Idle?
    ensures Step(s, u, a).th[t].res == Got(s.th[t].act.a, Logical(s.g, s.th[t].act.a))
  {
    hide StepRHelp, StepRdcss, StepFrame, GInv, ThreadOk, OwnedBy;
    SlotThere(s, t);
    assert u == t && a.Run?;
    RunIs(s, t);
    hide Step;
    HelpersStayInCall(s.g, t, s.th[t]);
  }

  // ---------------------------------------------------------------- a whole call

  /** In `run`, among any steps of other threads, `t` makes one whole call of execute for `es`: its own steps are Run. */
  ghost predicate WholeCall(run: Schedule, t: Tid, writes: seq<Write<int>>, es: seq<Entry>, n: nat) {
    Of(run, t) == [Start] + Fills(writes) + [Execute] + seq(n, _ => Run) && Describes(writes, es)
  }

  ghost predicate Reported(s: System, t: Tid, k: KId, es: seq<Entry>) {
    && t in s.th && s.th[t].act.Idle? && s.th[t].stack == [] && s.th[t].rd.NoRdcss? && s.th[t].rh.NoRHelp?
    && k in s.g.kops && s.g.kops[k].es == es && !s.g.kops[k].st.Undecided? && s.th[t].res == Returned(k, s.g.kops[k].st.Succeeded?)
  }

  lemma RunKeepsBottom(g: Shared, t: Tid, T: Thread)
    requires ThreadOk(g, t, T) && T.act.Executing? && StepRun(g, t, T).1.act.Executing?
    ensures T.stack != [] && StepRun(g, t, T).1.stack != [] && StepRun(g, t, T).1.stack[0].k == T.stack[0].k
  {
    hide FrameOk, SuspendedOn, HigherUp, RHelpOk, ResultOk, RdcssOk;
    hide StepRHelp, StepRdcss, StepFrame;
    RHelpBottom(g, T);
    if Top(T).pc.InRdcss? { RdcssBottom(g, t, T); }
    if T.rh.NoRHelp? && T.rd.NoRdcss? { FrameBottom(g, t, T); }
  }

  lemma RHelpBottom(g: Shared, T: Thread)
    requires T.stack != []
    ensures StepRHelp(g, T).1.stack != [] && StepRHelp(g, T).1.stack[0].k == T.stack[0].k
  {}

  lemma RdcssBottom(g: Shared, t: Tid, T: Thread)
    requires T.stack != [] && Top(T).pc.InRdcss?
    ensures StepRdcss(g, t, T).1.stack != [] && StepRdcss(g, t, T).1.stack[0].k == T.stack[0].k
  {}

  lemma FrameBottom(g: Shared, t: Tid, T: Thread)
    requires T.stack != [] && T.stack[0].own && T.act.Executing? && StepFrame(g, t, T).1.act.Executing?
    ensures StepFrame(g, t, T).1.stack != [] && StepFrame(g, t, T).1.stack[0].k == T.stack[0].k
  {}

  /** A step keeps a call under way, or ends it with its report. */
  lemma CallStep(s: System, u: Tid, a: Action, t: Tid, k: KId, es: seq<Entry>)
    requires Inv(s) && (UnderWay(s, t, k, es) || Reported(s, t, k, es)) && (u == t ==> a.Run?)
    ensures UnderWay(Step(s, u, a), t, k, es) || Reported(Step(s, u, a), t, k, es)
  {
    hide Inv, Step, Rely, AtomicStep, ThreadOk;
    var s1 := Step(s, u, a);
    StepKeeps(s, u, a);
    SlotThere(s, t);
    RelyKnown(s.g, s1.g, k);
    RelyDecided(s.g, s1.g, k);
    if u != t {
      OthersKeepSlot(s, u, a, t);
    } else {
      RunIs(s, t);
      hide StepRun;
      if s.th[t].act.Idle? {
        IdleRuns(s.g, t, s.th[t]);
      } else if s1.th[t].act.Executing? {
        RunKeepsBottom(s.g, t, s.th[t]);
      } else {
        StaysOrEnds(s.g, t, s.th[t]);
        ExecuteReports(s, u, a, t);
        SlotThere(s1, t);
        IdleIsClear(s1.g, t, s1.th[t]);
      }
    }
  }

  lemma RelyDecided(g: Shared, g1: Shared, k: KId)
    requires Rely(g, g1) && k in g.kops
    ensures k in g1.kops && (!g.kops[k].st.Undecided? ==> g1.kops[k].st == g.kops[k].st)
  {}

  lemma IdleRuns(g: Shared, t: Tid, T: Thread)
    requires T.act.Idle? && T.stack == [] && T.rd.NoRdcss? && T.rh.NoRHelp?
    ensures StepRun(g, t, T) == (g, T)
  {}

  lemma IdleIsClear(g: Shared, t: Tid, T: Thread)
    requires ThreadOk(g, t, T) && T.act.Idle?
    ensures T.stack == [] && T.rd.NoRdcss? && T.rh.NoRHelp?
  {}

  lemma StaysOrEnds(g: Shared, t: Tid, T: Thread)
    requires ThreadOk(g, t, T) && T.act.Executing?
    ensures StepRun(g, t, T).1.act.Executing? || StepRun(g, t, T).1.act.Idle?
  {
    hide ThreadOk, StepRHelp, StepRdcss, StepFrame;
    RHelpStays(g, T);
    if T.stack != [] {
      if Top(T).pc.InRdcss? { RdcssStays(g, t, T); }
      FrameStaysOrEnds(g, t, T);
    }
  }

  lemma FrameStaysOrEnds(g: Shared, t: Tid, T: Thread)
    requires T.stack != []
    ensures StepFrame(g, t, T).1.act == T.act || StepFrame(g, t, T).1.act.Idle?
  {}

  lemma {:induction false} CallRun(s: System, run: Schedule, t: Tid, writes: seq<Write<int>>, es: seq<Entry>, n: nat)
    requires Inv(s) && Admissible(s, t, es) && WholeCall(run, t, writes, es, n)
    ensures var s1, k := RunFrom(s, run), KId(t, s.g.kslot[t].sn + 2); UnderWay(s1, t, k, es) || Reported(s1, t, k, es)
    decreases |run|
  {
    hide Inv, Step, Describes, UnderWay, Reported, Admissible;
    assert t in s.th && t in s.g.kslot by { AdmissibleThere(s, t, es); }
    var call := [Start] + Fills(writes) + [Execute];
    if n == 0 {
      assert call + seq(n, _ => Run) == call;
      PublishesDescription(s, run, t, writes, es);
    } else {
      OfLast(run, t);
      var m := |run| - 1;
      hide Of;
      assert call + seq(n, _ => Run) == (call + seq(n - 1, _ => Run)) + [Run];
      if run[m].0 == t { LastAction(call + seq(n - 1, _ => Run), Of(run[..m], t), Run, run[m].1); }
      CallRun(s, run[..m], t, writes, es, if run[m].0 == t then n - 1 else n);
      RunInv(s, run[..m]);
      CallStep(RunFrom(s, run[..m]), run[m].0, run[m].1, t, KId(t, s.g.kslot[t].sn + 2), es);
    }
  }

  lemma AdmissibleThere(s: System, t: Tid, es: seq<Entry>)
    requires Admissible(s, t, es)
    ensures t in s.th && t in s.g.kslot
  {}

  /** At step `m` all the words of `es` go from their old to their new values, and no other word changes for its users. */
  ghost predicate SwapAt(s: System, run: Schedule, m: nat, es: seq<Entry>) {
    && m < |run|
    && var g, g1 := RunFrom(s, run[..m]).g, RunFrom(s, run[..m + 1]).g;
    && (forall i :: 0 <= i < |es| ==> es[i].addr in g.mem && Logical(g, es[i].addr) == es[i].oldval && Logical(g1, es[i].addr) == es[i].newval)
    && (forall a :: a in g.mem && (forall i :: 0 <= i < |es| ==> es[i].addr != a) ==> Logical(g1, a) == Logical(g, a))
  }

  /** After `m` steps some word of `es` differs from its old value. */
  ghost predicate DiffersAt(s: System, run: Schedule, m: nat, es: seq<Entry>) {
    m <= |run| && exists i :: 0 <= i < |es| && Logical(RunFrom(s, run[..m]).g, es[i].addr) != es[i].oldval
  }

  /** After `m` steps `t` is in a call of execute. */
  ghost predicate During(s: System, run: Schedule, m: nat, t: Tid) {
    m <= |run| && t in RunFrom(s, run[..m]).th && RunFrom(s, run[..m]).th[t].act.Executing?
  }

  /** An undecided operation is being executed by its owner. */
  lemma UndecidedIsDuring(s: System, run: Schedule, m: nat, k: KId)
    requires Inv(s) && m <= |run| && k in RunFrom(s, run[..m]).g.kops && RunFrom(s, run[..m]).g.kops[k].st.Undecided?
    ensures During(s, run, m, k.tid)
  {
    hide RunFrom;
    RunInv(s, run[..m]);
    hide GInv, ThreadOk;
    assert OwnedBy(RunFrom(s, run[..m]).th, k);
  }

  lemma {:induction false} CommitsAt(s: System, run: Schedule, k: KId, n: nat) returns (m: nat)
    requires Inv(s) && n <= |run| && (k in s.g.kops ==> !s.g.kops[k].st.Succeeded?)
    requires k in RunFrom(s, run[..n]).g.kops && RunFrom(s, run[..n]).g.kops[k].st.Succeeded?
    ensures m < n && Commits(RunFrom(s, run[..m]).g, RunFrom(s, run[..m + 1]).g, k)
    decreases n
  {
    hide Inv, Step, Rely, Commits;
    assert n > 0;
    assert run[..n][..n - 1] == run[..n - 1];
    RunInv(s, run[..n - 1]);
    var before, after := RunFrom(s, run[..n - 1]), RunFrom(s, run[..n]);
    assert after == Step(before, run[n - 1].0, run[n - 1].1);
    if k in before.g.kops && before.g.kops[k].st.Succeeded? {
      m := CommitsAt(s, run, k, n - 1);
    } else {
      StepKeeps(before, run[n - 1].0, run[n - 1].1);
      CommitOf(before.g, after.g, k);
      m := n - 1;
    }
  }

  lemma CommitOf(g: Shared, g1: Shared, k: KId)
    requires AtomicStep(g, g1) && k in g1.kops && g1.kops[k].st.Succeeded? && !(k in g.kops && g.kops[k].st.Succeeded?)
    ensures Commits(g, g1, k)
  {}

  lemma CommitSwaps(s: System, run: Schedule, m: nat, k: KId, es: seq<Entry>)
    requires Inv(s) && m < |run| && Commits(RunFrom(s, run[..m]).g, RunFrom(s, run[..m + 1]).g, k) && RunFrom(s, run[..m]).g.kops[k].es == es
    ensures SwapAt(s, run, m, es)
  {
    hide Inv, RunFrom;
    RunInv(s, run[..m]);
    var g := RunFrom(s, run[..m]).g;
    EntriesInMem(RunFrom(s, run[..m]), k);
    forall a | a in g.mem && (forall i :: 0 <= i < |es| ==> es[i].addr != a) ensures !HasAddr(es, a) {}
  }

  lemma EntriesInMem(s: System, k: KId)
    requires Inv(s) && k in s.g.kops
    ensures forall i :: 0 <= i < |s.g.kops[k].es| ==> s.g.kops[k].es[i].addr in s.g.mem
  {
    KnownK(s.g, k);
  }

  lemma NotYet(s: System, t: Tid)
    requires Inv(s) && t in s.g.kslot
    ensures KId(t, s.g.kslot[t].sn + 2) !in s.g.kops
  {
    if KId(t, s.g.kslot[t].sn + 2) in s.g.kops { KnownK(s.g, KId(t, s.g.kslot[t].sn + 2)); }
  }

  lemma EntriesThen(s: System, run: Schedule, m: nat, k: KId)
    requires Inv(s) && m <= |run| && k in RunFrom(s, run[..m]).g.kops
    ensures k in RunFrom(s, run).g.kops && RunFrom(s, run[..m]).g.kops[k].es == RunFrom(s, run).g.kops[k].es
  {
    hide Inv, Step;
    RunInv(s, run[..m]);
    RunJoin(s, run[..m], run[m..]);
    assert run[..m] + run[m..] == run;
    SameEntries(RunFrom(s, run[..m]), run[m..], k);
  }

  /**
   * A call of execute, whatever other threads do: when it has returned, it has returned true and at one step of the
   * call all the words its caller named went from the named old to the named new values, and no other word changed;
   * or it has returned false and at some instant of the call one of the named words differed from its old value.
   */
  lemma ExecuteIsOneSwap(s: System, run: Schedule, t: Tid, writes: seq<Write<int>>, es: seq<Entry>, n: nat)
    requires Inv(s) && Admissible(s, t, es) && WholeCall(run, t, writes, es, n)
    ensures t in RunFrom(s, run).th
    ensures var T := RunFrom(s, run).th[t];
      T.act.Idle? ==>
        && T.res.Returned? && T.res.k == KId(t, s.g.kslot[t].sn + 2)
        && (T.res.ok ==> exists m: nat :: During(s, run, m, t) && SwapAt(s, run, m, es))
        && (!T.res.ok ==> exists m: nat :: During(s, run, m, t) && DiffersAt(s, run, m, es))
  {
    hide Inv, RunFrom, WholeCall, SwapAt, DiffersAt, During;
    var k := KId(t, s.g.kslot[t].sn + 2);
    CallRun(s, run, t, writes, es, n);
    NotYet(s, t);
    var s1 := RunFrom(s, run);
    RunInv(s, run);
    assert run[..|run|] == run;
    if s1.th[t].act.Idle? {
      if s1.g.kops[k].st.Succeeded? {
        var m := CommitsAt(s, run, k, |run|);
        EntriesThen(s, run, m, k);
        CommitSwaps(s, run, m, k, es);
        UndecidedIsDuring(s, run, m, k);
      } else {
        FailedMismatch(s1, k);
        var m := FailureIsJustified(s, run, k);
        EntriesThen(s, run, m, k);
        MismatchDiffers(s, run, m, k, es);
        UndecidedIsDuring(s, run, m, k);
      }
    }
  }

  lemma FailedMismatch(s: System, k: KId)
    requires Inv(s) && k in s.g.kops && s.g.kops[k].st.Failed?
    ensures s.g.kops[k].mismatch
  {
    KnownK(s.g, k);
  }

  lemma MismatchDiffers(s: System, run: Schedule, m: nat, k: KId, es: seq<Entry>)
    requires SawMismatchAt(s, run, k, m) && k in RunFrom(s, run[..m]).g.kops && RunFrom(s, run[..m]).g.kops[k].es == es
    ensures DiffersAt(s, run, m, es)
  {
    hide RunFrom;
  }

  // ---------------------------------------------------------------- a call that runs alone

  /** An operation just published is one `KcasAlone.ExecuteAlone` speaks of. */
  lemma PublishedIsAlone(s: System, t: Tid, k: KId, es: seq<Entry>)
    requires Inv(s) && JustPublished(s, t, k, es)
    ensures KcasAlone.Alone(s, t, k, es, Undecided, ReadState) && KcasAlone.Distinct(es)
  {
    InvThere(s, t);
    KnownK(s.g, k);
    hide Inv, GInv;
    assert FrameOk(s.g, t, s.th[t].stack[0]);
    var pay := s.g.kslot[t].pay;
    forall i: nat | i < |es| ensures EntryAt(pay, i) == es[i] { assert Decode(pay)[i] == EntryAt(pay, i); }
  }

  lemma InvThere(s: System, t: Tid)
    requires Inv(s) && t in s.th
    ensures GInv(s.g) && ThreadOk(s.g, t, s.th[t]) && t in s.g.rslot && |s.g.rslot[t].pay| == 5
  {}

  /** Every word of `es` held its old value, and has its new one; or one did not, and all are as they were. */
  ghost predicate SwapOf(m0: map<Addr, Word>, m: map<Addr, Word>, es: seq<Entry>, ok: bool) {
    && m.Keys == m0.Keys && (forall i :: 0 <= i < |es| ==> es[i].addr in m0 && m0[es[i].addr].Plain?)
    && (ok <==> forall i :: 0 <= i < |es| ==> m0[es[i].addr].v == es[i].oldval)
    && (forall i :: 0 <= i < |es| ==> m[es[i].addr] == Plain(if ok then es[i].newval else m0[es[i].addr].v))
    && forall a :: a in m0 && (forall i :: 0 <= i < |es| ==> es[i].addr != a) ==> m[a] == m0[a]
  }

  /** The call for `k` has returned, with such a swap of the words that were `m0`. */
  ghost predicate Returns(s: System, m0: map<Addr, Word>, t: Tid, k: KId, es: seq<Entry>) {
    t in s.th && s.th[t].act.Idle? && s.th[t].res.Returned? && s.th[t].res.k == k && SwapOf(m0, s.g.mem, es, s.th[t].res.ok)
  }

  lemma AloneReturns(s: System, t: Tid, k: KId, es: seq<Entry>) returns (n: nat)
    requires Inv(s) && JustPublished(s, t, k, es) && forall i :: 0 <= i < |es| ==> es[i].addr in s.g.mem && s.g.mem[es[i].addr].Plain?
    ensures Returns(KcasAlone.Go(s, t, n), s.g.mem, t, k, es)
  {
    hide Inv, KcasAlone.Go;
    PublishedIsAlone(s, t, k, es);
    hide KcasAlone.Alone, JustPublished;
    n := KcasAlone.ExecuteAlone(s, t, k, es);
  }

  lemma ExecuteKeepsMem(s: System, t: Tid)
    ensures Step(s, t, Execute).g.mem == s.g.mem
  {
    hide OpOk, Decode;
  }

  /** A described call that runs alone swaps the words its caller named exactly if all of them match, and says so. */
  lemma CallAlone(s: System, s0: System, t: Tid, writes: seq<Write<int>>, es: seq<Entry>) returns (n: nat)
    requires Inv(s0) && Stage(s, s0, t, writes, [Start] + Fills(writes)) && s.th[t].act.Idle? && Describes(writes, es) && 3 * |es| < |s.g.kslot[t].pay|
    requires (forall i, j :: 0 <= i < j < |es| ==> es[i].addr < es[j].addr) && forall i :: 0 <= i < |es| ==> es[i].addr in s0.g.mem && s0.g.mem[es[i].addr].Plain?
    ensures Returns(KcasAlone.Go(Step(s0, t, Execute), t, n), s0.g.mem, t, KId(t, s.g.kslot[t].sn + 2), es)
  {
    hide Step, Describes, Inv, Fills, Rely, AtomicStep, Returns, JustPublished, KcasAlone.Go;
    ExecuteStep(s, s0, t, writes, es);
    ExecuteKeepsMem(s0, t);
    StepKeeps(s0, t, Execute);
    n := AloneReturns(Step(s0, t, Execute), t, KId(t, s.g.kslot[t].sn + 2), es);
  }
}
