/**
 * Every step of LLX and SCX keeps the invariant; the theorems about every run, under any schedule.
 */
module ScxTheorems {
  import opened ScxModel
  import opened ScxInvariant
  import opened ScxEffects
  import opened ScxSteps

  // ---------------------------------------------------------------- one step of a thread

  ghost predicate OthersKept(g: Shared, g1: Shared, t: Tid) {
    forall u :: u in g.slots && u != t ==> SameSlot(g, g1, u)
  }

  ghost predicate GoodRun(g: Shared, t: Tid, r: (Shared, Thread)) {
    Keeps(g, r.0) && Lawful(g, r.0) && OthersKept(g, r.0, t) && ThreadOk(r.0, t, r.1)
  }

  lemma StutterIsLawful(g: Shared)
    ensures Rely(g, g) && Lawful(g, g)
  {
    RelyReflexive(g);
  }

  lemma LocalRun(g: Shared, t: Tid, T1: Thread)
    requires GInv(g) && ThreadOk(g, t, T1)
    ensures GoodRun(g, t, (g, T1))
  {
    hide GInv, Rely, Lawful;
    StutterIsLawful(g);
  }

  /** A handle read as decided or recycled is decided. */
  lemma ReadDecided(g: Shared, x: NodeId, h: Handle)
    requires GInv(g) && WasAt(g, x, h)
    ensures !StateOf(g, h).InProgress? ==> Decided(g, h)
    ensures StateOf(g, h).Aborted? ==> !Finalizes(g, h, x)
    ensures StateOf(g, h).InProgress? ==> h.Tag? && h.k.tid in g.slots
  {
    if h.Tag? { KnownOp(g, h.k); }
  }

  lemma LlxStep(g: Shared, t: Tid, T: Thread)
    requires GInv(g) && ThreadOk(g, t, T)
    requires T.pc.LlxMarked? || T.pc.LlxPtr? || T.pc.LlxState?
    ensures GoodRun(g, t, StepRun(g, t, T))
  {
    hide GInv, Rely, Lawful, LinkOk;
    var T1 := StepRun(g, t, T).1;
    var x := T.pc.x;
    KnownNode(g, x);
    if T.pc.LlxState? { ReadDecided(g, x, T.pc.h); }
    LocalRun(g, t, T1);
  }

  /** A committed SCX has marked every node it removes. */
  lemma FinalizerMarks(g: Shared, x: NodeId, h: Handle)
    requires GInv(g) && x in g.nodes && WasAt(g, x, h) && Finalizes(g, h, x)
    ensures g.nodes[x].marked
  {
    KnownOp(g, h.k);
    var i :| 0 <= i < |g.ops[h.k].d.es| && g.ops[h.k].d.es[i].fin && g.ops[h.k].d.es[i].n == x;
    assert MarkedBelow(g, h.k, |g.ops[h.k].d.es|);
  }

  /** A node not marked after its handle was found decided was not removed by that handle. */
  lemma UnmarkedSettles(g: Shared, x: NodeId, h: Handle)
    requires GInv(g) && x in g.nodes && WasAt(g, x, h) && Decided(g, h) && !g.nodes[x].marked
    ensures Settled(g, x, h)
  {
    if Finalizes(g, h, x) { FinalizerMarks(g, x, h); }
  }

  /** A marked node whose handle is decided is finalized. */
  lemma MarkedIsFinalized(g: Shared, x: NodeId)
    requires GInv(g) && x in g.nodes && g.nodes[x].marked && Decided(g, g.nodes[x].scxPtr)
    ensures FinalizedNode(g, x)
  {
    KnownNode(g, x);
    KnownOp(g, g.nodes[x].scxPtr.k);
  }

  lemma LlxMarked2Step(g: Shared, t: Tid, T: Thread)
    requires GInv(g) && ThreadOk(g, t, T) && T.pc.LlxMarked2?
    ensures GoodRun(g, t, StepRun(g, t, T))
  {
    hide GInv, Rely, Lawful, LinkOk;
    var x, h := T.pc.x, T.pc.h;
    if !g.nodes[x].marked { UnmarkedSettles(g, x, h); }
    if T.pc.m { MarkedIsFinalized(g, x); }
    LocalRun(g, t, StepRun(g, t, T).1);
  }

  lemma LlxCopyStep(g: Shared, t: Tid, T: Thread)
    requires GInv(g) && ThreadOk(g, t, T) && T.pc.LlxCopy?
    ensures GoodRun(g, t, StepRun(g, t, T))
  {
    hide GInv, Rely, Lawful;
    var x, h := T.pc.x, T.pc.h;
    KnownNode(g, x);
    if g.nodes[x].scxPtr == h { UnmarkedIfSettled(g, x, h); }
    LocalRun(g, t, StepRun(g, t, T).1);
  }

  lemma LlxHelpStep(g: Shared, t: Tid, T: Thread)
    requires GInv(g) && ThreadOk(g, t, T) && T.pc.LlxHelp?
    ensures GoodRun(g, t, StepRun(g, t, T))
  {
    hide GInv, Rely, Lawful, StepHelp, LinkOk, ResOk, FrameOk;
    var x, m, f := T.pc.x, T.pc.m, T.pc.f;
    HelpKeeps(g, t, f);
    var (g1, out) := StepHelp(g, f);
    LinksAndResultStable(g, g1, t, T);
    RelyNode(g, g1, x);
    SawMarkStable(g, g1, x, m, Tag(f.k));
    if out.Done? && m { MarkedIsFinalized(g1, x); }
    ResAfter(g1, t, T, x, m);
  }

  lemma ResAfter(g: Shared, t: Tid, T: Thread, x: NodeId, m: bool)
    ensures ResOk(g, t, T) ==> forall pc :: ResOk(g, t, T.(pc := pc))
    ensures (m ==> FinalizedNode(g, x)) ==> ResOk(g, t, T.(pc := Idle, res := LlxFail(x, m)))
  {}

  lemma ExecStep(g: Shared, t: Tid, T: Thread)
    requires GInv(g) && ThreadOk(g, t, T) && T.pc.Exec?
    ensures GoodRun(g, t, StepRun(g, t, T))
  {
    hide GInv, Rely, Lawful, StepHelp, LinkOk, ResOk;
    var f := T.pc.f;
    HelpKeeps(g, t, f);
    var (g1, out) := StepHelp(g, f);
    LinksAndResultStable(g, g1, t, T);
    ResAfter(g1, t, T, 0, false);
  }

  lemma ExecNewStep(g: Shared, t: Tid, T: Thread)
    requires GInv(g) && ThreadOk(g, t, T) && T.pc.ExecNew?
    ensures GoodRun(g, t, StepRun(g, t, T))
  {
    hide GInv, Rely;
    var g1 := NewSlot(g, t);
    forall k | k in g.ops && k.tid == t ensures k.sn < g.slots[t].sn + 1 && !g.ops[k].st.InProgress? {
      KnownOp(g, k);
    }
    SlotEffect(g, t, g1.slots[t]);
    LinksAndResultStable(g, g1, t, T);
    RelyOp(g, g1, T.pc.k);
    assert SameFields(g, g1);
  }

  lemma RunStep(g: Shared, t: Tid, T: Thread)
    requires GInv(g) && ThreadOk(g, t, T)
    ensures GoodRun(g, t, StepRun(g, t, T))
  {
    hide GInv, GoodRun, ThreadOk;
    match T.pc
    case Idle => LocalRun(g, t, T);
    case LlxMarked(_) => LlxStep(g, t, T);
    case LlxPtr(_, _) => LlxStep(g, t, T);
    case LlxState(_, _, _) => LlxStep(g, t, T);
    case LlxMarked2(_, _, _) => LlxMarked2Step(g, t, T);
    case LlxCopy(_, _, _, _) => LlxCopyStep(g, t, T);
    case LlxHelp(_, _, _) => LlxHelpStep(g, t, T);
    case Exec(_) => ExecStep(g, t, T);
    case ExecNew(_, _) => ExecNewStep(g, t, T);
  }

  // ---------------------------------------------------------------- every run

  lemma InitialOk(s: System)
    requires Initial(s)
    ensures Inv(s)
  {}

  ghost predicate GoodStep(s: System, s1: System) {
    Inv(s1) && Rely(s.g, s1.g) && Lawful(s.g, s1.g)
  }

  /** A step of `t` that is good for `t` is good for everyone. */
  lemma OthersFollow(s: System, t: Tid, s1: System)
    requires Inv(s) && t in s.th && s1.th.Keys == s.th.Keys && (forall u :: u in s.th && u != t ==> s1.th[u] == s.th[u])
    requires GoodRun(s.g, t, (s1.g, s1.th[t]))
    ensures GoodStep(s, s1)
  {
    hide GInv, Rely, Lawful, ThreadOk;
    assert s1.g.slots.Keys == s.g.slots.Keys by { RelySlots(s.g, s1.g); }
    forall u | u in s1.th ensures ThreadOk(s1.g, u, s1.th[u]) {
      if u != t { ThreadStable(s.g, s1.g, u, s.th[u]); }
    }
  }

  lemma RelySlots(g: Shared, g1: Shared)
    requires Rely(g, g1)
    ensures g1.slots.Keys == g.slots.Keys
  {}

  lemma NoCurrent(g: Shared, t: Tid, T: Thread)
    requires GInv(g) && ThreadOk(g, t, T) && T.pc.Idle?
    ensures forall k :: k in g.ops && k.tid == t ==> k.sn < g.slots[t].sn && !g.ops[k].st.InProgress?
  {
    forall k | k in g.ops && k.tid == t ensures k.sn < g.slots[t].sn && !g.ops[k].st.InProgress? {
      KnownOp(g, k);
      assert k != OpId(t, g.slots[t].sn);
    }
  }

  lemma FillKeeps(g: Shared, t: Tid, T: Thread, slot: Slot)
    requires GInv(g) && ThreadOk(g, t, T) && T.pc.Idle?
    requires slot == g.slots[t].(pay := slot.pay)
    ensures GoodRun(g, t, (g.(slots := g.slots[t := slot]), T))
  {
    hide GInv, Rely;
    var g1 := g.(slots := g.slots[t := slot]);
    NoCurrent(g, t, T);
    SlotEffect(g, t, slot);
    LinksAndResultStable(g, g1, t, T);
    assert SameFields(g, g1);
  }

  lemma ExecuteKeeps(g: Shared, t: Tid, T: Thread)
    requires GInv(g) && ThreadOk(g, t, T) && T.pc.Idle? && Usable(g, T, Decode(g.slots[t].pay))
    ensures GoodRun(g, t, (Publish(g, t, Snaps(T, Decode(g.slots[t].pay))),
                           T.(pc := Exec(Frame(OpId(t, g.slots[t].sn + 1), true, [], Freeze(0))))))
  {
    hide GInv, Rely, Usable, LinkOk, ResOk;
    var g1 := Publish(g, t, Snaps(T, Decode(g.slots[t].pay)));
    assert LinksOk(g, T);
    PublishEffect(g, t, T);
    LinksAndResultStable(g, g1, t, T);
    ResAfter(g1, t, T, 0, false);
    assert SameFields(g, g1);
    ExecuteFrame(g1, t, OpId(t, g.slots[t].sn + 1));
  }

  lemma ExecuteFrame(g: Shared, t: Tid, k: OpId)
    requires k in g.ops && k.tid == t && t in g.slots && g.slots[t].sn == k.sn
    ensures FrameOk(g, t, Frame(k, true, [], Freeze(0)))
  {}

  lemma NewNodeKeeps(g: Shared, t: Tid, T: Thread, x: NodeId, vals: seq<Val>)
    requires GInv(g) && ThreadOk(g, t, T) && x !in g.nodes
    ensures GoodRun(g, t, (g.(nodes := g.nodes[x := FreshNode(vals)]), T))
  {
    hide GInv, Rely, PcOk, ResOk, LinkOk;
    var n := FreshNode(vals);
    var g1 := g.(nodes := g.nodes[x := n]);
    NewNodeEffect(g, x, n);
    ThreadStable(g, g1, t, T);
    assert SameFields(g, g1);
  }

  lemma ClientKeeps(s: System, t: Tid, a: Action)
    requires GInv(s.g) && t in s.th && t in s.g.slots && ThreadOk(s.g, t, s.th[t]) && Step(s, t, a) != s
    requires a.NewNode? || a.Fill? || a.Llx?
    ensures GoodRun(s.g, t, (Step(s, t, a).g, Step(s, t, a).th[t]))
  {
    hide GInv, GoodRun, StepRun, ThreadOk, Usable, Decode, FreshNode;
    var g, T := s.g, s.th[t];
    match a
    case NewNode(x, vals) => NewNodeKeeps(g, t, T, x, vals);
    case Fill(c, w) => FillKeeps(g, t, T, g.slots[t].(pay := g.slots[t].pay[c := w]));
    case Llx(x) => LlxCallKeeps(g, t, T, x);
  }

  lemma ActionKeeps(s: System, t: Tid, a: Action)
    requires GInv(s.g) && t in s.th && t in s.g.slots && ThreadOk(s.g, t, s.th[t]) && Step(s, t, a) != s
    ensures GoodRun(s.g, t, (Step(s, t, a).g, Step(s, t, a).th[t]))
  {
    hide GInv, GoodRun, StepRun, ThreadOk, Usable, Decode, Snaps, FreshNode, Publish;
    var g, T := s.g, s.th[t];
    match a
    case Execute => ExecuteKeeps(g, t, T);
    case Run =>
      RunStep(g, t, T);
      assert StepRun(g, t, T) == (Step(s, t, a).g, Step(s, t, a).th[t]);
    case _ => ClientKeeps(s, t, a);
  }

  lemma StepKeeps(s: System, t: Tid, a: Action)
    requires Inv(s)
    ensures GoodStep(s, Step(s, t, a))
  {
    hide GInv, Rely, Lawful, GoodRun, StepRun, ThreadOk, Usable;
    StutterIsLawful(s.g);
    if t in s.th && Step(s, t, a) != s {
      assert t in s.g.slots;
      ActionKeeps(s, t, a);
      OthersFollow(s, t, Step(s, t, a));
    }
  }

  lemma LlxCallKeeps(g: Shared, t: Tid, T: Thread, x: NodeId)
    requires GInv(g) && ThreadOk(g, t, T) && T.pc.Idle? && x in g.nodes
    ensures GoodRun(g, t, (g, T.(pc := LlxMarked(x))))
  {
    hide GInv, LinkOk;
    LocalRun(g, t, T.(pc := LlxMarked(x)));
  }

  lemma {:induction false} RunInv(s: System, sched: Schedule)
    requires Inv(s)
    ensures Inv(RunFrom(s, sched))
    decreases |sched|
  {
    hide Inv, Step;
    if sched != [] {
      RunInv(s, sched[..|sched| - 1]);
      StepKeeps(RunFrom(s, sched[..|sched| - 1]), sched[|sched| - 1].0, sched[|sched| - 1].1);
    }
  }

  // ---------------------------------------------------------------- theorems

  /** In every run, every step obeys the laws of fields, freezing and allFrozen. */
  lemma EveryStepIsLawful(s: System, sched: Schedule, t: Tid, a: Action)
    requires Initial(s)
    ensures Lawful(RunFrom(s, sched).g, Step(RunFrom(s, sched), t, a).g)
  {
    InitialOk(s);
    RunInv(s, sched);
    StepKeeps(RunFrom(s, sched), t, a);
  }

  /** From allFrozen until COMMITTED, every listed node holds the tag; and a decision is never revised. */
  lemma HelpersAgree(s: System, sched: Schedule, more: Schedule, k: OpId)
    requires Initial(s) && k in RunFrom(s, sched).g.ops
    ensures var g := RunFrom(s, sched).g;
      && (g.ops[k].allFrozen && !g.ops[k].st.Committed? ==> HeldByAll(g, k))
      && (g.ops[k].allFrozen ==> !g.ops[k].st.Aborted?)
    ensures var g, g1 := RunFrom(s, sched).g, RunFrom(RunFrom(s, sched), more).g;
      k in g1.ops && (!g.ops[k].st.InProgress? ==> g1.ops[k].st == g.ops[k].st)
  {
    InitialOk(s);
    RunInv(s, sched);
    var g := RunFrom(s, sched).g;
    KnownOp(g, k);
    forall i | 0 <= i < |g.ops[k].d.es| ensures g.ops[k].st.InProgress? && g.ops[k].allFrozen ==> PtrAt(g, g.ops[k].d.es[i].n) == Tag(k) {
      KnownEntry(g, k, i);
    }
    DecisionStays(RunFrom(s, sched), more, k);
  }

  lemma {:induction false} DecisionStays(s: System, sched: Schedule, k: OpId)
    requires Inv(s) && k in s.g.ops
    ensures var g1 := RunFrom(s, sched).g; k in g1.ops && (!s.g.ops[k].st.InProgress? ==> g1.ops[k].st == s.g.ops[k].st)
    decreases |sched|
  {
    hide Inv, Step;
    if sched != [] {
      var before := RunFrom(s, sched[..|sched| - 1]);
      DecisionStays(s, sched[..|sched| - 1], k);
      RunInv(s, sched[..|sched| - 1]);
      StepKeeps(before, sched[|sched| - 1].0, sched[|sched| - 1].1);
      RelyOp(before.g, RunFrom(s, sched).g, k);
    }
  }

  /** How many steps of a run are the effect of `k`. */
  ghost function Effects(s: System, sched: Schedule, k: OpId): nat
    decreases |sched|
  {
    if sched == [] then 0
    else
      var before := RunFrom(s, sched[..|sched| - 1]);
      Effects(s, sched[..|sched| - 1], k) + (if TakesEffect(before.g, RunFrom(s, sched).g, k) then 1 else 0)
  }

  /** In every run an SCX takes effect at most once: exactly once if it is committed, never if it is aborted. */
  lemma {:induction false} TakesEffectOnce(s: System, sched: Schedule, k: OpId)
    requires Initial(s)
    ensures var g := RunFrom(s, sched).g;
      && Effects(s, sched, k) == (if k in g.ops && g.ops[k].updated then 1 else 0)
      && (k in g.ops && g.ops[k].st.Committed? ==> Effects(s, sched, k) == 1)
      && (k in g.ops && g.ops[k].st.Aborted? ==> Effects(s, sched, k) == 0)
    decreases |sched|
  {
    InitialOk(s);
    RunInv(s, sched);
    if k in RunFrom(s, sched).g.ops { KnownOp(RunFrom(s, sched).g, k); }
    if sched != [] {
      var before, after := RunFrom(s, sched[..|sched| - 1]), RunFrom(s, sched);
      TakesEffectOnce(s, sched[..|sched| - 1], k);
      RunInv(s, sched[..|sched| - 1]);
      hide Inv, Step, Initial;
      StepKeeps(before, sched[|sched| - 1].0, sched[|sched| - 1].1);
      EffectFlips(before.g, after.g, k);
    }
  }

  lemma EffectFlips(g: Shared, g1: Shared, k: OpId)
    requires Rely(g, g1) && FieldStep(g, g1)
    ensures TakesEffect(g, g1, k) <==> k in g1.ops && g1.ops[k].updated && !(k in g.ops && g.ops[k].updated)
    ensures k in g.ops && g.ops[k].updated ==> k in g1.ops && g1.ops[k].updated
  {
    if k in g.ops { RelyOp(g, g1, k); }
  }

  /** What `scxExecute` returned is the fate of its operation. */
  lemma ExecuteOutcome(s: System, sched: Schedule, t: Tid)
    requires Initial(s)
    ensures var s1 := RunFrom(s, sched);
      t in s1.th && s1.th[t].res.Executed? ==>
        var k := s1.th[t].res.k;
        k in s1.g.ops && !s1.g.ops[k].st.InProgress? && (s1.th[t].res.ok <==> s1.g.ops[k].st.Committed?)
  {
    InitialOk(s);
    RunInv(s, sched);
    var s1 := RunFrom(s, sched);
    if t in s1.th { assert ThreadOk(s1.g, t, s1.th[t]); }
  }

  /**
   * LLX returns an atomic snapshot: at the step at which it succeeds, the values it copied one at a
   * time are all the node's values at that instant, and the node is not marked. Until scxPtr of the
   * node changes, they go on being the node's values.
   */
  lemma LlxIsAtomic(s: System, sched: Schedule, t: Tid)
    requires Initial(s) && t in RunFrom(s, sched).th && RunFrom(s, sched).th[t].pc.LlxCopy?
    ensures var s1 := RunFrom(s, sched);
            var x, h := s1.th[t].pc.x, s1.th[t].pc.h;
            var s2 := Step(s1, t, Run);
            s2.th[t].pc.Idle? && s2.th[t].res == Linked(x) ==>
              x in s2.g.nodes && x in s2.th[t].links && s2.th[t].links[x] == Link(h, s2.g.nodes[x].vals) && !s2.g.nodes[x].marked
  {
    hide Initial, GInv, RunFrom, FrameOk, ResOk;
    InitialOk(s);
    RunInv(s, sched);
    var s1 := RunFrom(s, sched);
    assert ThreadOk(s1.g, t, s1.th[t]);
    var x, h := s1.th[t].pc.x, s1.th[t].pc.h;
    if s1.g.nodes[x].scxPtr == h { UnmarkedIfSettled(s1.g, x, h); }
    else { assert !Step(s1, t, Run).th[t].pc.Idle? || Step(s1, t, Run).th[t].res == LlxFail(x, s1.th[t].pc.m); }
  }

  lemma LinksStayCurrent(s: System, sched: Schedule, t: Tid, x: NodeId)
    requires Initial(s) && t in RunFrom(s, sched).th && x in RunFrom(s, sched).th[t].links
    ensures var s1 := RunFrom(s, sched);
            x in s1.g.nodes && (s1.g.nodes[x].scxPtr == s1.th[t].links[x].h ==> s1.g.nodes[x].vals == s1.th[t].links[x].vals)
  {
    InitialOk(s);
    RunInv(s, sched);
    var s1 := RunFrom(s, sched);
    assert ThreadOk(s1.g, t, s1.th[t]);
    assert LinkOk(s1.g, x, s1.th[t].links[x]);
  }

  /** LLX answers FINALIZED only for a node that a committed SCX has removed. */
  lemma FinalizedIsTrue(s: System, sched: Schedule, t: Tid)
    requires Initial(s) && t in RunFrom(s, sched).th && RunFrom(s, sched).th[t].res.LlxFinalized?
    ensures FinalizedNode(RunFrom(s, sched).g, RunFrom(s, sched).th[t].res.x)
  {
    InitialOk(s);
    RunInv(s, sched);
    assert ThreadOk(RunFrom(s, sched).g, t, RunFrom(s, sched).th[t]);
  }

  /** A finalized node is frozen and unchanged for ever. */
  lemma {:induction false} FinalizedForEver(s: System, sched: Schedule, x: NodeId)
    requires Inv(s) && FinalizedNode(s.g, x)
    ensures var g1 := RunFrom(s, sched).g;
            FinalizedNode(g1, x) && g1.nodes[x].vals == s.g.nodes[x].vals && g1.nodes[x].scxPtr == s.g.nodes[x].scxPtr
    decreases |sched|
  {
    hide Inv, Step;
    if sched != [] {
      var before := RunFrom(s, sched[..|sched| - 1]);
      FinalizedForEver(s, sched[..|sched| - 1], x);
      RunInv(s, sched[..|sched| - 1]);
      StepKeeps(before, sched[|sched| - 1].0, sched[|sched| - 1].1);
      FinalizedStable(before.g, RunFrom(s, sched).g, x);
    }
  }

  /** A committed SCX has finalized every node it was asked to. */
  lemma CommittedFinalizes(s: System, sched: Schedule, k: OpId, i: nat)
    requires Initial(s) && k in RunFrom(s, sched).g.ops && RunFrom(s, sched).g.ops[k].st.Committed?
    requires i < |RunFrom(s, sched).g.ops[k].d.es| && RunFrom(s, sched).g.ops[k].d.es[i].fin
    ensures FinalizedNode(RunFrom(s, sched).g, RunFrom(s, sched).g.ops[k].d.es[i].n)
  {
    InitialOk(s);
    RunInv(s, sched);
    var g := RunFrom(s, sched).g;
    KnownOp(g, k);
    assert MarkedBelow(g, k, |g.ops[k].d.es|);
    assert MarkedFor(g, k, g.ops[k].d.es[i].n);
  }

  /** A helper's copy of a record, once its sequence check has passed, is word for word the published record. */
  lemma CopiesAreUntorn(s: System, sched: Schedule, t: Tid)
    requires Initial(s) && t in RunFrom(s, sched).th
    ensures var s1 := RunFrom(s, sched);
      s1.th[t].pc.LlxHelp? && !s1.th[t].pc.f.hp.Copy? ==>
        s1.th[t].pc.f.k in s1.g.ops && s1.th[t].pc.f.buf == s1.g.ops[s1.th[t].pc.f.k].pay
  {
    InitialOk(s);
    RunInv(s, sched);
    assert ThreadOk(RunFrom(s, sched).g, t, RunFrom(s, sched).th[t]);
  }
}
