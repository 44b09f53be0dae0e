/**
 * LLX and SCX as their callers see them: what the words written into a record make of `scxExecute`, which nodes it
 * finalizes, and what both report when they return.
 */
module ScxCalls {
  import opened DescriptorWords
  import opened ScxModel
  import opened ScxInvariant
  import opened ScxEffects
  import opened ScxSteps
  import opened ScxTheorems
  import opened ScxAborts

  // ---------------------------------------------------------------- the words of a record

  /** The writes of `t` to its record that took place: those made outside of calls. */
  ghost function Writes(s: System, run: Schedule, t: Tid): seq<Write<Word>>
    decreases |run|
  {
    if run == [] then [] else
    var before, last := RunFrom(s, run[..|run| - 1]), run[|run| - 1];
    Writes(s, run[..|run| - 1], t) + if last.0 == t && last.1.Fill? && t in before.th && before.th[t].pc.Idle? then [(last.1.c, last.1.w)] else []
  }

  /** The words written are old and new value, the field, the number of nodes, and node, flag and handle of each. */
  ghost predicate Describes(writes: seq<Write<Word>>, d: Desc) {
    && LastWrite(writes, 0, WVal(d.oldv)) && LastWrite(writes, 1, WVal(d.newv)) && LastWrite(writes, 2, WField(d.fn, d.ix)) && LastWrite(writes, 3, WCount(|d.es|))
    && forall i: nat :: i < |d.es| ==> DescribesEntry(writes, i, d.es[i])
  }

  ghost predicate DescribesEntry(writes: seq<Write<Word>>, i: nat, e: Entry) {
    LastWrite(writes, 3 * i + 4, WNode(e.n)) && LastWrite(writes, 3 * i + 5, WFlag(e.fin)) && LastWrite(writes, 3 * i + 6, WHandle(e.seen))
  }

  /** Decoding gives back the record that was described. */
  lemma DecodesDescription(pay: seq<Word>, writes: seq<Write<Word>>, d: Desc)
    requires Describes(writes, d) && 3 * |d.es| + 3 < |pay|
    ensures Decode(Written(pay, writes)) == d
  {
    var p := Written(pay, writes);
    LastIsWritten(pay, writes, 0, WVal(d.oldv));
    LastIsWritten(pay, writes, 1, WVal(d.newv));
    LastIsWritten(pay, writes, 2, WField(d.fn, d.ix));
    LastIsWritten(pay, writes, 3, WCount(|d.es|));
    hide Describes, Written, LastWrite;
    forall i: nat | i < |d.es| ensures EntryAt(p, i) == d.es[i] { DecodesEntry(pay, writes, d, i); }
    hide EntryAt;
    assert Decode(p).es == d.es;
  }

  lemma DecodesEntry(pay: seq<Word>, writes: seq<Write<Word>>, d: Desc, i: nat)
    requires Describes(writes, d) && i < |d.es| && 3 * |d.es| + 3 < |pay|
    ensures EntryAt(Written(pay, writes), i) == d.es[i]
  {
    assert DescribesEntry(writes, i, d.es[i]);
    hide LastWrite, Written, Describes;
    LastIsWritten(pay, writes, 3 * i + 4, WNode(d.es[i].n));
    LastIsWritten(pay, writes, 3 * i + 5, WFlag(d.es[i].fin));
    LastIsWritten(pay, writes, 3 * i + 6, WHandle(d.es[i].seen));
  }

  // ---------------------------------------------------------------- only the owner writes

  lemma HelpKeepsWords(g: Shared, f: Frame, t: Tid)
    requires t in g.slots
    ensures t in StepHelp(g, f).0.slots && StepHelp(g, f).0.slots[t].pay == g.slots[t].pay
  {
    hide Decode;
  }

  lemma RunKeepsWords(g: Shared, u: Tid, T: Thread, t: Tid)
    requires t in g.slots
    ensures t in StepRun(g, u, T).0.slots && StepRun(g, u, T).0.slots[t].pay == g.slots[t].pay
  {
    hide StepHelp, StateOf;
    if T.pc.LlxHelp? || T.pc.Exec? { HelpKeepsWords(g, T.pc.f, t); }
  }

  lemma WordsStep(s: System, u: Tid, a: Action, t: Tid)
    requires t in s.g.slots
    ensures var s1, pay := Step(s, u, a), s.g.slots[t].pay;
      t in s1.g.slots && s1.g.slots[t].pay == if u == t && a.Fill? && t in s.th && s.th[t].pc.Idle? && a.c < |pay| then pay[a.c := a.w] else pay
  {
    hide StepRun, Usable, Decode, Snaps, FreshNode;
    if u in s.th { RunKeepsWords(s.g, u, s.th[u], t); }
  }

  /** The words of a record are those last written by its owner. */
  lemma {:induction false} WordsAreWrites(s: System, run: Schedule, t: Tid)
    requires t in s.g.slots
    ensures t in RunFrom(s, run).g.slots && RunFrom(s, run).g.slots[t].pay == Written(s.g.slots[t].pay, Writes(s, run, t))
    decreases |run|
  {
    hide Step, Written;
    if run == [] {
      assert Written(s.g.slots[t].pay, []) == s.g.slots[t].pay by { WrittenNone(s.g.slots[t].pay); }
    } else {
      var n := |run| - 1;
      var before, last := RunFrom(s, run[..n]), run[n];
      WordsAreWrites(s, run[..n], t);
      WordsStep(before, last.0, last.1, t);
      if last.1.Fill? { WrittenMore(s.g.slots[t].pay, Writes(s, run[..n], t), (last.1.c, last.1.w)); }
      assert Writes(s, run[..n], t) + [] == Writes(s, run[..n], t);
    }
  }

  /** The state after `run`, in which `t` is between calls and has described `d`, obeying the usage rule. */
  ghost predicate Ready(s: System, run: Schedule, t: Tid, d: Desc) {
    && t in s.g.slots && 3 * |d.es| + 3 < |s.g.slots[t].pay| && Describes(Writes(s, run, t), d)
    && t in RunFrom(s, run).th && RunFrom(s, run).th[t].pc.Idle? && Usable(RunFrom(s, run).g, RunFrom(s, run).th[t], d)
  }

  /** The operation `t` publishes next. */
  function NextOp(s: System, t: Tid): OpId {
    OpId(t, SlotAt(s.g, t).sn + 1)
  }

  /** `k` has been published with the record `d`, and `t` is at its start. */
  ghost predicate Published(s: System, t: Tid, k: OpId, d: Desc) {
    k in s.g.ops && s.g.ops[k].d == d && t in s.th && s.th[t].pc == Exec(Frame(k, true, [], Freeze(0)))
  }

  /** `scxExecute` publishes an operation with exactly the record described. */
  lemma PublishesDescription(s: System, run: Schedule, t: Tid, d: Desc)
    requires Ready(s, run, t, d)
    ensures Published(Step(RunFrom(s, run), t, Execute), t, NextOp(RunFrom(s, run), t), d)
  {
    hide Usable, Step, RunFrom, Writes, Describes, Written, Decode;
    WordsAreWrites(s, run, t);
    DecodesDescription(s.g.slots[t].pay, Writes(s, run, t), d);
    ExecuteIs(RunFrom(s, run), t);
  }

  lemma ExecuteIs(s: System, t: Tid)
    requires t in s.th && t in s.g.slots && s.th[t].pc.Idle? && Usable(s.g, s.th[t], Decode(s.g.slots[t].pay))
    ensures Published(Step(s, t, Execute), t, NextOp(s, t), Decode(s.g.slots[t].pay))
  {
    hide Usable, Decode, Snaps;
  }

  // ---------------------------------------------------------------- which nodes are finalized

  /** `x` is marked and frozen for `k`. */
  ghost predicate FinalizedBy(g: Shared, k: OpId, x: NodeId) {
    x in g.nodes && g.nodes[x].marked && g.nodes[x].scxPtr == Tag(k)
  }

  /** Only nodes listed with the flag set are ever marked, and only for an SCX all of whose nodes are frozen. */
  lemma MarkedWasFlagged(s: System, sched: Schedule, x: NodeId)
    requires Initial(s) && x in RunFrom(s, sched).g.nodes && RunFrom(s, sched).g.nodes[x].marked
    ensures var g := RunFrom(s, sched).g; var h := g.nodes[x].scxPtr;
      h.Tag? && h.k in g.ops && g.ops[h.k].allFrozen && exists i :: 0 <= i < |g.ops[h.k].d.es| && g.ops[h.k].d.es[i].fin && g.ops[h.k].d.es[i].n == x
  {
    InitialOk(s);
    RunInv(s, sched);
    hide Inv, RunFrom, Initial;
    InvShared(RunFrom(s, sched));
    KnownNode(RunFrom(s, sched).g, x);
  }

  lemma InvShared(s: System)
    requires Inv(s)
    ensures GInv(s.g) && s.g.slots.Keys == s.th.Keys && forall t :: t in s.th ==> ThreadOk(s.g, t, s.th[t])
  {}

  /** A COMMITTED SCX has finalized node `i` of its list if and only if the flag for it was set. */
  lemma FinalizesExactly(s: System, sched: Schedule, k: OpId, i: nat)
    requires Initial(s) && k in RunFrom(s, sched).g.ops && RunFrom(s, sched).g.ops[k].st.Committed? && i < |RunFrom(s, sched).g.ops[k].d.es|
    ensures var g := RunFrom(s, sched).g; FinalizedBy(g, k, g.ops[k].d.es[i].n) <==> g.ops[k].d.es[i].fin
  {
    InitialOk(s);
    RunInv(s, sched);
    hide RunFrom, Initial;
    var g := RunFrom(s, sched).g;
    InvShared(RunFrom(s, sched));
    KnownOp(g, k);
    var x := g.ops[k].d.es[i].n;
    KnownNode(g, x);
    hide Inv, GInv;
    if g.ops[k].d.es[i].fin { assert MarkedFor(g, k, x); }
    if FinalizedBy(g, k, x) {
      var j :| 0 <= j < |g.ops[k].d.es| && g.ops[k].d.es[j].fin && g.ops[k].d.es[j].n == x;
    }
  }

  // ---------------------------------------------------------------- what calls report

  predicate InLlx(pc: Pc) { pc.LlxMarked? || pc.LlxPtr? || pc.LlxState? || pc.LlxMarked2? || pc.LlxCopy? || pc.LlxHelp? }

  /** What the LLX has read of `marked` in its first step. */
  predicate SawMarked(pc: Pc) {
    (pc.LlxPtr? || pc.LlxState? || pc.LlxMarked2? || pc.LlxCopy? || pc.LlxHelp?) && pc.m
  }

  /** A step leaves an LLX on the same node, with what it has first read, or ends it with a report about that node. */
  lemma LlxGoesOn(s: System, u: Tid, a: Action, t: Tid)
    requires Inv(s) && t in s.th && InLlx(s.th[t].pc) && t in Step(s, u, a).th && !Step(s, u, a).th[t].pc.Idle?
    ensures var pc, pc1 := s.th[t].pc, Step(s, u, a).th[t].pc;
      InLlx(pc1) && pc1.x == pc.x && (!pc.LlxMarked? ==> SawMarked(pc1) == SawMarked(pc))
    ensures var pc, pc1 := s.th[t].pc, Step(s, u, a).th[t].pc;
      pc.LlxMarked? && pc1 != pc ==> (SawMarked(pc1) <==> pc.x in s.g.nodes && s.g.nodes[pc.x].marked)
  {
    hide Inv, StepHelp, StateOf, Usable, Decode, Snaps, FreshNode;
  }

  /**
   * An LLX that ends reports about its node: FINALIZED exactly if it first read the mark, and otherwise a snapshot,
   * which is the node's values and handle at this instant, or FAILED.
   */
  lemma LlxReports(s: System, u: Tid, a: Action, t: Tid)
    requires Inv(s) && t in s.th && InLlx(s.th[t].pc) && t in Step(s, u, a).th && Step(s, u, a).th[t].pc.Idle?
    ensures var x, T, g := s.th[t].pc.x, Step(s, u, a).th[t], Step(s, u, a).g;
      && (SawMarked(s.th[t].pc) ==> T.res == LlxFinalized(x) && FinalizedNode(g, x))
      && (!SawMarked(s.th[t].pc) ==> T.res == Linked(x) || T.res == LlxFailed(x))
      && (T.res == Linked(x) ==> x in g.nodes && !g.nodes[x].marked && x in T.links && T.links[x] == Link(g.nodes[x].scxPtr, g.nodes[x].vals))
      && (forall y :: y != x ==> (y in T.links <==> y in s.th[t].links) && (y in T.links ==> T.links[y] == s.th[t].links[y]))
  {
    hide Inv, Rely, Lawful, StepRun, Step, GInv, ThreadOk;
    StepKeeps(s, u, a);
    InvShared(s);
    InvShared(Step(s, u, a));
    OnlyRunEnds(s, u, a, t);
    LlxEnds(s.g, t, s.th[t]);
    FinalizedTrue(Step(s, u, a).g, t, Step(s, u, a).th[t]);
  }

  lemma OnlyRunEnds(s: System, u: Tid, a: Action, t: Tid)
    requires t in s.th && !s.th[t].pc.Idle? && t in Step(s, u, a).th && Step(s, u, a).th[t].pc.Idle?
    ensures u == t && a.Run? && Step(s, u, a).g == StepRun(s.g, t, s.th[t]).0 && Step(s, u, a).th[t] == StepRun(s.g, t, s.th[t]).1
  {
    hide StepRun, Usable, Decode, Snaps, FreshNode;
  }

  lemma FinalizedTrue(g: Shared, t: Tid, T: Thread)
    requires ThreadOk(g, t, T)
    ensures T.res.LlxFinalized? ==> FinalizedNode(g, T.res.x)
  {}

  lemma LlxEnds(g: Shared, t: Tid, T: Thread)
    requires GInv(g) && ThreadOk(g, t, T) && InLlx(T.pc) && StepRun(g, t, T).1.pc.Idle?
    ensures var x, T1, g1 := T.pc.x, StepRun(g, t, T).1, StepRun(g, t, T).0;
      && (SawMarked(T.pc) ==> T1.res == LlxFinalized(x))
      && (!SawMarked(T.pc) ==> T1.res == Linked(x) || T1.res == LlxFailed(x))
      && (T1.res == Linked(x) ==> x in g1.nodes && !g1.nodes[x].marked && T1.links == T.links[x := Link(g1.nodes[x].scxPtr, g1.nodes[x].vals)])
      && (T1.res != Linked(x) ==> T1.links == T.links)
  {
    hide GInv, FrameOk, LinkOk, ResOk, StepHelp;
    if T.pc.LlxCopy? && g.nodes[T.pc.x].scxPtr == T.pc.h {
      UnmarkedIfSettled(g, T.pc.x, T.pc.h);
      assert |T.pc.vals| == |g.nodes[T.pc.x].vals| ==> T.pc.vals == g.nodes[T.pc.x].vals;
    }
  }

  /** `scxExecute` of `k` is under way in `t`, or has returned the decision of `k`. */
  ghost predicate Executing(s: System, t: Tid, k: OpId) {
    t in s.th && k in s.g.ops && ((s.th[t].pc.Exec? && s.th[t].pc.f.k == k) || (s.th[t].pc.ExecNew? && s.th[t].pc.k == k))
  }

  ghost predicate Reported(s: System, t: Tid, k: OpId) {
    t in s.th && s.th[t].pc.Idle? && k in s.g.ops && !s.g.ops[k].st.InProgress? && s.th[t].res == Executed(k, s.g.ops[k].st.Committed?)
  }

  lemma CallStep(s: System, u: Tid, a: Action, t: Tid, k: OpId)
    requires Inv(s) && (Executing(s, t, k) || Reported(s, t, k)) && (u == t ==> a.Run?)
    ensures Executing(Step(s, u, a), t, k) || Reported(Step(s, u, a), t, k)
  {
    hide Inv, Rely, Lawful, Step;
    StepKeeps(s, u, a);
    RelyOp(s.g, Step(s, u, a).g, k);
    if u != t {
      OthersKeepThread(s, u, a, t);
    } else {
      OwnStep(s, t, k);
    }
  }

  lemma OwnStep(s: System, t: Tid, k: OpId)
    requires Inv(s) && (Executing(s, t, k) || Reported(s, t, k)) && k in Step(s, t, Run).g.ops
    requires !s.g.ops[k].st.InProgress? ==> Step(s, t, Run).g.ops[k].st == s.g.ops[k].st
    ensures Executing(Step(s, t, Run), t, k) || Reported(Step(s, t, Run), t, k)
  {
    hide GInv, Rely, Lawful, FrameOk, LinkOk, ResOk;
    InvShared(s);
    assert ThreadOk(s.g, t, s.th[t]);
    hide Inv;
    if s.th[t].pc.Exec? { HelpKeeps(s.g, t, s.th[t].pc.f); }
    RunOfCall(s, t);
    hide Step, StepHelp;
  }

  lemma OthersKeepThread(s: System, u: Tid, a: Action, t: Tid)
    requires t in s.th && u != t
    ensures t in Step(s, u, a).th && Step(s, u, a).th[t] == s.th[t]
  {
    hide StepRun, Usable, Decode, Snaps, FreshNode;
  }

  lemma RunOfCall(s: System, t: Tid)
    requires t in s.th && (s.th[t].pc.Exec? ==> match StepHelp(s.g, s.th[t].pc.f).1 case More(f1) => f1.k == s.th[t].pc.f.k case Done(_) => true)
    ensures var T, T1 := s.th[t], Step(s, t, Run).th[t];
      && (T.pc.Idle? ==> T1 == T)
      && (T.pc.ExecNew? ==> T1.pc.Idle? && T1.res == Executed(T.pc.k, T.pc.ok))
      && (T.pc.Exec? ==> (T1.pc.Exec? && T1.pc.f.k == T.pc.f.k) || (T1.pc.ExecNew? && T1.pc.k == T.pc.f.k))
  {
    hide StepHelp;
  }

  // ---------------------------------------------------------------- a whole call

  /** The steps of `t` are Run. */
  ghost predicate RunsOnly(more: Schedule, t: Tid) {
    forall i :: 0 <= i < |more| && more[i].0 == t ==> more[i].1 == Run
  }

  lemma {:induction false} CallRun(s: System, more: Schedule, t: Tid, k: OpId)
    requires Inv(s) && Executing(s, t, k) && RunsOnly(more, t)
    ensures Executing(RunFrom(s, more), t, k) || Reported(RunFrom(s, more), t, k)
    decreases |more|
  {
    hide Inv, Step, Executing, Reported;
    if more != [] {
      var n := |more| - 1;
      CallRun(s, more[..n], t, k);
      RunInv(s, more[..n]);
      CallStep(RunFrom(s, more[..n]), more[n].0, more[n].1, t, k);
    }
  }

  lemma {:induction false} RunJoin(s: System, a: Schedule, b: Schedule)
    ensures RunFrom(s, a + b) == RunFrom(RunFrom(s, a), b)
    decreases |b|
  {
    hide Step;
    if b == [] {
      assert a + b == a;
    } else {
      var n := |b| - 1;
      RunJoin(s, a, b[..n]);
      assert (a + b)[..|a + b| - 1] == a + b[..n];
    }
  }

  /** At step `m` of the run the field of `d` goes from its old to its new value, and no other field changes. */
  ghost predicate UpdateAt(s: System, sched: Schedule, m: nat, d: Desc) {
    && m < |sched|
    && var g, g1 := At(s, sched, m).g, At(s, sched, m + 1).g;
    && d.fn in g.nodes && d.fn in g1.nodes && d.ix < |g.nodes[d.fn].vals| && g.nodes[d.fn].vals[d.ix] == d.oldv
    && g1.nodes[d.fn].vals == g.nodes[d.fn].vals[d.ix := d.newv]
    && forall x :: x in g.nodes && x != d.fn ==> x in g1.nodes && g1.nodes[x].vals == g.nodes[x].vals
  }

  /** Step `m` of the run is the effect of `k`. */
  ghost predicate EffectAt(s: System, sched: Schedule, m: nat, k: OpId) {
    m < |sched| && TakesEffect(At(s, sched, m).g, At(s, sched, m + 1).g, k)
  }

  lemma {:induction false} UpdatedOnce(s: System, sched: Schedule, k: OpId, n: nat) returns (m: nat)
    requires Initial(s) && n <= |sched| && k in At(s, sched, n).g.ops && At(s, sched, n).g.ops[k].updated
    ensures m < n && EffectAt(s, sched, m, k)
    decreases n
  {
    hide Step, Inv, Rely, FreezeStep, FrozenStep;
    AtStart(s, sched);
    assert n > 0;
    AtNext(s, sched, n - 1);
    AtInv(s, sched, n - 1);
    hide At, Initial, TakesEffect;
    var before := At(s, sched, n - 1);
    if k in before.g.ops && before.g.ops[k].updated {
      m := UpdatedOnce(s, sched, k, n - 1);
    } else {
      StepKeeps(before, sched[n - 1].0, sched[n - 1].1);
      m := n - 1;
    }
  }

  lemma EffectUpdates(s: System, sched: Schedule, m: nat, k: OpId)
    requires Initial(s) && EffectAt(s, sched, m, k)
    ensures k in At(s, sched, |sched|).g.ops && UpdateAt(s, sched, m, At(s, sched, |sched|).g.ops[k].d)
  {
    hide At, Initial;
    FrozenGrows(s, sched, m, |sched|, k);
  }

  lemma {:induction false} UpdatedStays(s: System, sched: Schedule, m: nat, n: nat, k: OpId)
    requires Initial(s) && m <= n <= |sched| && k in At(s, sched, m).g.ops && At(s, sched, m).g.ops[k].updated
    ensures k in At(s, sched, n).g.ops && At(s, sched, n).g.ops[k].updated
    decreases n
  {
    hide Step, Inv, Rely, Lawful;
    if m < n {
      UpdatedStays(s, sched, m, n - 1, k);
      AtNext(s, sched, n - 1);
      AtInv(s, sched, n - 1);
      hide At, Initial;
      StepKeeps(At(s, sched, n - 1), sched[n - 1].0, sched[n - 1].1);
      RelyOp(At(s, sched, n - 1).g, At(s, sched, n).g, k);
    }
  }

  lemma AbortedHasNoEffect(s: System, sched: Schedule, m: nat, k: OpId)
    requires Initial(s) && k in At(s, sched, |sched|).g.ops && At(s, sched, |sched|).g.ops[k].st.Aborted?
    ensures !EffectAt(s, sched, m, k)
  {
    AtInv(s, sched, |sched|);
    hide At, Initial;
    InvShared(At(s, sched, |sched|));
    KnownOp(At(s, sched, |sched|).g, k);
    hide Inv, GInv;
    if EffectAt(s, sched, m, k) { UpdatedStays(s, sched, m + 1, |sched|, k); }
  }

  /** Some node of the list was frozen by another SCX after the LLX that gave the handle for it had returned. */
  ghost predicate Interfered(s: System, sched: Schedule, k: OpId, d: Desc) {
    exists i: nat, a: nat, m: nat, other ::
      i < |d.es| && other != k && a < m && GaveHandle(s, sched, a, k.tid, d.es[i].n, d.es[i].seen) && FrozenAt(s, sched, m, d.es[i].n, d.es[i].seen, other)
  }

  /**
   * A call of scxExecute for the record `d`, whatever other threads do: when it has returned, it has returned true,
   * the described field has gone from the described old to the described new value at one step of the run, with no
   * other field, and exactly the nodes with their flags set have been finalized for it; or it has returned false,
   * no step was its effect, and another SCX had interfered.
   */
  lemma ScxIsOneUpdate(s: System, run: Schedule, more: Schedule, t: Tid, d: Desc)
    requires Initial(s) && Ready(s, run, t, d) && RunsOnly(more, t)
    ensures t in RunFrom(s, run + [(t, Execute)] + more).th
    ensures var sched, k := run + [(t, Execute)] + more, NextOp(RunFrom(s, run), t); var s1 := RunFrom(s, sched);
      s1.th[t].pc.Idle? ==>
        && s1.th[t].res.Executed? && s1.th[t].res.k == k
        && (s1.th[t].res.ok ==> (exists m: nat :: UpdateAt(s, sched, m, d)) && forall i :: 0 <= i < |d.es| ==> (FinalizedBy(s1.g, k, d.es[i].n) <==> d.es[i].fin))
        && (!s1.th[t].res.ok ==> (forall m: nat :: !EffectAt(s, sched, m, k)) && Interfered(s, sched, k, d))
  {
    var sched, k := run + [(t, Execute)] + more, NextOp(RunFrom(s, run), t);
    var s1 := RunFrom(s, sched);
    assert At(s, sched, |sched|) == s1 by { assert sched[..|sched|] == sched; }
    InCall(s, run, more, t, d);
    hide RunFrom, At, Initial, Ready, UpdateAt, FinalizedBy, EffectAt, Interfered;
    if s1.th[t].pc.Idle? {
      if s1.g.ops[k].st.Committed? {
        Succeeds(s, sched, k, d);
      } else {
        forall m: nat ensures !EffectAt(s, sched, m, k) { AbortedHasNoEffect(s, sched, m, k); }
        Fails(s, sched, k, d);
      }
    }
  }

  lemma InCall(s: System, run: Schedule, more: Schedule, t: Tid, d: Desc)
    requires Initial(s) && Ready(s, run, t, d) && RunsOnly(more, t)
    ensures var s1, k := RunFrom(s, run + [(t, Execute)] + more), NextOp(RunFrom(s, run), t);
      (Executing(s1, t, k) || Reported(s1, t, k)) && k in s1.g.ops && s1.g.ops[k].d == d
  {
    var s0, k := RunFrom(s, run), NextOp(RunFrom(s, run), t);
    PublishesDescription(s, run, t, d);
    InitialOk(s);
    RunInv(s, run);
    RunJoin(s, run + [(t, Execute)], more);
    assert (run + [(t, Execute)])[..|run|] == run;
    var s2 := RunFrom(s, run + [(t, Execute)]);
    assert s2 == Step(s0, t, Execute);
    hide Step, Inv, Initial, Ready, RunFrom;
    RunInv(s, run + [(t, Execute)]);
    CallRun(s2, more, t, k);
    SameRecord(s2, more, k);
  }

  lemma {:induction false} SameRecord(s: System, more: Schedule, k: OpId)
    requires Inv(s) && k in s.g.ops
    ensures k in RunFrom(s, more).g.ops && RunFrom(s, more).g.ops[k].d == s.g.ops[k].d
    decreases |more|
  {
    hide Inv, Step, Rely, Lawful;
    if more != [] {
      var n := |more| - 1;
      SameRecord(s, more[..n], k);
      RunInv(s, more[..n]);
      StepKeeps(RunFrom(s, more[..n]), more[n].0, more[n].1);
      RelyOp(RunFrom(s, more[..n]).g, RunFrom(s, more).g, k);
    }
  }

  lemma Succeeds(s: System, sched: Schedule, k: OpId, d: Desc)
    requires Initial(s) && k in RunFrom(s, sched).g.ops && RunFrom(s, sched).g.ops[k].st.Committed? && RunFrom(s, sched).g.ops[k].d == d
    ensures (exists m: nat :: UpdateAt(s, sched, m, d)) && forall i :: 0 <= i < |d.es| ==> (FinalizedBy(RunFrom(s, sched).g, k, d.es[i].n) <==> d.es[i].fin)
  {
    assert At(s, sched, |sched|) == RunFrom(s, sched) by { assert sched[..|sched|] == sched; }
    hide RunFrom, At, Initial, UpdateAt, FinalizedBy;
    CommittedIsUpdated(s, sched, k);
    var m := UpdatedOnce(s, sched, k, |sched|);
    EffectUpdates(s, sched, m, k);
    forall i | 0 <= i < |d.es| ensures FinalizedBy(RunFrom(s, sched).g, k, d.es[i].n) <==> d.es[i].fin { FinalizesExactly(s, sched, k, i); }
  }

  lemma CommittedIsUpdated(s: System, sched: Schedule, k: OpId)
    requires Initial(s) && k in RunFrom(s, sched).g.ops && RunFrom(s, sched).g.ops[k].st.Committed?
    ensures RunFrom(s, sched).g.ops[k].updated
  {
    InitialOk(s);
    RunInv(s, sched);
    hide RunFrom;
    InvShared(RunFrom(s, sched));
    KnownOp(RunFrom(s, sched).g, k);
  }

  lemma Fails(s: System, sched: Schedule, k: OpId, d: Desc)
    requires Initial(s) && k in RunFrom(s, sched).g.ops && RunFrom(s, sched).g.ops[k].st.Aborted? && RunFrom(s, sched).g.ops[k].d == d
    ensures Interfered(s, sched, k, d)
  {
    hide RunFrom, At, Initial, GaveHandle, FrozenAt;
    var i, a, m, other := AbortedIsJustified(s, sched, k);
  }
}
