/**
 * LLX and SCX by a thread that runs alone: an LLX of a node that is not being changed returns its snapshot, and an
 * SCX whose handles are all current commits.
 */
module ScxAlone {
  import opened ScxModel
  import opened ScxInvariant
  import opened ScxSteps
  import opened ScxTheorems
  import opened ScxCalls

  /** `n` steps of thread `t`. */
  function Go(s: System, t: Tid, n: nat): System
    decreases n
  {
    if n == 0 then s else Go(Step(s, t, Run), t, n - 1)
  }

  lemma GoNone(s: System, t: Tid)
    ensures Go(s, t, 0) == s
  {}

  lemma GoFirst(s: System, t: Tid, n: nat)
    ensures Go(s, t, n + 1) == Go(Step(s, t, Run), t, n)
  {
    hide Step;
  }

  lemma {:induction false} GoJoin(s: System, t: Tid, m: nat, n: nat)
    ensures Go(Go(s, t, m), t, n) == Go(s, t, m + n)
    decreases m
  {
    hide Step;
    if m > 0 { GoJoin(Step(s, t, Run), t, m - 1, n); }
  }

  lemma {:induction false} GoInv(s: System, t: Tid, n: nat)
    requires Inv(s)
    ensures Inv(Go(s, t, n))
    decreases n
  {
    hide Inv, Step, Rely, Lawful;
    if n > 0 {
      StepKeeps(s, t, Run);
      GoInv(Step(s, t, Run), t, n - 1);
    }
  }

  lemma RunIs(s: System, t: Tid)
    requires t in s.th
    ensures Step(s, t, Run).g == StepRun(s.g, t, s.th[t]).0 && Step(s, t, Run).th == s.th[t := StepRun(s.g, t, s.th[t]).1]
  {
    hide StepRun;
  }

  // ---------------------------------------------------------------- LLX

  /** Nothing has changed but thread `t`. */
  ghost predicate Only(s: System, s1: System, t: Tid, T: Thread) {
    s1.g == s.g && s1.th == s.th[t := T]
  }

  lemma OnlyChain(s: System, s1: System, s2: System, t: Tid, T1: Thread, T: Thread)
    requires Only(s, s1, t, T1) && Only(s1, s2, t, T)
    ensures Only(s, s2, t, T)
  {}

  /** A step of an LLX that only moves on. */
  lemma Moves(s: System, t: Tid, T1: Thread)
    requires t in s.th && StepRun(s.g, t, s.th[t]) == (s.g, T1)
    ensures Only(s, Step(s, t, Run), t, T1)
  {
    RunIs(s, t);
    hide Step, StepRun;
  }

  /** The copy of a node's fields, and the last look at its handle. */
  lemma {:induction false} CopyAlone(s: System, t: Tid, x: NodeId, vals: seq<Val>)
    requires t in s.th && x in s.g.nodes && s.th[t].pc == LlxCopy(x, false, s.g.nodes[x].scxPtr, vals) && vals <= s.g.nodes[x].vals
    ensures var n := s.g.nodes[x];
      Only(s, Go(s, t, |n.vals| - |vals| + 1), t, s.th[t].(pc := Idle, res := Linked(x), links := s.th[t].links[x := Link(n.scxPtr, n.vals)]))
    decreases |s.g.nodes[x].vals| - |vals|
  {
    hide Step, Go;
    var node, T, s1 := s.g.nodes[x], s.th[t], Step(s, t, Run);
    if |vals| == |node.vals| {
      assert vals == node.vals;
      Moves(s, t, T.(pc := Idle, res := Linked(x), links := T.links[x := Link(node.scxPtr, node.vals)]));
      GoFirst(s, t, 0);
      GoNone(s1, t);
    } else {
      var vals1 := vals + [node.vals[|vals|]];
      var T1 := T.(pc := LlxCopy(x, false, node.scxPtr, vals1));
      Moves(s, t, T1);
      GoFirst(s, t, |node.vals| - |vals|);
      CopyAlone(s1, t, x, vals1);
      OnlyChain(s, s1, Go(s1, t, |node.vals| - |vals1| + 1), t, T1, T1.(pc := Idle, res := Linked(x), links := T1.links[x := Link(node.scxPtr, node.vals)]));
    }
  }

  /** The reads before the copy. */
  lemma ReadsAlone(s: System, t: Tid, x: NodeId)
    requires t in s.th && x in s.g.nodes && s.th[t].pc == LlxMarked(x) && !s.g.nodes[x].marked && !StateOf(s.g, s.g.nodes[x].scxPtr).InProgress?
    ensures Only(s, Go(s, t, if StateOf(s.g, s.g.nodes[x].scxPtr).Committed? then 4 else 3), t, s.th[t].(pc := LlxCopy(x, false, s.g.nodes[x].scxPtr, [])))
  {
    hide Step, Go, StateOf;
    var h, T := s.g.nodes[x].scxPtr, s.th[t];
    var T1, T2, T3, T4 := T.(pc := LlxPtr(x, false)), T.(pc := LlxState(x, false, h)), T.(pc := LlxMarked2(x, false, h)), T.(pc := LlxCopy(x, false, h, []));
    var s1 := Step(s, t, Run);
    var s2 := Step(s1, t, Run);
    var s3 := Step(s2, t, Run);
    Moves(s, t, T1);
    Moves(s1, t, T2);
    OnlyChain(s, s1, s2, t, T1, T2);
    GoNone(s3, t);
    if StateOf(s.g, h).Committed? {
      Moves(s2, t, T3);
      OnlyChain(s, s2, s3, t, T2, T3);
      Moves(s3, t, T4);
      OnlyChain(s, s3, Step(s3, t, Run), t, T3, T4);
      GoNone(Step(s3, t, Run), t);
      GoFirst(s3, t, 0);
      GoFirst(s2, t, 1);
      GoFirst(s1, t, 2);
      GoFirst(s, t, 3);
    } else {
      Moves(s2, t, T4);
      OnlyChain(s, s2, s3, t, T2, T4);
      GoFirst(s2, t, 0);
      GoFirst(s1, t, 1);
      GoFirst(s, t, 2);
    }
  }

  /** An LLX that runs alone on a node that is not marked and whose last SCX is decided returns a snapshot of it. */
  lemma LlxAlone(s: System, t: Tid, x: NodeId) returns (n: nat)
    requires t in s.th && s.th[t].pc.Idle? && x in s.g.nodes && !s.g.nodes[x].marked && !StateOf(s.g, s.g.nodes[x].scxPtr).InProgress?
    ensures Only(s, Go(Step(s, t, Llx(x)), t, n), t, s.th[t].(res := Linked(x), links := s.th[t].links[x := Link(s.g.nodes[x].scxPtr, s.g.nodes[x].vals)]))
  {
    var node, T, s0 := s.g.nodes[x], s.th[t], Step(s, t, Llx(x));
    var T0 := T.(pc := LlxMarked(x));
    assert Only(s, s0, t, T0);
    hide Step, Go, StateOf;
    var m := if StateOf(s.g, node.scxPtr).Committed? then 4 else 3;
    ReadsAlone(s0, t, x);
    var s1, T1 := Go(s0, t, m), T.(pc := LlxCopy(x, false, node.scxPtr, []));
    CopyAlone(s1, t, x, []);
    GoJoin(s0, t, m, |node.vals| + 1);
    n := m + (|node.vals| + 1);
    var T2 := T.(res := Linked(x), links := T.links[x := Link(node.scxPtr, node.vals)]);
    OnlyChain(s, s0, s1, t, T0, T1);
    OnlyChain(s, s1, Go(s0, t, n), t, T1, T2);
  }

  // ---------------------------------------------------------------- SCX

  /** Thread `t` is at `hp` in its own SCX `k`, which is in progress and lists `n` nodes. */
  ghost predicate Helping(s: System, t: Tid, k: OpId, n: nat, hp: HelpPc) {
    && Inv(s) && t in s.th && s.th[t].pc == Exec(Frame(k, true, [], hp))
    && k in s.g.ops && s.g.ops[k].st.InProgress? && |s.g.ops[k].d.es| == n
  }

  /** What is known of an SCX that its owner is working on. */
  ghost predicate Known(g: Shared, t: Tid, k: OpId, hp: HelpPc) {
    && k in g.ops && t in g.slots && k.tid == t && g.slots[t].sn == k.sn && FrameOk(g, t, Frame(k, true, [], hp)) && OpCore(g, k)
    && g.slots[t].st.InProgress? && g.slots[t].allFrozen == g.ops[k].allFrozen && Decode(g.slots[t].pay) == g.ops[k].d
  }

  lemma HelpingKnows(s: System, t: Tid, k: OpId, n: nat, hp: HelpPc)
    requires Helping(s, t, k, n, hp)
    ensures Known(s.g, t, k, hp)
  {
    hide GInv, Decode, LinkOk, ResOk, HpOk;
    InvShared(s);
    assert ThreadOk(s.g, t, s.th[t]);
    hide Inv;
    KnownOp(s.g, k);
  }

  /** A step of the owner in its SCX. */
  lemma HelpRuns(s: System, t: Tid, k: OpId, n: nat, hp: HelpPc, hp1: HelpPc)
    requires Helping(s, t, k, n, hp) && StepHelp(s.g, Frame(k, true, [], hp)).1 == More(Frame(k, true, [], hp1))
    requires k in StepHelp(s.g, Frame(k, true, [], hp)).0.ops && StepHelp(s.g, Frame(k, true, [], hp)).0.ops[k].st.InProgress?
    ensures Helping(Step(s, t, Run), t, k, n, hp1) && Step(s, t, Run).g == StepHelp(s.g, Frame(k, true, [], hp)).0
  {
    hide Inv, Rely, Lawful, StepHelp, Step;
    StepKeeps(s, t, Run);
    RunIs(s, t);
    RelyOp(s.g, Step(s, t, Run).g, k);
  }

  /** The handles from entry `i` on are current, and `i` nodes have been frozen. */
  ghost predicate Current(g: Shared, k: OpId, i: nat) {
    && k in g.ops && g.ops[k].frozen == i
    && forall j :: i <= j < |g.ops[k].d.es| ==> PtrAt(g, g.ops[k].d.es[j].n) == g.ops[k].d.es[j].seen
  }

  lemma FreezeOne(s: System, t: Tid, k: OpId, n: nat, i: nat)
    requires Helping(s, t, k, n, Freeze(i)) && Current(s.g, k, i) && i < n
    ensures var s2 := Step(Step(s, t, Run), t, Run); Helping(s2, t, k, n, Freeze(i + 1)) && Current(s2.g, k, i + 1)
  {
    hide Step, Inv, GInv, FrameOk, Decode;
    HelpingKnows(s, t, k, n, Freeze(i));
    var s1 := Step(s, t, Run);
    HelpRuns(s, t, k, n, Freeze(i), Check(i, true));
    HelpingKnows(s1, t, k, n, Check(i, true));
    HelpRuns(s1, t, k, n, Check(i, true), Freeze(i + 1));
  }

  lemma {:induction false} FreezeAll(s: System, t: Tid, k: OpId, n: nat, i: nat)
    requires Helping(s, t, k, n, Freeze(i)) && Current(s.g, k, i) && i <= n
    ensures Helping(Go(s, t, 2 * (n - i)), t, k, n, Freeze(n))
    decreases n - i
  {
    hide Step, Go, Helping, Current;
    if i == n {
      GoNone(s, t);
    } else {
      var s1 := Step(s, t, Run);
      FreezeOne(s, t, k, n, i);
      GoFirst(s1, t, 2 * (n - i) - 2);
      GoFirst(s, t, 2 * (n - i) - 1);
      FreezeAll(Step(s1, t, Run), t, k, n, i + 1);
    }
  }

  /** All nodes frozen: allFrozen is set. */
  lemma SetFrozen(s: System, t: Tid, k: OpId, n: nat) returns (m: nat)
    requires Helping(s, t, k, n, Freeze(n))
    ensures Helping(Go(s, t, m), t, k, n, Mark(0))
  {
    hide Step, Inv, GInv, FrameOk, Decode, Go;
    HelpingKnows(s, t, k, n, Freeze(n));
    var s1 := Step(s, t, Run);
    HelpRuns(s, t, k, n, Freeze(n), FrozenRead);
    HelpingKnows(s1, t, k, n, FrozenRead);
    var s2 := Step(s1, t, Run);
    if s1.g.ops[k].allFrozen {
      HelpRuns(s1, t, k, n, FrozenRead, Mark(0));
      m := 2;
      GoFirst(s, t, 1);
      GoFirst(s1, t, 0);
      GoNone(s2, t);
    } else {
      HelpRuns(s1, t, k, n, FrozenRead, FrozenCas(s1.g.slots[t]));
      HelpingKnows(s2, t, k, n, FrozenCas(s1.g.slots[t]));
      HelpRuns(s2, t, k, n, FrozenCas(s1.g.slots[t]), Mark(0));
      m := 3;
      GoFirst(s, t, 2);
      GoFirst(s1, t, 1);
      GoFirst(s2, t, 0);
      GoNone(Step(s2, t, Run), t);
    }
  }

  lemma {:induction false} MarkAll(s: System, t: Tid, k: OpId, n: nat, i: nat)
    requires Helping(s, t, k, n, Mark(i)) && i <= n
    ensures Helping(Go(s, t, n - i + 1), t, k, n, Update)
    decreases n - i
  {
    hide Step, Go, Inv, GInv, FrameOk, Decode;
    var s1 := Step(s, t, Run);
    HelpingKnows(s, t, k, n, Mark(i));
    GoFirst(s, t, n - i);
    if i == n {
      HelpRuns(s, t, k, n, Mark(i), Update);
      GoNone(s1, t);
    } else {
      HelpRuns(s, t, k, n, Mark(i), Mark(i + 1));
      hide StepHelp, Helping;
      MarkAll(s1, t, k, n, i + 1);
    }
  }

  /** The update and the commit. */
  lemma Commit(s: System, t: Tid, k: OpId, n: nat)
    requires Helping(s, t, k, n, Update)
    ensures t in Go(s, t, 4).th && Go(s, t, 4).th[t].pc.Idle? && Go(s, t, 4).th[t].res == Executed(k, true)
  {
    hide Step, Inv, GInv, FrameOk, Decode, Go;
    var s1 := Step(s, t, Run);
    var s2 := Step(s1, t, Run);
    var s3 := Step(s2, t, Run);
    HelpingKnows(s, t, k, n, Update);
    HelpRuns(s, t, k, n, Update, CommitRead);
    HelpingKnows(s1, t, k, n, CommitRead);
    HelpRuns(s1, t, k, n, CommitRead, CommitCas(s1.g.slots[t]));
    HelpingKnows(s2, t, k, n, CommitCas(s1.g.slots[t]));
    CommitEnds(s2, t, k, s1.g.slots[t]);
    GoFirst(s, t, 3);
    GoFirst(s1, t, 2);
    GoFirst(s2, t, 1);
    GoFirst(s3, t, 0);
    GoNone(Step(s3, t, Run), t);
  }

  lemma CommitEnds(s: System, t: Tid, k: OpId, v: Slot)
    requires t in s.th && s.th[t].pc == Exec(Frame(k, true, [], CommitCas(v))) && k in s.g.ops && k.tid == t && t in s.g.slots && s.g.slots[t] == v
    ensures var s2 := Step(Step(s, t, Run), t, Run); t in s2.th && s2.th[t].pc.Idle? && s2.th[t].res == Executed(k, true)
  {
    hide Decode, Step;
    var s1 := Step(s, t, Run);
    RunIs(s, t);
    assert s1.th[t].pc == ExecNew(k, true);
    RunIs(s1, t);
  }

  /** An SCX whose owner runs alone from its start, with all its handles current, is committed and returns true. */
  lemma ScxAlone(s: System, t: Tid, k: OpId) returns (m: nat)
    requires k in s.g.ops && Helping(s, t, k, |s.g.ops[k].d.es|, Freeze(0)) && Current(s.g, k, 0)
    ensures t in Go(s, t, m).th && Go(s, t, m).th[t].pc.Idle? && Go(s, t, m).th[t].res == Executed(k, true)
  {
    hide Step, Go, Current, Helping;
    var n := |s.g.ops[k].d.es|;
    FreezeAll(s, t, k, n, 0);
    var s1 := Go(s, t, 2 * n);
    var a := SetFrozen(s1, t, k, n);
    var s2 := Go(s1, t, a);
    MarkAll(s2, t, k, n, 0);
    Commit(Go(s2, t, n + 1), t, k, n);
    GoJoin(s2, t, n + 1, 4);
    GoJoin(s1, t, a, n + 1 + 4);
    GoJoin(s, t, 2 * n, a + (n + 1 + 4));
    m := 2 * n + (a + (n + 1 + 4));
  }
}
