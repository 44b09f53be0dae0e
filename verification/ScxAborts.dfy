/**
 * An SCX is aborted only for a reason: one of its nodes was frozen by another SCX after the LLX that gave the
 * handle for it had returned.
 */
module ScxAborts {
  import opened ScxModel
  import opened ScxInvariant
  import opened ScxEffects
  import opened ScxSteps
  import opened ScxTheorems

  /** The state after the first `n` steps. */
  ghost function At(s: System, sched: Schedule, n: nat): System
    requires n <= |sched|
  {
    RunFrom(s, sched[..n])
  }

  lemma AtNext(s: System, sched: Schedule, n: nat)
    requires n < |sched|
    ensures At(s, sched, n + 1) == Step(At(s, sched, n), sched[n].0, sched[n].1)
  {
    assert sched[..n + 1][..n] == sched[..n];
    hide Step;
  }

  lemma AtStart(s: System, sched: Schedule)
    ensures At(s, sched, 0) == s
  {
    assert sched[..0] == [];
  }

  lemma AtInv(s: System, sched: Schedule, n: nat)
    requires Initial(s) && n <= |sched|
    ensures Inv(At(s, sched, n))
  {
    InitialOk(s);
    RunInv(s, sched[..n]);
  }

  // ---------------------------------------------------------------- where an operation and its handles come from

  lemma HelpPublishesNone(g: Shared, f: Frame, k: OpId)
    requires k !in g.ops
    ensures k !in StepHelp(g, f).0.ops
  {
    hide Decode, SameMutables;
  }

  lemma RunPublishesNone(g: Shared, t: Tid, T: Thread, k: OpId)
    requires k !in g.ops
    ensures k !in StepRun(g, t, T).0.ops
  {
    hide StepHelp, StateOf;
    if T.pc.LlxHelp? { HelpPublishesNone(g, T.pc.f, k); }
    if T.pc.Exec? { HelpPublishesNone(g, T.pc.f, k); }
  }

  /** The thread has, for every entry, a link with the handle in it. */
  ghost predicate HasHandles(s: System, t: Tid, es: seq<Entry>) {
    t in s.th && forall i :: 0 <= i < |es| ==> es[i].n in s.g.nodes && es[i].n in s.th[t].links && s.th[t].links[es[i].n].h == es[i].seen
  }

  lemma ExecutePublishes(s: System, t: Tid, act: Action, k: OpId)
    requires k !in s.g.ops && k in Step(s, t, act).g.ops
    ensures act.Execute? && (t in s.th ==> k.tid == t) && HasHandles(s, t, Step(s, t, act).g.ops[k].d.es)
  {
    hide StepRun, Decode, FreshNode, Snaps;
    if t in s.th && act.Run? { RunPublishesNone(s.g, t, s.th[t], k); }
  }

  /** The step that published `k`. */
  lemma {:induction false} Published(s: System, sched: Schedule, k: OpId, n: nat) returns (b: nat)
    requires Initial(s) && n <= |sched| && k in At(s, sched, n).g.ops
    ensures b < n && sched[b] == (k.tid, Execute) && k !in At(s, sched, b).g.ops && HasHandles(At(s, sched, b), k.tid, At(s, sched, n).g.ops[k].d.es)
  {
    hide Step, Inv, Rely, Lawful, HasHandles;
    AtStart(s, sched);
    if n > 0 {
      var before, last := At(s, sched, n - 1), sched[n - 1];
      AtNext(s, sched, n - 1);
      AtInv(s, sched, n - 1);
      hide At, Initial;
      if k in before.g.ops {
        b := Published(s, sched, k, n - 1);
        StepKeeps(before, last.0, last.1);
        RelyOp(before.g, At(s, sched, n).g, k);
      } else {
        b := n - 1;
        ExecutePublishes(before, last.0, last.1, k);
        HandlesNeedThread(before, last.0, At(s, sched, n).g.ops[k].d.es);
      }
    }
  }

  lemma HandlesNeedThread(s: System, t: Tid, es: seq<Entry>)
    requires HasHandles(s, t, es)
    ensures t in s.th
  {}

  /** Step `a` of the run was the last one of an LLX by `t` on `x` that found and returned the handle `h`. */
  ghost predicate GaveHandle(s: System, sched: Schedule, a: nat, t: Tid, x: NodeId, h: Handle) {
    && a < |sched| && sched[a] == (t, Run)
    && var s0, s1 := At(s, sched, a), At(s, sched, a + 1);
    && t in s0.th && s0.th[t].pc.LlxCopy? && s0.th[t].pc.x == x && s0.th[t].pc.h == h
    && t in s1.th && s1.th[t].res == Linked(x) && x in s1.th[t].links && s1.th[t].links[x].h == h
    && x in s1.g.nodes && s1.g.nodes[x].scxPtr == h
  }

  lemma LinkStep(s: System, u: Tid, act: Action, t: Tid, x: NodeId)
    requires t in s.th && t in Step(s, u, act).th && x in Step(s, u, act).th[t].links
    requires !(x in s.th[t].links && s.th[t].links[x] == Step(s, u, act).th[t].links[x])
    ensures u == t && act.Run? && s.th[t].pc.LlxCopy? && s.th[t].pc.x == x
    ensures var s1 := Step(s, u, act);
      s1.th[t].res == Linked(x) && s1.th[t].links[x].h == s.th[t].pc.h && x in s1.g.nodes && s1.g.nodes[x].scxPtr == s.th[t].pc.h
  {
    hide StepHelp, StateOf, Decode, FreshNode, Snaps, Usable;
  }

  lemma SameThreads(s: System, sched: Schedule, n: nat)
    requires Initial(s) && n <= |sched|
    ensures At(s, sched, n).th.Keys == s.th.Keys
  {
    hide StepRun, Decode, FreshNode, Snaps, Usable, Initial;
    if n > 0 {
      SameThreads(s, sched, n - 1);
      AtNext(s, sched, n - 1);
    } else {
      AtStart(s, sched);
    }
  }

  /** The step that gave a thread its link. */
  lemma {:induction false} HandleGiven(s: System, sched: Schedule, n: nat, t: Tid, x: NodeId) returns (a: nat)
    requires Initial(s) && n <= |sched| && t in At(s, sched, n).th && x in At(s, sched, n).th[t].links
    ensures a < n && GaveHandle(s, sched, a, t, x, At(s, sched, n).th[t].links[x].h)
  {
    AtStart(s, sched);
    if n > 0 {
      hide Step, Initial;
      var before, last := At(s, sched, n - 1), sched[n - 1];
      AtNext(s, sched, n - 1);
      SameThreads(s, sched, n - 1);
      SameThreads(s, sched, n);
      hide At;
      var link := At(s, sched, n).th[t].links[x];
      if x in before.th[t].links && before.th[t].links[x] == link {
        a := HandleGiven(s, sched, n - 1, t, x);
      } else {
        a := n - 1;
        LinkStep(before, last.0, last.1, t, x);
      }
    }
  }

  /** The step that gave the handle of entry `i`. */
  lemma EntryGiven(s: System, sched: Schedule, k: OpId, n: nat, i: nat) returns (a: nat)
    requires Initial(s) && n <= |sched| && k in At(s, sched, n).g.ops && i < |At(s, sched, n).g.ops[k].d.es|
    ensures var e := At(s, sched, n).g.ops[k].d.es[i]; a < n && GaveHandle(s, sched, a, k.tid, e.n, e.seen)
  {
    hide Initial, At, GaveHandle;
    var b := Published(s, sched, k, n);
    a := HandleGiven(s, sched, b, k.tid, At(s, sched, n).g.ops[k].d.es[i].n);
  }

  // ---------------------------------------------------------------- the other SCX

  /** Step `m` of the run froze node `x`, which held `h`, for `other`. */
  ghost predicate FrozenAt(s: System, sched: Schedule, m: nat, x: NodeId, h: Handle, other: OpId) {
    m < |sched| && PtrAt(At(s, sched, m).g, x) == h && PtrAt(At(s, sched, m + 1).g, x) == Tag(other)
  }

  /** A handle that has gone from a node was replaced by the tag of an SCX. */
  lemma {:induction false} Replaced(s: System, sched: Schedule, a: nat, n: nat, x: NodeId, h: Handle) returns (m: nat, other: OpId)
    requires Initial(s) && a <= n <= |sched| && x in At(s, sched, a).g.nodes && PtrAt(At(s, sched, a).g, x) == h && PtrAt(At(s, sched, n).g, x) != h
    ensures a <= m < n && FrozenAt(s, sched, m, x, h, other)
    decreases n
  {
    hide Step, Inv, Rely, Lawful;
    var before, last := At(s, sched, n - 1), sched[n - 1];
    AtNext(s, sched, n - 1);
    AtInv(s, sched, n - 1);
    NodeStays(s, sched, a, n - 1, x);
    hide At, Initial;
    if PtrAt(before.g, x) != h {
      m, other := Replaced(s, sched, a, n - 1, x, h);
    } else {
      m := n - 1;
      StepKeeps(before, last.0, last.1);
      BecomesTag(before.g, At(s, sched, n).g, x);
      other := PtrAt(At(s, sched, n).g, x).k;
    }
  }

  lemma BecomesTag(g: Shared, g1: Shared, x: NodeId)
    requires Rely(g, g1) && x in g.nodes && PtrAt(g1, x) != PtrAt(g, x)
    ensures PtrAt(g1, x).Tag?
  {
    hide Rely;
    RelyNode(g, g1, x);
    assert WasAt(g, x, InitHandle);
  }

  lemma {:induction false} NodeStays(s: System, sched: Schedule, a: nat, n: nat, x: NodeId)
    requires Initial(s) && a <= n <= |sched| && x in At(s, sched, a).g.nodes
    ensures x in At(s, sched, n).g.nodes
    decreases n
  {
    hide Step, Inv, Rely, Lawful;
    if a < n {
      NodeStays(s, sched, a, n - 1, x);
      AtNext(s, sched, n - 1);
      AtInv(s, sched, n - 1);
      hide At, Initial;
      StepKeeps(At(s, sched, n - 1), sched[n - 1].0, sched[n - 1].1);
      RelyNode(At(s, sched, n - 1).g, At(s, sched, n).g, x);
    }
  }

  /** How far `k` has frozen its nodes never goes back. */
  lemma {:induction false} FrozenGrows(s: System, sched: Schedule, m: nat, n: nat, k: OpId)
    requires Initial(s) && m <= n <= |sched| && k in At(s, sched, m).g.ops
    ensures k in At(s, sched, n).g.ops && At(s, sched, n).g.ops[k].d == At(s, sched, m).g.ops[k].d
    ensures At(s, sched, m).g.ops[k].frozen <= At(s, sched, n).g.ops[k].frozen
    decreases n
  {
    hide Step, Inv, Rely, Lawful;
    if m < n {
      FrozenGrows(s, sched, m, n - 1, k);
      AtNext(s, sched, n - 1);
      AtInv(s, sched, n - 1);
      hide At, Initial;
      StepKeeps(At(s, sched, n - 1), sched[n - 1].0, sched[n - 1].1);
      RelyOp(At(s, sched, n - 1).g, At(s, sched, n).g, k);
    }
  }

  /** A node that holds the tag of `k` is among those `k` has frozen. */
  lemma TagIsFrozen(g: Shared, k: OpId, x: NodeId)
    requires GInv(g) && PtrAt(g, x) == Tag(k)
    ensures k in g.ops && Holds(g.ops[k].d.es, g.ops[k].frozen, x)
  {
    KnownNode(g, x);
  }

  /** What `k` has not frozen in the end it has never frozen. */
  lemma NeverFrozen(s: System, sched: Schedule, m: nat, n: nat, k: OpId)
    requires Initial(s) && m <= n <= |sched| && k in At(s, sched, n).g.ops && At(s, sched, n).g.ops[k].frozen < |At(s, sched, n).g.ops[k].d.es|
    ensures var op := At(s, sched, n).g.ops[k]; PtrAt(At(s, sched, m).g, op.d.es[op.frozen].n) != Tag(k)
  {
    hide Inv, GInv, RunFrom;
    var g, op := At(s, sched, m).g, At(s, sched, n).g.ops[k];
    AtInv(s, sched, m);
    AtInv(s, sched, n);
    InvG(At(s, sched, m));
    InvG(At(s, sched, n));
    if k in g.ops {
      FrozenGrows(s, sched, m, n, k);
      NotAmong(At(s, sched, n).g, k, op.frozen, g.ops[k].frozen);
    }
    if PtrAt(g, op.d.es[op.frozen].n) == Tag(k) { TagIsFrozen(g, k, op.d.es[op.frozen].n); }
  }

  lemma NotAmong(g: Shared, k: OpId, i: nat, n: nat)
    requires GInv(g) && k in g.ops && n <= i < |g.ops[k].d.es|
    ensures !Holds(g.ops[k].d.es, n, g.ops[k].d.es[i].n)
  {
    KnownOp(g, k);
  }

  lemma InvG(s: System)
    requires Inv(s)
    ensures GInv(s.g)
  {}

  /** The node that has doomed an aborted SCX. */
  lemma AbortedIsDoomed(s: System, sched: Schedule, k: OpId)
    requires Initial(s) && k in At(s, sched, |sched|).g.ops && At(s, sched, |sched|).g.ops[k].st.Aborted?
    ensures Doomed(At(s, sched, |sched|).g, k)
  {
    hide Inv, GInv;
    AtInv(s, sched, |sched|);
    InvG(At(s, sched, |sched|));
    KnownOp(At(s, sched, |sched|).g, k);
  }

  /**
   * If an SCX is aborted, then some node in its list, say entry `i`, was frozen by another SCX after the LLX that
   * gave the handle for it: the LLX returned at step `a`, and the other SCX froze the node at step `m`.
   */
  lemma AbortedIsJustified(s: System, sched: Schedule, k: OpId) returns (i: nat, a: nat, m: nat, other: OpId)
    requires Initial(s) && k in RunFrom(s, sched).g.ops && RunFrom(s, sched).g.ops[k].st.Aborted?
    ensures var es := RunFrom(s, sched).g.ops[k].d.es;
      && i < |es| && other != k
      && GaveHandle(s, sched, a, k.tid, es[i].n, es[i].seen) && a < m && FrozenAt(s, sched, m, es[i].n, es[i].seen, other)
  {
    var n := |sched|;
    assert sched[..n] == sched;
    hide RunFrom, Initial;
    AbortedIsDoomed(s, sched, k);
    var op := At(s, sched, n).g.ops[k];
    i := op.frozen;
    var e := op.d.es[i];
    a := EntryGiven(s, sched, k, n, i);
    hide At;
    m, other := Replaced(s, sched, a + 1, n, e.n, e.seen);
    NeverFrozen(s, sched, m + 1, n, k);
  }
}
