/**
 * The tag of a k-CAS that is in memory while its descriptor already serves a later operation: exactly when it
 * stays there for ever, and what that means for readers.
 */
module KcasAbandoned {
  import opened KcasModel
  import opened KcasInvariant
  import opened KcasEffects
  import opened KcasSteps
  import opened KcasTheorems

  /** Entry `i` of `k` is locked, and the slot of `k` has moved on. */
  ghost predicate Recycled(g: Shared, k: KId, i: nat) {
    Holds(g, k, i) && k.tid in g.kslot && k.sn < g.kslot[k.tid].sn
  }

  /** The tag of `k` is in the word of its entry `i`. */
  ghost predicate Holds(g: Shared, k: KId, i: nat) {
    k in g.kops && i < |g.kops[k].es| && Locked(g, k, i)
  }

  /** An activation of `k` is unlocking and has yet to come to entry `i`. */
  predicate WillRelease(f: Frame, k: KId, i: nat) {
    f.k == k && f.pc.Release? && f.pc.j <= i
  }

  ghost predicate NoneReleases(T: Thread, k: KId, i: nat) {
    forall n :: 0 <= n < |T.stack| ==> !WillRelease(T.stack[n], k, i)
  }

  ghost predicate Abandoned(s: System, k: KId, i: nat) {
    Recycled(s.g, k, i) && forall t :: t in s.th ==> NoneReleases(s.th[t], k, i)
  }

  // ---------------------------------------------------------------- an abandoned tag stays

  lemma MovedTop(T: Thread, f: Frame, k: KId, i: nat)
    requires T.stack != [] && NoneReleases(T, k, i) && !WillRelease(f, k, i)
    ensures NoneReleases(WithTop(T, f), k, i)
  {}

  lemma Popped(T: Thread, ok: bool, k: KId, i: nat)
    requires T.stack != [] && NoneReleases(T, k, i)
    ensures NoneReleases(Return(T, ok), k, i)
  {
    var rest := T.(stack := T.stack[..|T.stack| - 1]);
    assert NoneReleases(rest, k, i);
    if rest.stack != [] && Top(rest).pc.Helping? {
      MovedTop(rest, Top(rest).(pc := AtEntry(Top(rest).pc.i)), k, i);
    }
  }

  /** Two entries of one operation never share an address. */
  lemma OtherEntry(g: Shared, k: KId, i: nat, j: nat)
    requires GInv(g) && k in g.kops && i < |g.kops[k].es| && j < |g.kops[k].es| && i != j
    ensures g.kops[k].es[i].addr != g.kops[k].es[j].addr
  {
    KnownK(g, k);
  }

  /** What an activation that unlocks for a recycled operation works on: the entries as published. */
  lemma ReleaserKnows(g: Shared, t: Tid, f: Frame, k: KId, i: nat)
    requires GInv(g) && FrameOk(g, t, f) && f.k == k && f.pc.Release? && Recycled(g, k, i)
    ensures !f.own && NumEntries(Pay(g, f)) == |g.kops[k].es|
    ensures f.pc.j < |g.kops[k].es| ==> EntryAt(Pay(g, f), f.pc.j) == g.kops[k].es[f.pc.j]
  {
    KnownK(g, k);
    PayOk(g, t, f);
  }

  /** Activations of other operations, and those past entry `i`, do not unlock it. */
  lemma FrameKeepsTag(g: Shared, t: Tid, T: Thread, k: KId, i: nat)
    requires GInv(g) && StackOk(g, t, T) && T.stack != [] && Recycled(g, k, i) && !WillRelease(Top(T), k, i)
    ensures Recycled(StepFrame(g, t, T).0, k, i)
  {
    var f := Top(T);
    assert FrameOk(g, t, f);
    if f.pc.Release? && f.k == k {
      ReleaserKnows(g, t, f, k, i);
      if f.pc.j < |g.kops[k].es| { OtherEntry(g, k, i, f.pc.j); }
    }
    hide GInv, StackOk, FrameOk, Return, Goto, WithTop;
  }

  /** A recycled operation gets no new unlocking activation: the sequence check before it fails. */
  lemma FrameStaysPast(g: Shared, t: Tid, T: Thread, k: KId, i: nat)
    requires T.stack != [] && Recycled(g, k, i) && NoneReleases(T, k, i)
    ensures NoneReleases(StepFrame(g, t, T).1, k, i)
  {
    var f, T0 := Top(T), T.(rd := Filling(0));
    assert !WillRelease(f, k, i);
    var T1 := StepFrame(g, t, T).1;
    Popped(T, false, k, i);
    Popped(T, true, k, i);
    SameStack(T, T0, k, i);
    if T1 != T && T1 != Return(T, false) && T1 != Return(T, true) {
      NextTop(g, t, T, k, i);
      hide NoneReleases, StepFrame;
      var f1 := Top(T1);
      MovedTop(T, f1, k, i);
      MovedTop(T0, f1, k, i);
    }
  }

  /** A step of the innermost activation ends it, or moves it on. */
  lemma NextTop(g: Shared, t: Tid, T: Thread, k: KId, i: nat)
    requires T.stack != [] && Recycled(g, k, i) && !WillRelease(Top(T), k, i)
    ensures var T1 := StepFrame(g, t, T).1;
      T1 == T || T1 == Return(T, false) || T1 == Return(T, true)
      || (T1.stack != [] && !WillRelease(Top(T1), k, i) && (T1 == WithTop(T, Top(T1)) || T1 == WithTop(T.(rd := Filling(0)), Top(T1))))
  {
    hide Return;
  }

  lemma SameStack(T: Thread, T1: Thread, k: KId, i: nat)
    requires NoneReleases(T, k, i) && T1.stack == T.stack
    ensures NoneReleases(T1, k, i)
  {}

  lemma AbandonedRHelp(g: Shared, T: Thread, k: KId, i: nat)
    requires Recycled(g, k, i) && NoneReleases(T, k, i)
    ensures Recycled(StepRHelp(g, T).0, k, i) && NoneReleases(StepRHelp(g, T).1, k, i)
  {
    var T1 := StepRHelp(g, T).1;
    if T1.stack != T.stack {
      assert T1 == WithTop(T.(rd := NoRdcss, rh := NoRHelp), Top(T1)) && !WillRelease(Top(T1), k, i);
      SameStack(T, T.(rd := NoRdcss, rh := NoRHelp), k, i);
      MovedTop(T.(rd := NoRdcss, rh := NoRHelp), Top(T1), k, i);
    }
  }

  lemma RdcssKeepsTag(g: Shared, t: Tid, T: Thread, k: KId, i: nat)
    requires Recycled(g, k, i) && T.stack != [] && Top(T).pc.InRdcss?
    ensures Recycled(StepRdcss(g, t, T).0, k, i)
  {
    hide Goto, WithTop;
  }

  lemma RdcssStaysPast(g: Shared, t: Tid, T: Thread, k: KId, i: nat)
    requires NoneReleases(T, k, i) && T.stack != [] && Top(T).pc.InRdcss?
    ensures NoneReleases(StepRdcss(g, t, T).1, k, i)
  {
    var T0, n := T.(rd := NoRdcss), Top(T).pc.i;
    SameStack(T, T0, k, i);
    forall pc: Pc | !pc.Release? ensures NoneReleases(Goto(T0, pc), k, i) { MovedTop(T0, Top(T0).(pc := pc), k, i); }
    forall other: KId ensures NoneReleases(Goto(T0, Helping(n)).(stack := Goto(T0, Helping(n)).stack + [HelpFrame(other)]), k, i) {
      Pushed(Goto(T0, Helping(n)), HelpFrame(other), k, i);
    }
    hide Goto, WithTop;
  }

  lemma Pushed(T: Thread, f: Frame, k: KId, i: nat)
    requires NoneReleases(T, k, i) && !WillRelease(f, k, i)
    ensures NoneReleases(T.(stack := T.stack + [f]), k, i)
  {}

  lemma AbandonedRun(g: Shared, t: Tid, T: Thread, k: KId, i: nat)
    requires GInv(g) && ThreadOk(g, t, T) && Recycled(g, k, i) && NoneReleases(T, k, i)
    ensures Recycled(StepRun(g, t, T).0, k, i) && NoneReleases(StepRun(g, t, T).1, k, i)
  {
    hide StepRHelp, StepFrame, StepRdcss, Recycled, GInv;
    AbandonedRHelp(g, T, k, i);
    if T.stack != [] {
      assert !WillRelease(Top(T), k, i);
      hide NoneReleases;
      FrameKeepsTag(g, t, T, k, i);
      FrameStaysPast(g, t, T, k, i);
      if Top(T).pc.InRdcss? { RdcssKeepsTag(g, t, T, k, i); RdcssStaysPast(g, t, T, k, i); }
    }
  }

  lemma AbandonedStep(s: System, t: Tid, act: Action, k: KId, i: nat)
    requires Inv(s) && Abandoned(s, k, i)
    ensures Abandoned(Step(s, t, act), k, i)
  {
    hide GInv, StepRun, NoneReleases, Recycled;
    if t in s.th {
      if act.Run? {
        AbandonedRun(s.g, t, s.th[t], k, i);
        hide ThreadOk;
      } else {
        hide ThreadOk;
        ClientKeepsTag(s, t, act, k, i);
        ClientAddsNone(s, t, act, k, i);
      }
    }
  }

  lemma ClientKeepsTag(s: System, t: Tid, act: Action, k: KId, i: nat)
    requires Inv(s) && t in s.th && !act.Run? && Recycled(s.g, k, i)
    ensures Recycled(Step(s, t, act).g, k, i)
  {
    hide ThreadOk, OwnedBy;
    KnownK(s.g, k);
    assert KId(t, KSlotAt(s.g, t).sn + 1) != k;
    hide GInv, KOpOk;
  }

  lemma ClientAddsNone(s: System, t: Tid, act: Action, k: KId, i: nat)
    requires t in s.th && !act.Run? && forall u :: u in s.th ==> NoneReleases(s.th[u], k, i)
    ensures var s1 := Step(s, t, act); forall u :: u in s1.th ==> NoneReleases(s1.th[u], k, i)
  {}

  lemma {:induction false} AbandonedTagIsPermanent(s: System, sched: Schedule, k: KId, i: nat)
    requires Inv(s) && Abandoned(s, k, i)
    ensures Abandoned(RunFrom(s, sched), k, i)
    decreases |sched|
  {
    hide Inv, Step, Abandoned;
    if sched != [] {
      var n := |sched| - 1;
      AbandonedTagIsPermanent(s, sched[..n], k, i);
      RunInv(s, sched[..n]);
      AbandonedStep(RunFrom(s, sched[..n]), sched[n].0, sched[n].1, k, i);
    }
  }

  // ---------------------------------------------------------------- any other tag can go

  /** `n` steps of thread `t`. */
  function Runs(t: Tid, n: nat): Schedule {
    seq(n, _ => (t, Run))
  }

  lemma {:induction false} RunFirst(s: System, t: Tid, a: Action, sched: Schedule)
    ensures RunFrom(s, [(t, a)] + sched) == RunFrom(Step(s, t, a), sched)
    decreases |sched|
  {
    var all := [(t, a)] + sched;
    hide Step;
    if sched == [] {
      assert all[..0] == [] && all[0] == (t, a);
      assert RunFrom(s, all[..0]) == s;
    } else {
      var n := |sched| - 1;
      assert all[..|all| - 1] == [(t, a)] + sched[..n];
      RunFirst(s, t, a, sched[..n]);
    }
  }

  lemma {:induction false} RunJoin(s: System, a: Schedule, b: Schedule)
    ensures RunFrom(s, a + b) == RunFrom(RunFrom(s, a), b)
    decreases |b|
  {
    hide Step;
    if b == [] {
      assert a + b == a;
    } else {
      var n := |b| - 1;
      RunJoin(s, a, b[..n]);
      assert (a + b)[..|a + b| - 1] == a + b[..n];
    }
  }

  /** An activation that is unlocking is the innermost one of its thread, which is doing nothing else. */
  lemma ReleaserIsTop(g: Shared, t: Tid, T: Thread, n: nat)
    requires ThreadOk(g, t, T) && n < |T.stack| && T.stack[n].pc.Release?
    ensures n == |T.stack| - 1 && T.rh.NoRHelp? && T.rd.NoRdcss? && FrameOk(g, t, T.stack[n])
  {
    if n < |T.stack| - 1 { OuterHelps(g, t, T, n); }
  }

  lemma OuterHelps(g: Shared, t: Tid, T: Thread, n: nat)
    requires StackOk(g, t, T) && n < |T.stack| - 1
    ensures T.stack[n].pc.Helping?
  {
    assert SuspendedOn(g, T.stack[n], T.stack[n + 1]);
  }

  lemma RunIs(s: System, t: Tid)
    requires t in s.th
    ensures Step(s, t, Run).g == StepRun(s.g, t, s.th[t]).0 && Step(s, t, Run).th == s.th[t := StepRun(s.g, t, s.th[t]).1]
  {
    hide StepRun;
  }

  /** The next step of such an activation: at entry `i` it unlocks, before that it comes closer. */
  lemma ReleaserStep(g: Shared, t: Tid, T: Thread, k: KId, i: nat)
    requires GInv(g) && T.rh.NoRHelp? && T.rd.NoRdcss? && T.stack != [] && FrameOk(g, t, Top(T)) && Recycled(g, k, i) && WillRelease(Top(T), k, i)
    ensures var (g1, T1) := StepRun(g, t, T); var j := Top(T).pc.j;
      && k in g1.kops && i < |g1.kops[k].es| && g1.kops[k].es == g.kops[k].es
      && (j == i ==> !Locked(g1, k, i))
      && (j < i ==> Recycled(g1, k, i) && T1.stack != [] && Top(T1) == Top(T).(pc := Release(j + 1, Top(T).pc.ok)) && |T1.stack| == |T.stack|)
  {
    var f := Top(T);
    ReleaserKnows(g, t, f, k, i);
    if f.pc.j < i { OtherEntry(g, k, i, f.pc.j); }
    KnownK(g, k);
    hide GInv, FrameOk;
  }

  lemma ReleaserRuns(s: System, t: Tid, n: nat, k: KId, i: nat)
    requires Inv(s) && Recycled(s.g, k, i) && t in s.th && n < |s.th[t].stack| && WillRelease(s.th[t].stack[n], k, i)
    ensures var s1, j := Step(s, t, Run), s.th[t].stack[n].pc.j;
      && (j == i ==> !Holds(s1.g, k, i))
      && (j < i ==> Inv(s1) && Recycled(s1.g, k, i) && t in s1.th && n < |s1.th[t].stack| && WillRelease(s1.th[t].stack[n], k, i) && s1.th[t].stack[n].pc.j == j + 1)
  {
    hide ThreadOk, GInv, StepRun, Step, FrameOk, Rely, AtomicStep;
    StepKeeps(s, t, Run);
    RunIs(s, t);
    assert ThreadOk(s.g, t, s.th[t]);
    ReleaserIsTop(s.g, t, s.th[t], n);
    ReleaserStep(s.g, t, s.th[t], k, i);
    hide Inv;
  }

  lemma {:induction false} ReleaserClears(s: System, t: Tid, n: nat, k: KId, i: nat)
    requires Inv(s) && Recycled(s.g, k, i) && t in s.th && n < |s.th[t].stack| && WillRelease(s.th[t].stack[n], k, i)
    ensures !Holds(RunFrom(s, Runs(t, i - s.th[t].stack[n].pc.j + 1)).g, k, i)
    decreases i - s.th[t].stack[n].pc.j
  {
    hide Step, Inv, Recycled, Holds;
    var j := s.th[t].stack[n].pc.j;
    ReleaserRuns(s, t, n, k, i);
    RunFirst(s, t, Run, Runs(t, i - j));
    assert Runs(t, i - j + 1) == [(t, Run)] + Runs(t, i - j);
    if j < i {
      hide RunFrom;
      ReleaserClears(Step(s, t, Run), t, n, k, i);
    }
  }

  /**
   * The tag of an operation whose slot has moved on stays in memory for ever if and only if no activation that is
   * unlocking for the operation has yet to come to that entry.
   */
  lemma TagStaysIffAbandoned(s: System, k: KId, i: nat)
    requires Inv(s) && Recycled(s.g, k, i)
    ensures (forall sched :: Holds(RunFrom(s, sched).g, k, i)) <==> (forall t :: t in s.th ==> NoneReleases(s.th[t], k, i))
  {
    hide Inv;
    if forall t :: t in s.th ==> NoneReleases(s.th[t], k, i) {
      forall sched ensures Holds(RunFrom(s, sched).g, k, i) { AbandonedTagIsPermanent(s, sched, k, i); }
    } else {
      var t :| t in s.th && !NoneReleases(s.th[t], k, i);
      var n :| 0 <= n < |s.th[t].stack| && WillRelease(s.th[t].stack[n], k, i);
      ReleaserClears(s, t, n, k, i);
    }
  }

  // ---------------------------------------------------------------- readers

  /** A load of `readPtr` that finds a tag does not return. */
  lemma ReaderRuns(s: System, t: Tid, k: KId, i: nat)
    requires Inv(s) && Holds(s.g, k, i) && t in s.th && s.th[t].act == Reading(s.g.kops[k].es[i].addr)
    ensures t in Step(s, t, Run).th && Step(s, t, Run).th[t].act == s.th[t].act
  {
    hide StepRHelp, StepFrame, StepRdcss, ThreadOk, GInv, OwnedBy, Step;
    assert ThreadOk(s.g, t, s.th[t]);
    HelpersStayInCall(s.g, t, s.th[t]);
    RunIs(s, t);
    hide Inv;
  }

  lemma ReaderStep(s: System, t: Tid, u: Tid, act: Action, k: KId, i: nat)
    requires Inv(s) && Holds(s.g, k, i) && t in s.th && s.th[t].act == Reading(s.g.kops[k].es[i].addr)
    ensures t in Step(s, u, act).th && Step(s, u, act).th[t].act == s.th[t].act
  {
    hide Inv, StepRun, Holds;
    if u == t && act.Run? { ReaderRuns(s, t, k, i); }
  }

  /** A thread that is reading a word with an abandoned tag is still reading it after every continuation. */
  lemma {:induction false} ReaderNeverReturns(s: System, sched: Schedule, t: Tid, k: KId, i: nat)
    requires Inv(s) && Abandoned(s, k, i) && t in s.th && s.th[t].act == Reading(s.g.kops[k].es[i].addr)
    ensures t in RunFrom(s, sched).th && RunFrom(s, sched).th[t].act == s.th[t].act
    decreases |sched|
  {
    hide Inv, Step, NoneReleases;
    if sched != [] {
      var n := |sched| - 1;
      var before := RunFrom(s, sched[..n]);
      ReaderNeverReturns(s, sched[..n], t, k, i);
      AbandonedTagIsPermanent(s, sched[..n], k, i);
      RunInv(s, sched[..n]);
      SameEntries(s, sched[..n], k);
      ReaderStep(before, t, sched[n].0, sched[n].1, k, i);
    }
  }

  lemma {:induction false} SameEntries(s: System, sched: Schedule, k: KId)
    requires Inv(s) && k in s.g.kops
    ensures k in RunFrom(s, sched).g.kops && RunFrom(s, sched).g.kops[k].es == s.g.kops[k].es
    decreases |sched|
  {
    hide Inv, Step, AtomicStep;
    if sched != [] {
      var n := |sched| - 1;
      SameEntries(s, sched[..n], k);
      RunInv(s, sched[..n]);
      StepKeeps(RunFrom(s, sched[..n]), sched[n].0, sched[n].1);
      RelyKnown(RunFrom(s, sched[..n]).g, RunFrom(s, sched).g, k);
      hide Rely;
    }
  }
}
