/**
 * A run in which the tag of a k-CAS that failed, and whose owner has returned and gone on, is in memory for ever.
 *
 * Thread 0 finds another value than it expects in its second word and stops before deciding. Thread 1 gives that
 * word the expected value with a k-CAS of its own, meets thread 0's operation in the first word, helps it, installs
 * an RDCSS in the second word, reads UNDECIDED, and stops. Thread 0 fails, returns and starts its next operation.
 * Then thread 1 finishes its RDCSS.
 */
module KcasWitness {
  import opened KcasModel
  import opened KcasInvariant
  import opened KcasSteps
  import opened KcasTheorems
  import opened KcasAbandoned
  import opened KcasAlone

  // ---------------------------------------------------------------- the run

  /** Everything a step reads, for two threads and two words. */
  datatype View = View(m10: Word, m20: Word, k0: KSlot, k1: KSlot, r0: RSlot, r1: RSlot, t0: Thread, t1: Thread)

  ghost predicate Shows(s: System, v: View) {
    && s.g.mem == map[10 := v.m10, 20 := v.m20]
    && s.g.kslot == map[0 := v.k0, 1 := v.k1] && s.g.rslot == map[0 := v.r0, 1 := v.r1]
    && s.th == map[0 := v.t0, 1 := v.t1]
  }

  lemma Put<V>(a: V, b: V, c: V)
    ensures map[0 := a, 1 := b][0 := c] == map[0 := c, 1 := b] && map[0 := a, 1 := b][1 := c] == map[0 := a, 1 := c]
  {}

  lemma Seen0(s: System, s1: System, v: View, v1: View)
    requires Shows(s, v) && Next(s, s1, 0, map[10 := v1.m10, 20 := v1.m20], map[0 := v1.k0, 1 := v1.k1], v1.r0, v1.t0) && v1.r1 == v.r1 && v1.t1 == v.t1
    ensures Shows(s1, v1)
  {
    Put(v.r0, v.r1, v1.r0);
    Put(v.t0, v.t1, v1.t0);
  }

  lemma Seen1(s: System, s1: System, v: View, v1: View)
    requires Shows(s, v) && Next(s, s1, 1, map[10 := v1.m10, 20 := v1.m20], map[0 := v1.k0, 1 := v1.k1], v1.r1, v1.t1) && v1.r0 == v.r0 && v1.t0 == v.t0
    ensures Shows(s1, v1)
  {
    Put(v.r0, v.r1, v1.r1);
    Put(v.t0, v.t1, v1.t1);
  }

  const PAY0: seq<int> := [2, 10, 0, 1, 20, 5, 6]
  const PAY1: seq<int> := [1, 20, 7, 5, 0, 0, 0]
  const K0 := KId(0, 3)
  const K1 := KId(1, 3)
  const BLANK := RSlot(1, [Plain(0), Plain(0), Plain(0), Plain(0), Plain(0)])
  const IDLE := Thread(Idle, [], NoRdcss, NoRHelp, NoResult)

  function In(f: Frame): Thread { Thread(Executing, [f], NoRdcss, NoRHelp, NoResult) }

  /** The owner's activation of either operation, and thread 1's activation for thread 0's. */
  function F0(pc: Pc): Frame { Frame(K0, true, [], pc) }
  function F1(pc: Pc): Frame { Frame(K1, true, [], pc) }
  function H0(pc: Pc): Frame { Frame(K0, false, PAY0, pc) }

  /** At the start. */
  const V0 := View(Plain(0), Plain(7), KSlot(1, Undecided, PAY0, false), KSlot(1, Undecided, PAY1, false), BLANK, BLANK, IDLE, IDLE)

  /** Thread 0 has published its operation. */
  const V1 := V0.(k0 := KSlot(3, Undecided, PAY0, false), t0 := In(F0(ReadState)))

  /** It has locked the first word. */
  const V2 := V1.(m10 := KTag(K0), r0 := RSlot(3, RPay(K0, Entry(10, 0, 1))), t0 := In(F0(AtEntry(1))))

  /** It has found 7 in the second word. */
  const V3 := V2.(r0 := RSlot(5, RPay(K0, Entry(20, 5, 6))), t0 := In(F0(Decide(false))))

  lemma Entries()
    ensures Decode(PAY0) == [Entry(10, 0, 1), Entry(20, 5, 6)] && Decode(PAY1) == [Entry(20, 7, 5)]
    ensures NumEntries(PAY0) == 2 && NumEntries(PAY1) == 1
    ensures EntryAt(PAY0, 0) == Entry(10, 0, 1) && EntryAt(PAY0, 1) == Entry(20, 5, 6) && EntryAt(PAY1, 0) == Entry(20, 7, 5)
  {}

  lemma Publish0(s: System)
    requires Shows(s, V0)
    ensures var s1 := Step(Step(s, 0, Start), 0, Execute); Shows(s1, V1) && K0 in s1.g.kops && s1.g.kops[K0].es == [Entry(10, 0, 1), Entry(20, 5, 6)]
  {
    hide Step;
    Entries();
    StartStep(s, 0);
    var s1, v := Step(s, 0, Start), V0.(k0 := KSlot(2, Undecided, PAY0, true));
    Seen0(s, s1, V0, v);
    assert OpOk(s1.g, PAY0);
    ExecuteStep(s1, 0);
    Seen0(s1, Step(s1, 0, Execute), v, V1);
  }

  lemma Lock0(s: System)
    requires Shows(s, V1)
    ensures Shows(Go(s, 0, 11), V2)
  {
    hide Step, Go;
    Entries();
    var s1, v := Step(s, 0, Run), V1.(t0 := In(F0(AtEntry(0))));
    MoveStep(s, 0, F0(ReadState), F0(AtEntry(0)));
    Seen0(s, s1, V1, v);
    GoFirst(s, 0, 10);
    LockRun(s1, 0, F0(AtEntry(0)), 0, Entry(10, 0, 1));
    Seen0(s1, Go(s1, 0, 10), v, V2);
  }

  lemma Mismatch0(s: System)
    requires Shows(s, V2)
    ensures Shows(Go(s, 0, 8), V3)
  {
    hide Step, Go;
    Entries();
    var s7, r, e := Go(s, 0, 7), RId(0, 5), Entry(20, 5, 6);
    var v := V2.(r0 := RSlot(5, RPay(K0, e)), t0 := In(F0(InRdcss(1))).(rd := Trying(r)));
    Prepare(s, 0, F0(AtEntry(1)), 1, e);
    Seen0(s, s7, V2, v);
    SeeOtherStep(s7, 0, F0(InRdcss(1)), 1, e, r);
    GoJoin(s, 0, 7, 1);
    GoOne(s7, 0);
    Seen0(s7, Step(s7, 0, Run), v, V3);
  }

  /** Thread 1 has published an operation that gives the second word the value 5. */
  const V4 := V3.(k1 := KSlot(3, Undecided, PAY1, false), t1 := In(F1(ReadState)))

  /** It has locked the second word. */
  const V5 := V4.(m20 := KTag(K1), r1 := RSlot(3, RPay(K1, Entry(20, 7, 5))), t1 := In(F1(AtEntry(1))))

  /** It has succeeded and returned. */
  const V6 := V5.(m20 := Plain(5), k1 := KSlot(3, Succeeded, PAY1, false), t1 := IDLE.(res := Returned(K1, true)))

  lemma Publish1(s: System)
    requires Shows(s, V3)
    ensures var s1 := Step(Step(s, 1, Start), 1, Execute); Shows(s1, V4) && K1 in s1.g.kops
  {
    hide Step;
    Entries();
    StartStep(s, 1);
    var s1, v := Step(s, 1, Start), V3.(k1 := KSlot(2, Undecided, PAY1, true));
    Seen1(s, s1, V3, v);
    assert OpOk(s1.g, PAY1);
    ExecuteStep(s1, 1);
    Seen1(s1, Step(s1, 1, Execute), v, V4);
  }

  lemma Lock1(s: System)
    requires Shows(s, V4)
    ensures Shows(Go(s, 1, 11), V5)
  {
    hide Step, Go;
    Entries();
    var s1, v := Step(s, 1, Run), V4.(t1 := In(F1(AtEntry(0))));
    MoveStep(s, 1, F1(ReadState), F1(AtEntry(0)));
    Seen1(s, s1, V4, v);
    GoFirst(s, 1, 10);
    LockRun(s1, 1, F1(AtEntry(0)), 0, Entry(20, 7, 5));
    Seen1(s1, Go(s1, 1, 10), v, V5);
  }

  lemma Succeed1(s: System)
    requires Shows(s, V5) && K1 in s.g.kops
    ensures Shows(Go(s, 1, 3), V5.(k1 := KSlot(3, Succeeded, PAY1, false), t1 := In(F1(Phase2))))
  {
    hide Step, Go;
    Entries();
    var s1 := Step(s, 1, Run);
    var s2 := Step(s1, 1, Run);
    var v1, v2 := V5.(t1 := In(F1(Decide(true)))), V5.(t1 := In(F1(DecideCas(true))));
    MoveStep(s, 1, F1(AtEntry(1)), F1(Decide(true)));
    Seen1(s, s1, V5, v1);
    MoveStep(s1, 1, F1(Decide(true)), F1(DecideCas(true)));
    Seen1(s1, s2, v1, v2);
    DecideStep(s2, 1, F1(DecideCas(true)), true);
    Seen1(s2, Step(s2, 1, Run), v2, V5.(k1 := KSlot(3, Succeeded, PAY1, false), t1 := In(F1(Phase2))));
    GoThree(s, 1);
  }

  lemma GoThree(s: System, t: Tid)
    ensures Go(s, t, 3) == Step(Step(Step(s, t, Run), t, Run), t, Run)
  {
    hide Step;
  }

  lemma Release1(s: System)
    requires Shows(s, V5.(k1 := KSlot(3, Succeeded, PAY1, false), t1 := In(F1(Phase2))))
    ensures Shows(Go(s, 1, 3), V6)
  {
    hide Step, Go;
    Entries();
    var s1 := Step(s, 1, Run);
    var s2 := Step(s1, 1, Run);
    var v0 := V5.(k1 := KSlot(3, Succeeded, PAY1, false), t1 := In(F1(Phase2)));
    var v1 := v0.(t1 := In(F1(Release(0, true))));
    var v2 := v0.(m20 := Plain(5), t1 := In(F1(Release(1, true))));
    MoveStep(s, 1, F1(Phase2), F1(Release(0, true)));
    Seen1(s, s1, v0, v1);
    UnlockStep(s1, 1, F1(Release(0, true)), 0, true, Entry(20, 7, 5));
    Seen1(s1, s2, v1, v2);
    ReturnStep(s2, 1, F1(Release(1, true)), 1, true);
    Seen1(s2, Step(s2, 1, Run), v2, V6);
    GoThree(s, 1);
  }

  /** It reads the first word, and has read the descriptor of the operation it found there. */
  const V7 := V6.(t1 := Thread(Reading(10), [H0(AtEntry(1))], NoRdcss, NoRHelp, Returned(K1, true)))

  /** Its RDCSS is in the second word and has read UNDECIDED. */
  const V8 := V6.(m20 := RTag(RId(1, 5)), r1 := RSlot(5, RPay(K0, Entry(20, 5, 6))),
    t1 := Thread(Reading(10), [H0(InRdcss(1))], Finishing(RId(1, 5)), RCas(RId(1, 5), RPay(K0, Entry(20, 5, 6)), true), Returned(K1, true)))

  lemma Meet1(s: System)
    requires Shows(s, V6)
    ensures Shows(Go(Step(s, 1, ReadPtr(10)), 1, 8), V6.(t1 := Thread(Reading(10), [H0(Copy)], NoRdcss, NoRHelp, Returned(K1, true))))
  {
    hide Step, Go;
    var s1 := Step(s, 1, ReadPtr(10));
    var s2 := Step(s1, 1, Run);
    var v1, v2 := V6.(t1 := V6.t1.(act := Reading(10))), V6.(t1 := V6.t1.(act := Reading(10), stack := [HelpFrame(K0)]));
    ReadPtrStep(s, 1, 10);
    Seen1(s, s1, V6, v1);
    FindStep(s1, 1, K0);
    Seen1(s1, s2, v1, v2);
    GoFirst(s1, 1, 7);
    CopyRun(s2, 1, HelpFrame(K0));
    Seen1(s2, Go(s2, 1, 7), v2, V6.(t1 := Thread(Reading(10), [H0(Copy)], NoRdcss, NoRHelp, Returned(K1, true))));
  }

  lemma Help1(s: System)
    requires Shows(s, V6.(t1 := Thread(Reading(10), [H0(Copy)], NoRdcss, NoRHelp, Returned(K1, true))))
    ensures Shows(Go(s, 1, 11), V8)
  {
    hide Step, Go;
    Entries();
    var s1 := Step(s, 1, Run);
    var s2 := Step(s1, 1, Run);
    var v0 := V6.(t1 := Thread(Reading(10), [H0(Copy)], NoRdcss, NoRHelp, Returned(K1, true)));
    var v1 := v0.(t1 := v0.t1.(stack := [H0(ReadState)]));
    MoveStep(s, 1, H0(Copy), H0(ReadState));
    Seen1(s, s1, v0, v1);
    MoveStep(s1, 1, H0(ReadState), H0(AtEntry(1)));
    Seen1(s1, s2, v1, V7);
    GoFirst(s, 1, 10);
    GoFirst(s1, 1, 9);
    Reach(s2, 1, H0(AtEntry(1)), 1, Entry(20, 5, 6));
    Seen1(s2, Go(s2, 1, 9), V7, V8);
  }

  /** Thread 0 has failed and returned. */
  const V9 := V8.(m10 := Plain(0), k0 := KSlot(3, Failed, PAY0, false), t0 := IDLE.(res := Returned(K0, false)))

  lemma Fail0(s: System)
    requires Shows(s, V8) && K0 in s.g.kops
    ensures Shows(Go(s, 0, 3), V8.(k0 := KSlot(3, Failed, PAY0, false), t0 := In(F0(Release(0, false)))))
  {
    hide Step, Go;
    var s1 := Step(s, 0, Run);
    var s2 := Step(s1, 0, Run);
    var v1, v2 := V8.(t0 := In(F0(DecideCas(false)))), V8.(k0 := KSlot(3, Failed, PAY0, false), t0 := In(F0(Phase2)));
    MoveStep(s, 0, F0(Decide(false)), F0(DecideCas(false)));
    Seen0(s, s1, V8, v1);
    DecideStep(s1, 0, F0(DecideCas(false)), false);
    Seen0(s1, s2, v1, v2);
    MoveStep(s2, 0, F0(Phase2), F0(Release(0, false)));
    Seen0(s2, Step(s2, 0, Run), v2, V8.(k0 := KSlot(3, Failed, PAY0, false), t0 := In(F0(Release(0, false)))));
    GoThree(s, 0);
  }

  lemma Release0(s: System)
    requires Shows(s, V8.(k0 := KSlot(3, Failed, PAY0, false), t0 := In(F0(Release(0, false)))))
    ensures Shows(Go(s, 0, 3), V9)
  {
    hide Step, Go;
    Entries();
    var s1 := Step(s, 0, Run);
    var s2 := Step(s1, 0, Run);
    var v0 := V8.(k0 := KSlot(3, Failed, PAY0, false), t0 := In(F0(Release(0, false))));
    var v1 := v0.(m10 := Plain(0), t0 := In(F0(Release(1, false))));
    var v2 := v1.(t0 := In(F0(Release(2, false))));
    UnlockStep(s, 0, F0(Release(0, false)), 0, false, Entry(10, 0, 1));
    Seen0(s, s1, v0, v1);
    UnlockStep(s1, 0, F0(Release(1, false)), 1, false, Entry(20, 5, 6));
    Seen0(s1, s2, v1, v2);
    ReturnStep(s2, 0, F0(Release(2, false)), 2, false);
    Seen0(s2, Step(s2, 0, Run), v2, V9);
    GoThree(s, 0);
  }

  /** Thread 0 has begun its next operation, and thread 1 has finished its RDCSS. */
  const V10 := V9.(m20 := KTag(K0), k0 := KSlot(4, Undecided, PAY0, true), t1 := Thread(Reading(10), [H0(AtEntry(2))], NoRdcss, NoRHelp, Returned(K1, true)))

  lemma Late1(s: System)
    requires Shows(s, V9)
    ensures Shows(Step(Step(s, 0, Start), 1, Run), V10)
  {
    hide Step;
    var s1, v := Step(s, 0, Start), V9.(k0 := KSlot(4, Undecided, PAY0, true));
    StartStep(s, 0);
    Seen0(s, s1, V9, v);
    CasStep(s1, 1, H0(InRdcss(1)), 1, Entry(20, 5, 6), RId(1, 5));
    Seen1(s1, Step(s1, 1, Run), v, V10);
  }

  lemma RunOne(s: System, t: Tid, act: Action)
    ensures RunFrom(s, [(t, act)]) == Step(s, t, act)
  {
    RunFirst(s, t, act, []);
    assert [(t, act)] + [] == [(t, act)];
  }

  /** Two client steps and then `n` steps of the same thread. */
  function Call(t: Tid, n: nat): Schedule {
    [(t, Start)] + ([(t, Execute)] + Runs(t, n))
  }

  lemma CallIs(s: System, t: Tid, n: nat)
    ensures RunFrom(s, Call(t, n)) == Go(Step(Step(s, t, Start), t, Execute), t, n)
  {
    hide Step, RunFrom;
    RunFirst(s, t, Start, [(t, Execute)] + Runs(t, n));
    RunFirst(Step(s, t, Start), t, Execute, Runs(t, n));
    GoIsRun(Step(Step(s, t, Start), t, Execute), t, n);
  }

  ghost predicate Knows0(s: System) {
    Inv(s) && K0 in s.g.kops && s.g.kops[K0].es == [Entry(10, 0, 1), Entry(20, 5, 6)]
  }

  lemma StillKnows(s: System, sched: Schedule)
    requires Knows0(s)
    ensures Knows0(RunFrom(s, sched))
  {
    hide Inv;
    RunInv(s, sched);
    SameEntries(s, sched, K0);
  }

  lemma Part1(s: System)
    requires Inv(s) && Shows(s, V0)
    ensures Shows(RunFrom(s, Call(0, 19)), V3) && Knows0(RunFrom(s, Call(0, 19)))
  {
    hide Step, Inv, Go, RunFrom, Shows;
    var s1 := Step(Step(s, 0, Start), 0, Execute);
    CallIs(s, 0, 19);
    Publish0(s);
    TwoSteps(s, 0);
    Lock0(s1);
    GoJoin(s1, 0, 11, 8);
    Mismatch0(Go(s1, 0, 11));
    GoIsRun(s1, 0, 19);
    StillKnows(s1, Runs(0, 19));
  }

  lemma TwoSteps(s: System, t: Tid)
    requires Inv(s)
    ensures Inv(Step(Step(s, t, Start), t, Execute))
  {
    hide Step, Inv, Rely, AtomicStep;
    StepKeeps(s, t, Start);
    StepKeeps(Step(s, t, Start), t, Execute);
  }

  lemma Part2(s: System)
    requires Knows0(s) && Shows(s, V3)
    ensures Shows(RunFrom(s, Call(1, 17)), V6) && Knows0(RunFrom(s, Call(1, 17)))
  {
    StillKnows(s, Call(1, 17));
    hide Step, Inv, Go, RunFrom, Shows;
    var s1 := Step(Step(s, 1, Start), 1, Execute);
    CallIs(s, 1, 17);
    Publish1(s);
    TwoSteps(s, 1);
    Lock1(s1);
    GoIsRun(s1, 1, 11);
    SameEntries(s1, Runs(1, 11), K1);
    var s12 := Go(s1, 1, 11);
    Succeed1(s12);
    Release1(Go(s12, 1, 3));
    GoJoin(s12, 1, 3, 3);
    GoJoin(s1, 1, 11, 6);
  }

  lemma Part3(s: System)
    requires Knows0(s) && Shows(s, V6)
    ensures Shows(RunFrom(s, [(1, ReadPtr(10))] + Runs(1, 19)), V8) && Knows0(RunFrom(s, [(1, ReadPtr(10))] + Runs(1, 19)))
  {
    StillKnows(s, [(1, ReadPtr(10))] + Runs(1, 19));
    hide Step, Inv, Go, RunFrom, Shows;
    var s1 := Step(s, 1, ReadPtr(10));
    RunFirst(s, 1, ReadPtr(10), Runs(1, 19));
    GoIsRun(s1, 1, 19);
    GoJoin(s1, 1, 8, 11);
    Meet1(s);
    Help1(Go(s1, 1, 8));
  }

  lemma Part4(s: System)
    requires Knows0(s) && Shows(s, V8)
    ensures Shows(RunFrom(s, Runs(0, 6)), V9) && Knows0(RunFrom(s, Runs(0, 6)))
  {
    StillKnows(s, Runs(0, 6));
    hide Step, Inv, Go, RunFrom, Shows;
    GoIsRun(s, 0, 6);
    GoJoin(s, 0, 3, 3);
    Fail0(s);
    Release0(Go(s, 0, 3));
  }

  lemma Part5(s: System)
    requires Knows0(s) && Shows(s, V9)
    ensures Shows(RunFrom(s, [(0, Start)] + [(1, Run)]), V10) && Knows0(RunFrom(s, [(0, Start)] + [(1, Run)]))
  {
    StillKnows(s, [(0, Start)] + [(1, Run)]);
    hide Step, Inv, RunFrom, Shows;
    RunFirst(s, 0, Start, [(1, Run)]);
    RunOne(Step(s, 0, Start), 1, Run);
    Late1(s);
  }

  const START := System(
    Shared(map[10 := V0.m10, 20 := V0.m20], map[0 := V0.k0, 1 := V0.k1], map[0 := V0.r0, 1 := V0.r1], map[], map[]),
    map[0 := IDLE, 1 := IDLE])

  function Story(): Schedule {
    Call(0, 19) + (Call(1, 17) + (([(1, ReadPtr(10))] + Runs(1, 19)) + (Runs(0, 6) + ([(0, Start)] + [(1, Run)]))))
  }

  lemma StoryEnds()
    requires Inv(START)
    ensures Shows(RunFrom(START, Story()), V10) && Knows0(RunFrom(START, Story()))
  {
    var a, b, c, d, e := Call(0, 19), Call(1, 17), [(1, ReadPtr(10))] + Runs(1, 19), Runs(0, 6), [(0, Start)] + [(1, Run)];
    assert Shows(START, V0);
    hide Inv, Step, RunFrom, Shows, Call, Runs, Knows0;
    RunJoin(START, a, b + (c + (d + e)));
    Part1(START);
    var s1 := RunFrom(START, a);
    RunJoin(s1, b, c + (d + e));
    Part2(s1);
    var s2 := RunFrom(s1, b);
    RunJoin(s2, c, d + e);
    Part3(s2);
    var s3 := RunFrom(s2, c);
    RunJoin(s3, d, e);
    Part4(s3);
    Part5(RunFrom(s3, d));
  }

  lemma StartIsInitial()
    ensures Initial(START)
  {}

  /**
   * From an initial state the schedule `Story` leads to the tag of a failed operation, whose owner has returned
   * false, in a word that it stays in whatever happens next.
   */
  lemma AbandonedTagIsReached()
    ensures Initial(START)
    ensures var s := RunFrom(START, Story());
      && Inv(s) && Abandoned(s, K0, 1) && s.g.kops[K0].es[1].addr == 20 && MemAt(s.g, 20) == KTag(K0)
      && 0 in s.th && s.th[0].res == Returned(K0, false)
      && forall sched :: Holds(RunFrom(s, sched).g, K0, 1)
  {
    hide Inv, Step, RunFrom, Story;
    StartIsInitial();
    InitialOk(START);
    StoryEnds();
    var s := RunFrom(START, Story());
    forall sched ensures Holds(RunFrom(s, sched).g, K0, 1) { AbandonedTagIsPermanent(s, sched, K0, 1); }
  }

  /** If thread 0 then reads the word, it is still reading after every continuation. */
  lemma ReaderIsStuck(sched: Schedule)
    ensures var s := RunFrom(Step(RunFrom(START, Story()), 0, ReadPtr(20)), sched); 0 in s.th && s.th[0].act == Reading(20)
  {
    hide Inv, RunFrom, Story, NoneReleases, Rely, AtomicStep;
    StartIsInitial();
    InitialOk(START);
    StoryEnds();
    AbandonedTagIsReached();
    var s := RunFrom(START, Story());
    var s1 := Step(s, 0, ReadPtr(20));
    StepKeeps(s, 0, ReadPtr(20));
    AbandonedStep(s, 0, ReadPtr(20), K0, 1);
    ReaderNeverReturns(s1, sched, 0, K0, 1);
  }
}
