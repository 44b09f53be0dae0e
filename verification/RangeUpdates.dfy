/**
 * What an update does to its word, when it linearizes, and that its nodes end up stamped.
 */
module RangeUpdates {
  import opened RangeQuery
  import opened RangeReads

  /** The update of `t` linearizes with this step: its word goes from the compared to the new value, and its nodes are inserted and deleted. */
  ghost predicate LinearizesBy(s: System, s1: System, t: Tid, u: Update, ts: int, old2: int) {
    && t < |s.th| && s.th[t].pc == Dcss(u, ts, old2) && s.timestamp == ts && u.addr in s.mem && s.mem[u.addr] == old2
    && s1.mem == s.mem[u.addr := u.newval]
    && Joined(s.ins, s1.ins, u.ins, Lin(s.now, ts, t)) && Joined(s.del, s1.del, u.del, Lin(s.now, ts, t))
    && t < |s1.th| && s1.th[t].pc == SetItime(u, ts, 0)
  }

  /** `m1` is `m` and each of `xs`, new, with `e`. */
  ghost predicate Joined(m: map<Node, Lin>, m1: map<Node, Lin>, xs: seq<Node>, e: Lin) {
    && (forall x :: x in m1 <==> x in m || x in xs)
    && (forall x :: x in m ==> x !in xs && x in m1 && m1[x] == m[x])
    && (forall x :: x in xs ==> x in m1 && m1[x] == e)
  }

  lemma AddLinJoins(m: map<Node, Lin>, xs: seq<Node>, e: Lin)
    requires forall x :: x in xs ==> x !in m
    ensures Joined(m, AddLin(m, xs, e), xs, e)
  {}

  /** Words, insertions and deletions are as before. */
  predicate Unchanged(s: System, s1: System) {
    s1.mem == s.mem && s1.ins == s.ins && s1.del == s.del
  }

  lemma DcssChanges(s: System, t: Tid)
    requires t < |s.th| && s.th[t].pc.Dcss?
    ensures var pc, s1 := s.th[t].pc, Tick(DoDcss(s, t)); Unchanged(s, s1) || LinearizesBy(s, s1, t, pc.u, pc.ts, pc.old2)
  {
    var pc := s.th[t].pc;
    if Usable(s, pc.u) { LinearizeJoins(s, t, pc.u); }
    hide Linearize, Joined, Usable;
  }

  lemma LinearizeJoins(s: System, t: Tid, u: Update)
    requires Usable(s, u)
    ensures var s1, e := Linearize(s, t, u), Lin(s.now, s.timestamp, t);
      s1.mem == s.mem[u.addr := u.newval] && s1.th == s.th && Joined(s.ins, s1.ins, u.ins, e) && Joined(s.del, s1.del, u.del, e)
  {
    AddLinJoins(s.ins, u.ins, Lin(s.now, s.timestamp, t));
    AddLinJoins(s.del, u.del, Lin(s.now, s.timestamp, t));
    hide AddLin, Joined, Usable;
  }

  lemma RunChanges(s: System, t: Tid)
    requires t < |s.th|
    ensures var pc, s1 := s.th[t].pc, Tick(StepRun(s, t)); Unchanged(s, s1) || (pc.Dcss? && LinearizesBy(s, s1, t, pc.u, pc.ts, pc.old2))
  {
    hide DoDcss, DoSetItime, DoSetDtime, LinearizesBy, Quietly, Retiring;
    match s.th[t].pc
    case Dcss(_, _, _) => DcssChanges(s, t);
    case SetItime(_, _, _) => ItimeChangesNone(s, t);
    case SetDtime(_, _, _) => DtimeChangesNone(s, t);
    case _ =>
  }

  lemma ItimeChangesNone(s: System, t: Tid)
    requires t < |s.th| && s.th[t].pc.SetItime?
    ensures Unchanged(s, DoSetItime(s, t))
  {}

  lemma DtimeChangesNone(s: System, t: Tid)
    requires t < |s.th| && s.th[t].pc.SetDtime?
    ensures Unchanged(s, DoSetDtime(s, t))
  {}

  /**
   * Every step leaves words, insertions and deletions as they are, or is the DCSS of one update that finds the
   * timestamp and the word as it compared them, and then it changes that word to the new value and nothing else.
   */
  lemma OnlyDcssChanges(s: System, t: Tid, a: Action)
    ensures var s1 := Step(s, t, a);
      Unchanged(s, s1) || (a.Run? && t < |s.th| && s.th[t].pc.Dcss? && LinearizesBy(s, s1, t, s.th[t].pc.u, s.th[t].pc.ts, s.th[t].pc.old2))
  {
    hide StepRun, LinearizesBy;
    if t < |s.th| { RunChanges(s, t); }
  }

  /** The DCSS of an update succeeds exactly if it finds both values, and, at a CAS, the update fails exactly if it finds another value in its word. */
  lemma DcssDecides(s: System, t: Tid)
    requires t < |s.th| && s.th[t].pc.Dcss? && s.th[t].pc.u.addr in s.mem && Usable(s, s.th[t].pc.u)
    ensures var pc, s1 := s.th[t].pc, Step(s, t, Run);
      && (s.timestamp == pc.ts && s.mem[pc.u.addr] == pc.old2 <==> s1.th[t].pc == SetItime(pc.u, pc.ts, 0))
      && (pc.u.byCas && s.mem[pc.u.addr] != pc.old2 <==> s1.th[t].pc == Unannounce(pc.u, 0))
      && (s1.th[t].pc.SetItime? || s1.th[t].pc.Unannounce? || s1.th[t].pc == ReadTime(pc.u))
  {
    hide AddLin, Usable;
  }

  // ---------------------------------------------------------------- what an update compares with

  /** An update at a CAS compares its word with the old value it was given; every update goes on with the arguments it was begun with. */
  ghost predicate Compares(T: Thread) {
    (T.pc.Dcss? && T.pc.u.byCas ==> T.pc.old2 == T.pc.u.oldval) && (T.pc.ReadOld? ==> !T.pc.u.byCas)
  }

  lemma ComparesStep(s: System, u: Tid, a: Action, t: Tid)
    requires t < |s.th| && Compares(s.th[t])
    ensures t < |Step(s, u, a).th| && Compares(Step(s, u, a).th[t])
  {
    hide Step;
    StepThread(s, u, a, t);
  }

  lemma {:induction false} ComparesAlways(s: System, sched: Schedule, t: Tid)
    requires Initial(s) && t < |s.th|
    ensures t < |RunFrom(s, sched).th| && Compares(RunFrom(s, sched).th[t])
    decreases |sched|
  {
    hide Step, Compares;
    if sched == [] {
      ComparesAtStart(s, t);
    } else {
      var n := |sched| - 1;
      ComparesAlways(s, sched[..n], t);
      ComparesStep(RunFrom(s, sched[..n]), sched[n].0, sched[n].1, t);
    }
  }

  lemma ComparesAtStart(s: System, t: Tid)
    requires Initial(s) && t < |s.th|
    ensures Compares(s.th[t])
  {}

  /**
   * In every run, a step that inserts or deletes nodes or changes a word is the DCSS of one update `u`. Before it
   * the timestamp and the word are as compared, at a CAS with the old value given; after it the word has the new value
   * given, no other word has changed, and exactly the nodes of `u` have been inserted and deleted.
   */
  lemma UpdatesAreSwaps(s: System, sched: Schedule, t: Tid, a: Action)
    requires Initial(s)
    ensures var s0, s1 := RunFrom(s, sched), Step(RunFrom(s, sched), t, a);
      !Unchanged(s0, s1) ==>
        && t < |s0.th| && s0.th[t].pc.Dcss?
        && var pc := s0.th[t].pc;
        && LinearizesBy(s0, s1, t, pc.u, pc.ts, pc.old2) && (pc.u.byCas ==> s0.mem[pc.u.addr] == pc.u.oldval)
  {
    hide RunFrom, Step, Joined;
    var s0 := RunFrom(s, sched);
    OnlyDcssChanges(s0, t, a);
    SameThreads(s, sched);
    if t < |s0.th| { ComparesAlways(s, sched, t); }
  }

  lemma {:induction false} SameThreads(s: System, sched: Schedule)
    ensures |RunFrom(s, sched).th| == |s.th|
    decreases |sched|
  {
    hide Step;
    if sched != [] {
      SameThreads(s, sched[..|sched| - 1]);
      StepThreads(RunFrom(s, sched[..|sched| - 1]), sched[|sched| - 1].0, sched[|sched| - 1].1);
    }
  }

  lemma StepThreads(s: System, t: Tid, a: Action)
    ensures |Step(s, t, a).th| == |s.th|
  {
    hide StepRun;
    if t < |s.th| { StepMoves(s, t, a); }
  }

  // ---------------------------------------------------------------- an update that runs alone

  lemma ReadsAlone(s: System, t: Tid, u: Update)
    requires t < |s.th| && s.th[t].pc == ReadTime(u) && u.addr in s.mem
    ensures var s1 := Step(s, t, Run);
      && |s1.th| == |s.th| && Unchanged(s, s1) && s1.timestamp == s.timestamp
      && s1.th[t].pc == if u.byCas then Dcss(u, s.timestamp, u.oldval) else ReadOld(u, s.timestamp)
  {}

  lemma ReadsOldAlone(s: System, t: Tid, u: Update, ts: int)
    requires t < |s.th| && s.th[t].pc == ReadOld(u, ts) && u.addr in s.mem
    ensures var s1 := Step(s, t, Run); |s1.th| == |s.th| && Unchanged(s, s1) && s1.timestamp == s.timestamp && s1.th[t].pc == Dcss(u, ts, s.mem[u.addr])
  {}

  /** An update at a CAS that runs alone succeeds exactly if its word has the old value; one at a write succeeds. */
  lemma UpdateAlone(s: System, t: Tid, u: Update)
    requires t < |s.th| && s.th[t].pc == ReadTime(u) && u.addr in s.mem && Usable(s, u)
    ensures var s2 := Step(Step(s, t, Run), t, Run);
      u.byCas ==> |s2.th| == |s.th| && if s.mem[u.addr] == u.oldval then s2.mem == s.mem[u.addr := u.newval] && s2.th[t].pc == SetItime(u, s.timestamp, 0) else Unchanged(s, s2) && s2.th[t].pc == Unannounce(u, 0)
    ensures var s3 := Step(Step(Step(s, t, Run), t, Run), t, Run);
      !u.byCas ==> |s3.th| == |s.th| && s3.mem == s.mem[u.addr := u.newval] && s3.th[t].pc == SetItime(u, s.timestamp, 0)
  {
    hide Step, Usable;
    var s1 := Step(s, t, Run);
    ReadsAlone(s, t, u);
    SameUsable(s, s1, u);
    if u.byCas {
      DcssAlone(s1, t);
    } else {
      var s2 := Step(s1, t, Run);
      ReadsOldAlone(s1, t, u, s.timestamp);
      SameUsable(s1, s2, u);
      DcssAlone(s2, t);
    }
  }

  lemma SameUsable(s: System, s1: System, u: Update)
    requires Usable(s, u) && Unchanged(s, s1)
    ensures Usable(s1, u)
  {}

  lemma DcssAlone(s: System, t: Tid)
    requires t < |s.th| && s.th[t].pc.Dcss? && s.th[t].pc.u.addr in s.mem && Usable(s, s.th[t].pc.u) && s.timestamp == s.th[t].pc.ts
    ensures var pc, s1 := s.th[t].pc, Step(s, t, Run);
      && |s1.th| == |s.th|
      && (s.mem[pc.u.addr] == pc.old2 ==> s1.mem == s.mem[pc.u.addr := pc.u.newval] && s1.th[t].pc == SetItime(pc.u, pc.ts, 0))
      && (s.mem[pc.u.addr] != pc.old2 && pc.u.byCas ==> Unchanged(s, s1) && s1.th[t].pc == Unannounce(pc.u, 0))
  {
    DcssDecides(s, t);
    StepThreads(s, t, Run);
    OnlyDcssChanges(s, t, Run);
    hide Step, Usable, Joined;
  }

  // ---------------------------------------------------------------- stamps

  /** The thread has yet to stamp `x`, which it has inserted. */
  predicate Inserting(T: Thread, x: Node) {
    T.pc.SetItime? && exists j :: T.pc.i <= j < |T.pc.u.ins| && T.pc.u.ins[j] == x
  }

  /** The thread has yet to stamp `x`, which it has deleted. */
  predicate Deleting(T: Thread, x: Node) {
    && (T.pc.SetItime? || T.pc.SetDtime?)
    && exists j :: (if T.pc.SetDtime? then T.pc.i else 0) <= j < |T.pc.u.del| && T.pc.u.del[j] == x
  }

  /** Every inserted node has its stamp, or its inserter has yet to set it; and so with deleted nodes. */
  ghost predicate Stamped(s: System, x: Node) {
    && (x in s.ins ==> x in s.itime || (s.ins[x].who < |s.th| && Inserting(s.th[s.ins[x].who], x)))
    && (x in s.del ==> x in s.dtime || (s.del[x].who < |s.th| && Deleting(s.th[s.del[x].who], x)))
  }

  lemma InsertingStep(s: System, u: Tid, a: Action, t: Tid, x: Node)
    requires t < |s.th| && Inserting(s.th[t], x)
    ensures t < |Step(s, u, a).th| && (Inserting(Step(s, u, a).th[t], x) || x in Step(s, u, a).itime)
  {
    StepThread(s, u, a, t);
    hide StepRun;
    if u == t && a.Run? { SetsItime(s, t, x); }
  }

  lemma SetsItime(s: System, t: Tid, x: Node)
    requires t < |s.th| && Inserting(s.th[t], x)
    ensures t < |StepRun(s, t).th| && (Inserting(StepRun(s, t).th[t], x) || x in StepRun(s, t).itime)
  {
    var pc := s.th[t].pc;
    assert StepRun(s, t) == DoSetItime(s, t) && pc.i < |pc.u.ins|;
    hide StepRun;
    if x != pc.u.ins[pc.i] {
      var j :| pc.i <= j < |pc.u.ins| && pc.u.ins[j] == x;
      assert j >= pc.i + 1;
    }
  }

  lemma DeletingStep(s: System, u: Tid, a: Action, t: Tid, x: Node)
    requires t < |s.th| && Deleting(s.th[t], x)
    ensures t < |Step(s, u, a).th| && (Deleting(Step(s, u, a).th[t], x) || x in Step(s, u, a).dtime)
  {
    StepThread(s, u, a, t);
    hide StepRun;
    if u == t && a.Run? { SetsDtime(s, t, x); }
  }

  lemma SetsDtime(s: System, t: Tid, x: Node)
    requires t < |s.th| && Deleting(s.th[t], x)
    ensures t < |StepRun(s, t).th| && (Deleting(StepRun(s, t).th[t], x) || x in StepRun(s, t).dtime)
  {
    var pc := s.th[t].pc;
    var j :| (if pc.SetDtime? then pc.i else 0) <= j < |pc.u.del| && pc.u.del[j] == x;
    if pc.SetItime? {
      assert StepRun(s, t) == DoSetItime(s, t);
      hide StepRun;
      assert StillDeleting(DoSetItime(s, t).th[t], j, x);
    } else {
      assert StepRun(s, t) == DoSetDtime(s, t);
      hide StepRun;
      if x != pc.u.del[pc.i] { assert StillDeleting(DoSetDtime(s, t).th[t], j, x); }
    }
  }

  predicate StillDeleting(T: Thread, j: nat, x: Node) {
    (T.pc.SetItime? || T.pc.SetDtime?) && (if T.pc.SetDtime? then T.pc.i else 0) <= j < |T.pc.u.del| && T.pc.u.del[j] == x
  }

  lemma StampedStep(s: System, t: Tid, a: Action, x: Node)
    requires Inv(s) && Stamped(s, x)
    ensures Stamped(Step(s, t, a), x)
  {
    hide Inv, Step, Inserting, Deleting;
    var s1 := Step(s, t, a);
    StepKeeps(s, t, a);
    OnlyDcssChanges(s, t, a);
    if x in s.ins && x !in s.itime { InsertingStep(s, t, a, s.ins[x].who, x); }
    if x in s.del && x !in s.dtime { DeletingStep(s, t, a, s.del[x].who, x); }
    if !Unchanged(s, s1) { NewIsPending(s, s1, t, s.th[t].pc.u, s.th[t].pc.ts, s.th[t].pc.old2, x); }
  }

  lemma NewIsPending(s: System, s1: System, t: Tid, u: Update, ts: int, old2: int, x: Node)
    requires LinearizesBy(s, s1, t, u, ts, old2)
    ensures x in s1.ins && x !in s.ins ==> s1.ins[x].who == t && Inserting(s1.th[t], x)
    ensures x in s1.del && x !in s.del ==> s1.del[x].who == t && Deleting(s1.th[t], x)
  {
    if x in u.ins { var j :| 0 <= j < |u.ins| && u.ins[j] == x; }
    if x in u.del {
      var j :| 0 <= j < |u.del| && u.del[j] == x;
      assert StillDeleting(s1.th[t], j, x);
    }
  }

  /** In every run, an inserted or deleted node has its stamp, unless the update that inserted or deleted it is still to set it. */
  lemma {:induction false} StampsAreSet(s: System, sched: Schedule, x: Node)
    requires Initial(s)
    ensures Stamped(RunFrom(s, sched), x)
    decreases |sched|
  {
    hide Step, Inv;
    if sched != [] {
      var n := |sched| - 1;
      StampsAreSet(s, sched[..n], x);
      RunInv(s, sched[..n]);
      hide Stamped;
      StampedStep(RunFrom(s, sched[..n]), sched[n].0, sched[n].1, x);
    }
  }
}
