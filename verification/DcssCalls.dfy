/**
 * DCSS as its caller sees it: what the words written into a descriptor make of `dcssPtr`, and what `dcssPtr` and
 * `dcssRead` report when they return.
 */
module DcssCalls {
  import opened DescriptorWords
  import opened Dcss
  import opened DcssTheorems

  // ---------------------------------------------------------------- the end of a call

  lemma InvParts(s: System, t: Tid)
    requires Inv(s) && t in s.th
    ensures GInv(s.g) && t in s.g.slots && ThreadOk(s.g, t, s.th[t])
  {}

  /** Only a step of the thread itself ends its call. */
  lemma OnlyRunEnds(s: System, u: Tid, a: Action, t: Tid)
    requires t in s.th && !s.th[t].call.Idle? && t in Step(s, u, a).th && Step(s, u, a).th[t].call.Idle?
    ensures u == t && a.Run? && Step(s, u, a).g == StepRun(s.g, s.th[t]).0 && Step(s, u, a).th[t] == StepRun(s.g, s.th[t]).1
  {
    hide StepRun;
  }

  /**
   * The step that ends dcssPtr for `k` reports about `k`: success exactly if it has succeeded, failure at addr1
   * exactly if it has failed, and failure at addr2, with the value found there, exactly if its tag was never installed.
   */
  lemma DcssReports(s: System, u: Tid, a: Action, t: Tid)
    requires Inv(s) && t in s.th && (s.th[t].call.Trying? || s.th[t].call.Finishing?) && t in Step(s, u, a).th && Step(s, u, a).th[t].call.Idle?
    ensures var k, g1, res := s.th[t].call.k, Step(s, u, a).g, Step(s, u, a).th[t].res;
      && k in s.g.ops && k in g1.ops && PayOk(s.g.ops[k].pay)
      && (res.Success? || res.FailedAddr1? || res.FailedAddr2?) && res.k == k
      && (res.Success? <==> g1.ops[k].st.Succeeded?)
      && (res.FailedAddr1? <==> g1.ops[k].st.Failed?)
      && (res.FailedAddr2? <==> g1.ops[k].phase.Fresh?)
      && (res.FailedAddr2? ==> s.g.ops[k].pay[2] in s.g.mem && res.v == Logical(s.g, s.g.ops[k].pay[2]) != s.g.ops[k].pay[3])
  {
    hide Inv, Step, Rely, Lawful, GInv, ThreadOk;
    OnlyRunEnds(s, u, a, t);
    StepKeeps(s, u, a);
    InvParts(s, t);
    InvParts(Step(s, u, a), t);
    hide StepRun;
    DcssEnds(s.g, t, s.th[t]);
  }

  lemma DcssEnds(g: Shared, t: Tid, T: Thread)
    requires GInv(g) && ThreadOk(g, t, T) && (T.call.Trying? || T.call.Finishing?) && StepRun(g, T).1.call.Idle?
    ensures var k, g1, res := T.call.k, StepRun(g, T).0, StepRun(g, T).1.res;
      && k in g.ops && k in g1.ops && PayOk(g.ops[k].pay)
      && (res.Success? || res.FailedAddr1? || res.FailedAddr2?) && res.k == k
      && (res.Success? <==> g1.ops[k].st.Succeeded?)
      && (res.FailedAddr1? <==> g1.ops[k].st.Failed?)
      && (res.FailedAddr2? <==> g1.ops[k].phase.Fresh?)
      && (res.FailedAddr2? ==> g.ops[k].pay[2] in g.mem && res.v == Logical(g, g.ops[k].pay[2]) != g.ops[k].pay[3])
  {
    KnownOp(g, T.call.k);
    hide GInv;
  }

  /** The step that ends dcssRead reports the user-visible value of its word at that instant. */
  lemma ReadReports(s: System, u: Tid, a: Action, t: Tid)
    requires Inv(s) && t in s.th && s.th[t].call.Reading? && t in Step(s, u, a).th && Step(s, u, a).th[t].call.Idle?
    ensures s.th[t].call.a in s.g.mem && Step(s, u, a).th[t].res == Got(s.th[t].call.a, Logical(s.g, s.th[t].call.a))
  {
    hide Inv, Step;
    OnlyRunEnds(s, u, a, t);
    InvParts(s, t);
    hide GInv;
  }

  // ---------------------------------------------------------------- the words of a descriptor

  /** The writes of `t` to its descriptor that took place: those made between the start of an operation and its execution. */
  ghost function Writes(s: System, run: Schedule, t: Tid): seq<Write<int>>
    decreases |run|
  {
    if run == [] then [] else
    var before, last := RunFrom(s, run[..|run| - 1]), run[|run| - 1];
    Writes(s, run[..|run| - 1], t) + if last.0 == t && last.1.Fill? && Building(before, t) then [(last.1.c, last.1.w)] else []
  }

  predicate Building(s: System, t: Tid) {
    t in s.th && s.th[t].call.Idle? && s.th[t].h.NoHelp? && t in s.g.slots && s.g.slots[t].building
  }

  /** dcssPtr(addr1, old1, addr2, old2, new2) */
  datatype Args = Args(addr1: Addr, old1: int, addr2: Addr, old2: int, new2: int)

  ghost predicate Describes(writes: seq<Write<int>>, d: Args) {
    LastWrite(writes, 0, d.addr1) && LastWrite(writes, 1, d.old1) && LastWrite(writes, 2, d.addr2) && LastWrite(writes, 3, d.old2) && LastWrite(writes, 4, d.new2)
  }

  function AsWords(d: Args): seq<int> { [d.addr1, d.old1, d.addr2, d.old2, d.new2] }

  lemma HelpKeepsWords(g: Shared, T: Thread, t: Tid)
    requires t in g.slots
    ensures t in StepHelp(g, T).0.slots && StepHelp(g, T).0.slots[t].pay == g.slots[t].pay
  {}

  lemma CallKeepsWords(g: Shared, T: Thread)
    ensures StepCall(g, T).0.slots == g.slots
  {}

  lemma WordsStep(s: System, u: Tid, a: Action, t: Tid)
    requires t in s.g.slots
    ensures var s1, pay := Step(s, u, a), s.g.slots[t].pay;
      t in s1.g.slots && s1.g.slots[t].pay == if u == t && a.Fill? && Building(s, t) && a.c < |pay| then pay[a.c := a.w] else pay
  {
    hide StepHelp, StepCall;
    if u in s.th {
      HelpKeepsWords(s.g, s.th[u], t);
      CallKeepsWords(s.g, s.th[u]);
    }
  }

  /** The words of a descriptor are those last written by its owner. */
  lemma {:induction false} WordsAreWrites(s: System, run: Schedule, t: Tid)
    requires t in s.g.slots
    ensures t in RunFrom(s, run).g.slots && RunFrom(s, run).g.slots[t].pay == Written(s.g.slots[t].pay, Writes(s, run, t))
    decreases |run|
  {
    hide Step, Written, Building;
    if run == [] {
      WrittenNone(s.g.slots[t].pay);
    } else {
      var n := |run| - 1;
      var before, last := RunFrom(s, run[..n]), run[n];
      WordsAreWrites(s, run[..n], t);
      WordsStep(before, last.0, last.1, t);
      if last.1.Fill? { WrittenMore(s.g.slots[t].pay, Writes(s, run[..n], t), (last.1.c, last.1.w)); }
      assert Writes(s, run[..n], t) + [] == Writes(s, run[..n], t);
    }
  }

  /** After `run`, `t` has begun an operation and described `d`, with a valid second address. */
  ghost predicate Ready(s: System, run: Schedule, t: Tid, d: Args) {
    t in s.g.slots && |s.g.slots[t].pay| == 5 && Describes(Writes(s, run, t), d) && Building(RunFrom(s, run), t) && d.addr2 in RunFrom(s, run).g.mem
  }

  function NextOp(s: System, t: Tid): OpId {
    OpId(t, SlotAt(s.g, t).sn + 1)
  }

  /** `k` has been published with the words of `d`, and `t` tries to install it. */
  ghost predicate Published(s: System, t: Tid, k: OpId, d: Args) {
    k in s.g.ops && s.g.ops[k].pay == AsWords(d) && t in s.th && s.th[t].call == Trying(k) && s.th[t].h.NoHelp?
  }

  /** dcssPtr publishes an operation with exactly the arguments described. */
  lemma PublishesDescription(s: System, run: Schedule, t: Tid, d: Args)
    requires Ready(s, run, t, d)
    ensures Published(Step(RunFrom(s, run), t, Execute), t, NextOp(RunFrom(s, run), t), d)
  {
    hide RunFrom, Writes, Written, LastWrite;
    WordsAreWrites(s, run, t);
    var pay, ws := s.g.slots[t].pay, Writes(s, run, t);
    LastIsWritten(pay, ws, 0, d.addr1);
    LastIsWritten(pay, ws, 1, d.old1);
    LastIsWritten(pay, ws, 2, d.addr2);
    LastIsWritten(pay, ws, 3, d.old2);
    LastIsWritten(pay, ws, 4, d.new2);
    assert Written(pay, ws) == AsWords(d);
  }

  // ---------------------------------------------------------------- a whole call

  ghost predicate RunsOnly(more: Schedule, t: Tid) {
    forall i :: 0 <= i < |more| && more[i].0 == t ==> more[i].1 == Run
  }

  ghost predicate Executing(s: System, t: Tid, k: OpId) {
    t in s.th && k in s.g.ops && (s.th[t].call == Trying(k) || s.th[t].call == Finishing(k))
  }

  /** The call for `k` has ended with a report that says what became of `k`. */
  ghost predicate Reported(s: System, t: Tid, k: OpId) {
    && t in s.th && s.th[t].call.Idle? && s.th[t].h.NoHelp? && k in s.g.ops
    && var res, op := s.th[t].res, s.g.ops[k];
    && (res.Success? || res.FailedAddr1? || res.FailedAddr2?) && res.k == k
    && (res.Success? <==> op.st.Succeeded?) && (res.FailedAddr1? <==> op.st.Failed?) && (res.FailedAddr2? <==> op.phase.Fresh?)
  }

  lemma OthersKeepThread(s: System, u: Tid, a: Action, t: Tid)
    requires t in s.th && u != t
    ensures t in Step(s, u, a).th && Step(s, u, a).th[t] == s.th[t]
  {
    hide StepRun;
  }

  lemma CallStep(s: System, u: Tid, a: Action, t: Tid, k: OpId)
    requires Inv(s) && (Executing(s, t, k) || Reported(s, t, k)) && (u == t ==> a.Run?)
    ensures Executing(Step(s, u, a), t, k) || Reported(Step(s, u, a), t, k)
  {
    hide Inv, Rely, Lawful, Step;
    StepKeeps(s, u, a);
    RelyOp(s.g, Step(s, u, a).g, k);
    InvParts(s, t);
    if u != t {
      OthersKeepThread(s, u, a, t);
      InvParts(Step(s, u, a), t);
      hide GInv;
    } else {
      RunOfCall(s, t);
      if Step(s, u, a).th[t].call.Idle? && !s.th[t].call.Idle? {
        DcssReports(s, u, a, t);
        IdleIsClear(Step(s, u, a), t);
      }
      hide GInv;
    }
  }

  lemma RunOfCall(s: System, t: Tid)
    requires t in s.th && ThreadOk(s.g, t, s.th[t])
    ensures t in Step(s, t, Run).th
    ensures var T, T1 := s.th[t], Step(s, t, Run).th[t];
      && (T.call.Idle? ==> T1 == T && Step(s, t, Run).g == s.g)
      && (T.call.Trying? || T.call.Finishing? ==> T1.call.Idle? || ((T1.call.Trying? || T1.call.Finishing?) && T1.call.k == T.call.k))
  {}

  lemma IdleIsClear(s: System, t: Tid)
    requires Inv(s) && t in s.th && s.th[t].call.Idle?
    ensures s.th[t].h.NoHelp?
  {
    InvParts(s, t);
  }

  lemma {:induction false} RunJoin(s: System, a: Schedule, b: Schedule)
    ensures RunFrom(s, a + b) == RunFrom(RunFrom(s, a), b)
    decreases |b|
  {
    hide Step;
    if b == [] {
      assert a + b == a;
    } else {
      var n := |b| - 1;
      RunJoin(s, a, b[..n]);
      assert (a + b)[..|a + b| - 1] == a + b[..n];
    }
  }

  /** Both comparisons hold. */
  ghost predicate Holds(g: Shared, d: Args) {
    d.addr2 in g.mem && Logical(g, d.addr2) == d.old2 && AuxAt(g, d.addr1) == d.old1
  }

  /** The first comparison fails. */
  ghost predicate FirstFails(g: Shared, d: Args) {
    AuxAt(g, d.addr1) != d.old1
  }

  /** The second comparison fails, for the value `v`. */
  ghost predicate SecondFails(g: Shared, d: Args, v: int) {
    d.addr2 in g.mem && Logical(g, d.addr2) == v != d.old2
  }

  /** At step `m` the second word goes from old to new value, and no other word changes for its users. */
  ghost predicate UpdateAt(s: System, sched: Schedule, m: nat, d: Args) {
    && m < |sched|
    && var g, g1 := At(s, sched, m).g, At(s, sched, m + 1).g;
    && d.addr2 in g.mem && d.addr2 in g1.mem && Logical(g, d.addr2) == d.old2 && Logical(g1, d.addr2) == d.new2
    && forall a :: a in g.mem && a != d.addr2 ==> a in g1.mem && Logical(g1, a) == Logical(g, a)
  }

  /** Up to step `m`, from `n` on, no call reports the value of the second word. */
  ghost predicate QuietFrom(s: System, sched: Schedule, n: nat, m: nat, d: Args) {
    forall i: nat, t :: n <= i <= m ==> !ReportsAt(s, sched, i, t, d.addr2)
  }

  /** The step of the run that ended the call for `k` found the value it reported in addr2. */
  lemma {:induction false} SecondFailed(s: System, sched: Schedule, b: nat, n: nat, t: Tid, k: OpId, d: Args) returns (m: nat)
    requires Initial(s) && b <= n <= |sched| && Executing(At(s, sched, b), t, k) && RunsOnly(sched[b..], t)
    requires At(s, sched, b).g.ops[k].pay == AsWords(d) && Reported(At(s, sched, n), t, k) && At(s, sched, n).th[t].res.FailedAddr2?
    ensures b <= m < n && SecondFails(At(s, sched, m).g, d, At(s, sched, n).th[t].res.v)
    decreases n
  {
    hide Inv, Step, Rely, Lawful;
    assert b < n;
    NextAt(s, sched, n - 1);
    var before, last := At(s, sched, n - 1), sched[n - 1];
    Between(s, sched, b, n - 1, t, k);
    Monotone(s, sched, b, n - 1, k);
    assert last.0 == t ==> last.1 == Run by { assert sched[b..][n - 1 - b] == last; }
    hide At, Initial;
    if before.th[t].call.Idle? {
      if last.0 == t {
        InvParts(before, t);
        RunOfCall(before, t);
      } else {
        OthersKeepThread(before, last.0, last.1, t);
      }
      m := SecondFailed(s, sched, b, n - 1, t, k, d);
    } else {
      DcssReports(before, last.0, last.1, t);
      m := n - 1;
    }
  }

  lemma {:induction false} Between(s: System, sched: Schedule, b: nat, n: nat, t: Tid, k: OpId)
    requires Initial(s) && b <= n <= |sched| && Executing(At(s, sched, b), t, k) && RunsOnly(sched[b..], t)
    ensures Executing(At(s, sched, n), t, k) || Reported(At(s, sched, n), t, k)
    decreases n
  {
    hide Inv, Step, Executing, Reported;
    if b < n {
      Between(s, sched, b, n - 1, t, k);
      NextAt(s, sched, n - 1);
      assert sched[b..][n - 1 - b] == sched[n - 1];
      hide At;
      CallStep(At(s, sched, n - 1), sched[n - 1].0, sched[n - 1].1, t, k);
    }
  }

  /**
   * A call of dcssPtr with the arguments `d`, whatever other threads do. When it has returned: on success both
   * comparisons held at one instant of the run, the second word turned to the new value at one later step, with no
   * other word, and nobody was told its value in between; on failure, the comparison it blames failed at some instant.
   */
  lemma DcssIsOneStep(s: System, run: Schedule, more: Schedule, t: Tid, d: Args)
    requires Initial(s) && Ready(s, run, t, d) && RunsOnly(more, t)
    ensures t in RunFrom(s, run + [(t, Execute)] + more).th
    ensures var sched, k := run + [(t, Execute)] + more, NextOp(RunFrom(s, run), t); var T := RunFrom(s, sched).th[t];
      T.call.Idle? ==>
        && (T.res.Success? || T.res.FailedAddr1? || T.res.FailedAddr2?) && T.res.k == k
        && (T.res.Success? ==> exists n: nat, m: nat :: n <= m < |sched| && Holds(At(s, sched, n).g, d) && UpdateAt(s, sched, m, d) && QuietFrom(s, sched, n, m, d))
        && (T.res.FailedAddr1? ==> exists n: nat :: n <= |sched| && FirstFails(At(s, sched, n).g, d))
        && (T.res.FailedAddr2? ==> exists n: nat :: n <= |sched| && SecondFails(At(s, sched, n).g, d, T.res.v))
  {
    var sched, k, b := run + [(t, Execute)] + more, NextOp(RunFrom(s, run), t), |run| + 1;
    assert sched[..|sched|] == sched && sched[b..] == more;
    Begun(s, run, more, t, d);
    Between(s, sched, b, |sched|, t, k);
    Monotone(s, sched, b, |sched|, k);
    var s1 := At(s, sched, |sched|);
    assert s1 == RunFrom(s, sched);
    hide RunFrom, At, Initial, Ready, UpdateAt, QuietFrom, Holds, FirstFails, SecondFails;
    if s1.th[t].call.Idle? {
      if s1.th[t].res.Success? {
        Succeeds(s, sched, k, d);
      } else if s1.th[t].res.FailedAddr1? {
        FailsFirst(s, sched, k, d);
      } else {
        var m := SecondFailed(s, sched, b, |sched|, t, k, d);
      }
    }
  }

  lemma Begun(s: System, run: Schedule, more: Schedule, t: Tid, d: Args)
    requires Ready(s, run, t, d)
    ensures var sched, k, b := run + [(t, Execute)] + more, NextOp(RunFrom(s, run), t), |run| + 1;
      Executing(At(s, sched, b), t, k) && At(s, sched, b).g.ops[k].pay == AsWords(d)
  {
    var sched, b := run + [(t, Execute)] + more, |run| + 1;
    assert sched[..b][..b - 1] == run && sched[..b][b - 1] == (t, Execute);
    assert At(s, sched, b) == Step(RunFrom(s, run), t, Execute);
    hide Step, Ready;
    PublishesDescription(s, run, t, d);
  }

  lemma Succeeds(s: System, sched: Schedule, k: OpId, d: Args)
    requires Initial(s) && k in RunFrom(s, sched).g.ops && RunFrom(s, sched).g.ops[k].st.Succeeded? && RunFrom(s, sched).g.ops[k].pay == AsWords(d)
    ensures exists n: nat, m: nat :: n <= m < |sched| && Holds(At(s, sched, n).g, d) && UpdateAt(s, sched, m, d) && QuietFrom(s, sched, n, m, d)
  {
    var n, m := DcssIsAtomic(s, sched, k);
    SamePay(s, sched, n, k);
    SamePay(s, sched, m, k);
    TagHolds(s, sched, n, n, k, true);
    hide RunFrom, At, Initial;
    assert UpdateAt(s, sched, m, d);
    assert QuietFrom(s, sched, n, m, d);
    assert Holds(At(s, sched, n).g, d);
  }

  lemma FailsFirst(s: System, sched: Schedule, k: OpId, d: Args)
    requires Initial(s) && k in RunFrom(s, sched).g.ops && RunFrom(s, sched).g.ops[k].st.Failed? && RunFrom(s, sched).g.ops[k].pay == AsWords(d)
    ensures exists n: nat :: n <= |sched| && FirstFails(At(s, sched, n).g, d)
  {
    DecisionHadWitness(s, sched, k);
    var n :| 0 <= n < |sched| && Compared(At(s, sched, n).g, k, false);
    SamePay(s, sched, n, k);
    hide RunFrom, At, Initial;
    assert FirstFails(At(s, sched, n).g, d);
  }

  // ---------------------------------------------------------------- a call that runs alone

  lemma RunIs(s: System, t: Tid)
    requires t in s.th
    ensures Step(s, t, Run).g == StepRun(s.g, s.th[t]).0 && Step(s, t, Run).th == s.th[t := StepRun(s.g, s.th[t]).1]
  {
    hide StepRun;
  }

  /** Thread `t` is about to install `k`, whose words are `p`, or is in its own help for it. */
  ghost predicate Owns(s: System, t: Tid, k: OpId, p: seq<int>) {
    && t in s.th && k.tid == t && k in s.g.ops && s.g.ops[k].pay == p && PayOk(p) && p[2] in s.g.mem
    && t in s.g.slots && s.g.slots[t].sn == k.sn && s.g.slots[t].pay == p && s.g.slots[t].st.Undecided?
  }

  lemma TryAlone(s: System, t: Tid, k: OpId, p: seq<int>)
    requires Owns(s, t, k, p) && s.th[t].call == Trying(k) && s.th[t].h.NoHelp? && s.g.mem[p[2]].Plain?
    ensures var s1 := Step(s, t, Run);
      if s.g.mem[p[2]].v != p[3] then s1.g == s.g && s1.th[t].call.Idle? && s1.th[t].res == FailedAddr2(k, s.g.mem[p[2]].v)
      else Owns(s1, t, k, p) && s1.g.mem == s.g.mem[p[2] := Tag(k)] && s1.g.aux == s.g.aux && s1.th[t].call == Finishing(k) && s1.th[t].h == ReadAddr1(k, true, p)
  {
    RunIs(s, t);
    hide Step;
  }

  lemma DecideAlone(s: System, t: Tid, k: OpId, p: seq<int>)
    requires Owns(s, t, k, p) && s.th[t].call == Finishing(k) && s.th[t].h == ReadAddr1(k, true, p)
    ensures var s1, eq := Step(Step(s, t, Run), t, Run), AuxAt(s.g, p[0]) == p[1];
      Owns(s1, t, k, p) && s1.g.mem == s.g.mem && s1.g.aux == s.g.aux && s1.th[t].call == Finishing(k) && s1.th[t].h == CasState(k, true, p, eq)
  {
    hide Step;
    RunIs(s, t);
    RunIs(Step(s, t, Run), t);
  }

  lemma FinishAlone(s: System, t: Tid, k: OpId, p: seq<int>, eq: bool)
    requires Owns(s, t, k, p) && s.th[t].call == Finishing(k) && s.th[t].h == CasState(k, true, p, eq) && s.g.mem[p[2]] == Tag(k)
    ensures var s1 := Step(Step(s, t, Run), t, Run);
      && s1.g.mem == s.g.mem[p[2] := Plain(if eq then p[4] else p[3])] && s1.g.aux == s.g.aux
      && t in s1.th && s1.th[t].call.Idle? && s1.th[t].res == if eq then Success(k) else FailedAddr1(k)
  {
    hide Step;
    RunIs(s, t);
    RunIs(Step(s, t, Run), t);
  }

  /** A dcssPtr that runs alone on a user value compares both words, writes the second if both match, and says which differs. */
  lemma DcssAlone(s: System, t: Tid, k: OpId, p: seq<int>)
    requires Owns(s, t, k, p) && s.th[t].call == Trying(k) && s.th[t].h.NoHelp? && s.g.mem[p[2]].Plain?
    ensures var s1, v := Step(s, t, Run), s.g.mem[p[2]].v; v != p[3] ==> s1.g == s.g && s1.th[t].call.Idle? && s1.th[t].res == FailedAddr2(k, v)
    ensures var s5, eq := Step(Step(Step(Step(Step(s, t, Run), t, Run), t, Run), t, Run), t, Run), AuxAt(s.g, p[0]) == p[1];
      s.g.mem[p[2]] == Plain(p[3]) ==>
        && s5.g.mem == s.g.mem[p[2] := Plain(if eq then p[4] else p[3])] && s5.g.aux == s.g.aux
        && t in s5.th && s5.th[t].call.Idle? && s5.th[t].res == if eq then Success(k) else FailedAddr1(k)
  {
    hide Step;
    TryAlone(s, t, k, p);
    if s.g.mem[p[2]] == Plain(p[3]) {
      var s1 := Step(s, t, Run);
      DecideAlone(s1, t, k, p);
      var s3 := Step(Step(s1, t, Run), t, Run);
      FinishAlone(s3, t, k, p, AuxAt(s.g, p[0]) == p[1]);
      assert s.g.mem[p[2] := Tag(k)][p[2] := Plain(if AuxAt(s.g, p[0]) == p[1] then p[4] else p[3])] == s.g.mem[p[2] := Plain(if AuxAt(s.g, p[0]) == p[1] then p[4] else p[3])];
    }
  }
}
