/**
 * What DCSS promises, over every run of the step machine.
 */
module DcssTheorems {
  import opened Dcss

  /** The state after the first `i` steps. */
  function At(s: System, sched: Schedule, i: nat): System
    requires i <= |sched|
  {
    RunFrom(s, sched[..i])
  }

  lemma NextAt(s: System, sched: Schedule, i: nat)
    requires Initial(s) && i < |sched|
    ensures At(s, sched, i + 1) == Step(At(s, sched, i), sched[i].0, sched[i].1)
    ensures Inv(At(s, sched, i)) && Inv(At(s, sched, i + 1))
  {
    assert sched[..i + 1][..i] == sched[..i];
    RunInv(s, sched[..i]);
    RunInv(s, sched[..i + 1]);
  }

  /** The words DCSS manages change for their users only by a DCSS taking effect, and then in one word, from old2 to new2. */
  lemma EveryStepIsLawful(s: System, sched: Schedule, i: nat)
    requires Initial(s) && i < |sched|
    ensures Lawful(At(s, sched, i).g, At(s, sched, i + 1).g)
  {
    NextAt(s, sched, i);
    StepKeeps(At(s, sched, i), sched[i].0, sched[i].1);
  }

  lemma {:induction false} Monotone(s: System, sched: Schedule, i: nat, j: nat, k: OpId)
    requires Initial(s) && i <= j <= |sched| && k in At(s, sched, i).g.ops
    ensures OpRely(At(s, sched, i).g, At(s, sched, j).g, k)
    decreases j
  {
    hide Step, Inv, Lawful;
    if i < j {
      Monotone(s, sched, i, j - 1, k);
      NextAt(s, sched, j - 1);
      StepKeeps(At(s, sched, j - 1), sched[j - 1].0, sched[j - 1].1);
      RelyOp(At(s, sched, j - 1).g, At(s, sched, j).g, k);
    }
  }

  // ---------------------------------------------------------------- the comparison of addr1

  ghost predicate Undecided(g: Shared, k: OpId) {
    k in g.ops && g.ops[k].st.Undecided?
  }

  /** The tag of `k` is installed, `k` is undecided, and addr1 equals old1 exactly when `eq`. */
  ghost predicate Compared(g: Shared, k: OpId, eq: bool) {
    && Undecided(g, k) && PayOk(g.ops[k].pay)
    && var p := g.ops[k].pay;
    && p[2] in g.mem && g.mem[p[2]] == Tag(k) && (AuxAt(g, p[0]) == p[1] <==> eq)
  }

  ghost predicate Noted(g: Shared, k: OpId, eq: bool) {
    k in g.ops && if eq then g.ops[k].sawEqual else g.ops[k].sawOther
  }

  lemma NotedStep(s: System, t: Tid, a: Action, k: OpId, eq: bool)
    requires Inv(s) && Noted(Step(s, t, a).g, k, eq) && !Noted(s.g, k, eq)
    ensures Compared(s.g, k, eq)
  {
    assert t in s.th && a.Run? && s.th[t].h.ReadAddr1? && s.th[t].h.k == k;
    assert ThreadOk(s.g, t, s.th[t]);
    KnownOp(s.g, k);
  }

  lemma {:induction false} NotedAt(s: System, sched: Schedule, j: nat, k: OpId, eq: bool) returns (n: nat)
    requires Initial(s) && j <= |sched| && Noted(At(s, sched, j).g, k, eq)
    ensures n < j && Compared(At(s, sched, n).g, k, eq)
    decreases j
  {
    assert j > 0;
    NextAt(s, sched, j - 1);
    if Noted(At(s, sched, j - 1).g, k, eq) {
      n := NotedAt(s, sched, j - 1, k, eq);
    } else {
      NotedStep(At(s, sched, j - 1), sched[j - 1].0, sched[j - 1].1, k, eq);
      n := j - 1;
    }
  }

  /** An operation is decided Succeeded or Failed only after an instant with its tag installed and still undecided at which addr1 equalled, or differed from, old1. */
  lemma DecisionHadWitness(s: System, sched: Schedule, k: OpId)
    requires Initial(s) && k in RunFrom(s, sched).g.ops && !RunFrom(s, sched).g.ops[k].st.Undecided?
    ensures exists n :: 0 <= n < |sched| && Compared(At(s, sched, n).g, k, RunFrom(s, sched).g.ops[k].st.Succeeded?)
  {
    RunInv(s, sched);
    KnownOp(RunFrom(s, sched).g, k);
    assert sched[..|sched|] == sched;
    var n := NotedAt(s, sched, |sched|, k, RunFrom(s, sched).g.ops[k].st.Succeeded?);
  }

  // ---------------------------------------------------------------- one atomic change

  /** From the moment the tag is in until the decision, addr2 holds the tag and reads as old2. */
  lemma TagHolds(s: System, sched: Schedule, n: nat, i: nat, k: OpId, eq: bool)
    requires Initial(s) && n <= i <= |sched| && Compared(At(s, sched, n).g, k, eq) && Undecided(At(s, sched, i).g, k)
    ensures var g := At(s, sched, i).g;
      && PayOk(g.ops[k].pay) && g.ops[k].pay[2] in g.mem
      && g.mem[g.ops[k].pay[2]] == Tag(k) && Logical(g, g.ops[k].pay[2]) == g.ops[k].pay[3]
  {
    RunInv(s, sched[..n]);
    RunInv(s, sched[..i]);
    KnownOp(At(s, sched, n).g, k);
    KnownOp(At(s, sched, i).g, k);
    Monotone(s, sched, n, i, k);
  }

  lemma {:induction false} EffectAt(s: System, sched: Schedule, j: nat, k: OpId) returns (m: nat)
    requires Initial(s) && j <= |sched| && k in At(s, sched, j).g.ops && At(s, sched, j).g.ops[k].st.Succeeded?
    ensures m < j && TakesEffect(At(s, sched, m).g, At(s, sched, m + 1).g, k)
    decreases j
  {
    hide Step, Inv;
    assert j > 0;
    NextAt(s, sched, j - 1);
    var g, g1 := At(s, sched, j - 1).g, At(s, sched, j).g;
    if k in g.ops && g.ops[k].st.Succeeded? {
      m := EffectAt(s, sched, j - 1, k);
    } else {
      EveryStepIsLawful(s, sched, j - 1);
      m := j - 1;
    }
  }

  /** A call that reports the value of `a` ends with this step: a dcssRead, or a dcssPtr that fails at its addr2. */
  ghost predicate Reports(s: System, s1: System, t: Tid, a: Addr) {
    && t in s.th && t in s1.th && s1.th[t].call.Idle?
    && (s.th[t].call == Reading(a)
        || (s.th[t].call.Trying? && s.th[t].call.k in s.g.ops && PayOk(s.g.ops[s.th[t].call.k].pay) && s.g.ops[s.th[t].call.k].pay[2] == a))
  }

  ghost predicate ReportsAt(s: System, sched: Schedule, i: nat, t: Tid, a: Addr) {
    i < |sched| && Reports(At(s, sched, i), At(s, sched, i + 1), t, a)
  }

  /** While a word holds a tag, no call reports its value. */
  lemma HeldIsQuiet(s: System, u: Tid, act: Action, t: Tid, a: Addr)
    requires Inv(s) && a in s.g.mem && s.g.mem[a].Tag?
    ensures !Reports(s, Step(s, u, act), t, a)
  {
    if t in s.th {
      assert ThreadOk(s.g, t, s.th[t]);
      if s.th[t].call.Trying? { KnownOp(s.g, s.th[t].call.k); }
    }
    hide GInv, ThreadOk;
  }

  lemma QuietAt(s: System, sched: Schedule, i: nat, k: OpId, eq: bool, t: Tid)
    requires Initial(s) && i < |sched| && Compared(At(s, sched, i).g, k, eq)
    ensures !Reports(At(s, sched, i), At(s, sched, i + 1), t, At(s, sched, i).g.ops[k].pay[2])
  {
    hide Step, Inv;
    NextAt(s, sched, i);
    HeldIsQuiet(At(s, sched, i), sched[i].0, sched[i].1, t, At(s, sched, i).g.ops[k].pay[2]);
  }

  /**
   * A DCSS that succeeds is atomic: at some instant addr1 equals old1 and addr2 reads as old2, addr2 is held
   * from then on, and at one later step, the only one at which the operation takes effect, it turns to new2. No call
   * reports the value of addr2 in between, so that the operation can be taken to happen at the first instant.
   */
  lemma DcssIsAtomic(s: System, sched: Schedule, k: OpId) returns (n: nat, m: nat)
    requires Initial(s) && k in RunFrom(s, sched).g.ops && RunFrom(s, sched).g.ops[k].st.Succeeded?
    ensures n <= m < |sched| && Compared(At(s, sched, n).g, k, true)
    ensures TakesEffect(At(s, sched, m).g, At(s, sched, m + 1).g, k)
    ensures forall i :: n <= i <= m ==> Compared(At(s, sched, i).g, k, true) || Compared(At(s, sched, i).g, k, false)
    ensures forall i :: 0 <= i < |sched| && TakesEffect(At(s, sched, i).g, At(s, sched, i + 1).g, k) ==> i == m
    ensures PayOk(RunFrom(s, sched).g.ops[k].pay)
    ensures forall i: nat, t :: n <= i <= m ==> !ReportsAt(s, sched, i, t, RunFrom(s, sched).g.ops[k].pay[2])
  {
    DecisionHadWitness(s, sched, k);
    n :| 0 <= n < |sched| && Compared(At(s, sched, n).g, k, true);
    assert sched[..|sched|] == sched;
    m := EffectAt(s, sched, |sched|, k);
    WitnessFirst(s, sched, n, m, k);
    SamePay(s, sched, n, k);
    hide At, Compared, TakesEffect, Reports;
    forall i | n <= i <= m ensures Compared(At(s, sched, i).g, k, true) || Compared(At(s, sched, i).g, k, false) {
      StillCompared(s, sched, n, i, m, k);
    }
    forall i | 0 <= i < |sched| && TakesEffect(At(s, sched, i).g, At(s, sched, i + 1).g, k) ensures i == m {
      OneEffect(s, sched, i, m, k);
    }
    forall i: nat, t | n <= i <= m ensures !ReportsAt(s, sched, i, t, RunFrom(s, sched).g.ops[k].pay[2]) {
      QuietBetween(s, sched, n, i, m, k, t);
    }
  }

  lemma SamePay(s: System, sched: Schedule, n: nat, k: OpId)
    requires Initial(s) && n <= |sched| && k in At(s, sched, n).g.ops && PayOk(At(s, sched, n).g.ops[k].pay)
    ensures k in RunFrom(s, sched).g.ops && RunFrom(s, sched).g.ops[k].pay == At(s, sched, n).g.ops[k].pay
  {
    assert sched[..|sched|] == sched;
    Monotone(s, sched, n, |sched|, k);
  }

  lemma QuietBetween(s: System, sched: Schedule, n: nat, i: nat, m: nat, k: OpId, t: Tid)
    requires Initial(s) && n <= i <= m < |sched| && Compared(At(s, sched, n).g, k, true) && TakesEffect(At(s, sched, m).g, At(s, sched, m + 1).g, k)
    ensures k in RunFrom(s, sched).g.ops && PayOk(RunFrom(s, sched).g.ops[k].pay)
    ensures !ReportsAt(s, sched, i, t, RunFrom(s, sched).g.ops[k].pay[2])
  {
    StillCompared(s, sched, n, i, m, k);
    SamePay(s, sched, i, k);
    hide At, TakesEffect, Reports, RunFrom;
    var eq :| Compared(At(s, sched, i).g, k, eq);
    QuietAt(s, sched, i, k, eq, t);
  }

  lemma WitnessFirst(s: System, sched: Schedule, n: nat, m: nat, k: OpId)
    requires Initial(s) && n < |sched| && m < |sched| && Compared(At(s, sched, n).g, k, true) && TakesEffect(At(s, sched, m).g, At(s, sched, m + 1).g, k)
    ensures n <= m
  {
    if m < n { Monotone(s, sched, m + 1, n, k); }
  }

  lemma StillCompared(s: System, sched: Schedule, n: nat, i: nat, m: nat, k: OpId)
    requires Initial(s) && n <= i <= m < |sched| && Compared(At(s, sched, n).g, k, true) && TakesEffect(At(s, sched, m).g, At(s, sched, m + 1).g, k)
    ensures Compared(At(s, sched, i).g, k, true) || Compared(At(s, sched, i).g, k, false)
  {
    Monotone(s, sched, n, i, k);
    Monotone(s, sched, i, m, k);
    hide RunFrom;
    TagHolds(s, sched, n, i, k, true);
  }

  lemma OneEffect(s: System, sched: Schedule, i: nat, m: nat, k: OpId)
    requires Initial(s) && i < |sched| && TakesEffect(At(s, sched, i).g, At(s, sched, i + 1).g, k)
    requires m < |sched| && TakesEffect(At(s, sched, m).g, At(s, sched, m + 1).g, k)
    ensures i == m
  {
    if i < m { Monotone(s, sched, i + 1, m, k); }
    if m < i { Monotone(s, sched, m + 1, i, k); }
  }

  /** An operation that has not succeeded by the end of a run never took effect during it. */
  lemma FailureHasNoEffect(s: System, sched: Schedule, k: OpId, i: nat)
    requires Initial(s) && i < |sched| && (k in RunFrom(s, sched).g.ops ==> !RunFrom(s, sched).g.ops[k].st.Succeeded?)
    ensures !TakesEffect(At(s, sched, i).g, At(s, sched, i + 1).g, k)
  {
    if TakesEffect(At(s, sched, i).g, At(s, sched, i + 1).g, k) {
      assert sched[..|sched|] == sched;
      Monotone(s, sched, i + 1, |sched|, k);
    }
  }

  // ---------------------------------------------------------------- the tag, and addr2

  /** Whoever removes the tag of `k` writes new2 if `k` succeeded and old2 if it failed; nobody removes it undecided. */
  lemma RemovalWrites(s: System, t: Tid, a: Action, k: OpId)
    requires Inv(s) && k in s.g.ops && s.g.ops[k].phase.Installed?
    requires k in Step(s, t, a).g.ops && Step(s, t, a).g.ops[k].phase.Removed?
    ensures PayOk(s.g.ops[k].pay) && !s.g.ops[k].st.Undecided?
    ensures Step(s, t, a).g.mem == s.g.mem[s.g.ops[k].pay[2] := Plain(if s.g.ops[k].st.Succeeded? then s.g.ops[k].pay[4] else s.g.ops[k].pay[3])]
  {
    OnlyFinishRemoves(s, t, a, k);
    assert ThreadOk(s.g, t, s.th[t]);
    KnownOp(s.g, k);
    hide Step;
  }

  lemma OnlyFinishRemoves(s: System, t: Tid, a: Action, k: OpId)
    requires k in s.g.ops && s.g.ops[k].phase.Installed? && k in Step(s, t, a).g.ops && Step(s, t, a).g.ops[k].phase.Removed?
    ensures t in s.th && s.th[t].h.Finish? && s.th[t].h.k == k && PayOk(s.th[t].h.buf)
    ensures var h := s.th[t].h; Step(s, t, a).g.mem == s.g.mem[h.buf[2] := Plain(if h.ok then h.buf[4] else h.buf[3])]
  {}

  /** Once a step takes the tag out of memory, no later step puts it back. */
  lemma TagNeverReturns(s: System, sched: Schedule, i: nat, j: nat, k: OpId, x: Addr, y: Addr)
    requires Initial(s) && i < j <= |sched| && x in At(s, sched, i).g.mem && At(s, sched, i).g.mem[x] == Tag(k)
    requires x in At(s, sched, i + 1).g.mem && At(s, sched, i + 1).g.mem[x] != Tag(k)
    requires y in At(s, sched, j).g.mem
    ensures At(s, sched, j).g.mem[y] != Tag(k)
  {
    NextAt(s, sched, i);
    var g, g1, g2 := At(s, sched, i).g, At(s, sched, i + 1).g, At(s, sched, j).g;
    assert WordOk(g, x);
    KnownOp(g, k);
    Monotone(s, sched, i, i + 1, k);
    KnownOp(g1, k);
    Monotone(s, sched, i + 1, j, k);
    RunInv(s, sched[..j]);
    assert WordOk(g2, y);
    KnownOp(g2, k);
  }

  // ---------------------------------------------------------------- helpers and callers

  /** Every thread about to finish an operation whose tag is installed carries the one decision. */
  lemma HelpersAgree(s: System, sched: Schedule, t: Tid)
    requires Initial(s) && t in RunFrom(s, sched).th && RunFrom(s, sched).th[t].h.Finish?
    ensures var g, h := RunFrom(s, sched).g, RunFrom(s, sched).th[t].h;
      && h.k in g.ops && PayOk(h.buf) && h.buf == g.ops[h.k].pay
      && (h.own || (h.buf[2] in g.mem && g.mem[h.buf[2]] == Tag(h.k)) ==> !g.ops[h.k].st.Undecided? && h.ok == g.ops[h.k].st.Succeeded?)
  {
    RunInv(s, sched);
    assert ThreadOk(RunFrom(s, sched).g, t, RunFrom(s, sched).th[t]);
    KnownOp(RunFrom(s, sched).g, RunFrom(s, sched).th[t].h.k);
  }

  /** A copy that passed its sequence check holds the five words of the operation the tag names. */
  lemma CopiesAreUntorn(s: System, sched: Schedule, t: Tid)
    requires Initial(s) && t in RunFrom(s, sched).th && (RunFrom(s, sched).th[t].h.ReadAddr1? || RunFrom(s, sched).th[t].h.CasState?)
    ensures var g, h := RunFrom(s, sched).g, RunFrom(s, sched).th[t].h; h.k in g.ops && h.buf == g.ops[h.k].pay
  {
    RunInv(s, sched);
    assert ThreadOk(RunFrom(s, sched).g, t, RunFrom(s, sched).th[t]);
  }

  /** What dcssPtr reports: the decision, with the tag gone; or that the tag was never installed. */
  lemma ExecuteOutcome(s: System, sched: Schedule, t: Tid)
    requires Initial(s) && t in RunFrom(s, sched).th
    ensures var g, r := RunFrom(s, sched).g, RunFrom(s, sched).th[t].res;
      && (r.Success? ==> r.k in g.ops && g.ops[r.k].st.Succeeded? && forall a :: a in g.mem ==> g.mem[a] != Tag(r.k))
      && (r.FailedAddr1? ==> r.k in g.ops && g.ops[r.k].st.Failed? && forall a :: a in g.mem ==> g.mem[a] != Tag(r.k))
      && (r.FailedAddr2? ==> r.k in g.ops && g.ops[r.k].st.Undecided? && PayOk(g.ops[r.k].pay) && r.v != g.ops[r.k].pay[3] && forall a :: a in g.mem ==> g.mem[a] != Tag(r.k))
  {
    var g, T := RunFrom(s, sched).g, RunFrom(s, sched).th[t];
    RunInv(s, sched);
    assert ThreadOk(g, t, T);
    if T.res.Success? || T.res.FailedAddr1? || T.res.FailedAddr2? { KnownOp(g, T.res.k); }
    forall a | a in g.mem ensures WordOk(g, a) {}
  }

  /** A value returned by dcssRead, or reported with a failure at addr2, was the word's value for its users at that step. */
  lemma ReadReturnsLogical(s: System, t: Tid, a: Action)
    requires Inv(s) && t in s.th && Step(s, t, a).th[t].res != s.th[t].res
    ensures var r := Step(s, t, a).th[t].res;
      && (r.Got? ==> r.a in s.g.mem && r.v == Logical(s.g, r.a))
      && (r.FailedAddr2? ==> r.k in s.g.ops && PayOk(s.g.ops[r.k].pay) && s.g.ops[r.k].pay[2] in s.g.mem && r.v == Logical(s.g, s.g.ops[r.k].pay[2]))
  {
    assert ThreadOk(s.g, t, s.th[t]);
    if s.th[t].call.Trying? { KnownOp(s.g, s.th[t].call.k); }
  }
}
