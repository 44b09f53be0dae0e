/**
 * What the end of a range query reads, one word at a time while updates go on: of every thread first the number of
 * its announcements, then each announcement, and after all of those the thread's retired nodes.
 */
module RangeReads {
  import opened RangeQuery

  /** The state after the first `n` steps. */
  ghost function At(s: System, sched: Schedule, n: nat): System
    requires n <= |sched|
  {
    RunFrom(s, sched[..n])
  }

  lemma AtNext(s: System, sched: Schedule, n: nat)
    requires Initial(s) && n < |sched|
    ensures At(s, sched, n + 1) == Step(At(s, sched, n), sched[n].0, sched[n].1) && Inv(At(s, sched, n)) && Grows(At(s, sched, n), At(s, sched, n + 1))
  {
    hide Step, Inv, Grows;
    assert sched[..n + 1][..n] == sched[..n];
    RunInv(s, sched[..n]);
    StepKeeps(At(s, sched, n), sched[n].0, sched[n].1);
  }

  /** When the query reads, of one thread, the number of announcements, each announcement, and the bag. */
  datatype Reads = Reads(size: nat, each: seq<nat>, bag: nat)

  /** The query's reads, all after the first `first` steps: as many announcements as it found, and no bag before an announcement. */
  ghost predicate InOrder(s: System, sched: Schedule, first: nat, plan: seq<Reads>) {
    && first <= |sched| && |plan| == |At(s, sched, first).th|
    && forall t: nat :: t < |plan| ==> ReadsOf(s, sched, first, plan[t], t)
  }

  ghost predicate ReadsOf(s: System, sched: Schedule, first: nat, r: Reads, t: Tid) {
    && first <= r.size <= r.bag <= |sched| && t < |At(s, sched, r.size).th| && |r.each| == |At(s, sched, r.size).th[t].ann|
    && forall j :: 0 <= j < |r.each| ==> r.size <= r.each[j] <= r.bag
  }

  /** The read of announcement `j` at step `n` returns `x`. */
  ghost predicate Announced(s: System, sched: Schedule, n: nat, t: Tid, j: nat, x: Node) {
    n <= |sched| && t < |At(s, sched, n).th| && j < |At(s, sched, n).th[t].ann| && At(s, sched, n).th[t].ann[j] == x
  }

  ghost predicate Bagged(s: System, sched: Schedule, n: nat, t: Tid, x: Node) {
    n <= |sched| && t < |At(s, sched, n).th| && x in At(s, sched, n).th[t].bag
  }

  /** One of the reads from thread `t` returns `x`. */
  ghost predicate Found(s: System, sched: Schedule, r: Reads, t: Tid, x: Node) {
    (exists j: nat :: j < |r.each| && Announced(s, sched, r.each[j], t, j, x)) || Bagged(s, sched, r.bag, t, x)
  }

  // ---------------------------------------------------------------- one step

  /** The thread is past its DCSS and announces `x` in place `j`. */
  predicate Announces(T: Thread, j: nat, x: Node) {
    Past(T.pc) && j < |T.pc.u.del| && T.pc.u.del[j] == x && T.ann == T.pc.u.del
  }

  /** Where an update can be after a DCSS, or after setting a stamp. */
  predicate Follows(pc: Pc, pc1: Pc) {
    match pc
    case Dcss(u, ts, _) => pc1 == ReadTime(u) || pc1 == Unannounce(u, 0) || pc1 == SetItime(u, ts, 0)
    case SetItime(u, ts, i) => pc1 == if i < |u.ins| then SetItime(u, ts, i + 1) else SetDtime(u, ts, 0)
    case SetDtime(u, ts, i) => pc1 == if i < |u.del| then SetDtime(u, ts, i + 1) else Retire(u, ts, 0)
    case _ => false
  }

  /** What a step can do to a thread. */
  ghost predicate ThreadStep(s: System, T: Thread, T1: Thread) {
    || T1 == T
    || (T1 == T.(pc := T1.pc) && Follows(T.pc, T1.pc))
    || (T.pc.Retire? && T1 == Retiring(T))
    || (!T.pc.Dcss? && !Past(T.pc) && T1 == Quietly(s, T))
    || (T.pc.Idle? && (T1.pc.Idle? || T1.pc.ReadTime?) && T1.bag == T.bag)
  }

  ghost predicate OneMoves(s: System, s1: System, t: Tid)
    requires t < |s.th|
  {
    |s1.th| == |s.th| && ThreadStep(s, s.th[t], s1.th[t]) && forall v :: 0 <= v < |s.th| && v != t ==> s1.th[v] == s.th[v]
  }

  lemma LinearizeMovesNone(s: System, t: Tid, u: Update)
    ensures Linearize(s, t, u).th == s.th
  {
    hide AddLin;
  }

  lemma DcssMoves(s: System, t: Tid)
    requires t < |s.th| && s.th[t].pc.Dcss?
    ensures OneMoves(s, DoDcss(s, t), t)
  {
    hide Linearize, Usable, Retiring, Quietly;
    LinearizeMovesNone(s, t, s.th[t].pc.u);
  }

  lemma ItimeMoves(s: System, t: Tid)
    requires t < |s.th| && s.th[t].pc.SetItime?
    ensures OneMoves(s, DoSetItime(s, t), t)
  {
    hide Retiring, Quietly;
  }

  lemma DtimeMoves(s: System, t: Tid)
    requires t < |s.th| && s.th[t].pc.SetDtime?
    ensures OneMoves(s, DoSetDtime(s, t), t)
  {
    hide Retiring, Quietly;
  }

  lemma QuietBag(s: System, T: Thread)
    requires !T.pc.Dcss? && !Past(T.pc)
    ensures Quietly(s, T).bag == T.bag
  {}

  lemma RunMoves(s: System, t: Tid)
    requires t < |s.th|
    ensures OneMoves(s, StepRun(s, t), t)
  {
    hide DoDcss, DoSetItime, DoSetDtime, Retiring, Quietly, Follows;
    match s.th[t].pc
    case Dcss(_, _, _) => DcssMoves(s, t);
    case SetItime(_, _, _) => ItimeMoves(s, t);
    case SetDtime(_, _, _) => DtimeMoves(s, t);
    case _ =>
  }

  /** A step changes at most the thread that takes it, and that one in one of these ways. */
  lemma StepMoves(s: System, t: Tid, a: Action)
    requires t < |s.th|
    ensures OneMoves(s, Step(s, t, a), t)
  {
    hide StepRun, Retiring, Quietly, Follows;
    RunMoves(s, t);
  }

  lemma StepThread(s: System, u: Tid, a: Action, t: Tid)
    requires t < |s.th|
    ensures |Step(s, u, a).th| == |s.th| && ThreadStep(s, s.th[t], Step(s, u, a).th[t])
    ensures u != t ==> Step(s, u, a).th[t] == s.th[t]
  {
    hide StepRun, Retiring, Quietly, Follows;
    if u < |s.th| {
      StepMoves(s, u, a);
      hide Step;
    }
  }

  lemma RetireLast(s: System, t: Tid, T: Thread, j: nat, x: Node)
    requires PcOk(s, t, T) && T.pc.Retire? && Announces(T, j, x)
    ensures Announces(Retiring(T), j, x) || x in Retiring(T).bag
  {
    hide Linearized;
  }

  /** An announcement stays in its place until the node is in the bag. */
  lemma AnnouncementStays(s: System, u: Tid, a: Action, t: Tid, j: nat, x: Node)
    requires Inv(s) && t < |s.th| && Announces(s.th[t], j, x)
    ensures t < |Step(s, u, a).th| && (Announces(Step(s, u, a).th[t], j, x) || x in Step(s, u, a).th[t].bag)
  {
    hide Step, Retiring;
    assert ThreadOk(s, t, s.th[t]);
    StepThread(s, u, a, t);
    if s.th[t].pc.Retire? { RetireLast(s, t, s.th[t], j, x); }
    hide Inv, ThreadOk;
  }

  lemma BagStays(s: System, u: Tid, a: Action, t: Tid, x: Node)
    requires t < |s.th| && x in s.th[t].bag
    ensures t < |Step(s, u, a).th| && x in Step(s, u, a).th[t].bag
  {
    hide Step;
    StepThread(s, u, a, t);
    if !s.th[t].pc.Dcss? && !Past(s.th[t].pc) { QuietBag(s, s.th[t]); }
    hide Quietly;
  }

  // ---------------------------------------------------------------- along a run

  lemma {:induction false} BaggedForEver(s: System, sched: Schedule, m: nat, n: nat, t: Tid, x: Node)
    requires Initial(s) && m <= n <= |sched| && Bagged(s, sched, m, t, x)
    ensures Bagged(s, sched, n, t, x)
    decreases n
  {
    hide Step, Inv, Grows;
    if m < n {
      BaggedForEver(s, sched, m, n - 1, t, x);
      AtNext(s, sched, n - 1);
      BagStays(At(s, sched, n - 1), sched[n - 1].0, sched[n - 1].1, t, x);
    }
  }

  ghost predicate InPlace(s: System, sched: Schedule, n: nat, t: Tid, j: nat, x: Node) {
    n <= |sched| && t < |At(s, sched, n).th| && Announces(At(s, sched, n).th[t], j, x)
  }

  lemma {:induction false} InPlaceOrBagged(s: System, sched: Schedule, m: nat, n: nat, t: Tid, j: nat, x: Node)
    requires Initial(s) && m <= n <= |sched| && InPlace(s, sched, m, t, j, x)
    ensures InPlace(s, sched, n, t, j, x) || Bagged(s, sched, n, t, x)
    decreases n
  {
    hide Step, Inv, Grows, Announces;
    if m < n {
      InPlaceOrBagged(s, sched, m, n - 1, t, j, x);
      AtNext(s, sched, n - 1);
      if InPlace(s, sched, n - 1, t, j, x) {
        AnnouncementStays(At(s, sched, n - 1), sched[n - 1].0, sched[n - 1].1, t, j, x);
      } else {
        BaggedForEver(s, sched, n - 1, n, t, x);
      }
    }
  }

  /** A deletion, once linearized, is by the same thread for ever. */
  lemma {:induction false} DeletedForEver(s: System, sched: Schedule, m: nat, n: nat, x: Node)
    requires Initial(s) && m <= n <= |sched| && x in At(s, sched, m).del
    ensures x in At(s, sched, n).del && At(s, sched, n).del[x] == At(s, sched, m).del[x] && |At(s, sched, n).th| == |At(s, sched, m).th|
    decreases n
  {
    hide Step, Inv;
    if m < n {
      DeletedForEver(s, sched, m, n - 1, x);
      AtNext(s, sched, n - 1);
      hide At;
    }
  }

  /** A deleted node is in its deleter's bag, or announced in some place. */
  lemma DeletedSomewhere(s: System, x: Node) returns (j: nat)
    requires Inv(s) && x in s.del
    ensures var t := s.del[x].who; t < |s.th| && (x in s.th[t].bag || Announces(s.th[t], j, x))
  {
    var t := s.del[x].who;
    assert Visible(s, x);
    assert ThreadOk(s, t, s.th[t]);
    var T := s.th[t];
    j := 0;
    if x !in T.bag { j :| 0 <= j < |T.pc.u.del| && T.pc.u.del[j] == x; }
  }

  /** Reading a thread's announcements and then its bag misses none of the nodes that it had deleted before. */
  lemma NoneOfThreadMissed(s: System, sched: Schedule, r: Reads, t: Tid, x: Node)
    requires Initial(s) && ReadsOf(s, sched, 0, r, t) && x in At(s, sched, r.size).del && At(s, sched, r.size).del[x].who == t
    ensures Found(s, sched, r, t, x)
  {
    RunInv(s, sched[..r.size]);
    hide Inv, RunFrom;
    var j := DeletedSomewhere(At(s, sched, r.size), x);
    if x in At(s, sched, r.size).th[t].bag {
      BaggedForEver(s, sched, r.size, r.bag, t, x);
    } else {
      InPlaceOrBagged(s, sched, r.size, r.each[j], t, j, x);
      if Bagged(s, sched, r.each[j], t, x) {
        BaggedForEver(s, sched, r.each[j], r.bag, t, x);
      } else {
        assert Announced(s, sched, r.each[j], t, j, x);
      }
    }
  }

  /**
   * Reading all announcements and then all bags, one at a time in a run that goes on, misses no node whose deletion
   * had linearized when the reading began: in particular none deleted between the query's increment and the end of
   * its traversal.
   */
  lemma NoDeletedNodeIsMissed(s: System, sched: Schedule, first: nat, plan: seq<Reads>, x: Node)
    requires Initial(s) && InOrder(s, sched, first, plan) && x in At(s, sched, first).del
    ensures var t := At(s, sched, first).del[x].who; t < |plan| && Found(s, sched, plan[t], t, x)
  {
    RunInv(s, sched[..first]);
    var t := At(s, sched, first).del[x].who;
    assert Visible(At(s, sched, first), x);
    hide Inv, RunFrom, Found;
    assert ReadsOf(s, sched, first, plan[t], t);
    DeletedForEver(s, sched, first, plan[t].size, x);
    NoneOfThreadMissed(s, sched, plan[t], t, x);
  }

  // ---------------------------------------------------------------- with the scans of the bags

  /** A scan of a bag: the order in which its positions are passed, which of these are visited, and the nodes there. */
  datatype Scan = Scan(order: seq<nat>, ix: seq<nat>, visited: seq<Node>)

  /** What `ScanBag` does with the retired nodes of `t`, from the newest to the oldest. */
  ghost predicate ScanOf(s: System, t: Tid, endTime: int, T: int, scan: Scan) {
    && t < |s.th| && NewestFirst(scan.order, |s.th[t].bag|) && (forall i :: 0 <= i < |scan.order| ==> scan.order[i] < |s.th[t].bag|)
    && (forall p: nat :: p < |s.th[t].bag| ==> p in scan.order)
    && var b := Pick(s.th[t].bag, scan.order);
    && Positions(b, scan.ix, |b|, scan.visited)
    && (forall p: nat :: p < |b| ==> (p in scan.ix <==> T <= Stamp(s.dtime, b[p]) <= endTime))
  }

  /** All positions of a bag, from the newest to the oldest. */
  function Backwards(n: nat): seq<nat> {
    seq(n, i requires 0 <= i < n => n - 1 - i)
  }

  /** The scan of a thread's retired nodes. */
  method ScanThread(s: System, t: Tid, endTime: int, T: int) returns (visited: seq<Node>, ghost scan: Scan)
    requires Inv(s) && t < |s.th|
    ensures forall x :: x in visited <==> x in s.th[t].bag && T <= Stamp(s.dtime, x) <= endTime
    ensures scan.visited == visited && ScanOf(s, t, endTime, T, scan)
  {
    var bag := s.th[t].bag;
    var order := Backwards(|bag|);
    var b := Pick(bag, order);
    NewestDescend(s, t, order);
    hide Inv, Descending, Positions;
    ghost var ix;
    visited, ix := ScanBag(b, s.dtime, endTime, T, true);
    scan := Scan(order, ix, visited);
    forall p: nat | p < |bag| ensures p in order && bag[p] in b { assert order[|bag| - 1 - p] == p && b[|bag| - 1 - p] == bag[p]; }
  }

  lemma NewestDescend(s: System, t: Tid, order: seq<nat>)
    requires Inv(s) && t < |s.th| && NewestFirst(order, |s.th[t].bag|) && forall i :: 0 <= i < |order| ==> order[i] < |s.th[t].bag|
    ensures Descending(Pick(s.th[t].bag, order), s.dtime)
  {
    var b := Pick(s.th[t].bag, order);
    hide Inv, Stamp;
    forall i, j | 0 <= i <= j < |b| ensures TIMESTAMP_NOT_SET < Stamp(s.dtime, b[j]) <= Stamp(s.dtime, b[i]) {
      assert order[j] <= order[i];
      BagInOrder(s, t, order[j], order[i]);
    }
  }

  /** A retired node carries the timestamp of its deletion, which orders it with the query. */
  lemma RetiredStamp(s: System, t: Tid, p: nat, T: int)
    requires Inv(s) && t < |s.th| && p < |s.th[t].bag| && T in s.incAt
    ensures var x := s.th[t].bag[p]; x in s.del && Stamp(s.dtime, x) == s.del[x].ts && (T <= Stamp(s.dtime, x) <==> s.incAt[T] <= s.del[x].at)
  {
    assert ThreadOk(s, t, s.th[t]);
    KnownDeletion(s, s.th[t].bag[p]);
  }

  lemma VisitedHere(s: System, t: Tid, endTime: int, T: int, scan: Scan, x: Node)
    requires ScanOf(s, t, endTime, T, scan) && x in s.th[t].bag && T <= Stamp(s.dtime, x) <= endTime
    ensures x in scan.visited
  {
    var p: nat :| p < |s.th[t].bag| && s.th[t].bag[p] == x;
    assert p in scan.order;
    var j :| 0 <= j < |scan.order| && scan.order[j] == p;
    hide Stamp, NewestFirst;
    assert Pick(s.th[t].bag, scan.order)[j] == x;
    assert j in scan.ix;
    var i :| 0 <= i < |scan.ix| && scan.ix[i] == j;
    assert scan.visited[i] == x;
  }

  /** What a scan visits was deleted after the query's increment. */
  lemma VisitedAfterIncrement(s: System, sched: Schedule, t: Tid, endTime: int, T: int, scan: Scan, x: Node)
    requires Initial(s) && T in RunFrom(s, sched).incAt && ScanOf(RunFrom(s, sched), t, endTime, T, scan) && x in scan.visited
    ensures var s1 := RunFrom(s, sched); x in s1.del && s1.incAt[T] <= s1.del[x].at && s1.del[x].ts <= endTime
  {
    RunInv(s, sched);
    hide Inv, RunFrom, Stamp, NewestFirst;
    var s1 := RunFrom(s, sched);
    var i :| 0 <= i < |scan.visited| && scan.visited[i] == x;
    var b := Pick(s1.th[t].bag, scan.order);
    assert scan.ix[i] in scan.ix && b[scan.ix[i]] == x;
    RetiredStamp(s1, t, scan.order[scan.ix[i]], T);
  }

  lemma {:induction false} IncrementStays(s: System, sched: Schedule, m: nat, n: nat, T: int)
    requires Initial(s) && m <= n <= |sched| && T in At(s, sched, m).incAt
    ensures T in At(s, sched, n).incAt && At(s, sched, n).incAt[T] == At(s, sched, m).incAt[T]
    decreases n
  {
    hide Step, Inv, Grows;
    if m < n {
      IncrementStays(s, sched, m, n - 1, T);
      AtNext(s, sched, n - 1);
      hide At;
      IncrementStep(At(s, sched, n - 1), sched[n - 1].0, sched[n - 1].1, T);
    }
  }

  lemma IncrementStep(s: System, t: Tid, a: Action, T: int)
    requires Inv(s) && T in s.incAt
    ensures T in Step(s, t, a).incAt && Step(s, t, a).incAt[T] == s.incAt[T]
  {
    assert TimesOk(s);
    hide Inv, StepRun;
    if t < |s.th| { RunKeepsIncrements(s, t); }
  }

  lemma RunKeepsIncrements(s: System, t: Tid)
    requires t < |s.th|
    ensures StepRun(s, t).incAt == s.incAt
  {
    hide DoDcss, DoSetItime, DoSetDtime, Quietly, Retiring;
    match s.th[t].pc
    case Dcss(_, _, _) => DcssKeepsIncrements(s, t);
    case SetItime(_, _, _) => StampKeepsIncrements(s, t);
    case SetDtime(_, _, _) => StampKeepsIncrements(s, t);
    case _ =>
  }

  lemma DcssKeepsIncrements(s: System, t: Tid)
    requires t < |s.th| && s.th[t].pc.Dcss?
    ensures DoDcss(s, t).incAt == s.incAt
  {
    hide AddLin, Usable;
  }

  lemma StampKeepsIncrements(s: System, t: Tid)
    requires t < |s.th|
    ensures s.th[t].pc.SetItime? ==> DoSetItime(s, t).incAt == s.incAt
    ensures s.th[t].pc.SetDtime? ==> DoSetDtime(s, t).incAt == s.incAt
  {}

  /**
   * A whole query. After its increment, which gave it the time `T`, and its traversal, it reads the timestamp after
   * `end` steps; then it reads all announcements and all bags, one at a time, and scans each bag with the early exit.
   * Every node whose deletion linearized in between, from the increment to the end of the traversal, is among the
   * announcements it read or among the nodes it visited.
   */
  lemma QueryFindsDeleted(s: System, sched: Schedule, end: nat, T: int, plan: seq<Reads>, scans: seq<Scan>, x: Node)
    requires Initial(s) && InOrder(s, sched, end, plan) && T in At(s, sched, end).incAt && |scans| == |plan|
    requires forall t: nat :: t < |plan| ==> plan[t].bag <= |sched| && ScanOf(At(s, sched, plan[t].bag), t, At(s, sched, end).timestamp, T, scans[t])
    requires x in At(s, sched, end).del && At(s, sched, end).incAt[T] <= At(s, sched, end).del[x].at
    ensures var t := At(s, sched, end).del[x].who;
      && t < |plan|
      && ((exists j: nat :: j < |plan[t].each| && Announced(s, sched, plan[t].each[j], t, j, x)) || x in scans[t].visited)
  {
    hide RunFrom, ScanOf, Announced;
    NoDeletedNodeIsMissed(s, sched, end, plan, x);
    var t, e := At(s, sched, end).del[x].who, At(s, sched, end);
    var r := plan[t];
    assert ReadsOf(s, sched, end, r, t);
    if Bagged(s, sched, r.bag, t, x) {
      DueAtScan(s, sched, end, r.bag, T, t, x);
      VisitedHere(At(s, sched, r.bag), t, e.timestamp, T, scans[t], x);
    }
  }

  lemma DueAtScan(s: System, sched: Schedule, end: nat, n: nat, T: int, t: Tid, x: Node)
    requires Initial(s) && end <= n <= |sched| && T in At(s, sched, end).incAt && Bagged(s, sched, n, t, x)
    requires x in At(s, sched, end).del && At(s, sched, end).incAt[T] <= At(s, sched, end).del[x].at
    ensures T <= Stamp(At(s, sched, n).dtime, x) <= At(s, sched, end).timestamp
  {
    RunInv(s, sched[..end]);
    RunInv(s, sched[..n]);
    hide RunFrom;
    DeletedForEver(s, sched, end, n, x);
    IncrementStays(s, sched, end, n, T);
    hide Stamp;
    var s1 := At(s, sched, n);
    var p :| 0 <= p < |s1.th[t].bag| && s1.th[t].bag[p] == x;
    KnownDeletion(At(s, sched, end), x);
    hide Inv, At;
    RetiredStamp(s1, t, p, T);
  }
}
