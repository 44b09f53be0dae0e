/**
 * Timestamps of range queries: an update linearizes with a DCSS that also compares the global
 * timestamp, then stamps its inserted and deleted nodes with the timestamp it compared; a range query
 * linearizes by incrementing the timestamp.
 *
 * DCSS is one atomic step here. Physical and logical deletion coincide. `now`, `ins`, `del` and
 * `incAt` are history that no step reads, apart from the rule that a successful update inserts only
 * nodes never inserted before and deletes only nodes not yet deleted.
 */
module RangeQuery {

  type Tid = nat
  type Addr = int
  type Node = int

  const TIMESTAMP_NOT_SET := 0

  /** linearize_update_at_cas when `byCas`, linearize_update_at_write otherwise. */
  datatype Update = Update(addr: Addr, byCas: bool, oldval: int, newval: int, ins: seq<Node>, del: seq<Node>)

  datatype Pc =
    | Idle
    | ReadTime(u: Update)
    | ReadOld(u: Update, ts: int)
    | Dcss(u: Update, ts: int, old2: int)
    | SetItime(u: Update, ts: int, i: nat)
    | SetDtime(u: Update, ts: int, i: nat)
    | Retire(u: Update, ts: int, i: nat)
    | Unannounce(u: Update, i: nat)        // physical_deletion_failed

  /** `ann` is the announced nodes, `bag` the retired ones, oldest first. */
  datatype Thread = Thread(pc: Pc, ann: seq<Node>, bag: seq<Node>, rqTime: int)

  /** An insertion or deletion: when it linearized, at which timestamp, by whom. */
  datatype Lin = Lin(at: nat, ts: int, who: Tid)

  datatype System = System(
    timestamp: int, mem: map<Addr, int>, itime: map<Node, int>, dtime: map<Node, int>, th: seq<Thread>,
    now: nat, ins: map<Node, Lin>, del: map<Node, Lin>, incAt: map<int, nat>)

  datatype Action = Begin(u: Update) | Run | TraversalStart

  function Stamp(m: map<Node, int>, x: Node): int {
    if x in m then m[x] else TIMESTAMP_NOT_SET
  }

  /** Nodes are inserted once and deleted once. */
  predicate Usable(s: System, u: Update) {
    (forall x :: x in u.ins ==> x !in s.ins) && (forall x :: x in u.del ==> x !in s.del)
  }

  function AddLin(m: map<Node, Lin>, xs: seq<Node>, e: Lin): map<Node, Lin> {
    map x | x in m.Keys + (set y | y in xs) :: if x in xs then e else m[x]
  }

  /** The DCSS succeeds: the word changes and the update linearizes. */
  function Linearize(s: System, t: Tid, u: Update): System {
    s.(mem := s.mem[u.addr := u.newval],
       ins := AddLin(s.ins, u.ins, Lin(s.now, s.timestamp, t)),
       del := AddLin(s.del, u.del, Lin(s.now, s.timestamp, t)))
  }

  function SetPc(s: System, t: Tid, pc: Pc): System
    requires t < |s.th|
  {
    s.(th := s.th[t := s.th[t].(pc := pc)])
  }

  function DoDcss(s: System, t: Tid): System
    requires t < |s.th| && s.th[t].pc.Dcss?
  {
    var u, ts, old2 := s.th[t].pc.u, s.th[t].pc.ts, s.th[t].pc.old2;
    if u.addr !in s.mem then s
    else if s.mem[u.addr] != old2 then SetPc(s, t, if u.byCas then Unannounce(u, 0) else ReadTime(u))
    else if s.timestamp != ts then SetPc(s, t, ReadTime(u))
    else if Usable(s, u) then SetPc(Linearize(s, t, u), t, SetItime(u, ts, 0))
    else s
  }

  function DoSetItime(s: System, t: Tid): System
    requires t < |s.th| && s.th[t].pc.SetItime?
  {
    var u, ts, i := s.th[t].pc.u, s.th[t].pc.ts, s.th[t].pc.i;
    if i < |u.ins| then SetPc(s.(itime := s.itime[u.ins[i] := ts]), t, SetItime(u, ts, i + 1)) else SetPc(s, t, SetDtime(u, ts, 0))
  }

  function DoSetDtime(s: System, t: Tid): System
    requires t < |s.th| && s.th[t].pc.SetDtime?
  {
    var u, ts, i := s.th[t].pc.u, s.th[t].pc.ts, s.th[t].pc.i;
    if i < |u.del| then SetPc(s.(dtime := s.dtime[u.del[i] := ts]), t, SetDtime(u, ts, i + 1)) else SetPc(s, t, Retire(u, ts, 0))
  }

  /** physical_deletion_succeeded: the nodes are retired before their announcements go. */
  function Retiring(T: Thread): Thread
    requires T.pc.Retire?
  {
    var u, ts, i := T.pc.u, T.pc.ts, T.pc.i;
    if i < |u.del| then T.(pc := Retire(u, ts, i + 1), bag := T.bag + [u.del[i]])
    else T.(pc := Idle, ann := if |u.del| <= |T.ann| then T.ann[..|T.ann| - |u.del|] else [])
  }

  /** The other steps of an update change only the thread. */
  function Quietly(s: System, T: Thread): Thread
    requires !T.pc.Dcss? && !Past(T.pc)
  {
    match T.pc
    case ReadTime(u) => T.(pc := if u.byCas then Dcss(u, s.timestamp, u.oldval) else ReadOld(u, s.timestamp))
    case ReadOld(u, ts) => if u.addr in s.mem then T.(pc := Dcss(u, ts, s.mem[u.addr])) else T
    case Unannounce(u, i) =>
      if i < |u.del| && T.ann != [] then T.(pc := Unannounce(u, i + 1), ann := T.ann[..|T.ann| - 1]) else T.(pc := Idle)
    case _ => T
  }

  function SetThread(s: System, t: Tid, T: Thread): System
    requires t < |s.th|
  {
    s.(th := s.th[t := T])
  }

  function StepRun(s: System, t: Tid): System
    requires t < |s.th|
  {
    var T := s.th[t];
    if T.pc.Dcss? then DoDcss(s, t)
    else if T.pc.SetItime? then DoSetItime(s, t)
    else if T.pc.SetDtime? then DoSetDtime(s, t)
    else if T.pc.Retire? then SetThread(s, t, Retiring(T))
    else SetThread(s, t, Quietly(s, T))
  }

  function DoBegin(s: System, t: Tid, u: Update): System
    requires t < |s.th|
  {
    if s.th[t].pc.Idle? && u.addr in s.mem then SetThread(s, t, s.th[t].(pc := ReadTime(u), ann := s.th[t].ann + u.del)) else s
  }

  function DoStart(s: System, t: Tid): System
    requires t < |s.th|
  {
    if s.th[t].pc.Idle?
    then SetThread(s.(timestamp := s.timestamp + 1, incAt := s.incAt[s.timestamp + 1 := s.now]), t, s.th[t].(rqTime := s.timestamp + 1)) else s
  }

  function Tick(s: System): System { s.(now := s.now + 1) }

  function Step(s: System, t: Tid, a: Action): System {
    if t >= |s.th| then s else
    Tick(
      match a
      case Begin(u) => DoBegin(s, t, u)
      case Run => StepRun(s, t)
      case TraversalStart => DoStart(s, t)
    )
  }

  /** Between the DCSS and the end of the update. */
  predicate Past(pc: Pc) { pc.SetItime? || pc.SetDtime? || pc.Retire? }

  type Schedule = seq<(Tid, Action)>

  function RunFrom(s: System, sched: Schedule): System
    decreases |sched|
  {
    if sched == [] then s
    else Step(RunFrom(s, sched[..|sched| - 1]), sched[|sched| - 1].0, sched[|sched| - 1].1)
  }

  predicate Initial(s: System) {
    && s.timestamp == 1 && s.itime == map[] && s.dtime == map[] && s.ins == map[] && s.del == map[] && s.incAt == map[]
    && forall t :: 0 <= t < |s.th| ==> s.th[t] == Thread(Idle, [], [], 0)
  }

  // ---------------------------------------------------------------- the invariant

  /** The timestamp an update compared is below a query's time exactly when the update linearized first. */
  ghost predicate Ordered(s: System, e: Lin) {
    && 1 <= e.ts <= s.timestamp && e.at < s.now && e.who < |s.th|
    && forall T :: T in s.incAt ==> (e.ts < T <==> e.at < s.incAt[T])
  }

  ghost predicate TimesOk(s: System) {
    && 1 <= s.timestamp
    && (forall T :: T in s.incAt ==> 2 <= T <= s.timestamp && s.incAt[T] < s.now)
    && (forall x :: x in s.ins ==> Ordered(s, s.ins[x]))
    && (forall x :: x in s.del ==> Ordered(s, s.del[x]))
    && (forall x :: x in s.itime ==> x in s.ins && s.itime[x] == s.ins[x].ts)
    && (forall x :: x in s.dtime ==> x in s.del && s.dtime[x] == s.del[x].ts)
  }

  /** The update of a thread that is past its DCSS. */
  ghost predicate Linearized(s: System, t: Tid, u: Update, ts: int) {
    && (forall j :: 0 <= j < |u.ins| ==> u.ins[j] in s.ins && s.ins[u.ins[j]].ts == ts)
    && (forall j :: 0 <= j < |u.del| ==> u.del[j] in s.del && s.del[u.del[j]].ts == ts && s.del[u.del[j]].who == t)
  }

  ghost predicate PcOk(s: System, t: Tid, T: Thread) {
    match T.pc
    case Idle => T.ann == []
    case ReadTime(u) => T.ann == u.del
    case ReadOld(u, _) => T.ann == u.del
    case Dcss(u, _, _) => T.ann == u.del
    case SetItime(u, ts, i) => T.ann == u.del && Linearized(s, t, u, ts)
    case SetDtime(u, ts, i) =>
      T.ann == u.del && Linearized(s, t, u, ts) && i <= |u.del| && forall j :: 0 <= j < i ==> u.del[j] in s.dtime
    case Retire(u, ts, i) =>
      && T.ann == u.del && Linearized(s, t, u, ts) && i <= |u.del|
      && forall j :: 0 <= j < |u.del| ==> u.del[j] in s.dtime && (j < i ==> u.del[j] in T.bag)
    case Unannounce(u, i) => i <= |u.del| && T.ann == u.del[..|u.del| - i]
  }

  function DeletedAt(s: System, x: Node): int {
    if x in s.del then s.del[x].ts else 0
  }

  /** Retired nodes are stamped, in the order of their deletion timestamps. */
  ghost predicate BagOk(s: System, t: Tid, T: Thread) {
    && (forall i :: 0 <= i < |T.bag| ==> T.bag[i] in s.dtime && T.bag[i] in s.del)
    && (Past(T.pc) ==> forall i :: 0 <= i < |T.bag| ==> DeletedAt(s, T.bag[i]) <= T.pc.ts)
    && (forall i, j :: 0 <= i < j < |T.bag| ==> DeletedAt(s, T.bag[i]) <= DeletedAt(s, T.bag[j]))
  }

  /** A node whose deletion has linearized is retired by its deleter, or is being retired by it. */
  ghost predicate Visible(s: System, x: Node)
    requires x in s.del
  {
    s.del[x].who < |s.th| && Keeps(s.th[s.del[x].who], x)
  }

  predicate Keeps(T: Thread, x: Node) {
    x in T.bag || (Past(T.pc) && x in T.pc.u.del)
  }

  ghost predicate ThreadOk(s: System, t: Tid, T: Thread) {
    PcOk(s, t, T) && BagOk(s, t, T)
  }

  ghost predicate Inv(s: System) {
    && TimesOk(s)
    && (forall t :: 0 <= t < |s.th| ==> ThreadOk(s, t, s.th[t]))
    && (forall x :: x in s.del ==> Visible(s, x))
  }

  // ---------------------------------------------------------------- what steps keep

  /** Histories and stamps only grow. */
  ghost predicate Grows(s: System, s1: System) {
    && |s.th| == |s1.th|
    && (forall x :: x in s.ins ==> x in s1.ins && s1.ins[x] == s.ins[x])
    && (forall x :: x in s.del ==> x in s1.del && s1.del[x] == s.del[x])
    && (forall x :: x in s.itime ==> x in s1.itime)
    && (forall x :: x in s.dtime ==> x in s1.dtime)
  }

  lemma LinearizedStable(s: System, s1: System, t: Tid, u: Update, ts: int)
    requires Grows(s, s1) && Linearized(s, t, u, ts)
    ensures Linearized(s1, t, u, ts)
  {
    forall j | 0 <= j < |u.ins| ensures u.ins[j] in s1.ins && s1.ins[u.ins[j]].ts == ts { var x := u.ins[j]; assert x in s.ins; }
    forall j | 0 <= j < |u.del| ensures u.del[j] in s1.del && s1.del[u.del[j]].ts == ts && s1.del[u.del[j]].who == t { var x := u.del[j]; assert x in s.del; }
  }

  lemma PcStable(s: System, s1: System, t: Tid, T: Thread)
    requires Grows(s, s1) && PcOk(s, t, T)
    ensures PcOk(s1, t, T)
  {
    if Past(T.pc) {
      LinearizedStable(s, s1, t, T.pc.u, T.pc.ts);
      var del := T.pc.u.del;
      forall j | 0 <= j < |del| && del[j] in s.dtime ensures del[j] in s1.dtime { var x := del[j]; assert x in s.dtime; }
    }
    hide Linearized, Grows;
  }

  lemma BagStable(s: System, s1: System, t: Tid, T: Thread)
    requires Grows(s, s1) && BagOk(s, t, T)
    ensures BagOk(s1, t, T)
  {
    assert forall i :: 0 <= i < |T.bag| ==> DeletedAt(s1, T.bag[i]) == DeletedAt(s, T.bag[i]);
  }

  lemma ThreadStable(s: System, s1: System, t: Tid, T: Thread)
    requires Grows(s, s1) && ThreadOk(s, t, T)
    ensures ThreadOk(s1, t, T)
  {
    PcStable(s, s1, t, T);
    BagStable(s, s1, t, T);
  }

  /** A step of `t` keeps the invariant when the stamps and histories grow and `t` loses sight of no node. */
  lemma Assemble(s: System, s1: System, t: Tid)
    requires Inv(s) && t < |s.th| && Grows(s, s1) && TimesOk(s1) && ThreadOk(s1, t, s1.th[t])
    requires forall u :: 0 <= u < |s.th| && u != t ==> s1.th[u] == s.th[u]
    requires forall y :: Keeps(s.th[t], y) ==> Keeps(s1.th[t], y)
    requires forall x :: x in s1.del && x !in s.del ==> s1.del[x].who == t && Keeps(s1.th[t], x)
    ensures Inv(s1)
  {
    hide ThreadOk, TimesOk, Keeps;
    forall u | 0 <= u < |s1.th| ensures ThreadOk(s1, u, s1.th[u]) {
      if u != t { ThreadStable(s, s1, u, s.th[u]); }
    }
    forall x | x in s1.del ensures Visible(s1, x) {
      if x in s.del { assert Visible(s, x); }
    }
  }

  lemma TimesLinearize(s: System, t: Tid, u: Update)
    requires TimesOk(s) && t < |s.th| && Usable(s, u)
    ensures var s1 := Linearize(s, t, u).(now := s.now + 1); TimesOk(s1) && Grows(s, s1)
  {
    var s1 := Linearize(s, t, u).(now := s.now + 1);
    forall x | x in s1.ins ensures Ordered(s1, s1.ins[x]) { if x !in u.ins { assert Ordered(s, s.ins[x]); } }
    forall x | x in s1.del ensures Ordered(s1, s1.del[x]) { if x !in u.del { assert Ordered(s, s.del[x]); } }
  }

  /** TimesOk speaks of the threads only through their number. */
  lemma TimesThreads(s: System, s1: System)
    requires TimesOk(s) && |s.th| == |s1.th| && s1 == s.(th := s1.th, now := s1.now) && s.now <= s1.now
    ensures TimesOk(s1) && Grows(s, s1)
  {
    forall x | x in s1.ins ensures Ordered(s1, s1.ins[x]) { assert Ordered(s, s.ins[x]); }
    forall x | x in s1.del ensures Ordered(s1, s1.del[x]) { assert Ordered(s, s.del[x]); }
  }

  lemma TimesStamp(s: System, x: Node, ts: int)
    requires TimesOk(s)
    ensures x in s.ins && s.ins[x].ts == ts ==> var s1 := s.(itime := s.itime[x := ts]); TimesOk(s1) && Grows(s, s1)
    ensures x in s.del && s.del[x].ts == ts ==> var s1 := s.(dtime := s.dtime[x := ts]); TimesOk(s1) && Grows(s, s1)
  {
    forall e: Lin | Ordered(s, e) ensures Ordered(s.(itime := s.itime[x := ts]), e) && Ordered(s.(dtime := s.dtime[x := ts]), e) {}
  }

  lemma TimesIncrement(s: System)
    requires TimesOk(s)
    ensures var s1 := s.(timestamp := s.timestamp + 1, incAt := s.incAt[s.timestamp + 1 := s.now], now := s.now + 1); TimesOk(s1) && Grows(s, s1)
  {
    var s1 := s.(timestamp := s.timestamp + 1, incAt := s.incAt[s.timestamp + 1 := s.now], now := s.now + 1);
    forall x | x in s1.ins ensures Ordered(s1, s1.ins[x]) { assert Ordered(s, s.ins[x]); }
    forall x | x in s1.del ensures Ordered(s1, s1.del[x]) { assert Ordered(s, s.del[x]); }
  }

  lemma KnownDeletion(s: System, x: Node)
    requires TimesOk(s) && x in s.del
    ensures Ordered(s, s.del[x]) && DeletedAt(s, x) <= s.timestamp
  {}

  lemma LinearizeThread(s: System, t: Tid)
    requires Inv(s) && t < |s.th| && s.th[t].pc.Dcss? && s.timestamp == s.th[t].pc.ts && Usable(s, s.th[t].pc.u)
    ensures var u := s.th[t].pc.u; ThreadOk(Linearize(s, t, u), t, s.th[t].(pc := SetItime(u, s.timestamp, 0)))
  {
    var T := s.th[t];
    assert ThreadOk(s, t, T);
    forall i | 0 <= i < |T.bag| ensures DeletedAt(s, T.bag[i]) <= s.timestamp { KnownDeletion(s, T.bag[i]); }
    TimesLinearize(s, t, T.pc.u);
    ThreadStable(s, Linearize(s, t, T.pc.u), t, T);
  }

  lemma DcssKeeps(s: System, t: Tid)
    requires Inv(s) && t < |s.th| && s.th[t].pc.Dcss?
    ensures Inv(Tick(DoDcss(s, t))) && Grows(s, Tick(DoDcss(s, t)))
  {
    var s1, T := Tick(DoDcss(s, t)), s.th[t];
    var u := T.pc.u;
    assert ThreadOk(s, t, T);
    if u.addr in s.mem && s.mem[u.addr] == T.pc.old2 && s.timestamp == T.pc.ts && Usable(s, u) {
      hide Inv, Linearize;
      SuccessKeeps(s, t, u);
    } else {
      RetryThread(s, t, s1.th[t]);
      hide TimesOk, ThreadOk, Keeps;
      ThreadsKeep(s, t, s1.th[t]);
      assert s1 == Tick(SetThread(s, t, s1.th[t]));
    }
  }

  /** A failed DCSS changes no more than the program counter. */
  lemma RetryThread(s: System, t: Tid, T1: Thread)
    requires t < |s.th| && ThreadOk(s, t, s.th[t]) && s.th[t].pc.Dcss?
    requires T1 == s.th[t] || T1 == s.th[t].(pc := ReadTime(s.th[t].pc.u)) || T1 == s.th[t].(pc := Unannounce(s.th[t].pc.u, 0))
    ensures ThreadOk(s, t, T1) && forall y :: Keeps(s.th[t], y) ==> Keeps(T1, y)
  {
    assert s.th[t].pc.u.del[..|s.th[t].pc.u.del|] == s.th[t].pc.u.del;
  }

  lemma SuccessKeeps(s: System, t: Tid, u: Update)
    requires Inv(s) && t < |s.th| && s.th[t].pc.Dcss? && s.timestamp == s.th[t].pc.ts && u == s.th[t].pc.u && Usable(s, u)
    ensures var s1 := Tick(SetPc(Linearize(s, t, u), t, SetItime(u, s.timestamp, 0))); Inv(s1) && Grows(s, s1)
  {
    var s1 := Tick(SetPc(Linearize(s, t, u), t, SetItime(u, s.timestamp, 0)));
    TimesLinearize(s, t, u);
    LinearizeThread(s, t);
    NewDeletions(s, t, u);
    hide TimesOk, ThreadOk, Linearize;
    TimesThreads(Linearize(s, t, u).(now := s.now + 1), s1);
    ThreadStable(Linearize(s, t, u), s1, t, s1.th[t]);
    Assemble(s, s1, t);
  }

  lemma NewDeletions(s: System, t: Tid, u: Update)
    ensures forall x :: x in Linearize(s, t, u).del && x !in s.del ==> Linearize(s, t, u).del[x].who == t && x in u.del
  {}

  /** A step that changes only the thread. */
  lemma ThreadsKeep(s: System, t: Tid, T1: Thread)
    requires Inv(s) && t < |s.th| && ThreadOk(s, t, T1) && forall y :: Keeps(s.th[t], y) ==> Keeps(T1, y)
    ensures var s1 := Tick(SetThread(s, t, T1)); Inv(s1) && Grows(s, s1)
  {
    var s1 := Tick(SetThread(s, t, T1));
    hide TimesOk, ThreadOk, Keeps;
    TimesThreads(s, s1);
    ThreadStable(s, s1, t, T1);
    Assemble(s, s1, t);
  }

  /** A step that sets one stamp and moves on. */
  lemma StampsKeep(s: System, s2: System, t: Tid, T1: Thread)
    requires Inv(s) && t < |s.th| && TimesOk(s2) && Grows(s, s2) && s2.th == s.th && s2.del == s.del && s2.now == s.now
    requires ThreadOk(s2, t, T1) && forall y :: Keeps(s.th[t], y) ==> Keeps(T1, y)
    ensures var s1 := Tick(SetThread(s2, t, T1)); Inv(s1) && Grows(s, s1)
  {
    var s1 := Tick(SetThread(s2, t, T1));
    hide TimesOk, ThreadOk, Keeps;
    TimesThreads(s2, s1);
    ThreadStable(s2, s1, t, T1);
    Assemble(s, s1, t);
  }

  lemma ItimeThread(s: System, s2: System, t: Tid, T: Thread)
    requires ThreadOk(s, t, T) && Grows(s, s2) && T.pc.SetItime?
    ensures var T1 := T.(pc := SetItime(T.pc.u, T.pc.ts, T.pc.i + 1)); ThreadOk(s2, t, T1) && forall y :: Keeps(T, y) ==> Keeps(T1, y)
  {
    ThreadStable(s, s2, t, T);
    hide Linearized;
  }

  lemma DtimeThread(s: System, s2: System, t: Tid, T: Thread)
    requires ThreadOk(s, t, T) && Grows(s, s2) && T.pc.SetDtime? && T.pc.i < |T.pc.u.del| && T.pc.u.del[T.pc.i] in s2.dtime
    ensures var T1 := T.(pc := SetDtime(T.pc.u, T.pc.ts, T.pc.i + 1)); ThreadOk(s2, t, T1) && forall y :: Keeps(T, y) ==> Keeps(T1, y)
  {
    ThreadStable(s, s2, t, T);
    hide Linearized;
  }

  lemma PhaseThread(s: System, t: Tid, T: Thread)
    requires ThreadOk(s, t, T)
    ensures T.pc.SetItime? ==> var T1 := T.(pc := SetDtime(T.pc.u, T.pc.ts, 0)); ThreadOk(s, t, T1) && forall y :: Keeps(T, y) ==> Keeps(T1, y)
    ensures T.pc.SetDtime? && T.pc.i >= |T.pc.u.del| ==> var T1 := T.(pc := Retire(T.pc.u, T.pc.ts, 0)); ThreadOk(s, t, T1) && forall y :: Keeps(T, y) ==> Keeps(T1, y)
  {
    hide Linearized;
  }

  lemma StampIns(s: System, t: Tid, u: Update, ts: int, i: nat)
    requires TimesOk(s) && Linearized(s, t, u, ts) && i < |u.ins|
    ensures var s2 := s.(itime := s.itime[u.ins[i] := ts]); TimesOk(s2) && Grows(s, s2)
  {
    TimesStamp(s, u.ins[i], ts);
  }

  lemma StampDel(s: System, t: Tid, u: Update, ts: int, i: nat)
    requires TimesOk(s) && Linearized(s, t, u, ts) && i < |u.del|
    ensures var s2 := s.(dtime := s.dtime[u.del[i] := ts]); TimesOk(s2) && Grows(s, s2)
  {
    TimesStamp(s, u.del[i], ts);
  }

  lemma PastLinearized(s: System, t: Tid, T: Thread)
    requires ThreadOk(s, t, T) && Past(T.pc)
    ensures Linearized(s, t, T.pc.u, T.pc.ts)
  {}

  lemma SetItimeKeeps(s: System, t: Tid)
    requires Inv(s) && t < |s.th| && s.th[t].pc.SetItime?
    ensures Inv(Tick(DoSetItime(s, t))) && Grows(s, Tick(DoSetItime(s, t)))
  {
    hide ThreadOk, TimesOk, Linearized, Keeps, Grows;
    var T := s.th[t];
    assert ThreadOk(s, t, T);
    var u, ts, i := T.pc.u, T.pc.ts, T.pc.i;
    if i < |u.ins| {
      var s2 := s.(itime := s.itime[u.ins[i] := ts]);
      PastLinearized(s, t, T);
      StampIns(s, t, u, ts, i);
      ItimeThread(s, s2, t, T);
      hide Inv;
      StampsKeep(s, s2, t, T.(pc := SetItime(u, ts, i + 1)));
    } else {
      hide Inv;
      PhaseThread(s, t, T);
      ThreadsKeep(s, t, T.(pc := SetDtime(u, ts, 0)));
    }
  }

  lemma SetDtimeKeeps(s: System, t: Tid)
    requires Inv(s) && t < |s.th| && s.th[t].pc.SetDtime?
    ensures Inv(Tick(DoSetDtime(s, t))) && Grows(s, Tick(DoSetDtime(s, t)))
  {
    hide ThreadOk, TimesOk, Linearized, Keeps, Grows;
    var T := s.th[t];
    assert ThreadOk(s, t, T);
    var u, ts, i := T.pc.u, T.pc.ts, T.pc.i;
    if i < |u.del| {
      var s2 := s.(dtime := s.dtime[u.del[i] := ts]);
      PastLinearized(s, t, T);
      StampDel(s, t, u, ts, i);
      DtimeThread(s, s2, t, T);
      hide Inv;
      StampsKeep(s, s2, t, T.(pc := SetDtime(u, ts, i + 1)));
    } else {
      hide Inv;
      PhaseThread(s, t, T);
      ThreadsKeep(s, t, T.(pc := Retire(u, ts, 0)));
    }
  }

  lemma RetireBag(s: System, t: Tid, T: Thread)
    requires ThreadOk(s, t, T) && T.pc.Retire?
    ensures BagOk(s, t, Retiring(T)) && forall y :: y in T.bag ==> y in Retiring(T).bag
  {
    var T1 := Retiring(T);
    assert forall i :: 0 <= i < |T1.bag| ==> T1.bag[i] in s.dtime && T1.bag[i] in s.del && DeletedAt(s, T1.bag[i]) <= T.pc.ts;
  }

  lemma RetirePc(s: System, t: Tid, T: Thread)
    requires PcOk(s, t, T) && T.pc.Retire? && forall y :: y in T.bag ==> y in Retiring(T).bag
    ensures PcOk(s, t, Retiring(T)) && forall y :: Keeps(T, y) ==> Keeps(Retiring(T), y)
  {
    hide Linearized;
    var T1, del, i := Retiring(T), T.pc.u.del, T.pc.i;
    if i < |del| {
      assert T1.bag[|T.bag|] == del[i];
    } else {
      forall y | y in del ensures y in T.bag { var j :| 0 <= j < |del| && del[j] == y; }
    }
  }

  lemma RetireKeeps(s: System, t: Tid)
    requires Inv(s) && t < |s.th| && s.th[t].pc.Retire?
    ensures var s1 := Tick(SetThread(s, t, Retiring(s.th[t]))); Inv(s1) && Grows(s, s1)
  {
    assert ThreadOk(s, t, s.th[t]);
    RetireBag(s, t, s.th[t]);
    RetirePc(s, t, s.th[t]);
    hide Inv, PcOk, BagOk, Keeps, Retiring;
    ThreadsKeep(s, t, Retiring(s.th[t]));
  }

  /** Before its DCSS, and after a failed one, an update changes nothing that a bag depends on. */
  lemma QuietThread(s: System, t: Tid, T: Thread, T1: Thread)
    requires ThreadOk(s, t, T) && !Past(T.pc) && T1.bag == T.bag && !Past(T1.pc) && PcOk(s, t, T1)
    ensures ThreadOk(s, t, T1) && forall y :: Keeps(T, y) ==> Keeps(T1, y)
  {
    hide PcOk;
  }

  lemma QuietPc(s: System, t: Tid, T: Thread)
    requires PcOk(s, t, T) && !T.pc.Dcss? && !Past(T.pc)
    ensures PcOk(s, t, Quietly(s, T)) && Quietly(s, T).bag == T.bag && !Past(Quietly(s, T).pc)
  {
    hide Linearized;
    match T.pc
    case Unannounce(u, i) =>
    case _ =>
  }

  lemma QuietKeeps(s: System, t: Tid)
    requires Inv(s) && t < |s.th| && !s.th[t].pc.Dcss? && !Past(s.th[t].pc)
    ensures var s1 := Tick(SetThread(s, t, Quietly(s, s.th[t]))); Inv(s1) && Grows(s, s1)
  {
    var T := s.th[t];
    assert ThreadOk(s, t, T);
    hide Inv, Quietly;
    QuietPc(s, t, T);
    QuietThread(s, t, T, Quietly(s, T));
    ThreadsKeep(s, t, Quietly(s, T));
  }

  lemma BeginKeeps(s: System, t: Tid, u: Update)
    requires Inv(s) && t < |s.th|
    ensures Inv(Tick(DoBegin(s, t, u))) && Grows(s, Tick(DoBegin(s, t, u)))
  {
    var T := s.th[t];
    assert ThreadOk(s, t, T);
    hide Inv;
    if T.pc.Idle? && u.addr in s.mem {
      QuietThread(s, t, T, T.(pc := ReadTime(u), ann := T.ann + u.del));
      ThreadsKeep(s, t, T.(pc := ReadTime(u), ann := T.ann + u.del));
    } else {
      ThreadsKeep(s, t, T);
      assert SetThread(s, t, T) == s;
    }
  }

  lemma StartTimes(s: System, t: Tid)
    requires TimesOk(s) && t < |s.th| && s.th[t].pc.Idle?
    ensures TimesOk(Tick(DoStart(s, t))) && Grows(s, Tick(DoStart(s, t)))
  {
    var s1 := Tick(DoStart(s, t));
    TimesIncrement(s);
    hide TimesOk;
    TimesThreads(s.(timestamp := s1.timestamp, incAt := s1.incAt, now := s1.now), s1);
  }

  lemma StartKeeps(s: System, t: Tid)
    requires Inv(s) && t < |s.th|
    ensures Inv(Tick(DoStart(s, t))) && Grows(s, Tick(DoStart(s, t)))
  {
    var s1, T := Tick(DoStart(s, t)), s.th[t];
    assert ThreadOk(s, t, T);
    if T.pc.Idle? {
      QuietThread(s, t, T, s1.th[t]);
      hide TimesOk, ThreadOk, Keeps;
      StartTimes(s, t);
      ThreadStable(s, s1, t, s1.th[t]);
      Assemble(s, s1, t);
    } else {
      hide Inv;
      ThreadsKeep(s, t, T);
      assert SetThread(s, t, T) == s;
    }
  }

  lemma StepKeeps(s: System, t: Tid, a: Action)
    requires Inv(s)
    ensures Inv(Step(s, t, a)) && Grows(s, Step(s, t, a))
  {
    if t >= |s.th| {
      Outside(s, t, a);
    } else {
      hide Inv, Grows, DoBegin, DoStart, DoDcss, DoSetItime, DoSetDtime, Quietly, Retiring;
      match a
      case Begin(u) => BeginKeeps(s, t, u);
      case TraversalStart => StartKeeps(s, t);
      case Run =>
        if s.th[t].pc.Dcss? { DcssKeeps(s, t); }
        else if s.th[t].pc.SetItime? { SetItimeKeeps(s, t); }
        else if s.th[t].pc.SetDtime? { SetDtimeKeeps(s, t); }
        else if s.th[t].pc.Retire? { RetireKeeps(s, t); }
        else { QuietKeeps(s, t); }
    }
  }

  lemma Outside(s: System, t: Tid, a: Action)
    requires Inv(s) && t >= |s.th|
    ensures Inv(Step(s, t, a)) && Grows(s, Step(s, t, a))
  {}

  lemma {:induction false} RunInv(s: System, sched: Schedule)
    requires Initial(s)
    ensures Inv(RunFrom(s, sched))
    decreases |sched|
  {
    if sched != [] {
      var n := |sched| - 1;
      RunInv(s, sched[..n]);
      StepKeeps(RunFrom(s, sched[..n]), sched[n].0, sched[n].1);
    }
  }

  // ---------------------------------------------------------------- what range queries rely on

  lemma TimesMatch(s: System, x: Node, T: int)
    requires Inv(s) && T in s.incAt
    ensures Stamp(s.itime, x) != TIMESTAMP_NOT_SET ==> x in s.ins && (Stamp(s.itime, x) < T <==> s.ins[x].at < s.incAt[T])
    ensures Stamp(s.dtime, x) != TIMESTAMP_NOT_SET ==> x in s.del && (Stamp(s.dtime, x) < T <==> s.del[x].at < s.incAt[T])
  {
    assert x in s.ins ==> Ordered(s, s.ins[x]);
    assert x in s.del ==> Ordered(s, s.del[x]);
  }

  /** A set itime, or dtime, is below a query's time exactly when the update linearized before the query's increment. */
  lemma TimesMatchLinearization(s0: System, sched: Schedule, x: Node, T: int)
    requires Initial(s0) && T in RunFrom(s0, sched).incAt
    ensures var s := RunFrom(s0, sched);
      && (Stamp(s.itime, x) != TIMESTAMP_NOT_SET ==> x in s.ins && (Stamp(s.itime, x) < T <==> s.ins[x].at < s.incAt[T]))
      && (Stamp(s.dtime, x) != TIMESTAMP_NOT_SET ==> x in s.del && (Stamp(s.dtime, x) < T <==> s.del[x].at < s.incAt[T]))
  {
    RunInv(s0, sched);
    TimesMatch(RunFrom(s0, sched), x, T);
  }

  /** Every query has its own time: the value of one increment, which is also the one the query remembers. */
  lemma QueryTimeIsItsIncrement(s: System, t: Tid)
    requires Inv(s) && t < |s.th| && s.th[t].pc.Idle?
    ensures var s1 := Step(s, t, TraversalStart);
      s1.th[t].rqTime !in s.incAt && s1.th[t].rqTime in s1.incAt && s1.incAt[s1.th[t].rqTime] == s.now
  {}

  /** A node whose deletion has linearized is never out of sight of queries: it is announced by its deleter or in its deleter's bag. */
  lemma DeletedNodesStayVisible(s0: System, sched: Schedule, x: Node)
    requires Initial(s0) && x in RunFrom(s0, sched).del
    ensures var s := RunFrom(s0, sched); var t := s.del[x].who; t < |s.th| && (x in s.th[t].ann || x in s.th[t].bag)
  {
    RunInv(s0, sched);
    var s := RunFrom(s0, sched);
    assert Visible(s, x);
    assert ThreadOk(s, s.del[x].who, s.th[s.del[x].who]);
  }

  lemma BagInOrder(s: System, t: Tid, i: nat, j: nat)
    requires Inv(s) && t < |s.th| && i <= j < |s.th[t].bag|
    ensures TIMESTAMP_NOT_SET < Stamp(s.dtime, s.th[t].bag[i]) <= Stamp(s.dtime, s.th[t].bag[j])
  {
    var b := s.th[t].bag;
    assert ThreadOk(s, t, s.th[t]);
    assert DeletedAt(s, b[i]) <= DeletedAt(s, b[j]);
    KnownDeletion(s, b[i]);
  }

  /** Retired nodes are stamped, and stamps never decrease along the order of retirement. */
  lemma RetiredInOrder(s0: System, sched: Schedule, t: Tid, i: nat, j: nat)
    requires Initial(s0) && t < |RunFrom(s0, sched).th| && i <= j < |RunFrom(s0, sched).th[t].bag|
    ensures var s := RunFrom(s0, sched); var b := s.th[t].bag;
      TIMESTAMP_NOT_SET < Stamp(s.dtime, b[i]) <= Stamp(s.dtime, b[j])
  {
    RunInv(s0, sched);
    hide Inv, RunFrom;
    BagInOrder(RunFrom(s0, sched), t, i, j);
  }

  // ---------------------------------------------------------------- the scan of a bag

  /** Iteration order: stamps never increase. */
  predicate Descending(bag: seq<Node>, dtime: map<Node, int>) {
    forall i, j :: 0 <= i <= j < |bag| ==> TIMESTAMP_NOT_SET < Stamp(dtime, bag[j]) <= Stamp(dtime, bag[i])
  }

  /** `visited` is what the bag holds at the positions `ix`, in the order of the bag, all below `n`. */
  ghost predicate Positions(bag: seq<Node>, ix: seq<nat>, n: nat, visited: seq<Node>) {
    && n <= |bag| && (forall i :: 0 <= i < |ix| ==> ix[i] < n)
    && (forall i, j :: 0 <= i < j < |ix| ==> ix[i] < ix[j])
    && |visited| == |ix| && forall i :: 0 <= i < |ix| ==> visited[i] == bag[ix[i]]
  }

  lemma OnePosition(bag: seq<Node>, ix: seq<nat>, n: nat, visited: seq<Node>)
    requires Positions(bag, ix, n, visited)
    ensures n < |bag| ==> Positions(bag, ix + [n], n + 1, visited + [bag[n]]) && Positions(bag, ix, n + 1, visited)
    ensures Positions(bag, ix, |bag|, visited) && forall p: nat :: p >= n ==> p !in ix
    ensures forall p: nat :: p in ix + [n] <==> p in ix || p == n
  {}

  /**
   * The scan of a bag in traversal_end, with its skip and its early exit. It visits the positions `ix` of the bag, in
   * order: in an ordered bag exactly those stamped from the query's time to the end of the traversal, in any other
   * bag exactly those not stamped yet or stamped up to the end of the traversal.
   */
  method ScanBag(bag: seq<Node>, dtime: map<Node, int>, endTime: int, rqTime: int, ordered: bool) returns (visited: seq<Node>, ghost ix: seq<nat>)
    requires ordered ==> Descending(bag, dtime)
    ensures ordered ==> forall x :: x in visited <==> x in bag && rqTime <= Stamp(dtime, x) <= endTime
    ensures !ordered ==> forall x :: x in visited <==> x in bag && (Stamp(dtime, x) == TIMESTAMP_NOT_SET || Stamp(dtime, x) <= endTime)
    ensures Positions(bag, ix, |bag|, visited)
    ensures ordered ==> forall p: nat :: p < |bag| ==> (p in ix <==> rqTime <= Stamp(dtime, bag[p]) <= endTime)
    ensures !ordered ==> forall p: nat :: p < |bag| ==> (p in ix <==> Stamp(dtime, bag[p]) == TIMESTAMP_NOT_SET || Stamp(dtime, bag[p]) <= endTime)
  {
    visited, ix := [], [];
    var n := 0;
    while n < |bag|
      invariant 0 <= n <= |bag| && Positions(bag, ix, n, visited)
      invariant ordered ==> forall p: nat :: p < n ==> (p in ix <==> rqTime <= Stamp(dtime, bag[p]) <= endTime)
      invariant !ordered ==> forall p: nat :: p < n ==> (p in ix <==> Stamp(dtime, bag[p]) == TIMESTAMP_NOT_SET || Stamp(dtime, bag[p]) <= endTime)
    {
      var d := Stamp(dtime, bag[n]);
      OnePosition(bag, ix, n, visited);
      hide Positions;
      if d != TIMESTAMP_NOT_SET && d > endTime {
        n := n + 1;
        continue;
      }
      if ordered && d != TIMESTAMP_NOT_SET && d < rqTime {
        break;
      }
      visited, ix := visited + [bag[n]], ix + [n];
      n := n + 1;
    }
    OnePosition(bag, ix, n, visited);
    forall x ensures x in visited <==> exists p: nat :: p < |bag| && p in ix && bag[p] == x { AtPositions(bag, ix, visited, x); }
  }

  lemma AtPositions(bag: seq<Node>, ix: seq<nat>, visited: seq<Node>, x: Node)
    requires Positions(bag, ix, |bag|, visited)
    ensures x in visited <==> exists p: nat :: p < |bag| && p in ix && bag[p] == x
  {
    if x in visited {
      var i :| 0 <= i < |visited| && visited[i] == x;
      assert ix[i] in ix && bag[ix[i]] == x;
    }
    if p: nat :| p < |bag| && p in ix && bag[p] == x {
      var i :| 0 <= i < |ix| && ix[i] == p;
      assert visited[i] == x;
    }
  }

  /** Positions in a thread's order of retirement, newest first, as the iterator of an epoch bag visits them. */
  predicate NewestFirst(ix: seq<nat>, n: nat) {
    forall i, j :: 0 <= i < j < |ix| ==> ix[j] < ix[i] < n
  }

  function Pick(bag: seq<Node>, ix: seq<nat>): seq<Node>
    requires forall i :: 0 <= i < |ix| ==> ix[i] < |bag|
  {
    seq(|ix|, i requires 0 <= i < |ix| => bag[ix[i]])
  }

  /**
   * Any bag of any thread in any reachable state, which holds some of the thread's retired nodes, may be
   * scanned with the early exit: what the exit skips was deleted before the query.
   */
  lemma EarlyExitIsSound(s0: System, sched: Schedule, t: Tid, ix: seq<nat>, T: int)
    requires Initial(s0) && t < |RunFrom(s0, sched).th| && T in RunFrom(s0, sched).incAt
    requires NewestFirst(ix, |RunFrom(s0, sched).th[t].bag|) && forall i :: 0 <= i < |ix| ==> ix[i] < |RunFrom(s0, sched).th[t].bag|
    ensures var s := RunFrom(s0, sched); var b := Pick(s.th[t].bag, ix);
      && Descending(b, s.dtime)
      && forall i, j :: 0 <= i <= j < |b| && Stamp(s.dtime, b[i]) < T ==> b[j] in s.del && s.del[b[j]].at < s.incAt[T]
  {
    var s := RunFrom(s0, sched);
    var b := Pick(s.th[t].bag, ix);
    RunInv(s0, sched);
    hide Inv, RunFrom, Stamp;
    assert forall i, j :: 0 <= i <= j < |ix| ==> ix[j] <= ix[i];
    hide NewestFirst;
    forall i, j | 0 <= i <= j < |b|
      ensures TIMESTAMP_NOT_SET < Stamp(s.dtime, b[j]) <= Stamp(s.dtime, b[i])
      ensures Stamp(s.dtime, b[i]) < T ==> b[j] in s.del && s.del[b[j]].at < s.incAt[T]
    {
      BagInOrder(s, t, ix[j], ix[i]);
      TimesMatch(s, b[j], T);
    }
  }
}
