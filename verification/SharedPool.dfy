/**
 * The object pool: a bag of free objects per thread, and full blocks of objects passed between
 * threads through a lock-free stack whose head carries a tag.
 *
 * One load, store or compare-and-swap of the stack per step; a thread's own bag, which `BlockBag`
 * covers, changes between those. Blocks are numbered and the numbers of emptied blocks are used again.
 * `stk` is history that no step reads. `holder` and `loc` are read only to keep to the rules of use: a
 * block number is given out only while free, and only objects that are handed out come back.
 */
module SharedPool {
  import opened BagView

  type Tid = nat
  type Obj = int
  type Blk = int

  // POOL_THRESHOLD_IN_BLOCKS
  const THRESHOLD: nat := 10

  datatype Ptr = Null | To(b: Blk)

  datatype Pc =
    | Idle
    // get, when the thread's bag is empty
    | TakeLoad
    | TakeNext(p: Blk, tg: nat)
    | TakeCas(p: Blk, tg: nat, n: Ptr)
    | TakeClear(b: Blk)
    | TakeAttach(b: Blk)
    | Refill(i: nat)
    | Pop
    // giving a full block away; `again` in the loop of tryGiveFreeObjects
    | GiveLoad(b: Blk, again: bool)
    | GiveNext(b: Blk, again: bool, exp: Ptr, tg: nat)
    | GiveCas(b: Blk, again: bool, exp: Ptr, tg: nat)

  /** `bag` is the blocks of the thread's free bag, head first. */
  datatype Thread = Thread(pc: Pc, bag: seq<Blk>)

  datatype Holder = Stack | InBag(t: Tid) | Carried(t: Tid)
  datatype Loc = Out | In(b: Blk)

  datatype Sys = Sys(
    head: Ptr, tag: nat, next: map<Blk, Ptr>, items: map<Blk, seq<Obj>>, th: seq<Thread>,
    stk: seq<Blk>, holder: map<Blk, Holder>, loc: map<Obj, Loc>)

  function Items(s: Sys, b: Blk): seq<Obj> { if b in s.items then s.items[b] else [] }
  function Next(s: Sys, b: Blk): Ptr { if b in s.next then s.next[b] else Null }
  function First(stk: seq<Blk>): Ptr { if stk == [] then Null else To(stk[0]) }

  predicate FreeBlock(s: Sys, b: Blk) { b !in s.holder }

  // ---------------------------------------------------------------- what the steps are made of

  function SetPc(s: Sys, t: Tid, pc: Pc): Sys
    requires t < |s.th|
  { s.(th := s.th[t := s.th[t].(pc := pc)]) }

  function SetBag(s: Sys, t: Tid, bag: seq<Blk>): Sys
    requires t < |s.th|
  { s.(th := s.th[t := s.th[t].(bag := bag)]) }

  /** An object goes to the top of a block. */
  function PushItem(s: Sys, b: Blk, o: Obj): Sys {
    s.(items := s.items[b := Items(s, b) + [o]], loc := s.loc[o := In(b)])
  }

  /** A new head block, when the head is full. */
  function NewTop(s: Sys, t: Tid, nb: Blk): Sys
    requires t < |s.th|
  { SetBag(s.(items := s.items[nb := []], holder := s.holder[nb := InBag(t)]), t, [nb] + s.th[t].bag) }

  /** The empty head block goes. */
  function DropTop(s: Sys, t: Tid): Sys
    requires t < |s.th| && s.th[t].bag != []
  { SetBag(s.(holder := s.holder - {s.th[t].bag[0]}), t, s.th[t].bag[1..]) }

  function PopItem(s: Sys, b: Blk): Sys
    requires Items(s, b) != []
  {
    var xs := Items(s, b);
    s.(items := s.items[b := xs[..|xs| - 1]], loc := s.loc[xs[|xs| - 1] := Out])
  }

  /** removeFullBlock */
  function TakeOut(s: Sys, t: Tid): Sys
    requires t < |s.th| && |s.th[t].bag| >= 3
  {
    var bag := s.th[t].bag;
    SetBag(s.(holder := s.holder[bag[1] := Carried(t)]), t, [bag[0]] + bag[2..])
  }

  /** addFullBlock */
  function Attach(s: Sys, t: Tid, b: Blk): Sys
    requires t < |s.th|
  { SetBag(s.(holder := s.holder[b := InBag(t)]), t, s.th[t].bag + [b]) }

  function PushStack(s: Sys, b: Blk): Sys {
    s.(head := To(b), tag := s.tag + 1, stk := [b] + s.stk, holder := s.holder[b := Stack])
  }

  function PopStack(s: Sys, t: Tid, b: Blk, n: Ptr): Sys
  {
    s.(head := n, tag := s.tag + 1, stk := if s.stk == [] then [] else s.stk[1..], holder := s.holder[b := Carried(t)])
  }

  /** The loop of tryGiveFreeObjects: a block is taken out while the bag is large. */
  function GiveMore(s: Sys, t: Tid): Sys
    requires t < |s.th|
  {
    if |s.th[t].bag| >= THRESHOLD then SetPc(TakeOut(s, t), t, GiveLoad(s.th[t].bag[1], true)) else SetPc(s, t, Idle)
  }

  /** remove: an object is handed out. */
  function Remove(s: Sys, t: Tid): Sys
    requires t < |s.th|
  {
    var bag := s.th[t].bag;
    if bag == [] then s
    else if Items(s, bag[0]) != [] then SetPc(PopItem(s, bag[0]), t, Idle)
    else if |bag| > 1 && Items(s, bag[1]) != [] then SetPc(PopItem(DropTop(s, t), bag[1]), t, Idle)
    else SetPc(s, t, TakeLoad)
  }

  /** add: an object goes to the head block, and a new head block is put in front of a full one. */
  function Add(s: Sys, t: Tid, o: Obj, nb: Blk): Sys
    requires t < |s.th| && s.th[t].bag != []
  {
    var s1 := PushItem(s, s.th[t].bag[0], o);
    if |Items(s1, s.th[t].bag[0])| == BLOCK_SIZE then NewTop(s1, t, nb) else s1
  }

  /** `junk` is what a load through a head that is no longer current happens to return. */
  datatype Action =
    | Get
    | Put(o: Obj, nb: Blk, share: bool)
    | Bring(b: Blk, os: seq<Obj>)
    | GiveLoop
    | Run(nb: Blk, o: Obj, junk: Ptr, spurious: bool)

  function StepRun(s: Sys, t: Tid, nb: Blk, o: Obj, junk: Ptr, spurious: bool): Sys
    requires t < |s.th|
  {
    match s.th[t].pc
    case Idle => s
    case TakeLoad => if s.head.Null? then SetPc(s, t, Refill(0)) else SetPc(s, t, TakeNext(s.head.b, s.tag))
    case TakeNext(p, tg) => SetPc(s, t, TakeCas(p, tg, if s.tag == tg then Next(s, p) else junk))
    case TakeCas(p, tg, n) =>
      if s.head == To(p) && s.tag == tg && !spurious then SetPc(PopStack(s, t, p, n), t, TakeClear(p)) else SetPc(s, t, TakeLoad)
    case TakeClear(b) => SetPc(s.(next := s.next[b := Null]), t, TakeAttach(b))
    case TakeAttach(b) => SetPc(Attach(s, t, b), t, Pop)
    case Refill(i) =>
      if i < BLOCK_SIZE then
        (if o !in s.loc && FreeBlock(s, nb) && s.th[t].bag != [] then SetPc(Add(s, t, o, nb), t, Refill(i + 1)) else s)
      else SetPc(s, t, Pop)
    case Pop => Remove(s, t)
    case GiveLoad(b, again) => SetPc(s, t, GiveNext(b, again, s.head, s.tag))
    case GiveNext(b, again, exp, tg) => SetPc(s.(next := s.next[b := exp]), t, GiveCas(b, again, exp, tg))
    case GiveCas(b, again, exp, tg) =>
      if s.head == exp && s.tag == tg && !spurious then
        (if again then GiveMore(PushStack(s, b), t) else SetPc(PushStack(s, b), t, Idle))
      else SetPc(s, t, GiveLoad(b, again))
  }

  function Step(s: Sys, t: Tid, a: Action): Sys {
    if t >= |s.th| then s else
    match a
    case Run(nb, o, junk, spurious) => StepRun(s, t, nb, o, junk, spurious)
    case Get => if s.th[t].pc.Idle? then Remove(s, t) else s
    case Put(o, nb, share) =>
      if s.th[t].pc.Idle? && o in s.loc && s.loc[o] == Out && FreeBlock(s, nb) && s.th[t].bag != [] then
        var s1 := Add(s, t, o, nb);
        if share && |s1.th[t].bag| > |s.th[t].bag| && |s1.th[t].bag| > THRESHOLD
        then SetPc(TakeOut(s1, t), t, GiveLoad(s1.th[t].bag[1], false)) else s1
      else s
    case Bring(b, os) =>
      if s.th[t].pc.Idle? && FreeBlock(s, b) && Bringable(s, os)
      then Brought(s, t, b, os) else s
    case GiveLoop => if s.th[t].pc.Idle? then GiveMore(s, t) else s
  }

  /** A full block of different objects that are handed out. */
  predicate Bringable(s: Sys, os: seq<Obj>) {
    && |os| == BLOCK_SIZE && (forall i :: 0 <= i < |os| ==> os[i] in s.loc && s.loc[os[i]] == Out)
    && (forall i, j :: 0 <= i < j < |os| ==> os[i] != os[j])
  }

  function MoveIn(loc: map<Obj, Loc>, os: seq<Obj>, b: Blk): map<Obj, Loc> {
    map o | o in loc :: if o in os then In(b) else loc[o]
  }

  type Schedule = seq<(Tid, Action)>

  function RunFrom(s: Sys, sched: Schedule): Sys
    decreases |sched|
  {
    if sched == [] then s
    else Step(RunFrom(s, sched[..|sched| - 1]), sched[|sched| - 1].0, sched[|sched| - 1].1)
  }

  /** Every thread starts with one empty block of its own. */
  predicate Initial(s: Sys) {
    && s.head == Null && s.stk == [] && s.loc == map[]
    && (forall b :: b in s.items ==> s.items[b] == [])
    && (forall t :: 0 <= t < |s.th| ==> s.th[t].pc.Idle? && |s.th[t].bag| == 1 && s.th[t].bag[0] in s.holder && s.holder[s.th[t].bag[0]] == InBag(t))
    && (forall b :: b in s.holder ==> s.holder[b].InBag? && s.holder[b].t < |s.th| && s.th[s.holder[b].t].bag == [b])
  }

  // ---------------------------------------------------------------- the invariant

  /** Every object that is not handed out is in one place of one block, and what blocks hold is nowhere else. */
  ghost predicate ObjOk(s: Sys) {
    && (forall b, i :: b in s.items && 0 <= i < |s.items[b]| ==> s.items[b][i] in s.loc && s.loc[s.items[b][i]] == In(b))
    && (forall b, i, j :: b in s.items && 0 <= i < j < |s.items[b]| ==> s.items[b][i] != s.items[b][j])
    && (forall o :: o in s.loc && s.loc[o].In? ==> o in Items(s, s.loc[o].b))
    && (forall b :: b in s.items && s.items[b] != [] ==> b in s.holder)
  }

  /** The stack is the chain from the head, of full blocks. */
  ghost predicate StackOk(s: Sys) {
    && s.head == First(s.stk)
    && (forall i :: 0 <= i < |s.stk| ==> StackBlock(s, i))
    && (forall i, j :: 0 <= i < j < |s.stk| ==> s.stk[i] != s.stk[j])
    && (forall b :: b in s.holder && s.holder[b].Stack? ==> b in s.stk)
  }

  ghost predicate StackBlock(s: Sys, i: nat)
    requires i < |s.stk|
  {
    s.stk[i] in s.holder && s.holder[s.stk[i]] == Stack && |Items(s, s.stk[i])| == BLOCK_SIZE && Next(s, s.stk[i]) == First(s.stk[i + 1..])
  }

  /** A thread's bag: the head is not full, the other blocks are, and all are its own. */
  ghost predicate BagOk(s: Sys, t: Tid, bag: seq<Blk>) {
    && bag != [] && |Items(s, bag[0])| < BLOCK_SIZE
    && (forall i :: 0 <= i < |bag| ==> bag[i] in s.holder && s.holder[bag[i]] == InBag(t))
    && (forall i :: 0 < i < |bag| ==> |Items(s, bag[i])| == BLOCK_SIZE)
    && (forall i, j :: 0 <= i < j < |bag| ==> bag[i] != bag[j])
    && (forall b :: b in s.holder && s.holder[b] == InBag(t) ==> b in bag)
  }

  /** The block a thread carries between its bag and the stack. */
  function Carries(pc: Pc): Ptr {
    match pc
    case TakeClear(b) => To(b)
    case TakeAttach(b) => To(b)
    case GiveLoad(b, _) => To(b)
    case GiveNext(b, _, _, _) => To(b)
    case GiveCas(b, _, _, _) => To(b)
    case _ => Null
  }

  ghost predicate CarryOk(s: Sys, t: Tid, pc: Pc) {
    && (Carries(pc).To? ==> Carries(pc).b in s.holder && s.holder[Carries(pc).b] == Carried(t) && |Items(s, Carries(pc).b)| == BLOCK_SIZE)
    && (forall b :: b in s.holder && s.holder[b] == Carried(t) ==> Carries(pc) == To(b))
  }

  /** A remembered head is the head if its tag still is, and so is what was read through it. */
  ghost predicate SeenOk(s: Sys, pc: Pc) {
    match pc
    case TakeNext(p, tg) => tg <= s.tag && (tg == s.tag ==> s.head == To(p))
    case TakeCas(p, tg, n) => tg <= s.tag && (tg == s.tag ==> s.head == To(p) && n == Next(s, p))
    case GiveNext(b, _, exp, tg) => tg <= s.tag && (tg == s.tag ==> s.head == exp)
    case GiveCas(b, _, exp, tg) => tg <= s.tag && (tg == s.tag ==> s.head == exp) && Next(s, b) == exp
    case _ => true
  }

  ghost predicate ThreadOk(s: Sys, t: Tid, T: Thread) {
    BagOk(s, t, T.bag) && CarryOk(s, t, T.pc) && SeenOk(s, T.pc)
  }

  ghost predicate Inv(s: Sys) {
    && ObjOk(s) && StackOk(s)
    && (forall t :: 0 <= t < |s.th| ==> ThreadOk(s, t, s.th[t]))
    && (forall b :: b in s.holder && !s.holder[b].Stack? ==> s.holder[b].t < |s.th|)
  }

  // ---------------------------------------------------------------- what a step leaves alone

  /** The stack's blocks are where they were and as they were. */
  ghost predicate SameStack(s: Sys, s1: Sys) {
    && s1.head == s.head && s1.stk == s.stk
    && (forall b :: b in s.holder && s.holder[b].Stack? ==> b in s1.holder && s1.holder[b].Stack? && Items(s1, b) == Items(s, b) && Next(s1, b) == Next(s, b))
    && (forall b :: b in s1.holder && s1.holder[b].Stack? ==> b in s.holder && s.holder[b].Stack?)
  }

  lemma StackStable(s: Sys, s1: Sys)
    requires StackOk(s) && SameStack(s, s1)
    ensures StackOk(s1)
  {
    forall i | 0 <= i < |s1.stk| ensures StackBlock(s1, i) { assert StackBlock(s, i); }
  }

  lemma ObjStable(s: Sys, s1: Sys)
    requires ObjOk(s) && s1.items == s.items && s1.loc == s.loc && s.holder.Keys <= s1.holder.Keys
    ensures ObjOk(s1)
  {}

  predicate Owns(s: Sys, u: Tid, b: Blk) {
    b in s.holder && (s.holder[b] == InBag(u) || s.holder[b] == Carried(u))
  }

  /** What thread `u` relies on: its own blocks, and that the head's tag counts its changes. */
  ghost predicate RelyFor(s: Sys, s1: Sys, u: Tid) {
    && s.tag <= s1.tag && (s.tag == s1.tag ==> s1.head == s.head && (s.head.To? ==> Next(s1, s.head.b) == Next(s, s.head.b)))
    && (forall b :: Owns(s, u, b) ==> b in s1.holder && s1.holder[b] == s.holder[b] && Items(s1, b) == Items(s, b) && Next(s1, b) == Next(s, b))
    && (forall b :: Owns(s1, u, b) ==> Owns(s, u, b))
  }

  lemma ThreadStable(s: Sys, s1: Sys, u: Tid, T: Thread)
    requires RelyFor(s, s1, u) && ThreadOk(s, u, T)
    ensures ThreadOk(s1, u, T)
  {
    forall i | 0 <= i < |T.bag| ensures Owns(s, u, T.bag[i]) {}
    assert Carries(T.pc).To? ==> Owns(s, u, Carries(T.pc).b);
    forall b | b in s1.holder && (s1.holder[b] == InBag(u) || s1.holder[b] == Carried(u)) ensures b in s.holder && s.holder[b] == s1.holder[b] {
      assert Owns(s1, u, b);
    }
  }

  /** A step of `t` from `s` to `s1`, except for what concerns `t` itself. */
  ghost predicate Frame(s: Sys, s1: Sys, t: Tid) {
    && |s1.th| == |s.th| && (forall u :: 0 <= u < |s.th| && u != t ==> s1.th[u] == s.th[u] && RelyFor(s, s1, u))
    && (forall b :: b in s1.holder && !s1.holder[b].Stack? ==> s1.holder[b].t < |s.th|)
  }

  lemma Assemble(s: Sys, s1: Sys, t: Tid)
    requires Inv(s) && t < |s.th| && Frame(s, s1, t) && ObjOk(s1) && StackOk(s1) && ThreadOk(s1, t, s1.th[t])
    ensures Inv(s1)
  {
    hide ObjOk, StackOk, ThreadOk, RelyFor;
    forall u | 0 <= u < |s1.th| ensures ThreadOk(s1, u, s1.th[u]) { if u != t { ThreadStable(s, s1, u, s.th[u]); } }
  }

  // ---------------------------------------------------------------- the stack

  /** A carried block's `next` is nobody else's business. */
  lemma NextFrame(s: Sys, t: Tid, b: Blk, v: Ptr, pc: Pc)
    requires Inv(s) && t < |s.th| && b in s.holder && s.holder[b] == Carried(t)
    ensures var s1 := SetPc(s.(next := s.next[b := v]), t, pc); Frame(s, s1, t) && StackOk(s1)
  {
    var s1 := SetPc(s.(next := s.next[b := v]), t, pc);
    StackStable(s, s1);
    HeadNotCarried(s, t, b);
    hide ObjOk, StackOk, ThreadOk;
    forall u | 0 <= u < |s.th| && u != t ensures RelyFor(s, s1, u) { NextRely(s, t, b, v, pc, u); }
    hide RelyFor;
  }

  lemma NextRely(s: Sys, t: Tid, b: Blk, v: Ptr, pc: Pc, u: Tid)
    requires t < |s.th| && b in s.holder && s.holder[b] == Carried(t) && s.head != To(b) && u != t
    ensures RelyFor(s, SetPc(s.(next := s.next[b := v]), t, pc), u)
  {}

  lemma HeadNotCarried(s: Sys, t: Tid, b: Blk)
    requires StackOk(s) && b in s.holder && s.holder[b] == Carried(t)
    ensures s.head != To(b)
  {
    if s.head.To? { TopOfStack(s); }
  }

  lemma SetNextOk(s: Sys, t: Tid, b: Blk, v: Ptr, pc: Pc)
    requires Inv(s) && t < |s.th| && Carries(s.th[t].pc) == To(b) && Carries(pc) == To(b) && SeenOk(s.(next := s.next[b := v]), pc)
    ensures Inv(SetPc(s.(next := s.next[b := v]), t, pc))
  {
    var s1 := SetPc(s.(next := s.next[b := v]), t, pc);
    hide ObjOk, StackOk, Frame;
    assert ThreadOk(s, t, s.th[t]);
    ObjStable(s, s1);
    NextFrame(s, t, b, v, pc);
    assert ThreadOk(s1, t, s1.th[t]);
    Assemble(s, s1, t);
  }

  /** The head changes and `b` goes from thread `t` to the stack or back. */
  lemma HeadFrame(s: Sys, s1: Sys, t: Tid, b: Blk, h: Holder)
    requires Inv(s) && t < |s.th| && b in s.holder && (s.holder[b].Stack? || s.holder[b] == Carried(t)) && (h.Stack? || h == Carried(t))
    requires s1.holder == s.holder[b := h] && s1.items == s.items && s1.next == s.next && s.tag < s1.tag && s1.loc == s.loc
    requires |s1.th| == |s.th| && forall u :: 0 <= u < |s.th| && u != t ==> s1.th[u] == s.th[u]
    ensures Frame(s, s1, t) && ObjOk(s1)
  {
    ObjStable(s, s1);
    hide ObjOk, StackOk, ThreadOk;
    forall u | 0 <= u < |s.th| && u != t ensures RelyFor(s, s1, u) { HeadRely(s, s1, t, b, h, u); }
    hide RelyFor;
  }

  lemma HeadRely(s: Sys, s1: Sys, t: Tid, b: Blk, h: Holder, u: Tid)
    requires b in s.holder && (s.holder[b].Stack? || s.holder[b] == Carried(t)) && (h.Stack? || h == Carried(t)) && u != t
    requires s1.holder == s.holder[b := h] && s1.items == s.items && s1.next == s.next && s.tag < s1.tag
    ensures RelyFor(s, s1, u)
  {}

  lemma PushedStack(s: Sys, b: Blk)
    requires StackOk(s) && b in s.holder && !s.holder[b].Stack? && |Items(s, b)| == BLOCK_SIZE && Next(s, b) == s.head
    ensures StackOk(PushStack(s, b))
  {
    var s1 := PushStack(s, b);
    forall i | 0 <= i < |s.stk| ensures s.stk[i] != b { assert StackBlock(s, i); }
    forall i | 0 <= i < |s1.stk| ensures StackBlock(s1, i) {
      assert s1.stk[i + 1..] == s.stk[i..];
      assert i > 0 ==> StackBlock(s, i - 1);
    }
  }

  lemma PushThread(s: Sys, t: Tid, b: Blk)
    requires t < |s.th| && ThreadOk(s, t, s.th[t]) && s.th[t].pc.GiveCas? && s.th[t].pc.b == b
    ensures ThreadOk(SetPc(PushStack(s, b), t, Idle), t, s.th[t].(pc := Idle))
  {}

  /** Pushing a carried block whose `next` is the current head makes it the head of the chain. */
  lemma PushStackOk(s: Sys, t: Tid, b: Blk)
    requires Inv(s) && t < |s.th| && s.th[t].pc.GiveCas? && s.th[t].pc.b == b && s.head == s.th[t].pc.exp && s.tag == s.th[t].pc.tg
    ensures Inv(SetPc(PushStack(s, b), t, Idle))
  {
    var s1 := SetPc(PushStack(s, b), t, Idle);
    assert ThreadOk(s, t, s.th[t]);
    PushThread(s, t, b);
    hide ObjOk, StackOk, Frame, BagOk, RelyFor;
    PushedStack(s, b);
    StackSame(PushStack(s, b), s1);
    HeadFrame(s, s1, t, b, Stack);
    hide ThreadOk;
    Assemble(s, s1, t);
  }

  /** StackOk does not speak of the threads. */
  lemma StackSame(s: Sys, s1: Sys)
    requires StackOk(s) && s1 == s.(th := s1.th)
    ensures StackOk(s1)
  {
    StackStable(s, s1);
  }

  lemma PoppedStack(s: Sys, t: Tid)
    requires StackOk(s) && s.stk != []
    ensures StackOk(PopStack(s, t, s.stk[0], Next(s, s.stk[0]))) && Next(s, s.stk[0]) == First(s.stk[1..])
  {
    var s1 := PopStack(s, t, s.stk[0], Next(s, s.stk[0]));
    assert StackBlock(s, 0);
    forall i | 0 <= i < |s1.stk| ensures StackBlock(s1, i) {
      assert s1.stk[i] == s.stk[i + 1] && s1.stk[i + 1..] == s.stk[i + 2..];
      assert StackBlock(s, i + 1);
    }
  }

  lemma TopOfStack(s: Sys)
    requires StackOk(s) && s.head.To?
    ensures s.stk != [] && s.head == To(s.stk[0]) && s.stk[0] in s.holder && s.holder[s.stk[0]] == Stack && |Items(s, s.stk[0])| == BLOCK_SIZE
  {
    assert StackBlock(s, 0);
  }

  /** Popping with the tag unchanged takes the head of the chain and leaves its rest, however long ago `next` was read. */
  lemma PopStackOk(s: Sys, t: Tid)
    requires Inv(s) && t < |s.th| && s.th[t].pc.TakeCas? && s.head == To(s.th[t].pc.p) && s.tag == s.th[t].pc.tg
    ensures s.stk != [] && s.stk[0] == s.th[t].pc.p && s.th[t].pc.n == First(s.stk[1..])
    ensures Inv(SetPc(PopStack(s, t, s.th[t].pc.p, s.th[t].pc.n), t, TakeClear(s.th[t].pc.p)))
  {
    var pc := s.th[t].pc;
    var s1 := SetPc(PopStack(s, t, pc.p, pc.n), t, TakeClear(pc.p));
    hide ObjOk, StackOk, Frame;
    assert ThreadOk(s, t, s.th[t]);
    TopOfStack(s);
    PoppedStack(s, t);
    StackSame(PopStack(s, t, pc.p, pc.n), s1);
    HeadFrame(s, s1, t, pc.p, Carried(t));
    assert ThreadOk(s1, t, s1.th[t]);
    Assemble(s, s1, t);
  }

  // ---------------------------------------------------------------- a thread's own bag

  /** Blocks other than those of `t` and free ones keep holder, objects and `next`. */
  ghost predicate Private(s: Sys, s1: Sys, t: Tid) {
    && s1.head == s.head && s1.tag == s.tag && s1.next == s.next && s1.stk == s.stk
    && |s1.th| == |s.th| && (forall u :: 0 <= u < |s.th| && u != t ==> s1.th[u] == s.th[u])
    && (forall b :: b in s.holder && !Owns(s, t, b) ==> b in s1.holder && s1.holder[b] == s.holder[b] && Items(s1, b) == Items(s, b))
    && (forall b :: b in s1.holder && !Owns(s1, t, b) ==> b in s.holder && s.holder[b] == s1.holder[b])
  }

  lemma PrivateFrame(s: Sys, s1: Sys, t: Tid)
    requires Inv(s) && t < |s.th| && Private(s, s1, t)
    ensures Frame(s, s1, t) && StackOk(s1)
  {
    StackStable(s, s1);
    forall u | 0 <= u < |s.th| && u != t ensures RelyFor(s, s1, u) {
      forall b | Owns(s1, u, b) ensures Owns(s, u, b) { assert !Owns(s1, t, b); }
    }
    forall b | b in s1.holder && !s1.holder[b].Stack? ensures s1.holder[b].t < |s.th| { assert Owns(s1, t, b) || b in s.holder; }
  }

  lemma SetPcThread(s: Sys, t: Tid, pc: Pc)
    requires t < |s.th| && ThreadOk(s, t, s.th[t]) && Carries(pc) == Carries(s.th[t].pc) && SeenOk(s, pc)
    ensures var s1 := SetPc(s, t, pc); ThreadOk(s1, t, s1.th[t]) && Private(s, s1, t)
  {}

  lemma SetPcOk(s: Sys, t: Tid, pc: Pc)
    requires Inv(s) && t < |s.th| && Carries(pc) == Carries(s.th[t].pc) && SeenOk(s, pc)
    ensures Inv(SetPc(s, t, pc))
  {
    var s1 := SetPc(s, t, pc);
    hide ObjOk, StackOk, Frame, ThreadOk, Private;
    assert ThreadOk(s, t, s.th[t]);
    SetPcThread(s, t, pc);
    PrivateFrame(s, s1, t);
    ObjStable(s, s1);
    Assemble(s, s1, t);
  }

  lemma TakeOutThread(s: Sys, t: Tid, again: bool)
    requires t < |s.th| && ThreadOk(s, t, s.th[t]) && |s.th[t].bag| >= 3 && Carries(s.th[t].pc) == Null
    ensures var s1 := SetPc(TakeOut(s, t), t, GiveLoad(s.th[t].bag[1], again)); ThreadOk(s1, t, s1.th[t]) && Private(s, s1, t)
  {
    var bag, s1 := s.th[t].bag, SetPc(TakeOut(s, t), t, GiveLoad(s.th[t].bag[1], again));
    TakeOutBag(s, s1, t, bag);
    TakeOutCarries(s, t, again);
    hide BagOk, CarryOk;
  }

  lemma TakeOutCarries(s: Sys, t: Tid, again: bool)
    requires t < |s.th| && ThreadOk(s, t, s.th[t]) && |s.th[t].bag| >= 3 && Carries(s.th[t].pc) == Null
    ensures CarryOk(SetPc(TakeOut(s, t), t, GiveLoad(s.th[t].bag[1], again)), t, GiveLoad(s.th[t].bag[1], again))
  {}

  /** The rest of a bag is a bag when its second block has gone. */
  lemma TakeOutBag(s: Sys, s1: Sys, t: Tid, bag: seq<Blk>)
    requires BagOk(s, t, bag) && |bag| >= 3 && s1.items == s.items && s1.holder == s.holder[bag[1] := Carried(t)]
    ensures BagOk(s1, t, [bag[0]] + bag[2..])
  {
    var bag1 := [bag[0]] + bag[2..];
    assert bag1[0] == bag[0] && forall i :: 1 <= i < |bag1| ==> bag1[i] == bag[i + 1];
    forall b | b in s1.holder && s1.holder[b] == InBag(t) ensures b in bag1 {
      var i :| 0 <= i < |bag| && bag[i] == b;
      assert bag1[if i == 0 then 0 else i - 1] == b;
    }
  }

  lemma TakeOutOk(s: Sys, t: Tid, again: bool)
    requires Inv(s) && t < |s.th| && |s.th[t].bag| >= 3 && Carries(s.th[t].pc) == Null
    ensures Inv(SetPc(TakeOut(s, t), t, GiveLoad(s.th[t].bag[1], again)))
  {
    var s1 := SetPc(TakeOut(s, t), t, GiveLoad(s.th[t].bag[1], again));
    hide ObjOk, StackOk, Frame, ThreadOk, Private;
    assert ThreadOk(s, t, s.th[t]);
    TakeOutThread(s, t, again);
    ObjStable(s, s1);
    PrivateFrame(s, s1, t);
    Assemble(s, s1, t);
  }

  lemma AttachThread(s: Sys, t: Tid, b: Blk)
    requires t < |s.th| && ThreadOk(s, t, s.th[t]) && s.th[t].pc == TakeAttach(b)
    ensures var s1 := SetPc(Attach(s, t, b), t, Pop); ThreadOk(s1, t, s1.th[t]) && Private(s, s1, t) && s.holder.Keys <= s1.holder.Keys
  {}

  lemma AttachOk(s: Sys, t: Tid, b: Blk)
    requires Inv(s) && t < |s.th| && s.th[t].pc == TakeAttach(b)
    ensures Inv(SetPc(Attach(s, t, b), t, Pop))
  {
    var s1 := SetPc(Attach(s, t, b), t, Pop);
    hide ObjOk, StackOk, Frame, ThreadOk, Private;
    assert ThreadOk(s, t, s.th[t]);
    AttachThread(s, t, b);
    ObjStable(s, s1);
    PrivateFrame(s, s1, t);
    Assemble(s, s1, t);
  }

  lemma PushObj(s: Sys, b: Blk, o: Obj)
    requires ObjOk(s) && b in s.holder && (o in s.loc ==> s.loc[o] == Out)
    ensures ObjOk(PushItem(s, b, o))
  {
    var s1 := PushItem(s, b, o);
    forall c, i | c in s1.items && 0 <= i < |s1.items[c]| ensures s1.items[c][i] in s1.loc && s1.loc[s1.items[c][i]] == In(c) {
      if c != b || i < |Items(s, b)| { assert s1.items[c][i] == Items(s, c)[i]; }
    }
    forall x | x in s1.loc && s1.loc[x].In? ensures x in Items(s1, s1.loc[x].b) {
      if x == o { assert Items(s1, b)[|Items(s, b)|] == o; } else { assert x in Items(s, s.loc[x].b); }
    }
  }

  lemma PopObj(s: Sys, b: Blk)
    requires ObjOk(s) && Items(s, b) != []
    ensures ObjOk(PopItem(s, b))
  {
    var s1, xs := PopItem(s, b), Items(s, b);
    forall x | x in s1.loc && s1.loc[x].In? ensures x in Items(s1, s1.loc[x].b) {
      assert x in Items(s, s.loc[x].b);
      if s.loc[x].b == b {
        var i :| 0 <= i < |xs| && xs[i] == x;
        assert i < |xs| - 1 && Items(s1, b)[i] == x;
      }
    }
  }

  lemma AddParts(s: Sys, t: Tid, o: Obj, nb: Blk)
    requires ObjOk(s) && t < |s.th| && BagOk(s, t, s.th[t].bag) && FreeBlock(s, nb) && (o in s.loc ==> s.loc[o] == Out)
    ensures var s1 := Add(s, t, o, nb); ObjOk(s1) && Private(s, s1, t)
  {
    PushObj(s, s.th[t].bag[0], o);
    assert Items(s, nb) == [];
  }

  /** What a thread carries and remembers does not depend on its bag. */
  lemma PcStable(s: Sys, s1: Sys, t: Tid, pc: Pc)
    requires CarryOk(s, t, pc) && SeenOk(s, pc) && s1.head == s.head && s1.tag == s.tag && s1.next == s.next
    requires forall b :: b in s1.holder && s1.holder[b] == Carried(t) ==> b in s.holder && s.holder[b] == Carried(t)
    requires forall b :: b in s.holder && s.holder[b] == Carried(t) ==> b in s1.holder && s1.holder[b] == Carried(t) && Items(s1, b) == Items(s, b)
    ensures CarryOk(s1, t, pc) && SeenOk(s1, pc)
  {}

  lemma AddThread(s: Sys, t: Tid, o: Obj, nb: Blk)
    requires t < |s.th| && ThreadOk(s, t, s.th[t]) && FreeBlock(s, nb)
    ensures var s1 := Add(s, t, o, nb); |s1.th| == |s.th| && ThreadOk(s1, t, s1.th[t]) && s1.th[t].pc == s.th[t].pc
  {
    var s1 := Add(s, t, o, nb);
    assert s.th[t].bag[0] in s.th[t].bag;
    PcStable(s, s1, t, s.th[t].pc);
    hide CarryOk, SeenOk;
  }

  lemma AddOk(s: Sys, t: Tid, o: Obj, nb: Blk)
    requires Inv(s) && t < |s.th| && s.th[t].bag != [] && FreeBlock(s, nb) && (o in s.loc ==> s.loc[o] == Out)
    ensures Inv(Add(s, t, o, nb)) && |Add(s, t, o, nb).th| == |s.th| && Add(s, t, o, nb).th[t].pc == s.th[t].pc
  {
    var s1 := Add(s, t, o, nb);
    assert ThreadOk(s, t, s.th[t]);
    hide ObjOk, StackOk, Frame, Private, Add;
    AddParts(s, t, o, nb);
    AddThread(s, t, o, nb);
    PrivateFrame(s, s1, t);
    Assemble(s, s1, t);
  }

  lemma PopParts(s: Sys, t: Tid, pc: Pc)
    requires ObjOk(s) && t < |s.th| && s.th[t].bag != [] && s.th[t].bag[0] in s.holder && s.holder[s.th[t].bag[0]] == InBag(t) && Items(s, s.th[t].bag[0]) != []
    ensures var s1 := SetPc(PopItem(s, s.th[t].bag[0]), t, pc); ObjOk(s1) && Private(s, s1, t)
  {
    PopObj(s, s.th[t].bag[0]);
    ObjStable(PopItem(s, s.th[t].bag[0]), SetPc(PopItem(s, s.th[t].bag[0]), t, pc));
  }

  /** Objects taken from the head block. */
  lemma PopThread(s: Sys, t: Tid)
    requires t < |s.th| && ThreadOk(s, t, s.th[t]) && Carries(s.th[t].pc) == Null && Items(s, s.th[t].bag[0]) != []
    ensures var s1 := SetPc(PopItem(s, s.th[t].bag[0]), t, Idle); ThreadOk(s1, t, s1.th[t])
  {}

  /** The empty head block of a bag of several blocks goes, and an object is taken from the next. */
  lemma DropThread(s: Sys, t: Tid)
    requires t < |s.th| && ThreadOk(s, t, s.th[t]) && Carries(s.th[t].pc) == Null && |s.th[t].bag| > 1 && Items(s, s.th[t].bag[0]) == []
    ensures var s1 := SetPc(PopItem(DropTop(s, t), s.th[t].bag[1]), t, Idle); ThreadOk(s1, t, s1.th[t])
  {
    var s1, bag := SetPc(PopItem(DropTop(s, t), s.th[t].bag[1]), t, Idle), s.th[t].bag;
    assert s1.th[t].bag == bag[1..];
    assert CarryOk(s1, t, Idle);
    forall b | b in s1.holder && s1.holder[b] == InBag(t) ensures b in bag[1..] { assert b in bag && b != bag[0]; }
  }

  lemma DropParts(s: Sys, t: Tid)
    requires ObjOk(s) && t < |s.th| && BagOk(s, t, s.th[t].bag) && |s.th[t].bag| > 1 && Items(s, s.th[t].bag[0]) == []
    ensures var s1 := SetPc(PopItem(DropTop(s, t), s.th[t].bag[1]), t, Idle); ObjOk(s1) && Private(s, s1, t)
  {
    var d := DropTop(s, t);
    assert ObjOk(d);
    assert Private(s, d, t) && d.th[t].bag[0] == s.th[t].bag[1];
    PopParts(d, t, Idle);
    hide ObjOk;
  }

  lemma RemoveOk(s: Sys, t: Tid)
    requires Inv(s) && t < |s.th| && Carries(s.th[t].pc) == Null
    ensures Inv(Remove(s, t))
  {
    assert ThreadOk(s, t, s.th[t]);
    if Items(s, s.th[t].bag[0]) == [] && |s.th[t].bag| == 1 {
      SetPcOk(s, t, TakeLoad);
    } else {
      hide ObjOk, StackOk, Frame, Private;
      if Items(s, s.th[t].bag[0]) != [] {
        PopParts(s, t, Idle);
        PopThread(s, t);
      } else {
        DropParts(s, t);
        DropThread(s, t);
      }
      hide PopItem, DropTop;
      PrivateFrame(s, Remove(s, t), t);
      Assemble(s, Remove(s, t), t);
    }
  }

  /** The block `b` of objects that were handed out joins the bag of `t`. */
  function Brought(s: Sys, t: Tid, b: Blk, os: seq<Obj>): Sys
    requires t < |s.th|
  { Attach(s.(items := s.items[b := os], loc := MoveIn(s.loc, os, b)), t, b) }

  lemma BringObj(s: Sys, t: Tid, b: Blk, os: seq<Obj>)
    requires ObjOk(s) && t < |s.th| && FreeBlock(s, b) && Bringable(s, os)
    ensures ObjOk(Brought(s, t, b, os))
  {
    var s1 := Brought(s, t, b, os);
    forall c, i | c in s1.items && 0 <= i < |s1.items[c]| ensures s1.items[c][i] in s1.loc && s1.loc[s1.items[c][i]] == In(c) {
      if c != b { assert s1.items[c][i] == s.items[c][i]; }
    }
    forall x | x in s1.loc && s1.loc[x].In? ensures x in Items(s1, s1.loc[x].b) {
      if x !in os { assert x in Items(s, s.loc[x].b); }
    }
  }

  lemma BringThread(s: Sys, t: Tid, b: Blk, os: seq<Obj>)
    requires t < |s.th| && ThreadOk(s, t, s.th[t]) && FreeBlock(s, b) && Bringable(s, os)
    ensures var s1 := Brought(s, t, b, os); ThreadOk(s1, t, s1.th[t]) && Private(s, s1, t)
  {
    PcStable(s, Brought(s, t, b, os), t, s.th[t].pc);
    hide CarryOk, SeenOk;
  }

  lemma BringOk(s: Sys, t: Tid, b: Blk, os: seq<Obj>)
    requires Inv(s) && t < |s.th| && FreeBlock(s, b) && Bringable(s, os) && s.th[t].pc.Idle?
    ensures Inv(Brought(s, t, b, os))
  {
    var s1 := Brought(s, t, b, os);
    hide ObjOk, StackOk, Frame, ThreadOk, Private, Bringable;
    assert ThreadOk(s, t, s.th[t]);
    BringObj(s, t, b, os);
    BringThread(s, t, b, os);
    PrivateFrame(s, s1, t);
    Assemble(s, s1, t);
  }

  // ---------------------------------------------------------------- every step, every run

  lemma GiveMoreOk(s: Sys, t: Tid)
    requires Inv(s) && t < |s.th| && Carries(s.th[t].pc) == Null
    ensures Inv(GiveMore(s, t))
  {
    hide Inv;
    if |s.th[t].bag| >= THRESHOLD { TakeOutOk(s, t, true); } else { SetPcOk(s, t, Idle); }
  }

  lemma TakeRunOk(s: Sys, t: Tid, nb: Blk, o: Obj, junk: Ptr, spurious: bool)
    requires Inv(s) && t < |s.th| && !(s.th[t].pc.GiveLoad? || s.th[t].pc.GiveNext? || s.th[t].pc.GiveCas?)
    ensures Inv(StepRun(s, t, nb, o, junk, spurious))
  {
    assert SeenOk(s, s.th[t].pc) by { assert ThreadOk(s, t, s.th[t]); }
    hide Inv, Add, Remove, PopStack;
    match s.th[t].pc
    case Idle =>
    case TakeLoad => SetPcOk(s, t, if s.head.Null? then Refill(0) else TakeNext(s.head.b, s.tag));
    case TakeNext(p, tg) => SetPcOk(s, t, TakeCas(p, tg, if s.tag == tg then Next(s, p) else junk));
    case TakeCas(p, tg, n) =>
      if s.head == To(p) && s.tag == tg && !spurious { PopStackOk(s, t); } else { SetPcOk(s, t, TakeLoad); }
    case TakeClear(b) => SetNextOk(s, t, b, Null, TakeAttach(b));
    case TakeAttach(b) => AttachOk(s, t, b);
    case Refill(i) => RefillOk(s, t, nb, o);
    case Pop => RemoveOk(s, t);
  }

  lemma RefillOk(s: Sys, t: Tid, nb: Blk, o: Obj)
    requires Inv(s) && t < |s.th| && s.th[t].pc.Refill?
    ensures Inv(StepRun(s, t, nb, o, Null, false)) && forall junk, spurious :: StepRun(s, t, nb, o, junk, spurious) == StepRun(s, t, nb, o, Null, false)
  {
    hide Inv, Add;
    if s.th[t].pc.i < BLOCK_SIZE {
      if o !in s.loc && FreeBlock(s, nb) && s.th[t].bag != [] {
        AddOk(s, t, o, nb);
        SetPcOk(Add(s, t, o, nb), t, Refill(s.th[t].pc.i + 1));
      }
    } else {
      SetPcOk(s, t, Pop);
    }
  }

  lemma GiveRunOk(s: Sys, t: Tid, nb: Blk, o: Obj, junk: Ptr, spurious: bool)
    requires Inv(s) && t < |s.th| && (s.th[t].pc.GiveLoad? || s.th[t].pc.GiveNext? || s.th[t].pc.GiveCas?)
    ensures Inv(StepRun(s, t, nb, o, junk, spurious))
  {
    assert ThreadOk(s, t, s.th[t]);
    match s.th[t].pc
    case GiveLoad(b, again) => SetPcOk(s, t, GiveNext(b, again, s.head, s.tag));
    case GiveNext(b, again, exp, tg) =>
      HeadNotCarried(s, t, b);
      SetNextOk(s, t, b, exp, GiveCas(b, again, exp, tg));
    case GiveCas(b, again, exp, tg) =>
      hide Inv, ThreadOk;
      if s.head == exp && s.tag == tg && !spurious {
        PushStackOk(s, t, b);
        if again {
          hide PushStack;
          GiveMoreOk(SetPc(PushStack(s, b), t, Idle), t);
          GiveMorePc(PushStack(s, b), t);
        }
      } else { SetPcOk(s, t, GiveLoad(b, again)); }
  }

  lemma GiveMorePc(s: Sys, t: Tid)
    requires t < |s.th|
    ensures GiveMore(SetPc(s, t, Idle), t) == GiveMore(s, t)
  {
    assert s.th[t := s.th[t].(pc := Idle)][t].bag == s.th[t].bag;
  }

  lemma RunOk(s: Sys, t: Tid, nb: Blk, o: Obj, junk: Ptr, spurious: bool)
    requires Inv(s) && t < |s.th|
    ensures Inv(StepRun(s, t, nb, o, junk, spurious))
  {
    hide Inv, StepRun;
    if s.th[t].pc.GiveLoad? || s.th[t].pc.GiveNext? || s.th[t].pc.GiveCas? { GiveRunOk(s, t, nb, o, junk, spurious); }
    else { TakeRunOk(s, t, nb, o, junk, spurious); }
  }

  lemma StepKeeps(s: Sys, t: Tid, a: Action)
    requires Inv(s)
    ensures Inv(Step(s, t, a))
  {
    if t < |s.th| {
      hide Inv, Add, GiveMore, Remove, StepRun, Bringable;
      match a
      case Run(nb, o, junk, spurious) => RunOk(s, t, nb, o, junk, spurious);
      case Get => if s.th[t].pc.Idle? { RemoveOk(s, t); }
      case GiveLoop => if s.th[t].pc.Idle? { GiveMoreOk(s, t); }
      case Bring(b, os) => if s.th[t].pc.Idle? && FreeBlock(s, b) && Bringable(s, os) { BringOk(s, t, b, os); }
      case Put(o, nb, share) =>
        if s.th[t].pc.Idle? && o in s.loc && s.loc[o] == Out && FreeBlock(s, nb) && s.th[t].bag != [] {
          var s1 := Add(s, t, o, nb);
          AddOk(s, t, o, nb);
          if |s1.th[t].bag| >= 3 { TakeOutOk(s1, t, false); }
        }
    }
  }

  lemma {:induction false} RunInv(s: Sys, sched: Schedule)
    requires Initial(s)
    ensures Inv(RunFrom(s, sched))
    decreases |sched|
  {
    if sched != [] {
      var n := |sched| - 1;
      RunInv(s, sched[..n]);
      StepKeeps(RunFrom(s, sched[..n]), sched[n].0, sched[n].1);
    }
  }

  // ---------------------------------------------------------------- conservation

  /** Position `i` of block `b`, the block being in one place only: position `j` of the stack, or of one thread's bag, or carried by one thread. */
  ghost predicate Placed(s: Sys, o: Obj, b: Blk, i: nat, j: nat) {
    && i < |Items(s, b)| && Items(s, b)[i] == o && b in s.holder
    && match s.holder[b]
       case Stack => j < |s.stk| && s.stk[j] == b
       case InBag(t) => t < |s.th| && j < |s.th[t].bag| && s.th[t].bag[j] == b
       case Carried(t) => t < |s.th| && j == 0 && Carries(s.th[t].pc) == To(b)
  }

  ghost predicate InOnePlace(s: Sys, o: Obj) {
    exists b, i, j :: Placed(s, o, b, i, j) && OnlyAt(s, o, b, i, j)
  }

  ghost predicate OnlyAt(s: Sys, o: Obj, b: Blk, i: nat, j: nat) {
    forall b', i', j' :: Placed(s, o, b', i', j') ==> b' == b && i' == i && j' == j
  }

  /**
   * In every reachable state an object the pool knows is handed out and in no block, or in exactly one
   * position of exactly one block, and that block in exactly one position of exactly one owner.
   */
  lemma EveryObjectInOnePlace(s0: Sys, sched: Schedule, o: Obj)
    requires Initial(s0) && o in RunFrom(s0, sched).loc
    ensures var s := RunFrom(s0, sched);
      if s.loc[o] == Out then forall b, i, j :: !Placed(s, o, b, i, j) else InOnePlace(s, o)
  {
    RunInv(s0, sched);
    hide RunFrom, Inv;
    ObjectInOnePlace(RunFrom(s0, sched), o);
  }

  lemma ObjectInOnePlace(s: Sys, o: Obj)
    requires Inv(s) && o in s.loc
    ensures if s.loc[o] == Out then forall b, i, j :: !Placed(s, o, b, i, j) else InOnePlace(s, o)
  {
    forall b, i, j | Placed(s, o, b, i, j) ensures s.loc[o] == In(b) { PlacedLoc(s, o, b, i, j); }
    hide Inv;
    if s.loc[o].In? {
      var b, i, j := WhereIs(s, o);
      forall b', i', j' | Placed(s, o, b', i', j') ensures b' == b && i' == i && j' == j {
        PlacedLoc(s, o, b', i', j');
        OnePlace(s, o, b, i, j, i', j');
      }
      assert OnlyAt(s, o, b, i, j);
    }
  }

  lemma PlacedLoc(s: Sys, o: Obj, b: Blk, i: nat, j: nat)
    requires Inv(s) && Placed(s, o, b, i, j)
    ensures o in s.loc && s.loc[o] == In(b)
  {
    assert b in s.items && s.items[b][i] == o;
  }

  lemma WhereIs(s: Sys, o: Obj) returns (b: Blk, i: nat, j: nat)
    requires Inv(s) && o in s.loc && s.loc[o].In?
    ensures Placed(s, o, b, i, j)
  {
    b := s.loc[o].b;
    i :| 0 <= i < |Items(s, b)| && Items(s, b)[i] == o;
    j := 0;
    match s.holder[b]
    case Stack => j :| 0 <= j < |s.stk| && s.stk[j] == b;
    case InBag(t) =>
      assert ThreadOk(s, t, s.th[t]);
      j :| 0 <= j < |s.th[t].bag| && s.th[t].bag[j] == b;
    case Carried(t) => assert ThreadOk(s, t, s.th[t]);
  }

  lemma OnePlace(s: Sys, o: Obj, b: Blk, i: nat, j: nat, i': nat, j': nat)
    requires Inv(s) && Placed(s, o, b, i, j) && Placed(s, o, b, i', j')
    ensures i == i' && j == j'
  {
    assert s.items[b][i] == s.items[b][i'];
    match s.holder[b]
    case Stack =>
    case InBag(t) => assert ThreadOk(s, t, s.th[t]);
    case Carried(t) =>
  }

  /** No step loses an object; only a refill adds one. */
  lemma NoneLost(s: Sys, t: Tid, a: Action, o: Obj)
    requires Inv(s)
    ensures o in s.loc ==> o in Step(s, t, a).loc
    ensures o !in s.loc && o in Step(s, t, a).loc ==> a.Run? && t < |s.th| && s.th[t].pc.Refill? && a.o == o
  {
    if t < |s.th| { assert ThreadOk(s, t, s.th[t]); }
  }

  // ---------------------------------------------------------------- what calls do

  /** The objects that are handed out. */
  ghost function HandedOut(s: Sys): set<Obj> {
    set o | o in s.loc && s.loc[o] == Out
  }

  /** A get of `t` ends with this step. */
  ghost predicate EndsGet(s: Sys, t: Tid, a: Action) {
    t < |s.th| && ((a.Get? && s.th[t].pc.Idle?) || (a.Run? && s.th[t].pc.Pop?)) && t < |Step(s, t, a).th| && Step(s, t, a).th[t].pc.Idle?
  }

  /** `o` was in a block of the bag of `t`, and is now handed out. */
  ghost predicate HandsOut(s: Sys, s1: Sys, t: Tid, o: Obj) {
    && t < |s.th| && o in s.loc && s.loc[o].In? && s.loc[o].b in s.th[t].bag
    && o !in HandedOut(s) && HandedOut(s1) == HandedOut(s) + {o} && s1.loc.Keys == s.loc.Keys
  }

  lemma RemoveHandsOut(s: Sys, t: Tid)
    requires t < |s.th| && ObjOk(s) && !s.th[t].pc.TakeLoad? && Remove(s, t) != s && !Remove(s, t).th[t].pc.TakeLoad?
    ensures exists o :: HandsOut(s, Remove(s, t), t, o)
  {
    var bag := s.th[t].bag;
    var b := if Items(s, bag[0]) != [] then bag[0] else bag[1];
    var xs := Items(s, b);
    var o := xs[|xs| - 1];
    assert b in s.items && s.items[b][|xs| - 1] == o;
    assert s.loc[o] == In(b) && Remove(s, t).loc == s.loc[o := Out];
    assert HandedOut(Remove(s, t)) == HandedOut(s) + {o};
    assert HandsOut(s, Remove(s, t), t, o);
  }

  /** A get that ends has handed out exactly one object, from the thread's own bag. */
  lemma GetHandsOutOne(s: Sys, t: Tid, a: Action)
    requires Inv(s) && EndsGet(s, t, a)
    ensures exists o :: HandsOut(s, Step(s, t, a), t, o)
  {
    assert ObjOk(s) && ThreadOk(s, t, s.th[t]);
    hide Inv, ObjOk;
    assert Step(s, t, a) == Remove(s, t);
    EndIsPop(s, t);
    RemoveHandsOut(s, t);
  }

  lemma EndIsPop(s: Sys, t: Tid)
    requires t < |s.th| && ThreadOk(s, t, s.th[t]) && Remove(s, t).th[t].pc.Idle? && (s.th[t].pc.Idle? || s.th[t].pc.Pop?)
    ensures Remove(s, t) != s
  {}

  lemma AddTakesIn(s: Sys, t: Tid, o: Obj, nb: Blk)
    requires t < |s.th| && s.th[t].bag != []
    ensures Add(s, t, o, nb).loc == s.loc[o := In(s.th[t].bag[0])] && |Add(s, t, o, nb).th| == |s.th|
    ensures o in HandedOut(s) ==> HandedOut(Add(s, t, o, nb)) == HandedOut(s) - {o}
    ensures o !in s.loc ==> HandedOut(Add(s, t, o, nb)) == HandedOut(s)
  {}

  lemma RemoveWaits(s: Sys, t: Tid)
    requires t < |s.th| && Remove(s, t).th[t].pc.TakeLoad? && (s.th[t].pc.Idle? || s.th[t].pc.Pop?)
    ensures Remove(s, t).loc == s.loc
  {}

  lemma GiveMoreKeeps(s: Sys, t: Tid)
    requires t < |s.th|
    ensures GiveMore(s, t).loc == s.loc
  {}

  lemma RunKeepsOut(s: Sys, t: Tid, a: Action)
    requires t < |s.th| && a.Run? && ThreadOk(s, t, s.th[t]) && !EndsGet(s, t, a)
    ensures HandedOut(Step(s, t, a)) == HandedOut(s)
  {
    hide Add, Remove, GiveMore, BagOk, CarryOk, SeenOk;
    match s.th[t].pc
    case Refill(i) => if s.th[t].bag != [] && a.o !in s.loc { AddTakesIn(s, t, a.o, a.nb); }
    case Pop =>
      RemoveEnds(s, t);
      if Remove(s, t).th[t].pc.TakeLoad? { RemoveWaits(s, t); }
    case GiveCas(b, again, exp, tg) => GiveMoreKeeps(PushStack(s, b), t);
    case _ =>
  }

  lemma RemoveEnds(s: Sys, t: Tid)
    requires t < |s.th|
    ensures |Remove(s, t).th| == |s.th| && (Remove(s, t) == s || Remove(s, t).th[t].pc.Idle? || Remove(s, t).th[t].pc.TakeLoad?)
  {}

  /** Objects are handed out by gets that end, one each, and taken back by puts, one each, and by blocks brought in; by nothing else. */
  lemma OnlyPutsTakeBack(s: Sys, t: Tid, a: Action)
    requires Inv(s) && !EndsGet(s, t, a)
    ensures var back := if t < |s.th| && s.th[t].pc.Idle? && a.Put? && a.o in HandedOut(s) && FreeBlock(s, a.nb) then {a.o}
                        else if t < |s.th| && s.th[t].pc.Idle? && a.Bring? && FreeBlock(s, a.b) && Bringable(s, a.os) then (set o | o in a.os)
                        else {};
      HandedOut(Step(s, t, a)) == HandedOut(s) - back
  {
    if t < |s.th| {
      assert ThreadOk(s, t, s.th[t]);
      hide Inv;
      match a
      case Run(_, _, _, _) => RunKeepsOut(s, t, a);
      case Get => {
        hide ThreadOk, Remove;
        RemoveEnds(s, t);
        if s.th[t].pc.Idle? && Remove(s, t).th[t].pc.TakeLoad? { RemoveWaits(s, t); }
      }
      case Put(o, nb, share) => PutKeepsRest(s, t, o, nb, share);
      case Bring(b, os) => {
        hide ThreadOk;
        if s.th[t].pc.Idle? && FreeBlock(s, b) && Bringable(s, os) { BroughtIn(s, t, b, os); }
      }
      case GiveLoop => {
        hide ThreadOk, GiveMore;
        GiveMoreKeeps(s, t);
      }
    }
  }

  lemma BroughtIn(s: Sys, t: Tid, b: Blk, os: seq<Obj>)
    requires t < |s.th| && Bringable(s, os)
    ensures HandedOut(Brought(s, t, b, os)) == HandedOut(s) - (set o | o in os)
  {}

  lemma PutKeepsRest(s: Sys, t: Tid, o: Obj, nb: Blk, share: bool)
    requires t < |s.th| && ThreadOk(s, t, s.th[t])
    ensures HandedOut(Step(s, t, Put(o, nb, share))) == if s.th[t].pc.Idle? && o in HandedOut(s) && FreeBlock(s, nb) then HandedOut(s) - {o} else HandedOut(s)
  {
    AddTakesIn(s, t, o, nb);
    hide Add, CarryOk, SeenOk;
  }
}
