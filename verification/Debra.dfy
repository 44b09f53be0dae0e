/**
 * DEBRA epoch-based reclamation as a step machine: one shared load, store or compare-and-swap per
 * step, any number of threads, any schedule.
 *
 * A thread reads the epoch, rotates its bags and only then announces, so what it announces can be
 * stale by any amount. `retired`, `clock`, `rot`, `annEpoch` and `annTime` are history that no step
 * reads: when and where an object was retired, how often a thread has rotated, and what the global
 * epoch and the time were when the thread last announced.
 */
module Debra {

  type Obj = nat

  const EPOCH_INCREMENT: nat := 2
  const NUMBER_OF_EPOCH_BAGS: nat := 9
  const NUMBER_OF_ALWAYS_EMPTY_EPOCH_BAGS: nat := 3
  const MIN_OPS_BEFORE_READ: nat := 10

  /** BITS_EPOCH, QUIESCENT and GET_WITH_QUIESCENT: the low bit of an announcement says quiescent. */
  function BitsEpoch(ann: nat): nat { ann - ann % EPOCH_INCREMENT }
  predicate Quiescent(ann: nat) { ann % 2 == 1 }
  function WithQuiescent(ann: nat): nat { if Quiescent(ann) then ann else ann + 1 }

  datatype Pc =
    | Quiet       // between operations
    | Rotating    // startOp: has read a new epoch, bags not rotated yet
    | Freeing     // about to hand one object of the local free list to the pool
    | Announcing  // about to store the announcement
    | Scanning    // about to read another thread's announcement
    | Advancing   // about to compare-and-swap the epoch
    | InOp

  datatype Thread = Thread(
    ann: nat,                 // announcedEpoch
    localAnn: nat,            // localvar_announcedEpoch
    bags: seq<set<Obj>>,      // epochbags
    index: nat,
    freelist: set<Obj>,       // deamortizedFreeables
    checked: nat,
    ops: nat,                 // opsSinceRead
    pc: Pc,
    rot: nat, annEpoch: nat, annTime: nat)

  datatype Stamp = Stamp(owner: nat, rot: nat, epoch: nat, time: nat)

  datatype System = System(epoch: nat, th: seq<Thread>, pool: set<Obj>, retired: map<Obj, Stamp>, clock: nat)

  /** `Rotate` names the objects that sit in full blocks of the bag to free, `FreeOne` the object the free list gives up. */
  datatype Action = StartOp | Rotate(moved: set<Obj>) | FreeOne(p: Obj) | Run | EndOp | Retire(o: Obj)

  /** The announcement is non-quiescent: from its store in startOp to its store in endOp. */
  predicate Active(T: Thread) { !Quiescent(T.ann) }

  function FreeableBag(T: Thread): nat {
    ((T.index + 1) % NUMBER_OF_EPOCH_BAGS + NUMBER_OF_ALWAYS_EMPTY_EPOCH_BAGS) % NUMBER_OF_EPOCH_BAGS
  }

  function BagAt(T: Thread, b: nat): set<Obj> {
    if b < |T.bags| then T.bags[b] else {}
  }

  function With(s: System, t: nat, T: Thread): System
    requires t < |s.th|
  {
    s.(th := s.th[t := T], clock := s.clock + 1)
  }

  function Step(s: System, t: nat, a: Action): System {
    if t >= |s.th| then s else
    var T := s.th[t];
    match a
    case StartOp =>
      if !T.pc.Quiet? then s
      else if s.epoch != T.localAnn then With(s, t, T.(localAnn := s.epoch, checked := 0, pc := Rotating))
      else With(s, t, T.(pc := Freeing))
    case Rotate(moved) =>
      var b := FreeableBag(T);
      if !T.pc.Rotating? || !(moved <= BagAt(T, b)) || b >= |T.bags| then s
      else With(s, t, T.(freelist := T.freelist + moved, bags := T.bags[b := T.bags[b] - moved],
                         index := (T.index + 1) % NUMBER_OF_EPOCH_BAGS, rot := T.rot + 1, pc := Freeing))
    case FreeOne(p) =>
      if !T.pc.Freeing? || p !in T.freelist then s
      else With(s, t, T.(freelist := T.freelist - {p}, pc := Announcing)).(pool := s.pool + {p})
    case Run => (
      match T.pc
      case Freeing => if T.freelist == {} then With(s, t, T.(pc := Announcing)) else s
      case Announcing =>
        var scan := T.ops + 1 == MIN_OPS_BEFORE_READ;
        With(s, t, T.(ann := T.localAnn, annEpoch := s.epoch, annTime := s.clock,
                      ops := if scan then 0 else T.ops + 1, pc := if scan then Scanning else InOp))
      case Scanning =>
        if T.checked >= |s.th| then s else
        var other := s.th[T.checked].ann;
        if BitsEpoch(other) == T.localAnn || Quiescent(other) then
          With(s, t, T.(checked := T.checked + 1, pc := if T.checked + 1 >= |s.th| then Advancing else InOp))
        else With(s, t, T.(pc := InOp))
      case Advancing =>
        var s1 := With(s, t, T.(pc := InOp));
        if s.epoch == T.localAnn then s1.(epoch := s.epoch + EPOCH_INCREMENT) else s1
      case _ => s
    )
    case EndOp =>
      if T.pc.InOp? then With(s, t, T.(ann := WithQuiescent(T.localAnn), pc := Quiet)) else s
    case Retire(o) =>
      if (T.pc.InOp? || T.pc.Quiet?) && o !in s.retired && T.index < |T.bags| then
        With(s, t, T.(bags := T.bags[T.index := T.bags[T.index] + {o}]))
        .(retired := s.retired[o := Stamp(t, T.rot, s.epoch, s.clock)])
      else s
  }

  type Schedule = seq<(nat, Action)>

  function RunFrom(s: System, sched: Schedule): System
    decreases |sched|
  {
    if sched == [] then s
    else Step(RunFrom(s, sched[..|sched| - 1]), sched[|sched| - 1].0, sched[|sched| - 1].1)
  }

  /** After the constructor and one initThread per thread. */
  predicate Initial(s: System) {
    && s.epoch == 0 && s.pool == {} && s.retired == map[] && s.clock == 0
    && forall t :: 0 <= t < |s.th| ==>
         && s.th[t] == Thread(WithQuiescent(0), WithQuiescent(0), s.th[t].bags, 0, {}, 0, 0, Quiet, 0, 0, 0)
         && |s.th[t].bags| == NUMBER_OF_EPOCH_BAGS
         && forall b :: 0 <= b < |s.th[t].bags| ==> s.th[t].bags[b] == {}
  }

  // ---------------------------------------------------------------- the invariant

  ghost predicate ThreadOk(s: System, t: nat)
    requires t < |s.th|
  {
    var T := s.th[t];
    && |T.bags| == NUMBER_OF_EPOCH_BAGS && T.index == T.rot % NUMBER_OF_EPOCH_BAGS
    && (T.localAnn == 1 || (T.localAnn % 2 == 0 && T.localAnn <= s.epoch))
    && (T.localAnn == 1 ==> T.pc.Quiet? && T.rot == 0 && T.checked == 0)
    && (Active(T) <==> T.pc.Scanning? || T.pc.Advancing? || T.pc.InOp?)
    && (Active(T) ==> T.ann == T.localAnn && T.localAnn <= T.annEpoch <= s.epoch && T.annTime < s.clock)
    && T.checked <= |s.th| && (T.pc.Rotating? ==> T.checked == 0)
    && (T.pc.Advancing? ==> T.checked == |s.th|)
    && (T.pc.Rotating? || T.pc.Freeing? || T.pc.Announcing? || T.pc.Scanning? ==> T.checked < |s.th|)
    && (T.checked == |s.th| && !T.pc.Advancing? ==> T.localAnn < s.epoch)
  }

  /** A thread active since the global epoch was `annEpoch` holds the epoch back to one increment more. */
  ghost predicate HoldsBack(s: System, t: nat)
    requires t < |s.th|
  {
    Active(s.th[t]) ==> s.epoch <= s.th[t].annEpoch + EPOCH_INCREMENT
  }

  /** Whoever `c` has passed in its scan for its epoch announced, if active, no earlier than that epoch began. */
  ghost predicate ScanOk(s: System, c: nat, t: nat)
    requires c < |s.th| && t < |s.th|
  {
    t < s.th[c].checked && Active(s.th[t]) && s.th[c].localAnn != 1 ==> s.th[c].localAnn <= s.th[t].annEpoch
  }

  /** Rotations since an object was retired: each saw an epoch at least one increment later than the one before. */
  ghost predicate StampOk(s: System, o: Obj)
    requires o in s.retired
  {
    var st := s.retired[o];
    && st.owner < |s.th|
    && var T := s.th[st.owner];
    && st.rot <= T.rot && st.epoch <= s.epoch && st.time < s.clock
    && (st.rot < T.rot ==> st.epoch + EPOCH_INCREMENT * (T.rot - st.rot - 1) <= T.localAnn)
    && (T.pc.Rotating? ==> st.epoch + EPOCH_INCREMENT * (T.rot - st.rot) <= T.localAnn)
    && AnnouncedBefore(s, st)
  }

  ghost predicate AnnouncedBefore(s: System, st: Stamp) {
    forall t :: 0 <= t < |s.th| && Active(s.th[t]) && s.th[t].annTime <= st.time ==> s.th[t].annEpoch <= st.epoch
  }

  /** Every retired object is in exactly one place. */
  ghost predicate PlaceOk(s: System, o: Obj) {
    && (o in s.retired ==>
          && s.retired[o].owner < |s.th|
          && var T := s.th[s.retired[o].owner];
          && (o in BagAt(T, s.retired[o].rot % NUMBER_OF_EPOCH_BAGS) || o in T.freelist || o in s.pool)
          && !(o in BagAt(T, s.retired[o].rot % NUMBER_OF_EPOCH_BAGS) && o in T.freelist)
          && !(o in BagAt(T, s.retired[o].rot % NUMBER_OF_EPOCH_BAGS) && o in s.pool)
          && !(o in T.freelist && o in s.pool))
    && (forall t, b :: 0 <= t < |s.th| && 0 <= b < |s.th[t].bags| && o in s.th[t].bags[b] ==>
          o in s.retired && s.retired[o].owner == t && s.retired[o].rot % NUMBER_OF_EPOCH_BAGS == b)
    && (forall t :: 0 <= t < |s.th| && o in s.th[t].freelist ==> o in s.retired && s.retired[o].owner == t)
    && (o in s.pool ==> o in s.retired)
  }

  /** `o` may be reused: whoever is active announced after `o` was retired. */
  ghost predicate Unreachable(s: System, o: Obj)
    requires o in s.retired
  {
    forall t :: 0 <= t < |s.th| && Active(s.th[t]) ==> s.retired[o].time < s.th[t].annTime
  }

  ghost predicate InFreeList(s: System, o: Obj) {
    exists t :: 0 <= t < |s.th| && o in s.th[t].freelist
  }

  ghost predicate SafeOk(s: System, o: Obj)
  {
    o in s.retired && (InFreeList(s, o) || o in s.pool) ==> Unreachable(s, o)
  }

  ghost predicate Inv(s: System) {
    && s.epoch % 2 == 0
    && (forall t :: 0 <= t < |s.th| ==> ThreadOk(s, t))
    && (forall t :: 0 <= t < |s.th| ==> HoldsBack(s, t))
    && (forall c, t :: 0 <= c < |s.th| && 0 <= t < |s.th| ==> ScanOk(s, c, t))
    && (forall o :: o in s.retired ==> StampOk(s, o))
    && (forall o :: PlaceOk(s, o))
    && (forall o :: SafeOk(s, o))
  }

  lemma InitialOk(s: System)
    requires Initial(s)
    ensures Inv(s)
  {}

  // ---------------------------------------------------------------- the crux

  /** Six rotations after it was retired, an object is out of reach of every active thread. */
  lemma MovedIsUnreachable(s: System, t: nat, o: Obj)
    requires Inv(s) && t < |s.th| && s.th[t].pc.Rotating? && o in BagAt(s.th[t], FreeableBag(s.th[t]))
    ensures o in s.retired && s.retired[o].owner == t && Unreachable(s, o)
    ensures s.th[t].rot + 1 - s.retired[o].rot >= 6
  {
    assert PlaceOk(s, o) && StampOk(s, o) && ThreadOk(s, t);
    var T, st := s.th[t], s.retired[o];
    AgeOfFreeable(T.rot, st.rot);
    forall u | 0 <= u < |s.th| && Active(s.th[u]) ensures st.time < s.th[u].annTime {
      assert HoldsBack(s, u);
    }
  }

  lemma AgeOfFreeable(rot: nat, born: nat)
    requires born <= rot && born % 9 == (((rot % 9 + 1) % 9) + 3) % 9
    ensures rot + 1 - born >= 6
  {}

  // ---------------------------------------------------------------- every step keeps the invariant

  lemma StepThreads(s: System, t: nat, a: Action)
    requires Inv(s)
    ensures var s1 := Step(s, t, a);
            && s1.epoch % 2 == 0 && s.epoch <= s1.epoch && |s1.th| == |s.th|
            && (forall u :: 0 <= u < |s1.th| ==> ThreadOk(s1, u))
  {
    if t < |s.th| {
      assert ThreadOk(s, t);
      StepThread(s, t, a);
      forall u | 0 <= u < |s.th| ensures ThreadOk(Step(s, t, a), u) { assert ThreadOk(s, u); }
    }
  }

  lemma StepThread(s: System, t: nat, a: Action)
    requires t < |s.th| && ThreadOk(s, t) && s.epoch % 2 == 0
    ensures ThreadOk(Step(s, t, a), t)
  {}

  lemma StepHoldsBack(s: System, t: nat, a: Action)
    requires Inv(s)
    ensures var s1 := Step(s, t, a); forall u :: 0 <= u < |s1.th| ==> HoldsBack(s1, u)
  {
    if t < |s.th| {
      assert ThreadOk(s, t);
      forall u | 0 <= u < |s.th| ensures HoldsBack(Step(s, t, a), u) {
        assert HoldsBack(s, u) && ScanOk(s, t, u) && ThreadOk(s, u);
      }
    }
  }

  lemma StepScans(s: System, t: nat, a: Action)
    requires Inv(s)
    ensures var s1 := Step(s, t, a); forall c, u :: 0 <= c < |s1.th| && 0 <= u < |s1.th| ==> ScanOk(s1, c, u)
  {
    if t < |s.th| {
      var s1 := Step(s, t, a);
      assert ThreadOk(s, t);
      forall c, u | 0 <= c < |s.th| && 0 <= u < |s.th| ensures ScanOk(s1, c, u) {
        assert ScanOk(s, c, u) && ThreadOk(s, c) && ThreadOk(s, u);
      }
    }
  }

  lemma StepStamps(s: System, t: nat, a: Action)
    requires Inv(s)
    ensures var s1 := Step(s, t, a); forall o :: o in s1.retired ==> StampOk(s1, o)
  {
    if t < |s.th| {
      var s1 := Step(s, t, a);
      assert ThreadOk(s, t);
      forall o | o in s1.retired ensures StampOk(s1, o) {
        if o in s.retired {
          StepStamp(s, t, a, o);
        } else {
          forall u | 0 <= u < |s.th| && Active(s.th[u]) ensures s.th[u].annEpoch <= s.epoch { assert ThreadOk(s, u); }
        }
      }
    }
  }

  lemma StepAnnounced(s: System, t: nat, a: Action, o: Obj)
    requires Inv(s) && t < |s.th| && o in s.retired
    ensures AnnouncedBefore(Step(s, t, a), s.retired[o])
  {
    assert ThreadOk(s, t) && StampOk(s, o);
  }

  lemma StepStamp(s: System, t: nat, a: Action, o: Obj)
    requires Inv(s) && t < |s.th| && o in s.retired
    ensures StampOk(Step(s, t, a), o)
  {
    assert ThreadOk(s, t) && StampOk(s, o);
    var st := s.retired[o];
    StepAnnounced(s, t, a, o);
    hide Inv, AnnouncedBefore, Active;
    if st.owner == t && a.StartOp? && s.epoch != s.th[t].localAnn {
      assert st.rot < s.th[t].rot ==> EPOCH_INCREMENT * (s.th[t].rot - st.rot) == EPOCH_INCREMENT * (s.th[t].rot - st.rot - 1) + 2;
    }
  }

  lemma StepPlaces(s: System, t: nat, a: Action)
    requires Inv(s)
    ensures var s1 := Step(s, t, a); forall o :: PlaceOk(s1, o)
  {
    if t < |s.th| {
      var s1 := Step(s, t, a);
      forall o ensures PlaceOk(s1, o) { StepPlace(s, t, a, o); }
    }
  }

  /** The places of objects, apart from everything else. */
  ghost predicate SamePlaces(s: System, s1: System) {
    && s1.retired == s.retired && s1.pool == s.pool && |s1.th| == |s.th|
    && forall u :: 0 <= u < |s.th| ==> s1.th[u].bags == s.th[u].bags && s1.th[u].freelist == s.th[u].freelist
  }

  lemma PlaceKept(s: System, s1: System, o: Obj)
    requires PlaceOk(s, o) && SamePlaces(s, s1)
    ensures PlaceOk(s1, o)
  {}

  lemma RotatePlace(s: System, t: nat, moved: set<Obj>, o: Obj)
    requires Inv(s) && t < |s.th|
    ensures PlaceOk(Step(s, t, Rotate(moved)), o)
  {
    assert ThreadOk(s, t) && PlaceOk(s, o);
    hide Inv, ThreadOk;
  }

  lemma RetirePlace(s: System, t: nat, p: Obj, o: Obj)
    requires Inv(s) && t < |s.th|
    ensures PlaceOk(Step(s, t, Retire(p)), o)
  {
    assert ThreadOk(s, t) && PlaceOk(s, o);
    hide Inv;
  }

  lemma StepPlace(s: System, t: nat, a: Action, o: Obj)
    requires Inv(s) && t < |s.th|
    ensures PlaceOk(Step(s, t, a), o)
  {
    assert ThreadOk(s, t) && PlaceOk(s, o);
    match a
    case Rotate(moved) => RotatePlace(s, t, moved, o);
    case Retire(p) => RetirePlace(s, t, p, o);
    case FreeOne(p) => hide Inv, ThreadOk;
    case _ =>
      assert SamePlaces(s, Step(s, t, a)) by { hide Inv, ThreadOk; }
      hide Inv, Step, PlaceOk;
      PlaceKept(s, Step(s, t, a), o);
  }

  lemma StepSafes(s: System, t: nat, a: Action)
    requires Inv(s)
    ensures var s1 := Step(s, t, a); forall o :: SafeOk(s1, o)
  {
    if t < |s.th| {
      var s1 := Step(s, t, a);
      forall o ensures SafeOk(s1, o) { StepSafe(s, t, a, o); }
    }
  }

  lemma StepSafe(s: System, t: nat, a: Action, o: Obj)
    requires Inv(s) && t < |s.th|
    ensures SafeOk(Step(s, t, a), o)
  {
    assert ThreadOk(s, t) && PlaceOk(s, o) && SafeOk(s, o);
    var s1 := Step(s, t, a);
    if o in s1.retired && (InFreeList(s1, o) || o in s1.pool) {
      if InFreeList(s1, o) && !InFreeList(s, o) {
        assert a.Rotate? && o in BagAt(s.th[t], FreeableBag(s.th[t]));
        MovedIsUnreachable(s, t, o);
      }
      assert o in s.retired && Unreachable(s, o);
      assert StampOk(s, o);
      forall u | 0 <= u < |s1.th| && Active(s1.th[u]) ensures s1.retired[o].time < s1.th[u].annTime {
        assert ThreadOk(s, u);
      }
    }
  }

  lemma StepKeeps(s: System, t: nat, a: Action)
    requires Inv(s)
    ensures Inv(Step(s, t, a))
  {
    hide Step, ThreadOk, HoldsBack, ScanOk, StampOk, PlaceOk, SafeOk;
    StepThreads(s, t, a);
    StepHoldsBack(s, t, a);
    StepScans(s, t, a);
    StepStamps(s, t, a);
    StepPlaces(s, t, a);
    StepSafes(s, t, a);
  }

  lemma {:induction false} RunInv(s: System, sched: Schedule)
    requires Initial(s)
    ensures Inv(RunFrom(s, sched))
    decreases |sched|
  {
    hide Inv, Step;
    InitialOk(s);
    if sched != [] {
      RunInv(s, sched[..|sched| - 1]);
      StepKeeps(RunFrom(s, sched[..|sched| - 1]), sched[|sched| - 1].0, sched[|sched| - 1].1);
    }
  }

  // ---------------------------------------------------------------- theorems

  /** In every run, while a thread is inside an operation the epoch advances at most once past its value at the announcement. */
  lemma EpochIsHeldBack(s: System, sched: Schedule, t: nat)
    requires Initial(s) && t < |RunFrom(s, sched).th| && Active(RunFrom(s, sched).th[t])
    ensures var s1 := RunFrom(s, sched);
            s1.th[t].ann <= s1.th[t].annEpoch <= s1.epoch <= s1.th[t].annEpoch + EPOCH_INCREMENT
  {
    RunInv(s, sched);
    assert HoldsBack(RunFrom(s, sched), t) && ThreadOk(RunFrom(s, sched), t);
  }

  /** In every run, an object in a free list or in the pool was retired before every active thread announced its operation. */
  lemma NeverReclaimedEarly(s: System, sched: Schedule, o: Obj, t: nat)
    requires Initial(s)
    ensures var s1 := RunFrom(s, sched);
      && (InFreeList(s1, o) || o in s1.pool ==> o in s1.retired)
      && (t < |s1.th| && Active(s1.th[t]) && o in s1.retired && s1.th[t].annTime <= s1.retired[o].time ==>
            !InFreeList(s1, o) && o !in s1.pool)
  {
    RunInv(s, sched);
    var s1 := RunFrom(s, sched);
    assert PlaceOk(s1, o) && SafeOk(s1, o);
  }

  /** getSafeBlockbags: the current bag and the two before it. */
  function SafeBags(T: Thread): set<nat> {
    {T.index, (T.index + NUMBER_OF_EPOCH_BAGS - 1) % NUMBER_OF_EPOCH_BAGS, (T.index + NUMBER_OF_EPOCH_BAGS - 2) % NUMBER_OF_EPOCH_BAGS}
  }

  /**
   * In every run, what has been retired since an active thread announced is still in one of the
   * three bags that getSafeBlockbags names for the retirer, which has rotated at most twice since.
   */
  lemma SafeBagsCoverOperation(s: System, sched: Schedule, o: Obj, t: nat)
    requires Initial(s)
    requires var s1 := RunFrom(s, sched);
             t < |s1.th| && Active(s1.th[t]) && o in s1.retired && s1.th[t].annTime <= s1.retired[o].time
    ensures var s1 := RunFrom(s, sched);
            var owner := s1.retired[o].owner;
            && owner < |s1.th|
            && s1.th[owner].rot - s1.retired[o].rot <= 2
            && exists b :: b in SafeBags(s1.th[owner]) && o in BagAt(s1.th[owner], b)
  {
    RunInv(s, sched);
    NeverReclaimedEarly(s, sched, o, t);
    var s1 := RunFrom(s, sched);
    hide RunFrom, Initial;
    assert StampOk(s1, o) && PlaceOk(s1, o) && HoldsBack(s1, t);
    var st := s1.retired[o];
    assert ThreadOk(s1, st.owner);
    hide Inv;
    assert s1.th[st.owner].rot - st.rot <= 2;
    RecentBag(s1.th[st.owner].rot, st.rot);
    assert st.rot % NUMBER_OF_EPOCH_BAGS in SafeBags(s1.th[st.owner]);
  }

  lemma RecentBag(rot: nat, born: nat)
    requires born <= rot <= born + 2
    ensures born % 9 == rot % 9 || born % 9 == (rot % 9 + 9 - 1) % 9 || born % 9 == (rot % 9 + 9 - 2) % 9
  {}

  /** How often its retirer has rotated since `o` was retired. */
  function Rotations(s: System, o: Obj): int
    requires o in s.retired && s.retired[o].owner < |s.th|
  {
    s.th[s.retired[o].owner].rot - s.retired[o].rot
  }

  lemma Shifted(rot: nat, born: nat)
    requires born <= rot
    ensures var b, m := born % 9, (rot - born) % 9; rot % 9 == if b + m < 9 then b + m else b + m - 9
  {
    var d := rot - born;
    assert rot == 9 * (d / 9 + born / 9) + (born % 9 + d % 9);
  }

  /** Where a bag lies from the current one. */
  lemma NineBags(T: Thread, b: nat, m: nat)
    requires b < 9 && m < 9 && T.index == if b + m < 9 then b + m else b + m - 9
    ensures b in SafeBags(T) <==> m <= 2
    ensures b == FreeableBag(T) <==> m == 5
    ensures FreeableBag(T) !in SafeBags(T)
  {}

  /** Which of the bags of its retirer an object in bag `b` of `t` is in, by the rotations since it was retired. */
  ghost predicate BagByRotation(s: System, o: Obj, t: nat, b: nat) {
    && t < |s.th| && o in s.retired && s.retired[o].owner == t
    && var r := Rotations(s, o);
    && r >= 0
    && (b in SafeBags(s.th[t]) <==> r % 9 <= 2)
    && (b == FreeableBag(s.th[t]) <==> r % 9 == 5)
    && FreeableBag(s.th[t]) !in SafeBags(s.th[t])
  }

  /**
   * In every run, the bags that getSafeBlockbags names hold exactly the objects, among those still in bags, whose
   * retirer has since rotated 0, 1 or 2 times, up to whole rounds of the nine bags; the bag the next rotation frees is
   * not among them, and holds exactly those whose retirer has rotated 5 times, up to whole rounds. An object that
   * has been in a bag for more than a round was left there by a rotation, which moves full blocks only.
   */
  lemma BagsByRotation(s: System, sched: Schedule, o: Obj, t: nat, b: nat)
    requires Initial(s) && t < |RunFrom(s, sched).th| && b < |RunFrom(s, sched).th[t].bags| && o in RunFrom(s, sched).th[t].bags[b]
    ensures BagByRotation(RunFrom(s, sched), o, t, b)
  {
    RunInv(s, sched);
    hide RunFrom, Initial, Inv, SafeBags, FreeableBag;
    var s1 := RunFrom(s, sched);
    InBag(s1, o, t, b);
    var rot, born := s1.th[t].rot, s1.retired[o].rot;
    Shifted(rot, born);
    NineBags(s1.th[t], b, (rot - born) % 9);
  }

  lemma InBag(s: System, o: Obj, t: nat, b: nat)
    requires Inv(s) && t < |s.th| && b < |s.th[t].bags| && o in s.th[t].bags[b]
    ensures o in s.retired && s.retired[o].owner == t && s.retired[o].rot <= s.th[t].rot && b == s.retired[o].rot % 9 && s.th[t].index == s.th[t].rot % 9
  {
    assert PlaceOk(s, o) && ThreadOk(s, t);
    assert StampOk(s, o);
  }

  /** In every run, each retired object is in exactly one of: its bag, its owner's free list, the pool. */
  lemma RetiredObjectsAreConserved(s: System, sched: Schedule, o: Obj)
    requires Initial(s)
    ensures PlaceOk(RunFrom(s, sched), o)
  {
    RunInv(s, sched);
  }

  /** In every run, the announcement a thread is about to read exists. */
  lemma ScanStaysInRange(s: System, sched: Schedule, t: nat)
    requires Initial(s) && t < |RunFrom(s, sched).th| && RunFrom(s, sched).th[t].pc.Scanning?
    ensures RunFrom(s, sched).th[t].checked < |RunFrom(s, sched).th|
  {
    RunInv(s, sched);
    assert ThreadOk(RunFrom(s, sched), t);
  }

  // ---------------------------------------------------------------- how objects get from one place to the next

  /** The thread may hand `moved` to its free list: it is rotating, and these are in the bag it frees. */
  ghost predicate Frees(s: System, t: nat, moved: set<Obj>) {
    t < |s.th| && s.th[t].pc.Rotating? && moved <= BagAt(s.th[t], FreeableBag(s.th[t]))
  }

  /**
   * A retired object goes to the current bag of its retirer, from there with a rotation to the free list, and from there
   * one at a time to the pool; no step moves an object otherwise.
   */
  lemma ObjectsFlow(s: System, t: nat, a: Action, o: Obj)
    requires Inv(s)
    ensures var s1 := Step(s, t, a);
      && (o in s1.retired && o !in s.retired <==> a == Retire(o) && t < |s.th| && (s.th[t].pc.InOp? || s.th[t].pc.Quiet?) && o !in s.retired)
      && (o in s1.retired && o !in s.retired ==> s1.retired[o].owner == t && o in BagAt(s1.th[t], s.th[t].index))
      && |s1.th| == |s.th|
      && (forall u :: 0 <= u < |s.th| && o !in s.th[u].freelist ==> (o in s1.th[u].freelist <==> u == t && a.Rotate? && Frees(s, t, a.moved) && o in a.moved))
      && (o in s1.pool && o !in s.pool <==> a == FreeOne(o) && t < |s.th| && s.th[t].pc.Freeing? && o in s.th[t].freelist && o !in s.pool)
  {
    if t < |s.th| { assert ThreadOk(s, t); }
    hide Inv;
  }
}
