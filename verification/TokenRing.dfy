/**
 * Token-passing reclamation in its four variants, as a step machine: one shared load or store per
 * step, any number of threads, any schedule.
 *
 * There is no endOp: a thread outside startOp may hold references it obtained since its last
 * startOp returned. `retired`, `clock`, `place`, `rots` and `opTime` are history that no step reads.
 */
module TokenRing {

  type Obj = nat

  const CHECK_EVERY: nat := 100

  /**
   * token1 rotates and then passes the token; token2 passes and then rotates; token3 does as token2
   * but empties the old bag, passing the token again when it comes back meanwhile; token4 does as
   * token2 but frees through a local list, one object per startOp.
   */
  datatype Variant = Token1 | Token2 | Token3 | Token4

  datatype Pc =
    | InOp                      // outside startOp
    | Reading                   // about to read the token
    | PassOff                   // about to clear its own token
    | PassOn                    // about to set the next thread's token
    | Rotating                  // about to move full blocks of the old bag
    | Draining(n: nat)          // token3: emptying the old bag
    | DrainOff | DrainOn        // token3: passing the token in the middle of that
    | Finishing                 // token4: freeing one object; then startOp returns

  datatype Thread = Thread(token: bool, count: nat, curr: set<Obj>, last: set<Obj>, freelist: set<Obj>, pc: Pc, rots: nat, opTime: nat)

  datatype Place = At(i: nat) | Between(i: nat)

  datatype Stamp = Stamp(owner: nat, count: nat, rots: nat, time: nat)

  datatype System = System(v: Variant, th: seq<Thread>, pool: set<Obj>, retired: map<Obj, Stamp>, place: Place, clock: nat)

  /** `Move` names the objects in full blocks of the old bag, `FreeOne` the object a bag gives up. */
  datatype Action = StartOp | Move(moved: set<Obj>) | FreeOne(p: Obj) | Run | Retire(o: Obj)

  function Next(s: System, t: nat): nat {
    if t + 1 < |s.th| then t + 1 else 0
  }

  function With(s: System, t: nat, T: Thread): System
    requires t < |s.th|
  {
    s.(th := s.th[t := T], clock := s.clock + 1)
  }

  /** Clearing the token, after `++tokenCount`. */
  function ClearToken(s: System, t: nat, pc: Pc): System
    requires t < |s.th|
  {
    With(s, t, s.th[t].(token := false, count := s.th[t].count + 1, pc := pc)).(place := Between(t))
  }

  /** Setting the token of the next thread, possibly oneself. */
  function HandOver(s: System, t: nat, pc: Pc): System
    requires t < |s.th|
  {
    var s1 := With(s, t, s.th[t].(pc := pc));
    var n := Next(s, t);
    s1.(th := s1.th[n := s1.th[n].(token := true)], place := At(n))
  }

  /** The end of rotateEpochBags: curr and last change roles. */
  function Swapped(T: Thread, pc: Pc): Thread {
    T.(last := T.curr, curr := T.last, rots := T.rots + 1, pc := pc)
  }

  function Step(s: System, t: nat, a: Action): System {
    if t >= |s.th| then s else
    var T := s.th[t];
    match a
    case StartOp => if T.pc.InOp? then With(s, t, T.(pc := Reading)) else s
    case Move(moved) =>
      if !T.pc.Rotating? || !(moved <= T.last) then s else
      var T1 := T.(last := T.last - moved);
      (match s.v
       case Token1 => With(s, t, Swapped(T1, PassOff)).(pool := s.pool + moved)
       case Token2 => With(s, t, Swapped(T1, Finishing)).(pool := s.pool + moved)
       case Token3 => With(s, t, T1.(pc := Draining(0))).(pool := s.pool + moved)
       case Token4 => With(s, t, Swapped(T1.(freelist := T1.freelist + moved), Finishing)))
    case FreeOne(p) =>
      if T.pc.Draining? && T.pc.n <= CHECK_EVERY && p in T.last then
        With(s, t, T.(last := T.last - {p}, pc := Draining(T.pc.n + 1))).(pool := s.pool + {p})
      else if T.pc.Finishing? && s.v.Token4? && p in T.freelist then
        With(s, t, T.(freelist := T.freelist - {p}, pc := InOp, opTime := s.clock)).(pool := s.pool + {p})
      else s
    case Run => (
      match T.pc
      case InOp => s
      case Reading =>
        With(s, t, T.(pc := if !T.token then Finishing else if s.v.Token1? then Rotating else PassOff))
      case PassOff => ClearToken(s, t, PassOn)
      case PassOn => HandOver(s, t, if s.v.Token1? then Finishing else Rotating)
      case Rotating => s
      case Draining(n) =>
        if T.last == {} then With(s, t, Swapped(T, Finishing))
        else if n > CHECK_EVERY then With(s, t, T.(pc := if T.token then DrainOff else Draining(0)))
        else s
      case DrainOff => ClearToken(s, t, DrainOn)
      case DrainOn => HandOver(s, t, Draining(0))
      case Finishing => if s.v.Token4? && T.freelist != {} then s else With(s, t, T.(pc := InOp, opTime := s.clock))
    )
    case Retire(o) =>
      if T.pc.InOp? && o !in s.retired then
        With(s, t, T.(curr := T.curr + {o})).(retired := s.retired[o := Stamp(t, T.count, T.rots, s.clock)])
      else s
  }

  type Schedule = seq<(nat, Action)>

  function RunFrom(s: System, sched: Schedule): System
    decreases |sched|
  {
    if sched == [] then s
    else Step(RunFrom(s, sched[..|sched| - 1]), sched[|sched| - 1].0, sched[|sched| - 1].1)
  }

  /** After the constructor and initThread: thread 0 has the token. */
  predicate Initial(s: System) {
    && |s.th| > 0 && s.pool == {} && s.retired == map[] && s.place == At(0) && s.clock == 1
    && forall t :: 0 <= t < |s.th| ==> s.th[t] == Thread(t == 0, 0, {}, {}, {}, InOp, 0, 0)
  }

  // ---------------------------------------------------------------- the invariant

  ghost predicate Passing(T: Thread) { T.pc.PassOn? || T.pc.DrainOn? }
  ghost predicate Holding(s: System, T: Thread) { T.pc.PassOff? || T.pc.DrainOff? || (T.pc.Rotating? && s.v.Token1?) }

  /** The token is at most at one thread, or on its way from one. */
  ghost predicate TokenOk(s: System, t: nat)
    requires t < |s.th|
  {
    && (s.th[t].token <==> s.place == At(t))
    && (Passing(s.th[t]) <==> s.place == Between(t))
    && (Holding(s, s.th[t]) ==> s.th[t].token)
  }

  /** How often the token has left thread `t`, against thread `u`: they differ by at most one, by ring order. */
  ghost predicate RoundOk(s: System, t: nat, u: nat)
    requires t < |s.th| && u < |s.th|
  {
    && (t < u ==> s.th[u].count <= s.th[t].count <= s.th[u].count + 1)
    && (t < u ==> (s.th[t].count == s.th[u].count + 1 <==> Left(s.place, t) && !Left(s.place, u)))
  }

  /** The token has left `t` in the current round. */
  predicate Left(p: Place, t: nat) {
    match p
    case At(i) => t < i
    case Between(i) => t <= i
  }

  ghost predicate AgeOk(s: System, o: Obj)
    requires o in s.retired
  {
    var st := s.retired[o];
    st.owner < |s.th| && st.time < s.clock && AgeFits(s.v, s.th[st.owner], st)
  }

  /** The token has left the retirer once for each rotation since, or once more when it passes before rotating. */
  ghost predicate AgeFits(v: Variant, T: Thread, st: Stamp) {
    && st.rots <= T.rots && st.count <= T.count
    && (if v.Token1? then
          T.count - st.count == T.rots - st.rots - (if T.pc.PassOff? then 1 else 0)
        else
          T.count - st.count >= T.rots - st.rots
          + (if T.pc.PassOn? || T.pc.Rotating? || T.pc.Draining? || T.pc.DrainOff? || T.pc.DrainOn? then 1 else 0))
  }

  /** Whoever has not been in startOp since `o` was retired has not passed the token since. */
  ghost predicate HeldSince(s: System, o: Obj, t: nat)
    requires o in s.retired && t < |s.th|
  {
    s.th[t].pc.InOp? && s.th[t].opTime <= s.retired[o].time ==>
      s.th[t].count <= s.retired[o].count + (if t < s.retired[o].owner then 1 else 0)
  }

  ghost predicate PlaceOk(s: System, o: Obj) {
    && (forall t :: 0 <= t < |s.th| && o in s.th[t].curr ==>
          o in s.retired && s.retired[o].owner == t && s.retired[o].rots <= s.th[t].rots && (s.th[t].rots - s.retired[o].rots) % 2 == 0)
    && (forall t :: 0 <= t < |s.th| && o in s.th[t].last ==>
          o in s.retired && s.retired[o].owner == t && s.retired[o].rots <= s.th[t].rots && (s.th[t].rots - s.retired[o].rots) % 2 == 1)
    && (forall t :: 0 <= t < |s.th| && o in s.th[t].freelist ==> o in s.retired && s.retired[o].owner == t)
    && (o in s.pool ==> o in s.retired)
    && (o in s.retired && s.retired[o].owner < |s.th| ==>
          var T := s.th[s.retired[o].owner];
          && (o in T.curr || o in T.last || o in T.freelist || o in s.pool)
          && !(o in T.freelist && o in s.pool)
          && !((o in T.curr || o in T.last) && (o in T.freelist || o in s.pool)))
  }

  /** Everyone outside startOp has been in it since `o` was retired. */
  ghost predicate Unreachable(s: System, o: Obj)
    requires o in s.retired
  {
    forall t :: 0 <= t < |s.th| && s.th[t].pc.InOp? ==> s.retired[o].time < s.th[t].opTime
  }

  ghost predicate Reclaimed(s: System, o: Obj) {
    o in s.pool || exists t :: 0 <= t < |s.th| && o in s.th[t].freelist
  }

  ghost predicate SafeOk(s: System, o: Obj) {
    o in s.retired && Reclaimed(s, o) ==> Unreachable(s, o)
  }

  ghost predicate Inv(s: System) {
    && |s.th| > 0 && s.place.i < |s.th|
    && (forall t :: 0 <= t < |s.th| ==> TokenOk(s, t) && s.th[t].opTime < s.clock && PcOk(s, s.th[t]))
    && (forall t, u :: 0 <= t < |s.th| && 0 <= u < |s.th| ==> RoundOk(s, t, u))
    && (forall o :: o in s.retired ==> AgeOk(s, o))
    && (forall o, t :: o in s.retired && 0 <= t < |s.th| ==> HeldSince(s, o, t))
    && (forall o :: PlaceOk(s, o))
    && (forall o :: SafeOk(s, o))
  }

  ghost predicate PcOk(s: System, T: Thread) {
    (T.pc.Draining? || T.pc.DrainOff? || T.pc.DrainOn?) ==> s.v.Token3?
  }

  lemma InitialOk(s: System)
    requires Initial(s)
    ensures Inv(s)
  {}

  // ---------------------------------------------------------------- the crux

  /** A thread that takes from its old bag: every other thread has passed the token since the object was retired. */
  lemma OldBagIsUnreachable(s: System, t: nat, o: Obj)
    requires Inv(s) && t < |s.th| && (s.th[t].pc.Rotating? || s.th[t].pc.Draining?) && o in s.th[t].last
    ensures o in s.retired && Unreachable(s, o)
  {
    assert PlaceOk(s, o) && AgeOk(s, o) && TokenOk(s, t) && PcOk(s, s.th[t]);
    forall u | 0 <= u < |s.th| && s.th[u].pc.InOp? ensures s.retired[o].time < s.th[u].opTime {
      assert HeldSince(s, o, u) && RoundOk(s, u, t) && RoundOk(s, t, u);
    }
  }

  // ---------------------------------------------------------------- every step keeps the invariant

  ghost predicate Basic(s: System, t: nat)
    requires t < |s.th|
  {
    TokenOk(s, t) && s.th[t].opTime < s.clock && PcOk(s, s.th[t])
  }

  lemma StepBasic(s: System, t: nat, a: Action, u: nat)
    requires t < |s.th| && u < |s.th| && Basic(s, t) && Basic(s, u) && s.place.i < |s.th|
    ensures var s1 := Step(s, t, a); |s1.th| == |s.th| && s1.place.i < |s1.th| && s1.v == s.v && Basic(s1, u)
  {
    if a.Run? { RunBasic(s, t, u); } else if a.Move? { MoveBasic(s, t, a.moved, u); }
  }

  lemma RunBasic(s: System, t: nat, u: nat)
    requires t < |s.th| && u < |s.th| && Basic(s, t) && Basic(s, u) && s.place.i < |s.th|
    ensures var s1 := Step(s, t, Run); |s1.th| == |s.th| && s1.place.i < |s1.th| && s1.v == s.v && Basic(s1, u)
  {}

  lemma MoveBasic(s: System, t: nat, moved: set<Obj>, u: nat)
    requires t < |s.th| && u < |s.th| && Basic(s, t) && Basic(s, u) && s.place.i < |s.th|
    ensures var s1 := Step(s, t, Move(moved)); |s1.th| == |s.th| && s1.place.i < |s1.th| && s1.v == s.v && Basic(s1, u)
  {}

  lemma StepRing(s: System, t: nat, a: Action)
    requires Inv(s)
    ensures var s1 := Step(s, t, a);
      && |s1.th| == |s.th| && s1.place.i < |s1.th| && s1.v == s.v
      && (forall u :: 0 <= u < |s1.th| ==> TokenOk(s1, u) && s1.th[u].opTime < s1.clock && PcOk(s1, s1.th[u]))
  {
    if t < |s.th| {
      assert forall u :: 0 <= u < |s.th| ==> Basic(s, u);
      StepBasic(s, t, a, t);
      forall u | 0 <= u < |s.th| ensures Basic(Step(s, t, a), u) { StepBasic(s, t, a, u); }
      hide Step;
    }
  }

  lemma StepRound(s: System, t: nat, a: Action, u: nat, w: nat)
    requires t < |s.th| && u < |s.th| && w < |s.th| && TokenOk(s, t) && RoundOk(s, u, w) && s.place.i < |s.th|
    ensures |Step(s, t, a).th| == |s.th| && RoundOk(Step(s, t, a), u, w)
  {}

  lemma StepRounds(s: System, t: nat, a: Action)
    requires Inv(s)
    ensures var s1 := Step(s, t, a); forall u, w :: 0 <= u < |s1.th| && 0 <= w < |s1.th| ==> RoundOk(s1, u, w)
  {
    if t < |s.th| {
      StepRound(s, t, a, t, t);
      forall u, w | 0 <= u < |s.th| && 0 <= w < |s.th| ensures RoundOk(Step(s, t, a), u, w) {
        StepRound(s, t, a, u, w);
      }
      hide Step;
    }
  }

  lemma OwnAge(s: System, t: nat, a: Action, st: Stamp)
    requires t < |s.th| && PcOk(s, s.th[t]) && AgeFits(s.v, s.th[t], st)
    ensures var s1 := Step(s, t, a); |s1.th| == |s.th| && s1.v == s.v && AgeFits(s.v, s1.th[t], st)
  {}

  lemma OthersAge(s: System, t: nat, a: Action, u: nat)
    requires t < |s.th| && u < |s.th| && u != t
    ensures var s1 := Step(s, t, a); |s1.th| == |s.th| && s1.v == s.v && s1.clock >= s.clock && s1.th[u] == s.th[u].(token := s1.th[u].token)
  {}

  lemma StepAge(s: System, t: nat, a: Action, o: Obj)
    requires t < |s.th| && PcOk(s, s.th[t]) && o in s.retired && AgeOk(s, o)
    ensures o in Step(s, t, a).retired && AgeOk(Step(s, t, a), o)
  {
    var st := s.retired[o];
    assert o in Step(s, t, a).retired && Step(s, t, a).retired[o] == st && Step(s, t, a).clock >= s.clock;
    if st.owner == t { OwnAge(s, t, a, st); } else { OthersAge(s, t, a, st.owner); }
    hide Step;
  }

  lemma StepAges(s: System, t: nat, a: Action)
    requires Inv(s)
    ensures var s1 := Step(s, t, a); forall o :: o in s1.retired ==> AgeOk(s1, o)
  {
    if t < |s.th| {
      forall o | o in Step(s, t, a).retired ensures AgeOk(Step(s, t, a), o) {
        if o in s.retired { StepAge(s, t, a, o); }
      }
    }
  }

  lemma StepHeldOne(s: System, t: nat, a: Action, o: Obj, u: nat)
    requires t < |s.th| && u < |s.th| && o in s.retired && HeldSince(s, o, u) && AgeOk(s, o)
    ensures var s1 := Step(s, t, a); o in s1.retired && |s1.th| == |s.th| && HeldSince(s1, o, u)
  {
    assert o in Step(s, t, a).retired && Step(s, t, a).retired[o] == s.retired[o];
    if u != t { OthersAge(s, t, a, u); hide Step; }
  }

  lemma StepHeld(s: System, t: nat, a: Action)
    requires Inv(s)
    ensures var s1 := Step(s, t, a); forall o, u :: o in s1.retired && 0 <= u < |s1.th| ==> HeldSince(s1, o, u)
  {
    if t < |s.th| {
      forall o, u | o in Step(s, t, a).retired && 0 <= u < |s.th| ensures HeldSince(Step(s, t, a), o, u) {
        if o in s.retired {
          StepHeldOne(s, t, a, o, u);
        } else {
          assert RoundOk(s, u, t) && RoundOk(s, t, u);
        }
      }
    }
  }

  /** The places of objects, apart from everything else. */
  ghost predicate SamePlaces(s: System, s1: System) {
    && s1.retired == s.retired && s1.pool == s.pool && |s1.th| == |s.th|
    && forall u :: 0 <= u < |s.th| ==>
         s1.th[u].curr == s.th[u].curr && s1.th[u].last == s.th[u].last && s1.th[u].freelist == s.th[u].freelist && s1.th[u].rots == s.th[u].rots
  }

  lemma PlaceKept(s: System, s1: System, o: Obj)
    requires PlaceOk(s, o) && SamePlaces(s, s1)
    ensures PlaceOk(s1, o)
  {}

  lemma SwapPlace(s: System, t: nat, pc: Pc, o: Obj)
    requires t < |s.th| && PlaceOk(s, o)
    ensures PlaceOk(With(s, t, Swapped(s.th[t], pc)), o)
  {}

  /** Taking objects out of the old bag, into the pool or into the local list. */
  lemma TakePlace(s: System, t: nat, T1: Thread, taken: set<Obj>, toPool: bool, o: Obj)
    requires t < |s.th| && PlaceOk(s, o) && taken <= s.th[t].last
    requires T1.curr == s.th[t].curr && T1.last == s.th[t].last - taken && T1.rots == s.th[t].rots
    requires T1.freelist == if toPool then s.th[t].freelist else s.th[t].freelist + taken
    ensures PlaceOk(With(s, t, T1).(pool := if toPool then s.pool + taken else s.pool), o)
  {}

  lemma MovePlace(s: System, t: nat, moved: set<Obj>, o: Obj)
    requires t < |s.th| && PlaceOk(s, o)
    ensures PlaceOk(Step(s, t, Move(moved)), o)
  {
    var T := s.th[t];
    if T.pc.Rotating? && moved <= T.last {
      var toPool := !s.v.Token4?;
      var T1 := T.(last := T.last - moved, freelist := if toPool then T.freelist else T.freelist + moved);
      TakePlace(s, t, T1, moved, toPool, o);
      var s1 := With(s, t, T1).(pool := if toPool then s.pool + moved else s.pool);
      SwapPlace(s1, t, Finishing, o);
      hide PlaceOk;
      if s.v.Token3? {
        PlaceKept(s1, Step(s, t, Move(moved)), o);
      } else {
        PlaceKept(With(s1, t, Swapped(T1, Finishing)), Step(s, t, Move(moved)), o);
      }
    }
  }

  lemma FreePlace(s: System, t: nat, p: Obj, o: Obj)
    requires t < |s.th| && PlaceOk(s, o)
    ensures PlaceOk(Step(s, t, FreeOne(p)), o)
  {
    var T := s.th[t];
    if T.pc.Draining? && p in T.last {
      TakePlace(s, t, T.(last := T.last - {p}, pc := Draining(T.pc.n + 1)), {p}, true, o);
    }
  }

  lemma RetirePlace(s: System, t: nat, p: Obj, o: Obj)
    requires t < |s.th| && PlaceOk(s, o)
    ensures PlaceOk(Step(s, t, Retire(p)), o)
  {}

  lemma StepPlace(s: System, t: nat, a: Action, o: Obj)
    requires t < |s.th| && PlaceOk(s, o)
    ensures PlaceOk(Step(s, t, a), o)
  {
    hide PlaceOk, Step;
    match a
    case Move(moved) => MovePlace(s, t, moved, o);
    case FreeOne(p) => FreePlace(s, t, p, o);
    case Retire(p) => RetirePlace(s, t, p, o);
    case StartOp => StartPlace(s, t, o);
    case Run => RunPlace(s, t, o);
  }

  lemma StartPlace(s: System, t: nat, o: Obj)
    requires t < |s.th| && PlaceOk(s, o)
    ensures PlaceOk(Step(s, t, StartOp), o)
  {
    assert SamePlaces(s, Step(s, t, StartOp));
    hide PlaceOk;
    PlaceKept(s, Step(s, t, StartOp), o);
  }

  lemma RunPlace(s: System, t: nat, o: Obj)
    requires t < |s.th| && PlaceOk(s, o)
    ensures PlaceOk(Step(s, t, Run), o)
  {
    hide PlaceOk;
    if s.th[t].pc.Draining? && s.th[t].last == {} {
      SwapPlace(s, t, Finishing, o);
    } else {
      RunSamePlaces(s, t);
      hide Step, SamePlaces;
      PlaceKept(s, Step(s, t, Run), o);
    }
  }

  lemma RunSamePlaces(s: System, t: nat)
    requires t < |s.th| && !(s.th[t].pc.Draining? && s.th[t].last == {})
    ensures SamePlaces(s, Step(s, t, Run))
  {
    hide HandOver, ClearToken;
    HandSamePlaces(s, t);
  }

  lemma HandSamePlaces(s: System, t: nat)
    requires t < |s.th|
    ensures forall pc :: SamePlaces(s, HandOver(s, t, pc)) && SamePlaces(s, ClearToken(s, t, pc))
  {}

  lemma StepSafe(s: System, t: nat, a: Action, o: Obj)
    requires Inv(s) && t < |s.th|
    ensures SafeOk(Step(s, t, a), o)
  {
    var s1 := Step(s, t, a);
    assert PlaceOk(s, o) && SafeOk(s, o);
    if o in s1.retired && Reclaimed(s1, o) {
      NewlyReclaimed(s, t, a, o);
      if !Reclaimed(s, o) { OldBagIsUnreachable(s, t, o); }
      assert o in s.retired && Unreachable(s, o) && AgeOk(s, o);
      hide Inv, Step;
      StaysUnreachable(s, t, a, o);
    }
  }

  /** Whoever leaves startOp does so after everything retired so far. */
  lemma StaysUnreachable(s: System, t: nat, a: Action, o: Obj)
    requires t < |s.th| && o in s.retired && Unreachable(s, o) && AgeOk(s, o)
    ensures var s1 := Step(s, t, a); o in s1.retired && s1.retired[o] == s.retired[o] && Unreachable(s1, o)
  {
    var s1 := Step(s, t, a);
    assert o in s1.retired && s1.retired[o] == s.retired[o] && |s1.th| == |s.th|;
    assert s1.th[t].pc.InOp? ==> s.retired[o].time < s1.th[t].opTime;
    forall u | 0 <= u < |s1.th| && u != t ensures s1.th[u] == s.th[u].(token := s1.th[u].token) { OthersAge(s, t, a, u); }
    hide Step;
  }

  lemma NewlyReclaimed(s: System, t: nat, a: Action, o: Obj)
    requires t < |s.th| && PlaceOk(s, o) && Reclaimed(Step(s, t, a), o)
    ensures Reclaimed(s, o) || ((s.th[t].pc.Rotating? || s.th[t].pc.Draining?) && o in s.th[t].last)
  {
    var s1 := Step(s, t, a);
    if o !in s1.pool {
      var u :| 0 <= u < |s1.th| && o in s1.th[u].freelist;
      if u != t { OthersAge(s, t, a, u); }
      FreelistFrom(s, t, a, o, u);
    } else if o !in s.pool {
      PoolFrom(s, t, a, o);
    }
    hide Step;
  }

  lemma FreelistFrom(s: System, t: nat, a: Action, o: Obj, u: nat)
    requires t < |s.th| && u < |Step(s, t, a).th| && o in Step(s, t, a).th[u].freelist
    ensures Reclaimed(s, o) || (s.th[t].pc.Rotating? && o in s.th[t].last)
  {
    if u != t { OthersAge(s, t, a, u); }
  }

  lemma PoolFrom(s: System, t: nat, a: Action, o: Obj)
    requires t < |s.th| && o in Step(s, t, a).pool && o !in s.pool
    ensures o in s.th[t].freelist || ((s.th[t].pc.Rotating? || s.th[t].pc.Draining?) && o in s.th[t].last)
  {}

  lemma StepKeeps(s: System, t: nat, a: Action)
    requires Inv(s)
    ensures Inv(Step(s, t, a))
  {
    StepRing(s, t, a);
    StepRounds(s, t, a);
    StepAges(s, t, a);
    StepHeld(s, t, a);
    if t < |s.th| {
      forall o ensures PlaceOk(Step(s, t, a), o) { StepPlace(s, t, a, o); }
      forall o ensures SafeOk(Step(s, t, a), o) { StepSafe(s, t, a, o); }
    }
    hide Step, TokenOk, RoundOk, AgeOk, HeldSince, PlaceOk, SafeOk;
  }

  lemma {:induction false} RunInv(s: System, sched: Schedule)
    requires Initial(s)
    ensures Inv(RunFrom(s, sched))
    decreases |sched|
  {
    hide Inv, Step;
    InitialOk(s);
    if sched != [] {
      RunInv(s, sched[..|sched| - 1]);
      StepKeeps(RunFrom(s, sched[..|sched| - 1]), sched[|sched| - 1].0, sched[|sched| - 1].1);
    }
  }

  // ---------------------------------------------------------------- theorems

  /** In every run of every variant, at most one thread has the token; none while one is handing it over. */
  lemma OneToken(s: System, sched: Schedule, t: nat, u: nat)
    requires Initial(s) && t < |RunFrom(s, sched).th| && u < |RunFrom(s, sched).th|
    ensures var s1 := RunFrom(s, sched);
      && (s1.th[t].token && s1.th[u].token ==> t == u)
      && (Passing(s1.th[t]) ==> !s1.th[u].token)
      && (Passing(s1.th[t]) && Passing(s1.th[u]) ==> t == u)
      && s1.place.i < |s1.th| && (s1.th[s1.place.i].token || Passing(s1.th[s1.place.i]))
  {
    RunInv(s, sched);
    var s1 := RunFrom(s, sched);
    assert TokenOk(s1, t) && TokenOk(s1, u) && TokenOk(s1, s1.place.i);
  }

  /** In every run of every variant, tokenCount of any two threads differs by at most one. */
  lemma TokenIsFair(s: System, sched: Schedule, t: nat, u: nat)
    requires Initial(s) && t < |RunFrom(s, sched).th| && u < |RunFrom(s, sched).th|
    ensures var s1 := RunFrom(s, sched); s1.th[t].count <= s1.th[u].count + 1
  {
    RunInv(s, sched);
    var s1 := RunFrom(s, sched);
    assert RoundOk(s1, t, u) && RoundOk(s1, u, t);
  }

  /** In every run of every variant, a reclaimed object was retired before every thread outside startOp was last in it. */
  lemma NeverReclaimedEarly(s: System, sched: Schedule, o: Obj)
    requires Initial(s) && Reclaimed(RunFrom(s, sched), o)
    ensures var s1 := RunFrom(s, sched); o in s1.retired && Unreachable(s1, o)
  {
    RunInv(s, sched);
    assert PlaceOk(RunFrom(s, sched), o) && SafeOk(RunFrom(s, sched), o);
  }

  /** In every run of every variant, each retired object is in its owner's bags, or reclaimed, never both. */
  lemma RetiredObjectsAreConserved(s: System, sched: Schedule, o: Obj)
    requires Initial(s) && o in RunFrom(s, sched).retired
    ensures var s1 := RunFrom(s, sched);
            var w := s1.retired[o].owner;
            w < |s1.th| && ((o in s1.th[w].curr || o in s1.th[w].last) <==> !Reclaimed(s1, o))
  {
    RunInv(s, sched);
    assert PlaceOk(RunFrom(s, sched), o) && AgeOk(RunFrom(s, sched), o);
  }

  // ---------------------------------------------------------------- how objects get from one place to the next

  predicate MovesToPool(s: System, T: Thread, a: Action, o: Obj) {
    a.Move? && !s.v.Token4? && T.pc.Rotating? && o in a.moved && a.moved <= T.last
  }

  predicate FreesAlone(s: System, T: Thread, a: Action, o: Obj) {
    a == FreeOne(o) && if T.pc.Draining? then T.pc.n <= CHECK_EVERY && o in T.last else s.v.Token4? && T.pc.Finishing? && o in T.freelist
  }

  /**
   * A retired object goes to the current bag of its retirer; what a rotation moves from the old bag goes to the pool, or
   * in the fourth variant to the free list; and an object freed by itself comes from the old bag or from the free list.
   */
  lemma ObjectsFlow(s: System, t: nat, a: Action, o: Obj)
    ensures var s1 := Step(s, t, a);
      && (o in s1.retired && o !in s.retired <==> a == Retire(o) && t < |s.th| && s.th[t].pc.InOp? && o !in s.retired)
      && (o in s1.retired && o !in s.retired ==> s1.retired[o].owner == t && t < |s1.th| && o in s1.th[t].curr)
      && (o !in s.pool ==> (o in s1.pool <==> t < |s.th| && (MovesToPool(s, s.th[t], a, o) || FreesAlone(s, s.th[t], a, o))))
  {}
}
