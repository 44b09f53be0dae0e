/**
 * Each way a step can change shared memory keeps the shared invariant and the relation `Rely`,
 * and leaves the user-visible memory alone. The one exception is the compare-and-swap that turns
 * an operation SUCCEEDED: it switches all of its words from old to new at once.
 */
module KcasEffects {
  import opened KcasModel
  import opened KcasInvariant

  // ---------------------------------------------------------------- the user-visible memory

  ghost function IndexOf(es: seq<Entry>, a: Addr): nat
    requires HasAddr(es, a)
    ensures IndexOf(es, a) < |es| && es[IndexOf(es, a)].addr == a
  {
    var i :| 0 <= i < |es| && es[i].addr == a;
    i
  }

  /** The value a word stands for: an RDCSS tag hides old2, a k-CAS tag hides oldval until SUCCEEDED, then newval. */
  ghost function Logical(g: Shared, a: Addr): int {
    match MemAt(g, a)
    case Plain(v) => v
    case RTag(r) => if r in g.rops then g.rops[r].e.oldval else 0
    case KTag(k) =>
      if k in g.kops && HasAddr(g.kops[k].es, a) then
        var e := g.kops[k].es[IndexOf(g.kops[k].es, a)];
        if g.kops[k].st.Succeeded? then e.newval else e.oldval
      else 0
  }

  ghost predicate SameLogical(g: Shared, g': Shared) {
    forall a :: a in g.mem ==> Logical(g', a) == Logical(g, a)
  }

  lemma IndexOfUnique(es: seq<Entry>, i: nat)
    requires i < |es| && Ascending(es)
    ensures HasAddr(es, es[i].addr) && IndexOf(es, es[i].addr) == i
  {
    var j := IndexOf(es, es[i].addr);
    assert es[j].addr == es[i].addr;
  }

  lemma LogicalOfLocked(g: Shared, k: KId, i: nat)
    requires GInv(g) && k in g.kops && i < |g.kops[k].es| && Locked(g, k, i)
    ensures Logical(g, g.kops[k].es[i].addr) ==
            if g.kops[k].st.Succeeded? then g.kops[k].es[i].newval else g.kops[k].es[i].oldval
  {
    assert KOpOk(g, k);
    IndexOfUnique(g.kops[k].es, i);
  }

  // ---------------------------------------------------------------- one operation at a time

  /** Neither a word locked by `k` nor one about to be is touched. */
  ghost predicate SameLocks(g: Shared, g': Shared, k: KId) {
    forall a :: MemAt(g', a) == KTag(k) <==> MemAt(g, a) == KTag(k)
  }

  ghost predicate KSlotKeeps(g: Shared, g': Shared, k: KId)
    requires k in g.kops
  {
    && g.kslot.Keys == g'.kslot.Keys
    && (KSlotAt(g', k.tid) == KSlotAt(g, k.tid) || (k.sn < KSlotAt(g', k.tid).sn && !g.kops[k].st.Undecided?))
  }

  lemma KeepK(g: Shared, g': Shared, k: KId)
    requires k in g.kops && KOpOk(g, k) && LocksArePrefix(g, k)
    requires g'.mem.Keys == g.mem.Keys && SameLocks(g, g', k) && KSlotKeeps(g, g', k)
    requires k in g'.kops && (g'.kops[k] == g.kops[k] || g'.kops[k] == g.kops[k].(mismatch := true))
    ensures KOpOk(g', k) && LocksArePrefix(g', k) && RelyK(g, g', k)
  {
    assert forall i: nat :: i < |g.kops[k].es| ==> Locked(g', k, i) == Locked(g, k, i);
  }

  lemma KeepR(g: Shared, g': Shared, r: RId)
    requires r in g.rops && ROpOk(g, r)
    requires forall k :: k in g.kops ==> RelyK(g, g', k)
    requires r in g'.rops && g'.rops[r] == g.rops[r]
    requires g.rslot.Keys == g'.rslot.Keys
    requires RSlotAt(g', r.tid) == RSlotAt(g, r.tid) || r.sn < RSlotAt(g', r.tid).sn
    requires MemAt(g', g.rops[r].e.addr) == RTag(r) <==> MemAt(g, g.rops[r].e.addr) == RTag(r)
    ensures ROpOk(g', r) && RelyR(g, g', r)
  {
    var k := g.rops[r].k;
    assert RelyK(g, g', k);
    assert forall j: nat :: j < g.rops[r].i ==> LockedOrDone(g, k, j) && LockedOrDone(g', k, j);
  }

  lemma RelyReflexive(g: Shared)
    requires GInv(g)
    ensures Rely(g, g) && SameLogical(g, g)
  {
    forall k | k in g.kops ensures RelyK(g, g, k) {
      assert KOpOk(g, k) && LocksArePrefix(g, k);
      KeepK(g, g, k);
    }
  }

  /** A step that leaves the words as they are, and at most adds history. */
  lemma SameMemoryKeeps(g: Shared, g': Shared)
    requires GInv(g)
    requires g'.mem == g.mem && g'.kslot.Keys == g.kslot.Keys && g'.rslot.Keys == g.rslot.Keys
    requires forall k :: k in g.kops ==> RelyK(g, g', k)
    requires forall r :: r in g.rops ==> r in g'.rops && g'.rops[r] == g.rops[r]
    requires forall k :: k in g.kops ==> k in g'.kops && g'.kops[k].st == g.kops[k].st
    ensures forall a :: a in g'.mem ==> WordOk(g', a)
    ensures SameLogical(g, g')
  {
    forall a | a in g'.mem ensures WordOk(g', a) && Logical(g', a) == Logical(g, a) {
      assert WordOk(g, a);
      if g.mem[a].KTag? { assert RelyK(g, g', g.mem[a].k); }
    }
  }

  // ---------------------------------------------------------------- owner-side effects

  /** A change of slot `t` that touches neither memory nor history, while no operation is current in it. */
  lemma SlotChange(g: Shared, t: Tid, slot: KSlot)
    requires GInv(g) && t in g.kslot
    requires g.kslot[t].sn <= slot.sn && (slot.building ==> slot.state.Undecided?)
    requires forall k :: k in g.kops && k.tid == t ==> k.sn < slot.sn && !g.kops[k].st.Undecided?
    ensures var g' := WithKSlot(g, t, slot); GInv(g') && Rely(g, g') && SameLogical(g, g')
  {
    hide LocksArePrefix, LockedBelow, LockedOrDone, KOpOk, ROpOk, RelyK, RelyR, WordOk;
    var g' := WithKSlot(g, t, slot);
    forall k | k in g.kops ensures KOpOk(g', k) && LocksArePrefix(g', k) && RelyK(g, g', k) {
      assert KOpOk(g, k) && LocksArePrefix(g, k);
      KeepK(g, g', k);
    }
    forall r | r in g.rops ensures ROpOk(g', r) && RelyR(g, g', r) {
      assert ROpOk(g, r);
      KeepR(g, g', r);
    }
    SameMemoryKeeps(g, g');
  }

  lemma PublishKEffect(g: Shared, t: Tid)
    requires GInv(g) && t in g.kslot && g.kslot[t].building && g.kslot[t].state.Undecided?
    requires OpOk(g, g.kslot[t].pay)
    requires forall k :: k in g.kops && k.tid == t ==> !g.kops[k].st.Undecided?
    ensures var g' := PublishK(g, t); GInv(g') && Rely(g, g') && SameLogical(g, g')
    ensures KId(t, g.kslot[t].sn + 1) !in g.kops
  {
    hide GInv, LocksArePrefix, LockedBelow, LockedOrDone, KOpOk, ROpOk, RelyK, RelyR, WordOk;
    var g', k0 := PublishK(g, t), KId(t, g.kslot[t].sn + 1);
    KnownSlots(g);
    assert SlotsOk(g') by { hide OpOk, Decode; }
    hide SlotsOk;
    assert k0 !in g.kops by { if k0 in g.kops { SnBound(g, k0); } }
    NewKOpOk(g, t);
    forall k | k in g.kops ensures KOpOk(g', k) && LocksArePrefix(g', k) && RelyK(g, g', k) {
      KnownK(g, k);
      SnBound(g, k);
      KeepK(g, g', k);
    }
    forall r | r in g.rops ensures ROpOk(g', r) && RelyR(g, g', r) {
      KnownR(g, r);
      KeepR(g, g', r);
    }
    SameMemoryKeeps(g, g');
    AssembleShared(g, g');
  }

  lemma SnBound(g: Shared, k: KId)
    requires GInv(g) && k in g.kops
    ensures k.tid in g.kslot && k.sn <= g.kslot[k.tid].sn
  {
    KnownK(g, k);
  }

  ghost predicate SlotsOk(g: Shared) {
    && (forall t :: t in g.rslot ==> |g.rslot[t].pay| == 5)
    && (forall t :: t in g.kslot && g.kslot[t].building ==> g.kslot[t].state.Undecided?)
  }

  lemma KnownSlots(g: Shared)
    requires GInv(g)
    ensures SlotsOk(g)
  {}

  lemma AssembleShared(g: Shared, g': Shared)
    requires (forall k :: k in g'.kops ==> KOpOk(g', k) && LocksArePrefix(g', k)) && (forall r :: r in g'.rops ==> ROpOk(g', r))
    requires (forall a :: a in g'.mem ==> WordOk(g', a)) && SlotsOk(g')
    requires g'.mem.Keys == g.mem.Keys && g'.kslot.Keys == g.kslot.Keys && g'.rslot.Keys == g.rslot.Keys
    requires (forall k :: k in g.kops ==> RelyK(g, g', k)) && (forall r :: r in g.rops ==> RelyR(g, g', r))
    requires (forall t :: t in g.kslot ==> g.kslot[t].sn <= g'.kslot[t].sn) && (forall t :: t in g.rslot ==> g.rslot[t].sn <= g'.rslot[t].sn)
    ensures GInv(g') && Rely(g, g')
  {
    hide LocksArePrefix, KOpOk, ROpOk, RelyK, RelyR, WordOk;
  }

  lemma NewKOpOk(g: Shared, t: Tid)
    requires GInv(g) && t in g.kslot && g.kslot[t].building && g.kslot[t].state.Undecided?
    requires OpOk(g, g.kslot[t].pay) && KId(t, g.kslot[t].sn + 1) !in g.kops
    ensures var g', k0 := PublishK(g, t), KId(t, g.kslot[t].sn + 1); KOpOk(g', k0) && LocksArePrefix(g', k0)
  {
    var g', k0 := PublishK(g, t), KId(t, g.kslot[t].sn + 1);
    forall i: nat | i < |g'.kops[k0].es| ensures !Locked(g', k0, i) {
      assert WordOk(g, g'.kops[k0].es[i].addr);
    }
  }

  /** A change of RDCSS slot `t` while no RDCSS is current in it. */
  lemma RSlotChange(g: Shared, t: Tid, slot: RSlot)
    requires GInv(g) && t in g.rslot
    requires g.rslot[t].sn <= slot.sn && |slot.pay| == 5
    requires forall r :: r in g.rops && r.tid == t ==> r.sn < slot.sn
    ensures var g' := g.(rslot := g.rslot[t := slot]); GInv(g') && Rely(g, g') && SameLogical(g, g')
  {
    hide GInv, LocksArePrefix, LockedBelow, LockedOrDone, KOpOk, ROpOk, RelyK, RelyR, WordOk;
    var g' := g.(rslot := g.rslot[t := slot]);
    forall k | k in g.kops ensures KOpOk(g', k) && LocksArePrefix(g', k) && RelyK(g, g', k) {
      KnownK(g, k);
      KeepK(g, g', k);
    }
    forall r | r in g.rops ensures ROpOk(g', r) && RelyR(g, g', r) {
      KnownR(g, r);
      KeepR(g, g', r);
    }
    SameMemoryKeeps(g, g');
    KnownSlots(g);
    AssembleShared(g, g');
  }

  lemma PublishREffect(g: Shared, t: Tid, k0: KId, i: nat)
    requires GInv(g) && t in g.rslot && k0 in g.kops && i < |g.kops[k0].es|
    requires g.rslot[t].pay == RPay(k0, g.kops[k0].es[i])
    requires LockedBelow(g, k0, i)
    ensures var g' := PublishR(g, t, k0, i, g.kops[k0].es[i]); GInv(g') && Rely(g, g') && SameLogical(g, g')
    ensures RId(t, g.rslot[t].sn + 1) !in g.rops
  {
    hide GInv, LocksArePrefix, KOpOk, RelyK, RelyR, WordOk;
    var g', r0 := PublishR(g, t, k0, i, g.kops[k0].es[i]), RId(t, g.rslot[t].sn + 1);
    KnownSlots(g);
    assert SlotsOk(g');
    hide SlotsOk;
    assert r0 !in g.rops by { if r0 in g.rops { KnownR(g, r0); } }
    forall k | k in g.kops ensures KOpOk(g', k) && LocksArePrefix(g', k) && RelyK(g, g', k) {
      KnownK(g, k);
      KeepK(g, g', k);
    }
    forall r | r in g.rops ensures ROpOk(g', r) && RelyR(g, g', r) {
      KnownR(g, r);
      KeepR(g, g', r);
    }
    NewROpOk(g, t, k0, i);
    hide ROpOk;
    SameMemoryKeeps(g, g');
    AssembleShared(g, g');
  }

  lemma NewROpOk(g: Shared, t: Tid, k0: KId, i: nat)
    requires GInv(g) && t in g.rslot && k0 in g.kops && i < |g.kops[k0].es|
    requires g.rslot[t].pay == RPay(k0, g.kops[k0].es[i])
    requires LockedBelow(g, k0, i) && RId(t, g.rslot[t].sn + 1) !in g.rops
    requires RelyK(g, PublishR(g, t, k0, i, g.kops[k0].es[i]), k0)
    ensures ROpOk(PublishR(g, t, k0, i, g.kops[k0].es[i]), RId(t, g.rslot[t].sn + 1))
  {
    var g', r0 := PublishR(g, t, k0, i, g.kops[k0].es[i]), RId(t, g.rslot[t].sn + 1);
    assert KOpOk(g, k0) && WordOk(g, g.kops[k0].es[i].addr);
    assert forall j: nat :: j < i ==> LockedOrDone(g, k0, j) && LockedOrDone(g', k0, j);
  }

  lemma NoteMismatchEffect(g: Shared, k0: KId)
    requires GInv(g) && k0 in g.kops && g.kops[k0].st.Undecided?
    ensures var g' := NoteMismatch(g, k0); GInv(g') && Rely(g, g') && SameLogical(g, g')
  {
    hide GInv, LocksArePrefix, LockedBelow, LockedOrDone, KOpOk, ROpOk, RelyK, RelyR, WordOk;
    var g' := NoteMismatch(g, k0);
    forall k | k in g.kops ensures KOpOk(g', k) && LocksArePrefix(g', k) && RelyK(g, g', k) {
      KnownK(g, k);
      KeepK(g, g', k);
    }
    forall r | r in g.rops ensures ROpOk(g', r) && RelyR(g, g', r) {
      KnownR(g, r);
      KeepR(g, g', r);
    }
    SameMemoryKeeps(g, g');
    KnownSlots(g);
    AssembleShared(g, g');
  }

  // ---------------------------------------------------------------- memory effects

  /** Installing an RDCSS over the old value it hides. */
  lemma InstallEffect(g: Shared, r0: RId)
    requires GInv(g) && r0 in g.rops && !g.rops[r0].installed
    requires g.rops[r0].e.addr in g.mem && g.mem[g.rops[r0].e.addr] == Plain(g.rops[r0].e.oldval)
    ensures var g' := InstallR(g, r0, g.rops[r0].e.addr); GInv(g') && Rely(g, g') && SameLogical(g, g')
  {
    var a0 := g.rops[r0].e.addr;
    var g' := InstallR(g, r0, a0);
    hide LocksArePrefix, LockedBelow, LockedOrDone, KOpOk, ROpOk, RelyK, RelyR, WordOk, Logical;
    forall a | a in g'.mem ensures WordOk(g', a) && Logical(g', a) == Logical(g, a) {
      assert WordOk(g, a);
      InstalledWord(g, r0, a);
    }
    hide GInv;
    forall k | k in g.kops ensures KOpOk(g', k) && LocksArePrefix(g', k) && RelyK(g, g', k) {
      KnownK(g, k);
      KeepK(g, g', k);
    }
    forall r | r in g.rops ensures ROpOk(g', r) && RelyR(g, g', r) {
      KnownR(g, r);
      if r != r0 { KeepR(g, g', r); } else { InstalledR(g, r0); }
    }
    KnownSlots(g);
    AssembleShared(g, g');
  }

  lemma InstalledR(g: Shared, r0: RId)
    requires r0 in g.rops && ROpOk(g, r0) && !g.rops[r0].installed && g.rops[r0].e.addr in g.mem && g.mem[g.rops[r0].e.addr].Plain?
    requires g.rops[r0].k in g.kops && RelyK(g, InstallR(g, r0, g.rops[r0].e.addr), g.rops[r0].k)
    ensures var g' := InstallR(g, r0, g.rops[r0].e.addr); ROpOk(g', r0) && RelyR(g, g', r0)
  {
    var k, g' := g.rops[r0].k, InstallR(g, r0, g.rops[r0].e.addr);
    assert forall j: nat :: j < g.rops[r0].i ==> LockedOrDone(g, k, j) && LockedOrDone(g', k, j);
  }

  lemma InstalledWord(g: Shared, r0: RId, a: Addr)
    requires r0 in g.rops && a in g.mem && WordOk(g, a) && g.rops[r0].e.addr in g.mem && g.mem[g.rops[r0].e.addr] == Plain(g.rops[r0].e.oldval)
    ensures var g' := InstallR(g, r0, g.rops[r0].e.addr); a in g'.mem && WordOk(g', a) && Logical(g', a) == Logical(g, a)
  {}

  /**
   * An RDCSS that read UNDECIDED replaces its tag by the k-CAS tag. Its operation may have failed
   * since, but it has not succeeded, so the word goes on hiding the same value.
   */
  lemma LockEffect(g: Shared, r0: RId)
    requires GInv(g) && r0 in g.rops && g.rops[r0].installed
    requires g.rops[r0].e.addr in g.mem && g.mem[g.rops[r0].e.addr] == RTag(r0)
    requires g.rops[r0].k in g.kops && !g.kops[g.rops[r0].k].st.Succeeded?
    ensures var g' := g.(mem := g.mem[g.rops[r0].e.addr := KTag(g.rops[r0].k)]);
            GInv(g') && Rely(g, g') && SameLogical(g, g')
  {
    hide LocksArePrefix;
    assert ROpOk(g, r0);
    var a0, k0, i0 := g.rops[r0].e.addr, g.rops[r0].k, g.rops[r0].i;
    var g' := g.(mem := g.mem[a0 := KTag(k0)]);
    forall k | k in g.kops ensures KOpOk(g', k) && LocksArePrefix(g', k) && RelyK(g, g', k) {
      assert KOpOk(g, k) && LocksArePrefix(g, k);
      if k != k0 { KeepK(g, g', k); } else { LockKeepsK(g, r0); }
    }
    forall r | r in g.rops ensures ROpOk(g', r) && RelyR(g, g', r) {
      assert ROpOk(g, r);
      if r != r0 { KeepR(g, g', r); } else { LockedR(g, r0); }
    }
    hide LockedOrDone, LockedBelow, RelyK, RelyR;
    forall a | a in g'.mem ensures WordOk(g', a) {
      assert WordOk(g, a);
      if a == a0 { assert g.kops[k0].es[i0].addr == a0; }
    }
    LogicalOfLocked(g', k0, i0);
    assert SameLogical(g, g');
  }

  lemma LockedR(g: Shared, r0: RId)
    requires r0 in g.rops && ROpOk(g, r0) && g.rops[r0].installed && g.rops[r0].e.addr in g.mem && g.mem[g.rops[r0].e.addr] == RTag(r0)
    requires g.rops[r0].k in g.kops && RelyK(g, g.(mem := g.mem[g.rops[r0].e.addr := KTag(g.rops[r0].k)]), g.rops[r0].k)
    ensures var g' := g.(mem := g.mem[g.rops[r0].e.addr := KTag(g.rops[r0].k)]); ROpOk(g', r0) && RelyR(g, g', r0)
  {
    var a0, k0, i0 := g.rops[r0].e.addr, g.rops[r0].k, g.rops[r0].i;
    var g' := g.(mem := g.mem[a0 := KTag(k0)]);
    assert forall j: nat :: j < i0 ==> LockedOrDone(g, k0, j) && LockedOrDone(g', k0, j);
    assert Locked(g', k0, i0);
  }

  lemma LockKeepsK(g: Shared, r0: RId)
    requires r0 in g.rops && ROpOk(g, r0) && KOpOk(g, g.rops[r0].k) && LocksArePrefix(g, g.rops[r0].k)
    requires g.rops[r0].e.addr in g.mem && g.mem[g.rops[r0].e.addr] == RTag(r0)
    requires !g.kops[g.rops[r0].k].st.Succeeded?
    ensures var g', k0 := g.(mem := g.mem[g.rops[r0].e.addr := KTag(g.rops[r0].k)]), g.rops[r0].k;
            KOpOk(g', k0) && LocksArePrefix(g', k0) && RelyK(g, g', k0)
  {
    var a0, k0, i0 := g.rops[r0].e.addr, g.rops[r0].k, g.rops[r0].i;
    var g' := g.(mem := g.mem[a0 := KTag(k0)]);
    var es := g.kops[k0].es;
    assert forall i: nat :: i < |es| && Locked(g, k0, i) ==> Locked(g', k0, i);
    if g.kops[k0].st.Undecided? {
      forall i: nat, j: nat | j < i < |es| && Locked(g', k0, i) ensures Locked(g', k0, j) {
        if Locked(g, k0, i) {
          assert Locked(g, k0, j);
        } else {
          assert es[i].addr == es[i0].addr;
          assert i == i0;
          assert LockedOrDone(g, k0, j);
        }
      }
    }
  }

  /** An RDCSS that found its operation decided puts the old value back. */
  lemma UnlockREffect(g: Shared, r0: RId)
    requires GInv(g) && r0 in g.rops && g.rops[r0].installed
    requires g.rops[r0].e.addr in g.mem && g.mem[g.rops[r0].e.addr] == RTag(r0)
    requires g.rops[r0].k in g.kops && !g.kops[g.rops[r0].k].st.Undecided?
    ensures var g' := g.(mem := g.mem[g.rops[r0].e.addr := Plain(g.rops[r0].e.oldval)]);
            GInv(g') && Rely(g, g') && SameLogical(g, g')
  {
    hide LocksArePrefix;
    var a0 := g.rops[r0].e.addr;
    var g' := g.(mem := g.mem[a0 := Plain(g.rops[r0].e.oldval)]);
    forall k | k in g.kops ensures KOpOk(g', k) && LocksArePrefix(g', k) && RelyK(g, g', k) {
      assert KOpOk(g, k) && LocksArePrefix(g, k);
      KeepK(g, g', k);
    }
    forall r | r in g.rops ensures ROpOk(g', r) && RelyR(g, g', r) {
      assert ROpOk(g, r);
      if r != r0 {
        KeepR(g, g', r);
      } else {
        var k := g.rops[r].k;
        assert RelyK(g, g', k);
        assert forall j: nat :: j < g.rops[r].i ==> LockedOrDone(g, k, j) && LockedOrDone(g', k, j);
      }
    }
    forall a | a in g'.mem ensures WordOk(g', a) && Logical(g', a) == Logical(g, a) {
      assert WordOk(g, a);
    }
  }

  /** Unlocking an entry of a decided operation writes the value its tag already stands for. */
  lemma ReleaseEffect(g: Shared, k0: KId, i0: nat)
    requires GInv(g) && k0 in g.kops && i0 < |g.kops[k0].es|
    requires !g.kops[k0].st.Undecided? && Locked(g, k0, i0) && g.kops[k0].es[i0].addr in g.mem
    ensures var e := g.kops[k0].es[i0];
            var g' := g.(mem := g.mem[e.addr := Plain(if g.kops[k0].st.Succeeded? then e.newval else e.oldval)]);
            GInv(g') && Rely(g, g') && SameLogical(g, g')
  {
    var e := g.kops[k0].es[i0];
    var a0, v := e.addr, if g.kops[k0].st.Succeeded? then e.newval else e.oldval;
    var g' := g.(mem := g.mem[a0 := Plain(v)]);
    assert SlotsOk(g');
    hide GInv, LocksArePrefix, LockedBelow, LockedOrDone, KOpOk, ROpOk, RelyK, RelyR, WordOk, SlotsOk;
    forall k | k in g.kops ensures KOpOk(g', k) && LocksArePrefix(g', k) && RelyK(g, g', k) {
      KnownK(g, k);
      if k != k0 { KeepK(g, g', k); } else { ReleasedK(g, k0, i0, v); }
    }
    forall r | r in g.rops ensures ROpOk(g', r) && RelyR(g, g', r) {
      KnownR(g, r);
      KeepR(g, g', r);
    }
    ReleasedWords(g, k0, i0);
    AssembleShared(g, g');
  }

  lemma ReleasedWords(g: Shared, k0: KId, i0: nat)
    requires GInv(g) && k0 in g.kops && i0 < |g.kops[k0].es| && Locked(g, k0, i0) && g.kops[k0].es[i0].addr in g.mem
    ensures var e := g.kops[k0].es[i0];
            var g' := g.(mem := g.mem[e.addr := Plain(if g.kops[k0].st.Succeeded? then e.newval else e.oldval)]);
            SameLogical(g, g') && forall a :: a in g'.mem ==> WordOk(g', a)
  {
    var e := g.kops[k0].es[i0];
    var g' := g.(mem := g.mem[e.addr := Plain(if g.kops[k0].st.Succeeded? then e.newval else e.oldval)]);
    LogicalOfLocked(g, k0, i0);
    hide LocksArePrefix, KOpOk, ROpOk;
    forall a | a in g'.mem ensures WordOk(g', a) && Logical(g', a) == Logical(g, a) {
      assert WordOk(g, a);
    }
  }

  /** Unlocking an entry of a decided operation keeps what is known of it. */
  lemma ReleasedK(g: Shared, k: KId, i: nat, v: int)
    requires k in g.kops && KOpOk(g, k) && !g.kops[k].st.Undecided? && i < |g.kops[k].es|
    ensures var g' := g.(mem := g.mem[g.kops[k].es[i].addr := Plain(v)]); KOpOk(g', k) && LocksArePrefix(g', k) && RelyK(g, g', k)
  {}

  // ---------------------------------------------------------------- the decision

  lemma DecideEffect(g: Shared, k0: KId, ok: bool)
    requires GInv(g) && k0 in g.kops && g.kops[k0].st.Undecided?
    requires k0.tid in g.kslot && g.kslot[k0.tid].sn == k0.sn
    requires MayDecide(g, k0, ok)
    ensures var g' := DecideK(g, k0, if ok then Succeeded else Failed); GInv(g') && Rely(g, g')
  {
    var st := if ok then Succeeded else Failed;
    var g' := DecideK(g, k0, st);
    KnownK(g, k0);
    assert SlotsOk(g');
    hide GInv, LocksArePrefix, LockedBelow, LockedOrDone, KOpOk, ROpOk, RelyK, RelyR, WordOk, MayDecide, SlotsOk;
    forall k | k in g.kops ensures KOpOk(g', k) && LocksArePrefix(g', k) && RelyK(g, g', k) {
      KnownK(g, k);
      if k == k0 { DecideKeepsK(g, k0, ok); } else { DecideKeepsOther(g, k0, st, k); }
    }
    forall r | r in g.rops ensures ROpOk(g', r) && RelyR(g, g', r) {
      KnownR(g, r);
      KeepR(g, g', r);
    }
    forall a | a in g'.mem ensures WordOk(g', a) { DecidedWord(g, k0, st, a); }
    AssembleShared(g, g');
  }

  lemma DecideKeepsOther(g: Shared, k0: KId, st: State, k: KId)
    requires k0 in g.kops && k in g.kops && k != k0 && KOpOk(g, k) && LocksArePrefix(g, k) && k0.tid in g.kslot && g.kslot[k0.tid].sn == k0.sn && KOpOk(g, k0)
    ensures var g' := DecideK(g, k0, st); KOpOk(g', k) && LocksArePrefix(g', k) && RelyK(g, g', k)
  {
    var g' := DecideK(g, k0, st);
    assert k == KId(k.tid, k.sn) && k0 == KId(k0.tid, k0.sn);
    hide LocksArePrefix;
    KeepK(g, g', k);
  }

  lemma DecidedWord(g: Shared, k0: KId, st: State, a: Addr)
    requires GInv(g) && k0 in g.kops && a in g.mem
    ensures WordOk(DecideK(g, k0, st), a)
  {
    assert WordOk(g, a);
  }

  lemma DecideKeepsK(g: Shared, k0: KId, ok: bool)
    requires k0 in g.kops && KOpOk(g, k0) && g.kops[k0].st.Undecided? && g.kslot[k0.tid].sn == k0.sn
    requires MayDecide(g, k0, ok)
    ensures var g' := DecideK(g, k0, if ok then Succeeded else Failed);
            KOpOk(g', k0) && LocksArePrefix(g', k0) && RelyK(g, g', k0)
  {
    var g' := DecideK(g, k0, if ok then Succeeded else Failed);
    assert forall i: nat :: i < |g.kops[k0].es| ==> Locked(g', k0, i) == Locked(g, k0, i);
    if ok {
      forall i: nat | i < |g.kops[k0].es| ensures Locked(g', k0, i) {
        assert LockedOrDone(g, k0, i);
      }
    }
  }

  /** Deciding FAILED changes no user-visible word. */
  lemma FailIsInvisible(g: Shared, k0: KId)
    requires GInv(g) && k0 in g.kops && g.kops[k0].st.Undecided?
    ensures SameLogical(g, DecideK(g, k0, Failed))
  {
    var g' := DecideK(g, k0, Failed);
    assert forall a :: MemAt(g', a) == MemAt(g, a);
  }

  /** Deciding SUCCEEDED swaps exactly the words of the operation, each from its old to its new value. */
  lemma SucceedIsAtomic(g: Shared, k0: KId)
    requires GInv(g) && k0 in g.kops && g.kops[k0].st.Undecided?
    requires LockedBelow(g, k0, |g.kops[k0].es|)
    ensures SwapsAll(g, DecideK(g, k0, Succeeded), g.kops[k0].es)
  {
    var g' := DecideK(g, k0, Succeeded);
    var es := g.kops[k0].es;
    assert KOpOk(g, k0);
    assert forall a :: MemAt(g', a) == MemAt(g, a);
    forall i: nat | i < |es|
      ensures Logical(g, es[i].addr) == es[i].oldval && Logical(g', es[i].addr) == es[i].newval
    {
      assert LockedOrDone(g, k0, i);
      LogicalOfLocked(g, k0, i);
      IndexOfUnique(es, i);
    }
    forall a | a in g.mem && !HasAddr(es, a) ensures Logical(g', a) == Logical(g, a) {
      assert WordOk(g, a);
    }
  }

  /** The atomic k-word swap: every entry matched, every entry is updated, nothing else moves. */
  ghost predicate SwapsAll(g: Shared, g': Shared, es: seq<Entry>) {
    && (forall i :: 0 <= i < |es| ==> Logical(g, es[i].addr) == es[i].oldval)
    && (forall i :: 0 <= i < |es| ==> Logical(g', es[i].addr) == es[i].newval)
    && (forall a :: a in g.mem && !HasAddr(es, a) ==> Logical(g', a) == Logical(g, a))
  }
}
