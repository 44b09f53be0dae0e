/**
 * The inductive invariant of the LLX/SCX machine, the relation every step keeps, and the stability
 * of a thread's part of the invariant under that relation.
 */
module ScxInvariant {
  import opened ScxModel

  // ---------------------------------------------------------------- vocabulary

  ghost predicate Holds(es: seq<Entry>, n: nat, x: NodeId) {
    exists i :: 0 <= i < n && i < |es| && es[i].n == x
  }

  ghost predicate FinIn(es: seq<Entry>, x: NodeId) {
    exists i :: 0 <= i < |es| && es[i].fin && es[i].n == x
  }

  /** `h` is or has been in scxPtr of `x`. */
  ghost predicate WasAt(g: Shared, x: NodeId, h: Handle) {
    h.Tag? ==> h.k in g.ops && Holds(g.ops[h.k].d.es, g.ops[h.k].frozen, x)
  }

  ghost predicate Decided(g: Shared, h: Handle) {
    h.Tag? ==> h.k in g.ops && !g.ops[h.k].st.InProgress?
  }

  ghost predicate Finalizes(g: Shared, h: Handle, x: NodeId) {
    h.Tag? && h.k in g.ops && g.ops[h.k].st.Committed? && FinIn(g.ops[h.k].d.es, x)
  }

  /** The next node to freeze has moved on since the LLX: the SCX can never freeze it. */
  ghost predicate Doomed(g: Shared, k: OpId)
    requires k in g.ops
  {
    var op := g.ops[k];
    op.frozen < |op.d.es| && PtrAt(g, op.d.es[op.frozen].n) != op.d.es[op.frozen].seen
  }

  ghost predicate MarkedBelow(g: Shared, k: OpId, n: nat)
    requires k in g.ops
  {
    forall i :: 0 <= i < n && i < |g.ops[k].d.es| && g.ops[k].d.es[i].fin ==>
      MarkedFor(g, k, g.ops[k].d.es[i].n)
  }

  ghost predicate MarkedFor(g: Shared, k: OpId, x: NodeId) {
    x in g.nodes && g.nodes[x].marked && g.nodes[x].scxPtr == Tag(k)
  }

  ghost predicate AllMarked(g: Shared, k: OpId)
    requires k in g.ops
  {
    MarkedBelow(g, k, |g.ops[k].d.es|)
  }

  /** A node removed by a committed SCX. */
  ghost predicate FinalizedNode(g: Shared, x: NodeId) {
    x in g.nodes && g.nodes[x].marked && Finalizes(g, g.nodes[x].scxPtr, x)
  }

  // ---------------------------------------------------------------- shared part

  ghost predicate OpCore(g: Shared, k: OpId)
    requires k in g.ops
  {
    var op := g.ops[k];
    && k.tid in g.slots && k.sn <= g.slots[k.tid].sn
    && op.d == Decode(op.pay)
    && |op.snaps| == |op.d.es|
    && (k.sn == g.slots[k.tid].sn ==>
          g.slots[k.tid].st == op.st && g.slots[k.tid].allFrozen == op.allFrozen && g.slots[k.tid].pay == op.pay)
    && (k.sn < g.slots[k.tid].sn ==> !op.st.InProgress?)
    && op.frozen <= |op.d.es|
    && (op.allFrozen ==> op.frozen == |op.d.es| && !op.st.Aborted?)
    && (op.updated ==> op.allFrozen)
    && (op.st.Committed? ==> op.updated && AllMarked(g, k))
    && (op.st.Aborted? ==> Doomed(g, k))
    && (forall i, j :: 0 <= i < j < |op.d.es| ==> op.d.es[i].n != op.d.es[j].n)
    && (forall i :: 0 <= i < |op.d.es| ==> op.d.es[i].n in g.nodes)
    && Holds(op.d.es, |op.d.es|, op.d.fn)
  }

  ghost predicate EntryOk(g: Shared, k: OpId, i: nat)
    requires k in g.ops && i < |g.ops[k].d.es|
  {
    var op, e := g.ops[k], g.ops[k].d.es[i];
    && e.n in g.nodes && i < |op.snaps|
    && WasAt(g, e.n, e.seen) && Decided(g, e.seen) && !Finalizes(g, e.seen, e.n)
    && |op.snaps[i]| == |g.nodes[e.n].vals|
    && (i < op.frozen ==>
          && g.nodes[e.n].scxPtr != e.seen
          && (op.st.InProgress? ==> g.nodes[e.n].scxPtr == Tag(k) && (!op.updated ==> g.nodes[e.n].vals == op.snaps[i])))
    && (i >= op.frozen && g.nodes[e.n].scxPtr == e.seen ==> g.nodes[e.n].vals == op.snaps[i])
    && (e.n == op.d.fn ==>
          && op.d.ix < |g.nodes[e.n].vals| && op.d.ix < |g.nodes[e.n].used|
          && op.snaps[i][op.d.ix] == op.d.oldv
          && op.d.oldv in g.nodes[e.n].used[op.d.ix]
          && (op.updated ==> g.nodes[e.n].vals[op.d.ix] != op.d.oldv)
          && (!op.updated && (if i < op.frozen then op.st.InProgress? else g.nodes[e.n].scxPtr == e.seen) ==>
                op.d.newv !in g.nodes[e.n].used[op.d.ix]))
  }

  ghost predicate NodeOk(g: Shared, x: NodeId)
    requires x in g.nodes
  {
    var n := g.nodes[x];
    && |n.used| == |n.vals|
    && (forall i :: 0 <= i < |n.vals| ==> n.vals[i] in n.used[i])
    && WasAt(g, x, n.scxPtr)
    && (n.marked ==> n.scxPtr.Tag? && g.ops[n.scxPtr.k].allFrozen && FinIn(g.ops[n.scxPtr.k].d.es, x))
  }

  ghost predicate OpsOk(g: Shared) { forall k :: k in g.ops ==> OpCore(g, k) }
  ghost predicate EntriesOk(g: Shared) { forall k, i: nat :: k in g.ops && i < |g.ops[k].d.es| ==> EntryOk(g, k, i) }
  ghost predicate NodesOk(g: Shared) { forall x :: x in g.nodes ==> NodeOk(g, x) }

  ghost predicate GInv(g: Shared) {
    OpsOk(g) && EntriesOk(g) && NodesOk(g)
  }

  lemma KnownOp(g: Shared, k: OpId)
    requires GInv(g) && k in g.ops
    ensures OpCore(g, k)
  {}

  lemma KnownEntry(g: Shared, k: OpId, i: nat)
    requires GInv(g) && k in g.ops && i < |g.ops[k].d.es|
    ensures EntryOk(g, k, i) && OpCore(g, k)
  {}

  lemma KnownNode(g: Shared, x: NodeId)
    requires GInv(g) && x in g.nodes
    ensures NodeOk(g, x)
  {}

  // ---------------------------------------------------------------- thread part

  ghost predicate FrameOk(g: Shared, t: Tid, f: Frame) {
    && f.k in g.ops && f.k.tid in g.slots
    && (f.own ==> f.k.tid == t && g.slots[t].sn == f.k.sn)
    && (!f.own ==> g.ops[f.k].frozen > 0)
    && (!f.own && !f.hp.Copy? ==> f.buf == g.ops[f.k].pay)
    && HpOk(g, f)
  }

  ghost predicate HpOk(g: Shared, f: Frame)
    requires f.k in g.ops && f.k.tid in g.slots
  {
    var op := g.ops[f.k];
    match f.hp
    case Copy => !f.own && (g.slots[f.k.tid].sn == f.k.sn ==> f.buf <= op.pay)
    case Freeze(i) => i <= op.frozen
    case Check(i, done) => i < |op.d.es| && (i < op.frozen || Doomed(g, f.k)) && (done ==> i < op.frozen)
    case ReadFrozen => Doomed(g, f.k) || !op.st.InProgress?
    case AbortRead => Doomed(g, f.k)
    case AbortCas(v) => Doomed(g, f.k) && v.sn == f.k.sn && !v.st.Aborted?
    case FrozenRead => op.frozen == |op.d.es|
    case FrozenCas(v) => op.frozen == |op.d.es| && v.sn == f.k.sn && !v.allFrozen
    case Mark(i) => op.allFrozen && MarkedBelow(g, f.k, i)
    case Update => op.allFrozen && AllMarked(g, f.k)
    case CommitRead => op.updated && AllMarked(g, f.k)
    case CommitCas(v) => op.updated && AllMarked(g, f.k) && v.sn == f.k.sn && !v.st.Committed?
  }

  /** An LLX that first read `marked` as true is at a node that is being or has been finalized under `h`. */
  ghost predicate SawMark(g: Shared, x: NodeId, m: bool, h: Handle) {
    m ==> x in g.nodes && g.nodes[x].marked && g.nodes[x].scxPtr == h
  }

  /** `h` cannot change the node any more, and did not remove it. */
  ghost predicate Settled(g: Shared, x: NodeId, h: Handle) {
    x in g.nodes && WasAt(g, x, h) && Decided(g, h) && !Finalizes(g, h, x)
  }

  ghost predicate LinkOk(g: Shared, x: NodeId, l: Link) {
    && Settled(g, x, l.h)
    && |l.vals| == |g.nodes[x].vals|
    && (g.nodes[x].scxPtr == l.h ==> g.nodes[x].vals == l.vals)
    && (forall i :: 0 <= i < |l.vals| && i < |g.nodes[x].used| ==> l.vals[i] in g.nodes[x].used[i])
  }

  ghost predicate PcOk(g: Shared, t: Tid, pc: Pc) {
    match pc
    case Idle => true
    case LlxMarked(x) => x in g.nodes
    case LlxPtr(x, m) => x in g.nodes && (m ==> g.nodes[x].marked)
    case LlxState(x, m, h) => x in g.nodes && WasAt(g, x, h) && SawMark(g, x, m, h)
    case LlxMarked2(x, m, h) => x in g.nodes && WasAt(g, x, h) && Decided(g, h) && SawMark(g, x, m, h)
    case LlxCopy(x, m, h, vals) =>
      Settled(g, x, h) && SawMark(g, x, m, h) && |vals| <= |g.nodes[x].vals| && (g.nodes[x].scxPtr == h ==> vals <= g.nodes[x].vals)
    case LlxHelp(x, m, f) => x in g.nodes && !f.own && FrameOk(g, t, f) && SawMark(g, x, m, Tag(f.k))
    case Exec(f) => f.own && FrameOk(g, t, f)
    case ExecNew(k, ok) => Outcome(g, t, k, ok) && t in g.slots && g.slots[t].sn == k.sn
  }

  ghost predicate Outcome(g: Shared, t: Tid, k: OpId, ok: bool) {
    k in g.ops && k.tid == t && !g.ops[k].st.InProgress? && ok == g.ops[k].st.Committed?
  }

  ghost predicate ResOk(g: Shared, t: Tid, T: Thread) {
    match T.res
    case NoResult => true
    case LlxFailed(_) => true
    case Linked(x) => x in T.links
    case LlxFinalized(x) => FinalizedNode(g, x)
    case Executed(k, ok) => Outcome(g, t, k, ok)
  }

  ghost predicate ThreadOk(g: Shared, t: Tid, T: Thread) {
    && t in g.slots
    && PcOk(g, t, T.pc) && ResOk(g, t, T)
    && (forall x :: x in T.links ==> LinkOk(g, x, T.links[x]))
    && (!T.pc.Exec? && !T.pc.ExecNew? ==> OpId(t, g.slots[t].sn) !in g.ops)
    && (OpId(t, g.slots[t].sn) !in g.ops ==> g.slots[t].st.InProgress? && !g.slots[t].allFrozen)
  }

  ghost predicate Inv(s: System) {
    && GInv(s.g) && s.g.slots.Keys == s.th.Keys
    && (forall t :: t in s.th ==> ThreadOk(s.g, t, s.th[t]))
  }

  // ---------------------------------------------------------------- what every step keeps

  ghost predicate OpRely(g: Shared, g': Shared, k: OpId)
    requires k in g.ops
  {
    && k in g'.ops
    && var op, op' := g.ops[k], g'.ops[k];
    && op'.pay == op.pay && op'.d == op.d && op'.snaps == op.snaps
    && (!op.st.InProgress? ==> op'.st == op.st)
    && op.frozen <= op'.frozen
    && (op.allFrozen ==> op'.allFrozen) && (op.updated ==> op'.updated)
    && (Doomed(g, k) ==> Doomed(g', k))
  }

  ghost predicate NodeRely(g: Shared, g': Shared, x: NodeId)
    requires x in g.nodes
  {
    && x in g'.nodes
    && var n, n' := g.nodes[x], g'.nodes[x];
    && |n'.vals| == |n.vals| && |n'.used| == |n.used|
    && (n.marked ==> n'.marked && n'.scxPtr == n.scxPtr)
    && (forall h :: WasAt(g, x, h) && n.scxPtr != h ==> n'.scxPtr != h)
    && (Decided(g, n.scxPtr) && n'.scxPtr == n.scxPtr ==> n'.vals == n.vals)
    && (!Decided(g, n.scxPtr) ==>
          && n'.scxPtr == n.scxPtr
          && (n.scxPtr.k in g.ops && n.scxPtr.k in g'.ops && (g'.ops[n.scxPtr.k].updated ==> g.ops[n.scxPtr.k].updated) ==> n'.vals == n.vals))
    && (n'.scxPtr != n.scxPtr ==> n'.vals == n.vals)
    && (n'.vals == n.vals ==> n'.used == n.used)
    && (forall i :: 0 <= i < |n.used| && i < |n'.used| ==> n.used[i] <= n'.used[i])
    && (forall i :: 0 <= i < |n.vals| && i < |n.used| && i < |n'.vals| && n'.vals[i] != n.vals[i] ==> n'.vals[i] !in n.used[i])
  }

  ghost predicate Rely(g: Shared, g': Shared) {
    && (forall k :: k in g.ops ==> OpRely(g, g', k))
    && (forall x :: x in g.nodes ==> NodeRely(g, g', x))
    && g'.slots.Keys == g.slots.Keys
    && (forall t :: t in g.slots ==> g.slots[t].sn <= g'.slots[t].sn)
  }

  ghost predicate SameSlot(g: Shared, g': Shared, t: Tid) {
    && t in g.slots && t in g'.slots && g'.slots[t].sn == g.slots[t].sn
    && (OpId(t, g.slots[t].sn) in g'.ops <==> OpId(t, g.slots[t].sn) in g.ops)
    && (OpId(t, g.slots[t].sn) !in g.ops ==> g'.slots[t] == g.slots[t])
  }

  lemma RelyOp(g: Shared, g': Shared, k: OpId)
    requires Rely(g, g') && k in g.ops
    ensures OpRely(g, g', k)
  {}

  lemma RelyNode(g: Shared, g': Shared, x: NodeId)
    requires Rely(g, g') && x in g.nodes
    ensures NodeRely(g, g', x)
  {}

  // ---------------------------------------------------------------- stability

  lemma WasAtStable(g: Shared, g': Shared, x: NodeId, h: Handle)
    requires Rely(g, g')
    ensures WasAt(g, x, h) ==> WasAt(g', x, h)
    ensures Decided(g, h) ==> Decided(g', h)
    ensures Decided(g, h) ==> (Finalizes(g', h, x) <==> Finalizes(g, h, x))
  {
    if h.Tag? && h.k in g.ops { RelyOp(g, g', h.k); }
  }

  lemma SettledStable(g: Shared, g': Shared, x: NodeId, h: Handle)
    requires Rely(g, g') && Settled(g, x, h)
    ensures Settled(g', x, h)
    ensures g'.nodes[x].scxPtr == h ==> g.nodes[x].scxPtr == h && g'.nodes[x].vals == g.nodes[x].vals
    ensures |g'.nodes[x].vals| == |g.nodes[x].vals|
  {
    WasAtStable(g, g', x, h);
    RelyNode(g, g', x);
  }

  /** An entry keeps its part as long as no node is frozen for its own operation. */
  lemma EntryStable(g: Shared, g': Shared, k: OpId, i: nat)
    requires Rely(g, g') && k in g.ops && i < |g.ops[k].d.es| && EntryOk(g, k, i)
    requires k in g'.ops && g'.ops[k].frozen == g.ops[k].frozen
    requires g.ops[k].d.fn == g.ops[k].d.es[i].n && g'.ops[k].updated && !g.ops[k].updated ==>
               g.ops[k].d.ix < |g'.nodes[g.ops[k].d.fn].vals| && g'.nodes[g.ops[k].d.fn].vals[g.ops[k].d.ix] != g.ops[k].d.oldv
    ensures EntryOk(g', k, i)
  {
    hide Rely;
    RelyOp(g, g', k);
    var e := g.ops[k].d.es[i];
    SettledStable(g, g', e.n, e.seen);
    RelyNode(g, g', e.n);
  }

  lemma MarkedStable(g: Shared, g': Shared, k: OpId, n: nat)
    requires Rely(g, g') && k in g.ops && MarkedBelow(g, k, n)
    ensures k in g'.ops && MarkedBelow(g', k, n)
  {
    RelyOp(g, g', k);
    forall i | 0 <= i < n && i < |g.ops[k].d.es| && g.ops[k].d.es[i].fin
      ensures MarkedFor(g', k, g.ops[k].d.es[i].n)
    {
      RelyNode(g, g', g.ops[k].d.es[i].n);
    }
  }

  lemma FrameStable(g: Shared, g': Shared, t: Tid, f: Frame)
    requires GInv(g) && GInv(g') && Rely(g, g') && FrameOk(g, t, f)
    requires f.own ==> t in g.slots && t in g'.slots && g'.slots[t].sn == g.slots[t].sn
    ensures FrameOk(g', t, f)
  {
    RelyOp(g, g', f.k);
    KnownOp(g, f.k);
    KnownOp(g', f.k);
    if MarkedBelow(g, f.k, |g.ops[f.k].d.es|) { MarkedStable(g, g', f.k, |g.ops[f.k].d.es|); }
    if f.hp.Mark? { MarkedStable(g, g', f.k, f.hp.i); }
  }

  lemma FinalizedStable(g: Shared, g': Shared, x: NodeId)
    requires Rely(g, g') && FinalizedNode(g, x)
    ensures FinalizedNode(g', x)
    ensures g'.nodes[x].vals == g.nodes[x].vals && g'.nodes[x].scxPtr == g.nodes[x].scxPtr
  {
    RelyNode(g, g', x);
    WasAtStable(g, g', x, g.nodes[x].scxPtr);
  }

  lemma SawMarkStable(g: Shared, g': Shared, x: NodeId, m: bool, h: Handle)
    requires Rely(g, g') && SawMark(g, x, m, h)
    ensures SawMark(g', x, m, h)
  {
    if m { RelyNode(g, g', x); }
  }

  lemma PcStable(g: Shared, g': Shared, t: Tid, pc: Pc)
    requires GInv(g) && GInv(g') && Rely(g, g') && PcOk(g, t, pc)
    requires t in g.slots && t in g'.slots && g'.slots[t].sn == g.slots[t].sn
    ensures PcOk(g', t, pc)
  {
    hide GInv, Rely, FrameOk;
    match pc
    case Idle =>
    case LlxMarked(x) => RelyNode(g, g', x);
    case LlxPtr(x, m) => RelyNode(g, g', x);
    case LlxState(x, m, h) => RelyNode(g, g', x); WasAtStable(g, g', x, h); SawMarkStable(g, g', x, m, h);
    case LlxMarked2(x, m, h) => RelyNode(g, g', x); WasAtStable(g, g', x, h); SawMarkStable(g, g', x, m, h);
    case LlxCopy(x, m, h, vals) => SettledStable(g, g', x, h); SawMarkStable(g, g', x, m, h);
    case LlxHelp(x, m, f) => RelyNode(g, g', x); FrameStable(g, g', t, f); SawMarkStable(g, g', x, m, Tag(f.k));
    case Exec(f) => FrameStable(g, g', t, f);
    case ExecNew(k, ok) => RelyOp(g, g', k);
  }

  lemma LinksAndResultStable(g: Shared, g': Shared, t: Tid, T: Thread)
    requires Rely(g, g') && ResOk(g, t, T)
    requires forall x :: x in T.links ==> LinkOk(g, x, T.links[x])
    ensures ResOk(g', t, T)
    ensures forall x :: x in T.links ==> LinkOk(g', x, T.links[x])
  {
    hide Rely;
    forall x | x in T.links ensures LinkOk(g', x, T.links[x]) {
      SettledStable(g, g', x, T.links[x].h);
      RelyNode(g, g', x);
    }
    match T.res
    case LlxFinalized(x) => FinalizedStable(g, g', x);
    case Executed(k, _) => RelyOp(g, g', k);
    case _ =>
  }

  lemma ThreadStable(g: Shared, g': Shared, t: Tid, T: Thread)
    requires GInv(g) && GInv(g') && Rely(g, g') && SameSlot(g, g', t) && ThreadOk(g, t, T)
    ensures ThreadOk(g', t, T)
  {
    hide GInv, Rely, PcOk, ResOk, LinkOk;
    PcStable(g, g', t, T.pc);
    LinksAndResultStable(g, g', t, T);
  }
}
