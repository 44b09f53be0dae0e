/**
 * Each way a step can change shared memory keeps the shared invariant and the relation `Rely`.
 */
module ScxEffects {
  import opened ScxModel
  import opened ScxInvariant

  ghost predicate Keeps(g: Shared, g': Shared) {
    GInv(g') && Rely(g, g')
  }

  lemma RelyReflexive(g: Shared)
    ensures Rely(g, g)
  {}

  /** Entries follow from `Rely` when no node was frozen and no field updated. */
  lemma Assemble(g: Shared, g': Shared)
    requires GInv(g) && Rely(g, g') && g'.ops.Keys == g.ops.Keys
    requires forall k :: k in g'.ops ==> OpCore(g', k)
    requires forall x :: x in g'.nodes ==> NodeOk(g', x)
    requires forall k :: k in g.ops && k in g'.ops ==> g'.ops[k].frozen == g.ops[k].frozen && g'.ops[k].updated == g.ops[k].updated
    ensures GInv(g')
  {
    hide Rely;
    forall k, i: nat | k in g'.ops && i < |g'.ops[k].d.es| ensures EntryOk(g', k, i) {
      RelyOp(g, g', k);
      KnownEntry(g, k, i);
      EntryStable(g, g', k, i);
    }
  }

  ghost predicate OpGrows(g: Shared, g': Shared, k: OpId)
    requires k in g.ops
  {
    k in g'.ops && g'.ops[k].d == g.ops[k].d && g.ops[k].frozen <= g'.ops[k].frozen && (g.ops[k].allFrozen ==> g'.ops[k].allFrozen)
  }

  /** A node that a step leaves alone. */
  lemma NodeKept(g: Shared, g': Shared, x: NodeId)
    requires GInv(g) && x in g.nodes && x in g'.nodes && g'.nodes[x] == g.nodes[x]
    requires forall k :: k in g.ops ==> OpGrows(g, g', k)
    ensures NodeOk(g', x) && NodeRely(g, g', x)
  {
    hide GInv;
    KnownNode(g, x);
    if g.nodes[x].scxPtr.Tag? { assert OpGrows(g, g', g.nodes[x].scxPtr.k); }
  }

  /** An operation that a step leaves alone, with its nodes. */
  lemma OpKept(g: Shared, g': Shared, k: OpId)
    requires GInv(g) && k in g.ops && k in g'.ops && g'.ops[k] == g.ops[k]
    requires g'.nodes == g.nodes && g'.slots.Keys == g.slots.Keys
    requires SlotAt(g', k.tid) == SlotAt(g, k.tid) || (k.sn < SlotAt(g', k.tid).sn && !g.ops[k].st.InProgress?)
    ensures OpCore(g', k) && OpRely(g, g', k)
  {
    hide GInv;
    KnownOp(g, k);
  }

  lemma EntryKept(g: Shared, g': Shared, k: OpId, i: nat)
    requires GInv(g) && Rely(g, g') && k in g.ops && k in g'.ops && g'.ops[k] == g.ops[k] && i < |g.ops[k].d.es|
    ensures EntryOk(g', k, i)
  {
    hide GInv, Rely;
    KnownEntry(g, k, i);
    EntryStable(g, g', k, i);
  }

  // ---------------------------------------------------------------- slots

  /** The owner rewrites its slot while no operation in progress lives in it. */
  lemma SlotEffect(g: Shared, t: Tid, slot: Slot)
    requires GInv(g) && t in g.slots && g.slots[t].sn <= slot.sn
    requires forall k :: k in g.ops && k.tid == t ==> k.sn < slot.sn && !g.ops[k].st.InProgress?
    ensures Keeps(g, g.(slots := g.slots[t := slot]))
  {
    hide GInv;
    var g' := g.(slots := g.slots[t := slot]);
    forall k | k in g.ops ensures OpCore(g', k) && OpRely(g, g', k) { KnownOp(g, k); }
    forall x | x in g.nodes ensures NodeOk(g', x) && NodeRely(g, g', x) { KnownNode(g, x); }
    Assemble(g, g');
  }

  lemma NewNodeEffect(g: Shared, x0: NodeId, n: Node)
    requires GInv(g) && x0 !in g.nodes && n.scxPtr.InitHandle? && !n.marked
    requires |n.used| == |n.vals| && forall i :: 0 <= i < |n.vals| ==> n.vals[i] in n.used[i]
    ensures Keeps(g, g.(nodes := g.nodes[x0 := n]))
  {
    hide GInv;
    var g' := g.(nodes := g.nodes[x0 := n]);
    forall k | k in g.ops ensures OpCore(g', k) && OpRely(g, g', k) { KnownOp(g, k); }
    forall x | x in g.nodes ensures NodeRely(g, g', x) { KnownNode(g, x); }
    forall x | x in g'.nodes ensures NodeOk(g', x) { if x in g.nodes { KnownNode(g, x); } }
    Assemble(g, g');
  }

  // ---------------------------------------------------------------- publication

  ghost predicate LinksOk(g: Shared, T: Thread) {
    forall x :: x in T.links ==> LinkOk(g, x, T.links[x])
  }

  lemma FreshId(g: Shared, t: Tid)
    requires GInv(g) && t in g.slots
    ensures OpId(t, g.slots[t].sn + 1) !in g.ops
  {
    var k0 := OpId(t, g.slots[t].sn + 1);
    if k0 in g.ops { KnownOp(g, k0); }
  }

  lemma PublishRely(g: Shared, t: Tid, snaps: seq<seq<Val>>)
    requires GInv(g) && t in g.slots && OpId(t, g.slots[t].sn) !in g.ops
    ensures var g' := Publish(g, t, snaps);
            && Rely(g, g')
            && (forall x :: x in g'.nodes ==> NodeOk(g', x))
            && (forall k :: k in g.ops ==> k in g'.ops && OpCore(g', k))
  {
    hide GInv, OpCore, NodeOk, NodeRely, OpRely;
    var g' := Publish(g, t, snaps);
    FreshId(g, t);
    assert forall k :: k in g.ops ==> OpGrows(g, g', k);
    forall k | k in g.ops ensures OpCore(g', k) && OpRely(g, g', k) { PublishKeepsOp(g, t, snaps, k); }
    forall x | x in g.nodes ensures NodeOk(g', x) && NodeRely(g, g', x) { NodeKept(g, g', x); }
  }

  lemma PublishEffect(g: Shared, t: Tid, T: Thread)
    requires GInv(g) && t in g.slots && LinksOk(g, T)
    requires OpId(t, g.slots[t].sn) !in g.ops && g.slots[t].st.InProgress? && !g.slots[t].allFrozen
    requires Usable(g, T, Decode(g.slots[t].pay))
    ensures Keeps(g, Publish(g, t, Snaps(T, Decode(g.slots[t].pay))))
    ensures OpId(t, g.slots[t].sn + 1) !in g.ops
  {
    hide GInv, Rely, OpCore, NodeOk, EntryOk, Usable, LinksOk, Snaps;
    var d := Decode(g.slots[t].pay);
    var g' := Publish(g, t, Snaps(T, d));
    var k0 := OpId(t, g.slots[t].sn + 1);
    FreshId(g, t);
    PublishRely(g, t, Snaps(T, d));
    NewOpCore(g, t, T);
    forall k, i: nat | k in g'.ops && i < |g'.ops[k].d.es| ensures EntryOk(g', k, i) {
      if k != k0 { EntryKept(g, g', k, i); } else { NewEntryOk(g, t, T, i); }
    }
    AssembleGInv(g');
  }

  lemma PublishKeepsOp(g: Shared, t: Tid, snaps: seq<seq<Val>>, k: OpId)
    requires GInv(g) && t in g.slots && OpId(t, g.slots[t].sn) !in g.ops && k in g.ops && OpId(t, g.slots[t].sn + 1) !in g.ops
    ensures var g' := Publish(g, t, snaps); OpCore(g', k) && OpRely(g, g', k)
  {
    hide GInv;
    KnownOp(g, k);
    assert k != OpId(t, g.slots[t].sn);
    OpKept(g, Publish(g, t, snaps), k);
  }

  lemma NewOpCore(g: Shared, t: Tid, T: Thread)
    requires t in g.slots && g.slots[t].st.InProgress? && !g.slots[t].allFrozen
    requires Usable(g, T, Decode(g.slots[t].pay))
    ensures OpCore(Publish(g, t, Snaps(T, Decode(g.slots[t].pay))), OpId(t, g.slots[t].sn + 1))
  {}

  lemma NewEntryOk(g: Shared, t: Tid, T: Thread, i: nat)
    requires GInv(g) && t in g.slots && LinksOk(g, T)
    requires OpId(t, g.slots[t].sn + 1) !in g.ops && g.slots[t].st.InProgress? && !g.slots[t].allFrozen
    requires var d := Decode(g.slots[t].pay); Usable(g, T, d) && i < |d.es|
    ensures EntryOk(Publish(g, t, Snaps(T, Decode(g.slots[t].pay))), OpId(t, g.slots[t].sn + 1), i)
  {
    hide GInv;
    var d := Decode(g.slots[t].pay);
    var x := d.es[i].n;
    assert LinkOk(g, x, T.links[x]);
    KnownNode(g, x);
  }

  // ---------------------------------------------------------------- freezing

  /** The invariant of `k` while it may still freeze node `i`. */
  ghost predicate CanFreeze(g: Shared, k: OpId) {
    && k in g.ops && g.ops[k].frozen < |g.ops[k].d.es|
    && var e := g.ops[k].d.es[g.ops[k].frozen];
    e.n in g.nodes && g.nodes[e.n].scxPtr == e.seen
  }

  /** No tag that was ever at a node is the tag about to be put there. */
  lemma FreezeIsNew(g: Shared, k0: OpId, h: Handle)
    requires GInv(g) && CanFreeze(g, k0)
    requires WasAt(g, g.ops[k0].d.es[g.ops[k0].frozen].n, h)
    ensures h != Tag(k0)
  {
    KnownOp(g, k0);
  }

  lemma FreezeEffect(g: Shared, k0: OpId)
    requires GInv(g) && CanFreeze(g, k0)
    ensures Keeps(g, FreezeNode(g, k0, g.ops[k0].d.es[g.ops[k0].frozen].n))
    ensures g.ops[k0].st.InProgress?
  {
    var op := g.ops[k0];
    var x0 := op.d.es[op.frozen].n;
    var g' := FreezeNode(g, k0, x0);
    KnownOp(g, k0);
    hide GInv, OpCore, NodeOk, EntryOk, NodeRely, OpRely;
    forall k | k in g.ops ensures OpCore(g', k) && OpRely(g, g', k) { FreezeOp(g, k0, k); }
    forall x | x in g.nodes ensures NodeRely(g, g', x) { FreezeNodeRely(g, k0, x); }
    assert Rely(g, g');
    hide Rely;
    forall x | x in g'.nodes ensures NodeOk(g', x) {
      WasAtStable(g, g', x, g.nodes[x].scxPtr);
      FreezeNodeOk(g, k0, x);
    }
    FreezeEntries(g, k0);
    AssembleGInv(g');
  }

  lemma FreezeEntries(g: Shared, k0: OpId)
    requires GInv(g) && CanFreeze(g, k0)
    requires var g' := FreezeNode(g, k0, g.ops[k0].d.es[g.ops[k0].frozen].n);
      Rely(g, g') && forall k :: k in g.ops ==> OpCore(g', k) && OpRely(g, g', k)
    ensures var g' := FreezeNode(g, k0, g.ops[k0].d.es[g.ops[k0].frozen].n);
      forall k, i: nat :: k in g'.ops && i < |g'.ops[k].d.es| ==> EntryOk(g', k, i)
  {
    var g' := FreezeNode(g, k0, g.ops[k0].d.es[g.ops[k0].frozen].n);
    hide GInv, OpCore, EntryOk, OpRely, Rely;
    forall k, i: nat | k in g'.ops && i < |g'.ops[k].d.es| ensures EntryOk(g', k, i) {
      if k != k0 { EntryKept(g, g', k, i); } else { FreezeEntry(g, k0, i); }
    }
  }

  lemma FreezeOp(g: Shared, k0: OpId, k: OpId)
    requires GInv(g) && CanFreeze(g, k0) && k in g.ops
    ensures var g' := FreezeNode(g, k0, g.ops[k0].d.es[g.ops[k0].frozen].n); OpCore(g', k) && OpRely(g, g', k)
  {
    hide GInv;
    KnownOp(g, k);
    KnownEntry(g, k0, g.ops[k0].frozen);
    UnmarkedIfSettled(g, g.ops[k0].d.es[g.ops[k0].frozen].n, g.ops[k0].d.es[g.ops[k0].frozen].seen);
    if Doomed(g, k) { FreezeKeepsDoom(g, k0, k); }
  }

  lemma AssembleGInv(g: Shared)
    requires forall k :: k in g.ops ==> OpCore(g, k)
    requires forall x :: x in g.nodes ==> NodeOk(g, x)
    requires forall k, i: nat :: k in g.ops && i < |g.ops[k].d.es| ==> EntryOk(g, k, i)
    ensures GInv(g)
  {}

  lemma FreezeKeepsDoom(g: Shared, k0: OpId, k: OpId)
    requires GInv(g) && CanFreeze(g, k0) && k in g.ops && Doomed(g, k)
    ensures Doomed(FreezeNode(g, k0, g.ops[k0].d.es[g.ops[k0].frozen].n), k)
  {
    hide GInv;
    var x0 := g.ops[k0].d.es[g.ops[k0].frozen].n;
    KnownEntry(g, k, g.ops[k].frozen);
    var e := g.ops[k].d.es[g.ops[k].frozen];
    if e.n == x0 { FreezeIsNew(g, k0, e.seen); }
  }

  lemma FreezeNodeRely(g: Shared, k0: OpId, x: NodeId)
    requires GInv(g) && CanFreeze(g, k0) && x in g.nodes
    ensures NodeRely(g, FreezeNode(g, k0, g.ops[k0].d.es[g.ops[k0].frozen].n), x)
  {
    var i0 := g.ops[k0].frozen;
    var x0 := g.ops[k0].d.es[i0].n;
    KnownEntry(g, k0, i0);
    KnownNode(g, x0);
    if x == x0 {
      forall h | WasAt(g, x, h) ensures h != Tag(k0) { FreezeIsNew(g, k0, h); }
      UnmarkedIfSettled(g, x0, g.ops[k0].d.es[i0].seen);
    }
  }

  /** A settled handle still at the node: nobody is marking the node. */
  lemma UnmarkedIfSettled(g: Shared, x: NodeId, h: Handle)
    requires GInv(g) && Settled(g, x, h) && g.nodes[x].scxPtr == h
    ensures !g.nodes[x].marked
  {
    KnownNode(g, x);
    if h.Tag? { KnownOp(g, h.k); }
  }

  lemma FreezeNodeOk(g: Shared, k0: OpId, x: NodeId)
    requires GInv(g) && CanFreeze(g, k0) && x in g.nodes
    ensures var g' := FreezeNode(g, k0, g.ops[k0].d.es[g.ops[k0].frozen].n);
            (WasAt(g, x, g.nodes[x].scxPtr) ==> WasAt(g', x, g.nodes[x].scxPtr)) ==> NodeOk(g', x)
  {
    var i0 := g.ops[k0].frozen;
    var x0 := g.ops[k0].d.es[i0].n;
    KnownNode(g, x);
    if x == x0 {
      KnownEntry(g, k0, i0);
      UnmarkedIfSettled(g, x0, g.ops[k0].d.es[i0].seen);
      assert Holds(g.ops[k0].d.es, i0 + 1, x0);
    }
  }

  lemma FreezeEntry(g: Shared, k0: OpId, i: nat)
    requires GInv(g) && CanFreeze(g, k0) && i < |g.ops[k0].d.es|
    ensures EntryOk(FreezeNode(g, k0, g.ops[k0].d.es[g.ops[k0].frozen].n), k0, i)
  {
    hide GInv;
    var op := g.ops[k0];
    var g' := FreezeNode(g, k0, op.d.es[op.frozen].n);
    KnownEntry(g, k0, i);
    KnownEntry(g, k0, op.frozen);
    var e := op.d.es[i];
    if e.seen.Tag? { assert g'.ops[e.seen.k].d == g.ops[e.seen.k].d; }
    if i == op.frozen { FreezeIsNew(g, k0, e.seen); }
  }

  // ---------------------------------------------------------------- the mutables word

  lemma OlderOp(g: Shared, k0: OpId, k: OpId)
    requires GInv(g) && k in g.ops && k.tid == k0.tid && k != k0
    requires k0.tid in g.slots && g.slots[k0.tid].sn == k0.sn
    ensures k.sn < k0.sn && !g.ops[k].st.InProgress?
  {
    KnownOp(g, k);
  }

  /** A successful CAS on the mutables word of the current operation of a slot. */
  lemma MutablesEffect(g: Shared, g': Shared, k0: OpId)
    requires GInv(g) && k0 in g.ops && k0.tid in g.slots && g.slots[k0.tid].sn == k0.sn
    requires g'.nodes == g.nodes && k0 in g'.ops && g'.ops == g.ops[k0 := g'.ops[k0]]
    requires k0.tid in g'.slots && g'.slots == g.slots[k0.tid := g'.slots[k0.tid]] && g'.slots[k0.tid].sn == k0.sn
    requires OpCore(g', k0) && OpRely(g, g', k0)
    requires g'.ops[k0].frozen == g.ops[k0].frozen && g'.ops[k0].updated == g.ops[k0].updated
    ensures Keeps(g, g')
  {
    hide GInv, OpCore, NodeOk, NodeRely, Doomed;
    forall k | k in g.ops ensures OpCore(g', k) && OpRely(g, g', k) {
      if k != k0 {
        if k.tid == k0.tid { OlderOp(g, k0, k); }
        OpKept(g, g', k);
      }
    }
    forall k | k in g.ops ensures OpGrows(g, g', k) {}
    forall x | x in g.nodes ensures NodeOk(g', x) && NodeRely(g, g', x) { NodeKept(g, g', x); }
    Assemble(g, g');
  }

  lemma AllFrozenEffect(g: Shared, k0: OpId)
    requires GInv(g) && k0 in g.ops && g.ops[k0].frozen == |g.ops[k0].d.es|
    requires k0.tid in g.slots && g.slots[k0.tid].sn == k0.sn
    ensures Keeps(g, SetAllFrozen(g, k0))
  {
    hide GInv;
    KnownOp(g, k0);
    MutablesEffect(g, SetAllFrozen(g, k0), k0);
  }

  lemma AbortEffect(g: Shared, k0: OpId)
    requires GInv(g) && k0 in g.ops && Doomed(g, k0)
    requires k0.tid in g.slots && g.slots[k0.tid].sn == k0.sn
    ensures Keeps(g, SetState(g, k0, Aborted))
  {
    hide GInv;
    KnownOp(g, k0);
    MutablesEffect(g, SetState(g, k0, Aborted), k0);
  }

  lemma CommitEffect(g: Shared, k0: OpId)
    requires GInv(g) && k0 in g.ops && g.ops[k0].updated && AllMarked(g, k0)
    requires k0.tid in g.slots && g.slots[k0.tid].sn == k0.sn
    ensures Keeps(g, SetState(g, k0, Committed))
  {
    hide GInv;
    KnownOp(g, k0);
    MutablesEffect(g, SetState(g, k0, Committed), k0);
  }

  // ---------------------------------------------------------------- marking and updating

  lemma MarkOp(g: Shared, x: NodeId, k: OpId)
    requires GInv(g) && x in g.nodes && k in g.ops
    ensures var g' := MarkNode(g, x); OpCore(g', k) && OpRely(g, g', k)
  {
    hide GInv;
    KnownOp(g, k);
  }

  lemma MarkEffect(g: Shared, k0: OpId, i: nat)
    requires GInv(g) && k0 in g.ops && g.ops[k0].allFrozen && i < |g.ops[k0].d.es| && g.ops[k0].d.es[i].fin
    requires g.ops[k0].d.es[i].n in g.nodes
    ensures Keeps(g, MarkNode(g, g.ops[k0].d.es[i].n))
  {
    hide GInv;
    var x0 := g.ops[k0].d.es[i].n;
    var g' := MarkNode(g, x0);
    KnownEntry(g, k0, i);
    hide EntryOk;
    forall k | k in g.ops ensures OpCore(g', k) && OpRely(g, g', k) { MarkOp(g, x0, k); }
    forall x | x in g.nodes ensures NodeOk(g', x) && NodeRely(g, g', x) {
      KnownNode(g, x);
      if x != x0 { NodeKept(g, g', x); }
      if x == x0 && g.ops[k0].st.Committed? { assert MarkedBelow(g, k0, |g.ops[k0].d.es|); }
    }
    assert Rely(g, g');
    hide Rely;
    Assemble(g, g');
  }

  /** The field is still as the LLX saw it and the update has not happened: the operation is in progress. */
  lemma PendingUpdate(g: Shared, k0: OpId) returns (q: nat)
    requires GInv(g) && k0 in g.ops && g.ops[k0].allFrozen
    ensures q < |g.ops[k0].d.es| && g.ops[k0].d.es[q].n == g.ops[k0].d.fn && EntryOk(g, k0, q) && OpCore(g, k0)
    ensures g.ops[k0].updated <==> g.nodes[g.ops[k0].d.fn].vals[g.ops[k0].d.ix] != g.ops[k0].d.oldv
  {
    KnownOp(g, k0);
    var es := g.ops[k0].d.es;
    var i :| 0 <= i < |es| && es[i].n == g.ops[k0].d.fn;
    q := i;
    KnownEntry(g, k0, q);
  }

  lemma UpdateEffect(g: Shared, k0: OpId)
    requires GInv(g) && k0 in g.ops && g.ops[k0].allFrozen && !g.ops[k0].updated
    requires var d := g.ops[k0].d; d.fn in g.nodes && d.ix < |g.nodes[d.fn].vals| && d.ix < |g.nodes[d.fn].used|
    ensures var d := g.ops[k0].d; Keeps(g, UpdateField(g, k0, d.fn, d.ix, d.newv))
  {
    var d := g.ops[k0].d;
    var g' := UpdateField(g, k0, d.fn, d.ix, d.newv);
    hide GInv, OpCore, NodeOk, NodeRely, OpRely;
    forall k | k in g.ops ensures OpCore(g', k) && OpRely(g, g', k) { UpdateOp(g, k0, k); }
    forall x | x in g.nodes ensures NodeOk(g', x) && NodeRely(g, g', x) {
      if x != d.fn { NodeKept(g, g', x); } else { UpdateNode(g, k0); }
    }
    assert Rely(g, g');
    hide Rely;
    forall k, i: nat | k in g'.ops && i < |g'.ops[k].d.es| ensures EntryOk(g', k, i) {
      if k != k0 { EntryKept(g, g', k, i); } else { UpdateEntry(g, g', k0, i); }
    }
    AssembleGInv(g');
  }

  lemma UpdateOp(g: Shared, k0: OpId, k: OpId)
    requires GInv(g) && k0 in g.ops && g.ops[k0].allFrozen && k in g.ops
    requires var d := g.ops[k0].d; d.fn in g.nodes && d.ix < |g.nodes[d.fn].vals| && d.ix < |g.nodes[d.fn].used|
    ensures var d := g.ops[k0].d; var g' := UpdateField(g, k0, d.fn, d.ix, d.newv); OpCore(g', k) && OpRely(g, g', k)
  {
    hide GInv;
    KnownOp(g, k);
  }

  lemma UpdateNode(g: Shared, k0: OpId)
    requires GInv(g) && k0 in g.ops && g.ops[k0].allFrozen && !g.ops[k0].updated
    requires var d := g.ops[k0].d; d.fn in g.nodes && d.ix < |g.nodes[d.fn].vals| && d.ix < |g.nodes[d.fn].used|
    ensures var d := g.ops[k0].d;
            var g' := UpdateField(g, k0, d.fn, d.ix, d.newv); NodeOk(g', d.fn) && NodeRely(g, g', d.fn)
  {
    hide GInv;
    var q := PendingUpdate(g, k0);
    KnownNode(g, g.ops[k0].d.fn);
  }

  lemma UpdateEntry(g: Shared, g': Shared, k0: OpId, i: nat)
    requires GInv(g) && k0 in g.ops && g.ops[k0].allFrozen && !g.ops[k0].updated && i < |g.ops[k0].d.es|
    requires var d := g.ops[k0].d; d.fn in g.nodes && d.ix < |g.nodes[d.fn].vals| && d.ix < |g.nodes[d.fn].used|
    requires var d := g.ops[k0].d; g' == UpdateField(g, k0, d.fn, d.ix, d.newv) && Rely(g, g')
    ensures EntryOk(g', k0, i)
  {
    hide GInv, Rely;
    var q := PendingUpdate(g, k0);
    KnownEntry(g, k0, i);
    EntryStable(g, g', k0, i);
  }
}
