/**
 * Every step of `help` keeps the invariant, and what it may do to nodes.
 */
module ScxSteps {
  import opened ScxModel
  import opened ScxInvariant
  import opened ScxEffects

  // ---------------------------------------------------------------- what a step may do to nodes

  ghost predicate HeldByAll(g: Shared, k: OpId)
    requires k in g.ops
  {
    forall i :: 0 <= i < |g.ops[k].d.es| ==> PtrAt(g, g.ops[k].d.es[i].n) == Tag(k)
  }

  /** Every node of `k` is as its linked LLX saw it. */
  ghost predicate SnapshotsCurrent(g: Shared, k: OpId)
    requires k in g.ops
  {
    forall i :: 0 <= i < |g.ops[k].d.es| && i < |g.ops[k].snaps| ==>
      g.ops[k].d.es[i].n in g.nodes && g.nodes[g.ops[k].d.es[i].n].vals == g.ops[k].snaps[i]
  }

  /** `k` takes effect: in progress, all nodes frozen for it and unchanged since their LLXs, one field goes from old to new. */
  ghost predicate TakesEffect(g: Shared, g1: Shared, k: OpId) {
    && k in g.ops && k in g1.ops
    && g.ops[k].st.InProgress? && g.ops[k].allFrozen && !g.ops[k].updated && g1.ops[k].updated
    && HeldByAll(g, k) && SnapshotsCurrent(g, k)
    && var d := g.ops[k].d;
    && d.fn in g.nodes && d.fn in g1.nodes && d.ix < |g.nodes[d.fn].vals|
    && g.nodes[d.fn].vals[d.ix] == d.oldv && d.oldv != d.newv
    && g1.nodes[d.fn].vals == g.nodes[d.fn].vals[d.ix := d.newv]
    && forall x :: x in g.nodes && x != d.fn ==> x in g1.nodes && g1.nodes[x].vals == g.nodes[x].vals
  }

  ghost predicate SameFields(g: Shared, g1: Shared) {
    forall x :: x in g.nodes ==> x in g1.nodes && g1.nodes[x].vals == g.nodes[x].vals
  }

  ghost predicate UpdatedBut(g: Shared, g1: Shared, ks: set<OpId>) {
    forall k :: k in g1.ops && g1.ops[k].updated && k !in ks ==> k in g.ops && g.ops[k].updated
  }

  /** Fields change only when one SCX takes effect. */
  ghost predicate FieldStep(g: Shared, g1: Shared) {
    || (SameFields(g, g1) && UpdatedBut(g, g1, {}))
    || exists k :: TakesEffect(g, g1, k) && UpdatedBut(g, g1, {k})
  }

  /** A node is frozen only for an SCX in progress. */
  ghost predicate FreezeStep(g: Shared, g1: Shared) {
    forall x :: x in g.nodes && PtrAt(g1, x) != PtrAt(g, x) ==>
      PtrAt(g1, x).Tag? && PtrAt(g1, x).k in g.ops && g.ops[PtrAt(g1, x).k].st.InProgress?
  }

  /** allFrozen is first set while every listed node holds the tag. */
  ghost predicate FrozenStep(g: Shared, g1: Shared) {
    forall k :: k in g1.ops && g1.ops[k].allFrozen && !(k in g.ops && g.ops[k].allFrozen) ==>
      g1.ops[k].st.InProgress? && HeldByAll(g1, k)
  }

  ghost predicate Lawful(g: Shared, g1: Shared) {
    FieldStep(g, g1) && FreezeStep(g, g1) && FrozenStep(g, g1)
  }

  // ---------------------------------------------------------------- one step of help

  ghost predicate GoodHelp(g: Shared, t: Tid, f: Frame, r: (Shared, HelpOut)) {
    && Keeps(g, r.0) && Lawful(g, r.0)
    && (forall u :: u in g.slots ==> SameSlot(g, r.0, u))
    && (match r.1
        case More(f1) => f1.k == f.k && f1.own == f.own && FrameOk(r.0, t, f1)
        case Done(ok) => f.k in r.0.ops && !r.0.ops[f.k].st.InProgress? && (f.own ==> ok == r.0.ops[f.k].st.Committed?))
  }

  lemma PayIsOp(g: Shared, t: Tid, f: Frame)
    requires GInv(g) && FrameOk(g, t, f) && !f.hp.Copy?
    ensures Decode(Pay(g, f)) == g.ops[f.k].d && OpCore(g, f.k)
  {
    KnownOp(g, f.k);
  }

  lemma LocalHelp(g: Shared, t: Tid, f: Frame, out: HelpOut)
    requires GInv(g) && FrameOk(g, t, f)
    requires match out
             case More(f1) => f1.k == f.k && f1.own == f.own && FrameOk(g, t, f1)
             case Done(ok) => !g.ops[f.k].st.InProgress? && (f.own ==> ok == g.ops[f.k].st.Committed?)
    ensures GoodHelp(g, t, f, (g, out))
  {
    RelyReflexive(g);
  }

  /** After a step that changed memory, the activation moves on. */
  lemma MoveHelp(g: Shared, g1: Shared, t: Tid, f: Frame, hp: HelpPc)
    requires GInv(g) && Keeps(g, g1) && FrameOk(g, t, f) && !f.hp.Copy? && !hp.Copy?
    requires t in g.slots && t in g1.slots && (f.own ==> g1.slots[t].sn == g.slots[t].sn)
    requires f.k in g1.ops && f.k.tid in g1.slots && HpOk(g1, f.(hp := hp))
    ensures FrameOk(g1, t, f.(hp := hp))
  {
    hide GInv, Rely, HpOk;
    FrameStable(g, g1, t, f);
  }

  lemma FreezeHelp(g: Shared, t: Tid, f: Frame)
    requires GInv(g) && FrameOk(g, t, f) && t in g.slots && f.hp.Freeze?
    ensures GoodHelp(g, t, f, StepHelp(g, f))
  {
    hide GInv, Rely;
    PayIsOp(g, t, f);
    var i := f.hp.i;
    var op := g.ops[f.k];
    if i >= |op.d.es| {
      LocalHelp(g, t, f, More(f.(hp := FrozenRead)));
    } else {
      KnownEntry(g, f.k, i);
      var e := op.d.es[i];
      if g.nodes[e.n].scxPtr == e.seen {
        assert i == op.frozen && CanFreeze(g, f.k);
        FreezeHelps(g, t, f);
      } else {
        LocalHelp(g, t, f, More(f.(hp := Check(i, false))));
      }
    }
  }

  lemma FreezeHelps(g: Shared, t: Tid, f: Frame)
    requires GInv(g) && FrameOk(g, t, f) && t in g.slots && f.hp == Freeze(g.ops[f.k].frozen) && CanFreeze(g, f.k)
    ensures GoodHelp(g, t, f, (FreezeNode(g, f.k, g.ops[f.k].d.es[g.ops[f.k].frozen].n), More(f.(hp := Check(g.ops[f.k].frozen, true)))))
  {
    hide GInv, Rely;
    var g1 := FreezeNode(g, f.k, g.ops[f.k].d.es[g.ops[f.k].frozen].n);
    FreezeEffect(g, f.k);
    MoveHelp(g, g1, t, f, Check(f.hp.i, true));
    assert SameFields(g, g1);
  }

  lemma CheckHelp(g: Shared, t: Tid, f: Frame)
    requires GInv(g) && FrameOk(g, t, f) && t in g.slots && f.hp.Check?
    ensures GoodHelp(g, t, f, StepHelp(g, f))
  {
    hide GInv, Rely;
    PayIsOp(g, t, f);
    var i := f.hp.i;
    KnownEntry(g, f.k, i);
    KnownNode(g, g.ops[f.k].d.es[i].n);
    LocalHelp(g, t, f, StepHelp(g, f).1);
  }

  lemma FrozenHelp(g: Shared, t: Tid, f: Frame)
    requires GInv(g) && FrameOk(g, t, f) && t in g.slots && (f.hp.FrozenRead? || f.hp.FrozenCas?)
    ensures GoodHelp(g, t, f, StepHelp(g, f))
  {
    hide GInv, Rely;
    PayIsOp(g, t, f);
    if f.hp.FrozenCas? && SameMutables(g.slots[f.k.tid], f.hp.v) {
      FrozenHelps(g, t, f);
    } else {
      LocalHelp(g, t, f, StepHelp(g, f).1);
    }
  }

  lemma FrozenHelps(g: Shared, t: Tid, f: Frame)
    requires GInv(g) && FrameOk(g, t, f) && t in g.slots && f.hp.FrozenCas? && SameMutables(g.slots[f.k.tid], f.hp.v)
    ensures GoodHelp(g, t, f, (SetAllFrozen(g, f.k), More(f.(hp := Mark(0)))))
  {
    hide GInv, Rely;
    var g1 := SetAllFrozen(g, f.k);
    KnownOp(g, f.k);
    AllFrozenEffect(g, f.k);
    MoveHelp(g, g1, t, f, Mark(0));
    assert SameFields(g, g1);
    forall i | 0 <= i < |g.ops[f.k].d.es| ensures PtrAt(g1, g.ops[f.k].d.es[i].n) == Tag(f.k) { KnownEntry(g, f.k, i); }
    assert HeldByAll(g1, f.k);
  }

  lemma AbortHelp(g: Shared, t: Tid, f: Frame)
    requires GInv(g) && FrameOk(g, t, f) && t in g.slots && (f.hp.ReadFrozen? || f.hp.AbortRead? || f.hp.AbortCas?)
    ensures GoodHelp(g, t, f, StepHelp(g, f))
  {
    hide GInv, Rely;
    PayIsOp(g, t, f);
    if f.hp.AbortCas? && SameMutables(g.slots[f.k.tid], f.hp.v) {
      var g1 := SetState(g, f.k, Aborted);
      AbortEffect(g, f.k);
      assert SameFields(g, g1);
    } else {
      LocalHelp(g, t, f, StepHelp(g, f).1);
    }
  }

  lemma CommitHelp(g: Shared, t: Tid, f: Frame)
    requires GInv(g) && FrameOk(g, t, f) && t in g.slots && (f.hp.CommitRead? || f.hp.CommitCas?)
    ensures GoodHelp(g, t, f, StepHelp(g, f))
  {
    hide GInv, Rely;
    PayIsOp(g, t, f);
    if f.hp.CommitCas? && SameMutables(g.slots[f.k.tid], f.hp.v) {
      var g1 := SetState(g, f.k, Committed);
      CommitEffect(g, f.k);
      assert SameFields(g, g1);
    } else {
      LocalHelp(g, t, f, StepHelp(g, f).1);
    }
  }

  lemma MarkHelp(g: Shared, t: Tid, f: Frame)
    requires GInv(g) && FrameOk(g, t, f) && t in g.slots && f.hp.Mark?
    ensures GoodHelp(g, t, f, StepHelp(g, f))
  {
    hide GInv, Rely;
    PayIsOp(g, t, f);
    var i := f.hp.i;
    var es := g.ops[f.k].d.es;
    if i < |es| && es[i].fin {
      MarkHelps(g, t, f);
    } else {
      LocalHelp(g, t, f, StepHelp(g, f).1);
    }
  }

  lemma MarkHelps(g: Shared, t: Tid, f: Frame)
    requires GInv(g) && FrameOk(g, t, f) && t in g.slots && f.hp.Mark? && f.hp.i < |g.ops[f.k].d.es| && g.ops[f.k].d.es[f.hp.i].fin
    requires g.ops[f.k].d.es[f.hp.i].n in g.nodes
    ensures GoodHelp(g, t, f, (MarkNode(g, g.ops[f.k].d.es[f.hp.i].n), More(f.(hp := Mark(f.hp.i + 1)))))
  {
    hide GInv, Rely;
    var i := f.hp.i;
    var g1 := MarkNode(g, g.ops[f.k].d.es[i].n);
    KnownEntry(g, f.k, i);
    assert g.ops[f.k].st.Committed? ==> MarkedFor(g, f.k, g.ops[f.k].d.es[i].n);
    MarkEffect(g, f.k, i);
    MarkedStable(g, g1, f.k, i);
    MoveHelp(g, g1, t, f, Mark(i + 1));
    assert SameFields(g, g1);
  }

  lemma UpdateHelp(g: Shared, t: Tid, f: Frame)
    requires GInv(g) && FrameOk(g, t, f) && t in g.slots && f.hp.Update?
    ensures GoodHelp(g, t, f, StepHelp(g, f))
  {
    hide GInv, Rely;
    PayIsOp(g, t, f);
    var q := PendingUpdate(g, f.k);
    if g.ops[f.k].updated {
      LocalHelp(g, t, f, StepHelp(g, f).1);
    } else {
      UpdateHelps(g, t, f);
    }
  }

  lemma UpdateHelps(g: Shared, t: Tid, f: Frame)
    requires GInv(g) && FrameOk(g, t, f) && t in g.slots && f.hp.Update? && !g.ops[f.k].updated
    requires var d := g.ops[f.k].d; d.fn in g.nodes && d.ix < |g.nodes[d.fn].vals| && d.ix < |g.nodes[d.fn].used|
    ensures var d := g.ops[f.k].d; GoodHelp(g, t, f, (UpdateField(g, f.k, d.fn, d.ix, d.newv), More(f.(hp := CommitRead))))
  {
    hide GInv, Rely;
    var d := g.ops[f.k].d;
    var g1 := UpdateField(g, f.k, d.fn, d.ix, d.newv);
    UpdateEffect(g, f.k);
    MarkedStable(g, g1, f.k, |d.es|);
    MoveHelp(g, g1, t, f, CommitRead);
    UpdateTakesEffect(g, f.k);
    assert TakesEffect(g, g1, f.k) && UpdatedBut(g, g1, {f.k});
  }

  lemma UpdateTakesEffect(g: Shared, k: OpId)
    requires GInv(g) && k in g.ops && g.ops[k].allFrozen && !g.ops[k].updated
    requires var d := g.ops[k].d; d.fn in g.nodes && d.ix < |g.nodes[d.fn].vals| && d.ix < |g.nodes[d.fn].used|
    ensures TakesEffect(g, UpdateField(g, k, g.ops[k].d.fn, g.ops[k].d.ix, g.ops[k].d.newv), k)
  {
    hide GInv;
    var q := PendingUpdate(g, k);
    forall i | 0 <= i < |g.ops[k].d.es|
      ensures PtrAt(g, g.ops[k].d.es[i].n) == Tag(k) && g.ops[k].d.es[i].n in g.nodes
      ensures g.nodes[g.ops[k].d.es[i].n].vals == g.ops[k].snaps[i]
    {
      KnownEntry(g, k, i);
    }
  }

  lemma CopyHelp(g: Shared, t: Tid, f: Frame)
    requires GInv(g) && FrameOk(g, t, f) && t in g.slots && f.hp.Copy?
    ensures GoodHelp(g, t, f, StepHelp(g, f))
  {
    hide GInv, Rely;
    KnownOp(g, f.k);
    LocalHelp(g, t, f, StepHelp(g, f).1);
  }

  lemma HelpKeeps(g: Shared, t: Tid, f: Frame)
    requires GInv(g) && FrameOk(g, t, f) && t in g.slots
    ensures GoodHelp(g, t, f, StepHelp(g, f))
  {
    hide GInv, GoodHelp, FrameOk, StepHelp;
    match f.hp
    case Copy => CopyHelp(g, t, f);
    case Freeze(_) => FreezeHelp(g, t, f);
    case Check(_, _) => CheckHelp(g, t, f);
    case ReadFrozen => AbortHelp(g, t, f);
    case AbortRead => AbortHelp(g, t, f);
    case AbortCas(_) => AbortHelp(g, t, f);
    case FrozenRead => FrozenHelp(g, t, f);
    case FrozenCas(_) => FrozenHelp(g, t, f);
    case Mark(_) => MarkHelp(g, t, f);
    case Update => UpdateHelp(g, t, f);
    case CommitRead => CommitHelp(g, t, f);
    case CommitCas(_) => CommitHelp(g, t, f);
  }
}
