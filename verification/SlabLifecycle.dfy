/**
 Slot lifecycles and references: in every reachable state the contents of a slot, its
 packed lifecycle, the outstanding references to it and its place agree.
 */
module SlabLifecycle {
  import opened Options
  import opened Packing
  import opened SlabMachine
  import opened SlabLists

  /** A slot ready to be allocated. */
  ghost predicate Vacant(slot: Slot) {
    slot.life.state == Unallocated && slot.life.refcount == 0 && slot.contents.None?
  }

  /** What the holder of a slot may rely on at each point of its operation. */
  ghost predicate HeldOk(slot: Slot, pc: Pc) {
    && (Unborn(pc) ==> slot.life == Lifecycle(Allocated, pc.gen, 0) && pc.gen > 0)
    && (pc.ClearLoad? || pc.ClearStore? ==> slot.life.state != Allocated && slot.life.refcount == 0)
    && (!Unborn(pc) && !pc.ClearLoad? && !pc.ClearStore? ==> slot.life.state == Unallocated && slot.life.refcount == 0)
    && (pc.AllocStore? || pc.ClearStore? ==> pc.life == slot.life)
    && (Clearing(pc) || Pushing(pc) ==> slot.life.generation > 0)
    && (pc.AllocProcessor? ==> slot.contents == Some(pc.v))
    && (slot.contents.Some? <==> pc.AllocProcessor? || pc.ClearLoad? || pc.ClearStore? || pc.ClearContents?)
  }

  /** Allocation has raised the generation but not yet handed out the index. */
  predicate Unborn(pc: Pc) {
    pc.AllocWrite? || pc.AllocProcessor?
  }

  /** A slot holding an entry that was handed to a client and is not yet being cleared. */
  ghost predicate LiveOk(s: Slab, slot: Slot, i: nat) {
    var x := Idx(slot.life.generation, i);
    && slot.life.state != Unallocated
    && (slot.life.state == Zombie ==> slot.life.refcount > 0)
    && slot.life.generation > 0 && x in s.issued && slot.contents == Some(s.issued[x])
  }

  ghost predicate SlotOk(s: Slab, g: Ghost, i: nat)
    requires i < |s.slots| == |g.place|
  {
    match g.place[i]
    case On(_) => Vacant(s.slots[i])
    case Held(a) => HeldOk(s.slots[i], At(s.pcs, a))
    case Live => LiveOk(s, s.slots[i], i)
  }

  function RefsOn(refs: map<RefId, Idx>, i: nat): set<RefId> {
    set r | r in refs && refs[r].index == i
  }

  ghost predicate Counted(s: Slab) {
    forall i :: 0 <= i < |s.slots| ==> s.slots[i].life.refcount == |RefsOn(s.refs, i)|
  }

  /** An outstanding reference names a live slot of its own generation. */
  ghost predicate RefOk(s: Slab, g: Ghost, x: Idx)
    requires |s.slots| == |g.place|
  {
    x.index < |s.slots| && g.place[x.index] == Live && s.slots[x.index].life.generation == x.generation
  }

  ghost predicate IssuedOk(s: Slab, g: Ghost, x: Idx)
    requires |s.slots| == |g.place|
  {
    && x.index < |s.slots| && 0 < x.generation <= s.slots[x.index].life.generation
    && (g.place[x.index].Held? && Unborn(At(s.pcs, g.place[x.index].agent)) ==>
          x.generation < s.slots[x.index].life.generation)
  }

  ghost predicate ClientOk(s: Slab, a: Agent, pc: Pc) {
    && (pc.GetLoad? || pc.GetCas? || pc.RemoveLoad? || pc.RemoveCas? ==>
          pc.idx.index < |s.slots| && (pc.idx in s.issued || pc.idx.generation == 0))
    && (pc.DropLoad? || pc.DropCas? ==>
          pc.ref in s.refs && s.refs[pc.ref] == pc.idx && pc.ref in s.dropping && s.dropping[pc.ref] == a
              && !ReleasePanics(pc))
  }

  ghost predicate Clients(s: Slab) {
    forall a :: ClientOk(s, a, At(s.pcs, a))
  }

  ghost predicate Lifecycles(s: Slab, g: Ghost) {
    && |s.slots| == |g.place|
    && (forall i :: 0 <= i < |s.slots| ==> SlotOk(s, g, i))
    && Counted(s)
    && (forall r :: r in s.refs ==> RefOk(s, g, s.refs[r]))
    && (forall x :: x in s.issued ==> IssuedOk(s, g, x))
    && Clients(s)
  }

  // ---- What `get` and `remove` change ----

  /** Agent `a` moves, and at most the lifecycle of slot `i` is rewritten within its generation. */
  ghost predicate Rewrites(s: Slab, t: Slab, a: Agent, i: nat) {
    && Moves(s, t, a, At(t.pcs, a)) && t.issued == s.issued
    && t.head == s.head && t.locals == s.locals && t.tag == s.tag
    && i < |s.slots| == |t.slots|
    && (forall j :: 0 <= j < |s.slots| && j != i ==> t.slots[j] == s.slots[j])
    && t.slots[i].next == s.slots[i].next && t.slots[i].contents == s.slots[i].contents
    && t.slots[i].life.generation == s.slots[i].life.generation
  }

  lemma MoveRewrites(s: Slab, t: Slab, a: Agent, q: Pc, i: nat)
    requires t == Go(s, a, q) && i < |s.slots|
    ensures Rewrites(s, t, a, i)
  {
  }

  lemma MarkRewrites(s: Slab, t: Slab, a: Agent, q: Pc, i: nat, life: Lifecycle)
    requires i < |s.slots| && life.generation == s.slots[i].life.generation
    requires t.pcs == Put(s.pcs, a, q) && t.slots == s.slots[i := s.slots[i].(life := life)]
    requires t.head == s.head && t.locals == s.locals && t.tag == s.tag && t.issued == s.issued
    ensures Rewrites(s, t, a, i)
  {
  }

  lemma GetRewrites(s: Slab, a: Agent, name: RefId)
    requires (At(s.pcs, a).GetLoad? || At(s.pcs, a).GetCas?) && GetStep(s, a, At(s.pcs, a), name).Then?
    ensures Rewrites(s, GetStep(s, a, At(s.pcs, a), name).state, a, At(s.pcs, a).idx.index)
  {
    var o, i := GetStep(s, a, At(s.pcs, a), name), At(s.pcs, a).idx.index;
    if o.event.Acquired? {
      MarkRewrites(s, o.state, a, GetDone(Some(name)), i, o.state.slots[i].life);
    } else {
      MoveRewrites(s, o.state, a, At(o.state.pcs, a), i);
    }
  }

  lemma RemoveRewrites(s: Slab, a: Agent, spurious: bool)
    requires (At(s.pcs, a).RemoveLoad? || At(s.pcs, a).RemoveCas?) && RemoveStep(s, a, At(s.pcs, a), spurious).Then?
    ensures Rewrites(s, RemoveStep(s, a, At(s.pcs, a), spurious).state, a, At(s.pcs, a).idx.index)
  {
    var o, i := RemoveStep(s, a, At(s.pcs, a), spurious), At(s.pcs, a).idx.index;
    if o.event.Removed? {
      MarkRewrites(s, o.state, a, At(o.state.pcs, a), i, o.state.slots[i].life);
    } else {
      MoveRewrites(s, o.state, a, At(o.state.pcs, a), i);
    }
  }

  // ---- Counting references ----

  lemma RefsOnAdd(refs: map<RefId, Idx>, r: RefId, x: Idx)
    requires r !in refs
    ensures forall i :: |RefsOn(refs[r := x], i)| == |RefsOn(refs, i)| + if i == x.index then 1 else 0
  {
    forall i: nat
      ensures |RefsOn(refs[r := x], i)| == |RefsOn(refs, i)| + if i == x.index then 1 else 0
    {
      assert RefsOn(refs[r := x], i) == RefsOn(refs, i) + if i == x.index then {r} else {};
    }
  }

  lemma RefsOnRemove(refs: map<RefId, Idx>, r: RefId)
    requires r in refs
    ensures forall i :: |RefsOn(refs - {r}, i)| == |RefsOn(refs, i)| - if i == refs[r].index then 1 else 0
  {
    forall i: nat
      ensures |RefsOn(refs - {r}, i)| == |RefsOn(refs, i)| - if i == refs[r].index then 1 else 0
    {
      assert RefsOn(refs, i) == RefsOn(refs - {r}, i) + if i == refs[r].index then {r} else {};
    }
  }

  lemma RefsOnMember(refs: map<RefId, Idx>, r: RefId)
    requires r in refs
    ensures |RefsOn(refs, refs[r].index)| > 0
  {
    assert r in RefsOn(refs, refs[r].index);
  }

  // ---- Steps and the lifecycle invariant ----

  /** Agents other than `a` keep what they rely on. */
  lemma KeepClients(s: Slab, t: Slab, a: Agent, q: Pc)
    requires Clients(s) && Moves(s, t, a, q) && ClientOk(t, a, q)
    requires |t.slots| == |s.slots| && s.issued.Keys <= t.issued.Keys
    requires forall r :: r in s.dropping && s.dropping[r] != a && r in s.refs ==>
                           r in t.refs && t.refs[r] == s.refs[r] && r in t.dropping && t.dropping[r] == s.dropping[r]
    ensures Clients(t)
  {
    forall b
      ensures ClientOk(t, b, At(t.pcs, b))
    {
      assert ClientOk(s, b, At(s.pcs, b));
    }
  }

  /** The slots, when only program counters change. */
  lemma QuietSlots(s: Slab, g: Ghost, t: Slab, a: Agent, q: Pc)
    requires Placed(s, g) && Lifecycles(s, g)
    requires Moves(s, t, a, q) && Holding(q) == Holding(At(s.pcs, a))
    requires |t.slots| == |s.slots| && t.issued == s.issued
    requires forall i :: 0 <= i < |s.slots| ==>
             t.slots[i].life == s.slots[i].life && t.slots[i].contents == s.slots[i].contents
    requires Holding(q).Some? ==> HeldOk(s.slots[Holding(q).value], q)
    ensures forall i :: 0 <= i < |t.slots| ==> SlotOk(t, g, i)
  {
    forall i | 0 <= i < |t.slots|
      ensures SlotOk(t, g, i)
    {
      assert SlotOk(s, g, i);
    }
  }

  /** Only program counters change, and slot contents that no invariant reads. */
  lemma QuietLifecycles(s: Slab, g: Ghost, t: Slab, a: Agent, q: Pc)
    requires Placed(s, g) && Lifecycles(s, g)
    requires Moves(s, t, a, q) && Holding(q) == Holding(At(s.pcs, a))
    requires |t.slots| == |s.slots| && t.refs == s.refs && t.issued == s.issued
    requires (forall r :: r in s.dropping ==> r in t.dropping && t.dropping[r] == s.dropping[r])
    requires forall i :: 0 <= i < |s.slots| ==>
             t.slots[i].life == s.slots[i].life && t.slots[i].contents == s.slots[i].contents
    requires Holding(q).Some? ==> Unborn(q) == Unborn(At(s.pcs, a)) && HeldOk(s.slots[Holding(q).value], q)
    requires ClientOk(t, a, q)
    ensures Lifecycles(t, g)
  {
    QuietSlots(s, g, t, a, q);
    forall x | x in t.issued
      ensures IssuedOk(t, g, x)
    {
      assert IssuedOk(s, g, x);
    }
    forall r | r in t.refs
      ensures RefOk(t, g, t.refs[r])
    {
      assert RefOk(s, g, s.refs[r]);
    }
    KeepClients(s, t, a, q);
  }

  /** The slots, when agent `a` rewrites the one it holds. */
  lemma HolderSlots(s: Slab, g: Ghost, t: Slab, a: Agent, q: Pc, i: nat)
    requires Placed(s, g) && Lifecycles(s, g) && i < |s.slots| && g.place[i] == Held(a)
    requires Holding(At(s.pcs, a)) == Holding(q) == Some(i) && Moves(s, t, a, q)
    requires |t.slots| == |s.slots| && t.issued == s.issued && HeldOk(t.slots[i], q)
    requires forall j :: 0 <= j < |s.slots| && j != i ==> t.slots[j] == s.slots[j]
    ensures forall j :: 0 <= j < |t.slots| ==> SlotOk(t, g, j)
  {
    forall j | 0 <= j < |t.slots|
      ensures SlotOk(t, g, j)
    {
      assert SlotOk(s, g, j);
    }
  }

  /** The holder of slot `i` rewrites its lifecycle or contents and keeps holding it. */
  lemma HolderLifecycles(s: Slab, g: Ghost, t: Slab, a: Agent, q: Pc, i: nat)
    requires Placed(s, g) && Lifecycles(s, g)
    requires Holding(At(s.pcs, a)) == Holding(q) == Some(i) && i < |s.slots|
    requires Moves(s, t, a, q)
    requires |t.slots| == |s.slots| && t.refs == s.refs && t.issued == s.issued && t.dropping == s.dropping
    requires forall j :: 0 <= j < |s.slots| && j != i ==> t.slots[j] == s.slots[j]
    requires t.slots[i].life.refcount == s.slots[i].life.refcount
    requires || (t.slots[i].life.generation == s.slots[i].life.generation && (Unborn(q) ==> Unborn(At(s.pcs, a))))
             || t.slots[i].life.generation > s.slots[i].life.generation
    requires HeldOk(t.slots[i], q)
    ensures Lifecycles(t, g)
  {
    HolderSlots(s, g, t, a, q, i);
    forall x | x in t.issued
      ensures IssuedOk(t, g, x)
    {
      assert IssuedOk(s, g, x);
    }
    forall r | r in t.refs
      ensures RefOk(t, g, t.refs[r])
    {
      assert RefOk(s, g, s.refs[r]);
    }
    KeepClients(s, t, a, q);
  }

  /** A slot goes from a free list to agent `a`, or from the agent to a free list. */
  lemma ListLifecycles(s: Slab, g: Ghost, t: Slab, h: Ghost, a: Agent, q: Pc, i: nat, p: Place)
    requires Placed(s, g) && Lifecycles(s, g)
    requires i < |s.slots| && h.place == g.place[i := p]
    requires Moves(s, t, a, q)
    requires |t.slots| == |s.slots| && t.refs == s.refs && t.issued == s.issued && t.dropping == s.dropping
    requires forall j :: 0 <= j < |s.slots| ==>
             t.slots[j].life == s.slots[j].life && t.slots[j].contents == s.slots[j].contents
    requires || (g.place[i].On? && p == Held(a) && Holding(At(s.pcs, a)).None? && q.AllocLoad? && q.i == i)
             || (g.place[i] == Held(a) && p.On? && Pushing(At(s.pcs, a)) && (q.RemoveDone? || q.DropDone?))
    ensures Lifecycles(t, h)
  {
    forall j | 0 <= j < |t.slots|
      ensures SlotOk(t, h, j)
    {
      assert SlotOk(s, g, j);
    }
    forall x | x in t.issued
      ensures IssuedOk(t, h, x)
    {
      assert IssuedOk(s, g, x);
    }
    forall r | r in t.refs
      ensures RefOk(t, h, t.refs[r])
    {
      assert RefOk(s, g, s.refs[r]);
    }
    KeepClients(s, t, a, q);
  }

  /** The slots, when agent `a` hands out the index of a new entry. */
  lemma PublishSlots(s: Slab, g: Ghost, t: Slab, h: Ghost, a: Agent, cpu: Cpu)
    requires Placed(s, g) && Lifecycles(s, g)
    requires At(s.pcs, a).AllocProcessor?
    requires var o := AllocStep(s, a, At(s.pcs, a), cpu); o.Then? && t == o.state && h == Track(g, a, o.event)
    requires var p := At(s.pcs, a); Idx(p.gen, p.i) !in s.issued
    ensures |t.slots| == |h.place| && forall j :: 0 <= j < |t.slots| ==> SlotOk(t, h, j)
  {
    assert SlotOk(s, g, At(s.pcs, a).i);
    forall j | 0 <= j < |t.slots|
      ensures SlotOk(t, h, j)
    {
      assert SlotOk(s, g, j);
    }
  }

  /** The last step of `insert`: the entry becomes live and its index is handed out. */
  lemma PublishLifecycles(s: Slab, g: Ghost, t: Slab, h: Ghost, a: Agent, cpu: Cpu)
    requires Placed(s, g) && Lifecycles(s, g)
    requires At(s.pcs, a).AllocProcessor?
    requires var o := AllocStep(s, a, At(s.pcs, a), cpu); o.Then? && t == o.state && h == Track(g, a, o.event)
    ensures Lifecycles(t, h)
    ensures var p := At(s.pcs, a); Idx(p.gen, p.i) !in s.issued
  {
    var p := At(s.pcs, a);
    var i := p.i;
    assert SlotOk(s, g, i);
    assert Idx(p.gen, i) in s.issued ==> IssuedOk(s, g, Idx(p.gen, i));
    PublishSlots(s, g, t, h, a, cpu);
    forall x | x in t.issued
      ensures IssuedOk(t, h, x)
    {
      assert x in s.issued ==> IssuedOk(s, g, x);
    }
    forall r | r in t.refs
      ensures RefOk(t, h, t.refs[r])
    {
      assert RefOk(s, g, s.refs[r]);
    }
    KeepClients(s, t, a, Inserted(Idx(p.gen, i)));
  }

  /** A slot that an issued index still matches as Allocated is live. */
  lemma MatchedIsLive(s: Slab, g: Ghost, x: Idx)
    requires Placed(s, g) && Lifecycles(s, g)
    requires x.index < |s.slots| && (x in s.issued || x.generation == 0)
    requires s.slots[x.index].life.generation == x.generation && s.slots[x.index].life.state == Allocated
    ensures g.place[x.index] == Live && x in s.issued
  {
    assert SlotOk(s, g, x.index);
    assert x in s.issued ==> IssuedOk(s, g, x);
  }

  /** The slots, when agent `a` acquires a reference. */
  lemma AcquireSlots(s: Slab, g: Ghost, t: Slab, a: Agent, name: RefId)
    requires Placed(s, g) && Lifecycles(s, g)
    requires At(s.pcs, a).GetCas? && g.place[At(s.pcs, a).idx.index] == Live
    requires var o := GetStep(s, a, At(s.pcs, a), name); o.Then? && o.event.Acquired? && t == o.state
    ensures |t.slots| == |s.slots| && forall j :: 0 <= j < |t.slots| ==> SlotOk(t, g, j)
  {
    forall j | 0 <= j < |t.slots|
      ensures SlotOk(t, g, j)
    {
      assert SlotOk(s, g, j);
    }
  }

  /** A successful `get` adds one reference and one to the count. */
  lemma AcquireLifecycles(s: Slab, g: Ghost, t: Slab, a: Agent, name: RefId)
    requires Placed(s, g) && Lifecycles(s, g)
    requires At(s.pcs, a).GetCas?
    requires var o := GetStep(s, a, At(s.pcs, a), name); o.Then? && o.event.Acquired? && t == o.state
    ensures Lifecycles(t, g)
  {
    var p := At(s.pcs, a);
    assert ClientOk(s, a, p);
    MatchedIsLive(s, g, p.idx);
    RefsOnAdd(s.refs, name, p.idx);
    AcquireSlots(s, g, t, a, name);
    forall x | x in t.issued
      ensures IssuedOk(t, g, x)
    {
      assert IssuedOk(s, g, x);
    }
    forall r | r in t.refs
      ensures RefOk(t, g, t.refs[r])
    {
      assert r in s.refs ==> RefOk(s, g, s.refs[r]);
    }
    KeepClients(s, t, a, GetDone(Some(name)));
  }

  /** Agent `a` rewrites the lifecycle of live slot `i`, and possibly drops a reference of its own. */
  ghost predicate Touches(s: Slab, t: Slab, a: Agent, q: Pc, i: nat) {
    && i < |s.slots| == |t.slots| && Moves(s, t, a, q) && t.issued == s.issued
    && t.head == s.head && t.locals == s.locals && t.tag == s.tag
    && (forall j :: 0 <= j < |s.slots| && j != i ==> t.slots[j] == s.slots[j])
    && t.slots[i].next == s.slots[i].next
    && t.slots[i].life.generation == s.slots[i].life.generation && t.slots[i].contents == s.slots[i].contents
    && (forall r :: r in t.refs ==> r in s.refs && t.refs[r] == s.refs[r])
    && (forall r :: r in s.dropping && s.dropping[r] != a && r in s.refs ==>
          r in t.refs && t.refs[r] == s.refs[r] && r in t.dropping && t.dropping[r] == s.dropping[r])
  }

  lemma LiveLifecycles(s: Slab, g: Ghost, t: Slab, a: Agent, q: Pc, i: nat)
    requires Placed(s, g) && Lifecycles(s, g)
    requires Touches(s, t, a, q, i) && Counted(t)
    requires g.place[i] == Live && Holding(At(s.pcs, a)).None? && (q.RemoveDone? || q.DropDone?)
    requires LiveOk(t, t.slots[i], i)
    ensures Lifecycles(t, g)
  {
    forall j | 0 <= j < |t.slots|
      ensures SlotOk(t, g, j)
    {
      assert SlotOk(s, g, j);
    }
    forall x | x in t.issued
      ensures IssuedOk(t, g, x)
    {
      assert IssuedOk(s, g, x);
    }
    forall r | r in t.refs
      ensures RefOk(t, g, t.refs[r])
    {
      RefsOnMember(t.refs, r);
      assert RefOk(s, g, s.refs[r]);
    }
    KeepClients(s, t, a, q);
  }

  lemma SeizeLifecycles(s: Slab, g: Ghost, t: Slab, h: Ghost, a: Agent, q: Pc, i: nat)
    requires Placed(s, g) && Lifecycles(s, g)
    requires Touches(s, t, a, q, i) && Counted(t)
    requires g.place[i] == Live && Holding(At(s.pcs, a)).None? && q.ClearLoad? && q.i == i
    requires h.place == g.place[i := Held(a)] && HeldOk(t.slots[i], q)
    ensures Lifecycles(t, h)
  {
    forall j | 0 <= j < |t.slots|
      ensures SlotOk(t, h, j)
    {
      assert SlotOk(s, g, j);
    }
    forall x | x in t.issued
      ensures IssuedOk(t, h, x)
    {
      assert IssuedOk(s, g, x);
    }
    forall r | r in t.refs
      ensures RefOk(t, h, t.refs[r])
    {
      RefsOnMember(t.refs, r);
      assert RefOk(s, g, s.refs[r]);
    }
    KeepClients(s, t, a, q);
  }

  lemma ReleaseCounts(s: Slab, t: Slab, a: Agent)
    requires Counted(s) && At(s.pcs, a).DropCas?
    requires var p := At(s.pcs, a); p.ref in s.refs && s.refs[p.ref] == p.idx
    requires var o := DropStep(s, a, At(s.pcs, a)); o.Then? && o.event.Released? && t == o.state
    ensures Counted(t)
  {
    RefsOnRemove(s.refs, At(s.pcs, a).ref);
  }

  /** The slot of a release about to succeed is live, and one reference goes. */
  lemma ReleaseTouches(s: Slab, g: Ghost, t: Slab, a: Agent)
    requires Placed(s, g) && Lifecycles(s, g) && At(s.pcs, a).DropCas?
    requires var o := DropStep(s, a, At(s.pcs, a)); o.Then? && o.event.Released? && t == o.state
    ensures var p := At(s.pcs, a);
            && g.place[p.idx.index] == Live && p.idx in s.issued && Counted(t)
            && if DropStep(s, a, p).event.clears
               then Touches(s, t, a, ClearLoad(p.idx.index, ByDrop), p.idx.index)
                   && HeldOk(t.slots[p.idx.index], ClearLoad(p.idx.index, ByDrop))
               else Touches(s, t, a, DropDone, p.idx.index) && LiveOk(t, t.slots[p.idx.index], p.idx.index)
  {
    var p := At(s.pcs, a);
    assert ClientOk(s, a, p);
    assert RefOk(s, g, s.refs[p.ref]);
    assert SlotOk(s, g, p.idx.index);
    ReleaseCounts(s, t, a);
  }

  /** What a successful `remove` finds and leaves. */
  lemma MarkShape(s: Slab, a: Agent, spurious: bool)
    requires At(s.pcs, a).RemoveCas?
    requires var o := RemoveStep(s, a, At(s.pcs, a), spurious); o.Then? && o.event.Removed?
    ensures var o, x := RemoveStep(s, a, At(s.pcs, a), spurious), At(s.pcs, a).idx;
            var life, t := s.slots[x.index].life, o.state;
            && life.generation == x.generation && life.state == Allocated && (o.event.clears <==> life.refcount == 0)
            && Rewrites(s, t, a, x.index) && t.refs == s.refs && t.dropping == s.dropping
            && t.slots[x.index].life == life.(state := if o.event.clears then Unallocated else Zombie)
            && At(t.pcs, a) == if o.event.clears then ClearLoad(x.index, ByRemove) else RemoveDone(true)
  {
    RemoveRewrites(s, a, spurious);
  }

  /** The slot of a remove about to succeed is live. */
  lemma MarkTouches(s: Slab, g: Ghost, t: Slab, a: Agent, spurious: bool)
    requires Placed(s, g) && Lifecycles(s, g) && At(s.pcs, a).RemoveCas?
    requires var o := RemoveStep(s, a, At(s.pcs, a), spurious); o.Then? && o.event.Removed? && t == o.state
    ensures var p := At(s.pcs, a);
            && g.place[p.idx.index] == Live && p.idx in s.issued && Counted(t)
            && if RemoveStep(s, a, p, spurious).event.clears
               then Touches(s, t, a, ClearLoad(p.idx.index, ByRemove), p.idx.index)
                   && HeldOk(t.slots[p.idx.index], ClearLoad(p.idx.index, ByRemove))
               else Touches(s, t, a, RemoveDone(true), p.idx.index) && LiveOk(t, t.slots[p.idx.index], p.idx.index)
  {
    var p := At(s.pcs, a);
    assert ClientOk(s, a, p);
    MarkShape(s, a, spurious);
    MatchedIsLive(s, g, p.idx);
    assert SlotOk(s, g, p.idx.index);
  }

  /** A release in progress cannot hit the panics of `drop_reference`. */
  lemma DropLifecycles(s: Slab, g: Ghost, a: Agent)
    requires Placed(s, g) && Lifecycles(s, g)
    requires At(s.pcs, a).DropLoad? || At(s.pcs, a).DropCas?
    ensures var x := At(s.pcs, a).idx;
            && x.index < |s.slots| && s.slots[x.index].life.generation == x.generation
            && s.slots[x.index].life.state != Unallocated && s.slots[x.index].life.refcount > 0
  {
    var p := At(s.pcs, a);
    assert ClientOk(s, a, p);
    assert RefOk(s, g, s.refs[p.ref]);
    assert SlotOk(s, g, p.idx.index);
    RefsOnMember(s.refs, p.ref);
  }
}
