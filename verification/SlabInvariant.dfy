/**
 The invariant of the slab and its preservation by every step. What keeps a stalled
 pop safe is stated separately: either every entry of the global list carries a tag
 below the counter, or the slab has a single slot.
 */
module SlabInvariant {
  import opened Options
  import opened Packing
  import opened SlabMachine
  import opened SlabLists
  import opened SlabLifecycle

  function Stack(g: Ghost): seq<Word> {
    ListOf(g.lists, Global)
  }

  /**
   A pop in progress holds an entry that was once on the list, and while that entry is
   still on the list the `next` it read is current. A push in progress holds an entry
   that was never on the list.
   */
  ghost predicate TagOk(s: Slab, g: Ghost, pc: Pc) {
    && (pc.PopNext? || pc.PopCas? ==> pc.top in g.seen)
    && (pc.PopCas? && pc.top in Stack(g) ==>
          pc.top.Entry? && pc.top.index < |s.slots| && pc.next == s.slots[pc.top.index].next)
    && (pc.PushLoad? || pc.PushLink? || pc.PushCas? ==> pc.entry.Entry? && pc.entry.tag < s.tag && pc.entry !in g.seen)
  }

  ghost predicate Fresh(s: Slab, g: Ghost) {
    && (forall w :: w in g.seen ==> w.Entry? && w.index < |s.slots| && w.tag < s.tag)
    && (forall w :: w in Stack(g) ==> w in g.seen)
    && (forall a :: TagOk(s, g, At(s.pcs, a)))
  }

  ghost predicate SingleOk(pc: Pc) {
    && (pc.PopNext? || pc.PopCas? ==> pc.top.Entry? && pc.top.index == 0)
    && (pc.PopCas? ==> pc.next == Empty)
    && (pc.PushLink? || pc.PushCas? ==> pc.top == Empty)
  }

  ghost predicate Single(s: Slab) {
    && |s.slots| == 1 && s.slots[0].next == Empty
    && (forall a :: SingleOk(At(s.pcs, a)))
  }

  ghost predicate Tags(s: Slab, g: Ghost) {
    Fresh(s, g) || Single(s)
  }

  ghost predicate Inv(s: Slab, g: Ghost) {
    Owned(s, g) && Lifecycles(s, g) && Tags(s, g)
  }

  // ---- Tags ----

  /** A pop whose exchange succeeds carries the current `next` of the top slot. */
  lemma PopIsCurrent(s: Slab, g: Ghost, a: Agent)
    requires Owned(s, g) && Tags(s, g)
    ensures PopOk(s, At(s.pcs, a))
  {
    var pc := At(s.pcs, a);
    if pc.PopCas? && s.head == pc.top {
      assert Chain(s, g, Global);
      if Fresh(s, g) {
        assert TagOk(s, g, pc);
        assert Stack(g)[0] == pc.top;
      } else {
        assert SingleOk(pc);
      }
    }
  }

  lemma KeepFresh(s: Slab, g: Ghost, t: Slab, h: Ghost, a: Agent, q: Pc)
    requires Fresh(s, g)
    requires Moves(s, t, a, q) && |t.slots| == |s.slots| && s.tag <= t.tag
    requires h.seen == g.seen && (forall w :: w in Stack(h) ==> w in Stack(g))
    requires forall w :: w in Stack(g) && w.Entry? && w.index < |s.slots| ==>
             t.slots[w.index].next == s.slots[w.index].next
    requires TagOk(t, h, q)
    ensures Fresh(t, h)
  {
    forall b
      ensures TagOk(t, h, At(t.pcs, b))
    {
      assert TagOk(s, g, At(s.pcs, b));
    }
  }

  lemma KeepSingle(s: Slab, t: Slab, a: Agent, q: Pc)
    requires Single(s)
    requires Moves(s, t, a, q) && |t.slots| == 1 && t.slots[0].next == Empty
    requires SingleOk(q)
    ensures Single(t)
  {
    forall b
      ensures SingleOk(At(t.pcs, b))
    {
      assert SingleOk(At(s.pcs, b));
    }
  }

  /** Steps that leave the global list, the tags and every `next` cell alone. */
  lemma KeepTags(s: Slab, g: Ghost, t: Slab, h: Ghost, a: Agent, q: Pc)
    requires Tags(s, g)
    requires Moves(s, t, a, q) && |t.slots| == |s.slots| && s.tag <= t.tag
    requires h.seen == g.seen && (forall w :: w in Stack(h) ==> w in Stack(g))
    requires forall i :: 0 <= i < |s.slots| ==> t.slots[i].next == s.slots[i].next
    requires Fresh(s, g) ==> TagOk(t, h, q)
    requires Single(s) ==> SingleOk(q)
    ensures Tags(t, h)
  {
    if Fresh(s, g) {
      KeepFresh(s, g, t, h, a, q);
    } else {
      KeepSingle(s, t, a, q);
    }
  }

  /** In a slab of one slot, no list has an entry while that slot is held. */
  lemma HeldAlone(s: Slab, g: Ghost, a: Agent, id: ListId)
    requires Owned(s, g) && |s.slots| == 1 && Holding(At(s.pcs, a)).Some?
    ensures HeadOf(s, id) == Empty
  {
    assert Chain(s, g, id);
    assert g.place[0] == Held(a);
  }

  // ---- Kinds of step ----

  /** Agent `a` moves to `q`; nothing the invariants read changes, except for starting a drop or drawing a tag. */
  ghost predicate Quietly(s: Slab, t: Slab, a: Agent, q: Pc) {
    && Moves(s, t, a, q) && Holding(q) == Holding(At(s.pcs, a))
    && t.head == s.head && t.locals == s.locals && s.tag <= t.tag
    && t.refs == s.refs && t.issued == s.issued
    && (forall r :: r in s.dropping ==> r in t.dropping && t.dropping[r] == s.dropping[r])
    && |t.slots| == |s.slots|
    && (forall i :: 0 <= i < |s.slots| ==> t.slots[i].next == s.slots[i].next)
    && (forall i :: 0 <= i < |s.slots| ==>
          t.slots[i].life == s.slots[i].life && t.slots[i].contents == s.slots[i].contents)
  }

  lemma QuietInv(s: Slab, g: Ghost, t: Slab, a: Agent, q: Pc)
    requires Inv(s, g) && Quietly(s, t, a, q)
    requires LinkOk(t, q) && ClientOk(t, a, q)
    requires Fresh(s, g) ==> TagOk(t, g, q)
    requires Single(s) ==> SingleOk(q)
    requires Holding(q).Some? ==> Unborn(q) == Unborn(At(s.pcs, a)) && HeldOk(s.slots[Holding(q).value], q)
    ensures Inv(t, g)
  {
    QuietOwned(s, g, t, a, q);
    QuietLifecycles(s, g, t, a, q);
    KeepTags(s, g, t, g, a, q);
  }

  /** Only the program counter of agent `a` changes. */
  lemma GoInv(s: Slab, g: Ghost, a: Agent, q: Pc)
    requires Inv(s, g) && Holding(q) == Holding(At(s.pcs, a))
    requires LinkOk(s, q) && ClientOk(s, a, q)
    requires Fresh(s, g) ==> TagOk(s, g, q)
    requires Single(s) ==> SingleOk(q)
    requires Holding(q).Some? ==> Unborn(q) == Unborn(At(s.pcs, a)) && HeldOk(s.slots[Holding(q).value], q)
    ensures Inv(Go(s, a, q), g)
  {
    QuietInv(s, g, Go(s, a, q), a, q);
  }

  /** What the holder of a slot knows about it. */
  lemma HolderKnows(s: Slab, g: Ghost, a: Agent)
    requires Inv(s, g) && Holding(At(s.pcs, a)).Some?
    ensures var p := At(s.pcs, a); p.i < |s.slots| && g.place[p.i] == Held(a) && HeldOk(s.slots[p.i], p) && LinkOk(s, p)
  {
    var p := At(s.pcs, a);
    assert SlotOk(s, g, p.i);
  }

  /** Agent `a` rewrites the lifecycle or the contents of the slot it holds. */
  lemma HolderInv(s: Slab, g: Ghost, a: Agent, q: Pc, slot: Slot)
    requires Inv(s, g) && Holding(At(s.pcs, a)).Some? && Holding(q) == Holding(At(s.pcs, a))
    requires At(s.pcs, a).i < |s.slots|
    requires Allocating(q) || Clearing(q)
    requires var b := s.slots[At(s.pcs, a).i];
             && slot.next == b.next && slot.life.refcount == b.life.refcount && HeldOk(slot, q)
             && ((slot.life.generation == b.life.generation && (Unborn(q) ==> Unborn(At(s.pcs, a))))
                 || slot.life.generation > b.life.generation)
    ensures Inv(Go(SetSlot(s, At(s.pcs, a).i, slot), a, q), g)
  {
    var i := At(s.pcs, a).i;
    var t := Go(SetSlot(s, i, slot), a, q);
    QuietOwned(s, g, t, a, q);
    HolderLifecycles(s, g, t, a, q, i);
    KeepTags(s, g, t, g, a, q);
  }

  /** A live slot changes its lifecycle and stays live. */
  lemma StayInv(s: Slab, g: Ghost, t: Slab, a: Agent, q: Pc, i: nat)
    requires Inv(s, g) && Touches(s, t, a, q, i) && Counted(t)
    requires g.place[i] == Live && Holding(At(s.pcs, a)).None? && (q.RemoveDone? || q.DropDone?)
    requires LiveOk(t, t.slots[i], i)
    ensures Inv(t, g)
  {
    QuietOwned(s, g, t, a, q);
    LiveLifecycles(s, g, t, a, q, i);
    KeepTags(s, g, t, g, a, q);
  }

  /** A live slot without references passes to the agent that will clear it. */
  lemma SeizeInv(s: Slab, g: Ghost, t: Slab, h: Ghost, a: Agent, i: nat, cause: Cause)
    requires Inv(s, g) && Touches(s, t, a, ClearLoad(i, cause), i) && Counted(t)
    requires g.place[i] == Live && Holding(At(s.pcs, a)).None? && HeldOk(t.slots[i], ClearLoad(i, cause))
    requires h.lists == g.lists && h.seen == g.seen && h.place == g.place[i := Held(a)]
    ensures Inv(t, h)
  {
    MoveOwned(s, g, t, h, a, ClearLoad(i, cause), i, Held(a));
    SeizeLifecycles(s, g, t, h, a, ClearLoad(i, cause), i);
    KeepTags(s, g, t, h, a, ClearLoad(i, cause));
  }

  /** An agent between operations, or merely starting one, relies on nothing but its arguments. */
  lemma RestInv(s: Slab, g: Ghost, a: Agent, q: Pc)
    requires Inv(s, g) && Holding(At(s.pcs, a)).None? && ClientOk(s, a, q)
    requires q.Idle? || q.LocalPop? || q.PopLoad? || q.GetLoad? || q.RemoveLoad? || Finished(q)
    ensures Inv(Go(s, a, q), g)
  {
    GoInv(s, g, a, q);
  }

  // ---- Clients ----

  lemma ClientInv(s: Slab, g: Ghost, l: Label)
    requires Inv(s, g) && !l.Run? && Disciplined(s, l) && ClientStep(s, l).Then?
    ensures Inv(ClientStep(s, l).state, g)
  {
    var t, a := ClientStep(s, l).state, l.agent;
    match l
    case CallInsert(_, v) => RestInv(s, g, a, LocalPop(v));
    case CallGet(_, x) =>
      if x.index >= |s.slots| {
        RestInv(s, g, a, GetDone(None));
      } else {
        RestInv(s, g, a, GetLoad(x));
      }
    case CallRemove(_, x) =>
      if x.index >= |s.slots| {
        RestInv(s, g, a, RemoveDone(false));
      } else {
        RestInv(s, g, a, RemoveLoad(x));
      }
    case CallDrop(_, r) => CallDropInv(s, g, a, r);
    case Finish(_) => RestInv(s, g, a, Idle);
  }

  lemma CallDropInv(s: Slab, g: Ghost, a: Agent, r: RefId)
    requires Inv(s, g) && At(s.pcs, a).Idle? && r in s.refs && r !in s.dropping
    ensures Inv(Go(s.(dropping := s.dropping[r := a]), a, DropLoad(r, s.refs[r])), g)
  {
    var q := DropLoad(r, s.refs[r]);
    var t := Go(s.(dropping := s.dropping[r := a]), a, q);
    assert Quietly(s, t, a, q);
    assert RefOk(s, g, s.refs[r]);
    QuietInv(s, g, t, a, q);
  }

  // ---- Pop ----

  /** The top slot of list `id` leaves it for agent `a`, which will allocate it. */
  lemma TakeInv(s: Slab, g: Ghost, t: Slab, a: Agent, v: Value, id: ListId, i: nat)
    requires Inv(s, g) && Popping(At(s.pcs, a))
    requires HeadOf(s, id).Entry? && i == HeadOf(s, id).index && i < |s.slots|
    requires t.slots == s.slots && Moves(s, t, a, AllocLoad(v, i)) && t.tag == s.tag
    requires t.refs == s.refs && t.issued == s.issued && t.dropping == s.dropping
    requires forall j :: HeadOf(t, j) == if j == id then s.slots[i].next else HeadOf(s, j)
    ensures Inv(t, Track(g, a, Took(id, i)))
    ensures g.place[i] == On(id)
  {
    var h := Track(g, a, Took(id, i));
    assert Chain(s, g, id);
    assert ListOf(g.lists, id)[0] == HeadOf(s, id);
    TakeOwned(s, g, t, h, a, AllocLoad(v, i), id, i);
    ListLifecycles(s, g, t, h, a, AllocLoad(v, i), i, Held(a));
    KeepTags(s, g, t, h, a, AllocLoad(v, i));
  }

  lemma PopInv(s: Slab, g: Ghost, a: Agent, cpu: Cpu)
    requires Inv(s, g) && Popping(At(s.pcs, a)) && PopStep(s, a, At(s.pcs, a), cpu).Then?
    ensures var o := PopStep(s, a, At(s.pcs, a), cpu); Inv(o.state, Track(g, a, o.event))
  {
    var p := At(s.pcs, a);
    var o := PopStep(s, a, p, cpu);
    var t := o.state;
    match p
    case LocalPop(v) =>
      if o.event.Took? {
        TakeInv(s, g, t, a, v, Local(cpu), o.event.index);
      } else {
        RestInv(s, g, a, PopLoad(v));
      }
    case PopLoad(v) => PopLoadInv(s, g, a, v);
    case PopNext(v, top) => PopNextInv(s, g, a, cpu);
    case PopCas(v, top, next) =>
      if o.event.Took? {
        PopIsCurrent(s, g, a);
        TakeInv(s, g, t, a, v, Global, top.index);
      } else {
        RestInv(s, g, a, PopLoad(v));
      }
  }

  lemma PopLoadInv(s: Slab, g: Ghost, a: Agent, v: Value)
    requires Inv(s, g) && At(s.pcs, a) == PopLoad(v)
    ensures Inv(Go(s, a, if s.head.Empty? then InsertFailed(v) else PopNext(v, s.head)), g)
  {
    assert Chain(s, g, Global);
    if s.head.Empty? {
      GoInv(s, g, a, InsertFailed(v));
    } else {
      assert Stack(g)[0] == s.head;
      GoInv(s, g, a, PopNext(v, s.head));
    }
  }

  lemma PopNextInv(s: Slab, g: Ghost, a: Agent, cpu: Cpu)
    requires Inv(s, g) && At(s.pcs, a).PopNext? && PopStep(s, a, At(s.pcs, a), cpu).Then?
    ensures Inv(PopStep(s, a, At(s.pcs, a), cpu).state, g)
  {
    var p := At(s.pcs, a);
    assert Fresh(s, g) ==> TagOk(s, g, p);
    assert Single(s) ==> SingleOk(p);
    GoInv(s, g, a, PopCas(p.v, p.top, s.slots[p.top.index].next));
  }

  // ---- Allocate ----

  lemma PublishInv(s: Slab, g: Ghost, a: Agent, cpu: Cpu)
    requires Inv(s, g) && At(s.pcs, a).AllocProcessor? && AllocStep(s, a, At(s.pcs, a), cpu).Then?
    ensures var o := AllocStep(s, a, At(s.pcs, a), cpu); Inv(o.state, Track(g, a, o.event))
    ensures var p := At(s.pcs, a); Idx(p.gen, p.i) !in s.issued
  {
    var p := At(s.pcs, a);
    var o := AllocStep(s, a, p, cpu);
    var t, h := o.state, Track(g, a, o.event);
    var q := Inserted(Idx(p.gen, p.i));
    HolderKnows(s, g, a);
    PublishLifecycles(s, g, t, h, a, cpu);
    MoveOwned(s, g, t, h, a, q, p.i, Live);
    KeepTags(s, g, t, h, a, q);
  }

  lemma AllocInv(s: Slab, g: Ghost, a: Agent, cpu: Cpu)
    requires Inv(s, g) && Allocating(At(s.pcs, a)) && AllocStep(s, a, At(s.pcs, a), cpu).Then?
    ensures var o := AllocStep(s, a, At(s.pcs, a), cpu); Inv(o.state, Track(g, a, o.event))
  {
    var p := At(s.pcs, a);
    var t := AllocStep(s, a, p, cpu).state;
    HolderKnows(s, g, a);
    match p
    case AllocLoad(v, i) => GoInv(s, g, a, AllocStore(v, i, s.slots[i].life));
    case AllocStore(v, i, life) => HolderInv(s, g, a, AllocWrite(v, i, life.generation + 1), t.slots[i]);
    case AllocWrite(v, i, gen) => HolderInv(s, g, a, AllocProcessor(v, i, gen), t.slots[i]);
    case AllocProcessor(v, i, gen) => PublishInv(s, g, a, cpu);
  }

  // ---- Get ----

  lemma GetInv(s: Slab, g: Ghost, a: Agent, name: RefId)
    requires Inv(s, g) && (At(s.pcs, a).GetLoad? || At(s.pcs, a).GetCas?)
    requires GetStep(s, a, At(s.pcs, a), name).Then?
    ensures Inv(GetStep(s, a, At(s.pcs, a), name).state, g)
  {
    var p := At(s.pcs, a);
    var o := GetStep(s, a, p, name);
    var t := o.state;
    assert ClientOk(s, a, p);
    if o.event.Acquired? {
      AcquireInv(s, g, a, name);
    } else if o.event.GetMissed? {
      GoInv(s, g, a, GetDone(None));
    } else {
      GoInv(s, g, a, GetCas(p.idx, s.slots[p.idx.index].life));
    }
  }

  lemma AcquireInv(s: Slab, g: Ghost, a: Agent, name: RefId)
    requires Inv(s, g) && At(s.pcs, a).GetCas?
    requires var o := GetStep(s, a, At(s.pcs, a), name); o.Then? && o.event.Acquired?
    ensures Inv(GetStep(s, a, At(s.pcs, a), name).state, g)
  {
    var t := GetStep(s, a, At(s.pcs, a), name).state;
    QuietOwned(s, g, t, a, GetDone(Some(name)));
    AcquireLifecycles(s, g, t, a, name);
    KeepTags(s, g, t, g, a, GetDone(Some(name)));
  }

  // ---- Remove ----

  lemma RemoveInv(s: Slab, g: Ghost, a: Agent, spurious: bool)
    requires Inv(s, g) && (At(s.pcs, a).RemoveLoad? || At(s.pcs, a).RemoveCas?)
    requires RemoveStep(s, a, At(s.pcs, a), spurious).Then?
    ensures var o := RemoveStep(s, a, At(s.pcs, a), spurious); Inv(o.state, Track(g, a, o.event))
  {
    var p := At(s.pcs, a);
    var o := RemoveStep(s, a, p, spurious);
    var t := o.state;
    assert ClientOk(s, a, p);
    if o.event.Removed? {
      MarkInv(s, g, a, spurious);
    } else if o.event.RemoveMissed? {
      GoInv(s, g, a, RemoveDone(false));
    } else {
      GoInv(s, g, a, RemoveCas(p.idx, s.slots[p.idx.index].life));
    }
  }

  lemma MarkInv(s: Slab, g: Ghost, a: Agent, spurious: bool)
    requires Inv(s, g) && At(s.pcs, a).RemoveCas?
    requires var o := RemoveStep(s, a, At(s.pcs, a), spurious); o.Then? && o.event.Removed?
    ensures var o := RemoveStep(s, a, At(s.pcs, a), spurious); Inv(o.state, Track(g, a, o.event))
    ensures g.place[At(s.pcs, a).idx.index] == Live && At(s.pcs, a).idx in s.issued
  {
    var o := RemoveStep(s, a, At(s.pcs, a), spurious);
    MarkTouches(s, g, o.state, a, spurious);
    if o.event.clears {
      SeizeInv(s, g, o.state, Track(g, a, o.event), a, At(s.pcs, a).idx.index, ByRemove);
    } else {
      StayInv(s, g, o.state, a, RemoveDone(true), At(s.pcs, a).idx.index);
    }
  }

  // ---- Drop ----

  lemma DropInv(s: Slab, g: Ghost, a: Agent)
    requires Inv(s, g) && (At(s.pcs, a).DropLoad? || At(s.pcs, a).DropCas?)
    requires DropStep(s, a, At(s.pcs, a)).Then?
    ensures var o := DropStep(s, a, At(s.pcs, a)); Inv(o.state, Track(g, a, o.event))
  {
    var p := At(s.pcs, a);
    var o := DropStep(s, a, p);
    if o.event.Released? {
      ReleaseInv(s, g, a);
    } else {
      assert ClientOk(s, a, p);
      DropLifecycles(s, g, a);
      GoInv(s, g, a, DropCas(p.ref, p.idx, s.slots[p.idx.index].life));
    }
  }

  lemma ReleaseInv(s: Slab, g: Ghost, a: Agent)
    requires Inv(s, g) && At(s.pcs, a).DropCas?
    requires var o := DropStep(s, a, At(s.pcs, a)); o.Then? && o.event.Released?
    ensures var o := DropStep(s, a, At(s.pcs, a)); Inv(o.state, Track(g, a, o.event))
    ensures g.place[At(s.pcs, a).idx.index] == Live && At(s.pcs, a).idx in s.issued
  {
    var p := At(s.pcs, a);
    var o := DropStep(s, a, p);
    ReleaseTouches(s, g, o.state, a);
    ReleasedInv(s, g, o.state, a, p.idx.index, o.event);
  }

  lemma ReleasedInv(s: Slab, g: Ghost, t: Slab, a: Agent, i: nat, e: Event)
    requires Inv(s, g) && Holding(At(s.pcs, a)).None? && Counted(t) && i < |s.slots| && g.place[i] == Live
    requires e.Released? && e.idx.index == i
    requires if e.clears
             then Touches(s, t, a, ClearLoad(i, ByDrop), i) && HeldOk(t.slots[i], ClearLoad(i, ByDrop))
             else Touches(s, t, a, DropDone, i) && LiveOk(t, t.slots[i], i)
    ensures Inv(t, Track(g, a, e))
  {
    if e.clears {
      SeizeInv(s, g, t, Track(g, a, e), a, i, ByDrop);
    } else {
      StayInv(s, g, t, a, DropDone, i);
    }
  }

  // ---- Clear ----

  lemma ClearInv(s: Slab, g: Ghost, a: Agent, cpu: Cpu)
    requires Inv(s, g) && Clearing(At(s.pcs, a)) && ClearStep(s, a, At(s.pcs, a), cpu).Then?
    ensures Inv(ClearStep(s, a, At(s.pcs, a), cpu).state, g)
  {
    var p := At(s.pcs, a);
    var t := ClearStep(s, a, p, cpu).state;
    HolderKnows(s, g, a);
    match p
    case ClearLoad(i, k) => GoInv(s, g, a, ClearStore(i, k, s.slots[i].life));
    case ClearStore(i, k, life) => HolderInv(s, g, a, ClearContents(i, k), t.slots[i]);
    case ClearContents(i, k) => HolderInv(s, g, a, ClearProcessor(i, k), t.slots[i]);
    case ClearProcessor(i, k) => HolderInv(s, g, a, Route(i, k, s.slots[i].processor), t.slots[i]);
    case Route(i, k, owner) => GoInv(s, g, a, if owner == Some(cpu) then LocalPush(i, k) else PushTag(i, k));
  }

  // ---- Push ----

  /** Tags through a push: the counter makes each new entry different from all before it. */
  lemma GiveFresh(s: Slab, g: Ghost, t: Slab, h: Ghost, a: Agent, q: Pc)
    requires Owned(s, g) && Fresh(s, g)
    requires At(s.pcs, a).PushCas? && Moves(s, t, a, q) && (q.RemoveDone? || q.DropDone?)
    requires t.slots == s.slots && t.tag == s.tag
    requires var e := At(s.pcs, a).entry; Stack(h) == [e] + Stack(g) && h.seen == g.seen + {e}
    ensures Fresh(t, h)
  {
    var p := At(s.pcs, a);
    assert TagOk(s, g, p) && LinkOk(s, p);
    forall b
      ensures TagOk(t, h, At(t.pcs, b))
    {
      var r := At(s.pcs, b);
      assert TagOk(s, g, r) && LinkOk(s, r);
      assert Holding(r).Some? && b != a ==> r.i != p.i;
    }
  }

  /** The entries of the global list name other slots than the one an agent holds. */
  lemma StackElsewhere(s: Slab, g: Ghost, a: Agent)
    requires Owned(s, g) && Holding(At(s.pcs, a)).Some?
    ensures forall w :: w in Stack(g) ==> w.Entry? && w.index != At(s.pcs, a).i
  {
    assert g.place[At(s.pcs, a).i] == Held(a);
    assert Chain(s, g, Global);
  }

  lemma LocalPushInv(s: Slab, g: Ghost, a: Agent, cpu: Cpu)
    requires Inv(s, g) && At(s.pcs, a).LocalPush? && PushStep(s, a, At(s.pcs, a), cpu).Then?
    ensures var o := PushStep(s, a, At(s.pcs, a), cpu); Inv(o.state, Track(g, a, o.event))
  {
    var p := At(s.pcs, a);
    var o := PushStep(s, a, p, cpu);
    var t, h, q := o.state, Track(g, a, o.event), Done(p.cause);
    HolderKnows(s, g, a);
    GiveOwned(s, g, t, h, a, q, Local(cpu), Entry(p.i, 0));
    ListLifecycles(s, g, t, h, a, q, p.i, On(Local(cpu)));
    if Fresh(s, g) {
      StackElsewhere(s, g, a);
      KeepFresh(s, g, t, h, a, q);
    } else {
      HeldAlone(s, g, a, Local(cpu));
      KeepSingle(s, t, a, q);
    }
  }

  lemma PushCasInv(s: Slab, g: Ghost, a: Agent, cpu: Cpu)
    requires Inv(s, g) && At(s.pcs, a).PushCas? && s.head == At(s.pcs, a).top && PushStep(s, a, At(s.pcs, a), cpu).Then?
    ensures var o := PushStep(s, a, At(s.pcs, a), cpu); Inv(o.state, Track(g, a, o.event))
  {
    var p := At(s.pcs, a);
    var o := PushStep(s, a, p, cpu);
    var t, h, q := o.state, Track(g, a, o.event), Done(p.cause);
    HolderKnows(s, g, a);
    GiveOwned(s, g, t, h, a, q, Global, p.entry);
    ListLifecycles(s, g, t, h, a, q, p.i, On(Global));
    if Fresh(s, g) {
      GiveFresh(s, g, t, h, a, q);
    } else {
      KeepSingle(s, t, a, q);
    }
  }

  lemma PushLinkInv(s: Slab, g: Ghost, a: Agent, cpu: Cpu)
    requires Inv(s, g) && At(s.pcs, a).PushLink? && PushStep(s, a, At(s.pcs, a), cpu).Then?
    ensures Inv(PushStep(s, a, At(s.pcs, a), cpu).state, g)
  {
    var p := At(s.pcs, a);
    var t := PushStep(s, a, p, cpu).state;
    var q := PushCas(p.i, p.cause, p.entry, p.top);
    HolderKnows(s, g, a);
    LinkOwned(s, g, t, a, q);
    QuietLifecycles(s, g, t, a, q);
    if Fresh(s, g) {
      assert TagOk(s, g, p);
      StackElsewhere(s, g, a);
      KeepFresh(s, g, t, g, a, q);
    } else {
      assert SingleOk(p);
      KeepSingle(s, t, a, q);
    }
  }

  lemma PushInv(s: Slab, g: Ghost, a: Agent, cpu: Cpu)
    requires Inv(s, g) && Pushing(At(s.pcs, a)) && PushStep(s, a, At(s.pcs, a), cpu).Then?
    ensures var o := PushStep(s, a, At(s.pcs, a), cpu); Inv(o.state, Track(g, a, o.event))
  {
    var p := At(s.pcs, a);
    var t := PushStep(s, a, p, cpu).state;
    HolderKnows(s, g, a);
    assert Fresh(s, g) ==> TagOk(s, g, p);
    match p
    case LocalPush(i, k) => LocalPushInv(s, g, a, cpu);
    case PushTag(i, k) => PushTagInv(s, g, a);
    case PushLoad(i, k, entry) => PushLoadInv(s, g, a);
    case PushLink(i, k, entry, top) => PushLinkInv(s, g, a, cpu);
    case PushCas(i, k, entry, top) =>
      if s.head == top {
        PushCasInv(s, g, a, cpu);
      } else {
        GoInv(s, g, a, PushLoad(i, k, entry));
      }
  }

  lemma PushTagInv(s: Slab, g: Ghost, a: Agent)
    requires Inv(s, g) && At(s.pcs, a).PushTag?
    ensures var p := At(s.pcs, a); Inv(Go(s.(tag := s.tag + 1), a, PushLoad(p.i, p.cause, Entry(p.i, s.tag))), g)
  {
    var p := At(s.pcs, a);
    var q := PushLoad(p.i, p.cause, Entry(p.i, s.tag));
    HolderKnows(s, g, a);
    QuietInv(s, g, Go(s.(tag := s.tag + 1), a, q), a, q);
  }

  lemma PushLoadInv(s: Slab, g: Ghost, a: Agent)
    requires Inv(s, g) && At(s.pcs, a).PushLoad?
    ensures var p := At(s.pcs, a); Inv(Go(s, a, PushLink(p.i, p.cause, p.entry, s.head)), g)
  {
    var p := At(s.pcs, a);
    var q := PushLink(p.i, p.cause, p.entry, s.head);
    HolderKnows(s, g, a);
    assert Fresh(s, g) ==> TagOk(s, g, p);
    if Single(s) {
      HeldAlone(s, g, a, Global);
    }
    GoInv(s, g, a, q);
  }

  // ---- Every step ----

  /** Every step of disciplined clients preserves the invariant. */
  lemma StepInv(s: Slab, g: Ghost, l: Label)
    requires Inv(s, g) && Disciplined(s, l) && Step(s, l).Then?
    ensures Inv(Step(s, l).state, Track(g, l.agent, Step(s, l).event))
  {
    var a, pc := l.agent, At(s.pcs, l.agent);
    if !l.Run? {
      ClientInv(s, g, l);
    } else if Popping(pc) {
      PopInv(s, g, a, l.cpu);
    } else if Allocating(pc) {
      AllocInv(s, g, a, l.cpu);
    } else if pc.GetLoad? || pc.GetCas? {
      GetInv(s, g, a, l.name);
    } else if pc.RemoveLoad? || pc.RemoveCas? {
      RemoveInv(s, g, a, l.spurious);
    } else if pc.DropLoad? || pc.DropCas? {
      DropInv(s, g, a);
    } else if Clearing(pc) {
      ClearInv(s, g, a, l.cpu);
    } else {
      PushInv(s, g, a, l.cpu);
    }
  }
}
