/**
 Exactly-once clearing: the right to clear an entry is obtained at most once, and the
 entry is put back on a free list at most once, for every index ever issued.
 */
module SlabCounts {
  import opened Options
  import opened Packing
  import opened SlabMachine
  import opened SlabLists
  import opened SlabLifecycle
  import opened SlabInvariant

  /** Active: the current generation is in use. Returning: it is being cleared. Settled: it is done with. */
  datatype Phase = Active | Returning | Settled

  function PhaseOf(s: Slab, g: Ghost, i: nat): Phase
    requires i < |g.place|
  {
    match g.place[i]
    case Live => Active
    case On(_) => Settled
    case Held(a) => HeldPhase(At(s.pcs, a))
  }

  function HeldPhase(pc: Pc): Phase {
    if Unborn(pc) then Active else if Allocating(pc) then Settled else Returning
  }

  /** How often the right to clear `x` was obtained, and how often its slot was put back. */
  ghost predicate CountOk(s: Slab, g: Ghost, x: Idx)
    requires |s.slots| == |g.place|
  {
    if x.index >= |s.slots| || x.generation == 0 || x.generation > s.slots[x.index].life.generation then
      g.granted[x] == 0 && g.freed[x] == 0
    else if x.generation < s.slots[x.index].life.generation then
      g.granted[x] == 1 && g.freed[x] == 1
    else
      && g.granted[x] == (if PhaseOf(s, g, x.index).Active? then 0 else 1)
      && g.freed[x] == (if PhaseOf(s, g, x.index).Settled? then 1 else 0)
  }

  ghost predicate Counts(s: Slab, g: Ghost) {
    |s.slots| == |g.place| && forall x :: CountOk(s, g, x)
  }

  /** A step that moves no slot between phases and no generation. */
  lemma KeepCounts(s: Slab, g: Ghost, t: Slab, h: Ghost, i: nat)
    requires Counts(s, g) && |t.slots| == |s.slots| == |h.place|
    requires h.granted == g.granted && h.freed == g.freed
    requires forall j :: 0 <= j < |s.slots| && j != i ==>
                           t.slots[j].life.generation == s.slots[j].life.generation
                               && PhaseOf(t, h, j) == PhaseOf(s, g, j)
    requires i < |s.slots| ==>
               || (t.slots[i].life.generation == s.slots[i].life.generation && PhaseOf(t, h, i) == PhaseOf(s, g, i))
               || (PhaseOf(s, g, i).Settled? && PhaseOf(t, h, i).Active?
                     && t.slots[i].life.generation == s.slots[i].life.generation + 1)
    ensures Counts(t, h)
  {
    forall x
      ensures CountOk(t, h, x)
    {
      assert CountOk(s, g, x);
    }
  }

  /** The right to clear the current generation of slot `i` is obtained. */
  lemma GrantCounts(s: Slab, g: Ghost, t: Slab, h: Ghost, i: nat)
    requires Counts(s, g) && i < |t.slots| == |s.slots| == |h.place| && s.slots[i].life.generation > 0
    requires h.granted == g.granted + multiset{Idx(s.slots[i].life.generation, i)} && h.freed == g.freed
    requires forall j :: 0 <= j < |s.slots| ==> t.slots[j].life.generation == s.slots[j].life.generation
    requires forall j :: 0 <= j < |s.slots| && j != i ==> PhaseOf(t, h, j) == PhaseOf(s, g, j)
    requires PhaseOf(s, g, i).Active? && PhaseOf(t, h, i).Returning?
    ensures Counts(t, h)
  {
    forall x
      ensures CountOk(t, h, x)
    {
      assert CountOk(s, g, x);
    }
  }

  /** The cleared slot `i` goes back on a free list. */
  lemma FreeCounts(s: Slab, g: Ghost, t: Slab, h: Ghost, i: nat)
    requires Counts(s, g) && i < |t.slots| == |s.slots| == |h.place| && s.slots[i].life.generation > 0
    requires h.freed == g.freed + multiset{Idx(s.slots[i].life.generation, i)} && h.granted == g.granted
    requires forall j :: 0 <= j < |s.slots| ==> t.slots[j].life.generation == s.slots[j].life.generation
    requires forall j :: 0 <= j < |s.slots| && j != i ==> PhaseOf(t, h, j) == PhaseOf(s, g, j)
    requires PhaseOf(s, g, i).Returning? && PhaseOf(t, h, i).Settled?
    ensures Counts(t, h)
  {
    forall x
      ensures CountOk(t, h, x)
    {
      assert CountOk(s, g, x);
    }
  }

  /** Slots other than the one an agent acts on keep their phase. */
  lemma OtherPhases(s: Slab, g: Ghost, t: Slab, h: Ghost, a: Agent, q: Pc, i: nat)
    requires Placed(s, g) && |t.slots| == |s.slots| == |h.place|
    requires Moves(s, t, a, q)
    requires Holding(At(s.pcs, a)).None? || Holding(At(s.pcs, a)) == Some(i)
    requires forall j :: 0 <= j < |g.place| && j != i ==> h.place[j] == g.place[j]
    ensures forall j :: 0 <= j < |s.slots| && j != i ==> PhaseOf(t, h, j) == PhaseOf(s, g, j)
  {
  }

  /** Agent `a` steps without moving a slot or a generation. */
  ghost predicate Steady(s: Slab, t: Slab, a: Agent) {
    && |t.slots| == |s.slots| && Moves(s, t, a, At(t.pcs, a))
    && (forall j :: 0 <= j < |s.slots| ==> t.slots[j].life.generation == s.slots[j].life.generation)
    && (Holding(At(s.pcs, a)).Some? ==> HeldPhase(At(t.pcs, a)) == HeldPhase(At(s.pcs, a)))
  }

  lemma RemoveSteady(s: Slab, a: Agent, spurious: bool)
    requires At(s.pcs, a).RemoveLoad? || At(s.pcs, a).RemoveCas?
    requires RemoveStep(s, a, At(s.pcs, a), spurious).Then?
    ensures Steady(s, RemoveStep(s, a, At(s.pcs, a), spurious).state, a)
  {
    RemoveRewrites(s, a, spurious);
  }

  lemma DropSteady(s: Slab, a: Agent)
    requires At(s.pcs, a).DropLoad? || At(s.pcs, a).DropCas?
    requires DropStep(s, a, At(s.pcs, a)).Then?
    ensures Steady(s, DropStep(s, a, At(s.pcs, a)).state, a)
  {
  }

  lemma ClearSteady(s: Slab, a: Agent, cpu: Cpu)
    requires Clearing(At(s.pcs, a)) && ClearStep(s, a, At(s.pcs, a), cpu).Then?
    requires var p := At(s.pcs, a); p.ClearStore? ==> p.i < |s.slots| && p.life == s.slots[p.i].life
    ensures Steady(s, ClearStep(s, a, At(s.pcs, a), cpu).state, a)
  {
  }

  lemma SteadyCounts(s: Slab, g: Ghost, t: Slab, a: Agent)
    requires Placed(s, g) && Counts(s, g) && Steady(s, t, a)
    ensures Counts(t, g)
  {
    forall j | 0 <= j < |s.slots|
      ensures PhaseOf(t, g, j) == PhaseOf(s, g, j)
    {
    }
    KeepCounts(s, g, t, g, |s.slots|);
  }

  /** Agent `a` obtains the right to clear the live entry `x`. */
  lemma SeizeCounts(s: Slab, g: Ghost, t: Slab, a: Agent, x: Idx, cause: Cause, e: Event)
    requires Inv(s, g) && Counts(s, g) && Touches(s, t, a, ClearLoad(x.index, cause), x.index)
    requires g.place[x.index] == Live && Holding(At(s.pcs, a)).None? && x.generation == s.slots[x.index].life.generation
    requires (e.Removed? || e.Released?) && e.idx == x && e.clears
    ensures Counts(t, Track(g, a, e))
  {
    assert SlotOk(s, g, x.index);
    OtherPhases(s, g, t, Track(g, a, e), a, ClearLoad(x.index, cause), x.index);
    GrantCounts(s, g, t, Track(g, a, e), x.index);
  }

  lemma ClientSteady(s: Slab, l: Label)
    requires !l.Run? && ClientStep(s, l).Then?
    ensures Steady(s, ClientStep(s, l).state, l.agent)
  {
  }

  lemma ClientCounts(s: Slab, g: Ghost, l: Label)
    requires Placed(s, g) && Counts(s, g) && !l.Run? && ClientStep(s, l).Then?
    ensures Counts(ClientStep(s, l).state, g)
  {
    ClientSteady(s, l);
    SteadyCounts(s, g, ClientStep(s, l).state, l.agent);
  }

  /** The top slot of list `id` passes to agent `a`. */
  lemma TakeCounts(s: Slab, g: Ghost, t: Slab, a: Agent, v: Value, id: ListId)
    requires Inv(s, g) && Counts(s, g) && HeadOf(s, id).Entry? && Holding(At(s.pcs, a)).None?
    requires t.slots == s.slots && Moves(s, t, a, AllocLoad(v, HeadOf(s, id).index))
    ensures Counts(t, Track(g, a, Took(id, HeadOf(s, id).index)))
  {
    var i := HeadOf(s, id).index;
    var h := Track(g, a, Took(id, i));
    assert Chain(s, g, id);
    assert ListOf(g.lists, id)[0] == HeadOf(s, id);
    assert h.place == g.place[i := Held(a)];
    OtherPhases(s, g, t, h, a, AllocLoad(v, i), i);
    KeepCounts(s, g, t, h, i);
  }

  lemma PopSteady(s: Slab, a: Agent, cpu: Cpu)
    requires Popping(At(s.pcs, a)) && PopStep(s, a, At(s.pcs, a), cpu).Then?
    requires !PopStep(s, a, At(s.pcs, a), cpu).event.Took?
    ensures Steady(s, PopStep(s, a, At(s.pcs, a), cpu).state, a)
  {
  }

  lemma PopCounts(s: Slab, g: Ghost, a: Agent, cpu: Cpu)
    requires Inv(s, g) && Counts(s, g) && Popping(At(s.pcs, a)) && PopStep(s, a, At(s.pcs, a), cpu).Then?
    ensures var o := PopStep(s, a, At(s.pcs, a), cpu); Counts(o.state, Track(g, a, o.event))
  {
    var p := At(s.pcs, a);
    var o := PopStep(s, a, p, cpu);
    if o.event.Took? {
      TakeCounts(s, g, o.state, a, p.v, o.event.list);
    } else {
      PopSteady(s, a, cpu);
      SteadyCounts(s, g, o.state, a);
    }
  }

  lemma AllocCounts(s: Slab, g: Ghost, a: Agent, cpu: Cpu)
    requires Inv(s, g) && Counts(s, g) && Allocating(At(s.pcs, a)) && AllocStep(s, a, At(s.pcs, a), cpu).Then?
    ensures var o := AllocStep(s, a, At(s.pcs, a), cpu); Counts(o.state, Track(g, a, o.event))
  {
    var p := At(s.pcs, a);
    var o := AllocStep(s, a, p, cpu);
    var t, h := o.state, Track(g, a, o.event);
    HolderKnows(s, g, a);
    OtherPhases(s, g, t, h, a, At(t.pcs, a), p.i);
    KeepCounts(s, g, t, h, p.i);
  }

  lemma GetSteady(s: Slab, a: Agent, name: RefId)
    requires At(s.pcs, a).GetLoad? || At(s.pcs, a).GetCas?
    requires GetStep(s, a, At(s.pcs, a), name).Then?
    ensures Steady(s, GetStep(s, a, At(s.pcs, a), name).state, a)
  {
    GetRewrites(s, a, name);
  }

  lemma GetCounts(s: Slab, g: Ghost, a: Agent, name: RefId)
    requires Placed(s, g) && Counts(s, g) && (At(s.pcs, a).GetLoad? || At(s.pcs, a).GetCas?)
    requires GetStep(s, a, At(s.pcs, a), name).Then?
    ensures Counts(GetStep(s, a, At(s.pcs, a), name).state, g)
  {
    GetSteady(s, a, name);
    SteadyCounts(s, g, GetStep(s, a, At(s.pcs, a), name).state, a);
  }

  lemma RemoveGrants(s: Slab, g: Ghost, a: Agent, spurious: bool)
    requires Inv(s, g) && Counts(s, g) && At(s.pcs, a).RemoveCas?
    requires var o := RemoveStep(s, a, At(s.pcs, a), spurious); o.Then? && o.event.Removed? && o.event.clears
    ensures var o := RemoveStep(s, a, At(s.pcs, a), spurious); Counts(o.state, Track(g, a, o.event))
  {
    var o := RemoveStep(s, a, At(s.pcs, a), spurious);
    MarkTouches(s, g, o.state, a, spurious);
    SeizeCounts(s, g, o.state, a, At(s.pcs, a).idx, ByRemove, o.event);
  }

  lemma RemoveKeepsCounts(s: Slab, g: Ghost, a: Agent, spurious: bool)
    requires Placed(s, g) && Counts(s, g) && (At(s.pcs, a).RemoveLoad? || At(s.pcs, a).RemoveCas?)
    requires RemoveStep(s, a, At(s.pcs, a), spurious).Then?
    ensures Counts(RemoveStep(s, a, At(s.pcs, a), spurious).state, g)
  {
    RemoveSteady(s, a, spurious);
    SteadyCounts(s, g, RemoveStep(s, a, At(s.pcs, a), spurious).state, a);
  }

  lemma RemoveCounts(s: Slab, g: Ghost, a: Agent, spurious: bool)
    requires Inv(s, g) && Counts(s, g) && (At(s.pcs, a).RemoveLoad? || At(s.pcs, a).RemoveCas?)
    requires RemoveStep(s, a, At(s.pcs, a), spurious).Then?
    ensures var o := RemoveStep(s, a, At(s.pcs, a), spurious); Counts(o.state, Track(g, a, o.event))
  {
    var o := RemoveStep(s, a, At(s.pcs, a), spurious);
    if o.event.Removed? && o.event.clears {
      RemoveGrants(s, g, a, spurious);
    } else {
      RemoveKeepsCounts(s, g, a, spurious);
    }
  }

  lemma LastReleaseCounts(s: Slab, g: Ghost, a: Agent)
    requires Inv(s, g) && Counts(s, g) && At(s.pcs, a).DropCas?
    requires var o := DropStep(s, a, At(s.pcs, a)); o.Then? && o.event.Released? && o.event.clears
    ensures var o := DropStep(s, a, At(s.pcs, a)); Counts(o.state, Track(g, a, o.event))
  {
    var o := DropStep(s, a, At(s.pcs, a));
    ReleaseTouches(s, g, o.state, a);
    SeizeCounts(s, g, o.state, a, At(s.pcs, a).idx, ByDrop, o.event);
  }

  lemma DropCounts(s: Slab, g: Ghost, a: Agent)
    requires Inv(s, g) && Counts(s, g) && (At(s.pcs, a).DropLoad? || At(s.pcs, a).DropCas?)
    requires DropStep(s, a, At(s.pcs, a)).Then?
    ensures var o := DropStep(s, a, At(s.pcs, a)); Counts(o.state, Track(g, a, o.event))
  {
    var o := DropStep(s, a, At(s.pcs, a));
    if o.event.Released? && o.event.clears {
      LastReleaseCounts(s, g, a);
    } else {
      DropSteady(s, a);
      SteadyCounts(s, g, o.state, a);
    }
  }

  lemma ClearCounts(s: Slab, g: Ghost, a: Agent, cpu: Cpu)
    requires Inv(s, g) && Counts(s, g) && Clearing(At(s.pcs, a)) && ClearStep(s, a, At(s.pcs, a), cpu).Then?
    ensures Counts(ClearStep(s, a, At(s.pcs, a), cpu).state, g)
  {
    var t := ClearStep(s, a, At(s.pcs, a), cpu).state;
    HolderKnows(s, g, a);
    ClearSteady(s, a, cpu);
    SteadyCounts(s, g, t, a);
  }

  /** Agent `a` puts the cleared slot it holds back on a list. */
  lemma GiveCounts(s: Slab, g: Ghost, t: Slab, a: Agent, q: Pc, e: Event)
    requires Inv(s, g) && Counts(s, g) && Pushing(At(s.pcs, a)) && At(s.pcs, a).i < |s.slots| == |t.slots|
    requires Moves(s, t, a, q)
    requires forall j :: 0 <= j < |s.slots| ==> t.slots[j].life == s.slots[j].life
    requires e.Gave? && e.idx == Idx(s.slots[At(s.pcs, a).i].life.generation, At(s.pcs, a).i)
    ensures Counts(t, Track(g, a, e))
  {
    var i := At(s.pcs, a).i;
    var h := Track(g, a, e);
    HolderKnows(s, g, a);
    assert h.place == g.place[i := On(e.list)];
    OtherPhases(s, g, t, h, a, q, i);
    FreeCounts(s, g, t, h, i);
  }

  lemma PushCounts(s: Slab, g: Ghost, a: Agent, cpu: Cpu)
    requires Inv(s, g) && Counts(s, g) && Pushing(At(s.pcs, a)) && PushStep(s, a, At(s.pcs, a), cpu).Then?
    ensures var o := PushStep(s, a, At(s.pcs, a), cpu); Counts(o.state, Track(g, a, o.event))
  {
    var o := PushStep(s, a, At(s.pcs, a), cpu);
    if o.event.Gave? {
      GiveCounts(s, g, o.state, a, At(o.state.pcs, a), o.event);
    } else {
      SteadyCounts(s, g, o.state, a);
    }
  }

  /** Every step keeps the counts. */
  lemma StepCounts(s: Slab, g: Ghost, l: Label)
    requires Inv(s, g) && Counts(s, g) && Step(s, l).Then?
    ensures Counts(Step(s, l).state, Track(g, l.agent, Step(s, l).event))
  {
    var a, pc := l.agent, At(s.pcs, l.agent);
    if !l.Run? {
      ClientCounts(s, g, l);
    } else if Popping(pc) {
      PopCounts(s, g, a, l.cpu);
    } else if Allocating(pc) {
      AllocCounts(s, g, a, l.cpu);
    } else if pc.GetLoad? || pc.GetCas? {
      GetCounts(s, g, a, l.name);
    } else if pc.RemoveLoad? || pc.RemoveCas? {
      RemoveCounts(s, g, a, l.spurious);
    } else if pc.DropLoad? || pc.DropCas? {
      DropCounts(s, g, a);
    } else if Clearing(pc) {
      ClearCounts(s, g, a, l.cpu);
    } else {
      PushCounts(s, g, a, l.cpu);
    }
  }
}
