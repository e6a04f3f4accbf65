/**
 What a step of the slab leaves alone, for protocols built on top of it.
 */
module SlabFrames {
  import opened Options
  import opened Packing
  import opened SlabMachine
  import opened SlabLists
  import opened SlabLifecycle
  import opened SlabInvariant

  /** `x` still names a live entry that has not been removed. */
  predicate Usable(s: Slab, x: Idx) {
    && x in s.issued && x.index < |s.slots|
    && s.slots[x.index].life.generation == x.generation && s.slots[x.index].life.state == Allocated
  }

  /** A step of an agent that holds a slot touches no other slot and no reference. */
  ghost predicate OnlySlot(s: Slab, t: Slab, a: Agent, i: nat) {
    && Moves(s, t, a, At(t.pcs, a)) && t.refs == s.refs && t.dropping == s.dropping
    && |t.slots| == |s.slots| && (forall j :: 0 <= j < |s.slots| && j != i ==> t.slots[j] == s.slots[j])
    && (forall x :: x in s.issued ==> x in t.issued)
  }

  lemma AllocOnlySlot(s: Slab, a: Agent, cpu: Cpu)
    requires Allocating(At(s.pcs, a)) && AllocStep(s, a, At(s.pcs, a), cpu).Then?
    ensures OnlySlot(s, AllocStep(s, a, At(s.pcs, a), cpu).state, a, At(s.pcs, a).i)
  {
  }

  lemma ClearOnlySlot(s: Slab, a: Agent, cpu: Cpu)
    requires Clearing(At(s.pcs, a)) && ClearStep(s, a, At(s.pcs, a), cpu).Then?
    ensures OnlySlot(s, ClearStep(s, a, At(s.pcs, a), cpu).state, a, At(s.pcs, a).i)
  {
  }

  lemma PushOnlySlot(s: Slab, a: Agent, cpu: Cpu)
    requires Pushing(At(s.pcs, a)) && PushStep(s, a, At(s.pcs, a), cpu).Then?
    ensures OnlySlot(s, PushStep(s, a, At(s.pcs, a), cpu).state, a, At(s.pcs, a).i)
  {
  }

  /** A step of an agent that holds no slot changes no generation; only a removal changes what is Allocated. */
  ghost predicate Gentle(s: Slab, t: Slab, a: Agent, e: Event) {
    && Moves(s, t, a, At(t.pcs, a)) && t.issued == s.issued && |t.slots| == |s.slots|
    && (forall j :: 0 <= j < |s.slots| ==> t.slots[j].life.generation == s.slots[j].life.generation)
    && (forall j :: 0 <= j < |s.slots| && (e.Removed? ==> j != e.idx.index) ==>
          t.slots[j].life.state == s.slots[j].life.state)
    && t.refs == (if e.Acquired? then s.refs[e.ref := e.idx] else if e.Released? then s.refs - {e.ref} else s.refs)
  }

  lemma PopGentle(s: Slab, a: Agent, cpu: Cpu)
    requires Popping(At(s.pcs, a)) && PopStep(s, a, At(s.pcs, a), cpu).Then?
    ensures var o := PopStep(s, a, At(s.pcs, a), cpu); Gentle(s, o.state, a, o.event)
  {
  }

  lemma GetGentle(s: Slab, a: Agent, name: RefId)
    requires (At(s.pcs, a).GetLoad? || At(s.pcs, a).GetCas?) && GetStep(s, a, At(s.pcs, a), name).Then?
    ensures var o := GetStep(s, a, At(s.pcs, a), name); Gentle(s, o.state, a, o.event)
  {
    var o := GetStep(s, a, At(s.pcs, a), name);
    assert !o.event.Acquired? ==> o.state.slots == s.slots && o.state.refs == s.refs;
  }

  /** One lifecycle is rewritten within its generation. */
  lemma MarkGentle(s: Slab, t: Slab, a: Agent, i: nat, life: Lifecycle, e: Event)
    requires i < |s.slots| && t.slots == s.slots[i := s.slots[i].(life := life)]
    requires life.generation == s.slots[i].life.generation
    requires t.issued == s.issued && t.refs == s.refs && Moves(s, t, a, At(t.pcs, a)) && e.Removed? && e.idx.index == i
    ensures Gentle(s, t, a, e)
  {
  }

  lemma RemoveGentle(s: Slab, a: Agent, spurious: bool)
    requires (At(s.pcs, a).RemoveLoad? || At(s.pcs, a).RemoveCas?) && RemoveStep(s, a, At(s.pcs, a), spurious).Then?
    ensures var o := RemoveStep(s, a, At(s.pcs, a), spurious); Gentle(s, o.state, a, o.event)
  {
    var o := RemoveStep(s, a, At(s.pcs, a), spurious);
    if o.event.Removed? {
      var i := o.event.idx.index;
      MarkGentle(s, o.state, a, i, o.state.slots[i].life, o.event);
    } else {
      assert o.state.slots == s.slots && o.state.refs == s.refs;
    }
  }

  lemma DropGentle(s: Slab, a: Agent)
    requires (At(s.pcs, a).DropLoad? || At(s.pcs, a).DropCas?) && DropStep(s, a, At(s.pcs, a)).Then?
    ensures var o := DropStep(s, a, At(s.pcs, a)); Gentle(s, o.state, a, o.event)
  {
  }

  lemma HolderOnlySlot(s: Slab, l: Label)
    requires l.Run? && Holding(At(s.pcs, l.agent)).Some? && Step(s, l).Then?
    ensures OnlySlot(s, Step(s, l).state, l.agent, At(s.pcs, l.agent).i)
    ensures var e := Step(s, l).event; !e.Removed? && !e.Acquired? && !e.Released?
  {
    var a, pc := l.agent, At(s.pcs, l.agent);
    if Allocating(pc) {
      AllocOnlySlot(s, a, l.cpu);
    } else if Clearing(pc) {
      ClearOnlySlot(s, a, l.cpu);
    } else {
      PushOnlySlot(s, a, l.cpu);
    }
  }

  lemma OtherGentle(s: Slab, l: Label)
    requires l.Run? && Holding(At(s.pcs, l.agent)).None? && Step(s, l).Then?
    ensures Gentle(s, Step(s, l).state, l.agent, Step(s, l).event)
  {
    var a, pc := l.agent, At(s.pcs, l.agent);
    if Popping(pc) {
      PopGentle(s, a, l.cpu);
    } else if pc.GetLoad? || pc.GetCas? {
      GetGentle(s, a, l.name);
    } else if pc.RemoveLoad? || pc.RemoveCas? {
      RemoveGentle(s, a, l.spurious);
    } else {
      DropGentle(s, a);
    }
  }

  /** Only a successful `remove` of `x` itself makes `x` unusable. */
  lemma UsableStable(s: Slab, g: Ghost, l: Label, x: Idx)
    requires Inv(s, g) && l.Run? && Step(s, l).Then? && Usable(s, x)
    ensures Usable(Step(s, l).state, x) || (Step(s, l).event.Removed? && Step(s, l).event.idx == x)
  {
    if Holding(At(s.pcs, l.agent)).Some? {
      HolderOnlySlot(s, l);
      HolderKnows(s, g, l.agent);
      MatchedIsLive(s, g, x);
    } else {
      OtherGentle(s, l);
      RemovedMatches(s, l);
    }
  }

  /** A removal that succeeds matches the generation of its slot. */
  lemma RemovedMatches(s: Slab, l: Label)
    requires Step(s, l).Then?
    ensures var e := Step(s, l).event;
            e.Removed? ==> e.idx.index < |s.slots| && s.slots[e.idx.index].life.generation == e.idx.generation
                           && l.Run? && At(s.pcs, l.agent).RemoveCas? && At(s.pcs, l.agent).idx == e.idx
  {
  }

  /** Nobody else changes the generation of a slot an agent holds. */
  lemma HeldStable(s: Slab, g: Ghost, l: Label, b: Agent)
    requires Inv(s, g) && l.Run? && Step(s, l).Then? && b != l.agent && Holding(At(s.pcs, b)).Some?
    ensures var i := At(s.pcs, b).i;
            i < |s.slots| == |Step(s, l).state.slots|
            && Step(s, l).state.slots[i].life.generation == s.slots[i].life.generation
  {
    HolderKnows(s, g, b);
    if Holding(At(s.pcs, l.agent)).Some? {
      HolderOnlySlot(s, l);
      HolderKnows(s, g, l.agent);
    } else {
      OtherGentle(s, l);
    }
  }

  // ---- Where a step of each kind leads ----

  /** A call or the end of one touches no memory. */
  lemma ClientLeads(s: Slab, l: Label)
    requires !l.Run? && ClientStep(s, l).Then?
    ensures var t := ClientStep(s, l).state; var q := At(t.pcs, l.agent);
            && t.slots == s.slots && t.head == s.head && t.locals == s.locals && t.refs == s.refs
            && Moves(s, t, l.agent, q)
            && (q.Idle? || q.LocalPop? || q.GetLoad? || q.GetDone? || q.RemoveLoad? || q.RemoveDone? || q.DropLoad?)
  {
  }

  lemma PopLeads(s: Slab, a: Agent, cpu: Cpu)
    requires Popping(At(s.pcs, a)) && PopStep(s, a, At(s.pcs, a), cpu).Then?
    ensures var o := PopStep(s, a, At(s.pcs, a), cpu); var q := At(o.state.pcs, a);
            && (Popping(q) || q.AllocLoad? || q.InsertFailed?) && (q.InsertFailed? ==> s.head.Empty?)
            && !o.event.Acquired? && !o.event.Released? && !o.event.Removed?
  {
  }

  lemma AllocLeads(s: Slab, a: Agent, cpu: Cpu)
    requires Allocating(At(s.pcs, a)) && AllocStep(s, a, At(s.pcs, a), cpu).Then?
    ensures var q := At(AllocStep(s, a, At(s.pcs, a), cpu).state.pcs, a); Allocating(q) || q.Inserted?
  {
  }

  lemma DropLeads(s: Slab, a: Agent)
    requires (At(s.pcs, a).DropLoad? || At(s.pcs, a).DropCas?) && DropStep(s, a, At(s.pcs, a)).Then?
    ensures var q := At(DropStep(s, a, At(s.pcs, a)).state.pcs, a); q.DropCas? || q.DropDone? || Clearing(q)
  {
  }

  lemma ClearLeads(s: Slab, a: Agent, cpu: Cpu)
    requires Clearing(At(s.pcs, a)) && ClearStep(s, a, At(s.pcs, a), cpu).Then?
    ensures var q := At(ClearStep(s, a, At(s.pcs, a), cpu).state.pcs, a); Clearing(q) || Pushing(q)
  {
  }

  lemma PushLeads(s: Slab, a: Agent, cpu: Cpu)
    requires Pushing(At(s.pcs, a)) && PushStep(s, a, At(s.pcs, a), cpu).Then?
    ensures var q := At(PushStep(s, a, At(s.pcs, a), cpu).state.pcs, a); Pushing(q) || q.RemoveDone? || q.DropDone?
  {
  }

  predicate Looking(pc: Pc) { pc.GetLoad? || pc.GetCas? || pc.RemoveLoad? || pc.RemoveCas? }

  /** A step of an agent that is not looking up an index: no miss is ahead of it, and it fails only on an empty list. */
  lemma OtherLeads(s: Slab, l: Label)
    requires l.Run? && Step(s, l).Then? && !Looking(At(s.pcs, l.agent))
    ensures var q := At(Step(s, l).state.pcs, l.agent); !Looking(q) && (q.InsertFailed? ==> s.head.Empty?)
    ensures var q := At(Step(s, l).state.pcs, l.agent); Popping(q) || q.InsertFailed? ==> Popping(At(s.pcs, l.agent))
  {
    var a, pc := l.agent, At(s.pcs, l.agent);
    if Popping(pc) {
      PopLeads(s, a, l.cpu);
    } else if Allocating(pc) {
      AllocLeads(s, a, l.cpu);
    } else if pc.DropLoad? || pc.DropCas? {
      DropLeads(s, a);
    } else if Clearing(pc) {
      ClearLeads(s, a, l.cpu);
    } else {
      PushLeads(s, a, l.cpu);
    }
  }

  /** A step moves only the agent that takes it. */
  lemma StepMoves(s: Slab, l: Label)
    requires Step(s, l).Then?
    ensures Moves(s, Step(s, l).state, l.agent, At(Step(s, l).state.pcs, l.agent))
  {
    if l.Run? {
      if Holding(At(s.pcs, l.agent)).Some? {
        HolderOnlySlot(s, l);
      } else {
        OtherGentle(s, l);
      }
    }
  }
}
