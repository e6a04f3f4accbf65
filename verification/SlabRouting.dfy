/**
 Which free list a slot goes back to: the local list of a processor if it is cleared on
 the processor that filled it, and the global list otherwise.
 */
module SlabRouting {
  import opened Options
  import opened Packing
  import opened SlabMachine
  import opened SlabLists
  import opened SlabLifecycle
  import opened SlabInvariant
  import opened SlabCounts
  import opened SlabFrames
  import opened SlabCalls
  import opened SlabTheorems

  /** The entry slot `i` holds or last held. */
  function Entrant(slot: Slot, i: nat): Idx {
    Idx(slot.life.generation, i)
  }

  /** The slot remembers the processor on which its entry was inserted. */
  predicate Filed(d: Diary, slot: Slot, i: nat) {
    var x := Entrant(slot, i);
    x in d.places && slot.processor == Some(d.places[x])
  }

  /** What an agent that is returning slot `i` knows of that processor, and how it has chosen a list. */
  predicate RouteOk(d: Diary, r: Record, slot: Slot, i: nat, pc: Pc) {
    var x := Entrant(slot, i);
    && (pc.ClearLoad? || pc.ClearStore? || pc.ClearContents? || pc.ClearProcessor? ==> Filed(d, slot, i))
    && (pc.Route? ==> x in d.places && pc.owner == Some(d.places[x]))
    && (pc.LocalPush? ==> x in d.places && d.places[x] in r.cpus)
    && (Pushing(pc) && !pc.LocalPush? ==> x in d.places && exists c :: c in r.cpus && c != d.places[x])
  }

  ghost predicate FiledOk(s: Slab, g: Ghost, d: Diary, i: nat)
    requires i < |s.slots| == |g.place|
  {
    match g.place[i]
    case On(_) => true
    case Live => Filed(d, s.slots[i], i)
    case Held(a) => RouteOk(d, Of(d, a), s.slots[i], i, At(s.pcs, a))
  }

  ghost predicate Routed(s: Slab, g: Ghost, d: Diary) {
    |s.slots| == |g.place| && forall i :: 0 <= i < |s.slots| ==> FiledOk(s, g, d, i)
  }

  /** Nothing about slot `i` changes. */
  lemma FiledStill(s: Slab, g: Ghost, d: Diary, t: Slab, h: Ghost, e: Diary, i: nat)
    requires i < |s.slots| == |g.place| && i < |t.slots| == |h.place| && FiledOk(s, g, d, i)
    requires t.slots[i].life.generation == s.slots[i].life.generation && t.slots[i].processor == s.slots[i].processor
    requires h.place[i] == g.place[i]
    requires h.place[i].Held? ==> At(t.pcs, h.place[i].agent) == At(s.pcs, h.place[i].agent)
                                  && Of(e, h.place[i].agent) == Of(d, h.place[i].agent)
    requires forall x :: x in d.places && x.index == i ==> x in e.places && e.places[x] == d.places[x]
    ensures FiledOk(t, h, e, i)
  {
  }

  // ---- The slot an agent holds ----

  /** Agent `a` still holds slot `i`, or has just filled it on `cpu`, or has just put it on a list. */
  predicate Handles(d: Diary, r: Record, slot: Slot, i: nat, q: Pc, e: Event, cpu: Cpu) {
    || (e.Silent? && !q.Inserted? && RouteOk(d, r, slot, i, q))
    || (e.Published? && e.idx == Entrant(slot, i) && q == Inserted(e.idx) && slot.processor == Some(cpu))
    || (e.Gave? && e.idx.index == i && !q.Inserted?)
  }

  lemma AllocStays(s: Slab, l: Label)
    requires l.Run? && Allocating(At(s.pcs, l.agent)) && Step(s, l).Then? && At(s.pcs, l.agent).i < |s.slots|
    requires HeldOk(s.slots[At(s.pcs, l.agent).i], At(s.pcs, l.agent))
    ensures var o, i := Step(s, l), At(s.pcs, l.agent).i; var q := At(o.state.pcs, l.agent);
            && i < |o.state.slots|
            && ((o.event.Silent? && Allocating(q))
                || (o.event.Published? && o.event.idx == Entrant(o.state.slots[i], i) && q == Inserted(o.event.idx)
                    && o.state.slots[i].processor == Some(l.cpu)))
  {
  }

  lemma AllocHandles(s: Slab, d: Diary, r: Record, l: Label)
    requires l.Run? && Allocating(At(s.pcs, l.agent)) && Step(s, l).Then? && At(s.pcs, l.agent).i < |s.slots|
    requires HeldOk(s.slots[At(s.pcs, l.agent).i], At(s.pcs, l.agent))
    ensures var o, i := Step(s, l), At(s.pcs, l.agent).i;
            i < |o.state.slots| && Handles(d, r, o.state.slots[i], i, At(o.state.pcs, l.agent), o.event, l.cpu)
  {
    AllocStays(s, l);
  }

  /** A step of a clearing, up to the choice of list. */
  lemma ClearStays(s: Slab, l: Label)
    requires l.Run? && Clearing(At(s.pcs, l.agent)) && Step(s, l).Then? && At(s.pcs, l.agent).i < |s.slots|
    requires HeldOk(s.slots[At(s.pcs, l.agent).i], At(s.pcs, l.agent))
    ensures var o, pc, i := Step(s, l), At(s.pcs, l.agent), At(s.pcs, l.agent).i; var q := At(o.state.pcs, l.agent);
            && i < |o.state.slots| && Entrant(o.state.slots[i], i) == Entrant(s.slots[i], i) && o.event.Silent?
            && (if pc.Route? then q == if pc.owner == Some(l.cpu) then LocalPush(i, pc.cause) else PushTag(i, pc.cause)
                else if pc.ClearProcessor? then q == Route(i, pc.cause, s.slots[i].processor)
                else (q.ClearStore? || q.ClearContents? || q.ClearProcessor?)
                     && o.state.slots[i].processor == s.slots[i].processor)
  {
  }

  lemma ClearHandles(s: Slab, d: Diary, r: Record, l: Label)
    requires l.Run? && Clearing(At(s.pcs, l.agent)) && Step(s, l).Then? && At(s.pcs, l.agent).i < |s.slots|
    requires var pc := At(s.pcs, l.agent);
             HeldOk(s.slots[pc.i], pc) && RouteOk(d, r, s.slots[pc.i], pc.i, pc)
    ensures var o, i := Step(s, l), At(s.pcs, l.agent).i;
            && i < |o.state.slots|
            && Handles(d, Note(r, l, o.event), o.state.slots[i], i, At(o.state.pcs, l.agent), o.event, l.cpu)
  {
    ClearStays(s, l);
    var x, r' := Entrant(s.slots[At(s.pcs, l.agent).i], At(s.pcs, l.agent).i), Note(r, l, Step(s, l).event);
    assert l.cpu in r'.cpus;
    assert x in d.places && l.cpu != d.places[x] ==> exists c :: c in r'.cpus && c != d.places[x];
  }

  /** A step of a push keeps the slot's entry and the choice of list. */
  lemma PushStays(s: Slab, l: Label)
    requires l.Run? && Pushing(At(s.pcs, l.agent)) && Step(s, l).Then? && At(s.pcs, l.agent).i < |s.slots|
    ensures var o, pc, i := Step(s, l), At(s.pcs, l.agent), At(s.pcs, l.agent).i; var q := At(o.state.pcs, l.agent);
            && i < |o.state.slots| && Entrant(o.state.slots[i], i) == Entrant(s.slots[i], i)
            && ((o.event.Silent? && Pushing(q) && !q.LocalPush? && !pc.LocalPush?)
                || (o.event.Gave? && o.event.idx.index == i && q == Done(pc.cause)))
  {
  }

  lemma PushHandles(s: Slab, d: Diary, r: Record, l: Label)
    requires l.Run? && Pushing(At(s.pcs, l.agent)) && Step(s, l).Then? && At(s.pcs, l.agent).i < |s.slots|
    requires var pc := At(s.pcs, l.agent); RouteOk(d, r, s.slots[pc.i], pc.i, pc)
    ensures var o, i := Step(s, l), At(s.pcs, l.agent).i;
            && i < |o.state.slots|
            && Handles(d, Note(r, l, o.event), o.state.slots[i], i, At(o.state.pcs, l.agent), o.event, l.cpu)
  {
    PushStays(s, l);
  }

  lemma HolderHandles(s: Slab, g: Ghost, d: Diary, l: Label)
    requires Inv(s, g) && Routed(s, g, d) && l.Run? && Holding(At(s.pcs, l.agent)).Some? && Step(s, l).Then?
    ensures var o, i := Step(s, l), At(s.pcs, l.agent).i;
            && i < |o.state.slots|
            && Handles(d, Note(Of(d, l.agent), l, o.event), o.state.slots[i], i, At(o.state.pcs, l.agent), o.event,
                       l.cpu)
  {
    var a, pc := l.agent, At(s.pcs, l.agent);
    HolderKnows(s, g, a);
    assert FiledOk(s, g, d, pc.i);
    if Allocating(pc) {
      AllocHandles(s, d, Note(Of(d, a), l, Step(s, l).event), l);
    } else if Clearing(pc) {
      ClearHandles(s, d, Of(d, a), l);
    } else {
      PushHandles(s, d, Of(d, a), l);
    }
  }

  /** The new diary, seen from slot `i`. */
  predicate Wrote(d: Diary, e: Diary, a: Agent, r: Record, q: Pc, cpu: Cpu) {
    && Of(e, a) == r && (!q.Inserted? ==> e.places == d.places)
    && (q.Inserted? ==> e.places == d.places[q.idx := cpu])
  }

  lemma HandlesFiled(g: Ghost, d: Diary, t: Slab, e: Diary, a: Agent, i: nat, event: Event, cpu: Cpu)
    requires i < |t.slots| == |g.place| && g.place[i] == Held(a) && Wrote(d, e, a, Of(e, a), At(t.pcs, a), cpu)
    requires Handles(d, Of(e, a), t.slots[i], i, At(t.pcs, a), event, cpu)
    ensures |Track(g, a, event).place| == |t.slots| && FiledOk(t, Track(g, a, event), e, i)
  {
  }

  lemma WriteIs(d: Diary, s: Slab, l: Label)
    requires l.Run? && Step(s, l).Then? && !At(s.pcs, l.agent).Inserted?
    ensures var q := At(Step(s, l).state.pcs, l.agent);
            Wrote(d, Write(d, s, l), l.agent, Note(Of(d, l.agent), l, Step(s, l).event), q, l.cpu)
    ensures forall b :: b != l.agent ==> Of(Write(d, s, l), b) == Of(d, b)
  {
  }

  /** The slot held by the agent that steps. */
  lemma OwnFiled(s: Slab, g: Ghost, d: Diary, l: Label)
    requires Inv(s, g) && Routed(s, g, d) && l.Run? && Holding(At(s.pcs, l.agent)).Some? && Step(s, l).Then?
    ensures var t, h, i := Step(s, l).state, Track(g, l.agent, Step(s, l).event), At(s.pcs, l.agent).i;
            i < |t.slots| == |h.place| && FiledOk(t, h, Write(d, s, l), i)
  {
    HolderKnows(s, g, l.agent);
    HolderOnlySlot(s, l);
    HolderHandles(s, g, d, l);
    WriteIs(d, s, l);
    HandlesFiled(g, d, Step(s, l).state, Write(d, s, l), l.agent, At(s.pcs, l.agent).i, Step(s, l).event, l.cpu);
  }

  lemma HolderRouted(s: Slab, g: Ghost, d: Diary, l: Label)
    requires Inv(s, g) && Routed(s, g, d) && l.Run? && Holding(At(s.pcs, l.agent)).Some? && Step(s, l).Then?
    requires Inv(Step(s, l).state, Track(g, l.agent, Step(s, l).event))
    ensures Routed(Step(s, l).state, Track(g, l.agent, Step(s, l).event), Write(d, s, l))
  {
    var t, h, e := Step(s, l).state, Track(g, l.agent, Step(s, l).event), Write(d, s, l);
    OwnFiled(s, g, d, l);
    forall i | 0 <= i < |t.slots|
      ensures FiledOk(t, h, e, i)
    {
      if i != At(s.pcs, l.agent).i {
        FiledElsewhere(s, g, d, l, i);
      }
    }
  }

  lemma TrackElsewhere(g: Ghost, a: Agent, e: Event, i: nat, k: nat)
    requires i < |g.place| && i != k && (e.Silent? || ((e.Published? || e.Gave?) && e.idx.index == k))
    ensures |Track(g, a, e).place| == |g.place| && Track(g, a, e).place[i] == g.place[i]
  {
  }

  lemma FiledElsewhere(s: Slab, g: Ghost, d: Diary, l: Label, i: nat)
    requires Inv(s, g) && Routed(s, g, d) && l.Run? && Holding(At(s.pcs, l.agent)).Some? && Step(s, l).Then?
    requires i < |Step(s, l).state.slots| == |Track(g, l.agent, Step(s, l).event).place| && i != At(s.pcs, l.agent).i
    ensures FiledOk(Step(s, l).state, Track(g, l.agent, Step(s, l).event), Write(d, s, l), i)
  {
    HolderOnlySlot(s, l);
    HolderKnows(s, g, l.agent);
    HolderHandles(s, g, d, l);
    WriteIs(d, s, l);
    TrackElsewhere(g, l.agent, Step(s, l).event, i, At(s.pcs, l.agent).i);
    assert FiledOk(s, g, d, i);
    FiledStill(s, g, d, Step(s, l).state, Track(g, l.agent, Step(s, l).event), Write(d, s, l), i);
  }

  // ---- Agents that hold no slot ----

  predicate SameProcessors(s: Slab, t: Slab) {
    |t.slots| == |s.slots| && forall i :: 0 <= i < |s.slots| ==> t.slots[i].processor == s.slots[i].processor
  }

  lemma OtherProcessors(s: Slab, l: Label)
    requires l.Run? && Holding(At(s.pcs, l.agent)).None? && Step(s, l).Then?
    ensures SameProcessors(s, Step(s, l).state)
  {
    var a, pc := l.agent, At(s.pcs, l.agent);
    if pc.GetLoad? || pc.GetCas? {
      GetProcessors(s, a, l.name);
    } else if pc.RemoveLoad? || pc.RemoveCas? {
      RemoveProcessors(s, a, l.spurious);
    } else if pc.DropLoad? || pc.DropCas? {
      DropProcessors(s, a);
    }
  }

  lemma GetProcessors(s: Slab, a: Agent, name: RefId)
    requires (At(s.pcs, a).GetLoad? || At(s.pcs, a).GetCas?) && GetStep(s, a, At(s.pcs, a), name).Then?
    ensures SameProcessors(s, GetStep(s, a, At(s.pcs, a), name).state)
  {
  }

  lemma RemoveProcessors(s: Slab, a: Agent, spurious: bool)
    requires (At(s.pcs, a).RemoveLoad? || At(s.pcs, a).RemoveCas?) && RemoveStep(s, a, At(s.pcs, a), spurious).Then?
    ensures SameProcessors(s, RemoveStep(s, a, At(s.pcs, a), spurious).state)
  {
  }

  lemma DropProcessors(s: Slab, a: Agent)
    requires (At(s.pcs, a).DropLoad? || At(s.pcs, a).DropCas?) && DropStep(s, a, At(s.pcs, a)).Then?
    ensures SameProcessors(s, DropStep(s, a, At(s.pcs, a)).state)
  {
  }

  /** Where an agent that comes to hold a slot stands. */
  lemma OtherEvent(s: Slab, g: Ghost, l: Label)
    requires Inv(s, g) && l.Run? && Holding(At(s.pcs, l.agent)).None? && Step(s, l).Then?
    ensures var e, q := Step(s, l).event, At(Step(s, l).state.pcs, l.agent);
            && !e.Published? && !e.Gave?
            && (e.Took? ==> q.AllocLoad?)
            && ((e.Removed? || e.Released?) && e.clears ==>
                  q.ClearLoad? && e.idx.index < |s.slots| && g.place[e.idx.index] == Live)
  {
    var a, pc := l.agent, At(s.pcs, l.agent);
    if Step(s, l).event.Removed? {
      assert pc.RemoveCas?;
      MarkTouches(s, g, Step(s, l).state, a, l.spurious);
    } else if Step(s, l).event.Released? {
      assert pc.DropCas?;
      ReleaseTouches(s, g, Step(s, l).state, a);
    }
  }

  /** Slot `i` has just passed to agent `a`, from a list or as an entry to be cleared. */
  lemma TakenFiled(g: Ghost, d: Diary, t: Slab, h: Ghost, e: Diary, a: Agent, i: nat, slot: Slot)
    requires i < |t.slots| == |h.place| && h.place[i] == Held(a) && e.places == d.places
    requires t.slots[i].life.generation == slot.life.generation && t.slots[i].processor == slot.processor
    requires At(t.pcs, a).AllocLoad? || (At(t.pcs, a).ClearLoad? && Filed(d, slot, i))
    ensures FiledOk(t, h, e, i)
  {
  }

  lemma OtherRouted(s: Slab, g: Ghost, d: Diary, l: Label)
    requires Inv(s, g) && Routed(s, g, d) && l.Run? && Holding(At(s.pcs, l.agent)).None? && Step(s, l).Then?
    requires Inv(Step(s, l).state, Track(g, l.agent, Step(s, l).event))
    ensures Routed(Step(s, l).state, Track(g, l.agent, Step(s, l).event), Write(d, s, l))
  {
    var t, h := Step(s, l).state, Track(g, l.agent, Step(s, l).event);
    forall i | 0 <= i < |t.slots|
      ensures FiledOk(t, h, Write(d, s, l), i)
    {
      OtherFiled(s, g, d, l, i);
    }
  }

  lemma TrackAt(g: Ghost, a: Agent, e: Event, i: nat)
    requires i < |g.place| && !e.Published? && !e.Gave?
    ensures |Track(g, a, e).place| == |g.place|
    ensures var p := Track(g, a, e).place[i];
            || p == g.place[i]
            || (p == Held(a) && (e.Took? || ((e.Removed? || e.Released?) && e.clears && e.idx.index == i)))
  {
  }

  lemma OtherFiled(s: Slab, g: Ghost, d: Diary, l: Label, i: nat)
    requires Inv(s, g) && Routed(s, g, d) && l.Run? && Holding(At(s.pcs, l.agent)).None? && Step(s, l).Then?
    requires i < |Step(s, l).state.slots| == |Track(g, l.agent, Step(s, l).event).place|
    ensures FiledOk(Step(s, l).state, Track(g, l.agent, Step(s, l).event), Write(d, s, l), i)
  {
    var a, t, event := l.agent, Step(s, l).state, Step(s, l).event;
    OtherGentle(s, l);
    OtherProcessors(s, l);
    OtherEvent(s, g, l);
    OthersIssueNothing(s, l);
    WriteIs(d, s, l);
    assert FiledOk(s, g, d, i);
    TrackAt(g, a, event, i);
    if Track(g, a, event).place[i] == g.place[i] {
      FiledStill(s, g, d, t, Track(g, a, event), Write(d, s, l), i);
    } else {
      TakenFiled(g, d, t, Track(g, a, event), Write(d, s, l), a, i, s.slots[i]);
    }
  }

  lemma ClientRouted(s: Slab, g: Ghost, d: Diary, l: Label)
    requires Inv(s, g) && Routed(s, g, d) && !l.Run? && Step(s, l).Then?
    ensures Track(g, l.agent, Step(s, l).event) == g && Routed(Step(s, l).state, g, Write(d, s, l))
  {
    ClientLeads(s, l);
    ClientSilent(s, l);
    forall i | 0 <= i < |s.slots|
      ensures FiledOk(Step(s, l).state, g, Write(d, s, l), i)
    {
      ClientFiled(s, g, d, l, i);
    }
  }

  /** A call touches no record but the agent's own, and a caller holds no slot. */
  lemma ClientSilent(s: Slab, l: Label)
    requires !l.Run? && Step(s, l).Then?
    ensures ReturnedBy(s, l).None? && Holding(At(s.pcs, l.agent)).None?
    ensures var e := Step(s, l).event; e.Silent? || e.GetMissed? || e.RemoveMissed?
  {
  }

  lemma ClientFiled(s: Slab, g: Ghost, d: Diary, l: Label, i: nat)
    requires Inv(s, g) && Routed(s, g, d) && !l.Run? && Step(s, l).Then? && i < |s.slots| == |Step(s, l).state.slots|
    ensures FiledOk(Step(s, l).state, g, Write(d, s, l), i)
  {
    ClientLeads(s, l);
    ClientSilent(s, l);
    assert FiledOk(s, g, d, i);
    FiledStill(s, g, d, Step(s, l).state, g, Write(d, s, l), i);
  }

  lemma {:induction false} RunRouted(s: Slab, g: Ghost, d: Diary, ls: seq<Label>)
    requires Whole(s, g) && Behaves(s, ls) && Routed(s, g, d)
    ensures Runs(s, ls) && Whole(Exec(s, ls), Trail(s, g, ls))
    ensures Routed(Exec(s, ls), Trail(s, g, ls), Continued(d, s, ls))
    decreases |ls|
  {
    if ls != [] {
      var l, h := ls[0], Track(g, ls[0].agent, Step(s, ls[0]).event);
      StepInv(s, g, l);
      StepCounts(s, g, l);
      if !l.Run? {
        ClientRouted(s, g, d, l);
      } else if Holding(At(s.pcs, l.agent)).Some? {
        HolderRouted(s, g, d, l);
      } else {
        OtherRouted(s, g, d, l);
      }
      RunRouted(Step(s, l).state, h, Write(d, s, l), ls[1..]);
    }
  }

  /**
   Slots go back where they came from: when a slot is put back for entry `x`, by the call
   that removed it or dropped its last reference, it goes on top of the list. The list is
   the local one of the processor on which `x` was inserted if the call has run on that
   processor only, and the global one if the call has not run on it at all.
   */
  lemma RightList(s: Slab, ls: seq<Label>, l: Label)
    requires SafeStart(s) && Behaves(s, ls) && Runs(s, ls)
    requires Step(Exec(s, ls), l).Then? && Step(Exec(s, ls), l).event.Gave?
    ensures var c, o, d := Exec(s, ls), Step(Exec(s, ls), l), DiaryOf(s, ls);
            var x, cpus := o.event.idx, Of(Write(d, c, l), l.agent).cpus;
            && x in d.places && x.index < |o.state.slots|
            && (cpus == {d.places[x]} ==> o.event.list == Local(d.places[x]))
            && (d.places[x] !in cpus ==> o.event.list == Global)
            && HeadOf(o.state, o.event.list).Entry? && HeadOf(o.state, o.event.list).index == x.index
            && o.state.slots[x.index].next == HeadOf(c, o.event.list)
  {
    var g0 :| StartsAt(s, g0);
    StockedWhole(s, g0);
    RunRouted(s, g0, Diary(map[], map[], map[]), ls);
    Gives(Exec(s, ls), Trail(s, g0, ls), DiaryOf(s, ls), l);
  }

  lemma Gives(s: Slab, g: Ghost, d: Diary, l: Label)
    requires Inv(s, g) && Routed(s, g, d) && Step(s, l).Then? && Step(s, l).event.Gave?
    ensures var o := Step(s, l); var x, cpus := o.event.idx, Of(Write(d, s, l), l.agent).cpus;
            && x in d.places && x.index < |o.state.slots|
            && (cpus == {d.places[x]} ==> o.event.list == Local(d.places[x]))
            && (d.places[x] !in cpus ==> o.event.list == Global)
            && HeadOf(o.state, o.event.list).Entry? && HeadOf(o.state, o.event.list).index == x.index
            && o.state.slots[x.index].next == HeadOf(s, o.event.list)
  {
    var a, pc := l.agent, At(s.pcs, l.agent);
    GaveIsPush(s, l);
    HolderKnows(s, g, a);
    assert FiledOk(s, g, d, pc.i);
    PushGives(s, l);
    HolderHandles(s, g, d, l);
    WriteIs(d, s, l);
  }

  /** What a push that succeeds does. */
  lemma PushGives(s: Slab, l: Label)
    requires l.Run? && Pushing(At(s.pcs, l.agent)) && LinkOk(s, At(s.pcs, l.agent))
    requires Step(s, l).Then? && Step(s, l).event.Gave?
    ensures var o, pc := Step(s, l), At(s.pcs, l.agent);
            && pc.i < |o.state.slots| == |s.slots| && o.event.idx == Entrant(s.slots[pc.i], pc.i)
            && o.event.list == (if pc.LocalPush? then Local(l.cpu) else Global)
            && HeadOf(o.state, o.event.list).Entry? && HeadOf(o.state, o.event.list).index == pc.i
            && o.state.slots[pc.i].next == HeadOf(s, o.event.list)
  {
  }

  lemma GaveIsPush(s: Slab, l: Label)
    requires Step(s, l).Then? && Step(s, l).event.Gave?
    ensures l.Run? && Pushing(At(s.pcs, l.agent))
  {
    if l.Run? && Holding(At(s.pcs, l.agent)).None? {
      QuietEvent(s, l);
    }
  }

  lemma QuietEvent(s: Slab, l: Label)
    requires l.Run? && Holding(At(s.pcs, l.agent)).None? && Step(s, l).Then?
    ensures !Step(s, l).event.Gave? && !Step(s, l).event.Published?
  {
  }
}
