/**
 The invariant of span reference counting, kept by every interleaving of span
 operations and of the slab steps inside them.
 */
module SpanInvariant {
  import opened Options
  import opened Packing
  import opened SlabMachine
  import opened SlabLists
  import opened SlabLifecycle
  import opened SlabInvariant
  import opened SlabCounts
  import opened SlabTheorems
  import opened SlabFrames
  import opened SpanMachine

  // ---- Agents ----

  /** Tasks during which the agent runs no slab operation. */
  predicate Lone(k: Task) {
    k.Rest? || k.Fatal? || k.CloneAdding? || k.CloneLeaving? || k.CloseCounting? || k.CloseLeaving? || k.CloseRemove?
  }

  predicate Getting(k: Task) { k.CloneGetting? || k.CloseGetting? }

  predicate Dropping(k: Task) { k.CloneDropping? || k.CloseDropping? }

  /** The agent is clearing the entry `x` and putting its slot back. */
  predicate Returning(s: Slab, pc: Pc, x: Idx) {
    && (Clearing(pc) || Pushing(pc)) && pc.i == x.index && x.index < |s.slots|
    && s.slots[x.index].life.generation == x.generation
  }

  predicate Matching(prev: Lifecycle, x: Idx) {
    prev.generation == x.generation && prev.state == Allocated
  }

  /** Where the slab operation of a task can be; a `get` or `remove` under way is bound to succeed. */
  predicate Fits(s: Slab, k: Task, pc: Pc) {
    && (Lone(k) ==> pc.Idle?)
    && (k.Creating? ==> Popping(pc) || Allocating(pc) || pc.Inserted? || pc.InsertFailed?)
    && (Getting(k) ==>
          (pc.GetLoad? && pc.idx == k.x) || (pc.GetCas? && pc.idx == k.x && Matching(pc.prev, k.x))
              || (pc.GetDone? && pc.got.Some?))
    && (Dropping(k) ==>
          ((pc.DropLoad? || pc.DropCas?) && pc.idx == k.x) || pc.DropDone?
              || (Returning(s, pc, k.x) && pc.cause == ByDrop))
    && (k.CloseRemoving? ==>
          || (pc.RemoveLoad? && pc.idx == k.x) || (pc.RemoveCas? && pc.idx == k.x && Matching(pc.prev, k.x))
          || pc == RemoveDone(true) || (Returning(s, pc, k.x) && pc.cause == ByRemove))
  }

  /** The slab reference the agent holds, if any. */
  function Carries(k: Task, pc: Pc): Option<RefId> {
    if k.CloneAdding? || k.CloneLeaving? || k.CloseCounting? || k.CloseLeaving? then Some(k.r)
    else if Getting(k) && pc.GetDone? then pc.got
    else if pc.DropLoad? || pc.DropCas? then Some(pc.ref)
    else None
  }

  /** The agent is on its way to remove `x`, having closed its last handle. */
  predicate Last(k: Task, x: Idx) {
    ((k.CloseLeaving? && k.last) || (k.CloseDropping? && k.last) || k.CloseRemove? || k.CloseRemoving?) && k.x == x
  }

  /** It has not yet marked the entry. */
  predicate Unmarked(k: Task, pc: Pc) {
    k.CloseRemoving? ==> pc.RemoveLoad? || pc.RemoveCas?
  }

  predicate Mentions(k: Task, x: Idx) {
    !k.Rest? && !k.Fatal? && !k.Creating? && k.x == x
  }

  ghost predicate AgentOk(t: Tracer, a: Agent) {
    AgentAt(t, a, TaskOf(t.tasks, a), At(t.slab.pcs, a))
  }

  ghost predicate AgentAt(t: Tracer, a: Agent, k: Task, pc: Pc) {
    && Fits(t.slab, k, pc)
    && (pc.Inserted? ==> pc.idx !in t.counts && Usable(t.slab, pc.idx))
    && (k.CloneGetting? || k.CloneAdding? ==> k.h in t.handles && t.handles[k.h] == k.x && k.h !in t.closing)
    && (k.CloseGetting? || k.CloseCounting? ==>
          k.h in t.handles && t.handles[k.h] == k.x && k.h in t.closing && t.closing[k.h] == a)
    && (Carries(k, pc).Some? ==>
          var r := Carries(k, pc).value;
          r in t.slab.refs && t.slab.refs[r] == k.x && r in t.owners && t.owners[r] == a)
    && (forall x :: Last(k, x) ==> x in t.closers && t.closers[x] == a)
  }

  ghost predicate Agents(t: Tracer) {
    forall a :: AgentOk(t, a)
  }

  /** No index is in the hands of two agents that have just created it. */
  ghost predicate Births(t: Tracer) {
    forall a, b ::
      (At(t.slab.pcs, a).Inserted? && At(t.slab.pcs, b).Inserted?
       && At(t.slab.pcs, a).idx == At(t.slab.pcs, b).idx) ==>
        a == b
  }

  ghost predicate RefsOwned(t: Tracer) {
    forall r :: r in t.slab.refs ==>
                  r in t.owners && Carries(TaskOf(t.tasks, t.owners[r]), At(t.slab.pcs, t.owners[r])) == Some(r)
  }

  // ---- Spans ----

  function HandlesOn(handles: map<Handle, Idx>, x: Idx): set<Handle> {
    set h | h in handles && handles[h] == x
  }

  /**
   The counter of a span is its number of open handles. While one is open the entry is
   usable and nobody is removing it; when none is left exactly one agent is removing
   it, until exactly one `try_close` has returned true.
   */
  ghost predicate SpanOk(t: Tracer, x: Idx) {
    if x !in t.counts then t.closed[x] == 0 && x !in t.closers
    else
      && x in t.slab.issued && t.counts[x] == |HandlesOn(t.handles, x)|
      && if t.counts[x] > 0 then t.closed[x] == 0 && x !in t.closers && Usable(t.slab, x)
         else if x !in t.closers then t.closed[x] == 1 && Dead(t.slab, x)
         else
           var k, pc := TaskOf(t.tasks, t.closers[x]), At(t.slab.pcs, t.closers[x]);
           t.closed[x] == 0 && Last(k, x) && if Unmarked(k, pc) then Usable(t.slab, x) else Dead(t.slab, x)
  }

  ghost predicate Spans(t: Tracer) {
    && (forall x :: SpanOk(t, x))
    && (forall h :: h in t.handles ==> t.handles[h] in t.counts)
  }

  ghost predicate SpanInv(t: Tracer, g: Ghost) {
    Whole(t.slab, g) && Agents(t) && Births(t) && RefsOwned(t) && Spans(t)
  }

  lemma OpenIsUsable(t: Tracer, h: Handle)
    requires Spans(t) && h in t.handles
    ensures var x := t.handles[h];
            x in t.counts && t.counts[x] > 0 && Usable(t.slab, x) && t.closed[x] == 0 && x !in t.closers
  {
    assert SpanOk(t, t.handles[h]);
    assert h in HandlesOn(t.handles, t.handles[h]);
  }

  // ---- A step inside the slab ----

  /** The only successful removals are by agents that have closed the last handle. */
  lemma RemovalIsLast(t: Tracer, g: Ghost, l: Label)
    requires SpanInv(t, g) && l.Run? && Step(t.slab, l).Then? && Step(t.slab, l).event.Removed?
    ensures var x := Step(t.slab, l).event.idx;
            && TaskOf(t.tasks, l.agent) == CloseRemoving(x) && x in t.counts && t.counts[x] == 0
            && x in t.closers && t.closers[x] == l.agent && At(t.slab.pcs, l.agent).RemoveCas?
  {
    RemovedMatches(t.slab, l);
    var x := Step(t.slab, l).event.idx;
    assert AgentOk(t, l.agent);
    assert Last(TaskOf(t.tasks, l.agent), x);
    assert SpanOk(t, x);
  }

  /** How the slab's references move. */
  ghost predicate RefsMove(t: Tracer, u: Tracer, a: Agent, e: Event) {
    && u.slab.refs == (if e.Acquired? then t.slab.refs[e.ref := e.idx]
                       else if e.Released? then t.slab.refs - {e.ref} else t.slab.refs)
    && u.owners == (if e.Acquired? then t.owners[e.ref := a] else if e.Released? then t.owners - {e.ref} else t.owners)
    && (e.Acquired? ==> e.ref !in t.slab.refs)
    && (e.Released? ==> Carries(TaskOf(t.tasks, a), At(t.slab.pcs, a)) == Some(e.ref))
  }

  /** `u` is `t` after agent `a`'s slab operation makes an access. */
  ghost predicate InnerMove(t: Tracer, u: Tracer, l: Label) {
    && l.Run? && Step(t.slab, l).Then? && u.slab == Step(t.slab, l).state
    && u.counts == t.counts && u.handles == t.handles && u.closing == t.closing && u.tasks == t.tasks
    && u.closers == t.closers && u.closed == t.closed
    && Moves(t.slab, u.slab, l.agent, At(u.slab.pcs, l.agent))
    && RefsMove(t, u, l.agent, Step(t.slab, l).event)
  }

  /** A remover leaves its loop exactly by marking the entry. */
  ghost predicate MarkShows(t: Tracer, u: Tracer, a: Agent, e: Event) {
    var pc, q := At(t.slab.pcs, a), At(u.slab.pcs, a);
    TaskOf(t.tasks, a).CloseRemoving? ==>
      if pc.RemoveLoad? || pc.RemoveCas? then q.RemoveCas? <==> !e.Removed?
      else !q.RemoveLoad? && !q.RemoveCas?
  }

  /** The slab operation of an agent that does not step stays where it was. */
  lemma OthersFit(t: Tracer, g: Ghost, u: Tracer, l: Label, b: Agent)
    requires SpanInv(t, g) && InnerMove(t, u, l) && b != l.agent
    ensures At(u.slab.pcs, b) == At(t.slab.pcs, b) && Fits(u.slab, TaskOf(t.tasks, b), At(t.slab.pcs, b))
  {
    assert AgentOk(t, b);
    if Holding(At(t.slab.pcs, b)).Some? {
      HeldStable(t.slab, g, l, b);
    }
  }

  /** A span just created by another agent stays usable. */
  lemma OthersBirth(t: Tracer, g: Ghost, u: Tracer, l: Label, b: Agent)
    requires SpanInv(t, g) && InnerMove(t, u, l) && b != l.agent && At(t.slab.pcs, b).Inserted?
    ensures At(t.slab.pcs, b).idx !in u.counts && Usable(u.slab, At(t.slab.pcs, b).idx)
  {
    assert AgentOk(t, b);
    if Step(t.slab, l).event.Removed? {
      RemovalIsLast(t, g, l);
    }
    UsableStable(t.slab, g, l, At(t.slab.pcs, b).idx);
  }

  lemma OwnRef(t: Tracer, a: Agent, r: RefId)
    requires Agents(t) && Carries(TaskOf(t.tasks, a), At(t.slab.pcs, a)) == Some(r)
    ensures r in t.owners && t.owners[r] == a
  {
    assert AgentOk(t, a);
  }

  /** A slab reference of another agent stays. */
  lemma OthersRef(t: Tracer, g: Ghost, u: Tracer, l: Label, b: Agent, r: RefId)
    requires SpanInv(t, g) && InnerMove(t, u, l) && b != l.agent
    requires Carries(TaskOf(t.tasks, b), At(t.slab.pcs, b)) == Some(r)
    ensures r in t.slab.refs && r in u.slab.refs && u.slab.refs[r] == t.slab.refs[r] && r in u.owners
    ensures u.owners[r] == b
  {
    var e := Step(t.slab, l).event;
    assert AgentOk(t, b);
    if e.Released? {
      OwnRef(t, l.agent, e.ref);
    }
  }

  /** Agents other than the one that steps. */
  lemma InnerOthers(t: Tracer, g: Ghost, u: Tracer, l: Label, b: Agent)
    requires SpanInv(t, g) && InnerMove(t, u, l) && b != l.agent
    ensures AgentOk(u, b)
  {
    var k, pc := TaskOf(t.tasks, b), At(t.slab.pcs, b);
    OthersFit(t, g, u, l, b);
    if pc.Inserted? {
      OthersBirth(t, g, u, l, b);
    }
    assert AgentOk(t, b);
    if Carries(k, pc).Some? {
      OthersRef(t, g, u, l, b, Carries(k, pc).value);
    }
    assert AgentAt(u, b, k, pc);
  }

  /** A usable span stays usable unless this step removes it. */
  lemma InnerUsable(t: Tracer, g: Ghost, u: Tracer, l: Label, x: Idx)
    requires SpanInv(t, g) && InnerMove(t, u, l) && Usable(t.slab, x)
    ensures var e := Step(t.slab, l).event;
            if e.Removed? && e.idx == x
            then Dead(u.slab, x) && TaskOf(t.tasks, l.agent) == CloseRemoving(x) && x in t.counts && t.counts[x] == 0
                 && x in t.closers && t.closers[x] == l.agent && At(t.slab.pcs, l.agent).RemoveCas?
            else Usable(u.slab, x)
  {
    UsableStable(t.slab, g, l, x);
    if Step(t.slab, l).event.Removed? {
      RemovalIsLast(t, g, l);
      RemovedIsDead(t.slab, g, l);
    }
  }

  /** A removal under way is by a closer of its own span. */
  lemma RemovalElsewhere(t: Tracer, g: Ghost, l: Label, x: Idx)
    requires SpanInv(t, g) && l.Run? && Step(t.slab, l).Then? && x in t.closers && t.closers[x] == l.agent
    requires Step(t.slab, l).event.Removed? && x in t.counts && t.counts[x] == 0
    ensures Step(t.slab, l).event.idx == x
  {
    RemovalIsLast(t, g, l);
    assert SpanOk(t, x);
  }

  lemma InnerSpans(t: Tracer, g: Ghost, u: Tracer, l: Label, x: Idx)
    requires SpanInv(t, g) && InnerMove(t, u, l)
    requires x in t.slab.issued ==> x in u.slab.issued
    requires MarkShows(t, u, l.agent, Step(t.slab, l).event)
    ensures SpanOk(u, x)
  {
    assert SpanOk(t, x);
    if x in t.counts {
      if Usable(t.slab, x) {
        InnerUsable(t, g, u, l, x);
        if Step(t.slab, l).event.Removed? && t.counts[x] == 0 && x in t.closers && t.closers[x] == l.agent {
          RemovalElsewhere(t, g, l, x);
        }
      } else if Dead(t.slab, x) {
        StepKeepsDead(t.slab, g, l, x);
      }
    }
  }

  // The agent that steps, by the kind of slab operation it is in. `q` is where it stands afterwards.

  lemma CreateAllocates(t: Tracer, g: Ghost, a: Agent, cpu: Cpu)
    requires SpanInv(t, g) && Allocating(At(t.slab.pcs, a)) && AllocStep(t.slab, a, At(t.slab.pcs, a), cpu).Then?
    ensures var o := AllocStep(t.slab, a, At(t.slab.pcs, a), cpu); var q := At(o.state.pcs, a);
            && (Allocating(q) || q.Inserted?)
            && (q.Inserted? ==> q.idx !in t.counts && q.idx !in t.slab.issued && Usable(o.state, q.idx))
  {
    var pc := At(t.slab.pcs, a);
    HolderKnows(t.slab, g, a);
    if pc.AllocProcessor? {
      PublishInv(t.slab, g, a, cpu);
      assert SpanOk(t, Idx(pc.gen, pc.i));
    }
  }

  lemma GetAdvances(t: Tracer, g: Ghost, a: Agent, name: RefId)
    requires SpanInv(t, g) && Getting(TaskOf(t.tasks, a)) && (At(t.slab.pcs, a).GetLoad? || At(t.slab.pcs, a).GetCas?)
    requires GetStep(t.slab, a, At(t.slab.pcs, a), name).Then?
    ensures var o := GetStep(t.slab, a, At(t.slab.pcs, a), name); var q, x := At(o.state.pcs, a), TaskOf(t.tasks, a).x;
            || (o.event.Silent? && q.GetCas? && q.idx == x && Matching(q.prev, x))
            || (o.event == Acquired(x, name) && q == GetDone(Some(name)) && name !in t.slab.refs)
  {
    assert AgentOk(t, a);
    OpenIsUsable(t, TaskOf(t.tasks, a).h);
  }

  lemma DropAdvances(t: Tracer, g: Ghost, a: Agent)
    requires SpanInv(t, g) && Dropping(TaskOf(t.tasks, a))
    requires (At(t.slab.pcs, a).DropLoad? || At(t.slab.pcs, a).DropCas?)
    requires DropStep(t.slab, a, At(t.slab.pcs, a)).Then?
    ensures var o := DropStep(t.slab, a, At(t.slab.pcs, a));
            var q, pc, x := At(o.state.pcs, a), At(t.slab.pcs, a), TaskOf(t.tasks, a).x;
            || (o.event.Silent? && q.DropCas? && q.idx == x && q.ref == pc.ref)
            || (o.event.Released? && o.event.ref == pc.ref
                && (q.DropDone? || (q == ClearLoad(x.index, ByDrop) && Returning(o.state, q, x))))
  {
    assert AgentOk(t, a);
    DropLifecycles(t.slab, g, a);
    DropShape(t.slab, a);
  }

  /** Where a release that meets its own generation leads. */
  lemma DropShape(s: Slab, a: Agent)
    requires (At(s.pcs, a).DropLoad? || At(s.pcs, a).DropCas?) && DropStep(s, a, At(s.pcs, a)).Then?
    ensures var o := DropStep(s, a, At(s.pcs, a)); var q, pc := At(o.state.pcs, a), At(s.pcs, a);
            || (o.event.Silent? && q.DropCas? && q.idx == pc.idx && q.ref == pc.ref)
            || (o.event.Released? && o.event.ref == pc.ref
                && (q.DropDone? || (q == ClearLoad(pc.idx.index, ByDrop) && Returning(o.state, q, pc.idx))))
  {
  }

  lemma RemoveAdvances(t: Tracer, g: Ghost, a: Agent, spurious: bool)
    requires SpanInv(t, g) && TaskOf(t.tasks, a).CloseRemoving?
    requires (At(t.slab.pcs, a).RemoveLoad? || At(t.slab.pcs, a).RemoveCas?)
    requires RemoveStep(t.slab, a, At(t.slab.pcs, a), spurious).Then?
    ensures var o := RemoveStep(t.slab, a, At(t.slab.pcs, a), spurious);
            var q, x := At(o.state.pcs, a), TaskOf(t.tasks, a).x;
            || (o.event.Silent? && q.RemoveCas? && q.idx == x && Matching(q.prev, x))
            || (o.event.Removed? && o.event.idx == x && At(t.slab.pcs, a).RemoveCas?
                && (q == RemoveDone(true) || (q == ClearLoad(x.index, ByRemove) && Returning(o.state, q, x))))
  {
    var x := TaskOf(t.tasks, a).x;
    assert AgentOk(t, a);
    assert Last(TaskOf(t.tasks, a), x);
    assert SpanOk(t, x);
    RemoveShape(t.slab, a, spurious, x);
  }

  /** Where a removal that finds its entry leads. */
  lemma RemoveShape(s: Slab, a: Agent, spurious: bool, x: Idx)
    requires x.index < |s.slots| && Matching(s.slots[x.index].life, x)
    requires var pc := At(s.pcs, a); (pc.RemoveLoad? || (pc.RemoveCas? && Matching(pc.prev, x))) && pc.idx == x
    requires RemoveStep(s, a, At(s.pcs, a), spurious).Then?
    ensures var o := RemoveStep(s, a, At(s.pcs, a), spurious); var q := At(o.state.pcs, a);
            || (o.event.Silent? && q.RemoveCas? && q.idx == x && Matching(q.prev, x))
            || (o.event.Removed? && o.event.idx == x && At(s.pcs, a).RemoveCas?
                && (q == RemoveDone(true) || (q == ClearLoad(x.index, ByRemove) && Returning(o.state, q, x))))
  {
  }

  /** A slot on its way back stays of its generation until it is on a list. */
  lemma ReturnAdvances(t: Tracer, g: Ghost, l: Label, x: Idx)
    requires SpanInv(t, g) && l.Run? && Step(t.slab, l).Then? && Returning(t.slab, At(t.slab.pcs, l.agent), x)
    ensures var u := Step(t.slab, l).state; var q, pc := At(u.pcs, l.agent), At(t.slab.pcs, l.agent);
            q == Done(pc.cause) || (Returning(u, q, x) && q.cause == pc.cause)
  {
    var a, pc := l.agent, At(t.slab.pcs, l.agent);
    HolderKnows(t.slab, g, a);
    if Clearing(pc) {
      assert Step(t.slab, l) == ClearStep(t.slab, a, pc, l.cpu);
      ClearReturning(t.slab, a, l.cpu, x);
    } else {
      assert Step(t.slab, l) == PushStep(t.slab, a, pc, l.cpu);
      PushReturning(t.slab, a, l.cpu, x);
    }
  }

  lemma ClearReturning(s: Slab, a: Agent, cpu: Cpu, x: Idx)
    requires Clearing(At(s.pcs, a)) && ClearStep(s, a, At(s.pcs, a), cpu).Then? && Returning(s, At(s.pcs, a), x)
    requires At(s.pcs, a).ClearStore? ==> At(s.pcs, a).life == s.slots[x.index].life
    ensures var u := ClearStep(s, a, At(s.pcs, a), cpu).state;
            Returning(u, At(u.pcs, a), x) && At(u.pcs, a).cause == At(s.pcs, a).cause
  {
  }

  lemma PushReturning(s: Slab, a: Agent, cpu: Cpu, x: Idx)
    requires Pushing(At(s.pcs, a)) && PushStep(s, a, At(s.pcs, a), cpu).Then? && Returning(s, At(s.pcs, a), x)
    ensures var u := PushStep(s, a, At(s.pcs, a), cpu).state; var q := At(u.pcs, a);
            q == Done(At(s.pcs, a).cause) || (Returning(u, q, x) && q.cause == At(s.pcs, a).cause)
  {
    PushKeepsLives(s, a, cpu);
    PushOn(s, a, cpu);
  }

  lemma PushKeepsLives(s: Slab, a: Agent, cpu: Cpu)
    requires Pushing(At(s.pcs, a)) && PushStep(s, a, At(s.pcs, a), cpu).Then?
    ensures var u := PushStep(s, a, At(s.pcs, a), cpu).state;
            |u.slots| == |s.slots| && forall j :: 0 <= j < |s.slots| ==> u.slots[j].life == s.slots[j].life
  {
  }

  lemma PushOn(s: Slab, a: Agent, cpu: Cpu)
    requires Pushing(At(s.pcs, a)) && PushStep(s, a, At(s.pcs, a), cpu).Then?
    ensures var q, pc := At(PushStep(s, a, At(s.pcs, a), cpu).state.pcs, a), At(s.pcs, a);
            q == Done(pc.cause) || (Pushing(q) && q.i == pc.i && q.cause == pc.cause)
  {
  }

  /** What the stepping agent's own move must provide. */
  ghost predicate SelfOk(t: Tracer, u: Tracer, a: Agent, e: Event) {
    var k, pc, q := TaskOf(t.tasks, a), At(t.slab.pcs, a), At(u.slab.pcs, a);
    && AgentOk(u, a) && MarkShows(t, u, a, e)
    && (forall x :: x in t.slab.issued ==> x in u.slab.issued)
    && (q.Inserted? ==> q.idx !in t.slab.issued)
    && (e.Acquired? ==> Carries(k, q) == Some(e.ref))
    && (Carries(k, pc).Some? ==> Carries(k, q) == Carries(k, pc) || Carries(k, pc).value !in u.slab.refs)
  }

  lemma InnerInv(t: Tracer, g: Ghost, u: Tracer, l: Label)
    requires SpanInv(t, g) && InnerMove(t, u, l) && SelfOk(t, u, l.agent, Step(t.slab, l).event)
    ensures SpanInv(u, Track(g, l.agent, Step(t.slab, l).event))
  {
    StepInv(t.slab, g, l);
    StepCounts(t.slab, g, l);
    forall b
      ensures AgentOk(u, b)
    {
      if b != l.agent {
        InnerOthers(t, g, u, l, b);
      }
    }
    InnerBirths(t, g, u, l.agent, Step(t.slab, l).event);
    InnerRefs(t, g, u, l.agent, Step(t.slab, l).event);
    forall x
      ensures SpanOk(u, x)
    {
      InnerSpans(t, g, u, l, x);
    }
  }

  lemma InnerBirths(t: Tracer, g: Ghost, u: Tracer, a: Agent, e: Event)
    requires SpanInv(t, g) && SelfOk(t, u, a, e) && Moves(t.slab, u.slab, a, At(u.slab.pcs, a))
    ensures Births(u)
  {
    forall b, c | At(u.slab.pcs, b).Inserted? && At(u.slab.pcs, c).Inserted?
        && At(u.slab.pcs, b).idx == At(u.slab.pcs, c).idx
      ensures b == c
    {
      assert AgentOk(t, b) && AgentOk(t, c);
    }
  }

  lemma InnerRefs(t: Tracer, g: Ghost, u: Tracer, a: Agent, e: Event)
    requires SpanInv(t, g) && SelfOk(t, u, a, e) && Moves(t.slab, u.slab, a, At(u.slab.pcs, a))
    requires RefsMove(t, u, a, e) && u.tasks == t.tasks
    ensures RefsOwned(u)
  {
    forall r | r in u.slab.refs
      ensures r in u.owners && Carries(TaskOf(u.tasks, u.owners[r]), At(u.slab.pcs, u.owners[r])) == Some(r)
    {
    }
  }

  /** Everything but the slab and the owners of its references stays. */
  ghost predicate InnerFrame(t: Tracer, u: Tracer, a: Agent, e: Event) {
    && u.counts == t.counts && u.handles == t.handles && u.closing == t.closing && u.tasks == t.tasks
    && u.closers == t.closers && u.closed == t.closed
    && u.owners == (if e.Acquired? then t.owners[e.ref := a] else if e.Released? then t.owners - {e.ref} else t.owners)
  }

  /** A step that acquires and releases nothing. */
  lemma QuietRefs(t: Tracer, u: Tracer, a: Agent, e: Event)
    requires InnerFrame(t, u, a, e) && !e.Acquired? && !e.Released? && u.slab.refs == t.slab.refs
    ensures RefsMove(t, u, a, e)
  {
  }

  lemma SelfCreates(t: Tracer, g: Ghost, u: Tracer, a: Agent, e: Event)
    requires SpanInv(t, g) && InnerFrame(t, u, a, e) && TaskOf(t.tasks, a).Creating?
    requires !e.Acquired? && !e.Released? && !e.Removed?
    requires forall x :: x in t.slab.issued ==> x in u.slab.issued
    requires u.slab.refs == t.slab.refs
    requires var q := At(u.slab.pcs, a);
             && (Popping(q) || Allocating(q) || q.Inserted? || q.InsertFailed?)
             && (q.Inserted? ==> q.idx !in t.counts && q.idx !in t.slab.issued && Usable(u.slab, q.idx))
    ensures SelfOk(t, u, a, e) && RefsMove(t, u, a, e)
  {
    assert AgentOk(t, a);
    QuietRefs(t, u, a, e);
    CreatorAt(u, a, At(u.slab.pcs, a));
    assert Carries(Creating, At(t.slab.pcs, a)).None?;
  }

  /** An agent in the middle of `new_span`. */
  lemma CreatorAt(u: Tracer, a: Agent, q: Pc)
    requires Popping(q) || Allocating(q) || q.Inserted? || q.InsertFailed?
    requires q.Inserted? ==> q.idx !in u.counts && Usable(u.slab, q.idx)
    ensures AgentAt(u, a, Creating, q) && Carries(Creating, q).None?
  {
  }

  lemma SelfGets(t: Tracer, g: Ghost, u: Tracer, a: Agent, e: Event, name: RefId)
    requires SpanInv(t, g) && InnerFrame(t, u, a, e) && Getting(TaskOf(t.tasks, a))
    requires At(t.slab.pcs, a).GetLoad? || At(t.slab.pcs, a).GetCas?
    requires u.slab.issued == t.slab.issued
    requires var q, x := At(u.slab.pcs, a), TaskOf(t.tasks, a).x;
             || (e.Silent? && q.GetCas? && q.idx == x && Matching(q.prev, x) && u.slab.refs == t.slab.refs)
             || (e == Acquired(x, name) && q == GetDone(Some(name)) && name !in t.slab.refs
                   && u.slab.refs == t.slab.refs[name := x])
    ensures SelfOk(t, u, a, e) && RefsMove(t, u, a, e)
  {
    assert AgentOk(t, a);
  }

  lemma SelfReturns(t: Tracer, g: Ghost, u: Tracer, a: Agent, e: Event)
    requires SpanInv(t, g) && InnerFrame(t, u, a, e) && Holding(At(t.slab.pcs, a)).Some?
    requires !e.Acquired? && !e.Released? && !e.Removed? && u.slab.refs == t.slab.refs
    requires forall x :: x in t.slab.issued ==> x in u.slab.issued
    requires var k, pc, q := TaskOf(t.tasks, a), At(t.slab.pcs, a), At(u.slab.pcs, a);
             && (Dropping(k) || k.CloseRemoving?) && (Clearing(pc) || Pushing(pc))
             && (q == Done(pc.cause) || (Returning(u.slab, q, k.x) && q.cause == pc.cause))
    ensures SelfOk(t, u, a, e) && RefsMove(t, u, a, e)
  {
    assert AgentOk(t, a);
    var k, q := TaskOf(t.tasks, a), At(u.slab.pcs, a);
    QuietRefs(t, u, a, e);
    ReturnFits(t.slab, u.slab, k, At(t.slab.pcs, a), q);
    assert AgentAt(u, a, k, q);
  }

  /** An agent returning a slot holds no reference and keeps the place its task allows. */
  lemma ReturnFits(s: Slab, v: Slab, k: Task, pc: Pc, q: Pc)
    requires Fits(s, k, pc) && (Clearing(pc) || Pushing(pc)) && (Dropping(k) || k.CloseRemoving?)
    requires q == Done(pc.cause) || (Returning(v, q, k.x) && q.cause == pc.cause)
    ensures Fits(v, k, q) && Carries(k, q).None? && Carries(k, pc).None? && !q.Inserted?
    ensures !q.RemoveLoad? && !q.RemoveCas?
  {
  }

  lemma SelfDrops(t: Tracer, g: Ghost, u: Tracer, a: Agent, e: Event)
    requires SpanInv(t, g) && InnerFrame(t, u, a, e) && Dropping(TaskOf(t.tasks, a))
    requires At(t.slab.pcs, a).DropLoad? || At(t.slab.pcs, a).DropCas?
    requires u.slab.issued == t.slab.issued
    requires var q, pc, x := At(u.slab.pcs, a), At(t.slab.pcs, a), TaskOf(t.tasks, a).x;
             || (e.Silent? && q.DropCas? && q.idx == x && q.ref == pc.ref && u.slab.refs == t.slab.refs)
             || (e.Released? && e.ref == pc.ref && u.slab.refs == t.slab.refs - {pc.ref}
                 && (q.DropDone? || (q == ClearLoad(x.index, ByDrop) && Returning(u.slab, q, x))))
    ensures SelfOk(t, u, a, e) && RefsMove(t, u, a, e)
  {
    assert AgentOk(t, a);
  }

  lemma SelfRemoves(t: Tracer, g: Ghost, u: Tracer, a: Agent, e: Event)
    requires SpanInv(t, g) && InnerFrame(t, u, a, e) && TaskOf(t.tasks, a).CloseRemoving?
    requires At(t.slab.pcs, a).RemoveLoad? || At(t.slab.pcs, a).RemoveCas?
    requires u.slab.issued == t.slab.issued && u.slab.refs == t.slab.refs
    requires var q, x := At(u.slab.pcs, a), TaskOf(t.tasks, a).x;
             || (e.Silent? && q.RemoveCas? && q.idx == x && Matching(q.prev, x))
             || (e.Removed? && (q == RemoveDone(true)
                   || (q == ClearLoad(x.index, ByRemove) && Returning(u.slab, q, x))))
    ensures SelfOk(t, u, a, e) && RefsMove(t, u, a, e)
  {
    assert AgentOk(t, a);
  }

  lemma PopSelf(t: Tracer, g: Ghost, u: Tracer, a: Agent, cpu: Cpu)
    requires SpanInv(t, g) && Popping(At(t.slab.pcs, a)) && PopStep(t.slab, a, At(t.slab.pcs, a), cpu).Then?
    requires u.slab == PopStep(t.slab, a, At(t.slab.pcs, a), cpu).state
    requires InnerFrame(t, u, a, PopStep(t.slab, a, At(t.slab.pcs, a), cpu).event)
    ensures var e := PopStep(t.slab, a, At(t.slab.pcs, a), cpu).event; SelfOk(t, u, a, e) && RefsMove(t, u, a, e)
  {
    assert AgentOk(t, a);
    PopLeads(t.slab, a, cpu);
    PopGentle(t.slab, a, cpu);
    SelfCreates(t, g, u, a, PopStep(t.slab, a, At(t.slab.pcs, a), cpu).event);
  }

  lemma GetSelf(t: Tracer, g: Ghost, u: Tracer, a: Agent, name: RefId)
    requires SpanInv(t, g) && (At(t.slab.pcs, a).GetLoad? || At(t.slab.pcs, a).GetCas?)
    requires GetStep(t.slab, a, At(t.slab.pcs, a), name).Then?
    requires u.slab == GetStep(t.slab, a, At(t.slab.pcs, a), name).state
    requires InnerFrame(t, u, a, GetStep(t.slab, a, At(t.slab.pcs, a), name).event)
    ensures var e := GetStep(t.slab, a, At(t.slab.pcs, a), name).event; SelfOk(t, u, a, e) && RefsMove(t, u, a, e)
  {
    assert AgentOk(t, a);
    GetAdvances(t, g, a, name);
    GetGentle(t.slab, a, name);
    SelfGets(t, g, u, a, GetStep(t.slab, a, At(t.slab.pcs, a), name).event, name);
  }

  lemma RemoveSelf(t: Tracer, g: Ghost, u: Tracer, a: Agent, spurious: bool)
    requires SpanInv(t, g) && (At(t.slab.pcs, a).RemoveLoad? || At(t.slab.pcs, a).RemoveCas?)
    requires RemoveStep(t.slab, a, At(t.slab.pcs, a), spurious).Then?
    requires u.slab == RemoveStep(t.slab, a, At(t.slab.pcs, a), spurious).state
    requires InnerFrame(t, u, a, RemoveStep(t.slab, a, At(t.slab.pcs, a), spurious).event)
    ensures var e := RemoveStep(t.slab, a, At(t.slab.pcs, a), spurious).event;
            SelfOk(t, u, a, e) && RefsMove(t, u, a, e)
  {
    assert AgentOk(t, a);
    RemoveAdvances(t, g, a, spurious);
    RemoveGentle(t.slab, a, spurious);
    SelfRemoves(t, g, u, a, RemoveStep(t.slab, a, At(t.slab.pcs, a), spurious).event);
  }

  lemma DropperDrops(t: Tracer, a: Agent)
    requires Agents(t) && (At(t.slab.pcs, a).DropLoad? || At(t.slab.pcs, a).DropCas?)
    ensures Dropping(TaskOf(t.tasks, a))
  {
    assert AgentOk(t, a);
  }

  lemma DropSelf(t: Tracer, g: Ghost, u: Tracer, a: Agent)
    requires SpanInv(t, g) && (At(t.slab.pcs, a).DropLoad? || At(t.slab.pcs, a).DropCas?)
    requires DropStep(t.slab, a, At(t.slab.pcs, a)).Then?
    requires u.slab == DropStep(t.slab, a, At(t.slab.pcs, a)).state
    requires InnerFrame(t, u, a, DropStep(t.slab, a, At(t.slab.pcs, a)).event)
    ensures var e := DropStep(t.slab, a, At(t.slab.pcs, a)).event; SelfOk(t, u, a, e) && RefsMove(t, u, a, e)
  {
    DropperDrops(t, a);
    DropAdvances(t, g, a);
    DropGentle(t.slab, a);
    SelfDrops(t, g, u, a, DropStep(t.slab, a, At(t.slab.pcs, a)).event);
  }

  /** Only a creating agent allocates. */
  lemma OnlyCreating(s: Slab, k: Task, pc: Pc)
    requires Fits(s, k, pc) && Allocating(pc)
    ensures k.Creating?
  {
  }

  lemma AllocSelf(t: Tracer, g: Ghost, u: Tracer, a: Agent, cpu: Cpu)
    requires SpanInv(t, g) && Allocating(At(t.slab.pcs, a)) && AllocStep(t.slab, a, At(t.slab.pcs, a), cpu).Then?
    requires u.slab == AllocStep(t.slab, a, At(t.slab.pcs, a), cpu).state
    requires InnerFrame(t, u, a, AllocStep(t.slab, a, At(t.slab.pcs, a), cpu).event)
    ensures var e := AllocStep(t.slab, a, At(t.slab.pcs, a), cpu).event; SelfOk(t, u, a, e) && RefsMove(t, u, a, e)
  {
    assert AgentOk(t, a);
    OnlyCreating(t.slab, TaskOf(t.tasks, a), At(t.slab.pcs, a));
    CreateAllocates(t, g, a, cpu);
    AllocOnlySlot(t.slab, a, cpu);
    SelfCreates(t, g, u, a, AllocStep(t.slab, a, At(t.slab.pcs, a), cpu).event);
  }

  /** An agent inside a slab operation has a task, and its step provides what is asked. */
  lemma InnerSelf(t: Tracer, g: Ghost, u: Tracer, l: Label)
    requires SpanInv(t, g) && l.Run? && Step(t.slab, l).Then? && u.slab == Step(t.slab, l).state
    requires InnerFrame(t, u, l.agent, Step(t.slab, l).event)
    ensures SelfOk(t, u, l.agent, Step(t.slab, l).event) && RefsMove(t, u, l.agent, Step(t.slab, l).event)
  {
    var a, pc := l.agent, At(t.slab.pcs, l.agent);
    if Popping(pc) {
      PopSelf(t, g, u, a, l.cpu);
    } else if Allocating(pc) {
      AllocSelf(t, g, u, a, l.cpu);
    } else if pc.GetLoad? || pc.GetCas? {
      GetSelf(t, g, u, a, l.name);
    } else if pc.RemoveLoad? || pc.RemoveCas? {
      RemoveSelf(t, g, u, a, l.spurious);
    } else if pc.DropLoad? || pc.DropCas? {
      DropSelf(t, g, u, a);
    } else {
      assert AgentOk(t, a);
      ReturnAdvances(t, g, l, TaskOf(t.tasks, a).x);
      HolderOnlySlot(t.slab, l);
      SelfReturns(t, g, u, a, Step(t.slab, l).event);
    }
  }

  /** An access inside a slab operation keeps the invariant. */
  lemma InnerStep(t: Tracer, g: Ghost, l: Label, u: Tracer)
    requires SpanInv(t, g) && l.Run? && Step(t.slab, l).Then? && u.slab == Step(t.slab, l).state
    requires InnerFrame(t, u, l.agent, Step(t.slab, l).event)
    ensures SpanInv(u, Track(g, l.agent, Step(t.slab, l).event))
  {
    InnerSelf(t, g, u, l);
    if Holding(At(t.slab.pcs, l.agent)).Some? {
      HolderOnlySlot(t.slab, l);
    } else {
      OtherGentle(t.slab, l);
    }
    InnerInv(t, g, u, l);
  }
}
