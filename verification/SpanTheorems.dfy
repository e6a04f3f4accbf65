/**
 What span reference counting guarantees over whole runs, in which any number of agents
 create, clone and close spans and their slab accesses interleave in any order.
 */
module SpanTheorems {
  import opened Options
  import opened Packing
  import opened SlabMachine
  import opened SlabLists
  import opened SlabLifecycle
  import opened SlabInvariant
  import opened SlabCounts
  import opened SlabTheorems
  import opened SlabFrames
  import opened SpanMachine
  import opened SpanInvariant
  import opened SpanSteps

  // ---- Every act keeps the invariant ----

  /** The slab's ghost record after an act. */
  function Recorded(t: Tracer, g: Ghost, c: Act): Ghost
    requires SlabAfter(t, c).Then?
  {
    match SlabLabel(t, c)
    case None => g
    case Some(l) => Track(g, l.agent, Step(t.slab, l).event)
  }

  lemma HandleIssued(t: Tracer, g: Ghost, h: Handle)
    requires SpanInv(t, g) && h in t.handles
    ensures Usable(t.slab, t.handles[h])
  {
    OpenIsUsable(t, h);
  }

  lemma StartInv(t: Tracer, g: Ghost, c: Act)
    requires SpanInv(t, g) && Perform(t, c).Ok? && (c.NewSpan? || c.Clone? || c.Close?)
    ensures SlabLabel(t, c).Some? && Disciplined(t.slab, SlabLabel(t, c).value)
    ensures Recorded(t, g, c) == g && SpanInv(Perform(t, c).next, g)
  {
    var l := SlabLabel(t, c).value;
    if !c.NewSpan? {
      HandleIssued(t, g, c.h);
    }
    SlabKept(t, g, l);
    var s := ClientStep(t.slab, l).state;
    match c
    case NewSpan(a, v) => StartsNew(t, g, s, a, v);
    case Clone(a, h) => StartsClone(t, g, s, a, h);
    case Close(a, h) => StartsClose(t, g, s, a, h);
  }

  lemma InnerActInv(t: Tracer, g: Ghost, c: Act)
    requires SpanInv(t, g) && Perform(t, c).Ok? && c.Inner?
    ensures SpanInv(Perform(t, c).next, Recorded(t, g, c))
  {
    InnerStep(t, g, Run(c.agent, c.cpu, c.name, c.spurious), Perform(t, c).next);
  }

  lemma CountInv(t: Tracer, g: Ghost, c: Act)
    requires SpanInv(t, g) && Perform(t, c).Ok? && c.Proceed? && SlabLabel(t, c).None?
    ensures SpanInv(Perform(t, c).next, g)
  {
    if TaskOf(t.tasks, c.agent).CloneAdding? {
      Cloned(t, g, c.agent, c.newHandle);
    } else {
      Uncounted(t, g, c.agent);
    }
  }

  lemma CallInv(t: Tracer, g: Ghost, c: Act)
    requires SpanInv(t, g) && Perform(t, c).Ok? && c.Proceed?
    requires SlabLabel(t, c).Some? && !SlabLabel(t, c).value.Finish?
    ensures Disciplined(t.slab, SlabLabel(t, c).value)
    ensures Recorded(t, g, c) == g && SpanInv(Perform(t, c).next, g)
  {
    var a, l, k := c.agent, SlabLabel(t, c).value, TaskOf(t.tasks, c.agent);
    assert AgentOk(t, a);
    if k.CloseRemove? {
      assert Last(k, k.x);
      assert SpanOk(t, k.x);
      SlabKept(t, g, l);
      StartsRemove(t, g, ClientStep(t.slab, l).state, a);
    } else {
      SlabKept(t, g, l);
      Leaves(t, g, ClientStep(t.slab, l).state, a,
             if k.CloneLeaving? then CloneDropping(k.x) else CloseDropping(k.x, k.last));
    }
  }

  /** The slab operation of `new_span` is over. */
  lemma FinishNew(t: Tracer, g: Ghost, c: Act)
    requires SpanInv(t, g) && Perform(t, c).Ok? && c.Proceed? && SlabLabel(t, c) == Some(Finish(c.agent))
    requires TaskOf(t.tasks, c.agent).Creating?
    ensures Recorded(t, g, c) == g && SpanInv(Perform(t, c).next, g)
  {
    var a := c.agent;
    SlabKept(t, g, Finish(a));
    var s := ClientStep(t.slab, Finish(a)).state;
    if At(t.slab.pcs, a).Inserted? {
      Created(t, g, s, a, c.newHandle);
    } else {
      Fails(t, g, s, a);
    }
  }

  /** The `get` of `clone_span` or `try_close` is over. */
  lemma FinishGet(t: Tracer, g: Ghost, c: Act)
    requires SpanInv(t, g) && Perform(t, c).Ok? && c.Proceed? && SlabLabel(t, c) == Some(Finish(c.agent))
    requires Getting(TaskOf(t.tasks, c.agent))
    ensures Recorded(t, g, c) == g && SpanInv(Perform(t, c).next, g)
  {
    var a, k, pc := c.agent, TaskOf(t.tasks, c.agent), At(t.slab.pcs, c.agent);
    assert AgentOk(t, a);
    SlabKept(t, g, Finish(a));
    var s := ClientStep(t.slab, Finish(a)).state;
    Receives(t, g, s, a,
             if k.CloneGetting? then CloneAdding(k.h, k.x, pc.got.value) else CloseCounting(k.h, k.x, pc.got.value));
  }

  /** A finished slab operation is the one the task asked for. */
  lemma FinishedAs(t: Tracer, a: Agent)
    requires Agents(t) && Finished(At(t.slab.pcs, a))
    ensures Dropping(TaskOf(t.tasks, a)) ==> At(t.slab.pcs, a).DropDone?
    ensures TaskOf(t.tasks, a).CloseRemoving? ==> At(t.slab.pcs, a).RemoveDone?
  {
    assert AgentOk(t, a);
  }

  /** The `remove` of `try_close` is over. */
  lemma FinishRemove(t: Tracer, g: Ghost, c: Act)
    requires SpanInv(t, g) && Perform(t, c).Ok? && c.Proceed? && SlabLabel(t, c) == Some(Finish(c.agent))
    requires TaskOf(t.tasks, c.agent).CloseRemoving?
    ensures Recorded(t, g, c) == g && SpanInv(Perform(t, c).next, g)
  {
    var a := c.agent;
    RemoveAct(t, c);
    FinishedAs(t, a);
    SlabKept(t, g, Finish(a));
    Closed(t, g, ClientStep(t.slab, Finish(a)).state, a);
  }

  lemma RemoveAct(t: Tracer, c: Act)
    requires Perform(t, c).Ok? && c.Proceed? && SlabLabel(t, c) == Some(Finish(c.agent))
    requires TaskOf(t.tasks, c.agent).CloseRemoving?
    ensures Finished(At(t.slab.pcs, c.agent)) && ClientStep(t.slab, Finish(c.agent)).Then?
    ensures var a, x := c.agent, TaskOf(t.tasks, c.agent).x;
            Perform(t, c).next == t.(slab := ClientStep(t.slab, Finish(a)).state, closers := t.closers - {x},
                                     closed := t.closed + multiset{x}, tasks := SetTask(t.tasks, a, Rest))
  {
  }

  /** What an agent does after its drop. */
  function AfterDrop(k: Task): Task {
    if k.CloseDropping? && k.last then CloseRemove(k.x) else Rest
  }

  lemma DropAct(t: Tracer, c: Act)
    requires Perform(t, c).Ok? && c.Proceed? && SlabLabel(t, c) == Some(Finish(c.agent))
    requires Dropping(TaskOf(t.tasks, c.agent))
    ensures Finished(At(t.slab.pcs, c.agent)) && ClientStep(t.slab, Finish(c.agent)).Then?
    ensures var a := c.agent;
            Perform(t, c).next == t.(slab := ClientStep(t.slab, Finish(a)).state,
                                     tasks := SetTask(t.tasks, a, AfterDrop(TaskOf(t.tasks, a))))
  {
  }

  /** The drop of the slab reference is over. */
  lemma FinishDrop(t: Tracer, g: Ghost, c: Act)
    requires SpanInv(t, g) && Perform(t, c).Ok? && c.Proceed? && SlabLabel(t, c) == Some(Finish(c.agent))
    requires Dropping(TaskOf(t.tasks, c.agent))
    ensures Recorded(t, g, c) == g && SpanInv(Perform(t, c).next, g)
  {
    var a, k := c.agent, TaskOf(t.tasks, c.agent);
    DropAct(t, c);
    FinishedAs(t, a);
    SlabKept(t, g, Finish(a));
    Left(t, g, ClientStep(t.slab, Finish(a)).state, a, AfterDrop(k));
  }

  lemma FinishInv(t: Tracer, g: Ghost, c: Act)
    requires SpanInv(t, g) && Perform(t, c).Ok? && c.Proceed? && SlabLabel(t, c) == Some(Finish(c.agent))
    ensures Recorded(t, g, c) == g && SpanInv(Perform(t, c).next, g)
  {
    var k := TaskOf(t.tasks, c.agent);
    if k.Creating? {
      FinishNew(t, g, c);
    } else if Getting(k) {
      FinishGet(t, g, c);
    } else if k.CloseRemoving? {
      FinishRemove(t, g, c);
    } else {
      FinishDrop(t, g, c);
    }
  }

  lemma ActInv(t: Tracer, g: Ghost, c: Act)
    requires SpanInv(t, g) && Perform(t, c).Ok?
    ensures SlabLabel(t, c).Some? ==> Disciplined(t.slab, SlabLabel(t, c).value)
    ensures SpanInv(Perform(t, c).next, Recorded(t, g, c))
  {
    if c.Inner? {
      InnerActInv(t, g, c);
    } else if !c.Proceed? {
      StartInv(t, g, c);
    } else if SlabLabel(t, c).None? {
      CountInv(t, g, c);
    } else if SlabLabel(t, c).value.Finish? {
      FinishInv(t, g, c);
    } else {
      CallInv(t, g, c);
    }
  }

  // ---- Runs ----

  /** No span exists and no agent is at work on one, whatever the slab. */
  ghost predicate Spanless(t: Tracer) {
    && t.counts == map[] && t.handles == map[] && t.closing == map[] && (forall a :: TaskOf(t.tasks, a).Rest?)
    && t.owners == map[] && t.closers == map[] && t.closed == multiset{}
  }

  ghost predicate Blank(t: Tracer) {
    SafeStart(t.slab) && Spanless(t)
  }

  lemma BlankInv(t: Tracer, g: Ghost)
    requires Blank(t) && StartsAt(t.slab, g)
    ensures SpanInv(t, g)
  {
    StockedWhole(t.slab, g);
    forall x
      ensures SpanOk(t, x)
    {
    }
  }

  lemma RunsCons(s: Slab, g: Ghost, l: Label, ls: seq<Label>)
    requires Step(s, l).Then? && Disciplined(s, l) && Behaves(Step(s, l).state, ls) && Runs(Step(s, l).state, ls)
    ensures Behaves(s, [l] + ls) && Runs(s, [l] + ls) && Exec(s, [l] + ls) == Exec(Step(s, l).state, ls)
    ensures Trail(s, g, [l] + ls) == Trail(Step(s, l).state, Track(g, l.agent, Step(s, l).event), ls)
  {
    assert ([l] + ls)[0] == l && ([l] + ls)[1..] == ls;
  }

  /** An act does to the slab what its label says. */
  lemma ActSlab(t: Tracer, c: Act)
    requires Perform(t, c).Ok?
    ensures SlabAfter(t, c).Then? && Perform(t, c).next.slab == SlabAfter(t, c).state
  {
    if c.Proceed? {
      AdvanceSlab(t, t.(slab := SlabAfter(t, c).state), c.agent, TaskOf(t.tasks, c.agent), c.newHandle);
    }
  }

  lemma AdvanceSlab(t: Tracer, u: Tracer, a: Agent, k: Task, n: Handle)
    requires Advance(t, u, a, k, n).Ok?
    ensures Advance(t, u, a, k, n).next.slab == u.slab
  {
  }

  /** One more slab step, or none, before a run. */
  function Prefixed(l: Option<Label>, ls: seq<Label>): seq<Label> {
    if l.Some? then [l.value] + ls else ls
  }

  lemma Extended(t: Tracer, g: Ghost, c: Act, ls: seq<Label>)
    requires SlabAfter(t, c).Then? && (SlabLabel(t, c).Some? ==> Disciplined(t.slab, SlabLabel(t, c).value))
    requires Behaves(SlabAfter(t, c).state, ls) && Runs(SlabAfter(t, c).state, ls)
    ensures var ms := Prefixed(SlabLabel(t, c), ls);
            && Behaves(t.slab, ms) && Runs(t.slab, ms) && Exec(t.slab, ms) == Exec(SlabAfter(t, c).state, ls)
            && Trail(t.slab, g, ms) == Trail(SlabAfter(t, c).state, Recorded(t, g, c), ls)
  {
    if SlabLabel(t, c).Some? {
      RunsCons(t.slab, g, SlabLabel(t, c).value, ls);
    }
  }

  lemma PlaysCons(t: Tracer, cs: seq<Act>)
    requires Plays(t, cs) && cs != []
    ensures Perform(t, cs[0]).Ok?
    ensures var u := Perform(t, cs[0]).next;
            && Plays(u, cs[1..]) && Played(t, cs) == Played(u, cs[1..])
            && SlabRun(t, cs) == Prefixed(SlabLabel(t, cs[0]), SlabRun(u, cs[1..]))
  {
  }

  /** The slab inside a run of spans makes a run of its own, by clients that keep the discipline. */
  lemma {:induction false} PlayedInv(t: Tracer, g: Ghost, cs: seq<Act>)
    requires SpanInv(t, g) && Plays(t, cs)
    ensures var ls := SlabRun(t, cs);
            && Behaves(t.slab, ls) && Runs(t.slab, ls) && Exec(t.slab, ls) == Played(t, cs).slab
            && SpanInv(Played(t, cs), Trail(t.slab, g, ls))
    decreases |cs|
  {
    if cs != [] {
      PlaysCons(t, cs);
      ActInv(t, g, cs[0]);
      ActSlab(t, cs[0]);
      var u := Perform(t, cs[0]).next;
      PlayedInv(u, Recorded(t, g, cs[0]), cs[1..]);
      Extended(t, g, cs[0], SlabRun(u, cs[1..]));
    }
  }

  /** No agent is working on span `x`. */
  ghost predicate Unattended(t: Tracer, x: Idx) {
    forall a :: !Mentions(TaskOf(t.tasks, a), x)
  }

  /** A slab reference to a span belongs to an agent working on it. */
  lemma ReferenceAttended(t: Tracer, g: Ghost, r: RefId)
    requires SpanInv(t, g) && r in t.slab.refs
    ensures r in t.owners && Mentions(TaskOf(t.tasks, t.owners[r]), t.slab.refs[r])
  {
    assert AgentOk(t, t.owners[r]);
  }

  lemma UnattendedUnreferenced(t: Tracer, g: Ghost, x: Idx)
    requires SpanInv(t, g) && Unattended(t, x)
    ensures !Referenced(t.slab, x)
  {
    forall r | r in t.slab.refs
      ensures t.slab.refs[r] != x
    {
      ReferenceAttended(t, g, r);
    }
  }

  /** A dead span nobody works on has had its slot put back once. */
  lemma UnattendedReturned(t: Tracer, g: Ghost, x: Idx)
    requires SpanInv(t, g) && Unattended(t, x) && Dead(t.slab, x)
    ensures g.freed[x] == 1 && g.granted[x] == 1
  {
    var s, i := t.slab, x.index;
    assert CountOk(s, g, x) && IssuedOk(s, g, x) && SlotOk(s, g, i);
    if s.slots[i].life.generation == x.generation {
      match g.place[i]
      case Live =>
        UnattendedUnreferenced(t, g, x);
        ZombieReferenced(s, g, x);
      case On(_) =>
      case Held(a) =>
        assert !Mentions(TaskOf(t.tasks, a), x);
        HolderMentions(t, g, a, x);
    }
  }

  /** An agent that holds the slot of a span it does not work on is not returning it: it allocates a new span. */
  lemma HolderMentions(t: Tracer, g: Ghost, a: Agent, x: Idx)
    requires SpanInv(t, g) && x.index < |t.slab.slots| && g.place[x.index] == Held(a)
    requires t.slab.slots[x.index].life.generation == x.generation && !Mentions(TaskOf(t.tasks, a), x)
    ensures Allocating(At(t.slab.pcs, a))
  {
    assert Holding(At(t.slab.pcs, a)) == Some(x.index);
    assert AgentOk(t, a);
  }

  /**
   The lifetime of span `x` after a run: its counter is its number of open handles; while
   one is open the entry is usable and no `try_close` has returned true; at most one ever
   does, and then no handle is open. Once the last handle is closed and nobody works on
   the span any more, exactly one `try_close` has returned true, and the span's slot has
   been cleared once and put back on a free list once.
   */
  ghost predicate LivesRight(t: Tracer, cs: seq<Act>, x: Idx)
    requires Plays(t, cs)
  {
    var u, ls := Played(t, cs), SlabRun(t, cs);
    && Runs(t.slab, ls) && Exec(t.slab, ls) == u.slab
    && u.closed[x] <= 1
    && (x in u.counts ==> u.counts[x] == |HandlesOn(u.handles, x)|)
    && (HandlesOn(u.handles, x) != {} ==> x in u.counts && Usable(u.slab, x) && u.closed[x] == 0)
    && (u.closed[x] == 1 ==> HandlesOn(u.handles, x) == {} && Dead(u.slab, x))
    && (x in u.counts && u.counts[x] == 0 && Unattended(u, x) ==>
          u.closed[x] == 1 && Count(t.slab, ls, Grant, x) == 1 && Count(t.slab, ls, Return, x) == 1)
  }

  /** Every span lives right, in every reachable state of every interleaving. */
  lemma SpanLifetime(t: Tracer, cs: seq<Act>, x: Idx)
    requires Blank(t) && Plays(t, cs)
    ensures LivesRight(t, cs, x)
  {
    var g0 :| StartsAt(t.slab, g0);
    BlankInv(t, g0);
    PlayedInv(t, g0, cs);
    var u, ls := Played(t, cs), SlabRun(t, cs);
    var g := Trail(t.slab, g0, ls);
    assert SpanOk(u, x);
    TrailCounts(t.slab, g0, ls, x);
    if HandlesOn(u.handles, x) != {} {
      var h :| h in HandlesOn(u.handles, x);
      OpenIsUsable(u, h);
    }
    if x in u.counts && u.counts[x] == 0 && Unattended(u, x) {
      assert x in u.closers ==> Mentions(TaskOf(u.tasks, u.closers[x]), x);
      UnattendedReturned(u, g, x);
    }
  }

  /** The result of a finished slab operation, and the counter about to be changed, are as expected. */
  ghost predicate Succeeds(u: Tracer, k: Task, pc: Pc) {
    && (Getting(k) && Finished(pc) ==>
          pc.GetDone? && pc.got.Some? && pc.got.value in u.slab.refs && u.slab.refs[pc.got.value] == k.x)
    && (k.CloneAdding? ==> k.x in u.counts && u.counts[k.x] > 0)
    && (k.CloseCounting? ==>
          && k.x in u.counts && u.counts[k.x] > 0
          && (u.counts[k.x] == 1 <==> HandlesOn(u.handles - {k.h}, k.x) == {}))
    && (k.CloseRemoving? && Finished(pc) ==> pc == RemoveDone(true))
  }

  lemma InvSucceeds(u: Tracer, g: Ghost, a: Agent)
    requires SpanInv(u, g)
    ensures Succeeds(u, TaskOf(u.tasks, a), At(u.slab.pcs, a))
  {
    var k := TaskOf(u.tasks, a);
    assert AgentOk(u, a);
    if k.CloneAdding? || k.CloseCounting? {
      OpenIsUsable(u, k.h);
    }
    if k.CloseCounting? {
      assert SpanOk(u, k.x);
      HandlesOnRemove(u.handles, k.h);
    }
  }

  /**
   Nothing goes wrong inside a span operation: `get` on an open handle finds its span,
   the counter never wraps around below zero, the agent whose `fetch_sub` takes it to
   zero is the one that closes the last handle, and that agent's `remove` succeeds.
   */
  lemma SpanOperationsSucceed(t: Tracer, cs: seq<Act>, a: Agent)
    requires Blank(t) && Plays(t, cs)
    ensures Succeeds(Played(t, cs), TaskOf(Played(t, cs).tasks, a), At(Played(t, cs).slab.pcs, a))
  {
    var g0 :| StartsAt(t.slab, g0);
    BlankInv(t, g0);
    PlayedInv(t, g0, cs);
    InvSucceeds(Played(t, cs), Trail(t.slab, g0, SlabRun(t, cs)), a);
  }

  /**
   What a span operation does when its `get` finds no span, which no safe start allows but
   `Slab::new` does: a clone counts nothing and opens no counted handle, and a close
   answers false and gives its handle up; no counter changes and nothing is closed.
   */
  lemma MissingSpan(t: Tracer, a: Agent, n: Handle)
    requires Getting(TaskOf(t.tasks, a)) && At(t.slab.pcs, a) == GetDone(None)
    ensures var o, k := Perform(t, Proceed(a, n)), TaskOf(t.tasks, a);
            && o.Ok? && o.next.counts == t.counts && o.next.closed == t.closed && TaskOf(o.next.tasks, a).Rest?
            && At(o.next.slab.pcs, a).Idle?
            && o.next.handles == (if k.CloseGetting? then t.handles - {k.h} else t.handles)
            && o.next.closing == (if k.CloseGetting? then t.closing - {k.h} else t.closing)
  {
    var k, u := TaskOf(t.tasks, a), t.(slab := Go(t.slab, a, Idle));
    assert SlabAfter(t, Proceed(a, n)) == Then(u.slab, Silent);
    MissingAdvance(t, u, a, k, n);
  }

  lemma MissingAdvance(t: Tracer, u: Tracer, a: Agent, k: Task, n: Handle)
    requires Getting(k) && At(t.slab.pcs, a) == GetDone(None)
    ensures Advance(t, u, a, k, n)
         == Ok(u.(handles := if k.CloseGetting? then t.handles - {k.h} else u.handles,
                  closing := if k.CloseGetting? then t.closing - {k.h} else u.closing,
                  tasks := SetTask(t.tasks, a, Rest)))
  {
  }
}
