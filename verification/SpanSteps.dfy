/**
 The span-level steps of `new_span`, `clone_span` and `try_close` keep the invariant.
 */
module SpanSteps {
  import opened Options
  import opened Packing
  import opened SlabMachine
  import opened SlabLists
  import opened SlabLifecycle
  import opened SlabInvariant
  import opened SlabCounts
  import opened SlabTheorems
  import opened SlabFrames
  import opened SpanMachine
  import opened SpanInvariant

  /** At most the program counter of `a` and the drops in progress change in the slab. */
  ghost predicate SlabStill(s: Slab, t: Slab, a: Agent, q: Pc) {
    t.slots == s.slots && t.refs == s.refs && t.issued == s.issued && Moves(s, t, a, q)
  }

  ghost predicate TasksMove(t: Tracer, u: Tracer, a: Agent, k: Task) {
    forall b {:trigger TaskOf(u.tasks, b)} :: TaskOf(u.tasks, b) == if b == a then k else TaskOf(t.tasks, b)
  }

  /** The handles other agents rely on are kept. */
  ghost predicate HandlesKept(t: Tracer, u: Tracer, a: Agent) {
    && (forall b :: b != a ==>
          var k := TaskOf(t.tasks, b);
          && (k.CloneGetting? || k.CloneAdding? ==> k.h in t.handles ==>
                k.h in u.handles && u.handles[k.h] == t.handles[k.h])
          && (k.CloneGetting? || k.CloneAdding? ==> k.h !in t.closing ==> k.h !in u.closing))
    && (forall h :: h in t.closing && t.closing[h] != a && h in t.handles ==>
          h in u.handles && u.handles[h] == t.handles[h] && h in u.closing && u.closing[h] == t.closing[h])
  }

  /** Agents other than `a`, when `a` takes a span-level step. */
  lemma OuterOthers(t: Tracer, g: Ghost, u: Tracer, a: Agent, k: Task, q: Pc, b: Agent)
    requires SpanInv(t, g) && SlabStill(t.slab, u.slab, a, q) && TasksMove(t, u, a, k) && b != a
    requires HandlesKept(t, u, a) && u.owners == t.owners
    requires forall x :: x in t.closers && t.closers[x] != a ==> x in u.closers && u.closers[x] == t.closers[x]
    requires At(t.slab.pcs, b).Inserted? ==> At(t.slab.pcs, b).idx !in u.counts
    ensures AgentOk(u, b)
  {
    assert AgentOk(t, b);
  }

  lemma OuterAgents(t: Tracer, g: Ghost, u: Tracer, a: Agent, k: Task, q: Pc)
    requires SpanInv(t, g) && SlabStill(t.slab, u.slab, a, q) && TasksMove(t, u, a, k)
    requires HandlesKept(t, u, a) && u.owners == t.owners && AgentAt(u, a, k, q)
    requires forall x :: x in t.closers && t.closers[x] != a ==> x in u.closers && u.closers[x] == t.closers[x]
    requires forall x :: x in u.counts ==> x in t.counts || (At(t.slab.pcs, a).Inserted? && At(t.slab.pcs, a).idx == x)
    ensures Agents(u)
  {
    forall b
      ensures AgentOk(u, b)
    {
      assert AgentOk(t, b);
      if b != a {
        OuterOthers(t, g, u, a, k, q, b);
      }
    }
  }

  /** Births and references, when agent `a` takes a span-level step. */
  lemma OuterRest(t: Tracer, g: Ghost, u: Tracer, a: Agent, k: Task, q: Pc)
    requires SpanInv(t, g) && SlabStill(t.slab, u.slab, a, q) && TasksMove(t, u, a, k) && u.owners == t.owners
    requires !q.Inserted? && Carries(k, q) == Carries(TaskOf(t.tasks, a), At(t.slab.pcs, a))
    ensures Births(u) && RefsOwned(u)
  {
  }

  /** The spans, when a step opens and closes no handle and marks no entry. */
  lemma RelabelSpans(t: Tracer, u: Tracer, a: Agent, k: Task, q: Pc)
    requires Spans(t) && SlabStill(t.slab, u.slab, a, q) && TasksMove(t, u, a, k)
    requires u.counts == t.counts && u.handles == t.handles && u.closers == t.closers && u.closed == t.closed
    requires forall x :: Last(k, x) <==> Last(TaskOf(t.tasks, a), x)
    requires Unmarked(k, q) && Unmarked(TaskOf(t.tasks, a), At(t.slab.pcs, a))
    ensures Spans(u)
  {
    forall x
      ensures SpanOk(u, x)
    {
      assert SpanOk(t, x);
    }
  }

  /** A span-level step that opens and closes no handle. */
  lemma Relabel(t: Tracer, g: Ghost, u: Tracer, a: Agent, k: Task, q: Pc)
    requires SpanInv(t, g) && Whole(u.slab, g) && SlabStill(t.slab, u.slab, a, q) && TasksMove(t, u, a, k)
    requires u.counts == t.counts && u.handles == t.handles && u.owners == t.owners && u.closers == t.closers
    requires u.closed == t.closed
    requires HandlesKept(t, u, a) && AgentAt(u, a, k, q) && !q.Inserted?
    requires Carries(k, q) == Carries(TaskOf(t.tasks, a), At(t.slab.pcs, a))
    requires forall x :: Last(k, x) <==> Last(TaskOf(t.tasks, a), x)
    requires Unmarked(k, q) && Unmarked(TaskOf(t.tasks, a), At(t.slab.pcs, a))
    ensures SpanInv(u, g)
  {
    OuterAgents(t, g, u, a, k, q);
    OuterRest(t, g, u, a, k, q);
    RelabelSpans(t, u, a, k, q);
  }

  /** The slab part of a span-level step. */
  lemma SlabKept(t: Tracer, g: Ghost, l: Label)
    requires SpanInv(t, g) && !l.Run? && ClientStep(t.slab, l).Then? && Disciplined(t.slab, l)
    ensures Step(t.slab, l) == ClientStep(t.slab, l)
    ensures Whole(ClientStep(t.slab, l).state, g)
    ensures SlabStill(t.slab, ClientStep(t.slab, l).state, l.agent, At(ClientStep(t.slab, l).state.pcs, l.agent))
  {
    ClientInv(t.slab, g, l);
    ClientCounts(t.slab, g, l);
    ClientStill(t.slab, l);
  }

  lemma ClientStill(s: Slab, l: Label)
    requires !l.Run? && ClientStep(s, l).Then?
    ensures var t := ClientStep(s, l).state; SlabStill(s, t, l.agent, At(t.pcs, l.agent))
  {
    ClientLeads(s, l);
  }

  // ---- Steps that open and close no handle ----

  /** Agent `a`, at rest, starts `new_span`. */
  lemma StartsNew(t: Tracer, g: Ghost, s: Slab, a: Agent, v: Value)
    requires SpanInv(t, g) && Whole(s, g) && SlabStill(t.slab, s, a, LocalPop(v)) && TaskOf(t.tasks, a).Rest?
    ensures SpanInv(t.(slab := s, tasks := SetTask(t.tasks, a, Creating)), g)
  {
    assert AgentOk(t, a);
    Relabel(t, g, t.(slab := s, tasks := SetTask(t.tasks, a, Creating)), a, Creating, LocalPop(v));
  }

  lemma StartsClone(t: Tracer, g: Ghost, s: Slab, a: Agent, h: Handle)
    requires SpanInv(t, g) && Whole(s, g) && h in t.handles && h !in t.closing
    requires SlabStill(t.slab, s, a, GetLoad(t.handles[h])) && TaskOf(t.tasks, a).Rest?
    ensures SpanInv(t.(slab := s, tasks := SetTask(t.tasks, a, CloneGetting(h, t.handles[h]))), g)
  {
    assert AgentOk(t, a);
    var k := CloneGetting(h, t.handles[h]);
    Relabel(t, g, t.(slab := s, tasks := SetTask(t.tasks, a, k)), a, k, GetLoad(t.handles[h]));
  }

  lemma StartsClose(t: Tracer, g: Ghost, s: Slab, a: Agent, h: Handle)
    requires SpanInv(t, g) && Whole(s, g) && h in t.handles && h !in t.closing && !Borrowed(t, h)
    requires SlabStill(t.slab, s, a, GetLoad(t.handles[h])) && TaskOf(t.tasks, a).Rest?
    ensures SpanInv(t.(slab := s, closing := t.closing[h := a],
            tasks := SetTask(t.tasks, a, CloseGetting(h, t.handles[h]))), g)
  {
    assert AgentOk(t, a);
    var k := CloseGetting(h, t.handles[h]);
    var u := t.(slab := s, closing := t.closing[h := a], tasks := SetTask(t.tasks, a, k));
    assert HandlesKept(t, u, a) by {
      forall b | b != a
        ensures var k := TaskOf(t.tasks, b); (k.CloneGetting? || k.CloneAdding? ==> k.h != h)
      {
        assert !Borrowed(t, h);
      }
    }
    Relabel(t, g, u, a, k, GetLoad(t.handles[h]));
  }

  /** The slab reference just acquired is taken over from the slab. */
  lemma Receives(t: Tracer, g: Ghost, s: Slab, a: Agent, k: Task)
    requires SpanInv(t, g) && Whole(s, g) && SlabStill(t.slab, s, a, Idle)
    requires var j := TaskOf(t.tasks, a);
             || (j.CloneGetting? && k.CloneAdding? && j.h == k.h && j.x == k.x
                   && At(t.slab.pcs, a) == GetDone(Some(k.r)))
             || (j.CloseGetting? && k.CloseCounting? && j.h == k.h && j.x == k.x
                   && At(t.slab.pcs, a) == GetDone(Some(k.r)))
    ensures SpanInv(t.(slab := s, tasks := SetTask(t.tasks, a, k)), g)
  {
    var u, j := t.(slab := s, tasks := SetTask(t.tasks, a, k)), TaskOf(t.tasks, a);
    assert AgentOk(t, a);
    ReceivingAt(t, u, a, j, k);
    Relabel(t, g, u, a, k, Idle);
  }

  /** An agent that has received a slab reference. */
  lemma ReceivingAt(t: Tracer, u: Tracer, a: Agent, j: Task, k: Task)
    requires (j.CloneGetting? && k.CloneAdding?) || (j.CloseGetting? && k.CloseCounting?)
    requires k.h == j.h && k.x == j.x
    requires AgentAt(t, a, j, GetDone(Some(k.r)))
    requires u.slab.refs == t.slab.refs && u.owners == t.owners && u.closers == t.closers
    requires u.handles == t.handles && u.closing == t.closing
    ensures AgentAt(u, a, k, Idle) && Carries(k, Idle) == Carries(j, GetDone(Some(k.r)))
    ensures forall x :: Last(k, x) <==> Last(j, x)
  {
  }

  /** The agent starts to drop its slab reference. */
  lemma Leaves(t: Tracer, g: Ghost, s: Slab, a: Agent, k: Task)
    requires SpanInv(t, g) && Whole(s, g)
    requires var j := TaskOf(t.tasks, a);
             && ((j.CloneLeaving? && k == CloneDropping(j.x)) || (j.CloseLeaving? && k == CloseDropping(j.x, j.last)))
             && SlabStill(t.slab, s, a, DropLoad(j.r, j.x))
    ensures SpanInv(t.(slab := s, tasks := SetTask(t.tasks, a, k)), g)
  {
    var u, j := t.(slab := s, tasks := SetTask(t.tasks, a, k)), TaskOf(t.tasks, a);
    assert AgentOk(t, a);
    LeavingAt(t, u, a, j, k);
    Relabel(t, g, u, a, k, DropLoad(j.r, j.x));
  }

  /** An agent that starts to drop its slab reference. */
  lemma LeavingAt(t: Tracer, u: Tracer, a: Agent, j: Task, k: Task)
    requires (j.CloneLeaving? && k == CloneDropping(j.x)) || (j.CloseLeaving? && k == CloseDropping(j.x, j.last))
    requires AgentAt(t, a, j, Idle) && u.slab.refs == t.slab.refs && u.owners == t.owners && u.closers == t.closers
    ensures AgentAt(u, a, k, DropLoad(j.r, j.x)) && Carries(k, DropLoad(j.r, j.x)) == Carries(j, Idle)
    ensures forall x :: Last(k, x) <==> Last(j, x)
  {
  }

  /** The drop is over. */
  lemma Left(t: Tracer, g: Ghost, s: Slab, a: Agent, k: Task)
    requires SpanInv(t, g) && Whole(s, g) && SlabStill(t.slab, s, a, Idle) && At(t.slab.pcs, a).DropDone?
    requires var j := TaskOf(t.tasks, a);
             (j.CloneDropping? && k.Rest?) || (j.CloseDropping? && k == if j.last then CloseRemove(j.x) else Rest)
    ensures SpanInv(t.(slab := s, tasks := SetTask(t.tasks, a, k)), g)
  {
    assert AgentOk(t, a);
    Relabel(t, g, t.(slab := s, tasks := SetTask(t.tasks, a, k)), a, k, Idle);
  }

  lemma StartsRemove(t: Tracer, g: Ghost, s: Slab, a: Agent)
    requires SpanInv(t, g) && Whole(s, g) && TaskOf(t.tasks, a).CloseRemove?
    requires SlabStill(t.slab, s, a, RemoveLoad(TaskOf(t.tasks, a).x))
    ensures SpanInv(t.(slab := s, tasks := SetTask(t.tasks, a, CloseRemoving(TaskOf(t.tasks, a).x))), g)
  {
    var x := TaskOf(t.tasks, a).x;
    assert AgentOk(t, a);
    Relabel(t, g, t.(slab := s, tasks := SetTask(t.tasks, a, CloseRemoving(x))), a, CloseRemoving(x), RemoveLoad(x));
  }

  lemma Fails(t: Tracer, g: Ghost, s: Slab, a: Agent)
    requires SpanInv(t, g) && Whole(s, g) && SlabStill(t.slab, s, a, Idle)
    requires TaskOf(t.tasks, a).Creating? && At(t.slab.pcs, a).InsertFailed?
    ensures SpanInv(t.(slab := s, tasks := SetTask(t.tasks, a, Fatal)), g)
  {
    assert AgentOk(t, a);
    Relabel(t, g, t.(slab := s, tasks := SetTask(t.tasks, a, Fatal)), a, Fatal, Idle);
  }

  // ---- Steps that open or close a handle ----

  lemma HandlesOnAdd(handles: map<Handle, Idx>, h: Handle, x: Idx)
    requires h !in handles
    ensures forall y :: |HandlesOn(handles[h := x], y)| == |HandlesOn(handles, y)| + if y == x then 1 else 0
  {
    forall y
      ensures |HandlesOn(handles[h := x], y)| == |HandlesOn(handles, y)| + if y == x then 1 else 0
    {
      assert HandlesOn(handles[h := x], y) == HandlesOn(handles, y) + if y == x then {h} else {};
    }
  }

  lemma HandlesOnRemove(handles: map<Handle, Idx>, h: Handle)
    requires h in handles
    ensures forall y :: |HandlesOn(handles - {h}, y)| == |HandlesOn(handles, y)| - if y == handles[h] then 1 else 0
  {
    forall y
      ensures |HandlesOn(handles - {h}, y)| == |HandlesOn(handles, y)| - if y == handles[h] then 1 else 0
    {
      assert HandlesOn(handles, y) == HandlesOn(handles - {h}, y) + if y == handles[h] then {h} else {};
    }
  }

  lemma NoHandles(t: Tracer, x: Idx)
    requires Spans(t) && x !in t.counts
    ensures |HandlesOn(t.handles, x)| == 0
  {
    assert HandlesOn(t.handles, x) == {};
  }

  lemma OpeningKeeps(t: Tracer, u: Tracer, a: Agent, n: Handle, x: Idx)
    requires n !in t.handles && u.handles == t.handles[n := x] && u.closing == t.closing
    ensures HandlesKept(t, u, a)
  {
  }

  /** The spans after a handle of `x` is opened by `a`, with task `k` from then on. */
  lemma OpeningSpans(t: Tracer, u: Tracer, a: Agent, k: Task, q: Pc, x: Idx, n: Handle)
    requires Spans(t) && SlabStill(t.slab, u.slab, a, q) && TasksMove(t, u, a, k)
    requires n !in t.handles && u.handles == t.handles[n := x] && u.closers == t.closers && u.closed == t.closed
    requires u.counts == t.counts[x := |HandlesOn(t.handles, x)| + 1] && Usable(t.slab, x) && x !in t.closers
    requires t.closed[x] == 0
    requires forall y :: !Last(k, y) && !Last(TaskOf(t.tasks, a), y)
    ensures Spans(u)
  {
    HandlesOnAdd(t.handles, n, x);
    forall y
      ensures SpanOk(u, y)
    {
      assert SpanOk(t, y);
    }
  }

  /** A handle of span `x` is opened: by its creator, or by a clone. */
  lemma Opens(t: Tracer, g: Ghost, u: Tracer, a: Agent, k: Task, q: Pc, x: Idx, n: Handle)
    requires SpanInv(t, g) && Whole(u.slab, g) && SlabStill(t.slab, u.slab, a, q) && TasksMove(t, u, a, k)
    requires n !in t.handles && n !in t.closing && u.handles == t.handles[n := x] && u.closing == t.closing
    requires u.owners == t.owners && u.closers == t.closers && u.closed == t.closed
    requires u.counts == t.counts[x := |HandlesOn(t.handles, x)| + 1] && Usable(t.slab, x) && x !in t.closers
    requires t.closed[x] == 0
    requires x !in t.counts ==> At(t.slab.pcs, a).Inserted? && At(t.slab.pcs, a).idx == x
    requires AgentAt(u, a, k, q) && !q.Inserted? && Carries(k, q) == Carries(TaskOf(t.tasks, a), At(t.slab.pcs, a))
    requires forall y :: !Last(k, y) && !Last(TaskOf(t.tasks, a), y)
    ensures SpanInv(u, g)
  {
    OpeningKeeps(t, u, a, n, x);
    OuterAgents(t, g, u, a, k, q);
    OuterRest(t, g, u, a, k, q);
    OpeningSpans(t, u, a, k, q, x, n);
  }

  /** `new_span` returns: the span has one handle and its counter is 1. */
  lemma Created(t: Tracer, g: Ghost, s: Slab, a: Agent, n: Handle)
    requires SpanInv(t, g) && Whole(s, g) && SlabStill(t.slab, s, a, Idle)
    requires TaskOf(t.tasks, a).Creating? && At(t.slab.pcs, a).Inserted? && n !in t.handles && n !in t.closing
    ensures var x := At(t.slab.pcs, a).idx;
            SpanInv(t.(slab := s, counts := t.counts[x := 1], handles := t.handles[n := x],
                tasks := SetTask(t.tasks, a, Rest)), g)
  {
    var x := At(t.slab.pcs, a).idx;
    assert AgentOk(t, a);
    NoHandles(t, x);
    assert SpanOk(t, x);
    var u := t.(slab := s, counts := t.counts[x := 1], handles := t.handles[n := x],
        tasks := SetTask(t.tasks, a, Rest));
    Opens(t, g, u, a, Rest, Idle, x, n);
  }

  /** The counter of a cloned span goes up by one, and a handle is opened. */
  lemma Cloned(t: Tracer, g: Ghost, a: Agent, n: Handle)
    requires SpanInv(t, g) && TaskOf(t.tasks, a).CloneAdding? && n !in t.handles && n !in t.closing
    ensures var k := TaskOf(t.tasks, a);
            && k.x in t.counts
            && SpanInv(t.(counts := t.counts[k.x := t.counts[k.x] + 1], handles := t.handles[n := k.x],
                          tasks := SetTask(t.tasks, a, CloneLeaving(k.x, k.r))), g)
  {
    var k := TaskOf(t.tasks, a);
    assert AgentOk(t, a);
    OpenIsUsable(t, k.h);
    assert SpanOk(t, k.x);
    var u := t.(counts := t.counts[k.x := t.counts[k.x] + 1], handles := t.handles[n := k.x],
                tasks := SetTask(t.tasks, a, CloneLeaving(k.x, k.r)));
    Opens(t, g, u, a, CloneLeaving(k.x, k.r), Idle, k.x, n);
  }

  /** The state after the counter of a span being closed has gone down by one. */
  function Discounted(t: Tracer, a: Agent): Tracer
    requires TaskOf(t.tasks, a).CloseCounting? && TaskOf(t.tasks, a).x in t.counts && t.counts[TaskOf(t.tasks, a).x] > 0
  {
    var k := TaskOf(t.tasks, a);
    var last := t.counts[k.x] == 1;
    t.(counts := t.counts[k.x := t.counts[k.x] - 1], handles := t.handles - {k.h}, closing := t.closing - {k.h},
       closers := if last then t.closers[k.x := a] else t.closers,
       tasks := SetTask(t.tasks, a, CloseLeaving(k.x, k.r, last)))
  }

  /** Closing one handle leaves every handle another agent relies on. */
  lemma ClosingKeeps(t: Tracer, u: Tracer, a: Agent, h: Handle)
    requires Agents(t) && h in t.handles && h in t.closing && t.closing[h] == a
    requires u.handles == t.handles - {h} && u.closing == t.closing - {h}
    ensures HandlesKept(t, u, a)
  {
    forall b | b != a
      ensures var k := TaskOf(t.tasks, b); (k.CloneGetting? || k.CloneAdding? ==> k.h != h)
    {
      assert AgentOk(t, b);
    }
  }

  /** The spans after a handle of `x` is closed by `a`, with task `k` from then on. */
  lemma ClosingSpans(t: Tracer, u: Tracer, a: Agent, h: Handle, x: Idx, k: Task)
    requires Spans(t) && h in t.handles && t.handles[h] == x && x in t.counts && t.counts[x] > 0
    requires u.slab == t.slab && TasksMove(t, u, a, k) && u.handles == t.handles - {h} && u.closed == t.closed
    requires u.counts == t.counts[x := t.counts[x] - 1]
    requires forall y :: !Last(TaskOf(t.tasks, a), y)
    requires if t.counts[x] == 1 then Last(k, x) && k.CloseLeaving? && u.closers == t.closers[x := a]
             else u.closers == t.closers
    ensures Spans(u) && (t.counts[x] == 1 <==> HandlesOn(u.handles, x) == {})
  {
    HandlesOnRemove(t.handles, h);
    assert SpanOk(t, x);
    forall y
      ensures SpanOk(u, y)
    {
      assert SpanOk(t, y);
    }
  }

  /** The agent that has closed a handle. */
  lemma ClosingAgent(t: Tracer, u: Tracer, a: Agent, k: Task, q: Task)
    requires AgentAt(t, a, k, Idle) && k.CloseCounting? && q.CloseLeaving? && q.x == k.x && q.r == k.r
    requires u.slab == t.slab && u.owners == t.owners && (q.last ==> k.x in u.closers && u.closers[k.x] == a)
    ensures AgentAt(u, a, q, Idle) && Carries(q, Idle) == Carries(k, Idle)
  {
  }

  lemma CloseOne(t: Tracer, g: Ghost, u: Tracer, a: Agent, k: Task, q: Task)
    requires SpanInv(t, g) && k == TaskOf(t.tasks, a) && k.CloseCounting? && AgentAt(t, a, k, Idle)
    requires u.slab == t.slab && At(t.slab.pcs, a) == Idle && u.owners == t.owners && TasksMove(t, u, a, q) && Spans(u)
    requires u.handles == t.handles - {k.h} && u.closing == t.closing - {k.h}
    requires q.CloseLeaving? && q.x == k.x && q.r == k.r && k.x !in t.closers
    requires u.closers == if q.last then t.closers[k.x := a] else t.closers
    requires forall x :: x in u.counts ==> x in t.counts
    ensures SpanInv(u, g)
  {
    ClosingAgent(t, u, a, k, q);
    ClosingKeeps(t, u, a, k.h);
    OuterRest(t, g, u, a, q, Idle);
    OuterAgents(t, g, u, a, q, Idle);
  }

  /** A handle is closed; its agent goes on to remove the span exactly when no handle is left. */
  lemma Uncounted(t: Tracer, g: Ghost, a: Agent)
    requires SpanInv(t, g) && TaskOf(t.tasks, a).CloseCounting?
    ensures var k := TaskOf(t.tasks, a);
            && k.x in t.counts && t.counts[k.x] > 0 && SpanInv(Discounted(t, a), g)
            && (t.counts[k.x] == 1 <==> HandlesOn(Discounted(t, a).handles, k.x) == {})
  {
    var k := TaskOf(t.tasks, a);
    assert AgentOk(t, a);
    OpenIsUsable(t, k.h);
    var u := Discounted(t, a);
    var q := CloseLeaving(k.x, k.r, t.counts[k.x] == 1);
    ClosingSpans(t, u, a, k.h, k.x, q);
    CloseOne(t, g, u, a, k, q);
  }

  /** `try_close` returns true. */
  lemma Closed(t: Tracer, g: Ghost, s: Slab, a: Agent)
    requires SpanInv(t, g) && Whole(s, g) && SlabStill(t.slab, s, a, Idle)
    requires TaskOf(t.tasks, a).CloseRemoving? && At(t.slab.pcs, a).RemoveDone?
    ensures var x := TaskOf(t.tasks, a).x;
            SpanInv(t.(slab := s, closers := t.closers - {x}, closed := t.closed + multiset{x},
                tasks := SetTask(t.tasks, a, Rest)), g)
  {
    var x := TaskOf(t.tasks, a).x;
    assert AgentOk(t, a);
    assert Last(TaskOf(t.tasks, a), x);
    assert SpanOk(t, x);
    var u := t.(slab := s, closers := t.closers - {x}, closed := t.closed + multiset{x},
        tasks := SetTask(t.tasks, a, Rest));
    OuterRest(t, g, u, a, Rest, Idle);
    OuterAgents(t, g, u, a, Rest, Idle);
    forall y
      ensures SpanOk(u, y)
    {
      assert SpanOk(t, y);
    }
  }
}
