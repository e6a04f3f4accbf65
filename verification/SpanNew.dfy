/**
 The tracer over the slab that `Slab::new` makes. With two or more slots and a tag
 counter starting at 0, the stalled pop of `SlabNew` happens to spans: a span with an open
 handle loses its slot to a new span. This module gives the run, and proves for exactly
 which primed slabs the guarantees of `SpanTheorems` hold.
 */
module SpanNew {
  import opened Options
  import opened Packing
  import opened SlabMachine
  import opened SlabSolo
  import opened SlabTheorems
  import opened SlabFrames
  import opened SlabNew
  import opened SpanMachine
  import opened SpanInvariant
  import opened SpanTheorems

  /** The guarantee about lifetimes, in every run from `t`. */
  ghost predicate LifetimesHold(t: Tracer) {
    forall cs, x :: Plays(t, cs) ==> LivesRight(t, cs, x)
  }

  /** The guarantee that span operations succeed, in every run from `t`. */
  ghost predicate OperationsSucceed(t: Tracer) {
    forall cs, a :: Plays(t, cs) ==> SucceedsFor(Played(t, cs), a)
  }

  ghost predicate SucceedsFor(u: Tracer, a: Agent) {
    Succeeds(u, TaskOf(u.tasks, a), At(u.slab.pcs, a))
  }

  // ---- Runs of the tracer ----

  ghost predicate Gets(t: Tracer, u: Tracer) {
    exists cs :: Plays(t, cs) && Played(t, cs) == u
  }

  lemma {:induction false} PlaysSnoc(t: Tracer, cs: seq<Act>, c: Act)
    requires Plays(t, cs) && Perform(Played(t, cs), c).Ok?
    ensures Plays(t, cs + [c]) && Played(t, cs + [c]) == Perform(Played(t, cs), c).next
    decreases |cs|
  {
    if cs == [] {
      assert (cs + [c])[0] == c && (cs + [c])[1..] == [];
    } else {
      assert (cs + [c])[0] == cs[0] && (cs + [c])[1..] == cs[1..] + [c];
      PlaysSnoc(Perform(t, cs[0]).next, cs[1..], c);
    }
  }

  lemma GetsAct(t: Tracer, u: Tracer, c: Act) returns (w: Tracer)
    requires Gets(t, u) && Perform(u, c).Ok?
    ensures Gets(t, w) && w == Perform(u, c).next
  {
    var cs :| Plays(t, cs) && Played(t, cs) == u;
    PlaysSnoc(t, cs, c);
    w := Perform(u, c).next;
  }

  lemma {:induction false} AlonePlays(t: Tracer, u: Tracer, ls: seq<Label>, a: Agent, s: Slab)
    requires Gets(t, u) && Alone(u.slab, ls, a, s)
    ensures Gets(t, u.(slab := s))
    decreases |ls|
  {
    if ls != [] {
      var l := ls[0];
      var w := GetsAct(t, u, Inner(a, l.cpu, l.name, l.spurious));
      assert w == u.(slab := Step(u.slab, l).state);
      AlonePlays(t, w, ls[1..], a, s);
    }
  }

  /** The slab steps of one agent, as steps of the tracer. */
  lemma GetsSolo(t: Tracer, u: Tracer, a: Agent, s: Slab) returns (w: Tracer)
    requires Gets(t, u) && Solo(u.slab, a, s)
    ensures Gets(t, w) && w == u.(slab := s)
  {
    var ls :| Alone(u.slab, ls, a, s);
    AlonePlays(t, u, ls, a, s);
    w := u.(slab := s);
  }

  /** The tasks of all agents but `a` are the same. */
  ghost predicate TasksBeside(m: Tracer, u: Tracer, a: Agent) {
    forall b :: b != a ==> TaskOf(u.tasks, b) == TaskOf(m.tasks, b)
  }

  // ---- Pieces of the run ----

  /** The slots with entry `x` in use under `refcount` references. */
  function Recounted(slots: seq<Slot>, x: Idx, refcount: nat): seq<Slot>
    requires x.index < |slots|
  {
    slots[x.index := slots[x.index].(life := Lifecycle(Allocated, x.generation, refcount))]
  }

  lemma RecountedBack(slots: seq<Slot>, x: Idx)
    requires x.index < |slots| && slots[x.index].life == Lifecycle(Allocated, x.generation, 0)
    ensures Recounted(Recounted(slots, x, 1), x, 0) == slots
  {
  }

  /** Agent `a` starts to create a span. */
  lemma Begins(t: Tracer, m: Tracer, a: Agent, v: Value) returns (u: Tracer)
    requires Gets(t, m) && TaskOf(m.tasks, a).Rest? && At(m.slab.pcs, a).Idle?
    ensures Gets(t, u) && u == m.(slab := Go(m.slab, a, LocalPop(v)), tasks := SetTask(m.tasks, a, Creating))
  {
    u := GetsAct(t, m, NewSpan(a, v));
  }

  /** The slab has filled a slot for agent `a`, which opens handle `h`. */
  lemma Opens(t: Tracer, m: Tracer, a: Agent, x: Idx, h: Handle) returns (u: Tracer)
    requires Gets(t, m) && TaskOf(m.tasks, a).Creating? && At(m.slab.pcs, a) == Inserted(x)
    requires h !in m.handles && h !in m.closing
    ensures Gets(t, u)
    ensures u == m.(slab := Go(m.slab, a, Idle), counts := m.counts[x := 1], handles := m.handles[h := x],
                    tasks := SetTask(m.tasks, a, Rest))
  {
    u := GetsAct(t, m, Proceed(a, h));
  }

  /** Agent `a` starts to create a span and the slab fills a slot for it. */
  lemma FillsSlot(t: Tracer, m: Tracer, a: Agent, v: Value, x: Idx) returns (u: Tracer)
    requires Gets(t, m) && TaskOf(m.tasks, a).Rest? && At(m.slab.pcs, a).Idle?
    requires LocalHead(m.slab.locals, 0).Empty? && m.slab.head == Entry(x.index, 0) && x.index < |m.slab.slots|
    requires m.slab.slots[x.index].life.generation + 1 == x.generation < COUNTER_LIMIT
    ensures Gets(t, u) && Shows(u.slab, m.slab, a, Inserted(x), x.index) && x in u.slab.issued
    ensures u.slab.head == m.slab.slots[x.index].next && u.slab.tag == m.slab.tag
    ensures u.slab.slots[x.index] == Filled(m.slab.slots[x.index], v)
    ensures u == m.(slab := u.slab, tasks := SetTask(m.tasks, a, Creating))
  {
    var u1 := Begins(t, m, a, v);
    SoloStart(u1.slab, a);
    var s := Fills(u1.slab, u1.slab, a, v, x.index, x);
    ShowsOn(s, u1.slab, m.slab, a, LocalPop(v), Inserted(x), x.index);
    u := GetsSolo(t, u1, a, s);
  }

  /** Agent `a` creates span `x` and opens handle `h` on it. */
  lemma Creates(t: Tracer, m: Tracer, a: Agent, v: Value, x: Idx, h: Handle) returns (u: Tracer)
    requires Gets(t, m) && TaskOf(m.tasks, a).Rest? && At(m.slab.pcs, a).Idle?
    requires LocalHead(m.slab.locals, 0).Empty? && m.slab.head == Entry(x.index, 0) && x.index < |m.slab.slots|
    requires m.slab.slots[x.index].life.generation + 1 == x.generation < COUNTER_LIMIT
    requires h !in m.handles && h !in m.closing
    ensures Gets(t, u) && Shows(u.slab, m.slab, a, Idle, x.index) && x in u.slab.issued
    ensures u.slab.head == m.slab.slots[x.index].next && u.slab.tag == m.slab.tag
    ensures u.slab.slots[x.index] == Filled(m.slab.slots[x.index], v)
    ensures u.counts == m.counts[x := 1] && u.handles == m.handles[h := x] && u.closing == m.closing
    ensures TasksBeside(m, u, a) && TaskOf(u.tasks, a).Rest?
  {
    var u1 := FillsSlot(t, m, a, v, x);
    u := Opens(t, u1, a, x, h);
    ShowsOn(u.slab, u1.slab, m.slab, a, Inserted(x), Idle, x.index);
  }

  /** Agent `a` begins to close handle `h`. */
  lemma BeginsClose(t: Tracer, m: Tracer, a: Agent, h: Handle) returns (u: Tracer)
    requires Gets(t, m) && TaskOf(m.tasks, a).Rest? && At(m.slab.pcs, a).Idle?
    requires h in m.handles && h !in m.closing && !Borrowed(m, h) && m.handles[h].index < |m.slab.slots|
    ensures Gets(t, u)
    ensures u == m.(slab := Go(m.slab, a, GetLoad(m.handles[h])), closing := m.closing[h := a],
                    tasks := SetTask(m.tasks, a, CloseGetting(h, m.handles[h])))
  {
    u := GetsAct(t, m, Close(a, h));
  }

  /** Agent `a` begins to clone handle `h`. */
  lemma BeginsClone(t: Tracer, m: Tracer, a: Agent, h: Handle) returns (u: Tracer)
    requires Gets(t, m) && TaskOf(m.tasks, a).Rest? && At(m.slab.pcs, a).Idle?
    requires h in m.handles && h !in m.closing && m.handles[h].index < |m.slab.slots|
    ensures Gets(t, u)
    ensures u == m.(slab := Go(m.slab, a, GetLoad(m.handles[h])),
                    tasks := SetTask(m.tasks, a, CloneGetting(h, m.handles[h])))
  {
    u := GetsAct(t, m, Clone(a, h));
  }

  /** An undisturbed `get` yields reference 0. */
  lemma Acquires(t: Tracer, m: Tracer, a: Agent, x: Idx) returns (u: Tracer)
    requires Gets(t, m) && At(m.slab.pcs, a) == GetLoad(x) && x.index < |m.slab.slots| && m.slab.refs == map[]
    requires m.slab.slots[x.index].life == Lifecycle(Allocated, x.generation, 0)
    ensures Gets(t, u)
    ensures u.slab.slots == Recounted(m.slab.slots, x, 1)
    ensures u.slab.refs == map[0 := x] && Moves(m.slab, u.slab, a, GetDone(Some(0)))
    ensures u == m.(slab := u.slab, owners := u.owners)
    ensures u.slab == m.slab.(slots := u.slab.slots, refs := u.slab.refs, pcs := u.slab.pcs)
  {
    var u1 := GetsAct(t, m, Inner(a, 0, 0, false));
    assert u1 == m.(slab := Go(m.slab, a, GetCas(x, m.slab.slots[x.index].life)));
    u := GetsAct(t, u1, Inner(a, 0, 0, false));
  }

  /** Agent `a` has its reference and is about to count down. */
  lemma Receives(t: Tracer, m: Tracer, a: Agent, h: Handle, x: Idx) returns (u: Tracer)
    requires Gets(t, m) && TaskOf(m.tasks, a) == CloseGetting(h, x) && At(m.slab.pcs, a) == GetDone(Some(0))
    ensures Gets(t, u)
    ensures u == m.(slab := Go(m.slab, a, Idle), tasks := SetTask(m.tasks, a, CloseCounting(h, x, 0)))
  {
    u := GetsAct(t, m, Proceed(a, 0));
  }

  /** Agent `a` takes the counter of `x` from 1 to 0 and gives up handle `h`. */
  lemma CountsDown(t: Tracer, m: Tracer, a: Agent, h: Handle, x: Idx) returns (u: Tracer)
    requires Gets(t, m) && TaskOf(m.tasks, a) == CloseCounting(h, x, 0) && x in m.counts && m.counts[x] == 1
    ensures Gets(t, u)
    ensures u == m.(counts := m.counts[x := 0], handles := m.handles - {h}, closing := m.closing - {h},
                    closers := m.closers[x := a], tasks := SetTask(m.tasks, a, CloseLeaving(x, 0, true)))
  {
    CountsAdvance(m, a, h, x);
    u := GetsAct(t, m, Proceed(a, 0));
  }

  lemma CountsAdvance(m: Tracer, a: Agent, h: Handle, x: Idx)
    requires TaskOf(m.tasks, a) == CloseCounting(h, x, 0) && x in m.counts && m.counts[x] == 1
    ensures Perform(m, Proceed(a, 0))
         == Ok(m.(counts := m.counts[x := 0], handles := m.handles - {h}, closing := m.closing - {h},
                  closers := m.closers[x := a], tasks := SetTask(m.tasks, a, CloseLeaving(x, 0, true))))
  {
    assert m.(slab := m.slab) == m;
  }

  /** Agent `a` starts to drop reference 0. */
  lemma BeginsDrop(t: Tracer, m: Tracer, a: Agent, x: Idx) returns (u: Tracer)
    requires Gets(t, m) && TaskOf(m.tasks, a) == CloseLeaving(x, 0, true) && At(m.slab.pcs, a).Idle?
    requires m.slab.refs == map[0 := x] && m.slab.dropping == map[]
    ensures Gets(t, u)
    ensures u == m.(slab := Go(m.slab.(dropping := map[0 := a]), a, DropLoad(0, x)),
                    tasks := SetTask(m.tasks, a, CloseDropping(x, true)))
  {
    u := GetsAct(t, m, Proceed(a, 0));
  }

  /** The exchange of an undisturbed drop of the only reference. */
  lemma Exchanges(t: Tracer, m: Tracer, a: Agent, x: Idx) returns (u: Tracer)
    requires Gets(t, m) && At(m.slab.pcs, a) == DropCas(0, x, Lifecycle(Allocated, x.generation, 1))
    requires m.slab.refs == map[0 := x] && m.slab.dropping == map[0 := a] && x.index < |m.slab.slots|
    requires m.slab.slots[x.index].life == Lifecycle(Allocated, x.generation, 1)
    ensures Gets(t, u) && u == m.(slab := u.slab, owners := u.owners)
    ensures u.slab.slots == Recounted(m.slab.slots, x, 0)
    ensures u.slab == m.slab.(slots := u.slab.slots, refs := map[], dropping := map[],
                              pcs := Put(m.slab.pcs, a, DropDone))
  {
    u := GetsAct(t, m, Inner(a, 0, 0, false));
    assert u.slab.refs == map[] && u.slab.dropping == map[];
  }

  lemma Drops(t: Tracer, m: Tracer, a: Agent, x: Idx) returns (u: Tracer)
    requires Gets(t, m) && At(m.slab.pcs, a) == DropLoad(0, x) && x.index < |m.slab.slots|
    requires m.slab.refs == map[0 := x] && m.slab.dropping == map[0 := a]
    requires m.slab.slots[x.index].life == Lifecycle(Allocated, x.generation, 1)
    ensures Gets(t, u) && u == m.(slab := u.slab, owners := u.owners)
    ensures u.slab.slots == Recounted(m.slab.slots, x, 0)
    ensures u.slab == m.slab.(slots := u.slab.slots, refs := map[], dropping := map[], pcs := u.slab.pcs)
    ensures Moves(m.slab, u.slab, a, DropDone)
  {
    var u1 := GetsAct(t, m, Inner(a, 0, 0, false));
    assert u1 == m.(slab := Go(m.slab, a, DropCas(0, x, Lifecycle(Allocated, x.generation, 1))));
    u := Exchanges(t, u1, a, x);
  }

  /** The drop is over. */
  lemma EndsDrop(t: Tracer, m: Tracer, a: Agent, x: Idx) returns (u: Tracer)
    requires Gets(t, m) && TaskOf(m.tasks, a) == CloseDropping(x, true) && At(m.slab.pcs, a).DropDone?
    ensures Gets(t, u) && u == m.(slab := Go(m.slab, a, Idle), tasks := SetTask(m.tasks, a, CloseRemove(x)))
  {
    u := GetsAct(t, m, Proceed(a, 0));
  }

  /** Agent `a` goes on to remove the entry. */
  lemma BeginsRemove(t: Tracer, m: Tracer, a: Agent, x: Idx) returns (u: Tracer)
    requires Gets(t, m) && TaskOf(m.tasks, a) == CloseRemove(x) && At(m.slab.pcs, a).Idle? && x.index < |m.slab.slots|
    ensures Gets(t, u) && u == m.(slab := Go(m.slab, a, RemoveLoad(x)), tasks := SetTask(m.tasks, a, CloseRemoving(x)))
  {
    u := GetsAct(t, m, Proceed(a, 0));
  }

  /** A close up to its reference. */
  lemma ReachesEntry(t: Tracer, m: Tracer, a: Agent, h: Handle, x: Idx) returns (u: Tracer)
    requires Gets(t, m) && TaskOf(m.tasks, a).Rest? && At(m.slab.pcs, a).Idle?
    requires h in m.handles && m.handles[h] == x && h !in m.closing && !Borrowed(m, h)
    requires x.index < |m.slab.slots| && m.slab.refs == map[]
    requires m.slab.slots[x.index].life == Lifecycle(Allocated, x.generation, 0)
    ensures Gets(t, u) && TasksBeside(m, u, a) && TaskOf(u.tasks, a) == CloseGetting(h, x)
    ensures u.counts == m.counts && u.handles == m.handles && u.closing == m.closing[h := a]
    ensures u.slab.slots == Recounted(m.slab.slots, x, 1)
    ensures u.slab == m.slab.(slots := u.slab.slots, refs := map[0 := x], pcs := u.slab.pcs)
    ensures Moves(m.slab, u.slab, a, GetDone(Some(0)))
  {
    var u1 := BeginsClose(t, m, a, h);
    u := Acquires(t, u1, a, x);
  }

  /** The counter of `x` is 0 and the handle gone. */
  lemma GivesUpHandle(t: Tracer, m: Tracer, a: Agent, h: Handle, x: Idx) returns (u: Tracer)
    requires Gets(t, m) && TaskOf(m.tasks, a) == CloseGetting(h, x) && At(m.slab.pcs, a) == GetDone(Some(0))
    requires x in m.counts && m.counts[x] == 1
    ensures Gets(t, u) && TasksBeside(m, u, a) && TaskOf(u.tasks, a) == CloseLeaving(x, 0, true)
    ensures u.counts == m.counts[x := 0] && u.handles == m.handles - {h} && u.closing == m.closing - {h}
    ensures u.slab == Go(m.slab, a, Idle)
  {
    var u1 := Receives(t, m, a, h, x);
    u := CountsDown(t, u1, a, h, x);
  }

  /** The second half of a close, up to the removal of the entry. */
  lemma LeavesEntry(t: Tracer, m: Tracer, a: Agent, x: Idx) returns (u: Tracer)
    requires Gets(t, m) && TaskOf(m.tasks, a) == CloseLeaving(x, 0, true) && At(m.slab.pcs, a).Idle?
    requires m.slab.refs == map[0 := x] && m.slab.dropping == map[] && x.index < |m.slab.slots|
    requires m.slab.slots[x.index].life == Lifecycle(Allocated, x.generation, 1)
    ensures Gets(t, u) && TasksBeside(m, u, a)
    ensures u.counts == m.counts && u.handles == m.handles && u.closing == m.closing
    ensures u.slab.slots == Recounted(m.slab.slots, x, 0)
    ensures u.slab == m.slab.(slots := u.slab.slots, refs := map[], pcs := u.slab.pcs)
    ensures Moves(m.slab, u.slab, a, RemoveLoad(x))
  {
    var u1 := BeginsDrop(t, m, a, x);
    var u2 := Drops(t, u1, a, x);
    var u3 := EndsDrop(t, u2, a, x);
    u := BeginsRemove(t, u3, a, x);
  }

  /** A close of the only handle of a span up to the removal of the entry: the slab is as before. */
  lemma ClosesHandle(t: Tracer, m: Tracer, a: Agent, h: Handle, x: Idx) returns (u: Tracer)
    requires Gets(t, m) && TaskOf(m.tasks, a).Rest? && At(m.slab.pcs, a).Idle?
    requires h in m.handles && m.handles[h] == x && h !in m.closing && !Borrowed(m, h)
    requires x in m.counts && m.counts[x] == 1 && x.index < |m.slab.slots|
    requires m.slab.refs == map[] && m.slab.dropping == map[]
    requires m.slab.slots[x.index].life == Lifecycle(Allocated, x.generation, 0)
    ensures Gets(t, u) && TasksBeside(m, u, a)
    ensures u.counts == m.counts[x := 0] && u.handles == m.handles - {h} && u.closing == m.closing
    ensures u.slab == m.slab.(pcs := u.slab.pcs) && Moves(m.slab, u.slab, a, RemoveLoad(x))
  {
    var u1 := ReachesEntry(t, m, a, h, x);
    var u2 := GivesUpHandle(t, u1, a, h, x);
    assert u2.closing == m.closing;
    u := LeavesEntry(t, u2, a, x);
    SlabBack(m.slab, u1.slab, u2.slab, u.slab, a, x);
  }

  /** A reference taken and dropped again leaves the slab as it was. */
  lemma SlabBack(m: Slab, p: Slab, q: Slab, w: Slab, a: Agent, x: Idx)
    requires x.index < |m.slots| && m.slots[x.index].life == Lifecycle(Allocated, x.generation, 0) && m.refs == map[]
    requires p.slots == Recounted(m.slots, x, 1) && p == m.(slots := p.slots, refs := p.refs, pcs := p.pcs)
    requires q == Go(p, a, Idle) && w.slots == Recounted(q.slots, x, 0)
    requires w == q.(slots := w.slots, refs := map[], pcs := w.pcs)
    requires Moves(m, p, a, At(p.pcs, a)) && Moves(q, w, a, At(w.pcs, a))
    ensures w == m.(pcs := w.pcs) && Moves(m, w, a, At(w.pcs, a))
  {
    RecountedBack(m.slots, x);
  }

  /** An undisturbed close of the only handle of a span, on a processor other than the one that created it. */
  lemma Closes(t: Tracer, m: Tracer, a: Agent, h: Handle, x: Idx) returns (u: Tracer)
    requires Gets(t, m) && TaskOf(m.tasks, a).Rest? && At(m.slab.pcs, a).Idle?
    requires h in m.handles && m.handles[h] == x && h !in m.closing && !Borrowed(m, h)
    requires x in m.counts && m.counts[x] == 1 && x.index < |m.slab.slots|
    requires m.slab.refs == map[] && m.slab.dropping == map[] && m.slab.tag < COUNTER_LIMIT
    requires m.slab.slots[x.index].life == Lifecycle(Allocated, x.generation, 0)
    requires m.slab.slots[x.index].contents.Some? && m.slab.slots[x.index].processor == Some(0)
    ensures Gets(t, u) && TasksBeside(m, u, a)
    ensures u.counts == m.counts[x := 0] && u.handles == m.handles - {h} && u.closing == m.closing
    ensures Shows(u.slab, m.slab, a, RemoveDone(true), x.index) && u.slab.head == Entry(x.index, m.slab.tag)
  {
    var u1 := ClosesHandle(t, m, a, h, x);
    SoloStart(u1.slab, a);
    var s := Returns(u1.slab, u1.slab, a, x);
    ShowsOn(s, u1.slab, m.slab, a, RemoveLoad(x), RemoveDone(true), x.index);
    u := GetsSolo(t, u1, a, s);
  }

  // ---- An open span that loses its slot ----

  /** Span 1, in slot 1, is open with one handle, and the slab is at rest but for some inserts and removals. */
  ghost predicate SecondOpen(u: Tracer, n: nat) {
    && SecondInUse(u.slab, n)
    && 1 in u.handles && u.handles[1] == Idx(1, 1) && u.closing == map[]
    && Idx(1, 1) in u.counts && u.counts[Idx(1, 1)] == 1
  }

  /** Agent 0 starts to create a span and stalls with the entry of slot 0 and its `next`. */
  lemma StallsCreation(t: Tracer, n: nat) returns (u: Tracer)
    requires n >= 2 && Spanless(t) && t.slab == Primed(n, 0)
    ensures Gets(t, u) && u.counts == map[] && u.handles == map[] && u.closing == map[]
    ensures u.slab == t.slab.(pcs := u.slab.pcs)
    ensures forall b :: At(u.slab.pcs, b) == if b == 0 then PopCas(7, Entry(0, 0), Entry(1, 0)) else Idle
    ensures forall b :: TaskOf(u.tasks, b) == if b == 0 then Creating else Rest
  {
    assert Plays(t, []) && Played(t, []) == t;
    var u1 := Begins(t, t, 0, 7);
    SoloStart(u1.slab, 0);
    var s := PopReads(u1.slab, u1.slab, 0, 7, 0);
    assert s.slots == t.slab.slots;
    u := GetsSolo(t, u1, 0, s);
  }

  /** While agent 0 is stalled with the entry of slot 0, agent 1 creates spans in slots 0 and 1. */
  lemma OpensTwo(t: Tracer, n: nat) returns (u: Tracer)
    requires n >= 2 && Spanless(t) && t.slab == Primed(n, 0)
    ensures Gets(t, u) && SecondOpen(u, n) && u.slab.tag == 0
    ensures u.slab.slots[0] == Slot(Lifecycle(Allocated, 1, 0), Some(8), Entry(1, 0), Some(0))
    ensures 0 in u.handles && u.handles[0] == Idx(1, 0) && Idx(1, 0) in u.counts && u.counts[Idx(1, 0)] == 1
    ensures forall b :: At(u.slab.pcs, b) == if b == 0 then PopCas(7, Entry(0, 0), Entry(1, 0)) else Idle
    ensures forall b :: TaskOf(u.tasks, b) == if b == 0 then Creating else Rest
  {
    var u1 := StallsCreation(t, n);
    var u2 := Creates(t, u1, 1, 8, Idx(1, 0), 0);
    u := Creates(t, u2, 1, 9, Idx(1, 1), 1);
  }

  /** Agent 1 closes the first span from another processor, which repeats the entry agent 0 has read. */
  lemma ClosesFirst(t: Tracer, n: nat) returns (u: Tracer)
    requires n >= 2 && Spanless(t) && t.slab == Primed(n, 0)
    ensures Gets(t, u) && SecondOpen(u, n) && u.slab.head == Entry(0, 0)
    ensures At(u.slab.pcs, 0) == PopCas(7, Entry(0, 0), Entry(1, 0))
    ensures forall b :: b > 1 ==> At(u.slab.pcs, b) == Idle && TaskOf(u.tasks, b) == Rest
  {
    var m := OpensTwo(t, n);
    assert !Borrowed(m, 0);
    u := Closes(t, m, 1, 0, Idx(1, 0));
  }

  /** The stalled creation resumes and takes the head of the free list to slot 1. */
  lemma ResumesCreation(t: Tracer, n: nat) returns (u: Tracer)
    requires n >= 2 && Spanless(t) && t.slab == Primed(n, 0)
    ensures Gets(t, u) && SecondOpen(u, n) && u.slab.head == Entry(1, 0)
    ensures forall b :: b > 1 ==> At(u.slab.pcs, b) == Idle && TaskOf(u.tasks, b) == Rest
  {
    var m := ClosesFirst(t, n);
    SoloStart(m.slab, 0);
    var s := PopWins(m.slab, m.slab, 0, 7, Entry(1, 0));
    u := GetsSolo(t, m, 0, s);
  }

  /**
   Agent 2 creates a span and is handed slot 1. The second span has an open handle and a
   counter of 1, and its entry is gone.
   */
  lemma OpenSpanLosesSlot(t: Tracer, n: nat) returns (u: Tracer)
    requires n >= 2 && Spanless(t) && t.slab == Primed(n, 0)
    ensures Gets(t, u) && 1 in u.handles && u.handles[1] == Idx(1, 1) && u.closing == map[]
    ensures Idx(1, 1) in u.counts && u.counts[Idx(1, 1)] == 1
    ensures |u.slab.slots| == n && u.slab.slots[1].life == Lifecycle(Allocated, 2, 0)
    ensures At(u.slab.pcs, 3) == Idle && TaskOf(u.tasks, 3) == Rest
  {
    var m := ResumesCreation(t, n);
    var u1 := Begins(t, m, 2, 5);
    SoloStart(u1.slab, 2);
    var s1 := Takes(u1.slab, u1.slab, 2, 5, 1);
    var s2 := Stores(u1.slab, s1, 2, 5, 1);
    assert At(u1.slab.pcs, 3) == Idle && At(s1.pcs, 3) == Idle;
    u := GetsSolo(t, u1, 2, s2);
  }

  /** Agent 3 clones the open handle, and its `get` finds nothing. */
  lemma CloneFindsNothing(t: Tracer, n: nat) returns (u: Tracer)
    requires n >= 2 && Spanless(t) && t.slab == Primed(n, 0)
    ensures Gets(t, u) && 1 in u.handles && u.handles[1] == Idx(1, 1)
    ensures TaskOf(u.tasks, 3) == CloneGetting(1, Idx(1, 1)) && At(u.slab.pcs, 3) == GetDone(None)
  {
    var m := OpenSpanLosesSlot(t, n);
    var x := Idx(1, 1);
    var u1 := BeginsClone(t, m, 3, 1);
    SoloStart(u1.slab, 3);
    var s := FindsNothing(u1.slab, u1.slab, 3, x);
    u := GetsSolo(t, u1, 3, s);
  }

  lemma LifetimesFail(t: Tracer, n: nat)
    requires n >= 2 && Spanless(t) && t.slab == Primed(n, 0)
    ensures !LifetimesHold(t)
  {
    var u := OpenSpanLosesSlot(t, n);
    var cs :| Plays(t, cs) && Played(t, cs) == u;
    assert 1 in HandlesOn(u.handles, Idx(1, 1));
    assert !LivesRight(t, cs, Idx(1, 1));
  }

  lemma OperationsFail(t: Tracer, n: nat)
    requires n >= 2 && Spanless(t) && t.slab == Primed(n, 0)
    ensures !OperationsSucceed(t)
  {
    var u := CloneFindsNothing(t, n);
    var cs :| Plays(t, cs) && Played(t, cs) == u;
    assert !SucceedsFor(Played(t, cs), 3);
  }

  // ---- A slab of no slots ----

  /** Without slots no span is ever created. */
  ghost predicate Hollow(t: Tracer) {
    && t.slab.slots == [] && t.handles == map[] && t.counts == map[] && t.closed == multiset{}
    && (forall a :: var k := TaskOf(t.tasks, a); k.Rest? || k.Creating? || k.Fatal?)
    && (forall a :: HollowAt(At(t.slab.pcs, a)))
  }

  predicate HollowAt(pc: Pc) {
    pc.Idle? || pc.LocalPop? || pc.PopLoad? || pc.PopNext? || pc.InsertFailed?
  }

  lemma HollowPop(s: Slab, a: Agent, cpu: Cpu)
    requires s.slots == [] && Popping(At(s.pcs, a)) && !At(s.pcs, a).PopCas?
    requires PopStep(s, a, At(s.pcs, a), cpu).Then?
    ensures var t := PopStep(s, a, At(s.pcs, a), cpu).state; var q := At(t.pcs, a);
            t.slots == [] && HollowAt(q) && Moves(s, t, a, q)
  {
  }

  lemma HollowSlab(s: Slab, l: Label)
    requires s.slots == [] && (forall a :: HollowAt(At(s.pcs, a))) && Step(s, l).Then?
    requires l.CallInsert? || l.Run? || l.Finish?
    ensures var t := Step(s, l).state; t.slots == [] && forall a :: HollowAt(At(t.pcs, a))
  {
    assert HollowAt(At(s.pcs, l.agent));
    if l.Run? {
      HollowPop(s, l.agent, l.cpu);
    }
  }

  lemma HollowAct(t: Tracer, c: Act)
    requires Hollow(t) && Perform(t, c).Ok?
    ensures Hollow(Perform(t, c).next)
  {
    ActSlab(t, c);
    assert HollowAt(At(t.slab.pcs, c.agent));
    HollowSlab(t.slab, SlabLabel(t, c).value);
  }

  lemma {:induction false} HollowRun(t: Tracer, cs: seq<Act>)
    requires Hollow(t) && Plays(t, cs)
    ensures Hollow(Played(t, cs))
    decreases |cs|
  {
    if cs != [] {
      HollowAct(t, cs[0]);
      HollowRun(Perform(t, cs[0]).next, cs[1..]);
    }
  }

  /** The slab inside a run of spans makes a run of its own. */
  lemma {:induction false} PlayedRuns(t: Tracer, cs: seq<Act>)
    requires Plays(t, cs)
    ensures Runs(t.slab, SlabRun(t, cs)) && Exec(t.slab, SlabRun(t, cs)) == Played(t, cs).slab
    decreases |cs|
  {
    if cs != [] {
      PlaysCons(t, cs);
      ActSlab(t, cs[0]);
      var u, l := Perform(t, cs[0]).next, SlabLabel(t, cs[0]);
      PlayedRuns(u, cs[1..]);
      var ls := SlabRun(u, cs[1..]);
      if l.Some? {
        assert ([l.value] + ls)[0] == l.value && ([l.value] + ls)[1..] == ls;
      }
    }
  }

  lemma HollowHolds(t: Tracer)
    requires Hollow(t)
    ensures LifetimesHold(t) && OperationsSucceed(t)
  {
    forall cs, x | Plays(t, cs)
      ensures LivesRight(t, cs, x)
    {
      HollowRun(t, cs);
      PlayedRuns(t, cs);
    }
    forall cs, a | Plays(t, cs)
      ensures SucceedsFor(Played(t, cs), a)
    {
      HollowRun(t, cs);
    }
  }

  // ---- Exactly when the guarantees hold ----

  lemma BlankHolds(t: Tracer)
    requires Blank(t)
    ensures LifetimesHold(t) && OperationsSucceed(t)
  {
    forall cs, x | Plays(t, cs)
      ensures LivesRight(t, cs, x)
    {
      SpanLifetime(t, cs, x);
    }
    forall cs, a | Plays(t, cs)
      ensures SucceedsFor(Played(t, cs), a)
    {
      SpanOperationsSucceed(t, cs, a);
    }
  }

  /**
   Exactly when spans over a primed slab live right and their operations succeed, in
   every run: unless the slab has two or more slots and its tag counter starts at 0. The
   kernel makes its slab of 128 slots with `Slab::new`, which starts the counter at 0.
   */
  lemma PrimedSpansExactly(t: Tracer, n: nat, tag: nat)
    requires Spanless(t) && t.slab == Primed(n, tag)
    ensures LifetimesHold(t) <==> n <= 1 || tag > 0
    ensures OperationsSucceed(t) <==> n <= 1 || tag > 0
  {
    if n == 0 {
      HollowHolds(t);
    } else if n > 1 && tag == 0 {
      LifetimesFail(t, n);
      OperationsFail(t, n);
    } else {
      PrimedSafeStart(n, tag);
      BlankHolds(t);
    }
  }
}
