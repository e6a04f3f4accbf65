/**
 Stretches of a run in which a single agent moves, inside one slab operation and without
 acquiring or releasing a reference: the pieces from which concrete runs are put together.
 */
module SlabSolo {
  import opened Options
  import opened Packing
  import opened SlabMachine
  import opened SlabLists

  /** The labels are steps of agent `a` alone and lead from `m` to `t`. */
  predicate Alone(m: Slab, ls: seq<Label>, a: Agent, t: Slab)
    decreases |ls|
  {
    if ls == [] then m == t
    else
      && ls[0].Run? && ls[0].agent == a && Step(m, ls[0]).Then?
      && !Step(m, ls[0]).event.Acquired? && !Step(m, ls[0]).event.Released?
      && Alone(Step(m, ls[0]).state, ls[1..], a, t)
  }

  ghost predicate Solo(m: Slab, a: Agent, t: Slab) {
    exists ls :: Alone(m, ls, a, t)
  }

  lemma SoloStart(m: Slab, a: Agent)
    ensures Solo(m, a, m)
  {
    assert Alone(m, [], a, m);
  }

  lemma {:induction false} AloneSnoc(m: Slab, ls: seq<Label>, a: Agent, t: Slab, l: Label)
    requires Alone(m, ls, a, t) && l.Run? && l.agent == a && Step(t, l).Then?
    requires !Step(t, l).event.Acquired? && !Step(t, l).event.Released?
    ensures Alone(m, ls + [l], a, Step(t, l).state)
    decreases |ls|
  {
    if ls == [] {
      assert (ls + [l])[0] == l && (ls + [l])[1..] == [];
    } else {
      assert (ls + [l])[0] == ls[0] && (ls + [l])[1..] == ls[1..] + [l];
      AloneSnoc(Step(m, ls[0]).state, ls[1..], a, t, l);
    }
  }

  lemma SoloStep(m: Slab, a: Agent, t: Slab, l: Label)
    requires Solo(m, a, t) && l.Run? && l.agent == a && Step(t, l).Then?
    requires !Step(t, l).event.Acquired? && !Step(t, l).event.Released?
    ensures Solo(m, a, Step(t, l).state)
  {
    var ls :| Alone(m, ls, a, t);
    AloneSnoc(m, ls, a, t, l);
  }

  // One step, by the kind of operation the agent is in.

  lemma GoesPop(s: Slab, t: Slab, a: Agent, cpu: Cpu) returns (u: Slab)
    requires Solo(s, a, t) && Popping(At(t.pcs, a)) && PopStep(t, a, At(t.pcs, a), cpu).Then?
    ensures Solo(s, a, u) && u == PopStep(t, a, At(t.pcs, a), cpu).state
  {
    SoloStep(s, a, t, Run(a, cpu, 0, false));
    u := PopStep(t, a, At(t.pcs, a), cpu).state;
  }

  lemma GoesAlloc(s: Slab, t: Slab, a: Agent, cpu: Cpu) returns (u: Slab)
    requires Solo(s, a, t) && Allocating(At(t.pcs, a)) && AllocStep(t, a, At(t.pcs, a), cpu).Then?
    ensures Solo(s, a, u) && u == AllocStep(t, a, At(t.pcs, a), cpu).state
  {
    SoloStep(s, a, t, Run(a, cpu, 0, false));
    u := AllocStep(t, a, At(t.pcs, a), cpu).state;
  }

  lemma GoesRemove(s: Slab, t: Slab, a: Agent, cpu: Cpu) returns (u: Slab)
    requires Solo(s, a, t) && (At(t.pcs, a).RemoveLoad? || At(t.pcs, a).RemoveCas?)
    requires RemoveStep(t, a, At(t.pcs, a), false).Then?
    ensures Solo(s, a, u) && u == RemoveStep(t, a, At(t.pcs, a), false).state
  {
    SoloStep(s, a, t, Run(a, cpu, 0, false));
    u := RemoveStep(t, a, At(t.pcs, a), false).state;
  }

  lemma GoesClear(s: Slab, t: Slab, a: Agent, cpu: Cpu) returns (u: Slab)
    requires Solo(s, a, t) && Clearing(At(t.pcs, a)) && ClearStep(t, a, At(t.pcs, a), cpu).Then?
    ensures Solo(s, a, u) && u == ClearStep(t, a, At(t.pcs, a), cpu).state
  {
    SoloStep(s, a, t, Run(a, cpu, 0, false));
    u := ClearStep(t, a, At(t.pcs, a), cpu).state;
  }

  lemma GoesPush(s: Slab, t: Slab, a: Agent, cpu: Cpu) returns (u: Slab)
    requires Solo(s, a, t) && Pushing(At(t.pcs, a)) && PushStep(t, a, At(t.pcs, a), cpu).Then?
    ensures Solo(s, a, u) && u == PushStep(t, a, At(t.pcs, a), cpu).state
  {
    SoloStep(s, a, t, Run(a, cpu, 0, false));
    u := PushStep(t, a, At(t.pcs, a), cpu).state;
  }

  /** `t` is `m` with agent `a` at `q`, but perhaps for slot `i`, the head, the tag and more issued indices. */
  ghost predicate Shows(t: Slab, m: Slab, a: Agent, q: Pc, i: nat) {
    && Moves(m, t, a, q) && t.locals == m.locals && t.refs == m.refs && t.dropping == m.dropping
    && (forall x :: x in m.issued ==> x in t.issued)
    && |t.slots| == |m.slots|
    && (forall j :: 0 <= j < |m.slots| && j != i ==> t.slots[j] == m.slots[j])
  }

  lemma ShowsOn(u: Slab, t: Slab, m: Slab, a: Agent, p: Pc, q: Pc, i: nat)
    requires Shows(t, m, a, p, i) && Shows(u, t, a, q, i)
    ensures Shows(u, m, a, q, i)
  {
  }

  /** Agent `a` gets as far as having read the entry of slot `i` and its `next`. */
  lemma PopReads(s: Slab, m: Slab, a: Agent, v: Value, i: nat) returns (t: Slab)
    requires Solo(s, a, m) && At(m.pcs, a) == LocalPop(v) && LocalHead(m.locals, 0).Empty? && m.head == Entry(i, 0)
    requires i < |m.slots|
    ensures Solo(s, a, t) && Shows(t, m, a, PopCas(v, m.head, m.slots[i].next), i)
    ensures t.head == m.head && t.tag == m.tag && t.issued == m.issued && t.slots[i] == m.slots[i]
  {
    t := GoesPop(s, m, a, 0);
    assert At(t.pcs, a) == PopLoad(v);
    t := GoesPop(s, t, a, 0);
    assert At(t.pcs, a) == PopNext(v, m.head);
    t := GoesPop(s, t, a, 0);
  }

  /** A pop that has read the current entry and its `next` takes the slot. */
  lemma PopWins(s: Slab, m: Slab, a: Agent, v: Value, next: Word) returns (t: Slab)
    requires Solo(s, a, m) && m.head.Entry? && At(m.pcs, a) == PopCas(v, m.head, next)
    ensures Solo(s, a, t) && Shows(t, m, a, AllocLoad(v, m.head.index), |m.slots|) && t.slots == m.slots
    ensures t.head == next && t.tag == m.tag && t.issued == m.issued
  {
    t := GoesPop(s, m, a, 0);
  }

  /** A slot after an undisturbed allocation on processor 0. */
  function Filled(b: Slot, v: Value): Slot {
    Slot(Lifecycle(Allocated, b.life.generation + 1, b.life.refcount), Some(v), b.next, Some(0))
  }

  /** One step of `insert` on slot `i`. */
  lemma AllocShows(m: Slab, a: Agent)
    requires Allocating(At(m.pcs, a)) && AllocStep(m, a, At(m.pcs, a), 0).Then?
    ensures var t, i := AllocStep(m, a, At(m.pcs, a), 0).state, At(m.pcs, a).i;
            && Shows(t, m, a, At(t.pcs, a), i) && t.head == m.head && t.tag == m.tag
            && (!At(m.pcs, a).AllocProcessor? ==> t.issued == m.issued)
  {
  }

  /** Agent `a` has read the lifecycle of slot `i`. */
  lemma Loads(s: Slab, m: Slab, a: Agent, v: Value, i: nat) returns (t: Slab)
    requires Solo(s, a, m) && i < |m.slots| && At(m.pcs, a) == AllocLoad(v, i)
    ensures Solo(s, a, t) && Shows(t, m, a, AllocStore(v, i, m.slots[i].life), i)
    ensures t.head == m.head && t.tag == m.tag && t.issued == m.issued && t.slots[i] == m.slots[i]
  {
    AllocShows(m, a);
    t := GoesAlloc(s, m, a, 0);
    assert At(t.pcs, a) == AllocStore(v, i, m.slots[i].life);
  }

  /** Agent `a` has stored the lifecycle of slot `i`. */
  lemma Stores(s: Slab, m: Slab, a: Agent, v: Value, i: nat) returns (t: Slab)
    requires Solo(s, a, m) && i < |m.slots| && At(m.pcs, a) == AllocLoad(v, i)
    requires m.slots[i].life.generation + 1 < COUNTER_LIMIT
    ensures Solo(s, a, t) && Shows(t, m, a, AllocWrite(v, i, m.slots[i].life.generation + 1), i)
    ensures t.head == m.head && t.tag == m.tag && t.issued == m.issued
    ensures var b := m.slots[i];
            t.slots[i] == b.(life := Lifecycle(Allocated, b.life.generation + 1, b.life.refcount))
  {
    var t1 := Loads(s, m, a, v, i);
    AllocShows(t1, a);
    t := GoesAlloc(s, t1, a, 0);
    var q := AllocWrite(v, i, m.slots[i].life.generation + 1);
    assert At(t.pcs, a) == q;
    ShowsOn(t, t1, m, a, AllocStore(v, i, m.slots[i].life), q, i);
  }

  lemma Allocates(s: Slab, m: Slab, a: Agent, v: Value, i: nat, x: Idx) returns (t: Slab)
    requires Solo(s, a, m) && i < |m.slots| && At(m.pcs, a) == AllocLoad(v, i)
    requires m.slots[i].life.generation + 1 == x.generation < COUNTER_LIMIT && x.index == i
    ensures Solo(s, a, t) && Shows(t, m, a, Inserted(x), i)
    ensures t.head == m.head && t.tag == m.tag && t.slots[i] == Filled(m.slots[i], v)
    ensures x in t.issued
  {
    var gen := m.slots[i].life.generation + 1;
    var t1 := Stores(s, m, a, v, i);
    t := GoesAlloc(s, t1, a, 0);
    assert At(t.pcs, a) == AllocProcessor(v, i, gen);
    t := GoesAlloc(s, t, a, 0);
    ShowsOn(t, t1, m, a, AllocWrite(v, i, gen), Inserted(x), i);
  }

  /** Agent `a` takes slot `i` from the top of the global list. */
  lemma Takes(s: Slab, m: Slab, a: Agent, v: Value, i: nat) returns (t: Slab)
    requires Solo(s, a, m) && At(m.pcs, a) == LocalPop(v) && LocalHead(m.locals, 0).Empty? && m.head == Entry(i, 0)
    requires i < |m.slots|
    ensures Solo(s, a, t) && Shows(t, m, a, AllocLoad(v, i), i)
    ensures t.head == m.slots[i].next && t.tag == m.tag && t.issued == m.issued && t.slots[i] == m.slots[i]
  {
    var t1 := PopReads(s, m, a, v, i);
    t := PopWins(s, t1, a, v, m.slots[i].next);
    ShowsOn(t, t1, m, a, PopCas(v, m.head, m.slots[i].next), AllocLoad(v, i), i);
  }

  /** An undisturbed insert into slot `i`. */
  lemma Fills(s: Slab, m: Slab, a: Agent, v: Value, i: nat, x: Idx) returns (t: Slab)
    requires Solo(s, a, m) && At(m.pcs, a) == LocalPop(v) && LocalHead(m.locals, 0).Empty? && m.head == Entry(i, 0)
    requires i < |m.slots|
    requires m.slots[i].life.generation + 1 == x.generation < COUNTER_LIMIT && x.index == i
    ensures Solo(s, a, t) && Shows(t, m, a, Inserted(x), i)
    ensures t.head == m.slots[i].next && t.tag == m.tag && t.slots[i] == Filled(m.slots[i], v)
    ensures x in t.issued
  {
    var t1 := Takes(s, m, a, v, i);
    t := Allocates(s, t1, a, v, i, x);
    ShowsOn(t, t1, m, a, AllocLoad(v, i), Inserted(x), i);
  }

  lemma GoesGet(s: Slab, t: Slab, a: Agent) returns (u: Slab)
    requires Solo(s, a, t) && (At(t.pcs, a).GetLoad? || At(t.pcs, a).GetCas?) && GetStep(t, a, At(t.pcs, a), 0).Then?
    requires !GetStep(t, a, At(t.pcs, a), 0).event.Acquired?
    ensures Solo(s, a, u) && u == GetStep(t, a, At(t.pcs, a), 0).state
  {
    SoloStep(s, a, t, Run(a, 0, 0, false));
    u := GetStep(t, a, At(t.pcs, a), 0).state;
  }

  /** A `get` whose slot has moved on to another generation. */
  lemma FindsNothing(s: Slab, m: Slab, a: Agent, x: Idx) returns (t: Slab)
    requires Solo(s, a, m) && At(m.pcs, a) == GetLoad(x) && x.index < |m.slots|
    requires m.slots[x.index].life.generation != x.generation
    ensures Solo(s, a, t) && Shows(t, m, a, GetDone(None), x.index)
  {
    t := GoesGet(s, m, a);
    assert At(t.pcs, a) == GetCas(x, m.slots[x.index].life);
    t := GoesGet(s, t, a);
  }

  lemma Marks(s: Slab, m: Slab, a: Agent, x: Idx) returns (t: Slab)
    requires Solo(s, a, m) && At(m.pcs, a) == RemoveLoad(x) && x.index < |m.slots|
    requires m.slots[x.index].life == Lifecycle(Allocated, x.generation, 0)
    ensures Solo(s, a, t) && Shows(t, m, a, ClearLoad(x.index, ByRemove), x.index)
    ensures t.head == m.head && t.tag == m.tag
    ensures t.slots[x.index] == m.slots[x.index].(life := Lifecycle(Unallocated, x.generation, 0))
  {
    t := GoesRemove(s, m, a, 0);
    assert At(t.pcs, a) == RemoveCas(x, m.slots[x.index].life);
    t := GoesRemove(s, t, a, 0);
  }

  lemma Wipes(s: Slab, m: Slab, a: Agent, i: nat) returns (t: Slab)
    requires Solo(s, a, m) && i < |m.slots| && At(m.pcs, a) == ClearLoad(i, ByRemove)
    requires m.slots[i].life.state == Unallocated && m.slots[i].contents.Some?
    ensures Solo(s, a, t) && Shows(t, m, a, ClearProcessor(i, ByRemove), i)
    ensures t.head == m.head && t.tag == m.tag && t.slots[i] == m.slots[i].(contents := None)
  {
    t := GoesClear(s, m, a, 0);
    assert At(t.pcs, a) == ClearStore(i, ByRemove, m.slots[i].life);
    t := GoesClear(s, t, a, 0);
    assert At(t.pcs, a) == ClearContents(i, ByRemove);
    t := GoesClear(s, t, a, 0);
  }

  /** The slot was filled on processor 0 and is returned on processor 1, so it goes to the global list. */
  lemma Routes(s: Slab, m: Slab, a: Agent, i: nat) returns (t: Slab)
    requires Solo(s, a, m) && i < |m.slots| && At(m.pcs, a) == ClearProcessor(i, ByRemove)
    requires m.slots[i].processor == Some(0)
    ensures Solo(s, a, t) && Shows(t, m, a, PushTag(i, ByRemove), i)
    ensures t.head == m.head && t.tag == m.tag
  {
    t := GoesClear(s, m, a, 0);
    assert At(t.pcs, a) == Route(i, ByRemove, Some(0));
    t := GoesClear(s, t, a, 1);
  }

  lemma Pushes(s: Slab, m: Slab, a: Agent, i: nat) returns (t: Slab)
    requires Solo(s, a, m) && At(m.pcs, a) == PushTag(i, ByRemove) && i < |m.slots| && m.tag < COUNTER_LIMIT
    ensures Solo(s, a, t) && Shows(t, m, a, RemoveDone(true), i)
    ensures t.head == Entry(i, m.tag)
  {
    var e := Entry(i, m.tag);
    t := GoesPush(s, m, a, 0);
    assert At(t.pcs, a) == PushLoad(i, ByRemove, e);
    t := GoesPush(s, t, a, 0);
    assert At(t.pcs, a) == PushLink(i, ByRemove, e, m.head);
    t := GoesPush(s, t, a, 0);
    assert At(t.pcs, a) == PushCas(i, ByRemove, e, m.head);
    t := GoesPush(s, t, a, 0);
  }

  /** An undisturbed removal, on a processor other than the one that filled the slot. */
  lemma Returns(s: Slab, m: Slab, a: Agent, x: Idx) returns (t: Slab)
    requires Solo(s, a, m) && At(m.pcs, a) == RemoveLoad(x) && x.index < |m.slots| && m.tag < COUNTER_LIMIT
    requires m.slots[x.index].life == Lifecycle(Allocated, x.generation, 0)
    requires m.slots[x.index].contents.Some? && m.slots[x.index].processor == Some(0)
    ensures Solo(s, a, t) && Shows(t, m, a, RemoveDone(true), x.index) && t.head == Entry(x.index, m.tag)
  {
    var i := x.index;
    var t1 := Marks(s, m, a, x);
    var t2 := Wipes(s, t1, a, i);
    ShowsOn(t2, t1, m, a, ClearLoad(i, ByRemove), ClearProcessor(i, ByRemove), i);
    var t3 := Routes(s, t2, a, i);
    ShowsOn(t3, t2, m, a, ClearProcessor(i, ByRemove), PushTag(i, ByRemove), i);
    t := Pushes(s, t3, a, i);
    ShowsOn(t, t3, m, a, PushTag(i, ByRemove), RemoveDone(true), i);
  }
}
