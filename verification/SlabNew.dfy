/**
 `Slab::new` primes the global list with tag-0 entries while the tag counter also
 starts at 0, so the first push repeats an entry. This module shows the run in which a
 stalled pop then takes a slot that is in use, and for which primed slabs each slot
 stays in one place and references stay safe in every run.
 */
module SlabNew {
  import opened Options
  import opened Packing
  import opened SlabMachine
  import opened SlabSolo
  import opened SlabLists
  import opened SlabLifecycle
  import opened SlabInvariant
  import opened SlabCounts
  import opened SlabTheorems
  import opened SlabFrames
  import opened SlabWords

  function FirstNext(n: nat, i: nat): Word {
    if i + 1 == n then Empty else Entry(i + 1, 0)
  }

  function FirstSlot(n: nat, i: nat): Slot {
    Slot(Lifecycle(Unallocated, 0, 0), None, FirstNext(n, i), None)
  }

  /** A primed slab of `n` slots whose tag counter starts at `tag`. */
  function Primed(n: nat, tag: nat): Slab {
    Slab(seq(n, i requires 0 <= i < n => FirstSlot(n, i)), Entry(0, 0), tag, map[], map[], map[], map[], map[])
  }

  /** `Slab::new`: the counter starts at 0. */
  method New(n: nat) returns (s: Slab)
    requires n < INDEX_LIMIT
    ensures s == Primed(n, 0)
  {
    var slots: seq<Slot> := [];
    var i := 0;
    while i < n
      invariant 0 <= i <= n && |slots| == i
      invariant forall j :: 0 <= j < i ==> slots[j] == FirstSlot(n, j)
    {
      var next := if i == n - 1 then Empty else Entry(i + 1, 0);
      slots := slots + [Slot(Lifecycle(Unallocated, 0, 0), None, next, None)];
      i := i + 1;
    }
    s := Slab(slots, Entry(0, 0), 0, map[], map[], map[], map[], map[]);
    assert slots == seq(n, i requires 0 <= i < n => FirstSlot(n, i));
  }

  // ---- Where the guarantees hold ----

  function FirstStack(n: nat): seq<Word> {
    seq(n, i requires 0 <= i < n => Entry(i, 0))
  }

  function FirstGhost(n: nat): Ghost {
    Ghost(map[Global := FirstStack(n)], seq(n, i => On(Global)), set w | w in FirstStack(n), multiset{}, multiset{})
  }

  lemma PrimedStocked(n: nat, tag: nat)
    requires n > 0
    ensures Stocked(Primed(n, tag), FirstGhost(n))
  {
    var s, g, l := Primed(n, tag), FirstGhost(n), FirstStack(n);
    forall id
      ensures Chain(s, g, id)
    {
      if id.Global? {
        forall k | 0 <= k < n
          ensures s.slots[l[k].index].next == Top(l[k + 1..])
        {
          assert k + 1 < n ==> l[k + 1..][0] == l[k + 1];
        }
      }
    }
    forall i | 0 <= i < n
      ensures Lists(ListOf(g.lists, g.place[i].list), i)
    {
      assert l[i].Entry? && l[i].index == i;
    }
  }

  /** Starting the counter at 1 or above is enough. */
  lemma PrimedTagFresh(n: nat, tag: nat)
    requires n > 0
    ensures TagFresh(Primed(n, tag)) <==> tag > 0
  {
    var s := Primed(n, tag);
    if tag > 0 {
      PrimedStocked(n, tag);
      assert FreshStart(s, FirstGhost(n));
    }
    if TagFresh(s) {
      var g :| FreshStart(s, g);
      assert Chain(s, g, Global);
      assert Stack(g)[0] == Entry(0, 0);
    }
  }

  /** A single slot, or a counter above 0, makes a primed slab a safe start. */
  lemma PrimedSafeStart(n: nat, tag: nat)
    requires n == 1 || (n > 0 && tag > 0)
    ensures SafeStart(Primed(n, tag))
  {
    if tag > 0 {
      PrimedTagFresh(n, tag);
      TagFreshIsSafe(Primed(n, tag));
    } else {
      PrimedStocked(1, tag);
      assert Single(Primed(1, tag));
      assert StartsAt(Primed(1, tag), FirstGhost(1));
    }
  }

  /** The words of a primed slab fit, so the comparisons of packed words agree with the machine's in all its runs. */
  lemma PrimedFits(n: nat, tag: nat)
    requires n < INDEX_LIMIT
    ensures LivesFit(Primed(n, tag)) && WordsFit(Primed(n, tag))
  {
  }

  ghost predicate AlwaysSafe(s: Slab) {
    forall ls :: Behaves(s, ls) ==> Runs(s, ls) && EachSlotOnce(Exec(s, ls))
  }

  // ---- A stalled pop that takes a slot in use ----

  ghost predicate Reaches(s: Slab, t: Slab) {
    exists ls :: Behaves(s, ls) && Runs(s, ls) && Exec(s, ls) == t
  }

  lemma {:induction false} BehavesSnoc(s: Slab, ls: seq<Label>, l: Label)
    requires Behaves(s, ls) && Runs(s, ls) && Step(Exec(s, ls), l).Then? && Disciplined(Exec(s, ls), l)
    ensures Behaves(s, ls + [l]) && Runs(s, ls + [l]) && Exec(s, ls + [l]) == Step(Exec(s, ls), l).state
    decreases |ls|
  {
    if ls == [] {
      assert (ls + [l])[0] == l && (ls + [l])[1..] == [];
    } else {
      assert (ls + [l])[0] == ls[0] && (ls + [l])[1..] == ls[1..] + [l];
      BehavesSnoc(Step(s, ls[0]).state, ls[1..], l);
    }
  }

  lemma ReachesStep(s: Slab, t: Slab, l: Label)
    requires Reaches(s, t) && Step(t, l).Then? && Disciplined(t, l)
    ensures Reaches(s, Step(t, l).state)
  {
    var ls :| Behaves(s, ls) && Runs(s, ls) && Exec(s, ls) == t;
    BehavesSnoc(s, ls, l);
  }

  // One step, by the kind of operation the agent is in.

  lemma GoesClient(s: Slab, t: Slab, l: Label) returns (u: Slab)
    requires Reaches(s, t) && !l.Run? && ClientStep(t, l).Then? && Disciplined(t, l)
    ensures Reaches(s, u) && u == ClientStep(t, l).state
  {
    ReachesStep(s, t, l);
    u := ClientStep(t, l).state;
  }

  lemma GoesGet(s: Slab, t: Slab, a: Agent, name: RefId) returns (u: Slab)
    requires Reaches(s, t) && (At(t.pcs, a).GetLoad? || At(t.pcs, a).GetCas?) && GetStep(t, a, At(t.pcs, a), name).Then?
    ensures Reaches(s, u) && u == GetStep(t, a, At(t.pcs, a), name).state
  {
    ReachesStep(s, t, Run(a, 0, name, false));
    u := GetStep(t, a, At(t.pcs, a), name).state;
  }

  lemma GoesDrop(s: Slab, t: Slab, a: Agent) returns (u: Slab)
    requires Reaches(s, t) && (At(t.pcs, a).DropLoad? || At(t.pcs, a).DropCas?) && DropStep(t, a, At(t.pcs, a)).Then?
    ensures Reaches(s, u) && u == DropStep(t, a, At(t.pcs, a)).state
  {
    ReachesStep(s, t, Run(a, 0, 0, false));
    u := DropStep(t, a, At(t.pcs, a)).state;
  }

  lemma {:induction false} AloneReaches(s: Slab, m: Slab, ls: seq<Label>, a: Agent, t: Slab)
    requires Reaches(s, m) && Alone(m, ls, a, t)
    ensures Reaches(s, t)
    decreases |ls|
  {
    if ls != [] {
      ReachesStep(s, m, ls[0]);
      AloneReaches(s, Step(m, ls[0]).state, ls[1..], a, t);
    }
  }

  lemma GoesSolo(s: Slab, m: Slab, a: Agent, t: Slab)
    requires Reaches(s, m) && Solo(m, a, t)
    ensures Reaches(s, t)
  {
    var ls :| Alone(m, ls, a, t);
    AloneReaches(s, m, ls, a, t);
  }

  /** Agent `a` gets as far as having read the entry of slot `i` and its `next`. */
  lemma Stalls(s: Slab, m: Slab, a: Agent, v: Value, i: nat) returns (t: Slab)
    requires Reaches(s, m) && At(m.pcs, a).Idle? && LocalHead(m.locals, 0).Empty? && m.head == Entry(i, 0)
    requires i < |m.slots|
    ensures Reaches(s, t) && Shows(t, m, a, PopCas(v, m.head, m.slots[i].next), i)
    ensures t.head == m.head && t.tag == m.tag && t.slots[i] == m.slots[i]
  {
    var t1 := GoesClient(s, m, CallInsert(a, v));
    SoloStart(t1, a);
    t := PopReads(t1, t1, a, v, i);
    GoesSolo(s, t1, a, t);
    ShowsOn(t, t1, m, a, LocalPop(v), PopCas(v, m.head, m.slots[i].next), i);
  }

  lemma Inserts(s: Slab, m: Slab, a: Agent, v: Value, i: nat, x: Idx) returns (t: Slab)
    requires Reaches(s, m) && At(m.pcs, a).Idle? && LocalHead(m.locals, 0).Empty? && m.head == Entry(i, 0)
    requires i < |m.slots|
    requires m.slots[i].life.generation + 1 == x.generation < COUNTER_LIMIT && x.index == i
    ensures Reaches(s, t) && Shows(t, m, a, Idle, i)
    ensures t.head == m.slots[i].next && t.tag == m.tag && t.slots[i] == Filled(m.slots[i], v)
    ensures x in t.issued
  {
    var t1 := GoesClient(s, m, CallInsert(a, v));
    SoloStart(t1, a);
    var t2 := Fills(t1, t1, a, v, i, x);
    GoesSolo(s, t1, a, t2);
    ShowsOn(t2, t1, m, a, LocalPop(v), Inserted(x), i);
    t := GoesClient(s, t2, Finish(a));
    ShowsOn(t, t2, m, a, Inserted(x), Idle, i);
  }

  lemma Removes(s: Slab, m: Slab, a: Agent, x: Idx) returns (t: Slab)
    requires Reaches(s, m) && At(m.pcs, a).Idle? && x in m.issued && x.index < |m.slots| && m.tag < COUNTER_LIMIT
    requires m.slots[x.index].life == Lifecycle(Allocated, x.generation, 0)
    requires m.slots[x.index].contents.Some? && m.slots[x.index].processor == Some(0)
    ensures Reaches(s, t) && Shows(t, m, a, RemoveDone(true), x.index) && t.head == Entry(x.index, m.tag)
  {
    var t1 := GoesClient(s, m, CallRemove(a, x));
    SoloStart(t1, a);
    t := Returns(t1, t1, a, x);
    GoesSolo(s, t1, a, t);
    ShowsOn(t, t1, m, a, RemoveLoad(x), RemoveDone(true), x.index);
  }

  /** Slot 1 is in use, no reference exists, and the local lists are untouched. */
  ghost predicate SecondInUse(t: Slab, n: nat) {
    && |t.slots| == n >= 2 && t.locals == map[] && t.refs == map[] && t.dropping == map[]
    && Idx(1, 1) in t.issued && t.slots[1].life == Lifecycle(Allocated, 1, 0)
  }

  /** Agent 1 fills slots 0 and 1 while agent 0 is stalled with the entry of slot 0. */
  lemma FillsTwo(n: nat) returns (t: Slab)
    requires n >= 2
    ensures Reaches(Primed(n, 0), t) && SecondInUse(t, n) && t.tag == 0
    ensures Idx(1, 0) in t.issued && t.slots[0] == Slot(Lifecycle(Allocated, 1, 0), Some(8), Entry(1, 0), Some(0))
    ensures forall b :: At(t.pcs, b) == if b == 0 then PopCas(7, Entry(0, 0), Entry(1, 0)) else Idle
  {
    var s := Primed(n, 0);
    assert Behaves(s, []) && Runs(s, []) && Exec(s, []) == s;
    t := Stalls(s, s, 0, 7, 0);
    t := Inserts(s, t, 1, 8, 0, Idx(1, 0));
    t := Inserts(s, t, 1, 9, 1, Idx(1, 1));
  }

  /** Agent 1 returns slot 0 from another processor, which repeats the entry agent 0 has read. */
  lemma RepeatsEntry(n: nat) returns (t: Slab)
    requires n >= 2
    ensures Reaches(Primed(n, 0), t) && SecondInUse(t, n) && t.head == Entry(0, 0)
    ensures At(t.pcs, 0) == PopCas(7, Entry(0, 0), Entry(1, 0))
    ensures forall b :: b != 0 ==> At(t.pcs, b) == if b == 1 then RemoveDone(true) else Idle
  {
    var m := FillsTwo(n);
    t := Removes(Primed(n, 0), m, 1, Idx(1, 0));
  }

  /** The stalled pop resumes and takes the head to slot 1, which is in use. */
  lemma StalledPop(n: nat) returns (t: Slab)
    requires n >= 2
    ensures Reaches(Primed(n, 0), t) && SecondInUse(t, n)
    ensures t.head == Entry(1, 0) && Unheld(t, 1)
    ensures forall b :: b > 1 ==> At(t.pcs, b) == Idle
  {
    var m := RepeatsEntry(n);
    SoloStart(m, 0);
    t := PopWins(m, m, 0, 7, Entry(1, 0));
    GoesSolo(Primed(n, 0), m, 0, t);
    forall b
      ensures Holding(At(t.pcs, b)) != Some(1)
    {
      assert b != 0 ==> Holding(At(m.pcs, b)).None?;
    }
  }

  /** A slot on top of the global list that is also in use has no sole place. */
  lemma TwoPlaces(t: Slab, lists: map<ListId, seq<Word>>, i: nat)
    requires i < |t.slots| && t.head.Entry? && t.head.index == i && Spells(t, Global, ListOf(lists, Global))
    requires t.slots[i].life.state == Allocated && Unheld(t, i)
    ensures !HasPlace(t, lists, i)
  {
    assert Lists(ListOf(lists, Global), i) by {
      assert ListOf(lists, Global)[0] == t.head;
    }
    assert PlaceIs(t, lists, i, On(Global)) && PlaceIs(t, lists, i, Live);
    forall p
      ensures !SolePlace(t, lists, i, p)
    {
    }
  }

  /** The property fails: slot 1 is then both live and on top of the global list. */
  lemma StalledPopUnsafe(n: nat)
    requires n >= 2
    ensures !AlwaysSafe(Primed(n, 0))
  {
    var s := Primed(n, 0);
    var t := StalledPop(n);
    var ls :| Behaves(s, ls) && Runs(s, ls) && Exec(s, ls) == t;
    if EachSlotOnce(t) {
      var lists :| Partitions(t, lists);
      assert Spells(t, Global, ListOf(lists, Global));
      TwoPlaces(t, lists, 1);
    }
  }

  /** A slab of no slots has a global head naming a slot it does not have. */
  lemma EmptyUnsafe(tag: nat)
    ensures !AlwaysSafe(Primed(0, tag))
  {
    var s := Primed(0, tag);
    assert Behaves(s, []) && Runs(s, []) && Exec(s, []) == s;
    forall lists
      ensures !Partitions(s, lists)
    {
      assert !Spells(s, Global, ListOf(lists, Global)) by {
        assert HeadOf(s, Global) == Entry(0, 0);
      }
    }
    assert !EachSlotOnce(Exec(s, []));
  }

  /**
   Exactly when a primed slab keeps each slot in one place in every run: it has one
   slot, or it has slots and its tag counter starts above 0. `Slab::new` starts at 0.
   */
  lemma PrimedSafeExactly(n: nat, tag: nat)
    ensures AlwaysSafe(Primed(n, tag)) <==> n == 1 || (n > 0 && tag > 0)
  {
    if n == 0 {
      EmptyUnsafe(tag);
    } else if n > 1 && tag == 0 {
      StalledPopUnsafe(n);
    } else {
      var s := Primed(n, tag);
      PrimedSafeStart(n, tag);
      forall ls | Behaves(s, ls)
        ensures Runs(s, ls) && EachSlotOnce(Exec(s, ls))
      {
        SlotOwnership(s, ls);
      }
    }
  }

  // ---- References over a slot handed out twice ----

  /** Agent 2 takes a reference to the entry in slot 1. */
  lemma GetsSecond(n: nat) returns (t: Slab)
    requires n >= 2
    ensures Reaches(Primed(n, 0), t) && |t.slots| == n && t.head == Entry(1, 0) && t.locals == map[]
    ensures t.refs == map[0 := Idx(1, 1)] && t.dropping == map[] && t.slots[1].life == Lifecycle(Allocated, 1, 1)
    ensures At(t.pcs, 2) == Idle && At(t.pcs, 3) == Idle
  {
    var s, x := Primed(n, 0), Idx(1, 1);
    var m := StalledPop(n);
    t := GoesClient(s, m, CallGet(2, x));
    assert At(t.pcs, 2) == GetLoad(x);
    t := GoesGet(s, t, 2, 0);
    assert At(t.pcs, 2) == GetCas(x, Lifecycle(Allocated, 1, 0));
    t := GoesGet(s, t, 2, 0);
    assert At(t.pcs, 2) == GetDone(Some(0));
    assert t.refs == map[0 := x];
    t := GoesClient(s, t, Finish(2));
  }

  /** Agent 3 inserts, is handed slot 1, and raises its generation under the reference. */
  lemma ReferenceLosesSlot(n: nat) returns (t: Slab)
    requires n >= 2
    ensures Reaches(Primed(n, 0), t) && |t.slots| == n && t.refs == map[0 := Idx(1, 1)] && t.dropping == map[]
    ensures t.slots[1].life == Lifecycle(Allocated, 2, 1) && At(t.pcs, 2) == Idle
  {
    var s := Primed(n, 0);
    var m := GetsSecond(n);
    var t1 := GoesClient(s, m, CallInsert(3, 5));
    SoloStart(t1, 3);
    var t2 := Takes(t1, t1, 3, 5, 1);
    t := Stores(t1, t2, 3, 5, 1);
    GoesSolo(s, t1, 3, t);
    assert At(t1.pcs, 2) == Idle && At(t2.pcs, 2) == Idle;
  }

  /** Agent 2 drops its reference and finds the slot's generation changed. */
  lemma ReleaseFails(n: nat) returns (t: Slab)
    requires n >= 2
    ensures Reaches(Primed(n, 0), t) && ReleasePanics(At(t.pcs, 2))
  {
    var s := Primed(n, 0);
    var m := ReferenceLosesSlot(n);
    t := GoesClient(s, m, CallDrop(2, 0));
    assert At(t.pcs, 2) == DropLoad(0, Idx(1, 1));
    t := GoesDrop(s, t, 2);
  }

  /** Counts match, references are honoured, and no release is about to panic. */
  ghost predicate RefsSafe(c: Slab) {
    && (forall i :: 0 <= i < |c.slots| ==> c.slots[i].life.refcount == |RefsOn(c.refs, i)|)
    && (forall r :: r in c.refs ==> RefHonoured(c, r))
    && (forall a :: !ReleasePanics(At(c.pcs, a)))
  }

  ghost predicate RefsAlwaysSafe(s: Slab) {
    forall ls :: Behaves(s, ls) ==> Runs(s, ls) && RefsSafe(Exec(s, ls))
  }

  lemma StalledPopBreaksReferences(n: nat)
    requires n >= 2
    ensures !RefsAlwaysSafe(Primed(n, 0))
  {
    var s := Primed(n, 0);
    var t := ReleaseFails(n);
    var ls :| Behaves(s, ls) && Runs(s, ls) && Exec(s, ls) == t;
    assert !RefsSafe(Exec(s, ls));
  }

  lemma SafeStartRefs(s: Slab)
    requires SafeStart(s)
    ensures RefsAlwaysSafe(s)
  {
    forall ls | Behaves(s, ls)
      ensures Runs(s, ls) && RefsSafe(Exec(s, ls))
    {
      ReferenceSafety(s, ls);
      var g := Reached(s, ls);
      var c := Exec(s, ls);
      forall a
        ensures !ReleasePanics(At(c.pcs, a))
      {
        assert ClientOk(c, a, At(c.pcs, a));
      }
    }
  }

  // ---- A slab of no slots ----

  /** Without slots no reference is ever made. */
  ghost predicate Barren(s: Slab) {
    s.slots == [] && s.refs == map[] && forall a :: !At(s.pcs, a).DropCas?
  }

  lemma BarrenStep(s: Slab, l: Label)
    requires Barren(s) && Step(s, l).Then?
    ensures Barren(Step(s, l).state)
  {
    var pc := At(s.pcs, l.agent);
    if !l.Run? {
      ClientLeads(s, l);
    } else if Popping(pc) {
      PopLeads(s, l.agent, l.cpu);
    }
  }

  lemma {:induction false} BarrenRun(s: Slab, ls: seq<Label>)
    requires Barren(s) && Runs(s, ls)
    ensures Barren(Exec(s, ls))
    decreases |ls|
  {
    if ls != [] {
      BarrenStep(s, ls[0]);
      BarrenRun(Step(s, ls[0]).state, ls[1..]);
    }
  }

  lemma BarrenRefs(s: Slab)
    requires Barren(s)
    ensures RefsAlwaysSafe(s)
  {
    forall ls | Behaves(s, ls)
      ensures Runs(s, ls) && RefsSafe(Exec(s, ls))
    {
      BehavesRuns(s, ls);
      BarrenRun(s, ls);
    }
  }

  /**
   Exactly when references of a primed slab are safe in every run, counts, contents and
   releases included: unless it has two or more slots and a tag counter starting at 0,
   which is how `Slab::new` makes it.
   */
  lemma PrimedRefsSafeExactly(n: nat, tag: nat)
    ensures RefsAlwaysSafe(Primed(n, tag)) <==> n <= 1 || tag > 0
  {
    if n == 0 {
      BarrenRefs(Primed(n, tag));
    } else if n > 1 && tag == 0 {
      StalledPopBreaksReferences(n);
    } else {
      PrimedSafeStart(n, tag);
      SafeStartRefs(Primed(n, tag));
    }
  }

  // ---- Why clients must not guess indices ----

  ghost predicate Leads(s: Slab, t: Slab) {
    exists ls :: Runs(s, ls) && Exec(s, ls) == t
  }

  lemma {:induction false} RunsSnocOne(s: Slab, ls: seq<Label>, l: Label)
    requires Runs(s, ls) && Step(Exec(s, ls), l).Then?
    ensures Runs(s, ls + [l]) && Exec(s, ls + [l]) == Step(Exec(s, ls), l).state
    decreases |ls|
  {
    if ls == [] {
      assert (ls + [l])[0] == l && (ls + [l])[1..] == [];
    } else {
      assert (ls + [l])[0] == ls[0] && (ls + [l])[1..] == ls[1..] + [l];
      RunsSnocOne(Step(s, ls[0]).state, ls[1..], l);
    }
  }

  lemma LeadsStep(s: Slab, t: Slab, l: Label)
    requires Leads(s, t) && Step(t, l).Then?
    ensures Leads(s, Step(t, l).state)
  {
    var ls :| Runs(s, ls) && Exec(s, ls) == t;
    RunsSnocOne(s, ls, l);
  }

  lemma LeadsGet(s: Slab, t: Slab, a: Agent, name: RefId) returns (u: Slab)
    requires Leads(s, t) && (At(t.pcs, a).GetLoad? || At(t.pcs, a).GetCas?) && GetStep(t, a, At(t.pcs, a), name).Then?
    ensures Leads(s, u) && u == GetStep(t, a, At(t.pcs, a), name).state
  {
    LeadsStep(s, t, Run(a, 0, name, false));
    u := GetStep(t, a, At(t.pcs, a), name).state;
  }

  /** An insert has published the lifecycle of slot 0 but not yet written its contents. */
  lemma PublishesEarly(n: nat) returns (t: Slab)
    requires n > 0
    ensures Reaches(Primed(n, 1), t) && |t.slots| == n && t.refs == map[] && Idx(1, 0) !in t.issued
    ensures t.slots[0].life == Lifecycle(Allocated, 1, 0) && t.slots[0].contents.None? && At(t.pcs, 1).Idle?
  {
    var s := Primed(n, 1);
    assert Behaves(s, []) && Runs(s, []) && Exec(s, []) == s;
    var t1 := GoesClient(s, s, CallInsert(0, 7));
    SoloStart(t1, 0);
    var t2 := Takes(t1, t1, 0, 7, 0);
    t := Stores(t1, t2, 0, 7, 0);
    GoesSolo(s, t1, 0, t);
    assert At(t1.pcs, 1) == Idle && At(t2.pcs, 1) == Idle;
  }

  /** A `get` with an index no insert has returned yet can yield a reference to contents never written. */
  lemma GuessedIndexUnsafe(n: nat)
    requires n > 0
    ensures exists t, r ::
            Leads(Primed(n, 1), t) && r in t.refs && t.refs[r] == Idx(1, 0) && t.slots != []
            && t.slots[0].contents.None?
  {
    var s, x := Primed(n, 1), Idx(1, 0);
    var t := PublishesEarly(n);
    assert Leads(s, t);
    LeadsStep(s, t, CallGet(1, x));
    t := ClientStep(t, CallGet(1, x)).state;
    assert At(t.pcs, 1) == GetLoad(x);
    t := LeadsGet(s, t, 1, 0);
    assert At(t.pcs, 1) == GetCas(x, Lifecycle(Allocated, 1, 0));
    t := LeadsGet(s, t, 1, 0);
    assert 0 in t.refs;
  }

  /**
   Exactly when a match can be trusted: after any disciplined run, a slot that is
   Allocated at the generation of `x` is held by no operation if and only if some
   `insert` has returned `x`, and then it holds the inserted value.
   */
  lemma MatchTrustedExactly(s: Slab, ls: seq<Label>, x: Idx)
    requires SafeStart(s) && Behaves(s, ls) && Runs(s, ls)
    requires x.index < |Exec(s, ls).slots|
    requires var life := Exec(s, ls).slots[x.index].life; life.state == Allocated && life.generation == x.generation
    ensures var c := Exec(s, ls);
            && (x in c.issued <==> Unheld(c, x.index))
            && (x in c.issued ==> c.slots[x.index].contents == Some(c.issued[x]))
  {
    var g := Reached(s, ls);
    var c := Exec(s, ls);
    assert SlotOk(c, g, x.index);
    if x in c.issued {
      assert IssuedOk(c, g, x);
    }
    assert Idx(x.generation, x.index) == x;
    if g.place[x.index].Held? {
      assert Holding(At(c.pcs, g.place[x.index].agent)) == Some(x.index);
    }
  }
}
