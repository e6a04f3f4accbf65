/**
 What the slab guarantees over whole runs. Every theorem speaks of all runs of
 disciplined clients from a safe start, one whose global list carries tags below the
 counter or that has a single slot, and mentions only the machine's own state and events.
 */
module SlabTheorems {
  import opened Options
  import opened Packing
  import opened SlabMachine
  import opened SlabLists
  import opened SlabLifecycle
  import opened SlabInvariant
  import opened SlabCounts
  import opened SlabCalls

  // ---- Starts and runs ----

  /** No agent is at work, nothing has been issued, and every slot is vacant at generation 0. */
  ghost predicate Untouched(s: Slab) {
    && (forall a :: At(s.pcs, a).Idle?)
    && s.refs == map[] && s.dropping == map[] && s.issued == map[]
    && (forall i :: 0 <= i < |s.slots| ==> Vacant(s.slots[i]) && s.slots[i].life.generation == 0)
  }

  /** Every slot is on exactly one free list, as recorded by `g`. */
  ghost predicate Stocked(s: Slab, g: Ghost) {
    && Untouched(s) && Chains(s, g)
    && (forall i :: 0 <= i < |g.place| ==> g.place[i].On?)
    && g.granted == multiset{} && g.freed == multiset{}
  }

  ghost predicate FreshStart(s: Slab, g: Ghost) {
    && Stocked(s, g)
    && (forall w :: w in g.seen <==> w in Stack(g))
    && (forall w :: w in Stack(g) ==> w.Entry? && w.tag < s.tag)
  }

  /** The slab is stocked and every entry of its global list has a tag below the counter. */
  ghost predicate TagFresh(s: Slab) {
    exists g :: FreshStart(s, g)
  }

  /** A stocked slab in which no pop can be fooled: its tags are fresh, or it has one slot. */
  ghost predicate StartsAt(s: Slab, g: Ghost) {
    Stocked(s, g) && Tags(s, g)
  }

  ghost predicate SafeStart(s: Slab) {
    exists g :: StartsAt(s, g)
  }

  lemma TagFreshIsSafe(s: Slab)
    requires TagFresh(s)
    ensures SafeStart(s)
  {
    var g :| FreshStart(s, g);
    assert Chain(s, g, Global);
    assert StartsAt(s, g);
  }

  ghost predicate Whole(s: Slab, g: Ghost) {
    Inv(s, g) && Counts(s, g)
  }

  /** The ghost record at the end of a run. */
  function Trail(s: Slab, g: Ghost, ls: seq<Label>): Ghost
    requires Runs(s, ls)
    decreases |ls|
  {
    if ls == [] then g else Trail(Step(s, ls[0]).state, Track(g, ls[0].agent, Step(s, ls[0]).event), ls[1..])
  }

  lemma StockedWhole(s: Slab, g: Ghost)
    requires StartsAt(s, g)
    ensures Whole(s, g)
  {
    forall i | 0 <= i < |s.slots|
      ensures s.slots[i].life.refcount == |RefsOn(s.refs, i)|
    {
      assert Vacant(s.slots[i]);
      assert RefsOn(s.refs, i) == {};
    }
    assert Lifecycles(s, g);
  }

  lemma {:induction false} BehavesRuns(s: Slab, ls: seq<Label>)
    requires Behaves(s, ls)
    ensures Runs(s, ls)
    decreases |ls|
  {
    if ls != [] {
      BehavesRuns(Step(s, ls[0]).state, ls[1..]);
    }
  }

  /** The invariant holds throughout every disciplined run. */
  lemma {:induction false} RunWhole(s: Slab, g: Ghost, ls: seq<Label>)
    requires Whole(s, g) && Behaves(s, ls)
    ensures Runs(s, ls) && Whole(Exec(s, ls), Trail(s, g, ls))
    decreases |ls|
  {
    if ls != [] {
      StepInv(s, g, ls[0]);
      StepCounts(s, g, ls[0]);
      RunWhole(Step(s, ls[0]).state, Track(g, ls[0].agent, Step(s, ls[0]).event), ls[1..]);
    }
  }

  lemma StepKeepsSize(s: Slab, l: Label)
    requires Step(s, l).Then?
    ensures |Step(s, l).state.slots| == |s.slots|
  {
    var pc := At(s.pcs, l.agent);
    if l.Run? {
      if Popping(pc) {
      } else if Allocating(pc) {
      } else if pc.GetLoad? || pc.GetCas? {
      } else if pc.RemoveLoad? || pc.RemoveCas? {
      } else if pc.DropLoad? || pc.DropCas? {
      } else if Clearing(pc) {
      }
    }
  }

  lemma {:induction false} RunKeepsSize(s: Slab, ls: seq<Label>)
    requires Runs(s, ls)
    ensures |Exec(s, ls).slots| == |s.slots|
    decreases |ls|
  {
    if ls != [] {
      StepKeepsSize(s, ls[0]);
      RunKeepsSize(Step(s, ls[0]).state, ls[1..]);
    }
  }

  /** A start, seen at the end of a run. */
  lemma Reached(s: Slab, ls: seq<Label>) returns (g: Ghost)
    requires SafeStart(s) && Behaves(s, ls)
    ensures Runs(s, ls) && Whole(Exec(s, ls), g)
  {
    var g0 :| StartsAt(s, g0);
    StockedWhole(s, g0);
    RunWhole(s, g0, ls);
    g := Trail(s, g0, ls);
  }

  // ---- Ownership ----

  /** `l` is what one finds following `next` from the head of list `id`, without meeting a slot twice. */
  ghost predicate Spells(s: Slab, id: ListId, l: seq<Word>) {
    && HeadOf(s, id) == Top(l)
    && (forall k :: 0 <= k < |l| ==>
          l[k].Entry? && l[k].index < |s.slots| && s.slots[l[k].index].next == Top(l[k + 1..]))
    && (forall j, k :: 0 <= j < k < |l| ==> l[j].index != l[k].index)
  }

  ghost predicate PlaceIs(s: Slab, lists: map<ListId, seq<Word>>, i: nat, p: Place)
    requires i < |s.slots|
  {
    match p
    case On(id) => Lists(ListOf(lists, id), i)
    case Held(a) => Holding(At(s.pcs, a)) == Some(i)
    case Live => s.slots[i].life.state != Unallocated && forall a :: Holding(At(s.pcs, a)) != Some(i)
  }

  ghost predicate SolePlace(s: Slab, lists: map<ListId, seq<Word>>, i: nat, p: Place)
    requires i < |s.slots|
  {
    PlaceIs(s, lists, i, p) && forall q :: PlaceIs(s, lists, i, q) ==> q == p
  }

  ghost predicate HasPlace(s: Slab, lists: map<ListId, seq<Word>>, i: nat)
    requires i < |s.slots|
  {
    exists p :: SolePlace(s, lists, i, p)
  }

  /** The free lists are well-formed and every slot is in exactly one place. */
  ghost predicate Partitions(s: Slab, lists: map<ListId, seq<Word>>) {
    && (forall id :: Spells(s, id, ListOf(lists, id)))
    && (forall i :: 0 <= i < |s.slots| ==> HasPlace(s, lists, i))
  }

  ghost predicate EachSlotOnce(s: Slab) {
    exists lists :: Partitions(s, lists)
  }

  lemma OwnedSole(s: Slab, g: Ghost, i: nat)
    requires Owned(s, g) && Lifecycles(s, g) && i < |s.slots|
    ensures SolePlace(s, g.lists, i, g.place[i])
  {
    assert SlotOk(s, g, i);
    forall q | PlaceIs(s, g.lists, i, q)
      ensures q == g.place[i]
    {
      if q.On? {
        assert Chain(s, g, q.list);
      }
    }
  }

  lemma OwnedPartitions(s: Slab, g: Ghost)
    requires Owned(s, g) && Lifecycles(s, g)
    ensures Partitions(s, g.lists)
  {
    forall id
      ensures Spells(s, id, ListOf(g.lists, id))
    {
      assert Chain(s, g, id);
    }
    forall i | 0 <= i < |s.slots|
      ensures HasPlace(s, g.lists, i)
    {
      OwnedSole(s, g, i);
    }
  }

  /**
   Slot ownership: after any run each slot is on one free list once, or held by one
   operation in progress, or live; none is lost and none is handed out twice.
   */
  lemma SlotOwnership(s: Slab, ls: seq<Label>)
    requires SafeStart(s) && Behaves(s, ls)
    ensures Runs(s, ls) && EachSlotOnce(Exec(s, ls))
  {
    var g := Reached(s, ls);
    OwnedPartitions(Exec(s, ls), g);
  }

  /** The list spelled by a head and the `next` cells is unique. */
  lemma {:induction false} SpellsAlike(s: Slab, id: ListId, l: seq<Word>, m: seq<Word>, k: nat)
    requires Spells(s, id, l) && Spells(s, id, m) && k <= |l| && k <= |m| && l[..k] == m[..k]
    ensures l == m
    decreases |l| - k
  {
    if k == 0 {
      assert l[0..] == l && m[0..] == m;
    } else {
      assert l[k - 1] == l[..k][k - 1] == m[..k][k - 1] == m[k - 1];
      assert l[k - 1 + 1..] == l[k..] && m[k - 1 + 1..] == m[k..];
    }
    assert Top(l[k..]) == Top(m[k..]);
    if k < |l| {
      assert l[k..][0] == l[k];
      assert m[k..] != [] && m[k..][0] == m[k];
      assert l[..k + 1] == l[..k] + [l[k]] && m[..k + 1] == m[..k] + [m[k]];
      SpellsAlike(s, id, l, m, k + 1);
    } else {
      assert l == l[..k] && |m[k..]| == 0;
      assert m == m[..k];
    }
  }

  // ---- The global list is a stack ----

  /** How an event moves the contents of the global list, top first. */
  predicate StackMove(l: seq<Word>, m: seq<Word>, e: Event) {
    if e.Took? && e.list.Global? then l != [] && l[0].Entry? && l[0].index == e.index && m == l[1..]
    else if e.Gave? && e.list.Global? then m == [e.entry] + l && e.entry !in l
    else m == l
  }

  /** Which steps take from the global list or give to it. */
  lemma GlobalEvents(s: Slab, l: Label)
    requires Step(s, l).Then?
    ensures var e, pc := Step(s, l).event, At(s.pcs, l.agent);
            && (e.Took? && e.list.Global? ==>
                  pc.PopCas? && s.head == pc.top && pc.top.Entry? && pc.top.index == e.index)
            && (e.Gave? && e.list.Global? ==> l.Run? && pc.PushCas? && e.entry == pc.entry)
  {
    var a, pc := l.agent, At(s.pcs, l.agent);
    if l.Run? {
      if Popping(pc) {
        assert Step(s, l) == PopStep(s, a, pc, l.cpu);
      } else if Pushing(pc) {
        assert Step(s, l) == PushStep(s, a, pc, l.cpu);
      }
    }
  }

  /** What an event does to the recorded stack. */
  lemma TrackMovesStack(g: Ghost, a: Agent, e: Event)
    requires e.Took? && e.list.Global? ==> Stack(g) != [] && Stack(g)[0].Entry? && Stack(g)[0].index == e.index
    requires e.Gave? && e.list.Global? ==> e.entry !in Stack(g)
    ensures StackMove(Stack(g), Stack(Track(g, a, e)), e)
  {
  }

  lemma StepMovesStack(s: Slab, g: Ghost, l: Label)
    requires Inv(s, g) && Step(s, l).Then?
    ensures StackMove(Stack(g), Stack(Track(g, l.agent, Step(s, l).event)), Step(s, l).event)
  {
    var e := Step(s, l).event;
    GlobalEvents(s, l);
    assert Chain(s, g, Global);
    if e.Gave? && e.list.Global? {
      HolderKnows(s, g, l.agent);
      StackElsewhere(s, g, l.agent);
    }
    TrackMovesStack(g, l.agent, e);
  }

  lemma {:induction false} RunsSnoc(s: Slab, ls: seq<Label>, l: Label)
    requires Behaves(s, ls + [l])
    ensures Behaves(s, ls) && Runs(s, ls) && Step(Exec(s, ls), l).Then? && Disciplined(Exec(s, ls), l)
    decreases |ls|
  {
    if ls == [] {
      assert (ls + [l])[0] == l;
    } else {
      assert (ls + [l])[0] == ls[0] && (ls + [l])[1..] == ls[1..] + [l];
      RunsSnoc(Step(s, ls[0]).state, ls[1..], l);
    }
  }

  /**
   Treiber refinement: whatever the run before it, and however long ago a pop read its
   `next`, a step moves the spelled-out global list as a stack: an exchange that
   succeeds in a pop takes exactly the current top, one in a push adds one new entry.
   */
  lemma TreiberStack(s: Slab, ls: seq<Label>, l: Label)
    requires SafeStart(s) && Behaves(s, ls + [l])
    ensures Runs(s, ls) && Step(Exec(s, ls), l).Then?
    ensures var o := Step(Exec(s, ls), l);
            exists before, after :: Spells(Exec(s, ls), Global, before) && Spells(o.state, Global, after)
                                    && StackMove(before, after, o.event)
  {
    RunsSnoc(s, ls, l);
    var g := Reached(s, ls);
    var c := Exec(s, ls);
    var o := Step(c, l);
    var h := Track(g, l.agent, o.event);
    StepInv(c, g, l);
    StepMovesStack(c, g, l);
    assert Chain(c, g, Global) && Chain(o.state, h, Global);
    assert Spells(c, Global, Stack(g)) && Spells(o.state, Global, Stack(h));
  }

  // ---- References ----

  /** What a reference and the slot it names have in common. */
  ghost predicate RefHonoured(s: Slab, r: RefId)
    requires r in s.refs
  {
    var x := s.refs[r];
    && x.index < |s.slots| && x in s.issued
    && s.slots[x.index].life.generation == x.generation
    && s.slots[x.index].life.state != Unallocated
    && s.slots[x.index].contents == Some(s.issued[x])
    && Unheld(s, x.index)
  }

  /**
   Reference safety: after any run the count in a slot is the number of references to
   it, and while a reference exists its slot keeps its generation and the inserted
   value and no agent is clearing or reusing it. The inserted value is the argument of
   the call of `insert` that returned the index.
   */
  lemma ReferenceSafety(s: Slab, ls: seq<Label>)
    requires SafeStart(s) && Behaves(s, ls)
    ensures Runs(s, ls)
    ensures var c := Exec(s, ls);
            && (forall i :: 0 <= i < |c.slots| ==> c.slots[i].life.refcount == |RefsOn(c.refs, i)|)
            && (forall r :: r in c.refs ==> RefHonoured(c, r))
            && c.issued == DiaryOf(s, ls).values
  {
    var g := Reached(s, ls);
    var c := Exec(s, ls);
    Answers(s, ls, 0);
    forall r | r in c.refs
      ensures RefHonoured(c, r)
    {
      assert RefOk(c, g, c.refs[r]);
      assert SlotOk(c, g, c.refs[r].index);
    }
  }

  /**
   What clients can do: an idle agent can call `insert`, and `get` and `remove` with any
   index at all, and drop any reference nobody is dropping; an agent whose operation is
   over can take its result; and nothing else.
   */
  lemma CallsAccepted(s: Slab, a: Agent, v: Value, x: Idx, r: RefId)
    ensures Step(s, CallInsert(a, v)).Then? <==> At(s.pcs, a).Idle?
    ensures Step(s, CallGet(a, x)).Then? <==> At(s.pcs, a).Idle?
    ensures Step(s, CallRemove(a, x)).Then? <==> At(s.pcs, a).Idle?
    ensures Step(s, CallDrop(a, r)).Then? <==> At(s.pcs, a).Idle? && r in s.refs && r !in s.dropping
    ensures Step(s, Finish(a)).Then? <==> Finished(At(s.pcs, a))
  {
  }

  /** The counters whose overflow halts the kernel. */
  predicate AtLimit(s: Slab, pc: Pc) {
    || (pc.AllocStore? && pc.life.generation + 1 >= COUNTER_LIMIT)
    || (pc.GetCas? && pc.prev.generation == pc.idx.generation && pc.prev.state == Allocated
          && pc.prev.refcount + 1 >= REFCOUNT_LIMIT)
    || (pc.PushTag? && s.tag >= COUNTER_LIMIT)
  }

  lemma HolderProceeds(s: Slab, g: Ghost, l: Label)
    requires Inv(s, g) && l.Run? && Holding(At(s.pcs, l.agent)).Some?
    ensures Step(s, l).Then? <==> !AtLimit(s, At(s.pcs, l.agent))
  {
    HolderKnows(s, g, l.agent);
  }

  lemma PopProceeds(s: Slab, g: Ghost, l: Label)
    requires Inv(s, g) && l.Run? && Popping(At(s.pcs, l.agent))
    ensures Step(s, l).Then?
  {
    var pc := At(s.pcs, l.agent);
    if pc.LocalPop? {
      assert Chain(s, g, Local(l.cpu));
      if LocalHead(s.locals, l.cpu).Entry? {
        assert ListOf(g.lists, Local(l.cpu))[0] == LocalHead(s.locals, l.cpu);
      }
    } else {
      assert Fresh(s, g) ==> TagOk(s, g, pc);
      assert Single(s) ==> SingleOk(pc);
    }
  }

  lemma DropProceeds(s: Slab, g: Ghost, l: Label)
    requires Inv(s, g) && l.Run? && (At(s.pcs, l.agent).DropLoad? || At(s.pcs, l.agent).DropCas?)
    ensures Step(s, l).Then?
  {
    assert ClientOk(s, l.agent, At(s.pcs, l.agent));
    DropLifecycles(s, g, l.agent);
  }

  lemma LookupProceeds(s: Slab, g: Ghost, l: Label)
    requires Inv(s, g) && l.Run? && l.name !in s.refs
    requires var p := At(s.pcs, l.agent); p.GetLoad? || p.GetCas? || p.RemoveLoad? || p.RemoveCas?
    ensures Step(s, l).Then? <==> !AtLimit(s, At(s.pcs, l.agent))
  {
    assert ClientOk(s, l.agent, At(s.pcs, l.agent));
  }

  /**
   No panic but overflow: in any reachable state an agent inside an operation can take
   its next step exactly when no counter is at its limit. So no index is out of bounds,
   no uninitialised contents are dropped and no `expect` of `drop_reference` fires.
   */
  lemma NoPanic(s: Slab, ls: seq<Label>, l: Label)
    requires SafeStart(s) && Behaves(s, ls) && Runs(s, ls)
    requires l.Run? && l.name !in Exec(s, ls).refs
    requires var pc := At(Exec(s, ls).pcs, l.agent); !pc.Idle? && !Finished(pc)
    ensures Step(Exec(s, ls), l).Then? <==> !AtLimit(Exec(s, ls), At(Exec(s, ls).pcs, l.agent))
    ensures !ReleasePanics(At(Exec(s, ls).pcs, l.agent))
  {
    var g := Reached(s, ls);
    var c := Exec(s, ls);
    var pc := At(c.pcs, l.agent);
    assert ClientOk(c, l.agent, pc);
    if Popping(pc) {
      PopProceeds(c, g, l);
    } else if Holding(pc).Some? {
      HolderProceeds(c, g, l);
    } else if pc.DropLoad? || pc.DropCas? {
      DropProceeds(c, g, l);
    } else {
      LookupProceeds(c, g, l);
    }
  }

  // ---- Counting events along a run ----

  datatype Kind = Grant | Return | Issue

  /** `e` obtains the right to clear `x`, puts its slot back, or hands `x` out. */
  predicate Matches(k: Kind, e: Event, x: Idx) {
    match k
    case Grant => (e.Removed? || e.Released?) && e.idx == x && e.clears
    case Return => e.Gave? && e.idx == x
    case Issue => e.Published? && e.idx == x
  }

  function Count(s: Slab, ls: seq<Label>, k: Kind, x: Idx): nat
    requires Runs(s, ls)
    decreases |ls|
  {
    if ls == [] then 0
    else (if Matches(k, Step(s, ls[0]).event, x) then 1 else 0) + Count(Step(s, ls[0]).state, ls[1..], k, x)
  }

  /** What one event adds to the record. */
  lemma TrackCounts(g: Ghost, a: Agent, e: Event, x: Idx)
    ensures Track(g, a, e).granted[x] == g.granted[x] + if Matches(Grant, e, x) then 1 else 0
    ensures Track(g, a, e).freed[x] == g.freed[x] + if Matches(Return, e, x) then 1 else 0
  {
  }

  lemma {:induction false} TrailCounts(s: Slab, g: Ghost, ls: seq<Label>, x: Idx)
    requires Runs(s, ls)
    ensures Trail(s, g, ls).granted[x] == g.granted[x] + Count(s, ls, Grant, x)
    ensures Trail(s, g, ls).freed[x] == g.freed[x] + Count(s, ls, Return, x)
    decreases |ls|
  {
    if ls != [] {
      var o, a := Step(s, ls[0]), ls[0].agent;
      TrackCounts(g, a, o.event, x);
      TrailCounts(o.state, Track(g, a, o.event), ls[1..], x);
    }
  }

  /** `x` was handed out and no longer matches its slot as Allocated. */
  predicate Dead(s: Slab, x: Idx) {
    && x in s.issued && x.index < |s.slots|
    && !(s.slots[x.index].life.generation == x.generation && s.slots[x.index].life.state == Allocated)
  }

  predicate Referenced(s: Slab, x: Idx) {
    exists r :: r in s.refs && s.refs[r] == x
  }

  ghost predicate Unheld(s: Slab, i: nat) {
    forall a :: Holding(At(s.pcs, a)) != Some(i)
  }

  /** A zombie has a reference of its own generation. */
  lemma ZombieReferenced(s: Slab, g: Ghost, x: Idx)
    requires Inv(s, g) && x.index < |s.slots| && g.place[x.index] == Live
    requires s.slots[x.index].life.state == Zombie && s.slots[x.index].life.generation == x.generation
    ensures Referenced(s, x)
  {
    assert SlotOk(s, g, x.index);
    assert |RefsOn(s.refs, x.index)| > 0;
    var r :| r in RefsOn(s.refs, x.index);
    assert RefOk(s, g, s.refs[r]);
    assert s.refs[r] == Idx(x.generation, x.index);
  }

  /**
   Exactly-once clearing: over any run, the right to clear an entry is obtained at most
   once, by its remover or by its last releaser. Once the entry is removed and its
   references are gone it has been obtained exactly once; and once no agent holds the
   slot, the slot has been put back on a free list exactly once for that entry.
   */
  lemma ExactlyOnceClearing(s: Slab, ls: seq<Label>, x: Idx)
    requires SafeStart(s) && Behaves(s, ls)
    ensures Runs(s, ls)
    ensures Count(s, ls, Return, x) <= Count(s, ls, Grant, x) <= 1
    ensures Dead(Exec(s, ls), x) && !Referenced(Exec(s, ls), x) ==> Count(s, ls, Grant, x) == 1
    ensures Dead(Exec(s, ls), x) && !Referenced(Exec(s, ls), x) && Unheld(Exec(s, ls), x.index) ==>
            Count(s, ls, Return, x) == 1
  {
    var g0 :| StartsAt(s, g0);
    StockedWhole(s, g0);
    RunWhole(s, g0, ls);
    TrailCounts(s, g0, ls, x);
    var c, g := Exec(s, ls), Trail(s, g0, ls);
    assert CountOk(c, g, x);
    if x.index < |c.slots| {
      assert SlotOk(c, g, x.index);
    }
    if Dead(c, x) {
      assert IssuedOk(c, g, x);
      if g.place[x.index] == Live && c.slots[x.index].life.generation == x.generation {
        ZombieReferenced(c, g, x);
      }
    }
  }

  // ---- Issued indices ----

  lemma HolderIssues(s: Slab, l: Label)
    requires l.Run? && Holding(At(s.pcs, l.agent)).Some? && Step(s, l).Then?
    ensures var o := Step(s, l);
            o.state.issued == if o.event.Published? then s.issued[o.event.idx := o.event.value] else s.issued
    ensures Step(s, l).event.Published? ==> At(s.pcs, l.agent).AllocProcessor?
  {
    var pc := At(s.pcs, l.agent);
    if Allocating(pc) {
    } else if Clearing(pc) {
    }
  }

  lemma OtherIssues(s: Slab, l: Label)
    requires (!l.Run? || Holding(At(s.pcs, l.agent)).None?) && Step(s, l).Then?
    ensures Step(s, l).state.issued == s.issued && !Step(s, l).event.Published?
  {
    var pc := At(s.pcs, l.agent);
    if l.Run? {
      if Popping(pc) {
      } else if pc.GetLoad? || pc.GetCas? {
      } else if pc.RemoveLoad? || pc.RemoveCas? {
      }
    }
  }

  /** Only the last step of an `insert` adds an index, and the index is new. */
  lemma StepIssues(s: Slab, g: Ghost, l: Label)
    requires Inv(s, g) && Step(s, l).Then?
    ensures var o := Step(s, l);
            o.state.issued == if o.event.Published? then s.issued[o.event.idx := o.event.value] else s.issued
    ensures Step(s, l).event.Published? ==> Step(s, l).event.idx !in s.issued
  {
    if l.Run? && Holding(At(s.pcs, l.agent)).Some? {
      HolderIssues(s, l);
      if At(s.pcs, l.agent).AllocProcessor? {
        PublishInv(s, g, l.agent, l.cpu);
      }
    } else {
      OtherIssues(s, l);
    }
  }

  lemma {:induction false} RunIssues(s: Slab, g: Ghost, ls: seq<Label>, x: Idx)
    requires Whole(s, g) && Behaves(s, ls)
    ensures Runs(s, ls)
    ensures (if x in s.issued then 1 else 0) + Count(s, ls, Issue, x) == if x in Exec(s, ls).issued then 1 else 0
    ensures x in s.issued ==> x in Exec(s, ls).issued && Exec(s, ls).issued[x] == s.issued[x]
    decreases |ls|
  {
    if ls != [] {
      StepInv(s, g, ls[0]);
      StepCounts(s, g, ls[0]);
      StepIssues(s, g, ls[0]);
      RunIssues(Step(s, ls[0]).state, Track(g, ls[0].agent, Step(s, ls[0]).event), ls[1..], x);
    }
  }

  // ---- Stale indices ----

  /** A `get` or a `remove` of `x` succeeds. */
  predicate Hits(e: Event, x: Idx) {
    (e.Acquired? || e.Removed?) && e.idx == x
  }

  lemma AllocKeepsDead(s: Slab, g: Ghost, a: Agent, cpu: Cpu, x: Idx)
    requires Inv(s, g) && Dead(s, x) && Allocating(At(s.pcs, a)) && AllocStep(s, a, At(s.pcs, a), cpu).Then?
    ensures Dead(AllocStep(s, a, At(s.pcs, a), cpu).state, x)
  {
    HolderKnows(s, g, a);
    assert IssuedOk(s, g, x);
  }

  lemma ClearKeepsDead(s: Slab, g: Ghost, a: Agent, cpu: Cpu, x: Idx)
    requires Inv(s, g) && Dead(s, x) && Clearing(At(s.pcs, a)) && ClearStep(s, a, At(s.pcs, a), cpu).Then?
    ensures Dead(ClearStep(s, a, At(s.pcs, a), cpu).state, x)
  {
    HolderKnows(s, g, a);
  }

  lemma GetKeepsDead(s: Slab, a: Agent, name: RefId, x: Idx)
    requires Dead(s, x) && (At(s.pcs, a).GetLoad? || At(s.pcs, a).GetCas?) && GetStep(s, a, At(s.pcs, a), name).Then?
    ensures var o := GetStep(s, a, At(s.pcs, a), name); Dead(o.state, x) && !Hits(o.event, x)
  {
  }

  lemma RemoveKeepsDead(s: Slab, a: Agent, spurious: bool, x: Idx)
    requires Dead(s, x) && (At(s.pcs, a).RemoveLoad? || At(s.pcs, a).RemoveCas?)
    requires RemoveStep(s, a, At(s.pcs, a), spurious).Then?
    ensures var o := RemoveStep(s, a, At(s.pcs, a), spurious); Dead(o.state, x) && !Hits(o.event, x)
  {
  }

  lemma DropKeepsDead(s: Slab, a: Agent, x: Idx)
    requires Dead(s, x) && (At(s.pcs, a).DropLoad? || At(s.pcs, a).DropCas?) && DropStep(s, a, At(s.pcs, a)).Then?
    ensures Dead(DropStep(s, a, At(s.pcs, a)).state, x)
  {
  }

  lemma ListKeepsDead(s: Slab, a: Agent, cpu: Cpu, x: Idx)
    requires Dead(s, x) && (Popping(At(s.pcs, a)) || Pushing(At(s.pcs, a)))
    requires var pc := At(s.pcs, a); Popping(pc) ==> PopStep(s, a, pc, cpu).Then?
    requires var pc := At(s.pcs, a); Pushing(pc) ==> PushStep(s, a, pc, cpu).Then?
    ensures var pc := At(s.pcs, a); Popping(pc) ==> Dead(PopStep(s, a, pc, cpu).state, x)
    ensures var pc := At(s.pcs, a); Pushing(pc) ==> Dead(PushStep(s, a, pc, cpu).state, x)
  {
  }

  lemma ClientKeepsDead(s: Slab, l: Label, x: Idx)
    requires Dead(s, x) && !l.Run? && ClientStep(s, l).Then?
    ensures Dead(ClientStep(s, l).state, x) && !Hits(ClientStep(s, l).event, x)
  {
  }

  lemma RunKeepsDead(s: Slab, g: Ghost, l: Label, x: Idx)
    requires Inv(s, g) && l.Run? && Step(s, l).Then? && Dead(s, x)
    ensures Dead(Step(s, l).state, x) && !Hits(Step(s, l).event, x)
  {
    var a, pc := l.agent, At(s.pcs, l.agent);
    if Popping(pc) || Pushing(pc) {
      ListKeepsDead(s, a, l.cpu, x);
    } else if Allocating(pc) {
      AllocKeepsDead(s, g, a, l.cpu, x);
    } else if pc.GetLoad? || pc.GetCas? {
      GetKeepsDead(s, a, l.name, x);
    } else if pc.RemoveLoad? || pc.RemoveCas? {
      RemoveKeepsDead(s, a, l.spurious, x);
    } else if pc.DropLoad? || pc.DropCas? {
      DropKeepsDead(s, a, x);
    } else {
      ClearKeepsDead(s, g, a, l.cpu, x);
    }
  }

  /** No step revives a dead index or lets it through. */
  lemma StepKeepsDead(s: Slab, g: Ghost, l: Label, x: Idx)
    requires Inv(s, g) && Step(s, l).Then? && Dead(s, x)
    ensures Dead(Step(s, l).state, x) && !Hits(Step(s, l).event, x)
  {
    if l.Run? {
      RunKeepsDead(s, g, l, x);
    } else {
      ClientKeepsDead(s, l, x);
    }
  }

  function Tally(s: Slab, ls: seq<Label>, x: Idx): nat
    requires Runs(s, ls)
    decreases |ls|
  {
    if ls == [] then 0
    else (if Hits(Step(s, ls[0]).event, x) then 1 else 0) + Tally(Step(s, ls[0]).state, ls[1..], x)
  }

  /** Calls about `x` made since the diary began have not succeeded. */
  ghost predicate InVain(d: Diary, x: Idx) {
    forall a :: Vain(Of(d, a), x)
  }

  predicate Vain(r: Record, x: Idx) {
    (r.call == Removing(x) ==> !r.removed) && (r.call == Getting(x) ==> r.got.None?)
  }

  lemma StepInVain(d: Diary, s: Slab, l: Label, x: Idx)
    requires InVain(d, x) && Step(s, l).Then? && !Hits(Step(s, l).event, x)
    ensures InVain(Write(d, s, l), x)
  {
    forall a
      ensures Vain(Of(Write(d, s, l), a), x)
    {
      assert Vain(Of(d, a), x);
      VainNote(Of(d, l.agent), l, Step(s, l).event, x);
    }
  }

  lemma VainNote(r: Record, l: Label, e: Event, x: Idx)
    requires Vain(r, x) && !Hits(e, x)
    ensures Vain(Note(r, l, e), x)
  {
  }

  lemma {:induction false} DeadStaysDead(d: Diary, s: Slab, g: Ghost, ls: seq<Label>, x: Idx)
    requires Whole(s, g) && Behaves(s, ls) && Dead(s, x) && AllTell(d, s) && InVain(d, x)
    ensures Runs(s, ls) && Dead(Exec(s, ls), x) && Tally(s, ls, x) == 0
    ensures AllTell(Continued(d, s, ls), Exec(s, ls)) && InVain(Continued(d, s, ls), x)
    decreases |ls|
  {
    if ls != [] {
      var o := Step(s, ls[0]);
      StepInv(s, g, ls[0]);
      StepCounts(s, g, ls[0]);
      StepKeepsDead(s, g, ls[0], x);
      StepTells(d, s, ls[0]);
      StepInVain(d, s, ls[0], x);
      DeadStaysDead(Write(d, s, ls[0]), o.state, Track(g, ls[0].agent, o.event), ls[1..], x);
    }
  }

  /** What an agent is told about `x`, if it was asked about it: that there is no such entry. */
  predicate ToldNo(r: Record, pc: Pc, x: Idx) {
    && (r.call == Removing(x) && pc.RemoveDone? ==> pc == RemoveDone(false))
    && (r.call == Getting(x) && pc.GetDone? ==> pc == GetDone(None))
  }

  /**
   Stale indices stay dead: after a step at which `remove(x)` succeeds, however often the
   slot is reused, every `remove(x)` called later in the run answers false and every
   `get(x)` called later answers nothing, and no later step at all is a successful `get`
   or `remove` of `x`.
   */
  lemma StaleStaysDead(s: Slab, before: seq<Label>, l: Label, after: seq<Label>, a: Agent)
    requires SafeStart(s) && Behaves(s, before + [l])
    requires Runs(s, before) && Step(Exec(s, before), l).Then? && Step(Exec(s, before), l).event.Removed?
    requires Behaves(Step(Exec(s, before), l).state, after)
    ensures var o := Step(Exec(s, before), l); var x := o.event.idx;
            && Runs(o.state, after) && Tally(o.state, after, x) == 0 && Dead(Exec(o.state, after), x)
            && ToldNo(Of(DiaryOf(o.state, after), a), At(Exec(o.state, after).pcs, a), x)
  {
    RunsSnoc(s, before, l);
    var g := Reached(s, before);
    var o := Step(Exec(s, before), l);
    StepInv(Exec(s, before), g, l);
    StepCounts(Exec(s, before), g, l);
    RemovedIsDead(Exec(s, before), g, l);
    DeadAnswers(o.state, Track(g, l.agent, o.event), after, o.event.idx, a);
  }

  lemma DeadAnswers(s: Slab, g: Ghost, ls: seq<Label>, x: Idx, a: Agent)
    requires Whole(s, g) && Behaves(s, ls) && Dead(s, x)
    ensures Runs(s, ls) && Dead(Exec(s, ls), x) && Tally(s, ls, x) == 0
    ensures ToldNo(Of(DiaryOf(s, ls), a), At(Exec(s, ls).pcs, a), x)
  {
    DeadStaysDead(Diary(map[], map[], map[]), s, g, ls, x);
    var r := Of(DiaryOf(s, ls), a);
    assert Tells(r, At(Exec(s, ls).pcs, a)) && Vain(r, x);
    VainTold(r, At(Exec(s, ls).pcs, a), x);
  }

  lemma VainTold(r: Record, pc: Pc, x: Idx)
    requires Tells(r, pc) && Vain(r, x)
    ensures ToldNo(r, pc, x)
  {
  }

  lemma RemovedIsDead(s: Slab, g: Ghost, l: Label)
    requires Inv(s, g) && Step(s, l).Then? && Step(s, l).event.Removed?
    ensures Dead(Step(s, l).state, Step(s, l).event.idx)
  {
    var pc := At(s.pcs, l.agent);
    assert pc.RemoveCas?;
    MarkInv(s, g, l.agent, l.spurious);
  }
}
