/**
 The slab answers truthfully: a lookup misses only an index that has been removed, and an
 insert fails only when the list it looked at last was empty.
 */
module SlabAnswers {
  import opened Options
  import opened Packing
  import opened SlabMachine
  import opened SlabLists
  import opened SlabLifecycle
  import opened SlabInvariant
  import opened SlabCounts
  import opened SlabTheorems
  import opened SlabFrames
  import opened SlabCalls

  predicate Misses(pc: Pc) {
    (pc.GetCas? || pc.RemoveCas?) && (pc.prev.generation != pc.idx.generation || pc.prev.state != Allocated)
  }

  /** A lookup that has read a lifecycle it cannot use was asked for a dead index. */
  ghost predicate Just(s: Slab, pc: Pc) {
    Misses(pc) && pc.idx in s.issued ==> Dead(s, pc.idx)
  }

  ghost predicate AllJust(s: Slab) {
    forall a :: Just(s, At(s.pcs, a))
  }

  lemma GetReads(s: Slab, a: Agent, name: RefId)
    requires (At(s.pcs, a).GetLoad? || At(s.pcs, a).GetCas?) && GetStep(s, a, At(s.pcs, a), name).Then?
    ensures var o := GetStep(s, a, At(s.pcs, a), name); Just(o.state, At(o.state.pcs, a))
  {
  }

  lemma RemoveReads(s: Slab, a: Agent, spurious: bool)
    requires (At(s.pcs, a).RemoveLoad? || At(s.pcs, a).RemoveCas?) && RemoveStep(s, a, At(s.pcs, a), spurious).Then?
    ensures var o := RemoveStep(s, a, At(s.pcs, a), spurious); Just(o.state, At(o.state.pcs, a))
  {
  }

  lemma SelfJust(s: Slab, l: Label)
    requires Step(s, l).Then?
    ensures Just(Step(s, l).state, At(Step(s, l).state.pcs, l.agent))
  {
    var pc := At(s.pcs, l.agent);
    if l.Run? {
      if pc.GetLoad? || pc.GetCas? {
        GetReads(s, l.agent, l.name);
      } else if pc.RemoveLoad? || pc.RemoveCas? {
        RemoveReads(s, l.agent, l.spurious);
      } else {
        OtherLeads(s, l);
      }
    }
  }

  lemma StepJust(s: Slab, g: Ghost, l: Label)
    requires Inv(s, g) && AllJust(s) && Step(s, l).Then?
    ensures AllJust(Step(s, l).state)
  {
    var t := Step(s, l).state;
    SelfJust(s, l);
    StepMoves(s, l);
    StepIssues(s, g, l);
    forall b | b != l.agent
      ensures Just(t, At(t.pcs, b))
    {
      var pc := At(s.pcs, b);
      if Misses(pc) && pc.idx in t.issued {
        LookupIssued(s, g, l, b);
        assert Just(s, pc);
        StepKeepsDead(s, g, l, pc.idx);
      }
    }
  }

  /** An index being looked up was issued before the lookup, or never is. */
  lemma LookupIssued(s: Slab, g: Ghost, l: Label, b: Agent)
    requires Inv(s, g) && Step(s, l).Then? && Misses(At(s.pcs, b)) && At(s.pcs, b).idx in Step(s, l).state.issued
    ensures At(s.pcs, b).idx in s.issued
  {
    StepIssues(s, g, l);
    assert ClientOk(s, b, At(s.pcs, b));
    if At(s.pcs, b).idx !in s.issued {
      PublishedPositive(s, g, l);
    }
  }

  /** What an insert hands out is usable, and of a positive generation. */
  lemma PublishedPositive(s: Slab, g: Ghost, l: Label)
    requires Inv(s, g) && Step(s, l).Then? && Step(s, l).event.Published?
    ensures Step(s, l).event.idx.generation > 0 && Usable(Step(s, l).state, Step(s, l).event.idx)
  {
    if l.Run? && Holding(At(s.pcs, l.agent)).Some? {
      HolderIssues(s, l);
      HolderKnows(s, g, l.agent);
    } else {
      OtherIssues(s, l);
    }
  }

  // ---- Over a run ----

  /** Some step of the run removes `x`. */
  predicate RemovedIn(s: Slab, ls: seq<Label>, x: Idx)
    requires Runs(s, ls)
    decreases |ls|
  {
    ls != [] && ((Step(s, ls[0]).event.Removed? && Step(s, ls[0]).event.idx == x)
        || RemovedIn(Step(s, ls[0]).state, ls[1..], x))
  }

  lemma StepUsable(s: Slab, g: Ghost, l: Label, x: Idx)
    requires Inv(s, g) && Step(s, l).Then? && (x in s.issued ==> Usable(s, x)) && x in Step(s, l).state.issued
    requires !(Step(s, l).event.Removed? && Step(s, l).event.idx == x)
    ensures Usable(Step(s, l).state, x)
  {
    StepIssues(s, g, l);
    if x in s.issued {
      if l.Run? {
        UsableStable(s, g, l, x);
      } else {
        assert Step(s, l).state.slots == s.slots;
      }
    } else {
      PublishedPositive(s, g, l);
    }
  }

  /** An index that was handed out and not removed is usable, and no lookup is about to miss it. */
  lemma {:induction false} RunAnswers(s: Slab, g: Ghost, ls: seq<Label>, x: Idx)
    requires Whole(s, g) && Behaves(s, ls) && AllJust(s) && (x in s.issued ==> Usable(s, x))
    ensures Runs(s, ls) && AllJust(Exec(s, ls))
    ensures x in Exec(s, ls).issued && !RemovedIn(s, ls, x) ==> Usable(Exec(s, ls), x)
    decreases |ls|
  {
    if ls != [] {
      var t, h := Step(s, ls[0]).state, Track(g, ls[0].agent, Step(s, ls[0]).event);
      StepInv(s, g, ls[0]);
      StepCounts(s, g, ls[0]);
      StepJust(s, g, ls[0]);
      BehavesRuns(t, ls[1..]);
      if x in t.issued && !RemovedIn(s, ls, x) {
        StepUsable(s, g, ls[0], x);
      }
      if x in t.issued ==> Usable(t, x) {
        RunAnswers(t, h, ls[1..], x);
      } else {
        JustAlone(t, h, ls[1..]);
      }
    }
  }

  lemma {:induction false} JustAlone(s: Slab, g: Ghost, ls: seq<Label>)
    requires Whole(s, g) && Behaves(s, ls) && AllJust(s)
    ensures Runs(s, ls) && AllJust(Exec(s, ls))
    decreases |ls|
  {
    if ls != [] {
      StepInv(s, g, ls[0]);
      StepCounts(s, g, ls[0]);
      StepJust(s, g, ls[0]);
      JustAlone(Step(s, ls[0]).state, Track(g, ls[0].agent, Step(s, ls[0]).event), ls[1..]);
    }
  }

  /** The step ends a call about `x` that is told there is no such entry. */
  predicate TurnsDown(r: Record, pc: Pc, q: Pc, x: Idx) {
    || (r.call == Removing(x) && q == RemoveDone(false) && !pc.RemoveDone?)
    || (r.call == Getting(x) && q == GetDone(None) && !pc.GetDone?)
  }

  lemma RunTurnsDown(r: Record, s: Slab, l: Label, x: Idx)
    requires l.Run? && Step(s, l).Then? && Agrees(r, At(s.pcs, l.agent))
    requires TurnsDown(r, At(s.pcs, l.agent), At(Step(s, l).state.pcs, l.agent), x)
    ensures var e := Step(s, l).event; (e.GetMissed? || e.RemoveMissed?) && e.idx == x
  {
    var a, pc := l.agent, At(s.pcs, l.agent);
    if pc.GetLoad? || pc.GetCas? {
      GetTurnsDown(s, a, l.name);
    } else if pc.RemoveLoad? || pc.RemoveCas? {
      RemoveTurnsDown(s, a, l.spurious);
    } else if Pushing(pc) {
      PushGoes(s, a, l.cpu);
    } else if Clearing(pc) {
      ClearGoes(s, a, l.cpu);
    }
  }

  lemma GetTurnsDown(s: Slab, a: Agent, name: RefId)
    requires (At(s.pcs, a).GetLoad? || At(s.pcs, a).GetCas?) && GetStep(s, a, At(s.pcs, a), name).Then?
    ensures var o := GetStep(s, a, At(s.pcs, a), name); var q := At(o.state.pcs, a);
            !q.RemoveDone? && (q == GetDone(None) ==> o.event == GetMissed(At(s.pcs, a).idx))
  {
  }

  lemma RemoveTurnsDown(s: Slab, a: Agent, spurious: bool)
    requires (At(s.pcs, a).RemoveLoad? || At(s.pcs, a).RemoveCas?) && RemoveStep(s, a, At(s.pcs, a), spurious).Then?
    ensures var o := RemoveStep(s, a, At(s.pcs, a), spurious); var q := At(o.state.pcs, a);
            !q.GetDone? && (q == RemoveDone(false) ==> o.event == RemoveMissed(At(s.pcs, a).idx))
  {
  }

  lemma ClientTurnsDown(s: Slab, l: Label, x: Idx)
    requires !l.Run? && Step(s, l).Then?
    requires var r := Note(Asked(Resting), l, Silent);
             TurnsDown(r, At(s.pcs, l.agent), At(Step(s, l).state.pcs, l.agent), x)
    ensures var e := Step(s, l).event; (e.GetMissed? || e.RemoveMissed?) && e.idx == x
  {
  }

  lemma StepTurnsDown(r: Record, s: Slab, l: Label, x: Idx)
    requires Step(s, l).Then? && Agrees(r, At(s.pcs, l.agent))
    requires TurnsDown(Note(r, l, Step(s, l).event), At(s.pcs, l.agent), At(Step(s, l).state.pcs, l.agent), x)
    ensures var e := Step(s, l).event; (e.GetMissed? || e.RemoveMissed?) && e.idx == x
  {
    if l.Run? {
      RunTurnsDown(r, s, l, x);
    } else {
      ClientTurnsDown(s, l, x);
    }
  }

  /**
   Lookups answer truthfully: `remove(x)` answers false, and `get(x)` nothing, about an
   index some `insert` has returned only if an earlier step of the run has removed it.
   With `StaleStaysDead`, they succeed exactly until it is removed.
   */
  lemma MissesAreJust(s: Slab, ls: seq<Label>, l: Label, x: Idx)
    requires SafeStart(s) && Behaves(s, ls + [l])
    requires Runs(s, ls) && Step(Exec(s, ls), l).Then?
    requires var c, d := Exec(s, ls), DiaryOf(s, ls);
             && x in d.values
             && TurnsDown(Of(Write(d, c, l), l.agent), At(c.pcs, l.agent), At(Step(c, l).state.pcs, l.agent), x)
    ensures RemovedIn(s, ls, x)
  {
    var d := DiaryOf(s, ls);
    RunTold(Diary(map[], map[], map[]), s, ls);
    assert Agrees(Of(d, l.agent), At(Exec(s, ls).pcs, l.agent));
    StepTurnsDown(Of(d, l.agent), Exec(s, ls), l, x);
    MissedWasRemoved(s, ls, l, x);
  }

  /** An event that reports a miss comes after a removal. */
  lemma MissedWasRemoved(s: Slab, ls: seq<Label>, l: Label, x: Idx)
    requires SafeStart(s) && Behaves(s, ls + [l])
    requires Runs(s, ls) && Step(Exec(s, ls), l).Then?
    requires var e := Step(Exec(s, ls), l).event; (e.GetMissed? || e.RemoveMissed?) && e.idx == x
    requires x in Exec(s, ls).issued
    ensures RemovedIn(s, ls, x)
  {
    RunsSnoc(s, ls, l);
    var g0 :| StartsAt(s, g0);
    StockedWhole(s, g0);
    RunAnswers(s, g0, ls, x);
    RunWhole(s, g0, ls);
    var c := Exec(s, ls);
    assert IssuedOk(c, Trail(s, g0, ls), x);
    MissedReads(c, l);
    assert Just(c, At(c.pcs, l.agent));
  }

  /** Which step reports a miss. */
  lemma MissedReads(s: Slab, l: Label)
    requires Step(s, l).Then? && (Step(s, l).event.GetMissed? || Step(s, l).event.RemoveMissed?)
    ensures var x := Step(s, l).event.idx;
            x.index >= |s.slots| || (Misses(At(s.pcs, l.agent)) && At(s.pcs, l.agent).idx == x)
  {
    var a, pc := l.agent, At(s.pcs, l.agent);
    if l.Run? {
      if pc.GetLoad? || pc.GetCas? {
        assert Step(s, l) == GetStep(s, a, pc, l.name);
      } else if pc.RemoveLoad? || pc.RemoveCas? {
        assert Step(s, l) == RemoveStep(s, a, pc, l.spurious);
      }
    }
  }

  /** An insert of `v` at work on the global list. */
  predicate Searching(pc: Pc, v: Value) {
    (pc.PopLoad? || pc.PopNext? || pc.PopCas?) && pc.v == v
  }

  lemma PopSearches(s: Slab, a: Agent, cpu: Cpu, v: Value)
    requires Popping(At(s.pcs, a)) && PopStep(s, a, At(s.pcs, a), cpu).Then?
    requires var q := At(PopStep(s, a, At(s.pcs, a), cpu).state.pcs, a); Searching(q, v) || q == InsertFailed(v)
    ensures Searching(At(s.pcs, a), v) || (At(s.pcs, a) == LocalPop(v) && Spells(s, Local(cpu), []))
    ensures At(PopStep(s, a, At(s.pcs, a), cpu).state.pcs, a).InsertFailed? ==> Searching(At(s.pcs, a), v)
  {
  }

  lemma LookingLeads(s: Slab, l: Label)
    requires l.Run? && Step(s, l).Then? && Looking(At(s.pcs, l.agent))
    ensures var q := At(Step(s, l).state.pcs, l.agent); !Popping(q) && !q.InsertFailed?
  {
    var a, pc := l.agent, At(s.pcs, l.agent);
    if pc.GetLoad? || pc.GetCas? {
      assert Step(s, l) == GetStep(s, a, pc, l.name);
    } else {
      assert Step(s, l) == RemoveStep(s, a, pc, l.spurious);
    }
  }

  /** How an insert comes to work on the global list: from the local list of its processor, found empty. */
  lemma StepSearches(s: Slab, l: Label, a: Agent, v: Value)
    requires Step(s, l).Then?
    requires Searching(At(Step(s, l).state.pcs, a), v)
    ensures || Searching(At(s.pcs, a), v)
            || (l.Run? && l.agent == a && At(s.pcs, a) == LocalPop(v) && Spells(s, Local(l.cpu), []))
  {
    StepMoves(s, l);
    if a == l.agent {
      SearchedBy(s, l, v);
    }
  }

  lemma SearchedBy(s: Slab, l: Label, v: Value)
    requires Step(s, l).Then?
    requires var q := At(Step(s, l).state.pcs, l.agent); Searching(q, v) || q == InsertFailed(v)
    requires !At(s.pcs, l.agent).InsertFailed?
    ensures l.Run? && Popping(At(s.pcs, l.agent)) && Step(s, l) == PopStep(s, l.agent, At(s.pcs, l.agent), l.cpu)
    ensures || Searching(At(s.pcs, l.agent), v)
            || (At(s.pcs, l.agent) == LocalPop(v) && Spells(s, Local(l.cpu), []))
    ensures At(Step(s, l).state.pcs, l.agent).InsertFailed? ==> Searching(At(s.pcs, l.agent), v)
  {
    OnlyPopping(s, l);
    PopSearches(s, l.agent, l.cpu, v);
  }

  lemma OnlyPopping(s: Slab, l: Label)
    requires Step(s, l).Then? && !At(s.pcs, l.agent).InsertFailed?
    requires var q := At(Step(s, l).state.pcs, l.agent); (Popping(q) && !q.LocalPop?) || q.InsertFailed?
    ensures l.Run? && Popping(At(s.pcs, l.agent)) && Step(s, l) == PopStep(s, l.agent, At(s.pcs, l.agent), l.cpu)
  {
    if !l.Run? {
      ClientLeads(s, l);
    } else if Looking(At(s.pcs, l.agent)) {
      LookingLeads(s, l);
    } else {
      OtherLeads(s, l);
    }
  }

  /** In every state of the run agent `a` is at work on the global list. */
  ghost predicate Searches(s: Slab, ls: seq<Label>, a: Agent, v: Value)
    requires Runs(s, ls)
    decreases |ls|
  {
    Searching(At(s.pcs, a), v) && (ls == [] || Searches(Step(s, ls[0]).state, ls[1..], a, v))
  }

  /** The run is `pre`, the step of agent `a` that finds its processor's local list empty, and its search since then. */
  ghost predicate LookedLocally(s: Slab, ls: seq<Label>, a: Agent, v: Value,
                                pre: seq<Label>, l: Label, post: seq<Label>)
    requires Runs(s, ls)
  {
    && ls == pre + [l] + post && Runs(s, pre)
    && var c := Exec(s, pre);
       && l.Run? && l.agent == a && At(c.pcs, a) == LocalPop(v) && Spells(c, Local(l.cpu), [])
       && Step(c, l).Then? && Runs(Step(c, l).state, post) && Searches(Step(c, l).state, post, a, v)
  }

  lemma LookedEarlier(s: Slab, ls: seq<Label>, a: Agent, v: Value, pre: seq<Label>, l: Label, post: seq<Label>)
    requires Runs(s, ls) && ls != [] && LookedLocally(Step(s, ls[0]).state, ls[1..], a, v, pre, l, post)
    ensures LookedLocally(s, ls, a, v, [ls[0]] + pre, l, post)
  {
    var p := [ls[0]] + pre;
    assert p[0] == ls[0] && p[1..] == pre;
    assert ls == [ls[0]] + ls[1..];
    assert p + [l] + post == [ls[0]] + (pre + [l] + post);
  }

  lemma {:induction false} SearchBegan(s: Slab, ls: seq<Label>, a: Agent, v: Value)
    requires Runs(s, ls) && Searching(At(Exec(s, ls).pcs, a), v)
    ensures Searches(s, ls, a, v) || exists pre, l, post :: LookedLocally(s, ls, a, v, pre, l, post)
    decreases |ls|
  {
    if ls != [] {
      var t := Step(s, ls[0]).state;
      SearchBegan(t, ls[1..], a, v);
      if Searches(t, ls[1..], a, v) {
        StepSearches(s, ls[0], a, v);
        if !Searching(At(s.pcs, a), v) {
          assert ls == [] + [ls[0]] + ls[1..];
          assert LookedLocally(s, ls, a, v, [], ls[0], ls[1..]);
        }
      } else {
        var pre, l, post :| LookedLocally(t, ls[1..], a, v, pre, l, post);
        LookedEarlier(s, ls, a, v, pre, l, post);
      }
    }
  }

  /**
   An insert that fails has tried the local list first: earlier in the run, in the same
   call and with nothing but its search of the global list since, its agent found the
   local list of the processor it was on empty.
   */
  lemma LocalListWasEmpty(s: Slab, ls: seq<Label>, l: Label) returns (pre: seq<Label>, m: Label, post: seq<Label>)
    requires Runs(s, ls) && Step(Exec(s, ls), l).Then? && forall a :: At(s.pcs, a).Idle?
    requires !At(Exec(s, ls).pcs, l.agent).InsertFailed? && At(Step(Exec(s, ls), l).state.pcs, l.agent).InsertFailed?
    ensures LookedLocally(s, ls, l.agent, At(Step(Exec(s, ls), l).state.pcs, l.agent).v, pre, m, post)
  {
    var a, v := l.agent, At(Step(Exec(s, ls), l).state.pcs, l.agent).v;
    SearchedBy(Exec(s, ls), l, v);
    SearchBegan(s, ls, a, v);
    assert At(s.pcs, a).Idle?;
    pre, m, post :| LookedLocally(s, ls, a, v, pre, m, post);
  }

  /** An insert that takes a slot from the global list has tried the local list first, in the same way. */
  lemma GlobalIsSecond(s: Slab, ls: seq<Label>, l: Label)
    returns (v: Value, pre: seq<Label>, m: Label, post: seq<Label>)
    requires Runs(s, ls) && Step(Exec(s, ls), l).Then? && forall a :: At(s.pcs, a).Idle?
    requires Step(Exec(s, ls), l).event.Took? && Step(Exec(s, ls), l).event.list.Global?
    ensures At(Exec(s, ls).pcs, l.agent).PopCas? && LookedLocally(s, ls, l.agent, v, pre, m, post)
  {
    GlobalEvents(Exec(s, ls), l);
    v := At(Exec(s, ls).pcs, l.agent).v;
    SearchBegan(s, ls, l.agent, v);
    assert At(s.pcs, l.agent).Idle?;
    pre, m, post :| LookedLocally(s, ls, l.agent, v, pre, m, post);
  }

  /** Slot `i` is live, held by an operation in progress, or on the local list of some processor. */
  ghost predicate OutOfReach(s: Slab, lists: map<ListId, seq<Word>>, i: nat)
    requires i < |s.slots|
  {
    exists p :: SolePlace(s, lists, i, p) && p != On(Global)
  }

  /**
   An insert fails only when no slot is left for it: after any run, at the step that
   fails, the global list is empty and every slot is in exactly one place, live, held by
   an operation in progress or on the local list of some processor.
   */
  lemma InsertFailsOnlyWhenFull(s: Slab, ls: seq<Label>, l: Label) returns (lists: map<ListId, seq<Word>>)
    requires SafeStart(s) && Behaves(s, ls) && Runs(s, ls) && Step(Exec(s, ls), l).Then?
    requires !At(Exec(s, ls).pcs, l.agent).InsertFailed? && At(Step(Exec(s, ls), l).state.pcs, l.agent).InsertFailed?
    ensures var c := Exec(s, ls);
            && Partitions(c, lists) && ListOf(lists, Global) == []
            && forall i :: 0 <= i < |c.slots| ==> OutOfReach(c, lists, i)
  {
    var g := Reached(s, ls);
    var c := Exec(s, ls);
    OwnedPartitions(c, g);
    FailedOnEmpty(c, l);
    lists := g.lists;
    assert Chain(c, g, Global);
    forall i | 0 <= i < |c.slots|
      ensures OutOfReach(c, lists, i)
    {
      OwnedSole(c, g, i);
    }
  }

  lemma FailedOnEmpty(s: Slab, l: Label)
    requires Step(s, l).Then? && !At(s.pcs, l.agent).InsertFailed? && At(Step(s, l).state.pcs, l.agent).InsertFailed?
    ensures s.head.Empty?
  {
    var pc := At(s.pcs, l.agent);
    if !l.Run? {
      ClientLeads(s, l);
    } else if !Looking(pc) {
      OtherLeads(s, l);
    }
  }
}
