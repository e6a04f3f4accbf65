/**
 Every word the slab ever stores or compares fits its packed 64-bit form, so that the
 machine's comparisons of values are the comparisons of packed words the code makes.
 */
module SlabWords {
  import opened Options
  import opened Packing
  import opened SlabMachine
  import opened SlabLists
  import opened SlabLifecycle
  import opened SlabInvariant
  import opened SlabCounts
  import opened SlabTheorems
  import opened SlabFrames

  // ---- Lifecycles ----

  predicate SavedLifeFits(pc: Pc) {
    && (pc.AllocStore? || pc.ClearStore? ==> LifecycleFits(pc.life))
    && (pc.GetCas? || pc.RemoveCas? || pc.DropCas? ==> LifecycleFits(pc.prev))
    && (pc.AllocWrite? || pc.AllocProcessor? ==> pc.gen < COUNTER_LIMIT)
  }

  /** Every lifecycle, in a slot or read by an agent, fits in 64 bits. */
  ghost predicate LivesFit(s: Slab) {
    && (forall i :: 0 <= i < |s.slots| ==> LifecycleFits(s.slots[i].life))
    && (forall a :: SavedLifeFits(At(s.pcs, a)))
  }

  /** A step that rewrites at most the lifecycle of slot `i`. */
  lemma LivesKept(s: Slab, t: Slab, a: Agent, q: Pc, i: nat)
    requires LivesFit(s) && Moves(s, t, a, q) && SavedLifeFits(q) && |t.slots| == |s.slots|
    requires forall j :: 0 <= j < |s.slots| && j != i ==> t.slots[j].life == s.slots[j].life
    requires i < |s.slots| ==> LifecycleFits(t.slots[i].life)
    ensures LivesFit(t)
  {
  }

  lemma AllocLivesFit(s: Slab, a: Agent, cpu: Cpu)
    requires LivesFit(s) && Allocating(At(s.pcs, a)) && AllocStep(s, a, At(s.pcs, a), cpu).Then?
    ensures LivesFit(AllocStep(s, a, At(s.pcs, a), cpu).state)
  {
    var t := AllocStep(s, a, At(s.pcs, a), cpu).state;
    assert SavedLifeFits(At(s.pcs, a));
    LivesKept(s, t, a, At(t.pcs, a), At(s.pcs, a).i);
  }

  lemma GetLivesFit(s: Slab, a: Agent, name: RefId)
    requires LivesFit(s) && (At(s.pcs, a).GetLoad? || At(s.pcs, a).GetCas?) && GetStep(s, a, At(s.pcs, a), name).Then?
    ensures LivesFit(GetStep(s, a, At(s.pcs, a), name).state)
  {
    var t := GetStep(s, a, At(s.pcs, a), name).state;
    assert SavedLifeFits(At(s.pcs, a));
    GetRewrites(s, a, name);
    LivesKept(s, t, a, At(t.pcs, a), At(s.pcs, a).idx.index);
  }

  lemma RemoveLivesFit(s: Slab, a: Agent, spurious: bool)
    requires LivesFit(s) && (At(s.pcs, a).RemoveLoad? || At(s.pcs, a).RemoveCas?)
    requires RemoveStep(s, a, At(s.pcs, a), spurious).Then?
    ensures LivesFit(RemoveStep(s, a, At(s.pcs, a), spurious).state)
  {
    var t := RemoveStep(s, a, At(s.pcs, a), spurious).state;
    assert SavedLifeFits(At(s.pcs, a));
    RemoveRewrites(s, a, spurious);
    LivesKept(s, t, a, At(t.pcs, a), At(s.pcs, a).idx.index);
  }

  lemma DropLivesFit(s: Slab, a: Agent)
    requires LivesFit(s) && (At(s.pcs, a).DropLoad? || At(s.pcs, a).DropCas?) && DropStep(s, a, At(s.pcs, a)).Then?
    ensures LivesFit(DropStep(s, a, At(s.pcs, a)).state)
  {
    var t := DropStep(s, a, At(s.pcs, a)).state;
    assert SavedLifeFits(At(s.pcs, a));
    LivesKept(s, t, a, At(t.pcs, a), At(s.pcs, a).idx.index);
  }

  lemma ClearLivesFit(s: Slab, a: Agent, cpu: Cpu)
    requires LivesFit(s) && Clearing(At(s.pcs, a)) && ClearStep(s, a, At(s.pcs, a), cpu).Then?
    ensures LivesFit(ClearStep(s, a, At(s.pcs, a), cpu).state)
  {
    var t := ClearStep(s, a, At(s.pcs, a), cpu).state;
    assert SavedLifeFits(At(s.pcs, a));
    LivesKept(s, t, a, At(t.pcs, a), At(s.pcs, a).i);
  }

  lemma PopLivesFit(s: Slab, a: Agent, cpu: Cpu)
    requires LivesFit(s) && Popping(At(s.pcs, a)) && PopStep(s, a, At(s.pcs, a), cpu).Then?
    ensures LivesFit(PopStep(s, a, At(s.pcs, a), cpu).state)
  {
    var t := PopStep(s, a, At(s.pcs, a), cpu).state;
    PopLeads(s, a, cpu);
    assert t.slots == s.slots;
    LivesKept(s, t, a, At(t.pcs, a), |s.slots|);
  }

  lemma PushLivesFit(s: Slab, a: Agent, cpu: Cpu)
    requires LivesFit(s) && Pushing(At(s.pcs, a)) && PushStep(s, a, At(s.pcs, a), cpu).Then?
    ensures LivesFit(PushStep(s, a, At(s.pcs, a), cpu).state)
  {
    var t := PushStep(s, a, At(s.pcs, a), cpu).state;
    PushLeads(s, a, cpu);
    LivesKept(s, t, a, At(t.pcs, a), |s.slots|);
  }

  lemma ClientLivesFit(s: Slab, l: Label)
    requires LivesFit(s) && !l.Run? && ClientStep(s, l).Then?
    ensures LivesFit(ClientStep(s, l).state)
  {
    var t := ClientStep(s, l).state;
    ClientLeads(s, l);
    LivesKept(s, t, l.agent, At(t.pcs, l.agent), |s.slots|);
  }

  lemma StepLivesFit(s: Slab, l: Label)
    requires LivesFit(s) && Step(s, l).Then?
    ensures LivesFit(Step(s, l).state)
  {
    var a, pc := l.agent, At(s.pcs, l.agent);
    if !l.Run? {
      ClientLivesFit(s, l);
    } else if Popping(pc) {
      PopLivesFit(s, a, l.cpu);
    } else if Pushing(pc) {
      PushLivesFit(s, a, l.cpu);
    } else if Allocating(pc) {
      AllocLivesFit(s, a, l.cpu);
    } else if pc.GetLoad? || pc.GetCas? {
      GetLivesFit(s, a, l.name);
    } else if pc.RemoveLoad? || pc.RemoveCas? {
      RemoveLivesFit(s, a, l.spurious);
    } else if pc.DropLoad? || pc.DropCas? {
      DropLivesFit(s, a);
    } else {
      ClearLivesFit(s, a, l.cpu);
    }
  }

  lemma {:induction false} RunLivesFit(s: Slab, ls: seq<Label>)
    requires LivesFit(s) && Runs(s, ls)
    ensures LivesFit(Exec(s, ls))
    decreases |ls|
  {
    if ls != [] {
      StepLivesFit(s, ls[0]);
      RunLivesFit(Step(s, ls[0]).state, ls[1..]);
    }
  }

  // ---- Free-list words ----

  predicate SavedWordFits(pc: Pc) {
    && (pc.PopNext? || pc.PopCas? || pc.PushLink? || pc.PushCas? ==> WordFits(pc.top))
    && (pc.PopCas? ==> WordFits(pc.next))
    && (pc.PushLoad? || pc.PushLink? || pc.PushCas? ==> WordFits(pc.entry))
  }

  /** Every head, `next` cell and word read by an agent fits in 64 bits. */
  ghost predicate WordsFit(s: Slab) {
    && |s.slots| < INDEX_LIMIT && WordFits(s.head)
    && (forall i :: 0 <= i < |s.slots| ==> WordFits(s.slots[i].next))
    && (forall cpu :: WordFits(LocalHead(s.locals, cpu)))
    && (forall a :: SavedWordFits(At(s.pcs, a)))
  }

  lemma PopLocals(s: Slab, a: Agent, cpu: Cpu, c: Cpu)
    requires Popping(At(s.pcs, a)) && PopStep(s, a, At(s.pcs, a), cpu).Then?
    ensures var t := PopStep(s, a, At(s.pcs, a), cpu).state;
            || LocalHead(t.locals, c) == LocalHead(s.locals, c)
            || exists i :: 0 <= i < |s.slots| && LocalHead(t.locals, c) == s.slots[i].next
  {
  }

  lemma PopWordsFit(s: Slab, a: Agent, cpu: Cpu)
    requires WordsFit(s) && Popping(At(s.pcs, a)) && PopStep(s, a, At(s.pcs, a), cpu).Then?
    ensures WordsFit(PopStep(s, a, At(s.pcs, a), cpu).state)
  {
    var t := PopStep(s, a, At(s.pcs, a), cpu).state;
    assert SavedWordFits(At(s.pcs, a));
    forall c
      ensures WordFits(LocalHead(t.locals, c))
    {
      PopLocals(s, a, cpu, c);
    }
  }

  lemma PushWordsFit(s: Slab, a: Agent, cpu: Cpu)
    requires WordsFit(s) && Pushing(At(s.pcs, a)) && PushStep(s, a, At(s.pcs, a), cpu).Then?
    ensures WordsFit(PushStep(s, a, At(s.pcs, a), cpu).state)
  {
    var t, pc := PushStep(s, a, At(s.pcs, a), cpu).state, At(s.pcs, a);
    assert SavedWordFits(pc);
    assert WordFits(LocalHead(s.locals, cpu));
    assert forall c :: LocalHead(t.locals, c) == LocalHead(s.locals, c) || LocalHead(t.locals, c) == Entry(pc.i, 0);
  }

  /** A step that touches no list and leaves the agent with no word read from one. */
  lemma WordsKept(s: Slab, t: Slab, a: Agent, q: Pc)
    requires WordsFit(s) && Moves(s, t, a, q) && SavedWordFits(q)
    requires t.head == s.head && t.locals == s.locals && |t.slots| == |s.slots|
    requires forall j :: 0 <= j < |s.slots| ==> t.slots[j].next == s.slots[j].next
    ensures WordsFit(t)
  {
  }

  lemma ClientWordsFit(s: Slab, l: Label)
    requires WordsFit(s) && !l.Run? && ClientStep(s, l).Then?
    ensures WordsFit(ClientStep(s, l).state)
  {
    var t := ClientStep(s, l).state;
    ClientLeads(s, l);
    WordsKept(s, t, l.agent, At(t.pcs, l.agent));
  }

  lemma AllocWordsFit(s: Slab, a: Agent, cpu: Cpu)
    requires WordsFit(s) && Allocating(At(s.pcs, a)) && AllocStep(s, a, At(s.pcs, a), cpu).Then?
    ensures WordsFit(AllocStep(s, a, At(s.pcs, a), cpu).state)
  {
    var t := AllocStep(s, a, At(s.pcs, a), cpu).state;
    AllocLeads(s, a, cpu);
    WordsKept(s, t, a, At(t.pcs, a));
  }

  lemma GetWordsFit(s: Slab, a: Agent, name: RefId)
    requires WordsFit(s) && (At(s.pcs, a).GetLoad? || At(s.pcs, a).GetCas?) && GetStep(s, a, At(s.pcs, a), name).Then?
    ensures WordsFit(GetStep(s, a, At(s.pcs, a), name).state)
  {
    var t := GetStep(s, a, At(s.pcs, a), name).state;
    GetRewrites(s, a, name);
    WordsKept(s, t, a, At(t.pcs, a));
  }

  lemma RemoveWordsFit(s: Slab, a: Agent, spurious: bool)
    requires WordsFit(s) && (At(s.pcs, a).RemoveLoad? || At(s.pcs, a).RemoveCas?)
    requires RemoveStep(s, a, At(s.pcs, a), spurious).Then?
    ensures WordsFit(RemoveStep(s, a, At(s.pcs, a), spurious).state)
  {
    var t := RemoveStep(s, a, At(s.pcs, a), spurious).state;
    RemoveRewrites(s, a, spurious);
    WordsKept(s, t, a, At(t.pcs, a));
  }

  lemma DropWordsFit(s: Slab, a: Agent)
    requires WordsFit(s) && (At(s.pcs, a).DropLoad? || At(s.pcs, a).DropCas?) && DropStep(s, a, At(s.pcs, a)).Then?
    ensures WordsFit(DropStep(s, a, At(s.pcs, a)).state)
  {
    var t := DropStep(s, a, At(s.pcs, a)).state;
    DropLeads(s, a);
    WordsKept(s, t, a, At(t.pcs, a));
  }

  lemma ClearWordsFit(s: Slab, a: Agent, cpu: Cpu)
    requires WordsFit(s) && Clearing(At(s.pcs, a)) && ClearStep(s, a, At(s.pcs, a), cpu).Then?
    ensures WordsFit(ClearStep(s, a, At(s.pcs, a), cpu).state)
  {
    var t := ClearStep(s, a, At(s.pcs, a), cpu).state;
    WordsKept(s, t, a, At(t.pcs, a));
  }

  lemma StepWordsFit(s: Slab, l: Label)
    requires WordsFit(s) && Step(s, l).Then?
    ensures WordsFit(Step(s, l).state)
  {
    var a, pc := l.agent, At(s.pcs, l.agent);
    if !l.Run? {
      ClientWordsFit(s, l);
    } else if Popping(pc) {
      PopWordsFit(s, a, l.cpu);
    } else if Pushing(pc) {
      PushWordsFit(s, a, l.cpu);
    } else if Allocating(pc) {
      AllocWordsFit(s, a, l.cpu);
    } else if pc.GetLoad? || pc.GetCas? {
      GetWordsFit(s, a, l.name);
    } else if pc.RemoveLoad? || pc.RemoveCas? {
      RemoveWordsFit(s, a, l.spurious);
    } else if pc.DropLoad? || pc.DropCas? {
      DropWordsFit(s, a);
    } else {
      ClearWordsFit(s, a, l.cpu);
    }
  }

  lemma {:induction false} RunWordsFit(s: Slab, ls: seq<Label>)
    requires WordsFit(s) && Runs(s, ls)
    ensures WordsFit(Exec(s, ls))
    decreases |ls|
  {
    if ls != [] {
      StepWordsFit(s, ls[0]);
      RunWordsFit(Step(s, ls[0]).state, ls[1..]);
    }
  }

  // ---- What follows ----

  /** The word an agent is about to compare the global head with, and the one it writes. */
  predicate HeadExchangeAgrees(s: Slab, pc: Pc) {
    pc.PopCas? || pc.PushCas? ==>
      var written := if pc.PopCas? then pc.next else pc.entry;
      && (EncodeWord(s.head) == EncodeWord(pc.top) <==> s.head == pc.top)
      && EncodeWord(written) < WORD_LIMIT && DecodeWord(EncodeWord(written)) == written
  }

  /** The lifecycle an agent is about to compare its slot's with. */
  predicate LifeExchangeAgrees(s: Slab, pc: Pc) {
    (pc.GetCas? || pc.RemoveCas? || pc.DropCas?) && pc.idx.index < |s.slots| ==>
      var life := s.slots[pc.idx.index].life;
      EncodeLifecycle(life) < WORD_LIMIT && (EncodeLifecycle(life) == EncodeLifecycle(pc.prev) <==> life == pc.prev)
  }

  /** The tests for an empty list, and the bare index a local pop uses as an array index. */
  predicate HeadTestAgrees(s: Slab, id: ListId) {
    var h := HeadOf(s, id);
    && (EncodeWord(h) == EMPTY <==> h.Empty?)
    && (h.Entry? && EncodeWord(h) < |s.slots| ==> h.tag == 0 && h.index == EncodeWord(h))
    && (h.Entry? && h.tag == 0 ==> EncodeWord(h) == h.index)
  }

  /**
   Comparing packed words is comparing values: after any run from a start whose words
   fit, every compare-and-exchange on packed words succeeds exactly when the machine's
   does, every packed head equals EMPTY exactly when its list is empty, and a local
   head is a slot index exactly as the machine takes it.
   */
  lemma PackedWordsAgree(s: Slab, ls: seq<Label>, a: Agent, id: ListId)
    requires LivesFit(s) && WordsFit(s) && Runs(s, ls)
    ensures var c := Exec(s, ls);
            HeadExchangeAgrees(c, At(c.pcs, a)) && LifeExchangeAgrees(c, At(c.pcs, a)) && HeadTestAgrees(c, id)
  {
    RunLivesFit(s, ls);
    RunWordsFit(s, ls);
    var c := Exec(s, ls);
    HeadWordsAgree(c, a);
    LifeWordsAgree(c, a);
    HeadTests(c, id);
  }

  lemma HeadWordsAgree(s: Slab, a: Agent)
    requires WordsFit(s)
    ensures HeadExchangeAgrees(s, At(s.pcs, a))
  {
    var pc := At(s.pcs, a);
    assert SavedWordFits(pc);
    if pc.PopCas? || pc.PushCas? {
      WordRoundTrip(s.head);
      WordRoundTrip(pc.top);
      WordRoundTrip(if pc.PopCas? then pc.next else pc.entry);
    }
  }

  lemma LifeWordsAgree(s: Slab, a: Agent)
    requires LivesFit(s)
    ensures LifeExchangeAgrees(s, At(s.pcs, a))
  {
    var pc := At(s.pcs, a);
    assert SavedLifeFits(pc);
    if (pc.GetCas? || pc.RemoveCas? || pc.DropCas?) && pc.idx.index < |s.slots| {
      LifecycleInjective(s.slots[pc.idx.index].life, pc.prev);
    }
  }

  lemma HeadTests(s: Slab, id: ListId)
    requires WordsFit(s)
    ensures HeadTestAgrees(s, id)
  {
    var h := HeadOf(s, id);
    assert WordFits(h);
    WordRoundTrip(h);
    if h.Entry? {
      BareIndexIsEntry(h.index, h.tag);
    }
  }

  /** Indices are issued once, name a slot of the slab, and are non-zero 64-bit words that unpack to themselves. */
  lemma IndicesDistinct(s: Slab, ls: seq<Label>, x: Idx)
    requires SafeStart(s) && Behaves(s, ls) && |s.slots| < INDEX_LIMIT
    ensures Runs(s, ls) && Count(s, ls, Issue, x) <= 1
    ensures Count(s, ls, Issue, x) == 1 ==>
              && x.index < |s.slots| && 0 < x.generation < COUNTER_LIMIT
              && 0 < EncodeIdx(x) < WORD_LIMIT && DecodeIdx(EncodeIdx(x)) == x
  {
    var g0 :| StartsAt(s, g0);
    StockedWhole(s, g0);
    RunIssues(s, g0, ls, x);
    RunWhole(s, g0, ls);
    RunKeepsSize(s, ls);
    UntouchedFits(s);
    RunLivesFit(s, ls);
    if Count(s, ls, Issue, x) == 1 {
      assert IssuedOk(Exec(s, ls), Trail(s, g0, ls), x);
      IdxRoundTrip(x);
    }
  }

  lemma UntouchedFits(s: Slab)
    requires Untouched(s)
    ensures LivesFit(s)
  {
  }
}
