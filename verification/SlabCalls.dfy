/**
 What clients ask of the slab and what they are told. A diary is kept of every run from
 the outside: from the labels, what each agent was last asked and on which processors it
 has run since; from the events, whether that call has removed its entry or acquired a
 reference; and for every index an `insert` has returned, the value that call was given
 and the processor it ended on. The machine is proved to agree with its diary.
 */
module SlabCalls {
  import opened Options
  import opened Packing
  import opened SlabMachine
  import opened SlabFrames

  /** What an agent has been asked and has not yet finished. */
  datatype Call = Resting | Inserting(v: Value) | Getting(x: Idx) | Removing(x: Idx) | Releasing(r: RefId)

  /** A call, whether it has removed its entry, the reference it has acquired, and the processors it has run on. */
  datatype Record = Record(call: Call, removed: bool, got: Option<RefId>, cpus: set<Cpu>)

  function Asked(c: Call): Record {
    Record(c, false, None, {})
  }

  /** The record of the agent that takes the step `l` with event `e`. */
  function Note(r: Record, l: Label, e: Event): Record {
    match l
    case CallInsert(_, v) => Asked(Inserting(v))
    case CallGet(_, x) => Asked(Getting(x))
    case CallRemove(_, x) => Asked(Removing(x))
    case CallDrop(_, ref) => Asked(Releasing(ref))
    case Finish(_) => Asked(Resting)
    case Run(_, cpu, _, _) =>
      Record(r.call,
             r.removed || (e.Removed? && r.call == Removing(e.idx)),
             if e.Acquired? && r.call == Getting(e.idx) then Some(e.ref) else r.got,
             r.cpus + {cpu})
  }

  datatype Diary = Diary(records: map<Agent, Record>, values: map<Idx, Value>, places: map<Idx, Cpu>)

  function Of(d: Diary, a: Agent): Record {
    if a in d.records then d.records[a] else Asked(Resting)
  }

  /** The index with which an `insert` of the agent has just ended. */
  function ReturnedBy(s: Slab, l: Label): Option<Idx>
    requires Step(s, l).Then?
  {
    var q := At(Step(s, l).state.pcs, l.agent);
    if q.Inserted? && !At(s.pcs, l.agent).Inserted? then Some(q.idx) else None
  }

  function Write(d: Diary, s: Slab, l: Label): Diary
    requires Step(s, l).Then?
  {
    var r, x := Of(d, l.agent), ReturnedBy(s, l);
    Diary(d.records[l.agent := Note(r, l, Step(s, l).event)],
          if x.Some? && r.call.Inserting? then d.values[x.value := r.call.v] else d.values,
          if x.Some? && l.Run? then d.places[x.value := l.cpu] else d.places)
  }

  /** The diary at the end of a run, continuing `d`. */
  function Continued(d: Diary, s: Slab, ls: seq<Label>): Diary
    requires Runs(s, ls)
    decreases |ls|
  {
    if ls == [] then d else Continued(Write(d, s, ls[0]), Step(s, ls[0]).state, ls[1..])
  }

  function DiaryOf(s: Slab, ls: seq<Label>): Diary
    requires Runs(s, ls)
  {
    Continued(Diary(map[], map[], map[]), s, ls)
  }

  // ---- Where an agent stands, given what it was asked ----

  predicate InInsert(pc: Pc) { Popping(pc) || Allocating(pc) || pc.InsertFailed? }

  predicate InReturn(pc: Pc) { Clearing(pc) || Pushing(pc) }

  predicate Agrees(r: Record, pc: Pc) {
    match r.call
    case Resting => pc.Idle?
    case Inserting(v) => pc.Inserted? || (InInsert(pc) && pc.v == v)
    case Getting(x) =>
      ((pc.GetLoad? || pc.GetCas?) && pc.idx == x && r.got.None?) || (pc.GetDone? && pc.got == r.got)
    case Removing(x) =>
      || ((pc.RemoveLoad? || pc.RemoveCas?) && pc.idx == x && !r.removed)
      || (pc.RemoveDone? && pc.ok == r.removed)
      || (InReturn(pc) && pc.cause == ByRemove && r.removed)
    case Releasing(_) => pc.DropLoad? || pc.DropCas? || pc.DropDone? || (InReturn(pc) && pc.cause == ByDrop)
  }

  /** Where a call leads. */
  lemma ClientGoes(s: Slab, l: Label)
    requires !l.Run? && ClientStep(s, l).Then?
    ensures var pc, q := At(s.pcs, l.agent), At(ClientStep(s, l).state.pcs, l.agent);
            match l
            case CallInsert(_, v) => pc.Idle? && q == LocalPop(v)
            case CallGet(_, x) => pc.Idle? && (q == GetLoad(x) || q == GetDone(None))
            case CallRemove(_, x) => pc.Idle? && (q == RemoveLoad(x) || q == RemoveDone(false))
            case CallDrop(_, _) => pc.Idle? && q.DropLoad?
            case Finish(_) => q == Idle
            case Run(_, _, _, _) => true
    ensures ClientStep(s, l).state.issued == s.issued
  {
  }

  lemma ClientAgrees(r: Record, s: Slab, l: Label)
    requires !l.Run? && ClientStep(s, l).Then? && Agrees(r, At(s.pcs, l.agent))
    ensures Agrees(Note(r, l, ClientStep(s, l).event), At(ClientStep(s, l).state.pcs, l.agent))
  {
    ClientGoes(s, l);
  }

  lemma PopGoes(s: Slab, a: Agent, cpu: Cpu)
    requires Popping(At(s.pcs, a)) && PopStep(s, a, At(s.pcs, a), cpu).Then?
    ensures var o := PopStep(s, a, At(s.pcs, a), cpu);
            && InInsert(At(o.state.pcs, a)) && At(o.state.pcs, a).v == At(s.pcs, a).v
            && !o.event.Removed? && !o.event.Acquired?
  {
  }

  /** An agent in the middle of returning a slot goes on with it for the same cause, or is done. */
  predicate GoesOn(pc: Pc, q: Pc) {
    InReturn(pc) && ((InReturn(q) && q.cause == pc.cause) || q == Done(pc.cause))
  }

  lemma ReturnAgrees(r: Record, pc: Pc, q: Pc, l: Label, e: Event)
    requires Agrees(r, pc) && GoesOn(pc, q) && l.Run? && !e.Removed? && !e.Acquired?
    ensures Agrees(Note(r, l, e), q)
  {
  }

  lemma ClearGoes(s: Slab, a: Agent, cpu: Cpu)
    requires Clearing(At(s.pcs, a)) && ClearStep(s, a, At(s.pcs, a), cpu).Then?
    ensures var o := ClearStep(s, a, At(s.pcs, a), cpu);
            && GoesOn(At(s.pcs, a), At(o.state.pcs, a)) && !o.event.Removed? && !o.event.Acquired?
            && o.state.issued == s.issued
  {
  }

  lemma PushGoes(s: Slab, a: Agent, cpu: Cpu)
    requires Pushing(At(s.pcs, a)) && PushStep(s, a, At(s.pcs, a), cpu).Then?
    ensures var o := PushStep(s, a, At(s.pcs, a), cpu);
            && GoesOn(At(s.pcs, a), At(o.state.pcs, a)) && !o.event.Removed? && !o.event.Acquired?
            && o.state.issued == s.issued
  {
  }

  lemma PopAgrees(r: Record, s: Slab, l: Label)
    requires l.Run? && Popping(At(s.pcs, l.agent)) && Agrees(r, At(s.pcs, l.agent))
    requires PopStep(s, l.agent, At(s.pcs, l.agent), l.cpu).Then?
    ensures var o := PopStep(s, l.agent, At(s.pcs, l.agent), l.cpu);
            Agrees(Note(r, l, o.event), At(o.state.pcs, l.agent))
  {
    PopGoes(s, l.agent, l.cpu);
  }

  lemma AllocAgrees(r: Record, s: Slab, l: Label)
    requires l.Run? && Allocating(At(s.pcs, l.agent)) && Agrees(r, At(s.pcs, l.agent))
    requires AllocStep(s, l.agent, At(s.pcs, l.agent), l.cpu).Then?
    ensures var o := AllocStep(s, l.agent, At(s.pcs, l.agent), l.cpu);
            Agrees(Note(r, l, o.event), At(o.state.pcs, l.agent))
  {
  }

  lemma GetAgrees(r: Record, s: Slab, l: Label)
    requires l.Run? && (At(s.pcs, l.agent).GetLoad? || At(s.pcs, l.agent).GetCas?) && Agrees(r, At(s.pcs, l.agent))
    requires GetStep(s, l.agent, At(s.pcs, l.agent), l.name).Then?
    ensures var o := GetStep(s, l.agent, At(s.pcs, l.agent), l.name);
            Agrees(Note(r, l, o.event), At(o.state.pcs, l.agent))
  {
  }

  lemma RemoveAgrees(r: Record, s: Slab, l: Label)
    requires l.Run? && (At(s.pcs, l.agent).RemoveLoad? || At(s.pcs, l.agent).RemoveCas?)
    requires Agrees(r, At(s.pcs, l.agent)) && RemoveStep(s, l.agent, At(s.pcs, l.agent), l.spurious).Then?
    ensures var o := RemoveStep(s, l.agent, At(s.pcs, l.agent), l.spurious);
            Agrees(Note(r, l, o.event), At(o.state.pcs, l.agent))
  {
  }

  lemma DropAgrees(r: Record, s: Slab, l: Label)
    requires l.Run? && (At(s.pcs, l.agent).DropLoad? || At(s.pcs, l.agent).DropCas?) && Agrees(r, At(s.pcs, l.agent))
    requires DropStep(s, l.agent, At(s.pcs, l.agent)).Then?
    ensures var o := DropStep(s, l.agent, At(s.pcs, l.agent));
            Agrees(Note(r, l, o.event), At(o.state.pcs, l.agent))
  {
  }

  lemma ClearAgrees(r: Record, s: Slab, l: Label)
    requires l.Run? && Clearing(At(s.pcs, l.agent)) && Agrees(r, At(s.pcs, l.agent))
    requires ClearStep(s, l.agent, At(s.pcs, l.agent), l.cpu).Then?
    ensures var o := ClearStep(s, l.agent, At(s.pcs, l.agent), l.cpu);
            Agrees(Note(r, l, o.event), At(o.state.pcs, l.agent))
  {
    var o := ClearStep(s, l.agent, At(s.pcs, l.agent), l.cpu);
    ClearGoes(s, l.agent, l.cpu);
    ReturnAgrees(r, At(s.pcs, l.agent), At(o.state.pcs, l.agent), l, o.event);
  }

  lemma PushAgrees(r: Record, s: Slab, l: Label)
    requires l.Run? && Pushing(At(s.pcs, l.agent)) && Agrees(r, At(s.pcs, l.agent))
    requires PushStep(s, l.agent, At(s.pcs, l.agent), l.cpu).Then?
    ensures var o := PushStep(s, l.agent, At(s.pcs, l.agent), l.cpu);
            Agrees(Note(r, l, o.event), At(o.state.pcs, l.agent))
  {
    var o := PushStep(s, l.agent, At(s.pcs, l.agent), l.cpu);
    PushGoes(s, l.agent, l.cpu);
    ReturnAgrees(r, At(s.pcs, l.agent), At(o.state.pcs, l.agent), l, o.event);
  }

  lemma SelfAgrees(r: Record, s: Slab, l: Label)
    requires Step(s, l).Then? && Agrees(r, At(s.pcs, l.agent))
    ensures Agrees(Note(r, l, Step(s, l).event), At(Step(s, l).state.pcs, l.agent))
  {
    var pc := At(s.pcs, l.agent);
    if !l.Run? {
      ClientAgrees(r, s, l);
    } else if Popping(pc) {
      PopAgrees(r, s, l);
    } else if Allocating(pc) {
      AllocAgrees(r, s, l);
    } else if pc.GetLoad? || pc.GetCas? {
      GetAgrees(r, s, l);
    } else if pc.RemoveLoad? || pc.RemoveCas? {
      RemoveAgrees(r, s, l);
    } else if pc.DropLoad? || pc.DropCas? {
      DropAgrees(r, s, l);
    } else if Clearing(pc) {
      ClearAgrees(r, s, l);
    } else {
      PushAgrees(r, s, l);
    }
  }

  // ---- What steps do to the record of returned indices ----

  lemma AllocIssues(s: Slab, a: Agent, cpu: Cpu)
    requires Allocating(At(s.pcs, a)) && AllocStep(s, a, At(s.pcs, a), cpu).Then?
    ensures var t, pc := AllocStep(s, a, At(s.pcs, a), cpu).state, At(s.pcs, a);
            var q := At(t.pcs, a);
            t.issued == if q.Inserted? then s.issued[q.idx := pc.v] else s.issued
  {
  }

  lemma OthersIssueNothing(s: Slab, l: Label)
    requires l.Run? && Step(s, l).Then? && !Allocating(At(s.pcs, l.agent))
    ensures Step(s, l).state.issued == s.issued && !At(Step(s, l).state.pcs, l.agent).Inserted?
  {
    var a, pc := l.agent, At(s.pcs, l.agent);
    if Popping(pc) {
      PopGentle(s, a, l.cpu);
      PopGoes(s, a, l.cpu);
    } else if pc.GetLoad? || pc.GetCas? {
      GetGentle(s, a, l.name);
      GetEnds(s, a, l.name);
    } else if pc.RemoveLoad? || pc.RemoveCas? {
      RemoveGentle(s, a, l.spurious);
      RemoveEnds(s, a, l.spurious);
    } else if pc.DropLoad? || pc.DropCas? {
      DropGentle(s, a);
      DropLeads(s, a);
    } else if Clearing(pc) {
      ClearGoes(s, a, l.cpu);
    } else {
      PushGoes(s, a, l.cpu);
    }
  }

  lemma GetEnds(s: Slab, a: Agent, name: RefId)
    requires (At(s.pcs, a).GetLoad? || At(s.pcs, a).GetCas?) && GetStep(s, a, At(s.pcs, a), name).Then?
    ensures !At(GetStep(s, a, At(s.pcs, a), name).state.pcs, a).Inserted?
  {
  }

  lemma RemoveEnds(s: Slab, a: Agent, spurious: bool)
    requires (At(s.pcs, a).RemoveLoad? || At(s.pcs, a).RemoveCas?) && RemoveStep(s, a, At(s.pcs, a), spurious).Then?
    ensures !At(RemoveStep(s, a, At(s.pcs, a), spurious).state.pcs, a).Inserted?
  {
  }

  /** Only the end of an `insert` changes what has been issued, and by the value it carries. */
  lemma StepIssuesValue(s: Slab, l: Label)
    requires Step(s, l).Then?
    ensures var t, x, pc := Step(s, l).state, ReturnedBy(s, l), At(s.pcs, l.agent);
            && (x.None? ==> t.issued == s.issued)
            && (x.Some? ==> l.Run? && Allocating(pc) && t.issued == s.issued[x.value := pc.v])
  {
    if !l.Run? {
      ClientGoes(s, l);
    } else if Allocating(At(s.pcs, l.agent)) {
      AllocIssues(s, l.agent, l.cpu);
    } else {
      OthersIssueNothing(s, l);
    }
  }

  // ---- Records that start in the middle of a run ----

  /** The record knows nothing of a call made before it began. */
  predicate Tells(r: Record, pc: Pc) {
    r.call.Resting? || Agrees(r, pc)
  }

  lemma SelfTells(r: Record, s: Slab, l: Label)
    requires Step(s, l).Then? && Tells(r, At(s.pcs, l.agent))
    ensures Tells(Note(r, l, Step(s, l).event), At(Step(s, l).state.pcs, l.agent))
  {
    if !r.call.Resting? {
      SelfAgrees(r, s, l);
    } else if !l.Run? && !l.Finish? {
      ClientGoes(s, l);
      SelfAgrees(Asked(Resting), s, l);
    }
  }

  /** Every record begun at `d` tells where its agent stands. */
  ghost predicate AllTell(d: Diary, s: Slab) {
    forall a :: Tells(Of(d, a), At(s.pcs, a))
  }

  lemma StepTells(d: Diary, s: Slab, l: Label)
    requires AllTell(d, s) && Step(s, l).Then?
    ensures AllTell(Write(d, s, l), Step(s, l).state)
  {
    SelfTells(Of(d, l.agent), s, l);
    StepMoves(s, l);
    forall a
      ensures Tells(Of(Write(d, s, l), a), At(Step(s, l).state.pcs, a))
    {
      assert Tells(Of(d, a), At(s.pcs, a));
    }
  }

  // ---- Runs ----

  /** Every agent stands where its record says, and what has been issued is what the diary says. */
  ghost predicate Told(d: Diary, s: Slab) {
    && (forall a :: Agrees(Of(d, a), At(s.pcs, a)))
    && d.values == s.issued && d.places.Keys == s.issued.Keys
  }

  lemma StepTold(d: Diary, s: Slab, l: Label)
    requires Told(d, s) && Step(s, l).Then?
    ensures Told(Write(d, s, l), Step(s, l).state)
  {
    var e, t := Write(d, s, l), Step(s, l).state;
    SelfAgrees(Of(d, l.agent), s, l);
    StepMoves(s, l);
    StepIssuesValue(s, l);
    forall a
      ensures Agrees(Of(e, a), At(t.pcs, a))
    {
      assert Agrees(Of(d, a), At(s.pcs, a));
    }
  }

  lemma {:induction false} RunTold(d: Diary, s: Slab, ls: seq<Label>)
    requires Told(d, s) && Runs(s, ls)
    ensures Told(Continued(d, s, ls), Exec(s, ls))
    decreases |ls|
  {
    if ls != [] {
      StepTold(d, s, ls[0]);
      RunTold(Write(d, s, ls[0]), Step(s, ls[0]).state, ls[1..]);
    }
  }

  /** No agent is at work and nothing has been issued. */
  ghost predicate Quiet(s: Slab) {
    s.issued == map[] && forall a :: At(s.pcs, a).Idle?
  }

  /**
   What clients are told, after any run: the value kept for an index is the argument of
   the `insert` that returned it; `remove` answers true if and only if a step of that very
   call removed the entry; `get` answers with exactly the reference its own call acquired;
   and an `insert` that fails gives its argument back.
   */
  lemma Answers(s: Slab, ls: seq<Label>, a: Agent)
    requires Quiet(s) && Runs(s, ls)
    ensures var c, d := Exec(s, ls), DiaryOf(s, ls);
            var pc, r := At(c.pcs, a), Of(d, a);
            && c.issued == d.values && d.places.Keys == d.values.Keys
            && (pc.RemoveDone? ==> r.call.Removing? && (pc.ok <==> r.removed))
            && (pc.GetDone? ==> r.call.Getting? && pc.got == r.got)
            && (pc.InsertFailed? ==> r.call == Inserting(pc.v))
            && (pc.Inserted? ==> r.call.Inserting?)
            && (r.call.Resting? <==> pc.Idle?)
  {
    RunTold(Diary(map[], map[], map[]), s, ls);
    AgreesTells(Of(DiaryOf(s, ls), a), At(Exec(s, ls).pcs, a));
  }

  lemma AgreesTells(r: Record, pc: Pc)
    requires Agrees(r, pc)
    ensures (pc.RemoveDone? ==> r.call.Removing? && (pc.ok <==> r.removed))
    ensures (pc.GetDone? ==> r.call.Getting? && pc.got == r.got)
    ensures (pc.InsertFailed? ==> r.call == Inserting(pc.v)) && (pc.Inserted? ==> r.call.Inserting?)
    ensures r.call.Resting? <==> pc.Idle?
  {
  }
}
