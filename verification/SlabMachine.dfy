/**
 The lock-free slab as a step machine. Any number of agents run `insert`, `get`,
 `remove` and `Ref::drop`; every step is one atomic access to shared memory, and
 agents interleave in any order. A local free list is touched in one step.

 The processor an agent runs on is chosen at every step that asks for it, so agents
 may be threads, interrupt handlers or whole processors.
 */
module SlabMachine {
  import opened Options
  import opened Packing

  type Agent = nat
  type Cpu = nat
  type RefId = nat
  type Value = int

  datatype Slot = Slot(life: Lifecycle, contents: Option<Value>, next: Word, processor: Option<Cpu>)

  datatype ListId = Global | Local(cpu: Cpu)

  /** Which operation is returning a slot to a free list. */
  datatype Cause = ByRemove | ByDrop

  /** Where an agent stands inside the operation it is running, with its local variables. */
  datatype Pc =
    | Idle
      // insert: local pop, then global pop
    | LocalPop(v: Value)
    | PopLoad(v: Value)
    | PopNext(v: Value, top: Word)
    | PopCas(v: Value, top: Word, next: Word)
      // insert: allocate the popped slot
    | AllocLoad(v: Value, i: nat)
    | AllocStore(v: Value, i: nat, life: Lifecycle)
    | AllocWrite(v: Value, i: nat, gen: nat)
    | AllocProcessor(v: Value, i: nat, gen: nat)
    | Inserted(idx: Idx)
    | InsertFailed(v: Value)
      // get
    | GetLoad(idx: Idx)
    | GetCas(idx: Idx, prev: Lifecycle)
    | GetDone(got: Option<RefId>)
      // remove
    | RemoveLoad(idx: Idx)
    | RemoveCas(idx: Idx, prev: Lifecycle)
    | RemoveDone(ok: bool)
      // Ref::drop
    | DropLoad(ref: RefId, idx: Idx)
    | DropCas(ref: RefId, idx: Idx, prev: Lifecycle)
    | DropDone
      // return_slot: clear, then push
    | ClearLoad(i: nat, cause: Cause)
    | ClearStore(i: nat, cause: Cause, life: Lifecycle)
    | ClearContents(i: nat, cause: Cause)
    | ClearProcessor(i: nat, cause: Cause)
    | Route(i: nat, cause: Cause, owner: Option<Cpu>)
    | LocalPush(i: nat, cause: Cause)
    | PushTag(i: nat, cause: Cause)
    | PushLoad(i: nat, cause: Cause, entry: Word)
    | PushLink(i: nat, cause: Cause, entry: Word, top: Word)
    | PushCas(i: nat, cause: Cause, entry: Word, top: Word)

  /**
   Shared memory (`slots`, `head`, `tag`, `locals`), the agents, and what clients hold:
   outstanding references, which agent is dropping which of them, and the indices `insert` has returned.
   An absent local head stands for a per-processor cell never written.
   */
  datatype Slab = Slab(
    slots: seq<Slot>,
    head: Word,
    tag: nat,
    locals: map<Cpu, Word>,
    pcs: map<Agent, Pc>,
    refs: map<RefId, Idx>,
    dropping: map<RefId, Agent>,
    issued: map<Idx, Value>)

  function At(pcs: map<Agent, Pc>, a: Agent): Pc {
    if a in pcs then pcs[a] else Idle
  }

  function Put(pcs: map<Agent, Pc>, a: Agent, p: Pc): (r: map<Agent, Pc>)
    ensures forall b {:trigger At(r, b)} :: At(r, b) == if b == a then p else At(pcs, b)
  {
    pcs[a := p]
  }

  /** Agent `a` is at `q` in `t`; every other agent is where it was in `s`. */
  ghost predicate Moves(s: Slab, t: Slab, a: Agent, q: Pc) {
    forall b {:trigger At(t.pcs, b)} :: At(t.pcs, b) == if b == a then q else At(s.pcs, b)
  }

  function LocalHead(locals: map<Cpu, Word>, cpu: Cpu): Word {
    if cpu in locals then locals[cpu] else Empty
  }

  /** What a step does, seen from outside. */
  datatype Event =
    | Silent
    | Took(list: ListId, index: nat)
    | Published(idx: Idx, value: Value)
    | Acquired(idx: Idx, ref: RefId)
    | GetMissed(idx: Idx)
    | Removed(idx: Idx, clears: bool)
    | RemoveMissed(idx: Idx)
    | Released(idx: Idx, ref: RefId, clears: bool)
    | Gave(list: ListId, entry: Word, idx: Idx)

  /** A step either cannot be taken (the kernel has panicked, or the agent is idle) or is taken. */
  datatype Outcome = Stuck | Then(state: Slab, event: Event)

  /**
   A step: a client starts or finishes an operation, or an agent makes its next access.
   `Run` carries what the environment decides: the processor, the name of a reference
   about to be created, and whether a weak compare-and-exchange fails spuriously.
   */
  datatype Label =
    | CallInsert(agent: Agent, v: Value)
    | CallGet(agent: Agent, idx: Idx)
    | CallRemove(agent: Agent, idx: Idx)
    | CallDrop(agent: Agent, ref: RefId)
    | Finish(agent: Agent)
    | Run(agent: Agent, cpu: Cpu, name: RefId, spurious: bool)

  function Go(s: Slab, a: Agent, p: Pc): Slab {
    s.(pcs := Put(s.pcs, a, p))
  }

  function SetSlot(s: Slab, i: nat, slot: Slot): Slab
    requires i < |s.slots|
  {
    s.(slots := s.slots[i := slot])
  }

  function Done(cause: Cause): Pc {
    match cause
    case ByRemove => RemoveDone(true)
    case ByDrop => DropDone
  }

  function Step(s: Slab, l: Label): Outcome {
    if !l.Run? then ClientStep(s, l) else
    var a, pc := l.agent, At(s.pcs, l.agent);
    if Popping(pc) then PopStep(s, a, pc, l.cpu)
    else if Allocating(pc) then AllocStep(s, a, pc, l.cpu)
    else if pc.GetLoad? || pc.GetCas? then GetStep(s, a, pc, l.name)
    else if pc.RemoveLoad? || pc.RemoveCas? then RemoveStep(s, a, pc, l.spurious)
    else if pc.DropLoad? || pc.DropCas? then DropStep(s, a, pc)
    else if Clearing(pc) then ClearStep(s, a, pc, l.cpu)
    else if Pushing(pc) then PushStep(s, a, pc, l.cpu)
    else Stuck
  }

  predicate Finished(pc: Pc) { pc.Inserted? || pc.InsertFailed? || pc.GetDone? || pc.RemoveDone? || pc.DropDone? }

  /** A client calls an operation or takes its result. */
  function ClientStep(s: Slab, l: Label): Outcome
    requires !l.Run?
  {
    var a, pc := l.agent, At(s.pcs, l.agent);
    if l.Finish? then (if Finished(pc) then Then(Go(s, a, Idle), Silent) else Stuck)
    else if !pc.Idle? then Stuck else
    match l
    case CallInsert(_, v) => Then(Go(s, a, LocalPop(v)), Silent)
    case CallGet(_, idx) =>
      if idx.index >= |s.slots| then Then(Go(s, a, GetDone(None)), GetMissed(idx))
      else Then(Go(s, a, GetLoad(idx)), Silent)
    case CallRemove(_, idx) =>
      if idx.index >= |s.slots| then Then(Go(s, a, RemoveDone(false)), RemoveMissed(idx))
      else Then(Go(s, a, RemoveLoad(idx)), Silent)
    case CallDrop(_, r) =>
      if r !in s.refs || r in s.dropping then Stuck
      else Then(Go(s.(dropping := s.dropping[r := a]), a, DropLoad(r, s.refs[r])), Silent)
  }

  predicate Popping(pc: Pc) { pc.LocalPop? || pc.PopLoad? || pc.PopNext? || pc.PopCas? }
  predicate Allocating(pc: Pc) { pc.AllocLoad? || pc.AllocStore? || pc.AllocWrite? || pc.AllocProcessor? }
  predicate Clearing(pc: Pc) { pc.ClearLoad? || pc.ClearStore? || pc.ClearContents? || pc.ClearProcessor? || pc.Route? }
  predicate Pushing(pc: Pc) { pc.LocalPush? || pc.PushTag? || pc.PushLoad? || pc.PushLink? || pc.PushCas? }

  /** `LocalFreeList::pop`, then `GlobalFreeList::pop`. */
  function PopStep(s: Slab, a: Agent, pc: Pc, cpu: Cpu): Outcome
    requires Popping(pc)
  {
    match pc
    case LocalPop(v) =>
      var h := LocalHead(s.locals, cpu);
      if h.Empty? then Then(Go(s, a, PopLoad(v)), Silent)
      // the bare word is used as an array index, so only an entry with tag 0 is in bounds
      else if h.tag != 0 || h.index >= |s.slots| then Stuck
      else Then(Go(s.(locals := s.locals[cpu := s.slots[h.index].next]), a, AllocLoad(v, h.index)),
                Took(Local(cpu), h.index))
    case PopLoad(v) =>
      if s.head.Empty? then Then(Go(s, a, InsertFailed(v)), Silent)
      else Then(Go(s, a, PopNext(v, s.head)), Silent)
    case PopNext(v, top) =>
      if top.Empty? || top.index >= |s.slots| then Stuck
      else Then(Go(s, a, PopCas(v, top, s.slots[top.index].next)), Silent)
    case PopCas(v, top, next) =>
      if top.Empty? then Stuck
      else if s.head != top then Then(Go(s, a, PopLoad(v)), Silent)
      else Then(Go(s.(head := next), a, AllocLoad(v, top.index)), Took(Global, top.index))
  }

  /** `Slot::allocate`. */
  function AllocStep(s: Slab, a: Agent, pc: Pc, cpu: Cpu): Outcome
    requires Allocating(pc)
  {
    if pc.i >= |s.slots| then Stuck else
    var slot := s.slots[pc.i];
    match pc
    case AllocLoad(v, i) => Then(Go(s, a, AllocStore(v, i, slot.life)), Silent)
    case AllocStore(v, i, life) =>
      if life.generation + 1 >= COUNTER_LIMIT then Stuck
      else
        var gen := life.generation + 1;
        Then(Go(SetSlot(s, i, slot.(life := Lifecycle(Allocated, gen, life.refcount))), a, AllocWrite(v, i, gen)),
            Silent)
    case AllocWrite(v, i, gen) =>
      Then(Go(SetSlot(s, i, slot.(contents := Some(v))), a, AllocProcessor(v, i, gen)), Silent)
    case AllocProcessor(v, i, gen) =>
      Then(Go(SetSlot(s, i, slot.(processor := Some(cpu))).(issued := s.issued[Idx(gen, i) := v]), a,
          Inserted(Idx(gen, i))),
           Published(Idx(gen, i), v))
  }

  /** `Slot::acquire_reference`. */
  function GetStep(s: Slab, a: Agent, pc: Pc, name: RefId): Outcome
    requires pc.GetLoad? || pc.GetCas?
  {
    if pc.idx.index >= |s.slots| then Stuck else
    var slot := s.slots[pc.idx.index];
    match pc
    case GetLoad(idx) => Then(Go(s, a, GetCas(idx, slot.life)), Silent)
    case GetCas(idx, prev) =>
      if prev.generation != idx.generation || prev.state != Allocated then
        Then(Go(s, a, GetDone(None)), GetMissed(idx))
      else if prev.refcount + 1 >= REFCOUNT_LIMIT then Stuck
      else if slot.life != prev then Then(Go(s, a, GetCas(idx, slot.life)), Silent)
      else if name in s.refs then Stuck
      else
        var held := slot.(life := prev.(refcount := prev.refcount + 1));
        Then(Go(SetSlot(s, idx.index, held).(refs := s.refs[name := idx]), a, GetDone(Some(name))),
             Acquired(idx, name))
  }

  /** `Slot::mark_unallocated`. */
  function RemoveStep(s: Slab, a: Agent, pc: Pc, spurious: bool): Outcome
    requires pc.RemoveLoad? || pc.RemoveCas?
  {
    if pc.idx.index >= |s.slots| then Stuck else
    var slot := s.slots[pc.idx.index];
    match pc
    case RemoveLoad(idx) => Then(Go(s, a, RemoveCas(idx, slot.life)), Silent)
    case RemoveCas(idx, prev) =>
      if prev.generation != idx.generation || prev.state != Allocated then
        Then(Go(s, a, RemoveDone(false)), RemoveMissed(idx))
      else if slot.life != prev || spurious then Then(Go(s, a, RemoveCas(idx, slot.life)), Silent)
      else if prev.refcount > 0 then
        Then(Go(SetSlot(s, idx.index, slot.(life := prev.(state := Zombie))), a, RemoveDone(true)), Removed(idx, false))
      else
        Then(Go(SetSlot(s, idx.index, slot.(life := prev.(state := Unallocated))), a, ClearLoad(idx.index, ByRemove)),
             Removed(idx, true))
  }

  /** The checks of `release_reference` whose failure panics. */
  predicate ReleasePanics(pc: Pc) {
    pc.DropCas? && (pc.prev.generation != pc.idx.generation || pc.prev.state == Unallocated || pc.prev.refcount == 0)
  }

  /** `Slot::release_reference`, called by `drop_reference`. */
  function DropStep(s: Slab, a: Agent, pc: Pc): Outcome
    requires pc.DropLoad? || pc.DropCas?
  {
    if pc.idx.index >= |s.slots| || ReleasePanics(pc) then Stuck else
    var slot := s.slots[pc.idx.index];
    match pc
    case DropLoad(r, idx) => Then(Go(s, a, DropCas(r, idx, slot.life)), Silent)
    case DropCas(r, idx, prev) =>
      if slot.life != prev then Then(Go(s, a, DropCas(r, idx, slot.life)), Silent)
      else
        var life := prev.(refcount := prev.refcount - 1);
        var clears := life.state == Zombie && life.refcount == 0;
        Then(Go(SetSlot(s, idx.index, slot.(life := life)).(refs := s.refs - {r}, dropping := s.dropping - {r}),
                a, if clears then ClearLoad(idx.index, ByDrop) else DropDone),
             Released(idx, r, clears))
  }

  /** `Slot::clear` and the choice made in `return_slot`. */
  function ClearStep(s: Slab, a: Agent, pc: Pc, cpu: Cpu): Outcome
    requires Clearing(pc)
  {
    if pc.i >= |s.slots| then Stuck else
    var slot := s.slots[pc.i];
    match pc
    case ClearLoad(i, k) => Then(Go(s, a, ClearStore(i, k, slot.life)), Silent)
    case ClearStore(i, k, life) =>
      Then(Go(SetSlot(s, i, slot.(life := life.(state := Unallocated))), a, ClearContents(i, k)), Silent)
    case ClearContents(i, k) =>
      if slot.contents.None? then Stuck
      else Then(Go(SetSlot(s, i, slot.(contents := None)), a, ClearProcessor(i, k)), Silent)
    case ClearProcessor(i, k) =>
      Then(Go(SetSlot(s, i, slot.(processor := None)), a, Route(i, k, slot.processor)), Silent)
    case Route(i, k, owner) =>
      Then(Go(s, a, if owner == Some(cpu) then LocalPush(i, k) else PushTag(i, k)), Silent)
  }

  /** `LocalFreeList::push` and `GlobalFreeList::push`. */
  function PushStep(s: Slab, a: Agent, pc: Pc, cpu: Cpu): Outcome
    requires Pushing(pc)
  {
    if pc.i >= |s.slots| then Stuck else
    var slot := s.slots[pc.i];
    match pc
    case LocalPush(i, k) =>
      Then(Go(SetSlot(s, i, slot.(next := LocalHead(s.locals, cpu))).(locals := s.locals[cpu := Entry(i, 0)]), a,
          Done(k)),
           Gave(Local(cpu), Entry(i, 0), Idx(slot.life.generation, i)))
    case PushTag(i, k) =>
      if s.tag >= COUNTER_LIMIT then Stuck
      else Then(Go(s.(tag := s.tag + 1), a, PushLoad(i, k, Entry(i, s.tag))), Silent)
    case PushLoad(i, k, entry) => Then(Go(s, a, PushLink(i, k, entry, s.head)), Silent)
    case PushLink(i, k, entry, top) =>
      Then(Go(SetSlot(s, i, slot.(next := top)), a, PushCas(i, k, entry, top)), Silent)
    case PushCas(i, k, entry, top) =>
      if s.head != top then Then(Go(s, a, PushLoad(i, k, entry)), Silent)
      else Then(Go(s.(head := entry), a, Done(k)), Gave(Global, entry, Idx(slot.life.generation, i)))
  }

  /**
   What clients owe the slab: `get` and `remove` are called with an index some `insert`
   has returned, or with a word that no `insert` ever returns.
   */
  predicate Disciplined(s: Slab, l: Label) {
    l.CallGet? || l.CallRemove? ==>
      l.idx in s.issued || l.idx.index >= |s.slots| || l.idx.generation == 0
  }

  /** The labels can be taken one after another from `s`. */
  predicate Runs(s: Slab, ls: seq<Label>)
    decreases |ls|
  {
    ls == [] || (Step(s, ls[0]).Then? && Runs(Step(s, ls[0]).state, ls[1..]))
  }

  /** As `Runs`, by clients that keep the discipline. */
  predicate Behaves(s: Slab, ls: seq<Label>)
    decreases |ls|
  {
    ls == [] || (Step(s, ls[0]).Then? && Disciplined(s, ls[0]) && Behaves(Step(s, ls[0]).state, ls[1..]))
  }

  function Exec(s: Slab, ls: seq<Label>): Slab
    requires Runs(s, ls)
    decreases |ls|
  {
    if ls == [] then s else Exec(Step(s, ls[0]).state, ls[1..])
  }
}
