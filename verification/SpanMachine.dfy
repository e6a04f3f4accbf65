/**
 Span reference counting over the slab: `new_span`, `clone_span` and `try_close`
 interleave with each other and with every step inside the slab operations they call.
 */
module SpanMachine {
  import opened Options
  import opened Packing
  import opened SlabMachine

  type Handle = nat

  /** What an agent is doing at the level of spans; the slab operation in between has its own program counter. */
  datatype Task =
    | Rest
      // new_span
    | Creating
    | Fatal
      // clone_span of handle `h`, whose span is `x`
    | CloneGetting(h: Handle, x: Idx)
    | CloneAdding(h: Handle, x: Idx, r: RefId)
    | CloneLeaving(x: Idx, r: RefId)
    | CloneDropping(x: Idx)
      // try_close of handle `h`, whose span is `x`
    | CloseGetting(h: Handle, x: Idx)
    | CloseCounting(h: Handle, x: Idx, r: RefId)
    | CloseLeaving(x: Idx, r: RefId, last: bool)
    | CloseDropping(x: Idx, last: bool)
    | CloseRemove(x: Idx)
    | CloseRemoving(x: Idx)

  /**
   The slab of spans, the `references` counter inside each span's entry, the open
   handles, which agent is closing which of them, and the agents. The last three fields
   are read by no step: which agent holds a slab reference, which agent is closing the
   last handle of a span, and how many `try_close` calls have returned true for it.
   */
  datatype Tracer = Tracer(
    slab: Slab,
    counts: map<Idx, nat>,
    handles: map<Handle, Idx>,
    closing: map<Handle, Agent>,
    tasks: map<Agent, Task>,
    owners: map<RefId, Agent>,
    closers: map<Idx, Agent>,
    closed: multiset<Idx>)

  function TaskOf(tasks: map<Agent, Task>, a: Agent): Task {
    if a in tasks then tasks[a] else Rest
  }

  function SetTask(tasks: map<Agent, Task>, a: Agent, k: Task): (r: map<Agent, Task>)
    ensures forall b {:trigger TaskOf(r, b)} :: TaskOf(r, b) == if b == a then k else TaskOf(tasks, b)
  {
    tasks[a := k]
  }

  datatype Act =
    | NewSpan(agent: Agent, v: Value)
    | Clone(agent: Agent, h: Handle)
    | Close(agent: Agent, h: Handle)
      // the agent's slab operation makes its next access
    | Inner(agent: Agent, cpu: Cpu, name: RefId, spurious: bool)
      // the agent moves on once its slab operation is over; `newHandle` names a handle about to be opened
    | Proceed(agent: Agent, newHandle: Handle)

  datatype Result = Blocked | Ok(next: Tracer)

  /** The slab step an act includes, if any. */
  function SlabLabel(t: Tracer, c: Act): Option<Label> {
    match c
    case NewSpan(a, v) => Some(CallInsert(a, v))
    case Clone(a, h) => if h in t.handles then Some(CallGet(a, t.handles[h])) else None
    case Close(a, h) => if h in t.handles then Some(CallGet(a, t.handles[h])) else None
    case Inner(a, cpu, name, spurious) => Some(Run(a, cpu, name, spurious))
    case Proceed(a, _) =>
      var k := TaskOf(t.tasks, a);
      if k.CloneLeaving? || k.CloseLeaving? then Some(CallDrop(a, k.r))
      else if k.CloseRemove? then Some(CallRemove(a, k.x))
      else if k.CloneAdding? || k.CloseCounting? then None
      else Some(Finish(a))
  }

  /** A handle that is being cloned is borrowed and cannot be closed. */
  ghost predicate Borrowed(t: Tracer, h: Handle) {
    exists a :: var k := TaskOf(t.tasks, a); (k.CloneGetting? || k.CloneAdding?) && k.h == h
  }

  /** The slab part of an act. */
  function SlabAfter(t: Tracer, c: Act): Outcome {
    match SlabLabel(t, c)
    case None => Then(t.slab, Silent)
    case Some(l) => Step(t.slab, l)
  }

  ghost function Perform(t: Tracer, c: Act): Result {
    var a, k := c.agent, TaskOf(t.tasks, c.agent);
    var o := SlabAfter(t, c);
    if o.Stuck? then Blocked else
    var u := t.(slab := o.state);
    match c
    case NewSpan(_, _) => if k.Rest? then Ok(u.(tasks := SetTask(t.tasks, a, Creating))) else Blocked
    case Clone(_, h) =>
      if k.Rest? && h in t.handles && h !in t.closing
      then Ok(u.(tasks := SetTask(t.tasks, a, CloneGetting(h, t.handles[h])))) else Blocked
    case Close(_, h) =>
      if k.Rest? && h in t.handles && h !in t.closing && !Borrowed(t, h)
      then Ok(u.(closing := t.closing[h := a], tasks := SetTask(t.tasks, a, CloseGetting(h, t.handles[h]))))
      else Blocked
    case Inner(_, _, name, _) =>
      // a reference just acquired belongs to this agent, one just released to nobody
      Ok(u.(owners := if o.event.Acquired? then t.owners[o.event.ref := a]
                      else if o.event.Released? then t.owners - {o.event.ref} else t.owners))
    case Proceed(_, n) => Advance(t, u, a, k, n)
  }

  /** An agent whose slab operation, if any, has just been started or finished in `u`. */
  function Advance(t: Tracer, u: Tracer, a: Agent, k: Task, newHandle: Handle): Result {
    var pc := At(t.slab.pcs, a);
    match k
    case Creating =>
      if pc.Inserted? && newHandle !in t.handles && newHandle !in t.closing then
        Ok(u.(counts := t.counts[pc.idx := 1], handles := t.handles[newHandle := pc.idx],
            tasks := SetTask(t.tasks, a, Rest)))
      else if pc.InsertFailed? then Ok(u.(tasks := SetTask(t.tasks, a, Fatal)))
      else Blocked
    case CloneGetting(h, x) =>
      if !pc.GetDone? then Blocked
      // without a reference the id is cloned uncounted
      else Ok(u.(tasks := SetTask(t.tasks, a, if pc.got.Some? then CloneAdding(h, x, pc.got.value) else Rest)))
    case CloneAdding(h, x, r) =>
      if newHandle in t.handles || newHandle in t.closing || x !in t.counts then Blocked
      else Ok(u.(counts := t.counts[x := t.counts[x] + 1], handles := t.handles[newHandle := x],
                 tasks := SetTask(t.tasks, a, CloneLeaving(x, r))))
    case CloneLeaving(x, r) => Ok(u.(tasks := SetTask(t.tasks, a, CloneDropping(x))))
    case CloneDropping(x) => Ok(u.(tasks := SetTask(t.tasks, a, Rest)))
    case CloseGetting(h, x) =>
      if !pc.GetDone? then Blocked
      else if pc.got.Some? then Ok(u.(tasks := SetTask(t.tasks, a, CloseCounting(h, x, pc.got.value))))
      // try_close returns false
      else Ok(u.(handles := t.handles - {h}, closing := t.closing - {h}, tasks := SetTask(t.tasks, a, Rest)))
    case CloseCounting(h, x, r) =>
      // a counter at zero would wrap around
      if x !in t.counts || t.counts[x] == 0 then Blocked
      else
        var last := t.counts[x] == 1;
        Ok(u.(counts := t.counts[x := t.counts[x] - 1], handles := t.handles - {h}, closing := t.closing - {h},
              closers := if last then t.closers[x := a] else t.closers,
              tasks := SetTask(t.tasks, a, CloseLeaving(x, r, last))))
    case CloseLeaving(x, r, last) => Ok(u.(tasks := SetTask(t.tasks, a, CloseDropping(x, last))))
    // try_close returns false when this was not the last handle
    case CloseDropping(x, last) => Ok(u.(tasks := SetTask(t.tasks, a, if last then CloseRemove(x) else Rest)))
    case CloseRemove(x) => Ok(u.(tasks := SetTask(t.tasks, a, CloseRemoving(x))))
    // try_close returns true, whatever `remove` returned
    case CloseRemoving(x) =>
      Ok(u.(closers := t.closers - {x}, closed := t.closed + multiset{x}, tasks := SetTask(t.tasks, a, Rest)))
    case _ => Blocked
  }

  ghost predicate Plays(t: Tracer, cs: seq<Act>)
    decreases |cs|
  {
    cs == [] || (Perform(t, cs[0]).Ok? && Plays(Perform(t, cs[0]).next, cs[1..]))
  }

  ghost function Played(t: Tracer, cs: seq<Act>): Tracer
    requires Plays(t, cs)
    decreases |cs|
  {
    if cs == [] then t else Played(Perform(t, cs[0]).next, cs[1..])
  }

  /** The slab's own run inside a run of spans. */
  ghost function SlabRun(t: Tracer, cs: seq<Act>): seq<Label>
    requires Plays(t, cs)
    decreases |cs|
  {
    if cs == [] then []
    else
      var rest := SlabRun(Perform(t, cs[0]).next, cs[1..]);
      if SlabLabel(t, cs[0]).Some? then [SlabLabel(t, cs[0]).value] + rest else rest
  }
}
