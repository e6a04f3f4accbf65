/**
 The interrupt-safe mutex as a protocol of steps: every core runs a stack of frames, the
 code it started with and the interrupt handlers on top of it, and each access to the
 interrupt flag or to a lock is a step of its own. An interrupt may arrive between any
 two steps of a core whose interrupts are enabled.
 */
module InterruptMutex {
  import opened Options

  type CoreId = nat
  type Lock = nat

  /** A held lock, and the interrupt state found when `lock` or `try_lock` was entered. */
  datatype Guard = Guard(lock: Lock, flag: bool)

  datatype Pc =
    | Idle
      // `enabled()` has been called; `once` for `try_lock`
    | Flagged(lock: Lock, flag: bool, once: bool)
      // interrupts are disabled; about to try the spin lock
    | Attempting(lock: Lock, flag: bool, once: bool)
      // `try_lock` has failed and drops its interrupt guard
    | Failing(flag: bool)
      // the spin lock is released, the interrupt guard not yet dropped
    | Releasing(flag: bool)

  /** `resume` is the interrupt state restored when this frame's handler returns. */
  datatype Frame = Frame(pc: Pc, guards: seq<Guard>, resume: bool)

  /** The last frame is the one that runs. */
  datatype Core = Core(enabled: bool, frames: seq<Frame>)

  /** `locked` says which locks are taken; which core took one is read by no step. */
  datatype System = System(cores: map<CoreId, Core>, locked: map<Lock, CoreId>)

  datatype Label =
    | Begin(core: CoreId, lock: Lock, once: bool)
    | Mask(core: CoreId)
    | Attempt(core: CoreId)
    | GiveUp(core: CoreId)
    | Unlock(core: CoreId, i: nat)
    | Restore(core: CoreId)
      // an interrupt arrives, and may mask further ones
    | Interrupt(core: CoreId, masks: bool)
      // the handler returns
    | Return(core: CoreId)
    | ForceEnable(core: CoreId)
    | ForceDisable(core: CoreId)

  datatype Outcome = Stuck | Then(next: System)

  function Top(c: Core): Frame
    requires c.frames != []
  {
    c.frames[|c.frames| - 1]
  }

  function WithTop(c: Core, f: Frame): Core
    requires c.frames != []
  {
    c.(frames := c.frames[|c.frames| - 1 := f])
  }

  function RemoveGuard(gs: seq<Guard>, i: nat): seq<Guard>
    requires i < |gs|
  {
    gs[..i] + gs[i + 1..]
  }

  /** What a step does to its core. */
  datatype Move = Blocked | Move(core: Core, locked: map<Lock, CoreId>)

  function CoreStep(s: System, l: Label, c: Core): Move
    requires c.frames != []
  {
    var f := Top(c);
    match l
    case Begin(_, lock, once) =>
      if f.pc.Idle? then Move(WithTop(c, f.(pc := Flagged(lock, c.enabled, once))), s.locked) else Blocked
    case Mask(_) =>
      if f.pc.Flagged? then
        Move(WithTop(c, f.(pc := Attempting(f.pc.lock, f.pc.flag, f.pc.once))).(enabled := c.enabled && !f.pc.flag),
            s.locked)
      else Blocked
    case Attempt(id) =>
      if !f.pc.Attempting? then Blocked
      else if f.pc.lock !in s.locked then
        Move(WithTop(c, f.(pc := Idle, guards := f.guards + [Guard(f.pc.lock, f.pc.flag)])), s.locked[f.pc.lock := id])
      else if f.pc.once then Move(WithTop(c, f.(pc := Failing(f.pc.flag))), s.locked)
      // spins
      else Move(c, s.locked)
    case GiveUp(_) =>
      if f.pc.Failing? then Move(WithTop(c, f.(pc := Idle)).(enabled := c.enabled || f.pc.flag), s.locked) else Blocked
    case Unlock(_, i) =>
      if f.pc.Idle? && i < |f.guards| then
        Move(WithTop(c, f.(pc := Releasing(f.guards[i].flag), guards := RemoveGuard(f.guards, i))),
            s.locked - {f.guards[i].lock})
      else Blocked
    case Restore(_) =>
      if f.pc.Releasing? then Move(WithTop(c, f.(pc := Idle)).(enabled := c.enabled || f.pc.flag), s.locked)
      else Blocked
    case Interrupt(_, masks) =>
      if c.enabled then Move(Core(!masks, c.frames + [Frame(Idle, [], c.enabled)]), s.locked) else Blocked
    case Return(_) =>
      if |c.frames| > 1 && f.pc.Idle? && f.guards == [] then
        Move(Core(f.resume, c.frames[..|c.frames| - 1]), s.locked)
      else Blocked
    case ForceEnable(_) => if f.pc.Idle? then Move(c.(enabled := true), s.locked) else Blocked
    case ForceDisable(_) => if f.pc.Idle? then Move(c.(enabled := false), s.locked) else Blocked
  }

  function Step(s: System, l: Label): Outcome {
    if l.core !in s.cores || s.cores[l.core].frames == [] then Stuck
    else
      match CoreStep(s, l, s.cores[l.core])
      case Blocked => Stuck
      case Move(c, locked) => Then(System(s.cores[l.core := c], locked))
  }

  // ---- The order of guards ----

  /** A guard that found interrupts enabled is dropped only when it is the core's last one. */
  predicate LastIfOutermost(f: Frame, i: nat)
    requires i < |f.guards|
  {
    f.guards[i].flag ==> |f.guards| == 1
  }

  /** What the code owes: such an order, and no `force_enable` while a guard is held. */
  predicate Orderly(s: System, l: Label) {
    l.core in s.cores && s.cores[l.core].frames != [] ==>
      var f := Top(s.cores[l.core]);
      && (l.Unlock? && l.i < |f.guards| ==> LastIfOutermost(f, l.i))
      && (l.ForceEnable? ==> f.guards == [])
  }

  predicate Runs(s: System, ls: seq<Label>)
    decreases |ls|
  {
    ls == [] || (Step(s, ls[0]).Then? && Orderly(s, ls[0]) && Runs(Step(s, ls[0]).next, ls[1..]))
  }

  function Exec(s: System, ls: seq<Label>): System
    requires Runs(s, ls)
    decreases |ls|
  {
    if ls == [] then s else Exec(Step(s, ls[0]).next, ls[1..])
  }

  // ---- The invariant ----

  /** An interrupted frame holds no guard and is not between disabling interrupts and enabling them again. */
  predicate Interrupted(f: Frame) {
    f.guards == [] && (f.pc.Idle? || (f.pc.Flagged? && f.pc.flag))
  }

  /** The running frame: with a guard, or inside `lock` or a release, interrupts are disabled. */
  predicate Running(f: Frame, enabled: bool) {
    && (f.guards != [] || f.pc.Attempting? || f.pc.Failing? || f.pc.Releasing? ==> !enabled)
    && (f.pc.Flagged? ==> f.pc.flag == enabled)
    && (forall i :: 0 < i < |f.guards| ==> !f.guards[i].flag)
    && ((f.pc.Attempting? || f.pc.Failing? || f.pc.Releasing?) && f.pc.flag ==> f.guards == [])
  }

  predicate CoreOk(c: Core) {
    && c.frames != [] && Running(Top(c), c.enabled)
    && (forall i :: 0 <= i < |c.frames| - 1 ==> Interrupted(c.frames[i]))
    && (forall i :: 0 < i < |c.frames| ==> c.frames[i].resume)
  }

  /** The guards of a core's running frame are the locks it has taken, each once. */
  predicate HoldsOk(s: System, id: CoreId)
    requires id in s.cores && s.cores[id].frames != []
  {
    var gs := Top(s.cores[id]).guards;
    && (forall i :: 0 <= i < |gs| ==> gs[i].lock in s.locked && s.locked[gs[i].lock] == id)
    && (forall i, j :: 0 <= i < j < |gs| ==> gs[i].lock != gs[j].lock)
    && (forall lock :: lock in s.locked && s.locked[lock] == id ==> Holds(gs, lock))
  }

  predicate Holds(gs: seq<Guard>, lock: Lock) {
    exists i :: 0 <= i < |gs| && gs[i].lock == lock
  }

  ghost predicate Inv(s: System) {
    && (forall id :: id in s.cores ==> CoreOk(s.cores[id]) && HoldsOk(s, id))
    && (forall lock :: lock in s.locked ==> s.locked[lock] in s.cores)
  }

  lemma CoreStepOk(s: System, l: Label, c: Core)
    requires CoreOk(c) && CoreStep(s, l, c).Move?
    requires l.Unlock? && l.i < |Top(c).guards| ==> LastIfOutermost(Top(c), l.i)
    requires l.ForceEnable? ==> Top(c).guards == []
    ensures CoreOk(CoreStep(s, l, c).core)
  {
  }

  /** The guards of the running frame, which are all the guards of the core. */
  function GuardsOf(c: Core): seq<Guard>
    requires c.frames != []
  {
    Top(c).guards
  }

  /** How a step changes the guards of its core and the locks: not at all, by taking a lock, or by releasing one. */
  lemma CoreStepLocks(s: System, l: Label, c: Core)
    requires CoreOk(c) && CoreStep(s, l, c).Move?
    ensures var m, gs := CoreStep(s, l, c), GuardsOf(c);
            && m.core.frames != []
            && if l.Attempt? && Top(c).pc.lock !in s.locked then
                 GuardsOf(m.core) == gs + [Guard(Top(c).pc.lock, Top(c).pc.flag)]
                     && m.locked == s.locked[Top(c).pc.lock := l.core]
               else if l.Unlock? then
                 l.i < |gs| && GuardsOf(m.core) == RemoveGuard(gs, l.i) && m.locked == s.locked - {gs[l.i].lock}
               else GuardsOf(m.core) == gs && m.locked == s.locked
  {
  }

  lemma TakeHolds(s: System, t: System, id: CoreId, lock: Lock, flag: bool)
    requires id in s.cores && id in t.cores && s.cores[id].frames != [] && t.cores[id].frames != [] && HoldsOk(s, id)
    requires lock !in s.locked && t.locked == s.locked[lock := id]
    requires GuardsOf(t.cores[id]) == GuardsOf(s.cores[id]) + [Guard(lock, flag)]
    ensures HoldsOk(t, id)
  {
    var gs, hs := GuardsOf(s.cores[id]), GuardsOf(t.cores[id]);
    forall k | k in t.locked && t.locked[k] == id
      ensures Holds(hs, k)
    {
      if k == lock {
        assert hs[|gs|].lock == lock;
      } else {
        assert Holds(gs, k);
        var i :| 0 <= i < |gs| && gs[i].lock == k;
        assert hs[i].lock == k;
      }
    }
  }

  lemma DropHolds(s: System, t: System, id: CoreId, i: nat)
    requires id in s.cores && id in t.cores && s.cores[id].frames != [] && t.cores[id].frames != [] && HoldsOk(s, id)
    requires i < |GuardsOf(s.cores[id])| && t.locked == s.locked - {GuardsOf(s.cores[id])[i].lock}
    requires GuardsOf(t.cores[id]) == RemoveGuard(GuardsOf(s.cores[id]), i)
    ensures HoldsOk(t, id)
  {
    var gs, hs := GuardsOf(s.cores[id]), GuardsOf(t.cores[id]);
    assert forall k :: 0 <= k < |hs| ==> hs[k] == gs[if k < i then k else k + 1];
    forall k | k in t.locked && t.locked[k] == id
      ensures Holds(hs, k)
    {
      assert Holds(gs, k);
      var j :| 0 <= j < |gs| && gs[j].lock == k;
      assert hs[if j < i then j else j - 1].lock == k;
    }
  }

  /** The guards of the core that steps. */
  lemma OwnHolds(s: System, l: Label, c: Core)
    requires l.core in s.cores && c == s.cores[l.core] && CoreOk(c) && HoldsOk(s, l.core) && Step(s, l).Then?
    ensures l.core in Step(s, l).next.cores && Step(s, l).next.cores[l.core].frames != []
    ensures HoldsOk(Step(s, l).next, l.core)
  {
    var t := Step(s, l).next;
    CoreStepLocks(s, l, c);
    if l.Attempt? && Top(c).pc.lock !in s.locked {
      TakeHolds(s, t, l.core, Top(c).pc.lock, Top(c).pc.flag);
    } else if l.Unlock? {
      DropHolds(s, t, l.core, l.i);
    }
  }

  lemma StepInv(s: System, l: Label)
    requires Inv(s) && Step(s, l).Then? && Orderly(s, l)
    ensures Inv(Step(s, l).next)
  {
    var t, c := Step(s, l).next, s.cores[l.core];
    CoreStepOk(s, l, c);
    assert HoldsOk(s, l.core);
    OwnHolds(s, l, c);
    LockedElsewhere(s, l, c);
    forall id | id in t.cores && id != l.core
      ensures CoreOk(t.cores[id]) && HoldsOk(t, id)
    {
      assert HoldsOk(s, id);
      OtherHolds(s, t, l.core, id);
    }
  }

  /** Locks other cores have taken stay theirs. */
  lemma LockedElsewhere(s: System, l: Label, c: Core)
    requires l.core in s.cores && c == s.cores[l.core] && CoreOk(c) && HoldsOk(s, l.core) && CoreStep(s, l, c).Move?
    ensures var locked := CoreStep(s, l, c).locked;
            && (forall k :: k in s.locked && s.locked[k] != l.core ==> k in locked && locked[k] == s.locked[k])
            && (forall k :: k in locked && locked[k] != l.core ==> k in s.locked && locked[k] == s.locked[k])
            && (forall k :: k in locked ==> k in s.locked || locked[k] == l.core)
  {
    CoreStepLocks(s, l, c);
  }

  /** A core that takes or releases a lock leaves the guards of the others in order. */
  lemma OtherHolds(s: System, t: System, mover: CoreId, id: CoreId)
    requires id in s.cores && id in t.cores && t.cores[id] == s.cores[id] && s.cores[id].frames != [] && HoldsOk(s, id)
    requires forall k :: k in s.locked && s.locked[k] != mover ==> k in t.locked && t.locked[k] == s.locked[k]
    requires forall k :: k in t.locked && t.locked[k] != mover ==> k in s.locked && t.locked[k] == s.locked[k]
    requires id != mover
    ensures HoldsOk(t, id)
  {
  }

  // ---- Theorems ----

  /** Cores at work on nothing, with interrupts enabled or not, and no lock taken. */
  ghost predicate Start(s: System) {
    s.locked == map[] && forall id :: id in s.cores ==>
                                        |s.cores[id].frames| == 1 && s.cores[id].frames[0].pc.Idle?
                                            && s.cores[id].frames[0].guards == []
  }

  lemma StartInv(s: System)
    requires Start(s)
    ensures Inv(s)
  {
  }

  lemma {:induction false} RunInv(s: System, ls: seq<Label>)
    requires Inv(s) && Runs(s, ls)
    ensures Inv(Exec(s, ls))
    decreases |ls|
  {
    if ls != [] {
      StepInv(s, ls[0]);
      RunInv(Step(s, ls[0]).next, ls[1..]);
    }
  }

  /** Frame `k` of a core holds `lock`. */
  predicate FrameHolds(c: Core, k: nat, lock: Lock) {
    k < |c.frames| && Holds(c.frames[k].guards, lock)
  }

  /**
   Interrupt safety. In every reachable state of an orderly run: a core that holds a lock
   has interrupts disabled; a frame never waits for a lock that a frame below it on its
   own core holds; and no lock is held twice.
   */
  lemma InterruptSafety(s: System, ls: seq<Label>, id: CoreId, k: nat, lock: Lock)
    requires Start(s) && Runs(s, ls) && id in Exec(s, ls).cores && FrameHolds(Exec(s, ls).cores[id], k, lock)
    ensures var t := Exec(s, ls); var c := t.cores[id];
            && !c.enabled && k == |c.frames| - 1
            && lock in t.locked && t.locked[lock] == id
            && (forall other, j: nat :: other in t.cores && FrameHolds(t.cores[other], j, lock) ==>
                  other == id && j == k)
  {
    StartInv(s);
    RunInv(s, ls);
    var t := Exec(s, ls);
    HolderIsTop(t, id, k, lock);
    forall other, j: nat | other in t.cores && FrameHolds(t.cores[other], j, lock)
      ensures other == id && j == k
    {
      HolderIsTop(t, other, j, lock);
    }
  }

  lemma HolderIsTop(t: System, id: CoreId, k: nat, lock: Lock)
    requires Inv(t) && id in t.cores && FrameHolds(t.cores[id], k, lock)
    ensures k == |t.cores[id].frames| - 1 && !t.cores[id].enabled && lock in t.locked && t.locked[lock] == id
  {
    var c := t.cores[id];
    assert HoldsOk(t, id);
  }

  // ---- What a release restores ----

  /**
   What a frame's calls of `lock` and `try_lock` found: for every guard not yet dropped,
   and for the call or drop in progress, its lock and the core's interrupt state at the
   call's own `Begin`; and whether the latest call was a `try_lock`.
   */
  datatype Past = Past(open: seq<Guard>, now: Option<Guard>, once: bool)

  /** The past of a core's frames, told from the labels, the core's interrupt state and the locks only. */
  function Recall(h: seq<Past>, s: System, l: Label): seq<Past> {
    if h == [] || l.core !in s.cores then h else
    var n, p := |h| - 1, h[|h| - 1];
    match l
    case Begin(id, lock, once) => h[n := p.(now := Some(Guard(lock, s.cores[id].enabled)), once := once)]
    case Attempt(_) =>
      if p.now.Some? && p.now.value.lock !in s.locked then
        h[n := p.(open := p.open + [p.now.value], now := None)]
      else h
    case Unlock(_, i) =>
      if i < |p.open| then h[n := p.(open := RemoveGuard(p.open, i), now := Some(p.open[i]))] else h
    case GiveUp(_) => h[n := p.(now := None)]
    case Restore(_) => h[n := p.(now := None)]
    case Interrupt(_, _) => h + [Past([], None, false)]
    case Return(_) => h[..n]
    case _ => h
  }

  /** The past of core `id` after a run, from `h` before it. */
  function History(s: System, ls: seq<Label>, id: CoreId, h: seq<Past>): seq<Past>
    requires Runs(s, ls)
    decreases |ls|
  {
    if ls == [] then h
    else History(Step(s, ls[0]).next, ls[1..], id, if ls[0].core == id then Recall(h, s, ls[0]) else h)
  }

  /** The guards and the program counter of a frame hold what its calls found. */
  predicate Remembers(p: Past, f: Frame) {
    && p.open == f.guards
    && match f.pc
       case Idle => p.now.None?
       case Flagged(lock, flag, once) => p.now == Some(Guard(lock, flag)) && p.once == once
       case Attempting(lock, flag, once) => p.now == Some(Guard(lock, flag)) && p.once == once
       case Failing(flag) => p.now.Some? && p.now.value.flag == flag
       case Releasing(flag) => p.now.Some? && p.now.value.flag == flag
  }

  predicate CoreRemembers(h: seq<Past>, c: Core) {
    |h| == |c.frames| > 0 && forall k :: 0 <= k < |h| ==> Remembers(h[k], c.frames[k])
  }

  lemma StepRemembers(h: seq<Past>, s: System, l: Label)
    requires l.core in s.cores && CoreRemembers(h, s.cores[l.core]) && CoreStep(s, l, s.cores[l.core]).Move?
    ensures CoreRemembers(Recall(h, s, l), CoreStep(s, l, s.cores[l.core]).core)
  {
  }

  lemma {:induction false} RunRemembers(s: System, ls: seq<Label>, id: CoreId, h: seq<Past>)
    requires Runs(s, ls) && id in s.cores && CoreRemembers(h, s.cores[id])
    ensures id in Exec(s, ls).cores && CoreRemembers(History(s, ls, id, h), Exec(s, ls).cores[id])
    decreases |ls|
  {
    if ls != [] {
      if ls[0].core == id {
        StepRemembers(h, s, ls[0]);
        RunRemembers(Step(s, ls[0]).next, ls[1..], id, Recall(h, s, ls[0]));
      } else {
        RunRemembers(Step(s, ls[0]).next, ls[1..], id, h);
      }
    }
  }

  /** The past of a core from a start, where nothing has been called. */
  function Story(s: System, ls: seq<Label>, id: CoreId): seq<Past>
    requires Runs(s, ls)
  {
    History(s, ls, id, [Past([], None, false)])
  }

  /**
   Releases restore what was found: in every orderly run, when the release of a guard
   ends, and when a `try_lock` gives up, the core's interrupt state is the one at the
   `Begin` of that very call, whatever calls, drops and interrupts came in between.
   */
  lemma ReleaseRestores(s: System, ls: seq<Label>, l: Label)
    requires Start(s) && Runs(s, ls) && (l.Restore? || l.GiveUp?) && Step(Exec(s, ls), l).Then?
    ensures var h := Story(s, ls, l.core);
            && h != [] && h[|h| - 1].now.Some?
            && l.core in Step(Exec(s, ls), l).next.cores
            && Step(Exec(s, ls), l).next.cores[l.core].enabled == h[|h| - 1].now.value.flag
  {
    StartInv(s);
    RunInv(s, ls);
    SameCores(s, ls, l.core);
    StoryRemembers(s, ls, l.core);
    RestoreRestores(Exec(s, ls), l, Story(s, ls, l.core));
  }

  lemma StoryRemembers(s: System, ls: seq<Label>, id: CoreId)
    requires Start(s) && Runs(s, ls) && id in s.cores
    ensures id in Exec(s, ls).cores && CoreRemembers(Story(s, ls, id), Exec(s, ls).cores[id])
  {
    RunRemembers(s, ls, id, [Past([], None, false)]);
  }

  lemma RestoreRestores(t: System, l: Label, h: seq<Past>)
    requires Inv(t) && (l.Restore? || l.GiveUp?) && Step(t, l).Then? && CoreRemembers(h, t.cores[l.core])
    ensures h != [] && h[|h| - 1].now.Some? && l.core in Step(t, l).next.cores
    ensures Step(t, l).next.cores[l.core].enabled == h[|h| - 1].now.value.flag
  {
    assert CoreOk(t.cores[l.core]) && Remembers(h[|h| - 1], Top(t.cores[l.core]));
  }

  lemma {:induction false} SameCores(s: System, ls: seq<Label>, id: CoreId)
    requires Runs(s, ls)
    ensures id in Exec(s, ls).cores <==> id in s.cores
    decreases |ls|
  {
    if ls != [] {
      SameCores(Step(s, ls[0]).next, ls[1..], id);
    }
  }

  /** The guards of a core are its calls not yet undone, in order: each with its lock and what its own call found. */
  lemma GuardsRemember(s: System, ls: seq<Label>, id: CoreId)
    requires Start(s) && Runs(s, ls) && id in s.cores
    ensures var c, h := Exec(s, ls).cores, Story(s, ls, id);
            && id in c && c[id].frames != [] && |h| == |c[id].frames|
            && h[|h| - 1].open == GuardsOf(c[id])
  {
    StoryRemembers(s, ls, id);
  }

  /**
   What an attempt at the lock of call `g` comes to. On a free lock the call ends with
   its guard. On a taken one `try_lock` gives up, whichever core holds the lock: nothing
   is locked or unlocked, and one more step ends it with interrupts as it found them.
   `lock` stays where it is.
   */
  ghost predicate AttemptAnswers(t: System, u: System, id: CoreId, g: Guard, once: bool)
    requires id in t.cores && id in u.cores && t.cores[id].frames != [] && u.cores[id].frames != []
  {
    if g.lock !in t.locked then
      && Top(u.cores[id]).pc.Idle? && !u.cores[id].enabled
      && GuardsOf(u.cores[id]) == GuardsOf(t.cores[id]) + [g] && u.locked == t.locked[g.lock := id]
    else if !once then u == t
    else
      && u.locked == t.locked && GuardsOf(u.cores[id]) == GuardsOf(t.cores[id])
      && var o := Step(u, GiveUp(id));
         && o.Then? && id in o.next.cores && o.next.cores[id].frames != [] && Top(o.next.cores[id]).pc.Idle?
         && o.next.locked == t.locked && GuardsOf(o.next.cores[id]) == GuardsOf(t.cores[id])
         && o.next.cores[id].enabled == g.flag
  }

  /** In every orderly run, one attempt ends a `try_lock`, and ends a `lock` exactly when the lock is free. */
  lemma TryLockAnswers(s: System, ls: seq<Label>, id: CoreId)
    requires Start(s) && Runs(s, ls) && Step(Exec(s, ls), Attempt(id)).Then?
    ensures var t, u, h := Exec(s, ls), Step(Exec(s, ls), Attempt(id)).next, Story(s, ls, id);
            && id in t.cores && id in u.cores && t.cores[id].frames != [] && u.cores[id].frames != []
            && h != [] && h[|h| - 1].now.Some?
            && AttemptAnswers(t, u, id, h[|h| - 1].now.value, h[|h| - 1].once)
  {
    StartInv(s);
    RunInv(s, ls);
    SameCores(s, ls, id);
    StoryRemembers(s, ls, id);
    AttemptIs(Exec(s, ls), id, Story(s, ls, id));
  }

  lemma AttemptIs(t: System, id: CoreId, h: seq<Past>)
    requires Inv(t) && Step(t, Attempt(id)).Then? && CoreRemembers(h, t.cores[id])
    ensures var u := Step(t, Attempt(id)).next;
            && id in u.cores && u.cores[id].frames != [] && h != [] && h[|h| - 1].now.Some?
            && AttemptAnswers(t, u, id, h[|h| - 1].now.value, h[|h| - 1].once)
  {
    assert CoreOk(t.cores[id]) && Remembers(h[|h| - 1], Top(t.cores[id]));
    assert t.cores[id := t.cores[id]] == t.cores;
  }

  /** The steps of a call or drop in the running frame of a core. */
  predicate OwnStep(l: Label, id: CoreId) {
    l == Mask(id) || l == Attempt(id) || l == GiveUp(id) || l == Restore(id)
  }

  /** A `try_lock` and a drop come to their end: the steps left to an undisturbed call. */
  function StepsLeft(pc: Pc): nat {
    match pc
    case Idle => 0
    case Flagged(_, _, _) => 3
    case Attempting(_, _, _) => 2
    case Failing(_) => 1
    case Releasing(_) => 1
  }

  /**
   Nothing gets stuck: in every orderly run, a core with a call or drop in progress in
   its running frame can take exactly one step of it, and each such step brings it closer
   to its end unless it is `lock` finding its lock taken.
   */
  lemma CallProceeds(s: System, ls: seq<Label>, id: CoreId)
    requires Start(s) && Runs(s, ls) && id in s.cores
    ensures var t, h := Exec(s, ls), Story(s, ls, id);
            && id in t.cores && t.cores[id].frames != [] && h != []
            && (h[|h| - 1].now.Some? <==> exists l :: OwnStep(l, id) && Step(t, l).Then?)
            && (forall l, m :: OwnStep(l, id) && Step(t, l).Then? && OwnStep(m, id) && Step(t, m).Then? ==> l == m)
            && forall l :: OwnStep(l, id) && Step(t, l).Then? ==> Progresses(t, l, id, h[|h| - 1])
  {
    StoryRemembers(s, ls, id);
    var t, h := Exec(s, ls), Story(s, ls, id);
    assert Remembers(h[|h| - 1], Top(t.cores[id]));
    NextIs(t, id);
    if h[|h| - 1].now.Some? {
      assert OwnStep(NextOf(Top(t.cores[id]).pc, id), id);
    }
    forall l | OwnStep(l, id) && Step(t, l).Then?
      ensures Progresses(t, l, id, h[|h| - 1])
    {
      StepProgresses(t, l, id, h[|h| - 1]);
    }
  }

  /** The step a frame takes next. */
  function NextOf(pc: Pc, id: CoreId): Label {
    match pc
    case Idle => Return(id)
    case Flagged(_, _, _) => Mask(id)
    case Attempting(_, _, _) => Attempt(id)
    case Failing(_) => GiveUp(id)
    case Releasing(_) => Restore(id)
  }

  lemma NextIs(t: System, id: CoreId)
    requires id in t.cores && t.cores[id].frames != []
    ensures forall l :: OwnStep(l, id) ==> (Step(t, l).Then? <==> l == NextOf(Top(t.cores[id]).pc, id))
  {
  }

  ghost predicate Progresses(t: System, l: Label, id: CoreId, p: Past)
    requires id in t.cores && t.cores[id].frames != [] && Step(t, l).Then?
  {
    var u := Step(t, l).next;
    && id in u.cores && u.cores[id].frames != []
    && (StepsLeft(Top(u.cores[id]).pc) < StepsLeft(Top(t.cores[id]).pc)
        || (l.Attempt? && !p.once && p.now.Some? && p.now.value.lock in t.locked))
  }

  lemma StepProgresses(t: System, l: Label, id: CoreId, p: Past)
    requires id in t.cores && t.cores[id].frames != [] && OwnStep(l, id) && Step(t, l).Then?
    requires Remembers(p, Top(t.cores[id]))
    ensures Progresses(t, l, id, p)
  {
  }

  /**
   What can happen to a core, in every orderly run: a frame that is in the middle of
   nothing can call `lock` and `try_lock` for any lock, drop any of its guards, and set
   the interrupt state; an interrupt arrives exactly when interrupts are enabled, and
   masks them or not; a handler that holds nothing can return, to interrupts enabled.
   */
  lemma CoreAccepts(s: System, ls: seq<Label>, id: CoreId, lock: Lock, once: bool, i: nat, masks: bool)
    requires Start(s) && Runs(s, ls) && id in s.cores
    ensures var t, h := Exec(s, ls), Story(s, ls, id);
            && id in t.cores && h != []
            && (Step(t, Begin(id, lock, once)).Then? <==> h[|h| - 1].now.None?)
            && (Step(t, Unlock(id, i)).Then? <==> h[|h| - 1].now.None? && i < |h[|h| - 1].open|)
            && Sets(t, ForceEnable(id), id, h[|h| - 1].now.None?, true)
            && Sets(t, ForceDisable(id), id, h[|h| - 1].now.None?, false)
            && Sets(t, Interrupt(id, masks), id, t.cores[id].enabled, !masks)
            && Sets(t, Return(id), id, h[|h| - 1].now.None? && h[|h| - 1].open == [] && |h| > 1, true)
  {
    StartInv(s);
    RunInv(s, ls);
    StoryRemembers(s, ls, id);
    var t, h := Exec(s, ls), Story(s, ls, id);
    assert CoreOk(t.cores[id]) && Remembers(h[|h| - 1], Top(t.cores[id]));
    CoreSets(t, id, masks);
    CoreCalls(t, id, lock, once, i);
  }

  lemma CoreCalls(t: System, id: CoreId, lock: Lock, once: bool, i: nat)
    requires id in t.cores && t.cores[id].frames != []
    ensures var f := Top(t.cores[id]);
            && (Step(t, Begin(id, lock, once)).Then? <==> f.pc.Idle?)
            && (Step(t, Unlock(id, i)).Then? <==> f.pc.Idle? && i < |f.guards|)
  {
  }

  lemma CoreSets(t: System, id: CoreId, masks: bool)
    requires id in t.cores && CoreOk(t.cores[id])
    ensures var c := t.cores[id];
            && Sets(t, ForceEnable(id), id, Top(c).pc.Idle?, true)
            && Sets(t, ForceDisable(id), id, Top(c).pc.Idle?, false)
            && Sets(t, Interrupt(id, masks), id, c.enabled, !masks)
            && Sets(t, Return(id), id, Top(c).pc.Idle? && Top(c).guards == [] && |c.frames| > 1, true)
  {
  }

  /** The step is possible exactly under the condition, and leaves the core's interrupts in the given state. */
  predicate Sets(t: System, l: Label, id: CoreId, condition: bool, enabled: bool) {
    && (Step(t, l).Then? <==> condition)
    && (Step(t, l).Then? ==> id in Step(t, l).next.cores && Step(t, l).next.cores[id].enabled == enabled)
  }

  /** Guards dropped in the reverse order of their making are dropped in order. */
  lemma LastInFirstOutIsOrderly(s: System, id: CoreId)
    requires Inv(s) && id in s.cores && GuardsOf(s.cores[id]) != []
    ensures Orderly(s, Unlock(id, |GuardsOf(s.cores[id])| - 1))
  {
    assert CoreOk(s.cores[id]);
  }

  // ---- Why the order matters ----

  /** The state after a guard has been dropped. */
  function Dropped(s: System, id: CoreId, i: nat): Outcome {
    match Step(s, Unlock(id, i))
    case Stuck => Stuck
    case Then(t) => Step(t, Restore(id))
  }

  /**
   The order is exactly what is needed: in a reachable state, dropping a guard leaves the
   core with interrupts disabled while it still holds a lock if and only if the guard
   found interrupts disabled or is the last one.
   */
  lemma DropSafeExactly(s: System, id: CoreId, i: nat)
    requires Inv(s) && id in s.cores && Top(s.cores[id]).pc.Idle? && i < |Top(s.cores[id]).guards|
    ensures Dropped(s, id, i).Then?
    ensures var c := Dropped(s, id, i).next.cores[id];
            (GuardsOf(c) != [] ==> !c.enabled) <==> LastIfOutermost(Top(s.cores[id]), i)
  {
    assert CoreOk(s.cores[id]);
  }

  /** A core that enables interrupts while it holds a lock can be interrupted by a handler that waits for it. */
  lemma HandlerDeadlocks(s: System, id: CoreId, lock: Lock) returns (t: System)
    requires id in s.cores && s.cores[id].frames != [] && s.cores[id].enabled
    requires Holds(GuardsOf(s.cores[id]), lock) && lock in s.locked
    ensures Reaches(s, [Interrupt(id, true), Begin(id, lock, false), Mask(id)], t) && Step(t, Attempt(id)) == Then(t)
    ensures id in t.cores && |t.cores[id].frames| > 1 && !t.cores[id].enabled
    ensures Top(t.cores[id]).pc.Attempting? && Top(t.cores[id]).pc.lock == lock && !Top(t.cores[id]).pc.once
    ensures FrameHolds(t.cores[id], |t.cores[id].frames| - 2, lock)
  {
    var a := Step(s, Interrupt(id, true)).next;
    var b := Step(a, Begin(id, lock, false)).next;
    t := Step(b, Mask(id)).next;
    var c := t.cores[id];
    assert c.frames[|c.frames| - 2] == Top(s.cores[id]);
    assert t.cores[id := c] == t.cores;
    assert Reaches(b, [Mask(id)], t);
    assert [Begin(id, lock, false), Mask(id)][1..] == [Mask(id)];
    assert Reaches(a, [Begin(id, lock, false), Mask(id)], t);
    assert [Interrupt(id, true), Begin(id, lock, false), Mask(id)][1..] == [Begin(id, lock, false), Mask(id)];
  }

  predicate Reaches(s: System, ls: seq<Label>, t: System)
    decreases |ls|
  {
    if ls == [] then s == t else Step(s, ls[0]).Then? && Reaches(Step(s, ls[0]).next, ls[1..], t)
  }

  lemma {:induction false} ReachesMore(s: System, ls: seq<Label>, t: System, ms: seq<Label>, u: System)
    requires Reaches(s, ls, t) && Reaches(t, ms, u)
    ensures Reaches(s, ls + ms, u)
    decreases |ls|
  {
    if ls == [] {
      assert ls + ms == ms;
    } else {
      assert (ls + ms)[0] == ls[0] && (ls + ms)[1..] == ls[1..] + ms;
      ReachesMore(Step(s, ls[0]).next, ls[1..], t, ms, u);
    }
  }

  lemma ReachesStep(s: System, ls: seq<Label>, t: System, l: Label)
    requires Reaches(s, ls, t) && Step(t, l).Then?
    ensures Reaches(s, ls + [l], Step(t, l).next)
  {
    assert [l][1..] == [];
    assert Reaches(t, [l], Step(t, l).next);
    ReachesMore(s, ls, t, [l], Step(t, l).next);
  }

  /** Core 0 takes a free lock: the steps of `lock`. */
  lemma Locks(s: System, ls: seq<Label>, t: System, lock: Lock) returns (ms: seq<Label>, u: System)
    requires Reaches(s, ls, t) && 0 in t.cores && |t.cores[0].frames| == 1 && Top(t.cores[0]).pc.Idle?
    requires lock !in t.locked
    ensures Reaches(s, ms, u) && 0 in u.cores && |u.cores[0].frames| == 1 && Top(u.cores[0]).pc.Idle?
    ensures !u.cores[0].enabled && u.locked == t.locked[lock := 0]
    ensures Top(u.cores[0]).guards == Top(t.cores[0]).guards + [Guard(lock, t.cores[0].enabled)]
  {
    u := Step(t, Begin(0, lock, false)).next;
    ReachesStep(s, ls, t, Begin(0, lock, false));
    var u2 := Step(u, Mask(0)).next;
    ReachesStep(s, ls + [Begin(0, lock, false)], u, Mask(0));
    ms := ls + [Begin(0, lock, false)] + [Mask(0)];
    u := Step(u2, Attempt(0)).next;
    ReachesStep(s, ms, u2, Attempt(0));
    ms := ms + [Attempt(0)];
  }

  /**
   The failing run: from any start whose core 0 has interrupts enabled, that core takes
   locks 0 and 1 and drops the guard of lock 0 first. It then holds lock 1 with
   interrupts enabled, is interrupted, and the handler waits for lock 1 forever.
   */
  lemma OutermostFirstDeadlocks(s: System) returns (ls: seq<Label>, t: System)
    requires Start(s) && 0 in s.cores && s.cores[0].enabled
    ensures Reaches(s, ls, t) && Step(t, Attempt(0)) == Then(t)
    ensures 0 in t.cores && |t.cores[0].frames| > 1 && !t.cores[0].enabled
    ensures Top(t.cores[0]).pc.Attempting? && Top(t.cores[0]).pc.lock == 1 && !Top(t.cores[0]).pc.once
    ensures FrameHolds(t.cores[0], |t.cores[0].frames| - 2, 1)
  {
    assert Reaches(s, [], s);
    var ms, a := Locks(s, [], s, 0);
    var ns, b := Locks(s, ms, a, 1);
    var c := Step(b, Unlock(0, 0)).next;
    ReachesStep(s, ns, b, Unlock(0, 0));
    var d := Step(c, Restore(0)).next;
    ReachesStep(s, ns + [Unlock(0, 0)], c, Restore(0));
    assert GuardsOf(d.cores[0])[0] == Guard(1, false);
    t := HandlerDeadlocks(d, 0, 1);
    ls := ns + [Unlock(0, 0)] + [Restore(0)] + [Interrupt(0, true), Begin(0, 1, false), Mask(0)];
    ReachesMore(s, ns + [Unlock(0, 0)] + [Restore(0)], d, [Interrupt(0, true), Begin(0, 1, false), Mask(0)], t);
  }
}
