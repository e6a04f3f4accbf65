/**
 Free lists and slot ownership. A ghost record of the abstract lists and of the place
 of every slot is kept in step with the machine; the invariants here tie it to the
 concrete heads and `next` cells, for every interleaving.
 */
module SlabLists {
  import opened Options
  import opened Packing
  import opened SlabMachine

  /** Where a slot is: on a free list, inside one agent's operation, or holding a live entry. */
  datatype Place = On(list: ListId) | Held(agent: Agent) | Live

  /**
   `lists` are the abstract free lists, top first; `seen` the entries that have ever been
   on the global list; `granted` and `freed` count, per index, how often the right to
   clear it was obtained and how often it was put back on a free list.
   */
  datatype Ghost = Ghost(
    lists: map<ListId, seq<Word>>,
    place: seq<Place>,
    seen: set<Word>,
    granted: multiset<Idx>,
    freed: multiset<Idx>)

  function ListOf(lists: map<ListId, seq<Word>>, id: ListId): seq<Word> {
    if id in lists then lists[id] else []
  }

  function SetList(lists: map<ListId, seq<Word>>, id: ListId, l: seq<Word>): (r: map<ListId, seq<Word>>)
    ensures forall j {:trigger ListOf(r, j)} :: ListOf(r, j) == if j == id then l else ListOf(lists, j)
  {
    lists[id := l]
  }

  function Top(l: seq<Word>): Word {
    if l == [] then Empty else l[0]
  }

  function HeadOf(s: Slab, id: ListId): Word {
    match id
    case Global => s.head
    case Local(cpu) => LocalHead(s.locals, cpu)
  }

  function Rest(l: seq<Word>): seq<Word> {
    if l == [] then [] else l[1..]
  }

  function Move(place: seq<Place>, i: nat, p: Place): seq<Place> {
    if i < |place| then place[i := p] else place
  }

  /** The ghost record after agent `a` takes a step with event `e`. */
  function Track(g: Ghost, a: Agent, e: Event): Ghost {
    match e
    case Took(id, i) =>
      g.(lists := SetList(g.lists, id, Rest(ListOf(g.lists, id))), place := Move(g.place, i, Held(a)))
    case Gave(id, entry, idx) =>
      g.(lists := SetList(g.lists, id, [entry] + ListOf(g.lists, id)),
         place := Move(g.place, idx.index, On(id)),
         seen := if id.Global? then g.seen + {entry} else g.seen,
         freed := g.freed + multiset{idx})
    case Published(idx, v) => g.(place := Move(g.place, idx.index, Live))
    case Removed(idx, clears) =>
      if clears then g.(place := Move(g.place, idx.index, Held(a)), granted := g.granted + multiset{idx}) else g
    case Released(idx, r, clears) =>
      if clears then g.(place := Move(g.place, idx.index, Held(a)), granted := g.granted + multiset{idx}) else g
    case _ => g
  }

  /** The slot an agent has taken out of circulation. */
  function Holding(pc: Pc): Option<nat> {
    if Allocating(pc) || Clearing(pc) || Pushing(pc) then Some(pc.i) else None
  }

  /** Held slots and their holders correspond one to one. */
  ghost predicate Placed(s: Slab, g: Ghost) {
    && |g.place| == |s.slots|
    && (forall a :: Holding(At(s.pcs, a)).Some? ==>
          Holding(At(s.pcs, a)).value < |g.place| && g.place[Holding(At(s.pcs, a)).value] == Held(a))
    && (forall i :: 0 <= i < |g.place| && g.place[i].Held? ==> Holding(At(s.pcs, g.place[i].agent)) == Some(i))
  }

  ghost predicate Lists(l: seq<Word>, i: nat) {
    exists k :: 0 <= k < |l| && l[k].Entry? && l[k].index == i
  }

  /** The concrete head and `next` cells of one list spell out its abstract contents. */
  ghost predicate Chain(s: Slab, g: Ghost, id: ListId)
    requires |g.place| == |s.slots|
  {
    var l := ListOf(g.lists, id);
    && HeadOf(s, id) == Top(l)
    && (forall k :: 0 <= k < |l| ==>
          && l[k].Entry? && l[k].index < |s.slots|
          && g.place[l[k].index] == On(id)
          && s.slots[l[k].index].next == Top(l[k + 1..]))
    && (forall j, k :: 0 <= j < k < |l| ==> l[j].index != l[k].index)
    && (id.Local? ==> forall k :: 0 <= k < |l| ==> l[k].tag == 0)
  }

  ghost predicate Chains(s: Slab, g: Ghost) {
    && |g.place| == |s.slots|
    && (forall id :: Chain(s, g, id))
    && (forall i :: 0 <= i < |g.place| && g.place[i].On? ==> Lists(ListOf(g.lists, g.place[i].list), i))
  }

  /** A pusher that is about to swing the head has linked its slot to the head it read. */
  ghost predicate LinkOk(s: Slab, pc: Pc) {
    && (pc.PushLoad? || pc.PushLink? || pc.PushCas? ==> pc.entry.Entry? && pc.entry.index == pc.i)
    && (pc.PushCas? ==> pc.i < |s.slots| && s.slots[pc.i].next == pc.top)
  }

  ghost predicate Linked(s: Slab) {
    forall a :: LinkOk(s, At(s.pcs, a))
  }

  /** A pop whose exchange would succeed now carries the current `next` of the top slot. */
  ghost predicate PopOk(s: Slab, pc: Pc) {
    pc.PopCas? && s.head == pc.top ==>
      pc.top.Entry? && pc.top.index < |s.slots| && pc.next == s.slots[pc.top.index].next
  }

  ghost predicate Owned(s: Slab, g: Ghost) {
    Placed(s, g) && Chains(s, g) && Linked(s)
  }

  // ---- Steps and the ownership invariant ----

  /** Steps that change neither lists nor owners. */
  lemma QuietOwned(s: Slab, g: Ghost, t: Slab, a: Agent, q: Pc)
    requires Owned(s, g)
    requires Moves(s, t, a, q) && Holding(q) == Holding(At(s.pcs, a))
    requires t.head == s.head && t.locals == s.locals && |t.slots| == |s.slots|
    requires forall i :: 0 <= i < |s.slots| ==> t.slots[i].next == s.slots[i].next
    requires LinkOk(t, q)
    ensures Owned(t, g)
  {
    forall id
      ensures Chain(t, g, id)
    {
      assert Chain(s, g, id);
    }
    forall b
      ensures LinkOk(t, At(t.pcs, b))
    {
      assert LinkOk(s, At(s.pcs, b));
    }
  }

  /** A slot changes hands without touching a list: it is published, or seized for clearing. */
  lemma MoveOwned(s: Slab, g: Ghost, t: Slab, h: Ghost, a: Agent, q: Pc, i: nat, p: Place)
    requires Owned(s, g)
    requires Moves(s, t, a, q)
    requires t.head == s.head && t.locals == s.locals && |t.slots| == |s.slots|
    requires forall j :: 0 <= j < |s.slots| ==> t.slots[j].next == s.slots[j].next
    requires i < |s.slots| && !g.place[i].On? && LinkOk(t, q)
    requires h.lists == g.lists && h.place == g.place[i := p]
    requires || (p == Live && g.place[i] == Held(a) && Holding(q).None?)
             || (p == Held(a) && g.place[i] == Live && Holding(At(s.pcs, a)).None? && Holding(q) == Some(i))
    ensures Owned(t, h)
  {
    forall id
      ensures Chain(t, h, id)
    {
      assert Chain(s, g, id);
    }
    forall b
      ensures LinkOk(t, At(t.pcs, b))
    {
      assert LinkOk(s, At(s.pcs, b));
    }
  }

  lemma ListsRest(l: seq<Word>, i: nat)
    requires Lists(l, i) && l[0].Entry? && l[0].index != i
    ensures Lists(Rest(l), i)
  {
    var k :| 0 <= k < |l| && l[k].Entry? && l[k].index == i;
    assert Rest(l)[k - 1] == l[k];
  }

  lemma ListsCons(w: Word, l: seq<Word>, i: nat)
    requires Lists(l, i)
    ensures Lists([w] + l, i)
  {
    var k :| 0 <= k < |l| && l[k].Entry? && l[k].index == i;
    assert ([w] + l)[k + 1] == l[k];
  }

  /** Dropping the top of a chain leaves a chain. */
  lemma TakeChain(s: Slab, g: Ghost, t: Slab, h: Ghost, a: Agent, id: ListId, i: nat)
    requires |g.place| == |s.slots| && Chain(s, g, id)
    requires HeadOf(s, id).Entry? && i == HeadOf(s, id).index && i < |s.slots|
    requires t.slots == s.slots && HeadOf(t, id) == s.slots[i].next
    requires ListOf(h.lists, id) == Rest(ListOf(g.lists, id)) && h.place == g.place[i := Held(a)]
    ensures Chain(t, h, id)
  {
    var l := ListOf(g.lists, id);
    var m := l[1..];
    assert Rest(l) == m;
    assert l[0 + 1..] == m;
    forall k | 0 <= k < |m|
      ensures t.slots[m[k].index].next == Top(m[k + 1..])
    {
      assert m[k] == l[k + 1];
      assert m[k + 1..] == l[k + 1 + 1..];
    }
  }

  /** The top of list `id` moves from the list to agent `a`. */
  lemma TakeChains(s: Slab, g: Ghost, t: Slab, h: Ghost, a: Agent, id: ListId, i: nat)
    requires Chains(s, g)
    requires HeadOf(s, id).Entry? && i == HeadOf(s, id).index && i < |s.slots|
    requires t.slots == s.slots
    requires forall j :: HeadOf(t, j) == if j == id then s.slots[i].next else HeadOf(s, j)
    requires h.lists == SetList(g.lists, id, Rest(ListOf(g.lists, id))) && h.place == g.place[i := Held(a)]
    ensures Chains(t, h)
  {
    assert Chain(s, g, id);
    TakeChain(s, g, t, h, a, id, i);
    forall j | j != id
      ensures Chain(t, h, j)
    {
      assert Chain(s, g, j);
    }
    forall j | 0 <= j < |h.place| && h.place[j].On?
      ensures Lists(ListOf(h.lists, h.place[j].list), j)
    {
      TakeLists(g, h, a, id, i, j);
    }
  }

  /** A slot still on a list is listed there. */
  lemma TakeLists(g: Ghost, h: Ghost, a: Agent, id: ListId, i: nat, j: nat)
    requires i < |g.place| && j < |g.place| && h.place == g.place[i := Held(a)] && h.place[j].On?
    requires h.lists == SetList(g.lists, id, Rest(ListOf(g.lists, id)))
    requires Lists(ListOf(g.lists, g.place[j].list), j)
    requires ListOf(g.lists, id) != [] && ListOf(g.lists, id)[0].Entry? && ListOf(g.lists, id)[0].index == i
    ensures Lists(ListOf(h.lists, h.place[j].list), j)
  {
    if h.place[j].list == id {
      ListsRest(ListOf(g.lists, id), j);
    }
  }

  lemma TakeOwned(s: Slab, g: Ghost, t: Slab, h: Ghost, a: Agent, q: Pc, id: ListId, i: nat)
    requires Owned(s, g)
    requires HeadOf(s, id).Entry? && i == HeadOf(s, id).index && i < |s.slots|
    requires t.slots == s.slots && Moves(s, t, a, q)
    requires Holding(At(s.pcs, a)).None? && Holding(q) == Some(i) && Allocating(q)
    requires forall j :: HeadOf(t, j) == if j == id then s.slots[i].next else HeadOf(s, j)
    requires h.lists == SetList(g.lists, id, Rest(ListOf(g.lists, id))) && h.place == g.place[i := Held(a)]
    ensures Owned(t, h)
  {
    assert Chain(s, g, id);
    TakeChains(s, g, t, h, a, id, i);
    forall b
      ensures LinkOk(t, At(t.pcs, b))
    {
      assert LinkOk(s, At(s.pcs, b));
    }
  }

  lemma ConsTail(entry: Word, l: seq<Word>, k: nat)
    requires k <= |l|
    ensures ([entry] + l)[k + 1..] == l[k..]
  {
  }

  /** The list that gets the slot. */
  lemma GiveChain(s: Slab, g: Ghost, t: Slab, h: Ghost, a: Agent, id: ListId, entry: Word)
    requires Chains(s, g)
    requires entry.Entry? && entry.index < |s.slots| && g.place[entry.index] == Held(a)
    requires id.Local? ==> entry.tag == 0
    requires |t.slots| == |s.slots|
    requires forall j :: 0 <= j < |s.slots| && j != entry.index ==> t.slots[j].next == s.slots[j].next
    requires t.slots[entry.index].next == HeadOf(s, id)
    requires forall j :: HeadOf(t, j) == if j == id then entry else HeadOf(s, j)
    requires h.lists == SetList(g.lists, id, [entry] + ListOf(g.lists, id)) && h.place == g.place[entry.index := On(id)]
    ensures |h.place| == |t.slots| && Chain(t, h, id)
  {
    var l := ListOf(g.lists, id);
    var m := [entry] + l;
    assert Chain(s, g, id);
    assert ListOf(h.lists, id) == m;
    assert forall k :: 0 < k < |m| ==> m[k] == l[k - 1];
    forall k | 0 <= k < |m|
      ensures m[k].Entry? && m[k].index < |t.slots| && h.place[m[k].index] == On(id)
      ensures t.slots[m[k].index].next == Top(m[k + 1..])
    {
      ConsTail(entry, l, k);
      if k == 0 {
        assert l[0..] == l;
      } else {
        assert l[k - 1 + 1..] == l[k..];
      }
    }
  }

  /** Agent `a` puts the slot it holds on top of list `id`. */
  lemma GiveChains(s: Slab, g: Ghost, t: Slab, h: Ghost, a: Agent, id: ListId, entry: Word)
    requires Chains(s, g)
    requires entry.Entry? && entry.index < |s.slots| && g.place[entry.index] == Held(a)
    requires id.Local? ==> entry.tag == 0
    requires |t.slots| == |s.slots|
    requires forall j :: 0 <= j < |s.slots| && j != entry.index ==> t.slots[j].next == s.slots[j].next
    requires t.slots[entry.index].next == HeadOf(s, id)
    requires forall j :: HeadOf(t, j) == if j == id then entry else HeadOf(s, j)
    requires h.lists == SetList(g.lists, id, [entry] + ListOf(g.lists, id)) && h.place == g.place[entry.index := On(id)]
    ensures Chains(t, h)
  {
    var l := ListOf(g.lists, id);
    var m := [entry] + l;
    GiveChain(s, g, t, h, a, id, entry);
    forall j | j != id
      ensures Chain(t, h, j)
    {
      assert Chain(s, g, j);
    }
    forall j | 0 <= j < |h.place| && h.place[j].On?
      ensures Lists(ListOf(h.lists, h.place[j].list), j)
    {
      if j == entry.index {
        assert m[0].Entry? && m[0].index == j;
      } else if h.place[j].list == id {
        ListsCons(entry, l, j);
      }
    }
  }

  lemma GiveOwned(s: Slab, g: Ghost, t: Slab, h: Ghost, a: Agent, q: Pc, id: ListId, entry: Word)
    requires Owned(s, g)
    requires entry.Entry? && Holding(At(s.pcs, a)) == Some(entry.index)
    requires id.Local? ==> entry.tag == 0
    requires |t.slots| == |s.slots| && Moves(s, t, a, q) && Holding(q).None?
    requires forall j :: 0 <= j < |s.slots| && j != entry.index ==> t.slots[j].next == s.slots[j].next
    requires entry.index < |s.slots| && t.slots[entry.index].next == HeadOf(s, id)
    requires forall j :: HeadOf(t, j) == if j == id then entry else HeadOf(s, j)
    requires h.lists == SetList(g.lists, id, [entry] + ListOf(g.lists, id)) && h.place == g.place[entry.index := On(id)]
    ensures Owned(t, h)
  {
    GiveChains(s, g, t, h, a, id, entry);
    forall b
      ensures LinkOk(t, At(t.pcs, b))
    {
      assert LinkOk(s, At(s.pcs, b));
      assert Holding(At(s.pcs, b)).Some? && b != a ==> Holding(At(s.pcs, b)).value != entry.index;
    }
  }

  /** A pusher writes the `next` cell of the slot it holds. */
  lemma LinkOwned(s: Slab, g: Ghost, t: Slab, a: Agent, q: Pc)
    requires Owned(s, g)
    requires At(s.pcs, a).PushLink? && Moves(s, t, a, q)
    requires var p := At(s.pcs, a); q == PushCas(p.i, p.cause, p.entry, p.top)
    requires t.head == s.head && t.locals == s.locals && |t.slots| == |s.slots|
    requires forall j :: 0 <= j < |s.slots| && j != q.i ==> t.slots[j].next == s.slots[j].next
    requires q.i < |s.slots| && t.slots[q.i].next == q.top
    ensures Owned(t, g)
  {
    assert g.place[q.i] == Held(a);
    forall id
      ensures Chain(t, g, id)
    {
      assert Chain(s, g, id);
    }
    forall b
      ensures LinkOk(t, At(t.pcs, b))
    {
      assert LinkOk(s, At(s.pcs, b));
      assert Holding(At(s.pcs, b)).Some? && b != a ==> Holding(At(s.pcs, b)).value != q.i;
    }
  }
}
