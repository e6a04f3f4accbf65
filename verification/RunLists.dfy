/**
 The list of runs of the root allocator, as a value: what splitting and coalescing do to
 it, and why the coalesced list is a canonical form of the memory it describes.
 */
module RunLists {
  import opened PageRanges

  datatype Status = Free | Allocated | Tracking | Unused

  datatype Run = Run(range: Range, status: Status)

  type Runs = seq<Run>

  // ---- What splitting and coalescing do ----

  predicate Mergeable(a: Run, b: Run) {
    a.status == b.status && End(a.range) == b.range.start
  }

  function Inserted(v: Runs, k: nat, r: Run): Runs
    requires k <= |v|
  {
    v[..k] + [r] + v[k..]
  }

  /** The first `count` pages of run `k` are allocated; what is left of it stays free after them. */
  function Carve(v: Runs, k: nat, count: nat): Runs
    requires k < |v| && count <= v[k].range.size
  {
    var taken := Run(Range(v[k].range.start, count), Allocated);
    if v[k].range.size == count then v[k := taken]
    else Inserted(v[k := v[k].(range := ShrinkLeft(v[k].range, count))], k, taken)
  }

  /** Runs `k` and `k + 1` become one. */
  function Join(v: Runs, k: nat): Runs
    requires k + 1 < |v|
  {
    v[..k] + [Run(Range(v[k].range.start, v[k].range.size + v[k + 1].range.size), v[k].status)] + v[k + 2..]
  }

  function CoalesceNext(v: Runs, k: nat): (w: Runs)
    requires k < |v|
    ensures k < |w|
  {
    if k + 1 < |v| && Mergeable(v[k], v[k + 1]) then Join(v, k) else v
  }

  function CoalescePrev(v: Runs, k: nat): Runs
    requires k < |v|
  {
    if k > 0 && Mergeable(v[k - 1], v[k]) then Join(v, k - 1) else v
  }

  function CoalesceAt(v: Runs, k: nat): Runs
    requires k < |v|
  {
    CoalescePrev(CoalesceNext(v, k), k)
  }

  function Release(v: Runs, k: nat): Runs
    requires k < |v|
  {
    CoalesceAt(v[k := v[k].(status := Free)], k)
  }

  // ---- The invariant ----

  /** Sorted by address and without overlap. */
  predicate Ordered(v: Runs) {
    forall i, j :: 0 <= i < j < |v| ==> End(v[i].range) <= v[j].range.start
  }

  /** Runs `i` and `i + 1` ought to be one. */
  predicate Loose(v: Runs, i: int) {
    0 <= i < |v| - 1 && !v[i].status.Allocated? && Mergeable(v[i], v[i + 1])
  }

  /** No two neighbours that touch have the same status, unless both are allocations. */
  ghost predicate Coalesced(v: Runs) {
    forall i :: !Loose(v, i)
  }

  predicate Solid(v: Runs) {
    forall i :: 0 <= i < |v| ==> v[i].range.size > 0
  }

  ghost predicate Canonical(v: Runs) {
    Ordered(v) && Coalesced(v) && Solid(v)
  }

  lemma InsertOrdered(v: Runs, k: nat, r: Run)
    requires Ordered(v) && k <= |v|
    requires k > 0 ==> End(v[k - 1].range) <= r.range.start
    requires k < |v| ==> End(r.range) <= v[k].range.start
    ensures Ordered(Inserted(v, k, r)) && (Solid(v) && r.range.size > 0 ==> Solid(Inserted(v, k, r)))
  {
    var w := Inserted(v, k, r);
    assert forall i :: 0 <= i < |w| ==> w[i] == if i < k then v[i] else if i == k then r else v[i - 1];
  }

  /** Putting a run in makes no loose pair but with its neighbours. */
  lemma InsertLoose(v: Runs, k: nat, r: Run, i: int)
    requires Coalesced(v) && k <= |v| && Loose(Inserted(v, k, r), i)
    ensures (i == k && k < |v| && !r.status.Allocated? && Mergeable(r, v[k]))
            || (i == k - 1 && !v[i].status.Allocated? && Mergeable(v[i], r))
  {
    assert !Loose(v, i) && !Loose(v, i - 1);
  }

  lemma CarveKeeps(v: Runs, k: nat, count: nat)
    requires Ordered(v) && Coalesced(v) && k < |v| && v[k].status.Free? && count <= v[k].range.size
    ensures Ordered(Carve(v, k, count)) && Coalesced(Carve(v, k, count))
    ensures Solid(v) && count > 0 ==> Solid(Carve(v, k, count))
  {
    var u := if v[k].range.size == count then Carve(v, k, count)
        else v[k := v[k].(range := ShrinkLeft(v[k].range, count))];
    forall i
      ensures !Loose(u, i)
    {
      assert !Loose(v, i);
    }
    if v[k].range.size != count {
      var taken := Run(Range(v[k].range.start, count), Allocated);
      InsertOrdered(u, k, taken);
      var w := Inserted(u, k, taken);
      forall i
        ensures !Loose(w, i)
      {
        if Loose(w, i) {
          InsertLoose(u, k, taken, i);
        }
      }
    }
  }

  /** The runs of a list in which `k` and `k + 1` were joined. */
  lemma JoinAt(v: Runs, k: nat)
    requires k + 1 < |v|
    ensures var w := Join(v, k);
            && |w| == |v| - 1 && w[k].status == v[k].status && w[k].range.start == v[k].range.start
            && w[k].range.size == v[k].range.size + v[k + 1].range.size
            && forall i :: 0 <= i < |w| && i != k ==> w[i] == v[if i < k then i else i + 1]
  {
  }

  lemma JoinOrdered(v: Runs, k: nat)
    requires Ordered(v) && Loose(v, k)
    ensures Ordered(Join(v, k)) && (Solid(v) ==> Solid(Join(v, k)))
  {
    JoinAt(v, k);
  }

  /** Joining two runs makes no new pair that ought to be joined. */
  lemma JoinLoose(v: Runs, k: nat, i: int)
    requires Loose(v, k)
    ensures Loose(Join(v, k), i) <==> Loose(v, if i < k then i else i + 1)
  {
    JoinAt(v, k);
  }

  /** Coalescing around run `k` repairs the list when only the pairs with `k` in them ought to be joined. */
  lemma CoalesceKeeps(v: Runs, k: nat)
    requires Ordered(v) && k < |v| && !v[k].status.Allocated?
    requires forall i :: Loose(v, i) ==> i == k || i == k - 1
    ensures Ordered(CoalesceAt(v, k)) && Coalesced(CoalesceAt(v, k)) && (Solid(v) ==> Solid(CoalesceAt(v, k)))
  {
    var w := CoalesceNext(v, k);
    if Loose(v, k) {
      JoinOrdered(v, k);
      JoinAt(v, k);
    }
    assert w[k].status == v[k].status;
    forall i | Loose(w, i)
      ensures i == k - 1
    {
      if Loose(v, k) {
        JoinLoose(v, k, i);
      }
    }
    if Loose(w, k - 1) {
      JoinOrdered(w, k - 1);
      var x := Join(w, k - 1);
      forall i
        ensures !Loose(x, i)
      {
        JoinLoose(w, k - 1, i);
      }
    }
  }

  lemma ReleaseKeeps(v: Runs, k: nat)
    requires Ordered(v) && Coalesced(v) && k < |v|
    ensures Ordered(Release(v, k)) && Coalesced(Release(v, k)) && (Solid(v) ==> Solid(Release(v, k)))
  {
    var u := v[k := v[k].(status := Free)];
    forall i | Loose(u, i)
      ensures i == k || i == k - 1
    {
      assert !Loose(v, i);
    }
    CoalesceKeeps(u, k);
  }

  // ---- The memory a list of runs describes ----

  predicate FreeAt(v: Runs, p: nat) {
    exists i :: 0 <= i < |v| && v[i].status.Free? && Holds(v[i].range, p)
  }

  predicate Covered(v: Runs, p: nat) {
    exists i :: 0 <= i < |v| && Holds(v[i].range, p)
  }

  /** `r` is an allocation or tracking memory of the list. */
  predicate Kept(v: Runs, r: Run) {
    r in v && !r.status.Free?
  }

  lemma InsertedMembers(v: Runs, k: nat, r: Run)
    requires k <= |v|
    ensures forall x :: x in Inserted(v, k, r) <==> x in v || x == r
    ensures forall p :: FreeAt(Inserted(v, k, r), p) <==> FreeAt(v, p) || (r.status.Free? && Holds(r.range, p))
    ensures forall p :: Covered(Inserted(v, k, r), p) <==> Covered(v, p) || Holds(r.range, p)
  {
    var w := Inserted(v, k, r);
    assert w[k] == r;
    assert forall i :: 0 <= i < |v| ==> v[i] == w[if i < k then i else i + 1];
    assert forall i :: 0 <= i < |w| ==> w[i] == if i < k then v[i] else if i == k then r else v[i - 1];
  }

  lemma JoinMembers(v: Runs, k: nat)
    requires Loose(v, k) && v[k].status.Free?
    ensures forall x :: Kept(Join(v, k), x) <==> Kept(v, x)
    ensures forall p :: FreeAt(Join(v, k), p) <==> FreeAt(v, p)
  {
    var w := Join(v, k);
    JoinAt(v, k);
    forall x
      ensures Kept(w, x) <==> Kept(v, x)
    {
      if Kept(v, x) {
        var i :| 0 <= i < |v| && v[i] == x;
        assert w[if i < k then i else i - 1] == x;
      }
    }
    forall p
      ensures FreeAt(w, p) <==> FreeAt(v, p)
    {
      if FreeAt(v, p) {
        var i :| 0 <= i < |v| && v[i].status.Free? && Holds(v[i].range, p);
        assert Holds(w[if i <= k then i else i - 1].range, p);
      }
      if FreeAt(w, p) {
        var i :| 0 <= i < |w| && w[i].status.Free? && Holds(w[i].range, p);
        assert Holds(v[if i < k then i else i + 1].range, p) || Holds(v[i].range, p);
      }
    }
  }

  /** Allocating takes exactly the allocated pages out of the free memory, and adds one allocation. */
  lemma CarveMembers(v: Runs, k: nat, count: nat)
    requires Ordered(v) && k < |v| && v[k].status.Free? && count <= v[k].range.size
    ensures var taken := Run(Range(v[k].range.start, count), Allocated);
            && (forall x :: Kept(Carve(v, k, count), x) <==> Kept(v, x) || x == taken)
            && (forall p :: FreeAt(Carve(v, k, count), p) <==> FreeAt(v, p) && !Holds(taken.range, p))
  {
    var taken := Run(Range(v[k].range.start, count), Allocated);
    var u := v[k := if v[k].range.size == count then taken else v[k].(range := ShrinkLeft(v[k].range, count))];
    forall p
      ensures FreeAt(u, p) <==> FreeAt(v, p) && !Holds(taken.range, p)
    {
      if FreeAt(v, p) && !Holds(taken.range, p) {
        var i :| 0 <= i < |v| && v[i].status.Free? && Holds(v[i].range, p);
        assert Holds(u[i].range, p) && u[i].status.Free?;
      }
      if FreeAt(u, p) {
        var i :| 0 <= i < |u| && u[i].status.Free? && Holds(u[i].range, p);
        assert Holds(v[i].range, p);
      }
    }
    forall x
      ensures x != taken ==> (Kept(u, x) <==> Kept(v, x))
    {
      if Kept(v, x) {
        var i :| 0 <= i < |v| && v[i] == x;
        assert u[i] == x;
      }
    }
    if v[k].range.size != count {
      InsertedMembers(u, k, taken);
    } else {
      assert u[k] == taken;
    }
  }

  lemma CoalesceMembers(v: Runs, k: nat)
    requires k < |v| && v[k].status.Free?
    ensures forall x :: Kept(CoalesceAt(v, k), x) <==> Kept(v, x)
    ensures forall p :: FreeAt(CoalesceAt(v, k), p) <==> FreeAt(v, p)
  {
    var w := CoalesceNext(v, k);
    if Loose(v, k) {
      JoinMembers(v, k);
      JoinAt(v, k);
    }
    if Loose(w, k - 1) {
      JoinMembers(w, k - 1);
    }
  }

  /** Releasing an allocation gives exactly its pages back, and removes no other run. */
  lemma ReleaseMembers(v: Runs, k: nat)
    requires Ordered(v) && k < |v| && !v[k].status.Free?
    ensures forall x :: x != v[k] ==> (Kept(Release(v, k), x) <==> Kept(v, x))
    ensures v[k].range.size > 0 ==> !Kept(Release(v, k), v[k])
    ensures forall p :: FreeAt(Release(v, k), p) <==> FreeAt(v, p) || Holds(v[k].range, p)
  {
    var u := v[k := v[k].(status := Free)];
    forall x
      ensures x != v[k] ==> (Kept(u, x) <==> Kept(v, x))
      ensures v[k].range.size > 0 ==> !Kept(u, v[k])
    {
      if Kept(v, x) && x != v[k] {
        var i :| 0 <= i < |v| && v[i] == x;
        assert u[i] == x;
      }
      if Kept(u, x) {
        var i :| 0 <= i < |u| && u[i] == x;
        assert v[i] == x;
      }
    }
    forall p
      ensures FreeAt(u, p) <==> FreeAt(v, p) || Holds(v[k].range, p)
    {
      if FreeAt(v, p) {
        var i :| 0 <= i < |v| && v[i].status.Free? && Holds(v[i].range, p);
        assert u[i] == v[i];
      }
      if Holds(v[k].range, p) {
        assert Holds(u[k].range, p);
      }
    }
    CoalesceMembers(u, k);
  }

  // ---- The coalesced list is a canonical form ----

  /** The runs of size 0, in order. */
  function Empties(v: Runs): (e: Runs)
    ensures forall r :: r in e <==> r in v && r.range.size == 0
  {
    if v == [] then [] else (if v[0].range.size == 0 then [v[0]] else []) + Empties(v[1..])
  }

  /** `r` is an allocation or tracking memory of at least one page. */
  predicate Holding(v: Runs, r: Run) {
    Kept(v, r) && r.range.size > 0
  }

  /** The list but its first run. */
  lemma TailSound(v: Runs)
    requires Ordered(v) && Coalesced(v) && v != []
    ensures Ordered(v[1..]) && Coalesced(v[1..])
    ensures forall x :: Holding(v[1..], x) <==> Holding(v, x) && x != v[0]
    ensures forall p :: FreeAt(v[1..], p) <==> FreeAt(v, p) && !(v[0].status.Free? && Holds(v[0].range, p))
  {
    forall i
      ensures !Loose(v[1..], i)
    {
      assert !Loose(v, i + 1);
    }
    forall x
      ensures Holding(v[1..], x) <==> Holding(v, x) && x != v[0]
    {
      if Holding(v, x) && x != v[0] {
        var i :| 0 <= i < |v| && v[i] == x;
        assert v[1..][i - 1] == x;
      }
    }
    forall p
      ensures FreeAt(v[1..], p) <==> FreeAt(v, p) && !(v[0].status.Free? && Holds(v[0].range, p))
    {
      if FreeAt(v, p) {
        var i :| 0 <= i < |v| && v[i].status.Free? && Holds(v[i].range, p);
        assert i > 0 ==> v[1..][i - 1] == v[i];
      }
      if FreeAt(v[1..], p) {
        var i :| 0 <= i < |v[1..]| && v[1..][i].status.Free? && Holds(v[1..][i].range, p);
        assert Holds(v[i + 1].range, p);
      }
    }
  }

  /** Two lists of the same memory: what `SameRunsExactly` asks of them. */
  ghost predicate Alike(v: Runs, w: Runs) {
    && Ordered(v) && Coalesced(v) && Ordered(w) && Coalesced(w) && Empties(v) == Empties(w)
    && (forall r :: Holding(v, r) <==> Holding(w, r)) && (forall p :: FreeAt(v, p) <==> FreeAt(w, p))
  }

  /** A list that starts with pages finds its first page in the other list. */
  lemma SameStart(v: Runs, w: Runs)
    requires Alike(v, w) && v != [] && v[0].range.size > 0
    ensures w != [] && w[0].range.start <= v[0].range.start
  {
    if v[0].status.Free? {
      assert Holds(v[0].range, v[0].range.start);
      assert FreeAt(w, v[0].range.start);
    } else {
      assert Holding(w, v[0]);
    }
  }

  /** A list that starts with an empty run has an alike one start with it too. */
  lemma SameEmptyHead(v: Runs, w: Runs)
    requires Alike(v, w) && v != [] && v[0].range.size == 0
    ensures w != [] && w[0] == v[0]
  {
    assert Empties(v)[0] == v[0];
    assert v[0] in Empties(w);
    if w[0].range.size > 0 {
      SameStart(w, v);
    }
  }

  /** The first empty run of a list that starts with pages lies after them. */
  lemma FirstEmptyAfter(w: Runs)
    requires Ordered(w) && w != [] && w[0].range.size > 0 && Empties(w) != []
    ensures Empties(w)[0].range.start >= End(w[0].range)
  {
    assert Empties(w)[0] in Empties(w);
    var i :| 0 <= i < |w| && w[i] == Empties(w)[0];
  }

  /** Where the page after a free run is free too, an empty run keeps the two apart. */
  lemma EmptyBetween(v: Runs)
    requires Ordered(v) && Coalesced(v) && v != [] && v[0].status.Free? && v[0].range.size > 0
    requires FreeAt(v, End(v[0].range))
    ensures |v| > 1 && v[1].range.size == 0 && v[1].range.start == End(v[0].range)
  {
    var e := End(v[0].range);
    var j :| 0 <= j < |v| && v[j].status.Free? && Holds(v[j].range, e);
    assert j > 0;
    assert !Loose(v, 0);
  }

  /** A free run of one list does not stick out of the other's. */
  lemma SameEnd(v: Runs, w: Runs)
    requires Alike(v, w) && v != [] && w != [] && v[0].range.size > 0 && w[0].range.size > 0
    requires v[0].status.Free? && w[0].status.Free? && v[0].range.start == w[0].range.start
    ensures End(w[0].range) <= End(v[0].range)
  {
    var e, r := End(v[0].range), w[0].range;
    assert Holds(r, e) <==> e < End(r);
    if FreeAt(v, e) {
      EmptyBetween(v);
      EmptySecond(v);
      FirstEmptyAfter(w);
    }
  }

  lemma EmptySecond(v: Runs)
    requires |v| > 1 && v[0].range.size > 0 && v[1].range.size == 0
    ensures Empties(v) != [] && Empties(v)[0] == v[1]
  {
    assert Empties(v) == Empties(v[1..]);
    assert v[1..][0] == v[1];
  }

  /** The head of a list that keeps `r` starting where it does is `r`. */
  lemma HeadKept(w: Runs, r: Run)
    requires Ordered(w) && w != [] && w[0].range.size > 0 && r in w && r.range.size > 0
    requires r.range.start == w[0].range.start
    ensures w[0] == r
  {
  }

  lemma SameHead(v: Runs, w: Runs)
    requires Alike(v, w) && v != []
    ensures w != [] && w[0] == v[0]
  {
    if v[0].range.size == 0 {
      SameEmptyHead(v, w);
    } else {
      SameStart(v, w);
      if w[0].range.size == 0 {
        SameEmptyHead(w, v);
      } else {
        SameStart(w, v);
        if !v[0].status.Free? {
          assert Holding(w, v[0]);
          HeadKept(w, v[0]);
        } else if !w[0].status.Free? {
          assert Holding(v, w[0]);
          HeadKept(v, w[0]);
        } else {
          SameEnd(v, w);
          SameEnd(w, v);
        }
      }
    }
  }

  lemma AlikeTails(v: Runs, w: Runs)
    requires Alike(v, w) && v != [] && w != [] && w[0] == v[0]
    ensures Alike(v[1..], w[1..])
  {
    TailSound(v);
    TailSound(w);
    forall r
      ensures Holding(v[1..], r) <==> Holding(w[1..], r)
    {
      assert Holding(v, r) <==> Holding(w, r);
    }
    if v[0].range.size == 0 {
      assert Empties(v)[1..] == Empties(v[1..]);
      assert Empties(w)[1..] == Empties(w[1..]);
    } else {
      assert Empties(v) == Empties(v[1..]);
      assert Empties(w) == Empties(w[1..]);
    }
  }

  /**
   The list of runs is determined by the memory it describes: two coalesced lists with
   the same non-empty allocations and tracking memory, the same free pages and the same
   empty runs are equal.
   */
  lemma {:induction false} SameMemorySameRuns(v: Runs, w: Runs)
    requires Alike(v, w)
    ensures v == w
  {
    if v == [] {
      if w != [] {
        SameHead(w, v);
      }
    } else {
      SameHead(v, w);
      AlikeTails(v, w);
      SameMemorySameRuns(v[1..], w[1..]);
    }
  }

  lemma SolidHasNoEmpties(v: Runs)
    ensures Solid(v) <==> Empties(v) == []
  {
    if Empties(v) != [] {
      assert Empties(v)[0] in Empties(v);
    }
    forall i | 0 <= i < |v| && v[i].range.size == 0
      ensures Empties(v) != []
    {
      assert v[i] in Empties(v);
    }
  }

  /** Deallocating what was just allocated, even no pages, restores the list exactly. */
  lemma ReleaseUndoesCarve(v: Runs, k: nat, count: nat)
    requires Coalesced(v) && k < |v| && v[k].status.Free? && count <= v[k].range.size
    ensures Carve(v, k, count)[k] == Run(Range(v[k].range.start, count), Allocated)
    ensures Release(Carve(v, k, count), k) == v
  {
    var w := Carve(v, k, count);
    var u := w[k := w[k].(status := Free)];
    assert !Loose(v, k) && !Loose(v, k - 1);
    if v[k].range.size == count {
      assert u == v;
    } else {
      assert Join(u, k) == v;
    }
    assert CoalesceNext(u, k) == v;
  }

  // ---- First fit ----

  /** The `count` pages from `p` on are free. */
  predicate FreeStretch(v: Runs, p: nat, count: nat) {
    forall q :: p <= q < p + count ==> FreeAt(v, q)
  }

  predicate InOneRun(v: Runs, p: nat, count: nat) {
    exists k :: 0 <= k < |v| && v[k].status.Free? && v[k].range.start <= p && p + count <= End(v[k].range)
  }

  /** No two free runs with pages touch. */
  predicate Unsplit(v: Runs) {
    forall i, j :: 0 <= i < j < |v| && FreePages(v[i]) && FreePages(v[j]) ==> End(v[i].range) != v[j].range.start
  }

  predicate FreePages(r: Run) {
    r.status.Free? && r.range.size > 0
  }

  lemma CanonicalUnsplit(v: Runs)
    requires Canonical(v)
    ensures Unsplit(v)
  {
    forall i, j | 0 <= i < j < |v| && FreePages(v[i]) && FreePages(v[j])
      ensures End(v[i].range) != v[j].range.start
    {
      assert !Loose(v, i);
      if j > i + 1 {
        assert End(v[i].range) <= v[i + 1].range.start < End(v[i + 1].range) <= v[j].range.start;
      }
    }
  }

  /** The page after a free run is not free. */
  lemma FreeRunEnds(v: Runs, i: nat)
    requires Ordered(v) && Unsplit(v) && i < |v| && FreePages(v[i])
    ensures !FreeAt(v, End(v[i].range))
  {
    forall j | 0 <= j < |v| && v[j].status.Free?
      ensures !Holds(v[j].range, End(v[i].range))
    {
      assert j > i && FreePages(v[j]) ==> End(v[i].range) < v[j].range.start;
    }
  }

  /** Consecutive free pages lie in one free run. */
  lemma StretchInRun(v: Runs, p: nat, count: nat)
    requires Ordered(v) && Unsplit(v) && count > 0 && FreeStretch(v, p, count)
    ensures InOneRun(v, p, count)
  {
    assert FreeAt(v, p);
    var k :| 0 <= k < |v| && v[k].status.Free? && Holds(v[k].range, p);
    FreeRunEnds(v, k);
  }

  predicate Fits(v: Runs, k: nat, count: nat) {
    k < |v| && v[k].status.Free? && count <= v[k].range.size
  }

  lemma RunIsStretch(v: Runs, k: nat, count: nat)
    requires Fits(v, k, count)
    ensures FreeStretch(v, v[k].range.start, count)
  {
    forall q | v[k].range.start <= q < v[k].range.start + count
      ensures FreeAt(v, q)
    {
      assert Holds(v[k].range, q);
    }
  }

  /** The page up to which pages are free from `e` on, following the runs from index `i` that touch. */
  function Reach(v: Runs, i: nat, e: nat): (r: nat)
    requires i <= |v|
    ensures e <= r
    decreases |v| - i
  {
    if i == |v| then e
    else if v[i].range.size == 0 then Reach(v, i + 1, e)
    else if v[i].status.Free? && v[i].range.start == e then Reach(v, i + 1, End(v[i].range))
    else e
  }

  /** The number of consecutive free pages from the start of run `i` on. */
  function Longest(v: Runs, i: nat): nat
    requires i < |v|
  {
    Reach(v, i, v[i].range.start) - v[i].range.start
  }

  lemma {:induction false} ReachIsFree(v: Runs, i: nat, e: nat, q: nat)
    requires i <= |v| && e <= q < Reach(v, i, e)
    ensures FreeAt(v, q)
    decreases |v| - i
  {
    if v[i].range.size > 0 && q < End(v[i].range) {
      assert Holds(v[i].range, q);
    } else {
      ReachIsFree(v, i + 1, if v[i].range.size == 0 then e else End(v[i].range), q);
    }
  }

  /** The first page not reached is not free. */
  lemma {:induction false} ReachStops(v: Runs, i: nat, e: nat)
    requires Ordered(v) && i <= |v|
    requires forall k :: 0 <= k < i ==> End(v[k].range) <= e
    requires forall k :: i <= k < |v| && v[k].range.size > 0 ==> e <= v[k].range.start
    ensures !FreeAt(v, Reach(v, i, e))
    decreases |v| - i
  {
    if i < |v| {
      if v[i].range.size == 0 {
        if v[i].range.start <= e {
          ReachStops(v, i + 1, e);
        } else {
          ReachStays(v, i + 1, e);
        }
      } else if v[i].status.Free? && v[i].range.start == e {
        ReachStops(v, i + 1, End(v[i].range));
      }
    }
  }

  lemma {:induction false} ReachStays(v: Runs, i: nat, e: nat)
    requires i <= |v| && forall k :: i <= k < |v| ==> e < v[k].range.start
    ensures Reach(v, i, e) == e
    decreases |v| - i
  {
    if i < |v| {
      ReachStays(v, i + 1, e);
    }
  }

  /** Some run starts a long enough row of touching free runs. */
  ghost predicate RowFits(v: Runs, count: nat) {
    exists i :: 0 <= i < |v| && FreePages(v[i]) && count <= Longest(v, i)
  }

  /** There are `count` consecutive free pages exactly when touching free runs add up to them. */
  lemma StretchExactly(v: Runs, count: nat)
    requires Ordered(v) && count > 0
    ensures (exists p: nat :: FreeStretch(v, p, count)) <==> RowFits(v, count)
  {
    if p: nat :| FreeStretch(v, p, count) {
      assert FreeAt(v, p);
      var k :| 0 <= k < |v| && v[k].status.Free? && Holds(v[k].range, p);
      ReachStops(v, k, v[k].range.start);
      assert Reach(v, k, v[k].range.start) >= End(v[k].range);
      assert FreePages(v[k]) && count <= Longest(v, k);
    }
    if RowFits(v, count) {
      var i :| 0 <= i < |v| && FreePages(v[i]) && count <= Longest(v, i);
      var p := v[i].range.start;
      forall q | p <= q < p + count
        ensures FreeAt(v, q)
      {
        ReachIsFree(v, i, p, q);
      }
      assert FreeStretch(v, p, count);
    }
  }

  /** Looking at whole runs finds `count` consecutive free pages whenever there are any, for every count. */
  ghost predicate SearchComplete(v: Runs) {
    forall count: nat :: count > 0 ==> SearchFinds(v, count)
  }

  ghost predicate SearchFinds(v: Runs, count: nat) {
    (exists k: nat :: Fits(v, k, count)) <==> (exists p: nat :: FreeStretch(v, p, count))
  }

  /** For every row of touching free runs there is a single free run at least as long. */
  ghost predicate RowsInRuns(v: Runs) {
    forall i :: 0 <= i < |v| && FreePages(v[i]) ==> exists k: nat :: Fits(v, k, Longest(v, i))
  }

  lemma FitIsStretch(v: Runs, count: nat)
    ensures (exists k: nat :: Fits(v, k, count)) ==> exists p: nat :: FreeStretch(v, p, count)
  {
    if k: nat :| Fits(v, k, count) {
      RunIsStretch(v, k, count);
    }
  }

  /**
   Exactly when looking at whole runs is enough: the search finds all there is, whatever
   the count, if and only if every row of touching free runs is matched by a single run.
   */
  lemma SearchCompleteExactly(v: Runs)
    requires Ordered(v)
    ensures SearchComplete(v) <==> RowsInRuns(v)
  {
    if SearchComplete(v) {
      forall i | 0 <= i < |v| && FreePages(v[i])
        ensures exists k: nat :: Fits(v, k, Longest(v, i))
      {
        assert Reach(v, i, v[i].range.start) >= End(v[i].range);
        StretchExactly(v, Longest(v, i));
        assert SearchFinds(v, Longest(v, i));
      }
    }
    if RowsInRuns(v) {
      forall count: nat | count > 0
        ensures SearchFinds(v, count)
      {
        FitIsStretch(v, count);
        StretchExactly(v, count);
        if RowFits(v, count) {
          var i :| 0 <= i < |v| && FreePages(v[i]) && count <= Longest(v, i);
          var k: nat :| Fits(v, k, Longest(v, i));
          assert Fits(v, k, count);
        }
      }
    }
  }

  /** In particular, if no two free runs with pages touch. */
  lemma UnsplitComplete(v: Runs)
    requires Ordered(v) && Unsplit(v)
    ensures SearchComplete(v)
  {
    forall count: nat | count > 0
      ensures SearchFinds(v, count)
    {
      FitIsStretch(v, count);
      if p: nat :| FreeStretch(v, p, count) {
        StretchInRun(v, p, count);
        var k :| 0 <= k < |v| && v[k].status.Free? && v[k].range.start <= p && p + count <= End(v[k].range);
        assert Fits(v, k, count);
      }
    }
  }

  /** Touching free runs need not be in the way: here a longer run stands apart. */
  lemma SplitYetComplete(v: Runs)
    requires |v| == 4 && v[0] == Run(Range(0, 4), Free) && v[1] == Run(Range(4, 0), Allocated)
    requires v[2] == Run(Range(4, 6), Free) && v[3] == Run(Range(20, 20), Free)
    ensures Ordered(v) && Coalesced(v) && !Unsplit(v) && SearchComplete(v)
  {
    assert FreePages(v[0]) && FreePages(v[2]) && End(v[0].range) == v[2].range.start;
    assert Longest(v, 2) == 6 by {
      assert Reach(v, 3, 10) == 10;
    }
    assert Longest(v, 0) == 10 by {
      assert Reach(v, 2, 4) == 10 && Reach(v, 1, 4) == 10;
    }
    assert Longest(v, 3) == 20 by {
      assert Reach(v, 4, 40) == 40;
    }
    assert Fits(v, 3, 6) && Fits(v, 3, 10) && Fits(v, 3, 20);
    SearchCompleteExactly(v);
  }

  ghost predicate StretchesInRuns(v: Runs) {
    forall p: nat, count: nat :: count > 0 && FreeStretch(v, p, count) ==> InOneRun(v, p, count)
  }

  /** Two free runs that touch are a stretch that lies in neither. */
  lemma SplitStretch(v: Runs, i: nat, j: nat)
    requires Ordered(v) && i < j < |v| && FreePages(v[i]) && FreePages(v[j]) && End(v[i].range) == v[j].range.start
    ensures FreeStretch(v, v[i].range.start, v[i].range.size + v[j].range.size)
    ensures !InOneRun(v, v[i].range.start, v[i].range.size + v[j].range.size)
  {
    var p, count := v[i].range.start, v[i].range.size + v[j].range.size;
    forall q | p <= q < p + count
      ensures FreeAt(v, q)
    {
      assert Holds(v[i].range, q) || Holds(v[j].range, q);
    }
    forall k | 0 <= k < |v| && v[k].status.Free? && v[k].range.start <= p
      ensures End(v[k].range) < p + count
    {
    }
  }

  /**
   All consecutive free pages lie in one run if and only if no two free runs with pages
   touch.
   */
  lemma FirstFitExactly(v: Runs)
    requires Ordered(v)
    ensures StretchesInRuns(v) <==> Unsplit(v)
  {
    if Unsplit(v) {
      forall p: nat, count: nat | count > 0 && FreeStretch(v, p, count)
        ensures InOneRun(v, p, count)
      {
        StretchInRun(v, p, count);
      }
    } else {
      var i, j :| 0 <= i < j < |v| && FreePages(v[i]) && FreePages(v[j]) && End(v[i].range) == v[j].range.start;
      SplitStretch(v, i, j);
    }
  }

  // ---- How many runs there can be ----

  /** The number of allocations and tracking runs. */
  function KeptCount(v: Runs): nat {
    if v == [] then 0 else (if v[0].status.Free? then 0 else 1) + KeptCount(v[1..])
  }

  /** `e` is the page after the last one of a contiguous segment of memory. */
  predicate SegmentEnd(v: Runs, e: nat) {
    e > 0 && Covered(v, e - 1) && !Covered(v, e)
  }

  /** Where the contiguous segments of memory end. */
  function SegmentEnds(v: Runs): (s: set<nat>)
    ensures forall e :: e in s ==> !Covered(v, e)
  {
    set i | 0 <= i < |v| && !Covered(v, End(v[i].range)) :: End(v[i].range)
  }

  /** An empty run lies at a page of the memory. */
  predicate EmptiesCovered(v: Runs) {
    forall i :: 0 <= i < |v| && v[i].range.size == 0 ==> Covered(v, v[i].range.start)
  }

  lemma SegmentEndsAre(v: Runs)
    requires Ordered(v) && EmptiesCovered(v)
    ensures forall e: nat :: e in SegmentEnds(v) <==> SegmentEnd(v, e)
  {
    forall e: nat
      ensures e in SegmentEnds(v) <==> SegmentEnd(v, e)
    {
      if SegmentEnd(v, e) {
        var i :| 0 <= i < |v| && Holds(v[i].range, e - 1);
        assert !Holds(v[i].range, e);
        assert e == End(v[i].range);
      }
      if e in SegmentEnds(v) {
        var i :| 0 <= i < |v| && !Covered(v, End(v[i].range)) && e == End(v[i].range);
        assert v[i].range.size > 0 && Holds(v[i].range, e - 1);
      }
    }
  }

  /** The first run adds a segment end when nothing follows it directly. */
  lemma TailSegments(v: Runs)
    requires Ordered(v) && Coalesced(v) && v != []
    ensures SegmentEnds(v[1..]) <= SegmentEnds(v)
    ensures |v| == 1 || End(v[0].range) < v[1].range.start ==>
              End(v[0].range) in SegmentEnds(v) && End(v[0].range) !in SegmentEnds(v[1..])
  {
    var t := v[1..];
    assert forall i :: 0 <= i < |t| ==> t[i] == v[i + 1];
    forall i | 0 <= i < |t|
      ensures Covered(v, End(t[i].range)) ==> Covered(t, End(t[i].range))
    {
      TailCovers(v, End(t[i].range));
    }
    forall e | e in SegmentEnds(t)
      ensures e in SegmentEnds(v)
    {
      var i :| 0 <= i < |t| && !Covered(t, End(t[i].range)) && e == End(t[i].range);
      assert v[i + 1] == t[i];
    }
    if |v| == 1 || End(v[0].range) < v[1].range.start {
      assert !Covered(v, End(v[0].range));
    }
  }

  /** A page past the first run is covered by a later one. */
  lemma TailCovers(v: Runs, p: nat)
    requires v != [] && End(v[0].range) <= p
    ensures Covered(v, p) ==> Covered(v[1..], p)
  {
    if Covered(v, p) {
      var i :| 0 <= i < |v| && Holds(v[i].range, p);
      assert v[1..][i - 1] == v[i];
    }
  }

  /**
   The number of runs is bounded by the allocations and the tracking runs: every free
   run is followed by one of them, or by the end of a segment of memory.
   */
  lemma {:induction false} RunBound(v: Runs)
    requires Ordered(v) && Coalesced(v)
    ensures |v| + (if v != [] && !v[0].status.Free? then 1 else 0) <= 2 * KeptCount(v) + |SegmentEnds(v)|
  {
    if v != [] {
      TailSound(v);
      TailSegments(v);
      RunBound(v[1..]);
      var s, t := SegmentEnds(v), SegmentEnds(v[1..]);
      SubsetSize(t, s);
      assert !Loose(v, 0);
      if |v| == 1 || End(v[0].range) < v[1].range.start {
        SubsetSize(t + {End(v[0].range)}, s);
      } else if v[0].status.Free? {
        assert !v[1].status.Free?;
      }
    }
  }

  lemma {:induction false} SubsetSize(s: set<nat>, t: set<nat>)
    requires s <= t
    ensures |s| <= |t|
    decreases |s|
  {
    if x :| x in s {
      SubsetSize(s - {x}, t - {x});
    }
  }
}
