/**
 What holds of the root allocator's list of runs after any sequence of allocations and
 deallocations, whichever fitting run each allocation takes.
 */
module AllocatorRuns {
  import opened PageRanges
  import opened RunLists

  /** An allocation of `count` pages out of run `at`, or a deallocation of `range`. */
  datatype Request = Allocate(at: nat, count: nat) | Deallocate(range: Range)

  /** The first run of this very range, or the length of the list. */
  function Find(v: Runs, range: Range): (k: nat)
    ensures k <= |v| && (k < |v| ==> v[k].range == range)
    ensures forall i :: 0 <= i < k ==> v[i].range != range
  {
    if v == [] || v[0].range == range then 0 else 1 + Find(v[1..], range)
  }

  /** Whether `range` is an allocation that can be given back. */
  predicate Releasable(v: Runs, range: Range) {
    Find(v, range) < |v| && v[Find(v, range)].status.Allocated?
  }

  function Deallocated(v: Runs, range: Range): Runs {
    if Releasable(v, range) then Release(v, Find(v, range)) else v
  }

  predicate Possible(v: Runs, q: Request) {
    q.Allocate? ==> Fits(v, q.at, q.count)
  }

  function Answer(v: Runs, q: Request): Runs
    requires Possible(v, q)
  {
    match q
    case Allocate(at, count) => Carve(v, at, count)
    case Deallocate(range) => Deallocated(v, range)
  }

  predicate AllPossible(v: Runs, qs: seq<Request>)
    decreases |qs|
  {
    qs == [] || (Possible(v, qs[0]) && AllPossible(Answer(v, qs[0]), qs[1..]))
  }

  function Answered(v: Runs, qs: seq<Request>): Runs
    requires AllPossible(v, qs)
    decreases |qs|
  {
    if qs == [] then v else Answered(Answer(v, qs[0]), qs[1..])
  }

  // ---- One request ----

  /** Sorted, without overlap, and coalesced. */
  ghost predicate Sound(v: Runs) {
    Ordered(v) && Coalesced(v)
  }

  /** The first run of this very range is not an allocation, and a later one is. */
  predicate Hidden(v: Runs, range: Range) {
    exists i, j :: 0 <= i < j < |v| && v[i].range == range && v[j] == Run(range, Allocated)
                   && !v[i].status.Allocated? && forall k :: 0 <= k < i ==> v[k].range != range
  }

  /** A range is releasable exactly when it is a live allocation that no run before it hides. */
  lemma ReleasableExactly(v: Runs, range: Range)
    ensures Releasable(v, range) <==> Kept(v, Run(range, Allocated)) && !Hidden(v, range)
  {
    var f := Find(v, range);
    if Kept(v, Run(range, Allocated)) {
      var i :| 0 <= i < |v| && v[i] == Run(range, Allocated);
      assert f <= i;
      if !v[f].status.Allocated? {
        assert f < i && Hidden(v, range);
      }
    }
  }

  /** Only an empty allocation can be hidden, and only by an empty run. */
  lemma ReleasableIsLive(v: Runs, range: Range)
    requires Ordered(v) && (range.size > 0 || Solid(v))
    ensures Releasable(v, range) <==> Kept(v, Run(range, Allocated))
  {
    ReleasableExactly(v, range);
  }

  lemma CoveredIs(v: Runs, p: nat)
    ensures Covered(v, p) <==> FreeAt(v, p) || exists r :: Kept(v, r) && Holds(r.range, p)
  {
    if Covered(v, p) {
      var i :| 0 <= i < |v| && Holds(v[i].range, p);
      assert v[i].status.Free? || Kept(v, v[i]);
    }
  }

  /** What an allocation takes was free, and so no part of any allocation or of tracking memory. */
  lemma AllocationWasFree(v: Runs, k: nat, count: nat, p: nat)
    requires Ordered(v) && Fits(v, k, count) && Holds(Range(v[k].range.start, count), p)
    ensures FreeAt(v, p) && forall r :: Kept(v, r) ==> !Holds(r.range, p)
  {
    assert Holds(v[k].range, p);
  }

  /** The memory after a request: an allocation moves its pages out of the free memory, a deallocation back into it. */
  lemma AnswerMembers(v: Runs, q: Request)
    requires Ordered(v) && Possible(v, q)
    ensures var w := Answer(v, q);
            if q.Allocate? then
              var taken := Range(v[q.at].range.start, q.count);
              && (forall r :: Kept(w, r) <==> Kept(v, r) || r == Run(taken, Allocated))
              && (forall p :: FreeAt(w, p) <==> FreeAt(v, p) && !Holds(taken, p))
            else if Releasable(v, q.range) then
              && Kept(v, Run(q.range, Allocated))
              && (forall r :: r != Run(q.range, Allocated) ==> (Kept(w, r) <==> Kept(v, r)))
              && (q.range.size > 0 ==> !Kept(w, Run(q.range, Allocated)))
              && (forall p :: FreeAt(w, p) <==> FreeAt(v, p) || Holds(q.range, p))
            else w == v
  {
    match q
    case Allocate(at, count) => CarveMembers(v, at, count);
    case Deallocate(range) =>
      if Releasable(v, range) {
        ReleaseMembers(v, Find(v, range));
      }
  }

  lemma AnswerKeeps(v: Runs, q: Request)
    requires Sound(v) && Possible(v, q)
    ensures Sound(Answer(v, q))
    ensures Solid(v) && (q.Allocate? ==> q.count > 0) ==> Solid(Answer(v, q))
    ensures forall r: Run :: r.status.Tracking? ==> (Kept(Answer(v, q), r) <==> Kept(v, r))
    ensures forall p :: Covered(Answer(v, q), p) <==> Covered(v, p)
  {
    AnswerMembers(v, q);
    if q.Allocate? {
      CarveKeeps(v, q.at, q.count);
    } else if Releasable(v, q.range) {
      ReleaseKeeps(v, Find(v, q.range));
    }
    forall p
      ensures Covered(Answer(v, q), p) <==> Covered(v, p)
    {
      AnswerCovered(v, q, p);
    }
  }

  lemma AnswerCovered(v: Runs, q: Request, p: nat)
    requires Sound(v) && Possible(v, q)
    ensures Covered(Answer(v, q), p) <==> Covered(v, p)
  {
    var w := Answer(v, q);
    AnswerMembers(v, q);
    CoveredIs(v, p);
    CoveredIs(w, p);
    if q.Allocate? {
      var taken := Range(v[q.at].range.start, q.count);
      assert Kept(w, Run(taken, Allocated));
      if Holds(taken, p) {
        assert Holds(v[q.at].range, p);
      }
    } else if Releasable(v, q.range) {
      assert Kept(v, Run(q.range, Allocated));
    }
  }

  // ---- Empty runs ----

  /** Page `p` is part of the memory and holds no tracking data. */
  ghost predicate Workable(v: Runs, p: nat) {
    Covered(v, p) && forall r :: Kept(v, r) && r.status.Tracking? ==> !Holds(r.range, p)
  }

  ghost predicate Anchor(v: Runs, r: Run) {
    r.range.size == 0 ==> !r.status.Tracking? && Workable(v, r.range.start)
  }

  /** An empty run, left by an allocation of no pages, lies at a page that can be allocated. */
  ghost predicate Anchored(v: Runs) {
    forall r :: r in v ==> Anchor(v, r)
  }

  lemma SolidAnchored(v: Runs)
    requires Solid(v)
    ensures Anchored(v)
  {
  }

  lemma AnchoredCovered(v: Runs)
    requires Anchored(v)
    ensures EmptiesCovered(v)
  {
    forall i | 0 <= i < |v| && v[i].range.size == 0
      ensures Covered(v, v[i].range.start)
    {
      assert Anchor(v, v[i]);
    }
  }

  /** The first page of a free run can be allocated. */
  lemma FreeIsWorkable(v: Runs, k: nat)
    requires Ordered(v) && k < |v| && v[k].status.Free? && v[k].range.size > 0
    ensures Workable(v, v[k].range.start)
  {
    assert Holds(v[k].range, v[k].range.start);
  }

  /** Every empty run of a joined list starts where a run of the list it was joined from did. */
  lemma JoinEmpties(v: Runs, k: nat, r: Run)
    requires k + 1 < |v| && v[k].status == v[k + 1].status && r in Join(v, k) && r.range.size == 0
    ensures r in v
  {
    JoinAt(v, k);
    var i :| 0 <= i < |Join(v, k)| && Join(v, k)[i] == r;
    assert r == v[if i <= k then i else i + 1];
  }

  lemma ReleaseEmpties(v: Runs, k: nat, r: Run)
    requires k < |v| && r in Release(v, k) && r.range.size == 0
    ensures r in v || (r == v[k].(status := Free) && v[k].range.size == 0)
  {
    var u := v[k := v[k].(status := Free)];
    var w := CoalesceNext(u, k);
    if k > 0 && Mergeable(w[k - 1], w[k]) {
      JoinEmpties(w, k - 1, r);
    }
    if k + 1 < |u| && Mergeable(u[k], u[k + 1]) {
      JoinEmpties(u, k, r);
    }
    var i :| 0 <= i < |u| && u[i] == r;
  }

  lemma CarveEmpties(v: Runs, k: nat, count: nat, r: Run)
    requires Fits(v, k, count) && r in Carve(v, k, count) && r.range.size == 0
    ensures r in v || r == Run(Range(v[k].range.start, 0), Allocated)
  {
    var taken := Run(Range(v[k].range.start, count), Allocated);
    if v[k].range.size == count {
      var i :| 0 <= i < |v| && Carve(v, k, count)[i] == r;
    } else {
      var u := v[k := v[k].(range := ShrinkLeft(v[k].range, count))];
      InsertedMembers(u, k, taken);
      if r != taken {
        var i :| 0 <= i < |u| && u[i] == r;
      }
    }
  }

  lemma AnswerAnchored(v: Runs, q: Request)
    requires Sound(v) && Anchored(v) && Possible(v, q)
    ensures Anchored(Answer(v, q))
  {
    var w := Answer(v, q);
    AnswerKeeps(v, q);
    forall r | r in w
      ensures Anchor(w, r)
    {
      if r.range.size == 0 {
        if q.Allocate? {
          CarveEmpties(v, q.at, q.count, r);
          if r !in v {
            if v[q.at].range.size > 0 {
              FreeIsWorkable(v, q.at);
            } else {
              assert Anchor(v, v[q.at]);
            }
          } else {
            assert Anchor(v, r);
          }
        } else {
          if Releasable(v, q.range) {
            ReleaseEmpties(v, Find(v, q.range), r);
            assert Anchor(v, v[Find(v, q.range)]);
          }
          assert r in v ==> Anchor(v, r);
        }
      }
    }
  }

  // ---- Sequences of requests ----

  /** No allocation asks for 0 pages. */
  predicate AllPositive(qs: seq<Request>) {
    forall i :: 0 <= i < |qs| && qs[i].Allocate? ==> qs[i].count > 0
  }

  /**
   The allocator's invariant: after any sequence of requests the list is sorted, without
   overlap and coalesced, the tracking memory is untouched, the pages covered are the
   same ones, and the number of runs is bounded by the live allocations, the tracking
   runs and the memory's segments. Unless some allocation asked for 0 pages, no run is
   empty, and looking at whole runs finds every stretch of free pages.
   */
  lemma {:induction false} RequestsKeep(v: Runs, qs: seq<Request>)
    requires Sound(v) && Anchored(v) && AllPossible(v, qs)
    ensures var w := Answered(v, qs);
            && Sound(w) && Anchored(w)
            && (forall r: Run :: r.status.Tracking? ==> (Kept(w, r) <==> Kept(v, r)))
            && (forall p :: Covered(w, p) <==> Covered(v, p))
            && SegmentEnds(w) == SegmentEnds(v)
            && |w| <= 2 * KeptCount(w) + |SegmentEnds(v)|
            && (Solid(v) && AllPositive(qs) ==> Solid(w) && Unsplit(w) && SearchComplete(w))
    decreases |qs|
  {
    if qs == [] {
      RunBound(v);
      if Solid(v) {
        CanonicalUnsplit(v);
        UnsplitComplete(v);
      }
    } else {
      var u := Answer(v, qs[0]);
      AnswerKeeps(v, qs[0]);
      AnswerAnchored(v, qs[0]);
      assert AllPositive(qs) ==> AllPositive(qs[1..]) && (qs[0].Allocate? ==> qs[0].count > 0);
      RequestsKeep(u, qs[1..]);
      SameSegments(u, v);
    }
  }

  lemma SameSegments(u: Runs, v: Runs)
    requires Ordered(u) && Anchored(u) && Ordered(v) && Anchored(v) && forall p :: Covered(u, p) <==> Covered(v, p)
    ensures SegmentEnds(u) == SegmentEnds(v)
  {
    AnchoredCovered(u);
    AnchoredCovered(v);
    SegmentEndsAre(u);
    SegmentEndsAre(v);
    assert forall e: nat :: SegmentEnd(u, e) <==> SegmentEnd(v, e);
  }

  /** The list holds runs of free memory, allocations and tracking memory only. */
  predicate Classified(v: Runs) {
    forall i :: 0 <= i < |v| ==> !v[i].status.Unused?
  }

  lemma {:induction false} RequestsClassified(v: Runs, qs: seq<Request>)
    requires Sound(v) && Classified(v) && AllPossible(v, qs)
    ensures Classified(Answered(v, qs))
    decreases |qs|
  {
    if qs != [] {
      var u := Answer(v, qs[0]);
      AnswerKeeps(v, qs[0]);
      AnswerMembers(v, qs[0]);
      forall i | 0 <= i < |u|
        ensures !u[i].status.Unused?
      {
        assert u[i].status.Unused? ==> Kept(u, u[i]) && Kept(v, u[i]);
      }
      RequestsClassified(u, qs[1..]);
    }
  }

  /** The non-empty allocations of both lists are the same. */
  ghost predicate SameLive(a: Runs, b: Runs) {
    forall r: Range :: Holding(a, Run(r, Allocated)) <==> Holding(b, Run(r, Allocated))
  }

  /**
   The order of requests does not matter: two sequences of requests from one list that
   leave the same allocations live leave equal lists, exactly when they leave the same
   empty runs.
   */
  lemma SameLiveSameRuns(v: Runs, qs: seq<Request>, rs: seq<Request>)
    requires Sound(v) && Anchored(v) && Classified(v) && AllPossible(v, qs) && AllPossible(v, rs)
    requires SameLive(Answered(v, qs), Answered(v, rs))
    ensures Answered(v, qs) == Answered(v, rs) <==> Empties(Answered(v, qs)) == Empties(Answered(v, rs))
  {
    var a, b := Answered(v, qs), Answered(v, rs);
    RequestsKeep(v, qs);
    RequestsKeep(v, rs);
    RequestsClassified(v, qs);
    RequestsClassified(v, rs);
    HoldingAlike(a, b);
    HoldingAlike(b, a);
    forall p
      ensures FreeAt(a, p) <==> FreeAt(b, p)
    {
      FreeAlike(a, b, p);
      FreeAlike(b, a, p);
    }
    if Empties(a) == Empties(b) {
      SameMemorySameRuns(a, b);
    }
  }

  lemma HoldingAlike(a: Runs, b: Runs)
    requires Classified(a)
    requires forall r: Run :: r.status.Tracking? ==> (Kept(a, r) <==> Kept(b, r))
    requires SameLive(a, b)
    ensures forall r :: Holding(a, r) ==> Holding(b, r)
  {
    forall r | Holding(a, r)
      ensures Holding(b, r)
    {
      assert r.status.Allocated? ==> r == Run(r.range, Allocated);
    }
  }

  /** Memory covered by both lists, and held by neither or both, is free in both. */
  lemma FreeAlike(a: Runs, b: Runs, p: nat)
    requires Ordered(a) && (forall r :: Holding(b, r) ==> Holding(a, r)) && (Covered(a, p) ==> Covered(b, p))
    ensures FreeAt(a, p) ==> FreeAt(b, p)
  {
    if FreeAt(a, p) {
      var i :| 0 <= i < |a| && a[i].status.Free? && Holds(a[i].range, p);
      CoveredIs(a, p);
      CoveredIs(b, p);
      forall r | Kept(b, r)
        ensures !Holds(r.range, p)
      {
        if Holding(a, r) {
          var j :| 0 <= j < |a| && a[j] == r;
          assert i < j || j < i;
        }
      }
    }
  }

  /** Without allocations of 0 pages, sequences of requests that leave the same allocations live leave equal lists. */
  lemma PositiveSameRuns(v: Runs, qs: seq<Request>, rs: seq<Request>)
    requires Canonical(v) && Classified(v) && AllPossible(v, qs) && AllPossible(v, rs) && AllPositive(qs)
    requires AllPositive(rs)
    requires SameLive(Answered(v, qs), Answered(v, rs))
    ensures Answered(v, qs) == Answered(v, rs)
  {
    SolidAnchored(v);
    RequestsKeep(v, qs);
    RequestsKeep(v, rs);
    SolidHasNoEmpties(Answered(v, qs));
    SolidHasNoEmpties(Answered(v, rs));
    SameLiveSameRuns(v, qs, rs);
  }

  /** Once nothing is allocated, an empty run touches the free run at its page. */
  lemma EmptyIsLoose(w: Runs, i: nat)
    requires Ordered(w) && Anchored(w) && Classified(w) && forall r: Range :: !Kept(w, Run(r, Allocated))
    requires i < |w| && w[i].range.size == 0
    ensures Loose(w, i)
  {
    var p := w[i].range.start;
    assert Anchor(w, w[i]);
    var j :| 0 <= j < |w| && Holds(w[j].range, p);
    FreedIsFree(w, i);
    assert j > i;
    assert End(w[i].range) <= w[i + 1].range.start;
    assert j > i + 1 ==> End(w[i + 1].range) <= w[j].range.start;
    assert w[i + 1].range.start == p;
    FreedIsFree(w, i + 1);
  }

  lemma FreedIsSolid(w: Runs)
    requires Sound(w) && Anchored(w) && Classified(w) && forall r: Range :: !Kept(w, Run(r, Allocated))
    ensures Solid(w)
  {
    forall i | 0 <= i < |w|
      ensures w[i].range.size > 0
    {
      if w[i].range.size == 0 {
        EmptyIsLoose(w, i);
      }
    }
  }

  /** A run that starts at a page that can be allocated is free, once nothing is allocated. */
  lemma FreedIsFree(w: Runs, i: nat)
    requires i < |w| && Classified(w) && Anchored(w) && Workable(w, w[i].range.start)
    requires forall r: Range :: !Kept(w, Run(r, Allocated))
    ensures w[i].status.Free?
  {
    var r := w[i];
    assert Anchor(w, r) && r == Run(r.range, r.status);
    assert r.status.Free? || Kept(w, r);
  }

  /**
   Freeing everything restores the list: from a list without allocations, any sequence
   of requests that leaves no allocation live, freed in whatever order, leaves exactly
   the list it started from.
   */
  lemma FreeingRestores(v: Runs, qs: seq<Request>)
    requires Canonical(v) && Classified(v) && AllPossible(v, qs)
    requires forall r: Range :: !Kept(v, Run(r, Allocated)) && !Kept(Answered(v, qs), Run(r, Allocated))
    ensures Answered(v, qs) == v
  {
    SolidAnchored(v);
    RequestsKeep(v, qs);
    RequestsClassified(v, qs);
    FreedIsSolid(Answered(v, qs));
    SolidHasNoEmpties(v);
    SolidHasNoEmpties(Answered(v, qs));
    SameLiveSameRuns(v, qs, []);
  }

  /**
   An allocation of no pages can be hidden: of two at the same page, once one is freed the
   other is still live but can no longer be freed.
   */
  lemma FreedRunHides()
    ensures var v := [Run(Range(0, 10), Free)];
            var qs := [Allocate(0, 0), Allocate(1, 0), Deallocate(Range(0, 0))];
            && AllPossible(v, qs)
            && Kept(Answered(v, qs), Run(Range(0, 0), Allocated)) && !Releasable(Answered(v, qs), Range(0, 0))
  {
    var v, d := [Run(Range(0, 10), Free)], Deallocate(Range(0, 0));
    var a := Answer(v, Allocate(0, 0));
    assert a == [Run(Range(0, 0), Allocated), Run(Range(0, 10), Free)];
    var b := Answer(a, Allocate(1, 0));
    assert b == [Run(Range(0, 0), Allocated), Run(Range(0, 0), Allocated), Run(Range(0, 10), Free)];
    var c := Answer(b, d);
    assert c == [Run(Range(0, 0), Free), Run(Range(0, 0), Allocated), Run(Range(0, 10), Free)];
    assert [Allocate(0, 0), Allocate(1, 0), d][1..] == [Allocate(1, 0), d];
    assert [Allocate(1, 0), d][1..] == [d] && [d][1..] == [];
    assert AllPossible(c, []) && AllPossible(b, [d]) && AllPossible(a, [Allocate(1, 0), d]);
    assert c[1] == Run(Range(0, 0), Allocated);
  }

  /**
   An allocation of no pages can leave a trace: allocating 0 pages, then 10, and freeing
   the 0 leaves an empty free run, while allocating the 10 alone does not.
   */
  lemma ZeroPagesLeaveTraces()
    ensures var v, rs := [Run(Range(0, 10), Free)], [Allocate(0, 10)];
            var qs := [Allocate(0, 0), Allocate(1, 10), Deallocate(Range(0, 0))];
            && AllPossible(v, qs) && AllPossible(v, rs)
            && Answered(v, qs) == [Run(Range(0, 0), Free), Run(Range(0, 10), Allocated)]
            && Answered(v, rs) == [Run(Range(0, 10), Allocated)]
            && SameLive(Answered(v, qs), Answered(v, rs))
  {
    var v, d := [Run(Range(0, 10), Free)], Deallocate(Range(0, 0));
    var a := Answer(v, Allocate(0, 0));
    assert a == [Run(Range(0, 0), Allocated), Run(Range(0, 10), Free)];
    var b := Answer(a, Allocate(1, 10));
    assert b == [Run(Range(0, 0), Allocated), Run(Range(0, 10), Allocated)];
    var c := Answer(b, d);
    assert c == [Run(Range(0, 0), Free), Run(Range(0, 10), Allocated)];
    assert [Allocate(0, 0), Allocate(1, 10), d][1..] == [Allocate(1, 10), d];
    assert [Allocate(1, 10), d][1..] == [d];
    assert [d][1..] == [] && [Allocate(0, 10)][1..] == [];
    assert AllPossible(c, []) && AllPossible(b, [d]) && AllPossible(a, [Allocate(1, 10), d]);
    var e := Answer(v, Allocate(0, 10));
    assert e == [Run(Range(0, 10), Allocated)];
    assert AllPossible(e, []);
    assert c[1] == e[0];
  }
}
