/**
 The root allocator of physical pages: first-fit allocation with splitting, and
 deallocation with coalescing of both neighbours. A failed assertion, `expect` or
 `unwrap` of the source is the outcome `Panic`; debug assertions are off.
 */
module RootAllocator {
  import opened PageRanges
  import opened RunLists
  import opened RunNodes
  import opened AllocatorRuns

  datatype ErrorKind = InsufficientMemory | InvalidAddress | AddressOutOfBounds

  datatype Outcome<T> = Ok(value: T) | Err(error: ErrorKind) | Panic

  /** The position in the free list of the first run with at least `count` pages, or the list's length. */
  function FirstFit(free: Runs, count: nat): (i: nat)
    ensures i <= |free| && (i < |free| ==> free[i].range.size >= count)
    ensures forall j :: 0 <= j < i ==> free[j].range.size < count
  {
    if free == [] || free[0].range.size >= count then 0 else 1 + FirstFit(free[1..], count)
  }

  predicate Ascending(free: Runs) {
    forall i, j :: 0 <= i < j < |free| ==> free[i].range.start <= free[j].range.start
  }

  /** The free list without the first `count` pages of its run `i`, all others in their places. */
  function Remaining(free: Runs, i: nat, count: nat): Runs
    requires i < |free| && count <= free[i].range.size
  {
    if free[i].range.size == count then free[..i] + free[i + 1..]
    else free[i := Run(Range(free[i].range.start + count, free[i].range.size - count), free[i].status)]
  }

  /** A run fits before position `k` without overlap. */
  predicate Clear(v: Runs, k: nat, r: Range)
    requires k <= |v|
  {
    && (k < |v| ==> End(r) <= v[k].range.start)
    && (k > 0 ==> End(v[k - 1].range) <= r.start)
  }

  /** The list with a run put in, joined with its neighbours unless it is an allocation. */
  function Added(v: Runs, k: nat, r: Run): Runs
    requires k <= |v|
  {
    if r.status.Allocated? then Inserted(v, k, r) else CoalesceAt(Inserted(v, k, r), k)
  }

  predicate JoinsNext(v: Runs, k: nat)
    requires k < |v|
  {
    k + 1 < |v| && Mergeable(v[k], v[k + 1])
  }

  predicate JoinsPrev(v: Runs, k: nat)
    requires k < |v|
  {
    k > 0 && Mergeable(v[k - 1], v[k])
  }

  /** The free list once a run is merged away: its node is unlinked if it was free. */
  function Unlinked(free: seq<Node>, n: Node, r: Run): seq<Node> {
    if r.status.Free? then Without(free, n) else free
  }

  /** The free list after run `c` of `v` has been joined with its neighbours, `w` being the list in between. */
  function FreeAfter(v: Runs, w: Runs, runs: seq<Node>, free: seq<Node>, c: nat): seq<Node>
    requires c < |v| == |runs| && c < |w|
  {
    var first := if JoinsNext(v, c) then Unlinked(free, runs[c], v[c]) else free;
    if JoinsPrev(w, c) then Unlinked(first, runs[if JoinsNext(v, c) then c + 1 else c], w[c]) else first
  }

  /** The nodes merged away go to the back of the unused list. */
  function UnusedAfter(v: Runs, w: Runs, runs: seq<Node>, unused: seq<Node>, c: nat): seq<Node>
    requires c < |v| == |runs| && c < |w|
  {
    var first := if JoinsNext(v, c) then unused + [runs[c]] else unused;
    if JoinsPrev(w, c) then first + [runs[if JoinsNext(v, c) then c + 1 else c]] else first
  }

  /** The run at position `k` is free and starts where `r` ends. */
  predicate FreeNext(v: Runs, k: nat, r: Range)
    requires k <= |v|
  {
    k < |v| && v[k].status.Free? && End(r) == v[k].range.start
  }

  /** The run before position `k` is free and ends where `r` starts. */
  predicate FreePrev(v: Runs, k: nat, r: Range)
    requires k <= |v|
  {
    0 < k && v[k - 1].status.Free? && End(v[k - 1].range) == r.start
  }

  /**
   The free list once the free run `r` is at position `k`: on its own it stands where
   `alone` has it; joined with one neighbour it takes over that neighbour's place; joined
   with both, the place of the one before it.
   */
  function FreeWith(v: Runs, k: nat, r: Range, runs: seq<Node>, free: seq<Node>, alone: seq<Node>): seq<Node>
    requires k <= |v| == |runs|
  {
    if FreeNext(v, k, r) && FreePrev(v, k, r) then Without(free, runs[k])
    else if FreeNext(v, k, r) || FreePrev(v, k, r) then free else alone
  }

  /** What joining a free run with its neighbours does to a free list that has its node at one end. */
  lemma FreeAfterIs(u: Runs, runs: seq<Node>, c: nat, base: seq<Node>, free: seq<Node>)
    requires c < |u| == |runs| && u[c].status.Free? && runs[c] !in base
    requires free == base + [runs[c]] || free == [runs[c]] + base
    ensures var next, prev := JoinsNext(u, c), JoinsPrev(u, c);
            FreeAfter(u, CoalesceNext(u, c), runs, free, c) ==
            if next && prev then Without(base, runs[c + 1]) else if next || prev then base else free
  {
    assert [runs[c]] + base == [] + [runs[c]] + base && base + [runs[c]] == base + [runs[c]] + [];
    WithoutKeepsOrder([], runs[c], base);
    WithoutKeepsOrder(base, runs[c], []);
    assert base + [] == base && [] + base == base;
  }

  /** The free list once run `k` is freed: on its own it comes first, and joined with neighbours as above. */
  function FreedInto(v: Runs, k: nat, runs: seq<Node>, free: seq<Node>): seq<Node>
    requires k < |v| == |runs|
  {
    var next := k + 1 < |v| && v[k + 1].status.Free? && End(v[k].range) == v[k + 1].range.start;
    var prev := 0 < k && v[k - 1].status.Free? && End(v[k - 1].range) == v[k].range.start;
    if next && prev then Without(free, runs[k + 1]) else if next || prev then free else [runs[k]] + free
  }

  lemma FreedIntoIs(v: Runs, k: nat, runs: seq<Node>, free: seq<Node>)
    requires k < |v| == |runs| && runs[k] !in free
    ensures var u := v[k := Run(v[k].range, Free)];
            FreeAfter(u, CoalesceNext(u, k), runs, [runs[k]] + free, k) == FreedInto(v, k, runs, free)
  {
    FreeAfterIs(v[k := Run(v[k].range, Free)], runs, k, free, [runs[k]] + free);
  }

  lemma FreeWithIs(v: Runs, k: nat, r: Run, runs: seq<Node>, n: Node, base: seq<Node>, free: seq<Node>)
    requires k <= |v| == |runs| && r.status.Free? && n !in base && (free == base + [n] || free == [n] + base)
    ensures var u, rs := Inserted(v, k, r), InsertAt(runs, k, n);
            && FreeAfter(u, CoalesceNext(u, k), rs, free, k) == FreeWith(v, k, r.range, runs, base, free)
            && (JoinsNext(u, k) <==> FreeNext(v, k, r.range)) && (JoinsPrev(u, k) <==> FreePrev(v, k, r.range))
  {
    var u, rs := Inserted(v, k, r), InsertAt(runs, k, n);
    assert k < |v| ==> u[k + 1] == v[k] && rs[k + 1] == runs[k];
    FreeAfterIs(u, rs, k, base, free);
  }

  /** The position of the first run that starts at `start` or later. */
  function NextFrom(v: Runs, start: nat): (k: nat)
    ensures k <= |v| && (k < |v| ==> v[k].range.start >= start)
    ensures forall i :: 0 <= i < k ==> v[i].range.start < start
  {
    if v == [] || v[0].range.start >= start then 0 else 1 + NextFrom(v[1..], start)
  }

  class AllocatorInner {
    /** The `Run` structures in the tracking memory. */
    var nodes: seq<Run>
    /** All runs, by address. */
    var runs: seq<Node>
    /** The free ones, in the order in which allocation tries them. */
    var free: seq<Node>
    var unused: seq<Node>

    constructor ()
      ensures Valid() && View() == [] && nodes == [] && runs == [] && free == [] && unused == []
    {
      nodes, runs, free, unused := [], [], [], [];
    }

    ghost predicate Threaded()
      reads this
    {
      Linked(nodes, runs, free, unused, {})
    }

    ghost function View(): Runs
      requires InBounds(nodes, runs)
      reads this
    {
      ViewOf(nodes, runs)
    }

    /** The free runs in the order of the free list. */
    ghost function FreeRuns(): Runs
      requires Threaded()
      reads this
    {
      FreeInBounds(nodes, runs, free, unused, {});
      ViewOf(nodes, free)
    }

    ghost predicate Valid()
      reads this
    {
      Threaded() && Ordered(View()) && Coalesced(View())
    }

    /** The first half of coalescing: the run at the cursor becomes part of the next one. */
    method CoalesceWithNext(cursor: nat)
      requires Threaded() && cursor < |runs|
      modifies this
      ensures Threaded() && |nodes| == old(|nodes|) && View() == CoalesceNext(old(View()), cursor)
      ensures if JoinsNext(old(View()), cursor) then
                && runs == RemoveAt(old(runs), cursor) && unused == old(unused) + [old(runs)[cursor]]
                && free == Unlinked(old(free), old(runs)[cursor], old(View())[cursor])
              else unchanged(this)
    {
      var current := runs[cursor];
      if cursor + 1 < |runs| && Mergeable(nodes[current], nodes[runs[cursor + 1]]) {
        var size := nodes[current].range.size;
        var next := runs[cursor + 1];
        var grown := nodes[next].(range := ExtendLeft(nodes[next].range, size));
        JoinNextView(nodes, runs, cursor, grown);
        Recycle(nodes, runs, free, unused, cursor, next, grown);
        if nodes[current].status.Free? {
          free := Without(free, current);
        }
        // the cursor now points to the next run
        runs := RemoveAt(runs, cursor);
        nodes := nodes[next := grown];
        unused := unused + [current];
      }
    }

    /** The second half: the run at the cursor becomes part of the previous one. */
    method CoalesceWithPrev(cursor: nat)
      requires Threaded() && cursor < |runs|
      modifies this
      ensures Threaded() && |nodes| == old(|nodes|) && View() == CoalescePrev(old(View()), cursor)
      ensures if JoinsPrev(old(View()), cursor) then
                && runs == RemoveAt(old(runs), cursor) && unused == old(unused) + [old(runs)[cursor]]
                && free == Unlinked(old(free), old(runs)[cursor], old(View())[cursor])
              else unchanged(this)
    {
      var current := runs[cursor];
      if cursor > 0 && Mergeable(nodes[runs[cursor - 1]], nodes[current]) {
        var size := nodes[current].range.size;
        var prev := runs[cursor - 1];
        var grown := nodes[prev].(range := ExtendRight(nodes[prev].range, size));
        JoinPrevView(nodes, runs, cursor, grown);
        Recycle(nodes, runs, free, unused, cursor, prev, grown);
        if nodes[current].status.Free? {
          free := Without(free, current);
        }
        runs := RemoveAt(runs, cursor);
        nodes := nodes[prev := grown];
        unused := unused + [current];
      }
    }

    /** Joins the run at the cursor with its neighbours, if possible. */
    method Coalesce(cursor: nat)
      requires Threaded() && cursor <= |runs|
      modifies this
      ensures Threaded() && |nodes| == old(|nodes|)
      ensures if cursor == old(|runs|) then unchanged(this)
              else
                var v, w := old(View()), CoalesceNext(old(View()), cursor);
                && View() == CoalesceAt(v, cursor)
                && free == FreeAfter(v, w, old(runs), old(free), cursor)
                && unused == UnusedAfter(v, w, old(runs), old(unused), cursor)
                && (!JoinsNext(v, cursor) && !JoinsPrev(v, cursor) ==> unchanged(this))
    {
      if cursor < |runs| {
        CoalesceWithNext(cursor);
        CoalesceWithPrev(cursor);
      }
    }

    /** The cursor of the first run that starts at `start` or later. */
    method FindNext(start: nat) returns (cursor: nat)
      requires InBounds(nodes, runs)
      ensures cursor == NextFrom(View(), start)
    {
      cursor := 0;
      while cursor < |runs| && nodes[runs[cursor]].range.start < start
        invariant cursor <= |runs| && forall i :: 0 <= i < cursor ==> View()[i].range.start < start
      {
        cursor := cursor + 1;
      }
      NextFromIs(View(), start, cursor);
    }

    /** Puts a new run into the lists before the cursor; fails an assertion if it overlaps a neighbour. */
    method AddRun(run: Node, cursor: nat) returns (ok: bool)
      requires Linked(nodes, runs, free, unused, {run}) && run < |nodes| && cursor <= |runs|
      modifies this
      ensures ok <==> Clear(old(View()), cursor, old(nodes)[run].range)
      ensures ok ==> Threaded() && |nodes| == old(|nodes|) && View() == Added(old(View()), cursor, old(nodes)[run])
      ensures ok && old(nodes)[run].status.Allocated? ==>
                free == old(free) && unused == old(unused) && nodes == old(nodes)
      ensures ok && old(nodes)[run].status.Free? ==>
                var v, r := old(View()), old(nodes)[run].range;
                && free == FreeWith(v, cursor, r, old(runs), old(free), old(free) + [run])
                && (!FreeNext(v, cursor, r) && !FreePrev(v, cursor, r) ==> nodes == old(nodes))
    {
      ghost var v, base, rs := View(), free, runs;
      Link(nodes, runs, free, unused, cursor, run);
      ViewInserted(nodes, runs, cursor, run);
      if nodes[run].status.Free? {
        free := free + [run];
      }
      if cursor < |runs| && nodes[runs[cursor]].range.start < End(nodes[run].range) {
        return false;
      }
      if cursor > 0 && End(nodes[runs[cursor - 1]].range) > nodes[run].range.start {
        return false;
      }
      var shouldCoalesce := !nodes[run].status.Allocated?;
      runs := InsertAt(runs, cursor, run);
      if nodes[run].status.Free? {
        FreeWithIs(v, cursor, nodes[run], rs, run, base, free);
      }
      if shouldCoalesce {
        Coalesce(cursor);
      }
      ok := true;
    }

    /** Every node is in the list of runs or unused. */
    lemma NodesAreRunsAndUnused()
      requires Valid()
      ensures |nodes| == |View()| + |unused|
    {
    }

    /** Adds a range of usable memory. */
    method AddAllocatableRange(range: Range) returns (ok: bool)
      requires Valid()
      modifies this
      ensures ok <==> old(unused) != [] && Clear(old(View()), NextFrom(old(View()), range.start), range)
      ensures ok ==> Valid() && |nodes| == old(|nodes|)
                     && View() == Added(old(View()), NextFrom(old(View()), range.start), Run(range, Free))
      ensures ok ==>
                var v, k := old(View()), NextFrom(old(View()), range.start);
                && free == FreeWith(v, k, range, old(runs), old(free), old(free) + [old(unused)[0]])
                && (!FreeNext(v, k, range) && !FreePrev(v, k, range) ==>
                      FreeRuns() == old(FreeRuns()) + [Run(range, Free)])
    {
      FreeInBounds(nodes, runs, free, unused, {});
      if unused == [] {
        return false;
      }
      ghost var v := View();
      var run := unused[0];
      Take(nodes, runs, free, unused, Run(range, Free));
      ViewElsewhere(nodes, runs, run, Run(range, Free));
      ViewSnoc(nodes, free, run, Run(range, Free));
      unused := unused[1..];
      nodes := nodes[run := Run(range, Free)];
      var cursor := FindNext(range.start);
      ok := AddRun(run, cursor);
      if ok {
        AddedKeeps(v, cursor, Run(range, Free));
      }
    }

    /**
     Allocates `count` contiguous pages: the first run of the free list that is large
     enough is allocated whole, or split with the allocation at its start.
     */
    method Allocate(count: nat) returns (o: Outcome<Range>)
      requires Valid()
      modifies this
      ensures o.Err? <==> FirstFit(old(FreeRuns()), count) == old(|free|)
      ensures o.Err? <==> !exists k: nat :: Fits(old(View()), k, count)
      ensures (RowsInRuns(old(View())) || Unsplit(old(View())) || Solid(old(View()))) && count > 0 ==>
                (o.Err? <==> !exists p: nat :: FreeStretch(old(View()), p, count))
      ensures count > 0 ==> (RowFits(old(View()), count) <==> exists p: nat :: FreeStretch(old(View()), p, count))
      ensures o.Err? ==> o.error.InsufficientMemory? && unchanged(this)
      ensures o.Panic? <==>
              !o.Err? && old(FreeRuns())[FirstFit(old(FreeRuns()), count)].range.size > count && old(unused) == []
      ensures o.Ok? ==> Valid() && |nodes| == old(|nodes|) && (Solid(old(View())) && count > 0 ==> Solid(View()))
      ensures 2 * (KeptCount(old(View())) + 1) + |SegmentEnds(old(View()))| <= old(|nodes|) ==> !o.Panic?
      ensures o.Ok? ==>
                var n := old(free)[FirstFit(old(FreeRuns()), count)];
                && n in old(runs) && Fits(old(View()), IndexOf(old(runs), n), count)
                && o.value == Range(old(nodes)[n].range.start, count)
                && View() == Carve(old(View()), IndexOf(old(runs), n), count)
                && (if old(nodes)[n].range.size == count then free == Without(old(free), n) && unused == old(unused)
                    else free == old(free) && unused == old(unused)[1..])
      ensures o.Ok? ==> FreeRuns() == Remaining(old(FreeRuns()), FirstFit(old(FreeRuns()), count), count)
      ensures o.Ok? && Ascending(old(FreeRuns())) ==>
                forall k: nat :: Fits(old(View()), k, count) ==> o.value.start <= old(View())[k].range.start
    {
      FitFacts(nodes, runs, free, unused, count);
      var i := FindFit(count);
      if i == |free| {
        return Err(InsufficientMemory);
      }
      var n := free[i];
      assert n in free;
      CarveKeeps(View(), IndexOf(runs, n), count);
      LowestFit(nodes, runs, free, unused, count);
      if nodes[n].range.size == count {
        o := AllocateWhole(n, i);
      } else {
        o := AllocateSplit(n, i, count);
      }
    }

    /** The search along the free list. */
    method FindFit(count: nat) returns (i: nat)
      requires Threaded()
      ensures i == FirstFit(FreeRuns(), count)
    {
      FreeInBounds(nodes, runs, free, unused, {});
      i := 0;
      while i < |free| && nodes[free[i]].range.size < count
        invariant i <= |free| && forall j :: 0 <= j < i ==> nodes[free[j]].range.size < count
      {
        i := i + 1;
      }
      FirstFitIs(ViewOf(nodes, free), count, i);
    }

    /** The exact fit: the free run is marked and leaves the free list. */
    method AllocateWhole(n: Node, ghost i: nat) returns (o: Outcome<Range>)
      requires Threaded() && i < |free| && free[i] == n < |nodes|
      modifies this
      ensures o == Ok(old(nodes)[n].range) && Threaded() && |nodes| == old(|nodes|)
      ensures View() == Carve(old(View()), IndexOf(old(runs), n), old(nodes)[n].range.size)
      ensures free == Without(old(free), n) && unused == old(unused)
      ensures FreeRuns() == Remaining(old(FreeRuns()), i, old(nodes)[n].range.size)
    {
      FreeInBounds(nodes, runs, free, unused, {});
      var run := nodes[n].(status := Allocated);
      WholeView(nodes, free, i, run);
      Claim(nodes, runs, free, unused, n, run);
      ViewSet(nodes, runs, IndexOf(runs, n), run);
      nodes := nodes[n := run];
      free := Without(free, n);
      o := Ok(run.range);
    }

    /** The split: the run loses its first pages, and a node is taken for the allocation and put before it. */
    method AllocateSplit(n: Node, ghost i: nat, count: nat) returns (o: Outcome<Range>)
      requires Threaded() && i < |free| && free[i] == n < |nodes| && Ordered(View()) && count < nodes[n].range.size
      modifies this
      ensures if old(unused) == [] then o.Panic?
              else
                && o == Ok(Range(old(nodes)[n].range.start, count)) && Threaded() && |nodes| == old(|nodes|)
                && View() == Carve(old(View()), IndexOf(old(runs), n), count)
                && free == old(free) && unused == old(unused)[1..]
                && FreeRuns() == Remaining(old(FreeRuns()), i, count)
    {
      assert n in free;
      var cursor := IndexOf(runs, n);
      var range := Range(nodes[n].range.start, count);
      SplitIsClear(View(), cursor, count);
      Shrink(n, cursor, i, count);
      if unused == [] {
        return Panic;
      }
      PutAllocation(cursor, range);
      o := Ok(range);
    }

    /** The free run at the cursor loses its first pages. */
    method Shrink(n: Node, ghost cursor: nat, ghost i: nat, count: nat)
      requires Threaded() && n < |nodes| && cursor < |runs| && runs[cursor] == n && i < |free| && free[i] == n
      requires count < nodes[n].range.size
      modifies this`nodes
      ensures Threaded() && |nodes| == old(|nodes|)
      ensures View() == old(View())[cursor := Run(ShrinkLeft(old(nodes)[n].range, count), old(nodes)[n].status)]
      ensures FreeRuns() == Remaining(old(FreeRuns()), i, count)
    {
      FreeInBounds(nodes, runs, free, unused, {});
      var rest := nodes[n].(range := ShrinkLeft(nodes[n].range, count));
      assert n in runs;
      Reshape(nodes, runs, free, unused, n, rest);
      ViewSet(nodes, runs, cursor, rest);
      ViewSet(nodes, free, i, rest);
      nodes := nodes[n := rest];
    }

    /** An allocation of its own node before the cursor. */
    method PutAllocation(cursor: nat, range: Range)
      requires Threaded() && unused != [] && cursor <= |runs| && Clear(View(), cursor, range)
      modifies this
      ensures Threaded() && |nodes| == old(|nodes|) && View() == Inserted(old(View()), cursor, Run(range, Allocated))
      ensures free == old(free) && unused == old(unused)[1..] && FreeRuns() == old(FreeRuns())
    {
      FreeInBounds(nodes, runs, free, unused, {});
      var taken := unused[0];
      Take(nodes, runs, free, unused, Run(range, Allocated));
      ViewElsewhere(nodes, runs, taken, Run(range, Allocated));
      ViewElsewhere(nodes, free, taken, Run(range, Allocated));
      unused := unused[1..];
      nodes := nodes[taken := Run(range, Allocated)];
      var ok := AddRun(taken, cursor);
    }

    /** Deallocates an allocation; anything else is refused and changes nothing. */
    method Deallocate(range: Range) returns (o: Outcome<()>)
      requires Valid()
      modifies this
      ensures !o.Panic? && Valid() && |nodes| == old(|nodes|) && View() == Deallocated(old(View()), range)
      ensures o.Ok? <==> Releasable(old(View()), range)
      ensures o.Err? ==>
              unchanged(this)
              && o.error == if Find(old(View()), range) < old(|runs|) then InvalidAddress else AddressOutOfBounds
      ensures Solid(old(View())) ==> Solid(View())
      ensures Solid(old(View())) || range.size > 0 ==> (o.Ok? <==> Kept(old(View()), Run(range, Allocated)))
      ensures o.Ok? ==>
                var k := Find(old(View()), range);
                var v := old(View())[k := Run(range, Free)];
                && free == FreedInto(old(View()), k, old(runs), old(free))
                && unused == UnusedAfter(v, CoalesceNext(v, k), old(runs), old(unused), k)
    {
      ghost var v := View();
      if Solid(v) || range.size > 0 {
        ReleasableIsLive(v, range);
      }
      var cursor := FindRun(range);
      if cursor == |runs| {
        return Err(AddressOutOfBounds);
      }
      var n := runs[cursor];
      if !nodes[n].status.Allocated? {
        return Err(InvalidAddress);
      }
      ReleaseKeeps(v, cursor);
      Unclaim(nodes, runs, free, unused, n, nodes[n].(status := Free));
      ViewSet(nodes, runs, cursor, nodes[n].(status := Free));
      nodes := nodes[n := nodes[n].(status := Free)];
      free := [n] + free;
      FreedIntoIs(v, cursor, runs, old(free));
      Coalesce(cursor);
      o := Ok(());
    }

    /** The search along the list of runs. */
    method FindRun(range: Range) returns (cursor: nat)
      requires InBounds(nodes, runs)
      ensures cursor == Find(View(), range)
    {
      cursor := 0;
      while cursor < |runs| && nodes[runs[cursor]].range != range
        invariant cursor <= |runs| && forall j :: 0 <= j < cursor ==> View()[j].range != range
      {
        cursor := cursor + 1;
      }
      FindIs(View(), range, cursor);
    }

    /** Makes `count` nodes in the tracking memory `range`, and a tracking run for that memory. */
    method InitTrackingSpace(count: nat, range: Range) returns (ok: bool)
      requires Valid()
      modifies this
      ensures ok <==> count + old(|unused|) > 0 && Clear(old(View()), NextFrom(old(View()), range.start), range)
      ensures ok ==> Valid() && |nodes| == old(|nodes|) + count
                     && View() == Added(old(View()), NextFrom(old(View()), range.start), Run(range, Tracking))
    {
      ghost var v := View();
      var i := 0;
      while i < count
        invariant i <= count && Valid() && View() == v
        invariant |nodes| == old(|nodes|) + i && |unused| == old(|unused|) + i
      {
        Grow(nodes, runs, free, unused);
        nodes, unused := nodes + [Run(Range(0, 0), Unused)], unused + [|nodes|];
        i := i + 1;
      }
      if unused == [] {
        return false;
      }
      var run := unused[0];
      Take(nodes, runs, free, unused, Run(range, Tracking));
      ViewElsewhere(nodes, runs, run, Run(range, Tracking));
      unused := unused[1..];
      nodes := nodes[run := Run(range, Tracking)];
      var cursor := FindNext(range.start);
      ok := AddRun(run, cursor);
      if ok {
        AddedKeeps(v, cursor, Run(range, Tracking));
      }
    }
  }

  // ---- An allocation of no pages ----

  /** Ten free pages and two of tracking memory, at each point of the run below. */
  function TenFree(): Runs { [Run(Range(0, 10), Free), Run(Range(20, 2), Tracking)] }

  function FourTaken(): Runs { [Run(Range(0, 4), Allocated), Run(Range(4, 6), Free), Run(Range(20, 2), Tracking)] }

  function NoneTaken(): Runs {
    [Run(Range(0, 4), Allocated), Run(Range(4, 0), Allocated), Run(Range(4, 6), Free), Run(Range(20, 2), Tracking)]
  }

  function FourFreed(): Runs {
    [Run(Range(0, 4), Free), Run(Range(4, 0), Allocated), Run(Range(4, 6), Free), Run(Range(20, 2), Tracking)]
  }

  lemma TenFreeViews()
    ensures Added([], NextFrom([], 20), Run(Range(20, 2), Tracking)) == [Run(Range(20, 2), Tracking)]
    ensures var v := [Run(Range(20, 2), Tracking)]; Added(v, NextFrom(v, 0), Run(Range(0, 10), Free)) == TenFree()
  {
    assert Inserted([], 0, Run(Range(20, 2), Tracking)) == [Run(Range(20, 2), Tracking)];
    assert Inserted([Run(Range(20, 2), Tracking)], 0, Run(Range(0, 10), Free)) == TenFree();
  }

  lemma ZeroPagesViews()
    ensures Fits(TenFree(), 0, 4) && forall j: nat :: Fits(TenFree(), j, 4) ==> j == 0
    ensures Fits(FourTaken(), 1, 0) && forall j: nat :: Fits(FourTaken(), j, 0) ==> j == 1
    ensures Carve(TenFree(), 0, 4) == FourTaken() && Carve(FourTaken(), 1, 0) == NoneTaken()
    ensures Releasable(NoneTaken(), Range(0, 4)) && Deallocated(NoneTaken(), Range(0, 4)) == FourFreed()
  {
    assert Find(NoneTaken(), Range(0, 4)) == 0;
  }

  method MakeTenFree() returns (a: AllocatorInner)
    ensures fresh(a) && a.Valid() && a.View() == TenFree() && |a.nodes| == 8
  {
    TenFreeViews();
    a := new AllocatorInner();
    var ok := a.InitTrackingSpace(8, Range(20, 2));
    ok := a.AddAllocatableRange(Range(0, 10));
  }

  /** One allocation out of the only run that fits. */
  method AllocateAt(a: AllocatorInner, k: nat, count: nat)
    requires a.Valid() && |a.runs| < |a.nodes| && Fits(a.View(), k, count)
    requires forall j: nat :: Fits(a.View(), j, count) ==> j == k
    modifies a
    ensures a.Valid() && |a.nodes| == old(|a.nodes|) && a.View() == Carve(old(a.View()), k, count)
  {
    var o := a.Allocate(count);
  }

  method MakeNoneTaken() returns (a: AllocatorInner)
    ensures fresh(a) && a.Valid() && a.View() == NoneTaken()
  {
    ZeroPagesViews();
    a := MakeTenFree();
    AllocateAt(a, 0, 4);
    assert a.View() == FourTaken();
    AllocateAt(a, 1, 0);
  }

  method MakeFourFreed() returns (a: AllocatorInner)
    ensures fresh(a) && a.Valid() && a.View() == FourFreed()
  {
    a := MakeNoneTaken();
    ZeroPagesViews();
    var freed := a.Deallocate(Range(0, 4));
  }

  lemma FourFreedIsSplit()
    ensures FreeStretch(FourFreed(), 0, 10) && !Unsplit(FourFreed()) && forall k: nat :: !Fits(FourFreed(), k, 10)
  {
    var v := FourFreed();
    assert FreePages(v[0]) && FreePages(v[2]);
    SplitStretch(v, 0, 2);
  }

  /**
   An allocation of 0 pages leaves an empty run, which keeps its neighbours apart: with
   10 free pages, allocate 4, allocate 0 and free the 4. All 10 pages are free again, but
   an allocation of 10 is refused.
   */
  method ZeroPagesBreakFirstFit() returns (a: AllocatorInner, o: Outcome<Range>)
    ensures a.Valid() && o == Err(InsufficientMemory) && FreeStretch(a.View(), 0, 10) && !Unsplit(a.View())
  {
    FourFreedIsSplit();
    a := MakeFourFreed();
    o := a.Allocate(10);
  }

  // ---- The class and its list of runs ----

  lemma FreeInBounds(nodes: seq<Run>, runs: seq<Node>, free: seq<Node>, unused: seq<Node>, limbo: set<Node>)
    requires Linked(nodes, runs, free, unused, limbo)
    ensures InBounds(nodes, free)
  {
    forall i | 0 <= i < |free|
      ensures free[i] < |nodes|
    {
      assert free[i] in free;
    }
  }

  lemma FirstFitIs(free: Runs, count: nat, k: nat)
    requires k <= |free| && (forall i :: 0 <= i < k ==> free[i].range.size < count)
    requires (k < |free| ==> free[k].range.size >= count)
    ensures k == FirstFit(free, count)
  {
  }

  lemma FindIs(v: Runs, range: Range, k: nat)
    requires k <= |v| && (forall i :: 0 <= i < k ==> v[i].range != range) && (k < |v| ==> v[k].range == range)
    ensures k == Find(v, range)
  {
  }

  /** The free list finds a fitting run whenever the list of runs has one. */
  lemma FreeListFits(nodes: seq<Run>, runs: seq<Node>, free: seq<Node>, unused: seq<Node>, count: nat)
    requires Linked(nodes, runs, free, unused, {}) && InBounds(nodes, free)
    ensures FirstFit(ViewOf(nodes, free), count) == |free| <==> !exists k: nat :: Fits(ViewOf(nodes, runs), k, count)
  {
    var v, f := ViewOf(nodes, runs), FirstFit(ViewOf(nodes, free), count);
    if f < |free| {
      assert free[f] in free;
      assert Fits(v, IndexOf(runs, free[f]), count);
    }
    if k: nat :| Fits(v, k, count) {
      assert runs[k] in free;
      var i :| 0 <= i < |free| && free[i] == runs[k];
      assert ViewOf(nodes, free)[i].range.size >= count;
    }
  }

  /** The first pages of a run fit before what is left of it. */
  lemma SplitIsClear(v: Runs, k: nat, count: nat)
    requires Ordered(v) && k < |v| && count < v[k].range.size
    ensures var u := v[k := v[k].(range := ShrinkLeft(v[k].range, count))];
            Clear(u, k, Range(v[k].range.start, count))
  {
  }

  /** The free list without the node at position `i`, which gets another run. */
  lemma WholeView(nodes: seq<Run>, free: seq<Node>, i: nat, r: Run)
    requires InBounds(nodes, free) && Distinct(free) && i < |free|
    ensures InBounds(nodes, Without(free, free[i]))
    ensures ViewOf(nodes[free[i] := r], Without(free, free[i])) ==
            ViewOf(nodes, free)[..i] + ViewOf(nodes, free)[i + 1..]
  {
    var p, q := free[..i], free[i + 1..];
    assert free == p + [free[i]] + q;
    WithoutKeepsOrder(p, free[i], q);
    RemoveAtMembers(free, i);
    ViewRemoved(nodes, free, i);
    ViewElsewhere(nodes, RemoveAt(free, i), free[i], r);
  }

  /** The first fit of an ascending free list is the lowest. */
  lemma LowestFit(nodes: seq<Run>, runs: seq<Node>, free: seq<Node>, unused: seq<Node>, count: nat)
    requires Linked(nodes, runs, free, unused, {}) && InBounds(nodes, free)
    requires FirstFit(ViewOf(nodes, free), count) < |free|
    ensures var f, v := ViewOf(nodes, free), ViewOf(nodes, runs);
            Ascending(f) ==>
              forall k: nat :: Fits(v, k, count) ==> f[FirstFit(f, count)].range.start <= v[k].range.start
  {
    var f, v := ViewOf(nodes, free), ViewOf(nodes, runs);
    forall k: nat | Fits(v, k, count)
      ensures exists i :: FirstFit(f, count) <= i < |f| && f[i] == v[k]
    {
      assert runs[k] in free;
      var i :| 0 <= i < |free| && free[i] == runs[k];
      assert f[i] == v[k];
    }
  }

  /** What the lists say of an allocation before it is tried. */
  lemma FitFacts(nodes: seq<Run>, runs: seq<Node>, free: seq<Node>, unused: seq<Node>, count: nat)
    requires Linked(nodes, runs, free, unused, {}) && Ordered(ViewOf(nodes, runs)) && Coalesced(ViewOf(nodes, runs))
    ensures InBounds(nodes, free)
    ensures var v, none := ViewOf(nodes, runs), FirstFit(ViewOf(nodes, free), count) == |free|;
            && (none <==> !exists k: nat :: Fits(v, k, count))
            && ((RowsInRuns(v) || Unsplit(v) || Solid(v)) && count > 0 ==>
                  (none <==> !exists p: nat :: FreeStretch(v, p, count)))
            && (count > 0 ==> (RowFits(v, count) <==> exists p: nat :: FreeStretch(v, p, count)))
            && (2 * (KeptCount(v) + 1) + |SegmentEnds(v)| <= |nodes| ==> unused != [])
  {
    var v := ViewOf(nodes, runs);
    FreeInBounds(nodes, runs, free, unused, {});
    FreeListFits(nodes, runs, free, unused, count);
    RunBound(v);
    if count > 0 {
      StretchExactly(v, count);
      if RowsInRuns(v) || Unsplit(v) || Solid(v) {
        SearchIsComplete(v);
        assert SearchFinds(v, count);
      }
    }
  }

  /** Each of these is enough for the search to find all there is. */
  lemma SearchIsComplete(v: Runs)
    requires Ordered(v) && Coalesced(v) && (RowsInRuns(v) || Unsplit(v) || Solid(v))
    ensures SearchComplete(v)
  {
    if RowsInRuns(v) {
      SearchCompleteExactly(v);
    } else {
      if Solid(v) {
        CanonicalUnsplit(v);
      }
      UnsplitComplete(v);
    }
  }

  /** One more node is laid out in the tracking memory. */
  lemma Grow(nodes: seq<Run>, runs: seq<Node>, free: seq<Node>, unused: seq<Node>)
    requires Linked(nodes, runs, free, unused, {})
    ensures var ns := nodes + [Run(Range(0, 0), Unused)];
            && Linked(ns, runs, free, unused + [|nodes|], {}) && ViewOf(ns, runs) == ViewOf(nodes, runs)
  {
    var us := unused + [|nodes|];
    assert us[|us| - 1] == |nodes|;
    assert forall n :: n in us <==> n in unused || n == |nodes|;
  }

  lemma NextFromIs(v: Runs, start: nat, k: nat)
    requires k <= |v| && (forall i :: 0 <= i < k ==> v[i].range.start < start)
    requires (k < |v| ==> v[k].range.start >= start)
    ensures k == NextFrom(v, start)
  {
  }

  lemma AddedKeeps(v: Runs, k: nat, r: Run)
    requires Ordered(v) && Coalesced(v) && k <= |v| && Clear(v, k, r.range)
    ensures Ordered(Added(v, k, r)) && Coalesced(Added(v, k, r))
    ensures (Solid(v) && r.range.size > 0 ==> Solid(Added(v, k, r)))
  {
    var w := Inserted(v, k, r);
    InsertOrdered(v, k, r);
    forall i | Loose(w, i)
      ensures i == k || i == k - 1
    {
      InsertLoose(v, k, r, i);
    }
    if !r.status.Allocated? {
      CoalesceKeeps(w, k);
    }
  }

  /** The run after `c` grows to the left over it. */
  lemma JoinNextView(nodes: seq<Run>, runs: seq<Node>, c: nat, grown: Run)
    requires InBounds(nodes, runs) && Distinct(runs) && c + 1 < |runs| && Mergeable(nodes[runs[c]], nodes[runs[c + 1]])
    requires grown == nodes[runs[c + 1]].(range := ExtendLeft(nodes[runs[c + 1]].range, nodes[runs[c]].range.size))
    ensures InBounds(nodes, RemoveAt(runs, c))
    ensures ViewOf(nodes[runs[c + 1] := grown], RemoveAt(runs, c)) == Join(ViewOf(nodes, runs), c)
  {
    ViewSet(nodes, runs, c + 1, grown);
    ViewRemoved(nodes[runs[c + 1] := grown], runs, c);
  }

  /** The run before `c` grows to the right over it. */
  lemma JoinPrevView(nodes: seq<Run>, runs: seq<Node>, c: nat, grown: Run)
    requires InBounds(nodes, runs) && Distinct(runs) && 0 < c < |runs|
    requires grown == nodes[runs[c - 1]].(range := ExtendRight(nodes[runs[c - 1]].range, nodes[runs[c]].range.size))
    ensures InBounds(nodes, RemoveAt(runs, c))
    ensures ViewOf(nodes[runs[c - 1] := grown], RemoveAt(runs, c)) == Join(ViewOf(nodes, runs), c - 1)
  {
    ViewSet(nodes, runs, c - 1, grown);
    ViewRemoved(nodes[runs[c - 1] := grown], runs, c);
  }
}
