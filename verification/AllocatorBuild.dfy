/**
 Building the root allocator from the memory map. Regions are in bytes. The scratch heap
 that holds the vector of ranges, and the mapping of the tracking pages, always succeed
 here; the number of `Run` structures that fit in the tracking pages is a parameter.
 */
module AllocatorBuild {
  import opened PageRanges
  import opened RunLists
  import opened RunNodes
  import opened AllocatorRuns
  import opened RootAllocator
  import opened MemoryMerge

  const PAGE_SIZE: nat := 4096
  const SCRATCH_PAGES: nat := 2
  const MIN_TRACKING_PAGES: nat := 2

  datatype Region = Region(usable: bool, start: nat, end: nat)

  predicate Upright(regions: seq<Region>) {
    forall i :: 0 <= i < |regions| ==> regions[i].start <= regions[i].end
  }

  // ---- Choosing the tracking memory ----

  /** The page range touches or overlaps the region. */
  predicate Clashes(reserved: Range, r: Region) {
    reserved.start * PAGE_SIZE <= r.end && End(reserved) * PAGE_SIZE >= r.start
  }

  predicate Suitable(r: Region, reserved: seq<Range>)
    requires r.start <= r.end
  {
    && r.usable && r.end - r.start >= (MIN_TRACKING_PAGES + SCRATCH_PAGES) * PAGE_SIZE
    && forall i :: 0 <= i < |reserved| ==> !Clashes(reserved[i], r)
  }

  /** A byte address inside the region, or just after it. */
  predicate AtRegion(r: Region, b: nat) {
    r.start <= b <= r.end
  }

  /** A byte address inside the pages, or just after them. */
  predicate AtPages(reserved: Range, b: nat) {
    reserved.start * PAGE_SIZE <= b <= (reserved.start + reserved.size) * PAGE_SIZE
  }

  /** Some address is at the region and at reserved pages. */
  ghost predicate Obstructed(r: Region, reserved: seq<Range>) {
    exists i, b: nat :: 0 <= i < |reserved| && AtRegion(r, b) && AtPages(reserved[i], b)
  }

  /** Usable, and room for two pages of tracking memory and two of scratch space. */
  predicate Eligible(r: Region) {
    r.usable && r.end >= r.start + 4 * PAGE_SIZE
  }

  lemma SuitableMeans(r: Region, reserved: seq<Range>)
    requires r.start <= r.end
    ensures Suitable(r, reserved) <==> Eligible(r) && !Obstructed(r, reserved)
  {
    forall i | 0 <= i < |reserved|
      ensures Clashes(reserved[i], r) <==> exists b: nat :: AtRegion(r, b) && AtPages(reserved[i], b)
    {
      ClashesMeans(reserved[i], r);
    }
    if Obstructed(r, reserved) {
      var i, b: nat :| 0 <= i < |reserved| && AtRegion(r, b) && AtPages(reserved[i], b);
      assert Clashes(reserved[i], r);
    }
    if i :| 0 <= i < |reserved| && Clashes(reserved[i], r) {
      var b: nat :| AtRegion(r, b) && AtPages(reserved[i], b);
    }
  }

  lemma ClashesMeans(reserved: Range, r: Region)
    requires r.start <= r.end
    ensures Clashes(reserved, r) <==> exists b: nat :: AtRegion(r, b) && AtPages(reserved, b)
  {
    var b := if reserved.start * PAGE_SIZE >= r.start then reserved.start * PAGE_SIZE else r.start;
    if Clashes(reserved, r) {
      assert AtRegion(r, b) && AtPages(reserved, b);
    }
  }

  /** Region `k` is the first eligible one that reserved memory leaves alone. */
  ghost predicate Picked(regions: seq<Region>, reserved: seq<Range>, k: nat) {
    && k < |regions| && Eligible(regions[k]) && !Obstructed(regions[k], reserved)
    && forall i :: 0 <= i < k && Eligible(regions[i]) ==> Obstructed(regions[i], reserved)
  }

  /** No page of the tracking memory is reserved. */
  ghost predicate Unreserved(tracking: Range, reserved: seq<Range>) {
    forall i, p: nat :: 0 <= i < |reserved| && Holds(tracking, p) ==> !Holds(reserved[i], p)
  }

  lemma ChosenMeans(regions: seq<Region>, reserved: seq<Range>, k: nat)
    requires Upright(regions) && Chosen(regions, reserved, k)
    ensures k < |regions| ==> Picked(regions, reserved, k)
    ensures k == |regions| ==>
              forall i :: 0 <= i < |regions| && Eligible(regions[i]) ==> Obstructed(regions[i], reserved)
  {
    forall i | 0 <= i < |regions|
      ensures Suitable(regions[i], reserved) <==> Eligible(regions[i]) && !Obstructed(regions[i], reserved)
    {
      SuitableMeans(regions[i], reserved);
    }
  }

  lemma PickedUnreserved(regions: seq<Region>, reserved: seq<Range>, k: nat)
    requires Picked(regions, reserved, k) && regions[k].start % PAGE_SIZE == 0
    ensures Unreserved(Range(regions[k].start / PAGE_SIZE, 2), reserved)
  {
    var r := regions[k];
    var tracking := Range(r.start / PAGE_SIZE, 2);
    forall i, p: nat | 0 <= i < |reserved| && Holds(tracking, p)
      ensures !Holds(reserved[i], p)
    {
      assert AtRegion(r, p * PAGE_SIZE);
      assert !AtPages(reserved[i], p * PAGE_SIZE);
    }
  }

  method IsSuitable(r: Region, reserved: seq<Range>) returns (b: bool)
    requires r.start <= r.end
    ensures b <==> Suitable(r, reserved)
  {
    if !(r.usable && r.end - r.start >= (MIN_TRACKING_PAGES + SCRATCH_PAGES) * PAGE_SIZE) {
      return false;
    }
    for i := 0 to |reserved|
      invariant forall j :: 0 <= j < i ==> !Clashes(reserved[j], r)
    {
      if Clashes(reserved[i], r) {
        return false;
      }
    }
    b := true;
  }

  /** The first suitable region, or the length of the map. */
  ghost predicate Chosen(regions: seq<Region>, reserved: seq<Range>, k: nat)
    requires Upright(regions)
  {
    && k <= |regions| && (k < |regions| ==> Suitable(regions[k], reserved))
    && forall i :: 0 <= i < k ==> !Suitable(regions[i], reserved)
  }

  /** The first pages of the first suitable region become tracking memory. */
  method FindTracking(regions: seq<Region>, reserved: seq<Range>) returns (o: Outcome<Range>, k: nat)
    requires Upright(regions)
    ensures Chosen(regions, reserved, k)
    ensures if k == |regions| then o == Err(InsufficientMemory)
            else if regions[k].start % PAGE_SIZE != 0 then o.Panic?
            else o == Ok(Range(regions[k].start / PAGE_SIZE, SCRATCH_PAGES))
    ensures o.Err? <==> forall i :: 0 <= i < |regions| && Eligible(regions[i]) ==> Obstructed(regions[i], reserved)
    ensures !o.Err? ==> Picked(regions, reserved, k)
    ensures o.Ok? ==> Unreserved(o.value, reserved)
  {
    k := FirstSuitable(regions, reserved);
    ChosenMeans(regions, reserved, k);
    if k == |regions| {
      return Err(InsufficientMemory), k;
    }
    if regions[k].start % PAGE_SIZE != 0 {
      return Panic, k;
    }
    PickedUnreserved(regions, reserved, k);
    o := Ok(Range(regions[k].start / PAGE_SIZE, SCRATCH_PAGES));
  }

  method FirstSuitable(regions: seq<Region>, reserved: seq<Range>) returns (k: nat)
    requires Upright(regions)
    ensures Chosen(regions, reserved, k)
  {
    k := 0;
    while k < |regions|
      invariant k <= |regions| && forall i :: 0 <= i < k ==> !Suitable(regions[i], reserved)
    {
      var b := IsSuitable(regions[k], reserved);
      if b {
        return;
      }
      k := k + 1;
    }
  }

  // ---- Collecting the usable ranges ----

  predicate Aligned(r: Region)
    requires r.start <= r.end
  {
    r.start % PAGE_SIZE == 0 && (r.end - r.start) % PAGE_SIZE == 0
  }

  function PagesOf(r: Region): Range
    requires r.start <= r.end
  {
    Range(r.start / PAGE_SIZE, (r.end - r.start) / PAGE_SIZE)
  }

  /** The tracking pages are taken off a range that starts with them. */
  predicate Collectable(r: Region, tracking: Range)
    requires r.start <= r.end
  {
    r.usable ==> Aligned(r) && (PagesOf(r).start == tracking.start ==> PagesOf(r).size >= MIN_TRACKING_PAGES)
  }

  function Offered(r: Region, tracking: Range): Range
    requires r.start <= r.end && r.usable && Collectable(r, tracking)
  {
    if PagesOf(r).start == tracking.start then ShrinkLeft(PagesOf(r), MIN_TRACKING_PAGES) else PagesOf(r)
  }

  /** `rs` are the ranges offered by the usable regions, `from` says by which. */
  ghost predicate Collects(regions: seq<Region>, tracking: Range, rs: seq<Range>, from: seq<nat>)
    requires Upright(regions)
  {
    && |from| == |rs|
    && (forall i :: 0 <= i < |from| ==>
          from[i] < |regions| && regions[from[i]].usable && Collectable(regions[from[i]], tracking)
          && rs[i] == Offered(regions[from[i]], tracking))
    && (forall i, j :: 0 <= i < j < |from| ==> from[i] < from[j])
    && (forall k: nat :: k < |regions| && regions[k].usable ==> k in from)
  }

  /** One more region adds the range it offers, if it is usable. */
  lemma CollectsMore(regions: seq<Region>, k: nat, tracking: Range, rs: seq<Range>, from: seq<nat>)
    requires Upright(regions) && k < |regions| && Upright(regions[..k]) && Collects(regions[..k], tracking, rs, from)
    ensures Upright(regions[..k + 1])
    ensures !regions[k].usable ==> Collects(regions[..k + 1], tracking, rs, from)
    ensures regions[k].usable && Collectable(regions[k], tracking) ==>
              Collects(regions[..k + 1], tracking, rs + [Offered(regions[k], tracking)], from + [k])
  {
    var before, after := regions[..k], regions[..k + 1];
    assert forall i :: 0 <= i < k ==> after[i] == before[i];
    assert after[k] == regions[k];
    if regions[k].usable {
      var more := from + [k];
      assert more[|from|] == k;
      assert forall m :: m in more <==> m in from || m == k;
    }
  }

  method CollectRanges(regions: seq<Region>, tracking: Range) returns (o: Outcome<seq<Range>>, ghost from: seq<nat>)
    requires Upright(regions)
    ensures !o.Err? && (o.Ok? <==> forall k :: 0 <= k < |regions| ==> Collectable(regions[k], tracking))
    ensures o.Ok? ==> Collects(regions, tracking, o.value, from)
  {
    var ranges := [];
    from := [];
    assert regions[..0] == [];
    for k := 0 to |regions|
      invariant Upright(regions[..k]) && Collects(regions[..k], tracking, ranges, from)
      invariant forall i :: 0 <= i < k ==> Collectable(regions[i], tracking)
    {
      var region := regions[k];
      CollectsMore(regions, k, tracking, ranges, from);
      if region.usable {
        if !Aligned(region) {
          return Panic, from;
        }
        var range := PagesOf(region);
        if range.start == tracking.start {
          if range.size < MIN_TRACKING_PAGES {
            return Panic, from;
          }
          range := ShrinkLeft(range, MIN_TRACKING_PAGES);
        }
        ranges := ranges + [range];
        from := from + [k];
      }
    }
    assert regions[..|regions|] == regions;
    o := Ok(ranges);
  }

  // ---- Sorting ----

  /** `t` holds the elements of `s`, in the order given by `perm`. */
  ghost predicate Permutes(s: seq<Range>, t: seq<Range>, perm: seq<nat>) {
    && |perm| == |t| && Distinct(perm)
    && (forall i :: 0 <= i < |t| ==> perm[i] < |s| && t[i] == s[perm[i]])
    && (forall k: nat :: k < |s| ==> k in perm)
  }

  /** The next range goes where all before it start no later. */
  lemma InsertSorted(t: seq<Range>, r: Range, i: nat)
    requires SortedByStart(t) && i <= |t| && (forall j :: 0 <= j < i ==> t[j].start <= r.start)
    requires (i < |t| ==> r.start < t[i].start)
    ensures SortedByStart(t[..i] + [r] + t[i..])
  {
    var u := t[..i] + [r] + t[i..];
    assert forall j :: 0 <= j < |u| ==> u[j] == if j < i then t[j] else if j == i then r else t[j - 1];
  }

  lemma InsertPermutes(s: seq<Range>, n: nat, t: seq<Range>, perm: seq<nat>, i: nat)
    requires n < |s| && Permutes(s[..n], t, perm) && i <= |t|
    ensures Permutes(s[..n + 1], t[..i] + [s[n]] + t[i..], InsertAt(perm, i, n))
  {
    var u, q := t[..i] + [s[n]] + t[i..], InsertAt(perm, i, n);
    assert forall j :: 0 <= j < |u| ==> u[j] == if j < i then t[j] else if j == i then s[n] else t[j - 1];
    assert forall j :: 0 <= j < |q| ==> q[j] == if j < i then perm[j] else if j == i then n else perm[j - 1];
    InsertAtMembers(perm, i, n);
  }

  /** Sorts by start, in no particular order where starts are equal. */
  method SortByStart(s: seq<Range>) returns (t: seq<Range>, ghost perm: seq<nat>)
    ensures SortedByStart(t) && Permutes(s, t, perm)
  {
    t, perm := [], [];
    for n := 0 to |s|
      invariant SortedByStart(t) && Permutes(s[..n], t, perm)
    {
      var i := 0;
      while i < |t| && t[i].start <= s[n].start
        invariant i <= |t| && forall j :: 0 <= j < i ==> t[j].start <= s[n].start
      {
        i := i + 1;
      }
      InsertSorted(t, s[n], i);
      InsertPermutes(s, n, t, perm, i);
      perm := InsertAt(perm, i, n);
      t := t[..i] + [s[n]] + t[i..];
    }
    assert s[..|s|] == s;
  }

  // ---- Adding the ranges ----

  /** Adding free memory makes its pages free and nothing else. */
  lemma AddedMembers(v: Runs, k: nat, r: Range)
    requires k <= |v|
    ensures var w := Added(v, k, Run(r, Free));
            && (forall x :: Kept(w, x) <==> Kept(v, x))
            && (forall p :: FreeAt(w, p) <==> FreeAt(v, p) || Holds(r, p))
            && |w| <= |v| + 1
  {
    InsertedMembers(v, k, Run(r, Free));
    CoalesceMembers(Inserted(v, k, Run(r, Free)), k);
  }

  /** A range of pages that no run covers fits between the runs. */
  lemma UncoveredIsClear(v: Runs, r: Range)
    requires Ordered(v) && Solid(v) && r.size > 0 && forall p :: Holds(r, p) ==> !Covered(v, p)
    ensures Clear(v, NextFrom(v, r.start), r)
  {
    var k := NextFrom(v, r.start);
    if k < |v| {
      assert Holds(v[k].range, v[k].range.start);
      assert Covered(v, v[k].range.start);
    }
    if k > 0 {
      assert Holds(r, r.start);
      assert !Holds(v[k - 1].range, r.start);
    }
  }

  /** The ranges are separate from each other and from the runs, none of which is free. */
  ghost predicate Spread(v: Runs, rs: seq<Range>) {
    && Solid(v) && Separated(rs)
    && (forall i :: 0 <= i < |v| ==> !v[i].status.Free?)
    && (forall i :: 0 <= i < |rs| ==> rs[i].size > 0)
    && (forall p :: In(rs, p) ==> !Covered(v, p))
  }

  /** `w` is `v` with the pages of `rs` added as free memory, one run for each. */
  ghost predicate Stocks(v: Runs, w: Runs, rs: seq<Range>) {
    && Solid(w) && |w| == |v| + |rs|
    && (forall x :: Kept(w, x) <==> Kept(v, x))
    && (forall p :: FreeAt(w, p) <==> FreeAt(v, p) || In(rs, p))
  }

  /** A range that no free run touches is added as a run of its own. */
  lemma AddedApart(w: Runs, k: nat, r: Range)
    requires Solid(w) && k <= |w|
    requires !FreeAt(w, End(r)) && (r.start > 0 ==> !FreeAt(w, r.start - 1))
    ensures |Added(w, k, Run(r, Free))| == |w| + 1
  {
    var u := Inserted(w, k, Run(r, Free));
    assert k + 1 < |u| ==> u[k + 1] == w[k];
    assert k < |w| && w[k].range.start == End(r) ==> Holds(w[k].range, End(r));
    assert k > 0 && End(w[k - 1].range) == r.start ==> Holds(w[k - 1].range, r.start - 1);
  }

  lemma ApartIsAlone(w: Runs, k: nat, r: Range)
    requires Solid(w) && k <= |w|
    requires !FreeAt(w, End(r)) && (r.start > 0 ==> !FreeAt(w, r.start - 1))
    ensures !FreeNext(w, k, r) && !FreePrev(w, k, r)
  {
    assert k < |w| && w[k].range.start == End(r) ==> Holds(w[k].range, End(r));
    assert k > 0 && End(w[k - 1].range) == r.start ==> Holds(w[k - 1].range, r.start - 1);
  }

  /** The ranges as free runs, in the same order. */
  function FreeOf(rs: seq<Range>): Runs {
    seq(|rs|, i requires 0 <= i < |rs| => Run(rs[i], Free))
  }

  /** Before range `i` is added, no free run touches it. */
  lemma NextIsApart(v: Runs, w: Runs, rs: seq<Range>, i: nat)
    requires i < |rs| && Spread(v, rs) && Stocks(v, w, rs[..i])
    ensures !FreeAt(w, End(rs[i])) && (rs[i].start > 0 ==> !FreeAt(w, rs[i].start - 1))
  {
    assert forall j :: 0 <= j < i ==> rs[..i][j] == rs[j] && End(rs[j]) < rs[i].start;
  }

  lemma StocksMore(v: Runs, w: Runs, rs: seq<Range>, i: nat)
    requires Ordered(w) && Coalesced(w) && i < |rs| && Spread(v, rs) && Stocks(v, w, rs[..i])
    ensures var k := NextFrom(w, rs[i].start);
            Clear(w, k, rs[i]) && Stocks(v, Added(w, k, Run(rs[i], Free)), rs[..i + 1])
  {
    var r := rs[i];
    forall p | Holds(r, p)
      ensures !Covered(w, p)
    {
      assert In(rs, p);
      CoveredIs(v, p);
      CoveredIs(w, p);
    }
    UncoveredIsClear(w, r);
    var k := NextFrom(w, r.start);
    AddedMembers(w, k, r);
    AddedKeeps(w, k, Run(r, Free));
    NextIsApart(v, w, rs, i);
    AddedApart(w, k, r);
    var next := rs[..i + 1];
    assert next == rs[..i] + [r];
    forall p
      ensures In(next, p) <==> In(rs[..i], p) || Holds(r, p)
    {
      assert next[i] == r && forall j :: 0 <= j < i ==> next[j] == rs[..i][j];
    }
  }

  /** The first `i` ranges have been added, in order. */
  ghost predicate AddedSoFar(v: Runs, f: Runs, rs: seq<Range>, i: nat, w: Runs, g: Runs)
    requires i <= |rs|
  {
    Stocks(v, w, rs[..i]) && g == f + FreeOf(rs[..i])
  }

  lemma FreeOfMore(f: Runs, rs: seq<Range>, i: nat)
    requires i < |rs|
    ensures f + FreeOf(rs[..i + 1]) == f + FreeOf(rs[..i]) + [Run(rs[i], Free)]
  {
  }

  /** One more range. */
  method AddNext(a: AllocatorInner, rs: seq<Range>, i: nat, ghost v: Runs, ghost f: Runs) returns (ok: bool)
    requires a.Valid() && i < |rs|
    modifies a
    ensures ok ==> a.Valid() && |a.nodes| == old(|a.nodes|)
    ensures ok ==> forall x :: Kept(a.View(), x) <==> Kept(old(a.View()), x)
    ensures Spread(v, rs) && AddedSoFar(v, f, rs, i, old(a.View()), old(a.FreeRuns())) ==>
              && (ok <==> old(|a.View()|) < old(|a.nodes|))
              && (ok ==> AddedSoFar(v, f, rs, i + 1, a.View(), a.FreeRuns()))
  {
    a.NodesAreRunsAndUnused();
    ghost var w, k := a.View(), NextFrom(a.View(), rs[i].start);
    AddedMembers(w, k, rs[i]);
    if Spread(v, rs) && AddedSoFar(v, f, rs, i, w, a.FreeRuns()) {
      StocksMore(v, w, rs, i);
      NextIsApart(v, w, rs, i);
      ApartIsAlone(w, k, rs[i]);
      FreeOfMore(f, rs, i);
    }
    ok := a.AddAllocatableRange(rs[i]);
  }

  method AddRanges(a: AllocatorInner, rs: seq<Range>) returns (ok: bool)
    requires a.Valid()
    modifies a
    ensures ok ==> a.Valid() && |a.nodes| == old(|a.nodes|)
    ensures Spread(old(a.View()), rs) ==> (ok <==> old(|a.View()|) + |rs| <= old(|a.nodes|))
    ensures Spread(old(a.View()), rs) && ok ==>
              Stocks(old(a.View()), a.View(), rs) && a.FreeRuns() == old(a.FreeRuns()) + FreeOf(rs)
    ensures ok ==> forall x :: Kept(a.View(), x) <==> Kept(old(a.View()), x)
  {
    ghost var v, f := a.View(), a.FreeRuns();
    assert rs[..0] == [] && FreeOf(rs[..0]) == [];
    a.NodesAreRunsAndUnused();
    for i := 0 to |rs|
      invariant a.Valid() && |a.nodes| == old(|a.nodes|)
      invariant forall x :: Kept(a.View(), x) <==> Kept(v, x)
      invariant Spread(v, rs) ==> AddedSoFar(v, f, rs, i, a.View(), a.FreeRuns()) && |a.View()| <= |a.nodes|
    {
      ok := AddNext(a, rs, i, v, f);
      if !ok {
        return;
      }
      a.NodesAreRunsAndUnused();
    }
    assert rs[..|rs|] == rs;
    ok := true;
  }

  // ---- The whole construction ----

  /** The usable regions are whole pages, not empty, and do not overlap. */
  ghost predicate Tidy(regions: seq<Region>)
    requires Upright(regions)
  {
    && (forall i :: 0 <= i < |regions| && regions[i].usable ==> Aligned(regions[i]) && PagesOf(regions[i]).size > 0)
    && (forall i, j :: 0 <= i < j < |regions| && regions[i].usable && regions[j].usable ==>
                         Apart(PagesOf(regions[i]), PagesOf(regions[j])))
  }

  predicate Apart(a: Range, b: Range) {
    End(a) <= b.start || End(b) <= a.start
  }

  ghost predicate UsablePage(regions: seq<Region>, p: nat)
    requires Upright(regions)
  {
    exists i :: 0 <= i < |regions| && regions[i].usable && Holds(PagesOf(regions[i]), p)
  }

  /** The bytes of page `p` lie in the region. */
  predicate PageInside(r: Region, p: nat) {
    r.start <= p * PAGE_SIZE && p * PAGE_SIZE + PAGE_SIZE <= r.end
  }

  lemma AlignedMeans(r: Region)
    requires r.start <= r.end
    ensures Aligned(r) <==> r.start % 4096 == 0 && r.end % 4096 == 0
    ensures Aligned(r) ==> forall p: nat :: Holds(PagesOf(r), p) <==> PageInside(r, p)
  {
    if Aligned(r) {
      assert PagesOf(r).start * 4096 == r.start && End(PagesOf(r)) * 4096 == r.end;
    }
  }

  /** Tidy and usable, said of bytes. */
  lemma TidyMeans(regions: seq<Region>)
    requires Upright(regions)
    ensures Tidy(regions) <==>
            && (forall i :: 0 <= i < |regions| && regions[i].usable ==>
                  regions[i].start % 4096 == 0 && regions[i].end % 4096 == 0 && regions[i].start < regions[i].end)
            && (forall i, j :: 0 <= i < j < |regions| && regions[i].usable && regions[j].usable ==>
                  regions[i].end <= regions[j].start || regions[j].end <= regions[i].start)
    ensures Tidy(regions) ==>
              forall p: nat :: UsablePage(regions, p) <==>
                               exists i :: 0 <= i < |regions| && regions[i].usable && PageInside(regions[i], p)
  {
    forall i | 0 <= i < |regions|
      ensures Aligned(regions[i]) <==> regions[i].start % 4096 == 0 && regions[i].end % 4096 == 0
      ensures Aligned(regions[i]) ==> forall p: nat :: Holds(PagesOf(regions[i]), p) <==> PageInside(regions[i], p)
      ensures Aligned(regions[i]) ==>
                && PagesOf(regions[i]).start * 4096 == regions[i].start
                && End(PagesOf(regions[i])) * 4096 == regions[i].end
    {
      AlignedMeans(regions[i]);
    }
  }

  /** Which regions can be collected and what they offer, said of bytes. */
  lemma CollectableMeans(r: Region, tracking: Range)
    requires r.start <= r.end && r.usable
    ensures Collectable(r, tracking) <==>
            && r.start % 4096 == 0 && r.end % 4096 == 0
            && (r.start == tracking.start * 4096 ==> r.end >= r.start + 2 * 4096)
    ensures Collectable(r, tracking) ==>
              forall p: nat :: Holds(Offered(r, tracking), p) <==>
                               PageInside(r, p) && (r.start == tracking.start * 4096 ==> p >= tracking.start + 2)
  {
    AlignedMeans(r);
  }

  /** The region the tracking pages come from, in a tidy map. */
  lemma TrackingRegion(regions: seq<Region>, reserved: seq<Range>, k: nat, tracking: Range, i: nat)
    requires Upright(regions) && Tidy(regions) && Chosen(regions, reserved, k) && k < |regions|
    requires tracking == Range(regions[k].start / PAGE_SIZE, SCRATCH_PAGES) && i < |regions| && regions[i].usable
    ensures Collectable(regions[i], tracking) && Offered(regions[i], tracking).size > 0
    ensures forall p :: Holds(Offered(regions[i], tracking), p) <==>
            Holds(PagesOf(regions[i]), p) && !Holds(tracking, p)
    ensures forall p :: Holds(tracking, p) ==> Holds(PagesOf(regions[k]), p)
  {
    assert PagesOf(regions[k]).size >= 4;
    if i != k {
      assert Apart(PagesOf(regions[i]), PagesOf(regions[k]));
    }
  }

  /** The ranges offered by a tidy map: separate, and all the usable memory but the tracking pages. */
  lemma CollectedPages(regions: seq<Region>, reserved: seq<Range>, k: nat, tracking: Range, rs: seq<Range>,
      from: seq<nat>)
    requires Upright(regions) && Tidy(regions) && Chosen(regions, reserved, k) && k < |regions|
    requires tracking == Range(regions[k].start / PAGE_SIZE, SCRATCH_PAGES) && Collects(regions, tracking, rs, from)
    ensures forall i :: 0 <= i < |rs| ==> rs[i].size > 0
    ensures forall i, j :: 0 <= i < j < |rs| ==> Apart(rs[i], rs[j])
    ensures forall p :: In(rs, p) <==> UsablePage(regions, p) && !Holds(tracking, p)
  {
    forall i | 0 <= i < |rs|
      ensures rs[i].size > 0
    {
      TrackingRegion(regions, reserved, k, tracking, from[i]);
    }
    forall i, j | 0 <= i < j < |rs|
      ensures Apart(rs[i], rs[j])
    {
      assert Apart(PagesOf(regions[from[i]]), PagesOf(regions[from[j]]));
    }
    forall p
      ensures In(rs, p) <==> UsablePage(regions, p) && !Holds(tracking, p)
    {
      if In(rs, p) {
        var i :| 0 <= i < |rs| && Holds(rs[i], p);
        TrackingRegion(regions, reserved, k, tracking, from[i]);
      }
      if UsablePage(regions, p) && !Holds(tracking, p) {
        var m :| 0 <= m < |regions| && regions[m].usable && Holds(PagesOf(regions[m]), p);
        TrackingRegion(regions, reserved, k, tracking, m);
        var i :| 0 <= i < |from| && from[i] == m;
        assert Holds(rs[i], p);
      }
    }
  }

  /** Sorting separate ranges sorts their ends too. */
  lemma SortedApart(s: seq<Range>, t: seq<Range>, perm: seq<nat>)
    requires Permutes(s, t, perm) && SortedByStart(t)
    requires (forall i :: 0 <= i < |s| ==> s[i].size > 0) && forall i, j :: 0 <= i < j < |s| ==> Apart(s[i], s[j])
    ensures forall i, j :: 0 <= i < j < |t| ==> End(t[i]) <= End(t[j])
    ensures forall i :: 0 <= i < |t| ==> t[i].size > 0
    ensures forall p :: In(t, p) <==> In(s, p)
    ensures |t| == |s|
  {
    forall i, j | 0 <= i < j < |t|
      ensures End(t[i]) <= End(t[j])
    {
      assert Apart(s[perm[i]], s[perm[j]]);
    }
    forall p
      ensures In(t, p) <==> In(s, p)
    {
      if In(s, p) {
        var k :| 0 <= k < |s| && Holds(s[k], p);
        assert k in perm;
        var i :| 0 <= i < |perm| && perm[i] == k;
        assert Holds(t[i], p);
      }
    }
    PermutationLength(perm, |s|);
  }

  /** Distinct numbers below `n`, all of them, are `n` in number. */
  lemma {:induction false} PermutationLength(perm: seq<nat>, n: nat)
    requires Distinct(perm) && (forall i :: 0 <= i < |perm| ==> perm[i] < n) && forall k: nat :: k < n ==> k in perm
    ensures |perm| == n
    decreases n
  {
    assert |perm| > 0 ==> perm[0] < n;
    if n > 0 {
      assert n - 1 in perm;
      var i :| 0 <= i < |perm| && perm[i] == n - 1;
      RemoveAtMembers(perm, i);
      PermutationLength(RemoveAt(perm, i), n - 1);
    }
  }

  ghost predicate FreePage(regions: seq<Region>, tracking: Range, p: nat)
    requires Upright(regions)
  {
    UsablePage(regions, p) && !Holds(tracking, p)
  }

  /** The pages after usable regions that are not free: one for each stretch of memory to be allocated from. */
  ghost function Breaks(regions: seq<Region>, tracking: Range): set<nat>
    requires Upright(regions)
  {
    set i | 0 <= i < |regions| && regions[i].usable && !FreePage(regions, tracking, End(PagesOf(regions[i]))) ::
      End(PagesOf(regions[i]))
  }

  function EndsOf(rs: seq<Range>): set<nat> {
    set i | 0 <= i < |rs| :: End(rs[i])
  }

  lemma {:induction false} EndsCount(rs: seq<Range>)
    requires Separated(rs)
    ensures |EndsOf(rs)| == |rs|
    decreases |rs|
  {
    if rs != [] {
      var n := |rs| - 1;
      EndsCount(rs[..n]);
      assert EndsOf(rs) == EndsOf(rs[..n]) + {End(rs[n])} by {
        assert forall i :: 0 <= i < n ==> rs[..n][i] == rs[i];
      }
      assert End(rs[n]) !in EndsOf(rs[..n]);
    }
  }

  /** Inside a region, free pages are not followed by tracking pages. */
  lemma FreeThenNot(r: Range, first: Range, tracking: Range, e: nat, same: bool)
    requires e > 0 && Holds(r, e - 1) && !Holds(tracking, e - 1) && (Holds(r, e) ==> Holds(tracking, e))
    requires tracking.start == first.start && End(tracking) <= End(first)
    requires if same then r == first else Apart(r, first)
    ensures e == End(r)
  {
  }

  /** Where the merged ranges end. */
  lemma EndIsBreak(regions: seq<Region>, reserved: seq<Range>, k: nat, tracking: Range, m: seq<Range>, i: nat)
    requires Upright(regions) && Tidy(regions) && Chosen(regions, reserved, k) && k < |regions|
    requires tracking == Range(regions[k].start / PAGE_SIZE, SCRATCH_PAGES)
    requires Separated(m) && i < |m| && m[i].size > 0 && forall p :: In(m, p) <==> FreePage(regions, tracking, p)
    ensures End(m[i]) in Breaks(regions, tracking)
  {
    var e := End(m[i]);
    assert Holds(m[i], e - 1);
    assert FreePage(regions, tracking, e - 1);
    var j :| 0 <= j < |regions| && regions[j].usable && Holds(PagesOf(regions[j]), e - 1);
    assert !In(m, e);
    TrackingRegion(regions, reserved, k, tracking, j);
    assert j != k ==> Apart(PagesOf(regions[j]), PagesOf(regions[k]));
    FreeThenNot(PagesOf(regions[j]), PagesOf(regions[k]), tracking, e, j == k);
  }

  lemma BreakIsEnd(regions: seq<Region>, reserved: seq<Range>, k: nat, tracking: Range, m: seq<Range>, e: nat)
    requires Upright(regions) && Tidy(regions) && Chosen(regions, reserved, k) && k < |regions|
    requires tracking == Range(regions[k].start / PAGE_SIZE, SCRATCH_PAGES)
    requires (forall p :: In(m, p) <==> FreePage(regions, tracking, p)) && e in Breaks(regions, tracking)
    ensures e in EndsOf(m)
  {
    var j :| 0 <= j < |regions| && regions[j].usable && e == End(PagesOf(regions[j]))
             && !FreePage(regions, tracking, e);
    TrackingRegion(regions, reserved, k, tracking, j);
    assert Holds(PagesOf(regions[j]), e - 1);
    assert Holds(Offered(regions[j], tracking), e - 1);
    assert FreePage(regions, tracking, e - 1);
    var i :| 0 <= i < |m| && Holds(m[i], e - 1);
    assert !In(m, e);
    assert !Holds(m[i], e);
  }

  /** The merged ranges of a tidy map are as many as its breaks. */
  lemma MergedCount(regions: seq<Region>, reserved: seq<Range>, k: nat, tracking: Range, m: seq<Range>)
    requires Upright(regions) && Tidy(regions) && Chosen(regions, reserved, k) && k < |regions|
    requires tracking == Range(regions[k].start / PAGE_SIZE, SCRATCH_PAGES) && Separated(m)
    requires (forall i :: 0 <= i < |m| ==> m[i].size > 0) && forall p :: In(m, p) <==> FreePage(regions, tracking, p)
    ensures |m| == |Breaks(regions, tracking)|
  {
    EndsCount(m);
    forall i | 0 <= i < |m|
      ensures End(m[i]) in Breaks(regions, tracking)
    {
      EndIsBreak(regions, reserved, k, tracking, m, i);
    }
    forall e | e in Breaks(regions, tracking)
      ensures e in EndsOf(m)
    {
      BreakIsEnd(regions, reserved, k, tracking, m, e);
    }
    assert EndsOf(m) == Breaks(regions, tracking);
  }

  lemma {:induction false} MergedSizes(s: seq<Range>)
    requires SortedByStart(s) && forall i :: 0 <= i < |s| ==> s[i].size > 0
    ensures |Merged(s)| <= |s| && forall i :: 0 <= i < |Merged(s)| ==> Merged(s)[i].size > 0
    decreases |s|
  {
    if |s| > 1 {
      if Intersects(s[0], s[1]) {
        MergedSizes([Fused(s[0], s[1])] + s[2..]);
      } else {
        MergedSizes(s[1..]);
      }
    }
  }

  /** The merged ranges of a tidy map are separate from each other and the tracking run, and as many as its breaks. */
  lemma TidyIsSpread(regions: seq<Region>, reserved: seq<Range>, k: nat, tracking: Range, rs: seq<Range>,
                     from: seq<nat>, t: seq<Range>, perm: seq<nat>)
    requires Upright(regions) && Tidy(regions) && Chosen(regions, reserved, k) && k < |regions|
    requires tracking == Range(regions[k].start / PAGE_SIZE, SCRATCH_PAGES) && Collects(regions, tracking, rs, from)
    requires SortedByStart(t) && Permutes(rs, t, perm)
    ensures Spread([Run(tracking, Tracking)], Merged(t))
    ensures forall p :: In(Merged(t), p) <==> UsablePage(regions, p) && !Holds(tracking, p)
    ensures |Merged(t)| == |Breaks(regions, tracking)|
  {
    CollectedPages(regions, reserved, k, tracking, rs, from);
    SortedApart(rs, t, perm);
    MergeOfSortedEnds(t);
    MergedSeparated(t);
    MergedSizes(t);
    MergedCount(regions, reserved, k, tracking, Merged(t));
  }

  /** The allocator just after construction: the tracking pages are kept, the rest of the usable memory is free. */
  ghost predicate Initialised(v: Runs, regions: seq<Region>, tracking: Range)
    requires Upright(regions)
  {
    && Canonical(v) && (forall r :: Kept(v, r) <==> r == Run(tracking, Tracking))
    && (forall p :: FreeAt(v, p) <==> UsablePage(regions, p) && !Holds(tracking, p))
    && (forall p :: Covered(v, p) <==> UsablePage(regions, p))
  }

  lemma StockedIsInitialised(v: Runs, regions: seq<Region>, k: nat, tracking: Range, rs: seq<Range>)
    requires Upright(regions) && Canonical(v) && Stocks([Run(tracking, Tracking)], v, rs)
    requires k < |regions| && regions[k].usable && forall p :: Holds(tracking, p) ==> Holds(PagesOf(regions[k]), p)
    requires forall p :: In(rs, p) <==> UsablePage(regions, p) && !Holds(tracking, p)
    ensures Initialised(v, regions, tracking)
  {
    var start := [Run(tracking, Tracking)];
    assert start[0] == Run(tracking, Tracking);
    assert forall r :: Kept(start, r) <==> r == Run(tracking, Tracking);
    forall p
      ensures Covered(v, p) <==> UsablePage(regions, p)
    {
      CoveredIs(v, p);
      assert Kept(v, Run(tracking, Tracking));
    }
  }

  /** Building from a tidy map succeeds exactly with a node for the tracking run and for every stretch of memory. */
  ghost predicate Builds(regions: seq<Region>, tracking: Range, runCount: nat, o: Outcome<AllocatorInner>)
    requires Upright(regions) && (o.Ok? ==> o.value.Valid())
    reads if o.Ok? then {o.value} else {}
  {
    && (o.Ok? <==> |Breaks(regions, tracking)| < runCount)
    && (o.Ok? ==> Initialised(o.value.View(), regions, tracking) && Ascending(o.value.FreeRuns()))
  }

  /** The allocator keeps its records on the first two pages of region `k`, which nothing reserves. */
  ghost predicate BuiltOn(regions: seq<Region>, reserved: seq<Range>, k: nat, runCount: nat,
                          o: Outcome<AllocatorInner>)
    requires Upright(regions) && k < |regions| && (o.Ok? ==> o.value.Valid())
    reads if o.Ok? then {o.value} else {}
  {
    var tracking := Range(regions[k].start / PAGE_SIZE, 2);
    && (o.Ok? ==>
          && regions[k].start % PAGE_SIZE == 0 && Unreserved(tracking, reserved)
          && forall x :: Kept(o.value.View(), x) <==> x == Run(tracking, Tracking))
    && (Tidy(regions) ==> Builds(regions, tracking, runCount, o))
  }

  /**
   Builds the allocator. There is an error exactly when no usable region of four pages
   is clear of the reserved ranges. For a tidy memory map it otherwise succeeds exactly
   when there are enough nodes, and then the free and the tracking pages together are
   exactly the usable memory.
   */
  method Build(regions: seq<Region>, reserved: seq<Range>, runCount: nat) returns (o: Outcome<AllocatorInner>)
    requires Upright(regions)
    ensures o.Err? <==> forall i :: 0 <= i < |regions| && Eligible(regions[i]) ==> Obstructed(regions[i], reserved)
    ensures o.Err? ==> o.error.InsufficientMemory?
    ensures o.Ok? ==> fresh(o.value) && o.value.Valid() && |o.value.nodes| == runCount
    ensures !o.Err? ==>
              exists k: nat :: Picked(regions, reserved, k) && BuiltOn(regions, reserved, k, runCount, o)
  {
    var tracked, k := FindTracking(regions, reserved);
    if tracked.Err? {
      return Err(InsufficientMemory);
    }
    if tracked.Panic? {
      return Panic;
    }
    o := BuildOn(regions, reserved, runCount, k);
  }

  /** The construction once the tracking pages are chosen. */
  method BuildOn(regions: seq<Region>, ghost reserved: seq<Range>, runCount: nat, k: nat)
    returns (o: Outcome<AllocatorInner>)
    requires Upright(regions) && Chosen(regions, reserved, k) && Picked(regions, reserved, k)
    requires regions[k].start % PAGE_SIZE == 0
    ensures !o.Err? && (o.Ok? ==> fresh(o.value) && o.value.Valid() && |o.value.nodes| == runCount)
    ensures BuiltOn(regions, reserved, k, runCount, o)
  {
    var tracking := Range(regions[k].start / PAGE_SIZE, SCRATCH_PAGES);
    PickedUnreserved(regions, reserved, k);
    ghost var tidy := Tidy(regions);
    if tidy {
      TidyCollectable(regions, reserved, k, tracking);
    }
    var collected, from := CollectRanges(regions, tracking);
    if !collected.Ok? {
      return Panic;
    }
    var sorted, perm := SortByStart(collected.value);
    var ranges := MergeRanges(sorted);
    if tidy {
      TidyIsSpread(regions, reserved, k, tracking, collected.value, from, sorted, perm);
      TrackingRegion(regions, reserved, k, tracking, k);
    }
    o := Stock(runCount, tracking, ranges);
    if tidy && o.Ok? {
      StockedIsInitialised(o.value.View(), regions, k, tracking, ranges);
    }
  }

  lemma TidyCollectable(regions: seq<Region>, reserved: seq<Range>, k: nat, tracking: Range)
    requires Upright(regions) && Tidy(regions) && Chosen(regions, reserved, k) && k < |regions|
    requires tracking == Range(regions[k].start / PAGE_SIZE, SCRATCH_PAGES)
    ensures forall i :: 0 <= i < |regions| ==> Collectable(regions[i], tracking)
  {
    forall i | 0 <= i < |regions|
      ensures Collectable(regions[i], tracking)
    {
      if regions[i].usable {
        TrackingRegion(regions, reserved, k, tracking, i);
      }
    }
  }

  /** An allocator with the tracking pages and the ranges. */
  method Stock(runCount: nat, tracking: Range, ranges: seq<Range>) returns (o: Outcome<AllocatorInner>)
    ensures !o.Err? && (o.Ok? ==> fresh(o.value) && o.value.Valid() && |o.value.nodes| == runCount)
    ensures o.Ok? ==> forall x :: Kept(o.value.View(), x) <==> x == Run(tracking, Tracking)
    ensures Spread([Run(tracking, Tracking)], ranges) ==>
              && (o.Ok? <==> |ranges| < runCount)
              && (o.Ok? ==> Stocks([Run(tracking, Tracking)], o.value.View(), ranges)
                            && o.value.FreeRuns() == FreeOf(ranges) && Ascending(o.value.FreeRuns()))
  {
    var a, ok := MakeTracking(runCount, tracking);
    if !ok {
      return Panic;
    }
    ok := AddRanges(a, ranges);
    if !ok {
      return Panic;
    }
    SeparatedAscends(ranges);
    assert [] + FreeOf(ranges) == FreeOf(ranges);
    o := Ok(a);
  }

  /** An allocator with the tracking pages only. */
  method MakeTracking(runCount: nat, tracking: Range) returns (a: AllocatorInner, ok: bool)
    ensures fresh(a) && (ok <==> runCount > 0)
    ensures ok ==> a.Valid() && |a.nodes| == runCount && a.View() == [Run(tracking, Tracking)] && a.FreeRuns() == []
    ensures ok ==> forall x :: Kept(a.View(), x) <==> x == Run(tracking, Tracking)
  {
    a := new AllocatorInner();
    ok := a.InitTrackingSpace(runCount, tracking);
    if ok {
      assert a.View() == [Run(tracking, Tracking)];
      assert a.View()[0] == Run(tracking, Tracking);
      NoneFree(a.nodes, a.runs, a.free, a.unused);
    }
  }

  lemma SeparatedAscends(rs: seq<Range>)
    ensures Separated(rs) ==> Ascending(FreeOf(rs))
  {
    if Separated(rs) {
      var f := FreeOf(rs);
      assert forall i :: 0 <= i < |f| ==> f[i].range == rs[i];
      assert forall i, j :: 0 <= i < j < |rs| ==> End(rs[i]) < rs[j].start;
    }
  }

  lemma NoneFree(nodes: seq<Run>, runs: seq<Node>, free: seq<Node>, unused: seq<Node>)
    requires Linked(nodes, runs, free, unused, {})
    requires forall i :: 0 <= i < |runs| ==> !ViewOf(nodes, runs)[i].status.Free?
    ensures free == []
  {
    assert |free| > 0 ==> free[0] in free;
    forall n | n in runs
      ensures !nodes[n].status.Free?
    {
      var i :| 0 <= i < |runs| && runs[i] == n;
      assert ViewOf(nodes, runs)[i] == nodes[n];
    }
  }

  /**
   From construction on: after any sequence of allocations and deallocations the runs
   are sorted, without overlap and coalesced, and cover exactly the usable memory, the
   tracking pages are intact, and once nothing is allocated the list is the one
   construction made.
   */
  lemma BuiltAllocatorRuns(v: Runs, regions: seq<Region>, tracking: Range, qs: seq<Request>)
    requires Upright(regions) && Initialised(v, regions, tracking) && AllPossible(v, qs)
    ensures var w := Answered(v, qs);
            && Sound(w) && (AllPositive(qs) ==> Canonical(w) && Unsplit(w) && SearchComplete(w))
            && Kept(w, Run(tracking, Tracking))
            && (forall p :: Covered(w, p) <==> UsablePage(regions, p))
            && ((forall r: Range :: !Kept(w, Run(r, Allocated))) ==> w == v)
  {
    SolidAnchored(v);
    RequestsKeep(v, qs);
    assert Kept(v, Run(tracking, Tracking));
    var w := Answered(v, qs);
    if forall r: Range :: !Kept(w, Run(r, Allocated)) {
      forall i | 0 <= i < |v|
        ensures !v[i].status.Unused?
      {
        assert v[i].status.Unused? ==> Kept(v, v[i]);
      }
      FreeingRestores(v, qs);
    }
  }
}
