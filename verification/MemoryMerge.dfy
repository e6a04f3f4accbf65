/**
 The merge of the usable memory ranges when the root allocator is built: sorted by start,
 neighbours that overlap or touch become one. The merged range ends where the later of
 the two ends, even when the earlier one reaches further.
 */
module MemoryMerge {
  import opened PageRanges

  predicate SortedByStart(s: seq<Range>) {
    forall i, j :: 0 <= i < j < |s| ==> s[i].start <= s[j].start
  }

  predicate In(s: seq<Range>, p: nat) {
    exists i :: 0 <= i < |s| && Holds(s[i], p)
  }

  /** Two neighbours as one, of the size the loop computes. */
  function Fused(a: Range, b: Range): Range
    requires a.start <= b.start
  {
    Range(a.start, End(b) - a.start)
  }

  function Merged(s: seq<Range>): seq<Range>
    requires SortedByStart(s)
    decreases |s|
  {
    if |s| <= 1 then s
    else if Intersects(s[0], s[1]) then Merged([Fused(s[0], s[1])] + s[2..])
    else [s[0]] + Merged(s[1..])
  }

  /** What one merging iteration does to the vector. */
  lemma FuseStep(r: seq<Range>, i: nat, t: seq<Range>)
    requires SortedByStart(r) && 1 <= i < |r| && Intersects(r[i - 1], r[i])
    requires |t| == |r| - 1 && t[i - 1] == Fused(r[i - 1], r[i])
    requires forall k :: 0 <= k < |t| && k != i - 1 ==> t[k] == r[if k < i then k else k + 1]
    ensures SortedByStart(t) && t[..i - 1] == r[..i - 1] && Merged(t[i - 1..]) == Merged(r[i - 1..])
  {
    assert t[i - 1..] == [Fused(r[i - 1..][0], r[i - 1..][1])] + r[i - 1..][2..];
  }

  /** The loop of `Allocator::build`. */
  method MergeRanges(s: seq<Range>) returns (r: seq<Range>)
    requires SortedByStart(s)
    ensures r == Merged(s)
  {
    r := s;
    var i := 1;
    while i < |r|
      invariant 1 <= i && SortedByStart(r)
      invariant if s == [] then r == s else i <= |r| && Merged(s) == r[..i - 1] + Merged(r[i - 1..])
      decreases |r| - i
    {
      var prev, cur := r[i - 1], r[i];
      if Intersects(prev, cur) {
        var size := End(cur) - prev.start;
        ghost var before := r;
        r := r[..i] + r[i + 1..];
        r := r[i - 1 := Range(r[i - 1].start, size)];
        FuseStep(before, i, r);
      } else {
        assert r[..i] == r[..i - 1] + [prev];
        assert r[i - 1..][0] == prev && r[i - 1..][1] == cur && r[i - 1..][1..] == r[i..];
        i := i + 1;
      }
    }
  }

  // ---- What the merge gives ----

  /** Every range ends before the next one starts, with a gap in between. */
  predicate Separated(s: seq<Range>) {
    forall i, j :: 0 <= i < j < |s| ==> End(s[i]) < s[j].start
  }

  lemma {:induction false} MergedFirst(s: seq<Range>)
    requires SortedByStart(s) && s != []
    ensures Merged(s) != [] && Merged(s)[0].start == s[0].start
    decreases |s|
  {
    if |s| > 1 && Intersects(s[0], s[1]) {
      MergedFirst([Fused(s[0], s[1])] + s[2..]);
    }
  }

  lemma {:induction false} MergedSeparated(s: seq<Range>)
    requires SortedByStart(s)
    ensures Separated(Merged(s))
    decreases |s|
  {
    if |s| > 1 {
      if Intersects(s[0], s[1]) {
        MergedSeparated([Fused(s[0], s[1])] + s[2..]);
      } else {
        MergedSeparated(s[1..]);
        MergedFirst(s[1..]);
        var m := Merged(s[1..]);
        forall j | 0 <= j < |m|
          ensures End(s[0]) < m[j].start
        {
          assert j > 0 ==> End(m[0]) < m[j].start;
        }
      }
    }
  }

  lemma {:induction false} MergedAddsNothing(s: seq<Range>, p: nat)
    requires SortedByStart(s) && In(Merged(s), p)
    ensures In(s, p)
    decreases |s|
  {
    if |s| > 1 {
      if Intersects(s[0], s[1]) {
        var t := [Fused(s[0], s[1])] + s[2..];
        MergedAddsNothing(t, p);
        var i :| 0 <= i < |t| && Holds(t[i], p);
        assert if i == 0 then Holds(s[0], p) || Holds(s[1], p) else Holds(s[i + 1], p);
      } else if Holds(s[0], p) {
      } else {
        var m := Merged(s);
        var i :| 0 <= i < |m| && Holds(m[i], p);
        assert Merged(s[1..])[i - 1] == m[i];
        MergedAddsNothing(s[1..], p);
        var j :| 0 <= j < |s[1..]| && Holds(s[1..][j], p);
        assert Holds(s[j + 1], p);
      }
    }
  }

  /** Range `b` is the last of those that become one. */
  predicate Break(s: seq<Range>, b: nat) {
    b < |s| && (b + 1 < |s| ==> End(s[b]) < s[b + 1].start)
  }

  /** Range `j` reaches further than the last range it is merged with, or past a gap. */
  predicate Overhang(s: seq<Range>, j: nat, b: nat) {
    j < b && Break(s, b) && End(s[j]) > End(s[b])
  }

  ghost predicate NoOverhang(s: seq<Range>) {
    forall j: nat, b: nat :: !Overhang(s, j, b)
  }

  /** The page after the last of the ranges that become one is in no merged range. */
  lemma {:induction false} BreakUncovered(s: seq<Range>, b: nat)
    requires SortedByStart(s) && Break(s, b)
    ensures !In(Merged(s), End(s[b]))
    decreases |s|
  {
    if |s| > 1 {
      if Intersects(s[0], s[1]) {
        var t := [Fused(s[0], s[1])] + s[2..];
        assert End(t[b - 1]) == End(s[b]);
        assert b + 1 < |s| ==> t[b] == s[b + 1];
        BreakUncovered(t, b - 1);
      } else {
        var m, p := Merged(s[1..]), End(s[b]);
        ConsIn(s[0], m, p);
        if b > 0 {
          BreakUncovered(s[1..], b - 1);
        } else {
          MergedAfter(s[1..], p);
        }
      }
    }
  }

  /** Nothing before the first range is merged in. */
  lemma MergedAfter(s: seq<Range>, p: nat)
    requires SortedByStart(s) && s != [] && p < s[0].start
    ensures !In(Merged(s), p)
  {
    if In(Merged(s), p) {
      MergedAddsNothing(s, p);
    }
  }

  /** Range `k + 1` overlaps or touches range `k`. */
  predicate Joined(s: seq<Range>, k: nat) {
    k + 1 < |s| && s[k + 1].start <= End(s[k])
  }

  predicate Connected(s: seq<Range>, a: nat, b: nat) {
    forall k: nat :: a <= k < b ==> Joined(s, k)
  }

  /** Pages between the start of range `a` and the end of range `b` are covered when no gap lies between them. */
  lemma {:induction false} ChainCovers(s: seq<Range>, a: nat, b: nat, p: nat) returns (i: nat)
    requires a <= b < |s| && s[a].start <= p < End(s[b])
    requires Connected(s, a, b)
    ensures a <= i <= b && Holds(s[i], p)
    decreases b - a
  {
    if p < End(s[a]) {
      i := a;
    } else {
      assert Joined(s, a);
      i := ChainCovers(s, a + 1, b, p);
    }
  }

  /** The first break from `a` on. */
  lemma {:induction false} NextBreak(s: seq<Range>, a: nat) returns (b: nat)
    requires a < |s|
    ensures a <= b && Break(s, b) && Connected(s, a, b)
    decreases |s| - a
  {
    b := a;
    if !Break(s, a) {
      assert Joined(s, a);
      b := NextBreak(s, a + 1);
    }
  }

  /** Fusing or dropping the first range makes no overhang. */
  lemma TailNoOverhang(s: seq<Range>, t: seq<Range>)
    requires NoOverhang(s) && |t| == |s| - 1
    requires forall k :: 0 <= k < |t| ==> End(t[k]) == End(s[k + 1]) && (k > 0 ==> t[k].start == s[k + 1].start)
    ensures NoOverhang(t)
  {
    forall j: nat, b: nat
      ensures !Overhang(t, j, b)
    {
      assert !Overhang(s, j + 1, b + 1);
    }
  }

  lemma {:induction false} NoOverhangKeeps(s: seq<Range>, p: nat)
    requires SortedByStart(s) && NoOverhang(s) && In(s, p)
    ensures In(Merged(s), p)
    decreases |s|
  {
    var i :| 0 <= i < |s| && Holds(s[i], p);
    if |s| > 1 {
      if Intersects(s[0], s[1]) {
        var t := [Fused(s[0], s[1])] + s[2..];
        FusedKeeps(s, t, i, p);
        TailNoOverhang(s, t);
        NoOverhangKeeps(t, p);
      } else if i > 0 {
        var t := s[1..];
        assert Holds(t[i - 1], p);
        TailNoOverhang(s, t);
        NoOverhangKeeps(t, p);
        ConsIn(s[0], Merged(t), p);
      } else {
        ConsIn(s[0], Merged(s[1..]), p);
      }
    }
  }

  lemma ConsIn(r: Range, m: seq<Range>, p: nat)
    ensures In([r] + m, p) <==> Holds(r, p) || In(m, p)
  {
    var t := [r] + m;
    assert t[0] == r && forall i :: 0 <= i < |m| ==> t[i + 1] == m[i];
  }

  /** A page of the first range beyond the second one is in a later range, unless the first overhangs. */
  lemma LaterCovers(s: seq<Range>, p: nat) returns (k: nat)
    requires SortedByStart(s) && |s| > 1 && NoOverhang(s) && Holds(s[0], p) && p >= End(s[1])
    ensures 2 <= k < |s| && Holds(s[k], p)
  {
    var b := NextBreak(s, 1);
    assert !Overhang(s, 0, b);
    k := ChainCovers(s, 1, b, p);
  }

  /** Fusing the first two ranges loses no page when the first does not overhang. */
  lemma FusedKeeps(s: seq<Range>, t: seq<Range>, i: nat, p: nat)
    requires SortedByStart(s) && |s| > 1 && Intersects(s[0], s[1]) && t == [Fused(s[0], s[1])] + s[2..]
    requires NoOverhang(s) && i < |s| && Holds(s[i], p)
    ensures In(t, p)
  {
    if i <= 1 && p < End(s[1]) {
      assert Holds(t[0], p);
    } else if i == 0 {
      var k := LaterCovers(s, p);
      assert t[k - 1] == s[k];
    } else {
      assert t[i - 1] == s[i];
    }
  }

  /**
   The merge loses no page exactly when no range reaches beyond the last range of its
   group, or beyond the gap after a later group. It never adds one.
   */
  lemma MergeLosesNothingExactly(s: seq<Range>)
    requires SortedByStart(s)
    ensures (forall p :: In(s, p) <==> In(Merged(s), p)) <==> NoOverhang(s)
  {
    forall p | In(Merged(s), p)
      ensures In(s, p)
    {
      MergedAddsNothing(s, p);
    }
    if NoOverhang(s) {
      forall p | In(s, p)
        ensures In(Merged(s), p)
      {
        NoOverhangKeeps(s, p);
      }
    } else {
      var j: nat, b: nat :| Overhang(s, j, b);
      BreakUncovered(s, b);
      assert Holds(s[j], End(s[b]));
    }
  }

  /** Ends in the order of the starts, as for disjoint ranges, leave no overhang. */
  lemma MergeOfSortedEnds(s: seq<Range>)
    requires SortedByStart(s) && forall i, j :: 0 <= i < j < |s| ==> End(s[i]) <= End(s[j])
    ensures forall p :: In(s, p) <==> In(Merged(s), p)
  {
    MergeLosesNothingExactly(s);
  }

  /** A range inside the one before it makes the merge lose pages: 0 to 99 and 10 to 19 give 0 to 19. */
  lemma NestedRangeLosesPages()
    ensures var s := [Range(0, 100), Range(10, 10)];
            SortedByStart(s) && In(s, 50) && Merged(s) == [Range(0, 20)] && !In(Merged(s), 50)
  {
    var s := [Range(0, 100), Range(10, 10)];
    assert Holds(s[0], 50);
    assert [Fused(s[0], s[1])] + s[2..] == [Range(0, 20)];
  }
}
