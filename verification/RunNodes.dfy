/**
 The three intrusive lists of the root allocator. A node is the position of a `Run`
 structure in the tracking memory; a list is the sequence of its nodes, and a cursor is a
 position in that sequence, with the length of the list for the null cursor.
 */
module RunNodes {
  import opened PageRanges
  import opened RunLists

  type Node = nat

  predicate Distinct(s: seq<Node>) {
    forall i, j :: 0 <= i < j < |s| ==> s[i] != s[j]
  }

  /** The list without a node, which is unlinked from where it stands. */
  function Without(s: seq<Node>, n: Node): seq<Node> {
    if s == [] then [] else if s[0] == n then s[1..] else [s[0]] + Without(s[1..], n)
  }

  lemma {:induction false} WithoutMembers(s: seq<Node>, n: Node)
    requires Distinct(s)
    ensures Distinct(Without(s, n)) && forall m :: m in Without(s, n) <==> m in s && m != n
  {
    if s != [] {
      assert forall m :: m in s <==> m == s[0] || m in s[1..];
      if s[0] != n {
        var t := Without(s[1..], n);
        WithoutMembers(s[1..], n);
        assert Without(s, n) == [s[0]] + t;
        assert s[0] !in s[1..] && s[0] !in t;
      }
    }
  }

  /** Unlinking a node leaves all others in their order. */
  lemma {:induction false} WithoutKeepsOrder(p: seq<Node>, n: Node, q: seq<Node>)
    requires n !in p
    ensures Without(p + [n] + q, n) == p + q
  {
    var s := p + [n] + q;
    if p == [] {
      assert s[0] == n && s[1..] == q;
    } else {
      assert s[0] == p[0] && s[1..] == p[1..] + [n] + q;
      WithoutKeepsOrder(p[1..], n, q);
      assert p + q == [p[0]] + (p[1..] + q);
    }
  }

  /** The cursor that points at a node. */
  function IndexOf(s: seq<Node>, n: Node): (i: nat)
    requires n in s
    ensures i < |s| && s[i] == n
  {
    if s[0] == n then 0 else 1 + IndexOf(s[1..], n)
  }

  function RemoveAt(s: seq<Node>, i: nat): seq<Node>
    requires i < |s|
  {
    s[..i] + s[i + 1..]
  }

  function InsertAt(s: seq<Node>, i: nat, n: Node): seq<Node>
    requires i <= |s|
  {
    s[..i] + [n] + s[i..]
  }

  predicate InBounds(nodes: seq<Run>, s: seq<Node>) {
    forall i :: 0 <= i < |s| ==> s[i] < |nodes|
  }

  /** The runs a list of nodes stands for. */
  function ViewOf(nodes: seq<Run>, s: seq<Node>): (v: Runs)
    requires InBounds(nodes, s)
    ensures |v| == |s| && forall i :: 0 <= i < |s| ==> v[i] == nodes[s[i]]
  {
    seq(|s|, i requires 0 <= i < |s| => nodes[s[i]])
  }

  /**
   Every node outside `limbo` is in exactly one of `runs` and `unused`, once, and `free`
   holds the free ones among `runs`, once each.
   */
  ghost predicate Linked(nodes: seq<Run>, runs: seq<Node>, free: seq<Node>, unused: seq<Node>, limbo: set<Node>) {
    && InBounds(nodes, runs) && InBounds(nodes, unused) && Distinct(runs) && Distinct(unused) && Distinct(free)
    && (forall n :: n in runs ==> n !in unused)
    && (forall n: Node :: n < |nodes| ==> (n in runs || n in unused <==> n !in limbo))
    && (forall n :: n in free <==> n in runs && nodes[n].status.Free?)
    && |runs| + |unused| + |limbo| == |nodes|
  }

  // ---- Views ----

  lemma ViewSet(nodes: seq<Run>, s: seq<Node>, k: nat, r: Run)
    requires InBounds(nodes, s) && Distinct(s) && k < |s|
    ensures ViewOf(nodes[s[k] := r], s) == ViewOf(nodes, s)[k := r]
  {
  }

  lemma ViewRemoved(nodes: seq<Run>, s: seq<Node>, k: nat)
    requires InBounds(nodes, s) && k < |s|
    ensures InBounds(nodes, RemoveAt(s, k))
    ensures ViewOf(nodes, RemoveAt(s, k)) == ViewOf(nodes, s)[..k] + ViewOf(nodes, s)[k + 1..]
  {
  }

  lemma ViewInserted(nodes: seq<Run>, s: seq<Node>, k: nat, n: Node)
    requires InBounds(nodes, s) && k <= |s| && n < |nodes|
    ensures InBounds(nodes, InsertAt(s, k, n))
    ensures ViewOf(nodes, InsertAt(s, k, n)) == Inserted(ViewOf(nodes, s), k, nodes[n])
  {
  }

  lemma ViewElsewhere(nodes: seq<Run>, s: seq<Node>, n: Node, r: Run)
    requires InBounds(nodes, s) && n < |nodes| && n !in s
    ensures ViewOf(nodes[n := r], s) == ViewOf(nodes, s)
  {
  }

  /** A node outside the list is written and comes last in it. */
  lemma ViewSnoc(nodes: seq<Run>, s: seq<Node>, n: Node, r: Run)
    requires InBounds(nodes, s) && n < |nodes| && n !in s
    ensures InBounds(nodes, s + [n]) && ViewOf(nodes[n := r], s + [n]) == ViewOf(nodes, s) + [r]
  {
  }

  // ---- Relinking ----

  lemma RemoveAtMembers(s: seq<Node>, k: nat)
    requires Distinct(s) && k < |s|
    ensures Distinct(RemoveAt(s, k)) && |RemoveAt(s, k)| == |s| - 1
    ensures forall n :: n in RemoveAt(s, k) <==> n in s && n != s[k]
  {
    var t := RemoveAt(s, k);
    forall n | n in s && n != s[k]
      ensures n in t
    {
      var i :| 0 <= i < |s| && s[i] == n;
      assert t[if i < k then i else i - 1] == n;
    }
  }

  lemma InsertAtMembers(s: seq<Node>, k: nat, n: Node)
    requires Distinct(s) && k <= |s| && n !in s
    ensures Distinct(InsertAt(s, k, n)) && |InsertAt(s, k, n)| == |s| + 1
    ensures forall m :: m in InsertAt(s, k, n) <==> m in s || m == n
  {
    var t := InsertAt(s, k, n);
    assert t[k] == n;
    forall m | m in s
      ensures m in t
    {
      var i :| 0 <= i < |s| && s[i] == m;
      assert t[if i < k then i else i + 1] == m;
    }
  }

  /** Run `c` is merged into a neighbour, whose range becomes `r`; its node is recycled. */
  lemma Recycle(nodes: seq<Run>, runs: seq<Node>, free: seq<Node>, unused: seq<Node>, c: nat, m: Node, r: Run)
    requires Linked(nodes, runs, free, unused, {}) && c < |runs| && m in runs && m != runs[c]
    requires r.status == nodes[m].status == nodes[runs[c]].status
    ensures Linked(nodes[m := r], RemoveAt(runs, c),
                   if r.status.Free? then Without(free, runs[c]) else free, unused + [runs[c]], {})
  {
    var ns, rs, us := nodes[m := r], RemoveAt(runs, c), unused + [runs[c]];
    RemoveAtMembers(runs, c);
    WithoutMembers(free, runs[c]);
    assert runs[c] in runs;
    assert us[|us| - 1] == runs[c];
    assert forall n :: n in us <==> n in unused || n == runs[c];
    assert forall n: Node :: n < |ns| ==> ns[n].status == nodes[n].status;
  }

  /** A node in limbo gets its run. */
  lemma Link(nodes: seq<Run>, runs: seq<Node>, free: seq<Node>, unused: seq<Node>, c: nat, n: Node)
    requires Linked(nodes, runs, free, unused, {n}) && c <= |runs| && n < |nodes|
    ensures Linked(nodes, InsertAt(runs, c, n), if nodes[n].status.Free? then free + [n] else free, unused, {})
  {
    InsertAtMembers(runs, c, n);
    assert n !in free;
    var fs := free + [n];
    assert fs[|fs| - 1] == n;
    assert forall m :: m in fs <==> m in free || m == n;
  }

  /** The first unused node is taken and written. */
  lemma Take(nodes: seq<Run>, runs: seq<Node>, free: seq<Node>, unused: seq<Node>, r: Run)
    requires Linked(nodes, runs, free, unused, {}) && unused != []
    ensures unused[0] < |nodes| && unused[0] !in runs
    ensures Linked(nodes[unused[0] := r], runs, free, unused[1..], {unused[0]})
  {
    assert unused[0] in unused;
    assert forall n :: n in unused <==> n == unused[0] || n in unused[1..];
  }

  /** A run in use changes its range but not its status. */
  lemma Reshape(nodes: seq<Run>, runs: seq<Node>, free: seq<Node>, unused: seq<Node>, n: Node, r: Run)
    requires Linked(nodes, runs, free, unused, {}) && n in runs && r.status == nodes[n].status
    ensures Linked(nodes[n := r], runs, free, unused, {})
  {
  }

  /** A free run is allocated as a whole. */
  lemma Claim(nodes: seq<Run>, runs: seq<Node>, free: seq<Node>, unused: seq<Node>, n: Node, r: Run)
    requires Linked(nodes, runs, free, unused, {}) && n in runs && !r.status.Free?
    ensures Linked(nodes[n := r], runs, Without(free, n), unused, {})
  {
    WithoutMembers(free, n);
  }

  /** An allocated run becomes free, and comes first in the free list. */
  lemma Unclaim(nodes: seq<Run>, runs: seq<Node>, free: seq<Node>, unused: seq<Node>, n: Node, r: Run)
    requires Linked(nodes, runs, free, unused, {}) && n in runs && !nodes[n].status.Free? && r.status.Free?
    ensures Linked(nodes[n := r], runs, [n] + free, unused, {})
  {
    var fs := [n] + free;
    assert fs[0] == n && forall m :: m in fs <==> m == n || m in free;
  }
}
