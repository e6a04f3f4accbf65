/**
 The packed 64-bit words of the slab: free-list entries, slot lifecycles and slab
 indices. The step machine works on the unpacked values; the lemmas here show that
 comparing packed words is the same as comparing unpacked values.
 */
module Packing {

  const INDEX_LIMIT: nat := 0x4_0000
  const COUNTER_LIMIT: nat := 0x4000_0000_0000
  const REFCOUNT_LIMIT: nat := 0x1_0000
  const WORD_LIMIT: nat := 0x1_0000_0000_0000_0000
  const EMPTY: nat := WORD_LIMIT - 1

  /** A value of a free-list head or of a `next` cell. */
  datatype Word = Empty | Entry(index: nat, tag: nat)

  datatype State = Allocated | Unallocated | Zombie

  datatype Lifecycle = Lifecycle(state: State, generation: nat, refcount: nat)

  /** The index handed to clients of the slab. */
  datatype Idx = Idx(generation: nat, index: nat)

  /** A slab has fewer than INDEX_LIMIT slots, so its largest slot index is INDEX_LIMIT - 2. */
  predicate WordFits(w: Word) {
    w.Entry? ==> w.index < INDEX_LIMIT - 1 && w.tag < COUNTER_LIMIT
  }

  predicate LifecycleFits(l: Lifecycle) {
    l.generation < COUNTER_LIMIT && l.refcount < REFCOUNT_LIMIT
  }

  predicate IdxFits(x: Idx) {
    x.generation < COUNTER_LIMIT && x.index < INDEX_LIMIT
  }

  /** Index in the low 18 bits, tag in the high 46. */
  function EncodeWord(w: Word): nat {
    match w
    case Empty => EMPTY
    case Entry(index, tag) => index + INDEX_LIMIT * tag
  }

  function DecodeWord(n: nat): Word {
    if n == EMPTY then Empty else Entry(n % INDEX_LIMIT, n / INDEX_LIMIT)
  }

  function StateBits(s: State): nat {
    match s
    case Allocated => 0
    case Unallocated => 1
    case Zombie => 2
  }

  /** State in the low 2 bits, then 46 bits of generation, then 16 bits of refcount. */
  function EncodeLifecycle(l: Lifecycle): nat {
    StateBits(l.state) + 4 * l.generation + 4 * COUNTER_LIMIT * l.refcount
  }

  /** Generation in the low 46 bits, index in the high 18. */
  function EncodeIdx(x: Idx): nat {
    x.generation + COUNTER_LIMIT * x.index
  }

  function DecodeIdx(n: nat): Idx {
    Idx(n % COUNTER_LIMIT, n / COUNTER_LIMIT)
  }

  /** Entries survive packing, stay within 64 bits and never collide with EMPTY. */
  lemma WordRoundTrip(w: Word)
    requires WordFits(w)
    ensures EncodeWord(w) < WORD_LIMIT
    ensures EncodeWord(w) == EMPTY <==> w.Empty?
    ensures DecodeWord(EncodeWord(w)) == w
  {
    match w
    case Empty =>
    case Entry(index, tag) =>
      var n := EncodeWord(w);
      assert n < INDEX_LIMIT - 1 + INDEX_LIMIT * (COUNTER_LIMIT - 1);
      assert n % INDEX_LIMIT == index && n / INDEX_LIMIT == tag;
  }

  /** A local list stores bare slot indices; a bare index is the entry with tag zero. */
  lemma BareIndexIsEntry(index: nat, tag: nat)
    requires WordFits(Entry(index, tag))
    ensures EncodeWord(Entry(index, tag)) < INDEX_LIMIT - 1 <==> tag == 0
    ensures tag == 0 ==> EncodeWord(Entry(index, tag)) == index
  {
  }

  /** A compare-and-exchange on packed lifecycles compares all three fields. */
  lemma LifecycleInjective(a: Lifecycle, b: Lifecycle)
    requires LifecycleFits(a) && LifecycleFits(b)
    ensures EncodeLifecycle(a) < WORD_LIMIT
    ensures EncodeLifecycle(a) == EncodeLifecycle(b) <==> a == b
  {
    var x, y := StateBits(a.state) + 4 * a.generation, StateBits(b.state) + 4 * b.generation;
    assert x < 4 * COUNTER_LIMIT && y < 4 * COUNTER_LIMIT;
    if EncodeLifecycle(a) == EncodeLifecycle(b) {
      assert a.refcount == b.refcount;
      assert x == y;
      assert a.generation == b.generation;
    }
  }

  /** Indices survive packing, and an index of a positive generation is a non-zero word. */
  lemma IdxRoundTrip(x: Idx)
    requires IdxFits(x)
    ensures EncodeIdx(x) < WORD_LIMIT
    ensures DecodeIdx(EncodeIdx(x)) == x
    ensures x.generation > 0 ==> EncodeIdx(x) != 0
  {
    var n := EncodeIdx(x);
    assert n % COUNTER_LIMIT == x.generation && n / COUNTER_LIMIT == x.index;
  }

  // ---- Where the fields are ----

  /** An entry: 18 bits of index, then 46 bits of tag. */
  lemma EntryBits(index: nat, tag: nat)
    requires index < 0x3_FFFF && tag < 0x4000_0000_0000
    ensures WordFits(Entry(index, tag))
    ensures EncodeWord(Entry(index, tag)) % 0x4_0000 == index && EncodeWord(Entry(index, tag)) / 0x4_0000 == tag
    ensures EncodeWord(Empty) == 0xFFFF_FFFF_FFFF_FFFF
  {
    WordRoundTrip(Entry(index, tag));
  }

  /** A lifecycle: 2 bits of state, in the order of its declaration, then 46 of generation, then 16 of refcount. */
  lemma LifecycleBits(l: Lifecycle)
    requires l.generation < 0x4000_0000_0000 && l.refcount < 0x1_0000
    ensures LifecycleFits(l)
    ensures var n := EncodeLifecycle(l);
            && n % 4 == (if l.state == Allocated then 0 else if l.state == Unallocated then 1 else 2)
            && n / 4 % 0x4000_0000_0000 == l.generation && n / 0x1_0000_0000_0000 == l.refcount
  {
    var low := StateBits(l.state) + 4 * l.generation;
    assert EncodeLifecycle(l) == low + 0x1_0000_0000_0000 * l.refcount && low < 0x1_0000_0000_0000;
    assert EncodeLifecycle(l) / 4 == l.generation + 0x4000_0000_0000 * l.refcount;
  }

  /** An index: 46 bits of generation, then 18 of slot number. */
  lemma IdxBits(x: Idx)
    requires x.generation < 0x4000_0000_0000 && x.index < 0x4_0000
    ensures IdxFits(x)
    ensures EncodeIdx(x) % 0x4000_0000_0000 == x.generation && EncodeIdx(x) / 0x4000_0000_0000 == x.index
  {
    IdxRoundTrip(x);
  }
}
