/**
 Ranges of page frames: `AddressRange` with `A = PageFrame`. Sizes and starts are
 natural numbers; where the source would underflow, the operation has a precondition.
 */
module PageRanges {
  datatype Range = Range(start: nat, size: nat)

  /** The first page after the range. */
  function End(r: Range): nat {
    r.start + r.size
  }

  function ShrinkLeft(r: Range, amount: nat): Range
    requires amount <= r.size
  {
    Range(r.start + amount, r.size - amount)
  }

  function ExtendLeft(r: Range, amount: nat): Range
    requires amount <= r.start
  {
    Range(r.start - amount, r.size + amount)
  }

  function ExtendRight(r: Range, amount: nat): Range {
    Range(r.start, r.size + amount)
  }

  /** Both ends are taken as inclusive, so ranges that merely touch intersect too. */
  predicate Intersects(a: Range, b: Range) {
    a.start <= End(b) && End(a) >= b.start
  }

  predicate Holds(r: Range, p: nat) {
    r.start <= p < End(r)
  }
}
