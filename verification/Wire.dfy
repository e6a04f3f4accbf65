/**
 The primitive layer of the postcard 1.0 wire format ("Varint Encoded Integers", strings,
 options and sequences of fields), as parsers that consume a prefix of their input.
 */
module Wire {
  import opened Options

  type byte = b: int | 0 <= b < 256

  type Bytes = seq<byte>

  datatype WireError = BadVarint | BadUtf8 | BadOption | Custom

  /** A value and the number of bytes it took, too few bytes, or an error. */
  datatype Parse<+T> = Done(value: T, used: nat) | End | Bad(error: WireError)

  type Parser<+T> = Bytes -> Parse<T>

  // ---- Parsers that read their input from left to right ----

  /** What `p` says of `b` stands when more bytes follow, unless it was short of bytes. */
  ghost predicate Steady<T>(p: Parser<T>, b: Bytes, c: Bytes) {
    && (p(b).Done? ==> p(b).used <= |b| && p(b + c) == p(b))
    && (p(b).Bad? ==> p(b + c) == p(b))
  }

  ghost predicate Streams<T>(p: Parser<T>) {
    forall b: Bytes, c: Bytes :: Steady(p, b, c)
  }

  /** `p` reads the value `v` from exactly the bytes `b`. */
  ghost predicate Reads<T>(p: Parser<T>, b: Bytes, v: T) {
    p(b) == Done(v, |b|)
  }

  function Drop(b: Bytes, n: nat): Bytes {
    if n <= |b| then b[n..] else []
  }

  function Follow<T>(n: nat, r: Parse<T>): Parse<T> {
    if r.Done? then Done(r.value, n + r.used) else r
  }

  /** Reads with `p`, and goes on with what `q` makes of the value. */
  function Bind<A, B>(p: Parser<A>, q: A -> Parser<B>): Parser<B> {
    (b: Bytes) =>
      match p(b)
      case Done(v, n) => Follow(n, q(v)(Drop(b, n)))
      case End => End
      case Bad(e) => Bad(e)
  }

  function Return<T>(v: T): Parser<T> {
    (b: Bytes) => Done(v, 0)
  }

  function Fail<T>(e: WireError): Parser<T> {
    (b: Bytes) => Bad(e)
  }

  lemma ReturnStreams<T>(v: T)
    ensures Streams(Return(v)) && Reads(Return(v), [], v)
  {
  }

  lemma FailStreams<T>(e: WireError)
    ensures Streams<T>(Fail(e))
  {
  }

  lemma BindStreams<A(!new), B>(p: Parser<A>, q: A -> Parser<B>)
    requires Streams(p) && forall v :: Streams(q(v))
    ensures Streams(Bind(p, q))
  {
    forall b: Bytes, c: Bytes
      ensures Steady(Bind(p, q), b, c)
    {
      assert Steady(p, b, c);
      if p(b).Done? {
        var n := p(b).used;
        assert (b + c)[n..] == b[n..] + c;
        assert Steady(q(p(b).value), b[n..], c);
      }
    }
  }

  lemma BindReads<A, B>(p: Parser<A>, q: A -> Parser<B>, b: Bytes, v: A, c: Bytes, w: B)
    requires Streams(p) && Reads(p, b, v) && Reads(q(v), c, w)
    ensures Reads(Bind(p, q), b + c, w)
  {
    assert Steady(p, b, c);
    assert (b + c)[|b|..] == c;
  }

  /** Reads with `p` and applies `f`. */
  function Map<A, B>(p: Parser<A>, f: A -> B): Parser<B> {
    (b: Bytes) =>
      match p(b)
      case Done(v, n) => Done(f(v), n)
      case End => End
      case Bad(e) => Bad(e)
  }

  lemma MapStreams<A, B>(p: Parser<A>, f: A -> B)
    requires Streams(p)
    ensures Streams(Map(p, f))
  {
    forall b: Bytes, c: Bytes
      ensures Steady(Map(p, f), b, c)
    {
      assert Steady(p, b, c);
    }
  }

  lemma MapReads<A, B>(p: Parser<A>, f: A -> B, b: Bytes, v: A)
    requires Reads(p, b, v)
    ensures Reads(Map(p, f), b, f(v))
  {
  }

  /** Reads with `p`, then with `q`. */
  function Pair<A, B>(p: Parser<A>, q: Parser<B>): Parser<(A, B)> {
    (b: Bytes) =>
      match p(b)
      case Done(v, n) =>
        (match q(Drop(b, n))
         case Done(w, m) => Done((v, w), n + m)
         case End => End
         case Bad(e) => Bad(e))
      case End => End
      case Bad(e) => Bad(e)
  }

  lemma PairStreams<A, B>(p: Parser<A>, q: Parser<B>)
    requires Streams(p) && Streams(q)
    ensures Streams(Pair(p, q))
  {
    forall b: Bytes, c: Bytes
      ensures Steady(Pair(p, q), b, c)
    {
      assert Steady(p, b, c);
      if p(b).Done? {
        var n := p(b).used;
        assert (b + c)[n..] == b[n..] + c;
        assert Steady(q, b[n..], c);
      }
    }
  }

  lemma PairReads<A, B>(p: Parser<A>, q: Parser<B>, b: Bytes, v: A, c: Bytes, w: B)
    requires Streams(p) && Reads(p, b, v) && Reads(q, c, w)
    ensures Reads(Pair(p, q), b + c, (v, w))
  {
    assert Steady(p, b, c);
    assert (b + c)[|b|..] == c;
  }

  /** What a pair makes of the bytes after its first value. */
  lemma PairAfter<A, B>(p: Parser<A>, q: Parser<B>, b: Bytes, v: A, n: nat)
    requires p(b) == Done(v, n) && n <= |b|
    ensures var r := q(b[n..]);
            Pair(p, q)(b) == if r.Done? then Done((v, r.value), n + r.used) else if r.End? then End else Bad(r.error)
  {
  }

  /** Any bytes may follow. */
  lemma ReadsThenMore<T>(p: Parser<T>, b: Bytes, v: T, c: Bytes)
    requires Streams(p) && Reads(p, b, v)
    ensures p(b + c) == Done(v, |b|)
  {
    assert Steady(p, b, c);
  }

  /** No strict prefix of what a parser reads is anything but too short. */
  lemma PrefixIsShort<T>(p: Parser<T>, b: Bytes, v: T, k: nat)
    requires Streams(p) && Reads(p, b, v) && k < |b|
    ensures p(b[..k]) == End
  {
    assert b[..k] + b[k..] == b;
    assert Steady(p, b[..k], b[k..]);
  }

  lemma Associates(a: Bytes, b: Bytes, c: Bytes)
    ensures (a + b) + c == a + (b + c)
  {
  }

  // ---- Integers ----

  /** Values with `left` bytes to go, the last of which is below `last`, are below this. */
  function Limit(left: nat, last: nat): nat {
    if left <= 1 then last else 128 * Limit(left - 1, last)
  }

  /** A little-endian base-128 number of at most `left` bytes, the last possible one below `last`. */
  function Varint(b: Bytes, left: nat, last: nat): (r: Parse<nat>)
    requires 0 < last <= 128
    ensures r.Done? ==> left > 0 && r.value < Limit(left, last) && 0 < r.used <= |b|
    decreases left
  {
    if left == 0 then Bad(BadVarint)
    else if b == [] then End
    else if b[0] < 128 then
      if left == 1 && b[0] >= last then Bad(BadVarint) else NarrowVarint(b[0], left, last); Done(b[0], 1)
    else
      match Varint(b[1..], left - 1, last)
      case Done(v, n) => Done(b[0] - 128 + 128 * v, n + 1)
      case End => End
      case Bad(e) => Bad(e)
  }

  lemma NarrowVarint(v: nat, left: nat, last: nat)
    requires v < 128 && left > 0 && last > 0 && (left == 1 ==> v < last)
    ensures v < Limit(left, last)
  {
    if left > 1 {
      LimitPositive(left - 1, last);
    }
  }

  lemma {:induction false} LimitPositive(left: nat, last: nat)
    requires last > 0
    ensures Limit(left, last) > 0
  {
    if left > 1 {
      LimitPositive(left - 1, last);
    }
  }

  lemma {:induction false} VarintSteady(b: Bytes, c: Bytes, left: nat, last: nat)
    requires 0 < last <= 128
    ensures !Varint(b, left, last).End? ==> Varint(b + c, left, last) == Varint(b, left, last)
    decreases left
  {
    if left > 0 && b != [] {
      assert (b + c)[0] == b[0] && (b + c)[1..] == b[1..] + c;
      VarintSteady(b[1..], c, left - 1, last);
    }
  }

  function VarintOf(v: nat): Bytes {
    if v < 128 then [v] else [v % 128 + 128] + VarintOf(v / 128)
  }

  lemma {:induction false} VarintRoundTrip(v: nat, left: nat, last: nat)
    requires 0 < last <= 128 && left > 0 && v < Limit(left, last)
    ensures Varint(VarintOf(v), left, last) == Done(v, |VarintOf(v)|)
    decreases left
  {
    if v >= 128 {
      VarintRoundTrip(v / 128, left - 1, last);
      assert VarintOf(v)[1..] == VarintOf(v / 128);
    }
  }

  const U64_LIMIT: nat := 0x1_0000_0000_0000_0000
  const U32_LIMIT: nat := 0x1_0000_0000

  type U64 = v: nat | v < U64_LIMIT
  type U32 = v: nat | v < U32_LIMIT

  lemma Limits()
    ensures Limit(10, 2) == U64_LIMIT && Limit(5, 16) == U32_LIMIT
  {
    assert Limit(4, 2) == 2 * 128 * 128 * 128;
    assert Limit(7, 2) == 2 * 128 * 128 * 128 * 128 * 128 * 128;
    assert Limit(3, 16) == 16 * 128 * 128;
  }

  /** A u64, and a usize too: at most ten bytes, the tenth 0 or 1. */
  function ParseU64(b: Bytes): Parse<U64> {
    Limits();
    match Varint(b, 10, 2)
    case Done(v, n) => Done(v, n)
    case End => End
    case Bad(e) => Bad(e)
  }

  /** A u32: at most five bytes, the fifth below 16. */
  function ParseU32(b: Bytes): Parse<U32> {
    Limits();
    match Varint(b, 5, 16)
    case Done(v, n) => Done(v, n)
    case End => End
    case Bad(e) => Bad(e)
  }

  lemma U64Streams()
    ensures Streams(ParseU64)
  {
    forall b: Bytes, c: Bytes
      ensures Steady(ParseU64, b, c)
    {
      VarintSteady(b, c, 10, 2);
    }
  }

  lemma U32Streams()
    ensures Streams(ParseU32)
  {
    forall b: Bytes, c: Bytes
      ensures Steady(ParseU32, b, c)
    {
      VarintSteady(b, c, 5, 16);
    }
  }

  lemma U64Reads(v: U64)
    ensures Reads(ParseU64, VarintOf(v), v)
  {
    Limits();
    VarintRoundTrip(v, 10, 2);
  }

  lemma U32Reads(v: U32)
    ensures Reads(ParseU32, VarintOf(v), v)
  {
    Limits();
    VarintRoundTrip(v, 5, 16);
  }

  // ---- Strings ----

  predicate Continuation(b: byte) { 0x80 <= b <= 0xBF }

  /** The number of bytes of the well-formed UTF-8 character at the start of `s`, or 0. */
  function CharLength(s: Bytes): (n: nat)
    ensures n <= |s|
  {
    if |s| >= 1 && s[0] < 0x80 then 1
    else if |s| >= 2 && 0xC2 <= s[0] <= 0xDF && Continuation(s[1]) then 2
    else if |s| >= 3 && ThreeBytes(s[0], s[1]) && Continuation(s[2]) then 3
    else if |s| >= 4 && FourBytes(s[0], s[1]) && Continuation(s[2]) && Continuation(s[3]) then 4
    else 0
  }

  predicate ThreeBytes(a: byte, b: byte) {
    || (a == 0xE0 && 0xA0 <= b <= 0xBF)
    || ((0xE1 <= a <= 0xEC || 0xEE <= a <= 0xEF) && Continuation(b))
    || (a == 0xED && 0x80 <= b <= 0x9F)
  }

  predicate FourBytes(a: byte, b: byte) {
    || (a == 0xF0 && 0x90 <= b <= 0xBF)
    || (0xF1 <= a <= 0xF3 && Continuation(b))
    || (a == 0xF4 && 0x80 <= b <= 0x8F)
  }

  predicate Utf8(s: Bytes) {
    s == [] || (CharLength(s) > 0 && Utf8(s[CharLength(s)..]))
  }

  type Text = s: Bytes | Utf8(s) && |s| < U64_LIMIT

  /** The `n` bytes of a string. */
  function Chars(n: U64): Parser<Text> {
    (b: Bytes) => if |b| < n then End else if Utf8(b[..n]) then var s: Text := b[..n]; Done(s, n) else Bad(BadUtf8)
  }

  function ParseText(): Parser<Text> {
    Bind(ParseU64, Chars)
  }

  function TextBytes(s: Text): Bytes {
    VarintOf(|s|) + s
  }

  lemma CharsStreams(n: U64)
    ensures Streams(Chars(n))
  {
    forall b: Bytes, c: Bytes
      ensures Steady(Chars(n), b, c)
    {
      if |b| >= n {
        assert (b + c)[..n] == b[..n];
      }
    }
  }

  lemma TextStreams()
    ensures Streams(ParseText())
  {
    U64Streams();
    forall n: U64
      ensures Streams(Chars(n))
    {
      CharsStreams(n);
    }
    BindStreams(ParseU64, Chars);
  }

  lemma TextReads(s: Text)
    ensures Reads(ParseText(), TextBytes(s), s)
  {
    U64Streams();
    U64Reads(|s|);
    assert s[..|s|] == s;
    BindReads<U64, Text>(ParseU64, Chars, VarintOf(|s|), |s|, s, s);
  }

  // ---- Options ----

  function ParseByte(b: Bytes): Parse<byte> {
    if b == [] then End else Done(b[0], 1)
  }

  lemma ByteStreams()
    ensures Streams(ParseByte)
  {
  }

  function Wrap<T>(v: T): Option<T> {
    Some(v)
  }

  /** What follows the byte that says whether a value is there. */
  function OptionBody<T>(p: Parser<T>): byte -> Parser<Option<T>> {
    var some: Parser<Option<T>> := Map(p, Wrap);
    var none: Parser<Option<T>> := Return(None);
    var fail: Parser<Option<T>> := Fail(BadOption);
    (flag: byte) => if flag == 0 then none else if flag == 1 then some else fail
  }

  function ParseOption<T>(p: Parser<T>): Parser<Option<T>> {
    Bind(ParseByte, OptionBody(p))
  }

  function OptionBytes<T>(o: Option<T>, show: T -> Bytes): Bytes {
    if o.None? then [0] else [1] + show(o.value)
  }

  lemma OptionStreams<T(!new)>(p: Parser<T>)
    requires Streams(p)
    ensures Streams(ParseOption(p))
  {
    ByteStreams();
    MapStreams<T, Option<T>>(p, Wrap);
    ReturnStreams<Option<T>>(None);
    FailStreams<Option<T>>(BadOption);
    forall flag: byte
      ensures Streams(OptionBody(p)(flag))
    {
    }
    BindStreams(ParseByte, OptionBody(p));
  }

  lemma OptionReads<T(!new)>(p: Parser<T>, o: Option<T>, show: T -> Bytes)
    requires Streams(p) && (o.Some? ==> Reads(p, show(o.value), o.value))
    ensures Reads(ParseOption(p), OptionBytes(o, show), o)
  {
    ByteStreams();
    if o.None? {
      ReturnStreams<Option<T>>(None);
      BindReads<byte, Option<T>>(ParseByte, OptionBody(p), [0], 0, [], o);
    } else {
      BindReads<byte, Option<T>>(ParseByte, OptionBody(p), [1], 1, show(o.value), o);
    }
  }

  // ---- Too short is not for ever ----

  /** Some bytes after `b` make `p` say more than that it is short of bytes. */
  ghost predicate Decides<T>(p: Parser<T>, b: Bytes) {
    exists c: Bytes :: !p(b + c).End?
  }

  /** `p` asks for more bytes only where more bytes can settle the matter, as a value or as an error. */
  ghost predicate Honest<T>(p: Parser<T>) {
    forall b: Bytes :: Decides(p, b)
  }

  lemma DecidedNow<T>(p: Parser<T>, b: Bytes)
    requires !p(b).End?
    ensures Decides(p, b)
  {
    assert b + [] == b;
  }

  lemma ReturnHonest<T>(v: T)
    ensures Honest(Return(v))
  {
    forall b: Bytes
      ensures Decides(Return(v), b)
    {
      DecidedNow(Return(v), b);
    }
  }

  lemma FailHonest<T>(e: WireError)
    ensures Honest<T>(Fail(e))
  {
    forall b: Bytes
      ensures Decides<T>(Fail(e), b)
    {
      DecidedNow<T>(Fail(e), b);
    }
  }

  lemma MapHonest<A, B>(p: Parser<A>, f: A -> B)
    requires Honest(p)
    ensures Honest(Map(p, f))
  {
    forall b: Bytes
      ensures Decides(Map(p, f), b)
    {
      assert Decides(p, b);
      var c: Bytes :| !p(b + c).End?;
      assert !Map(p, f)(b + c).End?;
    }
  }

  lemma BindHonest<A(!new), B>(p: Parser<A>, q: A -> Parser<B>)
    requires Streams(p) && Honest(p) && forall v :: Honest(q(v))
    ensures Honest(Bind(p, q))
  {
    forall b: Bytes
      ensures Decides(Bind(p, q), b)
    {
      assert Decides(p, b);
      var c: Bytes :| !p(b + c).End?;
      if p(b + c).Done? {
        assert Steady(p, b + c, []);
        var v, n := p(b + c).value, p(b + c).used;
        assert Decides(q(v), (b + c)[n..]);
        var d: Bytes :| !q(v)((b + c)[n..] + d).End?;
        assert Steady(p, b + c, d);
        Associates(b, c, d);
        assert ((b + c) + d)[n..] == (b + c)[n..] + d;
        assert !Bind(p, q)(b + (c + d)).End?;
      } else {
        assert !Bind(p, q)(b + c).End?;
      }
    }
  }

  lemma PairHonest<A, B>(p: Parser<A>, q: Parser<B>)
    requires Streams(p) && Honest(p) && Honest(q)
    ensures Honest(Pair(p, q))
  {
    forall b: Bytes
      ensures Decides(Pair(p, q), b)
    {
      assert Decides(p, b);
      var c: Bytes :| !p(b + c).End?;
      if p(b + c).Done? {
        assert Steady(p, b + c, []);
        var n := p(b + c).used;
        assert Decides(q, (b + c)[n..]);
        var d: Bytes :| !q((b + c)[n..] + d).End?;
        assert Steady(p, b + c, d);
        Associates(b, c, d);
        assert ((b + c) + d)[n..] == (b + c)[n..] + d;
        assert !Pair(p, q)(b + (c + d)).End?;
      } else {
        assert !Pair(p, q)(b + c).End?;
      }
    }
  }

  lemma {:induction false} VarintDecides(b: Bytes, left: nat, last: nat) returns (c: Bytes)
    requires 0 < last <= 128
    ensures !Varint(b + c, left, last).End?
    decreases left
  {
    if left == 0 || b == [] {
      c := [0];
    } else if b[0] < 128 {
      c := [];
    } else {
      c := VarintDecides(b[1..], left - 1, last);
      assert (b + c)[0] == b[0] && (b + c)[1..] == b[1..] + c;
    }
  }

  lemma U64Honest()
    ensures Honest(ParseU64)
  {
    forall b: Bytes
      ensures Decides(ParseU64, b)
    {
      var c := VarintDecides(b, 10, 2);
      assert !ParseU64(b + c).End?;
    }
  }

  lemma U32Honest()
    ensures Honest(ParseU32)
  {
    forall b: Bytes
      ensures Decides(ParseU32, b)
    {
      var c := VarintDecides(b, 5, 16);
      assert !ParseU32(b + c).End?;
    }
  }

  lemma CharsHonest(n: U64)
    ensures Honest(Chars(n))
  {
    forall b: Bytes
      ensures Decides(Chars(n), b)
    {
      var c: Bytes := seq(n, i => 0);
      assert !Chars(n)(b + c).End?;
    }
  }

  lemma TextHonest()
    ensures Honest(ParseText())
  {
    U64Streams();
    U64Honest();
    forall n: U64
      ensures Honest(Chars(n))
    {
      CharsHonest(n);
    }
    BindHonest(ParseU64, Chars);
  }

  lemma ByteHonest()
    ensures Honest(ParseByte)
  {
    forall b: Bytes
      ensures Decides(ParseByte, b)
    {
      assert !ParseByte(b + [0]).End?;
    }
  }

  lemma OptionHonest<T(!new)>(p: Parser<T>)
    requires Honest(p)
    ensures Honest(ParseOption(p))
  {
    ByteStreams();
    ByteHonest();
    MapHonest<T, Option<T>>(p, Wrap);
    ReturnHonest<Option<T>>(None);
    FailHonest<Option<T>>(BadOption);
    forall flag: byte
      ensures Honest(OptionBody(p)(flag))
    {
    }
    BindHonest(ParseByte, OptionBody(p));
  }

  /** A flag other than 0 and 1 is an error, whatever follows. */
  lemma BadFlagFails<T>(p: Parser<T>, flag: byte, rest: Bytes)
    requires flag > 1
    ensures ParseOption(p)([flag] + rest) == Bad(BadOption)
  {
    var b: Bytes := [flag] + rest;
    assert ParseByte(b) == Done(flag, 1);
    assert OptionBody(p)(flag)(Drop(b, 1)) == Bad(BadOption);
  }
}
