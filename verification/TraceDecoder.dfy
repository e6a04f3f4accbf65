/**
 The ktrace decoder: it finds the start marker in a stream that arrives in pieces, and
 then hands over messages as soon as all their bytes are there. Reads that give bytes are
 the chunks of an input; the read after the last chunk gives the end of the input or an
 error. Writing out what precedes the marker always succeeds.
 */
module TraceDecoder {
  import opened Options
  import opened Wire
  import opened TraceMessages

  const MARKER: Bytes := [255, 0, 255, 0]

  predicate MarkerAt(b: Bytes, i: nat) {
    i + 4 <= |b| && b[i..i + 4] == MARKER
  }

  ghost predicate NoMarker(b: Bytes) {
    forall i: nat :: !MarkerAt(b, i)
  }

  ghost predicate FirstMarker(b: Bytes, pos: nat) {
    MarkerAt(b, pos) && forall i: nat :: i < pos ==> !MarkerAt(b, i)
  }

  /** The substring search. */
  method FindMarker(b: Bytes) returns (pos: Option<nat>)
    ensures if pos.Some? then FirstMarker(b, pos.value) else NoMarker(b)
  {
    var i := 0;
    while i + 4 <= |b|
      invariant forall j: nat :: j < i ==> !MarkerAt(b, j)
    {
      if b[i..i + 4] == MARKER {
        return Some(i);
      }
      i := i + 1;
    }
    pos := None;
  }

  function Flatten(chunks: seq<Bytes>): Bytes {
    if chunks == [] then [] else chunks[0] + Flatten(chunks[1..])
  }

  class Input {
    var chunks: seq<Bytes>
    /** Whether the read after the last chunk fails. */
    const failing: bool

    constructor (chunks: seq<Bytes>, failing: bool)
      requires forall i :: 0 <= i < |chunks| ==> 0 < |chunks[i]| <= 64
      ensures this.chunks == chunks && this.failing == failing && Valid()
    {
      this.chunks, this.failing := chunks, failing;
    }

    ghost predicate Valid()
      reads this
    {
      forall i :: 0 <= i < |chunks| ==> 0 < |chunks[i]| <= 64
    }

    /** No bytes at the end of the input, and at its failure. */
    method Read() returns (bytes: Bytes, failed: bool)
      requires Valid()
      modifies this
      ensures Valid() && (failed ==> bytes == [])
      ensures if old(chunks) == [] then bytes == [] && chunks == [] && failed == failing
              else bytes == old(chunks)[0] && chunks == old(chunks)[1..] && !failed
    {
      if chunks == [] {
        return [], failing;
      }
      bytes, failed := chunks[0], false;
      chunks := chunks[1..];
    }
  }

  datatype Result = Ok | MarkerMissing | ReadError | ParseError(error: WireError) | CallbackError

  // ---- The marker ----

  /** Bytes already written out cannot be part of a marker still to come. */
  lemma MarkerInBuffer(written: Bytes, buf: Bytes, chunk: Bytes, pos: nat)
    requires written != [] ==> |buf| >= 4 && NoMarker(written + buf)
    requires FirstMarker(buf + chunk, pos)
    ensures FirstMarker(written + (buf + chunk), |written| + pos)
  {
    var t := written + (buf + chunk);
    assert t[|written| + pos..|written| + pos + 4] == (buf + chunk)[pos..pos + 4];
    forall i: nat | i < |written| + pos
      ensures !MarkerAt(t, i)
    {
      MarkerElsewhere(written, buf, chunk, i);
      assert i >= |written| ==> !MarkerAt(buf + chunk, i - |written|);
    }
  }

  /** A marker starts in what was written only if it did so before, and else in the buffer. */
  lemma MarkerElsewhere(written: Bytes, buf: Bytes, chunk: Bytes, i: nat)
    requires written != [] ==> |buf| >= 4
    ensures i < |written| ==> (MarkerAt(written + (buf + chunk), i) <==> MarkerAt(written + buf, i))
    ensures i >= |written| ==> (MarkerAt(written + (buf + chunk), i) <==> MarkerAt(buf + chunk, i - |written|))
  {
    var t := written + (buf + chunk);
    Associates(written, buf, chunk);
    if i < |written| {
      assert t == (written + buf) + chunk && i + 4 <= |written + buf|;
      assert t[i..i + 4] == (written + buf)[i..i + 4];
    } else if i + 4 <= |t| {
      assert t[i..i + 4] == (buf + chunk)[i - |written|..i - |written| + 4];
    }
  }

  lemma NoMarkerInBuffer(written: Bytes, buf: Bytes, chunk: Bytes)
    requires written != [] ==> |buf| >= 4 && NoMarker(written + buf)
    requires NoMarker(buf + chunk)
    ensures NoMarker(written + (buf + chunk))
  {
    forall i: nat
      ensures !MarkerAt(written + (buf + chunk), i)
    {
      MarkerElsewhere(written, buf, chunk, i);
    }
  }

  /** The first marker of a stream stays the first when more follows. */
  lemma FirstMarkerStays(b: Bytes, c: Bytes, pos: nat)
    requires FirstMarker(b, pos)
    ensures FirstMarker(b + c, pos)
  {
    assert (b + c)[pos..pos + 4] == b[pos..pos + 4];
    forall i: nat | i < pos
      ensures !MarkerAt(b + c, i)
    {
      assert (b + c)[i..i + 4] == b[i..i + 4];
      assert !MarkerAt(b, i);
    }
  }

  // ---- Messages ----

  /** All messages at the start of `b`, the bytes left, and the error that stopped the parsing, if any. */
  datatype Drained = Drained(messages: seq<Message>, rest: Bytes, error: Option<WireError>)

  /** Parsing a whole stream at once. */
  function Drain(b: Bytes): Drained
    decreases |b|
  {
    match ParseMessage()(b)
    case Done(m, n) =>
      MessageAdvances(b);
      var d := Drain(b[n..]);
      Drained([m] + d.messages, d.rest, d.error)
    case End => Drained([], b, None)
    case Bad(e) => Drained([], b, Some(e))
  }

  /** The messages the callback is given, after those in `done`: up to and with the first it rejects. */
  function Called(done: seq<Message>, ms: seq<Message>, accepts: seq<Message> -> bool): seq<Message>
    decreases |ms|
  {
    if ms == [] then done
    else if accepts(done + [ms[0]]) then Called(done + [ms[0]], ms[1..], accepts)
    else done + [ms[0]]
  }

  predicate Rejects(done: seq<Message>, ms: seq<Message>, accepts: seq<Message> -> bool)
    decreases |ms|
  {
    ms != [] && (accepts(done + [ms[0]]) ==> Rejects(done + [ms[0]], ms[1..], accepts))
  }

  /** A message at the front of the buffer is the first of the stream, whatever is still to come. */
  lemma DrainOne(buf: Bytes, more: Bytes, m: Message, n: nat)
    requires ParseMessage()(buf) == Done(m, n)
    ensures 0 < n <= |buf|
    ensures var d, r := Drain(buf + more), Drain(buf[n..] + more);
            d.messages == [m] + r.messages && d.error == r.error
  {
    MessageAdvances(buf);
    MessageStreams();
    assert Steady(ParseMessage(), buf, more);
    assert (buf + more)[n..] == buf[n..] + more;
  }

  lemma DrainBad(buf: Bytes, more: Bytes, e: WireError)
    requires ParseMessage()(buf) == Bad(e)
    ensures Drain(buf + more).messages == [] && Drain(buf + more).error == Some(e)
  {
    MessageStreams();
    assert Steady(ParseMessage(), buf, more);
  }

  // ---- The decoder ----

  /** Having given the callback `done` with `b` to come is as good as having given it `made` with `c` to come. */
  ghost predicate Alike(b: Bytes, done: seq<Message>, c: Bytes, made: seq<Message>, accepts: seq<Message> -> bool) {
    && Called(done, Drain(b).messages, accepts) == Called(made, Drain(c).messages, accepts)
    && Rejects(done, Drain(b).messages, accepts) == Rejects(made, Drain(c).messages, accepts)
    && Drain(b).error == Drain(c).error
  }

  /** With `done` given to the callback and `b` to come, it is given `called` in all, and decoding ends with `r`. */
  ghost predicate Ends(b: Bytes, done: seq<Message>, accepts: seq<Message> -> bool, called: seq<Message>, r: Result) {
    var d := Drain(b);
    && called == Called(done, d.messages, accepts)
    && if Rejects(done, d.messages, accepts) then r == CallbackError
       else if d.error.Some? then r == ParseError(d.error.value)
       else r == Ok || r == ReadError
  }

  /** The state of the search for the marker after `count` chunks, starting with `start` in the buffer. */
  ghost predicate Searching(start: Bytes, chunks: seq<Bytes>, count: nat, written: Bytes, buf: Bytes) {
    && count <= |chunks| && written + buf == start + Flatten(chunks[..count])
    && (written != [] ==> |buf| >= 4) && (count == 0 ==> written == []) && (count > 0 ==> NoMarker(written + buf))
    && (forall j :: 0 < j < count ==> NoMarker(start + Flatten(chunks[..j])))
  }

  /**
   The search has ended at the first marker of the whole stream, in the first chunk that
   completes one: what precedes it is written, what was read after it is in the buffer.
   */
  ghost predicate Located(start: Bytes, chunks: seq<Bytes>, count: nat, written: Bytes, buf: Bytes) {
    && 0 < count <= |chunks| && (forall j :: 0 < j < count ==> NoMarker(start + Flatten(chunks[..j])))
    && FirstMarker(start + Flatten(chunks), |written|)
    && start + Flatten(chunks[..count]) == written + MARKER + buf
  }

  /** What has been written out and what is in the buffer are what has been read. */
  lemma SearchSees(start: Bytes, chunks: seq<Bytes>, count: nat, written: Bytes, buf: Bytes)
    requires Searching(start, chunks, count, written, buf) && count < |chunks|
    ensures written + (buf + chunks[count]) == start + Flatten(chunks[..count + 1])
  {
    FlattenMore(chunks, count);
    Associates(written, buf, chunks[count]);
    Associates(start, Flatten(chunks[..count]), chunks[count]);
  }

  lemma SearchGoesOn(start: Bytes, chunks: seq<Bytes>, count: nat, written: Bytes, buf: Bytes, size: nat)
    requires Searching(start, chunks, count, written, buf) && count < |chunks| && NoMarker(buf + chunks[count])
    requires size <= |buf + chunks[count]| && (size == 0 || |buf + chunks[count]| - size == 4)
    requires written != [] ==> |buf + chunks[count]| - size >= 4
    ensures var b := buf + chunks[count]; Searching(start, chunks, count + 1, written + b[..size], b[size..])
  {
    var b := buf + chunks[count];
    SearchSees(start, chunks, count, written, buf);
    NoMarkerInBuffer(written, buf, chunks[count]);
    Associates(written, b[..size], b[size..]);
    assert b[..size] + b[size..] == b;
  }

  /** The input is over. */
  lemma SearchFails(start: Bytes, chunks: seq<Bytes>, count: nat, written: Bytes, buf: Bytes)
    requires Searching(start, chunks, count, written, buf) && count == |chunks|
    ensures written + buf == start + Flatten(chunks) && (chunks != [] ==> NoMarker(written + buf))
  {
    assert chunks[..count] == chunks;
  }

  lemma SearchEnds(start: Bytes, chunks: seq<Bytes>, count: nat, written: Bytes, buf: Bytes, pos: nat)
    requires Searching(start, chunks, count, written, buf) && count < |chunks| && FirstMarker(buf + chunks[count], pos)
    ensures var b := buf + chunks[count]; Located(start, chunks, count + 1, written + b[..pos], b[pos + 4..])
  {
    var b, read, rest := buf + chunks[count], Flatten(chunks[..count + 1]), Flatten(chunks[count + 1..]);
    SearchSees(start, chunks, count, written, buf);
    MarkerInBuffer(written, buf, chunks[count], pos);
    FlattenSplit(chunks, count + 1);
    FirstMarkerStays(start + read, rest, |written| + pos);
    Associates(start, read, rest);
    CutAtMarker(written, b, pos);
  }

  lemma CutAtMarker(written: Bytes, b: Bytes, pos: nat)
    requires MarkerAt(b, pos)
    ensures written + b == (written + b[..pos]) + MARKER + b[pos + 4..]
  {
    assert b == b[..pos] + b[pos..pos + 4] + b[pos + 4..];
  }

  /**
   What decoding a stream comes to. Without a marker it fails and hands over nothing. If a
   read gives bytes after the chunk that completes the first marker, the callback is given
   the messages of all the bytes after the marker, as if they were parsed at once; if none
   does, it is given nothing.
   */
  ghost predicate Decoded(start: Bytes, chunks: seq<Bytes>, failing: bool, accepts: seq<Message> -> bool,
                          found: bool, count: nat, r: Result, written: Bytes, called: seq<Message>) {
    var stream := start + Flatten(chunks);
    if !found then
      r == (if failing then ReadError else MarkerMissing) && called == [] && (chunks != [] ==> NoMarker(stream))
    else
      && FirstMarker(stream, |written|) && written == stream[..|written|] && 0 < count <= |chunks|
      && MarkerAt(start + Flatten(chunks[..count]), |written|)
      && (forall j :: 0 < j < count ==> NoMarker(start + Flatten(chunks[..j])))
      && if count == |chunks| then called == [] && r == (if failing then ReadError else Ok)
         else
           && Ends(stream[|written| + 4..], [], accepts, called, r)
           && (r.Ok? ==> !failing) && (r.ReadError? ==> failing)
  }

  lemma LocatedSplits(start: Bytes, chunks: seq<Bytes>, count: nat, written: Bytes, buf: Bytes)
    requires Located(start, chunks, count, written, buf)
    ensures var stream := start + Flatten(chunks);
            && MarkerAt(start + Flatten(chunks[..count]), |written|) && |written| + 4 <= |stream|
            && stream[..|written|] == written && stream[|written| + 4..] == buf + Flatten(chunks[count..])
  {
    FlattenSplit(chunks, count);
    var rest := Flatten(chunks[count..]);
    Associates(start, Flatten(chunks[..count]), rest);
    Slices(written, MARKER, buf, rest);
    Slices(written, MARKER, buf, []);
    assert written + MARKER + buf + [] == written + MARKER + buf;
  }

  lemma Slices(a: Bytes, b: Bytes, c: Bytes, d: Bytes)
    ensures var t := a + b + c + d;
            t[..|a|] == a && t[|a|..|a| + |b|] == b && t[|a| + |b|..] == c + d
  {
  }

  class Decoder {
    var buf: Bytes
    var readHeader: bool

    constructor ()
      ensures buf == [] && !readHeader
    {
      buf, readHeader := [], false;
    }

    /**
     Reads until the marker is found, writing out what precedes it. `count` is the number
     of chunks read. The marker found is the first of the whole stream, however the stream
     is cut into chunks, and what stays in the buffer is what was read after it.
     */
    method ReadInitial(input: Input) returns (r: Result, written: Bytes, ghost count: nat)
      requires input.Valid()
      modifies this, input
      ensures input.Valid() && count <= |old(input.chunks)| && input.chunks == old(input.chunks)[count..]
      ensures r.Ok? ==> readHeader && Located(old(buf), old(input.chunks), count, written, buf)
      ensures !r.Ok? ==>
                && r == (if input.failing then ReadError else MarkerMissing) && readHeader == old(readHeader)
                && input.chunks == [] && written + buf == old(buf) + Flatten(old(input.chunks))
                && (old(input.chunks) != [] ==> NoMarker(written + buf))
    {
      written, count := [], 0;
      ghost var all, start := input.chunks, buf;
      assert all[..0] == [];
      while true
        invariant input.Valid() && count <= |all| && input.chunks == all[count..] && readHeader == old(readHeader)
        invariant Searching(start, all, count, written, buf)
        decreases |input.chunks|
      {
        var bytes, failed := input.Read();
        if bytes == [] {
          SearchFails(start, all, count, written, buf);
          return if failed then ReadError else MarkerMissing, written, count;
        }
        ghost var before := buf;
        var found, out := TakeChunk(bytes);
        if found {
          SearchEnds(start, all, count, written, before, |out|);
          written, count := written + out, count + 1;
          readHeader := true;
          return Ok, written, count;
        }
        SearchGoesOn(start, all, count, written, before, |out|);
        written, count := written + out, count + 1;
      }
    }

    /** Looks for the marker in the buffer with one more chunk; `out` is what is written out. */
    method TakeChunk(bytes: Bytes) returns (found: bool, out: Bytes)
      modifies this
      ensures readHeader == old(readHeader)
      ensures var b := old(buf) + bytes;
              && |out| <= |b| && out == b[..|out|]
              && if found then FirstMarker(b, |out|) && buf == b[|out| + 4..]
                 else NoMarker(b) && buf == b[|out|..] && (if |b| > 4 then |out| == |b| - 4 else out == [])
    {
      buf := buf + bytes;
      var pos := FindMarker(buf);
      if pos.Some? {
        out := buf[..pos.value];
        buf := buf[pos.value + 4..];
        return true, out;
      }
      found, out := false, [];
      if |buf| > 4 {
        // what is known not to be part of the marker
        var toWrite := |buf| - 4;
        out := buf[..toWrite];
        buf := buf[toWrite..];
      }
    }

    /** Hands over the messages at the front of the buffer, until it has too few bytes for another one. */
    method DeliverBuffered(accepts: seq<Message> -> bool, earlier: seq<Message>, ghost more: Bytes)
      returns (r: Result, called: seq<Message>)
      modifies this
      ensures r.Ok? || r.ParseError? || r.CallbackError?
      ensures readHeader == old(readHeader)
      ensures r.Ok? ==> Alike(old(buf) + more, earlier, buf + more, called, accepts) && ParseMessage()(buf).End?
      ensures !r.Ok? ==> Ends(old(buf) + more, earlier, accepts, called, r)
    {
      called := earlier;
      while true
        invariant readHeader == old(readHeader) && Alike(old(buf) + more, earlier, buf + more, called, accepts)
        decreases |buf|
      {
        var p := ParseMessage();
        match p(buf)
        case End => return Ok, called;
        case Bad(e) =>
          DrainBad(buf, more, e);
          return ParseError(e), called;
        case Done(m, n) =>
          DrainOne(buf, more, m, n);
          if !accepts(called + [m]) {
            return CallbackError, called + [m];
          }
          called := called + [m];
          buf := buf[n..];
      }
    }

    /**
     Decodes a stream. `accepts` is the callback: whether it takes the last of the messages
     it has been given so far. If a read gives bytes after the chunk that completes the
     marker, the callback is given the messages of all the bytes after the marker, as if
     they were parsed at once; if none does, it is given nothing.
     */
    method Decode(input: Input, accepts: seq<Message> -> bool)
      returns (r: Result, written: Bytes, called: seq<Message>, ghost found: bool, ghost count: nat)
      requires input.Valid()
      modifies this, input
      ensures Decoded(old(buf), old(input.chunks), input.failing, accepts, found, count, r, written, called)
    {
      ghost var all := input.chunks;
      r, written, count := ReadInitial(input);
      called, found := [], r.Ok?;
      if !r.Ok? {
        return;
      }
      LocatedSplits(old(buf), all, count, written, buf);
      r, called := DecodeMessages(input, accepts);
    }

    /** The loop after the marker: every read adds to the buffer, and what it completes is handed over. */
    method DecodeMessages(input: Input, accepts: seq<Message> -> bool) returns (r: Result, called: seq<Message>)
      requires input.Valid()
      modifies this, input
      ensures if old(input.chunks) == [] then called == [] && r == (if input.failing then ReadError else Ok)
              else
                && Ends(old(buf) + Flatten(old(input.chunks)), [], accepts, called, r)
                && (r.Ok? ==> !input.failing) && (r.ReadError? ==> input.failing)
    {
      called := [];
      ghost var after, first := buf + Flatten(input.chunks), true;
      while true
        invariant input.Valid() && Alike(after, [], buf + Flatten(input.chunks), called, accepts)
        invariant if first then called == [] && input.chunks == old(input.chunks)
                  else ParseMessage()(buf).End? && old(input.chunks) != []
        decreases |input.chunks|
      {
        ghost var chunks := input.chunks;
        var bytes, failed := input.Read();
        if bytes == [] {
          assert buf + [] == buf;
          return if failed then ReadError else Ok, called;
        }
        Associates(buf, bytes, Flatten(input.chunks));
        buf := buf + bytes;
        first := false;
        r, called := DeliverBuffered(accepts, called, Flatten(input.chunks));
        if !r.Ok? {
          return;
        }
      }
    }
  }

  lemma {:induction false} FlattenSplit(chunks: seq<Bytes>, k: nat)
    requires k <= |chunks|
    ensures Flatten(chunks) == Flatten(chunks[..k]) + Flatten(chunks[k..])
  {
    if k == 0 {
      assert chunks[..0] == [] && chunks[0..] == chunks;
    } else {
      FlattenSplit(chunks[1..], k - 1);
      assert chunks[..k][1..] == chunks[1..][..k - 1] && chunks[1..][k - 1..] == chunks[k..];
    }
  }

  lemma FlattenMore(chunks: seq<Bytes>, k: nat)
    requires k < |chunks|
    ensures Flatten(chunks[..k + 1]) == Flatten(chunks[..k]) + chunks[k]
  {
    FlattenSplit(chunks[..k + 1], k);
    assert chunks[..k + 1][..k] == chunks[..k];
    assert chunks[..k + 1][k..] == [chunks[k]];
    assert Flatten([chunks[k]]) == chunks[k] + Flatten([chunks[k]][1..]);
  }

  // ---- Sender and decoder together ----

  function StreamOf(ms: seq<Message>): Bytes {
    if ms == [] then [] else MessageBytes(ms[0]) + StreamOf(ms[1..])
  }

  /** The noise ends with the first half of a marker, so that a marker starts in it when a marker follows. */
  predicate EndsWithHalf(noise: Bytes) {
    |noise| >= 2 && noise[|noise| - 2..] == [255, 0]
  }

  /**
    * The marker is found where it was written if and only if the noise before it has none and does not end with
    * half of one.
    */
  lemma MarkerWhereWritten(noise: Bytes, rest: Bytes)
    ensures FirstMarker(noise + MARKER + rest, |noise|) <==> NoMarker(noise) && !EndsWithHalf(noise)
  {
    var t, n := noise + MARKER + rest, |noise|;
    assert t[n..n + 4] == MARKER;
    forall i: nat | i < n
      ensures MarkerAt(t, i) <==> MarkerAt(noise, i) || (i == n - 2 && EndsWithHalf(noise))
    {
      NoiseMarker(noise, rest, i);
    }
    assert forall i: nat :: MarkerAt(noise, i) ==> i < n;
    if EndsWithHalf(noise) {
      assert MarkerAt(t, n - 2);
    }
  }

  lemma NoiseMarker(noise: Bytes, rest: Bytes, i: nat)
    requires i < |noise|
    ensures MarkerAt(noise + MARKER + rest, i) <==> MarkerAt(noise, i) || (i == |noise| - 2 && EndsWithHalf(noise))
  {
    var t, n := noise + MARKER + rest, |noise|;
    if i + 4 <= n {
      assert t[i..i + 4] == noise[i..i + 4];
    } else {
      var w := t[i..i + 4];
      assert w[n - i] == 255;
      if i == n - 2 {
        assert w == noise[n - 2..] + [255, 0];
        assert w[..2] == noise[n - 2..];
      } else {
        assert MARKER[1] == 0 && MARKER[3] == 0;
      }
    }
  }

  /** A callback that rejects nothing is given every message. */
  lemma {:induction false} CalledAll(done: seq<Message>, ms: seq<Message>, accepts: seq<Message> -> bool)
    requires forall h :: accepts(h)
    ensures Called(done, ms, accepts) == done + ms && !Rejects(done, ms, accepts)
    decreases |ms|
  {
    if ms == [] {
      assert done + ms == done;
    } else {
      CalledAll(done + [ms[0]], ms[1..], accepts);
      assert done + [ms[0]] + ms[1..] == done + ms;
    }
  }

  /**
   What the sender writes is what the decoder hands over. The stream is noise, the marker,
   whole messages and the start of one more, cut into reads in any way; the callback takes
   everything. If a read follows the chunk that completes the marker, the noise is written
   out and the callback is given exactly the whole messages.
   */
  lemma SentIsReceived(noise: Bytes, ms: seq<Message>, m: Message, k: nat, chunks: seq<Bytes>, failing: bool,
                       accepts: seq<Message> -> bool, found: bool, count: nat, r: Result, written: Bytes,
                       called: seq<Message>)
    requires (forall i :: 0 <= i < |ms| ==> Sendable(ms[i])) && Sendable(m) && k < |MessageBytes(m)|
    requires forall h :: accepts(h)
    requires NoMarker(noise) && !EndsWithHalf(noise)
    requires Flatten(chunks) == noise + MARKER + (StreamOf(ms) + MessageBytes(m)[..k])
    requires Decoded([], chunks, failing, accepts, found, count, r, written, called)
    ensures found && written == noise
    ensures if count == |chunks| then called == [] else called == ms && r == if failing then ReadError else Ok
  {
    var tail := StreamOf(ms) + MessageBytes(m)[..k];
    SentStream(noise, tail, chunks);
    DecodedAt(chunks, failing, accepts, found, count, r, written, called, noise, tail);
    if count != |chunks| {
      WholeEnds(ms, m, k, accepts, called, r);
    }
  }

  /** Decoding finds the first marker, whatever stands before and after it. */
  lemma DecodedAt(chunks: seq<Bytes>, failing: bool, accepts: seq<Message> -> bool, found: bool, count: nat,
                  r: Result, written: Bytes, called: seq<Message>, noise: Bytes, tail: Bytes)
    requires Decoded([], chunks, failing, accepts, found, count, r, written, called)
    requires var t := [] + Flatten(chunks);
             && chunks != [] && FirstMarker(t, |noise|) && |noise| + 4 <= |t|
             && t[..|noise|] == noise && t[|noise| + 4..] == tail
    ensures found && written == noise
    ensures if count == |chunks| then called == []
            else Ends(tail, [], accepts, called, r) && (r.Ok? ==> !failing) && (r.ReadError? ==> failing)
  {
    var t := [] + Flatten(chunks);
    if found {
      SameFirst(t, |written|, |noise|);
    }
  }

  /** Given whole messages and the start of one more, a callback that takes everything is given the whole messages. */
  lemma WholeEnds(ms: seq<Message>, m: Message, k: nat, accepts: seq<Message> -> bool, called: seq<Message>, r: Result)
    requires (forall i :: 0 <= i < |ms| ==> Sendable(ms[i])) && Sendable(m) && k < |MessageBytes(m)|
    requires forall h :: accepts(h)
    requires Ends(StreamOf(ms) + MessageBytes(m)[..k], [], accepts, called, r)
    ensures called == ms && (r.Ok? || r.ReadError?)
  {
    WholeMessages(ms, m, k);
    CalledAll([], ms, accepts);
    assert [] + ms == ms;
  }

  lemma SameFirst(b: Bytes, i: nat, j: nat)
    requires FirstMarker(b, i) && FirstMarker(b, j)
    ensures i == j
  {
  }

  /** The shape of a sent stream. */
  lemma SentStream(noise: Bytes, tail: Bytes, chunks: seq<Bytes>)
    requires NoMarker(noise) && !EndsWithHalf(noise) && Flatten(chunks) == noise + MARKER + tail
    ensures var t := [] + Flatten(chunks);
            && chunks != [] && FirstMarker(t, |noise|) && |noise| + 4 <= |t|
            && t[..|noise|] == noise && t[|noise| + 4..] == tail
  {
    var t := [] + Flatten(chunks);
    assert t == noise + MARKER + tail;
    MarkerWhereWritten(noise, tail);
    Slices(noise, MARKER, tail, []);
    assert noise + MARKER + tail + [] == t && tail + [] == tail;
  }

  /** Parsed at once, whole messages and the start of one more give exactly the whole messages. */
  lemma WholeMessages(ms: seq<Message>, m: Message, k: nat)
    requires (forall i :: 0 <= i < |ms| ==> Sendable(ms[i])) && Sendable(m) && k < |MessageBytes(m)|
    ensures Drain(StreamOf(ms) + MessageBytes(m)[..k]) == Drained(ms, MessageBytes(m)[..k], None)
  {
    MessageCutShort(m, k);
    DrainStream(ms, MessageBytes(m)[..k]);
  }

  lemma {:induction false} DrainStream(ms: seq<Message>, tail: Bytes)
    requires (forall i :: 0 <= i < |ms| ==> Sendable(ms[i])) && ParseMessage()(tail) == End
    ensures Drain(StreamOf(ms) + tail) == Drained(ms, tail, None)
  {
    if ms == [] {
      assert StreamOf([]) + tail == tail;
    } else {
      var b, rest := MessageBytes(ms[0]), StreamOf(ms[1..]);
      DrainStream(ms[1..], tail);
      DrainSent(ms[0], rest + tail);
      Associates(b, rest, tail);
      assert [ms[0]] + ms[1..] == ms;
    }
  }

  lemma DrainSent(m: Message, more: Bytes)
    requires Sendable(m)
    ensures var d := Drain(more); Drain(MessageBytes(m) + more) == Drained([m] + d.messages, d.rest, d.error)
  {
    var b := MessageBytes(m);
    MessageRoundTrip(m, more);
    MessageAdvances(b + more);
    assert (b + more)[|b|..] == more;
  }
}
