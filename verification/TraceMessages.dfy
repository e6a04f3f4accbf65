/**
 The ktrace messages and their wire form. The type of a field is not sent: it is looked
 up by the field's name in a table both sides share.
 */
module TraceMessages {
  import opened Options
  import opened Wire

  datatype FieldType = KernelAddressType | PhysicalAddressType | VirtualAddressType | StringType | U64Type

  datatype Value =
    | KernelAddress(v: U64)
    | PhysicalAddress(v: U64)
    | VirtualAddress(v: U64)
    | Str(s: Text)
    | Number(v: U64)

  datatype Field = Field(name: Text, value: Value)

  datatype Parent = Root | Current(processor: U32) | Explicit(span: U64)

  datatype Level = Error | Warn | Info | Debug | Trace

  datatype Metadata = Metadata(name: Text, target: Text, level: Level, file: Option<Text>, line: Option<U32>)

  datatype Message =
    | SpanCreated(id: U64, parent: Parent, metadata: Metadata, fields: seq<Field>)
    | Event(parent: Parent, metadata: Metadata, fields: seq<Field>)
    | SpanEntered(id: U64, processor: U32)
    | SpanExited(id: U64, processor: U32)
    | SpanClosed(id: U64)

  // ---- The schema ----

  // The names of the known fields.
  const AT: Bytes := ['a' as int, 't' as int]
  const MESSAGE: Bytes := ['m' as int, 'e' as int, 's' as int, 's' as int, 'a' as int, 'g' as int, 'e' as int]
  const COUNT: Bytes := ['c' as int, 'o' as int, 'u' as int, 'n' as int, 't' as int]
  const SIZE: Bytes := ['s' as int, 'i' as int, 'z' as int, 'e' as int]
  const VADDR: Bytes := ['v' as int, 'a' as int, 'd' as int, 'd' as int, 'r' as int]
  const PADDR: Bytes := ['p' as int, 'a' as int, 'd' as int, 'd' as int, 'r' as int]
  const RANGE: Bytes := ['r' as int, 'a' as int, 'n' as int, 'g' as int, 'e' as int]

  /** The table of known fields. */
  function Lookup(name: Text): Option<FieldType> {
    if name == AT then Some(KernelAddressType)
    else if name == MESSAGE then Some(StringType)
    else if name == COUNT then Some(U64Type)
    else if name == SIZE then Some(U64Type)
    else if name == VADDR then Some(VirtualAddressType)
    else if name == PADDR then Some(PhysicalAddressType)
    else if name == RANGE then Some(StringType)
    else None
  }

  function TypeOf(v: Value): FieldType {
    match v
    case KernelAddress(_) => KernelAddressType
    case PhysicalAddress(_) => PhysicalAddressType
    case VirtualAddress(_) => VirtualAddressType
    case Str(_) => StringType
    case Number(_) => U64Type
  }

  /** The field is known, and its value is of the type the table gives it. */
  predicate WellTyped(f: Field) {
    Lookup(f.name) == Some(TypeOf(f.value))
  }

  predicate AllWellTyped(fs: seq<Field>) {
    |fs| < U64_LIMIT && forall i :: 0 <= i < |fs| ==> WellTyped(fs[i])
  }

  predicate Sendable(m: Message) {
    m.SpanCreated? || m.Event? ==> AllWellTyped(m.fields)
  }

  // ---- Fields ----

  function ParseValue(t: FieldType): Parser<Value> {
    match t
    case KernelAddressType => Map(ParseU64, (v: U64) => KernelAddress(v))
    case PhysicalAddressType => Map(ParseU64, (v: U64) => PhysicalAddress(v))
    case VirtualAddressType => Map(ParseU64, (v: U64) => VirtualAddress(v))
    case StringType => Map(ParseText(), (s: Text) => Str(s))
    case U64Type => Map(ParseU64, (v: U64) => Number(v))
  }

  function ValueBytes(v: Value): Bytes {
    if v.Str? then TextBytes(v.s) else VarintOf(v.v)
  }

  lemma ValueStreams(t: FieldType)
    ensures Streams(ParseValue(t))
  {
    U64Streams();
    TextStreams();
    match t
    case KernelAddressType => MapStreams(ParseU64, (v: U64) => KernelAddress(v));
    case PhysicalAddressType => MapStreams(ParseU64, (v: U64) => PhysicalAddress(v));
    case VirtualAddressType => MapStreams(ParseU64, (v: U64) => VirtualAddress(v));
    case StringType => MapStreams(ParseText(), (s: Text) => Str(s));
    case U64Type => MapStreams(ParseU64, (v: U64) => Number(v));
  }

  lemma ValueReads(v: Value)
    ensures Reads(ParseValue(TypeOf(v)), ValueBytes(v), v)
  {
    if v.Str? {
      TextReads(v.s);
    } else {
      U64Reads(v.v);
    }
  }

  function Named(name: Text): Value -> Field {
    (v: Value) => Field(name, v)
  }

  /** A field's value is read as the table says; an unknown field is an error. */
  function FieldBody(name: Text): Parser<Field> {
    match Lookup(name)
    case Some(t) => Map(ParseValue(t), Named(name))
    case None => Fail(Custom)
  }

  function ParseField(): Parser<Field> {
    Bind(ParseText(), FieldBody)
  }

  function FieldBytes(f: Field): Bytes {
    TextBytes(f.name) + ValueBytes(f.value)
  }

  lemma FieldStreams()
    ensures Streams(ParseField())
  {
    TextStreams();
    forall name: Text
      ensures Streams(FieldBody(name))
    {
      match Lookup(name)
      case Some(t) =>
        ValueStreams(t);
        MapStreams(ParseValue(t), Named(name));
      case None => FailStreams<Field>(Custom);
    }
    BindStreams(ParseText(), FieldBody);
  }

  lemma FieldReads(f: Field)
    requires WellTyped(f)
    ensures Reads(ParseField(), FieldBytes(f), f)
  {
    TextStreams();
    TextReads(f.name);
    ValueReads(f.value);
    BindReads(ParseText(), FieldBody, TextBytes(f.name), f.name, ValueBytes(f.value), f);
  }

  function Cons(p: (Field, seq<Field>)): seq<Field> {
    [p.0] + p.1
  }

  /** `n` fields, one after the other. */
  function Entries(n: U64): Parser<seq<Field>> {
    if n == 0 then Return([]) else Map(Pair(ParseField(), Entries(n - 1)), Cons)
  }

  function EntriesBytes(fs: seq<Field>): Bytes {
    if fs == [] then [] else FieldBytes(fs[0]) + EntriesBytes(fs[1..])
  }

  function ParseFields(): Parser<seq<Field>> {
    Bind(ParseU64, Entries)
  }

  function FieldsBytes(fs: seq<Field>): Bytes {
    VarintOf(|fs|) + EntriesBytes(fs)
  }

  lemma {:induction false} EntriesStreams(n: U64)
    ensures Streams(Entries(n))
  {
    if n == 0 {
      ReturnStreams<seq<Field>>([]);
    } else {
      FieldStreams();
      EntriesStreams(n - 1);
      PairStreams(ParseField(), Entries(n - 1));
      MapStreams(Pair(ParseField(), Entries(n - 1)), Cons);
    }
  }

  lemma EntryReads(f: Field, fs: seq<Field>)
    requires Reads(ParseField(), FieldBytes(f), f) && |fs| + 1 < U64_LIMIT && Reads(Entries(|fs|), EntriesBytes(fs), fs)
    ensures Reads(Entries(|fs| + 1), FieldBytes(f) + EntriesBytes(fs), [f] + fs)
  {
    var n: U64 := |fs|;
    FieldStreams();
    PairReads<Field, seq<Field>>(ParseField(), Entries(n), FieldBytes(f), f, EntriesBytes(fs), fs);
    MapReads<(Field, seq<Field>), seq<Field>>(
      Pair(ParseField(), Entries(n)), Cons, FieldBytes(f) + EntriesBytes(fs), (f, fs));
  }

  lemma {:induction false} EntriesRead(fs: seq<Field>)
    requires AllWellTyped(fs)
    ensures Reads(Entries(|fs|), EntriesBytes(fs), fs)
  {
    if fs != [] {
      FieldReads(fs[0]);
      EntriesRead(fs[1..]);
      EntryReads(fs[0], fs[1..]);
      assert [fs[0]] + fs[1..] == fs;
    }
  }

  lemma FieldsStream()
    ensures Streams(ParseFields())
  {
    U64Streams();
    forall n: U64
      ensures Streams(Entries(n))
    {
      EntriesStreams(n);
    }
    BindStreams(ParseU64, Entries);
  }

  lemma FieldsRead(fs: seq<Field>)
    requires AllWellTyped(fs)
    ensures Reads(ParseFields(), FieldsBytes(fs), fs)
  {
    U64Streams();
    U64Reads(|fs|);
    EntriesRead(fs);
    BindReads<U64, seq<Field>>(ParseU64, Entries, VarintOf(|fs|), |fs|, EntriesBytes(fs), fs);
  }

  /** Fields that were read are known, of their types, and as many as announced. */
  lemma {:induction false} EntriesSound(n: U64, b: Bytes)
    requires Entries(n)(b).Done?
    ensures |Entries(n)(b).value| == n && AllWellTyped(Entries(n)(b).value)
  {
    if n > 0 {
      var f := ParseField()(b);
      if f.Done? {
        FieldStreams();
        assert Steady(ParseField(), b, []);
        EntriesStep(n, b, f.value, f.used);
        FieldSound(b);
        EntriesSound(n - 1, b[f.used..]);
      } else {
        EntriesStop(n, b);
      }
    }
  }

  lemma FieldSound(b: Bytes)
    requires ParseField()(b).Done?
    ensures WellTyped(ParseField()(b).value)
  {
    var name := ParseText()(b);
    ValueSound(Lookup(name.value).value, Drop(b, name.used));
  }

  lemma ValueSound(t: FieldType, b: Bytes)
    requires ParseValue(t)(b).Done?
    ensures TypeOf(ParseValue(t)(b).value) == t
  {
  }

  /** The loop of `visit_map`, which reads fields until the announced number is reached. */
  method VisitMap(b: Bytes, len: U64) returns (r: Parse<seq<Field>>)
    ensures r == Entries(len)(b)
  {
    var fields: seq<Field> := [];
    var left: U64 := len;
    var used := 0;
    assert b[0..] == b;
    PrependNothing(Entries(len)(b));
    while left > 0
      invariant used <= |b| && Entries(len)(b) == Prepended(fields, used, Entries(left)(b[used..]))
    {
      var p := ParseField();
      match p(b[used..])
      case End =>
        EntriesStop(left, b[used..]);
        return End;
      case Bad(e) =>
        EntriesStop(left, b[used..]);
        return Bad(e);
      case Done(f, n) =>
        VisitOne(b, fields, used, left, f, n);
        fields, used, left := fields + [f], used + n, left - 1;
    }
    assert fields + [] == fields;
    r := Done(fields, used);
  }

  /** A result with `fs` read before it, in `n` bytes. */
  function Prepended(fs: seq<Field>, n: nat, r: Parse<seq<Field>>): Parse<seq<Field>> {
    if r.Done? then Done(fs + r.value, n + r.used) else r
  }

  lemma EntriesStep(n: U64, b: Bytes, f: Field, k: nat)
    requires n > 0 && ParseField()(b) == Done(f, k) && k <= |b|
    ensures Entries(n)(b) == Prepended([f], k, Entries(n - 1)(b[k..]))
  {
    var p, q := ParseField(), Entries(n - 1);
    PairAfter<Field, seq<Field>>(p, q, b, f, k);
    assert Entries(n)(b) == Map(Pair(p, q), Cons)(b);
  }

  /** One turn of the loop. */
  lemma VisitOne(b: Bytes, fs: seq<Field>, used: nat, left: U64, f: Field, n: nat)
    requires used <= |b| && left > 0 && ParseField()(b[used..]) == Done(f, n)
    ensures used + n <= |b|
    ensures Prepended(fs, used, Entries(left)(b[used..]))
         == Prepended(fs + [f], used + n, Entries(left - 1)(b[used + n..]))
  {
    var c := b[used..];
    FieldStreams();
    assert Steady(ParseField(), c, []);
    EntriesStep(left, c, f, n);
    assert c[n..] == b[used + n..];
    PrependTwice(fs, used, f, n, Entries(left - 1)(c[n..]));
  }

  lemma EntriesStop(n: U64, b: Bytes)
    requires n > 0 && !ParseField()(b).Done?
    ensures Entries(n)(b) == (if ParseField()(b).End? then End else Bad(ParseField()(b).error))
  {
    assert Entries(n)(b) == Map(Pair(ParseField(), Entries(n - 1)), Cons)(b);
  }

  lemma PrependNothing(r: Parse<seq<Field>>)
    ensures Prepended([], 0, r) == r
  {
    if r.Done? {
      assert [] + r.value == r.value;
    }
  }

  lemma PrependTwice(fs: seq<Field>, n: nat, f: Field, k: nat, r: Parse<seq<Field>>)
    ensures Prepended(fs, n, Prepended([f], k, r)) == Prepended(fs + [f], n + k, r)
  {
    if r.Done? {
      assert fs + ([f] + r.value) == fs + [f] + r.value;
    }
  }

  // ---- Messages ----

  /** The variants of an enum by discriminant; any other discriminant is an error. */
  function ParentBody(tag: U32): Parser<Parent> {
    match tag
    case 0 => Return(Root)
    case 1 => Map(ParseU32, (p: U32) => Current(p))
    case 2 => Map(ParseU64, (s: U64) => Explicit(s))
    case _ => Fail(Custom)
  }

  function ParseParent(): Parser<Parent> {
    Bind(ParseU32, ParentBody)
  }

  function ParentBytes(p: Parent): Bytes {
    match p
    case Root => VarintOf(0)
    case Current(processor) => VarintOf(1) + VarintOf(processor)
    case Explicit(span) => VarintOf(2) + VarintOf(span)
  }

  lemma ParentStreams()
    ensures Streams(ParseParent())
  {
    U32Streams();
    U64Streams();
    forall tag: U32
      ensures Streams(ParentBody(tag))
    {
      ReturnStreams(Root);
      FailStreams<Parent>(Custom);
      MapStreams(ParseU32, (p: U32) => Current(p));
      MapStreams(ParseU64, (s: U64) => Explicit(s));
    }
    BindStreams(ParseU32, ParentBody);
  }

  lemma ParentReads(p: Parent)
    ensures Reads(ParseParent(), ParentBytes(p), p)
  {
    U32Streams();
    match p
    case Root =>
      U32Reads(0);
      BindReads<U32, Parent>(ParseU32, ParentBody, VarintOf(0), 0, [], p);
    case Current(processor) =>
      U32Reads(1);
      U32Reads(processor);
      BindReads<U32, Parent>(ParseU32, ParentBody, VarintOf(1), 1, VarintOf(processor), p);
    case Explicit(span) =>
      U32Reads(2);
      U64Reads(span);
      BindReads<U32, Parent>(ParseU32, ParentBody, VarintOf(2), 2, VarintOf(span), p);
  }

  function LevelBody(tag: U32): Parser<Level> {
    match tag
    case 0 => Return(Error)
    case 1 => Return(Warn)
    case 2 => Return(Info)
    case 3 => Return(Debug)
    case 4 => Return(Trace)
    case _ => Fail(Custom)
  }

  function ParseLevel(): Parser<Level> {
    Bind(ParseU32, LevelBody)
  }

  function LevelTag(l: Level): U32 {
    match l
    case Error => 0
    case Warn => 1
    case Info => 2
    case Debug => 3
    case Trace => 4
  }

  lemma LevelStreams()
    ensures Streams(ParseLevel())
  {
    U32Streams();
    forall tag: U32
      ensures Streams(LevelBody(tag))
    {
    }
    BindStreams(ParseU32, LevelBody);
  }

  lemma LevelReads(l: Level)
    ensures Reads(ParseLevel(), VarintOf(LevelTag(l)), l)
  {
    U32Streams();
    U32Reads(LevelTag(l));
    BindReads<U32, Level>(ParseU32, LevelBody, VarintOf(LevelTag(l)), LevelTag(l), [], l);
    assert VarintOf(LevelTag(l)) + [] == VarintOf(LevelTag(l));
  }

  type Place = (Option<Text>, Option<U32>)
  type MetadataParts = (Text, (Text, (Level, Place)))

  function MakeMetadata(t: MetadataParts): Metadata {
    Metadata(t.0, t.1.0, t.1.1.0, t.1.1.1.0, t.1.1.1.1)
  }

  function ParsePlace(): Parser<Place> {
    Pair(ParseOption(ParseText()), ParseOption(ParseU32))
  }

  function PlaceBytes(file: Option<Text>, line: Option<U32>): Bytes {
    OptionBytes(file, (s: Text) => TextBytes(s)) + OptionBytes(line, (v: U32) => VarintOf(v))
  }

  function ParseMetadata(): Parser<Metadata> {
    Map(Pair(ParseText(), Pair(ParseText(), Pair(ParseLevel(), ParsePlace()))), MakeMetadata)
  }

  function MetadataBytes(m: Metadata): Bytes {
    TextBytes(m.name) + (TextBytes(m.target) + (VarintOf(LevelTag(m.level)) + PlaceBytes(m.file, m.line)))
  }

  lemma PlaceStreams()
    ensures Streams(ParsePlace())
  {
    TextStreams();
    U32Streams();
    OptionStreams(ParseText());
    OptionStreams(ParseU32);
    PairStreams(ParseOption(ParseText()), ParseOption(ParseU32));
  }

  lemma PlaceReads(file: Option<Text>, line: Option<U32>)
    ensures Reads(ParsePlace(), PlaceBytes(file, line), (file, line))
  {
    TextStreams();
    U32Streams();
    OptionStreams(ParseText());
    if file.Some? {
      TextReads(file.value);
    }
    if line.Some? {
      U32Reads(line.value);
    }
    OptionReads(ParseText(), file, (s: Text) => TextBytes(s));
    OptionReads(ParseU32, line, (v: U32) => VarintOf(v));
    PairReads(ParseOption(ParseText()), ParseOption(ParseU32), OptionBytes(file, (s: Text) => TextBytes(s)), file,
              OptionBytes(line, (v: U32) => VarintOf(v)), line);
  }

  lemma MetadataStreams()
    ensures Streams(ParseMetadata())
  {
    TextStreams();
    LevelStreams();
    PlaceStreams();
    var p := Pair(ParseLevel(), ParsePlace());
    PairStreams(ParseLevel(), ParsePlace());
    PairStreams(ParseText(), p);
    PairStreams(ParseText(), Pair(ParseText(), p));
    MapStreams(Pair(ParseText(), Pair(ParseText(), p)), MakeMetadata);
  }

  lemma MetadataReads(m: Metadata)
    ensures Reads(ParseMetadata(), MetadataBytes(m), m)
  {
    TextStreams();
    LevelStreams();
    TextReads(m.name);
    TextReads(m.target);
    LevelReads(m.level);
    PlaceReads(m.file, m.line);
    var p, place := Pair(ParseLevel(), ParsePlace()), (m.file, m.line);
    var b := VarintOf(LevelTag(m.level)) + PlaceBytes(m.file, m.line);
    PairReads(ParseLevel(), ParsePlace(), VarintOf(LevelTag(m.level)), m.level, PlaceBytes(m.file, m.line), place);
    PairReads(ParseText(), p, TextBytes(m.target), m.target, b, (m.level, place));
    PairReads(ParseText(), Pair(ParseText(), p), TextBytes(m.name), m.name, TextBytes(m.target) + b,
        (m.target, (m.level, place)));
    MapReads(Pair(ParseText(), Pair(ParseText(), p)), MakeMetadata, MetadataBytes(m),
        (m.name, (m.target, (m.level, place))));
  }

  type EventParts = (Parent, (Metadata, seq<Field>))

  function ParseEventParts(): Parser<EventParts> {
    Pair(ParseParent(), Pair(ParseMetadata(), ParseFields()))
  }

  function EventBytes(parent: Parent, metadata: Metadata, fields: seq<Field>): Bytes {
    ParentBytes(parent) + (MetadataBytes(metadata) + FieldsBytes(fields))
  }

  lemma EventPartsStream()
    ensures Streams(ParseEventParts())
  {
    ParentStreams();
    MetadataStreams();
    FieldsStream();
    PairStreams(ParseMetadata(), ParseFields());
    PairStreams(ParseParent(), Pair(ParseMetadata(), ParseFields()));
  }

  lemma EventPartsRead(parent: Parent, metadata: Metadata, fields: seq<Field>)
    requires AllWellTyped(fields)
    ensures Reads(ParseEventParts(), EventBytes(parent, metadata, fields), (parent, (metadata, fields)))
  {
    ParentStreams();
    MetadataStreams();
    ParentReads(parent);
    MetadataReads(metadata);
    FieldsRead(fields);
    PairReads(ParseMetadata(), ParseFields(), MetadataBytes(metadata), metadata, FieldsBytes(fields), fields);
    PairReads(ParseParent(), Pair(ParseMetadata(), ParseFields()), ParentBytes(parent), parent,
              MetadataBytes(metadata) + FieldsBytes(fields), (metadata, fields));
  }

  function MakeCreated(t: (U64, EventParts)): Message {
    SpanCreated(t.0, t.1.0, t.1.1.0, t.1.1.1)
  }

  function MakeEvent(t: EventParts): Message {
    Event(t.0, t.1.0, t.1.1)
  }

  function MakeEntered(t: (U64, U32)): Message {
    SpanEntered(t.0, t.1)
  }

  function MakeExited(t: (U64, U32)): Message {
    SpanExited(t.0, t.1)
  }

  function MakeClosed(id: U64): Message {
    SpanClosed(id)
  }

  function MessageBody(tag: U32): Parser<Message> {
    match tag
    case 0 => Map(Pair(ParseU64, ParseEventParts()), MakeCreated)
    case 1 => Map(ParseEventParts(), MakeEvent)
    case 2 => Map(Pair(ParseU64, ParseU32), MakeEntered)
    case 3 => Map(Pair(ParseU64, ParseU32), MakeExited)
    case 4 => Map(ParseU64, MakeClosed)
    case _ => Fail(Custom)
  }

  /** `postcard::take_from_bytes` for a received message. */
  function ParseMessage(): Parser<Message> {
    Bind(ParseU32, MessageBody)
  }

  lemma MessageStreams()
    ensures Streams(ParseMessage())
  {
    U32Streams();
    U64Streams();
    EventPartsStream();
    forall tag: U32
      ensures Streams(MessageBody(tag))
    {
      MessageBodyStreams(tag);
    }
    BindStreams(ParseU32, MessageBody);
  }

  lemma MessageBodyStreams(tag: U32)
    ensures Streams(MessageBody(tag))
  {
    U32Streams();
    U64Streams();
    EventPartsStream();
    PairStreams(ParseU64, ParseU32);
    PairStreams(ParseU64, ParseEventParts());
    MapStreams(Pair(ParseU64, ParseEventParts()), MakeCreated);
    MapStreams(ParseEventParts(), MakeEvent);
    MapStreams(Pair(ParseU64, ParseU32), MakeEntered);
    MapStreams(Pair(ParseU64, ParseU32), MakeExited);
    MapStreams(ParseU64, MakeClosed);
    FailStreams<Message>(Custom);
  }

  function MessageTag(m: Message): U32 {
    match m
    case SpanCreated(_, _, _, _) => 0
    case Event(_, _, _) => 1
    case SpanEntered(_, _) => 2
    case SpanExited(_, _) => 3
    case SpanClosed(_) => 4
  }

  function MessageRest(m: Message): Bytes {
    match m
    case SpanCreated(id, parent, metadata, fields) => VarintOf(id) + EventBytes(parent, metadata, fields)
    case Event(parent, metadata, fields) => EventBytes(parent, metadata, fields)
    case SpanEntered(id, processor) => VarintOf(id) + VarintOf(processor)
    case SpanExited(id, processor) => VarintOf(id) + VarintOf(processor)
    case SpanClosed(id) => VarintOf(id)
  }

  function MessageBytes(m: Message): Bytes {
    VarintOf(MessageTag(m)) + MessageRest(m)
  }

  lemma MessageRestReads(m: Message)
    requires Sendable(m)
    ensures Reads(MessageBody(MessageTag(m)), MessageRest(m), m)
  {
    U64Streams();
    match m
    case SpanCreated(id, parent, metadata, fields) =>
      U64Reads(id);
      EventPartsRead(parent, metadata, fields);
      var b := EventBytes(parent, metadata, fields);
      PairReads(ParseU64, ParseEventParts(), VarintOf(id), id, b, (parent, (metadata, fields)));
      MapReads(Pair(ParseU64, ParseEventParts()), MakeCreated, VarintOf(id) + b, (id, (parent, (metadata, fields))));
    case Event(parent, metadata, fields) =>
      EventPartsRead(parent, metadata, fields);
      MapReads(ParseEventParts(), MakeEvent, EventBytes(parent, metadata, fields), (parent, (metadata, fields)));
    case SpanEntered(id, processor) =>
      U64Reads(id);
      U32Reads(processor);
      PairReads(ParseU64, ParseU32, VarintOf(id), id, VarintOf(processor), processor);
      MapReads(Pair(ParseU64, ParseU32), MakeEntered, VarintOf(id) + VarintOf(processor), (id, processor));
    case SpanExited(id, processor) =>
      U64Reads(id);
      U32Reads(processor);
      PairReads(ParseU64, ParseU32, VarintOf(id), id, VarintOf(processor), processor);
      MapReads(Pair(ParseU64, ParseU32), MakeExited, VarintOf(id) + VarintOf(processor), (id, processor));
    case SpanClosed(id) =>
      U64Reads(id);
      MapReads(ParseU64, MakeClosed, VarintOf(id), id);
  }

  /**
   The codec's round trip: a message whose fields match the table is read back from its
   bytes, whatever bytes follow them, which are left alone.
   */
  lemma MessageRoundTrip(m: Message, suffix: Bytes)
    requires Sendable(m)
    ensures ParseMessage()(MessageBytes(m) + suffix) == Done(m, |MessageBytes(m)|)
  {
    MessageReads(m);
    MessageStreams();
    ReadsThenMore(ParseMessage(), MessageBytes(m), m, suffix);
  }

  lemma MessageReads(m: Message)
    requires Sendable(m)
    ensures Reads(ParseMessage(), MessageBytes(m), m)
  {
    U32Streams();
    U32Reads(MessageTag(m));
    MessageRestReads(m);
    BindReads<U32, Message>(ParseU32, MessageBody, VarintOf(MessageTag(m)), MessageTag(m), MessageRest(m), m);
  }

  /** Prefix-freedom: a message cut short is too short, and never another message or an error. */
  lemma MessageCutShort(m: Message, k: nat)
    requires Sendable(m) && k < |MessageBytes(m)|
    ensures ParseMessage()(MessageBytes(m)[..k]) == End
  {
    MessageReads(m);
    MessageStreams();
    PrefixIsShort(ParseMessage(), MessageBytes(m), m, k);
  }

  /** Every message takes at least one byte. */
  lemma MessageAdvances(b: Bytes)
    requires ParseMessage()(b).Done?
    ensures 0 < ParseMessage()(b).used <= |b|
  {
    var tag := ParseU32(b);
    assert tag.Done? && tag.used > 0;
    assert ParseMessage()(b) == Follow(tag.used, MessageBody(tag.value)(Drop(b, tag.used)));
    MessageStreams();
    assert Steady(ParseMessage(), b, []);
  }

  // ---- Too short is not for ever ----

  lemma ValueHonest(t: FieldType)
    ensures Honest(ParseValue(t))
  {
    U64Honest();
    TextHonest();
    match t
    case KernelAddressType => MapHonest(ParseU64, (v: U64) => KernelAddress(v));
    case PhysicalAddressType => MapHonest(ParseU64, (v: U64) => PhysicalAddress(v));
    case VirtualAddressType => MapHonest(ParseU64, (v: U64) => VirtualAddress(v));
    case StringType => MapHonest(ParseText(), (s: Text) => Str(s));
    case U64Type => MapHonest(ParseU64, (v: U64) => Number(v));
  }

  lemma FieldHonest()
    ensures Honest(ParseField())
  {
    TextStreams();
    TextHonest();
    forall name: Text
      ensures Honest(FieldBody(name))
    {
      match Lookup(name)
      case Some(t) =>
        ValueHonest(t);
        MapHonest(ParseValue(t), Named(name));
      case None => FailHonest<Field>(Custom);
    }
    BindHonest(ParseText(), FieldBody);
  }

  lemma {:induction false} EntriesHonest(n: U64)
    ensures Honest(Entries(n))
  {
    if n == 0 {
      ReturnHonest<seq<Field>>([]);
    } else {
      FieldStreams();
      FieldHonest();
      EntriesHonest(n - 1);
      PairHonest(ParseField(), Entries(n - 1));
      MapHonest(Pair(ParseField(), Entries(n - 1)), Cons);
    }
  }

  lemma FieldsHonest()
    ensures Honest(ParseFields())
  {
    U64Streams();
    U64Honest();
    forall n: U64
      ensures Honest(Entries(n))
    {
      EntriesHonest(n);
    }
    BindHonest(ParseU64, Entries);
  }

  lemma ParentHonest()
    ensures Honest(ParseParent())
  {
    U32Streams();
    U32Honest();
    U64Honest();
    forall tag: U32
      ensures Honest(ParentBody(tag))
    {
      ReturnHonest<Parent>(Root);
      MapHonest(ParseU32, (v: U32) => Current(v));
      MapHonest(ParseU64, (v: U64) => Explicit(v));
      FailHonest<Parent>(Custom);
    }
    BindHonest(ParseU32, ParentBody);
  }

  lemma LevelHonest()
    ensures Honest(ParseLevel())
  {
    U32Streams();
    U32Honest();
    forall tag: U32
      ensures Honest(LevelBody(tag))
    {
      if tag <= 4 {
        ReturnHonest<Level>(if tag == 0 then Error else if tag == 1 then Warn else if tag == 2 then Info
                            else if tag == 3 then Debug else Trace);
      } else {
        FailHonest<Level>(Custom);
      }
    }
    BindHonest(ParseU32, LevelBody);
  }

  lemma MetadataHonest()
    ensures Honest(ParseMetadata())
  {
    TextStreams();
    TextHonest();
    U32Honest();
    LevelStreams();
    LevelHonest();
    OptionStreams(ParseText());
    OptionHonest(ParseText());
    OptionHonest(ParseU32);
    PairHonest(ParseOption(ParseText()), ParseOption(ParseU32));
    PairHonest(ParseLevel(), ParsePlace());
    PairHonest(ParseText(), Pair(ParseLevel(), ParsePlace()));
    PairHonest(ParseText(), Pair(ParseText(), Pair(ParseLevel(), ParsePlace())));
    MapHonest(Pair(ParseText(), Pair(ParseText(), Pair(ParseLevel(), ParsePlace()))), MakeMetadata);
  }

  lemma EventPartsHonest()
    ensures Honest(ParseEventParts())
  {
    ParentStreams();
    ParentHonest();
    MetadataStreams();
    MetadataHonest();
    FieldsHonest();
    PairHonest(ParseMetadata(), ParseFields());
    PairHonest(ParseParent(), Pair(ParseMetadata(), ParseFields()));
  }

  lemma MessageBodyHonest(tag: U32)
    ensures Honest(MessageBody(tag))
  {
    U64Streams();
    U64Honest();
    U32Honest();
    EventPartsHonest();
    PairHonest(ParseU64, ParseU32);
    PairHonest(ParseU64, ParseEventParts());
    MapHonest(Pair(ParseU64, ParseEventParts()), MakeCreated);
    MapHonest(ParseEventParts(), MakeEvent);
    MapHonest(Pair(ParseU64, ParseU32), MakeEntered);
    MapHonest(Pair(ParseU64, ParseU32), MakeExited);
    MapHonest(ParseU64, MakeClosed);
    FailHonest<Message>(Custom);
  }

  /**
   The decoder never waits in vain: whatever bytes it holds, some bytes after them make
   them a message or an error.
   */
  lemma MessageHonest(b: Bytes) returns (c: Bytes)
    ensures !ParseMessage()(b + c).End?
  {
    U32Streams();
    U32Honest();
    forall tag: U32
      ensures Honest(MessageBody(tag))
    {
      MessageBodyHonest(tag);
    }
    BindHonest(ParseU32, MessageBody);
    assert Decides(ParseMessage(), b);
    c :| !ParseMessage()(b + c).End?;
  }

  // ---- Unknown variants ----

  /** A number at the front of the input is taken as the variant, whatever follows. */
  lemma VariantOf<T>(body: U32 -> Parser<T>, tag: U32, rest: Bytes)
    requires body(tag) == Fail(Custom)
    ensures Bind(ParseU32, body)(VarintOf(tag) + rest) == Bad(Custom)
  {
    U32Reads(tag);
    U32Streams();
    ReadsThenMore<U32>(ParseU32, VarintOf(tag), tag, rest);
  }

  /** There are five messages, three kinds of parent and five levels: any other variant is an error. */
  lemma UnknownVariantsFail(tag: U32, rest: Bytes)
    ensures tag > 4 ==> ParseMessage()(VarintOf(tag) + rest) == Bad(Custom)
    ensures tag > 2 ==> ParseParent()(VarintOf(tag) + rest) == Bad(Custom)
    ensures tag > 4 ==> ParseLevel()(VarintOf(tag) + rest) == Bad(Custom)
  {
    if tag > 4 {
      VariantOf<Message>(MessageBody, tag, rest);
      VariantOf<Level>(LevelBody, tag, rest);
    }
    if tag > 2 {
      VariantOf<Parent>(ParentBody, tag, rest);
    }
  }

  /** A field of a name that is not in the table is an error, whatever follows. */
  lemma UnknownFieldFails(name: Text, rest: Bytes)
    ensures name !in [AT, MESSAGE, COUNT, SIZE, VADDR, PADDR, RANGE] ==>
              ParseField()(TextBytes(name) + rest) == Bad(Custom)
  {
    TextReads(name);
    TextStreams();
    ReadsThenMore<Text>(ParseText(), TextBytes(name), name, rest);
  }
}
