/**
 The sending side of ktrace fields: a visitor is handed the recorded values of a span or
 an event one by one and writes those its table allows.
 */
module FieldVisitor {
  import opened Options
  import opened Wire
  import opened TraceMessages

  /** A recorded value; `Other` stands for the kinds no known field uses (f64, i64, i128, u128, bool). */
  datatype Recorded =
    | RecordedU64(name: Text, v: U64)
    | RecordedStr(name: Text, s: Text)
      // the formatted value
    | RecordedDebug(name: Text, s: Text)
    | RecordedOther(name: Text)

  /** The field a recorded value becomes, if the table allows it. */
  function FieldFor(r: Recorded): Option<Field> {
    match Lookup(r.name)
    case None => None
    case Some(t) =>
      match r
      case RecordedU64(name, v) =>
        (match t
         case KernelAddressType => Some(Field(name, KernelAddress(v)))
         case PhysicalAddressType => Some(Field(name, PhysicalAddress(v)))
         case VirtualAddressType => Some(Field(name, VirtualAddress(v)))
         case U64Type => Some(Field(name, Number(v)))
         case StringType => None)
      case RecordedStr(name, s) => if t.StringType? then Some(Field(name, Str(s))) else None
      case RecordedDebug(name, s) => if t.StringType? then Some(Field(name, Str(s))) else None
      case RecordedOther(_) => None
  }

  predicate AllAllowed(rs: seq<Recorded>) {
    forall i :: 0 <= i < |rs| ==> FieldFor(rs[i]).Some?
  }

  function FieldsFor(rs: seq<Recorded>): (fs: seq<Field>)
    requires AllAllowed(rs)
    ensures |fs| == |rs| && forall i :: 0 <= i < |rs| ==> fs[i] == FieldFor(rs[i]).value
  {
    seq(|rs|, i requires 0 <= i < |rs| => FieldFor(rs[i]).value)
  }

  lemma AllowedIsWellTyped(r: Recorded)
    requires FieldFor(r).Some?
    ensures WellTyped(FieldFor(r).value)
  {
  }

  /** Recording value `i` panics: no field is of its kind, or its name is unknown and nothing before it failed. */
  predicate PanicsAt(rs: seq<Recorded>, i: nat)
    requires i < |rs|
  {
    rs[i].RecordedOther? || (Lookup(rs[i].name).None? && AllAllowed(rs[..i]))
  }

  datatype Written = Written(bytes: Bytes) | Refused | Panicked

  class Visitor {
    /** Once a value was refused nothing more is written. */
    var failed: bool
    /** What the serializer has been given. */
    var out: Bytes

    constructor (start: Bytes)
      ensures !failed && out == start
    {
      failed, out := false, start;
    }

    method SerializeEntry(f: Field)
      modifies this
      ensures failed == old(failed) && out == old(out) + FieldBytes(f)
    {
      out := out + TextBytes(f.name);
      out := out + ValueBytes(f.value);
    }

    method WriteU64(t: FieldType, name: Text, v: U64)
      modifies this
      ensures var f := match t
                       case KernelAddressType => Some(Field(name, KernelAddress(v)))
                       case PhysicalAddressType => Some(Field(name, PhysicalAddress(v)))
                       case VirtualAddressType => Some(Field(name, VirtualAddress(v)))
                       case U64Type => Some(Field(name, Number(v)))
                       case StringType => None;
              if f.Some? then failed == old(failed) && out == old(out) + FieldBytes(f.value)
              else failed && out == old(out)
    {
      if t.StringType? {
        failed := true;
      } else {
        out := out + TextBytes(name) + VarintOf(v);
      }
    }

    /** `write_str` and `write_debug`. */
    method WriteStr(t: FieldType, name: Text, s: Text)
      modifies this
      ensures if t.StringType? then failed == old(failed) && out == old(out) + FieldBytes(Field(name, Str(s)))
              else failed && out == old(out)
    {
      if t.StringType? {
        SerializeEntry(Field(name, Str(s)));
      } else {
        failed := true;
      }
    }

    /** `record_u64`, `record_str`, `record_debug` and the methods that only panic. */
    method Record(r: Recorded) returns (panicked: bool)
      modifies this
      ensures panicked <==> r.RecordedOther? || (!old(failed) && Lookup(r.name).None?)
      ensures !panicked && old(failed) ==> unchanged(this)
      ensures !panicked && !old(failed) ==>
                if FieldFor(r).Some? then !failed && out == old(out) + FieldBytes(FieldFor(r).value)
                else failed && out == old(out)
    {
      if r.RecordedOther? {
        return true;
      }
      if !failed {
        match Lookup(r.name)
        case None => return true;
        case Some(t) =>
          if r.RecordedU64? {
            WriteU64(t, r.name, r.v);
          } else {
            WriteStr(t, r.name, r.s);
          }
      }
      panicked := false;
    }
  }

  /** A map of the announced length with the fields of the recorded values. */
  function Output(len: U64, rs: seq<Recorded>): Bytes
    requires AllAllowed(rs)
  {
    VarintOf(len) + EntriesBytes(FieldsFor(rs))
  }

  lemma OutputMore(len: U64, rs: seq<Recorded>, r: Recorded)
    requires AllAllowed(rs) && FieldFor(r).Some?
    ensures AllAllowed(rs + [r]) && Output(len, rs + [r]) == Output(len, rs) + FieldBytes(FieldFor(r).value)
  {
    var fs, f := FieldsFor(rs), FieldFor(r).value;
    FieldsForMore(rs, r);
    EntriesAppend(fs, f);
    Associates(VarintOf(len), EntriesBytes(fs), FieldBytes(f));
  }

  lemma FieldsForMore(rs: seq<Recorded>, r: Recorded)
    requires AllAllowed(rs) && FieldFor(r).Some?
    ensures AllAllowed(rs + [r]) && FieldsFor(rs + [r]) == FieldsFor(rs) + [FieldFor(r).value]
  {
  }

  lemma OneMore(len: U64, rs: seq<Recorded>, i: nat)
    requires i < |rs|
    ensures AllAllowed(rs[..i + 1]) <==> AllAllowed(rs[..i]) && FieldFor(rs[i]).Some?
    ensures AllAllowed(rs[..i + 1]) ==>
              Output(len, rs[..i + 1]) == Output(len, rs[..i]) + FieldBytes(FieldFor(rs[i]).value)
  {
    var before, after := rs[..i], rs[..i + 1];
    assert after == before + [rs[i]];
    if AllAllowed(before) && FieldFor(rs[i]).Some? {
      OutputMore(len, before, rs[i]);
    }
    assert after[i] == rs[i] && forall j :: 0 <= j < i ==> after[j] == before[j];
  }

  /** Writes a map of the announced length and the recorded values. */
  method SerializeFields(len: U64, rs: seq<Recorded>) returns (w: Written)
    ensures w.Written? <==> AllAllowed(rs)
    ensures w.Written? ==> w.bytes == Output(len, rs)
    ensures w.Panicked? <==> exists i :: 0 <= i < |rs| && PanicsAt(rs, i)
  {
    var v := new Visitor(VarintOf(len));
    assert rs[..0] == [];
    for i := 0 to |rs|
      invariant v.failed <==> !AllAllowed(rs[..i])
      invariant !v.failed ==> v.out == Output(len, rs[..i])
      invariant forall j :: 0 <= j < i ==> !PanicsAt(rs, j)
    {
      OneMore(len, rs, i);
      var panicked := v.Record(rs[i]);
      if panicked {
        assert PanicsAt(rs, i);
        return Panicked;
      }
    }
    assert rs[..|rs|] == rs;
    if v.failed {
      return Refused;
    }
    w := Written(v.out);
  }

  lemma {:induction false} EntriesAppend(fs: seq<Field>, f: Field)
    ensures EntriesBytes(fs + [f]) == EntriesBytes(fs) + FieldBytes(f)
  {
    if fs == [] {
      assert [f][1..] == [];
    } else {
      assert (fs + [f])[0] == fs[0] && (fs + [f])[1..] == fs[1..] + [f];
      EntriesAppend(fs[1..], f);
    }
  }

  /**
   What is written is read back as the recorded fields exactly when the announced length
   of the map is the number of values recorded.
   */
  lemma WrittenReadsBackExactly(len: U64, rs: seq<Recorded>)
    requires AllAllowed(rs) && |rs| < U64_LIMIT
    ensures Reads(ParseFields(), Output(len, rs), FieldsFor(rs)) <==> len == |rs|
  {
    var fs := FieldsFor(rs);
    var b := VarintOf(len) + EntriesBytes(fs);
    forall i | 0 <= i < |fs|
      ensures WellTyped(fs[i])
    {
      AllowedIsWellTyped(rs[i]);
    }
    FieldsRead(fs);
    U64Reads(len);
    U64Streams();
    ReadsThenMore<U64>(ParseU64, VarintOf(len), len, EntriesBytes(fs));
    if Reads(ParseFields(), b, fs) {
      EntriesSound(len, Drop(b, |VarintOf(len)|));
    }
  }

  /** Recorded alone, `r` is written as a map that is read back as the field `f`. */
  ghost predicate ReadsAs(r: Recorded, f: Field) {
    AllAllowed([r]) && Reads(ParseFields(), Output(1, [r]), [f])
  }

  lemma ReadsAsFor(r: Recorded)
    requires FieldFor(r).Some?
    ensures ReadsAs(r, FieldFor(r).value)
  {
    WrittenReadsBackExactly(1, [r]);
    assert FieldsFor([r]) == [FieldFor(r).value];
  }

  lemma {:induction false} AsciiIsUtf8(s: Bytes)
    requires forall i :: 0 <= i < |s| ==> s[i] < 128
    ensures Utf8(s)
  {
    if s != [] {
      assert CharLength(s) == 1;
      AsciiIsUtf8(s[1..]);
    }
  }

  /** The known names are texts, so that there are fields of these names. */
  lemma NamesAreTexts()
    ensures Utf8(AT) && Utf8(MESSAGE) && Utf8(COUNT) && Utf8(SIZE) && Utf8(VADDR) && Utf8(PADDR) && Utf8(RANGE)
  {
    AsciiIsUtf8(AT);
    AsciiIsUtf8(MESSAGE);
    AsciiIsUtf8(COUNT);
    AsciiIsUtf8(SIZE);
    AsciiIsUtf8(VADDR);
    AsciiIsUtf8(PADDR);
    AsciiIsUtf8(RANGE);
  }

  /** What each known name makes of a number, and which names take none. */
  lemma NumbersReadAs(name: Text, v: U64)
    ensures name == AT ==> ReadsAs(RecordedU64(name, v), Field(name, KernelAddress(v)))
    ensures name == COUNT || name == SIZE ==> ReadsAs(RecordedU64(name, v), Field(name, Number(v)))
    ensures name == VADDR ==> ReadsAs(RecordedU64(name, v), Field(name, VirtualAddress(v)))
    ensures name == PADDR ==> ReadsAs(RecordedU64(name, v), Field(name, PhysicalAddress(v)))
    ensures AllAllowed([RecordedU64(name, v)]) <==> name in [AT, COUNT, SIZE, VADDR, PADDR]
  {
    var r := RecordedU64(name, v);
    assert [r][0] == r;
    if FieldFor(r).Some? {
      ReadsAsFor(r);
    }
  }

  /** What each known name makes of a text, recorded or formatted, and which names take none. */
  lemma TextsReadAs(name: Text, s: Text)
    ensures name == MESSAGE || name == RANGE ==>
              ReadsAs(RecordedStr(name, s), Field(name, Str(s))) && ReadsAs(RecordedDebug(name, s), Field(name, Str(s)))
    ensures AllAllowed([RecordedStr(name, s)]) <==> name in [MESSAGE, RANGE]
    ensures AllAllowed([RecordedDebug(name, s)]) <==> name in [MESSAGE, RANGE]
  {
    var r, d := RecordedStr(name, s), RecordedDebug(name, s);
    assert [r][0] == r && [d][0] == d;
    if FieldFor(r).Some? {
      ReadsAsFor(r);
      ReadsAsFor(d);
    }
  }
}
