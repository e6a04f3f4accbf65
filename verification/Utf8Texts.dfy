/**
 Texts are checked as Rust checks a `str`: the bytes accepted are exactly the UTF-8
 encodings of sequences of Unicode scalar values.
 */
module Utf8Texts {
  import opened Wire

  /** A Unicode scalar value: a code point that is not a surrogate. */
  type Scalar = c: nat | c < 0xD800 || 0xE000 <= c < 0x110000

  /** The encoding of one character, table 3-6 of the Unicode standard. */
  function Encode(c: Scalar): (b: Bytes)
    ensures 1 <= |b| <= 4
  {
    if c < 0x80 then [c]
    else if c < 0x800 then [0xC0 + c / 64, 0x80 + c % 64]
    else if c < 0x10000 then [0xE0 + c / 4096, 0x80 + c / 64 % 64, 0x80 + c % 64]
    else [0xF0 + c / 262144, 0x80 + c / 4096 % 64, 0x80 + c / 64 % 64, 0x80 + c % 64]
  }

  function EncodeAll(cs: seq<Scalar>): Bytes {
    if cs == [] then [] else Encode(cs[0]) + EncodeAll(cs[1..])
  }

  /** What is encoded is recognised, whatever follows. */
  lemma EncodedIsChar(c: Scalar, rest: Bytes)
    ensures CharLength(Encode(c) + rest) == |Encode(c)|
  {
    var s := Encode(c) + rest;
    assert forall i :: 0 <= i < |Encode(c)| ==> s[i] == Encode(c)[i];
  }

  /** The character at the start of `s`. */
  lemma CharIsEncoded(s: Bytes) returns (c: Scalar)
    requires CharLength(s) > 0
    ensures Encode(c) == s[..CharLength(s)]
  {
    match CharLength(s)
    case 1 => c := s[0];
    case 2 =>
      var first: nat, second: nat := s[0] - 0xC0, s[1] - 0x80;
      c := first * 64 + second;
    case 3 => c := TwoMore(s[0] - 0xE0, s[1] - 0x80, s[2] - 0x80);
    case 4 => c := ThreeMore(s[0] - 0xF0, s[1] - 0x80, s[2] - 0x80, s[3] - 0x80);
  }

  lemma TwoMore(a: nat, b: nat, d: nat) returns (c: nat)
    requires a < 16 && b < 64 && d < 64
    ensures c == a * 4096 + b * 64 + d && c / 4096 == a && c / 64 % 64 == b && c % 64 == d
  {
    c := a * 4096 + b * 64 + d;
  }

  lemma ThreeMore(a: nat, b: nat, d: nat, e: nat) returns (c: nat)
    requires a < 8 && b < 64 && d < 64 && e < 64
    ensures c == a * 262144 + b * 4096 + d * 64 + e && c / 262144 == a && c / 4096 % 64 == b
    ensures c / 64 % 64 == d && c % 64 == e
  {
    c := a * 262144 + b * 4096 + d * 64 + e;
  }

  lemma {:induction false} EncodedIsUtf8(cs: seq<Scalar>)
    ensures Utf8(EncodeAll(cs))
    decreases |cs|
  {
    if cs != [] {
      var rest := EncodeAll(cs[1..]);
      EncodedIsChar(cs[0], rest);
      EncodedIsUtf8(cs[1..]);
      assert (Encode(cs[0]) + rest)[|Encode(cs[0])|..] == rest;
    }
  }

  lemma {:induction false} Utf8IsEncoded(s: Bytes) returns (cs: seq<Scalar>)
    requires Utf8(s)
    ensures EncodeAll(cs) == s
    decreases |s|
  {
    if s == [] {
      cs := [];
    } else {
      var n := CharLength(s);
      var c := CharIsEncoded(s);
      var rest := Utf8IsEncoded(s[n..]);
      cs := [c] + rest;
      assert cs[1..] == rest && s == s[..n] + s[n..];
    }
  }

  /** The bytes taken for a text are exactly the encodings of characters. */
  lemma Utf8Exactly(s: Bytes)
    ensures Utf8(s) <==> exists cs: seq<Scalar> :: s == EncodeAll(cs)
  {
    if Utf8(s) {
      var cs := Utf8IsEncoded(s);
    }
    if cs: seq<Scalar> :| s == EncodeAll(cs) {
      EncodedIsUtf8(cs);
    }
  }
}
