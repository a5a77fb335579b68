/**
 The strings of the protocol are exactly the encodings of sequences of Unicode scalar
 values: no overlong forms, no surrogates, nothing above U+10FFFF.
 */
module Utf8 {
  import opened Wire

  type Scalar = c: int | 0 <= c < 0xD800 || 0xE000 <= c < 0x11_0000

  function Tail(c: nat): byte { 0x80 + c % 64 }

  function EncodeScalar(c: Scalar): seq<byte> {
    if c < 0x80 then [c]
    else if c < 0x800 then [0xC0 + c / 64, Tail(c)]
    else if c < 0x1_0000 then [0xE0 + c / 4096, Tail(c / 64), Tail(c)]
    else [0xF0 + c / 262_144, Tail(c / 4096), Tail(c / 64), Tail(c)]
  }

  function EncodeScalars(cs: seq<Scalar>): seq<byte> {
    if cs == [] then [] else EncodeScalar(cs[0]) + EncodeScalars(cs[1..])
  }

  /** An encoded scalar at the front is recognised, and by its own length. */
  lemma ScalarWidth(c: Scalar, tail: seq<byte>)
    ensures var s := EncodeScalar(c) + tail;
            s != [] && Utf8Width(s) == |EncodeScalar(c)| && s[Utf8Width(s)..] == tail
  {
    var e := EncodeScalar(c);
    var s := e + tail;
    assert forall i :: 0 <= i < |e| ==> s[i] == e[i];
    assert s[|e|..] == tail;
  }

  /** What is recognised at the front is an encoded scalar. */
  lemma FrontIsScalar(s: seq<byte>) returns (c: Scalar)
    requires s != [] && Utf8Width(s) > 0
    ensures EncodeScalar(c) == s[..Utf8Width(s)]
  {
    match Utf8Width(s)
    case 1 => c := s[0];
    case 2 => c := TwoBytes(s[0], s[1]);
    case 3 => c := ThreeBytes(s[0], s[1], s[2]);
    case _ => c := FourBytes(s[0], s[1], s[2], s[3]);
  }

  lemma TwoBytes(a: byte, b: byte) returns (c: Scalar)
    requires 0xC2 <= a <= 0xDF && Continuation(b)
    ensures EncodeScalar(c) == [a, b]
  {
    c := (a - 0xC0) * 64 + (b - 0x80);
  }

  lemma ThreeBytes(a: byte, b: byte, d: byte) returns (c: Scalar)
    requires 0xE0 <= a <= 0xEF && Continuation(b) && Continuation(d)
    requires (a == 0xE0 ==> b >= 0xA0) && (a == 0xED ==> b <= 0x9F)
    ensures EncodeScalar(c) == [a, b, d]
  {
    c := (a - 0xE0) * 4096 + (b - 0x80) * 64 + (d - 0x80);
    assert c / 64 == (a - 0xE0) * 64 + (b - 0x80);
  }

  lemma FourBytes(a: byte, b: byte, d: byte, f: byte) returns (c: Scalar)
    requires 0xF0 <= a <= 0xF4 && Continuation(b) && Continuation(d) && Continuation(f)
    requires (a == 0xF0 ==> b >= 0x90) && (a == 0xF4 ==> b <= 0x8F)
    ensures EncodeScalar(c) == [a, b, d, f]
  {
    c := (a - 0xF0) * 262_144 + (b - 0x80) * 4096 + (d - 0x80) * 64 + (f - 0x80);
    assert c / 64 == (a - 0xF0) * 4096 + (b - 0x80) * 64 + (d - 0x80);
    assert c / 4096 == (a - 0xF0) * 64 + (b - 0x80);
  }

  lemma {:induction false} EncodedIsValid(cs: seq<Scalar>)
    ensures ValidUtf8(EncodeScalars(cs))
  {
    if cs != [] {
      ScalarWidth(cs[0], EncodeScalars(cs[1..]));
      EncodedIsValid(cs[1..]);
    }
  }

  lemma {:induction false} ValidIsEncoded(s: seq<byte>) returns (cs: seq<Scalar>)
    requires ValidUtf8(s)
    ensures EncodeScalars(cs) == s
    decreases |s|
  {
    if s == [] {
      cs := [];
    } else {
      var w := Utf8Width(s);
      var c := FrontIsScalar(s);
      var rest := ValidIsEncoded(s[w..]);
      cs := [c] + rest;
      assert cs[1..] == rest && s == s[..w] + s[w..];
    }
  }

  /** The reference: a byte string is accepted as a string exactly if it encodes some sequence of scalar values. */
  lemma ValidUtf8Iff(s: seq<byte>)
    ensures ValidUtf8(s) <==> exists cs: seq<Scalar> :: EncodeScalars(cs) == s
  {
    if ValidUtf8(s) { var cs := ValidIsEncoded(s); }
    if cs: seq<Scalar> :| EncodeScalars(cs) == s { EncodedIsValid(cs); }
  }
}
