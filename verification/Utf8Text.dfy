/** The byte strings accepted as text are the UTF-8 encodings of Unicode scalar values (section 3 of RFC 3629). */
module Utf8Text {
  import opened Wire

  type Scalar = c: int | 0 <= c < 0xD800 || 0xE000 <= c < 0x11_0000

  function Tail(n: nat): byte {
    0x80 + n % 0x40
  }

  function Encode(c: Scalar): seq<byte> {
    if c < 0x80 then [c]
    else if c < 0x800 then [0xC0 + c / 0x40, Tail(c)]
    else if c < 0x1_0000 then [0xE0 + c / 0x1000, Tail(c / 0x40), Tail(c)]
    else [0xF0 + c / 0x4_0000, Tail(c / 0x1000), Tail(c / 0x40), Tail(c)]
  }

  function EncodeAll(cs: seq<Scalar>): seq<byte> {
    if cs == [] then [] else Encode(cs[0]) + EncodeAll(cs[1..])
  }

  lemma EncodedIsText(c: Scalar, rest: seq<byte>)
    requires Utf8(rest)
    ensures Utf8(Encode(c) + rest)
  {
    var s := Encode(c) + rest;
    assert s[|Encode(c)|..] == rest;
  }

  lemma {:induction false} AllEncodedIsText(cs: seq<Scalar>)
    ensures Utf8(EncodeAll(cs))
  {
    if cs != [] {
      AllEncodedIsText(cs[1..]);
      EncodedIsText(cs[0], EncodeAll(cs[1..]));
    }
  }

  lemma TwoBytes(b: byte, x: byte) returns (c: Scalar)
    requires 0xC2 <= b < 0xE0 && Continuation(x)
    ensures Encode(c) == [b, x]
  {
    c := 0x40 * (b as int - 0xC0) + (x as int - 0x80);
  }

  lemma ThreeBytes(b: byte, x: byte, y: byte) returns (c: Scalar)
    requires 0xE0 <= b < 0xF0 && Continuation(x) && Continuation(y)
    requires (b == 0xE0 ==> 0xA0 <= x) && (b == 0xED ==> x < 0xA0)
    ensures Encode(c) == [b, x, y]
  {
    c := 0x1000 * (b as int - 0xE0) + 0x40 * (x as int - 0x80) + (y as int - 0x80);
    assert c / 0x40 == 0x40 * (b as int - 0xE0) + (x as int - 0x80);
  }

  lemma FourBytes(b: byte, x: byte, y: byte, z: byte) returns (c: Scalar)
    requires 0xF0 <= b < 0xF5 && Continuation(x) && Continuation(y) && Continuation(z)
    requires (b == 0xF0 ==> 0x90 <= x) && (b == 0xF4 ==> x < 0x90)
    ensures Encode(c) == [b, x, y, z]
  {
    c := 0x4_0000 * (b as int - 0xF0) + 0x1000 * (x as int - 0x80) + 0x40 * (y as int - 0x80) + (z as int - 0x80);
    assert c / 0x40 == 0x1000 * (b as int - 0xF0) + 0x40 * (x as int - 0x80) + (y as int - 0x80);
    assert c / 0x1000 == 0x40 * (b as int - 0xF0) + (x as int - 0x80);
  }

  /** Text begins with the encoding of some scalar value. */
  lemma FirstScalar(s: seq<byte>) returns (c: Scalar)
    requires s != [] && Utf8(s)
    ensures Encode(c) <= s && Utf8(s[|Encode(c)|..])
  {
    var b := s[0];
    if b < 0x80 {
      c := b;
    } else if b < 0xE0 {
      c := TwoBytes(b, s[1]);
    } else if b < 0xF0 {
      c := ThreeBytes(b, s[1], s[2]);
    } else {
      c := FourBytes(b, s[1], s[2], s[3]);
    }
  }

  lemma {:induction false} TextIsEncoded(s: seq<byte>) returns (cs: seq<Scalar>)
    requires Utf8(s)
    ensures EncodeAll(cs) == s
    decreases |s|
  {
    if s == [] {
      cs := [];
    } else {
      var c := FirstScalar(s);
      var rest := TextIsEncoded(s[|Encode(c)|..]);
      cs := [c] + rest;
      assert cs[1..] == rest;
    }
  }

  /** A byte string is text exactly if it encodes some sequence of scalar values. */
  lemma TextIff(s: seq<byte>)
    ensures Utf8(s) <==> exists cs :: EncodeAll(cs) == s
  {
    if Utf8(s) {
      var cs := TextIsEncoded(s);
    }
    if cs :| EncodeAll(cs) == s {
      AllEncodedIsText(cs);
    }
  }
}
