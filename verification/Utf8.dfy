/** UTF-8 as the response cache uses it: bodies are decoded with replacement and encoded again. */
module Utf8 {

  type Byte = x: int | 0 <= x < 256 witness 0

  /** A Unicode scalar value. */
  predicate Scalar(c: int) {
    0 <= c < 0x110000 && !(0xD800 <= c < 0xE000)
  }

  const REPLACEMENT := 0xFFFD

  function EncodeOne(c: int): (b: seq<Byte>)
    requires Scalar(c)
    ensures 1 <= |b| <= 4
  {
    if c < 0x80 then [c]
    else if c < 0x800 then [0xC0 + c / 64, 0x80 + c % 64]
    else if c < 0x10000 then [0xE0 + c / 4096, 0x80 + c / 64 % 64, 0x80 + c % 64]
    else [0xF0 + c / 262144, 0x80 + c / 4096 % 64, 0x80 + c / 64 % 64, 0x80 + c % 64]
  }

  ghost predicate Scalars(t: seq<int>) {
    forall i :: 0 <= i < |t| ==> Scalar(t[i])
  }

  function Encode(t: seq<int>): seq<Byte>
    requires forall i :: 0 <= i < |t| ==> Scalar(t[i])
  {
    if t == [] then [] else EncodeOne(t[0]) + Encode(t[1..])
  }

  predicate Continues(b: Byte) {
    0x80 <= b < 0xC0
  }

  /** The bytes that may follow a lead byte: fewer for E0, ED, F0 and F4. */
  predicate Second(lead: Byte, b: Byte) {
    && Continues(b)
    && (lead == 0xE0 ==> b >= 0xA0) && (lead == 0xED ==> b < 0xA0)
    && (lead == 0xF0 ==> b >= 0x90) && (lead == 0xF4 ==> b < 0x90)
  }

  /** What a continuation byte carries. */
  function Bits(b: Byte): int {
    (b as int) - 0x80
  }

  datatype Decoded = Decoded(scalar: int, used: nat)

  /** The first scalar; an ill-formed start gives the replacement character for its longest valid part. */
  function DecodeOne(b: seq<Byte>): (d: Decoded)
    requires b != []
    ensures Scalar(d.scalar) && 1 <= d.used <= |b|
  {
    var lead: int := b[0];
    if lead < 0x80 then Decoded(lead, 1)
    else if lead < 0xC2 || lead > 0xF4 then Decoded(REPLACEMENT, 1)
    else if |b| < 2 || !Second(lead, b[1]) then Decoded(REPLACEMENT, 1)
    else if lead < 0xE0 then Decoded((lead - 0xC0) * 64 + Bits(b[1]), 2)
    else if |b| < 3 || !Continues(b[2]) then Decoded(REPLACEMENT, 2)
    else if lead < 0xF0 then Decoded((lead - 0xE0) * 4096 + Bits(b[1]) * 64 + Bits(b[2]), 3)
    else if |b| < 4 || !Continues(b[3]) then Decoded(REPLACEMENT, 3)
    else Decoded((lead - 0xF0) * 262144 + Bits(b[1]) * 4096 + Bits(b[2]) * 64 + Bits(b[3]), 4)
  }

  /** bytes.decode("utf-8", errors="replace") */
  function Decode(b: seq<Byte>): (t: seq<int>)
    ensures forall i :: 0 <= i < |t| ==> Scalar(t[i])
    decreases |b|
  {
    if b == [] then []
    else
      var d := DecodeOne(b);
      [d.scalar] + Decode(b[d.used..])
  }

  lemma Digits(c: int)
    requires 0 <= c
    ensures c == c / 64 * 64 + c % 64
    ensures c == c / 4096 * 4096 + c / 64 % 64 * 64 + c % 64
    ensures c == c / 262144 * 262144 + c / 4096 % 64 * 4096 + c / 64 % 64 * 64 + c % 64
  {
    assert c / 64 / 64 == c / 4096;
    assert c / 4096 / 64 == c / 262144;
  }

  lemma TwoBytesDecode(c: int, rest: seq<Byte>)
    requires 0x80 <= c < 0x800
    ensures DecodeOne([0xC0 + c / 64, 0x80 + c % 64] + rest) == Decoded(c, 2)
  {
    Digits(c);
    var x, y := c / 64, c % 64;
    assert 2 <= x < 0x20 && 0 <= y < 64;
    var b: seq<Byte> := [0xC0 + x, 0x80 + y] + rest;
    assert b[0] == 0xC0 + x && b[1] == 0x80 + y;
  }

  lemma ThreeBytesDecode(c: int, rest: seq<Byte>)
    requires 0x800 <= c < 0x10000 && Scalar(c)
    ensures DecodeOne([0xE0 + c / 4096, 0x80 + c / 64 % 64, 0x80 + c % 64] + rest) == Decoded(c, 3)
  {
    Digits(c);
    var x, y, z := c / 4096, c / 64 % 64, c % 64;
    assert 0 <= x < 0x10 && 0 <= y < 64 && 0 <= z < 64;
    assert x == 0 ==> y >= 0x20;
    assert x == 0xD ==> y < 0x20;
    var b: seq<Byte> := [0xE0 + x, 0x80 + y, 0x80 + z] + rest;
    assert b[0] == 0xE0 + x && b[1] == 0x80 + y && b[2] == 0x80 + z;
  }

  lemma FourBytesDecode(c: int, rest: seq<Byte>)
    requires 0x10000 <= c < 0x110000
    ensures DecodeOne([0xF0 + c / 262144, 0x80 + c / 4096 % 64, 0x80 + c / 64 % 64, 0x80 + c % 64] + rest)
         == Decoded(c, 4)
  {
    Digits(c);
    var w, x, y, z := c / 262144, c / 4096 % 64, c / 64 % 64, c % 64;
    assert 0 <= w <= 4 && 0 <= x < 64 && 0 <= y < 64 && 0 <= z < 64;
    assert w == 0 ==> x >= 0x10;
    assert w == 4 ==> x < 0x10;
    var b: seq<Byte> := [0xF0 + w, 0x80 + x, 0x80 + y, 0x80 + z] + rest;
    assert b[0] == 0xF0 + w && b[1] == 0x80 + x && b[2] == 0x80 + y && b[3] == 0x80 + z;
  }

  lemma EncodedOneDecodes(c: int, rest: seq<Byte>)
    requires Scalar(c)
    ensures DecodeOne(EncodeOne(c) + rest) == Decoded(c, |EncodeOne(c)|)
  {
    if c < 0x80 {
    } else if c < 0x800 {
      TwoBytesDecode(c, rest);
    } else if c < 0x10000 {
      ThreeBytesDecode(c, rest);
    } else {
      FourBytesDecode(c, rest);
    }
  }

  /** Text survives the round trip. */
  lemma {:induction false} EncodedTextDecodes(t: seq<int>)
    requires Scalars(t)
    ensures Decode(Encode(t)) == t
  {
    if t != [] {
      var first, rest := EncodeOne(t[0]), Encode(t[1..]);
      EncodedOneDecodes(t[0], rest);
      assert (first + rest)[|first|..] == rest;
      EncodedTextDecodes(t[1..]);
    }
  }

  /** A body comes back byte for byte exactly when it is the UTF-8 of some text. */
  lemma {:induction false} BodySurvivesExactlyWhenText(b: seq<Byte>)
    ensures Encode(Decode(b)) == b <==> exists t :: Scalars(t) && b == Encode(t)
  {
    if Encode(Decode(b)) == b {
      assert Scalars(Decode(b));
    }
    if exists t :: Scalars(t) && b == Encode(t) {
      var t :| Scalars(t) && b == Encode(t);
      EncodedTextDecodes(t);
    }
  }

  // ---- what replaces an ill-formed start (the Unicode Standard, section 3.9) ----

  /** An initial part of the encoding of some scalar value. */
  ghost predicate Begins(p: seq<Byte>) {
    exists c :: Scalar(c) && p <= EncodeOne(c)
  }

  ghost predicate WellFormedStart(b: seq<Byte>) {
    exists c :: Scalar(c) && EncodeOne(c) <= b
  }

  /** How many bytes a lead byte announces. */
  function Announced(lead: int): nat {
    if lead < 0x80 then 1 else if lead < 0xE0 then 2 else if lead < 0xF0 then 3 else 4
  }

  predicate Leads(lead: int) {
    lead < 0x80 || 0xC2 <= lead <= 0xF4
  }

  lemma EncodedShape(c: int)
    requires Scalar(c)
    ensures var e := EncodeOne(c);
            && Leads(e[0]) && |e| == Announced(e[0])
            && (|e| > 1 ==> Second(e[0], e[1])) && (|e| > 2 ==> Continues(e[2])) && (|e| > 3 ==> Continues(e[3]))
  {
    Digits(c);
  }

  lemma TwoBytesEncode(lead: Byte, x: Byte)
    requires 0xC2 <= lead < 0xE0 && Second(lead, x)
    ensures var c := (lead - 0xC0) * 64 + Bits(x); Scalar(c) && EncodeOne(c) == [lead, x]
  {
  }

  lemma ThreeBytesEncode(lead: Byte, x: Byte, y: Byte)
    requires 0xE0 <= lead < 0xF0 && Second(lead, x) && Continues(y)
    ensures var c := (lead - 0xE0) * 4096 + Bits(x) * 64 + Bits(y); Scalar(c) && EncodeOne(c) == [lead, x, y]
  {
    var c := (lead - 0xE0) * 4096 + Bits(x) * 64 + Bits(y);
    assert c / 4096 == lead - 0xE0 && c / 64 == (lead - 0xE0) * 64 + Bits(x);
    assert c / 64 % 64 == Bits(x) && c % 64 == Bits(y);
  }

  lemma FourBytesEncode(lead: Byte, x: Byte, y: Byte, z: Byte)
    requires 0xF0 <= lead <= 0xF4 && Second(lead, x) && Continues(y) && Continues(z)
    ensures var c := (lead - 0xF0) * 262144 + Bits(x) * 4096 + Bits(y) * 64 + Bits(z);
            Scalar(c) && EncodeOne(c) == [lead, x, y, z]
  {
    var c := (lead - 0xF0) * 262144 + Bits(x) * 4096 + Bits(y) * 64 + Bits(z);
    assert c / 262144 == lead - 0xF0 && c / 4096 == (lead - 0xF0) * 64 + Bits(x);
    assert c / 64 == (lead - 0xF0) * 4096 + Bits(x) * 64 + Bits(y);
    assert c / 4096 % 64 == Bits(x) && c / 64 % 64 == Bits(y) && c % 64 == Bits(z);
  }

  /** How many bytes of the start are as the lead byte wants them. */
  function Fitting(b: seq<Byte>): nat
    requires b != [] && Leads(b[0])
  {
    var n := Announced(b[0]);
    if n == 1 || |b| < 2 || !Second(b[0], b[1]) then 1
    else if n == 2 || |b| < 3 || !Continues(b[2]) then 2
    else if n == 3 || |b| < 4 || !Continues(b[3]) then 3
    else 4
  }

  /** Completes what fits with the smallest continuation bytes allowed. */
  lemma FittingIsCompletable(b: seq<Byte>)
    requires b != [] && Leads(b[0])
    ensures Begins(b[..Fitting(b)])
  {
    var lead := b[0];
    var x: Byte := if Fitting(b) > 1 then b[1] else if lead == 0xE0 then 0xA0 else if lead == 0xF0 then 0x90 else 0x80;
    var y: Byte := if Fitting(b) > 2 then b[2] else 0x80;
    var z: Byte := if Fitting(b) > 3 then b[3] else 0x80;
    if lead < 0x80 {
      assert b[..1] <= EncodeOne(lead);
    } else if lead < 0xE0 {
      TwoBytesEncode(lead, x);
      PrefixOf(b, [lead, x], (lead - 0xC0) * 64 + Bits(x));
    } else if lead < 0xF0 {
      ThreeBytesEncode(lead, x, y);
      PrefixOf(b, [lead, x, y], (lead - 0xE0) * 4096 + Bits(x) * 64 + Bits(y));
    } else {
      FourBytesEncode(lead, x, y, z);
      PrefixOf(b, [lead, x, y, z], (lead - 0xF0) * 262144 + Bits(x) * 4096 + Bits(y) * 64 + Bits(z));
    }
  }

  lemma PrefixOf(b: seq<Byte>, e: seq<Byte>, c: int)
    requires b != [] && Leads(b[0]) && Scalar(c) && EncodeOne(c) == e && Fitting(b) <= |e|
    requires forall i :: 0 <= i < Fitting(b) ==> e[i] == b[i]
    ensures Begins(b[..Fitting(b)])
  {
    assert b[..Fitting(b)] <= EncodeOne(c);
  }

  lemma NothingLongerBegins(b: seq<Byte>, k: nat)
    requires b != [] && Leads(b[0]) && Fitting(b) < k <= |b|
    ensures !Begins(b[..k])
  {
    if Begins(b[..k]) {
      var c :| Scalar(c) && b[..k] <= EncodeOne(c);
      EncodedShape(c);
      var e := EncodeOne(c);
      assert forall i :: 0 <= i < k ==> b[i] == b[..k][i] == e[i];
    }
  }

  lemma NoLeadBegins(b: seq<Byte>, k: nat)
    requires b != [] && !Leads(b[0]) && 0 < k <= |b|
    ensures !Begins(b[..k])
  {
    if Begins(b[..k]) {
      var c :| Scalar(c) && b[..k] <= EncodeOne(c);
      EncodedShape(c);
      assert false;
    }
  }

  lemma DecodedByFit(b: seq<Byte>)
    requires b != [] && Leads(b[0])
    ensures DecodeOne(b).used == Fitting(b)
    ensures Fitting(b) == Announced(b[0]) ==> WellFormedStart(b)
    ensures Fitting(b) != Announced(b[0]) ==> DecodeOne(b).scalar == 0xFFFD
  {
    if Fitting(b) == Announced(b[0]) {
      if |b| >= 2 && b[0] >= 0x80 && b[0] < 0xE0 {
        TwoBytesEncode(b[0], b[1]);
      } else if |b| >= 3 && 0xE0 <= b[0] < 0xF0 {
        ThreeBytesEncode(b[0], b[1], b[2]);
      } else if |b| >= 4 && b[0] >= 0xF0 {
        FourBytesEncode(b[0], b[1], b[2], b[3]);
      }
      assert EncodeOne(DecodeOne(b).scalar) <= b;
    }
  }

  /** Decoding takes the scalar value whose encoding stands there. Where none does, U+FFFD replaces the longest
      initial part of an encoding that stands there, or else one byte. */
  lemma ReplacementsAreMaximal(b: seq<Byte>)
    requires b != []
    ensures var d := DecodeOne(b);
            if WellFormedStart(b) then EncodeOne(d.scalar) == b[..d.used]
            else
              && d.scalar == 0xFFFD && (Begins(b[..d.used]) || d.used == 1)
              && forall k :: d.used < k <= |b| ==> !Begins(b[..k])
  {
    var d := DecodeOne(b);
    if WellFormedStart(b) {
      var c :| Scalar(c) && EncodeOne(c) <= b;
      var e := EncodeOne(c);
      EncodedOneDecodes(c, b[|e|..]);
      assert e + b[|e|..] == b;
    } else if Leads(b[0]) {
      DecodedByFit(b);
      FittingIsCompletable(b);
      forall k | d.used < k <= |b| ensures !Begins(b[..k]) {
        NothingLongerBegins(b, k);
      }
    } else {
      forall k | d.used < k <= |b| ensures !Begins(b[..k]) {
        NoLeadBegins(b, k);
      }
    }
  }
}
