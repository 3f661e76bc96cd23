/** Bytes, and the part of UTF-8 the editor relies on: decoding as a Go `range`
    loop over a string does it, and encoding as `strings.Builder.WriteRune`. */
module Utf8 {

  /** One byte, written as the character with that code so that ASCII reads as itself. */
  type Byte = c: char | c as int < 256 witness '\0'

  type Bytes = seq<Byte>

  predicate ValidRune(r: int) {
    0 <= r < 0xD800 || 0xDFFF < r <= 0x10FFFF
  }

  function ByteOf(n: int): (b: Byte)
    requires 0 <= n < 256
    ensures b as int == n
  {
    n as char
  }

  function EncodeRune(r: int): (e: Bytes)
    requires ValidRune(r)
    ensures 1 <= |e| <= 4
  {
    var q := r / 64;
    if r < 0x80 then
      [ByteOf(r)]
    else if r < 0x800 then
      [ByteOf(0xC0 + q), ByteOf(0x80 + r % 64)]
    else if r < 0x10000 then
      [ByteOf(0xE0 + q / 64), ByteOf(0x80 + q % 64), ByteOf(0x80 + r % 64)]
    else
      [ByteOf(0xF0 + q / 64 / 64), ByteOf(0x80 + q / 64 % 64), ByteOf(0x80 + q % 64), ByteOf(0x80 + r % 64)]
  }

  /** One decoded rune and the bytes it took. A byte that starts no valid
      sequence decodes to U+FFFD and takes one byte. */
  datatype Decoded = Decoded(rune: int, size: nat)

  const RUNE_ERROR := 0xFFFD

  predicate Between(lo: int, b: Byte, hi: int) {
    lo <= b as int <= hi
  }

  function DecodeRune(v: Bytes): (d: Decoded)
    requires v != []
    ensures 1 <= d.size <= |v| && d.size <= 4
    ensures ValidRune(d.rune)
  {
    var b := v[0] as int;
    if b < 0x80 then
      Decoded(b, 1)
    else if 0xC2 <= b <= 0xDF && 2 <= |v| && Between(0x80, v[1], 0xBF) then
      Decoded((b - 0xC0) * 64 + (v[1] as int - 0x80), 2)
    else if 0xE0 <= b <= 0xEF && 3 <= |v|
        && Between(if b == 0xE0 then 0xA0 else 0x80, v[1], if b == 0xED then 0x9F else 0xBF)
            && Between(0x80, v[2], 0xBF) then
      Decoded(((b - 0xE0) * 64 + (v[1] as int - 0x80)) * 64 + (v[2] as int - 0x80), 3)
    else if 0xF0 <= b <= 0xF4 && 4 <= |v|
        && Between(if b == 0xF0 then 0x90 else 0x80, v[1], if b == 0xF4 then 0x8F else 0xBF)
            && Between(0x80, v[2], 0xBF) && Between(0x80, v[3], 0xBF) then
      Decoded((((b - 0xF0) * 64 + (v[1] as int - 0x80)) * 64 + (v[2] as int - 0x80)) * 64 + (v[3] as int - 0x80), 4)
    else
      Decoded(RUNE_ERROR, 1)
  }

  /** Whether the decoder gave up on the first byte; a genuine U+FFFD takes three bytes. */
  predicate Broken(v: Bytes)
    requires v != []
  {
    DecodeRune(v) == Decoded(RUNE_ERROR, 1)
  }

  predicate ValidUtf8(v: Bytes)
    decreases |v|
  {
    v == [] || (!Broken(v) && ValidUtf8(v[DecodeRune(v).size..]))
  }

  /** What a rune-by-rune copy of `v` yields: `v` with each undecodable byte replaced by U+FFFD. */
  function Sanitized(v: Bytes): Bytes
    decreases |v|
  {
    if v == [] then [] else EncodeRune(DecodeRune(v).rune) + Sanitized(v[DecodeRune(v).size..])
  }

  lemma Digits(h: int, l: int)
    requires 0 <= l < 64
    ensures (h * 64 + l) / 64 == h && (h * 64 + l) % 64 == l
  {
  }

  lemma SameByte(a: Byte, b: Byte)
    requires a as int == b as int
    ensures a == b
  {
  }

  lemma EncodeDecode2(v: Bytes)
    requires v != [] && DecodeRune(v).size == 2
    ensures EncodeRune(DecodeRune(v).rune) == v[..2]
  {
    var e := EncodeRune(DecodeRune(v).rune);
    Digits(v[0] as int - 0xC0, v[1] as int - 0x80);
    SameByte(e[0], v[0]);
    SameByte(e[1], v[1]);
  }

  lemma EncodeDecode3(v: Bytes)
    requires v != [] && DecodeRune(v).size == 3
    ensures EncodeRune(DecodeRune(v).rune) == v[..3]
  {
    var e := EncodeRune(DecodeRune(v).rune);
    var h := v[0] as int - 0xE0;
    Digits(h, v[1] as int - 0x80);
    Digits(h * 64 + (v[1] as int - 0x80), v[2] as int - 0x80);
    SameByte(e[0], v[0]);
    SameByte(e[1], v[1]);
    SameByte(e[2], v[2]);
  }

  lemma EncodeDecode4(v: Bytes)
    requires v != [] && DecodeRune(v).size == 4
    ensures EncodeRune(DecodeRune(v).rune) == v[..4]
  {
    var e := EncodeRune(DecodeRune(v).rune);
    var h := v[0] as int - 0xF0;
    Digits(h, v[1] as int - 0x80);
    Digits(h * 64 + (v[1] as int - 0x80), v[2] as int - 0x80);
    Digits((h * 64 + (v[1] as int - 0x80)) * 64 + (v[2] as int - 0x80), v[3] as int - 0x80);
    SameByte(e[0], v[0]);
    SameByte(e[1], v[1]);
    SameByte(e[2], v[2]);
    SameByte(e[3], v[3]);
  }

  lemma EncodeDecode1(v: Bytes)
    requires v != [] && DecodeRune(v).size == 1
    ensures if Broken(v) then |EncodeRune(DecodeRune(v).rune)| == 3 else EncodeRune(DecodeRune(v).rune) == v[..1]
  {
    if !Broken(v) {
      SameByte(EncodeRune(DecodeRune(v).rune)[0], v[0]);
    }
  }

  /** Encoding the rune that was decoded gives back the bytes it took. */
  lemma EncodeDecode(v: Bytes)
    requires v != []
    ensures if Broken(v) then |EncodeRune(DecodeRune(v).rune)| == 3
            else EncodeRune(DecodeRune(v).rune) == v[..DecodeRune(v).size]
  {
    hide DecodeRune, EncodeRune;
    var n := DecodeRune(v).size;
    if n == 1 {
      EncodeDecode1(v);
    } else if n == 2 {
      EncodeDecode2(v);
    } else if n == 3 {
      EncodeDecode3(v);
    } else {
      EncodeDecode4(v);
    }
  }

  lemma {:induction false} SanitizedGrows(v: Bytes)
    ensures |Sanitized(v)| >= |v|
    ensures |Sanitized(v)| == |v| ==> ValidUtf8(v)
    decreases |v|
  {
    hide DecodeRune, EncodeRune;
    if v != [] {
      EncodeDecode(v);
      SanitizedGrows(v[DecodeRune(v).size..]);
    }
  }

  lemma {:induction false} ValidSanitized(v: Bytes)
    requires ValidUtf8(v)
    ensures Sanitized(v) == v
    decreases |v|
  {
    hide DecodeRune, EncodeRune;
    if v != [] {
      var n := DecodeRune(v).size;
      EncodeDecode(v);
      ValidSanitized(v[n..]);
      assert v == v[..n] + v[n..];
    }
  }

  /** Copying rune by rune is the identity exactly on valid UTF-8. */
  lemma SanitizedIsIdentity(v: Bytes)
    ensures Sanitized(v) == v <==> ValidUtf8(v)
  {
    SanitizedGrows(v);
    if ValidUtf8(v) {
      ValidSanitized(v);
    }
  }

  // ---- decoding what was encoded

  lemma DecodeTwo(r: int, rest: Bytes)
    requires 0x80 <= r < 0x800
    ensures DecodeRune(EncodeRune(r) + rest) == Decoded(r, 2)
  {
    var q := r / 64;
    var v := EncodeRune(r) + rest;
    assert v[0] as int == 0xC0 + q && v[1] as int == 0x80 + r % 64;
  }

  lemma DecodeThree(r: int, rest: Bytes)
    requires 0x800 <= r < 0x10000 && ValidRune(r)
    ensures DecodeRune(EncodeRune(r) + rest) == Decoded(r, 3)
  {
    var q := r / 64;
    var v := EncodeRune(r) + rest;
    assert v[0] as int == 0xE0 + q / 64 && v[1] as int == 0x80 + q % 64 && v[2] as int == 0x80 + r % 64;
  }

  lemma DecodeFour(r: int, rest: Bytes)
    requires 0x10000 <= r && ValidRune(r)
    ensures DecodeRune(EncodeRune(r) + rest) == Decoded(r, 4)
  {
    var q := r / 64;
    var p := q / 64;
    var v := EncodeRune(r) + rest;
    assert v[0] as int == 0xF0 + p / 64 && v[1] as int == 0x80 + p % 64 && v[2] as int == 0x80 + q % 64
           && v[3] as int == 0x80 + r % 64;
  }

  /** Decoding gives back the rune that was encoded. */
  lemma DecodeEncode(r: int, rest: Bytes)
    requires ValidRune(r)
    ensures DecodeRune(EncodeRune(r) + rest) == Decoded(r, |EncodeRune(r)|)
    ensures !Broken(EncodeRune(r) + rest)
  {
    if r < 0x80 {
      assert (EncodeRune(r) + rest)[0] as int == r;
    } else if r < 0x800 {
      DecodeTwo(r, rest);
    } else if r < 0x10000 {
      DecodeThree(r, rest);
    } else {
      DecodeFour(r, rest);
    }
  }

  /** A rune-by-rune copy is valid UTF-8 whatever was copied. */
  lemma {:induction false} SanitizedIsValid(v: Bytes)
    ensures ValidUtf8(Sanitized(v))
    decreases |v|
  {
    hide DecodeRune, EncodeRune, Broken;
    if v != [] {
      var d := DecodeRune(v);
      var rest := Sanitized(v[d.size..]);
      SanitizedIsValid(v[d.size..]);
      DecodeEncode(d.rune, rest);
      assert (EncodeRune(d.rune) + rest)[|EncodeRune(d.rune)|..] == rest;
    }
  }
}
