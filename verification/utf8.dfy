/** UTF-8 as `str.encode` and the strict `bytes.decode` treat it (RFC 3629). */
module Utf8 {
  import opened Wrappers
  import opened Base64

  function EncodeChar(c: char): (b: Bytes)
    ensures 1 <= |b| <= 4
  {
    var x := c as int;
    if x < 0x80 then [x]
    else if x < 0x800 then [0xC0 + x / 64, 0x80 + x % 64]
    else if x < 0x10000 then [0xE0 + x / 4096, 0x80 + x / 64 % 64, 0x80 + x % 64]
    else [0xF0 + x / 262144, 0x80 + x / 4096 % 64, 0x80 + x / 64 % 64, 0x80 + x % 64]
  }

  function Encode(s: string): Bytes {
    if s == [] then [] else EncodeChar(s[0]) + Encode(s[1..])
  }

  /** Byte `i` is a continuation byte. */
  predicate Continues(b: Bytes, i: nat) {
    i < |b| && 0x80 <= b[i] < 0xC0
  }

  /** The payload bits of a byte whose marker bits are `mark`. */
  function Low(b: int, mark: int): int {
    b - mark
  }

  predicate Scalar(x: int) {
    0 <= x < 0xD800 || 0xE000 <= x < 0x110000
  }

  /** The first character and how many bytes it takes. Overlong forms, surrogates and
      values beyond the last code point are refused. */
  function DecodeChar(b: Bytes): (r: Option<(char, nat)>)
    ensures r.Some? ==> 0 < r.value.1 <= |b|
  {
    if b == [] then None
    else if b[0] < 0x80 then Some((b[0] as char, 1))
    else if 0xC2 <= b[0] < 0xE0 && Continues(b, 1) then
      var x: int := Low(b[0], 0xC0) * 64 + Low(b[1], 0x80);
      Some((x as char, 2))
    else if 0xE0 <= b[0] < 0xF0 && Continues(b, 1) && Continues(b, 2) then
      var x := Low(b[0], 0xE0) * 4096 + Low(b[1], 0x80) * 64 + Low(b[2], 0x80);
      if x < 0x800 || !Scalar(x) then None else Some((x as char, 3))
    else if 0xF0 <= b[0] < 0xF5 && Continues(b, 1) && Continues(b, 2) && Continues(b, 3) then
      var x := Low(b[0], 0xF0) * 262144 + Low(b[1], 0x80) * 4096 + Low(b[2], 0x80) * 64 + Low(b[3], 0x80);
      if x < 0x10000 || !Scalar(x) then None else Some((x as char, 4))
    else None
  }

  function Decode(b: Bytes): Option<string> {
    if b == [] then Some("")
    else match DecodeChar(b)
      case None => None
      case Some((c, n)) =>
        match Decode(b[n..])
        case None => None
        case Some(rest) => Some([c] + rest)
  }

  lemma ReadsBack3(c: char, rest: Bytes)
    requires 0x800 <= c as int < 0x10000
    ensures DecodeChar(EncodeChar(c) + rest) == Some((c, 3))
  {
    var x := c as int;
    var hi, mid, lo := x / 4096, x / 64 % 64, x % 64;
    assert hi * 4096 + mid * 64 + lo == x;
    var b := EncodeChar(c) + rest;
    assert b[0] == 0xE0 + hi && b[1] == 0x80 + mid && b[2] == 0x80 + lo;
  }

  lemma Digits(x: int)
    requires 0x10000 <= x < 0x110000
    ensures x / 262144 * 262144 + x / 4096 % 64 * 4096 + x / 64 % 64 * 64 + x % 64 == x
    ensures 0 <= x / 262144 < 5
  {
  }

  lemma ReadsBack4(c: char, rest: Bytes)
    requires 0x10000 <= c as int
    ensures DecodeChar(EncodeChar(c) + rest) == Some((c, 4))
  {
    var x := c as int;
    Digits(x);
    var b := EncodeChar(c) + rest;
    assert b[0] == 0xF0 + x / 262144 && b[1] == 0x80 + x / 4096 % 64 && b[2] == 0x80 + x / 64 % 64 && b[3] == 0x80 + x % 64;
    hide EncodeChar;
    assert Continues(b, 1) && Continues(b, 2) && Continues(b, 3);
  }

  lemma ReadsBack(c: char, rest: Bytes)
    ensures DecodeChar(EncodeChar(c) + rest) == Some((c, |EncodeChar(c)|))
  {
    if c as int >= 0x10000 {
      ReadsBack4(c, rest);
    } else if c as int >= 0x800 {
      ReadsBack3(c, rest);
    }
  }

  lemma {:induction false} DecodeEncode(s: string)
    ensures Decode(Encode(s)) == Some(s)
  {
    hide DecodeChar, EncodeChar;
    if s != [] {
      var b, rest := Encode(s), Encode(s[1..]);
      DecodeEncode(s[1..]);
      ReadsBack(s[0], rest);
      assert b[|EncodeChar(s[0])|..] == rest;
      assert [s[0]] + s[1..] == s;
    }
  }
}
