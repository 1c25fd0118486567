/** Base64 as sections 4 and 5 of RFC 4648 define it, and the tolerant decoder of the
    host's library. */
module Base64 {
  import opened Wrappers

  type byte = x: int | 0 <= x < 256
  type Bytes = seq<byte>

  /** The character for a value; the last two are `-` and `_` in the URL-safe alphabet. */
  function CharOf(i: int, url: bool): char
    requires 0 <= i < 64
  {
    if i < 26 then (65 + i) as char
    else if i < 52 then (71 + i) as char
    else if i < 62 then (i - 4) as char
    else if i == 62 then (if url then '-' else '+')
    else (if url then '_' else '/')
  }

  /** The value of a character; `url` admits the URL-safe spellings beside the others. */
  function ValueOf(c: char, url: bool): (v: Option<int>)
    ensures v.Some? ==> 0 <= v.value < 64
  {
    if 'A' <= c <= 'Z' then Some(c as int - 65)
    else if 'a' <= c <= 'z' then Some(c as int - 71)
    else if '0' <= c <= '9' then Some(c as int + 4)
    else if c == '+' || (url && c == '-') then Some(62)
    else if c == '/' || (url && c == '_') then Some(63)
    else None
  }

  lemma ValueOfChar(i: int, url: bool)
    requires 0 <= i < 64
    ensures ValueOf(CharOf(i, url), url) == Some(i)
    ensures CharOf(i, url) != '=' && CharOf(i, url) != '.' && (CharOf(i, url) as int) < 128
  {
  }

  function Encode(b: Bytes, url: bool): string {
    if |b| == 0 then ""
    else if |b| == 1 then
      [CharOf(b[0] / 4, url), CharOf(b[0] % 4 * 16, url), '=', '=']
    else if |b| == 2 then
      [CharOf(b[0] / 4, url), CharOf(b[0] % 4 * 16 + b[1] / 16, url), CharOf(b[1] % 16 * 4, url), '=']
    else
      [CharOf(b[0] / 4, url), CharOf(b[0] % 4 * 16 + b[1] / 16, url),
       CharOf(b[1] % 16 * 4 + b[2] / 64, url), CharOf(b[2] % 64, url)] + Encode(b[3..], url)
  }

  /** Where the decoder stands in a group of four: how many characters it has taken,
      the bits it still holds, and the pad characters met since the last value. */
  datatype State = State(taken: int, held: int, pads: int)

  ghost predicate Consistent(st: State) {
    && 0 <= st.taken < 4 && 0 <= st.held && 0 <= st.pads
    && (st.taken == 1 ==> st.held < 64) && (st.taken == 2 ==> st.held < 16) && (st.taken == 3 ==> st.held < 4)
  }

  /** The byte that completes with the next value, if one does, and the bits left over. */
  function Take(st: State, v: int): (r: (Bytes, State))
    requires Consistent(st) && 0 <= v < 64
    ensures Consistent(r.1)
  {
    match st.taken
    case 0 => ([], State(1, v, 0))
    case 1 => ([st.held * 4 + v / 16], State(2, v % 16, 0))
    case 2 => ([st.held * 16 + v / 4], State(3, v % 4, 0))
    case _ => ([st.held * 64 + v], State(0, 0, 0))
  }

  /** Characters outside the alphabet are skipped, a completed padding ends the input,
      and input that stops inside a group is an error. */
  function DecodeFrom(s: string, st: State, url: bool): Option<Bytes>
    requires Consistent(st)
  {
    if s == [] then if st.taken == 0 then Some([]) else None
    else if s[0] == '=' then
      if st.taken >= 2 then
        if st.taken + st.pads + 1 >= 4 then Some([]) else DecodeFrom(s[1..], st.(pads := st.pads + 1), url)
      else DecodeFrom(s[1..], st, url)
    else match ValueOf(s[0], url)
      case None => DecodeFrom(s[1..], st, url)
      case Some(v) =>
        var (out, next) := Take(st, v);
        match DecodeFrom(s[1..], next, url)
        case None => None
        case Some(rest) => Some(out + rest)
  }

  predicate Ascii(s: string) {
    forall i :: 0 <= i < |s| ==> (s[i] as int) < 128
  }

  /** `urlsafe_b64decode`; text that is not ASCII is an error. */
  function Decode(s: string): Option<Bytes> {
    if Ascii(s) then DecodeFrom(s, State(0, 0, 0), true) else None
  }

  predicate InAlphabet(s: string) {
    forall i :: 0 <= i < |s| ==> ValueOf(s[i], false).Some? || s[i] == '='
  }

  /** `b64decode(..., validate=True)`: no character outside the standard alphabet, pad
      characters only at the end, and a whole number of groups. */
  function DecodeStrict(s: string): Option<Bytes> {
    if InAlphabet(s) && |s| % 4 == 0 && PadsAtEnd(s) then DecodeFrom(s, State(0, 0, 0), false) else None
  }

  predicate PadsAtEnd(s: string) {
    forall i :: 0 <= i < |s| - 2 ==> s[i] != '='
  }

  // ----- The round trip -----------------------------------------------------------------------

  /** Reading one value of an encoded text. */
  lemma ReadValue(i: int, rest: string, st: State, url: bool)
    requires 0 <= i < 64 && Consistent(st)
    ensures
      var (out, next) := Take(st, i);
      DecodeFrom([CharOf(i, url)] + rest, st, url) ==
        match DecodeFrom(rest, next, url) case None => None case Some(more) => Some(out + more)
  {
    ValueOfChar(i, url);
    assert ([CharOf(i, url)] + rest)[1..] == rest;
  }

  lemma ReadPad(rest: string, st: State, url: bool)
    requires Consistent(st) && st.taken >= 2
    ensures DecodeFrom("=" + rest, st, url) ==
      if st.taken + st.pads + 1 >= 4 then Some([]) else DecodeFrom(rest, st.(pads := st.pads + 1), url)
  {
    assert ("=" + rest)[1..] == rest;
  }

  lemma {:induction false} DecodeEncode(b: Bytes, url: bool)
    ensures DecodeFrom(Encode(b, url), State(0, 0, 0), url) == Some(b)
  {
    hide DecodeFrom;
    var zero := State(0, 0, 0);
    if |b| == 0 {
      DecodeNothing(url);
    } else if |b| == 1 {
      OneByte(b, url);
    } else if |b| == 2 {
      TwoBytes(b, url);
    } else {
      DecodeEncode(b[3..], url);
      ThreeBytes(b, url);
    }
  }

  lemma ThreeBytes(b: Bytes, url: bool)
    requires |b| > 2 && DecodeFrom(Encode(b[3..], url), State(0, 0, 0), url) == Some(b[3..])
    ensures DecodeFrom(Encode(b, url), State(0, 0, 0), url) == Some(b)
  {
    hide DecodeFrom;
    var rest := Encode(b[3..], url);
    var v0, v1 := b[0] / 4, b[0] % 4 * 16 + b[1] / 16;
    var v2, v3 := b[1] % 16 * 4 + b[2] / 64, b[2] % 64;
    var s3 := [CharOf(v3, url)] + rest;
    var s2 := [CharOf(v2, url)] + s3;
    var s1 := [CharOf(v1, url)] + s2;
    assert Encode(b, url) == [CharOf(v0, url)] + s1;
    hide Encode, CharOf;
    ReadValue(v0, s1, State(0, 0, 0), url);
    ReadValue(v1, s2, State(1, v0, 0), url);
    ReadValue(v2, s3, State(2, b[1] / 16, 0), url);
    ReadValue(v3, rest, State(3, b[2] / 64, 0), url);
    assert v0 * 4 + v1 / 16 == b[0] && v1 % 16 == b[1] / 16;
    assert b[1] / 16 * 16 + v2 / 4 == b[1] && v2 % 4 == b[2] / 64;
    assert b[2] / 64 * 64 + v3 == b[2];
    assert b == [b[0]] + ([b[1]] + ([b[2]] + b[3..]));
    assert [] + b == b;
  }

  lemma DecodeNothing(url: bool)
    ensures DecodeFrom("", State(0, 0, 0), url) == Some([])
  {
  }

  lemma OneByte(b: Bytes, url: bool)
    requires |b| == 1
    ensures DecodeFrom(Encode(b, url), State(0, 0, 0), url) == Some(b)
  {
    hide DecodeFrom;
    var v0, v1 := b[0] / 4, b[0] % 4 * 16;
    assert Encode(b, url) == [CharOf(v0, url)] + ([CharOf(v1, url)] + ("=" + "="));
    assert "=" == "=" + "";
    ReadValue(v0, [CharOf(v1, url)] + ("=" + "="), State(0, 0, 0), url);
    ReadValue(v1, "=" + "=", State(1, v0, 0), url);
    ReadPad("=", State(2, 0, 0), url);
    ReadPad("", State(2, 0, 1), url);
    assert v0 * 4 + v1 / 16 == b[0] && v1 % 16 == 0;
    assert [] + ([b[0]] + []) == b;
  }

  lemma TwoBytes(b: Bytes, url: bool)
    requires |b| == 2
    ensures DecodeFrom(Encode(b, url), State(0, 0, 0), url) == Some(b)
  {
    hide DecodeFrom;
    var v0, v1, v2 := b[0] / 4, b[0] % 4 * 16 + b[1] / 16, b[1] % 16 * 4;
    var s2 := [CharOf(v2, url)] + "=";
    var s1 := [CharOf(v1, url)] + s2;
    assert Encode(b, url) == [CharOf(v0, url)] + s1;
    assert "=" == "=" + "";
    ReadValue(v0, s1, State(0, 0, 0), url);
    ReadValue(v1, s2, State(1, v0, 0), url);
    ReadValue(v2, "=", State(2, b[1] / 16, 0), url);
    ReadPad("", State(3, 0, 0), url);
    assert v0 * 4 + v1 / 16 == b[0] && v1 % 16 == b[1] / 16;
    assert b[1] / 16 * 16 + v2 / 4 == b[1] && v2 % 4 == 0;
    assert [] + ([b[0]] + ([b[1]] + [])) == b;
  }

  /** Encoded text is ASCII and has no dot. */
  lemma {:induction false} EncodedText(b: Bytes, url: bool)
    ensures Ascii(Encode(b, url)) && '.' !in Encode(b, url)
    ensures !url ==> InAlphabet(Encode(b, url))
  {
    hide ValueOf, CharOf;
    forall i: int | 0 <= i < 64
      ensures CharOf(i, url) != '.' && (CharOf(i, url) as int) < 128 && ValueOf(CharOf(i, url), url).Some?
    {
      ValueOfChar(i, url);
    }
    if |b| > 2 {
      EncodedText(b[3..], url);
    }
  }

  /** It consists of whole groups and pads only its last two places. */
  lemma {:induction false} EncodedGroups(b: Bytes, url: bool)
    ensures |Encode(b, url)| % 4 == 0 && PadsAtEnd(Encode(b, url))
  {
    hide CharOf;
    forall i: int | 0 <= i < 64 ensures CharOf(i, url) != '=' {
      ValueOfChar(i, url);
    }
    if |b| > 2 {
      EncodedGroups(b[3..], url);
    }
  }

  lemma UrlRoundTrip(b: Bytes)
    ensures Decode(Encode(b, true)) == Some(b)
  {
    EncodedText(b, true);
    DecodeEncode(b, true);
  }

  lemma StrictRoundTrip(b: Bytes)
    ensures DecodeStrict(Encode(b, false)) == Some(b)
  {
    EncodedText(b, false);
    EncodedGroups(b, false);
    DecodeEncode(b, false);
  }

  // ----- What the tolerant decoder overlooks ----------------------------------------------------

  /** An ASCII character outside the alphabet that is not a pad. */
  predicate Foreign(c: char) {
    (c as int) < 128 && c != '=' && ValueOf(c, true).None?
  }

  /** `s` with one more character at `at`. */
  function Inserted(s: string, at: nat, c: char): string
    requires at <= |s|
  {
    s[..at] + [c] + s[at..]
  }

  lemma InsertedTail(s: string, at: nat, c: char)
    requires 0 < at <= |s|
    ensures Inserted(s, at, c) == [s[0]] + Inserted(s[1..], at - 1, c)
  {
    assert s[1..][at - 1..] == s[at..] && s[..at] == [s[0]] + s[1..][..at - 1];
  }

  lemma {:induction false} ForeignIsSkippedFrom(s: string, at: nat, c: char, st: State)
    requires at <= |s| && Foreign(c) && Consistent(st)
    ensures DecodeFrom(Inserted(s, at, c), st, true) == DecodeFrom(s, st, true)
  {
    var t := Inserted(s, at, c);
    if at == 0 {
      assert t == [c] + s && t[1..] == s;
    } else {
      InsertedTail(s, at, c);
      assert t[0] == s[0] && t[1..] == Inserted(s[1..], at - 1, c);
      hide ValueOf, Inserted;
      forall next | Consistent(next) ensures DecodeFrom(t[1..], next, true) == DecodeFrom(s[1..], next, true) {
        ForeignIsSkippedFrom(s[1..], at - 1, c, next);
      }
    }
  }

  /** A foreign character may stand anywhere without changing what is decoded. */
  lemma ForeignIsSkipped(s: string, at: nat, c: char)
    requires at <= |s| && Foreign(c)
    ensures Decode(Inserted(s, at, c)) == Decode(s)
  {
    var t := Inserted(s, at, c);
    ForeignIsSkippedFrom(s, at, c, State(0, 0, 0));
    forall i | 0 <= i < |s| ensures s[i] == t[if i < at then i else i + 1] { }
    forall i | 0 <= i < |t| ensures t[i] == if i < at then s[i] else if i == at then c else s[i - 1] { }
  }
}
