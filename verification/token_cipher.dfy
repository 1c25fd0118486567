/** Tokens at rest: a hash in counter mode as a stream cipher, an HMAC tag, and a
    dot-separated Base64 text. */
module TokenCipher {
  import opened Wrappers
  import opened Base64
  import Utf8

  /** The hash functions; nothing is assumed of them but the length of a digest. */
  datatype Crypto = Crypto(sha: Bytes -> Bytes, hmac: (Bytes, Bytes) -> Bytes)

  ghost predicate Digests(c: Crypto) {
    forall x :: |c.sha(x)| == 32
  }

  // ----- Exclusive or ------------------------------------------------------------------------

  function Pow2(n: nat): nat {
    if n == 0 then 1 else 2 * Pow2(n - 1)
  }

  /** Exclusive or of two numbers of `n` bits. */
  function Xor(n: nat, a: nat, b: nat): (r: nat)
    ensures r < Pow2(n)
  {
    if n == 0 then 0 else (a + b) % 2 + 2 * Xor(n - 1, a / 2, b / 2)
  }

  lemma LowBit(a: nat, b: nat, x: nat)
    ensures ((a + b) % 2 + 2 * x) / 2 == x
    ensures ((a + b) % 2 + 2 * x + b) % 2 == a % 2
  {
    assert ((a + b) % 2 + 2 * x + b) % 2 == ((a + b) % 2 + b) % 2;
  }

  lemma {:induction false} XorUndoes(n: nat, a: nat, b: nat)
    requires a < Pow2(n)
    ensures Xor(n, Xor(n, a, b), b) == a
  {
    if n > 0 {
      XorUndoes(n - 1, a / 2, b / 2);
      LowBit(a, b, Xor(n - 1, a / 2, b / 2));
    }
  }

  function XorByte(a: byte, b: byte): byte {
    ByteBits();
    Xor(8, a, b)
  }

  lemma ByteBits()
    ensures Pow2(8) == 256
  {
    assert Pow2(3) == 8 && Pow2(6) == 64;
  }

  /** `bytes(x ^ y for x, y in zip(a, b))`. */
  function XorBytes(a: Bytes, b: Bytes): (r: Bytes)
    ensures |r| == if |a| < |b| then |a| else |b|
    ensures forall i :: 0 <= i < |r| ==> r[i] == XorByte(a[i], b[i])
  {
    seq(if |a| < |b| then |a| else |b|, i requires 0 <= i < |a| && i < |b| => XorByte(a[i], b[i]))
  }

  // ----- The key stream ----------------------------------------------------------------------

  /** `n.to_bytes(size, "big")`. */
  function BigEndian(n: nat, size: nat): (r: Bytes)
    ensures |r| == size
  {
    if size == 0 then [] else BigEndian(n / 256, size - 1) + [n % 256]
  }

  function Block(c: Crypto, key: Bytes, nonce: Bytes, counter: nat): Bytes {
    c.sha(key + nonce + BigEndian(counter, 8))
  }

  /** Byte `i` of the stream comes from block `i / 32`. */
  function StreamByte(c: Crypto, key: Bytes, nonce: Bytes, i: nat): byte {
    var block := Block(c, key, nonce, i / 32);
    if i % 32 < |block| then block[i % 32] else 0
  }

  function Stream(c: Crypto, key: Bytes, nonce: Bytes, length: nat): (r: Bytes)
    ensures |r| == length
    ensures forall i :: 0 <= i < length ==> r[i] == StreamByte(c, key, nonce, i)
  {
    seq(length, i requires 0 <= i < length => StreamByte(c, key, nonce, i))
  }

  /** The most bytes a counter of eight bytes can serve. */
  const MAX_STREAM: nat := 32 * 0x1_0000_0000_0000_0000

  method Keystream(c: Crypto, key: Bytes, nonce: Bytes, length: nat) returns (r: Bytes)
    requires Digests(c) && length <= MAX_STREAM
    ensures r == Stream(c, key, nonce, length)
  {
    hide Block;
    var out: Bytes := [];
    var counter := 0;
    while |out| < length
      invariant |out| == 32 * counter
      invariant out == Stream(c, key, nonce, |out|)
      decreases length - |out|
    {
      assert counter < 0x1_0000_0000_0000_0000;
      BlockLength(c, key, nonce, counter);
      out := out + Block(c, key, nonce, counter);
      counter := counter + 1;
    }
    r := out[..length];
    StreamPrefix(c, key, nonce, length, |out|);
  }

  lemma BlockLength(c: Crypto, key: Bytes, nonce: Bytes, counter: nat)
    requires Digests(c)
    ensures |Block(c, key, nonce, counter)| == 32
    ensures forall i: nat :: i < 32 ==> StreamByte(c, key, nonce, 32 * counter + i) == Block(c, key, nonce, counter)[i]
  {
    forall i: nat | i < 32 ensures StreamByte(c, key, nonce, 32 * counter + i) == Block(c, key, nonce, counter)[i] {
      assert (32 * counter + i) / 32 == counter && (32 * counter + i) % 32 == i;
    }
  }

  /** A longer stream begins with the shorter one. */
  lemma StreamPrefix(c: Crypto, key: Bytes, nonce: Bytes, short: nat, long: nat)
    requires short <= long
    ensures Stream(c, key, nonce, long)[..short] == Stream(c, key, nonce, short)
  {
    hide StreamByte;
  }

  lemma XorTwice(a: Bytes, k: Bytes)
    requires |a| == |k|
    ensures XorBytes(XorBytes(a, k), k) == a
  {
    ByteBits();
    forall i | 0 <= i < |a| ensures XorByte(XorByte(a[i], k[i]), k[i]) == a[i] {
      XorUndoes(8, a[i], k[i]);
    }
  }

  // ----- Encryption and decryption -------------------------------------------------------------

  function EncKey(c: Crypto, key: string): Bytes {
    c.sha(Utf8.Encode("enc:" + key))
  }

  function MacKey(c: Crypto, key: string): Bytes {
    c.sha(Utf8.Encode("mac:" + key))
  }

  function Cipher(c: Crypto, nonce: Bytes, text: Bytes, key: string): Bytes {
    XorBytes(text, Stream(c, EncKey(c, key), nonce, |text|))
  }

  function Tag(c: Crypto, nonce: Bytes, cipher: Bytes, key: string): Bytes {
    c.hmac(MacKey(c, key), nonce + cipher)
  }

  function Token(nonce: Bytes, cipher: Bytes, tag: Bytes): string {
    Base64.Encode(nonce, true) + "." + Base64.Encode(cipher, true) + "." + Base64.Encode(tag, true)
  }

  function Encrypted(c: Crypto, nonce: Bytes, secret: string, key: string): string {
    var cipher := Cipher(c, nonce, Utf8.Encode(secret), key);
    Token(nonce, cipher, Tag(c, nonce, cipher, key))
  }

  /** `s.split(".")`. */
  function SplitDots(s: string): (r: seq<string>)
    ensures r != []
  {
    if s == [] then [""]
    else
      var r := SplitDots(s[1..]);
      if s[0] == '.' then [""] + r else [[s[0]] + r[0]] + r[1..]
  }

  /** The three decoded parts of a token, if it has that shape. */
  function Parts(value: string): Option<(Bytes, Bytes, Bytes)> {
    var parts := SplitDots(value);
    if |parts| != 3 then None
    else match (Base64.Decode(parts[0]), Base64.Decode(parts[1]), Base64.Decode(parts[2]))
      case (Some(nonce), Some(cipher), Some(tag)) => Some((nonce, cipher, tag))
      case _ => None
  }

  function Decrypted(c: Crypto, value: string, key: string): Option<string> {
    match Parts(value)
    case None => None
    case Some((nonce, cipher, tag)) =>
      if tag != Tag(c, nonce, cipher, key) then None
      else Utf8.Decode(Cipher(c, nonce, cipher, key))
  }

  /** `nonce` stands for the sixteen random bytes. */
  method Encrypt(c: Crypto, nonce: Bytes, secret: string, key: string) returns (value: string)
    requires Digests(c) && |Utf8.Encode(secret)| <= MAX_STREAM
    ensures value == Encrypted(c, nonce, secret, key)
  {
    var text := Utf8.Encode(secret);
    var stream := Keystream(c, EncKey(c, key), nonce, |text|);
    var cipher := XorBytes(text, stream);
    value := Token(nonce, cipher, Tag(c, nonce, cipher, key));
  }

  method Decrypt(c: Crypto, value: string, key: string) returns (secret: Option<string>)
    requires Digests(c)
    ensures (Parts(value).Some? ==> |Parts(value).value.1| <= MAX_STREAM) ==> secret == Decrypted(c, value, key)
    ensures (Parts(value).Some? && |Parts(value).value.1| > MAX_STREAM) ==> secret == None
  {
    var parts := Parts(value);
    if parts.None? {
      return None;
    }
    var (nonce, cipher, tag) := parts.value;
    if tag != Tag(c, nonce, cipher, key) || |cipher| > MAX_STREAM {
      return None;
    }
    var stream := Keystream(c, EncKey(c, key), nonce, |cipher|);
    secret := Utf8.Decode(XorBytes(cipher, stream));
  }

  // ----- The round trip ---------------------------------------------------------------------------

  lemma {:induction false} SplitFirst(a: string, rest: string)
    requires '.' !in a
    ensures SplitDots(a + "." + rest) == [a] + SplitDots(rest)
    ensures SplitDots(a) == [a]
  {
    if a == [] {
      assert a + "." + rest == "." + rest && ("." + rest)[1..] == rest;
    } else {
      var t := a[1..];
      assert a == [a[0]] + t && a[0] in a;
      assert forall x :: x in t ==> x in a;
      SplitFirst(t, rest);
      assert a + "." + rest == [a[0]] + (t + "." + rest);
      assert (a + "." + rest)[1..] == t + "." + rest;
    }
  }

  /** The dots of a token are exactly the two that separate its parts. */
  lemma PartsOfToken(nonce: Bytes, cipher: Bytes, tag: Bytes)
    ensures Parts(Token(nonce, cipher, tag)) == Some((nonce, cipher, tag))
  {
    hide Base64.Encode, Base64.Decode;
    var a, b, d := Base64.Encode(nonce, true), Base64.Encode(cipher, true), Base64.Encode(tag, true);
    EncodedText(nonce, true);
    EncodedText(cipher, true);
    EncodedText(tag, true);
    SplitFirst(a, b + "." + d);
    SplitFirst(b, d);
    SplitFirst(d, "");
    assert Token(nonce, cipher, tag) == a + "." + (b + "." + d);
    UrlRoundTrip(nonce);
    UrlRoundTrip(cipher);
    UrlRoundTrip(tag);
  }

  /** Decrypting what was encrypted under the same key gives the secret back, for every
      secret and every nonce. */
  lemma RoundTrip(c: Crypto, nonce: Bytes, secret: string, key: string)
    ensures Decrypted(c, Encrypted(c, nonce, secret, key), key) == Some(secret)
  {
    hide Token, Parts, XorBytes, Stream;
    var text := Utf8.Encode(secret);
    var cipher := Cipher(c, nonce, text, key);
    PartsOfToken(nonce, cipher, Tag(c, nonce, cipher, key));
    XorTwice(text, Stream(c, EncKey(c, key), nonce, |text|));
    Utf8.DecodeEncode(secret);
  }

  /** What acceptance reads off a value: three decodable parts, the tag of the first two,
      and UTF-8 text. */
  lemma AcceptedIff(c: Crypto, value: string, key: string)
    ensures Decrypted(c, value, key).Some? <==>
      exists nonce, cipher :: (
        && Parts(value) == Some((nonce, cipher, Tag(c, nonce, cipher, key)))
        && Utf8.Decode(Cipher(c, nonce, cipher, key)).Some?)
  {
    hide Parts, Tag, Cipher;
    if Decrypted(c, value, key).Some? {
      var (nonce, cipher, tag) := Parts(value).value;
      assert Parts(value) == Some((nonce, cipher, Tag(c, nonce, cipher, key)));
    }
  }

  /** The tag function tells `a` and `b` apart unless they are the same. */
  ghost predicate Separates(c: Crypto, key: string, a: Bytes, b: Bytes) {
    c.hmac(MacKey(c, key), a) == c.hmac(MacKey(c, key), b) ==> a == b
  }

  /** A value that carries the tag of an accepted one is itself accepted exactly when its
      nonce and cipher together are the same bytes, cut anywhere, and the text of that cut
      is UTF-8. With a nonce of the same length only the same nonce and cipher are left,
      and so only the same secret. */
  lemma SameTagAcceptedIff(c: Crypto, issued: string, value: string, key: string)
    requires Decrypted(c, issued, key).Some? && Parts(value).Some?
    requires
      var (n0, c0, t0) := Parts(issued).value;
      var (n1, c1, t1) := Parts(value).value;
      t1 == t0 && Separates(c, key, n1 + c1, n0 + c0)
    ensures
      var (n0, c0, _) := Parts(issued).value;
      var (n1, c1, _) := Parts(value).value;
      && (Decrypted(c, value, key).Some? <==> n1 + c1 == n0 + c0 && Utf8.Decode(Cipher(c, n1, c1, key)).Some?)
      && (|n1| == |n0| ==>
            Decrypted(c, value, key) == if n1 == n0 && c1 == c0 then Decrypted(c, issued, key) else None)
  {
    hide Parts, Cipher, MacKey;
    var (n0, c0, _) := Parts(issued).value;
    var (n1, c1, _) := Parts(value).value;
    AcceptedIff(c, value, key);
    if |n1| == |n0| && n1 + c1 == n0 + c0 {
      assert n1 == (n1 + c1)[..|n1|] == n0 && c1 == (n1 + c1)[|n1|..] == c0;
    }
  }

  /** The tag does not say where the nonce ends: for every hash, key and secret, the token
      whose cipher has been moved into the nonce is accepted too, as the empty secret. */
  lemma BoundaryIsNotTagged(c: Crypto, nonce: Bytes, secret: string, key: string)
    requires secret != ""
    ensures
      var cipher := Cipher(c, nonce, Utf8.Encode(secret), key);
      var moved := Token(nonce + cipher, [], Tag(c, nonce, cipher, key));
      moved != Encrypted(c, nonce, secret, key) && Decrypted(c, moved, key) == Some("")
  {
    var cipher := Cipher(c, nonce, Utf8.Encode(secret), key);
    var tag := Tag(c, nonce, cipher, key);
    assert cipher != [] && Utf8.Decode(Cipher(c, nonce + cipher, [], key)) == Some("");
    hide Parts, Token, Cipher;
    PartsOfToken(nonce, cipher, tag);
    PartsOfToken(nonce + cipher, [], tag);
    assert nonce + cipher + [] == nonce + cipher;
  }

  /** Splitting finds the inserted character in one part, and the other parts as they were. */
  lemma {:induction false} SplitInserted(s: string, at: nat, x: char) returns (part: nat, k: nat)
    requires at <= |s| && x != '.'
    ensures |SplitDots(Inserted(s, at, x))| == |SplitDots(s)| && part < |SplitDots(s)|
    ensures k <= |SplitDots(s)[part]| && SplitDots(Inserted(s, at, x)) == SplitDots(s)[part := Inserted(SplitDots(s)[part], k, x)]
  {
    var t, r := Inserted(s, at, x), SplitDots(s);
    if at == 0 {
      part, k := 0, 0;
      assert t == [x] + s && t[1..] == s;
      assert Inserted(r[0], 0, x) == [x] + r[0];
    } else {
      InsertedTail(s, at, x);
      part, k := SplitInserted(s[1..], at - 1, x);
      assert t[0] == s[0] && t[1..] == Inserted(s[1..], at - 1, x);
      var rest := SplitDots(s[1..]);
      if s[0] == '.' {
        part := part + 1;
      } else if part == 0 {
        InsertedTail([s[0]] + rest[0], k + 1, x);
        assert ([s[0]] + rest[0])[1..] == rest[0];
        k := k + 1;
      }
    }
  }

  /** So every value has altered twins: with a character outside the alphabet put in anywhere
      it is another value, and it decrypts to the same. */
  lemma ForeignCharactersAreOverlooked(c: Crypto, value: string, key: string, at: nat, x: char)
    requires at <= |value| && Foreign(x) && x != '.'
    ensures
      var twin := Inserted(value, at, x);
      twin != value && Decrypted(c, twin, key) == Decrypted(c, value, key)
  {
    hide Base64.Decode, SplitDots, Foreign, Tag, Cipher;
    assert |Inserted(value, at, x)| == |value| + 1;
    var part, k := SplitInserted(value, at, x);
    var parts := SplitDots(value);
    hide Inserted;
    ForeignIsSkipped(parts[part], k, x);
    assert Parts(Inserted(value, at, x)) == Parts(value);
  }
}
