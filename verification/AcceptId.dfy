/** Identifiers of Accept activities, built from the local actor and the percent-encoded Follow identifier. */
module AcceptId {
  import opened Wrappers
  import opened Text

  newtype byte = b: int | 0 <= b < 256

  // The UTF-8 encoding of one scalar value.
  function Utf8(c: char): (bytes: seq<byte>)
    ensures 1 <= |bytes| <= 4
  {
    var n := c as int;
    if n < 0x80 then [n as byte]
    else if n < 0x800 then [(0xC0 + n / 0x40) as byte, Continuation(n)]
    else if n < 0x10000 then [(0xE0 + n / 0x1000) as byte, Continuation(n / 0x40), Continuation(n)]
    else [(0xF0 + n / 0x40000) as byte, Continuation(n / 0x1000), Continuation(n / 0x40), Continuation(n)]
  }

  function Continuation(n: int): byte
    requires 0 <= n
  {
    (0x80 + n % 0x40) as byte
  }

  function HexDigit(d: int): char
    requires 0 <= d < 16
  {
    if d < 10 then (d + '0' as int) as char else (d - 10 + 'A' as int) as char
  }

  function EncodedByte(b: byte): string {
    ['%', HexDigit(b as int / 16), HexDigit(b as int % 16)]
  }

  function EncodedBytes(bytes: seq<byte>): string {
    if bytes == [] then "" else EncodedByte(bytes[0]) + EncodedBytes(bytes[1..])
  }

  // `utf8_percent_encode(.., NON_ALPHANUMERIC)`.
  function PercentEncode(s: string): string {
    if s == "" then ""
    else (if IsAlphanumeric(s[0]) then [s[0]] else EncodedBytes(Utf8(s[0]))) + PercentEncode(s[1..])
  }

  function AcceptIdText(localActorId: string, followId: string): string {
    localActorId + ("#accepts/" + PercentEncode(followId))
  }

  // The text need not be an IRI: the actor's own identifier may already have a fragment.
  function AcceptIdForFollow(isIri: string -> bool, localActorId: string, followId: string): Option<string> {
    var text := AcceptIdText(localActorId, followId);
    if isIri(text) then Some(text) else None
  }

  /******* Decoding *******/

  function HexValue(c: char): int {
    if IsDigit(c) then c as int - '0' as int else c as int - 'A' as int + 10
  }

  // The byte written by the three characters at `3 * i`.
  function ByteAt(s: string, i: nat): int {
    if 3 * i + 2 < |s| then 16 * HexValue(s[3 * i + 1]) + HexValue(s[3 * i + 2]) else 0
  }

  // How many bytes a leading byte announces.
  function Announced(b: int): nat {
    if b < 0xC0 then 1 else if b < 0xE0 then 2 else if b < 0xF0 then 3 else 4
  }

  function Scalar(n: int): char {
    if 0 <= n < 0xD800 || 0xE000 <= n < 0x11_0000 then n as char else '?'
  }

  // The scalar value that the percent-encoded bytes at the start of `s` stand for.
  function LeadingScalar(s: string): char {
    var a, b, c, d := ByteAt(s, 0), ByteAt(s, 1) - 0x80, ByteAt(s, 2) - 0x80, ByteAt(s, 3) - 0x80;
    match Announced(a)
    case 1 => Scalar(a)
    case 2 => Scalar((a - 0xC0) * 0x40 + b)
    case 3 => Scalar((a - 0xE0) * 0x1000 + b * 0x40 + c)
    case _ => Scalar((a - 0xF0) * 0x40000 + b * 0x1000 + c * 0x40 + d)
  }

  function PercentDecode(s: string): string {
    if s == "" then ""
    else if s[0] != '%' then [s[0]] + PercentDecode(s[1..])
    else
      var n := 3 * Announced(ByteAt(s, 0));
      if n > |s| then "" else [LeadingScalar(s)] + PercentDecode(s[n..])
  }

  lemma HexRoundTrip(d: int)
    requires 0 <= d < 16
    ensures HexValue(HexDigit(d)) == d && IsAlphanumeric(HexDigit(d))
  {
  }

  lemma EncodedByteIsRead(b: byte, rest: string)
    ensures var s := EncodedByte(b) + rest;
            && ByteAt(s, 0) == b as int && s[3..] == rest
            && forall i: nat :: ByteAt(s, i + 1) == ByteAt(rest, i)
  {
    var s := EncodedByte(b) + rest;
    HexRoundTrip(b as int / 16);
    HexRoundTrip(b as int % 16);
    forall i: nat ensures ByteAt(s, i + 1) == ByteAt(rest, i) {
      if 3 * i + 2 < |rest| {
        assert s[3 * i + 4] == rest[3 * i + 1] && s[3 * i + 5] == rest[3 * i + 2];
      }
    }
  }

  lemma {:induction false} EncodedBytesAreRead(bytes: seq<byte>, rest: string)
    ensures var s := EncodedBytes(bytes) + rest;
            && |s| >= 3 * |bytes| && s[3 * |bytes|..] == rest
            && (forall i | 0 <= i < |bytes| :: ByteAt(s, i) == bytes[i] as int)
            && (bytes != [] ==> s[0] == '%')
  {
    var s := EncodedBytes(bytes) + rest;
    if bytes == [] {
      assert s == rest;
    } else {
      var more := EncodedBytes(bytes[1..]) + rest;
      assert s == EncodedByte(bytes[0]) + more;
      EncodedByteIsRead(bytes[0], more);
      EncodedBytesAreRead(bytes[1..], rest);
      assert s[3 * |bytes|..] == s[3..][3 * |bytes[1..]|..];
      forall i | 0 <= i < |bytes| ensures ByteAt(s, i) == bytes[i] as int {
        if i > 0 {
          assert ByteAt(s, (i - 1) + 1) == ByteAt(more, i - 1) == bytes[1..][i - 1] as int;
        }
      }
    }
  }

  lemma ScalarIsRead(c: char, rest: string)
    ensures var s := EncodedBytes(Utf8(c)) + rest;
            && s != "" && s[0] == '%' && Announced(ByteAt(s, 0)) == |Utf8(c)|
            && |s| >= 3 * |Utf8(c)| && s[3 * |Utf8(c)|..] == rest && LeadingScalar(s) == c
  {
    var s, bytes, n := EncodedBytes(Utf8(c)) + rest, Utf8(c), c as int;
    EncodedBytesAreRead(bytes, rest);
    assert ByteAt(s, 0) == bytes[0] as int;
    if n < 0x80 {
    } else if n < 0x800 {
      assert ByteAt(s, 1) == bytes[1] as int;
    } else if n < 0x10000 {
      assert ByteAt(s, 1) == bytes[1] as int && ByteAt(s, 2) == bytes[2] as int;
      assert n / 0x1000 == n / 0x40 / 0x40;
    } else {
      assert ByteAt(s, 1) == bytes[1] as int && ByteAt(s, 2) == bytes[2] as int && ByteAt(s, 3) == bytes[3] as int;
      assert n / 0x1000 == n / 0x40 / 0x40 && n / 0x40000 == n / 0x1000 / 0x40;
    }
  }

  /** Decoding inverts encoding, so encoding is injective. */
  lemma {:induction false} DecodeInvertsEncode(s: string)
    ensures PercentDecode(PercentEncode(s)) == s
  {
    if s != "" {
      var rest := PercentEncode(s[1..]);
      DecodeInvertsEncode(s[1..]);
      if IsAlphanumeric(s[0]) {
        assert PercentEncode(s) == [s[0]] + rest;
        assert ([s[0]] + rest)[1..] == rest;
      } else {
        ScalarIsRead(s[0], rest);
      }
      assert s == [s[0]] + s[1..];
    }
  }

  /** The encoded text has only ASCII letters, digits and percent signs. */
  lemma {:induction false} EncodedAlphabet(s: string)
    ensures forall i | 0 <= i < |PercentEncode(s)| :: IsAlphanumeric(PercentEncode(s)[i]) || PercentEncode(s)[i] == '%'
  {
    if s != "" {
      EncodedAlphabet(s[1..]);
      if !IsAlphanumeric(s[0]) {
        EncodedBytesAlphabet(Utf8(s[0]));
      }
    }
  }

  lemma {:induction false} EncodedBytesAlphabet(bytes: seq<byte>)
    ensures forall i | 0 <= i < |EncodedBytes(bytes)| ::
              IsAlphanumeric(EncodedBytes(bytes)[i]) || EncodedBytes(bytes)[i] == '%'
  {
    if bytes != [] {
      HexRoundTrip(bytes[0] as int / 16);
      HexRoundTrip(bytes[0] as int % 16);
      EncodedBytesAlphabet(bytes[1..]);
    }
  }

  /** Letters and digits are kept, and a percent sign always comes with two upper-case hexadecimal digits. */
  lemma {:induction false} AlphanumericsAreKept(s: string)
    requires forall i | 0 <= i < |s| :: IsAlphanumeric(s[i])
    ensures PercentEncode(s) == s
  {
    if s != "" {
      AlphanumericsAreKept(s[1..]);
      assert s == [s[0]] + s[1..];
    }
  }

  lemma EncodedByteIsUpperHex(b: byte)
    ensures var text, digits := EncodedByte(b), "0123456789ABCDEF";
            |text| == 3 && text[0] == '%' && text[1] == digits[b as int / 16] && text[2] == digits[b as int % 16]
  {
    var digits := "0123456789ABCDEF";
    assert forall d | 0 <= d < 16 :: digits[d] == HexDigit(d);
  }

  // Where the last '/' of an Accept identifier stands.
  lemma LastSlash(localActorId: string, followId: string)
    ensures var text, at := AcceptIdText(localActorId, followId), |localActorId| + 8;
            && at < |text| && text[at] == '/' && Free('/', text[at + 1..])
            && text[..|localActorId|] == localActorId && text[|localActorId|..at + 1] == "#accepts/"
            && text[at + 1..] == PercentEncode(followId)
  {
    EncodedAlphabet(followId);
    SlashThenRest(localActorId, "#accepts/", PercentEncode(followId));
  }

  lemma SlashThenRest(a: string, middle: string, b: string)
    requires |middle| == 9 && middle[8] == '/'
    ensures var text := a + (middle + b);
            && |a| + 8 < |text| && text[|a| + 8] == '/' && text[..|a|] == a && text[|a|..|a| + 9] == middle
            && text[|a| + 9..] == b
  {
  }

  lemma NoLaterSlash(text: string, i: nat)
    requires i < |text| && Free('/', text[i + 1..])
    ensures forall k | i < k < |text| :: text[k] != '/'
  {
    forall k | i < k < |text| ensures text[k] != '/' {
      assert text[i + 1..][k - i - 1] == text[k];
    }
  }

  lemma SameSlash(text: string, i: nat, j: nat)
    requires i < |text| && text[i] == '/' && Free('/', text[i + 1..])
    requires j < |text| && text[j] == '/' && Free('/', text[j + 1..])
    ensures i == j
  {
    NoLaterSlash(text, i);
    NoLaterSlash(text, j);
  }

  /** Distinct (local actor, Follow) pairs never share an Accept identifier, and equal ones always do. */
  lemma AcceptIdsAreInjective(local: string, follow: string, local': string, follow': string)
    ensures AcceptIdText(local, follow) == AcceptIdText(local', follow') <==> local == local' && follow == follow'
  {
    if AcceptIdText(local, follow) == AcceptIdText(local', follow') {
      LastSlash(local, follow);
      LastSlash(local', follow');
      SameSlash(AcceptIdText(local, follow), |local| + 8, |local'| + 8);
      DecodeInvertsEncode(follow);
      DecodeInvertsEncode(follow');
    }
  }
}
