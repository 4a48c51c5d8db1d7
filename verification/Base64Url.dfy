// The base64url codec both token formats share: the standard encoding of
// section 4 of RFC 4648, turned into the alphabet of section 5 without padding.
module Base64Url {
  import opened Common

  type byte = x: int | 0 <= x < 256
  type sextet = x: int | 0 <= x < 64

  // ── The standard encoding ───────────────────────────────────────────────────

  function CharOf(v: sextet): char {
    if v < 26 then ('A' as int + v) as char
    else if v < 52 then ('a' as int + v - 26) as char
    else if v < 62 then ('0' as int + v - 52) as char
    else if v == 62 then '+' else '/'
  }

  /** Node's decoder knows both alphabets and skips every other character. */
  function ValueOf(c: char): Option<sextet> {
    if 'A' <= c <= 'Z' then Some(c as int - 'A' as int)
    else if 'a' <= c <= 'z' then Some(c as int - 'a' as int + 26)
    else if '0' <= c <= '9' then Some(c as int - '0' as int + 52)
    else if c == '+' || c == '-' then Some(62)
    else if c == '/' || c == '_' then Some(63)
    else None
  }

  function S0(a: byte): sextet { a / 4 }
  function S1(a: byte, b: byte): sextet { a % 4 * 16 + b / 16 }
  function S2(b: byte, c: byte): sextet { b % 16 * 4 + c / 64 }
  function S3(c: byte): sextet { c % 64 }
  function Last1(a: byte): sextet { a % 4 * 16 }
  function Last2(b: byte): sextet { b % 16 * 4 }

  function B0(s: sextet, t: sextet): byte { s as int * 4 + t as int / 16 }
  function B1(t: sextet, u: sextet): byte { t as int % 16 * 16 + u as int / 4 }
  function B2(u: sextet, v: sextet): byte { u as int % 4 * 64 + v as int }

  /** Three bytes as four sextets; a last group of one or two bytes as two or three. */
  function Sextets(b: seq<byte>): seq<sextet> {
    if |b| == 0 then []
    else if |b| == 1 then [S0(b[0]), Last1(b[0])]
    else if |b| == 2 then [S0(b[0]), S1(b[0], b[1]), Last2(b[1])]
    else [S0(b[0]), S1(b[0], b[1]), S2(b[1], b[2]), S3(b[2])] + Sextets(b[3..])
  }

  function Bytes(v: seq<sextet>): seq<byte> {
    if |v| < 2 then []
    else if |v| == 2 then [B0(v[0], v[1])]
    else if |v| == 3 then [B0(v[0], v[1]), B1(v[1], v[2])]
    else [B0(v[0], v[1]), B1(v[1], v[2]), B2(v[2], v[3])] + Bytes(v[4..])
  }

  function Chars(v: seq<sextet>): string {
    if v == [] then "" else [CharOf(v[0])] + Chars(v[1..])
  }

  function Values(s: string): seq<sextet> {
    if s == "" then []
    else
      match ValueOf(s[0])
      case Some(v) => [v] + Values(s[1..])
      case None => Values(s[1..])
  }

  function Padding(n: nat): string {
    if n % 3 == 1 then "==" else if n % 3 == 2 then "=" else ""
  }

  /** `toString('base64')`. */
  function Base64(b: seq<byte>): string { Chars(Sextets(b)) + Padding(|b|) }

  /** `Buffer.from(s, 'base64')`. */
  function FromBase64(s: string): seq<byte> { Bytes(Values(s)) }

  // ── The url form ────────────────────────────────────────────────────────────

  function Replace(s: string, from: char, to: char): string {
    if s == "" then "" else [if s[0] == from then to else s[0]] + Replace(s[1..], from, to)
  }

  /** `replace(/=+$/, '')`. */
  function StripPadding(s: string): string {
    if s != "" && s[|s| - 1] == '=' then StripPadding(s[..|s| - 1]) else s
  }

  function Encode(b: seq<byte>): string {
    StripPadding(Replace(Replace(Base64(b), '+', '-'), '/', '_'))
  }

  /** The padding that is put back before decoding. */
  function Repad(s: string): string {
    Replace(Replace(s, '-', '+'), '_', '/') + seq(MissingTo4(|s|), i => '=')
  }

  function MissingTo4(n: nat): nat { if n % 4 == 0 then 0 else 4 - n % 4 }

  function Decode(s: string): seq<byte> { FromBase64(Repad(s)) }

  // ── Round trip ──────────────────────────────────────────────────────────────

  lemma TripleRoundTrip(a: byte, b: byte, c: byte)
    ensures B0(S0(a), S1(a, b)) == a && B1(S1(a, b), S2(b, c)) == b && B2(S2(b, c), S3(c)) == c
  {
  }

  lemma LastRoundTrip(a: byte, b: byte)
    ensures B0(S0(a), Last1(a)) == a && B0(S0(a), S1(a, b)) == a && B1(S1(a, b), Last2(b)) == b
  {
  }

  lemma BytesOfTail(s: sextet, t: sextet, u: sextet)
    ensures Bytes([s, t]) == [B0(s, t)] && Bytes([s, t, u]) == [B0(s, t), B1(t, u)]
  {
  }

  lemma BytesOfGroup(s: sextet, t: sextet, u: sextet, v: sextet, rest: seq<sextet>)
    ensures Bytes([s, t, u, v] + rest) == [B0(s, t), B1(t, u), B2(u, v)] + Bytes(rest)
  {
  }

  lemma {:induction false} BytesOfSextets(b: seq<byte>)
    ensures Bytes(Sextets(b)) == b
  {
    if |b| == 1 {
      BytesOfTail(S0(b[0]), Last1(b[0]), Last1(b[0]));
      LastRoundTrip(b[0], b[0]);
    } else if |b| == 2 {
      BytesOfTail(S0(b[0]), S1(b[0], b[1]), Last2(b[1]));
      LastRoundTrip(b[0], b[1]);
    } else if |b| >= 3 {
      BytesOfGroup(S0(b[0]), S1(b[0], b[1]), S2(b[1], b[2]), S3(b[2]), Sextets(b[3..]));
      TripleRoundTrip(b[0], b[1], b[2]);
      BytesOfSextets(b[3..]);
      assert b == [b[0], b[1], b[2]] + b[3..];
    }
  }

  lemma {:induction false} SextetsLength(b: seq<byte>)
    ensures |Sextets(b)| == 4 * (|b| / 3) + (if |b| % 3 == 0 then 0 else |b| % 3 + 1)
  {
    if |b| >= 3 {
      SextetsLength(b[3..]);
    }
  }

  predicate Url(c: char) {
    'A' <= c <= 'Z' || 'a' <= c <= 'z' || '0' <= c <= '9' || c == '-' || c == '_'
  }

  function UrlCharOf(v: sextet): char {
    if v == 62 then '-' else if v == 63 then '_' else CharOf(v)
  }

  function UrlChars(v: seq<sextet>): string {
    if v == [] then "" else [UrlCharOf(v[0])] + UrlChars(v[1..])
  }

  lemma {:induction false} UrlCharsShape(v: seq<sextet>)
    ensures |UrlChars(v)| == |v| && forall c | c in UrlChars(v) :: Url(c)
  {
    if v != [] {
      UrlCharsShape(v[1..]);
    }
  }

  lemma {:induction false} ReplaceAppend(s: string, t: string, from: char, to: char)
    ensures Replace(s + t, from, to) == Replace(s, from, to) + Replace(t, from, to)
  {
    if s == "" {
      assert s + t == t;
    } else {
      assert (s + t)[1..] == s[1..] + t;
      ReplaceAppend(s[1..], t, from, to);
    }
  }

  /** Into the url alphabet and back, sextet by sextet. */
  lemma {:induction false} UrlAlphabet(v: seq<sextet>)
    ensures Replace(Replace(Chars(v), '+', '-'), '/', '_') == UrlChars(v)
    ensures Replace(Replace(UrlChars(v), '-', '+'), '_', '/') == Chars(v)
  {
    if v != [] {
      UrlAlphabet(v[1..]);
      var c, u := [CharOf(v[0])], [UrlCharOf(v[0])];
      ReplaceAppend(c, Chars(v[1..]), '+', '-');
      ReplaceAppend(Replace(c, '+', '-'), Replace(Chars(v[1..]), '+', '-'), '/', '_');
      ReplaceAppend(u, UrlChars(v[1..]), '-', '+');
      ReplaceAppend(Replace(u, '-', '+'), Replace(UrlChars(v[1..]), '-', '+'), '_', '/');
      assert Replace(Replace(c, '+', '-'), '/', '_') == u;
      assert Replace(Replace(u, '-', '+'), '_', '/') == c;
    }
  }

  lemma StripOnlyPadding(s: string, n: nat)
    requires forall c | c in s :: Url(c)
    ensures StripPadding(s + Padding(n)) == s
  {
    var one, two := s + "=", s + "==";
    assert two[..|s| + 1] == one && one[..|s|] == s && two[|s| + 1] == '=' && one[|s|] == '=';
    assert StripPadding(s) == s by {
      assert s != "" ==> s[|s| - 1] in s;
    }
    assert StripPadding(one) == s;
    assert s + "" == s;
  }

  /** Padding is no part of either alphabet. */
  lemma PaddingIsInert(n: nat)
    ensures Replace(Replace(Padding(n), '+', '-'), '/', '_') == Padding(n) && Values(Padding(n)) == []
  {
    var one, two := "=", "==";
    assert two[1..] == one && one[1..] == "";
    assert forall from, to | from != '=' :: Replace(one, from, to) == one;
    assert forall from, to | from != '=' :: Replace(two, from, to) == two;
    assert Values(one) == [] && Values(two) == [];
  }

  /** The encoding is the sextets in the url alphabet, nothing else. */
  lemma EncodeIsUrlChars(b: seq<byte>)
    ensures Encode(b) == UrlChars(Sextets(b))
  {
    var v, p := Sextets(b), Padding(|b|);
    ReplaceAppend(Chars(v), p, '+', '-');
    ReplaceAppend(Replace(Chars(v), '+', '-'), Replace(p, '+', '-'), '/', '_');
    PaddingIsInert(|b|);
    UrlAlphabet(v);
    UrlCharsShape(v);
    StripOnlyPadding(UrlChars(v), |b|);
  }

  /** Three bytes make four characters, and what is over one more than it is. */
  lemma LengthByRest(n: nat, length: nat, q: nat, r: nat)
    requires n == 3 * q + r && r < 3 && length == 4 * q + (if r == 0 then 0 else r + 1)
    ensures n % 3 == r && length % 4 == (if r == 0 then 0 else r + 1) && length == (4 * n + 2) / 3
  {
    assert 4 * n + 2 == 3 * length + (if r == 0 then 2 else if r == 1 then 0 else 1);
  }

  lemma EncodedLength(b: seq<byte>)
    ensures var (n, length) := (|b|, |Sextets(b)|);
            && length % 4 == (if n % 3 == 0 then 0 else n % 3 + 1) && length == (4 * n + 2) / 3
  {
    SextetsLength(b);
    LengthByRest(|b|, |Sextets(b)|, |b| / 3, |b| % 3);
  }

  /** Only url characters come out, never a dot or padding, and never 1 more than a multiple of 4 of them. */
  lemma EncodeShape(b: seq<byte>)
    ensures forall c | c in Encode(b) :: Url(c) && c != '.' && c != '='
    ensures |Encode(b)| % 4 != 1 && |Encode(b)| == (4 * |b| + 2) / 3
  {
    EncodeIsUrlChars(b);
    UrlCharsShape(Sextets(b));
    EncodedLength(b);
  }

  lemma StrippedPadding(b: seq<byte>)
    ensures MissingTo4(|Sextets(b)|) == |Padding(|b|)|
  {
    EncodedLength(b);
  }

  /** What is handed to the decoder is the padded standard encoding of section 4 of RFC 4648. */
  lemma RepadRestoresBase64(b: seq<byte>)
    ensures Repad(Encode(b)) == Base64(b)
  {
    EncodeIsUrlChars(b);
    UrlAlphabet(Sextets(b));
    UrlCharsShape(Sextets(b));
    StrippedPadding(b);
    assert seq(|Padding(|b|)|, i => '=') == Padding(|b|);
  }

  lemma {:induction false} ValuesAppend(s: string, t: string)
    ensures Values(s + t) == Values(s) + Values(t)
  {
    if s == "" {
      assert s + t == t;
    } else {
      assert (s + t)[1..] == s[1..] + t;
      ValuesAppend(s[1..], t);
    }
  }

  lemma {:induction false} ValuesOfChars(v: seq<sextet>)
    ensures Values(Chars(v)) == v
  {
    if v != [] {
      ValuesOfChars(v[1..]);
      assert ValueOf(CharOf(v[0])) == Some(v[0]);
      assert Chars(v)[1..] == Chars(v[1..]);
    }
  }

  lemma RoundTrip(b: seq<byte>)
    ensures Decode(Encode(b)) == b
  {
    RepadRestoresBase64(b);
    ValuesAppend(Chars(Sextets(b)), Padding(|b|));
    ValuesOfChars(Sextets(b));
    PaddingIsInert(|b|);
    assert Sextets(b) + [] == Sextets(b);
    assert Values(Base64(b)) == Sextets(b);
    BytesOfSextets(b);
  }

  // ── What the text stands for ────────────────────────────────────────────────

  /** The digits of section 5 of RFC 4648. */
  function Digit(c: char): int {
    if 'A' <= c <= 'Z' then c as int - 'A' as int
    else if 'a' <= c <= 'z' then 26 + c as int - 'a' as int
    else if '0' <= c <= '9' then 52 + c as int - '0' as int
    else if c == '-' then 62 else if c == '_' then 63 else -1
  }

  /** The number whose digits to base 64 follow those of `before`. */
  function TextNumber(before: int, s: string): int
    decreases |s|
  {
    if s == "" then before else TextNumber(before * 64 + Digit(s[0]), s[1..])
  }

  /** The number whose digits to base 256 follow those of `before`. */
  function ByteNumber(before: int, b: seq<byte>): int
    decreases |b|
  {
    if b == [] then before else ByteNumber(before * 256 + b[0], b[1..])
  }

  function SextetNumber(before: int, v: seq<sextet>): int
    decreases |v|
  {
    if v == [] then before else SextetNumber(before * 64 + v[0], v[1..])
  }

  lemma {:induction false} TextIsSextets(before: int, v: seq<sextet>)
    ensures TextNumber(before, UrlChars(v)) == SextetNumber(before, v)
    decreases |v|
  {
    if v != [] {
      assert UrlChars(v)[1..] == UrlChars(v[1..]);
      TextIsSextets(before * 64 + v[0], v[1..]);
    }
  }

  lemma NextDigit(before: int, s: sextet, rest: seq<sextet>)
    ensures SextetNumber(before, [s] + rest) == SextetNumber(before * 64 + s, rest)
  {
    assert ([s] + rest)[1..] == rest;
  }

  lemma ThreeDigits(before: int, s: sextet, t: sextet, u: sextet)
    ensures SextetNumber(before, [s, t, u]) == ((before * 64 + s) * 64 + t) * 64 + u
  {
    NextDigit(before, s, [t, u]);
    NextDigit(before * 64 + s, t, [u]);
    NextDigit((before * 64 + s) * 64 + t, u, []);
    assert [s] + [t, u] == [s, t, u] && [t] + [u] == [t, u] && [u] + [] == [u];
  }

  /** The number after four more digits. */
  function Next4(before: int, s: sextet, t: sextet, u: sextet, v: sextet): int {
    (((before * 64 + s) * 64 + t) * 64 + u) * 64 + v
  }

  /** The number after three more bytes. */
  function Next3(before: int, a: byte, b: byte, c: byte): int { ((before * 256 + a) * 256 + b) * 256 + c }

  lemma FourDigits(before: int, s: sextet, t: sextet, u: sextet, v: sextet, rest: seq<sextet>)
    ensures SextetNumber(before, [s, t, u, v] + rest)
            == SextetNumber(Next4(before, s, t, u, v), rest)
  {
    NextDigit(before, s, [t, u, v] + rest);
    NextDigit(before * 64 + s, t, [u, v] + rest);
    NextDigit((before * 64 + s) * 64 + t, u, [v] + rest);
    NextDigit(((before * 64 + s) * 64 + t) * 64 + u, v, rest);
    assert [s] + ([t, u, v] + rest) == [s, t, u, v] + rest && [t] + ([u, v] + rest) == [t, u, v] + rest;
    assert [u] + ([v] + rest) == [u, v] + rest;
  }

  lemma ThreeBytes(before: int, a: byte, b: byte, c: byte)
    ensures Next4(before, S0(a), S1(a, b), S2(b, c), S3(c)) == Next3(before, a, b, c)
  {
  }

  lemma LastBytes(before: int, a: byte, b: byte)
    ensures (before * 64 + S0(a)) * 64 + Last1(a) == (before * 256 + a) * 16
    ensures ((before * 64 + S0(a)) * 64 + S1(a, b)) * 64 + Last2(b) == ((before * 256 + a) * 256 + b) * 4
  {
  }

  lemma NextByte(before: int, a: byte, rest: seq<byte>)
    ensures ByteNumber(before, [a] + rest) == ByteNumber(before * 256 + a, rest)
  {
    assert ([a] + rest)[1..] == rest;
  }

  lemma OneByteLeft(before: int, a: byte)
    ensures SextetNumber(before, [S0(a), Last1(a)]) == ByteNumber(before, [a]) * 16
  {
    NextDigit(before, S0(a), [Last1(a)]);
    NextDigit(before * 64 + S0(a), Last1(a), []);
    NextByte(before, a, []);
    LastBytes(before, a, a);
    assert [S0(a)] + [Last1(a)] == [S0(a), Last1(a)] && [Last1(a)] + [] == [Last1(a)] && [a] + [] == [a];
  }

  lemma TwoBytesLeft(before: int, a: byte, b: byte)
    ensures SextetNumber(before, [S0(a), S1(a, b), Last2(b)]) == ByteNumber(before, [a, b]) * 4
  {
    ThreeDigits(before, S0(a), S1(a, b), Last2(b));
    NextByte(before, a, [b]);
    NextByte(before * 256 + a, b, []);
    LastBytes(before, a, b);
    assert [a] + [b] == [a, b] && [b] + [] == [b];
  }

  lemma GroupOfBytes(before: int, a: byte, b: byte, c: byte, rest: seq<byte>)
    ensures ByteNumber(before, [a, b, c] + rest) == ByteNumber(Next3(before, a, b, c), rest)
  {
    NextByte(before, a, [b, c] + rest);
    NextByte(before * 256 + a, b, [c] + rest);
    NextByte((before * 256 + a) * 256 + b, c, rest);
    assert [a] + ([b, c] + rest) == [a, b, c] + rest && [b] + ([c] + rest) == [b, c] + rest;
  }

  /** `text` is `bytes`, with zero bits to fill up the last digit. */
  predicate FilledUp(n: nat, text: int, bytes: int) {
    text == if n % 3 == 0 then bytes else if n % 3 == 1 then bytes * 16 else bytes * 4
  }

  lemma GroupFilled(n: nat, text: int, bytes: int)
    requires n >= 3 && FilledUp(n - 3, text, bytes)
    ensures FilledUp(n, text, bytes)
  {
  }

  lemma {:induction false} SextetsAreBytes(before: int, b: seq<byte>)
    ensures FilledUp(|b|, SextetNumber(before, Sextets(b)), ByteNumber(before, b))
    decreases |b|
  {
    if |b| == 1 {
      OneByteLeft(before, b[0]);
      assert b == [b[0]];
    } else if |b| == 2 {
      TwoBytesLeft(before, b[0], b[1]);
      assert b == [b[0], b[1]];
    } else if |b| >= 3 {
      var next, rest := Next3(before, b[0], b[1], b[2]), b[3..];
      ThreeBytes(before, b[0], b[1], b[2]);
      FourDigits(before, S0(b[0]), S1(b[0], b[1]), S2(b[1], b[2]), S3(b[2]), Sextets(rest));
      GroupOfBytes(before, b[0], b[1], b[2], rest);
      assert b == [b[0], b[1], b[2]] + rest;
      SextetsAreBytes(next, rest);
      GroupFilled(|b|, SextetNumber(next, Sextets(rest)), ByteNumber(next, rest));
    }
  }

  /** The text is the bytes read as one number, written to base 64 with the digits of the standard. */
  lemma EncodeIsRadix64(b: seq<byte>)
    ensures FilledUp(|b|, TextNumber(0, Encode(b)), ByteNumber(0, b))
  {
    EncodeIsUrlChars(b);
    TextIsSextets(0, Sextets(b));
    SextetsAreBytes(0, b);
  }
}
