/**
 The base64url byte codec (src/encoding.ts) over the platform's btoa and atob: RFC 4648 section 5,
 the URL-safe and unpadded form of section 4, with the forgiving decoder browsers ship.
 */
module Base64Url {
  import opened Wrappers

  type Byte = i: int | 0 <= i < 256

  type Sextet = i: int | 0 <= i < 64

  datatype Error = InvalidCharacter

  // ---------- RFC 4648 section 4 ----------

  function Char64(n: Sextet): char {
    if n < 26 then ('A' as int + n) as char
    else if n < 52 then ('a' as int + n - 26) as char
    else if n < 62 then ('0' as int + n - 52) as char
    else if n == 62 then '+'
    else '/'
  }

  predicate InAlphabet(c: char) {
    'A' <= c <= 'Z' || 'a' <= c <= 'z' || '0' <= c <= '9' || c == '+' || c == '/'
  }

  function Value(c: char): Sextet
    requires InAlphabet(c)
  {
    if 'A' <= c <= 'Z' then c as int - 'A' as int
    else if 'a' <= c <= 'z' then c as int - 'a' as int + 26
    else if '0' <= c <= '9' then c as int - '0' as int + 52
    else if c == '+' then 62
    else 63
  }

  function EncodeTriple(a: Byte, b: Byte, c: Byte): (q: string)
    ensures |q| == 4
  {
    [Char64(a / 4), Char64(a % 4 * 16 + b / 16), Char64(b % 16 * 4 + c / 64), Char64(c % 64)]
  }

  /** The unpadded encoding of a byte string. */
  function EncodeGroups(b: seq<Byte>): string {
    if b == [] then ""
    else if |b| == 1 then [Char64(b[0] / 4), Char64(b[0] % 4 * 16)]
    else if |b| == 2 then [Char64(b[0] / 4), Char64(b[0] % 4 * 16 + b[1] / 16), Char64(b[1] % 16 * 4)]
    else EncodeTriple(b[0], b[1], b[2]) + EncodeGroups(b[3..])
  }

  predicate AllInAlphabet(s: string) {
    forall i :: 0 <= i < |s| ==> InAlphabet(s[i])
  }

  function DecodeQuad(q: string): (b: seq<Byte>)
    requires |q| == 4 && AllInAlphabet(q)
  {
    [Value(q[0]) * 4 + Value(q[1]) / 16, Value(q[1]) % 16 * 16 + Value(q[2]) / 4, Value(q[2]) % 4 * 64 + Value(q[3])]
  }

  /** Decoding of unpadded groups; the spare bits of a short last group are ignored. */
  function DecodeGroups(s: string): seq<Byte>
    requires AllInAlphabet(s)
  {
    if |s| < 2 then []
    else if |s| == 2 then [Value(s[0]) * 4 + Value(s[1]) / 16]
    else if |s| == 3 then [Value(s[0]) * 4 + Value(s[1]) / 16, Value(s[1]) % 16 * 16 + Value(s[2]) / 4]
    else DecodeQuad(s[..4]) + DecodeGroups(s[4..])
  }

  /** How many `=` bring a length up to a multiple of four. */
  function PadCount(length: nat): nat {
    (4 - length % 4) % 4
  }

  function Padded(s: string): string {
    s + Repeat('=', PadCount(|s|))
  }

  function Bytes(binary: string): seq<Byte>
    requires Latin1(binary)
  {
    seq(|binary|, i requires 0 <= i < |binary| => binary[i] as int)
  }

  predicate Latin1(s: string) {
    forall i :: 0 <= i < |s| ==> s[i] as int < 256
  }

  function Binary(bytes: seq<Byte>): string {
    seq(|bytes|, i requires 0 <= i < |bytes| => bytes[i] as char)
  }

  function Btoa(binary: string): Result<string, Error> {
    if Latin1(binary) then Success(Padded(EncodeGroups(Bytes(binary)))) else Failure(InvalidCharacter)
  }

  predicate IsAsciiSpace(c: char) {
    c == ' ' || c == '\t' || c == '\n' || c == '\r' || c == '\U{0C}'
  }

  function RemoveIf(s: string, drop: char -> bool): string {
    if s == [] then "" else RemoveIf(s[..|s| - 1], drop) + (if drop(s[|s| - 1]) then "" else [s[|s| - 1]])
  }

  function DropPadding(s: string): string {
    if |s| % 4 != 0 || s == "" || s[|s| - 1] != '=' then s
    else if s[|s| - 2] != '=' then s[..|s| - 1]
    else s[..|s| - 2]
  }

  /** Forgiving base64 decoding, as `atob` does it. */
  function Atob(s: string): Result<string, Error> {
    var d := DropPadding(RemoveIf(s, IsAsciiSpace));
    if |d| % 4 == 1 || !AllInAlphabet(d) then Failure(InvalidCharacter) else Success(Binary(DecodeGroups(d)))
  }

  // ---------- the codec ----------

  function Replace(s: string, from: char, to: char): string {
    seq(|s|, i requires 0 <= i < |s| => if s[i] == from then to else s[i])
  }

  predicate IsPad(c: char) {
    c == '='
  }

  function DropTrailingPads(s: string): string {
    if s != [] && s[|s| - 1] == '=' then DropTrailingPads(s[..|s| - 1]) else s
  }

  function ToUrl(base64: string): string {
    RemoveIf(Replace(Replace(base64, '+', '-'), '/', '_'), IsPad)
  }

  function FromUrl(value: string): string {
    DropTrailingPads(Replace(Replace(value, '-', '+'), '_', '/'))
  }

  function UrlEncode(bytes: seq<Byte>): string {
    ToUrl(Padded(EncodeGroups(bytes)))
  }

  function UrlDecode(value: string): Result<seq<Byte>, Error> {
    match Atob(Padded(FromUrl(value)))
    case Failure(e) => Failure(e)
    case Success(binary) => if Latin1(binary) then Success(Bytes(binary)) else Failure(InvalidCharacter)
  }

  method BytesToBase64Url(bytes: array<Byte>) returns (text: string)
    ensures text == UrlEncode(bytes[..])
  {
    var binary := "";
    for i := 0 to bytes.Length
      invariant binary == Binary(bytes[..i])
    {
      binary := binary + [bytes[i] as char];
    }
    assert bytes[..bytes.Length] == bytes[..];
    BinaryRoundTrip(bytes[..]);
    var base64 := Btoa(binary);
    return ToUrl(base64.value);
  }

  method Base64UrlToBytes(value: string) returns (r: Result<array<Byte>, Error>)
    ensures UrlDecode(value).Failure? <==> r.Failure?
    ensures r.Success? ==> fresh(r.value) && r.value[..] == UrlDecode(value).value
  {
    var binary := Atob(Padded(FromUrl(value)));
    if binary.Failure? {
      return Failure(binary.error);
    }
    AtobIsLatin1(Padded(FromUrl(value)));
    var bytes := FillBytes(binary.value);
    return Success(bytes);
  }

  method FillBytes(text: string) returns (bytes: array<Byte>)
    requires Latin1(text)
    ensures fresh(bytes) && bytes[..] == Bytes(text)
  {
    bytes := new Byte[|text|];
    for i := 0 to |text|
      invariant forall j :: 0 <= j < i ==> bytes[j] == text[j] as int
    {
      bytes[i] := text[i] as int;
    }
  }

  // ---------- groups ----------

  lemma {:induction false} CharRoundTrip(n: Sextet)
    ensures InAlphabet(Char64(n)) && Value(Char64(n)) == n
  {
  }

  lemma {:induction false} EncodesInAlphabet(b: seq<Byte>)
    ensures AllInAlphabet(EncodeGroups(b))
  {
    if |b| >= 3 {
      EncodesInAlphabet(b[3..]);
      TripleRoundTrip(b[0], b[1], b[2]);
    } else if |b| == 2 {
      QuadInAlphabet(b[0] / 4, b[0] % 4 * 16 + b[1] / 16, b[1] % 16 * 4, 0);
    } else if |b| == 1 {
      QuadInAlphabet(b[0] / 4, b[0] % 4 * 16, 0, 0);
    }
  }

  lemma {:induction false} QuadInAlphabet(p: Sextet, q: Sextet, r: Sextet, s: Sextet)
    ensures InAlphabet(Char64(p)) && InAlphabet(Char64(q)) && InAlphabet(Char64(r)) && InAlphabet(Char64(s))
    ensures Value(Char64(p)) == p && Value(Char64(q)) == q && Value(Char64(r)) == r && Value(Char64(s)) == s
  {
    CharRoundTrip(p);
    CharRoundTrip(q);
    CharRoundTrip(r);
    CharRoundTrip(s);
  }

  /** A group shorter than three bytes. */
  lemma {:induction false} ShortRoundTrip(b: seq<Byte>)
    requires |b| < 3 && AllInAlphabet(EncodeGroups(b))
    ensures DecodeGroups(EncodeGroups(b)) == b
  {
    if |b| == 2 {
      TripleBits(b[0], b[1], 0);
      QuadInAlphabet(b[0] / 4, b[0] % 4 * 16 + b[1] / 16, b[1] % 16 * 4, 0);
    } else if |b| == 1 {
      TripleBits(b[0], 0, 0);
      QuadInAlphabet(b[0] / 4, b[0] % 4 * 16, 0, 0);
    }
  }

  /** Groups decode to the bytes they encode, whatever the length's residue. */
  lemma {:induction false} GroupsRoundTrip(b: seq<Byte>)
    ensures AllInAlphabet(EncodeGroups(b)) && DecodeGroups(EncodeGroups(b)) == b
  {
    EncodesInAlphabet(b);
    if |b| >= 3 {
      GroupsRoundTrip(b[3..]);
      TripleRoundTrip(b[0], b[1], b[2]);
      DecodeAppend(EncodeTriple(b[0], b[1], b[2]), EncodeGroups(b[3..]));
    } else {
      ShortRoundTrip(b);
    }
  }

  lemma {:induction false} TripleBits(a: Byte, b: Byte, c: Byte)
    ensures a / 4 * 4 + (a % 4 * 16 + b / 16) / 16 == a
    ensures (a % 4 * 16 + b / 16) % 16 * 16 + (b % 16 * 4 + c / 64) / 4 == b
    ensures (b % 16 * 4 + c / 64) % 4 * 64 + c % 64 == c
  {
  }

  lemma {:induction false} TripleRoundTrip(a: Byte, b: Byte, c: Byte)
    ensures AllInAlphabet(EncodeTriple(a, b, c)) && DecodeQuad(EncodeTriple(a, b, c)) == [a, b, c]
  {
    hide AllInAlphabet, DecodeQuad, Char64;
    TripleBits(a, b, c);
    var p, q, r, s := a / 4, a % 4 * 16 + b / 16, b % 16 * 4 + c / 64, c % 64;
    FourInAlphabet(p, q, r, s);
    QuadDecodes(p, q, r, s);
  }

  lemma {:induction false} FourInAlphabet(p: Sextet, q: Sextet, r: Sextet, s: Sextet)
    ensures AllInAlphabet([Char64(p), Char64(q), Char64(r), Char64(s)])
  {
    QuadInAlphabet(p, q, r, s);
  }

  lemma {:induction false} QuadDecodes(p: Sextet, q: Sextet, r: Sextet, s: Sextet)
    requires AllInAlphabet([Char64(p), Char64(q), Char64(r), Char64(s)])
    ensures DecodeQuad([Char64(p), Char64(q), Char64(r), Char64(s)])
            == [p * 4 + q / 16, q % 16 * 16 + r / 4, r % 4 * 64 + s]
  {
    QuadInAlphabet(p, q, r, s);
  }

  lemma {:induction false} DecodeAppend(q: string, rest: string)
    requires |q| == 4 && AllInAlphabet(q) && AllInAlphabet(rest)
    ensures AllInAlphabet(q + rest) && DecodeGroups(q + rest) == DecodeQuad(q) + DecodeGroups(rest)
  {
    var s := q + rest;
    assert s[..4] == q && s[4..] == rest;
  }

  lemma {:induction false} EncodedLength(b: seq<Byte>)
    ensures |EncodeGroups(b)| == (4 * |b| + 2) / 3
    ensures |EncodeGroups(b)| % 4 != 1
  {
    if |b| >= 3 {
      EncodedLength(b[3..]);
    }
  }

  // ---------- strings ----------

  lemma {:induction false} BinaryRoundTrip(b: seq<Byte>)
    ensures Latin1(Binary(b)) && Bytes(Binary(b)) == b
  {
  }

  lemma {:induction false} AtobIsLatin1(s: string)
    ensures Atob(s).Success? ==> Latin1(Atob(s).value)
  {
    var d := DropPadding(RemoveIf(s, IsAsciiSpace));
    if |d| % 4 != 1 && AllInAlphabet(d) {
      BinaryRoundTrip(DecodeGroups(d));
    }
  }

  lemma {:induction false} RemoveNothing(s: string, drop: char -> bool)
    requires forall i :: 0 <= i < |s| ==> !drop(s[i])
    ensures RemoveIf(s, drop) == s
  {
    if s != [] {
      RemoveNothing(s[..|s| - 1], drop);
    }
  }

  lemma {:induction false} RemoveTail(s: string, n: nat)
    requires forall i :: 0 <= i < |s| ==> s[i] != '='
    ensures RemoveIf(s + Repeat('=', n), IsPad) == s
  {
    if n == 0 {
      assert s + Repeat('=', 0) == s;
      RemoveNothing(s, IsPad);
    } else {
      var t := s + Repeat('=', n);
      assert t[..|t| - 1] == s + Repeat('=', n - 1);
      RemoveTail(s, n - 1);
    }
  }

  lemma {:induction false} DropsTail(s: string, n: nat)
    requires s == [] || s[|s| - 1] != '='
    ensures DropTrailingPads(s + Repeat('=', n)) == s
  {
    var t := s + Repeat('=', n);
    if n == 0 {
      assert t == s;
    } else {
      assert t[..|t| - 1] == s + Repeat('=', n - 1);
      DropsTail(s, n - 1);
    }
  }

  function Urlish(s: string): string {
    Replace(Replace(s, '+', '-'), '/', '_')
  }

  function Standard(s: string): string {
    Replace(Replace(s, '-', '+'), '_', '/')
  }

  lemma {:induction false} UrlishConcat(a: string, n: nat)
    ensures Urlish(a + Repeat('=', n)) == Urlish(a) + Repeat('=', n)
    ensures Standard(a + Repeat('=', n)) == Standard(a) + Repeat('=', n)
  {
  }

  lemma {:induction false} StandardUndoesUrlish(s: string)
    requires AllInAlphabet(s)
    ensures Standard(Urlish(s)) == s
    ensures forall i :: 0 <= i < |s| ==> Urlish(s)[i] != '=' && s[i] != '='
  {
  }

  /** Encoding is the unpadded groups in the URL-safe alphabet. */
  lemma {:induction false} UrlEncodeIs(bytes: seq<Byte>)
    ensures UrlEncode(bytes) == Urlish(EncodeGroups(bytes))
  {
    var s := EncodeGroups(bytes);
    EncodesInAlphabet(bytes);
    StandardUndoesUrlish(s);
    UrlishConcat(s, PadCount(|s|));
    RemoveTail(Urlish(s), PadCount(|s|));
  }

  /** Unpadded groups in the alphabet survive padding and `atob`. */
  lemma {:induction false} AtobOfPadded(s: string)
    requires AllInAlphabet(s) && |s| % 4 != 1
    ensures Atob(Padded(s)) == Success(Binary(DecodeGroups(s)))
  {
    var t := Padded(s);
    RemoveNothing(t, IsAsciiSpace);
    assert t[..|s|] == s;
    DropPaddingOfPadded(s);
  }

  lemma {:induction false} DropTwo(s: string)
    requires (|s| + 2) % 4 == 0
    ensures DropPadding(s + ['=', '=']) == s
  {
  }

  lemma {:induction false} DropOne(s: string)
    requires (|s| + 1) % 4 == 0 && s[|s| - 1] != '='
    ensures DropPadding(s + ['=']) == s
  {
  }

  lemma {:induction false} PaddedIs(s: string)
    ensures |s| % 4 == 0 ==> Padded(s) == s
    ensures |s| % 4 == 2 ==> Padded(s) == s + ['=', '=']
    ensures |s| % 4 == 3 ==> Padded(s) == s + ['=']
  {
  }

  lemma {:induction false} DropPaddingOfPadded(s: string)
    requires AllInAlphabet(s) && |s| % 4 != 1
    ensures DropPadding(Padded(s)) == s
  {
    PaddedIs(s);
    if |s| % 4 == 2 {
      DropTwo(s);
    } else if |s| % 4 == 3 {
      DropOne(s);
    }
  }

  /** Every byte sequence comes back from its encoding, padded with any number of `=` or none. */
  lemma {:induction false} RoundTrip(bytes: seq<Byte>, pads: nat)
    ensures UrlDecode(UrlEncode(bytes) + Repeat('=', pads)) == Success(bytes)
  {
    var s := EncodeGroups(bytes);
    UrlEncodeIs(bytes);
    EncodesInAlphabet(bytes);
    EncodedLength(bytes);
    StandardUndoesUrlish(s);
    UrlishConcat(Urlish(s), pads);
    DropsTail(s, pads);
    AtobOfPadded(s);
    GroupsRoundTrip(bytes);
    BinaryRoundTrip(bytes);
  }

  predicate UrlSafe(c: char) {
    'A' <= c <= 'Z' || 'a' <= c <= 'z' || '0' <= c <= '9' || c == '-' || c == '_'
  }

  /** The encoding is unpadded, as long as four thirds of the bytes rounded up, and URL-safe throughout. */
  lemma {:induction false} EncodingShape(bytes: seq<Byte>)
    ensures |UrlEncode(bytes)| == (4 * |bytes| + 2) / 3
    ensures forall i :: 0 <= i < |UrlEncode(bytes)| ==> UrlSafe(UrlEncode(bytes)[i])
  {
    UrlEncodeIs(bytes);
    EncodedLength(bytes);
    EncodesInAlphabet(bytes);
  }

  // ---------- bit by bit ----------

  const UPPER := "ABCDEFGHIJKLMNOPQRSTUVWXYZ"
  const LOWER := "abcdefghijklmnopqrstuvwxyz"
  const DIGITS := "0123456789-_"
  const URL_ALPHABET := UPPER + LOWER + DIGITS

  const WEIGHTS := [128, 64, 32, 16, 8, 4, 2, 1]

  /** Bit `i` of a byte string, most significant first; zero behind its end. */
  function Bit(b: seq<Byte>, i: nat): int {
    if i / 8 < |b| then b[i / 8] / WEIGHTS[i % 8] % 2 else 0
  }

  /** Six bits in a row. */
  function SixBits(b: seq<Byte>, i: nat): int {
    32 * Bit(b, i) + 16 * Bit(b, i + 1) + 8 * Bit(b, i + 2) + 4 * Bit(b, i + 3) + 2 * Bit(b, i + 4) + Bit(b, i + 5)
  }

  function ByteBit(a: Byte, j: nat): int
    requires j < 8
  {
    a / WEIGHTS[j] % 2
  }

  lemma {:induction false} HalvedHigh(a: Byte)
    ensures a / 128 == a / 128 % 2 && a / 64 == 2 * (a / 128) + a / 64 % 2
  {
  }

  lemma {:induction false} HalvedUpper(a: Byte)
    ensures a / 32 == 2 * (a / 64) + a / 32 % 2 && a / 16 == 2 * (a / 32) + a / 16 % 2
  {
  }

  lemma {:induction false} HalvedLower(a: Byte)
    ensures a / 8 == 2 * (a / 16) + a / 8 % 2 && a / 4 == 2 * (a / 8) + a / 4 % 2
  {
  }

  lemma {:induction false} HalvedLow(a: Byte)
    ensures a / 2 == 2 * (a / 4) + a / 2 % 2 && a == 2 * (a / 2) + a % 2
  {
  }

  lemma {:induction false} BitsOfByte(a: Byte)
    ensures a / 4 == 32 * ByteBit(a, 0) + 16 * ByteBit(a, 1) + 8 * ByteBit(a, 2) + 4 * ByteBit(a, 3)
                     + 2 * ByteBit(a, 4) + ByteBit(a, 5)
    ensures a % 4 == 2 * ByteBit(a, 6) + ByteBit(a, 7)
    ensures a / 16 == 8 * ByteBit(a, 0) + 4 * ByteBit(a, 1) + 2 * ByteBit(a, 2) + ByteBit(a, 3)
    ensures a % 16 == 8 * ByteBit(a, 4) + 4 * ByteBit(a, 5) + 2 * ByteBit(a, 6) + ByteBit(a, 7)
    ensures a / 64 == 2 * ByteBit(a, 0) + ByteBit(a, 1)
    ensures a % 64 == 32 * ByteBit(a, 2) + 16 * ByteBit(a, 3) + 8 * ByteBit(a, 4) + 4 * ByteBit(a, 5)
                      + 2 * ByteBit(a, 6) + ByteBit(a, 7)
  {
    hide ByteBit;
    ByteBits(a);
    HalvedHigh(a);
    HalvedUpper(a);
    HalvedLower(a);
    HalvedLow(a);
    assert a % 4 == a - 4 * (a / 4) && a % 16 == a - 16 * (a / 16) && a % 64 == a - 64 * (a / 64);
  }

  lemma {:induction false} ByteBits(a: Byte)
    ensures ByteBit(a, 0) == a / 128 % 2 && ByteBit(a, 1) == a / 64 % 2 && ByteBit(a, 2) == a / 32 % 2
    ensures ByteBit(a, 3) == a / 16 % 2 && ByteBit(a, 4) == a / 8 % 2 && ByteBit(a, 5) == a / 4 % 2
    ensures ByteBit(a, 6) == a / 2 % 2 && ByteBit(a, 7) == a % 2
  {
  }

  lemma {:induction false} BitAt(b: seq<Byte>, n: nat, j: nat)
    requires j < 8
    ensures Bit(b, 8 * n + j) == if n < |b| then ByteBit(b[n], j) else 0
  {
    assert (8 * n + j) / 8 == n && (8 * n + j) % 8 == j;
  }

  lemma {:induction false} BitsAt(b: seq<Byte>, n: nat)
    ensures n >= |b| ==> Bit(b, 8 * n) == 0 && Bit(b, 8 * n + 1) == 0 && Bit(b, 8 * n + 2) == 0
                         && Bit(b, 8 * n + 3) == 0 && Bit(b, 8 * n + 4) == 0 && Bit(b, 8 * n + 5) == 0
                         && Bit(b, 8 * n + 6) == 0 && Bit(b, 8 * n + 7) == 0
    ensures n < |b| ==> Bit(b, 8 * n) == ByteBit(b[n], 0) && Bit(b, 8 * n + 1) == ByteBit(b[n], 1)
                        && Bit(b, 8 * n + 2) == ByteBit(b[n], 2) && Bit(b, 8 * n + 3) == ByteBit(b[n], 3)
                        && Bit(b, 8 * n + 4) == ByteBit(b[n], 4) && Bit(b, 8 * n + 5) == ByteBit(b[n], 5)
                        && Bit(b, 8 * n + 6) == ByteBit(b[n], 6) && Bit(b, 8 * n + 7) == ByteBit(b[n], 7)
  {
    hide Bit, ByteBit;
    BitAt(b, n, 0);
    BitAt(b, n, 1);
    BitAt(b, n, 2);
    BitAt(b, n, 3);
    BitAt(b, n, 4);
    BitAt(b, n, 5);
    BitAt(b, n, 6);
    BitAt(b, n, 7);
  }

  lemma {:induction false} BitLater(b: seq<Byte>, i: nat)
    requires |b| >= 3
    ensures Bit(b, i + 24) == Bit(b[3..], i)
  {
    assert (i + 24) / 8 == i / 8 + 3 && (i + 24) % 8 == i % 8;
  }

  lemma {:induction false} SixLater(b: seq<Byte>, i: nat)
    requires |b| >= 3
    ensures SixBits(b, i + 24) == SixBits(b[3..], i)
  {
    BitLater(b, i);
    BitLater(b, i + 1);
    BitLater(b, i + 2);
    BitLater(b, i + 3);
    BitLater(b, i + 4);
    BitLater(b, i + 5);
  }

  /** The four sextets of a group, absent bytes read as zero. */
  lemma {:induction false} GroupBits(b: seq<Byte>)
    requires b != []
    ensures var y: int := if |b| > 1 then b[1] else 0;
            var z: int := if |b| > 2 then b[2] else 0;
            && SixBits(b, 0) == b[0] / 4 && SixBits(b, 6) == b[0] % 4 * 16 + y / 16
            && SixBits(b, 12) == y % 16 * 4 + z / 64 && SixBits(b, 18) == z % 64
  {
    hide Bit, ByteBit;
    BitsAt(b, 0);
    BitsAt(b, 1);
    BitsAt(b, 2);
    BitsOfByte(b[0]);
    if |b| > 1 {
      BitsOfByte(b[1]);
    }
    if |b| > 2 {
      BitsOfByte(b[2]);
    }
  }

  lemma {:induction false} SixRange(b: seq<Byte>, i: nat)
    ensures 0 <= SixBits(b, i) < 64
  {
  }

  lemma {:induction false} GroupSextets(b: seq<Byte>, k: nat)
    requires k < |EncodeGroups(b)|
    ensures 0 <= SixBits(b, 6 * k) < 64 && EncodeGroups(b)[k] == Char64(SixBits(b, 6 * k))
  {
    hide SixBits, Char64;
    SixRange(b, 6 * k);
    if k < 4 {
      GroupBits(b);
    } else {
      GroupSextets(b[3..], k - 4);
      SixLater(b, 6 * (k - 4));
    }
  }

  lemma {:induction false} UrlChar(n: Sextet)
    ensures |URL_ALPHABET| == 64
    ensures URL_ALPHABET[n] == if n == 62 then '-' else if n == 63 then '_' else Char64(n)
  {
    if n < 26 {
      UpperChar(n);
    } else if n < 52 {
      LowerChar(n - 26);
    }
  }

  lemma {:induction false} UpperChar(n: nat)
    requires n < 26
    ensures UPPER[n] == ('A' as int + n) as char
  {
  }

  lemma {:induction false} LowerChar(n: nat)
    requires n < 26
    ensures LOWER[n] == ('a' as int + n) as char
  {
  }

  /** Each character of the encoding stands for the next six bits of the bytes by its place in the URL-safe
      alphabet; the spare bits behind the last byte are zero. */
  lemma {:induction false} EncodesBits(bytes: seq<Byte>, k: nat)
    requires k < |UrlEncode(bytes)|
    ensures 0 <= SixBits(bytes, 6 * k) < 64
    ensures UrlEncode(bytes)[k] == URL_ALPHABET[SixBits(bytes, 6 * k)]
  {
    hide SixBits;
    UrlEncodeIs(bytes);
    GroupSextets(bytes, k);
    UrlChar(SixBits(bytes, 6 * k));
  }

  /** Whether `c` stands for `d`, in the URL-safe alphabet or in the standard one. */
  predicate Digit(c: char, d: Sextet) {
    URL_ALPHABET[d] == c || (d == 62 && c == '+') || (d == 63 && c == '/')
  }

  predicate Spells(text: string, digits: seq<Sextet>) {
    |text| == |digits| && forall i :: 0 <= i < |text| ==> Digit(text[i], digits[i])
  }

  lemma {:induction false} DigitValue(c: char, d: Sextet)
    requires Digit(c, d)
    ensures var std := if c == '-' then '+' else if c == '_' then '/' else c;
            InAlphabet(std) && Value(std) == d && c != '='
  {
    UrlChar(d);
    CharRoundTrip(d);
  }

  lemma {:induction false} SpelledValues(text: string, digits: seq<Sextet>)
    requires Spells(text, digits)
    ensures |Standard(text)| == |text| == |digits| && AllInAlphabet(Standard(text))
    ensures forall i :: 0 <= i < |text| ==> Value(Standard(text)[i]) == digits[i] && Standard(text)[i] != '='
  {
    hide Digit, InAlphabet, Value;
    forall i | 0 <= i < |text|
      ensures InAlphabet(Standard(text)[i]) && Value(Standard(text)[i]) == digits[i] && Standard(text)[i] != '='
    {
      DigitValue(text[i], digits[i]);
    }
  }

  /** What a digit leaves in the bytes: the last one of a short group loses its spare bits. */
  function Kept(d: Sextet, k: nat, length: nat): int {
    if k + 1 < length || length % 4 == 0 then d
    else if length % 4 == 2 then d / 16 * 16
    else d / 4 * 4
  }

  lemma {:induction false} DecodedLength(s: string)
    requires AllInAlphabet(s) && |s| % 4 != 1
    ensures |DecodeGroups(s)| == 3 * |s| / 4
  {
    if |s| >= 4 {
      DecodedLength(s[4..]);
    }
  }

  lemma {:induction false} FirstSextets(p: Sextet, q: Sextet)
    ensures (p * 4 + q / 16) / 4 == p && (p * 4 + q / 16) % 4 == q / 16
  {
  }

  lemma {:induction false} MiddleSextets(q: Sextet, r: Sextet)
    ensures (q % 16 * 16 + r / 4) / 16 == q % 16 && (q % 16 * 16 + r / 4) % 16 == r / 4
  {
  }

  lemma {:induction false} LastSextets(r: Sextet, s: Sextet)
    ensures (r % 4 * 64 + s) / 64 == r % 4 && (r % 4 * 64 + s) % 64 == s
  {
  }

  lemma {:induction false} ShortGroupDigits(s: string, k: nat)
    requires AllInAlphabet(s) && 2 <= |s| <= 3 && k < |s|
    ensures SixBits(DecodeGroups(s), 6 * k) == Kept(Value(s[k]), k, |s|)
  {
    hide SixBits, Value, InAlphabet;
    GroupBits(DecodeGroups(s));
    FirstSextets(Value(s[0]), Value(s[1]));
    if |s| == 3 {
      MiddleSextets(Value(s[1]), Value(s[2]));
    }
  }

  lemma {:induction false} QuadDigits(q: string, rest: seq<Byte>, k: nat)
    requires |q| == 4 && AllInAlphabet(q) && k < 4
    ensures SixBits(DecodeQuad(q) + rest, 6 * k) == Value(q[k])
  {
    hide SixBits, Value, InAlphabet;
    GroupBits(DecodeQuad(q) + rest);
    FirstSextets(Value(q[0]), Value(q[1]));
    MiddleSextets(Value(q[1]), Value(q[2]));
    LastSextets(Value(q[2]), Value(q[3]));
  }

  lemma {:induction false} DecodeSplits(s: string)
    requires AllInAlphabet(s) && |s| >= 4
    ensures AllInAlphabet(s[..4]) && AllInAlphabet(s[4..])
    ensures DecodeGroups(s) == DecodeQuad(s[..4]) + DecodeGroups(s[4..])
    ensures |DecodeGroups(s)| >= 3 && DecodeGroups(s)[3..] == DecodeGroups(s[4..])
  {
  }

  lemma {:induction false} KeptInGroup(d: Sextet, k: nat, length: nat)
    requires k < length && length >= 4
    ensures k < 4 ==> Kept(d, k, length) == d
    ensures k >= 4 ==> Kept(d, k, length) == Kept(d, k - 4, length - 4)
  {
  }

  lemma {:induction false} FirstGroupDigits(s: string, k: nat)
    requires AllInAlphabet(s) && |s| >= 4 && k < 4
    ensures SixBits(DecodeGroups(s), 6 * k) == Value(s[k])
  {
    DecodeSplits(s);
    hide SixBits, Value, InAlphabet, DecodeGroups, DecodeQuad;
    QuadDigits(s[..4], DecodeGroups(s[4..]), k);
  }

  lemma {:induction false} LaterGroupDigits(s: string, k: nat)
    requires AllInAlphabet(s) && |s| >= 4 && 4 <= k < |s|
    ensures AllInAlphabet(s[4..]) && SixBits(DecodeGroups(s), 6 * k) == SixBits(DecodeGroups(s[4..]), 6 * (k - 4))
  {
    hide SixBits, DecodeGroups, DecodeQuad, AllInAlphabet, InAlphabet;
    DecodeSplits(s);
    SixLater(DecodeGroups(s), 6 * (k - 4));
    assert 6 * (k - 4) + 24 == 6 * k;
  }

  lemma {:induction false} GroupDigits(s: string, k: nat)
    requires AllInAlphabet(s) && |s| % 4 != 1 && k < |s|
    ensures SixBits(DecodeGroups(s), 6 * k) == Kept(Value(s[k]), k, |s|)
  {
    hide SixBits, Value, InAlphabet, DecodeGroups, Kept;
    if |s| < 4 {
      ShortGroupDigits(s, k);
    } else if k < 4 {
      FirstGroupDigits(s, k);
      KeptInGroup(Value(s[k]), k, |s|);
    } else {
      LaterGroupDigits(s, k);
      GroupDigits(s[4..], k - 4);
      KeptInGroup(Value(s[k]), k, |s|);
    }
  }

  lemma {:induction false} LeftoverFails(s: string)
    requires AllInAlphabet(s) && |s| % 4 == 1
    ensures Atob(Padded(s)).Failure?
  {
    RemoveNothing(Padded(s), IsAsciiSpace);
    BadStaysBad(s);
  }

  /** Text of either alphabet, with any number of `=` behind it, decodes exactly when it does not leave a single
      character over, to three quarters as many bytes, rounded down, whose bits are the digits of its
      characters. */
  lemma {:induction false} DecodesBits(text: string, digits: seq<Sextet>, pads: nat)
    requires Spells(text, digits)
    ensures var r := UrlDecode(text + Repeat('=', pads));
            && (r.Success? <==> |text| % 4 != 1)
            && (r.Success? ==> |r.value| == 3 * |text| / 4)
            && (r.Success? ==> forall k: nat :: k < |text| ==> SixBits(r.value, 6 * k) == Kept(digits[k], k, |text|))
  {
    hide SixBits, Kept, Digit, DecodeGroups, Value, InAlphabet, Replace, Padded, Atob, RemoveIf, DropPadding;
    var s := Standard(text);
    SpelledValues(text, digits);
    UrlishConcat(text, pads);
    DropsTail(s, pads);
    if |text| % 4 == 1 {
      LeftoverFails(s);
    } else {
      AtobOfPadded(s);
      BinaryRoundTrip(DecodeGroups(s));
      DecodedLength(s);
      forall k: nat | k < |text| ensures SixBits(DecodeGroups(s), 6 * k) == Kept(digits[k], k, |text|) {
        GroupDigits(s, k);
      }
    }
  }

  /** No two byte sequences share an encoding. */
  lemma {:induction false} EncodingInjective(a: seq<Byte>, b: seq<Byte>)
    requires UrlEncode(a) == UrlEncode(b)
    ensures a == b
  {
    RoundTrip(a, 0);
    RoundTrip(b, 0);
  }

  predicate SpaceFree(s: string) {
    forall i :: 0 <= i < |s| ==> !IsAsciiSpace(s[i])
  }

  lemma {:induction false} DropTrailingIsPrefix(s: string)
    ensures var d := DropTrailingPads(s);
            |d| <= |s| && d == s[..|d|] && (d == [] || d[|d| - 1] != '=')
  {
    if s != [] && s[|s| - 1] == '=' {
      DropTrailingIsPrefix(s[..|s| - 1]);
    }
  }

  /** Input without white space is accepted exactly when what precedes the trailing `=` is in either
      alphabet and does not leave a single character over. */
  lemma {:induction false} AcceptsExactly(value: string)
    requires SpaceFree(value)
    ensures UrlDecode(value).Success? <==> AllInAlphabet(FromUrl(value)) && |FromUrl(value)| % 4 != 1
  {
    var s := FromUrl(value);
    DropTrailingIsPrefix(Standard(value));
    RemoveNothing(Padded(s), IsAsciiSpace);
    AtobIsLatin1(Padded(s));
    if AllInAlphabet(s) && |s| % 4 != 1 {
      AtobOfPadded(s);
    } else {
      BadStaysBad(s);
    }
  }

  lemma {:induction false} BadStaysBad(s: string)
    requires s == [] || s[|s| - 1] != '='
    requires !AllInAlphabet(s) || |s| % 4 == 1
    ensures var d := DropPadding(Padded(s)); |d| % 4 == 1 || !AllInAlphabet(d)
  {
    var t := Padded(s);
    if |s| % 4 == 1 {
      assert t == s + "===";
      assert DropPadding(t)[|s|] == '=';
    } else {
      var i :| 0 <= i < |s| && !InAlphabet(s[i]);
      assert |DropPadding(t)| >= |s|;
      assert DropPadding(t)[i] == s[i];
    }
  }
}
