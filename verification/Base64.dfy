/** Unpadded base64, section 3.2 and section 4 of RFC 4648, as Go's RawStdEncoding reads and writes it. */
module Base64 {
  import opened Prelude

  type Byte = x: int | 0 <= x < 256
  type Bytes = seq<Byte>
  type Sextet = x: int | 0 <= x < 64

  function SextetChar(v: Sextet): char {
    if v < 26 then 'A' + v as char
    else if v < 52 then 'a' + (v - 26) as char
    else if v < 62 then '0' + (v - 52) as char
    else if v == 62 then '+' else '/'
  }

  predicate InAlphabet(c: char) {
    'A' <= c <= 'Z' || 'a' <= c <= 'z' || '0' <= c <= '9' || c == '+' || c == '/'
  }

  function CharSextet(c: char): Sextet
    requires InAlphabet(c)
  {
    if 'A' <= c <= 'Z' then (c - 'A') as int
    else if 'a' <= c <= 'z' then (c - 'a') as int + 26
    else if '0' <= c <= '9' then (c - '0') as int + 52
    else if c == '+' then 62 else 63
  }

  /** The six-bit groups of bytes: 00000011 11112222 22333333. */
  function Group0(a: int): Sextet
    requires 0 <= a < 256
  { a / 4 }

  function Group1(a: int, b: int): Sextet
    requires 0 <= a < 256 && 0 <= b < 256
  { a % 4 * 16 + b / 16 }

  function Group2(b: int, c: int): Sextet
    requires 0 <= b < 256 && 0 <= c < 256
  { b % 16 * 4 + c / 64 }

  function Group3(c: int): Sextet { c % 64 }

  /** Whole groups of three bytes, then two or three sextets for the one or two bytes left. */
  function EncodeSextets(b: Bytes): seq<Sextet> {
    if |b| == 0 then []
    else if |b| == 1 then [Group0(b[0]), Group1(b[0], 0)]
    else if |b| == 2 then [Group0(b[0]), Group1(b[0], b[1]), Group2(b[1], 0)]
    else [Group0(b[0]), Group1(b[0], b[1]), Group2(b[1], b[2]), Group3(b[2])] + EncodeSextets(b[3..])
  }

  function Chars(v: seq<Sextet>): string {
    seq(|v|, i requires 0 <= i < |v| => SextetChar(v[i]))
  }

  function Encode(b: Bytes): string { Chars(EncodeSextets(b)) }

  datatype DecodeError = CorruptInput

  /** The decoder drops line breaks wherever they stand. */
  function WithoutBreaks(s: string): string {
    if s == "" then "" else
    (if s[0] == '\r' || s[0] == '\n' then "" else [s[0]]) + WithoutBreaks(s[1..])
  }

  function Byte0(v: int, w: int): Byte
    requires 0 <= v < 64 && 0 <= w < 64
  { v * 4 + w / 16 }

  function Byte1(v: int, w: int): Byte
    requires 0 <= v < 64 && 0 <= w < 64
  { v % 16 * 16 + w / 4 }

  function Byte2(v: int, w: int): Byte
    requires 0 <= v < 64 && 0 <= w < 64
  { v % 4 * 64 + w }

  /** Spare low bits of the last character are ignored; a single character left over is an error. */
  function DecodeSextets(v: seq<Sextet>): Result<Bytes, DecodeError> {
    if |v| == 0 then Ok([])
    else if |v| == 1 then Err(CorruptInput)
    else if |v| == 2 then Ok([Byte0(v[0], v[1])])
    else if |v| == 3 then Ok([Byte0(v[0], v[1]), Byte1(v[1], v[2])])
    else
      match DecodeSextets(v[4..])
      case Err(e) => Err(e)
      case Ok(rest) => Ok([Byte0(v[0], v[1]), Byte1(v[1], v[2]), Byte2(v[2], v[3])] + rest)
  }

  function Sextets(s: string): seq<Sextet>
    requires forall c <- s :: InAlphabet(c)
  {
    seq(|s|, i requires 0 <= i < |s| => CharSextet(s[i]))
  }

  function Decode(s: string): Result<Bytes, DecodeError> {
    var t := WithoutBreaks(s);
    if forall c <- t :: InAlphabet(c) then DecodeSextets(Sextets(t)) else Err(CorruptInput)
  }

  lemma CharsInAlphabet(v: seq<Sextet>)
    ensures forall c <- Chars(v) :: InAlphabet(c)
    ensures Sextets(Chars(v)) == v
  {
    assert forall i | 0 <= i < |v| :: InAlphabet(Chars(v)[i]);
  }

  lemma {:induction false} NoBreaksToDrop(s: string)
    requires forall c <- s :: InAlphabet(c)
    ensures WithoutBreaks(s) == s
  {
    if s != "" {
      NoBreaksToDrop(s[1..]);
      assert InAlphabet(s[0]);
      assert s == [s[0]] + s[1..];
    }
  }

  lemma ByteBack(a: Byte, b: Byte)
    ensures Byte0(Group0(a), Group1(a, b)) == a
  {
    assert Group1(a, b) / 16 == a % 4;
  }

  lemma ByteBack1(a: Byte, b: Byte, c: Byte)
    ensures Byte1(Group1(a, b), Group2(b, c)) == b
  {
    assert Group1(a, b) % 16 == b / 16;
    assert Group2(b, c) / 4 == b % 16;
  }

  lemma ByteBack2(b: Byte, c: Byte)
    ensures Byte2(Group2(b, c), Group3(c)) == c
  {
    assert Group2(b, c) % 4 == c / 64;
  }

  lemma DecodeFront(v: seq<Sextet>, b: Bytes)
    requires |b| >= 3 && DecodeSextets(v) == Ok(b[3..])
    ensures DecodeSextets([Group0(b[0]), Group1(b[0], b[1]), Group2(b[1], b[2]), Group3(b[2])] + v) == Ok(b)
  {
    var g := [Group0(b[0]), Group1(b[0], b[1]), Group2(b[1], b[2]), Group3(b[2])];
    assert (g + v)[4..] == v;
    ByteBack(b[0], b[1]);
    ByteBack1(b[0], b[1], b[2]);
    ByteBack2(b[1], b[2]);
    assert b == [b[0], b[1], b[2]] + b[3..];
  }

  lemma DecodeOne(b: Bytes)
    requires |b| == 1
    ensures DecodeSextets([Group0(b[0]), Group1(b[0], 0)]) == Ok(b)
  {
    ByteBack(b[0], 0);
    assert b == [b[0]];
  }

  lemma DecodeTwo(b: Bytes)
    requires |b| == 2
    ensures DecodeSextets([Group0(b[0]), Group1(b[0], b[1]), Group2(b[1], 0)]) == Ok(b)
  {
    ByteBack(b[0], b[1]);
    ByteBack1(b[0], b[1], 0);
    assert b == [b[0], b[1]];
  }

  lemma {:induction false} DecodeEncoded(b: Bytes)
    ensures DecodeSextets(EncodeSextets(b)) == Ok(b)
  {
    if |b| == 1 {
      DecodeOne(b);
    } else if |b| == 2 {
      DecodeTwo(b);
    } else if |b| > 2 {
      DecodeEncoded(b[3..]);
      DecodeFront(EncodeSextets(b[3..]), b);
    }
  }

  /** Decoding what was encoded gives the bytes back. */
  lemma RoundTrip(b: Bytes)
    ensures Decode(Encode(b)) == Ok(b)
  {
    CharsInAlphabet(EncodeSextets(b));
    NoBreaksToDrop(Encode(b));
    DecodeEncoded(b);
  }

  // ---------------------------------------------------------------- the other way round

  /** No spare low bits set in a last, partial group. */
  predicate NoSpareBits(v: seq<Sextet>) {
    if |v| == 2 then v[1] % 16 == 0 else if |v| == 3 then v[2] % 4 == 0 else |v| >= 4 ==> NoSpareBits(v[4..])
  }

  lemma GroupBack0(p: Sextet, q: Sextet)
    ensures Group0(Byte0(p, q)) == p
  {
  }

  lemma GroupBack1(p: Sextet, q: Sextet, r: Sextet)
    ensures Group1(Byte0(p, q), Byte1(q, r)) == q
    ensures Group1(Byte0(p, q), 0) == q <==> q % 16 == 0
  {
    assert Byte0(p, q) % 4 == q / 16;
    assert Byte1(q, r) / 16 == q % 16;
  }

  lemma GroupBack2(q: Sextet, r: Sextet, s: Sextet)
    ensures Group2(Byte1(q, r), Byte2(r, s)) == r
    ensures Group2(Byte1(q, r), 0) == r <==> r % 4 == 0
  {
    assert Byte1(q, r) % 16 == r / 4;
    assert Byte2(r, s) / 64 == r % 4;
  }

  lemma GroupBack3(r: Sextet, s: Sextet)
    ensures Group3(Byte2(r, s)) == s
  {
  }

  lemma GroupsBack(v: seq<Sextet>)
    requires |v| >= 4
    ensures var a, b, c := Byte0(v[0], v[1]), Byte1(v[1], v[2]), Byte2(v[2], v[3]);
      [Group0(a), Group1(a, b), Group2(b, c), Group3(c)] == v[..4]
  {
    GroupBack0(v[0], v[1]);
    GroupBack1(v[0], v[1], v[2]);
    GroupBack2(v[1], v[2], v[3]);
    GroupBack3(v[2], v[3]);
  }

  lemma PairBack(v: seq<Sextet>)
    requires |v| == 2
    ensures [Group0(Byte0(v[0], v[1])), Group1(Byte0(v[0], v[1]), 0)] == v <==> v[1] % 16 == 0
  {
    GroupBack0(v[0], v[1]);
    GroupBack1(v[0], v[1], 0);
    assert v == [v[0], v[1]];
  }

  lemma TripleBack(v: seq<Sextet>)
    requires |v| == 3
    ensures var a, b := Byte0(v[0], v[1]), Byte1(v[1], v[2]);
      [Group0(a), Group1(a, b), Group2(b, 0)] == v <==> v[2] % 4 == 0
  {
    GroupBack0(v[0], v[1]);
    GroupBack1(v[0], v[1], v[2]);
    GroupBack2(v[1], v[2], 0);
    assert v == [v[0], v[1], v[2]];
  }

  lemma {:induction false} EncodeDecoded(v: seq<Sextet>)
    requires DecodeSextets(v).Ok?
    ensures EncodeSextets(DecodeSextets(v).value) == v <==> NoSpareBits(v)
  {
    if |v| == 2 {
      PairBack(v);
    } else if |v| == 3 {
      TripleBack(v);
    } else if |v| >= 4 {
      EncodeDecoded(v[4..]);
      GroupsBack(v);
      EncodeFront(v);
      assert v == v[..4] + v[4..];
    }
  }

  lemma EncodeFront(v: seq<Sextet>)
    requires DecodeSextets(v).Ok? && |v| >= 4
    ensures DecodeSextets(v[4..]).Ok?
    ensures var a, b, c := Byte0(v[0], v[1]), Byte1(v[1], v[2]), Byte2(v[2], v[3]);
      EncodeSextets(DecodeSextets(v).value)
        == [Group0(a), Group1(a, b), Group2(b, c), Group3(c)] + EncodeSextets(DecodeSextets(v[4..]).value)
  {
    assert DecodeSextets(v).value[3..] == DecodeSextets(v[4..]).value;
  }

  lemma {:induction false} ShorterWithoutBreaks(s: string)
    ensures |WithoutBreaks(s)| <= |s| && (WithoutBreaks(s) == s <==> forall c <- s :: c != '\r' && c != '\n')
  {
    if s != "" {
      ShorterWithoutBreaks(s[1..]);
      assert s == [s[0]] + s[1..];
      assert s[0] in s;
      assert forall c :: c in s <==> c == s[0] || c in s[1..];
      if s[0] != '\r' && s[0] != '\n' {
        assert WithoutBreaks(s)[1..] == WithoutBreaks(s[1..]);
      }
    }
  }

  lemma CharBack(c: char)
    requires InAlphabet(c)
    ensures SextetChar(CharSextet(c)) == c
  {
  }

  lemma CharsBack(t: string)
    requires forall c <- t :: InAlphabet(c)
    ensures Chars(Sextets(t)) == t
  {
    forall i | 0 <= i < |t| ensures Chars(Sextets(t))[i] == t[i] {
      CharBack(t[i]);
    }
  }

  /** A text the decoder accepts is the encoder's own exactly when it has no line breaks and no spare bits set. */
  lemma ReencodesIff(s: string)
    requires Decode(s).Ok?
    ensures Encode(Decode(s).value) == s
       <==> (forall c <- s :: c != '\r' && c != '\n') && NoSpareBits(Sextets(WithoutBreaks(s)))
  {
    var t := WithoutBreaks(s);
    ShorterWithoutBreaks(s);
    EncodeDecoded(Sextets(t));
    CharsBack(t);
    var v := EncodeSextets(Decode(s).value);
    CharsInAlphabet(v);
    if Encode(Decode(s).value) == s { NoBreaksToDrop(s); }
  }
}
