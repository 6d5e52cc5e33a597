/** The encoding as RFC 4648 states it, section 4: 24-bit groups in a table's characters; and which texts decode. */
module Base64Groups {
  import opened Prelude
  import opened Base64

  const UPPER := "ABCDEFGHIJKLMNOPQRSTUVWXYZ"
  const LOWER := "abcdefghijklmnopqrstuvwxyz"
  const DIGITS := "0123456789"
  const TABLE := UPPER + LOWER + DIGITS + "+/"

  lemma Upper(s: string)
    requires s == "ABCDEFGHIJKLMNOPQRSTUVWXYZ"
    ensures |s| == 26 && forall i | 0 <= i < 26 :: s[i] == 'A' + i as char
  {
  }

  lemma Lower(s: string)
    requires s == "abcdefghijklmnopqrstuvwxyz"
    ensures |s| == 26 && forall i | 0 <= i < 26 :: s[i] == 'a' + i as char
  {
  }

  lemma TenDigits(s: string)
    requires s == "0123456789"
    ensures |s| == 10 && forall i | 0 <= i < 10 :: s[i] == '0' + i as char
  {
  }

  /** Each sextet prints as its character of the table. */
  lemma AlphabetIsTheTable(v: Sextet)
    ensures |TABLE| == 64 && SextetChar(v) == TABLE[v]
  {
    Upper(UPPER);
    Lower(LOWER);
    TenDigits(DIGITS);
    assert "+/"[0] == '+' && "+/"[1] == '/' && |"+/"| == 2;
  }

  /** Four sextets, and three bytes, as one number of 24 bits. */
  function Four(p: int, q: int, r: int, s: int): int { 262_144 * p + 4_096 * q + 64 * r + s }

  function Three(a: int, b: int, c: int): int { 65_536 * a + 256 * b + c }

  /** Three bytes and four sextets are one number of 24 bits; what is left is filled up with zero bits. */
  predicate Spells(v: seq<Sextet>, b: Bytes) {
    if |b| == 0 then v == []
    else if |b| == 1 then |v| == 2 && Four(0, 0, v[0], v[1]) == 16 * (b[0] as int)
    else if |b| == 2 then |v| == 3 && Four(0, v[0], v[1], v[2]) == 4 * Three(0, b[0], b[1])
    else |v| >= 4 && Four(v[0], v[1], v[2], v[3]) == Three(b[0], b[1], b[2]) && Spells(v[4..], b[3..])
  }

  /** Four digits to the base 64, and three to the base 256, are determined by their number. */
  lemma FourUnique(p: Sextet, q: Sextet, r: Sextet, s: Sextet, p': Sextet, q': Sextet, r': Sextet, s': Sextet)
    requires Four(p, q, r, s) == Four(p', q', r', s')
    ensures p == p' && q == q' && r == r' && s == s'
  {
    assert p == p';
    assert q == q';
    assert r == r';
  }

  lemma ThreeUnique(a: Byte, b: Byte, c: Byte, a': Byte, b': Byte, c': Byte)
    requires Three(a, b, c) == Three(a', b', c')
    ensures a == a' && b == b' && c == c'
  {
    assert a == a';
    assert b == b';
  }

  /** Cutting 24 bits into bytes of 8 and into sextets of 6. */
  lemma Regrouped(a1: int, a0: int, b1: int, b0: int, c1: int, c0: int)
    ensures Four(a1, 16 * a0 + b1, 4 * b0 + c1, c0) == Three(4 * a1 + a0, 16 * b1 + b0, 64 * c1 + c0)
  {
  }

  lemma GroupsNumber(a: Byte, b: Byte, c: Byte)
    ensures Four(Group0(a), Group1(a, b), Group2(b, c), Group3(c)) == Three(a, b, c)
  {
    Regrouped(a / 4, a % 4, b / 16, b % 16, c / 64, c % 64);
  }

  lemma GroupSpells(a: Byte, b: Byte, c: Byte, p: Sextet, q: Sextet, r: Sextet, s: Sextet)
    ensures Four(p, q, r, s) == Three(a, b, c)
       <==> p == Group0(a) && q == Group1(a, b) && r == Group2(b, c) && s == Group3(c)
  {
    GroupsNumber(a, b, c);
    if Four(p, q, r, s) == Three(a, b, c) { FourUnique(p, q, r, s, Group0(a), Group1(a, b), Group2(b, c), Group3(c)); }
  }

  lemma PairSpells(a: Byte, p: Sextet, q: Sextet)
    ensures Four(0, 0, p, q) == 16 * (a as int) <==> p == Group0(a) && q == Group1(a, 0)
  {
    var high, low := a / 4, a % 4;
    assert a == 4 * high + low && Group0(a) == high && Group1(a, 0) == 16 * low;
    if Four(0, 0, p, q) == 16 * (a as int) { FourUnique(0, 0, p, q, 0, 0, Group0(a), Group1(a, 0)); }
  }

  lemma TripleSpells(a: Byte, b: Byte, p: Sextet, q: Sextet, r: Sextet)
    ensures Four(0, p, q, r) == 4 * Three(0, a, b) <==> p == Group0(a) && q == Group1(a, b) && r == Group2(b, 0)
  {
    GroupSpells(a, b, 0, p, q, r, 0);
  }

  /** The sextets of bytes are the ones that spell them. */
  lemma {:induction false} EncodesExactly(b: Bytes, v: seq<Sextet>)
    ensures v == EncodeSextets(b) <==> Spells(v, b)
  {
    if |b| == 1 {
      if |v| == 2 { PairSpells(b[0], v[0], v[1]); assert v == [v[0], v[1]]; }
    } else if |b| == 2 {
      if |v| == 3 { TripleSpells(b[0], b[1], v[0], v[1], v[2]); assert v == [v[0], v[1], v[2]]; }
    } else if |b| >= 3 {
      var g := [Group0(b[0]), Group1(b[0], b[1]), Group2(b[1], b[2]), Group3(b[2])];
      assert EncodeSextets(b)[..4] == g && EncodeSextets(b)[4..] == EncodeSextets(b[3..]);
      if |v| >= 4 {
        EncodesExactly(b[3..], v[4..]);
        GroupSpells(b[0], b[1], b[2], v[0], v[1], v[2], v[3]);
        assert v == v[..4] + v[4..] && v[..4] == [v[0], v[1], v[2], v[3]];
        assert EncodeSextets(b) == g + EncodeSextets(b[3..]);
      }
    }
  }

  /** So the text of bytes is the table's characters for the sextets that spell them. */
  lemma EncodesByTable(b: Bytes, v: seq<Sextet>)
    requires Spells(v, b)
    ensures |Encode(b)| == |v| && forall i | 0 <= i < |v| :: Encode(b)[i] == TABLE[v[i]]
  {
    EncodesExactly(b, v);
    forall i | 0 <= i < |v| ensures Encode(b)[i] == TABLE[v[i]] { AlphabetIsTheTable(v[i]); }
  }

  // ---------------------------------------------------------------- which texts decode, and to what

  /** As Spells, with whatever spare bits the last sextet has. */
  predicate Reads(v: seq<Sextet>, b: Bytes) {
    if |b| == 0 then v == []
    else if |b| == 1 then |v| == 2 && Four(0, 0, v[0], v[1]) / 16 == b[0]
    else if |b| == 2 then |v| == 3 && Four(0, v[0], v[1], v[2]) / 4 == Three(0, b[0], b[1])
    else |v| >= 4 && Four(v[0], v[1], v[2], v[3]) == Three(b[0], b[1], b[2]) && Reads(v[4..], b[3..])
  }

  lemma BytesNumber(p: Sextet, q: Sextet, r: Sextet, s: Sextet)
    ensures Four(p, q, r, s) == Three(Byte0(p, q), Byte1(q, r), Byte2(r, s))
  {
    Regrouped(p, q / 16, q % 16, r / 4, r % 4, s);
  }

  lemma GroupReads(a: Byte, b: Byte, c: Byte, p: Sextet, q: Sextet, r: Sextet, s: Sextet)
    ensures Four(p, q, r, s) == Three(a, b, c) <==> a == Byte0(p, q) && b == Byte1(q, r) && c == Byte2(r, s)
  {
    BytesNumber(p, q, r, s);
    if Four(p, q, r, s) == Three(a, b, c) { ThreeUnique(a, b, c, Byte0(p, q), Byte1(q, r), Byte2(r, s)); }
  }

  lemma Quartered(p: int, q: int, r: nat)
    ensures Four(0, p, q, r) / 4 == 1_024 * p + 16 * q + r / 4
  {
    assert Four(0, p, q, r) == 4 * (1_024 * p + 16 * q + r / 4) + r % 4;
  }

  lemma TripleReads(a: Byte, b: Byte, p: Sextet, q: Sextet, r: Sextet)
    ensures Four(0, p, q, r) / 4 == Three(0, a, b) <==> a == Byte0(p, q) && b == Byte1(q, r)
  {
    Quartered(p, q, r);
    var high, low := q / 16, q % 16;
    assert q == 16 * high + low;
    assert Three(0, Byte0(p, q), Byte1(q, r)) == 1_024 * p + 16 * q + r / 4;
    if Four(0, p, q, r) / 4 == Three(0, a, b) { ThreeUnique(0, a, b, 0, Byte0(p, q), Byte1(q, r)); }
  }

  lemma PairReads(a: Byte, p: Sextet, q: Sextet)
    ensures Four(0, 0, p, q) / 16 == a <==> a == Byte0(p, q)
  {
  }

  /** Sextets decode to exactly the bytes they read as. */
  lemma {:induction false} DecodesTo(v: seq<Sextet>, b: Bytes)
    ensures DecodeSextets(v) == Ok(b) <==> Reads(v, b)
  {
    if |v| == 2 {
      if |b| == 1 { PairReads(b[0], v[0], v[1]); assert b == [b[0]]; }
    } else if |v| == 3 {
      if |b| == 2 { TripleReads(b[0], b[1], v[0], v[1], v[2]); assert b == [b[0], b[1]]; }
    } else if |v| >= 4 {
      if |b| >= 3 {
        DecodesTo(v[4..], b[3..]);
        GroupReads(b[0], b[1], b[2], v[0], v[1], v[2], v[3]);
        assert b == [b[0], b[1], b[2]] + b[3..];
      }
    }
  }

  lemma InTable(c: char)
    ensures InAlphabet(c) <==> c in TABLE
  {
    if InAlphabet(c) {
      CharBack(c);
      AlphabetIsTheTable(CharSextet(c));
    }
    if c in TABLE {
      var i :| 0 <= i < |TABLE| && TABLE[i] == c;
      AlphabetIsTheTable(i);
    }
  }

  lemma {:induction false} WholeGroupsDecode(v: seq<Sextet>)
    ensures DecodeSextets(v).Ok? <==> |v| % 4 != 1
  {
    if |v| >= 4 {
      WholeGroupsDecode(v[4..]);
      LessFour(|v|);
    }
  }

  lemma LessFour(n: int)
    ensures (n - 4) % 4 == n % 4
  {
  }

  /** A text decodes exactly when, line breaks apart, its characters are the table's and not one too many. */
  lemma DecodesExactly(s: string)
    ensures Decode(s).Ok? <==> (forall c <- s :: c in TABLE || c == '\r' || c == '\n') && |WithoutBreaks(s)| % 4 != 1
  {
    var t := WithoutBreaks(s);
    KeptCharacters(s);
    forall c ensures InAlphabet(c) <==> c in TABLE { InTable(c); }
    if forall c <- t :: InAlphabet(c) { WholeGroupsDecode(Sextets(t)); }
  }

  lemma {:induction false} KeptCharacters(s: string)
    ensures forall c :: c in WithoutBreaks(s) <==> c in s && c != '\r' && c != '\n'
  {
    if s != "" {
      KeptCharacters(s[1..]);
      assert s == [s[0]] + s[1..];
    }
  }
}
