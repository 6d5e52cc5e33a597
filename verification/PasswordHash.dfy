/**
  PHC strings of Argon2id hashes (server/internal/crypto/password.go).

  The key derivation is a parameter: any function of password, salt and parameters that returns as many
  bytes as it is asked for. The random salt is an input.
*/
module PasswordHash {
  import opened Prelude
  import opened Decimals
  import opened Base64

  const VERSION := 19
  const MAX_UINT32: nat := 0x1_0000_0000
  const MAX_UINT8: nat := 0x100
  const MAX_INT64: nat := 0x8000_0000_0000_0000

  datatype Params = Params(memory: nat, iterations: nat, parallelism: nat, saltLength: nat, keyLength: nat)

  const DEFAULT_PARAMS := Params(64 * 1024, 3, 4, 16, 32)

  /** The widths of the fields: uint32, but uint8 for the parallelism. */
  predicate InRange(p: Params) {
    p.memory < MAX_UINT32 && p.iterations < MAX_UINT32 && p.parallelism < MAX_UINT8
    && p.saltLength < MAX_UINT32 && p.keyLength < MAX_UINT32
  }

  datatype HashError = InvalidHash | IncompatibleVersion | EmptyPassword

  datatype Decoded = Decoded(params: Params, salt: Bytes, hash: Bytes)

  // ---------------------------------------------------------------- printing

  function ParamText(p: Params): string {
    "m=" + Numeral(p.memory) + (",t=" + Numeral(p.iterations) + (",p=" + Numeral(p.parallelism)))
  }

  function Printed(p: Params, salt: Bytes, key: Bytes): string {
    "$" + ("argon2id$" + ("v=" + Numeral(VERSION) + "$" + (ParamText(p) + "$" + (Encode(salt) + "$" + Encode(key)))))
  }

  type Kdf = (string, Bytes, Params) -> Bytes

  ghost predicate FillsKeys(idKey: Kdf) {
    forall password, salt, p :: |idKey(password, salt, p)| == p.keyLength
  }

  function HashPasswordWithParams(password: string, p: Params, salt: Bytes, idKey: Kdf): Result<string, HashError>
    requires |salt| == p.saltLength
  {
    if password == "" then Err(EmptyPassword) else Ok(Printed(p, salt, idKey(password, salt, p)))
  }

  // ---------------------------------------------------------------- scanning

  function Split(s: string, sep: char): seq<string> {
    if s == "" then [""]
    else if s[0] == sep then [""] + Split(s[1..], sep)
    else var rest := Split(s[1..], sep); [[s[0]] + First(rest)] + rest[1..]
  }

  function First(parts: seq<string>): string { if parts == [] then "" else parts[0] }

  /** The rest of s behind a literal. */
  function ScanLiteral(s: string, lit: string): Option<string> {
    if |lit| <= |s| && s[..|lit|] == lit then Some(s[|lit|..]) else None
  }

  /** Blanks before a number are skipped; a line feed among them is an error. */
  function SkipSpace(s: string): Option<string> {
    if s == "" then Some(s)
    else if s[0] == '\n' then None
    else if s[0] in [' ', '\t', '\r', 11 as char, 12 as char] then SkipSpace(s[1..])
    else Some(s)
  }

  /** A %d into an unsigned field below the limit. */
  function ScanUint(s: string, limit: nat): Option<(nat, string)> {
    match SkipSpace(s)
    case None => None
    case Some(t) =>
      var n := DigitRun(t);
      if n == 0 || Value(t[..n]) >= limit then None else Some((Value(t[..n]), t[n..]))
  }

  /** A %d into a 64-bit int, with an optional sign. */
  function ScanInt(s: string): Option<int> {
    match SkipSpace(s)
    case None => None
    case Some(t) =>
      var negative := t != "" && t[0] == '-';
      var u := if t != "" && t[0] in "+-" then t[1..] else t;
      var n := DigitRun(u);
      if n == 0 then None else
      var v: int := Value(u[..n]);
      if negative then if v <= MAX_INT64 then Some(-v) else None
      else if v < MAX_INT64 then Some(v) else None
  }

  function ScanVersion(s: string): Option<int> {
    match ScanLiteral(s, "v=")
    case None => None
    case Some(t) => ScanInt(t)
  }

  function ScanField(s: string, lit: string, limit: nat): Option<(nat, string)> {
    match ScanLiteral(s, lit)
    case None => None
    case Some(t) => ScanUint(t, limit)
  }

  /** Anything behind the last number is left unread. */
  function ScanParams(s: string): Option<(nat, nat, nat)> {
    match ScanField(s, "m=", MAX_UINT32)
    case None => None
    case Some((m, s1)) =>
      match ScanField(s1, ",t=", MAX_UINT32)
      case None => None
      case Some((t, s2)) =>
        match ScanField(s2, ",p=", MAX_UINT8)
        case None => None
        case Some((p, _)) => Some((m, t, p))
  }

  function DecodeHash(encoded: string): Result<Decoded, HashError> {
    var parts := Split(encoded, '$');
    if |parts| != 6 || parts[1] != "argon2id" then Err(InvalidHash) else
    match ScanVersion(parts[2])
    case None => Err(InvalidHash)
    case Some(version) =>
      if version != VERSION then Err(IncompatibleVersion) else
      match ScanParams(parts[3])
      case None => Err(InvalidHash)
      case Some((m, t, p)) => DecodeBytes(m, t, p, parts[4], parts[5])
  }

  function DecodeBytes(m: nat, t: nat, p: nat, saltText: string, hashText: string): Result<Decoded, HashError> {
    match Decode(saltText)
    case Err(_) => Err(InvalidHash)
    case Ok(salt) =>
      match Decode(hashText)
      case Err(_) => Err(InvalidHash)
      case Ok(hash) =>
        if |salt| == 0 || |hash| == 0 || |salt| > 1024 || |hash| > 1024 then Err(InvalidHash)
        else Ok(Decoded(Params(m, t, p, |salt|, |hash|), salt, hash))
  }

  predicate WeakerThan(got: Params, want: Params) {
    got.memory < want.memory || got.iterations < want.iterations
    || got.parallelism < want.parallelism || got.keyLength < want.keyLength
  }

  datatype Verdict = Verdict(ok: bool, needsRehash: bool)

  function VerifyPassword(encoded: string, password: string, idKey: Kdf): Result<Verdict, HashError> {
    if password == "" then Err(EmptyPassword) else
    match DecodeHash(encoded)
    case Err(e) => Err(e)
    case Ok(d) =>
      if d.hash != idKey(password, d.salt, d.params) then Ok(Verdict(false, false))
      else Ok(Verdict(true, WeakerThan(d.params, DEFAULT_PARAMS)))
  }

  // ---------------------------------------------------------------- splitting what was joined

  lemma {:induction false} SplitPlain(a: string, sep: char)
    requires sep !in a
    ensures Split(a, sep) == [a]
  {
    if a != "" {
      SplitPlain(a[1..], sep);
      assert a == [a[0]] + a[1..];
    }
  }

  lemma {:induction false} SplitFirst(a: string, rest: string, sep: char)
    requires sep !in a
    ensures Split(a + [sep] + rest, sep) == [a] + Split(rest, sep)
  {
    var s := a + [sep] + rest;
    if a == "" {
      assert s[1..] == rest;
    } else {
      var tail := a[1..];
      SplitFirst(tail, rest, sep);
      assert s[1..] == tail + [sep] + rest;
      assert s[0] == a[0] && a[0] in a;
      assert a == [a[0]] + tail;
      assert First([tail] + Split(rest, sep)) == tail && ([tail] + Split(rest, sep))[1..] == Split(rest, sep);
    }
  }

  function Joined(parts: seq<string>): string
    requires parts != []
  {
    if |parts| == 1 then parts[0] else parts[0] + "$" + Joined(parts[1..])
  }

  lemma {:induction false} SplitJoined(parts: seq<string>)
    requires parts != [] && forall p <- parts :: '$' !in p
    ensures Split(Joined(parts), '$') == parts
  {
    if |parts| == 1 {
      SplitPlain(parts[0], '$');
    } else {
      SplitJoined(parts[1..]);
      SplitFirst(parts[0], Joined(parts[1..]), '$');
      assert parts == [parts[0]] + parts[1..];
    }
  }

  lemma NumeralHasNoDollar(n: nat)
    ensures '$' !in Numeral(n)
  {
    ValueOfNumeral(n);
    assert !IsDigit('$');
  }

  lemma EncodedHasNoDollar(b: Bytes)
    ensures '$' !in Encode(b)
  {
    CharsInAlphabet(EncodeSextets(b));
    assert !InAlphabet('$');
  }

  lemma JoinedPair(a: string, parts: seq<string>)
    requires parts != []
    ensures Joined([a] + parts) == a + "$" + Joined(parts)
  {
    assert ([a] + parts)[1..] == parts;
  }

  lemma SixJoined(a: string, b: string, c: string, d: string, e: string, f: string)
    ensures Joined([a, b, c, d, e, f]) == a + "$" + (b + "$" + (c + "$" + (d + "$" + (e + "$" + f))))
  {
    JoinedPair(e, [f]);
    JoinedPair(d, [e, f]);
    JoinedPair(c, [d, e, f]);
    JoinedPair(b, [c, d, e, f]);
    JoinedPair(a, [b, c, d, e, f]);
    assert [a, b, c, d, e, f] == [a] + [b, c, d, e, f] && [b, c, d, e, f] == [b] + [c, d, e, f];
    assert [c, d, e, f] == [c] + [d, e, f] && [d, e, f] == [d] + [e, f] && [e, f] == [e] + [f];
  }

  lemma PlainParts(p: Params, salt: Bytes, key: Bytes)
    ensures '$' !in "v=" + Numeral(VERSION) && '$' !in ParamText(p) && '$' !in Encode(salt) && '$' !in Encode(key)
  {
    NumeralHasNoDollar(VERSION);
    NumeralHasNoDollar(p.memory);
    NumeralHasNoDollar(p.iterations);
    NumeralHasNoDollar(p.parallelism);
    EncodedHasNoDollar(salt);
    EncodedHasNoDollar(key);
  }

  lemma PrintedIsJoined(v: string, b: string, c: string, d: string)
    ensures "$" + ("argon2id$" + ("v=" + v + "$" + (b + "$" + (c + "$" + d)))) == Joined(["", "argon2id", "v=" + v, b, c, d])
  {
    SixJoined("", "argon2id", "v=" + v, b, c, d);
    assert "" + "$" == "$" && "argon2id" + "$" == "argon2id$";
  }

  lemma PrintedParts(p: Params, salt: Bytes, key: Bytes)
    ensures Split(Printed(p, salt, key), '$')
         == ["", "argon2id", "v=" + Numeral(VERSION), ParamText(p), Encode(salt), Encode(key)]
  {
    PlainParts(p, salt, key);
    PrintedIsJoined(Numeral(VERSION), ParamText(p), Encode(salt), Encode(key));
    SplitJoined(["", "argon2id", "v=" + Numeral(VERSION), ParamText(p), Encode(salt), Encode(key)]);
  }

  // ---------------------------------------------------------------- scanning what was printed

  lemma ScanPrinted(lit: string, n: nat, limit: nat, rest: string)
    requires n < limit && (rest == "" || !IsDigit(rest[0]))
    ensures ScanField(lit + Numeral(n) + rest, lit, limit) == Some((n, rest))
  {
    ValueOfNumeral(n);
    var s, t := lit + Numeral(n) + rest, Numeral(n) + rest;
    assert s[..|lit|] == lit && s[|lit|..] == t;
    assert IsDigit(t[0]) by { assert t[0] == Numeral(n)[0]; }
    assert SkipSpace(t) == Some(t);
    RunOver(Numeral(n), rest);
    assert t[..|Numeral(n)|] == Numeral(n) && t[|Numeral(n)|..] == rest;
  }

  lemma ParamsBack(p: Params)
    requires InRange(p)
    ensures ScanParams(ParamText(p)) == Some((p.memory, p.iterations, p.parallelism))
  {
    var s2 := ",p=" + Numeral(p.parallelism);
    var s1 := ",t=" + Numeral(p.iterations) + s2;
    ScanPrinted("m=", p.memory, MAX_UINT32, s1);
    ScanPrinted(",t=", p.iterations, MAX_UINT32, s2);
    assert s2 == ",p=" + Numeral(p.parallelism) + "";
    ScanPrinted(",p=", p.parallelism, MAX_UINT8, "");
  }

  lemma VersionBack()
    ensures ScanVersion("v=" + Numeral(VERSION)) == Some(VERSION)
  {
    var t := Numeral(VERSION);
    ValueOfNumeral(VERSION);
    assert ("v=" + t)[..2] == "v=" && ("v=" + t)[2..] == t;
    assert IsDigit(t[0]);
    RunOver(t, "");
    assert t + "" == t && t[..|t|] == t;
  }

  lemma BytesBack(p: Params, salt: Bytes, key: Bytes)
    requires |salt| == p.saltLength && |key| == p.keyLength
    ensures DecodeBytes(p.memory, p.iterations, p.parallelism, Encode(salt), Encode(key))
         == if 1 <= |salt| <= 1024 && 1 <= |key| <= 1024 then Ok(Decoded(p, salt, key)) else Err(InvalidHash)
  {
    RoundTrip(salt);
    RoundTrip(key);
  }

  /** What the decoder makes of six fields. */
  lemma DecodeFields(encoded: string, parts: seq<string>, m: nat, t: nat, p: nat)
    requires Split(encoded, '$') == parts && |parts| == 6 && parts[1] == "argon2id"
    requires ScanVersion(parts[2]) == Some(VERSION) && ScanParams(parts[3]) == Some((m, t, p))
    ensures DecodeHash(encoded) == DecodeBytes(m, t, p, parts[4], parts[5])
  {
  }

  lemma DecodeParts(encoded: string, parts: seq<string>, p: Params, salt: Bytes, key: Bytes)
    requires |salt| == p.saltLength && |key| == p.keyLength
    requires Split(encoded, '$') == parts && |parts| == 6 && parts[1] == "argon2id"
    requires ScanVersion(parts[2]) == Some(VERSION) && ScanParams(parts[3]) == Some((p.memory, p.iterations, p.parallelism))
    requires parts[4] == Encode(salt) && parts[5] == Encode(key)
    ensures DecodeHash(encoded) == if 1 <= |salt| <= 1024 && 1 <= |key| <= 1024 then Ok(Decoded(p, salt, key)) else Err(InvalidHash)
  {
    DecodeFields(encoded, parts, p.memory, p.iterations, p.parallelism);
    BytesBack(p, salt, key);
  }

  lemma FieldsBack(parts: seq<string>, p: Params, salt: string, key: string)
    requires InRange(p) && parts == ["", "argon2id", "v=" + Numeral(VERSION), ParamText(p), salt, key]
    ensures ScanVersion(parts[2]) == Some(VERSION) && ScanParams(parts[3]) == Some((p.memory, p.iterations, p.parallelism))
  {
    VersionBack();
    ParamsBack(p);
  }

  /**
    The printed string decodes exactly when salt and key have 1 to 1024 bytes, and then to the very
    parameters, salt and key.
  */
  lemma DecodePrinted(p: Params, salt: Bytes, key: Bytes)
    requires InRange(p) && |salt| == p.saltLength && |key| == p.keyLength
    ensures DecodeHash(Printed(p, salt, key))
         == if 1 <= |salt| <= 1024 && 1 <= |key| <= 1024 then Ok(Decoded(p, salt, key)) else Err(InvalidHash)
  {
    var encoded := Printed(p, salt, key);
    var parts := Split(encoded, '$');
    PrintedParts(p, salt, key);
    FieldsBack(parts, p, Encode(salt), Encode(key));
    DecodeParts(encoded, parts, p, salt, key);
  }

  // ---------------------------------------------------------------- verification

  /** Against the hash of `password`, exactly the passwords with the same derived key verify. */
  lemma VerifiesExactlyTheSameKey(password: string, guess: string, p: Params, salt: Bytes, idKey: Kdf)
    requires InRange(p) && FillsKeys(idKey) && |salt| == p.saltLength
    requires 1 <= p.saltLength <= 1024 && 1 <= p.keyLength <= 1024 && password != "" && guess != ""
    ensures VerifyPassword(HashPasswordWithParams(password, p, salt, idKey).value, guess, idKey)
         == if idKey(guess, salt, p) == idKey(password, salt, p) then Ok(Verdict(true, WeakerThan(p, DEFAULT_PARAMS)))
            else Ok(Verdict(false, false))
  {
    DecodePrinted(p, salt, idKey(password, salt, p));
  }

  /** A password verifies against its own hash; one hashed with the default parameters never asks for a rehash. */
  lemma OwnHashVerifies(password: string, salt: Bytes, idKey: Kdf)
    requires FillsKeys(idKey) && |salt| == DEFAULT_PARAMS.saltLength && password != ""
    ensures VerifyPassword(HashPasswordWithParams(password, DEFAULT_PARAMS, salt, idKey).value, password, idKey)
         == Ok(Verdict(true, false))
  {
    VerifiesExactlyTheSameKey(password, password, DEFAULT_PARAMS, salt, idKey);
  }

  /** Whatever decodes is within the field widths and the size limits, and is the same when printed and decoded again. */
  lemma DecodedIsStable(encoded: string, d: Decoded)
    requires DecodeHash(encoded) == Ok(d)
    ensures InRange(d.params) && 1 <= |d.salt| <= 1024 && 1 <= |d.hash| <= 1024
    ensures DecodeHash(Printed(d.params, d.salt, d.hash)) == Ok(d)
  {
    DecodePrinted(d.params, d.salt, d.hash);
  }

  /** A password that verifies asks for a rehash exactly when a parameter is below 64 MiB, 3 passes, 4 lanes or 32 bytes. */
  lemma RehashesExactly(encoded: string, password: string, idKey: Kdf, v: Verdict)
    requires VerifyPassword(encoded, password, idKey) == Ok(v)
    ensures var p := DecodeHash(encoded).value.params;
      v.needsRehash <==> v.ok && (p.memory < 65_536 || p.iterations < 3 || p.parallelism < 4 || p.keyLength < 32)
  {
  }
}
