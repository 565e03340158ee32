/**
 The encoded form of argon2id password hashes: printer, parser and password check. Argon2id
 itself is a parameter, a function of password, salt, cost parameters and key length
 (section 3.1 of RFC 9106).
 */
module PasswordHash {
  import opened Prelude
  import opened Text
  import opened Base64

  datatype Params = Params(memory: nat, iterations: nat, parallelism: nat)

  type Kdf = (seq<Byte>, seq<Byte>, Params, nat) -> seq<Byte>

  const DefaultParams := Params(65536, 3, 4)
  const KEY_LEN: nat := 32
  const VERSION: nat := 19
  const UINT32: nat := 0x1_0000_0000

  function ParamText(p: Params): string {
    "m=" + Digits(p.memory) + ",t=" + Digits(p.iterations) + ",p=" + Digits(p.parallelism)
  }

  /** An encoded hash with the given first three fields. */
  function Fields(head: string, algorithm: string, version: string, p: Params, salt: seq<Byte>, hash: seq<Byte>)
    : string
  {
    head + "$" + (algorithm + "$" + (version + "$" + (ParamText(p) + "$" + (Encode(salt) + "$" + Encode(hash)))))
  }

  function Render(p: Params, salt: seq<Byte>, hash: seq<Byte>): string {
    Fields("", "argon2id", "v=" + Digits(VERSION), p, salt, hash)
  }

  function HashPassword(kdf: Kdf, password: seq<Byte>, salt: seq<Byte>): string {
    Render(DefaultParams, salt, kdf(password, salt, DefaultParams, KEY_LEN))
  }

  /** What Sscanf skips before a number; a line break ends the scan with an error. */
  function SkipBlanks(s: string): string {
    if s != [] && IsSpace(s[0]) && s[0] != '\n' then SkipBlanks(s[1..]) else s
  }

  /** The longest prefix of digits. */
  function DigitPrefix(s: string): (n: nat)
    ensures n <= |s| && forall i :: 0 <= i < n ==> IsDigit(s[i])
  {
    if s == [] || !IsDigit(s[0]) then 0
    else
      var n := DigitPrefix(s[1..]);
      assert forall i :: 1 <= i < n + 1 ==> s[i] == s[1..][i - 1];
      n + 1
  }

  /** Sscanf's %d into an unsigned integer below `bound`: the value and the rest. */
  function ScanUint(s: string, bound: nat): Option<(nat, string)> {
    var t := SkipBlanks(s);
    var n := DigitPrefix(t);
    if n == 0 || Value(t[..n]) >= bound then None else Some((Value(t[..n]), t[n..]))
  }

  function ScanLiteral(s: string, literal: string): Option<string> {
    if literal <= s then Some(s[|literal|..]) else None
  }

  /** A labelled number such as `m=65536`. */
  function ScanField(s: string, literal: string, bound: nat): Option<(nat, string)> {
    match ScanLiteral(s, literal)
    case None => None
    case Some(rest) => ScanUint(rest, bound)
  }

  /** Sscanf with the format m=%d,t=%d,p=%d; input after the third number is not looked at. */
  function ScanParams(s: string): Option<Params> {
    match ScanField(s, "m=", UINT32)
    case None => None
    case Some((m, s1)) =>
      match ScanField(s1, ",t=", UINT32)
      case None => None
      case Some((t, s2)) =>
        match ScanField(s2, ",p=", 256)
        case None => None
        case Some((p, _)) => Some(Params(m, t, p))
  }

  datatype Encoded = Encoded(params: Params, salt: seq<Byte>, hash: seq<Byte>)

  /** The parsing half of Verify: six parts, of which the first three are not looked at. */
  function Parse(encoded: string): Option<Encoded> {
    var parts := Split(encoded, '$');
    if |parts| != 6 then None
    else
      match ScanParams(parts[3])
      case None => None
      case Some(params) =>
        match Decode(parts[4])
        case None => None
        case Some(salt) =>
          match Decode(parts[5])
          case None => None
          case Some(hash) => Some(Encoded(params, salt, hash))
  }

  /** `None` is the error return; the stored hash's length, as a uint32, is the key length. */
  function Verify(kdf: Kdf, password: seq<Byte>, encoded: string): Option<bool> {
    match Parse(encoded)
    case None => None
    case Some(e) => Some(kdf(password, e.salt, e.params, |e.hash| % UINT32) == e.hash)
  }

  lemma {:induction false} DigitPrefixExact(d: string, rest: string)
    requires forall i :: 0 <= i < |d| ==> IsDigit(d[i])
    requires rest == [] || !IsDigit(rest[0])
    ensures DigitPrefix(d + rest) == |d|
  {
    if d == [] {
      assert d + rest == rest;
    } else {
      assert (d + rest)[1..] == d[1..] + rest;
      DigitPrefixExact(d[1..], rest);
    }
  }

  lemma ScanDigits(n: nat, rest: string, bound: nat)
    requires rest == [] || !IsDigit(rest[0])
    ensures ScanUint(Digits(n) + rest, bound) == if n < bound then Some((n, rest)) else None
  {
    var d := Digits(n);
    assert (d + rest)[0] == d[0] && IsDigit(d[0]);
    assert SkipBlanks(d + rest) == d + rest;
    DigitPrefixExact(d, rest);
    assert (d + rest)[..|d|] == d && (d + rest)[|d|..] == rest;
    DigitsRoundTrip(n);
  }

  lemma ScanFieldDigits(literal: string, n: nat, rest: string, bound: nat)
    requires rest == [] || !IsDigit(rest[0])
    ensures ScanField(literal + Digits(n) + rest, literal, bound) == if n < bound then Some((n, rest)) else None
  {
    var s := literal + Digits(n) + rest;
    assert literal <= s && s[|literal|..] == Digits(n) + rest;
    ScanDigits(n, rest, bound);
  }

  /** The parameters fit the integers Verify scans them into. */
  predicate Fits(p: Params) {
    p.memory < UINT32 && p.iterations < UINT32 && p.parallelism < 256
  }

  lemma ScanParamText(p: Params)
    ensures ScanParams(ParamText(p)) == if Fits(p) then Some(p) else None
  {
    var s2 := ",p=" + Digits(p.parallelism);
    var s1 := ",t=" + Digits(p.iterations) + s2;
    assert ParamText(p) == "m=" + Digits(p.memory) + s1;
    assert s2 == ",p=" + Digits(p.parallelism) + "";
    ScanFieldDigits("m=", p.memory, s1, UINT32);
    ScanFieldDigits(",t=", p.iterations, s2, UINT32);
    ScanFieldDigits(",p=", p.parallelism, "", 256);
  }

  lemma NoDollarInDigits(n: nat)
    ensures '$' !in Digits(n)
  {
    assert forall c :: c in Digits(n) ==> IsDigit(c);
  }

  lemma NoDollarInParams(p: Params)
    ensures '$' !in ParamText(p)
  {
    NoDollarInDigits(p.memory);
    NoDollarInDigits(p.iterations);
    NoDollarInDigits(p.parallelism);
  }

  lemma NoDollarInBase64(b: seq<Byte>)
    ensures '$' !in Encode(b)
  {
    SymbolsOnly(Group(b));
    assert forall c :: c in Encode(b) ==> IsSymbol(c);
  }

  lemma SplitFields(head: string, algorithm: string, version: string, p: Params, salt: seq<Byte>, hash: seq<Byte>)
    requires '$' !in head && '$' !in algorithm && '$' !in version
    ensures Split(Fields(head, algorithm, version, p, salt, hash), '$')
         == [head, algorithm, version, ParamText(p), Encode(salt), Encode(hash)]
  {
    NoDollarInParams(p);
    NoDollarInBase64(salt);
    NoDollarInBase64(hash);
    var f5 := Encode(hash);
    var f4 := Encode(salt) + "$" + f5;
    var f3 := ParamText(p) + "$" + f4;
    var f2 := version + "$" + f3;
    var f1 := algorithm + "$" + f2;
    SplitWhole(f5, '$');
    SplitFirst(Encode(salt), '$', f5);
    SplitFirst(ParamText(p), '$', f4);
    SplitFirst(version, '$', f3);
    SplitFirst(algorithm, '$', f2);
    SplitFirst(head, '$', f1);
  }

  /** Parsing recovers the parameters, the salt and the hash, whatever stands in the first
      three fields: the algorithm and the version are not checked. Parameters that do not fit
      are an error. */
  lemma ParseFields(head: string, algorithm: string, version: string, p: Params, salt: seq<Byte>, hash: seq<Byte>)
    requires '$' !in head && '$' !in algorithm && '$' !in version
    ensures Parse(Fields(head, algorithm, version, p, salt, hash))
         == if Fits(p) then Some(Encoded(p, salt, hash)) else None
  {
    SplitFields(head, algorithm, version, p, salt, hash);
    ScanParamText(p);
    Base64.RoundTrip(salt);
    Base64.RoundTrip(hash);
  }

  /** The round trip of the printer: six parts, the first three as the format has them, and every
      field recovered. */
  lemma ParseRendered(p: Params, salt: seq<Byte>, hash: seq<Byte>)
    ensures var parts := Split(Render(p, salt, hash), '$');
            && |parts| == 6 && parts[0] == "" && parts[1] == "argon2id" && parts[2] == "v=19"
            && Decode(parts[4]) == Some(salt) && Decode(parts[5]) == Some(hash)
    ensures Parse(Render(p, salt, hash)) == if Fits(p) then Some(Encoded(p, salt, hash)) else None
  {
    NoDollarInDigits(VERSION);
    assert Digits(19) == Digits(1) + ['9'] == "19";
    SplitFields("", "argon2id", "v=" + Digits(VERSION), p, salt, hash);
    ParseFields("", "argon2id", "v=" + Digits(VERSION), p, salt, hash);
    Base64.RoundTrip(salt);
    Base64.RoundTrip(hash);
  }

  lemma DigitsMore(n: nat, d: nat)
    requires n > 0 && d < 10
    ensures Digits(10 * n + d) == Digits(n) + [DigitChar(d)]
  {
    assert (10 * n + d) / 10 == n && (10 * n + d) % 10 == d;
  }

  /** The parameter field of every hash the service makes. */
  lemma DefaultText()
    ensures ParamText(DefaultParams) == "m=65536,t=3,p=4"
  {
    DigitsMore(6, 5);
    DigitsMore(65, 5);
    DigitsMore(655, 3);
    DigitsMore(6553, 6);
    assert Digits(65536) == "65536" && Digits(3) == "3" && Digits(4) == "4";
  }

  /** A string that unpadded base64 decodes. */
  predicate Decodable(s: string) {
    AllSymbols(Unbroken(s)) && |Unbroken(s)| % 4 != 1
  }

  predicate WellFormed(parts: seq<string>) {
    |parts| == 6 && ScanParams(parts[3]).Some? && Decodable(parts[4]) && Decodable(parts[5])
  }

  /** Verify answers with an error exactly for a string that does not have six parts, or whose
      fourth part does not scan as parameters, or whose fifth or sixth is not base64. */
  lemma VerifyErrorsExactly(kdf: Kdf, password: seq<Byte>, encoded: string)
    ensures Verify(kdf, password, encoded) == None <==> !WellFormed(Split(encoded, '$'))
  {
    var parts := Split(encoded, '$');
    if |parts| == 6 {
      DecodesExactly(parts[4]);
      DecodesExactly(parts[5]);
    }
  }

  /** The key derivation returns keys of the length asked for. */
  ghost predicate KeyLength(kdf: Kdf) {
    forall password, salt, p, n :: |kdf(password, salt, p, n)| == n
  }

  /** A password is accepted against the hash of another exactly when both derive the same key
      under its salt; in particular every password is accepted against its own hash. */
  lemma VerifyHashed(kdf: Kdf, password: seq<Byte>, stored: seq<Byte>, salt: seq<Byte>)
    requires KeyLength(kdf)
    ensures Verify(kdf, password, HashPassword(kdf, stored, salt))
         == Some(kdf(password, salt, DefaultParams, KEY_LEN) == kdf(stored, salt, DefaultParams, KEY_LEN))
    ensures Verify(kdf, stored, HashPassword(kdf, stored, salt)) == Some(true)
  {
    ParseRendered(DefaultParams, salt, kdf(stored, salt, DefaultParams, KEY_LEN));
  }
}
