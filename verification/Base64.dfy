/** Unpadded standard base64: section 4 of RFC 4648, without padding as section 3.2 allows. */
module Base64 {
  import opened Prelude

  type Byte = x: nat | x < 256

  /** The alphabet, from index to character. */
  function Symbol(i: nat): char
    requires i < 64
  {
    if i < 26 then 'A' + i as char
    else if i < 52 then 'a' + (i - 26) as char
    else if i < 62 then '0' + (i - 52) as char
    else if i == 62 then '+' else '/'
  }

  predicate IsSymbol(c: char) {
    'A' <= c <= 'Z' || 'a' <= c <= 'z' || '0' <= c <= '9' || c == '+' || c == '/'
  }

  function Index(c: char): (i: nat)
    requires IsSymbol(c)
    ensures i < 64 && Symbol(i) == c
  {
    if 'A' <= c <= 'Z' then (c - 'A') as nat
    else if 'a' <= c <= 'z' then (c - 'a') as nat + 26
    else if '0' <= c <= '9' then (c - '0') as nat + 52
    else if c == '+' then 62 else 63
  }

  lemma SymbolRoundTrip(i: nat)
    requires i < 64
    ensures IsSymbol(Symbol(i)) && Index(Symbol(i)) == i
  {
  }

  type Sextet = x: nat | x < 64

  /** Three bytes give four six-bit numbers; a rest of one or two bytes gives two or three. */
  function Group(b: seq<Byte>): seq<Sextet> {
    if b == [] then []
    else if |b| == 1 then [b[0] / 4, b[0] % 4 * 16]
    else if |b| == 2 then [b[0] / 4, b[0] % 4 * 16 + b[1] / 16, b[1] % 16 * 4]
    else [b[0] / 4, b[0] % 4 * 16 + b[1] / 16, b[1] % 16 * 4 + b[2] / 64, b[2] % 64] + Group(b[3..])
  }

  /** The bytes of a sequence of six-bit numbers: one left over is an error, the spare bits of
      a short last group are ignored. */
  function Ungroup(x: seq<Sextet>): Option<seq<Byte>> {
    if x == [] then Some([])
    else if |x| == 1 then None
    else if |x| == 2 then Some([First(x[0], x[1])])
    else if |x| == 3 then Some([First(x[0], x[1]), Second(x[1], x[2])])
    else
      match Ungroup(x[4..])
      case None => None
      case Some(rest) => Some([First(x[0], x[1]), Second(x[1], x[2]), Third(x[2], x[3])] + rest)
  }

  function First(s: nat, t: nat): Byte
    requires s < 64 && t < 64
  {
    s * 4 + t / 16
  }

  function Second(s: nat, t: nat): Byte
    requires s < 64 && t < 64
  {
    s % 16 * 16 + t / 4
  }

  function Third(s: nat, t: nat): Byte
    requires s < 64 && t < 64
  {
    s % 4 * 64 + t
  }

  function Symbols(x: seq<Sextet>): string {
    if x == [] then "" else [Symbol(x[0])] + Symbols(x[1..])
  }

  predicate IsLineBreak(c: char) { c == '\r' || c == '\n' }

  /** The indices of the symbols of a string. Line breaks are skipped, as Go's decoder does;
      any other character is an error. */
  function Indices(s: string): Option<seq<Sextet>> {
    if s == [] then Some([])
    else if IsLineBreak(s[0]) then Indices(s[1..])
    else if !IsSymbol(s[0]) then None
    else
      match Indices(s[1..])
      case None => None
      case Some(rest) => Some([Index(s[0])] + rest)
  }

  function Encode(b: seq<Byte>): string {
    Symbols(Group(b))
  }

  function Decode(s: string): Option<seq<Byte>> {
    match Indices(s)
    case None => None
    case Some(x) => Ungroup(x)
  }

  lemma {:induction false} IndicesRoundTrip(x: seq<Sextet>)
    ensures Indices(Symbols(x)) == Some(x)
  {
    if x != [] {
      IndicesRoundTrip(x[1..]);
      SymbolRoundTrip(x[0]);
      assert Symbols(x)[1..] == Symbols(x[1..]);
      assert x == [x[0]] + x[1..];
    }
  }

  /** The four six-bit numbers of three bytes put the bytes together again. */
  lemma GroupArithmetic(x: Byte, y: Byte, z: Byte)
    ensures x / 4 * 4 + (x % 4 * 16 + y / 16) / 16 == x
    ensures (x % 4 * 16 + y / 16) % 16 * 16 + (y % 16 * 4 + z / 64) / 4 == y
    ensures (y % 16 * 4 + z / 64) % 4 * 64 + z % 64 == z
  {
  }

  lemma {:induction false} GroupRoundTrip(b: seq<Byte>)
    ensures Ungroup(Group(b)) == Some(b)
  {
    if |b| >= 3 {
      GroupArithmetic(b[0], b[1], b[2]);
      GroupRoundTrip(b[3..]);
      assert Group(b)[4..] == Group(b[3..]);
      assert b == [b[0], b[1], b[2]] + b[3..];
    } else if |b| == 2 {
      GroupArithmetic(b[0], b[1], 0);
      assert b == [b[0], b[1]];
    } else if |b| == 1 {
      assert b == [b[0]];
    }
  }

  /** The number three bytes stand for. */
  function OfBytes(x: nat, y: nat, z: nat): nat { (x * 256 + y) * 256 + z }

  /** The number four symbols stand for. */
  function OfSextets(x: nat, y: nat, z: nat, w: nat): nat { ((x * 64 + y) * 64 + z) * 64 + w }

  lemma TripleBits(x: Byte, y: Byte, z: Byte)
    ensures OfSextets(x / 4, x % 4 * 16 + y / 16, y % 16 * 4 + z / 64, z % 64) == OfBytes(x, y, z)
  {
  }

  /** Each three bytes become the four symbols that stand for the same 24 bits. */
  lemma {:induction false} GroupKeepsBits(b: seq<Byte>, k: nat)
    requires 3 * k + 2 < |b|
    ensures var x := Group(b);
            && 4 * k + 3 < |x|
            && OfSextets(x[4 * k], x[4 * k + 1], x[4 * k + 2], x[4 * k + 3])
               == OfBytes(b[3 * k], b[3 * k + 1], b[3 * k + 2])
  {
    if k == 0 {
      TripleBits(b[0], b[1], b[2]);
    } else {
      var rest, x := b[3..], Group(b);
      GroupKeepsBits(rest, k - 1);
      assert x[4..] == Group(rest);
      assert rest[3 * k - 3] == b[3 * k] && rest[3 * k - 2] == b[3 * k + 1] && rest[3 * k - 1] == b[3 * k + 2];
    }
  }

  /** Examples that show the alphabet and the short last groups; the first three are among the
      vectors of section 10 of RFC 4648. */
  lemma Vectors()
    ensures Encode([102]) == "Zg" && Encode([102, 111]) == "Zm8" && Encode([102, 111, 111]) == "Zm9v"
    ensures Encode([251, 255, 254]) == "+//+"
  {
    TwoSymbols(25, 32);
    assert Symbols([25, 38, 60]) == [Symbol(25)] + Symbols([38, 60]);
    TwoSymbols(38, 60);
    OneGroup(102, 111, 111);
    FourSymbols(25, 38, 61, 47);
    OneGroup(251, 255, 254);
    FourSymbols(62, 63, 63, 62);
  }

  lemma OneGroup(x: Byte, y: Byte, z: Byte)
    ensures Group([x, y, z]) == [x / 4, x % 4 * 16 + y / 16, y % 16 * 4 + z / 64, z % 64]
  {
    var b: seq<Byte> := [x, y, z];
    assert b[3..] == [] && Group(b[3..]) == [];
  }

  lemma TwoSymbols(x: Sextet, y: Sextet)
    ensures Symbols([x, y]) == [Symbol(x), Symbol(y)]
  {
    var last: seq<Sextet> := [y];
    assert [x, y][1..] == last && last[1..] == [];
    assert Symbols(last) == [Symbol(y)] + Symbols(last[1..]) == [Symbol(y)];
  }

  lemma FourSymbols(x: Sextet, y: Sextet, z: Sextet, w: Sextet)
    ensures Symbols([x, y, z, w]) == [Symbol(x), Symbol(y), Symbol(z), Symbol(w)]
  {
    assert [x, y, z, w][1..] == [y, z, w] && [y, z, w][1..] == [z, w];
    TwoSymbols(z, w);
  }

  /** Decoding recovers every byte string. */
  lemma RoundTrip(b: seq<Byte>)
    ensures Decode(Encode(b)) == Some(b)
  {
    IndicesRoundTrip(Group(b));
    GroupRoundTrip(b);
  }

  predicate AllSymbols(s: string) {
    forall i :: 0 <= i < |s| ==> IsSymbol(s[i])
  }

  lemma {:induction false} SymbolsOnly(x: seq<Sextet>)
    ensures AllSymbols(Symbols(x))
  {
    if x != [] {
      SymbolsOnly(x[1..]);
      SymbolRoundTrip(x[0]);
    }
  }

  /** The string without its line breaks. */
  function Unbroken(s: string): string {
    if s == [] then []
    else (if IsLineBreak(s[0]) then [] else [s[0]]) + Unbroken(s[1..])
  }

  lemma {:induction false} IndicesExactly(s: string)
    ensures Indices(s).Some? <==> AllSymbols(Unbroken(s))
    ensures Indices(s).Some? ==> |Indices(s).value| == |Unbroken(s)|
  {
    if s != [] {
      IndicesExactly(s[1..]);
      var u := Unbroken(s);
      if IsLineBreak(s[0]) {
        assert u == Unbroken(s[1..]);
      } else {
        assert u[0] == s[0] && u[1..] == Unbroken(s[1..]);
        assert AllSymbols(u) <==> IsSymbol(u[0]) && AllSymbols(u[1..]) by {
          assert forall i :: 0 < i < |u| ==> u[i] == u[1..][i - 1];
        }
      }
    }
  }

  lemma {:induction false} UngroupExactly(x: seq<Sextet>)
    ensures Ungroup(x).Some? <==> |x| % 4 != 1
    ensures Ungroup(x).Some? ==> |Ungroup(x).value| == |x| * 6 / 8
  {
    if |x| >= 4 {
      UngroupExactly(x[4..]);
      FourFewer(|x|, |x[4..]|);
    }
  }

  lemma FourFewer(n: nat, m: nat)
    requires n == m + 4
    ensures n % 4 == m % 4 && n * 6 / 8 == m * 6 / 8 + 3
  {
  }

  /** A string decodes if and only if, line breaks apart, it consists of symbols and does not
      leave a single one over; every six bits then count, down to whole bytes. */
  lemma DecodesExactly(s: string)
    ensures Decode(s).Some? <==> AllSymbols(Unbroken(s)) && |Unbroken(s)| % 4 != 1
    ensures Decode(s).Some? ==> |Decode(s).value| == |Unbroken(s)| * 6 / 8
  {
    IndicesExactly(s);
    if Indices(s).Some? { UngroupExactly(Indices(s).value); }
  }
}
