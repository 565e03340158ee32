/** Names shared by every component of the authentication service. */
module Prelude {
  /** A point in time: nanoseconds since the zero value of Go's time.Time. */
  type Time = int

  /** The hex digest under which a token is stored; the plaintext never is. */
  type Hash = string

  const SECOND: int := 1_000_000_000
  const MILLISECOND: int := 1_000_000

  datatype Option<+T> = None | Some(value: T)

  /** The gRPC status codes the operations answer with. */
  datatype Code = OK | InvalidArgument | AlreadyExists | Unauthenticated | NotFound | ResourceExhausted | Internal

  /** Go's conversion of a length to int32: the low 32 bits, read as two's complement. */
  function Int32(n: nat): int {
    var low := n % 0x1_0000_0000;
    if low < 0x8000_0000 then low else low - 0x1_0000_0000
  }

  lemma Int32Exact(n: nat)
    requires n < 0x8000_0000
    ensures Int32(n) == n
  {
  }

  /** `xs` lists every element of `s` once, in some order. */
  ghost predicate Enumerates<T>(xs: seq<T>, s: set<T>) {
    multiset(xs) == multiset(s)
  }

  lemma EnumerationFacts<T>(xs: seq<T>, s: set<T>)
    requires Enumerates(xs, s)
    ensures |xs| == |s| && (set x | x in xs) == s
    ensures forall i, j :: 0 <= i < j < |xs| ==> xs[i] != xs[j]
  {
    assert |xs| == |multiset(xs)| == |multiset(s)|;
    forall x ensures x in xs <==> x in s {
      assert x in xs <==> x in multiset(xs);
    }
    forall i, j | 0 <= i < j < |xs| ensures xs[i] != xs[j] {
      var x := xs[i];
      assert xs == xs[..i] + [x] + xs[i + 1..];
      assert multiset(xs) == multiset(xs[..i]) + multiset{x} + multiset(xs[i + 1..]);
      assert multiset(s)[x] == 1;
      assert x !in multiset(xs[i + 1..]);
      assert xs[j] == xs[i + 1..][j - i - 1];
    }
  }
}
