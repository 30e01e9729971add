/** Comparators that try one criterion after another, as comparisons of integer keys. */
module LexOrder {
  /** The first result unless it is a tie. */
  function OrElse(first: int, next: int): int { if first != 0 then first else next }

  function CompareKeys(a: seq<int>, b: seq<int>): int
    requires |a| == |b|
  {
    if a == [] then 0 else OrElse(a[0] - b[0], CompareKeys(a[1..], b[1..]))
  }

  lemma {:induction false} KeysAntisymmetric(a: seq<int>, b: seq<int>)
    requires |a| == |b|
    ensures CompareKeys(a, b) == -CompareKeys(b, a)
    ensures CompareKeys(a, b) == 0 <==> a == b
  {
    if a != [] {
      KeysAntisymmetric(a[1..], b[1..]);
      assert a == [a[0]] + a[1..] && b == [b[0]] + b[1..];
    }
  }

  lemma {:induction false} KeysTransitive(a: seq<int>, b: seq<int>, c: seq<int>)
    requires |a| == |b| == |c|
    requires CompareKeys(a, b) < 0 && CompareKeys(b, c) < 0
    ensures CompareKeys(a, c) < 0
  {
    if a[0] == b[0] && b[0] == c[0] {
      KeysTransitive(a[1..], b[1..], c[1..]);
    }
  }
}
