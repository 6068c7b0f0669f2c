/** Orderings used to sort what the application displays or returns:
    total preorders, lexicographic order on sequences, and string order by
    code point. */
module Orders {

  ghost predicate Total<T(!new)>(leq: (T, T) -> bool) {
    forall a, b :: leq(a, b) || leq(b, a)
  }

  ghost predicate Transitive<T(!new)>(leq: (T, T) -> bool) {
    forall a, b, c :: leq(a, b) && leq(b, c) ==> leq(a, c)
  }

  ghost predicate Antisymmetric<T(!new)>(leq: (T, T) -> bool) {
    forall a, b :: leq(a, b) && leq(b, a) ==> a == b
  }

  /** What a sort key comparison must be for sorting to be meaningful. */
  ghost predicate TotalPreorder<T(!new)>(leq: (T, T) -> bool) {
    Total(leq) && Transitive(leq)
  }

  ghost predicate TotalOrder<T(!new)>(leq: (T, T) -> bool) {
    TotalPreorder(leq) && Antisymmetric(leq)
  }

  /** Lexicographic order: a proper prefix comes first, otherwise the first
      differing element decides. */
  function LexLeq<T(==)>(xs: seq<T>, ys: seq<T>, leq: (T, T) -> bool): bool {
    if xs == [] then true
    else if ys == [] then false
    else if xs[0] != ys[0] then leq(xs[0], ys[0])
    else LexLeq(xs[1..], ys[1..], leq)
  }

  lemma {:induction false} LexTotal<T(!new)>(xs: seq<T>, ys: seq<T>, leq: (T, T) -> bool)
    requires Total(leq)
    ensures LexLeq(xs, ys, leq) || LexLeq(ys, xs, leq)
  {
    if xs != [] && ys != [] && xs[0] == ys[0] {
      LexTotal(xs[1..], ys[1..], leq);
    }
  }

  lemma {:induction false} LexAntisymmetric<T(!new)>(xs: seq<T>, ys: seq<T>, leq: (T, T) -> bool)
    requires Antisymmetric(leq)
    requires LexLeq(xs, ys, leq) && LexLeq(ys, xs, leq)
    ensures xs == ys
  {
    if xs != [] && ys != [] && xs[0] == ys[0] {
      LexAntisymmetric(xs[1..], ys[1..], leq);
      assert xs == [xs[0]] + xs[1..] && ys == [ys[0]] + ys[1..];
    }
  }

  lemma {:induction false} LexTransitive<T(!new)>(xs: seq<T>, ys: seq<T>, zs: seq<T>, leq: (T, T) -> bool)
    requires TotalOrder(leq)
    requires LexLeq(xs, ys, leq) && LexLeq(ys, zs, leq)
    ensures LexLeq(xs, zs, leq)
  {
    if xs != [] && ys != [] && zs != [] && xs[0] == ys[0] && ys[0] == zs[0] {
      LexTransitive(xs[1..], ys[1..], zs[1..], leq);
    }
  }

  function CharLeq(a: char, b: char): bool {
    a <= b
  }

  /** String order by code point, as JavaScript's default `sort()` and
      MongoDB's binary string comparison both order these keys. */
  function StrLeq(a: string, b: string): bool {
    LexLeq(a, b, CharLeq)
  }

  lemma StrLeqTotalOrder()
    ensures TotalOrder(StrLeq)
  {
    assert TotalOrder(CharLeq);
    forall a: string, b: string ensures StrLeq(a, b) || StrLeq(b, a) {
      LexTotal(a, b, CharLeq);
    }
    forall a: string, b: string | StrLeq(a, b) && StrLeq(b, a) ensures a == b {
      LexAntisymmetric(a, b, CharLeq);
    }
    forall a: string, b: string, c: string | StrLeq(a, b) && StrLeq(b, c) ensures StrLeq(a, c) {
      LexTransitive(a, b, c, CharLeq);
    }
  }
}
