/** Three-way comparisons and their lexicographic lifting. */
module Orders {

  /** A comparison answering -1, 0 or 1 that orders everything, ties allowed. */
  ghost predicate TotalPreorder<T(!new)>(cmp: (T, T) -> int) {
    && (forall x, y :: -1 <= cmp(x, y) <= 1)
    && (forall x, y :: cmp(x, y) == -cmp(y, x))
    && (forall x, y, z :: cmp(x, y) <= 0 && cmp(y, z) <= 0 ==> cmp(x, z) <= 0)
  }

  function Sign(x: int, y: int): int {
    if x == y then 0 else if x > y then 1 else -1
  }

  /** The first difference decides; a proper prefix comes first. */
  function Lex<T>(cmp: (T, T) -> int, a: seq<T>, b: seq<T>): int {
    if a == [] then (if b == [] then 0 else -1)
    else if b == [] then 1
    else if cmp(a[0], b[0]) != 0 then cmp(a[0], b[0])
    else Lex(cmp, a[1..], b[1..])
  }

  lemma {:induction false} LexAntisymmetric<T(!new)>(cmp: (T, T) -> int, a: seq<T>, b: seq<T>)
    requires TotalPreorder(cmp)
    ensures -1 <= Lex(cmp, a, b) <= 1 && Lex(cmp, a, b) == -Lex(cmp, b, a)
  {
    if a != [] && b != [] && cmp(a[0], b[0]) == 0 {
      assert cmp(b[0], a[0]) == 0;
      LexAntisymmetric(cmp, a[1..], b[1..]);
    }
  }

  lemma {:induction false} LexTransitive<T(!new)>(cmp: (T, T) -> int, a: seq<T>, b: seq<T>, c: seq<T>)
    requires TotalPreorder(cmp)
    requires Lex(cmp, a, b) <= 0 && Lex(cmp, b, c) <= 0
    ensures Lex(cmp, a, c) <= 0
  {
    if a != [] && b != [] && c != [] {
      assert cmp(a[0], b[0]) <= 0 && cmp(b[0], c[0]) <= 0;
      if cmp(a[0], c[0]) == 0 {
        assert cmp(c[0], a[0]) <= 0;
        assert cmp(b[0], a[0]) <= 0 && cmp(c[0], b[0]) <= 0;
        LexTransitive(cmp, a[1..], b[1..], c[1..]);
      }
    }
  }

  lemma LexIsTotalPreorder<T(!new)>(cmp: (T, T) -> int)
    requires TotalPreorder(cmp)
    ensures TotalPreorder((a, b) => Lex(cmp, a, b))
  {
    forall a, b ensures -1 <= Lex(cmp, a, b) <= 1 && Lex(cmp, a, b) == -Lex(cmp, b, a) {
      LexAntisymmetric(cmp, a, b);
    }
    forall a, b, c | Lex(cmp, a, b) <= 0 && Lex(cmp, b, c) <= 0 ensures Lex(cmp, a, c) <= 0 {
      LexTransitive(cmp, a, b, c);
    }
  }

  /** `a` and `b` agree before `k`, and at `k` either `a` ends first or has the smaller element. */
  ghost predicate FirstDifference<T(!new)>(less: (T, T) -> bool, a: seq<T>, b: seq<T>, k: nat) {
    && k <= |a| && k < |b| && a[..k] == b[..k]
    && (k == |a| || less(a[k], b[k]))
  }

  /** When ties are equalities, the comparison is negative exactly at a first difference. */
  lemma {:induction false} LexMeans<T(!new)>(cmp: (T, T) -> int, less: (T, T) -> bool, a: seq<T>, b: seq<T>)
    requires forall x, y :: x in a && y in b ==> (cmp(x, y) == 0 <==> x == y) && (cmp(x, y) < 0 <==> less(x, y))
    ensures Lex(cmp, a, b) == 0 <==> a == b
    ensures Lex(cmp, a, b) < 0 <==> exists k: nat :: FirstDifference(less, a, b, k)
  {
    if a == [] || b == [] {
      if b != [] { assert FirstDifference(less, a, b, 0); }
    } else {
      LexMeans(cmp, less, a[1..], b[1..]);
      assert a == [a[0]] + a[1..] && b == [b[0]] + b[1..];
      forall k: nat | k > 0 && FirstDifference(less, a, b, k) ensures a[0] == b[0] {
        assert a[..k][0] == b[..k][0];
      }
      if a[0] == b[0] {
        if k: nat :| FirstDifference(less, a[1..], b[1..], k) {
          assert a[..k + 1] == [a[0]] + a[1..][..k] && b[..k + 1] == [b[0]] + b[1..][..k];
          assert FirstDifference(less, a, b, k + 1);
        }
        if k: nat :| FirstDifference(less, a, b, k) {
          assert cmp(a[0], b[0]) == 0 && k != 0;
          assert a[1..][..k - 1] == a[..k][1..] && b[1..][..k - 1] == b[..k][1..];
          assert FirstDifference(less, a[1..], b[1..], k - 1);
        }
      } else {
        if less(a[0], b[0]) { assert FirstDifference(less, a, b, 0); }
      }
    }
  }
}
