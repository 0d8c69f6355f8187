/** Remainders by a positive, unknown modulus. */
module Modular {

  lemma {:induction false} AtLeastOne(d: nat, c: nat)
    requires d >= 1
    ensures d * c >= c
  {
    if d > 1 {
      AtLeastOne(d - 1, c);
      assert d * c == (d - 1) * c + c;
    }
  }

  /** Distinct multiples of c are at least c apart. */
  lemma Gap(a: nat, b: nat, c: nat)
    requires a < b
    ensures a * c + c <= b * c
  {
    AtLeastOne(b - a, c);
    assert b * c == a * c + (b - a) * c;
  }

  lemma ModUnique(a: nat, c: nat, q: nat, r: nat)
    requires r < c && a == q * c + r
    ensures a % c == r && a / c == q
  {
    if a / c < q {
      Gap(a / c, q, c);
    } else if q < a / c {
      Gap(q, a / c, c);
    }
  }

  lemma ModNext(a: nat, c: nat)
    requires c >= 1
    ensures (a % c + 1) % c == (a + 1) % c
  {
    ModAdd(a, 1, c);
  }

  lemma ModAdd(a: nat, b: nat, c: nat)
    requires c >= 1
    ensures (a % c + b) % c == (a + b) % c
  {
    var q, r := (a % c + b) / c, (a % c + b) % c;
    assert (a / c + q) * c == (a / c) * c + q * c;
    ModUnique(a + b, c, a / c + q, r);
  }

  predicate Multiple(n: nat, c: nat)
    requires c >= 1
  {
    n % c == 0
  }

  lemma MultipleDrop(n: nat, c: nat)
    requires 1 <= c <= n
    ensures Multiple(n - c, c) == Multiple(n, c)
  {
    ModUnique(n, c, (n - c) / c + 1, (n - c) % c);
  }

  lemma MultipleSmall(n: nat, c: nat)
    requires n < c
    ensures Multiple(n, c) <==> n == 0
  {
    ModUnique(n, c, 0, n);
  }

  lemma ModDistinct(k: nat, n: nat, c: nat)
    requires k < n < k + c
    ensures k % c != n % c
  {
    if k / c < n / c {
      Gap(k / c, n / c, c);
    } else if n / c < k / c {
      Gap(n / c, k / c, c);
    }
  }

  /** The remainder of an index less than one lap past the end. */
  function Wrap(i: nat, c: nat): nat { if i < c then i else i - c }

  lemma WrapIsMod(i: nat, c: nat)
    requires i < 2 * c
    ensures i % c == Wrap(i, c)
  {
    ModUnique(i, c, if i < c then 0 else 1, Wrap(i, c));
  }
}
