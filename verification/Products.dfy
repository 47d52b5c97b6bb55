/** Multiplication and Euclidean division by repetition, with the laws that counting whole sweeps and windows
    needs, and sums.  Stating them this way keeps the proofs about sweeps linear. */
module Products {

  ghost function Times(a: nat, b: nat): nat {
    if a == 0 then 0 else Times(a - 1, b) + b
  }

  ghost function Quot(x: nat, c: nat): nat
    requires c > 0
  {
    if x < c then 0 else 1 + Quot(x - c, c)
  }

  ghost function Rem(x: nat, c: nat): (i: nat)
    requires c > 0
    ensures i < c
  {
    if x < c then x else Rem(x - c, c)
  }

  lemma {:induction false} TimesIsProduct(a: nat, b: nat)
    ensures Times(a, b) == a * b
  {
    if a > 0 {
      TimesIsProduct(a - 1, b);
    }
  }

  lemma {:induction false} TimesGrows(a: nat, b: nat, c: nat)
    requires a < b
    ensures Times(a, c) + c <= Times(b, c)
    decreases b
  {
    if a < b - 1 {
      TimesGrows(a, b - 1, c);
    }
  }

  lemma {:induction false} QuotRemOf(m: nat, c: nat, i: nat)
    requires i < c
    ensures Quot(Times(m, c) + i, c) == m && Rem(Times(m, c) + i, c) == i
  {
    if m > 0 {
      QuotRemOf(m - 1, c, i);
    }
  }

  lemma {:induction false} QuotRemExact(x: nat, c: nat)
    requires c > 0
    ensures x == Times(Quot(x, c), c) + Rem(x, c)
  {
    if x >= c {
      QuotRemExact(x - c, c);
    }
  }

  lemma {:induction false} TimesAdds(a: nat, b: nat, c: nat)
    ensures Times(a + b, c) == Times(a, c) + Times(b, c)
    decreases b
  {
    if b > 0 {
      TimesAdds(a, b - 1, c);
    }
  }

  /** What the built-in operators give. */
  lemma DivModExact(x: nat, c: nat)
    requires c > 0
    ensures x / c >= 0 && x == Times(x / c, c) + x % c && x % c < c
  {
    TimesIsProduct(x / c, c);
  }

  /** They agree with the built-in operators. */
  lemma QuotRemIsDivMod(x: nat, c: nat)
    requires c > 0
    ensures Quot(x, c) == x / c && Rem(x, c) == x % c
  {
    DivModExact(x, c);
    QuotRemOf(x / c, c, x % c);
  }

  lemma QuotBelow(s: nat, c: nat, m: nat)
    requires c > 0
    ensures Quot(s, c) < m <==> s < Times(m, c)
  {
    QuotRemExact(s, c);
    if Quot(s, c) < m {
      TimesGrows(Quot(s, c), m, c);
    } else if m < Quot(s, c) {
      TimesGrows(m, Quot(s, c), c);
    }
  }

  lemma DivUnique(t: nat, c: nat, q: nat, j: nat)
    requires t == q * c + j && j < c
    ensures t / c == q && t % c == j
  {
    TimesIsProduct(q, c);
    QuotRemOf(q, c, j);
    QuotRemIsDivMod(t, c);
  }

  /** Quotient and remainder of the next number. */
  lemma DivModStep(t: nat, c: nat)
    requires c > 0
    ensures if (t + 1) % c == 0 then (t + 1) / c == t / c + 1
            else (t + 1) / c == t / c && (t + 1) % c == t % c + 1
  {
    var q, j := t / c, t % c;
    DivModExact(t, c);
    TimesIsProduct(q, c);
    if j + 1 < c {
      DivUnique(t + 1, c, q, j + 1);
    } else {
      TimesIsProduct(q + 1, c);
      DivUnique(t + 1, c, q + 1, 0);
    }
  }

  /** The last multiple of c up to t. */
  function RoundDown(t: nat, c: nat): (r: nat)
    requires c > 0
    ensures r == t - t % c
  {
    DivModExact(t, c);
    t - t % c
  }

  lemma RoundDownStep(t: nat, c: nat)
    requires c > 0
    ensures t % c == 0 ==> RoundDown(t, c) == t && (t == 0 || t >= c)
    ensures t % c != 0 ==> t > 0 && RoundDown(t, c) == RoundDown(t - 1, c) && (t >= c ==> t - 1 >= c)
  {
    if t < c {
      DivUnique(t, c, 0, t);
    }
    if t == c {
      DivUnique(t, c, 1, 0);
    }
    if t > 0 {
      DivModStep(t - 1, c);
    }
  }

  // ----- sums -----

  function Sum(y: seq<real>): real {
    if y == [] then 0.0 else y[0] + Sum(y[1..])
  }

  ghost predicate NonNegative(y: seq<real>) {
    forall i :: 0 <= i < |y| ==> y[i] >= 0.0
  }

  lemma {:induction false} SumConcat(y: seq<real>, z: seq<real>)
    ensures Sum(y + z) == Sum(y) + Sum(z)
  {
    if y == [] {
      assert y + z == z;
    } else {
      SumConcat(y[1..], z);
      assert (y + z)[1..] == y[1..] + z;
    }
  }

  lemma SumLast(y: seq<real>)
    requires y != []
    ensures Sum(y) == Sum(y[..|y| - 1]) + y[|y| - 1]
  {
    var init, last := y[..|y| - 1], [y[|y| - 1]];
    SumConcat(init, last);
    assert y == init + last && last[1..] == [];
  }

  /** n times x, added up. */
  ghost function Copies(n: nat, x: real): real {
    if n == 0 then 0.0 else Copies(n - 1, x) + x
  }

  lemma {:induction false} CopiesIsProduct(n: nat, x: real)
    ensures Copies(n, x) == n as real * x
  {
    if n > 0 {
      CopiesIsProduct(n - 1, x);
      assert n as real * x == ((n - 1) as real + 1.0) * x == (n - 1) as real * x + x;
    }
  }

  lemma {:induction false} CopiesGrow(n: nat, m: nat, x: real)
    requires n <= m && x >= 0.0
    ensures Copies(n, x) <= Copies(m, x)
  {
    if n < m {
      CopiesGrow(n, m - 1, x);
    }
  }
}
