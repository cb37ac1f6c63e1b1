/** The benchmark's pairwise sign test (anti-bench main.rs), over exact reals. */
module SignTest {
  // ---- Counting ----------------------------------------------------------

  /** Pascal's triangle. */
  function Choose(n: nat, i: nat): nat {
    if i == 0 then 1
    else if n == 0 then 0
    else Choose(n - 1, i - 1) + Choose(n - 1, i)
  }

  /** n (n - 1) ... (n - i + 1). */
  function Falling(n: nat, i: nat): nat
    requires i <= n + 1
  {
    if i == 0 then 1
    else
      var f, k: nat := Falling(n, i - 1), n - (i - 1);
      NonNegative(f, k);
      f * k
  }

  lemma NonNegative(a: nat, b: nat)
    ensures a * b >= 0
  {
  }

  function Pow2(n: nat): (r: nat)
    ensures r >= 1
  {
    if n == 0 then 1 else 2 * Pow2(n - 1)
  }

  lemma {:induction false} ChooseAbove(n: nat, i: nat)
    requires i > n
    ensures Choose(n, i) == 0
  {
    if n > 0 {
      ChooseAbove(n - 1, i - 1);
      ChooseAbove(n - 1, i);
    }
  }

  lemma {:induction false} ChooseSelf(n: nat)
    ensures Choose(n, n) == 1
  {
    if n > 0 {
      ChooseSelf(n - 1);
      ChooseAbove(n - 1, n);
    }
  }

  lemma {:induction false} ChooseSymmetric(n: nat, i: nat)
    requires i <= n
    ensures Choose(n, i) == Choose(n, n - i)
  {
    if i == 0 || i == n {
      ChooseSelf(n);
    } else {
      ChooseSymmetric(n - 1, i - 1);
      ChooseSymmetric(n - 1, i);
    }
  }

  /** i C(n, i) = n C(n - 1, i - 1). */
  lemma {:induction false} Absorption(n: nat, i: nat)
    requires n >= 1 && i >= 1
    ensures i * Choose(n, i) == n * Choose(n - 1, i - 1)
  {
    if n == 1 {
      if i > 1 {
        ChooseAbove(1, i);
        ChooseAbove(0, i - 1);
      }
    } else if i == 1 {
      Absorption(n - 1, 1);
    } else {
      Absorption(n - 1, i);
      Absorption(n - 1, i - 1);
      AbsorptionArithmetic(n, i, Choose(n - 1, i - 1), Choose(n - 1, i), Choose(n - 2, i - 1), Choose(n - 2, i - 2));
    }
  }

  lemma Distribute(x: int, y: int, z: int)
    ensures x * (y + z) == x * y + x * z
  {
  }

  lemma Associate(x: int, y: int, z: int)
    ensures x * (y * z) == (x * y) * z
  {
  }

  lemma AbsorptionArithmetic(n: int, i: int, a: int, b: int, c: int, d: int)
    requires i * b == (n - 1) * c && (i - 1) * a == (n - 1) * d && a == d + c
    ensures i * (a + b) == n * a
  {
    Distribute(i, a, b);
    Distribute(n - 1, d, c);
    Distribute(a, i - 1, 1);
    Distribute(a, n - 1, 1);
  }

  /** Falling factorials can be taken apart at the front too. */
  lemma {:induction false} FallingFront(n: nat, i: nat)
    requires 1 <= i <= n + 1 && n >= 1
    ensures Falling(n, i) == n * Falling(n - 1, i - 1)
  {
    if i > 1 {
      FallingFront(n, i - 1);
      Associate(n, Falling(n - 1, i - 2), n - (i - 1));
    } else {
      assert Falling(n, 0) == 1;
    }
  }

  /** The falling factorial is C(n, i) times i!. */
  lemma {:induction false} FallingIsChoose(n: nat, i: nat)
    requires i <= n + 1
    ensures Falling(n, i) == Choose(n, i) * Falling(i, i)
  {
    if i > 0 && n > 0 {
      FallingIsChoose(n - 1, i - 1);
      Absorption(n, i);
      FallingFront(n, i);
      FallingFront(i, i);
      FactorArithmetic(n, i, Choose(n - 1, i - 1), Choose(n, i), Falling(i - 1, i - 1));
    } else if i > 0 {
      assert Falling(0, 1) == Falling(0, 0) * 0;
    }
  }

  lemma FactorArithmetic(n: int, i: int, c: int, d: int, f: int)
    requires i * d == n * c
    ensures n * (c * f) == d * (i * f)
  {
    Associate(n, c, f);
    Associate(i, d, f);
    Associate(d, i, f);
  }

  lemma {:induction false} FallingSelfPositive(i: nat)
    ensures Falling(i, i) >= 1
  {
    if i > 0 {
      FallingSelfPositive(i - 1);
      FallingFront(i, i);
      assert i * Falling(i - 1, i - 1) >= 1;
    }
  }

  // ---- Tails -------------------------------------------------------------

  /** C(n, lo) + ... + C(n, hi - 1). */
  function Sum(n: nat, lo: nat, hi: nat): nat
    requires lo <= hi
  {
    if lo == hi then 0 else Sum(n, lo, hi - 1) + Choose(n, hi - 1)
  }

  lemma {:induction false} SumSplit(n: nat, lo: nat, mid: nat, hi: nat)
    requires lo <= mid <= hi
    ensures Sum(n, lo, hi) == Sum(n, lo, mid) + Sum(n, mid, hi)
  {
    if mid < hi {
      SumSplit(n, lo, mid, hi - 1);
    }
  }

  /** A row of the triangle is twice the row above. */
  lemma {:induction false} SumPascal(n: nat, hi: nat)
    requires n >= 1 && hi >= 1
    ensures Sum(n, 0, hi) == Sum(n - 1, 0, hi) + Sum(n - 1, 0, hi - 1)
  {
    if hi > 1 {
      SumPascal(n, hi - 1);
    }
  }

  lemma {:induction false} RowSum(n: nat)
    ensures Sum(n, 0, n + 1) == Pow2(n)
  {
    if n == 0 {
      assert Sum(0, 0, 1) == Sum(0, 0, 0) + Choose(0, 0);
    } else {
      RowSum(n - 1);
      SumPascal(n, n + 1);
      ChooseAbove(n - 1, n);
    }
  }

  /** The upper tail mirrors the lower one. */
  lemma {:induction false} TailSymmetric(n: nat, k: nat)
    requires k <= n + 1
    ensures Sum(n, n + 1 - k, n + 1) == Sum(n, 0, k)
  {
    if k > 0 {
      TailSymmetric(n, k - 1);
      SumSplit(n, n + 1 - k, n + 2 - k, n + 1);
      assert Sum(n, n + 1 - k, n + 2 - k) == Choose(n, n + 1 - k);
      ChooseSymmetric(n, k - 1);
    }
  }

  /** P(X <= k) for X ~ Binomial(n, 1/2), by its definition. */
  function Below(n: nat, k: nat): real {
    Sum(n, 0, k + 1) as real / Pow2(n) as real
  }

  lemma FullTail(n: nat)
    ensures Below(n, n) == 1.0
  {
    RowSum(n);
    RealAtMostOne(Sum(n, 0, n + 1), Pow2(n));
  }

  /** P(X >= k). */
  function Above(n: nat, k: nat): real
    requires k <= n + 1
  {
    Sum(n, k, n + 1) as real / Pow2(n) as real
  }

  // ---- The loops of binomial_tail ----------------------------------------

  /** The number 1 / 2^n. */
  function HalfOf(n: nat): (h: real)
    ensures h * Pow2(n) as real == 1.0
  {
    1.0 / Pow2(n) as real
  }

  /** 0.5 to the power n. */
  method HalfPower(n: nat) returns (h: real)
    ensures h == HalfOf(n)
  {
    h := 1.0;
    for i := 0 to n
      invariant h * Pow2(i) as real == 1.0
    {
      HalveDouble(h, Pow2(i) as real);
      h := h * 0.5;
    }
    CancelFactor(h, Pow2(n) as real, HalfOf(n));
  }

  lemma HalveDouble(h: real, p: real)
    ensures (h * 0.5) * (2.0 * p) == h * p
  {
  }

  lemma RatioStep(c: real, num: real, den: real, f: real, g: real)
    requires c * f == g && den != 0.0
    ensures (c * (num / den)) * (f * den) == g * num
  {
    assert (num / den) * den == num;
    assert (c * (num / den)) * (f * den) == (c * f) * ((num / den) * den);
  }

  lemma {:induction false} CastProduct(a: nat, b: nat)
    ensures (a * b) as real == a as real * b as real
  {
    if a > 0 {
      CastProduct(a - 1, b);
      assert a * b == (a - 1) * b + b;
      assert a as real * b as real == (a - 1) as real * b as real + b as real;
    }
  }

  lemma CancelFactor(c: real, f: real, x: real)
    requires f != 0.0 && c * f == x * f
    ensures c == x
  {
    assert (c - x) * f == 0.0;
  }

  ghost predicate IsRatio(c: real, f: nat, g: nat) {
    c * f as real == g as real
  }

  lemma RatioAdvance(c: real, num: nat, den: nat, f: nat, g: nat, c': real, f': nat, g': nat)
    requires den >= 1 && IsRatio(c, f, g)
    requires c' == c * (num as real / den as real) && f' == f * den && g' == g * num
    ensures IsRatio(c', f', g')
  {
    CastProduct(f, den);
    CastProduct(g, num);
    RatioStep(c, num as real, den as real, f as real, g as real);
  }

  lemma QuotientIs(x: real, c: nat, f: nat, g: nat)
    requires f >= 1 && IsRatio(x, f, g) && g == c * f
    ensures x == c as real
  {
    CastProduct(c, f);
    CancelFactor(x, f as real, c as real);
  }

  /** The inner loop's product after j of its i factors. */
  function Product(total: nat, i: nat, j: nat): real
    requires j <= i <= total + 1
  {
    if j == 0 then 1.0 else Product(total, i, j - 1) * ((total - (j - 1)) as real / (i - (j - 1)) as real)
  }

  /** The product is the quotient of two falling factorials. */
  lemma {:induction false} ProductIsRatio(total: nat, i: nat, j: nat)
    requires j <= i <= total + 1
    ensures IsRatio(Product(total, i, j), Falling(i, j), Falling(total, j))
  {
    if j > 0 {
      ProductIsRatio(total, i, j - 1);
      RatioAdvance(Product(total, i, j - 1), total - (j - 1), i - (j - 1), Falling(i, j - 1), Falling(total, j - 1),
                   Product(total, i, j), Falling(i, j), Falling(total, j));
    }
  }

  /** The product of ratios comes out as C(total, i). */
  lemma ProductIsChoose(total: nat, i: nat)
    requires i <= total + 1
    ensures Product(total, i, i) == Choose(total, i) as real
  {
    ProductIsRatio(total, i, i);
    FallingIsChoose(total, i);
    FallingSelfPositive(i);
    QuotientIs(Product(total, i, i), Choose(total, i), Falling(i, i), Falling(total, i));
  }

  method BinomialCoefficient(total: nat, i: nat) returns (c: real)
    requires i <= total + 1
    ensures c == Choose(total, i) as real
  {
    c := 1.0;
    for j := 0 to i
      invariant c == Product(total, i, j)
    {
      c := c * ((total - j) as real / (i - j) as real);
    }
    ProductIsChoose(total, i);
  }

  /** The outer sum over the first hi terms. */
  function Terms(total: nat, hi: nat, half: real): real {
    if hi == 0 then 0.0 else Terms(total, hi - 1, half) + Choose(total, hi - 1) as real * half
  }

  lemma SpreadProduct(s: real, d: real, h: real, p: real)
    ensures (s + d * h) * p == s * p + d * (h * p)
  {
  }

  lemma AddTerm(s: real, t: nat, d: nat, h: real, p: real)
    requires s * p == t as real && h * p == 1.0
    ensures (s + d as real * h) * p == (t + d) as real
  {
    SpreadProduct(s, d as real, h, p);
  }

  lemma {:induction false} TermsAreSum(total: nat, hi: nat, half: real, p: real) returns (s: real, t: nat)
    requires half * p == 1.0
    ensures s == Terms(total, hi, half) && t == Sum(total, 0, hi)
    ensures s * p == t as real
  {
    if hi == 0 {
      s, t := 0.0, 0;
    } else {
      var d := Choose(total, hi - 1);
      var s0, t0 := TermsAreSum(total, hi - 1, half, p);
      s, t := s0 + d as real * half, t0 + d;
      AddTerm(s0, t0, d, half, p);
    }
  }

  lemma QuotientOf(s: real, p: real, t: real)
    requires p != 0.0 && s * p == t
    ensures s == t / p
  {
  }

  lemma TermsAreTail(total: nat, k: nat)
    ensures Terms(total, k + 1, HalfOf(total)) == Below(total, k)
  {
    var s, t := TermsAreSum(total, k + 1, HalfOf(total), Pow2(total) as real);
    QuotientOf(s, Pow2(total) as real, t as real);
  }

  /** The tail the program computes is P(X <= k). The source subtracts unsigned
      numbers, so it asks for k at most one above total. */
  method BinomialTail(total: nat, k: nat) returns (p: real)
    requires k <= total + 1
    ensures p == Below(total, k)
  {
    p := 0.0;
    for i := 0 to k + 1
      invariant p == Terms(total, i, HalfOf(total))
    {
      var c := BinomialCoefficient(total, i);
      var half := HalfPower(total);
      p := p + c * half;
    }
    TermsAreTail(total, k);
  }

  // ---- The sign test -----------------------------------------------------

  datatype Counts = Counts(plus: nat, minus: nat, ties: nat)

  function Tally(l: seq<bool>, r: seq<bool>, n: nat): Counts
    requires n <= |l| && n <= |r|
  {
    if n == 0 then Counts(0, 0, 0)
    else
      var c := Tally(l, r, n - 1);
      if l[n - 1] && !r[n - 1] then c.(plus := c.plus + 1)
      else if !l[n - 1] && r[n - 1] then c.(minus := c.minus + 1)
      else c.(ties := c.ties + 1)
  }

  /** The pairs on which the first arm alone succeeded. */
  function Alone(a: seq<bool>, b: seq<bool>, n: nat): set<nat>
    requires n <= |a| && n <= |b|
  {
    set i: nat | i < n && a[i] && !b[i]
  }

  function Agreeing(a: seq<bool>, b: seq<bool>, n: nat): set<nat>
    requires n <= |a| && n <= |b|
  {
    set i: nat | i < n && a[i] == b[i]
  }

  lemma AloneStep(a: seq<bool>, b: seq<bool>, n: nat)
    requires n < |a| && n < |b|
    ensures |Alone(a, b, n + 1)| == if a[n] && !b[n] then |Alone(a, b, n)| + 1 else |Alone(a, b, n)|
  {
    assert Alone(a, b, n + 1) == if a[n] && !b[n] then Alone(a, b, n) + {n} else Alone(a, b, n);
  }

  lemma AgreeingStep(a: seq<bool>, b: seq<bool>, n: nat)
    requires n < |a| && n < |b|
    ensures |Agreeing(a, b, n + 1)| == if a[n] == b[n] then |Agreeing(a, b, n)| + 1 else |Agreeing(a, b, n)|
  {
    assert Agreeing(a, b, n + 1) == if a[n] == b[n] then Agreeing(a, b, n) + {n} else Agreeing(a, b, n);
  }

  /** Plus counts the pairs the left arm alone won, minus those the right arm did. */
  lemma {:induction false} TallyCounts(l: seq<bool>, r: seq<bool>, n: nat)
    requires n <= |l| && n <= |r|
    ensures Tally(l, r, n) == Counts(|Alone(l, r, n)|, |Alone(r, l, n)|, |Agreeing(l, r, n)|)
  {
    if n > 0 {
      TallyCounts(l, r, n - 1);
      AloneStep(l, r, n - 1);
      AloneStep(r, l, n - 1);
      AgreeingStep(l, r, n - 1);
    }
  }

  function Min(a: nat, b: nat): nat {
    if a < b then a else b
  }

  /** The value reported for plus and minus decisive pairs. */
  function PValue(plus: nat, minus: nat): real {
    2.0 * Below(plus + minus, Min(plus, minus))
  }

  /** A pair of arms without a common run gets no line at all. */
  datatype Verdict = Skipped | AllTies | Tested(p: real, leftBetter: bool, effect: nat, significant: bool)

  method CompareArms(l: seq<bool>, r: seq<bool>) returns (c: Counts, v: Verdict)
    ensures var n := if |l| < |r| then |l| else |r|;
            c == Counts(|Alone(l, r, n)|, |Alone(r, l, n)|, |Agreeing(l, r, n)|)
    ensures v.Skipped? <==> |l| == 0 || |r| == 0
    ensures v.AllTies? <==> !v.Skipped? && c.plus + c.minus == 0
    ensures v.Tested? ==> v.p == PValue(c.plus, c.minus) && (v.leftBetter <==> c.plus > c.minus)
    ensures v.Tested? ==> v.effect as int == if c.plus > c.minus then c.plus - c.minus else c.minus - c.plus
    ensures v.Tested? ==> (v.significant <==> v.p < 0.05)
  {
    var n := Min(|l|, |r|);
    TallyCounts(l, r, n);
    c := Counts(0, 0, 0);
    if n == 0 {
      return c, Skipped;
    }
    for i := 0 to n
      invariant c == Tally(l, r, i)
    {
      if l[i] && !r[i] {
        c := c.(plus := c.plus + 1);
      } else if !l[i] && r[i] {
        c := c.(minus := c.minus + 1);
      } else {
        c := c.(ties := c.ties + 1);
      }
    }
    var total := c.plus + c.minus;
    if total == 0 {
      return c, AllTies;
    }
    var tail := BinomialTail(total, Min(c.plus, c.minus));
    var p := 2.0 * tail;
    var effect: nat := if c.plus > c.minus then c.plus - c.minus else c.minus - c.plus;
    if c.plus == c.minus {
      EvenSplit(c.plus);
    }
    v := Tested(p, c.plus > c.minus, effect, p < 0.05 && effect >= 1);
  }

  /** Every compared pair is counted once, and swapping the arms swaps the counts. */
  lemma {:induction false} TallyBalanced(l: seq<bool>, r: seq<bool>, n: nat)
    requires n <= |l| && n <= |r|
    ensures var c := Tally(l, r, n);
            && c.plus + c.minus + c.ties == n
            && Tally(r, l, n) == Counts(c.minus, c.plus, c.ties)
  {
    if n > 0 {
      TallyBalanced(l, r, n - 1);
    }
  }

  lemma Scale(x: real, p: real)
    requires p > 0.0
    ensures x * p <= 0.0 <==> x <= 0.0
    ensures x * p == 0.0 <==> x == 0.0
  {
    if x > 0.0 {
      assert x * p > 0.0;
    } else if x < 0.0 {
      assert x * p < 0.0;
    }
  }

  lemma Subtract(x: real, y: real, p: real)
    ensures (x - y) * p == x * p - y * p
  {
  }

  lemma DivideBy(x: real, y: real, p: real)
    requires p > 0.0
    ensures x / p <= y <==> x <= y * p
    ensures x / p == y <==> x == y * p
  {
    var q := x / p;
    assert q * p == x;
    Subtract(q, y, p);
    Scale(q - y, p);
  }

  lemma AddQuotients(x: real, y: real, p: real)
    requires p > 0.0
    ensures x / p + y / p == (x + y) / p
  {
    var q, r := x / p, y / p;
    assert q * p == x && r * p == y;
    Subtract(q, -r, p);
    Subtract(0.0, r, p);
    DivideBy(x + y, q + r, p);
  }

  lemma RealSum(a: nat, b: nat, p: nat)
    requires p >= 1
    ensures a as real / p as real + b as real / p as real == (a + b) as real / p as real
  {
    AddQuotients(a as real, b as real, p as real);
  }

  lemma RealAtMostOne(a: nat, p: nat)
    requires p >= 1
    ensures a as real / p as real <= 1.0 <==> a <= p
    ensures a as real / p as real == 1.0 <==> a == p
  {
    DivideBy(a as real, 1.0, p as real);
  }

  /** The two tails are equal and do not overlap. */
  lemma TailsFit(n: nat, k: nat)
    requires 2 * k < n
    ensures Sum(n, n - k, n + 1) == Sum(n, 0, k + 1)
    ensures Sum(n, 0, k + 1) + Sum(n, n - k, n + 1) <= Pow2(n)
  {
    TailSymmetric(n, k + 1);
    RowSum(n);
    SumSplit(n, 0, k + 1, n + 1);
    SumSplit(n, k + 1, n - k, n + 1);
  }

  /** With unequal counts p is P(X <= k) + P(X >= n - k), at most one. */
  lemma UnequalIsTwoSided(plus: nat, minus: nat)
    requires plus != minus
    ensures var n, k := plus + minus, Min(plus, minus);
            PValue(plus, minus) == Below(n, k) + Above(n, n - k) <= 1.0
  {
    var n, k := plus + minus, Min(plus, minus);
    TailsFit(n, k);
    assert Above(n, n - k) == Below(n, k);
    RealSum(Sum(n, 0, k + 1), Sum(n, n - k, n + 1), Pow2(n));
    RealAtMostOne(Sum(n, 0, k + 1) + Sum(n, n - k, n + 1), Pow2(n));
  }

  lemma {:induction false} ChoosePositive(n: nat, i: nat)
    requires i <= n
    ensures Choose(n, i) >= 1
  {
    if i > 0 {
      ChoosePositive(n - 1, i - 1);
    }
  }

  /** With equal counts p is 1 + C(2k, k) / 4^k, which is no probability. */
  lemma EvenSplit(k: nat)
    ensures PValue(k, k) == 1.0 + Choose(2 * k, k) as real / Pow2(2 * k) as real > 1.0
  {
    var n := 2 * k;
    var low, mid, all := Sum(n, 0, k + 1), Choose(n, k), Pow2(n);
    TailSymmetric(n, k);
    RowSum(n);
    SumSplit(n, 0, k + 1, n + 1);
    assert low == Sum(n, 0, k) + mid;
    assert low + low == all + mid;
    ChoosePositive(n, k);
    RealSum(low, low, all);
    RealSum(all, mid, all);
    RealAtMostOne(all, all);
    RealAtMostOne(all + mid, all);
  }

  // ---- The exact two-sided test, by its own definition -------------------

  function Distance(n: nat, i: nat): nat {
    if 2 * i > n then 2 * i - n else n - 2 * i
  }

  /** C(n, i) over the i < hi at least as far from n / 2 as d / 2. */
  function Extreme(n: nat, d: nat, hi: nat): nat {
    if hi == 0 then 0
    else Extreme(n, d, hi - 1) + if Distance(n, hi - 1) >= d then Choose(n, hi - 1) else 0
  }

  lemma {:induction false} ExtremeLow(n: nat, k: nat, hi: nat)
    requires 2 * k < n && hi <= n - k
    ensures Extreme(n, n - 2 * k, hi) == Sum(n, 0, Min(hi, k + 1))
  {
    if hi > 0 {
      ExtremeLow(n, k, hi - 1);
    }
  }

  lemma {:induction false} ExtremeHigh(n: nat, k: nat, hi: nat)
    requires 2 * k < n && n - k <= hi <= n + 1
    ensures Extreme(n, n - 2 * k, hi) == Sum(n, 0, k + 1) + Sum(n, n - k, hi)
  {
    if hi == n - k {
      ExtremeLow(n, k, hi);
    } else {
      ExtremeHigh(n, k, hi - 1);
    }
  }

  lemma {:induction false} ExtremeAll(n: nat, hi: nat)
    ensures Extreme(n, 0, hi) == Sum(n, 0, hi)
  {
    if hi > 0 {
      ExtremeAll(n, hi - 1);
    }
  }

  /** P(|X - n/2| >= |plus - n/2|): the exact two-sided p-value. */
  function ExactP(plus: nat, minus: nat): real {
    var n := plus + minus;
    Extreme(n, Distance(n, plus), n + 1) as real / Pow2(n) as real
  }

  lemma ExactOnDraw(k: nat)
    ensures ExactP(k, k) == 1.0
  {
    ExtremeAll(2 * k, 2 * k + 1);
    FullTail(2 * k);
  }

  lemma ExactIfUnequal(plus: nat, minus: nat)
    requires plus != minus
    ensures PValue(plus, minus) == ExactP(plus, minus)
  {
    var n, k := plus + minus, Min(plus, minus);
    assert Distance(n, plus) == n - 2 * k;
    ExtremeHigh(n, k, n + 1);
    UnequalIsTwoSided(plus, minus);
    RealSum(Sum(n, 0, k + 1), Sum(n, n - k, n + 1), Pow2(n));
  }

  /** The reported value is the exact two-sided p-value exactly when the counts
      differ; on a draw the exact value is 1 and the reported one exceeds it. */
  lemma ReportedIsExactIff(plus: nat, minus: nat)
    ensures PValue(plus, minus) == ExactP(plus, minus) <==> plus != minus
    ensures plus == minus ==> ExactP(plus, minus) == 1.0
  {
    if plus == minus {
      ExactOnDraw(plus);
      EvenSplit(plus);
    } else {
      ExactIfUnequal(plus, minus);
    }
  }

  // ---- How much evidence significance takes ------------------------------

  lemma {:induction false} SumAtLeastOne(n: nat, hi: nat)
    requires hi >= 1
    ensures Sum(n, 0, hi) >= 1
  {
    if hi > 1 {
      SumAtLeastOne(n, hi - 1);
    }
  }

  lemma {:induction false} Pow2Monotone(a: nat, b: nat)
    requires a <= b
    ensures Pow2(a) <= Pow2(b)
  {
    if a < b {
      Pow2Monotone(a, b - 1);
    }
  }

  lemma Divide(a: nat, b: nat, p: nat)
    requires p >= 1 && a <= b
    ensures a as real / p as real <= b as real / p as real
  {
    var y := b as real / p as real;
    assert y * p as real == b as real;
    DivideBy(a as real, y, p as real);
  }

  /** No outcome of n decisive pairs gives less than 2 / 2^n. */
  lemma SmallestP(plus: nat, minus: nat)
    ensures PValue(plus, minus) >= 2.0 / Pow2(plus + minus) as real
  {
    var n, k := plus + minus, Min(plus, minus);
    SumAtLeastOne(n, k + 1);
    Divide(1, Sum(n, 0, k + 1), Pow2(n));
  }

  lemma Threshold(p: nat)
    requires p >= 1
    ensures 2.0 / p as real < 0.05 <==> p > 40
  {
    DivideBy(2.0, 0.05, p as real);
  }

  /** A unanimous result is significant exactly from six decisive pairs on. */
  lemma UnanimousSignificantIff(n: nat)
    ensures PValue(n, 0) < 0.05 <==> n >= 6
  {
    assert Sum(n, 0, 1) == Sum(n, 0, 0) + Choose(n, 0) == 1;
    assert PValue(n, 0) == 2.0 * (1.0 / Pow2(n) as real);
    assert 2.0 * (1.0 / Pow2(n) as real) == 2.0 / Pow2(n) as real;
    Threshold(Pow2(n));
    assert Pow2(6) == 64 && Pow2(5) == 32;
    if n >= 6 { Pow2Monotone(6, n); } else { Pow2Monotone(n, 5); }
  }

  /** Fewer than six decisive pairs are never significant, however they fall. */
  lemma SixPairsNeeded(plus: nat, minus: nat)
    requires PValue(plus, minus) < 0.05
    ensures plus + minus >= 6 && plus != minus
  {
    SmallestP(plus, minus);
    Threshold(Pow2(plus + minus));
    assert Pow2(5) == 32;
    if plus + minus < 6 {
      Pow2Monotone(plus + minus, 5);
    }
    if plus == minus {
      EvenSplit(plus);
    }
  }
}
