/** Vocabulary shared by the models: optional values, results, and the two pieces of Go
    arithmetic that differ from Dafny's (truncating division and int32 conversion). */
module GoBasics {

  datatype Option<+T> = None | Some(value: T)

  datatype Result<+T, +E> = Ok(value: T) | Err(error: E)

  /** Go's integer division: it truncates toward zero, where Dafny's floors for b > 0. */
  function GoDiv(a: int, b: int): int
    requires b > 0
  {
    if a >= 0 then a / b else -((-a) / b)
  }

  const MAX_INT32 := 0x7FFF_FFFF

  /** Go's int32(x) conversion of a wider integer: the low 32 bits, read as two's complement. */
  function Int32(x: int): int {
    var low := x % 0x1_0000_0000;
    if low <= MAX_INT32 then low else low - 0x1_0000_0000
  }

  function Min(a: int, b: int): int {
    if a <= b then a else b
  }

  function Max(a: int, b: int): int {
    if a >= b then a else b
  }
}

/** Facts about integer division that the solver does not find by itself. */
module Division {
  import opened GoBasics

  lemma ProductSign(d: int, b: int)
    requires b > 0
    ensures d >= 1 ==> d * b >= b
    ensures d <= -1 ==> d * b <= -b
  {
    if d >= 1 {
      assert (d - 1) * b >= 0;
    } else if d <= -1 {
      assert (-d - 1) * b >= 0;
    }
  }

  lemma QuotientIs(a: int, b: int, q: int)
    requires b > 0 && q * b <= a < q * b + b
    ensures a / b == q && a % b == a - q * b
  {
    var d := q - a / b;
    assert d * b == q * b - (a / b) * b;
    ProductSign(d, b);
  }

  lemma QuotientStep(a: int, b: int)
    requires a >= 0 && b > 0
    ensures a < b ==> a / b == 0
    ensures a >= b ==> a / b == (a - b) / b + 1
  {
    if a < b {
      QuotientIs(a, b, 0);
    } else {
      QuotientIs(a, b, (a - b) / b + 1);
    }
  }

  lemma RemainderShift(a: int, b: int)
    requires b > 0
    ensures (a - b) % b == a % b
  {
    var q := a / b;
    assert (q - 1) * b == q * b - b;
    QuotientIs(a - b, b, q - 1);
  }

  lemma ProductStep(i: int, step: int)
    ensures i * step == step + (i - 1) * step
  {
  }

  /** Two multiples of a step differ by at least the step. */
  lemma MultiplesAreApart(a: int, b: int, step: int)
    requires step > 0 && a % step == 0 && b % step == 0 && a < b
    ensures a + step <= b
  {
    var d := b / step - a / step;
    assert d * step == b - a;
    ProductSign(d, step);
  }

  /** Go's quotient and the remainder that goes with it: the remainder is smaller than the divisor
      and has the sign of the dividend. */
  lemma GoDivTruncates(a: int, b: int)
    requires b > 0
    ensures var r := a - GoDiv(a, b) * b; if a >= 0 then 0 <= r < b else -b < r <= 0
  {
    if a < 0 {
      assert -a == ((-a) / b) * b + (-a) % b;
      assert GoDiv(a, b) * b == -(((-a) / b) * b);
    } else {
      assert a == (a / b) * b + a % b;
    }
  }
}

/** Sums of an integer weight over a sequence. */
module WeightedSums {

  function Total<A>(weight: A -> int, xs: seq<A>): int {
    if xs == [] then 0 else weight(xs[0]) + Total(weight, xs[1..])
  }

  lemma {:induction false} TotalConcat<A>(weight: A -> int, xs: seq<A>, ys: seq<A>)
    ensures Total(weight, xs + ys) == Total(weight, xs) + Total(weight, ys)
  {
    if xs == [] {
      assert xs + ys == ys;
    } else {
      assert (xs + ys)[1..] == xs[1..] + ys;
      TotalConcat(weight, xs[1..], ys);
    }
  }

  lemma {:induction false} TotalUpdate<A>(weight: A -> int, xs: seq<A>, i: nat, x: A)
    requires i < |xs|
    ensures Total(weight, xs[i := x]) == Total(weight, xs) - weight(xs[i]) + weight(x)
  {
    if i > 0 {
      assert xs[i := x][1..] == xs[1..][i - 1 := x];
      TotalUpdate(weight, xs[1..], i - 1, x);
    } else {
      assert xs[i := x][1..] == xs[1..];
    }
  }

  lemma {:induction false} TotalZero<A>(weight: A -> int, xs: seq<A>)
    requires forall i | 0 <= i < |xs| :: weight(xs[i]) == 0
    ensures Total(weight, xs) == 0
  {
    if xs != [] {
      TotalZero(weight, xs[1..]);
    }
  }
}
