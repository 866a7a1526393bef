/** JavaScript value conventions shared by every part of the dashboard model:
    absent fields, truthiness of the `a || b || 0` fallback chains, and the
    rounding done with `Math.round`. JavaScript numbers are modelled as exact
    reals; the binary rounding of doubles is not modelled. */
module Js {

  datatype Option<+T> = None | Some(value: T)

  /** A numeric field of a parsed JSON record: absent (undefined or null) or a number. */
  type Num = Option<real>

  /** A text field of a parsed JSON record: absent (undefined or null) or a string. */
  type Text = Option<string>

  /** JavaScript truthiness of a number field: present and not zero. */
  predicate Truthy(x: Num) {
    x.Some? && x.value != 0.0
  }

  /** JavaScript truthiness of a text field: present and not the empty string. */
  predicate TruthyText(s: Text) {
    s.Some? && s.value != ""
  }

  /** `x || 0` for a number field. */
  function OrZero(x: Num): (r: real)
    ensures Truthy(x) ==> r == x.value
    ensures !Truthy(x) ==> r == 0.0
  {
    if Truthy(x) then x.value else 0.0
  }

  /** `a || b || 0` for two number fields: the first field that is present and
      non-zero, else 0. A present zero counts as missing and falls through. */
  function FirstTruthy(a: Num, b: Num): (r: real)
    ensures Truthy(a) ==> r == a.value
    ensures !Truthy(a) ==> r == OrZero(b)
    ensures r == 0.0 <==> !Truthy(a) && !Truthy(b)
  {
    if Truthy(a) then a.value else OrZero(b)
  }

  /** `Math.round(x)`: the integer nearest to `x`, halves rounded up. */
  function Round(x: real): (n: int)
    ensures x - 0.5 < n as real <= x + 0.5
  {
    (x + 0.5).Floor
  }

  /** `Math.round(x * 10) / 10`: `x` to one decimal place. */
  function Round1(x: real): (r: real)
    ensures x - 0.05 < r <= x + 0.05
  {
    Round(x * 10.0) as real / 10.0
  }

  lemma RoundOfInt(n: int)
    ensures Round(n as real) == n
  {
  }

  lemma RoundMonotone(x: real, y: real)
    requires x <= y
    ensures Round(x) <= Round(y)
  {
  }

  /** Rounding keeps a value inside an integer interval that holds it. */
  lemma RoundWithin(x: real, lo: int, hi: int)
    requires lo as real <= x <= hi as real
    ensures lo <= Round(x) <= hi
  {
    RoundOfInt(lo);
    RoundOfInt(hi);
    RoundMonotone(lo as real, x);
    RoundMonotone(x, hi as real);
  }

  /** Sum of a sequence of reals, added from the front as `reduce((a, b) => a + b, 0)` does. */
  function Sum(xs: seq<real>): real
  {
    if xs == [] then 0.0 else Sum(xs[..|xs| - 1]) + xs[|xs| - 1]
  }

  /** Sum of the integers nearest to each element. */
  function SumOfRounds(xs: seq<real>): int
  {
    if xs == [] then 0 else SumOfRounds(xs[..|xs| - 1]) + Round(xs[|xs| - 1])
  }

  /** Rounding each term and then adding drifts from the exact sum by at most
      half a unit per term. */
  lemma {:induction false} SumOfRoundsNear(xs: seq<real>)
    ensures Sum(xs) - |xs| as real / 2.0 <= SumOfRounds(xs) as real <= Sum(xs) + |xs| as real / 2.0
  {
    if xs != [] {
      SumOfRoundsNear(xs[..|xs| - 1]);
    }
  }

  lemma {:induction false} SumNonNegative(xs: seq<real>)
    requires forall i :: 0 <= i < |xs| ==> 0.0 <= xs[i]
    ensures 0.0 <= Sum(xs)
  {
    if xs != [] {
      SumNonNegative(xs[..|xs| - 1]);
    }
  }
}
