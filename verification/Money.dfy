/** Money as it is validated and stored in cents (packages/shared/src/money.ts). */
module Money {
  import opened Decimals

  /** 99999999999999.99, in cents. */
  const MAX_MONEY: int := 9999999999999999

  /** Not negative and within the storage maximum. */
  predicate IsMoney(x: real) {
    0.0 <= x <= 99999999999999.99
  }

  /** Rounded to cents, half to even; a valid amount cannot round past the maximum. */
  function Cents(x: real): (c: int)
    requires IsMoney(x)
    ensures 0 <= c <= MAX_MONEY
    ensures c as real - 0.5 <= x * 100.0 <= c as real + 0.5
    ensures x * 100.0 == c as real - 0.5 || x * 100.0 == c as real + 0.5 ==> c % 2 == 0
  {
    HalfEvenMonotone(x * 100.0, 9999999999999999.0);
    HalfEven(x * 100.0)
  }
}
