/** The message object pool: a counter that starts at 5 and is capped at 10. */
module Pool {
  const Capacity: int := 10
  const InitialSize: int := 5

  predicate InBounds(p: int) { 0 <= p <= Capacity }

  /** `Message.obtain()` reuses a pooled object only when asked to and one is left. */
  predicate CanObtain(p: int, isObtain: bool) { isObtain && p > 0 }

  /** The pool count after a send: one object leaves exactly when one is obtained. */
  function Checkout(p: int, isObtain: bool): (r: int)
    ensures CanObtain(p, isObtain) ==> r == p - 1
    ensures !CanObtain(p, isObtain) ==> r == p
    ensures InBounds(p) ==> InBounds(r)
  {
    if CanObtain(p, isObtain) then p - 1 else p
  }

  /** Returning an object to the pool; returns to a full pool are absorbed. */
  function Recycle(p: int): (r: int)
    ensures r <= Capacity
    ensures p < Capacity ==> r == p + 1
    ensures p >= Capacity ==> r == Capacity
    ensures InBounds(p) ==> InBounds(r)
  {
    if p + 1 <= Capacity then p + 1 else Capacity
  }

  /** The pool count after `n` consecutive sends that ask for a pooled object. */
  function CheckoutTimes(p: int, n: nat): int
  {
    if n == 0 then p else CheckoutTimes(Checkout(p, true), n - 1)
  }

  /** Obtaining drains the pool one by one and stops at zero, never below. */
  lemma {:induction false} CheckoutTimesDrains(p: int, n: nat)
    requires InBounds(p)
    ensures CheckoutTimes(p, n) == if n <= p then p - n else 0
  {
    if n > 0 {
      CheckoutTimesDrains(Checkout(p, true), n - 1);
    }
  }
}
