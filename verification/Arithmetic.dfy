/** Facts about numbers that several modules use. */
module Arithmetic {

  function Min(a: int, b: int): int {
    if a <= b then a else b
  }

  lemma TimesGrows(x: int, y: int, k: int)
    requires x <= y && k >= 0
    ensures x * k <= y * k
  {
    assert (y - x) * k >= 0;
  }

  /** There is always a number beyond a finite set of them. */
  lemma {:induction false} Beyond(s: set<nat>) returns (n: nat)
    ensures forall x :: x in s ==> x < n
  {
    n := 0;
    if s != {} {
      var x :| x in s;
      var m := Beyond(s - {x});
      n := if m <= x then x + 1 else m;
      assert forall y :: y in s ==> y == x || y in s - {x};
    }
  }
}
