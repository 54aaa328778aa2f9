/** The one formatting verb the core's messages use: `%d` on a non-negative integer. */
module Fmt {
  /** The decimal digits of `n`, as `%d` prints them. */
  function Decimal(n: nat): (r: string)
    ensures |r| > 0
    ensures forall i :: 0 <= i < |r| ==> '0' <= r[i] <= '9'
  {
    var d := ['0' + (n % 10) as char];
    if n < 10 then d else Decimal(n / 10) + d
  }

  /** The number a string of decimal digits denotes. */
  function Value(s: string): nat
    requires forall i :: 0 <= i < |s| ==> '0' <= s[i] <= '9'
  {
    if s == [] then 0 else Value(s[..|s| - 1]) * 10 + (s[|s| - 1] - '0') as nat
  }

  /** The digits denote the number printed, and there is no leading zero except in `0` itself. */
  lemma {:induction false} DecimalValue(n: nat)
    ensures Value(Decimal(n)) == n
    ensures Decimal(n)[0] == '0' <==> n == 0
    decreases n
  {
    var d := ['0' + (n % 10) as char];
    if n >= 10 {
      DecimalValue(n / 10);
      var r := Decimal(n / 10) + d;
      assert r[..|r| - 1] == Decimal(n / 10);
      assert r[0] == Decimal(n / 10)[0];
    }
  }
}
