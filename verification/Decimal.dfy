/** Decimal printing and reading, shared by collision names and endpoint ports. */
module Decimal {
  predicate IsDigit(c: char) { '0' <= c <= '9' }

  predicate AllDigits(s: string) { forall i :: 0 <= i < |s| ==> IsDigit(s[i]) }

  function Print(n: nat): (s: string)
    ensures |s| > 0 && AllDigits(s)
  {
    var last := ['0' + (n % 10) as char];
    if n < 10 then last else Print(n / 10) + last
  }

  function Read(s: string): nat
    requires AllDigits(s)
  {
    if s == "" then 0
    else
      var k := |s| - 1;
      Read(s[..k]) * 10 + (s[k] - '0') as nat
  }

  lemma {:induction false} ReadOfPrint(n: nat)
    ensures Read(Print(n)) == n
  {
    var s := Print(n);
    var k := |s| - 1;
    if n < 10 {
      assert s[..k] == "";
    } else {
      assert s[..k] == Print(n / 10);
      ReadOfPrint(n / 10);
    }
  }

  lemma PrintInjective(m: nat, n: nat)
    requires Print(m) == Print(n)
    ensures m == n
  {
    ReadOfPrint(m);
    ReadOfPrint(n);
  }
}
