/** Integers in decimal, as `to_string` prints them and `serde_json` reads them. */
module Decimals {
  import opened Prelude

  function Digits(n: nat): (r: string)
    ensures r != [] && AllDigits(r)
  {
    if n < 10 then [(n + '0' as int) as char] else Digits(n / 10) + [(n % 10 + '0' as int) as char]
  }

  function Decimal(n: int): string { if n < 0 then "-" + Digits(-n) else Digits(n) }

  predicate AllDigits(s: string) { forall i | 0 <= i < |s| :: '0' <= s[i] <= '9' }

  function Natural(s: string): nat
    requires AllDigits(s)
    decreases |s|
  {
    if s == [] then 0 else 10 * Natural(s[..|s| - 1]) + (s[|s| - 1] as int - '0' as int)
  }

  /** The integer a number text stands for, if it has neither fraction nor exponent. */
  function Integer(s: string): Option<int> {
    if s != [] && AllDigits(s) then Some(Natural(s))
    else if |s| > 1 && s[0] == '-' && AllDigits(s[1..]) then Some(0 - Natural(s[1..]))
    else None
  }

  lemma {:induction false} DigitsValue(n: nat)
    ensures Natural(Digits(n)) == n
  {
    var s := Digits(n);
    if n >= 10 {
      DigitsValue(n / 10);
      assert s[..|s| - 1] == Digits(n / 10);
    }
  }

  /** No leading zeros. */
  lemma {:induction false} DigitsLead(n: nat)
    ensures Digits(n)[0] == '0' ==> n == 0
    ensures n < 10 ==> |Digits(n)| == 1
  {
    if n >= 10 { DigitsLead(n / 10); }
  }

  lemma IntegerOfDecimal(n: int)
    ensures Integer(Decimal(n)) == Some(n)
  {
    if n < 0 {
      DigitsValue(-n);
      MinusInteger(Digits(-n));
    } else {
      DigitsValue(n);
    }
  }

  lemma {:induction false} MinusInteger(d: string)
    requires d != [] && AllDigits(d)
    ensures Integer("-" + d) == Some(0 - Natural(d))
  {
    var s := "-" + d;
    assert s[1..] == d;
    assert s[0] == '-' && !AllDigits(s);
  }
}
