/** Decimal notation, as PostgreSQL's casts, `TO_CHAR` and `LPAD` write it. */
module Decimals {

  function DigitChar(d: nat): char
    requires d < 10
  {
    '0' + d as char
  }

  predicate AllDigits(s: string) {
    forall i | 0 <= i < |s| :: '0' <= s[i] <= '9'
  }

  /** `n::TEXT` */
  function Digits(n: nat): (s: string)
    ensures |s| >= 1 && AllDigits(s)
  {
    if n < 10 then [DigitChar(n)] else Digits(n / 10) + [DigitChar(n % 10)]
  }

  function Value(s: string): nat
    requires AllDigits(s)
  {
    if s == [] then 0 else 10 * Value(s[..|s| - 1]) + (s[|s| - 1] - '0') as nat
  }

  lemma {:induction false} ValueOfDigits(n: nat)
    ensures Value(Digits(n)) == n
  {
    if n < 10 {
      assert Digits(n)[..0] == [];
    } else {
      ValueOfDigits(n / 10);
      assert Digits(n)[..|Digits(n)| - 1] == Digits(n / 10);
    }
  }

  function Zeros(n: nat): (s: string)
    ensures |s| == n && AllDigits(s)
  {
    seq(n, i => '0')
  }

  /** At least `n` characters, with zeros in front. */
  function PadTo(s: string, n: nat): (r: string)
    ensures |r| == if |s| < n then n else |s|
    ensures AllDigits(s) ==> AllDigits(r)
  {
    if |s| < n then Zeros(n - |s|) + s else s
  }

  /** `LPAD(s, n, '0')`: exactly `n` characters, so that a longer text loses its end. */
  function LPad(s: string, n: nat): (r: string)
    ensures |r| == n
    ensures AllDigits(s) ==> AllDigits(r)
  {
    if |s| < n then PadTo(s, n) else s[..n]
  }

  lemma {:induction false} ValueOfZeros(k: nat, s: string)
    requires AllDigits(s)
    ensures Value(Zeros(k) + s) == Value(s)
  {
    var t := Zeros(k) + s;
    if s == [] {
      if k > 0 {
        assert t[..|t| - 1] == Zeros(k - 1) + [];
        ValueOfZeros(k - 1, []);
      } else {
        assert t == [];
      }
    } else {
      assert t[..|t| - 1] == Zeros(k) + s[..|s| - 1];
      ValueOfZeros(k, s[..|s| - 1]);
    }
  }

  /** Padding does not change the number. */
  lemma {:induction false} ValueOfPadded(n: nat, width: nat)
    ensures Value(PadTo(Digits(n), width)) == n
  {
    ValueOfDigits(n);
    if |Digits(n)| < width {
      ValueOfZeros(width - |Digits(n)|, Digits(n));
    }
  }

  /** Powers of ten bound the number of digits. */
  function PowerOfTen(k: nat): nat {
    if k == 0 then 1 else 10 * PowerOfTen(k - 1)
  }

  lemma {:induction false} DigitCount(n: nat, k: nat)
    requires 0 < k
    ensures |Digits(n)| <= k <==> n < PowerOfTen(k)
  {
    if k == 1 {
      assert PowerOfTen(1) == 10;
    } else if n >= 10 {
      DigitCount(n / 10, k - 1);
    } else {
      PowerGrows(k);
    }
  }

  lemma {:induction false} PowerGrows(k: nat)
    requires 0 < k
    ensures PowerOfTen(k) >= 10
  {
    if k > 1 {
      PowerGrows(k - 1);
    }
  }
}
