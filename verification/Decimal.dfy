/** Unsigned decimal printing, the source of option group ids (snprintf with "%zu"). */
module Decimal {

  function Digit(d: nat): char
    requires d < 10
  {
    (d + '0' as nat) as char
  }

  function Print(n: nat): string {
    if n < 10 then [Digit(n)] else Print(n / 10) + [Digit(n % 10)]
  }

  /** A non-empty digit string without a superfluous leading zero. */
  predicate IsNumeral(s: string) {
    && s != ""
    && (forall i :: 0 <= i < |s| ==> '0' <= s[i] <= '9')
    && (|s| > 1 ==> s[0] != '0')
  }

  function Value(s: string): (n: nat)
    requires forall i :: 0 <= i < |s| ==> '0' <= s[i] <= '9'
  {
    if s == "" then 0 else Value(s[..|s| - 1]) * 10 + (s[|s| - 1] as nat - '0' as nat)
  }

  lemma {:induction false} PrintIsNumeral(n: nat)
    ensures IsNumeral(Print(n)) && Value(Print(n)) == n
    ensures n > 0 ==> Print(n)[0] != '0'
  {
    var s := Print(n);
    if n < 10 {
      assert s[..|s| - 1] == "";
    } else {
      PrintIsNumeral(n / 10);
      assert s[..|s| - 1] == Print(n / 10);
    }
  }

  lemma {:induction false} NumeralIsPrinted(s: string)
    requires IsNumeral(s)
    ensures Print(Value(s)) == s
    ensures s[0] != '0' ==> Value(s) > 0
  {
    var t, d := s[..|s| - 1], s[|s| - 1] as nat - '0' as nat;
    if |s| == 1 {
      assert t == "" && Value(s) == d;
    } else {
      NumeralIsPrinted(t);
      assert Value(s) / 10 == Value(t) && Value(s) % 10 == d;
      assert s == t + [Digit(d)];
    }
  }

  /** Different numbers print differently, so ids of successive registrations never coincide. */
  lemma PrintInjective(m: nat, n: nat)
    ensures Print(m) == Print(n) <==> m == n
  {
    PrintIsNumeral(m);
    PrintIsNumeral(n);
  }

  /** The numerals are exactly the printed numbers. */
  lemma NumeralIff(s: string)
    ensures IsNumeral(s) <==> exists n: nat :: Print(n) == s
  {
    if IsNumeral(s) {
      NumeralIsPrinted(s);
    }
    forall n: nat ensures IsNumeral(Print(n)) {
      PrintIsNumeral(n);
    }
  }
}
