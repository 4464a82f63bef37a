/** Decimal texts of natural numbers. */
module Decimals {
  import opened Wrappers

  function DigitChar(d: nat): char
    requires d < 10
  {
    '0' + d as char
  }

  /** strconv.FormatInt(n, 10). */
  function Decimal(n: nat): string {
    if n < 10 then [DigitChar(n)] else Decimal(n / 10) + [DigitChar(n % 10)]
  }

  /** The number that one or more digits spell. */
  function Number(s: string): Option<nat> {
    if s == "" then None
    else
      var last := s[|s| - 1];
      if !('0' <= last <= '9') then None
      else if |s| == 1 then Some((last - '0') as nat)
      else
        var high := Number(s[..|s| - 1]);
        if high.None? then None else Some(10 * high.value + (last - '0') as nat)
  }

  lemma {:induction false} NumberOfDecimal(n: nat)
    ensures Number(Decimal(n)) == Some(n)
  {
    if n >= 10 {
      NumberOfDecimal(n / 10);
      assert Decimal(n)[..|Decimal(n)| - 1] == Decimal(n / 10);
    }
  }

  /** A text is a number if and only if it is one or more digits. */
  lemma {:induction false} NumberIffDigits(s: string)
    ensures Number(s).Some? <==> s != "" && forall i | 0 <= i < |s| :: '0' <= s[i] <= '9'
  {
    if |s| > 1 {
      var init := s[..|s| - 1];
      NumberIffDigits(init);
      assert forall i | 0 <= i < |init| :: init[i] == s[i];
    }
  }

  /** Leading zeros do not matter. */
  lemma {:induction false} LeadingZero(s: string)
    requires s != ""
    ensures Number("0" + s) == Number(s)
  {
    var zero := "0" + s;
    if |s| == 1 {
      assert zero[..1] == "0";
    } else {
      LeadingZero(s[..|s| - 1]);
      assert zero[..|s|] == "0" + s[..|s| - 1];
    }
  }

  lemma {:induction false} DecimalDigits(n: nat)
    ensures Decimal(n) != "" && forall i | 0 <= i < |Decimal(n)| :: '0' <= Decimal(n)[i] <= '9'
  {
    if n >= 10 {
      DecimalDigits(n / 10);
    }
  }
}
