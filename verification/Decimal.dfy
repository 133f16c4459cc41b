/** Decimal list indices: how the walk prints them and how pointer evaluation reads them. */
module Decimal {
  import opened Wrappers

  function Digit(d: nat): char
    requires d < 10
  {
    '0' + d as char
  }

  predicate AllDigits(s: string) {
    forall i :: 0 <= i < |s| ==> '0' <= s[i] <= '9'
  }

  /** The decimal form of a list index, as strconv.Itoa prints it. */
  function Itoa(n: nat): string {
    if n < 10 then [Digit(n)] else Itoa(n / 10) + [Digit(n % 10)]
  }

  /** Reads a digit string, least significant digit last. */
  function DigitsValue(s: string): nat
    requires AllDigits(s)
  {
    if s == [] then 0
    else
      var last := s[|s| - 1];
      DigitsValue(s[..|s| - 1]) * 10 + (last - '0') as nat
  }

  /** An array index of RFC 6901, section 4: "0", or digits that do not start with a zero. */
  function ParseIndex(s: string): Option<nat> {
    if s != [] && AllDigits(s) && (|s| > 1 ==> s[0] != '0') then Some(DigitsValue(s)) else None
  }

  lemma {:induction false} ParseItoa(n: nat)
    ensures ParseIndex(Itoa(n)) == Some(n)
    ensures n > 0 ==> Itoa(n)[0] != '0'
  {
    var s := Itoa(n);
    if n >= 10 {
      ParseItoa(n / 10);
      assert s[..|s| - 1] == Itoa(n / 10);
      assert s[0] == Itoa(n / 10)[0];
    } else {
      assert s[..0] == [] && DigitsValue(s[..0]) == 0;
    }
  }

  lemma {:induction false} DigitsPositive(s: string)
    requires s != [] && AllDigits(s) && s[0] != '0'
    ensures DigitsValue(s) > 0
  {
    if |s| == 1 {
      assert s[..0] == [] && DigitsValue(s[..0]) == 0;
    } else {
      DigitsPositive(s[..|s| - 1]);
    }
  }

  lemma {:induction false} ItoaParse(s: string)
    requires ParseIndex(s).Some?
    ensures Itoa(ParseIndex(s).value) == s
  {
    var init, d := s[..|s| - 1], (s[|s| - 1] - '0') as nat;
    var v := DigitsValue(init);
    assert DigitsValue(s) == v * 10 + d;
    assert s == init + [Digit(d)];
    if |s| > 1 {
      assert init[0] == s[0];
      ItoaParse(init);
      DigitsPositive(init);
    }
  }
}
