/**
 * The reward shown in a tweet: `w3.from_wei(int(reward_wei), 'ether')`
 * formatted with `:.4f` (twitter.py:97, twitter.py:104, twitter.py:118,
 * twitter.py:126). The conversion divides by 10^18 exactly; the display
 * keeps four decimal places, so the model works in ten-thousandths of an
 * ether.
 */
module Amount {

  const WeiPerEther: nat := 1_000_000_000_000_000_000
  /** One displayed unit, 0.0001 ETH, in wei. */
  const WeiPerUnit: nat := 100_000_000_000_000
  /** 0.1 ETH in wei: the reward above which a new block gets a party emoji (twitter.py:98). */
  const PartyThresholdWei: nat := 100_000_000_000_000_000

  /** |a - b| */
  function Dist(a: int, b: int): nat {
    if a < b then b - a else a - b
  }

  /**
   * The number of ten-thousandths of an ether displayed for `wei`: the exact
   * value `wei / 10^18` rounded to four decimals. Ties are broken towards an
   * even last digit, as Python's default decimal context does.
   */
  function ShownUnits(wei: nat): (q: nat)
    ensures 2 * Dist(q * WeiPerUnit, wei) <= WeiPerUnit
  {
    var q0, rem := wei / WeiPerUnit, wei % WeiPerUnit;
    assert wei == q0 * WeiPerUnit + rem;
    var q := if 2 * rem < WeiPerUnit then q0
             else if 2 * rem > WeiPerUnit then q0 + 1
             else if q0 % 2 == 0 then q0 else q0 + 1;
    assert q * WeiPerUnit == q0 * WeiPerUnit || q * WeiPerUnit == q0 * WeiPerUnit + WeiPerUnit;
    q
  }

  /**
   * Unless the exact value lies halfway between two displayable values, the
   * shown value is strictly nearer to it than any other.
   */
  lemma ShownUnitsIsNearest(wei: nat, p: nat)
    requires p != ShownUnits(wei)
    requires 2 * Dist(ShownUnits(wei) * WeiPerUnit, wei) != WeiPerUnit
    ensures Dist(ShownUnits(wei) * WeiPerUnit, wei) < Dist(p * WeiPerUnit, wei)
  {
    var q := ShownUnits(wei);
    if p < q {
      MulLess(p, q);
    } else {
      MulLess(q, p);
    }
  }

  lemma MulLess(a: nat, b: nat)
    requires a < b
    ensures a * WeiPerUnit + WeiPerUnit <= b * WeiPerUnit
  {
    assert b * WeiPerUnit == a * WeiPerUnit + (b - a) * WeiPerUnit;
  }

  /** Whole multiples of 0.0001 ETH are shown exactly. */
  lemma ExactWhenMultiple(q: nat)
    ensures ShownUnits(q * WeiPerUnit) == q
  {
  }

  /** The decimal digits of n, most significant first, as Python's `str` writes them. */
  function NatText(n: nat): (s: string)
    ensures |s| > 0
    ensures forall i :: 0 <= i < |s| ==> '0' <= s[i] <= '9'
    decreases n
  {
    if n < 10 then [Digit(n)] else NatText(n / 10) + [Digit(n % 10)]
  }

  /** Like Python's `str`, NatText writes no leading zero: only 0 itself starts with '0'. */
  lemma {:induction false} NatTextNoLeadingZero(n: nat)
    ensures n == 0 ==> NatText(n) == "0"
    ensures n > 0 ==> NatText(n)[0] != '0'
    ensures |NatText(n)| > 1 ==> NatText(n)[0] != '0'
    decreases n
  {
    if n >= 10 {
      NatTextNoLeadingZero(n / 10);
      assert NatText(n)[0] == NatText(n / 10)[0];
    }
  }

  /** Python's `str` of an integer. */
  function IntText(i: int): string {
    if i < 0 then "-" + NatText(-i) else NatText(i)
  }

  function Digit(d: nat): char
    requires d < 10
  {
    '0' + d as char
  }

  /** The number a string of decimal digits denotes: the reading partner of NatText. */
  function DigitsValue(s: string): nat
    requires forall i :: 0 <= i < |s| ==> '0' <= s[i] <= '9'
  {
    if s == [] then 0 else 10 * DigitsValue(s[..|s| - 1]) + (s[|s| - 1] - '0') as nat
  }

  /** Exactly four digits, with leading zeros. */
  function Pad4(r: nat): (s: string)
    requires r < 10000
    ensures |s| == 4
    ensures forall i :: 0 <= i < |s| ==> '0' <= s[i] <= '9'
  {
    [Digit(r / 10 / 10 / 10), Digit(r / 10 / 10 % 10), Digit(r / 10 % 10), Digit(r % 10)]
  }

  /** The text `{x:.4f}` produces for a non-negative amount of q ten-thousandths. */
  function AmountText(q: nat): (s: string)
    ensures |s| >= 6 && s[|s| - 5] == '.'
  {
    NatText(q / 10000) + "." + Pad4(q % 10000)
  }

  /** The text shown for a reward of `wei`. */
  function ShownAmount(wei: nat): (s: string)
    ensures |s| >= 6 && s[|s| - 5] == '.'
  {
    AmountText(ShownUnits(wei))
  }

  /**
   * Read back, the shown text is within half a ten-thousandth of an ether
   * of the reward: `:.4f` rounds to the nearest four-decimal value.
   */
  lemma {:induction false} ShownAmountReadsBack(wei: nat)
    ensures var s := ShownAmount(wei);
      && (forall i :: 0 <= i < |s| - 5 ==> '0' <= s[i] <= '9')
      && (forall i :: |s| - 4 <= i < |s| ==> '0' <= s[i] <= '9')
      && (|s| > 6 ==> s[0] != '0')
      && 2 * Dist((10000 * DigitsValue(s[..|s| - 5]) + DigitsValue(s[|s| - 4..])) * WeiPerUnit, wei) <= WeiPerUnit
  {
    var q := ShownUnits(wei);
    assert ShownAmount(wei) == AmountText(q);
    AmountTextRoundTrip(q);
  }

  /** Reading the digits NatText writes gives back the number. */
  lemma {:induction false} NatTextRoundTrip(n: nat)
    ensures DigitsValue(NatText(n)) == n
    decreases n
  {
    if n >= 10 {
      NatTextRoundTrip(n / 10);
      var s := NatText(n);
      assert s[..|s| - 1] == NatText(n / 10);
    }
  }

  lemma Pad4RoundTrip(r: nat)
    requires r < 10000
    ensures DigitsValue(Pad4(r)) == r
  {
    var s := Pad4(r);
    assert s[..1][..0] == [];
    assert DigitsValue(s[..1]) == r / 10 / 10 / 10;
    assert s[..2][..1] == s[..1];
    assert DigitsValue(s[..2]) == r / 10 / 10;
    assert s[..3][..2] == s[..2];
    assert DigitsValue(s[..3]) == r / 10;
    assert s[..4] == s;
  }

  /**
   * The displayed text splits at its point into an integer part and four
   * decimals that, read back, give the displayed number of ten-thousandths.
   */
  lemma {:induction false} AmountTextRoundTrip(q: nat)
    ensures var s := AmountText(q);
      && (forall i :: 0 <= i < |s| - 5 ==> '0' <= s[i] <= '9')
      && (forall i :: |s| - 4 <= i < |s| ==> '0' <= s[i] <= '9')
      && (|s| > 6 ==> s[0] != '0')
      && 10000 * DigitsValue(s[..|s| - 5]) + DigitsValue(s[|s| - 4..]) == q
  {
    var s := AmountText(q);
    NatTextNoLeadingZero(q / 10000);
    assert s[..|s| - 5] == NatText(q / 10000);
    assert s[|s| - 4..] == Pad4(q % 10000);
    NatTextRoundTrip(q / 10000);
    Pad4RoundTrip(q % 10000);
  }

  /** The rewards of the examples: 0.15 ETH shows as 0.1500, 1 wei as 0.0000. */
  lemma ShownAmountExamples()
    ensures ShownAmount(150_000_000_000_000_000) == "0.1500"
    ensures ShownAmount(1) == "0.0000"
  {
    ExactWhenMultiple(1500);
    assert 1500 * WeiPerUnit == 150_000_000_000_000_000;
  }
}
