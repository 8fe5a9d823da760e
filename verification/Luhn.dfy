/** The card number check: length, digits, and the check digit of Annex B of ISO/IEC 7812-1.
 *
 *  A number is a string of characters. The original counts bytes; the two counts differ only for
 *  strings with a character outside ASCII, which both reject for not being all digits.
 */
module Luhn {

  const MIN_CARD_DIGITS := 12
  const MAX_CARD_DIGITS := 19

  predicate IsDigit(c: char) {
    '0' <= c <= '9'
  }

  predicate AllDigits(s: string) {
    s != [] && forall i :: 0 <= i < |s| ==> IsDigit(s[i])
  }

  function Digit(c: char): int {
    c as int - '0' as int
  }

  function Doubled(d: int): int {
    if 2 * d > 9 then 2 * d - 9 else 2 * d
  }

  /** What a digit adds when there are `right` digits to the right of it: every second one counts
   *  doubled, the check digit itself does not. */
  function Weigh(c: char, right: nat): int {
    if right % 2 == 0 then Digit(c) else Doubled(Digit(c))
  }

  /** The weighted sum of a number that has `right` more digits to its right. */
  function Sum(s: string, right: nat): int {
    if s == [] then 0 else Weigh(s[0], |s| - 1 + right) + Sum(s[1..], right)
  }

  predicate Accepted(number: string) {
    MIN_CARD_DIGITS <= |number| <= MAX_CARD_DIGITS && AllDigits(number) && Sum(number, 0) % 10 == 0
  }

  /** The check as it runs: right to left, doubling every second digit. */
  method ValidCardNumber(number: string) returns (valid: bool)
    ensures valid <==> Accepted(number)
    ensures valid ==> 12 <= |number| <= 19 && forall i :: 0 <= i < |number| ==> '0' <= number[i] <= '9'
  {
    if |number| < MIN_CARD_DIGITS || |number| > MAX_CARD_DIGITS || !AllDigits(number) {
      return false;
    }
    var sum := 0;
    var double := false;
    var i := |number| - 1;
    while i >= 0
      invariant -1 <= i < |number|
      invariant sum == Sum(number[i + 1..], 0)
      invariant double <==> (|number| - 1 - i) % 2 == 1
    {
      var digit := Digit(number[i]);
      if double {
        digit := digit * 2;
        if digit > 9 {
          digit := digit - 9;
        }
      }
      assert number[i..][1..] == number[i + 1..];
      sum := sum + digit;
      double := !double;
      i := i - 1;
    }
    assert number[0..] == number;
    valid := sum % 10 == 0;
  }

  lemma {:induction false} SumOfConcat(a: string, b: string, right: nat)
    ensures Sum(a + b, right) == Sum(a, |b| + right) + Sum(b, right)
  {
    if a == [] {
      assert a + b == b;
    } else {
      assert (a + b)[1..] == a[1..] + b;
      SumOfConcat(a[1..], b, right);
    }
  }

  /** Changing one digit changes the sum by the change in that digit's weight. */
  lemma {:induction false} SumOfChange(s: string, i: nat, c: char)
    requires i < |s|
    ensures Sum(s[i := c], 0) == Sum(s, 0) - Weigh(s[i], |s| - 1 - i) + Weigh(c, |s| - 1 - i)
  {
    var a, b := s[..i], s[i + 1..];
    assert s == a + ([s[i]] + b) && s[i := c] == a + ([c] + b);
    SumOfConcat(a, [s[i]] + b, 0);
    SumOfConcat(a, [c] + b, 0);
    SumOfConcat([s[i]], b, 0);
    SumOfConcat([c], b, 0);
  }

  lemma {:induction false} WeightsDiffer(x: char, y: char, right: nat)
    requires IsDigit(x) && IsDigit(y) && x != y
    ensures (Weigh(y, right) - Weigh(x, right)) % 10 != 0
  {
  }

  lemma {:induction false} ChangeOfMultiple(sum: int, change: int)
    requires sum % 10 == 0
    ensures (sum + change) % 10 == 0 <==> change % 10 == 0
  {
  }

  lemma {:induction false} ChangedDigits(s: string, i: nat, c: char)
    requires AllDigits(s) && i < |s| && IsDigit(c)
    ensures AllDigits(s[i := c])
  {
  }

  /** A single mistyped digit never goes unnoticed. */
  lemma {:induction false} SingleErrorIsDetected(number: string, i: nat, c: char)
    requires Accepted(number) && i < |number| && IsDigit(c) && c != number[i]
    ensures !Accepted(number[i := c])
  {
    var right := |number| - 1 - i;
    SumOfChange(number, i, c);
    WeightsDiffer(number[i], c, right);
    ChangeOfMultiple(Sum(number, 0), Weigh(c, right) - Weigh(number[i], right));
    hide Weigh, Sum;
  }

  /** Swapping two unequal neighbours goes unnoticed exactly when they are 0 and 9. */
  lemma {:induction false} NeighbourSwapIsDetected(number: string, i: nat)
    requires Accepted(number) && i + 1 < |number| && number[i] != number[i + 1]
    ensures Accepted(number[i := number[i + 1]][i + 1 := number[i]])
            <==> {number[i], number[i + 1]} == {'0', '9'}
  {
    var x, y, right := number[i], number[i + 1], |number| - 2 - i;
    var once := number[i := y];
    SumOfChange(number, i, y);
    SumOfChange(once, i + 1, x);
    ChangedDigits(number, i, y);
    ChangedDigits(once, i + 1, x);
    SwapWeights(x, y, right);
    ChangeOfMultiple(Sum(number, 0), Weigh(y, right + 1) + Weigh(x, right) - Weigh(x, right + 1) - Weigh(y, right));
    hide Weigh, Sum, AllDigits;
  }

  lemma {:induction false} SwapWeights(x: char, y: char, right: nat)
    requires IsDigit(x) && IsDigit(y) && x != y
    ensures (Weigh(y, right + 1) + Weigh(x, right) - Weigh(x, right + 1) - Weigh(y, right)) % 10 == 0
            <==> {x, y} == {'0', '9'}
  {
    var d := Doubled(Digit(x)) - Digit(x) - (Doubled(Digit(y)) - Digit(y));
    assert d % 10 == 0 <==> (x == '0' && y == '9') || (x == '9' && y == '0');
    assert {x, y} == {'0', '9'} <==> (x == '0' && y == '9') || (x == '9' && y == '0') by {
      if {x, y} == {'0', '9'} {
        assert x in {'0', '9'} && y in {'0', '9'};
      }
    }
  }

  function CheckDigit(payload: string): (c: char)
    ensures IsDigit(c)
  {
    ((10 - Sum(payload, 1) % 10) % 10 + '0' as int) as char
  }

  /** Every payload has exactly one digit that completes it. */
  lemma {:induction false} CheckDigitIsUnique(payload: string, c: char)
    requires 11 <= |payload| <= 18 && AllDigits(payload)
    ensures Accepted(payload + [c]) <==> c == CheckDigit(payload)
  {
    var whole := payload + [c];
    SumOfConcat(payload, [c], 0);
    assert Sum([c], 0) == Digit(c) by { assert [c][1..] == []; }
    assert AllDigits(whole) <==> IsDigit(c) by {
      assert whole[|payload|] == c;
      assert forall i :: 0 <= i < |payload| ==> whole[i] == payload[i];
    }
    CompletesMultiple(Sum(payload, 1), Digit(c));
    hide Sum, AllDigits;
  }

  lemma {:induction false} CompletesMultiple(sum: int, digit: int)
    ensures 0 <= digit <= 9 ==> ((sum + digit) % 10 == 0 <==> digit == (10 - sum % 10) % 10)
  {
  }
}
