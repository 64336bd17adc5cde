/** The latency range that the label of a histogram bucket spells. */
module Labels {
  import opened Words
  import opened Sorting

  /** Latencies in nanoseconds, from low on and below high, if there is an end. */
  datatype Range = Range(low: nat, high: Option<nat>)

  predicate Within(r: Range, ns: nat) {
    r.low <= ns && (r.high.None? || ns < r.high.value)
  }

  /** How many latencies of a list a label covers. */
  function Covered(xs: seq<u64>, text: string): nat {
    if xs == [] then 0
    else Covered(xs[..|xs| - 1], text) + (if Within(Spelled(text), xs[|xs| - 1]) then 1 else 0)
  }

  // ----- reading a label -----

  /** The text before the first c. */
  function Before(text: string, c: char): string {
    if text == "" || text[0] == c then "" else [text[0]] + Before(text[1..], c)
  }

  /** The text after the first c. */
  function After(text: string, c: char): string {
    if text == "" then "" else if text[0] == c then text[1..] else After(text[1..], c)
  }

  function Digit(c: char): nat {
    if '0' <= c <= '9' then c as int - '0' as int else 0
  }

  function Whole(digits: string): nat {
    if digits == "" then 0 else 10 * Whole(digits[..|digits| - 1]) + Digit(digits[|digits| - 1])
  }

  /** The digits after the point; each place is worth a tenth of the one before. */
  function Fraction(digits: string, unitNs: nat): nat {
    if digits == "" then 0 else Digit(digits[0]) * (unitNs / 10) + Fraction(digits[1..], unitNs / 10)
  }

  function AmountNs(number: string, unitNs: nat): nat {
    Whole(Before(number, '.')) * unitNs + Fraction(After(number, '.'), unitNs)
  }

  /** What one more in the last place is worth. */
  function StepNs(digits: string, unitNs: nat): nat {
    if digits == "" then unitNs else StepNs(digits[1..], unitNs / 10)
  }

  /** The nanoseconds of a unit of time. */
  function UnitNs(unit: string): nat {
    if unit == "us" then 1_000 else if unit == "ms" then 1_000_000 else if unit == "s" then 1_000_000_000 else 0
  }

  /** A label is "<N unit", "N unit+", or "M-N unit" up to the last place of N, included. */
  function Spelled(text: string): Range {
    if text == "" then Range(0, None)
    else if text[0] == '<' then
      var amount := TrimLeft(text[1..]);
      Range(0, Some(AmountNs(Before(amount, ' '), UnitNs(After(amount, ' ')))))
    else if text[|text| - 1] == '+' then
      var amount := text[..|text| - 1];
      Range(AmountNs(Before(amount, ' '), UnitNs(After(amount, ' '))), None)
    else
      var numbers := Before(text, ' ');
      Between(Before(numbers, '-'), After(numbers, '-'), UnitNs(After(text, ' ')))
  }

  function Between(first: string, last: string, unitNs: nat): Range {
    Range(AmountNs(first, unitNs), Some(AmountNs(last, unitNs) + StepNs(After(last, '.'), unitNs)))
  }

  // ----- what it reads -----

  lemma {:induction false} Cut(head: string, c: char, tail: string)
    requires c !in head
    ensures Before(head + [c] + tail, c) == head && After(head + [c] + tail, c) == tail
    ensures Before(head, c) == head && After(head, c) == ""
  {
    if head == "" {
    } else {
      Cut(head[1..], c, tail);
      assert head == [head[0]] + head[1..];
      assert (head + [c] + tail)[1..] == head[1..] + [c] + tail;
    }
  }

  lemma SpelledBelow(number: string, unit: string, space: string)
    requires ' ' !in number && number != "" && !IsSpace(number[0]) && (space == "" || space == " ")
    ensures Spelled("<" + space + number + [' '] + unit) == Range(0, Some(AmountNs(number, UnitNs(unit))))
  {
    var text := "<" + space + number + [' '] + unit;
    var amount := number + [' '] + unit;
    assert text[1..] == space + amount;
    if space == " " { assert text[1..][1..] == amount; } else { assert text[1..] == amount; }
    assert TrimLeft(amount) == amount;
    Cut(number, ' ', unit);
  }

  lemma SpelledFrom(number: string, unit: string)
    requires ' ' !in number && number != "" && number[0] != '<'
    ensures Spelled(number + [' '] + unit + "+") == Range(AmountNs(number, UnitNs(unit)), None)
  {
    var text := number + [' '] + unit + "+";
    assert text[..|text| - 1] == number + [' '] + unit;
    Cut(number, ' ', unit);
  }

  lemma SpelledBetween(first: string, last: string, unit: string)
    requires ' ' !in first && '-' !in first && first != "" && first[0] != '<'
    requires ' ' !in last && unit != "" && unit[|unit| - 1] != '+'
    ensures Spelled(first + ['-'] + last + [' '] + unit) == Between(first, last, UnitNs(unit))
  {
    var numbers := first + ['-'] + last;
    var text := numbers + [' '] + unit;
    Cut(numbers, ' ', unit);
    Cut(first, '-', last);
    assert text[0] == first[0] && text[|text| - 1] == unit[|unit| - 1];
  }

  // ----- numbers of up to three digits -----

  lemma OneMoreDigit(digits: string, c: char)
    ensures Whole(digits + [c]) == 10 * Whole(digits) + Digit(c)
  {
    assert (digits + [c])[..|digits|] == digits;
  }

  lemma ThreeDigits(a: char, b: char, c: char)
    ensures Whole([a]) == Digit(a) && Whole([a, b]) == 10 * Digit(a) + Digit(b)
    ensures Whole([a, b, c]) == 100 * Digit(a) + 10 * Digit(b) + Digit(c)
  {
    OneMoreDigit([], a);
    OneMoreDigit([a], b);
    OneMoreDigit([a, b], c);
    assert [] + [a] == [a] && [a] + [b] == [a, b] && [a, b] + [c] == [a, b, c];
  }

  /** A number without a point. */
  lemma PlainAmount(number: string, unitNs: nat)
    requires '.' !in number
    ensures AmountNs(number, unitNs) == Whole(number) * unitNs && StepNs(After(number, '.'), unitNs) == unitNs
  {
    Cut(number, '.', "");
  }

  /** A number of milliseconds with three places after the point. */
  lemma PointAmount(whole: string, a: char, b: char, c: char)
    requires '.' !in whole
    ensures var number := whole + ['.'] + [a, b, c];
            && AmountNs(number, 1_000_000) == Whole(whole) * 1_000_000 + 100_000 * Digit(a) + 10_000 * Digit(b) + 1_000 * Digit(c)
            && StepNs(After(number, '.'), 1_000_000) == 1_000
  {
    Cut(whole, '.', [a, b, c]);
    assert [a, b, c][1..] == [b, c] && [b, c][1..] == [c] && [c][1..] == "";
    assert StepNs([c], 10_000) == 1_000 && StepNs([b, c], 100_000) == 1_000;
    assert Fraction([c], 10_000) == 1_000 * Digit(c);
    assert Fraction([b, c], 100_000) == 10_000 * Digit(b) + 1_000 * Digit(c);
    assert Fraction([a, b, c], 1_000_000) == 100_000 * Digit(a) + 10_000 * Digit(b) + 1_000 * Digit(c);
  }

  lemma Units()
    ensures UnitNs("us") == 1_000 && UnitNs("ms") == 1_000_000 && UnitNs("s") == 1_000_000_000
  {
    assert |"us"| == 2 && |"s"| == 1;
  }

  lemma BelowAmount(text: string, space: string, number: string, unit: string)
    requires text == "<" + space + number + [' '] + unit && (space == "" || space == " ")
    requires ' ' !in number && '.' !in number && number != "" && !IsSpace(number[0])
    ensures Spelled(text) == Range(0, Some(Whole(number) * UnitNs(unit)))
  {
    SpelledBelow(number, unit, space);
    PlainAmount(number, UnitNs(unit));
  }

  lemma FromAmount(text: string, number: string, unit: string)
    requires text == number + [' '] + unit + "+"
    requires ' ' !in number && '.' !in number && number != "" && number[0] != '<'
    ensures Spelled(text) == Range(Whole(number) * UnitNs(unit), None)
  {
    SpelledFrom(number, unit);
    PlainAmount(number, UnitNs(unit));
  }

  lemma BetweenAmounts(text: string, first: string, last: string, unit: string)
    requires text == first + ['-'] + last + [' '] + unit
    requires ' ' !in first && '-' !in first && '.' !in first && first != "" && first[0] != '<'
    requires ' ' !in last && '.' !in last && unit != "" && unit[|unit| - 1] != '+'
    ensures Spelled(text) == Range(Whole(first) * UnitNs(unit), Some(Whole(last) * UnitNs(unit) + UnitNs(unit)))
  {
    SpelledBetween(first, last, unit);
    PlainAmount(first, UnitNs(unit));
    PlainAmount(last, UnitNs(unit));
  }

  /** Two numbers of three digits. */
  lemma BetweenMicroseconds(text: string, a: char, b: char, c: char, d: char, e: char, f: char)
    requires text == [a, b, c, '-', d, e, f, ' ', 'u', 's']
    requires '0' <= a <= '9' && '0' <= b <= '9' && '0' <= c <= '9' && '0' <= d <= '9' && '0' <= e <= '9' && '0' <= f <= '9'
    ensures Spelled(text) == Range(100_000 * Digit(a) + 10_000 * Digit(b) + 1_000 * Digit(c),
                                   Some(100_000 * Digit(d) + 10_000 * Digit(e) + 1_000 * Digit(f) + 1_000))
  {
    Units();
    ThreeDigits(a, b, c);
    ThreeDigits(d, e, f);
    assert text == [a, b, c] + ['-'] + [d, e, f] + [' '] + "us";
    BetweenAmounts(text, [a, b, c], [d, e, f], "us");
  }

  /** Up to, and with, 999 thousandths of the last millisecond. */
  lemma BetweenMilliseconds(text: string, first: string, last: string)
    requires text == first + ['-'] + (last + ['.'] + ['9', '9', '9']) + [' '] + "ms"
    requires ' ' !in first && '-' !in first && '.' !in first && first != "" && first[0] != '<'
    requires ' ' !in last && '.' !in last
    ensures Spelled(text) == Range(1_000_000 * Whole(first), Some(1_000_000 * Whole(last) + 1_000_000))
  {
    Units();
    SpelledBetween(first, last + ['.'] + ['9', '9', '9'], "ms");
    PlainAmount(first, 1_000_000);
    NinesAmount(last);
  }

  lemma NinesAmount(whole: string)
    requires '.' !in whole
    ensures var number := whole + ['.'] + ['9', '9', '9'];
            && AmountNs(number, 1_000_000) == Whole(whole) * 1_000_000 + 999_000
            && StepNs(After(number, '.'), 1_000_000) == 1_000
  {
    PointAmount(whole, '9', '9', '9');
  }
}
