/** The closure that `numbers.map` applies on the Closures page: it spells a
    non-negative integer as the English names of its decimal digits, most
    significant digit first (16 becomes "OneSix"). */
module DigitNames {

  /** The `digitNames` dictionary. */
  const DigitNameTable: map<int, string> :=
    map[0 := "Zero", 1 := "One", 2 := "Two", 3 := "Three", 4 := "Four",
        5 := "Five", 6 := "Six", 7 := "Seven", 8 := "Eight", 9 := "Nine"]

  /** Swift's `number / 10` on `Int`: the quotient is truncated toward zero. */
  function SwiftDiv10(a: int): (q: int)
    ensures a >= 0 ==> 0 <= q <= a
    ensures a > 0 ==> q < a
    ensures a <= 0 ==> a <= q <= 0
  {
    if a >= 0 then a / 10 else -((-a) / 10)
  }

  /** Swift's `number % 10` on `Int`: the remainder takes the sign of the dividend. */
  function SwiftRem10(a: int): (r: int)
    ensures a == 10 * SwiftDiv10(a) + r
    ensures -10 < r < 10
    ensures r != 0 ==> (r < 0 <==> a < 0)
  {
    if a >= 0 then a % 10 else -((-a) % 10)
  }

  /** The keys of `digitNames` are exactly the digits 0 through 9. */
  lemma DigitKeys(k: int)
    ensures k in DigitNameTable <==> 0 <= k <= 9
  {
  }

  /** The forced unwrap `digitNames[number % 10]!` cannot fail on a number
      that is not negative. */
  lemma LookupNeverFails(number: int)
    requires number >= 0
    ensures SwiftRem10(number) in DigitNameTable
  {
    DigitKeys(SwiftRem10(number));
  }

  /** On a negative number whose last digit is not zero the remainder is
      negative and the forced unwrap would trap, which is why the closure is
      only meant for numbers that are zero or greater. */
  lemma NegativeLookupFails(number: int)
    requires number < 0 && SwiftRem10(number) != 0
    ensures SwiftRem10(number) !in DigitNameTable
  {
    DigitKeys(SwiftRem10(number));
  }

  /** The name of one digit, `digitNames[d]!`. */
  function Name(d: int): (s: string)
    requires 0 <= d <= 9
    ensures |s| >= 3
  {
    DigitNameTable[d]
  }

  predicate AllDigits(ds: seq<int>) {
    forall i :: 0 <= i < |ds| ==> 0 <= ds[i] <= 9
  }

  /** The decimal digits of `n`, most significant first, without leading zeros. */
  function Digits(n: nat): (ds: seq<int>)
    ensures |ds| >= 1 && AllDigits(ds)
    ensures ds[0] == 0 <==> n == 0
  {
    if n < 10 then [n] else Digits(n / 10) + [n % 10]
  }

  function Pow10(k: nat): (p: nat)
    ensures p >= 1
  {
    if k == 0 then 1 else 10 * Pow10(k - 1)
  }

  /** The number a digit sequence denotes in base 10. */
  function Value(ds: seq<int>): int {
    if ds == [] then 0 else Value(ds[..|ds| - 1]) * 10 + ds[|ds| - 1]
  }

  /** The names of a sequence of digits, concatenated in order. */
  function NamesOf(ds: seq<int>): string
    requires AllDigits(ds)
  {
    if ds == [] then "" else Name(ds[0]) + NamesOf(ds[1..])
  }

  /** What the closure returns for `n`. */
  function Spelled(n: nat): string {
    NamesOf(Digits(n))
  }

  /** `Digits` is a base-10 representation: its digits denote `n`. */
  lemma {:induction false} DigitsValue(n: nat)
    ensures Value(Digits(n)) == n
  {
    if n >= 10 {
      DigitsValue(n / 10);
      var ds := Digits(n / 10) + [n % 10];
      assert ds[..|ds| - 1] == Digits(n / 10);
    }
  }

  lemma {:induction false} ValuePositive(ds: seq<int>)
    requires |ds| >= 1 && AllDigits(ds) && ds[0] > 0
    ensures Value(ds) >= 1
  {
    if |ds| > 1 {
      ValuePositive(ds[..|ds| - 1]);
    }
  }

  /** `Digits` is the only base-10 representation of `n` without leading
      zeros: every such digit sequence that denotes `n` is `Digits(n)`. */
  lemma {:induction false} DigitsUnique(ds: seq<int>, n: nat)
    requires |ds| >= 1 && AllDigits(ds)
    requires ds[0] != 0 || |ds| == 1
    requires Value(ds) == n
    ensures ds == Digits(n)
  {
    if |ds| > 1 {
      var init, last := ds[..|ds| - 1], ds[|ds| - 1];
      ValuePositive(init);
      assert n == Value(init) * 10 + last;
      assert n / 10 == Value(init) && n % 10 == last;
      DigitsUnique(init, n / 10);
      assert ds == init + [last];
    } else {
      assert Value(ds) == Value([]) * 10 + ds[0];
    }
  }

  /** Prepending a digit to a digit sequence of length k adds d * 10^k. */
  lemma {:induction false} ValueCons(d: int, ds: seq<int>)
    ensures Value([d] + ds) == d * Pow10(|ds|) + Value(ds)
  {
    if ds != [] {
      var init, last := ds[..|ds| - 1], ds[|ds| - 1];
      ValueCons(d, init);
      assert ([d] + ds)[..|ds|] == [d] + init;
      calc {
        Value([d] + ds);
        Value([d] + init) * 10 + last;
        (d * Pow10(|init|) + Value(init)) * 10 + last;
        d * (Pow10(|init|) * 10) + (Value(init) * 10 + last);
      }
    } else {
      assert [d] + ds == [d];
      assert Value([d]) == Value([]) * 10 + d;
    }
  }

  lemma NamesOfCons(d: int, ds: seq<int>)
    requires 0 <= d <= 9 && AllDigits(ds)
    ensures NamesOf([d] + ds) == Name(d) + NamesOf(ds)
  {
    assert ([d] + ds)[1..] == ds;
  }

  lemma {:induction false} NamesOfSnoc(ds: seq<int>, d: int)
    requires AllDigits(ds) && 0 <= d <= 9
    ensures NamesOf(ds + [d]) == NamesOf(ds) + Name(d)
  {
    if ds == [] {
      assert [] + [d] == [d] + [];
    } else {
      NamesOfSnoc(ds[1..], d);
      assert (ds + [d])[1..] == ds[1..] + [d];
    }
  }

  /** The digit names are built from the right: the last digit's name ends the
      spelling of everything before it. */
  lemma SpelledLastDigit(n: nat)
    requires n >= 10
    ensures Spelled(n) == Spelled(n / 10) + Name(n % 10)
  {
    NamesOfSnoc(Digits(n / 10), n % 10);
  }

  /** A one-digit number is spelled as that digit's name; in particular 0
      gives "Zero", since the loop body runs once before the test. */
  lemma SpelledOneDigit(n: nat)
    requires n < 10
    ensures Spelled(n) == Name(n)
    ensures n == 0 ==> Spelled(n) == "Zero"
  {
    NamesOfCons(n, []);
  }

  /** Every spelling is at least one digit name long, so it is never empty. */
  lemma SpelledNonEmpty(n: nat)
    ensures |Spelled(n)| >= 3
  {
    var ds := Digits(n);
    assert NamesOf(ds) == Name(ds[0]) + NamesOf(ds[1..]);
  }

  /** The worked example: `[16, 58, 510]` maps to `["OneSix", "FiveEight", "FiveOneZero"]`. */
  lemma ExampleSpellings()
    ensures Spelled(16) == "OneSix"
    ensures Spelled(58) == "FiveEight"
    ensures Spelled(510) == "FiveOneZero"
  {
    SpelledLastDigit(16);
    SpelledOneDigit(1);
    SpelledLastDigit(58);
    SpelledOneDigit(5);
    SpelledLastDigit(510);
    SpelledLastDigit(51);
  }

  /** Regrouping for one step of the loop, kept apart from the facts about
      digit sequences so that the solver sees plain arithmetic only. */
  lemma Regroup(q: int, d: int, p: int, v: int)
    ensures (10 * q + d) * p + v == q * (10 * p) + (d * p + v)
  {
  }

  /** The number stays `n` shifted left past the stripped digits, plus their
      value, when one more digit moves from `n` to the stripped ones. */
  lemma StripValue(number: nat, n: nat, stripped: seq<int>)
    requires number == n * Pow10(|stripped|) + Value(stripped)
    ensures number == (n / 10) * Pow10(|stripped| + 1) + Value([n % 10] + stripped)
  {
    var k := |stripped|;
    ValueCons(n % 10, stripped);
    assert Pow10(k + 1) == 10 * Pow10(k);
    assert n == 10 * (n / 10) + n % 10;
    Regroup(n / 10, n % 10, Pow10(k), Value(stripped));
  }

  /** The digit stripped off `n` is its last one, so the digits still on `n`
      followed by the stripped ones stay the digits of the number. */
  lemma StripDigits(number: nat, n: nat, stripped: seq<int>)
    requires Digits(n) + stripped == Digits(number)
    ensures n / 10 > 0 ==> Digits(n / 10) + ([n % 10] + stripped) == Digits(number)
    ensures n / 10 == 0 ==> [n % 10] + stripped == Digits(number)
  {
    if n >= 10 {
      assert Digits(n) == Digits(n / 10) + [n % 10];
      assert Digits(n / 10) + ([n % 10] + stripped) == (Digits(n / 10) + [n % 10]) + stripped;
    }
  }

  /** The body of the closure passed to `numbers.map`. */
  method DigitString(number: int) returns (output: string)
    requires number >= 0
    ensures output == Spelled(number)
  {
    var n := number;
    output := "";
    ghost var stripped: seq<int> := [];
    // repeat { ... } while n > 0
    while true
      invariant 0 <= n
      invariant n == 0 ==> stripped == []
      invariant AllDigits(stripped)
      invariant Digits(n) + stripped == Digits(number)
      invariant number == n * Pow10(|stripped|) + Value(stripped)
      invariant output == NamesOf(stripped)
      decreases n
    {
      LookupNeverFails(n);
      var d := SwiftRem10(n);
      StripValue(number, n, stripped);
      StripDigits(number, n, stripped);
      NamesOfCons(d, stripped);
      output := DigitNameTable[d] + output;
      stripped := [d] + stripped;
      n := SwiftDiv10(n);
      if !(n > 0) {
        break;
      }
    }
  }

  /** `numbers.map { ... }`: one spelling per input, in the same order. */
  method SpellAll(numbers: seq<int>) returns (strings: seq<string>)
    requires forall i :: 0 <= i < |numbers| ==> numbers[i] >= 0
    ensures |strings| == |numbers|
    ensures forall i :: 0 <= i < |numbers| ==> strings[i] == Spelled(numbers[i])
  {
    strings := [];
    for i := 0 to |numbers|
      invariant |strings| == i
      invariant forall j :: 0 <= j < i ==> strings[j] == Spelled(numbers[j])
    {
      var s := DigitString(numbers[i]);
      strings := strings + [s];
    }
  }

  /** `let strings = numbers.map { ... }` with `numbers = [16, 58, 510]`. */
  method Strings() returns (strings: seq<string>)
    ensures strings == ["OneSix", "FiveEight", "FiveOneZero"]
  {
    var numbers := [16, 58, 510];
    strings := SpellAll(numbers);
    ExampleSpellings();
  }
}
