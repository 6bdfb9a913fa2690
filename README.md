# Closures: digit names, reverse sort and captured totals

This project models the three pieces of working code on the Closures page of
a Swift language guide, and proves what the page says about them.

- **Digit names** (module `DigitNames`, `digit_names.dfy`). The trailing
  closure passed to `numbers.map` turns a non-negative `Int` into the
  English names of its decimal digits, most significant first. For example,
  `[16, 58, 510]` becomes `["OneSix", "FiveEight", "FiveOneZero"]`.
  `DigitString` is the closure as a method. Its `repeat { ... } while` loop
  becomes `while true` with a `break` at the end of the body, so the body
  runs at least once. The method is proved against `Spelled(n)`, the names
  of `Digits(n)` concatenated. `Digits(n)` is shown to be the one base-10
  representation of `n` without leading zeros. The `digitNames` dictionary
  is the map `DigitNameTable`. The forced unwrap `!` is Dafny's map lookup,
  so the verifier proves the key is always present. Swift's `/` truncates
  toward zero and its `%` takes the sign of the dividend; `SwiftDiv10` and
  `SwiftRem10` model them explicitly.
  `SpellAll` is `map`.
- **Reverse sort** (module `ReverseSort`, `reverse_sort.dfy`).
  `Backward(s1, s2)` is `s1 > s2`, with strings restricted to ASCII
  (`AsciiString`). `Below` is Swift's `<` on such strings. It is proved to
  be dictionary order and a strict total order. `SortedByBackward` is
  `names.sorted(by: backward)`: the same names, the same size, in
  non-increasing order. That order fixes the result uniquely, and the page's
  example is proved. Swift arrays are values, so the model uses `seq`.
  The input array therefore cannot change; every function leaves its
  argument as it was.
- **Captured totals** (module `Capture`, `incrementer.dfy`). A closure
  returned by `makeIncrementer(forIncrement:)` is a reference type that
  owns its captured `runningTotal` and `amount`. It is modelled as the
  class `Incrementer`. The constructor `Make` plays `makeIncrementer`,
  and `Increment` is one call of the closure. A ghost call count records
  that after n calls the total is n × `amount`. `CallBoth` states that
  separate closures are independent and that aliases share one total.
  `Walkthrough` replays the calls shown on the page: 10, 20, 30, 7, 40, 50, 60.
  `Int` is the 64-bit Swift `Int`, and `+=` traps on overflow, so
  `Increment` requires the new total to fit.

## Model

| member | source | states |
|---|---|---|
| `DigitNames.DigitNameTable` | Closures.playground/Pages/page1.xcplaygroundpage/Contents.swift:255-258 | the `digitNames` dictionary: 0 to 9 mapped to "Zero", "One", "Two", "Three", "Four", "Five", "Six", "Seven", "Eight", "Nine" |
| `DigitNames.DigitKeys` | Closures.playground/Pages/page1.xcplaygroundpage/Contents.swift:255-258 | a key is in `digitNames` exactly when it is one of the digits 0 through 9 |
| `DigitNames.SwiftDiv10` | Closures.playground/Pages/page1.xcplaygroundpage/Contents.swift:286 | `number /= 10` truncates toward zero; on a positive number it gives a strictly smaller non-negative one, which is why the loop ends |
| `DigitNames.SwiftRem10` | Closures.playground/Pages/page1.xcplaygroundpage/Contents.swift:285 | `number % 10` is the remainder of truncating division, less than 10 in size and with the sign of the dividend |
| `DigitNames.LookupNeverFails` | Closures.playground/Pages/page1.xcplaygroundpage/Contents.swift:302-305 | for `number >= 0` the key `number % 10` is in `digitNames`, so the forced unwrap never fails |
| `DigitNames.NegativeLookupFails` | Closures.playground/Pages/page1.xcplaygroundpage/Contents.swift:285 | for a negative number whose last digit is not 0 the key is missing and the forced unwrap would trap |
| `DigitNames.Name` | Closures.playground/Pages/page1.xcplaygroundpage/Contents.swift:285 | every digit has a name of at least three letters |
| `DigitNames.Digits` | Closures.playground/Pages/page1.xcplaygroundpage/Contents.swift:298-300 | the digits of a number: at least one, each 0 through 9, with a leading 0 only for the number 0 |
| `DigitNames.DigitsValue` | Closures.playground/Pages/page1.xcplaygroundpage/Contents.swift:298-300 | the digits denote the number in base 10 |
| `DigitNames.DigitsUnique` | Closures.playground/Pages/page1.xcplaygroundpage/Contents.swift:298-300 | any base-10 digit sequence for `n` without leading zeros is `Digits(n)` |
| `DigitNames.ValueCons` | Closures.playground/Pages/page1.xcplaygroundpage/Contents.swift:308-312 | putting a digit d in front of k digits adds d × 10^k to their value |
| `DigitNames.StripValue` | Closures.playground/Pages/page1.xcplaygroundpage/Contents.swift:285-286 | after each pass the original number is `number` × 10^k plus the value of the k digits stripped off |
| `DigitNames.StripDigits` | Closures.playground/Pages/page1.xcplaygroundpage/Contents.swift:308-314 | each pass strips the last digit still on `number`; when `number` reaches 0 the stripped digits are all the digits |
| `DigitNames.SpelledLastDigit` | Closures.playground/Pages/page1.xcplaygroundpage/Contents.swift:308-312 | the name of the last digit comes after the spelling of the rest of the number |
| `DigitNames.SpelledOneDigit` | Closures.playground/Pages/page1.xcplaygroundpage/Contents.swift:284-287 | a one-digit number is spelled as that digit's name, so 0 gives "Zero" |
| `DigitNames.SpelledNonEmpty` | Closures.playground/Pages/page1.xcplaygroundpage/Contents.swift:284-287 | the result always holds at least one digit name and is never empty |
| `DigitNames.ExampleSpellings` | Closures.playground/Pages/page1.xcplaygroundpage/Contents.swift:244-245 | 16, 58 and 510 are spelled "OneSix", "FiveEight" and "FiveOneZero" |
| `DigitNames.DigitString` | Closures.playground/Pages/page1.xcplaygroundpage/Contents.swift:281-289 | the closure returns the names of the number's decimal digits, most significant first |
| `DigitNames.SpellAll` | Closures.playground/Pages/page1.xcplaygroundpage/Contents.swift:237-242 | `map` returns one result per input, in the same order, each the closure's result on the matching input |
| `DigitNames.Strings` | Closures.playground/Pages/page1.xcplaygroundpage/Contents.swift:259-289 | `numbers.map` on `[16, 58, 510]` gives `["OneSix", "FiveEight", "FiveOneZero"]` |
| `ReverseSort.Below` | Closures.playground/Pages/page1.xcplaygroundpage/Contents.swift:85 | Swift's `<` on ASCII strings, to which `s1 > s2` reduces: the empty string is below every non-empty one, otherwise the first characters decide, and equal first characters pass the comparison to the rest |
| `ReverseSort.Backward` | Closures.playground/Pages/page1.xcplaygroundpage/Contents.swift:84-86 | `backward(s1, s2)` is `s1 > s2`, that is `s2 < s1` |
| `ReverseSort.BelowIsDictionaryOrder` | Closures.playground/Pages/page1.xcplaygroundpage/Contents.swift:90-92 | `a < b` exactly when `a` is a proper prefix of `b` or has the smaller character where they first differ |
| `ReverseSort.BelowIrreflexive` | Closures.playground/Pages/page1.xcplaygroundpage/Contents.swift:84-86 | no string is less than itself |
| `ReverseSort.BelowTransitive` | Closures.playground/Pages/page1.xcplaygroundpage/Contents.swift:84-86 | string order is transitive |
| `ReverseSort.BelowTotal` | Closures.playground/Pages/page1.xcplaygroundpage/Contents.swift:84-86 | of two different strings exactly one is the smaller |
| `ReverseSort.BackwardStrictTotalOrder` | Closures.playground/Pages/page1.xcplaygroundpage/Contents.swift:84-86 | `backward` is irreflexive and transitive, and on two different names it holds in exactly one direction |
| `ReverseSort.InsertNonIncreasing` | Closures.playground/Pages/page1.xcplaygroundpage/Contents.swift:87 | proof step of `SortedByBackward` (its stand-in insertion sort): putting a name into a reverse-ordered array at its place keeps it in reverse order |
| `ReverseSort.SortedByBackward` | Closures.playground/Pages/page1.xcplaygroundpage/Contents.swift:45-49 | `sorted(by: backward)` returns an array of the same size holding the same names, none placed after a name smaller than it |
| `ReverseSort.NonIncreasingUnique` | Closures.playground/Pages/page1.xcplaygroundpage/Contents.swift:90-92 | two reverse-ordered arrangements of the same names are equal, so the sorted result is determined |
| `ReverseSort.ExampleReversedNames` | Closures.playground/Pages/page1.xcplaygroundpage/Contents.swift:80-87 | the five names sort to `["Ewa", "Daniella", "Chris", "Barry", "Alex"]` |
| `Capture.Incrementer.Make` | Closures.playground/Pages/page1.xcplaygroundpage/Contents.swift:357-364 | a new incrementer has its own total, starting at 0, and keeps the given `amount` |
| `Capture.Incrementer.Increment` | Closures.playground/Pages/page1.xcplaygroundpage/Contents.swift:359-362 | a call adds `amount` to the total and returns the new total, so the n-th call returns n × `amount` |
| `Capture.CallBoth` | Closures.playground/Pages/page1.xcplaygroundpage/Contents.swift:417-450 | a call on one incrementer leaves a separate one unchanged, while two references to one incrementer share its total |
| `Capture.Walkthrough` | Closures.playground/Pages/page1.xcplaygroundpage/Contents.swift:403-450 | the calls on the page return 10, 20, 30, then 7, then 40, 50 and 60 |

## Left out

- The Initialization page is not part of this model. Its code sits in
  comments, its conversions are `Double` arithmetic, and the rest describes
  compiler rules for initializers.
- The Functions page is not part of this model. Its only code is a one-line
  greeting concatenation.
- The Structures and Classes and the Access Control pages are not part of
  this model. They describe language rules and contain no working logic.
- How `sorted(by:)` and `map` work inside is not modelled. They are library
  calls whose code is not shown. `SortedByBackward`'s insertion sort and
  `SpellAll`'s loop only carry the library's contract.
- The alternative spellings of the sort closure are not modelled separately:
  the inline closure, the shorthand `$0 > $1`, the operator `>` and the
  trailing-closure forms. They behave exactly like `backward`.
- Reference counting, capturing by copy and strong reference cycles are
  memory management. They do not change any value the code computes.
- Negative inputs to the digit closure are excluded by `number >= 0`.
  `NegativeLookupFails` shows where the forced unwrap would trap, but the
  trap itself is not modelled.
- String comparison covers ASCII text only. Swift orders general Unicode
  strings by canonical equivalence, which is not modelled.
- `Int` is taken as 64 bits wide, as on 64-bit platforms; Swift's `Int` is
  word-sized, so it is 32 bits on 32-bit targets. The digit closure only
  divides, so it cannot overflow.
- `Capture.Incrementer.Increment`: the trap on `+=` overflow is not modelled;
  `Increment` and `CallBoth` exclude it with `InRange` preconditions.
