/** `makeIncrementer(forIncrement:)` on the Closures page: each closure it
    returns owns a captured `runningTotal`, starting at 0, that every call
    raises by the captured `amount`. Closures are reference types, so the
    closure is a class and its captured variables are fields. */
module Capture {

  /** Swift's `Int` on a 64-bit platform. */
  newtype Int = x: int | -0x8000_0000_0000_0000 <= x < 0x8000_0000_0000_0000

  /** Whether a mathematical result fits an `Int`; Swift's `+=` traps otherwise. */
  predicate InRange(x: int) {
    -0x8000_0000_0000_0000 <= x < 0x8000_0000_0000_0000
  }

  /** The closure `incrementer` together with the variables it captured. */
  class Incrementer {
    /** The captured parameter `amount`, which the closure never changes. */
    const amount: Int
    /** The captured variable `runningTotal`. */
    var runningTotal: Int
    /** How many times the closure has been called. */
    ghost var calls: nat

    /** After n calls the total is n times the amount. */
    ghost predicate Valid()
      reads this
    {
      runningTotal as int == calls * amount as int
    }

    /** `makeIncrementer(forIncrement: amount)`: a new closure with its own
        `runningTotal`, starting at 0. */
    constructor Make(amount: Int)
      ensures Valid()
      ensures this.amount == amount && runningTotal == 0 && calls == 0
    {
      this.amount := amount;
      runningTotal := 0;
      calls := 0;
    }

    /** One call of the closure: add `amount` to `runningTotal` and return the
        new total. */
    method Increment() returns (total: Int)
      requires Valid()
      requires InRange(runningTotal as int + amount as int)
      modifies this
      ensures Valid() && calls == old(calls) + 1
      ensures runningTotal as int == old(runningTotal) as int + amount as int
      ensures total == runningTotal
      ensures total as int == calls * amount as int
    {
      runningTotal := runningTotal + amount;
      calls := calls + 1;
      total := runningTotal;
    }
  }

  /** Calls `first` and then `second`. Two closures made by separate calls of
      `makeIncrementer` keep separate totals, so the second call does not see
      the first; two references to one closure share its total, so it does. */
  method CallBoth(first: Incrementer, second: Incrementer) returns (a: Int, b: Int)
    requires first.Valid() && second.Valid()
    requires InRange(first.runningTotal as int + first.amount as int)
    requires first == second ==> InRange(first.runningTotal as int + 2 * first.amount as int)
    requires first != second ==> InRange(second.runningTotal as int + second.amount as int)
    modifies first, second
    ensures a as int == old(first.runningTotal) as int + first.amount as int
    ensures first == second ==> b as int == a as int + first.amount as int
    ensures first != second ==> b as int == old(second.runningTotal) as int + second.amount as int
    ensures first != second ==> first.runningTotal == a
    ensures second.runningTotal == b
    ensures first.Valid() && second.Valid()
  {
    a := first.Increment();
    b := second.Increment();
  }

  /** The calls shown on the page: `incrementByTen` three times, a new
      `incrementBySeven` once, `incrementByTen` again, then the alias
      `alsoIncrementByTen` and `incrementByTen` once each. */
  method Walkthrough() returns (observed: seq<Int>)
    ensures observed == [10, 20, 30, 7, 40, 50, 60]
  {
    var incrementByTen := new Incrementer.Make(10);
    var r1 := incrementByTen.Increment();
    var r2 := incrementByTen.Increment();
    var r3 := incrementByTen.Increment();
    var incrementBySeven := new Incrementer.Make(7);
    var r4 := incrementBySeven.Increment();
    var r5 := incrementByTen.Increment();
    var alsoIncrementByTen := incrementByTen;
    var r6 := alsoIncrementByTen.Increment();
    var r7 := incrementByTen.Increment();
    observed := [r1, r2, r3, r4, r5, r6, r7];
  }
}
