/** `backward` and `names.sorted(by: backward)` on the Closures page: string
    comparison, and sorting an array of names into reverse alphabetical order. */
module ReverseSort {

  predicate IsAscii(s: string) {
    forall i :: 0 <= i < |s| ==> s[i] < 128 as char
  }

  /** The strings the model compares: Swift's `String` limited to ASCII text,
      where its ordering is plain character-by-character order. */
  type AsciiString = s: string | IsAscii(s) witness ""

  /** Swift's `a < b` on ASCII strings: lexicographic order by character code,
      with a proper prefix ordered before the longer string. */
  predicate Below(a: string, b: string) {
    if |a| == 0 then |b| > 0
    else if |b| == 0 then false
    else if a[0] != b[0] then a[0] < b[0]
    else Below(a[1..], b[1..])
  }

  /** `a` and `b` agree before position `k`, and there `a` has the smaller character. */
  predicate FirstDifferenceAt(a: string, b: string, k: nat) {
    k < |a| && k < |b| && a[..k] == b[..k] && a[k] < b[k]
  }

  /** The dictionary description of `<`: either `a` is a proper prefix of `b`,
      or at the first position where they differ `a` has the smaller character. */
  lemma {:induction false} BelowIsDictionaryOrder(a: string, b: string)
    ensures Below(a, b) <==>
      (|a| < |b| && a == b[..|a|]) || exists k: nat :: FirstDifferenceAt(a, b, k)
  {
    if |a| == 0 {
      assert |b| > 0 ==> a == b[..0];
    } else if |b| == 0 {
      forall k: nat ensures !FirstDifferenceAt(a, b, k) { }
    } else if a[0] != b[0] {
      if a[0] < b[0] {
        assert FirstDifferenceAt(a, b, 0);
      } else {
        forall k: nat ensures !FirstDifferenceAt(a, b, k) { }
      }
      if |a| < |b| {
        assert b[..|a|][0] == b[0];
      }
    } else {
      var a', b' := a[1..], b[1..];
      BelowIsDictionaryOrder(a', b');
      assert a == [a[0]] + a' && b == [b[0]] + b';
      // The prefix case moves through the common first character.
      assert (|a'| < |b'| && a' == b'[..|a'|]) <==> (|a| < |b| && a == b[..|a|]) by {
        if |a| < |b| {
          assert b[..|a|] == [b[0]] + b'[..|a'|];
        }
      }
      // So does the first difference, one position further on.
      forall k: nat | FirstDifferenceAt(a', b', k) ensures FirstDifferenceAt(a, b, k + 1) {
        assert a[..k + 1] == [a[0]] + a'[..k];
        assert b[..k + 1] == [b[0]] + b'[..k];
      }
      forall k: nat | FirstDifferenceAt(a, b, k) ensures k > 0 && FirstDifferenceAt(a', b', k - 1) {
        assert a[..k] == [a[0]] + a'[..k - 1];
        assert b[..k] == [b[0]] + b'[..k - 1];
      }
    }
  }

  lemma {:induction false} BelowIrreflexive(a: string)
    ensures !Below(a, a)
  {
    if |a| > 0 {
      BelowIrreflexive(a[1..]);
    }
  }

  lemma {:induction false} BelowTransitive(a: string, b: string, c: string)
    requires Below(a, b) && Below(b, c)
    ensures Below(a, c)
  {
    if |a| > 0 && a[0] == b[0] && b[0] == c[0] {
      BelowTransitive(a[1..], b[1..], c[1..]);
    }
  }

  /** Any two different strings are ordered one way or the other, and never both. */
  lemma {:induction false} BelowTotal(a: string, b: string)
    ensures a == b || Below(a, b) || Below(b, a)
    ensures !(Below(a, b) && Below(b, a))
  {
    if |a| > 0 && |b| > 0 && a[0] == b[0] {
      BelowTotal(a[1..], b[1..]);
      assert a == [a[0]] + a[1..] && b == [b[0]] + b[1..];
    }
  }

  /** `backward(s1, s2)`: true exactly when `s1 > s2`, so that `s1` is placed
      before `s2`. */
  predicate Backward(s1: AsciiString, s2: AsciiString) {
    Below(s2, s1)
  }

  /** `backward` is a strict total order, as `sorted(by:)` needs of its
      argument: never true of a name and itself, transitive, and for two
      different names true in exactly one direction. */
  lemma BackwardStrictTotalOrder(s1: AsciiString, s2: AsciiString, s3: AsciiString)
    ensures !Backward(s1, s1)
    ensures Backward(s1, s2) && Backward(s2, s3) ==> Backward(s1, s3)
    ensures s1 != s2 ==> (Backward(s1, s2) <==> !Backward(s2, s1))
  {
    BelowIrreflexive(s1);
    if Backward(s1, s2) && Backward(s2, s3) {
      BelowTransitive(s3, s2, s1);
    }
    BelowTotal(s1, s2);
  }

  /** The order `sorted(by: backward)` promises: no name is placed after one
      that `backward` would put it ahead of. */
  predicate NonIncreasing(s: seq<AsciiString>) {
    forall i, j :: 0 <= i < j < |s| ==> !Backward(s[j], s[i])
  }

  /** `x` placed into a non-increasing arrangement ahead of the first name
      smaller than it. */
  function Insert(x: AsciiString, s: seq<AsciiString>): (r: seq<AsciiString>)
    ensures multiset(r) == multiset(s) + multiset{x}
  {
    if s == [] || Backward(x, s[0]) then [x] + s
    else
      assert s == [s[0]] + s[1..];
      [s[0]] + Insert(x, s[1..])
  }

  lemma {:induction false} InsertNonIncreasing(x: AsciiString, s: seq<AsciiString>)
    requires NonIncreasing(s)
    ensures NonIncreasing(Insert(x, s))
  {
    if s == [] {
    } else if Backward(x, s[0]) {
      forall m | 0 <= m < |s| ensures !Backward(s[m], x) {
        if m > 0 {
          BelowTotal(s[0], s[m]);
        }
        if s[m] != s[0] {
          BelowTransitive(s[m], s[0], x);
        }
        BelowTotal(s[m], x);
      }
    } else {
      var rest := Insert(x, s[1..]);
      InsertNonIncreasing(x, s[1..]);
      forall y | y in rest ensures !Backward(y, s[0]) {
        assert y in multiset(rest);
        if y == x {
          BelowTotal(x, s[0]);
        } else {
          assert y in s[1..];
        }
      }
      var r := [s[0]] + rest;
      forall i, j | 0 <= i < j < |r| ensures !Backward(r[j], r[i]) {
        if i == 0 {
          assert r[j] == rest[j - 1] && r[j] in rest;
        } else {
          assert r[i] == rest[i - 1] && r[j] == rest[j - 1];
        }
      }
    }
  }

  /** `names.sorted(by: backward)`: a new array of the same size holding the
      same names, with none placed after one that `backward` puts it ahead of.
      The input is a Swift array, a value, so it is left as it was. */
  function SortedByBackward(names: seq<AsciiString>): (r: seq<AsciiString>)
    ensures |r| == |names|
    ensures multiset(r) == multiset(names)
    ensures NonIncreasing(r)
  {
    if names == [] then []
    else
      var rest := SortedByBackward(names[1..]);
      InsertNonIncreasing(names[0], rest);
      assert names == [names[0]] + names[1..];
      assert multiset(names) == multiset(names[1..]) + multiset{names[0]};
      var r := Insert(names[0], rest);
      assert |r| == |multiset(r)| == |multiset(names)| == |names|;
      r
  }

  lemma NonIncreasingTail(s: seq<AsciiString>)
    requires NonIncreasing(s) && s != []
    ensures NonIncreasing(s[1..])
  {
    forall i, j | 0 <= i < j < |s| - 1 ensures !Backward(s[1..][j], s[1..][i]) {
      assert s[1..][j] == s[j + 1] && s[1..][i] == s[i + 1];
    }
  }

  /** No name of a non-increasing arrangement is greater than its first one. */
  lemma HeadIsGreatest(s: seq<AsciiString>, y: AsciiString)
    requires NonIncreasing(s) && s != [] && y in s
    ensures !Below(s[0], y)
  {
    var i :| 0 <= i < |s| && s[i] == y;
    if i > 0 {
      assert !Backward(s[i], s[0]);
    } else {
      BelowIrreflexive(y);
    }
  }

  /** The order `backward` gives fixes the result: two non-increasing
      arrangements of the same names are equal. */
  lemma {:induction false} NonIncreasingUnique(a: seq<AsciiString>, b: seq<AsciiString>)
    requires NonIncreasing(a) && NonIncreasing(b)
    requires multiset(a) == multiset(b)
    ensures a == b
  {
    if a != [] {
      assert |b| == |multiset(b)| == |multiset(a)| == |a|;
      assert a[0] in multiset(b) && b[0] in multiset(a);
      HeadIsGreatest(a, b[0]);
      HeadIsGreatest(b, a[0]);
      BelowTotal(a[0], b[0]);
      assert a == [a[0]] + a[1..] && b == [b[0]] + b[1..];
      assert multiset(a[1..]) == multiset(a) - multiset{a[0]};
      assert multiset(b[1..]) == multiset(b) - multiset{b[0]};
      NonIncreasingTail(a);
      NonIncreasingTail(b);
      NonIncreasingUnique(a[1..], b[1..]);
    }
  }

  /** Names whose first letters strictly decrease are in non-increasing order. */
  lemma FirstLettersDecrease(s: seq<AsciiString>)
    requires forall i :: 0 <= i < |s| ==> |s[i]| > 0
    requires forall i, j :: 0 <= i < j < |s| ==> s[j][0] < s[i][0]
    ensures NonIncreasing(s)
  {
  }

  /** The worked example: reverse alphabetical order of the five names. */
  lemma ExampleReversedNames()
    ensures SortedByBackward(["Chris", "Alex", "Ewa", "Barry", "Daniella"]) ==
            ["Ewa", "Daniella", "Chris", "Barry", "Alex"]
  {
    var names: seq<AsciiString> := ["Chris", "Alex", "Ewa", "Barry", "Daniella"];
    var expected: seq<AsciiString> := ["Ewa", "Daniella", "Chris", "Barry", "Alex"];
    FirstLettersDecrease(expected);
    assert multiset(names) == multiset(expected) by {
      assert names == [names[0]] + [names[1]] + [names[2]] + [names[3]] + [names[4]];
      assert expected == [names[2]] + [names[4]] + [names[0]] + [names[3]] + [names[1]];
    }
    NonIncreasingUnique(SortedByBackward(names), expected);
  }
}
