/** Decimal numerals, the order of strings, and sorting. */
module Texts {
  import opened Wrappers

  // ---------------------------------------------------------------- sequences

  function IndexOf<T(==)>(s: seq<T>, x: T): (i: nat)
    requires x in s
    ensures i < |s| && s[i] == x && x !in s[..i]
  {
    if s[0] == x then 0 else
    var i := IndexOf(s[1..], x) + 1;
    assert s[..i] == [s[0]] + s[1..][..i - 1];
    i
  }

  function Without<T(==)>(s: seq<T>, dropped: set<T>): seq<T> {
    if s == [] then []
    else if s[0] in dropped then Without(s[1..], dropped)
    else [s[0]] + Without(s[1..], dropped)
  }

  ghost predicate Ascends(at: seq<nat>) {
    forall k, l | 0 <= k < l < |at| :: at[k] < at[l]
  }

  ghost predicate ArePicked<T(!new)>(all: seq<T>, wanted: T -> bool, selected: seq<T>, at: seq<nat>) {
    |at| == |selected|
    && forall k | 0 <= k < |at| :: at[k] < |all| && selected[k] == all[at[k]] && wanted(all[at[k]])
  }

  ghost predicate AreAll<T(!new)>(all: seq<T>, wanted: T -> bool, at: seq<nat>) {
    forall i: nat | i < |all| && wanted(all[i]) :: i in at
  }

  /** The wanted elements in their order: those at these positions, which are all that hold one. */
  ghost predicate IsSelection<T(!new)>(all: seq<T>, wanted: T -> bool, selected: seq<T>, at: seq<nat>) {
    Ascends(at) && ArePicked(all, wanted, selected, at) && AreAll(all, wanted, at)
  }

  function InFront(n: nat, rest: seq<nat>): (at: seq<nat>)
    requires n <= 1
    ensures |at| == n + |rest|
  {
    seq(n + |rest|, k requires 0 <= k < n + |rest| => if k < n then 0 else rest[k - n] + 1)
  }

  lemma AscendsInFront(n: nat, rest: seq<nat>)
    requires n <= 1 && Ascends(rest)
    ensures Ascends(InFront(n, rest))
  {
  }

  lemma AllInFront<T(!new)>(all: seq<T>, wanted: T -> bool, rest: seq<nat>)
    requires all != [] && AreAll(all[1..], wanted, rest)
    ensures AreAll(all, wanted, InFront(if wanted(all[0]) then 1 else 0, rest))
  {
    var n := if wanted(all[0]) then 1 else 0;
    var at := InFront(n, rest);
    forall i: nat | i < |all| && wanted(all[i])
      ensures i in at
    {
      if i == 0 {
        assert at[0] == 0;
      } else {
        var before: nat := i - 1;
        assert all[1..][before] == all[i] && before in rest;
        var k :| 0 <= k < |rest| && rest[k] == before;
        assert at[n + k] == i;
      }
    }
  }

  lemma PickedInFront<T(!new)>(all: seq<T>, wanted: T -> bool, selected: seq<T>, rest: seq<nat>)
    requires all != [] && ArePicked(all[1..], wanted, selected, rest)
    ensures ArePicked(all, wanted, (if wanted(all[0]) then [all[0]] else []) + selected,
                      InFront(if wanted(all[0]) then 1 else 0, rest))
  {
    forall k | 0 <= k < |rest|
      ensures rest[k] + 1 < |all| && all[rest[k] + 1] == selected[k] && wanted(all[rest[k] + 1])
    {
      assert all[1..][rest[k]] == all[rest[k] + 1];
    }
  }

  lemma SelectInFront<T(!new)>(all: seq<T>, wanted: T -> bool, selected: seq<T>, rest: seq<nat>)
      returns (at: seq<nat>)
    requires all != [] && IsSelection(all[1..], wanted, selected, rest)
    ensures IsSelection(all, wanted, (if wanted(all[0]) then [all[0]] else []) + selected, at)
  {
    hide Ascends, ArePicked, AreAll;
    at := InFront(if wanted(all[0]) then 1 else 0, rest);
    AscendsInFront(if wanted(all[0]) then 1 else 0, rest);
    PickedInFront(all, wanted, selected, rest);
    AllInFront(all, wanted, rest);
  }

  lemma NothingIsSelected<T(!new)>(wanted: T -> bool)
    ensures IsSelection([], wanted, [], [])
  {
  }

  // ---------------------------------------------------------------- numerals

  function Digit(n: nat): (c: char)
    requires n < 10
  {
    ('0' as int + n) as char
  }

  function Decimal(n: nat): (text: string)
    ensures text != ""
  {
    if n < 10 then [Digit(n)] else Decimal(n / 10) + [Digit(n % 10)]
  }

  function Integer(n: int): string {
    if n < 0 then "-" + Decimal(-n) else Decimal(n)
  }

  predicate IsDigit(c: char) {
    '0' <= c <= '9'
  }

  /** `0|[1-9][0-9]*` */
  predicate IsNumeral(text: string) {
    text == "0" || (text != "" && text[0] != '0' && forall c | c in text :: IsDigit(c))
  }

  function DigitValue(c: char): nat
    requires IsDigit(c)
  {
    c as int - '0' as int
  }

  function Value(text: string): nat
    requires forall c | c in text :: IsDigit(c)
  {
    if text == "" then 0
    else
      var last := text[|text| - 1];
      assert last in text && IsDigit(last);
      10 * Value(text[..|text| - 1]) + DigitValue(last)
  }

  lemma {:induction false} DecimalIsNumeral(n: nat)
    ensures IsNumeral(Decimal(n)) && (forall c | c in Decimal(n) :: IsDigit(c)) && Value(Decimal(n)) == n
    ensures n > 0 ==> Decimal(n)[0] != '0'
  {
    if n >= 10 {
      DecimalIsNumeral(n / 10);
      var front := Decimal(n / 10);
      assert Decimal(n)[..|Decimal(n)| - 1] == front;
      assert Decimal(n)[0] == front[0];
    } else {
      assert [Digit(n)][..0] == "";
    }
  }

  lemma {:induction false} NumeralIsDecimal(text: string)
    requires IsNumeral(text)
    ensures (forall c | c in text :: IsDigit(c)) && Decimal(Value(text)) == text
    decreases |text|
  {
    hide Value, Decimal;
    var front, last := text[..|text| - 1], text[|text| - 1];
    assert last in text;
    ValueOfLonger(text);
    if |text| == 1 {
      assert front == "";
      DecimalOfDigit(DigitValue(last));
    } else {
      assert front[0] == text[0];
      assert IsNumeral(front);
      NumeralIsDecimal(front);
      DecimalOfDigit(0);
      assert Value(front) != 0;
      DecimalOfLonger(Value(front), last);
    }
  }

  lemma ValueOfLonger(text: string)
    requires text != "" && forall c | c in text :: IsDigit(c)
    ensures Value("") == 0 && text[|text| - 1] in text
    ensures Value(text) == 10 * Value(text[..|text| - 1]) + DigitValue(text[|text| - 1])
  {
  }

  lemma DecimalOfDigit(n: nat)
    requires n < 10
    ensures Decimal(n) == [Digit(n)]
  {
  }

  lemma DecimalOfLonger(n: nat, last: char)
    requires n > 0 && IsDigit(last)
    ensures Decimal(10 * n + DigitValue(last)) == Decimal(n) + [last]
  {
    var m := 10 * n + DigitValue(last);
    assert m / 10 == n && m % 10 == DigitValue(last);
  }

  // ---------------------------------------------------------------- kinds of text

  /** Lower-case hexadecimal digits. */
  predicate IsHex(text: string, n: nat) {
    |text| == n && forall c | c in text :: '0' <= c <= '9' || 'a' <= c <= 'f'
  }

  /** What `str.strip` removes. */
  predicate IsStripped(c: char) {
    var n := c as int;
    9 <= n <= 13 || 28 <= n <= 32 || n == 0x85 || n == 0xa0 || n == 0x1680 || 0x2000 <= n <= 0x200a
    || n == 0x2028 || n == 0x2029 || n == 0x202f || n == 0x205f || n == 0x3000
  }

  // ---------------------------------------------------------------- case

  function LowerChar(c: char): char {
    if 'A' <= c <= 'Z' then (c as int + 32) as char else c
  }

  function Lower(text: string): (r: string)
    ensures |r| == |text|
  {
    seq(|text|, i requires 0 <= i < |text| => LowerChar(text[i]))
  }

  // ---------------------------------------------------------------- order

  /** Strictly before, character by character. */
  predicate Less(a: string, b: string) {
    b != "" && (a == "" || a[0] < b[0] || (a[0] == b[0] && Less(a[1..], b[1..])))
  }

  /** They are alike up to a place where the first ends or has the smaller character. */
  ghost predicate IsBefore(a: string, b: string, n: nat) {
    n <= |a| && n < |b| && a[..n] == b[..n] && (n == |a| || a[n] < b[n])
  }

  lemma {:induction false} LessIsExact(a: string, b: string)
    ensures Less(a, b) <==> exists n: nat :: IsBefore(a, b, n)
    decreases |a|
  {
    forall n: nat | IsBefore(a, b, n) && n > 0
      ensures a != "" && b != "" && a[0] == b[0] && IsBefore(a[1..], b[1..], n - 1)
    {
      assert a[..n][0] == b[..n][0];
      assert a[1..][..n - 1] == a[..n][1..] && b[1..][..n - 1] == b[..n][1..];
    }
    if a == "" || b == "" || a[0] != b[0] {
      assert Less(a, b) ==> IsBefore(a, b, 0);
    } else {
      LessIsExact(a[1..], b[1..]);
      if Less(a[1..], b[1..]) {
        var n: nat :| IsBefore(a[1..], b[1..], n);
        assert a[..n + 1] == [a[0]] + a[1..][..n] && b[..n + 1] == [b[0]] + b[1..][..n];
        assert IsBefore(a, b, n + 1);
      }
    }
  }

  lemma {:induction false} LessIsTotal(a: string, b: string)
    ensures a == b || Less(a, b) || Less(b, a)
    ensures !(Less(a, b) && Less(b, a)) && !Less(a, a)
    decreases |a|
  {
    if a != "" && b != "" {
      LessIsTotal(a[1..], b[1..]);
      LessIsTotal(a[1..], a[1..]);
      if a[0] == b[0] && a[1..] == b[1..] {
        assert a == [a[0]] + a[1..] == b;
      }
    } else if a != "" {
      LessIsTotal(a[1..], a[1..]);
    }
  }

  lemma {:induction false} LessIsTransitive(a: string, b: string, c: string)
    requires Less(a, b) && Less(b, c)
    ensures Less(a, c)
    decreases |a|
  {
    if a != "" && a[0] == b[0] && b[0] == c[0] {
      LessIsTransitive(a[1..], b[1..], c[1..]);
    }
  }

  // ---------------------------------------------------------------- sorting

  ghost predicate StrictlySorted(s: seq<string>) {
    forall i, j | 0 <= i < j < |s| :: Less(s[i], s[j])
  }

  ghost predicate Distinct<T(!new)>(s: seq<T>) {
    forall i, j | 0 <= i < j < |s| :: s[i] != s[j]
  }

  function Elements<T(!new)>(s: seq<T>): set<T> {
    set x | x in s
  }

  lemma AppendDistinct<T(!new)>(s: seq<T>, x: T)
    ensures Elements(s + [x]) == Elements(s) + {x}
    ensures Distinct(s) && x !in Elements(s) ==> Distinct(s + [x])
  {
  }

  function Insert(x: string, s: seq<string>): (r: seq<string>) {
    if s == [] then [x]
    else if Less(s[0], x) then [s[0]] + Insert(x, s[1..])
    else [x] + s
  }

  /** The library sort, as insertion sort: only what it returns matters here. */
  function Sort(s: seq<string>): (r: seq<string>) {
    if s == [] then [] else Insert(s[0], Sort(s[1..]))
  }

  lemma {:induction false} InsertAdds(x: string, s: seq<string>)
    ensures |Insert(x, s)| == |s| + 1 && Elements(Insert(x, s)) == Elements(s) + {x}
  {
    if s == [] {
      assert Elements([x]) == {x};
    } else {
      assert s == [s[0]] + s[1..];
      if Less(s[0], x) {
        InsertAdds(x, s[1..]);
        assert Elements(Insert(x, s)) == {s[0]} + Elements(Insert(x, s[1..]));
        assert Elements(s) == {s[0]} + Elements(s[1..]);
      } else {
        assert Elements([x] + s) == {x} + Elements(s);
      }
    }
  }

  lemma {:induction false} InsertSorts(x: string, s: seq<string>)
    requires StrictlySorted(s) && x !in s
    ensures StrictlySorted(Insert(x, s))
  {
    if s != [] {
      if Less(s[0], x) {
        InsertSorts(x, s[1..]);
        InsertAdds(x, s[1..]);
        forall y | y in Insert(x, s[1..])
          ensures Less(s[0], y)
        {
          assert y in Elements(Insert(x, s[1..]));
        }
      } else {
        LessIsTotal(s[0], x);
        forall y | y in s
          ensures Less(x, y)
        {
          if y != s[0] {
            LessIsTransitive(x, s[0], y);
          }
        }
      }
    }
  }

  /** Sorting keeps the elements and their number; distinct elements come out strictly ascending. */
  lemma {:induction false} SortSorts(s: seq<string>)
    ensures |Sort(s)| == |s| && Elements(Sort(s)) == Elements(s)
    ensures Distinct(s) ==> StrictlySorted(Sort(s))
  {
    if s != [] {
      SortSorts(s[1..]);
      InsertAdds(s[0], Sort(s[1..]));
      assert s == [s[0]] + s[1..];
      assert s[0] in Sort(s[1..]) <==> s[0] in Elements(Sort(s[1..]));
      if Distinct(s) {
        InsertSorts(s[0], Sort(s[1..]));
      }
    }
  }

  lemma SortMembers(s: seq<string>)
    ensures forall x :: x in Sort(s) <==> x in s
    ensures |Sort(s)| == |s| && (Distinct(s) ==> StrictlySorted(Sort(s)))
  {
    hide Sort, Distinct, StrictlySorted;
    SortSorts(s);
    assert forall x :: x in Sort(s) <==> x in Elements(Sort(s));
  }

  lemma SortedIsDistinct(s: seq<string>)
    requires StrictlySorted(s)
    ensures Distinct(s)
  {
    forall i, j | 0 <= i < j < |s|
      ensures s[i] != s[j]
    {
      LessIsTotal(s[i], s[j]);
    }
  }

  lemma {:induction false} DistinctCount<T(!new)>(s: seq<T>)
    requires Distinct(s)
    ensures |Elements(s)| == |s|
  {
    if s != [] {
      DistinctCount(s[1..]);
      assert Elements(s) == {s[0]} + Elements(s[1..]);
      assert s[0] !in Elements(s[1..]);
    }
  }

  /** There is only one way to list a set of strings in ascending order. */
  lemma {:induction false} SortedIsUnique(a: seq<string>, b: seq<string>)
    requires StrictlySorted(a) && StrictlySorted(b) && Elements(a) == Elements(b)
    ensures a == b
    decreases |a|
  {
    SortedIsDistinct(a);
    SortedIsDistinct(b);
    DistinctCount(a);
    DistinctCount(b);
    if a != [] {
      assert a[0] in Elements(b) && b[0] in Elements(a);
      LessIsTotal(a[0], b[0]);
      assert a[0] == b[0];
      assert Elements(a[1..]) == Elements(a) - {a[0]};
      assert Elements(b[1..]) == Elements(b) - {b[0]};
      SortedIsUnique(a[1..], b[1..]);
    }
  }

  /** The elements of a set in ascending order. */
  method SortedKeys(keys: set<string>) returns (sorted: seq<string>)
    ensures StrictlySorted(sorted) && Elements(sorted) == keys
  {
    hide StrictlySorted;
    var listed: seq<string>, rest := [], keys;
    assert Distinct(listed);
    while rest != {}
      invariant rest <= keys && Distinct(listed) && Elements(listed) == keys - rest
      decreases rest
    {
      var key :| key in rest;
      AppendDistinct(listed, key);
      listed := listed + [key];
      rest := rest - {key};
    }
    SortSorts(listed);
    sorted := Sort(listed);
  }
}
