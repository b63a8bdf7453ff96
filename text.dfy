/** The string operations of Python the scripts rely on, over `seq<char>`. */
module Text {

  /** Number of occurrences of `c` in `s`. */
  function Count(s: string, c: char): nat
  {
    if s == [] then 0 else (if s[0] == c then 1 else 0) + Count(s[1..], c)
  }

  /** `s.split(sep)` for a one-character separator: always at least one piece,
      one more piece than there are separators, and no piece holds `sep`. */
  function Split(s: string, sep: char): (r: seq<string>)
    ensures |r| == Count(s, sep) + 1
    ensures forall i :: 0 <= i < |r| ==> sep !in r[i]
  {
    if s == [] then [""]
    else
      var rest := Split(s[1..], sep);
      if s[0] == sep then [""] + rest
      else [[s[0]] + rest[0]] + rest[1..]
  }

  lemma {:induction false} ConcatAssoc<T>(a: seq<T>, b: seq<T>, c: seq<T>)
    ensures a + b + c == a + (b + c)
  {
  }

  /** A prefix one element longer is the prefix with that element appended. */
  lemma {:induction false} TakeOneMore<T>(s: seq<T>, n: nat)
    requires n < |s|
    ensures s[..n] + [s[n]] == s[..n + 1]
  {
  }

  /** Appending three elements one at a time appends the three of them in order. */
  lemma {:induction false} AppendThree<T>(s: seq<T>, a: T, b: T, c: T)
    ensures s + [a] + [b] + [c] == s + [a, b, c]
  {
  }

  lemma {:induction false} AppendNothing(a: string, b: string)
    requires b == []
    ensures a + b == a
  {
  }

  /** A character occurs in `s` exactly when it is counted. */
  lemma {:induction false} CountPositive(s: string, c: char)
    ensures Count(s, c) > 0 <==> c in s
  {
    if s != [] {
      CountPositive(s[1..], c);
      assert s == [s[0]] + s[1..];
    }
  }

  /** `sep.join(parts)`. */
  function Join(sep: string, parts: seq<string>): string
  {
    if parts == [] then ""
    else if |parts| == 1 then parts[0]
    else parts[0] + sep + Join(sep, parts[1..])
  }

  lemma {:induction false} SplitWithoutSeparator(s: string, sep: char)
    requires sep !in s
    ensures Split(s, sep) == [s]
  {
    if s != [] {
      SplitWithoutSeparator(s[1..], sep);
      assert s[0] != sep;
      assert [s[0]] + s[1..] == s;
    }
  }

  /** The last piece that `Split` yields: what follows the last separator. */
  function LastPiece(s: string, sep: char): (r: string)
    ensures sep !in r
  {
    var parts := Split(s, sep);
    parts[|parts| - 1]
  }

  /** The pieces of `[c] + s` from the pieces `parts` of `s`. */
  function SplitCons(c: char, sep: char, parts: seq<string>): (r: seq<string>)
    requires parts != []
    ensures |r| == |parts| + (if c == sep then 1 else 0)
  {
    if c == sep then [""] + parts else [[c] + parts[0]] + parts[1..]
  }

  /** Putting one character in front keeps "the last piece has `ext` appended". */
  lemma {:induction false} SplitConsSnoc(c: char, sep: char, parts: seq<string>, rest: seq<string>, ext: string)
    requires parts != [] && rest == parts[..|parts| - 1] + [parts[|parts| - 1] + ext]
    ensures var sp := SplitCons(c, sep, parts);
      SplitCons(c, sep, rest) == sp[..|sp| - 1] + [sp[|sp| - 1] + ext]
  {
    if c != sep && |parts| == 1 {
      assert [c] + (parts[0] + ext) == [c] + parts[0] + ext;
    }
  }

  /** Text without a separator, appended, extends the last piece only. */
  lemma {:induction false} SplitAppend(s: string, ext: string, sep: char)
    requires sep !in ext
    ensures Split(s + ext, sep) == Split(s, sep)[..|Split(s, sep)| - 1] + [LastPiece(s, sep) + ext]
  {
    if s == [] {
      assert s + ext == ext;
      SplitWithoutSeparator(ext, sep);
    } else {
      assert (s + ext)[1..] == s[1..] + ext;
      assert (s + ext)[0] == s[0];
      SplitAppend(s[1..], ext, sep);
      var parts := Split(s[1..], sep);
      var rest := Split(s[1..] + ext, sep);
      assert Split(s, sep) == SplitCons(s[0], sep, parts);
      assert Split(s + ext, sep) == SplitCons(s[0], sep, rest);
      SplitConsSnoc(s[0], sep, parts, rest, ext);
    }
  }

  /** Splitting at a separator splits the two sides independently. */
  lemma {:induction false} SplitAround(a: string, sep: char, b: string)
    ensures Split(a + [sep] + b, sep) == Split(a, sep) + Split(b, sep)
  {
    var x := a + [sep] + b;
    var sb := Split(b, sep);
    if a == [] {
      assert x == [sep] + b;
      assert x[1..] == b;
    } else {
      assert x[0] == a[0];
      assert x[1..] == a[1..] + [sep] + b;
      SplitAround(a[1..], sep, b);
      var r := Split(x[1..], sep);
      var s := Split(a[1..], sep);
      assert r == s + sb;
      if a[0] == sep {
        ConcatAssoc([""], s, sb);
      } else {
        var h := [a[0]] + s[0];
        assert r[0] == s[0];
        assert r[1..] == s[1..] + sb;
        ConcatAssoc([h], s[1..], sb);
      }
    }
  }

  /** Splitting undoes joining when no part contains the separator. */
  lemma {:induction false} SplitJoin(parts: seq<string>, sep: char)
    requires |parts| >= 1
    requires forall i :: 0 <= i < |parts| ==> sep !in parts[i]
    ensures Split(Join([sep], parts), sep) == parts
  {
    SplitWithoutSeparator(parts[0], sep);
    if |parts| > 1 {
      SplitJoin(parts[1..], sep);
      SplitAround(parts[0], sep, Join([sep], parts[1..]));
      assert [parts[0]] + parts[1..] == parts;
    }
  }

  /** Joining undoes splitting. */
  lemma {:induction false} JoinSplit(s: string, sep: char)
    ensures Join([sep], Split(s, sep)) == s
  {
    if s != [] {
      JoinSplit(s[1..], sep);
      var rest := Split(s[1..], sep);
      if s[0] == sep {
        assert Split(s, sep) == [""] + rest;
        assert ([""] + rest)[1..] == rest;
      } else {
        if |rest| > 1 {
          assert Join([sep], rest) == rest[0] + [sep] + Join([sep], rest[1..]);
          assert ([[s[0]] + rest[0]] + rest[1..])[1..] == rest[1..];
        }
      }
    }
  }

  /** A character that is neither in the separator nor in any part is not in the join. */
  lemma {:induction false} JoinAvoids(sep: string, parts: seq<string>, c: char)
    requires c !in sep
    requires forall i :: 0 <= i < |parts| ==> c !in parts[i]
    ensures c !in Join(sep, parts)
  {
    if |parts| > 1 {
      JoinAvoids(sep, parts[1..], c);
    }
  }

  /** A join of parts that are all non-empty is empty only when there are no parts. */
  lemma {:induction false} JoinEmpty(sep: string, parts: seq<string>)
    requires forall i :: 0 <= i < |parts| ==> parts[i] != ""
    ensures Join(sep, parts) == "" <==> parts == []
  {
    if |parts| > 1 {
      assert |Join(sep, parts)| >= |parts[0]|;
    }
  }

  /** The whitespace bytes Python's `bytes.strip()` removes. */
  predicate IsSpace(c: char)
  {
    c == ' ' || c == '\t' || c == '\n' || c == '\r' || c == '\U{0B}' || c == '\U{0C}'
  }

  /** The first index at or after `i` that does not hold whitespace. */
  function SkipSpaces(s: string, i: nat): (k: nat)
    requires i <= |s|
    ensures i <= k <= |s|
    ensures forall j :: i <= j < k ==> IsSpace(s[j])
    ensures k < |s| ==> !IsSpace(s[k])
    decreases |s| - i
  {
    if i < |s| && IsSpace(s[i]) then SkipSpaces(s, i + 1) else i
  }

  /** The end of `s[lo..e]` once its trailing whitespace is dropped. */
  function BackSpaces(s: string, lo: nat, e: nat): (k: nat)
    requires lo <= e <= |s|
    ensures lo <= k <= e
    ensures forall j :: k <= j < e ==> IsSpace(s[j])
    ensures k > lo ==> !IsSpace(s[k - 1])
  {
    if e > lo && IsSpace(s[e - 1]) then BackSpaces(s, lo, e - 1) else e
  }

  /** `s.strip()`: the part of `s` between its leading and trailing whitespace. */
  function Strip(s: string): (r: string)
    ensures r == [] || (!IsSpace(r[0]) && !IsSpace(r[|r| - 1]))
    ensures r == [] <==> forall i :: 0 <= i < |s| ==> IsSpace(s[i])
  {
    var lo := SkipSpaces(s, 0);
    var hi := BackSpaces(s, lo, |s|);
    s[lo..hi]
  }

  /** Stripping removes whitespace padding on both sides and nothing of a string
      that is already stripped. */
  lemma {:induction false} StripPadded(a: string, t: string, b: string)
    requires forall i :: 0 <= i < |a| ==> IsSpace(a[i])
    requires forall i :: 0 <= i < |b| ==> IsSpace(b[i])
    requires Strip(t) == t
    ensures Strip(a + t + b) == t
  {
    var s := a + t + b;
    if t == [] {
      assert forall i :: 0 <= i < |s| ==> IsSpace(s[i]) by {
        forall i | 0 <= i < |s| ensures IsSpace(s[i]) {
          if i < |a| { assert s[i] == a[i]; } else { assert s[i] == b[i - |a|]; }
        }
      }
    } else {
      var lo := SkipSpaces(s, 0);
      assert s[|a|] == t[0];
      assert lo == |a|;
      var e := |a| + |t|;
      var hi := BackSpaces(s, lo, |s|);
      assert s[e - 1] == t[|t| - 1];
      assert hi == e;
      assert s[lo..hi] == t;
    }
  }

  predicate IsDigit(c: char)
  {
    '0' <= c <= '9'
  }

  function Digit(d: nat): (c: char)
    requires d < 10
    ensures IsDigit(c) && c as int - '0' as int == d
  {
    (d + '0' as int) as char
  }

  /** `str(n)` for a natural number. */
  function Decimal(n: nat): (r: string)
    ensures |r| >= 1
    ensures forall i :: 0 <= i < |r| ==> IsDigit(r[i])
  {
    if n < 10 then [Digit(n)] else Decimal(n / 10) + [Digit(n % 10)]
  }

  /** The number a string of decimal digits denotes. */
  function DigitsValue(s: string): nat
    requires forall i :: 0 <= i < |s| ==> IsDigit(s[i])
  {
    if s == [] then 0
    else
      assert IsDigit(s[|s| - 1]);
      DigitsValue(s[..|s| - 1]) * 10 + (s[|s| - 1] as int - '0' as int)
  }

  /** Reading back what `Decimal` writes gives the number: `str` is injective on naturals. */
  lemma {:induction false} DecimalRoundTrip(n: nat)
    ensures DigitsValue(Decimal(n)) == n
  {
    if n >= 10 {
      DecimalRoundTrip(n / 10);
      var s := Decimal(n);
      assert s[..|s| - 1] == Decimal(n / 10);
    }
  }

  lemma {:induction false} DecimalInjective(m: nat, n: nat)
    requires Decimal(m) == Decimal(n)
    ensures m == n
  {
    DecimalRoundTrip(m);
    DecimalRoundTrip(n);
  }

  /** `str(i)` / `'{}'.format(i)` for any integer. */
  function IntStr(i: int): string
  {
    if i < 0 then "-" + Decimal(-i) else Decimal(i)
  }

  /** `'{:02d}'.format(i)`: at least two characters, zero-filled after any sign. */
  function Pad2(i: int): (r: string)
    ensures 0 <= i < 100 ==> |r| == 2 && forall k :: 0 <= k < 2 ==> IsDigit(r[k])
    ensures 0 <= i ==> (forall k :: 0 <= k < |r| ==> IsDigit(r[k])) && DigitsValue(r) == i
  {
    DecimalRoundTrip(if i < 0 then -i else i);
    if 0 <= i < 10 then
      assert ("0" + Decimal(i))[..1] == "0";
      "0" + Decimal(i)
    else IntStr(i)
  }
}
