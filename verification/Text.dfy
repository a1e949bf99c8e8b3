/** Decimal numerals and the few string operations the other modules share. */
module Text {

  datatype Option<+T> = None | Some(value: T)

  datatype Result<+T> = Ok(value: T) | Err(message: string)

  predicate IsDigit(c: char) { '0' <= c <= '9' }

  predicate AllDigits(s: string) { forall i :: 0 <= i < |s| ==> IsDigit(s[i]) }

  /** A non-empty run of ASCII digits: what `\d+` matches. */
  predicate IsNumeral(s: string) { |s| > 0 && AllDigits(s) }

  function DigitChar(d: nat): (c: char)
    requires d < 10
    ensures IsDigit(c) && DigitValue(c) == d
  {
    '0' + d as char
  }

  function DigitValue(c: char): (d: nat)
    requires IsDigit(c)
    ensures d < 10
  {
    (c - '0') as int
  }

  /** `%d` on a non-negative number. */
  function Decimal(n: nat): (s: string)
    ensures IsNumeral(s)
  {
    if n < 10 then [DigitChar(n)] else Decimal(n / 10) + [DigitChar(n % 10)]
  }

  /** The number a numeral stands for; leading zeros do not count. */
  function Value(s: string): nat
    requires AllDigits(s)
  {
    if s == [] then 0 else 10 * Value(s[..|s| - 1]) + DigitValue(s[|s| - 1])
  }

  lemma {:induction false} ValueOfDecimal(n: nat)
    ensures Value(Decimal(n)) == n
  {
    if n >= 10 {
      ValueOfDecimal(n / 10);
      var s := Decimal(n);
      assert s[..|s| - 1] == Decimal(n / 10);
    } else {
      assert Decimal(n)[..0] == [];
    }
  }

  /** Without a leading zero, unless it is the zero itself. */
  predicate IsShortest(s: string) { IsNumeral(s) && (s[0] == '0' ==> |s| == 1) }

  lemma {:induction false} DecimalIsShortest(n: nat)
    ensures IsShortest(Decimal(n)) && (n > 0 ==> Decimal(n)[0] != '0')
  {
    if n >= 10 { DecimalIsShortest(n / 10); }
  }

  lemma {:induction false} ValueIsPositive(s: string)
    requires IsNumeral(s) && s[0] != '0'
    ensures Value(s) > 0
  {
    if |s| > 1 { ValueIsPositive(s[..|s| - 1]); }
  }

  /** The number printed again is the numeral itself exactly when it has no leading zeros. */
  lemma {:induction false} DecimalOfValue(s: string)
    requires IsNumeral(s)
    ensures Decimal(Value(s)) == s <==> IsShortest(s)
  {
    DecimalIsShortest(Value(s));
    if IsShortest(s) {
      var head, last := s[..|s| - 1], s[|s| - 1];
      assert s == head + [last];
      assert DigitChar(DigitValue(last)) == last;
      if |s| > 1 {
        ValueIsPositive(head);
        DecimalOfValue(head);
        assert Value(s) / 10 == Value(head) && Value(s) % 10 == DigitValue(last);
      } else {
        assert Value(head) == 0;
      }
    }
  }

  function Zeros(n: nat): (s: string)
    ensures |s| == n && forall i :: 0 <= i < n ==> s[i] == '0'
  {
    seq(n, _ => '0')
  }

  /** `%04d`: at least four characters, padded on the left with zeros. */
  function Padded4(n: nat): (s: string)
    ensures IsNumeral(s)
  {
    var d := Decimal(n);
    if |d| >= 4 then d else Zeros(4 - |d|) + d
  }

  lemma Padded4HasFour(n: nat)
    requires n < 10000
    ensures |Padded4(n)| == 4
  {
    if n >= 1000 {
      assert |Decimal(n / 1000)| == 1;
      assert |Decimal(n / 100)| == 2;
      assert |Decimal(n / 10)| == 3;
    } else if n >= 100 {
      assert |Decimal(n / 100)| == 1;
      assert |Decimal(n / 10)| == 2;
    }
  }

  lemma {:induction false} ValueIgnoresLeadingZeros(z: nat, s: string)
    requires AllDigits(s)
    ensures AllDigits(Zeros(z) + s) && Value(Zeros(z) + s) == Value(s)
    decreases z + |s|
  {
    var t := Zeros(z) + s;
    if s != [] {
      assert t[..|t| - 1] == Zeros(z) + s[..|s| - 1];
      ValueIgnoresLeadingZeros(z, s[..|s| - 1]);
    } else if z > 0 {
      assert t[..|t| - 1] == Zeros(z - 1) + s;
      ValueIgnoresLeadingZeros(z - 1, s);
    } else {
      assert t == [];
    }
  }

  lemma ValueOfPadded4(n: nat)
    ensures Value(Padded4(n)) == n
  {
    ValueOfDecimal(n);
    var d := Decimal(n);
    if |d| < 4 {
      ValueIgnoresLeadingZeros(4 - |d|, d);
    }
  }

  predicate HasPrefix(s: string, p: string) { p <= s }

  /** `strings.Contains`. */
  predicate Contains(s: string, p: string)
  {
    exists i :: 0 <= i <= |s| - |p| && s[i..][..|p|] == p
  }

  function FlatMap<T, U>(f: T -> seq<U>, s: seq<T>): seq<U>
  {
    if s == [] then [] else FlatMap(f, s[..|s| - 1]) + f(s[|s| - 1])
  }

  lemma {:induction false} FlatMapConcat<T, U>(f: T -> seq<U>, a: seq<T>, b: seq<T>)
    ensures FlatMap(f, a + b) == FlatMap(f, a) + FlatMap(f, b)
    decreases |b|
  {
    if b == [] {
      assert a + b == a;
    } else {
      FlatMapConcat(f, a, b[..|b| - 1]);
      assert (a + b)[..|a + b| - 1] == a + b[..|b| - 1];
    }
  }

  lemma FlatMapOne<T, U>(f: T -> seq<U>, x: T)
    ensures FlatMap(f, [x]) == f(x)
  {
  }

  lemma {:induction false} FlatMapMembers<T, U>(f: T -> seq<U>, s: seq<T>, y: U)
    ensures y in FlatMap(f, s) <==> exists x :: x in s && y in f(x)
  {
    if s != [] {
      var rest, last := s[..|s| - 1], s[|s| - 1];
      FlatMapMembers(f, rest, y);
      assert s == rest + [last];
    }
  }

  lemma {:induction false} FlatMapKeeps<T>(f: T -> seq<T>, s: seq<T>)
    requires forall i :: 0 <= i < |s| ==> f(s[i]) == [s[i]]
    ensures FlatMap(f, s) == s
  {
    if s != [] { FlatMapKeeps(f, s[..|s| - 1]); }
  }

  lemma {:induction false} FlatMapDrops<T, U>(f: T -> seq<U>, s: seq<T>)
    requires forall i :: 0 <= i < |s| ==> f(s[i]) == []
    ensures FlatMap(f, s) == []
  {
    if s != [] { FlatMapDrops(f, s[..|s| - 1]); }
  }
}
