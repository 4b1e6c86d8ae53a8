/** Strings as Python compares and reads them. */
module Strings {
  /** By code points, a proper prefix first. */
  predicate StrLe(a: string, b: string) {
    a == "" || (b != "" && (a[0] < b[0] || (a[0] == b[0] && StrLe(a[1..], b[1..]))))
  }

  lemma {:induction false} StrLeTotal(a: string, b: string)
    ensures StrLe(a, b) || StrLe(b, a)
    ensures StrLe(a, b) && StrLe(b, a) ==> a == b
    ensures StrLe(a, a)
  {
    if a != "" {
      StrLeTotal(a[1..], a[1..]);
      if b != "" {
        StrLeTotal(a[1..], b[1..]);
        if a[0] == b[0] && a[1..] == b[1..] {
          assert a == [a[0]] + a[1..] && b == [b[0]] + b[1..];
        }
      }
    }
  }

  lemma {:induction false} StrLeTransitive(a: string, b: string, c: string)
    requires StrLe(a, b) && StrLe(b, c)
    ensures StrLe(a, c)
  {
    if a != "" && a[0] == b[0] == c[0] {
      StrLeTransitive(a[1..], b[1..], c[1..]);
    }
  }

  /** The digits Python's `\d` and `int` read; those of other scripts are left out. */
  predicate IsDigit(c: char) {
    '0' <= c <= '9'
  }

  function DigitValue(c: char): nat
    requires IsDigit(c)
  {
    c as int - '0' as int
  }

  predicate AllDigits(s: string) {
    s != "" && forall i :: 0 <= i < |s| ==> IsDigit(s[i])
  }

  function DigitsValue(s: string): nat
    requires forall i :: 0 <= i < |s| ==> IsDigit(s[i])
  {
    if s == "" then 0 else DigitsValue(s[..|s| - 1]) * 10 + DigitValue(s[|s| - 1])
  }

  /** The decimal digits of a number. */
  function Decimal(n: nat): (s: string)
    ensures AllDigits(s)
  {
    var digit := [(n % 10 + '0' as int) as char];
    if n < 10 then digit else Decimal(n / 10) + digit
  }

  lemma {:induction false} DecimalValue(n: nat)
    ensures DigitsValue(Decimal(n)) == n
  {
    var s := Decimal(n);
    if n >= 10 {
      DecimalValue(n / 10);
      assert s[..|s| - 1] == Decimal(n / 10);
    }
    assert DigitValue(s[|s| - 1]) == n % 10;
  }

  predicate Zeros(s: string) {
    forall i :: 0 <= i < |s| ==> s[i] == '0'
  }

  lemma {:induction false} ZerosValue(zeros: string, n: nat)
    requires Zeros(zeros)
    ensures AllDigits(zeros + Decimal(n)) && DigitsValue(zeros + Decimal(n)) == n
    decreases n
  {
    var s := zeros + Decimal(n);
    DecimalValue(n);
    if n < 10 {
      ZerosNothing(zeros);
      assert s[..|s| - 1] == zeros;
    } else {
      ZerosValue(zeros, n / 10);
      assert s[..|s| - 1] == zeros + Decimal(n / 10);
    }
  }

  lemma {:induction false} ZerosNothing(zeros: string)
    requires Zeros(zeros)
    ensures DigitsValue(zeros) == 0
  {
    if zeros != "" {
      ZerosNothing(zeros[..|zeros| - 1]);
    }
  }

  lemma DigitsMore(s: string)
    requires AllDigits(s)
    ensures DigitsValue(s) == DigitsValue(s[..|s| - 1]) * 10 + DigitValue(s[|s| - 1]) && DigitsValue("") == 0
  {}

  lemma DecimalMore(n: nat, c: char)
    requires IsDigit(c)
    ensures Decimal(0) == "0"
    ensures Decimal(n * 10 + DigitValue(c)) == if n == 0 then [c] else Decimal(n) + [c]
  {}

  /** Digits are a number in decimal behind zeros. */
  lemma {:induction false} DigitsSplit(s: string) returns (zeros: string)
    requires AllDigits(s)
    ensures Zeros(zeros) && s == zeros + Decimal(DigitsValue(s))
  {
    hide Decimal, DigitsValue;
    var n := |s| - 1;
    var init := s[..n];
    DigitsMore(s);
    DecimalMore(DigitsValue(init), s[n]);
    if init == "" {
      zeros := "";
    } else {
      zeros := DigitsSplit(init);
      if DigitsValue(init) == 0 {
        zeros := init;
      } else {
        assert s == init + [s[n]];
      }
    }
  }

  // ----- the order told by the first difference ------------------------------------------------------

  /** The strings first differ at `i`. */
  predicate DifferAt(a: string, b: string, i: nat) {
    i < |a| && i < |b| && a[i] != b[i] && forall k :: 0 <= k < i ==> a[k] == b[k]
  }

  /** The first difference, when neither is a prefix of the other. */
  lemma {:induction false} FirstDiffers(a: string, b: string) returns (i: nat)
    requires !(a <= b) && !(b <= a)
    ensures DifferAt(a, b, i)
  {
    i := 0;
    if a[0] == b[0] {
      assert a == [a[0]] + a[1..] && b == [b[0]] + b[1..];
      var j := FirstDiffers(a[1..], b[1..]);
      i := j + 1;
      assert forall k :: 0 < k < i ==> a[k] == a[1..][k - 1] && b[k] == b[1..][k - 1];
    }
  }

  lemma DifferOnce(a: string, b: string, i: nat, j: nat)
    requires DifferAt(a, b, i) && DifferAt(a, b, j)
    ensures i == j
  {}

  /** A prefix comes first. */
  lemma {:induction false} PrefixFirst(a: string, b: string)
    requires a <= b
    ensures StrLe(a, b) && (StrLe(b, a) ==> a == b)
  {
    if a != "" {
      PrefixFirst(a[1..], b[1..]);
      assert a == [a[0]] + a[1..] && b == [b[0]] + b[1..];
    }
  }

  /** Else the first difference decides. */
  lemma {:induction false} DifferenceDecides(a: string, b: string, i: nat)
    requires DifferAt(a, b, i)
    ensures StrLe(a, b) <==> a[i] < b[i]
  {
    if i > 0 {
      DifferenceDecides(a[1..], b[1..], i - 1);
    }
  }
}
