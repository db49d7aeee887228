/**
 * The little string handling the core does: rendering integers into labels
 * and messages (template literals `${n}`), `String.prototype.split` on one
 * separator character, and `Number` applied to the pieces of an `"HH:MM"`
 * string.
 */
module Text {

  datatype Option<T> = None | Some(value: T)

  predicate IsDigit(c: char)
  {
    '0' <= c <= '9'
  }

  /** The value of a decimal digit character. */
  function DigitValue(c: char): int
  {
    c as int - '0' as int
  }

  function DigitChar(n: int): (c: char)
    requires 0 <= n < 10
    ensures IsDigit(c) && DigitValue(c) == n
  {
    ('0' as int + n) as char
  }

  /** Decimal digits of a natural number, most significant first, no leading zeros. */
  function ShowNat(n: nat): (s: string)
    ensures |s| >= 1
    ensures forall i :: 0 <= i < |s| ==> IsDigit(s[i])
    ensures |s| > 1 ==> s[0] != '0'
  {
    if n < 10 then [DigitChar(n)] else ShowNat(n / 10) + [DigitChar(n % 10)]
  }

  /** An integer as a template literal renders it: a non-negative number
      reads back as itself, a negative one as a minus sign followed by the
      rendering of its magnitude; neither has a leading zero. */
  function ShowInt(n: int): (s: string)
    ensures |s| >= 1
    ensures n >= 0 ==> NumberOf(s) == Some(n)
    ensures n >= 0 && |s| > 1 ==> s[0] != '0'
    ensures n < 0 ==> |s| >= 2 && s[0] == '-' && s[1] != '0' && NumberOf(s[1..]) == Some(-n)
  {
    if n < 0 then
      NumberOfShowNat(-n);
      assert ("-" + ShowNat(-n))[1..] == ShowNat(-n);
      "-" + ShowNat(-n)
    else
      NumberOfShowNat(n);
      ShowNat(n)
  }

  /** The value of a string of decimal digits (0 for the empty string). */
  function DigitsValue(s: string): (v: nat)
    requires forall i :: 0 <= i < |s| ==> IsDigit(s[i])
  {
    if s == [] then 0
    else
      assert IsDigit(s[|s| - 1]);
      DigitsValue(s[..|s| - 1]) * 10 + DigitValue(s[|s| - 1])
  }

  /** `Number(s)` for a string of decimal digits; the empty string is 0.
      Every other string is treated as not-a-number, `None`. A number is
      never negative. */
  function NumberOf(s: string): (r: Option<int>)
    ensures r.Some? <==> forall i :: 0 <= i < |s| ==> IsDigit(s[i])
    ensures r.Some? ==> r.value >= 0
  {
    if forall i :: 0 <= i < |s| ==> IsDigit(s[i]) then Some(DigitsValue(s)) else None
  }

  /** A leading zero does not change the value ("07" is 7). */
  lemma {:induction false} DigitsLeadingZero(s: string)
    requires forall i :: 0 <= i < |s| ==> IsDigit(s[i])
    ensures DigitsValue(['0'] + s) == DigitsValue(s)
  {
    if s != [] {
      var z := ['0'] + s;
      assert z[..|z| - 1] == ['0'] + s[..|s| - 1];
      assert z[|z| - 1] == s[|s| - 1];
      DigitsLeadingZero(s[..|s| - 1]);
    }
  }

  /** `Number` ignores a leading zero, so "07" and "7" are both 7. */
  lemma NumberOfLeadingZero(s: string)
    ensures NumberOf(['0'] + s) == NumberOf(s)
  {
    var z := ['0'] + s;
    assert forall i :: 1 <= i < |z| ==> z[i] == s[i - 1];
    if forall i :: 0 <= i < |s| ==> IsDigit(s[i]) {
      DigitsLeadingZero(s);
    } else {
      var i :| 0 <= i < |s| && !IsDigit(s[i]);
      assert z[i + 1] == s[i];
    }
  }

  /** Parsing the rendering of a natural number gives the number back. */
  lemma {:induction false} NumberOfShowNat(n: nat)
    ensures NumberOf(ShowNat(n)) == Some(n)
  {
    if n >= 10 {
      NumberOfShowNat(n / 10);
      var s := ShowNat(n);
      assert s[..|s| - 1] == ShowNat(n / 10);
      assert s[|s| - 1] == DigitChar(n % 10);
      assert DigitsValue(s) == DigitsValue(ShowNat(n / 10)) * 10 + n % 10;
    }
  }

  /** `s.split(sep)`: the pieces between occurrences of `sep`, at least one. */
  function Split(s: string, sep: char): (parts: seq<string>)
    ensures |parts| >= 1
    ensures forall i :: 0 <= i < |parts| ==> sep !in parts[i]
  {
    if s == [] then [""]
    else if s[0] == sep then [""] + Split(s[1..], sep)
    else
      var rest := Split(s[1..], sep);
      [[s[0]] + rest[0]] + rest[1..]
  }

  /** `parts.join(sep)`. */
  function Join(parts: seq<string>, sep: char): string
    requires |parts| >= 1
  {
    if |parts| == 1 then parts[0] else parts[0] + [sep] + Join(parts[1..], sep)
  }

  /** Splitting loses nothing: joining the pieces with the separator rebuilds the string. */
  lemma {:induction false} JoinSplit(s: string, sep: char)
    ensures Join(Split(s, sep), sep) == s
  {
    if s != [] {
      JoinSplit(s[1..], sep);
      var rest := Split(s[1..], sep);
      if s[0] == sep {
        assert Split(s, sep)[1..] == rest;
      } else {
        var parts := Split(s, sep);
        assert parts[0] == [s[0]] + rest[0];
        if |rest| > 1 {
          assert parts[1..] == rest[1..];
        }
      }
    }
  }

  /** A string without the separator splits into itself alone. */
  lemma {:induction false} SplitNoSeparator(s: string, sep: char)
    requires sep !in s
    ensures Split(s, sep) == [s]
  {
    if s != [] {
      assert sep !in s[1..];
      SplitNoSeparator(s[1..], sep);
      assert [s[0]] + s[1..] == s;
    }
  }

  /** A string with one separator splits into the parts on either side of it. */
  lemma {:induction false} SplitOneSeparator(a: string, b: string, sep: char)
    requires sep !in a && sep !in b
    ensures Split(a + [sep] + b, sep) == [a, b]
  {
    if a == [] {
      assert a + [sep] + b == [sep] + b;
      assert ([sep] + b)[1..] == b;
      SplitNoSeparator(b, sep);
    } else {
      assert (a + [sep] + b)[1..] == a[1..] + [sep] + b;
      assert sep !in a[1..];
      SplitOneSeparator(a[1..], b, sep);
      assert [a[0]] + a[1..] == a;
    }
  }
}
