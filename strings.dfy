/**
  The two library string routines the URL parser relies on:
  `boost::split` with a single separator character (token compression off)
  and `boost::lexical_cast<int>` from text to a 32-bit signed integer.
 */
module Strings {
  import opened Wrappers

  /** Number of occurrences of `c` in `s`. */
  function Count(s: string, c: char): nat
  {
    if |s| == 0 then 0 else (if s[0] == c then 1 else 0) + Count(s[1..], c)
  }

  /**
    `boost::split(parts, s, is_any_of(sep))`: every separator ends one token,
    adjacent separators give empty tokens, and the empty string gives one empty
    token. No token contains the separator.
   */
  function Split(s: string, sep: char): (parts: seq<string>)
    ensures |parts| >= 1
    ensures forall i :: 0 <= i < |parts| ==> sep !in parts[i]
  {
    if |s| == 0 then [""]
    else
      var rest := Split(s[1..], sep);
      if s[0] == sep then [""] + rest
      else [[s[0]] + rest[0]] + rest[1..]
  }

  /** The inverse of Split: the tokens glued back together with the separator. */
  function Join(parts: seq<string>, sep: char): string
    requires |parts| >= 1
  {
    if |parts| == 1 then parts[0] else parts[0] + [sep] + Join(parts[1..], sep)
  }

  /** Splitting yields one more token than there are separators. */
  lemma {:induction false} SplitLength(s: string, sep: char)
    ensures |Split(s, sep)| == Count(s, sep) + 1
  {
    if |s| > 0 {
      SplitLength(s[1..], sep);
    }
  }

  /** Splitting loses nothing: joining the tokens restores the input. */
  lemma {:induction false} JoinSplit(s: string, sep: char)
    ensures Join(Split(s, sep), sep) == s
  {
    if |s| > 0 {
      var rest := Split(s[1..], sep);
      JoinSplit(s[1..], sep);
      if s[0] != sep {
        var parts := Split(s, sep);
        if |rest| == 1 {
          assert parts == [[s[0]] + rest[0]];
        } else {
          assert parts[1..] == rest[1..];
          assert Join(rest, sep) == rest[0] + [sep] + Join(rest[1..], sep);
        }
      }
    }
  }

  /** A character absent from the input is absent from every token. */
  lemma {:induction false} SplitKeepsAbsent(s: string, sep: char, c: char)
    requires c !in s
    ensures forall i :: 0 <= i < |Split(s, sep)| ==> c !in Split(s, sep)[i]
  {
    if |s| > 0 {
      assert c !in s[1..] by {
        forall k | 0 <= k < |s[1..]| ensures s[1..][k] != c { assert s[1..][k] == s[k + 1]; }
      }
      SplitKeepsAbsent(s[1..], sep, c);
    }
  }

  /** A string without the separator is a single token. */
  lemma {:induction false} SplitNoSeparator(a: string, sep: char)
    requires sep !in a
    ensures Split(a, sep) == [a]
  {
    if |a| > 0 {
      assert sep !in a[1..] by {
        forall k | 0 <= k < |a[1..]| ensures a[1..][k] != sep { assert a[1..][k] == a[k + 1]; }
      }
      SplitNoSeparator(a[1..], sep);
      assert [a[0]] + a[1..] == a;
    }
  }

  /** A separator between `a` and `b` splits them independently. */
  lemma {:induction false} SplitAtSeparator(a: string, sep: char, b: string)
    ensures Split(a + [sep] + b, sep) == Split(a, sep) + Split(b, sep)
  {
    var s := a + [sep] + b;
    if |a| == 0 {
      assert s == [sep] + b;
      assert s[1..] == b;
    } else {
      assert s[0] == a[0];
      assert s[1..] == a[1..] + [sep] + b;
      SplitAtSeparator(a[1..], sep, b);
    }
  }

  /** Splitting undoes joining, when no token holds the separator. */
  lemma {:induction false} SplitJoin(parts: seq<string>, sep: char)
    requires |parts| >= 1
    requires forall i :: 0 <= i < |parts| ==> sep !in parts[i]
    ensures Split(Join(parts, sep), sep) == parts
  {
    SplitNoSeparator(parts[0], sep);
    if |parts| > 1 {
      SplitJoin(parts[1..], sep);
      SplitAtSeparator(parts[0], sep, Join(parts[1..], sep));
    }
  }

  // ---------------------------------------------------------------------
  // lexical_cast<int>

  const IntMin: int := -0x8000_0000
  const IntMax: int := 0x7fff_ffff

  predicate IsDigit(c: char)
  {
    '0' <= c <= '9'
  }

  predicate AllDigits(s: string)
  {
    forall i :: 0 <= i < |s| ==> IsDigit(s[i])
  }

  function DigitValue(c: char): nat
    requires IsDigit(c)
  {
    c as int - '0' as int
  }

  /** The value of a decimal digit string, most significant digit first. */
  function DigitsValue(s: string): nat
    requires AllDigits(s)
  {
    if |s| == 0 then 0 else DigitsValue(s[..|s| - 1]) * 10 + DigitValue(s[|s| - 1])
  }

  /**
    `boost::lexical_cast<int>(s)`: an optional '+' or '-', then one or more
    decimal digits and nothing else; a value outside the 32-bit range fails
    like malformed text does.
   */
  function LexicalCastInt(s: string): (r: Option<int>)
    ensures r.Some? ==> IntMin <= r.value <= IntMax
    ensures r.Some? ==> |s| > 0 && (IsDigit(s[0]) || s[0] == '+' || s[0] == '-')
    ensures r.Some? ==> var digits := if s[0] == '+' || s[0] == '-' then s[1..] else s;
                        |digits| > 0 && AllDigits(digits)
                        && r.value == (if s[0] == '-' then -(DigitsValue(digits) as int) else DigitsValue(digits))
    ensures |s| > 0 ==>
              var digits := if s[0] == '+' || s[0] == '-' then s[1..] else s;
              |digits| > 0 && AllDigits(digits)
              && IntMin <= (if s[0] == '-' then -(DigitsValue(digits) as int) else DigitsValue(digits)) <= IntMax
              ==> r.Some?
  {
    if |s| == 0 then None
    else
      var signed := s[0] == '-' || s[0] == '+';
      var digits := if signed then s[1..] else s;
      if |digits| == 0 || !AllDigits(digits) then None
      else
        var v: int := if s[0] == '-' then -(DigitsValue(digits) as int) else DigitsValue(digits);
        if IntMin <= v <= IntMax then Some(v) else None
  }

  /** A leading zero does not change the value of a digit string. */
  lemma {:induction false} DigitsValueLeadingZero(s: string)
    requires AllDigits(s)
    ensures AllDigits("0" + s) && DigitsValue("0" + s) == DigitsValue(s)
  {
    var z := "0" + s;
    assert AllDigits(z) by {
      forall i | 0 <= i < |z| ensures IsDigit(z[i]) { if i > 0 { assert z[i] == s[i - 1]; } }
    }
    if |s| > 0 {
      assert z[..|z| - 1] == "0" + s[..|s| - 1];
      DigitsValueLeadingZero(s[..|s| - 1]);
    }
  }

  /** lexical_cast<int> ignores leading zeros on an unsigned digit string. */
  lemma LexicalCastLeadingZero(s: string)
    requires |s| > 0 && AllDigits(s)
    ensures LexicalCastInt("0" + s) == LexicalCastInt(s)
  {
    DigitsValueLeadingZero(s);
  }

  /** A leading '+' does not change what lexical_cast<int> makes of text that has no sign of its own. */
  lemma LexicalCastPlus(s: string)
    requires |s| == 0 || (s[0] != '+' && s[0] != '-')
    ensures LexicalCastInt("+" + s) == LexicalCastInt(s)
  {
    assert ("+" + s)[1..] == s;
  }

  /** A leading '-' negates what lexical_cast<int> makes of an unsigned digit string, within range. */
  lemma LexicalCastMinus(s: string)
    requires |s| > 0 && AllDigits(s)
    ensures LexicalCastInt("-" + s) == if IntMin <= -(DigitsValue(s) as int) then Some(-(DigitsValue(s) as int)) else None
  {
    var t := "-" + s;
    assert t[0] == '-' && t[1..] == s;
    var v: int := -(DigitsValue(s) as int);
    assert v <= 0 <= IntMax;
  }

  /** Decimal rendering of a natural number, without leading zeros. */
  function FormatNat(n: nat): (s: string)
    ensures |s| > 0 && AllDigits(s)
  {
    if n < 10 then [('0' as int + n) as char]
    else FormatNat(n / 10) + [('0' as int + n % 10) as char]
  }

  /** Decimal rendering of an integer, with a leading '-' when negative. */
  function FormatInt(n: int): string
  {
    if n < 0 then "-" + FormatNat(-n) else FormatNat(n)
  }

  lemma {:induction false} DigitsValueFormatNat(n: nat)
    ensures DigitsValue(FormatNat(n)) == n
  {
    var s := FormatNat(n);
    if n >= 10 {
      DigitsValueFormatNat(n / 10);
      assert s[..|s| - 1] == FormatNat(n / 10);
    }
  }

  /** lexical_cast<int> reads back every 32-bit integer that FormatInt renders. */
  lemma LexicalCastFormatInt(n: int)
    requires IntMin <= n <= IntMax
    ensures LexicalCastInt(FormatInt(n)) == Some(n)
  {
    if n < 0 {
      var d := FormatNat(-n);
      DigitsValueFormatNat(-n);
      LexicalCastMinus(d);
    } else {
      var d := FormatNat(n);
      DigitsValueFormatNat(n);
      assert IsDigit(d[0]);
    }
  }
}
