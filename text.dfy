/** Option and the outcome of a call that may throw, shared by every module. */
module Wrappers {

  datatype Option<+T> = None | Some(value: T)

  /** The result of PHP code that either returns a value or throws (an exception, or a
      warning that the framework's error handler turns into one). */
  datatype Result<+T> = Ok(value: T) | Thrown
}

/** String helpers shared by the PHP and the JavaScript parts of the model. */
module Text {
  import opened Wrappers

  /** PHP's explode() and JavaScript's String.prototype.split with a one-character
      separator and no limit: the pieces between the separators, in order. */
  function Explode(sep: char, s: string): (parts: seq<string>)
    ensures |parts| >= 1
    decreases |s|
  {
    if |s| == 0 then [""]
    else if s[0] == sep then [""] + Explode(sep, s[1..])
    else
      var rest := Explode(sep, s[1..]);
      [[s[0]] + rest[0]] + rest[1..]
  }

  /** PHP's implode() / JavaScript's Array.prototype.join with a one-character glue. */
  function Join(sep: char, parts: seq<string>): string
    requires |parts| >= 1
    decreases |parts|
  {
    if |parts| == 1 then parts[0] else parts[0] + [sep] + Join(sep, parts[1..])
  }

  /** Number of occurrences of c in s. */
  function Occurrences(c: char, s: string): nat
  {
    if |s| == 0 then 0 else (if s[0] == c then 1 else 0) + Occurrences(c, s[1..])
  }

  /** No piece of an explode result contains the separator. */
  lemma {:induction false} ExplodePartsHaveNoSeparator(sep: char, s: string)
    ensures forall i :: 0 <= i < |Explode(sep, s)| ==> sep !in Explode(sep, s)[i]
    decreases |s|
  {
    if |s| > 0 {
      ExplodePartsHaveNoSeparator(sep, s[1..]);
    }
  }

  /** Explode yields one more piece than there are separators. */
  lemma {:induction false} ExplodeLength(sep: char, s: string)
    ensures |Explode(sep, s)| == Occurrences(sep, s) + 1
    decreases |s|
  {
    if |s| > 0 {
      ExplodeLength(sep, s[1..]);
    }
  }

  /** Gluing the pieces back together gives the original string. */
  lemma {:induction false} JoinExplode(sep: char, s: string)
    ensures Join(sep, Explode(sep, s)) == s
    decreases |s|
  {
    if |s| > 0 {
      JoinExplode(sep, s[1..]);
      var rest := Explode(sep, s[1..]);
      if s[0] != sep && |rest| > 1 {
        assert rest == [rest[0]] + rest[1..];
        assert Join(sep, rest) == rest[0] + [sep] + Join(sep, rest[1..]);
        assert [s[0]] + Join(sep, rest) == s;
      }
    }
  }

  /** A prefix free of the separator is glued onto the first piece. */
  lemma {:induction false} ExplodePrefix(sep: char, a: string, rest: string)
    requires sep !in a
    ensures Explode(sep, a + rest) == [a + Explode(sep, rest)[0]] + Explode(sep, rest)[1..]
    decreases |a|
  {
    if |a| == 0 {
      var e := Explode(sep, rest);
      assert a + rest == rest && a + e[0] == e[0];
      assert e == [e[0]] + e[1..];
    } else {
      assert (a + rest)[1..] == a[1..] + rest;
      ExplodePrefix(sep, a[1..], rest);
      assert [a[0]] + (a[1..] + Explode(sep, rest)[0]) == a + Explode(sep, rest)[0];
    }
  }

  /** Exploding a join of separator-free pieces gives the pieces back. */
  lemma {:induction false} ExplodeJoin(sep: char, parts: seq<string>)
    requires |parts| >= 1
    requires forall i :: 0 <= i < |parts| ==> sep !in parts[i]
    ensures Explode(sep, Join(sep, parts)) == parts
    decreases |parts|
  {
    if |parts| == 1 {
      ExplodePrefix(sep, parts[0], "");
      assert parts[0] + "" == parts[0];
    } else {
      ExplodeJoin(sep, parts[1..]);
      var tail := [sep] + Join(sep, parts[1..]);
      assert Join(sep, parts) == parts[0] + tail;
      ExplodePrefix(sep, parts[0], tail);
      assert tail[1..] == Join(sep, parts[1..]);
      assert Explode(sep, tail) == [""] + parts[1..];
      assert parts[0] + "" == parts[0];
    }
  }

  /** The first piece is the text before the first separator (the whole string if there
      is none). */
  lemma {:induction false} ExplodeHead(sep: char, s: string)
    ensures Explode(sep, s)[0] <= s
    ensures sep !in Explode(sep, s)[0]
    ensures |Explode(sep, s)[0]| < |s| ==> s[|Explode(sep, s)[0]|] == sep
    decreases |s|
  {
    if |s| > 0 && s[0] != sep {
      ExplodeHead(sep, s[1..]);
    }
  }

  /** A separator-free piece followed by the separator comes off as the first piece. */
  lemma ExplodeCons(sep: char, a: string, more: string)
    requires sep !in a
    ensures Explode(sep, a + [sep] + more) == [a] + Explode(sep, more)
  {
    var rest := [sep] + more;
    assert a + [sep] + more == a + rest;
    ExplodePrefix(sep, a, rest);
    assert rest[1..] == more;
    assert a + "" == a;
  }

  /** A separator-free piece after a final separator comes off as the last piece. */
  lemma {:induction false} ExplodeSnoc(sep: char, s: string, last: string)
    requires sep !in last
    ensures Explode(sep, s + [sep] + last) == Explode(sep, s) + [last]
    decreases |s|
  {
    if |s| == 0 {
      assert s + [sep] + last == [sep] + last;
      ExplodeCons(sep, "", last);
      assert "" + [sep] + last == [sep] + last;
      ExplodeJoin(sep, [last]);
    } else {
      var t := s + [sep] + last;
      assert t[0] == s[0] && t[1..] == s[1..] + [sep] + last;
      ExplodeSnoc(sep, s[1..], last);
    }
  }

  /** The first piece is a given separator-free text exactly when the string is that text or
      starts with it and the separator. */
  lemma ExplodeHeadIs(sep: char, a: string, s: string)
    requires sep !in a
    ensures Explode(sep, s)[0] == a <==> s == a || a + [sep] <= s
  {
    var head := Explode(sep, s)[0];
    ExplodeHead(sep, s);
    if s == a {
      ExplodePrefix(sep, a, "");
      assert a + "" == a;
    } else if a + [sep] <= s {
      var more := s[|a| + 1..];
      assert s == a + [sep] + more;
      ExplodeCons(sep, a, more);
    }
  }

  // ----- trimming -----

  /** Drops the leading characters for which isSpace holds. */
  function TrimStart(isSpace: char -> bool, s: string): (r: string)
    ensures |r| <= |s| && r == s[|s| - |r|..]
    ensures r == [] || !isSpace(r[0])
    ensures forall i :: 0 <= i < |s| - |r| ==> isSpace(s[i])
    decreases |s|
  {
    if |s| > 0 && isSpace(s[0]) then TrimStart(isSpace, s[1..]) else s
  }

  /** Drops the trailing characters for which isSpace holds. */
  function TrimEnd(isSpace: char -> bool, s: string): (r: string)
    ensures |r| <= |s| && r == s[..|r|]
    ensures r == [] || !isSpace(r[|r| - 1])
    ensures forall i :: |r| <= i < |s| ==> isSpace(s[i])
    decreases |s|
  {
    if |s| > 0 && isSpace(s[|s| - 1]) then TrimEnd(isSpace, s[..|s| - 1]) else s
  }

  /** Drops the spaces at both ends: what is left is a part of s with no space at
      either end. */
  function Trim(isSpace: char -> bool, s: string): (r: string)
    ensures |r| <= |s|
    ensures r == [] || (!isSpace(r[0]) && !isSpace(r[|r| - 1]))
  {
    TrimEnd(isSpace, TrimStart(isSpace, s))
  }

  /** A string with no space at either end is left as it is. */
  lemma TrimKeeps(isSpace: char -> bool, s: string)
    requires s != [] && !isSpace(s[0]) && !isSpace(s[|s| - 1])
    ensures Trim(isSpace, s) == s
  {
    assert TrimStart(isSpace, s) == s;
  }

  /** The characters PHP's trim() removes by default: space, tab, newline, carriage
      return, NUL and vertical tab. */
  predicate IsPhpSpace(c: char)
  {
    c == ' ' || c == '\t' || c == '\n' || c == '\r' || c == '\0' || c == '\U{000B}'
  }

  /** PHP's trim($s). */
  function PhpTrim(s: string): string
  {
    Trim(IsPhpSpace, s)
  }

  /** PHP's empty() on a string: true for "" and for "0". */
  predicate PhpEmpty(s: string)
  {
    s == "" || s == "0"
  }

  // ----- decimal digits -----

  predicate IsDigit(c: char)
  {
    '0' <= c <= '9'
  }

  predicate AllDigits(s: string)
  {
    forall i :: 0 <= i < |s| ==> IsDigit(s[i])
  }

  function DigitValue(c: char): nat
    requires IsDigit(c)
  {
    (c as int) - ('0' as int)
  }

  function DigitChar(d: nat): (c: char)
    requires d < 10
    ensures IsDigit(c) && DigitValue(c) == d
  {
    (('0' as int) + d) as char
  }

  /** Two decimal digits, with a leading zero below ten (PHP's "%02d", JavaScript's
      String(n).padStart(2, '0') for n < 100). */
  function Pad2(n: nat): (s: string)
    requires n < 100
    ensures |s| == 2 && AllDigits(s)
    ensures DigitValue(s[0]) * 10 + DigitValue(s[1]) == n
  {
    [DigitChar(n / 10), DigitChar(n % 10)]
  }

  /** Two-digit numbers are written differently. */
  lemma Pad2Injective(a: nat, b: nat)
    requires a < 100 && b < 100 && Pad2(a) == Pad2(b)
    ensures a == b
  {
    var p := Pad2(a);
    assert DigitValue(p[0]) * 10 + DigitValue(p[1]) == a;
    assert DigitValue(p[0]) * 10 + DigitValue(p[1]) == b;
  }

  /** The decimal form of n, without leading zeros. */
  function NatToString(n: nat): (s: string)
    ensures |s| >= 1 && AllDigits(s)
    ensures |s| > 1 ==> s[0] != '0'
  {
    if n < 10 then [DigitChar(n)] else NatToString(n / 10) + [DigitChar(n % 10)]
  }

  /** The number spelt by a string of decimal digits. */
  function DigitsValue(s: string): nat
    requires AllDigits(s)
  {
    if s == [] then 0 else DigitsValue(s[..|s| - 1]) * 10 + DigitValue(s[|s| - 1])
  }

  /** Reading back the decimal form of n gives n. */
  lemma {:induction false} NatToStringRoundTrip(n: nat)
    ensures DigitsValue(NatToString(n)) == n
  {
    if n >= 10 {
      NatToStringRoundTrip(n / 10);
      var s := NatToString(n);
      assert s[..|s| - 1] == NatToString(n / 10);
    }
  }

  /** A non-empty all-digit string read as a number; anything else is None. */
  function ParseNat(s: string): Option<nat>
  {
    if |s| > 0 && AllDigits(s) then Some(DigitsValue(s)) else None
  }

  /** JavaScript's String.prototype.padStart(width, fill): pads on the left up to width and
      leaves longer strings alone. */
  function PadStart(s: string, width: nat, fill: char): (r: string)
    ensures |r| == if |s| >= width then |s| else width
    ensures r[|r| - |s|..] == s
    ensures forall i :: 0 <= i < |r| - |s| ==> r[i] == fill
    decreases width - |s|
  {
    if |s| >= width then s else PadStart([fill] + s, width, fill)
  }
}
