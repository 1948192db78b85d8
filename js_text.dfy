/**
 * The few JavaScript string primitives the verse code relies on: `split(':')`,
 * `parseInt(s, 10)`, `trim()` and the decimal rendering of an integer inside a
 * template literal.  Strings are sequences of Unicode scalar values. They
 * differ from JavaScript's UTF-16 strings only for characters outside the
 * Basic Multilingual Plane, which none of these primitives treats specially;
 * a lone surrogate cannot be represented.
 */
module JsText {
  import opened Wrappers

  /** The characters `trim` and `parseInt` skip: white space and line terminators. */
  predicate IsJsWhitespace(c: char)
  {
    c == ' ' || c == '\t' || c == '\n' || c == '\r' || c == '\U{000B}' || c == '\U{000C}'
    || c == '\U{00A0}' || c == '\U{FEFF}' || c == '\U{1680}'
    || ('\U{2000}' <= c <= '\U{200A}')
    || c == '\U{2028}' || c == '\U{2029}' || c == '\U{202F}' || c == '\U{205F}' || c == '\U{3000}'
  }

  predicate IsDigit(c: char)
  {
    '0' <= c <= '9'
  }

  predicate AllDigits(s: string)
  {
    forall i :: 0 <= i < |s| ==> IsDigit(s[i])
  }

  predicate AllWhitespace(s: string)
  {
    forall i :: 0 <= i < |s| ==> IsJsWhitespace(s[i])
  }

  /** Value of a decimal digit character. */
  function DigitValue(c: char): int
  {
    c as int - '0' as int
  }

  function DigitChar(d: nat): (c: char)
    requires d < 10
    ensures IsDigit(c) && DigitValue(c) == d
  {
    (d + '0' as int) as char
  }

  /** `s` with its leading white space removed. */
  function TrimStart(s: string): string
  {
    if |s| > 0 && IsJsWhitespace(s[0]) then TrimStart(s[1..]) else s
  }

  /** `s` with its trailing white space removed. */
  function TrimEnd(s: string): string
  {
    if |s| > 0 && IsJsWhitespace(s[|s| - 1]) then TrimEnd(s[..|s| - 1]) else s
  }

  /** `s.trim()`. */
  function Trim(s: string): string
  {
    TrimEnd(TrimStart(s))
  }

  /** Leading trimming drops a white-space prefix and stops at the first other character. */
  lemma {:induction false} TrimStartSpec(s: string)
    ensures |TrimStart(s)| <= |s| && TrimStart(s) == s[|s| - |TrimStart(s)|..]
    ensures AllWhitespace(s[..|s| - |TrimStart(s)|])
    ensures |TrimStart(s)| == 0 || !IsJsWhitespace(TrimStart(s)[0])
  {
    if |s| > 0 && IsJsWhitespace(s[0]) {
      TrimStartSpec(s[1..]);
      var k := |s| - |TrimStart(s)|;
      assert s[..k] == [s[0]] + s[1..][..k - 1];
    }
  }

  /** Trailing trimming drops a white-space suffix and stops at the last other character. */
  lemma {:induction false} TrimEndSpec(s: string)
    ensures |TrimEnd(s)| <= |s| && TrimEnd(s) == s[..|TrimEnd(s)|]
    ensures AllWhitespace(s[|TrimEnd(s)|..])
    ensures |TrimEnd(s)| == 0 || !IsJsWhitespace(TrimEnd(s)[|TrimEnd(s)| - 1])
  {
    if |s| > 0 && IsJsWhitespace(s[|s| - 1]) {
      TrimEndSpec(s[..|s| - 1]);
      var k := |TrimEnd(s)|;
      assert s[k..] == s[..|s| - 1][k..] + [s[|s| - 1]];
    }
  }

  /** `s.trim()` is empty exactly when `s` consists of white space only. */
  lemma TrimEmptyIff(s: string)
    ensures Trim(s) == "" <==> AllWhitespace(s)
  {
    TrimStartSpec(s);
    var t := TrimStart(s);
    TrimEndSpec(t);
    assert |t| > 0 ==> t[0] == s[|s| - |t|];
    if Trim(s) == "" {
      assert t[0..] == t;
      assert s[..|s| - |t|] == s;
    }
  }

  /** `s.split(':')`: the pieces between the colons, always at least one. */
  function Split(s: string): (parts: seq<string>)
    ensures |parts| >= 1
  {
    if |s| == 0 then [""]
    else if s[0] == ':' then [""] + Split(s[1..])
    else
      var rest := Split(s[1..]);
      [[s[0]] + rest[0]] + rest[1..]
  }

  /** Number of colons in `s`. */
  function Colons(s: string): nat
  {
    if |s| == 0 then 0 else (if s[0] == ':' then 1 else 0) + Colons(s[1..])
  }

  /** `split` yields one more piece than there are separators. */
  lemma {:induction false} SplitLength(s: string)
    ensures |Split(s)| == Colons(s) + 1
  {
    if |s| > 0 {
      SplitLength(s[1..]);
    }
  }

  /** Gluing the pieces back with ':' gives the original string. */
  function Join(parts: seq<string>): string
    requires |parts| >= 1
  {
    if |parts| == 1 then parts[0] else parts[0] + ":" + Join(parts[1..])
  }

  lemma {:induction false} SplitJoin(s: string)
    ensures Join(Split(s)) == s
  {
    if |s| > 0 {
      SplitJoin(s[1..]);
      var rest := Split(s[1..]);
      if s[0] != ':' && |rest| > 1 {
        assert Split(s)[1..] == rest[1..];
        assert [s[0]] + rest[0] + ":" + Join(rest[1..]) == [s[0]] + (rest[0] + ":" + Join(rest[1..]));
      }
    }
  }

  /** A string without colons is its own single piece. */
  lemma {:induction false} SplitNoColon(a: string)
    requires ':' !in a
    ensures Split(a) == [a]
  {
    if |a| > 0 {
      assert ':' !in a[1..] by {
        forall i | 0 <= i < |a[1..]| ensures a[1..][i] != ':' {
          assert a[1..][i] == a[i + 1];
        }
      }
      SplitNoColon(a[1..]);
      assert [a[0]] + a[1..] == a;
    }
  }

  /** Splitting `a:b` with a colon-free `a` peels off `a`. */
  lemma {:induction false} SplitCons(a: string, b: string)
    requires ':' !in a
    ensures Split(a + ":" + b) == [a] + Split(b)
  {
    if |a| == 0 {
      assert a + ":" + b == [':'] + b;
      assert (a + ":" + b)[1..] == b;
    } else {
      assert (a + ":" + b)[1..] == a[1..] + ":" + b;
      assert ':' !in a[1..] by {
        forall i | 0 <= i < |a[1..]| ensures a[1..][i] != ':' {
          assert a[1..][i] == a[i + 1];
        }
      }
      SplitCons(a[1..], b);
      assert [a[0]] + a[1..] == a;
    }
  }

  /** The longest run of decimal digits at the front of `s`. */
  function DigitPrefix(s: string): string
  {
    if |s| > 0 && IsDigit(s[0]) then [s[0]] + DigitPrefix(s[1..]) else ""
  }

  /** The digit run is a prefix of `s`, made of digits, and is not followed by a digit. */
  lemma {:induction false} DigitPrefixSpec(s: string)
    ensures |DigitPrefix(s)| <= |s| && DigitPrefix(s) == s[..|DigitPrefix(s)|]
    ensures AllDigits(DigitPrefix(s))
    ensures |DigitPrefix(s)| == |s| || !IsDigit(s[|DigitPrefix(s)|])
  {
    if |s| > 0 && IsDigit(s[0]) {
      DigitPrefixSpec(s[1..]);
      var rest := DigitPrefix(s[1..]);
      assert [s[0]] + rest == s[..|rest| + 1];
      assert forall i :: 0 < i < |rest| + 1 ==> ([s[0]] + rest)[i] == rest[i - 1];
    }
  }

  /** The value of a run of decimal digits, most significant first. */
  function DigitsValue(d: string): int
  {
    if |d| == 0 then 0 else 10 * DigitsValue(d[..|d| - 1]) + DigitValue(d[|d| - 1])
  }

  /** What follows an optional leading '+' or '-'. */
  function UnsignedPart(t: string): string
  {
    if |t| > 0 && (t[0] == '-' || t[0] == '+') then t[1..] else t
  }

  /**
   * `parseInt(s, 10)`: skip leading white space, take an optional sign, then
   * the longest run of digits; `None` stands for NaN (no digit at all).
   * Anything after the digits is ignored.
   */
  function ParseInt(s: string): Option<int>
  {
    var t := TrimStart(s);
    var digits := DigitPrefix(UnsignedPart(t));
    if |digits| == 0 then None
    else if |t| > 0 && t[0] == '-' then Some(-DigitsValue(digits))
    else Some(DigitsValue(digits))
  }

  /** Decimal rendering of a natural number, without leading zeros. */
  function NatToString(n: nat): string
  {
    if n < 10 then [DigitChar(n)] else NatToString(n / 10) + [DigitChar(n % 10)]
  }

  /** The rendering is a non-empty run of digits that starts with '0' only for 0. */
  lemma {:induction false} NatToStringSpec(n: nat)
    ensures |NatToString(n)| >= 1 && AllDigits(NatToString(n))
    ensures NatToString(n)[0] != '0' || n == 0
  {
    if n >= 10 {
      NatToStringSpec(n / 10);
    }
  }

  /**
   * `${n}` for an integer n: a minus sign and the digits of |n|. JavaScript
   * numbers are doubles and render |n| >= 1e21 in exponent form ("1e+21"),
   * which `parseInt` reads back as 1; that form is not modelled, so the
   * round trip `ParseIntToString` holds in JavaScript only for |n| < 1e21.
   */
  function IntToString(n: int): string
  {
    if n < 0 then "-" + NatToString(-n) else NatToString(n)
  }

  /** The rendering of an integer holds no ':' and does not start with white space. */
  lemma IntToStringShape(n: int)
    ensures ':' !in IntToString(n)
    ensures |IntToString(n)| >= 1 && !IsJsWhitespace(IntToString(n)[0])
  {
    var m := if n < 0 then -n else n;
    NatToStringSpec(m);
    assert forall i :: 0 <= i < |NatToString(m)| ==> NatToString(m)[i] != ':';
    if n < 0 {
      assert forall i :: 0 < i < |IntToString(n)| ==> IntToString(n)[i] == NatToString(m)[i - 1];
    }
  }

  lemma {:induction false} NatToStringValue(n: nat)
    ensures DigitsValue(NatToString(n)) == n
  {
    if n >= 10 {
      NatToStringValue(n / 10);
      var s := NatToString(n);
      assert s[..|s| - 1] == NatToString(n / 10);
    }
  }

  /** A run made only of digits is its own digit prefix. */
  lemma {:induction false} DigitPrefixOfDigits(s: string)
    requires AllDigits(s)
    ensures DigitPrefix(s) == s
  {
    if |s| > 0 {
      assert AllDigits(s[1..]) by {
        forall i | 0 <= i < |s[1..]| ensures IsDigit(s[1..][i]) {
          assert s[1..][i] == s[i + 1];
        }
      }
      DigitPrefixOfDigits(s[1..]);
      assert [s[0]] + s[1..] == s;
    }
  }

  /** Reading back a rendered integer gives the integer. */
  lemma ParseIntToString(n: int)
    ensures ParseInt(IntToString(n)) == Some(n)
  {
    var s := IntToString(n);
    var m := if n < 0 then -n else n;
    NatToStringSpec(m);
    IntToStringShape(n);
    assert TrimStart(s) == s;
    assert UnsignedPart(s) == NatToString(m);
    DigitPrefixOfDigits(NatToString(m));
    NatToStringValue(m);
  }

  /** Rendering is one-to-one. */
  lemma IntToStringInjective(a: int, b: int)
    requires IntToString(a) == IntToString(b)
    ensures a == b
  {
    ParseIntToString(a);
    ParseIntToString(b);
  }
}
