/** Shared vocabulary of the toolkit model: an optional value (JavaScript's
    `undefined` versus a value), `String.prototype.split` and its inverse
    `join`, substring search as a regular expression without metacharacters
    performs it, and the decimal conversions `String(n)` / `parseInt`. */
module Common {

  /** A JavaScript value that may be `undefined`. */
  datatype Option<+T> = None | Some(value: T)

  // ----------------------------------------------------------------------------
  // split / join
  // ----------------------------------------------------------------------------

  predicate NoSep(s: string, sep: char) {
    forall i :: 0 <= i < |s| ==> s[i] != sep
  }

  /** `s.split(sep)` for a one-character separator: the empty string gives one
      empty part, and every separator starts a new part. */
  function Split(s: string, sep: char): (parts: seq<string>)
    ensures |parts| >= 1
    decreases |s|
  {
    if |s| == 0 then [""]
    else
      var rest := Split(s[1..], sep);
      if s[0] == sep then [""] + rest
      else [[s[0]] + rest[0]] + rest[1..]
  }

  /** `parts.join(sep)`. */
  function Join(parts: seq<string>, sep: char): string
    requires |parts| >= 1
    decreases |parts|
  {
    if |parts| == 1 then parts[0] else parts[0] + [sep] + Join(parts[1..], sep)
  }

  lemma {:induction false} SplitNoSep(s: string, sep: char)
    requires NoSep(s, sep)
    ensures Split(s, sep) == [s]
    decreases |s|
  {
    if |s| > 0 {
      SplitNoSep(s[1..], sep);
      assert [s[0]] + s[1..] == s;
    }
  }

  /** A part without separator followed by a separator is split off whole. */
  lemma {:induction false} SplitCons(a: string, b: string, sep: char)
    requires NoSep(a, sep)
    ensures Split(a + [sep] + b, sep) == [a] + Split(b, sep)
    decreases |a|
  {
    var s := a + [sep] + b;
    if |a| == 0 {
      assert s == [sep] + b;
      assert s[1..] == b;
    } else {
      assert s[1..] == a[1..] + [sep] + b;
      SplitCons(a[1..], b, sep);
      assert [a[0]] + a[1..] == a;
    }
  }

  /** Splitting undoes joining, provided no part contains the separator. */
  lemma {:induction false} SplitJoin(parts: seq<string>, sep: char)
    requires |parts| >= 1
    requires forall k :: 0 <= k < |parts| ==> NoSep(parts[k], sep)
    ensures Split(Join(parts, sep), sep) == parts
    decreases |parts|
  {
    if |parts| == 1 {
      SplitNoSep(parts[0], sep);
    } else {
      SplitJoin(parts[1..], sep);
      SplitCons(parts[0], Join(parts[1..], sep), sep);
      assert [parts[0]] + parts[1..] == parts;
    }
  }

  /** Joining undoes splitting, for every string. */
  lemma {:induction false} JoinSplit(s: string, sep: char)
    ensures Join(Split(s, sep), sep) == s
    decreases |s|
  {
    if |s| > 0 {
      var rest := Split(s[1..], sep);
      JoinSplit(s[1..], sep);
      if s[0] == sep {
        assert Split(s, sep) == [""] + rest;
        assert ([""] + rest)[1..] == rest;
        assert s == [sep] + s[1..];
      } else {
        var parts := [[s[0]] + rest[0]] + rest[1..];
        assert Split(s, sep) == parts;
        if |rest| == 1 {
          assert Join(parts, sep) == [s[0]] + rest[0];
        } else {
          assert parts[1..] == rest[1..];
          assert Join(rest, sep) == rest[0] + [sep] + Join(rest[1..], sep);
          assert Join(parts, sep) == [s[0]] + rest[0] + [sep] + Join(rest[1..], sep);
        }
        assert s == [s[0]] + s[1..];
      }
    }
  }

  /** The last part of `a + sep + b` is `b` when `b` has no separator. */
  lemma {:induction false} SplitLast(a: string, b: string, sep: char)
    requires NoSep(b, sep)
    ensures var parts := Split(a + [sep] + b, sep); |parts| >= 2 && parts[|parts| - 1] == b
    decreases |a|
  {
    var s := a + [sep] + b;
    if |a| == 0 {
      assert s == [sep] + b && s[1..] == b;
      SplitNoSep(b, sep);
    } else {
      assert s[1..] == a[1..] + [sep] + b;
      SplitLast(a[1..], b, sep);
    }
  }

  /** `Math.max` and `Math.min` on two numbers. */
  function Max(a: real, b: real): real { if a >= b then a else b }

  function Min(a: real, b: real): real { if a <= b then a else b }

  // ----------------------------------------------------------------------------
  // Substring search (a regular expression made of plain characters)
  // ----------------------------------------------------------------------------

  predicate IsPrefix(pat: string, s: string) {
    |pat| <= |s| && s[..|pat|] == pat
  }

  /** `/pat/.test(s)` for a pattern with no metacharacters. */
  predicate Contains(s: string, pat: string)
    decreases |s|
  {
    IsPrefix(pat, s) || (|s| > 0 && Contains(s[1..], pat))
  }

  /** A match of `pat` in `a + b` lies inside `a` when the first character of
      `b` does not occur in `pat` and no character of `b` is `pat`'s first. */
  lemma {:induction false} ContainsConcat(a: string, b: string, pat: string)
    requires |pat| >= 1 && |b| >= 1
    requires forall k :: 0 <= k < |pat| ==> pat[k] != b[0]
    requires forall k :: 0 <= k < |b| ==> b[k] != pat[0]
    requires !Contains(a, pat)
    ensures !Contains(a + b, pat)
    decreases |a|
  {
    var s := a + b;
    assert !IsPrefix(pat, s) by {
      if |pat| <= |s| {
        if |a| == 0 {
          assert s[..|pat|][0] == b[0];
        } else if |pat| <= |a| {
          assert s[..|pat|] == a[..|pat|];
        } else {
          assert s[..|pat|][|a|] == b[0];
        }
      }
    }
    if |a| == 0 {
      assert s[1..] == b[1..];
      NotContainsNoFirst(b[1..], pat);
    } else {
      assert s[1..] == a[1..] + b;
      ContainsConcat(a[1..], b, pat);
    }
  }

  /** A string that ends with `pat` contains it. */
  lemma {:induction false} ContainsSuffix(a: string, pat: string)
    ensures Contains(a + pat, pat)
    decreases |a|
  {
    if |a| == 0 {
      assert a + pat == pat;
    } else {
      assert (a + pat)[1..] == a[1..] + pat;
      ContainsSuffix(a[1..], pat);
    }
  }

  /** A match in a prefix is a match in the whole string. */
  lemma {:induction false} ContainsAppend(a: string, b: string, pat: string)
    requires Contains(a, pat)
    ensures Contains(a + b, pat)
    decreases |a|
  {
    if IsPrefix(pat, a) {
      assert (a + b)[..|pat|] == a[..|pat|];
    } else {
      assert (a + b)[1..] == a[1..] + b;
      ContainsAppend(a[1..], b, pat);
    }
  }

  /** A string none of whose characters is `pat`'s first does not contain `pat`. */
  lemma {:induction false} NotContainsNoFirst(s: string, pat: string)
    requires |pat| >= 1
    requires forall k :: 0 <= k < |s| ==> s[k] != pat[0]
    ensures !Contains(s, pat)
    decreases |s|
  {
    assert !IsPrefix(pat, s) by {
      if 1 <= |pat| <= |s| {
        assert s[..|pat|][0] == s[0];
      }
    }
    if |s| > 0 {
      NotContainsNoFirst(s[1..], pat);
    }
  }

  // ----------------------------------------------------------------------------
  // Decimal conversion: String(n) and parseInt(s, 10)
  // ----------------------------------------------------------------------------

  predicate IsDigit(c: char) { '0' <= c <= '9' }

  predicate AllDigits(s: string) { forall i :: 0 <= i < |s| ==> IsDigit(s[i]) }

  function DigitChar(d: nat): (c: char)
    requires d < 10
    ensures IsDigit(c) && DigitValue(c) == d
  {
    ('0' as int + d) as char
  }

  function DigitValue(c: char): nat
    requires IsDigit(c)
  {
    (c as int - '0' as int) as nat
  }

  /** `String(n)` for a non-negative integer. */
  function NatToString(n: nat): (s: string)
    decreases n
  {
    if n < 10 then [DigitChar(n)] else NatToString(n / 10) + [DigitChar(n % 10)]
  }

  /** `String(i)` for an integer. */
  function IntToString(i: int): string {
    if i < 0 then "-" + NatToString(-i) else NatToString(i)
  }

  /** Value of a run of decimal digits, most significant first. */
  function DigitsValue(ds: string): nat
    requires AllDigits(ds)
    decreases |ds|
  {
    if |ds| == 0 then 0 else 10 * DigitsValue(ds[..|ds| - 1]) + DigitValue(ds[|ds| - 1])
  }

  /** The longest prefix of `s` made of decimal digits. */
  function DigitPrefix(s: string): (ds: string)
    ensures AllDigits(ds)
    ensures |ds| <= |s| && ds == s[..|ds|]
    ensures |ds| < |s| ==> !IsDigit(s[|ds|])
    decreases |s|
  {
    if |s| > 0 && IsDigit(s[0]) then [s[0]] + DigitPrefix(s[1..]) else ""
  }

  /** `parseInt(s)` on a string that starts with its sign or digits:
      `None` stands for `NaN`. */
  function ParseInt(s: string): Option<int> {
    var body := if |s| > 0 && (s[0] == '-' || s[0] == '+') then s[1..] else s;
    var ds := DigitPrefix(body);
    var v: int := if ds == "" then 0 else DigitsValue(ds);
    if ds == "" then None
    else if |s| > 0 && s[0] == '-' then Some(-v)
    else Some(v)
  }

  lemma {:induction false} NatToStringDigits(n: nat)
    ensures |NatToString(n)| >= 1 && AllDigits(NatToString(n))
    ensures DigitsValue(NatToString(n)) == n
    decreases n
  {
    if n >= 10 {
      NatToStringDigits(n / 10);
      var t := NatToString(n / 10);
      var s := t + [DigitChar(n % 10)];
      assert s[..|s| - 1] == t;
    }
  }

  lemma {:induction false} DigitPrefixAll(s: string)
    requires AllDigits(s)
    ensures DigitPrefix(s) == s
    decreases |s|
  {
    if |s| > 0 {
      DigitPrefixAll(s[1..]);
      assert [s[0]] + s[1..] == s;
    }
  }

  /** `parseInt(String(i)) == i`. */
  lemma IntToStringParse(i: int)
    ensures ParseInt(IntToString(i)) == Some(i)
  {
    var m: nat := if i < 0 then -i else i;
    var t := NatToString(m);
    NatToStringDigits(m);
    DigitPrefixAll(t);
    assert IsDigit(t[0]);
    if i < 0 {
      var s := "-" + t;
      assert s == IntToString(i);
      assert s[0] == '-' && s[1..] == t;
      assert DigitPrefix(s[1..]) == t;
    } else {
      assert t == IntToString(i);
      assert t[0] != '-' && t[0] != '+';
    }
  }

  /** A number rendered after the last separator is read back by parsing the
      last part. */
  lemma LastPartParses(prefix: string, i: int, sep: char)
    requires !IsDigit(sep) && sep != '-'
    ensures var parts := Split(prefix + [sep] + IntToString(i), sep);
      |parts| >= 2 && ParseInt(parts[|parts| - 1]) == Some(i)
  {
    IntToStringNoSep(i, sep);
    SplitLast(prefix, IntToString(i), sep);
    IntToStringParse(i);
  }

  /** Decimal renderings never contain a given non-digit, non-minus character. */
  lemma IntToStringNoSep(i: int, sep: char)
    requires !IsDigit(sep) && sep != '-'
    ensures NoSep(IntToString(i), sep)
  {
    if i < 0 {
      NatToStringDigits(-i);
      var s := IntToString(i);
      assert forall k :: 1 <= k < |s| ==> s[k] == NatToString(-i)[k - 1];
    } else {
      NatToStringDigits(i);
    }
  }
}
