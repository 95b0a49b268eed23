/** Text helpers the roster code relies on: Rust's `str::split(" - ")`, decimal
    formatting and `i16` parsing, and the lexicographic order of `String`. */
module Strings {
  import opened Wrappers

  /** The literal field delimiter of a roster line. */
  const Delimiter: string := " - "

  ghost predicate DelimiterAt(s: string, p: nat)
  {
    p + 3 <= |s| && s[p..p + 3] == Delimiter
  }

  /** Position of the first (leftmost) occurrence of the delimiter. */
  function FindDelimiter(s: string): (r: Option<nat>)
    ensures r.Some? ==> DelimiterAt(s, r.value)
    ensures r.Some? ==> forall q :: 0 <= q < r.value ==> !DelimiterAt(s, q)
    ensures r.None? ==> forall q: nat :: !DelimiterAt(s, q)
    decreases |s|
  {
    if |s| < 3 then None
    else if s[..3] == Delimiter then Some(0)
    else
      var rest := FindDelimiter(s[1..]);
      assert !DelimiterAt(s, 0);
      assert forall q: nat :: q > 0 ==> (DelimiterAt(s, q) <==> DelimiterAt(s[1..], q - 1)) by {
        forall q: nat | q > 0 ensures DelimiterAt(s, q) <==> DelimiterAt(s[1..], q - 1) {
          if q + 3 <= |s| { assert s[q..q + 3] == s[1..][q - 1..q + 2]; }
        }
      }
      match rest
      case None => None
      case Some(p) => Some(p + 1)
  }

  /** `s.split(" - ").collect()`: the pieces between non-overlapping
      occurrences of the delimiter, found from the left. */
  function Split(s: string): (fields: seq<string>)
    ensures |fields| >= 1
    decreases |s|
  {
    match FindDelimiter(s)
    case None => [s]
    case Some(p) => [s[..p]] + Split(s[p + 3..])
  }

  /** A field that can be followed by the delimiter without the delimiter
      being found earlier: no delimiter inside it and it does not end in " -". */
  ghost predicate Clean(f: string)
  {
    forall q: nat :: !DelimiterAt(f + " ", q)
  }

  /** Joins fields with the delimiter, the inverse of `Split`. */
  function Join(fields: seq<string>): string
    requires |fields| >= 1
  {
    if |fields| == 1 then fields[0] else fields[0] + Delimiter + Join(fields[1..])
  }

  lemma {:induction false} FindAfterClean(a: string, b: string)
    requires Clean(a)
    ensures FindDelimiter(a + Delimiter + b) == Some(|a|)
    decreases |a|
  {
    var s := a + Delimiter + b;
    if a == [] {
      assert s[..3] == Delimiter;
    } else {
      if |a| >= 3 {
        assert s[..3] == (a + " ")[0..3];
        assert !DelimiterAt(a + " ", 0);
      } else if |a| == 2 {
        assert s[..3] == (a + " ")[0..3];
        assert !DelimiterAt(a + " ", 0);
      } else {
        assert s[1] == ' ' && Delimiter[1] == '-';
      }
      assert s[..3] != Delimiter;
      var a' := a[1..];
      forall q: nat ensures !DelimiterAt(a' + " ", q) {
        assert !DelimiterAt(a + " ", q + 1);
        if q + 3 <= |a' + " "| {
          assert (a' + " ")[q..q + 3] == (a + " ")[q + 1..q + 4];
        }
      }
      assert s[1..] == a' + Delimiter + b;
      FindAfterClean(a', b);
    }
  }

  lemma SplitClean(f: string)
    requires Clean(f)
    ensures Split(f) == [f]
  {
    forall q: nat ensures !DelimiterAt(f, q) {
      assert !DelimiterAt(f + " ", q);
      if q + 3 <= |f| { assert (f + " ")[q..q + 3] == f[q..q + 3]; }
    }
  }

  /** Splitting undoes joining when every field is clean. */
  lemma {:induction false} SplitJoin(fields: seq<string>)
    requires |fields| >= 1
    requires forall i :: 0 <= i < |fields| ==> Clean(fields[i])
    ensures Split(Join(fields)) == fields
    decreases |fields|
  {
    if |fields| == 1 {
      SplitClean(fields[0]);
    } else {
      var a, b := fields[0], Join(fields[1..]);
      FindAfterClean(a, b);
      var s := a + Delimiter + b;
      assert s[..|a|] == a;
      assert s[|a| + 3..] == b;
      SplitJoin(fields[1..]);
    }
  }

  // ---------------------------------------------------------------- decimal

  predicate IsDigit(c: char)
  {
    '0' <= c <= '9'
  }

  predicate AllDigits(s: string)
  {
    forall i :: 0 <= i < |s| ==> IsDigit(s[i])
  }

  function DigitChar(d: nat): (c: char)
    requires d < 10
    ensures IsDigit(c) && c as int - '0' as int == d
  {
    "0123456789"[d]
  }

  /** The decimal digits of `n` without leading zeros, as `format!("{}")` writes them. */
  function NatToString(n: nat): (s: string)
    ensures |s| >= 1 && AllDigits(s)
    decreases n
  {
    if n < 10 then [DigitChar(n)] else NatToString(n / 10) + [DigitChar(n % 10)]
  }

  function IntToString(i: int): string
  {
    if i < 0 then "-" + NatToString(-i) else NatToString(i)
  }

  function DigitsValue(s: string): nat
    requires AllDigits(s)
  {
    if s == [] then 0 else DigitsValue(s[..|s| - 1]) * 10 + (s[|s| - 1] as int - '0' as int)
  }

  lemma {:induction false} DigitsOfNat(n: nat)
    ensures DigitsValue(NatToString(n)) == n
    decreases n
  {
    if n >= 10 {
      var s := NatToString(n);
      assert s[..|s| - 1] == NatToString(n / 10);
      DigitsOfNat(n / 10);
    }
  }

  lemma NatToStringInjective(a: nat, b: nat)
    requires NatToString(a) == NatToString(b)
    ensures a == b
  {
    DigitsOfNat(a);
    DigitsOfNat(b);
  }

  predicate IsI16(x: int)
  {
    -0x8000 <= x < 0x8000
  }

  /** `str::parse::<i16>`: an optional `+` or `-`, then at least one decimal
      digit, and a value in the `i16` range; anything else is an error. */
  function ParseI16(s: string): (r: Option<int>)
    ensures r.Some? ==> IsI16(r.value)
  {
    if s == [] then None
    else
      var negative := s[0] == '-';
      var digits := if s[0] == '-' || s[0] == '+' then s[1..] else s;
      if digits == [] || !AllDigits(digits) then None
      else
        var v: int := if negative then -(DigitsValue(digits) as int) else DigitsValue(digits);
        if IsI16(v) then Some(v) else None
  }

  lemma ParseI16OfString(v: int)
    requires IsI16(v)
    ensures ParseI16(IntToString(v)) == Some(v)
  {
    var magnitude: nat := if v < 0 then -v else v;
    var digits := NatToString(magnitude);
    DigitsOfNat(magnitude);
    assert IsDigit(digits[0]);
    var s := IntToString(v);
    if v < 0 {
      assert s == "-" + digits && s[0] == '-' && s[1..] == digits;
    } else {
      assert s == digits && s[0] != '-' && s[0] != '+';
    }
  }

  // ------------------------------------------------------- lexicographic order

  /** `a < b` for Rust strings: code-point-wise lexicographic order, a proper
      prefix coming first (UTF-8 byte order agrees with code-point order). */
  predicate Less(a: string, b: string)
    decreases |a|
  {
    |b| > 0 && (|a| == 0 || a[0] < b[0] || (a[0] == b[0] && Less(a[1..], b[1..])))
  }

  lemma {:induction false} LessTotal(a: string, b: string)
    ensures a == b || Less(a, b) || Less(b, a)
    decreases |a|
  {
    if |a| > 0 && |b| > 0 && a[0] == b[0] {
      LessTotal(a[1..], b[1..]);
      if a[1..] == b[1..] { assert a == [a[0]] + a[1..] && b == [b[0]] + b[1..]; }
    }
  }

  lemma {:induction false} LessAsymmetric(a: string, b: string)
    ensures !(Less(a, b) && Less(b, a))
    decreases |a|
  {
    if |a| > 0 && |b| > 0 && a[0] == b[0] {
      LessAsymmetric(a[1..], b[1..]);
    }
  }
}
