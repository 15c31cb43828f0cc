/**
 * The pieces of Rust's string library that the pileup code relies on:
 * decimal `to_string`, `str::parse::<usize>`, `split`, `join`, `replace`,
 * `trim`, `split_whitespace` and the ASCII case mappings.  Strings are
 * sequences of Unicode scalar values, as Rust's `char`s are.
 */
module Text {
  import opened Wrappers

  predicate IsDigit(c: char) { '0' <= c <= '9' }

  predicate AllDigits(s: string) { forall i :: 0 <= i < |s| ==> IsDigit(s[i]) }

  function DigitChar(d: nat): (c: char)
    requires d < 10
    ensures IsDigit(c) && c as int - 48 == d
  {
    (48 + d) as char
  }

  /** Decimal rendering of a non-negative integer, as `to_string` prints it. */
  function NatToString(n: nat): (s: string)
    ensures |s| >= 1 && AllDigits(s)
    decreases n
  {
    if n < 10 then [DigitChar(n)] else NatToString(n / 10) + [DigitChar(n % 10)]
  }

  /** The value of a string of decimal digits (leading zeros allowed). */
  function DigitsValue(s: string): nat
    requires AllDigits(s)
    decreases |s|
  {
    if |s| == 0 then 0 else DigitsValue(s[..|s| - 1]) * 10 + (s[|s| - 1] as int - 48)
  }

  /** `usize::MAX` on a 64-bit target. */
  const UsizeMax: nat := 0xFFFF_FFFF_FFFF_FFFF

  /**
   * `str::parse::<usize>()`: an optional leading '+', then at least one decimal
   * digit and nothing else, with a value that fits in 64 bits.
   */
  function ParseUsize(s: string): Option<nat>
  {
    var digits := if |s| > 0 && s[0] == '+' then s[1..] else s;
    if |digits| == 0 || !AllDigits(digits) then None
    else if DigitsValue(digits) > UsizeMax then None
    else Some(DigitsValue(digits))
  }

  lemma {:induction false} DigitsValueOfNatToString(n: nat)
    ensures DigitsValue(NatToString(n)) == n
    decreases n
  {
    if n >= 10 {
      DigitsValueOfNatToString(n / 10);
      var s := NatToString(n);
      assert s[..|s| - 1] == NatToString(n / 10);
    }
  }

  /** Parsing what `to_string` printed gives the number back. */
  lemma ParseUsizeOfNatToString(n: nat)
    requires n <= UsizeMax
    ensures ParseUsize(NatToString(n)) == Some(n)
  {
    DigitsValueOfNatToString(n);
  }

  /** A string holding a character that is neither a digit nor a leading '+' is no usize. */
  lemma ParseUsizeRejectsNonDigit(s: string, i: nat)
    requires i < |s| && !IsDigit(s[i]) && !(i == 0 && s[i] == '+')
    ensures ParseUsize(s) == None
  {
    if |s| > 0 && s[0] == '+' {
      assert s[1..][i - 1] == s[i];
    }
  }

  function Count(s: string, c: char): nat
    decreases |s|
  {
    if |s| == 0 then 0 else (if s[0] == c then 1 else 0) + Count(s[1..], c)
  }

  /** `s.split(sep).collect()`: always one part more than there are separators. */
  function Split(s: string, sep: char): (parts: seq<string>)
    ensures |parts| == Count(s, sep) + 1
    ensures forall i :: 0 <= i < |parts| ==> sep !in parts[i]
    decreases |s|
  {
    if |s| == 0 then [""]
    else
      var rest := Split(s[1..], sep);
      if s[0] == sep then [""] + rest else [[s[0]] + rest[0]] + rest[1..]
  }

  /** `parts.join(sep)`. */
  function Join(parts: seq<string>, sep: string): string
    decreases |parts|
  {
    if |parts| == 0 then ""
    else if |parts| == 1 then parts[0]
    else parts[0] + sep + Join(parts[1..], sep)
  }

  function Concat(parts: seq<string>): string
    decreases |parts|
  {
    if |parts| == 0 then "" else parts[0] + Concat(parts[1..])
  }

  /** Joining the parts of a split with the separator restores the string. */
  lemma {:induction false} JoinSplit(s: string, sep: char)
    ensures Join(Split(s, sep), [sep]) == s
    decreases |s|
  {
    if |s| > 0 {
      JoinSplit(s[1..], sep);
      var rest := Split(s[1..], sep);
      assert s == [s[0]] + s[1..];
      if s[0] == sep {
        assert ([""] + rest)[1..] == rest;
      } else if |rest| > 1 {
        var parts := [[s[0]] + rest[0]] + rest[1..];
        assert parts[1..] == rest[1..];
      }
    }
  }

  lemma {:induction false} SplitPrefix(a: string, t: string, sep: char)
    requires sep !in a
    ensures Split(a + t, sep) == [a + Split(t, sep)[0]] + Split(t, sep)[1..]
    decreases |a|
  {
    if |a| == 0 {
      var u := Split(t, sep);
      assert a + t == t;
      assert a + u[0] == u[0];
      assert u == [u[0]] + u[1..];
    } else {
      assert (a + t)[1..] == a[1..] + t;
      SplitPrefix(a[1..], t, sep);
      var u := Split(t, sep);
      assert (a + t)[0] == a[0];
      assert [a[0]] + (a[1..] + u[0]) == a + u[0];
    }
  }

  /** Splitting a join recovers the parts when no part holds the separator. */
  lemma {:induction false} SplitJoin(parts: seq<string>, sep: char)
    requires |parts| >= 1
    requires forall i :: 0 <= i < |parts| ==> sep !in parts[i]
    ensures Split(Join(parts, [sep]), sep) == parts
    decreases |parts|
  {
    if |parts| == 1 {
      SplitPrefix(parts[0], "", sep);
      assert parts[0] + "" == parts[0];
      assert Split("", sep) == [""];
    } else {
      SplitJoin(parts[1..], sep);
      var rest := Join(parts[1..], [sep]);
      var tail := [sep] + rest;
      assert tail[1..] == rest;
      assert Split(tail, sep) == [""] + Split(rest, sep);
      SplitPrefix(parts[0], tail, sep);
      assert Join(parts, [sep]) == parts[0] + tail;
      assert parts[0] + "" == parts[0];
      assert parts == [parts[0]] + parts[1..];
    }
  }

  /** Joining one more part appends the separator and the part. */
  lemma {:induction false} JoinSnoc(parts: seq<string>, x: string, sep: string)
    ensures Join(parts + [x], sep) == if |parts| == 0 then x else Join(parts, sep) + sep + x
    decreases |parts|
  {
    if |parts| == 1 {
      assert (parts + [x])[1..] == [x];
    } else if |parts| > 1 {
      assert (parts + [x])[1..] == parts[1..] + [x];
      JoinSnoc(parts[1..], x, sep);
    }
  }

  /** A character in neither the parts nor the separator is not in their join. */
  lemma {:induction false} NotInJoin(parts: seq<string>, sep: string, c: char)
    requires c !in sep && forall i :: 0 <= i < |parts| ==> c !in parts[i]
    ensures c !in Join(parts, sep)
    decreases |parts|
  {
    if |parts| > 1 {
      NotInJoin(parts[1..], sep, c);
    }
  }

  /** A character in none of the parts is not in their concatenation. */
  lemma {:induction false} NotInConcat(parts: seq<string>, c: char)
    requires forall i :: 0 <= i < |parts| ==> c !in parts[i]
    ensures c !in Concat(parts)
    decreases |parts|
  {
    if |parts| > 0 {
      NotInConcat(parts[1..], c);
    }
  }

  /** `s.replace(c, "")`. */
  function Remove(s: string, c: char): (r: string)
    ensures c !in r
    ensures |r| + Count(s, c) == |s|
    decreases |s|
  {
    if |s| == 0 then "" else (if s[0] == c then "" else [s[0]]) + Remove(s[1..], c)
  }

  lemma {:induction false} RemoveAbsent(s: string, c: char)
    requires c !in s
    ensures Remove(s, c) == s
    decreases |s|
  {
    if |s| > 0 {
      RemoveAbsent(s[1..], c);
      assert s == [s[0]] + s[1..];
    }
  }

  function AsciiLower(c: char): char
  {
    if 'A' <= c <= 'Z' then (c as int + 32) as char else c
  }

  function AsciiUpper(c: char): char
  {
    if 'a' <= c <= 'z' then (c as int - 32) as char else c
  }

  /** `to_ascii_lowercase` on a string. */
  function LowerAscii(s: string): (r: string)
    ensures |r| == |s| && forall i :: 0 <= i < |s| ==> r[i] == AsciiLower(s[i])
  {
    seq(|s|, i requires 0 <= i < |s| => AsciiLower(s[i]))
  }

  /** `to_ascii_uppercase` on a string. */
  function UpperAscii(s: string): (r: string)
    ensures |r| == |s| && forall i :: 0 <= i < |s| ==> r[i] == AsciiUpper(s[i])
  {
    seq(|s|, i requires 0 <= i < |s| => AsciiUpper(s[i]))
  }

  /** `char::is_whitespace`: the characters with the Unicode White_Space property. */
  predicate IsWhitespace(c: char)
  {
    var n := c as int;
    (9 <= n <= 13) || n == 0x20 || n == 0x85 || n == 0xA0 || n == 0x1680
    || (0x2000 <= n <= 0x200A) || n == 0x2028 || n == 0x2029 || n == 0x202F
    || n == 0x205F || n == 0x3000
  }

  /** `s.trim().is_empty()`. */
  predicate IsBlank(s: string) { forall i :: 0 <= i < |s| ==> IsWhitespace(s[i]) }

  /** A field of `split_whitespace`: non-empty, with no whitespace in it. */
  predicate IsToken(w: string)
  {
    |w| > 0 && forall j :: 0 <= j < |w| ==> !IsWhitespace(w[j])
  }

  function SkipWhitespace(s: string): (r: string)
    ensures |r| <= |s| && r == s[|s| - |r|..]
    ensures |r| > 0 ==> !IsWhitespace(r[0])
    ensures forall i :: 0 <= i < |s| - |r| ==> IsWhitespace(s[i])
    decreases |s|
  {
    if |s| > 0 && IsWhitespace(s[0]) then SkipWhitespace(s[1..]) else s
  }

  function TokenLength(s: string): (n: nat)
    ensures n <= |s|
    ensures forall i :: 0 <= i < n ==> !IsWhitespace(s[i])
    ensures n < |s| ==> IsWhitespace(s[n])
    decreases |s|
  {
    if |s| > 0 && !IsWhitespace(s[0]) then 1 + TokenLength(s[1..]) else 0
  }

  /** `s.split_whitespace().collect()`. */
  function Fields(s: string): seq<string>
    decreases |s|
  {
    var t := SkipWhitespace(s);
    if |t| == 0 then []
    else
      var n := TokenLength(t);
      [t[..n]] + Fields(t[n..])
  }

  /** A string has no fields exactly when it is blank. */
  lemma BlankIffNoFields(s: string)
    ensures IsBlank(s) <==> Fields(s) == []
  {
    var t := SkipWhitespace(s);
    if |t| > 0 {
      assert s[|s| - |t|] == t[0];
    }
  }

  lemma {:induction false} TokenLengthOfToken(f: string, t: string)
    requires IsToken(f)
    requires |t| == 0 || IsWhitespace(t[0])
    ensures TokenLength(f + t) == |f|
    decreases |f|
  {
    if |f| > 1 {
      assert (f + t)[1..] == f[1..] + t;
      TokenLengthOfToken(f[1..], t);
    } else {
      assert (f + t)[1..] == t;
    }
  }

  lemma FieldsAfterWhitespace(w: char, rest: string)
    requires IsWhitespace(w)
    ensures Fields([w] + rest) == Fields(rest)
  {
    assert ([w] + rest)[1..] == rest;
    assert SkipWhitespace([w] + rest) == SkipWhitespace(rest);
  }

  lemma FieldsOfTokenThen(f: string, t: string)
    requires IsToken(f)
    requires |t| == 0 || IsWhitespace(t[0])
    ensures Fields(f + t) == [f] + Fields(t)
  {
    var s := f + t;
    assert s[0] == f[0];
    assert SkipWhitespace(s) == s;
    TokenLengthOfToken(f, t);
    assert s[..|f|] == f;
    assert s[|f|..] == t;
  }

  lemma FieldsOfTokenSep(f: string, w: char, rest: string)
    requires IsToken(f) && IsWhitespace(w)
    ensures Fields(f + ([w] + rest)) == [f] + Fields(rest)
  {
    FieldsOfTokenThen(f, [w] + rest);
    FieldsAfterWhitespace(w, rest);
  }

  lemma FieldsOfToken(f: string)
    requires IsToken(f)
    ensures Fields(f) == [f]
  {
    FieldsOfTokenThen(f, "");
    assert f + "" == f;
  }

  lemma ConsTail<T>(s: seq<T>)
    requires |s| > 0
    ensures [s[0]] + s[1..] == s
  {
  }

  lemma FieldsOfJoinStep(fs: seq<string>, w: char)
    requires |fs| > 1 && IsWhitespace(w) && IsToken(fs[0])
    requires Fields(Join(fs[1..], [w])) == fs[1..]
    ensures Fields(Join(fs, [w])) == fs
  {
    var rest := Join(fs[1..], [w]);
    JoinCons(fs, [w]);
    FieldsOfTokenSep(fs[0], w, rest);
    assert Fields(Join(fs, [w])) == [fs[0]] + fs[1..];
    ConsTail(fs);
  }

  lemma JoinCons(fs: seq<string>, sep: string)
    requires |fs| > 1
    ensures Join(fs, sep) == fs[0] + (sep + Join(fs[1..], sep))
  {
  }

  /** Splitting at whitespace undoes joining tokens with a whitespace character. */
  lemma {:induction false} FieldsOfJoin(fs: seq<string>, w: char)
    requires IsWhitespace(w)
    requires forall i :: 0 <= i < |fs| ==> IsToken(fs[i])
    ensures Fields(Join(fs, [w])) == fs
    decreases |fs|
  {
    if |fs| == 1 {
      FieldsOfToken(fs[0]);
    } else if |fs| > 1 {
      FieldsOfJoin(fs[1..], w);
      FieldsOfJoinStep(fs, w);
    }
  }
}
