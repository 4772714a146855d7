/** The string primitives of Go's standard library that the repository relies
    on (strings.Join, strings.Split, strings.ToUpper/ToLower, strings.Title,
    fmt's %d), restricted to ASCII text. */
module Strings {

  /** strings.Join: the parts with `sep` between consecutive parts. */
  function Join(parts: seq<string>, sep: string): string
  {
    if |parts| == 0 then ""
    else if |parts| == 1 then parts[0]
    else parts[0] + sep + Join(parts[1..], sep)
  }

  /** Joining one more part adds the separator and the part at the end. */
  lemma {:induction false} JoinAppend(parts: seq<string>, sep: string, x: string)
    requires |parts| > 0
    ensures Join(parts + [x], sep) == Join(parts, sep) + sep + x
  {
    if |parts| == 1 {
      assert parts + [x] == [parts[0], x];
      assert ([parts[0], x])[1..] == [x];
    } else {
      assert (parts + [x])[1..] == parts[1..] + [x];
      JoinAppend(parts[1..], sep, x);
    }
  }

  predicate IsUpperChar(c: char) { 'A' <= c <= 'Z' }

  predicate IsLowerChar(c: char) { 'a' <= c <= 'z' }

  predicate IsDigitChar(c: char) { '0' <= c <= '9' }

  predicate IsAlnumChar(c: char) { IsUpperChar(c) || IsLowerChar(c) || IsDigitChar(c) }

  /** unicode.ToLower on an ASCII character. */
  function ToLowerChar(c: char): char
  {
    if IsUpperChar(c) then (c as int + 32) as char else c
  }

  /** unicode.ToUpper (and unicode.ToTitle) on an ASCII character. */
  function ToUpperChar(c: char): char
  {
    if IsLowerChar(c) then (c as int - 32) as char else c
  }

  /** strings.ToUpper */
  function ToUpper(s: string): (r: string)
    ensures |r| == |s|
  {
    seq(|s|, i requires 0 <= i < |s| => ToUpperChar(s[i]))
  }

  /** strings.ToLower */
  function ToLower(s: string): (r: string)
    ensures |r| == |s|
  {
    seq(|s|, i requires 0 <= i < |s| => ToLowerChar(s[i]))
  }

  /** strings.Split(s, string(c)): the pieces between occurrences of `c`;
      n occurrences give n + 1 pieces, and the empty string gives [""]. */
  function Split(s: string, c: char): (parts: seq<string>)
    ensures |parts| >= 1
  {
    if |s| == 0 then [""]
    else
      var p := Split(s[..|s| - 1], c);
      if s[|s| - 1] == c then p + [""] else ExtendLast(p, s[|s| - 1])
  }

  /** Extending the last part of `q` also extends the last part of `p + q`. */
  function ExtendLast(parts: seq<string>, x: char): seq<string>
    requires |parts| >= 1
  {
    parts[..|parts| - 1] + [parts[|parts| - 1] + [x]]
  }

  lemma ExtendLastConcat(p: seq<string>, q: seq<string>, x: char)
    requires |q| >= 1
    ensures ExtendLast(p + q, x) == p + ExtendLast(q, x)
  {
    assert (p + q)[..|p + q| - 1] == p + q[..|q| - 1];
  }

  /** Split one character at a time: a separator starts a new, empty part,
      any other character extends the last part. */
  lemma SplitSnoc(s: string, x: char, c: char)
    ensures x == c ==> Split(s + [x], c) == Split(s, c) + [""]
    ensures x != c ==> Split(s + [x], c) == ExtendLast(Split(s, c), x)
  {
    assert (s + [x])[..|s|] == s;
  }

  /** Splitting at one occurrence of the separator and splitting both sides. */
  lemma {:induction false} SplitConcat(a: string, b: string, c: char)
    ensures Split(a + [c] + b, c) == Split(a, c) + Split(b, c)
  {
    if |b| == 0 {
      assert a + [c] + b == a + [c];
      SplitSnoc(a, c, c);
    } else {
      var b', x := b[..|b| - 1], b[|b| - 1];
      assert a + [c] + b == (a + [c] + b') + [x];
      assert b == b' + [x];
      SplitConcat(a, b', c);
      SplitSnoc(a + [c] + b', x, c);
      SplitSnoc(b', x, c);
      if x != c {
        ExtendLastConcat(Split(a, c), Split(b', c), x);
      }
    }
  }

  /** Three separator-free pieces joined by the separator split back apart. */
  lemma SplitThree(a: string, b: string, d: string, c: char)
    requires c !in a && c !in b && c !in d
    ensures Split(a + [c] + b + [c] + d, c) == [a, b, d]
  {
    assert a + [c] + b + [c] + d == a + [c] + (b + [c] + d);
    SplitConcat(a, b + [c] + d, c);
    SplitConcat(b, d, c);
    SplitSinglePart(a, c);
    SplitSinglePart(b, c);
    SplitSinglePart(d, c);
  }

  /** The first part of a split is the text before the first separator. */
  lemma {:induction false} SplitFirstPart(s: string, c: char)
    ensures c !in Split(s, c)[0]
    ensures |Split(s, c)[0]| <= |s| && Split(s, c)[0] == s[..|Split(s, c)[0]|]
    ensures |Split(s, c)[0]| < |s| ==> s[|Split(s, c)[0]|] == c
  {
    if |s| > 0 {
      var init := s[..|s| - 1];
      SplitFirstPart(init, c);
      SplitSinglePart(init, c);
      var p := Split(init, c);
      if s[|s| - 1] != c && |p| == 1 {
        assert Split(s, c)[0] == p[0] + [s[|s| - 1]];
        assert init + [s[|s| - 1]] == s;
        assert Split(init, c) == [init] by {
          SplitSinglePart(init, c);
        }
      }
    }
  }

  /** A split yields a single part exactly when the separator does not occur. */
  lemma {:induction false} SplitSinglePart(s: string, c: char)
    ensures |Split(s, c)| == 1 <==> c !in s
    ensures c !in s ==> Split(s, c) == [s]
  {
    if |s| > 0 {
      var init := s[..|s| - 1];
      SplitSinglePart(init, c);
      assert s == init + [s[|s| - 1]];
      if s[|s| - 1] != c && c !in init {
        assert Split(s, c) == [init + [s[|s| - 1]]];
      }
      if |Split(init, c)| > 1 {
        assert |Split(s, c)| > 1;
      }
    }
  }

  /** The separator test of strings.Title for ASCII: everything except
      letters, digits and '_' separates words. */
  predicate IsSeparator(c: char)
  {
    c as int <= 0x7F && !IsAlnumChar(c) && c != '_'
  }

  /** strings.Title: every letter that starts a word (is first, or follows a
      separator) is upper-cased; everything else is kept. */
  function Title(s: string): (r: string)
    ensures |r| == |s|
  {
    if |s| == 0 then ""
    else
      var last := s[|s| - 1];
      Title(s[..|s| - 1])
        + [if |s| == 1 || IsSeparator(s[|s| - 2]) then ToUpperChar(last) else last]
  }

  /** Number of occurrences of `c` in `s`. */
  function Count(s: string, c: char): nat
  {
    if |s| == 0 then 0 else (if s[0] == c then 1 else 0) + Count(s[1..], c)
  }

  lemma {:induction false} CountConcat(a: string, b: string, c: char)
    ensures Count(a + b, c) == Count(a, c) + Count(b, c)
  {
    if |a| > 0 {
      assert (a + b)[1..] == a[1..] + b;
      CountConcat(a[1..], b, c);
    } else {
      assert a + b == b;
    }
  }

  /** Total number of occurrences of `c` over all parts. */
  function CountAll(parts: seq<string>, c: char): nat
  {
    if |parts| == 0 then 0 else Count(parts[0], c) + CountAll(parts[1..], c)
  }

  /** When the separator does not contain `c`, joining adds no occurrence of it. */
  lemma {:induction false} CountJoin(parts: seq<string>, sep: string, c: char)
    requires Count(sep, c) == 0
    ensures Count(Join(parts, sep), c) == CountAll(parts, c)
  {
    if |parts| == 1 {
      assert CountAll(parts[1..], c) == 0;
    } else if |parts| > 1 {
      CountJoin(parts[1..], sep, c);
      CountConcat(parts[0], sep, c);
      CountConcat(parts[0] + sep, Join(parts[1..], sep), c);
    }
  }

  function DigitChar(d: nat): (c: char)
    requires d < 10
    ensures IsDigitChar(c)
  {
    (('0' as int) + d) as char
  }

  /** fmt's %d of a non-negative integer: its decimal digits, most
      significant first, without leading zeros. */
  function NatToString(n: nat): (s: string)
    ensures |s| >= 1
    ensures forall i :: 0 <= i < |s| ==> IsDigitChar(s[i])
    ensures s[0] == '0' ==> n == 0
  {
    if n < 10 then [DigitChar(n)] else NatToString(n / 10) + [DigitChar(n % 10)]
  }

  /** fmt's %d of any integer. */
  function IntToString(i: int): (s: string)
    ensures |s| >= 1
  {
    if i < 0 then "-" + NatToString(-i) else NatToString(i)
  }

  /** A string made of decimal digits contains no other character. */
  lemma {:induction false} CountDigits(s: string, c: char)
    requires forall i :: 0 <= i < |s| ==> IsDigitChar(s[i])
    requires !IsDigitChar(c)
    ensures Count(s, c) == 0
  {
    if |s| > 0 {
      CountDigits(s[1..], c);
    }
  }

  /** A join of parts without `c`, by a separator without `c`, has no `c`. */
  lemma {:induction false} JoinAvoids(parts: seq<string>, sep: string, c: char)
    requires c !in sep
    requires forall i :: 0 <= i < |parts| ==> c !in parts[i]
    ensures c !in Join(parts, sep)
  {
    if |parts| > 1 {
      JoinAvoids(parts[1..], sep, c);
    }
  }

  /** Count agrees with membership. */
  lemma {:induction false} CountAbsent(s: string, c: char)
    requires c !in s
    ensures Count(s, c) == 0
  {
    if |s| > 0 {
      CountAbsent(s[1..], c);
    }
  }

  // ---------------------------------------------------------------------------
  // proof helpers: small unfoldings the other modules cite

  /** Proof helper: regrouping a concatenation. */
  lemma Assoc(a: string, b: string, c: string)
    ensures a + b + c == a + (b + c)
  {
  }

  /** Proof helper: Join unfolded for two parts. */
  lemma JoinTwo(a: string, b: string, sep: string)
    ensures Join([a, b], sep) == a + sep + b
  {
    assert [a, b][1..] == [b];
  }

  /** Proof helper: Join unfolded for three parts. */
  lemma JoinThree(a: string, b: string, c: string, sep: string)
    ensures Join([a, b, c], sep) == a + sep + b + sep + c
  {
    assert [a, b, c][1..] == [b, c];
    JoinTwo(b, c, sep);
  }

  /** Proof helper: the decimal text of the numbers in the expected outputs. */
  lemma SmallNumbers()
    ensures NatToString(5) == "5" && NatToString(10) == "10" && NatToString(20) == "20"
  {
  }
}
