/**
 * The PHP string built-ins the supervisor relies on, on strings of characters:
 * trim(), explode()/implode(), str_starts_with()/str_ends_with(), strtoupper(),
 * the `(int)` cast of a string and the decimal rendering of an integer used
 * by string interpolation.
 */
module PhpText {
  import opened SeqFacts

  // ---------------------------------------------------------------------------
  // Character classes
  // ---------------------------------------------------------------------------

  /** The characters trim() strips by default: space, \t, \n, \r, \0 and \x0B. */
  predicate IsTrimChar(c: char) {
    c == ' ' || c == '\t' || c == '\n' || c == '\r' || c == '\0' || c == '\U{0B}'
  }

  /** The characters `\s` matches in a PCRE pattern without the u modifier. */
  predicate IsRegexSpace(c: char) {
    c == ' ' || c == '\t' || c == '\n' || c == '\r' || c == '\U{0B}' || c == '\U{0C}'
  }

  /** The whitespace PHP allows in front of a numeric string. */
  predicate IsNumericLead(c: char) {
    c == ' ' || c == '\t' || c == '\n' || c == '\r' || c == '\U{0B}' || c == '\U{0C}'
  }

  predicate IsDigit(c: char) {
    '0' <= c <= '9'
  }

  predicate AllDigits(s: string) {
    forall i :: 0 <= i < |s| ==> IsDigit(s[i])
  }

  // ---------------------------------------------------------------------------
  // Prefixes, suffixes, case
  // ---------------------------------------------------------------------------

  predicate StartsWith(s: string, prefix: string) {
    |prefix| <= |s| && s[..|prefix|] == prefix
  }

  predicate EndsWith(s: string, suffix: string) {
    |suffix| <= |s| && s[|s| - |suffix|..] == suffix
  }

  /** str_starts_with(): the string is the prefix followed by some rest. */
  lemma StartsWithIff(s: string, prefix: string)
    ensures StartsWith(s, prefix) <==> exists rest :: s == prefix + rest
  {
    if StartsWith(s, prefix) {
      assert s == prefix + s[|prefix|..];
    }
    forall rest | s == prefix + rest
      ensures StartsWith(s, prefix)
    {
      assert s[..|prefix|] == prefix;
    }
  }

  /** str_ends_with(): the string is some text followed by the suffix. */
  lemma EndsWithIff(s: string, suffix: string)
    ensures EndsWith(s, suffix) <==> exists init :: s == init + suffix
  {
    if EndsWith(s, suffix) {
      assert s == s[..|s| - |suffix|] + suffix;
    }
    forall init | s == init + suffix
      ensures EndsWith(s, suffix)
    {
      assert s[|s| - |suffix|..] == suffix;
    }
  }

  /** Whether a string ends in a given character depends on its last character only. */
  lemma EndsWithChar(s: string, c: char)
    ensures EndsWith(s, [c]) <==> |s| > 0 && s[|s| - 1] == c
  {
    if |s| > 0 && s[|s| - 1] == c {
      assert s[|s| - 1..] == [c];
    }
  }

  /** strtoupper() on one character: ASCII letters only, as PHP 8 does. */
  function UpperChar(c: char): (u: char)
    ensures 'a' <= c <= 'z' ==> 'A' <= u <= 'Z'
    ensures !('a' <= c <= 'z') ==> u == c
  {
    if 'a' <= c <= 'z' then (c as int - 32) as char else c
  }

  /** strtolower() on one character. */
  function LowerChar(c: char): (l: char)
    ensures 'A' <= c <= 'Z' ==> 'a' <= l <= 'z'
    ensures !('A' <= c <= 'Z') ==> l == c
  {
    if 'A' <= c <= 'Z' then (c as int + 32) as char else c
  }

  /** lcfirst() */
  function LowerFirst(s: string): (r: string)
    ensures |r| == |s|
    ensures s != [] ==> r[0] == LowerChar(s[0]) && r[1..] == s[1..]
  {
    if s == [] then [] else [LowerChar(s[0])] + s[1..]
  }

  /** The characters ucwords() treats as word boundaries by default: space, \t, \r, \n, \f and \v. */
  predicate IsWordDelimiter(c: char) {
    c == ' ' || c == '\t' || c == '\r' || c == '\n' || c == '\U{0C}' || c == '\U{0B}'
  }

  /** ucwords(): the first character and every character after a boundary are upper-cased. */
  function UpperWords(s: string): (r: string)
    ensures |r| == |s|
  {
    UpperWordsAfter(true, s)
  }

  /** ucwords() on the rest of a string, told whether a word starts here. */
  function UpperWordsAfter(wordStart: bool, s: string): (r: string)
    ensures |r| == |s|
    decreases |s|
  {
    if s == [] then []
    else [if wordStart then UpperChar(s[0]) else s[0]] + UpperWordsAfter(IsWordDelimiter(s[0]), s[1..])
  }

  /** str_replace() of one character by another. */
  function ReplaceChar(s: string, from: char, to: char): (r: string)
    ensures |r| == |s| && (from != to ==> from !in r)
    decreases |s|
  {
    if s == [] then [] else [if s[0] == from then to else s[0]] + ReplaceChar(s[1..], from, to)
  }

  /** str_replace() of one character by the empty string. */
  function RemoveChar(s: string, c: char): (r: string)
    ensures |r| <= |s| && c !in r
    decreases |s|
  {
    if s == [] then [] else (if s[0] == c then [] else [s[0]]) + RemoveChar(s[1..], c)
  }

  lemma {:induction false} ReplaceCharAppend(a: string, b: string, from: char, to: char)
    ensures ReplaceChar(a + b, from, to) == ReplaceChar(a, from, to) + ReplaceChar(b, from, to)
    decreases |a|
  {
    if a != [] {
      assert (a + b)[1..] == a[1..] + b;
      ReplaceCharAppend(a[1..], b, from, to);
      AppendAssoc([if a[0] == from then to else a[0]], ReplaceChar(a[1..], from, to), ReplaceChar(b, from, to));
    } else {
      assert a + b == b;
    }
  }

  lemma {:induction false} ReplaceCharAbsent(s: string, from: char, to: char)
    requires from !in s
    ensures ReplaceChar(s, from, to) == s
    decreases |s|
  {
    if s != [] {
      ReplaceCharAbsent(s[1..], from, to);
    }
  }

  lemma {:induction false} RemoveCharAppend(a: string, b: string, c: char)
    ensures RemoveChar(a + b, c) == RemoveChar(a, c) + RemoveChar(b, c)
    decreases |a|
  {
    if a != [] {
      assert (a + b)[1..] == a[1..] + b;
      RemoveCharAppend(a[1..], b, c);
      AppendAssoc(if a[0] == c then [] else [a[0]], RemoveChar(a[1..], c), RemoveChar(b, c));
    } else {
      assert a + b == b;
    }
  }

  lemma {:induction false} RemoveCharAbsent(s: string, c: char)
    requires c !in s
    ensures RemoveChar(s, c) == s
    decreases |s|
  {
    if s != [] {
      RemoveCharAbsent(s[1..], c);
    }
  }

  /** ucwords() on a concatenation: the right part starts a word when the left part ends in a boundary. */
  lemma {:induction false} UpperWordsAfterAppend(wordStart: bool, a: string, b: string)
    requires a != []
    ensures UpperWordsAfter(wordStart, a + b)
         == UpperWordsAfter(wordStart, a) + UpperWordsAfter(IsWordDelimiter(a[|a| - 1]), b)
    decreases |a|
  {
    var head := [if wordStart then UpperChar(a[0]) else a[0]];
    assert (a + b)[0] == a[0] && (a + b)[1..] == a[1..] + b;
    if |a| == 1 {
      assert a[1..] + b == b;
      assert UpperWordsAfter(IsWordDelimiter(a[0]), a[1..]) == [];
    } else {
      UpperWordsAfterAppend(IsWordDelimiter(a[0]), a[1..], b);
      assert a[1..][|a[1..]| - 1] == a[|a| - 1];
      AppendAssoc(head, UpperWordsAfter(IsWordDelimiter(a[0]), a[1..]),
        UpperWordsAfter(IsWordDelimiter(a[|a| - 1]), b));
    }
  }

  /** Inside a word ucwords() changes nothing. */
  lemma {:induction false} UpperWordsInsideWord(s: string)
    requires forall i :: 0 <= i < |s| ==> !IsWordDelimiter(s[i])
    ensures UpperWordsAfter(false, s) == s
    decreases |s|
  {
    if s != [] {
      UpperWordsInsideWord(s[1..]);
    }
  }

  /** On one word ucwords() upper-cases the first character only. */
  lemma UpperWordsOfWord(w: string)
    requires w != [] && forall i :: 0 <= i < |w| ==> !IsWordDelimiter(w[i])
    ensures UpperWords(w) == [UpperChar(w[0])] + w[1..]
  {
    UpperWordsInsideWord(w[1..]);
  }

  lemma LowerOfUpper(c: char)
    requires 'a' <= c <= 'z'
    ensures LowerChar(UpperChar(c)) == c
  {
  }

  /** strtoupper() */
  function ToUpper(s: string): (u: string)
    ensures |u| == |s|
  {
    if s == [] then [] else [UpperChar(s[0])] + ToUpper(s[1..])
  }

  /** strtoupper() upper-cases each character in place. */
  lemma {:induction false} ToUpperChars(s: string)
    ensures forall i :: 0 <= i < |s| ==> ToUpper(s)[i] == UpperChar(s[i])
  {
    if s != [] {
      ToUpperChars(s[1..]);
    }
  }

  // ---------------------------------------------------------------------------
  // trim()
  // ---------------------------------------------------------------------------

  function TrimLeft(s: string): (r: string)
    ensures |r| <= |s|
  {
    if |s| > 0 && IsTrimChar(s[0]) then TrimLeft(s[1..]) else s
  }

  function TrimRight(s: string): (r: string)
    ensures |r| <= |s|
  {
    if |s| > 0 && IsTrimChar(s[|s| - 1]) then TrimRight(s[..|s| - 1]) else s
  }

  /** TrimLeft() removes the longest prefix of trim characters. */
  lemma {:induction false} TrimLeftSpec(s: string)
    ensures TrimLeft(s) == s[|s| - |TrimLeft(s)|..]
    ensures TrimLeft(s) == [] || !IsTrimChar(TrimLeft(s)[0])
    ensures forall k :: 0 <= k < |s| - |TrimLeft(s)| ==> IsTrimChar(s[k])
    decreases |s|
  {
    if |s| > 0 && IsTrimChar(s[0]) {
      TrimLeftSpec(s[1..]);
    }
  }

  /** TrimRight() removes the longest suffix of trim characters. */
  lemma {:induction false} TrimRightSpec(s: string)
    ensures TrimRight(s) == s[..|TrimRight(s)|]
    ensures TrimRight(s) == [] || !IsTrimChar(TrimRight(s)[|TrimRight(s)| - 1])
    ensures forall k :: |TrimRight(s)| <= k < |s| ==> IsTrimChar(s[k])
    decreases |s|
  {
    if |s| > 0 && IsTrimChar(s[|s| - 1]) {
      TrimRightSpec(s[..|s| - 1]);
    }
  }

  /**
   * trim(): the slice of `s` left once the longest run of trim characters at
   * either end is removed.
   */
  function Trim(s: string): (r: string)
    ensures |r| <= |s|
  {
    TrimRight(TrimLeft(s))
  }

  /** trim() leaves no trim character at either end. */
  lemma TrimEnds(s: string)
    ensures Trim(s) == [] || (!IsTrimChar(Trim(s)[0]) && !IsTrimChar(Trim(s)[|Trim(s)| - 1]))
  {
    var l := TrimLeft(s);
    TrimLeftSpec(s);
    TrimRightSpec(l);
    var r := TrimRight(l);
    if r != [] {
      assert r[0] == l[0];
    }
  }

  /** trim() leaves a string alone when neither end is a trim character. */
  lemma TrimNoop(s: string)
    requires s == [] || (!IsTrimChar(s[0]) && !IsTrimChar(s[|s| - 1]))
    ensures Trim(s) == s
  {
    assert TrimLeft(s) == s;
  }

  /** What trim() removes is trim characters only, at each end. */
  lemma TrimIsSlice(s: string)
    ensures exists i, j ::
              && 0 <= i <= j <= |s| && Trim(s) == s[i..j]
              && (forall k :: 0 <= k < i ==> IsTrimChar(s[k]))
              && (forall k :: j <= k < |s| ==> IsTrimChar(s[k]))
  {
    var l := TrimLeft(s);
    TrimLeftSpec(s);
    TrimRightSpec(l);
    var r := TrimRight(l);
    assert r == s[|s| - |l|..|s| - |l| + |r|];
    forall k | |s| - |l| + |r| <= k < |s| ensures IsTrimChar(s[k]) {
      assert s[k] == l[k - (|s| - |l|)];
    }
  }

  /** Trimming twice is trimming once. */
  lemma TrimIdempotent(s: string)
    ensures Trim(Trim(s)) == Trim(s)
  {
    var r := Trim(s);
    TrimEnds(s);
    if r != [] {
      assert TrimLeft(r) == r;
      assert TrimRight(r) == r;
    }
  }

  /** A line is blank for trim() exactly when it consists of trim characters only. */
  lemma {:induction false} BlankIffAllTrimChars(s: string)
    ensures Trim(s) == [] <==> forall k :: 0 <= k < |s| ==> IsTrimChar(s[k])
  {
    var l := TrimLeft(s);
    TrimLeftSpec(s);
    TrimRightSpec(l);
    if !forall k :: 0 <= k < |s| ==> IsTrimChar(s[k]) {
      var k :| 0 <= k < |s| && !IsTrimChar(s[k]);
      assert |s| - |l| <= k;
      assert l[k - (|s| - |l|)] == s[k];
    }
  }

  // ---------------------------------------------------------------------------
  // explode() and implode()
  // ---------------------------------------------------------------------------

  /** explode() with a one-character separator; explode(sep, "") is [""]. */
  function Split(s: string, sep: char): (parts: seq<string>)
    ensures |parts| >= 1
    decreases |s|
  {
    if |s| == 0 then [""]
    else
      var rest := Split(s[1..], sep);
      if s[0] == sep then [""] + rest else [[s[0]] + rest[0]] + rest[1..]
  }

  /** implode() */
  function Join(parts: seq<string>, sep: string): string
    decreases |parts|
  {
    if |parts| == 0 then ""
    else if |parts| == 1 then parts[0]
    else parts[0] + sep + Join(parts[1..], sep)
  }

  /** Joining the pieces of explode() with the separator gives the text back. */
  lemma {:induction false} JoinSplit(s: string, sep: char)
    ensures Join(Split(s, sep), [sep]) == s
    decreases |s|
  {
    if |s| > 0 {
      var rest := Split(s[1..], sep);
      JoinSplit(s[1..], sep);
      if s[0] == sep {
        assert Split(s, sep) == [""] + rest;
        assert s == [sep] + s[1..];
      } else {
        var parts := [[s[0]] + rest[0]] + rest[1..];
        if |rest| == 1 {
          assert Join(rest, [sep]) == rest[0];
        } else {
          assert Join(rest, [sep]) == rest[0] + [sep] + Join(rest[1..], [sep]);
          assert parts[1..] == rest[1..];
        }
        assert s == [s[0]] + s[1..];
      }
    }
  }

  lemma {:induction false} SplitNoSeparator(a: string, sep: char)
    requires sep !in a
    ensures Split(a, sep) == [a]
    decreases |a|
  {
    if |a| > 0 {
      SplitNoSeparator(a[1..], sep);
      assert [a[0]] + a[1..] == a;
    }
  }

  lemma {:induction false} SplitAfterPiece(a: string, sep: char, b: string)
    requires sep !in a
    ensures Split(a + [sep] + b, sep) == [a] + Split(b, sep)
    decreases |a|
  {
    if |a| == 0 {
      assert a + [sep] + b == [sep] + b;
      assert ([sep] + b)[1..] == b;
    } else {
      var s := a + [sep] + b;
      assert s[1..] == a[1..] + [sep] + b;
      SplitAfterPiece(a[1..], sep, b);
      assert [a[0]] + a[1..] == a;
    }
  }

  /** explode() undoes implode() when no piece contains the separator. */
  lemma {:induction false} SplitJoin(parts: seq<string>, sep: char)
    requires |parts| >= 1
    requires forall i :: 0 <= i < |parts| ==> sep !in parts[i]
    ensures Split(Join(parts, [sep]), sep) == parts
    decreases |parts|
  {
    if |parts| == 1 {
      SplitNoSeparator(parts[0], sep);
    } else {
      SplitJoin(parts[1..], sep);
      SplitAfterPiece(parts[0], sep, Join(parts[1..], [sep]));
      assert [parts[0]] + parts[1..] == parts;
    }
  }

  /** implode() of non-empty pieces is empty exactly when there are no pieces. */
  lemma {:induction false} JoinEmptyIff(parts: seq<string>, sep: string)
    requires forall i :: 0 <= i < |parts| ==> parts[i] != ""
    ensures Join(parts, sep) == "" <==> parts == []
  {
    if |parts| >= 2 {
      assert |Join(parts, sep)| >= |parts[0]| > 0;
    } else if |parts| == 1 {
      assert Join(parts, sep) == parts[0];
    }
  }

  // ---------------------------------------------------------------------------
  // Decimal integers: the (int) cast of a string and "{$n}" interpolation
  // ---------------------------------------------------------------------------

  function DigitValue(c: char): (d: nat)
    requires IsDigit(c)
    ensures d < 10
  {
    c as int - '0' as int
  }

  function DigitChar(d: nat): (c: char)
    requires d < 10
    ensures IsDigit(c) && DigitValue(c) == d
  {
    ('0' as int + d) as char
  }

  /** The value of a string of decimal digits, most significant first. */
  function DigitsValue(ds: string): nat
    requires AllDigits(ds)
    decreases |ds|
  {
    if |ds| == 0 then 0 else DigitsValue(ds[..|ds| - 1]) * 10 + DigitValue(ds[|ds| - 1])
  }

  /** The decimal digits of a natural number, without leading zeros. */
  function NatToString(n: nat): (s: string)
    ensures |s| >= 1 && AllDigits(s)
    ensures DigitsValue(s) == n
    decreases n
  {
    var s := if n < 10 then [DigitChar(n)] else NatToString(n / 10) + [DigitChar(n % 10)];
    assert n >= 10 ==> s[..|s| - 1] == NatToString(n / 10);
    s
  }

  /** How PHP renders an int inside a string. */
  function IntToString(i: int): (s: string)
    ensures |s| >= 1
  {
    if i < 0 then "-" + NatToString(-i) else NatToString(i)
  }

  /** The rendering of an integer is digits after at most a leading minus sign. */
  lemma IntToStringChars(i: int)
    ensures forall k :: 0 <= k < |IntToString(i)| ==>
      IsDigit(IntToString(i)[k]) || (k == 0 && IntToString(i)[k] == '-')
    ensures IsDigit(IntToString(i)[|IntToString(i)| - 1])
  {
    if i < 0 {
      var ds := NatToString(-i);
      assert forall k :: 1 <= k < |"-" + ds| ==> ("-" + ds)[k] == ds[k - 1];
    }
  }

  /** strtoupper() works character by character, so it distributes over concatenation. */
  lemma ToUpperAppend(a: string, b: string)
    ensures ToUpper(a + b) == ToUpper(a) + ToUpper(b)
  {
    ToUpperChars(a + b);
    ToUpperChars(a);
    ToUpperChars(b);
    assert forall k :: 0 <= k < |a + b| ==> (a + b)[k] == if k < |a| then a[k] else b[k - |a|];
  }

  /** strtoupper() leaves the rendering of an integer as it is. */
  lemma ToUpperOfIntToString(i: int)
    ensures ToUpper(IntToString(i)) == IntToString(i)
  {
    ToUpperChars(IntToString(i));
    IntToStringChars(i);
  }

  /** The longest prefix of decimal digits. */
  function DigitPrefix(s: string): (p: string)
    ensures AllDigits(p) && StartsWith(s, p)
    ensures |p| < |s| ==> !IsDigit(s[|p|])
    decreases |s|
  {
    if |s| > 0 && IsDigit(s[0]) then [s[0]] + DigitPrefix(s[1..]) else ""
  }

  /** What the cast skips before the sign: whitespace, a form feed included. */
  function SkipNumericLead(s: string): string
    decreases |s|
  {
    if |s| > 0 && IsNumericLead(s[0]) then SkipNumericLead(s[1..]) else s
  }

  /** The value of the digits a string starts with; 0 when it starts with none. */
  function LeadingValue(s: string): nat {
    DigitsValue(DigitPrefix(s))
  }

  /**
   * The `(int)` cast of a string: leading whitespace, an optional sign and
   * the longest run of digits that follows; 0 when there are no digits.
   */
  function IntCast(s: string): int {
    var t := SkipNumericLead(s);
    if |t| > 0 && t[0] == '-' then -(LeadingValue(t[1..]) as int)
    else if |t| > 0 && t[0] == '+' then LeadingValue(t[1..])
    else LeadingValue(t)
  }

  lemma {:induction false} DigitPrefixOfDigits(ds: string, rest: string)
    requires AllDigits(ds)
    requires rest == [] || !IsDigit(rest[0])
    ensures DigitPrefix(ds + rest) == ds
    decreases |ds|
  {
    if |ds| == 0 {
      assert ds + rest == rest;
    } else {
      assert (ds + rest)[1..] == ds[1..] + rest;
      DigitPrefixOfDigits(ds[1..], rest);
      assert [ds[0]] + ds[1..] == ds;
    }
  }

  /** A run of digits followed by a non-digit casts to the run's value. */
  lemma DigitsCast(ds: string, rest: string)
    requires |ds| >= 1 && AllDigits(ds)
    requires rest == [] || !IsDigit(rest[0])
    ensures IntCast(ds + rest) == DigitsValue(ds)
  {
    var t := ds + rest;
    assert t[0] == ds[0];
    UnsignedCast(t);
    DigitPrefixOfDigits(ds, rest);
  }

  lemma UnsignedCast(t: string)
    requires |t| > 0 && IsDigit(t[0])
    ensures IntCast(t) == LeadingValue(t)
  {
    assert SkipNumericLead(t) == t;
  }

  lemma MinusCast(t: string)
    requires |t| > 0 && t[0] == '-'
    ensures IntCast(t) == -(LeadingValue(t[1..]) as int)
  {
    assert SkipNumericLead(t) == t;
  }

  /** A minus sign, a run of digits and a non-digit cast to the negated value. */
  lemma NegatedDigitsCast(ds: string, rest: string)
    requires |ds| >= 1 && AllDigits(ds)
    requires rest == [] || !IsDigit(rest[0])
    ensures IntCast("-" + (ds + rest)) == -(DigitsValue(ds) as int)
  {
    var u := ds + rest;
    MinusCast("-" + u);
    assert ("-" + u)[1..] == u;
    DigitPrefixOfDigits(ds, rest);
  }

  /**
   * Reading the rendering of an integer back with `(int)` gives the integer,
   * whatever non-digit text follows it (a unit suffix, say).
   */
  lemma IntCastOfIntToString(i: int, rest: string)
    requires rest == [] || !IsDigit(rest[0])
    ensures IntCast(IntToString(i) + rest) == i
  {
    if i < 0 {
      NegatedDigitsCast(NatToString(-i), rest);
      AppendAssoc("-", NatToString(-i), rest);
    } else {
      DigitsCast(NatToString(i), rest);
    }
  }
}
