/**
 * The JavaScript string operations the application relies on: `split`, `trim`,
 * ASCII `toUpperCase`, decimal `String(n)`, `padStart` and the character order
 * used by the default `Array.prototype.sort`.
 */
module Strings {
  import opened Options

  // ---------------------------------------------------------------------------
  // Searching and splitting
  // ---------------------------------------------------------------------------

  /** `sep` occurs in `s` starting at index `i`. */
  predicate OccursAt(s: string, sep: string, i: int)
  {
    0 <= i && i + |sep| <= |s| && s[i..i + |sep|] == sep
  }

  predicate Contains(s: string, sep: string)
  {
    exists i :: 0 <= i <= |s| - |sep| && OccursAt(s, sep, i)
  }

  /** The first index at which `sep` occurs in `s` (`s.indexOf(sep)`), if any. */
  function IndexOf(s: string, sep: string): (r: Option<nat>)
    requires sep != []
    ensures r.Some? ==> OccursAt(s, sep, r.value) && forall i :: 0 <= i < r.value ==> !OccursAt(s, sep, i)
    ensures r.None? ==> !Contains(s, sep)
    decreases |s|
  {
    if |s| < |sep| then None
    else if s[..|sep|] == sep then Some(0)
    else
      match IndexOf(s[1..], sep)
      case None =>
        assert !Contains(s, sep) by {
          forall i | OccursAt(s, sep, i)
            ensures false
          {
            OccursInTail(s, sep, i);
          }
        }
        None
      case Some(j) =>
        assert forall i :: 0 <= i < j + 1 ==> !OccursAt(s, sep, i) by {
          forall i | 0 <= i < j + 1 && OccursAt(s, sep, i)
            ensures false
          {
            OccursInTail(s, sep, i);
          }
        }
        OccursFromTail(s, sep, j);
        Some(j + 1)
  }

  /** An occurrence past the first character is an occurrence in the tail. */
  lemma OccursInTail(s: string, sep: string, i: int)
    requires 0 < i && OccursAt(s, sep, i)
    ensures OccursAt(s[1..], sep, i - 1)
  {
    assert s[1..][i - 1..i - 1 + |sep|] == s[i..i + |sep|];
  }

  /** An occurrence in the tail is an occurrence one place further on. */
  lemma OccursFromTail(s: string, sep: string, j: int)
    requires s != [] && OccursAt(s[1..], sep, j)
    ensures OccursAt(s, sep, j + 1)
  {
    assert s[1..][j..j + |sep|] == s[j + 1..j + 1 + |sep|];
  }

  /** `s.split(sep)`: the pieces between the successive leftmost occurrences of `sep`. */
  function Split(s: string, sep: string): (parts: seq<string>)
    requires sep != []
    ensures |parts| >= 1
    decreases |s|
  {
    match IndexOf(s, sep)
    case None => [s]
    case Some(i) => [s[..i]] + Split(s[i + |sep|..], sep)
  }

  /** `parts.join(sep)`. */
  function Join(parts: seq<string>, sep: string): string
  {
    if |parts| == 0 then ""
    else if |parts| == 1 then parts[0]
    else parts[0] + sep + Join(parts[1..], sep)
  }

  /** Splitting and joining again gives back the original string. */
  lemma {:induction false} JoinSplit(s: string, sep: string)
    requires sep != []
    ensures Join(Split(s, sep), sep) == s
    decreases |s|
  {
    match IndexOf(s, sep)
    case None =>
    case Some(i) =>
      var rest := s[i + |sep|..];
      var pieces := Split(rest, sep);
      JoinSplit(rest, sep);
      assert Split(s, sep) == [s[..i]] + pieces;
      assert ([s[..i]] + pieces)[1..] == pieces;
      assert Join([s[..i]] + pieces, sep) == s[..i] + sep + Join(pieces, sep);
      assert s == s[..i] + sep + rest;
  }

  /** No piece produced by `Split` contains the separator. */
  lemma {:induction false} SplitPiecesAreFree(s: string, sep: string)
    requires sep != []
    ensures forall k :: 0 <= k < |Split(s, sep)| ==> !Contains(Split(s, sep)[k], sep)
    decreases |s|
  {
    match IndexOf(s, sep)
    case None =>
    case Some(i) =>
      SplitPiecesAreFree(s[i + |sep|..], sep);
      forall j | OccursAt(s[..i], sep, j)
        ensures false
      {
        assert s[..i][j..j + |sep|] == s[j..j + |sep|];
        assert OccursAt(s, sep, j);
      }
  }

  /** In `w + [c] + rest` with no `c` in `w`, the first `c` is the one after `w`. */
  lemma FirstSeparatorAfter(w: string, c: char, rest: string)
    requires c !in w
    ensures IndexOf(w + [c] + rest, [c]) == Some(|w|)
  {
    var s := w + [c] + rest;
    assert OccursAt(s, [c], |w|);
    forall i | 0 <= i < |w|
      ensures !OccursAt(s, [c], i)
    {
      assert s[i] == w[i];
    }
  }

  /** A string without the character does not contain it as a separator. */
  lemma CharNotContained(w: string, c: char)
    requires c !in w
    ensures !Contains(w, [c])
  {
    forall i | 0 <= i < |w|
      ensures !OccursAt(w, [c], i)
    {
      assert w[i] != c;
    }
  }

  /** Splitting at a one-character separator undoes joining pieces that do not contain it. */
  lemma {:induction false} SplitJoinChar(words: seq<string>, c: char)
    requires |words| >= 1
    requires forall i :: 0 <= i < |words| ==> c !in words[i]
    ensures Split(Join(words, [c]), [c]) == words
    decreases |words|
  {
    var s := Join(words, [c]);
    if |words| == 1 {
      assert s == words[0];
      CharNotContained(s, c);
      SplitWithoutSeparator(s, [c]);
    } else {
      var w, rest := words[0], Join(words[1..], [c]);
      assert s == w + [c] + rest;
      FirstSeparatorAfter(w, c, rest);
      assert s[..|w|] == w && s[|w| + 1..] == rest;
      SplitJoinChar(words[1..], c);
      assert words == [w] + words[1..];
    }
  }

  /** A string without the separator is its own single piece. */
  lemma SplitWithoutSeparator(s: string, sep: string)
    requires sep != [] && !Contains(s, sep)
    ensures Split(s, sep) == [s]
  {
  }

  // ---------------------------------------------------------------------------
  // Trimming and case
  // ---------------------------------------------------------------------------

  /** The characters `String.prototype.trim` removes: ECMAScript white space and line terminators. */
  const WhiteSpace: string := " \t\n\r\U{000B}\U{000C}\U{00A0}\U{1680}\U{2000}\U{2001}\U{2002}\U{2003}\U{2004}\U{2005}\U{2006}\U{2007}\U{2008}\U{2009}\U{200A}\U{2028}\U{2029}\U{202F}\U{205F}\U{3000}\U{FEFF}"

  predicate IsWhiteSpace(c: char)
  {
    OneOf(c, WhiteSpace)
  }

  /** Whether `c` is one of `chars`. */
  predicate OneOf(c: char, chars: string)
  {
    chars != [] && (c == chars[0] || OneOf(c, chars[1..]))
  }

  function TrimStart(s: string): (r: string)
    ensures |r| <= |s| && r == s[|s| - |r|..]
    ensures r == [] || !IsWhiteSpace(r[0])
    ensures forall i :: 0 <= i < |s| - |r| ==> IsWhiteSpace(s[i])
  {
    if s != [] && IsWhiteSpace(s[0]) then TrimStart(s[1..]) else s
  }

  function TrimEnd(s: string): (r: string)
    ensures |r| <= |s| && r == s[..|r|]
    ensures r == [] || !IsWhiteSpace(r[|r| - 1])
    ensures forall i :: |r| <= i < |s| ==> IsWhiteSpace(s[i])
  {
    if s != [] && IsWhiteSpace(s[|s| - 1]) then TrimEnd(s[..|s| - 1]) else s
  }

  /** `s.trim()`: `s` without its leading and trailing white space. */
  function Trim(s: string): string
  {
    TrimEnd(TrimStart(s))
  }

  /** How many white-space characters `Trim` removes from the front. */
  function LeadingWhiteSpace(s: string): nat
  {
    |s| - |TrimStart(s)|
  }

  /** The trimmed string is the slice of the original that starts after the leading white space. */
  lemma TrimIsSlice(s: string)
    ensures LeadingWhiteSpace(s) + |Trim(s)| <= |s|
    ensures Trim(s) == s[LeadingWhiteSpace(s)..LeadingWhiteSpace(s) + |Trim(s)|]
  {
    var start := TrimStart(s);
    var lo := |s| - |start|;
    PrefixOfSuffix(s, start, TrimEnd(start));
  }

  /** A prefix of a suffix of `s` is a slice of `s`. */
  lemma PrefixOfSuffix(s: string, suffix: string, prefix: string)
    requires |suffix| <= |s| && suffix == s[|s| - |suffix|..]
    requires |prefix| <= |suffix| && prefix == suffix[..|prefix|]
    ensures prefix == s[|s| - |suffix|..|s| - |suffix| + |prefix|]
  {
  }

  /** What `Trim` removes from the front is white space. */
  lemma TrimRemovesLeadingWhiteSpace(s: string)
    ensures forall i :: 0 <= i < LeadingWhiteSpace(s) ==> IsWhiteSpace(s[i])
  {
  }

  /** What `Trim` removes from the back is white space. */
  lemma TrimRemovesTrailingWhiteSpace(s: string)
    ensures forall i :: LeadingWhiteSpace(s) + |Trim(s)| <= i < |s| ==> IsWhiteSpace(s[i])
  {
    var start := TrimStart(s);
    var lo := |s| - |start|;
    var r := TrimEnd(start);
    forall i | lo + |r| <= i < |s|
      ensures IsWhiteSpace(s[i])
    {
      var k := i - lo;
      assert |r| <= k < |start|;
      assert IsWhiteSpace(start[k]);
      assert s[i] == start[k];
    }
  }

  /** The trimmed string neither starts nor ends with white space. */
  lemma TrimEdges(s: string)
    ensures Trim(s) == [] || (!IsWhiteSpace(Trim(s)[0]) && !IsWhiteSpace(Trim(s)[|Trim(s)| - 1]))
  {
    var start := TrimStart(s);
    var r := TrimEnd(start);
    if r != [] {
      assert r[0] == start[0];
    }
  }

  /** Trimming an already trimmed string changes nothing. */
  lemma TrimIdempotent(s: string)
    ensures Trim(Trim(s)) == Trim(s)
  {
    TrimEdges(s);
  }

  /** ASCII upper-casing of one character. */
  function UpperChar(c: char): (u: char)
    ensures 'a' <= c <= 'z' ==> 'A' <= u <= 'Z' && u as int == c as int - 32
    ensures !('a' <= c <= 'z') ==> u == c
  {
    if 'a' <= c <= 'z' then (c as int - 32) as char else c
  }

  /** `s.toUpperCase()`, restricted to ASCII letters. */
  function UpperCase(s: string): (u: string)
    ensures |u| == |s|
    ensures forall i :: 0 <= i < |s| ==> u[i] == UpperChar(s[i])
  {
    if s == [] then [] else [UpperChar(s[0])] + UpperCase(s[1..])
  }

  // ---------------------------------------------------------------------------
  // Decimal numerals
  // ---------------------------------------------------------------------------

  predicate IsDigit(c: char)
  {
    '0' <= c <= '9'
  }

  predicate AllDigits(s: string)
  {
    forall i :: 0 <= i < |s| ==> IsDigit(s[i])
  }

  function DigitChar(d: int): (c: char)
    requires 0 <= d < 10
    ensures IsDigit(c) && c as int - '0' as int == d
  {
    ('0' as int + d) as char
  }

  /** The decimal numeral of `n` without leading zeros (`String(n)`). */
  function NatToDecimal(n: nat): (s: string)
    ensures 1 <= |s|
    ensures AllDigits(s)
    ensures n < 10 ==> s == [DigitChar(n)]
    ensures n >= 10 ==> 2 <= |s|
    ensures n < 100 ==> |s| <= 2
  {
    if n < 10 then [DigitChar(n)] else NatToDecimal(n / 10) + [DigitChar(n % 10)]
  }

  /** `String(i)` for an integer. */
  function IntToDecimal(i: int): string
  {
    if i < 0 then "-" + NatToDecimal(-i) else NatToDecimal(i)
  }

  /** The value of a string of digits, most significant first (leading zeros allowed). */
  function DecimalValue(s: string): nat
    requires AllDigits(s)
  {
    if s == [] then 0
    else
      var last := s[|s| - 1];
      assert IsDigit(last);
      10 * DecimalValue(s[..|s| - 1]) + (last as int - '0' as int)
  }

  /** Reading a numeral back gives the number. */
  lemma {:induction false} DecimalValueOfNatToDecimal(n: nat)
    ensures DecimalValue(NatToDecimal(n)) == n
  {
    if n >= 10 {
      var s := NatToDecimal(n);
      assert s[..|s| - 1] == NatToDecimal(n / 10);
      DecimalValueOfNatToDecimal(n / 10);
    }
  }

  /** `s.padStart(width, fill)`. */
  function PadStart(s: string, width: nat, fill: char): (r: string)
    ensures |r| == if |s| >= width then |s| else width
    ensures r == seq(|r| - |s|, _ => fill) + s
    ensures fill == '0' ==> r == Zeros(|r| - |s|) + s
  {
    if |s| >= width then s else seq(width - |s|, _ => fill) + s
  }

  function Zeros(k: nat): (z: string)
    ensures |z| == k && AllDigits(z)
  {
    seq(k, _ => '0')
  }

  lemma {:induction false} DecimalValueOfZeros(k: nat)
    ensures DecimalValue(Zeros(k)) == 0
  {
    if k > 0 {
      assert Zeros(k)[..k - 1] == Zeros(k - 1);
      DecimalValueOfZeros(k - 1);
    }
  }

  /** Leading zeros do not change the value of a numeral. */
  lemma {:induction false} DecimalValueLeadingZeros(k: nat, s: string)
    requires AllDigits(s)
    ensures AllDigits(Zeros(k) + s)
    ensures DecimalValue(Zeros(k) + s) == DecimalValue(s)
    decreases |s|
  {
    var z := Zeros(k);
    assert AllDigits(z + s);
    if s == [] {
      assert z + s == z;
      DecimalValueOfZeros(k);
    } else {
      var init := s[..|s| - 1];
      assert (z + s)[..|z + s| - 1] == z + init;
      DecimalValueLeadingZeros(k, init);
    }
  }

  // ---------------------------------------------------------------------------
  // Character order of strings
  // ---------------------------------------------------------------------------

  /** `a` sorts no later than `b` when strings are compared character by character. */
  predicate StringLessEq(a: string, b: string)
  {
    a == [] || (b != [] && (a[0] < b[0] || (a[0] == b[0] && StringLessEq(a[1..], b[1..]))))
  }

  lemma {:induction false} StringLessEqTotal(a: string, b: string)
    ensures StringLessEq(a, b) || StringLessEq(b, a)
  {
    if a != [] && b != [] && a[0] == b[0] {
      StringLessEqTotal(a[1..], b[1..]);
    }
  }

  lemma {:induction false} StringLessEqTransitive(a: string, b: string, c: string)
    requires StringLessEq(a, b) && StringLessEq(b, c)
    ensures StringLessEq(a, c)
  {
    if a != [] && a[0] == b[0] && b[0] == c[0] {
      StringLessEqTransitive(a[1..], b[1..], c[1..]);
    }
  }

  lemma {:induction false} StringLessEqAntisymmetric(a: string, b: string)
    requires StringLessEq(a, b) && StringLessEq(b, a)
    ensures a == b
  {
    if a != [] {
      StringLessEqAntisymmetric(a[1..], b[1..]);
      assert a == [a[0]] + a[1..] && b == [b[0]] + b[1..];
    }
  }
}
