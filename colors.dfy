/** Member colours from a fixed palette, and two-letter initials for avatars. */
module Colors {
  import opened Options
  import opened Seqs
  import opened Strings

  /** The ten member colours, in assignment order. */
  const Palette: seq<string> := [
    "#6366f1", "#ec4899", "#f59e0b", "#10b981", "#3b82f6",
    "#ef4444", "#8b5cf6", "#14b8a6", "#f97316", "#06b6d4"]

  /** JavaScript's integer quotient: rounded toward zero. */
  function TruncatedQuotient(a: int, b: int): int
    requires b > 0
  {
    if a >= 0 then a / b else -((-a) / b)
  }

  /**
   * JavaScript's `a % b` for a positive divisor: what is left after the truncated
   * quotient, so it takes the sign of `a`.
   */
  function TruncatedRemainder(a: int, b: int): (r: int)
    requires b > 0
    ensures -b < r < b
    ensures a >= 0 ==> r >= 0
    ensures a <= 0 ==> r <= 0
    ensures a == b * TruncatedQuotient(a, b) + r
  {
    if a >= 0 then a % b else -((-a) % b)
  }

  /**
   * `PALETTE[index % PALETTE.length]`: absent (`undefined`) when the truncated remainder
   * is negative; a remainder of minus zero reads entry 0.
   */
  function ColorForIndex(index: int): (color: Option<string>)
  {
    var r := TruncatedRemainder(index, |Palette|);
    if r >= 0 then Some(Palette[r]) else None
  }

  /** A non-negative index picks palette entry `index mod 10`; a negative one only when it is a multiple of 10. */
  lemma ColorForIndexCases(index: int)
    ensures index >= 0 ==> ColorForIndex(index) == Some(Palette[index % 10])
    ensures index < 0 ==> (ColorForIndex(index).Some? <==> index % 10 == 0)
    ensures ColorForIndex(index).Some? ==> ColorForIndex(index).value in Palette
  {
    if index < 0 {
      var q, r := TruncatedQuotient(index, 10), TruncatedRemainder(index, 10);
      if r == 0 {
        assert index == 10 * q;
      }
    }
  }

  /** Colours repeat every ten members. */
  lemma ColorForIndexPeriodic(index: int)
    requires index >= 0
    ensures ColorForIndex(index + 10) == ColorForIndex(index)
  {
    ColorForIndexCases(index);
    ColorForIndexCases(index + 10);
  }

  /**
   * `words.map((w) => w[0]).join('')`: the first character of each word; an empty word
   * gives `undefined`, which `join` renders as nothing.
   */
  function FirstCharacters(words: seq<string>): string
  {
    if words == [] then ""
    else (if words[0] == "" then "" else [words[0][0]]) + FirstCharacters(words[1..])
  }

  function NonEmpty(w: string): bool
  {
    w != ""
  }

  /** `name.split(' ').map((w) => w[0]).join('').toUpperCase().slice(0, 2)`. */
  function Initials(name: string): (initials: string)
    ensures |initials| <= 2
  {
    var letters := UpperCase(FirstCharacters(Split(name, " ")));
    if |letters| <= 2 then letters else letters[..2]
  }

  /** Empty words contribute nothing to the first characters. */
  lemma {:induction false} FirstCharactersSkipEmpty(words: seq<string>)
    ensures FirstCharacters(words) == FirstCharacters(Filter(words, NonEmpty))
  {
    if words != [] {
      FirstCharactersSkipEmpty(words[1..]);
      if words[0] == "" {
        assert Filter(words, NonEmpty) == Filter(words[1..], NonEmpty);
      } else {
        var rest := Filter(words[1..], NonEmpty);
        assert Filter(words, NonEmpty) == [words[0]] + rest;
        assert ([words[0]] + rest)[1..] == rest;
      }
    }
  }

  /** With no empty word, there is one first character per word, in order. */
  lemma {:induction false} FirstCharactersOfWords(words: seq<string>)
    requires forall i :: 0 <= i < |words| ==> words[i] != ""
    ensures |FirstCharacters(words)| == |words|
    ensures forall i :: 0 <= i < |words| ==> FirstCharacters(words)[i] == words[i][0]
  {
    if words != [] {
      FirstCharactersOfWords(words[1..]);
      assert FirstCharacters(words) == [words[0][0]] + FirstCharacters(words[1..]);
    }
  }

  /**
   * For a name made of words joined by single spaces, the initials are the upper-cased
   * first characters of its non-empty words, at most two of them.
   */
  lemma InitialsOfWords(words: seq<string>)
    requires |words| >= 1
    requires forall i :: 0 <= i < |words| ==> ' ' !in words[i]
    ensures var letters := UpperCase(FirstCharacters(Filter(words, NonEmpty)));
      Initials(Join(words, " ")) == letters[..if |letters| <= 2 then |letters| else 2]
  {
    SplitJoinChar(words, ' ');
    FirstCharactersSkipEmpty(words);
  }

  /** The initials of two non-empty words are their upper-cased first characters. */
  lemma InitialsOfTwoWords(first: string, last: string)
    requires first != "" && last != ""
    requires ' ' !in first && ' ' !in last
    ensures Initials(first + " " + last) == [UpperChar(first[0]), UpperChar(last[0])]
  {
    var words := [first, last];
    assert Join(words, " ") == first + " " + last;
    assert Join(words[1..], " ") == last;
    SplitJoinChar(words, ' ');
    FirstCharactersOfWords(words);
  }

  /** The empty name has empty initials. */
  lemma InitialsOfEmptyName()
    ensures Initials("") == ""
  {
    assert Split("", " ") == [""];
  }
}
