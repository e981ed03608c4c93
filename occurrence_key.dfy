/** Occurrence keys: `templateId::date`, and their parsing back with `split('::')`. */
module OccurrenceKeys {
  import opened Options
  import opened Strings
  import opened Types

  const Separator: string := "::"

  /** The two leading `::`-separated segments of a key; `date` is absent when there is no `::`. */
  datatype ParsedKey = ParsedKey(templateId: Id, date: Option<string>)

  /** `${templateId}::${date}`. */
  function MakeOccurrenceKey(templateId: Id, date: string): (key: OccurrenceKey)
    ensures OccursAt(key, Separator, |templateId|)
  {
    templateId + Separator + date
  }

  /**
   * `const [templateId, date] = key.split('::')`: the text before the first separator,
   * and the text between the first and the second (or up to the end). The split is at the
   * first separator, so for `a:::b` the date is `:b`, and the date runs up to the next
   * separator, so for `a::b:::c` it is `b`.
   */
  function ParseOccurrenceKey(key: OccurrenceKey): (parsed: ParsedKey)
    ensures !Contains(parsed.templateId, Separator)
    ensures parsed.date.None? <==> !Contains(key, Separator)
    ensures parsed.date.None? ==> parsed.templateId == key
    ensures parsed.date.Some? ==>
      var prefix := MakeOccurrenceKey(parsed.templateId, parsed.date.value);
      && !Contains(parsed.date.value, Separator)
      && |prefix| <= |key| && key[..|prefix|] == prefix
      && (|prefix| == |key| || OccursAt(key, Separator, |prefix|))
    ensures parsed.date.Some? ==> IndexOf(key, Separator) == Some(|parsed.templateId|)
    ensures parsed.date.Some? ==>
      forall j :: |parsed.templateId| + 2 <= j < |parsed.templateId| + 2 + |parsed.date.value| ==> !OccursAt(key, Separator, j)
  {
    var parts := Split(key, Separator);
    SplitPiecesAreFree(key, Separator);
    SplitShape(key);
    ParsedKey(parts[0], if |parts| > 1 then Some(parts[1]) else None)
  }

  /** How the first two pieces of `split('::')` sit in the key. */
  lemma SplitShape(key: string)
    ensures var parts := Split(key, Separator);
      && (|parts| == 1 <==> !Contains(key, Separator))
      && (|parts| == 1 ==> parts[0] == key)
      && (|parts| > 1 ==>
            var n := |parts[0]| + 2 + |parts[1]|;
            && n <= |key| && key[..n] == parts[0] + Separator + parts[1]
            && (n == |key| || OccursAt(key, Separator, n))
            && (forall j :: |parts[0]| + 2 <= j < n ==> !OccursAt(key, Separator, j)))
      && (|parts| > 1 ==> IndexOf(key, Separator) == Some(|parts[0]|))
  {
    match IndexOf(key, Separator)
    case None =>
    case Some(i) =>
      assert OccursAt(key, Separator, i);
      SplitAt(key, i);
    SecondPieceShape(key, i);
  }

  /** Splitting at the first separator, index `i`. */
  lemma SplitAt(key: string, i: nat)
    requires IndexOf(key, Separator) == Some(i)
    ensures i + 2 <= |key|
    ensures Split(key, Separator) == [key[..i]] + Split(key[i + 2..], Separator)
  {
  }

  /** A separator found in a suffix of `s` sits in `s` at the shifted index. */
  lemma OccursAtShifted(s: string, k: nat, m: nat)
    requires k <= |s| && OccursAt(s[k..], Separator, m)
    ensures OccursAt(s, Separator, k + m)
  {
    assert s[k + m..k + m + 2] == s[k..][m..m + 2];
  }

  /** The pieces of a key that has a separator at index `i`. */
  lemma SecondPieceShape(key: string, i: nat)
    requires i + 2 <= |key| && OccursAt(key, Separator, i)
    requires Split(key, Separator) == [key[..i]] + Split(key[i + 2..], Separator)
    ensures var parts := Split(key, Separator);
      && |parts| > 1
      && var n := |parts[0]| + 2 + |parts[1]|;
      && n <= |key| && key[..n] == parts[0] + Separator + parts[1]
      && (n == |key| || OccursAt(key, Separator, n))
      && (forall j :: i + 2 <= j < n ==> !OccursAt(key, Separator, j))
  {
    var second := PieceBeforeSeparator(key[i + 2..]);
    PiecesAround(key, i, key[i + 2..], Split(key[i + 2..], Separator), second);
  }

  /** The same, stated over the pieces after the first separator without unfolding the split. */
  lemma PiecesAround(key: string, i: nat, rest: string, later: seq<string>, second: string)
    requires i + 2 <= |key| && OccursAt(key, Separator, i)
    requires rest == key[i + 2..]
    requires later != [] && later[0] == second
    requires |second| <= |key| - (i + 2) && key[i + 2..][..|second|] == second
    requires |second| == |key| - (i + 2) || OccursAt(key[i + 2..], Separator, |second|)
    requires forall m :: 0 <= m < |second| ==> !OccursAt(rest, Separator, m)
    ensures var parts := [key[..i]] + later;
      && |parts| > 1
      && var n := |parts[0]| + 2 + |parts[1]|;
      && n <= |key| && key[..n] == parts[0] + Separator + parts[1]
      && (n == |key| || OccursAt(key, Separator, n))
      && (forall j :: i + 2 <= j < n ==> !OccursAt(key, Separator, j))
  {
    var parts := [key[..i]] + later;
    assert parts[0] == key[..i] && parts[1] == second;
    var n := i + 2 + |second|;
    assert key[..n] == key[..i] + Separator + second;
    if n < |key| {
      OccursAtShifted(key, i + 2, |second|);
    }
    NoSeparatorInside(key, i + 2, rest, |second|);
  }

  /** A separator-free stretch of a suffix of `s` is separator-free in `s`. */
  lemma NoSeparatorInside(s: string, k: nat, rest: string, len: nat)
    requires k + len <= |s| && rest == s[k..]
    requires forall m :: 0 <= m < len ==> !OccursAt(rest, Separator, m)
    ensures forall j :: k <= j < k + len ==> !OccursAt(s, Separator, j)
  {
    forall j | k <= j < k + len
      ensures !OccursAt(s, Separator, j)
    {
      var m := j - k;
      assert !OccursAt(rest, Separator, m);
      if j + 2 <= |s| {
        assert rest[m..m + 2] == s[j..j + 2];
      }
    }
  }

  /** The first piece of `split('::')`, and the separator that ends it if it is not the last. */
  lemma PieceBeforeSeparator(s: string) returns (first: string)
    ensures first == Split(s, Separator)[0]
    ensures |first| <= |s| && s[..|first|] == first
    ensures |first| == |s| || OccursAt(s, Separator, |first|)
    ensures forall m :: 0 <= m < |first| ==> !OccursAt(s, Separator, m)
  {
    match IndexOf(s, Separator)
    case None =>
      first := s;
    case Some(j) =>
      first := s[..j];
  }

  /** A key whose components are separator-free parses back into those components. */
  lemma ParseMakeRoundTrip(templateId: Id, date: string)
    requires ':' !in templateId
    requires !Contains(date, Separator)
    ensures ParseOccurrenceKey(MakeOccurrenceKey(templateId, date)) == ParsedKey(templateId, Some(date))
  {
    var key := MakeOccurrenceKey(templateId, date);
    var n := |templateId|;
    forall i | 0 <= i < n
      ensures !OccursAt(key, Separator, i)
    {
      assert key[i] == templateId[i];
    }
    match IndexOf(key, Separator)
    case None =>
    case Some(i) =>
      assert i == n;
      assert key[..n] == templateId;
      assert key[n + 2..] == date;
      assert Split(key, Separator) == [templateId] + Split(date, Separator);
      SplitWithoutSeparator(date, Separator);
  }

  /** A key with three colons in a row splits at the first pair: `"a:::b".split('::')` is `["a", ":b"]`. */
  lemma ParseSplitsAtFirstSeparator()
    ensures ParseOccurrenceKey("a:::b") == ParsedKey("a", Some(":b"))
  {
    var key := "a:::b";
    assert key[0..2] == "a:" != Separator;
    assert key[1..3] == Separator;
    assert IndexOf(key, Separator) == Some(1);
    var parsed := ParseOccurrenceKey(key);
    assert parsed.date.Some? && |parsed.templateId| == 1;
    assert key[3..5] != Separator;
  }

  /** The date runs up to the next separator: `"a::b:::c".split('::')` is `["a", "b", ":c"]`. */
  lemma ParseDateEndsAtNextSeparator()
    ensures ParseOccurrenceKey("a::b:::c") == ParsedKey("a", Some("b"))
  {
    var key := "a::b:::c";
    assert key[0..2] == "a:" != Separator;
    assert key[1..3] == Separator;
    assert IndexOf(key, Separator) == Some(1);
    var parsed := ParseOccurrenceKey(key);
    assert parsed.date.Some? && |parsed.templateId| == 1;
    assert OccursAt(key, Separator, 4) && !OccursAt(key, Separator, 3);
    assert |parsed.date.value| == 1;
    assert key[..4] == "a::b";
  }

  /** The number of characters before the first `:` of `s` (all of `s` when it has none). */
  function TemplatePartLength(s: string): (n: nat)
    ensures n <= |s|
    ensures forall i :: 0 <= i < n ==> s[i] != ':'
    ensures n < |s| ==> s[n] == ':'
  {
    if s == [] || s[0] == ':' then 0 else 1 + TemplatePartLength(s[1..])
  }

  /** In a key built from a colon-free template id, the template part is exactly that id. */
  lemma {:induction false} TemplatePartLengthOfKey(templateId: Id, date: string)
    requires ':' !in templateId
    ensures TemplatePartLength(MakeOccurrenceKey(templateId, date)) == |templateId|
    decreases |templateId|
  {
    if templateId != [] {
      var key := MakeOccurrenceKey(templateId, date);
      assert key[0] == templateId[0];
      assert key[1..] == MakeOccurrenceKey(templateId[1..], date);
      TemplatePartLengthOfKey(templateId[1..], date);
    }
  }

  /** Distinct (template, date) pairs give distinct keys when template ids have no colon. */
  lemma MakeOccurrenceKeyInjective(t1: Id, d1: string, t2: Id, d2: string)
    requires ':' !in t1 && ':' !in t2
    requires MakeOccurrenceKey(t1, d1) == MakeOccurrenceKey(t2, d2)
    ensures t1 == t2 && d1 == d2
  {
    var key := MakeOccurrenceKey(t1, d1);
    TemplatePartLengthOfKey(t1, d1);
    TemplatePartLengthOfKey(t2, d2);
    assert t1 == key[..|t1|] == t2;
    assert d1 == key[|t1| + 2..] == d2;
  }
}
