/** `cleanSubtitleText` of the older subtitle service: reduce a WebVTT file
    to the distinct caption lines, tags removed, in order of first
    appearance, joined by single spaces. */
module LegacySubtitleCleaner {
  import opened JavaText

  /** A line holds no `<` that is followed, anywhere later, by a `>`. */
  predicate NoTag(s: string) {
    forall i, j :: 0 <= i < j < |s| && s[i] == '<' ==> s[j] != '>'
  }

  /** `replaceAll("<[^>]*>", "")`. The leftmost match starts at the first
      `<` that has a `>` somewhere after it and ends at the first such `>`;
      `[^>]` matches line terminators and `<` too. A `<` with no `>` after it
      is kept. */
  function StripTags(s: string): (r: string)
    ensures forall k :: 0 <= k < |r| ==> r[k] in s
    ensures NoTag(r)
    decreases |s|
  {
    if |s| == 0 then ""
    else if s[0] == '<' && IndexOf(s[1..], '>') >= 0 then
      StripTags(s[IndexOf(s[1..], '>') + 2..])
    else
      var rest := StripTags(s[1..]);
      assert s[0] == '<' ==> forall k :: 0 <= k < |rest| ==> rest[k] != '>';
      [s[0]] + rest
  }

  /** Text without tags comes out unchanged. */
  lemma {:induction false} StripTagsKeepsPlainText(s: string)
    requires NoTag(s)
    ensures StripTags(s) == s
    decreases |s|
  {
    if |s| > 0 {
      assert s[0] == '<' ==> IndexOf(s[1..], '>') < 0;
      assert NoTag(s[1..]) by {
        forall i, j | 0 <= i < j < |s[1..]| && s[1..][i] == '<'
          ensures s[1..][j] != '>'
        {
          assert s[i + 1] == '<';
        }
      }
      StripTagsKeepsPlainText(s[1..]);
      assert s == [s[0]] + s[1..];
    }
  }

  /** Stripping twice removes nothing more. */
  lemma StripTagsIdempotent(s: string)
    ensures StripTags(StripTags(s)) == StripTags(s)
  {
    StripTagsKeepsPlainText(StripTags(s));
  }

  /** Text without a `<` in front of the rest is kept as it is. */
  lemma {:induction false} StripTagsPlainPrefix(before: string, after: string)
    requires forall i :: 0 <= i < |before| ==> before[i] != '<'
    ensures StripTags(before + after) == before + StripTags(after)
    decreases |before|
  {
    if |before| > 0 {
      var u := before + after;
      assert u[0] == before[0] && u[1..] == before[1..] + after;
      assert StripTags(u) == [u[0]] + StripTags(u[1..]);
      StripTagsPlainPrefix(before[1..], after);
      assert before == [before[0]] + before[1..];
    } else {
      assert before + after == after;
    }
  }

  /** A tag at the front goes, up to and including its first `>`. */
  lemma StripTagsDropsTag(inside: string, after: string)
    requires forall i :: 0 <= i < |inside| ==> inside[i] != '>'
    ensures StripTags("<" + inside + ">" + after) == StripTags(after)
  {
    var u := "<" + inside + ">" + after;
    var tail := inside + ">" + after;
    assert u[0] == '<' && u[1..] == tail;
    assert tail[|inside|] == '>';
    assert IndexOf(tail, '>') == |inside|;
    assert u[|inside| + 2..] == after;
  }

  /** The leftmost tag is removed, brackets included, and nothing before it
      changes. */
  lemma StripTagsRemovesSpan(before: string, inside: string, after: string)
    requires forall i :: 0 <= i < |before| ==> before[i] != '<'
    requires forall i :: 0 <= i < |inside| ==> inside[i] != '>'
    ensures StripTags(before + "<" + inside + ">" + after) == before + StripTags(after)
  {
    var tag := "<" + inside + ">" + after;
    assert before + "<" + inside + ">" + after == before + tag;
    StripTagsPlainPrefix(before, tag);
    StripTagsDropsTag(inside, after);
  }

  /** Trimming only takes chars off the ends. */
  lemma TrimKeepsNoTag(s: string)
    requires NoTag(s)
    ensures NoTag(Trim(s))
  {
    var a, end := TrimBounds(s);
    var r := Trim(s);
    forall i, j | 0 <= i < j < |r| && r[i] == '<'
      ensures r[j] != '>'
    {
      assert s[a + i] == '<' && r[j] == s[a + j];
    }
  }

  /** The header, timing and metadata lines the loop skips. */
  predicate IsSkipped(line: string) {
    || Trim(line) == ""
    || StartsWith(line, "WEBVTT")
    || Contains(line, "-->")
    || StartsWith(line, "Kind:")
    || StartsWith(line, "Language:")
  }

  /** The text one line contributes: its tags removed, then trimmed. */
  function TextOnly(line: string): (r: string)
    ensures NoTag(r)
  {
    TrimKeepsNoTag(StripTags(line));
    Trim(StripTags(line))
  }

  /** A line without tags contributes its trimmed self. */
  lemma TextOnlyOfPlainLine(line: string)
    requires NoTag(line)
    ensures TextOnly(line) == Trim(line)
  {
    StripTagsKeepsPlainText(line);
  }

  /** The text of every line that is not skipped and does not come out
      empty, in line order and with repeats. */
  function KeptTexts(lines: seq<string>): (r: seq<string>)
    ensures |r| <= |lines|
    ensures forall k :: 0 <= k < |r| ==> r[k] != "" && NoTag(r[k])
  {
    if |lines| == 0 then []
    else if Contributes(lines[0]) then [TextOnly(lines[0])] + KeptTexts(lines[1..])
    else KeptTexts(lines[1..])
  }

  /** A tag in a line makes no difference to its text. */
  lemma TextOnlyIgnoresTag(before: string, inside: string, after: string)
    requires forall i :: 0 <= i < |before| ==> before[i] != '<'
    requires forall i :: 0 <= i < |inside| ==> inside[i] != '>'
    ensures TextOnly(before + "<" + inside + ">" + after) == TextOnly(before + after)
  {
    StripTagsRemovesSpan(before, inside, after);
    StripTagsPlainPrefix(before, after);
  }

  predicate Contributes(line: string) {
    !IsSkipped(line) && TextOnly(line) != ""
  }

  /** One more line adds its text at the end, when it contributes one. */
  lemma {:induction false} KeptTextsSnoc(lines: seq<string>, line: string)
    ensures KeptTexts(lines + [line]) == KeptTexts(lines) + (if Contributes(line) then [TextOnly(line)] else [])
    decreases |lines|
  {
    if |lines| == 0 {
      assert [line][1..] == [];
      assert lines + [line] == [line];
    } else {
      assert (lines + [line])[0] == lines[0];
      assert (lines + [line])[1..] == lines[1..] + [line];
      KeptTextsSnoc(lines[1..], line);
    }
  }

  /** A text is kept exactly when some line that is not skipped yields it. */
  lemma {:induction false} KeptTextsMembers(lines: seq<string>, x: string)
    ensures x in KeptTexts(lines) <==> exists k :: 0 <= k < |lines| && Contributes(lines[k]) && TextOnly(lines[k]) == x
    decreases |lines|
  {
    if |lines| > 0 {
      KeptTextsMembers(lines[1..], x);
      assert forall k :: 1 <= k < |lines| ==> lines[k] == lines[1..][k - 1];
      if exists k :: 0 <= k < |lines| && Contributes(lines[k]) && TextOnly(lines[k]) == x {
        var k :| 0 <= k < |lines| && Contributes(lines[k]) && TextOnly(lines[k]) == x;
        if k > 0 {
          assert lines[1..][k - 1] == lines[k];
        }
      }
    }
  }

  predicate NoDuplicates(xs: seq<string>) {
    forall i, j :: 0 <= i < j < |xs| ==> xs[i] != xs[j]
  }

  /** The first position of `x` in `xs`. */
  function FirstIndex(xs: seq<string>, x: string): (r: nat)
    requires x in xs
    ensures r < |xs| && xs[r] == x
    ensures forall k :: 0 <= k < r ==> xs[k] != x
  {
    if xs[0] == x then 0 else 1 + FirstIndex(xs[1..], x)
  }

  /** Insertion into a `LinkedHashSet`, one element after the other: a value
      already present is not added again and keeps its place. */
  function Distinct(xs: seq<string>): (r: seq<string>)
    ensures NoDuplicates(r)
    ensures forall x :: x in r <==> x in xs
    decreases |xs|
  {
    if |xs| == 0 then []
    else
      var d := Distinct(xs[..|xs| - 1]);
      var last := xs[|xs| - 1];
      assert forall x :: x in xs <==> x in xs[..|xs| - 1] || x == last by {
        assert xs == xs[..|xs| - 1] + [last];
      }
      if last in d then d else d + [last]
  }

  lemma FirstIndexOfPrefix(xs: seq<string>, x: string)
    requires |xs| > 0 && x in xs[..|xs| - 1]
    ensures FirstIndex(xs, x) == FirstIndex(xs[..|xs| - 1], x)
  {
    var p := xs[..|xs| - 1];
    var i := FirstIndex(p, x);
    assert xs[i] == x;
    var j := FirstIndex(xs, x);
    assert j <= i;
    assert p[j] == xs[j];
  }

  /** The set keeps first-insertion order: of any two values, the one whose
      first occurrence in the input comes first is placed first. */
  lemma {:induction false} DistinctKeepsFirstOccurrenceOrder(xs: seq<string>, i: nat, j: nat)
    requires i < j < |Distinct(xs)|
    ensures FirstIndex(xs, Distinct(xs)[i]) < FirstIndex(xs, Distinct(xs)[j])
    decreases |xs|
  {
    var p := xs[..|xs| - 1];
    var last := xs[|xs| - 1];
    var d := Distinct(p);
    var r := Distinct(xs);
    assert r == (if last in d then d else d + [last]);
    assert r[i] == d[i] && r[i] in p;
    FirstIndexOfPrefix(xs, r[i]);
    if j < |d| {
      assert r[j] == d[j];
      FirstIndexOfPrefix(xs, r[j]);
      DistinctKeepsFirstOccurrenceOrder(p, i, j);
    } else {
      assert r[j] == last && last !in p;
      assert FirstIndex(xs, r[j]) == |xs| - 1;
      assert FirstIndex(p, r[i]) < |p|;
    }
  }

  /** The non-skipped, non-empty line texts, each once, by first appearance. */
  function CleanedLines(rawVttSubtitle: string): (r: seq<string>)
    ensures NoDuplicates(r)
    ensures forall k :: 0 <= k < |r| ==> r[k] != "" && NoTag(r[k])
    ensures forall x :: x in r <==> x in KeptTexts(Split(LineBreak, rawVttSubtitle))
  {
    var kept := KeptTexts(Split(LineBreak, rawVttSubtitle));
    var r := Distinct(kept);
    assert forall k :: 0 <= k < |r| ==> r[k] != "" && NoTag(r[k]) by {
      forall k | 0 <= k < |r|
        ensures r[k] != "" && NoTag(r[k])
      {
        assert r[k] in kept;
        var i :| 0 <= i < |kept| && kept[i] == r[k];
      }
    }
    r
  }

  /** The cleaned lines keep the order in which the texts first appear in
      the file. */
  lemma CleanedLinesInFirstAppearanceOrder(rawVttSubtitle: string, i: nat, j: nat)
    requires i < j < |CleanedLines(rawVttSubtitle)|
    ensures var kept := KeptTexts(Split(LineBreak, rawVttSubtitle));
      var r := CleanedLines(rawVttSubtitle);
      r[i] in kept && r[j] in kept && FirstIndex(kept, r[i]) < FirstIndex(kept, r[j])
  {
    DistinctKeepsFirstOccurrenceOrder(KeptTexts(Split(LineBreak, rawVttSubtitle)), i, j);
  }

  /** `cleanSubtitleText`. */
  function CleanSubtitleText(rawVttSubtitle: string): string {
    Join(CleanedLines(rawVttSubtitle), " ")
  }

}
