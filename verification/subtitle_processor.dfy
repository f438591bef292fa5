/** The subtitle processor: turns an SRT document into lines
    `<start time>:<sentence>`. Blocks are read one by one; the text of each
    block, with bracketed annotations removed, is de-duplicated against the
    previous block's text (rolling captions repeat what was already shown),
    the new part is appended to a sentence buffer, and the buffer is cut into
    sentences of at most 220 chars whenever it grows past 200. */
module SubtitleProcessor {
  import opened Wrappers
  import opened Jobs
  import opened JavaText

  /** The buffer length past which sentences are cut off. */
  const MaxSentenceLength: nat := 200
  /** How far past `MaxSentenceLength` a cut point is searched for. */
  const SearchSlack: nat := 20

  /** The separator between an SRT timing line's start and end time. */
  const TimingArrow: string := " --> "

  /** `ProcessedSentence(startTime, sentence)`; the start time is a Java
      reference that may be `null`. */
  datatype ProcessedSentence = ProcessedSentence(startTime: Option<string>, sentence: string)

  /** The locals of `process` between blocks. */
  datatype PState = PState(
    sentences: seq<ProcessedSentence>,
    buffer: string,
    bufferStartTime: Option<string>,
    lastBlockText: string)

  const InitialState: PState := PState([], "", None, "")

  // ----- Bracketed annotations -----

  /** Index of the first `]` in `t` that comes before any line terminator:
      how far the lazy `.*?` of `\[.*?\]` reaches after a `[`. */
  function CloseIndex(t: string): (r: Option<nat>)
    ensures r.Some? ==> r.value < |t| && t[r.value] == ']'
    ensures r.Some? ==> forall m :: 0 <= m < r.value ==> t[m] != ']' && !IsLineTerminator(t[m])
  {
    if |t| == 0 then None
    else if t[0] == ']' then Some(0)
    else if IsLineTerminator(t[0]) then None
    else
      match CloseIndex(t[1..])
      case None => None
      case Some(k) => Some(k + 1)
  }

  /** `replaceAll("\\[.*?\\]", "")`: leftmost-first removal of every `[`,
      the shortest run after it without a line terminator, and the `]` that
      ends it. A `[` with no such `]` is kept. */
  function StripBrackets(s: string): (r: string)
    ensures |r| <= |s|
    decreases |s|
  {
    if |s| == 0 then ""
    else if s[0] == '[' && CloseIndex(s[1..]).Some? then
      StripBrackets(s[1..][CloseIndex(s[1..]).value + 1..])
    else [s[0]] + StripBrackets(s[1..])
  }

  /** No `[` is followed by a `]` on the same line. */
  predicate NoBracketSpan(r: string) {
    forall i :: 0 <= i < |r| && r[i] == '[' ==> CloseIndex(r[i + 1..]).None?
  }

  lemma {:induction false} StripKeepsCloseFree(t: string)
    requires CloseIndex(t).None?
    ensures CloseIndex(StripBrackets(t)).None?
    decreases |t|
  {
    if |t| > 0 {
      var r := StripBrackets(t);
      if IsLineTerminator(t[0]) {
        assert r[0] == t[0];
      } else {
        assert CloseIndex(t[1..]).None?;
        StripKeepsCloseFree(t[1..]);
        assert r == [t[0]] + StripBrackets(t[1..]);
        assert r[1..] == StripBrackets(t[1..]);
      }
    }
  }

  /** After the replacement no annotation is left: no `[` is followed by a
      `]` on the same line. */
  lemma {:induction false} StripBracketsRemovesAll(s: string)
    ensures NoBracketSpan(StripBrackets(s))
    decreases |s|
  {
    if |s| > 0 {
      if s[0] == '[' && CloseIndex(s[1..]).Some? {
        StripBracketsRemovesAll(s[1..][CloseIndex(s[1..]).value + 1..]);
      } else {
        StripBracketsRemovesAll(s[1..]);
        if s[0] == '[' {
          StripKeepsCloseFree(s[1..]);
        }
        PrependKeepsNoBracketSpan(s[0], StripBrackets(s[1..]));
      }
    }
  }

  /** A char put in front keeps the text free of annotations, provided a
      `[` is not closed on its line by what follows. */
  lemma PrependKeepsNoBracketSpan(c: char, rest: string)
    requires NoBracketSpan(rest)
    requires c == '[' ==> CloseIndex(rest).None?
    ensures NoBracketSpan([c] + rest)
  {
    var r := [c] + rest;
    forall i | 0 <= i < |r| && r[i] == '['
      ensures CloseIndex(r[i + 1..]).None?
    {
      if i == 0 {
        assert r[1..] == rest;
      } else {
        assert r[i] == rest[i - 1];
        assert r[i + 1..] == rest[i..];
      }
    }
  }

  /** Text without a `[` is left as it is. */
  lemma {:induction false} StripBracketsNoOpen(s: string)
    requires forall i :: 0 <= i < |s| ==> s[i] != '['
    ensures StripBrackets(s) == s
    decreases |s|
  {
    if |s| > 0 {
      StripBracketsNoOpen(s[1..]);
      assert [s[0]] + s[1..] == s;
    }
  }

  /** A first `]` after `t`, with no line terminator in `t`, is where the
      lazy match closes. */
  lemma {:induction false} CloseIndexAt(t: string, rest: string)
    requires forall i :: 0 <= i < |t| ==> t[i] != ']' && !IsLineTerminator(t[i])
    ensures CloseIndex(t + "]" + rest) == Some(|t|)
    decreases |t|
  {
    var u := t + "]" + rest;
    if |t| == 0 {
      assert u[0] == ']';
    } else {
      CloseIndexAt(t[1..], rest);
      assert u[1..] == t[1..] + "]" + rest;
    }
  }

  /** Text without a `[` in front of the rest is kept as it is. */
  lemma {:induction false} StripBracketsPlainPrefix(before: string, after: string)
    requires forall i :: 0 <= i < |before| ==> before[i] != '['
    ensures StripBrackets(before + after) == before + StripBrackets(after)
    decreases |before|
  {
    if |before| > 0 {
      var u := before + after;
      assert u[0] == before[0] && u[1..] == before[1..] + after;
      StripBracketsPlainPrefix(before[1..], after);
      assert before == [before[0]] + before[1..];
    } else {
      assert before + after == after;
    }
  }

  /** An annotation closed on its line is removed, brackets included, and
      nothing before it changes. */
  lemma StripBracketsRemovesSpan(before: string, inside: string, after: string)
    requires forall i :: 0 <= i < |before| ==> before[i] != '['
    requires forall i :: 0 <= i < |inside| ==> inside[i] != ']' && !IsLineTerminator(inside[i])
    ensures StripBrackets(before + "[" + inside + "]" + after) == before + StripBrackets(after)
  {
    var span := "[" + inside + "]" + after;
    assert before + "[" + inside + "]" + after == before + span;
    StripBracketsPlainPrefix(before, span);
    StripBracketsDropsSpan(inside, after);
  }

  lemma StripBracketsDropsSpan(inside: string, after: string)
    requires forall i :: 0 <= i < |inside| ==> inside[i] != ']' && !IsLineTerminator(inside[i])
    ensures StripBrackets("[" + inside + "]" + after) == StripBrackets(after)
  {
    var span := "[" + inside + "]" + after;
    var tail := inside + "]" + after;
    assert span[0] == '[' && span[1..] == tail;
    CloseIndexAt(inside, after);
    assert tail[|inside| + 1..] == after;
  }

  // ----- One block -----

  /** `lines[1].split(" --> ")[0].trim()`. A timing line made only of
      arrows splits into no pieces at all, and indexing the empty array
      throws. */
  function StartTimeField(line: string): (r: Result<string, Exception>)
    ensures r.Failure? <==> |Split(Literal(TimingArrow), line)| == 0
    ensures r.Failure? ==> r.error == IndexOutOfBounds("Index 0 out of bounds for length 0")
    ensures r.Success? ==> r.value == Trim(Split(Literal(TimingArrow), line)[0])
  {
    var pieces := Split(Literal(TimingArrow), line);
    if |pieces| == 0 then Failure(IndexOutOfBounds("Index 0 out of bounds for length 0"))
    else Success(Trim(pieces[0]))
  }

  /** A timing line without an arrow is its own start time, trimmed. */
  lemma StartTimeWithoutArrow(line: string)
    requires !MatchesFrom(Literal(TimingArrow), line, 0)
    ensures StartTimeField(line) == Success(Trim(line))
  {
  }

  /** A timing line that is exactly one arrow makes the processor throw. */
  lemma StartTimeOfBareArrow()
    ensures StartTimeField(TimingArrow).Failure?
  {
    var s := TimingArrow;
    assert |s| == 5;
    assert s[5..] == "";
    assert OccursAt(s, TimingArrow, 0);
    assert MatchLength(Literal(TimingArrow), s, 0) == 5;
    assert MatchesFrom(Literal(TimingArrow), s, 0);
    assert PiecesFrom(Literal(TimingArrow), s, 5, 5) == [""];
    assert PiecesFrom(Literal(TimingArrow), s, 0, 0) == ["", ""];
    assert DropTrailingEmpty(["", ""]) == DropTrailingEmpty([""]);
  }

  /** The start time is what comes before the first arrow, trimmed, when
      that is not empty. */
  lemma StartTimeBeforeArrow(before: string, after: string)
    requires |before| > 0
    requires forall k :: 0 <= k < |before| ==> !OccursAt(before + TimingArrow + after, TimingArrow, k)
    ensures StartTimeField(before + TimingArrow + after) == Success(Trim(before))
  {
    var line := before + TimingArrow + after;
    assert line[|before|..|before| + |TimingArrow|] == TimingArrow;
    assert line[..|before|] == before;
    SplitFirstPiece(Literal(TimingArrow), line, |before|);
  }

  /** `getTextFromBlock`: the lines after the timing line, each followed by
      a space, trimmed. That is the lines joined by single spaces, trimmed. */
  function TextFromBlock(lines: seq<string>): (r: string)
    ensures |lines| <= 2 ==> r == ""
    ensures |lines| > 2 ==> r == Trim(Join(lines[2..], " "))
    ensures |r| > 0 ==> !IsTrimmable(r[0]) && !IsTrimmable(r[|r| - 1])
  {
    if |lines| > 2 then
      ConcatWithSuffix(lines[2..], " ");
      TrimAppendTrimmable(Join(lines[2..], " "), " ");
      Trim(Concat(WithSuffix(lines[2..], " ")))
    else ""
  }

  /** Length of the longest prefix of `newText`, at most `bound` long, that
      ends `context`; the search runs from `bound` down. */
  function OverlapLength(context: string, newText: string, bound: nat): (o: nat)
    requires bound <= |newText|
    ensures o <= bound
    ensures o > 0 ==> EndsWith(context, newText[..o])
    ensures forall j :: o < j <= bound ==> !EndsWith(context, newText[..j])
  {
    if bound == 0 then 0
    else if EndsWith(context, newText[..bound]) then bound
    else OverlapLength(context, newText, bound - 1)
  }

  /** `findNewPhrase`: the part of `newText` not already shown at the end of
      `context`. With no context the whole text is new. */
  function FindNewPhrase(context: string, newText: string): (phrase: string)
    ensures EndsWith(newText, phrase)
    ensures EndsWith(context + phrase, newText)
    ensures |context| == 0 ==> phrase == newText
    ensures forall j :: |newText| - |phrase| < j <= Min(|context|, |newText|) ==> !EndsWith(context, newText[..j])
  {
    if |context| == 0 then
      assert (context + newText)[|context|..] == newText;
      newText
    else
      var o := OverlapLength(context, newText, Min(|context|, |newText|));
      OverlapJoins(context, newText, o);
      newText[o..]
  }

  /** Dropping an overlap that ends the context and putting the rest after
      the context shows the whole new text at the end. */
  lemma OverlapJoins(context: string, newText: string, o: nat)
    requires o <= |newText| && o <= |context|
    requires o > 0 ==> EndsWith(context, newText[..o])
    ensures EndsWith(newText, newText[o..])
    ensures EndsWith(context + newText[o..], newText)
  {
    var c := context + newText[o..];
    var start := |context| - o;
    assert |c| - |newText| == start;
    assert c[start..] == context[start..] + newText[o..];
    assert context[start..] == newText[..o];
    assert newText[..o] + newText[o..] == newText;
  }

  /** The source's loop: every length from 1 up to the bound is tried and
      the last that matches is kept. It finds the same phrase. */
  method FindNewPhraseLoop(context: string, newText: string) returns (phrase: string)
    ensures phrase == FindNewPhrase(context, newText)
  {
    if |context| == 0 {
      return newText;
    }
    var bound := Min(|context|, |newText|);
    var overlapLength := 0;
    var i := 1;
    while i <= bound
      invariant 1 <= i <= bound + 1
      invariant overlapLength < i
      invariant overlapLength > 0 ==> EndsWith(context, newText[..overlapLength])
      invariant forall j :: overlapLength < j < i ==> !EndsWith(context, newText[..j])
    {
      if EndsWith(context, newText[..i]) {
        overlapLength := i;
      }
      i := i + 1;
    }
    var o := OverlapLength(context, newText, bound);
    assert o == overlapLength;
    phrase := newText[overlapLength..];
  }

  // ----- Cutting the buffer -----

  /** Where an over-long buffer is cut (the cut keeps the char at this
      index): the last `.` among the first 220 chars, else the last space
      there, else index 200. */
  function SplitIndex(buf: string): (k: nat)
    requires |buf| > MaxSentenceLength
    ensures k < |buf| && k < MaxSentenceLength + SearchSlack
  {
    var window := buf[..Min(|buf|, MaxSentenceLength + SearchSlack)];
    var dot := LastIndexOf(window, '.');
    if dot >= 0 then dot
    else
      var space := LastIndexOf(window, ' ');
      if space >= 0 then space else MaxSentenceLength
  }

  /** The cut point's priorities: the last `.` within the first 220 chars
      when there is one; otherwise the last space there; otherwise a hard
      cut after 201 chars. */
  lemma SplitIndexChoice(buf: string)
    requires |buf| > MaxSentenceLength
    ensures var k := SplitIndex(buf);
      var window := buf[..Min(|buf|, MaxSentenceLength + SearchSlack)];
      && ((exists m :: 0 <= m < |window| && window[m] == '.') ==>
            buf[k] == '.' && forall m :: k < m < |window| ==> window[m] != '.')
      && ((forall m :: 0 <= m < |window| ==> window[m] != '.') && (exists m :: 0 <= m < |window| && window[m] == ' ') ==>
            buf[k] == ' ' && forall m :: k < m < |window| ==> window[m] != ' ')
      && ((forall m :: 0 <= m < |window| ==> window[m] != '.' && window[m] != ' ') ==> k == MaxSentenceLength)
  {
  }

  /** The raw pieces the cutting loop takes off the front of `buf`, and what
      remains. */
  function Cut(buf: string): (r: (seq<string>, string))
    ensures Concat(r.0) + r.1 == buf
    ensures forall k :: 0 <= k < |r.0| ==> 1 <= |r.0[k]| <= MaxSentenceLength + SearchSlack
    ensures |r.1| <= MaxSentenceLength
    ensures |buf| <= MaxSentenceLength ==> r == ([], buf)
    decreases |buf|
  {
    if |buf| <= MaxSentenceLength then ([], buf)
    else
      var k := SplitIndex(buf);
      var rest := Cut(buf[k + 1..]);
      CutStep(buf, k, rest.0, rest.1);
      ([buf[..k + 1]] + rest.0, rest.1)
  }

  /** One round of cutting, as the pieces see it. */
  lemma CutUnfold(buf: string)
    requires |buf| > MaxSentenceLength
    ensures Cut(buf).0 == [buf[..SplitIndex(buf) + 1]] + Cut(buf[SplitIndex(buf) + 1..]).0
  {
  }

  /** Putting the piece cut at `k` in front of the pieces cut from the rest
      gives back the buffer. */
  lemma CutStep(buf: string, k: nat, pieces: seq<string>, remainder: string)
    requires k < |buf|
    requires Concat(pieces) + remainder == buf[k + 1..]
    ensures Concat([buf[..k + 1]] + pieces) + remainder == buf
  {
    var all := [buf[..k + 1]] + pieces;
    assert all[0] == buf[..k + 1] && all[1..] == pieces;
    assert Concat(all) == buf[..k + 1] + Concat(pieces);
    assert buf[..k + 1] + (Concat(pieces) + remainder) == buf;
  }

  /** The `while (sentenceBuffer.length() > MAX_SENTENCE_LENGTH)` loop. Each
      cut-off piece becomes a trimmed sentence stamped with the buffer's
      start time; when text remains, the start time moves to the current
      block's. */
  function Drain(s: PState, blockStart: string): (r: PState)
    ensures r.buffer == Cut(s.buffer).1
    ensures r.lastBlockText == s.lastBlockText
    ensures s.sentences <= r.sentences
    decreases |s.buffer|
  {
    if |s.buffer| <= MaxSentenceLength then s
    else Drain(CutOnce(s, blockStart), blockStart)
  }

  /** One round of the loop: the piece up to the cut point becomes a
      sentence and the buffer keeps what follows it. */
  function CutOnce(s: PState, blockStart: string): (n: PState)
    requires |s.buffer| > MaxSentenceLength
    ensures n.buffer == s.buffer[SplitIndex(s.buffer) + 1..]
    ensures n.lastBlockText == s.lastBlockText
    ensures |n.sentences| == |s.sentences| + 1
    ensures n.sentences == s.sentences + [n.sentences[|s.sentences|]]
    ensures n.sentences[|s.sentences|] == ProcessedSentence(s.bufferStartTime, Trim(s.buffer[..SplitIndex(s.buffer) + 1]))
    ensures s.bufferStartTime.Some? ==> n.bufferStartTime.Some?
    ensures |n.buffer| > 0 ==> n.bufferStartTime == Some(blockStart)
  {
    var k := SplitIndex(s.buffer);
    var rest := s.buffer[k + 1..];
    PState(
      s.sentences + [ProcessedSentence(s.bufferStartTime, Trim(s.buffer[..k + 1]))],
      rest,
      if |rest| > 0 then Some(blockStart) else s.bufferStartTime,
      s.lastBlockText)
  }

  /** The sentence texts, in order. */
  function Texts(ps: seq<ProcessedSentence>): (r: seq<string>)
    ensures |r| == |ps|
    ensures forall k :: 0 <= k < |ps| ==> r[k] == ps[k].sentence
  {
    seq(|ps|, k requires 0 <= k < |ps| => ps[k].sentence)
  }

  function TrimAll(pieces: seq<string>): (r: seq<string>)
    ensures |r| == |pieces|
    ensures forall k :: 0 <= k < |pieces| ==> r[k] == Trim(pieces[k])
  {
    seq(|pieces|, k requires 0 <= k < |pieces| => Trim(pieces[k]))
  }

  lemma TextsSnoc(before: seq<ProcessedSentence>, p: ProcessedSentence)
    ensures Texts(before + [p]) == Texts(before) + [p.sentence]
  {
  }

  lemma TrimAllCons(piece: string, rest: seq<string>)
    ensures TrimAll([piece] + rest) == [Trim(piece)] + TrimAll(rest)
  {
  }

  lemma DrainStepTexts(before: seq<ProcessedSentence>, p: ProcessedSentence, piece: string,
                       after: seq<ProcessedSentence>, rest: seq<string>)
    requires p.sentence == Trim(piece)
    requires Texts(after) == Texts(before + [p]) + TrimAll(rest)
    ensures Texts(after) == Texts(before) + TrimAll([piece] + rest)
  {
    TextsSnoc(before, p);
    TrimAllCons(piece, rest);
  }

  /** The loop adds one sentence per cut piece: the piece, trimmed. */
  lemma {:induction false} DrainSentences(s: PState, blockStart: string)
    ensures Texts(Drain(s, blockStart).sentences) == Texts(s.sentences) + TrimAll(Cut(s.buffer).0)
    decreases |s.buffer|
  {
    if |s.buffer| > MaxSentenceLength {
      var k := SplitIndex(s.buffer);
      var next := CutOnce(s, blockStart);
      var p := next.sentences[|s.sentences|];
      assert Drain(s, blockStart) == Drain(next, blockStart);
      DrainSentences(next, blockStart);
      CutUnfold(s.buffer);
      DrainStepTexts(s.sentences, p, s.buffer[..k + 1], Drain(next, blockStart).sentences, Cut(next.buffer).0);
    } else {
      assert Cut(s.buffer).0 == [];
      assert TrimAll([]) == [];
    }
  }

  /** Once the buffer has a start time, every sentence the loop adds has one
      and so does the buffer afterwards. */
  lemma {:induction false} DrainStartTimes(s: PState, blockStart: string)
    requires s.bufferStartTime.Some?
    ensures var r := Drain(s, blockStart);
      && r.bufferStartTime.Some?
      && forall k :: |s.sentences| <= k < |r.sentences| ==> r.sentences[k].startTime.Some?
    decreases |s.buffer|
  {
    if |s.buffer| > MaxSentenceLength {
      var next := CutOnce(s, blockStart);
      DrainStartTimes(next, blockStart);
      var r := Drain(next, blockStart);
      assert Drain(s, blockStart) == r;
      forall k | |s.sentences| <= k < |r.sentences|
        ensures r.sentences[k].startTime.Some?
      {
        if k == |s.sentences| {
          assert r.sentences[k] == next.sentences[k];
        }
      }
    }
  }

  /** Every sentence carries a start time and at most 220 chars. */
  predicate Stamped(ps: seq<ProcessedSentence>) {
    forall k :: 0 <= k < |ps| ==> ps[k].startTime.Some? && |ps[k].sentence| <= MaxSentenceLength + SearchSlack
  }

  /** What holds between blocks: the buffer is short, a non-empty buffer has
      a start time, and every sentence so far is stamped. */
  predicate Inv(s: PState) {
    && |s.buffer| <= MaxSentenceLength
    && (|s.buffer| > 0 ==> s.bufferStartTime.Some?)
    && Stamped(s.sentences)
  }

  /** Draining a buffer that has a start time whenever it has text leaves
      the invariant in place. */
  lemma DrainKeepsInv(g: PState, blockStart: string)
    requires |g.buffer| > 0 ==> g.bufferStartTime.Some?
    requires Stamped(g.sentences)
    ensures Inv(Drain(g, blockStart))
  {
    var r := Drain(g, blockStart);
    if |g.buffer| > 0 {
      DrainStartTimes(g, blockStart);
      forall k | 0 <= k < |r.sentences|
        ensures r.sentences[k].startTime.Some? && |r.sentences[k].sentence| <= MaxSentenceLength + SearchSlack
      {
        DrainedSentence(g, blockStart, k);
      }
    }
  }

  /** One sentence after the loop: an earlier one is untouched, a new one is
      stamped and no longer than the piece it was cut from. */
  lemma DrainedSentence(g: PState, blockStart: string, k: nat)
    requires g.bufferStartTime.Some?
    requires Stamped(g.sentences)
    requires k < |Drain(g, blockStart).sentences|
    ensures Drain(g, blockStart).sentences[k].startTime.Some?
    ensures |Drain(g, blockStart).sentences[k].sentence| <= MaxSentenceLength + SearchSlack
  {
    var r := Drain(g, blockStart);
    if k < |g.sentences| {
      assert r.sentences[k] == g.sentences[k];
    } else {
      DrainStartTimes(g, blockStart);
      DrainSentences(g, blockStart);
      var pieces := Cut(g.buffer).0;
      assert Texts(r.sentences)[k] == TrimAll(pieces)[k - |g.sentences|];
    }
  }

  /** The buffer with `phrase` appended, a space in between when both are
      non-empty. */
  function Append(buffer: string, phrase: string): (r: string)
    ensures |phrase| == 0 ==> r == buffer
    ensures |buffer| == 0 ==> r == phrase
    ensures |buffer| > 0 && |phrase| > 0 ==> r == buffer + " " + phrase
  {
    if |phrase| == 0 then buffer
    else if |buffer| == 0 then phrase
    else buffer + " " + phrase
  }

  /** The state once a block's new phrase is in the buffer, before any cut:
      a buffer that was empty takes the block's start time. */
  function Grow(s: PState, startTime: string, text: string): (g: PState)
    ensures g.sentences == s.sentences && g.lastBlockText == text
    ensures EndsWith(s.lastBlockText + FindNewPhrase(s.lastBlockText, text), text)
    ensures g.buffer == Append(s.buffer, FindNewPhrase(s.lastBlockText, text))
    ensures |s.buffer| > 0 ==> g.bufferStartTime == s.bufferStartTime
    ensures |s.buffer| == 0 && |FindNewPhrase(s.lastBlockText, text)| > 0 ==> g.bufferStartTime == Some(startTime)
    ensures |g.buffer| > 0 && (|s.buffer| > 0 ==> s.bufferStartTime.Some?) ==> g.bufferStartTime.Some?
  {
    var phrase := FindNewPhrase(s.lastBlockText, text);
    var start := if |s.buffer| == 0 && |phrase| > 0 then Some(startTime) else s.bufferStartTime;
    PState(s.sentences, Append(s.buffer, phrase), start, text)
  }

  /** The block's text: the lines after the timing line with annotations
      removed, trimmed. No annotation is left in it. */
  function BlockText(lines: seq<string>): (text: string)
    ensures NoBracketSpan(text)
    ensures |text| > 0 ==> !IsTrimmable(text[0]) && !IsTrimmable(text[|text| - 1])
  {
    var stripped := StripBrackets(TextFromBlock(lines));
    StripBracketsRemovesAll(TextFromBlock(lines));
    TrimKeepsNoBracketSpan(stripped);
    Trim(stripped)
  }

  /** Text lines without a `[` give the block's text unchanged: the lines
      joined by single spaces, trimmed. */
  lemma BlockTextWithoutBrackets(lines: seq<string>)
    requires |lines| > 2
    requires forall k :: 2 <= k < |lines| ==> '[' !in lines[k]
    ensures BlockText(lines) == Trim(Join(lines[2..], " "))
  {
    var joined := Join(lines[2..], " ");
    JoinAvoids(lines[2..], " ", '[');
    var a, b := TrimBounds(joined);
    StripBracketsNoOpen(Trim(joined));
  }

  lemma {:induction false} CloseIndexPrefix(t: string, n: nat)
    requires n <= |t| && CloseIndex(t).None?
    ensures CloseIndex(t[..n]).None?
    decreases n
  {
    if n > 0 && t[0] != ']' && !IsLineTerminator(t[0]) {
      CloseIndexPrefix(t[1..], n - 1);
      assert t[..n][1..] == t[1..][..n - 1];
    }
  }

  /** Trimming only takes chars off the ends, so it cannot bring a `[` and a
      `]` onto the same line. */
  lemma TrimKeepsNoBracketSpan(s: string)
    requires NoBracketSpan(s)
    ensures NoBracketSpan(Trim(s))
  {
    var a, end := TrimBounds(s);
    var b := end - a;
    var r := Trim(s);
    forall i | 0 <= i < |r| && r[i] == '['
      ensures CloseIndex(r[i + 1..]).None?
    {
      assert r[i] == s[a + i];
      CloseIndexPrefix(s[a + i + 1..], b - i - 1);
      assert r[i + 1..] == s[a + i + 1..][..b - i - 1];
    }
  }

  /** One iteration of the block loop. A block of fewer than two lines, or
      whose text is empty once annotations are removed, changes nothing;
      the timing line is parsed before that check, so a bad one throws even
      for an empty block. */
  function ProcessBlock(s: PState, block: string): (r: Result<PState, Exception>)
    ensures var lines := Split(LineBreak, block);
      && (|lines| < 2 ==> r == Success(s))
      && (|lines| >= 2 ==> (r.Failure? <==> StartTimeField(lines[1]).Failure?))
      && (|lines| >= 2 && r.Success? && |BlockText(lines)| == 0 ==> r == Success(s))
      && (|lines| >= 2 && r.Success? && |BlockText(lines)| > 0 ==>
            r.value.lastBlockText == BlockText(lines))
    ensures r.Success? ==> s.sentences <= r.value.sentences
  {
    var lines := Split(LineBreak, block);
    if |lines| < 2 then Success(s)
    else
      var startTime :- StartTimeField(lines[1]);
      var text := BlockText(lines);
      if |text| == 0 then Success(s)
      else Success(Drain(Grow(s, startTime, text), startTime))
  }

  lemma ProcessBlockKeepsInv(s: PState, block: string)
    requires Inv(s)
    ensures ProcessBlock(s, block).Success? ==> Inv(ProcessBlock(s, block).value)
  {
    var lines := Split(LineBreak, block);
    if |lines| >= 2 && StartTimeField(lines[1]).Success? && |BlockText(lines)| > 0 {
      var startTime := StartTimeField(lines[1]).value;
      DrainKeepsInv(Grow(s, startTime, BlockText(lines)), startTime);
    }
  }

  /** The block loop; the first exception ends it. */
  function ProcessBlocks(s: PState, blocks: seq<string>): (r: Result<PState, Exception>)
    ensures r.Success? ==> s.sentences <= r.value.sentences
    decreases |blocks|
  {
    if |blocks| == 0 then Success(s)
    else
      match ProcessBlock(s, blocks[0])
      case Failure(e) => Failure(e)
      case Success(next) =>
        var r := ProcessBlocks(next, blocks[1..]);
        assert r.Success? ==> s.sentences <= next.sentences <= r.value.sentences;
        r
  }

  lemma {:induction false} ProcessBlocksKeepsInv(s: PState, blocks: seq<string>)
    requires Inv(s)
    ensures ProcessBlocks(s, blocks).Success? ==> Inv(ProcessBlocks(s, blocks).value)
    decreases |blocks|
  {
    if |blocks| > 0 {
      ProcessBlockKeepsInv(s, blocks[0]);
      if ProcessBlock(s, blocks[0]).Success? {
        ProcessBlocksKeepsInv(ProcessBlock(s, blocks[0]).value, blocks[1..]);
      }
    }
  }

  /** The sentences `process` renders: those cut during the loop plus the
      trimmed rest of the buffer, when there is one. Every one of them has a
      start time, so no output line begins with `null`, and none is longer
      than 220 chars. */
  function ProcessSentences(rawSubtitle: string): (r: Result<seq<ProcessedSentence>, Exception>)
    ensures r.Success? ==> Stamped(r.value)
    ensures r.Success? <==> ProcessBlocks(InitialState, ScannerTokens(BlankLines, rawSubtitle)).Success?
  {
    var blocks := ScannerTokens(BlankLines, rawSubtitle);
    ProcessBlocksKeepsInv(InitialState, blocks);
    var last :- ProcessBlocks(InitialState, blocks);
    if |last.buffer| > 0 then
      Success(last.sentences + [ProcessedSentence(last.bufferStartTime, Trim(last.buffer))])
    else Success(last.sentences)
  }

  /** The final flush: when the block loop ends with text in the buffer,
      that text, trimmed and under the buffer's start time, is the last
      sentence; with an empty buffer the sentences are the loop's. */
  lemma ProcessSentencesFlush(rawSubtitle: string)
    requires ProcessBlocks(InitialState, ScannerTokens(BlankLines, rawSubtitle)).Success?
    ensures var last := ProcessBlocks(InitialState, ScannerTokens(BlankLines, rawSubtitle)).value;
      && (|last.buffer| > 0 ==>
            ProcessSentences(rawSubtitle)
              == Success(last.sentences + [ProcessedSentence(last.bufferStartTime, Trim(last.buffer))]))
      && (|last.buffer| == 0 ==> ProcessSentences(rawSubtitle) == Success(last.sentences))
  {
  }

  /** One output line: `startTime + ":" + sentence`. */
  function RenderLine(p: ProcessedSentence): string {
    ShowNullable(p.startTime) + ":" + p.sentence
  }

  /** The lines of stamped sentences: each one's start time, a colon, and
      its text. */
  function StampedLines(ps: seq<ProcessedSentence>): (lines: seq<string>)
    requires Stamped(ps)
    ensures |lines| == |ps|
    ensures forall k :: 0 <= k < |ps| ==> lines[k] == ps[k].startTime.value + ":" + ps[k].sentence
  {
    seq(|ps|, k requires 0 <= k < |ps| => ps[k].startTime.value + ":" + ps[k].sentence)
  }

  /** `process`: the rendered lines joined by newlines. */
  function Process(rawSubtitle: string): (r: Result<string, Exception>)
    ensures r.Success? <==> ProcessSentences(rawSubtitle).Success?
    ensures r.Success? ==> r.value == Join(StampedLines(ProcessSentences(rawSubtitle).value), "\n")
  {
    var ps :- ProcessSentences(rawSubtitle);
    var lines := seq(|ps|, k requires 0 <= k < |ps| => RenderLine(ps[k]));
    assert lines == StampedLines(ps);
    Success(Join(lines, "\n"))
  }
}
