/** Which answers of Mia survive being printed and parsed again. */
module AnswerReprints {
  import opened Basics
  import opened Text
  import opened AnswerBlocks
  import opened AnswerRoundTrip

  /** The runs of neighbouring plain lines, as long as they go. */
  function PlainRuns(kinds: seq<Kind>): seq<seq<string>> {
    if kinds == [] then []
    else
      var front, line := kinds[..|kinds| - 1], kinds[|kinds| - 1];
      WithLine(PlainRuns(front), LastKind(front), line)
  }

  function WithLine(runs: seq<seq<string>>, before: Kind, line: Kind): seq<seq<string>> {
    if !line.Plain? then runs
    else if before.Plain? && runs != [] then runs[..|runs| - 1] + [runs[|runs| - 1] + [line.text]]
    else runs + [[line.text]]
  }

  /** A bullet mark alone on its line, with more lines below and no line end of another kind among them. */
  predicate LoneMarkLeads(run: seq<string>) {
    |run| >= 2 && |run[0]| == 1 && IsBulletMark(run[0][0]) && NoLineEnds(run[1..])
  }

  predicate NoLineEnds(texts: seq<string>) {
    forall i :: 0 <= i < |texts| ==> NoLineEnd(texts[i])
  }

  predicate PlainText(text: string) {
    text != "" && Trimmed(text) && BulletOf(text).None?
  }

  // ---------------------------------------------------------------------------------------------
  // Each paragraph is one run of plain lines
  // ---------------------------------------------------------------------------------------------

  function ParagraphsOf(blocks: seq<Block>): seq<string> {
    if blocks == [] then []
    else
      var last := blocks[|blocks| - 1];
      ParagraphsOf(blocks[..|blocks| - 1]) + if last.Paragraph? then [last.text] else []
  }

  function JoinedRuns(runs: seq<seq<string>>): (texts: seq<string>)
    ensures |texts| == |runs| && forall i :: 0 <= i < |runs| ==> texts[i] == Join(runs[i], " ")
  {
    seq(|runs|, i requires 0 <= i < |runs| => Join(runs[i], " "))
  }

  lemma ParagraphsOneMore(blocks: seq<Block>, b: Block)
    ensures ParagraphsOf(blocks + [b]) == ParagraphsOf(blocks) + if b.Paragraph? then [b.text] else []
  {
    assert (blocks + [b])[..|blocks|] == blocks;
  }

  lemma ExtendedParagraphs(blocks: seq<Block>, before: Kind, line: Kind)
    ensures !line.Plain? ==> ParagraphsOf(Extended(blocks, before, line)) == ParagraphsOf(blocks)
    ensures line.Plain? && !before.Plain? ==> ParagraphsOf(Extended(blocks, before, line)) == ParagraphsOf(blocks) + [line.text]
    ensures line.Plain? && before.Plain? && blocks != [] && blocks[|blocks| - 1].Paragraph? ==>
              var texts := ParagraphsOf(blocks);
              && texts != []
              && ParagraphsOf(Extended(blocks, before, line)) == texts[..|texts| - 1] + [texts[|texts| - 1] + " " + line.text]
  {
    hide ParagraphsOf;
    match line
    case Blank =>
    case Bullet(item) =>
      if blocks != [] && blocks[|blocks| - 1].Items? {
        FrontAndLast(blocks);
        ParagraphsOneMore(blocks[..|blocks| - 1], blocks[|blocks| - 1]);
        ParagraphsOneMore(blocks[..|blocks| - 1], Items(blocks[|blocks| - 1].items + [item]));
      }
      ParagraphsOneMore(blocks, Items([item]));
    case Plain(text) =>
      if blocks != [] && blocks[|blocks| - 1].Paragraph? {
        var front, last := blocks[..|blocks| - 1], blocks[|blocks| - 1];
        FrontAndLast(blocks);
        ParagraphsOneMore(front, last);
        ParagraphsOneMore(front, Paragraph(last.text + " " + text));
      }
      ParagraphsOneMore(blocks, Paragraph(text));
  }

  lemma JoinedGrownLast(runs: seq<seq<string>>, text: string)
    requires runs != [] && runs[|runs| - 1] != []
    ensures var texts, last := JoinedRuns(runs), runs[|runs| - 1];
            JoinedRuns(runs[..|runs| - 1] + [last + [text]]) == texts[..|texts| - 1] + [texts[|texts| - 1] + " " + text]
  {
    JoinOneMore(runs[|runs| - 1], text);
  }

  lemma JoinedOneMore(runs: seq<seq<string>>, text: string)
    ensures JoinedRuns(runs + [[text]]) == JoinedRuns(runs) + [text]
  {
  }

  /** Runs of lines, each with at least one. */
  predicate NoneEmpty(runs: seq<seq<string>>) {
    forall i :: 0 <= i < |runs| ==> runs[i] != []
  }

  lemma OneLineMore(blocks: seq<Block>, runs: seq<seq<string>>, before: Kind, line: Kind)
    requires ParagraphsOf(blocks) == JoinedRuns(runs) && NoneEmpty(runs)
    requires before.Plain? ==> blocks != [] && blocks[|blocks| - 1].Paragraph?
    ensures ParagraphsOf(Extended(blocks, before, line)) == JoinedRuns(WithLine(runs, before, line))
    ensures NoneEmpty(WithLine(runs, before, line))
  {
    ExtendedParagraphs(blocks, before, line);
    hide ParagraphsOf;
    hide Extended;
    if line.Plain? {
      if before.Plain? {
        JoinedGrownLast(runs, line.text);
      } else {
        JoinedOneMore(runs, line.text);
      }
    }
  }

  /** The paragraphs are, in order, the runs of plain lines joined by spaces. */
  lemma {:induction false} ParagraphsAreRuns(kinds: seq<Kind>)
    ensures ParagraphsOf(Grouped(kinds)) == JoinedRuns(PlainRuns(kinds))
    ensures NoneEmpty(PlainRuns(kinds))
    decreases |kinds|
  {
    if kinds != [] {
      hide ParagraphsOf;
      hide Extended;
      hide WithLine;
      hide NoneEmpty;
      var front, line := kinds[..|kinds| - 1], kinds[|kinds| - 1];
      ParagraphsAreRuns(front);
      OpenBlock(front);
      OneLineMore(Grouped(front), PlainRuns(front), LastKind(front), line);
    }
  }

  lemma {:induction false} RunsHoldPlainTexts(kinds: seq<Kind>)
    requires forall i :: 0 <= i < |kinds| && kinds[i].Plain? ==> PlainText(kinds[i].text)
    ensures forall r, i :: 0 <= r < |PlainRuns(kinds)| && 0 <= i < |PlainRuns(kinds)[r]| ==> PlainText(PlainRuns(kinds)[r][i])
    decreases |kinds|
  {
    hide PlainText;
    if kinds != [] {
      RunsHoldPlainTexts(kinds[..|kinds| - 1]);
    }
  }

  /** The text of a plain line is no item either, once trimmed. */
  lemma PlainLinesAreNoItems(line: string)
    requires KindOf(line).Plain?
    ensures PlainText(KindOf(line).text)
  {
    TrimmedIsNoItem(line);
    hide Trim;
    hide BulletOf;
  }

  lemma TrimmedIsNoItem(line: string)
    requires BulletOf(line).None?
    ensures BulletOf(Trim(line)).None?
  {
    hide Trim;
    hide BulletOf;
    hide AllSpace;
    hide MatchesBullet;
    TrimHolds(line);
    var lead, trail :| AllSpace(lead) && AllSpace(trail) && line == lead + Trim(line) + trail;
    if BulletOf(Trim(line)).Some? {
      BulletOfIsTheExpression(Trim(line));
      var body :| MatchesBullet(Trim(line), body);
      MatchesWithin(lead, Trim(line), trail, body);
      BulletOfIsTheExpression(line);
    }
  }

  lemma MatchesWithin(lead: string, text: string, trail: string, body: string)
    requires AllSpace(lead) && AllSpace(trail) && MatchesBullet(text, body)
    ensures MatchesBullet(lead + text + trail, body)
  {
    hide IsSpace;
    hide NoLineEnd;
    var first, mark, gap, last :|
      && AllSpace(first) && (mark == '-' || mark == '•' || mark == '*') && gap != "" && AllSpace(gap) && AllSpace(last)
      && body != "" && !IsSpace(body[|body| - 1]) && NoLineEnd(body)
      && text == first + [mark] + gap + body + last;
    SpaceAndSpace(lead, first);
    SpaceAndSpace(last, trail);
    hide AllSpace;
    Sandwich(lead, first + [mark] + gap + body + last, trail, first, mark, gap, body, last);
    ItMatches(lead + first, mark, gap, body, last + trail);
  }

  lemma Sandwich(lead: string, text: string, trail: string, first: string, mark: char, gap: string, body: string, last: string)
    requires text == first + [mark] + gap + body + last
    ensures lead + text + trail == (lead + first) + [mark] + gap + body + (last + trail)
  {
  }

  lemma ItMatches(lead: string, mark: char, gap: string, body: string, trail: string)
    requires AllSpace(lead) && (mark == '-' || mark == '•' || mark == '*') && gap != "" && AllSpace(gap) && AllSpace(trail)
    requires body != "" && !IsSpace(body[|body| - 1]) && NoLineEnd(body)
    ensures MatchesBullet(lead + [mark] + gap + body + trail, body)
  {
    hide AllSpace;
    hide IsSpace;
    hide NoLineEnd;
  }

  lemma SpaceAndSpace(a: string, b: string)
    requires AllSpace(a) && AllSpace(b)
    ensures AllSpace(a + b)
  {
    hide IsSpace;
  }

  // ---------------------------------------------------------------------------------------------
  // Which runs look like an item once they are joined
  // ---------------------------------------------------------------------------------------------

  lemma FirstOfRun(run: seq<string>)
    requires |run| >= 2 && forall i :: 0 <= i < |run| ==> PlainText(run[i])
    ensures Join(run, " ") == run[0] + " " + Join(run[1..], " ")
    ensures Join(run[1..], " ") != "" && Trimmed(Join(run[1..], " "))
    ensures NoLineEnd(Join(run[1..], " ")) <==> NoLineEnds(run[1..])
  {
    hide BulletOf;
    hide IsSpace;
    hide NoLineEnds;
    hide NoLineEnd;
    hide Join;
    var rest := run[1..];
    FirstAndRest(run);
    JoinFirst(run[0], rest, " ");
    JoinedIsPlain(rest);
  }

  lemma ConcatHasNoLineEnd(a: string, b: string)
    ensures NoLineEnd(a + " " + b) <==> NoLineEnd(a) && NoLineEnd(b)
  {
    var s := a + " " + b;
    assert forall i :: 0 <= i < |a| ==> s[i] == a[i];
    assert forall i :: 0 <= i < |b| ==> b[i] == s[|a| + 1 + i];
  }

  lemma {:induction false} JoinedIsPlain(texts: seq<string>)
    requires texts != [] && forall i :: 0 <= i < |texts| ==> texts[i] != "" && Trimmed(texts[i])
    ensures Join(texts, " ") != "" && Trimmed(Join(texts, " "))
    ensures NoLineEnd(Join(texts, " ")) <==> NoLineEnds(texts)
    decreases |texts|
  {
    var n := |texts| - 1;
    hide NoLineEnd;
    hide IsSpace;
    if n > 0 {
      JoinedIsPlain(texts[..n]);
      ConcatHasNoLineEnd(Join(texts[..n], " "), texts[n]);
      assert forall i :: 0 <= i < n ==> texts[..n][i] == texts[i];
    }
  }

  lemma LoneMark(c: char, rest: string)
    requires !IsSpace(c) && rest != "" && Trimmed(rest)
    ensures BulletOf([c] + " " + rest).Some? <==> IsBulletMark(c) && NoLineEnd(rest)
  {
    var line := [c] + " " + rest;
    assert line[1..] == " " + rest;
    assert TrimStart(line) == line;
    TrimOfSpaceThen(rest);
    hide TrimStart;
    hide Trim;
    hide NoLineEnd;
  }

  lemma LongerFirst(first: string, rest: string)
    requires PlainText(first) && |first| >= 2 && rest != "" && Trimmed(rest)
    ensures BulletOf(first + " " + rest).None?
  {
    hide IsSpace;
    hide NoLineEnd;
    hide TrimStart;
    hide Trim;
    var line := first + " " + rest;
    assert line[0] == first[0] && line[1] == first[1] && line[|line| - 1] == rest[|rest| - 1];
    TrimOfTrimmed(first);
    TrimOfTrimmed(line);
    var body, trail := first[1..], " " + rest;
    assert line[1..] == body + trail && body[|body| - 1] == first[|first| - 1] && trail[|trail| - 1] == rest[|rest| - 1];
    TrimsOfLonger(body, trail);
    PartOfNoLineEnd(TrimStart(body), trail);
  }

  lemma TrimsOfLonger(body: string, trail: string)
    requires body != "" && !IsSpace(body[|body| - 1]) && trail != "" && !IsSpace(trail[|trail| - 1])
    ensures Trim(body) == TrimStart(body) != "" && Trim(body + trail) == TrimStart(body) + trail
  {
    hide IsSpace;
    BodyThenTrail(body, trail);
    EndsVisibly(TrimStart(body));
    var long := TrimStart(body) + trail;
    assert long[|long| - 1] == trail[|trail| - 1];
    EndsVisibly(long);
    hide TrimStart;
    hide TrimEnd;
  }

  lemma EndsVisibly(s: string)
    requires s != "" && !IsSpace(s[|s| - 1])
    ensures TrimEnd(s) == s
  {
    hide IsSpace;
  }

  lemma PartOfNoLineEnd(a: string, b: string)
    ensures NoLineEnd(a + b) ==> NoLineEnd(a)
  {
    assert forall i :: 0 <= i < |a| ==> (a + b)[i] == a[i];
  }

  /** A run of plain lines, joined, looks like an item exactly when a lone mark leads it. */
  lemma RunIsItem(run: seq<string>)
    requires run != [] && forall i :: 0 <= i < |run| ==> PlainText(run[i])
    ensures BulletOf(Join(run, " ")).Some? <==> LoneMarkLeads(run)
  {
    if |run| >= 2 {
      FirstOfRun(run);
      hide Join;
      LedIsItem(run[0], Join(run[1..], " "));
    }
    hide BulletOf;
    hide NoLineEnd;
    hide NoLineEnds;
    hide IsSpace;
  }

  lemma LedIsItem(first: string, rest: string)
    requires PlainText(first) && rest != "" && Trimmed(rest)
    ensures BulletOf(first + " " + rest).Some? <==> |first| == 1 && IsBulletMark(first[0]) && NoLineEnd(rest)
  {
    if |first| == 1 {
      assert first == [first[0]];
      LoneMark(first[0], rest);
    } else {
      LongerFirst(first, rest);
    }
    hide BulletOf;
    hide NoLineEnd;
    hide IsSpace;
  }

  // ---------------------------------------------------------------------------------------------
  // The answers that survive
  // ---------------------------------------------------------------------------------------------

  ghost predicate NoneShaped(blocks: seq<Block>) {
    forall k :: 0 <= k < |blocks| ==> !BulletShaped(blocks[k])
  }

  ghost predicate NoneItem(texts: seq<string>) {
    forall i :: 0 <= i < |texts| ==> BulletOf(texts[i]).None?
  }

  /** No run is led by a lone mark. */
  ghost predicate NoneLed(runs: seq<seq<string>>) {
    forall r :: 0 <= r < |runs| ==> !LoneMarkLeads(runs[r])
  }

  lemma NoneShapedOneMore(blocks: seq<Block>, b: Block)
    ensures NoneShaped(blocks + [b]) <==> NoneShaped(blocks) && !BulletShaped(b)
  {
    hide BulletShaped;
    var longer := blocks + [b];
    assert longer[|blocks|] == b;
    assert forall k :: 0 <= k < |blocks| ==> blocks[k] == longer[k];
  }

  lemma NoneItemOneMore(texts: seq<string>, text: string)
    ensures NoneItem(texts + [text]) <==> NoneItem(texts) && BulletOf(text).None?
  {
    hide BulletOf;
    var longer := texts + [text];
    assert longer[|texts|] == text;
    assert forall k :: 0 <= k < |texts| ==> texts[k] == longer[k];
  }

  lemma {:induction false} ParagraphsAreShaped(blocks: seq<Block>)
    ensures NoneShaped(blocks) <==> NoneItem(ParagraphsOf(blocks))
    decreases |blocks|
  {
    if blocks != [] {
      var front, last := blocks[..|blocks| - 1], blocks[|blocks| - 1];
      ParagraphsAreShaped(front);
      FrontAndLast(blocks);
      NoneShapedOneMore(front, last);
      ParagraphsOneMore(front, last);
      if last.Paragraph? {
        NoneItemOneMore(ParagraphsOf(front), last.text);
      } else {
        assert ParagraphsOf(front) + [] == ParagraphsOf(front);
      }
      hide NoneShaped;
      hide NoneItem;
      hide BulletOf;
      hide ParagraphsOf;
    }
  }

  /** Printing the blocks of an answer and parsing them again changes nothing, exactly when no run of plain lines of the
      answer is led by a lone bullet mark. */
  lemma ReprintingIsStable(answer: string)
    ensures Parse(Print(Parse(answer))) == Parse(answer)
       <==> NoneLed(PlainRuns(KindsOf(LinesOf(answer))))
  {
    hide Print;
    hide ParagraphsOf;
    hide LoneMarkLeads;
    hide PlainRuns;
    hide BulletShaped;
    hide BulletOf;
    hide Grouped;
    hide KindsOf;
    hide LinesOf;
    hide Join;
    hide Sound;
    var kinds := KindsOf(LinesOf(answer));
    ParseIsSound(answer);
    ParseUndoesPrint(Parse(answer));
    RunsAreItems(kinds, LinesOf(answer));
    ParagraphsAreRuns(kinds);
    ParagraphsAreShaped(Parse(answer));
    hide NoneItem;
    hide NoneLed;
  }

  lemma RunsAreItems(kinds: seq<Kind>, lines: seq<string>)
    requires kinds == KindsOf(lines)
    ensures NoneItem(JoinedRuns(PlainRuns(kinds))) <==> NoneLed(PlainRuns(kinds))
  {
    hide KindOf;
    forall i | 0 <= i < |kinds| && kinds[i].Plain? ensures PlainText(kinds[i].text) {
      PlainLinesAreNoItems(lines[i]);
    }
    hide PlainText;
    RunsHoldPlainTexts(kinds);
    ParagraphsAreRuns(kinds);
    hide PlainRuns;
    hide BulletOf;
    hide Join;
    hide LoneMarkLeads;
    forall r | 0 <= r < |PlainRuns(kinds)|
      ensures BulletOf(Join(PlainRuns(kinds)[r], " ")).Some? <==> LoneMarkLeads(PlainRuns(kinds)[r])
    {
      RunIsItem(PlainRuns(kinds)[r]);
    }
    assert forall r :: 0 <= r < |PlainRuns(kinds)| ==> JoinedRuns(PlainRuns(kinds))[r] == Join(PlainRuns(kinds)[r], " ");
  }

  lemma OneCharacter(c: char)
    requires !IsSpace(c)
    ensures KindOf([c]) == Plain([c]) && OneLine([c])
  {
    NoLineEndIsSpace(c);
    TrimOfTrimmed([c]);
    hide Trim;
    hide TrimStart;
    hide IsSpace;
    assert BulletOf([c]).None?;
  }

  lemma NoLineEndIsSpace(c: char)
    requires !IsSpace(c)
    ensures c != '\n' && c != '\r'
  {
  }

  lemma RunsOneMore(kinds: seq<Kind>, line: Kind)
    ensures PlainRuns(kinds + [line]) == WithLine(PlainRuns(kinds), LastKind(kinds), line)
  {
    assert (kinds + [line])[..|kinds|] == kinds;
  }

  lemma TwoPlainLines(a: string, b: string)
    ensures PlainRuns([Plain(a), Plain(b)]) == [[a, b]]
  {
    assert PlainRuns([]) == [];
    hide PlainRuns;
    RunsOneMore([], Plain(a));
    RunsOneMore([Plain(a)], Plain(b));
    NoneAndOne(Plain(a));
    OneAndOne(Plain(a), Plain(b));
    NoneAndOne([a]);
    OneAndOne(a, b);
    OnlyReplaced([a], [a, b]);
  }

  lemma TwoLinesJoined(a: string, b: string)
    ensures Join([a, b], "\n") == a + "\n" + b
  {
    assert [a, b][..1] == [a];
  }

  /** A mark alone above a word is a paragraph, and an item once it is printed. */
  lemma ALoneMarkIsLost()
    ensures Parse(Print(Parse("-\nx"))) != Parse("-\nx")
  {
    hide Parse;
    hide Print;
    hide PlainRuns;
    hide LinesOf;
    hide KindOf;
    hide Join;
    hide BulletOf;
    hide IsSpace;
    var lines := [['-'], ['x']];
    assert !IsSpace('-') && !IsSpace('x') by { VisibleCharacters(); }
    OneCharacter('-');
    OneCharacter('x');
    TwoLinesJoined(['-'], ['x']);
    LinesOfLines(lines);
    assert ['-'] + "\n" + ['x'] == "-\nx";
    assert KindsOf(lines) == [Plain(['-']), Plain(['x'])];
    TwoPlainLines(['-'], ['x']);
    assert NoLineEnd(['x']);
    assert LoneMarkLeads([['-'], ['x']]);
    ReprintingIsStable("-\nx");
    assert PlainRuns(KindsOf(LinesOf("-\nx")))[0] == [['-'], ['x']];
  }

  lemma VisibleCharacters()
    ensures !IsSpace('-') && !IsSpace('x')
  {
  }
}
