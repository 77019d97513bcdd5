/** Parsing and printing Mia's answers undo each other, and nothing but structure is lost. */
module AnswerRoundTrip {
  import opened Basics
  import opened Text
  import opened AnswerBlocks

  // ---------------------------------------------------------------------------------------------
  // Lines of joined texts
  // ---------------------------------------------------------------------------------------------

  /** The lines once `c` stands before the first of them. */
  function Led(c: char, lines: seq<string>): seq<string>
    requires lines != []
  {
    if c == '\n' then [""] + lines else [[c] + lines[0]] + lines[1..]
  }

  lemma SplitOfCons(c: char, s: string)
    ensures Split([c] + s) == Led(c, Split(s))
  {
    assert ([c] + s)[1..] == s;
  }

  lemma LedOfConcat(c: char, a: seq<string>, b: seq<string>)
    requires a != []
    ensures Led(c, a + b) == Led(c, a) + b
  {
    RestOfConcat(a, b);
  }

  lemma {:induction false} SplitJoined(a: string, b: string)
    ensures Split(a + "\n" + b) == Split(a) + Split(b)
    decreases |a|
  {
    if a == "" {
      EmptyJoined(b);
      assert a + "\n" + b == "\n" + b;
    } else {
      hide Split;
      hide Led;
      var c, rest := a[0], a[1..];
      SplitJoined(rest, b);
      FirstAndRest(a);
      Reassociated([c], rest, "\n", b);
      SplitOfCons(c, rest);
      SplitOfCons(c, rest + "\n" + b);
      LedOfConcat(c, Split(rest), Split(b));
    }
  }

  lemma EmptyJoined(b: string)
    ensures Split("\n" + b) == Split("") + Split(b)
  {
    SplitOfCons('\n', b);
  }

  lemma NormalizedOfCons(c: char, s: string)
    ensures c != '\r' ==> Normalized([c] + s) == [c] + Normalized(s)
    ensures c == '\r' && (s == "" || s[0] != '\n') ==> Normalized([c] + s) == "\n" + Normalized(s)
    ensures c == '\r' && s != "" && s[0] == '\n' ==> Normalized([c] + s) == "\n" + Normalized(s[1..])
  {
    assert ([c] + s)[1..] == s;
    if s != "" {
      assert ([c] + s)[2..] == s[1..];
    }
  }

  lemma {:induction false} NormalizedJoined(a: string, b: string)
    requires a != "" && b != "" ==> !(a[|a| - 1] == '\r' && b[0] == '\n')
    ensures Normalized(a + b) == Normalized(a) + Normalized(b)
    decreases |a|
  {
    if a == "" {
      assert a + b == b;
    } else if b == "" {
      assert a + b == a;
    } else {
      var c, rest := a[0], a[1..];
      var paired := c == '\r' && rest != "" && rest[0] == '\n';
      var tail := if paired then rest[1..] else rest;
      NormalizedJoined(tail, b);
      NormalizedOfCons(c, rest);
      NormalizedOfCons(c, rest + b);
      hide Normalized;
      FirstAndRest(a);
      Associated([c], rest, b);
      Associated(if c == '\r' then "\n" else [c], Normalized(tail), Normalized(b));
      if paired {
        RestOfConcat(rest, b);
      }
    }
  }

  predicate EndsInReturn(s: string) {
    s != "" && s[|s| - 1] == '\r'
  }

  /** All three ways to end a line are one: what is before and after is read on its own. */
  lemma LineEndsAreOne(a: string, b: string)
    ensures !EndsInReturn(a) ==> LinesOf(a + "\n" + b) == LinesOf(a) + LinesOf(b)
    ensures LinesOf(a + "\r\n" + b) == LinesOf(a) + LinesOf(b)
    ensures b == "" || b[0] != '\n' ==> LinesOf(a + "\r" + b) == LinesOf(a) + LinesOf(b)
  {
    SplitJoined(Normalized(a), Normalized(b));
    NormalizedOfCons('\n', b);
    NormalizedOfCons('\r', "\n" + b);
    NormalizedOfCons('\r', b);
    NormalizedJoined(a, "\r" + ("\n" + b));
    NormalizedJoined(a, "\r" + b);
    if !EndsInReturn(a) { NormalizedJoined(a, "\n" + b); }
    hide Split;
    hide Normalized;
    assert ("\n" + b)[1..] == b;
    Associated(a, "\n", b);
    Associated(a, "\r", b);
    assert a + "\r\n" + b == a + ("\r" + ("\n" + b));
    Associated(Normalized(a), "\n", Normalized(b));
  }

  /** A blank line between two texts puts a line of its own between their lines, except that it is swallowed by a
      carriage return at the end of the first, which then ends that text in a blank line. */
  lemma LinesOfJoined(a: string, b: string)
    ensures !EndsInReturn(a) ==> LinesOf(a + "\n\n" + b) == LinesOf(a) + [""] + LinesOf(b)
    ensures EndsInReturn(a) ==> LinesOf(a + "\n\n" + b) == LinesOf(a) + LinesOf(b) && LinesOf(a)[|LinesOf(a)| - 1] == ""
  {
    if !EndsInReturn(a) {
      BlankBetween(a, b);
    } else {
      ReturnBetween(a[..|a| - 1], b);
      assert a == a[..|a| - 1] + "\r";
    }
  }

  lemma NormalizedAfterFeed(b: string)
    ensures Normalized("\n" + b) == "\n" + Normalized(b)
  {
    assert ("\n" + b)[1..] == b;
  }

  lemma BlankBetween(a: string, b: string)
    requires !EndsInReturn(a)
    ensures LinesOf(a + "\n\n" + b) == LinesOf(a) + [""] + LinesOf(b)
  {
    assert a + "\n\n" + b == a + ("\n\n" + b);
    NormalizedJoined(a, "\n\n" + b);
    assert "\n\n" + b == "\n" + ("\n" + b);
    NormalizedAfterFeed("\n" + b);
    NormalizedAfterFeed(b);
    assert "\n" + ("\n" + Normalized(b)) == "\n\n" + Normalized(b);
    TwoFeeds(Normalized(a), Normalized(b));
  }

  lemma LinesAfterReturn(c: string)
    ensures LinesOf(c + "\r") == LinesOf(c) + [""]
  {
    NormalizedJoined(c, "\r");
    assert "\r"[1..] == "";
    assert Normalized("\r") == "\n";
    assert Normalized(c) + "\n" == Normalized(c) + "\n" + "";
    SplitJoined(Normalized(c), "");
  }

  lemma ReturnBetween(c: string, b: string)
    ensures LinesOf(c + "\r" + "\n\n" + b) == LinesOf(c + "\r") + LinesOf(b)
    ensures LinesOf(c + "\r")[|LinesOf(c + "\r")| - 1] == ""
  {
    LinesAfterReturn(c);
    ReturnAndFeeds(b);
    Reassociated(c, "\r", "\n\n", b);
    assert "\r" + "\n\n" + b == "\r\n\n" + b;
    NormalizedJoined(c, "\r\n\n" + b);
    TwoFeeds(Normalized(c), Normalized(b));
  }

  lemma ReturnAndFeeds(b: string)
    ensures Normalized("\r\n\n" + b) == "\n\n" + Normalized(b)
  {
    assert ("\r\n\n" + b)[2..] == "\n" + b;
    NormalizedAfterFeed(b);
  }

  lemma TwoFeeds(m: string, n: string)
    ensures Split(m + ("\n\n" + n)) == Split(m) + [""] + Split(n)
  {
    SplitJoined(m, "" + "\n" + n);
    SplitJoined("", n);
    assert m + ("\n\n" + n) == m + "\n" + ("" + "\n" + n);
  }

  // ---------------------------------------------------------------------------------------------
  // Blocks of joined lines
  // ---------------------------------------------------------------------------------------------

  /** While a run of lines is open, the block it belongs to is the last one. */
  lemma OpenBlock(kinds: seq<Kind>)
    ensures LastKind(kinds).Bullet? ==> Grouped(kinds) != [] && Grouped(kinds)[|Grouped(kinds)| - 1].Items?
    ensures LastKind(kinds).Plain? ==> Grouped(kinds) != [] && Grouped(kinds)[|Grouped(kinds)| - 1].Paragraph?
  {
  }

  lemma GroupedOneMore(kinds: seq<Kind>, line: Kind)
    ensures Grouped(kinds + [line]) == Extended(Grouped(kinds), LastKind(kinds), line)
  {
    assert (kinds + [line])[..|kinds|] == kinds;
  }

  lemma ExtendedAfter(earlier: seq<Block>, blocks: seq<Block>, before: Kind, line: Kind)
    requires before.Blank? || blocks != []
    ensures Extended(earlier + blocks, before, line) == earlier + Extended(blocks, before, line)
  {
    if blocks != [] {
      assert (earlier + blocks)[..|earlier + blocks| - 1] == earlier + blocks[..|blocks| - 1];
    }
  }

  lemma {:induction false} GroupedAfterBlank(a: seq<Kind>, b: seq<Kind>)
    requires LastKind(a).Blank?
    ensures Grouped(a + b) == Grouped(a) + Grouped(b)
    decreases |b|
  {
    if b == [] {
      assert a + b == a;
    } else {
      var front, last := b[..|b| - 1], b[|b| - 1];
      GroupedAfterBlank(a, front);
      GroupedOneMore(a + front, last);
      GroupedOneMore(front, last);
      OpenBlock(front);
      hide Grouped;
      FrontAndLast(b);
      Associated(a, front, [last]);
      ExtendedAfter(Grouped(a), Grouped(front), LastKind(front), last);
      hide Extended;
      assert front == [] ==> a + front == a;
    }
  }

  lemma KindsOfJoined(a: seq<string>, b: seq<string>)
    ensures KindsOf(a + b) == KindsOf(a) + KindsOf(b)
  {
    hide KindOf;
  }

  /** Parsing two texts joined by a blank line gives the blocks of the first, then those of the second. */
  lemma ParseOfJoined(a: string, b: string)
    ensures Parse(a + "\n\n" + b) == Parse(a) + Parse(b)
  {
    hide KindOf;
    hide LinesOf;
    var ka, kb := KindsOf(LinesOf(a)), KindsOf(LinesOf(b));
    LinesOfJoined(a, b);
    BlankIsBlank();
    if EndsInReturn(a) {
      KindsOfJoined(LinesOf(a), LinesOf(b));
      GroupedAfterBlank(ka, kb);
    } else {
      KindsOfJoined(LinesOf(a) + [""], LinesOf(b));
      KindsOfJoined(LinesOf(a), [""]);
      assert KindsOf([""]) == [Blank];
      GroupedAfterBlank(ka + [Blank], kb);
      GroupedOneMore(ka, Blank);
    }
  }

  lemma BlankIsBlank()
    ensures KindOf("") == Blank
  {
  }

  // ---------------------------------------------------------------------------------------------
  // Printing
  // ---------------------------------------------------------------------------------------------

  function Printed(b: Block): string {
    match b
    case Paragraph(text) => text
    case Items(items) => Join(Marked(items), "\n")
  }

  function Marked(items: seq<string>): (r: seq<string>)
    ensures |r| == |items| && forall i :: 0 <= i < |items| ==> r[i] == "- " + items[i]
  {
    seq(|items|, i requires 0 <= i < |items| => "- " + items[i])
  }

  function Print(blocks: seq<Block>): string {
    if blocks == [] then ""
    else if |blocks| == 1 then Printed(blocks[0])
    else Print(blocks[..|blocks| - 1]) + "\n\n" + Printed(blocks[|blocks| - 1])
  }

  predicate OneLine(s: string) {
    forall i :: 0 <= i < |s| ==> s[i] != '\n' && s[i] != '\r'
  }

  /** A block as the parser makes them: visible texts, each on one line. */
  predicate Sound(b: Block) {
    match b
    case Paragraph(text) => text != "" && Trimmed(text) && OneLine(text)
    case Items(items) => items != [] && forall i :: 0 <= i < |items| ==> items[i] != "" && Trimmed(items[i]) && NoLineEnd(items[i])
  }

  /** A paragraph that would read as a list item on a line of its own. */
  predicate BulletShaped(b: Block) {
    b.Paragraph? && BulletOf(b.text).Some?
  }

  lemma {:induction false} OneLineIsItself(s: string)
    requires OneLine(s)
    ensures Normalized(s) == s && Split(s) == [s]
    decreases |s|
  {
    if s != "" {
      OneLineIsItself(s[1..]);
      assert [s[0]] + s[1..] == s;
    }
  }

  lemma {:induction false} LinesOfLines(lines: seq<string>)
    requires lines != [] && forall i :: 0 <= i < |lines| ==> OneLine(lines[i])
    ensures LinesOf(Join(lines, "\n")) == lines
    ensures !EndsInReturn(Join(lines, "\n"))
    decreases |lines|
  {
    var n := |lines| - 1;
    OneLineIsItself(lines[n]);
    hide Split;
    hide Normalized;
    if n > 0 {
      LinesOfLines(lines[..n]);
      OneLineBelow(Join(lines[..n], "\n"), lines[n]);
      FrontAndLast(lines);
      hide LinesOf;
    } else {
      assert lines == [lines[0]];
    }
  }

  lemma OneLineBelow(text: string, line: string)
    requires !EndsInReturn(text) && OneLine(line)
    ensures LinesOf(text + "\n" + line) == LinesOf(text) + [line]
    ensures !EndsInReturn(text + "\n" + line)
  {
    OneLineIsItself(line);
    NormalizedJoined(text, "\n" + line);
    NormalizedAfterFeed(line);
    SplitJoined(Normalized(text), line);
    hide Split;
    hide Normalized;
    Associated(text, "\n", line);
    Associated(Normalized(text), "\n", line);
  }

  lemma MarkedIsBullet(item: string)
    requires item != "" && Trimmed(item) && NoLineEnd(item)
    ensures KindOf("- " + item) == Bullet(item)
  {
    hide Trim;
    hide TrimStart;
    hide Trimmed;
    hide NoLineEnd;
    var line := "- " + item;
    assert line[0] == '-' && line[1] == ' ' && line[1..] == " " + item;
    TrimOfSpaceThen(item);
    MarkedIsTrimmed(item);
    TrimOfTrimmed(line);
  }

  lemma TrimOfSpaceThen(item: string)
    requires item != "" && Trimmed(item)
    ensures Trim(" " + item) == item
  {
    assert (" " + item)[1..] == item;
    TrimOfTrimmed(item);
  }

  lemma MarkedIsTrimmed(item: string)
    requires item != "" && Trimmed(item)
    ensures Trimmed("- " + item)
  {
    var line := "- " + item;
    assert line[|line| - 1] == item[|item| - 1];
  }

  lemma {:induction false} BulletsAreOneList(items: seq<string>, kinds: seq<Kind>)
    requires items != [] && |kinds| == |items| && forall i :: 0 <= i < |items| ==> kinds[i] == Bullet(items[i])
    ensures Grouped(kinds) == [Items(items)]
    decreases |items|
  {
    var n := |items| - 1;
    assert Grouped([]) == [];
    FrontAndLast(items);
    FrontAndLast(kinds);
    GroupedOneMore(kinds[..n], kinds[n]);
    hide Grouped;
    if n > 0 {
      BulletsAreOneList(items[..n], kinds[..n]);
    } else {
      assert kinds[..0] == [];
      assert items == [items[0]];
    }
  }

  lemma ParseOfParagraph(text: string)
    requires Sound(Paragraph(text))
    ensures Parse(text) == [if BulletOf(text).Some? then Items([BulletOf(text).value]) else Paragraph(text)]
  {
    OneLineIsItself(text);
    TrimOfTrimmed(text);
    OneKind(text);
  }

  lemma OneKind(line: string)
    ensures Grouped(KindsOf([line])) == Extended([], Blank, KindOf(line))
  {
    hide KindOf;
    assert KindsOf([line]) == [KindOf(line)];
    assert [KindOf(line)][..0] == [];
  }

  /** A printed block reads back as itself, or, when it is a bullet-shaped paragraph, as a list. */
  lemma ParseOfPrinted(b: Block)
    requires Sound(b)
    ensures Parse(Printed(b)) == [ReadBack(b)]
  {
    match b
    case Paragraph(text) => ParseOfParagraph(text);
    case Items(items) => ParseOfItems(items);
  }

  lemma ParseOfItems(items: seq<string>)
    requires Sound(Items(items))
    ensures Parse(Printed(Items(items))) == [Items(items)]
  {
    hide KindOf;
    hide LinesOf;
    var lines := Marked(items);
    forall i | 0 <= i < |items| ensures OneLine(lines[i]) && KindOf(lines[i]) == Bullet(items[i]) {
      MarkedIsBullet(items[i]);
      MarkedIsOneLine(items[i]);
    }
    LinesOfLines(lines);
    BulletsAreOneList(items, KindsOf(lines));
  }

  lemma MarkedIsOneLine(item: string)
    requires NoLineEnd(item)
    ensures OneLine("- " + item)
  {
    assert forall i :: 2 <= i < |"- " + item| ==> ("- " + item)[i] == item[i - 2];
  }

  function ReadBack(b: Block): Block {
    if BulletShaped(b) then Items([BulletOf(b.text).value]) else b
  }

  function AllReadBack(blocks: seq<Block>): seq<Block> {
    if blocks == [] then [] else AllReadBack(blocks[..|blocks| - 1]) + [ReadBack(blocks[|blocks| - 1])]
  }

  lemma {:induction false} ParseOfPrint(blocks: seq<Block>)
    requires forall i :: 0 <= i < |blocks| ==> Sound(blocks[i])
    ensures Parse(Print(blocks)) == AllReadBack(blocks)
    decreases |blocks|
  {
    if blocks == [] {
      BlankIsBlank();
      OneKind("");
    } else {
      hide Parse;
      hide Printed;
      hide ReadBack;
      var n := |blocks| - 1;
      ParseOfPrinted(blocks[n]);
      if n > 0 {
        ParseOfPrint(blocks[..n]);
        ParseOfJoined(Print(blocks[..n]), Printed(blocks[n]));
      } else {
        assert AllReadBack(blocks[..0]) == [];
      }
    }
  }

  lemma {:induction false} AllReadBackAt(blocks: seq<Block>, i: nat)
    requires i < |blocks|
    ensures |AllReadBack(blocks)| == |blocks| && AllReadBack(blocks)[i] == ReadBack(blocks[i])
    decreases |blocks|
  {
    hide ReadBack;
    var n := |blocks| - 1;
    if n > 0 {
      AllReadBackAt(blocks[..n], if i < n then i else 0);
    }
  }

  /** For every list of blocks with visible one-line texts, parsing the printed form gives the list back exactly
      when none of its paragraphs looks like a list item. */
  lemma ParseUndoesPrint(blocks: seq<Block>)
    requires forall i :: 0 <= i < |blocks| ==> Sound(blocks[i])
    ensures Parse(Print(blocks)) == blocks <==> forall i :: 0 <= i < |blocks| ==> !BulletShaped(blocks[i])
  {
    ParseOfPrint(blocks);
    hide Parse;
    forall i | 0 <= i < |blocks|
      ensures |AllReadBack(blocks)| == |blocks|
      ensures AllReadBack(blocks)[i] == blocks[i] <==> !BulletShaped(blocks[i])
    {
      AllReadBackAt(blocks, i);
    }
    if blocks != [] {
      AllReadBackAt(blocks, 0);
    }
  }

  // ---------------------------------------------------------------------------------------------
  // What the parser makes of any text
  // ---------------------------------------------------------------------------------------------

  lemma {:induction false} NormalizedHasNoReturn(s: string)
    ensures forall i :: 0 <= i < |Normalized(s)| ==> Normalized(s)[i] != '\r'
    decreases |s|
  {
    if s != "" {
      if s[0] == '\r' && |s| > 1 && s[1] == '\n' {
        NormalizedHasNoReturn(s[2..]);
      } else {
        NormalizedHasNoReturn(s[1..]);
      }
    }
  }

  lemma {:induction false} SplitIntoLines(s: string)
    requires forall i :: 0 <= i < |s| ==> s[i] != '\r'
    ensures forall i :: 0 <= i < |Split(s)| ==> OneLine(Split(s)[i])
    decreases |s|
  {
    if s != "" {
      SplitIntoLines(s[1..]);
      var rest := Split(s[1..]);
      assert OneLine(rest[0]);
      assert forall i :: 1 <= i < |rest| ==> OneLine(rest[i]);
    }
  }

  predicate SoundKind(k: Kind) {
    match k
    case Blank => true
    case Bullet(item) => item != "" && Trimmed(item) && NoLineEnd(item)
    case Plain(text) => text != "" && Trimmed(text) && OneLine(text)
  }

  lemma TrimOfOneLine(s: string)
    requires OneLine(s)
    ensures OneLine(Trim(s))
  {
    hide IsSpace;
    var t := TrimStart(s);
    PartIsOneLine(s, t, |s| - |t|);
    PartIsOneLine(t, TrimEnd(t), 0);
  }

  lemma PartIsOneLine(s: string, part: string, from: nat)
    requires OneLine(s) && from + |part| <= |s| && part == s[from..from + |part|]
    ensures OneLine(part)
  {
    assert forall i :: 0 <= i < |part| ==> part[i] == s[from + i];
  }

  lemma {:induction false} SoundKindsMakeSoundBlocks(kinds: seq<Kind>)
    requires forall i :: 0 <= i < |kinds| ==> SoundKind(kinds[i])
    ensures forall i :: 0 <= i < |Grouped(kinds)| ==> Sound(Grouped(kinds)[i])
    decreases |kinds|
  {
    if kinds != [] {
      var front, line := kinds[..|kinds| - 1], kinds[|kinds| - 1];
      SoundKindsMakeSoundBlocks(front);
      var blocks := Grouped(front);
      if line.Plain? && blocks != [] && blocks[|blocks| - 1].Paragraph? {
        JoinedIsSound(blocks[|blocks| - 1].text, line.text);
      }
      if line.Bullet? && blocks != [] && blocks[|blocks| - 1].Items? {
        assert Sound(blocks[|blocks| - 1]);
      }
    }
  }

  lemma JoinedIsSound(a: string, b: string)
    requires Sound(Paragraph(a)) && Sound(Paragraph(b))
    ensures Sound(Paragraph(a + " " + b))
  {
    var s := a + " " + b;
    assert s[0] == a[0] && s[|s| - 1] == b[|b| - 1];
  }

  /** Every block of every answer has visible, trimmed, one-line texts. */
  lemma ParseIsSound(answer: string)
    ensures forall i :: 0 <= i < |Parse(answer)| ==> Sound(Parse(answer)[i])
  {
    NormalizedHasNoReturn(answer);
    SplitIntoLines(Normalized(answer));
    var lines := LinesOf(answer);
    forall i | 0 <= i < |lines| ensures SoundKind(KindOf(lines[i])) {
      TrimOfOneLine(lines[i]);
    }
    SoundKindsMakeSoundBlocks(KindsOf(lines));
  }

  // ---------------------------------------------------------------------------------------------
  // Nothing else is lost
  // ---------------------------------------------------------------------------------------------

  /** The text of each line that has one, in order. */
  function TextsOfLines(kinds: seq<Kind>): seq<string> {
    if kinds == [] then []
    else
      TextsOfLines(kinds[..|kinds| - 1]) +
      match kinds[|kinds| - 1]
      case Blank => []
      case Bullet(item) => [item]
      case Plain(text) => [text]
  }

  /** The text of each paragraph and each item, in order. */
  function TextsOfBlocks(blocks: seq<Block>): seq<string> {
    if blocks == [] then []
    else
      TextsOfBlocks(blocks[..|blocks| - 1]) +
      match blocks[|blocks| - 1]
      case Paragraph(text) => [text]
      case Items(items) => items
  }

  lemma TextsOfOneMore(blocks: seq<Block>, b: Block)
    ensures TextsOfBlocks(blocks + [b]) == TextsOfBlocks(blocks) + (match b case Paragraph(text) => [text] case Items(items) => items)
  {
    assert (blocks + [b])[..|blocks|] == blocks;
  }

  lemma JoinOneMore(texts: seq<string>, text: string)
    ensures Join(texts + [text], " ") == if texts == [] then text else Join(texts, " ") + " " + text
  {
    assert (texts + [text])[..|texts|] == texts;
  }

  lemma JoinGrownLast(texts: seq<string>, a: string, b: string)
    ensures Join(texts + [a + " " + b], " ") == Join(texts + [a] + [b], " ")
  {
    JoinOneMore(texts, a + " " + b);
    JoinOneMore(texts, a);
    JoinOneMore(texts + [a], b);
    if texts != [] {
      assert Join(texts, " ") + " " + (a + " " + b) == Join(texts, " ") + " " + a + " " + b;
    }
  }

  /** Extending the blocks by a line adds its text, and only a join by one space. */
  lemma ExtendedTexts(blocks: seq<Block>, before: Kind, line: Kind)
    ensures line.Blank? ==> TextsOfBlocks(Extended(blocks, before, line)) == TextsOfBlocks(blocks)
    ensures line.Bullet? ==> TextsOfBlocks(Extended(blocks, before, line)) == TextsOfBlocks(blocks) + [line.item]
    ensures line.Plain? ==> Join(TextsOfBlocks(Extended(blocks, before, line)), " ") == Join(TextsOfBlocks(blocks) + [line.text], " ")
  {
    if blocks != [] {
      var front, last := blocks[..|blocks| - 1], blocks[|blocks| - 1];
      assert blocks == front + [last];
      TextsOfOneMore(front, last);
      if last.Paragraph? && line.Plain? {
        TextsOfOneMore(front, Paragraph(last.text + " " + line.text));
        JoinGrownLast(TextsOfBlocks(front), last.text, line.text);
      }
      if last.Items? && line.Bullet? {
        TextsOfOneMore(front, Items(last.items + [line.item]));
      }
    }
    if line.Plain? { TextsOfOneMore(blocks, Paragraph(line.text)); }
    if line.Bullet? { TextsOfOneMore(blocks, Items([line.item])); }
  }

  lemma {:induction false} BlocksKeepTheTexts(kinds: seq<Kind>)
    ensures Join(TextsOfBlocks(Grouped(kinds)), " ") == Join(TextsOfLines(kinds), " ")
    ensures TextsOfBlocks(Grouped(kinds)) == [] <==> TextsOfLines(kinds) == []
    decreases |kinds|
  {
    if kinds != [] {
      var front, line := kinds[..|kinds| - 1], kinds[|kinds| - 1];
      BlocksKeepTheTexts(front);
      ExtendedTexts(Grouped(front), LastKind(front), line);
      var had, has := TextsOfLines(front), TextsOfBlocks(Grouped(front));
      if !line.Blank? {
        var text := if line.Bullet? then line.item else line.text;
        JoinOneMore(had, text);
        JoinOneMore(has, text);
      } else {
        assert had + [] == had;
      }
      SomeTextStays(Grouped(front), LastKind(front), line);
    }
  }

  lemma SomeTextStays(blocks: seq<Block>, before: Kind, line: Kind)
    ensures !line.Blank? ==> TextsOfBlocks(Extended(blocks, before, line)) != []
  {
    if !line.Blank? {
      var extended := Extended(blocks, before, line);
      var last := extended[|extended| - 1];
      assert extended == extended[..|extended| - 1] + [last];
      TextsOfOneMore(extended[..|extended| - 1], last);
    }
  }

  /** A line is its text between white space, after a bullet mark and a gap when it is an item. */
  ghost predicate LineHolds(line: string, k: Kind) {
    match k
    case Blank => AllSpace(line)
    case Plain(text) => exists lead, trail :: AllSpace(lead) && AllSpace(trail) && line == lead + text + trail
    case Bullet(item) =>
      exists lead, mark, gap, trail ::
        && AllSpace(lead) && IsBulletMark(mark) && gap != "" && AllSpace(gap) && AllSpace(trail)
        && line == lead + [mark] + gap + item + trail
  }

  lemma TrimHolds(s: string)
    ensures exists lead, trail :: AllSpace(lead) && AllSpace(trail) && s == lead + Trim(s) + trail
  {
    hide IsSpace;
    TrimStartIs(s);
    TrimEndIs(TrimStart(s));
    hide TrimStart;
    hide TrimEnd;
    Sandwiched(s, |s| - |TrimStart(s)|, |TrimEnd(TrimStart(s))|);
  }

  lemma Sandwiched(s: string, k: nat, n: nat)
    requires k <= |s| && n <= |s| - k
    ensures s == s[..k] + s[k..][..n] + s[k..][n..]
  {
  }

  lemma EveryLineHolds(line: string)
    ensures LineHolds(line, KindOf(line))
  {
    TrimHolds(line);
    var lead, trail :| AllSpace(lead) && AllSpace(trail) && line == lead + Trim(line) + trail;
    if Trim(line) == "" {
      assert line == lead + trail;
    } else if BulletOf(line).Some? {
      BulletHolds(line);
    }
  }

  lemma BulletHolds(line: string)
    requires BulletOf(line).Some?
    ensures LineHolds(line, Bullet(BulletOf(line).value))
  {
    hide IsSpace;
    var k := |line| - |TrimStart(line)|;
    TrimStartIs(line);
    CutInTwo(line, k);
    AfterTheMark(line[..k], line[k..]);
  }

  lemma AfterTheMark(lead: string, t: string)
    requires AllSpace(lead) && |t| >= 2 && IsBulletMark(t[0]) && IsSpace(t[1]) && Trim(t[1..]) != ""
    ensures LineHolds(lead + t, Bullet(Trim(t[1..])))
  {
    hide IsSpace;
    hide Trim;
    hide TrimStart;
    var item := Trim(t[1..]);
    TrimHolds(t[1..]);
    var gap, trail :| AllSpace(gap) && AllSpace(trail) && t[1..] == gap + item + trail;
    if gap == "" {
      StartsWith(item, trail);
    }
    Assembled(lead, t, gap, item, trail);
  }

  lemma StartsWith(item: string, trail: string)
    requires item != ""
    ensures ("" + item + trail)[0] == item[0]
  {
  }

  lemma Assembled(lead: string, t: string, gap: string, item: string, trail: string)
    requires t != "" && t[1..] == gap + item + trail
    ensures lead + t == lead + [t[0]] + gap + item + trail
  {
    assert t == [t[0]] + (gap + item + trail);
  }

  lemma {:induction false} JoinOfSplit(s: string)
    ensures Join(Split(s), "\n") == s
    decreases |s|
  {
    if s != "" {
      JoinOfSplit(s[1..]);
      var rest := Split(s[1..]);
      assert s == [s[0]] + s[1..];
      if s[0] == '\n' {
        JoinFirst("", rest, "\n");
      } else {
        JoinGrownFirst(s[0], rest);
      }
    }
  }

  lemma JoinGrownFirst(c: char, lines: seq<string>)
    requires lines != []
    ensures Join([[c] + lines[0]] + lines[1..], "\n") == [c] + Join(lines, "\n")
  {
    var rest := lines[1..];
    if rest != [] {
      FirstAndRest(lines);
      JoinFirst(lines[0], rest, "\n");
      JoinFirst([c] + lines[0], rest, "\n");
      hide Join;
      Reassociated([c], lines[0], "\n", Join(rest, "\n"));
    }
  }

  lemma {:induction false} JoinFirst(first: string, rest: seq<string>, separator: string)
    requires rest != []
    ensures Join([first] + rest, separator) == first + separator + Join(rest, separator)
    decreases |rest|
  {
    var all := [first] + rest;
    var n := |rest| - 1;
    assert all[..|all| - 1] == [first] + rest[..n];
    if n > 0 {
      JoinFirst(first, rest[..n], separator);
    } else {
      assert rest[..0] == [];
    }
  }

  /** No text is lost or moved: the answer, its line ends made equal, is its lines in order; each line is its text
      between white space, after a bullet mark if it is an item; and those texts, in order and joined by single
      spaces, are the texts of the blocks. */
  lemma NothingIsLost(answer: string)
    ensures Normalized(answer) == Join(LinesOf(answer), "\n")
    ensures forall i :: 0 <= i < |LinesOf(answer)| ==> LineHolds(LinesOf(answer)[i], KindOf(LinesOf(answer)[i]))
    ensures Join(TextsOfBlocks(Parse(answer)), " ") == Join(TextsOfLines(KindsOf(LinesOf(answer))), " ")
  {
    JoinOfSplit(Normalized(answer));
    forall i | 0 <= i < |LinesOf(answer)| ensures LineHolds(LinesOf(answer)[i], KindOf(LinesOf(answer)[i])) {
      EveryLineHolds(LinesOf(answer)[i]);
    }
    BlocksKeepTheTexts(KindsOf(LinesOf(answer)));
  }

  /** The expression for a list item, as it is written: white space, a mark, white space, a text without line ends
      that ends in something visible, white space. */
  ghost predicate MatchesBullet(line: string, body: string) {
    exists lead, mark, gap, trail ::
      && AllSpace(lead) && (mark == '-' || mark == '•' || mark == '*') && gap != "" && AllSpace(gap) && AllSpace(trail)
      && body != "" && !IsSpace(body[|body| - 1]) && NoLineEnd(body)
      && line == lead + [mark] + gap + body + trail
  }

  /** A line is a list item exactly when the whole of it matches the expression, and its text is the match that
      leaves all the white space to the gap. */
  lemma BulletOfIsTheExpression(line: string)
    ensures BulletOf(line).Some? <==> exists body :: MatchesBullet(line, body)
    ensures BulletOf(line).Some? ==> MatchesBullet(line, BulletOf(line).value) && !IsSpace(BulletOf(line).value[0])
  {
    if BulletOf(line).Some? {
      BulletHolds(line);
      HoldsIsMatch(line, BulletOf(line).value);
    }
    forall body | MatchesBullet(line, body) ensures BulletOf(line).Some? {
      MatchIsBullet(line, body);
    }
  }

  lemma HoldsIsMatch(line: string, item: string)
    requires LineHolds(line, Bullet(item)) && item != "" && Trimmed(item) && NoLineEnd(item)
    ensures MatchesBullet(line, item)
  {
    hide IsSpace;
  }

  lemma MatchIsBullet(line: string, body: string)
    requires MatchesBullet(line, body)
    ensures BulletOf(line).Some?
  {
    hide IsSpace;
    hide BulletOf;
    var lead, mark, gap, trail :|
      && AllSpace(lead) && IsBulletMark(mark) && gap != "" && AllSpace(gap) && AllSpace(trail)
      && body != "" && !IsSpace(body[|body| - 1]) && NoLineEnd(body)
      && line == lead + [mark] + gap + body + trail;
    MatchedIsBullet(lead, mark, gap, body, trail);
  }

  lemma MatchedIsBullet(lead: string, mark: char, gap: string, body: string, trail: string)
    requires AllSpace(lead) && IsBulletMark(mark) && gap != "" && AllSpace(gap) && AllSpace(trail)
    requires body != "" && !IsSpace(body[|body| - 1]) && NoLineEnd(body)
    ensures BulletOf(lead + [mark] + gap + body + trail).Some?
  {
    hide IsSpace;
    hide BulletOf;
    Rebracketed(lead, mark, gap, body, trail);
    var rest := gap + (body + trail);
    TrimStartOfSpaceThen(lead, [mark] + rest);
    MarksAreVisible(mark, rest);
    TrimOfMatched(gap, body, trail);
    PartHasNoLineEnd(body, TrimStart(body));
    RestIsBullet(lead + ([mark] + rest), mark, rest);
  }

  lemma RestIsBullet(line: string, mark: char, rest: string)
    requires TrimStart(line) == [mark] + rest && IsBulletMark(mark)
    requires rest != "" && IsSpace(rest[0]) && Trim(rest) != "" && NoLineEnd(Trim(rest))
    ensures BulletOf(line).Some?
  {
    hide TrimStart;
    hide Trim;
    hide IsSpace;
    hide NoLineEnd;
    assert ([mark] + rest)[1..] == rest;
  }

  lemma Rebracketed(lead: string, mark: char, gap: string, body: string, trail: string)
    ensures lead + [mark] + gap + body + trail == lead + ([mark] + (gap + (body + trail)))
  {
  }

  lemma MarksAreVisible(mark: char, rest: string)
    requires IsBulletMark(mark)
    ensures TrimStart([mark] + rest) == [mark] + rest
  {
  }

  lemma PartHasNoLineEnd(s: string, part: string)
    requires NoLineEnd(s) && |part| <= |s| && part == s[|s| - |part|..]
    ensures NoLineEnd(part)
  {
    assert forall i :: 0 <= i < |part| ==> part[i] == s[|s| - |part| + i];
  }

  lemma TrimOfMatched(gap: string, body: string, trail: string)
    requires AllSpace(gap) && AllSpace(trail) && body != "" && !IsSpace(body[|body| - 1])
    ensures Trim(gap + (body + trail)) == TrimStart(body) != ""
  {
    hide IsSpace;
    TrimStartOfSpaceThen(gap, body + trail);
    BodyThenTrail(body, trail);
    TrimEndOfThenSpace(TrimStart(body), trail);
    TrimOfTrimmed(TrimStart(body));
  }

  lemma {:induction false} BodyThenTrail(body: string, trail: string)
    requires body != "" && !IsSpace(body[|body| - 1])
    ensures TrimStart(body + trail) == TrimStart(body) + trail
    ensures TrimStart(body) != "" && !IsSpace(TrimStart(body)[|TrimStart(body)| - 1])
    decreases |body|
  {
    hide IsSpace;
    if IsSpace(body[0]) {
      BodyThenTrail(body[1..], trail);
      RestOfConcat(body, trail);
    }
  }
}
