/** Lines, list items and paragraphs of an answer of Mia (apps/web/lib/ask-ninfa/format-answer.ts). */
module AnswerBlocks {
  import opened Basics
  import opened Text

  datatype Block = Paragraph(text: string) | Items(items: seq<string>)

  // ---------------------------------------------------------------------------------------------
  // Lines
  // ---------------------------------------------------------------------------------------------

  /** `answer.replace(/\r\n?/gu, "\n")`. */
  function Normalized(s: string): string {
    if s == "" then ""
    else if s[0] == '\r' then
      "\n" + Normalized(if |s| > 1 && s[1] == '\n' then s[2..] else s[1..])
    else [s[0]] + Normalized(s[1..])
  }

  /** `split("\n")`: one line more than there are line feeds. */
  function Split(s: string): (lines: seq<string>)
    ensures lines != []
  {
    if s == "" then [""]
    else
      var rest := Split(s[1..]);
      if s[0] == '\n' then [""] + rest else [[s[0]] + rest[0]] + rest[1..]
  }

  function LinesOf(answer: string): (lines: seq<string>)
    ensures lines != []
  {
    Split(Normalized(answer))
  }

  predicate IsBulletMark(c: char) {
    c == '-' || c == '•' || c == '*'
  }

  predicate NoLineEnd(s: string) {
    forall i :: 0 <= i < |s| ==> !IsLineEnd(s[i])
  }

  /** What the expression for a list item captures, when the whole line matches it: after the mark at least one
      white space, then a text that ends in something visible and holds no line end. */
  function BulletOf(line: string): (r: Option<string>)
    ensures r.Some? ==> r.value != "" && Trimmed(r.value) && NoLineEnd(r.value)
  {
    var t := TrimStart(line);
    if |t| >= 2 && IsBulletMark(t[0]) && IsSpace(t[1]) then
      var item := Trim(t[1..]);
      if item != "" && NoLineEnd(item) then Some(item) else None
    else None
  }

  datatype Kind = Blank | Bullet(item: string) | Plain(text: string)

  function KindOf(line: string): Kind {
    if Trim(line) == "" then Blank
    else if BulletOf(line).Some? then Bullet(BulletOf(line).value)
    else Plain(Trim(line))
  }

  // ---------------------------------------------------------------------------------------------
  // Blocks: neighbouring lines of one kind belong together
  // ---------------------------------------------------------------------------------------------

  /** One line more, after blocks the last of which `open` says can still grow. */
  function Extended(blocks: seq<Block>, before: Kind, line: Kind): seq<Block> {
    match line
    case Blank => blocks
    case Bullet(item) =>
      if before.Bullet? && blocks != [] && blocks[|blocks| - 1].Items? then
        blocks[..|blocks| - 1] + [Items(blocks[|blocks| - 1].items + [item])]
      else blocks + [Items([item])]
    case Plain(text) =>
      if before.Plain? && blocks != [] && blocks[|blocks| - 1].Paragraph? then
        blocks[..|blocks| - 1] + [Paragraph(blocks[|blocks| - 1].text + " " + text)]
      else blocks + [Paragraph(text)]
  }

  function LastKind(kinds: seq<Kind>): Kind {
    if kinds == [] then Blank else kinds[|kinds| - 1]
  }

  function Grouped(kinds: seq<Kind>): seq<Block> {
    if kinds == [] then []
    else
      var front := kinds[..|kinds| - 1];
      Extended(Grouped(front), LastKind(front), kinds[|kinds| - 1])
  }

  function KindsOf(lines: seq<string>): (r: seq<Kind>)
    ensures |r| == |lines|
    ensures forall i :: 0 <= i < |lines| ==> r[i] == KindOf(lines[i])
  {
    seq(|lines|, i requires 0 <= i < |lines| => KindOf(lines[i]))
  }

  function Parse(answer: string): seq<Block> {
    Grouped(KindsOf(LinesOf(answer)))
  }

  // ---------------------------------------------------------------------------------------------
  // The loop over the lines, with its two buffers
  // ---------------------------------------------------------------------------------------------

  function WithParagraph(blocks: seq<Block>, paragraph: seq<string>): seq<Block> {
    if paragraph == [] then blocks else blocks + [Paragraph(Join(paragraph, " "))]
  }

  function WithItems(blocks: seq<Block>, items: seq<string>): seq<Block> {
    if items == [] then blocks else blocks + [Items(items)]
  }

  class Buffers {
    var blocks: seq<Block>
    var paragraph: seq<string>
    var items: seq<string>

    constructor ()
      ensures blocks == [] && paragraph == [] && items == []
    {
      blocks, paragraph, items := [], [], [];
    }

    method FlushParagraph()
      modifies this`blocks, this`paragraph
      ensures paragraph == [] && blocks == WithParagraph(old(blocks), old(paragraph))
    {
      if paragraph != [] {
        blocks := blocks + [Paragraph(Join(paragraph, " "))];
      }
      paragraph := [];
    }

    method FlushList()
      modifies this`blocks, this`items
      ensures items == [] && blocks == WithItems(old(blocks), old(items))
    {
      if items != [] {
        blocks := blocks + [Items(items)];
      }
      items := [];
    }
  }

  /** The buffers hold what is grouped so far; only the one of the latest line's kind is open. */
  ghost predicate Holds(blocks: seq<Block>, paragraph: seq<string>, items: seq<string>, kinds: seq<Kind>) {
    && (paragraph != [] <==> LastKind(kinds).Plain?)
    && (items != [] <==> LastKind(kinds).Bullet?)
    && Grouped(kinds) == WithItems(WithParagraph(blocks, paragraph), items)
  }

  lemma HoldsAtFirst(none: seq<Kind>)
    requires none == []
    ensures Holds([], [], [], none)
  {
  }

  lemma HoldsAtLast(blocks: seq<Block>, paragraph: seq<string>, items: seq<string>, kinds: seq<Kind>)
    requires Holds(blocks, paragraph, items, kinds)
    ensures WithItems(WithParagraph(blocks, paragraph), items) == Grouped(kinds)
  {
  }

  lemma HoldsOneMore(blocks: seq<Block>, paragraph: seq<string>, items: seq<string>, kinds: seq<Kind>, line: Kind)
    requires Holds(blocks, paragraph, items, kinds)
    ensures line.Blank? ==> Holds(WithItems(WithParagraph(blocks, paragraph), items), [], [], kinds + [line])
    ensures line.Bullet? ==> Holds(WithParagraph(blocks, paragraph), [], items + [line.item], kinds + [line])
    ensures line.Plain? ==> Holds(WithItems(blocks, items), paragraph + [line.text], [], kinds + [line])
  {
    var longer := kinds + [line];
    assert longer[..|longer| - 1] == kinds;
    match line
    case Blank =>
    case Bullet(item) =>
      if items != [] {
        assert Grouped(kinds) == blocks + [Items(items)];
        assert Grouped(kinds)[..|Grouped(kinds)| - 1] == blocks;
      } else {
        assert items + [item] == [item];
      }
    case Plain(text) =>
      if paragraph != [] {
        assert Grouped(kinds)[..|Grouped(kinds)| - 1] == blocks;
        assert (paragraph + [text])[..|paragraph|] == paragraph;
      }
  }

  /** The loop of the original computes exactly the grouping of the lines. */
  method AnswerBlocksOf(answer: string) returns (blocks: seq<Block>)
    ensures blocks == Parse(answer)
  {
    hide Trim;
    hide BulletOf;
    hide LinesOf;
    hide Join;
    hide Grouped;
    hide Holds;
    hide WithItems;
    hide WithParagraph;
    var lines := LinesOf(answer);
    var buffers := new Buffers();
    ghost var kinds := KindsOf(lines);
    HoldsAtFirst(kinds[..0]);
    for k := 0 to |lines|
      invariant fresh(buffers)
      invariant Holds(buffers.blocks, buffers.paragraph, buffers.items, kinds[..k])
    {
      var line := Trim(lines[k]);
      HoldsOneMore(buffers.blocks, buffers.paragraph, buffers.items, kinds[..k], kinds[k]);
      assert kinds[..k + 1] == kinds[..k] + [kinds[k]];
      if line == "" {
        buffers.FlushParagraph();
        buffers.FlushList();
      } else {
        var bullet := BulletOf(lines[k]);
        if bullet.Some? {
          buffers.FlushParagraph();
          buffers.items := buffers.items + [bullet.value];
        } else {
          buffers.FlushList();
          buffers.paragraph := buffers.paragraph + [line];
        }
      }
    }
    assert kinds[..|lines|] == kinds;
    HoldsAtLast(buffers.blocks, buffers.paragraph, buffers.items, kinds);
    buffers.FlushParagraph();
    buffers.FlushList();
    blocks := buffers.blocks;
  }
}
