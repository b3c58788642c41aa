/**
 * The reply renderer of `components/AIResponse.js`: a reply text is cut into
 * paragraphs at blank lines ("\n\n"), and each paragraph becomes one block,
 * a header, a bulleted list or a verbatim paragraph. The markup around the
 * blocks is not modelled; the block sequence is what the component shows.
 */
module AiResponse {
  import opened JsString

  /** One rendered block: an `<h2>`, a `<ul>` of `<li>` items, or a `<p>`. */
  datatype Block =
    | Header(text: string)
    | List(items: seq<string>)
    | Paragraph(text: string)

  const ParagraphBreak: string := "\n\n"
  const HeaderMarker: string := "# "

  /** A paragraph that starts with "- " or "* " is rendered as a list. */
  predicate IsListParagraph(para: string)
  {
    StartsWith(para, "- ") || StartsWith(para, "* ")
  }

  /** A list paragraph opens with a dash or an asterisk and then a space. */
  lemma ListParagraphIff(para: string)
    ensures IsListParagraph(para) <==>
      2 <= |para| && (para[0] == '-' || para[0] == '*') && para[1] == ' '
  {
    if 2 <= |para| {
      assert para[..2] == [para[0], para[1]];
    }
  }

  /** The bullet a list line starts with ("- " or "* "), or "" when it has none. */
  function MarkerOf(line: string): (m: string)
    ensures m == "" || m == "- " || m == "* "
    ensures StartsWith(line, m)
    ensures m == "" <==> !(StartsWith(line, "- ") || StartsWith(line, "* "))
  {
    if StartsWith(line, "- ") then "- "
    else if StartsWith(line, "* ") then "* "
    else ""
  }

  /** A list line without its bullet: at most one leading bullet is removed. */
  function StripListMarker(line: string): (item: string)
    ensures MarkerOf(line) + item == line
  {
    if StartsWith(line, "- ") || StartsWith(line, "* ") then line[2..] else line
  }

  /** Every line of a list paragraph without its bullet, line by line. */
  function StripListMarkers(lines: seq<string>): (items: seq<string>)
    ensures |items| == |lines|
    ensures forall i :: 0 <= i < |lines| ==> MarkerOf(lines[i]) + items[i] == lines[i]
    decreases |lines|
  {
    if lines == [] then []
    else [StripListMarker(lines[0])] + StripListMarkers(lines[1..])
  }

  /**
   * The relation between a paragraph and the block that shows it, stated
   * independently of the classifier: a header is the paragraph after its
   * "# ", a list has one item per line of the paragraph, each line being its
   * item behind at most one bullet, and a plain paragraph is the text itself.
   */
  ghost predicate Shows(para: string, b: Block)
  {
    match b
    case Header(h) => para == HeaderMarker + h
    case List(items) =>
      && !StartsWith(para, HeaderMarker) && IsListParagraph(para)
      && var lines := Split(para, "\n");
         |items| == |lines|
         && forall i :: 0 <= i < |lines| ==> MarkerOf(lines[i]) + items[i] == lines[i]
    case Paragraph(p) =>
      p == para && !StartsWith(para, HeaderMarker) && !IsListParagraph(para)
  }

  /**
   * The per-paragraph choice: the header test comes first, then the list
   * test, and anything else is a plain paragraph.
   */
  function Classify(para: string): (b: Block)
    ensures b.Header? <==> StartsWith(para, HeaderMarker)
    ensures b.List? <==> !StartsWith(para, HeaderMarker) && IsListParagraph(para)
    ensures b.Paragraph? <==> !StartsWith(para, HeaderMarker) && !IsListParagraph(para)
    ensures Shows(para, b)
  {
    if StartsWith(para, HeaderMarker) then Header(ReplaceFirst(para, HeaderMarker, ""))
    else if IsListParagraph(para) then List(StripListMarkers(Split(para, "\n")))
    else Paragraph(para)
  }

  /** A paragraph is shown by one block only, so the classification is exact. */
  lemma ShowsUnique(para: string, b1: Block, b2: Block)
    requires Shows(para, b1) && Shows(para, b2)
    ensures b1 == b2
  {
    match b1
    case Header(h1) =>
      assert StartsWith(para, HeaderMarker);
      assert b1.text == para[2..];
    case List(items1) =>
      var lines := Split(para, "\n");
      var items2 := b2.items;
      assert |items1| == |items2|;
      forall i | 0 <= i < |lines| ensures items1[i] == items2[i] {
        var m := MarkerOf(lines[i]);
        assert items1[i] == lines[i][|m|..];
        assert items2[i] == lines[i][|m|..];
      }
    case Paragraph(p) =>
  }

  /** The text cut at every blank line: the pieces join back to the text and are cut at the first blank line each time. */
  function Paragraphs(text: string): (paras: seq<string>)
    ensures |paras| >= 1
    ensures Join(paras, ParagraphBreak) == text
    ensures LeftmostPieces(paras, ParagraphBreak)
  {
    SplitJoin(text, ParagraphBreak);
    SplitLeftmost(text, ParagraphBreak);
    Split(text, ParagraphBreak)
  }

  /** One block per paragraph, in order. */
  function ClassifyAll(paras: seq<string>): (blocks: seq<Block>)
    ensures |blocks| == |paras|
    ensures forall i :: 0 <= i < |paras| ==> Shows(paras[i], blocks[i])
    decreases |paras|
  {
    if paras == [] then []
    else [Classify(paras[0])] + ClassifyAll(paras[1..])
  }

  /**
   * The whole component: no output for the empty text (the guard on a
   * falsy text), otherwise one block per paragraph, in order.
   */
  function Render(text: string): (blocks: seq<Block>)
    ensures blocks == [] <==> text == ""
    ensures text != "" ==>
      && |blocks| == |Paragraphs(text)|
      && forall i :: 0 <= i < |blocks| ==> Shows(Paragraphs(text)[i], blocks[i])
  {
    if text == "" then [] else ClassifyAll(Paragraphs(text))
  }

  /**
   * Reading the blocks back: each block of a rendered text is the one block
   * that shows its paragraph, and the paragraphs join back to the text.
   */
  lemma RenderFaithful(text: string, blocks: seq<Block>)
    requires text != ""
    requires |blocks| == |Paragraphs(text)|
    requires forall i :: 0 <= i < |blocks| ==> Shows(Paragraphs(text)[i], blocks[i])
    ensures blocks == Render(text)
    ensures Join(Paragraphs(text), ParagraphBreak) == text
  {
    var paras := Paragraphs(text);
    var r := Render(text);
    forall i | 0 <= i < |blocks| ensures blocks[i] == r[i] {
      ShowsUnique(paras[i], blocks[i], r[i]);
    }
  }

  /** Without the emptiness guard the empty text would still show one empty paragraph. */
  lemma EmptyGuardMatters()
    ensures ClassifyAll(Paragraphs("")) == [Paragraph("")]
    ensures Render("") == []
  {
    assert Split("", ParagraphBreak) == [""];
  }

}
