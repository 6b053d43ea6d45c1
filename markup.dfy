/**
  The light markup of summaries and how the two exporters read it:
  `create_pdf_from_text` classifies every line, `create_docx_from_text`
  classifies lines only when the text contains `##` anywhere and otherwise
  copies the non-blank lines as plain paragraphs. Fonts, colours, page
  layout and the document bytes are outside the model; a document is the
  sequence of its blocks.
*/
module Markup {
  import opened Text
  import opened Services

  /** One block of an exported document. */
  datatype Block =
    | Title(caption: string)   // the document title
    | Dated                    // the "generated on" line; the clock reading is not modelled
    | Spacer(height: nat)      // vertical space, in points (PDF only)
    | Empty                    // an empty paragraph (DOCX only)
    | Heading(text: string)    // a `## ` line
    | SubHeading(text: string) // a `### ` line
    | Bold(text: string)       // a `**...**` line
    | Normal(text: string)     // any other line

  const DefaultTitle := "Resumo da Consulta"

  /** The clipboard emoji and space the PDF puts before its title. */
  const TitleIcon := "\U{1F4CB} "

  const BlankLineSpace: nat := 6

  /** Whether `b` is one of the four kinds a text line can become. */
  predicate IsLineBlock(b: Block) {
    b.Heading? || b.SubHeading? || b.Bold? || b.Normal?
  }

  // ---------------------------------------------------------------- PDF

  /** `**...**` after stripping: starts and ends with a double asterisk (the two may overlap). */
  predicate Starred(l: string) {
    StartsWith(l, "**") && EndsWith(l, "**")
  }

  /** How the PDF exporter renders one line of the text: classified after stripping. */
  function PdfBlock(line: string): (b: Block)
    ensures b.Spacer? || IsLineBlock(b)
    ensures IsLineBlock(b) ==> Trimmed(b.text)
    ensures b.Normal? ==> b.text != []
  {
    PdfLine(Strip(line))
  }

  /** The PDF classification of a line already stripped: markers are tested in this order. */
  function PdfLine(l: string): (b: Block)
    ensures b.Spacer? || IsLineBlock(b)
    ensures b.Normal? ==> b.text != []
    ensures Trimmed(l) && IsLineBlock(b) ==> Trimmed(b.text)
  {
    if l == [] then Spacer(BlankLineSpace)
    else if StartsWith(l, "## ") then Heading(Strip(l[3..]))
    else if StartsWith(l, "### ") then SubHeading(Strip(l[4..]))
    else if Starred(l) then Bold(Strip(Inner2(l)))
    else Normal(l)
  }

  /** The blocks of the lines, in order. */
  function PdfBlocks(lines: seq<string>): (bs: seq<Block>)
    ensures |bs| == |lines|
  {
    if lines == [] then [] else PdfBlocks(lines[..|lines| - 1]) + [PdfBlock(lines[|lines| - 1])]
  }

  /** The blocks of one more line: its block appended. */
  lemma PdfBlocksSnoc(lines: seq<string>, i: nat)
    requires i < |lines|
    ensures PdfBlocks(lines[..i + 1]) == PdfBlocks(lines[..i]) + [PdfBlock(lines[i])]
  {
    assert lines[..i + 1][..i] == lines[..i];
  }

  /** One more line of the loop adds the block of its stripped text to the story. */
  lemma PdfStoryStep(head: seq<Block>, lines: seq<string>, i: nat)
    requires i < |lines|
    ensures head + PdfBlocks(lines[..i + 1]) == head + PdfBlocks(lines[..i]) + [PdfLine(Strip(lines[i]))]
  {
    PdfBlocksSnoc(lines, i);
    AppendAssoc(head, PdfBlocks(lines[..i]), [PdfBlock(lines[i])]);
  }

  /** The blocks before the text: the title with its icon, a 12 pt space, the date, a 20 pt space. */
  function PdfHead(title: string): seq<Block> {
    [Title(TitleIcon + title), Spacer(12), Dated, Spacer(20)]
  }

  /** The story of the PDF made from `text`. */
  function PdfStory(text: string, title: string): seq<Block> {
    PdfHead(title) + PdfBlocks(Split(text, '\n'))
  }

  /** The `i`-th block of the lines is the `i`-th line's block. */
  lemma {:induction false} PdfBlocksAt(lines: seq<string>, i: nat)
    requires i < |lines|
    ensures PdfBlocks(lines)[i] == PdfBlock(lines[i])
    decreases |lines|
  {
    if i < |lines| - 1 {
      PdfBlocksAt(lines[..|lines| - 1], i);
    }
  }

  /** The head followed by the lines' blocks: one block per line, in order. */
  lemma PdfHeadAndBlocks(lines: seq<string>, title: string)
    ensures var story := PdfHead(title) + PdfBlocks(lines);
      && |story| == 4 + |lines|
      && story[..4] == PdfHead(title)
      && forall i :: 0 <= i < |lines| ==> story[4 + i] == PdfBlock(lines[i])
  {
    forall i | 0 <= i < |lines|
      ensures (PdfHead(title) + PdfBlocks(lines))[4 + i] == PdfBlock(lines[i])
    {
      PdfBlocksAt(lines, i);
    }
  }

  /**
    The story is the fixed head followed by exactly one block per line of
    the text, in the order of the lines.
  */
  lemma PdfStoryShape(text: string, title: string)
    ensures var story, lines := PdfStory(text, title), Split(text, '\n');
      && |story| == 4 + |lines|
      && story[..4] == PdfHead(title)
      && forall i :: 0 <= i < |lines| ==> story[4 + i] == PdfBlock(lines[i])
  {
    PdfHeadAndBlocks(Split(text, '\n'), title);
  }

  /** A line becomes a spacer exactly when it is blank. */
  lemma PdfSpacerIffBlank(line: string)
    ensures PdfBlock(line).Spacer? <==> AllSpace(line)
  {
    StripEmptyIffAllSpace(line);
  }

  /** Only the stripped line matters: surrounding whitespace never changes a block. */
  lemma PdfBlockIgnoresMargins(line: string)
    ensures PdfBlock(line) == PdfBlock(Strip(line))
  {
    StripIdempotent(line);
  }

  /** A line that strips to a bare `##` or `###` marker is ordinary text. */
  lemma BareHeaderIsText(line: string)
    requires Strip(line) == "##" || Strip(line) == "###"
    ensures PdfBlock(line) == Normal(Strip(line))
  {
    if Strip(line) == "##" {
      DiffersAt("##", "**", 0);
    } else {
      DiffersAt("###", "## ", 2);
      DiffersAt("###", "**", 0);
    }
  }

  /** The line `## `, a header marker with nothing after it, is the text `##`. */
  lemma HeaderMarkerAlone()
    ensures PdfBlock("## ") == Normal("##")
  {
    StripTrailingSpace("##");
    BareHeaderIsText("## ");
  }

  /** A line that strips to `**` or `***` is bold, the markers overlapping, with empty text. */
  lemma BareStarsAreEmptyBold(line: string)
    requires Strip(line) == "**" || Strip(line) == "***"
    ensures PdfBlock(line) == Bold("")
  {
    if Strip(line) == "**" {
      TwoStars();
    } else {
      ThreeStars();
    }
  }

  lemma TwoStars()
    ensures PdfLine("**") == Bold("")
  {
    StripTrimmed("");
    assert Starred("**");
  }

  lemma ThreeStars()
    ensures PdfLine("***") == Bold("")
  {
    StripTrimmed("");
    DiffersAt("***", "## ", 0);
    assert "***"[..2] == "**" && "***"[1..] == "**";
    assert Starred("***");
  }

  /** The line `**` is an empty bold line. */
  lemma StarsAlone()
    ensures PdfBlock("**") == Bold("")
  {
    StripTrimmed("**");
    BareStarsAreEmptyBold("**");
  }

  /** A trimmed line followed by one space strips back to that line. */
  lemma StripTrailingSpace(l: string)
    requires l != [] && Trimmed(l)
    ensures Strip(l + " ") == l
  {
    var s := l + " ";
    LStripTrimmedLeft(s);
    assert s[..|s| - 1] == l;
    RStripTrimmedRight(l);
  }

  /** The markup line that stands for a line block. */
  function Markdown(b: Block): (line: string)
    requires IsLineBlock(b)
  {
    match b
    case Heading(t) => "## " + t
    case SubHeading(t) => "### " + t
    case Bold(t) => "**" + t + "**"
    case Normal(t) => t
  }

  /** The line blocks the PDF classifier can produce. */
  predicate WellFormed(b: Block) {
    match b
    case Heading(t) => t != [] && Trimmed(t)
    case SubHeading(t) => t != [] && Trimmed(t)
    case Bold(t) => Trimmed(t)
    case Normal(t) => t != [] && Trimmed(t) && !StartsWith(t, "## ") && !StartsWith(t, "### ") && !Starred(t)
    case _ => false
  }

  /** A non-empty stripped line is classified into a well-formed block. */
  lemma PdfLineWellFormed(l: string)
    requires l != [] && Trimmed(l)
    ensures WellFormed(PdfLine(l))
  {
    if StartsWith(l, "## ") {
      // the space of the marker cannot end a trimmed line, so text follows it
      assert l[2] == ' ';
      var rest := l[3..];
      assert rest[|rest| - 1] == l[|l| - 1];
      StripEmptyIffAllSpace(rest);
    } else if StartsWith(l, "### ") {
      assert l[3] == ' ';
      var rest := l[4..];
      assert rest[|rest| - 1] == l[|l| - 1];
      StripEmptyIffAllSpace(rest);
    }
  }

  /** Every non-blank line is classified into a well-formed block. */
  lemma PdfBlockWellFormed(line: string)
    requires !AllSpace(line)
    ensures WellFormed(PdfBlock(line))
  {
    StripEmptyIffAllSpace(line);
    PdfLineWellFormed(Strip(line));
  }

  /** The markup of a well-formed block is a trimmed, non-blank line. */
  lemma MarkdownTrimmed(b: Block)
    requires WellFormed(b)
    ensures Markdown(b) != [] && Trimmed(Markdown(b))
  {
    var line := Markdown(b);
    if b.Heading? || b.SubHeading? {
      assert line[|line| - 1] == b.text[|b.text| - 1];
    } else if b.Bold? {
      assert line[0] == '*' && line[|line| - 1] == '*';
    }
  }

  /**
    Writing a well-formed block back as markup and classifying the line
    gives the block back: the classifier loses nothing of the markup it
    recognises.
  */
  lemma PdfBlockMarkdown(b: Block)
    requires WellFormed(b)
    ensures PdfBlock(Markdown(b)) == b
  {
    var line := Markdown(b);
    MarkdownTrimmed(b);
    StripTrimmed(line);
    assert PdfBlock(line) == PdfLine(line);
    PdfLineMarkdown(b);
  }

  lemma PdfLineMarkdown(b: Block)
    requires WellFormed(b)
    ensures PdfLine(Markdown(b)) == b
  {
    StripTrimmed(b.text);
    match b {
      case Heading(t) => HeadingMarkdown(t);
      case SubHeading(t) => SubHeadingMarkdown(t);
      case Bold(t) => BoldMarkdown(t);
      case Normal(t) =>
    }
  }

  lemma HeadingMarkdown(t: string)
    requires t != [] && Strip(t) == t
    ensures PdfLine("## " + t) == Heading(t)
  {
    assert ("## " + t)[3..] == t;
  }

  lemma SubHeadingMarkdown(t: string)
    requires t != [] && Strip(t) == t
    ensures PdfLine("### " + t) == SubHeading(t)
  {
    var line := "### " + t;
    DiffersAt(line, "## ", 2);
    assert line[4..] == t;
  }

  lemma BoldMarkdown(t: string)
    requires Strip(t) == t
    ensures PdfLine("**" + t + "**") == Bold(t)
  {
    var line := "**" + t + "**";
    DiffersAt(line, "## ", 0);
    DiffersAt(line, "### ", 0);
    assert Starred(line) by {
      assert line[..2] == "**";
      assert line[|line| - 2..] == "**";
    }
    assert Inner2(line) == t by {
      assert line[2..|line| - 2] == t;
    }
  }

  /** One stripped line of the PDF loop: its block appended to the story. */
  method AppendPdfLine(story: seq<Block>, line: string) returns (next: seq<Block>)
    ensures next == story + [PdfLine(line)]
  {
    if line == [] {
      next := story + [Spacer(BlankLineSpace)];
    } else if StartsWith(line, "## ") {
      next := story + [Heading(Strip(line[3..]))];
    } else if StartsWith(line, "### ") {
      next := story + [SubHeading(Strip(line[4..]))];
    } else if StartsWith(line, "**") && EndsWith(line, "**") {
      next := story + [Bold(Strip(Inner2(line)))];
    } else {
      next := story + [Normal(line)];
    }
  }

  /** The loop of `create_pdf_from_text`: each line stripped and classified, one block appended per line. */
  method AppendPdfLines(head: seq<Block>, lines: seq<string>) returns (story: seq<Block>)
    ensures story == head + PdfBlocks(lines)
  {
    story := head;
    assert lines[..0] == [];
    var i := 0;
    while i < |lines|
      invariant i <= |lines|
      invariant story == head + PdfBlocks(lines[..i])
      decreases |lines| - i
    {
      PdfStoryStep(head, lines, i);
      story := AppendPdfLine(story, Strip(lines[i]));
      assert story == head + PdfBlocks(lines[..i + 1]);
      i := i + 1;
    }
    assert lines[..i] == lines;
  }

  /** `create_pdf_from_text`: the head blocks, then the blocks of the lines of the text. */
  method CreatePdfStory(text: string, title: string) returns (story: seq<Block>)
    ensures story == PdfStory(text, title)
  {
    var head := [Title(TitleIcon + title), Spacer(12), Dated, Spacer(20)];
    var lines := Split(text, '\n');
    story := AppendPdfLines(head, lines);
  }

  // ---------------------------------------------------------------- DOCX

  /** In markup mode: a stripped line's paragraph, none for a blank line; header and bold text are not re-stripped. */
  function DocxMarkupBlock(line: string): Option<Block> {
    DocxLine(Strip(line))
  }

  /** The DOCX classification of a line already stripped. */
  function DocxLine(l: string): Option<Block> {
    if StartsWith(l, "## ") then Some(Heading(l[3..]))
    else if StartsWith(l, "### ") then Some(SubHeading(l[4..]))
    else if Starred(l) then Some(Bold(Inner2(l)))
    else if l != [] then Some(Normal(l))
    else None
  }

  /** In plain mode: the line itself, unstripped, unless it is blank. */
  function DocxPlainBlock(line: string): Option<Block> {
    if AllSpace(line) then None else Some(Normal(line))
  }

  /** The paragraph a line becomes in the given mode, if any. */
  function DocxBlock(line: string, markup: bool): Option<Block> {
    if markup then DocxMarkupBlock(line) else DocxPlainBlock(line)
  }

  /** The paragraphs a line adds: one or none. */
  function Added(o: Option<Block>): (bs: seq<Block>)
    ensures |bs| <= 1
  {
    match o
    case Some(b) => [b]
    case None => []
  }

  /** The paragraphs of the lines, in order. */
  function DocxBlocks(lines: seq<string>, markup: bool): seq<Block> {
    if lines == [] then []
    else DocxBlocks(lines[..|lines| - 1], markup) + Added(DocxBlock(lines[|lines| - 1], markup))
  }

  /** Markup mode is chosen when `##` occurs anywhere in the text. */
  function DocxBody(text: string): seq<Block> {
    DocxBlocks(Split(text, '\n'), Contains(text, "##"))
  }

  /** The paragraphs of the DOCX made from `text`: title, date, an empty paragraph, then the body. */
  function DocxStory(text: string, title: string): seq<Block> {
    [Title(title), Dated, Empty] + DocxBody(text)
  }

  /** How many of the lines are not blank. */
  function NonBlank(lines: seq<string>): (n: nat)
    ensures n <= |lines|
  {
    if lines == [] then 0 else NonBlank(lines[..|lines| - 1]) + (if AllSpace(lines[|lines| - 1]) then 0 else 1)
  }

  /** A stripped line gives a paragraph in markup mode exactly when it is not empty. */
  lemma DocxLineSome(l: string)
    ensures DocxLine(l).Some? <==> l != []
  {
  }

  /** Exactly the blank lines are dropped, in either mode. */
  lemma DocxBlockIffNonBlank(line: string, markup: bool)
    ensures DocxBlock(line, markup).Some? <==> !AllSpace(line)
  {
    StripEmptyIffAllSpace(line);
    DocxLineSome(Strip(line));
  }

  /** The body has one paragraph per non-blank line, in either mode. */
  lemma {:induction false} DocxBlocksCount(lines: seq<string>, markup: bool)
    ensures |DocxBlocks(lines, markup)| == NonBlank(lines)
    decreases |lines|
  {
    if lines != [] {
      DocxBlocksCount(lines[..|lines| - 1], markup);
      DocxBlockIffNonBlank(lines[|lines| - 1], markup);
    }
  }

  /** In plain mode every paragraph is one of the lines, kept exactly as it was. */
  lemma {:induction false} DocxPlainKeepsLines(lines: seq<string>)
    ensures forall b :: b in DocxBlocks(lines, false) ==> b.Normal? && b.text in lines && !AllSpace(b.text)
    decreases |lines|
  {
    if lines != [] {
      var front := lines[..|lines| - 1];
      DocxPlainKeepsLines(front);
      forall b | b in DocxBlocks(lines, false)
        ensures b.Normal? && b.text in lines && !AllSpace(b.text)
      {
        if b in DocxBlocks(front, false) {
          assert b.text in front;
        }
      }
    }
  }

  /** The text between the markers, with its surrounding whitespace put back as the DOCX exporter keeps it. */
  function Restrip(b: Block): Block {
    match b
    case Heading(t) => Heading(Strip(t))
    case SubHeading(t) => SubHeading(Strip(t))
    case Bold(t) => Bold(Strip(t))
    case _ => b
  }

  /** On a non-empty stripped line the two classifiers agree up to stripping the text after the marker. */
  lemma DocxLineAgrees(l: string)
    requires l != []
    ensures DocxLine(l).Some? && Restrip(DocxLine(l).value) == PdfLine(l)
  {
  }

  /**
    In markup mode the DOCX exporter classifies every non-blank line as the
    PDF exporter does; the two differ only in that the PDF strips the text
    after the marker again.
  */
  lemma DocxAgreesWithPdf(line: string)
    requires !AllSpace(line)
    ensures DocxMarkupBlock(line).Some?
    ensures Restrip(DocxMarkupBlock(line).value) == PdfBlock(line)
  {
    StripEmptyIffAllSpace(line);
    DocxLineAgrees(Strip(line));
  }

  /**
    A one-line text without `##` is copied as it is, whatever markers it
    carries: a `**bold**` line, which the PDF renders in bold, stays plain
    text in the DOCX.
  */
  lemma PlainModeKeepsMarkers(line: string)
    requires '\n' !in line && !Contains(line, "##") && !AllSpace(line)
    ensures DocxBody(line) == [Normal(line)]
  {
    SplitNoSep(line, '\n');
    assert [line][..0] == [];
    assert DocxPlainBlock(line) == Some(Normal(line));
    assert DocxBlocks([line], false) == [] + Added(Some(Normal(line)));
  }

  /** A python-docx document: the paragraphs added so far, in order. */
  class Document {
    var blocks: seq<Block>

    constructor ()
      ensures blocks == []
    {
      blocks := [];
    }

    /** `add_heading` or `add_paragraph`: one more paragraph at the end. */
    method Add(b: Block)
      modifies this
      ensures blocks == old(blocks) + [b]
    {
      blocks := blocks + [b];
    }
  }

  /** One pass of the markup-mode loop on a stripped line: the paragraph it calls for, if any, is added. */
  method AddMarkupLine(doc: Document, line: string)
    modifies doc
    ensures doc.blocks == old(doc.blocks) + Added(DocxLine(line))
  {
    if StartsWith(line, "## ") {
      doc.Add(Heading(line[3..]));
    } else if StartsWith(line, "### ") {
      doc.Add(SubHeading(line[4..]));
    } else if StartsWith(line, "**") && EndsWith(line, "**") {
      doc.Add(Bold(Inner2(line)));
    } else if line != [] {
      doc.Add(Normal(line));
    }
  }

  /** One more line of a DOCX loop adds its paragraph, if any, after those of the lines before it. */
  lemma DocxStep(prefix: seq<Block>, lines: seq<string>, i: nat, markup: bool)
    requires i < |lines|
    ensures prefix + DocxBlocks(lines[..i + 1], markup)
         == prefix + DocxBlocks(lines[..i], markup) + Added(DocxBlock(lines[i], markup))
  {
    assert lines[..i + 1][..i] == lines[..i];
    AppendAssoc(prefix, DocxBlocks(lines[..i], markup), Added(DocxBlock(lines[i], markup)));
  }

  /** In plain mode a line adds itself exactly when its stripped text is not empty. */
  lemma PlainAdded(line: string)
    ensures Added(DocxBlock(line, false)) == if Strip(line) != [] then [Normal(line)] else []
  {
    StripEmptyIffAllSpace(line);
  }

  /** The markup-mode loop: every line stripped and, unless blank, added as its paragraph. */
  method AddMarkupLines(doc: Document, lines: seq<string>)
    modifies doc
    ensures doc.blocks == old(doc.blocks) + DocxBlocks(lines, true)
  {
    var i := 0;
    while i < |lines|
      invariant i <= |lines|
      invariant doc.blocks == old(doc.blocks) + DocxBlocks(lines[..i], true)
      decreases |lines| - i
    {
      DocxStep(old(doc.blocks), lines, i, true);
      AddMarkupLine(doc, Strip(lines[i]));
      i := i + 1;
    }
    assert lines[..i] == lines;
  }

  /** The plain-mode loop: every line that is not blank added unchanged. */
  method AddPlainLines(doc: Document, lines: seq<string>)
    modifies doc
    ensures doc.blocks == old(doc.blocks) + DocxBlocks(lines, false)
  {
    var i := 0;
    while i < |lines|
      invariant i <= |lines|
      invariant doc.blocks == old(doc.blocks) + DocxBlocks(lines[..i], false)
      decreases |lines| - i
    {
      DocxStep(old(doc.blocks), lines, i, false);
      PlainAdded(lines[i]);
      if Strip(lines[i]) != [] {
        doc.Add(Normal(lines[i]));
      }
      i := i + 1;
    }
    assert lines[..i] == lines;
  }

  /** `create_docx_from_text`: title, date and an empty paragraph, then the body in the mode the text calls for. */
  method CreateDocx(text: string, title: string) returns (doc: Document)
    ensures fresh(doc) && doc.blocks == DocxStory(text, title)
  {
    doc := new Document();
    doc.Add(Title(title));
    doc.Add(Dated);
    doc.Add(Empty);
    if Contains(text, "##") {
      AddMarkupLines(doc, Split(text, '\n'));
    } else {
      AddPlainLines(doc, Split(text, '\n'));
    }
  }
}
