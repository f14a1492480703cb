/**
 * The PPTX extractor: "Slide n:" for each slide, counting from 1, then the
 * stripped non-empty paragraphs of its shapes that have a text frame.
 * Opening the presentation is a parameter (its slides, or the message of
 * the exception it raised).
 */
module ParsePptx {
  import opened Wrappers
  import opened Text
  import opened Seqs

  /** A shape: the texts of its text frame's paragraphs, or None when it has no text frame. */
  datatype Shape = Shape(textFrame: Option<seq<string>>)

  datatype Slide = Slide(shapes: seq<Shape>)

  /** The stripped paragraphs that are not blank, in order. */
  function ParagraphLines(paragraphs: seq<string>): seq<string>
  {
    if paragraphs == [] then []
    else
      var last := paragraphs[|paragraphs| - 1];
      ParagraphLines(paragraphs[..|paragraphs| - 1]) + (if AllSpace(last) then [] else [Strip(last)])
  }

  /** The lines of the shapes with a text frame, in order. */
  function ShapeLines(shapes: seq<Shape>): seq<string>
  {
    if shapes == [] then []
    else
      var last := shapes[|shapes| - 1];
      ShapeLines(shapes[..|shapes| - 1]) + (if last.textFrame.Some? then ParagraphLines(last.textFrame.value) else [])
  }

  function Header(n: nat): string
  {
    "Slide " + NatToString(n) + ":"
  }

  /** The lines of the slides, the last one numbered by its 1-based position. */
  function DeckLines(slides: seq<Slide>): seq<string>
  {
    if slides == [] then []
    else DeckLines(slides[..|slides| - 1]) + [Header(|slides|)] + ShapeLines(slides[|slides| - 1].shapes)
  }

  /** extract_text_from_pptx */
  function ExtractPptx(deck: Result<seq<Slide>>): (r: string)
    ensures deck.Err? ==> StartsWith(r, "Error reading PPTX: ") && r[|"Error reading PPTX: "|..] == deck.message
  {
    match deck
    case Ok(slides) => Strip(Join(DeckLines(slides), "\n"))
    case Err(e) => "Error reading PPTX: " + e
  }

  /** The shapes and paragraphs that contribute: `if shape.has_text_frame`, `if text`. */
  predicate HasFrame(shape: Shape)
  {
    shape.textFrame.Some?
  }

  predicate NotBlank(paragraph: string)
  {
    !AllSpace(paragraph)
  }

  /** Paragraph lines are the stripped non-blank paragraphs, in order. */
  lemma {:induction false} ParagraphLinesAreKept(paragraphs: seq<string>)
    ensures |ParagraphLines(paragraphs)| == |Filter(paragraphs, NotBlank)|
    ensures forall i :: 0 <= i < |ParagraphLines(paragraphs)| ==>
      ParagraphLines(paragraphs)[i] == Strip(Filter(paragraphs, NotBlank)[i])
  {
    if paragraphs != [] {
      var init, last := paragraphs[..|paragraphs| - 1], paragraphs[|paragraphs| - 1];
      ParagraphLinesAreKept(init);
      assert Filter(paragraphs, NotBlank) == Filter(init, NotBlank) + (if NotBlank(last) then [last] else []);
      assert ParagraphLines(paragraphs) == ParagraphLines(init) + (if AllSpace(last) then [] else [Strip(last)]);
    }
  }

  /** No paragraph line is empty or has whitespace at either end. */
  lemma {:induction false} ParagraphLinesStripped(paragraphs: seq<string>)
    ensures forall i :: 0 <= i < |ParagraphLines(paragraphs)| ==> Stripped(ParagraphLines(paragraphs)[i])
  {
    if paragraphs != [] {
      var init, last := paragraphs[..|paragraphs| - 1], paragraphs[|paragraphs| - 1];
      ParagraphLinesStripped(init);
      var lines, front := ParagraphLines(paragraphs), ParagraphLines(init);
      if AllSpace(last) {
        assert lines == front;
      } else {
        var l := Strip(last);
        assert lines == front + [l];
        StripNonBlank(last);
        assert forall i :: 0 <= i < |front| ==> lines[i] == front[i];
      }
    }
  }

  /** Shapes without a text frame contribute nothing. */
  lemma {:induction false} FramelessShapesIgnored(shapes: seq<Shape>)
    ensures ShapeLines(shapes) == ShapeLines(Filter(shapes, HasFrame))
  {
    if shapes != [] {
      var init, last := shapes[..|shapes| - 1], shapes[|shapes| - 1];
      FramelessShapesIgnored(init);
      var kept := Filter(shapes, HasFrame);
      assert kept == Filter(init, HasFrame) + (if HasFrame(last) then [last] else []);
      if HasFrame(last) {
        assert kept[..|kept| - 1] == Filter(init, HasFrame);
      } else {
        assert kept == Filter(init, HasFrame);
      }
    }
  }

  /** Earlier slides' lines are a prefix of the whole deck's. */
  lemma {:induction false} DeckPrefix(slides: seq<Slide>, i: nat)
    requires i <= |slides|
    ensures |DeckLines(slides[..i])| <= |DeckLines(slides)|
    ensures DeckLines(slides)[..|DeckLines(slides[..i])|] == DeckLines(slides[..i])
    decreases |slides| - i
  {
    if i == |slides| {
      assert slides[..i] == slides;
    } else {
      DeckPrefix(slides, i + 1);
      assert slides[..i + 1][..i] == slides[..i];
      var a, b := DeckLines(slides[..i]), DeckLines(slides[..i + 1]);
      assert b[..|a|] == a;
      assert DeckLines(slides)[..|a|] == DeckLines(slides)[..|b|][..|a|];
    }
  }

  /** Slide i (0-based) is announced as "Slide i+1:" right after the earlier slides' lines, and then its text follows. */
  lemma SlideBlock(slides: seq<Slide>, i: nat)
    requires i < |slides|
    ensures var before := |DeckLines(slides[..i])|;
      var body := ShapeLines(slides[i].shapes);
      && before + 1 + |body| <= |DeckLines(slides)|
      && DeckLines(slides)[before] == Header(i + 1)
      && DeckLines(slides)[before + 1..before + 1 + |body|] == body
  {
    DeckPrefix(slides, i + 1);
    assert slides[..i + 1][..i] == slides[..i];
    var b := DeckLines(slides[..i + 1]);
    assert DeckLines(slides)[..|b|] == b;
  }

  /** The paragraphs of one text frame, as the innermost loop collects them. */
  method ReadParagraphs(paragraphs: seq<string>) returns (lines: seq<string>)
    ensures lines == ParagraphLines(paragraphs)
  {
    lines := [];
    for i := 0 to |paragraphs|
      invariant lines == ParagraphLines(paragraphs[..i])
    {
      assert paragraphs[..i + 1][..i] == paragraphs[..i];
      var text := Strip(paragraphs[i]);
      if text != "" {
        lines := lines + [text];
      }
    }
    assert paragraphs[..|paragraphs|] == paragraphs;
  }

  /** The shapes of one slide. */
  method ReadShapes(shapes: seq<Shape>) returns (lines: seq<string>)
    ensures lines == ShapeLines(shapes)
  {
    lines := [];
    for i := 0 to |shapes|
      invariant lines == ShapeLines(shapes[..i])
    {
      assert shapes[..i + 1][..i] == shapes[..i];
      if shapes[i].textFrame.Some? {
        var more := ReadParagraphs(shapes[i].textFrame.value);
        lines := lines + more;
      }
    }
    assert shapes[..|shapes|] == shapes;
  }

  /** extract_text_from_pptx as the source runs it: the loop over slides appending to `lines`. */
  method ExtractPptxText(deck: Result<seq<Slide>>) returns (text: string)
    ensures text == ExtractPptx(deck)
  {
    if deck.Err? {
      return "Error reading PPTX: " + deck.message;
    }
    var slides := deck.value;
    var lines: seq<string> := [];
    for i := 0 to |slides|
      invariant lines == DeckLines(slides[..i])
    {
      assert slides[..i + 1][..i] == slides[..i];
      var more := ReadShapes(slides[i].shapes);
      lines := lines + ["Slide " + NatToString(i + 1) + ":"] + more;
    }
    assert slides[..|slides|] == slides;
    text := Strip(Join(lines, "\n"));
  }
}
