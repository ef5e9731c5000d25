/**
 * What the Orchestrator reads out of a parsed Markdown document: the headings
 * in document order, each with its level, its first inline child and the
 * plain text `TextContentRenderer` makes of it. The commonmark parser and
 * renderer themselves are not modelled; a parsed document is given as this
 * value.
 */
module Markdown {
  import opened Wrappers

  /** The first child node of a heading: a `Text` node with its literal, another inline node, or none. */
  datatype Inline = TextNode(literal: string) | OtherInline | NoChild

  datatype Heading = Heading(level: int, firstChild: Inline, rendered: string)

  /** A parsed document: its headings in the order the visitor meets them, and its rendered plain text. */
  datatype Parsed = Parsed(headings: seq<Heading>, text: string)

  const H1Level: int := 1

  /** A heading that can give the title: level 1 with a `Text` node first. */
  predicate GivesTitle(h: Heading) {
    h.level == H1Level && h.firstChild.TextNode?
  }

  /** One `visit(Heading)` on the title seen so far. */
  function VisitStep(title: Option<string>, h: Heading): (r: Option<string>)
  {
    if h.level == H1Level && title.None? then
      match h.firstChild
      case TextNode(literal) => Some(literal)
      case _ => title
    else title
  }

  /**
   * A title once set never changes; headings of other levels and level-1
   * headings without a leading `Text` node leave it as it was; the first
   * level-1 heading with a `Text` node sets it to that node's literal.
   */
  lemma VisitStepMeans(title: Option<string>, h: Heading)
    ensures title.Some? ==> VisitStep(title, h) == title
    ensures !GivesTitle(h) ==> VisitStep(title, h) == title
    ensures title.None? && GivesTitle(h) ==> VisitStep(title, h) == Some(h.firstChild.literal)
  {
  }

  /** The title after visiting `hs` from a fresh visitor. */
  function FirstH1Text(hs: seq<Heading>): Option<string>
    decreases |hs|
  {
    if hs == [] then None else VisitStep(FirstH1Text(hs[..|hs| - 1]), hs[|hs| - 1])
  }

  /**
   * The title is the literal of the first heading that can give one, and
   * there is none exactly when no heading can.
   */
  lemma {:induction false} FirstH1TextMeans(hs: seq<Heading>)
    ensures FirstH1Text(hs).None? <==> forall i :: 0 <= i < |hs| ==> !GivesTitle(hs[i])
    ensures FirstH1Text(hs).Some? ==>
      exists i :: 0 <= i < |hs| && GivesTitle(hs[i]) && FirstH1Text(hs) == Some(hs[i].firstChild.literal) &&
        forall j :: 0 <= j < i ==> !GivesTitle(hs[j])
    decreases |hs|
  {
    if hs != [] {
      var init := hs[..|hs| - 1];
      var last := |hs| - 1;
      FirstH1TextMeans(init);
      assert forall i :: 0 <= i < |init| ==> init[i] == hs[i];
      if FirstH1Text(init).Some? {
        var i :| 0 <= i < |init| && GivesTitle(init[i]) && FirstH1Text(init) == Some(init[i].firstChild.literal) &&
          forall j :: 0 <= j < i ==> !GivesTitle(init[j]);
        assert GivesTitle(hs[i]);
      } else if GivesTitle(hs[last]) {
        assert FirstH1Text(hs) == Some(hs[last].firstChild.literal);
      }
    }
  }

  /** `TitleExtractionVisitor`: the title starts unset and is fixed by the first usable level-1 heading. */
  class TitleExtractionVisitor {
    var title: Option<string>

    constructor ()
      ensures title == None
    {
      title := None;
    }

    /** `visit(Heading)`. */
    method Visit(heading: Heading)
      modifies this
      ensures title == VisitStep(old(title), heading)
    {
      if heading.level == H1Level && title == None {
        var child := heading.firstChild;
        if child.TextNode? {
          title := Some(child.literal);
        }
      }
    }
  }

  /**
   * `extractTitleFromMarkdown`: a fresh visitor walks the headings of the
   * parsed document and its title is read back.
   */
  method ExtractTitle(doc: Parsed) returns (title: Option<string>)
    ensures title == FirstH1Text(doc.headings)
  {
    var visitor := new TitleExtractionVisitor();
    var hs := doc.headings;
    var i := 0;
    while i < |hs|
      invariant 0 <= i <= |hs|
      invariant visitor.title == FirstH1Text(hs[..i])
    {
      assert hs[..i + 1][..i] == hs[..i];
      visitor.Visit(hs[i]);
      i := i + 1;
    }
    assert hs[..|hs|] == hs;
    title := visitor.title;
  }

  /**
   * The older pipeline's anonymous visitor: the title starts as the file
   * name and every level-1 heading replaces it with the heading's rendered
   * text for as long as it still equals the file name.
   */
  function LegacyTitleStep(title: string, fileName: string, h: Heading): string {
    if h.level == H1Level && title == fileName then h.rendered else title
  }

  function LegacyTitle(hs: seq<Heading>, fileName: string): string
    decreases |hs|
  {
    if hs == [] then fileName else LegacyTitleStep(LegacyTitle(hs[..|hs| - 1], fileName), fileName, hs[|hs| - 1])
  }

  /** A level-1 heading whose rendered text differs from the file name. */
  predicate Renames(h: Heading, fileName: string) {
    h.level == H1Level && h.rendered != fileName
  }

  /** Without a level-1 heading that differs from the file name, the older title is the file name. */
  lemma {:induction false} LegacyTitleKeepsName(hs: seq<Heading>, fileName: string)
    requires forall i :: 0 <= i < |hs| ==> !Renames(hs[i], fileName)
    ensures LegacyTitle(hs, fileName) == fileName
    decreases |hs|
  {
    if hs != [] {
      LegacyTitleKeepsName(hs[..|hs| - 1], fileName);
      assert !Renames(hs[|hs| - 1], fileName);
    }
  }

  /**
   * The older title is the rendered text of the first level-1 heading that
   * differs from the file name; a level-1 heading whose text equals the file
   * name does not stop a later one from taking over.
   */
  lemma {:induction false} LegacyTitleMeans(hs: seq<Heading>, fileName: string, i: int)
    requires 0 <= i < |hs| && Renames(hs[i], fileName)
    requires forall j :: 0 <= j < i ==> !Renames(hs[j], fileName)
    ensures LegacyTitle(hs, fileName) == hs[i].rendered
    decreases |hs|
  {
    var init := hs[..|hs| - 1];
    if i == |hs| - 1 {
      assert forall j :: 0 <= j < |init| ==> !Renames(init[j], fileName) by {
        forall j | 0 <= j < |init| ensures !Renames(init[j], fileName) {
          assert init[j] == hs[j];
        }
      }
      LegacyTitleKeepsName(init, fileName);
    } else {
      assert init[i] == hs[i];
      assert forall j :: 0 <= j < i ==> !Renames(init[j], fileName) by {
        forall j | 0 <= j < i ensures !Renames(init[j], fileName) {
          assert init[j] == hs[j];
        }
      }
      LegacyTitleMeans(init, fileName, i);
    }
  }

  /** The older pipeline's visitor run over the headings, with the title held in a one-element array. */
  method LegacyExtractTitle(doc: Parsed, fileName: string) returns (title: string)
    ensures title == LegacyTitle(doc.headings, fileName)
  {
    var cell := new string[1];
    cell[0] := fileName;
    var hs := doc.headings;
    var i := 0;
    while i < |hs|
      invariant 0 <= i <= |hs|
      invariant cell[0] == LegacyTitle(hs[..i], fileName)
    {
      assert hs[..i + 1][..i] == hs[..i];
      if hs[i].level == H1Level && cell[0] == fileName {
        cell[0] := hs[i].rendered;
      }
      i := i + 1;
    }
    assert hs[..|hs|] == hs;
    title := cell[0];
  }
}
