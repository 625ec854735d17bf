/** A whole file worked through: an `#AREA` header whose credits line
    carries text after the credits' `~`, then `#$`. */
module AreaSample {
  import opened Lexer
  import opened AreaFile

  /** `#AREA\nmyfile~\nMy Area~\n`, the range 1 to 100 in braces with two
      spaces before each end, `writer~credits~\n1 100\n#$`, in the pieces a
      header is written out in. */
  const SampleText: string := "#AREA\nmyfile~\nMy Area~" + ("\n" + [LeftBrace] + "  1  100" + [RightBrace] + ("writer~credits~" + "\n1 100\n")) + "#$"

  /** The header the sample holds: the credits end at the first `~` after
      the writer, so they are empty, and `credits~` is the rest of their
      line. */
  const SampleHeader: AreaHeader := AreaHeader("myfile", "My Area", "1", "100", "writer", "", "1", "100")

  const SampleLayout: AreaLayout := AreaLayout(2, 2, 0, 0, 0, "credits~")

  /** The sample's lines, piece by piece. */
  lemma SamplePieces()
    ensures AreaNames(SampleHeader) == "#AREA\nmyfile~\nMy Area~"
    ensures RangeText(SampleHeader, SampleLayout) == "\n" + [LeftBrace] + "  1  100" + [RightBrace]
    ensures CreditsText(SampleHeader, SampleLayout) == "writer~credits~"
    ensures LimitsText(SampleHeader) == "\n1 100\n"
  {
    assert Spaces(2) == "  " && Spaces(0) == "";
  }

  /** The sample is the header written out in its layout, then `#$`. */
  lemma SampleIsWritten()
    ensures Writable(SampleHeader, SampleLayout)
    ensures |AreaLine(SampleHeader, SampleLayout)| == 55 && |SampleText| == 57
    ensures At(SampleText, 0, AreaLine(SampleHeader, SampleLayout))
  {
    SamplePieces();
    var line := AreaLine(SampleHeader, SampleLayout);
    assert SampleText == line + "#$";
    assert SampleText[0..|line|] == line;
  }

  /** The header is read up to the newline before `#$`. */
  lemma SampleHeaderRead()
    ensures AreaSection(SampleText, 0) == Ok(SampleHeader, 54)
  {
    SampleIsWritten();
    AreaReadsBack(SampleText, 0, SampleHeader, SampleLayout, 54);
  }

  /** After the newline before `#$` stands `#$`. */
  lemma SampleEnd()
    ensures Skip(SampleText, 54) == 55 && SampleText[56] == '$'
    ensures Lit(SampleText, 54, "#$").Ok?
  {
    SampleIsWritten();
    assert AllWhitespace("\n");
    assert SampleText[54..57] == "\n" + "#$";
    SkipReads(SampleText, 54, "\n", "#$");
    assert SampleText[55..57] == "#$";
  }

  /** The sample's sections are the header alone, and they stop before
      `#$`. */
  lemma SampleSections()
    ensures Sections(SampleText) == Parsed([HeaderSection(SampleHeader)], 54)
  {
    SampleHeaderRead();
    assert Alternatives[0] == AreaAlternative;
    assert Alternatives[0](SampleText, 0) == Ok(HeaderSection(SampleHeader), 54);
    assert SectionItem(SampleText, 0) == Ok([HeaderSection(SampleHeader)], 54);
    SampleEnd();
    NoSectionAtEnd(SampleText, 54);
    SectionItemProgressive(SampleText);
    ManyOnce(SampleText, 0, SectionItem, [HeaderSection(SampleHeader)], 54);
  }

  /** The sample has no tab, so tab expansion leaves it as it is. */
  lemma SampleExpanded()
    ensures ExpandTabs(SampleText) == SampleText
  {
    assert '\t' !in SampleText;
  }

  /** The sample's sections, followed by `#$`. */
  lemma SampleParsed()
    ensures ParseSections(SampleText) == Some([HeaderSection(SampleHeader)])
  {
    SampleSections();
    SampleEnd();
  }

  /** A header alone makes a document with the header under `area`. */
  lemma HeaderDocument(h: AreaHeader)
    ensures Assemble([HeaderSection(h)]) == map["area" := HeaderSection(h)]
  {
    IndexByKind(HeaderSection(h));
    var secs := [HeaderSection(h)];
    assert secs[..0] == [];
  }

  /** The sample converts to a document holding the header under `area`. */
  lemma SampleDocument()
    ensures ParseFile(SampleText) == Some(map["area" := HeaderSection(SampleHeader)])
  {
    SampleExpanded();
    SampleParsed();
    HeaderDocument(SampleHeader);
  }
}
