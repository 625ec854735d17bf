/** The `#AREA` header, the two single-field sections (`#RESETMESSAGE`,
    `#FLAG`), the section dispatcher and the assembled document.

    A file is any number of sections, in any order, followed by `#$`;
    whatever follows `#$` is not read. If the sections cannot be followed by
    `#$` there is no document. */
module AreaFile {
  import opened Lexer
  import opened Blocks
  import opened Rooms
  import opened Objects
  import opened Mobiles
  import opened FlatSections

  datatype AreaHeader = AreaHeader(
    file: string, name: string, lowRange: string, highRange: string,
    writer: string, credits: string, minVnum: string, maxVnum: string)

  /** The braces around the vnum range of the `#AREA` header. */
  const LeftBrace: char := 123 as char
  const RightBrace: char := 125 as char

  /** A left brace, spaces, digits, as one combined token: the low end of
      the range. */
  function LowRange(s: string, p: nat): (r: Res<string>)
    requires p <= |s|
    ensures r.Ok? <==> Skip(s, p) < |s| && s[Skip(s, p)] == LeftBrace &&
                       SpanEnd(s, Skip(s, p) + 1, Blank) < |s| && IsDigit(s[SpanEnd(s, Skip(s, p) + 1, Blank)])
    ensures r.Ok? ==> p < r.next <= |s| && |r.value| > 0
    ensures r.Ok? ==> forall i :: 0 <= i < |r.value| ==> IsDigit(r.value[i])
    ensures r.Ok? ==> Skip(s, p) < r.next - |r.value| && (forall i :: Skip(s, p) < i < r.next - |r.value| ==> s[i] == ' ')
    ensures r.Ok? ==> r.value == s[r.next - |r.value| .. r.next] && (r.next == |s| || !IsDigit(s[r.next]))
  {
    var q := Skip(s, p);
    if q < |s| && s[q] == LeftBrace then
      var b := SpanEnd(s, q + 1, Blank);
      var d := SpanEnd(s, b, Nums);
      if d == b then Fail else Ok(s[b..d], d)
    else Fail
  }

  /** Digits, spaces, a right brace, as one combined token: the high end of
      the range. */
  function HighRange(s: string, p: nat): (r: Res<string>)
    requires p <= |s|
    ensures r.Ok? <==> Skip(s, p) < |s| && IsDigit(s[Skip(s, p)]) &&
                       SpanEnd(s, SpanEnd(s, Skip(s, p), Nums), Blank) < |s| &&
                       s[SpanEnd(s, SpanEnd(s, Skip(s, p), Nums), Blank)] == RightBrace
    ensures r.Ok? ==> p < r.next <= |s| && s[r.next - 1] == RightBrace && |r.value| > 0
    ensures r.Ok? ==> forall i :: 0 <= i < |r.value| ==> IsDigit(r.value[i])
    ensures r.Ok? ==> Skip(s, p) + |r.value| < r.next && r.value == s[Skip(s, p)..Skip(s, p) + |r.value|]
    ensures r.Ok? ==> forall i :: Skip(s, p) + |r.value| <= i < r.next - 1 ==> s[i] == ' '
  {
    var q := Skip(s, p);
    var d := SpanEnd(s, q, Nums);
    if d == q then Fail else
    var b := SpanEnd(s, d, Blank);
    if b < |s| && s[b] == RightBrace then Ok(s[q..d], b + 1) else Fail
  }

  /** `#AREA`, file name and area name (each ending its line), then the
      rest of the header. */
  function AreaSection(s: string, p: nat): (r: Res<AreaHeader>)
    requires p <= |s|
    ensures r.Ok? ==> Lit(s, p, "#AREA").Ok? && p < r.next <= |s|
    ensures r.Ok? ==> r.next == |s| || s[r.next] == '\n'
  {
    var tag :- Lit(s, p, "#AREA");
    var file :- TildeString(s, tag.next);
    var name :- TildeString(s, LineEnd(s, file.next));
    AreaRanges(s, LineEnd(s, name.next), file.value, name.value)
  }

  /** The range in braces, the writer, the credits (ending its line), and
      the lowest and highest vnum (ending the line), after the file and area
      names. */
  function AreaRanges(s: string, p: nat, file: string, name: string): (r: Res<AreaHeader>)
    requires p <= |s|
    ensures r.Ok? ==> p < r.next <= |s| && r.value.file == file && r.value.name == name
    ensures r.Ok? ==> r.next == |s| || s[r.next] == '\n'
  {
    var low :- LowRange(s, p);
    var high :- HighRange(s, low.next);
    var writer :- WordOf(s, high.next, Alnums);
    var credits :- TildeString(s, writer.next);
    var limits :- Row(s, LineEnd(s, credits.next), [Nums, Nums]);
    Ok(AreaHeader(file, name, low.value, high.value, writer.value, credits.value,
                  limits.value[0], limits.value[1]),
       limits.next)
  }

  /** How a header is laid out on its lines where the grammar allows a
      choice: the spaces after the left brace, between the two ends of the range,
      before the right brace, before the writer and before the credits, and what
      follows the credits' `~` on their line. */
  datatype AreaLayout = AreaLayout(lowPad: nat, midPad: nat, highPad: nat, writerPad: nat, creditsPad: nat, trailer: string)

  /** A header that its written-out form reads back as. */
  predicate Writable(h: AreaHeader, l: AreaLayout) {
    TildeText(h.file) && TildeText(h.name) && IsWord(h.lowRange, Nums) && IsWord(h.highRange, Nums)
    && l.midPad > 0 && IsWord(h.writer, Alnums) && TildeText(h.credits)
    && (l.creditsPad > 0 || h.credits == [] || !IsAlnum(h.credits[0]))
    && '\n' !in l.trailer && Fits(h.minVnum, Nums) && Fits(h.maxVnum, Nums)
  }

  /** `#AREA`, the file name and the area name, each name on its line and
      closed by `~`. */
  function AreaNames(h: AreaHeader): string {
    "#AREA\n" + h.file + "~\n" + h.name + "~"
  }

  /** The range in braces, on the next line. */
  function RangeText(h: AreaHeader, l: AreaLayout): string {
    "\n" + [LeftBrace] + Spaces(l.lowPad) + h.lowRange + Spaces(l.midPad) + h.highRange + Spaces(l.highPad) + [RightBrace]
  }

  /** The writer and the credits after the range, then the trailer. */
  function CreditsText(h: AreaHeader, l: AreaLayout): string {
    Spaces(l.writerPad) + h.writer + Spaces(l.creditsPad) + h.credits + "~" + l.trailer
  }

  /** The vnum limits on the next line, then a newline. */
  function LimitsText(h: AreaHeader): string {
    "\n" + h.minVnum + " " + h.maxVnum + "\n"
  }

  /** A header written out. */
  function AreaLine(h: AreaHeader, l: AreaLayout): string {
    AreaNames(h) + (RangeText(h, l) + (CreditsText(h, l) + LimitsText(h)))
  }

  /** Reading back a written-out header gives that header, whatever its
      layout; it ends before its last newline. */
  lemma AreaReadsBack(s: string, p: nat, h: AreaHeader, l: AreaLayout, e: nat)
    requires Writable(h, l) && At(s, p, AreaLine(h, l)) && e == p + |AreaLine(h, l)| - 1
    ensures AreaSection(s, p) == Ok(h, e)
  {
    var e2 := p + |AreaNames(h)|;
    var e4 := e2 + |RangeText(h, l)|;
    var e7 := e4 + |CreditsText(h, l)|;
    AreaLineParts(s, p, h, l, e2, e4, e7);
    var e1 := p + 7 + |h.file|;
    var e3 := e2 + 2 + l.lowPad + |h.lowRange|;
    var e5 := e4 + l.writerPad + |h.writer|;
    var e6 := e5 + l.creditsPad + |h.credits| + 1;
    AreaLengths(h, l, p, e1, e2, e3, e4, e5, e6, e7, e);
    AreaNamesRead(s, p, h, e1, e2);
    LowRead(s, e2, h, l, e3);
    HighRead(s, e3, h, l, e4);
    CreditsRead(s, e4, h, l, e5, e6, e7);
    LimitsRead(s, e7, h, e);
    AreaSectionReads(s, p, h, e1, e2, e3, e4, e5, e6, e7, e);
  }

  /** The four parts of a written-out header, where each starts. */
  lemma AreaLineParts(s: string, p: nat, h: AreaHeader, l: AreaLayout, e2: nat, e4: nat, e7: nat)
    requires At(s, p, AreaLine(h, l))
    requires e2 == p + |AreaNames(h)| && e4 == e2 + |RangeText(h, l)| && e7 == e4 + |CreditsText(h, l)|
    ensures At(s, p, AreaNames(h)) && At(s, e2, RangeText(h, l))
    ensures At(s, e4, CreditsText(h, l)) && At(s, e7, LimitsText(h))
    ensures e2 < |s| && s[e2] == '\n' && e7 < |s| && s[e7] == '\n'
  {
    AtParts(s, p, AreaNames(h), RangeText(h, l) + (CreditsText(h, l) + LimitsText(h)), e2);
    AtParts(s, e2, RangeText(h, l), CreditsText(h, l) + LimitsText(h), e4);
    AtParts(s, e4, CreditsText(h, l), LimitsText(h), e7);
    AtFirst(s, e2, RangeText(h, l));
    AtFirst(s, e7, LimitsText(h));
  }

  /** Where each token of a written-out header ends. */
  lemma AreaLengths(h: AreaHeader, l: AreaLayout, p: nat, e1: nat, e2: nat, e3: nat, e4: nat, e5: nat, e6: nat, e7: nat, e: nat)
    requires e1 == p + 7 + |h.file| && e2 == p + |AreaNames(h)| && e3 == e2 + 2 + l.lowPad + |h.lowRange|
    requires e4 == e2 + |RangeText(h, l)| && e5 == e4 + l.writerPad + |h.writer|
    requires e6 == e5 + l.creditsPad + |h.credits| + 1 && e7 == e4 + |CreditsText(h, l)|
    requires e == p + |AreaLine(h, l)| - 1
    ensures e2 == e1 + |h.name| + 2
    ensures e4 == e3 + l.midPad + |h.highRange| + l.highPad + 1
    ensures e7 == e6 + |l.trailer|
    ensures e == e7 + |h.minVnum| + |h.maxVnum| + 2
  {
  }

  /** `#AREA`, the file name and the area name of a written-out header. */
  lemma AreaNamesRead(s: string, p: nat, h: AreaHeader, e1: nat, e2: nat)
    requires TildeText(h.file) && TildeText(h.name) && At(s, p, AreaNames(h))
    requires e1 == p + 7 + |h.file| && e2 == e1 + |h.name| + 2 && e2 < |s| && s[e2] == '\n'
    ensures p <= |s| && Lit(s, p, "#AREA") == Ok((), p + 5) && p + 5 <= |s|
    ensures TildeString(s, p + 5) == Ok(h.file, e1) && e1 <= |s| && LineEnd(s, e1) == e1
    ensures TildeString(s, e1) == Ok(h.name, e2) && e2 <= |s| && LineEnd(s, e2) == e2
  {
    var r1 := "\n" + (h.name + ("~" + ""));
    var r0 := "\n" + (h.file + ("~" + r1));
    assert AreaNames(h) == "" + ("#AREA" + r0);
    assert AllWhitespace("") && AllWhitespace("\n");
    ReadLit(s, p, "", "#AREA", r0, p + 5);
    ReadTilde(s, p + 5, "\n", h.file, r1, e1);
    AtFirst(s, e1, r1);
    LineEndAtNewline(s, e1);
    ReadTilde(s, e1, "\n", h.name, "", e2);
    LineEndAtNewline(s, e2);
  }

  /** The low end of a written-out range. */
  lemma LowRead(s: string, q: nat, h: AreaHeader, l: AreaLayout, d: nat)
    requires IsWord(h.lowRange, Nums) && l.midPad > 0 && At(s, q, RangeText(h, l))
    requires d == q + 2 + l.lowPad + |h.lowRange|
    ensures q <= |s| && LowRange(s, q) == Ok(h.lowRange, d)
    ensures At(s, d, Spaces(l.midPad) + (h.highRange + (Spaces(l.highPad) + [RightBrace])))
  {
    var rest := Spaces(l.midPad) + (h.highRange + (Spaces(l.highPad) + [RightBrace]));
    RangeTextShape(h, l);
    LowTokens(s, q, l.lowPad, h.lowRange, rest, q + 2 + l.lowPad, d);
    LowRangeReads(s, q, q + 2 + l.lowPad, d);
  }

  lemma RangeTextShape(h: AreaHeader, l: AreaLayout)
    ensures RangeText(h, l) == "\n" + ([LeftBrace] + (Spaces(l.lowPad) + (h.lowRange + (Spaces(l.midPad) + (h.highRange + (Spaces(l.highPad) + [RightBrace]))))))
  {
  }

  /** The newline and the left brace that open a written-out low end. */
  lemma LowBrace(s: string, q: nat, tail: string)
    requires At(s, q, "\n" + ([LeftBrace] + tail))
    ensures q + 1 < |s| && Skip(s, q) == q + 1 && s[q + 1] == LeftBrace && At(s, q + 2, tail)
  {
    assert AllWhitespace("\n");
    SkipReads(s, q, "\n", [LeftBrace] + tail);
    AtParts(s, q + 1, [LeftBrace], tail, q + 2);
    AtFirst(s, q + 1, [LeftBrace]);
  }

  /** The spaces and digits of a written-out low end. */
  lemma LowDigits(s: string, c: nat, pad: nat, low: string, rest: string, b: nat, d: nat)
    requires IsWord(low, Nums) && |rest| > 0 && rest[0] == ' '
    requires At(s, c, Spaces(pad) + (low + rest))
    requires b == c + pad && d == b + |low|
    ensures SpanEnd(s, c, Blank) == b && SpanEnd(s, b, Nums) == d && b < d && s[b..d] == low
    ensures At(s, d, rest)
  {
    ReadSpan(s, c, Spaces(pad), Blank, low + rest);
    ReadSpan(s, b, low, Nums, rest);
    AtParts(s, b, low, rest, d);
  }

  /** The tokens of a written-out low end: a newline, a left brace, spaces ending at
      `b`, digits ending at `d`. */
  lemma LowTokens(s: string, q: nat, pad: nat, low: string, rest: string, b: nat, d: nat)
    requires IsWord(low, Nums) && |rest| > 0 && rest[0] == ' '
    requires At(s, q, "\n" + ([LeftBrace] + (Spaces(pad) + (low + rest))))
    requires b == q + 2 + pad && d == b + |low|
    ensures q + 1 < |s| && Skip(s, q) == q + 1 && s[q + 1] == LeftBrace
    ensures SpanEnd(s, q + 2, Blank) == b && SpanEnd(s, b, Nums) == d && b < d && s[b..d] == low
    ensures At(s, d, rest)
  {
    LowBrace(s, q, Spaces(pad) + (low + rest));
    LowDigits(s, q + 2, pad, low, rest, b, d);
  }

  /** A low end whose spaces end at `b` and whose digits end at `d`. */
  lemma LowRangeReads(s: string, q: nat, b: nat, d: nat)
    requires q + 1 < |s| && Skip(s, q) == q + 1 && s[q + 1] == LeftBrace
    requires SpanEnd(s, q + 2, Blank) == b && SpanEnd(s, b, Nums) == d && b < d
    ensures LowRange(s, q) == Ok(s[b..d], d)
  {
  }

  /** A high end whose digits start at `h` and end at `k`, and whose right
      brace stands at `b`. */
  lemma HighRangeReads(s: string, d: nat, h: nat, k: nat, b: nat)
    requires d <= |s| && Skip(s, d) == h && SpanEnd(s, h, Nums) == k && h < k
    requires SpanEnd(s, k, Blank) == b && b < |s| && s[b] == RightBrace
    ensures HighRange(s, d) == Ok(s[h..k], b + 1)
  {
  }

  /** The high end of a written-out range, up to its right brace. */
  lemma HighRead(s: string, d: nat, h: AreaHeader, l: AreaLayout, e: nat)
    requires IsWord(h.lowRange, Nums) && IsWord(h.highRange, Nums) && l.midPad > 0
    requires At(s, d, Spaces(l.midPad) + (h.highRange + (Spaces(l.highPad) + [RightBrace])))
    requires e == d + l.midPad + |h.highRange| + l.highPad + 1
    ensures d <= |s| && HighRange(s, d) == Ok(h.highRange, e)
  {
    var k := d + l.midPad + |h.highRange|;
    HighTokens(s, d, l.midPad, h.highRange, l.highPad, k);
    HighRangeReads(s, d, d + l.midPad, k, k + l.highPad);
  }

  /** The tokens of a written-out high end: spaces, digits ending at `k`,
      spaces, a right brace. */
  lemma HighTokens(s: string, d: nat, mid: nat, high: string, pad: nat, k: nat)
    requires IsWord(high, Nums) && mid > 0
    requires At(s, d, Spaces(mid) + (high + (Spaces(pad) + [RightBrace])))
    requires k == d + mid + |high|
    ensures d <= |s| && Skip(s, d) == d + mid && SpanEnd(s, d + mid, Nums) == k && d + mid < k
    ensures s[d + mid..k] == high
    ensures SpanEnd(s, k, Blank) == k + pad && k + pad < |s| && s[k + pad] == RightBrace
  {
    var close := Spaces(pad) + [RightBrace];
    HighDigits(s, d, mid, high, close, k);
    ReadSpan(s, k, Spaces(pad), Blank, [RightBrace]);
    AtFirst(s, k + pad, [RightBrace]);
  }

  /** The spaces and the digits of a written-out high end. */
  lemma HighDigits(s: string, d: nat, mid: nat, high: string, close: string, k: nat)
    requires IsWord(high, Nums) && mid > 0 && |close| > 0 && !IsDigit(close[0])
    requires At(s, d, Spaces(mid) + (high + close)) && k == d + mid + |high|
    ensures d <= |s| && Skip(s, d) == d + mid && SpanEnd(s, d + mid, Nums) == k && d + mid < k
    ensures s[d + mid..k] == high && At(s, k, close)
  {
    var m := d + mid;
    assert Skip(s, d) == m && At(s, m, high + close) by {
      assert AllWhitespace(Spaces(mid)) && (high + close)[0] == high[0];
      SkipReads(s, d, Spaces(mid), high + close);
    }
    assert SpanEnd(s, m, Nums) == k && At(s, k, close) by {
      ReadSpan(s, m, high, Nums, close);
    }
    assert At(s, m, high) by {
      AtParts(s, m, high, close, k);
    }
  }

  /** The writer and the credits of a written-out header, then its
      trailer up to the newline. */
  lemma CreditsRead(s: string, e4: nat, h: AreaHeader, l: AreaLayout, e5: nat, e6: nat, e7: nat)
    requires IsWord(h.writer, Alnums) && TildeText(h.credits) && '\n' !in l.trailer
    requires l.creditsPad > 0 || h.credits == [] || !IsAlnum(h.credits[0])
    requires At(s, e4, CreditsText(h, l)) && e7 < |s| && s[e7] == '\n'
    requires e5 == e4 + l.writerPad + |h.writer| && e6 == e5 + l.creditsPad + |h.credits| + 1
    requires e7 == e6 + |l.trailer|
    ensures e4 <= |s| && WordOf(s, e4, Alnums) == Ok(h.writer, e5) && e5 <= |s|
    ensures TildeString(s, e5) == Ok(h.credits, e6) && e6 <= |s| && LineEnd(s, e6) == e7
  {
    var after := Spaces(l.creditsPad) + (h.credits + ("~" + l.trailer));
    assert CreditsText(h, l) == Spaces(l.writerPad) + (h.writer + after);
    assert AllWhitespace(Spaces(l.writerPad)) && AllWhitespace(Spaces(l.creditsPad));
    assert !InClass(after[0], Alnums) by {
      if l.creditsPad > 0 {
        assert after[0] == ' ';
      } else if h.credits != [] {
        assert after[0] == h.credits[0];
      } else {
        assert after[0] == '~';
      }
    }
    ReadWord(s, e4, Spaces(l.writerPad), h.writer, Alnums, after, e5);
    ReadTilde(s, e5, Spaces(l.creditsPad), h.credits, l.trailer, e6);
    forall i | e6 <= i < e7 ensures InClass(s[i], NotNewline) {
      assert s[i] == l.trailer[i - e6];
    }
    SpanEndIs(s, e6, e7, NotNewline);
  }

  /** The vnum limits of a written-out header, up to the newline. */
  lemma LimitsRead(s: string, e7: nat, h: AreaHeader, e: nat)
    requires Fits(h.minVnum, Nums) && Fits(h.maxVnum, Nums) && At(s, e7, LimitsText(h))
    requires e == e7 + |h.minVnum| + |h.maxVnum| + 2
    ensures e7 <= |s| && Row(s, e7, [Nums, Nums]) == Ok([h.minVnum, h.maxVnum], e)
  {
    var e8 := e7 + 1 + |h.minVnum|;
    var tail := Spaced([h.maxVnum]) + ("" + "\n");
    assert Spaced([h.maxVnum]) == " " + h.maxVnum;
    assert LimitsText(h) == "\n" + (h.minVnum + tail);
    assert AllWhitespace("\n");
    ReadWord(s, e7, "\n", h.minVnum, Nums, tail, e8);
    assert AllFit([h.maxVnum], [Nums]);
    RowReadsBack(s, e8, [h.maxVnum], [Nums], "");
    assert [Nums, Nums][1..] == [Nums];
    assert [h.minVnum, h.maxVnum][1..] == [h.maxVnum];
    RowStep(s, e7, [Nums, Nums], [h.minVnum, h.maxVnum], e8, e);
  }

  /** A header whose tokens are read as given. */
  lemma AreaSectionReads(s: string, p: nat, h: AreaHeader, e1: nat, e2: nat, e3: nat, e4: nat, e5: nat, e6: nat, e7: nat, e: nat)
    requires p <= |s| && Lit(s, p, "#AREA") == Ok((), p + 5) && p + 5 <= |s|
    requires TildeString(s, p + 5) == Ok(h.file, e1) && e1 <= |s| && LineEnd(s, e1) == e1
    requires TildeString(s, e1) == Ok(h.name, e2) && e2 <= |s| && LineEnd(s, e2) == e2
    requires LowRange(s, e2) == Ok(h.lowRange, e3) && e3 <= |s|
    requires HighRange(s, e3) == Ok(h.highRange, e4) && e4 <= |s|
    requires WordOf(s, e4, Alnums) == Ok(h.writer, e5) && e5 <= |s|
    requires TildeString(s, e5) == Ok(h.credits, e6) && e6 <= |s| && LineEnd(s, e6) == e7 && e7 <= |s|
    requires Row(s, e7, [Nums, Nums]) == Ok([h.minVnum, h.maxVnum], e)
    ensures AreaSection(s, p) == Ok(h, e)
  {
    assert AreaRanges(s, e2, h.file, h.name) == Ok(h, e);
  }

  /** `#RESETMESSAGE` and one tilde string. */
  function ResetMessageSection(s: string, p: nat): (r: Res<string>)
    requires p <= |s|
    ensures r.Ok? <==> Lit(s, p, "#RESETMESSAGE").Ok? && '~' in s[Skip(s, Lit(s, p, "#RESETMESSAGE").next)..]
    ensures r.Ok? ==> p < r.next <= |s| && '~' !in r.value && s[r.next - 1] == '~'
    ensures r.Ok? ==> Skip(s, Lit(s, p, "#RESETMESSAGE").next) < r.next &&
                      r.value == s[Skip(s, Lit(s, p, "#RESETMESSAGE").next) .. r.next - 1]
  {
    var tag :- Lit(s, p, "#RESETMESSAGE");
    TildeString(s, tag.next)
  }

  /** `#FLAG` and one word of letters. */
  function AreaFlagSection(s: string, p: nat): (r: Res<string>)
    requires p <= |s|
    ensures r.Ok? <==> Lit(s, p, "#FLAG").Ok? && Skip(s, Lit(s, p, "#FLAG").next) < |s| &&
                       IsAlpha(s[Skip(s, Lit(s, p, "#FLAG").next)])
    ensures r.Ok? ==> p < r.next <= |s| && IsWord(r.value, Alphas)
    ensures r.Ok? ==> Skip(s, Lit(s, p, "#FLAG").next) < r.next &&
                      r.value == s[Skip(s, Lit(s, p, "#FLAG").next) .. r.next] && (r.next == |s| || !IsAlpha(s[r.next]))
  {
    var tag :- Lit(s, p, "#FLAG");
    WordOf(s, tag.next, Alphas)
  }

  datatype Section =
    | HeaderSection(header: AreaHeader)
    | RoomList(rooms: seq<Room>)
    | ObjectList(objects: seq<GameObject>)
    | OldObjectList(oldObjects: seq<OldObject>)
    | MobileList(mobiles: seq<Mobile>)
    | OldMobileList(oldMobiles: seq<OldMobile>)
    | ResetList(resets: seq<ResetCommand>)
    | ShopList(shops: seq<ShopEntry>)
    | OLimitList(olimits: seq<OLimitEntry>)
    | PracticerList(practicers: seq<PracticerEntry>)
    | SpecialList(specials: seq<SpecialEntry>)
    | OmProgList(omprogs: seq<OmProgEntry>)
    | HelpList(helps: seq<HelpEntry>)
    | ResetMessage(message: string)
    | AreaFlag(flag: string)

  /** The position of a section's alternative in the dispatcher. */
  function Index(sec: Section): (i: nat)
    ensures i < SectionCount
  {
    match sec
    case HeaderSection(_) => 0
    case RoomList(_) => 1
    case ObjectList(_) => 2
    case OldObjectList(_) => 3
    case MobileList(_) => 4
    case OldMobileList(_) => 5
    case ResetList(_) => 6
    case ShopList(_) => 7
    case OLimitList(_) => 8
    case PracticerList(_) => 9
    case SpecialList(_) => 10
    case OmProgList(_) => 11
    case HelpList(_) => 12
    case ResetMessage(_) => 13
    case AreaFlag(_) => 14
  }

  /** The name each section is stored under in the document. */
  function Key(sec: Section): string {
    KeyOf(Index(sec))
  }

  /** The number of alternatives of the dispatcher. */
  const SectionCount: nat := 15

  /** The tag that opens the `i`-th alternative of the dispatcher. It
      mirrors the literal each section grammar opens with, and
      AlternativeOpens proves that the two agree. */
  function Tag(i: nat): (t: string)
    requires i < SectionCount
    ensures |t| >= 2 && t[0] == '#' && IsAlpha(t[1])
  {
    match i
    case 0 => "#AREA"
    case 1 => "#ROOMS"
    case 2 => "#OBJECTS"
    case 3 => "#OBJOLD"
    case 4 => "#MOBILES"
    case 5 => "#MOBOLD"
    case 6 => "#RESETS"
    case 7 => "#SHOPS"
    case 8 => "#OLIMITS"
    case 9 => "#PRACTICERS"
    case 10 => "#SPECIALS"
    case 11 => "#OMPROGS"
    case 12 => "#HELPS"
    case 13 => "#RESETMESSAGE"
    case _ => "#FLAG"
  }

  /** The key of the section the `i`-th alternative reads. */
  function KeyOf(i: nat): string
    requires i < SectionCount
  {
    match i
    case 0 => "area"
    case 1 => "rooms"
    case 2 => "objects"
    case 3 => "old_objects"
    case 4 => "mobiles"
    case 5 => "old_mobiles"
    case 6 => "resets"
    case 7 => "shops"
    case 8 => "olimits"
    case 9 => "practicers"
    case 10 => "specials"
    case 11 => "omprogs"
    case 12 => "helps"
    case 13 => "area_reset_message"
    case _ => "area_flag"
  }

  /** The alternative that reads a `#AREA` section. */
  function AreaAlternative(s: string, p: nat): (r: Res<Section>)
    ensures r.Ok? ==> p < r.next <= |s| && Lit(s, p, "#AREA").Ok? && r.value.HeaderSection?
  {
    if p > |s| then Fail
    else
      var a := AreaSection(s, p);
      if a.Ok? then Ok(HeaderSection(a.value), a.next) else Fail
  }

  /** The alternative that reads a `#ROOMS` section. */
  function RoomsAlternative(s: string, p: nat): (r: Res<Section>)
    ensures r.Ok? ==> p < r.next <= |s| && Lit(s, p, "#ROOMS").Ok? && r.value.RoomList?
  {
    if p > |s| then Fail
    else
      var a := RoomsSection(s, p);
      if a.Ok? then Ok(RoomList(a.value), a.next) else Fail
  }

  /** The alternative that reads a `#OBJECTS` section. */
  function ObjectsAlternative(s: string, p: nat): (r: Res<Section>)
    ensures r.Ok? ==> p < r.next <= |s| && Lit(s, p, "#OBJECTS").Ok? && r.value.ObjectList?
  {
    if p > |s| then Fail
    else
      var a := ObjectsSection(s, p);
      if a.Ok? then Ok(ObjectList(a.value), a.next) else Fail
  }

  /** The alternative that reads a `#OBJOLD` section. */
  function OldObjectsAlternative(s: string, p: nat): (r: Res<Section>)
    ensures r.Ok? ==> p < r.next <= |s| && Lit(s, p, "#OBJOLD").Ok? && r.value.OldObjectList?
  {
    if p > |s| then Fail
    else
      var a := OldObjectsSection(s, p);
      if a.Ok? then Ok(OldObjectList(a.value), a.next) else Fail
  }

  /** The alternative that reads a `#MOBILES` section. */
  function MobilesAlternative(s: string, p: nat): (r: Res<Section>)
    ensures r.Ok? ==> p < r.next <= |s| && Lit(s, p, "#MOBILES").Ok? && r.value.MobileList?
  {
    if p > |s| then Fail
    else
      var a := MobilesSection(s, p);
      if a.Ok? then Ok(MobileList(a.value), a.next) else Fail
  }

  /** The alternative that reads a `#MOBOLD` section. */
  function OldMobilesAlternative(s: string, p: nat): (r: Res<Section>)
    ensures r.Ok? ==> p < r.next <= |s| && Lit(s, p, "#MOBOLD").Ok? && r.value.OldMobileList?
  {
    if p > |s| then Fail
    else
      var a := OldMobilesSection(s, p);
      if a.Ok? then Ok(OldMobileList(a.value), a.next) else Fail
  }

  /** The alternative that reads a `#RESETS` section. */
  function ResetsAlternative(s: string, p: nat): (r: Res<Section>)
    ensures r.Ok? ==> p < r.next <= |s| && Lit(s, p, "#RESETS").Ok? && r.value.ResetList?
  {
    if p > |s| then Fail
    else
      var a := ResetsSection(s, p);
      if a.Ok? then Ok(ResetList(a.value), a.next) else Fail
  }

  /** The alternative that reads a `#SHOPS` section. */
  function ShopsAlternative(s: string, p: nat): (r: Res<Section>)
    ensures r.Ok? ==> p < r.next <= |s| && Lit(s, p, "#SHOPS").Ok? && r.value.ShopList?
  {
    if p > |s| then Fail
    else
      var a := ShopsSection(s, p);
      if a.Ok? then Ok(ShopList(a.value), a.next) else Fail
  }

  /** The alternative that reads a `#OLIMITS` section. */
  function OLimitsAlternative(s: string, p: nat): (r: Res<Section>)
    ensures r.Ok? ==> p < r.next <= |s| && Lit(s, p, "#OLIMITS").Ok? && r.value.OLimitList?
  {
    if p > |s| then Fail
    else
      var a := OLimitsSection(s, p);
      if a.Ok? then Ok(OLimitList(a.value), a.next) else Fail
  }

  /** The alternative that reads a `#PRACTICERS` section. */
  function PracticersAlternative(s: string, p: nat): (r: Res<Section>)
    ensures r.Ok? ==> p < r.next <= |s| && Lit(s, p, "#PRACTICERS").Ok? && r.value.PracticerList?
  {
    if p > |s| then Fail
    else
      var a := PracticersSection(s, p);
      if a.Ok? then Ok(PracticerList(a.value), a.next) else Fail
  }

  /** The alternative that reads a `#SPECIALS` section. */
  function SpecialsAlternative(s: string, p: nat): (r: Res<Section>)
    ensures r.Ok? ==> p < r.next <= |s| && Lit(s, p, "#SPECIALS").Ok? && r.value.SpecialList?
  {
    if p > |s| then Fail
    else
      var a := SpecialsSection(s, p);
      if a.Ok? then Ok(SpecialList(a.value), a.next) else Fail
  }

  /** The alternative that reads a `#OMPROGS` section. */
  function OmProgsAlternative(s: string, p: nat): (r: Res<Section>)
    ensures r.Ok? ==> p < r.next <= |s| && Lit(s, p, "#OMPROGS").Ok? && r.value.OmProgList?
  {
    if p > |s| then Fail
    else
      var a := OmProgsSection(s, p);
      if a.Ok? then Ok(OmProgList(a.value), a.next) else Fail
  }

  /** The alternative that reads a `#HELPS` section. */
  function HelpsAlternative(s: string, p: nat): (r: Res<Section>)
    ensures r.Ok? ==> p < r.next <= |s| && Lit(s, p, "#HELPS").Ok? && r.value.HelpList?
  {
    if p > |s| then Fail
    else
      var a := HelpsSection(s, p);
      if a.Ok? then Ok(HelpList(a.value), a.next) else Fail
  }

  /** The alternative that reads a `#RESETMESSAGE` section. */
  function ResetMessageAlternative(s: string, p: nat): (r: Res<Section>)
    ensures r.Ok? ==> p < r.next <= |s| && Lit(s, p, "#RESETMESSAGE").Ok? && r.value.ResetMessage?
  {
    if p > |s| then Fail
    else
      var a := ResetMessageSection(s, p);
      if a.Ok? then Ok(ResetMessage(a.value), a.next) else Fail
  }

  /** The alternative that reads a `#FLAG` section. */
  function AreaFlagAlternative(s: string, p: nat): (r: Res<Section>)
    ensures r.Ok? ==> p < r.next <= |s| && Lit(s, p, "#FLAG").Ok? && r.value.AreaFlag?
  {
    if p > |s| then Fail
    else
      var a := AreaFlagSection(s, p);
      if a.Ok? then Ok(AreaFlag(a.value), a.next) else Fail
  }

  /** A section's position among the alternatives follows from its kind,
      and its key is the key of that position. */
  lemma IndexByKind(sec: Section)
    ensures Index(sec) < SectionCount && Key(sec) == KeyOf(Index(sec))
    ensures sec.HeaderSection? ==> Index(sec) == 0
    ensures sec.RoomList? ==> Index(sec) == 1
    ensures sec.ObjectList? ==> Index(sec) == 2
    ensures sec.OldObjectList? ==> Index(sec) == 3
    ensures sec.MobileList? ==> Index(sec) == 4
    ensures sec.OldMobileList? ==> Index(sec) == 5
    ensures sec.ResetList? ==> Index(sec) == 6
    ensures sec.ShopList? ==> Index(sec) == 7
    ensures sec.OLimitList? ==> Index(sec) == 8
    ensures sec.PracticerList? ==> Index(sec) == 9
    ensures sec.SpecialList? ==> Index(sec) == 10
    ensures sec.OmProgList? ==> Index(sec) == 11
    ensures sec.HelpList? ==> Index(sec) == 12
    ensures sec.ResetMessage? ==> Index(sec) == 13
    ensures sec.AreaFlag? ==> Index(sec) == 14
  {
  }

  /** The dispatcher's alternatives, in the order it tries them: the `i`-th
      reads the section `Tag(i)` opens. */
  const Alternatives: seq<Alternative<Section>> := [
    AreaAlternative, RoomsAlternative, ObjectsAlternative, OldObjectsAlternative, MobilesAlternative,
    OldMobilesAlternative, ResetsAlternative, ShopsAlternative, OLimitsAlternative, PracticersAlternative,
    SpecialsAlternative, OmProgsAlternative, HelpsAlternative, ResetMessageAlternative, AreaFlagAlternative]

  /** A section is read by an alternative only where its tag stands, and it
      goes under the key of that tag. */
  lemma AlternativeTagged(s: string, p: nat, i: nat)
    requires i < SectionCount && Alternatives[i](s, p).Ok?
    ensures p < Alternatives[i](s, p).next <= |s| && Lit(s, p, Tag(i)).Ok?
    ensures Index(Alternatives[i](s, p).value) == i && Key(Alternatives[i](s, p).value) == KeyOf(i)
  {
    AlternativeOpens(s, p, i);
    AlternativeKind(s, p, i);
  }

  /** An alternative that reads a section starts at its tag and moves
      forward. */
  lemma AlternativeOpens(s: string, p: nat, i: nat)
    requires i < SectionCount && Alternatives[i](s, p).Ok?
    ensures p < Alternatives[i](s, p).next <= |s| && Lit(s, p, Tag(i)).Ok?
  {
    if i == 0 {
      assert Alternatives[0] == AreaAlternative;
    } else if i == 1 {
      assert Alternatives[1] == RoomsAlternative;
    } else if i == 2 {
      assert Alternatives[2] == ObjectsAlternative;
    } else if i == 3 {
      assert Alternatives[3] == OldObjectsAlternative;
    } else if i == 4 {
      assert Alternatives[4] == MobilesAlternative;
    } else if i == 5 {
      assert Alternatives[5] == OldMobilesAlternative;
    } else if i == 6 {
      assert Alternatives[6] == ResetsAlternative;
    } else if i == 7 {
      assert Alternatives[7] == ShopsAlternative;
    } else if i == 8 {
      assert Alternatives[8] == OLimitsAlternative;
    } else if i == 9 {
      assert Alternatives[9] == PracticersAlternative;
    } else if i == 10 {
      assert Alternatives[10] == SpecialsAlternative;
    } else if i == 11 {
      assert Alternatives[11] == OmProgsAlternative;
    } else if i == 12 {
      assert Alternatives[12] == HelpsAlternative;
    } else if i == 13 {
      assert Alternatives[13] == ResetMessageAlternative;
    } else {
      assert Alternatives[14] == AreaFlagAlternative;
    }
  }

  /** An alternative yields a section of its own kind. */
  lemma AlternativeKind(s: string, p: nat, i: nat)
    requires i < SectionCount && Alternatives[i](s, p).Ok?
    ensures Index(Alternatives[i](s, p).value) == i && Key(Alternatives[i](s, p).value) == KeyOf(i)
  {
    IndexByKind(Alternatives[i](s, p).value);
    if i < 8 {
      EarlyAlternativeKind(s, p, i);
    } else {
      LateAlternativeKind(s, p, i);
    }
  }

  lemma EarlyAlternativeKind(s: string, p: nat, i: nat)
    requires i < 8 && Alternatives[i](s, p).Ok?
    ensures Index(Alternatives[i](s, p).value) == i
  {
    IndexByKind(Alternatives[i](s, p).value);
    if i == 0 {
      assert Alternatives[0] == AreaAlternative;
    } else if i == 1 {
      assert Alternatives[1] == RoomsAlternative;
    } else if i == 2 {
      assert Alternatives[2] == ObjectsAlternative;
    } else if i == 3 {
      assert Alternatives[3] == OldObjectsAlternative;
    } else if i == 4 {
      assert Alternatives[4] == MobilesAlternative;
    } else if i == 5 {
      assert Alternatives[5] == OldMobilesAlternative;
    } else if i == 6 {
      assert Alternatives[6] == ResetsAlternative;
    } else {
      assert Alternatives[7] == ShopsAlternative;
    }
  }

  lemma LateAlternativeKind(s: string, p: nat, i: nat)
    requires 8 <= i < SectionCount && Alternatives[i](s, p).Ok?
    ensures Index(Alternatives[i](s, p).value) == i
  {
    IndexByKind(Alternatives[i](s, p).value);
    if i == 8 {
      assert Alternatives[8] == OLimitsAlternative;
    } else if i == 9 {
      assert Alternatives[9] == PracticersAlternative;
    } else if i == 10 {
      assert Alternatives[10] == SpecialsAlternative;
    } else if i == 11 {
      assert Alternatives[11] == OmProgsAlternative;
    } else if i == 12 {
      assert Alternatives[12] == HelpsAlternative;
    } else if i == 13 {
      assert Alternatives[13] == ResetMessageAlternative;
    } else {
      assert Alternatives[14] == AreaFlagAlternative;
    }
  }

  /** Every alternative that reads a section moves forward. */
  lemma AlternativesProgress(s: string, p: nat)
    ensures forall j :: 0 <= j < SectionCount && Alternatives[j](s, p).Ok? ==> p < Alternatives[j](s, p).next <= |s|
  {
    forall j | 0 <= j < SectionCount && Alternatives[j](s, p).Ok? ensures p < Alternatives[j](s, p).next <= |s| {
      AlternativeTagged(s, p, j);
    }
  }

  /** One section: the fifteen alternatives are tried in order and the first
      that succeeds is taken. */
  function SectionItem(s: string, p: nat): (r: Res<seq<Section>>)
    requires p <= |s|
    ensures r.Ok? ==> p < r.next <= |s| && |r.value| == 1
    ensures r.Fail? <==> forall j :: 0 <= j < SectionCount ==> Alternatives[j](s, p).Fail?
  {
    AlternativesProgress(s, p);
    match FirstOf(Alternatives, s, p, 0)
    case Ok(sec, next) => Ok([sec], next)
    case Fail => Fail
  }

  /** A section is read only where one of the tags stands, every
      alternative tried before it failed, and it is stored under the key of
      its tag. */
  lemma SectionItemTagged(s: string, p: nat)
    requires p <= |s| && SectionItem(s, p).Ok?
    ensures exists i :: 0 <= i < SectionCount && Lit(s, p, Tag(i)).Ok? && Index(SectionItem(s, p).value[0]) == i &&
              Key(SectionItem(s, p).value[0]) == KeyOf(i) &&
              Alternatives[i](s, p) == Ok(SectionItem(s, p).value[0], SectionItem(s, p).next) &&
              forall k :: 0 <= k < i ==> Alternatives[k](s, p).Fail?
  {
    FirstOfIsFirstMatch(Alternatives, s, p, 0);
    var i :| 0 <= i < SectionCount && Alternatives[i](s, p) == FirstOf(Alternatives, s, p, 0) &&
             forall k :: 0 <= k < i ==> Alternatives[k](s, p).Fail?;
    AlternativeTagged(s, p, i);
  }

  lemma SectionItemProgressive(s: string)
    ensures Progressive(s, SectionItem)
  {
    forall q: nat | q <= |s| ensures SectionItem(s, q).Ok? ==> q < SectionItem(s, q).next <= |s| { }
  }

  /** The run of sections from the start of the file: where it stops, no
      section can be read. */
  function Sections(s: string): (r: Parsed<seq<Section>>)
    ensures r.next <= |s| && SectionItem(s, r.next).Fail?
    ensures Progressive(s, SectionItem) && r == Many(s, 0, SectionItem)
  {
    SectionItemProgressive(s);
    Many(s, 0, SectionItem)
  }

  /** Any number of sections, then `#$`; no sections list without it. */
  function ParseSections(s: string): (r: Option<seq<Section>>)
    ensures r.Some? <==> Lit(s, Sections(s).next, "#$").Ok?
    ensures r.Some? ==> r.value == Sections(s).value
  {
    var sections := Sections(s);
    if Lit(s, sections.next, "#$").Ok? then Some(sections.value) else None
  }

  /** The document: every section under its key. A key that occurs more
      than once keeps its last section. */
  function Assemble(secs: seq<Section>): (doc: map<string, Section>)
    ensures secs == [] ==> doc == map[]
  {
    if secs == [] then map[]
    else Assemble(secs[..|secs| - 1])[Key(secs[|secs| - 1]) := secs[|secs| - 1]]
  }

  /** The document's keys are exactly the keys of the sections read. */
  lemma {:induction false} AssembleKeys(secs: seq<Section>)
    ensures forall k :: k in Assemble(secs) <==> exists i :: 0 <= i < |secs| && Key(secs[i]) == k
  {
    if secs != [] {
      var init := secs[..|secs| - 1];
      AssembleKeys(init);
      assert Assemble(secs) == Assemble(init)[Key(secs[|secs| - 1]) := secs[|secs| - 1]];
      forall k ensures k in Assemble(secs) <==> exists i :: 0 <= i < |secs| && Key(secs[i]) == k {
        if k in Assemble(secs) && k != Key(secs[|secs| - 1]) {
          var i :| 0 <= i < |init| && Key(init[i]) == k;
          assert Key(secs[i]) == k;
        }
        if exists i :: 0 <= i < |secs| && Key(secs[i]) == k {
          var i :| 0 <= i < |secs| && Key(secs[i]) == k;
          if i < |init| {
            assert Key(init[i]) == k;
          }
        }
      }
    }
  }

  /** A section whose key does not occur again later is the one the
      document keeps under that key: the last section of a key wins. */
  lemma {:induction false} AssembleLastWins(secs: seq<Section>, i: nat)
    requires i < |secs| && forall j :: i < j < |secs| ==> Key(secs[j]) != Key(secs[i])
    ensures Key(secs[i]) in Assemble(secs) && Assemble(secs)[Key(secs[i])] == secs[i]
  {
    if i < |secs| - 1 {
      var init := secs[..|secs| - 1];
      assert init[i] == secs[i];
      forall j | i < j < |init| ensures Key(init[j]) != Key(init[i]) {
        assert init[j] == secs[j];
      }
      AssembleLastWins(init, i);
    }
  }

  /** The names a document can hold. */
  const SectionKeys: set<string> := set i | 0 <= i < SectionCount :: KeyOf(i)

  lemma KeysKnown()
    ensures forall sec: Section :: Key(sec) in SectionKeys
  {
  }

  /** Every section of the list is the last of its key, or another section
      of its key follows it: the document keeps the last of each key. */
  lemma AssembleKeepsLast(secs: seq<Section>)
    ensures forall i :: 0 <= i < |secs| && (forall j :: i < j < |secs| ==> Key(secs[j]) != Key(secs[i])) ==>
              Key(secs[i]) in Assemble(secs) && Assemble(secs)[Key(secs[i])] == secs[i]
  {
    forall i | 0 <= i < |secs| && (forall j :: i < j < |secs| ==> Key(secs[j]) != Key(secs[i]))
      ensures Key(secs[i]) in Assemble(secs) && Assemble(secs)[Key(secs[i])] == secs[i]
    {
      AssembleLastWins(secs, i);
    }
  }

  /** The whole conversion: tab expansion, then the grammar, then the
      document. There is a document exactly when the grammar reads the
      tab-expanded text; its keys are the keys of the sections read, and
      under each key stands the last section read with that key. */
  function ParseFile(text: string): (r: Option<map<string, Section>>)
    ensures r.Some? <==> ParseSections(ExpandTabs(text)).Some?
    ensures r.Some? ==> forall k :: k in r.value ==> k in SectionKeys
    ensures r.Some? ==> r.value == Assemble(ParseSections(ExpandTabs(text)).value)
    ensures r.Some? ==> forall k :: k in r.value <==> exists i :: 0 <= i < |ParseSections(ExpandTabs(text)).value| && Key(ParseSections(ExpandTabs(text)).value[i]) == k
    ensures r.Some? ==> forall i :: 0 <= i < |ParseSections(ExpandTabs(text)).value| && (forall j :: i < j < |ParseSections(ExpandTabs(text)).value| ==> Key(ParseSections(ExpandTabs(text)).value[j]) != Key(ParseSections(ExpandTabs(text)).value[i])) ==>
                          Key(ParseSections(ExpandTabs(text)).value[i]) in r.value && r.value[Key(ParseSections(ExpandTabs(text)).value[i])] == ParseSections(ExpandTabs(text)).value[i]
  {
    var parsed := ParseSections(ExpandTabs(text));
    if parsed.None? then None
    else
      DocumentOf(parsed.value);
      Some(Assemble(parsed.value))
  }

  /** The document assembled from a list of sections: its keys are known
      section keys, exactly the keys of the sections, and under each stands
      the last section with that key. */
  lemma DocumentOf(secs: seq<Section>)
    ensures forall k :: k in Assemble(secs) ==> k in SectionKeys
    ensures forall k :: k in Assemble(secs) <==> exists i :: 0 <= i < |secs| && Key(secs[i]) == k
    ensures forall i :: 0 <= i < |secs| && (forall j :: i < j < |secs| ==> Key(secs[j]) != Key(secs[i])) ==>
              Key(secs[i]) in Assemble(secs) && Assemble(secs)[Key(secs[i])] == secs[i]
  {
    KeysKnown();
    AssembleKeys(secs);
    AssembleKeepsLast(secs);
  }

  /** Where `#$` stands, no section can be read. */
  lemma NoSectionAtEnd(s: string, p: nat)
    requires p <= |s| && Skip(s, p) + 1 < |s| && s[Skip(s, p) + 1] == '$'
    ensures SectionItem(s, p).Fail?
  {
    forall i | 0 <= i < SectionCount ensures Alternatives[i](s, p).Fail? {
      LitMismatch(s, p, Tag(i), 1);
      if Alternatives[i](s, p).Ok? {
        AlternativeTagged(s, p, i);
      }
    }
  }

  /** A file that is only `#$` (after whitespace) is a document with no
      sections. */
  lemma EmptyDocument(s: string)
    requires Skip(s, 0) + 2 <= |s| && s[Skip(s, 0)..Skip(s, 0) + 2] == "#$"
    ensures ParseSections(s) == Some([])
  {
    assert s[Skip(s, 0) + 1] == s[Skip(s, 0)..Skip(s, 0) + 2][1];
    NoSectionAtEnd(s, 0);
    SectionItemProgressive(s);
    assert Many(s, 0, SectionItem) == Parsed([], 0);
  }

  /** A section whose grammar fails is fatal: when the run of sections stops
      at a section tag, there is no document, whatever follows. */
  lemma FailedSectionIsFatal(s: string, i: nat)
    requires i < SectionCount && Lit(s, Sections(s).next, Tag(i)).Ok?
    ensures SectionItem(s, Sections(s).next).Fail?
    ensures ParseSections(s) == None
  {
    var e := Sections(s).next;
    LitChar(s, e, Tag(i), 1);
    LitMismatch(s, e, "#$", 1);
  }
}
