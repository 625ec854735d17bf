/** The flat sections: each record is one row. `#RESETS`, `#OLIMITS`,
    `#PRACTICERS`, `#SPECIALS` and `#OMPROGS` end at `S`, `#SHOPS` at `0`;
    `#HELPS` has no closing token. Resets, practicers, specials and programs
    also accept `*` comment lines, which yield no record. */
module FlatSections {
  import opened Lexer

  /** A reset row: its command letter and the arguments kept after the
      dropped first column. */
  datatype ResetCommand = ResetCommand(command: char, args: seq<string>)

  datatype ShopEntry = ShopEntry(
    keeper: string, buyType0: string, buyType1: string, buyType2: string, buyType3: string,
    buyType4: string, profitBuy: string, profitSell: string, openHour: string, closeHour: string)

  datatype OLimitEntry = OLimitEntry(vnum: string, limit: string)
  datatype PracticerEntry = PracticerEntry(vnum: string, practicer: string)
  datatype SpecialEntry = SpecialEntry(vnum: string, specFun: string)
  datatype OmProgEntry = OmProgEntry(command: char, vnum: string, progType: string, progName: string)
  datatype HelpEntry = HelpEntry(level: string, keyword: string, text: string)

  /** How many arguments a reset command keeps: 2 for `G` and `R`, 3 for
      `O`, `E` and `D`, 4 for `P` and `M`; 0 for any other letter, which is
      no reset command. */
  function Arity(c: char): nat {
    if c == 'G' || c == 'R' then 2
    else if c == 'O' || c == 'E' || c == 'D' then 3
    else if c == 'P' || c == 'M' then 4
    else 0
  }

  /** The columns a reset command keeps: `Arity(c)` signed numbers. */
  function ArgClasses(c: char): (r: seq<CharClass>)
    ensures |r| == Arity(c) && forall i :: 0 <= i < |r| ==> r[i] == SignedNums
  {
    seq(Arity(c), _ => SignedNums)
  }

  /** A reset record as the grammar can produce it. */
  predicate WellFormedReset(c: ResetCommand) {
    Arity(c.command) > 0 && |c.args| == Arity(c.command)
    && forall i, j :: 0 <= i < |c.args| && 0 <= j < |c.args[i]| ==> InClass(c.args[i][j], SignedNums)
  }

  /** One reset row or comment. The seven command alternatives differ only
      in their letter and argument count; the first number after the letter
      is read and dropped, and the rest of the line is dropped. */
  function ResetItem(s: string, p: nat): (r: Res<seq<ResetCommand>>)
    requires p <= |s|
    ensures r.Ok? ==> p < r.next <= |s| && |r.value| <= 1
    ensures r.Ok? ==> forall i :: 0 <= i < |r.value| ==> WellFormedReset(r.value[i])
  {
    var comment := Comment(s, p);
    if comment.Ok? then Ok([], comment.next) else
    var q := Skip(s, p);
    if q < |s| && Arity(s[q]) > 0 then
      var dropped :- WordOf(s, q + 1, SignedNums);
      var args :- Row(s, dropped.next, ArgClasses(s[q]));
      Ok([ResetCommand(s[q], args.value)], args.next)
    else Fail
  }

  /** A reset row written out: the letter, the first column, the arguments,
      a trailer, a newline. */
  function ResetLine(c: char, dropped: string, args: seq<string>, junk: string): string {
    [c] + Spaced([dropped] + args) + junk + "\n"
  }

  /** Reading back a reset row, wherever it stands in the input, gives its
      letter and its arguments, whatever its first column and its trailer
      hold; the row ends before its newline. */
  lemma ResetReadsBack(s: string, p: nat, c: char, dropped: string, args: seq<string>, junk: string, e: nat)
    requires Arity(c) > 0 && |args| == Arity(c) && Trailer(junk)
    requires Fits(dropped, SignedNums) && forall i :: 0 <= i < |args| ==> Fits(args[i], SignedNums)
    requires At(s, p, ResetLine(c, dropped, args, junk)) && e == p + |ResetLine(c, dropped, args, junk)| - 1
    ensures ResetItem(s, p) == Ok([ResetCommand(c, args)], e)
  {
    var q := p + 2 + |dropped|;
    ResetLineLength(c, dropped, args, junk);
    ResetTokens(s, p, c, dropped, args, junk, q, e);
    ResetItemReads(s, p, q, args, e);
  }

  /** The tokens of a written-out reset row: the letter at `p`, the first
      column up to `q`, the arguments up to the newline at `e`. */
  lemma ResetTokens(s: string, p: nat, c: char, dropped: string, args: seq<string>, junk: string, q: nat, e: nat)
    requires Arity(c) > 0 && |args| == Arity(c) && Trailer(junk)
    requires Fits(dropped, SignedNums) && forall i :: 0 <= i < |args| ==> Fits(args[i], SignedNums)
    requires At(s, p, ResetLine(c, dropped, args, junk))
    requires q == p + 2 + |dropped| && e == q + |Spaced(args)| + |junk|
    ensures Skip(s, p) == p && p < |s| && s[p] == c
    ensures WordOf(s, p + 1, SignedNums) == Ok(dropped, q) && q <= |s|
    ensures Row(s, q, ArgClasses(c)) == Ok(args, e)
  {
    ResetLineShape(c, dropped, args, junk);
    SpacedLineStart(args, junk);
    ResetHeadReads(s, p, c, dropped, Spaced(args) + (junk + "\n"), q);
    assert AllFit(args, ArgClasses(c));
    RowReadsBack(s, q, args, ArgClasses(c), junk);
  }

  lemma ResetLineLength(c: char, dropped: string, args: seq<string>, junk: string)
    ensures |ResetLine(c, dropped, args, junk)| == 3 + |dropped| + |Spaced(args)| + |junk|
  {
    assert ([dropped] + args)[1..] == args;
  }

  lemma ResetLineShape(c: char, dropped: string, args: seq<string>, junk: string)
    ensures ResetLine(c, dropped, args, junk) == [c] + (" " + (dropped + (Spaced(args) + (junk + "\n"))))
  {
    var w := [dropped] + args;
    assert w[1..] == args;
    var sp := Spaced(args);
    assert Spaced(w) == " " + dropped + sp;
    assert ResetLine(c, dropped, args, junk) == [c] + (" " + dropped + sp) + junk + "\n";
    assert " " + dropped + sp + junk == " " + (dropped + (sp + junk));
  }

  /** The letter and the first column of a written-out reset row. */
  lemma ResetHeadReads(s: string, p: nat, c: char, dropped: string, tail: string, q: nat)
    requires Arity(c) > 0 && Fits(dropped, SignedNums)
    requires |tail| > 0 && (tail[0] == ' ' || tail[0] == '\n')
    requires At(s, p, [c] + (" " + (dropped + tail))) && q == p + 2 + |dropped|
    ensures Skip(s, p) == p && p < |s| && s[p] == c
    ensures WordOf(s, p + 1, SignedNums) == Ok(dropped, q) && At(s, q, tail)
  {
    NoSkip(s, p, [c] + (" " + (dropped + tail)));
    AtSplit(s, p, [c], " " + (dropped + tail));
    AtFirst(s, p, [c]);
    assert AllWhitespace(" ");
    ReadWord(s, p + 1, " ", dropped, SignedNums, tail, q);
  }

  /** A reset row whose columns are read as given. */
  lemma ResetItemReads(s: string, p: nat, q: nat, args: seq<string>, e: nat)
    requires p <= |s| && Skip(s, p) < |s| && s[Skip(s, p)] != '*' && Arity(s[Skip(s, p)]) > 0
    requires WordOf(s, Skip(s, p) + 1, SignedNums).Ok? && WordOf(s, Skip(s, p) + 1, SignedNums).next == q
    requires q <= |s| && Row(s, q, ArgClasses(s[Skip(s, p)])) == Ok(args, e)
    ensures ResetItem(s, p) == Ok([ResetCommand(s[Skip(s, p)], args)], e)
  {
  }

  /** `#RESETS`, reset rows and comments, `S`. */
  function ResetsSection(s: string, p: nat): (r: Res<seq<ResetCommand>>)
    requires p <= |s|
    ensures r.Ok? ==> Lit(s, p, "#RESETS").Ok? && p < r.next <= |s| && s[r.next - 1] == 'S'
    ensures Progressive(s, ResetItem)
    ensures r.Ok? ==> r.value == Many(s, Lit(s, p, "#RESETS").next, ResetItem).value
  {
    ResetItemProgressive(s);
    var list := Delimited(s, p, "#RESETS", ResetItem, "S");
    assert "S"[0] == 'S';
    list
  }

  /** The columns of a shop row: the keeper's vnum, then nine signed numbers. */
  const ShopClasses: seq<CharClass> := [Nums, SignedNums, SignedNums, SignedNums, SignedNums, SignedNums,
                                        SignedNums, SignedNums, SignedNums, SignedNums]

  /** keeper, five buy types, two profits, two hours. */
  function ShopItem(s: string, p: nat): (r: Res<seq<ShopEntry>>)
    requires p <= |s|
    ensures r.Ok? ==> p < r.next <= |s| && |r.value| == 1
  {
    var row :- Row(s, p, ShopClasses);
    var v := row.value;
    Ok([ShopEntry(v[0], v[1], v[2], v[3], v[4], v[5], v[6], v[7], v[8], v[9])], row.next)
  }

  /** `#SHOPS`, shop rows, `0`. */
  function ShopsSection(s: string, p: nat): (r: Res<seq<ShopEntry>>)
    requires p <= |s|
    ensures r.Ok? ==> Lit(s, p, "#SHOPS").Ok? && p < r.next <= |s| && s[r.next - 1] == '0'
    ensures Progressive(s, ShopItem)
    ensures r.Ok? ==> r.value == Many(s, Lit(s, p, "#SHOPS").next, ShopItem).value
  {
    ShopItemProgressive(s);
    var list := Delimited(s, p, "#SHOPS", ShopItem, "0");
    assert "0"[0] == '0';
    list
  }

  /** `O` vnum limit. */
  function OLimitItem(s: string, p: nat): (r: Res<seq<OLimitEntry>>)
    requires p <= |s|
    ensures r.Ok? ==> p < r.next <= |s| && |r.value| == 1
  {
    var t :- Lit(s, p, "O");
    var row :- Row(s, t.next, [Nums, Nums]);
    Ok([OLimitEntry(row.value[0], row.value[1])], row.next)
  }

  /** `#OLIMITS`, limit rows, `S`. */
  function OLimitsSection(s: string, p: nat): (r: Res<seq<OLimitEntry>>)
    requires p <= |s|
    ensures r.Ok? ==> Lit(s, p, "#OLIMITS").Ok? && p < r.next <= |s| && s[r.next - 1] == 'S'
    ensures Progressive(s, OLimitItem)
    ensures r.Ok? ==> r.value == Many(s, Lit(s, p, "#OLIMITS").next, OLimitItem).value
  {
    OLimitItemProgressive(s);
    var list := Delimited(s, p, "#OLIMITS", OLimitItem, "S");
    assert "S"[0] == 'S';
    list
  }

  /** `M` vnum name: the row shape shared by practicers and specials. */
  function MobileBinding(s: string, p: nat): (r: Res<(string, string)>)
    requires p <= |s|
    ensures r.Ok? ==> p < r.next <= |s|
  {
    var t :- Lit(s, p, "M");
    var row :- Row(s, t.next, [Nums, NameChars]);
    Ok((row.value[0], row.value[1]), row.next)
  }

  function PracticerItem(s: string, p: nat): (r: Res<seq<PracticerEntry>>)
    requires p <= |s|
    ensures r.Ok? ==> p < r.next <= |s| && |r.value| <= 1
  {
    var comment := Comment(s, p);
    if comment.Ok? then Ok([], comment.next) else
    var b :- MobileBinding(s, p);
    Ok([PracticerEntry(b.value.0, b.value.1)], b.next)
  }

  /** `#PRACTICERS`, practicer rows and comments, `S`. */
  function PracticersSection(s: string, p: nat): (r: Res<seq<PracticerEntry>>)
    requires p <= |s|
    ensures r.Ok? ==> Lit(s, p, "#PRACTICERS").Ok? && p < r.next <= |s| && s[r.next - 1] == 'S'
    ensures Progressive(s, PracticerItem)
    ensures r.Ok? ==> r.value == Many(s, Lit(s, p, "#PRACTICERS").next, PracticerItem).value
  {
    PracticerItemProgressive(s);
    var list := Delimited(s, p, "#PRACTICERS", PracticerItem, "S");
    assert "S"[0] == 'S';
    list
  }

  function SpecialItem(s: string, p: nat): (r: Res<seq<SpecialEntry>>)
    requires p <= |s|
    ensures r.Ok? ==> p < r.next <= |s| && |r.value| <= 1
  {
    var comment := Comment(s, p);
    if comment.Ok? then Ok([], comment.next) else
    var b :- MobileBinding(s, p);
    Ok([SpecialEntry(b.value.0, b.value.1)], b.next)
  }

  /** `#SPECIALS`, special rows and comments, `S`. */
  function SpecialsSection(s: string, p: nat): (r: Res<seq<SpecialEntry>>)
    requires p <= |s|
    ensures r.Ok? ==> Lit(s, p, "#SPECIALS").Ok? && p < r.next <= |s| && s[r.next - 1] == 'S'
    ensures Progressive(s, SpecialItem)
    ensures r.Ok? ==> r.value == Many(s, Lit(s, p, "#SPECIALS").next, SpecialItem).value
  {
    SpecialItemProgressive(s);
    var list := Delimited(s, p, "#SPECIALS", SpecialItem, "S");
    assert "S"[0] == 'S';
    list
  }

  /** A program row: `M` or `O`, vnum, program type, program name. */
  function OmProgItem(s: string, p: nat): (r: Res<seq<OmProgEntry>>)
    requires p <= |s|
    ensures r.Ok? ==> p < r.next <= |s| && |r.value| <= 1
    ensures r.Ok? ==> forall i :: 0 <= i < |r.value| ==> r.value[i].command == 'M' || r.value[i].command == 'O'
  {
    var comment := Comment(s, p);
    if comment.Ok? then Ok([], comment.next) else
    var q := Skip(s, p);
    if q < |s| && (s[q] == 'M' || s[q] == 'O') then
      var row :- Row(s, q + 1, [Nums, NameChars, NameChars]);
      Ok([OmProgEntry(s[q], row.value[0], row.value[1], row.value[2])], row.next)
    else Fail
  }

  /** `#OMPROGS`, program rows and comments, `S`. */
  function OmProgsSection(s: string, p: nat): (r: Res<seq<OmProgEntry>>)
    requires p <= |s|
    ensures r.Ok? ==> Lit(s, p, "#OMPROGS").Ok? && p < r.next <= |s| && s[r.next - 1] == 'S'
    ensures Progressive(s, OmProgItem)
    ensures r.Ok? ==> r.value == Many(s, Lit(s, p, "#OMPROGS").next, OmProgItem).value
  {
    OmProgItemProgressive(s);
    var list := Delimited(s, p, "#OMPROGS", OmProgItem, "S");
    assert "S"[0] == 'S';
    list
  }

  /** Reading back a shop row: its ten columns, in order, are the keeper,
      the five buy types, the two profits and the two hours; the row ends
      before its newline, whatever its trailer holds. */
  lemma ShopReadsBack(s: string, p: nat, cols: seq<string>, junk: string, e: nat)
    requires |cols| == 10 && AllFit(cols, ShopClasses) && Trailer(junk)
    requires At(s, p, Columns(cols) + (junk + "\n")) && e == p + |Columns(cols)| + |junk|
    ensures ShopItem(s, p) == Ok([ShopEntry(cols[0], cols[1], cols[2], cols[3], cols[4],
                                            cols[5], cols[6], cols[7], cols[8], cols[9])], e)
  {
    ColumnsReadBack(s, p, cols, ShopClasses, junk);
  }

  /** Reading back a limit row: `O`, the vnum and the limit. */
  lemma OLimitReadsBack(s: string, p: nat, vnum: string, limit: string, junk: string, e: nat)
    requires Fits(vnum, Nums) && Fits(limit, Nums) && Trailer(junk)
    requires At(s, p, "O" + (Spaced([vnum, limit]) + (junk + "\n")))
    requires e == p + 1 + |Spaced([vnum, limit])| + |junk|
    ensures OLimitItem(s, p) == Ok([OLimitEntry(vnum, limit)], e)
  {
    var rest := Spaced([vnum, limit]) + (junk + "\n");
    assert AllWhitespace("") && "" + ("O" + rest) == "O" + rest;
    ReadLit(s, p, "", "O", rest, p + 1);
    assert AllFit([vnum, limit], [Nums, Nums]);
    RowReadsBack(s, p + 1, [vnum, limit], [Nums, Nums], junk);
  }

  /** Reading back a mobile binding: `M`, the vnum and the name. */
  lemma MobileBindingReadsBack(s: string, p: nat, vnum: string, name: string, junk: string, e: nat)
    requires Fits(vnum, Nums) && Fits(name, NameChars) && Trailer(junk)
    requires At(s, p, "M" + (Spaced([vnum, name]) + (junk + "\n")))
    requires e == p + 1 + |Spaced([vnum, name])| + |junk|
    ensures Skip(s, p) == p && p < |s| && s[p] == 'M'
    ensures MobileBinding(s, p) == Ok((vnum, name), e)
  {
    var rest := Spaced([vnum, name]) + (junk + "\n");
    assert Lit(s, p, "M") == Ok((), p + 1) && At(s, p + 1, rest) by {
      assert AllWhitespace("") && "" + ("M" + rest) == "M" + rest;
      ReadLit(s, p, "", "M", rest, p + 1);
    }
    assert Skip(s, p) == p && p < |s| && s[p] == 'M' by {
      NoSkip(s, p, "M" + rest);
      AtFirst(s, p, "M" + rest);
    }
    BindingRowRead(s, p + 1, vnum, name, junk, e);
    MobileBindingStep(s, p, [vnum, name], e);
  }

  /** The vnum and name of a binding, read back as a row. */
  lemma BindingRowRead(s: string, q: nat, vnum: string, name: string, junk: string, e: nat)
    requires Fits(vnum, Nums) && Fits(name, NameChars) && Trailer(junk)
    requires At(s, q, Spaced([vnum, name]) + (junk + "\n")) && e == q + |Spaced([vnum, name])| + |junk|
    ensures Row(s, q, [Nums, NameChars]) == Ok([vnum, name], e)
  {
    assert AllFit([vnum, name], [Nums, NameChars]);
    RowReadsBack(s, q, [vnum, name], [Nums, NameChars], junk);
  }

  /** A binding is its `M` and the row after it. */
  lemma MobileBindingStep(s: string, p: nat, words: seq<string>, e: nat)
    requires p < |s| && Lit(s, p, "M") == Ok((), p + 1) && |words| == 2
    requires Row(s, p + 1, [Nums, NameChars]) == Ok(words, e)
    ensures MobileBinding(s, p) == Ok((words[0], words[1]), e)
  {
  }

  /** Reading back a practicer row and a special row: each is the mobile
      binding it spells. */
  lemma BindingRowsReadBack(s: string, p: nat, vnum: string, name: string, junk: string, e: nat)
    requires Fits(vnum, Nums) && Fits(name, NameChars) && Trailer(junk)
    requires At(s, p, "M" + (Spaced([vnum, name]) + (junk + "\n")))
    requires e == p + 1 + |Spaced([vnum, name])| + |junk|
    ensures PracticerItem(s, p) == Ok([PracticerEntry(vnum, name)], e)
    ensures SpecialItem(s, p) == Ok([SpecialEntry(vnum, name)], e)
  {
    MobileBindingReadsBack(s, p, vnum, name, junk, e);
  }

  /** Reading back a program row: `M` or `O`, the vnum, the program type
      and the program name. */
  lemma OmProgReadsBack(s: string, p: nat, c: char, vnum: string, progType: string, progName: string,
                        junk: string, e: nat)
    requires (c == 'M' || c == 'O') && Fits(vnum, Nums) && Fits(progType, NameChars) && Fits(progName, NameChars)
    requires Trailer(junk)
    requires At(s, p, [c] + (Spaced([vnum, progType, progName]) + (junk + "\n")))
    requires e == p + 1 + |Spaced([vnum, progType, progName])| + |junk|
    ensures OmProgItem(s, p) == Ok([OmProgEntry(c, vnum, progType, progName)], e)
  {
    var rest := Spaced([vnum, progType, progName]) + (junk + "\n");
    assert Skip(s, p) == p && p < |s| && s[p] == c && At(s, p + 1, rest) by {
      NoSkip(s, p, [c] + rest);
      AtParts(s, p, [c], rest, p + 1);
      AtFirst(s, p, [c]);
    }
    ProgRowRead(s, p + 1, [vnum, progType, progName], junk, e);
    OmProgAt(s, p, Row(s, p + 1, [Nums, NameChars, NameChars]));
  }

  /** The vnum, program type and program name of a program row, read back
      as a row. */
  lemma ProgRowRead(s: string, q: nat, words: seq<string>, junk: string, e: nat)
    requires |words| == 3 && Fits(words[0], Nums) && Fits(words[1], NameChars) && Fits(words[2], NameChars)
    requires Trailer(junk) && At(s, q, Spaced(words) + (junk + "\n")) && e == q + |Spaced(words)| + |junk|
    ensures Row(s, q, [Nums, NameChars, NameChars]) == Ok(words, e)
  {
    assert AllFit(words, [Nums, NameChars, NameChars]);
    RowReadsBack(s, q, words, [Nums, NameChars, NameChars], junk);
  }

  /** A program row is the command letter after the whitespace and the row
      after it. */
  lemma OmProgAt(s: string, p: nat, row: Res<seq<string>>)
    requires p <= |s| && Skip(s, p) < |s| && (s[Skip(s, p)] == 'M' || s[Skip(s, p)] == 'O')
    requires row == Row(s, Skip(s, p) + 1, [Nums, NameChars, NameChars]) && row.Ok?
    ensures OmProgItem(s, p) == Ok([OmProgEntry(s[Skip(s, p)], row.value[0], row.value[1], row.value[2])], row.next)
  {
  }

  /** A help text without `~` in its keyword or text. */
  predicate WellFormedHelp(h: HelpEntry) {
    |h.level| > 0 && '~' !in h.keyword && '~' !in h.text
  }

  /** The literal `0 $~` (tried first, yielding nothing) or a help row:
      level, keyword, text. */
  function HelpItem(s: string, p: nat): (r: Res<seq<HelpEntry>>)
    requires p <= |s|
    ensures r.Ok? ==> p < r.next <= |s| && |r.value| <= 1
    ensures r.Ok? ==> forall i :: 0 <= i < |r.value| ==> WellFormedHelp(r.value[i])
  {
    var sentinel := Lit(s, p, "0 $~");
    if sentinel.Ok? then Ok([], sentinel.next) else
    var level :- WordOf(s, p, SignedNums);
    var keyword :- TildeString(s, level.next);
    var text :- TildeString(s, keyword.next);
    Ok([HelpEntry(level.value, keyword.value, text.value)], text.next)
  }

  /** A help row written out: level, keyword and `~` on one line, then the
      text and its `~`. */
  function HelpLine(level: string, keyword: string, text: string): string {
    level + " " + keyword + "~\n" + text + "~"
  }

  /** Reading back a help row gives its level, keyword and text, unless the
      row is the `0 $~` line, which is read as nothing. */
  lemma HelpReadsBack(s: string, p: nat, level: string, keyword: string, text: string, e: nat)
    requires Fits(level, SignedNums) && TildeText(keyword) && TildeText(text)
    requires !(level == "0" && keyword == "$")
    requires At(s, p, HelpLine(level, keyword, text)) && e == p + |HelpLine(level, keyword, text)|
    ensures HelpItem(s, p) == Ok([HelpEntry(level, keyword, text)], e)
  {
    var q := p + |level|;
    var r := q + |keyword| + 2;
    HelpTokens(s, p, level, keyword, text, q, r, e);
    HelpItemReads(s, p, level, q, keyword, r, text, e);
  }

  lemma HelpLineShape(level: string, keyword: string, text: string)
    ensures HelpLine(level, keyword, text) == level + (" " + (keyword + ("~" + ("\n" + (text + ("~" + ""))))))
  {
  }

  /** The tokens of a written-out help row, one after the other: the level
      ends at `q`, the keyword's `~` at `r`, the text's `~` at `e`. */
  lemma HelpTokens(s: string, p: nat, level: string, keyword: string, text: string, q: nat, r: nat, e: nat)
    requires Fits(level, SignedNums) && TildeText(keyword) && TildeText(text)
    requires !(level == "0" && keyword == "$")
    requires At(s, p, HelpLine(level, keyword, text))
    requires q == p + |level| && r == q + |keyword| + 2 && e == p + |HelpLine(level, keyword, text)|
    ensures p <= |s| && Lit(s, p, "0 $~").Fail?
    ensures WordOf(s, p, SignedNums) == Ok(level, q) && q <= |s|
    ensures TildeString(s, q) == Ok(keyword, r) && r <= |s|
    ensures TildeString(s, r) == Ok(text, e)
  {
    var after := "\n" + (text + ("~" + ""));
    HelpLineShape(level, keyword, text);
    HelpLevelReads(s, p, level, keyword, after, q);
    assert AllWhitespace(" ") && AllWhitespace("\n");
    ReadTilde(s, q, " ", keyword, after, r);
    ReadTilde(s, r, "\n", text, "", e);
  }

  /** The level of a written-out help row, which is not the `0 $~` line. */
  lemma HelpLevelReads(s: string, p: nat, level: string, keyword: string, after: string, q: nat)
    requires Fits(level, SignedNums) && '~' !in keyword && !(level == "0" && keyword == "$")
    requires At(s, p, level + (" " + (keyword + ("~" + after)))) && q == p + |level|
    ensures Lit(s, p, "0 $~").Fail? && WordOf(s, p, SignedNums) == Ok(level, q)
    ensures At(s, q, " " + (keyword + ("~" + after)))
  {
    NoSkip(s, p, level + (" " + (keyword + ("~" + after))));
    NotHelpSentinel(s, p, level, keyword, after);
    assert AllWhitespace("") && "" + (level + (" " + (keyword + ("~" + after)))) == level + (" " + (keyword + ("~" + after)));
    ReadWord(s, p, "", level, SignedNums, " " + (keyword + ("~" + after)), q);
  }

  /** A help row whose level is not `0` or whose keyword is not `$` is not
      the `0 $~` line. */
  lemma NotHelpSentinel(s: string, p: nat, level: string, keyword: string, after: string)
    requires Fits(level, SignedNums) && '~' !in keyword && !(level == "0" && keyword == "$")
    requires At(s, p, level + (" " + (keyword + ("~" + after)))) && Skip(s, p) == p
    ensures Lit(s, p, "0 $~").Fail?
  {
    var line := level + (" " + (keyword + ("~" + after)));
    if level[0] != '0' {
      AtChar(s, p, line, 0);
      LitMismatch(s, p, "0 $~", 0);
    } else if |level| > 1 {
      AtChar(s, p, line, 1);
      LitMismatch(s, p, "0 $~", 1);
    } else if keyword == [] || keyword[0] != '$' {
      AtChar(s, p, line, 2);
      LitMismatch(s, p, "0 $~", 2);
    } else {
      AtChar(s, p, line, 3);
      LitMismatch(s, p, "0 $~", 3);
    }
  }

  /** A help row whose fields are read as given. */
  lemma HelpItemReads(s: string, p: nat, level: string, q: nat, keyword: string, r: nat, text: string, e: nat)
    requires p <= |s| && Lit(s, p, "0 $~").Fail?
    requires WordOf(s, p, SignedNums) == Ok(level, q) && q <= |s|
    requires TildeString(s, q) == Ok(keyword, r) && r <= |s|
    requires TildeString(s, r) == Ok(text, e)
    ensures HelpItem(s, p) == Ok([HelpEntry(level, keyword, text)], e)
  {
  }



  /** `#HELPS` and help rows until none can be read; no closing token. */
  function HelpsSection(s: string, p: nat): (r: Res<seq<HelpEntry>>)
    requires p <= |s|
    ensures r.Ok? <==> Lit(s, p, "#HELPS").Ok?
    ensures r.Ok? ==> p < r.next <= |s| && HelpItem(s, r.next).Fail?
    ensures r.Ok? ==> forall i :: 0 <= i < |r.value| ==> WellFormedHelp(r.value[i])
    ensures r.Ok? ==> Progressive(s, HelpItem) && r.value == Many(s, Lit(s, p, "#HELPS").next, HelpItem).value
    ensures r.Ok? ==> r.next == Many(s, Lit(s, p, "#HELPS").next, HelpItem).next
  {
    var tag :- Lit(s, p, "#HELPS");
    HelpItemProgressive(s);
    var helps := Many(s, tag.next, HelpItem);
    HelpsWellFormed(s, tag.next);
    Ok(helps.value, helps.next)
  }

  lemma ResetItemProgressive(s: string)
    ensures Progressive(s, ResetItem)
  {
    forall q: nat | q <= |s| ensures ResetItem(s, q).Ok? ==> q < ResetItem(s, q).next <= |s| { }
  }

  lemma ShopItemProgressive(s: string)
    ensures Progressive(s, ShopItem)
  {
    forall q: nat | q <= |s| ensures ShopItem(s, q).Ok? ==> q < ShopItem(s, q).next <= |s| { }
  }

  lemma OLimitItemProgressive(s: string)
    ensures Progressive(s, OLimitItem)
  {
    forall q: nat | q <= |s| ensures OLimitItem(s, q).Ok? ==> q < OLimitItem(s, q).next <= |s| { }
  }

  lemma PracticerItemProgressive(s: string)
    ensures Progressive(s, PracticerItem)
  {
    forall q: nat | q <= |s| ensures PracticerItem(s, q).Ok? ==> q < PracticerItem(s, q).next <= |s| { }
  }

  lemma SpecialItemProgressive(s: string)
    ensures Progressive(s, SpecialItem)
  {
    forall q: nat | q <= |s| ensures SpecialItem(s, q).Ok? ==> q < SpecialItem(s, q).next <= |s| { }
  }

  lemma OmProgItemProgressive(s: string)
    ensures Progressive(s, OmProgItem)
  {
    forall q: nat | q <= |s| ensures OmProgItem(s, q).Ok? ==> q < OmProgItem(s, q).next <= |s| { }
  }

  lemma HelpItemProgressive(s: string)
    ensures Progressive(s, HelpItem)
  {
    forall q: nat | q <= |s| ensures HelpItem(s, q).Ok? ==> q < HelpItem(s, q).next <= |s| { }
  }

  /** Every command of a reset section carries exactly as many arguments as
      its letter calls for, each a signed number. */
  lemma ResetsWellFormed(s: string, p: nat)
    requires p <= |s|
    ensures ResetsSection(s, p).Ok? ==>
      forall i :: 0 <= i < |ResetsSection(s, p).value| ==> WellFormedReset(ResetsSection(s, p).value[i])
  {
    ResetItemProgressive(s);
    var tag := Lit(s, p, "#RESETS");
    if tag.Ok? {
      ManyAll(s, tag.next, ResetItem, WellFormedReset);
    }
  }

  lemma HelpsWellFormed(s: string, p: nat)
    requires p <= |s| && Progressive(s, HelpItem)
    ensures forall i :: 0 <= i < |Many(s, p, HelpItem).value| ==> WellFormedHelp(Many(s, p, HelpItem).value[i])
  {
    ManyAll(s, p, HelpItem, WellFormedHelp);
  }

  /** A `*` comment line in a reset, practicer, special or program section
      yields no record: the rows read from the comment on are the rows read
      from the end of its line on. */
  lemma CommentLinesVanish(s: string, p: nat)
    requires p <= |s| && Skip(s, p) < |s| && s[Skip(s, p)] == '*'
    ensures Progressive(s, ResetItem) && Many(s, p, ResetItem) == Many(s, Comment(s, p).next, ResetItem)
    ensures Progressive(s, PracticerItem) && Many(s, p, PracticerItem) == Many(s, Comment(s, p).next, PracticerItem)
    ensures Progressive(s, SpecialItem) && Many(s, p, SpecialItem) == Many(s, Comment(s, p).next, SpecialItem)
    ensures Progressive(s, OmProgItem) && Many(s, p, OmProgItem) == Many(s, Comment(s, p).next, OmProgItem)
  {
    var e := Comment(s, p).next;
    ResetItemProgressive(s);
    ManySkipsEmpty(s, p, e, ResetItem);
    PracticerItemProgressive(s);
    ManySkipsEmpty(s, p, e, PracticerItem);
    SpecialItemProgressive(s);
    ManySkipsEmpty(s, p, e, SpecialItem);
    OmProgItemProgressive(s);
    ManySkipsEmpty(s, p, e, OmProgItem);
  }

  /** The literal `0 $~` is tried before a help row and yields nothing; the
      help rows go on being read after it. */
  lemma HelpSentinelVanishes(s: string, p: nat)
    requires p <= |s| && Lit(s, p, "0 $~").Ok?
    ensures Progressive(s, HelpItem) && Many(s, p, HelpItem) == Many(s, Lit(s, p, "0 $~").next, HelpItem)
  {
    HelpItemProgressive(s);
    ManySkipsEmpty(s, p, Lit(s, p, "0 $~").next, HelpItem);
  }
}
