/** The `#MOBILES` and `#MOBOLD` sections: mobile records until `#0`.

    A current mobile is nine rows (header, five text lines, and rows of flag
    and number columns, each row ending its line) followed by any number of
    `F` blocks. An old mobile has fewer rows and drops several columns. */
module Mobiles {
  import opened Lexer
  import opened Blocks

  datatype Mobile = Mobile(
    vnum: string, name: string, shortDescription: string, longDescription: string,
    description: string, race: string,
    act: string, affectedBy: string, alignment: string, group: string,
    level: string, hitroll: string, hitDice: string, manaDice: string, damDice: string, damType: string,
    acPierce: string, acBash: string, acSlash: string, acExotic: string,
    offFlags: string, immFlags: string, resFlags: string, vulnFlags: string,
    startPos: string, defaultPos: string, sex: string, wealth: string,
    form: string, parts: string, size: string, material: string,
    affectsF: seq<MobileAffect>)

  /** The older mobile record: no race, group, hitroll, dice, damage type,
      armor, flag rows, form, parts, size or material. */
  datatype OldMobile = OldMobile(
    vnum: string, name: string, shortDescription: string, longDescription: string, description: string,
    act: string, affectedBy: string, alignment: string, level: string, wealth: string,
    startPos: string, defaultPos: string, sex: string)

  /** The nine fixed rows of a current mobile (its affects still empty). */
  function MobileFixed(s: string, p: nat): (r: Res<Mobile>)
    requires p <= |s|
    ensures r.Ok? ==> p < r.next <= |s|
  {
    var vnum :- Vnum(s, p);
    var texts :- TextLines(s, vnum.next, 5);
    var flags :- Row(s, texts.next, [FlagChars, FlagChars, SignedNums, Nums]);
    var dice :- Row(s, flags.next, [Nums, SignedNums, DiceChars, DiceChars, DiceChars, Alnums]);
    var armor :- Row(s, dice.next, [SignedNums, SignedNums, SignedNums, SignedNums]);
    var defenses :- Row(s, armor.next, [Alnums, Alnums, Alnums, Alnums]);
    var positions :- Row(s, defenses.next, [Alnums, Alnums, Alnums, Nums]);
    var body :- Row(s, positions.next, [Alnums, Alnums, Alnums, Alnums]);
    var v, t, a, b, c, d, e, f := vnum.value, texts.value, flags.value, dice.value, armor.value, defenses.value, positions.value, body.value;
    Ok(Mobile(v, t[0], t[1], t[2], t[3], t[4],
              a[0], a[1], a[2], a[3],
              b[0], b[1], b[2], b[3], b[4], b[5],
              c[0], c[1], c[2], c[3],
              d[0], d[1], d[2], d[3],
              e[0], e[1], e[2], e[3],
              f[0], f[1], f[2], f[3],
              []),
       body.next)
  }

  /** `F` word flag. */
  function MobileFlagBlock(s: string, p: nat): (r: Res<seq<Block>>)
    requires p <= |s|
    ensures r.Ok? ==> p < r.next <= |s| && |r.value| == 1 && r.value[0].MobileFlag?
    ensures r.Ok? ==> Lit(s, p, "F").Ok? && IsWord(r.value[0].mobileAffect.word, Alphas)
    ensures r.Ok? ==> IsWord(r.value[0].mobileAffect.flag, Alnums)
  {
    var t :- Lit(s, p, "F");
    var word :- WordOf(s, t.next, Alphas);
    var flag :- WordOf(s, word.next, Alnums);
    WordIsWord(s, t.next, Alphas);
    WordIsWord(s, word.next, Alnums);
    Ok([MobileFlag(MobileAffect(word.value, flag.value))], flag.next)
  }

  /** One current mobile: its fixed rows and every `F` block that follows. */
  function MobileItem(s: string, p: nat): (r: Res<seq<Mobile>>)
    requires p <= |s|
    ensures r.Ok? ==> p < r.next <= |s| && |r.value| == 1
  {
    var head :- MobileFixed(s, p);
    MobileFlagBlockProgressive(s);
    var blocks := Many(s, head.next, MobileFlagBlock);
    Ok([head.value.(affectsF := MobileAffects(blocks.value))], blocks.next)
  }

  /** `#MOBILES`, any number of mobiles, `#0`. */
  function MobilesSection(s: string, p: nat): (r: Res<seq<Mobile>>)
    requires p <= |s|
    ensures r.Ok? ==> Lit(s, p, "#MOBILES").Ok? && p < r.next <= |s|
    ensures r.Ok? ==> ClosedByZero(s, r.next)
    ensures Progressive(s, MobileItem)
    ensures r.Ok? ==> r.value == Many(s, Lit(s, p, "#MOBILES").next, MobileItem).value
  {
    MobileItemProgressive(s);
    var list := Delimited(s, p, "#MOBILES", MobileItem, "#0");
    ZeroClosed(s, p, "#MOBILES", MobileItem, list);
    list
  }

  /** One old mobile. The group column, four columns of the level row and
      the column after the wealth are read and dropped. */
  function OldMobileItem(s: string, p: nat): (r: Res<seq<OldMobile>>)
    requires p <= |s|
    ensures r.Ok? ==> p < r.next <= |s| && |r.value| == 1
  {
    var vnum :- Vnum(s, p);
    var t :- TextLines(s, vnum.next, 4);
    var a :- Row(s, t.next, [FlagChars, FlagChars, SignedNums, Alnums]);
    var b :- Row(s, a.next, [Nums, Nums, Nums, DiceChars, DiceChars]);
    var c :- Row(s, b.next, [Nums, Nums]);
    var d :- Row(s, c.next, [Nums, Nums, Nums]);
    Ok([OldMobile(vnum.value, t.value[0], t.value[1], t.value[2], t.value[3],
                  a.value[0], a.value[1], a.value[2], b.value[0], c.value[0],
                  d.value[0], d.value[1], d.value[2])],
       d.next)
  }

  /** `#MOBOLD`, any number of old mobiles, `#0`. */
  function OldMobilesSection(s: string, p: nat): (r: Res<seq<OldMobile>>)
    requires p <= |s|
    ensures r.Ok? ==> Lit(s, p, "#MOBOLD").Ok? && p < r.next <= |s|
    ensures r.Ok? ==> ClosedByZero(s, r.next)
    ensures Progressive(s, OldMobileItem)
    ensures r.Ok? ==> r.value == Many(s, Lit(s, p, "#MOBOLD").next, OldMobileItem).value
  {
    OldMobileItemProgressive(s);
    var list := Delimited(s, p, "#MOBOLD", OldMobileItem, "#0");
    ZeroClosed(s, p, "#MOBOLD", OldMobileItem, list);
    list
  }

  lemma MobileFlagBlockProgressive(s: string)
    ensures Progressive(s, MobileFlagBlock)
  {
    forall q: nat | q <= |s| ensures MobileFlagBlock(s, q).Ok? ==> q < MobileFlagBlock(s, q).next <= |s| { }
  }

  lemma MobileItemProgressive(s: string)
    ensures Progressive(s, MobileItem)
  {
    forall q: nat | q <= |s| ensures MobileItem(s, q).Ok? ==> q < MobileItem(s, q).next <= |s| { }
  }

  lemma OldMobileItemProgressive(s: string)
    ensures Progressive(s, OldMobileItem)
  {
    forall q: nat | q <= |s| ensures OldMobileItem(s, q).Ok? ==> q < OldMobileItem(s, q).next <= |s| { }
  }
  /** A current mobile's five text lines. */
  function MobileTexts(m: Mobile): seq<string> {
    [m.name, m.shortDescription, m.longDescription, m.description, m.race]
  }

  function ActRow(m: Mobile): seq<string> { [m.act, m.affectedBy, m.alignment, m.group] }
  function DiceRow(m: Mobile): seq<string> { [m.level, m.hitroll, m.hitDice, m.manaDice, m.damDice, m.damType] }
  function ArmorRow(m: Mobile): seq<string> { [m.acPierce, m.acBash, m.acSlash, m.acExotic] }
  function DefenseRow(m: Mobile): seq<string> { [m.offFlags, m.immFlags, m.resFlags, m.vulnFlags] }
  function PositionRow(m: Mobile): seq<string> { [m.startPos, m.defaultPos, m.sex, m.wealth] }
  function BodyRow(m: Mobile): seq<string> { [m.form, m.parts, m.size, m.material] }

  /** A current mobile's fixed rows written out: `#` and its number, its
      five text lines, then its six rows of columns, each on a line of its
      own; `rest` follows the newline that ends the last row. */
  function MobileLines(m: Mobile, rest: string): string {
    "#" + (m.vnum + (TildeLines(MobileTexts(m)) + ("\n" + MobileRows(m, rest))))
  }

  /** The six rows of columns, from the first column of the first row on. */
  function MobileRows(m: Mobile, rest: string): string {
    Columns(ActRow(m)) + ("\n" + (Columns(DiceRow(m)) + ("\n" + (Columns(ArmorRow(m))
    + ("\n" + (Columns(DefenseRow(m)) + ("\n" + (Columns(PositionRow(m))
    + ("\n" + (Columns(BodyRow(m)) + ("\n" + rest)))))))))))
  }

  /** A mobile that its written-out rows carry exactly: a number, texts
      without `~`, columns of their classes, and no affects (those come
      from `F` blocks). */
  predicate MobileWritable(m: Mobile) {
    IsWord(m.vnum, Nums) && AllTildeText(MobileTexts(m))
    && AllFit(ActRow(m), [FlagChars, FlagChars, SignedNums, Nums])
    && AllFit(DiceRow(m), [Nums, SignedNums, DiceChars, DiceChars, DiceChars, Alnums])
    && AllFit(ArmorRow(m), [SignedNums, SignedNums, SignedNums, SignedNums])
    && AllFit(DefenseRow(m), [Alnums, Alnums, Alnums, Alnums])
    && AllFit(PositionRow(m), [Alnums, Alnums, Alnums, Nums])
    && AllFit(BodyRow(m), [Alnums, Alnums, Alnums, Alnums])
    && m.affectsF == []
  }

  /** Reading back a current mobile's fixed rows: the mobile written out
      after some whitespace is read as exactly that mobile, up to the
      newline that ends its last row. */
  lemma MobileFixedReadsBack(s: string, p: nat, ws: string, m: Mobile, rest: string) returns (e: nat)
    requires MobileWritable(m) && AllWhitespace(ws) && At(s, p, ws + MobileLines(m, rest))
    ensures MobileFixed(s, p) == Ok(m, e)
    ensures At(s, e, "\n" + rest) && e + 1 + |rest| == p + |ws| + |MobileLines(m, rest)|
  {
    var e0, e1 := MobileHeadRead(s, p, ws, m, rest);
    var q1, q2, q3, q4, q5;
    q1, q2, q3, q4, q5, e := MobileRowsRead(s, e1, m, rest);
    MobileFixedReads(s, p, m, e0, e1, q1, q2, q3, q4, q5, e);
  }

  /** The number and the five text lines, read up to the newline before
      the first row. */
  lemma MobileHeadRead(s: string, p: nat, ws: string, m: Mobile, rest: string) returns (e0: nat, e1: nat)
    requires IsWord(m.vnum, Nums) && AllTildeText(MobileTexts(m)) && AllWhitespace(ws)
    requires At(s, p, ws + MobileLines(m, rest))
    ensures e0 <= |s| && e1 <= |s|
    ensures Vnum(s, p) == Ok(m.vnum, e0) && TextLines(s, e0, 5) == Ok(MobileTexts(m), e1)
    ensures At(s, e1, "\n" + MobileRows(m, rest))
    ensures e1 + 1 + |MobileRows(m, rest)| == p + |ws| + |MobileLines(m, rest)|
  {
    assert |MobileTexts(m)| == 5;
    e0, e1 := RecordHeadReads(s, p, ws, m.vnum, MobileTexts(m), MobileRows(m, rest));
  }

  /** The six rows of columns, read one line after the other. */
  lemma MobileRowsRead(s: string, q: nat, m: Mobile,
                        rest: string) returns (q1: nat, q2: nat, q3: nat, q4: nat, q5: nat, e: nat)
    requires MobileWritable(m) && At(s, q, "\n" + MobileRows(m, rest))
    ensures Row(s, q, [FlagChars, FlagChars, SignedNums, Nums]) == Ok(ActRow(m), q1)
    ensures Row(s, q1, [Nums, SignedNums, DiceChars, DiceChars, DiceChars, Alnums]) == Ok(DiceRow(m), q2)
    ensures Row(s, q2, [SignedNums, SignedNums, SignedNums, SignedNums]) == Ok(ArmorRow(m), q3)
    ensures Row(s, q3, [Alnums, Alnums, Alnums, Alnums]) == Ok(DefenseRow(m), q4)
    ensures Row(s, q4, [Alnums, Alnums, Alnums, Nums]) == Ok(PositionRow(m), q5)
    ensures Row(s, q5, [Alnums, Alnums, Alnums, Alnums]) == Ok(BodyRow(m), e)
    ensures At(s, e, "\n" + rest) && e + |rest| == q + |MobileRows(m, rest)|
  {
    var f := "\n" + (Columns(BodyRow(m)) + ("\n" + rest));
    var d := "\n" + (Columns(PositionRow(m)) + f);
    var c := "\n" + (Columns(DefenseRow(m)) + d);
    var b := "\n" + (Columns(ArmorRow(m)) + c);
    var a := "\n" + (Columns(DiceRow(m)) + b);
    assert MobileRows(m, rest) == Columns(ActRow(m)) + a;
    q1 := q + 1 + |Columns(ActRow(m))|;
    RowLine(s, q, ActRow(m), [FlagChars, FlagChars, SignedNums, Nums], a[1..], q1);
    q2 := q1 + 1 + |Columns(DiceRow(m))|;
    RowLine(s, q1, DiceRow(m), [Nums, SignedNums, DiceChars, DiceChars, DiceChars, Alnums], b[1..], q2);
    q3 := q2 + 1 + |Columns(ArmorRow(m))|;
    RowLine(s, q2, ArmorRow(m), [SignedNums, SignedNums, SignedNums, SignedNums], c[1..], q3);
    q4 := q3 + 1 + |Columns(DefenseRow(m))|;
    RowLine(s, q3, DefenseRow(m), [Alnums, Alnums, Alnums, Alnums], d[1..], q4);
    q5 := q4 + 1 + |Columns(PositionRow(m))|;
    RowLine(s, q4, PositionRow(m), [Alnums, Alnums, Alnums, Nums], f[1..], q5);
    e := q5 + 1 + |Columns(BodyRow(m))|;
    RowLine(s, q5, BodyRow(m), [Alnums, Alnums, Alnums, Alnums], rest, e);
  }

  /** The mobile `MobileFixed` assembles from its tokens. */
  lemma MobileFixedReads(s: string, p: nat, m: Mobile, e0: nat, e1: nat,
                          q1: nat, q2: nat, q3: nat, q4: nat, q5: nat, e: nat)
    requires p <= |s| && m.affectsF == []
    requires Vnum(s, p) == Ok(m.vnum, e0) && e0 <= |s| && TextLines(s, e0, 5) == Ok(MobileTexts(m), e1)
    requires Row(s, e1, [FlagChars, FlagChars, SignedNums, Nums]) == Ok(ActRow(m), q1)
    requires Row(s, q1, [Nums, SignedNums, DiceChars, DiceChars, DiceChars, Alnums]) == Ok(DiceRow(m), q2)
    requires Row(s, q2, [SignedNums, SignedNums, SignedNums, SignedNums]) == Ok(ArmorRow(m), q3)
    requires Row(s, q3, [Alnums, Alnums, Alnums, Alnums]) == Ok(DefenseRow(m), q4)
    requires Row(s, q4, [Alnums, Alnums, Alnums, Nums]) == Ok(PositionRow(m), q5)
    requires Row(s, q5, [Alnums, Alnums, Alnums, Alnums]) == Ok(BodyRow(m), e)
    ensures MobileFixed(s, p) == Ok(m, e)
  {
  }

  /** An old mobile's rows written out: `#` and its number, its four text
      lines, then its four rows of columns, each on a line of its own;
      `rest` follows the newline that ends the last row. */
  function OldMobileLines(vnum: string, texts: seq<string>, a: seq<string>, b: seq<string>, c: seq<string>,
                          d: seq<string>, rest: string): string
    requires a != [] && b != [] && c != [] && d != []
  {
    "#" + (vnum + (TildeLines(texts) + ("\n" + OldMobileRows(a, b, c, d, rest))))
  }

  function OldMobileRows(a: seq<string>, b: seq<string>, c: seq<string>, d: seq<string>, rest: string): string
    requires a != [] && b != [] && c != [] && d != []
  {
    Columns(a) + ("\n" + (Columns(b) + ("\n" + (Columns(c) + ("\n" + (Columns(d) + ("\n" + rest)))))))
  }

  /** Reading back an old mobile: the written-out rows are read as the old
      mobile holding the first three columns of the first row, the level,
      the wealth and the three positions; the group, the four columns after
      the level and the column after the wealth are read and dropped. */
  lemma OldMobileReadsBack(s: string, p: nat, ws: string, vnum: string, texts: seq<string>,
                           a: seq<string>, b: seq<string>, c: seq<string>, d: seq<string>,
                           rest: string) returns (e: nat)
    requires AllWhitespace(ws) && IsWord(vnum, Nums) && |texts| == 4 && AllTildeText(texts)
    requires AllFit(a, [FlagChars, FlagChars, SignedNums, Alnums])
    requires AllFit(b, [Nums, Nums, Nums, DiceChars, DiceChars])
    requires AllFit(c, [Nums, Nums]) && AllFit(d, [Nums, Nums, Nums])
    requires At(s, p, ws + OldMobileLines(vnum, texts, a, b, c, d, rest))
    ensures OldMobileItem(s, p)
         == Ok([OldMobile(vnum, texts[0], texts[1], texts[2], texts[3], a[0], a[1], a[2], b[0], c[0],
                          d[0], d[1], d[2])], e)
    ensures At(s, e, "\n" + rest) && e + 1 + |rest| == p + |ws| + |OldMobileLines(vnum, texts, a, b, c, d, rest)|
  {
    var e0, e1 := RecordHeadReads(s, p, ws, vnum, texts, OldMobileRows(a, b, c, d, rest));
    var q1, q2, q3;
    q1, q2, q3, e := OldMobileRowsRead(s, e1, a, b, c, d, rest);
    OldMobileItemReads(s, p, vnum, texts, a, b, c, d, e0, e1, q1, q2, q3, e);
  }

  /** The four rows of columns, read one line after the other. */
  lemma OldMobileRowsRead(s: string, q: nat, a: seq<string>, b: seq<string>, c: seq<string>, d: seq<string>,
                          rest: string) returns (q1: nat, q2: nat, q3: nat, e: nat)
    requires AllFit(a, [FlagChars, FlagChars, SignedNums, Alnums])
    requires AllFit(b, [Nums, Nums, Nums, DiceChars, DiceChars])
    requires AllFit(c, [Nums, Nums]) && AllFit(d, [Nums, Nums, Nums])
    requires At(s, q, "\n" + OldMobileRows(a, b, c, d, rest))
    ensures Row(s, q, [FlagChars, FlagChars, SignedNums, Alnums]) == Ok(a, q1)
    ensures Row(s, q1, [Nums, Nums, Nums, DiceChars, DiceChars]) == Ok(b, q2)
    ensures Row(s, q2, [Nums, Nums]) == Ok(c, q3) && Row(s, q3, [Nums, Nums, Nums]) == Ok(d, e)
    ensures At(s, e, "\n" + rest) && e + |rest| == q + |OldMobileRows(a, b, c, d, rest)|
  {
    var z := "\n" + (Columns(d) + ("\n" + rest));
    var y := "\n" + (Columns(c) + z);
    var x := "\n" + (Columns(b) + y);
    assert OldMobileRows(a, b, c, d, rest) == Columns(a) + x;
    q1 := q + 1 + |Columns(a)|;
    RowLine(s, q, a, [FlagChars, FlagChars, SignedNums, Alnums], x[1..], q1);
    q2 := q1 + 1 + |Columns(b)|;
    RowLine(s, q1, b, [Nums, Nums, Nums, DiceChars, DiceChars], y[1..], q2);
    q3 := q2 + 1 + |Columns(c)|;
    RowLine(s, q2, c, [Nums, Nums], z[1..], q3);
    e := q3 + 1 + |Columns(d)|;
    RowLine(s, q3, d, [Nums, Nums, Nums], rest, e);
  }

  /** The old mobile `OldMobileItem` assembles from its tokens. */
  lemma OldMobileItemReads(s: string, p: nat, vnum: string, texts: seq<string>,
                           a: seq<string>, b: seq<string>, c: seq<string>, d: seq<string>,
                           e0: nat, e1: nat, q1: nat, q2: nat, q3: nat, e: nat)
    requires p <= |s| && |texts| == 4 && |a| == 4 && |b| == 5 && |c| == 2 && |d| == 3
    requires Vnum(s, p) == Ok(vnum, e0) && TextLines(s, e0, 4) == Ok(texts, e1)
    requires Row(s, e1, [FlagChars, FlagChars, SignedNums, Alnums]) == Ok(a, q1)
    requires Row(s, q1, [Nums, Nums, Nums, DiceChars, DiceChars]) == Ok(b, q2)
    requires Row(s, q2, [Nums, Nums]) == Ok(c, q3) && Row(s, q3, [Nums, Nums, Nums]) == Ok(d, e)
    ensures OldMobileItem(s, p)
         == Ok([OldMobile(vnum, texts[0], texts[1], texts[2], texts[3], a[0], a[1], a[2], b[0], c[0],
                          d[0], d[1], d[2])], e)
  {
  }

  /** A written-out mobile followed, on the next line, by something other
      than an `F` block is read as one mobile with no affects. */
  lemma MobileItemReadsBack(s: string, p: nat, ws: string, m: Mobile, rest: string) returns (e: nat)
    requires MobileWritable(m) && AllWhitespace(ws) && At(s, p, ws + MobileLines(m, rest))
    requires |rest| > 0 && !InClass(rest[0], Whitespace) && rest[0] != 'F'
    ensures MobileItem(s, p) == Ok([m], e)
    ensures At(s, e, "\n" + rest) && e + 1 + |rest| == p + |ws| + |MobileLines(m, rest)|
  {
    e := MobileFixedReadsBack(s, p, ws, m, rest);
    NoFlagBlock(s, e, rest);
    MobileItemNoAffects(s, p, m, e);
  }

  /** No `F` block stands where the next line starts with something else. */
  lemma NoFlagBlock(s: string, e: nat, rest: string)
    requires At(s, e, "\n" + rest) && |rest| > 0 && !InClass(rest[0], Whitespace) && rest[0] != 'F'
    ensures Progressive(s, MobileFlagBlock) && Many(s, e, MobileFlagBlock) == Parsed([], e)
  {
    assert AllWhitespace("\n");
    SkipReads(s, e, "\n", rest);
    AtFirst(s, e + 1, rest);
    LitMismatch(s, e, "F", 0);
    MobileFlagBlockProgressive(s);
  }

  lemma MobileItemNoAffects(s: string, p: nat, m: Mobile, e: nat)
    requires p <= e <= |s| && MobileFixed(s, p) == Ok(m, e) && m.affectsF == []
    requires Progressive(s, MobileFlagBlock) && Many(s, e, MobileFlagBlock) == Parsed([], e)
    ensures MobileItem(s, p) == Ok([m], e)
  {
    assert MobileAffects([]) == [];
  }

  /** A `#MOBILES` section holding one written-out mobile and closed by
      `#0` at the end of the input reads as that one mobile. */
  lemma OneMobileSection(s: string, m: Mobile)
    requires MobileWritable(m) && s == "#MOBILES\n" + MobileLines(m, "#0")
    ensures MobilesSection(s, 0) == Ok([m], |s|)
  {
    assert s[0..|s|] == s;
    assert "#MOBILES\n" + MobileLines(m, "#0") == "#MOBILES" + ("\n" + MobileLines(m, "#0"));
    AtParts(s, 0, "#MOBILES", "\n" + MobileLines(m, "#0"), 8);
    OneMobileAt(s, m, "#0");
  }

  lemma OneMobileAt(s: string, m: Mobile, close: string)
    requires MobileWritable(m) && At(s, 0, "#MOBILES") && At(s, 8, "\n" + MobileLines(m, close))
    requires |close| == 2 && close[0] == '#' && close[1] == '0' && |s| == 9 + |MobileLines(m, close)|
    ensures MobilesSection(s, 0) == Ok([m], |s|)
  {
    assert AllWhitespace("\n");
    var e := MobileItemReadsBack(s, 8, "\n", m, close);
    OneMobileClosed(s, m, close, e);
  }

  /** `#MOBILES`, one mobile, and the `#0` that ends the input. */
  lemma OneMobileClosed(s: string, m: Mobile, close: string, e: nat)
    requires At(s, 0, "#MOBILES") && 8 <= e <= |s| && MobileItem(s, 8) == Ok([m], e)
    requires |close| == 2 && close[0] == '#' && close[1] == '0' && At(s, e, "\n" + close) && e + 3 == |s|
    ensures MobilesSection(s, 0) == Ok([m], |s|)
  {
    ZeroCloses(s, e, close);
    MobileItemProgressive(s);
    DelimitedSingleZero(s, "#MOBILES", MobileItem, close, [m], e);
  }

  /** The closing `#0` at the end of the input is not a mobile: the number
      0 is read, and then no text line is left. */
  lemma ZeroCloses(s: string, e: nat, close: string)
    requires |close| == 2 && close[0] == '#' && close[1] == '0'
    requires At(s, e, "\n" + close) && e + 3 == |s|
    ensures MobileItem(s, e).Fail?
  {
    AtChar(s, e, "\n" + close, 0);
    AtChar(s, e, "\n" + close, 1);
    AtChar(s, e, "\n" + close, 2);
    assert Skip(s, e) == e + 1;
    assert Vnum(s, e).next == |s|;
    assert TextLines(s, |s|, 5).Fail?;
  }

  /** Reading back a mobile's `F` block written after some whitespace: its
      two words are the affect's word and flag. */
  lemma MobileFlagReadsBack(s: string, p: nat, ws: string, a: MobileAffect, rest: string, e: nat)
    requires AllWhitespace(ws) && IsWord(a.word, Alphas) && IsWord(a.flag, Alnums)
    requires At(s, p, ws + ("F" + (" " + (a.word + (" " + (a.flag + rest))))))
    requires |rest| > 0 && !InClass(rest[0], Alnums) && e == p + |ws| + 3 + |a.word| + |a.flag|
    ensures MobileFlagBlock(s, p) == Ok([MobileFlag(a)], e) && At(s, e, rest)
  {
    var e1 := p + |ws| + 1;
    var e2 := e1 + 1 + |a.word|;
    assert Lit(s, p, "F") == Ok((), e1) && At(s, e1, " " + (a.word + (" " + (a.flag + rest)))) by {
      ReadLit(s, p, ws, "F", " " + (a.word + (" " + (a.flag + rest))), e1);
    }
    assert WordOf(s, e1, Alphas) == Ok(a.word, e2) && At(s, e2, " " + (a.flag + rest)) by {
      assert AllWhitespace(" ");
      ReadWord(s, e1, " ", a.word, Alphas, " " + (a.flag + rest), e2);
    }
    assert WordOf(s, e2, Alnums) == Ok(a.flag, e) && At(s, e, rest) by {
      assert AllWhitespace(" ");
      ReadWord(s, e2, " ", a.flag, Alnums, rest, e);
    }
    MobileFlagBlockReads(s, p, a, e1, e2, e);
  }

  lemma MobileFlagBlockReads(s: string, p: nat, a: MobileAffect, e1: nat, e2: nat, e: nat)
    requires p <= |s| && Lit(s, p, "F") == Ok((), e1) && e1 <= |s|
    requires WordOf(s, e1, Alphas) == Ok(a.word, e2) && e2 <= |s|
    requires WordOf(s, e2, Alnums) == Ok(a.flag, e)
    ensures MobileFlagBlock(s, p) == Ok([MobileFlag(a)], e)
  {
  }

  /** A mobile's `F` block on the line after `q` is read there. */
  lemma MobileFlagAfterNewline(s: string, q: nat, a: MobileAffect, tail: string)
    requires BlockWritable(MobileFlag(a)) && At(s, q, "\n" + (BlockLine(MobileFlag(a)) + tail))
    requires |tail| > 0 && tail[0] == '\n'
    ensures MobileFlagBlock(s, q) == Ok([MobileFlag(a)], q + 1 + |BlockLine(MobileFlag(a))|)
  {
    var text := "F" + (" " + (a.word + (" " + (a.flag + tail))));
    assert "\n" + (BlockLine(MobileFlag(a)) + tail) == "\n" + text;
    MobileFlagReadsBack(s, q, "\n", a, tail, q + 4 + |a.word| + |a.flag|);
  }

  /** The first block of a written-out run of `F` blocks is the one read
      there. */
  lemma MobileFlagFirst(s: string, q: nat, bs: seq<Block>, next: string)
    requires bs != [] && BlocksOf(bs, {MobileFlagKind}) && At(s, q, "\n" + (BlockLines(bs) + next))
    ensures MobileFlagBlock(s, q) == Ok([bs[0]], q + 1 + |BlockLine(bs[0])|)
    ensures |BlockLines(bs)| == 1 + |BlockLine(bs[0])| + |BlockLines(bs[1..])|
  {
    BlockRunFirst(s, q, bs, next);
    MobileFlagAfterNewline(s, q, bs[0].mobileAffect, "\n" + (BlockLines(bs[1..]) + next));
  }

  /** A run of `F` blocks written one per line after `q` is read back,
      block for block and in order, up to the newline before `next`. */
  lemma {:induction false} MobileFlagsRead(s: string, q: nat, bs: seq<Block>, next: string)
    requires BlocksOf(bs, {MobileFlagKind}) && At(s, q, "\n" + (BlockLines(bs) + next))
    requires |next| > 0 && !InClass(next[0], Whitespace) && next[0] != 'F'
    ensures Progressive(s, MobileFlagBlock)
    ensures Many(s, q, MobileFlagBlock) == Parsed(bs, q + |BlockLines(bs)|)
    decreases |bs|
  {
    MobileFlagBlockProgressive(s);
    if bs == [] {
      assert "\n" + (BlockLines(bs) + next) == "\n" + next;
      NoFlagBlock(s, q, next);
    } else {
      var q1 := q + 1 + |BlockLine(bs[0])|;
      var e := q1 + |BlockLines(bs[1..])|;
      assert MobileFlagBlock(s, q) == Ok([bs[0]], q1) && e == q + |BlockLines(bs)| by {
        MobileFlagFirst(s, q, bs, next);
      }
      assert Many(s, q1, MobileFlagBlock) == Parsed(bs[1..], e) by {
        assert BlocksOf(bs[1..], {MobileFlagKind});
        BlockRunRest(s, q, bs, next, q1);
        MobileFlagsRead(s, q1, bs[1..], next);
      }
      ManyFirst(s, q, MobileFlagBlock, bs, q1, e);
    }
  }

  /** A written-out mobile followed by its `F` blocks, one per line, reads
      back as that mobile with one affect per block, in input order. */
  lemma MobileWithFlagsReadsBack(s: string, p: nat, ws: string, m: Mobile, bs: seq<Block>, next: string)
    returns (e: nat)
    requires MobileWritable(m) && AllWhitespace(ws) && BlocksOf(bs, {MobileFlagKind})
    requires At(s, p, ws + MobileLines(m, BlockLines(bs) + next))
    requires |next| > 0 && !InClass(next[0], Whitespace) && next[0] != 'F'
    ensures MobileItem(s, p) == Ok([m.(affectsF := MobileAffects(bs))], e)
    ensures At(s, e, "\n" + next)
  {
    var h := MobileFixedReadsBack(s, p, ws, m, BlockLines(bs) + next);
    e := h + |BlockLines(bs)|;
    assert Progressive(s, MobileFlagBlock) && Many(s, h, MobileFlagBlock) == Parsed(bs, e) by {
      MobileFlagsRead(s, h, bs, next);
    }
    assert At(s, e, "\n" + next) by {
      BlockRunEnd(s, h, bs, next, e);
    }
    MobileItemReads(s, p, m, h, bs, e);
  }

  /** A run of `F` blocks gives one affect per block, in input order. */
  lemma MobileAffectsInOrder(bs: seq<Block>)
    requires BlocksOf(bs, {MobileFlagKind})
    ensures |MobileAffects(bs)| == |bs|
    ensures forall i :: 0 <= i < |bs| ==> bs[i] == MobileFlag(MobileAffects(bs)[i])
  {
    BlocksOfKinds(bs, {MobileFlagKind});
    SelectOfOneKind(bs, MobileFlagKind);
  }

  lemma MobileItemReads(s: string, p: nat, m: Mobile, h: nat, bs: seq<Block>, e: nat)
    requires p <= |s| && MobileFixed(s, p) == Ok(m, h) && h <= |s|
    requires Progressive(s, MobileFlagBlock) && Many(s, h, MobileFlagBlock) == Parsed(bs, e)
    ensures MobileItem(s, p) == Ok([m.(affectsF := MobileAffects(bs))], e)
  {
  }
}
