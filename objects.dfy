/** The `#OBJECTS` and `#OBJOLD` sections: object records until `#0`.

    An object has no closing letter of its own: its block run ends where no
    block alternative matches, and the next record (or the `#0`) follows. */
module Objects {
  import opened Lexer
  import opened Blocks

  datatype GameObject = GameObject(
    vnum: string, name: string, shortDescription: string, description: string, material: string,
    itemType: string, extraFlags: string, wearFlags: string, values: string,
    level: string, weight: string, cost: string, condition: string,
    affectsA: seq<LocationAffect>, affectsF: seq<FlagAffect>, extraDescriptions: seq<ExtraDescription>)

  /** The older object record: no material, level or condition. */
  datatype OldObject = OldObject(
    vnum: string, name: string, shortDescription: string, description: string,
    itemType: string, extraFlags: string, wearFlags: string, values: string,
    weight: string, cost: string,
    affectsA: seq<LocationAffect>, extraDescriptions: seq<ExtraDescription>)

  /** The fixed fields of an object, before its blocks. */
  datatype ObjectHead = ObjectHead(
    vnum: string, name: string, shortDescription: string, description: string, material: string,
    itemType: string, extraFlags: string, wearFlags: string, values: string,
    level: string, weight: string, cost: string, condition: string)

  datatype OldObjectHead = OldObjectHead(
    vnum: string, name: string, shortDescription: string, description: string,
    itemType: string, extraFlags: string, wearFlags: string, values: string,
    weight: string, cost: string)

  function ObjectOf(h: ObjectHead, bs: seq<Block>): GameObject {
    GameObject(h.vnum, h.name, h.shortDescription, h.description, h.material,
               h.itemType, h.extraFlags, h.wearFlags, h.values,
               h.level, h.weight, h.cost, h.condition,
               LocationAffects(bs), FlagAffects(bs), Extras(bs))
  }

  function OldObjectOf(h: OldObjectHead, bs: seq<Block>): OldObject {
    OldObject(h.vnum, h.name, h.shortDescription, h.description,
              h.itemType, h.extraFlags, h.wearFlags, h.values,
              h.weight, h.cost, LocationAffects(bs), Extras(bs))
  }

  /** The four tilde strings of a current object, each ending its line. */
  function ObjectTexts(s: string, p: nat): (r: Res<(string, string, string, string, string)>)
    requires p <= |s|
    ensures r.Ok? ==> p < r.next <= |s|
  {
    var vnum :- Vnum(s, p);
    var name :- TildeString(s, vnum.next);
    var short :- TildeString(s, LineEnd(s, name.next));
    var desc :- TildeString(s, LineEnd(s, short.next));
    var material :- TildeString(s, LineEnd(s, desc.next));
    Ok((vnum.value, name.value, short.value, desc.value, material.value), LineEnd(s, material.next))
  }

  /** The fixed fields of a current object. */
  function ObjectFixed(s: string, p: nat): (r: Res<ObjectHead>)
    requires p <= |s|
    ensures r.Ok? ==> p < r.next <= |s|
  {
    var texts :- ObjectTexts(s, p);
    var itemType :- WordOf(s, texts.next, TypeChars);
    var extraFlags :- WordOf(s, itemType.next, FlagChars);
    var wearFlags :- WordOf(s, extraFlags.next, FlagChars);
    var values :- WordOf(s, LineEnd(s, wearFlags.next), ValueChars);
    var level :- WordOf(s, values.next, SignedNums);
    var weight :- WordOf(s, level.next, SignedNums);
    var cost :- WordOf(s, weight.next, SignedNums);
    var condition :- WordOf(s, cost.next, Alnums);
    var (vnum, name, short, desc, material) := texts.value;
    Ok(ObjectHead(vnum, name, short, desc, material, itemType.value, extraFlags.value, wearFlags.value,
                  values.value, level.value, weight.value, cost.value, condition.value),
       LineEnd(s, condition.next))
  }

  /** `A` location modifier. */
  function LocationBlock(s: string, p: nat): (r: Res<LocationAffect>)
    requires p <= |s|
    ensures r.Ok? ==> Lit(s, p, "A").Ok? && p < r.next <= |s|
    ensures r.Ok? ==> IsWord(r.value.location, SignedNums) && IsWord(r.value.modifier, SignedNums)
  {
    var t :- Lit(s, p, "A");
    var location :- WordOf(s, t.next, SignedNums);
    var modifier :- WordOf(s, location.next, SignedNums);
    WordIsWord(s, t.next, SignedNums);
    WordIsWord(s, location.next, SignedNums);
    Ok(LocationAffect(location.value, modifier.value), modifier.next)
  }

  /** `F` where location modifier bitvector. */
  function FlagBlock(s: string, p: nat): (r: Res<FlagAffect>)
    requires p <= |s|
    ensures r.Ok? ==> Lit(s, p, "F").Ok? && p < r.next <= |s|
    ensures r.Ok? ==> IsWord(r.value.where, Alphas) && IsWord(r.value.location, Nums)
    ensures r.Ok? ==> IsWord(r.value.modifier, SignedNums) && IsWord(r.value.bitvector, Alnums)
  {
    var t :- Lit(s, p, "F");
    var where :- WordOf(s, t.next, Alphas);
    var location :- WordOf(s, where.next, Nums);
    var modifier :- WordOf(s, location.next, SignedNums);
    var bitvector :- WordOf(s, modifier.next, Alnums);
    WordIsWord(s, t.next, Alphas);
    WordIsWord(s, where.next, Nums);
    WordIsWord(s, location.next, SignedNums);
    WordIsWord(s, modifier.next, Alnums);
    Ok(FlagAffect(where.value, location.value, modifier.value, bitvector.value), bitvector.next)
  }

  /** One block of a current object, tried in the order A, F, E. */
  function ObjectBlock(s: string, p: nat): (r: Res<seq<Block>>)
    requires p <= |s|
    ensures r.Ok? ==> p < r.next <= |s| && |r.value| == 1
  {
    var a := LocationBlock(s, p);
    if a.Ok? then Ok([ByLocation(a.value)], a.next) else
    var f := FlagBlock(s, p);
    if f.Ok? then Ok([ByFlag(f.value)], f.next) else
    var e :- ExtraBlock(s, p);
    Ok([Extra(e.value)], e.next)
  }

  /** One block of an old object, tried in the order A, E. */
  function OldObjectBlock(s: string, p: nat): (r: Res<seq<Block>>)
    requires p <= |s|
    ensures r.Ok? ==> p < r.next <= |s| && |r.value| == 1
    ensures r.Ok? ==> r.value[0].ByLocation? || r.value[0].Extra?
    ensures r.Ok? && r.value[0].ByLocation? ==> LocationBlock(s, p) == Ok(r.value[0].affect, r.next)
    ensures r.Ok? && r.value[0].Extra? ==> LocationBlock(s, p).Fail? && ExtraBlock(s, p) == Ok(r.value[0].extra, r.next)
  {
    var a := LocationBlock(s, p);
    if a.Ok? then Ok([ByLocation(a.value)], a.next) else
    var e :- ExtraBlock(s, p);
    Ok([Extra(e.value)], e.next)
  }

  /** One current object: its fixed fields and every block that follows. */
  function ObjectItem(s: string, p: nat): (r: Res<seq<GameObject>>)
    requires p <= |s|
    ensures r.Ok? ==> p < r.next <= |s| && |r.value| == 1
  {
    var head :- ObjectFixed(s, p);
    ObjectBlockProgressive(s);
    var blocks := Many(s, head.next, ObjectBlock);
    Ok([ObjectOf(head.value, blocks.value)], blocks.next)
  }

  /** `#OBJECTS`, any number of objects, `#0`. */
  function ObjectsSection(s: string, p: nat): (r: Res<seq<GameObject>>)
    requires p <= |s|
    ensures r.Ok? ==> Lit(s, p, "#OBJECTS").Ok? && p < r.next <= |s|
    ensures r.Ok? ==> ClosedByZero(s, r.next)
    ensures Progressive(s, ObjectItem)
    ensures r.Ok? ==> r.value == Many(s, Lit(s, p, "#OBJECTS").next, ObjectItem).value
  {
    ObjectItemProgressive(s);
    var list := Delimited(s, p, "#OBJECTS", ObjectItem, "#0");
    ZeroClosed(s, p, "#OBJECTS", ObjectItem, list);
    list
  }

  /** The vnum and the four tilde strings of an old object; the fourth
      (the material) is read and dropped. */
  function OldObjectTexts(s: string, p: nat): (r: Res<(string, string, string, string)>)
    requires p <= |s|
    ensures r.Ok? ==> p < r.next <= |s|
  {
    var vnum :- Vnum(s, p);
    var name :- TildeString(s, vnum.next);
    var short :- TildeString(s, name.next);
    var desc :- TildeString(s, short.next);
    var dropped :- TildeString(s, desc.next);
    Ok((vnum.value, name.value, short.value, desc.value), dropped.next)
  }

  /** The fixed fields of an old object. The material and the number after
      the cost are read and dropped. */
  function OldObjectFixed(s: string, p: nat): (r: Res<OldObjectHead>)
    requires p <= |s|
    ensures r.Ok? ==> p < r.next <= |s|
  {
    var texts :- OldObjectTexts(s, p);
    var itemType :- WordOf(s, texts.next, Alnums);
    var extraFlags :- WordOf(s, itemType.next, FlagChars);
    var wearFlags :- WordOf(s, extraFlags.next, FlagChars);
    var values :- WordOf(s, wearFlags.next, ValueChars);
    var weight :- WordOf(s, values.next, Nums);
    var cost :- WordOf(s, weight.next, Nums);
    var droppedNumber :- WordOf(s, cost.next, Nums);
    var (vnum, name, short, desc) := texts.value;
    Ok(OldObjectHead(vnum, name, short, desc, itemType.value, extraFlags.value,
                     wearFlags.value, values.value, weight.value, cost.value),
       droppedNumber.next)
  }

  /** One old object: its fixed fields and every block that follows. */
  function OldObjectItem(s: string, p: nat): (r: Res<seq<OldObject>>)
    requires p <= |s|
    ensures r.Ok? ==> p < r.next <= |s| && |r.value| == 1
  {
    var head :- OldObjectFixed(s, p);
    OldObjectBlockProgressive(s);
    var blocks := Many(s, head.next, OldObjectBlock);
    Ok([OldObjectOf(head.value, blocks.value)], blocks.next)
  }

  /** `#OBJOLD`, any number of old objects, `#0`. */
  function OldObjectsSection(s: string, p: nat): (r: Res<seq<OldObject>>)
    requires p <= |s|
    ensures r.Ok? ==> Lit(s, p, "#OBJOLD").Ok? && p < r.next <= |s|
    ensures r.Ok? ==> ClosedByZero(s, r.next)
    ensures Progressive(s, OldObjectItem)
    ensures r.Ok? ==> r.value == Many(s, Lit(s, p, "#OBJOLD").next, OldObjectItem).value
  {
    OldObjectItemProgressive(s);
    var list := Delimited(s, p, "#OBJOLD", OldObjectItem, "#0");
    ZeroClosed(s, p, "#OBJOLD", OldObjectItem, list);
    list
  }

  /** An old object's fixed fields written out: its text lines, then its
      word lines. */
  function OldObjectLine(vnum: string, name: string, short: string, description: string, material: string,
                         itemType: string, extraFlags: string, wearFlags: string, values: string,
                         weight: string, cost: string, dropped: string): string {
    OldObjectTextLines(vnum, name, short, description, material)
    + OldObjectWordLines(itemType, extraFlags, wearFlags, values, weight, cost, dropped)
  }

  /** The vnum line and four tilde strings on their lines; the fourth is
      the material. */
  function OldObjectTextLines(vnum: string, name: string, short: string, description: string, material: string): string {
    "#" + vnum + "\n" + name + "~\n" + short + "~\n" + description + "~\n" + material + "~"
  }

  /** The type, extra flags and wear flags on one line, the values on the
      next, then weight, cost and one more number. */
  function OldObjectWordLines(itemType: string, extraFlags: string, wearFlags: string, values: string,
                              weight: string, cost: string, dropped: string): string {
    "\n" + itemType + " " + extraFlags + " " + wearFlags + "\n" + values + "\n" + weight + " " + cost + " " + dropped + "\n"
  }

  /** The fixed fields of a written-out old object read back as given,
      except that the material and the number after the cost are read and
      dropped: the head has no place for them. */
  lemma OldObjectReadsBack(s: string, p: nat, vnum: string, name: string, short: string, description: string,
                           material: string, itemType: string, extraFlags: string, wearFlags: string,
                           values: string, weight: string, cost: string, dropped: string, e: nat)
    requires IsWord(vnum, Nums) && TildeText(name) && TildeText(short) && TildeText(description) && TildeText(material)
    requires IsWord(itemType, Alnums) && IsWord(extraFlags, FlagChars) && IsWord(wearFlags, FlagChars)
    requires IsWord(values, ValueChars) && IsWord(weight, Nums) && IsWord(cost, Nums) && IsWord(dropped, Nums)
    requires At(s, p, OldObjectLine(vnum, name, short, description, material, itemType, extraFlags, wearFlags,
                                    values, weight, cost, dropped))
    requires e == p + |OldObjectLine(vnum, name, short, description, material, itemType, extraFlags, wearFlags,
                                     values, weight, cost, dropped)| - 1
    ensures OldObjectFixed(s, p)
         == Ok(OldObjectHead(vnum, name, short, description, itemType, extraFlags, wearFlags, values, weight, cost), e)
    ensures At(s, e, "\n")
  {
    var texts := OldObjectTextLines(vnum, name, short, description, material);
    var words := OldObjectWordLines(itemType, extraFlags, wearFlags, values, weight, cost, dropped);
    OldObjectLineParts(vnum, name, short, description, material, itemType, extraFlags, wearFlags,
                       values, weight, cost, dropped);
    var e1 := p + 1 + |vnum|;
    var e2 := e1 + |name| + 2;
    var e3 := e2 + |short| + 2;
    var e4 := e3 + |description| + 2;
    var e5 := e4 + |material| + 2;
    OldObjectTextLength(vnum, name, short, description, material);
    OldObjectWordLength(itemType, extraFlags, wearFlags, values, weight, cost, dropped);
    AtParts(s, p, texts, words, e5);
    var e6 := e5 + 1 + |itemType|;
    var e7 := e6 + 1 + |extraFlags|;
    var e8 := e7 + 1 + |wearFlags|;
    var e9 := e8 + 1 + |values|;
    var e10 := e9 + 1 + |weight|;
    var e11 := e10 + 1 + |cost|;
    OldObjectTextTokens(s, p, vnum, name, short, description, material, e1, e2, e3, e4, e5);
    OldObjectWordTokens(s, e5, itemType, extraFlags, wearFlags, values, weight, cost, dropped, e6, e7, e8, e9, e10, e11, e);
    OldObjectTextsReads(s, p, vnum, name, short, description, material, e1, e2, e3, e4, e5);
    OldObjectFixedReads(s, p, OldObjectHead(vnum, name, short, description, itemType, extraFlags, wearFlags, values, weight, cost),
                        dropped, e5, e6, e7, e8, e9, e10, e11, e);
  }

  lemma OldObjectLineParts(vnum: string, name: string, short: string, description: string, material: string,
                           itemType: string, extraFlags: string, wearFlags: string, values: string,
                           weight: string, cost: string, dropped: string)
    ensures OldObjectLine(vnum, name, short, description, material, itemType, extraFlags, wearFlags, values, weight, cost, dropped)
         == OldObjectTextLines(vnum, name, short, description, material)
            + OldObjectWordLines(itemType, extraFlags, wearFlags, values, weight, cost, dropped)
    ensures |OldObjectLine(vnum, name, short, description, material, itemType, extraFlags, wearFlags, values, weight, cost, dropped)|
         == |OldObjectTextLines(vnum, name, short, description, material)|
            + |OldObjectWordLines(itemType, extraFlags, wearFlags, values, weight, cost, dropped)|
  {
  }

  lemma OldObjectTextShape(vnum: string, name: string, short: string, description: string, material: string)
    ensures OldObjectTextLines(vnum, name, short, description, material)
         == "" + ("#" + (vnum + ("\n" + (name + ("~" + ("\n" + (short + ("~" + ("\n" + (description + ("~" + ("\n" + (material + ("~" + ""))))))))))))))
  {
  }

  lemma OldObjectTextLength(vnum: string, name: string, short: string, description: string, material: string)
    ensures |OldObjectTextLines(vnum, name, short, description, material)|
         == 1 + |vnum| + 1 + |name| + 2 + |short| + 2 + |description| + 2 + |material| + 1
  {
  }

  lemma OldObjectWordShape(itemType: string, extraFlags: string, wearFlags: string, values: string,
                           weight: string, cost: string, dropped: string)
    ensures OldObjectWordLines(itemType, extraFlags, wearFlags, values, weight, cost, dropped)
         == "\n" + (itemType + (" " + (extraFlags + (" " + (wearFlags + ("\n" + (values + ("\n" + (weight + (" " + (cost + (" " + (dropped + "\n")))))))))))))
  {
  }

  lemma OldObjectWordLength(itemType: string, extraFlags: string, wearFlags: string, values: string,
                           weight: string, cost: string, dropped: string)
    ensures |OldObjectWordLines(itemType, extraFlags, wearFlags, values, weight, cost, dropped)|
         == 1 + |itemType| + 1 + |extraFlags| + 1 + |wearFlags| + 1 + |values| + 1 + |weight| + 1 + |cost| + 1 + |dropped| + 1
  {
  }

  /** The vnum line and the four tilde strings of a written-out old object. */
  lemma OldObjectTextTokens(s: string, p: nat, vnum: string, name: string, short: string, description: string,
                             material: string, e1: nat, e2: nat, e3: nat, e4: nat, e5: nat)
    requires IsWord(vnum, Nums) && TildeText(name) && TildeText(short) && TildeText(description) && TildeText(material)
    requires At(s, p, OldObjectTextLines(vnum, name, short, description, material))
    requires e1 == p + 1 + |vnum| && e2 == e1 + |name| + 2 && e3 == e2 + |short| + 2
    requires e4 == e3 + |description| + 2 && e5 == e4 + |material| + 2
    ensures p <= |s| && Vnum(s, p) == Ok(vnum, e1) && e1 <= |s|
    ensures TildeString(s, e1) == Ok(name, e2) && e2 <= |s|
    ensures TildeString(s, e2) == Ok(short, e3) && e3 <= |s|
    ensures TildeString(s, e3) == Ok(description, e4) && e4 <= |s|
    ensures TildeString(s, e4) == Ok(material, e5)
  {
    OldObjectTextShape(vnum, name, short, description, material);
    var r4 := "\n" + (material + ("~" + ""));
    var r3 := "\n" + (description + ("~" + r4));
    var r2 := "\n" + (short + ("~" + r3));
    var r1 := "\n" + (name + ("~" + r2));
    assert AllWhitespace("");
    VnumReads(s, p, "", vnum, r1, e1);
    FourTildes(s, e1, name, short, description, material, e2, e3, e4, e5);
  }

  /** Four tilde strings, each on a line of its own. */
  lemma FourTildes(s: string, e1: nat, name: string, short: string, description: string, material: string,
                   e2: nat, e3: nat, e4: nat, e5: nat)
    requires TildeText(name) && TildeText(short) && TildeText(description) && TildeText(material)
    requires At(s, e1, "\n" + (name + ("~" + ("\n" + (short + ("~" + ("\n" + (description + ("~" + ("\n" + (material + ("~" + ""))))))))))))
    requires e2 == e1 + |name| + 2 && e3 == e2 + |short| + 2
    requires e4 == e3 + |description| + 2 && e5 == e4 + |material| + 2
    ensures e1 <= |s| && TildeString(s, e1) == Ok(name, e2) && e2 <= |s|
    ensures TildeString(s, e2) == Ok(short, e3) && e3 <= |s|
    ensures TildeString(s, e3) == Ok(description, e4) && e4 <= |s|
    ensures TildeString(s, e4) == Ok(material, e5)
  {
    var r4 := "\n" + (material + ("~" + ""));
    var r3 := "\n" + (description + ("~" + r4));
    var r2 := "\n" + (short + ("~" + r3));
    assert AllWhitespace("\n");
    ReadTilde(s, e1, "\n", name, r2, e2);
    ReadTilde(s, e2, "\n", short, r3, e3);
    ReadTilde(s, e3, "\n", description, r4, e4);
    ReadTilde(s, e4, "\n", material, "", e5);
  }

  /** The seven words of a written-out old object's fixed fields. */
  lemma OldObjectWordTokens(s: string, e5: nat, itemType: string, extraFlags: string, wearFlags: string,
                             values: string, weight: string, cost: string, dropped: string,
                             e6: nat, e7: nat, e8: nat, e9: nat, e10: nat, e11: nat, e: nat)
    requires IsWord(itemType, Alnums) && IsWord(extraFlags, FlagChars) && IsWord(wearFlags, FlagChars)
    requires IsWord(values, ValueChars) && IsWord(weight, Nums) && IsWord(cost, Nums) && IsWord(dropped, Nums)
    requires At(s, e5, OldObjectWordLines(itemType, extraFlags, wearFlags, values, weight, cost, dropped))
    requires e6 == e5 + 1 + |itemType| && e7 == e6 + 1 + |extraFlags| && e8 == e7 + 1 + |wearFlags|
    requires e9 == e8 + 1 + |values| && e10 == e9 + 1 + |weight| && e11 == e10 + 1 + |cost|
    requires e == e11 + 1 + |dropped|
    ensures WordOf(s, e5, Alnums) == Ok(itemType, e6) && e6 <= |s|
    ensures WordOf(s, e6, FlagChars) == Ok(extraFlags, e7) && e7 <= |s|
    ensures WordOf(s, e7, FlagChars) == Ok(wearFlags, e8) && e8 <= |s|
    ensures WordOf(s, e8, ValueChars) == Ok(values, e9) && e9 <= |s|
    ensures WordOf(s, e9, Nums) == Ok(weight, e10) && e10 <= |s|
    ensures WordOf(s, e10, Nums) == Ok(cost, e11) && e11 <= |s|
    ensures WordOf(s, e11, Nums) == Ok(dropped, e) && At(s, e, "\n")
  {
    OldObjectWordShape(itemType, extraFlags, wearFlags, values, weight, cost, dropped);
    var r6 := " " + (dropped + "\n");
    var r5 := " " + (cost + r6);
    var r4 := "\n" + (weight + r5);
    var r3 := "\n" + (values + r4);
    var r2 := " " + (wearFlags + r3);
    var r1 := " " + (extraFlags + r2);
    assert AllWhitespace("\n") && AllWhitespace(" ");
    ReadWord(s, e5, "\n", itemType, Alnums, r1, e6);
    ReadWord(s, e6, " ", extraFlags, FlagChars, r2, e7);
    ReadWord(s, e7, " ", wearFlags, FlagChars, r3, e8);
    ReadWord(s, e8, "\n", values, ValueChars, r4, e9);
    ReadWord(s, e9, "\n", weight, Nums, r5, e10);
    ReadWord(s, e10, " ", cost, Nums, r6, e11);
    ReadWord(s, e11, " ", dropped, Nums, "\n", e);
  }

  /** An old object's number and text lines, read as given. */
  lemma OldObjectTextsReads(s: string, p: nat, vnum: string, name: string, short: string, description: string,
                            material: string, e1: nat, e2: nat, e3: nat, e4: nat, e5: nat)
    requires p <= |s| && Vnum(s, p) == Ok(vnum, e1)
    requires TildeString(s, e1) == Ok(name, e2)
    requires TildeString(s, e2) == Ok(short, e3)
    requires TildeString(s, e3) == Ok(description, e4)
    requires TildeString(s, e4) == Ok(material, e5)
    ensures OldObjectTexts(s, p) == Ok((vnum, name, short, description), e5)
  {
  }

  /** An old object head whose tokens are read as given. */
  lemma OldObjectFixedReads(s: string, p: nat, h: OldObjectHead, dropped: string,
                            e5: nat, e6: nat, e7: nat, e8: nat, e9: nat, e10: nat, e11: nat, e: nat)
    requires p <= |s| && OldObjectTexts(s, p) == Ok((h.vnum, h.name, h.shortDescription, h.description), e5)
    requires WordOf(s, e5, Alnums) == Ok(h.itemType, e6)
    requires WordOf(s, e6, FlagChars) == Ok(h.extraFlags, e7)
    requires WordOf(s, e7, FlagChars) == Ok(h.wearFlags, e8)
    requires WordOf(s, e8, ValueChars) == Ok(h.values, e9)
    requires WordOf(s, e9, Nums) == Ok(h.weight, e10)
    requires WordOf(s, e10, Nums) == Ok(h.cost, e11)
    requires WordOf(s, e11, Nums) == Ok(dropped, e)
    ensures OldObjectFixed(s, p) == Ok(h, e)
  {
  }

  /** A current object's fixed fields written out: `#` and its number, its
      four text lines, the type and flags on one line, the values on the
      next, and level, weight, cost and condition on the one after; `rest`
      follows the newline that ends that line. */
  function ObjectLines(h: ObjectHead, rest: string): string {
    "#" + (h.vnum + (TildeLines(ObjectHeadTexts(h)) + ("\n" + ObjectWordLines(h, rest))))
  }

  function ObjectHeadTexts(h: ObjectHead): seq<string> {
    [h.name, h.shortDescription, h.description, h.material]
  }

  function ObjectWordLines(h: ObjectHead, rest: string): string {
    h.itemType + (" " + (h.extraFlags + (" " + (h.wearFlags + ("\n" + (h.values + ("\n" + (h.level
    + (" " + (h.weight + (" " + (h.cost + (" " + (h.condition + ("\n" + rest)))))))))))))))
  }

  /** A head that its written-out fields carry exactly: a number, texts
      without `~`, and words of the classes they are read with. */
  predicate ObjectWritable(h: ObjectHead) {
    IsWord(h.vnum, Nums) && AllTildeText(ObjectHeadTexts(h))
    && IsWord(h.itemType, TypeChars) && IsWord(h.extraFlags, FlagChars) && IsWord(h.wearFlags, FlagChars)
    && IsWord(h.values, ValueChars) && IsWord(h.level, SignedNums) && IsWord(h.weight, SignedNums)
    && IsWord(h.cost, SignedNums) && IsWord(h.condition, Alnums)
  }

  /** Reading back a current object's fixed fields: the head written out
      after some whitespace is read as exactly that head, up to the newline
      that ends its last line. */
  lemma ObjectReadsBack(s: string, p: nat, ws: string, h: ObjectHead, rest: string) returns (e: nat)
    requires ObjectWritable(h) && AllWhitespace(ws) && At(s, p, ws + ObjectLines(h, rest))
    ensures ObjectFixed(s, p) == Ok(h, e)
    ensures At(s, e, "\n" + rest) && e + 1 + |rest| == p + |ws| + |ObjectLines(h, rest)|
  {
    var texts := ObjectHeadTexts(h);
    var tail := ObjectWordLines(h, rest);
    var e1 := ObjectTextsReadBack(s, p, ws, h.vnum, texts, tail);
    var w1, w2, w3 := TypeLineRead(s, e1, h.itemType, h.extraFlags, h.wearFlags,
                           h.values + ("\n" + (h.level + (" " + (h.weight + (" " + (h.cost + (" " + (h.condition + ("\n" + rest))))))))));
    var w4, w5, w6, w7;
    w4, w5, w6, w7, e := NumbersLinesRead(s, w3, h.values, h.level, h.weight, h.cost, h.condition, rest);
    ObjectFixedReads(s, p, h, e1, w1, w2, w3, w4, w5, w6, w7, e);
  }

  /** The number and text lines of a written-out object, as `ObjectTexts`
      reads them. */
  lemma ObjectTextsReadBack(s: string, p: nat, ws: string, vnum: string, texts: seq<string>,
                             tail: string) returns (e1: nat)
    requires AllWhitespace(ws) && IsWord(vnum, Nums) && |texts| == 4 && AllTildeText(texts)
    requires At(s, p, ws + ("#" + (vnum + (TildeLines(texts) + ("\n" + tail)))))
    ensures ObjectTexts(s, p) == Ok((vnum, texts[0], texts[1], texts[2], texts[3]), e1)
    ensures At(s, e1, "\n" + tail) && e1 == p + |ws| + 1 + |vnum| + |TildeLines(texts)|
  {
    var e0;
    e0, e1 := RecordHeadReads(s, p, ws, vnum, texts, tail);
    ObjectTextsByLines(s, p, vnum, texts, e0, e1);
  }

  /** A written-out object followed by a line that opens no block is
      read as that object with no modifiers and no extra descriptions. */
  lemma ObjectItemReadsBack(s: string, p: nat, ws: string, h: ObjectHead, rest: string) returns (e: nat)
    requires ObjectWritable(h) && AllWhitespace(ws) && At(s, p, ws + ObjectLines(h, rest))
    requires |rest| > 0 && !InClass(rest[0], Whitespace) && rest[0] != 'A' && rest[0] != 'F' && rest[0] != 'E'
    ensures ObjectItem(s, p) == Ok([ObjectOf(h, [])], e)
    ensures At(s, e, "\n" + rest) && e + 1 + |rest| == p + |ws| + |ObjectLines(h, rest)|
  {
    e := ObjectReadsBack(s, p, ws, h, rest);
    NoObjectBlock(s, e, rest);
  }

  /** No block stands where the next line starts with neither `A`, `F`
      nor `E`. */
  lemma NoObjectBlock(s: string, e: nat, rest: string)
    requires At(s, e, "\n" + rest) && |rest| > 0 && !InClass(rest[0], Whitespace)
    requires rest[0] != 'A' && rest[0] != 'F' && rest[0] != 'E'
    ensures Progressive(s, ObjectBlock) && Many(s, e, ObjectBlock) == Parsed([], e)
  {
    assert AllWhitespace("\n");
    SkipReads(s, e, "\n", rest);
    AtFirst(s, e + 1, rest);
    LitMismatch(s, e, "A", 0);
    LitMismatch(s, e, "F", 0);
    LitMismatch(s, e, "E", 0);
    ObjectBlockProgressive(s);
  }

  /** `ObjectTexts` is the number line and then four text lines. */
  lemma ObjectTextsByLines(s: string, p: nat, vnum: string, texts: seq<string>, e0: nat, e1: nat)
    requires p <= |s| && e0 <= |s| && Vnum(s, p) == Ok(vnum, e0) && TextLines(s, e0, 4) == Ok(texts, e1)
    ensures ObjectTexts(s, p) == Ok((vnum, texts[0], texts[1], texts[2], texts[3]), e1)
  {
    var q1, m1 := TextLinesStep(s, e0, 4);
    var q2, m2 := TextLinesStep(s, q1, 3);
    var q3, m3 := TextLinesStep(s, q2, 2);
    var q4, m4 := TextLinesStep(s, q3, 1);
    var a, b, c, d := TildeString(s, e0), TildeString(s, q1), TildeString(s, q2), TildeString(s, q3);
    assert TextLines(s, q4, 0) == Ok([], q4);
    FourOf(texts, a.value, b.value, c.value, d.value);
    assert e1 == q4;
    assert ObjectTexts(s, p) == Ok((vnum, a.value, b.value, c.value, d.value), q4);
  }

  /** A line of three words, type and two flag sets; it ends at its
      newline. */
  lemma TypeLineRead(s: string, e1: nat, itemType: string, extraFlags: string, wearFlags: string,
                      rest: string) returns (w1: nat, w2: nat, w3: nat)
    requires IsWord(itemType, TypeChars) && IsWord(extraFlags, FlagChars) && IsWord(wearFlags, FlagChars)
    requires At(s, e1, "\n" + (itemType + (" " + (extraFlags + (" " + (wearFlags + ("\n" + rest)))))))
    ensures WordOf(s, e1, TypeChars) == Ok(itemType, w1) && w1 <= |s|
    ensures WordOf(s, w1, FlagChars) == Ok(extraFlags, w2) && w2 <= |s|
    ensures WordOf(s, w2, FlagChars) == Ok(wearFlags, w3) && w3 <= |s| && LineEnd(s, w3) == w3
    ensures At(s, w3, "\n" + rest) && w3 == e1 + 3 + |itemType| + |extraFlags| + |wearFlags|
  {
    assert AllWhitespace("\n") && AllWhitespace(" ");
    w1 := e1 + 1 + |itemType|;
    ReadWord(s, e1, "\n", itemType, TypeChars, " " + (extraFlags + (" " + (wearFlags + ("\n" + rest)))), w1);
    w2 := w1 + 1 + |extraFlags|;
    ReadWord(s, w1, " ", extraFlags, FlagChars, " " + (wearFlags + ("\n" + rest)), w2);
    w3 := w2 + 1 + |wearFlags|;
    ReadWord(s, w2, " ", wearFlags, FlagChars, "\n" + rest, w3);
    AtFirst(s, w3, "\n" + rest);
    LineEndAtNewline(s, w3);
  }

  /** The values on their own line, then level, weight, cost and
      condition on the next, which ends at its newline. */
  lemma NumbersLinesRead(s: string, w3: nat, values: string, level: string, weight: string, cost: string,
                         condition: string, rest: string) returns (w4: nat, w5: nat, w6: nat, w7: nat, e: nat)
    requires IsWord(values, ValueChars) && IsWord(level, SignedNums) && IsWord(weight, SignedNums)
    requires IsWord(cost, SignedNums) && IsWord(condition, Alnums)
    requires At(s, w3, "\n" + (values + ("\n" + (level + (" " + (weight + (" " + (cost + (" " + (condition + ("\n" + rest)))))))))))
    ensures WordOf(s, w3, ValueChars) == Ok(values, w4) && w4 <= |s|
    ensures WordOf(s, w4, SignedNums) == Ok(level, w5) && w5 <= |s|
    ensures WordOf(s, w5, SignedNums) == Ok(weight, w6) && w6 <= |s|
    ensures WordOf(s, w6, SignedNums) == Ok(cost, w7) && w7 <= |s|
    ensures WordOf(s, w7, Alnums) == Ok(condition, e) && e <= |s| && LineEnd(s, e) == e
    ensures At(s, e, "\n" + rest)
    ensures e == w3 + 5 + |values| + |level| + |weight| + |cost| + |condition|
  {
    assert AllWhitespace("\n") && AllWhitespace(" ");
    w4 := w3 + 1 + |values|;
    ReadWord(s, w3, "\n", values, ValueChars, "\n" + (level + (" " + (weight + (" " + (cost + (" " + (condition + ("\n" + rest)))))))), w4);
    w5 := w4 + 1 + |level|;
    ReadWord(s, w4, "\n", level, SignedNums, " " + (weight + (" " + (cost + (" " + (condition + ("\n" + rest)))))), w5);
    w6 := w5 + 1 + |weight|;
    ReadWord(s, w5, " ", weight, SignedNums, " " + (cost + (" " + (condition + ("\n" + rest)))), w6);
    w7 := w6 + 1 + |cost|;
    ReadWord(s, w6, " ", cost, SignedNums, " " + (condition + ("\n" + rest)), w7);
    e := w7 + 1 + |condition|;
    ReadWord(s, w7, " ", condition, Alnums, "\n" + rest, e);
    AtFirst(s, e, "\n" + rest);
    LineEndAtNewline(s, e);
  }

  lemma FourOf(t: seq<string>, a: string, b: string, c: string, d: string)
    requires t == [a] + ([b] + ([c] + ([d] + [])))
    ensures t[0] == a && t[1] == b && t[2] == c && t[3] == d
  {
  }

  /** An object head whose tokens are read as given. */
  lemma ObjectFixedReads(s: string, p: nat, h: ObjectHead, e1: nat, w1: nat, w2: nat, w3: nat,
                         w4: nat, w5: nat, w6: nat, w7: nat, e: nat)
    requires p <= |s|
    requires ObjectTexts(s, p) == Ok((h.vnum, h.name, h.shortDescription, h.description, h.material), e1)
    requires WordOf(s, e1, TypeChars) == Ok(h.itemType, w1)
    requires WordOf(s, w1, FlagChars) == Ok(h.extraFlags, w2)
    requires WordOf(s, w2, FlagChars) == Ok(h.wearFlags, w3) && LineEnd(s, w3) == w3
    requires WordOf(s, w3, ValueChars) == Ok(h.values, w4)
    requires WordOf(s, w4, SignedNums) == Ok(h.level, w5)
    requires WordOf(s, w5, SignedNums) == Ok(h.weight, w6)
    requires WordOf(s, w6, SignedNums) == Ok(h.cost, w7)
    requires WordOf(s, w7, Alnums) == Ok(h.condition, e) && LineEnd(s, e) == e
    ensures ObjectFixed(s, p) == Ok(h, e)
  {
  }

  /** Order independence: swapping two adjacent blocks of different kinds
      gives the same object. */
  lemma ObjectOrderIndependent(h: ObjectHead, pre: seq<Block>, x: Block, y: Block, post: seq<Block>)
    requires KindOf(x) != KindOf(y)
    ensures ObjectOf(h, pre + [x, y] + post) == ObjectOf(h, pre + [y, x] + post)
  {
    forall k: Kind ensures Select(pre + [x, y] + post, k) == Select(pre + [y, x] + post, k) {
      SelectSwap(pre, x, y, post, k);
    }
  }

  lemma ObjectBlockProgressive(s: string)
    ensures Progressive(s, ObjectBlock)
  {
    forall q: nat | q <= |s| ensures ObjectBlock(s, q).Ok? ==> q < ObjectBlock(s, q).next <= |s| { }
  }

  lemma ObjectItemProgressive(s: string)
    ensures Progressive(s, ObjectItem)
  {
    forall q: nat | q <= |s| ensures ObjectItem(s, q).Ok? ==> q < ObjectItem(s, q).next <= |s| { }
  }

  lemma OldObjectBlockProgressive(s: string)
    ensures Progressive(s, OldObjectBlock)
  {
    forall q: nat | q <= |s| ensures OldObjectBlock(s, q).Ok? ==> q < OldObjectBlock(s, q).next <= |s| { }
  }

  lemma OldObjectItemProgressive(s: string)
    ensures Progressive(s, OldObjectItem)
  {
    forall q: nat | q <= |s| ensures OldObjectItem(s, q).Ok? ==> q < OldObjectItem(s, q).next <= |s| { }
  }

  /** Reading back an `A` block written after some whitespace: its two
      numbers are the location and the modifier. */
  lemma LocationReadsBack(s: string, p: nat, ws: string, a: LocationAffect, rest: string, e: nat)
    requires AllWhitespace(ws) && IsWord(a.location, SignedNums) && IsWord(a.modifier, SignedNums)
    requires At(s, p, ws + ("A" + (" " + (a.location + (" " + (a.modifier + rest))))))
    requires |rest| > 0 && !InClass(rest[0], SignedNums) && e == p + |ws| + 3 + |a.location| + |a.modifier|
    ensures LocationBlock(s, p) == Ok(a, e) && At(s, e, rest)
  {
    var e1 := p + |ws| + 1;
    var e2 := e1 + 1 + |a.location|;
    assert Lit(s, p, "A") == Ok((), e1) && At(s, e1, " " + (a.location + (" " + (a.modifier + rest)))) by {
      ReadLit(s, p, ws, "A", " " + (a.location + (" " + (a.modifier + rest))), e1);
    }
    assert WordOf(s, e1, SignedNums) == Ok(a.location, e2) && At(s, e2, " " + (a.modifier + rest)) by {
      assert AllWhitespace(" ");
      ReadWord(s, e1, " ", a.location, SignedNums, " " + (a.modifier + rest), e2);
    }
    assert WordOf(s, e2, SignedNums) == Ok(a.modifier, e) && At(s, e, rest) by {
      assert AllWhitespace(" ");
      ReadWord(s, e2, " ", a.modifier, SignedNums, rest, e);
    }
    LocationBlockReads(s, p, a, e1, e2, e);
  }

  lemma LocationBlockReads(s: string, p: nat, a: LocationAffect, e1: nat, e2: nat, e: nat)
    requires p <= |s| && Lit(s, p, "A") == Ok((), e1) && e1 <= |s|
    requires WordOf(s, e1, SignedNums) == Ok(a.location, e2) && e2 <= |s|
    requires WordOf(s, e2, SignedNums) == Ok(a.modifier, e)
    ensures LocationBlock(s, p) == Ok(a, e)
  {
  }

  /** Reading back an `F` block written after some whitespace: its four
      words are where, location, modifier and bitvector. */
  lemma FlagReadsBack(s: string, p: nat, ws: string, f: FlagAffect, rest: string, e: nat)
    requires AllWhitespace(ws) && BlockWritable(ByFlag(f))
    requires At(s, p, ws + ("F" + (" " + (f.where + (" " + (f.location + (" " + (f.modifier + (" " + (f.bitvector + rest))))))))))
    requires |rest| > 0 && !InClass(rest[0], Alnums)
    requires e == p + |ws| + 5 + |f.where| + |f.location| + |f.modifier| + |f.bitvector|
    ensures FlagBlock(s, p) == Ok(f, e) && At(s, e, rest)
  {
    var r2 := " " + (f.modifier + (" " + (f.bitvector + rest)));
    var e1 := p + |ws| + 1;
    var e2 := e1 + 1 + |f.where|;
    var e3 := e2 + 1 + |f.location|;
    var e4 := e3 + 1 + |f.modifier|;
    assert Lit(s, p, "F") == Ok((), e1) && At(s, e1, " " + (f.where + (" " + (f.location + r2)))) by {
      ReadLit(s, p, ws, "F", " " + (f.where + (" " + (f.location + r2))), e1);
    }
    FlagWordsFirst(s, e1, f.where, f.location, r2, e2, e3);
    FlagWordsLast(s, e3, f.modifier, f.bitvector, rest, e4, e);
    FlagBlockReads(s, p, f, e1, e2, e3, e4, e);
  }

  /** The `where` and location words of an `F` block. */
  lemma FlagWordsFirst(s: string, e1: nat, where: string, location: string, rest: string, e2: nat, e3: nat)
    requires IsWord(where, Alphas) && IsWord(location, Nums) && |rest| > 0 && rest[0] == ' '
    requires At(s, e1, " " + (where + (" " + (location + rest))))
    requires e2 == e1 + 1 + |where| && e3 == e2 + 1 + |location|
    ensures WordOf(s, e1, Alphas) == Ok(where, e2) && e2 <= |s|
    ensures WordOf(s, e2, Nums) == Ok(location, e3) && At(s, e3, rest)
  {
    assert AllWhitespace(" ");
    ReadWord(s, e1, " ", where, Alphas, " " + (location + rest), e2);
    ReadWord(s, e2, " ", location, Nums, rest, e3);
  }

  /** The modifier and bitvector words of an `F` block. */
  lemma FlagWordsLast(s: string, e3: nat, modifier: string, bitvector: string, rest: string, e4: nat, e: nat)
    requires IsWord(modifier, SignedNums) && IsWord(bitvector, Alnums) && |rest| > 0 && !InClass(rest[0], Alnums)
    requires At(s, e3, " " + (modifier + (" " + (bitvector + rest))))
    requires e4 == e3 + 1 + |modifier| && e == e4 + 1 + |bitvector|
    ensures WordOf(s, e3, SignedNums) == Ok(modifier, e4) && e4 <= |s|
    ensures WordOf(s, e4, Alnums) == Ok(bitvector, e) && At(s, e, rest)
  {
    assert AllWhitespace(" ");
    ReadWord(s, e3, " ", modifier, SignedNums, " " + (bitvector + rest), e4);
    ReadWord(s, e4, " ", bitvector, Alnums, rest, e);
  }

  lemma FlagBlockReads(s: string, p: nat, f: FlagAffect, e1: nat, e2: nat, e3: nat, e4: nat, e: nat)
    requires p <= |s| && Lit(s, p, "F") == Ok((), e1) && e1 <= |s|
    requires WordOf(s, e1, Alphas) == Ok(f.where, e2) && e2 <= |s|
    requires WordOf(s, e2, Nums) == Ok(f.location, e3) && e3 <= |s|
    requires WordOf(s, e3, SignedNums) == Ok(f.modifier, e4) && e4 <= |s|
    requires WordOf(s, e4, Alnums) == Ok(f.bitvector, e)
    ensures FlagBlock(s, p) == Ok(f, e)
  {
  }

  /** The kinds of block a current object's block run holds. */
  const ObjectKinds := {LocationKind, FlagKind, ExtraKind}

  /** The kinds of block an old object's block run holds. */
  const OldObjectKinds := {LocationKind, ExtraKind}

  /** An `A` block on the line after `q` is read there. */
  lemma LocationAfterNewline(s: string, q: nat, a: LocationAffect, tail: string)
    requires BlockWritable(ByLocation(a)) && At(s, q, "\n" + (BlockLine(ByLocation(a)) + tail))
    requires |tail| > 0 && tail[0] == '\n'
    ensures Skip(s, q) == q + 1 && q + 1 < |s| && s[q + 1] == 'A'
    ensures LocationBlock(s, q) == Ok(a, q + 1 + |BlockLine(ByLocation(a))|)
  {
    var text := "A" + (" " + (a.location + (" " + (a.modifier + tail))));
    assert "\n" + (BlockLine(ByLocation(a)) + tail) == "\n" + text;
    AfterNewline(s, q, text);
    LocationReadsBack(s, q, "\n", a, tail, q + 4 + |a.location| + |a.modifier|);
  }

  /** An `F` block on the line after `q` is read there. */
  lemma FlagAfterNewline(s: string, q: nat, f: FlagAffect, tail: string)
    requires BlockWritable(ByFlag(f)) && At(s, q, "\n" + (BlockLine(ByFlag(f)) + tail))
    requires |tail| > 0 && tail[0] == '\n'
    ensures Skip(s, q) == q + 1 && q + 1 < |s| && s[q + 1] == 'F'
    ensures FlagBlock(s, q) == Ok(f, q + 1 + |BlockLine(ByFlag(f))|)
  {
    var text := "F" + (" " + (f.where + (" " + (f.location + (" " + (f.modifier + (" " + (f.bitvector + tail))))))));
    assert "\n" + (BlockLine(ByFlag(f)) + tail) == "\n" + text;
    AfterNewline(s, q, text);
    FlagReadsBack(s, q, "\n", f, tail, q + 6 + |f.where| + |f.location| + |f.modifier| + |f.bitvector|);
  }

  /** Each object block alternative fails where the character after the
      skipped whitespace is not its letter. */
  lemma ObjectLettersFail(s: string, q: nat)
    requires q <= |s| && Skip(s, q) < |s|
    ensures s[Skip(s, q)] != 'A' ==> LocationBlock(s, q).Fail?
    ensures s[Skip(s, q)] != 'F' ==> FlagBlock(s, q).Fail?
    ensures s[Skip(s, q)] != 'E' ==> ExtraBlock(s, q).Fail?
  {
    if s[Skip(s, q)] != 'A' { LitMismatch(s, q, "A", 0); }
    if s[Skip(s, q)] != 'F' { LitMismatch(s, q, "F", 0); }
    if s[Skip(s, q)] != 'E' { LitMismatch(s, q, "E", 0); }
  }

  /** Any current object block written on the line after `q` is the object
      block read there. */
  lemma ObjectBlockAfterNewline(s: string, q: nat, b: Block, tail: string)
    requires KindOf(b) in ObjectKinds && BlockWritable(b)
    requires At(s, q, "\n" + (BlockLine(b) + tail)) && |tail| > 0 && tail[0] == '\n'
    ensures ObjectBlock(s, q) == Ok([b], q + 1 + |BlockLine(b)|)
  {
    match b
    case ByLocation(a) => LocationAfterNewline(s, q, a, tail);
    case ByFlag(f) => FlagAfterNewline(s, q, f, tail); ObjectLettersFail(s, q);
    case Extra(x) => ExtraAt(s, q, x, tail); ObjectLettersFail(s, q);
  }

  /** Any old object block written on the line after `q` is the old object
      block read there. */
  lemma OldObjectBlockAfterNewline(s: string, q: nat, b: Block, tail: string)
    requires KindOf(b) in OldObjectKinds && BlockWritable(b)
    requires At(s, q, "\n" + (BlockLine(b) + tail)) && |tail| > 0 && tail[0] == '\n'
    ensures OldObjectBlock(s, q) == Ok([b], q + 1 + |BlockLine(b)|)
  {
    match b
    case ByLocation(a) => LocationAfterNewline(s, q, a, tail);
    case Extra(x) => ExtraAt(s, q, x, tail); ObjectLettersFail(s, q);
  }

  /** The first block of a written-out run is the object block read there. */
  lemma ObjectBlockFirst(s: string, q: nat, bs: seq<Block>, next: string)
    requires bs != [] && BlocksOf(bs, ObjectKinds) && At(s, q, "\n" + (BlockLines(bs) + next))
    ensures ObjectBlock(s, q) == Ok([bs[0]], q + 1 + |BlockLine(bs[0])|)
    ensures |BlockLines(bs)| == 1 + |BlockLine(bs[0])| + |BlockLines(bs[1..])|
  {
    BlockRunFirst(s, q, bs, next);
    ObjectBlockAfterNewline(s, q, bs[0], "\n" + (BlockLines(bs[1..]) + next));
  }

  /** The first block of a written-out run is the old object block read
      there. */
  lemma OldObjectBlockFirst(s: string, q: nat, bs: seq<Block>, next: string)
    requires bs != [] && BlocksOf(bs, OldObjectKinds) && At(s, q, "\n" + (BlockLines(bs) + next))
    ensures OldObjectBlock(s, q) == Ok([bs[0]], q + 1 + |BlockLine(bs[0])|)
    ensures |BlockLines(bs)| == 1 + |BlockLine(bs[0])| + |BlockLines(bs[1..])|
  {
    BlockRunFirst(s, q, bs, next);
    OldObjectBlockAfterNewline(s, q, bs[0], "\n" + (BlockLines(bs[1..]) + next));
  }

  /** A run of current object blocks written one per line after `q` is read
      back, block for block and in order, up to the newline before `next`. */
  lemma {:induction false} ObjectBlocksRead(s: string, q: nat, bs: seq<Block>, next: string)
    requires BlocksOf(bs, ObjectKinds) && At(s, q, "\n" + (BlockLines(bs) + next))
    requires |next| > 0 && !InClass(next[0], Whitespace) && next[0] != 'A' && next[0] != 'F' && next[0] != 'E'
    ensures Progressive(s, ObjectBlock)
    ensures Many(s, q, ObjectBlock) == Parsed(bs, q + |BlockLines(bs)|)
    decreases |bs|
  {
    ObjectBlockProgressive(s);
    if bs == [] {
      assert "\n" + (BlockLines(bs) + next) == "\n" + next;
      NoObjectBlock(s, q, next);
    } else {
      var q1 := q + 1 + |BlockLine(bs[0])|;
      var e := q1 + |BlockLines(bs[1..])|;
      assert ObjectBlock(s, q) == Ok([bs[0]], q1) && e == q + |BlockLines(bs)| by {
        ObjectBlockFirst(s, q, bs, next);
      }
      assert Many(s, q1, ObjectBlock) == Parsed(bs[1..], e) by {
        assert BlocksOf(bs[1..], ObjectKinds);
        BlockRunRest(s, q, bs, next, q1);
        ObjectBlocksRead(s, q1, bs[1..], next);
      }
      ManyFirst(s, q, ObjectBlock, bs, q1, e);
    }
  }

  /** No old object block stands where the next line starts with neither
      `A` nor `E`. */
  lemma NoOldObjectBlock(s: string, e: nat, rest: string)
    requires At(s, e, "\n" + rest) && |rest| > 0 && !InClass(rest[0], Whitespace)
    requires rest[0] != 'A' && rest[0] != 'E'
    ensures Progressive(s, OldObjectBlock) && Many(s, e, OldObjectBlock) == Parsed([], e)
  {
    AfterNewline(s, e, rest);
    ObjectLettersFail(s, e);
    OldObjectBlockProgressive(s);
  }

  /** A run of old object blocks written one per line after `q` is read
      back, block for block and in order, up to the newline before `next`. */
  lemma {:induction false} OldObjectBlocksRead(s: string, q: nat, bs: seq<Block>, next: string)
    requires BlocksOf(bs, OldObjectKinds) && At(s, q, "\n" + (BlockLines(bs) + next))
    requires |next| > 0 && !InClass(next[0], Whitespace) && next[0] != 'A' && next[0] != 'E'
    ensures Progressive(s, OldObjectBlock)
    ensures Many(s, q, OldObjectBlock) == Parsed(bs, q + |BlockLines(bs)|)
    decreases |bs|
  {
    OldObjectBlockProgressive(s);
    if bs == [] {
      assert "\n" + (BlockLines(bs) + next) == "\n" + next;
      NoOldObjectBlock(s, q, next);
    } else {
      var q1 := q + 1 + |BlockLine(bs[0])|;
      var e := q1 + |BlockLines(bs[1..])|;
      assert OldObjectBlock(s, q) == Ok([bs[0]], q1) && e == q + |BlockLines(bs)| by {
        OldObjectBlockFirst(s, q, bs, next);
      }
      assert Many(s, q1, OldObjectBlock) == Parsed(bs[1..], e) by {
        assert BlocksOf(bs[1..], OldObjectKinds);
        BlockRunRest(s, q, bs, next, q1);
        OldObjectBlocksRead(s, q1, bs[1..], next);
      }
      ManyFirst(s, q, OldObjectBlock, bs, q1, e);
    }
  }

  /** A written-out current object followed by its blocks, one per line,
      reads back as that object: the `A`, `F` and `E` blocks each
      accumulate in input order. */
  lemma ObjectWithBlocksReadsBack(s: string, p: nat, ws: string, h: ObjectHead, bs: seq<Block>, next: string)
    returns (e: nat)
    requires ObjectWritable(h) && AllWhitespace(ws) && BlocksOf(bs, ObjectKinds)
    requires At(s, p, ws + ObjectLines(h, BlockLines(bs) + next))
    requires |next| > 0 && !InClass(next[0], Whitespace) && next[0] != 'A' && next[0] != 'F' && next[0] != 'E'
    ensures ObjectItem(s, p) == Ok([ObjectOf(h, bs)], e)
    ensures ObjectItem(s, p).value[0].affectsA == LocationAffects(bs)
    ensures ObjectItem(s, p).value[0].affectsF == FlagAffects(bs)
    ensures ObjectItem(s, p).value[0].extraDescriptions == Extras(bs)
    ensures At(s, e, "\n" + next)
  {
    var m := ObjectReadsBack(s, p, ws, h, BlockLines(bs) + next);
    e := m + |BlockLines(bs)|;
    assert Progressive(s, ObjectBlock) && Many(s, m, ObjectBlock) == Parsed(bs, e) by {
      ObjectBlocksRead(s, m, bs, next);
    }
    assert At(s, e, "\n" + next) by {
      BlockRunEnd(s, m, bs, next, e);
    }
    ObjectItemReads(s, p, h, m, bs, e);
  }

  lemma ObjectItemReads(s: string, p: nat, h: ObjectHead, m: nat, bs: seq<Block>, e: nat)
    requires p <= |s| && ObjectFixed(s, p) == Ok(h, m) && m <= |s|
    requires Progressive(s, ObjectBlock) && Many(s, m, ObjectBlock) == Parsed(bs, e)
    ensures ObjectItem(s, p) == Ok([ObjectOf(h, bs)], e)
  {
  }

  /** A written-out old object followed by its blocks, one per line, reads
      back as that object: the `A` and `E` blocks each accumulate in input
      order. */
  lemma OldObjectWithBlocksReadsBack(s: string, p: nat, h: OldObjectHead, material: string, dropped: string,
                                     bs: seq<Block>, next: string, e: nat)
    requires IsWord(h.vnum, Nums) && TildeText(h.name) && TildeText(h.shortDescription)
    requires TildeText(h.description) && TildeText(material)
    requires IsWord(h.itemType, Alnums) && IsWord(h.extraFlags, FlagChars) && IsWord(h.wearFlags, FlagChars)
    requires IsWord(h.values, ValueChars) && IsWord(h.weight, Nums) && IsWord(h.cost, Nums) && IsWord(dropped, Nums)
    requires BlocksOf(bs, OldObjectKinds)
    requires At(s, p, OldObjectLine(h.vnum, h.name, h.shortDescription, h.description, material, h.itemType,
                                    h.extraFlags, h.wearFlags, h.values, h.weight, h.cost, dropped)
                      + (BlockLines(bs) + next))
    requires |next| > 0 && !InClass(next[0], Whitespace) && next[0] != 'A' && next[0] != 'E'
    requires e == p + |OldObjectLine(h.vnum, h.name, h.shortDescription, h.description, material, h.itemType,
                                     h.extraFlags, h.wearFlags, h.values, h.weight, h.cost, dropped)|
                 - 1 + |BlockLines(bs)|
    ensures OldObjectItem(s, p) == Ok([OldObjectOf(h, bs)], e)
    ensures OldObjectItem(s, p).value[0].affectsA == LocationAffects(bs)
    ensures OldObjectItem(s, p).value[0].extraDescriptions == Extras(bs)
  {
    var line := OldObjectLine(h.vnum, h.name, h.shortDescription, h.description, material, h.itemType,
                              h.extraFlags, h.wearFlags, h.values, h.weight, h.cost, dropped);
    var m := p + |line| - 1;
    assert OldObjectFixed(s, p) == Ok(h, m) && At(s, m, "\n" + (BlockLines(bs) + next)) by {
      AtSplit(s, p, line, BlockLines(bs) + next);
      OldObjectFixedAt(s, p, h, material, dropped, m);
      AtBack(s, m, '\n', BlockLines(bs) + next);
    }
    assert Progressive(s, OldObjectBlock) && Many(s, m, OldObjectBlock) == Parsed(bs, e) by {
      OldObjectBlocksRead(s, m, bs, next);
    }
    OldObjectItemReads(s, p, h, m, bs, e);
  }

  /** An old object's fixed fields written out are read back up to the
      newline that ends them. */
  lemma OldObjectFixedAt(s: string, p: nat, h: OldObjectHead, material: string, dropped: string, m: nat)
    requires IsWord(h.vnum, Nums) && TildeText(h.name) && TildeText(h.shortDescription)
    requires TildeText(h.description) && TildeText(material)
    requires IsWord(h.itemType, Alnums) && IsWord(h.extraFlags, FlagChars) && IsWord(h.wearFlags, FlagChars)
    requires IsWord(h.values, ValueChars) && IsWord(h.weight, Nums) && IsWord(h.cost, Nums) && IsWord(dropped, Nums)
    requires At(s, p, OldObjectLine(h.vnum, h.name, h.shortDescription, h.description, material, h.itemType,
                                    h.extraFlags, h.wearFlags, h.values, h.weight, h.cost, dropped))
    requires m == p + |OldObjectLine(h.vnum, h.name, h.shortDescription, h.description, material, h.itemType,
                                     h.extraFlags, h.wearFlags, h.values, h.weight, h.cost, dropped)| - 1
    ensures OldObjectFixed(s, p) == Ok(h, m) && m < |s| && s[m] == '\n'
  {
    OldObjectReadsBack(s, p, h.vnum, h.name, h.shortDescription, h.description, material, h.itemType,
                       h.extraFlags, h.wearFlags, h.values, h.weight, h.cost, dropped, m);
    AtFirst(s, m, "\n");
  }

  lemma OldObjectItemReads(s: string, p: nat, h: OldObjectHead, m: nat, bs: seq<Block>, e: nat)
    requires p <= |s| && OldObjectFixed(s, p) == Ok(h, m) && m <= |s|
    requires Progressive(s, OldObjectBlock) && Many(s, m, OldObjectBlock) == Parsed(bs, e)
    ensures OldObjectItem(s, p) == Ok([OldObjectOf(h, bs)], e)
  {
  }
}
