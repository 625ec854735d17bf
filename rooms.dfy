/** The `#ROOMS` section: rooms until `#0`.

    A room is its fixed fields (vnum, name, description, a dropped number,
    flags, sector) and, combined with them by the grammar's `&` (both parts
    required, in either order), a run of `H`/`M`/`O`/`E`/`D<n>` blocks closed
    by `S`. */
module Rooms {
  import opened Lexer
  import opened Blocks

  /** The fixed fields of a room. */
  datatype RoomHead = RoomHead(vnum: string, name: string, description: string, flags: string, sector: string)

  datatype Room = Room(
    vnum: string, name: string, description: string, flags: string, sector: string,
    healRate: Option<string>, manaRate: Option<string>, owner: Option<string>,
    extraDescriptions: seq<ExtraDescription>, exits: seq<Exit>)

  /** The room a head and a block run describe. */
  function RoomOf(h: RoomHead, bs: seq<Block>): Room {
    Room(h.vnum, h.name, h.description, h.flags, h.sector,
         LastText(bs, HealKind), LastText(bs, ManaKind), LastText(bs, OwnerKind),
         Extras(bs), Exits(bs))
  }

  /** vnum, name, description, a dropped number, flags, sector. */
  function RoomFixed(s: string, p: nat): (r: Res<RoomHead>)
    requires p <= |s|
    ensures r.Ok? ==> p < r.next <= |s| && Vnum(s, p).Ok? && Vnum(s, p).value == r.value.vnum
    ensures r.Ok? ==> '~' !in r.value.name && '~' !in r.value.description
    ensures r.Ok? ==> r.next == |s| || s[r.next] == '\n'
  {
    var vnum :- Vnum(s, p);
    RoomFields(s, vnum.value, vnum.next)
  }

  /** The fields of a room after its vnum line. */
  function RoomFields(s: string, vnum: string, p: nat): (r: Res<RoomHead>)
    requires p <= |s|
    ensures r.Ok? ==> p < r.next <= |s| && r.value.vnum == vnum
    ensures r.Ok? ==> '~' !in r.value.name && '~' !in r.value.description
    ensures r.Ok? ==> r.next == |s| || s[r.next] == '\n'
  {
    var name :- TildeString(s, p);
    var desc :- TildeString(s, LineEnd(s, name.next));
    var dropped :- WordOf(s, LineEnd(s, desc.next), Nums);
    var flags :- WordOf(s, dropped.next, RoomFlagChars);
    var sector :- WordOf(s, flags.next, SignedNums);
    Ok(RoomHead(vnum, name.value, desc.value, flags.value, sector.value), LineEnd(s, sector.next))
  }

  /** `tag` followed by a number: the `H` and `M` blocks. */
  function RateBlock(s: string, p: nat, tag: string): (r: Res<string>)
    requires p <= |s| && |tag| > 0
    ensures r.Ok? ==> Lit(s, p, tag).Ok? && p < r.next <= |s| && IsWord(r.value, Nums)
  {
    var t :- Lit(s, p, tag);
    WordOf(s, t.next, Nums)
  }

  /** `O` followed by a tilde string. */
  function OwnerBlock(s: string, p: nat): (r: Res<string>)
    requires p <= |s|
    ensures r.Ok? ==> Lit(s, p, "O").Ok? && p < r.next <= |s| && '~' !in r.value
  {
    var t :- Lit(s, p, "O");
    TildeString(s, t.next)
  }

  /** `D` immediately followed by digits (a combined token). */
  function DoorTag(s: string, p: nat): (r: Res<string>)
    requires p <= |s|
    ensures r.Ok? ==> p < r.next <= |s| && |r.value| >= 2 && r.value[0] == 'D'
    ensures r.Ok? ==> forall i :: 1 <= i < |r.value| ==> IsDigit(r.value[i])
  {
    var q := Skip(s, p);
    if q < |s| && s[q] == 'D' then
      var e := SpanEnd(s, q + 1, Nums);
      if e == q + 1 then Fail else Ok(s[q..e], e)
    else Fail
  }

  /** An exit: door, description, keyword, locks, key, destination. */
  function ExitBlock(s: string, p: nat): (r: Res<Exit>)
    requires p <= |s|
    ensures r.Ok? ==> p < r.next <= |s|
    ensures r.Ok? ==> |r.value.door| >= 2 && r.value.door[0] == 'D' && '~' !in r.value.description && '~' !in r.value.keyword
  {
    var door :- DoorTag(s, p);
    ExitFields(s, door.value, door.next)
  }

  /** The fields of an exit after its door tag: description, keyword,
      lock flags, key and destination. */
  function ExitFields(s: string, door: string, p: nat): (r: Res<Exit>)
    requires p <= |s|
    ensures r.Ok? ==> p < r.next <= |s| && r.value.door == door
    ensures r.Ok? ==> '~' !in r.value.description && '~' !in r.value.keyword
  {
    var description :- TildeString(s, p);
    var keyword :- TildeString(s, description.next);
    var locks :- WordOf(s, keyword.next, Nums);
    var key :- WordOf(s, locks.next, SignedNums);
    var destination :- WordOf(s, key.next, SignedNums);
    Ok(Exit(door, description.value, keyword.value, locks.value, key.value, destination.value), destination.next)
  }

  /** One room block: the alternatives are tried in the order H, M, O, E, D. */
  function RoomBlock(s: string, p: nat): (r: Res<seq<Block>>)
    requires p <= |s|
    ensures r.Ok? ==> p < r.next <= |s| && |r.value| == 1
  {
    var heal := RateBlock(s, p, "H");
    if heal.Ok? then Ok([HealRate(heal.value)], heal.next) else
    var mana := RateBlock(s, p, "M");
    if mana.Ok? then Ok([ManaRate(mana.value)], mana.next) else
    var owner := OwnerBlock(s, p);
    if owner.Ok? then Ok([Owner(owner.value)], owner.next) else
    var extra := ExtraBlock(s, p);
    if extra.Ok? then Ok([Extra(extra.value)], extra.next) else
    var exit :- ExitBlock(s, p);
    Ok([Door(exit.value)], exit.next)
  }

  /** The block run and its closing `S`. */
  function RoomTail(s: string, p: nat): (r: Res<seq<Block>>)
    requires p <= |s|
    ensures r.Ok? ==> p < r.next <= |s| && s[r.next - 1] == 'S'
    ensures Progressive(s, RoomBlock)
    ensures r.Ok? ==> r.value == Many(s, p, RoomBlock).value
  {
    RoomBlockProgressive(s);
    var blocks := Many(s, p, RoomBlock);
    var close :- Lit(s, blocks.next, "S");
    assert s[close.next - 1..close.next] == "S";
    Ok(blocks.value, close.next)
  }

  /** One room: the fixed fields and the tail, in either order; the fixed
      fields are tried first. */
  function RoomItem(s: string, p: nat): (r: Res<seq<Room>>)
    requires p <= |s|
    ensures r.Ok? ==> p < r.next <= |s| && |r.value| == 1
  {
    match RoomFixed(s, p)
    case Ok(h, q) =>
      (match RoomTail(s, q)
       case Ok(bs, e) => Ok([RoomOf(h, bs)], e)
       case Fail => Fail)
    case Fail =>
      match RoomTail(s, p)
      case Fail => Fail
      case Ok(bs, q) =>
        match RoomFixed(s, q)
        case Ok(h, e) => Ok([RoomOf(h, bs)], e)
        case Fail => Fail
  }

  /** `#ROOMS`, any number of rooms, `#0`. */
  function RoomsSection(s: string, p: nat): (r: Res<seq<Room>>)
    requires p <= |s|
    ensures r.Ok? ==> Lit(s, p, "#ROOMS").Ok? && p < r.next <= |s|
    ensures r.Ok? ==> ClosedByZero(s, r.next)
    ensures Progressive(s, RoomItem)
    ensures r.Ok? ==> r.value == Many(s, Lit(s, p, "#ROOMS").next, RoomItem).value
  {
    RoomItemProgressive(s);
    var list := Delimited(s, p, "#ROOMS", RoomItem, "#0");
    ZeroClosed(s, p, "#ROOMS", RoomItem, list);
    list
  }

  /** An exit written out: the door tag `D<n>` on its line, description
      and keyword each closed by `~` on their lines, then locks, key and
      destination on one line. */
  function ExitLine(n: string, description: string, keyword: string, locks: string, key: string, destination: string): string {
    "D" + n + "\n" + description + "~\n" + keyword + "~\n" + locks + " " + key + " " + destination + "\n"
  }

  /** Reading back an exit: a written-out exit is read as exactly its six
      fields, the door being `D` and its digits. */
  lemma ExitReadsBack(s: string, p: nat, n: string, description: string, keyword: string,
                      locks: string, key: string, destination: string, e: nat)
    requires IsWord(n, Nums) && TildeText(description) && TildeText(keyword)
    requires IsWord(locks, Nums) && IsWord(key, SignedNums) && IsWord(destination, SignedNums)
    requires At(s, p, ExitLine(n, description, keyword, locks, key, destination))
    requires e == p + |ExitLine(n, description, keyword, locks, key, destination)| - 1
    ensures ExitBlock(s, p) == Ok(Exit("D" + n, description, keyword, locks, key, destination), e)
  {
    var e1 := p + 1 + |n|;
    var e2 := e1 + |description| + 2;
    var e3 := e2 + |keyword| + 2;
    var e4 := e3 + 1 + |locks|;
    var e5 := e4 + 1 + |key|;
    ExitTokens(s, p, n, description, keyword, locks, key, destination, e1, e2, e3, e4, e5, e);
    ExitBlockReads(s, p, "D" + n, description, keyword, locks, key, destination, e1, e2, e3, e4, e5, e);
  }

  lemma ExitLineShape(n: string, description: string, keyword: string, locks: string, key: string, destination: string)
    ensures ExitLine(n, description, keyword, locks, key, destination)
         == "D" + (n + ("\n" + (description + ("~" + ("\n" + (keyword + ("~" + ("\n" + (locks + (" " + (key + (" " + (destination + "\n")))))))))))))
  {
  }

  /** The tokens of a written-out exit, one after the other. */
  lemma ExitTokens(s: string, p: nat, n: string, description: string, keyword: string,
                   locks: string, key: string, destination: string,
                   e1: nat, e2: nat, e3: nat, e4: nat, e5: nat, e6: nat)
    requires IsWord(n, Nums) && TildeText(description) && TildeText(keyword)
    requires IsWord(locks, Nums) && IsWord(key, SignedNums) && IsWord(destination, SignedNums)
    requires At(s, p, ExitLine(n, description, keyword, locks, key, destination))
    requires e1 == p + 1 + |n| && e2 == e1 + |description| + 2 && e3 == e2 + |keyword| + 2
    requires e4 == e3 + 1 + |locks| && e5 == e4 + 1 + |key|
    requires e6 == p + |ExitLine(n, description, keyword, locks, key, destination)| - 1
    ensures Skip(s, p) == p && p < |s| && s[p] == 'D'
    ensures DoorTag(s, p) == Ok("D" + n, e1) && e1 <= |s|
    ensures TildeString(s, e1) == Ok(description, e2) && e2 <= |s|
    ensures TildeString(s, e2) == Ok(keyword, e3) && e3 <= |s|
    ensures WordOf(s, e3, Nums) == Ok(locks, e4) && e4 <= |s|
    ensures WordOf(s, e4, SignedNums) == Ok(key, e5) && e5 <= |s|
    ensures WordOf(s, e5, SignedNums) == Ok(destination, e6)
  {
    ExitLineShape(n, description, keyword, locks, key, destination);
    var r4 := " " + (destination + "\n");
    var r3 := " " + (key + r4);
    var r2 := "\n" + (locks + r3);
    var r1 := "\n" + (keyword + ("~" + r2));
    DoorReads(s, p, n, "\n" + (description + ("~" + r1)), e1);
    assert AllWhitespace("\n") && AllWhitespace(" ");
    ReadTilde(s, e1, "\n", description, r1, e2);
    ReadTilde(s, e2, "\n", keyword, r2, e3);
    ReadWord(s, e3, "\n", locks, Nums, r3, e4);
    ReadWord(s, e4, " ", key, SignedNums, r4, e5);
    ReadWord(s, e5, " ", destination, SignedNums, "\n", e6);
  }

  /** The door tag `D<n>` written at `p`. */
  lemma DoorReads(s: string, p: nat, n: string, rest: string, e: nat)
    requires IsWord(n, Nums) && At(s, p, "D" + (n + rest)) && |rest| > 0 && !IsDigit(rest[0])
    requires e == p + 1 + |n|
    ensures Skip(s, p) == p && p < |s| && s[p] == 'D'
    ensures DoorTag(s, p) == Ok("D" + n, e) && At(s, e, rest)
  {
    NoSkip(s, p, "D" + (n + rest));
    AtSplit(s, p, "D", n + rest);
    AtFirst(s, p, "D");
    ReadSpan(s, p + 1, n, Nums, rest);
    assert "D" + (n + rest) == ("D" + n) + rest;
    AtSplit(s, p, "D" + n, rest);
  }

  /** An exit whose fields are read as given. */
  lemma ExitBlockReads(s: string, p: nat, door: string, description: string, keyword: string,
                       locks: string, key: string, destination: string,
                       e1: nat, e2: nat, e3: nat, e4: nat, e5: nat, e6: nat)
    requires p <= |s| && DoorTag(s, p) == Ok(door, e1) && e1 <= |s|
    requires TildeString(s, e1) == Ok(description, e2) && e2 <= |s|
    requires TildeString(s, e2) == Ok(keyword, e3) && e3 <= |s|
    requires WordOf(s, e3, Nums) == Ok(locks, e4) && e4 <= |s|
    requires WordOf(s, e4, SignedNums) == Ok(key, e5) && e5 <= |s|
    requires WordOf(s, e5, SignedNums) == Ok(destination, e6)
    ensures ExitBlock(s, p) == Ok(Exit(door, description, keyword, locks, key, destination), e6)
  {
  }

  /** Where a `D` stands, none of the `H`, `M`, `O` and `E` blocks can be
      read, so a room block there is whatever exit is read there. */
  lemma DoorIsRoomBlock(s: string, p: nat)
    requires p < |s| && Skip(s, p) == p && s[p] == 'D'
    ensures RoomBlock(s, p) == (match ExitBlock(s, p) case Ok(x, e) => Ok([Door(x)], e) case Fail => Fail)
  {
    LitMismatch(s, p, "H", 0);
    LitMismatch(s, p, "M", 0);
    LitMismatch(s, p, "O", 0);
    LitMismatch(s, p, "E", 0);
  }

  /** A room without blocks written out: the vnum line, name and
      description each closed by `~` on their lines, the dropped number,
      flags and sector on one line, and `S` on the next. */
  function RoomLine(vnum: string, name: string, description: string, dropped: string, flags: string, sector: string): string {
    RoomHeadLine(vnum, name, description, dropped, flags, sector) + "\nS"
  }

  /** The fixed fields of a room written out, up to its sector. */
  function RoomHeadLine(vnum: string, name: string, description: string, dropped: string, flags: string, sector: string): string {
    "#" + vnum + "\n" + name + "~\n" + description + "~\n" + dropped + " " + flags + " " + sector
  }

  /** A room with blocks written out: its fixed fields, each block on a
      line of its own, and `S` on the line after the last. */
  function RoomText(vnum: string, name: string, description: string, dropped: string, flags: string, sector: string,
                    bs: seq<Block>): string {
    RoomHeadLine(vnum, name, description, dropped, flags, sector) + ("\n" + (BlockLines(bs) + "S"))
  }

  /** A written-out room without blocks reads back as its fields: the
      number between description and flags is dropped, and the room has no
      rates, no owner, no extra descriptions and no exits; it ends right
      after its `S`. */
  lemma RoomReadsBack(s: string, p: nat, vnum: string, name: string, description: string,
                      dropped: string, flags: string, sector: string, e: nat)
    requires IsWord(vnum, Nums) && TildeText(name) && TildeText(description)
    requires IsWord(dropped, Nums) && IsWord(flags, RoomFlagChars) && IsWord(sector, SignedNums)
    requires At(s, p, RoomLine(vnum, name, description, dropped, flags, sector))
    requires e == p + |RoomLine(vnum, name, description, dropped, flags, sector)|
    ensures RoomItem(s, p) == Ok([Room(vnum, name, description, flags, sector, None, None, None, [], [])], e)
  {
    var e1 := p + 1 + |vnum|;
    var e2 := e1 + |name| + 2;
    var e3 := e2 + |description| + 2;
    var e4 := e3 + 1 + |dropped|;
    var e5 := e4 + 1 + |flags|;
    var t := e5 + 1 + |sector|;
    RoomLineLength(vnum, name, description, dropped, flags, sector);
    RoomHeadTokens(s, p, vnum, name, description, dropped, flags, sector, "\nS", e1, e2, e3, e4, e5, t);
    var h := RoomHead(vnum, name, description, flags, sector);
    RoomFixedReads(s, p, h, dropped, e1, e2, e3, e4, e5, t);
    RoomTailClosed(s, t, e);
    RoomItemReads(s, p, h, [], t, e);
    RoomWithoutBlocks(h);
  }

  lemma RoomHeadShape(vnum: string, name: string, description: string, dropped: string, flags: string, sector: string,
                       rest: string)
    ensures RoomHeadLine(vnum, name, description, dropped, flags, sector) + rest
         == "" + ("#" + (vnum + ("\n" + (name + ("~" + ("\n" + (description + ("~" + ("\n" + (dropped + (" " + (flags + (" " + (sector + rest))))))))))))))
  {
  }

  lemma RoomHeadLength(vnum: string, name: string, description: string, dropped: string, flags: string, sector: string)
    ensures |RoomHeadLine(vnum, name, description, dropped, flags, sector)|
         == 1 + |vnum| + 1 + |name| + 2 + |description| + 2 + |dropped| + 1 + |flags| + 1 + |sector|
  {
  }

  lemma RoomLineLength(vnum: string, name: string, description: string, dropped: string, flags: string, sector: string)
    ensures |RoomLine(vnum, name, description, dropped, flags, sector)|
         == 1 + |vnum| + 1 + |name| + 2 + |description| + 2 + |dropped| + 1 + |flags| + 1 + |sector| + 2
  {
    RoomHeadLength(vnum, name, description, dropped, flags, sector);
  }

  /** The tokens of a written-out room head, one after the other, up to
      the newline that starts `rest`. */
  lemma RoomHeadTokens(s: string, p: nat, vnum: string, name: string, description: string,
                       dropped: string, flags: string, sector: string, rest: string,
                       e1: nat, e2: nat, e3: nat, e4: nat, e5: nat, t: nat)
    requires IsWord(vnum, Nums) && TildeText(name) && TildeText(description)
    requires IsWord(dropped, Nums) && IsWord(flags, RoomFlagChars) && IsWord(sector, SignedNums)
    requires At(s, p, RoomHeadLine(vnum, name, description, dropped, flags, sector) + rest) && |rest| > 0 && rest[0] == '\n'
    requires e1 == p + 1 + |vnum| && e2 == e1 + |name| + 2 && e3 == e2 + |description| + 2
    requires e4 == e3 + 1 + |dropped| && e5 == e4 + 1 + |flags|
    requires t == e5 + 1 + |sector|
    ensures p <= |s| && Vnum(s, p) == Ok(vnum, e1) && e1 <= |s|
    ensures TildeString(s, e1) == Ok(name, e2) && e2 <= |s| && LineEnd(s, e2) == e2
    ensures TildeString(s, e2) == Ok(description, e3) && e3 <= |s| && LineEnd(s, e3) == e3
    ensures WordOf(s, e3, Nums) == Ok(dropped, e4) && e4 <= |s|
    ensures WordOf(s, e4, RoomFlagChars) == Ok(flags, e5) && e5 <= |s|
    ensures WordOf(s, e5, SignedNums) == Ok(sector, t) && t <= |s| && LineEnd(s, t) == t
    ensures At(s, t, rest)
  {
    RoomHeadShape(vnum, name, description, dropped, flags, sector, rest);
    var numbers := "\n" + (dropped + (" " + (flags + (" " + (sector + rest)))));
    RoomHeadTexts(s, p, vnum, name, description, numbers, e1, e2, e3);
    RoomHeadNumbers(s, e3, dropped, flags, sector, rest, e4, e5, t);
  }

  /** The vnum line, the name and the description of a written-out room. */
  lemma RoomHeadTexts(s: string, p: nat, vnum: string, name: string, description: string, rest: string,
                      e1: nat, e2: nat, e3: nat)
    requires IsWord(vnum, Nums) && TildeText(name) && TildeText(description) && |rest| > 0 && rest[0] == '\n'
    requires At(s, p, "" + ("#" + (vnum + ("\n" + (name + ("~" + ("\n" + (description + ("~" + rest)))))))))
    requires e1 == p + 1 + |vnum| && e2 == e1 + |name| + 2 && e3 == e2 + |description| + 2
    ensures p <= |s| && Vnum(s, p) == Ok(vnum, e1) && e1 <= |s|
    ensures TildeString(s, e1) == Ok(name, e2) && e2 <= |s| && LineEnd(s, e2) == e2
    ensures TildeString(s, e2) == Ok(description, e3) && e3 <= |s| && LineEnd(s, e3) == e3
    ensures At(s, e3, rest)
  {
    var r2 := "\n" + (description + ("~" + rest));
    var r1 := "\n" + (name + ("~" + r2));
    assert AllWhitespace("") && AllWhitespace("\n");
    ReadLit(s, p, "", "#", vnum + r1, p + 1);
    assert "" + (vnum + r1) == vnum + r1;
    ReadWord(s, p + 1, "", vnum, Nums, r1, e1);
    AtFirst(s, e1, r1);
    LineEndAtNewline(s, e1);
    ReadTilde(s, e1, "\n", name, r2, e2);
    AtFirst(s, e2, r2);
    LineEndAtNewline(s, e2);
    ReadTilde(s, e2, "\n", description, rest, e3);
    AtFirst(s, e3, rest);
    LineEndAtNewline(s, e3);
  }

  /** The dropped number, the flags and the sector of a written-out room,
      up to the newline that ends their line. */
  lemma RoomHeadNumbers(s: string, e3: nat, dropped: string, flags: string, sector: string, rest: string,
                        e4: nat, e5: nat, t: nat)
    requires IsWord(dropped, Nums) && IsWord(flags, RoomFlagChars) && IsWord(sector, SignedNums)
    requires At(s, e3, "\n" + (dropped + (" " + (flags + (" " + (sector + rest)))))) && |rest| > 0 && rest[0] == '\n'
    requires e4 == e3 + 1 + |dropped| && e5 == e4 + 1 + |flags| && t == e5 + 1 + |sector|
    ensures WordOf(s, e3, Nums) == Ok(dropped, e4) && e4 <= |s|
    ensures WordOf(s, e4, RoomFlagChars) == Ok(flags, e5) && e5 <= |s|
    ensures WordOf(s, e5, SignedNums) == Ok(sector, t) && t <= |s| && LineEnd(s, t) == t
    ensures At(s, t, rest)
  {
    assert AllWhitespace("\n") && AllWhitespace(" ");
    ReadWord(s, e3, "\n", dropped, Nums, " " + (flags + (" " + (sector + rest))), e4);
    ReadWord(s, e4, " ", flags, RoomFlagChars, " " + (sector + rest), e5);
    ReadWord(s, e5, " ", sector, SignedNums, rest, t);
    AtFirst(s, t, rest);
    LineEndAtNewline(s, t);
  }

  /** A room head whose fields are read as given. */
  lemma RoomFixedReads(s: string, p: nat, h: RoomHead, dropped: string,
                       e1: nat, e2: nat, e3: nat, e4: nat, e5: nat, t: nat)
    requires p <= |s| && Vnum(s, p) == Ok(h.vnum, e1) && e1 <= |s|
    requires TildeString(s, e1) == Ok(h.name, e2) && e2 <= |s| && LineEnd(s, e2) == e2
    requires TildeString(s, e2) == Ok(h.description, e3) && e3 <= |s| && LineEnd(s, e3) == e3
    requires WordOf(s, e3, Nums) == Ok(dropped, e4) && e4 <= |s|
    requires WordOf(s, e4, RoomFlagChars) == Ok(h.flags, e5) && e5 <= |s|
    requires WordOf(s, e5, SignedNums) == Ok(h.sector, t) && t <= |s| && LineEnd(s, t) == t
    ensures RoomFixed(s, p) == Ok(h, t)
  {
  }

  /** Where the block run is empty and `S` follows on the next line, the
      tail is no blocks, ending after the `S`. */
  lemma RoomTailClosed(s: string, t: nat, e: nat)
    requires At(s, t, "\nS") && e == t + 2
    ensures RoomTail(s, t) == Ok([], e)
  {
    assert AllWhitespace("\n");
    SkipReads(s, t, "\n", "S");
    AtFirst(s, t + 1, "S");
    LitMismatch(s, t, "H", 0);
    LitMismatch(s, t, "M", 0);
    LitMismatch(s, t, "O", 0);
    LitMismatch(s, t, "E", 0);
    assert DoorTag(s, t).Fail?;
    assert RoomBlock(s, t).Fail?;
    RoomBlockProgressive(s);
    assert Many(s, t, RoomBlock) == Parsed([], t);
    assert "\nS" == "\n" + ("S" + "");
    ReadLit(s, t, "\n", "S", "", e);
  }

  /** A room whose fixed fields come first, then its tail. */
  lemma RoomItemReads(s: string, p: nat, h: RoomHead, bs: seq<Block>, t: nat, e: nat)
    requires p <= |s| && RoomFixed(s, p) == Ok(h, t) && t <= |s| && RoomTail(s, t) == Ok(bs, e)
    ensures RoomItem(s, p) == Ok([RoomOf(h, bs)], e)
  {
  }

  /** A room with no blocks has no rates, no owner, no extra descriptions
      and no exits. */
  lemma RoomWithoutBlocks(h: RoomHead)
    ensures RoomOf(h, []) == Room(h.vnum, h.name, h.description, h.flags, h.sector, None, None, None, [], [])
  {
    assert Select([], HealKind) == [] && Select([], ManaKind) == [] && Select([], OwnerKind) == [];
  }

  /** Without a `~` ahead, no tilde string can be read. */
  lemma NoTildeAhead(s: string, u: nat, x: nat)
    requires u <= x <= |s| && '~' !in s[u..]
    ensures TildeString(s, x).Fail?
  {
    assert s[Skip(s, x)..] == s[u..][Skip(s, x) - u..];
  }

  /** The fixed fields of a room need a `~` somewhere ahead. */
  lemma RoomFixedNeedsTilde(s: string, t: nat)
    requires t <= |s| && '~' !in s[Skip(s, t)..]
    ensures RoomFixed(s, t).Fail?
  {
    var v := Vnum(s, t);
    if v.Ok? {
      NoTildeAhead(s, Skip(s, t), v.next);
    }
  }

  /** No block letter and no `S` can be read where a `#` stands. */
  lemma RoomTailFailsAtHash(s: string, t: nat)
    requires t <= |s| && Skip(s, t) < |s| && s[Skip(s, t)] == '#'
    ensures RoomBlock(s, t).Fail? && RoomTail(s, t).Fail?
  {
    assert Lit(s, t, "H").Fail? && Lit(s, t, "M").Fail? && Lit(s, t, "O").Fail? && Lit(s, t, "E").Fail?;
    assert DoorTag(s, t).Fail?;
    RoomBlockProgressive(s);
    assert Many(s, t, RoomBlock) == Parsed([], t);
    assert Lit(s, t, "S").Fail?;
  }

  /** `#ROOMS` followed directly by `#0` is an empty list of rooms, as long
      as no room's fixed fields can be read from the `#0` on. */
  lemma EmptyRoomsSection(s: string, p: nat)
    requires p <= |s|
    requires Skip(s, p) + 6 <= |s| && s[Skip(s, p)..Skip(s, p) + 6] == "#ROOMS"
    requires Skip(s, Skip(s, p) + 6) + 2 <= |s|
    requires s[Skip(s, Skip(s, p) + 6)..Skip(s, Skip(s, p) + 6) + 2] == "#0"
    requires RoomFixed(s, Skip(s, p) + 6).Fail?
    ensures RoomsSection(s, p) == Ok([], Skip(s, Skip(s, p) + 6) + 2)
  {
    var t := Skip(s, p) + 6;
    var u := Skip(s, t);
    assert s[Skip(s, p)..t] == "#ROOMS" && s[u..u + 2] == "#0";
    assert RoomItem(s, t).Fail? by {
      assert s[u] == '#' by { assert s[u..u + 2][0] == '#'; }
      RoomTailFailsAtHash(s, t);
    }
    RoomItemProgressive(s);
    EmptyRoomsAt(s, p, "#ROOMS", "#0", t, u);
  }

  lemma EmptyRoomsAt(s: string, p: nat, open: string, close: string, t: nat, u: nat)
    requires open == "#ROOMS" && close == "#0" && Progressive(s, RoomItem)
    requires p <= |s| && t == Skip(s, p) + 6 && t <= |s| && s[Skip(s, p)..t] == open && RoomItem(s, t).Fail?
    requires u == Skip(s, t) && u + 2 <= |s| && s[u..u + 2] == close
    ensures RoomsSection(s, p) == Ok([], u + 2)
  {
    RoomsLiterals(s, p, open, close, t, u);
    DelimitedEmpty(s, p, open, RoomItem, close, t, u);
  }

  lemma RoomsLiterals(s: string, p: nat, open: string, close: string, t: nat, u: nat)
    requires open == "#ROOMS" && close == "#0"
    requires p <= |s| && t == Skip(s, p) + 6 && t <= |s| && u == Skip(s, t) && u + 2 <= |s| && s[u..u + 2] == close
    ensures |open| > 0 && |close| > 0 && t == Skip(s, p) + |open| && u + |close| <= |s| && s[u..u + |close|] == close
  {
  }

  /** The fixed fields of a room depend on where its vnum line ends. */
  lemma RoomFixedFromVnum(s: string, p: nat, q: nat)
    requires p <= |s| && q <= |s| && Vnum(s, p) == Vnum(s, q)
    ensures RoomFixed(s, p) == RoomFixed(s, q)
  {
  }

  /** Where a `#` stands after whitespace, a room is read the same from
      before the whitespace as from the `#`. */
  lemma RoomItemAfterWhitespace(s: string, p: nat)
    requires p <= |s| && Skip(s, p) < |s| && s[Skip(s, p)] == '#'
    ensures RoomItem(s, p) == RoomItem(s, Skip(s, p))
  {
    var q := Skip(s, p);
    SpanEndIs(s, q, q, Whitespace);
    assert RoomFixed(s, p) == RoomFixed(s, q) by {
      assert Lit(s, p, "#") == Lit(s, q, "#");
      assert Vnum(s, p) == Vnum(s, q);
      RoomFixedFromVnum(s, p, q);
    }
    assert RoomTail(s, p).Fail? && RoomTail(s, q).Fail? by {
      RoomTailFailsAtHash(s, p);
      RoomTailFailsAtHash(s, q);
    }
    RoomItemSame(s, p, q);
  }

  /** A room is read alike from two places where its fixed fields are read
      alike and no tail starts at either. */
  lemma RoomItemSame(s: string, p: nat, q: nat)
    requires p <= |s| && q <= |s| && RoomFixed(s, p) == RoomFixed(s, q)
    requires RoomTail(s, p).Fail? && RoomTail(s, q).Fail?
    ensures RoomItem(s, p) == RoomItem(s, q)
  {
    var f := RoomFixed(s, p);
    if f.Fail? {
      assert RoomItem(s, p) == Fail && RoomItem(s, q) == Fail;
    } else {
      var t := RoomTail(s, f.next);
      assert RoomItem(s, p) == (if t.Ok? then Ok([RoomOf(f.value, t.value)], t.next) else Fail);
      assert RoomItem(s, q) == (if t.Ok? then Ok([RoomOf(f.value, t.value)], t.next) else Fail);
    }
  }

  /** The section's closing `#0` is itself a room header: where a room's
      fields follow it, it is read as the room numbered 0, and the section
      goes on to the next `#0`. */
  lemma ZeroVnumIsARoom(s: string)
    requires s == "#ROOMS\n" + RoomLine("0", "n", "d", "0", "A", "1") + "\n#0"
    ensures RoomsSection(s, 0) == Ok([Room("0", "n", "d", "A", "1", None, None, None, [], [])], 26)
  {
    var room := Room("0", "n", "d", "A", "1", None, None, None, [], []);
    ZeroRoomWords();
    ZeroRoomLayout(s, RoomLine("0", "n", "d", "0", "A", "1"));
    RoomReadsBack(s, 7, "0", "n", "d", "0", "A", "1", 23);
    RoomItemAfterWhitespace(s, 6);
    RoomFixedNeedsTilde(s, 23);
    RoomTailFailsAtHash(s, 23);
    RoomItemProgressive(s);
    assert RoomItem(s, 6) == Ok([room], 23);
    ManyOnce(s, 6, RoomItem, [room], 23);
  }

  lemma ZeroRoomWords()
    ensures IsWord("0", Nums) && TildeText("n") && TildeText("d")
    ensures IsWord("A", RoomFlagChars) && IsWord("1", SignedNums)
    ensures |RoomLine("0", "n", "d", "0", "A", "1")| == 16 && RoomLine("0", "n", "d", "0", "A", "1")[0] == '#'
  {
    RoomLineLength("0", "n", "d", "0", "A", "1");
  }

  /** Where each token of the example section stands. */
  lemma ZeroRoomLayout(s: string, line: string)
    requires |line| == 16 && line[0] == '#' && s == "#ROOMS\n" + line + "\n#0"
    ensures |s| == 26 && At(s, 7, line)
    ensures Lit(s, 0, "#ROOMS") == Ok((), 6) && Skip(s, 6) == 7
    ensures Skip(s, 23) == 24 && s[24] == '#' && '~' !in s[24..]
    ensures Lit(s, 23, "#0") == Ok((), 26)
  {
    assert s[0] == '#' && s[6] == '\n' && s[7] == '#' && s[23] == '\n' && s[24] == '#' && s[24..] == "#0";
    NoSkip(s, 0, "#ROOMS");
    assert s[0..6] == "#ROOMS";
    SpanEndIs(s, 6, 7, Whitespace);
    SpanEndIs(s, 23, 24, Whitespace);
    assert s[24..26] == "#0";
  }

  /** Order independence: swapping two adjacent blocks of different kinds
      gives the same room. */
  lemma RoomOrderIndependent(h: RoomHead, pre: seq<Block>, x: Block, y: Block, post: seq<Block>)
    requires KindOf(x) != KindOf(y)
    ensures RoomOf(h, pre + [x, y] + post) == RoomOf(h, pre + [y, x] + post)
  {
    forall k: Kind ensures Select(pre + [x, y] + post, k) == Select(pre + [y, x] + post, k) {
      SelectSwap(pre, x, y, post, k);
    }
  }

  /** Repeated extra descriptions and exits accumulate in input order; an
      extra description leaves the exits alone and vice versa. */
  lemma RoomAccumulates(h: RoomHead, bs: seq<Block>, b: Block)
    requires b.Extra? || b.Door?
    ensures b.Extra? ==> RoomOf(h, bs + [b]).extraDescriptions == RoomOf(h, bs).extraDescriptions + [b.extra]
    ensures b.Extra? ==> RoomOf(h, bs + [b]).exits == RoomOf(h, bs).exits
    ensures b.Door? ==> RoomOf(h, bs + [b]).exits == RoomOf(h, bs).exits + [b.exit]
    ensures b.Door? ==> RoomOf(h, bs + [b]).extraDescriptions == RoomOf(h, bs).extraDescriptions
  {
    ExtrasSnoc(bs, b);
    ExitsSnoc(bs, b);
  }

  lemma RoomBlockProgressive(s: string)
    ensures Progressive(s, RoomBlock)
  {
    forall q: nat | q <= |s| ensures RoomBlock(s, q).Ok? ==> q < RoomBlock(s, q).next <= |s| { }
  }

  lemma RoomItemProgressive(s: string)
    ensures Progressive(s, RoomItem)
  {
    forall q: nat | q <= |s| ensures RoomItem(s, q).Ok? ==> q < RoomItem(s, q).next <= |s| { }
  }

  /** Reading back an `H` or `M` block written after some whitespace: the
      number is the rate. */
  lemma RateReadsBack(s: string, p: nat, ws: string, tag: string, n: string, rest: string, e: nat)
    requires |tag| == 1 && !InClass(tag[0], Whitespace)
    requires At(s, p, ws + (tag + (" " + (n + rest)))) && AllWhitespace(ws) && IsWord(n, Nums)
    requires |rest| > 0 && !IsDigit(rest[0]) && e == p + |ws| + 2 + |n|
    ensures RateBlock(s, p, tag) == Ok(n, e) && At(s, e, rest)
  {
    var e1 := p + |ws| + 1;
    assert Lit(s, p, tag) == Ok((), e1) && At(s, e1, " " + (n + rest)) by {
      ReadLit(s, p, ws, tag, " " + (n + rest), e1);
    }
    assert WordOf(s, e1, Nums) == Ok(n, e) && At(s, e, rest) by {
      assert AllWhitespace(" ");
      ReadWord(s, e1, " ", n, Nums, rest, e);
    }
    RateBlockReads(s, p, tag, n, e1, e);
  }

  lemma RateBlockReads(s: string, p: nat, tag: string, n: string, e1: nat, e: nat)
    requires p <= |s| && |tag| > 0 && Lit(s, p, tag) == Ok((), e1) && e1 <= |s| && WordOf(s, e1, Nums) == Ok(n, e)
    ensures RateBlock(s, p, tag) == Ok(n, e)
  {
  }

  /** Reading back an `O` block written after some whitespace: the text
      before its `~` is the owner. */
  lemma OwnerReadsBack(s: string, p: nat, ws: string, owner: string, rest: string, e: nat)
    requires At(s, p, ws + ("O" + (" " + (owner + ("~" + rest))))) && AllWhitespace(ws) && TildeText(owner)
    requires e == p + |ws| + 3 + |owner|
    ensures OwnerBlock(s, p) == Ok(owner, e) && At(s, e, rest)
  {
    var e1 := p + |ws| + 1;
    assert Lit(s, p, "O") == Ok((), e1) && At(s, e1, " " + (owner + ("~" + rest))) by {
      assert !InClass('O', Whitespace);
      ReadLit(s, p, ws, "O", " " + (owner + ("~" + rest)), e1);
    }
    assert TildeString(s, e1) == Ok(owner, e) && At(s, e, rest) by {
      assert AllWhitespace(" ");
      ReadTilde(s, e1, " ", owner, rest, e);
    }
    OwnerBlockReads(s, p, owner, e1, e);
  }

  lemma OwnerBlockReads(s: string, p: nat, owner: string, e1: nat, e: nat)
    requires p <= |s| && Lit(s, p, "O") == Ok((), e1) && e1 <= |s| && TildeString(s, e1) == Ok(owner, e)
    ensures OwnerBlock(s, p) == Ok(owner, e)
  {
  }

  /** The kinds of block a room's block run holds. */
  const RoomKinds := {HealKind, ManaKind, OwnerKind, ExtraKind, DoorKind}

  /** The letters a room block starts with. */
  predicate RoomLetter(c: char) {
    c == 'H' || c == 'M' || c == 'O' || c == 'E' || c == 'D'
  }

  /** An `H` block on the line after `q` is the room block there. */
  lemma HealAfterNewline(s: string, q: nat, n: string, tail: string)
    requires IsWord(n, Nums) && At(s, q, "\n" + (BlockLine(HealRate(n)) + tail)) && |tail| > 0 && tail[0] == '\n'
    ensures RoomBlock(s, q) == Ok([HealRate(n)], q + 1 + |BlockLine(HealRate(n))|)
  {
    assert "\n" + (BlockLine(HealRate(n)) + tail) == "\n" + ("H" + (" " + (n + tail)));
    RateReadsBack(s, q, "\n", "H", n, tail, q + 3 + |n|);
  }

  /** An `M` block on the line after `q` is the room block there: it is
      not an `H` block. */
  lemma ManaAfterNewline(s: string, q: nat, n: string, tail: string)
    requires IsWord(n, Nums) && At(s, q, "\n" + (BlockLine(ManaRate(n)) + tail)) && |tail| > 0 && tail[0] == '\n'
    ensures RoomBlock(s, q) == Ok([ManaRate(n)], q + 1 + |BlockLine(ManaRate(n))|)
  {
    var e := q + 1 + |BlockLine(ManaRate(n))|;
    assert Skip(s, q) < |s| && s[Skip(s, q)] == 'M' && RateBlock(s, q, "M") == Ok(n, e) by {
      var text := "M" + (" " + (n + tail));
      assert "\n" + (BlockLine(ManaRate(n)) + tail) == "\n" + text;
      AfterNewline(s, q, text);
      RateReadsBack(s, q, "\n", "M", n, tail, e);
    }
    LettersFailBefore(s, q);
  }

  /** An `O` block on the line after `q` is the room block there. */
  lemma OwnerAfterNewline(s: string, q: nat, owner: string, tail: string)
    requires TildeText(owner) && At(s, q, "\n" + (BlockLine(Owner(owner)) + tail)) && |tail| > 0 && tail[0] == '\n'
    ensures RoomBlock(s, q) == Ok([Owner(owner)], q + 1 + |BlockLine(Owner(owner))|)
  {
    var e := q + 1 + |BlockLine(Owner(owner))|;
    assert Skip(s, q) < |s| && s[Skip(s, q)] == 'O' && OwnerBlock(s, q) == Ok(owner, e) by {
      var text := "O" + (" " + (owner + ("~" + tail)));
      assert "\n" + (BlockLine(Owner(owner)) + tail) == "\n" + text;
      AfterNewline(s, q, text);
      OwnerReadsBack(s, q, "\n", owner, tail, e);
    }
    LettersFailBefore(s, q);
  }

  /** Where an `M` or an `O` stands, the block letters tried before it do
      not match. */
  lemma LettersFailBefore(s: string, q: nat)
    requires q <= |s| && Skip(s, q) < |s| && (s[Skip(s, q)] == 'M' || s[Skip(s, q)] == 'O')
    ensures RateBlock(s, q, "H").Fail?
    ensures s[Skip(s, q)] == 'O' ==> RateBlock(s, q, "M").Fail?
  {
    RoomLettersFail(s, q);
  }

  /** An `E` block on the line after `q` is the room block there. */
  lemma ExtraAfterNewline(s: string, q: nat, x: ExtraDescription, tail: string)
    requires BlockWritable(Extra(x)) && At(s, q, "\n" + (BlockLine(Extra(x)) + tail))
    ensures RoomBlock(s, q) == Ok([Extra(x)], q + 1 + |BlockLine(Extra(x))|)
  {
    ExtraAt(s, q, x, tail);
    RoomLettersFail(s, q);
  }

  /** A `D<n>` block on the line after `q` is the room block there. */
  lemma DoorAfterNewline(s: string, q: nat, x: Exit, tail: string)
    requires BlockWritable(Door(x)) && At(s, q, "\n" + (BlockLine(Door(x)) + tail)) && |tail| > 0 && tail[0] == '\n'
    ensures RoomBlock(s, q) == Ok([Door(x)], q + 1 + |BlockLine(Door(x))|)
  {
    var e := q + 1 + |BlockLine(Door(x))|;
    DoorStart(s, q, x, tail);
    DoorExitRead(s, q, x, tail, e);
    DoorAfterSkip(s, q, x, e);
  }

  /** The `D` of a door block on the line after `q` is the first character
      after the skipped whitespace. */
  lemma DoorStart(s: string, q: nat, x: Exit, tail: string)
    requires BlockWritable(Door(x)) && At(s, q, "\n" + (BlockLine(Door(x)) + tail))
    ensures Skip(s, q) == q + 1 && q + 1 < |s| && s[q + 1] == 'D'
  {
    DoorLineIsExitLine(x);
    AfterNewline(s, q, BlockLine(Door(x)) + tail);
  }

  /** The exit of a door block on the line after `q` is read from the `D`. */
  lemma DoorExitRead(s: string, q: nat, x: Exit, tail: string, e: nat)
    requires BlockWritable(Door(x)) && At(s, q, "\n" + (BlockLine(Door(x)) + tail)) && |tail| > 0 && tail[0] == '\n'
    requires e == q + 1 + |BlockLine(Door(x))|
    ensures ExitBlock(s, q + 1) == Ok(x, e)
  {
    DoorLineIsExitLine(x);
    DoorLineAt(s, q, x, tail);
    DoorFieldsRead(s, q + 1, x);
  }

  /** A door block on the line after `q`, with the newline after it, is
      an exit line. */
  lemma DoorLineAt(s: string, q: nat, x: Exit, tail: string)
    requires BlockWritable(Door(x)) && At(s, q, "\n" + (BlockLine(Door(x)) + tail)) && |tail| > 0 && tail[0] == '\n'
    ensures At(s, q + 1, ExitLine(x.door[1..], x.description, x.keyword, x.locks, x.key, x.destination))
  {
    var line := BlockLine(Door(x));
    DoorLineIsExitLine(x);
    AfterNewline(s, q, line + tail);
    AtSplit(s, q + 1, line, tail);
    AtFirst(s, q + 1 + |line|, tail);
    AtGrow(s, q + 1, line, '\n');
  }

  /** The exit line of a door block reads back as its exit. */
  lemma DoorFieldsRead(s: string, p: nat, x: Exit)
    requires BlockWritable(Door(x)) && At(s, p, ExitLine(x.door[1..], x.description, x.keyword, x.locks, x.key, x.destination))
    ensures ExitBlock(s, p) == Ok(x, p + |ExitLine(x.door[1..], x.description, x.keyword, x.locks, x.key, x.destination)| - 1)
  {
    var n := x.door[1..];
    assert x.door == "D" + n;
    assert IsWord(n, Nums);
    ExitReadsBack(s, p, n, x.description, x.keyword, x.locks, x.key, x.destination,
                  p + |ExitLine(n, x.description, x.keyword, x.locks, x.key, x.destination)| - 1);
  }

  /** Where an exit is read right after a newline, it is the room block
      read from the newline. */
  lemma DoorAfterSkip(s: string, q: nat, x: Exit, e: nat)
    requires q < |s| && Skip(s, q) == q + 1 && q + 1 < |s| && s[q + 1] == 'D'
    requires ExitBlock(s, q + 1) == Ok(x, e)
    ensures RoomBlock(s, q) == Ok([Door(x)], e)
  {
    DoorTagAfterNewline(s, q);
    ExitBlockFromDoorTag(s, q, q + 1);
    ExitIsRoomBlock(s, q, x, e);
  }

  lemma DoorTagAfterNewline(s: string, q: nat)
    requires q < |s| && Skip(s, q) == q + 1 && q + 1 < |s| && s[q + 1] == 'D'
    ensures DoorTag(s, q) == DoorTag(s, q + 1)
  {
    SpanEndIs(s, q + 1, q + 1, Whitespace);
  }

  /** An exit read where no other block letter stands is the room block. */
  lemma ExitIsRoomBlock(s: string, q: nat, x: Exit, e: nat)
    requires q <= |s| && Skip(s, q) < |s| && s[Skip(s, q)] == 'D' && ExitBlock(s, q) == Ok(x, e)
    ensures RoomBlock(s, q) == Ok([Door(x)], e)
  {
    RoomLettersFail(s, q);
  }

  /** An exit is read alike from two places where its door tag is. */
  lemma ExitBlockFromDoorTag(s: string, p: nat, q: nat)
    requires p <= |s| && q <= |s| && DoorTag(s, p) == DoorTag(s, q)
    ensures ExitBlock(s, p) == ExitBlock(s, q)
  {
  }

  /** Each block alternative fails where the character after the skipped
      whitespace is not its letter. */
  lemma RoomLettersFail(s: string, q: nat)
    requires q <= |s| && Skip(s, q) < |s|
    ensures s[Skip(s, q)] != 'H' ==> RateBlock(s, q, "H").Fail?
    ensures s[Skip(s, q)] != 'M' ==> RateBlock(s, q, "M").Fail?
    ensures s[Skip(s, q)] != 'O' ==> OwnerBlock(s, q).Fail?
    ensures s[Skip(s, q)] != 'E' ==> ExtraBlock(s, q).Fail?
    ensures s[Skip(s, q)] != 'D' ==> ExitBlock(s, q).Fail?
  {
    if s[Skip(s, q)] != 'H' { LitMismatch(s, q, "H", 0); }
    if s[Skip(s, q)] != 'M' { LitMismatch(s, q, "M", 0); }
    if s[Skip(s, q)] != 'O' { LitMismatch(s, q, "O", 0); }
    if s[Skip(s, q)] != 'E' { LitMismatch(s, q, "E", 0); }
  }

  /** A door block followed by the newline that ends it is the exit line. */
  lemma DoorLineIsExitLine(x: Exit)
    requires |x.door| >= 2 && x.door[0] == 'D'
    ensures ExitLine(x.door[1..], x.description, x.keyword, x.locks, x.key, x.destination) == BlockLine(Door(x)) + "\n"
    ensures BlockLine(Door(x))[0] == 'D'
  {
    assert x.door == "D" + x.door[1..];
  }

  /** Any room block written on the line after `q` is the room block read
      there, and it ends at the newline that closes it. */
  lemma RoomBlockAfterNewline(s: string, q: nat, b: Block, tail: string)
    requires KindOf(b) in RoomKinds && BlockWritable(b)
    requires At(s, q, "\n" + (BlockLine(b) + tail)) && |tail| > 0 && tail[0] == '\n'
    ensures RoomBlock(s, q) == Ok([b], q + 1 + |BlockLine(b)|)
  {
    match b
    case HealRate(n) => HealAfterNewline(s, q, n, tail);
    case ManaRate(n) => ManaAfterNewline(s, q, n, tail);
    case Owner(o) => OwnerAfterNewline(s, q, o, tail);
    case Extra(x) => ExtraAfterNewline(s, q, x, tail);
    case Door(x) => DoorAfterNewline(s, q, x, tail);
  }

  /** No room block starts on a line whose first character is no block
      letter. */
  lemma NoRoomBlock(s: string, q: nat, next: string)
    requires At(s, q, "\n" + next) && |next| > 0 && !InClass(next[0], Whitespace) && !RoomLetter(next[0])
    ensures RoomBlock(s, q).Fail?
  {
    AfterNewline(s, q, next);
    RoomLettersFail(s, q);
  }

  /** A run of room blocks written one per line after `q` is read back,
      block for block and in order, up to the newline before `next`. */
  lemma {:induction false} RoomBlocksRead(s: string, q: nat, bs: seq<Block>, next: string)
    requires BlocksOf(bs, RoomKinds) && At(s, q, "\n" + (BlockLines(bs) + next))
    requires |next| > 0 && !InClass(next[0], Whitespace) && !RoomLetter(next[0])
    ensures Progressive(s, RoomBlock)
    ensures Many(s, q, RoomBlock) == Parsed(bs, q + |BlockLines(bs)|)
    decreases |bs|
  {
    RoomBlockProgressive(s);
    if bs == [] {
      RoomBlocksNone(s, q, bs, next);
    } else {
      var q1 := q + 1 + |BlockLine(bs[0])|;
      var e := q1 + |BlockLines(bs[1..])|;
      assert RoomBlock(s, q) == Ok([bs[0]], q1) && e == q + |BlockLines(bs)| by {
        RoomBlockFirst(s, q, bs, next);
      }
      assert Many(s, q1, RoomBlock) == Parsed(bs[1..], e) by {
        assert BlocksOf(bs[1..], RoomKinds);
        BlockRunRest(s, q, bs, next, q1);
        RoomBlocksRead(s, q1, bs[1..], next);
      }
      ManyFirst(s, q, RoomBlock, bs, q1, e);
    }
  }

  /** An empty run: the line after `q` starts with no block letter. */
  lemma RoomBlocksNone(s: string, q: nat, bs: seq<Block>, next: string)
    requires bs == [] && At(s, q, "\n" + (BlockLines(bs) + next))
    requires |next| > 0 && !InClass(next[0], Whitespace) && !RoomLetter(next[0])
    ensures Progressive(s, RoomBlock)
    ensures Many(s, q, RoomBlock) == Parsed(bs, q + |BlockLines(bs)|)
    ensures At(s, q + |BlockLines(bs)|, "\n" + next)
  {
    RoomBlockProgressive(s);
    assert "\n" + (BlockLines(bs) + next) == "\n" + next;
    NoRoomBlock(s, q, next);
    ManyNone(s, q, RoomBlock);
  }

  /** The first block of a written-out run is the room block read there. */
  lemma RoomBlockFirst(s: string, q: nat, bs: seq<Block>, next: string)
    requires bs != [] && BlocksOf(bs, RoomKinds) && At(s, q, "\n" + (BlockLines(bs) + next))
    ensures RoomBlock(s, q) == Ok([bs[0]], q + 1 + |BlockLine(bs[0])|)
    ensures |BlockLines(bs)| == 1 + |BlockLine(bs[0])| + |BlockLines(bs[1..])|
  {
    BlockRunFirst(s, q, bs, next);
    RoomBlockAfterNewline(s, q, bs[0], "\n" + (BlockLines(bs[1..]) + next));
  }

  /** A written-out block run closed by `S` on the line after it is the
      room tail: the blocks in input order. */
  lemma RoomTailReadsBack(s: string, t: nat, bs: seq<Block>, e: nat)
    requires BlocksOf(bs, RoomKinds) && At(s, t, "\n" + (BlockLines(bs) + "S"))
    requires e == t + |BlockLines(bs)| + 2
    ensures RoomTail(s, t) == Ok(bs, e)
  {
    var m := t + |BlockLines(bs)|;
    assert m <= |s| && Lit(s, m, "S") == Ok((), e) by {
      BlockRunEnd(s, t, bs, "S", m);
      CloseAfterNewline(s, m, e);
    }
    assert Progressive(s, RoomBlock) && Many(s, t, RoomBlock) == Parsed(bs, m) by {
      RoomBlocksRead(s, t, bs, "S");
    }
    RoomTailReads(s, t, bs, m, e);
  }

  lemma RoomTailReads(s: string, t: nat, bs: seq<Block>, m: nat, e: nat)
    requires t <= |s| && m <= |s| && Progressive(s, RoomBlock) && Many(s, t, RoomBlock) == Parsed(bs, m)
    requires Lit(s, m, "S") == Ok((), e)
    ensures RoomTail(s, t) == Ok(bs, e)
  {
  }

  /** An `S` on the line after `m` is read as the closing letter. */
  lemma CloseAfterNewline(s: string, m: nat, e: nat)
    requires At(s, m, "\n" + "S") && e == m + 2
    ensures m <= |s| && Lit(s, m, "S") == Ok((), e)
  {
    assert "\n" + "S" == "\n" + ("S" + "");
    ReadLit(s, m, "\n", "S", "", e);
  }

  lemma RoomTextLength(vnum: string, name: string, description: string, dropped: string, flags: string, sector: string,
                       bs: seq<Block>)
    ensures |RoomText(vnum, name, description, dropped, flags, sector, bs)|
         == 1 + |vnum| + 1 + |name| + 2 + |description| + 2 + |dropped| + 1 + |flags| + 1 + |sector| + 1 + |BlockLines(bs)| + 1
  {
    RoomHeadLength(vnum, name, description, dropped, flags, sector);
  }

  /** A written-out room with blocks reads back as its fields together
      with what its blocks say: the last rate and owner, and every extra
      description and exit in input order. */
  lemma RoomWithBlocksReadsBack(s: string, p: nat, vnum: string, name: string, description: string,
                                dropped: string, flags: string, sector: string, bs: seq<Block>, e: nat)
    requires IsWord(vnum, Nums) && TildeText(name) && TildeText(description)
    requires IsWord(dropped, Nums) && IsWord(flags, RoomFlagChars) && IsWord(sector, SignedNums)
    requires BlocksOf(bs, RoomKinds)
    requires At(s, p, RoomText(vnum, name, description, dropped, flags, sector, bs))
    requires e == p + |RoomText(vnum, name, description, dropped, flags, sector, bs)|
    ensures RoomItem(s, p) == Ok([RoomOf(RoomHead(vnum, name, description, flags, sector), bs)], e)
    ensures RoomItem(s, p).value[0].extraDescriptions == Extras(bs) && RoomItem(s, p).value[0].exits == Exits(bs)
  {
    var e1 := p + 1 + |vnum|;
    var e2 := e1 + |name| + 2;
    var e3 := e2 + |description| + 2;
    var e4 := e3 + 1 + |dropped|;
    var e5 := e4 + 1 + |flags|;
    var t := e5 + 1 + |sector|;
    var rest := "\n" + (BlockLines(bs) + "S");
    RoomTextLength(vnum, name, description, dropped, flags, sector, bs);
    RoomHeadTokens(s, p, vnum, name, description, dropped, flags, sector, rest, e1, e2, e3, e4, e5, t);
    var h := RoomHead(vnum, name, description, flags, sector);
    RoomFixedReads(s, p, h, dropped, e1, e2, e3, e4, e5, t);
    RoomTailReadsBack(s, t, bs, e);
    RoomItemReads(s, p, h, bs, t, e);
  }

  /** Two extra descriptions and one exit written under a room come back
      as its two extra descriptions, in order, and its one exit. */
  lemma TwoExtrasOneExit(s: string, p: nat, vnum: string, name: string, description: string,
                         dropped: string, flags: string, sector: string,
                         x1: ExtraDescription, x2: ExtraDescription, x: Exit, e: nat)
    requires IsWord(vnum, Nums) && TildeText(name) && TildeText(description)
    requires IsWord(dropped, Nums) && IsWord(flags, RoomFlagChars) && IsWord(sector, SignedNums)
    requires BlockWritable(Extra(x1)) && BlockWritable(Extra(x2)) && BlockWritable(Door(x))
    requires At(s, p, RoomText(vnum, name, description, dropped, flags, sector, [Extra(x1), Extra(x2), Door(x)]))
    requires e == p + |RoomText(vnum, name, description, dropped, flags, sector, [Extra(x1), Extra(x2), Door(x)])|
    ensures RoomItem(s, p).Ok? && RoomItem(s, p).next == e
    ensures RoomItem(s, p).value[0].extraDescriptions == [x1, x2]
    ensures RoomItem(s, p).value[0].exits == [x]
  {
    var bs := [Extra(x1), Extra(x2), Door(x)];
    assert BlocksOf(bs, RoomKinds) by {
      assert bs[1..][1..] == [Door(x)] && BlocksOf([Door(x)], RoomKinds);
    }
    RoomWithBlocksReadsBack(s, p, vnum, name, description, dropped, flags, sector, bs, e);
    TwoExtrasOneExitBlocks(x1, x2, x);
  }

  lemma TwoExtrasOneExitBlocks(x1: ExtraDescription, x2: ExtraDescription, x: Exit)
    ensures Extras([Extra(x1), Extra(x2), Door(x)]) == [x1, x2]
    ensures Exits([Extra(x1), Extra(x2), Door(x)]) == [x]
  {
    assert [Extra(x1), Extra(x2), Door(x)] == [Extra(x1), Extra(x2)] + [Door(x)];
    assert [Extra(x1), Extra(x2)] == [Extra(x1)] + [Extra(x2)];
    assert [Extra(x1)] == [] + [Extra(x1)];
    ExtrasSnoc([], Extra(x1));
    ExtrasSnoc([Extra(x1)], Extra(x2));
    ExtrasSnoc([Extra(x1), Extra(x2)], Door(x));
    ExitsSnoc([], Extra(x1));
    ExitsSnoc([Extra(x1)], Extra(x2));
    ExitsSnoc([Extra(x1), Extra(x2)], Door(x));
  }
}
