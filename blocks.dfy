/** The optional, repeatable, letter-tagged sub-blocks that follow the fixed
    fields of a room (`H`, `M`, `O`, `E`, `D<n>`), an object (`A`, `F`, `E`)
    or a mobile (`F`).

    A record's block run is kept as the sequence of blocks in input order;
    the record's fields are views of that sequence. A field named with a
    trailing `*` in the grammar (extra descriptions, exits, affects) lists
    every block of its kind in input order; a plainly named field (heal rate,
    mana rate, owner) keeps only the last block of its kind. */
module Blocks {
  import opened Lexer

  datatype ExtraDescription = ExtraDescription(keyword: string, description: string)

  /** A room exit: `D<digits>` then description, keyword, locks, key and
      destination. */
  datatype Exit = Exit(door: string, description: string, keyword: string,
                       locks: string, key: string, destination: string)

  /** An object's `A` affect. */
  datatype LocationAffect = LocationAffect(location: string, modifier: string)

  /** An object's `F` affect. */
  datatype FlagAffect = FlagAffect(where: string, location: string, modifier: string, bitvector: string)

  /** A mobile's `F` affect. */
  datatype MobileAffect = MobileAffect(word: string, flag: string)

  datatype Block =
    | HealRate(rate: string)
    | ManaRate(rate: string)
    | Owner(owner: string)
    | Extra(extra: ExtraDescription)
    | Door(exit: Exit)
    | ByLocation(affect: LocationAffect)
    | ByFlag(flagAffect: FlagAffect)
    | MobileFlag(mobileAffect: MobileAffect)

  datatype Kind = HealKind | ManaKind | OwnerKind | ExtraKind | DoorKind | LocationKind | FlagKind | MobileFlagKind

  function KindOf(b: Block): Kind {
    match b
    case HealRate(_) => HealKind
    case ManaRate(_) => ManaKind
    case Owner(_) => OwnerKind
    case Extra(_) => ExtraKind
    case Door(_) => DoorKind
    case ByLocation(_) => LocationKind
    case ByFlag(_) => FlagKind
    case MobileFlag(_) => MobileFlagKind
  }

  /** The blocks of kind `k`, in input order. */
  function Select(bs: seq<Block>, k: Kind): (r: seq<Block>)
    ensures |r| <= |bs|
    ensures forall i :: 0 <= i < |r| ==> KindOf(r[i]) == k
  {
    if bs == [] then [] else (if KindOf(bs[0]) == k then [bs[0]] else []) + Select(bs[1..], k)
  }

  /** Selecting from a concatenation selects from each part, in order. */
  lemma {:induction false} SelectAppend(a: seq<Block>, b: seq<Block>, k: Kind)
    ensures Select(a + b, k) == Select(a, k) + Select(b, k)
  {
    if a == [] {
      assert a + b == b;
    } else {
      assert (a + b)[1..] == a[1..] + b;
      SelectAppend(a[1..], b, k);
    }
  }

  /** One more block adds itself at the end of its own kind's selection and
      leaves every other kind's selection alone. */
  lemma SelectSnoc(bs: seq<Block>, b: Block, k: Kind)
    ensures Select(bs + [b], k) == Select(bs, k) + (if KindOf(b) == k then [b] else [])
  {
    SelectAppend(bs, [b], k);
  }

  /** A block appended adds its extra description at the end of the
      extra descriptions, or nothing when it is of another kind. */
  lemma ExtrasSnoc(bs: seq<Block>, b: Block)
    ensures Extras(bs + [b]) == Extras(bs) + (if b.Extra? then [b.extra] else [])
  {
    SelectSnoc(bs, b, ExtraKind);
    var sel, sel' := Select(bs, ExtraKind), Select(bs + [b], ExtraKind);
    assert forall i :: 0 <= i < |sel| ==> sel'[i] == sel[i];
  }

  /** A block appended adds its exit at the end of the exits, or nothing
      when it is of another kind. */
  lemma ExitsSnoc(bs: seq<Block>, b: Block)
    ensures Exits(bs + [b]) == Exits(bs) + (if b.Door? then [b.exit] else [])
  {
    SelectSnoc(bs, b, DoorKind);
    var sel, sel' := Select(bs, DoorKind), Select(bs + [b], DoorKind);
    assert forall i :: 0 <= i < |sel| ==> sel'[i] == sel[i];
  }

  /** Order independence: two adjacent blocks of different kinds may be
      swapped without changing any kind's selection. */
  lemma SelectSwap(pre: seq<Block>, x: Block, y: Block, post: seq<Block>, k: Kind)
    requires KindOf(x) != KindOf(y)
    ensures Select(pre + [x, y] + post, k) == Select(pre + [y, x] + post, k)
  {
    var xy := Select([x, y], k);
    assert xy == Select([y, x], k) by {
      SelectAppend([x], [y], k);
      SelectAppend([y], [x], k);
      assert [x] + [y] == [x, y] && [y] + [x] == [y, x];
    }
    SelectAppend(pre + [x, y], post, k);
    SelectAppend(pre + [y, x], post, k);
    SelectAppend(pre, [x, y], k);
    SelectAppend(pre, [y, x], k);
  }

  function Extras(bs: seq<Block>): seq<ExtraDescription> {
    var sel := Select(bs, ExtraKind);
    seq(|sel|, i requires 0 <= i < |sel| => sel[i].extra)
  }

  function Exits(bs: seq<Block>): seq<Exit> {
    var sel := Select(bs, DoorKind);
    seq(|sel|, i requires 0 <= i < |sel| => sel[i].exit)
  }

  function LocationAffects(bs: seq<Block>): seq<LocationAffect> {
    var sel := Select(bs, LocationKind);
    seq(|sel|, i requires 0 <= i < |sel| => sel[i].affect)
  }

  function FlagAffects(bs: seq<Block>): seq<FlagAffect> {
    var sel := Select(bs, FlagKind);
    seq(|sel|, i requires 0 <= i < |sel| => sel[i].flagAffect)
  }

  function MobileAffects(bs: seq<Block>): seq<MobileAffect> {
    var sel := Select(bs, MobileFlagKind);
    seq(|sel|, i requires 0 <= i < |sel| => sel[i].mobileAffect)
  }

  /** The text of the last block of a scalar kind (heal rate, mana rate,
      owner), if there is one. */
  function LastText(bs: seq<Block>, k: Kind): Option<string>
    requires k == HealKind || k == ManaKind || k == OwnerKind
  {
    var sel := Select(bs, k);
    if sel == [] then None
    else match sel[|sel| - 1]
      case HealRate(t) => Some(t)
      case ManaRate(t) => Some(t)
      case Owner(t) => Some(t)
      case _ => None
  }

  /** A later block of a scalar kind replaces any earlier one. */
  lemma LastTextWins(bs: seq<Block>, b: Block)
    requires b.HealRate? || b.ManaRate? || b.Owner?
    ensures LastText(bs + [b], KindOf(b)) == Some(if b.HealRate? then b.rate else if b.ManaRate? then b.rate else b.owner)
  {
    SelectSnoc(bs, b, KindOf(b));
  }

  /** `E` followed by keyword and description; shared by rooms and objects. */
  function ExtraBlock(s: string, p: nat): (r: Res<ExtraDescription>)
    requires p <= |s|
    ensures r.Ok? ==> p < r.next <= |s|
    ensures r.Ok? ==> '~' !in r.value.keyword && '~' !in r.value.description
    ensures r.Ok? ==> s[r.next - 1] == '~'
  {
    var t :- Lit(s, p, "E");
    var keyword :- TildeString(s, t.next);
    var description :- TildeString(s, keyword.next);
    Ok(ExtraDescription(keyword.value, description.value), description.next)
  }

  /** An extra description written out: `E`, then keyword and description,
      each on its line and closed by `~`. */
  function ExtraLine(keyword: string, description: string): string {
    "E\n" + keyword + "~\n" + description + "~"
  }

  /** Reading back an extra description gives its keyword and its
      description, ending after the second `~`. */
  lemma ExtraReadsBack(s: string, p: nat, keyword: string, description: string, e: nat)
    requires TildeText(keyword) && TildeText(description)
    requires At(s, p, ExtraLine(keyword, description)) && e == p + |ExtraLine(keyword, description)|
    ensures ExtraBlock(s, p) == Ok(ExtraDescription(keyword, description), e)
  {
    ExtraTokens(s, p, keyword, description, p + |keyword| + 3, e);
  }

  lemma ExtraLineShape(keyword: string, description: string)
    ensures ExtraLine(keyword, description) == "" + ("E" + ("\n" + (keyword + ("~" + ("\n" + (description + ("~" + "")))))))
  {
  }

  /** The tokens of a written-out extra description, one after the other. */
  lemma ExtraTokens(s: string, p: nat, keyword: string, description: string, k: nat, e: nat)
    requires TildeText(keyword) && TildeText(description)
    requires At(s, p, ExtraLine(keyword, description))
    requires k == p + |keyword| + 3 && e == p + |ExtraLine(keyword, description)|
    ensures p <= |s| && Lit(s, p, "E") == Ok((), p + 1) && p + 1 <= |s|
    ensures TildeString(s, p + 1) == Ok(keyword, k) && k <= |s|
    ensures TildeString(s, k) == Ok(description, e)
  {
    var r2 := "\n" + (description + ("~" + ""));
    var r1 := "\n" + (keyword + ("~" + r2));
    ExtraLineShape(keyword, description);
    assert AllWhitespace("") && AllWhitespace("\n");
    ReadLit(s, p, "", "E", r1, p + 1);
    ReadTilde(s, p + 1, "\n", keyword, r2, k);
    ReadTilde(s, k, "\n", description, "", e);
  }

  /** A block written out, from its letter to its last character. */
  function BlockLine(b: Block): string {
    match b
    case HealRate(n) => "H " + n
    case ManaRate(n) => "M " + n
    case Owner(o) => "O " + o + "~"
    case Extra(x) => ExtraLine(x.keyword, x.description)
    case Door(x) => x.door + "\n" + x.description + "~\n" + x.keyword + "~\n" + x.locks + " " + x.key + " " + x.destination
    case ByLocation(a) => "A " + a.location + " " + a.modifier
    case ByFlag(f) => "F " + f.where + " " + f.location + " " + f.modifier + " " + f.bitvector
    case MobileFlag(m) => "F " + m.word + " " + m.flag
  }

  /** Blocks written out in input order, each followed by the newline that
      ends its last line. */
  function BlockLines(bs: seq<Block>): string {
    if bs == [] then "" else BlockLine(bs[0]) + ("\n" + BlockLines(bs[1..]))
  }

  /** A block that its written-out text carries exactly: words of the
      classes they are read with, texts without `~`, and a door that is `D`
      followed by digits. */
  predicate BlockWritable(b: Block) {
    match b
    case HealRate(n) => IsWord(n, Nums)
    case ManaRate(n) => IsWord(n, Nums)
    case Owner(o) => TildeText(o)
    case Extra(x) => TildeText(x.keyword) && TildeText(x.description)
    case Door(x) =>
      |x.door| >= 2 && x.door[0] == 'D' && IsWord(x.door[1..], Nums)
      && TildeText(x.description) && TildeText(x.keyword)
      && IsWord(x.locks, Nums) && IsWord(x.key, SignedNums) && IsWord(x.destination, SignedNums)
    case ByLocation(a) => IsWord(a.location, SignedNums) && IsWord(a.modifier, SignedNums)
    case ByFlag(f) =>
      IsWord(f.where, Alphas) && IsWord(f.location, Nums) && IsWord(f.modifier, SignedNums) && IsWord(f.bitvector, Alnums)
    case MobileFlag(m) => IsWord(m.word, Alphas) && IsWord(m.flag, Alnums)
  }

  /** The first block and the rest, written out. */
  lemma BlockLinesCons(bs: seq<Block>, next: string)
    requires bs != []
    ensures BlockLines(bs) + next == BlockLine(bs[0]) + ("\n" + (BlockLines(bs[1..]) + next))
    ensures |BlockLines(bs)| == |BlockLine(bs[0])| + 1 + |BlockLines(bs[1..])|
  {
    var line, more := BlockLine(bs[0]), BlockLines(bs[1..]);
    assert BlockLines(bs) == line + ("\n" + more);
    assert (line + ("\n" + more)) + next == line + ("\n" + (more + next));
  }

  /** Selecting a kind that every block has keeps every block. */
  lemma {:induction false} SelectOfOneKind(bs: seq<Block>, k: Kind)
    requires forall i :: 0 <= i < |bs| ==> KindOf(bs[i]) == k
    ensures Select(bs, k) == bs
  {
    if bs != [] {
      SelectOfOneKind(bs[1..], k);
      assert [bs[0]] + bs[1..] == bs;
    }
  }

  /** Blocks of the given kinds, each of which reads back as written. */
  predicate BlocksOf(bs: seq<Block>, kinds: set<Kind>) {
    bs == [] || (KindOf(bs[0]) in kinds && BlockWritable(bs[0]) && BlocksOf(bs[1..], kinds))
  }

  lemma {:induction false} BlocksOfKinds(bs: seq<Block>, kinds: set<Kind>)
    requires BlocksOf(bs, kinds)
    ensures forall i :: 0 <= i < |bs| ==> KindOf(bs[i]) in kinds
  {
    if bs != [] {
      BlocksOfKinds(bs[1..], kinds);
      assert forall i :: 1 <= i < |bs| ==> bs[i] == bs[1..][i - 1];
    }
  }

  /** A written-out run after `q`: its first block on the line after `q`,
      and the rest of the run on the line after that block. */
  lemma BlockRunFirst(s: string, q: nat, bs: seq<Block>, next: string)
    requires bs != [] && At(s, q, "\n" + (BlockLines(bs) + next))
    ensures At(s, q, "\n" + (BlockLine(bs[0]) + ("\n" + (BlockLines(bs[1..]) + next))))
    ensures At(s, q + 1 + |BlockLine(bs[0])|, "\n" + (BlockLines(bs[1..]) + next))
    ensures |BlockLines(bs)| == 1 + |BlockLine(bs[0])| + |BlockLines(bs[1..])|
  {
    var line, more := BlockLine(bs[0]), "\n" + (BlockLines(bs[1..]) + next);
    BlockLinesCons(bs, next);
    assert "\n" + (line + more) == ("\n" + line) + more;
    AtParts(s, q, "\n" + line, more, q + 1 + |line|);
  }

  /** The rest of a written-out run, on the line after its first block. */
  lemma BlockRunRest(s: string, q: nat, bs: seq<Block>, next: string, q1: nat)
    requires bs != [] && At(s, q, "\n" + (BlockLines(bs) + next)) && q1 == q + 1 + |BlockLine(bs[0])|
    ensures At(s, q1, "\n" + (BlockLines(bs[1..]) + next))
  {
    BlockRunFirst(s, q, bs, next);
  }

  /** Where a written-out run after `q` ends, the newline before `next`
      stands. */
  lemma {:induction false} BlockRunEnd(s: string, q: nat, bs: seq<Block>, next: string, e: nat)
    requires At(s, q, "\n" + (BlockLines(bs) + next)) && e == q + |BlockLines(bs)|
    ensures At(s, e, "\n" + next)
    decreases |bs|
  {
    if bs == [] {
      assert "\n" + (BlockLines(bs) + next) == "\n" + next;
    } else {
      BlockRunFirst(s, q, bs, next);
      BlockRunEnd(s, q + 1 + |BlockLine(bs[0])|, bs[1..], next, e);
    }
  }

  /** An `E` block on the line after `q` is the extra description read
      there. */
  lemma ExtraAt(s: string, q: nat, x: ExtraDescription, tail: string)
    requires BlockWritable(Extra(x)) && At(s, q, "\n" + (BlockLine(Extra(x)) + tail))
    ensures Skip(s, q) == q + 1 && q + 1 < |s| && s[q + 1] == 'E'
    ensures ExtraBlock(s, q) == Ok(x, q + 1 + |BlockLine(Extra(x))|)
  {
    var line := ExtraLine(x.keyword, x.description);
    ExtraLineShape(x.keyword, x.description);
    AfterNewline(s, q, line + tail);
    AtSplit(s, q + 1, line, tail);
    ExtraReadsBack(s, q + 1, x.keyword, x.description, q + 1 + |line|);
    NoSkip(s, q + 1, line);
    ExtraFromSkip(s, q, q + 1);
  }

  /** An extra description is read alike from two places whose skipped
      whitespace ends at the same character. */
  lemma ExtraFromSkip(s: string, p: nat, q: nat)
    requires p <= |s| && q <= |s| && Skip(s, p) == Skip(s, q)
    ensures ExtraBlock(s, p) == ExtraBlock(s, q)
  {
    assert Lit(s, p, "E") == Lit(s, q, "E");
  }
}
