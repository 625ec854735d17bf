# Anatolia MUD area files: a verified model of the area-file grammar

An Anatolia MUD area file (`.are`) is a text file made of sections. Each
section opens with a tag: `#AREA`, `#ROOMS`, `#OBJECTS`, `#OBJOLD`,
`#MOBILES`, `#MOBOLD`, `#RESETS`, `#SHOPS`, `#OLIMITS`, `#PRACTICERS`,
`#SPECIALS`, `#OMPROGS`, `#HELPS`, `#RESETMESSAGE` or `#FLAG`. Sections come
in any order, and the file ends with `#$`. The converter reads such a file
with a combinator grammar and turns it into a dictionary of sections. This
project models that grammar as pure recursive-descent functions over the
input text and a position. It proves what the grammar promises about the
records it produces.

Every parser is a function `(s, p) -> Res<T>` (`lexer.dfy`). It either fails
or returns the value read and the position after it. The model follows the
combinator library's rules:

- every token first skips spaces, newlines, tabs and carriage returns,
  except inside a combined token;
- a repetition is greedy and stops without consuming where its item fails;
- alternatives are tried in order, and the first that succeeds wins;
- the input's tabs are expanded to tab stops of 8 before parsing.

The files:

- `lexer.dfy` — tokens and combinators: literals, words of a character set,
  tilde strings, the `#<vnum>` record header, `*` comments, rows of words,
  `~`-closed text lines, repetition, a tag-delimited list, ordered
  alternatives, and tab expansion.
- `blocks.dfy` — the letter-tagged blocks that follow a room, an object or
  a mobile. It also says how a record's fields are read from its block run.
  A field collected from every block of its kind keeps them all, in input
  order. A single-valued field keeps the last one.
- `rooms.dfy`, `objects.dfy`, `mobiles.dfy` — the record sections.
- `flat_sections.dfy` — the one-row-per-record sections: resets, shops,
  object limits, practicers, specials, programs and helps.
- `area_file.dfy` — the `#AREA` header, the two one-field sections, the
  section dispatcher and the resulting document.
- `sample.dfy` — one whole file worked through, from text to document.

Where the written description of the format and the grammar differ, the
model follows the grammar:

- A `0 $~` line in `#HELPS` does not end the help list. It is read and
  dropped, and help rows go on being read after it
  (`FlatSections.HelpSentinelVanishes`).
- A section that appears twice does not accumulate. The document keeps the
  last one under its key (`AreaFile.AssembleLastWins`).
- In the `#AREA` header, the credits are the tilde string that starts right
  after the writer word. So `{  1  100}writer~credits~` has the writer
  `writer` and empty credits (`AreaSample.SampleDocument`).
- The `#0` that closes a record section is itself a record header, for room
  number 0. The list ends at `#0` only where no room can be read from it
  (`Rooms.EmptyRoomsSection`). Where room lines follow it, `#0` is read as
  room 0 (`Rooms.ZeroVnumIsARoom`).

## Model

| member | source | states |
|---|---|---|
| Lexer.Lit | area-to-json.py:39 | a literal is read iff it stands right after the skipped whitespace; it is consumed exactly, and nothing after it |
| Lexer.WordOf | area-to-json.py:99-106 | a word is read iff a character of its set follows the whitespace; the value is the input from there, a non-empty run of the set's characters, and the next character is not one of them |
| Lexer.WordReadsBack | area-to-json.py:99-106 | a run of word characters written after whitespace, and not followed by another, is read back exactly |
| Lexer.TildeString | area-to-json.py:34 | after whitespace, a tilde string is read iff a `~` lies ahead; the value is the input up to the first `~`, so it holds no `~`; the `~` is consumed and dropped |
| Lexer.TildeStringReadsBack | area-to-json.py:34 | a `~`-free text written after whitespace and closed by `~` is read back exactly, newlines included |
| Lexer.Vnum | area-to-json.py:35 | a record header is read iff `#` and then a digit follow the whitespace; the value is the digits after the `#` and any whitespace, all of them; the header ends at the first newline after the digits, so the rest of that line is dropped |
| Lexer.VnumReads | area-to-json.py:35 | `#`, digits and a newline, after whitespace, read back as exactly those digits, ending at that newline |
| Lexer.Comment | area-to-json.py:36 | a comment is read iff a `*` follows the whitespace; it ends at the first newline after the `*`, or at the end of the input |
| Lexer.Row | area-to-json.py:168-171 | a row yields exactly one non-empty word per column, each made of its column's characters, and ends at a newline or at the end of the input |
| Lexer.RowSpellsWords | area-to-json.py:168-171 | the words a row yields are spelled in the input one after another, each after whitespace, and the row ends at the first newline after the last word: the rest of that line is dropped |
| Lexer.RowReadsBack | area-to-json.py:168-193 | words written one space apart, then any rest of line and a newline, are read back as exactly those words, ending before the newline |
| Lexer.ColumnsReadBack | area-to-json.py:243-255 | words written one space apart starting right at the position, then any rest of line and a newline, are read back as exactly those words, ending before the newline |
| Lexer.RowLine | area-to-json.py:168-193 | a row written on its own line after a newline is read back as its words and ends before the next newline |
| Lexer.TextLines | area-to-json.py:163-167 | `n` tilde strings, each dropping the rest of its line, give `n` texts without `~` |
| Lexer.TextLinesSpellTexts | area-to-json.py:163-167 | those texts are spelled in the input one after another, each after whitespace and closed by `~`, and the item ends where the last one's line ends |
| Lexer.TextLinesReadBack | area-to-json.py:163-167 | `~`-closed texts written one per line are read back as exactly those texts |
| Lexer.RecordHeadReads | area-to-json.py:94-98 | a record header and its `~`-closed text lines, written out, read back as that vnum and those texts |
| Lexer.ExpandTabs | area-to-json.py:329 | no tab is left after expansion, and a text without tabs is unchanged |
| Lexer.ExpandToTabStop | area-to-json.py:329 | a tab becomes 1 to 8 spaces, reaching the next column that is a multiple of 8; the text before it is kept, and the text after it goes on from that column |
| Lexer.ExpandKeepsText | area-to-json.py:329 | expansion only changes blanks: with spaces and tabs removed, the text is the same before and after, in the same order |
| Lexer.Many | area-to-json.py:58 | a repetition never moves backwards and stops exactly where its item can no longer be read |
| Lexer.ManyOnce | area-to-json.py:58 | one item followed by a place where none can be read is a repetition of exactly that item |
| Lexer.ManySkipsEmpty | area-to-json.py:231 | a suppressed step contributes nothing: the repetition before it equals the repetition after it |
| Lexer.ManyAll | area-to-json.py:58 | a property that every item's values have holds of every value of the repetition |
| Lexer.Delimited | area-to-json.py:57-89 | a list section is read only where its tag is read; it ends with its closing token and holds exactly the items read between them |
| Lexer.DelimitedEmpty | area-to-json.py:57-89 | a tag followed directly by the closing token is an empty list, ending after the closing token |
| Lexer.DelimitedSingle | area-to-json.py:57-89 | a tag, one item and the closing token on the next line is a list of that item alone, ending at the end of the text |
| Lexer.ZeroClosed | area-to-json.py:89 | a record list ends right after its `#0` |
| Lexer.FirstOf | area-to-json.py:307-321 | ordered alternatives fail iff every alternative fails; otherwise the result is one alternative's result |
| Lexer.FirstOfIsFirstMatch | area-to-json.py:307-321 | that result is the first alternative that succeeds: every earlier one fails |
| Blocks.Select | area-to-json.py:66-85 | selecting a kind of block keeps only blocks of that kind, and never more blocks than there are |
| Blocks.SelectAppend | area-to-json.py:74 | the blocks of a kind in two consecutive runs are those of the first run followed by those of the second |
| Blocks.SelectSnoc | area-to-json.py:74 | one more block adds itself to the end of its own kind's list and to no other |
| Blocks.ExtrasSnoc | area-to-json.py:70-74 | one more extra description is appended to the extra descriptions; any other block leaves them alone |
| Blocks.ExitsSnoc | area-to-json.py:75-85 | one more exit is appended to the exits; any other block leaves them alone |
| Blocks.SelectSwap | area-to-json.py:66-85 | swapping two adjacent blocks of different kinds changes no kind's list |
| Blocks.LastTextWins | area-to-json.py:67-69 | a later heal rate, mana rate or owner replaces any earlier one |
| Blocks.ExtraBlock | area-to-json.py:70-74 | an extra description's keyword and text hold no `~`, and the block ends with a `~` |
| Blocks.ExtraReadsBack | area-to-json.py:70-74 | `E`, a keyword and a text, each closed by `~`, read back as exactly that keyword and text |
| Rooms.RoomFixed | area-to-json.py:60-65 | a room's fixed fields carry the vnum its header spells, a name and a description without `~`, and end at a newline |
| Rooms.RateBlock | area-to-json.py:67-68 | an `H` or `M` block is read only where its letter stands after the whitespace; its value is a non-empty run of digits |
| Rooms.RateReadsBack | area-to-json.py:67-68 | `H` or `M`, a space and a number, written after whitespace, read back as exactly that number, ending after its last digit |
| Rooms.OwnerBlock | area-to-json.py:69 | an `O` block is read only where `O` stands after the whitespace; the owner holds no `~` |
| Rooms.OwnerReadsBack | area-to-json.py:69 | `O` and a `~`-closed text, written after whitespace, read back as exactly that text, ending after the `~` |
| Rooms.DoorTag | area-to-json.py:76-79 | an exit's door is `D` directly followed by digits, read as one token |
| Rooms.ExitBlock | area-to-json.py:75-85 | an exit's door is `D` and more, and its description and keyword hold no `~` |
| Rooms.ExitFields | area-to-json.py:80-84 | the fields after the door tag keep that door, and the description and keyword hold no `~` |
| Rooms.ExitReadsBack | area-to-json.py:75-85 | an exit written out (door `D<n>`, description and keyword each closed by `~`, locks, key, destination) reads back as exactly those six fields, ending after the destination |
| Rooms.DoorIsRoomBlock | area-to-json.py:66-85 | where a `D` stands, no `H`, `M`, `O` or `E` block can be read, so the room block there is exactly the exit read there |
| Rooms.RoomBlock | area-to-json.py:66-85 | a room block consumes input and yields exactly one block |
| Rooms.RoomTail | area-to-json.py:66-87 | a room's block run is closed by `S`, and its value is exactly the blocks the repetition reads before the `S` |
| Rooms.RoomTailClosed | area-to-json.py:66-87 | where `S` stands on the next line, the block run is empty and the tail ends right after the `S` |
| Rooms.RoomBlocksRead | area-to-json.py:66-86 | blocks of the five room kinds written one per line, followed by a line that opens no block, are read back block for block and in input order, ending before that line |
| Rooms.RoomTailReadsBack | area-to-json.py:66-87 | such a block run closed by `S` on the next line is the room's tail: exactly those blocks, ending right after the `S` |
| Rooms.RoomItem | area-to-json.py:59-88 | a room consumes input and yields exactly one room |
| Rooms.RoomReadsBack | area-to-json.py:57-88 | a room written out without blocks and closed by `S` reads back as its vnum, name, description, flags and sector; the number before the flags is dropped, and the room ends right after its `S` |
| Rooms.RoomWithBlocksReadsBack | area-to-json.py:59-88 | a room written out with its blocks reads back as its fields together with its blocks; its extra descriptions and exits are those of its blocks, in input order |
| Rooms.TwoExtrasOneExit | area-to-json.py:66-87 | a room written out with two `E` blocks and one `D` block reads back with exactly those two extra descriptions, in order, and that one exit |
| Rooms.RoomWithoutBlocks | area-to-json.py:66-85 | a room with no blocks has no heal rate, mana rate or owner and no extra descriptions or exits |
| Rooms.RoomOrderIndependent | area-to-json.py:66-85 | a room's fields do not depend on the order of blocks of different kinds |
| Rooms.RoomAccumulates | area-to-json.py:70-85 | each extra description or exit is appended, in input order, to its own list and leaves the other list alone |
| Rooms.RoomsSection | area-to-json.py:57-89 | the room list is read only after `#ROOMS`, ends right after `#0`, and holds exactly the rooms read in between |
| Rooms.EmptyRoomsSection | area-to-json.py:57-89 | `#ROOMS` followed by `#0`, where no room can be read from that `#0`, is an empty room list ending after the `#0` |
| Rooms.ZeroVnumIsARoom | area-to-json.py:57-89 | `#0` followed by room lines is read as room number 0, and the list ends at the next `#0` |
| Objects.ObjectFixed | area-to-json.py:94-106 | an object's fixed fields consume input |
| Objects.ObjectReadsBack | area-to-json.py:94-106 | an object's fixed fields written out (vnum, four `~`-closed texts, type and flags line, values line, level, weight, cost and condition line) read back as exactly those fields |
| Objects.LocationBlock | area-to-json.py:108-112 | an `A` block is read only where `A` stands after the whitespace; its location and modifier are signed numbers |
| Objects.LocationReadsBack | area-to-json.py:108-112 | `A` and two signed numbers, written after whitespace, read back as exactly that location and modifier |
| Objects.FlagBlock | area-to-json.py:113-119 | an `F` block is read only where `F` stands after the whitespace; `where` is letters, the location digits, the modifier a signed number and the bitvector letters and digits |
| Objects.FlagReadsBack | area-to-json.py:113-119 | `F` and its four words, written after whitespace, read back as exactly those four fields |
| Objects.ObjectBlock | area-to-json.py:107-125 | an object block consumes input and yields exactly one block |
| Objects.ObjectBlocksRead | area-to-json.py:107-125 | `A`, `F` and `E` blocks written one per line, followed by a line that opens no block, are read back block for block and in input order |
| Objects.ObjectItem | area-to-json.py:92-126 | an object consumes input and yields exactly one object |
| Objects.ObjectItemReadsBack | area-to-json.py:92-126 | an object written out without blocks, followed by a line that opens no block, reads back as exactly that object with no affects or extra descriptions |
| Objects.ObjectWithBlocksReadsBack | area-to-json.py:92-126 | an object written out with its blocks reads back as that object; its `A` affects, `F` affects and extra descriptions are those of its blocks, in input order |
| Objects.ObjectOrderIndependent | area-to-json.py:107-124 | an object's affects and extra descriptions do not depend on the order of blocks of different kinds |
| Objects.ObjectsSection | area-to-json.py:91-127 | the object list is read only after `#OBJECTS`, ends right after `#0`, and holds exactly the objects read in between |
| Objects.OldObjectFixed | area-to-json.py:132-143 | an old object's fixed fields consume input |
| Objects.OldObjectReadsBack | area-to-json.py:132-143 | an old object's fixed fields written out read back as given, except that the material (the fourth tilde string) and the number after the cost are read and dropped |
| Objects.OldObjectBlock | area-to-json.py:144-155 | an old object's block is an `A` affect or an extra description, never an `F` affect; an affect is exactly the `A` block read there, and an extra description is read only where no `A` block can be |
| Objects.OldObjectBlocksRead | area-to-json.py:144-155 | `A` and `E` blocks written one per line, followed by a line that opens no block, are read back block for block and in input order |
| Objects.OldObjectItem | area-to-json.py:130-156 | an old object consumes input and yields exactly one old object |
| Objects.OldObjectWithBlocksReadsBack | area-to-json.py:130-156 | an old object written out with its blocks reads back as its fields, the material and the number after the cost dropped, with the `A` affects and extra descriptions of its blocks, in input order |
| Objects.OldObjectsSection | area-to-json.py:129-157 | the old object list is read only after `#OBJOLD`, ends right after `#0`, and holds exactly the old objects read in between |
| Mobiles.MobileFixed | area-to-json.py:162-193 | a mobile's fixed fields consume input |
| Mobiles.MobileFixedReadsBack | area-to-json.py:162-193 | a mobile's fixed fields written out (vnum, five `~`-closed texts, six rows of words) read back as exactly that mobile |
| Mobiles.MobileFlagBlock | area-to-json.py:194-199 | a mobile's block is an `F` affect, read only where `F` stands after the whitespace; its word is letters and its flag letters and digits |
| Mobiles.MobileFlagReadsBack | area-to-json.py:195-199 | `F`, a word and a flag, written after whitespace, read back as exactly that affect |
| Mobiles.MobileFlagsRead | area-to-json.py:194-200 | `F` blocks written one per line, followed by a line that opens none, are read back block for block and in input order |
| Mobiles.MobileAffectsInOrder | area-to-json.py:194-200 | a run of `F` blocks gives one affect per block, the i-th affect being the i-th block's |
| Mobiles.MobileItem | area-to-json.py:161-201 | a mobile consumes input and yields exactly one mobile |
| Mobiles.MobileItemReadsBack | area-to-json.py:161-201 | a mobile written out without `F` blocks, followed by a line that opens none, reads back as exactly that mobile |
| Mobiles.MobileWithFlagsReadsBack | area-to-json.py:161-201 | a mobile written out with its `F` blocks reads back as that mobile with one affect per block, in input order |
| Mobiles.MobileItemNoAffects | area-to-json.py:194-200 | where no `F` block follows the fixed fields, the mobile is its fixed fields with no affects |
| Mobiles.OneMobileSection | area-to-json.py:159-202 | `#MOBILES`, one mobile written out and `#0` read as a list of that mobile alone, ending at the end of the text |
| Mobiles.MobilesSection | area-to-json.py:159-202 | the mobile list is read only after `#MOBILES`, ends right after `#0`, and holds exactly the mobiles read in between |
| Mobiles.OldMobileItem | area-to-json.py:206-226 | an old mobile consumes input and yields exactly one old mobile |
| Mobiles.OldMobileReadsBack | area-to-json.py:207-225 | an old mobile written out reads back as its vnum, four texts, act, affected-by, alignment, level, wealth, the two positions and sex; the other columns are read and dropped |
| Mobiles.OldMobilesSection | area-to-json.py:204-227 | the old mobile list is read only after `#MOBOLD`, ends right after `#0`, and holds exactly the old mobiles read in between |
| FlatSections.ResetItem | area-to-json.py:230-238 | a reset step yields nothing for a comment, else one command with as many signed-number arguments as its letter calls for |
| FlatSections.ResetReadsBack | area-to-json.py:232-238 | a reset row written out reads back as one command with its letter and exactly its arguments, whatever its first column holds; it ends before the newline |
| FlatSections.ResetsSection | area-to-json.py:229-239 | the reset list is read only after `#RESETS`, ends with `S`, and holds exactly the commands read in between |
| FlatSections.ResetsWellFormed | area-to-json.py:229-239 | every command of a reset section has the argument count of its letter |
| FlatSections.CommentLinesVanish | area-to-json.py:231 | a `*` line yields no reset, practicer, special or program record |
| FlatSections.ShopItem | area-to-json.py:243-255 | a shop row consumes input and yields one shop |
| FlatSections.ShopReadsBack | area-to-json.py:243-255 | a shop row written out reads back with its ten columns, in order, as the keeper, five buy types, two profits and two hours, whatever the rest of its line holds |
| FlatSections.ShopsSection | area-to-json.py:241-256 | the shop list is read only after `#SHOPS`, ends with `0`, and holds exactly the shops read in between |
| FlatSections.OLimitItem | area-to-json.py:261-263 | a limit row consumes input and yields one limit |
| FlatSections.OLimitReadsBack | area-to-json.py:262 | `O`, a vnum and a limit, written out, read back as exactly that vnum and limit |
| FlatSections.OLimitsSection | area-to-json.py:259-264 | the limit list is read only after `#OLIMITS`, ends with `S`, and holds exactly the limits read in between |
| FlatSections.MobileBinding | area-to-json.py:270 | an `M` row of a vnum and a name consumes input |
| FlatSections.MobileBindingReadsBack | area-to-json.py:270 | `M`, a vnum and a name, written out, read back as exactly that vnum and name |
| FlatSections.PracticerItem | area-to-json.py:268-271 | a practicer step consumes input and yields at most one practicer |
| FlatSections.SpecialItem | area-to-json.py:276-279 | a special step consumes input and yields at most one special |
| FlatSections.BindingRowsReadBack | area-to-json.py:266-280 | an `M` row written out reads back as exactly one practicer and exactly one special with that vnum and name |
| FlatSections.PracticersSection | area-to-json.py:266-272 | the practicer list is read only after `#PRACTICERS`, ends with `S`, and holds exactly the practicers read in between |
| FlatSections.SpecialsSection | area-to-json.py:274-280 | the special list is read only after `#SPECIALS`, ends with `S`, and holds exactly the specials read in between |
| FlatSections.OmProgItem | area-to-json.py:284-287 | a program step yields nothing for a comment, else one program whose command is `M` or `O` |
| FlatSections.OmProgReadsBack | area-to-json.py:286 | `M` or `O`, a vnum, a program type and a program name, written out, read back as exactly that program |
| FlatSections.OmProgsSection | area-to-json.py:282-288 | the program list is read only after `#OMPROGS`, ends with `S`, and holds exactly the programs read in between |
| FlatSections.HelpItem | area-to-json.py:291-295 | a help step yields nothing for `0 $~`, else one help with a level and a `~`-free keyword and text |
| FlatSections.HelpReadsBack | area-to-json.py:293-294 | a help written out (level, keyword closed by `~`, text closed by `~`) that is not `0 $~` reads back as exactly one help with that level, keyword and text |
| FlatSections.HelpSentinelVanishes | area-to-json.py:292 | `0 $~` yields no help, and help rows go on being read after it |
| FlatSections.HelpsSection | area-to-json.py:290-296 | the help section is read iff its tag is; it holds exactly the helps read after the tag and ends where the run of help rows ends, where no help can be read; every help is well formed |
| FlatSections.HelpsWellFormed | area-to-json.py:290-296 | every help in a run of help rows has a level and a `~`-free keyword and text |
| AreaFile.LowRange | area-to-json.py:42-46 | the low end is read iff `{`, any spaces and a digit follow the whitespace; its value is all the digits there |
| AreaFile.HighRange | area-to-json.py:47-51 | the high end is read iff a digit follows the whitespace and, after the digits and any spaces, a `}` stands; its value is those digits, and the `}` ends it |
| AreaFile.AreaSection | area-to-json.py:39-55 | a header is read only after `#AREA`, and it ends at a newline or at the end of the text |
| AreaFile.AreaReadsBack | area-to-json.py:39-55 | a header written out (file and name each closed by `~`, the range in braces, writer, credits closed by `~`, vnum bounds) reads back as exactly those eight fields, whatever padding the range, writer and credits carry and whatever follows the credits' `~` on its line |
| AreaFile.ResetMessageSection | area-to-json.py:298-299 | the reset message is read iff its tag is read and a `~` lies ahead; the message is the text after the whitespace up to the first `~` |
| AreaFile.AreaFlagSection | area-to-json.py:301-302 | the flag is read iff its tag is read and a letter follows the whitespace; the flag is the whole run of letters there |
| AreaFile.AlternativeTagged | area-to-json.py:307-321 | a section alternative succeeds only where its own tag stands, and yields the section of its own kind, stored under its own key |
| AreaFile.SectionItem | area-to-json.py:307-322 | a section is read iff one of the fifteen alternatives succeeds; it consumes input and yields one section |
| AreaFile.SectionItemTagged | area-to-json.py:307-322 | the section read is the one of the first alternative that succeeds; its tag stands at that place and its key goes with that tag |
| AreaFile.Sections | area-to-json.py:324 | the run of sections is exactly the repetition of sections read from the start of the text, and it stops where no section can be read |
| AreaFile.ParseSections | area-to-json.py:324-326 | there is a list of sections iff `#$` follows the run of sections, and that list holds exactly the sections read |
| AreaFile.NoSectionAtEnd | area-to-json.py:324-326 | no section can be read where `#$` stands |
| AreaFile.EmptyDocument | area-to-json.py:324-326 | a file that is only `#$` is a document with no sections |
| AreaFile.FailedSectionIsFatal | area-to-json.py:324-335 | when the run of sections stops at a section tag, because its grammar failed, there is no document |
| AreaFile.Assemble | area-to-json.py:330 | no sections make an empty document |
| AreaFile.AssembleKeys | area-to-json.py:330 | the document's keys are exactly the keys of the sections read |
| AreaFile.AssembleLastWins | area-to-json.py:307-330 | a section read twice is not accumulated: the document keeps the last section of each key |
| AreaFile.AssembleKeepsLast | area-to-json.py:307-330 | every section that is the last of its key is in the document under that key |
| AreaFile.DocumentOf | area-to-json.py:330 | the document's keys are among the fifteen section names, are exactly the keys of the sections read, and each holds the last section of its key |
| AreaFile.ParseFile | area-to-json.py:305-335 | a document exists iff the tab-expanded text is a run of sections followed by `#$`; its keys are exactly those sections' keys, among the fifteen section names, and each holds the last section of its key |
| AreaSample.SampleDocument | area-to-json.py:305-331 | a header-only file converts to a document holding that header under `area`, with the credits cut at the first `~` after the writer |

## Left out

- The command line, file reading and JSON writing (`main`) are not part of
  this model; the model starts from the file's text.
- The printing of the parse error and its position is left out: a failed
  parse is `None` (no document).
- The dictionary conversion's exact JSON shape is not modelled. A record
  field that no block supplied is an empty list or `None` in the model,
  where the dictionary would leave the key out. The reset message and the
  area flag are stored as plain values, not nested dictionaries.
- All numbers stay the text that was read; the converter converts none.
- The parser library's internals (memoisation, result bookkeeping, error
  messages) are not modelled; only the grammar's accepted language and the
  values it produces are.
- Rooms.RoomBlock, Rooms.RoomItem: their own contracts state only that one block or room is read. Rooms.RoomBlocksRead and Rooms.RoomWithBlocksReadsBack tie them to the input, for blocks written one per line.
- Objects.ObjectFixed, Objects.ObjectBlock, Objects.ObjectItem: their own contracts state only progress. Objects.ObjectReadsBack, Objects.ObjectBlocksRead and Objects.ObjectWithBlocksReadsBack tie them to the input.
- Objects.OldObjectFixed, Objects.OldObjectItem: their own contracts state only progress. Objects.OldObjectReadsBack and Objects.OldObjectWithBlocksReadsBack tie them to the input.
- Mobiles.MobileFixed, Mobiles.MobileItem: their own contracts state only progress. Mobiles.MobileFixedReadsBack and Mobiles.MobileWithFlagsReadsBack tie them to the input.
- Rooms.RateBlock, Rooms.OwnerBlock, Objects.LocationBlock, Objects.FlagBlock, Mobiles.MobileFlagBlock: their own contracts state the letter and the shape of the words, not the words themselves; the read-back lemmas beside them (RateReadsBack, OwnerReadsBack, LocationReadsBack, FlagReadsBack, MobileFlagReadsBack) tie the values to the input.
- The block-run read-backs cover blocks written one per line, words one space apart. The grammar also accepts other layouts, such as several blocks on one line or extra blanks; no read-back lemma covers those.
- Mobiles.OldMobileItem: its own contract states only progress. Mobiles.OldMobileReadsBack ties it to the input.
- FlatSections.ShopItem, FlatSections.OLimitItem, FlatSections.MobileBinding, FlatSections.PracticerItem, FlatSections.SpecialItem: their own contracts state only progress. The read-back lemmas beside them (ShopReadsBack, OLimitReadsBack, MobileBindingReadsBack, BindingRowsReadBack) tie their values to the input.
- Rooms.ExitBlock: its own contract does not tie the locks, key and destination to the input; Rooms.ExitReadsBack does.
- AreaFile.AreaSection: its own contract does not tie the header's fields to the input; AreaFile.AreaReadsBack does, for every header written out.
- AreaFile.AreaReadsBack: covers headers whose file line, name line and vnum bounds carry nothing after their `~` or their last digit; the grammar also drops any rest of those lines, and no read-back lemma covers that.
- AreaFile.Assemble: its own contract states only the empty case; AreaFile.DocumentOf states its keys and values.
