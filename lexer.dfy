/** Lexical primitives of the area-file grammar.

    Every parser is a function of the whole input `s` and a position `p`; it
    either fails or returns the value it read and the position just after it.
    As in the combinator library the converter is built on, every token first
    skips the whitespace characters space, newline, tab and carriage return,
    except where a combined token (`Combine`) or `restOfLine` says otherwise. */
module Lexer {

  datatype Option<+T> = None | Some(value: T)

  /** A successful parse: the value read and the position after it. */
  datatype Parsed<+T> = Parsed(value: T, next: nat)

  /** The result of one parser at one position. */
  datatype Res<+T> = Fail | Ok(value: T, next: nat) {
    predicate IsFailure() { Fail? }
    function PropagateFailure<U>(): Res<U> requires Fail? { Fail }
    function Extract(): Parsed<T> requires Ok? { Parsed(value, next) }
  }

  /** The character sets the grammar builds its words from. */
  datatype CharClass =
    | Whitespace     // the whitespace skipped before every token
    | Blank          // the single space of `White(' ')`
    | NotTilde       // `[^~]`
    | NotNewline     // the `.` of `restOfLine`
    | Nums           // `nums`
    | SignedNums     // `"-" + nums`
    | Alphas         // `alphas`
    | Alnums         // `alphanums`
    | FlagChars      // `alphanums + "|"`
    | RoomFlagChars  // `alphanums + "|" + "-"`
    | TypeChars      // `alphanums + "_" + "-"`
    | ValueChars     // `alphanums + " " + "'" + "-"`
    | DiceChars      // `alphanums + "+"`
    | NameChars      // `alphanums + "_"`

  predicate IsDigit(c: char) { '0' <= c <= '9' }
  predicate IsAlpha(c: char) { 'a' <= c <= 'z' || 'A' <= c <= 'Z' }
  predicate IsAlnum(c: char) { IsDigit(c) || IsAlpha(c) }

  predicate InClass(c: char, cls: CharClass) {
    match cls
    case Whitespace => c == ' ' || c == '\n' || c == '\t' || c == '\r'
    case Blank => c == ' '
    case NotTilde => c != '~'
    case NotNewline => c != '\n'
    case Nums => IsDigit(c)
    case SignedNums => IsDigit(c) || c == '-'
    case Alphas => IsAlpha(c)
    case Alnums => IsAlnum(c)
    case FlagChars => IsAlnum(c) || c == '|'
    case RoomFlagChars => IsAlnum(c) || c == '|' || c == '-'
    case TypeChars => IsAlnum(c) || c == '_' || c == '-'
    case ValueChars => IsAlnum(c) || c == ' ' || c == '\'' || c == '-'
    case DiceChars => IsAlnum(c) || c == '+'
    case NameChars => IsAlnum(c) || c == '_'
  }

  /** The end of the longest run of characters of class `cls` starting at `p`. */
  function SpanEnd(s: string, p: nat, cls: CharClass): (q: nat)
    requires p <= |s|
    ensures p <= q <= |s|
    ensures forall i :: p <= i < q ==> InClass(s[i], cls)
    ensures q == |s| || !InClass(s[q], cls)
    decreases |s| - p
  {
    if p < |s| && InClass(s[p], cls) then SpanEnd(s, p + 1, cls) else p
  }

  /** A run that is maximal is the one `SpanEnd` finds. */
  lemma SpanEndIs(s: string, p: nat, q: nat, cls: CharClass)
    requires p <= q <= |s|
    requires forall i :: p <= i < q ==> InClass(s[i], cls)
    requires q == |s| || !InClass(s[q], cls)
    ensures SpanEnd(s, p, cls) == q
  {
  }

  /** The first position at or after `p` that is not whitespace. */
  function Skip(s: string, p: nat): (q: nat)
    requires p <= |s|
    ensures p <= q <= |s|
  {
    SpanEnd(s, p, Whitespace)
  }

  /** `restOfLine`: the position of the next newline at or after `p`, or the
      end of the input; no whitespace is skipped first. */
  function LineEnd(s: string, p: nat): (q: nat)
    requires p <= |s|
    ensures p <= q <= |s|
    ensures q == |s| || s[q] == '\n'
    ensures forall i :: p <= i < q ==> s[i] != '\n'
  {
    SpanEnd(s, p, NotNewline)
  }

  /** `Literal(lit)`: after whitespace, the exact text `lit`. */
  function Lit(s: string, p: nat, lit: string): (r: Res<()>)
    requires p <= |s| && |lit| > 0
    ensures r.Ok? <==> Skip(s, p) + |lit| <= |s| && s[Skip(s, p)..Skip(s, p) + |lit|] == lit
    ensures r.Ok? ==> p < r.next <= |s| && r.next == Skip(s, p) + |lit|
    ensures r.Ok? ==> s[r.next - |lit| .. r.next] == lit && s[r.next - 1] == lit[|lit| - 1]
  {
    var q := Skip(s, p);
    if q + |lit| <= |s| && s[q..q + |lit|] == lit then Ok((), q + |lit|) else Fail
  }

  /** `Word(cls)`: after whitespace, the longest non-empty run of characters
      of class `cls`. */
  function WordOf(s: string, p: nat, cls: CharClass): (r: Res<string>)
    requires p <= |s|
    ensures r.Ok? <==> Skip(s, p) < |s| && InClass(s[Skip(s, p)], cls)
    ensures r.Ok? ==> Skip(s, p) < r.next <= |s| && r.value == s[Skip(s, p) .. r.next]
    ensures r.Ok? ==> |r.value| > 0 && forall i :: 0 <= i < |r.value| ==> InClass(r.value[i], cls)
    ensures r.Ok? ==> r.next == |s| || !InClass(s[r.next], cls)
  {
    var q := Skip(s, p);
    var e := SpanEnd(s, q, cls);
    if e == q then Fail else Ok(s[q..e], e)
  }

  /** A word read by `WordOf` is a word of its class: whitespace is skipped
      before it, so it does not start with whitespace. */
  lemma WordIsWord(s: string, p: nat, cls: CharClass)
    requires p <= |s|
    ensures WordOf(s, p, cls).Ok? ==> IsWord(WordOf(s, p, cls).value, cls)
  {
    var r := WordOf(s, p, cls);
    if r.Ok? {
      assert r.value[0] == s[Skip(s, p)];
    }
  }

  /** The tilde-terminated string: after whitespace, every character up to
      the first `~`, which is consumed and dropped. */
  function TildeString(s: string, p: nat): (r: Res<string>)
    requires p <= |s|
    ensures r.Ok? <==> '~' in s[Skip(s, p)..]
    ensures r.Ok? ==> p < r.next <= |s| && s[r.next - 1] == '~'
    ensures r.Ok? ==> r.value == s[Skip(s, p) .. r.next - 1] && '~' !in r.value
  {
    var q := Skip(s, p);
    var t := SpanEnd(s, q, NotTilde);
    assert '~' in s[q..] ==> t < |s| by {
      if '~' in s[q..] {
        var j :| 0 <= j < |s[q..]| && s[q..][j] == '~';
        assert s[q + j] == '~';
      }
    }
    assert t < |s| ==> s[q..][t - q] == '~';
    if t < |s| then Ok(s[q..t], t + 1) else Fail
  }

  /** Reading back: a text without `~`, not starting with whitespace, that
      follows some whitespace and is closed by `~` is read exactly. */
  lemma {:induction false} TildeStringReadsBack(s: string, p: nat, q: nat, text: string)
    requires p <= q && q + |text| < |s|
    requires forall i :: p <= i < q ==> InClass(s[i], Whitespace)
    requires s[q..q + |text|] == text && s[q + |text|] == '~'
    requires '~' !in text
    requires |text| > 0 ==> !InClass(text[0], Whitespace)
    ensures TildeString(s, p) == Ok(text, q + |text| + 1)
  {
    if |text| > 0 {
      assert s[q] == text[0];
    }
    SpanEndIs(s, p, q, Whitespace);
    forall i | q <= i < q + |text|
      ensures InClass(s[i], NotTilde)
    {
      assert s[i] == text[i - q];
    }
    SpanEndIs(s, q, q + |text|, NotTilde);
  }

  /** Where `words` stand in the input one after the other from `p`, each
      after whitespace: the position just after the last of them. */
  function WordsAt(s: string, p: nat, words: seq<string>): (r: Option<nat>)
    requires p <= |s|
    ensures r.Some? ==> p <= r.value <= |s|
    decreases |words|
  {
    if words == [] then Some(p)
    else
      var k := Skip(s, p);
      if k + |words[0]| <= |s| && s[k..k + |words[0]|] == words[0] then WordsAt(s, k + |words[0]|, words[1..])
      else None
  }

  /** Where the tilde string `text` stands in the input from `p`, after
      whitespace, closed by `~`, and followed by the rest of its line: the
      position of the end of that line. */
  function TextAt(s: string, p: nat, text: string): (r: Option<nat>)
    requires p <= |s|
    ensures r.Some? ==> p < r.value <= |s|
  {
    var k := Skip(s, p);
    var e := k + |text|;
    if e < |s| && s[k..e] == text && s[e] == '~' then Some(LineEnd(s, e + 1)) else None
  }

  /** Where tilde strings `texts` stand one after the other from `p`: the
      position of the end of the last one's line. */
  function TextsAt(s: string, p: nat, texts: seq<string>): (r: Option<nat>)
    requires p <= |s|
    ensures r.Some? ==> p <= r.value <= |s|
    decreases |texts|
  {
    if texts == [] then Some(p)
    else
      match TextAt(s, p, texts[0])
      case None => None
      case Some(q) => TextsAt(s, q, texts[1..])
  }

  lemma WordsAtCons(s: string, p: nat, w: string, rest: seq<string>, q: nat)
    requires p <= |s| && q == Skip(s, p) + |w| && q <= |s| && s[Skip(s, p)..q] == w
    ensures WordsAt(s, p, [w] + rest) == WordsAt(s, q, rest)
  {
    assert ([w] + rest)[0] == w && ([w] + rest)[1..] == rest;
  }

  lemma TextsAtCons(s: string, p: nat, text: string, rest: seq<string>)
    requires p <= |s| && TextAt(s, p, text).Some?
    ensures TextsAt(s, p, [text] + rest) == TextsAt(s, TextAt(s, p, text).value, rest)
  {
    assert ([text] + rest)[0] == text && ([text] + rest)[1..] == rest;
  }

  /** `Regex("[\*].*")`: after whitespace, a `*` and the rest of its line. */
  function Comment(s: string, p: nat): (r: Res<()>)
    requires p <= |s|
    ensures r.Ok? <==> Skip(s, p) < |s| && s[Skip(s, p)] == '*'
    ensures r.Ok? ==> p < r.next <= |s| && (r.next == |s| || s[r.next] == '\n')
    ensures r.Ok? ==> forall i :: Skip(s, p) <= i < r.next ==> s[i] != '\n'
  {
    var q := Skip(s, p);
    if q < |s| && s[q] == '*' then Ok((), LineEnd(s, q + 1)) else Fail
  }

  /** The `#<digits>` record header: after whitespace a `#`, then (after
      whitespace) the digits, then the rest of the line is dropped. */
  function Vnum(s: string, p: nat): (r: Res<string>)
    requires p <= |s|
    ensures r.Ok? <==> Skip(s, p) < |s| && s[Skip(s, p)] == '#' &&
                       Skip(s, Skip(s, p) + 1) < |s| && IsDigit(s[Skip(s, Skip(s, p) + 1)])
    ensures r.Ok? ==> |r.value| > 0 && forall i :: 0 <= i < |r.value| ==> IsDigit(r.value[i])
    ensures r.Ok? ==> WordsAt(s, Skip(s, p) + 1, [r.value]).Some?
    ensures r.Ok? ==> WordsAt(s, Skip(s, p) + 1, [r.value]).value == |s| || !IsDigit(s[WordsAt(s, Skip(s, p) + 1, [r.value]).value])
    ensures r.Ok? ==> r.next == LineEnd(s, WordsAt(s, Skip(s, p) + 1, [r.value]).value)
    ensures r.Ok? ==> p < r.next <= |s| && (r.next == |s| || s[r.next] == '\n')
  {
    var hash :- Lit(s, p, "#");
    var digits :- WordOf(s, hash.next, Nums);
    Ok(digits.value, LineEnd(s, digits.next))
  }

  /** Words of the given classes in sequence, then the rest of the line. */
  function Row(s: string, p: nat, classes: seq<CharClass>): (r: Res<seq<string>>)
    requires p <= |s|
    ensures r.Ok? ==> p <= r.next <= |s| && |r.value| == |classes|
    ensures r.Ok? && |classes| > 0 ==> p < r.next
    ensures r.Ok? ==> forall i :: 0 <= i < |classes| ==> |r.value[i]| > 0
    ensures r.Ok? ==> forall i, j :: 0 <= i < |classes| && 0 <= j < |r.value[i]| ==> InClass(r.value[i][j], classes[i])
    ensures r.Ok? ==> r.next == |s| || s[r.next] == '\n'
    decreases |classes|
  {
    if classes == [] then Ok([], LineEnd(s, p))
    else
      var first :- WordOf(s, p, classes[0]);
      var rest :- Row(s, first.next, classes[1..]);
      Ok([first.value] + rest.value, rest.next)
  }

  /** The words a row reads stand in the input one after the other, each
      after whitespace, and the row ends at the first newline after the
      last of them. */
  lemma {:induction false} RowSpellsWords(s: string, p: nat, classes: seq<CharClass>)
    requires p <= |s| && Row(s, p, classes).Ok?
    ensures WordsAt(s, p, Row(s, p, classes).value).Some?
    ensures Row(s, p, classes).next == LineEnd(s, WordsAt(s, p, Row(s, p, classes).value).value)
    decreases |classes|
  {
    if classes != [] {
      var first, q := RowUnfold(s, p, classes);
      RowSpellsWords(s, q, classes[1..]);
      RowSpellsFirst(s, p, first, q, Row(s, q, classes[1..]).value, Row(s, q, classes[1..]).next);
    } else {
      assert WordsAt(s, p, []) == Some(p);
    }
  }

  /** The inductive step of `RowSpellsWords`: the first word stands at the
      start, and the rest of the row spells the rest of the words. */
  lemma RowSpellsFirst(s: string, p: nat, first: string, q: nat, rest: seq<string>, e: nat)
    requires p <= |s| && q == Skip(s, p) + |first| && q <= |s| && s[Skip(s, p)..q] == first
    requires WordsAt(s, q, rest).Some? && e == LineEnd(s, WordsAt(s, q, rest).value)
    ensures WordsAt(s, p, [first] + rest).Some? && e == LineEnd(s, WordsAt(s, p, [first] + rest).value)
  {
    WordsAtCons(s, p, first, rest, q);
  }

  /** A row that is read has read its first word and then the rest. */
  lemma RowUnfold(s: string, p: nat, classes: seq<CharClass>) returns (first: string, q: nat)
    requires p <= |s| && classes != [] && Row(s, p, classes).Ok?
    ensures WordOf(s, p, classes[0]) == Ok(first, q) && q == Skip(s, p) + |first| && q <= |s|
    ensures Row(s, q, classes[1..]).Ok?
    ensures Row(s, p, classes) == Ok([first] + Row(s, q, classes[1..]).value, Row(s, q, classes[1..]).next)
  {
    var w := WordOf(s, p, classes[0]);
    assert w.Ok?;
    first, q := w.value, w.next;
    var rest := Row(s, q, classes[1..]);
    assert rest.Ok?;
  }

  /** Reading back a word: a run of class characters, after some whitespace
      and not followed by another class character, is read exactly. */
  lemma WordReadsBack(s: string, p: nat, q: nat, w: string, cls: CharClass)
    requires p <= q && q + |w| <= |s| && |w| > 0
    requires forall i :: p <= i < q ==> InClass(s[i], Whitespace)
    requires s[q..q + |w|] == w && !InClass(w[0], Whitespace)
    requires forall i :: 0 <= i < |w| ==> InClass(w[i], cls)
    requires q + |w| == |s| || !InClass(s[q + |w|], cls)
    ensures WordOf(s, p, cls) == Ok(w, q + |w|)
  {
    assert s[q] == w[0];
    SpanEndIs(s, p, q, Whitespace);
    forall i | q <= i < q + |w|
      ensures InClass(s[i], cls)
    {
      assert s[i] == w[i - q];
    }
    SpanEndIs(s, q, q + |w|, cls);
  }

  /** Words written out on a line, each after one space. */
  function Spaced(words: seq<string>): string {
    if words == [] then "" else " " + words[0] + Spaced(words[1..])
  }

  /** What a row may carry after its last column, up to the newline, and
      drops: nothing, or a space and then anything but a newline (a trailing
      `* comment`, say). */
  predicate Trailer(junk: string) {
    '\n' !in junk && (junk == [] || junk[0] == ' ')
  }

  /** A spaced line with its trailer and newline starts with a space, or
      with the newline. */
  lemma SpacedLineStart(words: seq<string>, junk: string)
    requires Trailer(junk)
    ensures (Spaced(words) + (junk + "\n"))[0] == ' ' || (Spaced(words) + (junk + "\n"))[0] == '\n'
  {
  }

  /** A slice that spells `a + b` spells `a` and then `b`. */
  lemma SliceSplit(s: string, p: nat, a: string, b: string)
    requires p + |a| + |b| <= |s| && s[p..p + |a| + |b|] == a + b
    ensures s[p..p + |a|] == a && s[p + |a|..p + |a| + |b|] == b
  {
    assert s[p..p + |a|] == (a + b)[..|a|];
    assert s[p + |a|..p + |a| + |b|] == (a + b)[|a|..];
  }

  /** A word that a column of class `cls` reads back: non-empty, not
      starting with whitespace, made of the class, and a class that stops
      at the space and the newline `Spaced` writes. */
  predicate Fits(w: string, cls: CharClass) {
    IsWord(w, cls) && !InClass(' ', cls) && !InClass('\n', cls)
  }

  /** A word of class `cls` as `WordOf` reads it after whitespace. */
  predicate IsWord(w: string, cls: CharClass) {
    |w| > 0 && !InClass(w[0], Whitespace) && forall i :: 0 <= i < |w| ==> InClass(w[i], cls)
  }

  predicate AllFit(words: seq<string>, classes: seq<CharClass>) {
    |words| == |classes| && forall i :: 0 <= i < |words| ==> Fits(words[i], classes[i])
  }

  /** Reading back a row: words written out by `Spaced`, then a trailer
      and a newline, are read as exactly those words, up to the newline. */
  lemma {:induction false} RowReadsBack(s: string, p: nat, words: seq<string>, classes: seq<CharClass>, junk: string)
    requires AllFit(words, classes) && Trailer(junk) && At(s, p, Spaced(words) + (junk + "\n"))
    ensures Row(s, p, classes) == Ok(words, p + |Spaced(words)| + |junk|)
    decreases |words|, 1
  {
    if words == [] {
      assert "" + (junk + "\n") == Spaced(words) + (junk + "\n");
      ReadLineEnd(s, p, junk, "", p + |junk|);
    } else {
      SpacedCons(words, junk + "\n");
      AllFitTail(words, classes);
      RowReadsBackStep(s, p, words, classes, junk);
    }
  }

  lemma SpacedCons(words: seq<string>, tail: string)
    requires words != []
    ensures Spaced(words) + tail == " " + (words[0] + (Spaced(words[1..]) + tail))
  {
  }

  lemma AllFitTail(words: seq<string>, classes: seq<CharClass>)
    requires words != [] && AllFit(words, classes)
    ensures Fits(words[0], classes[0]) && AllFit(words[1..], classes[1..])
  {
    forall i | 0 <= i < |words[1..]| ensures Fits(words[1..][i], classes[1..][i]) {
      assert words[1..][i] == words[i + 1] && classes[1..][i] == classes[i + 1];
    }
  }

  /** One step of `RowReadsBack`: the first word, then the rest of the row. */
  lemma {:induction false} RowReadsBackStep(s: string, p: nat, words: seq<string>, classes: seq<CharClass>, junk: string)
    requires words != [] && classes != [] && Fits(words[0], classes[0]) && AllFit(words[1..], classes[1..])
    requires Trailer(junk) && At(s, p, " " + (words[0] + (Spaced(words[1..]) + (junk + "\n"))))
    ensures Row(s, p, classes) == Ok(words, p + 1 + |words[0]| + |Spaced(words[1..])| + |junk|)
    decreases |words|, 0
  {
    var w, rest := words[0], words[1..];
    var tail := Spaced(rest) + (junk + "\n");
    SpacedLineStart(rest, junk);
    assert !InClass(tail[0], classes[0]);
    assert AllWhitespace(" ");
    var q := p + 1 + |w|;
    ReadWord(s, p, " ", w, classes[0], tail, q);
    RowReadsBack(s, q, rest, classes[1..], junk);
    RowStep(s, p, classes, words, q, q + |Spaced(rest)| + |junk|);
  }

  /** A row written from its first column on: the columns, one space
      between each two. */
  function Columns(words: seq<string>): string
    requires words != []
  {
    words[0] + Spaced(words[1..])
  }

  /** Reading back a row written from its first column on, then a trailer
      and a newline: exactly its columns are read, up to the newline. */
  lemma ColumnsReadBack(s: string, p: nat, words: seq<string>, classes: seq<CharClass>, junk: string)
    requires words != [] && AllFit(words, classes) && Trailer(junk) && At(s, p, Columns(words) + (junk + "\n"))
    ensures Row(s, p, classes) == Ok(words, p + |Columns(words)| + |junk|)
  {
    var w, rest := words[0], words[1..];
    var q := p + |w|;
    var e := q + |Spaced(rest)| + |junk|;
    assert Fits(w, classes[0]) && AllFit(rest, classes[1..]) by {
      AllFitTail(words, classes);
    }
    assert WordOf(s, p, classes[0]) == Ok(w, q) && At(s, q, Spaced(rest) + (junk + "\n")) by {
      FirstColumnReads(s, p, words, classes, junk);
    }
    assert Row(s, q, classes[1..]) == Ok(rest, e) by {
      RowReadsBack(s, q, rest, classes[1..], junk);
    }
    RowStep(s, p, classes, words, q, e);
  }

  /** The first column of a row written by `Columns`, and where the rest of
      the row stands. */
  lemma FirstColumnReads(s: string, p: nat, words: seq<string>, classes: seq<CharClass>, junk: string)
    requires words != [] && classes != [] && Fits(words[0], classes[0]) && Trailer(junk)
    requires At(s, p, Columns(words) + (junk + "\n"))
    ensures WordOf(s, p, classes[0]) == Ok(words[0], p + |words[0]|)
    ensures At(s, p + |words[0]|, Spaced(words[1..]) + (junk + "\n"))
  {
    var w, rest := words[0], words[1..];
    var tail := Spaced(rest) + (junk + "\n");
    assert Columns(words) + (junk + "\n") == "" + (w + tail);
    SpacedLineStart(rest, junk);
    assert AllWhitespace("");
    ReadWord(s, p, "", w, classes[0], tail, p + |w|);
  }

  /** A row is its first word followed by the row of the other columns. */
  lemma RowStep(s: string, p: nat, classes: seq<CharClass>, words: seq<string>, q: nat, e: nat)
    requires p <= |s| && classes != [] && words != []
    requires WordOf(s, p, classes[0]) == Ok(words[0], q) && q <= |s|
    requires Row(s, q, classes[1..]) == Ok(words[1..], e)
    ensures Row(s, p, classes) == Ok(words, e)
  {
    assert [words[0]] + words[1..] == words;
  }

  /** `text` stands in `s` at position `p`. */
  predicate At(s: string, p: nat, text: string) {
    p + |text| <= |s| && s[p..p + |text|] == text
  }

  /** Text that stands at `p` as `a + b` has `a` at `p` and `b` right after. */
  lemma AtSplit(s: string, p: nat, a: string, b: string)
    requires At(s, p, a + b)
    ensures At(s, p, a) && At(s, p + |a|, b)
  {
    SliceSplit(s, p, a, b);
  }

  /** A text followed by the character `c` that stands after it. */
  lemma AtGrow(s: string, p: nat, text: string, c: char)
    requires At(s, p, text) && p + |text| < |s| && s[p + |text|] == c
    ensures At(s, p, text + [c])
  {
    assert s[p..p + |text| + 1] == s[p..p + |text|] + [s[p + |text|]];
  }

  /** A character followed by text standing right after it. */
  lemma AtBack(s: string, p: nat, c: char, text: string)
    requires p < |s| && s[p] == c && At(s, p + 1, text)
    ensures At(s, p, [c] + text)
  {
    assert s[p..p + 1 + |text|] == [s[p]] + s[p + 1..p + 1 + |text|];
  }

  /** `AtSplit` with the position of the second part named. */
  lemma AtParts(s: string, p: nat, a: string, b: string, q: nat)
    requires At(s, p, a + b) && q == p + |a|
    ensures At(s, p, a) && At(s, q, b)
  {
    AtSplit(s, p, a, b);
  }

  /** The first character of a text that stands at `p`. */
  lemma AtFirst(s: string, p: nat, text: string)
    requires At(s, p, text) && |text| > 0
    ensures p < |s| && s[p] == text[0]
  {
    assert s[p..p + |text|][0] == s[p];
  }

  /** A literal that is read stands, character by character, after the
      skipped whitespace. */
  lemma LitChar(s: string, p: nat, lit: string, i: nat)
    requires p <= |s| && i < |lit| && Lit(s, p, lit).Ok?
    ensures Skip(s, p) + i < |s| && s[Skip(s, p) + i] == lit[i]
  {
    assert s[Skip(s, p)..Skip(s, p) + |lit|][i] == s[Skip(s, p) + i];
  }

  /** A literal is not read where one of its characters is not found. */
  lemma LitMismatch(s: string, p: nat, lit: string, i: nat)
    requires p <= |s| && i < |lit|
    requires Skip(s, p) + i < |s| && s[Skip(s, p) + i] != lit[i]
    ensures Lit(s, p, lit).Fail?
  {
    if Lit(s, p, lit).Ok? {
      LitChar(s, p, lit, i);
    }
  }

  /** The `i`-th character of a text that stands at `p`. */
  lemma AtChar(s: string, p: nat, text: string, i: nat)
    requires At(s, p, text) && i < |text|
    ensures p + i < |s| && s[p + i] == text[i]
  {
    assert s[p..p + |text|][i] == s[p + i];
  }

  /** A run of class characters that stands at `p`, followed by a character
      outside the class, is the span `SpanEnd` finds. */
  lemma ReadSpan(s: string, p: nat, w: string, cls: CharClass, rest: string)
    requires At(s, p, w + rest) && forall i :: 0 <= i < |w| ==> InClass(w[i], cls)
    requires |rest| > 0 && !InClass(rest[0], cls)
    ensures SpanEnd(s, p, cls) == p + |w| && At(s, p + |w|, rest)
  {
    AtSplit(s, p, w, rest);
    AtFirst(s, p + |w|, rest);
    forall i | p <= i < p + |w| ensures InClass(s[i], cls) {
      assert s[i] == s[p..p + |w|][i - p] == w[i - p];
    }
    SpanEndIs(s, p, p + |w|, cls);
  }

  predicate AllWhitespace(ws: string) {
    forall i :: 0 <= i < |ws| ==> InClass(ws[i], Whitespace)
  }

  /** A text a tilde string reads back exactly: no `~`, and no leading
      whitespace for the skip before the string to swallow. */
  predicate TildeText(text: string) {
    '~' !in text && (|text| > 0 ==> !InClass(text[0], Whitespace))
  }

  /*  The reading lemmas below take the text that stands at `p` nested to the
      right (`ws + (w + rest)`), so that the text left over by one reading is
      literally the text the next one starts from; `e` names the position
      where the token read ends. */

  /** Whitespace written before a text that does not start with whitespace
      is exactly what is skipped. */
  lemma SkipReads(s: string, p: nat, ws: string, rest: string)
    requires At(s, p, ws + rest) && AllWhitespace(ws)
    requires |rest| > 0 && !InClass(rest[0], Whitespace)
    ensures Skip(s, p) == p + |ws| && At(s, p + |ws|, rest)
  {
    AtSplit(s, p, ws, rest);
    AtFirst(s, p + |ws|, rest);
    forall i | p <= i < p + |ws| ensures InClass(s[i], Whitespace) {
      AtChar(s, p, ws, i - p);
    }
    SpanEndIs(s, p, p + |ws|, Whitespace);
  }

  /** Nothing is skipped before a text that does not start with
      whitespace. */
  lemma NoSkip(s: string, p: nat, text: string)
    requires At(s, p, text) && |text| > 0 && !InClass(text[0], Whitespace)
    ensures Skip(s, p) == p
  {
    AtFirst(s, p, text);
    SpanEndIs(s, p, p, Whitespace);
  }

  /** A text on the line after `p`: the newline is skipped and the text's
      first character is the one looked at. */
  lemma AfterNewline(s: string, p: nat, text: string)
    requires At(s, p, "\n" + text) && |text| > 0 && !InClass(text[0], Whitespace)
    ensures Skip(s, p) == p + 1 && p + 1 < |s| && s[p + 1] == text[0] && At(s, p + 1, text)
  {
    assert AllWhitespace("\n");
    SkipReads(s, p, "\n", text);
    AtFirst(s, p + 1, text);
  }

  /** Reading a literal written after some whitespace. */
  lemma ReadLit(s: string, p: nat, ws: string, lit: string, rest: string, e: nat)
    requires At(s, p, ws + (lit + rest)) && AllWhitespace(ws)
    requires |lit| > 0 && !InClass(lit[0], Whitespace) && e == p + |ws| + |lit|
    ensures Lit(s, p, lit) == Ok((), e) && At(s, e, rest)
  {
    SkipReads(s, p, ws, lit + rest);
    AtSplit(s, p + |ws|, lit, rest);
  }

  /** Reading a word written after some whitespace and followed by a
      character outside its class. */
  lemma ReadWord(s: string, p: nat, ws: string, w: string, cls: CharClass, rest: string, e: nat)
    requires At(s, p, ws + (w + rest)) && AllWhitespace(ws) && IsWord(w, cls)
    requires |rest| > 0 && !InClass(rest[0], cls) && e == p + |ws| + |w|
    ensures WordOf(s, p, cls) == Ok(w, e) && At(s, e, rest)
  {
    AtSplit(s, p, ws, w + rest);
    AtSplit(s, p + |ws|, w, rest);
    AtFirst(s, e, rest);
    forall i | p <= i < p + |ws| ensures InClass(s[i], Whitespace) {
      AtChar(s, p, ws, i - p);
    }
    WordReadsBack(s, p, p + |ws|, w, cls);
  }

  /** Reading a tilde string written after some whitespace. */
  lemma ReadTilde(s: string, p: nat, ws: string, text: string, rest: string, e: nat)
    requires At(s, p, ws + (text + ("~" + rest))) && AllWhitespace(ws) && TildeText(text)
    requires e == p + |ws| + |text| + 1
    ensures TildeString(s, p) == Ok(text, e) && At(s, e, rest)
  {
    var t := p + |ws|;
    assert At(s, t, text) && At(s, e, rest) && s[t + |text|] == '~' by {
      AtSplit(s, p, ws, text + ("~" + rest));
      AtSplit(s, t, text, "~" + rest);
      AtSplit(s, t + |text|, "~", rest);
      AtFirst(s, t + |text|, "~");
    }
    forall i | p <= i < t ensures InClass(s[i], Whitespace) {
      AtSplit(s, p, ws, text + ("~" + rest));
      AtChar(s, p, ws, i - p);
    }
    TildeStringReadsBack(s, p, t, text);
  }

  /** The rest of a line is dropped up to its newline. */
  lemma ReadLineEnd(s: string, p: nat, junk: string, rest: string, e: nat)
    requires At(s, p, junk + ("\n" + rest)) && '\n' !in junk && e == p + |junk|
    ensures LineEnd(s, p) == e && At(s, e, "\n" + rest)
  {
    AtSplit(s, p, junk, "\n" + rest);
    AtFirst(s, e, "\n" + rest);
    forall i | p <= i < e ensures InClass(s[i], NotNewline) {
      AtChar(s, p, junk, i - p);
    }
    SpanEndIs(s, p, e, NotNewline);
  }

  /** At a newline, no rest of the line is left to drop. */
  lemma LineEndAtNewline(s: string, p: nat)
    requires p < |s| && s[p] == '\n'
    ensures LineEnd(s, p) == p
  {
    SpanEndIs(s, p, p, NotNewline);
  }

  /** `n` tilde strings, each followed by the rest of its line. */
  function TextLines(s: string, p: nat, n: nat): (r: Res<seq<string>>)
    requires p <= |s|
    ensures r.Ok? ==> p <= r.next <= |s| && |r.value| == n
    ensures r.Ok? && n > 0 ==> p < r.next
    ensures r.Ok? ==> forall i :: 0 <= i < n ==> '~' !in r.value[i]
    decreases n
  {
    if n == 0 then Ok([], p)
    else
      match TildeString(s, p)
      case Fail => Fail
      case Ok(first, q) =>
        match TextLines(s, LineEnd(s, q), n - 1)
        case Fail => Fail
        case Ok(rest, e) => Ok([first] + rest, e)
  }

  /** A tilde string read from `p` stands there as `TextAt` describes it. */
  lemma TildeStringAt(s: string, p: nat)
    requires p <= |s| && TildeString(s, p).Ok?
    ensures TextAt(s, p, TildeString(s, p).value) == Some(LineEnd(s, TildeString(s, p).next))
  {
    var r := TildeString(s, p);
    var k := Skip(s, p);
    var e := k + |r.value|;
    assert r.next == e + 1;
    assert e < |s| && s[k..e] == r.value && s[e] == '~';
  }

  lemma TextLinesStep(s: string, p: nat, n: nat) returns (q: nat, m: nat)
    requires p <= |s| && n > 0 && TextLines(s, p, n).Ok?
    ensures TildeString(s, p).Ok? && q == LineEnd(s, TildeString(s, p).next) && m == n - 1
    ensures q <= |s| && TextLines(s, q, m).Ok?
    ensures TextLines(s, p, n).value == [TildeString(s, p).value] + TextLines(s, q, m).value
    ensures TextLines(s, p, n).next == TextLines(s, q, m).next
  {
    var first := TildeString(s, p);
    assert first.Ok?;
    q := LineEnd(s, first.next);
    m := n - 1;
    var rest := TextLines(s, q, m);
    assert rest.Ok?;
    assert TextLines(s, p, n) == Ok([first.value] + rest.value, rest.next);
  }

  /** The strings `TextLines` yields stand in the input where it read them. */
  lemma {:induction false} TextLinesSpellTexts(s: string, p: nat, n: nat)
    requires p <= |s| && TextLines(s, p, n).Ok?
    ensures TextsAt(s, p, TextLines(s, p, n).value) == Some(TextLines(s, p, n).next)
    decreases n
  {
    if n > 0 {
      var q, m := TextLinesStep(s, p, n);
      var first := TildeString(s, p);
      var rest := TextLines(s, q, m);
      TextLinesSpellTexts(s, q, m);
      TildeStringAt(s, p);
      TextsAtCons(s, p, first.value, rest.value);
    }
  }

  /** Tilde strings written one to a line: each after a newline and closed
      by `~`. */
  function TildeLines(texts: seq<string>): string {
    if texts == [] then "" else "\n" + (texts[0] + ("~" + TildeLines(texts[1..])))
  }

  predicate AllTildeText(texts: seq<string>) {
    forall i :: 0 <= i < |texts| ==> TildeText(texts[i])
  }

  /** Reading back tilde strings written one to a line, the last line
      ended: exactly those texts are read, up to that last newline. */
  lemma {:induction false} TextLinesReadBack(s: string, p: nat, texts: seq<string>, rest: string, e: nat)
    requires AllTildeText(texts) && At(s, p, TildeLines(texts) + ("\n" + rest)) && e == p + |TildeLines(texts)|
    ensures TextLines(s, p, |texts|) == Ok(texts, e)
    ensures At(s, e, "\n" + rest)
    decreases |texts|
  {
    if texts == [] {
      assert TildeLines(texts) == "";
    } else {
      var q := TildeLineFirst(s, p, texts, rest);
      TextLinesReadBack(s, q, texts[1..], rest, e);
      TextLinesCons(s, p, texts[0], q, texts[1..], e);
      assert [texts[0]] + texts[1..] == texts;
    }
  }

  /** The first of the tilde lines, read up to the newline before the
      next. */
  lemma TildeLineFirst(s: string, p: nat, texts: seq<string>, rest: string) returns (e: nat)
    requires texts != [] && AllTildeText(texts) && At(s, p, TildeLines(texts) + ("\n" + rest))
    ensures e <= |s| && TildeString(s, p) == Ok(texts[0], e) && LineEnd(s, e) == e
    ensures AllTildeText(texts[1..]) && At(s, e, TildeLines(texts[1..]) + ("\n" + rest))
    ensures p + |TildeLines(texts)| == e + |TildeLines(texts[1..])|
  {
    e := p + 2 + |texts[0]|;
    TildeLinesCons(texts, rest);
    TildeLinesStart(texts[1..], rest);
    TildeLineRead(s, p, texts[0], TildeLines(texts[1..]) + ("\n" + rest), e);
  }

  lemma TildeLinesCons(texts: seq<string>, rest: string)
    requires texts != [] && AllTildeText(texts)
    ensures TildeLines(texts) + ("\n" + rest)
         == "\n" + (texts[0] + ("~" + (TildeLines(texts[1..]) + ("\n" + rest))))
    ensures |TildeLines(texts)| == 2 + |texts[0]| + |TildeLines(texts[1..])|
    ensures TildeText(texts[0]) && AllTildeText(texts[1..])
    ensures [texts[0]] + texts[1..] == texts
  {
    assert TildeText(texts[0]);
    forall i | 0 <= i < |texts[1..]| ensures TildeText(texts[1..][i]) {
      assert texts[1..][i] == texts[i + 1];
    }
  }

  /** One tilde string on its line, the line ended right after the `~`. */
  lemma TildeLineRead(s: string, p: nat, t: string, tail: string, e: nat)
    requires TildeText(t) && At(s, p, "\n" + (t + ("~" + tail))) && e == p + 2 + |t|
    requires |tail| > 0 && tail[0] == '\n'
    ensures TildeString(s, p) == Ok(t, e) && LineEnd(s, e) == e && At(s, e, tail)
  {
    assert AllWhitespace("\n");
    ReadTilde(s, p, "\n", t, tail, e);
    AtFirst(s, e, tail);
    LineEndAtNewline(s, e);
  }

  lemma TextLinesCons(s: string, p: nat, t: string, e: nat, more: seq<string>, f: nat)
    requires p <= |s| && e <= |s|
    requires TildeString(s, p) == Ok(t, e) && LineEnd(s, e) == e && TextLines(s, e, |more|) == Ok(more, f)
    ensures TextLines(s, p, |more| + 1) == Ok([t] + more, f)
  {
  }

  lemma TildeLinesStart(texts: seq<string>, rest: string)
    ensures |TildeLines(texts) + ("\n" + rest)| > 0 && (TildeLines(texts) + ("\n" + rest))[0] == '\n'
  {
  }

  /** A row that starts at a whitespace character reads as the row that
      starts after it. */
  lemma RowAfterWhitespace(s: string, q: nat, classes: seq<CharClass>)
    requires q < |s| && InClass(s[q], Whitespace) && classes != []
    ensures Row(s, q, classes) == Row(s, q + 1, classes)
  {
    assert Skip(s, q) == Skip(s, q + 1);
  }

  /** Reading back a row written on the next line from its first column
      on, the line ended: exactly its columns are read, up to the newline. */
  lemma RowLine(s: string, q: nat, words: seq<string>, classes: seq<CharClass>, rest: string, e: nat)
    requires words != [] && AllFit(words, classes)
    requires At(s, q, "\n" + (Columns(words) + ("\n" + rest))) && e == q + 1 + |Columns(words)|
    ensures Row(s, q, classes) == Ok(words, e) && At(s, e, "\n" + rest)
  {
    AtParts(s, q, "\n", Columns(words) + ("\n" + rest), q + 1);
    AtFirst(s, q, "\n" + (Columns(words) + ("\n" + rest)));
    assert Columns(words) + ("\n" + rest) == (Columns(words) + ("" + "\n")) + rest;
    AtSplit(s, q + 1, Columns(words) + ("" + "\n"), rest);
    ColumnsReadBack(s, q + 1, words, classes, "");
    AtParts(s, q + 1, Columns(words), "\n" + rest, e);
    RowAfterWhitespace(s, q, classes);
  }

  /** Reading back a record header written after some whitespace: `#` and
      the number, the line ended right after the number. */
  lemma VnumReads(s: string, p: nat, ws: string, vnum: string, rest: string, e: nat)
    requires AllWhitespace(ws) && IsWord(vnum, Nums) && |rest| > 0 && rest[0] == '\n'
    requires At(s, p, ws + ("#" + (vnum + rest))) && e == p + |ws| + 1 + |vnum|
    ensures Vnum(s, p) == Ok(vnum, e) && At(s, e, rest)
  {
    var q := p + |ws| + 1;
    assert Lit(s, p, "#") == Ok((), q) && At(s, q, vnum + rest) by {
      ReadLit(s, p, ws, "#", vnum + rest, q);
    }
    assert WordOf(s, q, Nums) == Ok(vnum, e) && At(s, e, rest) by {
      assert AllWhitespace("");
      assert "" + (vnum + rest) == vnum + rest;
      ReadWord(s, q, "", vnum, Nums, rest, e);
    }
    assert LineEnd(s, e) == e by {
      AtFirst(s, e, rest);
      LineEndAtNewline(s, e);
    }
    VnumStep(s, p, q, vnum, e);
  }

  /** Reading back the head of a record: `#` and its number after some
      whitespace, then tilde strings one to a line, the last line ended. */
  lemma RecordHeadReads(s: string, p: nat, ws: string, vnum: string, texts: seq<string>,
                         tail: string) returns (e0: nat, e1: nat)
    requires AllWhitespace(ws) && IsWord(vnum, Nums) && texts != [] && AllTildeText(texts)
    requires At(s, p, ws + ("#" + (vnum + (TildeLines(texts) + ("\n" + tail)))))
    ensures e0 <= |s| && e1 <= |s| && Vnum(s, p) == Ok(vnum, e0) && TextLines(s, e0, |texts|) == Ok(texts, e1)
    ensures At(s, e1, "\n" + tail) && e1 == p + |ws| + 1 + |vnum| + |TildeLines(texts)|
  {
    e0 := p + |ws| + 1 + |vnum|;
    e1 := e0 + |TildeLines(texts)|;
    assert Vnum(s, p) == Ok(vnum, e0) && At(s, e0, TildeLines(texts) + ("\n" + tail)) by {
      TildeLinesStart(texts, tail);
      VnumReads(s, p, ws, vnum, TildeLines(texts) + ("\n" + tail), e0);
    }
    TextLinesReadBack(s, e0, texts, tail, e1);
  }

  lemma VnumStep(s: string, p: nat, q: nat, vnum: string, e: nat)
    requires p <= |s| && q <= e <= |s|
    requires Lit(s, p, "#") == Ok((), q) && WordOf(s, q, Nums) == Ok(vnum, e) && LineEnd(s, e) == e
    ensures Vnum(s, p) == Ok(vnum, e)
  {
  }

  /** `n` spaces. */
  function Spaces(n: nat): (r: string)
    ensures |r| == n && forall i :: 0 <= i < n ==> r[i] == ' '
  {
    seq(n, _ => ' ')
  }

  /** Tab expansion applied to the whole input before parsing: each tab
      becomes the spaces up to the next multiple of 8 columns; newline and
      carriage return reset the column. `col` is the current column. */
  function ExpandFrom(s: string, col: nat): string
    decreases |s|
  {
    if s == [] then []
    else if s[0] == '\t' then
      var n := 8 - col % 8;
      Spaces(n) + ExpandFrom(s[1..], col + n)
    else if s[0] == '\n' || s[0] == '\r' then
      [s[0]] + ExpandFrom(s[1..], 0)
    else
      [s[0]] + ExpandFrom(s[1..], col + 1)
  }

  function ExpandTabs(s: string): (r: string)
    ensures forall i :: 0 <= i < |r| ==> r[i] != '\t'
    ensures '\t' !in s ==> r == s
  {
    ExpandLeavesNoTab(s, 0);
    ExpandWithoutTabs(s, 0);
    ExpandFrom(s, 0)
  }

  /** No tab is left after expansion. */
  lemma {:induction false} ExpandLeavesNoTab(s: string, col: nat)
    ensures '\t' !in ExpandFrom(s, col)
    decreases |s|
  {
    if s != [] && s[0] == '\t' {
      var n := 8 - col % 8;
      ExpandTabCons(s[1..], col);
      assert s == ['\t'] + s[1..];
      ExpandLeavesNoTab(s[1..], col + n);
      assert '\t' !in Spaces(n);
    } else if s != [] {
      var c := if s[0] == '\n' || s[0] == '\r' then 0 else col + 1;
      assert ExpandFrom(s, col) == [s[0]] + ExpandFrom(s[1..], c);
      ExpandLeavesNoTab(s[1..], c);
    }
  }

  /** A text without tabs is left as it is. */
  lemma {:induction false} ExpandWithoutTabs(s: string, col: nat)
    ensures '\t' !in s ==> ExpandFrom(s, col) == s
    decreases |s|
  {
    if s != [] && '\t' !in s {
      var c := if s[0] == '\n' || s[0] == '\r' then 0 else col + 1;
      assert s[0] in s && s[1..] == s[1..];
      assert '\t' !in s[1..] by {
        forall i | 0 <= i < |s[1..]| ensures s[1..][i] == s[i + 1] { }
      }
      ExpandWithoutTabs(s[1..], c);
      assert ExpandFrom(s, col) == [s[0]] + s[1..];
    }
  }

  /** The text with its spaces and tabs left out. */
  function Unblank(s: string): (r: string)
    ensures |r| <= |s|
  {
    if s == [] then [] else (if s[0] == ' ' || s[0] == '\t' then [] else [s[0]]) + Unblank(s[1..])
  }

  lemma {:induction false} UnblankAppend(a: string, b: string)
    ensures Unblank(a + b) == Unblank(a) + Unblank(b)
  {
    if a != [] {
      assert a + b == [a[0]] + (a[1..] + b);
      assert a == [a[0]] + a[1..];
      UnblankCons(a[0], a[1..] + b);
      UnblankCons(a[0], a[1..]);
      UnblankAppend(a[1..], b);
    } else {
      assert a + b == b;
    }
  }


  lemma UnblankCons(c: char, r: string)
    ensures Unblank([c] + r) == (if c == ' ' || c == '\t' then [] else [c]) + Unblank(r)
  {
    assert ([c] + r)[1..] == r;
  }

  lemma {:induction false} UnblankSpaces(n: nat)
    ensures Unblank(Spaces(n)) == []
  {
    if n > 0 {
      assert Spaces(n)[1..] == Spaces(n - 1);
      UnblankSpaces(n - 1);
    }
  }

  /** Tab expansion changes nothing but blanks: every other character is
      kept, in order. */
  lemma {:induction false} ExpandKeepsText(s: string, col: nat)
    ensures Unblank(ExpandFrom(s, col)) == Unblank(s)
    decreases |s|
  {
    if s != [] && s[0] == '\t' {
      var n := 8 - col % 8;
      var rest := ExpandFrom(s[1..], col + n);
      assert ExpandFrom(s, col) == Spaces(n) + rest;
      assert Unblank(s) == Unblank(s[1..]);
      UnblankAppend(Spaces(n), rest);
      UnblankSpaces(n);
      ExpandKeepsText(s[1..], col + n);
    } else if s != [] {
      var c := if s[0] == '\n' || s[0] == '\r' then 0 else col + 1;
      var rest := ExpandFrom(s[1..], c);
      assert ExpandFrom(s, col) == [s[0]] + rest;
      assert s == [s[0]] + s[1..];
      UnblankCons(s[0], s[1..]);
      UnblankCons(s[0], rest);
      ExpandKeepsText(s[1..], c);
    }
  }

  /** Characters that leave the column counting on: neither tab, newline nor
      carriage return. */
  predicate InLine(t: string) {
    forall i :: 0 <= i < |t| ==> t[i] != '\t' && t[i] != '\n' && t[i] != '\r'
  }

  /** A tab after `t`, on a line where `t` starts at column `col`, becomes
      one to eight spaces, up to the next column that is a multiple of 8;
      `t` itself is kept. */
  lemma {:induction false} ExpandToTabStop(t: string, u: string, col: nat)
    requires InLine(t)
    ensures 1 <= TabGap(col + |t|) <= 8 && (col + |t| + TabGap(col + |t|)) % 8 == 0
    ensures ExpandFrom(t + ("\t" + u), col) == t + (Spaces(TabGap(col + |t|)) + ExpandFrom(u, col + |t| + TabGap(col + |t|)))
  {
    TabWidth(col + |t|);
    ExpandBeforeTab(t, u, col);
  }

  /** The number of spaces a tab at column `c` becomes. */
  function TabGap(c: nat): nat {
    8 - c % 8
  }

  /** The spaces a tab at column `c` becomes reach the next tab stop. */
  lemma TabWidth(c: nat)
    ensures 1 <= TabGap(c) <= 8 && (c + TabGap(c)) % 8 == 0
  {
  }

  lemma {:induction false} ExpandBeforeTab(t: string, u: string, col: nat)
    requires InLine(t)
    ensures ExpandFrom(t + ("\t" + u), col) == t + (Spaces(TabGap(col + |t|)) + ExpandFrom(u, col + |t| + TabGap(col + |t|)))
    decreases |t|
  {
    if t == [] {
      ExpandAtTab(t, u, col);
    } else {
      InLineTail(t);
      ExpandBeforeTab(t[1..], u, col + 1);
      var n := TabGap(col + |t|);
      ExpandBeforeTabStep(t, u, col, Spaces(n) + ExpandFrom(u, col + |t| + n));
    }
  }

  lemma InLineTail(t: string)
    requires t != [] && InLine(t)
    ensures t[0] != '\t' && t[0] != '\n' && t[0] != '\r' && InLine(t[1..])
  {
    forall i | 0 <= i < |t[1..]| ensures t[1..][i] == t[i + 1] { }
  }

  /** A tab at column `col` becomes the spaces up to the next tab stop. */
  lemma ExpandAtTab(t: string, u: string, col: nat)
    requires t == []
    ensures ExpandFrom(t + ("\t" + u), col) == t + (Spaces(TabGap(col + |t|)) + ExpandFrom(u, col + |t| + TabGap(col + |t|)))
  {
    var n := TabGap(col);
    var expanded := Spaces(n) + ExpandFrom(u, col + n);
    assert ExpandFrom(t + ("\t" + u), col) == expanded by {
      assert t + ("\t" + u) == ['\t'] + u;
      ExpandTabCons(u, col);
    }
    assert col + |t| == col && t + expanded == expanded;
  }

  /** The inductive step of `ExpandBeforeTab`: the first character of `t`
      is copied, and the column moves on by one. */
  lemma ExpandBeforeTabStep(t: string, u: string, col: nat, tail: string)
    requires t != [] && t[0] != '\t' && t[0] != '\n' && t[0] != '\r'
    requires ExpandFrom(t[1..] + ("\t" + u), col + 1) == t[1..] + tail
    ensures ExpandFrom(t + ("\t" + u), col) == t + tail
  {
    assert t + ("\t" + u) == [t[0]] + (t[1..] + ("\t" + u));
    ExpandRegularCons(t[0], t[1..] + ("\t" + u), col);
    assert [t[0]] + (t[1..] + tail) == ([t[0]] + t[1..]) + tail;
    assert [t[0]] + t[1..] == t;
  }


  lemma ExpandTabCons(r: string, col: nat)
    ensures ExpandFrom(['\t'] + r, col) == Spaces(8 - col % 8) + ExpandFrom(r, col + (8 - col % 8))
  {
    assert (['\t'] + r)[1..] == r;
  }

  lemma ExpandRegularCons(c: char, r: string, col: nat)
    requires c != '\t' && c != '\n' && c != '\r'
    ensures ExpandFrom([c] + r, col) == [c] + ExpandFrom(r, col + 1)
  {
    assert ([c] + r)[1..] == r;
  }



  /** The item parser of a repetition is callable everywhere in the input and
      consumes at least one character whenever it succeeds. */
  ghost predicate Progressive<T>(s: string, item: (string, nat) --> Res<T>)
  {
    forall q: nat :: q <= |s| ==> item.requires(s, q) && (item(s, q).Ok? ==> q < item(s, q).next <= |s|)
  }

  /** `ZeroOrMore(item)`: apply `item` as long as it succeeds, concatenating
      what it yields (a suppressed alternative yields nothing); stop, without
      consuming anything, at the first position where it fails. */
  function Many<T>(s: string, p: nat, item: (string, nat) --> Res<seq<T>>): (r: Parsed<seq<T>>)
    requires p <= |s| && Progressive(s, item)
    ensures p <= r.next <= |s|
    ensures item(s, r.next).Fail?
    decreases |s| - p
  {
    match item(s, p)
    case Fail => Parsed([], p)
    case Ok(v, q) =>
      var rest := Many(s, q, item);
      Parsed(v + rest.value, rest.next)
  }

  /** A delimited run whose first item cannot be read is empty: the
      opening literal, then the closing one. */
  lemma DelimitedEmpty<T>(s: string, p: nat, open: string, item: (string, nat) --> Res<seq<T>>, close: string, t: nat, u: nat)
    requires p <= |s| && |open| > 0 && |close| > 0 && Progressive(s, item)
    requires t == Skip(s, p) + |open| && t <= |s| && s[Skip(s, p)..t] == open && item(s, t).Fail?
    requires u == Skip(s, t) && u + |close| <= |s| && s[u..u + |close|] == close
    ensures Delimited(s, p, open, item, close) == Ok([], u + |close|)
  {
    assert Lit(s, p, open) == Ok((), t);
    assert Many(s, t, item) == Parsed([], t);
  }

  /** A delimited run at the start of the input holding one item: the
      opening literal, the item, and the closing literal on the line after
      it, ending the input. */
  lemma DelimitedSingle<T>(s: string, open: string, item: (string, nat) --> Res<seq<T>>, close: string, v: seq<T>, e: nat)
    requires Progressive(s, item) && |open| > 0 && !InClass(open[0], Whitespace) && At(s, 0, open)
    requires |open| <= e <= |s| && item(s, |open|) == Ok(v, e) && item(s, e).Fail?
    requires |close| > 0 && !InClass(close[0], Whitespace) && At(s, e, "\n" + close) && e + 1 + |close| == |s|
    ensures Delimited(s, 0, open, item, close) == Ok(v, |s|)
  {
    assert AllWhitespace("") && AllWhitespace("\n");
    assert open == "" + (open + "");
    ReadLit(s, 0, "", open, "", |open|);
    assert "\n" + close == "\n" + (close + "");
    ReadLit(s, e, "\n", close, "", |s|);
    ManyOnce(s, |open|, item, v, e);
  }

  /** The same, for a run closed by `#0`. */
  lemma DelimitedSingleZero<T>(s: string, open: string, item: (string, nat) --> Res<seq<T>>, close: string, v: seq<T>, e: nat)
    requires Progressive(s, item) && |open| > 0 && !InClass(open[0], Whitespace) && At(s, 0, open)
    requires |open| <= e <= |s| && item(s, |open|) == Ok(v, e) && item(s, e).Fail?
    requires |close| == 2 && close[0] == '#' && close[1] == '0' && At(s, e, "\n" + close) && e + 3 == |s|
    ensures Delimited(s, 0, open, item, "#0") == Ok(v, |s|)
  {
    assert close == "#0";
    DelimitedSingle(s, open, item, close, v, e);
  }

  /** One alternative of a `MatchFirst`: a parser defined on every input and
      position. */
  type Alternative<T> = (string, nat) -> Res<T>

  /** `MatchFirst(alts)`, from the `i`-th alternative on: the first that
      succeeds is taken; it fails only when every one of them fails. */
  function FirstOf<T>(alts: seq<Alternative<T>>, s: string, p: nat, i: nat): (r: Res<T>)
    requires i <= |alts|
    ensures r.Fail? <==> forall j :: i <= j < |alts| ==> alts[j](s, p).Fail?
    ensures r.Ok? ==> exists j :: i <= j < |alts| && alts[j](s, p) == r
    decreases |alts| - i
  {
    if i == |alts| then Fail
    else if alts[i](s, p).Ok? then alts[i](s, p)
    else FirstOf(alts, s, p, i + 1)
  }

  /** What `FirstOf` yields is what the first alternative that succeeds
      yields. */
  lemma {:induction false} FirstOfIsFirstMatch<T>(alts: seq<Alternative<T>>, s: string, p: nat, i: nat)
    requires i <= |alts| && FirstOf(alts, s, p, i).Ok?
    ensures exists j :: i <= j < |alts| && alts[j](s, p) == FirstOf(alts, s, p, i) &&
              forall k :: i <= k < j ==> alts[k](s, p).Fail?
    decreases |alts| - i
  {
    if alts[i](s, p).Ok? {
      assert alts[i](s, p) == FirstOf(alts, s, p, i);
    } else {
      FirstOfIsFirstMatch(alts, s, p, i + 1);
      var j :| i + 1 <= j < |alts| && alts[j](s, p) == FirstOf(alts, s, p, i + 1) &&
               forall k :: i + 1 <= k < j ==> alts[k](s, p).Fail?;
      assert alts[j](s, p) == FirstOf(alts, s, p, i);
    }
  }

  /** A repetition that reads one item and then stops. */
  lemma ManyOnce<T>(s: string, p: nat, item: (string, nat) --> Res<seq<T>>, v: seq<T>, q: nat)
    requires p <= |s| && Progressive(s, item)
    requires item(s, p) == Ok(v, q) && item(s, q).Fail?
    ensures Many(s, p, item) == Parsed(v, q)
  {
    assert Many(s, q, item) == Parsed([], q);
    assert v + [] == v;
  }

  /** One item read, then the rest of the repetition. */
  lemma ManyStep<T>(s: string, p: nat, item: (string, nat) --> Res<seq<T>>, v: seq<T>, q: nat, w: seq<T>, e: nat)
    requires p <= |s| && Progressive(s, item)
    requires item(s, p) == Ok(v, q) && q <= |s| && Many(s, q, item) == Parsed(w, e)
    ensures Many(s, p, item) == Parsed(v + w, e)
  {
  }

  /** `ManyStep` for an item that yields one element. */
  lemma ManyFirst<T>(s: string, p: nat, item: (string, nat) --> Res<seq<T>>, xs: seq<T>, q: nat, e: nat)
    requires p <= |s| && Progressive(s, item) && xs != []
    requires item(s, p) == Ok([xs[0]], q) && q <= |s| && Many(s, q, item) == Parsed(xs[1..], e)
    ensures Many(s, p, item) == Parsed(xs, e)
  {
    ManyStep(s, p, item, [xs[0]], q, xs[1..], e);
    assert [xs[0]] + xs[1..] == xs;
  }

  /** A repetition whose first item cannot be read is empty. */
  lemma ManyNone<T>(s: string, p: nat, item: (string, nat) --> Res<seq<T>>)
    requires p <= |s| && Progressive(s, item) && item(s, p).Fail?
    ensures Many(s, p, item) == Parsed([], p)
  {
  }

  /** A step of the repetition that yields nothing (a suppressed comment)
      contributes no element: the repetition from before it and from after
      it give the same result. */
  lemma ManySkipsEmpty<T>(s: string, p: nat, q: nat, item: (string, nat) --> Res<seq<T>>)
    requires p <= |s| && Progressive(s, item)
    requires item(s, p) == Ok([], q)
    ensures Many(s, p, item) == Many(s, q, item)
  {
    var rest := Many(s, q, item);
    assert [] + rest.value == rest.value;
  }

  /** What holds of every element that one step yields holds of every
      element of the repetition. */
  lemma {:induction false} ManyAll<T>(s: string, p: nat, item: (string, nat) --> Res<seq<T>>, P: T -> bool)
    requires p <= |s| && Progressive(s, item)
    requires forall q: nat :: q <= |s| && item(s, q).Ok? ==> forall i :: 0 <= i < |item(s, q).value| ==> P(item(s, q).value[i])
    ensures forall i :: 0 <= i < |Many(s, p, item).value| ==> P(Many(s, p, item).value[i])
    decreases |s| - p
  {
    match item(s, p)
    case Fail =>
    case Ok(v, q) =>
      ManyAll(s, q, item, P);
      var rest := Many(s, q, item);
      assert Many(s, p, item).value == v + rest.value;
  }

  /** `open`, any number of items, `close`: the shape of every list section
      that has a closing token. */
  function Delimited<T>(s: string, p: nat, open: string, item: (string, nat) --> Res<seq<T>>, close: string): (r: Res<seq<T>>)
    requires p <= |s| && |open| > 0 && |close| > 0 && Progressive(s, item)
    ensures r.Ok? ==> Lit(s, p, open).Ok?
    ensures r.Ok? ==> p < r.next <= |s| && |close| <= r.next && s[r.next - |close| .. r.next] == close
    ensures r.Ok? ==> s[r.next - 1] == close[|close| - 1]
    ensures r.Ok? ==> r.value == Many(s, Lit(s, p, open).next, item).value
  {
    var tag :- Lit(s, p, open);
    var items := Many(s, tag.next, item);
    var end :- Lit(s, items.next, close);
    Ok(items.value, end.next)
  }

  /** The two characters before `n` are the closing `#0` of a record
      section. */
  predicate ClosedByZero(s: string, n: nat) {
    2 <= n <= |s| && s[n - 2] == '#' && s[n - 1] == '0'
  }

  /** A section closed by `#0` ends with those two characters. */
  lemma ZeroClosed<T>(s: string, p: nat, open: string, item: (string, nat) --> Res<seq<T>>, r: Res<seq<T>>)
    requires p <= |s| && |open| > 0 && Progressive(s, item) && r == Delimited(s, p, open, item, "#0")
    ensures r.Ok? ==> ClosedByZero(s, r.next)
  {
    if r.Ok? {
      assert s[r.next - 2 .. r.next] == "#0";
      assert s[r.next - 2] == s[r.next - 2 .. r.next][0];
    }
  }
}
