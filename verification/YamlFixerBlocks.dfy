/** Block scalars and the YAML value quoter: which headers it recognises, exactly when a block scalar
    comes out as it went in, and lines that do not. */
module YamlFixerBlocks {
  import opened PyText
  import opened SeqLaws
  import opened Wrappers
  import opened YamlFixer
  import opened YamlFixerLaws
  import opened YamlFixerScope

  // ----- when a line is kept ---------------------------------------------------------------

  /** A key line is kept when it has no value, or a value that needs nothing. */
  predicate KeyLineKept(k: KeyLine, cs: Classes) {
    ValueOf(k.rest).None? || (ValueOf(k.rest).value != [] && NeedsNothing(ValueOf(k.rest).value, cs.digit))
  }

  lemma KeyLineKeptWhen(line: string, k: KeyLine, cs: Classes)
    requires WordClass(cs.word) && ParseKey(RStrip(line), cs.word) == Some(k)
    ensures FixKeyLine(line, k, cs) == line <==> KeyLineKept(k, cs)
  {
    if ValueOf(k.rest).Some? {
      ValueParts(line, k, cs);
      if FixKeyLine(line, k, cs) == line {
        KeptMeansNothing(line, k, cs);
      }
    }
  }

  predicate LineKept(st: Scan, line: string, cs: Classes) {
    StaysInBlock(st, line) ||
    match KindOf(line, cs.word)
    case Keyed(k) => KeyLineKept(k, cs)
    case _ => true
  }

  lemma LineKeptWhen(st: Scan, line: string, cs: Classes)
    requires WordClass(cs.word)
    ensures StepLine(st, line, cs).1 == line <==> LineKept(st, line, cs)
  {
    if !StaysInBlock(st, line) {
      match KindOf(line, cs.word)
      case Keyed(k) => KeyLineKeptWhen(line, k, cs);
      case _ =>
    }
  }

  /** Every line is kept, in the state that the lines before it lead to. */
  predicate AllKept(lines: seq<string>, st: Scan, cs: Classes) {
    lines != [] ==> LineKept(st, lines[0], cs) && AllKept(lines[1..], StepLine(st, lines[0], cs).0, cs)
  }

  /** Lines come out as they went in exactly when each of them is kept. */
  lemma {:induction false} LinesKeptWhen(lines: seq<string>, st: Scan, cs: Classes)
    requires WordClass(cs.word)
    ensures FixLines(lines, st, cs) == lines <==> AllKept(lines, st, cs)
  {
    if lines != [] {
      var (next, out) := StepLine(st, lines[0], cs);
      LineKeptWhen(st, lines[0], cs);
      LinesKeptWhen(lines[1..], next, cs);
      SameLists(out, lines[0], FixLines(lines[1..], next, cs), lines[1..]);
      HeadTail(lines);
    }
  }

  lemma SameLists<T>(x: T, y: T, a: seq<T>, b: seq<T>)
    ensures [x] + a == [y] + b <==> x == y && a == b
  {
    if [x] + a == [y] + b {
      assert ([x] + a)[0] == ([y] + b)[0];
      assert ([x] + a)[1..] == a && ([y] + b)[1..] == b;
    }
  }

  // ----- headers ---------------------------------------------------------------------------

  /** A line that YAML may read as the header of a block scalar: its value starts with `|` or `>`. */
  predicate BlockValue(k: KeyLine) {
    ValueOf(k.rest).Some? && ValueOf(k.rest).value != []
    && (ValueOf(k.rest).value[0] == '|' || ValueOf(k.rest).value[0] == '>')
  }

  /** Nothing but a comment follows the `|` or `>`: no chomping or indentation indicator. */
  predicate WithoutIndicator(k: KeyLine)
    requires BlockValue(k)
  {
    var more := ValueOf(k.rest).value[1..];
    more == [] || (LStrip(more) != [] && LStrip(more)[0] == '#')
  }

  /** Such a header would not be taken for a number. */
  predicate PlainDigits(digit: char -> bool) {
    !digit('|') && !digit('>')
  }

  lemma BarNotKept(v: string, digit: char -> bool)
    requires v != [] && (v[0] == '|' || v[0] == '>') && PlainDigits(digit)
    ensures !KeptValue(v, digit)
  {
    assert Lower(v)[0] == v[0];
    assert Digits(v, digit) == 0;
  }

  /** A header is recognised exactly when it has no indicator. One that is not is an ordinary key
      line, kept exactly when it has neither an inline comment nor a colon followed by a space;
      otherwise it is itself put in quotes, which destroys the scalar. */
  lemma HeaderWhen(st: Scan, header: string, k: KeyLine, cs: Classes)
    requires WordClass(cs.word) && PlainDigits(cs.digit) && !StaysInBlock(st, header)
    requires ParseKey(RStrip(header), cs.word) == Some(k) && BlockValue(k)
    ensures KindOf(header, cs.word) == Header <==> WithoutIndicator(k)
    ensures !WithoutIndicator(k) ==>
              var v := ValueOf(k.rest).value;
              var (val, comment) := SplitComment(v);
              StepLine(st, header, cs) ==
                (Scan(false, st.blockIndent),
                 if comment == [] && !Contains(v, ": ") then header else Quoted(k.indent, k.key, val, comment))
  {
    KeyLineHead(header, cs.word);
    var v := ValueOf(k.rest).value;
    var (val, comment) := SplitComment(v);
    QuotedLine(header, k, val, comment, cs);
    BarNotKept(v, cs.digit);
    if !WithoutIndicator(k) {
      KindOfKeyed(header, k, cs.word);
    }
  }

  /** The header comes out as it went in. */
  predicate HeaderKept(k: KeyLine)
    requires BlockValue(k)
  {
    var v := ValueOf(k.rest).value;
    WithoutIndicator(k) || (SplitComment(v).1 == [] && !Contains(v, ": "))
  }

  /** Exactly when a block scalar comes out as it went in, header and body: its header has no
      indicator; or its header has neither an inline comment nor a colon followed by a space, and
      every line of the body would be kept outside any block scalar. */
  lemma BlockKeptWhen(header: string, body: seq<string>, st: Scan, k: KeyLine, cs: Classes)
    requires WordClass(cs.word) && PlainDigits(cs.digit) && !StaysInBlock(st, header)
    requires ParseKey(RStrip(header), cs.word) == Some(k) && BlockValue(k)
    requires forall l <- body :: LStrip(l) == [] || |l| - |LStrip(l)| > |header| - |LStrip(header)|
    ensures FixLines([header] + body, st, cs) == [header] + body
       <==> WithoutIndicator(k) || (HeaderKept(k) && AllKept(body, Scan(false, st.blockIndent), cs))
  {
    HeaderWhen(st, header, k, cs);
    if WithoutIndicator(k) {
      BlockScalarKept(header, body, st, cs);
    } else {
      var next := Scan(false, st.blockIndent);
      var out := StepLine(st, header, cs).1;
      ConcatHead([header], body);
      assert ([header] + body)[1..] == body;
      SameLists(out, header, FixLines(body, next, cs), body);
      LinesKeptWhen(body, next, cs);
      QuotedHeaderDiffers(header, k, cs);
    }
  }

  lemma QuotedHeaderDiffers(header: string, k: KeyLine, cs: Classes)
    requires WordClass(cs.word) && ParseKey(RStrip(header), cs.word) == Some(k) && BlockValue(k)
    ensures var (val, comment) := SplitComment(ValueOf(k.rest).value); Quoted(k.indent, k.key, val, comment) != header
  {
    var (val, comment) := SplitComment(ValueOf(k.rest).value);
    QuotedLine(header, k, val, comment, cs);
    QuotedRestStart(val, comment);
  }

  // ----- lines that show it ----------------------------------------------------------------

  /** `key: word # text`, for a word without white space. */
  function Commented(key: string, val: string, text: string): string {
    key + (":" + (" " + (val + (" #" + text)))) + "\n"
  }

  predicate Wordlike(val: string) {
    val != [] && NoSpaces(val) && '#' !in val && '\\' !in val && '"' !in val
  }

  predicate Remark(text: string) {
    text != [] && IsSpace(text[0]) && !IsSpace(text[|text| - 1])
  }

  lemma {:induction false} CommentStartAfter(val: string, tail: string, i: nat)
    requires NoSpaces(val) && i <= |val| && tail != [] && HashAfter(val + tail, |val|)
    ensures CommentStart(val + tail, i) == |val|
    decreases |val| - i
  {
    if i < |val| {
      var v := val + tail;
      assert v[i] == val[i] && val[i] in val;
      assert v[i..][0] == v[i];
      assert !HashAfter(v, i);
      CommentStartAfter(val, tail, i + 1);
    }
  }

  lemma HashHere(val: string, text: string)
    requires Remark(text)
    ensures HashAfter(val + (" #" + text), |val|) && LStrip(" #" + text) == "#" + text
  {
    var tail := " #" + text;
    DropPast(val, tail, |val|);
    assert tail[0..] == tail;
    assert " #" + text == " " + ("#" + text);
    LStripPieces(" ", "#" + text);
  }

  lemma CommentedSplit(val: string, text: string)
    requires Wordlike(val) && Remark(text)
    ensures SplitComment(val + (" #" + text)) == (val, "  " + ("#" + text))
  {
    var tail := " #" + text;
    var v := val + tail;
    HashHere(val, text);
    CommentStartAfter(val, tail, 0);
    DropPast(val, tail, |val|);
    assert v[..|val|] == val && tail[0..] == tail;
    assert val[0] in val && val[|val| - 1] in val;
    StripNothing(val);
    TailEnds(" #", text);
    StripLeft(tail);
  }

  lemma {:induction false} NothingToEscape(v: string)
    requires '\\' !in v && '"' !in v
    ensures Escape(v) == v
  {
    ReplaceOnePass(v);
    if v != [] {
      assert v[0] in v;
      assert forall c <- v[1..] :: c in v;
      NothingToEscape(v[1..]);
      HeadTail(v);
    }
  }

  lemma CommentedParts(key: string, val: string, text: string, word: char -> bool)
    requires WordClass(word) && key != [] && KeyChars(key, word) && !IsSpace(key[0]) && Wordlike(val) && Remark(text)
    ensures var v := val + (" #" + text);
            ParseKey(RStrip(Commented(key, val, text)), word) == Some(KeyLine("", key, " " + v))
            && ValueOf(" " + v) == Some(v) && v[0] == val[0]
  {
    var v := val + (" #" + text);
    TailEnds(" #", text);
    TailEnds(val, " #" + text);
    TailEnds(" ", v);
    BuiltLine("", key, " " + v, word);
    assert "" + (key + (":" + (" " + v))) == key + (":" + (" " + v));
    assert v[0] == val[0] && val[0] in val;
    LStripPieces(" ", v);
  }

  lemma MoreThanBar(val: string, tail: string)
    requires NoSpaces(val) && '#' !in val && |val| > 1
    ensures var more := (val + tail)[1..]; more != [] && LStrip(more) == more && more[0] != '#'
  {
    assert (val + tail)[1..][0] == val[1] && val[1] in val;
  }

  lemma QuotedWord(key: string, val: string, comment: string)
    requires Wordlike(val)
    ensures Quoted("", key, val, comment) == key + ": \"" + val + "\"" + comment + "\n"
  {
    NothingToEscape(val);
    assert "" + key == key;
  }

  /** A header with an indicator and a comment is itself put in quotes: `key: |- # text`. */
  lemma HeaderDestroyed(key: string, val: string, text: string, cs: Classes)
    requires WordClass(cs.word) && PlainDigits(cs.digit) && key != [] && KeyChars(key, cs.word) && !IsSpace(key[0])
    requires Wordlike(val) && Remark(text) && |val| > 1 && (val[0] == '|' || val[0] == '>')
    ensures StepLine(Scan(false, 0), Commented(key, val, text), cs)
         == (Scan(false, 0), Quoted("", key, val, "  " + ("#" + text)))
    ensures Quoted("", key, val, "  " + ("#" + text)) == key + ": \"" + val + "\"" + ("  " + ("#" + text)) + "\n"
  {
    var v := val + (" #" + text);
    var line, k := Commented(key, val, text), KeyLine("", key, " " + v);
    CommentedParts(key, val, text, cs.word);
    CommentedSplit(val, text);
    MoreThanBar(val, " #" + text);
    LStripPieces(" ", v);
    HeaderWhen(Scan(false, 0), line, k, cs);
    QuotedWord(key, val, "  " + ("#" + text));
  }

  /** For instance. */
  lemma HeaderDestroyedHere(cs: Classes)
    requires WordClass(cs.word) && PlainDigits(cs.digit) && cs.word('a')
    ensures StepLine(Scan(false, 0), Commented("a", "|-", " x"), cs)
         == (Scan(false, 0), "a" + ": \"" + "|-" + "\"" + ("  " + ("#" + " x")) + "\n")
  {
    HeaderDestroyed("a", "|-", " x", cs);
  }

  /** A word that is no quoted text, flow collection or block header. */
  predicate PlainStart(c: char) {
    c != '\'' && c != '"' && c != '{' && c != '[' && c != '|' && c != '>'
  }

  lemma PlainNotQuoted(c: char)
    requires PlainStart(c)
    ensures c !in "'\"{["
  {
  }

  lemma PlainNotHeader(rest: string)
    requires LStrip(rest) != [] ==> PlainStart(LStrip(rest)[0])
    ensures !IsBlockHeader(rest)
  {
  }

  lemma WordKeyed(key: string, val: string, text: string, cs: Classes)
    requires WordClass(cs.word) && key != [] && KeyChars(key, cs.word) && !IsSpace(key[0])
    requires Wordlike(val) && Remark(text) && PlainStart(val[0])
    ensures KindOf(Commented(key, val, text), cs.word) == Keyed(KeyLine("", key, " " + (val + (" #" + text))))
  {
    var v := val + (" #" + text);
    CommentedParts(key, val, text, cs.word);
    assert LStrip(" " + v) == v;
    PlainNotHeader(" " + v);
    KindOfKeyed(Commented(key, val, text), KeyLine("", key, " " + v), cs.word);
  }

  /** A keyword or number behind which a comment follows becomes a string. */
  lemma TypedDestroyed(key: string, val: string, text: string, cs: Classes)
    requires WordClass(cs.word) && (forall c :: cs.digit(c) ==> !IsSpace(c))
    requires key != [] && KeyChars(key, cs.word) && !IsSpace(key[0]) && Wordlike(val) && Remark(text)
    requires (IsKeyword(val) || IsNumber(val, cs.digit)) && PlainStart(val[0])
    ensures StepLine(Scan(false, 0), Commented(key, val, text), cs)
         == (Scan(false, 0), Quoted("", key, val, "  " + ("#" + text)))
    ensures Quoted("", key, val, "  " + ("#" + text)) == key + ": \"" + val + "\"" + ("  " + ("#" + text)) + "\n"
  {
    CommentedParts(key, val, text, cs.word);
    CommentedSplit(val, text);
    WordKeyed(key, val, text, cs);
    PlainNotQuoted(val[0]);
    TypedValueKept(Commented(key, val, text), KeyLine("", key, " " + (val + (" #" + text))), cs);
    QuotedWord(key, val, "  " + ("#" + text));
  }

  /** For instance, `a: true # x`. */
  lemma TypedDestroyedHere(cs: Classes)
    requires WordClass(cs.word) && (forall c :: cs.digit(c) ==> !IsSpace(c)) && cs.word('a')
    ensures StepLine(Scan(false, 0), Commented("a", "true", " x"), cs)
         == (Scan(false, 0), "a" + ": \"" + "true" + "\"" + ("  " + ("#" + " x")) + "\n")
  {
    assert Lower("true") == "true";
    TypedDestroyed("a", "true", " x", cs);
  }

  /** `indent key: head: tail`, a line that is a key line when it stands outside a block scalar. */
  function PairLine(indent: string, key: string, head: string, tail: string): string {
    indent + (key + (":" + (" " + (head + (": " + tail))))) + "\n"
  }

  predicate Bare(head: string) {
    head != [] && NoSpaces(head) && PlainStart(head[0]) && '#' !in head
  }

  lemma PairParts(indent: string, key: string, head: string, tail: string, cs: Classes)
    requires WordClass(cs.word) && AllSpace(indent) && key != [] && KeyChars(key, cs.word) && !IsSpace(key[0])
    requires Bare(head) && Bare(tail)
    ensures var v := head + (": " + tail);
            && ParseKey(RStrip(PairLine(indent, key, head, tail)), cs.word) == Some(KeyLine(indent, key, " " + v))
            && ValueOf(" " + v) == Some(v) && v[0] == head[0] && Contains(v, ": ") && SplitComment(v) == (v, "")
  {
    var v := head + (": " + tail);
    assert tail[|tail| - 1] in tail && head[0] in head;
    TailEnds(": ", tail);
    TailEnds(head, ": " + tail);
    TailEnds(" ", v);
    BuiltLine(indent, key, " " + v, cs.word);
    LStripPieces(" ", v);
    assert OccursAt(v, ": ", |head|);
    NoHash(v);
  }

  lemma NoHash(v: string)
    requires '#' !in v
    ensures SplitComment(v) == (v, "")
  {
    if CommentStart(v, 0) < |v| {
      HashFound(v, CommentStart(v, 0));
    }
  }

  lemma HashFound(v: string, i: nat)
    requires i <= |v|
    ensures HashAfter(v, i) ==> '#' in v
  {
    LStripSplit(v[i..]);
    if HashAfter(v, i) {
      assert LStrip(v[i..])[0] in v[i..];
    }
  }

  /** A header with an indicator and no comment is kept, but a line of its body is rewritten when it
      looks like a key with a value that needs quotes: `key: |-` above `  key: head: tail`. */
  lemma BodyRewritten(header: string, h: KeyLine, indent: string, key: string, head: string, tail: string, cs: Classes)
    requires WordClass(cs.word) && PlainDigits(cs.digit) && (forall c :: cs.digit(c) ==> !IsSpace(c))
    requires ParseKey(RStrip(header), cs.word) == Some(h) && BlockValue(h) && !WithoutIndicator(h) && HeaderKept(h)
    requires AllSpace(indent) && key != [] && KeyChars(key, cs.word) && !IsSpace(key[0]) && Bare(head) && Bare(tail)
    ensures var line, v := PairLine(indent, key, head, tail), head + (": " + tail);
            && FixLines([header, line], Scan(false, 0), cs) == [header, Quoted(indent, key, v, "")]
            && Quoted(indent, key, v, "") != line
  {
    var st, line, v := Scan(false, 0), PairLine(indent, key, head, tail), head + (": " + tail);
    var k := KeyLine(indent, key, " " + v);
    HeaderWhen(st, header, h, cs);
    PairParts(indent, key, head, tail, cs);
    assert LStrip(" " + v) == v;
    PlainNotHeader(" " + v);
    PlainNotQuoted(head[0]);
    KindOfKeyed(line, k, cs.word);
    ColonValueQuoted(line, k, cs);
    TwoLines(header, line, FixKeyLine(line, k, cs), st, cs);
  }

  lemma TwoLines(a: string, b: string, out: string, st: Scan, cs: Classes)
    requires StepLine(st, a, cs) == (st, a) && StepLine(st, b, cs) == (st, out)
    ensures FixLines([a, b], st, cs) == [a, out]
  {
    assert [a, b][1..] == [b] && [b][1..] == [];
    assert FixLines([b], st, cs) == [out] + FixLines([], st, cs);
  }

  /** `key: word` */
  function WordLine(key: string, val: string): string {
    key + (":" + (" " + val)) + "\n"
  }

  lemma WordLineParts(key: string, val: string, word: char -> bool)
    requires WordClass(word) && key != [] && KeyChars(key, word) && !IsSpace(key[0]) && Wordlike(val)
    ensures ParseKey(RStrip(WordLine(key, val)), word) == Some(KeyLine("", key, " " + val))
    ensures ValueOf(" " + val) == Some(val)
  {
    assert val[0] in val && val[|val| - 1] in val;
    TailEnds(" ", val);
    BuiltLine("", key, " " + val, word);
    assert "" + (key + (":" + (" " + val))) == key + (":" + (" " + val));
    LStripPieces(" ", val);
  }

  lemma IndicatorHeader(key: string, val: string, word: char -> bool)
    requires WordClass(word) && key != [] && KeyChars(key, word) && !IsSpace(key[0])
    requires Wordlike(val) && |val| > 1 && (val[0] == '|' || val[0] == '>')
    ensures var h := KeyLine("", key, " " + val);
            && ParseKey(RStrip(WordLine(key, val)), word) == Some(h)
            && BlockValue(h) && !WithoutIndicator(h) && HeaderKept(h)
  {
    WordLineParts(key, val, word);
    MoreThanBar(val, "");
    assert val + "" == val;
    NoHash(val);
    if Contains(val, ": ") {
      ColonSpaces(val);
    }
  }

  /** For instance, `a: |-` above `  a: b: c`. */
  lemma BodyRewrittenHere(cs: Classes)
    requires WordClass(cs.word) && PlainDigits(cs.digit) && (forall c :: cs.digit(c) ==> !IsSpace(c)) && cs.word('a')
    ensures var header, line := WordLine("a", "|-"), PairLine("  ", "a", "b", "c");
            FixLines([header, line], Scan(false, 0), cs) == [header, Quoted("  ", "a", "b" + (": " + "c"), "")]
            && Quoted("  ", "a", "b" + (": " + "c"), "") != line
  {
    IndicatorHeader("a", "|-", cs.word);
    BodyRewritten(WordLine("a", "|-"), KeyLine("", "a", " " + "|-"), "  ", "a", "b", "c", cs);
  }
}
