/** What the YAML value quoter promises: a second pass changes nothing, and a reader of double
    quoted scalars gets back the value that was quoted. */
module YamlFixerLaws {
  import opened SeqLaws
  import opened Wrappers
  import opened PyText
  import opened YamlFixer

  // ----- stripping and scanning pieced-together text ---------------------------------------

  predicate KeyChars(k: string, word: char -> bool) {
    forall c <- k :: word(c) || c == '_' || c == '-'
  }

  lemma {:induction false} KeyRunChars(s: string, word: char -> bool)
    ensures KeyChars(KeyRun(s, word), word)
  {
    if s != [] && (word(s[0]) || s[0] == '_' || s[0] == '-') {
      KeyRunChars(s[1..], word);
    }
  }

  lemma {:induction false} KeyRunPieces(key: string, rest: string, word: char -> bool)
    requires KeyChars(key, word) && WordClass(word) && rest != [] && rest[0] == ':'
    ensures KeyRun(key + rest, word) == key
  {
    if key == [] {
      assert key + rest == rest;
    } else {
      assert key[0] in key;
      KeyRunPieces(key[1..], rest, word);
      assert (key + rest)[1..] == key[1..] + rest && key == [key[0]] + key[1..];
    }
  }

  lemma {:induction false} LStripSplit(s: string)
    ensures s == Spaces(s) + LStrip(s) && AllSpace(Spaces(s))
    ensures LStrip(s) != [] ==> !IsSpace(LStrip(s)[0])
  {
    if s != [] && IsSpace(s[0]) {
      LStripSplit(s[1..]);
      HeadTail(s);
      Assoc([s[0]], Spaces(s[1..]), LStrip(s[1..]));
    }
  }

  lemma LStripEnd(s: string)
    requires LStrip(s) != []
    ensures s != [] && LStrip(s)[|LStrip(s)| - 1] == s[|s| - 1]
  {
    LStripSplit(s);
    TailEnds(Spaces(s), LStrip(s));
  }

  lemma TailEnds(a: string, b: string)
    requires b != []
    ensures a + b != [] && (a + b)[|a + b| - 1] == b[|b| - 1]
  {
  }

  lemma {:induction false} SpacesPieces(a: string, t: string)
    requires AllSpace(a) && (t != [] ==> !IsSpace(t[0]))
    ensures Spaces(a + t) == a
  {
    if a == [] {
      assert a + t == t;
    } else {
      assert a[0] in a;
      ConcatHead(a, t);
      SpacesPieces(a[1..], t);
      HeadTail(a);
    }
  }

  lemma Cut(t: string, n: nat)
    requires n < |t|
    ensures t == t[..n] + ([t[n]] + t[n + 1..])
  {
  }

  /** A key line taken apart. */
  lemma ParseKeyParts(r: string, word: char -> bool)
    requires WordClass(word) && ParseKey(r, word).Some?
    ensures var k := ParseKey(r, word).value;
            && r == k.indent + (k.key + (":" + k.rest))
            && AllSpace(k.indent) && k.key != [] && KeyChars(k.key, word)
            && !IsSpace(k.key[0]) && k.key[0] != '#'
  {
    var k := ParseKey(r, word).value;
    var t := LStrip(r);
    LStripSplit(r);
    KeyRunChars(t, word);
    assert k.key[0] in k.key && k.key[0] == t[0];
    KeyCut(t, k.key, k.rest);
  }

  lemma KeyCut(t: string, key: string, rest: string)
    requires key <= t && |key| < |t| && t[|key|] == ':' && rest == t[|key| + 1..]
    ensures t == key + (":" + rest)
  {
    Cut(t, |key|);
  }

  /** The line itself: its white space at the end changes neither its indentation nor its head. */
  lemma KeyLineHead(line: string, word: char -> bool)
    requires WordClass(word) && ParseKey(RStrip(line), word).Some?
    ensures var k := ParseKey(RStrip(line), word).value;
            && LStrip(line) != [] && |line| - |LStrip(line)| == |k.indent| && line[0] == (k.indent + k.key)[0]
            && LStrip(line)[0] == k.key[0] && k.key[0] != '#'
  {
    var k := ParseKey(RStrip(line), word).value;
    ParseKeyParts(RStrip(line), word);
    RStripParts(line);
    TakeDrop(line, |RStrip(line)|);
    HeadOfPieces(k, line[|RStrip(line)|..]);
  }

  lemma HeadOfPieces(k: KeyLine, b: string)
    requires AllSpace(k.indent) && k.key != [] && !IsSpace(k.key[0])
    ensures var line := k.indent + (k.key + (":" + k.rest)) + b;
            && LStrip(line) == k.key + (":" + k.rest) + b && |line| - |LStrip(line)| == |k.indent|
            && line[0] == (k.indent + k.key)[0]
  {
    var t := k.key + (":" + k.rest);
    Assoc(k.indent, t, b);
    LStripPieces(k.indent, t + b);
  }

  // ----- the parts of a quoted line --------------------------------------------------------

  lemma {:induction false} ReplaceOnePass(s: string)
    ensures s != [] ==> Escape(s) == (if s[0] == '\\' then "\\\\" else if s[0] == '"' then "\\\"" else [s[0]]) + Escape(s[1..])
  {
    if s != [] {
      var head := if s[0] == '\\' then "\\\\" else [s[0]];
      ReplaceConcat(head, Replace(s[1..], '\\', "\\\\"), '"', "\\\"");
      assert Replace(s, '\\', "\\\\") == head + Replace(s[1..], '\\', "\\\\");
      assert head[1..] == [] || (head[1..] == "\\" && head[1..][1..] == []);
    }
  }

  lemma {:induction false} ReplaceConcat(a: string, b: string, c: char, put: string)
    ensures Replace(a + b, c, put) == Replace(a, c, put) + Replace(b, c, put)
  {
    if a == [] {
      assert a + b == b;
    } else {
      ReplaceConcat(a[1..], b, c, put);
      ConcatHead(a, b);
      Assoc(if a[0] == c then put else [a[0]], Replace(a[1..], c, put), Replace(b, c, put));
    }
  }

  lemma {:induction false} EscapeNoBreaks(s: string)
    requires NoBreaks(s)
    ensures NoBreaks(Escape(s))
  {
    ReplaceOnePass(s);
    if s != [] {
      assert s[0] in s;
      EscapeNoBreaks(s[1..]);
    }
  }

  lemma StripNothing(s: string)
    requires s != [] ==> !IsSpace(s[0]) && !IsSpace(s[|s| - 1])
    ensures Strip(s) == s
  {
    LStripPieces([], s);
    RStripPieces(s, []);
    assert [] + s == s && s + [] == s;
  }

  lemma StripLeft(s: string)
    requires s != [] && !IsSpace(s[|s| - 1])
    ensures Strip(s) == LStrip(s)
  {
    var t := LStrip(s);
    if t != [] {
      LStripEnd(s);
      RStripPieces(t, []);
      assert t + [] == t;
    }
  }

  lemma HashAfterLeft(v: string, k: nat)
    requires 0 < k <= |v| && IsSpace(v[k - 1]) && HashAfter(v, k)
    ensures HashAfter(v, k - 1)
  {
    assert v[k - 1..][1..] == v[k..];
  }

  /** No comment starts before the one that is found. */
  lemma {:induction false} CommentStartFirst(v: string, i: nat, j: nat)
    requires i <= |v| && i <= j < CommentStart(v, i)
    ensures !HashAfter(v, j)
    decreases |v| - i
  {
    if i < j {
      CommentStartFirst(v, i + 1, j);
    }
  }

  /** Where a comment starts, a run of white space starts. */
  lemma CommentAfterText(v: string)
    requires v != [] && !IsSpace(v[0]) && CommentStart(v, 0) < |v|
    ensures var k := CommentStart(v, 0); 0 < k && IsSpace(v[k]) && !IsSpace(v[k - 1])
  {
    var k := CommentStart(v, 0);
    assert v[0..] == v;
    assert IsSpace(v[k]) by { assert v[k..][0] == v[k]; }
    CommentStartFirst(v, 0, k - 1);
    if IsSpace(v[k - 1]) {
      HashAfterLeft(v, k);
    }
  }

  /** A comment as it is written back: two spaces and its text. */
  lemma WrittenComment(t: string)
    requires t != []
    ensures var c := "  " + t;
            |c| == |t| + 2 && c[..2] == "  " && c[2..] == t && c[2] == t[0] && c[|c| - 1] == t[|t| - 1]
  {
  }

  /** `val`, then white space, then a comment that begins with `#`. */
  lemma CommentPieces(val: string, tail: string)
    requires tail != [] && IsSpace(tail[0]) && !IsSpace(tail[|tail| - 1])
    requires LStrip(tail) != [] && LStrip(tail)[0] == '#'
    ensures Strip(tail) == LStrip(tail) && HasComment(val + tail, val, "  " + LStrip(tail))
  {
    StripLeft(tail);
    LStripSplit(tail);
    LStripEnd(tail);
    WrittenComment(LStrip(tail));
    GapNotEmpty(tail);
    assert HasCommentWith(val + tail, val, "  " + LStrip(tail), Spaces(tail));
  }

  lemma GapNotEmpty(tail: string)
    requires tail != [] && IsSpace(tail[0])
    ensures Spaces(tail) != []
  {
  }

  lemma CommentParts(v: string, k: nat)
    requires 0 < k < |v|
    requires !IsSpace(v[0]) && !IsSpace(v[|v| - 1]) && HashAfter(v, k)
    requires IsSpace(v[k]) && !IsSpace(v[k - 1])
    ensures Strip(v[..k]) == v[..k] && HasComment(v, v[..k], "  " + Strip(v[k..]))
  {
    var val, tail := v[..k], v[k..];
    assert val[0] == v[0] && val[k - 1] == v[k - 1];
    StripNothing(val);
    assert tail[0] == v[k] && tail[|tail| - 1] == v[|v| - 1];
    CommentPieces(val, tail);
    assert v == val + tail;
  }

  /** A comment is found behind the value: the value part is what precedes it, and the text of
      the comment starts with its `#`. */
  lemma SplitCommentParts(v: string)
    requires v != [] && !IsSpace(v[0]) && !IsSpace(v[|v| - 1])
    ensures var (val, comment) := SplitComment(v);
            && val != [] && val <= v
            && (comment == [] ==> val == v)
            && (comment != [] ==> HasComment(v, val, comment))
  {
    var k := CommentStart(v, 0);
    if k < |v| {
      CommentAfterText(v);
      CommentParts(v, k);
    }
  }

  predicate HasCommentWith(v: string, val: string, comment: string, gap: string) {
    && |comment| > 2 && comment[..2] == "  " && comment[2] == '#' && !IsSpace(comment[|comment| - 1])
    && gap != [] && AllSpace(gap) && v == val + (gap + comment[2..])
  }

  /** Behind `val` and white space, `v` holds the comment that is written back after two spaces. */
  ghost predicate HasComment(v: string, val: string, comment: string) {
    exists gap :: HasCommentWith(v, val, comment, gap)
  }

  /** A key line ends as what follows its colon ends. */
  lemma RestEnd(r: string, k: KeyLine)
    requires r == k.indent + (k.key + (":" + k.rest)) && k.rest != []
    ensures r != [] && r[|r| - 1] == k.rest[|k.rest| - 1]
  {
    TailEnds(":", k.rest);
    TailEnds(k.key, ":" + k.rest);
    TailEnds(k.indent, k.key + (":" + k.rest));
  }

  lemma RStripEnd(line: string)
    ensures RStrip(line) != [] ==> !IsSpace(RStrip(line)[|RStrip(line)| - 1])
  {
    RStripParts(line);
  }

  lemma KeyRest(r: string, k: KeyLine, word: char -> bool)
    requires WordClass(word) && ParseKey(r, word) == Some(k)
    ensures r == k.indent + (k.key + (":" + k.rest))
  {
    ParseKeyParts(r, word);
  }

  lemma RestNotSpace(line: string, k: KeyLine, word: char -> bool)
    requires WordClass(word) && ParseKey(RStrip(line), word) == Some(k) && k.rest != []
    ensures !IsSpace(k.rest[|k.rest| - 1])
  {
    var r := RStrip(line);
    RStripEnd(line);
    KeyRest(r, k, word);
    RestEnd(r, k);
  }

  lemma ValueOfParts(rest: string)
    requires ValueOf(rest).Some? && !IsSpace(rest[|rest| - 1])
    ensures var v := ValueOf(rest).value;
            && v != [] && !IsSpace(v[0]) && !IsSpace(v[|v| - 1])
            && rest == Spaces(rest) + v && AllSpace(Spaces(rest))
  {
    LStripSplit(rest);
    LStripEnd(rest);
  }

  /** What the value of a key line is made of. */
  lemma ValueParts(line: string, k: KeyLine, cs: Classes)
    requires WordClass(cs.word) && ParseKey(RStrip(line), cs.word) == Some(k) && ValueOf(k.rest).Some?
    ensures var v := ValueOf(k.rest).value;
            && v != [] && !IsSpace(v[0]) && !IsSpace(v[|v| - 1])
            && k.rest == Spaces(k.rest) + v && AllSpace(Spaces(k.rest))
  {
    RestNotSpace(line, k, cs.word);
    ValueOfParts(k.rest);
  }

  // ----- a quoted line is scanned as before and kept ---------------------------------------

  /** Everything of a quoted line behind the colon. */
  function QuotedRest(val: string, comment: string): string {
    " \"" + Escape(val) + "\"" + comment
  }

  lemma QuotedShape(indent: string, key: string, val: string, comment: string)
    ensures Quoted(indent, key, val, comment) == (indent + (key + (":" + QuotedRest(val, comment)))) + "\n"
  {
  }

  /** A line put together from its parts parses into them. */
  lemma BuiltLine(indent: string, key: string, rest: string, word: char -> bool)
    requires WordClass(word) && AllSpace(indent) && key != [] && KeyChars(key, word) && !IsSpace(key[0])
    requires rest != [] && !IsSpace(rest[|rest| - 1])
    ensures var o := (indent + (key + (":" + rest))) + "\n";
            RStrip(o) == indent + (key + (":" + rest)) && ParseKey(RStrip(o), word) == Some(KeyLine(indent, key, rest))
  {
    var t := key + (":" + rest);
    TailEnds(":", rest);
    TailEnds(key, ":" + rest);
    TailEnds(indent, t);
    RStripPieces(indent + t, "\n");
    LStripPieces(indent, t);
    KeyRunPieces(key, ":" + rest, word);
    SpacesPieces(indent, t);
    assert t[|key| + 1..] == rest;
  }

  lemma QuotedParts(indent: string, key: string, val: string, comment: string, word: char -> bool)
    requires WordClass(word) && AllSpace(indent) && key != [] && KeyChars(key, word) && !IsSpace(key[0])
    requires comment == [] || !IsSpace(comment[|comment| - 1])
    ensures var o := Quoted(indent, key, val, comment);
            ParseKey(RStrip(o), word) == Some(KeyLine(indent, key, QuotedRest(val, comment)))
            && RStrip(o) == indent + (key + (":" + QuotedRest(val, comment)))
  {
    QuotedShape(indent, key, val, comment);
    QuotedRestEnds(val, comment);
    BuiltLine(indent, key, QuotedRest(val, comment), word);
  }

  lemma QuotedRestEnds(val: string, comment: string)
    requires comment == [] || !IsSpace(comment[|comment| - 1])
    ensures var rest := QuotedRest(val, comment); rest != [] && !IsSpace(rest[|rest| - 1])
  {
    var rest := QuotedRest(val, comment);
    if comment == [] {
      assert rest[|rest| - 1] == '"';
    } else {
      assert rest[|rest| - 1] == comment[|comment| - 1];
    }
  }

  lemma QuotedValue(val: string, comment: string)
    ensures var v := "\"" + Escape(val) + "\"" + comment;
            LStrip(QuotedRest(val, comment)) == v && v[0] == '"'
  {
    var v := "\"" + Escape(val) + "\"" + comment;
    assert QuotedRest(val, comment) == " " + v;
    LStripPieces(" ", v);
  }

  lemma QuotedKept(val: string, comment: string, k: KeyLine, o: string, cs: Classes)
    requires k.rest == QuotedRest(val, comment)
    ensures !IsBlockHeader(k.rest) && FixKeyLine(o, k, cs) == o
  {
    QuotedValue(val, comment);
  }

  /** The fixer leaves a key line alone or quotes its value part. */
  predicate QuotedFrom(k: KeyLine, out: string) {
    ValueOf(k.rest).Some? &&
    var (val, comment) := SplitComment(ValueOf(k.rest).value);
    out == Quoted(k.indent, k.key, val, comment)
  }

  lemma FixKeyLineCases(line: string, k: KeyLine, cs: Classes)
    ensures FixKeyLine(line, k, cs) == line || QuotedFrom(k, FixKeyLine(line, k, cs))
  {
  }

  /** The output line of a quoted key line: same indentation, same key, and kept from then on. */
  lemma QuotedAgain(line: string, k: KeyLine, out: string, cs: Classes)
    requires WordClass(cs.word) && ParseKey(RStrip(line), cs.word) == Some(k) && QuotedFrom(k, out)
    ensures ParseKey(RStrip(out), cs.word).Some?
    ensures var k' := ParseKey(RStrip(out), cs.word).value;
            && k'.indent == k.indent && k'.key == k.key && !IsBlockHeader(k'.rest) && FixKeyLine(out, k', cs) == out
            && KindOf(out, cs.word) == Keyed(k')
            && LStrip(out) != [] && |out| - |LStrip(out)| == |k.indent|
  {
    var (val, comment) := SplitComment(ValueOf(k.rest).value);
    QuotedLine(line, k, val, comment, cs);
    QuotedScan(k, val, comment, out, cs);
  }

  /** How the output line parses. */
  lemma QuotedLine(line: string, k: KeyLine, val: string, comment: string, cs: Classes)
    requires WordClass(cs.word) && ParseKey(RStrip(line), cs.word) == Some(k) && ValueOf(k.rest).Some?
    requires (val, comment) == SplitComment(ValueOf(k.rest).value)
    ensures ParseKey(RStrip(Quoted(k.indent, k.key, val, comment)), cs.word)
         == Some(KeyLine(k.indent, k.key, QuotedRest(val, comment)))
    ensures val != [] && val <= ValueOf(k.rest).value
    ensures if comment == [] then val == ValueOf(k.rest).value else HasComment(ValueOf(k.rest).value, val, comment)
  {
    var v := ValueOf(k.rest).value;
    ParseKeyParts(RStrip(line), cs.word);
    ValueParts(line, k, cs);
    SplitCommentParts(v);
    CommentEndsText(v, val, comment);
    QuotedParts(k.indent, k.key, val, comment, cs.word);
  }

  lemma QuotedScan(k: KeyLine, val: string, comment: string, out: string, cs: Classes)
    requires WordClass(cs.word)
    requires ParseKey(RStrip(out), cs.word) == Some(KeyLine(k.indent, k.key, QuotedRest(val, comment)))
    ensures var k' := KeyLine(k.indent, k.key, QuotedRest(val, comment));
            && !IsBlockHeader(k'.rest) && FixKeyLine(out, k', cs) == out && KindOf(out, cs.word) == Keyed(k')
            && LStrip(out) != [] && |out| - |LStrip(out)| == |k.indent|
  {
    var k' := KeyLine(k.indent, k.key, QuotedRest(val, comment));
    QuotedKept(val, comment, k', out, cs);
    KindOfKeyed(out, k', cs.word);
  }

  lemma KindOfKeyed(line: string, k: KeyLine, word: char -> bool)
    requires WordClass(word) && ParseKey(RStrip(line), word) == Some(k) && !IsBlockHeader(k.rest)
    ensures KindOf(line, word) == Keyed(k) && LStrip(line) != [] && |line| - |LStrip(line)| == |k.indent|
  {
    KeyLineStart(line, k, word);
  }

  lemma KeyLineStart(line: string, k: KeyLine, word: char -> bool)
    requires WordClass(word) && ParseKey(RStrip(line), word) == Some(k)
    ensures LStrip(line) != [] && |line| - |LStrip(line)| == |k.indent| && LStrip(line)[0] != '#'
  {
    KeyLineHead(line, word);
  }

  /** Scanning the output line changes the state as the input line did, and keeps it. */
  lemma StepAgain(st: Scan, line: string, cs: Classes)
    requires WordClass(cs.word)
    ensures var (next, out) := StepLine(st, line, cs);
            StepLine(st, out, cs) == (next, out)
  {
    var (next, out) := StepLine(st, line, cs);
    if out != line {
      var k := KindOf(line, cs.word).k;
      FixKeyLineCases(line, k, cs);
      QuotedAgain(line, k, out, cs);
      KeyLineHead(line, cs.word);
    }
  }

  lemma {:induction false} FixLinesAgain(lines: seq<string>, st: Scan, cs: Classes)
    requires WordClass(cs.word)
    ensures FixLines(FixLines(lines, st, cs), st, cs) == FixLines(lines, st, cs)
  {
    if lines != [] {
      var (next, out) := StepLine(st, lines[0], cs);
      StepAgain(st, lines[0], cs);
      FixLinesAgain(lines[1..], next, cs);
      assert FixLines(lines, st, cs)[1..] == FixLines(lines[1..], next, cs);
    }
  }

  // ----- the output text splits into the output lines --------------------------------------

  lemma NoBreaksConcat(a: string, b: string)
    ensures NoBreaks(a + b) <==> NoBreaks(a) && NoBreaks(b)
  {
    assert forall c <- a :: c in a + b;
    assert forall c <- b :: c in a + b;
  }

  lemma {:induction false} RStripBound(s: string, n: nat)
    requires n <= |s| && AllSpace(s[n..])
    ensures |RStrip(s)| <= n
  {
    if n < |s| {
      assert s[n..][|s| - 1 - n] == s[|s| - 1];
      assert s[n..|s| - 1] == s[..|s| - 1][n..];
      assert forall c <- s[n..|s| - 1] :: c in s[n..];
      RStripBound(s[..|s| - 1], n);
    }
  }

  /** White space stripped from the right of a line takes its break along. */
  lemma StrippedNoBreaks(line: string, last: bool)
    requires IsLine(line, last)
    ensures NoBreaks(RStrip(line))
  {
    var r := RStrip(line);
    RStripParts(line);
    var n := if NoBreaks(line) then |line|
             else if NoBreaks(line[..|line| - 1]) && IsBreak(line[|line| - 1]) then |line| - 1 else |line| - 2;
    assert NoBreaks(line[..n]) && AllSpace(line[n..]);
    RStripBound(line, n);
    assert r == line[..n][..|r|];
    forall c | c in r ensures !IsBreak(c) {
      assert c in line[..n];
    }
  }

  lemma PartsNoBreaks(line: string, last: bool, k: KeyLine, cs: Classes)
    requires WordClass(cs.word) && IsLine(line, last)
    requires ParseKey(RStrip(line), cs.word) == Some(k) && ValueOf(k.rest).Some?
    ensures NoBreaks(k.indent) && NoBreaks(k.key) && NoBreaks(ValueOf(k.rest).value)
  {
    StrippedNoBreaks(line, last);
    ParseKeyParts(RStrip(line), cs.word);
    ValueParts(line, k, cs);
    NoBreaksConcat(k.indent, k.key + (":" + k.rest));
    NoBreaksConcat(k.key, ":" + k.rest);
    NoBreaksConcat(":", k.rest);
    NoBreaksConcat(Spaces(k.rest), ValueOf(k.rest).value);
  }

  lemma QuotedRestNoBreaks(val: string, comment: string)
    requires NoBreaks(val) && NoBreaks(comment)
    ensures NoBreaks(QuotedRest(val, comment))
  {
    EscapeNoBreaks(val);
    NoBreaksConcat(" \"", Escape(val));
    NoBreaksConcat(" \"" + Escape(val), "\"");
    NoBreaksConcat(" \"" + Escape(val) + "\"", comment);
  }

  lemma QuotedNoBreaks(indent: string, key: string, val: string, comment: string)
    requires NoBreaks(indent) && NoBreaks(key) && key != [] && NoBreaks(val) && NoBreaks(comment)
    ensures var out := Quoted(indent, key, val, comment);
            out != [] && NoBreaks(out[..|out| - 1]) && out[|out| - 1] == '\n' && out[0] == (indent + key)[0]
  {
    QuotedRestNoBreaks(val, comment);
    QuotedShape(indent, key, val, comment);
    NoBreaksConcat(":", QuotedRest(val, comment));
    NoBreaksConcat(key, ":" + QuotedRest(val, comment));
    NoBreaksConcat(indent, key + (":" + QuotedRest(val, comment)));
    var body := indent + (key + (":" + QuotedRest(val, comment)));
    assert (body + "\n")[..|body|] == body;
  }

  /** A quoted line is one line, ended by LF, with the head of the line it replaces. */
  lemma QuotedIsLine(line: string, last: bool, k: KeyLine, out: string, cs: Classes)
    requires WordClass(cs.word) && IsLine(line, last)
    requires ParseKey(RStrip(line), cs.word) == Some(k) && QuotedFrom(k, out)
    ensures IsLine(out, last) && out[|out| - 1] == '\n' && out[0] == line[0]
  {
    var (val, comment) := SplitComment(ValueOf(k.rest).value);
    PartsNoBreaks(line, last, k, cs);
    ParseKeyParts(RStrip(line), cs.word);
    KeyLineHead(line, cs.word);
    QuotedLine(line, k, val, comment, cs);
    PrefixNoBreaks(val, ValueOf(k.rest).value);
    CommentNoBreaks(ValueOf(k.rest).value, val, comment);
    QuotedNoBreaks(k.indent, k.key, val, comment);
  }

  lemma PrefixNoBreaks(val: string, v: string)
    requires NoBreaks(v) && val <= v
    ensures NoBreaks(val)
  {
    assert forall c <- val :: c in v;
  }

  lemma CommentNoBreaks(v: string, val: string, comment: string)
    requires NoBreaks(v) && (comment != [] ==> HasComment(v, val, comment))
    ensures NoBreaks(comment)
  {
    if comment != [] {
      var gap :| HasCommentWith(v, val, comment, gap);
      NoBreaksConcat(val, gap + comment[2..]);
      NoBreaksConcat(gap, comment[2..]);
      NoBreaksConcat("  ", comment[2..]);
      assert comment == "  " + comment[2..];
    }
  }

  lemma StepIsLine(st: Scan, line: string, last: bool, cs: Classes)
    requires WordClass(cs.word) && IsLine(line, last)
    ensures var (next, out) := StepLine(st, line, cs);
            IsLine(out, last) && out[0] == line[0] && (out[|out| - 1] == line[|line| - 1] || out[|out| - 1] == '\n')
  {
    var (next, out) := StepLine(st, line, cs);
    if out != line {
      var k := KindOf(line, cs.word).k;
      FixKeyLineCases(line, k, cs);
      QuotedIsLine(line, last, k, out, cs);
    }
  }

  lemma {:induction false} FixLinesIsLines(lines: seq<string>, st: Scan, cs: Classes)
    requires WordClass(cs.word) && IsLines(lines)
    ensures IsLines(FixLines(lines, st, cs))
    ensures lines != [] ==> FixLines(lines, st, cs)[0] != [] && lines[0] != [] && FixLines(lines, st, cs)[0][0] == lines[0][0]
  {
    if lines != [] {
      var (next, out) := StepLine(st, lines[0], cs);
      StepIsLine(st, lines[0], |lines| == 1, cs);
      FixLinesIsLines(lines[1..], next, cs);
      assert FixLines(lines, st, cs)[1..] == FixLines(lines[1..], next, cs);
    }
  }

  /** The fixer is idempotent on every text. */
  lemma Idempotent(text: string, cs: Classes)
    requires WordClass(cs.word)
    ensures Fix(Fix(text, cs), cs) == Fix(text, cs)
  {
    var lines := SplitLines(text);
    SplitIsLines(text);
    FixLinesIsLines(lines, Scan(false, 0), cs);
    SplitJoin(FixLines(lines, Scan(false, 0), cs));
    FixLinesAgain(lines, Scan(false, 0), cs);
  }

  // ----- a reader of double-quoted scalars -------------------------------------------------

  /** Characters a double-quoted scalar may hold: nb-json of YAML 1.2.2, section 5.1. */
  predicate Printable(c: char) {
    c == '\t' || c >= ' '
  }

  /** Single-letter escapes of YAML 1.2.2, section 5.7. */
  function Unescape(c: char): Option<char> {
    match c
    case '0' => Some('\U{0}')
    case 'a' => Some('\U{7}')
    case 'b' => Some('\U{8}')
    case 't' => Some('\t')
    case '\t' => Some('\t')
    case 'n' => Some('\n')
    case 'v' => Some('\U{B}')
    case 'f' => Some('\U{C}')
    case 'r' => Some('\r')
    case 'e' => Some('\U{1B}')
    case ' ' => Some(' ')
    case '"' => Some('"')
    case '/' => Some('/')
    case '\\' => Some('\\')
    case 'N' => Some('\U{85}')
    case '_' => Some('\U{A0}')
    case 'L' => Some('\U{2028}')
    case 'P' => Some('\U{2029}')
    case _ => None
  }

  /** Reads on after the opening quote: the value, and what follows the closing quote. */
  function ReadQuoted(s: string): Option<(string, string)> {
    if s == [] then None
    else if s[0] == '"' then Some(([], s[1..]))
    else if s[0] == '\\' then
      if |s| < 2 || Unescape(s[1]).None? then None
      else
        match ReadQuoted(s[2..])
        case None => None
        case Some((v, rest)) => Some(([Unescape(s[1]).value] + v, rest))
    else if !Printable(s[0]) then None
    else
      match ReadQuoted(s[1..])
      case None => None
      case Some((v, rest)) => Some(([s[0]] + v, rest))
  }

  lemma ReadEscaped(c: char, more: string)
    requires c == '\\' || c == '"'
    ensures ReadQuoted("\\" + [c] + more) ==
            (match ReadQuoted(more) case None => None case Some((v, rest)) => Some(([c] + v, rest)))
  {
    var s := "\\" + [c] + more;
    assert s[0] == '\\' && s[1] == c && s[2..] == more;
  }

  lemma ReadPlain(c: char, more: string)
    requires c != '\\' && c != '"'
    ensures ReadQuoted([c] + more) ==
            if !Printable(c) then None
            else match ReadQuoted(more) case None => None case Some((v, rest)) => Some(([c] + v, rest))
  {
    var s := [c] + more;
    assert s[0] == c && s[1..] == more;
  }

  /** Reading back an escaped value stops at the closing quote that was written and gives the
      value, exactly for values without control characters. */
  lemma {:induction false} EscapeRoundTrip(val: string, rest: string)
    ensures ReadQuoted(Escape(val) + ("\"" + rest)) ==
            if forall c <- val :: Printable(c) then Some((val, rest)) else None
  {
    ReplaceOnePass(val);
    var tail := "\"" + rest;
    if val == [] {
      assert Escape(val) + tail == tail && tail[1..] == rest;
    } else {
      EscapeRoundTrip(val[1..], rest);
      var c, more := val[0], Escape(val[1..]) + tail;
      HeadTail(val);
      if c == '\\' || c == '"' {
        assert Escape(val) == "\\" + [c] + Escape(val[1..]);
        Assoc("\\" + [c], Escape(val[1..]), tail);
        ReadEscaped(c, more);
      } else {
        Assoc([c], Escape(val[1..]), tail);
        ReadPlain(c, more);
      }
    }
  }

  /** `out` is `line` with the value part of its key line quoted: same indentation and key; the
      value part is what stood before the comment; and a reader of the quoted value finds the
      value part, then the comment, exactly when it has no control characters. */
  ghost predicate ReadsBack(k: KeyLine, k': KeyLine) {
    && k'.indent == k.indent && k'.key == k.key && ValueOf(k.rest).Some? && ValueOf(k'.rest).Some?
    && (var v, v' := ValueOf(k.rest).value, ValueOf(k'.rest).value;
        var (val, comment) := SplitComment(v);
        && v'[0] == '"' && (if comment == [] then val == v else HasComment(v, val, comment))
        && ReadQuoted(v'[1..]) == if forall c <- val :: Printable(c) then Some((val, comment)) else None)
  }

  lemma ReadsBackValue(k: KeyLine, val: string, comment: string)
    requires ValueOf(k.rest).Some? && SplitComment(ValueOf(k.rest).value) == (val, comment)
    requires if comment == [] then val == ValueOf(k.rest).value else HasComment(ValueOf(k.rest).value, val, comment)
    ensures ReadsBack(k, KeyLine(k.indent, k.key, QuotedRest(val, comment)))
  {
    QuotedValue(val, comment);
    EscapeRoundTrip(val, comment);
    var v' := "\"" + Escape(val) + "\"" + comment;
    assert v'[1..] == Escape(val) + ("\"" + comment);
  }

  /** Every line the fixer rewrites is a key line that reads back; every other line is the same
      line as before. */
  lemma QuotedLineReadsBack(st: Scan, line: string, cs: Classes)
    requires WordClass(cs.word) && StepLine(st, line, cs).1 != line
    ensures var k', k := ParseKey(RStrip(StepLine(st, line, cs).1), cs.word), ParseKey(RStrip(line), cs.word);
            k.Some? && k'.Some? && ReadsBack(k.value, k'.value)
  {
    var k := KindOf(line, cs.word).k;
    FixKeyLineCases(line, k, cs);
    var (val, comment) := SplitComment(ValueOf(k.rest).value);
    QuotedLine(line, k, val, comment, cs);
    ReadsBackValue(k, val, comment);
  }

  lemma CommentEndsText(v: string, val: string, comment: string)
    requires comment == [] || HasComment(v, val, comment)
    ensures comment == [] || !IsSpace(comment[|comment| - 1])
  {
    if comment != [] {
      var gap :| HasCommentWith(v, val, comment, gap);
    }
  }
}
