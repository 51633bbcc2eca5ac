/** What the YAML value quoter does to a text, line by line and said of the text alone: which lines
    lie in a block scalar, which of the others are rewritten, and what a rewritten line looks like. */
module YamlFixerMeaning {
  import opened PyText
  import opened Wrappers
  import opened YamlFixer
  import opened YamlFixerLaws
  import opened YamlFixerScope
  import opened YamlFixerGrammar

  // ----- one line outside block scalars ----------------------------------------------------

  /** Quoted already, or a flow collection. */
  predicate Wrapped(v: string)
    requires v != []
  {
    v[0] == '\'' || v[0] == '"' || v[0] == '{' || v[0] == '['
  }

  /** A value that a reader would misread: bare, neither a keyword nor a number, with a remark or with
      a colon and a space. */
  ghost predicate Misread(v: string, digit: char -> bool)
    requires v != []
  {
    !Wrapped(v) && !KeywordText(v) && !NumberText(v, digit) && (HasRemark(v) || HasColonSpace(v))
  }

  /** A line with a key, white space behind the colon, and a value `v`. */
  predicate EntryText(line: string, k: KeyLine, gap: string, v: string, word: char -> bool) {
    KeyText(RStrip(line), k, word) && ValueText(k.rest, gap, v)
  }

  ghost predicate HeaderLine(line: string, word: char -> bool) {
    exists k: KeyLine, gap, bar, more ::
      && KeyText(RStrip(line), k, word) && HeaderText(k.rest, gap, bar, more)
      && (more == [] || exists g, n :: NoteText(more, g, n))
  }

  /** The line is to be rewritten. */
  ghost predicate NeedsQuotes(line: string, cs: Classes) {
    !HeaderLine(line, cs.word)
    && exists k: KeyLine, gap, v :: EntryText(line, k, gap, v, cs.word) && Misread(v, cs.digit)
  }

  /** The value stands between double quotes, escaped, behind the same indentation and key. */
  predicate WholeQuoted(k: KeyLine, v: string, out: string) {
    out == k.indent + k.key + ": \"" + Escape(v) + "\"\n"
  }

  /** So does the text before the first remark, and the remark follows behind two spaces. */
  ghost predicate PartQuoted(k: KeyLine, v: string, i: int, j: int, out: string) {
    && RemarkAt(v, i, j) && (forall h, l :: RemarkAt(v, h, l) ==> i <= h)
    && out == k.indent + k.key + ": \"" + Escape(v[..i]) + "\"" + ("  " + v[j..]) + "\n"
  }

  /** What a rewritten line looks like. */
  ghost predicate RewrittenAs(k: KeyLine, v: string, out: string) {
    if HasRemark(v) then exists i, j :: PartQuoted(k, v, i, j, out) else WholeQuoted(k, v, out)
  }

  ghost predicate Rewritten(line: string, out: string, cs: Classes) {
    out != line && exists k: KeyLine, gap, v :: EntryText(line, k, gap, v, cs.word) && RewrittenAs(k, v, out)
  }

  lemma KindWhen(line: string, cs: Classes)
    requires WordClass(cs.word)
    ensures KindOf(line, cs.word) == Header <==> HeaderLine(line, cs.word)
    ensures forall k :: KindOf(line, cs.word) == Keyed(k) <==> KeyText(RStrip(line), k, cs.word) && !HeaderLine(line, cs.word)
  {
    var r := RStrip(line);
    forall k ensures ParseKey(r, cs.word) == Some(k) <==> KeyText(r, k, cs.word) {
      KeyWhen(r, k, cs.word);
    }
    if ParseKey(r, cs.word).Some? {
      var k := ParseKey(r, cs.word).value;
      KeyLineHead(line, cs.word);
      HeaderIs(k.rest);
      if k': KeyLine, gap, bar, more :| KeyText(r, k', cs.word) && HeaderText(k'.rest, gap, bar, more)
                                        && (more == [] || exists g, n :: NoteText(more, g, n)) {
        assert k' == k;
      }
    }
  }

  /** The value of a key line is kept by scanning exactly when it is not misread. */
  lemma MisreadWhen(v: string, cs: Classes)
    requires DigitClass(cs.digit) && v != [] && !IsSpace(v[0]) && !IsSpace(v[|v| - 1])
    ensures var (val, comment) := SplitComment(v);
            Misread(v, cs.digit) <==> !KeptValue(v, cs.digit) && (Contains(val, ": ") || comment != [])
  {
    KeywordWhen(v);
    NumberWhen(v, cs.digit);
    SplitWhen(v);
    ColonWhen(v);
  }

  lemma RewrittenIs(k: KeyLine, v: string)
    requires v != [] && !IsSpace(v[0]) && !IsSpace(v[|v| - 1])
    ensures var (val, comment) := SplitComment(v); RewrittenAs(k, v, Quoted(k.indent, k.key, val, comment))
  {
    SplitWhen(v);
    var (val, comment) := SplitComment(v);
    if HasRemark(v) {
      var j :| Split(v, val, comment, j);
      assert PartQuoted(k, v, |val|, j, Quoted(k.indent, k.key, val, comment));
    } else {
      NoComment(k.indent + k.key + ": \"" + Escape(v));
    }
  }

  lemma NoComment(head: string)
    ensures head + "\"" + "" + "\n" == head + "\"\n"
  {
  }

  /** A key line with a value, outside block scalars. */
  lemma EntryFixed(line: string, k: KeyLine, gap: string, v: string, cs: Classes)
    requires WordClass(cs.word) && DigitClass(cs.digit) && EntryText(line, k, gap, v, cs.word)
    ensures var out := FixKeyLine(line, k, cs);
            if Misread(v, cs.digit) then out != line && RewrittenAs(k, v, out) else out == line
  {
    KeyWhen(RStrip(line), k, cs.word);
    ValueWhen(k.rest, v);
    ValueParts(line, k, cs);
    MisreadWhen(v, cs);
    RewrittenIs(k, v);
    var (val, comment) := SplitComment(v);
    QuotedLine(line, k, val, comment, cs);
    QuotedRestStart(val, comment);
  }

  /** What becomes of a line outside block scalars, for every line: it is rewritten exactly when it
      needs quotes, and is the same line otherwise. */
  ghost predicate Treated(line: string, out: string, cs: Classes) {
    if NeedsQuotes(line, cs) then Rewritten(line, out, cs) else out == line
  }

  lemma LineTreated(st: Scan, line: string, cs: Classes)
    requires WordClass(cs.word) && DigitClass(cs.digit) && !StaysInBlock(st, line)
    ensures Treated(line, StepLine(st, line, cs).1, cs)
  {
    KindWhen(line, cs);
    forall k: KeyLine, gap, v | EntryText(line, k, gap, v, cs.word) && !HeaderLine(line, cs.word)
      ensures KindOf(line, cs.word) == Keyed(k) && ValueOf(k.rest) == Some(v)
      ensures if Misread(v, cs.digit) then NeedsQuotes(line, cs) && Rewritten(line, FixKeyLine(line, k, cs), cs)
              else FixKeyLine(line, k, cs) == line
    {
      ValueWhen(k.rest, v);
      EntryFixed(line, k, gap, v, cs);
    }
    if KindOf(line, cs.word).Keyed? {
      var k := KindOf(line, cs.word).k;
      if ValueOf(k.rest).Some? {
        var v := ValueOf(k.rest).value;
        ValueWhen(k.rest, v);
        var gap :| ValueText(k.rest, gap, v);
        assert EntryText(line, k, gap, v, cs.word);
      }
    }
  }

  /** Quoted values and flow collections are never touched, whatever colons or remarks they hold and
      wherever the line stands. */
  lemma WrappedKept(st: Scan, line: string, k: KeyLine, gap: string, v: string, cs: Classes)
    requires WordClass(cs.word) && DigitClass(cs.digit) && EntryText(line, k, gap, v, cs.word)
    requires v[0] == '\'' || v[0] == '"' || v[0] == '{' || v[0] == '['
    ensures StepLine(st, line, cs).1 == line
  {
    KindWhen(line, cs);
    EntryFixed(line, k, gap, v, cs);
  }

  // ----- block scalars ---------------------------------------------------------------------

  /** What counts of a line for block scalars. */
  datatype Mark = Mark(header: bool, blank: bool, indent: nat)

  ghost function MarkOf(line: string, word: char -> bool): Mark {
    Mark(HeaderLine(line, word), AllSpace(line), |line| - |LStrip(line)|)
  }

  ghost function Marks(lines: seq<string>, word: char -> bool): (ms: seq<Mark>)
    ensures |ms| == |lines| && forall i :: 0 <= i < |lines| ==> ms[i] == MarkOf(lines[i], word)
  {
    seq(|lines|, i requires 0 <= i < |lines| => MarkOf(lines[i], word))
  }

  /** Blank, or indented deeper than the header. */
  predicate Below(line: Mark, header: Mark) {
    line.blank || line.indent > header.indent
  }

  /** The block scalar of line `j` reaches up to line `i`. */
  ghost predicate Reaches(ms: seq<Mark>, j: nat, i: nat)
    requires i <= |ms|
    decreases i, 0
  {
    && j < i && ms[j].header && !InBlock(ms, j)
    && forall k :: j < k < i ==> Below(ms[k], ms[j])
  }

  /** The line lies in the block scalar of some header, which lies in none itself. */
  ghost predicate InBlock(ms: seq<Mark>, i: nat)
    requires i < |ms|
    decreases i, 1
  {
    exists j: nat :: Reaches(ms, j, i) && Below(ms[i], ms[j])
  }

  /** Every line up to there lies in it. */
  lemma Covers(ms: seq<Mark>, j: nat, k: nat, i: nat)
    requires i <= |ms| && Reaches(ms, j, i) && j < k < i
    ensures InBlock(ms, k)
  {
    assert Reaches(ms, j, k) && Below(ms[k], ms[j]);
  }

  lemma CoveredOrHere(ms: seq<Mark>, j: nat, i: nat)
    requires i < |ms| && Reaches(ms, j, i + 1)
    ensures j == i || InBlock(ms, i)
  {
    if j < i {
      Covers(ms, j, i, i + 1);
    }
  }

  /** At most one block scalar reaches a line. */
  lemma ReachesOne(ms: seq<Mark>, j: nat, h: nat, i: nat)
    requires i <= |ms| && Reaches(ms, j, i) && Reaches(ms, h, i)
    ensures j == h
  {
    if j < h {
      Covers(ms, j, h, i);
    }
    if h < j {
      Covers(ms, h, j, i);
    }
  }

  /** The state of the scan in front of line `i` is right: it is in a block exactly when one reaches
      here, and knows the indentation of its header. */
  ghost predicate ScanRight(ms: seq<Mark>, i: nat, st: Scan)
    requires i <= |ms|
  {
    && (st.inBlock ==> exists j: nat :: Reaches(ms, j, i) && st.blockIndent == ms[j].indent)
    && (!st.inBlock ==> forall j: nat :: !Reaches(ms, j, i))
  }

  /** The state behind a line, which stays in the block or not. */
  function StateBehind(st: Scan, m: Mark, stays: bool): Scan {
    if stays then st else if m.header then Scan(true, m.indent) else Scan(false, st.blockIndent)
  }

  predicate Stays(st: Scan, m: Mark) {
    st.inBlock && (m.blank || m.indent > st.blockIndent)
  }

  lemma StaysWhen(ms: seq<Mark>, i: nat, st: Scan)
    requires i < |ms| && ScanRight(ms, i, st)
    ensures Stays(st, ms[i]) <==> InBlock(ms, i)
  {
    if st.inBlock {
      var j: nat :| Reaches(ms, j, i) && st.blockIndent == ms[j].indent;
      if h: nat :| Reaches(ms, h, i) && Below(ms[i], ms[h]) {
        ReachesOne(ms, j, h, i);
      }
    }
  }

  lemma ScanStep(ms: seq<Mark>, i: nat, st: Scan)
    requires i < |ms| && ScanRight(ms, i, st)
    ensures ScanRight(ms, i + 1, StateBehind(st, ms[i], InBlock(ms, i)))
  {
    if InBlock(ms, i) {
      ScanStays(ms, i, st);
    } else {
      ScanGoesOn(ms, i, st);
    }
  }

  lemma ScanStays(ms: seq<Mark>, i: nat, st: Scan)
    requires i < |ms| && ScanRight(ms, i, st) && InBlock(ms, i)
    ensures ScanRight(ms, i + 1, st)
  {
    var j: nat :| Reaches(ms, j, i) && Below(ms[i], ms[j]);
    var h: nat :| Reaches(ms, h, i) && st.blockIndent == ms[h].indent;
    ReachesOne(ms, j, h, i);
    ReachesOn(ms, j, i);
  }

  lemma ReachesOn(ms: seq<Mark>, j: nat, i: nat)
    requires i < |ms| && Reaches(ms, j, i) && Below(ms[i], ms[j])
    ensures Reaches(ms, j, i + 1)
  {
  }

  lemma ScanGoesOn(ms: seq<Mark>, i: nat, st: Scan)
    requires i < |ms| && !InBlock(ms, i)
    ensures ScanRight(ms, i + 1, StateBehind(st, ms[i], false))
  {
    forall j: nat {:trigger Reaches(ms, j, i + 1)} | Reaches(ms, j, i + 1) ensures j == i {
      CoveredOrHere(ms, j, i);
    }
    if ms[i].header {
      assert Reaches(ms, i, i + 1);
    }
  }

  lemma BlankWhen(line: string)
    ensures LStrip(line) == [] <==> AllSpace(line)
  {
    LStripSplit(line);
    if LStrip(line) == [] {
      assert line == Spaces(line);
    } else {
      assert LStrip(line)[0] in line;
    }
  }

  /** What scanning a line does, said of its mark. */
  lemma StepMark(st: Scan, line: string, cs: Classes)
    requires WordClass(cs.word)
    ensures StaysInBlock(st, line) <==> Stays(st, MarkOf(line, cs.word))
    ensures StepLine(st, line, cs).0 == StateBehind(st, MarkOf(line, cs.word), StaysInBlock(st, line))
  {
    BlankWhen(line);
    KindWhen(line, cs);
  }

  // ----- the whole text --------------------------------------------------------------------

  /** A line in a block scalar is the same line, and any other is rewritten exactly when it needs
      quotes. */
  ghost predicate Meant(ms: seq<Mark>, i: nat, line: string, out: string, cs: Classes)
    requires i < |ms|
  {
    if InBlock(ms, i) then out == line else Treated(line, out, cs)
  }

  lemma LineMeant(ms: seq<Mark>, i: nat, st: Scan, line: string, cs: Classes)
    requires WordClass(cs.word) && DigitClass(cs.digit)
    requires i < |ms| && ms[i] == MarkOf(line, cs.word) && ScanRight(ms, i, st)
    ensures Meant(ms, i, line, StepLine(st, line, cs).1, cs)
    ensures ScanRight(ms, i + 1, StepLine(st, line, cs).0)
  {
    StepMark(st, line, cs);
    StaysWhen(ms, i, st);
    ScanStep(ms, i, st);
    if !StaysInBlock(st, line) {
      LineTreated(st, line, cs);
    }
  }

  /** The marks from `i` on are those of `lines`. */
  ghost predicate Marked(ms: seq<Mark>, i: nat, lines: seq<string>, word: char -> bool) {
    i + |lines| == |ms| && forall k :: 0 <= k < |lines| ==> ms[i + k] == MarkOf(lines[k], word)
  }

  ghost predicate MeantFrom(ms: seq<Mark>, i: nat, lines: seq<string>, out: seq<string>, cs: Classes)
    requires i + |lines| == |ms|
    decreases |lines|
  {
    if lines == [] then out == []
    else out != [] && Meant(ms, i, lines[0], out[0], cs) && MeantFrom(ms, i + 1, lines[1..], out[1..], cs)
  }

  lemma {:induction false} MeantAt(ms: seq<Mark>, i: nat, lines: seq<string>, out: seq<string>, k: nat, cs: Classes)
    requires i + |lines| == |ms| && k < |lines| && |out| == |lines| && MeantFrom(ms, i, lines, out, cs)
    ensures Meant(ms, i + k, lines[k], out[k], cs)
    decreases k
  {
    if k > 0 {
      MeantAt(ms, i + 1, lines[1..], out[1..], k - 1, cs);
    }
  }

  lemma MarkedTail(ms: seq<Mark>, i: nat, lines: seq<string>, word: char -> bool)
    requires lines != [] && Marked(ms, i, lines, word)
    ensures ms[i] == MarkOf(lines[0], word) && Marked(ms, i + 1, lines[1..], word)
  {
    assert ms[i + 0] == MarkOf(lines[0], word);
    forall k | 0 <= k < |lines| - 1 ensures ms[i + 1 + k] == MarkOf(lines[1..][k], word) {
      assert ms[i + (k + 1)] == MarkOf(lines[k + 1], word);
    }
  }

  /** The output, line by line, from line `i` on. */
  lemma {:induction false} LinesMeant(ms: seq<Mark>, i: nat, st: Scan, lines: seq<string>, cs: Classes)
    requires WordClass(cs.word) && DigitClass(cs.digit) && Marked(ms, i, lines, cs.word) && ScanRight(ms, i, st)
    ensures MeantFrom(ms, i, lines, FixLines(lines, st, cs), cs)
    decreases |lines|
  {
    if lines != [] {
      var (next, o) := StepLine(st, lines[0], cs);
      MarkedTail(ms, i, lines, cs.word);
      LineMeant(ms, i, st, lines[0], cs);
      LinesMeant(ms, i + 1, next, lines[1..], cs);
      assert FixLines(lines, st, cs)[1..] == FixLines(lines[1..], next, cs);
    }
  }

  /** `out` is what the fixer should make of `lines`. */
  ghost predicate AllMeant(lines: seq<string>, out: seq<string>, cs: Classes) {
    |out| == |lines| && forall i :: 0 <= i < |lines| ==> Meant(Marks(lines, cs.word), i, lines[i], out[i], cs)
  }

  lemma FixLinesMeant(lines: seq<string>, cs: Classes)
    requires WordClass(cs.word) && DigitClass(cs.digit)
    ensures AllMeant(lines, FixLines(lines, Scan(false, 0), cs), cs)
  {
    var ms, out := Marks(lines, cs.word), FixLines(lines, Scan(false, 0), cs);
    LinesMeant(ms, 0, Scan(false, 0), lines, cs);
    forall i | 0 <= i < |lines| ensures Meant(ms, i, lines[i], out[i], cs) {
      MeantAt(ms, 0, lines, out, i, cs);
    }
  }

  /** Lines come out as they went in exactly when each of them lies in a block scalar or needs no
      quotes. */
  lemma UnchangedWhen(lines: seq<string>, cs: Classes)
    requires WordClass(cs.word) && DigitClass(cs.digit)
    ensures FixLines(lines, Scan(false, 0), cs) == lines <==>
            forall i :: 0 <= i < |lines| ==> InBlock(Marks(lines, cs.word), i) || !NeedsQuotes(lines[i], cs)
  {
    var ms, out := Marks(lines, cs.word), FixLines(lines, Scan(false, 0), cs);
    FixLinesMeant(lines, cs);
    forall i | 0 <= i < |lines| ensures out[i] == lines[i] <==> InBlock(ms, i) || !NeedsQuotes(lines[i], cs) {
      assert Meant(ms, i, lines[i], out[i], cs);
    }
  }

  /** What the fixer does to any text: it splits it into its lines, treats each as said, and joins
      them again. */
  lemma FixerMeaning(text: string, cs: Classes)
    requires WordClass(cs.word) && DigitClass(cs.digit)
    ensures exists lines, out ::
              IsLines(lines) && Join(lines) == text && AllMeant(lines, out, cs) && Join(out) == Fix(text, cs)
  {
    var lines := SplitLines(text);
    SplitIsLines(text);
    FixLinesMeant(lines, cs);
  }
}
