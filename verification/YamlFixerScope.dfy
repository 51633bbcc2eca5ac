/** Which values the YAML value quoter leaves alone and which it reaches: nothing it should quote
    is left over, block scalars it recognises are kept, and keywords and numbers are kept exactly
    when no inline comment follows them. */
module YamlFixerScope {
  import opened PyText
  import opened SeqLaws
  import opened Wrappers
  import opened YamlFixer
  import opened YamlFixerLaws

  // ----- nothing is left to quote ----------------------------------------------------------

  /** A value no second look would quote: it is kept as it is, or holds neither a colon followed
      by a space nor an inline comment. */
  predicate NeedsNothing(v: string, digit: char -> bool)
    requires v != []
  {
    KeptValue(v, digit) || (!Contains(v, ": ") && CommentStart(v, 0) == |v|)
  }

  lemma KeptMeansNothing(out: string, k: KeyLine, cs: Classes)
    requires WordClass(cs.word) && ParseKey(RStrip(out), cs.word) == Some(k) && ValueOf(k.rest).Some?
    requires FixKeyLine(out, k, cs) == out
    ensures ValueOf(k.rest).value != [] && NeedsNothing(ValueOf(k.rest).value, cs.digit)
  {
    var v := ValueOf(k.rest).value;
    ValueParts(out, k, cs);
    var (val, comment) := SplitComment(v);
    QuotedLine(out, k, val, comment, cs);
    QuotedRestStart(val, comment);
  }

  lemma QuotedRestStart(val: string, comment: string)
    ensures var v := ValueOf(QuotedRest(val, comment)); v.Some? && v.value != [] && v.value[0] == '"'
  {
    QuotedValue(val, comment);
  }

  /** Outside block scalars, every key line the fixer puts out has a value that needs no quotes or
      has them. */
  lemma NothingLeftToQuote(st: Scan, line: string, cs: Classes)
    requires WordClass(cs.word) && !StaysInBlock(st, line)
    ensures var out := StepLine(st, line, cs).1;
            KindOf(out, cs.word).Keyed? && ValueOf(KindOf(out, cs.word).k.rest).Some? ==>
              var v := ValueOf(KindOf(out, cs.word).k.rest).value;
              v != [] && NeedsNothing(v, cs.digit)
  {
    var out := StepLine(st, line, cs).1;
    if KindOf(out, cs.word).Keyed? && ValueOf(KindOf(out, cs.word).k.rest).Some? {
      var k := KindOf(out, cs.word).k;
      if out == line {
        assert FixKeyLine(line, k, cs) == line;
      } else {
        FixKeyLineCases(line, KindOf(line, cs.word).k, cs);
        QuotedAgain(line, KindOf(line, cs.word).k, out, cs);
      }
      KeptMeansNothing(out, k, cs);
    }
  }

  // ----- block scalars ---------------------------------------------------------------------

  /** A recognised block scalar, its header and all its lines, comes out as it went in, whatever
      the lines look like. */
  lemma {:induction false} BlockScalarKept(header: string, body: seq<string>, st: Scan, cs: Classes)
    requires !StaysInBlock(st, header) && KindOf(header, cs.word) == Header
    requires forall l <- body :: LStrip(l) == [] || |l| - |LStrip(l)| > |header| - |LStrip(header)|
    ensures FixLines([header] + body, st, cs) == [header] + body
  {
    var next := Scan(true, |header| - |LStrip(header)|);
    ConcatHead([header], body);
    BlockLinesKept(body, next, cs);
    assert ([header] + body)[1..] == body;
  }

  lemma {:induction false} BlockLinesKept(body: seq<string>, st: Scan, cs: Classes)
    requires st.inBlock && forall l <- body :: LStrip(l) == [] || |l| - |LStrip(l)| > st.blockIndent
    ensures FixLines(body, st, cs) == body
  {
    if body != [] {
      assert body[0] in body;
      BlockLinesKept(body[1..], st, cs);
      HeadTail(body);
    }
  }

  // ----- keywords and numbers --------------------------------------------------------------

  predicate NoSpaces(s: string) {
    forall c <- s :: !IsSpace(c)
  }

  lemma {:induction false} LowerSpaces(s: string)
    ensures NoSpaces(Lower(s)) ==> NoSpaces(s)
  {
    if s != [] {
      LowerSpaces(s[1..]);
      HeadTail(s);
      ConcatHead([Lower(s)[0]], Lower(s[1..]));
      assert Lower(s)[0] in Lower(s);
      assert forall c <- Lower(s[1..]) :: c in Lower(s);
    }
  }

  lemma KeywordSpaces(v: string)
    requires IsKeyword(v)
    ensures NoSpaces(v)
  {
    LowerSpaces(v);
  }

  lemma {:induction false} DigitsSpaces(s: string, digit: char -> bool)
    requires forall c :: digit(c) ==> !IsSpace(c)
    ensures NoSpaces(s[Digits(s, digit)..]) ==> NoSpaces(s)
  {
    if s != [] && digit(s[0]) {
      DigitsSpaces(s[1..], digit);
      assert s[Digits(s, digit)..] == s[1..][Digits(s[1..], digit)..];
      HeadTail(s);
    } else {
      assert s[0..] == s;
    }
  }

  lemma TailSpaces(s: string)
    requires s != [] && !IsSpace(s[0]) && NoSpaces(s[1..])
    ensures NoSpaces(s)
  {
    HeadTail(s);
  }

  lemma ExponentSpaces(s: string, digit: char -> bool)
    requires (forall c :: digit(c) ==> !IsSpace(c)) && IsExponent(s, digit)
    ensures NoSpaces(s)
  {
    if s != [] {
      var signed := |s| > 1 && (s[1] == '+' || s[1] == '-');
      var t := if signed then s[2..] else s[1..];
      DigitsSpaces(t, digit);
      assert t[|t|..] == [];
      if signed {
        assert s[1..][1..] == t;
        TailSpaces(s[1..]);
      }
      TailSpaces(s);
    }
  }

  lemma UnsignedSpaces(t: string, digit: char -> bool)
    requires (forall c :: digit(c) ==> !IsSpace(c)) && IsUnsigned(t, digit)
    ensures NoSpaces(t)
  {
    var n := Digits(t, digit);
    if n > 0 {
      var u := t[n..];
      if u != [] && u[0] == '.' {
        ExponentSpaces(u[1..][Digits(u[1..], digit)..], digit);
        DigitsSpaces(u[1..], digit);
        TailSpaces(u);
      } else {
        ExponentSpaces(u, digit);
      }
      DigitsSpaces(t, digit);
    } else {
      ExponentSpaces(t[1..][Digits(t[1..], digit)..], digit);
      DigitsSpaces(t[1..], digit);
      TailSpaces(t);
    }
  }

  lemma NumberSpaces(v: string, digit: char -> bool)
    requires (forall c :: digit(c) ==> !IsSpace(c)) && IsNumber(v, digit)
    ensures NoSpaces(v)
  {
    if v != [] && (v[0] == '+' || v[0] == '-') {
      UnsignedSpaces(v[1..], digit);
      TailSpaces(v);
    } else {
      UnsignedSpaces(v, digit);
    }
  }

  /** A value with white space inside is no keyword and no number. */
  lemma SpacedNotTyped(v: string, digit: char -> bool)
    requires !NoSpaces(v) && forall c :: digit(c) ==> !IsSpace(c)
    ensures !IsKeyword(v) && !IsNumber(v, digit)
  {
    if IsKeyword(v) {
      KeywordSpaces(v);
    }
    if IsNumber(v, digit) {
      NumberSpaces(v, digit);
    }
  }

  lemma GapInside(v: string, val: string, comment: string)
    requires HasComment(v, val, comment)
    ensures !NoSpaces(v)
  {
    var gap :| HasCommentWith(v, val, comment, gap);
    assert v[|val|] == gap[0] && gap[0] in gap;
    assert v[|val|] in v;
  }

  /** A keyword or number, the values the fixer says it skips, is kept exactly when no inline
      comment follows it: with one it comes back as a quoted string. */
  lemma TypedValueKept(line: string, k: KeyLine, cs: Classes)
    requires WordClass(cs.word) && forall c :: cs.digit(c) ==> !IsSpace(c)
    requires ParseKey(RStrip(line), cs.word) == Some(k) && ValueOf(k.rest).Some?
    requires ValueOf(k.rest).value != [] && ValueOf(k.rest).value[0] !in "'\"{["
    requires var val := SplitComment(ValueOf(k.rest).value).0; IsKeyword(val) || IsNumber(val, cs.digit)
    ensures var (val, comment) := SplitComment(ValueOf(k.rest).value);
            FixKeyLine(line, k, cs) == if comment == [] then line else Quoted(k.indent, k.key, val, comment)
  {
    var v := ValueOf(k.rest).value;
    var (val, comment) := SplitComment(v);
    QuotedLine(line, k, val, comment, cs);
    if comment != [] {
      GapInside(v, val, comment);
      SpacedNotTyped(v, cs.digit);
    }
  }

  // ----- values with a colon ---------------------------------------------------------------

  lemma ColonSpaces(v: string)
    requires Contains(v, ": ")
    ensures !NoSpaces(v)
  {
    var i :| 0 <= i <= |v| && OccursAt(v, ": ", i);
    ColonAt(v, i);
    assert v[i + 1] in v;
  }

  lemma ColonAt(v: string, i: nat)
    ensures OccursAt(v, ": ", i) ==> i + 2 <= |v| && v[i] == ':' && v[i + 1] == ' '
  {
    if OccursAt(v, ": ", i) {
      assert v[i..i + 2][0] == v[i] && v[i..i + 2][1] == v[i + 1];
    }
  }

  /** What the fixer is for: a bare value whose value part holds a colon followed by a space is
      quoted. */
  lemma ColonValueQuoted(line: string, k: KeyLine, cs: Classes)
    requires WordClass(cs.word) && forall c :: cs.digit(c) ==> !IsSpace(c)
    requires ParseKey(RStrip(line), cs.word) == Some(k) && ValueOf(k.rest).Some?
    requires ValueOf(k.rest).value != [] && ValueOf(k.rest).value[0] !in "'\"{["
    requires Contains(SplitComment(ValueOf(k.rest).value).0, ": ")
    ensures var (val, comment) := SplitComment(ValueOf(k.rest).value);
            FixKeyLine(line, k, cs) == Quoted(k.indent, k.key, val, comment) && FixKeyLine(line, k, cs) != line
  {
    var v := ValueOf(k.rest).value;
    var (val, comment) := SplitComment(v);
    QuotedLine(line, k, val, comment, cs);
    ColonSpaces(val);
    PrefixSpaces(val, v);
    SpacedNotTyped(v, cs.digit);
    QuotedRestStart(val, comment);
  }

  lemma PrefixSpaces(val: string, v: string)
    requires val <= v && !NoSpaces(val)
    ensures !NoSpaces(v)
  {
    var c :| c in val && IsSpace(c);
    assert c in v;
  }
}
