/** The patterns of the YAML value quoter as text: what a key line, a block scalar header, a remark,
    a keyword and a number are, said by how they are written, and that its scanning finds just that. */
module YamlFixerGrammar {
  import opened PyText
  import opened SeqLaws
  import opened Wrappers
  import opened YamlFixer
  import opened YamlFixerLaws

  // ----- white space -----------------------------------------------------------------------

  /** Where lines end: line feed, vertical tab, form feed, carriage return, the file, group and record
      separators, next line, and the line and paragraph separators. */
  lemma BreaksAre(c: char)
    ensures IsBreak(c) <==> c in ['\n', '\U{B}', '\U{C}', '\r', '\U{1C}', '\U{1D}', '\U{1E}', '\U{85}', '\U{2028}', '\U{2029}']
  {
  }

  /** White space is that, and tab, unit separator, and the spaces of Unicode. */
  lemma WhiteSpaceIs(c: char)
    ensures IsSpace(c) <==>
              || IsBreak(c)
              || c in ['\t', '\U{1F}', ' ', '\U{A0}', '\U{1680}', '\U{202F}', '\U{205F}', '\U{3000}']
              || c in ['\U{2000}', '\U{2001}', '\U{2002}', '\U{2003}', '\U{2004}', '\U{2005}', '\U{2006}',
                       '\U{2007}', '\U{2008}', '\U{2009}', '\U{200A}']
  {
    BreaksAre(c);
  }

  // ----- key lines -------------------------------------------------------------------------

  /** White space, a key, a colon, and whatever follows. */
  predicate KeyText(r: string, k: KeyLine, word: char -> bool) {
    && r == k.indent + (k.key + (":" + k.rest))
    && AllSpace(k.indent) && k.key != [] && forall c <- k.key :: word(c) || c == '_' || c == '-'
  }

  lemma KeyWhen(r: string, k: KeyLine, word: char -> bool)
    requires WordClass(word)
    ensures ParseKey(r, word) == Some(k) <==> KeyText(r, k, word)
  {
    if ParseKey(r, word) == Some(k) {
      ParseKeyParts(r, word);
    }
    if KeyText(r, k, word) {
      assert k.key[0] in k.key;
      var t := k.key + (":" + k.rest);
      LStripPieces(k.indent, t);
      KeyRunPieces(k.key, ":" + k.rest, word);
      SpacesPieces(k.indent, t);
      assert t[|k.key| + 1..] == k.rest;
    }
  }

  /** At least one white space, then a value. */
  predicate ValueText(rest: string, gap: string, v: string) {
    rest == gap + v && gap != [] && AllSpace(gap) && v != [] && !IsSpace(v[0])
  }

  lemma ValueWhen(rest: string, v: string)
    ensures ValueOf(rest) == Some(v) <==> exists gap :: ValueText(rest, gap, v)
  {
    if ValueOf(rest) == Some(v) {
      LStripSplit(rest);
      assert ValueText(rest, Spaces(rest), v);
    }
    if gap :| ValueText(rest, gap, v) {
      assert rest[0] == gap[0] && gap[0] in gap;
      LStripPieces(gap, v);
    }
  }

  /** `|` or `>` after any white space, and behind it nothing, or any white space and `#`. */
  predicate HeaderText(rest: string, gap: string, bar: char, more: string) {
    rest == gap + ([bar] + more) && AllSpace(gap) && (bar == '|' || bar == '>')
  }

  predicate NoteText(more: string, gap: string, note: string) {
    more == gap + note && AllSpace(gap) && note != [] && note[0] == '#'
  }

  lemma HeaderIs(rest: string)
    ensures IsBlockHeader(rest) <==>
              exists gap, bar, more :: HeaderText(rest, gap, bar, more) && (more == [] || exists g, n :: NoteText(more, g, n))
  {
    if IsBlockHeader(rest) {
      var v := LStrip(rest);
      LStripSplit(rest);
      HeadTail(v);
      assert HeaderText(rest, Spaces(rest), v[0], v[1..]);
      if v[1..] != [] {
        LStripSplit(v[1..]);
        assert NoteText(v[1..], Spaces(v[1..]), LStrip(v[1..]));
      }
    }
    if gap, bar, more :| HeaderText(rest, gap, bar, more) && (more == [] || exists g, n :: NoteText(more, g, n)) {
      LStripPieces(gap, [bar] + more);
      assert ([bar] + more)[1..] == more;
      if more != [] {
        var g, n :| NoteText(more, g, n);
        LStripPieces(g, n);
      }
    }
  }

  // ----- remarks ---------------------------------------------------------------------------

  /** An inline comment starts at `i`: white space up to a `#` at `j`, and white space behind it. */
  predicate RemarkAt(v: string, i: int, j: int) {
    0 <= i < j && j + 1 < |v| && v[j] == '#' && IsSpace(v[j + 1]) && AllSpace(v[i..j])
  }

  ghost predicate HasRemark(v: string) {
    exists i, j :: RemarkAt(v, i, j)
  }

  lemma HashIsRemark(v: string, i: nat)
    requires i <= |v|
    ensures HashAfter(v, i) <==> exists j :: RemarkAt(v, i, j)
  {
    var s := v[i..];
    var t := LStrip(s);
    LStripSplit(s);
    if HashAfter(v, i) {
      var j := |v| - |t|;
      SpacesAre(v, i, j, t);
      assert RemarkAt(v, i, j);
    }
    if j :| RemarkAt(v, i, j) {
      assert s == v[i..j] + v[j..];
      LStripPieces(v[i..j], v[j..]);
    }
  }

  lemma SpacesAre(v: string, i: nat, j: nat, t: string)
    requires i <= j <= |v| && v[i..] == Spaces(v[i..]) + t && |t| == |v| - j && AllSpace(Spaces(v[i..]))
    ensures v[j..] == t && AllSpace(v[i..j])
  {
    var s := v[i..];
    assert s[..j - i] == Spaces(s) && s[j - i..] == t;
    assert v[i..j] == s[..j - i] && v[j..] == s[j - i..];
  }

  /** The value part and the comment of a value with a remark: the text before the first remark, and
      the rest from its `#` on behind two spaces. */
  predicate Split(v: string, val: string, comment: string, j: int) {
    && RemarkAt(v, |val|, j) && val == v[..|val|] && comment == "  " + v[j..]
    && val != [] && !IsSpace(val[|val| - 1])
  }

  lemma SplitWhen(v: string)
    requires v != [] && !IsSpace(v[0]) && !IsSpace(v[|v| - 1])
    ensures var (val, comment) := SplitComment(v);
            && (HasRemark(v) ==>
                  (exists j :: Split(v, val, comment, j)) && forall i, k :: RemarkAt(v, i, k) ==> |val| <= i)
            && (!HasRemark(v) ==> val == v && comment == [])
  {
    var k := CommentStart(v, 0);
    FirstRemark(v);
    if k < |v| {
      CommentAfterText(v);
      CommentParts(v, k);
      HashIsRemark(v, k);
      var j :| RemarkAt(v, k, j);
      CommentIsTail(v, k, j);
      assert Split(v, SplitComment(v).0, SplitComment(v).1, j);
    }
  }

  /** The scan for a comment ends at the first remark. */
  lemma FirstRemark(v: string)
    ensures forall i, j :: RemarkAt(v, i, j) ==> CommentStart(v, 0) <= i
    ensures CommentStart(v, 0) < |v| ==> HasRemark(v)
  {
    var k := CommentStart(v, 0);
    forall i, j | RemarkAt(v, i, j) ensures k <= i {
      HashIsRemark(v, i);
      if i < k {
        CommentStartFirst(v, 0, i);
      }
    }
    HashIsRemark(v, k);
  }

  lemma CommentIsTail(v: string, k: nat, j: int)
    requires RemarkAt(v, k, j) && !IsSpace(v[|v| - 1])
    ensures Strip(v[k..]) == v[j..]
  {
    assert v[k..] == v[k..j] + v[j..];
    LStripPieces(v[k..j], v[j..]);
    StripLeft(v[k..]);
  }

  /** A colon followed by a space. */
  predicate ColonSpaceAt(v: string, i: int) {
    0 <= i && i + 1 < |v| && v[i] == ':' && v[i + 1] == ' '
  }

  ghost predicate HasColonSpace(v: string) {
    exists i :: ColonSpaceAt(v, i)
  }

  lemma ColonWhen(v: string)
    ensures Contains(v, ": ") <==> HasColonSpace(v)
  {
    forall i | 0 <= i <= |v| ensures OccursAt(v, ": ", i) <==> ColonSpaceAt(v, i) {
      if i + 2 <= |v| {
        assert v[i..i + 2] == [v[i], v[i + 1]];
      }
    }
    if i :| ColonSpaceAt(v, i) {
      assert OccursAt(v, ": ", i);
    }
  }

  // ----- keywords --------------------------------------------------------------------------

  /** `w` in small or capital letters, or any mixture. */
  predicate Spells(v: string, w: string) {
    |v| == |w| && forall i :: 0 <= i < |w| ==> v[i] == w[i] || ('a' <= w[i] <= 'z' && v[i] == w[i] - 'a' + 'A')
  }

  predicate KeywordText(v: string) {
    || Spells(v, "true") || Spells(v, "false") || Spells(v, "null") || v == "~"
    || Spells(v, "yes") || Spells(v, "no") || Spells(v, "on") || Spells(v, "off")
  }

  lemma {:induction false} LowerAt(v: string)
    ensures |Lower(v)| == |v|
    ensures forall i :: 0 <= i < |v| ==> Lower(v)[i] == if 'A' <= v[i] <= 'Z' then v[i] - 'A' + 'a' else v[i]
  {
    if v != [] {
      LowerAt(v[1..]);
    }
  }

  lemma LowerSpells(v: string, w: string)
    requires forall i :: 0 <= i < |w| ==> !('A' <= w[i] <= 'Z')
    ensures Lower(v) == w <==> Spells(v, w)
  {
    LowerAt(v);
    if Spells(v, w) {
      assert Lower(v) == w;
    }
  }

  lemma KeywordWhen(v: string)
    ensures IsKeyword(v) <==> KeywordText(v)
  {
    LowerSpells(v, "true");
    LowerSpells(v, "false");
    LowerSpells(v, "null");
    LowerSpells(v, "~");
    LowerSpells(v, "yes");
    LowerSpells(v, "no");
    LowerSpells(v, "on");
    LowerSpells(v, "off");
    assert Spells(v, "~") <==> v == "~";
  }

  // ----- numbers ---------------------------------------------------------------------------

  /** A class of digits has no sign, point or exponent letter in it. */
  ghost predicate DigitClass(digit: char -> bool) {
    forall c :: digit(c) ==> c !in "+-.eE" && !IsSpace(c)
  }

  predicate AllDigits(s: string, digit: char -> bool) {
    forall c <- s :: digit(c)
  }

  /** Nothing, or `e` or `E`, perhaps a sign, and digits. */
  predicate ExponentText(s: string, digit: char -> bool) {
    s == [] ||
    (|s| > 1 && s[0] in "eE" &&
     (AllDigits(s[1..], digit) || (|s| > 2 && s[1] in "+-" && AllDigits(s[2..], digit))))
  }

  /** Nothing, or a point and any digits. */
  predicate FractionText(s: string, digit: char -> bool) {
    s == [] || (s[0] == '.' && AllDigits(s[1..], digit))
  }

  /** Digits, a fraction or both, with one digit at least; perhaps an exponent. */
  predicate UnsignedParts(t: string, whole: string, fraction: string, exponent: string, digit: char -> bool) {
    && t == whole + (fraction + exponent)
    && AllDigits(whole, digit) && FractionText(fraction, digit) && (whole != [] || |fraction| > 1)
    && ExponentText(exponent, digit)
  }

  ghost predicate UnsignedText(t: string, digit: char -> bool) {
    exists whole, fraction, exponent :: UnsignedParts(t, whole, fraction, exponent, digit)
  }

  /** Perhaps a sign, then a number without one. */
  ghost predicate NumberText(v: string, digit: char -> bool) {
    exists sign, t :: v == sign + t && (sign == "" || sign == "+" || sign == "-") && UnsignedText(t, digit)
  }

  lemma {:induction false} DigitsRun(s: string, digit: char -> bool)
    ensures var n := Digits(s, digit); AllDigits(s[..n], digit) && (n < |s| ==> !digit(s[n]))
  {
    if s != [] && digit(s[0]) {
      DigitsRun(s[1..], digit);
      var n := Digits(s, digit);
      assert s[..n] == [s[0]] + s[1..][..n - 1];
    }
  }

  lemma {:induction false} DigitsPieces(a: string, b: string, digit: char -> bool)
    requires AllDigits(a, digit) && (b != [] ==> !digit(b[0]))
    ensures Digits(a + b, digit) == |a| && (a + b)[|a|..] == b
  {
    if a == [] {
      assert a + b == b;
    } else {
      assert a[0] in a;
      ConcatHead(a, b);
      DigitsPieces(a[1..], b, digit);
      DropPast(a, b, |a|);
    }
  }

  lemma AllCounted(s: string, digit: char -> bool)
    ensures Digits(s, digit) == |s| <==> AllDigits(s, digit)
  {
    DigitsRun(s, digit);
    assert s[..|s|] == s;
    if AllDigits(s, digit) {
      DigitsPieces(s, [], digit);
      assert s + [] == s;
    }
  }

  lemma ExponentWhen(s: string, digit: char -> bool)
    requires DigitClass(digit)
    ensures IsExponent(s, digit) <==> ExponentText(s, digit)
  {
    if |s| > 1 {
      AllCounted(s[1..], digit);
      AllCounted(s[2..], digit);
      if s[1] in "+-" {
        assert s[1] in s[1..] by { assert s[1..][0] == s[1]; }
      }
    }
  }

  lemma FractionFound(u: string, digit: char -> bool) returns (fraction: string, exponent: string)
    requires DigitClass(digit) && u != [] && u[0] == '.'
    ensures var m := Digits(u[1..], digit);
            && u == fraction + exponent && |fraction| == m + 1 && FractionText(fraction, digit)
            && exponent == u[1..][m..]
  {
    var m := Digits(u[1..], digit);
    DigitsRun(u[1..], digit);
    fraction, exponent := ['.'] + u[1..][..m], u[1..][m..];
    assert fraction[1..] == u[1..][..m];
  }

  lemma UnsignedFound(t: string, digit: char -> bool)
    requires DigitClass(digit) && IsUnsigned(t, digit)
    ensures UnsignedText(t, digit)
  {
    var n := Digits(t, digit);
    DigitsRun(t, digit);
    var u := t[n..];
    TakeDrop(t, n);
    assert n == 0 ==> u == t;
    if u != [] && u[0] == '.' {
      var fraction, exponent := FractionFound(u, digit);
      ExponentWhen(exponent, digit);
      assert UnsignedParts(t, t[..n], fraction, exponent, digit);
    } else {
      ExponentWhen(u, digit);
      assert [] + u == u;
      assert UnsignedParts(t, t[..n], [], u, digit);
    }
  }

  /** What follows the digits does not start with one. */
  lemma NoDigitFirst(fraction: string, exponent: string, digit: char -> bool)
    requires DigitClass(digit) && FractionText(fraction, digit) && ExponentText(exponent, digit)
    ensures var u := fraction + exponent; u != [] ==> !digit(u[0])
    ensures exponent != [] ==> !digit(exponent[0]) && exponent[0] != '.'
  {
    var u := fraction + exponent;
    if u != [] {
      assert u[0] == (if fraction != [] then '.' else exponent[0]);
    }
  }

  lemma FractionRead(fraction: string, exponent: string, digit: char -> bool)
    requires DigitClass(digit) && FractionText(fraction, digit) && fraction != [] && ExponentText(exponent, digit)
    ensures var u := fraction + exponent;
            u != [] && u[0] == '.' && Digits(u[1..], digit) == |fraction| - 1 && u[1..][|fraction| - 1..] == exponent
  {
    NoDigitFirst(fraction, exponent, digit);
    ConcatHead(fraction, exponent);
    DigitsPieces(fraction[1..], exponent, digit);
  }

  lemma UnsignedRead(t: string, whole: string, fraction: string, exponent: string, digit: char -> bool)
    requires DigitClass(digit) && UnsignedParts(t, whole, fraction, exponent, digit)
    ensures IsUnsigned(t, digit)
  {
    NoDigitFirst(fraction, exponent, digit);
    DigitsPieces(whole, fraction + exponent, digit);
    ExponentWhen(exponent, digit);
    if fraction != [] {
      FractionRead(fraction, exponent, digit);
      assert whole == [] ==> t == fraction + exponent;
    } else {
      assert fraction + exponent == exponent;
    }
  }

  lemma UnsignedWhen(t: string, digit: char -> bool)
    requires DigitClass(digit)
    ensures IsUnsigned(t, digit) <==> UnsignedText(t, digit)
    ensures UnsignedText(t, digit) ==> t != [] && (digit(t[0]) || t[0] == '.')
  {
    if IsUnsigned(t, digit) {
      UnsignedFound(t, digit);
    }
    if whole, fraction, exponent :| UnsignedParts(t, whole, fraction, exponent, digit) {
      UnsignedRead(t, whole, fraction, exponent, digit);
      assert t[0] == (if whole != [] then whole[0] else fraction[0]);
      assert whole != [] ==> whole[0] in whole;
    }
  }

  lemma NumberWhen(v: string, digit: char -> bool)
    requires DigitClass(digit)
    ensures IsNumber(v, digit) <==> NumberText(v, digit)
  {
    var signed := v != [] && (v[0] == '+' || v[0] == '-');
    var t := if signed then v[1..] else v;
    UnsignedWhen(t, digit);
    if IsNumber(v, digit) {
      assert v == (if signed then [v[0]] else "") + t;
    }
    if sign, r :| v == sign + r && (sign == "" || sign == "+" || sign == "-") && UnsignedText(r, digit) {
      UnsignedWhen(r, digit);
      if sign != [] {
        ConcatHead(sign, r);
        assert v[1..] == r;
      } else {
        assert v == r;
      }
    }
  }
}
