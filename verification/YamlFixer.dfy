/** The YAML value quoter written out in _patch_open_command.py: one pass over the lines, with the
    state of block scalars, that puts double quotes around values a YAML reader would misread. */
module YamlFixer {
  import opened SeqLaws
  import opened Wrappers
  import opened PyText

  // ----- lines -----------------------------------------------------------------------------

  /** The characters `str.splitlines` splits at. */
  predicate IsBreak(c: char) {
    '\n' <= c <= '\r' || '\U{1C}' <= c <= '\U{1E}' || c == '\U{85}' || c == '\U{2028}' || c == '\U{2029}'
  }

  predicate NoBreaks(s: string) {
    forall c <- s :: !IsBreak(c)
  }

  /** How long the line break at the head of `s` is: CR LF is one break. */
  function BreakLength(s: string): nat
    requires s != [] && IsBreak(s[0])
  {
    if |s| >= 2 && s[0] == '\r' && s[1] == '\n' then 2 else 1
  }

  /** Where the first line of a text ends, its break included. */
  function FirstLine(s: string): (n: nat)
    requires s != []
    ensures 0 < n <= |s|
  {
    if IsBreak(s[0]) then BreakLength(s)
    else if |s| == 1 then 1
    else 1 + FirstLine(s[1..])
  }

  /** `splitlines(keepends=True)` */
  function SplitLines(s: string): seq<string>
    decreases |s|
  {
    if s == [] then [] else [s[..FirstLine(s)]] + SplitLines(s[FirstLine(s)..])
  }

  function Join(lines: seq<string>): string {
    if lines == [] then [] else lines[0] + Join(lines[1..])
  }

  /** A line: text without breaks, then one break; the last line may lack it. */
  predicate IsLine(l: string, last: bool) {
    && l != []
    && (|| (NoBreaks(l) && last)
        || (NoBreaks(l[..|l| - 1]) && IsBreak(l[|l| - 1]))
        || (|l| >= 2 && NoBreaks(l[..|l| - 2]) && l[|l| - 2] == '\r' && l[|l| - 1] == '\n'))
  }

  /** Lines that split again as they are: a CR is never followed by a line that starts with LF. */
  predicate IsLines(lines: seq<string>) {
    lines != [] ==>
      && IsLine(lines[0], |lines| == 1)
      && (|lines| > 1 && lines[0][|lines[0]| - 1] == '\r' ==> lines[1] != [] && lines[1][0] != '\n')
      && IsLines(lines[1..])
  }

  lemma {:induction false} FirstLineIsLine(s: string)
    requires s != []
    ensures var n := FirstLine(s);
            && IsLine(s[..n], n == |s|)
            && (n < |s| && s[n - 1] == '\r' ==> s[n] != '\n')
  {
    var n := FirstLine(s);
    if IsBreak(s[0]) {
      assert s[..n][..0] == [];
    } else if |s| > 1 {
      FirstLineIsLine(s[1..]);
      var l, t := s[..n], s[1..][..n - 1];
      assert l == [s[0]] + t;
      assert t[..|t| - 1] == l[1..|l| - 1] && l[..|l| - 1] == [s[0]] + t[..|t| - 1];
      if |t| >= 2 {
        assert l[..|l| - 2] == [s[0]] + t[..|t| - 2];
      }
    }
  }

  lemma {:induction false} SplitIsLines(s: string)
    ensures IsLines(SplitLines(s)) && Join(SplitLines(s)) == s
    decreases |s|
  {
    if s != [] {
      var n := FirstLine(s);
      FirstLineIsLine(s);
      SplitIsLines(s[n..]);
      assert s == s[..n] + s[n..];
      if n < |s| {
        FirstLineIsLine(s[n..]);
        assert SplitLines(s)[1] == s[n..][..FirstLine(s[n..])];
        assert SplitLines(s)[1][0] == s[n];
      }
    }
  }

  lemma SliceHead(l: string, n: int)
    ensures 0 < n <= |l| ==> l[0] in l[..n]
  {
    if 0 < n <= |l| {
      assert l[..n][0] == l[0];
    }
  }

  lemma {:induction false} FirstLineOf(l: string, rest: string)
    requires IsLine(l, rest == []) && (l[|l| - 1] == '\r' && rest != [] ==> rest[0] != '\n')
    ensures FirstLine(l + rest) == |l|
    decreases |l|
  {
    var s := l + rest;
    SliceHead(l, |l| - 1);
    SliceHead(l, |l| - 2);
    if IsBreak(l[0]) {
      assert |l| == 1 || (|l| == 2 && l[0] == '\r' && l[1] == '\n');
    } else if |l| > 1 {
      var t := l[1..];
      assert t[..|t| - 1] == l[..|l| - 1][1..];
      if |t| >= 2 {
        assert t[..|t| - 2] == l[..|l| - 2][1..];
      }
      FirstLineOf(t, rest);
      assert s[1..] == t + rest;
    }
  }

  /** Joining and splitting again gives the same lines. */
  lemma {:induction false} SplitJoin(lines: seq<string>)
    requires IsLines(lines)
    ensures SplitLines(Join(lines)) == lines
  {
    if lines != [] {
      var l, rest := lines[0], Join(lines[1..]);
      if |lines| > 1 {
        assert IsLine(lines[1], |lines| == 2) by { assert lines[1..][0] == lines[1]; }
        assert rest == lines[1] + Join(lines[1..][1..]);
      }
      FirstLineOf(l, rest);
      SplitJoin(lines[1..]);
      assert (l + rest)[..|l|] == l && (l + rest)[|l|..] == rest;
    }
  }

  // ----- one line --------------------------------------------------------------------------

  /** Characters of a key besides `_` and `-`: the pattern's `\w`, any class of characters that
      has no white space, no colon and no `#`. */
  ghost predicate WordClass(word: char -> bool) {
    forall c :: word(c) ==> !IsSpace(c) && c != ':' && c != '#'
  }

  /** The white space in front of a text. */
  function Spaces(s: string): string {
    if s != [] && IsSpace(s[0]) then [s[0]] + Spaces(s[1..]) else []
  }

  /** The longest run of key characters at the head of `s`. */
  function KeyRun(s: string, word: char -> bool): (k: string)
    ensures k <= s
  {
    if s != [] && (word(s[0]) || s[0] == '_' || s[0] == '-') then [s[0]] + KeyRun(s[1..], word) else []
  }

  /** `indent`, `key`, a colon, and `rest`. */
  datatype KeyLine = KeyLine(indent: string, key: string, rest: string)

  function ParseKey(r: string, word: char -> bool): Option<KeyLine> {
    var t := LStrip(r);
    var key := KeyRun(t, word);
    if key != [] && |key| < |t| && t[|key|] == ':' then Some(KeyLine(Spaces(r), key, t[|key| + 1..])) else None
  }

  /** `key: >` or `key: |`, perhaps with a comment. */
  predicate IsBlockHeader(rest: string) {
    var v := LStrip(rest);
    && v != [] && (v[0] == '>' || v[0] == '|')
    && (v[1..] == [] || (LStrip(v[1..]) != [] && LStrip(v[1..])[0] == '#'))
  }

  /** The value after at least one space; the line has been stripped on the right. */
  function ValueOf(rest: string): Option<string> {
    if rest != [] && IsSpace(rest[0]) && LStrip(rest) != [] then Some(LStrip(rest)) else None
  }

  function Lower(s: string): string {
    if s == [] then [] else [if 'A' <= s[0] <= 'Z' then s[0] - 'A' + 'a' else s[0]] + Lower(s[1..])
  }

  predicate IsKeyword(v: string) {
    Lower(v) in ["true", "false", "null", "~", "yes", "no", "on", "off"]
  }

  function Digits(s: string, digit: char -> bool): (n: nat)
    ensures n <= |s|
  {
    if s != [] && digit(s[0]) then 1 + Digits(s[1..], digit) else 0
  }

  predicate IsExponent(s: string, digit: char -> bool) {
    s == [] ||
    ((s[0] == 'e' || s[0] == 'E') &&
     var t := if |s| > 1 && (s[1] == '+' || s[1] == '-') then s[2..] else s[1..];
     t != [] && Digits(t, digit) == |t|)
  }

  /** An optional sign, digits with an optional point among or before them, an exponent. */
  predicate IsNumber(v: string, digit: char -> bool) {
    IsUnsigned(if v != [] && (v[0] == '+' || v[0] == '-') then v[1..] else v, digit)
  }

  predicate IsUnsigned(t: string, digit: char -> bool) {
    var n := Digits(t, digit);
    if n > 0 then
      var u := t[n..];
      var w := if u != [] && u[0] == '.' then u[1..] else u;
      IsExponent(if u != [] && u[0] == '.' then w[Digits(w, digit)..] else w, digit)
    else
      t != [] && t[0] == '.' && Digits(t[1..], digit) > 0 && IsExponent(t[1..][Digits(t[1..], digit)..], digit)
  }

  /** White space at `i`, then `#`, then white space. */
  predicate HashAfter(v: string, i: nat)
    requires i <= |v|
  {
    var t := LStrip(v[i..]);
    |t| < |v| - i && |t| >= 2 && t[0] == '#' && IsSpace(t[1])
  }

  /** Where the first inline comment starts, its white space included; `|v|` without one. */
  function CommentStart(v: string, i: nat): (k: nat)
    requires i <= |v|
    ensures i <= k <= |v|
    ensures k < |v| ==> HashAfter(v, k)
    decreases |v| - i
  {
    if i == |v| || HashAfter(v, i) then i else CommentStart(v, i + 1)
  }

  predicate OccursAt(s: string, part: string, i: nat) {
    i + |part| <= |s| && s[i..i + |part|] == part
  }

  predicate Contains(s: string, part: string) {
    exists i :: 0 <= i <= |s| && OccursAt(s, part, i)
  }

  function Replace(s: string, c: char, put: string): string {
    if s == [] then [] else (if s[0] == c then put else [s[0]]) + Replace(s[1..], c, put)
  }

  function Escape(s: string): string {
    Replace(Replace(s, '\\', "\\\\"), '"', "\\\"")
  }

  /** The value part and the comment as it is written back: empty, or two spaces and the text. */
  function SplitComment(v: string): (string, string) {
    var k := CommentStart(v, 0);
    if k < |v| then (Strip(v[..k]), "  " + Strip(v[k..])) else (v, "")
  }

  function Quoted(indent: string, key: string, val: string, comment: string): string {
    indent + key + ": \"" + Escape(val) + "\"" + comment + "\n"
  }

  /** Left as it is: quoted already, a flow collection, a keyword or a number. */
  predicate KeptValue(v: string, digit: char -> bool)
    requires v != []
  {
    v[0] in "'\"{[" || IsKeyword(v) || IsNumber(v, digit)
  }

  datatype Classes = Classes(word: char -> bool, digit: char -> bool)

  /** What becomes of a key line outside a block scalar. */
  function FixKeyLine(line: string, k: KeyLine, cs: Classes): string {
    match ValueOf(k.rest)
    case None => line
    case Some(v) =>
      if KeptValue(v, cs.digit) then line
      else
        var (val, comment) := SplitComment(v);
        if Contains(val, ": ") || comment != [] then Quoted(k.indent, k.key, val, comment) else line
  }

  /** Inside a block scalar, and how far its header was indented. */
  datatype Scan = Scan(inBlock: bool, blockIndent: nat)

  datatype LineKind = Verbatim | Header | Keyed(k: KeyLine)

  /** What a line is outside block scalars. */
  function KindOf(line: string, word: char -> bool): LineKind {
    var stripped := LStrip(line);
    if stripped != [] && stripped[0] == '#' then Verbatim
    else
      match ParseKey(RStrip(line), word)
      case None => Verbatim
      case Some(k) => if IsBlockHeader(k.rest) then Header else Keyed(k)
  }

  /** The line belongs to the block scalar: it is blank, or indented deeper than the header. */
  predicate StaysInBlock(st: Scan, line: string) {
    st.inBlock && !(LStrip(line) != [] && |line| - |LStrip(line)| <= st.blockIndent)
  }

  function StepLine(st: Scan, line: string, cs: Classes): (Scan, string) {
    if StaysInBlock(st, line) then (st, line)
    else
      match KindOf(line, cs.word)
      case Verbatim => (Scan(false, st.blockIndent), line)
      case Header => (Scan(true, |line| - |LStrip(line)|), line)
      case Keyed(k) => (Scan(false, st.blockIndent), FixKeyLine(line, k, cs))
  }

  function FixLines(lines: seq<string>, st: Scan, cs: Classes): (r: seq<string>)
    ensures |r| == |lines|
  {
    if lines == [] then []
    else
      var (next, out) := StepLine(st, lines[0], cs);
      [out] + FixLines(lines[1..], next, cs)
  }

  function Fix(text: string, cs: Classes): string {
    Join(FixLines(SplitLines(text), Scan(false, 0), cs))
  }

  lemma FixLinesAt(lines: seq<string>, i: nat, st: Scan, cs: Classes, done: seq<string>)
    requires i < |lines|
    ensures var (next, out) := StepLine(st, lines[i], cs);
            done + FixLines(lines[i..], st, cs) == (done + [out]) + FixLines(lines[i + 1..], next, cs)
  {
    var (next, out) := StepLine(st, lines[i], cs);
    assert lines[i..][1..] == lines[i + 1..];
    Assoc(done, [out], FixLines(lines[i + 1..], next, cs));
  }

  /** The fixer itself: one loop over the lines. */
  method FixYamlStringValues(text: string, cs: Classes) returns (r: string)
    ensures r == Fix(text, cs)
  {
    var lines := SplitLines(text);
    var result: seq<string> := [];
    var st := Scan(false, 0);
    var i := 0;
    assert lines[0..] == lines;
    ghost var all := FixLines(lines, st, cs);
    while i < |lines|
      invariant 0 <= i <= |lines|
      invariant result + FixLines(lines[i..], st, cs) == all
    {
      FixLinesAt(lines, i, st, cs, result);
      var (next, out) := StepLine(st, lines[i], cs);
      result, st := result + [out], next;
      i := i + 1;
    }
    assert lines[i..] == [];
    assert result == all;
    r := Join(result);
  }
}
