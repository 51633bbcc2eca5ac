/** The prompts of scripts/plan_rebuild_chains.py: a file body is embedded behind a header line
    and a fence, and extracted again by two patterns tried in turn. */
module PromptEmbed {
  import opened SeqLaws
  import opened Wrappers

  const HEADER := "CURRENT FILE CONTENT"

  /** `text.rstrip("\n")` */
  function DropNewlines(s: string): (r: string)
    ensures |r| <= |s|
  {
    if s != [] && s[|s| - 1] == '\n' then DropNewlines(s[..|s| - 1]) else s
  }

  /** One newline at the end, and nothing at all for nothing. */
  function Normalize(s: string): string {
    if s == [] then [] else DropNewlines(s) + "\n"
  }

  predicate StartsWith(s: string, part: string) {
    |part| <= |s| && s[..|part|] == part
  }

  /** The first place where `part` occurs. */
  function FindFirst(s: string, part: string): (r: Option<nat>)
    ensures r.Some? ==> r.value + |part| <= |s|
  {
    if StartsWith(s, part) then Some(0)
    else if s == [] then None
    else
      match FindFirst(s[1..], part)
      case None => None
      case Some(n) => Some(n + 1)
  }

  predicate Has(s: string, part: string) {
    FindFirst(s, part).Some?
  }

  // ----- printing --------------------------------------------------------------------------

  /** Markdown that holds a fence itself gets a longer one. */
  predicate LongFence(ext: string, content: string) {
    ext == "md" && Has(Normalize(content), "```")
  }

  function HeadLine(tf: string): string {
    HEADER + (" (`" + tf + "`):\n")
  }

  function Embed(tf: string, ext: string, content: string): string {
    var body := DropNewlines(Normalize(content));
    if LongFence(ext, content) then HeadLine(tf) + ("````md\n" + (body + "\n````\n\n"))
    else HeadLine(tf) + ("```" + ext + "\n" + (body + "\n```\n\n"))
  }

  // ----- extracting ------------------------------------------------------------------------

  /** What follows a header line at the very start of `q`: the header text, the rest of its line
      up to a final colon, and the newline. */
  function AfterHeader(q: string): (r: Option<string>)
    ensures r.Some? ==> |r.value| < |q|
  {
    if !StartsWith(q, HEADER) then None
    else
      match FindFirst(q[|HEADER|..], "\n")
      case None => None
      case Some(n) => if n > 0 && q[|HEADER| + n - 1] == ':' then Some(q[|HEADER| + n + 1..]) else None
  }

  function UpTo(s: string, fence: string): Option<string> {
    match FindFirst(s, fence)
    case None => None
    case Some(n) => Some(s[..n])
  }

  /** The first pattern, matched at the start: a fence of four, tagged `md` or `markdown`. */
  function LongAt(q: string): Option<string> {
    match AfterHeader(q)
    case None => None
    case Some(w) =>
      if StartsWith(w, "````md\n") then UpTo(w[7..], "````")
      else if StartsWith(w, "````markdown\n") then UpTo(w[13..], "````")
      else None
  }

  /** The second pattern, matched at the start: a fence of three with any tag. */
  function ShortAt(q: string): Option<string> {
    match AfterHeader(q)
    case None => None
    case Some(w) =>
      if !StartsWith(w, "```") then None
      else
        match FindFirst(w[3..], "\n")
        case None => None
        case Some(n) => UpTo(w[3 + n + 1..], "```")
  }

  /** `re.search`: the leftmost match. */
  function SearchLong(p: string): Option<string> {
    if LongAt(p).Some? then LongAt(p) else if p == [] then None else SearchLong(p[1..])
  }

  function SearchShort(p: string): Option<string> {
    if ShortAt(p).Some? then ShortAt(p) else if p == [] then None else SearchShort(p[1..])
  }

  function Extract(p: string): Option<string> {
    match SearchLong(p)
    case Some(g) => Some(Normalize(g))
    case None =>
      match SearchShort(p)
      case Some(g) => Some(Normalize(g))
      case None => None
  }

  // ----- finding in pieced-together text ---------------------------------------------------

  lemma {:induction false} FindFirstIsFirst(s: string, part: string, k: nat)
    requires k + |part| <= |s| && s[k..k + |part|] == part
    ensures FindFirst(s, part).Some? && FindFirst(s, part).value <= k
    ensures var n := FindFirst(s, part).value; s[n..n + |part|] == part
  {
    if !StartsWith(s, part) {
      assert k > 0;
      assert s[1..][k - 1..k - 1 + |part|] == part;
      FindFirstIsFirst(s[1..], part, k - 1);
      var n := FindFirst(s, part).value;
      assert s[n..n + |part|] == s[1..][n - 1..n - 1 + |part|];
    } else {
      assert s[0..0 + |part|] == part;
    }
  }

  lemma {:induction false} FoundThere(s: string, part: string)
    requires Has(s, part)
    ensures var n := FindFirst(s, part).value; n + |part| <= |s| && s[n..n + |part|] == part
  {
    if !StartsWith(s, part) {
      FoundThere(s[1..], part);
      var n := FindFirst(s, part).value;
      assert s[n..n + |part|] == s[1..][n - 1..n - 1 + |part|];
    } else {
      assert s[0..0 + |part|] == part;
    }
  }

  /** A mark that cannot overlap what precedes it is found right where it was put. */
  lemma FindAfter(a: string, part: string, rest: string)
    requires part != [] && forall j :: 0 <= j < |a| ==> !StartsWith((a + (part + rest))[j..], part)
    ensures FindFirst(a + (part + rest), part) == Some(|a|)
  {
    var s := a + (part + rest);
    assert s[|a|..|a| + |part|] == part;
    FindFirstIsFirst(s, part, |a|);
    var n := FindFirst(s, part).value;
    assert s[n..][..|part|] == s[n..n + |part|];
    assert StartsWith(s[n..], part);
  }

  predicate OneLine(s: string) {
    '\n' !in s
  }

  lemma FindNewline(a: string, rest: string)
    requires OneLine(a)
    ensures FindFirst(a + ("\n" + rest), "\n") == Some(|a|)
  {
    forall j | 0 <= j < |a| ensures !StartsWith((a + ("\n" + rest))[j..], "\n") {
      assert (a + ("\n" + rest))[j..][0] == a[j];
    }
    FindAfter(a, "\n", rest);
  }

  predicate Ticks(f: string) {
    f == "```" || f == "````"
  }

  /** The closing fence after a newline is the first one exactly when the body has none. */
  lemma FindFence(body: string, f: string, rest: string)
    requires Ticks(f)
    ensures var s := body + ("\n" + (f + rest));
            && FindFirst(s, f).Some?
            && if Has(body, f) then FindFirst(s, f).value < |body| else FindFirst(s, f).value == |body| + 1
  {
    var s := body + ("\n" + (f + rest));
    if Has(body, f) {
      FoundThere(body, f);
      var n := FindFirst(body, f).value;
      assert s[n..n + |f|] == body[n..n + |f|];
      FindFirstIsFirst(s, f, n);
    } else {
      var a := body + "\n";
      assert s == a + (f + rest);
      forall j | 0 <= j < |a| ensures !StartsWith(s[j..], f) {
        if StartsWith(s[j..], f) {
          NoFenceBefore(body, f, f + rest, j);
        }
      }
      FindAfter(a, f, rest);
    }
  }

  /** A fence that starts in the body, before its newline, lies in the body. */
  lemma NoFenceBefore(body: string, f: string, rest: string, j: nat)
    requires Ticks(f) && j <= |body| && StartsWith((body + ("\n" + rest))[j..], f)
    ensures Has(body, f)
  {
    var s := body + ("\n" + rest);
    assert s[j..][..|f|] == f;
    assert forall i :: 0 <= i < |f| ==> f[i] == '`';
    assert forall i :: 0 <= i < |f| ==> s[j + i] == s[j..][..|f|][i];
    assert s[|body|] == '\n';
    assert j + |f| <= |body|;
    assert body[j..j + |f|] == s[j..][..|f|];
    FindFirstIsFirst(body, f, j);
  }

  lemma UpToFence(body: string, f: string, rest: string)
    requires Ticks(f)
    ensures var g := UpTo(body + ("\n" + (f + rest)), f);
            g.Some? && if Has(body, f) then |g.value| < |body| else g.value == body + "\n"
  {
    FindFence(body, f, rest);
    var s := body + ("\n" + (f + rest));
    assert s[..|body| + 1] == body + "\n";
  }

  // ----- newlines at the end ---------------------------------------------------------------

  lemma {:induction false} DropParts(s: string)
    ensures var r := DropNewlines(s);
            s[..|r|] == r && (forall i :: |r| <= i < |s| ==> s[i] == '\n') && (r != [] ==> r[|r| - 1] != '\n')
  {
    if s != [] && s[|s| - 1] == '\n' {
      DropParts(s[..|s| - 1]);
      var r := DropNewlines(s);
      assert s[..|s| - 1][..|r|] == s[..|r|];
    }
  }

  /** Normalising is idempotent, and an embedded body ends in one newline already. */
  lemma NormalizedBody(r: string)
    requires r != [] ==> r[|r| - 1] != '\n'
    ensures DropNewlines(r + "\n") == r && Normalize(r + "\n") == r + "\n"
  {
    assert (r + "\n")[..|r|] == r;
  }

  /** Normalising twice is normalising once, for every text. */
  lemma NormalizeTwice(s: string)
    ensures Normalize(Normalize(s)) == Normalize(s)
  {
    DropParts(s);
    NormalizedBody(DropNewlines(s));
  }

  /** The body that is embedded, and what it has to come back as. */
  lemma EmbeddedBody(content: string)
    ensures var r := DropNewlines(content);
            && DropNewlines(Normalize(content)) == r
            && (content != [] ==> Normalize(content) == r + "\n")
            && (r != [] ==> r[|r| - 1] != '\n')
            && (content == [] ==> r == [] && Normalize(content) == [])
  {
    DropParts(content);
    NormalizedBody(DropNewlines(content));
  }

  /** Text that is not a newline is found in the content exactly when it is found in the body. */
  lemma SameFences(content: string, f: string)
    requires Ticks(f)
    ensures Has(content, f) <==> Has(DropNewlines(content), f)
    ensures Has(Normalize(content), f) <==> Has(content, f)
  {
    var r := DropNewlines(content);
    DropParts(content);
    HasWithin(content, r, f);
    EmbeddedBody(content);
    if content != [] {
      DropParts(r + "\n");
      assert (r + "\n")[..|r|] == r;
      HasWithin(r + "\n", r, f);
    }
  }

  lemma HasWithin(s: string, r: string, f: string)
    requires Ticks(f) && r <= s && forall i :: |r| <= i < |s| ==> s[i] == '\n'
    ensures Has(s, f) <==> Has(r, f)
  {
    if Has(r, f) {
      FoundThere(r, f);
      var n := FindFirst(r, f).value;
      assert s[n..n + |f|] == r[n..n + |f|];
      FindFirstIsFirst(s, f, n);
    }
    if Has(s, f) {
      FoundThere(s, f);
      var n := FindFirst(s, f).value;
      assert s[n..n + |f|][|f| - 1] == s[n + |f| - 1] == '`';
      assert r[n..n + |f|] == s[n..n + |f|];
      FindFirstIsFirst(r, f, n);
    }
  }

  // ----- where a header can start ----------------------------------------------------------

  lemma HeaderChars()
    ensures |HEADER| == 20 && HEADER[0] == 'C' && forall i :: 0 <= i < |HEADER| ==> HEADER[i] != '\n'
  {
  }

  /** Behind a header is what follows the first newline. */
  lemma AfterHeaderIs(a: string, rest: string)
    requires OneLine(a) && AfterHeader(a + ("\n" + rest)).Some?
    ensures AfterHeader(a + ("\n" + rest)).value == rest && |a| > |HEADER|
  {
    HeaderChars();
    var q := a + ("\n" + rest);
    forall i | 0 <= i < |HEADER| ensures q[i] == HEADER[i] {
      assert q[i] == q[..|HEADER|][i];
    }
    assert q[|a|] == '\n';
    var b := a[|HEADER|..];
    assert q[|HEADER|..] == b + ("\n" + rest);
    FindNewline(b, rest);
    assert q[|a| + 1..] == rest;
  }

  lemma HeaderMatches(tf: string, rest: string)
    requires OneLine(tf)
    ensures AfterHeader(HeadLine(tf) + rest) == Some(rest)
  {
    HeaderChars();
    var b := " (`" + tf + "`):";
    var q := HeadLine(tf) + rest;
    assert q == HEADER + (b + ("\n" + rest));
    assert q[|HEADER|..] == b + ("\n" + rest);
    FindNewline(b, rest);
    assert b[|b| - 1] == ':';
    assert q[|HEADER| + |b| + 1..] == rest;
  }

  /** A first pattern needs four ticks right behind the first newline. */
  lemma LongNeedsTicks(a: string, rest: string)
    requires OneLine(a) && LongAt(a + ("\n" + rest)).Some?
    ensures StartsWith(rest, "````") && a != []
  {
    AfterHeaderIs(a, rest);
    if StartsWith(rest, "````md\n") {
      assert rest[..4] == rest[..7][..4] == "````";
    } else {
      assert rest[..4] == rest[..13][..4] == "````";
    }
  }

  lemma {:induction false} SearchSkips(x: string, t: string)
    requires forall i :: 0 <= i < |x| ==> LongAt(x[i..] + t) == None
    ensures SearchLong(x + t) == SearchLong(t)
  {
    if x == [] {
      assert x + t == t;
    } else {
      assert x[0..] == x;
      assert (x + t)[1..] == x[1..] + t;
      forall i | 0 <= i < |x[1..]| ensures LongAt(x[1..][i..] + t) == None {
        assert x[1..][i..] == x[i + 1..];
      }
      SearchSkips(x[1..], t);
    }
  }

  /** The start of text up to its first newline. */
  lemma {:induction false} FirstLineBreak(s: string) returns (n: nat)
    requires s != [] && s[|s| - 1] == '\n'
    ensures n < |s| && s[n] == '\n' && OneLine(s[..n]) && s == s[..n] + ("\n" + s[n + 1..])
  {
    if s[0] == '\n' {
      n := 0;
    } else {
      var m := FirstLineBreak(s[1..]);
      n := m + 1;
      assert s[..n] == [s[0]] + s[1..][..m];
    }
  }

  // ----- extracting what was embedded ------------------------------------------------------

  predicate Tag(ext: string) {
    ext == "" || ext == "py" || ext == "json" || ext == "md"
  }

  /** A prompt with the short fence; `r` is the body. */
  function Short(tf: string, ext: string, r: string): string {
    HeadLine(tf) + ("```" + ext + "\n" + (r + "\n```\n\n"))
  }

  lemma TagChars(ext: string)
    requires Tag(ext)
    ensures OneLine(ext) && (ext != [] ==> ext[0] != '`')
  {
  }

  lemma HeadChars(tf: string)
    requires OneLine(tf)
    ensures var h := HeadLine(tf); h != [] && forall i :: 0 <= i < |h| - 1 ==> h[i] != '\n'
  {
    HeaderChars();
    var a, b := HEADER, " (`" + tf + "`):\n";
    assert forall i :: 0 <= i < |b| - 1 ==> b[i] != '\n' by {
      assert forall i :: 0 <= i < |tf| ==> b[3 + i] == tf[i];
    }
    var h := HeadLine(tf);
    assert h == a + b;
    assert forall i :: 0 <= i < |a| ==> h[i] == a[i];
    assert forall i :: 0 <= i < |b| ==> h[|a| + i] == b[i];
  }

  lemma FenceLineChars(ext: string)
    requires Tag(ext)
    ensures var m := "```" + ext + "\n";
            |m| == 4 + |ext| && m[3] != '`' && forall i :: 0 <= i < |m| - 1 ==> m[i] != '\n'
  {
    TagChars(ext);
    var m := "```" + ext + "\n";
    assert forall i :: 0 <= i < |ext| ==> m[3 + i] == ext[i] && ext[i] in ext;
  }

  /** Where the lines of a short prompt start, and the first and fourth character there. */
  lemma ShortLineStarts(h: string, m: string, r: string, t: string, j: nat)
    requires h != [] && forall i :: 0 <= i < |h| - 1 ==> h[i] != '\n'
    requires |m| >= 4 && m[3] != '`' && forall i :: 0 <= i < |m| - 1 ==> m[i] != '\n'
    requires t == "\n```\n\n"
    requires var x := h + (m + (r + t)); 0 < j < |x| && x[j - 1] == '\n'
    ensures var x, b := h + (m + (r + t)), |h| + |m|;
            || b <= j <= b + |r|
            || x[j] != '`'
            || (j + 3 < |x| && x[j + 3] != '`')
  {
    var x, b := h + (m + (r + t)), |h| + |m|;
    assert t[0] == '\n' && t[1] == '`' && t[2] == '`' && t[3] == '`' && t[4] == '\n' && t[5] == '\n' && |t| == 6;
    assert forall i :: 0 <= i < |h| ==> x[i] == h[i];
    assert forall i :: 0 <= i < |m| ==> x[|h| + i] == m[i];
    assert forall i :: 0 <= i < 6 ==> x[b + |r| + i] == t[i];
    if j == |h| {
      assert x[j + 3] == m[3];
    } else if j == b + |r| + 1 {
      assert x[j + 3] == t[4];
    } else if j == b + |r| + 5 {
      assert x[j] == t[5];
    }
  }

  /** No line of a short prompt starts with four ticks unless the body has them. */
  lemma ShortLines(tf: string, ext: string, r: string, tail: string, j: nat)
    requires OneLine(tf) && Tag(ext) && 0 < j < |Short(tf, ext, r)| && Short(tf, ext, r)[j - 1] == '\n'
    requires StartsWith(Short(tf, ext, r)[j..] + tail, "````")
    ensures Has(r, "````")
  {
    var h, m, t := HeadLine(tf), "```" + ext + "\n", "\n```\n\n";
    var x, b := Short(tf, ext, r), |h| + |m|;
    HeadChars(tf);
    FenceLineChars(ext);
    ShortParts(tf, ext, r);
    ShortLineStarts(h, m, r, t, j);
    FourTicks(x, tail, j);
    assert b <= j <= b + |r|;
    ShortBodyAt(h + m, r, tail, j);
    NoFenceBefore(r, "````", "```\n\n" + tail, j - b);
  }

  lemma ShortParts(tf: string, ext: string, r: string)
    ensures var h, m, t := HeadLine(tf), "```" + ext + "\n", "\n```\n\n";
            Short(tf, ext, r) == h + (m + (r + t)) && Short(tf, ext, r) == (h + m) + (r + t)
  {
    Assoc(HeadLine(tf), "```" + ext + "\n", r + "\n```\n\n");
  }

  lemma FourTicks(x: string, tail: string, j: nat)
    requires j < |x| && StartsWith(x[j..] + tail, "````")
    ensures x[j] == '`' && (j + 3 < |x| ==> x[j + 3] == '`')
  {
    var rest := x[j..] + tail;
    assert rest[..4][0] == '`' && rest[..4][3] == '`';
    assert rest[0] == x[j] && (j + 3 < |x| ==> rest[3] == x[j + 3]);
  }

  /** From the start of a line of the body on. */
  lemma ShortBodyAt(p: string, r: string, tail: string, j: nat)
    requires |p| <= j <= |p| + |r|
    ensures (p + (r + "\n```\n\n"))[j..] + tail == (r + ("\n" + ("```\n\n" + tail)))[j - |p|..]
  {
    var q := r + "\n```\n\n";
    DropPast(p, q, j);
    DropConcat(q, tail, j - |p|);
    FenceTail(r, tail);
  }

  lemma FenceTail(r: string, tail: string)
    ensures r + "\n```\n\n" + tail == r + ("\n" + ("```\n\n" + tail))
  {
    assert "\n```\n\n" == "\n" + "```\n\n";
    Assoc(r, "\n```\n\n", tail);
    Assoc("\n", "```\n\n", tail);
  }

  lemma ShortEnds(tf: string, ext: string, r: string)
    ensures var x := Short(tf, ext, r); |x| > 2 && x[|x| - 1] == '\n' && x[|x| - 2] == '\n'
  {
  }

  lemma ShortNoLongAt(tf: string, ext: string, r: string, tail: string, i: nat)
    requires OneLine(tf) && Tag(ext) && !Has(r, "````") && i < |Short(tf, ext, r)|
    ensures LongAt(Short(tf, ext, r)[i..] + tail) == None
  {
    var x := Short(tf, ext, r);
    ShortEnds(tf, ext, r);
    var n := LineFrom(x, i);
    var a, rest := x[i..i + n], x[i + n + 1..] + tail;
    LineSplit(x, i, n, tail);
    if LongAt(x[i..] + tail).Some? {
      LongNeedsTicks(a, rest);
      ShortLines(tf, ext, r, tail, i + n + 1);
    }
  }

  /** The line from `i` on, in text that ends in two newlines: when it is not empty, another one
      follows it. */
  lemma LineFrom(x: string, i: nat) returns (n: nat)
    requires i < |x| && |x| > 2 && x[|x| - 1] == '\n' && x[|x| - 2] == '\n'
    ensures i + n < |x| && x[i + n] == '\n' && OneLine(x[i..i + n]) && (n > 0 ==> i + n + 1 < |x|)
  {
    n := FirstLineBreak(x[i..]);
    assert x[i..][..n] == x[i..i + n];
    if n > 0 {
      assert x[i..i + n][n - 1] == x[i + n - 1] && x[i + n - 1] in x[i..i + n];
    }
  }

  lemma LineSplit(x: string, i: nat, n: nat, tail: string)
    requires i + n < |x| && x[i + n] == '\n'
    ensures x[i..] + tail == x[i..i + n] + ("\n" + (x[i + n + 1..] + tail))
  {
    assert x[i..] == x[i..i + n] + ("\n" + x[i + n + 1..]);
    Assoc(x[i..i + n], "\n" + x[i + n + 1..], tail);
    Assoc("\n", x[i + n + 1..], tail);
  }

  /** The first pattern does not match in a short prompt whose body has no four ticks. */
  lemma ShortHasNoLong(tf: string, ext: string, r: string, tail: string)
    requires OneLine(tf) && Tag(ext) && !Has(r, "````")
    ensures SearchLong(Short(tf, ext, r) + tail) == SearchLong(tail)
  {
    var x := Short(tf, ext, r);
    forall i | 0 <= i < |x| ensures LongAt(x[i..] + tail) == None {
      ShortNoLongAt(tf, ext, r, tail, i);
    }
    SearchSkips(x, tail);
  }

  lemma ShortMatches(tf: string, ext: string, r: string, tail: string)
    requires OneLine(tf) && Tag(ext)
    ensures var g := SearchShort(Short(tf, ext, r) + tail);
            g.Some? && if Has(r, "```") then |g.value| < |r| else g.value == r + "\n"
  {
    var p := Short(tf, ext, r) + tail;
    var body := r + ("\n" + ("```" + ("\n\n" + tail)));
    var w := "```" + (ext + ("\n" + body));
    TagChars(ext);
    ShortAssoc(tf, ext, r, tail);
    HeaderMatches(tf, w);
    TagLineParts("```", ext, body);
    FindNewline(ext, body);
    UpToFence(r, "```", "\n\n" + tail);
    ShortAtIs(p, w, |ext|, body);
  }

  lemma TagLineParts(f: string, ext: string, body: string)
    requires |f| == 3
    ensures var w := f + (ext + ("\n" + body));
            && StartsWith(w, f) && w[3..] == ext + ("\n" + body)
            && 3 + |ext| + 1 <= |w| && w[3 + |ext| + 1..] == body
  {
    var line := ext + ("\n" + body);
    DropPast(f, line, 3);
    DropPast(f, line, 3 + |ext| + 1);
    DropPast(ext, "\n" + body, |ext| + 1);
    DropPast("\n", body, 1);
    assert line[0..] == line && body[0..] == body;
  }

  lemma ShortAtIs(q: string, w: string, n: nat, body: string)
    requires AfterHeader(q) == Some(w) && StartsWith(w, "```") && FindFirst(w[3..], "\n") == Some(n)
    requires 3 + n + 1 <= |w| && w[3 + n + 1..] == body
    ensures ShortAt(q) == UpTo(body, "```")
  {
  }

  lemma ShortAssoc(tf: string, ext: string, r: string, tail: string)
    ensures Short(tf, ext, r) + tail
         == HeadLine(tf) + ("```" + (ext + ("\n" + (r + ("\n" + ("```" + ("\n\n" + tail)))))))
  {
  }

  lemma LongMatches(tf: string, r: string, tail: string)
    requires OneLine(tf)
    ensures var g := SearchLong(HeadLine(tf) + ("````md\n" + (r + "\n````\n\n")) + tail);
            g.Some? && if Has(r, "````") then |g.value| < |r| else g.value == r + "\n"
  {
    var p := HeadLine(tf) + ("````md\n" + (r + "\n````\n\n")) + tail;
    var w := "````md\n" + (r + ("\n" + ("````" + ("\n\n" + tail))));
    assert p == HeadLine(tf) + w;
    HeaderMatches(tf, w);
    assert w[..7] == "````md\n" && w[7..] == r + ("\n" + ("````" + ("\n\n" + tail)));
    UpToFence(r, "````", "\n\n" + tail);
  }

  lemma {:induction false} UpToHasNone(s: string, f: string)
    requires Ticks(f) && UpTo(s, f).Some?
    ensures !Has(UpTo(s, f).value, f)
  {
    var n := FindFirst(s, f).value;
    var g := s[..n];
    if Has(g, f) {
      FoundThere(g, f);
      var k := FindFirst(g, f).value;
      assert s[k..k + |f|] == g[k..k + |f|];
      FindFirstIsFirst(s, f, k);
    }
  }

  lemma {:induction false} LongHasNoTicks(p: string)
    requires SearchLong(p).Some?
    ensures !Has(SearchLong(p).value, "````")
  {
    if LongAt(p).Some? {
      var w := AfterHeader(p).value;
      if StartsWith(w, "````md\n") {
        UpToHasNone(w[7..], "````");
      } else {
        UpToHasNone(w[13..], "````");
      }
    } else {
      LongHasNoTicks(p[1..]);
    }
  }

  lemma ShorterDiffers(g: string, content: string)
    requires |g| < |DropNewlines(content)|
    ensures Normalize(g) != Normalize(content)
  {
    EmbeddedBody(content);
  }

  /** A content whose body holds the fence it is put in does not come back. */
  lemma ShortExtract(tf: string, ext: string, content: string, tail: string)
    requires OneLine(tf) && Tag(ext) && SearchLong(tail) == None
    ensures var r := DropNewlines(content);
            Extract(Short(tf, ext, r) + tail) == Some(Normalize(content)) <==> content != [] && !Has(r, "```")
  {
    var r := DropNewlines(content);
    var p := Short(tf, ext, r) + tail;
    EmbeddedBody(content);
    ShortMatches(tf, ext, r, tail);
    FourIsThree(r);
    if Has(r, "````") {
      if SearchLong(p).Some? {
        LongHasNoTicks(p);
        SameFences(SearchLong(p).value, "````");
        SameFences(content, "````");
      } else {
        ShorterDiffers(SearchShort(p).value, content);
      }
    } else {
      ShortHasNoLong(tf, ext, r, tail);
      if Has(r, "```") {
        ShorterDiffers(SearchShort(p).value, content);
      } else {
        NormalizedBody(r);
      }
    }
  }

  lemma ThreeOfFour()
    ensures "````"[..3] == "```"
  {
  }

  lemma FourIsThree(s: string)
    ensures Has(s, "````") ==> Has(s, "```")
  {
    if Has(s, "````") {
      FoundThere(s, "````");
      var n := FindFirst(s, "````").value;
      SliceTake(s, n, n + 4, 3);
      ThreeOfFour();
      FindFirstIsFirst(s, "```", n);
    }
  }

  lemma LongExtract(tf: string, content: string, tail: string)
    requires OneLine(tf) && content != []
    ensures var r := DropNewlines(content);
            Extract(HeadLine(tf) + ("````md\n" + (r + "\n````\n\n")) + tail) == Some(Normalize(content))
            <==> !Has(r, "````")
  {
    var r := DropNewlines(content);
    EmbeddedBody(content);
    LongMatches(tf, r, tail);
    var p := HeadLine(tf) + ("````md\n" + (r + "\n````\n\n")) + tail;
    if Has(r, "````") {
      ShorterDiffers(SearchLong(p).value, content);
    } else {
      NormalizedBody(r);
    }
  }

  /** What is extracted from an embedded prompt is the normalised content exactly when the
      content is not empty and does not hold three ticks, or four in Markdown; for every tail in
      which the first pattern finds nothing. */
  lemma RoundTrip(tf: string, ext: string, content: string, tail: string)
    requires OneLine(tf) && Tag(ext) && SearchLong(tail) == None
    ensures Extract(Embed(tf, ext, content) + tail) == Some(Normalize(content))
       <==> content != [] && !Has(content, if ext == "md" then "````" else "```")
  {
    var r := DropNewlines(content);
    EmbeddedBody(content);
    SameFences(content, "```");
    SameFences(content, "````");
    FourIsThree(content);
    if LongFence(ext, content) {
      LongExtract(tf, content, tail);
    } else {
      ShortExtract(tf, ext, content, tail);
    }
  }

  /** A tail without another header is such a tail. */
  lemma {:induction false} TailWithoutHeader(tail: string)
    requires !Has(tail, HEADER)
    ensures SearchLong(tail) == None
  {
    if tail != [] {
      TailWithoutHeader(tail[1..]);
    }
  }
}
