/** The two patterns by which scripts/plan_rebuild_chains.py extracts an embedded body, as text: what
    matches, where, and what is taken. */
module PromptPatterns {
  import opened SeqLaws
  import opened Wrappers
  import opened PromptEmbed

  /** Nothing but `body` before the first `fence`. */
  predicate EndsAt(s: string, body: string, fence: string) {
    && body + fence <= s
    && forall j :: 0 <= j < |body| ==> !(fence <= s[j..])
  }

  lemma UpToWhen(s: string, body: string, fence: string)
    requires fence != []
    ensures UpTo(s, fence) == Some(body) <==> EndsAt(s, body, fence)
  {
    if UpTo(s, fence) == Some(body) {
      FoundThere(s, fence);
      var n := FindFirst(s, fence).value;
      assert s[..n + |fence|] == s[..n] + s[n..n + |fence|];
      forall j | 0 <= j < n ensures !(fence <= s[j..]) {
        if fence <= s[j..] {
          assert s[j..j + |fence|] == s[j..][..|fence|];
          FindFirstIsFirst(s, fence, j);
        }
      }
    }
    if EndsAt(s, body, fence) {
      var rest := s[|body| + |fence|..];
      assert s == body + (fence + rest);
      forall j | 0 <= j < |body| ensures !StartsWith(s[j..], fence) {
        assert !(fence <= s[j..]);
      }
      FindAfter(body, fence, rest);
      assert s[..|body|] == body;
    }
  }

  /** The header, anything on its line, a colon at the end of that line, and `rest` below. */
  predicate HeaderText(q: string, x: string, rest: string) {
    q == "CURRENT FILE CONTENT" + (x + (":\n" + rest)) && '\n' !in x
  }

  lemma HeaderFound(q: string)
    requires AfterHeader(q).Some?
    ensures exists x :: HeaderText(q, x, AfterHeader(q).value)
  {
    HeaderChars();
    var b, below := FirstLineOf(q[20..]);
    var x := b[..|b| - 1];
    assert q[20 + |b| - 1] == b[|b| - 1];
    assert b == x + ":";
    LineJoined(q, x, below);
    assert q[20 + |b| + 1..] == below;
    assert HeaderText(q, x, below);
  }

  lemma LineJoined(q: string, x: string, below: string)
    requires StartsWith(q, HEADER) && q[20..] == (x + ":") + ("\n" + below)
    ensures q == HEADER + (x + (":\n" + below))
  {
    assert ":" + ("\n" + below) == ":\n" + below;
    Assoc(x, ":", "\n" + below);
    TakeDrop(q, 20);
  }

  lemma HeaderRead(q: string, x: string, rest: string)
    requires HeaderText(q, x, rest)
    ensures AfterHeader(q) == Some(rest)
  {
    HeaderChars();
    var b := x + ":";
    Assoc(x, ":", "\n" + rest);
    assert ":" + ("\n" + rest) == ":\n" + rest;
    assert q == HEADER + (b + ("\n" + rest)) && q[20..] == b + ("\n" + rest);
    FindNewline(b, rest);
    assert b[|b| - 1] == ':';
    assert q[20 + |b| + 1..] == rest;
  }

  lemma HeaderWhen(q: string, rest: string)
    ensures AfterHeader(q) == Some(rest) <==> exists x :: HeaderText(q, x, rest)
  {
    if AfterHeader(q) == Some(rest) {
      HeaderFound(q);
    }
    if x :| HeaderText(q, x, rest) {
      HeaderRead(q, x, rest);
    }
  }

  /** The first pattern: behind the header line a fence of four ticks tagged `md` or `markdown`, and
      the text from the next line up to the first four ticks. */
  predicate LongText(rest: string, tag: string, text: string, body: string) {
    && (tag == "md" || tag == "markdown") && rest == "````" + (tag + ("\n" + text)) && EndsAt(text, body, "````")
  }

  ghost predicate LongMatch(q: string, body: string) {
    exists x, rest, tag, text :: HeaderText(q, x, rest) && LongText(rest, tag, text, body)
  }

  lemma LongWitness(q: string, x: string, rest: string, tag: string, text: string, body: string)
    requires HeaderText(q, x, rest) && LongText(rest, tag, text, body)
    ensures LongMatch(q, body)
  {
  }

  /** What the pattern asks of the text below the header line. */
  lemma LongTail(q: string, rest: string, body: string) returns (tag: string, text: string)
    requires LongAt(q) == Some(body) && AfterHeader(q) == Some(rest)
    ensures LongText(rest, tag, text, body)
  {
    if StartsWith(rest, "````md\n") {
      MdFound(rest, body);
      tag, text := "md", rest[7..];
    } else {
      MarkdownFound(rest, body);
      tag, text := "markdown", rest[13..];
    }
  }

  lemma LongFound(q: string, body: string)
    requires LongAt(q) == Some(body)
    ensures LongMatch(q, body)
  {
    var rest := AfterHeader(q).value;
    var tag, text := LongTail(q, rest, body);
    HeaderFound(q);
    var x :| HeaderText(q, x, rest);
    LongWitness(q, x, rest, tag, text, body);
  }

  lemma MdFound(rest: string, body: string)
    requires StartsWith(rest, "````md\n") && UpTo(rest[7..], "````") == Some(body)
    ensures LongText(rest, "md", rest[7..], body)
  {
    UpToWhen(rest[7..], body, "````");
    MdRead(rest);
  }

  lemma MarkdownFound(rest: string, body: string)
    requires StartsWith(rest, "````markdown\n") && UpTo(rest[13..], "````") == Some(body)
    ensures LongText(rest, "markdown", rest[13..], body)
  {
    UpToWhen(rest[13..], body, "````");
    MarkdownRead(rest);
  }

  lemma MdRead(rest: string)
    requires StartsWith(rest, "````md\n")
    ensures rest == "````" + ("md" + ("\n" + rest[7..]))
  {
    TakeDrop(rest, 7);
    Reassociated("````", "md", rest[7..]);
  }

  lemma MarkdownRead(rest: string)
    requires StartsWith(rest, "````markdown\n")
    ensures rest == "````" + ("markdown" + ("\n" + rest[13..]))
  {
    TakeDrop(rest, 13);
    Reassociated("````", "markdown", rest[13..]);
  }

  lemma Reassociated(fence: string, tag: string, t: string)
    ensures fence + tag + "\n" + t == fence + (tag + ("\n" + t))
  {
  }

  lemma LongWhen(q: string, body: string)
    ensures LongAt(q) == Some(body) <==> LongMatch(q, body)
  {
    if LongAt(q) == Some(body) {
      LongFound(q, body);
    }
    if LongMatch(q, body) {
      var x, rest, tag, text :| HeaderText(q, x, rest) && LongText(rest, tag, text, body);
      HeaderRead(q, x, rest);
      LongRead(rest, tag, text, body);
    }
  }

  lemma LongRead(rest: string, tag: string, text: string, body: string)
    requires LongText(rest, tag, text, body)
    ensures if StartsWith(rest, "````md\n") then UpTo(rest[7..], "````") == Some(body)
            else StartsWith(rest, "````markdown\n") && UpTo(rest[13..], "````") == Some(body)
  {
    UpToWhen(text, body, "````");
    if tag == "md" {
      assert rest == "````md\n" + text;
      assert rest[..7] == "````md\n" && rest[7..] == text;
    } else {
      assert rest == "````markdown\n" + text;
      assert rest[5] == 'a' && "````md\n"[5] == 'd';
      assert rest[..13] == "````markdown\n" && rest[13..] == text;
    }
  }

  /** The second pattern: behind the header line a fence of three ticks with anything on its line, and
      the text from the next line up to the first three ticks. */
  predicate ShortText(rest: string, tag: string, text: string, body: string) {
    && '\n' !in tag && rest == "```" + (tag + ("\n" + text)) && EndsAt(text, body, "```")
  }

  ghost predicate ShortMatch(q: string, body: string) {
    exists x, rest, tag, text :: HeaderText(q, x, rest) && ShortText(rest, tag, text, body)
  }

  lemma ShortTail(q: string, rest: string, body: string) returns (tag: string, text: string)
    requires ShortAt(q) == Some(body) && AfterHeader(q) == Some(rest)
    ensures ShortText(rest, tag, text, body)
  {
    tag, text := FirstLineOf(rest[3..]);
    assert rest[3 + |tag| + 1..] == text;
    UpToWhen(text, body, "```");
    TakeDrop(rest, 3);
  }

  lemma ShortFound(q: string, body: string)
    requires ShortAt(q) == Some(body)
    ensures ShortMatch(q, body)
  {
    var rest := AfterHeader(q).value;
    var tag, text := ShortTail(q, rest, body);
    HeaderFound(q);
    var x :| HeaderText(q, x, rest);
    assert ShortMatch(q, body);
  }

  lemma FirstLineOf(t: string) returns (tag: string, text: string)
    requires FindFirst(t, "\n").Some?
    ensures '\n' !in tag && t == tag + ("\n" + text) && FindFirst(t, "\n") == Some(|tag|)
  {
    FoundThere(t, "\n");
    var n := FindFirst(t, "\n").value;
    UpToWhen(t, t[..n], "\n");
    tag, text := t[..n], t[n + 1..];
    forall c | c in tag ensures c != '\n' {
      var j :| 0 <= j < n && t[j] == c;
      assert !("\n" <= t[j..]);
    }
    assert t[n..n + 1] == "\n";
  }

  lemma ShortRead(rest: string, tag: string, text: string, body: string)
    requires ShortText(rest, tag, text, body)
    ensures StartsWith(rest, "```") && FindFirst(rest[3..], "\n") == Some(|tag|)
    ensures 3 + |tag| + 1 <= |rest| && UpTo(rest[3 + |tag| + 1..], "```") == Some(body)
  {
    UpToWhen(text, body, "```");
    var t := tag + ("\n" + text);
    assert rest[..3] == "```" && rest[3..] == t;
    FindNewline(tag, text);
    assert rest[3 + |tag| + 1..] == text;
  }

  lemma ShortWhen(q: string, body: string)
    ensures ShortAt(q) == Some(body) <==> ShortMatch(q, body)
  {
    if ShortAt(q) == Some(body) {
      ShortFound(q, body);
    }
    if ShortMatch(q, body) {
      var x, rest, tag, text :| HeaderText(q, x, rest) && ShortText(rest, tag, text, body);
      HeaderRead(q, x, rest);
      ShortRead(rest, tag, text, body);
    }
  }

  // ----- the leftmost match ----------------------------------------------------------------

  type Pattern = string -> Option<string>

  /** `at` takes `body` at `i`, and matches nowhere before it. */
  predicate Leftmost(at: Pattern, p: string, i: nat, body: string) {
    i <= |p| && at(p[i..]) == Some(body) && forall j :: 0 <= j < i ==> at(p[j..]).None?
  }

  predicate Nowhere(at: Pattern, p: string) {
    forall j :: 0 <= j <= |p| ==> at(p[j..]).None?
  }

  predicate Searched(at: Pattern, p: string, r: Option<string>) {
    match r
    case None => Nowhere(at, p)
    case Some(body) => exists i :: 0 <= i <= |p| && Leftmost(at, p, i, body)
  }

  lemma MatchHere(at: Pattern, p: string)
    requires at(p).Some?
    ensures Searched(at, p, at(p))
  {
    assert p[0..] == p;
    assert Leftmost(at, p, 0, at(p).value);
  }

  lemma MatchLater(at: Pattern, p: string, r: Option<string>)
    requires p != [] && at(p).None? && Searched(at, p[1..], r)
    ensures Searched(at, p, r)
  {
    assert p[0..] == p;
    forall j | 0 <= j < |p| ensures p[1..][j..] == p[j + 1..] {
    }
    match r
    case None =>
      forall j | 0 < j <= |p| ensures at(p[j..]).None? {
        assert at(p[1..][j - 1..]).None?;
      }
    case Some(body) =>
      var i :| 0 <= i <= |p| - 1 && Leftmost(at, p[1..], i, body);
      forall j | 0 < j < i + 1 ensures at(p[j..]).None? {
        assert at(p[1..][j - 1..]).None?;
      }
      assert Leftmost(at, p, i + 1, body);
  }

  lemma {:induction false} SearchLongWhen(p: string)
    ensures Searched(LongAt, p, SearchLong(p))
  {
    if LongAt(p).Some? {
      MatchHere(LongAt, p);
    } else if p == [] {
      assert p[0..] == p;
    } else {
      SearchLongWhen(p[1..]);
      MatchLater(LongAt, p, SearchLong(p[1..]));
    }
  }

  lemma {:induction false} SearchShortWhen(p: string)
    ensures Searched(ShortAt, p, SearchShort(p))
  {
    if ShortAt(p).Some? {
      MatchHere(ShortAt, p);
    } else if p == [] {
      assert p[0..] == p;
    } else {
      SearchShortWhen(p[1..]);
      MatchLater(ShortAt, p, SearchShort(p[1..]));
    }
  }

  /** What is extracted from any prompt: the leftmost match of the first pattern if there is one, else
      the leftmost match of the second, with one newline at its end. */
  lemma ExtractWhen(p: string)
    ensures match Extract(p)
            case None => Nowhere(LongAt, p) && Nowhere(ShortAt, p)
            case Some(found) =>
              exists i, body :: 0 <= i <= |p| && found == Normalize(body) &&
                (Leftmost(LongAt, p, i, body) || (Nowhere(LongAt, p) && Leftmost(ShortAt, p, i, body)))
  {
    SearchLongWhen(p);
    SearchShortWhen(p);
    if SearchLong(p).Some? {
      var i :| 0 <= i <= |p| && Leftmost(LongAt, p, i, SearchLong(p).value);
    } else if SearchShort(p).Some? {
      var i :| 0 <= i <= |p| && Leftmost(ShortAt, p, i, SearchShort(p).value);
    }
  }

  // ----- what is embedded ------------------------------------------------------------------

  /** Three ticks at `i`. */
  predicate TicksAt(s: string, i: int) {
    0 <= i && i + 2 < |s| && s[i] == '`' && s[i + 1] == '`' && s[i + 2] == '`'
  }

  ghost predicate HasTicks(s: string) {
    exists i :: TicksAt(s, i)
  }

  lemma TicksWhen(s: string)
    ensures Has(s, "```") <==> HasTicks(s)
  {
    if Has(s, "```") {
      FoundThere(s, "```");
      var n := FindFirst(s, "```").value;
      SameTicks(s, n);
    }
    if i :| TicksAt(s, i) {
      SameTicks(s, i);
      FindFirstIsFirst(s, "```", i);
    }
  }

  lemma SameTicks(s: string, i: nat)
    requires i + 3 <= |s|
    ensures TicksAt(s, i) <==> s[i..i + 3] == "```"
  {
    assert s[i..i + 3] == [s[i], s[i + 1], s[i + 2]];
  }

  /** What is written for a file: a header line that names it, a fence, the content without newlines at
      its end, the same fence, and an empty line. The fence is four ticks exactly for Markdown that holds
      three of them. */
  lemma EmbedWrites(tf: string, ext: string, content: string)
    ensures var fence := if ext == "md" && HasTicks(content) then "````" else "```";
            Embed(tf, ext, content) ==
              "CURRENT FILE CONTENT (`" + tf + "`):\n" + fence + ext + "\n" + DropNewlines(content) + "\n" + fence + "\n\n"
  {
    EmbeddedBody(content);
    SameFences(content, "```");
    TicksWhen(content);
    var r := DropNewlines(content);
    HeadIs(tf);
    if LongFence(ext, content) {
      LongWritten(HeadLine(tf), r);
    } else {
      ShortWritten(HeadLine(tf), ext, r);
    }
  }

  lemma HeadIs(tf: string)
    ensures HeadLine(tf) == "CURRENT FILE CONTENT (`" + tf + "`):\n"
  {
  }

  lemma LongWritten(head: string, r: string)
    ensures head + ("````md\n" + (r + "\n````\n\n"))
         == head + "````" + "md" + "\n" + r + "\n" + "````" + "\n\n"
  {
    Joined(head, "````", "md", r);
    assert "````md\n" == "````" + "md" + "\n" && "\n````\n\n" == "\n" + "````" + "\n\n";
  }

  lemma ShortWritten(head: string, ext: string, r: string)
    ensures head + ("```" + ext + "\n" + (r + "\n```\n\n"))
         == head + "```" + ext + "\n" + r + "\n" + "```" + "\n\n"
  {
    Joined(head, "```", ext, r);
    assert "\n```\n\n" == "\n" + "```" + "\n\n";
  }

  lemma Joined(head: string, fence: string, tag: string, r: string)
    ensures head + (fence + tag + "\n" + (r + ("\n" + fence + "\n\n")))
         == head + fence + tag + "\n" + r + "\n" + fence + "\n\n"
  {
  }

  /** One newline at the end of a text that is not empty, and none before it at its end. */
  lemma NormalizeWhen(s: string)
    ensures if s == [] then Normalize(s) == []
            else exists r, k: nat :: s == r + Newlines(k) && (r != [] ==> r[|r| - 1] != '\n') && Normalize(s) == r + "\n"
  {
    DropParts(s);
    if s != [] {
      var r := DropNewlines(s);
      assert s == r + Newlines(|s| - |r|);
    }
  }

  function Newlines(k: nat): string {
    seq(k, _ => '\n')
  }
}
