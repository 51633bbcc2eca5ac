/** The generated JSON text is one object with distinct names, on the lines asked for. */
module JsonCorpusLaws {
  import opened Decimal
  import opened JsonCorpus
  import opened SeqLaws

  // ----- lines -----------------------------------------------------------------------------

  function Newlines(s: string): nat {
    if s == [] then 0 else (if s[0] == '\n' then 1 else 0) + Newlines(s[1..])
  }

  lemma {:induction false} NewlinesConcat(a: string, b: string)
    ensures Newlines(a + b) == Newlines(a) + Newlines(b)
  {
    if a == [] {
      assert a + b == b;
    } else {
      NewlinesConcat(a[1..], b);
      ConcatHead(a, b);
    }
  }

  lemma {:induction false} NoNewlines(s: string)
    requires '\n' !in s
    ensures Newlines(s) == 0
  {
    if s != [] {
      assert s[0] in s;
      assert forall c <- s[1..] :: c in s;
      NoNewlines(s[1..]);
    }
  }

  lemma {:induction false} BrokenLines(lines: seq<string>)
    requires forall l <- lines :: '\n' !in l
    ensures Newlines(Broken(lines)) == |lines|
  {
    if lines != [] {
      assert lines[0] in lines;
      assert forall l <- lines[1..] :: l in lines;
      BrokenLines(lines[1..]);
      NoNewlines(lines[0]);
      NewlinesConcat("\n" + lines[0], Broken(lines[1..]));
      NewlinesConcat("\n", lines[0]);
      assert "\n"[1..] == [];
    }
  }

  lemma RenderLines(body: seq<string>)
    requires forall l <- body :: '\n' !in l
    ensures Newlines(Render(body)) == |body| + 2
  {
    BrokenLines(body);
    NewlinesConcat("{", Broken(body));
    NewlinesConcat("{" + Broken(body), "\n");
    NewlinesConcat("{" + Broken(body) + "\n", "}");
    NewlinesConcat("{" + Broken(body) + "\n" + "}", "\n");
    assert "\n"[1..] == [] && "{"[1..] == [] && "}"[1..] == [];
  }

  lemma DecNoNewline(n: nat)
    ensures '\n' !in Dec(n) && Plain(Dec(n))
  {
    DecDigits(n);
  }

  lemma InConcat(c: char, a: string, b: string)
    ensures c in a + b <==> c in a || c in b
  {
  }

  lemma PlainConcat(a: string, b: string)
    requires Plain(a) && Plain(b)
    ensures Plain(a + b)
  {
  }

  lemma PlainNoNewline(s: string)
    requires Plain(s)
    ensures '\n' !in s
  {
  }

  lemma NamePlain(i: Item)
    ensures Plain(NameOf(i))
  {
    DecNoNewline(i.k);
    match i
    case Entry(k, _, _) => PlainConcat("entry_", Dec(k));
    case Pad(k) => PlainConcat("pad_", Dec(k));
    case Tail(_) =>
  }

  lemma FieldLinePlain(indent: string, name: string, value: string, end: string)
    requires '\n' !in indent && '\n' !in name && '\n' !in value && '\n' !in end
    ensures '\n' !in FieldLine(indent, name, value, end)
  {
  }

  lemma ItemLinesPlain(i: Item)
    ensures forall l <- ItemLines(i) :: '\n' !in l
  {
    NamePlain(i);
    PlainNoNewline(NameOf(i));
    DecNoNewline(i.k);
    match i {
      case Entry(k, id, on) =>
        DecNoNewline(id);
        FieldLinePlain("  ", NameOf(i), "{", "");
        FieldLinePlain("    ", "id", Dec(id), ",");
        FieldLinePlain("    ", "tags", "[\"alpha\", \"beta\", \"gamma\"]", ",");
        FieldLinePlain("    ", "enabled", OnText(on), "");
      case Pad(k) => FieldLinePlain("  ", NameOf(i), Dec(k), ",");
      case Tail(k) => FieldLinePlain("  ", "tail", Dec(k), "");
    }
  }

  lemma {:induction false} AllLinesPlain(items: seq<Item>)
    ensures forall l <- AllLines(items) :: '\n' !in l
  {
    if items != [] {
      ItemLinesPlain(items[0]);
      AllLinesPlain(items[1..]);
    }
  }

  // ----- distinct names --------------------------------------------------------------------

  lemma NamesDiffer(a: Item, b: Item)
    requires !a.Tail? && (b.Tail? || a.k != b.k)
    ensures NameOf(a) != NameOf(b)
  {
    if NameOf(a) == NameOf(b) && !b.Tail? {
      assert NameOf(a)[0] == NameOf(b)[0];
      if a.Entry? {
        assert NameOf(a)[6..] == Dec(a.k) && NameOf(b)[6..] == Dec(b.k);
      } else {
        assert NameOf(a)[4..] == Dec(a.k) && NameOf(b)[4..] == Dec(b.k);
      }
      DecInjective(a.k, b.k);
    }
    assert b.Tail? ==> NameOf(b)[0] == 't';
    assert NameOf(a)[0] != 't';
  }

  lemma DistinctNames(items: seq<Item>)
    requires Numbered(items)
    ensures forall i, j :: 0 <= i < j < |items| ==> NameOf(items[i]) != NameOf(items[j])
  {
    forall i, j | 0 <= i < j < |items| ensures NameOf(items[i]) != NameOf(items[j]) {
      NamesDiffer(items[i], items[j]);
    }
  }

  // ----- one object ------------------------------------------------------------------------

  function MembersOf(items: seq<Item>): (ms: seq<Member>)
    ensures |ms| == |items|
  {
    seq(|items|, i requires 0 <= i < |items| => MemberOf(items[i]))
  }

  /** `indent "name": value after` */
  function MemberLine(indent: string, name: string, value: string, after: string): string {
    indent + ("\"" + name + "\"") + "" + ":" + (" " + value + after)
  }

  lemma FieldText(indent: string, name: string, v: Json, after: string)
    ensures PrintMember(Field(indent, name, v, after)) == MemberLine(indent, name, Print(v), after)
    ensures Ws(indent) && Ws(after) && Plain(name) && WellFormed(v) ==> WellFormedMember(Field(indent, name, v, after))
  {
  }

  function TagList(): string {
    "\"alpha\"" + "," + (" \"beta\"" + "," + " \"gamma\"")
  }

  lemma TagsText()
    ensures Print(Tags()) == "[" + TagList() + "]" && WellFormed(Tags())
  {
    var a, b, c := Padded("", Str("alpha"), ""), Padded(" ", Str("beta"), ""), Padded(" ", Str("gamma"), "");
    assert [a, b, c][1..] == [b, c] && [b, c][1..] == [c];
    assert PrintPadded(a) == "\"alpha\"" && PrintPadded(b) == " \"beta\"" && PrintPadded(c) == " \"gamma\"";
    assert PrintItems([c]) == PrintPadded(c);
    assert PrintItems([b, c]) == PrintPadded(b) + "," + PrintItems([c]);
    assert PrintItems([a, b, c]) == PrintPadded(a) + "," + PrintItems([b, c]);
  }

  function IdPart(id: nat): string {
    MemberLine("\n    ", "id", Dec(id), "")
  }

  function TagsPart(): string {
    MemberLine("\n    ", "tags", "[" + TagList() + "]", "")
  }

  function OnPart(on: bool): string {
    MemberLine("\n    ", "enabled", OnText(on), "\n  ")
  }

  /** The text between the braces of an entry. */
  function EntryInner(id: nat, on: bool): string {
    IdPart(id) + "," + (TagsPart() + "," + OnPart(on))
  }

  lemma ThreeMembers(a: Member, b: Member, c: Member)
    ensures PrintMembers([a, b, c]) == PrintMember(a) + "," + (PrintMember(b) + "," + PrintMember(c))
  {
    assert [a, b, c][1..] == [b, c] && [b, c][1..] == [c];
    assert PrintMembers([c]) == PrintMember(c);
    assert PrintMembers([b, c]) == PrintMember(b) + "," + PrintMembers([c]);
  }

  function EntryObject(id: nat, on: bool): Json {
    Obj([Field("\n    ", "id", Num(id), ""), Field("\n    ", "tags", Tags(), ""),
         Field("\n    ", "enabled", Bool(on), "\n  ")])
  }

  function IdField(id: nat): Member {
    Field("\n    ", "id", Num(id), "")
  }

  function TagsField(): Member {
    Field("\n    ", "tags", Tags(), "")
  }

  function OnField(on: bool): Member {
    Field("\n    ", "enabled", Bool(on), "\n  ")
  }

  lemma IdFieldText(id: nat)
    ensures PrintMember(IdField(id)) == IdPart(id) && WellFormedMember(IdField(id))
  {
    FieldText("\n    ", "id", Num(id), "");
  }

  lemma TagsFieldText()
    ensures PrintMember(TagsField()) == TagsPart() && WellFormedMember(TagsField())
  {
    TagsText();
    FieldText("\n    ", "tags", Tags(), "");
  }

  lemma OnFieldText(on: bool)
    ensures PrintMember(OnField(on)) == OnPart(on) && WellFormedMember(OnField(on))
  {
    FieldText("\n    ", "enabled", Bool(on), "\n  ");
  }

  lemma EntryValue(id: nat, on: bool)
    ensures Print(EntryObject(id, on)) == "{" + EntryInner(id, on) + "}" && WellFormed(EntryObject(id, on))
  {
    IdFieldText(id);
    TagsFieldText();
    OnFieldText(on);
    ThreeText(IdField(id), TagsField(), OnField(on), IdPart(id), TagsPart(), OnPart(on));
  }

  lemma ThreeText(a: Member, b: Member, c: Member, x: string, y: string, z: string)
    requires PrintMember(a) == x && PrintMember(b) == y && PrintMember(c) == z
    requires WellFormedMember(a) && WellFormedMember(b) && WellFormedMember(c)
    ensures Print(Obj([a, b, c])) == "{" + (x + "," + (y + "," + z)) + "}" && WellFormed(Obj([a, b, c]))
  {
    ThreeMembers(a, b, c);
  }

  /** The text of an item's member, without the comma behind it. */
  function Chunk(i: Item): string {
    match i
    case Entry(k, id, on) => MemberLine("\n  ", NameOf(i), "{" + EntryInner(id, on) + "}", "")
    case Pad(k) => MemberLine("\n  ", NameOf(i), Dec(k), "")
    case Tail(k) => MemberLine("\n  ", NameOf(i), Dec(k), "\n")
  }

  lemma ChunkText(i: Item)
    ensures PrintMember(MemberOf(i)) == Chunk(i) && WellFormedMember(MemberOf(i)) && MemberOf(i).name == NameOf(i)
  {
    NamePlain(i);
    match i
    case Entry(k, id, on) =>
      EntryValue(id, on);
      FieldText("\n  ", NameOf(i), EntryObject(id, on), "");
    case Pad(k) => FieldText("\n  ", NameOf(i), Num(k), "");
    case Tail(k) => FieldText("\n  ", NameOf(i), Num(k), "\n");
  }

  lemma FiveLines(a: string, b: string, c: string, d: string, e: string)
    ensures Broken([a, b, c, d, e]) == "\n" + a + ("\n" + b + ("\n" + c + ("\n" + d + ("\n" + e))))
  {
    assert [a, b, c, d, e][1..] == [b, c, d, e] && [b, c, d, e][1..] == [c, d, e] && [c, d, e][1..] == [d, e]
        && [d, e][1..] == [e] && [e][1..] == [];
    assert Broken([e]) == "\n" + e;
    assert Broken([d, e]) == "\n" + d + Broken([e]);
    assert Broken([c, d, e]) == "\n" + c + Broken([d, e]);
    assert Broken([b, c, d, e]) == "\n" + b + Broken([c, d, e]);
  }

  /** A line with its newline in front is the text of the member, up to what ends it. */
  lemma LineIsMember(indent: string, broken: string, name: string, value: string, end: string)
    requires broken == "\n" + indent
    ensures "\n" + FieldLine(indent, name, value, end) == MemberLine(broken, name, value, end)
  {
    var q := "\"" + name + "\"";
    var v := " " + value + end;
    assert "\n" + (indent + q + ":" + v) == broken + q + "" + ":" + v;
  }

  lemma MemberLineEnds(broken: string, name: string, value: string, end: string)
    ensures MemberLine(broken, name, value, "") + end == MemberLine(broken, name, value, end)
  {
    var head := broken + ("\"" + name + "\"") + "" + ":";
    assert head + (" " + value + "") + end == head + (" " + value + end);
  }

  lemma Line0(name: string)
    ensures "\n" + FieldLine("  ", name, "{", "") == MemberLine("\n  ", name, "{", "")
  {
    LineIsMember("  ", "\n  ", name, "{", "");
  }

  lemma Line1(id: nat)
    ensures "\n" + FieldLine("    ", "id", Dec(id), ",") == IdPart(id) + ","
  {
    LineIsMember("    ", "\n    ", "id", Dec(id), ",");
    MemberLineEnds("\n    ", "id", Dec(id), ",");
  }

  lemma TagLiteral()
    ensures "[\"alpha\", \"beta\", \"gamma\"]" == "[" + TagList() + "]"
  {
  }

  lemma Line2()
    ensures "\n" + FieldLine("    ", "tags", "[\"alpha\", \"beta\", \"gamma\"]", ",") == TagsPart() + ","
  {
    TagLiteral();
    LineIsMember("    ", "\n    ", "tags", "[" + TagList() + "]", ",");
    MemberLineEnds("\n    ", "tags", "[" + TagList() + "]", ",");
  }

  lemma Line3(on: bool)
    ensures "\n" + FieldLine("    ", "enabled", OnText(on), "") + "\n  " == OnPart(on)
  {
    LineIsMember("    ", "\n    ", "enabled", OnText(on), "");
    MemberLineEnds("\n    ", "enabled", OnText(on), "\n  ");
  }

  lemma EntryAssembled(h: string, a: string, b: string, c: string, l3: string, l4: string)
    requires c == l3 + "\n  " && l4 == "\n  " + "},"
    ensures h + (a + "," + (b + "," + (l3 + l4))) == h + (a + "," + (b + "," + c)) + "}" + ","
  {
  }

  lemma MemberLineOpen(indent: string, name: string, inner: string)
    ensures MemberLine(indent, name, "{" + inner + "}", "") == MemberLine(indent, name, "{", "") + inner + "}"
  {
  }

  lemma EntryLines(i: Item)
    requires i.Entry?
    ensures Broken(ItemLines(i)) == Chunk(i) + ","
  {
    var name := NameOf(i);
    var h := MemberLine("\n  ", name, "{", "");
    var l0, l1 := FieldLine("  ", name, "{", ""), FieldLine("    ", "id", Dec(i.id), ",");
    var l2 := FieldLine("    ", "tags", "[\"alpha\", \"beta\", \"gamma\"]", ",");
    var l3, l4 := FieldLine("    ", "enabled", OnText(i.on), ""), "  },";
    FiveLines(l0, l1, l2, l3, l4);
    Line0(name);
    Line1(i.id);
    Line2();
    Line3(i.on);
    EntryAssembled(h, IdPart(i.id), TagsPart(), OnPart(i.on), "\n" + l3, "\n" + l4);
    FiveAssoc(h, IdPart(i.id), TagsPart(), "\n" + l3, "\n" + l4);
    MemberLineOpen("\n  ", name, EntryInner(i.id, i.on));
  }

  lemma FiveAssoc(h: string, a: string, b: string, l3: string, l4: string)
    ensures h + (a + "," + (b + "," + (l3 + l4))) == h + ((a + ",") + ((b + ",") + (l3 + l4)))
  {
  }

  lemma BrokenOne(l: string)
    ensures Broken([l]) == "\n" + l
  {
    assert Broken([l][1..]) == "";
  }

  lemma PadText(name: string, d: string)
    ensures "\n" + FieldLine("  ", name, d, ",") == MemberLine("\n  ", name, d, "") + ","
  {
    LineIsMember("  ", "\n  ", name, d, ",");
    MemberLineEnds("\n  ", name, d, ",");
  }

  lemma TailText(d: string)
    ensures "\n" + FieldLine("  ", "tail", d, "") + "\n" == MemberLine("\n  ", "tail", d, "\n")
  {
    LineIsMember("  ", "\n  ", "tail", d, "");
    MemberLineEnds("\n  ", "tail", d, "\n");
  }

  lemma OneLine(i: Item)
    requires !i.Entry?
    ensures Broken(ItemLines(i)) + (if i.Tail? then "\n" else "") == Chunk(i) + (if i.Tail? then "" else ",")
  {
    BrokenOne(ItemLines(i)[0]);
    if i.Pad? {
      PadText(NameOf(i), Dec(i.k));
    } else {
      TailText(Dec(i.k));
    }
  }

  lemma {:induction false} BrokenConcat(a: seq<string>, b: seq<string>)
    ensures Broken(a + b) == Broken(a) + Broken(b)
  {
    if a == [] {
      assert a + b == b;
    } else {
      BrokenConcat(a[1..], b);
      ConcatHead(a, b);
      Assoc("\n" + a[0], Broken(a[1..]), Broken(b));
    }
  }

  lemma ItemText(i: Item)
    ensures Broken(ItemLines(i)) + (if i.Tail? then "\n" else "") == PrintMember(MemberOf(i)) + (if i.Tail? then "" else ",")
  {
    ChunkText(i);
    if i.Entry? {
      EntryLines(i);
      assert Broken(ItemLines(i)) + "" == Broken(ItemLines(i));
    } else {
      OneLine(i);
    }
  }

  lemma ItemsStep(i: Item, rest: seq<Item>)
    requires !i.Tail? && rest != [] && PrintMembers(MembersOf(rest)) == Broken(AllLines(rest)) + "\n"
    ensures PrintMembers([MemberOf(i)] + MembersOf(rest)) == Broken(ItemLines(i) + AllLines(rest)) + "\n"
  {
    ItemText(i);
    var b := Broken(ItemLines(i));
    assert b + "" == b;
    BrokenConcat(ItemLines(i), AllLines(rest));
    RestAssoc(PrintMember(MemberOf(i)), Broken(AllLines(rest)));
    assert ([MemberOf(i)] + MembersOf(rest))[1..] == MembersOf(rest);
  }

  /** Items of which the last is the tail print as the members of one object. */
  lemma {:induction false} ItemsText(items: seq<Item>)
    requires items != [] && items[|items| - 1].Tail? && forall i :: 0 <= i < |items| - 1 ==> !items[i].Tail?
    ensures PrintMembers(MembersOf(items)) == Broken(AllLines(items)) + "\n"
  {
    if |items| == 1 {
      assert items == [items[0]];
      ItemsBase(items[0]);
    } else {
      ItemsText(items[1..]);
      ItemsStep(items[0], items[1..]);
      MembersHead(items);
    }
  }

  lemma MembersHead(items: seq<Item>)
    requires items != []
    ensures MembersOf(items) == [MemberOf(items[0])] + MembersOf(items[1..])
  {
  }

  lemma ItemsBase(i: Item)
    requires i.Tail?
    ensures PrintMembers(MembersOf([i])) == Broken(AllLines([i])) + "\n"
  {
    ItemText(i);
    assert PrintMember(MemberOf(i)) + "" == PrintMember(MemberOf(i));
    assert [i][1..] == [];
    assert AllLines([i]) == ItemLines(i);
    assert MembersOf([i]) == [MemberOf(i)];
  }

  lemma RestAssoc(a: string, b: string)
    ensures (a + ",") + b + "\n" == a + "," + (b + "\n")
  {
  }

  lemma MembersWellFormed(items: seq<Item>)
    ensures WellFormed(Obj(MembersOf(items)))
  {
    forall m | m in MembersOf(items) ensures WellFormedMember(m) {
      var i :| 0 <= i < |items| && MembersOf(items)[i] == m;
      ChunkText(items[i]);
    }
  }

  lemma RenderText(b: string, ms: seq<Member>)
    requires PrintMembers(ms) == b + "\n"
    ensures "{" + b + "\n" + "}" + "\n" == Print(Obj(ms)) + "\n"
  {
  }

  lemma ObjectText(items: seq<Item>)
    requires items != [] && items[|items| - 1].Tail? && forall i :: 0 <= i < |items| - 1 ==> !items[i].Tail?
    ensures IsObjectText(Render(AllLines(items)), MembersOf(items))
  {
    ItemsText(items);
    MembersWellFormed(items);
    RenderText(Broken(AllLines(items)), MembersOf(items));
  }

  lemma MemberNames(items: seq<Item>)
    requires Numbered(items)
    ensures forall i, j :: 0 <= i < j < |items| ==> MembersOf(items)[i].name != MembersOf(items)[j].name
  {
    DistinctNames(items);
    var ms := MembersOf(items);
    forall i, j | 0 <= i < j < |items| ensures ms[i].name != ms[j].name {
      NameOfMember(items[i]);
      NameOfMember(items[j]);
    }
  }

  lemma NameOfMember(i: Item)
    ensures MemberOf(i).name == NameOf(i)
  {
  }

  /** What the generator promises, for every request and all draws: exactly as many lines as asked
      for, three at least; and the text is one JSON object whose member names are distinct. */
  lemma GeneratedObject(items: seq<Item>)
    requires Numbered(items) && items != [] && items[|items| - 1].Tail?
    requires forall i :: 0 <= i < |items| - 1 ==> !items[i].Tail?
    ensures Newlines(Render(AllLines(items))) == LineCount(items) + 2
    ensures IsObjectText(Render(AllLines(items)), MembersOf(items))
    ensures forall i, j :: 0 <= i < j < |items| ==> MembersOf(items)[i].name != MembersOf(items)[j].name
  {
    AllLinesPlain(items);
    RenderLines(AllLines(items));
    ObjectText(items);
    MemberNames(items);
  }

  // ----- the items of a request ------------------------------------------------------------

  lemma {:induction false} EntriesRise(k: nat, n: nat, draws: Draws, i: nat)
    requires i < n
    ensures var at := k + 5 * i; EntriesFrom(k, n, draws)[i] == Entry(at, draws.id(at), draws.on(at))
    decreases n
  {
    if i > 0 {
      EntriesRise(k + ENTRY_LINES, n - 1, draws, i - 1);
    }
  }

  lemma {:induction false} EntriesLines(k: nat, n: nat, draws: Draws)
    ensures |AllLines(EntriesFrom(k, n, draws))| == 5 * n
    decreases n
  {
    if n > 0 {
      EntriesLines(k + ENTRY_LINES, n - 1, draws);
      assert EntriesFrom(k, n, draws)[1..] == EntriesFrom(k + ENTRY_LINES, n - 1, draws);
    }
  }

  lemma {:induction false} PadsRise(k: nat, n: nat, i: nat)
    requires i < n
    ensures PadsFrom(k, n)[i] == Pad(k + i)
    decreases n
  {
    if i > 0 {
      PadsRise(k + 1, n - 1, i - 1);
    }
  }

  lemma {:induction false} PadsLines(k: nat, n: nat)
    ensures |AllLines(PadsFrom(k, n))| == n
    decreases n
  {
    if n > 0 {
      PadsLines(k + 1, n - 1);
      assert PadsFrom(k, n)[1..] == PadsFrom(k + 1, n - 1);
    }
  }

  lemma {:induction false} AllLinesConcat(a: seq<Item>, b: seq<Item>)
    ensures AllLines(a + b) == AllLines(a) + AllLines(b)
  {
    if a == [] {
      assert a + b == b;
    } else {
      AllLinesConcat(a[1..], b);
      ConcatHead(a, b);
      Assoc(ItemLines(a[0]), AllLines(a[1..]), AllLines(b));
    }
  }

  lemma ItemsLines(lines: int, draws: Draws)
    ensures LineCount(ItemsFor(lines, draws)) == (if lines >= 3 then lines - 2 else 1)
  {
    var n, p := EntryCount(lines), PadCount(lines);
    var a, b, t := EntriesFrom(0, n, draws), PadsFrom(ENTRY_LINES * n, p), Tail(ENTRY_LINES * n + p);
    EntriesLines(0, n, draws);
    PadsLines(ENTRY_LINES * n, p);
    AllLinesSnoc(a + b, t);
    AllLinesConcat(a, b);
  }

  lemma ItemsNumbered(lines: int, draws: Draws)
    ensures Numbered(ItemsFor(lines, draws))
  {
    var n, p := EntryCount(lines), PadCount(lines);
    forall i | 0 <= i < n ensures EntriesFrom(0, n, draws)[i] == Entry(5 * i, draws.id(5 * i), draws.on(5 * i)) {
      EntriesRise(0, n, draws, i);
    }
    forall i | 0 <= i < p ensures PadsFrom(5 * n, p)[i] == Pad(5 * n + i) {
      PadsRise(5 * n, p, i);
    }
    NumberedParts(EntriesFrom(0, n, draws), PadsFrom(ENTRY_LINES * n, p), n, p, draws);
  }

  /** The items of a request: as many lines as fit it, each item but the last an entry or a pad
      with a number of its own, and the last one the tail. */
  lemma ItemsShape(lines: int, draws: Draws)
    ensures var items := ItemsFor(lines, draws);
            && Numbered(items) && items != [] && items[|items| - 1].Tail?
            && (forall i :: 0 <= i < |items| - 1 ==> !items[i].Tail?)
            && LineCount(items) == (if lines >= 3 then lines - 2 else 1)
  {
    ItemsLines(lines, draws);
    ItemsNumbered(lines, draws);
  }

  lemma NumberedParts(a: seq<Item>, b: seq<Item>, n: nat, p: nat, draws: Draws)
    requires |a| == n && forall i :: 0 <= i < n ==> a[i] == Entry(5 * i, draws.id(5 * i), draws.on(5 * i))
    requires |b| == p && forall i :: 0 <= i < p ==> b[i] == Pad(5 * n + i)
    ensures Numbered(a + b + [Tail(5 * n + p)])
  {
  }

  /** The member that starts at body line `k`: named after the line, an object of the id drawn for it,
      three tags, and whether it is enabled. */
  predicate EntryMember(m: Member, k: nat, draws: Draws) {
    && m.name == "entry_" + Dec(k) && m.value.value.Obj?
    && (var fields := m.value.value.members;
        && |fields| == 3 && fields[0].name == "id" && fields[0].value.value == Num(draws.id(k))
        && fields[1].name == "tags" && fields[1].value.value.Arr?
        && (var tags := fields[1].value.value.items;
            |tags| == 3 && tags[0].value == Str("alpha") && tags[1].value == Str("beta") && tags[2].value == Str("gamma"))
        && fields[2].name == "enabled" && fields[2].value.value == Bool(draws.on(k)))
  }

  predicate NumberMember(m: Member, name: string, n: nat) {
    m.name == name && m.value.value == Num(n)
  }

  /** Entry `i`, and pad `i` behind `n` entries. */
  predicate EntryNumber(ms: seq<Member>, i: nat, draws: Draws) {
    i < |ms| && EntryMember(ms[i], 5 * i, draws)
  }

  predicate PadNumber(ms: seq<Member>, n: nat, i: nat) {
    n + i < |ms| && NumberMember(ms[n + i], "pad_" + Dec(5 * n + i), 5 * n + i)
  }

  lemma ItemsAre(lines: int, draws: Draws)
    ensures var items, n, p := ItemsFor(lines, draws), EntryCount(lines), PadCount(lines);
            && |items| == n + p + 1 && items[n + p] == Tail(5 * n + p)
            && (forall i :: 0 <= i < n ==> items[i] == EntriesFrom(0, n, draws)[i])
            && (forall i :: 0 <= i < p ==> items[n + i] == PadsFrom(5 * n, p)[i])
  {
  }

  /** What the object holds: an entry for every five of the lines between the braces and the tail, a
      pad for each line left over, and the tail, each naming its line. */
  lemma GeneratedValues(lines: int, draws: Draws)
    ensures var ms := MembersOf(ItemsFor(lines, draws));
            var n := if lines < 3 then 0 else (lines - 3) / 5;
            var p := if lines < 3 then 0 else (lines - 3) % 5;
            && |ms| == n + p + 1 && NumberMember(ms[n + p], "tail", 5 * n + p)
            && (forall i: nat :: i < n ==> EntryNumber(ms, i, draws))
            && (forall i: nat :: i < p ==> PadNumber(ms, n, i))
  {
    var n, p := EntryCount(lines), PadCount(lines);
    var ms := MembersOf(ItemsFor(lines, draws));
    ItemsAre(lines, draws);
    forall i: nat | i < n ensures EntryNumber(ms, i, draws) {
      EntryThere(lines, draws, i);
    }
    forall i: nat | i < p ensures PadNumber(ms, n, i) {
      PadThere(lines, draws, i);
    }
  }

  lemma EntryThere(lines: int, draws: Draws, i: nat)
    requires i < EntryCount(lines)
    ensures EntryNumber(MembersOf(ItemsFor(lines, draws)), i, draws)
  {
    ItemsAre(lines, draws);
    EntriesRise(0, EntryCount(lines), draws, i);
    EntryIs(5 * i, draws);
  }

  lemma PadThere(lines: int, draws: Draws, i: nat)
    requires i < PadCount(lines)
    ensures PadNumber(MembersOf(ItemsFor(lines, draws)), EntryCount(lines), i)
  {
    ItemsAre(lines, draws);
    PadsRise(5 * EntryCount(lines), PadCount(lines), i);
  }

  lemma EntryIs(k: nat, draws: Draws)
    ensures EntryMember(MemberOf(Entry(k, draws.id(k), draws.on(k))), k, draws)
  {
  }

  /** For every request and all draws the text has exactly the lines asked for, three at least,
      and is one JSON object of the request's items, their names distinct. */
  lemma GeneratedText(lines: int, draws: Draws)
    ensures Newlines(JsonText(lines, draws)) == (if lines >= 3 then lines else 3)
    ensures var ms := MembersOf(ItemsFor(lines, draws));
            && IsObjectText(JsonText(lines, draws), ms)
            && forall i, j :: 0 <= i < j < |ms| ==> ms[i].name != ms[j].name
  {
    ItemsShape(lines, draws);
    GeneratedObject(ItemsFor(lines, draws));
  }
}
