/** The JSON generator of benchmarks/bench_suite.py: a text of a given number of lines that is one
    object with distinct member names, by the grammar of RFC 8259. */
module JsonCorpus {
  import opened Decimal
  import opened SeqLaws

  // ----- the grammar -----------------------------------------------------------------------

  /** A parse tree of the grammar of RFC 8259: a value as it is written (section 3), with the
      white space the grammar allows around values and names. */
  datatype Json =
    | Num(n: nat)
    | Bool(b: bool)
    | Str(s: string)
    | Arr(items: seq<Padded>)
    | Obj(members: seq<Member>)

  datatype Padded = Padded(before: string, value: Json, after: string)

  datatype Member = Member(before: string, name: string, after: string, value: Padded)

  /** White space (section 2). */
  predicate Ws(s: string) {
    forall c <- s :: c == ' ' || c == '\n' || c == '\t' || c == '\r'
  }

  /** Characters a string holds as they are (section 7). */
  predicate Plain(s: string) {
    forall c <- s :: c >= ' ' && c != '"' && c != '\\'
  }

  predicate WellFormed(v: Json)
    decreases v, 0
  {
    match v
    case Str(s) => Plain(s)
    case Arr(items) => forall p <- items :: WellFormedPadded(p)
    case Obj(members) => forall m <- members :: WellFormedMember(m)
    case _ => true
  }

  predicate WellFormedPadded(p: Padded)
    decreases p, 1
  {
    Ws(p.before) && Ws(p.after) && WellFormed(p.value)
  }

  predicate WellFormedMember(m: Member)
    decreases m, 1
  {
    Ws(m.before) && Ws(m.after) && Plain(m.name) && WellFormedPadded(m.value)
  }

  /** The text of a tree. */
  function Print(v: Json): string
    decreases v, 0
  {
    match v
    case Num(n) => Dec(n)
    case Bool(b) => if b then "true" else "false"
    case Str(s) => "\"" + s + "\""
    case Arr(items) => "[" + PrintItems(items) + "]"
    case Obj(members) => "{" + PrintMembers(members) + "}"
  }

  function PrintPadded(p: Padded): string
    decreases p, 1
  {
    p.before + Print(p.value) + p.after
  }

  /** Elements separated by commas (section 5). */
  function PrintItems(items: seq<Padded>): string
    decreases items, 2
  {
    if items == [] then ""
    else if |items| == 1 then PrintPadded(items[0])
    else PrintPadded(items[0]) + "," + PrintItems(items[1..])
  }

  function PrintMember(m: Member): string
    decreases m, 2
  {
    m.before + ("\"" + m.name + "\"") + m.after + ":" + PrintPadded(m.value)
  }

  /** Members separated by commas (section 4). */
  function PrintMembers(members: seq<Member>): string
    decreases members, 3
  {
    if members == [] then ""
    else if |members| == 1 then PrintMember(members[0])
    else PrintMember(members[0]) + "," + PrintMembers(members[1..])
  }

  /** `t` is a JSON text: one object with these members, and white space around it. */
  predicate IsObjectText(t: string, members: seq<Member>) {
    WellFormed(Obj(members)) && t == Print(Obj(members)) + "\n"
  }

  // ----- the generated items ---------------------------------------------------------------

  datatype Item = Entry(k: nat, id: nat, on: bool) | Pad(k: nat) | Tail(k: nat)

  function NameOf(i: Item): string {
    match i
    case Entry(k, _, _) => "entry_" + Dec(k)
    case Pad(k) => "pad_" + Dec(k)
    case Tail(_) => "tail"
  }

  function Tags(): Json {
    Arr([Padded("", Str("alpha"), ""), Padded(" ", Str("beta"), ""), Padded(" ", Str("gamma"), "")])
  }

  function Field(indent: string, name: string, value: Json, after: string): Member {
    Member(indent, name, "", Padded(" ", value, after))
  }

  function MemberOf(i: Item): Member {
    match i
    case Entry(_, id, on) =>
      Field("\n  ", NameOf(i),
            Obj([Field("\n    ", "id", Num(id), ""), Field("\n    ", "tags", Tags(), ""),
                 Field("\n    ", "enabled", Bool(on), "\n  ")]), "")
    case Pad(k) => Field("\n  ", NameOf(i), Num(k), "")
    case Tail(k) => Field("\n  ", NameOf(i), Num(k), "\n")
  }

  function OnText(on: bool): string {
    if on then "true" else "false"
  }

  /** `indent "name": value` and what ends the line. */
  function FieldLine(indent: string, name: string, value: string, end: string): string {
    indent + ("\"" + name + "\"") + ":" + (" " + value + end)
  }

  /** The lines of an item, with the comma at the end of all but the tail. */
  function ItemLines(i: Item): (ls: seq<string>)
    ensures |ls| == if i.Entry? then 5 else 1
  {
    match i
    case Entry(k, id, on) =>
      [FieldLine("  ", NameOf(i), "{", ""), FieldLine("    ", "id", Dec(id), ","),
       FieldLine("    ", "tags", "[\"alpha\", \"beta\", \"gamma\"]", ","),
       FieldLine("    ", "enabled", OnText(on), ""), "  },"]
    case Pad(k) => [FieldLine("  ", NameOf(i), Dec(k), ",")]
    case Tail(k) => [FieldLine("  ", "tail", Dec(k), "")]
  }

  function AllLines(items: seq<Item>): seq<string> {
    if items == [] then [] else ItemLines(items[0]) + AllLines(items[1..])
  }

  /** Each line with a newline in front of it. */
  function Broken(lines: seq<string>): string {
    if lines == [] then "" else "\n" + lines[0] + Broken(lines[1..])
  }

  /** The body between the braces, for a body of at least one line. */
  function Render(body: seq<string>): string {
    "{" + Broken(body) + "\n" + "}" + "\n"
  }

  /** Items that a generation makes: entries and pads numbered by the line they start at, then
      the tail. */
  predicate Numbered(items: seq<Item>) {
    forall i, j :: 0 <= i < j < |items| ==> !items[i].Tail? && (!items[j].Tail? ==> items[i].k < items[j].k)
  }

  function LineCount(items: seq<Item>): nat {
    |AllLines(items)|
  }

  /** What the random source gives for the entry that starts at body line `k`. */
  datatype Draws = Draws(id: nat -> nat, on: nat -> bool)

  lemma {:induction false} AllLinesSnoc(items: seq<Item>, last: Item)
    ensures AllLines(items + [last]) == AllLines(items) + ItemLines(last)
  {
    if items == [] {
      assert items + [last] == [last] && [last][1..] == [];
    } else {
      AllLinesSnoc(items[1..], last);
      ConcatHead(items, [last]);
      Assoc(ItemLines(items[0]), AllLines(items[1..]), ItemLines(last));
    }
  }

  // ----- the items of a request ------------------------------------------------------------

  const ENTRY_LINES := 5

  /** How many entries fit before the tail. */
  function EntryCount(lines: int): nat {
    if lines < 3 then 0 else (lines - 3) / ENTRY_LINES
  }

  function PadCount(lines: int): nat {
    if lines < 3 then 0 else (lines - 3) % ENTRY_LINES
  }

  /** `n` entries, the first at body line `k`. */
  function EntriesFrom(k: nat, n: nat, draws: Draws): (items: seq<Item>)
    ensures |items| == n
    decreases n
  {
    if n == 0 then [] else [Entry(k, draws.id(k), draws.on(k))] + EntriesFrom(k + ENTRY_LINES, n - 1, draws)
  }

  /** `n` pads, the first at body line `k`. */
  function PadsFrom(k: nat, n: nat): (items: seq<Item>)
    ensures |items| == n
    decreases n
  {
    if n == 0 then [] else [Pad(k)] + PadsFrom(k + 1, n - 1)
  }

  /** Whole entries while they fit, then pads, then the tail. */
  function ItemsFor(lines: int, draws: Draws): seq<Item> {
    var n, p := EntryCount(lines), PadCount(lines);
    EntriesFrom(0, n, draws) + PadsFrom(ENTRY_LINES * n, p) + [Tail(ENTRY_LINES * n + p)]
  }

  function JsonText(lines: int, draws: Draws): string {
    Render(AllLines(ItemsFor(lines, draws)))
  }

  lemma {:induction false} EntriesSnoc(k: nat, n: nat, draws: Draws)
    ensures var last := k + ENTRY_LINES * n;
            EntriesFrom(k, n + 1, draws) == EntriesFrom(k, n, draws) + [Entry(last, draws.id(last), draws.on(last))]
    decreases n
  {
    if n > 0 {
      EntriesSnoc(k + ENTRY_LINES, n - 1, draws);
      var last := k + ENTRY_LINES * n;
      Assoc([Entry(k, draws.id(k), draws.on(k))], EntriesFrom(k + ENTRY_LINES, n - 1, draws),
            [Entry(last, draws.id(last), draws.on(last))]);
    }
  }

  lemma {:induction false} PadsSnoc(k: nat, n: nat)
    ensures PadsFrom(k, n + 1) == PadsFrom(k, n) + [Pad(k + n)]
    decreases n
  {
    if n > 0 {
      PadsSnoc(k + 1, n - 1);
      Assoc([Pad(k)], PadsFrom(k + 1, n - 1), [Pad(k + n)]);
    }
  }

  lemma NextEntry(body: seq<string>, n: nat, draws: Draws)
    requires body == AllLines(EntriesFrom(0, n, draws)) && |body| == ENTRY_LINES * n
    ensures var item := Entry(|body|, draws.id(|body|), draws.on(|body|));
            body + ItemLines(item) == AllLines(EntriesFrom(0, n + 1, draws))
  {
    EntriesSnoc(0, n, draws);
    AllLinesSnoc(EntriesFrom(0, n, draws), Entry(|body|, draws.id(|body|), draws.on(|body|)));
  }

  lemma NextPad(body: seq<string>, entries: seq<Item>, k: nat, p: nat)
    requires body == AllLines(entries + PadsFrom(k, p)) && |body| == k + p
    ensures body + ItemLines(Pad(|body|)) == AllLines(entries + PadsFrom(k, p + 1))
  {
    PadsSnoc(k, p);
    AllLinesSnoc(entries + PadsFrom(k, p), Pad(k + p));
    Assoc(entries, PadsFrom(k, p), [Pad(k + p)]);
  }

  /** The entries, the first loop: they leave room for three more lines. */
  method EntryLines(lines: int, draws: Draws) returns (body: seq<string>)
    ensures body == AllLines(EntriesFrom(0, EntryCount(lines), draws)) && |body| == ENTRY_LINES * EntryCount(lines)
  {
    body := [];
    ghost var n := 0;
    while |body| + ENTRY_LINES <= lines - 3
      invariant body == AllLines(EntriesFrom(0, n, draws)) && |body| == ENTRY_LINES * n
      invariant lines >= 3 ==> |body| <= lines - 3
      invariant lines < 3 ==> n == 0
    {
      NextEntry(body, n, draws);
      body, n := body + ItemLines(Entry(|body|, draws.id(|body|), draws.on(|body|))), n + 1;
    }
    assert n == EntryCount(lines);
  }

  /** The pads, the second loop: they fill up to the tail. */
  method PadLines(lines: int, ghost entries: seq<Item>, start: seq<string>) returns (body: seq<string>)
    requires start == AllLines(entries) && |start| == ENTRY_LINES * EntryCount(lines)
    ensures body == AllLines(entries + PadsFrom(|start|, PadCount(lines))) && |body| == |start| + PadCount(lines)
  {
    body := start;
    ghost var p := 0;
    assert entries + PadsFrom(|start|, 0) == entries;
    while |body| < lines - 3
      invariant body == AllLines(entries + PadsFrom(|start|, p)) && |body| == |start| + p
      invariant p <= PadCount(lines)
    {
      NextPad(body, entries, |start|, p);
      body, p := body + ItemLines(Pad(|body|)), p + 1;
    }
    assert p == PadCount(lines);
  }

  /** The generator: whole entries while they fit, then pads, then the tail. */
  method JsonSource(lines: int, draws: Draws) returns (text: string)
    ensures text == JsonText(lines, draws)
  {
    var body := EntryLines(lines, draws);
    ghost var entries := EntriesFrom(0, EntryCount(lines), draws);
    body := PadLines(lines, entries, body);
    AllLinesSnoc(entries + PadsFrom(ENTRY_LINES * EntryCount(lines), PadCount(lines)), Tail(|body|));
    text := Render(body + ItemLines(Tail(|body|)));
  }
}
