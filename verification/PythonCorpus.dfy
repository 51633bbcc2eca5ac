/** The Python generator of benchmarks/bench_suite.py: whole class blocks of 22 lines, then filler,
    on exactly the lines asked for. */
module PythonCorpus {
  import opened Decimal
  import opened JsonCorpusLaws
  import opened SeqLaws

  const BLOCK_LINES := 22
  const SLOTS := 4

  datatype Line =
    | DocString | Import | Blank
    | ClassLine(k: nat) | Attr(k: nat, value: nat)
    | Def(k: nat, slot: nat) | Comment(k: nat, slot: nat) | Total(value: nat) | Return
    | Filler(k: nat)

  function ClassName(k: nat): string {
    "Klass" + Dec(k)
  }

  function MethodName(k: nat, slot: nat): string {
    "method_" + (Dec(k) + ("_" + Dec(slot)))
  }

  function LineText(l: Line): string {
    match l
    case DocString => "\"\"\"Deterministic benchmark corpus.\"\"\""
    case Import => "import os"
    case Blank => ""
    case ClassLine(k) => "class " + (ClassName(k) + ":")
    case Attr(k, value) => "    ATTR" + (Dec(k) + (" = " + Dec(value)))
    case Def(k, slot) => "    def " + (MethodName(k, slot) + "(self, value):")
    case Comment(k, slot) => "        # step " + (Dec(k) + ("." + Dec(slot)))
    case Total(value) => "        total = value + " + Dec(value)
    case Return => "        return total"
    case Filler(k) => "# filler line " + Dec(k)
  }

  /** The lines, each with its newline. */
  function TextOf(lines: seq<Line>): string {
    if lines == [] then "" else LineText(lines[0]) + "\n" + TextOf(lines[1..])
  }

  /** A block is numbered by the line it starts at; the random source fills in the numbers. */
  datatype Draws = Draws(attr: nat -> nat, step: (nat, nat) -> nat)

  const HEADER: seq<Line> := [DocString, Import, Blank]

  function SlotLines(k: nat, slot: nat, d: Draws): (ls: seq<Line>)
    ensures |ls| == 5
  {
    [Def(k, slot), Comment(k, slot), Total(d.step(k, slot)), Return, Blank]
  }

  function SlotsFrom(k: nat, slot: nat, d: Draws): (ls: seq<Line>)
    requires slot <= SLOTS
    ensures |ls| == 5 * (SLOTS - slot)
    decreases SLOTS - slot
  {
    if slot == SLOTS then [] else SlotLines(k, slot, d) + SlotsFrom(k, slot + 1, d)
  }

  function BlockAt(k: nat, d: Draws): (ls: seq<Line>)
    ensures |ls| == BLOCK_LINES
  {
    [ClassLine(k), Attr(k, d.attr(k))] + SlotsFrom(k, 0, d)
  }

  function BlockFrom(d: Draws): nat -> seq<Line> {
    (k: nat) => BlockAt(k, d)
  }

  /** Blocks one after another, the first at line `k`. */
  function Blocks(k: nat, n: nat, d: Draws): seq<Line> {
    Run(BlockFrom(d), k, BLOCK_LINES, n)
  }

  function Fillers(k: nat, n: nat): (ls: seq<Line>)
    ensures |ls| == n
    decreases n
  {
    if n == 0 then [] else [Filler(k)] + Fillers(k + 1, n - 1)
  }

  /** `f` of each of the `n` numbers from `k` on, `step` apart, one after another. */
  function Run(f: nat -> seq<Line>, k: nat, step: nat, n: nat): seq<Line>
    decreases n
  {
    if n == 0 then [] else f(k) + Run(f, k + step, step, n - 1)
  }

  lemma {:induction false} RunSnoc(f: nat -> seq<Line>, k: nat, step: nat, n: nat)
    ensures Run(f, k, step, n + 1) == Run(f, k, step, n) + f(k + step * n)
    decreases n
  {
    if n > 0 {
      RunSnoc(f, k + step, step, n - 1);
      assert k + step + step * (n - 1) == k + step * n;
      Assoc(f(k), Run(f, k + step, step, n - 1), f(k + step * n));
    } else {
      assert step * n == 0;
      assert Run(f, k + step, step, 0) == [];
    }
  }

  lemma {:induction false} FillersSnoc(k: nat, n: nat)
    ensures Fillers(k, n + 1) == Fillers(k, n) + [Filler(k + n)]
    decreases n
  {
    if n > 0 {
      FillersSnoc(k + 1, n - 1);
    }
  }

  /** How many whole blocks fit behind the header. */
  function Fitting(lines: int): nat {
    if lines < 3 then 0 else (lines - 3) / BLOCK_LINES
  }

  /** One block, slot by slot. */
  method BlockBody(k: nat, d: Draws) returns (ls: seq<Line>)
    ensures ls == BlockAt(k, d)
  {
    ls := [ClassLine(k), Attr(k, d.attr(k))];
    ghost var head := ls;
    var slot := 0;
    while slot < SLOTS
      invariant 0 <= slot <= SLOTS
      invariant head + SlotsFrom(k, 0, d) == ls + SlotsFrom(k, slot, d)
    {
      Assoc(ls, SlotLines(k, slot, d), SlotsFrom(k, slot + 1, d));
      ls := ls + SlotLines(k, slot, d);
      slot := slot + 1;
    }
  }

  /** One more block behind `n` of them. */
  lemma NextBlock(f: nat -> seq<Line>, head: seq<Line>, out: seq<Line>, k: nat, step: nat, n: nat)
    requires out == head + Run(f, k, step, n) && |out| == k + step * n
    ensures out + f(|out|) == head + Run(f, k, step, n + 1)
  {
    RunSnoc(f, k, step, n);
    Assoc(head, Run(f, k, step, n), f(|out|));
  }

  /** The header and as many whole blocks as fit. */
  method WholeBlocks(lines: int, d: Draws) returns (out: seq<Line>)
    ensures out == HEADER + Blocks(3, Fitting(lines), d) && |out| == 3 + BLOCK_LINES * Fitting(lines)
  {
    out := HEADER;
    ghost var f, n := BlockFrom(d), 0;
    assert HEADER == HEADER + Run(f, 3, BLOCK_LINES, 0);
    while |out| + BLOCK_LINES <= lines
      invariant out == HEADER + Run(f, 3, BLOCK_LINES, n) && |out| == 3 + BLOCK_LINES * n
      invariant lines >= 3 ==> |out| <= lines
      invariant lines < 3 ==> n == 0
    {
      var block := BlockBody(|out|, d);
      assert block == f(|out|);
      NextBlock(f, HEADER, out, 3, BLOCK_LINES, n);
      out, n := out + block, n + 1;
    }
    assert n == Fitting(lines);
  }

  /** Filler up to the lines asked for. */
  method FillUp(blocks: seq<Line>, lines: int) returns (out: seq<Line>)
    ensures |out| == if lines > |blocks| then lines else |blocks|
    ensures out == blocks + Fillers(|blocks|, |out| - |blocks|)
  {
    out := blocks;
    while |out| < lines
      invariant |blocks| <= |out| && (lines > |blocks| ==> |out| <= lines) && (lines <= |blocks| ==> out == blocks)
      invariant out == blocks + Fillers(|blocks|, |out| - |blocks|)
    {
      ghost var m := |out| - |blocks|;
      FillersSnoc(|blocks|, m);
      Assoc(blocks, Fillers(|blocks|, m), [Filler(|out|)]);
      out := out + [Filler(|out|)];
    }
  }

  /** The generator. It yields exactly the lines asked for, three at least: the header, as many
      whole blocks as fit, and filler for less than a block. */
  method PythonSource(lines: int, d: Draws) returns (out: seq<Line>)
    ensures |out| == (if lines >= 3 then lines else 3)
    ensures out == PythonLines(Fitting(lines), |out| - 3 - BLOCK_LINES * Fitting(lines), d)
    ensures |out| - 3 - BLOCK_LINES * Fitting(lines) < BLOCK_LINES
    ensures Newlines(TextOf(out)) == |out|
    ensures NamesApart(out)
    ensures LaidOut(out, if lines < 25 then 0 else (lines - 3) / 22, d)
  {
    var blocks := WholeBlocks(lines, d);
    FittingRoom(lines);
    out := FillUp(blocks, lines);
    TextLines(out);
    TextNames(Fitting(lines), |out| - |blocks|, d);
    LinesLaidOut(Fitting(lines), |out| - |blocks|, d);
    SmallFitting(lines);
  }

  /** The header, `n` blocks, and `m` lines of filler. */
  function PythonLines(n: nat, m: nat, d: Draws): seq<Line> {
    HEADER + Blocks(3, n, d) + Fillers(3 + BLOCK_LINES * n, m)
  }

  // ----- what stands on which line ---------------------------------------------------------

  /** The five lines of method `slot` of the block that starts at line `k`, of which `at` is the
      first. */
  predicate MethodLines(out: seq<Line>, at: nat, k: nat, slot: nat, d: Draws) {
    && at + 5 <= |out| && out[at] == Def(k, slot) && out[at + 1] == Comment(k, slot)
    && out[at + 2] == Total(d.step(k, slot)) && out[at + 3] == Return && out[at + 4] == Blank
  }

  /** A whole block starts at line `k`: the class, its attribute, and four methods; every name in it
      carries the number of this line. */
  predicate BlockStarts(out: seq<Line>, k: nat, d: Draws) {
    && k + 22 <= |out| && out[k] == ClassLine(k) && out[k + 1] == Attr(k, d.attr(k))
    && MethodLines(out, k + 2, k, 0, d) && MethodLines(out, k + 7, k, 1, d)
    && MethodLines(out, k + 12, k, 2, d) && MethodLines(out, k + 17, k, 3, d)
  }

  predicate BlockNumber(out: seq<Line>, q: nat, d: Draws) {
    BlockStarts(out, 3 + 22 * q, d)
  }

  function LeadingSpaces(s: string): nat {
    if s != [] && s[0] == ' ' then 1 + LeadingSpaces(s[1..]) else 0
  }

  lemma {:induction false} SpacesThen(k: nat, t: string)
    requires t == [] || t[0] != ' '
    ensures LeadingSpaces(Spaces(k) + t) == k
  {
    if k == 0 {
      assert Spaces(0) + t == t;
    } else {
      SpacesThen(k - 1, t);
      assert (Spaces(k) + t)[1..] == Spaces(k - 1) + t;
    }
  }

  function Spaces(k: nat): string {
    seq(k, _ => ' ')
  }

  /** How deep a line is indented: a class not at all, what it holds by four, and what its methods hold
      by eight. */
  lemma Indentation(l: Line)
    ensures LeadingSpaces(LineText(l)) ==
            if l.Attr? || l.Def? then 4 else if l.Comment? || l.Total? || l.Return? then 8 else 0
  {
    match l
    case Attr(k, value) => AttrBehind(k, value);
    case Def(k, slot) => DefBehind(k, slot);
    case Comment(k, slot) => CommentBehind(k, slot);
    case Total(value) => TotalBehind(value);
    case Return => Behind(8, "        return total", "return total", "");
    case _ =>
  }

  lemma AttrBehind(k: nat, value: nat)
    ensures LeadingSpaces(LineText(Attr(k, value))) == 4
  {
    Behind(4, "    ATTR", "ATTR", Dec(k) + (" = " + Dec(value)));
  }

  lemma DefBehind(k: nat, slot: nat)
    ensures LeadingSpaces(LineText(Def(k, slot))) == 4
  {
    Behind(4, "    def ", "def ", MethodName(k, slot) + "(self, value):");
  }

  lemma CommentBehind(k: nat, slot: nat)
    ensures LeadingSpaces(LineText(Comment(k, slot))) == 8
  {
    Behind(8, "        # step ", "# step ", Dec(k) + ("." + Dec(slot)));
  }

  lemma TotalBehind(value: nat)
    ensures LeadingSpaces(LineText(Total(value))) == 8
  {
    Behind(8, "        total = value + ", "total = value + ", Dec(value));
  }

  lemma Behind(depth: nat, start: string, t: string, more: string)
    requires start == Spaces(depth) + t && t != [] && t[0] != ' '
    ensures LeadingSpaces(start + more) == depth && start + "" == start
  {
    Assoc(Spaces(depth), t, more);
    SpacesThen(depth, t + more);
  }

  /** A text with `n` whole blocks behind three lines of header, and filler numbered by its lines. */
  predicate LaidOut(out: seq<Line>, n: nat, d: Draws) {
    && |out| >= 3 + 22 * n && out[0] == DocString && out[1] == Import && out[2] == Blank
    && (forall q: nat :: q < n ==> BlockNumber(out, q, d))
    && (forall p :: 3 + 22 * n <= p < |out| ==> out[p] == Filler(p))
  }

  lemma {:induction false} BlocksLength(k: nat, n: nat, d: Draws)
    ensures |Blocks(k, n, d)| == 22 * n
    decreases n
  {
    if n > 0 {
      BlocksLength(k + 22, n - 1, d);
    }
  }

  lemma SlotsAre(k: nat, d: Draws)
    ensures BlockAt(k, d) == [ClassLine(k), Attr(k, d.attr(k))] + (SlotLines(k, 0, d) + (SlotLines(k, 1, d)
                             + (SlotLines(k, 2, d) + SlotLines(k, 3, d))))
  {
    assert SlotsFrom(k, 4, d) == [];
    assert SlotsFrom(k, 3, d) == SlotLines(k, 3, d) + [];
    assert SlotLines(k, 3, d) + [] == SlotLines(k, 3, d);
    assert SlotsFrom(k, 2, d) == SlotLines(k, 2, d) + SlotsFrom(k, 3, d);
    assert SlotsFrom(k, 1, d) == SlotLines(k, 1, d) + SlotsFrom(k, 2, d);
    assert SlotsFrom(k, 0, d) == SlotLines(k, 0, d) + SlotsFrom(k, 1, d);
  }

  lemma MethodsIn(k: nat, d: Draws)
    ensures var block := BlockAt(k, d);
            && block[0] == ClassLine(k) && block[1] == Attr(k, d.attr(k))
            && MethodLines(block, 2, k, 0, d) && MethodLines(block, 7, k, 1, d)
            && MethodLines(block, 12, k, 2, d) && MethodLines(block, 17, k, 3, d)
  {
    SlotsAre(k, d);
  }

  lemma MethodShifted(block: seq<Line>, out: seq<Line>, at: nat, k: nat, slot: nat, d: Draws)
    requires MethodLines(block, at, k, slot, d) && |block| == 22 && k + 22 <= |out|
    requires forall r :: 0 <= r < 22 ==> out[k + r] == block[r]
    ensures MethodLines(out, k + at, k, slot, d)
  {
    assert out[k + at] == block[at] && out[k + (at + 1)] == block[at + 1] && out[k + (at + 2)] == block[at + 2];
    assert out[k + (at + 3)] == block[at + 3] && out[k + (at + 4)] == block[at + 4];
  }

  /** Line `r` of block `q` of a run of blocks of 22 lines. */
  lemma {:induction false} RunAt(f: nat -> seq<Line>, k: nat, n: nat, q: nat, r: nat)
    requires q < n && r < 22 && |Run(f, k, 22, n)| == 22 * n && forall j: nat :: |f(j)| == 22
    ensures 22 * q + r < 22 * n && Run(f, k, 22, n)[22 * q + r] == f(k + 22 * q)[r]
    decreases n
  {
    if q > 0 {
      RunAt(f, k + 22, n - 1, q - 1, r);
      assert k + 22 + 22 * (q - 1) == k + 22 * q;
      Later(f(k), Run(f, k + 22, 22, n - 1), 22 * (q - 1) + r);
    }
  }

  lemma Later(a: seq<Line>, b: seq<Line>, i: nat)
    requires i < |b|
    ensures (a + b)[|a| + i] == b[i]
  {
  }

  lemma BlockFromIs(k: nat, d: Draws)
    ensures BlockFrom(d)(k) == BlockAt(k, d) && |BlockFrom(d)(k)| == 22
  {
  }

  lemma BlocksLong(d: Draws)
    ensures forall j: nat :: |BlockFrom(d)(j)| == 22
  {
    forall j: nat ensures |BlockFrom(d)(j)| == 22 {
      BlockFromIs(j, d);
    }
  }

  lemma BlocksAt(n: nat, d: Draws, q: nat, r: nat)
    requires q < n && r < 22
    ensures 22 * q + r < |Blocks(3, n, d)| && Blocks(3, n, d)[22 * q + r] == BlockFrom(d)(3 + 22 * q)[r]
  {
    BlocksLong(d);
    BlocksLength(3, n, d);
    RunAt(BlockFrom(d), 3, n, q, r);
  }

  lemma TextAt(n: nat, m: nat, d: Draws, q: nat, r: nat)
    requires q < n && r < 22
    ensures 3 + 22 * q + r < |PythonLines(n, m, d)|
    ensures PythonLines(n, m, d)[3 + 22 * q + r] == BlockFrom(d)(3 + 22 * q)[r]
  {
    BlocksAt(n, d, q, r);
    Within(HEADER, Blocks(3, n, d), Fillers(3 + BLOCK_LINES * n, m), 22 * q + r);
  }

  lemma Within(a: seq<Line>, b: seq<Line>, c: seq<Line>, i: nat)
    requires i < |b|
    ensures (a + b + c)[|a| + i] == b[i]
  {
  }

  lemma BlockInText(n: nat, m: nat, d: Draws, q: nat)
    requires q < n
    ensures BlockNumber(PythonLines(n, m, d), q, d)
  {
    var out, k := PythonLines(n, m, d), 3 + 22 * q;
    var block := BlockFrom(d)(k);
    BlockFromIs(k, d);
    TextAt(n, m, d, q, 21);
    forall r | 0 <= r < 22 ensures out[k + r] == block[r] {
      TextAt(n, m, d, q, r);
    }
    BlockThere(out, block, k, d);
  }

  lemma BlockThere(out: seq<Line>, block: seq<Line>, k: nat, d: Draws)
    requires block == BlockAt(k, d) && k + 22 <= |out| && forall r :: 0 <= r < 22 ==> out[k + r] == block[r]
    ensures BlockStarts(out, k, d)
  {
    MethodsIn(k, d);
    MethodShifted(block, out, 2, k, 0, d);
    MethodShifted(block, out, 7, k, 1, d);
    MethodShifted(block, out, 12, k, 2, d);
    MethodShifted(block, out, 17, k, 3, d);
    assert out[k + 0] == block[0] && out[k + 1] == block[1];
  }

  lemma {:induction false} FillersAt(k: nat, n: nat, i: nat)
    requires i < n
    ensures Fillers(k, n)[i] == Filler(k + i)
    decreases n
  {
    if i > 0 {
      FillersAt(k + 1, n - 1, i - 1);
    }
  }

  lemma LinesLaidOut(n: nat, m: nat, d: Draws)
    ensures LaidOut(PythonLines(n, m, d), n, d)
  {
    var out := PythonLines(n, m, d);
    BlocksLength(3, n, d);
    forall q: nat | q < n ensures BlockNumber(out, q, d) {
      BlockInText(n, m, d, q);
    }
    forall p | 3 + 22 * n <= p < |out| ensures out[p] == Filler(p) {
      FillersAt(3 + 22 * n, m, p - 3 - 22 * n);
    }
  }

  lemma SmallFitting(lines: int)
    ensures Fitting(lines) == if lines < 25 then 0 else (lines - 3) / 22
  {
  }

  lemma FittingRoom(lines: int)
    ensures lines >= 3 ==> 0 <= lines - 3 - BLOCK_LINES * Fitting(lines) < BLOCK_LINES
  {
  }

  /** Both declare a class, or both a method. */
  predicate SameSort(a: Line, b: Line) {
    (a.ClassLine? && b.ClassLine?) || (a.Def? && b.Def?)
  }

  /** No two lines declare classes of the same name, or methods of the same name. */
  predicate NamesApart(lines: seq<Line>) {
    forall i, j :: 0 <= i < j < |lines| && SameSort(lines[i], lines[j]) ==> Declared(lines[i]) != Declared(lines[j])
  }

  /** Of the generated lines, those that declare classes declare different names, and so do those
      that declare methods. */
  lemma TextNames(n: nat, m: nat, d: Draws)
    ensures NamesApart(PythonLines(n, m, d))
  {
    var out := PythonLines(n, m, d);
    TextPlaced(n, m, d);
    forall i, j | 0 <= i < j < |out| && SameSort(out[i], out[j])
      ensures Declared(out[i]) != Declared(out[j])
    {
      PlacedNamesDistinct(out, i, j);
    }
  }

  lemma DefOneLine(k: nat, slot: nat)
    ensures '\n' !in LineText(Def(k, slot))
  {
    DecNoNewline(k);
    DecNoNewline(slot);
    InConcat('\n', "_", Dec(slot));
    InConcat('\n', Dec(k), "_" + Dec(slot));
    InConcat('\n', "method_", Dec(k) + ("_" + Dec(slot)));
    InConcat('\n', MethodName(k, slot), "(self, value):");
    InConcat('\n', "    def ", MethodName(k, slot) + "(self, value):");
  }

  lemma ClassOneLine(k: nat)
    ensures '\n' !in LineText(ClassLine(k))
  {
    DecNoNewline(k);
    InConcat('\n', "Klass", Dec(k));
    InConcat('\n', ClassName(k), ":");
    InConcat('\n', "class ", ClassName(k) + ":");
  }

  lemma AttrOneLine(k: nat, value: nat)
    ensures '\n' !in LineText(Attr(k, value))
  {
    DecNoNewline(k);
    DecNoNewline(value);
    InConcat('\n', " = ", Dec(value));
    InConcat('\n', Dec(k), " = " + Dec(value));
    InConcat('\n', "    ATTR", Dec(k) + (" = " + Dec(value)));
  }

  lemma CommentOneLine(k: nat, slot: nat)
    ensures '\n' !in LineText(Comment(k, slot))
  {
    DecNoNewline(k);
    DecNoNewline(slot);
    InConcat('\n', ".", Dec(slot));
    InConcat('\n', Dec(k), "." + Dec(slot));
    InConcat('\n', "        # step ", Dec(k) + ("." + Dec(slot)));
  }

  lemma LineTextOneLine(l: Line)
    ensures '\n' !in LineText(l)
  {
    match l {
      case ClassLine(k) => ClassOneLine(k);
      case Attr(k, value) => AttrOneLine(k, value);
      case Def(k, slot) => DefOneLine(k, slot);
      case Comment(k, slot) => CommentOneLine(k, slot);
      case Total(value) =>
        DecNoNewline(value);
        InConcat('\n', "        total = value + ", Dec(value));
      case Filler(k) =>
        DecNoNewline(k);
        InConcat('\n', "# filler line ", Dec(k));
      case _ =>
    }
  }

  /** The text of lines has one newline for each. */
  lemma {:induction false} TextLines(lines: seq<Line>)
    ensures Newlines(TextOf(lines)) == |lines|
  {
    if lines != [] {
      TextLines(lines[1..]);
      LineTextOneLine(lines[0]);
      NoNewlines(LineText(lines[0]));
      NewlinesConcat(LineText(lines[0]) + "\n", TextOf(lines[1..]));
      NewlinesConcat(LineText(lines[0]), "\n");
      assert "\n"[1..] == [];
    }
  }

  /** Blocks that start at different lines have different class names, and no two methods of all
      the blocks have the same name. */
  lemma NamesDistinct(j: nat, slot: nat, k: nat, slot': nat)
    ensures ClassName(j) == ClassName(k) ==> j == k
    ensures MethodName(j, slot) == MethodName(k, slot') ==> j == k && slot == slot'
  {
    if ClassName(j) == ClassName(k) {
      assert ClassName(j)[5..] == Dec(j) && ClassName(k)[5..] == Dec(k);
      DecInjective(j, k);
    }
    if MethodName(j, slot) == MethodName(k, slot') {
      assert MethodName(j, slot)[7..] == Dec(j) + ("_" + Dec(slot));
      assert MethodName(k, slot')[7..] == Dec(k) + ("_" + Dec(slot'));
      DecBefore(j, k, '_', Dec(slot), Dec(slot'));
      DecInjective(slot, slot');
    }
  }

  // ----- names in the generated text -------------------------------------------------------

  /** Class lines are numbered by where they stand; a method line stands behind the two head lines
      of its block, five lines for each slot. */
  predicate Placed(l: Line, at: nat) {
    match l
    case ClassLine(k) => at == k
    case Def(k, slot) => at == k + 2 + 5 * slot
    case _ => true
  }

  predicate AllPlaced(lines: seq<Line>, from: nat) {
    forall i :: 0 <= i < |lines| ==> Placed(lines[i], from + i)
  }

  lemma PlacedConcat(a: seq<Line>, b: seq<Line>, from: nat)
    requires AllPlaced(a, from) && AllPlaced(b, from + |a|)
    ensures AllPlaced(a + b, from)
  {
    forall i | 0 <= i < |a + b| ensures Placed((a + b)[i], from + i) {
      if i >= |a| {
        assert Placed(b[i - |a|], from + |a| + (i - |a|));
      }
    }
  }

  lemma {:induction false} SlotsPlaced(k: nat, slot: nat, d: Draws)
    requires slot <= SLOTS
    ensures AllPlaced(SlotsFrom(k, slot, d), k + 2 + 5 * slot)
    decreases SLOTS - slot
  {
    if slot < SLOTS {
      SlotsPlaced(k, slot + 1, d);
      PlacedConcat(SlotLines(k, slot, d), SlotsFrom(k, slot + 1, d), k + 2 + 5 * slot);
    }
  }

  lemma BlockPlaced(k: nat, d: Draws)
    ensures AllPlaced(BlockAt(k, d), k)
  {
    SlotsPlaced(k, 0, d);
    PlacedConcat([ClassLine(k), Attr(k, d.attr(k))], SlotsFrom(k, 0, d), k);
  }

  ghost predicate PlacesItself(f: nat -> seq<Line>, step: nat) {
    forall k :: |f(k)| == step && AllPlaced(f(k), k)
  }

  lemma {:induction false} RunPlaced(f: nat -> seq<Line>, k: nat, step: nat, n: nat)
    requires PlacesItself(f, step)
    ensures AllPlaced(Run(f, k, step, n), k) && |Run(f, k, step, n)| == step * n
    decreases n
  {
    if n > 0 {
      RunPlaced(f, k + step, step, n - 1);
      PlacedConcat(f(k), Run(f, k + step, step, n - 1), k);
      assert step + step * (n - 1) == step * n;
    }
  }

  lemma BlocksPlaced(k: nat, n: nat, d: Draws)
    ensures AllPlaced(Blocks(k, n, d), k) && |Blocks(k, n, d)| == BLOCK_LINES * n
  {
    var f := BlockFrom(d);
    forall k ensures |f(k)| == BLOCK_LINES && AllPlaced(f(k), k) {
      BlockPlaced(k, d);
      assert f(k) == BlockAt(k, d);
    }
    RunPlaced(f, k, BLOCK_LINES, n);
  }

  lemma {:induction false} FillersPlaced(k: nat, n: nat, from: nat)
    ensures AllPlaced(Fillers(k, n), from)
    decreases n
  {
    if n > 0 {
      FillersPlaced(k + 1, n - 1, from + 1);
      PlacedConcat([Filler(k)], Fillers(k + 1, n - 1), from);
    }
  }

  /** Every line of a generated text stands where its number says. */
  lemma TextPlaced(n: nat, m: nat, d: Draws)
    ensures AllPlaced(PythonLines(n, m, d), 0)
  {
    BlocksPlaced(3, n, d);
    FillersPlaced(3 + BLOCK_LINES * n, m, 3 + BLOCK_LINES * n);
    PlacedConcat(HEADER, Blocks(3, n, d), 0);
    PlacedConcat(HEADER + Blocks(3, n, d), Fillers(3 + BLOCK_LINES * n, m), 0);
  }

  /** The name a line declares, if it does. */
  function Declared(l: Line): (name: string) {
    match l
    case ClassLine(k) => ClassName(k)
    case Def(k, slot) => MethodName(k, slot)
    case _ => ""
  }

  /** In lines that stand where their numbers say, no two classes have the same name, and no two
      methods. */
  lemma PlacedNamesDistinct(lines: seq<Line>, i: nat, j: nat)
    requires AllPlaced(lines, 0) && i < j < |lines|
    requires SameSort(lines[i], lines[j])
    ensures Declared(lines[i]) != Declared(lines[j])
  {
    assert Placed(lines[i], 0 + i) && Placed(lines[j], 0 + j);
    if lines[i].ClassLine? {
      NamesDistinct(lines[i].k, 0, lines[j].k, 0);
    } else {
      NamesDistinct(lines[i].k, lines[i].slot, lines[j].k, lines[j].slot);
    }
  }
}
