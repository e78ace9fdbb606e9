/** Reading back the written file gives back the model. */
module ElfRoundTrip {
  import opened Words
  import opened Ir
  import opened ElfBytes
  import opened ElfObject
  import opened ElfWriter
  import opened ElfReader

  // ---- What is read back ----

  function ViewReloc(m: Model, r: Reloc): ReadReloc {
    ReadReloc(r.offset, PositionOf(Order(m.symbols), r.symbol), Some(r.kind), Addend(r.kind))
  }

  function ViewSection(m: Model, s: Section): ReadSection {
    ReadSection(Some(s.kind), if s.kind == Bss then [] else s.data, s.size,
                seq(|s.relocs|, k requires 0 <= k < |s.relocs| => ViewReloc(m, s.relocs[k])))
  }

  /** An undefined symbol has no type, a section symbol no name. */
  function ViewSymbol(s: Symbol): ReadSymbol {
    ReadSymbol(if s.kind == SectionStart then [] else s.name, s.section, s.value, if s.section.Some? then Some(s.kind) else None, Binding(s))
  }

  /** The model with its symbols in table order and relocations naming them there. */
  function View(m: Model): ReadObject {
    OrderFacts(m.symbols);
    var order := Order(m.symbols);
    ReadObject(MachineCode(m.machine),
               seq(|m.sections|, i requires 0 <= i < |m.sections| => ViewSection(m, m.sections[i])),
               seq(|order|, p requires 0 <= p < |order| => ViewSymbol(m.symbols[order[p]])),
               LocalCount(m.symbols))
  }

  /** A relocation read back names the symbol it was made for. */
  lemma RelocNamesSymbol(m: Model, i: nat, k: nat)
    requires SymbolsKnown(m) && i < |m.sections| && k < |m.sections[i].relocs|
    ensures var v := View(m); var r := v.sections[i].relocs[k];
            && r.symbol < |v.symbols| && v.symbols[r.symbol] == ViewSymbol(m.symbols[m.sections[i].relocs[k].symbol])
            && r.offset == m.sections[i].relocs[k].offset && r.kind == Some(m.sections[i].relocs[k].kind)
  {
    OrderFacts(m.symbols);
    OrderDistinct(m.symbols);
    hide Order, PositionOf, ViewSymbol;
    var j := m.sections[i].relocs[k].symbol;
    assert j in Order(m.symbols);
    var q :| 0 <= q < |Order(m.symbols)| && Order(m.symbols)[q] == j;
    PositionIs(Order(m.symbols), q);
  }

  /** What the fixed-width fields and NUL-terminated names can hold. */
  ghost predicate Fits(m: Model) {
    && SymbolsKnown(m) && |Plan(m)| < 0x1_0000 && TableAt(Plan(m)) < TWO64
    && |NameTable(m)| < 0x1_0000_0000
    && |m.symbols| < 0xFFFF_FFFF && |Strtab(m.symbols, OrderOf(m), |OrderOf(m)|)| < 0x1_0000_0000
    && (forall i :: 0 <= i < |m.sections| ==> m.sections[i].size < TWO64 && (m.sections[i].kind != Bss ==> m.sections[i].size == |m.sections[i].data|))
    && (forall i, k :: 0 <= i < |m.sections| && 0 <= k < |m.sections[i].relocs| ==> m.sections[i].relocs[k].offset < TWO64)
    && forall j :: 0 <= j < |m.symbols| ==> SymbolFits(m, m.symbols[j])
  }

  predicate SymbolFits(m: Model, s: Symbol) {
    s.value < TWO64 && 0 !in s.name && (s.section.Some? ==> s.section.value < |m.sections|)
  }

  function OrderOf(m: Model): (order: seq<nat>)
    ensures order == Order(m.symbols) && forall i :: 0 <= i < |order| ==> order[i] < |m.symbols|
  {
    OrderFacts(m.symbols);
    Order(m.symbols)
  }

  // ---- Where things are in the file ----

  lemma {:induction false} CursorGrows(ps: seq<Planned>, i: nat, j: nat)
    requires i <= j <= |ps|
    ensures Cursor(ps, i) <= Cursor(ps, j)
    decreases j
  {
    if i < j { CursorGrows(ps, i, j - 1); }
  }

  predicate InFile(p: Planned) { p.kind != 0 && p.kind != SHT_NOBITS }

  lemma StartBound(ps: seq<Planned>, i: nat)
    requires i < |ps|
    ensures Start(ps, i) <= TableAt(ps) && (InFile(ps[i]) ==> Start(ps, i) + |ps[i].bytes| <= TableAt(ps))
  {
    CursorGrows(ps, i + 1, |ps|);
    hide AlignUp;
    assert ps[i].kind != 0 ==> Cursor(ps, i + 1) == Start(ps, i) + if ps[i].kind == SHT_NOBITS then 0 else |ps[i].bytes|;
  }

  lemma {:induction false} BodyLength(head: seq<Byte>, ps: seq<Planned>, i: nat)
    requires i <= |ps| && |head| == EHDR_SIZE
    ensures |Body(head, ps, i)| <= Cursor(ps, i)
    decreases i
  {
    hide AlignUp, Padded;
    if i > 0 {
      BodyLength(head, ps, i - 1);
      StartAfter(ps, i - 1);
    }
  }

  lemma StartAfter(ps: seq<Planned>, i: nat)
    requires i < |ps|
    ensures ps[i].kind != 0 ==> Cursor(ps, i) <= Start(ps, i)
  {
  }

  /** A section's bytes stay where they were put. */
  lemma {:induction false} BodyAt(head: seq<Byte>, ps: seq<Planned>, i: nat, j: nat)
    requires i < j <= |ps| && |head| == EHDR_SIZE && InFile(ps[i])
    ensures At(Body(head, ps, j), Start(ps, i), ps[i].bytes)
    decreases j
  {
    hide AlignUp, At, Padded, Cursor, Start;
    if i == j - 1 {
      BodyLength(head, ps, i);
      StartAfter(ps, i);
      AtEnd(Padded(Body(head, ps, i), Start(ps, i)), ps[i].bytes);
    } else {
      BodyAt(head, ps, i, j - 1);
      if InFile(ps[j - 1]) {
        PaddedAt(Body(head, ps, j - 1), Start(ps, j - 1), Start(ps, i), ps[i].bytes);
        AtMore(Padded(Body(head, ps, j - 1), Start(ps, j - 1)), ps[j - 1].bytes, Start(ps, i), ps[i].bytes);
      }
    }
  }

  lemma PaddedAt(b: seq<Byte>, length: nat, at: nat, part: seq<Byte>)
    requires At(b, at, part)
    ensures At(Padded(b, length), at, part)
  {
    if |b| < length { AtMore(b, Zeros(length - |b|), at, part); }
  }

  lemma {:induction false} HeadStays(head: seq<Byte>, ps: seq<Planned>, i: nat)
    requires i <= |ps|
    ensures At(Body(head, ps, i), 0, head)
    decreases i
  {
    hide AlignUp, Padded, Cursor, Start;
    if i > 0 {
      HeadStays(head, ps, i - 1);
      hide At;
      if InFile(ps[i - 1]) {
        PaddedAt(Body(head, ps, i - 1), Start(ps, i - 1), 0, head);
        AtMore(Padded(Body(head, ps, i - 1), Start(ps, i - 1)), ps[i - 1].bytes, 0, head);
      }
    }
  }

  lemma {:induction false} HeadersAt(m: Model, i: nat, k: nat)
    requires i < k <= |Plan(m)|
    ensures At(Headers(m, k), SHDR_SIZE * i, HeaderBytes(Plan(m)[i], NameOffset(m, i), Start(Plan(m), i)))
    decreases k
  {
    hide Plan, NameOffset, Start, HeaderBytes, At;
    var last := HeaderBytes(Plan(m)[k - 1], NameOffset(m, k - 1), Start(Plan(m), k - 1));
    if i == k - 1 {
      AtEnd(Headers(m, i), last);
    } else {
      HeadersAt(m, i, k - 1);
      AtMore(Headers(m, k - 1), last, SHDR_SIZE * i, HeaderBytes(Plan(m)[i], NameOffset(m, i), Start(Plan(m), i)));
    }
  }

  lemma AtShift(a: seq<Byte>, b: seq<Byte>, at: nat, part: seq<Byte>)
    requires At(b, at, part)
    ensures At(a + b, |a| + at, part)
  {
    assert (a + b)[|a| + at..|a| + at + |part|] == b[at..at + |part|];
  }

  /** The file header, every section's bytes and every section header are where they should be. */
  lemma FileAt(m: Model, i: nat)
    requires i < |Plan(m)|
    ensures At(Elf(m), 0, Ehdr(MachineCode(m.machine), TableAt(Plan(m)), |Plan(m)|))
    ensures InFile(Plan(m)[i]) ==> At(Elf(m), Start(Plan(m), i), Plan(m)[i].bytes)
    ensures At(Elf(m), TableAt(Plan(m)) + SHDR_SIZE * i, HeaderBytes(Plan(m)[i], NameOffset(m, i), Start(Plan(m), i)))
  {
    hide Plan, NameOffset, Start, HeaderBytes, At, Headers, Body, Ehdr, Padded, Cursor, AlignUp;
    var ps := Plan(m);
    var head := Ehdr(MachineCode(m.machine), TableAt(ps), |ps|);
    var body := Body(head, ps, |ps|);
    var content, table := Padded(body, TableAt(ps)), Headers(m, |ps|);
    BodyLength(head, ps, |ps|);
    HeadStays(head, ps, |ps|);
    PaddedAt(body, TableAt(ps), 0, head);
    AtMore(content, table, 0, head);
    if InFile(ps[i]) {
      BodyAt(head, ps, i, |ps|);
      PaddedAt(body, TableAt(ps), Start(ps, i), ps[i].bytes);
      AtMore(content, table, Start(ps, i), ps[i].bytes);
    }
    assert |content| == TableAt(ps) by { TableBound(ps); }
    HeadersAt(m, i, |ps|);
    AtShift(content, table, SHDR_SIZE * i, HeaderBytes(ps[i], NameOffset(m, i), Start(ps, i)));
  }

  lemma TableBound(ps: seq<Planned>)
    ensures Cursor(ps, |ps|) <= TableAt(ps)
  {
  }

  // ---- Reading headers ----

  /** Fields after a prefix of known length. */
  lemma FieldAfter(b: seq<Byte>, at: nat, before: seq<Byte>, x: nat, n: nat, after: seq<Byte>)
    requires At(b, at, before + Le(x, n) + after) && x < Pow256(n)
    ensures ReadLe(b, at + |before|, n) == x
  {
    hide At, ReadLe, Le;
    AtSplit(b, at, before + Le(x, n), after);
    AtSplit(b, at, before, Le(x, n));
    FieldReads(b, at + |before|, x, n);
  }

  lemma EhdrReads(b: seq<Byte>, machine: nat, shoff: nat, shnum: nat)
    requires 0 < shnum < 0x1_0000 && machine < 0x1_0000 && shoff < TWO64 && At(b, 0, Ehdr(machine, shoff, shnum))
    ensures ReadLe(b, 18, 2) == machine && ReadLe(b, 40, 8) == shoff && ReadLe(b, 60, 2) == shnum && ReadLe(b, 62, 2) == shnum - 1
  {
    Powers();
    hide At, ReadLe, Le, Pow256;
    var h := Ehdr(machine, shoff, shnum);
    var a := [0x7F, 0x45, 0x4C, 0x46, 2, 1, 1, 0, 0] + Zeros(7) + Le(ET_REL, 2);
    var c := Le(1, 4) + Le(0, 8) + Le(0, 8);
    var d := Le(0, 4) + Le(EHDR_SIZE, 2) + Le(0, 2) + Le(0, 2) + Le(SHDR_SIZE, 2);
    assert h == a + Le(machine, 2) + (c + Le(shoff, 8) + d + Le(shnum, 2) + Le(shnum - 1, 2));
    FieldAfter(b, 0, a, machine, 2, c + Le(shoff, 8) + d + Le(shnum, 2) + Le(shnum - 1, 2));
    assert h == (a + Le(machine, 2) + c) + Le(shoff, 8) + (d + Le(shnum, 2) + Le(shnum - 1, 2));
    FieldAfter(b, 0, a + Le(machine, 2) + c, shoff, 8, d + Le(shnum, 2) + Le(shnum - 1, 2));
    var e := a + Le(machine, 2) + c + Le(shoff, 8) + d;
    assert h == e + Le(shnum, 2) + Le(shnum - 1, 2);
    FieldAfter(b, 0, e, shnum, 2, Le(shnum - 1, 2));
    assert h == (e + Le(shnum, 2)) + Le(shnum - 1, 2) + [];
    FieldAfter(b, 0, e + Le(shnum, 2), shnum - 1, 2, []);
  }

  /** The values of a header fit its fields. */
  predicate HeaderFits(p: Planned, name: nat, offset: nat) {
    && name < 0x1_0000_0000 && p.kind < 0x1_0000_0000 && p.flags < TWO64 && offset < TWO64 && p.size < TWO64
    && p.link < 0x1_0000_0000 && p.info < 0x1_0000_0000 && p.align < TWO64 && p.entsize < TWO64
  }

  function HeaderOf(p: Planned, name: nat, offset: nat): Shdr {
    Shdr(name, p.kind, p.flags, offset, p.size, p.link, p.info, p.align, p.entsize)
  }

  lemma HeaderReads(b: seq<Byte>, at: nat, p: Planned, name: nat, offset: nat)
    requires HeaderFits(p, name, offset) && At(b, at, HeaderBytes(p, name, offset))
    ensures ReadShdr(b, at) == HeaderOf(p, name, offset)
  {
    Powers();
    hide At, ReadLe, Le, Pow256;
    var x0, x1, x2, x3 := Le(name, 4), Le(p.kind, 4), Le(p.flags, 8), Le(0, 8);
    var front := x0 + x1 + x2 + x3;
    var y0, y1, y2, y3, y4, y5 := Le(offset, 8), Le(p.size, 8), Le(p.link, 4), Le(p.info, 4), Le(p.align, 8), Le(p.entsize, 8);
    var back := y0 + y1 + y2 + y3 + y4 + y5;
    assert HeaderBytes(p, name, offset) == front + back;
    AtSplit(b, at, front, back);
    FrontReads(b, at, p, name);
    BackReads(b, at + 24, p, offset);
  }

  lemma FrontReads(b: seq<Byte>, at: nat, p: Planned, name: nat)
    requires HeaderFits(p, name, 0) && At(b, at, Le(name, 4) + Le(p.kind, 4) + Le(p.flags, 8) + Le(0, 8))
    ensures ReadLe(b, at, 4) == name && ReadLe(b, at + 4, 4) == p.kind && ReadLe(b, at + 8, 8) == p.flags
  {
    Powers();
    hide At, ReadLe, Le, Pow256;
    var x0, x1, x2, x3 := Le(name, 4), Le(p.kind, 4), Le(p.flags, 8), Le(0, 8);
    AtSplit(b, at, x0 + x1 + x2, x3);
    AtSplit(b, at, x0 + x1, x2);
    AtSplit(b, at, x0, x1);
    FieldReads(b, at, name, 4);
    FieldReads(b, at + 4, p.kind, 4);
    FieldReads(b, at + 8, p.flags, 8);
  }

  lemma BackReads(b: seq<Byte>, at: nat, p: Planned, offset: nat)
    requires HeaderFits(p, 0, offset)
    requires At(b, at, Le(offset, 8) + Le(p.size, 8) + Le(p.link, 4) + Le(p.info, 4) + Le(p.align, 8) + Le(p.entsize, 8))
    ensures ReadLe(b, at, 8) == offset && ReadLe(b, at + 8, 8) == p.size && ReadLe(b, at + 16, 4) == p.link
    ensures ReadLe(b, at + 20, 4) == p.info && ReadLe(b, at + 24, 8) == p.align && ReadLe(b, at + 32, 8) == p.entsize
  {
    Powers();
    hide At, ReadLe, Le, Pow256;
    var y0, y1, y2, y3, y4, y5 := Le(offset, 8), Le(p.size, 8), Le(p.link, 4), Le(p.info, 4), Le(p.align, 8), Le(p.entsize, 8);
    AtSplit(b, at, y0 + y1 + y2 + y3 + y4, y5);
    AtSplit(b, at, y0 + y1 + y2 + y3, y4);
    AtSplit(b, at, y0 + y1 + y2, y3);
    AtSplit(b, at, y0 + y1, y2);
    AtSplit(b, at, y0, y1);
    FieldReads(b, at, offset, 8);
    FieldReads(b, at + 8, p.size, 8);
    FieldReads(b, at + 16, p.link, 4);
    FieldReads(b, at + 20, p.info, 4);
    FieldReads(b, at + 24, p.align, 8);
    FieldReads(b, at + 32, p.entsize, 8);
  }

  // ---- The plan, by position ----

  lemma PlanAt(m: Model)
    ensures var ps, n := Plan(m), |m.sections|; var r := Relocated(m.sections, 0);
            && ps[0] == NULL_SECTION && (forall i :: 0 <= i < n ==> ps[1 + i] == PlanContent(m.sections[i]))
            && (forall i :: 0 <= i < |r| ==> r[i] < n && ps[1 + n + i] == PlanRela(m, SymtabAt(m), r[i]))
            && ps[SymtabAt(m)] == SymtabPlan(m) && ps[SymtabAt(m) + 1] == StrtabPlan(m) && ps[SymtabAt(m) + 2] == NamesPlan(m)
  {
    hide Plan, PlanContent, PlanRela, Contents, Relas, SymtabPlan, StrtabPlan, NamesPlan, Relocated;
    RelasAt(m);
    PlanParts(m);
    PartsAt(NULL_SECTION, Contents(m.sections), Relas(m, SymtabAt(m)), SymtabPlan(m), StrtabPlan(m), NamesPlan(m));
    ContentsAt(m.sections);
  }

  lemma ContentsAt(sections: seq<Section>)
    ensures |Contents(sections)| == |sections| && forall i :: 0 <= i < |sections| ==> Contents(sections)[i] == PlanContent(sections[i])
  {
    hide PlanContent;
  }

  lemma RelasAt(m: Model)
    ensures var r, relas := Relocated(m.sections, 0), Relas(m, SymtabAt(m));
            |relas| == |r| && forall i :: 0 <= i < |r| ==> r[i] < |m.sections| && relas[i] == PlanRela(m, SymtabAt(m), r[i])
  {
    RelocatedFacts(m.sections, 0);
    hide PlanRela, Relocated;
  }

  lemma PlanParts(m: Model)
    ensures Plan(m) == [NULL_SECTION] + Contents(m.sections) + Relas(m, SymtabAt(m)) + [SymtabPlan(m), StrtabPlan(m)] + [NamesPlan(m)]
  {
    hide Symtab, Strtab, Order, Relocated, Relas, Contents, NameTable, Ascii;
  }

  lemma PartsAt(a: Planned, c: seq<Planned>, r: seq<Planned>, x: Planned, y: Planned, z: Planned)
    ensures var ps := [a] + c + r + [x, y] + [z]; var k := 1 + |c| + |r|;
            && ps[0] == a && (forall i :: 0 <= i < |c| ==> ps[1 + i] == c[i]) && (forall i :: 0 <= i < |r| ==> ps[1 + |c| + i] == r[i])
            && ps[k] == x && ps[k + 1] == y && ps[k + 2] == z
  {
  }

  function SymtabPlan(m: Model): Planned {
    var order := OrderOf(m);
    var symtab := Symtab(m.symbols, order, |order|);
    Planned(Ascii(".symtab"), SHT_SYMTAB, 0, 8, SYM_SIZE, |symtab|, SymtabAt(m) + 1, 1 + LocalCount(m.symbols), symtab)
  }

  function StrtabPlan(m: Model): Planned {
    var order := OrderOf(m);
    var strtab := Strtab(m.symbols, order, |order|);
    Planned(Ascii(".strtab"), SHT_STRTAB, 0, 1, 0, |strtab|, 0, 0, strtab)
  }

  function NamesPlan(m: Model): Planned { Planned(SHSTRTAB, SHT_STRTAB, 0, 1, 0, |NameTable(m)|, 0, 0, NameTable(m)) }

  /** Sections in the file are as long as their size says; one without file bytes has none. */
  ghost predicate Sized(p: Planned) {
    && (InFile(p) ==> p.size == |p.bytes|) && p.size < TWO64 && p.link < 0x1_0000 && p.info < 0x1_0000_0000
    && p.kind <= 8 && p.flags <= 6 && p.align <= 16 && p.entsize <= 24
  }

  lemma PlanSizes(m: Model, i: nat)
    requires Fits(m) && i < |Plan(m)|
    ensures Sized(Plan(m)[i])
  {
    hide Fits, Plan, Start, TableAt, Relocated, PlanContent, PlanRela, SymtabPlan, StrtabPlan, NamesPlan, Sized;
    PlanAt(m);
    StartBound(Plan(m), i);
    FitsSizes(m);
    var n := |m.sections|;
    if i == 0 {
      assert Sized(NULL_SECTION) by { NullSized(); }
    } else if i <= n {
      assert Plan(m)[1 + (i - 1)] == PlanContent(m.sections[i - 1]);
      ContentSized(m, i - 1);
    } else if i < SymtabAt(m) {
      var k := i - 1 - n;
      assert Relocated(m.sections, 0)[k] < n;
      assert Plan(m)[1 + n + k] == PlanRela(m, SymtabAt(m), Relocated(m.sections, 0)[k]);
      RelaSized(m, i);
    } else {
      TailSized(m, i);
    }
  }

  lemma NullSized()
    ensures Sized(NULL_SECTION)
  {
  }

  lemma ContentSized(m: Model, i: nat)
    requires i < |m.sections| && m.sections[i].size < TWO64 && (m.sections[i].kind != Bss ==> m.sections[i].size == |m.sections[i].data|)
    ensures Sized(PlanContent(m.sections[i]))
  {
    hide Ascii;
  }

  lemma RelaSized(m: Model, i: nat)
    requires |m.sections| < i < SymtabAt(m) < |Plan(m)| < 0x1_0000
    requires Relocated(m.sections, 0)[i - 1 - |m.sections|] < |m.sections|
    requires Plan(m)[i] == PlanRela(m, SymtabAt(m), Relocated(m.sections, 0)[i - 1 - |m.sections|])
    requires InFile(Plan(m)[i]) ==> Start(Plan(m), i) + |Plan(m)[i].bytes| < TWO64
    ensures Sized(Plan(m)[i])
  {
    hide Plan, Start, Relocated, Rela, Ascii;
  }

  lemma TailSized(m: Model, i: nat)
    requires Plan(m)[SymtabAt(m)] == SymtabPlan(m) && Plan(m)[SymtabAt(m) + 1] == StrtabPlan(m) && Plan(m)[SymtabAt(m) + 2] == NamesPlan(m)
    requires SymtabAt(m) <= i < |Plan(m)| < 0x1_0000 && |m.symbols| < 0xFFFF_FFFF
    requires InFile(Plan(m)[i]) ==> Start(Plan(m), i) + |Plan(m)[i].bytes| < TWO64
    ensures Sized(Plan(m)[i])
  {
    LocalsFew(m.symbols);
    hide Plan, Start, Symtab, Strtab, NameTable, LocalCount, Ascii, Order, Relocated;
  }

  lemma FitsSizes(m: Model)
    requires Fits(m)
    ensures |Plan(m)| < 0x1_0000 && TableAt(Plan(m)) < TWO64 && |m.symbols| < 0xFFFF_FFFF
    ensures forall i :: 0 <= i < |m.sections| ==> m.sections[i].size < TWO64 && (m.sections[i].kind != Bss ==> m.sections[i].size == |m.sections[i].data|)
  {
    hide Plan, TableAt, Strtab, NameTable, SymbolFits;
  }

  lemma {:induction false} BindingFew(symbols: seq<Symbol>, binding: nat, from: nat)
    requires from <= |symbols|
    ensures |WithBinding(symbols, binding, from)| <= |symbols| - from
    decreases |symbols| - from
  {
    if from < |symbols| { BindingFew(symbols, binding, from + 1); }
  }

  lemma LocalsFew(symbols: seq<Symbol>)
    ensures LocalCount(symbols) <= |symbols|
  {
    BindingFew(symbols, STB_LOCAL, 0);
  }

  // ---- Section names ----

  lemma {:induction false} ShstrtabGrows(ps: seq<Planned>, i: nat, j: nat)
    requires i < j <= |ps| && ps[i].name != []
    ensures At(Shstrtab(ps, j), |Shstrtab(ps, i)|, ps[i].name + [0]) && |Shstrtab(ps, i)| < |Shstrtab(ps, j)|
    decreases j
  {
    hide At;
    if i == j - 1 {
      AtEnd(Shstrtab(ps, i), ps[i].name + [0]);
    } else {
      ShstrtabGrows(ps, i, j - 1);
      AtMore(Shstrtab(ps, j - 1), if ps[j - 1].name == [] then [] else ps[j - 1].name + [0], |Shstrtab(ps, i)|, ps[i].name + [0]);
    }
  }

  /** The header of a named section gives its name. */
  lemma NameReads(m: Model, i: nat)
    requires i < |Named(m)| && Named(m)[i].name != [] && 0 !in Named(m)[i].name
    ensures CStr(NameTable(m), NameOffset(m, i)) == Named(m)[i].name
  {
    hide Named, Shstrtab, CStr, At;
    var ps := Named(m);
    ShstrtabGrows(ps, i, |ps|);
    AtMore(Shstrtab(ps, |ps|), SHSTRTAB + [0], |Shstrtab(ps, i)|, ps[i].name + [0]);
    CStrReads(NameTable(m), NameOffset(m, i), ps[i].name);
  }

  lemma NameOffsetSmall(m: Model, i: nat)
    requires i < |Plan(m)|
    ensures NameOffset(m, i) <= |NameTable(m)|
  {
    hide Named;
    var ps := Named(m);
    if i < |ps| && ps[i].name != [] { ShstrtabGrows(ps, i, |ps|); }
    hide Shstrtab;
  }

  lemma KindNames(kind: SectionKind)
    ensures Ascii(SectionName(kind)) != [] && 0 !in Ascii(SectionName(kind)) && KindNamed(Ascii(SectionName(kind))) == Some(kind)
  {
    AsciiAt(SectionName(kind));
    assert Ascii(".debug_line")[7] != Ascii(".debug_info")[7];
    assert |Ascii(".text")| == 5 && |Ascii(".rodata")| == 7 && |Ascii(".bss")| == 4 && |Ascii(".debug_line")| == 11;
    assert |Ascii(".debug_info")| == 11 && |Ascii(".debug_abbrev")| == 13;
    hide Ascii;
  }

  lemma AsciiAt(s: string)
    requires forall c :: c in s ==> 0 as char < c < 128 as char
    ensures 0 !in Ascii(s)
  {
    forall i | 0 <= i < |s| ensures Ascii(s)[i] != 0 { assert s[i] in s; }
  }

  // ---- The section table ----

  lemma TableReads(m: Model)
    requires Fits(m)
    ensures var b, ps := Elf(m), Plan(m); var hs := SectionTable(b);
            && ReadLe(b, 18, 2) == MachineCode(m.machine) && ReadLe(b, 62, 2) == |ps| - 1 && |hs| == |ps|
            && forall i :: 0 <= i < |ps| ==> hs[i] == HeaderOf(ps[i], NameOffset(m, i), Start(ps, i))
  {
    hide Fits, Plan, Elf, NameOffset, Start, At, Ehdr, HeaderBytes, ReadLe, TableAt, ReadShdr;
    var b, ps := Elf(m), Plan(m);
    FitsSizes(m);
    FileAt(m, 0);
    EhdrReads(b, MachineCode(m.machine), TableAt(ps), |ps|);
    forall i | 0 <= i < |ps| ensures ReadShdr(b, TableAt(ps) + SHDR_SIZE * i) == HeaderOf(ps[i], NameOffset(m, i), Start(ps, i)) {
      HeaderReadsAt(m, i);
    }
  }

  lemma SizedFits(p: Planned, name: nat, offset: nat)
    requires Sized(p) && name < 0x1_0000_0000 && offset < TWO64
    ensures HeaderFits(p, name, offset)
  {
  }

  lemma HeaderReadsAt(m: Model, i: nat)
    requires Fits(m) && i < |Plan(m)|
    ensures ReadShdr(Elf(m), TableAt(Plan(m)) + SHDR_SIZE * i) == HeaderOf(Plan(m)[i], NameOffset(m, i), Start(Plan(m), i))
  {
    hide Fits, Plan, Elf, NameOffset, Start, At, HeaderBytes, ReadLe, TableAt, ReadShdr, Ehdr, Sized, HeaderFits, NameTable, HeaderOf, SymtabAt;
    FitsSizes(m);
    FileAt(m, i);
    PlanSizes(m, i);
    NameOffsetSmall(m, i);
    NamesFit(m);
    StartBound(Plan(m), i);
    SizedFits(Plan(m)[i], NameOffset(m, i), Start(Plan(m), i));
    HeaderReads(Elf(m), TableAt(Plan(m)) + SHDR_SIZE * i, Plan(m)[i], NameOffset(m, i), Start(Plan(m), i));
  }

  lemma NamesFit(m: Model)
    requires Fits(m)
    ensures |NameTable(m)| < 0x1_0000_0000
  {
    hide Plan, TableAt, Strtab, NameTable, SymbolFits;
  }

  /** A section's bytes are found through its header. */
  lemma ContentReads(m: Model, i: nat)
    requires Fits(m) && i < |Plan(m)| && Plan(m)[i].kind != 0
    ensures Contained(Elf(m), Nth(SectionTable(Elf(m)), i)) == if InFile(Plan(m)[i]) then Plan(m)[i].bytes else []
  {
    hide Fits, Plan, Elf, NameOffset, Start, SectionTable, TableAt;
    TableReads(m);
    FileAt(m, i);
    PlanSizes(m, i);
    if InFile(Plan(m)[i]) { AtSlice(Elf(m), Start(Plan(m), i), Plan(m)[i].bytes); }
  }

  // ---- Finding sections ----

  lemma {:induction false} FindKindIs(hs: seq<Shdr>, kind: nat, i: nat, k: nat)
    requires i <= k < |hs| && hs[k].kind == kind && forall j :: i <= j < k ==> hs[j].kind != kind
    ensures FindKind(hs, kind, i) == k
    decreases k - i
  {
    if i < k { FindKindIs(hs, kind, i + 1, k); }
  }

  lemma {:induction false} FindRelaIs(hs: seq<Shdr>, target: nat, i: nat, k: nat)
    requires i <= k <= |hs| && (k < |hs| ==> hs[k].kind == SHT_RELA && hs[k].info == target)
    requires forall j :: i <= j < k ==> !(hs[j].kind == SHT_RELA && hs[j].info == target)
    ensures FindRela(hs, target, i) == k
    decreases k - i
  {
    if i < k { FindRelaIs(hs, target, i + 1, k); }
  }

  lemma {:induction false} ContentCountIs(hs: seq<Shdr>, i: nat, k: nat)
    requires i <= k < |hs| && hs[k].kind != SHT_PROGBITS && hs[k].kind != SHT_NOBITS
    requires forall j :: i <= j < k ==> hs[j].kind == SHT_PROGBITS || hs[j].kind == SHT_NOBITS
    ensures ContentCount(hs, i) == k - i
    decreases k - i
  {
    if i < k { ContentCountIs(hs, i + 1, k); }
  }

  /** The kinds of the headers by position, and the targets of the relocation sections. */
  lemma KindsAt(m: Model)
    ensures var ps, n := Plan(m), |m.sections|; var r := Relocated(m.sections, 0);
            && ps[0].kind == 0 && (forall i :: 1 <= i <= n ==> ps[i].kind == SHT_PROGBITS || ps[i].kind == SHT_NOBITS)
            && (forall i :: n < i < SymtabAt(m) ==> ps[i].kind == SHT_RELA && ps[i].info == r[i - 1 - n] + 1)
            && ps[SymtabAt(m)].kind == SHT_SYMTAB && ps[SymtabAt(m) + 1].kind == SHT_STRTAB && ps[SymtabAt(m) + 2].kind == SHT_STRTAB
  {
    hide Plan, PlanContent, PlanRela, SymtabPlan, StrtabPlan, NamesPlan, Relocated;
    PlanAt(m);
    LastKinds(m);
    var ps, n, r := Plan(m), |m.sections|, Relocated(m.sections, 0);
    forall i | 1 <= i <= n ensures ps[i].kind == SHT_PROGBITS || ps[i].kind == SHT_NOBITS {
      assert ps[1 + (i - 1)] == PlanContent(m.sections[i - 1]);
      ContentKind(m.sections[i - 1]);
    }
    forall i | n < i < SymtabAt(m) ensures ps[i].kind == SHT_RELA && ps[i].info == r[i - 1 - n] + 1 {
      var k := i - 1 - n;
      assert Relocated(m.sections, 0)[k] < n;
      assert ps[1 + n + k] == PlanRela(m, SymtabAt(m), Relocated(m.sections, 0)[k]);
      RelaKind(m, SymtabAt(m), r[k]);
    }
  }

  lemma ContentKind(s: Section)
    ensures PlanContent(s).kind == SHT_PROGBITS || PlanContent(s).kind == SHT_NOBITS
  {
  }

  lemma RelaKind(m: Model, symtab: nat, i: nat)
    requires i < |m.sections|
    ensures PlanRela(m, symtab, i).kind == SHT_RELA && PlanRela(m, symtab, i).info == i + 1
  {
    hide Rela, Ascii;
  }

  lemma LastKinds(m: Model)
    ensures NULL_SECTION.kind == 0 && SymtabPlan(m).kind == SHT_SYMTAB && StrtabPlan(m).kind == SHT_STRTAB && NamesPlan(m).kind == SHT_STRTAB
  {
    hide Symtab, Strtab, NameTable, Ascii;
  }

  lemma SectionsFound(m: Model)
    requires Fits(m)
    ensures var hs := SectionTable(Elf(m)); FindKind(hs, SHT_SYMTAB, 0) == SymtabAt(m) && ContentCount(hs, 1) == |m.sections|
  {
    hide Fits, Plan, Elf, SectionTable, NameOffset, Start, Relocated;
    TableReads(m);
    KindsAt(m);
    var hs := SectionTable(Elf(m));
    FindKindIs(hs, SHT_SYMTAB, 0, SymtabAt(m));
    ContentCountIs(hs, 1, |m.sections| + 1);
  }

  /** Which headers are relocation sections, and whose. */
  lemma RelaHeaders(m: Model)
    requires Fits(m)
    ensures var hs, n := SectionTable(Elf(m)), |m.sections|; var r := Relocated(m.sections, 0);
            && |hs| == SymtabAt(m) + 3
            && forall j :: 0 <= j < |hs| ==> (hs[j].kind == SHT_RELA <==> n < j < SymtabAt(m)) && (n < j < SymtabAt(m) ==> hs[j].info == r[j - 1 - n] + 1)
  {
    hide Fits, Plan, Elf, SectionTable, NameOffset, Start, Relocated;
    TableReads(m);
    KindsAt(m);
    var n := |m.sections|;
    forall j | 0 <= j < |Plan(m)| ensures Plan(m)[j].kind == SHT_RELA <==> n < j < SymtabAt(m) {
      if j > SymtabAt(m) { assert j == SymtabAt(m) + 1 || j == SymtabAt(m) + 2; }
    }
  }

  lemma RelaIndex(hs: seq<Shdr>, n: nat, r: seq<nat>, i: nat)
    requires n + 1 + |r| <= |hs| && forall a, b :: 0 <= a < b < |r| ==> r[a] < r[b]
    requires forall j :: 0 <= j < |hs| ==> (hs[j].kind == SHT_RELA <==> n < j < n + 1 + |r|) && (n < j < n + 1 + |r| ==> hs[j].info == r[j - 1 - n] + 1)
    ensures i !in r ==> FindRela(hs, i + 1, 0) == |hs|
    ensures forall q :: 0 <= q < |r| && r[q] == i ==> FindRela(hs, i + 1, 0) == 1 + n + q
  {
    hide FindRela;
    if i !in r { FindRelaIs(hs, i + 1, 0, |hs|); }
    forall q | 0 <= q < |r| && r[q] == i ensures FindRela(hs, i + 1, 0) == 1 + n + q {
      assert hs[1 + n + q].info == r[q] + 1;
      FindRelaIs(hs, i + 1, 0, 1 + n + q);
    }
  }

  lemma RelaPlanAt(m: Model, q: nat)
    requires q < |Relocated(m.sections, 0)|
    ensures Relocated(m.sections, 0)[q] < |m.sections| && 1 + |m.sections| + q < SymtabAt(m)
    ensures Plan(m)[1 + |m.sections| + q] == PlanRela(m, SymtabAt(m), Relocated(m.sections, 0)[q])
  {
    hide Plan, PlanRela, PlanContent, SymtabPlan, StrtabPlan, NamesPlan, Relocated;
    PlanAt(m);
  }

  lemma RelaBytesAt(m: Model, q: nat)
    requires Fits(m) && q < |Relocated(m.sections, 0)|
    ensures var i := Relocated(m.sections, 0)[q];
            && i < |m.sections|
            && Contained(Elf(m), Nth(SectionTable(Elf(m)), 1 + |m.sections| + q)) == Rela(m.symbols, m.sections[i].relocs, |m.sections[i].relocs|)
  {
    hide Fits, Plan, Elf, SectionTable, Relocated, Rela, Ascii, Contained, Nth;
    RelaPlanAt(m, q);
    ContentReads(m, 1 + |m.sections| + q);
  }

  lemma RelaIndexOf(m: Model, i: nat)
    requires Fits(m) && i < |m.sections|
    ensures var hs, r := SectionTable(Elf(m)), Relocated(m.sections, 0);
            && (i !in r ==> FindRela(hs, i + 1, 0) == |hs|)
            && forall q :: 0 <= q < |r| && r[q] == i ==> FindRela(hs, i + 1, 0) == 1 + |m.sections| + q
  {
    hide Fits, Plan, Elf, SectionTable, Relocated, FindRela;
    RelaHeaders(m);
    RelocatedFacts(m.sections, 0);
    RelaIndex(SectionTable(Elf(m)), |m.sections|, Relocated(m.sections, 0), i);
  }

  /** The relocations of section `i` are found by its number. */
  lemma RelaFound(m: Model, i: nat)
    requires Fits(m) && i < |m.sections|
    ensures var hs := SectionTable(Elf(m)); var relocs := m.sections[i].relocs;
            Contained(Elf(m), Nth(hs, FindRela(hs, i + 1, 0))) == Rela(m.symbols, relocs, |relocs|)
  {
    hide Fits, Plan, Elf, SectionTable, Relocated, Rela, FindRela, Contained;
    RelocatedFacts(m.sections, 0);
    RelaIndexOf(m, i);
    var r := Relocated(m.sections, 0);
    if m.sections[i].relocs != [] {
      assert i in r;
      var q :| 0 <= q < |r| && r[q] == i;
      RelaBytesAt(m, q);
    } else {
      assert i !in r;
      NoBytes(Elf(m));
      RelaStart(m.symbols, m.sections[i].relocs);
    }
  }

  lemma NoBytes(b: seq<Byte>)
    ensures Contained(b, Shdr(0, 0, 0, 0, 0, 0, 0, 0, 0)) == []
  {
  }

  // ---- Relocations ----

  lemma {:induction false} RelaAtEntry(symbols: seq<Symbol>, relocs: seq<Reloc>, i: nat, k: nat)
    requires i < k <= |relocs|
    ensures At(Rela(symbols, relocs, k), RELA_SIZE * i, RelaBytes(symbols, relocs[i]))
    decreases k
  {
    hide RelaBytes, At;
    if i == k - 1 {
      AtEnd(Rela(symbols, relocs, i), RelaBytes(symbols, relocs[i]));
    } else {
      RelaAtEntry(symbols, relocs, i, k - 1);
      AtMore(Rela(symbols, relocs, k - 1), RelaBytes(symbols, relocs[k - 1]), RELA_SIZE * i, RelaBytes(symbols, relocs[i]));
    }
  }

  lemma {:induction false} BindingsAll(symbols: seq<Symbol>, from: nat)
    requires from <= |symbols|
    ensures |WithBinding(symbols, STB_LOCAL, from)| + |WithBinding(symbols, STB_GLOBAL, from)| == |symbols| - from
    decreases |symbols| - from
  {
    if from < |symbols| { BindingsAll(symbols, from + 1); }
  }

  lemma {:induction false} PositionBound(order: seq<nat>, j: nat)
    ensures PositionOf(order, j) <= |order| && (j in order ==> PositionOf(order, j) < |order| && order[PositionOf(order, j)] == j)
    decreases order
  {
    if order != [] && order[0] != j { PositionBound(order[1..], j); }
  }

  lemma InfoParts(symbol: nat, code: nat)
    requires code < 0x1_0000_0000
    ensures var info := symbol * 0x1_0000_0000 + code; info / 0x1_0000_0000 == symbol && info % 0x1_0000_0000 == code
  {
  }

  lemma RelaFields(rela: seq<Byte>, at: nat, offset: nat, info: nat, addend: nat)
    requires At(rela, at, Le(offset, 8) + Le(info, 8) + Le(addend, 8)) && offset < TWO64 && info < TWO64 && addend < TWO64
    ensures ReadLe(rela, at, 8) == offset && ReadLe(rela, at + 8, 8) == info && ReadLe(rela, at + 16, 8) == addend
  {
    hide At, ReadLe, Le, Pow256;
    Powers();
    AtSplit(rela, at, Le(offset, 8) + Le(info, 8), Le(addend, 8));
    AtSplit(rela, at, Le(offset, 8), Le(info, 8));
    FieldReads(rela, at, offset, 8);
    FieldReads(rela, at + 8, info, 8);
    FieldReads(rela, at + 16, addend, 8);
  }

  lemma SymtabIndexSmall(symbols: seq<Symbol>, j: nat)
    requires j < |symbols|
    ensures SymtabIndex(symbols, j) <= |symbols|
  {
    OrderFacts(symbols);
    BindingsAll(symbols, 0);
    PositionBound(Order(symbols), j);
    hide PositionOf, WithBinding;
  }

  lemma RelocReads(symbols: seq<Symbol>, rela: seq<Byte>, at: nat, r: Reloc)
    requires At(rela, at, RelaBytes(symbols, r)) && r.offset < TWO64 && r.symbol < |symbols| < 0xFFFF_FFFF
    ensures ReadRela(rela, at) == ReadReloc(r.offset, PositionOf(Order(symbols), r.symbol), Some(r.kind), Addend(r.kind))
  {
    hide At, ReadLe, Le, Order, PositionOf;
    var info := SymtabIndex(symbols, r.symbol) * 0x1_0000_0000 + RelocType(r.kind);
    SymtabIndexSmall(symbols, r.symbol);
    InfoParts(SymtabIndex(symbols, r.symbol), RelocType(r.kind));
    RelaFields(rela, at, r.offset, info, Addend(r.kind));
  }

  lemma RelocsRead(m: Model, i: nat)
    requires Fits(m) && i < |m.sections|
    ensures var relocs := m.sections[i].relocs;
            ReadRelas(Rela(m.symbols, relocs, |relocs|)) == seq(|relocs|, k requires 0 <= k < |relocs| => ViewReloc(m, relocs[k]))
  {
    hide Fits, Rela, At, RelaBytes, Addend;
    FitsRelocs(m, i);
    var relocs := m.sections[i].relocs;
    var rela := Rela(m.symbols, relocs, |relocs|);
    ModIs(RELA_SIZE * |relocs|, RELA_SIZE, |relocs|, 0);
    forall k | 0 <= k < |relocs| ensures ReadRela(rela, RELA_SIZE * k) == ViewReloc(m, relocs[k]) {
      RelaAtEntry(m.symbols, relocs, k, |relocs|);
      RelocReads(m.symbols, rela, RELA_SIZE * k, relocs[k]);
    }
    hide ViewReloc, ReadRela;
  }

  lemma FitsRelocs(m: Model, i: nat)
    requires Fits(m) && i < |m.sections|
    ensures |m.symbols| < 0xFFFF_FFFF
    ensures forall k :: 0 <= k < |m.sections[i].relocs| ==> m.sections[i].relocs[k].offset < TWO64 && m.sections[i].relocs[k].symbol < |m.symbols|
  {
    hide Plan, TableAt, Strtab, NameTable, SymbolFits;
  }

  // ---- Symbols ----

  lemma NameBytesIs(s: Symbol)
    requires s.kind != SectionStart
    ensures NameBytes(s) == s.name + [0]
  {
  }

  lemma {:induction false} StrtabGrows(symbols: seq<Symbol>, order: seq<nat>, p: nat, k: nat)
    requires p < k <= |order| && forall i :: 0 <= i < |order| ==> order[i] < |symbols|
    requires symbols[order[p]].kind != SectionStart
    ensures At(Strtab(symbols, order, k), |Strtab(symbols, order, p)|, symbols[order[p]].name + [0])
    decreases k
  {
    hide At, NameBytes;
    if p == k - 1 {
      assert NameBytes(symbols[order[p]]) == symbols[order[p]].name + [0] by { NameBytesIs(symbols[order[p]]); }
      AtEnd(Strtab(symbols, order, p), symbols[order[p]].name + [0]);
    } else {
      StrtabGrows(symbols, order, p, k - 1);
      AtMore(Strtab(symbols, order, k - 1), NameBytes(symbols[order[k - 1]]), |Strtab(symbols, order, p)|, symbols[order[p]].name + [0]);
    }
  }

  lemma {:induction false} StrtabFirst(symbols: seq<Symbol>, order: seq<nat>, k: nat)
    requires k <= |order| && forall i :: 0 <= i < |order| ==> order[i] < |symbols|
    ensures At(Strtab(symbols, order, k), 0, [0])
  {
    if k > 0 {
      StrtabFirst(symbols, order, k - 1);
      hide At;
      AtMore(Strtab(symbols, order, k - 1), NameBytes(symbols[order[k - 1]]), 0, [0]);
    }
  }

  function NameOff(symbols: seq<Symbol>, order: seq<nat>, p: nat): nat
    requires p < |order| && forall i :: 0 <= i < |order| ==> order[i] < |symbols|
  {
    if symbols[order[p]].kind == SectionStart then 0 else |Strtab(symbols, order, p)|
  }

  lemma {:induction false} SymtabAtEntry(symbols: seq<Symbol>, order: seq<nat>, p: nat, k: nat)
    requires p < k <= |order| && forall i :: 0 <= i < |order| ==> order[i] < |symbols|
    ensures At(Symtab(symbols, order, k), SYM_SIZE * (p + 1), SymBytes(symbols[order[p]], NameOff(symbols, order, p)))
    decreases k
  {
    hide SymBytes, At, Strtab;
    var last := SymBytes(symbols[order[k - 1]], NameOff(symbols, order, k - 1));
    if p == k - 1 {
      AtEnd(Symtab(symbols, order, p), last);
    } else {
      SymtabAtEntry(symbols, order, p, k - 1);
      AtMore(Symtab(symbols, order, k - 1), last, SYM_SIZE * (p + 1), SymBytes(symbols[order[p]], NameOff(symbols, order, p)));
    }
  }

  lemma SymFields(symtab: seq<Byte>, at: nat, nameOff: nat, info: Byte, shndx: nat, value: nat)
    requires At(symtab, at, Le(nameOff, 4) + [info] + [0] + Le(shndx, 2) + Le(value, 8) + Le(0, 8))
    requires nameOff < 0x1_0000_0000 && shndx < 0x1_0000 && value < TWO64
    ensures ReadLe(symtab, at, 4) == nameOff && ReadLe(symtab, at + 4, 1) == info
    ensures ReadLe(symtab, at + 6, 2) == shndx && ReadLe(symtab, at + 8, 8) == value
  {
    hide At, ReadLe, Le, Pow256;
    Powers();
    OneByte(info);
    var x0, x3, x4 := Le(nameOff, 4), Le(shndx, 2), Le(value, 8);
    AtSplit(symtab, at, x0 + [info] + [0] + x3 + x4, Le(0, 8));
    AtSplit(symtab, at, x0 + [info] + [0] + x3, x4);
    AtSplit(symtab, at, x0 + [info] + [0], x3);
    AtSplit(symtab, at, x0 + [info], [0]);
    AtSplit(symtab, at, x0, [info]);
    FieldReads(symtab, at, nameOff, 4);
    FieldReads(symtab, at + 4, info, 1);
    FieldReads(symtab, at + 6, shndx, 2);
    FieldReads(symtab, at + 8, value, 8);
  }

  lemma OneByte(x: Byte)
    ensures Le(x, 1) == [x] && Pow256(1) == 256
  {
  }

  lemma SymbolReads(symtab: seq<Byte>, strtab: seq<Byte>, at: nat, s: Symbol, nameOff: nat)
    requires At(symtab, at, SymBytes(s, nameOff)) && nameOff < 0x1_0000_0000 && s.value < TWO64 && (s.section.Some? ==> s.section.value + 1 < 0x1_0000)
    requires CStr(strtab, nameOff) == if s.kind == SectionStart then [] else s.name
    ensures ReadSym(symtab, strtab, at) == ViewSymbol(s)
  {
    hide At, ReadLe, Le, CStr;
    SymFields(symtab, at, nameOff, Binding(s) * 16 + TypeCode(s), if s.section.Some? then s.section.value + 1 else 0, s.value);
  }

  lemma NameFound(m: Model, p: nat)
    requires Fits(m) && p < |OrderOf(m)|
    ensures var order := OrderOf(m); var s := m.symbols[order[p]];
            CStr(Strtab(m.symbols, order, |order|), NameOff(m.symbols, order, p)) == if s.kind == SectionStart then [] else s.name
    ensures NameOff(m.symbols, OrderOf(m), p) < 0x1_0000_0000
  {
    hide Fits, Strtab, At, CStr, Order;
    FitsSymbols(m);
    var order := OrderOf(m);
    var s, all := m.symbols[order[p]], Strtab(m.symbols, order, |order|);
    assert SymbolFits(m, s);
    if s.kind == SectionStart {
      StrtabFirst(m.symbols, order, |order|);
      assert [] + [0] == [0];
      CStrReads(all, 0, []);
    } else {
      StrtabGrows(m.symbols, order, p, |order|);
      CStrReads(all, |Strtab(m.symbols, order, p)|, s.name);
      NameInside(all, |Strtab(m.symbols, order, p)|, s.name + [0]);
    }
  }

  lemma NameInside(b: seq<Byte>, at: nat, part: seq<Byte>)
    requires At(b, at, part)
    ensures at <= |b|
  {
  }

  lemma FitsSymbols(m: Model)
    requires Fits(m)
    ensures |Strtab(m.symbols, OrderOf(m), |OrderOf(m)|)| < 0x1_0000_0000 && |m.sections| + 1 < 0x1_0000
    ensures forall j :: 0 <= j < |m.symbols| ==> SymbolFits(m, m.symbols[j])
  {
    hide TableAt, Strtab, NameTable, SymbolFits, Order, Relocated;
  }

  lemma SymbolsRead(m: Model)
    requires Fits(m)
    ensures var order := OrderOf(m);
            ReadSymbols(Symtab(m.symbols, order, |order|), Strtab(m.symbols, order, |order|))
            == seq(|order|, p requires 0 <= p < |order| => ViewSymbol(m.symbols[order[p]]))
  {
    hide Fits, Strtab, Symtab, At, SymBytes, Order, NameOff, CStr;
    FitsSymbols(m);
    var order := OrderOf(m);
    var symtab, strtab := Symtab(m.symbols, order, |order|), Strtab(m.symbols, order, |order|);
    ModIs(SYM_SIZE * (|order| + 1), SYM_SIZE, |order| + 1, 0);
    forall p | 0 <= p < |order| ensures ReadSym(symtab, strtab, SYM_SIZE * (p + 1)) == ViewSymbol(m.symbols[order[p]]) {
      NameFound(m, p);
      SymtabAtEntry(m.symbols, order, p, |order|);
      assert SymbolFits(m, m.symbols[order[p]]);
      SymbolReads(symtab, strtab, SYM_SIZE * (p + 1), m.symbols[order[p]], NameOff(m.symbols, order, p));
    }
    hide ViewSymbol, ReadSym;
  }

  // ---- The object ----

  lemma NthHeader(m: Model, i: nat)
    requires Fits(m) && i < |Plan(m)|
    ensures Nth(SectionTable(Elf(m)), i) == HeaderOf(Plan(m)[i], NameOffset(m, i), Start(Plan(m), i))
  {
    hide Fits, Plan, Elf, SectionTable, NameOffset, Start;
    TableReads(m);
  }

  lemma ContentPlanAt(m: Model, i: nat)
    requires i < |m.sections|
    ensures Plan(m)[i + 1] == PlanContent(m.sections[i])
  {
    hide Plan, PlanRela, PlanContent, SymtabPlan, StrtabPlan, NamesPlan, Relocated;
    PlanAt(m);
    assert Plan(m)[1 + i] == PlanContent(m.sections[i]);
  }

  lemma TailPlanAt(m: Model)
    ensures Plan(m)[SymtabAt(m)] == SymtabPlan(m) && Plan(m)[SymtabAt(m) + 1] == StrtabPlan(m) && Plan(m)[SymtabAt(m) + 2] == NamesPlan(m)
  {
    hide Plan, PlanRela, PlanContent, SymtabPlan, StrtabPlan, NamesPlan, Relocated;
    PlanAt(m);
  }

  lemma TailContained(m: Model)
    requires Fits(m)
    ensures var b, order := Elf(m), OrderOf(m); var hs := SectionTable(b);
            && Contained(b, Nth(hs, SymtabAt(m))) == Symtab(m.symbols, order, |order|)
            && Contained(b, Nth(hs, SymtabAt(m) + 1)) == Strtab(m.symbols, order, |order|)
            && Contained(b, Nth(hs, SymtabAt(m) + 2)) == NameTable(m)
  {
    hide Fits, Plan, Elf, SectionTable, NameTable, Contained, Nth, Symtab, Strtab, OrderOf, Relocated, Ascii;
    TailPlanAt(m);
    ContentReads(m, SymtabAt(m));
    ContentReads(m, SymtabAt(m) + 1);
    ContentReads(m, SymtabAt(m) + 2);
  }

  lemma FileHeaderReads(m: Model)
    requires Fits(m)
    ensures ReadLe(Elf(m), 62, 2) == SymtabAt(m) + 2 && ReadLe(Elf(m), 18, 2) == MachineCode(m.machine)
  {
    hide Fits, Elf, SectionTable, NameOffset, Start, ReadLe, Relocated, Named, NameTable;
    TableReads(m);
  }

  lemma NamesContained(m: Model)
    requires Fits(m)
    ensures Contained(Elf(m), Nth(SectionTable(Elf(m)), ReadLe(Elf(m), 62, 2))) == NameTable(m)
  {
    hide Fits, Elf, SectionTable, ReadLe, NameTable, Contained, Nth, Symtab, Strtab, OrderOf, Relocated;
    FileHeaderReads(m);
    TailContained(m);
  }

  lemma SectionReads(m: Model, i: nat)
    requires Fits(m) && i < |m.sections|
    ensures ReadSectionAt(Elf(m), SectionTable(Elf(m)), i + 1) == ViewSection(m, m.sections[i])
  {
    hide Fits, Plan, Elf, SectionTable, NameOffset, Start, ReadLe, NameTable, Relocated, Rela, ReadRelas, CStr, KindNamed, FindRela, ViewReloc, Ascii, Contained, Nth;
    NamesContained(m);
    RelaFound(m, i);
    RelocsRead(m, i);
    SectionNamed(m, i);
    FitsSizes(m);
    ContentPlanAt(m, i);
    NthHeader(m, i + 1);
    ContentReads(m, i + 1);
  }

  lemma SectionNamed(m: Model, i: nat)
    requires Fits(m) && i < |m.sections|
    ensures KindNamed(CStr(NameTable(m), NameOffset(m, i + 1))) == Some(m.sections[i].kind)
  {
    hide Fits, Plan, NameTable, NameOffset, CStr, KindNamed, Ascii, Relocated, Named;
    KindNames(m.sections[i].kind);
    ContentPlanAt(m, i);
    NamedIs(m, i + 1);
    NameReads(m, i + 1);
  }

  lemma NamedIs(m: Model, i: nat)
    requires i < |Named(m)|
    ensures Named(m)[i] == Plan(m)[i]
  {
    hide Named, NameTable;
  }

  /** The written object, parsed, is the model: every section's kind, bytes and size, every
      symbol's name, section and value, and every relocation naming the symbol it was made for. */
  lemma ElfRoundTrips(m: Model)
    requires Fits(m)
    ensures ReadElf(Elf(m)) == View(m)
  {
    hide Fits, Plan, Elf, SectionTable, NameOffset, Start, ReadLe, Relocated, FindKind, ContentCount, Symtab, Strtab, Order, ReadSymbols, ReadSectionAt, Contained, Nth, ViewSection, ViewSymbol, LocalCount, NameTable, Ascii;
    FileHeaderReads(m);
    SectionsFound(m);
    TailContained(m);
    TailPlanAt(m);
    NthHeader(m, SymtabAt(m));
    SymbolsRead(m);
    forall i | 0 <= i < |m.sections| ensures ReadSectionAt(Elf(m), SectionTable(Elf(m)), i + 1) == ViewSection(m, m.sections[i]) {
      SectionReads(m, i);
    }
  }
}
