/** The object model and the relocatable ELF64 file it is serialized to. */
module ElfObject {
  import opened Words
  import opened Ir
  import opened ElfBytes

  datatype Dwarf = Line | Info | Abbrev

  datatype SectionKind = Text | ReadOnlyData | Bss | Debug(dwarf: Dwarf)

  datatype Machine = X86_64 | Aarch64

  datatype RelocKind = Branch | PcRel32 | Call26 | Absolute64 | SectionOffset32

  /** `offset` is relative to the section, `symbol` an index in the model's symbol list. */
  datatype Reloc = Reloc(offset: nat, symbol: nat, kind: RelocKind)

  datatype Section = Section(kind: SectionKind, data: seq<Byte>, size: nat, relocs: seq<Reloc>)

  datatype SymbolKind = Function | Data | SectionStart

  datatype Symbol = Symbol(name: seq<Byte>, section: Option<nat>, value: nat, kind: SymbolKind)

  datatype Model = Model(sections: seq<Section>, symbols: seq<Symbol>, entry: Option<seq<Byte>>, machine: Machine)

  const EHDR_SIZE: nat := 64
  const SHDR_SIZE: nat := 64
  const SYM_SIZE: nat := 24
  const RELA_SIZE: nat := 24
  const ET_REL: nat := 1
  const SHT_PROGBITS: nat := 1
  const SHT_SYMTAB: nat := 2
  const SHT_STRTAB: nat := 3
  const SHT_RELA: nat := 4
  const SHT_NOBITS: nat := 8
  const STB_LOCAL: nat := 0
  const STB_GLOBAL: nat := 1

  // ---- Names ----

  /** The bytes of an ASCII string. */
  function Ascii(s: string): (b: seq<Byte>)
    ensures |b| == |s|
  {
    seq(|s|, i requires 0 <= i < |s| => s[i] as int % 256)
  }

  function SectionName(kind: SectionKind): string {
    match kind
    case Text => ".text"
    case ReadOnlyData => ".rodata"
    case Bss => ".bss"
    case Debug(Line) => ".debug_line"
    case Debug(Info) => ".debug_info"
    case Debug(Abbrev) => ".debug_abbrev"
  }

  function RelaName(kind: SectionKind): string { ".rela" + SectionName(kind) }

  // ---- Symbols ----

  function Binding(s: Symbol): nat { if s.kind == SectionStart then STB_LOCAL else STB_GLOBAL }

  function TypeCode(s: Symbol): nat {
    if s.section.None? then 0
    else match s.kind
      case Function => 2
      case Data => 1
      case SectionStart => 3
  }

  /** The indices of the symbols with one binding, in model order. */
  function WithBinding(symbols: seq<Symbol>, binding: nat, from: nat): seq<nat>
    requires from <= |symbols|
    decreases |symbols| - from
  {
    if from == |symbols| then []
    else (if Binding(symbols[from]) == binding then [from] else []) + WithBinding(symbols, binding, from + 1)
  }

  /** The symbol table's order: locals first, each group in model order. */
  function Order(symbols: seq<Symbol>): seq<nat> {
    WithBinding(symbols, STB_LOCAL, 0) + WithBinding(symbols, STB_GLOBAL, 0)
  }

  function LocalCount(symbols: seq<Symbol>): nat { |WithBinding(symbols, STB_LOCAL, 0)| }

  /** Where a model symbol is in the order. */
  function PositionOf(order: seq<nat>, j: nat): nat {
    if order == [] || order[0] == j then 0 else 1 + PositionOf(order[1..], j)
  }

  /** The null symbol comes first. */
  function SymtabIndex(symbols: seq<Symbol>, j: nat): nat { 1 + PositionOf(Order(symbols), j) }

  function NameBytes(s: Symbol): seq<Byte> { if s.kind == SectionStart then [] else s.name + [0] }

  /** The string table after the first `k` symbols of the order. */
  function Strtab(symbols: seq<Symbol>, order: seq<nat>, k: nat): seq<Byte>
    requires k <= |order| && forall i :: 0 <= i < |order| ==> order[i] < |symbols|
  {
    if k == 0 then [0] else Strtab(symbols, order, k - 1) + NameBytes(symbols[order[k - 1]])
  }

  function SymBytes(s: Symbol, nameOff: nat): (b: seq<Byte>)
    ensures |b| == SYM_SIZE
  {
    Le(nameOff, 4) + [Binding(s) * 16 + TypeCode(s)] + [0] + Le(if s.section.Some? then s.section.value + 1 else 0, 2)
    + Le(s.value, 8) + Le(0, 8)
  }

  function Symtab(symbols: seq<Symbol>, order: seq<nat>, k: nat): (b: seq<Byte>)
    requires k <= |order| && forall i :: 0 <= i < |order| ==> order[i] < |symbols|
    ensures |b| == SYM_SIZE * (k + 1)
  {
    if k == 0 then Zeros(SYM_SIZE)
    else
      var s := symbols[order[k - 1]];
      Symtab(symbols, order, k - 1) + SymBytes(s, if s.kind == SectionStart then 0 else |Strtab(symbols, order, k - 1)|)
  }

  // ---- Relocations ----

  function RelocType(kind: RelocKind): nat {
    match kind
    case Branch => 4
    case PcRel32 => 2
    case Call26 => 283
    case Absolute64 => 1
    case SectionOffset32 => 10
  }

  /** The addend as an unsigned 64-bit field: minus four for the end-relative kinds. */
  function Addend(kind: RelocKind): nat {
    match kind
    case Branch => TWO64 - 4
    case PcRel32 => TWO64 - 4
    case _ => 0
  }

  function RelaBytes(symbols: seq<Symbol>, r: Reloc): (b: seq<Byte>)
    ensures |b| == RELA_SIZE
  {
    Le(r.offset, 8) + Le(SymtabIndex(symbols, r.symbol) * 0x1_0000_0000 + RelocType(r.kind), 8) + Le(Addend(r.kind), 8)
  }

  function Rela(symbols: seq<Symbol>, relocs: seq<Reloc>, k: nat): (b: seq<Byte>)
    requires k <= |relocs|
    ensures |b| == RELA_SIZE * k
  {
    if k == 0 then [] else Rela(symbols, relocs, k - 1) + RelaBytes(symbols, relocs[k - 1])
  }

  // ---- Planned sections ----

  datatype Planned = Planned(name: seq<Byte>, kind: nat, flags: nat, align: nat, entsize: nat, size: nat, link: nat, info: nat, bytes: seq<Byte>)

  const NULL_SECTION := Planned([], 0, 0, 0, 0, 0, 0, 0, [])

  function PlanContent(s: Section): Planned {
    var (kind, flags, align) := match s.kind
      case Text => (SHT_PROGBITS, 6, 16)
      case ReadOnlyData => (SHT_PROGBITS, 2, 1)
      case Bss => (SHT_NOBITS, 3, 16)
      case Debug(_) => (SHT_PROGBITS, 0, 1);
    Planned(Ascii(SectionName(s.kind)), kind, flags, align, 0, s.size, 0, 0, if s.kind == Bss then [] else s.data)
  }

  /** The sections that carry relocations. */
  function Relocated(sections: seq<Section>, from: nat): seq<nat>
    requires from <= |sections|
    decreases |sections| - from
  {
    if from == |sections| then []
    else (if sections[from].relocs != [] then [from] else []) + Relocated(sections, from + 1)
  }

  function PlanRela(m: Model, symtab: nat, i: nat): Planned
    requires i < |m.sections|
  {
    var rela := Rela(m.symbols, m.sections[i].relocs, |m.sections[i].relocs|);
    Planned(Ascii(RelaName(m.sections[i].kind)), SHT_RELA, 0, 8, RELA_SIZE, |rela|, symtab, i + 1, rela)
  }

  lemma {:induction false} WithBindingFacts(symbols: seq<Symbol>, binding: nat, from: nat)
    requires from <= |symbols|
    ensures forall i :: 0 <= i < |WithBinding(symbols, binding, from)| ==>
              from <= WithBinding(symbols, binding, from)[i] < |symbols| && Binding(symbols[WithBinding(symbols, binding, from)[i]]) == binding
    ensures forall j :: from <= j < |symbols| && Binding(symbols[j]) == binding ==> j in WithBinding(symbols, binding, from)
    ensures forall i, j :: 0 <= i < j < |WithBinding(symbols, binding, from)| ==> WithBinding(symbols, binding, from)[i] < WithBinding(symbols, binding, from)[j]
    decreases |symbols| - from
  {
    if from < |symbols| { WithBindingFacts(symbols, binding, from + 1); }
  }

  lemma {:induction false} RelocatedFacts(sections: seq<Section>, from: nat)
    requires from <= |sections|
    ensures forall i :: 0 <= i < |Relocated(sections, from)| ==>
              from <= Relocated(sections, from)[i] < |sections| && sections[Relocated(sections, from)[i]].relocs != []
    ensures forall j :: from <= j < |sections| && sections[j].relocs != [] ==> j in Relocated(sections, from)
    ensures forall i, j :: 0 <= i < j < |Relocated(sections, from)| ==> Relocated(sections, from)[i] < Relocated(sections, from)[j]
    decreases |sections| - from
  {
    if from < |sections| { RelocatedFacts(sections, from + 1); }
  }

  /** The order is the stable sort of the symbols by binding: every symbol once, no global
      before a local, equal bindings in model order. */
  lemma OrderFacts(symbols: seq<Symbol>)
    ensures forall i :: 0 <= i < |Order(symbols)| ==> Order(symbols)[i] < |symbols|
    ensures forall j :: 0 <= j < |symbols| ==> j in Order(symbols)
    ensures forall i, j :: 0 <= i < j < |Order(symbols)| ==>
              var a, b := Order(symbols)[i], Order(symbols)[j];
              Binding(symbols[a]) < Binding(symbols[b]) || (Binding(symbols[a]) == Binding(symbols[b]) && a < b)
    ensures forall i :: 0 <= i < |Order(symbols)| ==> (i < LocalCount(symbols) <==> Binding(symbols[Order(symbols)[i]]) == STB_LOCAL)
  {
    WithBindingFacts(symbols, STB_LOCAL, 0);
    WithBindingFacts(symbols, STB_GLOBAL, 0);
    hide WithBinding;
  }

  function Contents(sections: seq<Section>): seq<Planned> {
    seq(|sections|, i requires 0 <= i < |sections| => PlanContent(sections[i]))
  }

  function Relas(m: Model, symtab: nat): seq<Planned> {
    RelocatedFacts(m.sections, 0);
    var r := Relocated(m.sections, 0);
    seq(|r|, i requires 0 <= i < |r| => PlanRela(m, symtab, r[i]))
  }

  /** The header index of `.symtab`: after the null section, the content and the relocations. */
  function SymtabAt(m: Model): nat { 1 + |m.sections| + |Relocated(m.sections, 0)| }

  /** Every section but the section-name table. */
  function Named(m: Model): (ps: seq<Planned>)
    ensures |ps| == SymtabAt(m) + 2
  {
    OrderFacts(m.symbols);
    var order := Order(m.symbols);
    var symtab, strtab := Symtab(m.symbols, order, |order|), Strtab(m.symbols, order, |order|);
    [NULL_SECTION] + Contents(m.sections) + Relas(m, SymtabAt(m))
    + [Planned(Ascii(".symtab"), SHT_SYMTAB, 0, 8, SYM_SIZE, |symtab|, SymtabAt(m) + 1, 1 + LocalCount(m.symbols), symtab),
       Planned(Ascii(".strtab"), SHT_STRTAB, 0, 1, 0, |strtab|, 0, 0, strtab)]
  }

  /** The section-name table after the first `k` names; the empty name takes no room. */
  function Shstrtab(ps: seq<Planned>, k: nat): seq<Byte>
    requires k <= |ps|
  {
    if k == 0 then [0]
    else Shstrtab(ps, k - 1) + (if ps[k - 1].name == [] then [] else ps[k - 1].name + [0])
  }

  const SHSTRTAB := Ascii(".shstrtab")

  /** The last section's own name is in its bytes. */
  function NameTable(m: Model): seq<Byte> { Shstrtab(Named(m), |Named(m)|) + (SHSTRTAB + [0]) }

  function Plan(m: Model): (ps: seq<Planned>)
    ensures |ps| == SymtabAt(m) + 3
  {
    Named(m) + [Planned(SHSTRTAB, SHT_STRTAB, 0, 1, 0, |NameTable(m)|, 0, 0, NameTable(m))]
  }

  // ---- Layout ----

  /** The cursor before section `i`: a section without file bytes still aligns it. */
  function Cursor(ps: seq<Planned>, i: nat): nat
    requires i <= |ps|
    decreases i, 0
  {
    if i == 0 then EHDR_SIZE
    else if ps[i - 1].kind == 0 then Cursor(ps, i - 1)
    else Start(ps, i - 1) + if ps[i - 1].kind == SHT_NOBITS then 0 else |ps[i - 1].bytes|
  }

  /** The file offset of a section. */
  function Start(ps: seq<Planned>, i: nat): nat
    requires i < |ps|
    decreases i, 1
  {
    if ps[i].kind == 0 then 0 else AlignUp(Cursor(ps, i), ps[i].align)
  }

  /** The file after the sections before `i`. */
  function Body(head: seq<Byte>, ps: seq<Planned>, i: nat): seq<Byte>
    requires i <= |ps|
  {
    if i == 0 then head
    else if ps[i - 1].kind == 0 || ps[i - 1].kind == SHT_NOBITS then Body(head, ps, i - 1)
    else Padded(Body(head, ps, i - 1), Start(ps, i - 1)) + ps[i - 1].bytes
  }

  function TableAt(ps: seq<Planned>): nat { AlignUp(Cursor(ps, |ps|), 8) }

  function HeaderBytes(p: Planned, name: nat, offset: nat): (b: seq<Byte>)
    ensures |b| == SHDR_SIZE
  {
    Le(name, 4) + Le(p.kind, 4) + Le(p.flags, 8) + Le(0, 8) + Le(offset, 8) + Le(p.size, 8) + Le(p.link, 4) + Le(p.info, 4)
    + Le(p.align, 8) + Le(p.entsize, 8)
  }

  /** The name offset of each header; the last name was interned after the others. */
  function NameOffset(m: Model, i: nat): nat
    requires i < |Plan(m)|
  {
    var ps := Named(m);
    if i == |ps| then |Shstrtab(ps, |ps|)| else if ps[i].name == [] then 0 else |Shstrtab(ps, i)|
  }

  function Headers(m: Model, k: nat): (b: seq<Byte>)
    requires k <= |Plan(m)|
    ensures |b| == SHDR_SIZE * k
  {
    if k == 0 then [] else Headers(m, k - 1) + HeaderBytes(Plan(m)[k - 1], NameOffset(m, k - 1), Start(Plan(m), k - 1))
  }

  function MachineCode(machine: Machine): nat { if machine == X86_64 then 62 else 183 }

  function Ehdr(machine: nat, shoff: nat, shnum: nat): (b: seq<Byte>)
    requires shnum > 0
    ensures |b| == EHDR_SIZE
  {
    [0x7F, 0x45, 0x4C, 0x46, 2, 1, 1, 0, 0] + Zeros(7) + Le(ET_REL, 2) + Le(machine, 2) + Le(1, 4) + Le(0, 8) + Le(0, 8)
    + Le(shoff, 8) + Le(0, 4) + Le(EHDR_SIZE, 2) + Le(0, 2) + Le(0, 2) + Le(SHDR_SIZE, 2) + Le(shnum, 2) + Le(shnum - 1, 2)
  }

  function Elf(m: Model): seq<Byte> {
    var ps := Plan(m);
    var head := Ehdr(MachineCode(m.machine), TableAt(ps), |ps|);
    Padded(Body(head, ps, |ps|), TableAt(ps)) + Headers(m, |ps|)
  }
}
