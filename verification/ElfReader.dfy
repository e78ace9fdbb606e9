/** Reading an ELF64 object by the layout of the System V gABI (chapter 4). */
module ElfReader {
  import opened Ir
  import opened ElfBytes
  import opened ElfObject

  datatype Shdr = Shdr(name: nat, kind: nat, flags: nat, offset: nat, size: nat, link: nat, info: nat, align: nat, entsize: nat)

  function ReadShdr(b: seq<Byte>, at: nat): Shdr {
    Shdr(ReadLe(b, at, 4), ReadLe(b, at + 4, 4), ReadLe(b, at + 8, 8), ReadLe(b, at + 24, 8), ReadLe(b, at + 32, 8),
         ReadLe(b, at + 40, 4), ReadLe(b, at + 44, 4), ReadLe(b, at + 48, 8), ReadLe(b, at + 56, 8))
  }

  function SectionTable(b: seq<Byte>): seq<Shdr> {
    seq(ReadLe(b, 60, 2), i requires 0 <= i => ReadShdr(b, ReadLe(b, 40, 8) + SHDR_SIZE * i))
  }

  /** A section without file bytes has none. */
  function Contained(b: seq<Byte>, h: Shdr): seq<Byte> { if h.kind == SHT_NOBITS then [] else Slice(b, h.offset, h.size) }

  function Nth(hs: seq<Shdr>, i: nat): Shdr { if i < |hs| then hs[i] else Shdr(0, 0, 0, 0, 0, 0, 0, 0, 0) }

  /** The first header of a type, from `i` on. */
  function FindKind(hs: seq<Shdr>, kind: nat, i: nat): nat
    decreases |hs| - i
  {
    if i >= |hs| || hs[i].kind == kind then i else FindKind(hs, kind, i + 1)
  }

  /** The relocation section for section `target`, from `i` on. */
  function FindRela(hs: seq<Shdr>, target: nat, i: nat): nat
    decreases |hs| - i
  {
    if i >= |hs| || (hs[i].kind == SHT_RELA && hs[i].info == target) then i else FindRela(hs, target, i + 1)
  }

  /** How many content sections follow the null section. */
  function ContentCount(hs: seq<Shdr>, i: nat): nat
    decreases |hs| - i
  {
    if i < |hs| && (hs[i].kind == SHT_PROGBITS || hs[i].kind == SHT_NOBITS) then 1 + ContentCount(hs, i + 1) else 0
  }

  function KindNamed(name: seq<Byte>): Option<SectionKind> {
    if name == Ascii(".text") then Some(Text)
    else if name == Ascii(".rodata") then Some(ReadOnlyData)
    else if name == Ascii(".bss") then Some(Bss)
    else if name == Ascii(".debug_line") then Some(Debug(Line))
    else if name == Ascii(".debug_info") then Some(Debug(Info))
    else if name == Ascii(".debug_abbrev") then Some(Debug(Abbrev))
    else None
  }

  function RelocNamed(code: nat): Option<RelocKind> {
    if code == 4 then Some(RelocKind.Branch)
    else if code == 2 then Some(PcRel32)
    else if code == 283 then Some(Call26)
    else if code == 1 then Some(Absolute64)
    else if code == 10 then Some(SectionOffset32)
    else None
  }

  function SymbolNamed(code: nat): Option<SymbolKind> {
    if code == 2 then Some(SymbolKind.Function) else if code == 1 then Some(Data) else if code == 3 then Some(SectionStart) else None
  }

  /** Symbols are numbered from the first after the null symbol, sections from the first after
      the null section. */
  datatype ReadSymbol = ReadSymbol(name: seq<Byte>, section: Option<nat>, value: nat, kind: Option<SymbolKind>, binding: nat)

  datatype ReadReloc = ReadReloc(offset: nat, symbol: nat, kind: Option<RelocKind>, addend: nat)

  datatype ReadSection = ReadSection(kind: Option<SectionKind>, data: seq<Byte>, size: nat, relocs: seq<ReadReloc>)

  datatype ReadObject = ReadObject(machine: nat, sections: seq<ReadSection>, symbols: seq<ReadSymbol>, firstGlobal: nat)

  function Minus1(n: nat): nat { if n == 0 then 0 else n - 1 }

  function ReadSym(symtab: seq<Byte>, strtab: seq<Byte>, at: nat): ReadSymbol {
    var info, shndx := ReadLe(symtab, at + 4, 1), ReadLe(symtab, at + 6, 2);
    ReadSymbol(CStr(strtab, ReadLe(symtab, at, 4)), if shndx == 0 then None else Some(shndx - 1), ReadLe(symtab, at + 8, 8),
               SymbolNamed(info % 16), info / 16)
  }

  function ReadRela(rela: seq<Byte>, at: nat): ReadReloc {
    var info := ReadLe(rela, at + 8, 8);
    ReadReloc(ReadLe(rela, at, 8), Minus1(info / 0x1_0000_0000), RelocNamed(info % 0x1_0000_0000), ReadLe(rela, at + 16, 8))
  }

  function ReadRelas(rela: seq<Byte>): seq<ReadReloc> {
    seq(|rela| / RELA_SIZE, k requires 0 <= k => ReadRela(rela, RELA_SIZE * k))
  }

  function ReadSymbols(symtab: seq<Byte>, strtab: seq<Byte>): seq<ReadSymbol> {
    seq(Minus1(|symtab| / SYM_SIZE), k requires 0 <= k => ReadSym(symtab, strtab, SYM_SIZE * (k + 1)))
  }

  function ReadSectionAt(b: seq<Byte>, hs: seq<Shdr>, i: nat): ReadSection {
    var names := Contained(b, Nth(hs, ReadLe(b, 62, 2)));
    var rela := Nth(hs, FindRela(hs, i, 0));
    ReadSection(KindNamed(CStr(names, Nth(hs, i).name)), Contained(b, Nth(hs, i)), Nth(hs, i).size, ReadRelas(Contained(b, rela)))
  }

  function ReadElf(b: seq<Byte>): ReadObject {
    var hs := SectionTable(b);
    var symtab := Nth(hs, FindKind(hs, SHT_SYMTAB, 0));
    ReadObject(ReadLe(b, 18, 2),
               seq(ContentCount(hs, 1), i requires 0 <= i => ReadSectionAt(b, hs, i + 1)),
               ReadSymbols(Contained(b, symtab), Contained(b, Nth(hs, symtab.link))),
               Minus1(symtab.info))
  }
}
