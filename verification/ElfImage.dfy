/** The direct executable: program headers, resolved text, page-aligned read-only data. */
module ElfImage {
  import opened Words
  import opened Ir
  import opened ElfBytes
  import opened ElfObject

  const LOAD_BASE: nat := 0x40_0000
  const PAGE: nat := 0x1000
  const PHDR_SIZE: nat := 56

  // ---- What is found in the model ----

  /** The last of the first `n` sections with a kind. */
  function LastOf(sections: seq<Section>, kind: SectionKind, n: nat): (r: Option<nat>)
    requires n <= |sections|
    ensures r.Some? ==> r.value < n && sections[r.value].kind == kind
  {
    if n == 0 then None else if sections[n - 1].kind == kind then Some(n - 1) else LastOf(sections, kind, n - 1)
  }

  function Found(m: Model, kind: SectionKind): (r: Option<nat>)
    ensures r.Some? ==> r.value < |m.sections| && m.sections[r.value].kind == kind
  {
    LastOf(m.sections, kind, |m.sections|)
  }

  function DataOf(m: Model, kind: SectionKind): seq<Byte> { if Found(m, kind).Some? then m.sections[Found(m, kind).value].data else [] }

  function BssSize(m: Model): nat { if Found(m, Bss).Some? then m.sections[Found(m, Bss).value].size else 0 }

  function TextLen(m: Model): nat { |DataOf(m, Text)| }

  predicate HasRodata(m: Model) { DataOf(m, ReadOnlyData) != [] }

  predicate HasBss(m: Model) { BssSize(m) > 0 }

  // ---- Addresses ----

  function SegmentCount(m: Model): nat { 1 + (if HasRodata(m) then 1 else 0) + (if HasBss(m) then 1 else 0) }

  function HeaderSize(m: Model): nat { EHDR_SIZE + PHDR_SIZE * SegmentCount(m) }

  function TextAddr(m: Model): nat { LOAD_BASE + HeaderSize(m) }

  function TextEnd(m: Model): nat { HeaderSize(m) + TextLen(m) }

  function RodataOffset(m: Model): nat { AlignUp(TextEnd(m), PAGE) }

  function BssOffset(m: Model): nat {
    AlignUp(if HasRodata(m) then RodataOffset(m) + |DataOf(m, ReadOnlyData)| else TextEnd(m), PAGE)
  }

  /** The address of a section that is laid out. */
  function SectionAddr(m: Model, i: nat): Option<nat> {
    if i == 0 then Some(TextAddr(m))
    else if Some(i) == Found(m, ReadOnlyData) && HasRodata(m) then Some(LOAD_BASE + RodataOffset(m))
    else if Some(i) == Found(m, Bss) && HasBss(m) then Some(LOAD_BASE + BssOffset(m))
    else None
  }

  function SymbolAddr(m: Model, s: Symbol): Option<nat> {
    var section :- s.section;
    var base :- SectionAddr(m, section);
    Some(base + s.value)
  }

  /** `S - (P + 4)`, when the relocation can be resolved here and the distance fits 32 bits. */
  function Displacement(m: Model, r: Reloc): Option<int> {
    if r.kind != RelocKind.Branch && r.kind != PcRel32 then None
    else if r.symbol >= |m.symbols| || m.symbols[r.symbol].kind == SectionStart then None
    else
      var target :- SymbolAddr(m, m.symbols[r.symbol]);
      var field := TextAddr(m) + r.offset;
      if target >= TWO63 || field >= TWO63 then None
      else if -0x8000_0000 <= target - (field + 4) < 0x8000_0000 then Some(target - (field + 4)) else None
  }

  /** The four bytes of a resolved field. */
  function FieldBytes(displacement: int): (b: seq<Byte>)
    ensures |b| == 4
  {
    Le(displacement % 0x1_0000_0000, 4)
  }

  function PatchField(text: seq<Byte>, at: nat, field: seq<Byte>): (b: seq<Byte>)
    requires at + |field| <= |text|
    ensures |b| == |text|
  {
    text[..at] + field + text[at + |field|..]
  }

  /** The text with its first `k` relocations resolved. */
  function Patched(m: Model, relocs: seq<Reloc>, text: seq<Byte>, k: nat): (r: Option<seq<Byte>>)
    requires k <= |relocs|
    ensures r.Some? ==> |r.value| == |text|
  {
    if k == 0 then Some(text)
    else
      var before :- Patched(m, relocs, text, k - 1);
      var d :- Displacement(m, relocs[k - 1]);
      if relocs[k - 1].offset + 4 <= |text| then Some(PatchField(before, relocs[k - 1].offset, FieldBytes(d))) else None
  }

  function FirstNamed(symbols: seq<Symbol>, name: seq<Byte>, i: nat): Option<nat>
    requires i <= |symbols|
    decreases |symbols| - i
  {
    if i == |symbols| then None else if symbols[i].name == name then Some(i) else FirstNamed(symbols, name, i + 1)
  }

  function EntryAddr(m: Model): Option<nat> {
    var name :- m.entry;
    var j :- FirstNamed(m.symbols, name, 0);
    if j < |m.symbols| then SymbolAddr(m, m.symbols[j]) else None
  }

  // ---- The file ----

  datatype Segment = Segment(flags: nat, offset: nat, vaddr: nat, fileSize: nat, memSize: nat)

  function Segments(m: Model): (ss: seq<Segment>)
    ensures |ss| == SegmentCount(m)
  {
    [Segment(5, 0, LOAD_BASE, TextEnd(m), TextEnd(m))]
    + (if HasRodata(m) then
         [Segment(4, RodataOffset(m), LOAD_BASE + RodataOffset(m), |DataOf(m, ReadOnlyData)|, |DataOf(m, ReadOnlyData)|)]
       else [])
    + (if HasBss(m) then [Segment(6, BssOffset(m), LOAD_BASE + BssOffset(m), 0, BssSize(m))] else [])
  }

  function ExecHeader(entry: nat, count: nat): (b: seq<Byte>)
    ensures |b| == EHDR_SIZE
  {
    [0x7F, 0x45, 0x4C, 0x46, 2, 1, 1, 0, 0] + Zeros(7) + Le(2, 2) + Le(62, 2) + Le(1, 4) + Le(entry, 8) + Le(EHDR_SIZE, 8)
    + Le(0, 8) + Le(0, 4) + Le(EHDR_SIZE, 2) + Le(PHDR_SIZE, 2) + Le(count, 2) + Le(0, 2) + Le(0, 2) + Le(0, 2)
  }

  function PhdrBytes(s: Segment): (b: seq<Byte>)
    ensures |b| == PHDR_SIZE
  {
    Le(1, 4) + Le(s.flags, 4) + Le(s.offset, 8) + Le(s.vaddr, 8) + Le(s.vaddr, 8) + Le(s.fileSize, 8) + Le(s.memSize, 8) + Le(PAGE, 8)
  }

  function Phdrs(ss: seq<Segment>, k: nat): (b: seq<Byte>)
    requires k <= |ss|
    ensures |b| == PHDR_SIZE * k
  {
    if k == 0 then [] else Phdrs(ss, k - 1) + PhdrBytes(ss[k - 1])
  }

  function ImageBytes(m: Model, text: seq<Byte>, entry: nat): seq<Byte> {
    var head := ExecHeader(entry, SegmentCount(m)) + Phdrs(Segments(m), SegmentCount(m)) + text;
    if HasRodata(m) then Padded(head, RodataOffset(m)) + DataOf(m, ReadOnlyData) else head
  }

  /** Refused: another machine, no entry, a debug section, a relocation that cannot be resolved,
      an entry symbol that is not placed. */
  function Executable(m: Model): Option<seq<Byte>>
    requires m.sections != []
  {
    if m.machine != X86_64 || m.entry.None? || (exists i :: 0 <= i < |m.sections| && m.sections[i].kind.Debug?) then None
    else
      var text :- Patched(m, m.sections[0].relocs, DataOf(m, Text), |m.sections[0].relocs|);
      var entry :- EntryAddr(m);
      Some(ImageBytes(m, text, entry))
  }

  // ---- The writer ----

  /** Every relocation of the text, in order, until one cannot be resolved. */
  method ResolveText(m: Model, relocs: seq<Reloc>, data: seq<Byte>) returns (r: Option<seq<Byte>>)
    ensures r == Patched(m, relocs, data, |relocs|)
  {
    hide Displacement;
    var text := data;
    var k := 0;
    while k < |relocs|
      invariant k <= |relocs| && Patched(m, relocs, data, k) == Some(text)
    {
      var d := Displacement(m, relocs[k]);
      if d.None? || relocs[k].offset + 4 > |text| {
        Unresolved(m, relocs, data, k);
        return None;
      }
      text := PatchField(text, relocs[k].offset, FieldBytes(d.value));
      k := k + 1;
    }
    return Some(text);
  }

  method EmitImage(m: Model, text: seq<Byte>, rodata: seq<Byte>, entry: nat) returns (bytes: seq<Byte>)
    requires rodata == DataOf(m, ReadOnlyData)
    ensures bytes == ImageBytes(m, text, entry)
  {
    hide LastOf, Padded, ExecHeader, PhdrBytes, DataOf, BssSize, Segments, RodataOffset, Phdrs;
    var ss := Segments(m);
    var head := ExecHeader(entry, SegmentCount(m));
    bytes := head;
    PhdrsStart(head, ss);
    var k := 0;
    while k < |ss|
      invariant k <= |ss| && bytes == head + Phdrs(ss, k)
    {
      bytes := bytes + PhdrBytes(ss[k]);
      PhdrsNext(head, ss, k);
      k := k + 1;
    }
    bytes := bytes + text;
    if rodata != [] {
      bytes := Padded(bytes, RodataOffset(m)) + rodata;
    }
  }

  lemma PhdrsStart(head: seq<Byte>, ss: seq<Segment>)
    ensures head + Phdrs(ss, 0) == head
  {
  }

  /** `write_elf_executable_from_model`. */
  method WriteExecutable(m: Model) returns (r: Option<seq<Byte>>)
    requires m.sections != [] && forall k :: 0 <= k < |m.sections[0].relocs| ==> m.sections[0].relocs[k].symbol < |m.symbols|
    ensures r == Executable(m)
  {
    hide Patched, EntryAddr, DataOf, ImageBytes, BssSize;
    if m.machine != X86_64 || m.entry.None? { return None; }
    var debug, data, rodata, bssSize := FindSections(m);
    if debug { return None; }
    var text := ResolveText(m, m.sections[0].relocs, data);
    if text.None? { return None; }
    var entry := EntryAddr(m);
    if entry.None? { return None; }
    var bytes := EmitImage(m, text.value, rodata, entry.value);
    return Some(bytes);
  }

  lemma PhdrsNext(head: seq<Byte>, ss: seq<Segment>, k: nat)
    requires k < |ss|
    ensures head + Phdrs(ss, k) + PhdrBytes(ss[k]) == head + Phdrs(ss, k + 1)
  {
    hide PhdrBytes;
  }

  lemma {:induction false} Unresolved(m: Model, relocs: seq<Reloc>, text: seq<Byte>, k: nat)
    requires k < |relocs| && (Displacement(m, relocs[k]).None? || relocs[k].offset + 4 > |text|)
    ensures Patched(m, relocs, text, |relocs|).None?
  {
    hide Displacement;
    UnresolvedFrom(m, relocs, text, k, |relocs|);
  }

  lemma {:induction false} UnresolvedFrom(m: Model, relocs: seq<Reloc>, text: seq<Byte>, k: nat, n: nat)
    requires k < n <= |relocs| && (Displacement(m, relocs[k]).None? || relocs[k].offset + 4 > |text|)
    ensures Patched(m, relocs, text, n).None?
    decreases n
  {
    hide Displacement;
    if n > k + 1 { UnresolvedFrom(m, relocs, text, k, n - 1); }
  }

  /** One pass over the sections; a later section of a kind replaces an earlier one. */
  method FindSections(m: Model) returns (debug: bool, text: seq<Byte>, rodata: seq<Byte>, bssSize: nat)
    ensures debug <==> exists i :: 0 <= i < |m.sections| && m.sections[i].kind.Debug?
    ensures !debug ==> text == DataOf(m, Text) && rodata == DataOf(m, ReadOnlyData) && bssSize == BssSize(m)
  {
    debug, text, rodata, bssSize := false, [], [], 0;
    var i := 0;
    while i < |m.sections|
      invariant i <= |m.sections| && forall j :: 0 <= j < i ==> !m.sections[j].kind.Debug?
      invariant text == (if LastOf(m.sections, Text, i).Some? then m.sections[LastOf(m.sections, Text, i).value].data else [])
      invariant rodata == (if LastOf(m.sections, ReadOnlyData, i).Some? then m.sections[LastOf(m.sections, ReadOnlyData, i).value].data else [])
      invariant bssSize == if LastOf(m.sections, Bss, i).Some? then m.sections[LastOf(m.sections, Bss, i).value].size else 0
    {
      var s := m.sections[i];
      match s.kind {
        case Text => text := s.data;
        case ReadOnlyData => rodata := s.data;
        case Bss => bssSize := s.size;
        case Debug(_) => return true, text, rodata, bssSize;
      }
      i := i + 1;
    }
    return false, text, rodata, bssSize;
  }
}
