/** Loading the executable: what memory holds once its segments are mapped. */
module ElfLoad {
  import opened Words
  import opened Ir
  import opened ElfBytes
  import opened ElfObject
  import opened ElfRoundTrip
  import opened ElfImage

  // ---- Reading program headers (System V gABI chapter 5, "Program Header") ----

  datatype Phdr = Phdr(kind: nat, flags: nat, offset: nat, vaddr: nat, fileSize: nat, memSize: nat, align: nat)

  function ReadPhdr(b: seq<Byte>, at: nat): Phdr {
    Phdr(ReadLe(b, at, 4), ReadLe(b, at + 4, 4), ReadLe(b, at + 8, 8), ReadLe(b, at + 16, 8), ReadLe(b, at + 32, 8),
         ReadLe(b, at + 40, 8), ReadLe(b, at + 48, 8))
  }

  function ProgramHeaders(b: seq<Byte>): seq<Phdr> {
    seq(ReadLe(b, 56, 2), i requires 0 <= i => ReadPhdr(b, ReadLe(b, 32, 8) + PHDR_SIZE * i))
  }

  /** The byte mapped at an address by the first of the loadable segments that covers it. */
  function Mapped(b: seq<Byte>, hs: seq<Phdr>, a: nat): Option<Byte>
    decreases hs
  {
    if hs == [] then None
    else if hs[0].kind == 1 && hs[0].vaddr <= a < hs[0].vaddr + hs[0].memSize then
      Some(if a < hs[0].vaddr + hs[0].fileSize then Get(b, hs[0].offset + (a - hs[0].vaddr)) else 0)
    else Mapped(b, hs[1..], a)
  }

  // ---- The headers read back ----

  lemma ExecHeaderReads(b: seq<Byte>, entry: nat, count: nat)
    requires At(b, 0, ExecHeader(entry, count)) && entry < TWO64 && count < 0x1_0000
    ensures ReadLe(b, 24, 8) == entry && ReadLe(b, 32, 8) == EHDR_SIZE && ReadLe(b, 56, 2) == count
  {
    hide At, ReadLe, Le, Pow256;
    Powers();
    var h := ExecHeader(entry, count);
    var a := [0x7F, 0x45, 0x4C, 0x46, 2, 1, 1, 0, 0] + Zeros(7) + Le(2, 2) + Le(62, 2) + Le(1, 4);
    var c := Le(0, 8) + Le(0, 4) + Le(EHDR_SIZE, 2) + Le(PHDR_SIZE, 2);
    var z := Le(0, 2) + Le(0, 2) + Le(0, 2);
    assert h == a + Le(entry, 8) + (Le(EHDR_SIZE, 8) + c + Le(count, 2) + z);
    FieldAfter(b, 0, a, entry, 8, Le(EHDR_SIZE, 8) + c + Le(count, 2) + z);
    assert h == (a + Le(entry, 8)) + Le(EHDR_SIZE, 8) + (c + Le(count, 2) + z);
    FieldAfter(b, 0, a + Le(entry, 8), EHDR_SIZE, 8, c + Le(count, 2) + z);
    assert h == (a + Le(entry, 8) + Le(EHDR_SIZE, 8) + c) + Le(count, 2) + z;
    FieldAfter(b, 0, a + Le(entry, 8) + Le(EHDR_SIZE, 8) + c, count, 2, z);
  }

  predicate SegmentFits(s: Segment) {
    s.flags < 8 && s.offset < TWO64 && s.vaddr < TWO64 && s.fileSize < TWO64 && s.memSize < TWO64
  }

  function PhdrOf(s: Segment): Phdr { Phdr(1, s.flags, s.offset, s.vaddr, s.fileSize, s.memSize, PAGE) }

  lemma PhdrReads(b: seq<Byte>, at: nat, s: Segment)
    requires SegmentFits(s) && At(b, at, PhdrBytes(s))
    ensures ReadPhdr(b, at) == PhdrOf(s)
  {
    hide At, ReadLe, Le, Pow256;
    Powers();
    var x0, x1, x2, x3, x4 := Le(1, 4), Le(s.flags, 4), Le(s.offset, 8), Le(s.vaddr, 8), Le(s.fileSize, 8);
    var x5, x6 := Le(s.memSize, 8), Le(PAGE, 8);
    AtSplit(b, at, x0 + x1 + x2 + x3 + x3 + x4 + x5, x6);
    AtSplit(b, at, x0 + x1 + x2 + x3 + x3 + x4, x5);
    AtSplit(b, at, x0 + x1 + x2 + x3 + x3, x4);
    AtSplit(b, at, x0 + x1 + x2 + x3, x3);
    AtSplit(b, at, x0 + x1 + x2, x3);
    AtSplit(b, at, x0 + x1, x2);
    AtSplit(b, at, x0, x1);
    FieldReads(b, at, 1, 4);
    FieldReads(b, at + 4, s.flags, 4);
    FieldReads(b, at + 8, s.offset, 8);
    FieldReads(b, at + 16, s.vaddr, 8);
    FieldReads(b, at + 32, s.fileSize, 8);
    FieldReads(b, at + 40, s.memSize, 8);
    FieldReads(b, at + 48, PAGE, 8);
  }

  lemma {:induction false} PhdrsAt(ss: seq<Segment>, i: nat, k: nat)
    requires i < k <= |ss|
    ensures At(Phdrs(ss, k), PHDR_SIZE * i, PhdrBytes(ss[i]))
    decreases k
  {
    hide PhdrBytes, At;
    if i == k - 1 {
      AtEnd(Phdrs(ss, i), PhdrBytes(ss[i]));
    } else {
      PhdrsAt(ss, i, k - 1);
      AtMore(Phdrs(ss, k - 1), PhdrBytes(ss[k - 1]), PHDR_SIZE * i, PhdrBytes(ss[i]));
    }
  }

  /** The addresses stay below 2^64. */
  predicate AddressesFit(m: Model) { LOAD_BASE + BssOffset(m) + BssSize(m) < TWO64 }

  /** Where everything is in the file. */
  lemma ImageAt(m: Model, text: seq<Byte>, entry: nat)
    requires |text| == TextLen(m)
    ensures var b := ImageBytes(m, text, entry);
            && At(b, 0, ExecHeader(entry, SegmentCount(m))) && At(b, EHDR_SIZE, Phdrs(Segments(m), SegmentCount(m)))
            && At(b, HeaderSize(m), text) && (HasRodata(m) ==> At(b, RodataOffset(m), DataOf(m, ReadOnlyData)))
  {
    hide At, ExecHeader, Phdrs, DataOf, BssSize, Segments, Padded, AlignUp;
    var h, p := ExecHeader(entry, SegmentCount(m)), Phdrs(Segments(m), SegmentCount(m));
    var head := h + p + text;
    HeadAt(h, p, text);
    if HasRodata(m) {
      PaddedAt(head, RodataOffset(m), 0, h);
      PaddedAt(head, RodataOffset(m), EHDR_SIZE, p);
      PaddedAt(head, RodataOffset(m), HeaderSize(m), text);
      var all := Padded(head, RodataOffset(m));
      assert |all| == RodataOffset(m);
      AtMore(all, DataOf(m, ReadOnlyData), 0, h);
      AtMore(all, DataOf(m, ReadOnlyData), EHDR_SIZE, p);
      AtMore(all, DataOf(m, ReadOnlyData), HeaderSize(m), text);
      AtEnd(all, DataOf(m, ReadOnlyData));
    }
  }

  lemma HeadAt(h: seq<Byte>, p: seq<Byte>, text: seq<Byte>)
    ensures At(h + p + text, 0, h) && At(h + p + text, |h|, p) && At(h + p + text, |h| + |p|, text)
  {
  }

  lemma {:induction false} Rounded(value: nat)
    ensures AlignUp(value, PAGE) % PAGE == 0 && AlignUp(value, PAGE) >= value
  {
    RoundUp(value, PAGE);
  }

  /** Segments lie one after the other in memory, each congruent to its file offset modulo the
      page size, and inside the address space. */
  lemma SegmentsPlaced(m: Model)
    requires AddressesFit(m)
    ensures var ss := Segments(m);
            && (forall i :: 0 <= i < |ss| ==> SegmentFits(ss[i]) && ss[i].vaddr % PAGE == ss[i].offset % PAGE && ss[i].fileSize <= ss[i].memSize)
            && forall i, j :: 0 <= i < j < |ss| ==> ss[i].vaddr + ss[i].memSize <= ss[j].vaddr
  {
    Rounded(TextEnd(m));
    Rounded(RodataOffset(m) + |DataOf(m, ReadOnlyData)|);
    hide DataOf, BssSize, AlignUp;
    BaseCongruent(RodataOffset(m));
    BaseCongruent(BssOffset(m));
  }

  lemma BaseCongruent(offset: nat)
    ensures (LOAD_BASE + offset) % PAGE == offset % PAGE
  {
  }

  /** The header and the segments, as a loader reads them. */
  lemma HeadersRead(m: Model, text: seq<Byte>, entry: nat)
    requires |text| == TextLen(m) && entry < TWO64 && AddressesFit(m)
    ensures var b := ImageBytes(m, text, entry); var hs := ProgramHeaders(b);
            && ReadLe(b, 24, 8) == entry && |hs| == |Segments(m)| && forall i :: 0 <= i < |hs| ==> hs[i] == PhdrOf(Segments(m)[i])
  {
    hide ImageBytes, At, ExecHeader, Phdrs, PhdrBytes, Segments, ReadLe, ReadPhdr, DataOf, BssSize, SegmentFits;
    var b, ss := ImageBytes(m, text, entry), Segments(m);
    ImageAt(m, text, entry);
    ExecHeaderReads(b, entry, SegmentCount(m));
    SegmentsPlaced(m);
    forall i | 0 <= i < |ss| ensures ReadPhdr(b, EHDR_SIZE + PHDR_SIZE * i) == PhdrOf(ss[i]) {
      PhdrsAt(ss, i, |ss|);
      AtInside(b, EHDR_SIZE, Phdrs(ss, |ss|), PHDR_SIZE * i, PhdrBytes(ss[i]));
      PhdrReads(b, EHDR_SIZE + PHDR_SIZE * i, ss[i]);
    }
  }

  lemma AtInside(b: seq<Byte>, at: nat, p: seq<Byte>, i: nat, part: seq<Byte>)
    requires At(b, at, p) && At(p, i, part)
    ensures At(b, at + i, part)
  {
    forall k | 0 <= k < |part| ensures b[at + i + k] == part[k] {
      assert b[at..at + |p|][i + k] == p[i + k] && p[i..i + |part|][k] == part[k];
    }
  }

  lemma AtByte(b: seq<Byte>, at: nat, part: seq<Byte>, k: nat)
    requires At(b, at, part) && k < |part|
    ensures Get(b, at + k) == part[k]
  {
    assert b[at..at + |part|][k] == b[at + k];
  }

  // ---- Memory ----

  lemma {:induction false} MappedBy(b: seq<Byte>, hs: seq<Phdr>, i: nat, a: nat)
    requires i < |hs| && hs[i].kind == 1 && hs[i].vaddr <= a < hs[i].vaddr + hs[i].memSize
    requires forall j :: 0 <= j < i ==> hs[j].vaddr + hs[j].memSize <= hs[i].vaddr
    ensures Mapped(b, hs, a) == Some(if a < hs[i].vaddr + hs[i].fileSize then Get(b, hs[i].offset + (a - hs[i].vaddr)) else 0)
    decreases i
  {
    if i > 0 { MappedBy(b, hs[1..], i - 1, a); }
  }

  /** Byte `k` of what is mapped from `base` on. */
  function Loaded(b: seq<Byte>, base: nat, k: nat): Option<Byte> { Mapped(b, ProgramHeaders(b), base + k) }

  /** A section's bytes are in memory from its address on. */
  ghost predicate Holds(b: seq<Byte>, base: nat, data: seq<Byte>) {
    forall k :: 0 <= k < |data| ==> Loaded(b, base, k) == Some(data[k])
  }

  /** The zeroed data: no file bytes, zeros in memory. */
  ghost predicate Zeroed(b: seq<Byte>, base: nat, size: nat) {
    forall k :: 0 <= k < size ==> Loaded(b, base, k) == Some(0)
  }

  lemma SegmentHolds(m: Model, text: seq<Byte>, entry: nat, i: nat, skip: nat, data: seq<Byte>)
    requires |text| == TextLen(m) && entry < TWO64 && AddressesFit(m) && i < |Segments(m)|
    requires skip + |data| <= Segments(m)[i].fileSize && At(ImageBytes(m, text, entry), Segments(m)[i].offset + skip, data)
    ensures Holds(ImageBytes(m, text, entry), Segments(m)[i].vaddr + skip, data)
  {
    hide ImageBytes, At, DataOf, BssSize, ProgramHeaders, Mapped, Get, AlignUp, Segments, SegmentFits;
    var b := ImageBytes(m, text, entry);
    var hs, s := ProgramHeaders(b), Segments(m)[i];
    HeadersRead(m, text, entry);
    SegmentsPlaced(m);
    forall k | 0 <= k < |data| ensures Loaded(b, s.vaddr + skip, k) == Some(data[k]) {
      MappedBy(b, hs, i, s.vaddr + skip + k);
      AtByte(b, s.offset + skip, data, k);
    }
  }

  lemma SegmentZeroed(m: Model, text: seq<Byte>, entry: nat, i: nat)
    requires |text| == TextLen(m) && entry < TWO64 && AddressesFit(m) && i < |Segments(m)| && Segments(m)[i].fileSize == 0
    ensures Zeroed(ImageBytes(m, text, entry), Segments(m)[i].vaddr, Segments(m)[i].memSize)
  {
    hide ImageBytes, DataOf, BssSize, ProgramHeaders, Mapped, Get, AlignUp, Segments, SegmentFits;
    var b := ImageBytes(m, text, entry);
    var hs, s := ProgramHeaders(b), Segments(m)[i];
    HeadersRead(m, text, entry);
    SegmentsPlaced(m);
    forall k | 0 <= k < s.memSize ensures Loaded(b, s.vaddr, k) == Some(0) { MappedBy(b, hs, i, s.vaddr + k); }
  }

  /** The resolved text, the read-only data and the zeroed data are in memory where their
      sections' addresses say. */
  lemma MemoryHolds(m: Model, text: seq<Byte>, entry: nat)
    requires |text| == TextLen(m) && entry < TWO64 && AddressesFit(m)
    ensures var b := ImageBytes(m, text, entry);
            && Holds(b, TextAddr(m), text) && (HasRodata(m) ==> Holds(b, LOAD_BASE + RodataOffset(m), DataOf(m, ReadOnlyData)))
            && (HasBss(m) ==> Zeroed(b, LOAD_BASE + BssOffset(m), BssSize(m)))
  {
    hide ImageBytes, At, DataOf, BssSize, Holds, Zeroed, RodataOffset, BssOffset, HasRodata, HasBss, Segments, TextAddr;
    TextHolds(m, text, entry);
    if HasRodata(m) { RodataHolds(m, text, entry); }
    if HasBss(m) {
      SegmentsAre(m);
      SegmentZeroed(m, text, entry, |Segments(m)| - 1);
    }
  }

  lemma TextHolds(m: Model, text: seq<Byte>, entry: nat)
    requires |text| == TextLen(m) && entry < TWO64 && AddressesFit(m)
    ensures Holds(ImageBytes(m, text, entry), TextAddr(m), text)
  {
    hide ImageBytes, At, DataOf, BssSize, Holds, RodataOffset, BssOffset, HasRodata, HasBss, Segments, SegmentCount, AddressesFit, ExecHeader, Phdrs;
    ImageAt(m, text, entry);
    SegmentsAre(m);
    SegmentHolds(m, text, entry, 0, HeaderSize(m), text);
  }

  lemma RodataHolds(m: Model, text: seq<Byte>, entry: nat)
    requires |text| == TextLen(m) && entry < TWO64 && AddressesFit(m) && HasRodata(m)
    ensures Holds(ImageBytes(m, text, entry), LOAD_BASE + RodataOffset(m), DataOf(m, ReadOnlyData))
  {
    hide ImageBytes, At, DataOf, BssSize, Holds, RodataOffset, BssOffset, HasRodata, HasBss, Segments, AddressesFit, TextLen, ExecHeader, Phdrs, SegmentCount, HeaderSize, TextEnd;
    ImageAt(m, text, entry);
    SegmentsAre(m);
    SegmentHolds(m, text, entry, 1, 0, DataOf(m, ReadOnlyData));
  }

  lemma SegmentsAre(m: Model)
    ensures |Segments(m)| > 0 && Segments(m)[0] == Segment(5, 0, LOAD_BASE, TextEnd(m), TextEnd(m))
    ensures HasRodata(m) ==>
              && |Segments(m)| > 1
              && Segments(m)[1] == Segment(4, RodataOffset(m), LOAD_BASE + RodataOffset(m), |DataOf(m, ReadOnlyData)|, |DataOf(m, ReadOnlyData)|)
    ensures HasBss(m) ==> Segments(m)[|Segments(m)| - 1] == Segment(6, BssOffset(m), LOAD_BASE + BssOffset(m), 0, BssSize(m))
  {
    hide DataOf, BssSize, RodataOffset, BssOffset, HasRodata, HasBss;
  }

  // ---- Relocated fields ----

  predicate Disjoint(a: Reloc, b: Reloc) { a.offset + 4 <= b.offset || b.offset + 4 <= a.offset }

  ghost predicate NoOverlap(relocs: seq<Reloc>) { forall i, j :: 0 <= i < j < |relocs| ==> Disjoint(relocs[i], relocs[j]) }

  /** Is byte `k` of the text part of one of the first `n` fields? */
  ghost predicate InField(relocs: seq<Reloc>, n: nat, k: nat)
    requires n <= |relocs|
  {
    exists i :: 0 <= i < n && relocs[i].offset <= k < relocs[i].offset + 4
  }

  lemma PatchBytes(text: seq<Byte>, at: nat, field: seq<Byte>, k: nat)
    requires at + |field| <= |text| && k < |text|
    ensures PatchField(text, at, field)[k] == if at <= k < at + |field| then field[k - at] else text[k]
  {
  }

  /** The four bytes of a relocation's field are its distance. */
  ghost predicate FieldPatched(m: Model, r: Reloc, text: seq<Byte>) {
    && Displacement(m, r).Some? && r.offset + 4 <= |text|
    && forall k :: 0 <= k < 4 ==> text[r.offset + k] == FieldBytes(Displacement(m, r).value)[k]
  }

  /** Each field holds its distance, every other byte is the model's. */
  lemma {:induction false} PatchedIs(m: Model, relocs: seq<Reloc>, text: seq<Byte>, n: nat)
    requires n <= |relocs| && NoOverlap(relocs) && Patched(m, relocs, text, n).Some?
    ensures var out := Patched(m, relocs, text, n).value;
            && (forall i :: 0 <= i < n ==> FieldPatched(m, relocs[i], out))
            && forall k :: 0 <= k < |text| && !InField(relocs, n, k) ==> out[k] == text[k]
    decreases n
  {
    hide Displacement, FieldBytes, PatchField;
    if n > 0 {
      PatchedIs(m, relocs, text, n - 1);
      var before, out := Patched(m, relocs, text, n - 1).value, Patched(m, relocs, text, n).value;
      var r := relocs[n - 1];
      var d := Displacement(m, r).value;
      forall k | 0 <= k < |text| ensures out[k] == if r.offset <= k < r.offset + 4 then FieldBytes(d)[k - r.offset] else before[k] {
        PatchBytes(before, r.offset, FieldBytes(d), k);
      }
      forall i | 0 <= i < n ensures FieldPatched(m, relocs[i], out) {
        if i < n - 1 { assert Disjoint(relocs[i], relocs[n - 1]); }
      }
      forall k | 0 <= k < |text| && !InField(relocs, n, k) ensures out[k] == text[k] {
        assert !InField(relocs, n - 1, k);
        assert !(relocs[n - 1].offset <= k < relocs[n - 1].offset + 4);
      }
    }
  }

  /** A 32-bit field as a signed number. */
  function Signed32(x: nat): int { if x >= 0x8000_0000 then x - 0x1_0000_0000 else x }

  function LoadedByte(b: seq<Byte>, base: nat, k: nat): nat {
    match Loaded(b, base, k)
    case Some(v) => v
    case None => 0
  }

  function Word32(b0: nat, b1: nat, b2: nat, b3: nat): nat { b0 + 256 * (b1 + 256 * (b2 + 256 * b3)) }

  /** The little-endian word at `base + k`. */
  function LoadedWord(b: seq<Byte>, base: nat, k: nat): nat {
    Word32(LoadedByte(b, base, k), LoadedByte(b, base, k + 1), LoadedByte(b, base, k + 2), LoadedByte(b, base, k + 3))
  }

  lemma FieldValue(d: int)
    requires -0x8000_0000 <= d < 0x8000_0000
    ensures var f := FieldBytes(d); Signed32(Word32(f[0], f[1], f[2], f[3])) == d
  {
    var x: nat := d % 0x1_0000_0000;
    assert Le(x, 4) == [x % 256] + Le(x / 256, 3);
    assert Le(x / 256, 3) == [x / 256 % 256] + Le(x / 256 / 256, 2);
    assert Le(x / 256 / 256, 2) == [x / 256 / 256 % 256] + Le(x / 256 / 256 / 256, 1);
    assert Le(x / 256 / 256 / 256, 1) == [x / 256 / 256 / 256 % 256];
  }

  lemma DisplacementBound(m: Model, r: Reloc)
    requires Displacement(m, r).Some?
    ensures -0x8000_0000 <= Displacement(m, r).value < 0x8000_0000 && r.symbol < |m.symbols| && SymbolAddr(m, m.symbols[r.symbol]).Some?
    ensures Displacement(m, r).value == SymbolAddr(m, m.symbols[r.symbol]).value - (TextAddr(m) + r.offset + 4)
  {
  }

  /** The field of relocation `r` holds `S - (P + 4)`. */
  ghost predicate FieldLinked(m: Model, b: seq<Byte>, r: Reloc) {
    && r.symbol < |m.symbols| && SymbolAddr(m, m.symbols[r.symbol]).Some?
    && Signed32(LoadedWord(b, TextAddr(m), r.offset)) == SymbolAddr(m, m.symbols[r.symbol]).value - (TextAddr(m) + r.offset + 4)
  }

  /** The text is the model's outside the relocated fields. */
  ghost predicate TextKept(m: Model, b: seq<Byte>, relocs: seq<Reloc>) {
    forall k :: 0 <= k < TextLen(m) && !InField(relocs, |relocs|, k) ==> Loaded(b, TextAddr(m), k) == Some(DataOf(m, Text)[k])
  }

  /** Loadable segments, one after the other in memory, page-congruent to the file. */
  ghost predicate WellLoaded(hs: seq<Phdr>) {
    && (forall i, j :: 0 <= i < j < |hs| ==> hs[i].vaddr + hs[i].memSize <= hs[j].vaddr)
    && forall i :: 0 <= i < |hs| ==> hs[i].kind == 1 && hs[i].align == PAGE && hs[i].vaddr % PAGE == hs[i].offset % PAGE
  }

  /** The image is fully linked: once its segments are loaded, every relocated field at `P` holds
      `S - (P + 4)`, every other byte of the text and of the read-only data is the model's, the
      zeroed data is zero, segments are disjoint and congruent to their file offsets modulo the
      page size, and the header's entry is the entry symbol's address. */
  lemma FullyLinked(m: Model)
    requires m.sections != [] && Executable(m).Some? && NoOverlap(m.sections[0].relocs) && AddressesFit(m) && EntryAddr(m).value < TWO64
    ensures var b := Executable(m).value;
            && ReadLe(b, 24, 8) == EntryAddr(m).value && WellLoaded(ProgramHeaders(b))
            && (forall i :: 0 <= i < |m.sections[0].relocs| ==> FieldLinked(m, b, m.sections[0].relocs[i]))
            && TextKept(m, b, m.sections[0].relocs)
            && (HasRodata(m) ==> Holds(b, LOAD_BASE + RodataOffset(m), DataOf(m, ReadOnlyData)))
            && (HasBss(m) ==> Zeroed(b, LOAD_BASE + BssOffset(m), BssSize(m)))
  {
    hide ImageBytes, DataOf, BssSize, ProgramHeaders, Patched, EntryAddr, Segments, AlignUp, Displacement, SymbolAddr, ReadLe, FieldBytes, TextAddr, RodataOffset, BssOffset, HasRodata, HasBss, Zeroed, FieldLinked, InField, Loaded;
    var relocs := m.sections[0].relocs;
    var text, entry := Patched(m, relocs, DataOf(m, Text), |relocs|).value, EntryAddr(m).value;
    var b := ImageBytes(m, text, entry);
    assert Executable(m) == Some(b);
    hide Executable;
    HeadersRead(m, text, entry);
    SegmentsPlaced(m);
    MemoryHolds(m, text, entry);
    PatchedIs(m, relocs, DataOf(m, Text), |relocs|);
    forall i | 0 <= i < |relocs| ensures FieldLinked(m, b, relocs[i]) { LinkedField(m, relocs, i, text, b); }
  }

  lemma LinkedField(m: Model, relocs: seq<Reloc>, i: nat, text: seq<Byte>, b: seq<Byte>)
    requires i < |relocs| && FieldPatched(m, relocs[i], text) && Holds(b, TextAddr(m), text)
    ensures FieldLinked(m, b, relocs[i])
  {
    hide Loaded, TextAddr, Displacement, SymbolAddr, FieldBytes;
    var r := relocs[i];
    var d := Displacement(m, r).value;
    DisplacementBound(m, r);
    FieldValue(d);
    var o := r.offset;
    assert text[o] == FieldBytes(d)[0] by { assert o == o + 0; }
    assert text[o + 1] == FieldBytes(d)[1] && text[o + 2] == FieldBytes(d)[2] && text[o + 3] == FieldBytes(d)[3];
  }
}
