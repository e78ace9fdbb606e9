/** `write_elf64`: buffers grown in loops, producing the specified file. */
module ElfWriter {
  import opened ElfBytes
  import opened ElfObject

  /** Relocations name symbols of the model. */
  predicate SymbolsKnown(m: Model) {
    forall i, k :: 0 <= i < |m.sections| && 0 <= k < |m.sections[i].relocs| ==> m.sections[i].relocs[k].symbol < |m.symbols|
  }

  lemma RelocatedNext(sections: seq<Section>, i: nat, indices: seq<nat>)
    requires i < |sections|
    ensures indices + Relocated(sections, i) ==
            (if sections[i].relocs != [] then indices + [i] else indices) + Relocated(sections, i + 1)
  {
  }

  method RelocatedSections(sections: seq<Section>) returns (indices: seq<nat>)
    ensures indices == Relocated(sections, 0)
  {
    indices := [];
    var i := 0;
    while i < |sections|
      invariant i <= |sections| && indices + Relocated(sections, i) == Relocated(sections, 0)
    {
      RelocatedNext(sections, i, indices);
      if sections[i].relocs != [] {
        indices := indices + [i];
      }
      i := i + 1;
    }
    assert indices + [] == indices;
  }

  /** The stable sort by binding: the locals and then the globals, each group in model order. */
  method SortByBinding(symbols: seq<Symbol>) returns (order: seq<nat>)
    ensures order == Order(symbols)
  {
    var locals := Gather(symbols, STB_LOCAL);
    var globals := Gather(symbols, STB_GLOBAL);
    return locals + globals;
  }

  method Gather(symbols: seq<Symbol>, binding: nat) returns (indices: seq<nat>)
    ensures indices == WithBinding(symbols, binding, 0)
  {
    indices := [];
    var i := 0;
    while i < |symbols|
      invariant i <= |symbols| && indices + WithBinding(symbols, binding, i) == WithBinding(symbols, binding, 0)
    {
      ghost var before := indices;
      if Binding(symbols[i]) == binding {
        indices := indices + [i];
      }
      assert before + WithBinding(symbols, binding, i) == indices + WithBinding(symbols, binding, i + 1);
      i := i + 1;
    }
    assert indices + [] == indices;
  }

  lemma {:induction false} PositionIs(order: seq<nat>, p: nat)
    requires p < |order| && forall i, j :: 0 <= i < j < |order| ==> order[i] != order[j]
    ensures PositionOf(order, order[p]) == p
    decreases p
  {
    if p > 0 { PositionIs(order[1..], p - 1); }
  }

  lemma OrderDistinct(symbols: seq<Symbol>)
    ensures forall i, j :: 0 <= i < j < |Order(symbols)| ==> Order(symbols)[i] != Order(symbols)[j]
  {
    OrderFacts(symbols);
    hide Order;
  }

  /** Model symbol index to symbol-table index. */
  method IndexSymbols(symbols: seq<Symbol>, order: seq<nat>) returns (index: array<nat>)
    requires order == Order(symbols)
    ensures fresh(index) && index.Length == |symbols| && forall j :: 0 <= j < |symbols| ==> index[j] == SymtabIndex(symbols, j)
  {
    OrderFacts(symbols);
    OrderDistinct(symbols);
    hide Order, PositionOf;
    index := new nat[|symbols|](_ => 0);
    var p := 0;
    while p < |order|
      invariant p <= |order| && forall q :: 0 <= q < p ==> index[order[q]] == 1 + q
    {
      index[order[p]] := 1 + p;
      p := p + 1;
    }
    forall j | 0 <= j < |symbols| ensures index[j] == SymtabIndex(symbols, j) {
      assert j in order;
      var q :| 0 <= q < |order| && order[q] == j;
      PositionIs(order, q);
    }
  }

  method WriteSymbols(symbols: seq<Symbol>, order: seq<nat>) returns (symtab: seq<Byte>, strtab: seq<Byte>)
    requires forall i :: 0 <= i < |order| ==> order[i] < |symbols|
    ensures symtab == Symtab(symbols, order, |order|) && strtab == Strtab(symbols, order, |order|)
  {
    hide SymBytes, Strtab, Symtab;
    strtab, symtab := [0], Zeros(SYM_SIZE);
    TablesStart(symbols, order);
    var k := 0;
    while k < |order|
      invariant k <= |order| && symtab == Symtab(symbols, order, k) && strtab == Strtab(symbols, order, k)
    {
      var s := symbols[order[k]];
      var nameOff := 0;
      TablesNext(symbols, order, k);
      if s.kind != SectionStart {
        nameOff := |strtab|;
        strtab := strtab + s.name + [0];
      }
      symtab := symtab + SymBytes(s, nameOff);
      k := k + 1;
    }
  }

  lemma TablesStart(symbols: seq<Symbol>, order: seq<nat>)
    requires forall i :: 0 <= i < |order| ==> order[i] < |symbols|
    ensures Strtab(symbols, order, 0) == [0] && Symtab(symbols, order, 0) == Zeros(SYM_SIZE)
  {
  }

  lemma TablesNext(symbols: seq<Symbol>, order: seq<nat>, k: nat)
    requires k < |order| && forall i :: 0 <= i < |order| ==> order[i] < |symbols|
    ensures var s, old' := symbols[order[k]], Strtab(symbols, order, k);
            && Strtab(symbols, order, k + 1) == (if s.kind == SectionStart then old' else old' + s.name + [0])
            && Symtab(symbols, order, k + 1) == Symtab(symbols, order, k) + SymBytes(s, if s.kind == SectionStart then 0 else |old'|)
  {
    hide SymBytes;
    var s, before := symbols[order[k]], Strtab(symbols, order, k);
    assert before + [] == before;
    assert before + s.name + [0] == before + (s.name + [0]);
  }

  method WriteRela(symbols: seq<Symbol>, index: array<nat>, relocs: seq<Reloc>) returns (rela: seq<Byte>)
    requires index.Length == |symbols| && forall j :: 0 <= j < |symbols| ==> index[j] == SymtabIndex(symbols, j)
    requires forall k :: 0 <= k < |relocs| ==> relocs[k].symbol < |symbols|
    ensures rela == Rela(symbols, relocs, |relocs|)
  {
    hide Rela, RelaBytes, SymtabIndex;
    rela := [];
    RelaStart(symbols, relocs);
    var k := 0;
    while k < |relocs|
      invariant k <= |relocs| && rela == Rela(symbols, relocs, k)
    {
      rela := rela + Entry(relocs[k], index[relocs[k].symbol]);
      RelaNext(symbols, relocs, k);
      k := k + 1;
    }
  }

  /** One relocation against a symbol-table index. */
  function Entry(r: Reloc, symbol: nat): seq<Byte> {
    Le(r.offset, 8) + Le(symbol * 0x1_0000_0000 + RelocType(r.kind), 8) + Le(Addend(r.kind), 8)
  }

  lemma RelaStart(symbols: seq<Symbol>, relocs: seq<Reloc>)
    ensures Rela(symbols, relocs, 0) == []
  {
  }

  lemma RelaNext(symbols: seq<Symbol>, relocs: seq<Reloc>, k: nat)
    requires k < |relocs|
    ensures Rela(symbols, relocs, k + 1) == Rela(symbols, relocs, k) + Entry(relocs[k], SymtabIndex(symbols, relocs[k].symbol))
  {
    hide SymtabIndex, Le;
  }

  method PlanContents(sections: seq<Section>) returns (planned: seq<Planned>)
    ensures planned == Contents(sections)
  {
    planned := [];
    while |planned| < |sections|
      invariant |planned| <= |sections| && planned == Contents(sections)[..|planned|]
      decreases |sections| - |planned|
    {
      planned := planned + [PlanContent(sections[|planned|])];
    }
  }

  method PlanRelas(m: Model, relocated: seq<nat>, index: array<nat>, symtabAt: nat) returns (planned: seq<Planned>)
    requires SymbolsKnown(m) && relocated == Relocated(m.sections, 0)
    requires index.Length == |m.symbols| && forall j :: 0 <= j < |m.symbols| ==> index[j] == SymtabIndex(m.symbols, j)
    ensures planned == Relas(m, symtabAt)
  {
    hide Rela, Relocated, SymtabIndex;
    RelocatedFacts(m.sections, 0);
    planned := [];
    while |planned| < |relocated|
      invariant |planned| <= |relocated| && planned == Relas(m, symtabAt)[..|planned|]
      invariant forall j :: 0 <= j < |m.symbols| ==> index[j] == SymtabIndex(m.symbols, j)
      decreases |relocated| - |planned|
    {
      var s := relocated[|planned|];
      var rela := WriteRela(m.symbols, index, m.sections[s].relocs);
      planned := planned + [Planned(Ascii(RelaName(m.sections[s].kind)), SHT_RELA, 0, 8, RELA_SIZE, |rela|, symtabAt, s + 1, rela)];
    }
  }

  /** The section table without its name section. */
  method PlanSections(m: Model) returns (planned: seq<Planned>)
    requires SymbolsKnown(m)
    ensures planned == Named(m)
  {
    hide Symtab, Strtab, Relas, Order, Relocated, SymtabIndex, Contents, Ascii;
    OrderFacts(m.symbols);
    var relocated := RelocatedSections(m.sections);
    var symtabAt := 1 + |m.sections| + |relocated|;
    var order := SortByBinding(m.symbols);
    var index := IndexSymbols(m.symbols, order);
    var symtab, strtab := WriteSymbols(m.symbols, order);
    var contents := PlanContents(m.sections);
    var relas := PlanRelas(m, relocated, index, symtabAt);
    var locals := CountLocals(m.symbols);
    planned := [NULL_SECTION] + contents + relas
               + [Planned(Ascii(".symtab"), SHT_SYMTAB, 0, 8, SYM_SIZE, |symtab|, symtabAt + 1, 1 + locals, symtab),
                  Planned(Ascii(".strtab"), SHT_STRTAB, 0, 1, 0, |strtab|, 0, 0, strtab)];
  }

  method CountLocals(symbols: seq<Symbol>) returns (n: nat)
    ensures n == LocalCount(symbols)
  {
    n := 0;
    var i := 0;
    while i < |symbols|
      invariant i <= |symbols| && n + |WithBinding(symbols, STB_LOCAL, i)| == LocalCount(symbols)
    {
      if Binding(symbols[i]) == STB_LOCAL {
        n := n + 1;
      }
      i := i + 1;
    }
  }

  /** Every name appended once, its offset remembered; the empty name is offset 0. */
  method InternNames(ps: seq<Planned>) returns (table: seq<Byte>, offsets: seq<nat>)
    ensures table == Shstrtab(ps, |ps|) && |offsets| == |ps|
    ensures forall k :: 0 <= k < |ps| ==> offsets[k] == if ps[k].name == [] then 0 else |Shstrtab(ps, k)|
  {
    hide Shstrtab;
    table, offsets := [0], [];
    NamesStart(ps);
    while |offsets| < |ps|
      invariant |offsets| <= |ps| && table == Shstrtab(ps, |offsets|)
      invariant forall k :: 0 <= k < |offsets| ==> offsets[k] == if ps[k].name == [] then 0 else |Shstrtab(ps, k)|
      decreases |ps| - |offsets|
    {
      var name := ps[|offsets|].name;
      NamesNext(ps, |offsets|);
      if name == [] {
        offsets := offsets + [0];
      } else {
        var at := |table|;
        table := table + name + [0];
        offsets := offsets + [at];
      }
    }
  }

  lemma NamesStart(ps: seq<Planned>)
    ensures Shstrtab(ps, 0) == [0]
  {
  }

  lemma NamesNext(ps: seq<Planned>, k: nat)
    requires k < |ps|
    ensures Shstrtab(ps, k + 1) == if ps[k].name == [] then Shstrtab(ps, k) else Shstrtab(ps, k) + ps[k].name + [0]
  {
    var before := Shstrtab(ps, k);
    assert before + [] == before;
    assert before + ps[k].name + [0] == before + (ps[k].name + [0]);
  }

  method LayOut(ps: seq<Planned>) returns (offsets: seq<nat>, end: nat)
    ensures |offsets| == |ps| && end == Cursor(ps, |ps|) && forall i :: 0 <= i < |ps| ==> offsets[i] == Start(ps, i)
  {
    offsets, end := [], EHDR_SIZE;
    while |offsets| < |ps|
      invariant |offsets| <= |ps| && end == Cursor(ps, |offsets|) && forall i :: 0 <= i < |offsets| ==> offsets[i] == Start(ps, i)
      decreases |ps| - |offsets|
    {
      var p := ps[|offsets|];
      if p.kind == 0 {
        offsets := offsets + [0];
      } else {
        end := AlignUp(end, p.align);
        offsets := offsets + [end];
        if p.kind != SHT_NOBITS {
          end := end + |p.bytes|;
        }
      }
    }
  }

  method PadTo(b: seq<Byte>, length: nat) returns (out: seq<Byte>)
    ensures out == Padded(b, length)
  {
    out := b;
    while |out| < length
      invariant |b| <= |out| && (|out| <= length || out == b) && out == b + Zeros(|out| - |b|)
      decreases length - |out|
    {
      out := out + [0];
      assert Zeros(|out| - |b|) == Zeros(|out| - |b| - 1) + [0];
    }
    assert |b| >= length ==> out == b;
  }

  /** The whole file. */
  method WriteElf64(m: Model) returns (out: seq<Byte>)
    requires SymbolsKnown(m)
    ensures out == Elf(m)
  {
    hide Named, Shstrtab, Ehdr, HeaderBytes, AlignUp, Padded;
    var named := PlanSections(m);
    var table, names := InternNames(named);
    var lastName := |table|;
    table := table + (SHSTRTAB + [0]);
    var ps := named + [Planned(SHSTRTAB, SHT_STRTAB, 0, 1, 0, |table|, 0, 0, table)];
    assert ps == Plan(m);
    var offsets, end := LayOut(ps);
    var shoff := AlignUp(end, 8);
    var head := Ehdr(MachineCode(m.machine), shoff, |ps|);
    out := head;
    var i := 0;
    while i < |ps|
      invariant i <= |ps| && out == Body(head, ps, i)
    {
      if ps[i].kind != 0 && ps[i].kind != SHT_NOBITS {
        out := PadTo(out, offsets[i]);
        out := out + ps[i].bytes;
      }
      i := i + 1;
    }
    out := PadTo(out, shoff);
    ghost var content := out;
    i := 0;
    while i < |ps|
      invariant i <= |ps| && out == content + Headers(m, i)
    {
      var name := if i + 1 == |ps| then lastName else names[i];
      assert name == NameOffset(m, i);
      out := out + HeaderBytes(ps[i], name, offsets[i]);
      HeadersNext(m, i, content);
      i := i + 1;
    }
  }

  lemma HeadersNext(m: Model, i: nat, content: seq<Byte>)
    requires i < |Plan(m)|
    ensures content + Headers(m, i) + HeaderBytes(Plan(m)[i], NameOffset(m, i), Start(Plan(m), i)) == content + Headers(m, i + 1)
  {
    hide Plan, HeaderBytes, NameOffset, Start;
  }
}
