/** From the emitted program through the object file to the processor: the words and
    relocations written as ELF bytes, read back, linked and run. */
module A64Object {
  import opened Words
  import opened Ir
  import opened A64Bits
  import opened A64Isa
  import opened A64Machine
  import opened A64Codec
  import opened A64Typing
  import opened A64FnGen
  import opened A64Program
  import opened A64Emit
  import opened ElfBytes
  import ElfObject
  import ElfWriter
  import ElfReader
  import ElfRoundTrip

  // ---- Words as bytes ----

  /** A word in little-endian order. */
  function WordBytes(w: bv32): (b: seq<Byte>)
    ensures |b| == 4
  {
    Le(Val(w, 32), 4)
  }

  function TextBytes(words: seq<bv32>): (b: seq<Byte>)
    ensures |b| == 4 * |words|
  {
    if words == [] then [] else TextBytes(words[..|words| - 1]) + WordBytes(words[|words| - 1])
  }

  function WordAt(b: seq<Byte>, k: nat): bv32 { U32(ReadLe(b, 4 * k, 4)) }

  function WordsOf(b: seq<Byte>): seq<bv32> { seq(|b| / 4, k requires 0 <= k => WordAt(b, k)) }

  lemma {:induction false} WordStands(words: seq<bv32>, k: nat)
    requires k < |words|
    ensures ElfBytes.At(TextBytes(words), 4 * k, WordBytes(words[k]))
    decreases |words|
  {
    hide WordBytes;
    var n := |words| - 1;
    if k == n {
      AtEnd(TextBytes(words[..n]), WordBytes(words[n]));
    } else {
      WordStands(words[..n], k);
      AtMore(TextBytes(words[..n]), WordBytes(words[n]), 4 * k, WordBytes(words[k]));
    }
  }

  lemma PowersAgree()
    ensures Pow2(32) == Pow256(4)
  {
    Powers();
    Pow2Of32();
  }

  lemma Pow2Of32()
    ensures Pow2(32) == 0x1_0000_0000
  {
    assert Pow2(8) == 0x100;
    assert Pow2(16) == 0x1_0000;
    assert Pow2(24) == 0x100_0000;
  }

  lemma WordsRead(words: seq<bv32>)
    ensures WordsOf(TextBytes(words)) == words
  {
    hide Val, U32;
    forall k | 0 <= k < |words| ensures WordAt(TextBytes(words), k) == words[k] {
      WordStands(words, k);
      PowersAgree();
      FieldReads(TextBytes(words), 4 * k, Val(words[k], 32), 4);
      WordOfVal(words[k]);
    }
  }

  // ---- The object ----

  /** The entry point, when there is a `main`, and every compiled function. */
  function SymbolsOf(e: Emitted): (s: seq<ElfObject.Symbol>)
    requires e.Native? && forall f :: f in e.compiled ==> f in e.offsets
  {
    (if "main" in e.compiled then [ElfObject.Symbol(ElfObject.Ascii("_start"), Some(0), 0, ElfObject.SymbolKind.Function)] else [])
    + seq(|e.compiled|, i requires 0 <= i < |e.compiled| =>
        ElfObject.Symbol(ElfObject.Ascii(e.compiled[i]), Some(0), 4 * e.offsets[e.compiled[i]], ElfObject.SymbolKind.Function))
  }

  function NamesOf(e: Emitted): (names: seq<string>)
    requires e.Native?
  {
    (if "main" in e.compiled then ["_start"] else []) + e.compiled
  }

  /** The first symbol of a name. */
  function IndexOf(names: seq<string>, name: string): (k: nat)
    ensures name in names ==> k < |names| && names[k] == name
  {
    if names == [] || names[0] == name then 0 else 1 + IndexOf(names[1..], name)
  }

  function ObjectOf(e: Emitted): ElfObject.Model
    requires e.Native? && forall f :: f in e.compiled ==> f in e.offsets
  {
    var relocs := seq(|e.relocs|, j requires 0 <= j < |e.relocs| =>
      ElfObject.Reloc(4 * e.relocs[j].offset, IndexOf(NamesOf(e), e.relocs[j].symbol), ElfObject.Call26));
    ElfObject.Model([ElfObject.Section(ElfObject.Text, TextBytes(e.text), 4 * |e.text|, relocs)], SymbolsOf(e),
                    if "main" in e.compiled then Some(ElfObject.Ascii("_start")) else None, ElfObject.Aarch64)
  }

  // ---- Linking what is read back ----

  /** Where a relocation applies, and the word its symbol names. */
  datatype Site = Site(at: nat, target: int)

  function SiteOf(o: ElfReader.ReadObject, r: ElfReader.ReadReloc): Site {
    Site(r.offset / 4, if r.symbol < |o.symbols| then o.symbols[r.symbol].value / 4 else 0)
  }

  function Sites(o: ElfReader.ReadObject): seq<Site>
    requires o.sections != []
  {
    seq(|o.sections[0].relocs|, j requires 0 <= j < |o.sections[0].relocs| => SiteOf(o, o.sections[0].relocs[j]))
  }

  /** The first `n` relocations applied, one after the other. */
  function Applied(words: seq<bv32>, sites: seq<Site>, n: nat): (r: seq<bv32>)
    requires n <= |sites|
    ensures |r| == |words|
  {
    if n == 0 then words
    else
      var w, s := Applied(words, sites, n - 1), sites[n - 1];
      if s.at < |w| then w[s.at := Linked(w[s.at], s.at, s.target)] else w
  }

  function LinkedText(o: ElfReader.ReadObject): seq<bv32>
    requires o.sections != []
  {
    Applied(WordsOf(o.sections[0].data), Sites(o), |Sites(o)|)
  }

  /** What a linker makes of the file's text. */
  function LinkedFile(b: seq<Byte>): seq<bv32> {
    var o := ElfReader.ReadElf(b);
    if o.sections == [] then [] else LinkedText(o)
  }

  lemma {:induction false} AppliedPartly(words: seq<bv32>, relocs: seq<CallSite>, starts: map<string, int>, code: seq<Instr>, sites: seq<Site>, n: nat)
    requires Stands(words, code) && CallsSound(relocs, code, starts) && n <= |relocs| == |sites|
    requires forall j :: 0 <= j < |relocs| ==> relocs[j].symbol in starts && sites[j] == Site(relocs[j].offset, starts[relocs[j].symbol])
    ensures PartlyLinked(Applied(words, sites, n), code, relocs, n)
    decreases n
  {
    hide Encode, Linked, PartlyLinked, CallsSound, Stands;
    if n == 0 {
      NothingLinked(words, code, relocs, starts);
    } else {
      AppliedPartly(words, relocs, starts, code, sites, n - 1);
      LinkOne(Applied(words, sites, n - 1), code, relocs, starts, n - 1);
    }
  }

  /** What holds of a program the emitter has emitted. */
  ghost predicate Sound(m: Programs.Module, e: Emitted) {
    && e.Native? && Placeable(m, e.compiled) && Stands(e.text, Image(m, e.compiled)) && WithinReach(Image(m, e.compiled))
    && CallsSound(e.relocs, Image(m, e.compiled), Starts(m, e.compiled, Origin(e.compiled)))
    && e.offsets.Keys == Elements(e.compiled)
    && forall f :: f in e.compiled ==>
         f in e.offsets && f in Starts(m, e.compiled, Origin(e.compiled)) && e.offsets[f] == Starts(m, e.compiled, Origin(e.compiled))[f]
  }

  /** The word that a symbol's name leads to: the entry stub comes first in the symbol table. */
  function Target(e: Emitted, starts: map<string, int>, f: string): int
    requires e.Native? && f in starts
  {
    if f == "_start" && "main" in e.compiled then 0 else starts[f]
  }

  /** Every relocation of the file, read back, names the place it was made for and what its symbol
      leads to. */
  lemma SitesRead(m: Programs.Module, e: Emitted)
    requires Sound(m, e) && ElfRoundTrip.Fits(ObjectOf(e))
    ensures var o, starts := ElfRoundTrip.View(ObjectOf(e)), Starts(m, e.compiled, Origin(e.compiled));
            && |o.sections| == 1 && o.sections[0].data == TextBytes(e.text) && |Sites(o)| == |e.relocs|
            && forall j :: 0 <= j < |e.relocs| ==>
                 e.relocs[j].symbol in starts && Sites(o)[j] == Site(e.relocs[j].offset, Target(e, starts, e.relocs[j].symbol))
  {
    hide ElfObject.Order, ElfObject.PositionOf, ElfObject.LocalCount, Stands, Image, Starts, ElfObject.Ascii, TextBytes, Target;
    var model := ObjectOf(e);
    var o, starts := ElfRoundTrip.View(model), Starts(m, e.compiled, Origin(e.compiled));
    forall j | 0 <= j < |e.relocs|
      ensures e.relocs[j].symbol in starts && Sites(o)[j] == Site(e.relocs[j].offset, Target(e, starts, e.relocs[j].symbol))
    {
      ElfRoundTrip.RelocNamesSymbol(model, 0, j);
      CalledCompiled(m, e, j);
      SymbolValue(e, starts, e.relocs[j].symbol);
      Quarters(e.relocs[j].offset);
      Quarters(Target(e, starts, e.relocs[j].symbol));
    }
  }

  lemma Quarters(n: nat)
    ensures 4 * n / 4 == n
  {
  }

  lemma CalledCompiled(m: Programs.Module, e: Emitted, j: nat)
    requires Sound(m, e) && j < |e.relocs|
    ensures e.relocs[j].symbol in e.compiled && e.relocs[j].symbol in Starts(m, e.compiled, Origin(e.compiled))
  {
    hide Stands, Image, WithinReach, Starts;
    StartsKeys(m, e.compiled, Origin(e.compiled));
  }

  lemma SymbolValue(e: Emitted, starts: map<string, int>, f: string)
    requires e.Native? && (forall g :: g in e.compiled ==> g in e.offsets && g in starts && e.offsets[g] == starts[g]) && f in e.compiled
    ensures IndexOf(NamesOf(e), f) < |SymbolsOf(e)| && SymbolsOf(e)[IndexOf(NamesOf(e), f)].value == 4 * Target(e, starts, f)
  {
    hide ElfObject.Ascii;
    var k := IndexOf(NamesOf(e), f);
    var head := if "main" in e.compiled then 1 else 0;
    assert NamesOf(e)[k] == f;
    if k >= head { assert NamesOf(e)[k] == e.compiled[k - head]; }
  }

  /** The calls as the linker sees them. */
  function Retargeted(e: Emitted, starts: map<string, int>): map<string, int>
    requires e.Native?
  {
    map f | f in starts :: Target(e, starts, f)
  }

  /** No call of a compiled `_start` in a program that has a `main`, hence a stub. */
  ghost predicate EntryUncalled(e: Emitted)
    requires e.Native?
  {
    "main" in e.compiled ==> forall j :: 0 <= j < |e.relocs| ==> e.relocs[j].symbol != "_start"
  }

  /** `code` with its calls of `_start` going to the stub. */
  ghost function Rerouted(e: Emitted, code: seq<Instr>): (r: seq<Instr>)
    requires e.Native?
    ensures |r| == |code|
  {
    seq(|code|, k requires 0 <= k < |code| =>
      if "main" in e.compiled && CallSite(k, "_start") in e.relocs then Bl(-k) else code[k])
  }

  lemma ReroutedSound(e: Emitted, code: seq<Instr>, starts: map<string, int>)
    requires e.Native? && Stands(e.text, code) && CallsSound(e.relocs, code, starts)
    ensures Stands(e.text, Rerouted(e, code)) && CallsSound(e.relocs, Rerouted(e, code), Retargeted(e, starts))
  {
    hide Encode;
    var r := Rerouted(e, code);
    forall k | 0 <= k < |code| && CallSite(k, "_start") in e.relocs ensures code[k].Bl? {
      var j :| 0 <= j < |e.relocs| && e.relocs[j] == CallSite(k, "_start");
    }
    forall j | 0 <= j < |e.relocs| ensures r[e.relocs[j].offset] == Bl(Retargeted(e, starts)[e.relocs[j].symbol] - e.relocs[j].offset) {
      if CallSite(e.relocs[j].offset, "_start") in e.relocs {
        var i :| 0 <= i < |e.relocs| && e.relocs[i] == CallSite(e.relocs[j].offset, "_start");
        assert i == j;
      } else {
        assert e.relocs[j] == CallSite(e.relocs[j].offset, e.relocs[j].symbol);
      }
    }
  }

  /** Linking the object file gives the words of the image with the calls of `_start` rerouted. */
  lemma FileWords(m: Programs.Module, e: Emitted)
    requires Sound(m, e) && ElfRoundTrip.Fits(ObjectOf(e))
    ensures var words, code := LinkedFile(ElfObject.Elf(ObjectOf(e))), Rerouted(e, Image(m, e.compiled));
            |words| == |code| && forall k :: 0 <= k < |words| ==> words[k] == Encode(code[k])
  {
    hide ElfReader.ReadElf, ElfObject.Elf, ElfRoundTrip.View, ElfRoundTrip.Fits, Image, Starts, Stands, CallsSound, WithinReach, Encode, Sites,
      ObjectOf, TextBytes, WordsOf, Applied, Rerouted;
    var starts, code := Starts(m, e.compiled, Origin(e.compiled)), Rerouted(e, Image(m, e.compiled));
    var o := ElfReader.ReadElf(ElfObject.Elf(ObjectOf(e)));
    ElfRoundTrip.ElfRoundTrips(ObjectOf(e));
    SitesRead(m, e);
    WordsRead(e.text);
    ReroutedSound(e, Image(m, e.compiled), starts);
    AppliedPartly(e.text, e.relocs, Retargeted(e, starts), code, Sites(o), |e.relocs|);
    AllLinked(LinkedText(o), code, e.relocs);
  }

  /** Linking the object file gives the words of the linked image; with a stub in the file and
      within the reach of a branch, exactly when nothing calls a compiled `_start`. */
  lemma FileLinks(m: Programs.Module, e: Emitted)
    requires Sound(m, e) && ElfRoundTrip.Fits(ObjectOf(e))
    ensures var words, code := LinkedFile(ElfObject.Elf(ObjectOf(e))), Image(m, e.compiled);
            && |words| == |code|
            && (EntryUncalled(e) ==> forall k :: 0 <= k < |words| ==> words[k] == Encode(code[k]))
            && (!EntryUncalled(e) && |e.text| < 0x200_0000 ==> exists k :: 0 <= k < |words| && words[k] != Encode(code[k]))
  {
    hide LinkedFile, ElfObject.Elf, ElfRoundTrip.Fits, Image, Starts, Stands, CallsSound, WithinReach, Encode, ObjectOf, Rerouted;
    FileWords(m, e);
    if EntryUncalled(e) {
      NothingRerouted(e, Image(m, e.compiled));
    } else if |e.text| < 0x200_0000 {
      var j :| 0 <= j < |e.relocs| && e.relocs[j].symbol == "_start";
      CallLost(m, e, j);
    }
  }

  lemma NothingRerouted(e: Emitted, code: seq<Instr>)
    requires e.Native? && EntryUncalled(e)
    ensures Rerouted(e, code) == code
  {
  }

  /** A call of `_start` is linked to the stub, which is not where the function is. */
  lemma CallLost(m: Programs.Module, e: Emitted, j: nat)
    requires Sound(m, e) && "main" in e.compiled && j < |e.relocs| && e.relocs[j].symbol == "_start" && |e.text| < 0x200_0000
    ensures e.relocs[j].offset < |Image(m, e.compiled)|
    ensures Encode(Rerouted(e, Image(m, e.compiled))[e.relocs[j].offset]) != Encode(Image(m, e.compiled)[e.relocs[j].offset])
  {
    hide Image, Starts, Stands, WithinReach, Encode, Decode;
    StandsLength(e.text, Image(m, e.compiled));
    var k: int := e.relocs[j].offset;
    var far: int := Starts(m, e.compiled, Origin(e.compiled))["_start"] - k;
    ImageBound(m, e.compiled);
    assert e.relocs[j] == CallSite(k, "_start");
    DecodeEncode(Bl(0 - k));
    DecodeEncode(Bl(far));
  }

  /** From source to exit status through the file: when the interpreter finishes `main` with a
      value, a processor that runs the linked text of the object file reaches the exit call with
      that value as its argument. */
  lemma FileExits(m: Programs.Module, sigs: map<string, Sig>, e: Emitted, depth: nat, v: Value, c: Cpu) returns (n: nat, d: Cpu)
    requires c.pc == 0 && c.sp % 16 == 0 && "main" in sigs && sigs["main"].params == []
    requires Programs.Invoke(Programs.Tier(false, false), m, depth, "main", []) == Ok(v)
    requires "main" !in m.taken
    requires e.Native? && "main" in e.compiled && EntryUncalled(e) && |e.text| < 0x4_0000 && Compiled(m, sigs, e.compiled)
    requires Sound(m, e) && ElfRoundTrip.Fits(ObjectOf(e))
    ensures Exits(LinkedFile(ElfObject.Elf(ObjectOf(e))), v, c, n, d)
  {
    hide LinkedFile, ElfObject.Elf, ElfRoundTrip.Fits, Image, Starts, Stands, CallsSound, WithinReach, Encode, Decode, ObjectOf,
      Compiled, Programs.Invoke, Exits;
    FileLinks(m, e);
    assert Origin(e.compiled) == STUB;
    assert |e.text| == |Image(m, e.compiled)| by { StandsLength(e.text, Image(m, e.compiled)); }
    n, d := EmittedExits(m, sigs, e.compiled, e.relocs, LinkedFile(ElfObject.Elf(ObjectOf(e))), depth, v, c);
  }

  lemma StandsLength(text: seq<bv32>, code: seq<Instr>)
    requires Stands(text, code)
    ensures |text| == |code|
  {
    hide Encode;
  }

  /** The whole back end: choose, lower, lay out and write. The file is the object of a sound
      program of exactly the greatest compilable set. */
  method EmitObject(m: Programs.Module, decls: seq<Declared>, exports: set<string>)
    returns (file: Option<seq<Byte>>, ghost e: Emitted, ghost best: set<string>)
    requires Listed(m, decls)
    ensures Greatest(m, decls, best) && (file.Some? <==> "main" in best || best * exports != {})
    ensures file.Some? ==> Sound(m, e) && Elements(e.compiled) == best && Split(decls, e.compiled, e.skipped) && file.value == ElfObject.Elf(ObjectOf(e))
  {
    hide Greatest, Stands, Image, CallsSound, Starts, WithinReach, ElfObject.Elf, TextBytes, Split;
    var r;
    r, best := EmitProgram(m, decls, exports);
    e := r;
    if r.NoEligibleCode? { return None, e, best; }
    assert Sound(m, r) by { ElementsAre(r.compiled); }
    RelocsKnown(m, r);
    var bytes := ElfWriter.WriteElf64(ObjectOf(r));
    file := Some(bytes);
  }

  lemma ElementsAre(names: seq<string>)
    ensures forall f :: f in Elements(names) <==> f in names
  {
  }

  lemma RelocsKnown(m: Programs.Module, e: Emitted)
    requires Sound(m, e)
    ensures ElfWriter.SymbolsKnown(ObjectOf(e))
  {
    hide Stands, Image, WithinReach, Starts, CallsSound, TextBytes, ElfObject.Ascii;
    forall j | 0 <= j < |e.relocs| ensures IndexOf(NamesOf(e), e.relocs[j].symbol) < |SymbolsOf(e)| {
      CalledCompiled(m, e, j);
      assert e.relocs[j].symbol in NamesOf(e);
    }
  }
}
