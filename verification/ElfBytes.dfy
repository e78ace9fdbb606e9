/** Little-endian fields in byte buffers. */
module ElfBytes {
  import opened Words

  type Byte = x: nat | x < 256

  function Pow256(n: nat): (p: nat)
    ensures p >= 1
  {
    if n == 0 then 1 else 256 * Pow256(n - 1)
  }

  /** `to_le_bytes` of the value cast to `n` bytes. */
  function Le(x: nat, n: nat): (b: seq<Byte>)
    ensures |b| == n
    decreases n
  {
    if n == 0 then [] else [x % 256] + Le(x / 256, n - 1)
  }

  function Zeros(n: nat): (b: seq<Byte>)
    ensures |b| == n
  {
    seq(n, _ => 0)
  }

  /** Reading past the end gives zeros. */
  function Get(b: seq<Byte>, at: nat): Byte { if at < |b| then b[at] else 0 }

  function ReadLe(b: seq<Byte>, at: nat, n: nat): nat
    decreases n
  {
    if n == 0 then 0 else Get(b, at) + 256 * ReadLe(b, at + 1, n - 1)
  }

  function Slice(b: seq<Byte>, at: nat, len: nat): seq<Byte> { if at + len <= |b| then b[at..at + len] else [] }

  /** The bytes `part` stand at `at`. */
  ghost predicate At(b: seq<Byte>, at: nat, part: seq<Byte>) {
    at + |part| <= |b| && b[at..at + |part|] == part
  }

  lemma AtSplit(b: seq<Byte>, at: nat, p: seq<Byte>, q: seq<Byte>)
    requires At(b, at, p + q)
    ensures At(b, at, p) && At(b, at + |p|, q)
  {
    assert b[at..at + |p|] == b[at..at + |p + q|][..|p|] == (p + q)[..|p|] == p;
    assert b[at + |p|..at + |p| + |q|] == b[at..at + |p + q|][|p|..] == (p + q)[|p|..] == q;
  }

  lemma AtSlice(b: seq<Byte>, at: nat, part: seq<Byte>)
    requires At(b, at, part)
    ensures Slice(b, at, |part|) == part
  {
  }

  lemma AtMore(b: seq<Byte>, c: seq<Byte>, at: nat, part: seq<Byte>)
    requires At(b, at, part)
    ensures At(b + c, at, part)
  {
    assert (b + c)[at..at + |part|] == b[at..at + |part|];
  }

  lemma AtEnd(b: seq<Byte>, part: seq<Byte>)
    ensures At(b + part, |b|, part)
  {
  }

  /** A field reads back as the value it was written from. */
  lemma {:induction false} FieldReads(b: seq<Byte>, at: nat, x: nat, n: nat)
    requires At(b, at, Le(x, n)) && x < Pow256(n)
    ensures ReadLe(b, at, n) == x
    decreases n
  {
    if n > 0 {
      AtSplit(b, at, [x % 256], Le(x / 256, n - 1));
      assert b[at] == b[at..at + 1][0] == x % 256;
      FieldReads(b, at + 1, x / 256, n - 1);
    }
  }

  lemma Powers()
    ensures Pow256(1) == 0x100 && Pow256(2) == 0x1_0000 && Pow256(4) == 0x1_0000_0000 && Pow256(8) == TWO64
  {
    assert Pow256(2) == 0x1_0000;
    assert Pow256(3) == 0x100_0000;
    assert Pow256(4) == 0x1_0000_0000;
    assert Pow256(5) == 0x100_0000_0000;
    assert Pow256(6) == 0x1_0000_0000_0000;
    assert Pow256(7) == 0x100_0000_0000_0000;
  }

  /** A NUL-terminated string. */
  function CStr(b: seq<Byte>, at: nat): seq<Byte>
    decreases |b| - at
  {
    if at >= |b| || b[at] == 0 then [] else [b[at]] + CStr(b, at + 1)
  }

  lemma {:induction false} CStrReads(b: seq<Byte>, at: nat, name: seq<Byte>)
    requires At(b, at, name + [0]) && forall i :: 0 <= i < |name| ==> name[i] != 0
    ensures CStr(b, at) == name
    decreases |name|
  {
    if name == [] {
      assert b[at] == b[at..at + 1][0];
    } else {
      assert name + [0] == [name[0]] + (name[1..] + [0]);
      AtSplit(b, at, [name[0]], name[1..] + [0]);
      assert b[at] == b[at..at + 1][0] == name[0];
      CStrReads(b, at + 1, name[1..]);
    }
  }

  /** Rounded up to a multiple of `align`. */
  function AlignUp(value: nat, align: nat): (r: nat)
    ensures r >= value
  {
    if align <= 1 then value
    else
      RoundUp(value, align);
      (value + align - 1) / align * align
  }

  lemma RoundUp(value: nat, align: nat)
    requires align > 0
    ensures var r := (value + align - 1) / align * align; value <= r < value + align && r % align == 0
  {
    var n := value + align - 1;
    var q := n / align;
    EuclidNat(n, align);
    assert q * align == align * q;
    ModIs(q * align, align, q, 0);
  }

  /** Zero-padded to a length. */
  function Padded(b: seq<Byte>, length: nat): (r: seq<Byte>)
    ensures |r| == if |b| < length then length else |b|
  {
    if |b| < length then b + Zeros(length - |b|) else b
  }
}
