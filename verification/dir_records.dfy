/**
 The directory buffer: packed records, each a header of two 8-byte fields and one 4-byte
 field, the name, and zeros up to a multiple of eight.  The offset field of a record holds
 the place of the next one.
 */
module DirRecords {
  newtype Byte = x: int | 0 <= x < 256

  datatype Entry = Entry(name: seq<Byte>, ino: nat)

  const NAME_OFFSET: nat := 20

  /** The room a record takes. */
  function Size(namelen: nat): (n: nat)
    ensures n % 8 == 0 && NAME_OFFSET + namelen <= n < NAME_OFFSET + namelen + 8
  {
    (NAME_OFFSET + namelen + 7) / 8 * 8
  }

  // ----- Numbers in memory

  function Power(n: nat): (p: nat)
    ensures p > 0
  {
    if n == 0 then 1 else 256 * Power(n - 1)
  }

  /** `v` in `n` bytes, low byte first; what does not fit is cut off. */
  function Bytes(n: nat, v: nat): (b: seq<Byte>)
    ensures |b| == n
  {
    if n == 0 then [] else [(v % 256) as Byte] + Bytes(n - 1, v / 256)
  }

  function Value(b: seq<Byte>): nat {
    if b == [] then 0 else b[0] as nat + 256 * Value(b[1..])
  }

  lemma {:induction false} ValueOfBytes(n: nat, v: nat)
    requires v < Power(n)
    ensures Value(Bytes(n, v)) == v
  {
    if n > 0 {
      ValueOfBytes(n - 1, v / 256);
      assert Bytes(n, v)[1..] == Bytes(n - 1, v / 256);
    }
  }

  const UINT_MAX: nat := 0xffff_ffff

  lemma {:induction false} FourBytes()
    ensures Power(4) == UINT_MAX + 1 && Power(8) > UINT_MAX
  {
    assert Power(2) == 65536;
    assert Power(4) == 65536 * Power(2);
    assert Power(6) == 65536 * Power(4);
    assert Power(8) == 65536 * Power(6);
  }

  function Zeros(n: nat): (z: seq<Byte>)
    ensures |z| == n
  {
    seq(n, _ => 0 as Byte)
  }

  // ----- Records

  function Record(e: Entry, next: nat): (r: seq<Byte>)
    ensures |r| == Size(|e.name|)
  {
    Bytes(8, e.ino) + Bytes(8, next) + Bytes(4, |e.name|) + e.name + Zeros(Size(|e.name|) - NAME_OFFSET - |e.name|)
  }

  /** Reading the fields of the record at `off`. */
  function NextAt(b: seq<Byte>, off: nat): nat
    requires off + NAME_OFFSET <= |b|
  {
    Value(b[off + 8..off + 16])
  }

  function LengthAt(b: seq<Byte>, off: nat): nat
    requires off + NAME_OFFSET <= |b|
  {
    Value(b[off + 16..off + 20])
  }

  lemma {:induction false} ReadRecord(b: seq<Byte>, off: nat, e: Entry, next: nat)
    requires off + Size(|e.name|) <= |b| && b[off..][..Size(|e.name|)] == Record(e, next)
    requires next <= UINT_MAX && |e.name| <= UINT_MAX
    ensures NextAt(b, off) == next && LengthAt(b, off) == |e.name|
    ensures b[off + NAME_OFFSET..off + NAME_OFFSET + |e.name|] == e.name
  {
    FourBytes();
    ValueOfBytes(8, next);
    ValueOfBytes(4, |e.name|);
    RecordFields(e, next);
    SliceAt(b, off, Size(|e.name|), 8, 16);
    SliceAt(b, off, Size(|e.name|), 16, 20);
    SliceAt(b, off, Size(|e.name|), NAME_OFFSET, NAME_OFFSET + |e.name|);
  }

  /** A part of a part. */
  lemma {:induction false} SliceAt(b: seq<Byte>, off: nat, n: nat, i: nat, j: nat)
    requires off + n <= |b| && i <= j <= n
    ensures b[off + i..off + j] == b[off..][..n][i..j]
  {
    var part := b[off..][..n];
    assert forall k | i <= k < j :: part[k] == b[off + k];
    assert forall k | 0 <= k < j - i :: b[off + i..off + j][k] == part[i..j][k];
  }

  lemma {:induction false} RecordFields(e: Entry, next: nat)
    ensures var r := Record(e, next);
      r[8..16] == Bytes(8, next) && r[16..20] == Bytes(4, |e.name|) && r[20..20 + |e.name|] == e.name
  {
  }

  // ----- The whole buffer

  /** Where record `k` starts; `Start(es, |es|)` is the end of the buffer. */
  function Start(es: seq<Entry>, k: nat): nat
    requires k <= |es|
  {
    if k == 0 then 0 else Start(es, k - 1) + Size(|es[k - 1].name|)
  }

  function Pack(es: seq<Entry>): (b: seq<Byte>)
    ensures |b| == Start(es, |es|)
    decreases |es|
  {
    if es == [] then []
    else
      var init := es[..|es| - 1];
      StartOfPrefix(es, |es| - 1, |es| - 1);
      Pack(init) + Record(es[|es| - 1], Start(es, |es|))
  }

  lemma {:induction false} StartOfPrefix(es: seq<Entry>, n: nat, k: nat)
    requires k <= n <= |es|
    ensures Start(es[..n], k) == Start(es, k)
    decreases k
  {
    if k > 0 { StartOfPrefix(es, n, k - 1); }
  }

  /** The starts grow, so a start tells which record it is. */
  lemma {:induction false} StartGrows(es: seq<Entry>, i: nat, k: nat)
    requires i < k <= |es|
    ensures Start(es, i) + Size(|es[i].name|) <= Start(es, k)
    decreases k
  {
    if i < k - 1 { StartGrows(es, i, k - 1); }
  }

  /** Each record stands at its place. */
  lemma {:induction false} PackAt(es: seq<Entry>, k: nat)
    requires k < |es|
    ensures Start(es, k + 1) <= |Pack(es)|
    ensures Pack(es)[Start(es, k)..][..Size(|es[k].name|)] == Record(es[k], Start(es, k + 1))
    decreases |es|
  {
    var n := |es| - 1;
    if k == n {
      LastAt(es);
    } else {
      PackAt(es[..n], k);
      EarlierAt(es, k);
    }
  }

  lemma LastAt(es: seq<Entry>)
    requires es != []
    ensures var n := |es| - 1; Pack(es)[Start(es, n)..][..Size(|es[n].name|)] == Record(es[n], Start(es, n + 1))
  {
    var n := |es| - 1;
    StartOfPrefix(es, n, n);
    AtEnd(Pack(es[..n]), Record(es[n], Start(es, n + 1)));
  }

  /** A record stays where it is when one more is added. */
  lemma EarlierAt(es: seq<Entry>, k: nat)
    requires k + 1 < |es|
    ensures var init := es[..|es| - 1];
            && Start(init, k) == Start(es, k) && Start(init, k + 1) == Start(es, k + 1) <= |Pack(init)| <= |Pack(es)|
            && Pack(es)[Start(es, k)..][..Size(|es[k].name|)] == Pack(init)[Start(init, k)..][..Size(|es[k].name|)]
  {
    var n := |es| - 1;
    StartOfPrefix(es, n, k);
    StartOfPrefix(es, n, k + 1);
    StartOfPrefix(es, n, n);
    StartGrows(es[..n], k, n);
    InPrefix(Pack(es[..n]), Record(es[n], Start(es, n + 1)), Start(es, k), Size(|es[k].name|));
  }

  lemma {:induction false} AtEnd(a: seq<Byte>, b: seq<Byte>)
    ensures (a + b)[|a|..][..|b|] == b
  {
  }

  lemma {:induction false} InPrefix(a: seq<Byte>, b: seq<Byte>, i: nat, n: nat)
    requires i + n <= |a|
    ensures (a + b)[i..][..n] == a[i..][..n]
  {
  }
}
