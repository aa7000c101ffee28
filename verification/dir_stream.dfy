/**
 Directory enumeration: the library packs a directory into its handle's buffer, the door
 service hands out one record per call, and the kernel follows the offsets in the records,
 over as many reads of whatever size the caller makes.
 */
module DirStream {
  import opened DirRecords

  type Name = seq<Byte>

  const DOT: Byte := 46

  predicate IsDots(name: Name) {
    |name| > 0 && name[0] == DOT && (|name| == 1 || (|name| == 2 && name[1] == DOT))
  }

  /** Just "." and ".." are not looked up. */
  lemma IsDotsIff(name: Name)
    ensures IsDots(name) <==> name == [DOT] || name == [DOT, DOT]
  {
    if IsDots(name) { assert name == if |name| == 1 then [DOT] else [DOT, DOT]; }
  }

  /** What the door service answers for the record at an offset. */
  datatype Reply = Got(name: Name, next: nat, eof: bool) | EndOfDir | NoStat

  /** The answer for record `k` of a directory; `stats` says which names can be looked up. */
  function ReplyFor(es: seq<Entry>, k: nat, stats: Name -> bool): Reply
    requires k <= |es|
  {
    if k == |es| then EndOfDir
    else if !IsDots(es[k].name) && !stats(es[k].name) then NoStat
    else Got(es[k].name, Start(es, k + 1), k + 1 == |es|)
  }

  class DirHandle {
    var contents: array<Byte>
    var len: nat
    var filled: bool

    /** The buffer holds the records of `es`. */
    ghost predicate Holds(es: seq<Entry>)
      reads this, contents
    {
      len == |Pack(es)| <= contents.Length <= UINT_MAX && contents[..len] == Pack(es)
    }

    /** A call at offset `off` will find the records of `es`, read again from `listing` or kept. */
    ghost predicate Serves(es: seq<Entry>, off: int, listing: seq<Entry>)
      reads this, contents
    {
      contents.Length <= UINT_MAX && if off == 0 || !filled then es == listing else Holds(es)
    }

    constructor ()
      ensures Holds([]) && !filled && fresh(contents)
    {
      contents := new Byte[0];
      len, filled := 0, false;
    }

    method ExtendContents(minsize: nat)
      requires minsize <= UINT_MAX && contents.Length <= UINT_MAX
      modifies `contents
      ensures contents == old(contents) || fresh(contents)
      ensures minsize <= contents.Length <= UINT_MAX && old(contents.Length) <= contents.Length
      ensures contents[..old(contents.Length)] == old(contents[..])
    {
      if minsize > contents.Length {
        var newsize := contents.Length;
        if newsize == 0 {
          newsize := 1024;
        }
        while newsize < minsize
          invariant 0 < newsize <= UINT_MAX && old(contents.Length) <= newsize
          decreases minsize - newsize
        {
          newsize := if newsize >= 0x8000_0000 then UINT_MAX else newsize * 2;
        }
        var grown := new Byte[newsize](_ => 0);
        forall i | 0 <= i < contents.Length {
          grown[i] := contents[i];
        }
        contents := grown;
      }
    }

    /** One more entry, from a file system that gives no offsets of its own. */
    method FillDir(name: Name, ino: nat, ghost es: seq<Entry>)
      requires Holds(es) && len + Size(|name|) <= UINT_MAX
      modifies this, contents
      ensures contents == old(contents) || fresh(contents)
      ensures Holds(es + [Entry(name, ino)]) && filled == old(filled)
    {
      var newlen := len + Size(|name|);
      ghost var before := contents[..len];
      ExtendContents(newlen);
      assert contents[..len] == before;
      AddDirent(contents, len, name, ino, newlen);
      PackAppend(es, Entry(name, ino));
      len := newlen;
      assert contents[..len] == before + Record(Entry(name, ino), newlen);
    }

    method Fill(listing: seq<Entry>)
      requires Start(listing, |listing|) <= UINT_MAX && contents.Length <= UINT_MAX
      modifies this, contents
      ensures contents == old(contents) || fresh(contents)
      ensures Holds(listing) && filled
    {
      len, filled := 0, true;
      assert contents[..0] == Pack([]);
      for i := 0 to |listing|
        invariant contents == old(contents) || fresh(contents)
        invariant Holds(listing[..i]) && filled
      {
        StartOfPrefix(listing, i, i);
        StartGrows(listing, i, |listing|);
        FillDir(listing[i].name, listing[i].ino, listing[..i]);
        assert listing[..i + 1] == listing[..i] + [listing[i]];
      }
      assert listing[..|listing|] == listing;
    }

    /**
     One call: the directory is read again at offset 0, and otherwise what was read before is used.
     The offset need not be the start of a record; whatever stands there is taken for one.
     */
    method Readdir(off: nat, listing: seq<Entry>, stats: Name -> bool, ghost es: seq<Entry>) returns (r: Reply)
      requires Serves(es, off, listing) && Start(es, |es|) <= UINT_MAX
      requires off < |Pack(es)| ==> WithinBuffer(Pack(es), off)
      modifies this, contents
      ensures contents == old(contents) || fresh(contents)
      ensures Holds(es) && filled && r == ReplyAt(Pack(es), off, stats)
    {
      if off == 0 {
        filled := false;
      }
      if !filled {
        Fill(listing);
      }
      r := Answer(off, stats, es);
    }

    /** The answer from the bytes in the buffer. */
    method Answer(off: nat, stats: Name -> bool, ghost es: seq<Entry>) returns (r: Reply)
      requires Holds(es) && (off < |Pack(es)| ==> WithinBuffer(Pack(es), off))
      ensures r == ReplyAt(Pack(es), off, stats)
    {
      if off >= len {
        return EndOfDir;
      }
      SameBytes(Pack(es), contents[..], off);
      var nmlen := LengthAt(contents[..], off);
      var name := contents[..][off + NAME_OFFSET..off + NAME_OFFSET + nmlen];
      if !IsDots(name) && !stats(name) {
        return NoStat;
      }
      var next := NextAt(contents[..], off);
      return Got(name, next, next >= len);
    }
  }

  /** What looks like a record at `off` ends within the buffer. */
  predicate WithinBuffer(b: seq<Byte>, off: nat) {
    off + NAME_OFFSET <= |b| && off + NAME_OFFSET + LengthAt(b, off) <= |b|
  }

  /** The answer for an offset, from the bytes of the directory. */
  function ReplyAt(b: seq<Byte>, off: nat, stats: Name -> bool): Reply
    requires off < |b| ==> WithinBuffer(b, off)
  {
    if off >= |b| then EndOfDir
    else
      var name := b[off + NAME_OFFSET..off + NAME_OFFSET + LengthAt(b, off)];
      if !IsDots(name) && !stats(name) then NoStat else Got(name, NextAt(b, off), NextAt(b, off) >= |b|)
  }

  lemma {:induction false} SameBytes(a: seq<Byte>, b: seq<Byte>, off: nat)
    requires |a| <= |b| && b[..|a|] == a && WithinBuffer(a, off)
    ensures off + NAME_OFFSET <= |b| && LengthAt(b, off) == LengthAt(a, off) && NextAt(b, off) == NextAt(a, off)
    ensures var n := LengthAt(a, off);
      off + NAME_OFFSET + n <= |b| &&
        b[off + NAME_OFFSET..off + NAME_OFFSET + n] == a[off + NAME_OFFSET..off + NAME_OFFSET + n]
  {
    SameSlice(a, b, off + 8, off + 16);
    SameSlice(a, b, off + 16, off + 20);
    SameSlice(a, b, off + NAME_OFFSET, off + NAME_OFFSET + LengthAt(a, off));
  }

  lemma {:induction false} SameSlice(a: seq<Byte>, b: seq<Byte>, i: nat, j: nat)
    requires i <= j <= |a| <= |b| && b[..|a|] == a
    ensures b[i..j] == a[i..j]
  {
    assert forall k | i <= k < j :: a[k] == b[..|a|][k] == b[k];
  }

  /** At the start of a record, or at the end, the answer is that entry, or the end. */
  lemma {:induction false} ReplyAtRecord(es: seq<Entry>, k: nat, stats: Name -> bool)
    requires k <= |es| && Start(es, |es|) <= UINT_MAX
    ensures Start(es, k) < |Pack(es)| ==> WithinBuffer(Pack(es), Start(es, k))
    ensures ReplyAt(Pack(es), Start(es, k), stats) == ReplyFor(es, k, stats)
  {
    if k < |es| {
      RecordBytes(es, k);
      ReplyIs(Pack(es), Start(es, k), es[k].name, Start(es, k + 1), stats);
    }
  }

  lemma ReplyIs(b: seq<Byte>, off: nat, name: Name, next: nat, stats: Name -> bool)
    requires off + NAME_OFFSET + |name| <= |b|
    requires LengthAt(b, off) == |name| && NextAt(b, off) == next
    requires b[off + NAME_OFFSET..off + NAME_OFFSET + |name|] == name
    ensures WithinBuffer(b, off)
    ensures ReplyAt(b, off, stats) == if !IsDots(name) && !stats(name) then NoStat else Got(name, next, next >= |b|)
  {
  }

  /** The record at its offset. */
  lemma {:induction false} RecordBytes(es: seq<Entry>, k: nat)
    requires k < |es| && Start(es, |es|) <= UINT_MAX
    ensures var b, off := Pack(es), Start(es, k);
      && off + NAME_OFFSET <= |b|
      && LengthAt(b, off) == |es[k].name| && off + NAME_OFFSET + |es[k].name| <= |b|
      && b[off + NAME_OFFSET..off + NAME_OFFSET + |es[k].name|] == es[k].name
      && NextAt(b, off) == Start(es, k + 1) && (Start(es, k + 1) >= |b| <==> k + 1 == |es|)
  {
    StartGrows(es, k, |es|);
    if k + 1 < |es| { StartGrows(es, k + 1, |es|); }
    PackAt(es, k);
    ReadRecord(Pack(es), Start(es, k), es[k], Start(es, k + 1));
  }

  lemma {:induction false} PackAppend(es: seq<Entry>, e: Entry)
    ensures Pack(es + [e]) == Pack(es) + Record(e, |Pack(es)| + Size(|e.name|))
  {
    var more := es + [e];
    assert more[..|more| - 1] == es;
    StartOfPrefix(more, |es|, |es|);
  }

  /** Writes bytes behind those written from `start` on. */
  method Put(a: array<Byte>, start: nat, pos: nat, s: seq<Byte>)
    requires start <= pos && pos + |s| <= a.Length
    modifies a
    ensures a[..start] == old(a[..start]) && a[start..pos + |s|] == old(a[start..pos]) + s
  {
    forall i | 0 <= i < |s| {
      a[pos + i] := s[i];
    }
  }

  /** Writes a record field by field, padding included. */
  method AddDirent(a: array<Byte>, pos: nat, name: Name, ino: nat, off: nat)
    requires pos + Size(|name|) <= a.Length
    modifies a
    ensures a[..pos] == old(a[..pos])
    ensures a[pos..pos + Size(|name|)] == Record(Entry(name, ino), off)
  {
    var entlen := NAME_OFFSET + |name|;
    assert a[pos..pos] == [];
    Put(a, pos, pos, Bytes(8, ino));
    Put(a, pos, pos + 8, Bytes(8, off));
    Put(a, pos, pos + 16, Bytes(4, |name|));
    Put(a, pos, pos + NAME_OFFSET, name);
    Put(a, pos, pos + entlen, Zeros(Size(|name|) - entlen));
  }
}
