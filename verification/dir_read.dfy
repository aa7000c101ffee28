/** The kernel's side of directory enumeration: one read of a directory, and reads in a row. */
module DirRead {
  import opened DirRecords
  import opened DirStream

  const INT32_MAX: int := 0x7fff_ffff
  const MAXNAMELEN: int := 256

  /** The room an entry takes in the caller's buffer; `DBUFSIZ` is enough for any. */
  function Reclen(nmlen: nat): (n: nat)
    ensures n % 8 == 0 && n - 8 < 19 + nmlen <= n
    ensures nmlen < n && (nmlen < MAXNAMELEN ==> n <= 280)
  {
    (19 + nmlen + 7) / 8 * 8
  }

  const DBUFSIZ: int := 280

  /** The low 32 bits of a number, as a signed integer. */
  function ToInt(n: nat): int {
    var m := n % 0x1_0000_0000;
    if m <= INT32_MAX then m else m - 0x1_0000_0000
  }

  datatype Error = NoError | EINVAL | EIO | StatFailed | AtEnd

  class Uio {
    var offset: int
    var resid: int
    var ents: seq<Dirent>

    constructor (offset: int, resid: int)
      ensures this.offset == offset && this.resid == resid && ents == []
    {
      this.offset, this.resid, ents := offset, resid, [];
    }
  }

  predicate Readable(name: Name, stats: Name -> bool) {
    |name| < MAXNAMELEN && (IsDots(name) || stats(name))
  }

  /** An entry as the caller gets it: with the offset of the next, or 0 with the last. */
  datatype Dirent = Dirent(name: Name, off: int)

  function DirentAt(es: seq<Entry>, k: nat): Dirent
    requires k < |es|
  {
    Dirent(es[k].name, if k + 1 == |es| then 0 else Start(es, k + 1))
  }

  /** The entries from `i` up to `k`. */
  function Dirents(es: seq<Entry>, i: nat, k: nat): (ds: seq<Dirent>)
    requires i <= k <= |es|
    ensures |ds| == k - i && forall j | 0 <= j < |ds| :: ds[j] == DirentAt(es, i + j)
    decreases k
  {
    if i == k then [] else Dirents(es, i, k - 1) + [DirentAt(es, k - 1)]
  }

  /** The room the entries from `i` up to `k` take. */
  function Room(es: seq<Entry>, i: nat, k: nat): nat
    requires i <= k <= |es|
    decreases k
  {
    if i == k then 0 else Room(es, i, k - 1) + Reclen(|es[k - 1].name|)
  }

  predicate Refused(offset: int, resid: int) {
    offset < 0 || offset > INT32_MAX || offset + resid > INT32_MAX || resid < DBUFSIZ
  }

  /** What a read has done when the entries from `i` up to `k` are out. */
  datatype Progress = Progress(ents: seq<Dirent>, resid: int, offset: int, eof: bool)

  /** The entries from `i` up to `k` are out of `start`, and the reader stands behind them. */
  ghost predicate Out(es: seq<Entry>, stats: Name -> bool, i: nat, k: nat, start: Progress, p: Progress) {
    && i <= k <= |es|
    && (forall j | i <= j < k :: Readable(es[j].name, stats))
    && p.ents == start.ents + Dirents(es, i, k)
    && p.resid == start.resid - Room(es, i, k)
    && if p.eof then i < k == |es| && p.offset == INT32_MAX
       else p.offset == Start(es, k) && (i < k ==> k < |es|)
  }

  /** Why a read stopped. */
  predicate Stopped(es: seq<Entry>, stats: Name -> bool, k: nat, p: Progress, error: Error)
    requires k <= |es|
  {
    match error
    case NoError => p.eof || p.resid < DBUFSIZ
    case AtEnd => k == |es| && !p.eof
    case EINVAL => false
    case _ => k < |es| && !Readable(es[k].name, stats)
  }

  lemma {:induction false} OutNext(es: seq<Entry>, stats: Name -> bool, i: nat, k: nat, start: Progress, p: Progress,
                                   p': Progress)
    requires Out(es, stats, i, k, start, p) && !p.eof && k < |es| && Readable(es[k].name, stats)
    requires p'.ents == p.ents + [DirentAt(es, k)] && p'.resid == p.resid - Reclen(|es[k].name|)
    requires p'.eof == (k + 1 == |es|) && p'.offset == if p'.eof then INT32_MAX else Start(es, k + 1)
    ensures Out(es, stats, i, k + 1, start, p')
  {
    assert start.ents + Dirents(es, i, k) + [DirentAt(es, k)] == start.ents + (Dirents(es, i, k) + [DirentAt(es, k)]);
  }

  // ----- One read

  /** What a call to the door service gives the kernel; `Astray` if the service would read past its records. */
  datatype Fetched = Found(name: Name, next: nat, last: bool) | Failed(error: Error) | Astray

  function Fetch(b: seq<Byte>, offset: int, stats: Name -> bool): Fetched {
    if !(0 <= offset < |b|) then Failed(AtEnd)
    else if !WithinBuffer(b, offset) then Astray
    else match ReplyAt(b, offset, stats)
      case Got(name, next, eof) => if |name| >= MAXNAMELEN then Failed(EIO) else Found(name, next, eof)
      case NoStat => Failed(StatFailed)
      case EndOfDir => Failed(AtEnd)
  }

  /** What one more entry makes of a read. */
  function Taken(p: Progress, name: Name, next: nat, last: bool): Progress {
    var eof := last || ToInt(next) == 0;
    Progress(p.ents + [Dirent(name, if eof then 0 else next)], p.resid - Reclen(|name|),
             if eof then INT32_MAX else ToInt(next), eof)
  }

  datatype Read = Read(p: Progress, error: Error) | Lost

  /** Where a read leads that follows the offsets it finds in the bytes `b`, from any offset. */
  function ReadFrom(b: seq<Byte>, stats: Name -> bool, p: Progress): Read
    decreases p.resid
  {
    if p.eof || p.resid < DBUFSIZ then Read(p, NoError)
    else match Fetch(b, p.offset, stats)
      case Found(name, next, last) => ReadFrom(b, stats, Taken(p, name, next, last))
      case Failed(error) => Read(p, error)
      case Astray => Lost
  }

  /** One entry, fetched through the door. */
  method CallReaddir(dh: DirHandle, offset: int, listing: seq<Entry>, stats: Name -> bool, ghost es: seq<Entry>)
      returns (error: Error, name: Name, next: nat, eof: bool)
    requires dh.Serves(es, offset, listing) && Start(es, |es|) <= INT32_MAX && offset >= -0x8000_0000
    requires !Fetch(Pack(es), offset, stats).Astray?
    modifies dh, dh.contents
    ensures dh.contents == old(dh.contents) || fresh(dh.contents)
    ensures dh.Holds(es) && dh.filled
    ensures Fetch(Pack(es), offset, stats) == if error == NoError then Found(name, next, eof) else Failed(error)
  {
    // a negative offset becomes a very large one
    var off := if offset < 0 then offset + 0x1_0000_0000_0000_0000 else offset;
    var r := dh.Readdir(off, listing, stats, es);
    name, next, eof := [], 0, false;
    match r
    case EndOfDir => error := AtEnd;
    case NoStat => error := StatFailed;
    case Got(n, x, e) =>
      if |n| >= MAXNAMELEN {
        error := EIO;
      } else {
        error, name, next, eof := NoError, n, x, e;
      }
  }

  /** One round of the loop, for an entry that was found. */
  method TakeEntry(p: Progress, name: Name, next: nat, last: bool) returns (p': Progress)
    ensures p' == Taken(p, name, next, last)
  {
    var off, offset, eof := next, ToInt(next), last;
    if offset == 0 {
      eof := true;
    }
    if eof {
      off, offset := 0, INT32_MAX;
    }
    p' := Progress(p.ents + [Dirent(name, off)], p.resid - Reclen(|name|), offset, eof);
  }

  /** While there is room for any entry, one more is fetched. */
  method ReadEntries(start: Progress, dh: DirHandle, listing: seq<Entry>, stats: Name -> bool, ghost es: seq<Entry>)
      returns (p: Progress, error: Error)
    requires dh.Serves(es, start.offset, listing) && Start(es, |es|) <= INT32_MAX && start.offset >= -0x8000_0000
    requires !start.eof && start.resid >= DBUFSIZ && ReadFrom(Pack(es), stats, start).Read?
    modifies dh, dh.contents
    ensures dh.contents == old(dh.contents) || fresh(dh.contents)
    ensures dh.Holds(es) && dh.filled
    ensures ReadFrom(Pack(es), stats, start) == Read(p, error)
  {
    p, error := start, NoError;
    while !p.eof && p.resid >= DBUFSIZ
      invariant dh.contents == old(dh.contents) || fresh(dh.contents)
      invariant dh.Serves(es, p.offset, listing) && p.offset >= -0x8000_0000
      invariant p != start ==> dh.Holds(es) && dh.filled
      invariant error == NoError && ReadFrom(Pack(es), stats, start) == ReadFrom(Pack(es), stats, p)
      decreases p.resid
    {
      var name, next, last;
      error, name, next, last := CallReaddir(dh, p.offset, listing, stats, es);
      if error != NoError {
        return;
      }
      p := TakeEntry(p, name, next, last);
    }
  }

  /** One read of a directory into the caller's buffer. */
  method ReadVDir(uio: Uio, dh: DirHandle, listing: seq<Entry>, stats: Name -> bool, ghost es: seq<Entry>)
      returns (error: Error, eof: bool)
    requires dh.Serves(es, uio.offset, listing) && Start(es, |es|) <= INT32_MAX
    requires !Refused(uio.offset, uio.resid) ==>
      ReadFrom(Pack(es), stats, Progress(uio.ents, uio.resid, uio.offset, false)).Read?
    modifies uio, dh, dh.contents
    ensures dh.contents == old(dh.contents) || fresh(dh.contents)
    ensures var p := old(Progress(uio.ents, uio.resid, uio.offset, false));
            var p' := Progress(uio.ents, uio.resid, uio.offset, eof);
      if p.offset == INT32_MAX then error == NoError && p' == p && unchanged(dh) && unchanged(dh.contents)
      else if Refused(p.offset, p.resid) then error == EINVAL && p' == p && unchanged(dh) && unchanged(dh.contents)
      else dh.Holds(es) && dh.filled && ReadFrom(Pack(es), stats, p) == Read(p', error)
  {
    error, eof := NoError, false;
    if uio.offset == INT32_MAX {
      return;
    }
    if uio.offset < 0 || uio.offset > INT32_MAX || uio.offset + uio.resid > INT32_MAX {
      error := EINVAL;
      return;
    }
    if uio.resid < DBUFSIZ {
      error := EINVAL;
      return;
    }
    var p := Progress(uio.ents, uio.resid, uio.offset, false);
    p, error := ReadEntries(p, dh, listing, stats, es);
    uio.ents, uio.resid, uio.offset, eof := p.ents, p.resid, p.offset, p.eof;
  }

  // ----- A read from the start of a record

  /** What is fetched at a record is its entry. */
  lemma {:induction false} FetchRecord(es: seq<Entry>, k: nat, stats: Name -> bool)
    requires k <= |es| && Start(es, |es|) <= INT32_MAX
    ensures var f := Fetch(Pack(es), Start(es, k), stats);
      if k == |es| then f == Failed(AtEnd)
      else if Readable(es[k].name, stats) then f == Found(es[k].name, Start(es, k + 1), k + 1 == |es|)
      else f in {Failed(EIO), Failed(StatFailed)}
  {
    ReplyAtRecord(es, k, stats);
    if k < |es| { StartGrows(es, k, |es|); }
  }

  /** A read that has come to record `k` goes on to some record, and stops there for a reason. */
  lemma {:induction false} ReadsOn(es: seq<Entry>, stats: Name -> bool, i: nat, k: nat, start: Progress, p: Progress)
      returns (k': nat)
    requires Out(es, stats, i, k, start, p) && Start(es, |es|) <= INT32_MAX && p.resid >= 0
    ensures var r := ReadFrom(Pack(es), stats, p);
      && r.Read? && Out(es, stats, i, k', start, r.p) && r.p.resid >= 0 && Stopped(es, stats, k', r.p, r.error)
    decreases p.resid
  {
    k' := k;
    if !p.eof && p.resid >= DBUFSIZ {
      FetchRecord(es, k, stats);
      if k < |es| && Readable(es[k].name, stats) {
        var p' := TakesOne(es, stats, i, k, start, p);
        k' := ReadsOn(es, stats, i, k + 1, start, p');
      }
    }
  }

  lemma {:induction false} TakesOne(es: seq<Entry>, stats: Name -> bool, i: nat, k: nat, start: Progress, p: Progress)
      returns (p': Progress)
    requires Out(es, stats, i, k, start, p) && Start(es, |es|) <= INT32_MAX && !p.eof && p.resid >= DBUFSIZ
    requires k < |es| && Readable(es[k].name, stats)
    requires Fetch(Pack(es), p.offset, stats) == Found(es[k].name, Start(es, k + 1), k + 1 == |es|)
    ensures Out(es, stats, i, k + 1, start, p') && 0 <= p'.resid < p.resid
    ensures ReadFrom(Pack(es), stats, p) == ReadFrom(Pack(es), stats, p')
  {
    StartGrows(es, k, |es|);
    if k + 1 < |es| { StartGrows(es, k + 1, |es|); }
    p' := Taken(p, es[k].name, Start(es, k + 1), k + 1 == |es|);
    TakenIs(p, es[k].name, Start(es, k + 1), k + 1 == |es|);
    OutNext(es, stats, i, k, start, p, p');
    ReadStep(Pack(es), stats, p, es[k].name, Start(es, k + 1), k + 1 == |es|);
  }

  lemma {:induction false} TakenIs(p: Progress, name: Name, next: nat, last: bool)
    requires 0 < next <= INT32_MAX
    ensures Taken(p, name, next, last) ==
            Progress(p.ents + [Dirent(name, if last then 0 else next)], p.resid - Reclen(|name|),
                                                   if last then INT32_MAX else next, last)
  {
  }

  lemma {:induction false} ReadStep(b: seq<Byte>, stats: Name -> bool, p: Progress, name: Name, next: nat, last: bool)
    requires !p.eof && p.resid >= DBUFSIZ && Fetch(b, p.offset, stats) == Found(name, next, last)
    ensures ReadFrom(b, stats, p) == ReadFrom(b, stats, Taken(p, name, next, last))
  {
  }

  /** A read from record `i` brings the entries from there up to some `k`, where it stops for a reason. */
  lemma {:induction false} ReadFromRecord(es: seq<Entry>, stats: Name -> bool, i: nat, start: Progress) returns (k: nat)
    requires i <= |es| && start.offset == Start(es, i) && !start.eof && start.resid >= 0 && Start(es, |es|) <= INT32_MAX
    ensures var r := ReadFrom(Pack(es), stats, start);
      && r.Read? && Out(es, stats, i, k, start, r.p) && r.p.resid >= 0 && Stopped(es, stats, k, r.p, r.error)
  {
    assert start.ents + Dirents(es, i, i) == start.ents;
    k := ReadsOn(es, stats, i, i, start, start);
  }

  // ----- Reads in a row

  /** Every entry can be read. */
  predicate AllReadable(es: seq<Entry>, stats: Name -> bool) {
    forall i | 0 <= i < |es| :: Readable(es[i].name, stats)
  }

  /** `got` is what came of the first `k` entries after `calls` reads, each of which brought one at least. */
  ghost predicate Enumerated(es: seq<Entry>, stats: Name -> bool, calls: nat, k: nat, got: seq<Dirent>, offset: int) {
    && k <= |es| && got == Dirents(es, 0, k) && (k == |es| || calls <= k)
    && (forall i | 0 <= i < k :: Readable(es[i].name, stats))
    && (if calls == 0 then k == 0 else es != [] && offset > 0)
    && offset == if k == |es| && es != [] then INT32_MAX else Start(es, k)
  }

  /** What a read from `i` up to `k` makes of an enumeration. */
  lemma {:induction false} ReadOn(es: seq<Entry>, stats: Name -> bool, calls: nat, i: nat, k: nat, got: seq<Dirent>,
                                  start: Progress, p: Progress)
    requires Enumerated(es, stats, calls, i, got, start.offset) && start.ents == [] && start.resid >= DBUFSIZ
    requires Out(es, stats, i, k, start, p) && (p.eof || p.resid < DBUFSIZ)
    ensures Enumerated(es, stats, calls + 1, k, got + p.ents, p.offset)
  {
    assert i < k;
    StartGrows(es, 0, k);
    DirentsJoin(es, i, k);
  }

  lemma {:induction false} DirentsJoin(es: seq<Entry>, i: nat, k: nat)
    requires i <= k <= |es|
    ensures Dirents(es, 0, i) + ([] + Dirents(es, i, k)) == Dirents(es, 0, k) <= Dirents(es, 0, |es|)
  {
  }

  /** A read that fails does so at an entry that cannot be read, or in an empty directory. */
  lemma {:induction false} ReadFails(es: seq<Entry>, stats: Name -> bool, calls: nat, i: nat, k: nat, got: seq<Dirent>,
                                     start: Progress, p: Progress, error: Error)
    requires Enumerated(es, stats, calls, i, got, start.offset) && start.offset != INT32_MAX && start.ents == []
    requires Out(es, stats, i, k, start, p) && Stopped(es, stats, k, p, error) && error != NoError
    ensures got + p.ents <= Dirents(es, 0, |es|) && (es == [] || !AllReadable(es, stats))
  {
    DirentsJoin(es, i, k);
  }

  /** One more read in an enumeration. */
  method ReadOnce(dh: DirHandle, size: int, offset: int, listing: seq<Entry>, stats: Name -> bool,
                  ghost es: seq<Entry>, ghost calls: nat, ghost i: nat, got: seq<Dirent>)
      returns (got': seq<Dirent>, offset': int, error: Error, ghost k: nat)
    requires dh.Serves(es, offset, listing) && DBUFSIZ <= size <= INT32_MAX - Start(es, |es|)
    requires Enumerated(es, stats, calls, i, got, offset) && (calls > 0 ==> dh.Holds(es) && dh.filled)
    modifies dh, dh.contents
    ensures dh.contents == old(dh.contents) || fresh(dh.contents)
    ensures dh.Holds(es) && dh.filled
    ensures error == NoError ==> Enumerated(es, stats, calls + 1, k, got', offset')
    ensures error != NoError ==> got' <= Dirents(es, 0, |es|) && (es == [] || !AllReadable(es, stats))
  {
    var uio := new Uio(offset, size);
    ghost var start := Progress([], size, offset, false);
    if i < |es| { StartGrows(es, i, |es|); }
    k := i;
    if offset != INT32_MAX { k := ReadFromRecord(es, stats, i, start); }
    var eof;
    error, eof := ReadVDir(uio, dh, listing, stats, es);
    got', offset' := got + uio.ents, uio.offset;
    if offset == INT32_MAX {
      assert got + [] == got;
    } else if error == NoError {
      ReadOn(es, stats, calls, i, k, got, start, Progress(uio.ents, uio.resid, uio.offset, eof));
    } else {
      ReadFails(es, stats, calls, i, k, got, start, Progress(uio.ents, uio.resid, uio.offset, eof), error);
    }
  }

  /**
   Reads a directory from its start with buffers of the given sizes.  Whatever the sizes and
   however the directory changes between the reads, the entries it had at first come out,
   each once and in order.  They all come out exactly if there is one and all can be read.
   */
  method ReadDirectory(dh: DirHandle, sizes: seq<int>, listings: seq<seq<Entry>>, stats: Name -> bool)
      returns (got: seq<Dirent>, error: Error)
    requires |sizes| == |listings| > 0 && Start(listings[0], |listings[0]|) <= INT32_MAX
    requires forall s | s in sizes :: DBUFSIZ <= s <= INT32_MAX - Start(listings[0], |listings[0]|)
    requires dh.contents.Length <= UINT_MAX
    modifies dh, dh.contents
    ensures var es := listings[0];
      && got <= Dirents(es, 0, |es|)
      && (error == NoError && |sizes| >= |es| ==> got == Dirents(es, 0, |es|))
      && (AllReadable(es, stats) && es != [] ==> error == NoError)
      && (error == NoError && |sizes| >= |es| ==> AllReadable(es, stats) && es != [])
  {
    ghost var es, k: nat := listings[0], 0;
    var offset := 0;
    got, error := [], NoError;
    for j := 0 to |sizes|
      invariant dh.contents == old(dh.contents) || fresh(dh.contents)
      invariant error == NoError && Enumerated(es, stats, j, k, got, offset)
      invariant if j == 0 then dh.contents.Length <= UINT_MAX else dh.Holds(es) && dh.filled
    {
      assert sizes[j] in sizes;
      got, offset, error, k := ReadOnce(dh, sizes[j], offset, listings[j], stats, es, j, k, got);
      if error != NoError {
        return;
      }
    }
    DirentsJoin(es, 0, k);
  }
}
