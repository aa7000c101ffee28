/**
 Readers that share the buffer of a directory: all opens of a directory use one handle, so a
 reader that starts refills the buffer the others are reading from.  A step is one call
 through the door, for one entry; the sizes of the reads only say how many calls there are
 to a read.
 */
module SharedRead {
  import opened DirRecords
  import opened DirStream
  import opened DirRead

  /** A reader: where it stands, what it has got, and whether it is done or has failed. */
  datatype Reader = Reader(offset: int, got: seq<Dirent>, eof: bool, failed: bool)

  const NEW_READER := Reader(0, [], false, false)

  datatype Shared = Shared(records: seq<Entry>, filled: bool, readers: map<nat, Reader>)

  const START := Shared([], false, map[])

  /** Reader `r` calls for an entry, while the directory lists `listing`. */
  datatype Call = Call(r: nat, listing: seq<Entry>)

  function Of(s: Shared, r: nat): Reader {
    if r in s.readers then s.readers[r] else NEW_READER
  }

  predicate Stops(q: Reader) {
    q.eof || q.failed
  }

  predicate Refills(s: Shared, q: Reader) {
    q.offset == 0 || !s.filled
  }

  /** The records a call is answered from. */
  function Served(s: Shared, c: Call): seq<Entry> {
    if Refills(s, Of(s, c.r)) then c.listing else s.records
  }

  /** What a call makes of its reader, from the bytes `b`. */
  function FetchNext(b: seq<Byte>, stats: Name -> bool, q: Reader): Reader {
    if Stops(q) then q
    else match Fetch(b, q.offset, stats)
      case Found(name, next, last) =>
        var p := Taken(Progress(q.got, 0, q.offset, false), name, next, last);
        Reader(p.offset, p.ents, p.eof, false)
      case _ => q.(failed := true)
  }

  function Next(s: Shared, c: Call, stats: Name -> bool): Shared {
    var q := Of(s, c.r);
    if Stops(q) then s
    else
      var es := Served(s, c);
      Shared(es, true, s.readers[c.r := FetchNext(Pack(es), stats, q)])
  }

  /** Any calls of any readers in a row. */
  function After(calls: seq<Call>, stats: Name -> bool): Shared
    decreases |calls|
  {
    if calls == [] then START
    else Next(After(calls[..|calls| - 1], stats), calls[|calls| - 1], stats)
  }

  // ----- The code

  /** The buffer of the handle is the shared one. */
  ghost predicate Shows(dh: DirHandle, s: Shared)
    reads dh, dh.contents
  {
    dh.contents.Length <= UINT_MAX && dh.filled == s.filled && (s.filled ==> dh.Holds(s.records))
  }

  /** One round of the kernel's loop, for any reader of the handle. */
  method CallFor(dh: DirHandle, c: Call, q: Reader, stats: Name -> bool, ghost s: Shared) returns (q': Reader)
    requires Shows(dh, s) && q == Of(s, c.r) && !Stops(q) && q.offset >= -0x8000_0000
    requires Start(Served(s, c), |Served(s, c)|) <= INT32_MAX
    requires !Fetch(Pack(Served(s, c)), q.offset, stats).Astray?
    modifies dh, dh.contents
    ensures Shows(dh, Next(s, c, stats)) && Next(s, c, stats).readers == s.readers[c.r := q']
  {
    var error, name, next, last := CallReaddir(dh, q.offset, c.listing, stats, Served(s, c));
    if error != NoError {
      return q.(failed := true);
    }
    var p := TakeEntry(Progress(q.got, 0, q.offset, false), name, next, last);
    q' := Reader(p.offset, p.ents, p.eof, false);
  }

  // ----- One reader and the bytes it is served from

  /** The reader that has got the first `k` entries of `es`, and stands at the next. */
  function OnTrack(es: seq<Entry>, k: nat): Reader
    requires k <= |es| && es != []
  {
    if k == |es| then Reader(INT32_MAX, Dirents(es, 0, k), true, false)
    else Reader(Start(es, k), Dirents(es, 0, k), false, false)
  }

  /** What stands in `b` where entry `k` of `es` did leads a reader to that entry, and on as before. */
  predicate Right(es: seq<Entry>, b: seq<Byte>, stats: Name -> bool, k: nat)
    requires k < |es|
  {
    var f := Fetch(b, Start(es, k), stats);
    && f.Found? && f.name == es[k].name
    && if k + 1 < |es| then !f.last && f.next == Start(es, k + 1) else f.last || ToInt(f.next) == 0
  }

  /** ... and so do the entries from `k` on. */
  predicate Continues(es: seq<Entry>, b: seq<Byte>, stats: Name -> bool, k: nat) {
    forall j | k <= j < |es| :: Right(es, b, stats, j)
  }

  /** The reader has something that is not in the listing, or will get no more. */
  predicate Off(es: seq<Entry>, q: Reader) {
    q.failed || (exists j :: 0 <= j < |q.got| && (j >= |es| || q.got[j] != DirentAt(es, j)))
  }

  lemma {:induction false} OnTrackIsNotOff(es: seq<Entry>, k: nat)
    requires k <= |es| && es != []
    ensures !Off(es, OnTrack(es, k))
  {
  }

  /** One call keeps a reader on its listing exactly when the next entry is still there. */
  lemma {:induction false} RightIff(es: seq<Entry>, b: seq<Byte>, stats: Name -> bool, k: nat)
    requires k < |es| && Start(es, |es|) <= INT32_MAX
    ensures var q' := FetchNext(b, stats, OnTrack(es, k));
            if Right(es, b, stats, k) then q' == OnTrack(es, k + 1) else Off(es, q')
  {
    var q, f := OnTrack(es, k), Fetch(b, Start(es, k), stats);
    NextStart(es, k);
    StartGrows(es, k, |es|);
    if f.Found? { FoundRight(es, k, q, f, FetchNext(b, stats, q)); }
  }

  lemma {:induction false} FoundRight(es: seq<Entry>, k: nat, q: Reader, f: Fetched, q': Reader)
    requires k < |es| && q == OnTrack(es, k) && f.Found? && 0 < Start(es, k + 1) <= INT32_MAX
    requires var p := Taken(Progress(q.got, 0, q.offset, false), f.name, f.next, f.last);
             q' == Reader(p.offset, p.ents, p.eof, false)
    ensures if f.name == es[k].name
               && (if k + 1 < |es| then !f.last && f.next == Start(es, k + 1) else f.last || ToInt(f.next) == 0)
            then q' == OnTrack(es, k + 1) else Off(es, q')
  {
    assert q'.got[k] == Dirent(f.name, if q'.eof then 0 else f.next);
    assert Dirents(es, 0, k + 1) == Dirents(es, 0, k) + [DirentAt(es, k)];
  }

  /** Once off, a reader never comes back. */
  lemma {:induction false} OffStays(es: seq<Entry>, b: seq<Byte>, stats: Name -> bool, q: Reader)
    requires Off(es, q)
    ensures Off(es, FetchNext(b, stats, q))
  {
    var q' := FetchNext(b, stats, q);
    if !q.failed {
      var j :| 0 <= j < |q.got| && (j >= |es| || q.got[j] != DirentAt(es, j));
      assert q'.got[j] == q.got[j];
    }
  }

  /** Calls in a row, all answered from `b`. */
  function Taking(b: seq<Byte>, stats: Name -> bool, q: Reader, n: nat): Reader
    decreases n
  {
    if n == 0 then q else Taking(b, stats, FetchNext(b, stats, q), n - 1)
  }

  lemma {:induction false} OffForGood(es: seq<Entry>, b: seq<Byte>, stats: Name -> bool, q: Reader, n: nat)
    requires Off(es, q)
    ensures Off(es, Taking(b, stats, q, n))
    decreases n
  {
    if n > 0 {
      OffStays(es, b, stats, q);
      OffForGood(es, b, stats, FetchNext(b, stats, q), n - 1);
    }
  }

  /** The rest of a listing comes out of other bytes exactly when its entries stand there where they did. */
  lemma {:induction false} RestComesIff(es: seq<Entry>, b: seq<Byte>, stats: Name -> bool, k: nat)
    requires k <= |es| && es != [] && Start(es, |es|) <= INT32_MAX
    ensures Taking(b, stats, OnTrack(es, k), |es| - k) == OnTrack(es, |es|) <==> Continues(es, b, stats, k)
    decreases |es| - k
  {
    if k < |es| {
      var q' := FetchNext(b, stats, OnTrack(es, k));
      RightIff(es, b, stats, k);
      if Right(es, b, stats, k) {
        RestComesIff(es, b, stats, k + 1);
      } else {
        OffForGood(es, b, stats, q', |es| - k - 1);
        OnTrackIsNotOff(es, |es|);
      }
    }
  }

  /** The names from `k` on are those of the other listing from `k'` on. */
  predicate SameNames(es: seq<Entry>, k: nat, es': seq<Entry>, k': nat) {
    && k <= |es| && k' <= |es'| && |es| - k == |es'| - k'
    && forall i | k <= i < |es| :: es[i].name == es'[i - k + k'].name
  }

  /** Where a record of the new listing starts at the reader's place, that means: the same names from there on. */
  lemma {:induction false} ContinuesIff(es: seq<Entry>, es': seq<Entry>, stats: Name -> bool, k: nat, k': nat)
    requires k < |es| && k' <= |es'| && Start(es, k) == Start(es', k') && AllReadable(es, stats)
    requires Start(es, |es|) <= INT32_MAX && Start(es', |es'|) <= INT32_MAX
    ensures Continues(es, Pack(es'), stats, k) <==> SameNames(es, k, es', k')
    decreases |es| - k
  {
    assert Readable(es[k].name, stats);
    var b := Pack(es');
    RightNameIff(es, es', stats, k, k');
    if Right(es, b, stats, k) && k + 1 < |es| {
      ContinuesIff(es, es', stats, k + 1, k' + 1);
    }
    BothFrom(es, b, stats, k, es', k');
  }

  lemma BothFrom(es: seq<Entry>, b: seq<Byte>, stats: Name -> bool, k: nat, es': seq<Entry>, k': nat)
    requires k < |es| && k' <= |es'| && (Right(es, b, stats, k) <==> SameHead(es, k, es', k'))
    requires Right(es, b, stats, k) && k + 1 < |es| ==>
               (Continues(es, b, stats, k + 1) <==> SameNames(es, k + 1, es', k' + 1))
    ensures Continues(es, b, stats, k) <==> SameNames(es, k, es', k')
  {
    ContinuesFrom(es, b, stats, k);
    NamesFrom(es, k, es', k');
  }

  lemma ContinuesFrom(es: seq<Entry>, b: seq<Byte>, stats: Name -> bool, k: nat)
    requires k < |es|
    ensures Continues(es, b, stats, k) <==> Right(es, b, stats, k) && Continues(es, b, stats, k + 1)
    ensures k + 1 == |es| ==> Continues(es, b, stats, k + 1)
  {
    if Right(es, b, stats, k) && Continues(es, b, stats, k + 1) {
      forall j | k <= j < |es| ensures Right(es, b, stats, j) {}
    }
  }

  /** The first names are the same and both or neither the last, and the rest is the same. */
  predicate SameHead(es: seq<Entry>, k: nat, es': seq<Entry>, k': nat)
    requires k < |es| && k' <= |es'|
  {
    k' < |es'| && es[k].name == es'[k'].name && (k + 1 == |es| <==> k' + 1 == |es'|)
  }

  lemma NamesFrom(es: seq<Entry>, k: nat, es': seq<Entry>, k': nat)
    requires k < |es| && k' <= |es'|
    ensures SameNames(es, k, es', k') <==>
            SameHead(es, k, es', k') && (k + 1 < |es| ==> SameNames(es, k + 1, es', k' + 1))
  {
  }

  lemma RightNameIff(es: seq<Entry>, es': seq<Entry>, stats: Name -> bool, k: nat, k': nat)
    requires k < |es| && k' <= |es'| && Start(es, k) == Start(es', k') && Readable(es[k].name, stats)
    requires Start(es, |es|) <= INT32_MAX && Start(es', |es'|) <= INT32_MAX
    ensures Right(es, Pack(es'), stats, k) <==> SameHead(es, k, es', k')
    ensures Right(es, Pack(es'), stats, k) ==> Start(es, k + 1) == Start(es', k' + 1)
  {
    FetchRecord(es', k', stats);
    if k' < |es'| {
      StartGrows(es', k', |es'|);
      NextStart(es, k);
      NextStart(es', k');
      FoundIff(es, k, Fetch(Pack(es'), Start(es', k'), stats), es', k', stats);
    }
  }

  lemma NextStart(es: seq<Entry>, k: nat)
    requires k < |es|
    ensures Start(es, k + 1) == Start(es, k) + Size(|es[k].name|) && Size(|es[k].name|) > 0
  {
  }

  lemma FoundIff(es: seq<Entry>, k: nat, f: Fetched, es': seq<Entry>, k': nat, stats: Name -> bool)
    requires k < |es| && k' < |es'| && Start(es, k) == Start(es', k') && Readable(es[k].name, stats)
    requires 0 < Start(es', k' + 1) <= INT32_MAX
    requires es[k].name == es'[k'].name ==> Start(es, k + 1) == Start(es', k' + 1)
    requires if Readable(es'[k'].name, stats) then f == Found(es'[k'].name, Start(es', k' + 1), k' + 1 == |es'|)
             else f in {Failed(EIO), Failed(StatFailed)}
    ensures (&& f.Found? && f.name == es[k].name
             && if k + 1 < |es| then !f.last && f.next == Start(es, k + 1) else f.last || ToInt(f.next) == 0) <==>
            SameHead(es, k, es', k')
  {
  }

  // ----- Any readers together

  predicate Small(calls: seq<Call>) {
    forall c | c in calls :: Start(c.listing, |c.listing|) <= INT32_MAX
  }

  function Turns(calls: seq<Call>, r: nat): nat
    decreases |calls|
  {
    if calls == [] then 0
    else Turns(calls[..|calls| - 1], r) + if calls[|calls| - 1].r == r then 1 else 0
  }

  function Place(calls: seq<Call>, r: nat, es: seq<Entry>): (k: nat)
    ensures k <= |es|
  {
    if Turns(calls, r) < |es| then Turns(calls, r) else |es|
  }

  /** Call `i`, if it is the reader's and brings it something, finds the reader's next entry where it was. */
  ghost predicate CallRight(calls: seq<Call>, stats: Name -> bool, r: nat, es: seq<Entry>, i: nat)
    requires i < |calls|
  {
    var k := Place(calls[..i], r, es);
    calls[i].r == r && k < |es| ==> Right(es, Pack(Served(After(calls[..i], stats), calls[i])), stats, k)
  }

  ghost predicate CallsRight(calls: seq<Call>, stats: Name -> bool, r: nat, es: seq<Entry>)
    decreases |calls|
  {
    calls != [] ==>
      CallsRight(calls[..|calls| - 1], stats, r, es) && CallRight(calls, stats, r, es, |calls| - 1)
  }

  /**
   Whoever reads in between: a reader gets the entries of a listing, one a call, in order and to
   the end, exactly when the records each of its calls is answered from have the next entry where
   it was; and when they do not, it gets something else or fails, and stays so.
   */
  lemma {:induction false} OwnListingIff(calls: seq<Call>, stats: Name -> bool, r: nat, es: seq<Entry>)
    requires es != [] && Start(es, |es|) <= INT32_MAX
    ensures var q := Of(After(calls, stats), r);
            if CallsRight(calls, stats, r, es) then q == OnTrack(es, Place(calls, r, es)) else Off(es, q)
    decreases |calls|
  {
    if calls != [] {
      var n := |calls| - 1;
      OwnListingIff(calls[..n], stats, r, es);
      ReaderNext(calls, stats, r, es);
    }
  }

  /** One call more, given where the reader was before. */
  lemma ReaderNext(calls: seq<Call>, stats: Name -> bool, r: nat, es: seq<Entry>)
    requires calls != [] && es != [] && Start(es, |es|) <= INT32_MAX
    requires var n := |calls| - 1;
             var q := Of(After(calls[..n], stats), r);
             if CallsRight(calls[..n], stats, r, es) then q == OnTrack(es, Place(calls[..n], r, es)) else Off(es, q)
    ensures var q := Of(After(calls, stats), r);
            if CallsRight(calls, stats, r, es) then q == OnTrack(es, Place(calls, r, es)) else Off(es, q)
  {
    var n := |calls| - 1;
    var s, c, k := After(calls[..n], stats), calls[n], Place(calls[..n], r, es);
    ReaderStep(s, c, stats, r);
    PlaceNext(calls, r, es);
    if c.r == r {
      if CallsRight(calls[..n], stats, r, es) {
        TrackNext(es, Pack(Served(s, c)), stats, k);
      } else {
        OffStays(es, Pack(Served(s, c)), stats, Of(s, r));
      }
    }
  }

  lemma PlaceNext(calls: seq<Call>, r: nat, es: seq<Entry>)
    requires calls != []
    ensures var k := Place(calls[..|calls| - 1], r, es);
            Place(calls, r, es) == if calls[|calls| - 1].r == r && k < |es| then k + 1 else k
  {
  }

  lemma TrackNext(es: seq<Entry>, b: seq<Byte>, stats: Name -> bool, k: nat)
    requires k <= |es| && es != [] && Start(es, |es|) <= INT32_MAX
    ensures var q' := FetchNext(b, stats, OnTrack(es, k));
            if k == |es| then q' == OnTrack(es, k)
            else if Right(es, b, stats, k) then q' == OnTrack(es, k + 1) else Off(es, q')
  {
    if k < |es| { RightIff(es, b, stats, k); }
  }

  lemma ReaderStep(s: Shared, c: Call, stats: Name -> bool, r: nat)
    ensures Of(Next(s, c, stats), r) == if c.r == r then FetchNext(Pack(Served(s, c)), stats, Of(s, r)) else Of(s, r)
  {
  }

  // ----- Readers that find the same names

  /** From the reader's first call on, whoever starts to read finds the names of `es`. */
  ghost predicate SameForAll(calls: seq<Call>, stats: Name -> bool, r: nat, es: seq<Entry>)
    decreases |calls|
  {
    calls != [] ==>
      var n := |calls| - 1;
      var s, c := After(calls[..n], stats), calls[n];
      && SameForAll(calls[..n], stats, r, es)
      && ((Turns(calls[..n], r) > 0 || c.r == r) && !Stops(Of(s, c.r)) && Refills(s, Of(s, c.r)) ==>
            SameNames(es, 0, c.listing, 0))
  }

  /** Then the reader gets them all. */
  lemma {:induction false} SameNamesForAll(calls: seq<Call>, stats: Name -> bool, r: nat, es: seq<Entry>)
    requires es != [] && Start(es, |es|) <= INT32_MAX && AllReadable(es, stats) && Small(calls)
    requires SameForAll(calls, stats, r, es)
    ensures Of(After(calls, stats), r) == OnTrack(es, Place(calls, r, es))
  {
    RightForAll(calls, stats, r, es);
    OwnListingIff(calls, stats, r, es);
  }

  lemma {:induction false} RightForAll(calls: seq<Call>, stats: Name -> bool, r: nat, es: seq<Entry>)
    requires es != [] && Start(es, |es|) <= INT32_MAX && AllReadable(es, stats) && Small(calls)
    requires SameForAll(calls, stats, r, es)
    ensures CallsRight(calls, stats, r, es)
    ensures var s := After(calls, stats);
            Start(s.records, |s.records|) <= INT32_MAX && (Turns(calls, r) > 0 ==> SameNames(es, 0, s.records, 0))
    decreases |calls|
  {
    if calls != [] {
      var n := |calls| - 1;
      var s, c := After(calls[..n], stats), calls[n];
      assert c in calls && Small(calls[..n]);
      RightForAll(calls[..n], stats, r, es);
      OwnListingIff(calls[..n], stats, r, es);
      NoTurnYet(calls[..n], stats, r);
      var k := Place(calls[..n], r, es);
      if c.r == r && k < |es| {
        assert SameNames(es, 0, Served(s, c), 0);
        SameStart(es, Served(s, c), k);
        RightNameIff(es, Served(s, c), stats, k, k);
      }
    }
  }

  lemma {:induction false} NoTurnYet(calls: seq<Call>, stats: Name -> bool, r: nat)
    ensures Turns(calls, r) == 0 ==> r !in After(calls, stats).readers
    decreases |calls|
  {
    if calls != [] { NoTurnYet(calls[..|calls| - 1], stats, r); }
  }

  lemma {:induction false} SameStart(es: seq<Entry>, es': seq<Entry>, k: nat)
    requires SameNames(es, 0, es', 0) && k <= |es|
    ensures Start(es, k) == Start(es', k) && SameNames(es, k, es', k)
    decreases k
  {
    if k > 0 {
      SameStart(es, es', k - 1);
      assert es[k - 1].name == es'[k - 1].name;
    }
  }

  // ----- Readers that do not

  /**
   A file that is there all the time is lost to a reader: it has got the first of two entries when
   that one is removed, and another starts to read.  The second entry is now where the first was.
   */
  lemma {:induction false} EntryIsLost(a: Entry, b: Entry, stats: Name -> bool)
    requires AllReadable([a, b], stats) && Size(|b.name|) <= Size(|a.name|)
    ensures var calls := [Call(0, [a, b]), Call(1, [b]), Call(0, [b])];
            var q := Of(After(calls, stats), 0);
            q.failed && q.got == [Dirent(a.name, Size(|a.name|))]
  {
    var c0, c1, c2 := Call(0, [a, b]), Call(1, [b]), Call(0, [b]);
    LostSizes(a, b, stats);
    var first := Reader(Size(|a.name|), [Dirent(a.name, Size(|a.name|))], false, false);
    AfterOne([], c0, stats);
    FirstEntry(a, b, stats);
    AfterOne([c0], c1, stats);
    Refilled(After([c0], stats), c1, stats);
    AfterOne([c0, c1], c2, stats);
    BehindTheEnd(After([c0, c1], stats), c2, stats, first);
    assert [] + [c0] == [c0] && [c0] + [c1] == [c0, c1] && [c0, c1] + [c2] == [c0, c1, c2];
  }

  lemma FirstEntry(a: Entry, b: Entry, stats: Name -> bool)
    requires AllReadable([a, b], stats)
    ensures Next(START, Call(0, [a, b]), stats).readers ==
            map[0 := Reader(Size(|a.name|), [Dirent(a.name, Size(|a.name|))], false, false)]
  {
    var es := [a, b];
    LostSizes(a, b, stats);
    RightNameIff(es, es, stats, 0, 0);
    RightIff(es, Pack(es), stats, 0);
    assert OnTrack(es, 0) == NEW_READER;
    assert Dirents(es, 0, 1) == Dirents(es, 0, 0) + [DirentAt(es, 0)] == [Dirent(a.name, Size(|a.name|))];
  }

  /** A reader that starts takes the buffer over. */
  lemma Refilled(s: Shared, c: Call, stats: Name -> bool)
    requires c.r !in s.readers
    ensures var s' := Next(s, c, stats);
            s'.filled && s'.records == c.listing && forall r | r in s.readers :: Of(s', r) == Of(s, r)
  {
  }

  lemma BehindTheEnd(s: Shared, c: Call, stats: Name -> bool, q: Reader)
    requires s.filled && Of(s, c.r) == q && !Stops(q) && q.offset > 0 && q.offset >= |Pack(s.records)|
    ensures Of(Next(s, c, stats), c.r) == q.(failed := true)
  {
  }

  lemma AfterOne(calls: seq<Call>, c: Call, stats: Name -> bool)
    ensures After(calls + [c], stats) == Next(After(calls, stats), c, stats)
  {
    assert (calls + [c])[..|calls|] == calls;
  }

  lemma LostSizes(a: Entry, b: Entry, stats: Name -> bool)
    requires AllReadable([a, b], stats)
    ensures var es := [a, b];
            && Readable(es[0].name, stats) && Start(es, 0) == 0 && Start(es, 1) == Size(|a.name|) > 0
            && Start(es, 2) <= INT32_MAX && |Pack([b])| == Size(|b.name|)
  {
    var es := [a, b];
    assert Readable(es[0].name, stats) && Readable(es[1].name, stats);
    assert Start(es, 1) == Start(es, 0) + Size(|a.name|) && Start(es, 2) == Start(es, 1) + Size(|b.name|);
    assert Start([b], 1) == Start([b], 0) + Size(|b.name|);
  }
}
