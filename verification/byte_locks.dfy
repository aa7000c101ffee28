/**
 The advisory byte-range locks that libfuse keeps per node: a list of intervals that
 locks_insert merges, trims, splits and deletes in place.  What it must amount to is
 the rule of fcntl() (System Interfaces volume of POSIX.1-2008, section 3): every byte
 of the requested range takes the requested type for its owner, and nothing else changes.
 */
module ByteLocks {
  import opened Wrappers

  const OFFSET_MAX: int := 0x7fff_ffff_ffff_ffff

  datatype LockType = Rd | Wr | Un

  datatype Lock = Lock(typ: LockType, start: int, end: int, pid: int, owner: nat)

  predicate InRange(l: Lock) {
    0 <= l.start <= l.end <= OFFSET_MAX
  }

  predicate Covers(l: Lock, o: nat, x: int) {
    l.owner == o && l.start <= x <= l.end
  }

  /** The type of lock that owner `o` has on byte `x`: the meaning of the list. */
  function TypeAt(ls: seq<Lock>, o: nat, x: int): LockType {
    if ls == [] then Un else if Covers(ls[0], o, x) then ls[0].typ else TypeAt(ls[1..], o, x)
  }

  /** `a` lies before `b`, and does not touch it if their types are equal. */
  predicate Before(a: Lock, b: Lock) {
    a.end < b.start && (a.typ == b.typ ==> a.end + 1 < b.start)
  }

  ghost predicate Real(ls: seq<Lock>) {
    forall i | 0 <= i < |ls| :: InRange(ls[i]) && ls[i].typ != Un
  }

  /** Per owner: sorted, disjoint, and no two touching locks of one type. */
  ghost predicate Ordered(ls: seq<Lock>) {
    forall i, j | 0 <= i < j < |ls| && ls[i].owner == ls[j].owner :: Before(ls[i], ls[j])
  }

  ghost predicate Canonical(ls: seq<Lock>) {
    Real(ls) && Ordered(ls)
  }

  /** The other owners' locks, in their order. */
  function Others(ls: seq<Lock>, o: nat): seq<Lock> {
    if ls == [] then []
    else if ls[0].owner != o then [ls[0]] + Others(ls[1..], o) else Others(ls[1..], o)
  }

  // ----- The meaning of a spliced list

  lemma {:induction false} TypeAtConcat(a: seq<Lock>, b: seq<Lock>, o: nat, x: int)
    requires Real(a)
    ensures TypeAt(a + b, o, x) == if TypeAt(a, o, x) != Un then TypeAt(a, o, x) else TypeAt(b, o, x)
    decreases |a|
  {
    if a == [] {
      assert a + b == b;
    } else {
      assert (a + b)[1..] == a[1..] + b;
      TypeAtConcat(a[1..], b, o, x);
    }
  }

  lemma {:induction false} OthersConcat(a: seq<Lock>, b: seq<Lock>, o: nat)
    ensures Others(a + b, o) == Others(a, o) + Others(b, o)
    decreases |a|
  {
    if a == [] {
      assert a + b == b;
    } else {
      assert (a + b)[1..] == a[1..] + b;
      OthersConcat(a[1..], b, o);
    }
  }

  /** Locks of owner `o` itself do not show among the others. */
  lemma {:induction false} OthersSplice(a: seq<Lock>, m: seq<Lock>, b: seq<Lock>, o: nat)
    requires forall i | 0 <= i < |m| :: m[i].owner == o
    ensures Others(a + m + b, o) == Others(a, o) + Others(b, o)
  {
    OthersConcat(a + m, b, o);
    OthersConcat(a, m, o);
    NoOthers(m, o);
  }

  lemma {:induction false} NoOthers(m: seq<Lock>, o: nat)
    requires forall i | 0 <= i < |m| :: m[i].owner == o
    ensures Others(m, o) == []
    decreases |m|
  {
    if m != [] {
      assert forall i | 0 <= i < |m[1..]| :: m[1..][i] == m[i + 1];
      NoOthers(m[1..], o);
    }
  }

  lemma {:induction false} NotCovered(ls: seq<Lock>, o: nat, x: int)
    requires forall i | 0 <= i < |ls| :: !Covers(ls[i], o, x)
    ensures TypeAt(ls, o, x) == Un
    decreases |ls|
  {
    if ls != [] {
      assert forall i | 0 <= i < |ls[1..]| :: ls[1..][i] == ls[i + 1];
      NotCovered(ls[1..], o, x);
    }
  }

  lemma {:induction false} CoveredBy(ls: seq<Lock>, i: nat, o: nat, x: int)
    requires Canonical(ls) && i < |ls| && Covers(ls[i], o, x)
    ensures TypeAt(ls, o, x) == ls[i].typ
    decreases |ls|
  {
    if i > 0 {
      assert Before(ls[0], ls[i]) || ls[0].owner != ls[i].owner;
      assert forall k | 0 <= k < |ls[1..]| :: ls[1..][k] == ls[k + 1];
      CoveredBy(ls[1..], i - 1, o, x);
    }
  }

  /** The list around position `i`, and what it means byte by byte. */
  lemma {:induction false} Around(ls: seq<Lock>, i: nat, o: nat, x: int)
    requires Canonical(ls) && i < |ls|
    ensures Real(ls[..i]) && Real(ls[i + 1..])
    ensures TypeAt(ls[..i] + ls[i + 1..], o, x) == if Covers(ls[i], o, x) then Un else TypeAt(ls, o, x)
    ensures Covers(ls[i], o, x) ==> TypeAt(ls, o, x) == ls[i].typ
    ensures Covers(ls[i], o, x) ==> TypeAt(ls[..i], o, x) == Un && TypeAt(ls[i + 1..], o, x) == Un
  {
    var a, b := ls[..i], ls[i + 1..];
    assert forall k | 0 <= k < |b| :: b[k] == ls[i + 1 + k];
    TypeAtConcat(a, b, o, x);
    if Covers(ls[i], o, x) {
      CoveredBy(ls, i, o, x);
      Alone(ls, i, o, x);
    } else {
      assert ls == a + ([ls[i]] + b);
      TypeAtConcat(a, [ls[i]] + b, o, x);
      assert ([ls[i]] + b)[1..] == b;
    }
  }

  /** No other lock of the owner reaches into lock `i`. */
  lemma {:induction false} Alone(ls: seq<Lock>, i: nat, o: nat, x: int)
    requires Canonical(ls) && i < |ls| && Covers(ls[i], o, x)
    ensures TypeAt(ls[..i], o, x) == Un && TypeAt(ls[i + 1..], o, x) == Un
  {
    var a, b := ls[..i], ls[i + 1..];
    forall k | 0 <= k < |a| ensures !Covers(a[k], o, x) { assert a[k] == ls[k]; }
    forall k | 0 <= k < |b| ensures !Covers(b[k], o, x) { assert b[k] == ls[i + 1 + k]; }
    NotCovered(a, o, x);
    NotCovered(b, o, x);
  }

  // ----- One lemma per way of editing the list

  ghost predicate SameOutside(ls: seq<Lock>, ls': seq<Lock>, k: Lock) {
    forall o, x :: !Covers(k, o, x) ==> TypeAt(ls', o, x) == TypeAt(ls, o, x)
  }

  lemma {:induction false} Deleted(ls: seq<Lock>, i: nat, k: Lock)
    requires Canonical(ls) && i < |ls| && ls[i].owner == k.owner
    requires k.start <= ls[i].start && ls[i].end <= k.end
    ensures var ls' := ls[..i] + ls[i + 1..];
            Canonical(ls') && SameOutside(ls, ls', k) && Others(ls', k.owner) == Others(ls, k.owner)
  {
    var ls' := ls[..i] + ls[i + 1..];
    assert forall j | 0 <= j < |ls'| :: ls'[j] == ls[if j < i then j else j + 1];
    forall o, x
      ensures !Covers(k, o, x) ==> TypeAt(ls', o, x) == TypeAt(ls, o, x)
    {
      Around(ls, i, o, x);
    }
    assert ls == ls[..i] + [ls[i]] + ls[i + 1..];
    OthersSplice(ls[..i], [ls[i]], ls[i + 1..], k.owner);
    OthersConcat(ls[..i], ls[i + 1..], k.owner);
  }

  /** `l` shrinks to `l'`, giving up only bytes of `k`. */
  predicate Shrinks(l: Lock, l': Lock, k: Lock) {
    && l.owner == k.owner && l' == l.(start := l'.start, end := l'.end)
    && l.start <= l'.start <= l'.end <= l.end
    && (l.start < l'.start ==> k.start <= l.start && l'.start - 1 <= k.end)
    && (l'.end < l.end ==> k.start <= l'.end + 1 && l.end <= k.end)
  }

  lemma {:induction false} Trimmed(ls: seq<Lock>, i: nat, l': Lock, k: Lock)
    requires Canonical(ls) && i < |ls| && Shrinks(ls[i], l', k)
    ensures var ls' := ls[i := l'];
            Canonical(ls') && SameOutside(ls, ls', k) && Others(ls', k.owner) == Others(ls, k.owner)
  {
    var ls' := ls[i := l'];
    forall o, x
      ensures !Covers(k, o, x) ==> TypeAt(ls', o, x) == TypeAt(ls, o, x)
    {
      Around(ls, i, o, x);
      Around(ls', i, o, x);
      assert ls'[..i] == ls[..i] && ls'[i + 1..] == ls[i + 1..];
    }
    assert ls == ls[..i] + [ls[i]] + ls[i + 1..];
    assert ls' == ls[..i] + [l'] + ls[i + 1..];
    OthersSplice(ls[..i], [ls[i]], ls[i + 1..], k.owner);
    OthersSplice(ls[..i], [l'], ls[i + 1..], k.owner);
  }

  ghost predicate FitsAt(ls: seq<Lock>, i: nat, k: Lock) {
    && i <= |ls|
    && (forall j | 0 <= j < i && ls[j].owner == k.owner :: Before(ls[j], k))
    && (forall j | i <= j < |ls| && ls[j].owner == k.owner :: Before(k, ls[j]))
  }

  lemma {:induction false} Inserted(ls: seq<Lock>, i: nat, k: Lock)
    requires Canonical(ls) && FitsAt(ls, i, k) && InRange(k) && k.typ != Un
    ensures var ls' := ls[..i] + [k] + ls[i..];
            && Canonical(ls') && SameOutside(ls, ls', k) && Others(ls', k.owner) == Others(ls, k.owner)
            && forall x | k.start <= x <= k.end :: TypeAt(ls', k.owner, x) == k.typ
  {
    InsertedCanonical(ls, i, k);
    InsertedMeans(ls, i, k);
    assert ls == ls[..i] + ls[i..];
    OthersConcat(ls[..i], ls[i..], k.owner);
    OthersSplice(ls[..i], [k], ls[i..], k.owner);
  }

  lemma {:induction false} InsertedCanonical(ls: seq<Lock>, i: nat, k: Lock)
    requires Canonical(ls) && FitsAt(ls, i, k) && InRange(k) && k.typ != Un
    ensures Canonical(ls[..i] + [k] + ls[i..])
  {
    var ls' := ls[..i] + [k] + ls[i..];
    assert forall j | 0 <= j < |ls'| :: ls'[j] == if j < i then ls[j] else if j == i then k else ls[j - 1];
  }

  lemma {:induction false} InsertedMeans(ls: seq<Lock>, i: nat, k: Lock)
    requires i <= |ls| && Canonical(ls[..i] + [k] + ls[i..])
    ensures var ls' := ls[..i] + [k] + ls[i..];
            SameOutside(ls, ls', k) && forall x | k.start <= x <= k.end :: TypeAt(ls', k.owner, x) == k.typ
  {
    var ls' := ls[..i] + [k] + ls[i..];
    assert ls'[..i] + ls'[i + 1..] == ls && ls'[i] == k;
    forall o, x
      ensures !Covers(k, o, x) ==> TypeAt(ls', o, x) == TypeAt(ls, o, x)
      ensures Covers(k, o, x) ==> TypeAt(ls', o, x) == k.typ
    {
      Around(ls', i, o, x);
    }
  }

  /** The two ends of `l` remain on either side of `k`. */
  lemma {:induction false} Split(ls: seq<Lock>, i: nat, k: Lock)
    requires Canonical(ls) && i < |ls| && ls[i].owner == k.owner && InRange(k)
    requires ls[i].start < k.start && k.end < ls[i].end
    ensures var ls' := ls[..i] + [ls[i].(end := k.start - 1)] + [ls[i].(start := k.end + 1)] + ls[i + 1..];
            Canonical(ls') && SameOutside(ls, ls', k) && Others(ls', k.owner) == Others(ls, k.owner)
  {
    // First trim to the left end, as if the rest belonged to the request, then insert the right end.
    var l := ls[i];
    var rest := k.(end := l.end);
    Trimmed(ls, i, l.(end := k.start - 1), rest);
    var ls1 := ls[i := l.(end := k.start - 1)];
    var right := l.(start := k.end + 1);
    Inserted(ls1, i + 1, right);
    var ls' := ls[..i] + [l.(end := k.start - 1)] + [right] + ls[i + 1..];
    assert ls' == ls1[..i + 1] + [right] + ls1[i + 1..];
    forall o, x
      ensures !Covers(k, o, x) ==> TypeAt(ls', o, x) == TypeAt(ls, o, x)
    {
      Around(ls, i, o, x);
    }
  }

  // ----- locks_insert

  /** What is known of `ls` while the request `req` is being worked in: it has grown to `k`. */
  ghost predicate Working(ls0: seq<Lock>, ls: seq<Lock>, req: Lock, k: Lock, i: nat) {
    && Canonical(ls) && Others(ls, req.owner) == Others(ls0, req.owner) && SameOutside(ls0, ls, k)
    && InRange(k) && k == req.(start := k.start, end := k.end) && k.start <= req.start && req.end <= k.end
    && (forall x | k.start <= x <= k.end && !Covers(req, req.owner, x) :: TypeAt(ls0, req.owner, x) == req.typ)
    && i <= |ls| && (forall j | 0 <= j < i && ls[j].owner == req.owner :: Before(ls[j], k))
  }

  lemma {:induction false} PassOver(ls0: seq<Lock>, ls: seq<Lock>, req: Lock, k: Lock, i: nat)
    requires Working(ls0, ls, req, k, i) && i < |ls|
    requires ls[i].owner == req.owner ==> Before(ls[i], k)
    ensures Working(ls0, ls, req, k, i + 1)
  {
  }

  /** The request absorbs a touching lock of its own type. */
  lemma {:induction false} Absorb(ls0: seq<Lock>, ls: seq<Lock>, req: Lock, k: Lock, i: nat)
    requires Working(ls0, ls, req, k, i) && i < |ls|
    requires ls[i].owner == req.owner && ls[i].typ == req.typ
    requires k.start - 1 <= ls[i].end && ls[i].start - 1 <= k.end
    ensures var l := ls[i];
            var k' := k.(start := if l.start < k.start then l.start else k.start,
                         end := if k.end < l.end then l.end else k.end);
            Working(ls0, ls[..i] + ls[i + 1..], req, k', i)
  {
    var l := ls[i];
    var k' := k.(start := if l.start < k.start then l.start else k.start,
                 end := if k.end < l.end then l.end else k.end);
    var ls' := ls[..i] + ls[i + 1..];
    Deleted(ls, i, k');
    forall x | k'.start <= x <= k'.end && !Covers(req, req.owner, x)
      ensures TypeAt(ls0, req.owner, x) == req.typ
    {
      if !Covers(k, req.owner, x) { CoveredBy(ls, i, req.owner, x); }
    }
    forall j | 0 <= j < i && ls'[j].owner == req.owner
      ensures Before(ls'[j], k')
    {
      assert ls'[j] == ls[j] && Before(ls[j], l) && Before(ls[j], k);
    }
  }

  lemma {:induction false} Swallow(ls0: seq<Lock>, ls: seq<Lock>, req: Lock, k: Lock, i: nat)
    requires Working(ls0, ls, req, k, i) && i < |ls| && ls[i].owner == req.owner
    requires k.start <= ls[i].start && ls[i].end <= k.end
    ensures Working(ls0, ls[..i] + ls[i + 1..], req, k, i)
  {
    Deleted(ls, i, k);
    assert forall j | 0 <= j < i :: (ls[..i] + ls[i + 1..])[j] == ls[j];
  }

  lemma {:induction false} Trim(ls0: seq<Lock>, ls: seq<Lock>, req: Lock, k: Lock, i: nat, l': Lock)
    requires Working(ls0, ls, req, k, i) && i < |ls| && Shrinks(ls[i], l', k)
    ensures Working(ls0, ls[i := l'], req, k, i)
  {
    Trimmed(ls, i, l', k);
  }

  lemma {:induction false} Cut(ls0: seq<Lock>, ls: seq<Lock>, req: Lock, k: Lock, i: nat)
    requires Working(ls0, ls, req, k, i) && i < |ls| && ls[i].owner == req.owner && ls[i].typ != req.typ
    requires ls[i].start < k.start && k.end < ls[i].end
    ensures var ls' := ls[..i] + [ls[i].(end := k.start - 1)] + [ls[i].(start := k.end + 1)] + ls[i + 1..];
            Working(ls0, ls', req, k, i + 1)
  {
    Split(ls, i, k);
    var ls' := ls[..i] + [ls[i].(end := k.start - 1)] + [ls[i].(start := k.end + 1)] + ls[i + 1..];
    assert forall j | 0 <= j < i :: ls'[j] == ls[j];
  }

  /** Once a lock of the same owner lies beyond the request, so do all that follow. */
  lemma {:induction false} BeyondFits(ls0: seq<Lock>, ls: seq<Lock>, req: Lock, k: Lock, i: nat)
    requires Working(ls0, ls, req, k, i) && i < |ls| && ls[i].owner == req.owner && Before(k, ls[i])
    ensures FitsAt(ls, i, k)
  {
    forall j | i <= j < |ls| && ls[j].owner == k.owner
      ensures Before(k, ls[j])
    {
      if j > i { assert Before(ls[i], ls[j]); }
    }
  }

  /** The result of setting `req` in a list that meant `ls0`. */
  ghost predicate Applied(ls0: seq<Lock>, ls: seq<Lock>, req: Lock) {
    forall o, x :: TypeAt(ls, o, x) == if Covers(req, o, x) then req.typ else TypeAt(ls0, o, x)
  }

  lemma {:induction false} Finished(ls0: seq<Lock>, ls: seq<Lock>, req: Lock, k: Lock, i: nat)
    requires Working(ls0, ls, req, k, i) && FitsAt(ls, i, k)
    ensures req.typ != Un ==>
              var ls' := ls[..i] + [k] + ls[i..];
              Canonical(ls') && Applied(ls0, ls', req) && Others(ls', req.owner) == Others(ls0, req.owner)
    ensures req.typ == Un ==> Applied(ls0, ls, req)
  {
    if req.typ != Un {
      Inserted(ls, i, k);
    } else {
      forall o, x
        ensures TypeAt(ls, o, x) == if Covers(req, o, x) then Un else TypeAt(ls0, o, x)
      {
        if Covers(k, o, x) {
          forall j | 0 <= j < |ls| ensures !Covers(ls[j], o, x) {}
          NotCovered(ls, o, x);
        }
      }
    }
  }

  /** A lock of the same type already covers the whole request. */
  lemma {:induction false} AlreadyHeld(ls0: seq<Lock>, ls: seq<Lock>, req: Lock, k: Lock, i: nat)
    requires Working(ls0, ls, req, k, i) && i < |ls| && ls[i].owner == req.owner && ls[i].typ == req.typ
    requires ls[i].start <= k.start && k.end <= ls[i].end
    ensures Applied(ls0, ls, req)
  {
    forall o, x
      ensures TypeAt(ls, o, x) == if Covers(req, o, x) then req.typ else TypeAt(ls0, o, x)
    {
      if Covers(k, o, x) { CoveredBy(ls, i, o, x); }
    }
  }

  // ----- Who a lock is for

  /** `l` is what is left of `l0`, or a piece of it. */
  predicate Piece(l: Lock, l0: Lock) {
    l0.start <= l.start && l.end <= l0.end && l == l0.(start := l.start, end := l.end)
  }

  ghost predicate PieceOf(l: Lock, ls0: seq<Lock>) {
    exists l0 :: l0 in ls0 && Piece(l, l0)
  }

  /** All locks of owner `o` are pieces of earlier ones. */
  ghost predicate Pieces(ls: seq<Lock>, ls0: seq<Lock>, o: nat) {
    forall l | l in ls && l.owner == o :: PieceOf(l, ls0)
  }

  lemma PiecesStart(ls: seq<Lock>, o: nat)
    ensures Pieces(ls, ls, o)
  {
    forall l | l in ls ensures PieceOf(l, ls) { assert Piece(l, l); }
  }

  /** A lock gives way to pieces of itself. */
  lemma PiecesSplice(ls: seq<Lock>, ls0: seq<Lock>, o: nat, i: nat, m: seq<Lock>)
    requires Pieces(ls, ls0, o) && i < |ls| && ls[i].owner == o && forall l | l in m :: Piece(l, ls[i])
    ensures Pieces(ls[..i] + m + ls[i + 1..], ls0, o)
  {
    assert PieceOf(ls[i], ls0);
    var l0 :| l0 in ls0 && Piece(ls[i], l0);
    forall l | l in ls[..i] + m + ls[i + 1..] && l.owner == o
      ensures PieceOf(l, ls0)
    {
      if l in m { assert Piece(l, l0); } else { assert l in ls; }
    }
  }

  lemma PiecesTrim(ls: seq<Lock>, ls0: seq<Lock>, o: nat, i: nat, l: Lock)
    requires Pieces(ls, ls0, o) && i < |ls| && ls[i].owner == o && Piece(l, ls[i])
    ensures Pieces(ls[i := l], ls0, o)
  {
    PiecesSplice(ls, ls0, o, i, [l]);
    assert ls[i := l] == ls[..i] + [l] + ls[i + 1..];
  }

  lemma PiecesCut(ls: seq<Lock>, ls0: seq<Lock>, o: nat, i: nat, a: Lock, b: Lock)
    requires Pieces(ls, ls0, o) && i < |ls| && ls[i].owner == o && Piece(a, ls[i]) && Piece(b, ls[i])
    ensures Pieces(ls[..i] + [a] + [b] + ls[i + 1..], ls0, o)
  {
    PiecesSplice(ls, ls0, o, i, [a, b]);
    assert ls[..i] + [a] + [b] + ls[i + 1..] == ls[..i] + [a, b] + ls[i + 1..];
  }

  lemma PiecesDrop(ls: seq<Lock>, ls0: seq<Lock>, o: nat, i: nat)
    requires Pieces(ls, ls0, o) && i < |ls|
    ensures Pieces(ls[..i] + ls[i + 1..], ls0, o)
  {
    assert forall l | l in ls[..i] + ls[i + 1..] :: l in ls;
  }

  /** `l` holds all of the request. */
  predicate Spans(l: Lock, req: Lock) {
    l.owner == req.owner && l.typ == req.typ && l.start <= req.start && req.end <= l.end
  }

  ghost predicate SpannedBy(ls: seq<Lock>, req: Lock, pid: int) {
    exists l :: l in ls && Spans(l, req) && l.pid == pid
  }

  /**
   The owner's locks are pieces of earlier ones, but for the request, grown over what it absorbed.
   The process of the request is that of the lock around it, unless there was such a lock before.
   */
  ghost predicate PidsKept(ls0: seq<Lock>, ls: seq<Lock>, req: Lock) {
    && (forall l | l in ls && l.owner == req.owner :: PieceOf(l, ls0) || (Piece(req, l) && req.typ != Un))
    && (req.typ != Un ==>
          SpannedBy(ls, req, req.pid) || exists pid :: SpannedBy(ls, req, pid) && SpannedBy(ls0, req, pid))
  }

  lemma PidInserted(ls0: seq<Lock>, ls: seq<Lock>, req: Lock, k: Lock, i: nat)
    requires Pieces(ls, ls0, req.owner) && i <= |ls| && Piece(req, k)
    ensures PidsKept(ls0, if k.typ != Un then ls[..i] + [k] + ls[i..] else ls, req)
  {
    if k.typ != Un {
      var ls' := ls[..i] + [k] + ls[i..];
      assert forall l | l in ls' :: l == k || l in ls;
      assert k in ls' && Spans(k, req);
    }
  }

  lemma PidAlready(ls0: seq<Lock>, ls: seq<Lock>, req: Lock, k: Lock, i: nat)
    requires Pieces(ls, ls0, req.owner) && i < |ls| && ls[i].owner == req.owner && ls[i].typ == req.typ
    requires Piece(req, k) && ls[i].start <= k.start && k.end <= ls[i].end
    ensures PidsKept(ls0, ls, req)
  {
    assert PieceOf(ls[i], ls0);
    var l0 :| l0 in ls0 && Piece(ls[i], l0);
    assert Spans(l0, req) && Spans(ls[i], req);
    assert SpannedBy(ls0, req, ls[i].pid) && SpannedBy(ls, req, ls[i].pid);
  }

  // ----- Going through the list

  /** What happens to a lock that is met. */
  datatype Fate = Skip | Delete | Stop | Out

  predicate Allocates(req: Lock) {
    req.typ != Un || req.start != 0 || req.end != OFFSET_MAX
  }

  /** The second cell has been used only for the lock that is next, and that lies beyond the request. */
  predicate SpareOk(ls: seq<Lock>, req: Lock, k: Lock, i: nat, spare2: bool) {
    && (Allocates(req) && !spare2 ==>
          i < |ls| && ls[i].owner == req.owner && ls[i].typ != req.typ && k.end < ls[i].start)
    && (!Allocates(req) ==> !spare2)
  }

  ghost predicate Going(ls0: seq<Lock>, ls: seq<Lock>, req: Lock, k: Lock, i: nat) {
    Working(ls0, ls, req, k, i) && Pieces(ls, ls0, req.owner)
  }

  ghost predicate Fated(ls0: seq<Lock>, ls: seq<Lock>, req: Lock, k: Lock, i: nat, fate: Fate) {
    && i < |ls|
    && match fate
       case Skip => Going(ls0, ls, req, k, i + 1)
       case Delete => Going(ls0, ls[..i] + ls[i + 1..], req, k, i)
       case Stop => Going(ls0, ls, req, k, i) && FitsAt(ls, i, k)
       case Out => Done(ls0, ls, req)
  }

  /** The list is what the request asks for; other owners' locks and what is left of the owner's are as before. */
  ghost predicate Done(ls0: seq<Lock>, ls: seq<Lock>, req: Lock) {
    && Canonical(ls) && Applied(ls0, ls, req) && PidsKept(ls0, ls, req)
    && Others(ls, req.owner) == Others(ls0, req.owner)
  }

  lemma Started(ls: seq<Lock>, req: Lock)
    requires Canonical(ls) && InRange(req)
    ensures Going(ls, ls, req, req, 0) && SpareOk(ls, req, req, 0, Allocates(req))
  {
    PiecesStart(ls, req.owner);
  }

  lemma Passed(ls0: seq<Lock>, ls: seq<Lock>, req: Lock, k: Lock, i: nat, spare2: bool)
    requires Going(ls0, ls, req, k, i) && i < |ls| && ls[i].owner != req.owner && SpareOk(ls, req, k, i, spare2)
    ensures Fated(ls0, ls, req, k, i, Skip) && SpareOk(ls, req, k, i + 1, spare2)
  {
    PassOver(ls0, ls, req, k, i);
  }

  /** What is left to do at the place where the request fits, or at the end. */
  lemma Ended(ls0: seq<Lock>, ls: seq<Lock>, req: Lock, k: Lock, i: nat)
    requires Going(ls0, ls, req, k, i) && (i == |ls| || FitsAt(ls, i, k))
    ensures Done(ls0, if k.typ != Un then ls[..i] + [k] + ls[i..] else ls, req)
  {
    Finished(ls0, ls, req, k, i);
    PidInserted(ls0, ls, req, k, i);
  }

  class LockList {
    var locks: seq<Lock>

    ghost predicate Valid()
      reads this
    {
      Canonical(locks)
    }

    constructor ()
      ensures Valid() && locks == []
    {
      locks := [];
    }

    /**
     locks_insert.  Of the two spare cells one serves the split and one the insertion;
     they are not allocated when the whole range is unlocked, and then not needed.
     */
    method Insert(req: Lock)
      requires Valid() && InRange(req)
      modifies this
      ensures Valid() && Done(old(locks), locks, req)
    {
      var k := req;
      Started(locks, req);
      var spare1 := Allocates(req);
      var spare2 := spare1;
      var i := 0;
      while i < |locks|
        invariant Going(old(locks), locks, req, k, i) && SpareOk(locks, req, k, i, spare2)
        decreases |locks| - i, if spare2 then 1 else 0
      {
        var fate := Skip;
        if locks[i].owner != k.owner {
          Passed(old(locks), locks, req, k, i, spare2);
        } else if k.typ == locks[i].typ {
          k, fate := MeetSame(k, i, old(locks), req);
        } else {
          fate, spare2 := MeetOther(k, i, spare2, old(locks), req);
        }
        match fate
        case Skip => i := i + 1;
        case Delete => locks := locks[..i] + locks[i + 1..];
        case Stop => break;
        case Out => return;
      }
      Ended(old(locks), locks, req, k, i);
      if k.typ != Un {
        assert spare1;
        locks := locks[..i] + [k] + locks[i..];
      }
    }

    /** A lock of the same owner and type: passed over, beyond the request, around it, or absorbed. */
    method MeetSame(k: Lock, i: nat, ghost ls0: seq<Lock>, ghost req: Lock) returns (k': Lock, fate: Fate)
      requires Going(ls0, locks, req, k, i) && i < |locks|
      requires locks[i].owner == req.owner && locks[i].typ == req.typ
      ensures Fated(ls0, locks, req, k', i, fate)
    {
      var l := locks[i];
      k' := k;
      assert -1 <= k.start - 1 && -1 <= l.start - 1;
      if l.end < k.start - 1 {
        PassOver(ls0, locks, req, k, i);
        return k, Skip;
      }
      if k.end < l.start - 1 {
        BeyondFits(ls0, locks, req, k, i);
        return k, Stop;
      }
      if l.start <= k.start && k.end <= l.end {
        AlreadyHeld(ls0, locks, req, k, i);
        PidAlready(ls0, locks, req, k, i);
        return k, Out;
      }
      Absorb(ls0, locks, req, k, i);
      PiecesDrop(locks, ls0, req.owner, i);
      if l.start < k.start { k' := k'.(start := l.start); }
      if k.end < l.end { k' := k'.(end := l.end); }
      fate := Delete;
    }

    /** A lock of the same owner and another type: passed over, beyond the request, within it, cut short or split. */
    method MeetOther(k: Lock, i: nat, spare2: bool, ghost ls0: seq<Lock>, ghost req: Lock)
        returns (fate: Fate, left: bool)
      requires Going(ls0, locks, req, k, i) && i < |locks| && SpareOk(locks, req, k, i, spare2)
      requires locks[i].owner == req.owner && locks[i].typ != req.typ
      modifies this
      ensures Fated(ls0, locks, req, k, i, fate)
      ensures fate == Skip ==> SpareOk(locks, req, k, i + 1, left)
      ensures fate == Delete ==> SpareOk(locks[..i] + locks[i + 1..], req, k, i, left)
      ensures if left == spare2 then |locks| == |old(locks)| else !left && |locks| == |old(locks)| + 1
    {
      var l := locks[i];
      left := spare2;
      if l.end < k.start {
        PassOver(ls0, locks, req, k, i);
        return Skip, left;
      }
      if k.end < l.start {
        BeyondFits(ls0, locks, req, k, i);
        return Stop, left;
      }
      if k.start <= l.start && l.end <= k.end {
        Swallow(ls0, locks, req, k, i);
        PiecesDrop(locks, ls0, req.owner, i);
        return Delete, left;
      }
      if l.end <= k.end {
        CutShort(k, i, l.(end := k.start - 1), ls0, req);
        PassOver(ls0, locks, req, k, i);
        return Skip, left;
      }
      assert k.end + 1 <= OFFSET_MAX;
      if k.start <= l.start {
        CutShort(k, i, l.(start := k.end + 1), ls0, req);
        BeyondFits(ls0, locks, req, k, i);
        return Stop, left;
      }
      assert spare2;
      Cut(ls0, locks, req, k, i);
      PiecesCut(locks, ls0, req.owner, i, l.(end := k.start - 1), l.(start := k.end + 1));
      locks := locks[..i] + [l.(end := k.start - 1)] + [l.(start := k.end + 1)] + locks[i + 1..];
      return Skip, false;
    }

    method CutShort(k: Lock, i: nat, l: Lock, ghost ls0: seq<Lock>, ghost req: Lock)
      requires Going(ls0, locks, req, k, i) && i < |locks| && locks[i].owner == req.owner
      requires Shrinks(locks[i], l, k) && Piece(l, locks[i])
      modifies this
      ensures Going(ls0, locks, req, k, i) && locks == old(locks)[i := l]
    {
      Trim(ls0, locks, req, k, i, l);
      PiecesTrim(locks, ls0, req.owner, i, l);
      locks := locks[i := l];
    }

    /** locks_conflict: the first lock that has a byte in conflict, if and only if there is such a byte. */
    method Conflict(req: Lock) returns (r: Option<Lock>)
      requires Valid() && InRange(req)
      ensures r.Some? <==> exists o, x :: InConflict(locks, req, o, x)
      ensures r.Some? ==> exists i :: FirstInTheWay(locks, req, i) && locks[i] == r.value
    {
      var i := 0;
      while i < |locks|
        invariant i <= |locks|
        invariant forall j | 0 <= j < i :: !ConflictsWith(locks[j], req)
      {
        var l := locks[i];
        if l.owner != req.owner && req.start <= l.end && l.start <= req.end && (l.typ == Wr || req.typ == Wr) {
          var x := if req.start < l.start then l.start else req.start;
          CoveredBy(locks, i, l.owner, x);
          assert InConflict(locks, req, l.owner, x);
          forall j | 0 <= j < i
            ensures !InTheWay(locks, req, locks[j])
          {
            NotInTheWay(locks, req, j);
          }
          assert FirstInTheWay(locks, req, i);
          return Some(l);
        }
        i := i + 1;
      }
      forall o, x
        ensures !InConflict(locks, req, o, x)
      {
        NoConflict(locks, req, o, x);
      }
      return None;
    }
  }

  /** A byte of the lock is in conflict with the request. */
  ghost predicate InTheWay(ls: seq<Lock>, req: Lock, l: Lock) {
    exists x :: Covers(l, l.owner, x) && InConflict(ls, req, l.owner, x)
  }

  ghost predicate FirstInTheWay(ls: seq<Lock>, req: Lock, i: int) {
    0 <= i < |ls| && InTheWay(ls, req, ls[i]) && forall j | 0 <= j < i :: !InTheWay(ls, req, ls[j])
  }

  lemma NotInTheWay(ls: seq<Lock>, req: Lock, j: nat)
    requires Canonical(ls) && j < |ls| && !ConflictsWith(ls[j], req)
    ensures !InTheWay(ls, req, ls[j])
  {
    forall x | Covers(ls[j], ls[j].owner, x)
      ensures !InConflict(ls, req, ls[j].owner, x)
    {
      CoveredBy(ls, j, ls[j].owner, x);
    }
  }

  /** Another owner's lock on byte `x` of the request rules it out: one of the two is for writing. */
  ghost predicate InConflict(ls: seq<Lock>, req: Lock, o: nat, x: int) {
    && o != req.owner && req.start <= x <= req.end
    && TypeAt(ls, o, x) != Un && (TypeAt(ls, o, x) == Wr || req.typ == Wr)
  }

  predicate ConflictsWith(l: Lock, req: Lock) {
    l.owner != req.owner && req.start <= l.end && l.start <= req.end && (l.typ == Wr || req.typ == Wr)
  }

  lemma {:induction false} NoConflict(ls: seq<Lock>, req: Lock, o: nat, x: int)
    requires forall j | 0 <= j < |ls| :: !ConflictsWith(ls[j], req)
    ensures !InConflict(ls, req, o, x)
    decreases |ls|
  {
    if ls != [] && !Covers(ls[0], o, x) {
      assert forall j | 0 <= j < |ls[1..]| :: ls[1..][j] == ls[j + 1];
      NoConflict(ls[1..], req, o, x);
    }
  }

  // ----- The canonical list is determined by its meaning

  function Own(ls: seq<Lock>, o: nat): seq<Lock> {
    if ls == [] then []
    else if ls[0].owner == o then [ls[0]] + Own(ls[1..], o) else Own(ls[1..], o)
  }

  lemma {:induction false} OwnIs(ls: seq<Lock>, o: nat)
    requires Canonical(ls)
    ensures Canonical(Own(ls, o)) && forall i | 0 <= i < |Own(ls, o)| :: Own(ls, o)[i].owner == o && Own(ls, o)[i] in ls
    ensures forall x :: TypeAt(Own(ls, o), o, x) == TypeAt(ls, o, x)
    decreases |ls|
  {
    if ls != [] {
      assert forall j | 0 <= j < |ls[1..]| :: ls[1..][j] == ls[j + 1];
      OwnIs(ls[1..], o);
      var rest := Own(ls[1..], o);
      if ls[0].owner == o {
        forall j | 0 <= j < |rest|
          ensures Before(ls[0], rest[j])
        {
          var m :| 0 <= m < |ls[1..]| && ls[1..][m] == rest[j];
          assert ls[m + 1] == rest[j];
        }
        assert Own(ls, o)[1..] == rest;
      }
    }
  }

  predicate SameIntervals(a: seq<Lock>, b: seq<Lock>) {
    |a| == |b| && forall i | 0 <= i < |a| :: a[i].typ == b[i].typ && a[i].start == b[i].start && a[i].end == b[i].end
  }

  /** Two canonical lists that lock the same bytes the same way consist of the same intervals. */
  lemma {:induction false} CanonicalIsUnique(a: seq<Lock>, b: seq<Lock>, o: nat)
    requires Canonical(a) && Canonical(b) && forall x :: TypeAt(a, o, x) == TypeAt(b, o, x)
    ensures SameIntervals(Own(a, o), Own(b, o))
  {
    OwnIs(a, o);
    OwnIs(b, o);
    UniqueOwn(Own(a, o), Own(b, o), o);
  }

  lemma {:induction false} UniqueOwn(a: seq<Lock>, b: seq<Lock>, o: nat)
    requires Canonical(a) && Canonical(b) && forall x :: TypeAt(a, o, x) == TypeAt(b, o, x)
    requires forall i | 0 <= i < |a| :: a[i].owner == o
    requires forall i | 0 <= i < |b| :: b[i].owner == o
    ensures SameIntervals(a, b)
    decreases |a|
  {
    if a == [] {
      if b != [] { CoveredBy(b, 0, o, b[0].start); }
    } else if b == [] {
      CoveredBy(a, 0, o, a[0].start);
    } else {
      SameHead(a, b, o);
      forall x
        ensures TypeAt(a[1..], o, x) == TypeAt(b[1..], o, x)
      {
        Tail(a, o, x);
        Tail(b, o, x);
      }
      assert forall j | 0 <= j < |a[1..]| :: a[1..][j] == a[j + 1];
      assert forall j | 0 <= j < |b[1..]| :: b[1..][j] == b[j + 1];
      UniqueOwn(a[1..], b[1..], o);
    }
  }

  lemma {:induction false} Tail(a: seq<Lock>, o: nat, x: int)
    requires Canonical(a) && a != [] && forall i | 0 <= i < |a| :: a[i].owner == o
    ensures TypeAt(a[1..], o, x) == if Covers(a[0], o, x) then Un else TypeAt(a, o, x)
  {
    Around(a, 0, o, x);
    assert a[..0] + a[1..] == a[1..];
  }

  lemma {:induction false} SameHead(a: seq<Lock>, b: seq<Lock>, o: nat)
    requires Canonical(a) && Canonical(b) && a != [] && b != [] && forall x :: TypeAt(a, o, x) == TypeAt(b, o, x)
    requires forall i | 0 <= i < |a| :: a[i].owner == o
    requires forall i | 0 <= i < |b| :: b[i].owner == o
    ensures a[0].typ == b[0].typ && a[0].start == b[0].start && a[0].end == b[0].end
  {
    HeadNoLater(a, b, o);
    HeadNoLater(b, a, o);
    CoveredBy(a, 0, o, a[0].start);
    CoveredBy(b, 0, o, b[0].start);
    HeadNoLonger(a, b, o);
    HeadNoLonger(b, a, o);
  }

  lemma {:induction false} HeadNoLater(a: seq<Lock>, b: seq<Lock>, o: nat)
    requires Canonical(a) && Canonical(b) && a != [] && b != [] && forall x :: TypeAt(a, o, x) == TypeAt(b, o, x)
    requires a[0].owner == o && forall i | 0 <= i < |b| :: b[i].owner == o
    ensures b[0].start <= a[0].start
  {
    var x := a[0].start;
    CoveredBy(a, 0, o, x);
    if x < b[0].start {
      forall i | 0 <= i < |b| ensures !Covers(b[i], o, x) { if i > 0 { assert Before(b[0], b[i]); } }
      NotCovered(b, o, x);
    }
  }

  lemma {:induction false} HeadNoLonger(a: seq<Lock>, b: seq<Lock>, o: nat)
    requires Canonical(a) && Canonical(b) && a != [] && b != [] && forall x :: TypeAt(a, o, x) == TypeAt(b, o, x)
    requires forall i | 0 <= i < |a| :: a[i].owner == o
    requires b[0].owner == o && a[0].start == b[0].start && a[0].typ == b[0].typ
    ensures b[0].end <= a[0].end
  {
    var x := a[0].end + 1;
    if x <= b[0].end {
      CoveredBy(b, 0, o, x);
      if exists i :: 0 <= i < |a| && Covers(a[i], o, x) {
        var i :| 0 <= i < |a| && Covers(a[i], o, x);
        assert i == 0 || Before(a[0], a[i]);
        CoveredBy(a, i, o, x);
      } else {
        NotCovered(a, o, x);
      }
    }
  }

  // ----- Any number of requests

  /** The type set by the last request that covers the byte. */
  function LastType(reqs: seq<Lock>, o: nat, x: int): LockType {
    if reqs == [] then Un
    else if Covers(reqs[|reqs| - 1], o, x) then reqs[|reqs| - 1].typ
    else LastType(reqs[..|reqs| - 1], o, x)
  }

  /** After any requests, in any order, each byte has the type last asked for. */
  method InsertAll(list: LockList, reqs: seq<Lock>)
    requires list.locks == [] && forall r | r in reqs :: InRange(r)
    modifies list
    ensures list.Valid() && forall o, x :: TypeAt(list.locks, o, x) == LastType(reqs, o, x)
  {
    for k := 0 to |reqs|
      invariant list.Valid() && forall o, x :: TypeAt(list.locks, o, x) == LastType(reqs[..k], o, x)
    {
      assert reqs[k] in reqs;
      ghost var before := list.locks;
      list.Insert(reqs[k]);
      forall o, x
        ensures TypeAt(list.locks, o, x) == LastType(reqs[..k + 1], o, x)
      {
        assert reqs[..k + 1][..k] == reqs[..k];
        assert TypeAt(before, o, x) == LastType(reqs[..k], o, x);
      }
    }
    assert reqs[..|reqs|] == reqs;
  }
}
