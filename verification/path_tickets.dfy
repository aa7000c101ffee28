/**
 The tickets that order waiting operations.  An operation that has to wait leaves its ticket
 on nodes, and a node with a ticket admits no other operation.  That is meant to last until
 the operation has been granted its paths; this module proves when it does.
 */
module PathTickets {
  import opened Wrappers
  import opened NodeTree
  import opened PathLocks
  import opened PathLockRuns

  // ----- What a ticket does

  /** A ticket reserves its node: an operation with another ticket can neither lock it nor take the ticket off. */
  lemma TicketReserves(t: Tree, r: Request, c: seq<Ino>, ticket: int, n: Ino)
    requires IsChain(t, r.dir, c) && ticket != 0 && n in t && t[n].ticket != 0 && t[n].ticket != ticket
    ensures var (t', o) := Try(t, r, c, ticket);
            && n in t' && t'[n].ticket == t[n].ticket && t'[n].treelock == t[n].treelock
            && (n in c && n != ROOT ==> !o.Granted?) && (o.Granted? ==> o.w != Some(n))
  {
    var (t', o) := Try(t, r, c, ticket);
    ChainIn(t, r.dir, c);
    var w := Target(t, r);
    if !(w.Some? && WriteBlocked(t[w.value], ticket)) {
      var t1 := WriteLock(t, w);
      var k := StopAt(t1, c, ticket, 0);
      assert forall j | 0 <= j < k :: !Blocked(t1[c[j]], ticket);
      assert n !in c[..k];
      if c[k] == ROOT { LastRoot(t, r.dir, c, k); }
    }
  }

  /** The abandoned ticket stays until an operation with the same number comes along. */
  lemma AbandonedStays(s: State, ev: Event, n: Ino, ticket: int)
    requires Enabled(s, ev) && Defined(s, ev)
    requires ticket != 0 && n in s.t && s.t[n].ticket == ticket
    requires forall i | 0 <= i < |s.queue| :: s.queue[i].ticket != ticket
    requires ev.Begin? ==> ev.op.ticket != ticket
    ensures var s' := Next(s, ev);
            && (n in s'.t ==> s'.t[n].ticket == ticket)
            && forall i | 0 <= i < |s'.queue| :: s'.queue[i].ticket != ticket
  {
    match ev
    case Begin(op) => AcquireStays(s, ev, op, n);
    case Retry(i) => AcquireStays(s, ev, s.queue[i], n);
    case Free(_) =>
    case RemoveNode(i) =>
    case RenameNode(i, j) =>
      MoveTicket(s, i, n, Target(s.t, s.holds[j].req), s.holds[j].req.dir, s.holds[j].req.name.value);
    case HideNode(i, hidden) => MoveTicket(s, i, n, None, s.holds[i].req.dir, hidden);
    case FindNode(i, id) => FindTicket(s.t, s.holds[i].req.dir, s.holds[i].req.name, id, n);
    case ForgetNode(m, k) => ForgetTicket(s.t, m, k, n);
    case DotHold(_) =>
    case DotDrop(_) =>
  }

  lemma AcquireStays(s: State, ev: Event, op: Op, n: Ino)
    requires Enabled(s, ev) && Defined(s, ev) && n in s.t && s.t[n].ticket != 0
    requires ev == Begin(op) || (ev.Retry? && s.queue[ev.i] == op)
    requires op.ticket != s.t[n].ticket
    requires forall i | 0 <= i < |s.queue| :: s.queue[i].ticket != s.t[n].ticket
    ensures var s' := Next(s, ev);
            && n in s'.t && s'.t[n].ticket == s.t[n].ticket
            && forall i | 0 <= i < |s'.queue| :: s'.queue[i].ticket != s.t[n].ticket
  {
    AcquireReserved(s.t, op, n);
    AcquireQueue(s, ev, op);
    var s' := Next(s, ev);
    forall i | 0 <= i < |s'.queue|
      ensures s'.queue[i].ticket != s.t[n].ticket
    {
      assert s'.queue[i] in s'.queue;
    }
  }

  /** An attempt leaves nothing new in the queue but itself. */
  lemma AcquireQueue(s: State, ev: Event, op: Op)
    requires Enabled(s, ev) && Defined(s, ev) && (ev == Begin(op) || (ev.Retry? && s.queue[ev.i] == op))
    ensures Walkable(s.t, op) && Next(s, ev).t == Acquire(s.t, op).0
    ensures forall q | q in Next(s, ev).queue :: q in s.queue || q == op
  {
    match ev
    case Begin(_) =>
    case Retry(i) => assert forall q | q in s.queue[..i] + s.queue[i + 1..] :: q in s.queue;
  }

  lemma FindTicket(t: Tree, dir: Ino, name: Option<string>, id: Ino, n: Ino)
    requires dir in t && n in t && id !in t
    ensures n in Find(t, dir, name, id) && Find(t, dir, name, id)[n].ticket == t[n].ticket
  {
  }

  lemma ForgetTicket(t: Tree, m: Ino, k: nat, n: Ino)
    requires ParentIn(t, m) && k <= t[m].nlookup && (t[m].link.Some? ==> t[m].link.value.parent != m) && n in t
    ensures n in Forget(t, m, k) ==> Forget(t, m, k)[n].ticket == t[n].ticket
  {
  }

  lemma AcquireReserved(t: Tree, op: Op, n: Ino)
    requires Walkable(t, op) && op.ticket != 0 && n in t && t[n].ticket != 0 && t[n].ticket != op.ticket
    ensures n in Acquire(t, op).0 && Acquire(t, op).0[n].ticket == t[n].ticket
  {
    var c := ChainOf(t, op.first.dir);
    TicketReserves(t, op.first, c, op.ticket, n);
    var (t1, o) := Try(t, op.first, c, op.ticket);
    if o.Granted? && op.second.Some? {
      TryShape(t, op.first, c, op.ticket);
      SameLinks(t, t1);
      TicketReserves(t1, op.second.value, ChainOf(t, op.second.value.dir), op.ticket, n);
    }
  }

  lemma MoveTicket(s: State, i: nat, n: Ino, over: Option<Ino>, dir: Ino, name: string)
    requires ActsOnOwn(s, i) && n in s.t && (over.Some? ==> ParentIn(s.t, over.value))
    requires Target(s.t, s.holds[i].req).Some? ==> ParentIn(s.t, Target(s.t, s.holds[i].req).value)
    ensures Target(s.t, s.holds[i].req).Some? ==>
              var t' := Move(s.t, Target(s.t, s.holds[i].req).value, over, dir, name);
              n in t' ==> t'[n].ticket == s.t[n].ticket
  {
    if Target(s.t, s.holds[i].req).Some? {
      var m := Target(s.t, s.holds[i].req).value;
      var t1 := if over.Some? then Unhash(s.t, over.value) else s.t;
      if over.Some? { UnhashTicket(s.t, over.value, n); }
      if n in t1 && ParentIn(t1, m) { UnhashTicket(t1, m, n); }
    }
  }

  lemma UnhashTicket(t: Tree, m: Ino, n: Ino)
    requires ParentIn(t, m) && n in t
    ensures n in Unhash(t, m) ==> Unhash(t, m)[n].ticket == t[n].ticket
    ensures Unhash(t, m).Keys <= t.Keys
  {
  }

  // ----- What an attempt does to the tickets

  /** The nodes an attempt locks on its way: the walk without its end, and the named node. */
  ghost function Way(t: Tree, r: Request, c: seq<Ino>): seq<Ino>
    requires c != []
  {
    c[..|c| - 1] + OptSeq(Target(t, r))
  }

  /** Nothing stands in the way of a request. */
  ghost predicate Open(t: Tree, r: Request, c: seq<Ino>, ticket: int)
    requires IsChain(t, r.dir, c)
  {
    ChainIn(t, r.dir, c);
    && (Target(t, r).Some? ==> !WriteBlocked(t[Target(t, r).value], ticket))
    && forall n | n in c[..|c| - 1] :: !Blocked(t[n], ticket)
  }

  /** The walk ends at the root, not at an unlinked node. */
  predicate Linked(c: seq<Ino>) {
    c != [] && c[|c| - 1] == ROOT
  }

  /** Nothing stands in a path's way: nobody changes what is on it, nobody uses what it is to change,
    nothing is reserved. */
  ghost predicate Clear(s: State, r: Request, c: seq<Ino>, ticket: int)
    requires IsChain(s.t, r.dir, c)
  {
    ChainIn(s.t, r.dir, c);
    && (forall n | n in c[..|c| - 1] ::
          s.t[n].ticket in {0, ticket} && forall h | h in s.holds :: h.w != Some(n))
    && (r.wr && r.name.Some? ==>
          var w := Lookup(s.t, r.dir, r.name.value);
          w.Some? ==> s.t[w.value].ticket in {0, ticket} && forall h | h in s.holds :: h.w != w && w.value !in h.chain)
  }

  lemma ClearIff(s: State, r: Request, c: seq<Ino>, ticket: int)
    requires Inv(s) && IsChain(s.t, r.dir, c) && ticket != 0
    ensures Open(s.t, r, c, ticket) <==> Clear(s, r, c, ticket)
  {
    ChainIn(s.t, r.dir, c);
    forall n | n in c[..|c| - 1]
      ensures Blocked(s.t[n], ticket) <==>
              !(s.t[n].ticket in {0, ticket} && forall h | h in s.holds :: h.w != Some(n))
    {
      UsersIff(s, n);
    }
    var w := Target(s.t, r);
    if w.Some? {
      TargetOffChain(s.t, r, c);
      UsersIff(s, w.value);
    }
  }

  /** The treelock of a node tells whether a held path changes it, or passes through it. */
  lemma UsersIff(s: State, n: Ino)
    requires Inv(s) && n in s.t && n != ROOT
    ensures s.t[n].treelock == -1 <==> exists h :: h in s.holds && h.w == Some(n)
    ensures s.t[n].treelock != 0 <==> exists h :: h in s.holds && (h.w == Some(n) || n in h.chain)
  {
    assert LockOk(s.t[n].treelock, Readers(s.holds, n), Writers(s.holds, n));
    CountIff(s.holds, n);
  }

  lemma {:induction false} CountIff(hs: seq<Hold>, n: Ino)
    ensures Writers(hs, n) > 0 <==> exists h :: h in hs && h.w == Some(n)
    ensures Readers(hs, n) > 0 <==> exists h :: h in hs && n in h.chain
    decreases |hs|
  {
    if hs != [] {
      var init, last := hs[..|hs| - 1], hs[|hs| - 1];
      CountIff(init, n);
      assert hs == init + [last];
      assert forall h :: h in hs <==> h in init || h == last;
    }
  }

  /** In every run a single path is granted exactly when its way is clear and leads to the root. */
  lemma GrantedIff(run: seq<State>, evs: seq<Event>, k: nat, op: Op)
    requires IsRun(run, evs) && k < |evs| && op.second.None?
    requires evs[k] == Begin(op) || (evs[k].Retry? && evs[k].i < |run[k].queue| && run[k].queue[evs[k].i] == op)
    ensures HasChain(run[k].t, op.first.dir)
    ensures var s, c := run[k], ChainOf(run[k].t, op.first.dir);
            |run[k + 1].holds| > |s.holds| <==> Clear(s, op.first, c, op.ticket) && c[|c| - 1] == ROOT
  {
    assert Steps(run[k], evs[k], run[k + 1]);
    RunInv(run, evs, k);
    var s := run[k];
    var c := ChainOf(s.t, op.first.dir);
    ClearIff(s, op.first, c, op.ticket);
    TryIs(s.t, op.first, c, op.ticket);
    AcquireFields(s, evs[k], op);
    OnePath(s.t, op);
  }

  lemma OnePath(t: Tree, op: Op)
    requires Walkable(t, op) && op.second.None?
    ensures var r, o := Acquire(t, op).1, Try(t, op.first, ChainOf(t, op.first.dir), op.ticket).1;
            (r.Held? <==> o.Granted?) && (r.Held? ==> |r.holds| == 1)
  {
  }

  /** The tickets after an attempt whose way was `way`: taken off, left on, or as they were. */
  ghost predicate Ticketed(t: Tree, t': Tree, way: seq<Ino>, ticket: int) {
    && t'.Keys == t.Keys
    && forall n | n in t :: t'[n].ticket == if n in way then ticket else t[n].ticket
  }

  /** The outcome of one attempt, and its tickets, from the tree before it. */
  lemma TryIs(t: Tree, r: Request, c: seq<Ino>, ticket: int)
    requires IsChain(t, r.dir, c) && ticket != 0 && LinksOk(t)
    ensures var (t', o) := Try(t, r, c, ticket);
            && (o.Granted? <==> Open(t, r, c, ticket) && Linked(c))
            && (o.NoEnt? <==> Open(t, r, c, ticket) && !Linked(c))
            && (o.Granted? ==> Ticketed(t, t', Way(t, r, c), 0))
            && (o.NoEnt? ==> Ticketed(t, t', Way(t, r, c), ticket))
  {
    ChainIn(t, r.dir, c);
    var w := Target(t, r);
    if w.Some? { TargetOffChain(t, r, c); }
    if !(w.Some? && WriteBlocked(t[w.value], ticket)) {
      var t1 := WriteLock(t, w);
      var k := StopAt(t1, c, ticket, 0);
      assert forall n | n in c :: t1[n] == t[n];
      if k == |c| - 1 {
        assert forall n | n in c[..k] :: !Blocked(t[n], ticket);
      } else {
        assert c[k] in c[..|c| - 1] && Blocked(t[c[k]], ticket);
      }
    }
  }

  /** The same for the second path of an operation, on the tree before the first was locked. */
  ghost predicate OpenSecond(t: Tree, op: Op)
    requires Walkable(t, op) && op.second.Some?
  {
    var way1 := Way(t, op.first, ChainOf(t, op.first.dir));
    var r2, c2 := op.second.value, ChainOf(t, op.second.value.dir);
    && Open(t, r2, c2, op.ticket)
    && (Target(t, r2).Some? ==> Target(t, r2).value !in way1)
    && (Target(t, op.first).Some? ==> Target(t, op.first).value !in c2[..|c2| - 1])
  }

  lemma TargetSame(t: Tree, t': Tree, r: Request)
    requires SameShape(t, t') && KeysUnique(t)
    ensures Target(t', r) == Target(t, r)
  {
  }

  /** With the first path locked, the second is open exactly when it was before and they do not collide. */
  lemma OpenAfterFirst(t: Tree, op: Op, t1: Tree)
    requires LinksOk(t) && KeysUnique(t) && Walkable(t, op) && op.second.Some? && op.ticket != 0
    requires forall n | n in t && n != ROOT :: t[n].treelock >= -1
    requires var c1 := ChainOf(t, op.first.dir);
             && Open(t, op.first, c1, op.ticket) && Linked(c1)
             && Takes(t, t1, c1, Target(t, op.first)) && Ticketed(t, t1, Way(t, op.first, c1), 0)
    ensures var r2, c2 := op.second.value, ChainOf(t, op.second.value.dir);
            && IsChain(t1, r2.dir, c2) && Target(t1, r2) == Target(t, r2)
            && (Open(t1, r2, c2, op.ticket) <==> OpenSecond(t, op))
  {
    var c1, w1 := ChainOf(t, op.first.dir), Target(t, op.first);
    var r2, c2 := op.second.value, ChainOf(t, op.second.value.dir);
    SameLinks(t, t1);
    TargetSame(t, t1, r2);
    ChainIn(t, op.first.dir, c1);
    ChainIn(t, r2.dir, c2);
    if w1.Some? { TargetOffChain(t, op.first, c1); }
    WalkAfter(t, t1, c1, w1, op.ticket, c2);
    if Target(t, r2).Some? {
      TargetOffChain(t, r2, c2);
      BlockedAfter(t, t1, c1, w1, op.ticket, Target(t, r2).value);
    }
  }

  /** What stands in the way of a walk once another path is locked. */
  lemma WalkAfter(t: Tree, t1: Tree, c: seq<Ino>, w: Option<Ino>, ticket: int, c2: seq<Ino>)
    requires ticket != 0 && c != [] && c2 != [] && forall n | n in t && n != ROOT :: t[n].treelock >= -1
    requires Takes(t, t1, c, w) && Ticketed(t, t1, c[..|c| - 1] + OptSeq(w), 0)
    requires forall m | m in c && m !in c[..|c| - 1] :: m == ROOT
    requires forall m | m in c[..|c| - 1] && m in t :: !Blocked(t[m], ticket)
    requires w.Some? ==> w.value in t && !WriteBlocked(t[w.value], ticket)
    requires forall n | n in c2[..|c2| - 1] :: n in t && n != ROOT
    ensures (forall n | n in c2[..|c2| - 1] :: !Blocked(t1[n], ticket)) <==>
            (forall n | n in c2[..|c2| - 1] :: !Blocked(t[n], ticket)) && (w.Some? ==> w.value !in c2[..|c2| - 1])
  {
    forall n | n in c2[..|c2| - 1]
      ensures Blocked(t1[n], ticket) <==> Blocked(t[n], ticket) || w == Some(n)
    {
      BlockedAfter(t, t1, c, w, ticket, n);
    }
  }

  lemma BlockedAfter(t: Tree, t1: Tree, c: seq<Ino>, w: Option<Ino>, ticket: int, n: Ino)
    requires ticket != 0 && c != [] && n in t && n != ROOT && t[n].treelock >= -1
    requires Takes(t, t1, c, w) && Ticketed(t, t1, c[..|c| - 1] + OptSeq(w), 0)
    requires forall m | m in c && m !in c[..|c| - 1] :: m == ROOT
    requires forall m | m in c[..|c| - 1] && m in t :: !Blocked(t[m], ticket)
    requires w.Some? ==> w.value in t && !WriteBlocked(t[w.value], ticket)
    ensures Blocked(t1[n], ticket) <==> Blocked(t[n], ticket) || w == Some(n)
    ensures WriteBlocked(t1[n], ticket) <==> WriteBlocked(t[n], ticket) || n in c[..|c| - 1] + OptSeq(w)
  {
    var way := c[..|c| - 1] + OptSeq(w);
    assert n in way <==> n in c[..|c| - 1] || w == Some(n);
    assert n in c[..|c| - 1] ==> n in c;
  }

  /** All the nodes of an operation that it locks before it stops. */
  ghost function Ways(t: Tree, op: Op): seq<Ino>
    requires Walkable(t, op)
  {
    var c1 := ChainOf(t, op.first.dir);
    if Linked(c1) && op.second.Some?
    then Way(t, op.first, c1) + Way(t, op.second.value, ChainOf(t, op.second.value.dir))
    else Way(t, op.first, c1)
  }

  /** Nothing stands in the way of an operation. */
  ghost predicate OpOpen(t: Tree, op: Op)
    requires Walkable(t, op)
  {
    var c1 := ChainOf(t, op.first.dir);
    Open(t, op.first, c1, op.ticket) && (Linked(c1) && op.second.Some? ==> OpenSecond(t, op))
  }

  /** All the walks of an operation end at the root. */
  ghost predicate OpLinked(t: Tree, op: Op)
    requires Walkable(t, op)
  {
    Linked(ChainOf(t, op.first.dir)) && (op.second.Some? ==> Linked(ChainOf(t, op.second.value.dir)))
  }

  /** The outcome of an operation's attempt, and its tickets, from the tree before it. */
  lemma AcquireIs(t: Tree, op: Op)
    requires LinksOk(t) && KeysUnique(t) && Walkable(t, op) && op.ticket != 0
    requires forall n | n in t && n != ROOT :: t[n].treelock >= -1
    ensures var (t', r) := Acquire(t, op);
            && (r.Held? <==> OpOpen(t, op) && OpLinked(t, op))
            && (r.Fail? <==> OpOpen(t, op) && !OpLinked(t, op))
            && (r.Held? ==> Ticketed(t, t', Ways(t, op), 0))
            && (r.Fail? ==> Ticketed(t, t', Ways(t, op), op.ticket))
  {
    var c1 := ChainOf(t, op.first.dir);
    TryIs(t, op.first, c1, op.ticket);
    var (t1, o) := Try(t, op.first, c1, op.ticket);
    if o.Granted? && op.second.Some? {
      TryTakes(t, op.first, c1, op.ticket);
      SecondIs(t, op, t1, o.w);
    }
  }

  lemma SecondIs(t: Tree, op: Op, t1: Tree, w1: Option<Ino>)
    requires LinksOk(t) && KeysUnique(t) && Walkable(t, op) && op.ticket != 0 && op.second.Some?
    requires forall n | n in t && n != ROOT :: t[n].treelock >= -1
    requires var c1 := ChainOf(t, op.first.dir);
             && Open(t, op.first, c1, op.ticket) && Linked(c1) && w1 == Target(t, op.first)
             && Takes(t, t1, c1, w1) && Ticketed(t, t1, Way(t, op.first, c1), 0)
    ensures var c1, r2, c2 := ChainOf(t, op.first.dir), op.second.value, ChainOf(t, op.second.value.dir);
            var ways := Way(t, op.first, c1) + Way(t, r2, c2);
            && IsChain(t1, r2.dir, c2)
            && var (t2, o2) := Try(t1, r2, c2, op.ticket);
            && (o2.Granted? <==> OpenSecond(t, op) && Linked(c2))
            && (o2.NoEnt? <==> OpenSecond(t, op) && !Linked(c2))
            && (o2.Granted? ==> Ticketed(t, t2, ways, 0))
            && (o2.NoEnt? ==> Ticketed(t, Unlock(t2, c1, w1, op.ticket), ways, op.ticket))
  {
    var c1, r2, c2 := ChainOf(t, op.first.dir), op.second.value, ChainOf(t, op.second.value.dir);
    OpenAfterFirst(t, op, t1);
    GrantLinks(t, t1, c1, w1);
    TryIs(t1, r2, c2, op.ticket);
    ChainTop(t, op.first.dir, c1);
    if w1.Some? { TargetOffChain(t, op.first, c1); }
    StampedBoth(t, t1, Try(t1, r2, c2, op.ticket).0, c1, w1, Way(t, r2, c2), op.ticket);
  }

  lemma GrantLinks(t: Tree, t1: Tree, c: seq<Ino>, w: Option<Ino>)
    requires Takes(t, t1, c, w) && LinksOk(t)
    ensures LinksOk(t1)
  {
  }

  lemma ChainTop(t: Tree, d: Ino, c: seq<Ino>)
    requires IsChain(t, d, c) && Linked(c)
    ensures ROOT !in c[..|c| - 1] && forall n | n in c && n !in c[..|c| - 1] :: n == ROOT
  {
    ChainIn(t, d, c);
    if ROOT in c[..|c| - 1] {
      var i :| 0 <= i < |c| - 1 && c[i] == ROOT;
      ChainAt(t, d, c, i);
    }
  }

  /** What the two attempts do to the tickets, one after the other. */
  lemma StampedBoth(t: Tree, t1: Tree, t2: Tree, c: seq<Ino>, w: Option<Ino>, way2: seq<Ino>, ticket: int)
    requires ticket != 0 && c != [] && Ticketed(t, t1, c[..|c| - 1] + OptSeq(w), 0)
    requires forall n | n in c && n !in c[..|c| - 1] :: n == ROOT
    requires ROOT !in c[..|c| - 1] && w != Some(ROOT)
    ensures var ways := c[..|c| - 1] + OptSeq(w) + way2;
            && (Ticketed(t1, t2, way2, 0) ==> Ticketed(t, t2, ways, 0))
            && (Ticketed(t1, t2, way2, ticket) ==> Ticketed(t, Unlock(t2, c, w, ticket), ways, ticket))
  {
    var way1 := c[..|c| - 1] + OptSeq(w);
    forall n
      ensures n in way1 + way2 <==> n in way1 || n in way2
      ensures n in way1 <==> n in c[..|c| - 1] || w == Some(n)
      ensures n in c && n != ROOT <==> n in c[..|c| - 1]
    {
      assert n in c[..|c| - 1] ==> n in c;
    }
  }

  // ----- When every ticket belongs to a waiting operation

  predicate Waits(queue: seq<Op>, ticket: int) {
    exists i | 0 <= i < |queue| :: queue[i].ticket == ticket
  }

  /** Every ticket on a node belongs to an operation that is waiting. */
  predicate TicketsLive(s: State) {
    forall n | n in s.t && s.t[n].ticket != 0 :: Waits(s.queue, s.t[n].ticket)
  }

  /** Waiting operations have tickets of their own, and a new one gets another. */
  predicate TicketsApart(s: State) {
    forall i, j | 0 <= i < j < |s.queue| :: s.queue[i].ticket != s.queue[j].ticket
  }

  predicate NewTicket(s: State, ev: Event) {
    ev.Begin? ==> !Waits(s.queue, ev.op.ticket)
  }

  /**
   What keeps an attempt from leaving its ticket behind, to be seen before it is made: it has
   to wait; or its walks end at the root and all nodes that bear its ticket lie on its way; or a
   walk ends at an unlinked node, but there is nothing on the way and no node bears the ticket.
   */
  ghost predicate TakesTicketsAlong(t: Tree, op: Op)
    requires Walkable(t, op)
  {
    OpOpen(t, op) ==>
      && (OpLinked(t, op) || Ways(t, op) == [])
      && forall n | n in t && t[n].ticket == op.ticket :: n in Ways(t, op)
  }

  /** The operation that makes an attempt in a step. */
  function Attempt(s: State, ev: Event): Option<Op> {
    if ev.Begin? then Some(ev.op)
    else if ev.Retry? && ev.i < |s.queue| then Some(s.queue[ev.i])
    else None
  }

  /** A step keeps every ticket with a waiting operation if and only if its attempt takes its tickets along. */
  lemma TicketsLiveIff(s: State, ev: Event)
    requires Inv(s) && Enabled(s, ev) && Defined(s, ev) && TicketsLive(s) && TicketsApart(s) && NewTicket(s, ev)
    ensures TicketsLive(Next(s, ev)) <==> Attempt(s, ev).None? || TakesTicketsAlong(s.t, Attempt(s, ev).value)
  {
    if Attempt(s, ev).Some? {
      AttemptLiveIff(s, ev, Attempt(s, ev).value);
    } else {
      OthersKeepTickets(s, ev);
    }
  }

  lemma OthersKeepTickets(s: State, ev: Event)
    requires Enabled(s, ev) && Defined(s, ev) && TicketsLive(s) && Attempt(s, ev).None?
    ensures TicketsLive(Next(s, ev))
  {
    var s' := Next(s, ev);
    forall n | n in s'.t && s'.t[n].ticket != 0
      ensures n in s.t && s.t[n].ticket == s'.t[n].ticket
    {
      TicketKept(s, ev, n);
    }
    assert s'.queue == s.queue;
  }

  /** The steps that are no attempts change no tickets, and new nodes have none. */
  lemma TicketKept(s: State, ev: Event, n: Ino)
    requires Enabled(s, ev) && Defined(s, ev) && Attempt(s, ev).None? && n in Next(s, ev).t
    ensures if n in s.t then Next(s, ev).t[n].ticket == s.t[n].ticket else Next(s, ev).t[n].ticket == 0
  {
    match ev
    case RenameNode(i, j) =>
      var v := Target(s.t, s.holds[j].req);
      if n in s.t { MoveTicket(s, i, n, v, s.holds[j].req.dir, s.holds[j].req.name.value); }
      MoveKeys(s, i, v, s.holds[j].req.dir, s.holds[j].req.name.value);
    case HideNode(i, hidden) =>
      if n in s.t { MoveTicket(s, i, n, None, s.holds[i].req.dir, hidden); }
      MoveKeys(s, i, None, s.holds[i].req.dir, hidden);
    case FindNode(i, id) =>
      if n in s.t { FindTicket(s.t, s.holds[i].req.dir, s.holds[i].req.name, id, n); }
    case ForgetNode(m, k) => if n in s.t { ForgetTicket(s.t, m, k, n); }
    case _ =>
  }

  lemma MoveKeys(s: State, i: nat, over: Option<Ino>, dir: Ino, name: string)
    requires ActsOnOwn(s, i) && (over.Some? ==> ParentIn(s.t, over.value))
    requires Target(s.t, s.holds[i].req).Some? ==> ParentIn(s.t, Target(s.t, s.holds[i].req).value)
    ensures Target(s.t, s.holds[i].req).Some? ==>
              Move(s.t, Target(s.t, s.holds[i].req).value, over, dir, name).Keys <= s.t.Keys
  {
  }

  lemma AttemptLiveIff(s: State, ev: Event, op: Op)
    requires Inv(s) && Enabled(s, ev) && Defined(s, ev) && TicketsLive(s) && TicketsApart(s) && NewTicket(s, ev)
    requires Attempt(s, ev) == Some(op)
    ensures TicketsLive(Next(s, ev)) <==> TakesTicketsAlong(s.t, op)
  {
    LocksAtLeast(s);
    AcquireIs(s.t, op);
    var (t', r) := Acquire(s.t, op);
    var s' := Next(s, ev);
    forall n | n in s.t && s.t[n].ticket != 0 && s.t[n].ticket != op.ticket
      ensures n in t' && t'[n].ticket == s.t[n].ticket && Waits(s'.queue, s.t[n].ticket)
    {
      AcquireReserved(s.t, op, n);
      OthersWait(s, ev, op, s.t[n].ticket);
    }
    OwnWaits(s, ev, op);
    AcquireTickets(s.t, op);
    AcquireQueue(s, ev, op);
    if !r.Wait? && !TakesTicketsAlong(s.t, op) {
      var n := LeftBehind(s.t, t', op);
    }
  }

  lemma LocksAtLeast(s: State)
    requires Inv(s)
    ensures LinksOk(s.t) && KeysUnique(s.t) && forall n | n in s.t && n != ROOT :: s.t[n].treelock >= -1
  {
  }

  /** An attempt takes no other operation out of the queue. */
  lemma OthersWait(s: State, ev: Event, op: Op, ticket: int)
    requires Enabled(s, ev) && Defined(s, ev) && Attempt(s, ev) == Some(op)
    requires Waits(s.queue, ticket) && ticket != op.ticket
    ensures Waits(Next(s, ev).queue, ticket)
  {
    QueueAfter(s, ev, op);
    var k :| 0 <= k < |s.queue| && s.queue[k].ticket == ticket;
    var q := Next(s, ev).queue;
    assert q[if ev.Retry? && |q| < |s.queue| && k > ev.i then k - 1 else k] == s.queue[k];
  }

  /** The queue after an attempt. */
  lemma QueueAfter(s: State, ev: Event, op: Op)
    requires Enabled(s, ev) && Defined(s, ev) && Attempt(s, ev) == Some(op)
    ensures Walkable(s.t, op)
    ensures Next(s, ev).queue ==
      if ev.Begin? then if Acquire(s.t, op).1.Wait? then s.queue + [op] else s.queue
      else if Acquire(s.t, op).1.Wait? then s.queue else s.queue[..ev.i] + s.queue[ev.i + 1..]
  {
  }

  /** After it, the operation is in the queue exactly if it has to wait. */
  lemma OwnWaits(s: State, ev: Event, op: Op)
    requires Enabled(s, ev) && Defined(s, ev) && Attempt(s, ev) == Some(op) && TicketsApart(s) && NewTicket(s, ev)
    ensures Walkable(s.t, op) && (Waits(Next(s, ev).queue, op.ticket) <==> Acquire(s.t, op).1.Wait?)
  {
    QueueAfter(s, ev, op);
    var q := Next(s, ev).queue;
    if Acquire(s.t, op).1.Wait? {
      assert q[if ev.Begin? then |s.queue| else ev.i] == op;
    } else if ev.Retry? {
      assert forall k | 0 <= k < |q| :: q[k] == s.queue[if k < ev.i then k else k + 1];
    }
  }

  /** The tickets of `t'` are those of `t`, `ticket` and none. */
  ghost predicate OnlyOwn(t: Tree, t': Tree, ticket: int) {
    t'.Keys == t.Keys && forall n | n in t :: t'[n].ticket in {0, ticket, t[n].ticket}
  }

  lemma TryTickets(t: Tree, r: Request, c: seq<Ino>, ticket: int)
    requires IsChain(t, r.dir, c)
    ensures OnlyOwn(t, Try(t, r, c, ticket).0, ticket)
  {
    ChainIn(t, r.dir, c);
    var w := Target(t, r);
    if !(w.Some? && WriteBlocked(t[w.value], ticket)) {
      var k := StopAt(WriteLock(t, w), c, ticket, 0);
      LockTickets(t, w, c[..k], ticket);
    }
  }

  lemma LockTickets(t: Tree, w: Option<Ino>, ns: seq<Ino>, ticket: int)
    ensures OnlyOwn(t, ReadLock(WriteLock(t, w), ns), ticket)
    ensures OnlyOwn(t, Reserve(t, ns + OptSeq(w), ticket), ticket)
  {
  }

  lemma UnlockTickets(t: Tree, t1: Tree, t2: Tree, c: seq<Ino>, w: Option<Ino>, ticket: int)
    requires OnlyOwn(t, t1, ticket) && OnlyOwn(t1, t2, ticket)
    ensures OnlyOwn(t, t2, ticket) && OnlyOwn(t, Unlock(t2, c, w, ticket), ticket)
  {
  }

  /** An attempt puts no ticket on a node but its own. */
  lemma AcquireTickets(t: Tree, op: Op)
    requires Walkable(t, op)
    ensures OnlyOwn(t, Acquire(t, op).0, op.ticket)
  {
    var c := ChainOf(t, op.first.dir);
    TryTickets(t, op.first, c, op.ticket);
    var (t1, o) := Try(t, op.first, c, op.ticket);
    if o.Granted? && op.second.Some? {
      TryShape(t, op.first, c, op.ticket);
      SameLinks(t, t1);
      var c2 := ChainOf(t, op.second.value.dir);
      TryTickets(t1, op.second.value, c2, op.ticket);
      UnlockTickets(t, t1, Try(t1, op.second.value, c2, op.ticket).0, c, o.w, op.ticket);
    }
  }

  lemma WaysIn(t: Tree, op: Op)
    requires Walkable(t, op)
    ensures forall n | n in Ways(t, op) :: n in t
  {
    ChainIn(t, op.first.dir, ChainOf(t, op.first.dir));
    if op.second.Some? { ChainIn(t, op.second.value.dir, ChainOf(t, op.second.value.dir)); }
  }

  /** A node that bears the ticket of an operation no longer waiting. */
  lemma LeftBehind(t: Tree, t': Tree, op: Op) returns (n: Ino)
    requires Walkable(t, op) && OpOpen(t, op) && !TakesTicketsAlong(t, op) && op.ticket != 0
    requires Ticketed(t, t', Ways(t, op), if OpLinked(t, op) then 0 else op.ticket)
    ensures n in t' && t'[n].ticket == op.ticket
  {
    WaysIn(t, op);
    if !OpLinked(t, op) && Ways(t, op) != [] {
      n := Ways(t, op)[0];
    } else {
      n :| n in t && t[n].ticket == op.ticket && n !in Ways(t, op);
    }
  }

  // ----- Whole runs

  lemma ApartKept(s: State, ev: Event)
    requires Enabled(s, ev) && Defined(s, ev) && TicketsApart(s) && NewTicket(s, ev)
    ensures TicketsApart(Next(s, ev))
  {
    if Attempt(s, ev).Some? {
      QueueAfter(s, ev, Attempt(s, ev).value);
      ApartQueue(s.queue, Next(s, ev).queue, ev, Attempt(s, ev).value);
    }
  }

  lemma ApartQueue(q: seq<Op>, q': seq<Op>, ev: Event, op: Op)
    requires forall i, j | 0 <= i < j < |q| :: q[i].ticket != q[j].ticket
    requires q' == q || (q' == q + [op] && !Waits(q, op.ticket)) ||
             (ev.Retry? && ev.i < |q| && q' == q[..ev.i] + q[ev.i + 1..])
    ensures forall i, j | 0 <= i < j < |q'| :: q'[i].ticket != q'[j].ticket
  {
    if |q'| < |q| {
      assert forall k | 0 <= k < |q'| :: q'[k] == q[if k < ev.i then k else k + 1];
    } else {
      assert forall k | 0 <= k < |q| :: q'[k] == q[k];
    }
  }

  /** An attempt, if the step makes one, takes its tickets along. */
  ghost predicate Considerate(s: State, ev: Event) {
    Attempt(s, ev).Some? ==> Walkable(s.t, Attempt(s, ev).value) && TakesTicketsAlong(s.t, Attempt(s, ev).value)
  }

  ghost predicate ConsiderateUpTo(run: seq<State>, evs: seq<Event>, i: nat)
    requires i <= |evs| && i <= |run|
  {
    i > 0 ==>
      ConsiderateUpTo(run, evs, i - 1) && NewTicket(run[i - 1], evs[i - 1]) && Considerate(run[i - 1], evs[i - 1])
  }

  /** In a run whose attempts all take their tickets along, every ticket belongs to a waiting operation. */
  lemma {:induction false} TicketsLiveInRun(run: seq<State>, evs: seq<Event>, i: nat)
    requires IsRun(run, evs) && i < |run| && ConsiderateUpTo(run, evs, i)
    ensures TicketsApart(run[i]) && TicketsLive(run[i])
    decreases i
  {
    if i > 0 {
      TicketsLiveInRun(run, evs, i - 1);
      LiveNext(run, evs, i - 1);
    }
  }

  lemma LiveNext(run: seq<State>, evs: seq<Event>, i: nat)
    requires IsRun(run, evs) && i < |evs| && TicketsLive(run[i]) && TicketsApart(run[i])
    requires NewTicket(run[i], evs[i]) && Considerate(run[i], evs[i])
    ensures TicketsApart(run[i + 1]) && TicketsLive(run[i + 1])
  {
    RunInv(run, evs, i);
    StepsLive(run[i], evs[i], run[i + 1]);
  }

  lemma StepsLive(s: State, ev: Event, s': State)
    requires Inv(s) && Steps(s, ev, s') && TicketsLive(s) && TicketsApart(s) && NewTicket(s, ev) && Considerate(s, ev)
    ensures TicketsApart(s') && TicketsLive(s')
  {
    ApartKept(s, ev);
    TicketsLiveIff(s, ev);
  }

  /** A node that bears another's ticket stops every walk that passes it, and nobody gets it as the named node. */
  lemma TicketStops(t: Tree, r: Request, c: seq<Ino>, ticket: int, n: Ino)
    requires IsChain(t, r.dir, c) && LinksOk(t) && ticket != 0 && n in t && t[n].ticket !in {0, ticket}
    requires n in Way(t, r, c)
    ensures Try(t, r, c, ticket).1.Again?
  {
    TryIs(t, r, c, ticket);
  }

  /** The ticket of an operation that no longer waits stays on a node as long as its number is not used again. */
  lemma {:induction false} DeadTicketStays(run: seq<State>, evs: seq<Event>, i: nat, j: nat, n: Ino, ticket: int)
    requires IsRun(run, evs) && i <= j < |run| && ticket != 0
    requires n in run[i].t && run[i].t[n].ticket == ticket && !Waits(run[i].queue, ticket)
    requires forall k | i <= k <= j :: n in run[k].t
    requires forall k | i <= k < j && evs[k].Begin? :: evs[k].op.ticket != ticket
    ensures run[j].t[n].ticket == ticket && !Waits(run[j].queue, ticket)
    decreases j
  {
    if i < j {
      DeadTicketStays(run, evs, i, j - 1, n, ticket);
      assert Steps(run[j - 1], evs[j - 1], run[j]);
      AbandonedStays(run[j - 1], evs[j - 1], n, ticket);
    }
  }
}
