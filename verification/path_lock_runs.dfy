/**
 What every run of the tree-lock protocol keeps: held paths stay true, the lock and
 reference counters mean what they should, and no assertion in the code can fail.
 */
module PathLockRuns {
  import opened Wrappers
  import opened NodeTree
  import opened PathLocks

  // ----- Changes that leave the tree's shape alone

  lemma ShapeTree(t: Tree, t': Tree, refs: multiset<Ino>)
    requires TreeOk(t, refs) && SameShape(t, t')
    ensures TreeOk(t', refs)
  {
    SameLinks(t, t');
    SameCounts(t, refs, t', refs);
  }

  lemma ShapeHolds(t: Tree, t': Tree, hs: seq<Hold>)
    requires HoldsOk(t, hs) && SameShape(t, t')
    ensures HoldsOk(t', hs)
  {
    SameLinks(t, t');
    forall i | 0 <= i < |hs|
      ensures HoldOk(t', hs[i])
    {
      assert HoldOk(t, hs[i]);
    }
  }

  /** A held path survives any change that spares the nodes it passes. */
  lemma FrameHolds(t: Tree, t': Tree, hs: seq<Hold>)
    requires HoldsOk(t, hs)
    requires forall i, n | 0 <= i < |hs| && n in hs[i].chain :: n in t && n in t' && t'[n].link == t[n].link
    requires forall i | 0 <= i < |hs| && hs[i].w.Some? :: hs[i].w.value in t' && t'[hs[i].w.value].nlookup > 0
    ensures HoldsOk(t', hs)
  {
    forall i | 0 <= i < |hs|
      ensures HoldOk(t', hs[i])
    {
      assert HoldOk(t, hs[i]);
      ChainFrame(t, t', hs[i].req.dir, hs[i].chain);
      NamesFrame(t, t', hs[i].req.dir, hs[i].chain);
    }
  }

  // ----- Trying for a path

  ghost predicate SameLocks(t: Tree, t': Tree) {
    SameShape(t, t') && forall n | n in t :: t'[n].treelock == t[n].treelock
  }

  lemma TryFailed(t: Tree, r: Request, c: seq<Ino>, ticket: int)
    requires IsChain(t, r.dir, c)
    requires !Try(t, r, c, ticket).1.Granted?
    ensures SameLocks(t, Try(t, r, c, ticket).0)
  {
    ChainIn(t, r.dir, c);
  }

  /** The write-locked node is a child of the directory, so the walk up does not pass it. */
  lemma TargetOffChain(t: Tree, r: Request, c: seq<Ino>)
    requires IsChain(t, r.dir, c) && Target(t, r).Some? && LinksOk(t)
    ensures Target(t, r).value !in c && Target(t, r).value != ROOT
  {
    var w := Target(t, r).value;
    if w in c {
      var i :| 0 <= i < |c| && c[i] == w;
      ChainAt(t, r.dir, c, i);
      ChainDistinct(t, r.dir, c, 0, i + 1);
    }
  }

  /** From `t` to `t'` the chain `c` was read-locked and `w` write-locked. */
  ghost predicate Takes(t: Tree, t': Tree, c: seq<Ino>, w: Option<Ino>) {
    && SameShape(t, t')
    && forall n | n in t && n != ROOT ::
      if w == Some(n) then n !in c && t[n].treelock == 0 && t'[n].treelock == -1
      else if n in c then t[n].treelock != -1 && t'[n].treelock == t[n].treelock + 1
      else t'[n].treelock == t[n].treelock
  }

  /** ... and here they are unlocked again. */
  ghost predicate Gives(t: Tree, t': Tree, c: seq<Ino>, w: Option<Ino>) {
    && SameShape(t, t')
    && forall n | n in t && n != ROOT ::
      t'[n].treelock ==
      if w == Some(n) then 0 else if n in c then t[n].treelock - 1 else t[n].treelock
  }

  lemma TryTakes(t: Tree, r: Request, c: seq<Ino>, ticket: int)
    requires IsChain(t, r.dir, c) && ticket != 0 && LinksOk(t)
    requires Try(t, r, c, ticket).1.Granted?
    ensures var (t', o) := Try(t, r, c, ticket);
            && Takes(t, t', c, o.w) && c[|c| - 1] == ROOT && o.path == PathOf(t, r.dir, c, r.name)
            && o.w == Target(t, r) && (ROOT in t ==> t'[ROOT].treelock == t[ROOT].treelock)
  {
    GrantedIs(t, r, c, ticket);
    var w := Target(t, r);
    if w.Some? { TargetOffChain(t, r, c); }
    ChainIn(t, r.dir, c);
    LockTakes(t, c, w, ticket);
  }

  lemma GrantedIs(t: Tree, r: Request, c: seq<Ino>, ticket: int)
    requires IsChain(t, r.dir, c) && ticket != 0
    requires Try(t, r, c, ticket).1.Granted?
    ensures var w := Target(t, r);
            && c[|c| - 1] == ROOT && (w.Some? ==> t[w.value].treelock == 0)
            && (forall n | n in c :: n in t && n in WriteLock(t, w))
            && StopAt(WriteLock(t, w), c, ticket, 0) == |c| - 1
            && Try(t, r, c, ticket) ==
               (ReadLock(WriteLock(t, w), c[..|c| - 1]), Granted(PathOf(t, r.dir, c, r.name), w))
  {
    ChainIn(t, r.dir, c);
    LastRoot(t, r.dir, c, StopAt(WriteLock(t, Target(t, r)), c, ticket, 0));
  }

  lemma LockTakes(t: Tree, c: seq<Ino>, w: Option<Ino>, ticket: int)
    requires c != [] && ticket != 0
    requires forall n | n in c :: n in t && n in WriteLock(t, w)
    requires ROOT !in c[..|c| - 1]
    requires forall n | n in c && n !in c[..|c| - 1] :: n == ROOT
    requires w.Some? ==> w.value in t && w.value !in c && t[w.value].treelock == 0 && w.value != ROOT
    requires StopAt(WriteLock(t, w), c, ticket, 0) == |c| - 1
    ensures var t' := ReadLock(WriteLock(t, w), c[..|c| - 1]);
            Takes(t, t', c, w) && (ROOT in t ==> t'[ROOT].treelock == t[ROOT].treelock)
  {
    var t1 := WriteLock(t, w);
    forall n | n in t && n != ROOT && n in c
      ensures t[n].treelock != -1
    {
      var j :| 0 <= j < |c| - 1 && c[j] == n;
      assert !Blocked(t1[c[j]], ticket);
    }
  }

  lemma TakesLocks(t: Tree, t': Tree, hs: seq<Hold>, h: Hold)
    requires LocksOk(t, hs) && Takes(t, t', h.chain, h.w)
    ensures LocksOk(t', hs + [h])
  {
    forall n | n in t' && n != ROOT
      ensures LockOk(t'[n].treelock, Readers(hs + [h], n), Writers(hs + [h], n))
    {
      CountAppend(hs, h, n);
      assert LockOk(t[n].treelock, Readers(hs, n), Writers(hs, n));
    }
  }

  lemma GivesLocks(t: Tree, t': Tree, hs: seq<Hold>, i: nat)
    requires i < |hs| && LocksOk(t, hs) && Gives(t, t', hs[i].chain, hs[i].w)
    ensures LocksOk(t', hs[..i] + hs[i + 1..])
  {
    forall n | n in t' && n != ROOT
      ensures LockOk(t'[n].treelock, Readers(hs[..i] + hs[i + 1..], n), Writers(hs[..i] + hs[i + 1..], n))
    {
      CountRemove(hs, i, n);
      assert LockOk(t[n].treelock, Readers(hs, n), Writers(hs, n));
    }
  }

  lemma NewHoldOk(t: Tree, t': Tree, hs: seq<Hold>, h: Hold)
    requires HoldsOk(t, hs) && SameShape(t, t') && LinksOk(t)
    requires IsChain(t, h.req.dir, h.chain) && h.chain[|h.chain| - 1] == ROOT
    requires h.path == PathOf(t, h.req.dir, h.chain, h.req.name)
    requires h.w.Some? ==> h.w.value in t && t[h.w.value].link.Some?
    ensures HoldsOk(t', hs + [h])
  {
    ShapeHolds(t, t', hs);
    SameLinks(t, t');
    assert HoldOk(t', h);
  }

  lemma TryGranted(t: Tree, hs: seq<Hold>, r: Request, c: seq<Ino>, ticket: int)
    requires IsChain(t, r.dir, c) && ticket != 0 && LinksOk(t)
    requires HoldsOk(t, hs) && LocksOk(t, hs)
    requires Try(t, r, c, ticket).1.Granted?
    ensures var (t', o) := Try(t, r, c, ticket);
            var hs' := hs + [Hold(r, c, o.w, o.path)];
            SameShape(t, t') && HoldsOk(t', hs') && LocksOk(t', hs')
  {
    var (t', o) := Try(t, r, c, ticket);
    TryTakes(t, r, c, ticket);
    NewHoldOk(t, t', hs, Hold(r, c, o.w, o.path));
    TakesLocks(t, t', hs, Hold(r, c, o.w, o.path));
  }

  lemma LastRoot(t: Tree, d: Ino, c: seq<Ino>, k: nat)
    requires IsChain(t, d, c) && k < |c| && c[k] == ROOT
    ensures k == |c| - 1 && c[..k] == c[..|c| - 1]
  {
    ChainAt(t, d, c, k);
  }

  // ----- Releasing a path

  lemma UnlockGives(t: Tree, c: seq<Ino>, w: Option<Ino>, ticket: int)
    ensures Gives(t, Unlock(t, c, w, ticket), c, w)
  {
  }

  lemma Released(t: Tree, t': Tree, hs: seq<Hold>, i: nat)
    requires i < |hs| && HoldsOk(t, hs) && LocksOk(t, hs) && Gives(t, t', hs[i].chain, hs[i].w)
    ensures HoldsOk(t', hs[..i] + hs[i + 1..]) && LocksOk(t', hs[..i] + hs[i + 1..])
  {
    ShapeHolds(t, t', hs);
    GivesLocks(t, t', hs, i);
    HoldsWithout(t', hs, i);
  }

  lemma HoldsWithout(t: Tree, hs: seq<Hold>, i: nat)
    requires i < |hs| && HoldsOk(t, hs)
    ensures HoldsOk(t, hs[..i] + hs[i + 1..])
  {
    var hs' := hs[..i] + hs[i + 1..];
    forall j | 0 <= j < |hs'|
      ensures HoldOk(t, hs'[j])
    {
      assert hs'[j] == hs[if j < i then j else j + 1];
    }
  }

  // ----- Acquiring one or two paths

  /** Whatever comes of an attempt, the locks match the paths that are then held. */
  lemma AcquireInv(t: Tree, hs: seq<Hold>, op: Op)
    requires LinksOk(t) && HoldsOk(t, hs) && LocksOk(t, hs)
    requires Walkable(t, op) && op.ticket != 0
    ensures var (t', r) := Acquire(t, op);
            var hs' := if r.Held? then hs + r.holds else hs;
            SameShape(t, t') && HoldsOk(t', hs') && LocksOk(t', hs')
  {
    var c := ChainOf(t, op.first.dir);
    var (t1, o) := Try(t, op.first, c, op.ticket);
    if o.Granted? {
      TryGranted(t, hs, op.first, c, op.ticket);
      if op.second.Some? { AcquireSecond(t, hs, op); }
    } else {
      TryFailed(t, op.first, c, op.ticket);
      ShapeHolds(t, t1, hs);
    }
  }

  lemma AcquireSecond(t: Tree, hs: seq<Hold>, op: Op)
    requires LinksOk(t) && Walkable(t, op) && op.ticket != 0 && op.second.Some?
    requires var (t1, o) := Try(t, op.first, ChainOf(t, op.first.dir), op.ticket);
             && o.Granted? && SameShape(t, t1)
             && HoldsOk(t1, hs + [Hold(op.first, ChainOf(t, op.first.dir), o.w, o.path)])
             && LocksOk(t1, hs + [Hold(op.first, ChainOf(t, op.first.dir), o.w, o.path)])
    ensures var (t', r) := Acquire(t, op);
            var hs' := if r.Held? then hs + r.holds else hs;
            SameShape(t, t') && HoldsOk(t', hs') && LocksOk(t', hs')
  {
    var c := ChainOf(t, op.first.dir);
    var (t1, o) := Try(t, op.first, c, op.ticket);
    SameLinks(t, t1);
    assert LinksOk(t1);
    SecondInv(t1, hs, Hold(op.first, c, o.w, o.path), op.second.value, ChainOf(t, op.second.value.dir), op.ticket);
  }

  lemma SecondInv(t1: Tree, hs: seq<Hold>, h: Hold, r: Request, c2: seq<Ino>, ticket: int)
    requires LinksOk(t1) && ticket != 0 && IsChain(t1, r.dir, c2)
    requires HoldsOk(t1, hs + [h]) && LocksOk(t1, hs + [h])
    ensures var (t2, o2) := Try(t1, r, c2, ticket);
            if o2.Granted? then
              var hs' := hs + [h, Hold(r, c2, o2.w, o2.path)];
              SameShape(t1, t2) && HoldsOk(t2, hs') && LocksOk(t2, hs')
            else
              var u := Unlock(t2, h.chain, h.w, ticket);
              SameShape(t1, u) && HoldsOk(u, hs) && LocksOk(u, hs)
  {
    var (t2, o2) := Try(t1, r, c2, ticket);
    if o2.Granted? {
      TryGranted(t1, hs + [h], r, c2, ticket);
      assert hs + [h] + [Hold(r, c2, o2.w, o2.path)] == hs + [h, Hold(r, c2, o2.w, o2.path)];
    } else {
      TryFailed(t1, r, c2, ticket);
      SecondFailed(t1, t2, hs, h, ticket);
    }
  }

  lemma SecondFailed(t1: Tree, t2: Tree, hs: seq<Hold>, h: Hold, ticket: int)
    requires HoldsOk(t1, hs + [h]) && LocksOk(t1, hs + [h]) && SameLocks(t1, t2)
    ensures var u := Unlock(t2, h.chain, h.w, ticket);
            SameShape(t1, u) && HoldsOk(u, hs) && LocksOk(u, hs)
  {
    ShapeHolds(t1, t2, hs + [h]);
    UnlockGives(t2, h.chain, h.w, ticket);
    Released(t2, Unlock(t2, h.chain, h.w, ticket), hs + [h], |hs|);
    assert (hs + [h])[..|hs|] + (hs + [h])[|hs| + 1..] == hs;
  }

  /** An attempt that is not granted, for one path or for two, leaves every treelock as it was. */
  lemma FailedAcquireKeepsLocks(t: Tree, op: Op)
    requires Walkable(t, op) && ShapeOk(t) && op.ticket != 0
    requires !Acquire(t, op).1.Held?
    ensures SameLocks(t, Acquire(t, op).0)
  {
    var c := ChainOf(t, op.first.dir);
    var (t1, o) := Try(t, op.first, c, op.ticket);
    TryShape(t, op.first, c, op.ticket);
    if o.Granted? {
      SameLinks(t, t1);
      var r := op.second.value;
      var c2 := ChainOf(t, r.dir);
      TryFailed(t1, r, c2, op.ticket);
      GrantThenUnlock(t, op.first, c, op.ticket, Try(t1, r, c2, op.ticket).0);
    } else {
      TryFailed(t, op.first, c, op.ticket);
    }
  }

  /** Unlocking undoes a grant. */
  lemma GrantThenUnlock(t: Tree, r: Request, c: seq<Ino>, ticket: int, t2: Tree)
    requires IsChain(t, r.dir, c) && ShapeOk(t) && ticket != 0
    requires Try(t, r, c, ticket).1.Granted? && SameLocks(Try(t, r, c, ticket).0, t2)
    ensures SameLocks(t, Unlock(t2, c, Try(t, r, c, ticket).1.w, ticket))
  {
    TryTakes(t, r, c, ticket);
    TakeGive(t, Try(t, r, c, ticket).0, t2, c, Try(t, r, c, ticket).1.w, ticket);
  }

  lemma TakeGive(t: Tree, t1: Tree, t2: Tree, c: seq<Ino>, w: Option<Ino>, ticket: int)
    requires ROOT in t && Takes(t, t1, c, w) && SameLocks(t1, t2) && w != Some(ROOT)
    requires t1[ROOT].treelock == t[ROOT].treelock
    ensures SameLocks(t, Unlock(t2, c, w, ticket))
  {
  }

  // ----- Steps that change links

  ghost predicate Unheld(hs: seq<Hold>, n: Ino) {
    forall i | 0 <= i < |hs| :: n !in hs[i].chain
  }

  /** A node that nothing read-locks is on no held path. */
  lemma FreeOfReaders(t: Tree, hs: seq<Hold>, n: Ino)
    requires LocksOk(t, hs) && n in t && n != ROOT && t[n].treelock <= 0
    ensures Unheld(hs, n)
  {
    forall i | 0 <= i < |hs|
      ensures n !in hs[i].chain
    {
      HeldLocks(t, hs, i, n);
    }
  }

  /** Nodes that a hold depends on have lookups outstanding. */
  lemma HeldLookups(t: Tree, hs: seq<Hold>, i: nat, n: Ino)
    requires Rooted(t) && LinksOk(t) && HoldsOk(t, hs) && i < |hs|
    requires n in hs[i].chain || hs[i].w == Some(n)
    ensures n in t && t[n].nlookup > 0
  {
    assert HoldOk(t, hs[i]);
    ChainIn(t, hs[i].req.dir, hs[i].chain);
  }

  /** Apart from `n`, `t'` has lost only nodes without lookups and has changed no link. */
  ghost predicate Relinks(t: Tree, t': Tree, n: Ino) {
    && (forall m | m in t && m !in t' && m != n :: t[m].nlookup == 0)
    && (forall m | m in t && m in t' && m != n :: t'[m].link == t[m].link)
    && (forall m | m in t && m in t' && t[m].nlookup > 0 && m != n :: t'[m].nlookup > 0)
    && (forall m | m in t && m in t' :: t'[m].treelock == t[m].treelock)
    && (forall m | m in t' && m !in t :: t'[m].treelock == 0)
  }

  lemma RelinkInv(t: Tree, t': Tree, hs: seq<Hold>, n: Ino)
    requires ShapeOk(t) && HoldsOk(t, hs) && LocksOk(t, hs) && Relinks(t, t', n) && Unheld(hs, n)
    requires forall i | 0 <= i < |hs| && hs[i].w == Some(n) :: n in t' && t'[n].nlookup > 0
    ensures HoldsOk(t', hs) && LocksOk(t', hs)
  {
    RelinkHolds(t, t', hs, n);
    RelinkLocks(t, t', hs, n);
  }

  lemma RelinkHolds(t: Tree, t': Tree, hs: seq<Hold>, n: Ino)
    requires ShapeOk(t) && HoldsOk(t, hs) && Relinks(t, t', n) && Unheld(hs, n)
    requires forall i | 0 <= i < |hs| && hs[i].w == Some(n) :: n in t' && t'[n].nlookup > 0
    ensures HoldsOk(t', hs)
  {
    forall i, m | 0 <= i < |hs| && m in hs[i].chain
      ensures m in t && m in t' && t'[m].link == t[m].link
    {
      HeldLookups(t, hs, i, m);
    }
    forall i | 0 <= i < |hs| && hs[i].w.Some?
      ensures hs[i].w.value in t' && t'[hs[i].w.value].nlookup > 0
    {
      HeldLookups(t, hs, i, hs[i].w.value);
    }
    FrameHolds(t, t', hs);
  }

  lemma RelinkLocks(t: Tree, t': Tree, hs: seq<Hold>, n: Ino)
    requires ShapeOk(t) && HoldsOk(t, hs) && LocksOk(t, hs) && Relinks(t, t', n)
    ensures LocksOk(t', hs)
  {
    forall m | m in t' && m != ROOT
      ensures LockOk(t'[m].treelock, Readers(hs, m), Writers(hs, m))
    {
      if m !in t { NewUnheld(t, hs, m); }
    }
  }

  /** Nobody holds a node that was not there. */
  lemma NewUnheld(t: Tree, hs: seq<Hold>, m: Ino)
    requires ShapeOk(t) && HoldsOk(t, hs) && m !in t
    ensures Readers(hs, m) == 0 && Writers(hs, m) == 0
  {
    forall i | 0 <= i < |hs|
      ensures m !in hs[i].chain && hs[i].w != Some(m)
    {
      if m in hs[i].chain || hs[i].w == Some(m) { HeldLookups(t, hs, i, m); }
    }
    NoHolds(hs, m);
  }

  lemma UnhashRelinks(t: Tree, n: Ino)
    requires ParentIn(t, n)
    requires t[n].link.Some? ==>
      var p := t[n].link.value.parent;
      p != n && (t[p].refctr == 1 ==> t[p].nlookup == 0)
    ensures Relinks(t, Unhash(t, n), n) && Unhash(t, n).Keys <= t.Keys
    ensures n in Unhash(t, n) && Unhash(t, n)[n] == t[n].(link := None)
  {
  }

  /** Only a parent that has no lookups of its own goes with its last child. */
  lemma ParentLookups(t: Tree, refs: multiset<Ino>, n: Ino)
    requires TreeOk(t, refs) && n in t && t[n].link.Some?
    ensures var p := t[n].link.value.parent;
            p in t && p != n && (t[p].refctr == 1 ==> t[p].nlookup == 0 && t[p].link.None?)
  {
    var p := t[n].link.value.parent;
    NoSelfLink(t, n);
    assert n in Children(t, p);
    assert t[p].refctr == RefCount(t, refs, p);
  }

  ghost predicate Full(t: Tree, refs: multiset<Ino>, hs: seq<Hold>) {
    TreeOk(t, refs) && HoldsOk(t, hs) && LocksOk(t, hs)
  }

  lemma UnhashInv(t: Tree, refs: multiset<Ino>, hs: seq<Hold>, n: Ino)
    requires Full(t, refs, hs) && n in t && n != ROOT && t[n].treelock <= 0
    ensures ParentIn(t, n) && Full(Unhash(t, n), refs, hs) && Relinks(t, Unhash(t, n), n)
    ensures n in Unhash(t, n) && Unhash(t, n)[n] == t[n].(link := None) && Unhash(t, n).Keys <= t.Keys
    ensures t[n].link.Some? ==> UnrefSafe(t[n := t[n].(link := None)], t[n].link.value.parent)
    ensures Unheld(hs, n)
  {
    if t[n].link.Some? { ParentLookups(t, refs, n); ParentUnlocked(t, refs, hs, n); }
    UnhashRelinks(t, n);
    UnhashTree(t, refs, n);
    FreeOfReaders(t, hs, n);
    forall i | 0 <= i < |hs| && hs[i].w == Some(n)
      ensures t[n].nlookup > 0
    {
      HeldLookups(t, hs, i, n);
    }
    RelinkInv(t, Unhash(t, n), hs, n);
  }

  /** A parent that goes with its last child is not locked. */
  lemma ParentUnlocked(t: Tree, refs: multiset<Ino>, hs: seq<Hold>, n: Ino)
    requires Full(t, refs, hs) && n in t && t[n].link.Some?
    ensures var p := t[n].link.value.parent;
            p in t && t[p].refctr > 0 && (t[p].refctr == 1 ==> t[p].treelock == 0 && t[p].link.None?)
  {
    var p := t[n].link.value.parent;
    ParentLookups(t, refs, n);
    if t[p].refctr == 1 { ForgottenUnlocked(t, hs, p); }
  }

  lemma ForgottenUnlocked(t: Tree, hs: seq<Hold>, n: Ino)
    requires ShapeOk(t) && HoldsOk(t, hs) && LocksOk(t, hs) && n in t && t[n].nlookup == 0
    ensures t[n].treelock == 0
  {
    forall i | 0 <= i < |hs|
      ensures n !in hs[i].chain && hs[i].w != Some(n)
    {
      if n in hs[i].chain || hs[i].w == Some(n) { HeldLookups(t, hs, i, n); }
    }
    NoHolds(hs, n);
  }

  lemma HashInv(t: Tree, refs: multiset<Ino>, hs: seq<Hold>, n: Ino, i: nat, name: string)
    requires Full(t, refs, hs) && n in t && n != ROOT && t[n].link.None? && t[n].nlookup > 0
    requires Unheld(hs, n) && i < |hs|
    requires forall m | m in t :: t[m].link != Some(Link(hs[i].req.dir, name))
    ensures hs[i].req.dir in t && Full(Hash(t, n, hs[i].req.dir, name), refs, hs)
  {
    assert HoldOk(t, hs[i]);
    var p := hs[i].req.dir;
    HashTree(t, refs, n, p, name, hs[i].chain);
    ChainIn(t, p, hs[i].chain);
    HashRelinks(t, n, p, name);
    RelinkInv(t, Hash(t, n, p, name), hs, n);
  }

  lemma HashRelinks(t: Tree, n: Ino, p: Ino, name: string)
    requires n in t && p in t
    ensures Relinks(t, Hash(t, n, p, name), n)
    ensures n in Hash(t, n, p, name) && Hash(t, n, p, name)[n].nlookup == t[n].nlookup
  {
  }

  /** Lookups and references may change as long as no lookup count that matters drops to zero. */
  lemma CountersInv(t: Tree, t': Tree, hs: seq<Hold>)
    requires ShapeOk(t) && HoldsOk(t, hs) && LocksOk(t, hs) && t.Keys == t'.Keys
    requires forall m | m in t ::
      t'[m].link == t[m].link && t'[m].treelock == t[m].treelock && (t[m].nlookup > 0 ==> t'[m].nlookup > 0)
    ensures ShapeOk(t') && HoldsOk(t', hs) && LocksOk(t', hs)
  {
    SameLinks(t, t');
    forall i | 0 <= i < |hs|
      ensures HoldOk(t', hs[i])
    {
      assert HoldOk(t, hs[i]);
    }
  }

  // ----- One lemma per kind of step

  lemma AcquireStep(s: State, op: Op)
    requires Inv(s) && Walkable(s.t, op) && op.ticket != 0
    ensures var (t1, r) := Acquire(s.t, op);
            Full(t1, s.dots, if r.Held? then s.holds + r.holds else s.holds)
  {
    AcquireInv(s.t, s.holds, op);
    ShapeTree(s.t, Acquire(s.t, op).0, s.dots);
  }

  lemma FreeStep(s: State, i: nat)
    requires Inv(s) && i < |s.holds|
    ensures HasChain(s.t, s.holds[i].req.dir) && ChainOf(s.t, s.holds[i].req.dir) == s.holds[i].chain
    ensures Full(Unlock(s.t, s.holds[i].chain, s.holds[i].w, 0), s.dots, s.holds[..i] + s.holds[i + 1..])
  {
    var h := s.holds[i];
    assert HoldOk(s.t, h);
    ChainUnique(s.t, h.req.dir, h.chain, ChainOf(s.t, h.req.dir));
    UnlockGives(s.t, h.chain, h.w, 0);
    Released(s.t, Unlock(s.t, h.chain, h.w, 0), s.holds, i);
    ShapeTree(s.t, Unlock(s.t, h.chain, h.w, 0), s.dots);
  }

  lemma BumpInv(t: Tree, refs: multiset<Ino>, hs: seq<Hold>, n: Ino)
    requires Full(t, refs, hs) && n in t && t[n].nlookup > 0
    ensures Full(Bump(t, n), refs, hs)
  {
    CountersInv(t, Bump(t, n), hs);
    SameCounts(t, refs, Bump(t, n), refs);
  }

  lemma CreateInv(t: Tree, refs: multiset<Ino>, hs: seq<Hold>, p: Ino, name: string, id: Ino)
    requires Full(t, refs, hs) && p in t && id !in t
    requires forall m | m in t :: t[m].link != Some(Link(p, name))
    ensures Full(Create(t, p, name, id), refs, hs)
  {
    CreateTree(t, refs, p, name, id);
    forall i | 0 <= i < |hs|
      ensures id !in hs[i].chain && hs[i].w != Some(id)
    {
      if id in hs[i].chain || hs[i].w == Some(id) { HeldLookups(t, hs, i, id); }
    }
    CreateRelinks(t, p, name, id);
    RelinkInv(t, Create(t, p, name, id), hs, id);
  }

  lemma CreateRelinks(t: Tree, p: Ino, name: string, id: Ino)
    requires p in t && id !in t
    ensures Relinks(t, Create(t, p, name, id), id)
  {
  }

  lemma FindStep(s: State, i: nat, id: Ino)
    requires Inv(s) && i < |s.holds| && id !in s.t
    ensures s.holds[i].req.dir in s.t
    ensures Full(Find(s.t, s.holds[i].req.dir, s.holds[i].req.name, id), s.dots, s.holds)
  {
    var r := s.holds[i].req;
    assert HoldOk(s.t, s.holds[i]);
    ChainIn(s.t, r.dir, s.holds[i].chain);
    HeldLookups(s.t, s.holds, i, r.dir);
    if r.name.None? {
      BumpInv(s.t, s.dots, s.holds, r.dir);
    } else {
      match Lookup(s.t, r.dir, r.name.value)
      case Some(n) => BumpInv(s.t, s.dots, s.holds, n);
      case None => CreateInv(s.t, s.dots, s.holds, r.dir, r.name.value, id);
    }
  }

  lemma ForgetSome(t: Tree, refs: multiset<Ino>, hs: seq<Hold>, n: Ino, k: nat)
    requires Full(t, refs, hs) && n in t && n != ROOT && 0 < k < t[n].nlookup
    ensures Full(t[n := t[n].(nlookup := t[n].nlookup - k)], refs, hs)
  {
    var t' := t[n := t[n].(nlookup := t[n].nlookup - k)];
    CountersInv(t, t', hs);
    SameCounts(t, refs, t', refs);
  }

  lemma ForgetAll(t: Tree, refs: multiset<Ino>, hs: seq<Hold>, n: Ino)
    requires Full(t, refs, hs) && n in t && n != ROOT && 0 < t[n].nlookup && t[n].treelock == 0
    ensures t[n].link.Some? ==> t[n].link.value.parent in t && t[n].link.value.parent != n
    ensures Full(Forget(t, n, t[n].nlookup), refs, hs)
  {
    if t[n].link.Some? { ParentLookups(t, refs, n); }
    ForgetTree(t, refs, n, t[n].nlookup);
    ForgetRelinks(t, n);
    FreeOfReaders(t, hs, n);
    forall i | 0 <= i < |hs|
      ensures hs[i].w != Some(n)
    {
      HeldLocks(t, hs, i, n);
    }
    RelinkInv(t, Forget(t, n, t[n].nlookup), hs, n);
  }

  lemma ForgetRelinks(t: Tree, n: Ino)
    requires ParentIn(t, n)
    requires t[n].link.Some? ==>
      var p := t[n].link.value.parent;
      p != n && (t[p].refctr == 1 ==> t[p].nlookup == 0)
    ensures var t' := Forget(t, n, t[n].nlookup);
            Relinks(t, t', n) && t'.Keys <= t.Keys
  {
  }

  /** The node held to be changed is write-locked. */
  lemma OwnLocked(s: State, i: nat)
    requires Inv(s) && ActsOnOwn(s, i) && Target(s.t, s.holds[i].req).Some?
    ensures var n := Target(s.t, s.holds[i].req).value;
            n in s.t && n != ROOT && s.t[n].treelock == -1 && s.t[n].nlookup > 0 && s.holds[i].w == Some(n)
  {
    var n := Target(s.t, s.holds[i].req).value;
    HeldLocks(s.t, s.holds, i, n);
  }

  lemma RemoveStep(s: State, i: nat)
    requires Inv(s) && ActsOnOwn(s, i) && Target(s.t, s.holds[i].req).Some?
    ensures var n := Target(s.t, s.holds[i].req).value;
            ParentIn(s.t, n) && Full(Unhash(s.t, n), s.dots, s.holds)
  {
    OwnLocked(s, i);
    UnhashInv(s.t, s.dots, s.holds, Target(s.t, s.holds[i].req).value);
  }

  /** Moving a write-locked node into a directory whose path is held. */
  lemma MoveInv(t: Tree, refs: multiset<Ino>, hs: seq<Hold>, n: Ino, j: nat, name: string)
    requires Full(t, refs, hs) && n in t && n != ROOT && t[n].treelock == -1 && t[n].nlookup > 0
    requires j < |hs| && forall m | m in t && m != n :: t[m].link != Some(Link(hs[j].req.dir, name))
    ensures ParentIn(t, n) && n in Unhash(t, n) && hs[j].req.dir in Unhash(t, n)
    ensures Full(Hash(Unhash(t, n), n, hs[j].req.dir, name), refs, hs)
  {
    UnhashInv(t, refs, hs, n);
    NoNewKeys(t, Unhash(t, n), n, hs[j].req.dir, name);
    HashInv(Unhash(t, n), refs, hs, n, j, name);
  }

  lemma NoNewKeys(t: Tree, u: Tree, n: Ino, p: Ino, name: string)
    requires Relinks(t, u, n) && u.Keys <= t.Keys && n in u && u[n].link.None?
    requires forall m | m in t && m != n :: t[m].link != Some(Link(p, name))
    ensures forall m | m in u :: u[m].link != Some(Link(p, name))
  {
  }

  lemma RenameStep(s: State, i: nat, j: nat)
    requires Inv(s) && i != j && ActsOnOwn(s, i) && ActsOnOwn(s, j)
    requires Target(s.t, s.holds[i].req).Some?
    ensures var w := Target(s.t, s.holds[i].req);
            var v := Target(s.t, s.holds[j].req);
            var to := s.holds[j].req;
            && ParentIn(s.t, w.value) && (v.Some? ==> ParentIn(s.t, v.value) && v != w)
            && Full(Move(s.t, w.value, v, to.dir, to.name.value), s.dots, s.holds)
  {
    var w := Target(s.t, s.holds[i].req).value;
    var v := Target(s.t, s.holds[j].req);
    var to := s.holds[j].req;
    OwnLocked(s, i);
    if v.None? {
      MoveInv(s.t, s.dots, s.holds, w, j, to.name.value);
    } else {
      OwnLocked(s, j);
      OneWriter(s.t, s.holds, i, j, w);
      OnlyKey(s.t, v.value, to.dir, to.name.value);
      RenameOver(s.t, s.dots, s.holds, w, v.value, j, to.name.value);
    }
  }

  lemma OnlyKey(t: Tree, n: Ino, p: Ino, name: string)
    requires KeysUnique(t) && n in t && t[n].link == Some(Link(p, name))
    ensures forall m | m in t && m != n :: t[m].link != Some(Link(p, name))
  {
  }

  /** The rename replaces a node, which is write-locked too. */
  lemma RenameOver(t: Tree, refs: multiset<Ino>, hs: seq<Hold>, n: Ino, v: Ino, j: nat, name: string)
    requires Full(t, refs, hs) && n in t && n != ROOT && t[n].treelock == -1 && t[n].nlookup > 0
    requires v in t && v != ROOT && v != n && t[v].treelock == -1
    requires j < |hs| && forall m | m in t && m != v :: t[m].link != Some(Link(hs[j].req.dir, name))
    ensures ParentIn(t, n) && ParentIn(t, v)
    ensures Full(Move(t, n, Some(v), hs[j].req.dir, name), refs, hs)
  {
    ClearOver(t, refs, hs, n, v, hs[j].req.dir, name);
    MoveInv(Unhash(t, v), refs, hs, n, j, name);
    MoveOver(t, n, v, hs[j].req.dir, name);
  }

  /** With the node in the way unlinked, the other can move. */
  lemma ClearOver(t: Tree, refs: multiset<Ino>, hs: seq<Hold>, n: Ino, v: Ino, dir: Ino, name: string)
    requires Full(t, refs, hs) && n in t && n != ROOT && t[n].treelock == -1 && t[n].nlookup > 0
    requires v in t && v != ROOT && v != n && t[v].treelock == -1
    requires forall m | m in t && m != v :: t[m].link != Some(Link(dir, name))
    ensures ParentIn(t, n) && ParentIn(t, v)
    ensures var u := Unhash(t, v);
            && Full(u, refs, hs) && n in u && u[n].treelock == -1 && u[n].nlookup > 0
            && forall m | m in u :: u[m].link != Some(Link(dir, name))
  {
    UnhashInv(t, refs, hs, n);
    UnhashInv(t, refs, hs, v);
    UnhashOther(t, v, n);
    NoNewKeys(t, Unhash(t, v), v, dir, name);
  }

  lemma MoveOver(t: Tree, n: Ino, v: Ino, dir: Ino, name: string)
    requires ParentIn(t, n) && ParentIn(t, v) && ParentIn(Unhash(t, v), n)
    requires n in Unhash(Unhash(t, v), n) && dir in Unhash(Unhash(t, v), n)
    ensures Move(t, n, Some(v), dir, name) == Hash(Unhash(Unhash(t, v), n), n, dir, name)
  {
  }

  /** A node with lookups survives another one's unlinking. */
  lemma UnhashOther(t: Tree, v: Ino, n: Ino)
    requires ParentIn(t, v) && n in t && n != v && t[n].nlookup > 0 && Relinks(t, Unhash(t, v), v)
    ensures n in Unhash(t, v)
    ensures Unhash(t, v)[n].(refctr := 0) == t[n].(refctr := 0)
  {
  }

  /** No two paths hold the same node to change it. */
  lemma OneWriter(t: Tree, hs: seq<Hold>, i: nat, j: nat, n: Ino)
    requires LocksOk(t, hs) && i < |hs| && j < |hs| && i != j && n in t && n != ROOT
    requires hs[i].w == Some(n)
    ensures hs[j].w != Some(n)
  {
    CountRemove(hs, i, n);
    var rest := hs[..i] + hs[i + 1..];
    var k := if j < i then j else j - 1;
    assert rest[k] == hs[j];
    CountRemove(rest, k, n);
  }

  lemma HideStep(s: State, i: nat, hidden: string)
    requires Inv(s) && ActsOnOwn(s, i) && Target(s.t, s.holds[i].req).Some?
    requires Lookup(s.t, s.holds[i].req.dir, hidden).None?
    ensures var n := Target(s.t, s.holds[i].req).value;
            ParentIn(s.t, n) && Full(Move(s.t, n, None, s.holds[i].req.dir, hidden), s.dots, s.holds)
  {
    OwnLocked(s, i);
    MoveInv(s.t, s.dots, s.holds, Target(s.t, s.holds[i].req).value, i, hidden);
  }

  lemma DotHoldStep(t: Tree, refs: multiset<Ino>, hs: seq<Hold>, n: Ino)
    requires Full(t, refs, hs) && n in t
    ensures Full(t[n := t[n].(refctr := t[n].refctr + 1)], refs + multiset{n}, hs)
  {
    CountersInv(t, t[n := t[n].(refctr := t[n].refctr + 1)], hs);
    DotHoldCount(t, refs, n);
  }

  lemma DotHoldCount(t: Tree, refs: multiset<Ino>, n: Ino)
    requires Counted(t, refs) && n in t
    ensures Counted(t[n := t[n].(refctr := t[n].refctr + 1)], refs + multiset{n})
  {
    var t' := t[n := t[n].(refctr := t[n].refctr + 1)];
    forall m | m in t'
      ensures t'[m].refctr == RefCount(t', refs + multiset{n}, m)
    {
      assert t[m].refctr == RefCount(t, refs, m);
      assert Children(t', m) == Children(t, m);
    }
  }

  lemma DotDropStep(t: Tree, refs: multiset<Ino>, hs: seq<Hold>, n: Ino)
    requires Full(t, refs, hs) && n in refs
    ensures n in t && UnrefSafe(t, n) && Full(Unref(t, n), refs - multiset{n}, hs)
  {
    var rest := refs - multiset{n};
    assert refs == rest + multiset{n};
    UnrefTree(t, rest, n);
    DropHolds(t, hs, n);
  }

  lemma DropHolds(t: Tree, hs: seq<Hold>, n: Ino)
    requires ShapeOk(t) && HoldsOk(t, hs) && LocksOk(t, hs) && n in t
    requires t[n].refctr == 1 ==> t[n].nlookup == 0 && t[n].link.None?
    ensures t[n].refctr == 1 ==> t[n].treelock == 0
    ensures HoldsOk(Unref(t, n), hs) && LocksOk(Unref(t, n), hs)
  {
    if t[n].refctr == 1 {
      ForgottenUnlocked(t, hs, n);
      forall i | 0 <= i < |hs|
        ensures n !in hs[i].chain && hs[i].w != Some(n)
      {
        if n in hs[i].chain || hs[i].w == Some(n) { HeldLookups(t, hs, i, n); }
      }
      RelinkInv(t, t - {n}, hs, n);
    } else {
      CountersInv(t, Unref(t, n), hs);
    }
  }

  // ----- Runs

  lemma InitInv()
    ensures Inv(Init)
  {
    var t := Init.t;
    assert IsChain(t, ROOT, [ROOT]);
    assert Children(t, ROOT) == {};
  }

  /** Every walk of an enabled step ends, and every pointer it follows is there. */
  lemma StepDefined(s: State, ev: Event)
    requires Inv(s) && Enabled(s, ev)
    ensures Defined(s, ev)
  {
    match ev
    case Free(i) => FreeStep(s, i);
    case FindNode(i, id) => FindStep(s, i, id);
    case ForgetNode(n, k) => if s.t[n].link.Some? { ParentLookups(s.t, s.dots, n); }
    case _ =>
  }

  lemma AcquireNext(s: State, ev: Event)
    requires Inv(s) && Enabled(s, ev) && Defined(s, ev) && (ev.Begin? || ev.Retry?)
    ensures Inv(Next(s, ev))
  {
    var op := if ev.Begin? then ev.op else s.queue[ev.i];
    AcquireStep(s, op);
    AcquireFields(s, ev, op);
    IsFull(Next(s, ev));
  }

  lemma AcquireFields(s: State, ev: Event, op: Op)
    requires Enabled(s, ev) && Defined(s, ev) && (ev == Begin(op) || (ev.Retry? && op == s.queue[ev.i]))
    ensures var (t1, r) := Acquire(s.t, op);
            var s' := Next(s, ev);
            s'.t == t1 && s'.dots == s.dots && s'.holds == if r.Held? then s.holds + r.holds else s.holds
  {
  }

  lemma IsFull(s: State)
    ensures Inv(s) <==> Full(s.t, s.dots, s.holds)
  {
  }

  lemma FreeNext(s: State, i: nat)
    requires Inv(s) && Enabled(s, Free(i)) && Defined(s, Free(i))
    ensures Inv(Next(s, Free(i)))
  {
    FreeStep(s, i);
    IsFull(Next(s, Free(i)));
  }

  lemma DotNext(s: State, ev: Event)
    requires Inv(s) && Enabled(s, ev) && Defined(s, ev) && (ev.DotHold? || ev.DotDrop?)
    ensures Inv(Next(s, ev))
  {
    if ev.DotHold? { DotHoldStep(s.t, s.dots, s.holds, ev.n); } else { DotDropStep(s.t, s.dots, s.holds, ev.n); }
    IsFull(Next(s, ev));
  }

  lemma RemoveNext(s: State, i: nat)
    requires Inv(s) && Enabled(s, RemoveNode(i)) && Defined(s, RemoveNode(i))
    ensures Inv(Next(s, RemoveNode(i)))
  {
    if Target(s.t, s.holds[i].req).Some? {
      RemoveStep(s, i);
      IsFull(Next(s, RemoveNode(i)));
    }
  }

  lemma RenameNext(s: State, i: nat, j: nat)
    requires Inv(s) && Enabled(s, RenameNode(i, j)) && Defined(s, RenameNode(i, j))
    ensures Inv(Next(s, RenameNode(i, j)))
  {
    if Target(s.t, s.holds[i].req).Some? {
      RenameStep(s, i, j);
      IsFull(Next(s, RenameNode(i, j)));
    }
  }

  lemma HideNext(s: State, i: nat, hidden: string)
    requires Inv(s) && Enabled(s, HideNode(i, hidden)) && Defined(s, HideNode(i, hidden))
    ensures Inv(Next(s, HideNode(i, hidden)))
  {
    var r := s.holds[i].req;
    HideFields(s, i, hidden);
    if Target(s.t, r).Some? && Lookup(s.t, r.dir, hidden).None? {
      HideStep(s, i, hidden);
      IsFull(Next(s, HideNode(i, hidden)));
    }
  }

  lemma HideFields(s: State, i: nat, hidden: string)
    requires Enabled(s, HideNode(i, hidden)) && Defined(s, HideNode(i, hidden))
    ensures var w, dir := Target(s.t, s.holds[i].req), s.holds[i].req.dir;
            Next(s, HideNode(i, hidden)) ==
            if w.None? || Lookup(s.t, dir, hidden).Some? then s else s.(t := Move(s.t, w.value, None, dir, hidden))
  {
  }

  lemma FindNext(s: State, ev: Event)
    requires Inv(s) && Enabled(s, ev) && Defined(s, ev) && ev.FindNode?
    ensures Inv(Next(s, ev))
  {
    FindStep(s, ev.i, ev.id);
  }

  lemma ForgetNext(s: State, ev: Event)
    requires Inv(s) && Enabled(s, ev) && Defined(s, ev) && ev.ForgetNode?
    ensures Inv(Next(s, ev))
  {
    ForgetFull(s.t, s.dots, s.holds, ev.n, ev.k);
  }

  lemma ForgetFull(t: Tree, refs: multiset<Ino>, hs: seq<Hold>, n: Ino, k: nat)
    requires Full(t, refs, hs) && n in t && n != ROOT && 0 < k <= t[n].nlookup &&
             (k == t[n].nlookup ==> t[n].treelock == 0)
    requires ParentIn(t, n) && (t[n].link.Some? ==> t[n].link.value.parent != n)
    ensures Full(Forget(t, n, k), refs, hs)
  {
    if k < t[n].nlookup {
      ForgetSome(t, refs, hs, n, k);
    } else {
      ForgetAll(t, refs, hs, n);
    }
  }

  /** Every step of every operation keeps the invariant. */
  lemma StepInv(s: State, ev: Event)
    requires Inv(s) && Enabled(s, ev) && Defined(s, ev)
    ensures Inv(Next(s, ev))
  {
    match ev
    case Free(i) => FreeNext(s, i);
    case DotHold(n) => DotNext(s, ev);
    case DotDrop(n) => DotNext(s, ev);
    case FindNode(_, _) => FindNext(s, ev);
    case ForgetNode(_, _) => ForgetNext(s, ev);
    case Begin(_) => AcquireNext(s, ev);
    case Retry(_) => AcquireNext(s, ev);
    case RemoveNode(i) => RemoveNext(s, i);
    case RenameNode(i, j) => RenameNext(s, i, j);
    case HideNode(i, hidden) => HideNext(s, i, hidden);
  }

  /** A run from the empty tree: any enabled steps, in any order. */
  ghost predicate IsRun(run: seq<State>, evs: seq<Event>) {
    && |run| == |evs| + 1 && run[0] == Init
    && forall i | 0 <= i < |evs| :: Steps(run[i], evs[i], run[i + 1])
  }

  ghost predicate Steps(s: State, ev: Event, s': State) {
    Enabled(s, ev) && Defined(s, ev) && s' == Next(s, ev)
  }

  lemma StepsInv(s: State, ev: Event, s': State)
    requires Inv(s) && Steps(s, ev, s')
    ensures Inv(s')
  {
    StepInv(s, ev);
  }

  /** A run with one more step is a run. */
  lemma RunOn(run: seq<State>, evs: seq<Event>, ev: Event, s: State)
    requires IsRun(run, evs) && Steps(run[|evs|], ev, s)
    ensures IsRun(run + [s], evs + [ev]) && (run + [s])[|evs + [ev]|] == s
  {
    var run', evs' := run + [s], evs + [ev];
    forall i | 0 <= i < |evs'|
      ensures Steps(run'[i], evs'[i], run'[i + 1])
    {
      if i < |evs| { assert Steps(run[i], evs[i], run[i + 1]); }
    }
  }

  lemma {:induction false} RunInv(run: seq<State>, evs: seq<Event>, i: nat)
    requires IsRun(run, evs) && i < |run|
    ensures Inv(run[i])
    decreases i
  {
    if i == 0 {
      RunStart(run, evs);
    } else {
      RunInv(run, evs, i - 1);
      RunNext(run, evs, i);
    }
  }

  lemma RunStart(run: seq<State>, evs: seq<Event>)
    requires IsRun(run, evs)
    ensures Inv(run[0])
  {
    InitInv();
  }

  lemma RunNext(run: seq<State>, evs: seq<Event>, i: nat)
    requires IsRun(run, evs) && 0 < i < |run| && Inv(run[i - 1])
    ensures Inv(run[i])
  {
    var h := i - 1;
    assert Steps(run[h], evs[h], run[h + 1]);
    StepsInv(run[h], evs[h], run[h + 1]);
  }

  /** From grant to release, a path is the one the current tree gives for its directory and name. */
  lemma HeldPathsStayTrue(run: seq<State>, evs: seq<Event>, i: nat, k: nat)
    requires IsRun(run, evs) && i < |run| && k < |run[i].holds|
    ensures var h := run[i].holds[k];
            && HasChain(run[i].t, h.req.dir)
            && var c := ChainOf(run[i].t, h.req.dir);
            && c[|c| - 1] == ROOT && h.path == PathOf(run[i].t, h.req.dir, c, h.req.name)
  {
    RunInv(run, evs, i);
    assert HoldOk(run[i].t, run[i].holds[k]);
    FreeStep(run[i], k);
  }

  /** A treelock counts the paths through its node, or is -1 for the one path that holds it to change it. */
  lemma TreelocksCountHolds(run: seq<State>, evs: seq<Event>, i: nat, n: Ino)
    requires IsRun(run, evs) && i < |run| && n in run[i].t && n != ROOT
    ensures var hs := run[i].holds;
            var l := run[i].t[n].treelock;
            && (l == -1 <==> Writers(hs, n) == 1 && Readers(hs, n) == 0)
            && (l != -1 ==> l == Readers(hs, n) && Writers(hs, n) == 0)
  {
    RunInv(run, evs, i);
  }

  /** The reference counter is positive and counts lookups (once), children and "." references. */
  lemma RefctrsCountReferences(run: seq<State>, evs: seq<Event>, i: nat, n: Ino)
    requires IsRun(run, evs) && i < |run| && n in run[i].t
    ensures run[i].t[n].refctr > 0
    ensures run[i].t[n].refctr ==
            (if run[i].t[n].nlookup > 0 then 1 else 0) + |Children(run[i].t, n)| + run[i].dots[n]
  {
    RunInv(run, evs, i);
    assert run[i].t[n].refctr == RefCount(run[i].t, run[i].dots, n);
  }

  // ----- Nodes are freed when, and only when, nothing refers to them

  ghost predicate Referenced(s: State, n: Ino) {
    || (n in s.t && s.t[n].nlookup > 0)
    || n in s.dots
    || (exists m :: m in s.t && s.t[m].link.Some? && s.t[m].link.value.parent == n)
    || (exists i :: 0 <= i < |s.holds| && (n in s.holds[i].chain || s.holds[i].w == Some(n)))
  }

  /** The nodes of a state are exactly the referenced ones. */
  lemma NodesAreReferenced(s: State, n: Ino)
    requires Inv(s)
    ensures n in s.t <==> Referenced(s, n)
  {
    if n in s.t {
      CountedReferenced(s, n);
    } else if exists i :: 0 <= i < |s.holds| && (n in s.holds[i].chain || s.holds[i].w == Some(n)) {
      var i :| 0 <= i < |s.holds| && (n in s.holds[i].chain || s.holds[i].w == Some(n));
      HeldLookups(s.t, s.holds, i, n);
    }
  }

  lemma CountedReferenced(s: State, n: Ino)
    requires Counted(s.t, s.dots) && n in s.t
    ensures Referenced(s, n)
  {
    assert s.t[n].refctr == RefCount(s.t, s.dots, n);
    if s.t[n].nlookup == 0 && n !in s.dots {
      assert |Children(s.t, n)| > 0;
      var m :| m in Children(s.t, n);
      assert m in s.t && s.t[m].link.value.parent == n;
    }
  }

  /** Nodes go only when forgotten or when a "." reference is dropped; at most one parent goes along. */
  lemma DeletionStopsAtParent(s: State, ev: Event)
    requires Inv(s) && Enabled(s, ev) && Defined(s, ev)
    ensures match ev
            case ForgetNode(n, k) =>
              s.t.Keys - Next(s, ev).t.Keys <=
              {n} + (if s.t[n].link.Some? then {s.t[n].link.value.parent} else {})
            case DotDrop(n) => s.t.Keys - Next(s, ev).t.Keys <= {n}
            case _ => s.t.Keys <= Next(s, ev).t.Keys
  {
    match ev
    case Begin(_) => AcquireKeys(s, ev);
    case Retry(_) => AcquireKeys(s, ev);
    case RemoveNode(_) => ChangeKeys(s, ev);
    case RenameNode(_, _) => ChangeKeys(s, ev);
    case HideNode(_, _) => ChangeKeys(s, ev);
    case ForgetNode(n, k) => ForgetKeys(s.t, n, k);
    case FindNode(i, id) => FindKeys(s.t, s.holds[i].req.dir, s.holds[i].req.name, id);
    case Free(_) =>
    case DotHold(_) =>
    case DotDrop(_) =>
  }

  lemma AcquireKeys(s: State, ev: Event)
    requires Enabled(s, ev) && Defined(s, ev) && (ev.Begin? || ev.Retry?)
    ensures s.t.Keys <= Next(s, ev).t.Keys
  {
    AcquireShape(s.t, if ev.Begin? then ev.op else s.queue[ev.i]);
  }

  /** An attempt changes locks and tickets only. */
  lemma AcquireShape(t: Tree, op: Op)
    requires Walkable(t, op)
    ensures Acquire(t, op).0.Keys == t.Keys
  {
    var c := ChainOf(t, op.first.dir);
    TryShape(t, op.first, c, op.ticket);
    var (t1, o) := Try(t, op.first, c, op.ticket);
    if o.Granted? && op.second.Some? {
      SameLinks(t, t1);
      TryShape(t1, op.second.value, ChainOf(t, op.second.value.dir), op.ticket);
    }
  }

  lemma ForgetKeys(t: Tree, n: Ino, k: nat)
    requires ParentIn(t, n) && k <= t[n].nlookup && (t[n].link.Some? ==> t[n].link.value.parent != n)
    ensures t.Keys - Forget(t, n, k).Keys <= {n} + (if t[n].link.Some? then {t[n].link.value.parent} else {})
  {
  }

  lemma FindKeys(t: Tree, dir: Ino, name: Option<string>, id: Ino)
    requires dir in t
    ensures t.Keys <= Find(t, dir, name, id).Keys
  {
  }

  lemma ChangeKeys(s: State, ev: Event)
    requires Inv(s) && Enabled(s, ev) && Defined(s, ev) && (ev.RemoveNode? || ev.RenameNode? || ev.HideNode?)
    ensures s.t.Keys <= Next(s, ev).t.Keys
  {
    if Target(s.t, s.holds[ev.i].req).Some? {
      match ev
      case RemoveNode(i) => RemoveKeys(s, i);
      case RenameNode(i, j) => RenameKeys(s, i, j);
      case HideNode(i, hidden) => HideKeys(s, i, hidden);
    }
  }

  lemma RemoveKeys(s: State, i: nat)
    requires Inv(s) && ActsOnOwn(s, i) && Target(s.t, s.holds[i].req).Some?
    ensures ParentIn(s.t, Target(s.t, s.holds[i].req).value)
    ensures Unhash(s.t, Target(s.t, s.holds[i].req).value).Keys == s.t.Keys
  {
    HeldParent(s, i);
    UnhashKeeps(s.t, Target(s.t, s.holds[i].req).value);
  }

  lemma HideKeys(s: State, i: nat, hidden: string)
    requires Inv(s) && ActsOnOwn(s, i) && Target(s.t, s.holds[i].req).Some?
    ensures var n := Target(s.t, s.holds[i].req).value;
            ParentIn(s.t, n) && s.t.Keys <= Move(s.t, n, None, s.holds[i].req.dir, hidden).Keys
  {
    RemoveKeys(s, i);
  }

  lemma RenameKeys(s: State, i: nat, j: nat)
    requires Inv(s) && i != j && ActsOnOwn(s, i) && ActsOnOwn(s, j)
    requires Target(s.t, s.holds[i].req).Some?
    ensures var n := Target(s.t, s.holds[i].req).value;
            var v := Target(s.t, s.holds[j].req);
            var to := s.holds[j].req;
            && ParentIn(s.t, n) && (v.Some? ==> ParentIn(s.t, v.value))
            && s.t.Keys <= Move(s.t, n, v, to.dir, to.name.value).Keys
  {
    var n, to := Target(s.t, s.holds[i].req).value, s.holds[j].req;
    HeldParent(s, i);
    if Target(s.t, to).None? {
      UnhashKeeps(s.t, n);
    } else {
      HeldParent(s, j);
      OwnLocked(s, i);
      OneWriter(s.t, s.holds, i, j, n);
      MoveOverKeys(s.t, s.dots, n, Target(s.t, to).value, to.dir, to.name.value);
    }
  }

  lemma MoveOverKeys(t: Tree, refs: multiset<Ino>, n: Ino, v: Ino, dir: Ino, name: string)
    requires TreeOk(t, refs) && n in t && v in t && n != v && ParentIn(t, n) && ParentIn(t, v)
    requires t[n].link.Some? && t[t[n].link.value.parent].nlookup > 0
    requires t[v].link.Some? && t[v].link.value.parent != v && t[t[v].link.value.parent].refctr != 1
    ensures t.Keys <= Move(t, n, Some(v), dir, name).Keys
  {
    UnhashKeeps(t, v);
    UnhashTwice(t, refs, n, v);
  }

  lemma UnhashTwice(t: Tree, refs: multiset<Ino>, n: Ino, v: Ino)
    requires TreeOk(t, refs) && n in t && v in t && n != v
    requires t[n].link.Some? && t[t[n].link.value.parent].nlookup > 0
    requires Unhash(t, v).Keys == t.Keys
    requires forall m | m in t :: Unhash(t, v)[m].nlookup == t[m].nlookup
    requires forall m | m in t && m != v :: Unhash(t, v)[m].link == t[m].link
    ensures ParentIn(Unhash(t, v), n) && Unhash(Unhash(t, v), n).Keys == t.Keys
  {
    UnhashTree(t, refs, v);
    ParentStays(Unhash(t, v), refs, n);
    UnhashKeeps(Unhash(t, v), n);
  }

  /** A parent with lookups of its own outlives its children. */
  lemma ParentStays(t: Tree, refs: multiset<Ino>, n: Ino)
    requires TreeOk(t, refs) && n in t && t[n].link.Some? && t[t[n].link.value.parent].nlookup > 0
    ensures t[t[n].link.value.parent].refctr != 1 && t[n].link.value.parent != n
  {
    ParentLookups(t, refs, n);
  }

  lemma HeldParent(s: State, i: nat)
    requires Inv(s) && ActsOnOwn(s, i) && Target(s.t, s.holds[i].req).Some?
    ensures var n := Target(s.t, s.holds[i].req).value;
            && s.t[n].link.Some? && s.t[n].link.value.parent in s.t && s.t[n].link.value.parent != n
            && s.t[s.t[n].link.value.parent].nlookup > 0 && s.t[s.t[n].link.value.parent].refctr != 1
  {
    assert HoldOk(s.t, s.holds[i]);
    ChainIn(s.t, s.holds[i].req.dir, s.holds[i].chain);
    HeldLookups(s.t, s.holds, i, s.holds[i].req.dir);
    ParentLookups(s.t, s.dots, Target(s.t, s.holds[i].req).value);
  }

  lemma UnhashKeeps(t: Tree, n: Ino)
    requires ParentIn(t, n) && t[n].link.Some?
    requires t[n].link.value.parent != n && t[t[n].link.value.parent].refctr != 1
    ensures Unhash(t, n).Keys == t.Keys
    ensures forall m | m in t :: Unhash(t, n)[m].nlookup == t[m].nlookup
    ensures forall m | m in t && m != n :: Unhash(t, n)[m].link == t[m].link
  {
  }

  // ----- The assertions in the code

  /** unlock_path: the write-locked node is at -1 and every node of the walk is read-locked. */
  ghost predicate UnlockSafe(t: Tree, c: seq<Ino>, w: Option<Ino>) {
    && (w.Some? ==> w.value in t && t[w.value].treelock == -1)
    && forall n | n in c && n != ROOT :: n in t && t[n].treelock > 0
  }

  /** A failing try_get_path unlocks what it had locked: the counters were not negative before. */
  ghost predicate TrySafe(t: Tree, r: Request, c: seq<Ino>, ticket: int)
    requires IsChain(t, r.dir, c)
  {
    ChainIn(t, r.dir, c);
    var t1 := WriteLock(t, Target(t, r));
    forall j | 0 <= j < StopAt(t1, c, ticket, 0) :: t1[c[j]].treelock >= 0
  }

  ghost predicate AcquireSafe(t: Tree, op: Op)
    requires Walkable(t, op)
  {
    var c := ChainOf(t, op.first.dir);
    var (t1, o) := Try(t, op.first, c, op.ticket);
    && TrySafe(t, op.first, c, op.ticket)
    && (o.Granted? && op.second.Some? ==>
          var c2 := ChainOf(t, op.second.value.dir);
          && IsChain(t1, op.second.value.dir, c2)
          && TrySafe(t1, op.second.value, c2, op.ticket)
          && var (t2, o2) := Try(t1, op.second.value, c2, op.ticket);
          !o2.Granted? ==> UnlockSafe(t2, c, o.w))
  }

  /** unhash_name: the parent's reference can be dropped. */
  ghost predicate UnhashSafe(t: Tree, n: Ino) {
    n in t && (t[n].link.Some? ==> UnrefSafe(t[n := t[n].(link := None)], t[n].link.value.parent))
  }

  ghost predicate Asserts(s: State, ev: Event)
    requires Enabled(s, ev) && Defined(s, ev)
  {
    match ev
    case Begin(op) => AcquireSafe(s.t, op)
    case Retry(i) => AcquireSafe(s.t, s.queue[i])
    case Free(i) => UnlockSafe(s.t, ChainOf(s.t, s.holds[i].req.dir), s.holds[i].w)
    case FindNode(i, id) => s.holds[i].req.dir in s.t
    case ForgetNode(n, k) =>
      k == s.t[n].nlookup ==>
        && UnhashSafe(s.t, n)
        && UnrefSafe(Unhash(s.t[n := s.t[n].(nlookup := 0)], n), n)
    case RemoveNode(i) =>
      var w := Target(s.t, s.holds[i].req);
      w.Some? ==> UnhashSafe(s.t, w.value)
    case RenameNode(i, j) =>
      var w := Target(s.t, s.holds[i].req);
      var v := Target(s.t, s.holds[j].req);
      w.Some? ==>
        && (v.Some? ==> UnhashSafe(s.t, v.value))
        && var t1 := if v.Some? then Unhash(s.t, v.value) else s.t;
        && UnhashSafe(t1, w.value) && ParentIn(t1, w.value) && s.holds[j].req.dir in Unhash(t1, w.value)
    case HideNode(i, _) =>
      var w := Target(s.t, s.holds[i].req);
      w.Some? ==> UnhashSafe(s.t, w.value) && s.holds[i].req.dir in Unhash(s.t, w.value)
    case DotHold(n) => true
    case DotDrop(n) => UnrefSafe(s.t, n)
  }

  lemma TryIsSafe(t: Tree, hs: seq<Hold>, r: Request, c: seq<Ino>, ticket: int)
    requires IsChain(t, r.dir, c) && LinksOk(t) && LocksOk(t, hs) && ticket != 0
    ensures TrySafe(t, r, c, ticket)
  {
    ChainIn(t, r.dir, c);
    var t1 := WriteLock(t, Target(t, r));
    var k := StopAt(t1, c, ticket, 0);
    forall j | 0 <= j < k
      ensures t1[c[j]].treelock >= 0
    {
      assert c[j] in c[..|c| - 1];
      assert !Blocked(t1[c[j]], ticket);
      assert LockOk(t[c[j]].treelock, Readers(hs, c[j]), Writers(hs, c[j]));
    }
  }

  lemma AcquireIsSafe(s: State, op: Op)
    requires Inv(s) && Walkable(s.t, op) && op.ticket != 0
    ensures AcquireSafe(s.t, op)
  {
    var t, hs := s.t, s.holds;
    var c := ChainOf(t, op.first.dir);
    var (t1, o) := Try(t, op.first, c, op.ticket);
    TryIsSafe(t, hs, op.first, c, op.ticket);
    if o.Granted? && op.second.Some? {
      TryGranted(t, hs, op.first, c, op.ticket);
      SameLinks(t, t1);
      assert LinksOk(t1);
      SecondIsSafe(t1, hs, Hold(op.first, c, o.w, o.path), op.second.value, ChainOf(t, op.second.value.dir), op.ticket);
    }
  }

  lemma SecondIsSafe(t1: Tree, hs: seq<Hold>, h: Hold, r: Request, c2: seq<Ino>, ticket: int)
    requires IsChain(t1, r.dir, c2) && LinksOk(t1) && HoldsOk(t1, hs + [h]) && LocksOk(t1, hs + [h]) && ticket != 0
    ensures TrySafe(t1, r, c2, ticket)
    ensures var (t2, o2) := Try(t1, r, c2, ticket); !o2.Granted? ==> UnlockSafe(t2, h.chain, h.w)
  {
    TryIsSafe(t1, hs + [h], r, c2, ticket);
    HoldUnlocks(t1, hs + [h], |hs|);
    if !Try(t1, r, c2, ticket).1.Granted? {
      TryFailed(t1, r, c2, ticket);
      assert (hs + [h])[|hs|] == h;
    }
  }

  lemma HoldUnlocks(t: Tree, hs: seq<Hold>, i: nat)
    requires HoldsOk(t, hs) && LocksOk(t, hs) && i < |hs|
    ensures UnlockSafe(t, hs[i].chain, hs[i].w)
  {
    assert HoldOk(t, hs[i]);
    ChainIn(t, hs[i].req.dir, hs[i].chain);
    forall n | n in t && n != ROOT
      ensures n in hs[i].chain ==> t[n].treelock > 0
      ensures hs[i].w == Some(n) ==> t[n].treelock == -1
    {
      HeldLocks(t, hs, i, n);
    }
  }

  lemma ForgetIsSafe(t: Tree, refs: multiset<Ino>, hs: seq<Hold>, n: Ino)
    requires Full(t, refs, hs) && n in t && n != ROOT && 0 < t[n].nlookup && t[n].treelock == 0 && ParentIn(t, n)
    ensures UnhashSafe(t, n) && UnrefSafe(Unhash(t[n := t[n].(nlookup := 0)], n), n)
  {
    UnhashInv(t, refs, hs, n);
    if t[n].link.Some? { ParentLookups(t, refs, n); }
    assert t[n].refctr > 0;
    UnhashSelf(t, n);
  }

  lemma UnhashSelf(t: Tree, n: Ino)
    requires ParentIn(t, n) && (t[n].link.Some? ==> t[n].link.value.parent != n)
    ensures var u := Unhash(t[n := t[n].(nlookup := 0)], n);
            n in u && u[n] == t[n].(nlookup := 0, link := None)
  {
  }

  lemma ChangeIsSafe(s: State, i: nat)
    requires Inv(s) && ActsOnOwn(s, i) && Target(s.t, s.holds[i].req).Some?
    ensures var n := Target(s.t, s.holds[i].req).value;
            && ParentIn(s.t, n) && UnhashSafe(s.t, n) && Full(Unhash(s.t, n), s.dots, s.holds)
            && n in Unhash(s.t, n) && Unhash(s.t, n).Keys == s.t.Keys
  {
    var n := Target(s.t, s.holds[i].req).value;
    OwnLocked(s, i);
    UnhashInv(s.t, s.dots, s.holds, n);
    HeldParent(s, i);
    UnhashKeeps(s.t, n);
  }

  lemma RenameIsSafe(s: State, i: nat, j: nat)
    requires Inv(s) && i != j && ActsOnOwn(s, i) && ActsOnOwn(s, j) && Target(s.t, s.holds[i].req).Some?
    requires Target(s.t, s.holds[j].req).Some?
    ensures var n := Target(s.t, s.holds[i].req).value;
            var v := Target(s.t, s.holds[j].req).value;
            && ParentIn(s.t, v) && UnhashSafe(s.t, v)
            && var t1 := Unhash(s.t, v);
            && ParentIn(t1, n) && UnhashSafe(t1, n) && s.holds[j].req.dir in Unhash(t1, n)
  {
    var n := Target(s.t, s.holds[i].req).value;
    var v := Target(s.t, s.holds[j].req).value;
    ChangeIsSafe(s, j);
    OwnLocked(s, i);
    OwnLocked(s, j);
    OneWriter(s.t, s.holds, i, j, n);
    var t1 := Unhash(s.t, v);
    UnhashInv(s.t, s.dots, s.holds, v);
    UnhashOther(s.t, v, n);
    UnhashInv(t1, s.dots, s.holds, n);
    assert HoldOk(Unhash(t1, n), s.holds[j]);
  }

  /** No assertion of the code fails in any step of any run. */
  lemma AssertsHold(s: State, ev: Event)
    requires Inv(s) && Enabled(s, ev) && Defined(s, ev)
    ensures Asserts(s, ev)
  {
    match ev
    case Begin(op) => AcquireIsSafe(s, op);
    case Retry(i) => AcquireIsSafe(s, s.queue[i]);
    case Free(i) => FreeStep(s, i); HoldUnlocks(s.t, s.holds, i);
    case FindNode(i, id) =>
    case ForgetNode(n, k) => if k == s.t[n].nlookup { ForgetIsSafe(s.t, s.dots, s.holds, n); }
    case RemoveNode(i) => if Target(s.t, s.holds[i].req).Some? { ChangeIsSafe(s, i); }
    case RenameNode(i, j) => RenameAsserts(s, i, j);
    case HideNode(i, _) => HideAsserts(s, i);
    case DotHold(n) =>
    case DotDrop(n) => DotDropStep(s.t, s.dots, s.holds, n);
  }

  lemma RenameAsserts(s: State, i: nat, j: nat)
    requires Inv(s) && Enabled(s, RenameNode(i, j)) && Defined(s, RenameNode(i, j))
    ensures Asserts(s, RenameNode(i, j))
  {
    if Target(s.t, s.holds[i].req).Some? {
      if Target(s.t, s.holds[j].req).Some? {
        RenameIsSafe(s, i, j);
      } else {
        ChangeIsSafe(s, i);
        assert HoldOk(s.t, s.holds[j]);
      }
    }
  }

  lemma HideAsserts(s: State, i: nat)
    requires Inv(s) && Enabled(s, HideNode(i, "")) && Defined(s, HideNode(i, ""))
    ensures var w := Target(s.t, s.holds[i].req);
            w.Some? ==> UnhashSafe(s.t, w.value) && s.holds[i].req.dir in Unhash(s.t, w.value)
  {
    if Target(s.t, s.holds[i].req).Some? {
      ChangeIsSafe(s, i);
      assert HoldOk(s.t, s.holds[i]);
    }
  }

  /** Every reachable step is defined and safe. */
  lemma RunsAreSafe(run: seq<State>, evs: seq<Event>, i: nat, ev: Event)
    requires IsRun(run, evs) && i < |run| && Enabled(run[i], ev)
    ensures Defined(run[i], ev) && Asserts(run[i], ev)
  {
    RunInv(run, evs, i);
    StepDefined(run[i], ev);
    AssertsHold(run[i], ev);
  }
}
