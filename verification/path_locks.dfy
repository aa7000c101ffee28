/**
 The tree locks that keep a path string true while a file system operation uses it.

 An operation asks for one or two paths.  Granting a path read-locks every node from
 its directory up to the root and, for a removal or a rename, write-locks the named
 node.  Every section under the library lock is one atomic step here; a run is any
 interleaving of the steps of any number of operations.
 */
module PathLocks {
  import opened Wrappers
  import opened NodeTree

  /** `wr` asks for the named node to be write-locked. */
  datatype Request = Request(dir: Ino, name: Option<string>, wr: bool)

  /** An outstanding path, from the grant to its release. */
  datatype Hold = Hold(req: Request, chain: seq<Ino>, w: Option<Ino>, path: string)

  datatype Outcome = Granted(path: string, w: Option<Ino>) | Again | NoEnt

  // ----- try_get_path and unlock_path

  predicate Blocked(n: Node, ticket: int) {
    ticket != 0 && (n.treelock == -1 || (n.ticket != 0 && n.ticket != ticket))
  }

  predicate WriteBlocked(n: Node, ticket: int) {
    n.treelock != 0 || (n.ticket != 0 && n.ticket != ticket)
  }

  /** Where the walk stops: at a blocked node, or at the end of the chain. */
  function StopAt(t: Tree, c: seq<Ino>, ticket: int, i: nat): (k: nat)
    requires i < |c| && forall n | n in c :: n in t
    ensures i <= k < |c|
    ensures forall j | i <= j < k :: !Blocked(t[c[j]], ticket)
    ensures k < |c| - 1 ==> Blocked(t[c[k]], ticket)
    decreases |c| - i
  {
    if i == |c| - 1 || Blocked(t[c[i]], ticket) then i else StopAt(t, c, ticket, i + 1)
  }

  function WriteLock(t: Tree, w: Option<Ino>): Tree {
    if w.Some? && w.value in t then t[w.value := t[w.value].(treelock := -1, ticket := 0)] else t
  }

  function ReadLock(t: Tree, ns: seq<Ino>): Tree {
    map n | n in t :: if n in ns then t[n].(treelock := t[n].treelock + 1, ticket := 0) else t[n]
  }

  /** What a failed attempt leaves behind: its ticket on the nodes it had locked. */
  function Reserve(t: Tree, ns: seq<Ino>, ticket: int): Tree {
    map n | n in t :: if n in ns then t[n].(ticket := ticket) else t[n]
  }

  function Stamp(n: Node, ticket: int): Node {
    if n.ticket == 0 then n.(ticket := ticket) else n
  }

  /** unlock_path over the chain `c`, up to but without the root. */
  function Unlock(t: Tree, c: seq<Ino>, w: Option<Ino>, ticket: int): Tree {
    map n | n in t ::
      if w == Some(n) then Stamp(t[n].(treelock := 0), ticket)
      else if n in c && n != ROOT then Stamp(t[n].(treelock := t[n].treelock - 1), ticket)
      else t[n]
  }

  function OptSeq(w: Option<Ino>): seq<Ino> {
    match w case None => [] case Some(n) => [n]
  }

  ghost function Target(t: Tree, r: Request): (w: Option<Ino>)
  {
    if r.wr && r.name.Some? then Lookup(t, r.dir, r.name.value) else None
  }

  /** try_get_path */
  ghost function Try(t: Tree, r: Request, c: seq<Ino>, ticket: int): (Tree, Outcome)
    requires IsChain(t, r.dir, c)
  {
    var w := Target(t, r);
    if w.Some? && WriteBlocked(t[w.value], ticket) then
      (t[w.value := Stamp(t[w.value], ticket)], Again)
    else
      var t1 := WriteLock(t, w);
      ChainIn(t, r.dir, c);
      var k := StopAt(t1, c, ticket, 0);
      if c[k] == ROOT then
        (if ticket == 0 then t else ReadLock(t1, c[..k]), Granted(PathOf(t, r.dir, c, r.name), w))
      else
        (if ticket == 0 then t else Reserve(t, c[..k] + OptSeq(w), ticket),
         if k < |c| - 1 then Again else NoEnt)
  }

  lemma ChainIn(t: Tree, d: Ino, c: seq<Ino>)
    requires IsChain(t, d, c)
    ensures d in c && forall n | n in c :: n in t
    ensures forall n | n in c[..|c| - 1] :: n != ROOT && t[n].link.Some?
    ensures forall n | n in c && n !in c[..|c| - 1] :: n == c[|c| - 1]
    ensures ROOT in c ==> c[|c| - 1] == ROOT
  {
    var below := c[..|c| - 1];
    assert c[0] == d;
    forall n | n in c
      ensures n in t && (n !in below ==> n == c[|c| - 1]) && (n == ROOT ==> c[|c| - 1] == ROOT)
    {
      var i :| 0 <= i < |c| && c[i] == n;
      ChainAt(t, d, c, i);
      if i < |c| - 1 { assert below[i] == n; }
    }
    forall n | n in below
      ensures n in t && n != ROOT && t[n].link.Some?
    {
      var i :| 0 <= i < |below| && below[i] == n;
      assert c[i] == n;
      ChainAt(t, d, c, i);
    }
  }

  ghost function ChainOf(t: Tree, d: Ino): (c: seq<Ino>)
    requires HasChain(t, d)
    ensures IsChain(t, d, c)
  {
    var c :| IsChain(t, d, c); c
  }

  // ----- Operations

  datatype Op = Op(first: Request, second: Option<Request>, ticket: int)

  datatype Result = Held(holds: seq<Hold>) | Wait | Fail

  ghost predicate Walkable(t: Tree, op: Op) {
    HasChain(t, op.first.dir) && (op.second.Some? ==> HasChain(t, op.second.value.dir))
  }

  /** try_get_path for one path, try_get_path2 for two. */
  ghost function Acquire(t: Tree, op: Op): (Tree, Result)
    requires Walkable(t, op)
  {
    var c := ChainOf(t, op.first.dir);
    var (t1, o) := Try(t, op.first, c, op.ticket);
    match o
    case Again => (t1, Wait)
    case NoEnt => (t1, Fail)
    case Granted(path, w) =>
      var h := Hold(op.first, c, w, path);
      if op.second.None? then (t1, Held([h]))
      else
        TryShape(t, op.first, c, op.ticket);
        SameLinks(t, t1);
        var c2 := ChainOf(t, op.second.value.dir);
        var (t2, o2) := Try(t1, op.second.value, c2, op.ticket);
        match o2
        case Again => (Unlock(t2, c, w, op.ticket), Wait)
        case NoEnt => (Unlock(t2, c, w, op.ticket), Fail)
        case Granted(path2, w2) => (t2, Held([h, Hold(op.second.value, c2, w2, path2)]))
  }

  ghost predicate SameShape(t: Tree, t': Tree) {
    && t.Keys == t'.Keys
    && forall n | n in t ::
      t'[n].link == t[n].link && t'[n].refctr == t[n].refctr && t'[n].nlookup == t[n].nlookup
  }

  /** Trying for a path changes locks and tickets only. */
  lemma TryShape(t: Tree, r: Request, c: seq<Ino>, ticket: int)
    requires IsChain(t, r.dir, c)
    ensures SameShape(t, Try(t, r, c, ticket).0)
  {
    ChainIn(t, r.dir, c);
  }

  // ----- The state machine

  datatype State = State(t: Tree, holds: seq<Hold>, dots: multiset<Ino>, queue: seq<Op>)

  datatype Event =
    | Begin(op: Op)                       // get_path, get_path2: the first attempt
    | Retry(i: nat)                       // a queued operation tries again
    | Free(i: nat)                        // free_path
    | FindNode(i: nat, id: Ino)           // find_node, for the path held by i
    | ForgetNode(n: Ino, k: nat)
    | RemoveNode(i: nat)
    | RenameNode(i: nat, j: nat)
    | HideNode(i: nat, hidden: string)    // rename_node with the hide flag
    | DotHold(n: Ino)                     // lookup of ".": the reference
    | DotDrop(n: Ino)                     // ... and its release

  const Init := State(map[ROOT := Node(None, 1, 1, 0, 0)], [], multiset{}, [])

  /** The named node, when the path is held to change it. */
  ghost predicate ActsOnOwn(s: State, i: nat) {
    && i < |s.holds| && s.holds[i].req.wr && s.holds[i].req.name.Some?
    && (Target(s.t, s.holds[i].req).Some? ==> Target(s.t, s.holds[i].req) == s.holds[i].w)
  }

  predicate OpOk(t: Tree, op: Op) {
    && op.ticket != 0 && op.first.dir in t && (op.first.wr ==> op.first.name.Some?)
    && (op.second.Some? ==> op.second.value.dir in t && (op.second.value.wr ==> op.second.value.name.Some?))
  }

  /** When a step may happen: what the kernel and the callers in the library guarantee. */
  ghost predicate Enabled(s: State, ev: Event) {
    match ev
    case Begin(op) => OpOk(s.t, op)
    case Retry(i) => i < |s.queue| && OpOk(s.t, s.queue[i])
    case Free(i) => i < |s.holds|
    case FindNode(i, id) => i < |s.holds| && id !in s.t
    case ForgetNode(n, k) =>
      && n in s.t && n != ROOT && 0 < k <= s.t[n].nlookup
      && !(s.t[n].nlookup == k && s.t[n].treelock != 0)
    case RemoveNode(i) => ActsOnOwn(s, i)
    case RenameNode(i, j) => i != j && ActsOnOwn(s, i) && ActsOnOwn(s, j)
    case HideNode(i, _) => ActsOnOwn(s, i)
    case DotHold(n) => n in s.t
    case DotDrop(n) => n in s.dots
  }

  function Bump(t: Tree, n: Ino): Tree
    requires n in t
  {
    t[n := t[n].(nlookup := t[n].nlookup + 1)]
  }

  /** find_node */
  ghost function Find(t: Tree, dir: Ino, name: Option<string>, id: Ino): Tree
    requires dir in t
  {
    if name.None? then Bump(t, dir)
    else match Lookup(t, dir, name.value)
      case Some(n) => Bump(t, n)
      case None => Create(t, dir, name.value, id)
  }

  /** rename_node: `node` moves to (dir, name), where `over` is unlinked first. */
  ghost function Move(t: Tree, node: Ino, over: Option<Ino>, dir: Ino, name: string): Tree
    requires ParentIn(t, node) && (over.Some? ==> ParentIn(t, over.value))
  {
    var t1 := if over.Some? then Unhash(t, over.value) else t;
    var t2 := if ParentIn(t1, node) then Unhash(t1, node) else t1;
    if node in t2 && dir in t2 then Hash(t2, node, dir, name) else t2
  }

  ghost predicate ParentIn(t: Tree, n: Ino) {
    n in t && (t[n].link.Some? ==> t[n].link.value.parent in t)
  }

  /** The walks and pointers a step follows all lead somewhere. */
  ghost predicate Defined(s: State, ev: Event)
    requires Enabled(s, ev)
  {
    match ev
    case Begin(op) => Walkable(s.t, op)
    case Retry(i) => Walkable(s.t, s.queue[i])
    case Free(i) => HasChain(s.t, s.holds[i].req.dir)
    case FindNode(i, id) => s.holds[i].req.dir in s.t
    case ForgetNode(n, k) => ParentIn(s.t, n) && (s.t[n].link.Some? ==> s.t[n].link.value.parent != n)
    case RemoveNode(i) =>
      var w := Target(s.t, s.holds[i].req);
      w.Some? ==> ParentIn(s.t, w.value)
    case RenameNode(i, j) =>
      var w := Target(s.t, s.holds[i].req);
      var v := Target(s.t, s.holds[j].req);
      (w.Some? ==> ParentIn(s.t, w.value)) && (v.Some? ==> ParentIn(s.t, v.value))
    case HideNode(i, _) =>
      var w := Target(s.t, s.holds[i].req);
      w.Some? ==> ParentIn(s.t, w.value)
    case DotHold(n) => true
    case DotDrop(n) => n in s.t
  }

  ghost function Next(s: State, ev: Event): State
    requires Enabled(s, ev) && Defined(s, ev)
  {
    match ev
    case Begin(op) =>
      var (t1, r) := Acquire(s.t, op);
      (match r
       case Held(hs) => s.(t := t1, holds := s.holds + hs)
       case Wait => s.(t := t1, queue := s.queue + [op])
       case Fail => s.(t := t1))
    case Retry(i) =>
      var (t1, r) := Acquire(s.t, s.queue[i]);
      (match r
       case Held(hs) => s.(t := t1, holds := s.holds + hs, queue := s.queue[..i] + s.queue[i + 1..])
       case Wait => s.(t := t1)
       case Fail => s.(t := t1, queue := s.queue[..i] + s.queue[i + 1..]))
    case Free(i) =>
      var h := s.holds[i];
      s.(t := Unlock(s.t, ChainOf(s.t, h.req.dir), h.w, 0), holds := s.holds[..i] + s.holds[i + 1..])
    case FindNode(i, id) =>
      s.(t := Find(s.t, s.holds[i].req.dir, s.holds[i].req.name, id))
    case ForgetNode(n, k) => s.(t := Forget(s.t, n, k))
    case RemoveNode(i) =>
      var w := Target(s.t, s.holds[i].req);
      if w.None? then s else s.(t := Unhash(s.t, w.value))
    case RenameNode(i, j) =>
      var w := Target(s.t, s.holds[i].req);
      var to := s.holds[j].req;
      if w.None? then s else s.(t := Move(s.t, w.value, Target(s.t, to), to.dir, to.name.value))
    case HideNode(i, hidden) =>
      var w := Target(s.t, s.holds[i].req);
      var dir := s.holds[i].req.dir;
      if w.None? || Lookup(s.t, dir, hidden).Some? then s
      else s.(t := Move(s.t, w.value, None, dir, hidden))
    case DotHold(n) =>
      s.(t := s.t[n := s.t[n].(refctr := s.t[n].refctr + 1)], dots := s.dots + multiset{n})
    case DotDrop(n) => s.(t := Unref(s.t, n), dots := s.dots - multiset{n})
  }

  // ----- The invariant

  function Reads(h: Hold, n: Ino): nat {
    if n in h.chain then 1 else 0
  }

  function Writes(h: Hold, n: Ino): nat {
    if h.w == Some(n) then 1 else 0
  }

  /** How many outstanding paths pass through `n`. */
  function Readers(hs: seq<Hold>, n: Ino): nat {
    if hs == [] then 0 else Readers(hs[..|hs| - 1], n) + Reads(hs[|hs| - 1], n)
  }

  /** How many outstanding paths hold `n` to change it. */
  function Writers(hs: seq<Hold>, n: Ino): nat {
    if hs == [] then 0 else Writers(hs[..|hs| - 1], n) + Writes(hs[|hs| - 1], n)
  }

  ghost predicate HoldOk(t: Tree, h: Hold) {
    && IsChain(t, h.req.dir, h.chain) && h.chain[|h.chain| - 1] == ROOT
    && h.path == PathOf(t, h.req.dir, h.chain, h.req.name)
    && (h.w.Some? ==> h.w.value in t && h.w.value != ROOT && t[h.w.value].nlookup > 0)
  }

  ghost predicate HoldsOk(t: Tree, hs: seq<Hold>) {
    forall i | 0 <= i < |hs| :: HoldOk(t, hs[i])
  }

  predicate LockOk(treelock: int, readers: nat, writers: nat) {
    || (writers == 0 && treelock == readers)
    || (writers == 1 && readers == 0 && treelock == -1)
  }

  ghost predicate LocksOk(t: Tree, hs: seq<Hold>) {
    forall n | n in t && n != ROOT :: LockOk(t[n].treelock, Readers(hs, n), Writers(hs, n))
  }

  ghost predicate Inv(s: State) {
    TreeOk(s.t, s.dots) && HoldsOk(s.t, s.holds) && LocksOk(s.t, s.holds)
  }

  // ----- Counting

  lemma CountAppend(hs: seq<Hold>, h: Hold, n: Ino)
    ensures Readers(hs + [h], n) == Readers(hs, n) + Reads(h, n)
    ensures Writers(hs + [h], n) == Writers(hs, n) + Writes(h, n)
  {
    assert (hs + [h])[..|hs|] == hs;
  }

  lemma {:induction false} CountRemove(hs: seq<Hold>, i: nat, n: Ino)
    requires i < |hs|
    ensures Readers(hs, n) == Readers(hs[..i] + hs[i + 1..], n) + Reads(hs[i], n)
    ensures Writers(hs, n) == Writers(hs[..i] + hs[i + 1..], n) + Writes(hs[i], n)
    decreases |hs|
  {
    var last := |hs| - 1;
    if i == last {
      assert hs[..i] + hs[i + 1..] == hs[..last];
    } else {
      var init := hs[..last];
      CountRemove(init, i, n);
      assert hs[..i] + hs[i + 1..] == (init[..i] + init[i + 1..]) + [hs[last]];
      CountAppend(init[..i] + init[i + 1..], hs[last], n);
    }
  }

  /** A node on a held path is read-locked, and the node held to be changed is write-locked. */
  lemma HeldLocks(t: Tree, hs: seq<Hold>, i: nat, n: Ino)
    requires LocksOk(t, hs) && i < |hs| && n in t && n != ROOT
    ensures n in hs[i].chain ==> t[n].treelock > 0
    ensures hs[i].w == Some(n) ==> t[n].treelock == -1
  {
    CountRemove(hs, i, n);
  }

  lemma {:induction false} NoHolds(hs: seq<Hold>, n: Ino)
    requires forall i | 0 <= i < |hs| :: n !in hs[i].chain && hs[i].w != Some(n)
    ensures Readers(hs, n) == 0 && Writers(hs, n) == 0
    decreases |hs|
  {
    if hs != [] {
      var rest := hs[..|hs| - 1];
      assert forall i | 0 <= i < |rest| :: rest[i] == hs[i];
      NoHolds(rest, n);
    }
  }
}
