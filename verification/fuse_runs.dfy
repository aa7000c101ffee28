/**
 The tables and buffers of the library in whole runs: every step of every operation, done on
 the hash chains, does what the step on the tree does, and what the methods ask for holds in
 every state a run can reach.
 */
module FuseRuns {
  import opened Wrappers
  import opened NodeTree
  import opened PathLocks
  import opened PathLockRuns
  import opened FuseNodes

  /** The chains agree with a tree that satisfies the invariant. */
  ghost predicate At(f: Fuse, s: State)
    reads f
  {
    f.Valid() && f.nodes == s.t && Inv(s)
  }

  /** `t` is the tree after a step. */
  ghost predicate StepsTo(s: State, ev: Event, t: Tree) {
    Enabled(s, ev) && Defined(s, ev) && t == Next(s, ev).t
  }

  lemma TreeFacts(s: State)
    requires Inv(s)
    ensures KeysUnique(s.t) && LinksOk(s.t) && forall n | n in s.t && n != ROOT :: s.t[n].treelock >= -1
    ensures forall d | d in s.t :: HasChain(s.t, d)
  {
  }

  /** The path of a request fits a buffer of 32-bit size. */
  ghost predicate Fits(t: Tree, r: Request) {
    HasChain(t, r.dir) && |Joined(Names(t, r.dir, ChainOf(t, r.dir)) + Last(r.name))| < 0xffff_fffe
  }

  ghost predicate OpFits(t: Tree, op: Op) {
    Fits(t, op.first) && (op.second.Some? ==> Fits(t, op.second.value))
  }

  lemma JoinedLength(ns: seq<string>, name: string)
    ensures |Joined(ns + [name])| == |Joined(ns)| + 1 + |name|
  {
    assert (ns + [name])[..|ns|] == ns;
  }

  /** The walk of a node, and the length of its path. */
  method Climb(f: Fuse, dir: Ino, ghost s: State) returns (c: seq<Ino>, len: nat)
    requires At(f, s) && dir in f.nodes
    ensures HasChain(s.t, dir) && c == ChainOf(s.t, dir) && len == |Joined(Names(s.t, dir, c))|
  {
    TreeFacts(s);
    c, len := [dir], 0;
    var node := dir;
    ghost var rest := ChainOf(s.t, dir);
    assert [dir] + rest[1..] == rest;
    while node != ROOT && f.nodes[node].link.Some?
      invariant Climbing(s.t, dir, c, len, node, rest)
      decreases |rest|
    {
      NextUp(s.t, dir, c, len, node, rest);
      len := len + 1 + |f.nodes[node].link.value.name|;
      node := f.nodes[node].link.value.parent;
      c := c + [node];
      rest := rest[1..];
    }
    assert rest == [node] && c + [] == c;
  }

  /** On the way up: `c` has been passed, and `rest` is the walk from its last node. */
  ghost predicate Climbing(t: Tree, dir: Ino, c: seq<Ino>, len: nat, node: Ino, rest: seq<Ino>) {
    && HasChain(t, dir) && IsChain(t, node, rest) && c + rest[1..] == ChainOf(t, dir)
    && |Joined(Names(t, dir, ChainOf(t, dir)))| == len + |Joined(Names(t, node, rest))|
  }

  lemma NextUp(t: Tree, dir: Ino, c: seq<Ino>, len: nat, node: Ino, rest: seq<Ino>)
    requires Climbing(t, dir, c, len, node, rest) && node != ROOT && t[node].link.Some?
    ensures var link := t[node].link.value;
            Climbing(t, dir, c + [link.parent], len + 1 + |link.name|, link.parent, rest[1..])
  {
    var link := t[node].link.value;
    JoinedLength(Names(t, link.parent, rest[1..]), link.name);
    assert c + rest[1..] == c + [link.parent] + rest[1..][1..];
  }

  method PathFits(f: Fuse, r: Request, ghost s: State) returns (ok: bool, c: seq<Ino>)
    requires At(f, s) && r.dir in f.nodes
    ensures HasChain(s.t, r.dir) && c == ChainOf(s.t, r.dir) && ok == Fits(s.t, r)
  {
    var len;
    c, len := Climb(f, r.dir, s);
    ghost var ns := Names(s.t, r.dir, c);
    if r.name.Some? {
      JoinedLength(ns, r.name.value);
      len := len + 1 + |r.name.value|;
    } else {
      assert ns + [] == ns;
    }
    ok := len < 0xffff_fffe;
  }

  /** What one attempt comes to. */
  function ResultOf(o: Outcome): Result
    requires !o.Granted?
  {
    if o.Again? then Wait else Fail
  }

  /** get_path_common: one attempt. */
  method StepOne(f: Fuse, op: Op, c1: seq<Ino>, ghost s: State) returns (r: Result)
    requires At(f, s) && OpOk(s.t, op) && OpFits(s.t, op) && op.second.None? && c1 == ChainOf(s.t, op.first.dir)
    modifies f
    ensures Walkable(s.t, op) && f.Valid() && (f.nodes, r) == Acquire(s.t, op)
  {
    TreeFacts(s);
    var o := f.TryGetPath(op.first, op.ticket, c1);
    r := if o.Granted? then Held([Hold(op.first, c1, o.w, o.path)]) else ResultOf(o);
  }

  /** get_path2: one attempt. */
  method StepTwo(f: Fuse, op: Op, c1: seq<Ino>, c2: seq<Ino>, ghost s: State) returns (r: Result)
    requires At(f, s) && OpOk(s.t, op) && OpFits(s.t, op) && op.second.Some?
    requires c1 == ChainOf(s.t, op.first.dir) && c2 == ChainOf(s.t, op.second.value.dir)
    modifies f
    ensures Walkable(s.t, op) && f.Valid() && (f.nodes, r) == Acquire(s.t, op)
  {
    TreeFacts(s);
    var o1, o2 := f.TryGetPath2(op.first, op.second.value, op.ticket, c1, c2);
    if o1.Granted? && o2.Granted? {
      r := Held([Hold(op.first, c1, o1.w, o1.path), Hold(op.second.value, c2, o2.w, o2.path)]);
    } else {
      r := ResultOf(o2);
    }
  }

  /** free_path */
  method StepFree(f: Fuse, h: Hold, ghost s: State, ghost i: nat)
    requires At(f, s) && i < |s.holds| && s.holds[i] == h
    modifies f
    ensures f.Valid() && StepsTo(s, Free(i), f.nodes)
  {
    StepDefined(s, Free(i));
    AssertsHold(s, Free(i));
    assert HoldOk(s.t, h);
    ChainUnique(s.t, h.req.dir, h.chain, ChainOf(s.t, h.req.dir));
    if h.w.Some? {
      HeldLocks(s.t, s.holds, i, h.w.value);
    }
    f.FreePath(h);
  }

  method StepFind(f: Fuse, dir: Ino, name: Option<string>, ghost s: State, ghost i: nat) returns (ghost id: Ino)
    requires At(f, s) && i < |s.holds| && s.holds[i].req.dir == dir && s.holds[i].req.name == name
    requires |f.nodes| < TWO32 - 2
    modifies f
    ensures f.Valid() && StepsTo(s, FindNode(i, id), f.nodes)
  {
    TreeFacts(s);
    assert HoldOk(s.t, s.holds[i]);
    var r := f.FindNode(dir, name);
    id := r;
    if r in s.t {
      id := FreeId(s.t.Keys);
      FoundAgain(s.t, dir, name, r, id);
    }
    FindTo(s, i, id, dir, name);
  }

  lemma FindTo(s: State, i: nat, id: Ino, dir: Ino, name: Option<string>)
    requires i < |s.holds| && s.holds[i].req.dir == dir && s.holds[i].req.name == name && dir in s.t && id !in s.t
    ensures StepsTo(s, FindNode(i, id), Find(s.t, dir, name, id))
  {
  }

  lemma FoundAgain(t: Tree, dir: Ino, name: Option<string>, r: Ino, id: Ino)
    requires dir in t && r in t
    requires (name.None? ==> r == dir)
    requires name.Some? ==> Lookup(t, dir, name.value).Some?
    ensures Find(t, dir, name, id) == Find(t, dir, name, r)
  {
  }

  /** There are more numbers than nodes. */
  lemma {:induction false} FreeId(ids: set<Ino>) returns (id: Ino)
    ensures id !in ids
  {
    id := Above(ids);
  }

  lemma {:induction false} Above(ids: set<Ino>) returns (b: Ino)
    ensures forall x | x in ids :: x < b
    decreases |ids|
  {
    if ids == {} {
      b := 0;
    } else {
      var x :| x in ids;
      b := Above(ids - {x});
      assert forall y | y in ids && y != x :: y in ids - {x};
      if b <= x { b := x + 1; }
    }
  }

  method StepForget(f: Fuse, n: Ino, k: nat, ghost s: State)
    requires At(f, s) && Enabled(s, ForgetNode(n, k))
    modifies f
    ensures f.Valid() && StepsTo(s, ForgetNode(n, k), f.nodes)
  {
    StepDefined(s, ForgetNode(n, k));
    AssertsHold(s, ForgetNode(n, k));
    var waits := f.ForgetNode(n, k);
  }

  method StepRemove(f: Fuse, dir: Ino, name: string, ghost s: State, ghost i: nat)
    requires At(f, s) && ActsOnOwn(s, i) && s.holds[i].req.dir == dir && s.holds[i].req.name == Some(name)
    modifies f
    ensures f.Valid() && StepsTo(s, RemoveNode(i), f.nodes)
  {
    TreeFacts(s);
    StepDefined(s, RemoveNode(i));
    AssertsHold(s, RemoveNode(i));
    if Target(s.t, s.holds[i].req).Some? { HeldParent(s, i); }
    f.RemoveNode(dir, name);
  }

  /** What rename_node asks for holds whenever a rename may happen. */
  lemma RenameReady(s: State, i: nat, j: nat)
    requires Inv(s) && Enabled(s, RenameNode(i, j)) && Target(s.t, s.holds[i].req).Some?
    ensures Defined(s, RenameNode(i, j)) && Asserts(s, RenameNode(i, j))
    ensures var w, v := Target(s.t, s.holds[i].req).value, Target(s.t, s.holds[j].req);
            && w != s.holds[i].req.dir && w != s.holds[j].req.dir && Some(w) != v
            && (v.Some? ==> v.value != s.holds[j].req.dir)
            && (v.Some? ==> w in Unhash(s.t, v.value) && Unhash(s.t, v.value)[w].link == s.t[w].link)
  {
    StepDefined(s, RenameNode(i, j));
    AssertsHold(s, RenameNode(i, j));
    var w := Target(s.t, s.holds[i].req).value;
    HeldParent(s, i);
    OwnLocked(s, i);
    OffOtherChain(s, i, j);
    if Target(s.t, s.holds[j].req).Some? {
      HeldParent(s, j);
      OwnLocked(s, j);
      OneWriter(s.t, s.holds, i, j, w);
      UnhashKeeps(s.t, Target(s.t, s.holds[j].req).value);
    }
  }

  /** The node that is moved is not the directory it moves to: one is write-locked, the other read-locked. */
  lemma OffOtherChain(s: State, i: nat, j: nat)
    requires Inv(s) && ActsOnOwn(s, i) && Target(s.t, s.holds[i].req).Some? && j < |s.holds|
    ensures Target(s.t, s.holds[i].req).value != s.holds[j].req.dir
  {
    OwnLocked(s, i);
    assert HoldOk(s.t, s.holds[j]);
    ChainIn(s.t, s.holds[j].req.dir, s.holds[j].chain);
    HeldLocks(s.t, s.holds, j, Target(s.t, s.holds[i].req).value);
  }

  method StepRename(f: Fuse, from: Request, to: Request, ghost s: State, ghost i: nat, ghost j: nat)
    requires At(f, s) && i < |s.holds| && j < |s.holds| && from == s.holds[i].req && to == s.holds[j].req
    requires Enabled(s, RenameNode(i, j))
    modifies f
    ensures f.Valid() && StepsTo(s, RenameNode(i, j), f.nodes)
  {
    TreeFacts(s);
    StepDefined(s, RenameNode(i, j));
    if Target(s.t, from).Some? { RenameReady(s, i, j); }
    var busy := f.RenameNode(from.dir, from.name.value, to.dir, to.name.value, false);
  }

  lemma HideReady(s: State, i: nat, hidden: string)
    requires Inv(s) && Enabled(s, HideNode(i, hidden)) && Target(s.t, s.holds[i].req).Some?
    ensures Target(s.t, s.holds[i].req).value != s.holds[i].req.dir
    ensures var w := Target(s.t, s.holds[i].req).value;
            ParentIn(s.t, w) && UnhashSafe(s.t, w) && s.holds[i].req.dir in Unhash(s.t, w)
  {
    StepDefined(s, HideNode(i, hidden));
    AssertsHold(s, HideNode(i, hidden));
    OffOtherChain(s, i, i);
  }

  method StepHide(f: Fuse, from: Request, hidden: string, ghost s: State, ghost i: nat)
    requires At(f, s) && i < |s.holds| && from == s.holds[i].req && Enabled(s, HideNode(i, hidden))
    modifies f
    ensures f.Valid() && StepsTo(s, HideNode(i, hidden), f.nodes)
  {
    TreeFacts(s);
    StepDefined(s, HideNode(i, hidden));
    if Target(s.t, from).Some? { HideReady(s, i, hidden); }
    var busy := f.RenameNode(from.dir, from.name.value, from.dir, hidden, true);
  }

  method StepDotHold(f: Fuse, n: Ino, ghost s: State)
    requires At(f, s) && n in s.t
    modifies f
    ensures f.Valid() && StepsTo(s, DotHold(n), f.nodes)
  {
    DotHoldTo(s, n);
    f.DotHold(n);
  }

  lemma DotHoldTo(s: State, n: Ino)
    requires n in s.t
    ensures StepsTo(s, DotHold(n), s.t[n := s.t[n].(refctr := s.t[n].refctr + 1)])
  {
  }

  method StepDotDrop(f: Fuse, n: Ino, ghost s: State)
    requires At(f, s) && n in s.dots
    modifies f
    ensures f.Valid() && StepsTo(s, DotDrop(n), f.nodes)
  {
    StepDefined(s, DotDrop(n));
    AssertsHold(s, DotDrop(n));
    f.DotDrop(n);
  }

  // ----- Any steps in a row

  /** What a step needs besides being possible: room for its paths, or a free id. */
  ghost predicate Room(s: State, ev: Event) {
    match ev
    case Begin(op) => OpFits(s.t, op)
    case Retry(i) => i < |s.queue| && OpFits(s.t, s.queue[i])
    case FindNode(_, _) => |s.t| < TWO32 - 2
    case _ => true
  }

  /** A step was taken exactly when it could be. */
  ghost predicate Took(s: State, ev: Event, done: bool, s': State) {
    && (done <==> Enabled(s, ev) && Room(s, ev))
    && (if done then Steps(s, ev, s') && Inv(s') else s' == s)
  }

  /** A command can be carried out; a new node gets whatever id is free. */
  ghost predicate Can(s: State, cmd: Event) {
    Room(s, cmd) && if cmd.FindNode? then cmd.i < |s.holds| else Enabled(s, cmd)
  }

  predicate Obeys(cmd: Event, ev: Event) {
    if cmd.FindNode? then ev.FindNode? && ev.i == cmd.i else ev == cmd
  }

  /** The steps of the run are the commands in their order, without those that could not be carried out. */
  ghost predicate Answers(cmds: seq<Event>, run: seq<State>, evs: seq<Event>)
    requires |run| == |evs| + 1
    decreases |cmds|
  {
    if cmds == [] then evs == []
    else
      var earlier, cmd, n := cmds[..|cmds| - 1], cmds[|cmds| - 1], |evs|;
      || (!Can(run[n], cmd) && Answers(earlier, run, evs))
      || (n > 0 && Can(run[n - 1], cmd) && Obeys(cmd, evs[n - 1]) && Answers(earlier, run[..n], evs[..n - 1]))
  }

  lemma {:induction false} AnswersOn(cmds: seq<Event>, run: seq<State>, evs: seq<Event>, cmd: Event)
    requires |run| == |evs| + 1 && Answers(cmds, run, evs)
    ensures !Can(run[|evs|], cmd) ==> Answers(cmds + [cmd], run, evs)
    ensures forall ev, s' | Can(run[|evs|], cmd) && Obeys(cmd, ev) ::
              Answers(cmds + [cmd], run + [s'], evs + [ev])
  {
    assert (cmds + [cmd])[..|cmds|] == cmds;
    forall ev, s' | Can(run[|evs|], cmd) && Obeys(cmd, ev)
      ensures Answers(cmds + [cmd], run + [s'], evs + [ev])
    {
      assert (run + [s'])[..|evs| + 1] == run && (evs + [ev])[..|evs|] == evs;
    }
  }

  lemma TookStep(s: State, ev: Event, s': State)
    requires Inv(s) && Room(s, ev) && Steps(s, ev, s')
    ensures Took(s, ev, true, s')
  {
    StepsInv(s, ev, s');
  }

  lemma BeginTook(s: State, op: Op, s': State, r: Result)
    requires Inv(s) && OpOk(s.t, op) && OpFits(s.t, op) && Walkable(s.t, op) && (s'.t, r) == Acquire(s.t, op)
    requires s'.holds == (if r.Held? then s.holds + r.holds else s.holds) && s'.dots == s.dots
    requires s'.queue == if r.Wait? then s.queue + [op] else s.queue
    ensures Took(s, Begin(op), true, s')
  {
    BeginIs(s, op, s', r);
    TookStep(s, Begin(op), s');
  }

  lemma BeginIs(s: State, op: Op, s': State, r: Result)
    requires OpOk(s.t, op) && Walkable(s.t, op) && (s'.t, r) == Acquire(s.t, op)
    requires s'.holds == (if r.Held? then s.holds + r.holds else s.holds) && s'.dots == s.dots
    requires s'.queue == if r.Wait? then s.queue + [op] else s.queue
    ensures Steps(s, Begin(op), s')
  {
  }

  lemma RetryTook(s: State, i: nat, s': State, r: Result)
    requires Inv(s) && i < |s.queue| && OpOk(s.t, s.queue[i]) && OpFits(s.t, s.queue[i])
    requires Walkable(s.t, s.queue[i]) && (s'.t, r) == Acquire(s.t, s.queue[i])
    requires s'.holds == (if r.Held? then s.holds + r.holds else s.holds) && s'.dots == s.dots
    requires s'.queue == if r.Wait? then s.queue else s.queue[..i] + s.queue[i + 1..]
    ensures Took(s, Retry(i), true, s')
  {
    RetryIs(s, i, s', r);
    TookStep(s, Retry(i), s');
  }

  lemma RetryIs(s: State, i: nat, s': State, r: Result)
    requires i < |s.queue| && OpOk(s.t, s.queue[i])
    requires Walkable(s.t, s.queue[i]) && (s'.t, r) == Acquire(s.t, s.queue[i])
    requires s'.holds == (if r.Held? then s.holds + r.holds else s.holds) && s'.dots == s.dots
    requires s'.queue == if r.Wait? then s.queue else s.queue[..i] + s.queue[i + 1..]
    ensures Steps(s, Retry(i), s')
  {
  }

  lemma DotHoldTook(s: State, n: Ino, s': State)
    requires Inv(s) && StepsTo(s, DotHold(n), s'.t) && s' == State(s'.t, s.holds, s.dots + multiset{n}, s.queue)
    ensures Took(s, DotHold(n), true, s')
  {
    DotSteps(s, n, s');
    TookStep(s, DotHold(n), s');
  }

  lemma DotSteps(s: State, n: Ino, s': State)
    ensures StepsTo(s, DotHold(n), s'.t) && s' == State(s'.t, s.holds, s.dots + multiset{n}, s.queue) ==>
            Steps(s, DotHold(n), s')
    ensures StepsTo(s, DotDrop(n), s'.t) && s' == State(s'.t, s.holds, s.dots - multiset{n}, s.queue) ==>
            Steps(s, DotDrop(n), s')
  {
  }

  lemma DotDropTook(s: State, n: Ino, s': State)
    requires Inv(s) && StepsTo(s, DotDrop(n), s'.t) && s' == State(s'.t, s.holds, s.dots - multiset{n}, s.queue)
    ensures Took(s, DotDrop(n), true, s')
  {
    DotSteps(s, n, s');
    TookStep(s, DotDrop(n), s');
  }

  lemma NoDotHold(s: State, n: Ino)
    requires n !in s.t
    ensures Took(s, DotHold(n), false, s)
  {
  }

  lemma NoDotDrop(s: State, n: Ino)
    requires n !in s.dots
    ensures Took(s, DotDrop(n), false, s)
  {
  }

  /** The library: the tables, the paths given out, the waiting operations, the lookups of "." under way. */
  class Library {
    const f: Fuse
    var holds: seq<Hold>
    var queue: seq<Op>
    var dots: multiset<Ino>

    ghost function Now(): State
      reads this, f
    {
      State(f.nodes, holds, dots, queue)
    }

    ghost predicate Valid()
      reads this, f
    {
      At(f, Now())
    }

    constructor (idSize: nat, nameSize: nat)
      requires idSize > 0 && nameSize > 0
      ensures Valid() && Now() == Init && fresh(f)
    {
      f := new Fuse(idSize, nameSize);
      holds, queue, dots := [], [], multiset{};
      new;
      InitInv();
    }

    method DoBegin(op: Op) returns (done: bool)
      requires Valid()
      modifies this, f
      ensures Valid() && Took(old(Now()), Begin(op), done, Now())
    {
      ghost var s := Now();
      var r;
      done, r := DoAcquire(op);
      if done {
        Settle(r, if r.Wait? then queue + [op] else queue);
        BeginTook(s, op, Now(), r);
      }
    }

    method DoRetry(i: nat) returns (done: bool)
      requires Valid()
      modifies this, f
      ensures Valid() && Took(old(Now()), Retry(i), done, Now())
    {
      ghost var s := Now();
      if i >= |queue| {
        return false;
      }
      var r;
      done, r := DoAcquire(queue[i]);
      if done {
        Settle(r, if r.Wait? then queue else queue[..i] + queue[i + 1..]);
        RetryTook(s, i, Now(), r);
      }
    }

    /** What a result means for the paths given out, and for the queue. */
    method Settle(r: Result, queue': seq<Op>)
      modifies this
      ensures holds == (if r.Held? then old(holds) + r.holds else old(holds)) && queue == queue' && dots == old(dots)
    {
      if r.Held? {
        holds := holds + r.holds;
      }
      queue := queue';
    }

    /** One attempt, if its directories are there and its paths fit. */
    method DoAcquire(op: Op) returns (done: bool, r: Result)
      requires Valid()
      modifies f
      ensures f.Valid() && (done <==> OpOk(old(f.nodes), op) && OpFits(old(f.nodes), op))
      ensures done ==> Walkable(old(f.nodes), op) && (f.nodes, r) == Acquire(old(f.nodes), op)
      ensures !done ==> f.nodes == old(f.nodes)
    {
      ghost var s := Now();
      done, r := false, Fail;
      if !OpOk(f.nodes, op) {
        return;
      }
      var fits, c1 := PathFits(f, op.first, s);
      if !fits {
        return;
      }
      var c2 := [];
      if op.second.Some? {
        fits, c2 := PathFits(f, op.second.value, s);
        if !fits {
          return;
        }
      }
      done := true;
      if op.second.Some? {
        r := StepTwo(f, op, c1, c2, s);
      } else {
        r := StepOne(f, op, c1, s);
      }
    }

    method DoFree(i: nat) returns (done: bool)
      requires Valid()
      modifies this, f
      ensures Valid() && Took(old(Now()), Free(i), done, Now())
    {
      ghost var s := Now();
      done := i < |holds|;
      if done {
        StepFree(f, holds[i], s, i);
        holds := holds[..i] + holds[i + 1..];
        TookStep(s, Free(i), Now());
      }
    }

    method DoFind(i: nat) returns (done: bool, ghost id: Ino)
      requires Valid()
      modifies this, f
      ensures Valid() && Took(old(Now()), FindNode(i, id), done, Now())
      ensures done == (i < |old(holds)| && |old(f.nodes)| < TWO32 - 2)
    {
      ghost var s := Now();
      id := 0;
      done := i < |holds| && |f.nodes| < TWO32 - 2;
      if done {
        id := StepFind(f, holds[i].req.dir, holds[i].req.name, s, i);
        TookStep(s, FindNode(i, id), Now());
      }
    }

    method DoForget(n: Ino, k: nat) returns (done: bool)
      requires Valid()
      modifies this, f
      ensures Valid() && Took(old(Now()), ForgetNode(n, k), done, Now())
    {
      ghost var s := Now();
      var there := f.GetNode(n);
      done := there && n != ROOT && 0 < k <= f.nodes[n].nlookup &&
        !(f.nodes[n].nlookup == k && f.nodes[n].treelock != 0);
      if done {
        StepForget(f, n, k, s);
        TookStep(s, ForgetNode(n, k), Now());
      }
    }

    /** Whether the path is held to change its named node, and that node is the one still named so. */
    method IsOwn(i: nat) returns (own: bool)
      requires Valid()
      ensures own == ActsOnOwn(Now(), i)
    {
      TreeFacts(Now());
      own := i < |holds| && holds[i].req.wr && holds[i].req.name.Some?;
      if own {
        var w := f.LookupNode(holds[i].req.dir, holds[i].req.name.value);
        own := w.None? || w == holds[i].w;
      }
    }

    method DoRemove(i: nat) returns (done: bool)
      requires Valid()
      modifies this, f
      ensures Valid() && Took(old(Now()), RemoveNode(i), done, Now())
    {
      ghost var s := Now();
      done := IsOwn(i);
      if done {
        StepRemove(f, holds[i].req.dir, holds[i].req.name.value, s, i);
        TookStep(s, RemoveNode(i), Now());
      }
    }

    method DoRename(i: nat, j: nat) returns (done: bool)
      requires Valid()
      modifies this, f
      ensures Valid() && Took(old(Now()), RenameNode(i, j), done, Now())
    {
      ghost var s := Now();
      done := IsOwn(i);
      var both := IsOwn(j);
      done := done && both && i != j;
      if done {
        StepRename(f, holds[i].req, holds[j].req, s, i, j);
        TookStep(s, RenameNode(i, j), Now());
      }
    }

    method DoHide(i: nat, hidden: string) returns (done: bool)
      requires Valid()
      modifies this, f
      ensures Valid() && Took(old(Now()), HideNode(i, hidden), done, Now())
    {
      ghost var s := Now();
      done := IsOwn(i);
      if done {
        StepHide(f, holds[i].req, hidden, s, i);
        TookStep(s, HideNode(i, hidden), Now());
      }
    }

    method DoDotHold(n: Ino) returns (done: bool)
      requires Valid()
      modifies this, f
      ensures Valid() && Took(old(Now()), DotHold(n), done, Now())
    {
      ghost var s := Now();
      done := f.GetNode(n);
      if done {
        StepDotHold(f, n, s);
        dots := dots + multiset{n};
        DotHoldTook(s, n, Now());
      } else {
        NoDotHold(s, n);
      }
    }

    method DoDotDrop(n: Ino) returns (done: bool)
      requires Valid()
      modifies this, f
      ensures Valid() && Took(old(Now()), DotDrop(n), done, Now())
    {
      ghost var s := Now();
      done := n in dots;
      if done {
        StepDotDrop(f, n, s);
        dots := dots - multiset{n};
        DotDropTook(s, n, Now());
      } else {
        NoDotDrop(s, n);
      }
    }

    /** Any step; the id of a new node is the library's own choice. */
    method Do(cmd: Event) returns (done: bool, ghost ev: Event)
      requires Valid()
      modifies this, f
      ensures Valid() && Took(old(Now()), ev, done, Now())
      ensures Obeys(cmd, ev) && done == Can(old(Now()), cmd)
    {
      ev := cmd;
      match cmd
      case Begin(op) => done := DoBegin(op);
      case Retry(i) => done := DoRetry(i);
      case Free(i) => done := DoFree(i);
      case FindNode(i, _) =>
        ghost var id;
        done, id := DoFind(i);
        ev := FindNode(i, id);
      case ForgetNode(n, k) => done := DoForget(n, k);
      case RemoveNode(i) => done := DoRemove(i);
      case RenameNode(i, j) => done := DoRename(i, j);
      case HideNode(i, hidden) => done := DoHide(i, hidden);
      case DotHold(n) => done := DoDotHold(n);
      case DotDrop(n) => done := DoDotDrop(n);
    }
  }

  /**
   Any steps in a row, from the beginning: those that are possible are taken, and the tables go
   through a run of the protocol, the chains in agreement with the tree all the way.
   */
  method Serve(idSize: nat, nameSize: nat, cmds: seq<Event>)
      returns (lib: Library, ghost run: seq<State>, ghost evs: seq<Event>)
    requires idSize > 0 && nameSize > 0
    ensures fresh(lib) && lib.Valid() && IsRun(run, evs) && lib.Now() == run[|evs|]
    ensures Answers(cmds, run, evs)
  {
    lib := new Library(idSize, nameSize);
    run, evs := [Init], [];
    for k := 0 to |cmds|
      invariant fresh(lib) && fresh(lib.f) && lib.Valid() && IsRun(run, evs) && lib.Now() == run[|evs|]
      invariant Answers(cmds[..k], run, evs)
    {
      var done;
      ghost var ev;
      AnswersOn(cmds[..k], run, evs, cmds[k]);
      assert cmds[..k + 1] == cmds[..k] + [cmds[k]];
      done, ev := lib.Do(cmds[k]);
      if done {
        RunOn(run, evs, ev, lib.Now());
        run, evs := run + [lib.Now()], evs + [ev];
      }
    }
    assert cmds[..|cmds|] == cmds;
  }
}
