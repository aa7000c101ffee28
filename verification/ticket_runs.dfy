/**
 Two runs that leave a ticket behind on a node in use, although no operation waits any more:
 a two-path operation whose second directory has been removed, and a waiting operation whose
 named node is renamed away before it is granted.
 */
module TicketRuns {
  import opened Wrappers
  import opened NodeTree
  import opened PathLocks
  import opened PathLockRuns
  import opened PathTickets

  // ----- Requests in the root directory

  lemma RootChain(t: Tree)
    requires ROOT in t
    ensures IsChain(t, ROOT, [ROOT]) && HasChain(t, ROOT) && ChainOf(t, ROOT) == [ROOT]
  {
    assert IsChain(t, ROOT, [ROOT]);
    ChainUnique(t, ROOT, [ROOT], ChainOf(t, ROOT));
  }

  /** A request for a name in the root directory is granted unless the named node is locked or reserved. */
  lemma RootRequest(t: Tree, op: Op)
    requires ROOT in t && LinksOk(t) && op.first.dir == ROOT && op.second.None? && op.ticket != 0
    ensures Walkable(t, op) && IsChain(t, ROOT, [ROOT])
    ensures var w := Target(t, op.first);
            Acquire(t, op) ==
              if w.Some? && WriteBlocked(t[w.value], op.ticket) then (t[w.value := Stamp(t[w.value], op.ticket)], Wait)
              else (WriteLock(t, w), Held([Hold(op.first, [ROOT], w, PathOf(t, ROOT, [ROOT], op.first.name))]))
  {
    RootChain(t);
    var w := Target(t, op.first);
    var t1 := WriteLock(t, w);
    assert ReadLock(t1, []) == t1;
    assert [ROOT][..0] == [];
  }

  lemma RootFree(t: Tree, w: Option<Ino>)
    requires w.Some? ==> w.value in t && w.value != ROOT
    ensures Unlock(t, [ROOT], w, 0) == if w.Some? then t[w.value := t[w.value].(treelock := 0)] else t
  {
  }

  lemma Extend(run: seq<State>, evs: seq<Event>, ev: Event) returns (run': seq<State>, evs': seq<Event>)
    requires IsRun(run, evs) && Enabled(run[|evs|], ev)
    ensures Defined(run[|evs|], ev)
    ensures IsRun(run', evs') && run'[|evs'|] == Next(run[|evs|], ev)
  {
    RunInv(run, evs, |evs|);
    StepDefined(run[|evs|], ev);
    RunOn(run, evs, ev, Next(run[|evs|], ev));
    run', evs' := run + [Next(run[|evs|], ev)], evs + [ev];
  }

  /** The root directory is looked at, and its lookup makes a new node. */
  lemma AddChild(run: seq<State>, evs: seq<Event>, name: string, id: Ino, ticket: int)
      returns (run': seq<State>, evs': seq<Event>)
    requires IsRun(run, evs) && run[|evs|].holds == [] && id !in run[|evs|].t && ticket != 0
    requires Lookup(run[|evs|].t, ROOT, name).None? && ROOT in run[|evs|].t
    ensures IsRun(run', evs') && run'[|evs'|] == run[|evs|].(t := Create(run[|evs|].t, ROOT, name, id))
  {
    var s := run[|evs|];
    RunInv(run, evs, |evs|);
    var op := Op(Request(ROOT, Some(name), false), None, ticket);
    RootRequest(s.t, op);
    run', evs' := Extend(run, evs, Begin(op));
    run', evs' := Extend(run', evs', FindNode(0, id));
    var t := Create(s.t, ROOT, name, id);
    assert run'[|evs'|].t == t;
    RootChain(t);
    RootFree(t, None);
    run', evs' := Extend(run', evs', Free(0));
  }

  /** A name in the root directory is asked for, to be changed, and granted. */
  lemma LockChild(run: seq<State>, evs: seq<Event>, name: string, ticket: int)
      returns (run': seq<State>, evs': seq<Event>, h: Hold)
    requires IsRun(run, evs) && run[|evs|].holds == [] && ticket != 0 && ROOT in run[|evs|].t
    requires var w := Lookup(run[|evs|].t, ROOT, name); w.Some? ==> !WriteBlocked(run[|evs|].t[w.value], ticket)
    ensures IsRun(run', evs') && h.req == Request(ROOT, Some(name), true) && h.w == Lookup(run[|evs|].t, ROOT, name)
    ensures run'[|evs'|] == run[|evs|].(t := WriteLock(run[|evs|].t, h.w), holds := [h])
  {
    var s := run[|evs|];
    RunInv(run, evs, |evs|);
    var op := Op(Request(ROOT, Some(name), true), None, ticket);
    RootRequest(s.t, op);
    h := Hold(op.first, [ROOT], Target(s.t, op.first), PathOf(s.t, ROOT, [ROOT], op.first.name));
    run', evs' := Extend(run, evs, Begin(op));
  }

  /** The path is given back. */
  lemma FreeChild(run: seq<State>, evs: seq<Event>) returns (run': seq<State>, evs': seq<Event>)
    requires IsRun(run, evs) && |run[|evs|].holds| == 1 && ROOT in run[|evs|].t
    requires var h := run[|evs|].holds[0];
             h.req.dir == ROOT && (h.w.Some? ==> h.w.value in run[|evs|].t && h.w.value != ROOT)
    ensures IsRun(run', evs')
    ensures var t, w := run[|evs|].t, run[|evs|].holds[0].w;
            run'[|evs'|] ==
              run[|evs|].(t := if w.Some? then t[w.value := t[w.value].(treelock := 0)] else t, holds := [])
  {
    RootChain(run[|evs|].t);
    RootFree(run[|evs|].t, run[|evs|].holds[0].w);
    run', evs' := Extend(run, evs, Free(0));
  }

  /** A node that is linked to the root bears a ticket, and no operation waits. */
  ghost predicate Stranded(s: State, n: Ino) {
    && n in s.t && s.t[n].ticket != 0 && s.queue == []
    && exists c :: IsChain(s.t, n, c) && Linked(c)
  }

  // ----- The named node is renamed away

  /** The root with one child. */
  function One(name: string, treelock: int, ticket: int): Tree {
    map[ROOT := Node(None, 2, 1, 0, 0), 2 := Node(Some(Link(ROOT, name)), 1, 1, treelock, ticket)]
  }

  lemma OneLookup(name: string, treelock: int, ticket: int, other: string)
    ensures Lookup(One(name, treelock, ticket), ROOT, other) == if other == name then Some(2) else None
  {
    assert 2 in One(name, treelock, ticket);
  }

  lemma FirstChild(name: string) returns (run: seq<State>, evs: seq<Event>)
    ensures IsRun(run, evs) && run[|evs|] == State(One(name, 0, 0), [], multiset{}, [])
  {
    run, evs := [Init], [];
    run, evs := AddChild(run, evs, name, 2, 1);
    assert Create(Init.t, ROOT, name, 2) == One(name, 0, 0);
  }

  /**
   An operation holds the only file to hide it, and another waits for the same file, which bears
   its ticket.  When the file has its hidden name the other is granted, finding no file under the
   old name; its ticket stays on the file.
   */
  lemma RenamedAwayRun(name: string, hidden: string) returns (run: seq<State>, evs: seq<Event>)
    requires name != hidden
    ensures IsRun(run, evs) && run[|evs|].queue == [] && run[|evs|].t == One(hidden, 0, 3)
  {
    run, evs := FirstChild(name);
    OneLookup(name, 0, 0, name);
    var h;
    run, evs, h := LockChild(run, evs, name, 2);
    assert run[|evs|].t == One(name, -1, 0);
    var op := Op(Request(ROOT, Some(name), true), None, 3);
    run, evs := SecondWaits(run, evs, name, h, op);
    run, evs := Hides(run, evs, name, hidden, h, op);
    run, evs := FreeChild(run, evs);
    assert run[|evs|].t == One(hidden, 0, 3);
    run, evs := GrantedWithout(run, evs, name, hidden, op);
  }

  lemma SecondWaits(run: seq<State>, evs: seq<Event>, name: string, h: Hold, op: Op)
    returns (run': seq<State>, evs': seq<Event>)
    requires IsRun(run, evs) && run[|evs|] == State(One(name, -1, 0), [h], multiset{}, [])
    requires op == Op(Request(ROOT, Some(name), true), None, 3)
    ensures IsRun(run', evs') && run'[|evs'|] == State(One(name, -1, 3), [h], multiset{}, [op])
  {
    OneLinks(name, -1, 0);
    OneLookup(name, -1, 0, name);
    RootRequest(One(name, -1, 0), op);
    assert One(name, -1, 0)[2 := Stamp(One(name, -1, 0)[2], 3)] == One(name, -1, 3);
    run', evs' := Extend(run, evs, Begin(op));
  }

  lemma OneLinks(name: string, treelock: int, ticket: int)
    ensures LinksOk(One(name, treelock, ticket))
  {
  }

  lemma Hides(run: seq<State>, evs: seq<Event>, name: string, hidden: string, h: Hold, op: Op)
      returns (run': seq<State>, evs': seq<Event>)
    requires IsRun(run, evs) && run[|evs|] == State(One(name, -1, 3), [h], multiset{}, [op]) && name != hidden
    requires h.req == Request(ROOT, Some(name), true) && h.w == Some(2)
    ensures IsRun(run', evs') && run'[|evs'|] == State(One(hidden, -1, 3), [h], multiset{}, [op])
  {
    OneLookup(name, -1, 3, name);
    OneLookup(name, -1, 3, hidden);
    run', evs' := Extend(run, evs, HideNode(0, hidden));
    assert run'[|evs'|].t == One(hidden, -1, 3);
  }

  lemma GrantedWithout(run: seq<State>, evs: seq<Event>, name: string, hidden: string, op: Op)
      returns (run': seq<State>, evs': seq<Event>)
    requires IsRun(run, evs) && run[|evs|] == State(One(hidden, 0, 3), [], multiset{}, [op]) && name != hidden
    requires op == Op(Request(ROOT, Some(name), true), None, 3)
    ensures IsRun(run', evs') && run'[|evs'|].t == One(hidden, 0, 3) && run'[|evs'|].queue == []
  {
    OneLinks(hidden, 0, 3);
    OneLookup(hidden, 0, 3, name);
    RootRequest(One(hidden, 0, 3), op);
    run', evs' := Extend(run, evs, Retry(0));
  }

  /** So a node in use can be left with the ticket of an operation that was granted long ago. */
  lemma RenamedAwayLeavesTicket()
    ensures exists run, evs, n :: IsRun(run, evs) && Stranded(run[|evs|], n)
  {
    var run, evs := RenamedAwayRun("a", "h");
    var t := One("h", 0, 3);
    assert IsChain(t, ROOT, [ROOT]);
    assert [2, ROOT][1..] == [ROOT];
    assert IsChain(t, 2, [2, ROOT]);
    assert Stranded(run[|evs|], 2);
  }

  // ----- The second of two directories has been removed

  /** The root with two children; `removed` unlinks the second. */
  function Two(removed: bool, treelock: int, ticket: int): Tree {
    map[ROOT := Node(None, if removed then 2 else 3, 1, 0, 0),
        2 := Node(Some(Link(ROOT, "a")), 1, 1, 0, ticket),
        3 := Node(if removed then None else Some(Link(ROOT, "b")), 1, 1, treelock, 0)]
  }

  lemma TwoLookup()
    ensures Lookup(Two(false, 0, 0), ROOT, "b") == Lookup(Two(false, -1, 0), ROOT, "b") == Some(3)
  {
    assert 3 in Two(false, 0, 0) && 3 in Two(false, -1, 0);
    assert "a"[0] != "b"[0];
  }

  lemma RemovedRun() returns (run: seq<State>, evs: seq<Event>)
    ensures IsRun(run, evs) && run[|evs|] == State(Two(true, 0, 0), [], multiset{}, [])
  {
    run, evs := FirstChild("a");
    assert "a"[0] != "b"[0];
    OneLookup("a", 0, 0, "b");
    run, evs := AddChild(run, evs, "b", 3, 1);
    assert run[|evs|].t == Two(false, 0, 0);
    TwoLookup();
    var h;
    run, evs, h := LockChild(run, evs, "b", 2);
    assert run[|evs|].t == Two(false, -1, 0);
    run, evs := Extend(run, evs, RemoveNode(0));
    assert run[|evs|].t == Two(true, -1, 0);
    run, evs := FreeChild(run, evs);
    assert run[|evs|].t == Two(true, 0, 0);
  }

  lemma TwoChains()
    ensures var t := Two(true, 0, 0);
            && HasChain(t, 2) && ChainOf(t, 2) == [2, ROOT] && HasChain(t, 3) && ChainOf(t, 3) == [3]
  {
    var t := Two(true, 0, 0);
    assert IsChain(t, ROOT, [ROOT]) && [2, ROOT][1..] == [ROOT];
    assert IsChain(t, 2, [2, ROOT]) && IsChain(t, 3, [3]);
    ChainUnique(t, 2, [2, ROOT], ChainOf(t, 2));
    ChainUnique(t, 3, [3], ChainOf(t, 3));
  }

  /**
   An operation on a name in a directory in use and one in a removed directory fails.  Its ticket
   stays on the directory in use.
   */
  lemma FailedSecondLeavesTicket()
    ensures exists run, evs :: IsRun(run, evs) && Stranded(run[|evs|], 2)
  {
    var run, evs := RemovedRun();
    var op := Op(Request(2, Some("x"), false), Some(Request(3, Some("y"), false)), 9);
    RunInv(run, evs, |evs|);
    FailedSecond(run[|evs|], op);
    run, evs := Extend(run, evs, Begin(op));
    assert Stranded(run[|evs|], 2);
  }

  lemma FailedSecond(s: State, op: Op)
    requires Inv(s) && s == State(Two(true, 0, 0), [], multiset{}, [])
    requires op == Op(Request(2, Some("x"), false), Some(Request(3, Some("y"), false)), 9)
    ensures Enabled(s, Begin(op)) && Walkable(s.t, op) && Stranded(Next(s, Begin(op)), 2)
  {
    LocksAtLeast(s);
    TwoChains();
    AcquireIs(s.t, op);
    TwoWays(op);
    var t' := Acquire(s.t, op).0;
    AcquireInv(s.t, [], op);
    SameLinks(s.t, t');
    assert IsChain(t', 2, [2, ROOT]);
  }

  lemma TwoWays(op: Op)
    requires op == Op(Request(2, Some("x"), false), Some(Request(3, Some("y"), false)), 9)
    requires var t := Two(true, 0, 0);
             HasChain(t, 2) && ChainOf(t, 2) == [2, ROOT] && HasChain(t, 3) && ChainOf(t, 3) == [3]
    ensures var t := Two(true, 0, 0); OpOpen(t, op) && !OpLinked(t, op) && 2 in Ways(t, op)
  {
    assert [2, ROOT][..1] == [2] && [3][..0] == [];
  }
}
