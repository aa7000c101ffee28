/**
 The kernel's cache of nodes: the tree of hashed nodes by path, the freelist, and the
 vnode reference counts that pass between them.  Every section under a lock is a step.
 The test of RHASHED is made before the lock of the section it decides on is taken, so
 it is a step of its own here.
 */
module NodeCache {
  type Nid = nat

  /** The mount and the path: what a node is found by. */
  datatype Key = Key(mnt: nat, path: string)

  datatype Node = Node(key: Key, hashed: bool, vcount: int)

  /** Where the one thread stands that has the last reference of a node in its hands. */
  datatype Pc =
    | RecycleTest(want: Key)      // make_fusenode took it off the freelist
    | RecycleUnhash(want: Key)    // ... found it hashed, and goes for the tree lock
    | RecycleClean(want: Key)     // ... after sn_inactive: the second look at v_count
    | Building(want: Key)         // initialised for a new path, not yet in the tree
    | FreeTest                    // fusefs_addfree: keep or destroy
    | DestroyTest                 // ... destroy: is it hashed
    | DestroyUnhash               // ... it was, and the thread goes for the tree lock
    | DestroyClean                // ... after sn_inactive: the second look at v_count
    | Doomed                      // ... sn_destroy_node
    | Keep                        // ... keep: goes for the tree lock
    | ReclaimTest                 // fusefs_node_reclaim took it off the freelist
    | ReclaimUnhash               // ... found it hashed, and goes for the tree lock

  predicate Tested(pc: Pc) {
    pc.RecycleUnhash? || pc.DestroyUnhash? || pc.ReclaimUnhash?
  }

  /** `broken` is set where sn_rmhash_locked would remove a node that is not in the tree. */
  datatype State = State(
    nodes: map<Nid, Node>, hash: map<Key, Nid>, free: seq<Nid>,
    holds: multiset<Nid>, transit: map<Nid, Pc>, total: int, broken: bool)

  const Init := State(map[], map[], [], multiset{}, map[], 0, false)

  datatype Event =
    | Lookup(key: Key)                // sn_hashfind
    | Pop(want: Key)                  // make_fusenode: the head of the freelist
    | Alloc(n: Nid, want: Key)        // make_fusenode: a new node
    | PopReclaim                      // fusefs_node_reclaim: the head of the freelist
    | Step(n: Nid, retire: bool)      // the thread that has `n` in transit goes on
    | Hold(n: Nid)                    // VN_HOLD by a holder
    | Release(n: Nid)                 // VN_RELE
    | Rmhash(n: Nid)                  // fusefs_rmhash by a holder: the file is gone
    | DestroyTable(mnt: nat)          // the sweep of fusefs_destroy_table

  predicate Enabled(s: State, ev: Event) {
    && !s.broken
    && match ev
       case Lookup(_) => true
       case Pop(_) => s.free != []
       case Alloc(n, _) => n !in s.nodes
       case PopReclaim => s.free != []
       case Step(n, _) => n in s.transit && n in s.nodes
       case Hold(n) => n in s.holds && n in s.nodes
       case Release(n) => n in s.holds && n in s.nodes
       case Rmhash(n) => n in s.holds && n in s.nodes
       case DestroyTable(_) => true
  }

  // ----- Sections

  function Remove(free: seq<Nid>, n: Nid): seq<Nid> {
    if free == [] then [] else if free[0] == n then free[1..] else [free[0]] + Remove(free[1..], n)
  }

  function AddCount(s: State, n: Nid, d: int): State
    requires n in s.nodes
  {
    s.(nodes := s.nodes[n := s.nodes[n].(vcount := s.nodes[n].vcount + d)])
  }

  /** sn_hashfind: the freelist's reference becomes the caller's, or there is one more. */
  function Find(s: State, key: Key): State {
    if key !in s.hash || s.hash[key] !in s.nodes then s
    else
      var n := s.hash[key];
      if n in s.free then s.(free := Remove(s.free, n), holds := s.holds + multiset{n})
      else AddCount(s, n, 1).(holds := s.holds + multiset{n})
  }

  /** Somebody else has a reference: drop this one and leave the node to them. */
  function Leave(s: State, n: Nid): State
    requires n in s.nodes
  {
    AddCount(s, n, -1).(transit := s.transit - {n})
  }

  function Goto(s: State, n: Nid, pc: Pc): State {
    s.(transit := s.transit[n := pc])
  }

  /** sn_rmhash_locked */
  function Unhash(s: State, n: Nid): State
    requires n in s.nodes
  {
    if s.nodes[n].hashed
    then s.(nodes := s.nodes[n := s.nodes[n].(hashed := false)], hash := s.hash - {s.nodes[n].key})
    else s.(broken := true)
  }

  /** The section under the tree lock: leave the node if it is in use, or take it out of the tree. */
  function UnhashSection(s: State, n: Nid, next: Pc): State
    requires n in s.nodes
  {
    if s.nodes[n].vcount > 1 then Leave(s, n) else Goto(Unhash(s, n), n, next)
  }

  function Recheck(s: State, n: Nid, next: Pc): State
    requires n in s.nodes
  {
    if s.nodes[n].vcount > 1 then Leave(s, n) else Goto(s, n, next)
  }

  /** The last part of make_fusenode: link the node in, unless somebody else was faster. */
  function Finish(s: State, n: Nid, want: Key): State
    requires n in s.nodes
  {
    if want in s.hash then Goto(Find(s, want), n, FreeTest)
    else s.(nodes := s.nodes[n := s.nodes[n].(key := want, hashed := true)], hash := s.hash[want := n],
            holds := s.holds + multiset{n}, transit := s.transit - {n})
  }

  function KeepSection(s: State, n: Nid): State
    requires n in s.nodes
  {
    if s.nodes[n].vcount > 1 then Leave(s, n) else s.(free := s.free + [n], transit := s.transit - {n})
  }

  predicate IsTest(pc: Pc) {
    pc.RecycleTest? || pc.FreeTest? || pc.DestroyTest? || pc.ReclaimTest?
  }

  /** What a thread makes of a node: whether RHASHED is set, and whether the node is to be kept at all. */
  function Decision(pc: Pc, hashed: bool, retire: bool): Pc
    requires IsTest(pc)
  {
    match pc
    case RecycleTest(w) => if hashed then RecycleUnhash(w) else RecycleClean(w)
    case FreeTest => if !hashed || retire then DestroyTest else Keep
    case DestroyTest => if hashed then DestroyUnhash else DestroyClean
    case ReclaimTest => if hashed then ReclaimUnhash else FreeTest
  }

  function Advance(s: State, n: Nid, retire: bool): State
    requires n in s.transit && n in s.nodes
  {
    match s.transit[n]
    case RecycleTest(_) => Goto(s, n, Decision(s.transit[n], s.nodes[n].hashed, retire))
    case RecycleUnhash(w) => UnhashSection(s, n, RecycleClean(w))
    case RecycleClean(w) => Recheck(s, n, Building(w))
    case Building(w) => Finish(s, n, w)
    case FreeTest => Goto(s, n, Decision(s.transit[n], s.nodes[n].hashed, retire))
    case DestroyTest => Goto(s, n, Decision(s.transit[n], s.nodes[n].hashed, retire))
    case DestroyUnhash => UnhashSection(s, n, DestroyClean)
    case DestroyClean => Recheck(s, n, Doomed)
    case Doomed => s.(nodes := s.nodes - {n}, transit := s.transit - {n}, total := s.total - 1)
    case Keep => KeepSection(s, n)
    case ReclaimTest => Goto(s, n, Decision(s.transit[n], s.nodes[n].hashed, retire))
    case ReclaimUnhash => UnhashSection(s, n, FreeTest)
  }

  /** The nodes of a mount that fusefs_destroy_table finds on the freelist. */
  predicate Swept(s: State, mnt: nat, n: Nid) {
    n in s.free && n in s.nodes && s.nodes[n].hashed && s.nodes[n].key.mnt == mnt
  }

  function Unswept(s: State, mnt: nat, free: seq<Nid>): seq<Nid> {
    if free == [] then []
    else if Swept(s, mnt, free[0]) then Unswept(s, mnt, free[1..])
    else [free[0]] + Unswept(s, mnt, free[1..])
  }

  function Sweep(s: State, mnt: nat): State {
    s.(nodes := map n | n in s.nodes ::
         if Swept(s, mnt, n) then s.nodes[n].(hashed := false) else s.nodes[n],
       hash := map k | k in s.hash && !Swept(s, mnt, s.hash[k]) :: s.hash[k],
       free := Unswept(s, mnt, s.free),
       transit := s.transit + map n | n in s.nodes && Swept(s, mnt, n) :: FreeTest)
  }

  function Next(s: State, ev: Event): State
    requires Enabled(s, ev)
  {
    match ev
    case Lookup(key) => Find(s, key)
    case Pop(want) => Goto(s.(free := s.free[1..]), s.free[0], RecycleTest(want))
    case Alloc(n, want) =>
      Goto(s.(nodes := s.nodes[n := Node(want, false, 1)], total := s.total + 1), n, Building(want))
    case PopReclaim => Goto(s.(free := s.free[1..]), s.free[0], ReclaimTest)
    case Step(n, retire) => Advance(s, n, retire)
    case Hold(n) => AddCount(s, n, 1).(holds := s.holds + multiset{n})
    case Release(n) =>
      if s.nodes[n].vcount > 1 then AddCount(s, n, -1).(holds := s.holds - multiset{n})
      else Goto(s.(holds := s.holds - multiset{n}), n, FreeTest)
    case Rmhash(n) => Unhash(s, n)
    case DestroyTable(mnt) => Sweep(s, mnt)
  }

  // ----- The invariant

  predicate Distinct(free: seq<Nid>) {
    forall i, j | 0 <= i < j < |free| :: free[i] != free[j]
  }

  function One(b: bool): nat {
    if b then 1 else 0
  }

  /** The reference count of a node: its holders, the freelist, and the thread that has it in transit. */
  ghost predicate CountOk(s: State, n: Nid)
    requires n in s.nodes
  {
    && s.nodes[n].vcount == s.holds[n] + One(n in s.free) + One(n in s.transit)
    && s.nodes[n].vcount >= 1
    && (n in s.free ==> s.nodes[n].vcount == 1)
  }

  ghost predicate CountsOk(s: State) {
    forall n | n in s.nodes :: CountOk(s, n)
  }

  ghost predicate Known(s: State) {
    && Distinct(s.free) && (forall n | n in s.free :: n in s.nodes)
    && (forall n | n in s.holds :: n in s.nodes) && (forall n | n in s.transit :: n in s.nodes)
  }

  /** Hashed nodes and the tree agree, so a path has at most one hashed node. */
  ghost predicate HashOk(s: State) {
    && (forall k | k in s.hash :: s.hash[k] in s.nodes && s.nodes[s.hash[k]].hashed && s.nodes[s.hash[k]].key == k)
    && (forall n | n in s.nodes && s.nodes[n].hashed :: s.nodes[n].key in s.hash && s.hash[s.nodes[n].key] == n)
  }

  /** Past the tree lock a node stays out of the tree; past the second look nobody else has it. */
  ghost predicate PcOk(s: State, n: Nid)
    requires n in s.transit && n in s.nodes
  {
    var pc := s.transit[n];
    && (pc.RecycleClean? || pc.DestroyClean? || pc.Doomed? || pc.Building? ==> !s.nodes[n].hashed)
    && (pc.Doomed? || pc.Building? ==> s.holds[n] == 0)
  }

  ghost predicate PcsOk(s: State) {
    forall n | n in s.transit && n in s.nodes :: PcOk(s, n)
  }

  ghost predicate Inv(s: State) {
    Known(s) && CountsOk(s) && HashOk(s) && PcsOk(s) && s.total == |s.nodes|
  }

  // ----- Every section keeps the invariant

  lemma {:induction false} RemoveIs(free: seq<Nid>, n: Nid)
    requires Distinct(free) && n in free
    ensures Distinct(Remove(free, n)) && forall m :: m in Remove(free, n) <==> m in free && m != n
    decreases |free|
  {
    var rest := free[1..];
    assert free == [free[0]] + rest && free[0] !in rest;
    assert forall i | 0 <= i < |rest| :: rest[i] == free[i + 1];
    if free[0] != n {
      RemoveIs(rest, n);
      var r := Remove(rest, n);
      assert forall i | 1 <= i < |r| + 1 :: ([free[0]] + r)[i] in r;
    }
  }

  /** Nothing about `m` has changed. */
  ghost predicate SameAt(s: State, s': State, m: Nid) {
    && (m in s'.nodes <==> m in s.nodes) && (m in s.nodes ==> s'.nodes[m] == s.nodes[m])
    && s'.holds[m] == s.holds[m] && (m in s'.free <==> m in s.free)
    && (m in s'.transit <==> m in s.transit) && (m in s.transit ==> s'.transit[m] == s.transit[m])
  }

  /** A section that touches one node only needs to account for that one. */
  lemma LocalCounts(s: State, s': State, n: Nid)
    requires CountsOk(s) && PcsOk(s) && forall m | m != n :: SameAt(s, s', m)
    requires n in s'.nodes ==> CountOk(s', n)
    requires n in s'.nodes && n in s'.transit ==> PcOk(s', n)
    ensures CountsOk(s') && PcsOk(s')
  {
    forall m | m in s'.nodes
      ensures CountOk(s', m)
    {
      if m != n { assert SameAt(s, s', m) && CountOk(s, m); }
    }
    forall m | m in s'.transit && m in s'.nodes
      ensures PcOk(s', m)
    {
      if m != n { assert SameAt(s, s', m) && PcOk(s, m); }
    }
  }

  lemma HashFrame(s: State, s': State)
    requires HashOk(s) && s'.hash == s.hash && s'.nodes.Keys == s.nodes.Keys
    requires forall n | n in s.nodes :: s'.nodes[n].hashed == s.nodes[n].hashed && s'.nodes[n].key == s.nodes[n].key
    ensures HashOk(s')
  {
  }

  /** The freelist hands its reference to the finder. */
  lemma FindFree(s: State, n: Nid)
    requires Inv(s) && n in s.free
    ensures Inv(s.(free := Remove(s.free, n), holds := s.holds + multiset{n}))
  {
    RemoveIs(s.free, n);
    var s' := s.(free := Remove(s.free, n), holds := s.holds + multiset{n});
    assert CountOk(s, n);
    LocalCounts(s, s', n);
  }

  lemma CountSame(s: State, n: Nid, d: int, holds: multiset<Nid>)
    requires n in s.nodes && forall m | m != n :: holds[m] == s.holds[m]
    ensures forall m | m != n :: SameAt(s, AddCount(s, n, d).(holds := holds), m)
  {
  }

  /** One more reference for a node that is still in the tree, or that somebody holds. */
  lemma HoldInv(s: State, n: Nid)
    requires Inv(s) && n in s.nodes && n !in s.free && (s.nodes[n].hashed || n in s.holds)
    ensures Inv(AddCount(s, n, 1).(holds := s.holds + multiset{n}))
  {
    var holds := s.holds + multiset{n};
    assert CountOk(s, n) && (n in s.transit ==> PcOk(s, n));
    HoldLocal(s, n);
    RecountInv(s, n, 1, holds);
  }

  /** A changed count with the holds to match. */
  lemma RecountInv(s: State, n: Nid, d: int, holds: multiset<Nid>)
    requires Inv(s) && n in s.nodes && (forall m | m in holds :: m == n || m in s.holds)
    requires forall m | m != n :: holds[m] == s.holds[m]
    requires var s' := AddCount(s, n, d).(holds := holds);
             n in s'.nodes && CountOk(s', n) && (n in s'.transit ==> PcOk(s', n))
    ensures Inv(AddCount(s, n, d).(holds := holds))
  {
    var s' := AddCount(s, n, d).(holds := holds);
    RecountKnown(s, n, d, holds);
    RecountHash(s, n, d, holds);
    CountSame(s, n, d, holds);
    LocalCounts(s, s', n);
  }

  lemma RecountHash(s: State, n: Nid, d: int, holds: multiset<Nid>)
    requires HashOk(s) && n in s.nodes
    ensures var s' := AddCount(s, n, d).(holds := holds); HashOk(s') && s'.total == s.total && |s'.nodes| == |s.nodes|
  {
    var s' := AddCount(s, n, d).(holds := holds);
    HashFrame(s, s');
    assert s'.nodes.Keys == s.nodes.Keys;
    assert |s'.nodes| == |s'.nodes.Keys| && |s.nodes| == |s.nodes.Keys|;
  }

  lemma RecountKnown(s: State, n: Nid, d: int, holds: multiset<Nid>)
    requires Known(s) && n in s.nodes && forall m | m in holds :: m == n || m in s.holds
    ensures Known(AddCount(s, n, d).(holds := holds))
  {
  }

  lemma HoldLocal(s: State, n: Nid)
    requires n in s.nodes && n !in s.free && (s.nodes[n].hashed || n in s.holds)
    requires CountOk(s, n) && (n in s.transit ==> PcOk(s, n))
    ensures var s' := AddCount(s, n, 1).(holds := s.holds + multiset{n});
      n in s'.nodes && CountOk(s', n) && (n in s'.transit ==> PcOk(s', n))
  {
  }

  lemma FindInv(s: State, key: Key)
    requires Inv(s)
    ensures Inv(Find(s, key))
  {
    if key in s.hash {
      if s.hash[key] in s.free { FindFree(s, s.hash[key]); } else { HoldInv(s, s.hash[key]); }
    }
  }

  lemma GotoInv(s: State, n: Nid, pc: Pc)
    requires Inv(s) && n in s.transit
    requires pc.RecycleClean? || pc.DestroyClean? || pc.Doomed? || pc.Building? ==> !s.nodes[n].hashed
    requires pc.Doomed? || pc.Building? ==> s.nodes[n].vcount == 1
    ensures Inv(Goto(s, n, pc))
  {
    var s' := Goto(s, n, pc);
    assert CountOk(s, n);
    LocalCounts(s, s', n);
  }

  lemma LeaveInv(s: State, n: Nid)
    requires Inv(s) && n in s.transit && s.nodes[n].vcount > 1
    ensures Inv(Leave(s, n))
  {
    var s' := Leave(s, n);
    assert CountOk(s, n);
    HashFrame(s, s');
    LocalCounts(s, s', n);
  }

  lemma UnhashHash(s: State, n: Nid)
    requires HashOk(s) && n in s.nodes && s.nodes[n].hashed
    ensures HashOk(Unhash(s, n))
  {
  }

  lemma UnhashInv(s: State, n: Nid)
    requires Inv(s) && n in s.nodes && s.nodes[n].hashed
    ensures Inv(Unhash(s, n)) && Unhash(s, n).broken == s.broken
  {
    var s' := Unhash(s, n);
    assert CountOk(s, n) && (n in s.transit ==> PcOk(s, n));
    UnhashHash(s, n);
    LocalCounts(s, s', n);
  }

  lemma FinishInv(s: State, n: Nid, want: Key)
    requires Inv(s) && n in s.transit && s.transit[n] == Building(want)
    ensures Inv(Finish(s, n, want))
  {
    if want in s.hash {
      FindInv(s, want);
      GotoInv(Find(s, want), n, FreeTest);
    } else {
      LinkInv(s, n, want);
    }
  }

  lemma LinkHash(s: State, n: Nid, want: Key)
    requires HashOk(s) && n in s.nodes && !s.nodes[n].hashed && want !in s.hash
    ensures HashOk(Finish(s, n, want))
  {
  }

  lemma LinkInv(s: State, n: Nid, want: Key)
    requires Inv(s) && n in s.transit && s.transit[n] == Building(want) && want !in s.hash
    ensures Inv(Finish(s, n, want))
  {
    var s' := Finish(s, n, want);
    assert PcOk(s, n) && CountOk(s, n);
    LinkHash(s, n, want);
    LocalCounts(s, s', n);
  }

  lemma KeepInv(s: State, n: Nid)
    requires Inv(s) && n in s.transit
    ensures Inv(KeepSection(s, n))
  {
    assert CountOk(s, n);
    if s.nodes[n].vcount > 1 { LeaveInv(s, n); } else { ListInv(s, n); }
  }

  lemma ListInv(s: State, n: Nid)
    requires Inv(s) && n in s.transit && s.nodes[n].vcount == 1
    ensures Inv(s.(free := s.free + [n], transit := s.transit - {n}))
  {
    var s' := s.(free := s.free + [n], transit := s.transit - {n});
    assert CountOk(s, n) && n !in s.free;
    assert forall m :: m in s'.free <==> m == n || m in s.free;
    LocalCounts(s, s', n);
  }

  lemma DestroyInv(s: State, n: Nid)
    requires Inv(s) && n in s.transit && s.transit[n].Doomed?
    ensures Inv(Advance(s, n, false))
    ensures !s.nodes[n].hashed && n !in s.free && n !in s.holds && s.nodes[n].vcount == 1
  {
    var s' := Advance(s, n, false);
    assert PcOk(s, n) && CountOk(s, n);
    LocalCounts(s, s', n);
    assert s'.nodes.Keys == s.nodes.Keys - {n};
    GoneHash(s, n);
  }

  lemma GoneHash(s: State, n: Nid)
    requires HashOk(s) && n in s.nodes && !s.nodes[n].hashed
    ensures HashOk(s.(nodes := s.nodes - {n}, transit := s.transit - {n}, total := s.total - 1))
  {
  }

  lemma UnhashSectionInv(s: State, n: Nid, next: Pc)
    requires Inv(s) && n in s.transit && !s.broken
    requires !next.Doomed? && !next.Building?
    ensures UnhashSection(s, n, next).broken <==> s.nodes[n].vcount == 1 && !s.nodes[n].hashed
    ensures !UnhashSection(s, n, next).broken ==> Inv(UnhashSection(s, n, next))
  {
    assert CountOk(s, n);
    if s.nodes[n].vcount > 1 {
      LeaveInv(s, n);
    } else if s.nodes[n].hashed {
      UnhashInv(s, n);
      GotoInv(Unhash(s, n), n, next);
    }
  }

  /** A thread looks at RHASHED, or at the node's state, and decides where to go. */
  lemma TestInv(s: State, n: Nid, retire: bool)
    requires Inv(s) && n in s.transit && IsTest(s.transit[n])
    ensures Inv(Advance(s, n, retire))
  {
    GotoInv(s, n, Decision(s.transit[n], s.nodes[n].hashed, retire));
  }

  lemma RecheckInv(s: State, n: Nid, next: Pc)
    requires Inv(s) && n in s.transit && !s.nodes[n].hashed
    ensures Inv(Recheck(s, n, next))
  {
    assert CountOk(s, n);
    if s.nodes[n].vcount > 1 { LeaveInv(s, n); } else { GotoInv(s, n, next); }
  }

  /** The two ways to take a node out of a tree it is not in: a test that no longer holds,
    and a removal after another. */
  predicate Breaks(s: State, ev: Event)
    requires Enabled(s, ev)
  {
    || (ev.Step? && Tested(s.transit[ev.n]) && s.nodes[ev.n].vcount == 1 && !s.nodes[ev.n].hashed)
    || (ev.Rmhash? && !s.nodes[ev.n].hashed)
  }

  lemma BreaksIff(s: State, ev: Event)
    requires Inv(s) && Enabled(s, ev)
    ensures Next(s, ev).broken <==> Breaks(s, ev)
  {
    match ev
    case Step(n, retire) => assert CountOk(s, n); SectionBreaksIff(s, n, retire);
    case Rmhash(n) =>
    case _ => Unbroken(s, ev);
  }

  lemma SectionBreaksIff(s: State, n: Nid, retire: bool)
    requires !s.broken && n in s.transit && n in s.nodes && s.nodes[n].vcount >= 1
    ensures Advance(s, n, retire).broken <==>
            Tested(s.transit[n]) && s.nodes[n].vcount == 1 && !s.nodes[n].hashed
  {
  }

  lemma Unbroken(s: State, ev: Event)
    requires Enabled(s, ev) && !ev.Step? && !ev.Rmhash?
    ensures !Next(s, ev).broken
  {
  }

  function AfterUnhash(pc: Pc): Pc {
    match pc
    case RecycleUnhash(w) => RecycleClean(w)
    case DestroyUnhash => DestroyClean
    case _ => FreeTest
  }

  lemma AdvanceUnhash(s: State, n: Nid, retire: bool)
    requires n in s.transit && n in s.nodes && Tested(s.transit[n])
    ensures Advance(s, n, retire) == UnhashSection(s, n, AfterUnhash(s.transit[n]))
  {
  }

  lemma UnhashStepInv(s: State, n: Nid)
    requires Inv(s) && !s.broken && n in s.transit && Tested(s.transit[n]) && !Advance(s, n, false).broken
    ensures Inv(Advance(s, n, false))
  {
    var next := AfterUnhash(s.transit[n]);
    AdvanceUnhash(s, n, false);
    UnhashSectionInv(s, n, next);
  }

  lemma AdvanceInv(s: State, n: Nid, retire: bool)
    requires Inv(s) && !s.broken && n in s.transit && !Advance(s, n, retire).broken
    ensures Inv(Advance(s, n, retire))
  {
    assert PcOk(s, n);
    if Tested(s.transit[n]) {
      UnhashStepInv(s, n);
    } else {
      OtherStepInv(s, n, retire);
    }
  }

  lemma OtherStepInv(s: State, n: Nid, retire: bool)
    requires Inv(s) && n in s.transit && n in s.nodes && PcOk(s, n) && !Tested(s.transit[n])
    ensures Inv(Advance(s, n, retire))
  {
    match s.transit[n]
    case RecycleClean(w) => RecheckInv(s, n, Building(w));
    case DestroyClean => RecheckInv(s, n, Doomed);
    case Building(w) => FinishInv(s, n, w);
    case Doomed => DestroyInv(s, n);
    case Keep => KeepInv(s, n);
    case _ => TestInv(s, n, retire);
  }

  lemma TakenInv(s: State, pc: Pc)
    requires Inv(s) && s.free != [] && (pc.RecycleTest? || pc.ReclaimTest?)
    ensures Inv(Goto(s.(free := s.free[1..]), s.free[0], pc))
  {
    var n := s.free[0];
    var s' := Goto(s.(free := s.free[1..]), n, pc);
    assert s.free == [n] + s.free[1..] && n in s.free && CountOk(s, n);
    assert forall m :: m in s.free <==> m == n || m in s'.free;
    assert n !in s'.free;
    LocalCounts(s, s', n);
  }

  lemma AllocHash(s: State, n: Nid, want: Key)
    requires HashOk(s) && n !in s.nodes
    ensures HashOk(s.(nodes := s.nodes[n := Node(want, false, 1)]))
  {
  }

  lemma AllocInv(s: State, n: Nid, want: Key)
    requires Inv(s) && n !in s.nodes
    ensures Inv(Goto(s.(nodes := s.nodes[n := Node(want, false, 1)], total := s.total + 1), n, Building(want)))
  {
    var s' := Goto(s.(nodes := s.nodes[n := Node(want, false, 1)], total := s.total + 1), n, Building(want));
    AllocHash(s, n, want);
    AllocSame(s, n, want, s');
    LocalCounts(s, s', n);
  }

  lemma AllocSame(s: State, n: Nid, want: Key, s': State)
    requires Known(s) && n !in s.nodes
    requires s' == Goto(s.(nodes := s.nodes[n := Node(want, false, 1)], total := s.total + 1), n, Building(want))
    ensures Known(s') && (forall m | m != n :: SameAt(s, s', m)) && CountOk(s', n) && PcOk(s', n)
  {
    assert n !in s.free && n !in s.holds && n !in s.transit;
  }

  lemma DropInv(s: State, n: Nid)
    requires Inv(s) && n in s.holds && s.nodes[n].vcount > 1
    ensures Inv(AddCount(s, n, -1).(holds := s.holds - multiset{n}))
  {
    assert CountOk(s, n) && (n in s.transit ==> PcOk(s, n));
    DropLocal(s, n);
    RecountInv(s, n, -1, s.holds - multiset{n});
  }

  lemma DropLocal(s: State, n: Nid)
    requires n in s.nodes && n in s.holds && s.nodes[n].vcount > 1
    requires CountOk(s, n) && (n in s.transit ==> PcOk(s, n))
    ensures var s' := AddCount(s, n, -1).(holds := s.holds - multiset{n});
      n in s'.nodes && CountOk(s', n) && (n in s'.transit ==> PcOk(s', n))
  {
  }

  lemma LastInv(s: State, n: Nid)
    requires Inv(s) && n in s.holds && s.nodes[n].vcount == 1
    ensures Inv(Goto(s.(holds := s.holds - multiset{n}), n, FreeTest))
  {
    var s' := Goto(s.(holds := s.holds - multiset{n}), n, FreeTest);
    assert CountOk(s, n) && n !in s.transit && n !in s.free;
    LocalCounts(s, s', n);
  }

  lemma ReleaseInv(s: State, n: Nid)
    requires Inv(s) && Enabled(s, Release(n))
    ensures Inv(Next(s, Release(n)))
  {
    assert CountOk(s, n);
    if s.nodes[n].vcount > 1 { DropInv(s, n); } else { LastInv(s, n); }
  }

  // ----- The sweep of a mount

  lemma {:induction false} UnsweptIs(s: State, mnt: nat, free: seq<Nid>)
    requires Distinct(free)
    ensures Distinct(Unswept(s, mnt, free))
    ensures forall n :: n in Unswept(s, mnt, free) <==> n in free && !Swept(s, mnt, n)
    decreases |free|
  {
    if free != [] {
      var rest := free[1..];
      assert free == [free[0]] + rest && free[0] !in rest;
      assert forall i | 0 <= i < |rest| :: rest[i] == free[i + 1];
      UnsweptIs(s, mnt, rest);
      var r := Unswept(s, mnt, rest);
      assert forall i | 1 <= i < |r| + 1 :: ([free[0]] + r)[i] in r;
    }
  }

  lemma SweepInv(s: State, mnt: nat)
    requires Inv(s)
    ensures Inv(Sweep(s, mnt))
  {
    var s' := Sweep(s, mnt);
    UnsweptIs(s, mnt, s.free);
    assert s'.nodes.Keys == s.nodes.Keys;
    forall n | n in s'.nodes
      ensures CountOk(s', n)
    {
      assert CountOk(s, n);
    }
    forall n | n in s'.transit
      ensures n in s'.nodes && PcOk(s', n)
    {
      if n in s.transit { assert PcOk(s, n) && CountOk(s, n); }
    }
    SweepHash(s, mnt);
  }

  lemma SweepHash(s: State, mnt: nat)
    requires HashOk(s)
    ensures HashOk(Sweep(s, mnt))
  {
  }

  // ----- Runs

  /** Unless it breaks the tree, a step keeps the invariant. */
  lemma StepInv(s: State, ev: Event)
    requires Inv(s) && Enabled(s, ev) && !Next(s, ev).broken
    ensures Inv(Next(s, ev))
  {
    match ev
    case Lookup(key) => FindInv(s, key);
    case Pop(want) => TakenInv(s, RecycleTest(want));
    case Alloc(n, want) => AllocInv(s, n, want);
    case PopReclaim => TakenInv(s, ReclaimTest);
    case Step(n, retire) => AdvanceInv(s, n, retire);
    case Hold(n) => assert CountOk(s, n); HoldInv(s, n);
    case Release(n) => ReleaseInv(s, n);
    case Rmhash(n) => UnhashInv(s, n);
    case DestroyTable(mnt) => SweepInv(s, mnt);
  }

  ghost predicate IsRun(run: seq<State>, evs: seq<Event>) {
    && |run| == |evs| + 1 && run[0] == Init
    && forall i | 0 <= i < |evs| :: Steps(run[i], evs[i], run[i + 1])
  }

  predicate Steps(s: State, ev: Event, s': State) {
    Enabled(s, ev) && s' == Next(s, ev)
  }

  /** Every state of every run, up to one that breaks the tree, satisfies the invariant. */
  lemma {:induction false} RunInv(run: seq<State>, evs: seq<Event>, i: nat)
    requires IsRun(run, evs) && i < |run| && !run[i].broken
    ensures Inv(run[i])
    decreases i
  {
    if i > 0 {
      assert Steps(run[i - 1], evs[i - 1], run[i]);
      RunInv(run, evs, i - 1);
      StepInv(run[i - 1], evs[i - 1]);
    }
  }

  /** Who has the references, in every state of every run. */
  lemma ReferencesAccounted(run: seq<State>, evs: seq<Event>, i: nat)
    requires IsRun(run, evs) && i < |run| && !run[i].broken
    ensures var s := run[i];
            && (forall n | n in s.nodes ::
                  s.nodes[n].vcount == s.holds[n] + One(n in s.free) + One(n in s.transit) && s.nodes[n].vcount >= 1)
            && (forall n | n in s.free :: n in s.nodes && n !in s.holds && n !in s.transit)
            && (forall m, n | m in s.nodes && n in s.nodes && s.nodes[m].hashed && s.nodes[n].hashed
                              && s.nodes[m].key == s.nodes[n].key :: m == n)
            && s.total == |s.nodes|
  {
    RunInv(run, evs, i);
    var s := run[i];
    forall n | n in s.nodes ensures CountOk(s, n) {}
    forall n | n in s.free ensures n !in s.holds && n !in s.transit { assert CountOk(s, n); }
  }

  /** A node is destroyed, or made over for another path, only out of the tree, off the freelist and unheld. */
  lemma DisposedOnlyUnused(run: seq<State>, evs: seq<Event>, i: nat, n: Nid)
    requires IsRun(run, evs) && i < |evs| && n in run[i].nodes && !run[i + 1].broken
    requires n !in run[i + 1].nodes ||
             (n in run[i + 1].transit && run[i + 1].transit[n].Building? &&
               !(n in run[i].transit && run[i].transit[n].Building?))
    ensures var s := run[i];
            n in s.transit && !s.nodes[n].hashed && n !in s.free && n !in s.holds && s.nodes[n].vcount == 1
  {
    var s := run[i];
    assert Steps(s, evs[i], run[i + 1]);
    RunInv(run, evs, i);
    assert CountOk(s, n) && (n in s.transit ==> PcOk(s, n));
    OnlyByItsThread(s, evs[i], n);
  }

  lemma OnlyByItsThread(s: State, ev: Event, n: Nid)
    requires Inv(s) && Enabled(s, ev) && n in s.nodes
    requires var s' := Next(s, ev);
             n !in s'.nodes ||
             (n in s'.transit && s'.transit[n].Building? && !(n in s.transit && s.transit[n].Building?))
    ensures n in s.transit && (s.transit[n].Doomed? || (s.transit[n].RecycleClean? && s.nodes[n].vcount <= 1))
  {
    match ev
    case Step(m, retire) => if m == n { OwnStep(s, n, retire); } else { OthersStep(s, m, retire, n); }
    case _ => NoStep(s, ev, n);
  }

  /** Only a step of a thread that has a node in transit takes a node away or starts to rebuild it. */
  lemma NoStep(s: State, ev: Event, n: Nid)
    requires Enabled(s, ev) && n in s.nodes && !ev.Step?
    ensures var s' := Next(s, ev);
            n in s'.nodes &&
            (n in s'.transit && s'.transit[n].Building? ==> n in s.transit && s.transit[n].Building?)
  {
    match ev
    case Lookup(key) => FindKeeps(s, key, n);
    case DestroyTable(mnt) =>
    case _ =>
  }

  lemma FindKeeps(s: State, key: Key, n: Nid)
    requires n in s.nodes
    ensures n in Find(s, key).nodes && Find(s, key).transit == s.transit
  {
  }

  lemma OwnStep(s: State, n: Nid, retire: bool)
    requires n in s.transit && n in s.nodes
    ensures n !in Advance(s, n, retire).nodes ==> s.transit[n].Doomed?
    ensures n in Advance(s, n, retire).transit && Advance(s, n, retire).transit[n].Building? ==>
              s.transit[n].RecycleClean? && s.nodes[n].vcount <= 1
  {
    match s.transit[n]
    case Building(w) => assert n in Finish(s, n, w).nodes;
    case RecycleUnhash(w) => assert n in UnhashSection(s, n, RecycleClean(w)).nodes;
    case DestroyUnhash => assert n in UnhashSection(s, n, DestroyClean).nodes;
    case ReclaimUnhash => assert n in UnhashSection(s, n, FreeTest).nodes;
    case Keep => assert n in KeepSection(s, n).nodes;
    case _ =>
  }

  lemma OthersStep(s: State, m: Nid, retire: bool, n: Nid)
    requires m in s.transit && m in s.nodes && n in s.nodes && m != n
    ensures n in Advance(s, m, retire).nodes && Advance(s, m, retire).nodes[n].hashed == s.nodes[n].hashed
    ensures n in Advance(s, m, retire).transit <==> n in s.transit
    ensures n in s.transit ==> Advance(s, m, retire).transit[n] == s.transit[n]
  {
    match s.transit[m]
    case Building(w) => FinishOther(s, m, w, n);
    case RecycleUnhash(w) => UnhashOther(s, m, RecycleClean(w), n);
    case DestroyUnhash => UnhashOther(s, m, DestroyClean, n);
    case ReclaimUnhash => UnhashOther(s, m, FreeTest, n);
    case _ =>
  }

  lemma FinishOther(s: State, m: Nid, want: Key, n: Nid)
    requires m in s.nodes && n in s.nodes && m != n
    ensures var s' := Finish(s, m, want);
            && n in s'.nodes && s'.nodes[n].hashed == s.nodes[n].hashed && (n in s'.transit <==> n in s.transit)
            && (n in s.transit ==> s'.transit[n] == s.transit[n])
  {
  }

  lemma UnhashOther(s: State, m: Nid, next: Pc, n: Nid)
    requires m in s.nodes && n in s.nodes && m != n
    ensures var s' := UnhashSection(s, m, next);
            && n in s'.nodes && s'.nodes[n].hashed == s.nodes[n].hashed && (n in s'.transit <==> n in s.transit)
            && (n in s.transit ==> s'.transit[n] == s.transit[n])
  {
  }

  // ----- What is decided before the lock

  /** The thread has found the node hashed, and goes for the tree lock. */
  predicate Decided(pc: Pc) {
    Tested(pc) || pc.Keep?
  }

  /** ... but the node is no longer hashed. */
  predicate Stale(s: State, n: Nid) {
    n in s.transit && n in s.nodes && Decided(s.transit[n]) && !s.nodes[n].hashed
  }

  /** A decision is stale if it was, or if this step removes the file; it ends with the thread's own step. */
  lemma StaleStep(s: State, ev: Event, n: Nid)
    requires Inv(s) && Enabled(s, ev) && !Next(s, ev).broken
    ensures Stale(Next(s, ev), n) <==>
            || (Stale(s, n) && !(ev.Step? && ev.n == n))
            || (ev == Rmhash(n) && n in s.transit && Decided(s.transit[n]))
  {
    match ev
    case Step(m, retire) => if m == n { OwnDecision(s, n, retire); } else { OthersDecision(s, m, retire, n); }
    case Release(m) => assert CountOk(s, m); StaleRelease(s, m, n);
    case DestroyTable(mnt) => StaleSweep(s, mnt, n);
    case Rmhash(m) => BreaksIff(s, ev); StaleUnhash(s, m, n);
    case Lookup(key) => StaleFind(s, key, n);
    case Alloc(m, want) => StaleAlloc(s, m, want, n);
    case Hold(m) => StaleHold(s, m, n);
    case Pop(want) => StaleTaken(s, RecycleTest(want), n);
    case PopReclaim => StaleTaken(s, ReclaimTest, n);
  }

  lemma OthersDecision(s: State, m: Nid, retire: bool, n: Nid)
    requires Known(s) && m in s.transit && m != n
    ensures Stale(Advance(s, m, retire), n) <==> Stale(s, n)
  {
    if n in s.nodes { OthersStep(s, m, retire, n); } else { Absent(s, m, retire, n); }
  }

  lemma StaleRelease(s: State, m: Nid, n: Nid)
    requires Enabled(s, Release(m)) && (s.nodes[m].vcount <= 1 ==> m !in s.transit)
    ensures Stale(Next(s, Release(m)), n) <==> Stale(s, n)
  {
  }

  lemma StaleSweep(s: State, mnt: nat, n: Nid)
    requires Inv(s)
    ensures Stale(Sweep(s, mnt), n) <==> Stale(s, n)
  {
    if n in s.nodes { assert CountOk(s, n); NotSwept(s, mnt, n); }
  }

  lemma NotSwept(s: State, mnt: nat, n: Nid)
    requires n in s.nodes && (n in s.free ==> n !in s.transit)
    ensures Stale(Sweep(s, mnt), n) <==> Stale(s, n)
  {
  }

  lemma StaleUnhash(s: State, m: Nid, n: Nid)
    requires m in s.nodes && s.nodes[m].hashed
    ensures Stale(Unhash(s, m), n) <==> Stale(s, n) || (m == n && n in s.transit && Decided(s.transit[n]))
  {
  }

  lemma StaleFind(s: State, key: Key, n: Nid)
    ensures Stale(Find(s, key), n) <==> Stale(s, n)
  {
  }

  lemma StaleAlloc(s: State, m: Nid, want: Key, n: Nid)
    requires Known(s) && m !in s.nodes
    ensures Stale(Goto(s.(nodes := s.nodes[m := Node(want, false, 1)], total := s.total + 1), m, Building(want)),
            n) <==>
            Stale(s, n)
  {
  }

  lemma StaleHold(s: State, m: Nid, n: Nid)
    requires m in s.nodes
    ensures Stale(AddCount(s, m, 1).(holds := s.holds + multiset{m}), n) <==> Stale(s, n)
  {
  }

  lemma StaleTaken(s: State, pc: Pc, n: Nid)
    requires Inv(s) && s.free != [] && !Decided(pc)
    ensures Stale(Goto(s.(free := s.free[1..]), s.free[0], pc), n) <==> Stale(s, n)
  {
    assert s.free[0] in s.free && CountOk(s, s.free[0]);
  }

  lemma OwnDecision(s: State, n: Nid, retire: bool)
    requires n in s.transit && n in s.nodes
    ensures !Stale(Advance(s, n, retire), n)
    ensures Decided(s.transit[n]) && n in Advance(s, n, retire).transit ==> !Decided(Advance(s, n, retire).transit[n])
  {
  }

  lemma Absent(s: State, m: Nid, retire: bool, n: Nid)
    requires m in s.transit && m in s.nodes && n !in s.nodes
    ensures n !in Advance(s, m, retire).nodes
  {
    match s.transit[m]
    case Building(w) => FinishAbsent(s, m, w, n);
    case RecycleUnhash(w) => UnhashAbsent(s, m, RecycleClean(w), n);
    case DestroyUnhash => UnhashAbsent(s, m, DestroyClean, n);
    case ReclaimUnhash => UnhashAbsent(s, m, FreeTest, n);
    case _ =>
  }

  lemma FinishAbsent(s: State, m: Nid, want: Key, n: Nid)
    requires m in s.nodes && n !in s.nodes
    ensures n !in Finish(s, m, want).nodes
  {
  }

  lemma UnhashAbsent(s: State, m: Nid, next: Pc, n: Nid)
    requires m in s.nodes && n !in s.nodes
    ensures n !in UnhashSection(s, m, next).nodes
  {
  }

  /** Held, but no longer hashed: the file was removed. */
  predicate Orphan(s: State, n: Nid) {
    n in s.holds && n in s.nodes && !s.nodes[n].hashed
  }

  lemma OrphanStep(s: State, ev: Event, n: Nid)
    requires Inv(s) && Enabled(s, ev) && !Next(s, ev).broken
    ensures Orphan(Next(s, ev), n) <==> n in Next(s, ev).holds && (Orphan(s, n) || ev == Rmhash(n))
  {
    match ev
    case Step(m, retire) => OrphanSection(s, m, retire, n);
    case Release(m) => OrphanRelease(s, m, n);
    case DestroyTable(mnt) => OrphanSweep(s, mnt, n);
    case Rmhash(m) => BreaksIff(s, ev); OrphanUnhash(s, m, n);
    case Lookup(key) => OrphanFind(s, key, n);
    case Hold(m) => OrphanHold(s, m, n);
    case Alloc(m, want) => OrphanAlloc(s, m, want, n);
    case _ =>
  }

  lemma OrphanRelease(s: State, m: Nid, n: Nid)
    requires Enabled(s, Release(m))
    ensures Orphan(Next(s, Release(m)), n) <==> n in Next(s, Release(m)).holds && Orphan(s, n)
  {
  }

  lemma OrphanSweep(s: State, mnt: nat, n: Nid)
    requires Inv(s)
    ensures Orphan(Sweep(s, mnt), n) <==> Orphan(s, n)
  {
    if n in s.nodes { assert CountOk(s, n); }
  }

  lemma OrphanUnhash(s: State, m: Nid, n: Nid)
    requires m in s.nodes && s.nodes[m].hashed
    ensures Orphan(Unhash(s, m), n) <==> n in s.holds && (Orphan(s, n) || m == n)
  {
  }

  lemma OrphanFind(s: State, key: Key, n: Nid)
    requires HashOk(s)
    ensures Orphan(Find(s, key), n) <==> n in Find(s, key).holds && Orphan(s, n)
  {
  }

  lemma OrphanHold(s: State, m: Nid, n: Nid)
    requires m in s.nodes && m in s.holds
    ensures Orphan(AddCount(s, m, 1).(holds := s.holds + multiset{m}), n) <==> Orphan(s, n)
  {
  }

  lemma OrphanAlloc(s: State, m: Nid, want: Key, n: Nid)
    requires Known(s) && m !in s.nodes
    ensures Orphan(Goto(s.(nodes := s.nodes[m := Node(want, false, 1)], total := s.total + 1), m, Building(want)),
            n) <==>
            Orphan(s, n)
  {
  }

  lemma OrphanSection(s: State, m: Nid, retire: bool, n: Nid)
    requires Inv(s) && m in s.transit && !Advance(s, m, retire).broken
    ensures Orphan(Advance(s, m, retire), n) <==> n in Advance(s, m, retire).holds && Orphan(s, n)
  {
    assert CountOk(s, m) && PcOk(s, m);
    if Tested(s.transit[m]) {
      AdvanceUnhash(s, m, retire);
      OrphanUnhashSection(s, m, AfterUnhash(s.transit[m]), n);
    } else if s.transit[m].Building? {
      OrphanFinish(s, m, s.transit[m].want, n);
    } else {
      OrphanOther(s, m, retire, n);
    }
  }

  lemma OrphanOther(s: State, m: Nid, retire: bool, n: Nid)
    requires m in s.transit && m in s.nodes && !Tested(s.transit[m]) && !s.transit[m].Building? && PcOk(s, m)
    ensures Orphan(Advance(s, m, retire), n) <==> n in Advance(s, m, retire).holds && Orphan(s, n)
  {
  }

  lemma OrphanUnhashSection(s: State, m: Nid, next: Pc, n: Nid)
    requires m in s.nodes && (s.nodes[m].vcount <= 1 ==> m !in s.holds)
    ensures var s' := UnhashSection(s, m, next);
            Orphan(s', n) <==> n in s'.holds && Orphan(s, n)
  {
  }

  lemma OrphanFinish(s: State, m: Nid, want: Key, n: Nid)
    requires HashOk(s) && m in s.nodes && m !in s.holds
    ensures Orphan(Finish(s, m, want), n) <==> n in Finish(s, m, want).holds && Orphan(s, n)
  {
    if want in s.hash { OrphanFind(s, want, n); }
  }

  // ----- Where a break comes from

  /** Step `j` removed the file of `n`, while a thread had decided on the node and stands there to this day. */
  ghost predicate Overtaken(run: seq<State>, evs: seq<Event>, j: nat, i: nat, n: Nid)
    requires i < |run| == |evs| + 1
  {
    j < i && evs[j] == Rmhash(n) && forall k | j <= k <= i :: n in run[k].transit && Decided(run[k].transit[n])
  }

  ghost predicate WasOvertaken(run: seq<State>, evs: seq<Event>, i: nat, n: Nid)
    requires i < |run| == |evs| + 1
  {
    exists j: nat :: Overtaken(run, evs, j, i, n)
  }

  /** Step `j` removed the file of `n`, and the node has been held ever since. */
  ghost predicate Removed(run: seq<State>, evs: seq<Event>, j: nat, i: nat, n: Nid)
    requires i < |run| == |evs| + 1
  {
    j < i && evs[j] == Rmhash(n) && forall k | j < k <= i :: n in run[k].holds
  }

  ghost predicate WasRemoved(run: seq<State>, evs: seq<Event>, i: nat, n: Nid)
    requires i < |run| == |evs| + 1
  {
    exists j: nat :: Removed(run, evs, j, i, n)
  }

  lemma OvertakenNext(run: seq<State>, evs: seq<Event>, i: nat, n: Nid)
    requires 0 < i < |run| == |evs| + 1
    ensures WasOvertaken(run, evs, i, n) <==>
            && n in run[i].transit && Decided(run[i].transit[n])
            && (|| (evs[i - 1] == Rmhash(n) && n in run[i - 1].transit && Decided(run[i - 1].transit[n]))
                || WasOvertaken(run, evs, i - 1, n))
  {
    var h := i - 1;
    if j: nat :| Overtaken(run, evs, j, i, n) {
      if j < h { assert Overtaken(run, evs, j, h, n); }
    }
    if n in run[i].transit && Decided(run[i].transit[n]) {
      if j: nat :| Overtaken(run, evs, j, h, n) {
        assert Overtaken(run, evs, j, i, n);
      } else if evs[h] == Rmhash(n) && n in run[h].transit && Decided(run[h].transit[n]) {
        assert Overtaken(run, evs, h, i, n);
      }
    }
  }

  lemma RemovedNext(run: seq<State>, evs: seq<Event>, i: nat, n: Nid)
    requires 0 < i < |run| == |evs| + 1
    ensures WasRemoved(run, evs, i, n) <==>
            n in run[i].holds && (evs[i - 1] == Rmhash(n) || WasRemoved(run, evs, i - 1, n))
  {
    var h := i - 1;
    if j: nat :| Removed(run, evs, j, i, n) {
      if j < h { assert Removed(run, evs, j, h, n); }
    }
    if n in run[i].holds {
      if j: nat :| Removed(run, evs, j, h, n) {
        assert Removed(run, evs, j, i, n);
      } else if evs[h] == Rmhash(n) {
        assert Removed(run, evs, h, i, n);
      }
    }
  }

  /** A decision is stale exactly when a removal has overtaken it. */
  lemma {:induction false} StaleIff(run: seq<State>, evs: seq<Event>, i: nat, n: Nid)
    requires IsRun(run, evs) && i < |run| && !run[i].broken
    ensures Stale(run[i], n) <==> WasOvertaken(run, evs, i, n)
    decreases i
  {
    if i > 0 {
      NotBroken(run, evs, i - 1);
      StaleIff(run, evs, i - 1, n);
      StaleNext(run, evs, i - 1, n);
      OvertakenNext(run, evs, i, n);
    }
  }

  lemma StaleNext(run: seq<State>, evs: seq<Event>, i: nat, n: Nid)
    requires IsRun(run, evs) && i < |evs| && !run[i + 1].broken
    ensures var s, ev, s' := run[i], evs[i], run[i + 1];
            Stale(s', n) <==>
            && n in s'.transit && Decided(s'.transit[n])
            && (Stale(s, n) || (ev == Rmhash(n) && n in s.transit && Decided(s.transit[n])))
  {
    RunOn(run, evs, i);
    StaleStep(run[i], evs[i], n);
    if evs[i].Step? && evs[i].n == n { OwnDecision(run[i], n, evs[i].retire); }
  }

  lemma NotBroken(run: seq<State>, evs: seq<Event>, i: nat)
    requires IsRun(run, evs) && i < |evs|
    ensures !run[i].broken
  {
    assert Steps(run[i], evs[i], run[i + 1]);
  }

  /** A node is held out of the tree exactly when it was removed and has been held since. */
  lemma {:induction false} OrphanIff(run: seq<State>, evs: seq<Event>, i: nat, n: Nid)
    requires IsRun(run, evs) && i < |run| && !run[i].broken
    ensures Orphan(run[i], n) <==> WasRemoved(run, evs, i, n)
    decreases i
  {
    if i > 0 {
      NotBroken(run, evs, i - 1);
      OrphanIff(run, evs, i - 1, n);
      OrphanNext(run, evs, i - 1, n);
      RemovedNext(run, evs, i, n);
    }
  }

  lemma OrphanNext(run: seq<State>, evs: seq<Event>, i: nat, n: Nid)
    requires IsRun(run, evs) && i < |evs| && !run[i + 1].broken
    ensures Orphan(run[i + 1], n) <==> n in run[i + 1].holds && (Orphan(run[i], n) || evs[i] == Rmhash(n))
  {
    RunOn(run, evs, i);
    OrphanStep(run[i], evs[i], n);
  }

  lemma RunOn(run: seq<State>, evs: seq<Event>, i: nat)
    requires IsRun(run, evs) && i < |evs|
    ensures Enabled(run[i], evs[i]) && run[i + 1] == Next(run[i], evs[i]) && !run[i].broken && Inv(run[i])
  {
    assert Steps(run[i], evs[i], run[i + 1]);
    RunInv(run, evs, i);
  }

  /**
   A step of a run breaks the tree exactly when it is a section whose test was overtaken by a
   removal and nobody else has the node, or a removal of a node that was removed before and has
   been held since.
   */
  lemma RunBreaksIff(run: seq<State>, evs: seq<Event>, i: nat)
    requires IsRun(run, evs) && i < |evs|
    ensures run[i + 1].broken <==>
            match evs[i]
            case Step(n, _) =>
              && n in run[i].nodes && run[i].nodes[n].vcount == 1
              && n in run[i].transit && Tested(run[i].transit[n]) && WasOvertaken(run, evs, i, n)
            case Rmhash(n) => WasRemoved(run, evs, i, n)
            case _ => false
  {
    RunOn(run, evs, i);
    BreaksIff(run[i], evs[i]);
    match evs[i]
    case Step(n, _) => StaleIff(run, evs, i, n);
    case Rmhash(n) => OrphanIff(run, evs, i, n);
    case _ =>
  }

  /** A removal finds its node hashed, and no thread on its way to take it out of the tree. */
  predicate Undisturbed(s: State, ev: Event) {
    ev.Rmhash? ==>
      && !Overtakes(s, ev)
      && ev.n in s.nodes && s.nodes[ev.n].hashed
  }

  predicate Overtakes(s: State, ev: Event) {
    ev.Rmhash? && ev.n in s.transit && Tested(s.transit[ev.n])
  }

  /** The node a thread has found hashed still is. */
  predicate TestsHold(s: State) {
    forall n | n in s.transit && Tested(s.transit[n]) :: !Stale(s, n)
  }

  lemma TestsStayTrue(s: State, ev: Event)
    requires Inv(s) && TestsHold(s) && Enabled(s, ev) && Undisturbed(s, ev)
    ensures !Next(s, ev).broken && TestsHold(Next(s, ev))
  {
    BreaksIff(s, ev);
    var s' := Next(s, ev);
    forall n | n in s'.transit && Tested(s'.transit[n])
      ensures !Stale(s', n)
    {
      StaleStep(s, ev, n);
      if Stale(s', n) { SamePc(s, ev, n); }
    }
  }

  lemma SamePc(s: State, ev: Event, n: Nid)
    requires Inv(s) && Enabled(s, ev) && Stale(Next(s, ev), n)
    requires n in s.transit && n in s.nodes && !(ev.Step? && ev.n == n)
    ensures Next(s, ev).transit[n] == s.transit[n]
  {
    match ev
    case Step(m, retire) => OthersStep(s, m, retire, n);
    case Alloc(m, want) =>
    case Pop(want) => assert s.free[0] in s.free && CountOk(s, s.free[0]);
    case PopReclaim => assert s.free[0] in s.free && CountOk(s, s.free[0]);
    case _ =>
  }

  /** If every removal finds its node hashed and overtakes no test, no run ever breaks the tree. */
  lemma {:induction false} UndisturbedRunsHold(run: seq<State>, evs: seq<Event>, i: nat)
    requires IsRun(run, evs) && i < |run| && forall j | 0 <= j < |evs| :: Undisturbed(run[j], evs[j])
    ensures !run[i].broken && Inv(run[i]) && TestsHold(run[i])
    decreases i
  {
    if i > 0 {
      assert Steps(run[i - 1], evs[i - 1], run[i]);
      UndisturbedRunsHold(run, evs, i - 1);
      TestsStayTrue(run[i - 1], evs[i - 1]);
      StepInv(run[i - 1], evs[i - 1]);
    }
  }

  // ----- The freelist and the tree

  /** What is on the freelist is in the tree. */
  predicate FreeHashed(s: State) {
    forall n | n in s.free :: n in s.nodes && s.nodes[n].hashed
  }

  /** That holds until a thread puts a node on the list that was removed after it had decided to keep it. */
  lemma FreeHashedIff(s: State, ev: Event)
    requires Inv(s) && Enabled(s, ev) && FreeHashed(s)
    ensures FreeHashed(Next(s, ev)) <==>
            !(ev.Step? && s.transit[ev.n].Keep? && s.nodes[ev.n].vcount == 1 && !s.nodes[ev.n].hashed)
  {
    match ev
    case Step(n, retire) => FreeSection(s, n, retire);
    case DestroyTable(mnt) => FreeSweep(s, mnt);
    case Rmhash(n) => assert CountOk(s, n); FreeUnhash(s, n);
    case Lookup(key) => FindHashed(s, key);
    case Release(n) => FreeRelease(s, n);
    case _ => FreeOther(s, ev);
  }

  lemma FreeSweep(s: State, mnt: nat)
    requires Distinct(s.free) && FreeHashed(s)
    ensures FreeHashed(Sweep(s, mnt))
  {
    UnsweptIs(s, mnt, s.free);
  }

  lemma FreeUnhash(s: State, n: Nid)
    requires n in s.nodes && n !in s.free && FreeHashed(s)
    ensures FreeHashed(Unhash(s, n))
  {
  }

  lemma FreeRelease(s: State, n: Nid)
    requires Enabled(s, Release(n)) && FreeHashed(s)
    ensures FreeHashed(Next(s, Release(n)))
  {
  }

  lemma FreeOther(s: State, ev: Event)
    requires Enabled(s, ev) && FreeHashed(s) && (ev.Pop? || ev.PopReclaim? || ev.Alloc? || ev.Hold?)
    ensures FreeHashed(Next(s, ev))
  {
    assert forall m | m in Next(s, ev).free :: m in s.free;
  }

  lemma FindHashed(s: State, key: Key)
    requires Inv(s) && FreeHashed(s)
    ensures FreeHashed(Find(s, key))
  {
    if key in s.hash && s.hash[key] in s.free { RemoveIs(s.free, s.hash[key]); }
  }

  lemma FreeSection(s: State, n: Nid, retire: bool)
    requires Inv(s) && n in s.transit && FreeHashed(s)
    ensures FreeHashed(Advance(s, n, retire)) <==>
            !(s.transit[n].Keep? && s.nodes[n].vcount == 1 && !s.nodes[n].hashed)
  {
    assert CountOk(s, n);
    if Tested(s.transit[n]) {
      AdvanceUnhash(s, n, retire);
      FreeUnhashSection(s, n, AfterUnhash(s.transit[n]));
    } else if s.transit[n].Building? {
      FreeFinish(s, n, s.transit[n].want);
    } else if s.transit[n].Keep? {
      FreeKeep(s, n);
    } else {
      FreeOtherSection(s, n, retire);
    }
  }

  lemma FreeUnhashSection(s: State, n: Nid, next: Pc)
    requires n in s.nodes && n !in s.free && FreeHashed(s)
    ensures FreeHashed(UnhashSection(s, n, next))
  {
  }

  lemma FreeFinish(s: State, n: Nid, want: Key)
    requires Inv(s) && n in s.nodes && n !in s.free && FreeHashed(s)
    ensures FreeHashed(Finish(s, n, want))
  {
    FindHashed(s, want);
  }

  lemma FreeKeep(s: State, n: Nid)
    requires n in s.nodes && n !in s.free && FreeHashed(s)
    ensures FreeHashed(KeepSection(s, n)) <==> s.nodes[n].vcount > 1 || s.nodes[n].hashed
  {
    if s.nodes[n].vcount <= 1 { assert n in s.free + [n] && forall m | m in s.free + [n] :: m == n || m in s.free; }
  }

  lemma FreeOtherSection(s: State, n: Nid, retire: bool)
    requires n in s.nodes && n in s.transit && n !in s.free && FreeHashed(s)
    requires !Tested(s.transit[n]) && !s.transit[n].Building? && !s.transit[n].Keep?
    ensures FreeHashed(Advance(s, n, retire))
  {
  }

  /** A thread puts a node on the freelist that was removed after the thread had decided to keep it. */
  ghost predicate KeptLate(run: seq<State>, evs: seq<Event>, k: nat)
    requires k < |evs| && |run| == |evs| + 1
  {
    && evs[k].Step?
    && var s, n := run[k], evs[k].n;
    && n in s.nodes && n in s.transit && s.transit[n].Keep? && s.nodes[n].vcount == 1
    && WasOvertaken(run, evs, k, n)
  }

  ghost predicate HashedUpTo(run: seq<State>, i: nat)
    requires i < |run|
  {
    forall k | 0 <= k <= i :: FreeHashed(run[k])
  }

  ghost predicate NoneLate(run: seq<State>, evs: seq<Event>, i: nat)
    requires i <= |evs| && |run| == |evs| + 1
  {
    forall k | 0 <= k < i :: !KeptLate(run, evs, k)
  }

  /** In a run the freelist stays part of the tree exactly as long as no thread keeps a node late. */
  lemma {:induction false} FreelistIsHashedIff(run: seq<State>, evs: seq<Event>, i: nat)
    requires IsRun(run, evs) && i < |run|
    ensures HashedUpTo(run, i) <==> NoneLate(run, evs, i)
    decreases i
  {
    if i > 0 {
      var h := i - 1;
      FreelistIsHashedIff(run, evs, h);
      assert HashedUpTo(run, i) <==> HashedUpTo(run, h) && FreeHashed(run[i]);
      assert NoneLate(run, evs, i) <==> NoneLate(run, evs, h) && !KeptLate(run, evs, h);
      if HashedUpTo(run, h) {
        assert FreeHashed(run[h]);
        NextHashedIff(run, evs, h);
      }
    }
  }

  lemma NextHashedIff(run: seq<State>, evs: seq<Event>, i: nat)
    requires IsRun(run, evs) && i < |evs| && FreeHashed(run[i])
    ensures FreeHashed(run[i + 1]) <==> !KeptLate(run, evs, i)
  {
    RunOn(run, evs, i);
    FreeHashedIff(run[i], evs[i]);
    if evs[i].Step? { StaleIff(run, evs, i, evs[i].n); }
  }

  // ----- The clean-up before the second look

  /** sn_inactive, which frees the node's path, is called on the way to this. */
  predicate Cleans(pc: Pc) {
    pc.RecycleClean? || pc.DestroyClean?
  }

  /** A step cleans a node that somebody still holds exactly when the thread finds it unhashed and held. */
  lemma CleansHeld(s: State, n: Nid, retire: bool)
    requires Inv(s) && n in s.transit && !Advance(s, n, retire).broken
    ensures var s' := Advance(s, n, retire);
            n in s'.transit && Cleans(s'.transit[n]) && !Cleans(s.transit[n]) && n in s'.holds <==>
            (s.transit[n].RecycleTest? || s.transit[n].DestroyTest?) && Orphan(s, n)
  {
    assert CountOk(s, n) && PcOk(s, n);
    if Tested(s.transit[n]) {
      AdvanceUnhash(s, n, retire);
      CleansUnhashed(s, n, AfterUnhash(s.transit[n]));
    } else if s.transit[n].Building? {
      CleansFinished(s, n, s.transit[n].want);
    } else {
      CleansOther(s, n, retire);
    }
  }

  lemma CleansUnhashed(s: State, n: Nid, next: Pc)
    requires n in s.nodes && n in s.transit && (s.nodes[n].vcount <= 1 ==> n !in s.holds)
    ensures var s' := UnhashSection(s, n, next); n in s'.transit ==> n !in s'.holds
  {
  }

  lemma CleansFinished(s: State, n: Nid, want: Key)
    requires n in s.nodes
    ensures var s' := Finish(s, n, want); n in s'.transit ==> s'.transit[n] == FreeTest
  {
  }

  lemma CleansOther(s: State, n: Nid, retire: bool)
    requires n in s.transit && n in s.nodes && !Tested(s.transit[n]) && !s.transit[n].Building?
    ensures var s' := Advance(s, n, retire);
            n in s'.transit && Cleans(s'.transit[n]) && !Cleans(s.transit[n]) && n in s'.holds <==>
            (s.transit[n].RecycleTest? || s.transit[n].DestroyTest?) && Orphan(s, n)
  {
  }

  /**
   In a run, a thread frees the path of a node that somebody still holds exactly when it comes to
   its test of RHASHED after the node was removed, and the node has been held since.
   */
  lemma CleansHeldIff(run: seq<State>, evs: seq<Event>, i: nat)
    requires IsRun(run, evs) && i < |evs| && evs[i].Step? && !run[i + 1].broken
    ensures var s, n, s' := run[i], evs[i].n, run[i + 1];
            && n in s.transit
            && (n in s'.transit && Cleans(s'.transit[n]) && !Cleans(s.transit[n]) && n in s'.holds <==>
                (s.transit[n].RecycleTest? || s.transit[n].DestroyTest?) && WasRemoved(run, evs, i, n))
  {
    RunOn(run, evs, i);
    CleansHeld(run[i], evs[i].n, evs[i].retire);
    OrphanIff(run, evs, i, evs[i].n);
  }

  /** A node somebody holds is in the tree, where a walk from it may start,
    exactly when it was not removed meanwhile. */
  lemma HeldInTreeIff(run: seq<State>, evs: seq<Event>, i: nat, n: Nid)
    requires IsRun(run, evs) && i < |run| && !run[i].broken && n in run[i].holds
    ensures n in run[i].nodes
    ensures var s := run[i];
            s.nodes[n].key in s.hash && s.hash[s.nodes[n].key] == n <==> !WasRemoved(run, evs, i, n)
  {
    RunInv(run, evs, i);
    OrphanIff(run, evs, i, n);
  }

  // ----- Runs that go wrong

  /**
   A test overtaken breaks the tree: a thread about to destroy the node has found it hashed when
   another looks it up, removes it from the tree and lets it go again.
   */
  lemma OvertakenTestBreaks(k: Key)
    ensures exists run: seq<State>, evs: seq<Event> :: IsRun(run, evs) && run[|evs|].broken
  {
    var run, evs := OvertakenRun(k);
  }

  lemma OvertakenRun(k: Key) returns (run: seq<State>, evs: seq<Event>)
    ensures IsRun(run, evs) && run[|evs|].broken
  {
    run, evs := [Init], [];
    FirstSteps(k);
    run, evs := Extend(run, evs, Alloc(0, k), One0(k, false, 1, false, Building(k)));
    run, evs := Extend(run, evs, Step(0, false), Held0(k, true, 1));
    run, evs := Extend(run, evs, Release(0), One0(k, true, 1, false, FreeTest));
    run, evs := FoundHashed(k, run, evs);
    LastSteps(k);
    run, evs := Extend(run, evs, Rmhash(0), One0(k, false, 2, true, DestroyUnhash));
    run, evs := Extend(run, evs, Release(0), One0(k, false, 1, false, DestroyUnhash));
    run, evs := Extend(run, evs, Step(0, false), Next(One0(k, false, 1, false, DestroyUnhash), Step(0, false)));
  }

  lemma FoundHashed(k: Key, run0: seq<State>, evs0: seq<Event>) returns (run: seq<State>, evs: seq<Event>)
    requires IsRun(run0, evs0) && run0[|evs0|] == One0(k, true, 1, false, FreeTest)
    ensures IsRun(run, evs) && run[|evs|] == One0(k, true, 2, true, DestroyUnhash)
  {
    MiddleSteps(k);
    run, evs := Extend(run0, evs0, Step(0, true), One0(k, true, 1, false, DestroyTest));
    run, evs := Extend(run, evs, Step(0, false), One0(k, true, 1, false, DestroyUnhash));
    run, evs := Extend(run, evs, Lookup(k), One0(k, true, 2, true, DestroyUnhash));
  }

  lemma Extend(run0: seq<State>, evs0: seq<Event>, ev: Event, s: State) returns (run: seq<State>, evs: seq<Event>)
    requires IsRun(run0, evs0) && Enabled(run0[|evs0|], ev) && s == Next(run0[|evs0|], ev)
    ensures IsRun(run, evs) && run[|evs|] == s
  {
    run, evs := run0 + [s], evs0 + [ev];
  }

  /** No test is overtaken in the run. */
  ghost predicate InOrder(run: seq<State>, evs: seq<Event>) {
    |run| == |evs| + 1 && forall j | 0 <= j < |evs| :: !Overtakes(run[j], evs[j])
  }

  /** Two removals of one node break the tree as well, without any test overtaken. */
  lemma TwoRemovalsBreak(k: Key)
    ensures exists run: seq<State>, evs: seq<Event> :: IsRun(run, evs) && InOrder(run, evs) && run[|evs|].broken
  {
    var run, evs := TwiceRun(k);
  }

  lemma TwiceRun(k: Key) returns (run: seq<State>, evs: seq<Event>)
    ensures IsRun(run, evs) && InOrder(run, evs) && run[|evs|].broken
  {
    run, evs := [Init], [];
    FirstSteps(k);
    TwiceSteps(k);
    run, evs := ExtendInOrder(run, evs, Alloc(0, k), One0(k, false, 1, false, Building(k)));
    run, evs := ExtendInOrder(run, evs, Step(0, false), Held0(k, true, 1));
    run, evs := ExtendInOrder(run, evs, Lookup(k), Twice0(k, true));
    run, evs := ExtendInOrder(run, evs, Rmhash(0), Twice0(k, false));
    run, evs := ExtendInOrder(run, evs, Rmhash(0), Next(Twice0(k, false), Rmhash(0)));
  }

  lemma ExtendInOrder(run0: seq<State>, evs0: seq<Event>, ev: Event, s: State)
    returns (run: seq<State>, evs: seq<Event>)
    requires IsRun(run0, evs0) && InOrder(run0, evs0)
    requires Enabled(run0[|evs0|], ev) && s == Next(run0[|evs0|], ev) && !Overtakes(run0[|evs0|], ev)
    ensures IsRun(run, evs) && InOrder(run, evs) && run[|evs|] == s
  {
    run, evs := run0 + [s], evs0 + [ev];
  }

  lemma TwiceSteps(k: Key)
    ensures Next(Held0(k, true, 1), Lookup(k)) == Twice0(k, true)
    ensures Next(Twice0(k, true), Rmhash(0)) == Twice0(k, false)
    ensures Next(Twice0(k, false), Rmhash(0)).broken
  {
  }

  /** Node 0 held by two. */
  function Twice0(k: Key, hashed: bool): State {
    Held0(k, hashed, 2).(holds := multiset{0, 0})
  }

  /**
   A node on the freelist that is not in the tree: it was looked up and removed after the thread
   that gives it up had decided to keep it.
   */
  lemma LateRemovalStays(k: Key)
    ensures exists run: seq<State>, evs: seq<Event> ::
              && IsRun(run, evs) && InOrder(run, evs) && !run[|evs|].broken && !FreeHashed(run[|evs|])
  {
    var run, evs := LateRun(k);
  }

  lemma LateRun(k: Key) returns (run: seq<State>, evs: seq<Event>)
    ensures IsRun(run, evs) && InOrder(run, evs) && !run[|evs|].broken && !FreeHashed(run[|evs|])
  {
    run, evs := [Init], [];
    FirstSteps(k);
    run, evs := ExtendInOrder(run, evs, Alloc(0, k), One0(k, false, 1, false, Building(k)));
    run, evs := ExtendInOrder(run, evs, Step(0, false), Held0(k, true, 1));
    run, evs := ExtendInOrder(run, evs, Release(0), One0(k, true, 1, false, FreeTest));
    run, evs := LateSteps(k, run, evs);
    var s := One0(k, false, 1, false, Keep);
    KeptSteps(k);
    run, evs := ExtendInOrder(run, evs, Release(0), s);
    run, evs := ExtendInOrder(run, evs, Step(0, false), Next(s, Step(0, false)));
  }

  lemma LateSteps(k: Key, run0: seq<State>, evs0: seq<Event>) returns (run: seq<State>, evs: seq<Event>)
    requires IsRun(run0, evs0) && InOrder(run0, evs0) && run0[|evs0|] == One0(k, true, 1, false, FreeTest)
    ensures IsRun(run, evs) && InOrder(run, evs) && run[|evs|] == One0(k, false, 2, true, Keep)
  {
    KeepSteps(k);
    run, evs := ExtendInOrder(run0, evs0, Step(0, false), One0(k, true, 1, false, Keep));
    run, evs := ExtendInOrder(run, evs, Lookup(k), One0(k, true, 2, true, Keep));
    run, evs := ExtendInOrder(run, evs, Rmhash(0), One0(k, false, 2, true, Keep));
  }

  lemma KeepSteps(k: Key)
    ensures Next(One0(k, true, 1, false, FreeTest), Step(0, false)) == One0(k, true, 1, false, Keep)
    ensures Next(One0(k, true, 1, false, Keep), Lookup(k)) == One0(k, true, 2, true, Keep)
    ensures Next(One0(k, true, 2, true, Keep), Rmhash(0)) == One0(k, false, 2, true, Keep)
  {
  }

  lemma KeptSteps(k: Key)
    ensures Next(One0(k, false, 2, true, Keep), Release(0)) == One0(k, false, 1, false, Keep)
    ensures var s := Next(One0(k, false, 1, false, Keep), Step(0, false));
            !s.broken && s.free == [0] && 0 in s.nodes && !s.nodes[0].hashed
  {
  }

  /** Every removal finds its node hashed and overtakes no test. */
  ghost predicate Calm(run: seq<State>, evs: seq<Event>) {
    |run| == |evs| + 1 && forall j | 0 <= j < |evs| :: Undisturbed(run[j], evs[j])
  }

  lemma ExtendCalm(run0: seq<State>, evs0: seq<Event>, ev: Event, s: State)
    returns (run: seq<State>, evs: seq<Event>)
    requires IsRun(run0, evs0) && Calm(run0, evs0)
    requires Enabled(run0[|evs0|], ev) && s == Next(run0[|evs0|], ev) && Undisturbed(run0[|evs0|], ev)
    ensures IsRun(run, evs) && Calm(run, evs) && run[|evs|] == s
  {
    run, evs := run0 + [s], evs0 + [ev];
  }

  /** Node 0 has been cleaned and its path is gone, while somebody holds it. */
  predicate HeldPathless(s: State) {
    !s.broken && 0 in s.transit && Cleans(s.transit[0]) && 0 in s.holds
  }

  /**
   A calm run that frees the path of a node in use: it was given up, looked up again and removed,
   and the thread that gives it up finds it unhashed and does not look who else has it.
   */
  lemma PathFreedInUse(k: Key)
    ensures exists run: seq<State>, evs: seq<Event> ::
              IsRun(run, evs) && Calm(run, evs) && HeldPathless(run[|evs|])
  {
    var run, evs := InUseRun(k);
  }

  lemma InUseRun(k: Key) returns (run: seq<State>, evs: seq<Event>)
    ensures IsRun(run, evs) && Calm(run, evs) && HeldPathless(run[|evs|])
  {
    run, evs := [Init], [];
    FirstSteps(k);
    run, evs := ExtendCalm(run, evs, Alloc(0, k), One0(k, false, 1, false, Building(k)));
    run, evs := ExtendCalm(run, evs, Step(0, false), Held0(k, true, 1));
    run, evs := ExtendCalm(run, evs, Release(0), One0(k, true, 1, false, FreeTest));
    run, evs := InUseSteps(k, run, evs);
  }

  lemma InUseSteps(k: Key, run0: seq<State>, evs0: seq<Event>) returns (run: seq<State>, evs: seq<Event>)
    requires IsRun(run0, evs0) && Calm(run0, evs0) && run0[|evs0|] == One0(k, true, 1, false, FreeTest)
    ensures IsRun(run, evs) && Calm(run, evs) && HeldPathless(run[|evs|])
  {
    UsedSteps(k);
    run, evs := ExtendCalm(run0, evs0, Lookup(k), One0(k, true, 2, true, FreeTest));
    run, evs := ExtendCalm(run, evs, Rmhash(0), One0(k, false, 2, true, FreeTest));
    run, evs := ExtendCalm(run, evs, Step(0, false), One0(k, false, 2, true, DestroyTest));
    run, evs := ExtendCalm(run, evs, Step(0, false), One0(k, false, 2, true, DestroyClean));
  }

  lemma UsedSteps(k: Key)
    ensures Next(One0(k, true, 1, false, FreeTest), Lookup(k)) == One0(k, true, 2, true, FreeTest)
    ensures Next(One0(k, true, 2, true, FreeTest), Rmhash(0)) == One0(k, false, 2, true, FreeTest)
    ensures Next(One0(k, false, 2, true, FreeTest), Step(0, false)) == One0(k, false, 2, true, DestroyTest)
    ensures Next(One0(k, false, 2, true, DestroyTest), Step(0, false)) == One0(k, false, 2, true, DestroyClean)
  {
  }

  /** A calm run after which a walk from a held node would start outside the tree: its file was removed. */
  lemma HeldOutsideTree(k: Key)
    ensures exists run: seq<State>, evs: seq<Event> ::
              IsRun(run, evs) && Calm(run, evs) && !run[|evs|].broken && Orphan(run[|evs|], 0)
  {
    var run, evs := OutsideRun(k);
  }

  lemma OutsideRun(k: Key) returns (run: seq<State>, evs: seq<Event>)
    ensures IsRun(run, evs) && Calm(run, evs) && !run[|evs|].broken && Orphan(run[|evs|], 0)
  {
    run, evs := [Init], [];
    FirstSteps(k);
    run, evs := ExtendCalm(run, evs, Alloc(0, k), One0(k, false, 1, false, Building(k)));
    run, evs := ExtendCalm(run, evs, Step(0, false), Held0(k, true, 1));
    run, evs := ExtendCalm(run, evs, Rmhash(0), Next(Held0(k, true, 1), Rmhash(0)));
  }

  /** Node 0 alone in the cache, in transit at `pc`. */
  function One0(k: Key, hashed: bool, vcount: int, held: bool, pc: Pc): State {
    State(map[0 := Node(k, hashed, vcount)], if hashed then map[k := 0] else map[], [],
          if held then multiset{0} else multiset{}, map[0 := pc], 1, false)
  }

  function Held0(k: Key, hashed: bool, vcount: int): State {
    State(map[0 := Node(k, hashed, vcount)], if hashed then map[k := 0] else map[], [], multiset{0}, map[], 1, false)
  }

  lemma FirstSteps(k: Key)
    ensures Next(Init, Alloc(0, k)) == One0(k, false, 1, false, Building(k))
    ensures Next(One0(k, false, 1, false, Building(k)), Step(0, false)) == Held0(k, true, 1)
    ensures Next(Held0(k, true, 1), Release(0)) == One0(k, true, 1, false, FreeTest)
  {
  }

  lemma MiddleSteps(k: Key)
    ensures Next(One0(k, true, 1, false, FreeTest), Step(0, true)) == One0(k, true, 1, false, DestroyTest)
    ensures Next(One0(k, true, 1, false, DestroyTest), Step(0, false)) == One0(k, true, 1, false, DestroyUnhash)
    ensures Next(One0(k, true, 1, false, DestroyUnhash), Lookup(k)) == One0(k, true, 2, true, DestroyUnhash)
  {
  }

  lemma LastSteps(k: Key)
    ensures Next(One0(k, true, 2, true, DestroyUnhash), Rmhash(0)) == One0(k, false, 2, true, DestroyUnhash)
    ensures Next(One0(k, false, 2, true, DestroyUnhash), Release(0)) == One0(k, false, 1, false, DestroyUnhash)
    ensures Next(One0(k, false, 1, false, DestroyUnhash), Step(0, false)).broken
  {
  }
}
