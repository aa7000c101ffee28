/**
 Who holds which node of the kernel's cache, and in which order nodes are used again, told
 from the steps of a run alone.
 */
module CacheHistory {
  import opened Wrappers
  import opened NodeCache

  // ----- Whoever asks for a path gets its node

  /** The node a step gives out: what a path leads to, the node that was built for it, or one more hold. */
  function GivenOut(s: State, ev: Event): Option<Nid> {
    match ev
    case Lookup(key) => if key in s.hash then Some(s.hash[key]) else None
    case Step(n, _) =>
      if n in s.transit && s.transit[n].Building? then
        var want := s.transit[n].want;
        Some(if want in s.hash then s.hash[want] else n)
      else None
    case Hold(n) => Some(n)
    case _ => None
  }

  function Gained(s: State, ev: Event, n: Nid): int {
    (if GivenOut(s, ev) == Some(n) then 1 else 0) - (if ev == Release(n) then 1 else 0)
  }

  lemma FindHolds(s: State, key: Key, n: Nid)
    requires HashOk(s)
    ensures Find(s, key).holds[n] == s.holds[n] + if key in s.hash && s.hash[key] == n then 1 else 0
  {
  }

  lemma FinishHolds(s: State, m: Nid, want: Key, n: Nid)
    requires HashOk(s) && m in s.nodes
    ensures Finish(s, m, want).holds[n] ==
            s.holds[n] + if n == (if want in s.hash then s.hash[want] else m) then 1 else 0
  {
    FindHolds(s, want, n);
  }

  lemma UnhashHolds(s: State, m: Nid, next: Pc)
    requires m in s.nodes
    ensures UnhashSection(s, m, next).holds == s.holds
  {
  }

  lemma StepHolds(s: State, m: Nid, retire: bool, n: Nid)
    requires Inv(s) && m in s.transit
    ensures Advance(s, m, retire).holds[n] == s.holds[n] + Gained(s, Step(m, retire), n)
  {
    if Tested(s.transit[m]) {
      AdvanceUnhash(s, m, retire);
      UnhashHolds(s, m, AfterUnhash(s.transit[m]));
    } else if s.transit[m].Building? {
      FinishHolds(s, m, s.transit[m].want, n);
    }
  }

  lemma HoldsStep(s: State, ev: Event, n: Nid)
    requires Inv(s) && Enabled(s, ev)
    ensures Next(s, ev).holds[n] == s.holds[n] + Gained(s, ev, n)
  {
    match ev
    case Step(m, retire) => StepHolds(s, m, retire, n);
    case Lookup(key) => FindHolds(s, key, n);
    case Release(m) => ReleaseHolds(s, m, n);
    case _ => OtherHolds(s, ev, n);
  }

  lemma ReleaseHolds(s: State, m: Nid, n: Nid)
    requires Enabled(s, Release(m))
    ensures Next(s, Release(m)).holds[n] == s.holds[n] - if m == n then 1 else 0
  {
  }

  lemma OtherHolds(s: State, ev: Event, n: Nid)
    requires Enabled(s, ev) && !ev.Step? && !ev.Lookup? && !ev.Release?
    ensures Next(s, ev).holds[n] == s.holds[n] + if ev == Hold(n) then 1 else 0
  {
  }

  /** The node of `key` is `n`, in the tree. */
  predicate Leads(s: State, key: Key, n: Nid) {
    key in s.hash && s.hash[key] == n && n in s.nodes && s.nodes[n].hashed && s.nodes[n].key == key
  }

  /** A thread that asks for a path, by a lookup or by building a node, is given the node of that path. */
  lemma AskerGetsNode(run: seq<State>, evs: seq<Event>, i: nat, key: Key)
    requires IsRun(run, evs) && i < |evs|
    requires || evs[i] == Lookup(key)
             || (evs[i].Step? && evs[i].n in run[i].transit && run[i].transit[evs[i].n] == Building(key))
    ensures var s, s' := run[i], run[i + 1];
            && !s'.broken
            && (evs[i].Step? ==> key in s'.hash)
            && (evs[i].Lookup? ==> s'.hash == s.hash)
            && (key in s'.hash ==> Leads(s', key, s'.hash[key]) && s'.holds == s.holds + multiset{s'.hash[key]})
            && (key !in s'.hash ==> s' == s)
  {
    RunOn(run, evs, i);
    BreaksIff(run[i], evs[i]);
    StepInv(run[i], evs[i]);
    if evs[i].Lookup? { FindGives(run[i], key); } else { BuilderGets(run[i], evs[i].n, evs[i].retire, key); }
    if key in run[i + 1].hash { HashLeads(run[i + 1], key); }
  }

  lemma HashLeads(s: State, key: Key)
    requires HashOk(s) && key in s.hash
    ensures Leads(s, key, s.hash[key])
  {
  }

  lemma BuilderGets(s: State, n: Nid, retire: bool, want: Key)
    requires Inv(s) && n in s.transit && n in s.nodes && s.transit[n] == Building(want)
    ensures var s' := Advance(s, n, retire); want in s'.hash && s'.holds == s.holds + multiset{s'.hash[want]}
  {
    FinishGives(s, n, want);
  }

  lemma FindGives(s: State, key: Key)
    requires Inv(s)
    ensures var s' := Find(s, key);
            && s'.hash == s.hash
            && (if key in s.hash then s'.holds == s.holds + multiset{s.hash[key]} else s' == s)
  {
  }

  lemma FinishGives(s: State, n: Nid, want: Key)
    requires Inv(s) && n in s.transit && n in s.nodes
    ensures var s' := Finish(s, n, want);
            && want in s'.hash && s'.holds == s.holds + multiset{s'.hash[want]}
            && s'.hash[want] == if want in s.hash then s.hash[want] else n
  {
    FindGives(s, want);
  }

  /** The holds on `n` given out in the first `i` steps, less those given back. */
  function Holds(run: seq<State>, evs: seq<Event>, i: nat, n: Nid): int
    requires i <= |evs| && i <= |run|
  {
    if i == 0 then 0 else Holds(run, evs, i - 1, n) + Gained(run[i - 1], evs[i - 1], n)
  }

  predicate Grows(run: seq<State>, evs: seq<Event>, i: nat, n: Nid)
    requires i < |evs| && |run| == |evs| + 1
  {
    run[i + 1].holds[n] == run[i].holds[n] + Gained(run[i], evs[i], n)
  }

  /** In every run, until one breaks the tree and after,
    a node is held as often as it was given out and not given back. */
  lemma HoldsCounted(run: seq<State>, evs: seq<Event>, i: nat, n: Nid)
    requires IsRun(run, evs) && i < |run|
    ensures run[i].holds[n] == Holds(run, evs, i, n)
  {
    forall h | 0 <= h < i
      ensures Grows(run, evs, h, n)
    {
      RunOn(run, evs, h);
      HoldsStep(run[h], evs[h], n);
    }
    SumUp(run, evs, i, n);
  }

  lemma {:induction false} SumUp(run: seq<State>, evs: seq<Event>, i: nat, n: Nid)
    requires i < |run| == |evs| + 1 && run[0].holds[n] == 0 && forall h | 0 <= h < i :: Grows(run, evs, h, n)
    ensures run[i].holds[n] == Holds(run, evs, i, n)
    decreases i
  {
    if i > 0 {
      SumUp(run, evs, i - 1, n);
      assert Grows(run, evs, i - 1, n);
    }
  }

  // ----- The node longest unused is used first

  predicate Precedes(free: seq<Nid>, m: Nid, n: Nid) {
    exists a, b :: 0 <= a < b < |free| && free[a] == m && free[b] == n
  }

  lemma {:induction false} RemovePrecedes(free: seq<Nid>, x: Nid, m: Nid, n: Nid)
    requires Precedes(Remove(free, x), m, n)
    ensures Precedes(free, m, n)
    decreases |free|
  {
    if free != [] {
      var rest := free[1..];
      assert free == [free[0]] + rest;
      if free[0] == x { TailPrecedes(free, m, n); } else {
        HeadPrecedes(free[0], Remove(rest, x), m, n);
        if free[0] == m && n in Remove(rest, x) {
          RemoveIn(rest, x, n);
          FirstPrecedes(free, n);
        } else {
          RemovePrecedes(rest, x, m, n);
          TailPrecedes(free, m, n);
        }
      }
    }
  }

  lemma HeadPrecedes(x: Nid, rest: seq<Nid>, m: Nid, n: Nid)
    requires Precedes([x] + rest, m, n)
    ensures (x == m && n in rest) || Precedes(rest, m, n)
  {
    var l := [x] + rest;
    var a, b :| 0 <= a < b < |l| && l[a] == m && l[b] == n;
    assert l[b] == rest[b - 1];
    if a > 0 { assert l[a] == rest[a - 1]; }
  }

  lemma TailPrecedes(free: seq<Nid>, m: Nid, n: Nid)
    requires free != [] && Precedes(free[1..], m, n)
    ensures Precedes(free, m, n)
  {
    var a, b :| 0 <= a < b < |free[1..]| && free[1..][a] == m && free[1..][b] == n;
    assert free[a + 1] == m && free[b + 1] == n;
  }

  lemma FirstPrecedes(free: seq<Nid>, n: Nid)
    requires free != [] && n in free[1..]
    ensures Precedes(free, free[0], n)
  {
    var b :| 0 <= b < |free[1..]| && free[1..][b] == n;
    assert free[b + 1] == n;
  }

  lemma {:induction false} RemoveIn(free: seq<Nid>, x: Nid, n: Nid)
    requires n in Remove(free, x)
    ensures n in free
    decreases |free|
  {
    if free != [] && free[0] != x && n != free[0] { RemoveIn(free[1..], x, n); }
  }

  lemma {:induction false} UnsweptPrecedes(s: State, mnt: nat, free: seq<Nid>, m: Nid, n: Nid)
    requires Precedes(Unswept(s, mnt, free), m, n)
    ensures Precedes(free, m, n)
    decreases |free|
  {
    if free != [] {
      var rest := free[1..];
      if Swept(s, mnt, free[0]) {
        UnsweptPrecedes(s, mnt, rest, m, n);
        TailPrecedes(free, m, n);
      } else {
        HeadPrecedes(free[0], Unswept(s, mnt, rest), m, n);
        if free[0] == m && n in Unswept(s, mnt, rest) {
          UnsweptIn(s, mnt, rest, n);
          FirstPrecedes(free, n);
        } else {
          UnsweptPrecedes(s, mnt, rest, m, n);
          TailPrecedes(free, m, n);
        }
      }
    }
  }

  lemma {:induction false} UnsweptIn(s: State, mnt: nat, free: seq<Nid>, n: Nid)
    requires n in Unswept(s, mnt, free)
    ensures n in free
    decreases |free|
  {
    if free != [] && n != free[0] { UnsweptIn(s, mnt, free[1..], n); }
  }

  /** The list keeps its order, and what is put on it comes last. */
  predicate KeepsOrder(free: seq<Nid>, free': seq<Nid>, m: Nid, n: Nid) {
    Precedes(free', m, n) ==> Precedes(free, m, n) || (m in free && n !in free)
  }

  lemma FindOrder(s: State, key: Key, m: Nid, n: Nid)
    ensures KeepsOrder(s.free, Find(s, key).free, m, n)
  {
    if key in s.hash && Precedes(Remove(s.free, s.hash[key]), m, n) { RemovePrecedes(s.free, s.hash[key], m, n); }
  }

  lemma KeepOrder(s: State, x: Nid, m: Nid, n: Nid)
    requires x in s.nodes && x !in s.free
    ensures KeepsOrder(s.free, KeepSection(s, x).free, m, n)
  {
    var l := s.free + [x];
    if Precedes(l, m, n) {
      var a, b :| 0 <= a < b < |l| && l[a] == m && l[b] == n;
      assert s.free[a] == m;
    }
  }

  lemma SectionOrder(s: State, x: Nid, retire: bool, m: Nid, n: Nid)
    requires Inv(s) && x in s.transit
    ensures KeepsOrder(s.free, Advance(s, x, retire).free, m, n)
  {
    assert CountOk(s, x);
    if Tested(s.transit[x]) {
      AdvanceUnhash(s, x, retire);
      assert UnhashSection(s, x, AfterUnhash(s.transit[x])).free == s.free;
    } else if s.transit[x].Building? {
      FindOrder(s, s.transit[x].want, m, n);
    } else if s.transit[x].Keep? {
      KeepOrder(s, x, m, n);
    }
  }

  lemma OrderStep(s: State, ev: Event, m: Nid, n: Nid)
    requires Inv(s) && Enabled(s, ev)
    ensures KeepsOrder(s.free, Next(s, ev).free, m, n)
  {
    match ev
    case Lookup(key) => FindOrder(s, key, m, n);
    case Step(x, retire) => SectionOrder(s, x, retire, m, n);
    case Pop(_) => if Precedes(s.free[1..], m, n) { TailPrecedes(s.free, m, n); }
    case PopReclaim => if Precedes(s.free[1..], m, n) { TailPrecedes(s.free, m, n); }
    case DestroyTable(mnt) =>
      if Precedes(Unswept(s, mnt, s.free), m, n) { UnsweptPrecedes(s, mnt, s.free, m, n); }
    case _ =>
  }

  /** Since which step `n` has been on the freelist. */
  function Since(run: seq<State>, i: nat, n: Nid): nat
    requires i < |run|
  {
    if i == 0 || n !in run[i - 1].free then i else Since(run, i - 1, n)
  }

  lemma {:induction false} SinceWhen(run: seq<State>, i: nat, n: Nid)
    requires i < |run|
    ensures Since(run, i, n) <= i
    decreases i
  {
    if i > 0 && n in run[i - 1].free { SinceWhen(run, i - 1, n); }
  }

  ghost predicate StepKeepsOrder(run: seq<State>, i: nat)
    requires i + 1 < |run|
  {
    OrderKept(run[i].free, run[i + 1].free)
  }

  ghost predicate OrderKept(free: seq<Nid>, free': seq<Nid>) {
    forall m, n :: KeepsOrder(free, free', m, n)
  }

  lemma {:induction false} InOrderSince(run: seq<State>, i: nat, m: Nid, n: Nid)
    requires i < |run| && run[0].free == [] && (forall h | 0 <= h < i :: StepKeepsOrder(run, h))
    requires Precedes(run[i].free, m, n)
    ensures Since(run, i, m) < Since(run, i, n)
    decreases i
  {
    if i > 0 {
      assert StepKeepsOrder(run, i - 1);
      assert KeepsOrder(run[i - 1].free, run[i].free, m, n);
      if Precedes(run[i - 1].free, m, n) {
        InOrderSince(run, i - 1, m, n);
      } else {
        SinceWhen(run, i - 1, m);
      }
    }
  }

  lemma OrderIsKept(s: State, ev: Event)
    requires Inv(s) && Enabled(s, ev)
    ensures OrderKept(s.free, Next(s, ev).free)
  {
    var free' := Next(s, ev).free;
    forall m, n ensures KeepsOrder(s.free, free', m, n) { OrderStep(s, ev, m, n); }
  }

  /** In every run the freelist is in the order in which its nodes were put there. */
  lemma FreelistIsInOrder(run: seq<State>, evs: seq<Event>, i: nat, m: Nid, n: Nid)
    requires IsRun(run, evs) && i < |run| && Precedes(run[i].free, m, n)
    ensures Since(run, i, m) < Since(run, i, n)
  {
    forall h | 0 <= h < i
      ensures StepKeepsOrder(run, h)
    {
      RunOn(run, evs, h);
      OrderIsKept(run[h], evs[h]);
    }
    InOrderSince(run, i, m, n);
  }

  /** So the node that is taken for another path, or given back to the system, is the one longest unused. */
  lemma OldestFirst(run: seq<State>, evs: seq<Event>, i: nat, m: Nid)
    requires IsRun(run, evs) && i < |evs| && (evs[i].Pop? || evs[i].PopReclaim?)
    ensures var s, s' := run[i], run[i + 1];
            && s.free != []
            && var n := s.free[0];
            && n in s'.transit && n !in s'.free
            && s'.transit[n] == (if evs[i].Pop? then RecycleTest(evs[i].want) else ReclaimTest)
            && (m in s.free && m != n ==> m in s'.free && Since(run, i, n) < Since(run, i, m))
  {
    RunOn(run, evs, i);
    var s := run[i];
    var n := s.free[0];
    assert s.free == [n] + s.free[1..];
    assert n !in s.free[1..] by { assert forall j | 1 <= j < |s.free| :: s.free[j] != s.free[0]; }
    if m in s.free && m != n {
      FirstPrecedes(s.free, m);
      FreelistIsInOrder(run, evs, i, n, m);
    }
  }

  // ----- The sweep of a mount

  /** The node is off the freelist and out of the tree, to be destroyed. */
  predicate SweptAway(s: State, s': State, n: Nid)
    requires n in s.nodes
  {
    && n in s'.nodes && n !in s'.free && !s'.nodes[n].hashed && s.nodes[n].key !in s'.hash
    && n in s'.transit && s'.transit[n] == FreeTest
  }

  predicate LeftAlone(s: State, s': State, n: Nid)
    requires n in s.nodes
  {
    && n in s'.nodes && s'.nodes[n] == s.nodes[n] && (n in s'.free <==> n in s.free)
    && (n in s'.transit <==> n in s.transit) && (s.nodes[n].hashed ==> Leads(s', s.nodes[n].key, n))
  }

  /** A sweep takes every hashed node of the mount off the freelist and out of the tree, and no other. */
  lemma SweepTakesMount(run: seq<State>, evs: seq<Event>, i: nat, n: Nid)
    requires IsRun(run, evs) && i < |evs| && evs[i].DestroyTable? && n in run[i].nodes
    ensures var s, s' := run[i], run[i + 1];
            var ofMount := n in s.free && s.nodes[n].hashed && s.nodes[n].key.mnt == evs[i].mnt;
            if ofMount then SweptAway(s, s', n) else LeftAlone(s, s', n)
  {
    RunOn(run, evs, i);
    StepInv(run[i], evs[i]);
    UnsweptIs(run[i], evs[i].mnt, run[i].free);
  }

  // ----- What becomes of a node nobody else wants

  /** The thread at `pc` is the only one that has the node. */
  predicate Alone(s: State, n: Nid, pc: Pc, hashed: bool) {
    && !s.broken && n in s.transit && s.transit[n] == pc
    && n in s.nodes && s.nodes[n].vcount == 1 && s.nodes[n].hashed == hashed && n !in s.holds
  }

  /** Its steps, as long as it has the node; `rs` says each time whether the node is not worth keeping. */
  function OwnSteps(s: State, n: Nid, rs: seq<bool>): State
    decreases |rs|
  {
    if rs == [] || n !in s.transit || n !in s.nodes then s else OwnSteps(Advance(s, n, rs[0]), n, rs[1..])
  }

  /** Nothing new in the tree, and the same holds. */
  predicate Quiet(s: State, s': State) {
    s'.holds == s.holds && forall k | k in s'.hash :: k in s.hash
  }

  lemma TestAlone(s: State, n: Nid, pc: Pc, hashed: bool, retire: bool)
    requires Alone(s, n, pc, hashed) && IsTest(pc)
    ensures var s' := Advance(s, n, retire);
            && Quiet(s, s')
            && match pc
               case RecycleTest(w) => Alone(s', n, if hashed then RecycleUnhash(w) else RecycleClean(w), hashed)
               case FreeTest => Alone(s', n, if hashed && !retire then Keep else DestroyTest, hashed)
               case DestroyTest => Alone(s', n, if hashed then DestroyUnhash else DestroyClean, hashed)
               case ReclaimTest => Alone(s', n, if hashed then ReclaimUnhash else FreeTest, hashed)
  {
  }

  lemma UnhashAlone(s: State, n: Nid, pc: Pc, retire: bool)
    requires Alone(s, n, pc, true) && Tested(pc)
    ensures var s' := Advance(s, n, retire);
            && Quiet(s, s')
            && match pc
               case RecycleUnhash(w) => Alone(s', n, RecycleClean(w), false)
               case DestroyUnhash => Alone(s', n, DestroyClean, false)
               case ReclaimUnhash => Alone(s', n, FreeTest, false)
  {
    AdvanceUnhash(s, n, retire);
  }

  lemma CleanAlone(s: State, n: Nid, pc: Pc, retire: bool)
    requires Alone(s, n, pc, false) && (pc.RecycleClean? || pc.DestroyClean?)
    ensures var s' := Advance(s, n, retire);
            Quiet(s, s') && Alone(s', n, if pc.DestroyClean? then Doomed else Building(pc.want), false)
  {
  }

  lemma GoneAlone(s: State, n: Nid, rs: seq<bool>)
    requires Alone(s, n, Doomed, false) && |rs| >= 1
    ensures n !in OwnSteps(s, n, rs).nodes
  {
    assert n !in Advance(s, n, rs[0]).transit;
  }

  /** A node that is to be destroyed is, by the thread's own steps. */
  lemma DestroyEnds(s: State, n: Nid, hashed: bool, rs: seq<bool>)
    requires Alone(s, n, DestroyTest, hashed) && |rs| >= 4
    ensures n !in OwnSteps(s, n, rs).nodes
  {
    TestAlone(s, n, DestroyTest, hashed, rs[0]);
    var s1, r1 := Advance(s, n, rs[0]), rs[1..];
    if hashed {
      UnhashAlone(s1, n, DestroyUnhash, r1[0]);
      CleanEnds(Advance(s1, n, r1[0]), n, r1[1..]);
    } else {
      CleanEnds(s1, n, r1);
    }
  }

  lemma CleanEnds(s: State, n: Nid, rs: seq<bool>)
    requires Alone(s, n, DestroyClean, false) && |rs| >= 2
    ensures n !in OwnSteps(s, n, rs).nodes
  {
    CleanAlone(s, n, DestroyClean, rs[0]);
    GoneAlone(Advance(s, n, rs[0]), n, rs[1..]);
  }

  /** A node given up goes to the end of the freelist if it is in the tree and worth keeping,
    and is destroyed if not. */
  lemma GivenUpEnds(s: State, n: Nid, hashed: bool, rs: seq<bool>)
    requires Alone(s, n, FreeTest, hashed) && |rs| >= 5
    ensures var s' := OwnSteps(s, n, rs);
            if hashed && !rs[0] then s'.free == s.free + [n] && n in s'.nodes && s'.nodes[n].hashed
            else n !in s'.nodes
  {
    TestAlone(s, n, FreeTest, hashed, rs[0]);
    var s1, r1 := Advance(s, n, rs[0]), rs[1..];
    if hashed && !rs[0] {
      var s2 := Advance(s1, n, r1[0]);
      assert s2 == s1.(free := s1.free + [n], transit := s1.transit - {n}) && s1.free == s.free;
      assert OwnSteps(s1, n, r1) == OwnSteps(s2, n, r1[1..]) == s2;
    } else {
      DestroyEnds(s1, n, hashed, r1);
    }
  }

  /** A node taken to give memory back is destroyed. */
  lemma ReclaimEnds(s: State, n: Nid, hashed: bool, rs: seq<bool>)
    requires Alone(s, n, ReclaimTest, hashed) && |rs| >= 7
    ensures n !in OwnSteps(s, n, rs).nodes
  {
    TestAlone(s, n, ReclaimTest, hashed, rs[0]);
    var s1, r1 := Advance(s, n, rs[0]), rs[1..];
    if hashed {
      UnhashAlone(s1, n, ReclaimUnhash, r1[0]);
      GivenUpEnds(Advance(s1, n, r1[0]), n, false, r1[1..]);
    } else {
      GivenUpEnds(s1, n, false, r1);
    }
  }

  /** A node taken for another path becomes the node of that path, held once. */
  lemma RecycleEnds(s: State, n: Nid, want: Key, hashed: bool, rs: seq<bool>)
    requires Alone(s, n, RecycleTest(want), hashed) && want !in s.hash && |rs| >= 4
    ensures var s' := OwnSteps(s, n, rs);
            Leads(s', want, n) && n !in s'.transit && s'.holds == s.holds + multiset{n}
  {
    TestAlone(s, n, RecycleTest(want), hashed, rs[0]);
    var s1, r1 := Advance(s, n, rs[0]), rs[1..];
    if hashed {
      UnhashAlone(s1, n, RecycleUnhash(want), r1[0]);
      RebuiltEnds(Advance(s1, n, r1[0]), n, want, r1[1..]);
    } else {
      RebuiltEnds(s1, n, want, r1);
    }
  }

  lemma RebuiltEnds(s: State, n: Nid, want: Key, rs: seq<bool>)
    requires Alone(s, n, RecycleClean(want), false) && want !in s.hash && |rs| >= 2
    ensures var s' := OwnSteps(s, n, rs);
            Leads(s', want, n) && n !in s'.transit && s'.holds == s.holds + multiset{n}
  {
    CleanAlone(s, n, RecycleClean(want), rs[0]);
    var s1, r1 := Advance(s, n, rs[0]), rs[1..];
    assert want !in s1.hash;
    var s2 := Advance(s1, n, r1[0]);
    assert s2 == Finish(s1, n, want) && n !in s2.transit;
    assert OwnSteps(s1, n, r1) == OwnSteps(s2, n, r1[1..]) == s2;
  }
}
