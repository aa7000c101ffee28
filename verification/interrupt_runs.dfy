/** The proofs about interrupts: what every step keeps, and what that means for whole runs. */
module InterruptRuns {
  import opened Wrappers
  import opened Interrupts

  /** No step works on a request that is no longer there. */
  lemma StepDefined(s: State, e: Event)
    requires Inv(s) && Enabled(s, e)
    ensures Defined(s, e)
  {
  }

  // ----- Steps that touch one request and one thread

  /** The threads other than `t` are the same. */
  ghost predicate OthersSame(threads: map<nat, Thread>, threads': map<nat, Thread>, t: nat) {
    forall u | u != t :: (u in threads <==> u in threads') && (u in threads ==> threads'[u] == threads[u])
  }

  predicate Delivers(threads: map<nat, Thread>, t: nat, rid: nat) {
    t in threads && !threads[t].Registering? && threads[t].rid == rid
  }

  lemma DeliverersAt(threads: map<nat, Thread>, threads': map<nat, Thread>, t: nat, rid: nat)
    requires OthersSame(threads, threads', t)
    ensures |Deliverers(threads', rid)| - (if Delivers(threads', t, rid) then 1 else 0)
         == |Deliverers(threads, rid)| - (if Delivers(threads, t, rid) then 1 else 0)
  {
    var d, d' := Deliverers(threads, rid), Deliverers(threads', rid);
    OthersDeliver(threads, threads', t, rid);
    CountWithout(d, t);
    CountWithout(d', t);
    assert (t in d <==> Delivers(threads, t, rid)) && (t in d' <==> Delivers(threads', t, rid));
  }

  lemma OthersDeliver(threads: map<nat, Thread>, threads': map<nat, Thread>, t: nat, rid: nat)
    requires OthersSame(threads, threads', t)
    ensures Deliverers(threads', rid) - {t} == Deliverers(threads, rid) - {t}
  {
  }

  lemma CountWithout(d: set<nat>, t: nat)
    ensures |d - {t}| == |d| - (if t in d then 1 else 0)
  {
    if t !in d { assert d - {t} == d; }
  }

  /** Request `rid` may have changed, but neither its name nor its count; so may thread `t`. */
  ghost predicate Touched(s: State, s': State, rid: nat, t: nat) {
    && rid in s.conn.reqs
    && s'.conn.active == s.conn.active && s'.conn.pending == s.conn.pending
    && s'.conn.reqs.Keys == s.conn.reqs.Keys
    && (forall q | q in s.conn.reqs && q != rid :: s'.conn.reqs[q] == s.conn.reqs[q])
    && s'.conn.reqs[rid].unique == s.conn.reqs[rid].unique && s'.conn.reqs[rid].ctr == s.conn.reqs[rid].ctr
    && OthersSame(s.threads, s'.threads, t)
  }

  lemma TouchedLists(s: State, s': State, rid: nat, t: nat)
    requires Touched(s, s', rid, t)
    requires Listed(s.conn) && Distinct(s.conn.active) && PendingOk(s.conn)
    ensures Listed(s'.conn) && Distinct(s'.conn.active) && PendingOk(s'.conn)
  {
    assert forall q | q in s.conn.reqs :: s'.conn.reqs[q].unique == s.conn.reqs[q].unique;
  }

  lemma TouchedCounts(s: State, s': State, rid: nat, t: nat)
    requires Touched(s, s', rid, t) && Counted(s.conn, s.threads)
    requires forall q :: Delivers(s'.threads, t, q) <==> Delivers(s.threads, t, q)
    requires t in s'.threads ==> s'.threads[t].rid == rid && (s'.threads[t].Registering? ==> rid in s.conn.active)
    ensures Counted(s'.conn, s'.threads)
  {
    forall q | q in s'.conn.reqs
      ensures |Deliverers(s'.threads, q)| == |Deliverers(s.threads, q)|
    {
      DeliverersAt(s.threads, s'.threads, t, q);
    }
  }

  lemma TouchedLocks(s: State, s': State, rid: nat, t: nat)
    requires Touched(s, s', rid, t) && LocksOk(s.conn, s.threads)
    requires s.conn.reqs[rid].lock in {None, Some(t)} && s'.conn.reqs[rid].lock in {None, Some(t)}
    requires t in s.threads ==> s.threads[t].rid == rid
    requires t in s'.threads ==> s'.threads[t].rid == rid
    requires s'.conn.reqs[rid].lock == Some(t) <==> Holds(s'.threads, t, rid)
    ensures LocksOk(s'.conn, s'.threads)
  {
  }

  lemma TouchedKnown(s: State, s': State, rid: nat, t: nat)
    requires Touched(s, s', rid, t) && Known(s) && s'.uniques == s.uniques && s'.destroyed == s.destroyed
    requires s'.marked == s.marked || s'.marked == s.marked + {rid}
    requires s'.conn.reqs[rid].interrupted <==> rid in s'.marked
    ensures Known(s')
  {
  }

  lemma TouchedPlaces(s: State, s': State, rid: nat, t: nat)
    requires Touched(s, s', rid, t) && Conserved(s)
    requires s'.uniques == s.uniques && s'.targets == s.targets && s'.places == s.places && s.marked <= s'.marked
    requires (t in s.threads && !s.threads[t].Registering?) <==> (t in s'.threads && !s'.threads[t].Registering?)
    requires t in s'.threads && !s'.threads[t].Registering? ==>
      s'.threads[t].rid == s.threads[t].rid && s'.threads[t].iid == s.threads[t].iid &&
        (s'.threads[t].Waiting? || s'.threads[t].rid in s'.marked)
    ensures Conserved(s')
  {
    forall iid | iid in s'.places
      ensures PlaceOk(s', iid)
    {
      assert PlaceOk(s, iid);
    }
    forall u | u in s'.threads && !s'.threads[u].Registering?
      ensures FlightThere(s', u)
    {
      assert FlightThere(s, u);
    }
    assert forall j | 0 <= j < |s.conn.pending| :: PendingThere(s, s.conn.pending[j]);
  }

  lemma TouchedCallbacks(s: State, s': State, rid: nat, t: nat)
    requires Touched(s, s', rid, t) && CallbacksOk(s) && LocksOk(s.conn, s.threads)
    requires s.marked <= s'.marked && s.called <= s'.called
    requires forall g | g in s.registered :: g in s'.registered && s'.registered[g] == s.registered[g]
    requires forall g | g in s'.called :: g in s'.registered && s'.registered[g] in s'.marked
    requires CallbackOk(s', rid) && (t in s'.threads ==> ThreadOk(s', t))
    requires s.conn.reqs[rid].lock in {None, Some(t)}
    ensures CallbacksOk(s')
  {
    forall q | q in s'.conn.reqs
      ensures CallbackOk(s', q)
    {
      if q != rid { assert CallbackOk(s, q); }
    }
    forall u | u in s'.threads
      ensures ThreadOk(s', u)
    {
      if u != t { assert ThreadOk(s, u); }
    }
  }

  /** What such a step must see to itself. */
  ghost predicate TouchOk(s: State, s': State, rid: nat, t: nat)
    requires Touched(s, s', rid, t)
  {
    && s'.uniques == s.uniques && s'.destroyed == s.destroyed && s'.targets == s.targets && s'.places == s.places
    && s'.marked in {s.marked, s.marked + {rid}} && (s'.conn.reqs[rid].interrupted <==> rid in s'.marked)
    && s.conn.reqs[rid].lock in {None, Some(t)} && s'.conn.reqs[rid].lock in {None, Some(t)}
    && (s'.conn.reqs[rid].lock == Some(t) <==> Holds(s'.threads, t, rid))
    && (t in s.threads ==> s.threads[t].rid == rid)
    && (t in s'.threads ==>
          s'.threads[t].rid == rid && ThreadOk(s', t) && (s'.threads[t].Registering? ==> rid in s.conn.active))
    && (Delivers(s'.threads, t, rid) <==> Delivers(s.threads, t, rid))
    && (Delivers(s'.threads, t, rid) ==>
          s'.threads[t].iid == s.threads[t].iid && (s'.threads[t].Waiting? || rid in s'.marked))
    && s.called <= s'.called && CallbackOk(s', rid)
    && (forall g | g in s.registered :: g in s'.registered && s'.registered[g] == s.registered[g])
    && (forall g | g in s'.called :: g in s'.registered && s'.registered[g] in s'.marked)
  }

  lemma TouchedInv(s: State, s': State, rid: nat, t: nat)
    requires Inv(s) && Touched(s, s', rid, t) && TouchOk(s, s', rid, t)
    ensures Inv(s')
  {
    TouchedLists(s, s', rid, t);
    TouchedCounts(s, s', rid, t);
    TouchedLocks(s, s', rid, t);
    TouchedKnown(s, s', rid, t);
    TouchedPlaces(s, s', rid, t);
    TouchedCallbacks(s, s', rid, t);
  }

  /** What the invariant says of one request and one thread. */
  ghost predicate LocalOk(s: State, rid: nat, t: nat) {
    && rid in s.conn.reqs && CallbackOk(s, rid)
    && (s.conn.reqs[rid].interrupted <==> rid in s.marked)
    && (t in s.threads ==>
          && s.threads[t].rid == rid && ThreadOk(s, t)
          && (Holds(s.threads, t, rid) <==> s.conn.reqs[rid].lock == Some(t))
          && if s.threads[t].Registering? then rid in s.conn.active else FlightThere(s, t))
    && (forall g | g in s.called :: g in s.registered && s.registered[g] in s.marked)
  }

  lemma Localized(s: State, rid: nat, t: nat)
    requires Inv(s) && rid in s.conn.reqs && (t in s.threads ==> s.threads[t].rid == rid)
    ensures LocalOk(s, rid, t)
  {
  }

  lemma LockTouch(s: State, t: nat, s': State, rid: nat)
    requires Enabled(s, Lock(t)) && rid == s.threads[t].rid && LocalOk(s, rid, t) && s' == Next(s, Lock(t))
    ensures Touched(s, s', rid, t) && TouchOk(s, s', rid, t)
  {
  }

  lemma CallTouch(s: State, t: nat, s': State, rid: nat)
    requires Enabled(s, Call(t)) && rid == s.threads[t].rid && LocalOk(s, rid, t) && s' == Next(s, Call(t))
    ensures Touched(s, s', rid, t) && TouchOk(s, s', rid, t)
  {
  }

  lemma RegisterTouch(s: State, t: nat, rid: nat, func: Option<nat>, s': State)
    requires Enabled(s, Register(t, rid, func)) && LocalOk(s, rid, t) && s' == Next(s, Register(t, rid, func))
    ensures Touched(s, s', rid, t) && TouchOk(s, s', rid, t)
  {
  }

  lemma CheckTouch(s: State, t: nat, s': State, rid: nat)
    requires Enabled(s, Check(t)) && rid == s.threads[t].rid && LocalOk(s, rid, t) && s' == Next(s, Check(t))
    ensures Touched(s, s', rid, t) && TouchOk(s, s', rid, t)
  {
  }

  lemma LockInv(s: State, t: nat)
    requires Inv(s) && Enabled(s, Lock(t)) && Defined(s, Lock(t))
    ensures Inv(Next(s, Lock(t)))
  {
    var rid := s.threads[t].rid;
    Localized(s, rid, t);
    LockTouch(s, t, Next(s, Lock(t)), rid);
    TouchedInv(s, Next(s, Lock(t)), rid, t);
  }

  lemma CallInv(s: State, t: nat)
    requires Inv(s) && Enabled(s, Call(t)) && Defined(s, Call(t))
    ensures Inv(Next(s, Call(t)))
  {
    var rid := s.threads[t].rid;
    Localized(s, rid, t);
    CallTouch(s, t, Next(s, Call(t)), rid);
    TouchedInv(s, Next(s, Call(t)), rid, t);
  }

  lemma RegisterInv(s: State, t: nat, rid: nat, func: Option<nat>)
    requires Inv(s) && Enabled(s, Register(t, rid, func)) && Defined(s, Register(t, rid, func))
    ensures Inv(Next(s, Register(t, rid, func)))
  {
    Localized(s, rid, t);
    RegisterTouch(s, t, rid, func, Next(s, Register(t, rid, func)));
    TouchedInv(s, Next(s, Register(t, rid, func)), rid, t);
  }

  lemma CheckInv(s: State, t: nat)
    requires Inv(s) && Enabled(s, Check(t)) && Defined(s, Check(t))
    ensures Inv(Next(s, Check(t)))
  {
    var rid := s.threads[t].rid;
    Localized(s, rid, t);
    CheckTouch(s, t, Next(s, Check(t)), rid);
    TouchedInv(s, Next(s, Check(t)), rid, t);
  }

  // ----- Steps that give a reference back

  lemma {:induction false} WithoutIs(s: seq<nat>, x: nat)
    requires Distinct(s)
    ensures Distinct(Without(s, x)) && forall y :: y in Without(s, x) <==> y in s && y != x
    decreases |s|
  {
    if s != [] {
      assert forall i | 0 <= i < |s| - 1 :: s[1..][i] == s[i + 1];
      assert Distinct(s[1..]) && s[0] !in s[1..];
      WithoutIs(s[1..], x);
      var w := Without(s, x);
      if s[0] != x {
        assert forall i | 0 < i < |w| :: w[i] == Without(s[1..], x)[i - 1] && w[i] in Without(s[1..], x);
      }
    }
  }

  /** Request `rid` loses a reference, and is destroyed with the last; the rest stays. */
  ghost predicate Shrunk(s: State, s': State, rid: nat) {
    && rid in s.conn.reqs && s.conn.reqs[rid].ctr > 0
    && s'.conn.pending == s.conn.pending && s'.conn.active in {s.conn.active, Without(s.conn.active, rid)}
    && s'.conn.reqs.Keys == s.conn.reqs.Keys - Gone(s.conn, rid)
    && s'.destroyed == s.destroyed + Gone(s.conn, rid)
    && (forall q | q in s'.conn.reqs && q != rid :: s'.conn.reqs[q] == s.conn.reqs[q])
    && (rid in s'.conn.reqs ==>
          s'.conn.reqs[rid] == s.conn.reqs[rid].(ctr := s.conn.reqs[rid].ctr - 1, func := s'.conn.reqs[rid].func)
                                && s'.conn.reqs[rid].func in {s.conn.reqs[rid].func, None})
    && s'.uniques == s.uniques && s'.marked == s.marked && s'.targets == s.targets
    && s'.registered == s.registered && s'.called == s.called
    && (forall t | t in s'.threads :: t in s.threads && s'.threads[t] == s.threads[t])
  }

  lemma ShrunkLists(s: State, s': State, rid: nat)
    requires Shrunk(s, s', rid) && Listed(s.conn) && Distinct(s.conn.active) && PendingOk(s.conn)
    requires rid !in s'.conn.reqs ==> rid !in s'.conn.active
    ensures Listed(s'.conn) && Distinct(s'.conn.active) && PendingOk(s'.conn)
  {
    WithoutIs(s.conn.active, rid);
    forall i | 0 <= i < |s'.conn.active|
      ensures s'.conn.active[i] in s.conn.active && s'.conn.active[i] in s'.conn.reqs
    {
      assert s'.conn.active[i] in s'.conn.active;
    }
    forall i, j | 0 <= i < |s'.conn.active| && 0 <= j < |s'.conn.pending|
      ensures s'.conn.reqs[s'.conn.active[i]].unique != s'.conn.pending[j].target
    {
      var k :| 0 <= k < |s.conn.active| && s.conn.active[k] == s'.conn.active[i];
      assert s.conn.reqs[s.conn.active[k]].unique != s.conn.pending[j].target;
    }
  }

  lemma ShrunkLocks(s: State, s': State, rid: nat)
    requires Shrunk(s, s', rid) && LocksOk(s.conn, s.threads)
    requires forall t | t in s.threads && t !in s'.threads :: s.threads[t].Leaving?
    requires rid !in s'.conn.reqs ==> forall t | t in s'.threads :: s'.threads[t].rid != rid
    ensures LocksOk(s'.conn, s'.threads)
  {
    forall q | q in s'.conn.reqs && s'.conn.reqs[q].lock.Some?
      ensures Holds(s'.threads, s'.conn.reqs[q].lock.value, q)
    {
      assert s'.conn.reqs[q].lock == s.conn.reqs[q].lock;
      assert Holds(s.threads, s.conn.reqs[q].lock.value, q);
    }
  }

  lemma ShrunkCallbacks(s: State, s': State, rid: nat)
    requires Shrunk(s, s', rid) && CallbacksOk(s)
    requires s'.conn.reqs.Keys <= s.conn.reqs.Keys
    requires forall t | t in s'.threads && s'.threads[t].Registering? && rid in s'.conn.reqs
                        && s'.threads[t].rid == rid ::
      s'.conn.reqs[rid].func == s.conn.reqs[rid].func
    ensures CallbacksOk(s')
  {
    forall q | q in s'.conn.reqs
      ensures CallbackOk(s', q)
    {
      assert CallbackOk(s, q);
    }
    forall t | t in s'.threads
      ensures ThreadOk(s', t)
    {
      assert ThreadOk(s, t);
    }
  }

  lemma ShrunkKnown(s: State, s': State, rid: nat)
    requires Shrunk(s, s', rid) && Known(s)
    ensures Known(s')
  {
  }

  /** With the last reference every user is gone. */
  lemma LastUser(s: State, rid: nat, t: nat)
    requires Counted(s.conn, s.threads) && rid in s.conn.reqs && s.conn.reqs[rid].ctr == 1
    ensures rid in s.conn.active ==> forall u | u in s.threads && !s.threads[u].Registering? :: s.threads[u].rid != rid
    ensures Delivers(s.threads, t, rid) ==>
            rid !in s.conn.active && forall u | u in s.threads && u != t :: s.threads[u].rid != rid
  {
    var d := Deliverers(s.threads, rid);
    assert forall u | u in s.threads && !s.threads[u].Registering? && s.threads[u].rid == rid :: u in d;
    if rid in s.conn.active {
      assert d == {};
    }
    if Delivers(s.threads, t, rid) {
      CountWithout(d, t);
      assert forall u | u in d && u != t :: u in d - {t};
    }
  }

  lemma DropShrunk(s: State, s': State, t: nat)
    requires Enabled(s, Drop(t)) && Defined(s, Drop(t)) && s' == Next(s, Drop(t))
    ensures Shrunk(s, s', s.threads[t].rid)
  {
  }

  lemma ReplyShrunk(s: State, s': State, rid: nat)
    requires Enabled(s, Reply(rid)) && Defined(s, Reply(rid)) && s' == Next(s, Reply(rid))
    ensures Shrunk(s, s', rid)
  {
  }

  lemma DropCounts(s: State, s': State, t: nat)
    requires Counted(s.conn, s.threads) && Enabled(s, Drop(t)) && Defined(s, Drop(t)) && s' == Next(s, Drop(t))
    ensures Counted(s'.conn, s'.threads)
  {
    var rid := s.threads[t].rid;
    assert Delivers(s.threads, t, rid);
    if s.conn.reqs[rid].ctr == 1 { LastUser(s, rid, t); }
    forall q | q in s'.conn.reqs
      ensures s'.conn.reqs[q].ctr == (if q in s'.conn.active then 1 else 0) + |Deliverers(s'.threads, q)| &&
              s'.conn.reqs[q].ctr > 0
    {
      DeliverersAt(s.threads, s'.threads, t, q);
      assert q in s.conn.reqs && Delivers(s.threads, t, q) == (q == rid) && !Delivers(s'.threads, t, q);
    }
  }

  lemma DropPlaces(s: State, s': State, t: nat)
    requires Conserved(s) && Enabled(s, Drop(t)) && Defined(s, Drop(t)) && s' == Next(s, Drop(t))
    ensures Conserved(s')
  {
    assert FlightThere(s, t);
    forall iid | iid in s'.places
      ensures PlaceOk(s', iid)
    {
      assert PlaceOk(s, iid);
    }
    forall u | u in s'.threads && !s'.threads[u].Registering?
      ensures FlightThere(s', u)
    {
      assert FlightThere(s, u);
    }
    assert forall j | 0 <= j < |s.conn.pending| :: PendingThere(s, s.conn.pending[j]);
  }

  lemma DropInv(s: State, t: nat)
    requires Inv(s) && Enabled(s, Drop(t)) && Defined(s, Drop(t))
    ensures Inv(Next(s, Drop(t)))
  {
    var s', rid := Next(s, Drop(t)), s.threads[t].rid;
    DropShrunk(s, s', t);
    if s.conn.reqs[rid].ctr == 1 { LastUser(s, rid, t); }
    ShrunkLists(s, s', rid);
    ShrunkLocks(s, s', rid);
    ShrunkCallbacks(s, s', rid);
    ShrunkKnown(s, s', rid);
    DropCounts(s, s', t);
    DropPlaces(s, s', t);
  }

  lemma ReplyCounts(s: State, s': State, rid: nat)
    requires Counted(s.conn, s.threads) && Distinct(s.conn.active)
    requires Enabled(s, Reply(rid)) && Defined(s, Reply(rid)) && s' == Next(s, Reply(rid))
    ensures Counted(s'.conn, s'.threads)
  {
    WithoutIs(s.conn.active, rid);
    if s.conn.reqs[rid].ctr == 1 { LastUser(s, rid, 0); }
  }

  lemma ReplyPlaces(s: State, s': State, rid: nat)
    requires Conserved(s) && Enabled(s, Reply(rid)) && Defined(s, Reply(rid)) && s' == Next(s, Reply(rid))
    ensures Conserved(s')
  {
    forall iid | iid in s'.places
      ensures PlaceOk(s', iid)
    {
      assert PlaceOk(s, iid);
    }
    forall u | u in s'.threads && !s'.threads[u].Registering?
      ensures FlightThere(s', u)
    {
      assert FlightThere(s, u);
    }
    assert forall j | 0 <= j < |s.conn.pending| :: PendingThere(s, s.conn.pending[j]);
  }

  lemma ReplyInv(s: State, rid: nat)
    requires Inv(s) && Enabled(s, Reply(rid)) && Defined(s, Reply(rid))
    ensures Inv(Next(s, Reply(rid)))
  {
    var s' := Next(s, Reply(rid));
    ReplyShrunk(s, s', rid);
    WithoutIs(s.conn.active, rid);
    if s.conn.reqs[rid].ctr == 1 { LastUser(s, rid, 0); }
    ShrunkLists(s, s', rid);
    ShrunkLocks(s, s', rid);
    ShrunkCallbacks(s, s', rid);
    ShrunkKnown(s, s', rid);
    ReplyCounts(s, s', rid);
    ReplyPlaces(s, s', rid);
  }

  // ----- A new request

  lemma ArriveLists(s: State, s': State, rid: nat, unique: nat)
    requires Listed(s.conn) && Distinct(s.conn.active) && PendingOk(s.conn)
    requires rid !in s.conn.reqs && s' == Next(s, Arrive(rid, unique))
    ensures Listed(s'.conn) && Distinct(s'.conn.active) && PendingOk(s'.conn)
  {
    assert forall i | 0 <= i < |s.conn.active| ::
        s'.conn.active[i] == s.conn.active[i] && s.conn.active[i] in s.conn.reqs;
  }

  lemma ArriveCounts(s: State, s': State, rid: nat, unique: nat)
    requires Listed(s.conn) && Counted(s.conn, s.threads) && LocksOk(s.conn, s.threads)
    requires rid !in s.conn.reqs && s' == Next(s, Arrive(rid, unique))
    ensures Counted(s'.conn, s'.threads) && LocksOk(s'.conn, s'.threads)
  {
    ListCounts(s.conn, s'.conn, s.threads, rid);
    ListLocks(s.conn, s'.conn, s.threads, rid);
  }

  lemma ListCounts(c: Conn, c': Conn, threads: map<nat, Thread>, rid: nat)
    requires Counted(c, threads) && rid !in c.reqs && c'.active == c.active + [rid]
    requires rid in c'.reqs && c'.reqs == c.reqs[rid := c'.reqs[rid]] && c'.reqs[rid].ctr == 1
    ensures Counted(c', threads)
  {
    assert Deliverers(threads, rid) == {};
    assert forall q :: q in c'.active <==> q in c.active || q == rid;
  }

  lemma ListLocks(c: Conn, c': Conn, threads: map<nat, Thread>, rid: nat)
    requires LocksOk(c, threads) && rid !in c.reqs
    requires rid in c'.reqs && c'.reqs == c.reqs[rid := c'.reqs[rid]] && c'.reqs[rid].lock == None
    ensures LocksOk(c', threads)
  {
    forall q | q in c'.reqs && c'.reqs[q].lock.Some?
      ensures Holds(threads, c'.reqs[q].lock.value, q)
    {
      assert Holds(threads, c.reqs[q].lock.value, q);
    }
  }

  lemma ArriveKnown(s: State, s': State, rid: nat, unique: nat)
    requires Known(s) && rid !in s.uniques && rid !in s.marked && s' == Next(s, Arrive(rid, unique))
    ensures Known(s')
  {
  }

  /** The one interrupt that leaves the list leaves the others where they are. */
  lemma RemovedPending(p: seq<Intr>, i: nat, x: Intr)
    requires i < |p| && TargetsDistinct(p)
    ensures x in RemoveAt(p, i) <==> x in p && x != p[i]
    ensures x in RemoveAt(p, i) ==> x.target != p[i].target
  {
    var q := RemoveAt(p, i);
    if x in q {
      var j :| 0 <= j < |q| && q[j] == x;
      assert p[if j < i then j else j + 1] == x;
    }
    if x in p && x != p[i] {
      var k :| 0 <= k < |p| && p[k] == x;
      assert q[if k < i then k else k - 1] == x;
    }
  }

  /** An interrupt stays where it is when what is there stays. */
  lemma PlaceKept(s: State, s': State, iid: nat)
    requires iid in s.places && iid in s.targets && PlaceOk(s, iid)
    requires iid in s'.places && iid in s'.targets && s'.places[iid] == s.places[iid]
    requires forall i | i in s.targets :: i in s'.targets && s'.targets[i] == s.targets[i]
    requires forall r | r in s.uniques :: r in s'.uniques && s'.uniques[r] == s.uniques[r]
    requires s.marked <= s'.marked
    requires s.places[iid] == Pending ==> Intr(iid, s.targets[iid]) in s'.conn.pending
    requires forall t | t in s.threads :: t in s'.threads && s'.threads[t] == s.threads[t]
    ensures PlaceOk(s', iid)
  {
  }

  ghost predicate Leaves(p: seq<Intr>, q: seq<Intr>, x: Intr) {
    forall y :: y in q <==> y in p && y != x
  }

  lemma ArrivePending(s: State, s': State, rid: nat, unique: nat) returns (x: Intr)
    requires TargetsDistinct(s.conn.pending) && s' == Next(s, Arrive(rid, unique)) && s.conn.pending != []
    ensures x in s.conn.pending && Leaves(s.conn.pending, s'.conn.pending, x)
    ensures forall y | y in s'.conn.pending :: y.target != x.target
    ensures s'.places in {s.places[x.id := SentBack], s.places[x.id := Delivered(rid)]}
    ensures s'.places == s.places[x.id := Delivered(rid)] ==> x.target == unique && s'.marked == s.marked + {rid}
    ensures s.marked <= s'.marked
  {
    var p := s.conn.pending;
    var i := if FindIntr(p, unique) < |p| then FindIntr(p, unique) else 0;
    x := p[i];
    forall y: Intr
      ensures y in s'.conn.pending <==> y in p && y != x
      ensures y in s'.conn.pending ==> y.target != x.target
    {
      RemovedPending(p, i, y);
    }
    assert s.places[x.id := SentBack][x.id] == SentBack && s.places[x.id := Delivered(rid)][x.id] == Delivered(rid);
  }

  lemma ArrivePlaces(s: State, s': State, rid: nat, unique: nat)
    requires Conserved(s) && TargetsDistinct(s.conn.pending) && rid !in s.uniques && s' == Next(s, Arrive(rid, unique))
    ensures Conserved(s')
  {
    if s.conn.pending == [] {
      ArriveKeeps(s, s', rid, unique, None);
    } else {
      var x := ArrivePending(s, s', rid, unique);
      assert PendingThere(s, x);
      ArriveKeeps(s, s', rid, unique, Some(x));
    }
  }

  lemma ArriveKeeps(s: State, s': State, rid: nat, unique: nat, x: Option<Intr>)
    requires Conserved(s) && rid !in s.uniques && s'.threads == s.threads && s'.targets == s.targets
    requires s'.uniques == s.uniques[rid := unique] && s.marked <= s'.marked
    requires x.None? ==> s'.conn.pending == s.conn.pending == [] && s'.places == s.places
    requires x.Some? ==> PendingThere(s, x.value) && Leaves(s.conn.pending, s'.conn.pending, x.value)
    requires x.Some? ==> forall y | y in s'.conn.pending :: y.target != x.value.target
    requires x.Some? ==> s'.places in {s.places[x.value.id := SentBack], s.places[x.value.id := Delivered(rid)]}
    requires x.Some? && s'.places == s.places[x.value.id := Delivered(rid)] ==>
             x.value.target == unique && rid in s'.marked
    ensures Conserved(s')
  {
    forall y | y in s'.conn.pending
      ensures PendingThere(s', y)
    {
      assert y in s.conn.pending && PendingThere(s, y);
    }
    forall iid | iid in s'.places
      ensures PlaceOk(s', iid)
    {
      if x.None? || iid != x.value.id { PlaceKept(s, s', iid); }
    }
    forall u | u in s'.threads && !s'.threads[u].Registering?
      ensures FlightThere(s', u)
    {
      assert FlightThere(s, u);
    }
  }

  lemma ArriveCallbacks(s: State, s': State, rid: nat, unique: nat)
    requires CallbacksOk(s) && rid !in s.conn.reqs && s' == Next(s, Arrive(rid, unique))
    requires forall t | t in s.threads :: s.threads[t].rid in s.conn.reqs
    ensures CallbacksOk(s')
  {
    forall q | q in s'.conn.reqs
      ensures CallbackOk(s', q)
    {
      if q != rid { assert CallbackOk(s, q); }
    }
    forall t | t in s'.threads
      ensures ThreadOk(s', t)
    {
      assert ThreadOk(s, t);
    }
  }

  lemma ArriveInv(s: State, rid: nat, unique: nat)
    requires Inv(s) && Enabled(s, Arrive(rid, unique))
    ensures Inv(Next(s, Arrive(rid, unique)))
  {
    var s' := Next(s, Arrive(rid, unique));
    ArriveLists(s, s', rid, unique);
    ArriveCounts(s, s', rid, unique);
    ArriveKnown(s, s', rid, unique);
    ArrivePlaces(s, s', rid, unique);
    ArriveCallbacks(s, s', rid, unique);
  }

  // ----- A new interrupt

  lemma InterruptLists(s: State, s': State, iid: nat, target: nat, t: nat)
    requires Listed(s.conn) && Distinct(s.conn.active) && PendingOk(s.conn)
    requires s' == Next(s, Interrupt(iid, target, t))
    ensures Listed(s'.conn) && Distinct(s'.conn.active) && PendingOk(s'.conn)
  {
    var i, j := FindReq(s.conn, target), FindIntr(s.conn.pending, target);
    if i < |s.conn.active| {
      MeetLists(s, s', iid, target, t, s.conn.active[i]);
    } else if j == |s.conn.pending| {
      WaitLists(s, s', iid, target);
    }
  }

  lemma MeetLists(s: State, s': State, iid: nat, target: nat, t: nat, rid: nat)
    requires Listed(s.conn) && PendingOk(s.conn) && rid in s.conn.reqs && s' == Meet(s, iid, target, t, rid)
    ensures Listed(s'.conn) && PendingOk(s'.conn) && s'.conn.active == s.conn.active
  {
    assert forall q | q in s.conn.reqs :: s'.conn.reqs[q].unique == s.conn.reqs[q].unique;
  }

  lemma WaitLists(s: State, s': State, iid: nat, target: nat)
    requires Listed(s.conn) && PendingOk(s.conn) && s' == Wait(s, iid, target)
    requires forall i | 0 <= i < |s.conn.active| :: s.conn.reqs[s.conn.active[i]].unique != target
    requires forall j | 0 <= j < |s.conn.pending| :: s.conn.pending[j].target != target
    ensures Listed(s'.conn) && PendingOk(s'.conn) && s'.conn.active == s.conn.active
  {
  }

  lemma MeetCounts(s: State, s': State, iid: nat, target: nat, t: nat, rid: nat)
    requires Counted(s.conn, s.threads) && t !in s.threads && rid in s.conn.reqs && s' == Meet(s, iid, target, t, rid)
    ensures Counted(s'.conn, s'.threads)
  {
    forall q | q in s'.conn.reqs
      ensures s'.conn.reqs[q].ctr == (if q in s'.conn.active then 1 else 0) + |Deliverers(s'.threads, q)| &&
              s'.conn.reqs[q].ctr > 0
    {
      DeliverersAt(s.threads, s'.threads, t, q);
    }
  }

  lemma MeetLocks(s: State, s': State, iid: nat, target: nat, t: nat, rid: nat)
    requires LocksOk(s.conn, s.threads) && t !in s.threads && rid in s.conn.reqs && s' == Meet(s, iid, target, t, rid)
    ensures LocksOk(s'.conn, s'.threads)
  {
    forall q | q in s'.conn.reqs && s'.conn.reqs[q].lock.Some?
      ensures Holds(s'.threads, s'.conn.reqs[q].lock.value, q)
    {
      assert Holds(s.threads, s.conn.reqs[q].lock.value, q);
    }
  }

  lemma MeetCallbacks(s: State, s': State, iid: nat, target: nat, t: nat, rid: nat)
    requires CallbacksOk(s) && t !in s.threads && rid in s.conn.reqs && s' == Meet(s, iid, target, t, rid)
    ensures CallbacksOk(s')
  {
    forall q | q in s'.conn.reqs
      ensures CallbackOk(s', q)
    {
      assert CallbackOk(s, q);
    }
    forall u | u in s'.threads
      ensures ThreadOk(s', u)
    {
      if u != t { assert ThreadOk(s, u); }
    }
  }

  lemma InterruptPlaces(s: State, s': State, iid: nat, target: nat, t: nat)
    requires Conserved(s) && iid !in s.targets && t !in s.threads
    requires s'.targets == s.targets[iid := target] && s'.places.Keys == s'.targets.Keys
    requires s'.uniques == s.uniques && s'.marked == s.marked
    requires forall x | x in s.places :: s'.places[x] == s.places[x]
    requires forall u | u != t ::
               (u in s.threads <==> u in s'.threads) && (u in s.threads ==> s'.threads[u] == s.threads[u])
    requires s'.conn.pending in {s.conn.pending, s.conn.pending + [Intr(iid, target)]}
    requires PlaceOk(s', iid) && (t in s'.threads ==> !s'.threads[t].Registering? && FlightThere(s', t))
    requires Intr(iid, target) in s'.conn.pending ==> PendingThere(s', Intr(iid, target))
    ensures Conserved(s')
  {
    forall x | x in s'.conn.pending
      ensures PendingThere(s', x)
    {
      if x != Intr(iid, target) { assert x in s.conn.pending && PendingThere(s, x); }
    }
    forall x | x in s'.places
      ensures PlaceOk(s', x)
    {
      if x != iid { PlaceKept(s, s', x); }
    }
    forall u | u in s'.threads && !s'.threads[u].Registering?
      ensures FlightThere(s', u)
    {
      if u != t { assert FlightThere(s, u); }
    }
  }

  lemma MeetPlaces(s: State, s': State, iid: nat, target: nat, t: nat, rid: nat)
    requires Conserved(s) && iid !in s.targets && t !in s.threads && rid in s.conn.reqs &&
             s' == Meet(s, iid, target, t, rid)
    requires rid in s.uniques && s.uniques[rid] == target
    ensures Conserved(s')
  {
    NotPending(s, iid, target);
    InterruptPlaces(s, s', iid, target, t);
  }

  lemma NotPending(s: State, iid: nat, target: nat)
    requires Conserved(s) && iid !in s.targets
    ensures Intr(iid, target) !in s.conn.pending
  {
    assert forall j | 0 <= j < |s.conn.pending| :: PendingThere(s, s.conn.pending[j]);
  }

  lemma MeetKnown(s: State, s': State, iid: nat, target: nat, t: nat, rid: nat)
    requires Known(s) && rid in s.conn.reqs && s' == Meet(s, iid, target, t, rid)
    ensures Known(s')
  {
  }

  lemma MeetInv(s: State, s': State, iid: nat, target: nat, t: nat, rid: nat)
    requires Inv(s) && iid !in s.targets && t !in s.threads && rid in s.conn.reqs && s' == Meet(s, iid, target, t, rid)
    requires s.conn.reqs[rid].unique == target
    ensures Counted(s'.conn, s'.threads) && LocksOk(s'.conn, s'.threads) && Known(s') && Conserved(s') &&
            CallbacksOk(s')
  {
    MeetKnown(s, s', iid, target, t, rid);
    MeetCounts(s, s', iid, target, t, rid);
    MeetLocks(s, s', iid, target, t, rid);
    MeetPlaces(s, s', iid, target, t, rid);
    MeetCallbacks(s, s', iid, target, t, rid);
  }

  lemma SameCallbacks(s: State, s': State)
    requires CallbacksOk(s) && s'.conn.reqs == s.conn.reqs && s'.threads == s.threads
    requires s'.registered == s.registered && s'.called == s.called && s'.marked == s.marked
    ensures CallbacksOk(s')
  {
    forall q | q in s'.conn.reqs
      ensures CallbackOk(s', q)
    {
      assert CallbackOk(s, q);
    }
    forall u | u in s'.threads
      ensures ThreadOk(s', u)
    {
      assert ThreadOk(s, u);
    }
  }

  lemma AbsorbInv(s: State, s': State, iid: nat, target: nat, j: nat, t: nat)
    requires Inv(s) && iid !in s.targets && t !in s.threads && j < |s.conn.pending| &&
             s.conn.pending[j].target == target
    requires s' == Absorb(s, iid, target, s.conn.pending[j].id)
    ensures Known(s') && Conserved(s') && CallbacksOk(s')
  {
    assert PendingThere(s, s.conn.pending[j]);
    NotPending(s, iid, target);
    InterruptPlaces(s, s', iid, target, t);
    SameCallbacks(s, s');
  }

  lemma WaitInv(s: State, s': State, iid: nat, target: nat, t: nat)
    requires Inv(s) && iid !in s.targets && t !in s.threads && s' == Wait(s, iid, target)
    ensures Known(s') && Conserved(s') && CallbacksOk(s')
  {
    InterruptPlaces(s, s', iid, target, t);
    SameCallbacks(s, s');
  }

  lemma InterruptInv(s: State, iid: nat, target: nat, t: nat)
    requires Inv(s) && Enabled(s, Interrupt(iid, target, t))
    ensures Inv(Next(s, Interrupt(iid, target, t)))
  {
    var s' := Next(s, Interrupt(iid, target, t));
    InterruptLists(s, s', iid, target, t);
    var i, j := FindReq(s.conn, target), FindIntr(s.conn.pending, target);
    if i < |s.conn.active| {
      MeetInv(s, s', iid, target, t, s.conn.active[i]);
    } else if j < |s.conn.pending| {
      AbsorbInv(s, s', iid, target, j, t);
    } else {
      WaitInv(s, s', iid, target, t);
    }
  }

  // ----- Whole runs

  lemma StepInv(s: State, e: Event)
    requires Inv(s) && Enabled(s, e)
    ensures Defined(s, e) && Inv(Next(s, e))
  {
    StepDefined(s, e);
    match e
    case Arrive(rid, unique) => ArriveInv(s, rid, unique);
    case Interrupt(iid, target, t) => InterruptInv(s, iid, target, t);
    case Lock(t) => LockInv(s, t);
    case Call(t) => CallInv(s, t);
    case Drop(t) => DropInv(s, t);
    case Register(t, rid, func) => RegisterInv(s, t, rid, func);
    case Check(t) => CheckInv(s, t);
    case Reply(rid) => ReplyInv(s, rid);
  }

  /** A run: any enabled steps in a row.  A step on a request that is gone could do anything. */
  ghost predicate IsRun(trace: seq<State>, events: seq<Event>) {
    StepsUp(trace, events) && trace[0] == START
  }

  ghost predicate StepsUp(trace: seq<State>, events: seq<Event>) {
    |trace| == |events| + 1 && forall i | 0 <= i < |events| :: Steps(trace[i], events[i], trace[i + 1])
  }

  predicate Steps(s: State, e: Event, s': State) {
    Enabled(s, e) && (Defined(s, e) ==> s' == Next(s, e))
  }

  lemma {:induction false} RunInv(trace: seq<State>, events: seq<Event>, i: nat)
    requires IsRun(trace, events) && i < |trace|
    ensures Inv(trace[i])
    decreases i
  {
    if i > 0 {
      RunInv(trace, events, i - 1);
      assert Steps(trace[i - 1], events[i - 1], trace[i]);
      StepInv(trace[i - 1], events[i - 1]);
    } else {
      StartInv();
    }
  }

  lemma StartInv()
    ensures Inv(START)
  {
    assert START.conn.reqs.Keys == {} && START.uniques.Keys == {} && START.places.Keys == {} &&
           START.targets.Keys == {};
  }

  /** In no run does a thread work on a request that has been destroyed. */
  lemma NoUseAfterFree(trace: seq<State>, events: seq<Event>, i: nat)
    requires IsRun(trace, events) && i < |events|
    ensures Defined(trace[i], events[i])
  {
    RunInv(trace, events, i);
    assert Steps(trace[i], events[i], trace[i + 1]);
    StepDefined(trace[i], events[i]);
  }

  /** Each interrupt is waiting, under way to its own request, delivered to it, absorbed by its like, or sent back. */
  lemma InterruptsAreConserved(trace: seq<State>, events: seq<Event>, i: nat, iid: nat)
    requires IsRun(trace, events) && i < |trace| && iid in trace[i].targets
    ensures var s := trace[i];
      && iid in s.places
      && match s.places[iid]
      case Pending => Intr(iid, s.targets[iid]) in s.conn.pending
      case InFlight(t) => t in s.threads && s.threads[t].rid in s.conn.reqs
                          && s.conn.reqs[s.threads[t].rid].unique == s.targets[iid]
      case Delivered(rid) => rid in s.uniques && s.uniques[rid] == s.targets[iid] && rid in s.marked
      case Absorbed(into) => into in s.targets && s.targets[into] == s.targets[iid]
      case SentBack => true
  {
    RunInv(trace, events, i);
    var s := trace[i];
    assert PlaceOk(s, iid);
    if s.places[iid].InFlight? { assert FlightThere(s, s.places[iid].t); }
  }

  /** No interrupt waits while its request is there. */
  lemma NoneWaitsForActive(trace: seq<State>, events: seq<Event>, i: nat, p: Intr, rid: nat)
    requires IsRun(trace, events) && i < |trace| && p in trace[i].conn.pending && rid in trace[i].conn.active
    ensures rid in trace[i].conn.reqs && trace[i].conn.reqs[rid].unique != p.target
  {
    RunInv(trace, events, i);
  }

  /** The callback of an interrupted request has been called once nobody is at work on it, whichever came first. */
  lemma CallbackIsCalled(trace: seq<State>, events: seq<Event>, i: nat, rid: nat)
    requires IsRun(trace, events) && i < |trace| && rid in trace[i].conn.active
    ensures var s := trace[i];
      && rid in s.conn.reqs
      && var r := s.conn.reqs[rid];
      r.interrupted && r.func.Some? && r.lock == None ==> r.func.value in s.called
  {
    RunInv(trace, events, i);
    assert CallbackOk(trace[i], rid);
  }

  /** Only an interrupted request's callback is called. */
  lemma CalledMeansInterrupted(trace: seq<State>, events: seq<Event>, i: nat, g: nat)
    requires IsRun(trace, events) && i < |trace| && g in trace[i].called
    ensures g in trace[i].registered && trace[i].registered[g] in trace[i].marked
  {
    RunInv(trace, events, i);
  }

  /** A request is in memory exactly as long as someone uses it, and the count says how many do. */
  lemma CountsAreUsers(trace: seq<State>, events: seq<Event>, i: nat, rid: nat)
    requires IsRun(trace, events) && i < |trace| && rid in trace[i].uniques
    ensures var s := trace[i];
      var users := (if rid in s.conn.active then 1 else 0) + |Deliverers(s.threads, rid)|;
      (rid in s.destroyed <==> users == 0) && (rid in s.conn.reqs <==> rid !in s.destroyed)
      && (rid in s.conn.reqs ==> s.conn.reqs[rid].ctr == users)
  {
    RunInv(trace, events, i);
    var s := trace[i];
    if rid !in s.conn.reqs {
      assert Deliverers(s.threads, rid) == {};
    }
  }

  /** A request that has been destroyed is not seen again, so none is destroyed twice. */
  lemma {:induction false} DestroyedOnce(trace: seq<State>, events: seq<Event>, i: nat, j: nat, rid: nat)
    requires IsRun(trace, events) && i <= j < |trace| && rid in trace[i].destroyed
    ensures rid in trace[j].destroyed && rid !in trace[j].conn.reqs
    decreases j
  {
    if i < j {
      DestroyedOnce(trace, events, i, j - 1, rid);
      DestroyedNext(trace, events, j - 1, rid);
    }
    assert Known(trace[j]) by { RunInv(trace, events, j); }
    GoneIsGone(trace[j], rid);
  }

  lemma DestroyedNext(trace: seq<State>, events: seq<Event>, i: nat, rid: nat)
    requires IsRun(trace, events) && i < |events| && rid in trace[i].destroyed
    ensures rid in trace[i + 1].destroyed
  {
    NoUseAfterFree(trace, events, i);
    assert Steps(trace[i], events[i], trace[i + 1]);
    DestroyedStay(trace[i], events[i], trace[i + 1]);
  }

  lemma GoneIsGone(s: State, rid: nat)
    requires Known(s) && rid in s.destroyed
    ensures rid !in s.conn.reqs
  {
  }

  lemma DestroyedStay(s: State, e: Event, s': State)
    requires Defined(s, e) && Steps(s, e, s')
    ensures s.destroyed <= s'.destroyed
  {
  }

  // ----- A callback that has been replaced

  /** The step calls the callback registered as `g`. */
  predicate Calls(s: State, e: Event, g: nat) {
    match e
    case Call(t) => t in s.threads && s.threads[t].Calling? && s.threads[t].func == Some(g)
    case Check(t) =>
      && t in s.threads && s.threads[t].Registering? && s.threads[t].func == Some(g)
      && s.threads[t].rid in s.conn.reqs && s.conn.reqs[s.threads[t].rid].interrupted
    case _ => false
  }

  /** Neither its request nor any thread that is about to make a call has the callback. */
  predicate Retired(s: State, g: nat) {
    && g in s.registered
    && (s.registered[g] in s.conn.reqs ==> s.conn.reqs[s.registered[g]].func != Some(g))
    && forall t | t in s.threads :: NotAbout(s.threads[t], g)
  }

  predicate NotAbout(th: Thread, g: nat) {
    th.Calling? || th.Registering? ==> th.func != Some(g)
  }

  lemma RegisterRetires(s: State, t: nat, rid: nat, func: Option<nat>, g: nat)
    requires Inv(s) && Enabled(s, Register(t, rid, func)) && Defined(s, Register(t, rid, func))
    requires g in s.registered && s.registered[g] == rid && func != Some(g)
    ensures Retired(Next(s, Register(t, rid, func)), g)
  {
    var s' := Next(s, Register(t, rid, func));
    forall u | u in s'.threads
      ensures NotAbout(s'.threads[u], g)
    {
      if u != t { assert ThreadOk(s, u); }
    }
  }

  lemma RetiredStays(s: State, e: Event, g: nat)
    requires Inv(s) && Enabled(s, e) && Defined(s, e) && Retired(s, g)
    ensures Retired(Next(s, e), g)
  {
    match e
    case Arrive(rid, unique) => RetiredArrive(s, rid, unique, g);
    case Call(t) => RetiredCall(s, t, g);
    case Check(t) => RetiredCheck(s, t, g);
    case Interrupt(iid, target, t) => RetiredMeets(s, iid, target, t, g);
    case Lock(t) => RetiredLock(s, t, g);
    case Drop(t) => RetiredDrop(s, t, g);
    case Register(t, r, func) => RetiredRegister(s, t, r, func, g);
    case Reply(r) => RetiredReply(s, r, g);
  }

  lemma RetiredArrive(s: State, rid: nat, unique: nat, g: nat)
    requires Retired(s, g)
    ensures Retired(ArriveNext(s, rid, unique), g)
  {
  }

  lemma RetiredCall(s: State, t: nat, g: nat)
    requires Defined(s, Call(t)) && Retired(s, g)
    ensures Retired(Next(s, Call(t)), g)
  {
  }

  lemma RetiredCheck(s: State, t: nat, g: nat)
    requires Defined(s, Check(t)) && Retired(s, g)
    ensures Retired(Next(s, Check(t)), g)
  {
  }

  lemma RetiredMeets(s: State, iid: nat, target: nat, t: nat, g: nat)
    requires Listed(s.conn) && Retired(s, g)
    ensures Retired(InterruptNext(s, iid, target, t), g)
  {
  }

  lemma RetiredLock(s: State, t: nat, g: nat)
    requires Inv(s) && Defined(s, Lock(t)) && Retired(s, g)
    ensures Retired(Next(s, Lock(t)), g)
  {
    assert CallbackOk(s, s.threads[t].rid);
  }

  lemma RetiredDrop(s: State, t: nat, g: nat)
    requires Defined(s, Drop(t)) && Retired(s, g)
    ensures Retired(Next(s, Drop(t)), g)
  {
  }

  lemma RetiredRegister(s: State, t: nat, rid: nat, func: Option<nat>, g: nat)
    requires Enabled(s, Register(t, rid, func)) && Defined(s, Register(t, rid, func)) && Retired(s, g)
    ensures Retired(Next(s, Register(t, rid, func)), g)
  {
  }

  lemma RetiredReply(s: State, rid: nat, g: nat)
    requires Defined(s, Reply(rid)) && Retired(s, g)
    ensures Retired(Next(s, Reply(rid)), g)
  {
  }

  /**
   Once another callback, or none, has been registered for a request, the one registered before is
   never called again: what it works on may be thrown away.
   */
  lemma ReplacedIsNotCalled(trace: seq<State>, events: seq<Event>, i: nat, j: nat, g: nat)
    requires IsRun(trace, events) && i < j < |events|
    requires g in trace[i].registered && events[i].Register? && events[i].rid == trace[i].registered[g]
    ensures !Calls(trace[j], events[j], g)
  {
    RetiredFrom(trace, events, i, j, g);
  }

  lemma {:induction false} RetiredFrom(trace: seq<State>, events: seq<Event>, i: nat, j: nat, g: nat)
    requires IsRun(trace, events) && i < j < |trace|
    requires g in trace[i].registered && events[i].Register? && events[i].rid == trace[i].registered[g]
    ensures Retired(trace[j], g)
    decreases j
  {
    var h := j - 1;
    InRun(trace, events, h);
    if h == i {
      RegisterRetires(trace[i], events[i].t, events[i].rid, events[i].func, g);
    } else {
      RetiredFrom(trace, events, i, h, g);
      RetiredStays(trace[h], events[h], g);
    }
  }

  lemma InRun(trace: seq<State>, events: seq<Event>, i: nat)
    requires IsRun(trace, events) && i < |events|
    ensures Inv(trace[i]) && Enabled(trace[i], events[i])
    ensures Defined(trace[i], events[i]) && trace[i + 1] == Next(trace[i], events[i])
  {
    RunInv(trace, events, i);
    assert Steps(trace[i], events[i], trace[i + 1]);
    StepDefined(trace[i], events[i]);
  }

  // ----- The connection in whole runs

  /**
   The connection, and its threads: what each thread does next comes from what the code's sections
   returned to it.  `hist` is the protocol's state.
   */
  class Service {
    const c: Connection
    var threads: map<nat, Thread>
    var called: set<nat>
    var destroyed: set<nat>
    var bounced: set<nat>
    var hist: State

    ghost predicate Valid()
      reads this, c
    {
      Inv(hist) && Shows(hist)
    }

    /** The connection and its threads are those of the state. */
    ghost predicate Shows(s: State)
      reads this, c
    {
      && c.Lists() == s.conn && threads == s.threads && called == s.called && destroyed == s.destroyed
      && bounced == SentBackIn(s.places)
    }

    constructor ()
      ensures Valid() && hist == START && fresh(c)
    {
      c := new Connection();
      threads, called, destroyed, bounced := map[], {}, {}, {};
      hist := START;
      new;
      StartInv();
    }

    /** One step of any thread, if it can be taken: the sections of the code do what the step does. */
    method Do(e: Event) returns (done: bool)
      requires Valid()
      modifies this, c
      ensures Valid() && done == Enabled(old(hist), e)
      ensures if done then Defined(old(hist), e) && hist == Next(old(hist), e) else hist == old(hist)
    {
      done := Enabled(hist, e);
      if done {
        StepInv(hist, e);
        Section(e);
        hist := Next(hist, e);
      }
    }

    method Section(e: Event)
      requires Valid() && Enabled(hist, e) && Defined(hist, e)
      modifies `threads, `called, `destroyed, `bounced, c
      ensures Shows(Next(hist, e))
    {
      match e
      case Arrive(rid, unique) => Arrives(rid, unique);
      case Interrupt(iid, target, t) => Interrupts(iid, target, t);
      case Lock(t) => Locks(t);
      case Call(t) => MakesCall(t);
      case Drop(t) => Drops(t);
      case Register(t, rid, func) => Registers(t, rid, func);
      case Check(t) => Checks(t);
      case Reply(rid) => Replies(rid);
    }

    method Arrives(rid: nat, unique: nat)
      requires Valid() && Enabled(hist, Arrive(rid, unique))
      modifies `bounced, c
      ensures Shows(Next(hist, Arrive(rid, unique)))
    {
      var back := c.Process(rid, unique);
      if back.Some? {
        bounced := bounced + {back.value.id};
      }
      SentBackNext(hist, rid, unique);
    }

    method Interrupts(iid: nat, target: nat, t: nat)
      requires Valid() && Enabled(hist, Interrupt(iid, target, t))
      modifies `threads, c
      ensures Shows(Next(hist, Interrupt(iid, target, t)))
    {
      var found := c.DoInterrupt(iid, target, hist, t);
      if found.Met? {
        threads := threads[t := Waiting(found.rid, iid)];
      }
      NoneSentBack(hist, iid, target, t);
    }

    method Locks(t: nat)
      requires Shows(hist) && Enabled(hist, Lock(t)) && Defined(hist, Lock(t))
      modifies `threads, c
      ensures Shows(Next(hist, Lock(t)))
    {
      var th := threads[t];
      var func := c.Mark(th.rid, t, hist);
      threads := threads[t := Calling(th.rid, th.iid, func)];
    }

    method MakesCall(t: nat)
      requires Shows(hist) && Enabled(hist, Call(t)) && Defined(hist, Call(t))
      modifies `threads, `called, c
      ensures Shows(Next(hist, Call(t)))
    {
      var th := threads[t];
      if th.func.Some? {
        called := called + {th.func.value};
      }
      c.Unlock(th.rid);
      threads := threads[t := Leaving(th.rid, th.iid)];
    }

    method Drops(t: nat)
      requires Shows(hist) && Conserved(hist) && Enabled(hist, Drop(t)) && Defined(hist, Drop(t))
      modifies `threads, `destroyed, c
      ensures Shows(Next(hist, Drop(t)))
    {
      var th := threads[t];
      DropPlace(hist, t);
      var ctr := c.Put(th.rid);
      if ctr == 0 {
        destroyed := destroyed + {th.rid};
      }
      threads := threads - {t};
    }

    method Registers(t: nat, rid: nat, func: Option<nat>)
      requires Shows(hist) && Enabled(hist, Register(t, rid, func)) && Defined(hist, Register(t, rid, func))
      modifies `threads, c
      ensures Shows(Next(hist, Register(t, rid, func)))
    {
      c.SetFunc(rid, func, t, hist);
      threads := threads[t := Registering(rid, func)];
    }

    method Checks(t: nat)
      requires Shows(hist) && Enabled(hist, Check(t)) && Defined(hist, Check(t))
      modifies `threads, `called, c
      ensures Shows(Next(hist, Check(t)))
    {
      var th := threads[t];
      if c.reqs[th.rid].interrupted && th.func.Some? {
        called := called + {th.func.value};
      }
      c.Unlock(th.rid);
      threads := threads - {t};
    }

    method Replies(rid: nat)
      requires Shows(hist) && Enabled(hist, Reply(rid)) && Defined(hist, Reply(rid))
      modifies `destroyed, c
      ensures Shows(Next(hist, Reply(rid)))
    {
      var ctr := c.FreeReq(rid);
      if ctr == 0 {
        destroyed := destroyed + {rid};
      }
    }
  }

  /** The interrupts that have been sent back. */
  function SentBackIn(places: map<nat, Place>): set<nat> {
    set iid | iid in places && places[iid] == SentBack
  }

  lemma PutPlace(places: map<nat, Place>, iid: nat, place: Place)
    requires iid in places ==> places[iid] != SentBack
    ensures SentBackIn(places[iid := place]) == SentBackIn(places) + if place == SentBack then {iid} else {}
  {
  }

  lemma SentBackNext(s: State, rid: nat, unique: nat)
    requires forall j | 0 <= j < |s.conn.pending| :: PendingThere(s, s.conn.pending[j])
    ensures var back := Bounced(s.conn, unique);
            SentBackIn(ArriveNext(s, rid, unique).places) ==
            SentBackIn(s.places) + if back.Some? then {back.value.id} else {}
  {
    var i, p := FindIntr(s.conn.pending, unique), s.conn.pending;
    if i < |p| {
      assert PendingThere(s, p[i]);
      PutPlace(s.places, p[i].id, Delivered(rid));
    } else if p != [] {
      assert PendingThere(s, p[0]);
      PutPlace(s.places, p[0].id, SentBack);
    }
  }

  lemma NoneSentBack(s: State, iid: nat, target: nat, t: nat)
    requires Listed(s.conn) && iid !in s.places
    ensures SentBackIn(InterruptNext(s, iid, target, t).places) == SentBackIn(s.places)
    ensures InterruptNext(s, iid, target, t).places[iid].InFlight? ||
            InterruptNext(s, iid, target, t).threads == s.threads
  {
    PutPlace(s.places, iid, InterruptNext(s, iid, target, t).places[iid]);
  }

  lemma DropPlace(s: State, t: nat)
    requires Conserved(s) && Enabled(s, Drop(t)) && Defined(s, Drop(t))
    ensures SentBackIn(Next(s, Drop(t)).places) == SentBackIn(s.places)
  {
    assert FlightThere(s, t);
    PutPlace(s.places, s.threads[t].iid, Delivered(s.threads[t].rid));
  }

  /** The state after the steps in their order, without those that could not be taken. */
  function After(events: seq<Event>): State
    decreases |events|
  {
    if events == [] then START
    else
      var s, e := After(events[..|events| - 1]), events[|events| - 1];
      if Enabled(s, e) && Defined(s, e) then Next(s, e) else s
  }

  /** Any steps in a row: those that can be taken make a run of the protocol, on the lists as in the model. */
  method Serve(events: seq<Event>) returns (s: Service, ghost trace: seq<State>, ghost taken: seq<Event>)
    ensures fresh(s) && s.Valid() && s.hist == After(events)
    ensures IsRun(trace, taken) && trace[|taken|] == s.hist
  {
    s := new Service();
    trace, taken := [START], [];
    for k := 0 to |events|
      invariant fresh(s) && fresh(s.c) && s.Valid() && s.hist == After(events[..k])
      invariant IsRun(trace, taken) && trace[|taken|] == s.hist
    {
      AfterNext(events, k);
      var done := s.Do(events[k]);
      if done {
        RunOn(trace, taken, events[k], s.hist);
        trace, taken := trace + [s.hist], taken + [events[k]];
      }
    }
    assert events[..|events|] == events;
  }

  lemma AfterNext(events: seq<Event>, k: nat)
    requires k < |events|
    ensures var s := After(events[..k]);
            After(events[..k + 1]) == if Enabled(s, events[k]) && Defined(s, events[k]) then Next(s, events[k]) else s
  {
    assert events[..k + 1][..k] == events[..k];
  }

  lemma RunOn(trace: seq<State>, events: seq<Event>, e: Event, s: State)
    requires IsRun(trace, events) && Steps(trace[|events|], e, s)
    ensures IsRun(trace + [s], events + [e]) && (trace + [s])[|events + [e]|] == s
  {
    AllSteps(trace, events, e, s);
  }

  lemma AllSteps(trace: seq<State>, events: seq<Event>, e: Event, s: State)
    requires StepsUp(trace, events) && Steps(trace[|events|], e, s)
    ensures StepsUp(trace + [s], events + [e])
  {
    forall i | 0 <= i < |events + [e]|
      ensures Steps((trace + [s])[i], (events + [e])[i], (trace + [s])[i + 1])
    {
      EachSteps(trace, events, e, s, i);
    }
  }

  lemma EachSteps(trace: seq<State>, events: seq<Event>, e: Event, s: State, i: nat)
    requires StepsUp(trace, events) && Steps(trace[|events|], e, s) && i <= |events|
    ensures Steps((trace + [s])[i], (events + [e])[i], (trace + [s])[i + 1])
  {
    if i < |events| {
      assert Steps(trace[i], events[i], trace[i + 1]);
      EarlierSteps(trace, events, e, s, i);
    } else {
      LastSteps(trace, events, e, s);
    }
  }

  lemma EarlierSteps(trace: seq<State>, events: seq<Event>, e: Event, s: State, i: nat)
    requires |trace| == |events| + 1 && i < |events| && Steps(trace[i], events[i], trace[i + 1])
    ensures Steps((trace + [s])[i], (events + [e])[i], (trace + [s])[i + 1])
  {
    assert (trace + [s])[i] == trace[i] && (events + [e])[i] == events[i] && (trace + [s])[i + 1] == trace[i + 1];
  }

  lemma LastSteps(trace: seq<State>, events: seq<Event>, e: Event, s: State)
    requires |trace| == |events| + 1 && Steps(trace[|events|], e, s)
    ensures var n := |events|; Steps((trace + [s])[n], (events + [e])[n], (trace + [s])[n + 1])
  {
    var n := |events|;
    assert (trace + [s])[n] == trace[n] && (events + [e])[n] == e && (trace + [s])[n + 1] == s;
  }
}
