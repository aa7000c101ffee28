/**
 What becomes of interrupts, marks and callbacks in a run, told from the steps alone.
 */
module InterruptHistory {
  import opened Wrappers
  import opened Interrupts
  import opened InterruptRuns

  // ----- What an interrupt and a new request meet

  /** Some active request is the one meant. */
  predicate ActiveIs(c: Conn, rid: nat, target: nat) {
    rid in c.active && rid in c.reqs && c.reqs[rid].unique == target
  }

  predicate Waits(c: Conn, target: nat) {
    exists p :: p in c.pending && p.target == target
  }

  /** An interrupt goes to its request if that is there; it waits, last in the list, if no other waits for the same. */
  lemma InterruptMeets(trace: seq<State>, events: seq<Event>, i: nat)
    requires IsRun(trace, events) && i < |events| && events[i].Interrupt?
    ensures var s, s', iid, target, t := trace[i], trace[i + 1], events[i].iid, events[i].target, events[i].t;
            && iid in s'.targets && s'.targets[iid] == target && iid in s'.places
            && (forall rid | ActiveIs(s.conn, rid, target) ::
                  && s'.places[iid] == InFlight(t) && t in s'.threads && s'.conn.pending == s.conn.pending
                  && s'.threads[t].Waiting? && ActiveIs(s.conn, s'.threads[t].rid, target))
            && ((forall rid :: !ActiveIs(s.conn, rid, target)) ==>
                  && s'.threads == s.threads
                  && if Waits(s.conn, target) then s'.places[iid].Absorbed? && s'.conn == s.conn
                     else s'.places[iid] == Pending && s'.conn.pending == s.conn.pending + [Intr(iid, target)])
  {
    InRun(trace, events, i);
    var s, target := trace[i], events[i].target;
    var a, b := FindReq(s.conn, target), FindIntr(s.conn.pending, target);
    if a < |s.conn.active| {
      assert ActiveIs(s.conn, s.conn.active[a], target);
    } else {
      NoneActive(s.conn, target);
      if b < |s.conn.pending| { assert s.conn.pending[b] in s.conn.pending; }
        else { NoneWaits(s.conn.pending, target); }
    }
  }

  lemma NoneActive(c: Conn, target: nat)
    requires Listed(c) && FindReq(c, target) == |c.active|
    ensures forall rid :: !ActiveIs(c, rid, target)
  {
    forall rid | rid in c.active
      ensures c.reqs[rid].unique != target
    {
      var j :| 0 <= j < |c.active| && c.active[j] == rid;
    }
  }

  lemma NoneWaits(p: seq<Intr>, target: nat)
    requires FindIntr(p, target) == |p|
    ensures forall x | x in p :: x.target != target
  {
    forall x | x in p ensures x.target != target { var j :| 0 <= j < |p| && p[j] == x; }
  }

  /** A new request is marked exactly when its interrupt waited; if none did, the first in the list is sent back. */
  lemma ArrivalMeets(trace: seq<State>, events: seq<Event>, i: nat)
    requires IsRun(trace, events) && i < |events| && events[i].Arrive?
    ensures var s, s', rid, unique := trace[i], trace[i + 1], events[i].rid, events[i].unique;
            && rid in s'.conn.active && rid in s'.conn.reqs && s'.conn.reqs[rid].unique == unique
            && (s'.conn.reqs[rid].interrupted <==> Waits(s.conn, unique))
            && (if Waits(s.conn, unique) then
                  exists j :: TakenOff(s, s', j) && s.conn.pending[j].target == unique
                              && s'.places == s.places[s.conn.pending[j].id := Delivered(rid)]
                else if s.conn.pending == [] then s'.places == s.places && s'.conn.pending == []
                else TakenOff(s, s', 0) && s'.places == s.places[s.conn.pending[0].id := SentBack])
  {
    InRun(trace, events, i);
    var s, unique := trace[i], events[i].unique;
    var j := FindIntr(s.conn.pending, unique);
    if j < |s.conn.pending| {
      assert s.conn.pending[j] in s.conn.pending;
      assert TakenOff(s, trace[i + 1], j);
    } else {
      NoneWaits(s.conn.pending, unique);
    }
  }

  /** Interrupt `j` is no longer in the list, and the others are in their order. */
  predicate TakenOff(s: State, s': State, j: int) {
    0 <= j < |s.conn.pending| && s'.conn.pending == s.conn.pending[..j] + s.conn.pending[j + 1..]
  }

  // ----- Callbacks

  /** What was registered last for a request in the first `i` steps. */
  function Registered(events: seq<Event>, i: nat, rid: nat): Option<nat>
    requires i <= |events|
  {
    if i == 0 then None
    else if events[i - 1].Register? && events[i - 1].rid == rid then events[i - 1].func
    else Registered(events, i - 1, rid)
  }

  predicate FuncIs(s: State, rid: nat, func: Option<nat>) {
    rid in s.conn.active ==> rid in s.conn.reqs && s.conn.reqs[rid].func == func
  }

  lemma FuncStep(s: State, e: Event, rid: nat, func: Option<nat>)
    requires Inv(s) && Enabled(s, e) && Defined(s, e) && FuncIs(s, rid, func) && (rid !in s.uniques ==> func == None)
    ensures FuncIs(Next(s, e), rid, if e.Register? && e.rid == rid then e.func else func)
  {
    match e
    case Arrive(r, unique) => FuncArrive(s, r, unique, rid, func);
    case Interrupt(iid, target, t) => FuncInterrupt(s, iid, target, t, rid, func);
    case Drop(t) => FuncDrop(s, t, rid, func);
    case Reply(r) => FuncReply(s, r, rid, func);
    case _ => FuncOther(s, e, rid, func);
  }

  lemma FuncArrive(s: State, r: nat, unique: nat, rid: nat, func: Option<nat>)
    requires FuncIs(s, rid, func) && (rid !in s.uniques ==> func == None) && r !in s.uniques
    ensures FuncIs(ArriveNext(s, r, unique), rid, func)
  {
    assert forall q | q in s.conn.active + [r] :: q in s.conn.active || q == r;
  }

  lemma FuncOther(s: State, e: Event, rid: nat, func: Option<nat>)
    requires Defined(s, e) && FuncIs(s, rid, func) && (e.Lock? || e.Call? || e.Register? || e.Check?)
    ensures FuncIs(Next(s, e), rid, if e.Register? && e.rid == rid then e.func else func)
  {
  }

  lemma FuncInterrupt(s: State, iid: nat, target: nat, t: nat, rid: nat, func: Option<nat>)
    requires Listed(s.conn) && FuncIs(s, rid, func)
    ensures FuncIs(InterruptNext(s, iid, target, t), rid, func)
  {
  }

  lemma FuncDrop(s: State, t: nat, rid: nat, func: Option<nat>)
    requires Inv(s) && Enabled(s, Drop(t)) && Defined(s, Drop(t)) && FuncIs(s, rid, func)
    ensures FuncIs(Next(s, Drop(t)), rid, func)
  {
    assert Listed(Next(s, Drop(t)).conn) by { StepInv(s, Drop(t)); }
    if rid in s.conn.active { ReleaseFunc(s.conn, s.threads[t].rid, rid); }
  }

  lemma ReleaseFunc(c: Conn, r: nat, rid: nat)
    requires r in c.reqs && c.reqs[r].ctr > 0 && Listed(Release(c, r)) && rid in c.active && rid in c.reqs
    ensures rid in Release(c, r).reqs && Release(c, r).reqs[rid].func == c.reqs[rid].func
  {
    var j :| 0 <= j < |c.active| && c.active[j] == rid;
    assert Release(c, r).active[j] == rid;
  }

  lemma FuncReply(s: State, r: nat, rid: nat, func: Option<nat>)
    requires Inv(s) && Enabled(s, Reply(r)) && Defined(s, Reply(r)) && FuncIs(s, rid, func)
    ensures FuncIs(Next(s, Reply(r)), rid, func)
  {
    WithoutIs(s.conn.active, r);
  }

  lemma {:induction false} WithoutIs(l: seq<nat>, x: nat)
    requires Distinct(l)
    ensures forall y :: y in Without(l, x) <==> y in l && y != x
    decreases |l|
  {
    if l != [] {
      var rest := l[1..];
      assert l == [l[0]] + rest;
      assert Distinct(rest) by { assert forall i | 0 <= i < |rest| :: rest[i] == l[i + 1]; }
      assert l[0] !in rest by { assert forall i | 0 <= i < |rest| :: rest[i] == l[i + 1]; }
      WithoutIs(rest, x);
    }
  }

  /** In every run a listed request has the callback that was registered for it last. */
  lemma {:induction false} CallbackIsLast(trace: seq<State>, events: seq<Event>, i: nat, rid: nat)
    requires IsRun(trace, events) && i < |trace|
    ensures FuncIs(trace[i], rid, Registered(events, i, rid))
    ensures rid !in trace[i].uniques ==> Registered(events, i, rid) == None
    decreases i
  {
    if i == 0 {
      assert trace[0] == START;
    } else {
      CallbackIsLast(trace, events, i - 1, rid);
      CallbackNext(trace, events, i - 1, rid, Registered(events, i - 1, rid));
    }
  }

  lemma CallbackNext(trace: seq<State>, events: seq<Event>, i: nat, rid: nat, func: Option<nat>)
    requires IsRun(trace, events) && i < |events|
    requires FuncIs(trace[i], rid, func) && (rid !in trace[i].uniques ==> func == None)
    ensures var func' := if events[i].Register? && events[i].rid == rid then events[i].func else func;
            FuncIs(trace[i + 1], rid, func') && (rid !in trace[i + 1].uniques ==> func' == None)
  {
    InRun(trace, events, i);
    FuncStep(trace[i], events[i], rid, func);
    UniquesStay(trace[i], events[i], rid);
  }

  lemma UniquesStay(s: State, e: Event, rid: nat)
    requires Inv(s) && Enabled(s, e) && Defined(s, e)
    ensures rid in s.uniques ==> rid in Next(s, e).uniques
    ensures e.Register? && e.rid == rid ==> rid in s.uniques
  {
    if e.Register? { assert e.rid in s.conn.reqs; }
  }

  /** Hence the callback registered last for an interrupted request has been called, once the request's lock is free. */
  lemma LastIsCalled(trace: seq<State>, events: seq<Event>, i: nat, rid: nat, g: nat)
    requires IsRun(trace, events) && i < |trace| && rid in trace[i].conn.active && rid in trace[i].conn.reqs
    requires Registered(events, i, rid) == Some(g)
    requires trace[i].conn.reqs[rid].interrupted && trace[i].conn.reqs[rid].lock == None
    ensures g in trace[i].called
  {
    CallbackIsLast(trace, events, i, rid);
    CallbackIsCalled(trace, events, i, rid);
  }

  // ----- Marks

  /** An interrupt for the request has reached it. */
  predicate MarkedBy(s: State, rid: nat, iid: nat) {
    && iid in s.targets && rid in s.uniques && s.targets[iid] == s.uniques[rid] && iid in s.places
    && (s.places[iid] == Delivered(rid) ||
        (s.places[iid].InFlight? && s.places[iid].t in s.threads && s.threads[s.places[iid].t].rid == rid
         && !s.threads[s.places[iid].t].Registering? && s.threads[s.places[iid].t].iid == iid))
  }

  ghost predicate MarksOk(s: State) {
    forall rid | rid in s.marked :: exists iid :: MarkedBy(s, rid, iid)
  }

  /** What reached a request stays there. */
  lemma MarkStays(s: State, e: Event, rid: nat, iid: nat)
    requires Inv(s) && Enabled(s, e) && Defined(s, e) && MarkedBy(s, rid, iid)
    ensures MarkedBy(Next(s, e), rid, iid)
  {
    match e
    case Arrive(r, unique) => MarkArrive(s, r, unique, rid, iid);
    case Interrupt(x, target, t) => MarkInterrupt(s, x, target, t, rid, iid);
    case Drop(t) => MarkDrop(s, t, rid, iid);
    case Lock(t) => MarkLock(s, t, rid, iid);
    case Call(t) => MarkCall(s, t, rid, iid);
    case Reply(_) =>
    case _ => MarkOther(s, e, rid, iid);
  }

  lemma MarkLock(s: State, t: nat, rid: nat, iid: nat)
    requires Defined(s, Lock(t)) && MarkedBy(s, rid, iid)
    ensures MarkedBy(Next(s, Lock(t)), rid, iid)
  {
  }

  lemma MarkCall(s: State, t: nat, rid: nat, iid: nat)
    requires Defined(s, Call(t)) && MarkedBy(s, rid, iid)
    ensures MarkedBy(Next(s, Call(t)), rid, iid)
  {
  }

  lemma MarkOther(s: State, e: Event, rid: nat, iid: nat)
    requires Enabled(s, e) && Defined(s, e) && (e.Register? || e.Check?) && MarkedBy(s, rid, iid)
    ensures MarkedBy(Next(s, e), rid, iid)
  {
  }

  lemma MarkArrive(s: State, r: nat, unique: nat, rid: nat, iid: nat)
    requires Conserved(s) && r !in s.uniques && MarkedBy(s, rid, iid)
    ensures MarkedBy(ArriveNext(s, r, unique), rid, iid)
  {
    var p, j := s.conn.pending, FindIntr(s.conn.pending, unique);
    if j < |p| { assert PendingThere(s, p[j]); } else if p != [] { assert PendingThere(s, p[0]); }
  }

  lemma MarkInterrupt(s: State, x: nat, target: nat, t: nat, rid: nat, iid: nat)
    requires Listed(s.conn) && x !in s.targets && t !in s.threads && MarkedBy(s, rid, iid)
    ensures MarkedBy(InterruptNext(s, x, target, t), rid, iid)
  {
  }

  lemma MarkDrop(s: State, t: nat, rid: nat, iid: nat)
    requires Conserved(s) && Enabled(s, Drop(t)) && Defined(s, Drop(t)) && MarkedBy(s, rid, iid)
    ensures MarkedBy(Next(s, Drop(t)), rid, iid)
  {
    assert FlightThere(s, t);
  }

  lemma MarksStep(s: State, e: Event)
    requires Inv(s) && Enabled(s, e) && Defined(s, e) && MarksOk(s)
    ensures MarksOk(Next(s, e))
  {
    var s' := Next(s, e);
    forall rid | rid in s'.marked
      ensures exists iid :: MarkedBy(s', rid, iid)
    {
      if rid in s.marked {
        var iid :| MarkedBy(s, rid, iid);
        MarkStays(s, e, rid, iid);
      } else {
        NewMark(s, e, rid);
      }
    }
  }

  lemma NewMark(s: State, e: Event, rid: nat)
    requires Inv(s) && Enabled(s, e) && Defined(s, e) && rid !in s.marked && rid in Next(s, e).marked
    ensures exists iid :: MarkedBy(Next(s, e), rid, iid)
  {
    match e
    case Arrive(r, unique) =>
      var p, j := s.conn.pending, FindIntr(s.conn.pending, unique);
      assert PendingThere(s, p[j]);
      assert MarkedBy(Next(s, e), rid, p[j].id);
    case Lock(t) =>
      assert FlightThere(s, t);
      assert MarkedBy(Next(s, e), rid, s.threads[t].iid);
    case _ =>
  }

  /** In every run only a request that an interrupt was meant for, and reached, is marked as interrupted. */
  lemma {:induction false} MarkedMeansInterrupt(trace: seq<State>, events: seq<Event>, i: nat)
    requires IsRun(trace, events) && i < |trace|
    ensures MarksOk(trace[i])
    decreases i
  {
    if i == 0 {
      assert trace[0] == START;
    } else {
      MarkedMeansInterrupt(trace, events, i - 1);
      MarksNext(trace, events, i - 1);
    }
  }

  lemma MarksNext(trace: seq<State>, events: seq<Event>, i: nat)
    requires IsRun(trace, events) && i < |events| && MarksOk(trace[i])
    ensures MarksOk(trace[i + 1])
  {
    InRun(trace, events, i);
    MarksStep(trace[i], events[i]);
  }

  // ----- Order

  predicate Came(events: seq<Event>, k: nat, iid: nat) {
    k < |events| && events[k].Interrupt? && events[k].iid == iid
  }

  /** Interrupt `a` came before `b`, both in the first `i` steps. */
  predicate Earlier(events: seq<Event>, i: nat, a: nat, b: nat) {
    exists j: nat, k: nat :: Came(events, j, a) && Came(events, k, b) && j < k < i
  }

  predicate CameBefore(events: seq<Event>, i: nat, iid: nat) {
    exists j: nat :: Came(events, j, iid) && j < i
  }

  ghost predicate InOrder(p: seq<Intr>, events: seq<Event>, i: nat) {
    && (forall x | 0 <= x < |p| :: CameBefore(events, i, p[x].id))
    && forall x, y | 0 <= x < y < |p| :: Earlier(events, i, p[x].id, p[y].id)
  }

  lemma CameLater(events: seq<Event>, i: nat, a: nat, b: nat)
    ensures CameBefore(events, i, a) ==> CameBefore(events, i + 1, a)
    ensures Earlier(events, i, a, b) ==> Earlier(events, i + 1, a, b)
    ensures CameBefore(events, i, a) && Came(events, i, b) ==> Earlier(events, i + 1, a, b)
  {
    if j: nat :| Came(events, j, a) && j < i {
      assert Came(events, j, a) && j < i + 1;
      if Came(events, i, b) { assert j < i < i + 1; }
    }
    if j: nat, k: nat :| Came(events, j, a) && Came(events, k, b) && j < k < i {
      assert j < k < i + 1;
    }
  }

  lemma OrderFrame(p: seq<Intr>, events: seq<Event>, i: nat)
    requires InOrder(p, events, i)
    ensures InOrder(p, events, i + 1)
  {
    forall x | 0 <= x < |p| ensures CameBefore(events, i + 1, p[x].id) { CameLater(events, i, p[x].id, 0); }
    forall x, y | 0 <= x < y < |p|
      ensures Earlier(events, i + 1, p[x].id, p[y].id)
    {
      assert Earlier(events, i, p[x].id, p[y].id);
      CameLater(events, i, p[x].id, p[y].id);
    }
  }

  lemma OrderLess(p: seq<Intr>, j: nat, events: seq<Event>, i: nat)
    requires InOrder(p, events, i) && j < |p|
    ensures InOrder(p[..j] + p[j + 1..], events, i)
  {
    var q := p[..j] + p[j + 1..];
    forall x | 0 <= x < |q|
      ensures CameBefore(events, i, q[x].id)
    {
      assert q[x] == p[if x < j then x else x + 1];
    }
    forall x, y | 0 <= x < y < |q|
      ensures Earlier(events, i, q[x].id, q[y].id)
    {
      assert q[x] == p[if x < j then x else x + 1] && q[y] == p[if y < j then y else y + 1];
    }
  }

  lemma OrderMore(p: seq<Intr>, n: Intr, events: seq<Event>, i: nat)
    requires InOrder(p, events, i) && Came(events, i, n.id)
    ensures InOrder(p + [n], events, i + 1)
  {
    OrderFrame(p, events, i);
    var q := p + [n];
    forall x | 0 <= x < |q|
      ensures CameBefore(events, i + 1, q[x].id)
    {
      if x < |p| { assert q[x] == p[x]; } else { assert Came(events, i, q[x].id) && i < i + 1; }
    }
    forall x, y | 0 <= x < y < |q|
      ensures Earlier(events, i + 1, q[x].id, q[y].id)
    {
      assert q[x] == p[x];
      if y == |p| { CameLater(events, i, p[x].id, n.id); } else { assert q[y] == p[y]; }
    }
  }

  /** In every run the interrupts that wait are in the order in which they came; the one sent back came first. */
  lemma {:induction false} PendingInOrder(trace: seq<State>, events: seq<Event>, i: nat)
    requires IsRun(trace, events) && i < |trace|
    ensures InOrder(trace[i].conn.pending, events, i)
    decreases i
  {
    if i == 0 {
      assert trace[0] == START;
    } else {
      PendingInOrder(trace, events, i - 1);
      PendingNext(trace, events, i - 1);
    }
  }

  lemma PendingNext(trace: seq<State>, events: seq<Event>, i: nat)
    requires IsRun(trace, events) && i < |events| && InOrder(trace[i].conn.pending, events, i)
    ensures InOrder(trace[i + 1].conn.pending, events, i + 1)
  {
    var p, p' := trace[i].conn.pending, trace[i + 1].conn.pending;
    OrderFrame(p, events, i);
    if events[i].Interrupt? {
      InterruptMeets(trace, events, i);
      var target := events[i].target;
      if (forall rid :: !ActiveIs(trace[i].conn, rid, target)) && !Waits(trace[i].conn, target) {
        OrderMore(p, Intr(events[i].iid, target), events, i);
      } else {
        assert p' == p;
      }
    } else if events[i].Arrive? {
      ArrivalMeets(trace, events, i);
      var j: int := 0;
      if Waits(trace[i].conn, events[i].unique) { j :| TakenOff(trace[i], trace[i + 1], j); }
      if p != [] { OrderLess(p, j, events, i + 1); }
    } else {
      InRun(trace, events, i);
      PendingSame(trace[i], events[i]);
    }
  }

  lemma PendingSame(s: State, e: Event)
    requires Defined(s, e) && !e.Arrive? && !e.Interrupt?
    ensures Next(s, e).conn.pending == s.conn.pending
  {
  }
}
