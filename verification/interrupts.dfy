/**
 Interrupts and the requests they are meant for, which may come in either order.  An
 interrupt whose request is there is delivered, in steps, while the request may be answered
 at any moment; a count keeps the request's memory until both are done with it.
 */
module Interrupts {
  import opened Wrappers

  // ----- The lists of the connection

  datatype Intr = Intr(id: nat, target: nat)

  /** `func` is the callback, named by its registration; `lock` is the thread that holds the request's lock. */
  datatype Req = Req(unique: nat, ctr: nat, interrupted: bool, func: Option<nat>, lock: Option<nat>)

  datatype Conn = Conn(reqs: map<nat, Req>, active: seq<nat>, pending: seq<Intr>)

  /** The first pending interrupt for `target`, or the end of the list. */
  function FindIntr(pending: seq<Intr>, target: nat): (i: nat)
    ensures i <= |pending| && (i < |pending| ==> pending[i].target == target)
    ensures forall j | 0 <= j < i :: pending[j].target != target
  {
    if pending == [] || pending[0].target == target then 0 else 1 + FindIntr(pending[1..], target)
  }

  /** The first active request that is `target`. */
  function FindReq(c: Conn, target: nat): (i: nat)
    requires Listed(c)
    ensures i <= |c.active| && (i < |c.active| ==> c.reqs[c.active[i]].unique == target)
    ensures forall j | 0 <= j < i :: c.reqs[c.active[j]].unique != target
    decreases |c.active|
  {
    if c.active == [] || c.reqs[c.active[0]].unique == target then 0
    else
      assert forall j | 0 <= j < |c.active| - 1 :: c.active[1..][j] == c.active[j + 1];
      1 + FindReq(c.(active := c.active[1..]), target)
  }

  predicate Listed(c: Conn) {
    forall i | 0 <= i < |c.active| :: c.active[i] in c.reqs
  }

  /** What a new request finds: its own interrupt, or the oldest of the others, which is sent back. */
  function Bounced(c: Conn, unique: nat): Option<Intr> {
    if FindIntr(c.pending, unique) == |c.pending| && c.pending != [] then Some(c.pending[0]) else None
  }

  function Enqueue(c: Conn, rid: nat, unique: nat): Conn {
    var i := FindIntr(c.pending, unique);
    var found := i < |c.pending|;
    Conn(c.reqs[rid := Req(unique, 1, found, None, None)], c.active + [rid],
         if found then RemoveAt(c.pending, i) else if c.pending == [] then [] else RemoveAt(c.pending, 0))
  }

  function RemoveAt(p: seq<Intr>, i: nat): (q: seq<Intr>)
    requires i < |p|
    ensures |q| == |p| - 1 && forall j | 0 <= j < |q| :: q[j] == p[if j < i then j else j + 1]
  {
    p[..i] + p[i + 1..]
  }

  function SetCtr(c: Conn, rid: nat, ctr: nat): Conn
    requires rid in c.reqs
  {
    c.(reqs := c.reqs[rid := c.reqs[rid].(ctr := ctr)])
  }

  /** One reference less; without any the request is destroyed. */
  function Release(c: Conn, rid: nat): Conn
    requires rid in c.reqs && c.reqs[rid].ctr > 0
  {
    if c.reqs[rid].ctr == 1 then c.(reqs := c.reqs - {rid}) else SetCtr(c, rid, c.reqs[rid].ctr - 1)
  }

  function Without(s: seq<nat>, x: nat): seq<nat> {
    if s == [] then [] else if s[0] == x then s[1..] else [s[0]] + Without(s[1..], x)
  }

  /** The request has been answered. */
  function Free(c: Conn, rid: nat): Conn
    requires rid in c.reqs && c.reqs[rid].ctr > 0
  {
    var r := c.reqs[rid];
    Release(Conn(c.reqs[rid := r.(func := None)], Without(c.active, rid), c.pending), rid)
  }

  // ----- Threads and history

  /**
   A thread that delivers interrupt `iid`: it waits for the request's lock, then holds it
   and calls the callback it read, then gives its reference back.  A thread that registers
   holds the lock until it has looked at the interrupted flag.
   */
  datatype Thread =
    | Waiting(rid: nat, iid: nat)
    | Calling(rid: nat, iid: nat, func: Option<nat>)
    | Leaving(rid: nat, iid: nat)
    | Registering(rid: nat, func: Option<nat>)

  /** What has become of an interrupt. */
  datatype Place = Pending | InFlight(t: nat) | Delivered(rid: nat) | Absorbed(into: nat) | SentBack

  datatype State = State(
    conn: Conn,
    threads: map<nat, Thread>,
    uniques: map<nat, nat>,
    destroyed: set<nat>,
    marked: set<nat>,
    targets: map<nat, nat>,
    places: map<nat, Place>,
    registered: map<nat, nat>,
    called: set<nat>)

  const START := State(Conn(map[], [], []), map[], map[], {}, {}, map[], map[], map[], {})

  datatype Event =
    | Arrive(rid: nat, unique: nat)
    | Interrupt(iid: nat, target: nat, t: nat)
    | Lock(t: nat)
    | Call(t: nat)
    | Drop(t: nat)
    | Register(t: nat, rid: nat, func: Option<nat>)
    | Check(t: nat)
    | Reply(rid: nat)

  /** When a thread takes a step.  A request is registered for and answered by its own thread, one after the other. */
  predicate Enabled(s: State, e: Event) {
    match e
    case Arrive(rid, _) => rid !in s.uniques
    case Interrupt(iid, _, t) => iid !in s.targets && t !in s.threads
    case Lock(t) => t in s.threads && s.threads[t].Waiting? && Unlocked(s.conn, s.threads[t].rid)
    case Call(t) => t in s.threads && s.threads[t].Calling?
    case Drop(t) => t in s.threads && s.threads[t].Leaving?
    case Register(t, rid, func) =>
      t !in s.threads && rid in s.conn.active && Unlocked(s.conn, rid) && (func.Some? ==> func.value !in s.registered)
    case Check(t) => t in s.threads && s.threads[t].Registering?
    case Reply(rid) =>
      rid in s.conn.active && forall t | t in s.threads && s.threads[t].Registering? :: s.threads[t].rid != rid
  }

  predicate Unlocked(c: Conn, rid: nat) {
    rid in c.reqs ==> c.reqs[rid].lock == None
  }

  /** The request a step works on is still there. */
  predicate Defined(s: State, e: Event) {
    match e
    case Arrive(_, _) => true
    case Interrupt(_, _, _) => Listed(s.conn)
    case Register(_, rid, _) => rid in s.conn.reqs
    case Reply(rid) => rid in s.conn.reqs && s.conn.reqs[rid].ctr > 0
    case Drop(t) =>
      && t in s.threads && s.threads[t].Leaving?
      && s.threads[t].rid in s.conn.reqs && s.conn.reqs[s.threads[t].rid].ctr > 0
    case Lock(t) => t in s.threads && s.threads[t].Waiting? && s.threads[t].rid in s.conn.reqs
    case Call(t) => t in s.threads && s.threads[t].Calling? && s.threads[t].rid in s.conn.reqs
    case Check(t) => t in s.threads && s.threads[t].Registering? && s.threads[t].rid in s.conn.reqs
  }

  function SetReq(s: State, rid: nat, r: Req): State {
    s.(conn := s.conn.(reqs := s.conn.reqs[rid := r]))
  }

  function Gone(c: Conn, rid: nat): set<nat>
    requires rid in c.reqs
  {
    if c.reqs[rid].ctr == 1 then {rid} else {}
  }

  function Called(func: Option<nat>): set<nat> {
    if func.Some? then {func.value} else {}
  }

  function ArriveNext(s: State, rid: nat, unique: nat): State {
    var i, p := FindIntr(s.conn.pending, unique), s.conn.pending;
    s.(conn := Enqueue(s.conn, rid, unique), uniques := s.uniques[rid := unique],
       marked := if i < |p| then s.marked + {rid} else s.marked,
       places := if i < |p| then s.places[p[i].id := Delivered(rid)]
                   else if p != [] then s.places[p[0].id := SentBack] else s.places)
  }

  function InterruptNext(s: State, iid: nat, target: nat, t: nat): State
    requires Listed(s.conn)
  {
    var i, j := FindReq(s.conn, target), FindIntr(s.conn.pending, target);
    if i < |s.conn.active| then Meet(s, iid, target, t, s.conn.active[i])
    else if j < |s.conn.pending| then Absorb(s, iid, target, s.conn.pending[j].id)
    else Wait(s, iid, target)
  }

  /** The request is there: the thread takes a reference to it and goes for its lock. */
  function Meet(s: State, iid: nat, target: nat, t: nat, rid: nat): State
    requires rid in s.conn.reqs
  {
    s.(targets := s.targets[iid := target], places := s.places[iid := InFlight(t)],
       conn := SetCtr(s.conn, rid, s.conn.reqs[rid].ctr + 1), threads := s.threads[t := Waiting(rid, iid)])
  }

  function Absorb(s: State, iid: nat, target: nat, into: nat): State {
    s.(targets := s.targets[iid := target], places := s.places[iid := Absorbed(into)])
  }

  function Wait(s: State, iid: nat, target: nat): State {
    s.(targets := s.targets[iid := target], places := s.places[iid := Pending],
       conn := s.conn.(pending := s.conn.pending + [Intr(iid, target)]))
  }

  function Next(s: State, e: Event): State
    requires Defined(s, e)
  {
    match e
    case Arrive(rid, unique) => ArriveNext(s, rid, unique)
    case Interrupt(iid, target, t) => InterruptNext(s, iid, target, t)
    case Lock(t) =>
      var th := s.threads[t];
      var r := s.conn.reqs[th.rid];
      SetReq(s, th.rid, r.(interrupted := true, lock := Some(t)))
        .(threads := s.threads[t := Calling(th.rid, th.iid, r.func)], marked := s.marked + {th.rid})
    case Call(t) =>
      var th := s.threads[t];
      SetReq(s, th.rid, s.conn.reqs[th.rid].(lock := None))
        .(threads := s.threads[t := Leaving(th.rid, th.iid)], called := s.called + Called(th.func))
    case Drop(t) =>
      var th := s.threads[t];
      s.(conn := Release(s.conn, th.rid), threads := s.threads - {t}, destroyed := s.destroyed + Gone(s.conn, th.rid),
         places := s.places[th.iid := Delivered(th.rid)])
    case Register(t, rid, func) =>
      SetReq(s, rid, s.conn.reqs[rid].(func := func, lock := Some(t)))
        .(threads := s.threads[t := Registering(rid, func)],
          registered := if func.Some? then s.registered[func.value := rid] else s.registered)
    case Check(t) =>
      var th := s.threads[t];
      var r := s.conn.reqs[th.rid];
      SetReq(s, th.rid, r.(lock := None))
        .(threads := s.threads - {t}, called := if r.interrupted then s.called + Called(th.func) else s.called)
    case Reply(rid) =>
      s.(conn := Free(s.conn, rid), destroyed := s.destroyed + Gone(s.conn, rid))
  }

  // ----- What every step keeps

  /** The threads that hold a reference to a request. */
  function Deliverers(threads: map<nat, Thread>, rid: nat): set<nat> {
    set t | t in threads && !threads[t].Registering? && threads[t].rid == rid
  }

  predicate Distinct(s: seq<nat>) {
    forall i, j | 0 <= i < j < |s| :: s[i] != s[j]
  }

  predicate TargetsDistinct(p: seq<Intr>) {
    forall i, j | 0 <= i < j < |p| :: p[i].target != p[j].target
  }

  /** No interrupt waits for a request that is there, and no two wait for the same. */
  predicate PendingOk(c: Conn)
    requires Listed(c)
  {
    && TargetsDistinct(c.pending)
    && (forall i, j | 0 <= i < |c.active| && 0 <= j < |c.pending| :: c.reqs[c.active[i]].unique != c.pending[j].target)
  }

  /** A request's count is the number of those who use it. */
  predicate Counted(c: Conn, threads: map<nat, Thread>) {
    && (forall rid | rid in c.reqs ::
          c.reqs[rid].ctr == (if rid in c.active then 1 else 0) + |Deliverers(threads, rid)| && c.reqs[rid].ctr > 0)
    && (forall t | t in threads :: threads[t].rid in c.reqs && (threads[t].Registering? ==> threads[t].rid in c.active))
  }

  predicate Holds(threads: map<nat, Thread>, t: nat, rid: nat) {
    t in threads && threads[t].rid == rid && (threads[t].Calling? || threads[t].Registering?)
  }

  predicate LocksOk(c: Conn, threads: map<nat, Thread>) {
    && (forall t | t in threads && (threads[t].Calling? || threads[t].Registering?) ::
          threads[t].rid in c.reqs && c.reqs[threads[t].rid].lock == Some(t))
    && (forall rid | rid in c.reqs && c.reqs[rid].lock.Some? :: Holds(threads, c.reqs[rid].lock.value, rid))
  }

  /** Requests are in memory or have been destroyed, never both. */
  predicate Known(s: State) {
    && s.uniques.Keys == s.conn.reqs.Keys + s.destroyed && s.conn.reqs.Keys !! s.destroyed && s.marked <= s.uniques.Keys
    && forall rid | rid in s.conn.reqs ::
      s.conn.reqs[rid].unique == s.uniques[rid] && (s.conn.reqs[rid].interrupted <==> rid in s.marked)
  }

  predicate PlaceOk(s: State, iid: nat)
    requires iid in s.places && iid in s.targets
  {
    match s.places[iid]
    case Pending => Intr(iid, s.targets[iid]) in s.conn.pending
    case InFlight(t) => t in s.threads && !s.threads[t].Registering? && s.threads[t].iid == iid
    case Delivered(rid) => rid in s.uniques && s.uniques[rid] == s.targets[iid] && rid in s.marked
    case Absorbed(into) => into in s.targets && s.targets[into] == s.targets[iid]
    case SentBack => true
  }

  /** Every interrupt is in exactly one place. */
  predicate Conserved(s: State) {
    && s.places.Keys == s.targets.Keys
    && (forall iid | iid in s.places :: PlaceOk(s, iid))
    && (forall j | 0 <= j < |s.conn.pending| :: PendingThere(s, s.conn.pending[j]))
    && (forall t | t in s.threads && !s.threads[t].Registering? :: FlightThere(s, t))
  }

  predicate PendingThere(s: State, p: Intr) {
    p.id in s.places && s.places[p.id] == Pending && p.id in s.targets && s.targets[p.id] == p.target
  }

  /** An interrupt under way is on its way to its own request. */
  predicate FlightThere(s: State, t: nat)
    requires t in s.threads && !s.threads[t].Registering?
  {
    var th := s.threads[t];
    && th.iid in s.places && s.places[th.iid] == InFlight(t)
    && th.iid in s.targets && th.rid in s.uniques && s.uniques[th.rid] == s.targets[th.iid]
    && (th.Waiting? || th.rid in s.marked)
  }

  predicate Owned(s: State, func: Option<nat>, rid: nat) {
    func.Some? ==> func.value in s.registered && s.registered[func.value] == rid
  }

  /** An interrupted request's callback has been called, unless the thread that holds the lock is about to do it. */
  predicate CallbackOk(s: State, rid: nat)
    requires rid in s.conn.reqs
  {
    var r := s.conn.reqs[rid];
    && Owned(s, r.func, rid)
    && (r.interrupted && r.func.Some? && r.lock == None ==> r.func.value in s.called)
  }

  predicate ThreadOk(s: State, t: nat)
    requires t in s.threads
  {
    var th := s.threads[t];
    && (th.Calling? ==>
          Owned(s, th.func, th.rid) && (th.rid in s.conn.reqs ==> s.conn.reqs[th.rid].func in {th.func, None}))
    && (th.Registering? ==>
          Owned(s, th.func, th.rid) && (th.rid in s.conn.reqs ==> s.conn.reqs[th.rid].func == th.func))
  }

  predicate CallbacksOk(s: State) {
    && (forall g | g in s.called :: g in s.registered && s.registered[g] in s.marked)
    && (forall rid | rid in s.conn.reqs :: CallbackOk(s, rid))
    && (forall t | t in s.threads :: ThreadOk(s, t))
  }

  predicate Inv(s: State) {
    && Listed(s.conn) && Distinct(s.conn.active) && PendingOk(s.conn)
    && Counted(s.conn, s.threads) && LocksOk(s.conn, s.threads)
    && Known(s) && Conserved(s) && CallbacksOk(s)
  }

  // ----- The connection in memory

  /** What `do_interrupt` does with an interrupt. */
  datatype Found = Met(rid: nat) | Already | Unmet

  class Connection {
    var reqs: map<nat, Req>
    var active: seq<nat>
    var pending: seq<Intr>

    ghost function Lists(): Conn
      reads this
    {
      Conn(reqs, active, pending)
    }

    constructor ()
      ensures Lists() == START.conn
    {
      reqs, active, pending := map[], [], [];
    }

    /** Looks for the interrupt of a new request; failing that, takes the oldest one off the list. */
    method CheckInterrupt(unique: nat) returns (found: bool, back: Option<Intr>)
      modifies `pending
      ensures found == (FindIntr(old(pending), unique) < |old(pending)|)
      ensures back == Bounced(old(Lists()), unique)
      ensures pending == Enqueue(old(Lists()), 0, unique).pending
    {
      var curr := 0;
      while curr < |pending|
        invariant curr <= |pending| && pending == old(pending)
        invariant forall j | 0 <= j < curr :: pending[j].target != unique
      {
        if pending[curr].target == unique {
          FirstIntr(pending, unique, curr);
          pending := RemoveAt(pending, curr);
          return true, None;
        }
        curr := curr + 1;
      }
      FirstIntr(pending, unique, curr);
      found := false;
      if pending != [] {
        back := Some(pending[0]);
        pending := RemoveAt(pending, 0);
      } else {
        back := None;
      }
    }

    /** A request that is not an interrupt joins the list. */
    method Process(rid: nat, unique: nat) returns (back: Option<Intr>)
      modifies this
      ensures Lists() == Enqueue(old(Lists()), rid, unique) && back == Bounced(old(Lists()), unique)
    {
      var found;
      found, back := CheckInterrupt(unique);
      reqs := reqs[rid := Req(unique, 1, found, None, None)];
      active := active + [rid];
    }

    /** The search of `find_interrupted`, up to where it lets the connection's lock go. */
    method FindInterrupted(target: nat) returns (found: Found)
      requires Listed(Lists())
      modifies `reqs
      ensures var i := FindReq(old(Lists()), target);
        if i < |active| then
          found == Met(active[i]) && Lists() == SetCtr(old(Lists()), active[i], old(reqs)[active[i]].ctr + 1)
        else Lists() == old(Lists()) && found == if FindIntr(pending, target) < |pending| then Already else Unmet
    {
      var curr := 0;
      while curr < |active|
        invariant curr <= |active| && reqs == old(reqs)
        invariant forall j | 0 <= j < curr :: reqs[active[j]].unique != target
      {
        var rid := active[curr];
        if reqs[rid].unique == target {
          FirstReq(Lists(), target, curr);
          reqs := reqs[rid := reqs[rid].(ctr := reqs[rid].ctr + 1)];
          return Met(rid);
        }
        curr := curr + 1;
      }
      FirstReq(Lists(), target, curr);
      curr := 0;
      while curr < |pending|
        invariant curr <= |pending|
        invariant forall j | 0 <= j < curr :: pending[j].target != target
      {
        if pending[curr].target == target {
          FirstIntr(pending, target, curr);
          return Already;
        }
        curr := curr + 1;
      }
      FirstIntr(pending, target, curr);
      return Unmet;
    }

    /** An interrupt comes in; `found` says what became of it. */
    method DoInterrupt(iid: nat, target: nat, ghost s: State, ghost t: nat) returns (found: Found)
      requires Listed(Lists()) && s.conn == Lists()
      modifies this
      ensures var s' := InterruptNext(s, iid, target, t);
        && Lists() == s'.conn
        && match found
           case Met(rid) => s'.threads == s.threads[t := Waiting(rid, iid)]
           case Already => s'.places[iid].Absorbed?
           case Unmet => s'.places[iid] == Pending
    {
      found := FindInterrupted(target);
      if found == Unmet {
        pending := pending + [Intr(iid, target)];
      }
    }

    /** With the request's lock and the connection's: marks the request and reads its callback. */
    method Mark(rid: nat, t: nat, ghost s: State) returns (func: Option<nat>)
      requires s.conn == Lists() && Defined(s, Lock(t)) && s.threads[t].rid == rid
      modifies `reqs
      ensures Lists() == Next(s, Lock(t)).conn && func == Next(s, Lock(t)).threads[t].func
    {
      var r := reqs[rid];
      reqs := reqs[rid := r.(interrupted := true, lock := Some(t))];
      func := r.func;
    }

    /** With both locks: sets the callback. */
    method SetFunc(rid: nat, func: Option<nat>, t: nat, ghost s: State)
      requires s.conn == Lists() && Defined(s, Register(t, rid, func))
      modifies `reqs
      ensures Lists() == Next(s, Register(t, rid, func)).conn
    {
      reqs := reqs[rid := reqs[rid].(func := func, lock := Some(t))];
    }

    /** Lets the request's lock go. */
    method Unlock(rid: nat)
      requires rid in reqs
      modifies `reqs
      ensures reqs == old(reqs)[rid := old(reqs)[rid].(lock := None)]
    {
      reqs := reqs[rid := reqs[rid].(lock := None)];
    }

    /** Gives a reference back. */
    method Put(rid: nat) returns (ctr: nat)
      requires rid in reqs && reqs[rid].ctr > 0
      modifies `reqs
      ensures Lists() == Release(old(Lists()), rid) && ctr == old(reqs)[rid].ctr - 1
    {
      ctr := reqs[rid].ctr - 1;
      if ctr == 0 {
        reqs := reqs - {rid};
      } else {
        reqs := reqs[rid := reqs[rid].(ctr := ctr)];
      }
    }

    /** Takes a request off the list. */
    method ListDel(rid: nat)
      modifies `active
      ensures active == Without(old(active), rid)
    {
      var i := 0;
      while i < |active| && active[i] != rid
        invariant i <= |active| && active == old(active)
        invariant forall j | 0 <= j < i :: active[j] != rid
      {
        i := i + 1;
      }
      WithoutAt(active, rid, i);
      if i < |active| {
        active := active[..i] + active[i + 1..];
      }
    }

    /** The request has been answered. */
    method FreeReq(rid: nat) returns (ctr: nat)
      requires rid in reqs && reqs[rid].ctr > 0
      modifies this
      ensures Lists() == Free(old(Lists()), rid) && ctr == old(reqs)[rid].ctr - 1
    {
      reqs := reqs[rid := reqs[rid].(func := None)];
      ListDel(rid);
      ctr := Put(rid);
    }
  }

  lemma {:induction false} FirstIntr(p: seq<Intr>, target: nat, i: nat)
    requires i <= |p| && (i < |p| ==> p[i].target == target) && forall j | 0 <= j < i :: p[j].target != target
    ensures FindIntr(p, target) == i
  {
  }

  lemma {:induction false} FirstReq(c: Conn, target: nat, i: nat)
    requires Listed(c) && i <= |c.active| && (i < |c.active| ==> c.reqs[c.active[i]].unique == target)
    requires forall j | 0 <= j < i :: c.reqs[c.active[j]].unique != target
    ensures FindReq(c, target) == i
  {
  }

  lemma {:induction false} WithoutAt(s: seq<nat>, x: nat, i: nat)
    requires i <= |s| && (i < |s| ==> s[i] == x) && forall j | 0 <= j < i :: s[j] != x
    ensures Without(s, x) == if i < |s| then s[..i] + s[i + 1..] else s
    decreases i
  {
    if i > 0 {
      WithoutAt(s[1..], x, i - 1);
      if i < |s| { assert [s[0]] + (s[1..][..i - 1] + s[1..][i..]) == s[..i] + s[i + 1..]; }
    }
  }
}
