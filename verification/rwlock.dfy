/**
 The kernel module's reader/writer lock: interruptible, and re-enterable by its writer.

 `Monitor` says what the lock is for: who was granted what, who is blocked, and which of
 the blocked threads have been notified.  The class keeps the three fields of the code,
 count, waiters and owner, and every section under its mutex is proved to act as the
 monitor does.
 */
module RwLock {
  import opened Wrappers

  type Tid = nat
  datatype Mode = Reader | Writer

  /** A grant: an entry by a thread that has the lock exclusively is exclusive too, whatever it asked for. */
  datatype Grant = Shared(t: Tid) | Exclusive(t: Tid)

  /** Blocked threads are waiting until a broadcast wakes them, and woken until they have run. */
  datatype Monitor = Monitor(
    holds: multiset<Grant>, waitR: set<Tid>, waitW: set<Tid>, wokenR: set<Tid>, wokenW: set<Tid>)

  const Idle := Monitor(multiset{}, {}, {}, {}, {})

  function Blocked(m: Monitor): set<Tid> {
    m.waitR + m.waitW + m.wokenR + m.wokenW
  }

  predicate WritersBlocked(m: Monitor) {
    m.waitW + m.wokenW != {}
  }

  ghost predicate Taken(m: Monitor) {
    exists t :: Exclusive(t) in m.holds
  }

  function Broadcast(m: Monitor): Monitor {
    m.(waitR := {}, waitW := {}, wokenR := m.wokenR + m.waitR, wokenW := m.wokenW + m.waitW)
  }

  function Without(m: Monitor, t: Tid): Monitor {
    m.(waitR := m.waitR - {t}, waitW := m.waitW - {t}, wokenR := m.wokenR - {t}, wokenW := m.wokenW - {t})
  }

  function Give(m: Monitor, g: Grant): Monitor {
    m.(holds := m.holds + multiset{g})
  }

  /** When a thread that is not the writer may have the lock. */
  ghost predicate Available(m: Monitor, mode: Mode) {
    match mode
    case Reader => !Taken(m) && !WritersBlocked(m)
    case Writer => m.holds == multiset{}
  }

  function GrantFor(t: Tid, mode: Mode): Grant {
    if mode == Reader then Shared(t) else Exclusive(t)
  }

  ghost function Enter(m: Monitor, t: Tid, mode: Mode): Monitor {
    if Exclusive(t) in m.holds then Give(m, Exclusive(t))
    else if Available(m, mode) then Give(m, GrantFor(t, mode))
    else if mode == Reader then m.(waitR := m.waitR + {t}) else m.(waitW := m.waitW + {t})
  }

  ghost function TryEnter(m: Monitor, t: Tid, mode: Mode): Monitor {
    if Exclusive(t) in m.holds then Give(m, Exclusive(t))
    else if Available(m, mode) then Give(m, GrantFor(t, mode))
    else m
  }

  /** A blocked thread runs again, notified or not. */
  ghost function Wake(m: Monitor, t: Tid): Monitor {
    var mode := if t in m.waitR + m.wokenR then Reader else Writer;
    Enter(Without(m, t), t, mode)
  }

  /** A signal ends the wait; an interrupted writer notifies everybody. */
  function Interrupt(m: Monitor, t: Tid): Monitor {
    if t in m.waitR + m.wokenR then Without(m, t) else Broadcast(Without(m, t))
  }

  /** A grant is given back; when it was the last one everybody is notified. */
  function Exit(m: Monitor, t: Tid): Monitor {
    var g := if Exclusive(t) in m.holds then Exclusive(t) else Shared(t);
    var m' := m.(holds := m.holds - multiset{g});
    if m'.holds == multiset{} then Broadcast(m') else m'
  }

  datatype Event =
    | EnterEv(t: Tid, mode: Mode) | TryEv(t: Tid, mode: Mode) | WakeEv(t: Tid) | SignalEv(t: Tid) | ExitEv(t: Tid)

  ghost predicate Enabled(m: Monitor, ev: Event) {
    match ev
    case EnterEv(t, _) => t !in Blocked(m)
    case TryEv(t, _) => t !in Blocked(m)
    case WakeEv(t) => t in Blocked(m)
    case SignalEv(t) => t in Blocked(m)
    case ExitEv(t) => t !in Blocked(m) && (Exclusive(t) in m.holds || Shared(t) in m.holds)
  }

  ghost function Next(m: Monitor, ev: Event): Monitor {
    match ev
    case EnterEv(t, mode) => Enter(m, t, mode)
    case TryEv(t, mode) => TryEnter(m, t, mode)
    case WakeEv(t) => Wake(m, t)
    case SignalEv(t) => Interrupt(m, t)
    case ExitEv(t) => Exit(m, t)
  }

  // ----- What every run keeps

  /** An exclusive grant excludes every other thread's. */
  ghost predicate Exclusion(m: Monitor) {
    forall t, g | Exclusive(t) in m.holds && g in m.holds :: g == Exclusive(t)
  }

  predicate Separate(m: Monitor) {
    && m.waitR !! m.waitW && m.waitR !! m.wokenR && m.waitR !! m.wokenW
    && m.waitW !! m.wokenR && m.waitW !! m.wokenW && m.wokenR !! m.wokenW
  }

  /** A thread that waits without having been notified has something to wait for. */
  ghost predicate NoneForgotten(m: Monitor) {
    && (m.waitW != {} ==> m.holds != multiset{})
    && (m.waitR != {} ==> Taken(m) || WritersBlocked(m))
  }

  /** A blocked thread does not have the lock exclusively. */
  ghost predicate OwnerRuns(m: Monitor) {
    forall t | Exclusive(t) in m.holds :: t !in Blocked(m)
  }

  ghost predicate Inv(m: Monitor) {
    Exclusion(m) && Separate(m) && NoneForgotten(m) && OwnerRuns(m)
  }

  lemma EnterInv(m: Monitor, t: Tid, mode: Mode)
    requires Inv(m) && t !in Blocked(m)
    ensures Inv(Enter(m, t, mode))
  {
    if Exclusive(t) in m.holds {
      GrantInv(m, Exclusive(t));
    } else if Available(m, mode) {
      GrantInv(m, GrantFor(t, mode));
    } else {
      BlockInv(m, t, mode);
    }
  }

  lemma GrantInv(m: Monitor, g: Grant)
    requires Inv(m) && g.t !in Blocked(m)
    requires g.Exclusive? ==> g in m.holds || m.holds == multiset{}
    requires g.Shared? ==> !Taken(m)
    ensures Inv(Give(m, g))
  {
    var m' := Give(m, g);
    assert forall h :: h in m'.holds <==> h == g || h in m.holds;
    if Taken(m) {
      var t :| Exclusive(t) in m.holds;
      assert Exclusive(t) in m'.holds;
    }
  }

  lemma BlockInv(m: Monitor, t: Tid, mode: Mode)
    requires Inv(m) && t !in Blocked(m) && Exclusive(t) !in m.holds && !Available(m, mode)
    ensures Inv(if mode == Reader then m.(waitR := m.waitR + {t}) else m.(waitW := m.waitW + {t}))
  {
    var m' := if mode == Reader then m.(waitR := m.waitR + {t}) else m.(waitW := m.waitW + {t});
    assert Taken(m') == Taken(m);
    if mode == Writer { assert t in m'.waitW + m'.wokenW; }
  }

  lemma WakeInv(m: Monitor, t: Tid)
    requires Inv(m) && t in Blocked(m)
    ensures Inv(Wake(m, t))
  {
    if t in m.waitR + m.wokenR {
      ReaderLeaves(m, t);
      EnterInv(Without(m, t), t, Reader);
    } else {
      WriterWakes(m, t);
    }
  }

  lemma ReaderLeaves(m: Monitor, t: Tid)
    requires Inv(m) && t in m.waitR + m.wokenR
    ensures Inv(Without(m, t)) && t !in Blocked(Without(m, t))
  {
    assert Without(m, t).waitW + Without(m, t).wokenW == m.waitW + m.wokenW;
  }

  /** A writer that runs either takes the lock or is blocked again: readers still have cause to wait. */
  lemma WriterWakes(m: Monitor, t: Tid)
    requires Inv(m) && t in m.waitW + m.wokenW
    ensures Inv(Wake(m, t))
  {
    var m' := Wake(m, t);
    assert Exclusive(t) !in m.holds && t !in m.waitR + m.wokenR;
    if m.holds == multiset{} {
      assert m' == Give(Without(m, t), Exclusive(t));
      assert Exclusive(t) in m'.holds;
    } else {
      assert m'.holds == m.holds;
      assert t in m'.waitW + m'.wokenW;
    }
  }

  lemma SignalInv(m: Monitor, t: Tid)
    requires Inv(m) && t in Blocked(m)
    ensures Inv(Interrupt(m, t))
  {
    if t in m.waitR + m.wokenR { ReaderLeaves(m, t); }
  }

  lemma ExitInv(m: Monitor, t: Tid)
    requires Inv(m) && (Exclusive(t) in m.holds || Shared(t) in m.holds)
    ensures Inv(Exit(m, t))
  {
    var g := if Exclusive(t) in m.holds then Exclusive(t) else Shared(t);
    var m1 := m.(holds := m.holds - multiset{g});
    assert forall h | h in m1.holds :: h in m.holds;
    if m1.holds != multiset{} && Taken(m) {
      var h :| h in m1.holds;
      assert h == Exclusive(h.t) && Taken(m1);
    }
  }

  lemma StepInv(m: Monitor, ev: Event)
    requires Inv(m) && Enabled(m, ev)
    ensures Inv(Next(m, ev))
  {
    match ev
    case EnterEv(t, mode) => EnterInv(m, t, mode);
    case TryEv(t, mode) => EnterInv(m, t, mode);
    case WakeEv(t) => WakeInv(m, t);
    case SignalEv(t) => SignalInv(m, t);
    case ExitEv(t) => ExitInv(m, t);
  }

  ghost predicate IsRun(run: seq<Monitor>, evs: seq<Event>) {
    && |run| == |evs| + 1 && run[0] == Idle
    && forall i | 0 <= i < |evs| :: Enabled(run[i], evs[i]) && run[i + 1] == Next(run[i], evs[i])
  }

  lemma {:induction false} RunInv(run: seq<Monitor>, evs: seq<Event>, i: nat)
    requires IsRun(run, evs) && i < |run|
    ensures Inv(run[i])
    decreases i
  {
    if i > 0 {
      RunInv(run, evs, i - 1);
      StepInv(run[i - 1], evs[i - 1]);
    }
  }

  /** Who asks for the lock in a step, and for what. */
  function Asker(m: Monitor, ev: Event): Option<(Tid, Mode)> {
    match ev
    case EnterEv(t, mode) => Some((t, mode))
    case TryEv(t, mode) => Some((t, mode))
    case WakeEv(t) => Some((t, if t in m.waitR + m.wokenR then Reader else Writer))
    case _ => None
  }

  /** What stands in the way of a thread: a writer, other than itself, or a writer that waits; for a writer, anybody. */
  ghost predicate Barred(m: Monitor, t: Tid, mode: Mode) {
    && Exclusive(t) !in m.holds
    && if mode == Reader then exists u :: Exclusive(u) in m.holds || (u != t && u in m.waitW + m.wokenW)
       else exists g :: g in m.holds
  }

  /** The lock goes to `t`, once more, if nothing bars it; otherwise `t` waits,
    unless it only tried; others are as before. */
  ghost predicate Served(m: Monitor, m': Monitor, t: Tid, mode: Mode, tries: bool) {
    && (Barred(m, t, mode) ==>
          m'.holds == m.holds && (t in (if mode == Reader then m'.waitR else m'.waitW) <==> !tries))
    && (!Barred(m, t, mode) ==>
          && m'.holds == m.holds + multiset{if Exclusive(t) in m.holds ||
             mode == Writer then Exclusive(t) else Shared(t)}
          && t !in Blocked(m'))
    && Blocked(m') - {t} == Blocked(m) - {t}
  }

  /** In every run a thread that asks gets the lock exactly when nothing bars it. */
  lemma GrantedIff(run: seq<Monitor>, evs: seq<Event>, i: nat)
    requires IsRun(run, evs) && i < |evs| && Asker(run[i], evs[i]).Some?
    ensures var a := Asker(run[i], evs[i]).value;
            Served(run[i], run[i + 1], a.0, a.1, evs[i].TryEv?)
  {
    RunInv(run, evs, i);
    var m := run[i];
    match evs[i]
    case EnterEv(t, mode) => EnterServed(m, t, mode);
    case TryEv(t, mode) => TryServed(m, t, mode);
    case WakeEv(t) => WakeServed(m, t, if t in m.waitR + m.wokenR then Reader else Writer);
  }

  lemma EnterServed(m: Monitor, t: Tid, mode: Mode)
    requires Inv(m) && t !in Blocked(m)
    ensures Served(m, Enter(m, t, mode), t, mode, false)
  {
    AvailableIff(m, t, mode);
  }

  lemma TryServed(m: Monitor, t: Tid, mode: Mode)
    requires Inv(m) && t !in Blocked(m)
    ensures Served(m, TryEnter(m, t, mode), t, mode, true)
  {
    AvailableIff(m, t, mode);
  }

  lemma WakeServed(m: Monitor, t: Tid, mode: Mode)
    requires Inv(m) && t in Blocked(m) && mode == (if t in m.waitR + m.wokenR then Reader else Writer)
    ensures Served(m, Wake(m, t), t, mode, false)
  {
    var m1 := Without(m, t);
    assert Exclusive(t) !in m.holds;
    BarredWithout(m, t, mode);
    assert Blocked(m1) == Blocked(m) - {t};
    WaiterServed(m1, t, mode);
  }

  lemma WaiterServed(m: Monitor, t: Tid, mode: Mode)
    requires t !in Blocked(m) && Exclusive(t) !in m.holds
    ensures Served(m, Enter(m, t, mode), t, mode, false)
  {
    OpenTo(m, t, mode);
  }

  lemma OpenTo(m: Monitor, t: Tid, mode: Mode)
    requires t !in Blocked(m) && Exclusive(t) !in m.holds
    ensures Barred(m, t, mode) <==> !Available(m, mode)
  {
    if mode == Reader && WritersBlocked(m) { var u :| u in m.waitW + m.wokenW; }
    if mode == Writer && m.holds != multiset{} { var g :| g in m.holds; }
  }

  lemma AvailableIff(m: Monitor, t: Tid, mode: Mode)
    requires Inv(m) && t !in Blocked(m)
    ensures Barred(m, t, mode) <==> Exclusive(t) !in m.holds && !Available(m, mode)
  {
    if Exclusive(t) !in m.holds { OpenTo(m, t, mode); }
  }

  lemma BarredWithout(m: Monitor, t: Tid, mode: Mode)
    ensures Barred(Without(m, t), t, mode) <==> Barred(m, t, mode)
  {
    var m' := Without(m, t);
    assert forall u | u != t :: u in m.waitW + m.wokenW <==> u in m'.waitW + m'.wokenW;
  }

  /** An exit gives back one hold of the thread, and nobody else's. */
  lemma ExitGivesBack(run: seq<Monitor>, evs: seq<Event>, i: nat)
    requires IsRun(run, evs) && i < |evs| && evs[i].ExitEv?
    ensures var t := evs[i].t;
            exists g: Grant :: g.t == t && g in run[i].holds && run[i + 1].holds == run[i].holds - multiset{g}
  {
    var m, t := run[i], evs[i].t;
    var g := if Exclusive(t) in m.holds then Exclusive(t) else Shared(t);
    assert g.t == t && g in m.holds;
  }

  /**
   No lost wakeup: while the lock is free and threads are blocked, every blocked writer has been
   notified, or if there is none every blocked reader; and such a thread gets the lock when it runs.
   */
  lemma NoLostWakeup(run: seq<Monitor>, evs: seq<Event>, i: nat, t: Tid)
    requires IsRun(run, evs) && i < |run|
    requires run[i].holds == multiset{} && t in Blocked(run[i])
    requires WritersBlocked(run[i]) ==> t in run[i].waitW + run[i].wokenW
    ensures var m := run[i];
            && t in m.wokenR + m.wokenW && Enabled(m, WakeEv(t))
            && (t in m.wokenW ==> Next(m, WakeEv(t)).holds == multiset{Exclusive(t)})
            && (t in m.wokenR ==> Next(m, WakeEv(t)).holds == multiset{Shared(t)})
  {
    RunInv(run, evs, i);
    var m := run[i];
    assert !Taken(m);
    if t in m.wokenR { assert Without(m, t).waitW == {} && Without(m, t).wokenW == {}; }
  }

  /** The three fields of the lock say no more than the monitor. */
  ghost predicate Represents(count: int, waiters: int, owner: Option<Tid>, m: Monitor) {
    && waiters == |m.waitW| + |m.wokenW|
    && (owner.None? ==> count == |m.holds| && forall g | g in m.holds :: g.Shared?)
    && (owner.Some? ==> count == -|m.holds| && count < 0 && forall g | g in m.holds :: g == Exclusive(owner.value))
  }

  /** The tests in the code decide what the monitor asks for. */
  lemma Tests(count: int, waiters: int, owner: Option<Tid>, m: Monitor, t: Tid)
    requires Represents(count, waiters, owner, m)
    ensures owner == Some(t) <==> Exclusive(t) in m.holds
    ensures !(count < 0 || waiters > 0) <==> Available(m, Reader)
    ensures !(count > 0 || owner.Some?) <==> Available(m, Writer)
    ensures waiters > 0 <==> WritersBlocked(m)
    ensures count == 0 <==> m.holds == multiset{}
  {
    if owner.Some? {
      var g :| g in m.holds;
      assert Exclusive(owner.value) in m.holds;
    }
    if m.holds != multiset{} {
      var g :| g in m.holds;
      assert |m.holds| > 0;
    }
    assert waiters > 0 <==> m.waitW != {} || m.wokenW != {};
  }

  lemma GiveCounts(count: int, waiters: int, owner: Option<Tid>, m: Monitor, g: Grant)
    requires Represents(count, waiters, owner, m)
    requires g.Exclusive? ==> owner == Some(g.t) || (owner.None? && m.holds == multiset{})
    requires g.Shared? ==> owner.None?
    ensures g.Shared? ==> Represents(count + 1, waiters, None, Give(m, g))
    ensures g.Exclusive? ==> Represents(count - 1, waiters, Some(g.t), Give(m, g))
  {
    assert |Give(m, g).holds| == |m.holds| + 1;
    assert forall h | h in Give(m, g).holds :: h == g || h in m.holds;
  }

  /** The fields as a value, and what each section of the code does to them. */
  datatype Fields = Fields(count: int, waiters: int, owner: Option<Tid>)

  function EnterFields(f: Fields, t: Tid, mode: Mode): Fields {
    if f.owner == Some(t) then f.(count := f.count - 1)
    else if mode == Reader then
      if f.count < 0 || f.waiters > 0 then f else f.(count := f.count + 1)
    else
      if f.count > 0 || f.owner.Some? then f.(waiters := f.waiters + 1)
      else f.(owner := Some(t), count := f.count - 1)
  }

  predicate Admits(f: Fields, t: Tid, mode: Mode) {
    f.owner == Some(t) || (if mode == Reader then !(f.count < 0 || f.waiters > 0) else !(f.count > 0 || f.owner.Some?))
  }

  lemma EnterRefines(f: Fields, m: Monitor, t: Tid, mode: Mode)
    requires Represents(f.count, f.waiters, f.owner, m) && t !in m.waitW + m.wokenW
    ensures var f' := EnterFields(f, t, mode);
            var m' := Enter(m, t, mode);
            && Represents(f'.count, f'.waiters, f'.owner, m')
            && (Admits(f, t, mode) ==> |m'.holds| == |m.holds| + 1 && m' == TryEnter(m, t, mode))
            && (!Admits(f, t, mode) ==> m'.holds == m.holds && t in Blocked(m') && m == TryEnter(m, t, mode))
  {
    Tests(f.count, f.waiters, f.owner, m, t);
    if f.owner == Some(t) {
      GiveCounts(f.count, f.waiters, f.owner, m, Exclusive(t));
    } else if Available(m, mode) {
      GiveCounts(f.count, f.waiters, f.owner, m, GrantFor(t, mode));
    } else if mode == Writer {
      assert |m.waitW + {t}| == |m.waitW| + 1;
    }
  }

  class FusefsRwLock {
    var count: int
    var waiters: int
    var owner: Option<Tid>

    ghost predicate Is(m: Monitor)
      reads this
    {
      Represents(count, waiters, owner, m)
    }

    ghost function Now(): Fields
      reads this
    {
      Fields(count, waiters, owner)
    }

    /** fusefs_rw_init */
    constructor ()
      ensures Is(Idle)
    {
      count, waiters, owner := 0, 0, None;
    }

    /** The loops of fusefs_rw_enter_sig: test, and acquire or go to wait. */
    method Contend(t: Tid, mode: Mode, ghost m: Monitor) returns (granted: bool)
      requires Is(m) && t !in Blocked(m) && owner != Some(t)
      modifies this
      ensures Is(Enter(m, t, mode))
      ensures if granted then |Enter(m, t, mode).holds| == |m.holds| + 1 else t in Blocked(Enter(m, t, mode))
    {
      EnterRefines(Now(), m, t, mode);
      granted := true;
      if mode == Reader {
        if count < 0 || waiters > 0 {
          granted := false;
        } else {
          count := count + 1;
        }
      } else {
        if count > 0 || owner.Some? {
          waiters := waiters + 1;
          granted := false;
        } else {
          owner := Some(t);
          count := count - 1;
        }
      }
    }

    /** fusefs_rw_enter_sig, up to its return or its first wait. */
    method EnterSig(t: Tid, mode: Mode, ghost m: Monitor) returns (granted: bool)
      requires Is(m) && t !in Blocked(m)
      modifies this
      ensures Is(Enter(m, t, mode))
      ensures if granted then |Enter(m, t, mode).holds| == |m.holds| + 1 else t in Blocked(Enter(m, t, mode))
    {
      if owner == Some(t) {
        EnterRefines(Now(), m, t, mode);
        count := count - 1;
        granted := true;
      } else {
        granted := Contend(t, mode, m);
      }
    }

    /** The same, from a wait that ended: back to the test of the loop. */
    method Resume(t: Tid, mode: Mode, ghost m: Monitor) returns (granted: bool)
      requires Is(m) && Separate(m) && Exclusive(t) !in m.holds && WaitsFor(m, t, mode)
      modifies this
      ensures Is(Wake(m, t))
      ensures if granted then |Wake(m, t).holds| == |m.holds| + 1 else t in Blocked(Wake(m, t))
    {
      LeaveCounts(count, waiters, owner, m, t, mode);
      Tests(count, waiters, owner, m, t);
      if mode == Writer {
        waiters := waiters - 1;
      }
      granted := Contend(t, mode, Without(m, t));
    }

    /** The same, when a signal ended the wait: EINTR.  `broadcast` tells whether the others are notified. */
    method Interrupted(t: Tid, mode: Mode, ghost m: Monitor) returns (broadcast: bool)
      requires Is(m) && Separate(m) && WaitsFor(m, t, mode)
      modifies this
      ensures Is(Interrupt(m, t))
      ensures Interrupt(m, t) == if broadcast then Broadcast(Without(m, t)) else Without(m, t)
    {
      SignalRefines(Now(), m, t, mode);
      broadcast := false;
      if mode == Writer {
        waiters := waiters - 1;
        broadcast := true;
      }
    }

    /** fusefs_rw_tryenter */
    method TryEnterNow(t: Tid, mode: Mode, ghost m: Monitor) returns (granted: bool)
      requires Is(m) && t !in Blocked(m)
      modifies this
      ensures Is(TryEnter(m, t, mode))
      ensures if granted then |TryEnter(m, t, mode).holds| == |m.holds| + 1 else TryEnter(m, t, mode) == m
    {
      EnterRefines(Now(), m, t, mode);
      if owner == Some(t) {
        count := count - 1;
      } else if mode == Reader {
        if count < 0 || waiters > 0 { return false; }
        count := count + 1;
      } else {
        if count > 0 || owner.Some? { return false; }
        owner := Some(t);
        count := count - 1;
      }
      return true;
    }

    /**
     fusefs_rw_exit.  `broadcast` tells whether the code notifies the blocked threads: a last reader
     does so only if a writer waits, which is enough because readers do not wait for readers.
     */
    method ExitNow(t: Tid, ghost m: Monitor) returns (broadcast: bool)
      requires Is(m) && Inv(m) && (Exclusive(t) in m.holds || Shared(t) in m.holds)
      modifies this
      ensures Is(Exit(m, t))
      ensures var m1 := m.(holds := Exit(m, t).holds);
              Exit(m, t) == if broadcast then Broadcast(m1) else m1
    {
      ExitRefines(Now(), m, t);
      broadcast := false;
      if owner.Some? {
        assert owner == Some(t);
        count := count + 1;
        if count == 0 {
          owner := None;
          broadcast := true;
        }
      } else {
        assert count > 0;
        count := count - 1;
        if count == 0 && waiters > 0 {
          broadcast := true;
        }
      }
    }

    /** fusefs_rw_lock_held: whether somebody reads, or somebody writes. */
    method LockHeld(mode: Mode, ghost m: Monitor) returns (r: bool)
      requires Is(m)
      ensures mode == Reader ==> (r <==> exists t :: Shared(t) in m.holds)
      ensures mode == Writer ==> (r <==> Taken(m))
    {
      HeldIs(count, waiters, owner, m);
      r := if mode == Reader then count > 0 else count < 0;
    }
  }

  lemma HeldIs(count: int, waiters: int, owner: Option<Tid>, m: Monitor)
    requires Represents(count, waiters, owner, m)
    ensures count > 0 <==> exists t :: Shared(t) in m.holds
    ensures count < 0 <==> Taken(m)
  {
    Tests(count, waiters, owner, m, 0);
    if m.holds != multiset{} {
      var g :| g in m.holds;
      assert |m.holds| > 0;
      assert g == Shared(g.t) || g == Exclusive(g.t);
    }
  }

  lemma SignalRefines(f: Fields, m: Monitor, t: Tid, mode: Mode)
    requires Separate(m) && WaitsFor(m, t, mode) && Represents(f.count, f.waiters, f.owner, m)
    ensures Represents(f.count, if mode == Writer then f.waiters - 1 else f.waiters, f.owner, Interrupt(m, t))
  {
    LeaveCounts(f.count, f.waiters, f.owner, m, t, mode);
    if mode == Writer {
      BroadcastCounts(f.count, f.waiters - 1, f.owner, Without(m, t));
    }
  }

  function ExitFields(f: Fields): Fields {
    if f.owner.Some? then f.(count := f.count + 1, owner := if f.count + 1 == 0 then None else f.owner)
    else f.(count := f.count - 1)
  }

  /** `m` with the broadcast left out where the code leaves it out is the same monitor. */
  lemma ExitRefines(f: Fields, m: Monitor, t: Tid)
    requires Inv(m) && Represents(f.count, f.waiters, f.owner, m)
    requires Exclusive(t) in m.holds || Shared(t) in m.holds
    ensures var f' := ExitFields(f);
            && Represents(f'.count, f'.waiters, f'.owner, Exit(m, t))
            && (f.owner.Some? <==> f.owner == Some(t))
            && (f.owner.None? ==> f.count > 0)
            && var m1 := m.(holds := Exit(m, t).holds);
            Exit(m, t) == if f'.count == 0 && (f.owner.Some? || f.waiters > 0) then Broadcast(m1) else m1
  {
    Tests(f.count, f.waiters, f.owner, m, t);
    if f.owner.Some? {
      assert Exclusive(t) in m.holds;
      TakeCounts(f.count, f.waiters, f.owner, m, Exclusive(t));
    } else {
      TakeCounts(f.count, f.waiters, f.owner, m, Shared(t));
      if f.count == 1 && f.waiters == 0 {
        assert !Taken(m) && m.waitR == {} && m.waitW == {};
      }
    }
  }

  predicate WaitsFor(m: Monitor, t: Tid, mode: Mode) {
    if mode == Reader then t in m.waitR + m.wokenR else t in m.waitW + m.wokenW
  }

  lemma LeaveCounts(count: int, waiters: int, owner: Option<Tid>, m: Monitor, t: Tid, mode: Mode)
    requires Separate(m) && WaitsFor(m, t, mode) && Represents(count, waiters, owner, m)
    ensures Represents(count, if mode == Writer then waiters - 1 else waiters, owner, Without(m, t))
    ensures t in Blocked(m) && (mode == Reader <==> t in m.waitR + m.wokenR)
  {
    if mode == Writer {
      if t in m.waitW {
        assert m.wokenW - {t} == m.wokenW;
      } else {
        assert m.waitW - {t} == m.waitW;
      }
    } else {
      assert m.waitW - {t} == m.waitW && m.wokenW - {t} == m.wokenW;
    }
  }

  lemma BroadcastCounts(count: int, waiters: int, owner: Option<Tid>, m: Monitor)
    requires m.waitW !! m.wokenW && Represents(count, waiters, owner, m)
    ensures Represents(count, waiters, owner, Broadcast(m))
  {
    assert |m.wokenW + m.waitW| == |m.wokenW| + |m.waitW|;
  }

  /** Giving a grant back, and notifying everybody if it was the last. */
  lemma TakeCounts(count: int, waiters: int, owner: Option<Tid>, m: Monitor, g: Grant)
    requires Inv(m) && Represents(count, waiters, owner, m) && g in m.holds
    requires g.Exclusive? <==> owner.Some?
    ensures g == if Exclusive(g.t) in m.holds then Exclusive(g.t) else Shared(g.t)
    ensures var m' := m.(holds := m.holds - multiset{g});
            && |m'.holds| == |m.holds| - 1
            && (g.Shared? ==>
                  Represents(count - 1, waiters, None, m') && Represents(count - 1, waiters, None, Broadcast(m')))
            && (g.Exclusive? && |m'.holds| > 0 ==> Represents(count + 1, waiters, owner, m'))
            && (g.Exclusive? && |m'.holds| == 0 ==> Represents(0, waiters, None, Broadcast(m')))
  {
    var m' := m.(holds := m.holds - multiset{g});
    assert m.holds == m'.holds + multiset{g};
    assert forall h | h in m'.holds :: h in m.holds;
    if g.Shared? {
      BroadcastCounts(count - 1, waiters, None, m');
    } else if |m'.holds| == 0 {
      BroadcastCounts(0, waiters, None, m');
    }
  }

  // ----- The fields over a whole run

  function StepFields(f: Fields, m: Monitor, ev: Event): Fields {
    match ev
    case EnterEv(t, mode) => EnterFields(f, t, mode)
    case TryEv(t, mode) => if Admits(f, t, mode) then EnterFields(f, t, mode) else f
    case WakeEv(t) =>
      if t in m.waitR + m.wokenR then EnterFields(f, t, Reader)
      else EnterFields(f.(waiters := f.waiters - 1), t, Writer)
    case SignalEv(t) => if t in m.waitR + m.wokenR then f else f.(waiters := f.waiters - 1)
    case ExitEv(t) => ExitFields(f)
  }

  lemma StepRefines(f: Fields, m: Monitor, ev: Event)
    requires Inv(m) && Enabled(m, ev) && Represents(f.count, f.waiters, f.owner, m)
    ensures var f' := StepFields(f, m, ev); Represents(f'.count, f'.waiters, f'.owner, Next(m, ev))
  {
    match ev
    case EnterEv(t, mode) => EnterRefines(f, m, t, mode);
    case TryEv(t, mode) => EnterRefines(f, m, t, mode);
    case WakeEv(t) => WakeRefines(f, m, t);
    case SignalEv(t) => SignalRefines(f, m, t, if t in m.waitR + m.wokenR then Reader else Writer);
    case ExitEv(t) => ExitRefines(f, m, t);
  }

  lemma WakeRefines(f: Fields, m: Monitor, t: Tid)
    requires Inv(m) && t in Blocked(m) && Represents(f.count, f.waiters, f.owner, m)
    ensures var f' := StepFields(f, m, WakeEv(t)); Represents(f'.count, f'.waiters, f'.owner, Wake(m, t))
  {
    var mode := if t in m.waitR + m.wokenR then Reader else Writer;
    LeaveCounts(f.count, f.waiters, f.owner, m, t, mode);
    EnterRefines(if mode == Writer then f.(waiters := f.waiters - 1) else f, Without(m, t), t, mode);
  }

  /**
   In every run: without an owner the count is the number of readers, with one it is minus the
   owner's nesting depth and nobody else is in; waiters is the number of blocked writers.
   */
  lemma {:induction false} FieldsMeanMonitor(run: seq<Monitor>, evs: seq<Event>, fs: seq<Fields>, i: nat)
    requires IsRun(run, evs) && |fs| == |run| && fs[0] == Fields(0, 0, None) && i < |run|
    requires forall j | 0 <= j < |evs| :: fs[j + 1] == StepFields(fs[j], run[j], evs[j])
    ensures Represents(fs[i].count, fs[i].waiters, fs[i].owner, run[i])
    decreases i
  {
    if i > 0 {
      FieldsMeanMonitor(run, evs, fs, i - 1);
      RunInv(run, evs, i - 1);
      StepRefines(fs[i - 1], run[i - 1], evs[i - 1]);
      assert fs[i] == StepFields(fs[i - 1], run[i - 1], evs[i - 1]);
    }
  }
}
