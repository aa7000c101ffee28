/**
 What becomes of names and lookups in a run, told from the operations alone: which node has
 which name after each step, and how many lookups of a node have been answered and not yet
 been given up.
 */
module NodeHistory {
  import opened Wrappers
  import opened NodeTree
  import opened PathLocks
  import opened PathLockRuns
  import PathTickets
  import Symlink

  /** What the kernel relies on of a node; one that is not there has no name and no lookups. */
  datatype Facts = Facts(link: Option<Link>, lookups: int)

  function FactsOf(t: Tree, n: Ino): Facts {
    if n in t then Facts(t[n].link, t[n].nlookup) else Facts(None, 0)
  }

  // ----- What each operation is to do

  /** The node a lookup is answered with: the directory, the node of that name, or a new one. */
  ghost function Answer(t: Tree, r: Request, id: Ino): Ino {
    if r.name.None? then r.dir
    else match Lookup(t, r.dir, r.name.value)
      case Some(n) => n
      case None => id
  }

  /** The lookups of `n` a step answers, less those it gives up. */
  ghost function Gained(s: State, ev: Event, n: Ino): int {
    match ev
    case FindNode(i, id) => if i < |s.holds| && Answer(s.t, s.holds[i].req, id) == n then 1 else 0
    case ForgetNode(m, k) => if m == n then 0 - (k as int) else 0
    case _ => 0
  }

  ghost function Named(s: State, i: nat): Option<Ino>
    requires i < |s.holds| && s.holds[i].req.name.Some?
  {
    Lookup(s.t, s.holds[i].req.dir, s.holds[i].req.name.value)
  }

  /** The name of `n` after a step. */
  ghost function LinkAfter(s: State, ev: Event, n: Ino): Option<Link>
    requires Enabled(s, ev)
  {
    var same := FactsOf(s.t, n).link;
    match ev
    case FindNode(i, id) =>
      var r := s.holds[i].req;
      if n == id && r.name.Some? && Named(s, i).None? then Some(Link(r.dir, r.name.value)) else same
    case ForgetNode(m, k) => if m == n && k == s.t[m].nlookup then None else same
    case RemoveNode(i) => if Named(s, i) == Some(n) then None else same
    case RenameNode(i, j) =>
      var to := s.holds[j].req;
      if Named(s, i) == Some(n) then Some(Link(to.dir, to.name.value))
      else if Named(s, i).Some? && Named(s, j) == Some(n) then None
      else same
    case HideNode(i, hidden) =>
      var dir := s.holds[i].req.dir;
      if Named(s, i) == Some(n) && Lookup(s.t, dir, hidden).None? then Some(Link(dir, hidden)) else same
    case _ => same
  }

  // ----- What the sections do

  lemma SameFacts(t: Tree, t': Tree, n: Ino)
    requires SameShape(t, t')
    ensures FactsOf(t', n) == FactsOf(t, n)
  {
  }

  /** The last reference goes only when there is nothing to lose. */
  lemma UnrefFacts(t: Tree, p: Ino, n: Ino)
    requires p in t && (t[p].refctr == 1 ==> t[p].nlookup == 0 && t[p].link.None?)
    ensures FactsOf(Unref(t, p), n) == FactsOf(t, n)
  {
  }

  lemma UnhashFacts(t: Tree, refs: multiset<Ino>, m: Ino, n: Ino)
    requires TreeOk(t, refs) && m in t
    ensures ParentIn(t, m) && TreeOk(Unhash(t, m), refs)
    ensures FactsOf(Unhash(t, m), n) == if n == m then FactsOf(t, n).(link := None) else FactsOf(t, n)
  {
    UnhashTree(t, refs, m);
    if t[m].link.Some? {
      ParentLookups(t, refs, m);
      UnrefFacts(t[m := t[m].(link := None)], t[m].link.value.parent, n);
    }
  }

  lemma HashFacts(t: Tree, m: Ino, dir: Ino, name: string, n: Ino)
    requires m in t && dir in t
    ensures FactsOf(Hash(t, m, dir, name), n) ==
            if n == m then FactsOf(t, n).(link := Some(Link(dir, name))) else FactsOf(t, n)
  {
  }

  /** A node is unlinked and linked again. */
  lemma RelinkFacts(t: Tree, refs: multiset<Ino>, w: Ino, dir: Ino, name: string, n: Ino)
    requires TreeOk(t, refs) && FactsOf(t, w).lookups > 0 && FactsOf(t, dir).lookups > 0
    ensures ParentIn(t, w) && w in Unhash(t, w) && dir in Unhash(t, w)
    ensures FactsOf(Hash(Unhash(t, w), w, dir, name), n) ==
            if n == w then FactsOf(t, n).(link := Some(Link(dir, name))) else FactsOf(t, n)
  {
    UnhashFacts(t, refs, w, w);
    UnhashFacts(t, refs, w, dir);
    UnhashFacts(t, refs, w, n);
    HashFacts(Unhash(t, w), w, dir, name, n);
  }

  lemma MoveIs(t: Tree, w: Ino, v: Option<Ino>, dir: Ino, name: string)
    requires ParentIn(t, w) && (v.Some? ==> ParentIn(t, v.value))
    requires var t1 := if v.Some? then Unhash(t, v.value) else t;
             ParentIn(t1, w) && w in Unhash(t1, w) && dir in Unhash(t1, w)
    ensures var t1 := if v.Some? then Unhash(t, v.value) else t;
            Move(t, w, v, dir, name) == Hash(Unhash(t1, w), w, dir, name)
  {
  }

  /** Before that, a node that is in the way is unlinked. */
  lemma MoveFacts(t: Tree, refs: multiset<Ino>, w: Ino, v: Option<Ino>, dir: Ino, name: string, n: Ino)
    requires TreeOk(t, refs) && FactsOf(t, w).lookups > 0 && FactsOf(t, dir).lookups > 0
    requires v.Some? ==> v.value in t && v.value != w
    ensures ParentIn(t, w) && (v.Some? ==> ParentIn(t, v.value))
    ensures FactsOf(Move(t, w, v, dir, name), n) ==
            if n == w then FactsOf(t, n).(link := Some(Link(dir, name)))
            else if v == Some(n) then FactsOf(t, n).(link := None)
            else FactsOf(t, n)
  {
    UnhashFacts(t, refs, w, n);
    if v.Some? {
      UnhashFacts(t, refs, v.value, n);
      UnhashFacts(t, refs, v.value, w);
      UnhashFacts(t, refs, v.value, dir);
      RelinkFacts(Unhash(t, v.value), refs, w, dir, name, n);
    } else {
      RelinkFacts(t, refs, w, dir, name, n);
    }
    MoveIs(t, w, v, dir, name);
  }

  lemma ForgetFacts(t: Tree, refs: multiset<Ino>, m: Ino, k: nat, n: Ino)
    requires TreeOk(t, refs) && m in t && m != ROOT && 0 < k <= t[m].nlookup
    ensures ParentIn(t, m) && (t[m].link.Some? ==> t[m].link.value.parent != m)
    ensures FactsOf(Forget(t, m, k), n) ==
            if n != m then FactsOf(t, n)
            else Facts(if k == t[m].nlookup then None else t[m].link, t[m].nlookup - k)
  {
    if t[m].link.Some? { ParentLookups(t, refs, m); }
    if k == t[m].nlookup {
      var t1 := t[m := t[m].(nlookup := 0)];
      if t1[m].link.Some? {
        UnrefFacts(t1[m := t1[m].(link := None)], t1[m].link.value.parent, n);
        UnrefFacts(t1[m := t1[m].(link := None)], t1[m].link.value.parent, m);
      }
      UnhashKeepsNode(t1, m);
      UnrefFacts(Unhash(t1, m), m, n);
    }
  }

  lemma UnhashKeepsNode(t: Tree, m: Ino)
    requires ParentIn(t, m) && (t[m].link.Some? ==> t[m].link.value.parent != m)
    ensures m in Unhash(t, m) && Unhash(t, m)[m] == t[m].(link := None)
  {
  }

  lemma FindFacts(t: Tree, r: Request, id: Ino, n: Ino)
    requires r.dir in t && id !in t
    ensures var a, f := Answer(t, r, id), FactsOf(t, n);
            FactsOf(Find(t, r.dir, r.name, id), n) ==
            Facts(if n == id && a == id then Some(Link(r.dir, r.name.value)) else f.link, f.lookups + if n == a then 1
              else 0)
  {
  }

  // ----- Every step

  /** The name and the lookups the operation is to give to `n`. */
  ghost function FactsAfter(s: State, ev: Event, n: Ino): Facts
    requires Enabled(s, ev)
  {
    Facts(LinkAfter(s, ev, n), FactsOf(s.t, n).lookups + Gained(s, ev, n))
  }

  /** Every step gives each node the name and the lookups the operation is to give it. */
  lemma StepFacts(s: State, ev: Event, n: Ino)
    requires Inv(s) && Enabled(s, ev) && Defined(s, ev)
    ensures FactsOf(Next(s, ev).t, n) == FactsAfter(s, ev, n)
  {
    match ev
    case FindNode(i, id) => FoundFacts(s, i, id, n);
    case ForgetNode(m, k) => ForgottenFacts(s, m, k, n);
    case RemoveNode(_) => ChangeFacts(s, ev, n);
    case RenameNode(_, _) => ChangeFacts(s, ev, n);
    case HideNode(_, _) => ChangeFacts(s, ev, n);
    case _ => LockFacts(s, ev, n);
  }

  /** Changes of names leave the lookups alone. */
  lemma ChangeFacts(s: State, ev: Event, n: Ino)
    requires Inv(s) && Enabled(s, ev) && Defined(s, ev) && (ev.RemoveNode? || ev.RenameNode? || ev.HideNode?)
    ensures FactsOf(Next(s, ev).t, n) == FactsOf(s.t, n).(link := LinkAfter(s, ev, n)) == FactsAfter(s, ev, n)
  {
    match ev
    case RemoveNode(i) => RemoveFacts(s, i, n);
    case RenameNode(i, j) => RenameFacts(s, i, j, n);
    case HideNode(i, hidden) => HideFacts(s, i, hidden, n);
  }

  /** Locking, unlocking and references change neither names nor lookups. */
  lemma LockFacts(s: State, ev: Event, n: Ino)
    requires Inv(s) && Enabled(s, ev) && Defined(s, ev)
    requires ev.Begin? || ev.Retry? || ev.Free? || ev.DotHold? || ev.DotDrop?
    ensures FactsOf(Next(s, ev).t, n) == FactsOf(s.t, n) == FactsAfter(s, ev, n)
  {
    match ev
    case Begin(op) => AcquireFacts(s, ev, op, n);
    case Retry(i) => AcquireFacts(s, ev, s.queue[i], n);
    case Free(i) => FreeFacts(s, i, n);
    case DotHold(m) => HoldFacts(s, m, n);
    case DotDrop(m) => DropFacts(s, m, n);
  }

  lemma FoundFacts(s: State, i: nat, id: Ino, n: Ino)
    requires Inv(s) && Enabled(s, FindNode(i, id)) && Defined(s, FindNode(i, id))
    ensures FactsOf(Next(s, FindNode(i, id)).t, n) == FactsAfter(s, FindNode(i, id), n)
  {
    var r := s.holds[i].req;
    FindFacts(s.t, r, id, n);
    FoundLink(s, i, id, n);
  }

  lemma FoundLink(s: State, i: nat, id: Ino, n: Ino)
    requires Enabled(s, FindNode(i, id)) && s.holds[i].req.dir in s.t
    ensures var r, a := s.holds[i].req, Answer(s.t, s.holds[i].req, id);
            LinkAfter(s, FindNode(i, id), n) ==
            if n == id && a == id then Some(Link(r.dir, r.name.value)) else FactsOf(s.t, n).link
  {
  }

  lemma ForgottenFacts(s: State, m: Ino, k: nat, n: Ino)
    requires Inv(s) && Enabled(s, ForgetNode(m, k)) && Defined(s, ForgetNode(m, k))
    ensures FactsOf(Next(s, ForgetNode(m, k)).t, n) == FactsAfter(s, ForgetNode(m, k), n)
  {
    ForgetFacts(s.t, s.dots, m, k, n);
  }

  lemma HoldFacts(s: State, m: Ino, n: Ino)
    requires Enabled(s, DotHold(m)) && Defined(s, DotHold(m))
    ensures FactsOf(Next(s, DotHold(m)).t, n) == FactsOf(s.t, n)
  {
  }

  lemma AcquireFacts(s: State, ev: Event, op: Op, n: Ino)
    requires Inv(s) && Enabled(s, ev) && Defined(s, ev) && (ev == Begin(op) || (ev.Retry? && op == s.queue[ev.i]))
    ensures FactsOf(Next(s, ev).t, n) == FactsOf(s.t, n)
  {
    AcquireInv(s.t, s.holds, op);
    AcquireFields(s, ev, op);
    SameFacts(s.t, Acquire(s.t, op).0, n);
  }

  lemma FreeFacts(s: State, i: nat, n: Ino)
    requires Enabled(s, Free(i)) && Defined(s, Free(i))
    ensures FactsOf(Next(s, Free(i)).t, n) == FactsOf(s.t, n)
  {
  }

  lemma DropFacts(s: State, m: Ino, n: Ino)
    requires Inv(s) && Enabled(s, DotDrop(m)) && Defined(s, DotDrop(m))
    ensures FactsOf(Next(s, DotDrop(m)).t, n) == FactsOf(s.t, n)
  {
    assert s.dots - multiset{m} + multiset{m} == s.dots;
    UnrefTree(s.t, s.dots - multiset{m}, m);
    UnrefFacts(s.t, m, n);
  }

  lemma HeldDir(s: State, i: nat)
    requires Inv(s) && i < |s.holds|
    ensures FactsOf(s.t, s.holds[i].req.dir).lookups > 0
  {
    assert HoldOk(s.t, s.holds[i]);
    ChainIn(s.t, s.holds[i].req.dir, s.holds[i].chain);
    HeldLookups(s.t, s.holds, i, s.holds[i].req.dir);
  }

  lemma RemoveFacts(s: State, i: nat, n: Ino)
    requires Inv(s) && Enabled(s, RemoveNode(i)) && Defined(s, RemoveNode(i))
    ensures FactsOf(Next(s, RemoveNode(i)).t, n) == FactsOf(s.t, n).(link := LinkAfter(s, RemoveNode(i), n))
  {
    var w := Named(s, i);
    if w.Some? { UnhashFacts(s.t, s.dots, w.value, n); }
  }

  lemma RenameFacts(s: State, i: nat, j: nat, n: Ino)
    requires Inv(s) && Enabled(s, RenameNode(i, j)) && Defined(s, RenameNode(i, j))
    ensures FactsOf(Next(s, RenameNode(i, j)).t, n) == FactsOf(s.t, n).(link := LinkAfter(s, RenameNode(i, j), n))
  {
    var w, v, to := Named(s, i), Named(s, j), s.holds[j].req;
    if w.Some? {
      OwnLocked(s, i);
      OneWriter(s.t, s.holds, i, j, w.value);
      HeldDir(s, j);
      MoveFacts(s.t, s.dots, w.value, v, to.dir, to.name.value, n);
    }
  }

  lemma HideFacts(s: State, i: nat, hidden: string, n: Ino)
    requires Inv(s) && Enabled(s, HideNode(i, hidden)) && Defined(s, HideNode(i, hidden))
    ensures FactsOf(Next(s, HideNode(i, hidden)).t, n) == FactsOf(s.t, n).(link := LinkAfter(s, HideNode(i, hidden), n))
  {
    var w, dir := Named(s, i), s.holds[i].req.dir;
    HideFields(s, i, hidden);
    if w.Some? && Lookup(s.t, dir, hidden).None? {
      OwnLocked(s, i);
      HeldDir(s, i);
      MoveFacts(s.t, s.dots, w.value, None, dir, hidden, n);
    }
  }

  // ----- Renames

  /** What is found under a name after a step is the node that has it. */
  lemma FoundIff(t: Tree, dir: Ino, name: string, n: Ino)
    requires KeysUnique(t)
    ensures Lookup(t, dir, name) == Some(n) <==> FactsOf(t, n).link == Some(Link(dir, name))
  {
  }

  /** `n` is what its new name leads to, and nothing else has changed its name but a node that was there. */
  ghost predicate Moved(t: Tree, t': Tree, n: Ino, from: Link, to: Link) {
    && Lookup(t', to.parent, to.name) == Some(n)
    && (from != to ==> Lookup(t', from.parent, from.name) == None)
    && (forall m :: FactsOf(t', m).lookups == FactsOf(t, m).lookups)
    && (forall m :: m != n ==>
          FactsOf(t', m).link == if FactsOf(t, m).link == Some(to) then None else FactsOf(t, m).link)
  }

  /** In every run, a rename that finds its node moves it to the new name, and unlinks what was there. */
  lemma RenameMoves(run: seq<State>, evs: seq<Event>, k: nat)
    requires IsRun(run, evs) && k < |evs| && evs[k].RenameNode?
    ensures var s := run[k];
            && evs[k].i < |s.holds| && evs[k].j < |s.holds|
            && var from, to := s.holds[evs[k].i].req, s.holds[evs[k].j].req;
            && from.name.Some? && to.name.Some?
            && match Lookup(s.t, from.dir, from.name.value)
               case None => run[k + 1] == s
               case Some(n) =>
                 Moved(s.t, run[k + 1].t, n, Link(from.dir, from.name.value), Link(to.dir, to.name.value))
  {
    InRun(run, evs, k);
    var s, ev := run[k], evs[k];
    var from, to := s.holds[ev.i].req, s.holds[ev.j].req;
    var w := Named(s, ev.i);
    if w.Some? {
      RenameLinks(s, ev.i, ev.j, w.value, Link(to.dir, to.name.value));
      MovedByFacts(s, ev, w.value, Link(from.dir, from.name.value), Link(to.dir, to.name.value));
    }
  }

  lemma RenameLinks(s: State, i: nat, j: nat, n: Ino, to: Link)
    requires KeysUnique(s.t) && Enabled(s, RenameNode(i, j)) && Named(s, i) == Some(n)
    requires to == Link(s.holds[j].req.dir, s.holds[j].req.name.value)
    ensures forall m :: LinkAfter(s, RenameNode(i, j), m) ==
              if m == n then Some(to) else if FactsOf(s.t, m).link == Some(to) then None else FactsOf(s.t, m).link
  {
    forall m
      ensures LinkAfter(s, RenameNode(i, j), m) ==
              if m == n then Some(to) else if FactsOf(s.t, m).link == Some(to) then None else FactsOf(s.t, m).link
    {
      FoundIff(s.t, to.parent, to.name, m);
    }
  }

  /** So does hiding, unless the hidden name is taken; then nothing changes. */
  lemma HideMoves(run: seq<State>, evs: seq<Event>, k: nat)
    requires IsRun(run, evs) && k < |evs| && evs[k].HideNode?
    ensures var s := run[k];
            && evs[k].i < |s.holds|
            && var from, hidden := s.holds[evs[k].i].req, evs[k].hidden;
            && from.name.Some?
            && var w := Lookup(s.t, from.dir, from.name.value);
            if w.None? || Lookup(s.t, from.dir, hidden).Some? then run[k + 1] == s
            else Moved(s.t, run[k + 1].t, w.value, Link(from.dir, from.name.value), Link(from.dir, hidden))
  {
    InRun(run, evs, k);
    var s, ev := run[k], evs[k];
    var from := s.holds[ev.i].req;
    var w := Named(s, ev.i);
    PathLockRuns.HideFields(s, ev.i, ev.hidden);
    if w.Some? && Lookup(s.t, from.dir, ev.hidden).None? {
      HideLinks(s, ev.i, ev.hidden, w.value);
      MovedByFacts(s, ev, w.value, Link(from.dir, from.name.value), Link(from.dir, ev.hidden));
    }
  }

  lemma HideLinks(s: State, i: nat, hidden: string, n: Ino)
    requires Enabled(s, HideNode(i, hidden)) && Named(s, i) == Some(n) && Lookup(s.t, s.holds[i].req.dir, hidden).None?
    ensures var to := Link(s.holds[i].req.dir, hidden);
            forall m :: LinkAfter(s, HideNode(i, hidden), m) ==
              if m == n then Some(to) else if FactsOf(s.t, m).link == Some(to) then None else FactsOf(s.t, m).link
  {
  }

  lemma InRun(run: seq<State>, evs: seq<Event>, k: nat)
    requires IsRun(run, evs) && k < |evs|
    ensures Inv(run[k]) && Enabled(run[k], evs[k]) && Defined(run[k], evs[k]) && run[k + 1] == Next(run[k], evs[k])
    ensures Inv(run[k + 1])
  {
    assert Steps(run[k], evs[k], run[k + 1]);
    RunInv(run, evs, k);
    RunInv(run, evs, k + 1);
  }

  lemma MovedByFacts(s: State, ev: Event, n: Ino, from: Link, to: Link)
    requires Inv(s) && Enabled(s, ev) && Defined(s, ev) && Inv(Next(s, ev)) && (ev.RenameNode? || ev.HideNode?)
    requires FactsOf(s.t, n).link == Some(from)
    requires forall m :: LinkAfter(s, ev, m) ==
               if m == n then Some(to) else if FactsOf(s.t, m).link == Some(to) then None else FactsOf(s.t, m).link
    ensures Moved(s.t, Next(s, ev).t, n, from, to)
  {
    var t, t' := s.t, Next(s, ev).t;
    forall m
      ensures FactsOf(t', m) == FactsOf(t, m).(link := LinkAfter(s, ev, m))
    {
      StepFacts(s, ev, m);
    }
    MovedWhen(t, t', n, from, to);
  }

  lemma MovedWhen(t: Tree, t': Tree, n: Ino, from: Link, to: Link)
    requires KeysUnique(t) && KeysUnique(t') && FactsOf(t, n).link == Some(from)
    requires forall m :: FactsOf(t', m) == FactsOf(t, m).(
               link := if m == n then Some(to) else if FactsOf(t, m).link == Some(to) then None else FactsOf(t, m).link)
    ensures Moved(t, t', n, from, to)
  {
    FoundIff(t', to.parent, to.name, n);
    if from != to {
      var x := Lookup(t', from.parent, from.name);
      if x.Some? {
        FoundIff(t, from.parent, from.name, n);
        FoundIff(t, from.parent, from.name, x.value);
      }
    }
  }

  // ----- Grants

  /** A hold for a request: it is for that path, and for the node of that name if it is to change it. */
  ghost predicate HoldFor(t: Tree, r: Request, h: Hold) {
    h.req == r && h.w == if r.wr && r.name.Some? then Lookup(t, r.dir, r.name.value) else None
  }

  /** What an attempt adds: nothing, or a hold for each path it asks for, in order. */
  ghost predicate Grants(t: Tree, op: Op, hs: seq<Hold>) {
    || hs == []
    || (op.second.None? && |hs| == 1 && HoldFor(t, op.first, hs[0]))
    || (op.second.Some? && |hs| == 2 && HoldFor(t, op.first, hs[0]) && HoldFor(t, op.second.value, hs[1]))
  }

  /** In every run an attempt gives out just what was asked for, and waits, or is over. */
  lemma GrantedAsAsked(run: seq<State>, evs: seq<Event>, k: nat)
    requires IsRun(run, evs) && k < |evs| && (evs[k].Begin? || evs[k].Retry?)
    ensures var s, s' := run[k], run[k + 1];
            && (evs[k].Retry? ==> evs[k].i < |s.queue|)
            && var op := if evs[k].Begin? then evs[k].op else s.queue[evs[k].i];
            && |s.holds| <= |s'.holds| && s'.holds[..|s.holds|] == s.holds
            && Grants(s.t, op, s'.holds[|s.holds|..])
            && (s'.holds != s.holds ==> s'.queue == if evs[k].Begin? then s.queue else Without(s.queue, evs[k].i))
            && (s'.holds == s.holds ==>
                  s'.queue in if evs[k].Begin? then {s.queue, s.queue + [op]}
                    else {s.queue, Without(s.queue, evs[k].i)})
  {
    InRun(run, evs, k);
    var s, ev := run[k], evs[k];
    var op := if ev.Begin? then ev.op else s.queue[ev.i];
    AcquireGives(s.t, op);
    AcquireFields(s, ev, op);
    AcquireWaits(s, ev, op);
    var r := Acquire(s.t, op).1;
    if r.Held? {
      assert (s.holds + r.holds)[|s.holds|..] == r.holds;
    } else {
      assert s.holds[|s.holds|..] == [];
    }
  }

  function Without(q: seq<Op>, i: nat): seq<Op>
    requires i < |q|
  {
    q[..i] + q[i + 1..]
  }

  lemma AcquireGives(t: Tree, op: Op)
    requires Walkable(t, op) && KeysUnique(t)
    ensures var r := Acquire(t, op).1; r.Held? ==> r.holds != [] && Grants(t, op, r.holds)
  {
    var c := ChainOf(t, op.first.dir);
    var (t1, o) := Try(t, op.first, c, op.ticket);
    if o.Granted? && op.second.Some? {
      TryShape(t, op.first, c, op.ticket);
      PathTickets.TargetSame(t, t1, op.second.value);
    }
  }

  lemma AcquireWaits(s: State, ev: Event, op: Op)
    requires Enabled(s, ev) && Defined(s, ev) && (ev == Begin(op) || (ev.Retry? && op == s.queue[ev.i]))
    ensures var r, s' := Acquire(s.t, op).1, Next(s, ev);
            s'.queue == if ev.Begin? then (if r.Wait? then s.queue + [op] else s.queue)
                        else (if r.Wait? then s.queue else Without(s.queue, ev.i))
  {
  }

  // ----- Lookups

  /** The lookups of `n` answered in the first `k` steps, less those given up; the root starts with one. */
  ghost function Lookups(run: seq<State>, evs: seq<Event>, k: nat, n: Ino): int
    requires k <= |evs| && k <= |run|
  {
    if k == 0 then if n == ROOT then 1 else 0
    else Lookups(run, evs, k - 1, n) + Gained(run[k - 1], evs[k - 1], n)
  }

  /** In every run a node's nlookup is that number, and a node that is not there has none. */
  lemma LookupsCounted(run: seq<State>, evs: seq<Event>, k: nat, n: Ino)
    requires IsRun(run, evs) && k < |run|
    ensures var t := run[k].t; Lookups(run, evs, k, n) == if n in t then t[n].nlookup else 0
  {
    forall h | 0 <= h < k
      ensures Grows(run, evs, h, n)
    {
      LookupsNext(run, evs, h, n);
    }
    StartFacts(run, evs, n);
    SumUp(run, evs, k, n);
  }

  ghost predicate Grows(run: seq<State>, evs: seq<Event>, h: nat, n: Ino)
    requires h < |evs| && |run| == |evs| + 1
  {
    FactsOf(run[h + 1].t, n).lookups == FactsOf(run[h].t, n).lookups + Gained(run[h], evs[h], n)
  }

  lemma {:induction false} SumUp(run: seq<State>, evs: seq<Event>, k: nat, n: Ino)
    requires k < |run| == |evs| + 1 && FactsOf(run[0].t, n).lookups == (if n == ROOT then 1 else 0)
    requires forall h | 0 <= h < k :: Grows(run, evs, h, n)
    ensures Lookups(run, evs, k, n) == FactsOf(run[k].t, n).lookups
    decreases k
  {
    if k > 0 {
      SumUp(run, evs, k - 1, n);
      assert Grows(run, evs, k - 1, n);
    }
  }

  lemma StartFacts(run: seq<State>, evs: seq<Event>, n: Ino)
    requires IsRun(run, evs)
    ensures FactsOf(run[0].t, n).lookups == if n == ROOT then 1 else 0
  {
  }

  lemma LookupsNext(run: seq<State>, evs: seq<Event>, k: nat, n: Ino)
    requires IsRun(run, evs) && k < |evs|
    ensures Grows(run, evs, k, n)
  {
    InRun(run, evs, k);
    StepFacts(run[k], evs[k], n);
  }

  /** Hence a node the kernel knows is there, under every interleaving. */
  lemma KnownStays(run: seq<State>, evs: seq<Event>, k: nat, n: Ino)
    requires IsRun(run, evs) && k < |run|
    ensures Lookups(run, evs, k, n) >= 0 && (Lookups(run, evs, k, n) > 0 ==> n in run[k].t)
  {
    LookupsCounted(run, evs, k, n);
  }

  // ----- What a path means

  /** Looking up name after name. */
  ghost function Resolve(t: Tree, from: Ino, names: seq<string>): Option<Ino>
    decreases |names|
  {
    if names == [] then Some(from)
    else match Lookup(t, from, names[0])
      case None => None
      case Some(n) => Resolve(t, n, names[1..])
  }

  lemma {:induction false} ResolveMore(t: Tree, from: Ino, names: seq<string>, last: string)
    ensures Resolve(t, from, names + [last]) ==
            match Resolve(t, from, names) case None => None case Some(n) => Lookup(t, n, last)
    decreases |names|
  {
    if names == [] {
      assert (names + [last])[1..] == [];
    } else {
      assert (names + [last])[1..] == names[1..] + [last];
      match Lookup(t, from, names[0])
      case None =>
      case Some(n) => ResolveMore(t, n, names[1..], last);
    }
  }

  /** The names met on the way up lead down again. */
  lemma {:induction false} NamesLead(t: Tree, d: Ino, c: seq<Ino>)
    requires IsChain(t, d, c) && c[|c| - 1] == ROOT && KeysUnique(t) && t[d].link.Some? == (d != ROOT)
    requires ROOT in t && t[ROOT].link.None?
    ensures Resolve(t, ROOT, Names(t, d, c)) == Some(d)
    decreases |c|
  {
    if d != ROOT {
      var link := t[d].link.value;
      var up := c[1..];
      assert up[|up| - 1] == ROOT;
      ParentOnWay(t, link.parent, up);
      NamesLead(t, link.parent, up);
      ResolveMore(t, ROOT, Names(t, link.parent, up), link.name);
      FoundIff(t, link.parent, link.name, d);
    }
  }

  lemma ParentOnWay(t: Tree, d: Ino, c: seq<Ino>)
    requires IsChain(t, d, c) && c[|c| - 1] == ROOT && ROOT in t && t[ROOT].link.None?
    ensures t[d].link.Some? == (d != ROOT)
  {
    if |c| == 1 { assert c[0] == ROOT; } else { assert d != ROOT && t[d].link.Some?; }
  }

  predicate ProperNames(ns: seq<string>) {
    forall n | n in ns :: n != "" && Symlink.NoSlash(n)
  }

  /** A path is taken apart into its names. */
  lemma {:induction false} JoinedApart(ns: seq<string>, rest: string)
    requires ProperNames(ns) && Symlink.AtEnd(rest)
    ensures Symlink.Components(Joined(ns) + rest) == ns + Symlink.Components(rest)
    decreases |ns|
  {
    if ns == [] {
      assert Joined(ns) + rest == rest && ns + Symlink.Components(rest) == Symlink.Components(rest);
    } else {
      var init, last := ns[..|ns| - 1], ns[|ns| - 1];
      assert last in ns && forall n | n in init :: n in ns;
      JoinedApart(init, "/" + (last + rest));
      LastJoined(ns, rest);
      SlashName(last, rest);
      LastOf(ns, Symlink.Components(rest));
    }
  }

  lemma LastOf(ns: seq<string>, more: seq<string>)
    requires ns != []
    ensures ns[..|ns| - 1] + ([ns[|ns| - 1]] + more) == ns + more
  {
  }

  lemma LastJoined(ns: seq<string>, rest: string)
    requires ns != []
    ensures Joined(ns) + rest == Joined(ns[..|ns| - 1]) + ("/" + (ns[|ns| - 1] + rest))
  {
    Regroup(Joined(ns[..|ns| - 1]), "/", ns[|ns| - 1], rest);
  }

  lemma Regroup(a: string, b: string, c: string, d: string)
    ensures a + b + c + d == a + (b + (c + d))
  {
  }

  lemma SlashName(name: string, rest: string)
    requires name != "" && Symlink.NoSlash(name) && Symlink.AtEnd(rest)
    ensures Symlink.Components("/" + (name + rest)) == [name] + Symlink.Components(rest)
  {
    var tail := "/" + (name + rest);
    assert tail[0] == '/' && tail[1..] == name + rest;
    Symlink.TakeComponent(name, rest);
  }

  /**
   In every run, a path that is held, taken apart at its slashes and looked up name by name from
   the root, leads to the directory it was asked for, and then on to the name.
   */
  lemma HeldPathLeads(run: seq<State>, evs: seq<Event>, k: nat, i: nat)
    requires IsRun(run, evs) && k < |run| && i < |run[k].holds|
    ensures var t, h := run[k].t, run[k].holds[i];
            exists names :: Resolve(t, ROOT, names) == Some(h.req.dir)
              && (ProperNames(names + Last(h.req.name)) ==> Symlink.Components(h.path) == names + Last(h.req.name))
  {
    RunInv(run, evs, k);
    var t, h := run[k].t, run[k].holds[i];
    assert HoldOk(t, h);
    var names := Names(t, h.req.dir, h.chain);
    ParentOnWay(t, h.req.dir, h.chain);
    NamesLead(t, h.req.dir, h.chain);
    if ProperNames(names + Last(h.req.name)) { PathApart(names + Last(h.req.name)); }
  }

  lemma PathApart(ns: seq<string>)
    requires ProperNames(ns)
    ensures Symlink.Components(PathString(ns)) == ns
  {
    JoinedApart(ns, "");
    assert Joined(ns) + "" == Joined(ns) && ns + [] == ns;
    if ns == [] { assert "/"[1..] == ""; }
  }
}
