/**
 Open files share one handle on the daemon per node: later opens reuse it, or replace it by
 one with more rights, and the last close gives it up.  A restarted daemon knows none of the
 handles of the session before.
 */
module Handles {
  import opened Wrappers

  type Fid = int

  /** FUSE_FID_UNUSED. */
  const UNUSED: Fid := 0xffff_ffff_ffff_ffff

  datatype VType = VNON | VREG | VDIR | VOTHER

  datatype Rights = Rights(read: bool, write: bool)

  datatype Flag = Flag(read: bool, write: bool, trunc: bool)

  /** What goes over the wire, and the end of a session with all its handles. */
  datatype Wire = Opened(fid: Fid, kind: VType, rights: Rights) | Closed(fid: Fid, kind: VType) | Restarted

  datatype Handle = Handle(kind: VType, rights: Rights)

  /**
   What the daemon has open after a conversation; nothing makes sense after a close of a
   handle that is not open, or not of that kind, or after a handle is given out twice.
   */
  function Replay(log: seq<Wire>): Option<map<Fid, Handle>>
    decreases |log|
  {
    if log == [] then Some(map[])
    else
      var before := Replay(log[..|log| - 1]);
      if before.None? then None else Hear(before.value, log[|log| - 1])
  }

  function Hear(open: map<Fid, Handle>, w: Wire): Option<map<Fid, Handle>> {
    match w
    case Opened(fid, kind, rights) => if fid in open then None else Some(open[fid := Handle(kind, rights)])
    case Closed(fid, kind) => if fid in open && open[fid].kind == kind then Some(open - {fid}) else None
    case Restarted => Some(map[])
  }

  lemma ReplayMore(log: seq<Wire>, w: Wire)
    ensures Replay(log + [w]) == if Replay(log).None? then None else Hear(Replay(log).value, w)
  {
    assert (log + [w])[..|log|] == log;
  }

  datatype Error = NoError | EACCES | DaemonError

  /** The open-file part of a node, and whom it talks to: the session's generation and the wire. */
  class Node {
    var fid: Fid
    var fidrefs: nat
    var ovtype: VType
    var rights: Rights
    var genid: nat
    var session: nat
    var log: seq<Wire>

    /** The opens that have not been closed. */
    ghost var held: seq<Flag>

    /** All opens, closed or not, since the node was last closed for good. */
    ghost var since: seq<Flag>

    static predicate Writes(f: Flag) {
      f.write || f.trunc
    }

    /** What a regular file's handle must allow for an open. */
    static predicate Covers(r: Rights, f: Flag) {
      (f.read ==> r.read) && (f.write || f.trunc ==> r.write)
    }

    /** An open that cannot use the handle there is. */
    predicate NeedsHandle(f: Flag)
      reads this
    {
      fidrefs == 0 || genid != session || !Covers(rights, f)
    }

    predicate Denied(vtype: VType)
      reads this
    {
      vtype !in {VREG, VDIR} || (ovtype != VNON && ovtype != vtype)
    }

    /** What the daemon should have open for the node. */
    function OnWire(): map<Fid, Handle>
      reads this
    {
      if fidrefs > 0 && genid == session then map[fid := Handle(ovtype, rights)] else map[]
    }

    ghost predicate Valid()
      reads this
    {
      && fidrefs == |held| && genid <= session
      && ovtype in {VNON, VREG, VDIR} && (ovtype == VNON <==> fidrefs == 0)
      && (fidrefs == 0 <==> fid == UNUSED)
      && (ovtype == VDIR ==> rights == Rights(true, false))
      && (ovtype == VREG ==> forall f | f in held :: Covers(rights, f))
      && (ovtype == VREG ==> rights == Rights(true, exists f :: f in since && Writes(f)))
      && (fidrefs == 0 ==> since == [])
      && Replay(log) == Some(OnWire())
    }

    constructor ()
      ensures Valid() && held == [] && log == []
    {
      fid, fidrefs, ovtype, rights := UNUSED, 0, VNON, Rights(false, false);
      genid, session, log, held, since := 0, 0, [], [], [];
    }

    method Say(w: Wire)
      modifies `log
      ensures log == old(log) + [w]
      ensures Replay(log) == if old(Replay(log)).None? then None else Hear(old(Replay(log)).value, w)
    {
      ReplayMore(log, w);
      log := log + [w];
    }

    static lemma SinceMore(since: seq<Flag>, flag: Flag)
      ensures (exists f :: f in since + [flag] && Writes(f)) <==> (exists f :: f in since && Writes(f)) || Writes(flag)
    {
      if f :| f in since && Writes(f) { assert f in since + [flag]; }
      if Writes(flag) { assert flag in since + [flag]; }
    }

    /** The daemon dies and comes back; the node finds out by the session's generation. */
    method Restart()
      requires Valid()
      modifies `session, `log
      ensures Valid() && held == old(held) && since == old(since)
    {
      Say(Restarted);
      session := session + 1;
    }

    /** Opens the node; `answer` is the handle the daemon would give. */
    method Open(vtype: VType, flag: Flag, answer: Option<Fid>) returns (error: Error)
      requires Valid() && (answer.Some? ==> answer.value != UNUSED && answer.value !in OnWire())
      modifies this
      ensures Valid() && session == old(session)
      ensures error == EACCES <==> old(Denied(vtype))
      ensures error == DaemonError <==> !old(Denied(vtype)) && old(NeedsHandle(flag)) && answer.None?
      ensures error == NoError ==> held == old(held) + [flag] && ovtype == vtype && genid == session
      ensures since == if error == NoError then old(since) + [flag] else old(since)
      ensures error != NoError ==> held == old(held) && fid == old(fid) && log == old(log)
      ensures error == NoError && !old(NeedsHandle(flag)) ==> fid == old(fid) && log == old(log)
      ensures error == NoError && old(NeedsHandle(flag)) ==>
        && fid == answer.value
        && log == old(log) + [Opened(fid, vtype, rights)] +
                  if old(OnWire()) == map[] then [] else [Closed(old(fid), vtype)]
    {
      if vtype != VREG && vtype != VDIR {
        return EACCES;
      }
      if ovtype != VNON && ovtype != vtype {
        return EACCES;
      }
      var write := flag.write || flag.trunc;
      if fidrefs > 0 && genid == session {
        var upgrade := false;
        if write && !rights.write {
          upgrade := true;
        }
        if flag.read && !rights.read {
          upgrade := true;
        }
        if !upgrade {
          fidrefs := fidrefs + 1;
          held, since := held + [flag], since + [flag];
          SinceMore(old(since), flag);
          return NoError;
        }
      }
      var asked := if fidrefs > 0 then rights else Rights(false, false);
      asked := Rights(true, asked.write || write);
      if vtype == VDIR {
        asked := Rights(true, false);
      }
      if answer.None? {
        return DaemonError;
      }
      error := NoError;
      SinceMore(since, flag);
      NewHandle(vtype, flag, answer.value, asked);
      if ovtype == VNON {
        ovtype := vtype;
      }
    }

    /** The node takes a new handle, and the one it replaces in the same session is closed. */
    method NewHandle(vtype: VType, ghost flag: Flag, newFid: Fid, asked: Rights)
      requires Valid() && newFid !in OnWire() && (ovtype != VNON ==> ovtype == vtype)
      modifies this
      ensures fid == newFid && genid == session == old(session) && rights == asked && ovtype == old(ovtype)
      ensures fidrefs == old(fidrefs) + 1 && held == old(held) + [flag] && since == old(since) + [flag]
      ensures Replay(log) == Some(map[newFid := Handle(vtype, asked)])
      ensures log == old(log) + [Opened(newFid, vtype, asked)] +
                     if old(OnWire()) == map[] then [] else [Closed(old(fid), vtype)]
    {
      Say(Opened(newFid, vtype, asked));
      var oldfid, oldgenid := fid, genid;
      fid, genid, rights := newFid, session, asked;
      fidrefs := fidrefs + 1;
      held, since := held + [flag], since + [flag];
      if fidrefs > 1 && oldgenid == session {
        ghost var open := old(OnWire());
        assert oldfid in open && open[newFid := Handle(vtype, asked)] - {oldfid} == map[newFid := Handle(vtype, asked)];
        Say(Closed(oldfid, vtype));
      }
    }

    /** One open less; with the last the handle is closed, as the kind it was opened. */
    method ReleFid(ghost i: nat)
      requires Valid() && i < |held|
      modifies this
      ensures Valid() && session == old(session) && held == old(held)[..i] + old(held)[i + 1..]
      ensures since == if held == [] then [] else old(since)
      ensures log == old(log) + if held == [] && old(OnWire()) != map[] then [Closed(old(fid), old(ovtype))] else []
    {
      ghost var held' := held[..i] + held[i + 1..];
      assert forall f | f in held' :: f in held;
      held := held';
      fidrefs := fidrefs - 1;
      if fidrefs > 0 {
        return;
      }
      since := [];
      var ofid := fid;
      fid := UNUSED;
      if ofid != UNUSED && genid == session {
        assert ofid in old(OnWire());
        Say(Closed(ofid, ovtype));
      }
      ovtype := VNON;
    }

    /** The last reference to the node goes away: opens nobody closed are closed all at once. */
    method Inactive()
      requires Valid()
      modifies this
      ensures Valid() && session == old(session) && held == [] && OnWire() == map[]
    {
      if fidrefs != 0 {
        fidrefs, held := 1, held[..1];
        ReleFid(0);
      }
    }
  }

  // ----- Whole runs

  datatype Event =
    | DoOpen(vtype: VType, flag: Flag, answer: Option<Fid>)
    | DoClose(i: nat)
    | DoInactive
    | DoRestart

  /** Any opens, closes, last releases and restarts in a row, closes only of what is open. */
  method Serve(n: Node, events: seq<Event>)
    requires n.Valid()
    modifies n
    ensures n.Valid()
    ensures Replay(n.log).Some?
    ensures forall fid | fid in Replay(n.log).value :: Replay(n.log).value == map[fid := Handle(n.ovtype, n.rights)]
    ensures Replay(n.log).value != map[] <==> n.fidrefs > 0 && n.genid == n.session
    ensures n.held == [] ==> Replay(n.log) == Some(map[])
    ensures Opens(n.log) == Closes(n.log) + Lost(n.log) + |Replay(n.log).value|
  {
    for k := 0 to |events|
      invariant n.Valid()
    {
      match events[k]
      case DoOpen(vtype, flag, answer) =>
        if answer.None? || (answer.value != UNUSED && answer.value !in n.OnWire()) {
          var error := n.Open(vtype, flag, answer);
        }
      case DoClose(i) =>
        if i < n.fidrefs { n.ReleFid(i); }
      case DoInactive => n.Inactive();
      case DoRestart => n.Restart();
    }
    Balance(n.log);
  }

  // ----- Opens and closes balance

  function Opens(log: seq<Wire>): nat {
    if log == [] then 0 else Opens(log[..|log| - 1]) + if log[|log| - 1].Opened? then 1 else 0
  }

  function Closes(log: seq<Wire>): nat {
    if log == [] then 0 else Closes(log[..|log| - 1]) + if log[|log| - 1].Closed? then 1 else 0
  }

  /** The handles that were open when a session ended. */
  function Lost(log: seq<Wire>): nat {
    if log == [] then 0
    else
      var init := log[..|log| - 1];
      Lost(init) + if log[|log| - 1].Restarted? && Replay(init).Some? then |Replay(init).value| else 0
  }

  /** Every handle that was opened has been closed once, was lost with its session, or is open. */
  lemma {:induction false} Balance(log: seq<Wire>)
    requires Replay(log).Some?
    ensures Opens(log) == Closes(log) + Lost(log) + |Replay(log).value|
    decreases |log|
  {
    if log != [] {
      var init, w := log[..|log| - 1], log[|log| - 1];
      Balance(init);
      if w.Closed? {
        var open := Replay(init).value;
        assert open == (open - {w.fid})[w.fid := open[w.fid]];
      }
    }
  }
}
