/**
 The argument parser: option groups are collected and put, joined, behind the program
 name; all other arguments stay in their order.  The caller's callback may keep, drop or
 refuse each of them.
 */
module OptionParser {
  import opened Wrappers
  import opened OptionLists

  /** What an argument is to the callback; the last two are settled without asking it. */
  datatype Key = OptKey | NonOptKey | KeepKey | DiscardKey

  datatype Verdict = Keep | Discard | Refuse

  type Proc = (string, Key) -> Verdict

  function Asked(proc: Proc, arg: string, key: Key): Verdict {
    match key
    case DiscardKey => Discard
    case KeepKey => Keep
    case _ => proc(arg, key)
  }

  datatype Result<+T> = Ok(value: T) | Err

  // ----- What the arguments are

  predicate IsGroup(arg: string) {
    |arg| >= 2 && arg[0] == '-' && arg[1] == 'o'
  }

  const SEPARATOR := "--"

  /** The arguments sorted: the options of all groups, the others before `--`, those after it. */
  datatype Sorted = Sorted(opts: seq<string>, args: seq<string>, rest: Option<seq<string>>)

  const GROUP := "-o"

  /** One argument put where it belongs. */
  function Placed(a: Sorted, arg: string): Sorted {
    if a.rest.Some? then a.(rest := Some(a.rest.value + [arg]))
    else if arg == SEPARATOR then a.(rest := Some([]))
    else if IsGroup(arg) then a.(opts := a.opts + Split(arg[2..]))
    else a.(args := a.args + [arg])
  }

  /** All of `args`; a group without text takes the next argument, and fails if there is none. */
  function Sort(a: Sorted, args: seq<string>): Result<Sorted>
    decreases |args|
  {
    if args == [] then Ok(a)
    else if a.rest.Some? || args[0] != GROUP then Sort(Placed(a, args[0]), args[1..])
    else if |args| == 1 then Err
    else Sort(a.(opts := a.opts + Split(args[1])), args[2..])
  }

  /** What the callback is asked about: an option, an argument before `--`, one after it. */
  datatype Kind = Opt | Arg | Rest

  function KeyOf(kind: Kind, s: string): Key {
    if kind == Rest || (kind == Arg && (s == "" || s[0] != '-')) then NonOptKey else OptKey
  }

  function Kept(proc: Proc, kind: Kind, l: seq<string>): (k: seq<string>)
    ensures forall s | s in k :: s in l && proc(s, KeyOf(kind, s)) == Keep
    decreases |l|
  {
    if l == [] then []
    else (if proc(l[0], KeyOf(kind, l[0])) == Keep then [l[0]] else []) + Kept(proc, kind, l[1..])
  }

  ghost predicate Accepted(proc: Proc, kind: Kind, l: seq<string>) {
    forall s | s in l :: proc(s, KeyOf(kind, s)) != Refuse
  }

  ghost predicate AllAccepted(proc: Proc, a: Sorted) {
    Accepted(proc, Opt, a.opts) && Accepted(proc, Arg, a.args) && (a.rest.Some? ==> Accepted(proc, Rest, a.rest.value))
  }

  /** What is kept of each. */
  function KeptOf(proc: Proc, a: Sorted): Sorted {
    Sorted(Kept(proc, Opt, a.opts), Kept(proc, Arg, a.args),
           if a.rest.Some? then Some(Kept(proc, Rest, a.rest.value)) else None)
  }

  /** The separator and what follows it. */
  function Tail(rest: Option<seq<string>>): seq<string> {
    if rest.None? then [] else [SEPARATOR] + rest.value
  }

  function WithGroup(group: Option<string>, args: seq<string>): seq<string> {
    if group.None? then args else [GROUP, group.value] + args
  }

  /** The arguments put together again; a separator with nothing to separate is left out. */
  function Output(name: string, a: Sorted): seq<string> {
    var rest := if a.opts == [] && a.rest == Some([]) then None else a.rest;
    [name] + WithGroup(AddAll(None, a.opts), a.args + Tail(rest))
  }

  const NOTHING := Sorted([], [], None)

  /** The whole parse.  No arguments at all are left alone. */
  ghost function Parsed(proc: Proc, argv: seq<string>): Result<seq<string>> {
    if argv == [] then Ok(argv)
    else
      var a := Sort(NOTHING, argv[1..]);
      if a.Err? || !AllAccepted(proc, a.value) then Err else Ok(Output(argv[0], KeptOf(proc, a.value)))
  }

  // ----- Facts about keeping

  lemma {:induction false} KeptAppend(proc: Proc, kind: Kind, a: seq<string>, b: seq<string>)
    ensures Kept(proc, kind, a + b) == Kept(proc, kind, a) + Kept(proc, kind, b)
    decreases |a|
  {
    if a == [] {
      assert a + b == b;
    } else {
      assert (a + b)[1..] == a[1..] + b;
      KeptAppend(proc, kind, a[1..], b);
    }
  }

  /** What was kept is kept again. */
  lemma {:induction false} KeptAgain(proc: Proc, kind: Kind, l: seq<string>)
    requires forall s | s in l :: proc(s, KeyOf(kind, s)) == Keep
    ensures Kept(proc, kind, l) == l
    decreases |l|
  {
    if l != [] {
      assert l[0] in l && forall s | s in l[1..] :: s in l;
      KeptAgain(proc, kind, l[1..]);
    }
  }

  lemma {:induction false} AddAllSome(opts: Option<string>, l: seq<string>)
    ensures AddAll(opts, l).None? <==> opts.None? && l == []
    decreases |l|
  {
    if l != [] { AddAllSome(Some(Add(opts, l[0], true)), l[1..]); }
  }

  // ----- Parsing the result again

  lemma {:induction false} SortArgs(done: Sorted, args: seq<string>, more: seq<string>)
    requires done.rest.None? && forall s | s in args :: s != SEPARATOR && !IsGroup(s)
    ensures Sort(done, args + more) == Sort(done.(args := done.args + args), more)
    decreases |args|
  {
    if args == [] {
      assert args + more == more && done.args + args == done.args;
    } else {
      assert args[0] in args && forall s | s in args[1..] :: s in args;
      assert (args + more)[1..] == args[1..] + more;
      assert done.args + [args[0]] + args[1..] == done.args + args;
      SortArgs(done.(args := done.args + [args[0]]), args[1..], more);
    }
  }

  lemma {:induction false} SortRest(done: Sorted, rest: seq<string>)
    requires done.rest.Some?
    ensures Sort(done, rest) == Ok(done.(rest := Some(done.rest.value + rest)))
    decreases |rest|
  {
    if rest == [] {
      assert done.rest.value + rest == done.rest.value;
    } else {
      assert done.rest.value + [rest[0]] + rest[1..] == done.rest.value + rest;
      SortRest(done.(rest := Some(done.rest.value + [rest[0]])), rest[1..]);
    }
  }

  /** Sorting puts neither a separator nor a group among the other arguments. */
  lemma {:induction false} SortedArgs(a: Sorted, args: seq<string>)
    requires forall s | s in a.args :: s != SEPARATOR && !IsGroup(s)
    ensures Sort(a, args).Ok? ==> forall s | s in Sort(a, args).value.args :: s != SEPARATOR && !IsGroup(s)
    decreases |args|
  {
    if args == [] {
    } else if a.rest.Some? || args[0] != GROUP {
      SortedArgs(Placed(a, args[0]), args[1..]);
    } else if |args| > 1 {
      SortedArgs(a.(opts := a.opts + Split(args[1])), args[2..]);
    }
  }

  /** The part behind the group, sorted. */
  lemma {:induction false} SortTail(opts: seq<string>, args: seq<string>, rest: Option<seq<string>>)
    requires forall s | s in args :: s != SEPARATOR && !IsGroup(s)
    ensures Sort(Sorted(opts, [], None), args + Tail(rest))
         == Ok(Sorted(opts, args, rest))
  {
    var tail := Tail(rest);
    SortArgs(Sorted(opts, [], None), args, tail);
    assert [] + args == args;
    if rest.Some? {
      assert tail[1..] == rest.value && [] + rest.value == rest.value;
      SortRest(Sorted(opts, args, Some([])), rest.value);
    }
  }

  /** What a second parse finds in the output of a first. */
  function Again(k: Sorted): Sorted {
    Sorted(if k.opts == [] then [] else Unpadded(k.opts), k.args,
           if k.opts == [] && k.rest == Some([]) then None else k.rest)
  }

  lemma {:induction false} OutputSorted(name: string, k: Sorted)
    requires forall s | s in k.args :: s != SEPARATOR && !IsGroup(s)
    ensures Sort(NOTHING, Output(name, k)[1..]) == Ok(Again(k))
  {
    var again, tail := Again(k), k.args + Tail(Again(k).rest);
    AddAllSome(None, k.opts);
    SortTail(again.opts, k.args, again.rest);
    BehindName(name, k);
    if k.opts != [] {
      SplitAdded(k.opts);
      SortGroup(AddAll(None, k.opts).value, tail);
    }
  }

  lemma {:induction false} BehindName(name: string, k: Sorted)
    ensures Output(name, k)[1..] == WithGroup(AddAll(None, k.opts), k.args + Tail(Again(k).rest))
  {
    assert ([name] + WithGroup(AddAll(None, k.opts), k.args + Tail(Again(k).rest)))[1..]
        == WithGroup(AddAll(None, k.opts), k.args + Tail(Again(k).rest));
  }

  lemma {:induction false} SortGroup(group: string, tail: seq<string>)
    ensures Sort(NOTHING, WithGroup(Some(group), tail)) == Sort(Sorted(Split(group), [], None), tail)
  {
    var args := WithGroup(Some(group), tail);
    assert args[2..] == tail && args[0] == GROUP && args[1] == group;
    assert [] + Split(group) == Split(group);
  }

  lemma {:induction false} OutputAgain(name: string, k: Sorted)
    ensures Output(name, Again(k)) == Output(name, k)
  {
    if k.opts != [] {
      Rebuilt(k.opts);
      SplitAdded(k.opts);
      AddAllSome(None, k.opts);
    }
  }

  lemma {:induction false} AgainKept(proc: Proc, a: Sorted)
    ensures AllAccepted(proc, Again(KeptOf(proc, a)))
    ensures KeptOf(proc, Again(KeptOf(proc, a))) == Again(KeptOf(proc, a))
  {
    var k := KeptOf(proc, a);
    var again := Again(k);
    assert forall s | s in again.opts :: s in k.opts;
    KeptAgain(proc, Opt, again.opts);
    KeptAgain(proc, Arg, again.args);
    if again.rest.Some? { KeptAgain(proc, Rest, again.rest.value); }
  }

  /** Parsing the arguments a parse has left changes nothing, and no longer fails. */
  lemma {:induction false} ParseIsIdempotent(proc: Proc, argv: seq<string>)
    requires Parsed(proc, argv).Ok?
    ensures Parsed(proc, Parsed(proc, argv).value) == Parsed(proc, argv)
  {
    if argv != [] {
      var a := Sort(NOTHING, argv[1..]).value;
      var k := KeptOf(proc, a);
      SortedArgs(NOTHING, argv[1..]);
      OutputSorted(argv[0], k);
      OutputAgain(argv[0], k);
      AgainKept(proc, a);
      assert Output(argv[0], k)[0] == argv[0];
    }
  }

  // ----- What is sorted where

  /** A group with its text attached. */
  lemma {:induction false} SortAttached(done: Sorted, text: string, more: seq<string>)
    requires done.rest.None? && text != ""
    ensures Sort(done, [GROUP + text] + more) == Sort(done.(opts := done.opts + Split(text)), more)
  {
    var args := [GROUP + text] + more;
    assert args[1..] == more && (GROUP + text)[2..] == text;
    assert (GROUP + text)[1] == 'o' && SEPARATOR[1] == '-';
  }

  /** A group with its text in the next argument, or without any. */
  lemma {:induction false} SortSpaced(done: Sorted, more: seq<string>)
    requires done.rest.None?
    ensures Sort(done, [GROUP] + more) ==
            if more == [] then Err else Sort(done.(opts := done.opts + Split(more[0])), more[1..])
  {
    var args := [GROUP] + more;
    if more != [] { assert args[1] == more[0] && args[2..] == more[1..]; }
  }

  /** Everything behind the first separator. */
  lemma {:induction false} SortBehind(done: Sorted, more: seq<string>)
    requires done.rest.None?
    ensures Sort(done, [SEPARATOR] + more) == Ok(done.(rest := Some(more)))
  {
    var args := [SEPARATOR] + more;
    assert args[1..] == more && SEPARATOR[1] != GROUP[1] && [] + more == more;
    SortRest(done.(rest := Some([])), more);
  }

  // ----- What the callback is asked

  /** An option of a group. */
  function AsOption(s: string): Key { OptKey }

  /** An argument before the separator: an option only if it starts with a dash. */
  function ByDash(s: string): Key {
    if s != "" && s[0] == '-' then OptKey else NonOptKey
  }

  /** An argument behind the separator. */
  function AsOther(s: string): Key { NonOptKey }

  ghost predicate Refuses(proc: Proc, key: string -> Key, l: seq<string>) {
    exists s :: s in l && proc(s, key(s)) == Refuse
  }

  /** The elements the callback keeps when it is asked under that key. */
  function Chosen(proc: Proc, key: string -> Key, l: seq<string>): seq<string>
    decreases |l|
  {
    if l == [] then []
    else if proc(l[0], key(l[0])) == Keep then [l[0]] + Chosen(proc, key, l[1..])
    else Chosen(proc, key, l[1..])
  }

  lemma {:induction false} KeptIsChosen(proc: Proc, kind: Kind, key: string -> Key, l: seq<string>)
    requires forall s :: key(s) == KeyOf(kind, s)
    ensures Kept(proc, kind, l) == Chosen(proc, key, l)
    ensures Accepted(proc, kind, l) <==> !Refuses(proc, key, l)
    decreases |l|
  {
    if l != [] { KeptIsChosen(proc, kind, key, l[1..]); }
  }

  /**
   The whole parse, by what the callback is asked: each option of a group as an option, each
   argument before the separator by its dash, each behind it as something else.
   */
  lemma {:induction false} ParseAsks(proc: Proc, argv: seq<string>)
    requires argv != []
    ensures var r := Sort(NOTHING, argv[1..]);
            Parsed(proc, argv) ==
            if r.Err? || Refuses(proc, AsOption, r.value.opts) || Refuses(proc, ByDash, r.value.args)
               || (r.value.rest.Some? && Refuses(proc, AsOther, r.value.rest.value)) then Err
            else Ok(Output(argv[0], Sorted(
              Chosen(proc, AsOption, r.value.opts), Chosen(proc, ByDash, r.value.args),
              if r.value.rest.Some? then Some(Chosen(proc, AsOther, r.value.rest.value)) else None)))
  {
    var r := Sort(NOTHING, argv[1..]);
    if r.Ok? {
      KeptIsChosen(proc, Opt, AsOption, r.value.opts);
      KeptIsChosen(proc, Arg, ByDash, r.value.args);
      if r.value.rest.Some? { KeptIsChosen(proc, Rest, AsOther, r.value.rest.value); }
    }
  }

  function Dashed(l: seq<string>): seq<string>
    decreases |l|
  {
    if l == [] then []
    else if l[0] != "" && l[0][0] == '-' then [l[0]] + Dashed(l[1..])
    else Dashed(l[1..])
  }

  /** A callback that drops whatever is no option leaves the arguments with a dash, and nothing behind the separator. */
  lemma {:induction false} OptionsOnly(proc: Proc, argv: seq<string>)
    requires argv != [] && Sort(NOTHING, argv[1..]).Ok?
    requires forall s :: proc(s, OptKey) == Keep && proc(s, NonOptKey) == Discard
    ensures var a := Sort(NOTHING, argv[1..]).value;
            Parsed(proc, argv) ==
            Ok(Output(argv[0], Sorted(a.opts, Dashed(a.args), if a.rest.Some? then Some([]) else None)))
  {
    var a := Sort(NOTHING, argv[1..]).value;
    ParseAsks(proc, argv);
    ChosenOptions(proc, a.opts);
    ChosenDashed(proc, a.args);
    if a.rest.Some? { ChosenOthers(proc, a.rest.value); }
  }

  lemma {:induction false} ChosenOptions(proc: Proc, l: seq<string>)
    requires forall s :: proc(s, OptKey) == Keep
    ensures Chosen(proc, AsOption, l) == l
    decreases |l|
  {
    if l != [] { ChosenOptions(proc, l[1..]); }
  }

  lemma {:induction false} ChosenDashed(proc: Proc, l: seq<string>)
    requires forall s :: proc(s, OptKey) == Keep && proc(s, NonOptKey) == Discard
    ensures Chosen(proc, ByDash, l) == Dashed(l)
    decreases |l|
  {
    if l != [] { ChosenDashed(proc, l[1..]); }
  }

  lemma {:induction false} ChosenOthers(proc: Proc, l: seq<string>)
    requires forall s :: proc(s, NonOptKey) == Discard
    ensures Chosen(proc, AsOther, l) == []
    decreases |l|
  {
    if l != [] { ChosenOthers(proc, l[1..]); }
  }

  /** One argument that is no group and no separator, for example a mount point. */
  lemma {:induction false} OneArgument(proc: Proc, name: string, arg: string)
    requires !IsGroup(arg) && arg != SEPARATOR
    ensures Parsed(proc, [name, arg]) ==
            match proc(arg, if arg != "" && arg[0] == '-' then OptKey else NonOptKey)
            case Keep => Ok([name, arg])
            case Discard => Ok([name])
            case Refuse => Err
  {
    var argv := [name, arg];
    assert argv[1..] == [arg] && [arg][1..] == [] && [] + [arg] == [arg];
    assert arg != GROUP;
    assert Sort(NOTHING, [arg]) == Ok(Sorted([], [arg], None));
    ParseAsks(proc, argv);
    assert Chosen(proc, ByDash, [arg]) == if proc(arg, ByDash(arg)) == Keep then [arg] else [];
    assert arg in [arg];
    assert [name] + ([arg] + []) == [name, arg] && [name] + ([] + []) == [name];
  }

  // ----- The separator at the end

  /** A separator with nothing behind it stays in the output exactly when options were collected. */
  lemma {:induction false} IdleSeparatorStaysIff(name: string, a: Sorted)
    requires a.rest == Some([]) && name != SEPARATOR && SEPARATOR !in a.args
    ensures var out := Output(name, a); out[|out| - 1] == SEPARATOR <==> a.opts != []
  {
    AddAllSome(None, a.opts);
    if a.opts == [] {
      assert a.args + [] == a.args;
    }
  }

  /** For example, an option and a separator: the separator stays. */
  lemma {:induction false} IdleSeparatorStays(proc: Proc)
    requires forall s, k :: proc(s, k) == Keep
    ensures Parsed(proc, ["p", "-ox", SEPARATOR]) == Ok(["p", GROUP, "x", SEPARATOR])
  {
    var argv := ["p", "-ox", SEPARATOR];
    var a := Sorted(["x"], [], None);
    SplitSingle("x");
    assert argv[1..] == ["-ox", SEPARATOR] && ["-ox", SEPARATOR][1..] == [SEPARATOR] && [SEPARATOR][1..] == [];
    assert |"-ox"| != |GROUP| && "-ox"[2..] == "x" && [] + ["x"] == ["x"];
    assert IsGroup("-ox") && "-ox"[1] != SEPARATOR[1];
    assert Placed(NOTHING, "-ox") == a;
    assert SEPARATOR[1] != GROUP[1];
    assert Sort(a, [SEPARATOR]) == Sort(Placed(a, SEPARATOR), []) == Ok(a.(rest := Some([])));
    KeptAgain(proc, Opt, ["x"]);
    OneGroup("x");
    var k := Sorted(["x"], [], Some([]));
    assert Sort(NOTHING, argv[1..]) == Ok(k) && KeptOf(proc, k) == k && AllAccepted(proc, k);
    assert Output("p", k) == ["p"] + ([GROUP, "x"] + ([] + ([SEPARATOR] + []))) == ["p", GROUP, "x", SEPARATOR];
  }

  lemma {:induction false} OneGroup(o: string)
    requires forall c | c in o :: !Special(c)
    ensures AddAll(None, [o]) == Some(o)
  {
    EscapePlain(o);
    assert [o][1..] == [] && "" + o == o;
  }

  // ----- The parser

  /** An option as it is written to the option string. */
  function Written(o: string, esc: bool): string {
    if esc then Escape(o) else o
  }

  lemma {:induction false} WriteOne(d: string, o: string, i: nat, esc: bool)
    requires i < |o|
    ensures d + Written([o[i]], esc) + Written(o[i + 1..], esc) == d + Written(o[i..], esc)
  {
    var c := [o[i]];
    assert o[i..][1..] == o[i + 1..] && c[1..] == "" && c + o[i + 1..] == o[i..];
    assert Quoted(o[i]) + Escape("") == Quoted(o[i]);
    Regroup(d, Written(c, esc), Written(o[i + 1..], esc));
  }

  method WriteChar(d: string, c: char, esc: bool) returns (d': string)
    ensures d' == d + Written([c], esc)
  {
    d' := d;
    if esc && Special(c) {
      d' := d' + [BACKSLASH];
    }
    d' := d' + [c];
    assert [c][1..] == "" && Quoted(c) + Escape("") == Quoted(c);
  }

  class OptContext {
    const proc: Proc
    const argv: seq<string>
    var argctr: nat
    var out: seq<string>
    var opts: Option<string>
    var nonopt: nat

    constructor (proc: Proc, argv: seq<string>)
      ensures this.proc == proc && this.argv == argv && out == [] && opts == None && nonopt == 0
    {
      this.proc, this.argv := proc, argv;
      argctr, out, opts, nonopt := 0, [], None, 0;
    }

    method NextArg() returns (ok: bool)
      modifies `argctr
      ensures ok == (old(argctr) + 1 < |argv|) && argctr == if ok then old(argctr) + 1 else old(argctr)
    {
      ok := argctr + 1 < |argv|;
      if ok { argctr := argctr + 1; }
    }

    method AddArg(arg: string)
      modifies `out
      ensures out == old(out) + [arg]
    {
      out := out + [arg];
    }

    /** The argument is added at the end, and those from `pos` on are moved up to make room for it. */
    method InsertArg(pos: nat, arg: string)
      requires pos <= |out|
      modifies `out
      ensures out == old(out)[..pos] + [arg] + old(out)[pos..]
    {
      var argc := |out|;
      var argv := new string[argc + 1](
        i requires 0 <= i <= argc && argc == |out| reads this => if i < argc then out[i] else arg);
      if pos != argc {
        var newarg := argv[argc];
        forall i | pos < i <= argc {
          argv[i] := argv[i - 1];
        }
        argv[pos] := newarg;
      }
      out := argv[..];
    }

    method AddOpt(opt: string, esc: bool)
      modifies `opts
      ensures opts == Some(Add(old(opts), opt, esc))
    {
      var d := if opts.Some? && opts.value != "" then opts.value + [COMMA] else "";
      ghost var start := d;
      var i := 0;
      while i < |opt|
        invariant i <= |opt| && d + Written(opt[i..], esc) == start + Written(opt, esc)
      {
        WriteOne(d, opt, i, esc);
        d := WriteChar(d, opt[i], esc);
        i := i + 1;
      }
      assert d + "" == d;
      opts := Some(d);
    }

    method CallProc(arg: string, key: Key, iso: bool) returns (ok: bool)
      modifies `out, `opts
      ensures ok == (Asked(proc, arg, key) != Refuse)
      ensures out == if !iso && Asked(proc, arg, key) == Keep then old(out) + [arg] else old(out)
      ensures opts == if iso && Asked(proc, arg, key) == Keep then Some(Add(old(opts), arg, true)) else old(opts)
    {
      if key == DiscardKey {
        return true;
      }
      if key != KeepKey {
        var res := proc(arg, key);
        if res != Keep {
          return res == Discard;
        }
      }
      if iso {
        AddOpt(arg, true);
      } else {
        AddArg(arg);
      }
      return true;
    }

    /** An option ends at `d`: it is closed with a NUL and handed on. */
    method EndOption(buf: array<char>, d: nat, ghost before: Option<string>, ghost done: seq<string>) returns (ok: bool)
      requires d < buf.Length && opts == AddAll(before, Kept(proc, Opt, done))
      modifies buf, `out, `opts
      ensures out == old(out) && buf[d + 1..] == old(buf[d + 1..])
      ensures ok == (proc(old(buf[..d]), OptKey) != Refuse)
      ensures ok ==> opts == AddAll(before, Kept(proc, Opt, done + [old(buf[..d])]))
    {
      TakeOption(proc, before, done, buf[..d]);
      buf[d] := '\0';
      assert buf[..d] == old(buf[..d]);
      ok := CallProc(buf[..d], OptKey, true);
    }

    /** Splits a group in place: what is read at `s` is written back at `d`. */
    method ProcessRealGroup(buf: array<char>, ghost text: string) returns (ok: bool)
      requires buf[..] == text + ['\0'] && '\0' !in text
      modifies buf, `out, `opts
      ensures ok <==> Accepted(proc, Opt, Split(text))
      ensures ok ==> opts == AddAll(old(opts), Kept(proc, Opt, Split(text))) && out == old(out)
    {
      var s, d, end := 0, 0, false;
      ghost var done: seq<string> := [];
      assert text[0..] == text;
      while !end
        invariant out == old(out) && Accepted(proc, Opt, done)
        invariant opts == AddAll(old(opts), Kept(proc, Opt, done))
        invariant if end then Split(text) == done else Reading(text, done, buf[..], s, d)
        decreases !end, |text| - s
      {
        ReadingAt(text, done, buf[..], s, d);
        if buf[s] == '\0' {
          end := true;
        }
        if buf[s] == COMMA || end {
          ghost var b := buf[..];
          ok := EndOption(buf, d, old(opts), done);
          ReadingNext(proc, text, done, b, buf[..], s, d);
          if !ok {
            return;
          }
          done := done + [b[..d]];
          d := 0;
          s := s + 1;
        } else {
          s := CopyChar(buf, s, d, text, done);
          d := d + 1;
        }
      }
      return true;
    }

    method ProcessGroup(text: string) returns (ok: bool)
      requires '\0' !in text
      modifies `out, `opts
      ensures ok <==> Accepted(proc, Opt, Split(text))
      ensures ok ==> opts == AddAll(old(opts), Kept(proc, Opt, Split(text))) && out == old(out)
    {
      var copy := new char[|text| + 1](i requires 0 <= i => if i < |text| then text[i] else '\0');
      assert copy[..] == text + ['\0'];
      ok := ProcessRealGroup(copy, text);
    }

    ghost function State(): Held
      reads this
    {
      Held(out, opts, nonopt, true)
    }

    /** A group, with its text in the same argument or in the next one. */
    method ProcessGroupArg(arg: string) returns (ok: bool)
      requires argctr < |argv| && arg == argv[argctr] && NoNuls(argv) && IsGroup(arg)
      modifies this
      ensures var t := TakeGroup(proc, old(State()), argv[old(argctr)..]);
        ok == t.h.accepted && (ok ==> State() == t.h && argctr + 1 == old(argctr) + t.used)
    {
      ghost var args := argv[argctr..];
      if |arg| > 2 {
        assert '\0' !in arg && forall c | c in arg[2..] :: c in arg;
        ok := ProcessGroup(arg[2..]);
      } else {
        ok := NextArg();
        if !ok {
          return;
        }
        assert args[1] == argv[argctr];
        ok := ProcessGroup(argv[argctr]);
      }
    }

    /** One argument, and the next one if it is the text of a group. */
    method ProcessOne(arg: string) returns (ok: bool)
      requires argctr < |argv| && arg == argv[argctr] && NoNuls(argv)
      modifies this
      ensures var t := Take(proc, old(State()), argv[old(argctr)..]);
        ok == t.h.accepted && (ok ==> State() == t.h && argctr + 1 == old(argctr) + t.used)
    {
      if nonopt != 0 || arg == "" || arg[0] != '-' {
        ok := CallProc(arg, NonOptKey, false);
      } else if |arg| > 1 && arg[1] == 'o' {
        ok := ProcessGroupArg(arg);
      } else if |arg| == 2 && arg[1] == '-' {
        AddArg(arg);
        nonopt := |out|;
        ok := true;
      } else {
        ok := CallProc(arg, OptKey, false);
      }
    }

    /** The whole parse, from the program name to the collected options and the separator. */
    method OptParse() returns (ok: bool)
      requires argv != [] && NoNuls(argv) && out == [] && opts == None && nonopt == 0
      modifies this
      ensures Parsed(proc, argv) == if ok then Ok(out) else Err
    {
      ghost var name, a := argv[0], NOTHING;
      AddArg(argv[0]);
      argctr := 1;
      while argctr < |argv|
        invariant 1 <= argctr <= |argv| && State() == Holding(proc, name, a)
        invariant Sort(NOTHING, argv[1..]) == Sort(a, argv[argctr..])
      {
        ghost var args := argv[argctr..];
        ghost var h, i := State(), argctr;
        a := TakeHolds(proc, name, a, h, args);
        ok := ProcessOne(argv[argctr]);
        if !ok {
          return;
        }
        argctr := argctr + 1;
        assert args[argctr - i..] == argv[argctr..];
      }
      FinishHolds(proc, name, a);
      PutTogether();
      ok := true;
    }

    method PutTogether()
      requires out != []
      modifies `out
      ensures out == Finish(old(State()))
    {
      if opts.Some? {
        InsertArg(1, GROUP);
        InsertArg(2, opts.value);
      }
      if nonopt != 0 && nonopt == |out| && out[|out| - 1] == SEPARATOR {
        out := out[..|out| - 1];
      }
    }
  }

  // ----- The steps on values

  datatype Held = Held(out: seq<string>, opts: Option<string>, nonopt: nat, accepted: bool)

  /** What is held after a step, and how many arguments it used. */
  datatype Taken = Taken(h: Held, used: nat)

  ghost function AddGroup(proc: Proc, h: Held, l: seq<string>): Held {
    h.(opts := AddAll(h.opts, Kept(proc, Opt, l)), accepted := Accepted(proc, Opt, l))
  }

  ghost function TakeGroup(proc: Proc, h: Held, args: seq<string>): Taken
    requires args != [] && IsGroup(args[0])
  {
    if |args[0]| > 2 then Taken(AddGroup(proc, h, Split(args[0][2..])), 1)
    else if |args| == 1 then Taken(h.(accepted := false), 1)
    else Taken(AddGroup(proc, h, Split(args[1])), 2)
  }

  ghost function Take(proc: Proc, h: Held, args: seq<string>): Taken
    requires args != []
  {
    var arg := args[0];
    if h.nonopt == 0 && IsGroup(arg) then TakeGroup(proc, h, args)
    else if h.nonopt == 0 && arg == SEPARATOR then Taken(h.(out := h.out + [arg], nonopt := |h.out| + 1), 1)
    else
      var v := proc(arg, KeyOf(if h.nonopt == 0 then Arg else Rest, arg));
      Taken(h.(out := if v == Keep then h.out + [arg] else h.out, accepted := v != Refuse), 1)
  }

  /** The group goes in behind the name; a separator at the place noted for it goes out. */
  function Finish(h: Held): seq<string>
    requires h.out != []
  {
    var out := if h.opts.Some? then h.out[..1] + [GROUP] + [h.opts.value] + h.out[1..] else h.out;
    if h.nonopt != 0 && h.nonopt == |out| && out[|out| - 1] == SEPARATOR then out[..|out| - 1] else out
  }

  /** What the fields hold when `a` has been sorted, and whether all of it was accepted. */
  ghost function Holding(proc: Proc, name: string, a: Sorted): Held {
    var k := KeptOf(proc, a);
    Held([name] + k.args + Tail(k.rest), AddAll(None, k.opts),
         if a.rest.None? then 0 else |k.args| + 2, AllAccepted(proc, a))
  }

  /** A step sorts what it takes, and refuses what the whole parse refuses. */
  lemma {:induction false} TakeHolds(proc: Proc, name: string, a: Sorted, h: Held, args: seq<string>)
    returns (a': Sorted)
    requires Holding(proc, name, a) == h && h.accepted && args != []
    ensures var t := Take(proc, h, args);
      if t.h.accepted then
        t.used <= |args| && Holding(proc, name, a') == t.h && Sort(a, args) == Sort(a', args[t.used..])
      else Sort(a, args).Err? || !AllAccepted(proc, Sort(a, args).value)
  {
    var t := Take(proc, h, args);
    if a.rest.None? && args[0] == GROUP {
      if |args| == 1 {
        return a;
      }
      a' := a.(opts := a.opts + Split(args[1]));
      ShownGroup(proc, name, a, h, Split(args[1]));
    } else {
      a' := Placed(a, args[0]);
      ShownPlaced(proc, name, a, h, args[0]);
    }
    if !t.h.accepted {
      StaysRefused(proc, a', args[t.used..]);
    }
  }

  lemma {:induction false} ShownPlaced(proc: Proc, name: string, a: Sorted, h: Held, arg: string)
    requires Holding(proc, name, a) == h && h.accepted && (a.rest.Some? || arg != GROUP)
    ensures Holding(proc, name, Placed(a, arg)) == Take(proc, h, [arg]).h
  {
    if a.rest.None? && IsGroup(arg) {
      ShownGroup(proc, name, a, h, Split(arg[2..]));
    } else if a.rest.None? && arg == SEPARATOR {
      ShownSeparator(proc, name, a, h);
    } else {
      ShownArg(proc, name, a, h, arg);
    }
  }

  lemma {:induction false} FinishHolds(proc: Proc, name: string, a: Sorted)
    ensures Finish(Holding(proc, name, a)) == Output(name, KeptOf(proc, a))
  {
    var k := KeptOf(proc, a);
    AddAllSome(None, k.opts);
    FinishIs(name, k.args, k.rest, AddAll(None, k.opts));
  }

  lemma {:induction false} FinishIs(name: string, args: seq<string>, rest: Option<seq<string>>, group: Option<string>)
    ensures Finish(Held([name] + args + Tail(rest), group, if rest.None? then 0 else |args| + 2, true)) ==
      [name] + WithGroup(group, args + Tail(if group.None? && rest == Some([]) then None else rest))
  {
    var behind := args + Tail(rest);
    assert [name] + args + Tail(rest) == [name] + behind;
    if group.Some? {
      GroupGoesIn(name, group.value, behind);
    } else if rest == Some([]) {
      SeparatorGoesOut(name, args);
    }
  }

  lemma {:induction false} GroupGoesIn(name: string, group: string, behind: seq<string>)
    ensures ([name] + behind)[..1] + [GROUP] + [group] + ([name] + behind)[1..] ==
            [name] + WithGroup(Some(group), behind)
  {
    assert ([name] + behind)[..1] == [name] && ([name] + behind)[1..] == behind;
    assert [name] + [GROUP] + [group] + behind == [name] + ([GROUP, group] + behind);
  }

  lemma {:induction false} SeparatorGoesOut(name: string, args: seq<string>)
    ensures var out := [name] + (args + ([SEPARATOR] + []));
      |out| == |args| + 2 && out[|out| - 1] == SEPARATOR && out[..|out| - 1] == [name] + (args + [])
  {
  }

  lemma {:induction false} StaysRefused(proc: Proc, a: Sorted, args: seq<string>)
    requires !AllAccepted(proc, a)
    ensures Sort(a, args).Ok? ==> !AllAccepted(proc, Sort(a, args).value)
    decreases |args|
  {
    if args == [] {
    } else if a.rest.Some? || args[0] != GROUP {
      StaysRefused(proc, Placed(a, args[0]), args[1..]);
    } else if |args| > 1 {
      StaysRefused(proc, a.(opts := a.opts + Split(args[1])), args[2..]);
    }
  }

  lemma {:induction false} KeptOne(proc: Proc, kind: Kind, l: seq<string>, s: string)
    ensures Kept(proc, kind, l + [s]) ==
            if proc(s, KeyOf(kind, s)) == Keep then Kept(proc, kind, l) + [s] else Kept(proc, kind, l)
    ensures Accepted(proc, kind, l) ==> (Accepted(proc, kind, l + [s]) <==> proc(s, KeyOf(kind, s)) != Refuse)
  {
    KeptAppend(proc, kind, l, [s]);
    assert [s][1..] == [];
    assert Kept(proc, kind, [s]) == if proc(s, KeyOf(kind, s)) == Keep then [s] else [];
    assert Kept(proc, kind, l) + [] == Kept(proc, kind, l);
    assert s in l + [s];
  }

  lemma {:induction false} ShownArg(proc: Proc, name: string, a: Sorted, h: Held, arg: string)
    requires Holding(proc, name, a) == h && h.accepted
    requires a.rest.None? ==> arg != SEPARATOR && !IsGroup(arg)
    ensures var v := proc(arg, if a.rest.Some? then NonOptKey else KeyOf(Arg, arg));
      Holding(proc, name, Placed(a, arg)) ==
        h.(out := if v == Keep then h.out + [arg] else h.out, accepted := v != Refuse)
  {
    if a.rest.None? {
      KeptOne(proc, Arg, a.args, arg);
      LastArg([name], Kept(proc, Arg, a.args), arg);
    } else {
      KeptOne(proc, Rest, a.rest.value, arg);
      LastArg([name] + Kept(proc, Arg, a.args), [SEPARATOR] + Kept(proc, Rest, a.rest.value), arg);
      LastArg([SEPARATOR], Kept(proc, Rest, a.rest.value), arg);
    }
  }

  lemma LastArg(a: seq<string>, b: seq<string>, s: string)
    ensures a + b + [s] == a + (b + [s]) && a + b + [] + [s] == a + (b + [s]) + []
  {
  }

  lemma {:induction false} ShownSeparator(proc: Proc, name: string, a: Sorted, h: Held)
    requires Holding(proc, name, a) == h && a.rest.None?
    ensures Holding(proc, name, Placed(a, SEPARATOR)) == h.(out := h.out + [SEPARATOR], nonopt := |h.out| + 1)
  {
  }

  lemma {:induction false} ShownGroup(proc: Proc, name: string, a: Sorted, h: Held, l: seq<string>)
    requires Holding(proc, name, a) == h && h.accepted
    ensures Holding(proc, name, a.(opts := a.opts + l)) ==
      h.(opts := AddAll(h.opts, Kept(proc, Opt, l)), accepted := Accepted(proc, Opt, l))
  {
    KeptAppend(proc, Opt, a.opts, l);
    AddAllAppend(None, Kept(proc, Opt, a.opts), Kept(proc, Opt, l));
    assert forall s | s in l :: s in a.opts + l;
  }

  ghost predicate NoNuls(argv: seq<string>) {
    forall s | s in argv :: '\0' !in s
  }

  /** `done` has been split off, `b[..d]` read of the next option, and `b` holds the text from `s` on. */
  ghost predicate Reading(text: string, done: seq<string>, b: seq<char>, s: nat, d: nat) {
    && d <= s <= |text| && |b| == |text| + 1
    && b[s..] == text[s..] + ['\0']
    && Split(text) == done + SplitFrom(text[s..], b[..d])
  }

  lemma {:induction false} ReadingAt(text: string, done: seq<string>, b: seq<char>, s: nat, d: nat)
    requires Reading(text, done, b, s, d) && '\0' !in text
    ensures b[s] == if s < |text| then text[s] else '\0'
    ensures b[s] == '\0' <==> s == |text|
  {
    assert b[s] == b[s..][0];
  }

  /** The end of an option: a comma, or the end of the text. */
  lemma {:induction false} ReadingNext(proc: Proc, text: string, done: seq<string>, b: seq<char>, b': seq<char>,
                                       s: nat, d: nat)
    requires Reading(text, done, b, s, d) && (s < |text| ==> text[s] == COMMA)
    requires |b'| == |b| && b'[d + 1..] == b[d + 1..]
    ensures if s < |text| then Reading(text, done + [b[..d]], b', s + 1, 0) else Split(text) == done + [b[..d]]
    ensures proc(b[..d], OptKey) == Refuse ==> !Accepted(proc, Opt, Split(text))
  {
    assert Split(text)[|done|] == b[..d] && b[..d] in Split(text) && KeyOf(Opt, b[..d]) == OptKey;
    if s < |text| {
      assert b'[s + 1..] == b'[d + 1..][s - d..] == b[d + 1..][s - d..] == b[s..][1..];
      assert text[s..][1..] == text[s + 1..];
    }
  }

  /** Copies one character of an option; a backslash before it is passed over. */
  method CopyChar(buf: array<char>, s: nat, d: nat, ghost text: string, ghost done: seq<string>) returns (s': nat)
    requires Reading(text, done, buf[..], s, d) && '\0' !in text && s < |text| && text[s] != COMMA
    modifies buf
    ensures s < s' && Reading(text, done, buf[..], s', d + 1)
  {
    ghost var b := buf[..];
    assert buf[s] == b[s..][0] == text[s] && buf[s + 1] == b[s..][1];
    assert if s + 1 < |text| then buf[s + 1] == text[s + 1] else buf[s + 1] == '\0';
    s' := s;
    if buf[s'] == BACKSLASH && buf[s' + 1] != '\0' {
      s' := s' + 1;
    }
    buf[d] := buf[s'];
    s' := s' + 1;
    ReadingOn(text, done, b, s, d, s', buf[..]);
  }

  lemma {:induction false} ReadingOn(text: string, done: seq<string>, b: seq<char>, s: nat, d: nat, s': nat,
                                     b': seq<char>)
    requires Reading(text, done, b, s, d) && s < |text| && text[s] != COMMA
    requires s' == if text[s] == BACKSLASH && s + 1 < |text| then s + 2 else s + 1
    requires b' == b[d := text[s' - 1]]
    ensures Reading(text, done, b', s', d + 1)
  {
    var tail := text[s..];
    assert tail[s' - s..] == text[s'..];
    assert b'[..d + 1] == b[..d] + [text[s' - 1]];
    assert b'[s'..] == b[s..][s' - s..];
  }

  lemma {:induction false} TakeOption(proc: Proc, opts: Option<string>, done: seq<string>, cur: string)
    ensures AddAll(opts, Kept(proc, Opt, done + [cur])) ==
      if proc(cur, OptKey) == Keep then Some(Add(AddAll(opts, Kept(proc, Opt, done)), cur, true))
      else AddAll(opts, Kept(proc, Opt, done))
  {
    KeptAppend(proc, Opt, done, [cur]);
    var k := Kept(proc, Opt, done);
    assert [cur][1..] == [];
    assert Kept(proc, Opt, [cur]) == if proc(cur, OptKey) == Keep then [cur] else [];
    assert k + [] == k;
    AddAllAppend(opts, k, [cur]);
    assert [cur][1..] == [];
  }

  /** The entry point: on an error, and when there are no arguments, they are left as they were. */
  method Parse(proc: Proc, args: seq<string>) returns (ok: bool, args': seq<string>)
    requires NoNuls(args)
    ensures ok == Parsed(proc, args).Ok?
    ensures args' == if ok then Parsed(proc, args).value else args
  {
    if args == [] {
      return true, args;
    }
    var ctx := new OptContext(proc, args);
    ok := ctx.OptParse();
    args' := if ok then ctx.out else args;
  }
}
