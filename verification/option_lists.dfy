/**
 Option strings: a list of options joined with commas, where a backslash stands before
 each comma and backslash of an option, and the splitter that takes such a string apart.
 */
module OptionLists {
  import opened Wrappers

  const COMMA := ','
  const BACKSLASH := '\\'

  predicate Special(c: char) {
    c == COMMA || c == BACKSLASH
  }

  function Quoted(c: char): string {
    if Special(c) then [BACKSLASH, c] else [c]
  }

  function Escape(o: string): (e: string)
    ensures e == "" <==> o == ""
  {
    if o == "" then "" else Quoted(o[0]) + Escape(o[1..])
  }

  /** One more option, as `add_opt_common` writes it. */
  function Add(opts: Option<string>, o: string, esc: bool): string {
    (if opts.None? || opts.value == "" then "" else opts.value + [COMMA]) + (if esc then Escape(o) else o)
  }

  /** All the options of a list, one after the other. */
  function AddAll(opts: Option<string>, l: seq<string>): Option<string>
    decreases |l|
  {
    if l == [] then opts else AddAll(Some(Add(opts, l[0], true)), l[1..])
  }

  lemma {:induction false} AddAllAppend(opts: Option<string>, a: seq<string>, b: seq<string>)
    ensures AddAll(opts, a + b) == AddAll(AddAll(opts, a), b)
    decreases |a|
  {
    if a == [] {
      assert a + b == b;
    } else {
      assert (a + b)[1..] == a[1..] + b;
      AddAllAppend(Some(Add(opts, a[0], true)), a[1..], b);
    }
  }

  /** The options of `s`, where `cur` has been read of the first one. */
  function SplitFrom(s: string, cur: string): (l: seq<string>)
    ensures l != []
    decreases |s|
  {
    if s == "" then [cur]
    else if s[0] == COMMA then [cur] + SplitFrom(s[1..], "")
    else if s[0] == BACKSLASH && |s| > 1 then SplitFrom(s[2..], cur + [s[1]])
    else SplitFrom(s[1..], cur + [s[0]])
  }

  function Split(s: string): (l: seq<string>)
    ensures l != []
  {
    SplitFrom(s, "")
  }

  // ----- Splitting undoes joining

  /** An escaped option is read back as it was. */
  lemma {:induction false} ReadBack(o: string, rest: string, cur: string)
    ensures SplitFrom(Escape(o) + rest, cur) == SplitFrom(rest, cur + o)
    decreases |o|
  {
    if o == "" {
      assert Escape(o) + rest == rest && cur + o == cur;
    } else {
      ReadBack(o[1..], rest, cur + [o[0]]);
      Regroup(cur, [o[0]], o[1..]);
      assert [o[0]] + o[1..] == o;
      Regroup(Quoted(o[0]), Escape(o[1..]), rest);
      TakeQuoted(o[0], Escape(o[1..]) + rest, cur);
    }
  }

  lemma {:induction false} TakeQuoted(c: char, tail: string, cur: string)
    ensures SplitFrom(Quoted(c) + tail, cur) == SplitFrom(tail, cur + [c])
  {
    var s := Quoted(c) + tail;
    assert s[|Quoted(c)|..] == tail;
  }

  lemma Regroup(a: string, b: string, c: string)
    ensures a + b + c == a + (b + c)
  {
  }

  /** The plain join: escaped options with a comma between each two. */
  function Join(l: seq<string>): string
    requires l != []
    decreases |l|
  {
    if |l| == 1 then Escape(l[0]) else Escape(l[0]) + ([COMMA] + Join(l[1..]))
  }

  lemma {:induction false} SplitJoin(l: seq<string>)
    requires l != []
    ensures Split(Join(l)) == l
    decreases |l|
  {
    if |l| == 1 {
      ReadBack(l[0], "", "");
      assert Escape(l[0]) + "" == Escape(l[0]) && "" + l[0] == l[0];
    } else {
      var rest := [COMMA] + Join(l[1..]);
      ReadBack(l[0], rest, "");
      assert "" + l[0] == l[0] && rest[1..] == Join(l[1..]);
      SplitJoin(l[1..]);
    }
  }

  /** A list without its leading empty options; its last option stays. */
  function Unpadded(l: seq<string>): (u: seq<string>)
    requires l != []
    ensures u != [] && |u| <= |l| && l[|l| - |u|..] == u
    ensures |u| == 1 || u[0] != ""
    ensures u == l <==> |l| == 1 || l[0] != ""
    decreases |l|
  {
    if |l| > 1 && l[0] == "" then
      var u := Unpadded(l[1..]);
      assert l[1..][|l[1..]| - |u|..] == l[|l| - |u|..];
      u
    else l
  }

  /** Options added to a non-empty string. */
  lemma {:induction false} AddedTo(p: string, l: seq<string>)
    requires p != "" && l != []
    ensures AddAll(Some(p), l) == Some(p + ([COMMA] + Join(l)))
    decreases |l|
  {
    var e := Escape(l[0]);
    var p' := p + [COMMA] + e;
    assert Add(Some(p), l[0], true) == p';
    Regroup(p, [COMMA], e);
    if |l| > 1 {
      AddedTo(p', l[1..]);
      var tail := [COMMA] + Join(l[1..]);
      Regroup(p, [COMMA] + e, tail);
      Regroup([COMMA], e, tail);
    } else {
      assert l[1..] == [];
    }
  }

  /** The string built option by option is the plain join, leading empty options apart. */
  lemma {:induction false} AddedIsJoin(opts: Option<string>, l: seq<string>)
    requires l != [] && (opts.None? || opts.value == "")
    ensures AddAll(opts, l) == Some(Join(Unpadded(l)))
    decreases |l|
  {
    var p := Add(opts, l[0], true);
    assert p == Escape(l[0]);
    if |l| == 1 {
      assert l[1..] == [];
    } else if l[0] == "" {
      AddedIsJoin(Some(p), l[1..]);
    } else {
      AddedTo(p, l[1..]);
    }
  }

  /** Splitting what was built gives the options back, leading empty options apart. */
  lemma {:induction false} SplitAdded(l: seq<string>)
    requires l != []
    ensures AddAll(None, l).Some? && Split(AddAll(None, l).value) == Unpadded(l)
  {
    AddedIsJoin(None, l);
    SplitJoin(Unpadded(l));
  }

  /** All of them come back exactly when the first is not empty or there is just one. */
  lemma {:induction false} AllOptionsComeBackIff(l: seq<string>)
    requires l != []
    ensures AddAll(None, l).Some?
    ensures Split(AddAll(None, l).value) == l <==> |l| == 1 || l[0] != ""
  {
    SplitAdded(l);
  }

  /** A string that was built is built again from its own options. */
  lemma {:induction false} Rebuilt(l: seq<string>)
    requires l != []
    ensures AddAll(None, l).Some?
    ensures AddAll(None, Split(AddAll(None, l).value)) == AddAll(None, l)
  {
    SplitAdded(l);
    AddedIsJoin(None, l);
    AddedIsJoin(None, Unpadded(l));
  }

  /** For example, of an empty option and another one only the second comes back. */
  lemma {:induction false} EmptyOptionIsLost(o: string)
    ensures AddAll(None, ["", o]).Some? && Split(AddAll(None, ["", o]).value) == [o] != ["", o]
  {
    SplitAdded(["", o]);
    assert ["", o][1..] == [o];
  }

  /** What a backslash does: any character behind it is taken as it is, and one at the end stands for itself. */
  lemma {:induction false} Backslashes(c: char, tail: string, cur: string)
    ensures SplitFrom([BACKSLASH, c] + tail, cur) == SplitFrom(tail, cur + [c])
    ensures SplitFrom([BACKSLASH], cur) == [cur + [BACKSLASH]]
  {
    assert ([BACKSLASH, c] + tail)[2..] == tail;
    assert [BACKSLASH][1..] == "";
  }

  /** The options before and behind a comma. */
  lemma {:induction false} SplitAtComma(o: string, rest: string)
    ensures Split(Escape(o) + ([COMMA] + rest)) == [o] + Split(rest)
  {
    ReadBack(o, [COMMA] + rest, "");
    assert "" + o == o && ([COMMA] + rest)[1..] == rest;
  }

  lemma {:induction false} SplitSingle(o: string)
    requires forall c | c in o :: !Special(c)
    ensures Split(o) == [o]
  {
    SplitJoin([o]);
    EscapePlain(o);
  }

  lemma {:induction false} EscapePlain(o: string)
    requires forall c | c in o :: !Special(c)
    ensures Escape(o) == o
    decreases |o|
  {
    if o != "" {
      EscapePlain(o[1..]);
      assert o == [o[0]] + o[1..];
    }
  }
}
