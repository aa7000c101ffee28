/**
 What a rewritten link means: the file it leads to, compared with the file the absolute
 link leads to.
 */
module SymlinkMeaning {
  import opened Symlink

  // ----- Following a path

  /** One component: `.` stays, `..` goes up but not above the root, a name goes down. */
  function Step(dir: seq<string>, c: string): seq<string> {
    if c == "." then dir
    else if c == ".." then if dir == [] then [] else dir[..|dir| - 1]
    else dir + [c]
  }

  /** Where a list of components leads from `dir`. */
  function Walk(dir: seq<string>, cs: seq<string>): seq<string>
    decreases |cs|
  {
    if cs == [] then dir else Walk(Step(dir, cs[0]), cs[1..])
  }

  /** Where a link found in directory `dir` leads. */
  function Follow(dir: seq<string>, link: string): seq<string> {
    Walk(if Absolute(link) then [] else dir, Components(link))
  }

  /** The directory that holds the file at `path`. */
  function DirOf(path: string): seq<string>
    requires Components(path) != []
  {
    Walk([], Components(path)[..|Components(path)| - 1])
  }

  lemma {:induction false} WalkAppend(dir: seq<string>, a: seq<string>, b: seq<string>)
    ensures Walk(dir, a + b) == Walk(Walk(dir, a), b)
    decreases |a|
  {
    if a == [] {
      assert a + b == b;
    } else {
      assert (a + b)[1..] == a[1..] + b;
      WalkAppend(Step(dir, a[0]), a[1..], b);
    }
  }

  // ----- How far up a path goes

  /** How many levels above its start a path goes at most. */
  function Climb(cs: seq<string>): nat
    decreases |cs|
  {
    if cs == [] then 0
    else if cs[0] == "." then Climb(cs[1..])
    else if cs[0] == ".." then Climb(cs[1..]) + 1
    else if Climb(cs[1..]) == 0 then 0 else Climb(cs[1..]) - 1
  }

  /** `dir` without its last `n` names. */
  function Up(dir: seq<string>, n: nat): seq<string> {
    if n <= |dir| then dir[..|dir| - n] else []
  }

  /** A path first drops what it climbs over, and then adds names of its own. */
  lemma {:induction false} WalkIs(dir: seq<string>, cs: seq<string>)
    ensures Walk(dir, cs) == Up(dir, Climb(cs)) + Walk([], cs)
    decreases |cs|
  {
    if cs == [] {
      assert Up(dir, 0) == dir;
    } else {
      WalkIs(Step(dir, cs[0]), cs[1..]);
      WalkIs(Step([], cs[0]), cs[1..]);
      WalkStepIs(dir, cs[0], Climb(cs[1..]), Walk([], cs[1..]));
    }
  }

  lemma {:induction false} WalkStepIs(dir: seq<string>, c: string, n: nat, own: seq<string>)
    ensures c == "." ==> Up([], n) + own == own
    ensures c == ".." ==> Up(Step(dir, c), n) == Up(dir, n + 1) && Up([], n) + own == own
    ensures c != "." && c != ".." && n == 0 ==>
      Up(dir + [c], n) + own == Up(dir, 0) + (Up([c], 0) + own)
    ensures c != "." && c != ".." && n > 0 ==>
      Up(dir + [c], n) == Up(dir, n - 1) && Up([c], n) + own == own
  {
  }

  predicate DotFree(cs: seq<string>) {
    forall i | 0 <= i < |cs| :: cs[i] != "." && cs[i] != ".."
  }

  lemma {:induction false} DotFreeWalk(dir: seq<string>, cs: seq<string>)
    requires DotFree(cs)
    ensures Walk(dir, cs) == dir + cs
    decreases |cs|
  {
    if cs != [] {
      DotFreeWalk(Step(dir, cs[0]), cs[1..]);
      assert dir + [cs[0]] + cs[1..] == dir + cs;
    } else {
      assert dir + cs == dir;
    }
  }

  /** Each dot component makes a path lead to a shorter place than its length. */
  lemma {:induction false} WalkLength(cs: seq<string>)
    ensures |Walk([], cs)| <= |cs|
    ensures !DotFree(cs) ==> |Walk([], cs)| < |cs|
    decreases |cs|
  {
    if cs != [] {
      WalkLength(cs[1..]);
      WalkIs(Step([], cs[0]), cs[1..]);
      if cs[0] != "." && cs[0] != ".." && DotFree(cs[1..]) {
        assert DotFree(cs);
      }
    }
  }

  // ----- Parent steps

  function Ups(n: nat): (u: seq<string>)
    ensures |u| == n
  {
    if n == 0 then [] else Ups(n - 1) + [".."]
  }

  lemma {:induction false} UpsWalk(dir: seq<string>, n: nat)
    ensures Walk(dir, Ups(n)) == Up(dir, n)
  {
    if n > 0 {
      UpsWalk(dir, n - 1);
      WalkAppend(dir, Ups(n - 1), [".."]);
      var d := Walk(dir, Ups(n - 1));
      assert Walk(d, [".."]) == Step(d, "..");
    }
  }

  lemma {:induction false} DotsComponents(n: nat, rest: string)
    ensures Components(Dots(n) + rest) == Ups(n) + Components(rest)
    decreases n, 1
  {
    if n == 0 {
      assert Dots(0) + rest == rest;
    } else {
      ParentComponent(rest);
      UpOnce(n - 1, "../", rest);
    }
  }

  lemma {:induction false} UpOnce(n: nat, up: string, rest: string)
    requires Components(up + rest) == [".."] + Components(rest)
    ensures Components(Dots(n) + up + rest) == Ups(n) + [".."] + Components(rest)
    decreases n, 2
  {
    DotsComponents(n, up + rest);
    assert Dots(n) + up + rest == Dots(n) + (up + rest);
    assert Ups(n) + ([".."] + Components(rest)) == Ups(n) + [".."] + Components(rest);
  }

  lemma {:induction false} ParentComponent(rest: string)
    ensures Components("../" + rest) == [".."] + Components(rest)
  {
    Pair("..", rest);
    assert ".." + "/" + rest == "../" + rest;
  }

  /** Where the relative link leads. */
  lemma {:induction false} FollowRelative(dir: seq<string>, n: nat, rest: string)
    requires rest != "" ==> rest[0] != '/'
    ensures Follow(dir, Relative(n, rest)) == Walk(Up(dir, n), Components(rest))
  {
    var link := Relative(n, rest);
    if n == 0 && rest == "" {
      TakeComponent(".", "");
      assert "." + "" == ".";
      assert Walk(dir, ["."]) == dir;
    } else {
      FirstDot(n);
      assert !Absolute(link);
      DotsComponents(n, rest);
      WalkAppend(dir, Ups(n), Components(rest));
      UpsWalk(dir, n);
    }
  }

  lemma {:induction false} FirstDot(n: nat)
    ensures n > 0 ==> Dots(n)[0] == '.'
  {
    if n > 1 { FirstDot(n - 1); }
  }

  // ----- When the rewritten link leads to the same file

  /** The directories of the file's path below the part it has in common with the link. */
  function Between(rem: string): seq<string>
    requires Components(rem) != []
  {
    Components(rem)[..|Components(rem)| - 1]
  }

  /** Going down `down` and up as many times ends where it began, or above that. */
  lemma {:induction false} ThereAndBack(dir: seq<string>, down: seq<string>)
    ensures var m := Up(Walk(dir, down), |down|);
      m <= dir && (m == dir <==> DotFree(down) || dir == [])
  {
    var far := Walk(dir, down);
    var m := Up(far, |down|);
    WalkIs(dir, down);
    WalkLength(down);
    var kept := Up(dir, Climb(down));
    if DotFree(down) {
      DotFreeWalk(dir, down);
      assert m == dir;
    } else {
      assert far == kept + Walk([], down) && kept <= dir;
      assert |m| <= |kept| && m == kept[..|m|];
      assert |m| < |dir| || dir == [];
    }
  }

  lemma {:induction false} SameBelow(dir: seq<string>, m: seq<string>, climb: nat, own: seq<string>)
    requires m <= dir
    ensures Up(m, climb) + own == Up(dir, climb) + own <==> m == dir || climb >= |dir|
  {
    if m != dir && climb < |dir| {
      assert |Up(m, climb)| < |Up(dir, climb)|;
    }
  }

  /**
   The rewritten link leads to the file the absolute link leads to exactly when the
   directories between the common part and the file have no dot components, or the link
   climbs back to the root anyway.
   */
  lemma {:induction false} KeepsMeaningIff(link: string, path: string, common: seq<string>, rest: string, rem: string)
    requires Left(link, common, rest) && Left(path, common, rem)
    requires Absolute(link) && Components(rem) != []
    ensures Follow(DirOf(path), Relative(|Components(rem)| - 1, rest)) == Follow(DirOf(path), link)
       <==> DotFree(Between(rem)) || Climb(Components(rest)) >= |Walk([], common)|
  {
    var r, between := Components(rest), Between(rem);
    assert Components(path)[..|Components(path)| - 1] == common + between;
    FollowRelative(DirOf(path), |between|, rest);
    SamePlaceIff(common, between, r);
  }

  /** The same for component lists. */
  lemma {:induction false} SamePlaceIff(common: seq<string>, between: seq<string>, r: seq<string>)
    ensures Walk(Up(Walk([], common + between), |between|), r) == Walk([], common + r)
       <==> DotFree(between) || Climb(r) >= |Walk([], common)|
  {
    var dir := Walk([], common);
    WalkAppend([], common, r);
    WalkAppend([], common, between);
    var m := Up(Walk(dir, between), |between|);
    WalkIs(dir, r);
    WalkIs(m, r);
    ThereAndBack(dir, between);
    SameBelow(dir, m, Climb(r), Walk([], r));
  }

  // ----- The path of a file below the base

  /** The base directory with its closing slash, as set up when the module is loaded. */
  function WithSlash(base: string): (b: string)
    ensures b == "" || b[|b| - 1] == '/'
  {
    if base != "" && base[|base| - 1] != '/' then base + "/" else base
  }

  function AddPath(base: string, path: string): string {
    var p := base + if path != "" && path[0] == '/' then path[1..] else path;
    if p == "" then "." else p
  }

  lemma {:induction false} ComponentsJoin(a: string, b: string)
    requires a == "" || a[|a| - 1] == '/'
    ensures Components(a + b) == Components(a) + Components(b)
    decreases |a|
  {
    if a == "" {
      assert a + b == b;
    } else if a[0] == '/' {
      assert (a + b)[1..] == a[1..] + b;
      ComponentsJoin(a[1..], b);
    } else {
      var e := CompEnd(a);
      var name, tail := a[..e], a[e..];
      assert a == name + tail && tail != "";
      assert a + b == name + (tail + b);
      TakeComponent(name, tail + b);
      ComponentsJoin(tail, b);
    }
  }

  /** The joined path names the base's components and then the file's. */
  lemma {:induction false} AddPathComponents(base: string, path: string)
    requires base != ""
    ensures Components(AddPath(WithSlash(base), path)) == Components(base) + Components(path)
  {
    var p := if path != "" && path[0] == '/' then path[1..] else path;
    ComponentsJoin(WithSlash(base), p);
    ClosingSlash(base);
  }

  /** With an empty base the file's own path is left, or the current directory. */
  lemma {:induction false} AddPathToNothing(path: string)
    ensures Components(AddPath(WithSlash(""), path)) == if path == "" || path == "/" then ["."] else Components(path)
  {
    var p := if path != "" && path[0] == '/' then path[1..] else path;
    assert "" + p == p && (p == "" ==> path == "" || path == "/");
    TakeComponent(".", "");
    assert "." + "" == ".";
  }

  lemma {:induction false} ClosingSlash(a: string)
    ensures Components(a + "/") == Components(a)
    decreases |a|
  {
    if a == "" {
      assert a + "/" == "/";
    } else if a[0] == '/' {
      assert (a + "/")[1..] == a[1..] + "/";
      ClosingSlash(a[1..]);
    } else {
      var e := CompEnd(a);
      assert a == a[..e] + a[e..] && a + "/" == a[..e] + (a[e..] + "/");
      TakeComponent(a[..e], a[e..] + "/");
      ClosingSlash(a[e..]);
    }
  }

  /** A link that has the whole base in common with a file's path keeps its meaning. */
  lemma {:induction false} InsideBaseKeepsMeaning(base: string, file: string, path: string, link: string,
                                                  common: seq<string>, rest: string, rem: string)
    requires base != "" && path == AddPath(WithSlash(base), file)
    requires Left(link, common, rest) && Left(path, common, rem) && Absolute(link) && Components(rem) != []
    requires |Components(base)| <= |common| && DotFree(Components(file))
    ensures Follow(DirOf(path), Relative(|Components(rem)| - 1, rest)) == Follow(DirOf(path), link)
  {
    AddPathComponents(base, file);
    BetweenIsBelow(Components(base), Components(file), common, Components(rem));
    KeepsMeaningIff(link, path, common, rest, rem);
  }

  lemma {:induction false} BetweenIsBelow(base: seq<string>, file: seq<string>, common: seq<string>, rem: seq<string>)
    requires base + file == common + rem && |base| <= |common| && rem != [] && DotFree(file)
    ensures DotFree(rem[..|rem| - 1])
  {
    forall i | 0 <= i < |rem| - 1
      ensures rem[i] != "." && rem[i] != ".."
    {
      assert rem[i] == (base + file)[|common| + i] == file[|common| + i - |base|];
    }
  }

  /** Reading a link: `buf` holds what the file system below answered for the file at `path`. */
  method ReadLink(base: string, file: string, buf: array<char>) returns (path: string)
    requires NoNul(base) && NoNul(file) && '\0' in buf[..]
    modifies buf
    ensures path == AddPath(WithSlash(base), file) && '\0' in buf[..]
    ensures Components(path) != [] && DotFree(Components(path)) ==>
      Follow(DirOf(path), CStr(buf[..])) == Follow(DirOf(path), old(CStr(buf[..])))
  {
    ghost var link := CStr(buf[..]);
    path := AddPath(WithSlash(base), file);
    ghost var common, rest, rem := TransformSymlink(WithSlash(base), path, buf);
    if Rewrites(WithSlash(base), link, rest, rem, buf.Length) {
      assert DotFree(Components(path)) ==> DotFree(Between(rem)) by {
        assert forall i | 0 <= i < |Components(rem)| :: Components(rem)[i] == Components(path)[|common| + i];
      }
      KeepsMeaningIff(link, path, common, rest, rem);
    }
  }

  // ----- Which links are rewritten

  /** No slash at the end, and none after another. */
  predicate Tidy(s: string) {
    (s != "" ==> s[|s| - 1] != '/') && forall i | 0 <= i < |s| - 1 :: s[i] == '/' ==> s[i + 1] != '/'
  }

  /** The characters of the components, each with a slash. */
  function Chars(cs: seq<string>): nat {
    if cs == [] then 0 else |cs[0]| + 1 + Chars(cs[1..])
  }

  lemma {:induction false} CharsJoin(a: seq<string>, b: seq<string>)
    ensures Chars(a + b) == Chars(a) + Chars(b)
    decreases |a|
  {
    if a == [] {
      assert a + b == b;
    } else {
      assert (a + b)[1..] == a[1..] + b;
      CharsJoin(a[1..], b);
    }
  }

  lemma {:induction false} TidyTail(s: string, i: nat)
    requires Tidy(s) && i <= |s|
    ensures Tidy(s[i..])
  {
    assert forall j | 0 <= j < |s| - i :: s[i..][j] == s[i + j];
  }

  /** A tidy string is as long as its components and the slashes between them. */
  lemma {:induction false} TidyLength(s: string)
    requires Tidy(s) && (s != "" ==> s[0] != '/')
    ensures |s| == if s == "" then 0 else Chars(Components(s)) - 1
    ensures s != "" ==> Components(s) != []
    decreases |s|
  {
    if s != "" {
      var e := CompEnd(s);
      if e < |s| {
        assert s[e..][0] == '/' && e > 0;
        assert s[e + 1] != '/';
        TidyTail(s, e + 1);
        TidyLength(s[e + 1..]);
        assert s[e..][1..] == s[e + 1..];
      } else {
        assert s[e..] == "";
      }
    }
  }

  /** The part of a tidy absolute path before what is left of it. */
  lemma {:induction false} TakenLength(link: string, common: seq<string>, rest: string)
    requires Absolute(link) && Tidy(link) && Left(link, common, rest)
    ensures |link| - |rest| == Chars(common) + if rest == "" then 0 else 1
  {
    assert link == "/" + link[1..];
    TidyTail(link, 1);
    TidyTail(link, |link| - |rest|);
    TidyLength(link[1..]);
    TidyLength(rest);
    CharsJoin(common, Components(rest));
    assert link[1..] != "" by { assert |link| > 1; }
  }

  lemma {:induction false} NamesAreLong(cs: seq<string>, s: string)
    requires cs == Components(s)
    ensures forall c | c in cs :: c != ""
    decreases |s|
  {
    if s != "" {
      if s[0] == '/' { NamesAreLong(cs, s[1..]); } else {
        NamesAreLong(Components(s[CompEnd(s)..]), s[CompEnd(s)..]);
        assert s[..CompEnd(s)] != "";
      }
    }
  }

  /** `a` leads to a directory above what `b` names. */
  predicate Above(a: seq<string>, b: seq<string>) {
    |a| < |b| && b[..|a|] == a
  }

  lemma {:induction false} CharsGrow(a: seq<string>, b: seq<string>)
    requires Above(a, b) && forall c | c in b :: c != ""
    ensures Chars(a) + 2 <= Chars(b)
  {
    var tail := b[|a|..];
    CharsJoin(a, tail);
    assert b == a + tail && tail[0] in b;
  }

  /**
   With the base and the link written without needless slashes, a link is rewritten exactly when it
   leads below the base, the file is not itself on the way, and there is room.
   */
  lemma {:induction false} RewrittenIff(base: string, file: string, link: string, common: seq<string>, rest: string,
                                        rem: string, size: nat)
    requires Absolute(base) && (base == "/" || Tidy(base)) && Absolute(link) && Tidy(link) && Components(file) != []
    requires Left(link, common, rest) && Left(AddPath(WithSlash(base), file), common, rem) && Parted(rest, rem)
    ensures Rewrites(WithSlash(base), link, rest, rem, size) <==>
            && Above(Components(base), Components(link))
            && Components(rem) != [] && 3 * (|Components(rem)| - 1) + |rest| + 2 <= size
  {
    var path := AddPath(WithSlash(base), file);
    AddPathComponents(base, file);
    NamesAreLong(Components(path), path);
    TakenLength(link, common, rest);
    BaseLength(base);
    LongEnoughIff(Components(base), Components(file), common, rest, rem, link);
  }

  /** The common part is as long as the base exactly when the link leads below it. */
  lemma {:induction false} LongEnoughIff(b: seq<string>, f: seq<string>, common: seq<string>, rest: string, rem: string,
                                         link: string)
    requires f != [] && b + f == common + Components(rem) && (forall c | c in b + f :: c != "")
    requires Left(link, common, rest) && Tidy(link) && Parted(rest, rem)
    ensures Chars(common) + (if rest == "" then 0 else 1) >= Chars(b) + 1 <==> Above(b, Components(link))
  {
    if |common| < |b| {
      Shorter(common, Components(rem), b, f);
      CharsGrow(common, b);
      ShortCommon(b, f, Components(link), common, rest, rem);
    } else {
      if |common| > |b| {
        Shorter(b, f, common, Components(rem));
        CharsGrow(b, common);
      } else {
        assert (b + f)[..|b|] == b && (common + Components(rem))[..|b|] == common;
      }
      TidyTail(link, |link| - |rest|);
      TidyLength(rest);
      assert (common + Components(rest))[..|b|] == common[..|b|] == b;
    }
  }

  lemma {:induction false} Shorter(a: seq<string>, x: seq<string>, b: seq<string>, y: seq<string>)
    requires a + x == b + y && |a| < |b| && (forall c | c in a + x :: c != "")
    ensures Above(a, b) && forall c | c in b :: c != ""
  {
    assert forall i | 0 <= i < |a| :: a[i] == (a + x)[i] == (b + y)[i] == b[i];
    assert forall c | c in b :: c in b + y;
  }

  lemma {:induction false} BaseLength(base: string)
    requires Absolute(base) && (base == "/" || Tidy(base))
    ensures |WithSlash(base)| == Chars(Components(base)) + 1
  {
    assert base == "/" + base[1..];
    if base == "/" {
      assert base[1..] == "";
    } else {
      TidyTail(base, 1);
      TidyLength(base[1..]);
    }
  }

  /** What the link and the path of a file have in common stops short of the base only where they part. */
  lemma {:induction false} ShortCommon(b: seq<string>, f: seq<string>, l: seq<string>, common: seq<string>,
                                       rest: string,
                                       rem: string)
    requires f != [] && |common| < |b| && b + f == common + Components(rem) && l == common + Components(rest)
    requires Parted(rest, rem)
    ensures !Above(b, l)
  {
    if Above(b, l) {
      var m := |common|;
      assert l[m] == b[m] && (b + f)[m] == b[m];
      assert Components(rest)[0] == l[m] && Components(rem)[0] == b[m];
      assert |Components(rem)| >= 2;
      OneName(rem);
    }
  }

  lemma {:induction false} OneName(s: string)
    requires NoSlash(s)
    ensures |Components(s)| <= 1
  {
    if s != "" {
      assert s + "" == s;
      TakeComponent(s, "");
    }
  }

  predicate Plain(name: string) {
    name != "" && NoSlash(name) && name != "." && name != ".."
  }

  /** Repeated slashes get a link past the test on the base's length; a dot in the base then misleads it. */
  lemma {:induction false} DotInBaseMisleads(q: string, z: string, f: string, base: string, link: string, path: string)
    requires Plain(q) && Plain(z) && Plain(f)
    requires base == "/" + (q + "/" + "./") && link == "/" + ("/" + ("/" + (q + "/" + z)))
    requires path == "/" + (q + "/" + ("." + "/" + f))
    ensures var rem := "." + "/" + f;
      && Left(link, [q], z) && Left(path, [q], rem) && Parted(z, rem)
      && Rewrites(base, link, z, rem, |link| + 1)
      && Follow(DirOf(path), Relative(1, z)) != Follow(DirOf(path), link)
  {
    var rem := "." + "/" + f;
    Single(z);
    Single(f);
    Pair(".", f);
    SlashesAndTwo(q, z, link);
    Pair(q, rem);
    Slash(q + "/" + rem);
    assert !DotFree(Between(rem)) by { assert Between(rem)[0] == "."; }
    assert Walk([], [q]) == [q];
    assert Climb([z]) == 0;
    KeepsMeaningIff(link, path, [q], z, rem);
  }

  lemma {:induction false} SlashesAndTwo(q: string, z: string, link: string)
    requires Plain(q) && Plain(z) && link == "/" + ("/" + ("/" + (q + "/" + z)))
    ensures Left(link, [q], z) && |link| - |z| == |q| + 4
  {
    Pair(q, z);
    Slash(q + "/" + z);
    Slash("/" + (q + "/" + z));
    Slash("/" + ("/" + (q + "/" + z)));
  }

  lemma {:induction false} Slash(s: string)
    ensures Components("/" + s) == Components(s)
  {
    assert ("/" + s)[1..] == s;
  }

  lemma {:induction false} Single(name: string)
    requires name != "" && NoSlash(name)
    ensures Components(name) == [name]
  {
    assert name + "" == name;
    TakeComponent(name, "");
  }

  lemma {:induction false} Pair(name: string, rest: string)
    requires name != "" && NoSlash(name)
    ensures Components(name + "/" + rest) == [name] + Components(rest)
  {
    assert name + "/" + rest == name + ("/" + rest) && ("/" + rest)[1..] == rest;
    TakeComponent(name, "/" + rest);
  }
}
