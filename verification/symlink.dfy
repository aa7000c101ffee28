/**
 The subdir module shows a directory of a file system as its root.  An absolute symbolic
 link into that directory is rewritten, in place, as a relative one; it must still lead
 to the same file.

 A pointer into a C string is modelled by the string that starts there.
 */
module Symlink {
  // ----- Path components

  predicate NoSlash(s: string) {
    forall i | 0 <= i < |s| :: s[i] != '/'
  }

  /** What a component is followed by: a slash or the end. */
  predicate AtEnd(s: string) {
    s == "" || s[0] == '/'
  }

  /** Where the first component of `s` ends. */
  function CompEnd(s: string): (e: nat)
    ensures e <= |s| && NoSlash(s[..e]) && AtEnd(s[e..])
  {
    if AtEnd(s) then 0 else 1 + CompEnd(s[1..])
  }

  /** The components of a path, without the empty ones that repeated slashes make. */
  function Components(s: string): seq<string>
    decreases |s|
  {
    if s == "" then []
    else if s[0] == '/' then Components(s[1..])
    else [s[..CompEnd(s)]] + Components(s[CompEnd(s)..])
  }

  lemma {:induction false} CompEndIs(name: string, rest: string)
    requires NoSlash(name) && AtEnd(rest)
    ensures CompEnd(name + rest) == |name|
    decreases |name|
  {
    if name == "" {
      assert name + rest == rest;
    } else {
      assert (name + rest)[1..] == name[1..] + rest;
      assert (name + rest)[0] == name[0];
      CompEndIs(name[1..], rest);
    }
  }

  /** A path that starts with a whole component. */
  lemma {:induction false} TakeComponent(name: string, rest: string)
    requires name != "" && NoSlash(name) && AtEnd(rest)
    ensures Components(name + rest) == [name] + Components(rest)
  {
    CompEndIs(name, rest);
    assert (name + rest)[0] == name[0];
    assert (name + rest)[..|name|] == name && (name + rest)[|name|..] == rest;
  }

  predicate IsSuffix(r: string, s: string) {
    |r| <= |s| && s[|s| - |r|..] == r
  }

  lemma {:induction false} SuffixTransitive(a: string, b: string, c: string)
    requires IsSuffix(a, b) && IsSuffix(b, c)
    ensures IsSuffix(a, c)
  {
    assert c[|c| - |b|..][|b| - |a|..] == c[|c| - |a|..];
  }

  // ----- count_components

  method SkipSlashes(s: string) returns (r: string)
    ensures IsSuffix(r, s) && (r != "" ==> r[0] != '/')
    ensures Components(r) == Components(s)
  {
    r := s;
    while r != "" && r[0] == '/'
      invariant IsSuffix(r, s) && Components(r) == Components(s)
      decreases |r|
    {
      SuffixTransitive(r[1..], r, s);
      r := r[1..];
    }
  }

  method SkipName(s: string) returns (r: string)
    requires s != "" && s[0] != '/'
    ensures |r| < |s| && |Components(s)| == 1 + |Components(r)|
  {
    r := s;
    ghost var name := "";
    while r != "" && r[0] != '/'
      invariant s == name + r && NoSlash(name) && (name == "" ==> r == s)
      decreases |r|
    {
      name := name + r[..1];
      r := r[1..];
    }
    TakeComponent(name, r);
  }

  method CountComponents(p: string) returns (ctr: nat)
    ensures ctr == |Components(p)|
  {
    var r := SkipSlashes(p);
    ctr := 0;
    while r != ""
      invariant r != "" ==> r[0] != '/'
      invariant ctr + |Components(r)| == |Components(p)|
      decreases |r|
    {
      r := SkipName(r);
      r := SkipSlashes(r);
      ctr := ctr + 1;
    }
  }

  // ----- strip_common

  /** The character a pointer points at, with the NUL that ends a C string. */
  function At(s: string): char {
    if s == "" then '\0' else s[0]
  }

  predicate NoNul(s: string) {
    forall i | 0 <= i < |s| :: s[i] != '\0'
  }

  /** `p` and `q` have nothing more in common, or are one and the same last component. */
  ghost predicate Parted(p: string, q: string) {
    var a, b := Components(p), Components(q);
    a == [] || b == [] || a[0] != b[0] || (p == q && NoSlash(p))
  }

  /** `rest` is what is left of `s` after its first components `common`. */
  ghost predicate Left(s: string, common: seq<string>, rest: string) {
    IsSuffix(rest, s) && (rest != "" ==> rest[0] != '/') && Components(s) == common + Components(rest)
  }

  /** `s` and `t` ran together up to `name`, and then differ, or stop at a slash or the end. */
  predicate RanTogether(s: string, t: string, name: string, p: string, q: string) {
    s == name + p && t == name + q && NoSlash(name) && (At(p) != At(q) || AtEnd(p))
  }

  /** The inner loop. */
  method Together(s: string, t: string) returns (p: string, q: string, ghost name: string)
    requires NoNul(s) && NoNul(t)
    ensures RanTogether(s, t, name, p, q)
  {
    p, q, name := s, t, "";
    while At(p) == At(q) && At(p) != '\0' && At(p) != '/'
      invariant s == name + p && t == name + q && NoSlash(name)
      decreases |p|
    {
      name := name + p[..1];
      p, q := p[1..], q[1..];
    }
    assert p != "" ==> p[0] == s[|name|];
  }

  /** Whether the outer loop goes round again. */
  predicate GoesOn(p: string, q: string) {
    (At(p) == At(q) && At(p) != '\0') || (At(p) == '\0' && At(q) == '/') || (At(p) == '/' && At(q) == '\0')
  }

  method StripCommon(s: string, t: string) returns (rest: string, rem: string, ghost common: seq<string>)
    requires NoNul(s) && NoNul(t)
    ensures Left(s, common, rest) && Left(t, common, rem) && Parted(rest, rem)
  {
    rest := SkipSlashes(s);
    rem := SkipSlashes(t);
    common := [];
    var p, q, name := Together(rest, rem);
    while GoesOn(p, q)
      invariant NoNul(rest) && NoNul(rem)
      invariant Left(s, common, rest) && Left(t, common, rem)
      invariant RanTogether(rest, rem, name, p, q)
      decreases |rest|
    {
      WholeComponent(rest, rem, name, p, q);
      var r := SkipSlashes(p);
      var m := SkipSlashes(q);
      LeftNext(s, common, rest, name, p, r);
      LeftNext(t, common, rem, name, q, m);
      rest, rem, common := r, m, common + [name];
      p, q, name := Together(rest, rem);
    }
    PartedAt(rest, rem, name, p, q);
  }

  /** The loop goes on only past a whole component that both strings have. */
  lemma {:induction false} WholeComponent(rest: string, rem: string, name: string, p: string, q: string)
    requires NoNul(rest) && NoNul(rem) && RanTogether(rest, rem, name, p, q) && GoesOn(p, q)
    requires (rest != "" ==> rest[0] != '/') && (rem != "" ==> rem[0] != '/')
    ensures name != "" && AtEnd(p) && AtEnd(q)
  {
    assert p != "" ==> p[0] == rest[|name|];
    assert q != "" ==> q[0] == rem[|name|];
  }

  lemma {:induction false} LeftNext(s: string, common: seq<string>, rest: string, name: string, p: string, r: string)
    requires NoNul(s) && Left(s, common, rest) && rest == name + p
    requires name != "" && NoSlash(name) && AtEnd(p)
    requires IsSuffix(r, p) && Components(r) == Components(p) && (r != "" ==> r[0] != '/')
    ensures Left(s, common + [name], r) && NoNul(r) && |r| < |rest|
  {
    TakeComponent(name, p);
    assert common + ([name] + Components(p)) == common + [name] + Components(p);
    assert IsSuffix(p, rest);
    SuffixTransitive(p, rest, s);
    SuffixTransitive(r, p, s);
    assert forall i | 0 <= i < |r| :: r[i] == s[|s| - |r| + i];
  }

  lemma {:induction false} PartedAt(rest: string, rem: string, name: string, p: string, q: string)
    requires NoNul(rest) && NoNul(rem) && RanTogether(rest, rem, name, p, q) && !GoesOn(p, q)
    requires (rest != "" ==> rest[0] != '/') && (rem != "" ==> rem[0] != '/')
    ensures Parted(rest, rem)
  {
    assert p != "" ==> p[0] == rest[|name|];
    assert q != "" ==> q[0] == rem[|name|];
    if p == "" && q == "" {
      assert rest == rem == name;
    } else if rest != "" && rem != "" {
      if p != "" && p[0] != '/' {
        HeadsDiffer(rest, rem, |name|);
      } else {
        HeadsDiffer(rem, rest, |name|);
      }
    }
  }

  lemma {:induction false} HeadsDiffer(a: string, b: string, n: nat)
    requires n < |a| && a[n] != '/' && (forall i | 0 <= i < n :: a[i] != '/') && (n < |b| ==> b[n] != a[n])
    ensures a[..CompEnd(a)] != b[..CompEnd(b)]
  {
    var d, e := CompEnd(a), CompEnd(b);
    assert d > n by {
      assert d < |a| ==> a[d..][0] == a[d];
    }
    if n < e {
      assert a[..d][n] == a[n] && b[..e][n] == b[n];
    }
  }

  // ----- transform_symlink

  /** The string in a buffer: what stands before the first NUL. */
  function StrLen(b: seq<char>): (n: nat)
    requires '\0' in b
    ensures n < |b| && b[n] == '\0' && NoNul(b[..n])
  {
    if b[0] == '\0' then 0 else 1 + StrLen(b[1..])
  }

  function CStr(b: seq<char>): string
    requires '\0' in b
  {
    b[..StrLen(b)]
  }

  lemma {:induction false} CStrIs(b: seq<char>, w: string)
    requires |w| < |b| && b[..|w|] == w && b[|w|] == '\0' && NoNul(w)
    ensures '\0' in b && CStr(b) == w
  {
    var n := StrLen(b);
    assert forall i | 0 <= i < |w| :: w[i] == b[..|w|][i] == b[i];
  }

  lemma {:induction false} JoinedCStr(b: seq<char>, a: string, w: string)
    requires |a| + |w| < |b| && b[..|a|] == a && b[|a|..][..|w|] == w && b[|a|..][|w|] == '\0'
    requires NoNul(a) && NoNul(w)
    ensures '\0' in b && CStr(b) == a + w
  {
    assert b[..|a + w|] == b[..|a|] + b[|a|..][..|w|];
    CStrIs(b, a + w);
  }

  function Dots(n: nat): (d: string)
    ensures |d| == 3 * n && NoNul(d)
  {
    if n == 0 then "" else Dots(n - 1) + "../"
  }

  /** The relative link: up `n` directories, then along `rest`. */
  function Relative(n: nat, rest: string): string {
    if n == 0 && rest == "" then "." else Dots(n) + rest
  }

  predicate Absolute(s: string) {
    s != "" && s[0] == '/'
  }

  /** When a link is rewritten: it reaches into `base`, and the relative link fits into `size`. */
  predicate Rewrites(base: string, link: string, rest: string, rem: string, size: nat) {
    && Absolute(link) && Absolute(base)
    && |link| - |rest| >= |base|
    && Components(rem) != []
    && 3 * (|Components(rem)| - 1) + |rest| + 2 <= size
  }

  method TransformSymlink(base: string, path: string, buf: array<char>)
      returns (ghost common: seq<string>, ghost rest: string, ghost rem: string)
    requires NoNul(base) && NoNul(path) && '\0' in buf[..]
    modifies buf
    ensures '\0' in buf[..]
    ensures var link := old(CStr(buf[..]));
      && Left(link, common, rest) && Left(path, common, rem) && Parted(rest, rem)
      && CStr(buf[..]) == if Rewrites(base, link, rest, rem, buf.Length)
                          then Relative(|Components(rem)| - 1, rest) else link
  {
    var len := BufLength(buf);
    var link := buf[..len];
    var l, p;
    l, p, common := StripCommon(link, path);
    rest, rem := l, p;
    RestAt(link, l);
    var go, dotdots := ToRewrite(base, link, l, p, buf.Length);
    if go {
      assert buf[len - |l|..len] == l;
      WriteRelative(buf, len, dotdots, |l|);
    }
  }

  /** The tests of transform_symlink, and the number of parent steps. */
  method ToRewrite(base: string, link: string, l: string, p: string, size: nat) returns (go: bool, dotdots: nat)
    ensures go == Rewrites(base, link, l, p, size) && (go ==> dotdots == |Components(p)| - 1)
  {
    go, dotdots := false, 0;
    if !Absolute(link) || !Absolute(base) {
      return;
    }
    if |link| - |l| < |base| {
      return;
    }
    dotdots := CountComponents(p);
    if dotdots == 0 {
      return;
    }
    dotdots := dotdots - 1;
    go := 3 * dotdots + |l| + 2 <= size;
  }

  lemma {:induction false} RestAt(link: string, l: string)
    requires IsSuffix(l, link)
    ensures link[|link| - |l|..|link|] == l
  {
  }

  method BufLength(buf: array<char>) returns (len: nat)
    requires '\0' in buf[..]
    ensures len < buf.Length && buf[..len] == CStr(buf[..]) && buf[len] == '\0' && NoNul(buf[..len])
  {
    len := 0;
    while buf[len] != '\0'
      invariant len <= StrLen(buf[..])
      decreases buf.Length - len
    {
      assert buf[..][len] == buf[len];
      len := len + 1;
    }
    assert buf[..][..len] == buf[..len];
    CStrIs(buf[..], buf[..len]);
  }

  /** Moves the last `llen` characters of the link up and writes the parent steps before them. */
  method WriteRelative(buf: array<char>, len: nat, dotdots: nat, llen: nat)
    requires llen <= len < buf.Length && buf[len] == '\0' && NoNul(buf[..len])
    requires 3 * dotdots + llen + 2 <= buf.Length
    modifies buf
    ensures '\0' in buf[..] && CStr(buf[..]) == Relative(dotdots, old(buf[len - llen..len]))
  {
    var s := 3 * dotdots;
    ghost var rest := buf[len - llen..len];
    assert NoNul(rest) by { assert forall i | 0 <= i < llen :: rest[i] == buf[..len][len - llen + i]; }
    if llen > 0 {
      ghost var moved := buf[len - llen..][..llen + 1];
      assert moved == rest + [buf[len]];
      Move(buf, s, len - llen, llen + 1);
      assert buf[s..][..llen] == moved[..llen] && buf[s..][llen] == moved[llen];
    } else if dotdots == 0 {
      buf[0], buf[1] := '.', '\0';
      CStrIs(buf[..], ".");
      return;
    } else {
      buf[s] := '\0';
    }
    assert buf[s..][..llen] == rest && buf[s..][llen] == '\0';
    WriteDots(buf, dotdots);
    JoinedCStr(buf[..], Dots(dotdots), rest);
  }

  method Move(buf: array<char>, to: nat, from: nat, n: nat)
    requires to + n <= buf.Length && from + n <= buf.Length
    modifies buf
    ensures buf[to..][..n] == old(buf[from..][..n])
  {
    forall k | 0 <= k < n {
      buf[to + k] := buf[from + k];
    }
  }

  method WriteDots(buf: array<char>, dotdots: nat)
    requires 3 * dotdots <= buf.Length
    modifies buf
    ensures buf[..3 * dotdots] == Dots(dotdots) && buf[3 * dotdots..] == old(buf[3 * dotdots..])
  {
    for k := 0 to dotdots
      invariant buf[..3 * k] == Dots(k) && buf[3 * dotdots..] == old(buf[3 * dotdots..])
    {
      buf[3 * k], buf[3 * k + 1], buf[3 * k + 2] := '.', '.', '/';
      assert buf[..3 * (k + 1)] == buf[..3 * k] + "../";
    }
  }
}
