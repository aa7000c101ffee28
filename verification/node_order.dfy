/**
 The kernel's node cache is a tree ordered by path.  This module gives the comparison
 function as the lexicographic order and the walk that invalidates the attributes of
 everything below a node.
 */
module NodeOrder {
  /** strncmp on strings that hold at least `n` characters each: the sign of the first difference. */
  function Strncmp(a: string, b: string, n: nat): int
    requires n <= |a| && n <= |b|
    decreases n
  {
    if n == 0 then 0
    else if a[0] != b[0] then (if a[0] < b[0] then -1 else 1)
    else Strncmp(a[1..], b[1..], n - 1)
  }

  /** fusefs_node_cmp */
  function NodeCmp(a: string, b: string): int {
    var clen := if |a| < |b| then |a| else |b|;
    var diff := Strncmp(a, b, clen);
    if diff < 0 then -1
    else if diff > 0 then 1
    else if |b| > clen then -1
    else if |a| > clen then 1
    else 0
  }

  predicate Agree(a: string, b: string, n: nat)
    requires n <= |a| && n <= |b|
  {
    forall k | 0 <= k < n :: a[k] == b[k]
  }

  /** `a` and `b` agree before `i`, where `a` ends or has the smaller character. */
  predicate LessAt(a: string, b: string, i: nat) {
    i <= |a| && i < |b| && Agree(a, b, i) && (i == |a| || a[i] < b[i])
  }

  /** The lexicographic order. */
  ghost predicate Less(a: string, b: string) {
    exists i: nat :: LessAt(a, b, i)
  }

  lemma {:induction false} StrncmpIs(a: string, b: string, n: nat)
    requires n <= |a| && n <= |b|
    ensures Strncmp(a, b, n) in {-1, 0, 1}
    ensures Strncmp(a, b, n) == 0 <==> Agree(a, b, n)
    ensures Strncmp(a, b, n) < 0 ==> Less(a, b)
    ensures Strncmp(a, b, n) > 0 ==> Less(b, a)
    decreases n
  {
    if n > 0 {
      if a[0] != b[0] {
        assert LessAt(a, b, 0) || LessAt(b, a, 0);
      } else {
        StrncmpIs(a[1..], b[1..], n - 1);
        assert forall k | 1 <= k < n :: a[k] == a[1..][k - 1] && b[k] == b[1..][k - 1];
        if Strncmp(a, b, n) < 0 { Shift(a, b); }
        else if Strncmp(a, b, n) > 0 { Shift(b, a); }
      }
    }
  }

  lemma Shift(a: string, b: string)
    requires a != "" && b != "" && a[0] == b[0] && Less(a[1..], b[1..])
    ensures Less(a, b)
  {
    var i: nat :| LessAt(a[1..], b[1..], i);
    forall k | 0 <= k < i + 1
      ensures a[k] == b[k]
    {
      if k > 0 { assert a[1..][k - 1] == b[1..][k - 1]; }
    }
    assert LessAt(a, b, i + 1);
  }

  /** The comparison decides the order, and calls equal only what is equal. */
  lemma CmpIsLess(a: string, b: string)
    ensures NodeCmp(a, b) == -1 <==> Less(a, b)
    ensures NodeCmp(a, b) == 1 <==> Less(b, a)
    ensures NodeCmp(a, b) == 0 <==> a == b
  {
    var clen := if |a| < |b| then |a| else |b|;
    StrncmpIs(a, b, clen);
    if Strncmp(a, b, clen) == 0 {
      if |b| > clen { assert LessAt(a, b, clen); }
      else if |a| > clen { assert LessAt(b, a, clen); }
      else { assert a == b; }
    }
    OneWay(a, b);
    OneWay(b, a);
  }

  lemma OneWay(a: string, b: string)
    ensures Less(a, b) ==> a != b && !Less(b, a)
  {
    forall i: nat, j: nat
      ensures !(LessAt(a, b, i) && LessAt(b, a, j))
    {
    }
  }

  lemma Transitive(a: string, b: string, c: string)
    requires Less(a, b) && Less(b, c)
    ensures Less(a, c)
  {
    var i: nat :| LessAt(a, b, i);
    var j: nat :| LessAt(b, c, j);
    assert LessAt(a, c, if i < j then i else j);
  }

  // ----- fusefs_attrcache_prune

  ghost predicate Sorted(avl: seq<string>) {
    forall i, j | 0 <= i < j < |avl| :: Less(avl[i], avl[j])
  }

  predicate Extends(p: string, top: string) {
    |top| <= |p| && Agree(p, top, |top|)
  }

  // How the path of a node is built from that of another: a name in a directory, or a stream of a file.

  datatype Part = Entry(name: string) | Stream(name: string)

  /** A name in a directory is not empty, and none has a slash. */
  predicate PartOk(part: Part) {
    '/' !in part.name && (part.Entry? ==> part.name != "")
  }

  /** fusefs_node_findcreate with FUSEFS_DNP_SEP: there is no separator behind the root. */
  function Append(path: string, part: Part): string {
    match part
    case Entry(name) => if |path| > 1 then path + "/" + name else path + name
    case Stream(name) => path + ":" + name
  }

  function Built(top: string, parts: seq<Part>): string
    decreases |parts|
  {
    if parts == [] then top else Append(Built(top, parts[..|parts| - 1]), parts[|parts| - 1])
  }

  ghost predicate BuiltFrom(p: string, top: string, parts: seq<Part>) {
    (forall part | part in parts :: PartOk(part)) && p == Built(top, parts)
  }

  const ROOT := "/"

  ghost predicate IsPath(p: string) {
    exists parts :: BuiltFrom(p, ROOT, parts)
  }

  /** `p` is reached from `top` by one name or more. */
  ghost predicate Below(p: string, top: string) {
    exists parts :: parts != [] && BuiltFrom(p, top, parts)
  }

  /** What the code looks for instead: a separator right behind the path. */
  predicate Under(p: string, top: string) {
    Extends(p, top) && |p| > |top| && p[|top|] in {'/', ':'}
  }

  /** Nothing that extends `top` comes before it ... */
  lemma ExtensionIsLater(p: string, top: string)
    requires Extends(p, top)
    ensures !Less(p, top)
  {
    forall i: nat
      ensures !LessAt(p, top, i)
    {
    }
  }

  /** ... and once the order has left the extensions of `top` it does not come back to them. */
  lemma ExtensionsAreTogether(top: string, q: string, p: string)
    requires Less(top, q) && Less(q, p) && Extends(p, top)
    ensures Extends(q, top)
  {
    var i: nat :| LessAt(top, q, i);
    var j: nat :| LessAt(q, p, j);
    assert i >= |top|;
  }

  // ----- The separator and what is below

  lemma {:induction false} BelowPrefix(top: string, parts: seq<Part>)
    requires top != "" && (forall part | part in parts :: PartOk(part))
    ensures Extends(Built(top, parts), top)
    ensures parts != [] ==> |Built(top, parts)| > |top|
    ensures parts != [] && |top| > 1 ==> Under(Built(top, parts), top)
    decreases |parts|
  {
    if parts != [] {
      assert parts[|parts| - 1] in parts;
      BelowPrefix(top, parts[..|parts| - 1]);
    }
  }

  lemma BelowMore(d: string, top: string, part: Part)
    requires (d == top || Below(d, top)) && PartOk(part)
    ensures Below(Append(d, part), top)
  {
    var parts: seq<Part> := [];
    if d != top { parts :| parts != [] && BuiltFrom(d, top, parts); }
    var more := parts + [part];
    assert more[..|more| - 1] == parts;
    assert BuiltFrom(Append(d, part), top, more);
  }

  /** A separator behind a path other than the root's has something below it. */
  lemma {:induction false} UnderBelow(parts: seq<Part>, top: string)
    requires (forall part | part in parts :: PartOk(part)) && |top| > 1 && Under(Built(ROOT, parts), top)
    ensures Below(Built(ROOT, parts), top)
    decreases |parts|
  {
    var p := Built(ROOT, parts);
    if parts != [] {
      var earlier, part := parts[..|parts| - 1], parts[|parts| - 1];
      var d := Built(ROOT, earlier);
      assert part in parts && p == Append(d, part);
      BelowPrefix(ROOT, earlier);
      if |top| < |d| {
        assert Under(d, top);
        UnderBelow(earlier, top);
        BelowMore(d, top, part);
      } else if |top| == |d| {
        assert d == top;
        BelowMore(d, top, part);
      } else {
        InName(d, part, top);
      }
    }
  }

  /** The separator is a colon within the last name. */
  lemma InName(d: string, part: Part, top: string)
    requires PartOk(part) && d != "" && 1 < |top| && |d| < |top| && Under(Append(d, part), top)
    ensures Below(Append(d, part), top)
  {
    var p := Append(d, part);
    var rest := p[|top| + 1..];
    var skip := |p| - |part.name|;
    assert skip <= |top|;
    assert forall k | skip <= k < |p| :: p[k] == part.name[k - skip];
    assert p[|top|] == ':';
    forall k | 0 <= k < |rest| ensures rest[k] != '/' { assert rest[k] == p[|top| + 1 + k]; }
    assert p == top + ":" + rest;
    BelowMore(top, top, Stream(rest));
  }

  /** The code's test is right for every node but the root, and wrong there unless the name starts with a colon. */
  lemma UnderIsBelow(p: string, top: string)
    requires IsPath(p) && IsPath(top)
    ensures top != ROOT ==> (Under(p, top) <==> Below(p, top))
    ensures top == ROOT ==> (Below(p, top) <==> p != ROOT) && (Under(p, top) <==> |p| > 1 && p[1] == ':')
  {
    var parts :| BuiltFrom(p, ROOT, parts);
    var topParts :| BuiltFrom(top, ROOT, topParts);
    BelowPrefix(ROOT, parts);
    BelowPrefix(ROOT, topParts);
    if top == ROOT {
      RootOnly(parts);
    } else {
      assert topParts != [] && |top| > 1;
      if Under(p, top) { UnderBelow(parts, top); }
    }
    if Below(p, top) {
      var more :| more != [] && BuiltFrom(p, top, more);
      BelowPrefix(top, more);
    }
  }

  lemma {:induction false} RootOnly(parts: seq<Part>)
    requires forall part | part in parts :: PartOk(part)
    ensures var p := Built(ROOT, parts);
            (p == ROOT <==> parts == []) && (Below(p, ROOT) <==> parts != []) && (|p| > 1 ==> p[1] != '/')
    decreases |parts|
  {
    BelowPrefix(ROOT, parts);
    var p := Built(ROOT, parts);
    if parts == [] {
      if Below(p, ROOT) {
        var more :| more != [] && BuiltFrom(p, ROOT, more);
        BelowPrefix(ROOT, more);
      }
    } else {
      assert BuiltFrom(p, ROOT, parts);
      assert parts[|parts| - 1] in parts;
      RootOnly(parts[..|parts| - 1]);
    }
  }

  /** The failing input: a name in the root is below it, and the walk passes it over. */
  lemma RootChildStays(name: string)
    requires name != "" && '/' !in name && name[0] != ':'
    ensures var avl := [ROOT, Append(ROOT, Entry(name))];
            && Sorted(avl) && IsPath(avl[0]) && IsPath(avl[1]) && Below(avl[1], ROOT) && !Under(avl[1], ROOT)
  {
    var child := Append(ROOT, Entry(name));
    BelowMore(ROOT, ROOT, Entry(name));
    assert BuiltFrom(ROOT, ROOT, []);
    var parts :| parts != [] && BuiltFrom(child, ROOT, parts);
    assert LessAt(ROOT, child, 1);
  }

  /** Nothing valid is passed over: the top is not the root, or what is valid below it starts with a colon. */
  ghost predicate Caught(avl: seq<string>, valid: seq<bool>, top: nat)
    requires |valid| == |avl| && top < |avl|
  {
    avl[top] == ROOT ==> forall i | 0 <= i < |avl| && avl[i] != ROOT && valid[i] :: |avl[i]| > 1 && avl[i][1] == ':'
  }

  /** Exactly the nodes below the top lose their attributes. */
  ghost predicate Pruned(avl: seq<string>, valid: seq<bool>, top: nat, after: seq<bool>)
    requires |valid| == |avl| == |after| && top < |avl|
  {
    forall i | 0 <= i < |avl| :: after[i] == (valid[i] && !Below(avl[i], avl[top]))
  }

  lemma PrunedIff(avl: seq<string>, valid: seq<bool>, top: nat, after: seq<bool>)
    requires |valid| == |avl| == |after| && top < |avl| && forall i | 0 <= i < |avl| :: IsPath(avl[i])
    requires forall i | 0 <= i < |avl| :: after[i] == (valid[i] && !Under(avl[i], avl[top]))
    ensures Pruned(avl, valid, top, after) <==> Caught(avl, valid, top)
  {
    forall i | 0 <= i < |avl|
      ensures avl[top] != ROOT ==> (Under(avl[i], avl[top]) <==> Below(avl[i], avl[top]))
      ensures avl[top] == ROOT ==>
                && (Below(avl[i], ROOT) <==> avl[i] != ROOT)
                && (Under(avl[i], ROOT) <==> |avl[i]| > 1 && avl[i][1] == ':')
    {
      UnderIsBelow(avl[i], avl[top]);
    }
  }

  /** The walk invalidates what has a separator behind the top's path: exactly what is below,
    if nothing is passed over. */
  method Prune(avl: seq<string>, attrValid: array<bool>, top: nat)
    requires Sorted(avl) && attrValid.Length == |avl| && top < |avl|
    requires forall i | 0 <= i < |avl| :: IsPath(avl[i])
    modifies attrValid
    ensures forall i | 0 <= i < |avl| :: attrValid[i] == (old(attrValid[i]) && !Under(avl[i], avl[top]))
    ensures Pruned(avl, old(attrValid[..]), top, attrValid[..]) <==> Caught(avl, old(attrValid[..]), top)
  {
    var rpath := avl[top];
    var np := top;
    while true
      invariant top <= np < |avl|
      invariant forall i | top < i <= np :: Extends(avl[i], rpath)
      invariant forall i | top < i <= np :: attrValid[i] == (old(attrValid[i]) && !Under(avl[i], rpath))
      invariant forall i | 0 <= i <= top || np < i < |avl| :: attrValid[i] == old(attrValid[i])
      decreases |avl| - np
    {
      np := np + 1;
      if np == |avl| { break; }
      if |avl[np]| < |rpath| {
        LeftForGood(avl, top, np);
        break;
      }
      StrncmpIs(avl[np], rpath, |rpath|);
      if Strncmp(avl[np], rpath, |rpath|) != 0 {
        LeftForGood(avl, top, np);
        break;
      }
      if |avl[np]| > |rpath| && (avl[np][|rpath|] == ':' || avl[np][|rpath|] == '/') {
        attrValid[np] := false;
      }
    }
    forall i | 0 <= i <= top
      ensures !Under(avl[i], rpath)
    {
      if i < top && Extends(avl[i], rpath) { ExtensionIsLater(avl[i], rpath); }
    }
    PrunedIff(avl, old(attrValid[..]), top, attrValid[..]);
  }

  lemma LeftForGood(avl: seq<string>, top: nat, k: nat)
    requires Sorted(avl) && top < k < |avl|
    requires !Extends(avl[k], avl[top])
    ensures forall i | k <= i < |avl| :: !Under(avl[i], avl[top])
  {
    forall i | k <= i < |avl|
      ensures !Under(avl[i], avl[top])
    {
      if i > k && Extends(avl[i], avl[top]) { ExtensionsAreTogether(avl[top], avl[k], avl[i]); }
    }
  }
}
