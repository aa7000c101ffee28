/**
 The tree of nodes that libfuse keeps for the kernel: every node has a reference
 counter, a lookup count and, while it is linked, a parent and a name.  This module
 gives the tree as a value, the walk from a node up to the root, and what linking,
 unlinking and forgetting a node keep.
 */
module NodeTree {
  import opened Wrappers

  type Ino = nat
  const ROOT: Ino := 1

  datatype Link = Link(parent: Ino, name: string)

  /** `link` is the pair (parent, name) that hash_name sets and unhash_name clears together. */
  datatype Node = Node(link: Option<Link>, refctr: int, nlookup: nat, treelock: int, ticket: int)

  type Tree = map<Ino, Node>

  // ----- Walking up

  /** `c` is the walk from `d` through the parents, up to the root or to a node that is not linked. */
  ghost predicate IsChain(t: Tree, d: Ino, c: seq<Ino>)
    decreases |c|
  {
    d in t && c != [] && c[0] == d &&
    if d == ROOT || t[d].link.None? then |c| == 1 else IsChain(t, t[d].link.value.parent, c[1..])
  }

  ghost predicate HasChain(t: Tree, d: Ino) {
    exists c :: IsChain(t, d, c)
  }

  lemma {:induction false} ChainAt(t: Tree, d: Ino, c: seq<Ino>, i: nat)
    requires IsChain(t, d, c) && i < |c|
    ensures c[i] in t && IsChain(t, c[i], c[i..])
    ensures i < |c| - 1 ==> c[i] != ROOT && t[c[i]].link.Some? && t[c[i]].link.value.parent == c[i + 1]
    ensures i == |c| - 1 ==> c[i] == ROOT || t[c[i]].link.None?
    decreases i
  {
    if i > 0 {
      ChainAt(t, c[1], c[1..], i - 1);
      assert c[1..][i - 1..] == c[i..];
    } else if |c| > 1 {
      assert c[1..][0] == c[1];
    }
  }

  lemma {:induction false} ChainUnique(t: Tree, d: Ino, c: seq<Ino>, c': seq<Ino>)
    requires IsChain(t, d, c) && IsChain(t, d, c')
    ensures c == c'
    decreases |c|
  {
    if d != ROOT && t[d].link.Some? {
      ChainUnique(t, t[d].link.value.parent, c[1..], c'[1..]);
      assert c == [c[0]] + c[1..];
      assert c' == [c'[0]] + c'[1..];
    } else {
      assert c == [d] == c';
    }
  }

  /** A walk never meets a node twice: the tree has no cycle. */
  lemma ChainDistinct(t: Tree, d: Ino, c: seq<Ino>, i: nat, j: nat)
    requires IsChain(t, d, c) && i < j < |c|
    ensures c[i] != c[j]
  {
    ChainAt(t, d, c, i);
    ChainAt(t, d, c, j);
    if c[i] == c[j] {
      ChainUnique(t, c[i], c[i..], c[j..]);
    }
  }

  /** A walk depends only on the links of the nodes it passes. */
  lemma {:induction false} ChainFrame(t: Tree, t': Tree, d: Ino, c: seq<Ino>)
    requires IsChain(t, d, c)
    requires forall n | n in c :: n in t' && n in t && t'[n].link == t[n].link
    ensures IsChain(t', d, c)
    decreases |c|
  {
    assert d in c;
    if d != ROOT && t[d].link.Some? {
      assert forall n | n in c[1..] :: n in c;
      ChainFrame(t, t', t[d].link.value.parent, c[1..]);
    }
  }

  // ----- Path names

  /** The names met on the way, from the root down. */
  ghost function Names(t: Tree, d: Ino, c: seq<Ino>): (ns: seq<string>)
    requires IsChain(t, d, c)
    decreases |c|
  {
    if d == ROOT || t[d].link.None? then []
    else Names(t, t[d].link.value.parent, c[1..]) + [t[d].link.value.name]
  }

  function Joined(ns: seq<string>): string {
    if ns == [] then "" else Joined(ns[..|ns| - 1]) + "/" + ns[|ns| - 1]
  }

  function PathString(ns: seq<string>): string {
    if ns == [] then "/" else Joined(ns)
  }

  function Last(name: Option<string>): seq<string> {
    match name case None => [] case Some(n) => [n]
  }

  /** The path of `name` (or of the directory itself) below `d`, computed from the tree. */
  ghost function PathOf(t: Tree, d: Ino, c: seq<Ino>, name: Option<string>): string
    requires IsChain(t, d, c)
  {
    PathString(Names(t, d, c) + Last(name))
  }

  lemma {:induction false} NamesFrame(t: Tree, t': Tree, d: Ino, c: seq<Ino>)
    requires IsChain(t, d, c) && IsChain(t', d, c)
    requires forall n | n in c :: n in t' && n in t && t'[n].link == t[n].link
    ensures Names(t', d, c) == Names(t, d, c)
    decreases |c|
  {
    assert d in c;
    if d != ROOT && t[d].link.Some? {
      assert forall n | n in c[1..] :: n in c;
      NamesFrame(t, t', t[d].link.value.parent, c[1..]);
    }
  }

  // ----- What holds of every tree

  ghost predicate Rooted(t: Tree) {
    ROOT in t && t[ROOT].link.None? && t[ROOT].nlookup > 0
  }

  ghost predicate LinksOk(t: Tree) {
    forall n | n in t && t[n].link.Some? ::
      t[n].link.value.parent in t && n != ROOT && t[n].nlookup > 0
  }

  ghost predicate KeysUnique(t: Tree) {
    forall m, n | m in t && n in t && t[m].link.Some? && t[m].link == t[n].link :: m == n
  }

  ghost predicate Grounded(t: Tree) {
    forall d | d in t :: HasChain(t, d)
  }

  ghost function Children(t: Tree, p: Ino): set<Ino> {
    set n | n in t && t[n].link.Some? && t[n].link.value.parent == p
  }

  /** The references to `n`: its lookups count once, every child once, and the holds in `refs`. */
  ghost function RefCount(t: Tree, refs: multiset<Ino>, n: Ino): nat
    requires n in t
  {
    (if t[n].nlookup > 0 then 1 else 0) + |Children(t, n)| + refs[n]
  }

  ghost predicate Counted(t: Tree, refs: multiset<Ino>) {
    && (forall n | n in refs :: n in t)
    && forall n | n in t :: t[n].refctr == RefCount(t, refs, n) && t[n].refctr > 0
  }

  ghost predicate ShapeOk(t: Tree) {
    Rooted(t) && LinksOk(t) && KeysUnique(t) && Grounded(t)
  }

  ghost predicate TreeOk(t: Tree, refs: multiset<Ino>) {
    ShapeOk(t) && Counted(t, refs)
  }

  // ----- Operations on the tree

  /** lookup_node: the node linked as `name` under `p`. */
  ghost function Lookup(t: Tree, p: Ino, name: string): (r: Option<Ino>)
    ensures r.Some? ==> r.value in t && t[r.value].link == Some(Link(p, name))
    ensures r.None? ==> forall n | n in t :: t[n].link != Some(Link(p, name))
  {
    if exists n :: n in t && t[n].link == Some(Link(p, name))
    then var n :| n in t && t[n].link == Some(Link(p, name)); Some(n)
    else None
  }

  /** unref_node: drop one reference, and the node with its last one. */
  function Unref(t: Tree, n: Ino): Tree
    requires n in t
  {
    if t[n].refctr == 1 then t - {n} else t[n := t[n].(refctr := t[n].refctr - 1)]
  }

  /** What unref_node and delete_node assert. */
  predicate UnrefSafe(t: Tree, n: Ino) {
    n in t && t[n].refctr > 0 && (t[n].refctr == 1 ==> t[n].treelock == 0 && t[n].link.None?)
  }

  /** unhash_name */
  function Unhash(t: Tree, n: Ino): Tree
    requires n in t && (t[n].link.Some? ==> t[n].link.value.parent in t)
  {
    if t[n].link.None? then t
    else Unref(t[n := t[n].(link := None)], t[n].link.value.parent)
  }

  /** hash_name */
  function Hash(t: Tree, n: Ino, p: Ino, name: string): Tree
    requires n in t && p in t
  {
    var t1 := t[p := t[p].(refctr := t[p].refctr + 1)];
    t1[n := t1[n].(link := Some(Link(p, name)))]
  }

  /** forget_node, once it may proceed. */
  function Forget(t: Tree, n: Ino, k: nat): Tree
    requires n in t && k <= t[n].nlookup && (t[n].link.Some? ==> t[n].link.value.parent in t)
    requires t[n].link.Some? ==> t[n].link.value.parent != n
  {
    if k < t[n].nlookup then t[n := t[n].(nlookup := t[n].nlookup - k)]
    else Unref(Unhash(t[n := t[n].(nlookup := 0)], n), n)
  }

  /** find_node, when no node has that name yet. */
  function Create(t: Tree, p: Ino, name: string, id: Ino): Tree
    requires p in t
  {
    Hash(t[id := Node(None, 1, 1, 0, 0)], id, p, name)
  }

  // ----- A node loses its link

  ghost function CutAt(c: seq<Ino>, n: Ino): seq<Ino> {
    if c == [] then [] else if c[0] == n then [n] else [c[0]] + CutAt(c[1..], n)
  }

  lemma {:induction false} ChainCut(t: Tree, t': Tree, n: Ino, d: Ino, c: seq<Ino>)
    requires IsChain(t, d, c)
    requires forall m | m in t && m != n :: m in t' && t'[m].link == t[m].link
    requires n in t' && t'[n].link.None?
    ensures IsChain(t', d, CutAt(c, n))
    decreases |c|
  {
    if d != n && d != ROOT && t[d].link.Some? {
      ChainCut(t, t', n, t[d].link.value.parent, c[1..]);
      assert CutAt(c, n)[1..] == CutAt(c[1..], n);
    } else if d != n {
      assert c[1..] == [];
    }
  }

  /** Clearing the link of `n`, with the parent's reference still to be dropped. */
  lemma CutTree(t: Tree, refs: multiset<Ino>, n: Ino)
    requires TreeOk(t, refs) && n in t && t[n].link.Some?
    ensures TreeOk(t[n := t[n].(link := None)], refs + multiset{t[n].link.value.parent})
  {
    CutShape(t, n);
    CutCount(t, refs, n);
  }

  lemma CutShape(t: Tree, n: Ino)
    requires ShapeOk(t) && n in t
    ensures ShapeOk(t[n := t[n].(link := None)])
  {
    var t' := t[n := t[n].(link := None)];
    forall d | d in t'
      ensures HasChain(t', d)
    {
      var c :| IsChain(t, d, c);
      ChainCut(t, t', n, d, c);
    }
  }

  lemma CutCount(t: Tree, refs: multiset<Ino>, n: Ino)
    requires LinksOk(t) && Counted(t, refs) && n in t && t[n].link.Some?
    ensures Counted(t[n := t[n].(link := None)], refs + multiset{t[n].link.value.parent})
  {
    var t' := t[n := t[n].(link := None)];
    var p := t[n].link.value.parent;
    forall m | m in t'
      ensures t'[m].refctr == RefCount(t', refs + multiset{p}, m)
    {
      if m == p {
        assert n in Children(t, m);
        assert Children(t', m) == Children(t, m) - {n};
      } else {
        assert Children(t', m) == Children(t, m);
      }
    }
  }

  /** Dropping a reference that nothing else accounts for. */
  lemma UnrefTree(t: Tree, refs: multiset<Ino>, n: Ino)
    requires TreeOk(t, refs + multiset{n})
    ensures n in t && (t[n].refctr == 1 ==> t[n].nlookup == 0 && t[n].link.None? && Children(t, n) == {})
    ensures TreeOk(Unref(t, n), refs)
  {
    assert n in refs + multiset{n};
    assert t[n].refctr == RefCount(t, refs + multiset{n}, n);
    UnrefShape(t, n);
    UnrefCount(t, refs, n);
  }

  lemma UnrefShape(t: Tree, n: Ino)
    requires ShapeOk(t) && n in t
    requires t[n].refctr == 1 ==> t[n].nlookup == 0 && Children(t, n) == {}
    ensures ShapeOk(Unref(t, n))
  {
    var t' := Unref(t, n);
    forall m | m in t && t[m].link.Some?
      ensures t[n].refctr == 1 ==> t[m].link.value.parent != n
    {
      if t[m].link.value.parent == n { assert m in Children(t, n); }
    }
    forall d | d in t'
      ensures HasChain(t', d)
    {
      var c :| IsChain(t, d, c);
      forall m | m in c
        ensures m in t && m in t' && t'[m].link == t[m].link
      {
        var i :| 0 <= i < |c| && c[i] == m;
        ChainAt(t, d, c, i);
        if i > 0 { ChainAt(t, d, c, i - 1); }
      }
      ChainFrame(t, t', d, c);
    }
  }

  lemma UnrefCount(t: Tree, refs: multiset<Ino>, n: Ino)
    requires ShapeOk(t) && Counted(t, refs + multiset{n}) && n in t
    ensures Counted(Unref(t, n), refs)
  {
    var t' := Unref(t, n);
    assert t[n].refctr == RefCount(t, refs + multiset{n}, n);
    forall m | m in refs
      ensures m in t'
    {
      assert m in refs + multiset{n};
    }
    forall m | m in t'
      ensures t'[m].refctr == RefCount(t', refs, m)
    {
      assert t[m].refctr == RefCount(t, refs + multiset{n}, m);
      UnrefChildren(t, n, m);
    }
  }

  lemma UnrefChildren(t: Tree, n: Ino, m: Ino)
    requires n in t && (t[n].refctr == 1 ==> t[n].link.None?)
    ensures Children(Unref(t, n), m) == Children(t, m)
  {
  }

  /** Unlinking a node keeps the tree well formed, and can free only its parent. */
  lemma UnhashTree(t: Tree, refs: multiset<Ino>, n: Ino)
    requires TreeOk(t, refs) && n in t
    ensures TreeOk(Unhash(t, n), refs)
    ensures n in Unhash(t, n) && Unhash(t, n)[n] == t[n].(link := None)
    ensures t[n].link.Some? ==>
      var p := t[n].link.value.parent;
      && p != n
      && t.Keys - {p} <= Unhash(t, n).Keys <= t.Keys
      && (p !in Unhash(t, n) ==> t[p].nlookup == 0 && t[p].link.None?)
  {
    if t[n].link.Some? {
      var p := t[n].link.value.parent;
      NoSelfLink(t, n);
      CutTree(t, refs, n);
      UnrefTree(t[n := t[n].(link := None)], refs, p);
    }
  }

  lemma NoSelfLink(t: Tree, n: Ino)
    requires n in t && n != ROOT && HasChain(t, n) && t[n].link.Some?
    ensures t[n].link.value.parent != n
  {
    var c :| IsChain(t, n, c);
    ChainAt(t, n, c, 0);
    assert IsChain(t, t[n].link.value.parent, c[1..]);
    ChainDistinct(t, n, c, 0, 1);
  }

  // ----- A node gains a link

  ghost function Graft(c: seq<Ino>, n: Ino, above: seq<Ino>): seq<Ino> {
    if c == [] then [] else if c[0] == n then [n] + above else [c[0]] + Graft(c[1..], n, above)
  }

  lemma {:induction false} ChainGraft(t: Tree, t': Tree, n: Ino, above: seq<Ino>, d: Ino, c: seq<Ino>)
    requires IsChain(t, d, c) && n in t && t[n].link.None? && n != ROOT
    requires forall m | m in t && m != n :: m in t' && t'[m].link == t[m].link
    requires n in t' && t'[n].link.Some? && IsChain(t', t'[n].link.value.parent, above)
    ensures IsChain(t', d, Graft(c, n, above))
    decreases |c|
  {
    if d == n {
      assert Graft(c, n, above)[1..] == above;
    } else if d != ROOT && t[d].link.Some? {
      ChainGraft(t, t', n, above, t[d].link.value.parent, c[1..]);
      assert Graft(c, n, above)[1..] == Graft(c[1..], n, above);
    } else {
      assert c[1..] == [];
    }
  }

  /** Linking an unlinked node below a directory whose walk does not pass it. */
  lemma HashTree(t: Tree, refs: multiset<Ino>, n: Ino, p: Ino, name: string, above: seq<Ino>)
    requires TreeOk(t, refs) && n in t && n != ROOT && t[n].link.None? && t[n].nlookup > 0
    requires IsChain(t, p, above) && n !in above
    requires forall m | m in t :: t[m].link != Some(Link(p, name))
    ensures TreeOk(Hash(t, n, p, name), refs)
  {
    HashShape(t, n, p, name, above);
    HashCount(t, refs, n, p, name);
  }

  lemma HashShape(t: Tree, n: Ino, p: Ino, name: string, above: seq<Ino>)
    requires ShapeOk(t) && n in t && n != ROOT && t[n].link.None? && t[n].nlookup > 0
    requires IsChain(t, p, above) && n !in above
    requires forall m | m in t :: t[m].link != Some(Link(p, name))
    ensures ShapeOk(Hash(t, n, p, name)) && n != p
  {
    assert p in above;
    HashLinks(t, n, p, name);
    HashGrounded(t, n, p, name, above);
  }

  lemma HashLinks(t: Tree, n: Ino, p: Ino, name: string)
    requires Rooted(t) && LinksOk(t) && KeysUnique(t) && n in t && n != ROOT && t[n].nlookup > 0
    requires p in t && n != p && forall m | m in t :: t[m].link != Some(Link(p, name))
    ensures var t' := Hash(t, n, p, name); Rooted(t') && LinksOk(t') && KeysUnique(t')
  {
  }

  lemma HashGrounded(t: Tree, n: Ino, p: Ino, name: string, above: seq<Ino>)
    requires Grounded(t) && n in t && n != ROOT && t[n].link.None? && n != p
    requires IsChain(t, p, above) && n !in above
    ensures Grounded(Hash(t, n, p, name))
  {
    var t' := Hash(t, n, p, name);
    forall m | m in above
      ensures m in t && m in t' && t'[m].link == t[m].link
    {
      var i :| 0 <= i < |above| && above[i] == m;
      ChainAt(t, p, above, i);
    }
    ChainFrame(t, t', p, above);
    forall d | d in t'
      ensures HasChain(t', d)
    {
      var c :| IsChain(t, d, c);
      ChainGraft(t, t', n, above, d, c);
    }
  }

  lemma HashChildren(t: Tree, n: Ino, p: Ino, name: string, m: Ino)
    requires n in t && p in t && n != p && t[n].link.None?
    ensures Children(Hash(t, n, p, name), m) == if m == p then Children(t, m) + {n} else Children(t, m)
    ensures n !in Children(t, m)
  {
    var t' := Hash(t, n, p, name);
    assert forall x | x in t && x != n :: t'[x].link == t[x].link;
  }

  lemma HashCount(t: Tree, refs: multiset<Ino>, n: Ino, p: Ino, name: string)
    requires Counted(t, refs) && n in t && p in t && n != p && t[n].link.None?
    ensures Counted(Hash(t, n, p, name), refs)
  {
    var t' := Hash(t, n, p, name);
    forall m | m in t'
      ensures t'[m].refctr == RefCount(t', refs, m)
    {
      assert t[m].refctr == RefCount(t, refs, m);
      HashChildren(t, n, p, name, m);
    }
  }

  /** A fresh, unlinked node. */
  lemma FreshTree(t: Tree, refs: multiset<Ino>, n: Ino)
    requires TreeOk(t, refs) && n !in t
    ensures TreeOk(t[n := Node(None, 1, 1, 0, 0)], refs)
  {
    FreshShape(t, n);
    FreshCount(t, refs, n);
  }

  lemma FreshShape(t: Tree, n: Ino)
    requires ShapeOk(t) && n !in t
    ensures ShapeOk(t[n := Node(None, 1, 1, 0, 0)])
  {
    var t' := t[n := Node(None, 1, 1, 0, 0)];
    forall d | d in t'
      ensures HasChain(t', d)
    {
      if d == n {
        assert IsChain(t', n, [n]);
      } else {
        var c :| IsChain(t, d, c);
        ChainExtends(t, t', d, c);
      }
    }
  }

  /** New nodes do not disturb a walk. */
  lemma ChainExtends(t: Tree, t': Tree, d: Ino, c: seq<Ino>)
    requires IsChain(t, d, c) && forall m | m in t :: m in t' && t'[m].link == t[m].link
    ensures IsChain(t', d, c)
  {
    forall m | m in c
      ensures m in t && m in t' && t'[m].link == t[m].link
    {
      var i :| 0 <= i < |c| && c[i] == m;
      ChainAt(t, d, c, i);
    }
    ChainFrame(t, t', d, c);
  }

  lemma FreshCount(t: Tree, refs: multiset<Ino>, n: Ino)
    requires LinksOk(t) && Counted(t, refs) && n !in t
    ensures Counted(t[n := Node(None, 1, 1, 0, 0)], refs)
  {
    var t' := t[n := Node(None, 1, 1, 0, 0)];
    assert n !in refs && Children(t, n) == {};
    forall m | m in t'
      ensures t'[m].refctr == RefCount(t', refs, m)
    {
      assert m in t ==> t[m].refctr == RefCount(t, refs, m);
      assert Children(t', m) == Children(t, m);
    }
  }

  lemma NewOffChain(t: Tree, d: Ino, c: seq<Ino>, n: Ino)
    requires IsChain(t, d, c) && n !in t
    ensures n !in c
  {
    forall i | 0 <= i < |c|
      ensures c[i] != n
    {
      ChainAt(t, d, c, i);
    }
  }

  lemma CreateTree(t: Tree, refs: multiset<Ino>, p: Ino, name: string, id: Ino)
    requires TreeOk(t, refs) && p in t && id !in t
    requires forall m | m in t :: t[m].link != Some(Link(p, name))
    ensures TreeOk(Create(t, p, name, id), refs)
  {
    var t1 := t[id := Node(None, 1, 1, 0, 0)];
    FreshTree(t, refs, id);
    var above :| IsChain(t, p, above);
    ChainExtends(t, t1, p, above);
    NewOffChain(t, p, above, id);
    HashTree(t1, refs, id, p, name, above);
  }

  // ----- A node is forgotten

  /** The order in which forget_node clears the lookup count does not matter. */
  lemma ForgetAs(t: Tree, n: Ino)
    requires n in t && (t[n].link.Some? ==> t[n].link.value.parent in t && t[n].link.value.parent != n)
    ensures var u := Unhash(t, n);
            n in u && Forget(t, n, t[n].nlookup) == Unref(u[n := u[n].(nlookup := 0)], n)
  {
  }

  /** Giving up the last lookup of an unlinked node. */
  lemma LastLookup(t: Tree, refs: multiset<Ino>, n: Ino)
    requires TreeOk(t, refs) && n in t && n != ROOT && t[n].link.None? && t[n].nlookup > 0
    ensures TreeOk(t[n := t[n].(nlookup := 0)], refs + multiset{n})
  {
    var t' := t[n := t[n].(nlookup := 0)];
    SameLinks(t, t');
    UnlookedShape(t, n);
    SameCounts(t, refs, t', refs + multiset{n});
  }

  lemma UnlookedShape(t: Tree, n: Ino)
    requires Rooted(t) && LinksOk(t) && KeysUnique(t) && n in t && n != ROOT && t[n].link.None?
    ensures var t' := t[n := t[n].(nlookup := 0)]; Rooted(t') && LinksOk(t') && KeysUnique(t')
  {
  }

  /** Lookups given up one for one against references. */
  lemma SameCounts(t: Tree, refs: multiset<Ino>, t': Tree, refs': multiset<Ino>)
    requires Counted(t, refs) && t.Keys == t'.Keys
    requires forall n | n in refs' :: n in t
    requires forall n | n in t :: t'[n].link == t[n].link && t'[n].refctr == t[n].refctr
    requires forall n | n in t ::
      (if t'[n].nlookup > 0 then 1 else 0) + refs'[n] == (if t[n].nlookup > 0 then 1 else 0) + refs[n]
    ensures Counted(t', refs')
  {
    forall m | m in t'
      ensures t'[m].refctr == RefCount(t', refs', m)
    {
      assert t[m].refctr == RefCount(t, refs, m);
      assert Children(t', m) == Children(t, m);
    }
  }

  /** Every walk survives a change that touches no link. */
  lemma SameLinks(t: Tree, t': Tree)
    requires t.Keys == t'.Keys && forall n | n in t :: t'[n].link == t[n].link
    ensures forall d, c | IsChain(t, d, c) :: IsChain(t', d, c) && Names(t', d, c) == Names(t, d, c)
    ensures Grounded(t) ==> Grounded(t')
  {
    forall d, c | IsChain(t, d, c)
      ensures IsChain(t', d, c) && Names(t', d, c) == Names(t, d, c)
    {
      forall m | m in c
        ensures m in t && m in t' && t'[m].link == t[m].link
      {
        var i :| 0 <= i < |c| && c[i] == m;
        ChainAt(t, d, c, i);
      }
      ChainFrame(t, t', d, c);
      NamesFrame(t, t', d, c);
    }
    if Grounded(t) {
      forall d | d in t'
        ensures HasChain(t', d)
      {
        var c :| IsChain(t, d, c);
        assert IsChain(t', d, c);
      }
    }
  }

  /** Forgetting keeps the tree well formed. */
  lemma ForgetTree(t: Tree, refs: multiset<Ino>, n: Ino, k: nat)
    requires TreeOk(t, refs) && n in t && n != ROOT && 0 < k <= t[n].nlookup
    ensures t[n].link.Some? ==> t[n].link.value.parent != n
    ensures TreeOk(Forget(t, n, k), refs)
  {
    if t[n].link.Some? { NoSelfLink(t, n); }
    if k < t[n].nlookup {
      var t' := t[n := t[n].(nlookup := t[n].nlookup - k)];
      SameLinks(t, t');
      SameCounts(t, refs, t', refs);
    } else {
      ForgetLast(t, refs, n);
    }
  }

  lemma ForgetLast(t: Tree, refs: multiset<Ino>, n: Ino)
    requires TreeOk(t, refs) && n in t && n != ROOT && 0 < t[n].nlookup
    requires t[n].link.Some? ==> t[n].link.value.parent != n
    ensures TreeOk(Forget(t, n, t[n].nlookup), refs)
  {
    UnhashTree(t, refs, n);
    ForgetAs(t, n);
    var u := Unhash(t, n);
    LastLookup(u, refs, n);
    UnrefTree(u[n := u[n].(nlookup := 0)], refs, n);
  }
}
