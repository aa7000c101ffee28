/**
 The library's node store as the code keeps it: two tables of hash chains, by node id
 and by (parent, name), over nodes that are updated in place.  Every method is one
 section under the library lock and is tied to the tree-level operation it performs.
 */
module FuseNodes {
  import opened Wrappers
  import opened NodeTree
  import opened PathLocks
  import opened PathLockRuns

  const UNKNOWN_INO: nat := 0xffff_ffff
  const TWO32: nat := 0x1_0000_0000

  // ----- Hash chains

  predicate Distinct(s: seq<Ino>) {
    forall i, j | 0 <= i < j < |s| :: s[i] != s[j]
  }

  /** A chain that holds exactly the members of a set, each once. */
  ghost predicate ChainOfSet(s: seq<Ino>, members: set<Ino>) {
    Distinct(s) && forall n :: n in s <==> n in members
  }

  lemma RemoveAt(s: seq<Ino>, members: set<Ino>, j: nat)
    requires ChainOfSet(s, members) && j < |s|
    ensures ChainOfSet(s[..j] + s[j + 1..], members - {s[j]})
  {
    var r := s[..j] + s[j + 1..];
    assert forall i | 0 <= i < |r| :: r[i] == s[if i < j then i else i + 1];
    forall n
      ensures n in r <==> n in members - {s[j]}
    {
      if n in members - {s[j]} {
        var i :| 0 <= i < |s| && s[i] == n;
        assert r[if i < j then i else i - 1] == n;
      }
    }
  }

  lemma PrependTo(s: seq<Ino>, members: set<Ino>, n: Ino)
    requires ChainOfSet(s, members) && n !in members
    ensures ChainOfSet([n] + s, members + {n})
  {
    assert forall m :: m in [n] + s <==> m == n || m in s;
  }

  function CharValue(c: char): int {
    var v := c as int;
    if v < 128 then v else if v < 256 then v - 256 else v
  }

  function NameValue(h: int, name: string): int
    decreases |name|
  {
    if name == "" then h else NameValue((31 * h + CharValue(name[0])) % TWO32, name[1..])
  }

  /** name_hash: an unsigned 32-bit polynomial of the name, plus the parent's id. */
  function NameHash(parent: Ino, name: string, size: nat): (h: nat)
    requires size > 0
    ensures h < size
  {
    var h := if name == "" then 0 else NameValue(CharValue(name[0]) % TWO32, name[1..]);
    (h + parent) % size
  }

  ghost function IdMembers(ids: set<Ino>, size: nat, b: nat): set<Ino>
    requires size > 0
  {
    set n | n in ids && n % size == b
  }

  ghost function NameMembers(t: Tree, size: nat, b: nat): set<Ino>
    requires size > 0
  {
    set n | n in t && t[n].link.Some? && NameHash(t[n].link.value.parent, t[n].link.value.name, size) == b
  }

  ghost predicate IdsOk(ids: set<Ino>, table: seq<seq<Ino>>) {
    |table| > 0 && forall b | 0 <= b < |table| :: ChainOfSet(table[b], IdMembers(ids, |table|, b))
  }

  ghost predicate NamesOk(t: Tree, table: seq<seq<Ino>>) {
    |table| > 0 && forall b | 0 <= b < |table| :: ChainOfSet(table[b], NameMembers(t, |table|, b))
  }

  lemma IdRemoved(ids: set<Ino>, table: seq<seq<Ino>>, n: Ino, j: nat)
    requires IdsOk(ids, table) && n in ids
    requires j < |table[n % |table|]| && table[n % |table|][j] == n
    ensures var b := n % |table|;
            IdsOk(ids - {n}, table[b := table[b][..j] + table[b][j + 1..]])
  {
    var b := n % |table|;
    RemoveAt(table[b], IdMembers(ids, |table|, b), j);
    forall k | 0 <= k < |table|
      ensures IdMembers(ids - {n}, |table|, k) ==
              if k == b then IdMembers(ids, |table|, k) - {n} else IdMembers(ids, |table|, k)
    {
    }
  }

  lemma IdAdded(ids: set<Ino>, table: seq<seq<Ino>>, n: Ino)
    requires IdsOk(ids, table) && n !in ids
    ensures var b := n % |table|;
            IdsOk(ids + {n}, table[b := [n] + table[b]])
  {
    var b := n % |table|;
    PrependTo(table[b], IdMembers(ids, |table|, b), n);
    forall k | 0 <= k < |table|
      ensures IdMembers(ids + {n}, |table|, k) ==
              if k == b then IdMembers(ids, |table|, k) + {n} else IdMembers(ids, |table|, k)
    {
    }
  }

  /** The name chains depend on the links alone. */
  lemma NameChainsFrame(t: Tree, t': Tree, table: seq<seq<Ino>>)
    requires NamesOk(t, table)
    requires forall n | n in t && t[n].link.Some? :: n in t' && t'[n].link == t[n].link
    requires forall n | n in t' && t'[n].link.Some? :: n in t && t[n].link == t'[n].link
    ensures NamesOk(t', table)
  {
    forall b | 0 <= b < |table|
      ensures ChainOfSet(table[b], NameMembers(t', |table|, b))
    {
      assert NameMembers(t', |table|, b) == NameMembers(t, |table|, b);
    }
  }

  lemma NameRemoved(t: Tree, t': Tree, table: seq<seq<Ino>>, n: Ino, j: nat)
    requires NamesOk(t, table) && n in t && t[n].link.Some?
    requires forall m | m in t && m != n && t[m].link.Some? :: m in t' && t'[m].link == t[m].link
    requires forall m | m in t' && t'[m].link.Some? :: m in t && m != n && t[m].link == t'[m].link
    requires var b := NameHash(t[n].link.value.parent, t[n].link.value.name, |table|);
             j < |table[b]| && table[b][j] == n
    ensures var b := NameHash(t[n].link.value.parent, t[n].link.value.name, |table|);
            NamesOk(t', table[b := table[b][..j] + table[b][j + 1..]])
  {
    var b := NameHash(t[n].link.value.parent, t[n].link.value.name, |table|);
    RemoveAt(table[b], NameMembers(t, |table|, b), j);
    forall k | 0 <= k < |table|
      ensures NameMembers(t', |table|, k) ==
              if k == b then NameMembers(t, |table|, k) - {n} else NameMembers(t, |table|, k)
    {
    }
  }

  lemma NameAdded(t: Tree, t': Tree, table: seq<seq<Ino>>, n: Ino)
    requires NamesOk(t, table) && n in t' && t'[n].link.Some? && (n in t ==> t[n].link.None?)
    requires forall m | m in t && t[m].link.Some? :: m in t' && t'[m].link == t[m].link
    requires forall m | m in t' && m != n && t'[m].link.Some? :: m in t && t[m].link == t'[m].link
    ensures var b := NameHash(t'[n].link.value.parent, t'[n].link.value.name, |table|);
            NamesOk(t', table[b := [n] + table[b]])
  {
    var b := NameHash(t'[n].link.value.parent, t'[n].link.value.name, |table|);
    PrependTo(table[b], NameMembers(t, |table|, b), n);
    forall k | 0 <= k < |table|
      ensures NameMembers(t', |table|, k) ==
              if k == b then NameMembers(t, |table|, k) + {n} else NameMembers(t, |table|, k)
    {
    }
  }

  // ----- Path buffers

  /** The growing half of add_name: double the buffer until there is room, keeping the path at its end. */
  method Grow(buf: array<char>, s: nat, len: nat) returns (nbuf: array<char>, ns: nat)
    requires 0 < buf.Length <= 0xffff_ffff && s < buf.Length && s <= len
    requires buf.Length - s + len + 1 <= 0xffff_ffff
    ensures fresh(nbuf) && len < ns < nbuf.Length <= 0xffff_ffff
    ensures nbuf[ns..] == buf[s..]
  {
    var pathlen := buf.Length - s;
    var size := buf.Length;
    while size < pathlen + len + 1
      invariant buf.Length <= size <= 0xffff_ffff
      decreases 0xffff_ffff - size
    {
      size := if size >= 0x8000_0000 then 0xffff_ffff else size * 2;
    }
    nbuf := new char[size];
    forall k | 0 <= k < buf.Length { nbuf[k] := buf[k]; }
    ns := size - pathlen;
    forall k | 0 <= k < pathlen { nbuf[ns + k] := nbuf[buf.Length - pathlen + k]; }
  }

  /** add_name: write "/" and the name before position `s`, into a larger buffer if need be. */
  method AddName(buf: array<char>, s: nat, name: string) returns (nbuf: array<char>, ns: nat)
    requires 0 < buf.Length <= 0xffff_ffff && s < buf.Length
    requires buf.Length - s + |name| + 1 <= 0xffff_ffff
    modifies buf
    ensures nbuf == buf || fresh(nbuf)
    ensures ns < nbuf.Length <= 0xffff_ffff
    ensures nbuf[ns..] == "/" + name + old(buf[s..])
  {
    nbuf, ns := buf, s;
    if s <= |name| {
      nbuf, ns := Grow(buf, s, |name|);
    }
    ns := PutName(nbuf, ns, name);
  }

  method PutName(buf: array<char>, s: nat, name: string) returns (ns: nat)
    requires |name| < s < buf.Length
    modifies buf
    ensures ns < buf.Length && buf[ns..] == "/" + name + old(buf[s..])
  {
    ns := s - |name|;
    forall k | 0 <= k < |name| { buf[ns + k] := name[k]; }
    ns := ns - 1;
    buf[ns] := '/';
    forall k | 0 <= k < buf.Length - ns
      ensures buf[ns + k] == ("/" + name + old(buf[s..]))[k]
    {
      if k > |name| { assert ns + k == s + (k - |name| - 1); }
    }
  }

  /** The buffer of try_get_path: the path built so far ends at the end of the buffer, with a NUL. */
  class PathBuffer {
    var buf: array<char>
    var s: nat

    ghost predicate Valid()
      reads this, buf
    {
      s < buf.Length <= 0xffff_ffff && buf[buf.Length - 1] == '\0'
    }

    ghost function Path(): string
      requires Valid()
      reads this, buf
    {
      buf[s..buf.Length - 1]
    }

    constructor ()
      ensures Valid() && fresh(buf) && Path() == ""
    {
      var b := new char[256];
      b[255] := '\0';
      buf, s := b, 255;
    }

    method Add(name: string)
      requires Valid() && |Path()| + |name| + 2 <= 0xffff_ffff
      modifies this, buf
      ensures Valid() && (buf == old(buf) || fresh(buf))
      ensures Path() == "/" + name + old(Path())
    {
      ghost var tail := buf[s..];
      assert tail == Path() + "\0";
      buf, s := AddName(buf, s, name);
      assert buf[s..] == ("/" + name + old(Path())) + "\0";
      assert buf[s..][|buf[s..]| - 1] == '\0';
      assert buf[s..buf.Length - 1] == buf[s..][..buf.Length - 1 - s];
    }

    /** The finished path: what the buffer holds, or "/" for the root itself. */
    method Finish() returns (path: string)
      requires Valid() && (Path() != "" ==> Path()[0] != '\0')
      ensures path == if Path() == "" then "/" else Path()
    {
      path := if buf[s] != '\0' then buf[s..buf.Length - 1] else "/";
    }
  }

  /** The buffer with the last component, if there is one. */
  method StartPath(name: Option<string>) returns (pb: PathBuffer)
    requires name.Some? ==> |name.value| + 2 <= 0xffff_ffff
    ensures fresh(pb) && fresh(pb.buf) && pb.Valid()
    ensures pb.Path() == if name.Some? then "/" + name.value + "" else ""
  {
    pb := new PathBuffer();
    if name.Some? {
      pb.Add(name.value);
    }
  }

  // ----- Node ids

  /** The id counter after `i` more steps. */
  function CounterAt(start: nat, i: nat): nat {
    (start + i) % TWO32
  }

  predicate Taken(ids: set<Ino>, v: nat) {
    v == 0 || v == UNKNOWN_INO || v in ids
  }

  /** A counter that meets no free id in a whole turn has seen every id in use. */
  lemma AllTaken(ids: set<Ino>, start: nat)
    requires forall i: nat | 1 <= i <= TWO32 :: Taken(ids, CounterAt(start, i))
    ensures |ids| >= TWO32 - 2
  {
    forall v | v in UpTo(UNKNOWN_INO - 1)
      ensures v in ids
    {
      UpToIs(UNKNOWN_INO - 1, v);
      var s := start % TWO32;
      var i: nat := if v > s then v - s else v - s + TWO32;
      ShiftMod(start, i, v);
      assert Taken(ids, CounterAt(start, i));
    }
    UpToIs(UNKNOWN_INO - 1, 0);
    SubsetSize(UpTo(UNKNOWN_INO - 1), ids);
  }

  lemma ShiftMod(start: nat, i: nat, v: nat)
    requires v < TWO32 && (start % TWO32 + i == v || start % TWO32 + i == v + TWO32)
    ensures CounterAt(start, i) == v
  {
  }

  ghost function UpTo(n: nat): set<Ino> {
    if n == 0 then {} else UpTo(n - 1) + {n}
  }

  lemma {:induction false} UpToIs(n: nat, v: Ino)
    ensures v in UpTo(n) <==> 1 <= v <= n
    ensures |UpTo(n)| == n
    decreases n
  {
    if n > 0 {
      UpToIs(n - 1, v);
      UpToIs(n - 1, n);
    }
  }

  lemma {:induction false} SubsetSize(a: set<Ino>, b: set<Ino>)
    requires a <= b
    ensures |a| <= |b|
    decreases |a|
  {
    if a != {} {
      var x :| x in a;
      SubsetSize(a - {x}, b - {x});
    }
  }

  class Fuse {
    var nodes: Tree
    var idTable: seq<seq<Ino>>
    var nameTable: seq<seq<Ino>>
    var ctr: nat

    /** Both tables of chains agree with the nodes. */
    ghost predicate Valid()
      reads this
    {
      IdsOk(nodes.Keys, idTable) && NamesOk(nodes, nameTable)
    }

    constructor (idSize: nat, nameSize: nat)
      requires idSize > 0 && nameSize > 0
      ensures Valid() && nodes == Init.t
    {
      nodes := map[ROOT := Node(None, 1, 1, 0, 0)];
      idTable := seq(idSize, b => if b == ROOT % idSize then [ROOT] else []);
      nameTable := seq(nameSize, b => []);
      ctr := 0;
    }

    /** get_node_nocheck */
    method GetNode(id: Ino) returns (found: bool)
      requires Valid()
      ensures found <==> id in nodes
    {
      var chain := idTable[id % |idTable|];
      assert ChainOfSet(chain, IdMembers(nodes.Keys, |idTable|, id % |idTable|));
      var i := 0;
      while i < |chain|
        invariant i <= |chain| && id !in chain[..i]
      {
        assert chain[i] in chain;
        if chain[i] == id { return true; }
        i := i + 1;
      }
      assert chain[..i] == chain;
      return false;
    }

    /** lookup_node: exact, because at most one node has the key. */
    method LookupNode(parent: Ino, name: string) returns (r: Option<Ino>)
      requires Valid() && KeysUnique(nodes)
      ensures r == Lookup(nodes, parent, name)
    {
      var b := NameHash(parent, name, |nameTable|);
      var chain := nameTable[b];
      ghost var members := NameMembers(nodes, |nameTable|, b);
      assert ChainOfSet(chain, members);
      var i := 0;
      while i < |chain|
        invariant i <= |chain|
        invariant forall j | 0 <= j < i :: chain[j] in nodes && nodes[chain[j]].link != Some(Link(parent, name))
      {
        assert chain[i] in members;
        if nodes[chain[i]].link.value.parent == parent && nodes[chain[i]].link.value.name == name {
          return Some(chain[i]);
        }
        i := i + 1;
      }
      forall n | n in nodes
        ensures nodes[n].link != Some(Link(parent, name))
      {
        assert nodes[n].link == Some(Link(parent, name)) ==> n in members;
      }
      return None;
    }

    /** unhash_id */
    method UnhashId(n: Ino)
      requires IdsOk(nodes.Keys, idTable) && n in nodes
      modifies `idTable
      ensures IdsOk(nodes.Keys - {n}, idTable)
    {
      var b := n % |idTable|;
      var chain := idTable[b];
      assert n in IdMembers(nodes.Keys, |idTable|, b);
      var i := 0;
      while chain[i] != n
        invariant i < |chain| && n !in chain[..i]
          decreases |chain| - i
      {
        i := i + 1;
        assert chain[..i] == chain[..i - 1] + [chain[i - 1]];
      }
      IdRemoved(nodes.Keys, idTable, n, i);
      idTable := idTable[b := chain[..i] + chain[i + 1..]];
    }

    /** unref_node and delete_node */
    method UnrefNode(n: Ino)
      requires IdsOk(nodes.Keys, idTable) && UnrefSafe(nodes, n)
      modifies `nodes, `idTable
      ensures IdsOk(nodes.Keys, idTable) && nodes == Unref(old(nodes), n)
    {
      nodes := nodes[n := nodes[n].(refctr := nodes[n].refctr - 1)];
      if nodes[n].refctr == 0 {
        UnhashId(n);
        nodes := nodes - {n};
      }
    }

    /** unhash_name: the node is in its chain, so the abort is never reached. */
    method UnhashName(n: Ino)
      requires Valid() && UnhashSafe(nodes, n) && (nodes[n].link.Some? ==> nodes[n].link.value.parent != n)
      modifies `nodes, `idTable, `nameTable
      ensures Valid() && nodes == Unhash(old(nodes), n)
    {
      if nodes[n].link.Some? {
        var p := nodes[n].link.value.parent;
        var b := NameHash(p, nodes[n].link.value.name, |nameTable|);
        var chain := nameTable[b];
        assert n in NameMembers(nodes, |nameTable|, b);
        var i := 0;
        while chain[i] != n
          invariant i < |chain| && n !in chain[..i]
          decreases |chain| - i
        {
          i := i + 1;
          assert chain[..i] == chain[..i - 1] + [chain[i - 1]];
        }
        ghost var table := nameTable;
        nameTable := nameTable[b := chain[..i] + chain[i + 1..]];
        UnrefNode(p);
        nodes := nodes[n := nodes[n].(link := None)];
        NameRemoved(old(nodes), nodes, table, n, i);
      }
    }

    /** hash_name */
    method HashName(n: Ino, p: Ino, name: string)
      requires NamesOk(nodes, nameTable) && n in nodes && p in nodes && n != p && nodes[n].link.None?
      modifies `nodes, `nameTable
      ensures NamesOk(nodes, nameTable) && nodes == Hash(old(nodes), n, p, name)
    {
      var b := NameHash(p, name, |nameTable|);
      nodes := nodes[p := nodes[p].(refctr := nodes[p].refctr + 1)];
      nodes := nodes[n := nodes[n].(link := Some(Link(p, name)))];
      NameAdded(old(nodes), nodes, nameTable, n);
      nameTable := nameTable[b := [n] + nameTable[b]];
    }

    /** next_id: the counter wraps at 32 bits and skips ids in use, so it ends while any id is free. */
    method NextId() returns (id: Ino)
      requires Valid() && |nodes| < TWO32 - 2
      modifies `ctr
      ensures id !in nodes && 0 < id < UNKNOWN_INO && ctr == id
    {
      ghost var start := ctr;
      ghost var k := 0;
      ctr := (ctr + 1) % TWO32;
      k := 1;
      var used := GetNode(ctr);
      while ctr == 0 || ctr == UNKNOWN_INO || used
        invariant 1 <= k <= TWO32 && ctr == CounterAt(start, k)
        invariant used <==> ctr in nodes
        invariant forall i: nat | 1 <= i < k :: Taken(nodes.Keys, CounterAt(start, i))
        decreases TWO32 - k
      {
        assert Taken(nodes.Keys, CounterAt(start, k));
        if k == TWO32 { AllTaken(nodes.Keys, start); }
        NextMod(start, k);
        ctr := (ctr + 1) % TWO32;
        k := k + 1;
        used := GetNode(ctr);
      }
      id := ctr;
    }

    /** The allocating half of find_node. */
    method AddNode(dir: Ino, name: string) returns (r: Ino)
      requires Valid() && dir in nodes && |nodes| < TWO32 - 2
      modifies this
      ensures Valid() && r !in old(nodes) && 0 < r < UNKNOWN_INO
      ensures nodes == Hash(old(nodes)[r := Node(None, 1, 0, 0, 0)], r, dir, name)
    {
      r := NextId();
      nodes := nodes[r := Node(None, 1, 0, 0, 0)];
      NameChainsFrame(old(nodes), nodes, nameTable);
      HashName(r, dir, name);
      IdAdded(old(nodes).Keys, idTable, r);
      idTable := idTable[r % |idTable| := [r] + idTable[r % |idTable|]];
      assert nodes.Keys == old(nodes).Keys + {r};
    }

    /** find_node */
    method FindNode(dir: Ino, name: Option<string>) returns (r: Ino)
      requires Valid() && KeysUnique(nodes) && dir in nodes && |nodes| < TWO32 - 2
      modifies this
      ensures Valid() && nodes == Find(old(nodes), dir, name, r)
      ensures r in nodes && (name.None? ==> r == dir) && (name.Some? ==> nodes[r].link == Some(Link(dir, name.value)))
      ensures r !in old(nodes) ==> 0 < r < UNKNOWN_INO
      ensures name.Some? ==> (r in old(nodes) <==> Lookup(old(nodes), dir, name.value).Some?)
      ensures Counts(old(nodes), nodes, r)
    {
      var found: Option<Ino> := Some(dir);
      if name.Some? {
        found := LookupNode(dir, name.value);
      }
      if found.None? {
        r := AddNode(dir, name.value);
        CreateAs(old(nodes), dir, name.value, r);
      } else {
        r := found.value;
      }
      ghost var linked := nodes;
      nodes := Bump(nodes, r);
      NameChainsFrame(linked, nodes, nameTable);
      FindCounts(old(nodes), dir, name, r);
    }

    /** forget_node: it waits while the last lookups are given up on a locked node. */
    method ForgetNode(n: Ino, k: nat) returns (waits: bool)
      requires Valid() && n in nodes && n != ROOT && k <= nodes[n].nlookup
      requires nodes[n].link.Some? ==> nodes[n].link.value.parent in nodes && nodes[n].link.value.parent != n
      requires k == nodes[n].nlookup && nodes[n].treelock == 0 ==>
                 UnhashSafe(nodes, n) && UnrefSafe(Unhash(nodes[n := nodes[n].(nlookup := 0)], n), n)
      modifies `nodes, `idTable, `nameTable
      ensures Valid() && (waits <==> old(nodes[n].nlookup == k && nodes[n].treelock != 0))
      ensures nodes == if waits then old(nodes) else Forget(old(nodes), n, k)
    {
      if nodes[n].nlookup == k && nodes[n].treelock != 0 {
        return true;
      }
      nodes := nodes[n := nodes[n].(nlookup := nodes[n].nlookup - k)];
      NameChainsFrame(old(nodes), nodes, nameTable);
      if nodes[n].nlookup == 0 {
        UnhashName(n);
        ghost var before := nodes;
        UnrefNode(n);
        NameChainsFrame(before, nodes, nameTable);
      }
      return false;
    }

    /** A lookup of ".": the directory is referenced while the lookup is under way. */
    method DotHold(n: Ino)
      requires Valid() && n in nodes
      modifies `nodes
      ensures Valid() && nodes == old(nodes)[n := old(nodes)[n].(refctr := old(nodes)[n].refctr + 1)]
    {
      nodes := nodes[n := nodes[n].(refctr := nodes[n].refctr + 1)];
      NameChainsFrame(old(nodes), nodes, nameTable);
    }

    /** ... and when it is done the reference is dropped. */
    method DotDrop(n: Ino)
      requires Valid() && UnrefSafe(nodes, n)
      modifies `nodes, `idTable
      ensures Valid() && nodes == Unref(old(nodes), n)
    {
      UnrefNode(n);
      NameChainsFrame(old(nodes), nodes, nameTable);
    }

    /** remove_node */
    method RemoveNode(dir: Ino, name: string)
      requires Valid() && KeysUnique(nodes)
      requires var w := Lookup(nodes, dir, name); w.Some? ==> UnhashSafe(nodes, w.value) && w.value != dir
      modifies `nodes, `idTable, `nameTable
      ensures Valid()
      ensures var w := Lookup(old(nodes), dir, name);
              nodes == if w.Some? then Unhash(old(nodes), w.value) else old(nodes)
    {
      var w := LookupNode(dir, name);
      if w.Some? {
        UnhashName(w.value);
      }
    }

    /** rename_node */
    method RenameNode(olddir: Ino, oldname: string, newdir: Ino, newname: string, hiding: bool) returns (busy: bool)
      requires Valid() && KeysUnique(nodes)
      requires var w := Lookup(nodes, olddir, oldname);
               var v := Lookup(nodes, newdir, newname);
               w.Some? && !(hiding && v.Some?) ==>
                 && w.value != olddir && w.value != newdir && w != v
                 && (v.Some? ==> UnhashSafe(nodes, v.value) && v.value != newdir)
                 && var t1 := if v.Some? then Unhash(nodes, v.value) else nodes;
                 && UnhashSafe(t1, w.value) && t1[w.value].link == nodes[w.value].link
                 && newdir in Unhash(t1, w.value)
      modifies `nodes, `idTable, `nameTable
      ensures Valid()
      ensures var w := Lookup(old(nodes), olddir, oldname);
              var v := Lookup(old(nodes), newdir, newname);
              && (busy <==> hiding && w.Some? && v.Some?)
              && (busy || w.None? ==> nodes == old(nodes))
              && (!busy && w.Some? ==> ParentIn(old(nodes), w.value) && (v.Some? ==> ParentIn(old(nodes), v.value))
                                       && nodes == Move(old(nodes), w.value, v, newdir, newname)
                                       && Renamed(old(nodes), nodes, w.value, v, Link(newdir, newname)))
    {
      var w := LookupNode(olddir, oldname);
      var v := LookupNode(newdir, newname);
      busy := false;
      if w.Some? {
        if v.Some? {
          if hiding { return true; }
          UnhashName(v.value);
        }
        UnhashName(w.value);
        HashName(w.value, newdir, newname);
        MoveRenames(old(nodes), w.value, v, newdir, newname);
      }
    }

    /** unlock_path, from `dir` up to `end` or to the root: the first `k` nodes of the walk. */
    method UnlockPath(dir: Ino, w: Option<Ino>, end: Option<Ino>, ticket: int, ghost c: seq<Ino>, ghost k: nat)
      requires IsChain(nodes, dir, c) && k < |c|
      requires if end.None? then c[k] == ROOT else end.value == c[k]
      requires UnlockSafe(nodes, c[..k], w) && (w.Some? ==> w.value !in c)
      modifies `nodes
      ensures nodes == Unlock(old(nodes), c[..k], w, ticket)
    {
      ghost var t := nodes;
      UnlockNone(t, w, ticket);
      if w.Some? {
        nodes := nodes[w.value := Stamp(nodes[w.value].(treelock := 0), ticket)];
      }
      var node := dir;
      ghost var i := 0;
      assert c[..0] == [];
      while Some(node) != end && node != ROOT
        invariant i <= k && node == c[i]
        invariant nodes == Unlock(t, c[..i], w, ticket)
        decreases k - i
      {
        node := UnlockNode(node, ticket, t, dir, c, i, w);
        i := i + 1;
      }
      EndIs(t, dir, c, i, k);
    }

    /** One node of the walk is unlocked; the next is its parent. */
    method UnlockNode(node: Ino, ticket: int, ghost t: Tree, ghost dir: Ino, ghost c: seq<Ino>, ghost i: nat,
                      ghost w: Option<Ino>)
      returns (parent: Ino)
      requires IsChain(t, dir, c) && i + 1 < |c| && node == c[i] && node != ROOT && w != Some(node)
      requires nodes == Unlock(t, c[..i], w, ticket)
      modifies `nodes
      ensures nodes == Unlock(t, c[..i + 1], w, ticket) && parent == c[i + 1]
    {
      ChainAt(t, dir, c, i);
      UnlockOne(t, dir, c, i, w, ticket);
      var n := nodes[node];
      nodes := nodes[node := Stamp(n.(treelock := n.treelock - 1), ticket)];
      parent := n.link.value.parent;
    }

    /** The failing exit of the walk: what was locked is unlocked and carries the ticket. */
    method GiveUp(r: Request, w: Option<Ino>, node: Ino, ticket: int, ghost t: Tree, ghost c: seq<Ino>, ghost i: nat)
      requires IsChain(t, r.dir, c) && i < |c| && c[i] == node && node != ROOT
      requires nodes == Walked(t, w, c, ticket, i) && Cleared(t, w, c, ticket, i)
      requires w.Some? ==> w.value in t && w.value !in c && ticket != 0 && !WriteBlocked(t[w.value], ticket)
      requires forall n | n in t && n != ROOT :: t[n].treelock >= -1
      requires i == |c| - 1 || (node in t && Blocked(t[node], ticket))
      modifies `nodes
      ensures (nodes, if i < |c| - 1 then Again else NoEnt) == Walk(t, r, w, ticket, c)
    {
      ChainIn(t, r.dir, c);
      WalkFails(t, r, w, ticket, c, i);
      if ticket != 0 {
        WalkedShape(t, r.dir, w, c, ticket, i);
        UnlockPath(r.dir, w, Some(node), ticket, c, i);
        BackOut(t, r.dir, w, c, ticket, i);
      }
    }

    /** One step of the walk: put the node's name into the buffer, lock it, and go to its parent. */
    method ClimbOne(pb: PathBuffer, node: Ino, ticket: int) returns (r: Climb)
      requires node in nodes && pb.Valid()
      requires nodes[node].link.Some? ==> |pb.Path()| + |nodes[node].link.value.name| + 2 <= 0xffff_ffff
      modifies `nodes, pb, pb.buf
      ensures pb.Valid() && (pb.buf == old(pb.buf) || fresh(pb.buf))
      ensures r == ClimbResult(old(nodes)[node], ticket)
      ensures r.Up? && ticket != 0 ==> nodes == old(nodes)[node := ReadLocked(old(nodes)[node])]
      ensures !r.Up? || ticket == 0 ==> nodes == old(nodes)
      ensures r.Up? ==> pb.Path() == "/" + old(nodes)[node].link.value.name + old(pb.Path())
    {
      if nodes[node].link.None? {
        return Missing;
      }
      pb.Add(nodes[node].link.value.name);
      if ticket != 0 {
        if nodes[node].treelock == -1 || (nodes[node].ticket != 0 && nodes[node].ticket != ticket) {
          return Busy;
        }
        nodes := nodes[node := ReadLocked(nodes[node])];
      }
      return Up(nodes[node].link.value.parent);
    }

    /** The same step, seen from the walk. */
    method ClimbNext(pb: PathBuffer, node: Ino, r: Request, w: Option<Ino>, ticket: int,
                     ghost t: Tree, ghost c: seq<Ino>, ghost i: nat) returns (step: Climb)
      requires IsChain(t, r.dir, c) && pb.Valid() && OnWay(t, r, w, c, ticket, i, node, nodes, pb.Path())
      requires node != ROOT && (w.Some? ==> w.value !in c)
      requires |Joined(Names(t, r.dir, c) + Last(r.name))| < 0xffff_fffe
      modifies `nodes, pb, pb.buf
      ensures pb.Valid() && (pb.buf == old(pb.buf) || fresh(pb.buf))
      ensures step.Up? ==> i + 1 < |c| && OnWay(t, r, w, c, ticket, i + 1, step.parent, nodes, pb.Path())
      ensures !step.Up? ==> nodes == old(nodes) && (step.Missing? <==> i == |c| - 1)
      ensures step.Busy? ==> node in t && Blocked(t[node], ticket)
    {
      OnWayAt(t, r, w, c, ticket, i, node, nodes, pb.Path());
      ghost var path := pb.Path();
      ghost var before := nodes;
      step := ClimbOne(pb, node, ticket);
      if step.Up? {
        OnWayUp(t, r, w, c, ticket, i, node, before, path);
      }
    }

    /** The walk of try_get_path: build the path from the end and lock the nodes on the way. */
    method WalkUp(r: Request, w: Option<Ino>, ticket: int, ghost t: Tree, ghost c: seq<Ino>) returns (o: Outcome)
      requires IsChain(t, r.dir, c) && nodes == WriteLock(t, w)
      requires w.Some? ==> w.value in t && w.value !in c && w.value != ROOT && ticket != 0
      requires w.Some? ==> !WriteBlocked(t[w.value], ticket)
      requires |Joined(Names(t, r.dir, c) + Last(r.name))| < 0xffff_fffe
      requires forall n | n in t && n != ROOT :: t[n].treelock >= -1
      modifies `nodes
      ensures (nodes, o) == Walk(t, r, w, ticket, c)
    {
      assert r.name.Some? ==> |r.name.value| + 2 <= 0xffff_ffff by { JoinLast(Names(t, r.dir, c), r.name); }
      var pb := StartPath(r.name);
      var node := r.dir;
      ghost var i := 0;
      OnWayStart(t, r, w, c, ticket);
      while node != ROOT
        invariant fresh(pb) && fresh(pb.buf) && pb.Valid()
        invariant OnWay(t, r, w, c, ticket, i, node, nodes, pb.Path())
        decreases |c| - i
      {
        var step := ClimbOrFail(pb, node, r, w, ticket, t, c, i);
        if !step.Up? {
          return if step.Missing? then NoEnt else Again;
        }
        node := step.parent;
        i := i + 1;
      }
      OnWayEnd(t, r, w, c, ticket, i, nodes, pb.Path());
      var path := pb.Finish();
      o := Granted(path, w);
    }

    /** One step of the walk, or its end with everything unlocked. */
    method ClimbOrFail(pb: PathBuffer, node: Ino, r: Request, w: Option<Ino>, ticket: int,
                       ghost t: Tree, ghost c: seq<Ino>, ghost i: nat) returns (step: Climb)
      requires IsChain(t, r.dir, c) && pb.Valid() && OnWay(t, r, w, c, ticket, i, node, nodes, pb.Path()) &&
               node != ROOT
      requires w.Some? ==> w.value in t && w.value !in c && ticket != 0 && !WriteBlocked(t[w.value], ticket)
      requires |Joined(Names(t, r.dir, c) + Last(r.name))| < 0xffff_fffe
      requires forall n | n in t && n != ROOT :: t[n].treelock >= -1
      modifies `nodes, pb, pb.buf
      ensures pb.Valid() && (pb.buf == old(pb.buf) || fresh(pb.buf))
      ensures step.Up? ==> i + 1 < |c| && OnWay(t, r, w, c, ticket, i + 1, step.parent, nodes, pb.Path())
      ensures !step.Up? ==> (nodes, if step.Missing? then NoEnt else Again) == Walk(t, r, w, ticket, c)
    {
      step := ClimbNext(pb, node, r, w, ticket, t, c, i);
      if !step.Up? {
        GiveUp(r, w, node, ticket, t, c, i);
      }
    }

    /** try_get_path */
    method TryGetPath(r: Request, ticket: int, ghost c: seq<Ino>) returns (o: Outcome)
      requires Valid() && KeysUnique(nodes) && LinksOk(nodes) && IsChain(nodes, r.dir, c)
      requires r.wr ==> ticket != 0 && r.name.Some?
      requires |Joined(Names(nodes, r.dir, c) + Last(r.name))| < 0xffff_fffe
      requires forall n | n in nodes && n != ROOT :: nodes[n].treelock >= -1
      modifies `nodes
      ensures Valid() && (nodes, o) == Try(old(nodes), r, c, ticket)
    {
      ghost var t := nodes;
      var w, ok := LockNamed(r, ticket, c);
      if !ok {
        return Again;
      }
      if w.Some? { TargetOffChain(t, r, c); }
      o := WalkUp(r, w, ticket, t, c);
      TryIsWalk(t, r, ticket, c);
      TryShape(t, r, c, ticket);
      NameChainsFrame(t, nodes, nameTable);
    }

    /** The named node, if it is asked for: write-locked, or reserved when it is in use. */
    method LockNamed(r: Request, ticket: int, ghost c: seq<Ino>) returns (w: Option<Ino>, ok: bool)
      requires Valid() && KeysUnique(nodes) && (r.wr ==> r.name.Some?)
      modifies `nodes
      ensures w == Target(old(nodes), r) && ok == !(w.Some? && WriteBlocked(old(nodes)[w.value], ticket))
      ensures if ok then nodes == WriteLock(old(nodes), w)
              else Valid() && nodes == old(nodes)[w.value := Stamp(old(nodes)[w.value], ticket)]
    {
      w, ok := None, true;
      if r.wr {
        w := LookupNode(r.dir, r.name.value);
        if w.Some? {
          var n := nodes[w.value];
          if n.treelock != 0 || (n.ticket != 0 && n.ticket != ticket) {
            nodes := nodes[w.value := Stamp(n, ticket)];
            NameChainsFrame(old(nodes), nodes, nameTable);
            ok := false;
          } else {
            nodes := nodes[w.value := n.(treelock := -1, ticket := 0)];
          }
        }
      }
    }

    /** try_get_path2: the first path is unlocked again when the second is not granted. */
    method TryGetPath2(r1: Request, r2: Request, ticket: int, ghost c1: seq<Ino>, ghost c2: seq<Ino>)
      returns (o1: Outcome, o2: Outcome)
      requires Valid() && KeysUnique(nodes) && LinksOk(nodes) && ticket != 0
      requires IsChain(nodes, r1.dir, c1) && IsChain(nodes, r2.dir, c2)
      requires (r1.wr ==> r1.name.Some?) && (r2.wr ==> r2.name.Some?)
      requires |Joined(Names(nodes, r1.dir, c1) + Last(r1.name))| < 0xffff_fffe
      requires |Joined(Names(nodes, r2.dir, c2) + Last(r2.name))| < 0xffff_fffe
      requires forall n | n in nodes && n != ROOT :: nodes[n].treelock >= -1
      modifies `nodes
      ensures Valid() && o1 == Try(old(nodes), r1, c1, ticket).1
      ensures !o1.Granted? ==> o2 == o1 && nodes == Try(old(nodes), r1, c1, ticket).0
      ensures o1.Granted? ==>
                var t1 := Try(old(nodes), r1, c1, ticket).0;
                && IsChain(t1, r2.dir, c2)
                && var (t2, o) := Try(t1, r2, c2, ticket);
                o2 == o && nodes == if o.Granted? then t2 else Unlock(t2, c1, o1.w, ticket)
    {
      ghost var t := nodes;
      o1 := TryGetPath(r1, ticket, c1);
      o2 := o1;
      if o1.Granted? {
        TryTakes(t, r1, c1, ticket);
        if o1.w.Some? { TargetOffChain(t, r1, c1); }
        o2 := TrySecond(r1, o1.w, r2, ticket, t, c1, c2);
      }
    }

    /** The second half of try_get_path2, with the first path granted. */
    method TrySecond(r1: Request, w: Option<Ino>, r2: Request, ticket: int, ghost t: Tree, ghost c1: seq<Ino>,
                     ghost c2: seq<Ino>)
      returns (o2: Outcome)
      requires Valid() && KeysUnique(t) && LinksOk(t) && ticket != 0 && Takes(t, nodes, c1, w)
      requires IsChain(t, r1.dir, c1) && c1[|c1| - 1] == ROOT && IsChain(t, r2.dir, c2)
      requires w.Some? ==> w.value in t && w.value !in c1 && w.value != ROOT
      requires r2.wr ==> r2.name.Some?
      requires |Joined(Names(t, r2.dir, c2) + Last(r2.name))| < 0xffff_fffe
      requires forall n | n in t && n != ROOT :: t[n].treelock >= -1
      modifies `nodes
      ensures Valid() && IsChain(old(nodes), r2.dir, c2)
      ensures var (t2, o) := Try(old(nodes), r2, c2, ticket);
              o2 == o && nodes == if o.Granted? then t2 else Unlock(t2, c1, w, ticket)
    {
      GrantLocked(t, nodes, c1, w);
      SameLinks(t, nodes);
      ghost var t1 := nodes;
      o2 := TryGetPath(r2, ticket, c2);
      if !o2.Granted? {
        TryFailed(t1, r2, c2, ticket);
        UnlockFirst(r1, w, ticket, t, t1, c1);
      }
    }

    method UnlockFirst(r1: Request, w: Option<Ino>, ticket: int, ghost t: Tree, ghost t1: Tree, ghost c1: seq<Ino>)
      requires Valid() && Takes(t, t1, c1, w) && SameLocks(t1, nodes)
      requires IsChain(t, r1.dir, c1) && c1[|c1| - 1] == ROOT
      requires w.Some? ==> w.value in t && w.value !in c1 && w.value != ROOT
      requires forall n | n in t && n != ROOT :: t[n].treelock >= -1
      modifies `nodes
      ensures Valid() && nodes == Unlock(old(nodes), c1, w, ticket)
    {
      ghost var t2 := nodes;
      SameLinks(t, t2);
      GrantUnlocks(t, t1, t2, r1.dir, c1, w);
      UnlockPath(r1.dir, w, None, ticket, c1, |c1| - 1);
      UnlockPrefix(t2, r1.dir, c1, w, ticket);
      UnlockNames(t2, c1, w, ticket, nameTable);
    }

    /** free_path and free_path_wrlock */
    method FreePath(h: Hold)
      requires Valid() && HoldOk(nodes, h) && UnlockSafe(nodes, h.chain, h.w) && (h.w.Some? ==> h.w.value !in h.chain)
      modifies `nodes
      ensures Valid() && nodes == Unlock(old(nodes), h.chain, h.w, 0)
    {
      ghost var k := |h.chain| - 1;
      UnlockPath(h.req.dir, h.w, None, 0, h.chain, k);
      UnlockPrefix(old(nodes), h.req.dir, h.chain, h.w, 0);
      UnlockNames(old(nodes), h.chain, h.w, 0, nameTable);
    }
  }

  lemma UnlockNames(t: Tree, c: seq<Ino>, w: Option<Ino>, ticket: int, table: seq<seq<Ino>>)
    requires NamesOk(t, table)
    ensures NamesOk(Unlock(t, c, w, ticket), table) && Unlock(t, c, w, ticket).Keys == t.Keys
  {
    NameChainsFrame(t, Unlock(t, c, w, ticket), table);
  }

  lemma GrantLocked(t: Tree, t1: Tree, c: seq<Ino>, w: Option<Ino>)
    requires Takes(t, t1, c, w) && forall n | n in t && n != ROOT :: t[n].treelock >= -1
    ensures forall n | n in t1 && n != ROOT :: t1[n].treelock >= -1
    ensures LinksOk(t) ==> LinksOk(t1)
    ensures KeysUnique(t) ==> KeysUnique(t1)
  {
  }

  lemma GrantUnlocks(t: Tree, t1: Tree, t2: Tree, d: Ino, c: seq<Ino>, w: Option<Ino>)
    requires IsChain(t, d, c) && Takes(t, t1, c, w) && SameLocks(t1, t2) && w != Some(ROOT)
    requires w.Some? ==> w.value in t
    requires forall n | n in t && n != ROOT :: t[n].treelock >= -1
    ensures UnlockSafe(t2, c[..|c| - 1], w)
  {
    ChainIn(t, d, c);
    assert forall n | n in c[..|c| - 1] :: n in c;
  }

  /** Only the root is left out of the walk, and unlocking passes it over. */
  lemma UnlockPrefix(t: Tree, d: Ino, c: seq<Ino>, w: Option<Ino>, ticket: int)
    requires IsChain(t, d, c) && c[|c| - 1] == ROOT
    ensures Unlock(t, c[..|c| - 1], w, ticket) == Unlock(t, c, w, ticket)
  {
    ChainIn(t, d, c);
  }

  /** try_get_path once the named node, if any, is write-locked. */
  ghost function Walk(t: Tree, r: Request, w: Option<Ino>, ticket: int, c: seq<Ino>): (Tree, Outcome)
    requires IsChain(t, r.dir, c)
  {
    var t1 := WriteLock(t, w);
    ChainIn(t, r.dir, c);
    var k := StopAt(t1, c, ticket, 0);
    if c[k] == ROOT then
      (if ticket == 0 then t else ReadLock(t1, c[..k]), Granted(PathOf(t, r.dir, c, r.name), w))
    else
      (if ticket == 0 then t else Reserve(t, c[..k] + OptSeq(w), ticket), if k < |c| - 1 then Again else NoEnt)
  }

  lemma TryIsWalk(t: Tree, r: Request, ticket: int, c: seq<Ino>)
    requires IsChain(t, r.dir, c) && (Target(t, r).Some? ==> !WriteBlocked(t[Target(t, r).value], ticket))
    ensures Try(t, r, c, ticket) == Walk(t, r, Target(t, r), ticket, c)
  {
  }

  /** The nodes after `i` steps of the walk. */
  ghost function Walked(t: Tree, w: Option<Ino>, c: seq<Ino>, ticket: int, i: nat): Tree
    requires i <= |c|
  {
    if ticket == 0 then WriteLock(t, w) else ReadLock(WriteLock(t, w), c[..i])
  }

  datatype Climb = Up(parent: Ino) | Missing | Busy

  function ClimbResult(n: Node, ticket: int): Climb {
    if n.link.None? then Missing else if Blocked(n, ticket) then Busy else Up(n.link.value.parent)
  }

  function ReadLocked(n: Node): Node {
    n.(treelock := n.treelock + 1, ticket := 0)
  }

  /** The walk stands at `node`, the `i`th of the chain, with `path` built from the names below. */
  ghost predicate OnWay(t: Tree, r: Request, w: Option<Ino>, c: seq<Ino>, ticket: int, i: nat, node: Ino, u: Tree,
                        path: string)
    requires IsChain(t, r.dir, c)
  {
    && i < |c| && node == c[i] && IsChain(t, node, c[i..])
    && u == Walked(t, w, c, ticket, i) && Cleared(t, w, c, ticket, i)
    && Joined(Names(t, node, c[i..])) + path == Joined(Names(t, r.dir, c) + Last(r.name))
  }

  /** None of the nodes passed so far was in the way. */
  ghost predicate Cleared(t: Tree, w: Option<Ino>, c: seq<Ino>, ticket: int, i: nat)
    requires i <= |c|
  {
    forall j | 0 <= j < i ::
      c[j] in t && c[j] != ROOT && c[j] in WriteLock(t, w) && !Blocked(WriteLock(t, w)[c[j]], ticket)
  }

  lemma OnWayStart(t: Tree, r: Request, w: Option<Ino>, c: seq<Ino>, ticket: int)
    requires IsChain(t, r.dir, c)
    ensures OnWay(t, r, w, c, ticket, 0, r.dir, WriteLock(t, w), if r.name.Some? then "/" + r.name.value + "" else "")
  {
    JoinLast(Names(t, r.dir, c), r.name);
    assert c[0..] == c;
    assert Walked(t, w, c, ticket, 0) == WriteLock(t, w);
  }

  lemma OnWayAt(t: Tree, r: Request, w: Option<Ino>, c: seq<Ino>, ticket: int, i: nat, node: Ino, u: Tree, path: string)
    requires IsChain(t, r.dir, c) && OnWay(t, r, w, c, ticket, i, node, u, path) && node != ROOT
    requires w.Some? ==> w.value !in c
    requires |Joined(Names(t, r.dir, c) + Last(r.name))| < 0xffff_fffe
    ensures node in t && node in u && u[node] == t[node]
    ensures t[node].link.Some? <==> i < |c| - 1
    ensures t[node].link.Some? ==> |path| + |t[node].link.value.name| + 2 <= 0xffff_ffff
    ensures node in WriteLock(t, w) && WriteLock(t, w)[node] == t[node]
    ensures forall n | n in c :: n in t && n in WriteLock(t, w)
  {
    ChainIn(t, r.dir, c);
    ChainAt(t, r.dir, c, i);
    WalkedAt(t, r.dir, w, c, ticket, i);
    assert w != Some(node);
    if i < |c| - 1 { NamesStep(t, r.dir, c, i); }
  }

  lemma OnWayUp(t: Tree, r: Request, w: Option<Ino>, c: seq<Ino>, ticket: int, i: nat, node: Ino, u: Tree, path: string)
    requires IsChain(t, r.dir, c) && OnWay(t, r, w, c, ticket, i, node, u, path) && node != ROOT
    requires w.Some? ==> w.value !in c
    requires node in t && t[node].link.Some? && !Blocked(t[node], ticket)
    ensures node in u && i + 1 < |c| && t[node].link.value.parent == c[i + 1]
    ensures OnWay(t, r, w, c, ticket, i + 1, t[node].link.value.parent,
                  if ticket == 0 then u else u[node := ReadLocked(u[node])], "/" + t[node].link.value.name + path)
  {
    assert i + 1 < |c| && t[node].link.value.parent == c[i + 1] by { ChainAt(t, r.dir, c, i); }
    var u' := if ticket == 0 then u else u[node := ReadLocked(u[node])];
    assert node in u && u' == Walked(t, w, c, ticket, i + 1) by { WalkedAt(t, r.dir, w, c, ticket, i); }
    assert Cleared(t, w, c, ticket, i + 1) by { ClearedUp(t, w, c, ticket, i); }
    NamesUp(t, r, c, i, path);
  }

  lemma ClearedUp(t: Tree, w: Option<Ino>, c: seq<Ino>, ticket: int, i: nat)
    requires i < |c| && Cleared(t, w, c, ticket, i) && (w.Some? ==> w.value !in c)
    requires c[i] in t && c[i] != ROOT && !Blocked(t[c[i]], ticket)
    ensures Cleared(t, w, c, ticket, i + 1)
  {
    assert w != Some(c[i]);
  }

  lemma NamesUp(t: Tree, r: Request, c: seq<Ino>, i: nat, path: string)
    requires IsChain(t, r.dir, c) && i < |c| - 1 && IsChain(t, c[i], c[i..])
    ensures c[i] in t && t[c[i]].link.Some? && IsChain(t, c[i + 1], c[i + 1..])
    ensures Joined(Names(t, c[i + 1], c[i + 1..])) + ("/" + t[c[i]].link.value.name + path) ==
            Joined(Names(t, c[i], c[i..])) + path
  {
    NamesStep(t, r.dir, c, i);
  }

  lemma OnWayEnd(t: Tree, r: Request, w: Option<Ino>, c: seq<Ino>, ticket: int, i: nat, u: Tree, path: string)
    requires IsChain(t, r.dir, c) && OnWay(t, r, w, c, ticket, i, ROOT, u, path) && (ticket == 0 ==> w.None?)
    ensures path != "" ==> path[0] == '/'
    ensures (u, Granted(if path == "" then "/" else path, w)) == Walk(t, r, w, ticket, c)
  {
    LastRoot(t, r.dir, c, i);
    ChainIn(t, r.dir, c);
    assert c[i..] == [ROOT];
    assert Joined(Names(t, ROOT, c[i..])) + path == path;
    PathIs(Names(t, r.dir, c) + Last(r.name));
    WalkEnds(t, r, w, ticket, c, i);
  }

  lemma WalkFails(t: Tree, r: Request, w: Option<Ino>, ticket: int, c: seq<Ino>, i: nat)
    requires IsChain(t, r.dir, c) && i < |c| && c[i] != ROOT && Cleared(t, w, c, ticket, i)
    requires w.Some? ==> w.value !in c
    requires i == |c| - 1 || (c[i] in t && Blocked(t[c[i]], ticket))
    ensures Walk(t, r, w, ticket, c) ==
            (if ticket == 0 then t else Reserve(t, c[..i] + OptSeq(w), ticket), if i < |c| - 1 then Again else NoEnt)
  {
    ChainIn(t, r.dir, c);
    assert w != Some(c[i]);
    StopIs(WriteLock(t, w), c, ticket, i);
  }

  lemma WalkEnds(t: Tree, r: Request, w: Option<Ino>, ticket: int, c: seq<Ino>, i: nat)
    requires IsChain(t, r.dir, c) && i == |c| - 1 && c[i] == ROOT && (ticket == 0 ==> w.None?)
    requires Cleared(t, w, c, ticket, i)
    ensures Walk(t, r, w, ticket, c) == (Walked(t, w, c, ticket, i), Granted(PathOf(t, r.dir, c, r.name), w))
  {
    ChainIn(t, r.dir, c);
    StopIs(WriteLock(t, w), c, ticket, i);
  }

  /** One lookup more for `r`, which may be new; all other nodes have their lookups and names. */
  ghost predicate Counts(t: Tree, t': Tree, r: Ino) {
    && t'.Keys == t.Keys + {r} && t'[r].nlookup == (if r in t then t[r].nlookup else 0) + 1
    && forall n | n in t && n != r :: t'[n].nlookup == t[n].nlookup && t'[n].link == t[n].link
  }

  lemma FindCounts(t: Tree, dir: Ino, name: Option<string>, r: Ino)
    requires dir in t && (name.None? ==> r == dir)
    requires name.Some? ==> match Lookup(t, dir, name.value) case Some(n) => r == n case None => r !in t
    ensures Counts(t, Find(t, dir, name, r), r)
  {
  }

  /** `n` has the new name, `v` none, every other node its own; lookups and locks are as before. */
  ghost predicate Renamed(t: Tree, t': Tree, n: Ino, v: Option<Ino>, to: Link) {
    && n in t' && t'[n].link == Some(to)
    && forall m | m in t' ::
      && m in t && (m != n ==> t'[m].link == if v == Some(m) then None else t[m].link)
      && t'[m].nlookup == t[m].nlookup && t'[m].treelock == t[m].treelock && t'[m].ticket == t[m].ticket
  }

  lemma MoveRenames(t: Tree, w: Ino, v: Option<Ino>, dir: Ino, name: string)
    requires ParentIn(t, w) && (v.Some? ==> ParentIn(t, v.value) && v.value != w)
    requires var t1 := if v.Some? then Unhash(t, v.value) else t;
             && ParentIn(t1, w) && t1[w].link.Some? && t1[w].link.value.parent != w && dir in Unhash(t1, w)
    ensures Renamed(t, Move(t, w, v, dir, name), w, v, Link(dir, name))
  {
    var t1 := if v.Some? then Unhash(t, v.value) else t;
    var t2 := Unhash(t1, w);
    if v.Some? { UnhashUnlinks(t, v.value); }
    UnhashUnlinks(t1, w);
    assert w in t2;
    HashLinksOne(t2, w, dir, name);
    assert Move(t, w, v, dir, name) == Hash(t2, w, dir, name);
  }

  /** Everything but the counters and the name of `n` is as before, in what is left. */
  ghost predicate OnlyLink(t: Tree, t': Tree, n: Ino, link: Option<Link>) {
    forall m | m in t' ::
      && m in t && t'[m].link == (if m == n then link else t[m].link)
      && t'[m].nlookup == t[m].nlookup && t'[m].treelock == t[m].treelock && t'[m].ticket == t[m].ticket
  }

  lemma UnhashUnlinks(t: Tree, n: Ino)
    requires ParentIn(t, n)
    ensures OnlyLink(t, Unhash(t, n), n, None)
  {
  }

  lemma HashLinksOne(t: Tree, n: Ino, dir: Ino, name: string)
    requires n in t && dir in t
    ensures OnlyLink(t, Hash(t, n, dir, name), n, Some(Link(dir, name))) && n in Hash(t, n, dir, name)
  {
  }

  lemma CreateAs(t: Tree, p: Ino, name: string, id: Ino)
    requires p in t && id !in t
    ensures Bump(Hash(t[id := Node(None, 1, 0, 0, 0)], id, p, name), id) == Create(t, p, name, id)
  {
  }

  lemma UnlockNone(t: Tree, w: Option<Ino>, ticket: int)
    requires w.Some? ==> w.value in t
    ensures Unlock(t, [], w, ticket) ==
            if w.Some? then t[w.value := Stamp(t[w.value].(treelock := 0), ticket)] else t
  {
  }

  lemma EndIs(t: Tree, d: Ino, c: seq<Ino>, i: nat, k: nat)
    requires IsChain(t, d, c) && i <= k < |c| && (c[i] == ROOT || c[i] == c[k])
    ensures i == k
  {
    ChainAt(t, d, c, i);
    if i < k { ChainDistinct(t, d, c, i, k); }
  }

  lemma UnlockOne(t: Tree, d: Ino, c: seq<Ino>, i: nat, w: Option<Ino>, ticket: int)
    requires IsChain(t, d, c) && i < |c| && c[i] in t && c[i] != ROOT && w != Some(c[i])
    ensures var u := Unlock(t, c[..i], w, ticket);
            && c[i] in u && u[c[i]] == t[c[i]]
            && Unlock(t, c[..i + 1], w, ticket) == u[c[i] := Stamp(u[c[i]].(treelock := u[c[i]].treelock - 1), ticket)]
  {
    NotAgain(t, d, c, i);
    assert c[..i + 1] == c[..i] + [c[i]];
  }

  lemma WalkedAt(t: Tree, d: Ino, w: Option<Ino>, c: seq<Ino>, ticket: int, i: nat)
    requires IsChain(t, d, c) && i < |c| && c[i] in t && (w.Some? ==> w.value !in c)
    ensures var u := Walked(t, w, c, ticket, i);
            && SameShape(t, u) && c[i] in u && u[c[i]] == t[c[i]]
            && (ticket != 0 ==>
                  Walked(t, w, c, ticket, i + 1) ==
                  u[c[i] := u[c[i]].(treelock := u[c[i]].treelock + 1, ticket := 0)])
            && (ticket == 0 ==> Walked(t, w, c, ticket, i + 1) == u)
  {
    NotAgain(t, d, c, i);
    assert c[..i + 1] == c[..i] + [c[i]];
  }

  lemma WalkedShape(t: Tree, d: Ino, w: Option<Ino>, c: seq<Ino>, ticket: int, i: nat)
    requires IsChain(t, d, c) && i < |c| && ticket != 0
    requires w.Some? ==> w.value in t && w.value !in c
    requires forall n | n in t && n != ROOT :: t[n].treelock >= -1
    requires Cleared(t, w, c, ticket, i)
    ensures var u := Walked(t, w, c, ticket, i);
            SameShape(t, u) && IsChain(u, d, c) && UnlockSafe(u, c[..i], w)
  {
    var u := Walked(t, w, c, ticket, i);
    SameLinks(t, u);
    forall n | n in c[..i]
      ensures n in u && u[n].treelock > 0
    {
      var j :| 0 <= j < i && c[j] == n;
    }
  }

  lemma BackOut(t: Tree, d: Ino, w: Option<Ino>, c: seq<Ino>, ticket: int, i: nat)
    requires IsChain(t, d, c) && i < |c| && ticket != 0 && Cleared(t, w, c, ticket, i)
    requires w.Some? ==> w.value in t && w.value !in c && t[w.value].treelock == 0
    ensures Unlock(Walked(t, w, c, ticket, i), c[..i], w, ticket) == Reserve(t, c[..i] + OptSeq(w), ticket)
  {
    var a := Unlock(Walked(t, w, c, ticket, i), c[..i], w, ticket);
    var b := Reserve(t, c[..i] + OptSeq(w), ticket);
    assert w.Some? ==> w.value !in c[..i];
    forall n | n in t
      ensures a[n] == b[n]
    {
    }
  }

  lemma StopIs(t1: Tree, c: seq<Ino>, ticket: int, i: nat)
    requires i < |c| && forall n | n in c :: n in t1
    requires forall j | 0 <= j < i :: !Blocked(t1[c[j]], ticket)
    requires i == |c| - 1 || Blocked(t1[c[i]], ticket)
    ensures StopAt(t1, c, ticket, 0) == i
  {
  }

  lemma NamesStep(t: Tree, d: Ino, c: seq<Ino>, i: nat)
    requires IsChain(t, d, c) && i < |c| - 1
    ensures c[i] in t && t[c[i]].link.Some? && IsChain(t, c[i], c[i..]) && IsChain(t, c[i + 1], c[i + 1..])
    ensures Joined(Names(t, c[i], c[i..])) == Joined(Names(t, c[i + 1], c[i + 1..])) + "/" + t[c[i]].link.value.name
  {
    ChainAt(t, d, c, i);
    ChainAt(t, d, c, i + 1);
    assert c[i..][1..] == c[i + 1..];
    var ns := Names(t, c[i + 1], c[i + 1..]);
    var n := t[c[i]].link.value.name;
    assert (ns + [n])[..|ns|] == ns;
  }

  lemma JoinLast(ns: seq<string>, name: Option<string>)
    ensures Joined(ns + Last(name)) == if name.Some? then Joined(ns) + "/" + name.value else Joined(ns)
  {
    if name.Some? {
      assert (ns + [name.value])[..|ns|] == ns;
    } else {
      assert ns + Last(name) == ns;
    }
  }

  lemma PathIs(ns: seq<string>)
    ensures PathString(ns) == if Joined(ns) == "" then "/" else Joined(ns)
    ensures Joined(ns) != "" ==> Joined(ns)[0] == '/'
  {
    FirstSlash(ns);
  }

  lemma {:induction false} FirstSlash(ns: seq<string>)
    ensures ns != [] ==> Joined(ns) != "" && Joined(ns)[0] == '/'
    decreases |ns|
  {
    if |ns| > 1 { FirstSlash(ns[..|ns| - 1]); }
  }

  lemma NotAgain(t: Tree, d: Ino, c: seq<Ino>, i: nat)
    requires IsChain(t, d, c) && i < |c|
    ensures c[i] !in c[..i]
  {
    forall j | 0 <= j < i
      ensures c[j] != c[i]
    {
      ChainDistinct(t, d, c, j, i);
    }
  }

  lemma NextMod(start: nat, k: nat)
    ensures (CounterAt(start, k) + 1) % TWO32 == CounterAt(start, k + 1)
  {
  }
}
