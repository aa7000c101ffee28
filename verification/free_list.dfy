/**
 The freelist of kernel nodes: a ring of forward and backward pointers with a head.
 A node that is not on the list has null pointers, here no entry in the maps.
 */
module FreeList {
  import opened Wrappers

  type Nid = nat

  predicate Distinct(s: seq<Nid>) {
    forall i, j | 0 <= i < j < |s| :: s[i] != s[j]
  }

  function After(i: nat, n: nat): nat
    requires i < n
  {
    if i + 1 == n then 0 else i + 1
  }

  function Before(i: nat, n: nat): nat
    requires i < n
  {
    if i == 0 then n - 1 else i - 1
  }

  ghost predicate SameKeys(s: seq<Nid>, m: map<Nid, Nid>) {
    forall n :: n in m <==> n in s
  }

  ghost predicate Forward(s: seq<Nid>, freef: map<Nid, Nid>) {
    SameKeys(s, freef) && forall i {:trigger freef[s[i]]} | 0 <= i < |s| :: freef[s[i]] == s[After(i, |s|)]
  }

  ghost predicate Backward(s: seq<Nid>, freeb: map<Nid, Nid>) {
    SameKeys(s, freeb) && forall i {:trigger freeb[s[i]]} | 0 <= i < |s| :: freeb[s[i]] == s[Before(i, |s|)]
  }

  /** The pointers run around the list `s`, both ways. */
  ghost predicate IsRing(s: seq<Nid>, freef: map<Nid, Nid>, freeb: map<Nid, Nid>) {
    Distinct(s) && Forward(s, freef) && Backward(s, freeb)
  }

  function Without(s: seq<Nid>, k: nat): seq<Nid>
    requires k < |s|
  {
    s[..k] + s[k + 1..]
  }

  class Ring {
    var head: Option<Nid>
    var freef: map<Nid, Nid>
    var freeb: map<Nid, Nid>

    /** The nodes from the head on. */
    ghost predicate Holds(s: seq<Nid>)
      reads this
    {
      IsRing(s, freef, freeb) && head == if s == [] then None else Some(s[0])
    }

    constructor ()
      ensures Holds([])
    {
      head, freef, freeb := None, map[], map[];
    }

    /** The last part of fusefs_addfree: link the node in before the head, that is, last. */
    method Add(np: Nid, ghost s: seq<Nid>)
      requires Holds(s) && np !in s
      modifies this
      ensures Holds(s + [np])
    {
      if head.None? {
        freef := freef[np := np];
        freeb := freeb[np := np];
        head := Some(np);
      } else {
        var h := head.value;
        var last := freeb[h];
        freef := freef[np := h];
        freeb := freeb[np := last];
        freef := freef[last := np];
        freeb := freeb[h := np];
        Appended(s, old(freef), old(freeb), np);
      }
    }

    /** sn_rmfree */
    method Remove(np: Nid, ghost s: seq<Nid>, ghost k: nat)
      requires Holds(s) && k < |s| && s[k] == np
      modifies this
      ensures Holds(Without(s, k))
    {
      if head == Some(np) {
        head := Some(freef[np]);
        if head == Some(np) {
          head := None;
        }
      }
      var b := freeb[np];
      var f := freef[np];
      freef := freef[b := f];
      freeb := freeb[f := b];
      freef := freef - {np};
      freeb := freeb - {np};
      Removed(s, old(freef), old(freeb), k);
    }
  }

  lemma Appended(s: seq<Nid>, freef: map<Nid, Nid>, freeb: map<Nid, Nid>, np: Nid)
    requires s != [] && IsRing(s, freef, freeb) && np !in s
    ensures freeb[s[0]] == s[|s| - 1]
    ensures IsRing(s + [np], freef[np := s[0]][s[|s| - 1] := np], freeb[np := s[|s| - 1]][s[0] := np])
  {
    AppendedForward(s, freef, np);
    AppendedBackward(s, freeb, np);
  }

  lemma AppendedForward(s: seq<Nid>, freef: map<Nid, Nid>, np: Nid)
    requires s != [] && Distinct(s) && Forward(s, freef) && np !in s
    ensures Forward(s + [np], freef[np := s[0]][s[|s| - 1] := np])
  {
    var s' := s + [np];
    var m' := freef[np := s[0]][s[|s| - 1] := np];
    assert SameKeys(s', m');
    forall i | 0 <= i < |s'|
      ensures m'[s'[i]] == s'[After(i, |s'|)]
    {
      if i < |s| - 1 { assert s'[i] == s[i] && s[i] != s[|s| - 1] && s[i] != np; }
    }
  }

  lemma AppendedBackward(s: seq<Nid>, freeb: map<Nid, Nid>, np: Nid)
    requires s != [] && Distinct(s) && Backward(s, freeb) && np !in s
    ensures Backward(s + [np], freeb[np := s[|s| - 1]][s[0] := np])
  {
    var s' := s + [np];
    var m' := freeb[np := s[|s| - 1]][s[0] := np];
    assert SameKeys(s', m');
    forall i | 0 <= i < |s'|
      ensures m'[s'[i]] == s'[Before(i, |s'|)]
    {
      if 0 < i < |s| { assert s'[i] == s[i] && s[i] != s[0] && s[i] != np; }
    }
  }

  lemma Removed(s: seq<Nid>, freef: map<Nid, Nid>, freeb: map<Nid, Nid>, k: nat)
    requires IsRing(s, freef, freeb) && k < |s|
    ensures var b, f := freeb[s[k]], freef[s[k]];
            IsRing(Without(s, k), freef[b := f] - {s[k]}, freeb[f := b] - {s[k]})
  {
    WithoutIs(s, k);
    RemovedForward(s, freef, k);
    RemovedBackward(s, freeb, k);
  }

  lemma WithoutIs(s: seq<Nid>, k: nat)
    requires Distinct(s) && k < |s|
    ensures Distinct(Without(s, k)) && forall n :: n in Without(s, k) <==> n in s && n != s[k]
    ensures forall i | 0 <= i < |s| - 1 :: Without(s, k)[i] == s[if i < k then i else i + 1]
  {
    var s' := Without(s, k);
    assert forall i | 0 <= i < |s'| :: s'[i] == s[if i < k then i else i + 1];
    forall n
      ensures n in s' <==> n in s && n != s[k]
    {
      if n in s && n != s[k] {
        var i :| 0 <= i < |s| && s[i] == n;
        assert s'[if i < k then i else i - 1] == n;
      }
    }
  }

  /** Where position `i` of the list without its `k`th node was before. */
  function Was(i: nat, k: nat): nat {
    if i < k then i else i + 1
  }

  lemma WasAfter(n: nat, k: nat, i: nat)
    requires k < n && i < n - 1
    ensures Was(After(i, n - 1), k) == if Was(i, k) == Before(k, n) then After(k, n) else After(Was(i, k), n)
    ensures Was(Before(i, n - 1), k) == if Was(i, k) == After(k, n) then Before(k, n) else Before(Was(i, k), n)
  {
  }

  lemma RemovedForward(s: seq<Nid>, freef: map<Nid, Nid>, k: nat)
    requires Distinct(s) && Forward(s, freef) && k < |s|
    ensures Forward(Without(s, k), freef[s[Before(k, |s|)] := s[After(k, |s|)]] - {s[k]})
  {
    KeysWithout(s, freef, k, Before(k, |s|), s[After(k, |s|)]);
    forall i | 0 <= i < |s| - 1
      ensures (freef[s[Before(k, |s|)] := s[After(k, |s|)]] - {s[k]})[Without(s, k)[i]] ==
              Without(s, k)[After(i, |s| - 1)]
    {
      ForwardAt(s, freef, k, i);
    }
  }

  lemma ForwardAt(s: seq<Nid>, freef: map<Nid, Nid>, k: nat, i: nat)
    requires Distinct(s) && Forward(s, freef) && k < |s| && i < |s| - 1
    ensures var m' := freef[s[Before(k, |s|)] := s[After(k, |s|)]] - {s[k]};
            Without(s, k)[i] in m' && m'[Without(s, k)[i]] == Without(s, k)[After(i, |s| - 1)]
  {
    var j := Was(i, k);
    assert Without(s, k)[i] == s[j];
    assert Without(s, k)[After(i, |s| - 1)] == s[Was(After(i, |s| - 1), k)];
    WasAfter(|s|, k, i);
    assert freef[s[j]] == s[After(j, |s|)];
    SwappedAt(s, freef, k, j, Before(k, |s|), s[After(k, |s|)]);
  }

  lemma RemovedBackward(s: seq<Nid>, freeb: map<Nid, Nid>, k: nat)
    requires Distinct(s) && Backward(s, freeb) && k < |s|
    ensures Backward(Without(s, k), freeb[s[After(k, |s|)] := s[Before(k, |s|)]] - {s[k]})
  {
    KeysWithout(s, freeb, k, After(k, |s|), s[Before(k, |s|)]);
    forall i | 0 <= i < |s| - 1
      ensures (freeb[s[After(k, |s|)] := s[Before(k, |s|)]] - {s[k]})[Without(s, k)[i]] ==
              Without(s, k)[Before(i, |s| - 1)]
    {
      BackwardAt(s, freeb, k, i);
    }
  }

  lemma BackwardAt(s: seq<Nid>, freeb: map<Nid, Nid>, k: nat, i: nat)
    requires Distinct(s) && Backward(s, freeb) && k < |s| && i < |s| - 1
    ensures var m' := freeb[s[After(k, |s|)] := s[Before(k, |s|)]] - {s[k]};
            Without(s, k)[i] in m' && m'[Without(s, k)[i]] == Without(s, k)[Before(i, |s| - 1)]
  {
    var j := Was(i, k);
    assert Without(s, k)[i] == s[j];
    assert Without(s, k)[Before(i, |s| - 1)] == s[Was(Before(i, |s| - 1), k)];
    WasAfter(|s|, k, i);
    assert freeb[s[j]] == s[Before(j, |s|)];
    SwappedAt(s, freeb, k, j, After(k, |s|), s[Before(k, |s|)]);
  }

  lemma KeysWithout(s: seq<Nid>, m: map<Nid, Nid>, k: nat, b: nat, f: Nid)
    requires Distinct(s) && SameKeys(s, m) && k < |s| && b < |s|
    ensures SameKeys(Without(s, k), m[s[b] := f] - {s[k]})
  {
    WithoutIs(s, k);
  }

  lemma SwappedAt(s: seq<Nid>, m: map<Nid, Nid>, k: nat, j: nat, b: nat, f: Nid)
    requires Distinct(s) && k < |s| && j < |s| && b < |s| && j != k && s[j] in m
    ensures var m' := m[s[b] := f] - {s[k]};
            s[j] in m' && m'[s[j]] == if j == b then f else m[s[j]]
  {
    assert s[j] != s[k] && (j != b ==> s[j] != s[b]);
  }
}
