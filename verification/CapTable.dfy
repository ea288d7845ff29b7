/** The capability table (cap_table.c): an array of entries whose prev and next fields link the
    entries in use into one circular list. */
module CapTable {
  import opened CapTypes

  datatype Cte = Cte(prev: nat, next: nat, cap: Cap)

  ghost predicate Bounded(t: seq<Cte>) {
    forall e | 0 <= e < |t| :: t[e].prev < |t| && t[e].next < |t|
  }

  ghost predicate DistinctEntries(ring: seq<nat>) {
    forall i, j | 0 <= i < j < |ring| :: ring[i] != ring[j]
  }

  /** Cyclic successor of a position. */
  function Succ(i: nat, n: nat): nat {
    if i + 1 == n then 0 else i + 1
  }

  /** ring lists the linked entries in the order of their next fields; prev runs backwards. */
  ghost predicate Linked(t: seq<Cte>, ring: seq<nat>) {
    && Bounded(t)
    && DistinctEntries(ring)
    && (forall i | 0 <= i < |ring| :: ring[i] < |t|)
    && (forall i {:trigger LinkAt(t, ring, i)} | 0 <= i < |ring| :: LinkAt(t, ring, i))
  }

  /** The entry at position i and its cyclic successor point at each other. */
  ghost predicate LinkAt(t: seq<Cte>, ring: seq<nat>, i: nat)
    requires i < |ring| && forall j | 0 <= j < |ring| :: ring[j] < |t|
  {
    t[ring[i]].next == ring[Succ(i, |ring|)] && t[ring[Succ(i, |ring|)]].prev == ring[i]
  }

  function SetNext(t: seq<Cte>, e: nat, next: nat): seq<Cte> {
    if e < |t| then t[e := t[e].(next := next)] else t
  }

  function SetPrev(t: seq<Cte>, e: nat, prev: nat): seq<Cte> {
    if e < |t| then t[e := t[e].(prev := prev)] else t
  }

  function SetCap(t: seq<Cte>, e: nat, cap: Cap): seq<Cte> {
    if e < |t| then t[e := t[e].(cap := cap)] else t
  }

  /** cte_insert: c goes between prev and its successor. */
  function CteInsert(t: seq<Cte>, c: nat, cap: Cap, prev: nat): (r: seq<Cte>)
    requires Bounded(t) && c < |t| && prev < |t|
    ensures |r| == |t|
  {
    var t1 := SetPrev(t, c, prev);
    var t2 := SetNext(t1, c, t1[prev].next);
    var t3 := SetNext(t2, t2[c].prev, c);
    var t4 := SetPrev(t3, t3[c].next, c);
    SetCap(t4, c, cap)
  }

  /** cte_delete: the neighbours of c are linked to each other. */
  function CteDelete(t: seq<Cte>, c: nat): (r: seq<Cte>)
    requires Bounded(t) && c < |t|
    ensures |r| == |t|
  {
    var t1 := SetCap(t, c, NoCap);
    var t2 := SetNext(t1, t1[c].prev, t1[c].next);
    SetPrev(t2, t2[c].next, t2[c].prev)
  }

  /** cte_move: dst takes over src's capability and links. */
  function CteMove(t: seq<Cte>, src: nat, dst: nat): (r: seq<Cte>)
    requires Bounded(t) && src < |t| && dst < |t|
    ensures |r| == |t|
  {
    if src == dst then t else
    var t1 := SetCap(SetCap(t, dst, t[src].cap), src, NoCap);
    var t2 := SetPrev(t1, dst, t1[src].prev);
    var t3 := SetNext(t2, dst, t2[src].next);
    var t4 := SetNext(t3, t3[dst].prev, dst);
    SetPrev(t4, t4[dst].next, dst)
  }

  function CapsOf(t: seq<Cte>): (caps: seq<Cap>)
    ensures |caps| == |t|
  {
    seq(|t|, e requires 0 <= e < |t| => t[e].cap)
  }

  /** The position whose cyclic successor is k. */
  function Pred(k: nat, n: nat): (i: nat)
    requires k < n
    ensures i < n && Succ(i, n) == k
  {
    if k == 0 then n - 1 else k - 1
  }

  lemma InsertEffect(t: seq<Cte>, c: nat, cap: Cap, p: nat, e: nat)
    requires Bounded(t) && c < |t| && p < |t| && e < |t| && c != p && c != t[p].next
    ensures var b, r := t[p].next, CteInsert(t, c, cap, p);
            && r[e].next == (if e == c then b else if e == p then c else t[e].next)
            && r[e].prev == (if e == c then p else if e == b then c else t[e].prev)
            && r[e].cap == if e == c then cap else t[e].cap
  {
  }

  lemma InsertCaps(t: seq<Cte>, c: nat, cap: Cap, p: nat)
    requires Bounded(t) && c < |t| && p < |t| && c != p && c != t[p].next
    ensures Bounded(CteInsert(t, c, cap, p)) && CapsOf(CteInsert(t, c, cap, p)) == CapsOf(t)[c := cap]
  {
    hide CteInsert;
    forall e | 0 <= e < |t|
      ensures var r := CteInsert(t, c, cap, p)[e];
              r.next < |t| && r.prev < |t| && r.cap == if e == c then cap else t[e].cap
    {
      InsertEffect(t, c, cap, p, e);
    }
  }

  lemma InsertDistinct(ring: seq<nat>, c: nat, k: nat)
    requires DistinctEntries(ring) && c !in ring && k < |ring|
    ensures DistinctEntries(ring[..k + 1] + [c] + ring[k + 1..])
  {
  }

  lemma InsertKeepsLinks(t: seq<Cte>, ring: seq<nat>, c: nat, cap: Cap, k: nat)
    requires Linked(t, ring) && c < |t| && c !in ring && k < |ring|
    ensures Linked(CteInsert(t, c, cap, ring[k]), ring[..k + 1] + [c] + ring[k + 1..])
    ensures CapsOf(CteInsert(t, c, cap, ring[k])) == CapsOf(t)[c := cap]
  {
    var t', ring' := CteInsert(t, c, cap, ring[k]), ring[..k + 1] + [c] + ring[k + 1..];
    assert LinkAt(t, ring, k);
    InsertCaps(t, c, cap, ring[k]);
    InsertDistinct(ring, c, k);
    hide CteInsert, CapsOf, LinkAt, Bounded, DistinctEntries;
    forall i | 0 <= i < |ring'| ensures LinkAt(t', ring', i) {
      InsertLinkAt(t, ring, c, cap, k, i);
    }
  }

  lemma InsertLinkAt(t: seq<Cte>, ring: seq<nat>, c: nat, cap: Cap, k: nat, i: nat)
    requires Linked(t, ring) && c < |t| && c !in ring && k < |ring| && i < |ring| + 1
    ensures LinkAt(CteInsert(t, c, cap, ring[k]), ring[..k + 1] + [c] + ring[k + 1..], i)
  {
    var n, ring' := |ring|, ring[..k + 1] + [c] + ring[k + 1..];
    var i0 := if i <= k then i else i - 1;
    LinksAt(t, ring, c, k, i0);
    hide CteInsert, DistinctEntries, Bounded, Linked, Succ;
    InsertedAt(ring, c, k, i);
    InsertedLink(t, c, cap, ring[k], ring'[i], ring'[Succ(i, n + 1)]);
  }

  /** After the insertion a and b point at each other: the new entry and a neighbour, or an old pair. */
  lemma InsertedLink(t: seq<Cte>, c: nat, cap: Cap, p: nat, a: nat, b: nat)
    requires Bounded(t) && c < |t| && p < |t| && a < |t| && b < |t| && c != p && c != t[p].next
    requires t[t[p].next].prev == p
    requires || (a == p && b == c)
             || (a == c && b == t[p].next)
             || (a != p && a != c && b != c && b != t[p].next && t[a].next == b && t[b].prev == a)
    ensures CteInsert(t, c, cap, p)[a].next == b && CteInsert(t, c, cap, p)[b].prev == a
  {
    InsertEffect(t, c, cap, p, a);
    InsertEffect(t, c, cap, p, b);
    hide CteInsert;
  }

  /** Members i and k of a linked ring, and an entry c that is none. */
  lemma LinksAt(t: seq<Cte>, ring: seq<nat>, c: nat, k: nat, i: nat)
    requires Linked(t, ring) && c < |t| && c !in ring && k < |ring| && i < |ring|
    ensures Bounded(t) && (forall j | 0 <= j < |ring| :: ring[j] < |t|)
    ensures LinkAt(t, ring, k) && LinkAt(t, ring, i) && Succ(i, |ring|) < |ring| && Succ(k, |ring|) < |ring|
    ensures ring[i] != c && ring[Succ(i, |ring|)] != c && ring[k] != c && ring[Succ(k, |ring|)] != c
    ensures i != k ==> ring[i] != ring[k] && ring[Succ(i, |ring|)] != ring[Succ(k, |ring|)]
  {
  }

  lemma InsertedAt(ring: seq<nat>, c: nat, k: nat, i: nat)
    requires k < |ring| && i < |ring| + 1
    ensures var n, ring', i0 := |ring|, ring[..k + 1] + [c] + ring[k + 1..], if i <= k then i else i - 1;
            && ring'[i] == (if i == k + 1 then c else ring[i0])
            && ring'[Succ(i, n + 1)] == (if i == k then c else ring[Succ(i0, n)])
  {
  }

  lemma DeleteEffect(t: seq<Cte>, c: nat, e: nat)
    requires Bounded(t) && c < |t| && e < |t|
    ensures var p, b, r := t[c].prev, t[c].next, CteDelete(t, c);
            && r[e].next == (if e == p then b else t[e].next)
            && r[e].prev == (if e == b then p else t[e].prev)
            && r[e].cap == if e == c then NoCap else t[e].cap
  {
  }

  lemma DeleteKeepsLinks(t: seq<Cte>, ring: seq<nat>, k: nat)
    requires Linked(t, ring) && k < |ring|
    ensures Linked(CteDelete(t, ring[k]), ring[..k] + ring[k + 1..])
    ensures CapsOf(CteDelete(t, ring[k])) == CapsOf(t)[ring[k] := NoCap]
  {
    var t', ring' := CteDelete(t, ring[k]), ring[..k] + ring[k + 1..];
    hide CteDelete;
    forall e | 0 <= e < |t|
      ensures t'[e].next < |t| && t'[e].prev < |t| && t'[e].cap == if e == ring[k] then NoCap else t[e].cap
    {
      DeleteEffect(t, ring[k], e);
    }
    hide LinkAt;
    forall i | 0 <= i < |ring'| ensures LinkAt(t', ring', i) {
      DeleteLinkAt(t, ring, k, i);
    }
  }

  lemma DeleteLinkAt(t: seq<Cte>, ring: seq<nat>, k: nat, i: nat)
    requires Linked(t, ring) && k < |ring| && i < |ring| - 1
    ensures LinkAt(CteDelete(t, ring[k]), ring[..k] + ring[k + 1..], i)
  {
    var n, ring' := |ring|, ring[..k] + ring[k + 1..];
    var i0 := if i < k then i else i + 1;
    var j0 := if i0 == Pred(k, n) then Succ(k, n) else Succ(i0, n);
    assert ring'[i] == ring[i0] && ring'[Succ(i, n - 1)] == ring[j0];
    assert LinkAt(t, ring, k) && LinkAt(t, ring, Pred(k, n)) && LinkAt(t, ring, i0);
    assert i0 != Pred(k, n) ==> ring[i0] != ring[Pred(k, n)] && ring[j0] != ring[Succ(k, n)];
    DeleteEffect(t, ring[k], ring[i0]);
    DeleteEffect(t, ring[k], ring[j0]);
    hide CteDelete, DistinctEntries, Bounded;
  }

  lemma MoveEffect(t: seq<Cte>, src: nat, dst: nat, e: nat)
    requires Bounded(t) && src < |t| && dst < |t| && e < |t| && src != dst
    requires t[src].prev != dst && t[src].next != dst
    ensures var p, b, r := t[src].prev, t[src].next, CteMove(t, src, dst);
            && r[e].next == (if e == p then dst else if e == dst then b else t[e].next)
            && r[e].prev == (if e == b then dst else if e == dst then p else t[e].prev)
            && r[e].cap == if e == src then NoCap else if e == dst then t[src].cap else t[e].cap
  {
  }

  lemma MoveCaps(t: seq<Cte>, src: nat, dst: nat)
    requires Bounded(t) && src < |t| && dst < |t| && src != dst
    requires t[src].prev != dst && t[src].next != dst
    ensures Bounded(CteMove(t, src, dst))
    ensures CapsOf(CteMove(t, src, dst)) == CapsOf(t)[dst := t[src].cap][src := NoCap]
  {
    hide CteMove;
    forall e | 0 <= e < |t|
      ensures var r := CteMove(t, src, dst)[e];
              && r.next < |t| && r.prev < |t|
              && r.cap == if e == src then NoCap else if e == dst then t[src].cap else t[e].cap
    {
      MoveEffect(t, src, dst, e);
    }
  }

  lemma MoveKeepsLinks(t: seq<Cte>, ring: seq<nat>, k: nat, dst: nat)
    requires Linked(t, ring) && k < |ring| && dst < |t| && dst !in ring && |ring| >= 2
    ensures Linked(CteMove(t, ring[k], dst), ring[k := dst])
    ensures CapsOf(CteMove(t, ring[k], dst)) == CapsOf(t)[dst := t[ring[k]].cap][ring[k] := NoCap]
  {
    var t', ring' := CteMove(t, ring[k], dst), ring[k := dst];
    assert LinkAt(t, ring, k) && LinkAt(t, ring, Pred(k, |ring|));
    MoveCaps(t, ring[k], dst);
    hide CteMove, CapsOf, LinkAt, Bounded;
    forall i | 0 <= i < |ring'| ensures LinkAt(t', ring', i) {
      MoveLinkAt(t, ring, k, dst, i);
    }
  }

  lemma MoveLinkAt(t: seq<Cte>, ring: seq<nat>, k: nat, dst: nat, i: nat)
    requires Linked(t, ring) && k < |ring| && dst < |t| && dst !in ring && |ring| >= 2 && i < |ring|
    ensures LinkAt(CteMove(t, ring[k], dst), ring[k := dst], i)
  {
    var ring' := ring[k := dst];
    assert LinkAt(t, ring, k) && LinkAt(t, ring, Pred(k, |ring|)) && LinkAt(t, ring, i);
    MoveEffect(t, ring[k], dst, ring'[i]);
    MoveEffect(t, ring[k], dst, ring'[Succ(i, |ring'|)]);
    hide CteMove;
  }

  /** With only one entry in use the moved entry stays linked to its emptied source, so a move
      keeps the list exactly when there are at least two entries. */
  lemma MoveNeedsTwoEntries(t: seq<Cte>, ring: seq<nat>, k: nat, dst: nat)
    requires Linked(t, ring) && k < |ring| && dst < |t| && dst !in ring
    ensures Linked(CteMove(t, ring[k], dst), ring[k := dst]) <==> |ring| >= 2
  {
    if |ring| >= 2 {
      MoveKeepsLinks(t, ring, k, dst);
    } else {
      assert LinkAt(t, ring, 0);
      assert !LinkAt(CteMove(t, ring[0], dst), [dst], 0) by {
        assert CteMove(t, ring[0], dst)[dst].next == ring[0];
      }
      assert ring[k := dst] == [dst];
    }
  }
}
