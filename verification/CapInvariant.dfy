/** What every capability operation keeps: the ring order, the schedule and the PMP registers. */
module CapInvariant {
  import opened CapTypes
  import opened CapTable
  import opened CapSystem

  ghost predicate Shape(cfg: Config, s: Sys) {
    && ConfigOk(cfg)
    && |s.caps| == cfg.procCnt * cfg.capCnt
    && |s.slots| == cfg.hartCnt && (forall h | 0 <= h < |s.slots| :: |s.slots[h]| == cfg.slotCnt)
    && |s.pmp| == cfg.procCnt && (forall p | 0 <= p < |s.pmp| :: |s.pmp[p]| == cfg.pmpCnt)
  }

  predicate CapInRange(cfg: Config, c: Cap) {
    match c
    case Time(hart, _, _, end) => cfg.minHart <= hart < cfg.minHart + cfg.hartCnt && end <= cfg.slotCnt
    case Monitor(_, _, end) => end <= cfg.procCnt
    case Pmp(_, used, slot, _) => used ==> slot < cfg.pmpCnt
    case _ => true
  }

  /** The capabilities in ring order. */
  ghost function RingCaps(s: Sys): (cs: seq<Cap>)
    requires RingOk(s)
    ensures |cs| == |s.ring|
  {
    seq(|s.ring|, i requires 0 <= i < |s.ring| => s.caps[s.ring[i]])
  }

  /** The order invariant: time capabilities of one hart, and monitor capabilities, stand
      together in the ring, each before everything that was split off below its free part. */
  ghost predicate RingInv(cfg: Config, s: Sys) {
    && RingOk(s) && Nested(RingCaps(s))
    && (forall e | 0 <= e < |s.caps| :: CapInRange(cfg, s.caps[e]))
  }

  lemma {:induction false} IndexOfIs(ring: seq<nat>, k: nat)
    requires DistinctEntries(ring) && k < |ring|
    ensures IndexOf(ring, ring[k]) == k
  {
  }

  // ---------------------------------------------------------------- the ring

  /** The ring after an insertion behind position k, which also rewrites the capability at k. */
  lemma InsertRing(s: Sys, s': Sys, k: nat, dst: nat, p: Cap, c: Cap)
    requires RingOk(s) && k < |s.ring| && dst < |s.caps| && s.caps[dst] == NoCap
    requires c != NoCap && p != NoCap
    requires s'.ring == s.ring[..k + 1] + [dst] + s.ring[k + 1..]
    requires s'.caps == s.caps[dst := c][s.ring[k] := p]
    ensures RingOk(s') && RingCaps(s') == RingCaps(s)[k := p][..k + 1] + [c] + RingCaps(s)[k + 1..]
  {
    assert dst !in s.ring;
    InsertDistinct(s.ring, dst, k);
    forall e | 0 <= e < |s.caps| ensures e in s'.ring <==> s'.caps[e] != NoCap {
      assert e in s'.ring <==> e in s.ring || e == dst by {
        assert s.ring == s.ring[..k + 1] + s.ring[k + 1..];
      }
    }
    hide DistinctEntries;
  }

  lemma RemoveRing(s: Sys, s': Sys, k: nat)
    requires RingOk(s) && k < |s.ring|
    requires s'.ring == s.ring[..k] + s.ring[k + 1..] && s'.caps == s.caps[s.ring[k] := NoCap]
    ensures RingOk(s') && RingCaps(s') == RingCaps(s)[..k] + RingCaps(s)[k + 1..]
  {
    forall e | 0 <= e < |s.caps| ensures e in s'.ring <==> s'.caps[e] != NoCap {
      assert s.ring == s.ring[..k] + [s.ring[k]] + s.ring[k + 1..];
    }
    hide Nested;
  }

  lemma ReplaceRing(s: Sys, s': Sys, k: nat, dst: nat, c: Cap)
    requires RingOk(s) && k < |s.ring| && dst < |s.caps| && s.caps[dst] == NoCap && c != NoCap
    requires s'.ring == s.ring[k := dst] && s'.caps == s.caps[dst := c][s.ring[k] := NoCap]
    ensures RingOk(s') && RingCaps(s') == RingCaps(s)[k := c]
  {
    assert dst !in s.ring;
    forall e | 0 <= e < |s.caps| ensures e in s'.ring <==> s'.caps[e] != NoCap {
      ReplaceMember(s.ring, k, dst, e);
    }
  }

  lemma ReplaceMember(ring: seq<nat>, k: nat, dst: nat, e: nat)
    requires DistinctEntries(ring) && k < |ring| && dst !in ring
    ensures e in ring[k := dst] <==> e == dst || (e in ring && e != ring[k])
  {
    var r := ring[k := dst];
    assert r[k] == dst;
    if e in ring && e != ring[k] {
      var i :| 0 <= i < |ring| && ring[i] == e;
      assert r[i] == e;
    }
  }

  lemma RewriteRing(s: Sys, s': Sys, k: nat, c: Cap)
    requires RingOk(s) && k < |s.ring| && c != NoCap
    requires s'.ring == s.ring && s'.caps == s.caps[s.ring[k] := c]
    ensures RingOk(s') && RingCaps(s') == RingCaps(s)[k := c]
  {
  }

  lemma InRing(s: Sys, e: nat) returns (k: nat)
    requires RingOk(s) && e < |s.caps| && s.caps[e] != NoCap
    ensures k < |s.ring| && s.ring[k] == e && IndexOf(s.ring, e) == k && RingCaps(s)[k] == s.caps[e]
  {
    k := IndexOf(s.ring, e);
  }

  lemma DeriveKeepsRing(cfg: Config, s: Sys, src: nat, dst: nat, ncap: Cap)
    requires Shape(cfg, s) && RingInv(cfg, s) && src < |s.caps| && dst < |s.caps|
    ensures RingInv(cfg, Derive(cfg, s, src, dst, ncap).s)
  {
    var r := Derive(cfg, s, src, dst, ncap);
    if r.err == Success {
      var k := InRing(s, src);
      InsertRing(s, r.s, k, dst, Parent(s.caps[src], ncap), ncap);
      NestedInsert(RingCaps(s), k, ncap);
      DeriveInRange(cfg, s.caps[src], ncap);
    }
  }

  lemma DeriveInRange(cfg: Config, p: Cap, c: Cap)
    requires CapInRange(cfg, p) && IsDerivable(p, c) && IsValid(c)
    ensures CapInRange(cfg, c) && CapInRange(cfg, Parent(p, c)) && Parent(p, c) != NoCap
  {
  }

  lemma MoveKeepsRing(cfg: Config, s: Sys, src: nat, dst: nat)
    requires Shape(cfg, s) && RingInv(cfg, s) && src < |s.caps| && dst < |s.caps|
    ensures RingInv(cfg, Move(cfg, s, src, dst).s)
  {
    var r := Move(cfg, s, src, dst);
    if r.err == Success {
      var k := InRing(s, src);
      var c := r.s.caps[dst];
      ReplaceRing(s, r.s, k, dst, c);
      if c != s.caps[src] {
        NestedUnsliced(RingCaps(s), k, c);
      } else {
        assert RingCaps(s)[k := c] == RingCaps(s);
      }
    }
  }

  /** Any deletion of one ring member keeps the order. */
  lemma RemoveKeepsRing(cfg: Config, s: Sys, s': Sys, e: nat)
    requires Shape(cfg, s) && RingInv(cfg, s) && e in s.ring
    requires s'.ring == Without(s.ring, e) && s'.caps == s.caps[e := NoCap]
    ensures RingInv(cfg, s')
    ensures RingCaps(s') == RingCaps(s)[..IndexOf(s.ring, e)] + RingCaps(s)[IndexOf(s.ring, e) + 1..]
  {
    var k := IndexOf(s.ring, e);
    RemoveRing(s, s', k);
    NestedRemove(RingCaps(s), k);
  }

  /** Any rewriting of one capability that keeps the nesting keeps the order. */
  lemma RewriteKeepsRing(cfg: Config, s: Sys, s': Sys, e: nat, c: Cap)
    requires Shape(cfg, s) && RingInv(cfg, s) && e in s.ring && c != NoCap && CapInRange(cfg, c)
    requires s'.ring == s.ring && s'.caps == s.caps[e := c]
    requires Nested(RingCaps(s)[IndexOf(s.ring, e) := c])
    ensures RingInv(cfg, s')
  {
    RewriteRing(s, s', IndexOf(s.ring, e), c);
  }

  // ---------------------------------------------------------------- revocation in the ring

  /** The ring has a member outside e's group. */
  ghost predicate HasOutsider(s: Sys, e: nat)
    requires e < |s.caps|
  {
    exists o :: o < |s.caps| && o in s.ring && o != e && !SameGroup(s.caps[e], s.caps[o])
  }

  /** A revoke step of e that deletes a member does not wrap round the ring within e's group: there
      is a member outside the group, or one behind e. */
  ghost predicate NoWrap(s: Sys, e: nat)
    requires RingOk(s) && e < |s.caps|
  {
    e in s.ring && RevokeTest(s.caps[e], s.caps[NextOf(s.ring, e)]) == Success ==>
      HasOutsider(s, e) || IndexOf(s.ring, e) + 1 < |s.ring|
  }

  /** No later member of e's group lies inside e's range. */
  ghost predicate NoDescendants(s: Sys, e: nat)
    requires RingOk(s)
  {
    e in s.ring ==>
      var cs, k := RingCaps(s), IndexOf(s.ring, e);
      forall j | k < j < |cs| && SameGroup(cs[k], cs[j]) :: EndOf(cs[j]) <= BgnOf(cs[k])
  }

  predicate Sliced(c: Cap) {
    GroupOf(c) != Unsliced
  }

  /** The child that a revoke step deletes follows its parent and lies inside the parent's range. */
  lemma RevokedChild(cfg: Config, s: Sys, e: nat, k: nat)
    requires Shape(cfg, s) && RingInv(cfg, s) && k < |s.ring| && s.ring[k] == e && NoWrap(s, e)
    requires RevokeTest(s.caps[e], s.caps[NextOf(s.ring, e)]) == Success
    ensures IndexOf(s.ring, e) == k && NextOf(s.ring, e) != e
    ensures Sliced(s.caps[e]) ==>
              var cs := RingCaps(s);
              && k + 1 < |s.ring| && NextOf(s.ring, e) == s.ring[k + 1]
              && SameGroup(cs[k], cs[k + 1]) && PairOk(cs[k], cs[k + 1]) && BgnOf(cs[k]) <= BgnOf(cs[k + 1])
  {
    IndexOfIs(s.ring, k);
    var cs := RingCaps(s);
    assert cs[k] == s.caps[e];
    assert cs[Succ(k, |cs|)] == s.caps[NextOf(s.ring, e)];
    if k + 1 == |s.ring| {
      var o :| o < |s.caps| && o in s.ring && o != e && !SameGroup(s.caps[e], s.caps[o]);
      var j := IndexOf(s.ring, o);
      assert cs[j] == s.caps[o];
      OneGroup(cs, j);
    }
    if k + 1 < |cs| && SameGroup(cs[k], cs[k + 1]) { assert PairOk(cs[k], cs[k + 1]); }
    hide Nested, DistinctEntries;
  }

  /** If the first and the last of the ring are in one group, so is everything between. */
  lemma OneGroup(cs: seq<Cap>, j: nat)
    requires Nested(cs) && j < |cs|
    ensures SameGroup(cs[0], cs[|cs| - 1]) ==> SameGroup(cs[0], cs[j])
  {
  }

  /** A revoke step of a time or monitor capability moves the parent's mark down to the child's. */
  lemma RevokeKeepsNesting(cs: seq<Cap>, k: nat)
    requires Nested(cs) && k + 1 < |cs| && SameGroup(cs[k], cs[k + 1])
    requires PairOk(cs[k], cs[k + 1]) && BgnOf(cs[k]) <= BgnOf(cs[k + 1])
    ensures var rest := cs[..k + 1] + cs[k + 2..];
            Nested(rest[k := WithMrk(cs[k], MrkOf(cs[k + 1]))])
  {
    var rest := cs[..k + 1] + cs[k + 2..];
    NestedRemove(cs, k + 1);
    forall j | k < j < |rest| && SameGroup(rest[k], rest[j]) ensures EndOf(rest[j]) <= MrkOf(cs[k + 1]) {
      assert rest[j] == cs[j + 1] && SameGroup(cs[k + 1], cs[j + 1]);
      assert PairOk(cs[k + 1], cs[j + 1]);
    }
    NestedMark(rest, k, MrkOf(cs[k + 1]));
  }

  /** The member a successful revoke step deletes really is the next one, inside e's range. */
  ghost predicate DeletesDescendant(cfg: Config, s: Sys, e: nat)
    requires EntryOk(cfg, s, e)
  {
    RevokeStep(cfg, s, e).err == Success ==>
      var k := IndexOf(s.ring, e);
      && k + 1 < |s.ring| && NextOf(s.ring, e) == s.ring[k + 1]
      && BgnOf(s.caps[e]) <= BgnOf(s.caps[s.ring[k + 1]]) && EndOf(s.caps[s.ring[k + 1]]) <= EndOf(s.caps[e])
  }

  /** A revoke step of a time or monitor capability is right exactly when the ring has a member
      outside the group, or at least one behind the revoked capability; otherwise it wraps round
      and deletes an ancestor, or the capability itself. */
  lemma RevokeNeedsOutsider(cfg: Config, s: Sys, e: nat)
    requires Shape(cfg, s) && RingInv(cfg, s) && e < |s.caps| && Sliced(s.caps[e])
    ensures DeletesDescendant(cfg, s, e) <==> HasOutsider(s, e) || IndexOf(s.ring, e) + 1 < |s.ring|
  {
    var k := InRing(s, e);
    var cs := RingCaps(s);
    assert cs[Succ(k, |cs|)] == s.caps[NextOf(s.ring, e)];
    if k + 1 < |s.ring| {
      assert SameGroup(cs[k], cs[k + 1]) ==> PairOk(cs[k], cs[k + 1]);
    } else if HasOutsider(s, e) {
      if RevokeStep(cfg, s, e).err == Success { RevokedChild(cfg, s, e, k); }
    } else {
      assert SameGroup(s.caps[e], s.caps[s.ring[0]]);
      assert k > 0 ==> PairOk(cs[0], cs[k]);
    }
  }

  lemma ReclaimedKind(cfg: Config, p: Cap, c: Cap)
    requires p != NoCap && CapInRange(cfg, p)
    ensures GroupOf(Reclaimed(p, c)) == GroupOf(p) && Reclaimed(p, c) != NoCap && CapInRange(cfg, Reclaimed(p, c))
  {
  }

  lemma RevokeKeepsRing(cfg: Config, s: Sys, e: nat)
    requires Shape(cfg, s) && RingInv(cfg, s) && e < |s.caps|
    requires NoWrap(s, e)
    ensures RingInv(cfg, RevokeStep(cfg, s, e).s)
  {
    hide Nested, DistinctEntries, RevokeTest, Reclaimed;
    var r := RevokeStep(cfg, s, e);
    if r.err == Success {
      var k := InRing(s, e);
      RevokedChild(cfg, s, e, k);
      var child := NextOf(s.ring, e);
      var p, c := s.caps[e], s.caps[child];
      ReclaimedKind(cfg, p, c);
      var s1 := s.(ring := Without(s.ring, child), caps := s.caps[child := NoCap]);
      RemoveKeepsRing(cfg, s, s1, child);
      if Sliced(p) {
        RevokeSlicedNesting(cfg, s, s1, e, k);
      } else {
        var k1 := InRing(s1, e);
        NestedUnsliced(RingCaps(s1), k1, Reclaimed(p, c));
      }
      hide HasOutsider, NoWrap, RingOk;
      RewriteKeepsRing(cfg, s1, r.s, e, Reclaimed(p, c));
    }
  }

  lemma RevokeSlicedNesting(cfg: Config, s: Sys, s1: Sys, e: nat, k: nat)
    requires RingInv(cfg, s) && RingInv(cfg, s1) && k + 1 < |s.ring| && s.ring[k] == e
    requires s1.ring == Without(s.ring, s.ring[k + 1]) && s1.caps == s.caps[s.ring[k + 1] := NoCap]
    requires var cs := RingCaps(s);
             SameGroup(cs[k], cs[k + 1]) && PairOk(cs[k], cs[k + 1]) && BgnOf(cs[k]) <= BgnOf(cs[k + 1])
    ensures e in s1.ring
    ensures Nested(RingCaps(s1)[IndexOf(s1.ring, e) := Reclaimed(s.caps[e], s.caps[s.ring[k + 1]])])
  {
    IndexOfIs(s.ring, k + 1);
    RevokeKeepsNesting(RingCaps(s), k);
    assert s1.ring[k] == e;
    IndexOfIs(s1.ring, k);
    assert RingCaps(s1) == RingCaps(s)[..k + 1] + RingCaps(s)[k + 2..];
    hide Nested;
  }

  /** When a revoke step finds no child, nothing inside the parent's range is left in the ring. */
  lemma NoChildNoDescendants(cfg: Config, s: Sys, e: nat)
    requires Shape(cfg, s) && RingInv(cfg, s) && e < |s.caps|
    requires Sliced(s.caps[e]) && RevokeStep(cfg, s, e).err == NoChild
    ensures NoDescendants(s, e)
  {
    var cs, k := RingCaps(s), IndexOf(s.ring, e);
    forall j | k < j < |cs| && SameGroup(cs[k], cs[j]) ensures EndOf(cs[j]) <= BgnOf(cs[k]) {
      assert SameGroup(cs[k], cs[k + 1]);
      assert cs[k + 1] == s.caps[NextOf(s.ring, e)];
      if j > k + 1 { assert SameGroup(cs[k + 1], cs[j]) && PairOk(cs[k + 1], cs[j]) && RangeOk(cs[k + 1]); }
    }
  }

  lemma ResetKeepsRing(cfg: Config, s: Sys, e: nat)
    requires Shape(cfg, s) && RingInv(cfg, s) && e < |s.caps| && NoDescendants(s, e)
    ensures RingInv(cfg, Reset(cfg, s, e).s)
  {
    var r := Reset(cfg, s, e);
    var p := s.caps[e];
    if p != NoCap {
      var k := InRing(s, e);
      if Sliced(p) { NestedMark(RingCaps(s), k, BgnOf(p)); } else { NestedUnsliced(RingCaps(s), k, r.s.caps[e]); }
      RewriteKeepsRing(cfg, s, r.s, e, r.s.caps[e]);
    }
  }

  lemma PmpKeepsRing(cfg: Config, s: Sys, e: nat, slot: nat)
    requires Shape(cfg, s) && RingInv(cfg, s) && e < |s.caps| && Pid(cfg, e) < |s.pmp| && slot < cfg.pmpCnt
    ensures RingInv(cfg, PmpLoad(cfg, s, e, slot).s) && RingInv(cfg, PmpUnload(cfg, s, e).s)
  {
    if s.caps[e].Pmp? {
      var k := InRing(s, e);
      var c := s.caps[e];
      NestedUnsliced(RingCaps(s), k, c.(slot := slot, used := true));
      NestedUnsliced(RingCaps(s), k, c.(slot := 0, used := false));
      if !c.used {
        if PmpLoad(cfg, s, e, slot).err == Success {
          RewriteKeepsRing(cfg, s, PmpLoad(cfg, s, e, slot).s, e, c.(slot := slot, used := true));
        }
      } else {
        RewriteKeepsRing(cfg, s, PmpUnload(cfg, s, e).s, e, c.(slot := 0, used := false));
      }
    }
  }

  // ---------------------------------------------------------------- the schedule

  /** The free part of time capability c contains slot i of the h-th hart. */
  predicate Covers(cfg: Config, c: Cap, h: nat, i: nat) {
    c.Time? && c.hart == cfg.minHart + h && c.mrk <= i < c.end
  }

  /** A slot belongs to the holder of the capability whose free part covers it, with the number
      of slots left in that slice; it is empty if there is none. */
  ghost predicate SlotOk(cfg: Config, caps: seq<Cap>, h: nat, i: nat, slot: Slot)
  {
    && (forall e {:trigger caps[e]} | 0 <= e < |caps| && Covers(cfg, caps[e], h, i) ::
          slot == Slot(Pid(cfg, e), caps[e].end - i))
    && (slot.length != 0 ==> exists e :: 0 <= e < |caps| && Covers(cfg, caps[e], h, i))
  }

  ghost predicate ScheduleInv(cfg: Config, s: Sys)
    requires Shape(cfg, s)
  {
    forall h, i {:trigger s.slots[h][i]} | 0 <= h < cfg.hartCnt && 0 <= i < cfg.slotCnt ::
      SlotOk(cfg, s.caps, h, i, s.slots[h][i])
  }

  /** The free parts of two capabilities of one group are disjoint. */
  lemma FreePartsDisjoint(cfg: Config, s: Sys, e: nat, f: nat)
    requires RingInv(cfg, s) && e < |s.caps| && f < |s.caps| && e != f && SameGroup(s.caps[e], s.caps[f])
    ensures EndOf(s.caps[e]) <= MrkOf(s.caps[f]) || EndOf(s.caps[f]) <= MrkOf(s.caps[e])
  {
    var k := InRing(s, e);
    var l := InRing(s, f);
    var cs := RingCaps(s);
    assert if k < l then PairOk(cs[k], cs[l]) else PairOk(cs[l], cs[k]);
  }

  /** Outside its region an update leaves a slot alone; inside it writes the new owner. */
  lemma SchedUpdateAt(cfg: Config, slots: seq<seq<Slot>>, pid: nat, end: nat, hart: nat, from: nat, to: nat, h: nat,
                      i: nat)
    requires h < |slots| && i < |slots[h]|
    ensures var r := SchedUpdate(cfg, slots, pid, end, hart, from, to);
            && |r| == |slots| && |r[h]| == |slots[h]|
            && r[h][i] == if hart == cfg.minHart + h && from <= i < to then Slot(pid % 256, (end - i) % 256)
               else slots[h][i]
  {
  }

  lemma SchedDeleteAt(cfg: Config, slots: seq<seq<Slot>>, hart: nat, from: nat, to: nat, h: nat, i: nat)
    requires h < |slots| && i < |slots[h]|
    ensures var r := SchedDelete(cfg, slots, hart, from, to);
            && |r| == |slots| && |r[h]| == |slots[h]|
            && r[h][i] == if hart == cfg.minHart + h && from <= i < to then Slot(0, 0) else slots[h][i]
  {
  }

  /** A slot whose coverage did not change stays correct. */
  lemma SlotUntouched(cfg: Config, caps: seq<Cap>, caps': seq<Cap>, h: nat, i: nat, slot: Slot)
    requires |caps'| == |caps| && SlotOk(cfg, caps, h, i, slot)
    requires forall e {:trigger caps[e]} {:trigger caps'[e]} | 0 <= e < |caps| ::
               (Covers(cfg, caps[e], h, i) <==> Covers(cfg, caps'[e], h, i))
               && (Covers(cfg, caps[e], h, i) ==> caps'[e].end == caps[e].end)
    ensures SlotOk(cfg, caps', h, i, slot)
  {
    if slot.length != 0 {
      var e :| 0 <= e < |caps| && Covers(cfg, caps[e], h, i);
      assert Covers(cfg, caps'[e], h, i);
    }
  }

  /** A slot written for o is correct when o's capability covers it and no other does. */
  lemma SlotClaimed(cfg: Config, caps: seq<Cap>, h: nat, i: nat, o: nat)
    requires ConfigOk(cfg) && |caps| == cfg.procCnt * cfg.capCnt && i < cfg.slotCnt
    requires o < |caps| && Covers(cfg, caps[o], h, i) && caps[o].end <= cfg.slotCnt
    requires forall e {:trigger caps[e]} | 0 <= e < |caps| && e != o :: !Covers(cfg, caps[e], h, i)
    ensures SlotOk(cfg, caps, h, i, Slot(Pid(cfg, o) % 256, (caps[o].end - i) % 256))
  {
    PidInRange(cfg, o);
  }
}
