/** What a whole revocation does when it runs alone: exactly the descendants go, and the caller
    gets its range back. */
module CapRevocation {
  import opened CapTypes
  import opened CapTable
  import opened CapSystem
  import opened CapInvariant
  import opened CapSchedule

  /** f stands behind e in the ring, in e's group, with its range inside e's. */
  ghost predicate Descends(s: Sys, e: nat, f: nat)
    requires RingOk(s)
  {
    && e in s.ring && f in s.ring && IndexOf(s.ring, e) < IndexOf(s.ring, f)
    && SameGroup(s.caps[e], s.caps[f])
    && BgnOf(s.caps[e]) <= BgnOf(s.caps[f]) && EndOf(s.caps[f]) <= EndOf(s.caps[e])
  }

  /** f is one of the n members behind position k of the ring. */
  predicate Gone(ring: seq<nat>, k: nat, n: nat, f: nat) {
    f in ring && k < IndexOf(ring, f) <= k + n
  }

  /** Ring and capabilities after n members behind position k, all of them e's descendants, have
      been revoked: the mark of e is that of the last one. */
  ghost predicate RevokedCaps(s0: Sys, s: Sys, e: nat, k: nat, n: nat)
    requires RingOk(s0)
  {
    && k + n < |s0.ring| && s0.ring[k] == e
    && s.ring == s0.ring[..k + 1] + s0.ring[k + 1 + n..]
    && |s.caps| == |s0.caps|
    && s.caps[e] == WithMrk(s0.caps[e], MrkOf(s0.caps[s0.ring[k + n]]))
    && (forall f {:trigger Gone(s0.ring, k, n, f)} | 0 <= f < |s.caps| && Gone(s0.ring, k, n, f) :: Descends(s0, e, f))
    && (forall f {:trigger s.caps[f]} | 0 <= f < |s.caps| && f != e ::
          s.caps[f] == if Gone(s0.ring, k, n, f) then NoCap else s0.caps[f])
  }

  /** e's free part is scheduled for e's holder; all other slots are as they were in s0. */
  ghost predicate RevokedSlots(cfg: Config, s0: Sys, s: Sys, e: nat)
    requires Shape(cfg, s0) && e < |s0.caps| && |s.caps| == |s0.caps|
  {
    && |s.slots| == cfg.hartCnt
    && forall h, i {:trigger s.slots[h][i]} | 0 <= h < cfg.hartCnt && 0 <= i < cfg.slotCnt ::
         |s.slots[h]| == cfg.slotCnt
         && s.slots[h][i] == if Covers(cfg, s.caps[e], h, i) then Slot(Pid(cfg, e), EndOf(s.caps[e]) - i)
            else s0.slots[h][i]
  }

  /** s is what n successful revoke steps on e, at position k, have made of s0. */
  ghost predicate RevokedSome(cfg: Config, s0: Sys, s: Sys, e: nat, k: nat, n: nat) {
    && Shape(cfg, s0) && RingInv(cfg, s0) && e < |s0.caps| && Sliced(s0.caps[e])
    && RevokedCaps(s0, s, e, k, n) && RevokedSlots(cfg, s0, s, e) && s.pmp == s0.pmp
  }

  lemma RevokedNone(cfg: Config, s: Sys, e: nat, k: nat)
    requires Shape(cfg, s) && RingInv(cfg, s) && ScheduleInv(cfg, s) && k < |s.ring| && s.ring[k] == e
    requires Sliced(s.caps[e])
    ensures RevokedSome(cfg, s, s, e, k, 0)
  {
    assert s.ring[..k + 1] + s.ring[k + 1..] == s.ring;
    forall h, i | 0 <= h < cfg.hartCnt && 0 <= i < cfg.slotCnt && Covers(cfg, s.caps[e], h, i)
      ensures s.slots[h][i] == Slot(Pid(cfg, e), EndOf(s.caps[e]) - i)
    {
      assert SlotOk(cfg, s.caps, h, i, s.slots[h][i]);
    }
  }

  lemma RevokeTestSliced(p: Cap, c: Cap)
    requires Sliced(p) && RevokeTest(p, c) == Success
    ensures SameGroup(p, c) && !c.Pmp? && Reclaimed(p, c) == WithMrk(p, MrkOf(c))
  {
  }

  /** The member a successful revoke step of a time or monitor capability deletes. */
  lemma RevokeSlicedChild(cfg: Config, s: Sys, e: nat, k: nat)
    requires Shape(cfg, s) && RingInv(cfg, s) && k < |s.ring| && s.ring[k] == e && NoWrap(s, e)
    requires Sliced(s.caps[e]) && RevokeStep(cfg, s, e).err == Success
    ensures k + 1 < |s.ring| && IndexOf(s.ring, s.ring[k + 1]) == k + 1 && NextOf(s.ring, e) == s.ring[k + 1] < |s.caps|
    ensures var p, child := s.caps[e], s.ring[k + 1]; var c := s.caps[child];
            child != e && SameGroup(p, c) && BgnOf(p) <= BgnOf(c) && EndOf(c) <= MrkOf(p) && RevokeTest(p, c) == Success
  {
    hide Nested, DistinctEntries, RevokeTest, Reclaimed, SchedUpdate, PmpUnset;
    RevokedChild(cfg, s, e, k);
    IndexOfIs(s.ring, k + 1);
    assert RingCaps(s)[k] == s.caps[e] && RingCaps(s)[k + 1] == s.caps[s.ring[k + 1]];
  }

  /** The state after a successful revoke step of a time or monitor capability. */
  lemma RevokeSlicedState(cfg: Config, s: Sys, e: nat, k: nat)
    requires Shape(cfg, s) && RingInv(cfg, s) && k < |s.ring| && s.ring[k] == e && NoWrap(s, e)
    requires Sliced(s.caps[e]) && RevokeStep(cfg, s, e).err == Success
    ensures k + 1 < |s.ring|
    ensures var p, child := s.caps[e], s.ring[k + 1]; var c := s.caps[child];
            && child != e && SameGroup(p, c) && BgnOf(p) <= BgnOf(c) && EndOf(c) <= MrkOf(p)
            && RevokeStep(cfg, s, e).s == Sys(
                 s.ring[..k + 1] + s.ring[k + 2..],
                 s.caps[child := NoCap][e := WithMrk(p, MrkOf(c))],
                 if p.Time? then SchedUpdate(cfg, s.slots, Pid(cfg, e), p.end, p.hart, MrkOf(c), p.end) else s.slots,
                 s.pmp)
  {
    hide Nested, DistinctEntries, NoWrap, RevokeTest, Reclaimed, SchedUpdate, PmpUnset, NextOf, IndexOf, WithMrk, Pid;
    RevokeSlicedChild(cfg, s, e, k);
    RevokeTestSliced(s.caps[e], s.caps[s.ring[k + 1]]);
    hide RingInv, RingOk, Shape;
  }

  lemma RevokedMember(cfg: Config, s0: Sys, s: Sys, e: nat, k: nat, n: nat)
    requires RevokedSome(cfg, s0, s, e, k, n) && k + 1 < |s.ring|
    ensures k + n + 1 < |s0.ring| && s.ring[k] == e && s.ring[k + 1] == s0.ring[k + n + 1]
    ensures s.ring[k + 1] != e && s.caps[s.ring[k + 1]] == s0.caps[s0.ring[k + n + 1]]
  {
    IndexOfIs(s0.ring, k + n + 1);
    assert s.ring[k + 1] == s0.ring[k + n + 1] < |s.caps|;
    assert s.ring[k] == s0.ring[k];
    hide Nested, Descends, RevokedSlots;
  }

  lemma RevokedDescends(cfg: Config, s0: Sys, s: Sys, e: nat, k: nat, n: nat)
    requires RevokedSome(cfg, s0, s, e, k, n) && RingInv(cfg, s) && k + 1 < |s.ring|
    requires var c := s.caps[s.ring[k + 1]];
             SameGroup(s.caps[e], c) && BgnOf(s.caps[e]) <= BgnOf(c) && EndOf(c) <= MrkOf(s.caps[e])
    ensures k + n + 1 < |s0.ring| && Descends(s0, e, s0.ring[k + n + 1])
    ensures MrkOf(s.caps[s.ring[k + 1]]) <= MrkOf(s.caps[e]) <= EndOf(s0.caps[e])
  {
    hide Nested;
    RevokedMember(cfg, s0, s, e, k, n);
    IndexOfIs(s0.ring, k);
    IndexOfIs(s0.ring, k + n + 1);
    RangeAt(cfg, s, e);
    RangeAt(cfg, s, s.ring[k + 1]);
    assert s.ring[k + 1] < |s.caps|;
  }

  lemma RangeAt(cfg: Config, s: Sys, e: nat)
    requires RingInv(cfg, s) && e < |s.caps|
    ensures RangeOk(s.caps[e])
  {
    if s.caps[e] != NoCap { var k := InRing(s, e); }
  }

  /** One slot after the parent's mark fell to m: the slots of [m,mrk) have joined its slice. */
  lemma SlotOneMore(cfg: Config, s0: Sys, s: Sys, e: nat, m: nat, h: nat, i: nat)
    requires Shape(cfg, s0) && Shape(cfg, s) && e < |s0.caps| && |s.caps| == |s0.caps|
    requires RevokedSlots(cfg, s0, s, e) && CapInRange(cfg, s.caps[e]) && m <= MrkOf(s.caps[e])
    requires h < cfg.hartCnt && i < cfg.slotCnt
    ensures var p := s.caps[e];
            var slots := if p.Time? then SchedUpdate(cfg, s.slots, Pid(cfg, e), p.end, p.hart, m, p.end) else s.slots;
            && h < |slots| && |slots[h]| == cfg.slotCnt
            && slots[h][i] == if Covers(cfg, WithMrk(p, m), h, i) then Slot(Pid(cfg, e), EndOf(p) - i)
               else s0.slots[h][i]
  {
    var p := s.caps[e];
    PidInRange(cfg, e);
    assert s.slots[h][i] == if Covers(cfg, p, h, i) then Slot(Pid(cfg, e), EndOf(p) - i) else s0.slots[h][i];
    hide SchedUpdate, Pid, RevokedSlots;
    if p.Time? { SchedUpdateAt(cfg, s.slots, Pid(cfg, e), p.end, p.hart, m, p.end, h, i); }
  }

  lemma SlotsOneMore(cfg: Config, s0: Sys, s: Sys, s': Sys, e: nat, m: nat)
    requires Shape(cfg, s0) && Shape(cfg, s) && e < |s0.caps| && |s.caps| == |s0.caps| == |s'.caps|
    requires RevokedSlots(cfg, s0, s, e) && CapInRange(cfg, s.caps[e]) && m <= MrkOf(s.caps[e])
    requires s'.caps[e] == WithMrk(s.caps[e], m)
    requires var p := s.caps[e];
             s'.slots == if p.Time? then SchedUpdate(cfg, s.slots, Pid(cfg, e), p.end, p.hart, m, p.end) else s.slots
    ensures RevokedSlots(cfg, s0, s', e)
  {
    var p := s.caps[e];
    hide SchedUpdate, Pid, CapInRange;
    assert EndOf(s'.caps[e]) == EndOf(p);
    forall h, i | 0 <= h < cfg.hartCnt && 0 <= i < cfg.slotCnt
      ensures |s'.slots[h]| == cfg.slotCnt
      ensures s'.slots[h][i] ==
                if Covers(cfg, s'.caps[e], h, i) then Slot(Pid(cfg, e), EndOf(s'.caps[e]) - i)
                else s0.slots[h][i]
    {
      SlotOneMore(cfg, s0, s, e, m, h, i);
    }
    hide Covers, WithMrk;
  }

  lemma GoneOneMore(ring: seq<nat>, k: nat, n: nat, f: nat)
    requires DistinctEntries(ring) && k + n + 1 < |ring|
    ensures Gone(ring, k, n + 1, f) <==> Gone(ring, k, n, f) || f == ring[k + n + 1]
  {
    IndexOfIs(ring, k + n + 1);
  }

  lemma CapOneMore(s0: Sys, s: Sys, s': Sys, e: nat, k: nat, n: nat, f: nat)
    requires RingOk(s0) && RevokedCaps(s0, s, e, k, n) && k + n + 1 < |s0.ring| && e < |s.caps| && f < |s.caps|
    requires f != e
    requires Descends(s0, e, s0.ring[k + n + 1]) && s0.ring[k + n + 1] != e
    requires s'.caps
             == s.caps[s0.ring[k + n + 1] := NoCap][e := WithMrk(s0.caps[e], MrkOf(s0.caps[s0.ring[k + n + 1]]))]
    ensures s'.caps[f] == if Gone(s0.ring, k, n + 1, f) then NoCap else s0.caps[f]
    ensures Gone(s0.ring, k, n + 1, f) ==> Descends(s0, e, f)
  {
    GoneOneMore(s0.ring, k, n, f);
    assert s.caps[f] == if Gone(s0.ring, k, n, f) then NoCap else s0.caps[f];
    assert Gone(s0.ring, k, n, f) ==> Descends(s0, e, f);
    hide Descends, Gone, DistinctEntries, RingOk, RevokedCaps, WithMrk;
  }

  lemma CapsOneMore(s0: Sys, s: Sys, s': Sys, e: nat, k: nat, n: nat)
    requires RingOk(s0) && RevokedCaps(s0, s, e, k, n) && k + n + 1 < |s0.ring| && e < |s.caps|
    requires Descends(s0, e, s0.ring[k + n + 1]) && s0.ring[k + n + 1] != e
    requires s'.ring == s.ring[..k + 1] + s.ring[k + 2..]
    requires s'.caps
             == s.caps[s0.ring[k + n + 1] := NoCap][e := WithMrk(s0.caps[e], MrkOf(s0.caps[s0.ring[k + n + 1]]))]
    ensures RevokedCaps(s0, s', e, k, n + 1)
  {
    hide Descends, Gone, DistinctEntries;
    assert s'.ring == s0.ring[..k + 1] + s0.ring[k + n + 2..];
    forall f | 0 <= f < |s.caps| && Gone(s0.ring, k, n + 1, f) ensures Descends(s0, e, f) {
      if f != e { CapOneMore(s0, s, s', e, k, n, f); } else { NotGoneItself(s0, e, k, n + 1); }
    }
    forall f | 0 <= f < |s.caps| && f != e
      ensures s'.caps[f] == if Gone(s0.ring, k, n + 1, f) then NoCap else s0.caps[f]
    {
      CapOneMore(s0, s, s', e, k, n, f);
    }
    hide RingOk;
  }

  lemma NotGoneItself(s0: Sys, e: nat, k: nat, n: nat)
    requires RingOk(s0) && k < |s0.ring| && s0.ring[k] == e
    ensures !Gone(s0.ring, k, n, e)
  {
    IndexOfIs(s0.ring, k);
  }

  /** A further successful step revokes the next descendant. */
  lemma RevokedOneMore(cfg: Config, s0: Sys, s: Sys, e: nat, k: nat, n: nat)
    requires RevokedSome(cfg, s0, s, e, k, n) && Shape(cfg, s) && RingInv(cfg, s) && NoWrap(s, e)
    requires RevokeStep(cfg, s, e).err == Success
    ensures RevokedSome(cfg, s0, RevokeStep(cfg, s, e).s, e, k, n + 1)
  {
    assert s.ring[k] == e;
    RevokeSlicedState(cfg, s, e, k);
    RevokedMember(cfg, s0, s, e, k, n);
    RevokedDescends(cfg, s0, s, e, k, n);
    assert CapInRange(cfg, s.caps[e]);
    hide NoWrap, RevokeStep, Nested, DistinctEntries, SchedUpdate, Descends, RevokedSlots;
    CapsOneMore(s0, s, RevokeStep(cfg, s, e).s, e, k, n);
    hide RevokedCaps, RingOk, RingInv;
    SlotsOneMore(cfg, s0, s, RevokeStep(cfg, s, e).s, e, MrkOf(s.caps[s.ring[k + 1]]));
  }

  /** Exactly e's descendants, the n members behind it, are gone; the rest keeps its order. */
  ghost predicate RingWithout(s0: Sys, s: Sys, e: nat, n: nat)
    requires RingOk(s0)
  {
    && e in s0.ring
    && var k := IndexOf(s0.ring, e);
    && k + n < |s0.ring|
    && s.ring == s0.ring[..k + 1] + s0.ring[k + 1 + n..]
    && (forall f {:trigger Gone(s0.ring, k, n, f)} {:trigger Descends(s0, e, f)} | 0 <= f < |s0.caps| ::
          Gone(s0.ring, k, n, f) <==> Descends(s0, e, f))
  }

  /** The descendants' entries are empty, e has its whole range back, nothing else changed. */
  ghost predicate CapsWithout(s0: Sys, s: Sys, e: nat)
    requires RingOk(s0) && e < |s0.caps|
  {
    && |s.caps| == |s0.caps|
    && forall f | 0 <= f < |s.caps| ::
         s.caps[f] == if f == e then WithMrk(s0.caps[e], BgnOf(s0.caps[e]))
                      else if Descends(s0, e, f) then NoCap else s0.caps[f]
  }

  /** Every slot of e's range is scheduled for e's holder; all other slots are as before. */
  ghost predicate SlotsReturned(cfg: Config, s0: Sys, s: Sys, e: nat)
    requires Shape(cfg, s0) && e < |s0.caps|
  {
    var p := s0.caps[e];
    && |s.slots| == |s0.slots|
    && forall h, i {:trigger s.slots[h][i]} | 0 <= h < cfg.hartCnt && 0 <= i < cfg.slotCnt ::
         |s.slots[h]| == cfg.slotCnt
         && s.slots[h][i] == if p.Time? && p.hart == cfg.minHart + h && p.bgn <= i < p.end
                             then Slot(Pid(cfg, e), p.end - i) else s0.slots[h][i]
  }

  /** The effect of a whole revocation of e on the state s0. */
  ghost predicate RevokedAll(cfg: Config, s0: Sys, s: Sys, e: nat)
    requires Shape(cfg, s0) && RingOk(s0) && e < |s0.caps|
  {
    (exists n :: RingWithout(s0, s, e, n)) && CapsWithout(s0, s, e) && SlotsReturned(cfg, s0, s, e) && s.pmp == s0.pmp
  }

  /** When no child is left, the members revoked so far are all of e's descendants. */
  lemma RevokedAreAll(cfg: Config, s0: Sys, s: Sys, e: nat, k: nat, n: nat, f: nat)
    requires RevokedSome(cfg, s0, s, e, k, n) && RingInv(cfg, s) && NoDescendants(s, e) && f < |s0.caps|
    ensures Gone(s0.ring, k, n, f) <==> Descends(s0, e, f)
  {
    hide Nested, RevokedSlots, Shape;
    if Descends(s0, e, f) && !Gone(s0.ring, k, n, f) {
      IndexOfIs(s0.ring, k);
      var l := IndexOf(s0.ring, f);
      StillThere(cfg, s0, s, e, k, n, l);
      RangeAt(cfg, s0, f);
      assert false;
    }
  }

  lemma LaterMember(s0: Sys, s: Sys, e: nat, k: nat, n: nat, l: nat)
    requires RingOk(s0) && RevokedCaps(s0, s, e, k, n) && k + n < l < |s0.ring|
    ensures k < l - n < |s.ring| && s.ring[k] == e && s.ring[l - n] == s0.ring[l] < |s.caps|
    ensures s.caps[s0.ring[l]] == s0.caps[s0.ring[l]]
    ensures s.caps[e] == WithMrk(s0.caps[e], MrkOf(s0.caps[s0.ring[k + n]]))
  {
    IndexOfIs(s0.ring, l);
    assert s.ring[l - n] == s0.ring[l] && s.ring[k] == e;
    assert s0.ring[l] != e && !Gone(s0.ring, k, n, s0.ring[l]);
    hide Descends, DistinctEntries, WithMrk;
  }

  lemma ChildlessAt(s: Sys, k: nat, j: nat)
    requires RingOk(s) && k < j < |s.ring| && NoDescendants(s, s.ring[k])
    ensures var c, d := s.caps[s.ring[k]], s.caps[s.ring[j]]; SameGroup(c, d) ==> EndOf(d) <= BgnOf(c)
  {
    IndexOfIs(s.ring, k);
    assert RingCaps(s)[k] == s.caps[s.ring[k]] && RingCaps(s)[j] == s.caps[s.ring[j]];
    hide DistinctEntries;
  }

  lemma StillThere(cfg: Config, s0: Sys, s: Sys, e: nat, k: nat, n: nat, l: nat)
    requires RevokedSome(cfg, s0, s, e, k, n) && RingInv(cfg, s) && NoDescendants(s, e) && k + n < l < |s0.ring|
    ensures SameGroup(s0.caps[e], s0.caps[s0.ring[l]]) ==> EndOf(s0.caps[s0.ring[l]]) <= BgnOf(s0.caps[e])
  {
    hide Nested, Descends, RevokedSlots, RevokedCaps, Shape, DistinctEntries, NoDescendants;
    LaterMember(s0, s, e, k, n, l);
    ChildlessAt(s, k, l - n);
  }

  lemma ResetState(cfg: Config, s: Sys, e: nat)
    requires EntryOk(cfg, s, e) && Sliced(s.caps[e])
    ensures var c := s.caps[e];
            Reset(cfg, s, e).s == Sys(
              s.ring, s.caps[e := WithMrk(c, BgnOf(c))],
              if c.Time? then SchedUpdate(cfg, s.slots, Pid(cfg, e), c.end, c.hart, c.bgn, c.mrk) else s.slots,
              s.pmp)
  {
    hide RingOk, SchedUpdate;
  }

  lemma ResetCaps(s0: Sys, s: Sys, s': Sys, e: nat, k: nat, n: nat)
    requires RingOk(s0) && RevokedCaps(s0, s, e, k, n) && e < |s0.caps| && RingWithout(s0, s, e, n)
    requires IndexOf(s0.ring, e) == k
    requires s'.caps == s.caps[e := WithMrk(s0.caps[e], BgnOf(s0.caps[e]))]
    ensures CapsWithout(s0, s', e)
  {
    hide Gone, Descends, DistinctEntries, IndexOf;
  }

  /** One slot after the reset. */
  lemma ResetSlot(cfg: Config, s0: Sys, s: Sys, e: nat, h: nat, i: nat)
    requires Shape(cfg, s0) && Shape(cfg, s) && e < |s.caps| && |s.caps| == |s0.caps|
    requires RevokedSlots(cfg, s0, s, e) && CapInRange(cfg, s.caps[e]) && RangeOk(s.caps[e])
    requires h < cfg.hartCnt && i < cfg.slotCnt
    ensures var c := s.caps[e];
            var slots := if c.Time? then SchedUpdate(cfg, s.slots, Pid(cfg, e), c.end, c.hart, c.bgn, c.mrk)
                         else s.slots;
            && h < |slots| && |slots[h]| == cfg.slotCnt
            && slots[h][i] == if c.Time? && c.hart == cfg.minHart + h && c.bgn <= i < c.end
                              then Slot(Pid(cfg, e), c.end - i) else s0.slots[h][i]
  {
    var c := s.caps[e];
    PidInRange(cfg, e);
    assert s.slots[h][i] == if Covers(cfg, c, h, i) then Slot(Pid(cfg, e), EndOf(c) - i) else s0.slots[h][i];
    hide SchedUpdate, Pid, RevokedSlots;
    if c.Time? { SchedUpdateAt(cfg, s.slots, Pid(cfg, e), c.end, c.hart, c.bgn, c.mrk, h, i); }
  }

  lemma ResetSlots(cfg: Config, s0: Sys, s: Sys, s': Sys, e: nat)
    requires Shape(cfg, s0) && Shape(cfg, s) && e < |s.caps| && |s.caps| == |s0.caps|
    requires RevokedSlots(cfg, s0, s, e) && CapInRange(cfg, s.caps[e]) && RangeOk(s.caps[e]) && Sliced(s0.caps[e])
    requires s.caps[e] == WithMrk(s0.caps[e], MrkOf(s.caps[e]))
    requires var c := s.caps[e];
             s'.slots == if c.Time? then SchedUpdate(cfg, s.slots, Pid(cfg, e), c.end, c.hart, c.bgn, c.mrk)
             else s.slots
    ensures SlotsReturned(cfg, s0, s', e)
  {
    var p := s.caps[e];
    hide SchedUpdate, Pid, CapInRange, RevokedSlots, RangeOk;
    assert p.Time? == s0.caps[e].Time?;
    assert p.Time? ==> p.hart == s0.caps[e].hart && p.bgn == s0.caps[e].bgn && p.end == s0.caps[e].end;
    forall h, i | 0 <= h < cfg.hartCnt && 0 <= i < cfg.slotCnt
      ensures |s'.slots[h]| == cfg.slotCnt
      ensures s'.slots[h][i] == if p.Time? && p.hart == cfg.minHart + h && p.bgn <= i < p.end
                                then Slot(Pid(cfg, e), p.end - i) else s0.slots[h][i]
    {
      ResetSlot(cfg, s0, s, e, h, i);
    }
    hide WithMrk;
  }

  lemma RevokedRingPart(cfg: Config, s0: Sys, s: Sys, e: nat, k: nat, n: nat)
    requires RevokedSome(cfg, s0, s, e, k, n) && RingInv(cfg, s) && NoDescendants(s, e)
    ensures IndexOf(s0.ring, e) == k && RingWithout(s0, s, e, n)
  {
    hide Gone, Descends, NoDescendants, Nested, RevokedSlots, Shape;
    IndexOfIs(s0.ring, k);
    forall f | 0 <= f < |s0.caps| ensures Gone(s0.ring, k, n, f) <==> Descends(s0, e, f) {
      RevokedAreAll(cfg, s0, s, e, k, n, f);
    }
    hide IndexOf, DistinctEntries;
  }

  /** The final reset completes the revocation. */
  lemma RevokedByReset(cfg: Config, s0: Sys, s: Sys, e: nat, k: nat, n: nat)
    requires RevokedSome(cfg, s0, s, e, k, n) && Shape(cfg, s) && RingInv(cfg, s) && NoDescendants(s, e)
    ensures RevokedAll(cfg, s0, Reset(cfg, s, e).s, e)
  {
    RevokedRingPart(cfg, s0, s, e, k, n);
    hide Nested, NoDescendants, SlotsReturned, RevokedSlots, RingWithout, CapsWithout, Descends;
    assert CapInRange(cfg, s.caps[e]);
    RangeAt(cfg, s, e);
    ResetState(cfg, s, e);
    hide Reset, SchedUpdate, DistinctEntries;
    ResetSlots(cfg, s0, s, Reset(cfg, s, e).s, e);
    ResetCaps(s0, s, Reset(cfg, s, e).s, e, k, n);
    SameRing(s0, s, Reset(cfg, s, e).s, e, n);
    hide RingInv, RevokedCaps;
  }

  lemma SameRing(s0: Sys, s: Sys, s': Sys, e: nat, n: nat)
    requires RingOk(s0) && RingWithout(s0, s, e, n) && s'.ring == s.ring
    ensures RingWithout(s0, s', e, n)
  {
    hide Descends;
  }
}
