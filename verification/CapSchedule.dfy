/** The schedule and the PMP registers follow the capabilities through every operation. */
module CapSchedule {
  import opened CapTypes
  import opened CapTable
  import opened CapSystem
  import opened CapInvariant

  lemma OwnerInRange(cfg: Config, s: Sys, e: nat)
    requires Shape(cfg, s) && RingInv(cfg, s) && e < |s.caps| && s.caps[e].Time?
    ensures s.caps[e].end <= cfg.slotCnt && s.caps[e].bgn <= s.caps[e].mrk <= s.caps[e].end
  {
    var k := InRing(s, e);
    assert RangeOk(RingCaps(s)[k]);
  }

  /** While e's free part covers a slot nobody else's does. */
  lemma NobodyElse(cfg: Config, s: Sys, e: nat, h: nat, i: nat)
    requires RingInv(cfg, s) && e < |s.caps| && Covers(cfg, s.caps[e], h, i)
    ensures forall f {:trigger s.caps[f]} | 0 <= f < |s.caps| && f != e :: !Covers(cfg, s.caps[f], h, i)
  {
    forall f | 0 <= f < |s.caps| && f != e ensures !Covers(cfg, s.caps[f], h, i) {
      if SameGroup(s.caps[f], s.caps[e]) { FreePartsDisjoint(cfg, s, f, e); }
    }
  }

  lemma DeriveSlot(cfg: Config, s: Sys, src: nat, dst: nat, ncap: Cap, h: nat, i: nat)
    requires Shape(cfg, s) && RingInv(cfg, s) && ScheduleInv(cfg, s) && src < |s.caps| && dst < |s.caps|
    requires h < cfg.hartCnt && i < cfg.slotCnt
    requires Derive(cfg, s, src, dst, ncap).err == Success
    ensures var s' := Derive(cfg, s, src, dst, ncap).s;
            |s'.slots| == |s.slots| && |s'.slots[h]| == cfg.slotCnt && SlotOk(cfg, s'.caps, h, i, s'.slots[h][i])
  {
    var s' := Derive(cfg, s, src, dst, ncap).s;
    assert SlotOk(cfg, s.caps, h, i, s.slots[h][i]);
    if ncap.Time? {
      SchedUpdateAt(cfg, s.slots, Pid(cfg, dst), ncap.end, ncap.hart, ncap.mrk, ncap.end, h, i);
    }
    if Covers(cfg, ncap, h, i) {
      OwnerInRange(cfg, s, src);
      NobodyElse(cfg, s, src, h, i);
      hide RingInv, ScheduleInv;
      SlotClaimed(cfg, s'.caps, h, i, dst);
    } else {
      SlotUntouched(cfg, s.caps, s'.caps, h, i, s.slots[h][i]);
    }
  }

  /** What a move leaves for the schedule: the capability in its new entry, and its slots. */
  lemma MovedState(cfg: Config, s: Sys, src: nat, dst: nat) returns (c: Cap)
    requires RingOk(s) && src < |s.caps| && dst < |s.caps| && Move(cfg, s, src, dst).err == Success
    ensures s.caps[src] != NoCap && s.caps[dst] == NoCap && src != dst
    ensures if s.caps[src].Time? then c == s.caps[src] else !c.Time?
    ensures var s', p := Move(cfg, s, src, dst).s, s.caps[src];
            && s'.caps == s.caps[dst := c][src := NoCap]
            && s'.slots == if Pid(cfg, src) != Pid(cfg, dst) && p.Time?
               then SchedUpdate(cfg, s.slots, Pid(cfg, dst), p.end, p.hart, p.mrk, p.end) else s.slots
  {
    c := Move(cfg, s, src, dst).s.caps[dst];
    hide RingOk, PmpUnset, Replace, SchedUpdate, Pid;
  }

  /** A slot that the moved capability covers. */
  lemma MovedSlot(cfg: Config, s: Sys, s': Sys, src: nat, dst: nat, h: nat, i: nat)
    requires Shape(cfg, s) && RingInv(cfg, s) && ScheduleInv(cfg, s) && src < |s.caps| && dst < |s.caps|
    requires h < cfg.hartCnt && i < cfg.slotCnt && src != dst && s.caps[dst] == NoCap
    requires Covers(cfg, s.caps[src], h, i) && s'.caps == s.caps[dst := s.caps[src]][src := NoCap]
    requires var c := s.caps[src];
             s'.slots == if Pid(cfg, src) != Pid(cfg, dst)
                         then SchedUpdate(cfg, s.slots, Pid(cfg, dst), c.end, c.hart, c.mrk, c.end) else s.slots
    ensures |s'.slots| == |s.slots| && |s'.slots[h]| == cfg.slotCnt && SlotOk(cfg, s'.caps, h, i, s'.slots[h][i])
  {
    var c := s.caps[src];
    assert SlotOk(cfg, s.caps, h, i, s.slots[h][i]);
    SchedUpdateAt(cfg, s.slots, Pid(cfg, dst), c.end, c.hart, c.mrk, c.end, h, i);
    OwnerInRange(cfg, s, src);
    NobodyElse(cfg, s, src, h, i);
    PidInRange(cfg, src);
    hide RingInv, ScheduleInv, SchedUpdate, Pid;
    SlotClaimed(cfg, s'.caps, h, i, dst);
  }

  lemma MoveSlot(cfg: Config, s: Sys, src: nat, dst: nat, h: nat, i: nat)
    requires Shape(cfg, s) && RingInv(cfg, s) && ScheduleInv(cfg, s) && src < |s.caps| && dst < |s.caps|
    requires h < cfg.hartCnt && i < cfg.slotCnt
    requires Move(cfg, s, src, dst).err == Success
    ensures var s' := Move(cfg, s, src, dst).s;
            |s'.slots| == |s.slots| && |s'.slots[h]| == cfg.slotCnt && SlotOk(cfg, s'.caps, h, i, s'.slots[h][i])
  {
    var s', c := Move(cfg, s, src, dst).s, s.caps[src];
    var c' := MovedState(cfg, s, src, dst);
    if Covers(cfg, c, h, i) {
      hide Nested, Move, DistinctEntries, SchedUpdate, RingInv, ScheduleInv, Pid, SlotOk, RingOk;
      MovedSlot(cfg, s, s', src, dst, h, i);
    } else {
      assert SlotOk(cfg, s.caps, h, i, s.slots[h][i]);
      if c.Time? { SchedUpdateAt(cfg, s.slots, Pid(cfg, dst), c.end, c.hart, c.mrk, c.end, h, i); }
      hide Nested, Move, DistinctEntries, SchedUpdate, RingInv, ScheduleInv, Pid, RingOk, SlotOk;
      assert !Covers(cfg, s'.caps[dst], h, i);
      SlotUntouched(cfg, s.caps, s'.caps, h, i, s.slots[h][i]);
    }
  }

  lemma DeleteSlot(cfg: Config, s: Sys, e: nat, h: nat, i: nat)
    requires Shape(cfg, s) && RingInv(cfg, s) && ScheduleInv(cfg, s) && e < |s.caps|
    requires h < cfg.hartCnt && i < cfg.slotCnt
    requires Delete(cfg, s, e).err == Success
    ensures var s' := Delete(cfg, s, e).s;
            |s'.slots| == |s.slots| && |s'.slots[h]| == cfg.slotCnt && SlotOk(cfg, s'.caps, h, i, s'.slots[h][i])
  {
    var s', c := Delete(cfg, s, e).s, s.caps[e];
    assert SlotOk(cfg, s.caps, h, i, s.slots[h][i]);
    if c.Time? { SchedDeleteAt(cfg, s.slots, c.hart, c.mrk, c.end, h, i); }
    if Covers(cfg, c, h, i) {
      NobodyElse(cfg, s, e, h, i);
    } else {
      SlotUntouched(cfg, s.caps, s'.caps, h, i, s.slots[h][i]);
    }
  }

  /** The region that a revoke step gives back to e, from the child's mark to e's end, holds no
      free part but e's and the child's. */
  lemma RevokedRegion(cfg: Config, s: Sys, e: nat, k: nat, f: nat)
    requires RingInv(cfg, s) && k + 1 < |s.ring| && s.ring[k] == e && f < |s.caps|
    requires var cs := RingCaps(s); SameGroup(cs[k], cs[k + 1]) && SameGroup(cs[k], s.caps[f])
    requires f != e && f != s.ring[k + 1]
    ensures EndOf(s.caps[f]) <= MrkOf(s.caps[s.ring[k + 1]]) || EndOf(s.caps[e]) <= MrkOf(s.caps[f])
  {
    var cs := RingCaps(s);
    var l := InRing(s, f);
    assert l != k && l != k + 1;
    assert if l < k then PairOk(cs[l], cs[k]) else PairOk(cs[k + 1], cs[l]);
  }

  /** One successful revoke step of time capability e, whose child stands at position k + 1. */
  ghost predicate RevokesTime(cfg: Config, s: Sys, s': Sys, e: nat, k: nat)
  {
    && RingInv(cfg, s) && k + 1 < |s.ring| && s.ring[k] == e && s.caps[e].Time?
    && var p, child := s.caps[e], s.ring[k + 1];
    && var c := s.caps[child];
    && child != e && c.Time? && c.hart == p.hart && p.bgn <= c.bgn && c.end <= p.mrk
    && s'.ring == s.ring[..k + 1] + s.ring[k + 2..]
    && s'.caps == s.caps[child := NoCap][e := Time(p.hart, p.bgn, c.mrk, p.end)]
    && s'.slots == SchedUpdate(cfg, s.slots, Pid(cfg, e), p.end, p.hart, c.mrk, p.end)
    && s'.pmp == s.pmp
  }

  lemma RevokeTestTime(p: Cap, c: Cap)
    requires p.Time? && RevokeTest(p, c) == Success
    ensures c.Time? && c.hart == p.hart && Reclaimed(p, c) == Time(p.hart, p.bgn, c.mrk, p.end)
  {
  }

  lemma RevokeTimeState(cfg: Config, s: Sys, e: nat, p: Cap, c: Cap)
    requires EntryOk(cfg, s, e) && p.Time? && s.caps[e] == p && c == s.caps[NextOf(s.ring, e)]
    requires RevokeStep(cfg, s, e).err == Success
    ensures c.Time? && c.hart == p.hart
    ensures RevokeStep(cfg, s, e).s == Sys(
              Without(s.ring, NextOf(s.ring, e)),
              s.caps[NextOf(s.ring, e) := NoCap][e := Time(p.hart, p.bgn, c.mrk, p.end)],
              SchedUpdate(cfg, s.slots, Pid(cfg, e), p.end, p.hart, c.mrk, p.end), s.pmp)
  {
    RevokeTestTime(p, c);
    hide RevokeTest, Reclaimed, SchedUpdate, Without, DistinctEntries;
  }

  lemma RevokeTimeChild(cfg: Config, s: Sys, e: nat, k: nat)
    requires Shape(cfg, s) && RingInv(cfg, s) && k < |s.ring| && s.ring[k] == e && NoWrap(s, e)
    requires s.caps[e].Time? && RevokeTest(s.caps[e], s.caps[NextOf(s.ring, e)]) == Success
    ensures k + 1 < |s.ring| && NextOf(s.ring, e) == s.ring[k + 1] != e
    ensures Without(s.ring, s.ring[k + 1]) == s.ring[..k + 1] + s.ring[k + 2..]
    ensures var p, c := s.caps[e], s.caps[s.ring[k + 1]];
            c.Time? && p.bgn <= c.bgn && c.end <= p.mrk
  {
    hide Nested, RevokeTest;
    RevokedChild(cfg, s, e, k);
    IndexOfIs(s.ring, k + 1);
    assert RingCaps(s)[k] == s.caps[e] && RingCaps(s)[k + 1] == s.caps[s.ring[k + 1]];
  }

  lemma RevokeTimeEffect(cfg: Config, s: Sys, e: nat, k: nat)
    requires Shape(cfg, s) && RingInv(cfg, s) && k < |s.ring| && s.ring[k] == e && NoWrap(s, e)
    requires s.caps[e].Time? && RevokeStep(cfg, s, e).err == Success
    ensures RevokesTime(cfg, s, RevokeStep(cfg, s, e).s, e, k)
  {
    RevokeTimeChild(cfg, s, e, k);
    hide RingInv, Shape, NoWrap, Without, SchedUpdate;
    RevokeTimeState(cfg, s, e, s.caps[e], s.caps[s.ring[k + 1]]);
    hide RevokeStep;
  }

  lemma RevokeTimeSlot(cfg: Config, s: Sys, s': Sys, e: nat, k: nat, h: nat, i: nat)
    requires Shape(cfg, s) && RingInv(cfg, s) && ScheduleInv(cfg, s) && RevokesTime(cfg, s, s', e, k)
    requires h < cfg.hartCnt && i < cfg.slotCnt
    ensures |s'.slots| == |s.slots| && |s'.slots[h]| == cfg.slotCnt && SlotOk(cfg, s'.caps, h, i, s'.slots[h][i])
  {
    var p, child := s.caps[e], s.ring[k + 1];
    var c := s.caps[child];
    assert SlotOk(cfg, s.caps, h, i, s.slots[h][i]);
    SchedUpdateAt(cfg, s.slots, Pid(cfg, e), p.end, p.hart, c.mrk, p.end, h, i);
    OwnerInRange(cfg, s, e);
    OwnerInRange(cfg, s, child);
    if p.hart == cfg.minHart + h && c.mrk <= i < p.end {
      RevokedRegionClear(cfg, s, e, k, h, i);
      hide RingInv, ScheduleInv;
      SlotClaimed(cfg, s'.caps, h, i, e);
    } else {
      hide RingInv, ScheduleInv;
      SlotUntouched(cfg, s.caps, s'.caps, h, i, s.slots[h][i]);
    }
  }

  lemma RevokedRegionClear(cfg: Config, s: Sys, e: nat, k: nat, h: nat, i: nat)
    requires RingInv(cfg, s) && k + 1 < |s.ring| && s.ring[k] == e
    requires var cs := RingCaps(s); SameGroup(cs[k], cs[k + 1]) && cs[k].Time?
    requires MrkOf(s.caps[s.ring[k + 1]]) <= i < EndOf(s.caps[e]) && s.caps[e].hart == cfg.minHart + h
    ensures forall f {:trigger s.caps[f]} | 0 <= f < |s.caps| && f != e && f != s.ring[k + 1] ::
            !Covers(cfg, s.caps[f], h, i)
  {
    forall f | 0 <= f < |s.caps| && f != e && f != s.ring[k + 1] ensures !Covers(cfg, s.caps[f], h, i) {
      if SameGroup(s.caps[e], s.caps[f]) { RevokedRegion(cfg, s, e, k, f); }
    }
  }

  lemma ResetTimeSlot(cfg: Config, s: Sys, e: nat, h: nat, i: nat)
    requires Shape(cfg, s) && RingInv(cfg, s) && ScheduleInv(cfg, s) && NoDescendants(s, e)
    requires h < cfg.hartCnt && i < cfg.slotCnt && e < |s.caps| && s.caps[e].Time?
    ensures var s' := Reset(cfg, s, e).s;
            |s'.slots| == |s.slots| && |s'.slots[h]| == cfg.slotCnt && SlotOk(cfg, s'.caps, h, i, s'.slots[h][i])
  {
    var s', p := Reset(cfg, s, e).s, s.caps[e];
    assert SlotOk(cfg, s.caps, h, i, s.slots[h][i]);
    OwnerInRange(cfg, s, e);
    SchedUpdateAt(cfg, s.slots, Pid(cfg, e), p.end, p.hart, p.bgn, p.mrk, h, i);
    PidInRange(cfg, e);
    if p.hart == cfg.minHart + h && p.bgn <= i < p.mrk {
      ResetRegionClear(cfg, s, e, h, i);
      hide RingInv, NoDescendants, ScheduleInv, SchedUpdate;
      SlotClaimed(cfg, s'.caps, h, i, e);
    } else {
      hide RingInv, NoDescendants, ScheduleInv, SchedUpdate;
      SlotUntouched(cfg, s.caps, s'.caps, h, i, s.slots[h][i]);
    }
  }

  lemma ResetRegionClear(cfg: Config, s: Sys, e: nat, h: nat, i: nat)
    requires RingInv(cfg, s) && NoDescendants(s, e) && e < |s.caps| && s.caps[e].Time?
    requires s.caps[e].hart == cfg.minHart + h && s.caps[e].bgn <= i < s.caps[e].end
    ensures forall f {:trigger s.caps[f]} | 0 <= f < |s.caps| && f != e :: !Covers(cfg, s.caps[f], h, i)
  {
    forall f | 0 <= f < |s.caps| && f != e ensures !Covers(cfg, s.caps[f], h, i) {
      if SameGroup(s.caps[e], s.caps[f]) { ResetRegion(cfg, s, e, f); }
    }
  }

  /** Once e has no descendants its whole range is free of other free parts. */
  lemma ResetRegion(cfg: Config, s: Sys, e: nat, f: nat)
    requires RingInv(cfg, s) && NoDescendants(s, e) && e < |s.caps| && f < |s.caps| && f != e
    requires SameGroup(s.caps[e], s.caps[f])
    ensures EndOf(s.caps[f]) <= BgnOf(s.caps[e]) || EndOf(s.caps[e]) <= MrkOf(s.caps[f])
  {
    var cs := RingCaps(s);
    var k := InRing(s, e);
    var l := InRing(s, f);
    if l < k { assert PairOk(cs[l], cs[k]); }
  }

  /** What the parent and child are when a revoke step of a capability other than time succeeds. */
  lemma RevokeTestOther(p: Cap, c: Cap)
    requires RevokeTest(p, c) == Success && !p.Time?
    ensures !c.Time? && !Reclaimed(p, c).Time?
    ensures p.Pmp? == Reclaimed(p, c).Pmp? == false
  {
  }

  /** Changes that leave all time capabilities and the slots alone keep the schedule. */
  lemma ScheduleUntouched(cfg: Config, s: Sys, s': Sys)
    requires Shape(cfg, s) && Shape(cfg, s') && ScheduleInv(cfg, s) && s'.slots == s.slots
    requires forall e {:trigger s.caps[e]} {:trigger s'.caps[e]} | 0 <= e < |s.caps| ::
               s.caps[e].Time? || s'.caps[e].Time? ==> s'.caps[e] == s.caps[e]
    ensures ScheduleInv(cfg, s')
  {
    forall h, i | 0 <= h < cfg.hartCnt && 0 <= i < cfg.slotCnt ensures SlotOk(cfg, s'.caps, h, i, s'.slots[h][i]) {
      assert SlotOk(cfg, s.caps, h, i, s.slots[h][i]);
      SlotUntouched(cfg, s.caps, s'.caps, h, i, s.slots[h][i]);
    }
  }

  lemma DeriveKeepsSchedule(cfg: Config, s: Sys, src: nat, dst: nat, ncap: Cap)
    requires Shape(cfg, s) && RingInv(cfg, s) && ScheduleInv(cfg, s) && src < |s.caps| && dst < |s.caps|
    ensures var s' := Derive(cfg, s, src, dst, ncap).s; Shape(cfg, s') && ScheduleInv(cfg, s')
  {
    if Derive(cfg, s, src, dst, ncap).err == Success {
      forall h, i | 0 <= h < cfg.hartCnt && 0 <= i < cfg.slotCnt
        ensures var s' := Derive(cfg, s, src, dst, ncap).s;
                |s'.slots| == |s.slots| && |s'.slots[h]| == cfg.slotCnt && SlotOk(cfg, s'.caps, h, i, s'.slots[h][i])
      {
        DeriveSlot(cfg, s, src, dst, ncap, h, i);
      }
      hide RingInv, SlotOk, IsDerivable, IsValid, SchedUpdate;
    }
  }

  lemma MoveKeepsSchedule(cfg: Config, s: Sys, src: nat, dst: nat)
    requires Shape(cfg, s) && RingInv(cfg, s) && ScheduleInv(cfg, s) && src < |s.caps| && dst < |s.caps|
    ensures var s' := Move(cfg, s, src, dst).s; Shape(cfg, s') && ScheduleInv(cfg, s')
  {
    if Move(cfg, s, src, dst).err == Success {
      forall h, i | 0 <= h < cfg.hartCnt && 0 <= i < cfg.slotCnt
        ensures var s' := Move(cfg, s, src, dst).s;
                |s'.slots| == |s.slots| && |s'.slots[h]| == cfg.slotCnt && SlotOk(cfg, s'.caps, h, i, s'.slots[h][i])
      {
        MoveSlot(cfg, s, src, dst, h, i);
      }
      hide RingInv, SlotOk, SchedUpdate, PmpUnset;
    }
  }

  lemma DeleteKeepsSchedule(cfg: Config, s: Sys, e: nat)
    requires Shape(cfg, s) && RingInv(cfg, s) && ScheduleInv(cfg, s) && e < |s.caps|
    ensures var s' := Delete(cfg, s, e).s; Shape(cfg, s') && ScheduleInv(cfg, s')
  {
    if Delete(cfg, s, e).err == Success {
      forall h, i | 0 <= h < cfg.hartCnt && 0 <= i < cfg.slotCnt
        ensures var s' := Delete(cfg, s, e).s;
                |s'.slots| == |s.slots| && |s'.slots[h]| == cfg.slotCnt && SlotOk(cfg, s'.caps, h, i, s'.slots[h][i])
      {
        DeleteSlot(cfg, s, e, h, i);
      }
      hide RingInv, SlotOk, SchedDelete, PmpUnset;
    }
  }

  lemma RevokeKeepsTimes(cfg: Config, s: Sys, e: nat)
    requires Shape(cfg, s) && RingInv(cfg, s) && ScheduleInv(cfg, s) && e < |s.caps| && s.caps[e].Time?
    requires NoWrap(s, e) && RevokeStep(cfg, s, e).err == Success
    ensures var s' := RevokeStep(cfg, s, e).s; Shape(cfg, s') && ScheduleInv(cfg, s')
  {
    var r := RevokeStep(cfg, s, e);
    var k := InRing(s, e);
    RevokeTimeEffect(cfg, s, e, k);
    forall h, i | 0 <= h < cfg.hartCnt && 0 <= i < cfg.slotCnt
      ensures |r.s.slots| == |s.slots| && |r.s.slots[h]| == cfg.slotCnt
      ensures SlotOk(cfg, r.s.caps, h, i, r.s.slots[h][i])
    {
      RevokeTimeSlot(cfg, s, r.s, e, k, h, i);
    }
    hide RingInv, SlotOk, SchedUpdate, RevokeStep, NoWrap;
  }

  lemma RevokeKeepsSchedule(cfg: Config, s: Sys, e: nat)
    requires Shape(cfg, s) && RingInv(cfg, s) && ScheduleInv(cfg, s) && e < |s.caps|
    requires NoWrap(s, e)
    ensures var s' := RevokeStep(cfg, s, e).s; Shape(cfg, s') && ScheduleInv(cfg, s')
  {
    var r := RevokeStep(cfg, s, e);
    if r.err == Success {
      if s.caps[e].Time? {
        RevokeKeepsTimes(cfg, s, e);
      } else {
        RevokeTestOther(s.caps[e], s.caps[NextOf(s.ring, e)]);
        hide RingInv, SchedUpdate, PmpUnset, RevokeTest, Reclaimed, NoWrap;
        ScheduleUntouched(cfg, s, r.s);
      }
    }
  }

  lemma ResetKeepsSchedule(cfg: Config, s: Sys, e: nat)
    requires Shape(cfg, s) && RingInv(cfg, s) && ScheduleInv(cfg, s) && e < |s.caps| && NoDescendants(s, e)
    ensures var s' := Reset(cfg, s, e).s; Shape(cfg, s') && ScheduleInv(cfg, s')
  {
    var r := Reset(cfg, s, e);
    if s.caps[e].Time? {
      forall h, i | 0 <= h < cfg.hartCnt && 0 <= i < cfg.slotCnt
        ensures |r.s.slots| == |s.slots| && |r.s.slots[h]| == cfg.slotCnt
        ensures SlotOk(cfg, r.s.caps, h, i, r.s.slots[h][i])
      {
        ResetTimeSlot(cfg, s, e, h, i);
      }
      hide RingInv, SlotOk, SchedUpdate;
    } else {
      hide RingInv, SchedUpdate;
      ScheduleUntouched(cfg, s, r.s);
    }
  }

  lemma PmpKeepsSchedule(cfg: Config, s: Sys, e: nat, slot: nat)
    requires Shape(cfg, s) && RingInv(cfg, s) && ScheduleInv(cfg, s) && e < |s.caps|
    requires Pid(cfg, e) < |s.pmp| && slot < cfg.pmpCnt
    ensures var s' := PmpLoad(cfg, s, e, slot).s; Shape(cfg, s') && ScheduleInv(cfg, s')
    ensures var s' := PmpUnload(cfg, s, e).s; Shape(cfg, s') && ScheduleInv(cfg, s')
  {
    hide PmpSet, PmpUnset;
    ScheduleUntouched(cfg, s, PmpLoad(cfg, s, e, slot).s);
    ScheduleUntouched(cfg, s, PmpUnload(cfg, s, e).s);
  }
}
