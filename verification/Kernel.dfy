/** The kernel's static state as the C code keeps it, and the capability operations as loops and
    assignments on it.  Every operation is proved to do what CapSystem says of the state. */
module Kernel {
  import opened CapTypes
  import opened CapTable
  import opened CapSystem
  import opened CapInvariant
  import opened CapSchedule
  import opened CapPmp
  import opened CapRuns
  import opened CapRevocation

  /** The contents of a two-dimensional array. */
  ghost function Rows<T>(a: array2<T>): (r: seq<seq<T>>)
    reads a
    ensures |r| == a.Length0
    ensures forall h | 0 <= h < |r| :: |r[h]| == a.Length1
    ensures forall h, i | 0 <= h < a.Length0 && 0 <= i < a.Length1 :: r[h][i] == a[h, i]
  {
    seq(a.Length0, h requires 0 <= h < a.Length0 reads a =>
      seq(a.Length1, i requires 0 <= i < a.Length1 reads a => a[h, i]))
  }

  lemma SameRows<T>(r: seq<seq<T>>, q: seq<seq<T>>)
    requires |r| == |q|
    requires forall h | 0 <= h < |r| :: |r[h]| == |q[h]|
    requires forall h, i | 0 <= h < |r| && 0 <= i < |r[h]| :: r[h][i] == q[h][i]
    ensures r == q
  {
    forall h | 0 <= h < |r| ensures r[h] == q[h] {
    }
  }

  /** Linked, with the capabilities caps. */
  ghost predicate Table(t: seq<Cte>, ring: seq<nat>, caps: seq<Cap>) {
    Linked(t, ring) && CapsOf(t) == caps
  }

  lemma SameCap(t: seq<Cte>, e: nat)
    requires e < |t|
    ensures CapsOf(t)[e := t[e].cap] == CapsOf(t)
  {
  }

  lemma TableCap(t: seq<Cte>, ring: seq<nat>, caps: seq<Cap>, e: nat, c: Cap)
    requires Table(t, ring, caps) && e < |t|
    ensures Table(SetCap(t, e, c), ring, caps[e := c])
  {
    var t' := SetCap(t, e, c);
    assert Bounded(t');
    forall i | 0 <= i < |ring| ensures LinkAt(t', ring, i) {
      assert LinkAt(t, ring, i);
    }
    assert CapsOf(t') == caps[e := c];
  }

  lemma TableInsert(t: seq<Cte>, ring: seq<nat>, caps: seq<Cap>, c: nat, cap: Cap, prev: nat)
    requires Table(t, ring, caps) && c < |t| && c !in ring && prev in ring
    ensures prev < |t| && Table(CteInsert(t, c, cap, prev), InsertAfter(ring, prev, c), caps[c := cap])
  {
    InsertKeepsLinks(t, ring, c, cap, IndexOf(ring, prev));
    hide Linked;
  }

  lemma TableDelete(t: seq<Cte>, ring: seq<nat>, caps: seq<Cap>, c: nat)
    requires Table(t, ring, caps) && c in ring
    ensures c < |t| && Table(CteDelete(t, c), Without(ring, c), caps[c := NoCap])
  {
    DeleteKeepsLinks(t, ring, IndexOf(ring, c));
    hide Linked;
  }

  lemma TableMove(t: seq<Cte>, ring: seq<nat>, caps: seq<Cap>, src: nat, dst: nat)
    requires Table(t, ring, caps) && src in ring && dst < |t| && dst !in ring && |ring| >= 2
    ensures src < |t| && Table(CteMove(t, src, dst), Replace(ring, src, dst), caps[dst := t[src].cap][src := NoCap])
  {
    MoveKeepsLinks(t, ring, IndexOf(ring, src), dst);
    hide Linked;
  }

  lemma TableNext(t: seq<Cte>, ring: seq<nat>, caps: seq<Cap>, e: nat)
    requires Table(t, ring, caps) && e in ring
    ensures e < |t| && t[e].next == NextOf(ring, e)
  {
    assert LinkAt(t, ring, IndexOf(ring, e));
  }

  lemma FirstEntry(t: seq<Cte>, cap: Cap)
    requires |t| > 0 && forall e | 0 <= e < |t| :: t[e] == Cte(0, 0, NoCap)
    ensures Bounded(t) && Linked(CteInsert(t, 0, cap, 0), [0]) && [0] == InitRing(1)
    ensures forall e | 0 <= e < |t| :: CapsOf(CteInsert(t, 0, cap, 0))[e] == if e == 0 then cap else NoCap
  {
    var t' := CteInsert(t, 0, cap, 0);
    assert t'[0] == Cte(0, 0, cap);
    assert LinkAt(t', [0], 0);
  }

  lemma NextEntry(t: seq<Cte>, i: nat, cap: Cap)
    requires 0 < i < |t| && Linked(t, InitRing(i))
    ensures Linked(CteInsert(t, i, cap, 0), InitRing(i + 1)) && CapsOf(CteInsert(t, i, cap, 0)) == CapsOf(t)[i := cap]
  {
    InsertKeepsLinks(t, InitRing(i), i, cap, 0);
    assert InitRing(i)[..1] + [i] + InitRing(i)[1..] == InitRing(i + 1);
  }

  /** The state that ctable_init and sched_init leave becomes InitSys by loading entry 0. */
  lemma InitLoad(cfg: Config, init: seq<Cap>, s: Sys)
    requires InitCapsOk(cfg, init)
    requires s.ring == InitRing(|init|)
    requires s.caps == seq(cfg.procCnt * cfg.capCnt, e requires 0 <= e => if e < |init| then init[e] else NoCap)
    requires s.slots == seq(cfg.hartCnt,
                            _ => seq(cfg.slotCnt, i requires 0 <= i < cfg.slotCnt => Slot(0, cfg.slotCnt - i)))
    requires |s.pmp| == cfg.procCnt && forall p | 0 <= p < |s.pmp| :: |s.pmp[p]| == cfg.pmpCnt
    requires forall p, i | 0 <= p < |s.pmp| && 0 <= i < |s.pmp[p]| :: s.pmp[p][i] == PmpReg(0, 0)
    ensures RingOk(s) && 0 < |s.caps| && Pid(cfg, 0) == 0 && PmpLoad(cfg, s, 0, 0).s == InitSys(cfg, init)
  {
    InitUnloadedRing(cfg, init, s);
    FirstProcess(cfg, 0);
    assert s.caps[0] == init[0] && IsValid(init[0]);
    SameRows(PmpLoad(cfg, s, 0, 0).s.pmp, InitSys(cfg, init).pmp);
  }

  lemma InitUnloadedRing(cfg: Config, init: seq<Cap>, s: Sys)
    requires InitCapsOk(cfg, init) && s.ring == InitRing(|init|)
    requires s.caps == seq(cfg.procCnt * cfg.capCnt, e requires 0 <= e => if e < |init| then init[e] else NoCap)
    ensures RingOk(s) && 0 < |s.caps|
  {
    MulMonotone(1, cfg.procCnt, cfg.capCnt);
    forall e | 0 <= e < |s.caps| ensures e in s.ring <==> s.caps[e] != NoCap {
      if 0 < e < |init| { assert s.ring[|init| - e] == e; }
      if e == 0 { assert s.ring[0] == 0; }
    }
  }

  class Kernel {
    const cfg: Config
    const ctable: array<Cte>
    const slots: array2<Slot>
    const pmp: array2<PmpReg>
    /** The entries in use, in the order of their links. */
    ghost var ring: seq<nat>

    /** What the state means to the capability system. */
    ghost function Model(): Sys
      reads this, ctable, slots, pmp
    {
      Sys(ring, CapsOf(ctable[..]), Rows(slots), Rows(pmp))
    }

    ghost predicate Valid()
      reads this, ctable, slots, pmp
    {
      Linked(ctable[..], ring) && SysInv(cfg, Model())
    }

    // -------------------------------------------------------------- cap_table.c

    method SetEntryPrev(e: nat, prev: nat)
      requires e < ctable.Length
      modifies ctable
      ensures ctable[..] == SetPrev(old(ctable[..]), e, prev)
    {
      ctable[e] := ctable[e].(prev := prev);
    }

    method SetEntryNext(e: nat, next: nat)
      requires e < ctable.Length
      modifies ctable
      ensures ctable[..] == SetNext(old(ctable[..]), e, next)
    {
      ctable[e] := ctable[e].(next := next);
    }

    method SetEntryCap(e: nat, cap: Cap)
      requires e < ctable.Length
      modifies ctable
      ensures ctable[..] == SetCap(old(ctable[..]), e, cap)
    {
      ctable[e] := ctable[e].(cap := cap);
    }

    method InsertEntry(c: nat, cap: Cap, prev: nat)
      requires Bounded(ctable[..]) && c < ctable.Length && prev < ctable.Length
      modifies ctable
      ensures ctable[..] == CteInsert(old(ctable[..]), c, cap, prev)
      ensures Linked(old(ctable[..]), ring) && c !in ring && prev in ring ==>
                Linked(ctable[..], InsertAfter(ring, prev, c))
    {
      ghost var t := ctable[..];
      SetEntryPrev(c, prev);
      SetEntryNext(c, ctable[prev].next);
      SetEntryNext(ctable[c].prev, c);
      SetEntryPrev(ctable[c].next, c);
      SetEntryCap(c, cap);
      hide Linked;
      if Linked(t, ring) && c !in ring && prev in ring { TableInsert(t, ring, CapsOf(t), c, cap, prev); }
    }

    method DeleteEntry(c: nat) returns (cap: Cap)
      requires Bounded(ctable[..]) && c < ctable.Length
      modifies ctable
      ensures ctable[..] == CteDelete(old(ctable[..]), c) && cap == old(ctable[c].cap)
      ensures Linked(old(ctable[..]), ring) && c in ring ==> Linked(ctable[..], Without(ring, c))
    {
      ghost var t := ctable[..];
      cap := ctable[c].cap;
      SetEntryCap(c, NoCap);
      SetEntryNext(ctable[c].prev, ctable[c].next);
      SetEntryPrev(ctable[c].next, ctable[c].prev);
      hide Linked;
      if Linked(t, ring) && c in ring { TableDelete(t, ring, CapsOf(t), c); }
    }

    method MoveEntry(src: nat, dst: nat)
      requires Bounded(ctable[..]) && src < ctable.Length && dst < ctable.Length
      modifies ctable
      ensures ctable[..] == CteMove(old(ctable[..]), src, dst)
      ensures Linked(old(ctable[..]), ring) && src in ring && dst !in ring && |ring| >= 2 ==>
                Linked(ctable[..], Replace(ring, src, dst))
    {
      ghost var t := ctable[..];
      if src == dst { return; }
      SetEntryCap(dst, ctable[src].cap);
      SetEntryCap(src, NoCap);
      SetEntryPrev(dst, ctable[src].prev);
      SetEntryNext(dst, ctable[src].next);
      SetEntryNext(ctable[dst].prev, dst);
      SetEntryPrev(ctable[dst].next, dst);
      hide Linked;
      if Linked(t, ring) && src in ring && dst !in ring && |ring| >= 2 { TableMove(t, ring, CapsOf(t), src, dst); }
    }

    // -------------------------------------------------------------- sched.c

    /** sched_update */
    method UpdateSlots(pid: nat, end: nat, hart: nat, from: nat, to: nat)
      requires cfg.minHart <= hart < cfg.minHart + slots.Length0 && to <= slots.Length1
      modifies slots
      ensures Rows(slots) == SchedUpdate(cfg, old(Rows(slots)), pid, end, hart, from, to)
    {
      ghost var was := Rows(slots);
      var row := hart - cfg.minHart;
      var i := from;
      while i < to
        invariant from <= i && (i == from || i <= to)
        invariant forall h, j | 0 <= h < slots.Length0 && 0 <= j < slots.Length1 ::
                    slots[h, j] == if h == row && from <= j < i then Slot(pid % 256, (end - j) % 256) else was[h][j]
      {
        slots[row, i] := Slot(pid % 256, (end - i) % 256);
        i := i + 1;
      }
      ghost var now := Rows(slots);
      forall h, j | 0 <= h < |now| && 0 <= j < |now[h]|
        ensures now[h][j] == SchedUpdate(cfg, was, pid, end, hart, from, to)[h][j]
      {
        assert now[h][j] == slots[h, j];
        SchedUpdateAt(cfg, was, pid, end, hart, from, to, h, j);
        hide SchedUpdate;
      }
      hide SchedUpdate;
      SameRows(now, SchedUpdate(cfg, was, pid, end, hart, from, to));
    }

    /** sched_delete */
    method DeleteSlots(hart: nat, from: nat, to: nat)
      requires cfg.minHart <= hart < cfg.minHart + slots.Length0 && to <= slots.Length1
      modifies slots
      ensures Rows(slots) == SchedDelete(cfg, old(Rows(slots)), hart, from, to)
    {
      ghost var was := Rows(slots);
      var row := hart - cfg.minHart;
      var i := from;
      while i < to
        invariant from <= i && (i == from || i <= to)
        invariant forall h, j | 0 <= h < slots.Length0 && 0 <= j < slots.Length1 ::
                    slots[h, j] == if h == row && from <= j < i then Slot(0, 0) else was[h][j]
      {
        slots[row, i] := Slot(0, 0);
        i := i + 1;
      }
      ghost var now := Rows(slots);
      forall h, j | 0 <= h < |now| && 0 <= j < |now[h]|
        ensures now[h][j] == SchedDelete(cfg, was, hart, from, to)[h][j]
      {
        assert now[h][j] == slots[h, j];
        SchedDeleteAt(cfg, was, hart, from, to, h, j);
        hide SchedDelete;
      }
      hide SchedDelete;
      SameRows(now, SchedDelete(cfg, was, hart, from, to));
    }

    // -------------------------------------------------------------- proc.c

    /** proc_pmp_load */
    method LoadRegister(pid: nat, slot: nat, r: PmpReg)
      requires pid < pmp.Length0 && slot < pmp.Length1
      modifies pmp
      ensures Rows(pmp) == PmpSet(old(Rows(pmp)), pid, slot, r)
    {
      ghost var was := Rows(pmp);
      pmp[pid, slot] := r;
      SameRows(Rows(pmp), PmpSet(was, pid, slot, r));
    }

    /** proc_pmp_unload */
    method UnloadRegister(pid: nat, slot: nat)
      requires pid < pmp.Length0 && slot < pmp.Length1
      modifies pmp
      ensures Rows(pmp) == PmpUnset(old(Rows(pmp)), pid, slot)
    {
      ghost var was := Rows(pmp);
      pmp[pid, slot] := pmp[pid, slot].(cfg := 0);
      SameRows(Rows(pmp), PmpUnset(was, pid, slot));
    }

    // -------------------------------------------------------------- kernel_init

    /** ctable_init, on the zeroed table */
    method CtableInit(init: seq<Cap>)
      requires 0 < |init| <= ctable.Length
      requires forall e | 0 <= e < ctable.Length :: ctable[e] == Cte(0, 0, NoCap)
      modifies this`ring, ctable
      ensures Linked(ctable[..], ring) && ring == InitRing(|init|)
      ensures CapsOf(ctable[..]) == seq(ctable.Length, e requires 0 <= e => if e < |init| then init[e] else NoCap)
    {
      FirstEntry(ctable[..], init[0]);
      InsertEntry(0, init[0], 0);
      ring := [0];
      var i := 1;
      while i < |init|
        invariant 1 <= i <= |init| && ring == InitRing(i) && Linked(ctable[..], ring)
        invariant forall e | 0 <= e < ctable.Length :: CapsOf(ctable[..])[e] == if e < i then init[e] else NoCap
      {
        NextEntry(ctable[..], i, init[i]);
        InsertEntry(i, init[i], 0);
        ring := InitRing(i + 1);
        i := i + 1;
        hide Linked, CteInsert, CapsOf, InitRing;
      }
    }

    /** sched_init */
    method SchedInit()
      requires slots.Length0 == cfg.hartCnt && slots.Length1 == cfg.slotCnt < 256
      modifies slots
      ensures Rows(slots) == seq(cfg.hartCnt,
                                 _ => seq(cfg.slotCnt, i requires 0 <= i < cfg.slotCnt => Slot(0, cfg.slotCnt - i)))
    {
      var hart := cfg.minHart;
      while hart < cfg.minHart + cfg.hartCnt
        invariant cfg.minHart <= hart <= cfg.minHart + cfg.hartCnt
        invariant forall h, i {:trigger Rows(slots)[h][i]} | 0 <= h < hart - cfg.minHart && 0 <= i < cfg.slotCnt ::
                    Rows(slots)[h][i] == Slot(0, cfg.slotCnt - i)
      {
        ghost var was := Rows(slots);
        UpdateSlots(0, cfg.slotCnt, hart, 0, cfg.slotCnt);
        hart := hart + 1;
        forall h, i | 0 <= h < hart - cfg.minHart && 0 <= i < cfg.slotCnt
          ensures Rows(slots)[h][i] == Slot(0, cfg.slotCnt - i)
        {
          SchedUpdateAt(cfg, was, 0, cfg.slotCnt, hart - 1, 0, cfg.slotCnt, h, i);
        }
      }
      SameRows(Rows(slots),
               seq(cfg.hartCnt, _ => seq(cfg.slotCnt, i requires 0 <= i < cfg.slotCnt => Slot(0, cfg.slotCnt - i))));
    }

    /** kernel_init: the initial capabilities, schedule and PMP register. */
    constructor (cfg: Config, init: seq<Cap>)
      requires InitCapsOk(cfg, init)
      ensures this.cfg == cfg && Valid() && Model() == InitSys(cfg, init)
      ensures fresh(ctable) && fresh(slots) && fresh(pmp)
    {
      MulMonotone(1, cfg.procCnt, cfg.capCnt);
      this.cfg := cfg;
      ctable := new Cte[cfg.procCnt * cfg.capCnt](_ => Cte(0, 0, NoCap));
      slots := new Slot[cfg.hartCnt, cfg.slotCnt]((_, _) => Slot(0, 0));
      pmp := new PmpReg[cfg.procCnt, cfg.pmpCnt]((_, _) => PmpReg(0, 0));
      ring := [];
      new;
      CtableInit(init);
      SchedInit();
      InitLoad(cfg, init, Model());
      // proc_init
      var err := LoadPmp(0, 0);
      InitInv(cfg, init);
      hide SysInv, PmpLoad, InitSys, Linked, InitCapsOk;
    }

    // -------------------------------------------------------------- cap_ops.c

    /** What a derivation does to the table. */
    method LinkDerived(src: nat, dst: nat, ncap: Cap, pcap: Cap)
      requires Linked(ctable[..], ring) && src in ring && dst < ctable.Length && dst !in ring
      modifies this`ring, ctable
      ensures Linked(ctable[..], ring) && ring == InsertAfter(old(ring), src, dst)
      ensures src < ctable.Length && CapsOf(ctable[..]) == CapsOf(old(ctable[..]))[dst := ncap][src := pcap]
    {
      ghost var caps := CapsOf(ctable[..]);
      TableInsert(ctable[..], ring, caps, dst, ncap, src);
      InsertEntry(dst, ncap, src);
      TableCap(ctable[..], InsertAfter(ring, src, dst), caps[dst := ncap], src, pcap);
      SetEntryCap(src, pcap);
      ring := InsertAfter(ring, src, dst);
      hide Linked, CteInsert, SetCap, CapsOf, InsertAfter;
    }

    /** cap_derive, with the validity test of the system call layer */
    method CapDerive(src: nat, dst: nat, ncap: Cap) returns (err: Err)
      requires Valid() && src < ctable.Length && dst < ctable.Length
      modifies this`ring, ctable, slots
      ensures Valid()
      ensures Outcome(Model(), err) == Derive(cfg, old(Model()), src, dst, ncap)
    {
      ghost var m := Model();
      hide IsValid, IsDerivable, Parent, InsertAfter, SchedUpdate, Rows, Linked;
      DeriveInv(cfg, m, src, dst, ncap);
      Dimensions();
      hide SysInv;
      if !IsValid(ncap) { return ErrInvalidDerivation; }
      var scap := ctable[src].cap;
      if scap == NoCap { return ErrSrcEmpty; }
      if ctable[dst].cap != NoCap { return ErrDstOccupied; }
      if !IsDerivable(scap, ncap) { return ErrInvalidDerivation; }
      DerivableRange(cfg, m, src, ncap);
      if ncap.Time? {
        UpdateSlots(dst / cfg.capCnt, ncap.end, ncap.hart, ncap.mrk, ncap.end);
      }
      LinkDerived(src, dst, ncap, Parent(scap, ncap));
      assert scap == m.caps[src] && ncap != NoCap;
      hide CapsOf;
      assert Model() == Derive(cfg, m, src, dst, ncap).s;
      return Success;
    }

    /** cap_move */
    method CapMove(src: nat, dst: nat) returns (err: Err)
      requires Valid() && src < ctable.Length && dst < ctable.Length && Movable(Model(), src, dst)
      modifies this`ring, ctable, slots, pmp
      ensures Valid()
      ensures Outcome(Model(), err) == Move(cfg, old(Model()), src, dst)
    {
      ghost var m := Model();
      hide Replace, SchedUpdate, PmpUnset, Rows;
      MoveInv(cfg, m, src, dst);
      Dimensions();
      EntryInRange(cfg, m, src);
      hide SysInv;
      var c := ctable[src].cap;
      if c == NoCap { return ErrSrcEmpty; }
      if ctable[dst].cap != NoCap { return ErrDstOccupied; }
      assert c == m.caps[src];
      MoveHook(src, dst);
      TableMove(ctable[..], ring, CapsOf(ctable[..]), src, dst);
      MoveEntry(src, dst);
      ring := Replace(ring, src, dst);
      hide CapsOf, Linked, CteMove, RingOk, Pid;
      assert Model() == Move(cfg, m, src, dst).s;
      return Success;
    }

    /** ipc_move_hook, for a move between processes */
    method MoveHook(src: nat, dst: nat)
      requires Linked(ctable[..], ring) && src < ctable.Length && dst < ctable.Length
      requires InBounds(src)
      modifies ctable, slots, pmp
      ensures Linked(ctable[..], ring)
      ensures var c, other := old(ctable[src].cap), Pid(cfg, src) != Pid(cfg, dst);
              && CapsOf(ctable[..]) == CapsOf(old(ctable[..]))[src := if other then Handed(c) else c]
              && ctable[src].cap == (if other then Handed(c) else c)
              && Rows(slots) == (if other && c.Time?
                                 then SchedUpdate(cfg, old(Rows(slots)), Pid(cfg, dst), c.end, c.hart, c.mrk, c.end)
                                 else old(Rows(slots)))
              && Rows(pmp) == if other && c.Pmp? && c.used then PmpUnset(old(Rows(pmp)), Pid(cfg, src), c.slot)
                 else old(Rows(pmp))
    {
      hide SchedUpdate, PmpUnset, Rows, Linked, CapsOf;
      ghost var caps := CapsOf(ctable[..]);
      var cap := ctable[src].cap;
      SameCap(ctable[..], src);
      if src / cfg.capCnt == dst / cfg.capCnt { return; }
      match cap {
        case Time(hart, _, mrk, end) => UpdateSlots(dst / cfg.capCnt, end, hart, mrk, end);
        case Pmp(rwx, used, slot, addr) =>
          if used {
            UnloadRegister(src / cfg.capCnt, slot);
            TableCap(ctable[..], ring, caps, src, Pmp(rwx, false, 0, addr));
            SetEntryCap(src, Pmp(rwx, false, 0, addr));
          }
        case _ =>
      }
    }

    /** The slots or the register that the capability of entry e names exist. */
    ghost predicate InBounds(e: nat)
      requires e < ctable.Length
      reads ctable, slots, pmp
    {
      var c := ctable[e].cap;
      && (c.Time? ==> cfg.minHart <= c.hart < cfg.minHart + slots.Length0 && c.end <= slots.Length1)
      && (c.Pmp? && c.used ==> Pid(cfg, e) < pmp.Length0 && c.slot < pmp.Length1)
    }

    /** cap_delete */
    method CapDelete(e: nat) returns (err: Err)
      requires Valid() && e < ctable.Length
      modifies this`ring, ctable, slots, pmp
      ensures Valid()
      ensures Outcome(Model(), err) == Delete(cfg, old(Model()), e)
    {
      ghost var m := Model();
      hide Without, SchedDelete, PmpUnset, Rows;
      DeleteInv(cfg, m, e);
      Dimensions();
      EntryInRange(cfg, m, e);
      hide SysInv;
      if ctable[e].cap == NoCap { return ErrEmpty; }
      TableDelete(ctable[..], ring, m.caps, e);
      var cap := DeleteEntry(e);
      ring := Without(ring, e);
      // delete_hook
      match cap {
        case Time(hart, _, mrk, end) => DeleteSlots(hart, mrk, end);
        case Pmp(_, used, slot, _) => if used { UnloadRegister(e / cfg.capCnt, slot); }
        case _ =>
      }
      assert cap == m.caps[e];
      hide CapsOf, Linked, CteDelete;
      assert Model() == Delete(cfg, m, e).s;
      return Success;
    }

    /** cap_revoke */
    method CapRevoke(e: nat) returns (err: Err)
      requires Valid() && e < ctable.Length && NoWrap(Model(), e)
      modifies this`ring, ctable, slots, pmp
      ensures Valid()
      ensures Outcome(Model(), err) == RevokeStep(cfg, old(Model()), e)
    {
      ghost var m := Model();
      hide Without, SchedUpdate, PmpUnset, Rows, RevokeTest, Reclaimed, NextOf, NoWrap;
      RevokeInv(cfg, m, e);
      Dimensions();
      EntryInRange(cfg, m, e);
      var pcap := ctable[e].cap;
      assert pcap == m.caps[e];
      if pcap == NoCap { return ErrEmpty; }
      TableNext(ctable[..], ring, m.caps, e);
      var child := ctable[e].next;
      EntryInRange(cfg, m, child);
      var ccap := ctable[child].cap;
      assert ccap == m.caps[child];
      if RevokeTest(pcap, ccap) != Success { return RevokeTest(pcap, ccap); }
      RevokedInRange(cfg, m, e);
      hide SysInv;
      TableDelete(ctable[..], ring, m.caps, child);
      var _ := DeleteEntry(child);
      ring := Without(ring, child);
      TableCap(ctable[..], ring, m.caps[child := NoCap], e, Reclaimed(pcap, ccap));
      SetEntryCap(e, Reclaimed(pcap, ccap));
      if pcap.Time? {
        UpdateSlots(e / cfg.capCnt, pcap.end, pcap.hart, MrkOf(ccap), pcap.end);
      }
      if ccap.Pmp? && ccap.used {
        UnloadRegister(child / cfg.capCnt, ccap.slot);
      }
      hide CapsOf, Linked, CteDelete, SetCap;
      assert Model() == RevokeStep(cfg, m, e).s;
      return Success;
    }

    /** cap_reset */
    method CapReset(e: nat) returns (err: Err)
      requires Valid() && e < ctable.Length && NoDescendants(Model(), e)
      modifies ctable, slots
      ensures Valid()
      ensures Outcome(Model(), err) == Reset(cfg, old(Model()), e)
    {
      ghost var m := Model();
      hide SchedUpdate, Rows, NoDescendants;
      ResetInv(cfg, m, e);
      Dimensions();
      EntryInRange(cfg, m, e);
      RangeAt(cfg, m, e);
      hide SysInv;
      var cap := ctable[e].cap;
      assert cap == m.caps[e];
      if cap == NoCap { return ErrEmpty; }
      match cap {
        case Time(hart, bgn, mrk, end) =>
          UpdateSlots(e / cfg.capCnt, end, hart, bgn, mrk);
          cap := Time(hart, bgn, bgn, end);
        case Memory(rwx, _, tag, bgn, _, end) => cap := Memory(rwx, false, tag, bgn, bgn, end);
        case Monitor(bgn, _, end) => cap := Monitor(bgn, bgn, end);
        case Channel(bgn, _, end) => cap := Channel(bgn, bgn, end);
        case _ =>
      }
      TableCap(ctable[..], ring, m.caps, e, cap);
      SetEntryCap(e, cap);
      hide CapsOf, Linked, SetCap;
      assert Model() == Reset(cfg, m, e).s;
      return Success;
    }

    // -------------------------------------------------------------- cap_pmp.c and cap_monitor.c

    /** cap_pmp_load, in any state with a linked table */
    method LoadPmp(e: nat, slot: nat) returns (err: Err)
      requires Linked(ctable[..], ring) && RingOk(Model())
      requires e < ctable.Length && Pid(cfg, e) < pmp.Length0 && slot < pmp.Length1
      modifies ctable, pmp
      ensures Linked(ctable[..], ring)
      ensures Outcome(Model(), err) == PmpLoad(cfg, old(Model()), e, slot)
    {
      ghost var m := Model();
      hide PmpSet;
      var cap := ctable[e].cap;
      assert cap == m.caps[e];
      if cap == NoCap { return ErrEmpty; }
      if !cap.Pmp? || cap.used { return ErrInvalidPmp; }
      if pmp[e / cfg.capCnt, slot].cfg != 0 { return ErrDstOccupied; }
      hide Rows;
      LoadRegister(e / cfg.capCnt, slot, PmpReg(PmpCfg(cap.rwx), cap.addr));
      TableCap(ctable[..], ring, m.caps, e, cap.(slot := slot, used := true));
      SetEntryCap(e, cap.(slot := slot, used := true));
      hide CapsOf, Linked, SetCap, RingOk, PmpCfg;
      assert Model() == PmpLoad(cfg, m, e, slot).s;
      return Success;
    }

    /** cap_pmp_load */
    method CapPmpLoad(e: nat, slot: nat) returns (err: Err)
      requires Valid() && e < ctable.Length && slot < cfg.pmpCnt
      modifies ctable, pmp
      ensures Valid() && Pid(cfg, e) < |old(Model()).pmp|
      ensures Outcome(Model(), err) == PmpLoad(cfg, old(Model()), e, slot)
    {
      ghost var m := Model();
      Dimensions();
      PidInRange(cfg, e);
      PmpInvs(cfg, m, e, slot);
      hide SysInv, Linked, CapsOf, PmpLoad, RingOk;
      err := LoadPmp(e, slot);
    }

    /** cap_pmp_unload */
    method CapPmpUnload(e: nat) returns (err: Err)
      requires Valid() && e < ctable.Length
      modifies ctable, pmp
      ensures Valid()
      ensures Outcome(Model(), err) == PmpUnload(cfg, old(Model()), e)
    {
      ghost var m := Model();
      hide PmpUnset, Rows;
      Dimensions();
      EntryInRange(cfg, m, e);
      PidInRange(cfg, e);
      hide SysInv;
      var cap := ctable[e].cap;
      assert cap == m.caps[e];
      if cap == NoCap { return ErrEmpty; }
      if !cap.Pmp? || !cap.used { return ErrInvalidPmp; }
      UnloadInv(cfg, m, e);
      UnloadRegister(e / cfg.capCnt, cap.slot);
      TableCap(ctable[..], ring, m.caps, e, cap.(slot := 0, used := false));
      SetEntryCap(e, cap.(slot := 0, used := false));
      hide CapsOf, Linked, SetCap;
      assert Model() == PmpUnload(cfg, m, e).s;
      return Success;
    }

    /** check_monitor, on suspended processes */
    method TestMonitor(mon: nat, pid: nat, suspended: set<nat>) returns (err: Err)
      requires mon < ctable.Length
      ensures err == CheckMonitor(Model(), mon, pid, suspended)
    {
      var cap := ctable[mon].cap;
      assert cap == CapsOf(ctable[..])[mon];
      if !cap.Monitor? || cap.mrk > pid || pid >= cap.end { return ErrInvalidMonitor; }
      if pid !in suspended { return ErrInvalidState; }
      return Success;
    }

    /** check_monitor_move */
    method TestMonitorMove(mon: nat, src: nat, dst: nat, suspended: set<nat>) returns (err: Err)
      requires mon < ctable.Length
      ensures var m, s, d := Pid(cfg, mon), Pid(cfg, src), Pid(cfg, dst);
              && (m != s && CheckMonitor(Model(), mon, s, suspended) != Success ==>
                    err == CheckMonitor(Model(), mon, s, suspended))
              && (m == s || CheckMonitor(Model(), mon, s, suspended) == Success ==>
                    err == if m == d then Success else CheckMonitor(Model(), mon, d, suspended))
    {
      hide CheckMonitor, Rows, CapsOf;
      err := Success;
      if mon / cfg.capCnt != src / cfg.capCnt { err := TestMonitor(mon, src / cfg.capCnt, suspended); }
      if err == Success && mon / cfg.capCnt != dst / cfg.capCnt {
        err := TestMonitor(mon, dst / cfg.capCnt, suspended);
      }
    }

    /** cap_monitor_cap_move */
    method CapMonitorMove(mon: nat, src: nat, dst: nat, suspended: set<nat>) returns (err: Err)
      requires Valid() && mon < ctable.Length && src < ctable.Length && dst < ctable.Length
      requires Movable(Model(), src, dst)
      modifies this`ring, ctable, slots, pmp
      ensures Valid()
      ensures Outcome(Model(), err) == MonitorMove(cfg, old(Model()), mon, src, dst, suspended)
    {
      Dimensions();
      hide Move, Movable, CheckMonitor, Rows, CapsOf, SysInv, Linked, RingOk, Pid;
      err := TestMonitorMove(mon, src, dst, suspended);
      if err == Success { err := CapMove(src, dst); }
    }

    /** cap_monitor_pmp_load */
    method CapMonitorPmpLoad(mon: nat, e: nat, slot: nat, suspended: set<nat>) returns (err: Err)
      requires Valid() && mon < ctable.Length && e < ctable.Length && slot < cfg.pmpCnt
      modifies ctable, pmp
      ensures Valid() && Pid(cfg, e) < |old(Model()).pmp|
      ensures Outcome(Model(), err) == MonitorPmpLoad(cfg, old(Model()), mon, e, slot, suspended)
    {
      Dimensions();
      PidInRange(cfg, e);
      hide PmpLoad, CheckMonitor, CapsOf, SysInv, Linked;
      err := TestMonitor(mon, e / cfg.capCnt, suspended);
      if err == Success { err := CapPmpLoad(e, slot); }
    }

    /** cap_monitor_pmp_unload */
    method CapMonitorPmpUnload(mon: nat, e: nat, suspended: set<nat>) returns (err: Err)
      requires Valid() && mon < ctable.Length && e < ctable.Length
      modifies ctable, pmp
      ensures Valid()
      ensures Outcome(Model(), err) == MonitorPmpUnload(cfg, old(Model()), mon, e, suspended)
    {
      Dimensions();
      hide PmpUnload, CheckMonitor, Rows, CapsOf, SysInv, Linked;
      err := TestMonitor(mon, e / cfg.capCnt, suspended);
      if err == Success { err := CapPmpUnload(e); }
    }

    // -------------------------------------------------------------- syscall.c

    /** sys_cap_revoke, run alone; the kernel lock may be refused before any step. */
    method SysCapRevoke(e: nat) returns (err: Err, preempted: bool)
      requires Valid() && e < ctable.Length && (Revocable(ctable[e].cap) ==> Barrier(Model(), e))
      modifies this`ring, ctable, slots, pmp
      ensures Valid() && ctable.Length == |old(Model()).caps|
      ensures !preempted && err == Success && Sliced(old(ctable[e].cap)) ==> RevokedAll(cfg, old(Model()), Model(), e)
      ensures preempted && Sliced(old(ctable[e].cap)) ==>
                exists k, n :: RevokedSome(cfg, old(Model()), Model(), e, k, n)
      ensures !preempted && err != Success ==> Model() == old(Model()) && !Revocable(old(ctable[e].cap))
      ensures !preempted && err == Success ==>
                exists m, n :: RevokeLeads(cfg, old(Model()), m, e, n) && Drained(cfg, m, e)
                               && Outcome(Model(), Success) == Reset(cfg, m, e)
      ensures preempted ==> exists n: nat :: RevokeLeads(cfg, old(Model()), Model(), e, n)
    {
      ghost var m0 := Model();
      ghost var n := 0;
      ghost var k := if e in ring then IndexOf(ring, e) else 0;
      Dimensions();
      StartProgress(cfg, m0, e, k);
      err, preempted := Success, false;
      assert m0.caps[e] == ctable[e].cap;
      assert RevokeLeads(cfg, m0, m0, e, n);
      hide SysInv, RevokedSome, Barrier, Revocable, Rows, CapsOf, Linked, RingOk, RevokeStep, Reset, RevokedAll, NoWrap,
           RevokeLeads, Drained;
      while err == Success
        invariant RevokeLeads(cfg, m0, Model(), e, n) && (err == NoChild ==> Drained(cfg, Model(), e))
        invariant Valid() && ctable.Length == |Model().caps| == |m0.caps| && SysInv(cfg, m0)
        invariant Progress(cfg, m0, Model(), e, k, n, err)
        decreases |ring|, err == Success
      {
        preempted := *;
        if preempted { return; }
        ghost var m := Model();
        BarrierStopsWrap(cfg, m, e);
        assert m.caps[e] == ctable[e].cap by { CapAt(e); }
        err := CapRevoke(e);
        RevokeProgress(cfg, m0, m, e, k, n);
        StepTaken(cfg, m0, m, e, n);
        if err == Success { n := n + 1; }
      }
      if err != NoChild { return; }
      preempted := *;
      if preempted { return; }
      DrainedProgress(cfg, m0, Model(), e, k, n);
      ghost var last := Model();
      err := CapReset(e);
      assert err == Success ==> Outcome(Model(), Success) == Reset(cfg, last, e);
    }

    lemma CapAt(e: nat)
      requires e < ctable.Length
      ensures Model().caps[e] == ctable[e].cap
    {
    }

    lemma Dimensions()
      requires Valid()
      ensures ctable.Length == |Model().caps| == cfg.procCnt * cfg.capCnt
      ensures slots.Length0 == cfg.hartCnt && slots.Length1 == cfg.slotCnt
      ensures pmp.Length0 == cfg.procCnt && pmp.Length1 == cfg.pmpCnt
      ensures RingOk(Model())
    {
      var m := Model();
      assert |m.slots[0]| == slots.Length1 && |m.pmp[0]| == pmp.Length1;
    }
  }

  /** A derived time capability stays within the schedule. */
  lemma DerivableRange(cfg: Config, s: Sys, src: nat, c: Cap)
    requires SysInv(cfg, s) && src < |s.caps| && IsDerivable(s.caps[src], c) && IsValid(c)
    ensures RingOk(s) && src in s.ring && c != NoCap
    ensures c.Time? ==> cfg.minHart <= c.hart < cfg.minHart + cfg.hartCnt && c.end <= cfg.slotCnt
  {
    DeriveInRange(cfg, s.caps[src], c);
    assert s.caps[src] != NoCap;
    assert src in s.ring;
  }

  /** What the capability of entry e names exists. */
  lemma EntryInRange(cfg: Config, s: Sys, e: nat)
    requires SysInv(cfg, s) && e < |s.caps|
    ensures CapInRange(cfg, s.caps[e]) && Pid(cfg, e) < cfg.procCnt && (s.caps[e] != NoCap <==> e in s.ring)
  {
    PidInRange(cfg, e);
  }

  /** The member that a revoke step deletes is another one. */
  lemma RevokedInRange(cfg: Config, s: Sys, e: nat)
    requires SysInv(cfg, s) && e < |s.caps| && e in s.ring && NoWrap(s, e)
    requires RevokeTest(s.caps[e], s.caps[NextOf(s.ring, e)]) == Success
    ensures NextOf(s.ring, e) != e && e in Without(s.ring, NextOf(s.ring, e))
    ensures s.caps[e].Time? ==>
              Reclaimed(s.caps[e], s.caps[NextOf(s.ring, e)]) == WithMrk(s.caps[e], MrkOf(s.caps[NextOf(s.ring, e)]))
  {
    var k := InRing(s, e);
    RevokedChild(cfg, s, e, k);
    var child := NextOf(s.ring, e);
    var l := IndexOf(s.ring, child);
    assert Without(s.ring, child)[if k < l then k else k - 1] == e;
  }

  lemma UnloadInv(cfg: Config, s: Sys, e: nat)
    requires SysInv(cfg, s) && e < |s.caps|
    ensures SysInv(cfg, PmpUnload(cfg, s, e).s)
  {
    PidInRange(cfg, e);
    PmpInvs(cfg, s, e, 0);
  }

  // ---------------------------------------------------------------- sys_cap_revoke

  /** The capabilities that cap_revoke accepts. */
  predicate Revocable(c: Cap) {
    c != NoCap && !c.Pmp? && (c.Socket? ==> c.tag == 0)
  }

  /** A successful step of the revocation of e. */
  ghost predicate RevokesOne(cfg: Config, m: Sys, s: Sys, e: nat) {
    EntryOk(cfg, m, e) && RevokeStep(cfg, m, e) == Outcome(s, Success)
  }

  /** n of them lead from s0 to s. */
  ghost predicate RevokeLeads(cfg: Config, s0: Sys, s: Sys, e: nat, n: nat)
    decreases n
  {
    if n == 0 then s == s0 else exists m :: RevokeLeads(cfg, s0, m, e, n - 1) && RevokesOne(cfg, m, s, e)
  }

  /** The next step finds no child. */
  ghost predicate Drained(cfg: Config, s: Sys, e: nat) {
    EntryOk(cfg, s, e) && RevokeStep(cfg, s, e).err == NoChild
  }

  lemma OneMore(cfg: Config, s0: Sys, m: Sys, s: Sys, e: nat, n: nat)
    requires RevokeLeads(cfg, s0, m, e, n) && RevokesOne(cfg, m, s, e)
    ensures RevokeLeads(cfg, s0, s, e, n + 1)
  {
    hide RevokesOne;
  }

  lemma StepTaken(cfg: Config, s0: Sys, m: Sys, e: nat, n: nat)
    requires EntryOk(cfg, m, e) && RevokeLeads(cfg, s0, m, e, n)
    ensures var r := RevokeStep(cfg, m, e);
            && RevokeLeads(cfg, s0, r.s, e, if r.err == Success then n + 1 else n)
            && (r.err == NoChild ==> Drained(cfg, r.s, e))
  {
    hide RingOk, RevokeStep, RevokeLeads;
    Refused(cfg, m, e);
    if RevokeStep(cfg, m, e).err == Success { OneMore(cfg, s0, m, RevokeStep(cfg, m, e).s, e, n); }
  }

  lemma Refused(cfg: Config, s: Sys, e: nat)
    requires EntryOk(cfg, s, e)
    ensures RevokeStep(cfg, s, e).err != Success ==> RevokeStep(cfg, s, e).s == s
  {
    hide RingOk, RevokeTest, Reclaimed, SchedUpdate, PmpUnset, Without;
  }

  /** A ring member where a revocation of e stops. */
  ghost predicate Barrier(s: Sys, e: nat)
    requires e < |s.caps|
  {
    exists o :: o < |s.caps| && o in s.ring && o != e && RevokeTest(s.caps[e], s.caps[o]) != Success
  }

  /** State s is reached from s0 in the loop, with err the last step's result. */
  ghost predicate Progress(cfg: Config, s0: Sys, s: Sys, e: nat, k: nat, n: nat, err: Err)
    requires e < |s0.caps| && e < |s.caps|
  {
    && (Revocable(s.caps[e]) ==> Barrier(s, e))
    && (s == s0 || Revocable(s0.caps[e])) && (Revocable(s0.caps[e]) <==> Revocable(s.caps[e]))
    && (Sliced(s0.caps[e]) <==> Sliced(s.caps[e]))
    && (Sliced(s0.caps[e]) ==> RevokedSome(cfg, s0, s, e, k, n))
    && (err != Success && err != NoChild ==> s == s0 && !Revocable(s.caps[e]))
    && (err == NoChild ==> RingOk(s) && NoDescendants(s, e) && s.caps[e] != NoCap)
  }

  lemma StartProgress(cfg: Config, s: Sys, e: nat, k: nat)
    requires SysInv(cfg, s) && e < |s.caps| && (Revocable(s.caps[e]) ==> Barrier(s, e))
    requires e in s.ring ==> k == IndexOf(s.ring, e)
    ensures Progress(cfg, s, s, e, k, 0, Success)
  {
    if Sliced(s.caps[e]) {
      assert e in s.ring;
      RevokedNone(cfg, s, e, k);
    }
  }

  /** A member of e's own group that stops its revocation stands behind e. */
  lemma BarrierStopsWrap(cfg: Config, s: Sys, e: nat)
    requires SysInv(cfg, s) && e < |s.caps| && (Revocable(s.caps[e]) ==> Barrier(s, e))
    ensures RingOk(s) && NoWrap(s, e)
  {
    if e in s.ring { TestErrors(s.caps[e], s.caps[NextOf(s.ring, e)]); }
    if e in s.ring && Revocable(s.caps[e]) && !HasOutsider(s, e) {
      var o :| o < |s.caps| && o in s.ring && o != e && RevokeTest(s.caps[e], s.caps[o]) != Success;
      var k := InRing(s, e);
      var l := InRing(s, o);
      assert SameGroup(s.caps[e], s.caps[o]);
      var cs := RingCaps(s);
      assert RangeOk(cs[k]) && RangeOk(cs[l]);
      assert l < k ==> PairOk(cs[l], cs[k]);
    }
    hide Nested;
  }

  /** Reclaiming a mark changes nothing that a revoke test looks at. */
  lemma ReclaimedTest(p: Cap, c: Cap, o: Cap)
    requires p != NoCap
    ensures RevokeTest(Reclaimed(p, c), o) == RevokeTest(p, o) && GroupOf(Reclaimed(p, c)) == GroupOf(p)
    ensures Revocable(Reclaimed(p, c)) <==> Revocable(p)
  {
  }

  lemma RevokedState(cfg: Config, s: Sys, e: nat)
    requires SysInv(cfg, s) && e < |s.caps| && e in s.ring && NoWrap(s, e) && RevokeStep(cfg, s, e).err == Success
    ensures var s', child := RevokeStep(cfg, s, e).s, NextOf(s.ring, e);
            && child != e && child < |s.caps| && RevokeTest(s.caps[e], s.caps[child]) == Success
            && s'.ring == Without(s.ring, child)
               && s'.caps == s.caps[child := NoCap][e := Reclaimed(s.caps[e], s.caps[child])]
  {
    RevokedInRange(cfg, s, e);
    hide NoWrap, SysInv, RevokeTest, Reclaimed, Without, SchedUpdate, PmpUnset;
  }

  lemma WithoutKeeps(ring: seq<nat>, c: nat, o: nat)
    requires c in ring && o in ring && o != c
    ensures o in Without(ring, c) && |Without(ring, c)| == |ring| - 1
  {
    var k, l := IndexOf(ring, c), IndexOf(ring, o);
    assert Without(ring, c)[if l < k then l else l - 1] == o;
  }

  lemma BarrierStays(cfg: Config, s: Sys, e: nat)
    requires SysInv(cfg, s) && e < |s.caps| && e in s.ring && Barrier(s, e) && RevokeStep(cfg, s, e).err == Success
    ensures var s' := RevokeStep(cfg, s, e).s;
            e < |s'.caps| && Barrier(s', e) && |s'.ring| < |s.ring|
            && (Revocable(s'.caps[e]) <==> Revocable(s.caps[e])) && (Sliced(s'.caps[e]) <==> Sliced(s.caps[e]))
  {
    BarrierStopsWrap(cfg, s, e);
    RevokedState(cfg, s, e);
    var s', child := RevokeStep(cfg, s, e).s, NextOf(s.ring, e);
    EntryInRange(cfg, s, e);
    hide SysInv, RevokeStep, RevokeTest, Reclaimed, Without, GroupOf, Revocable, NoWrap;
    var o :| o < |s.caps| && o in s.ring && o != e && RevokeTest(s.caps[e], s.caps[o]) != Success;
    WithoutKeeps(s.ring, child, o);
    ReclaimedTest(s.caps[e], s.caps[child], s.caps[o]);
  }

  lemma TestErrors(p: Cap, c: Cap)
    ensures RevokeTest(p, c) == Success ==> Revocable(p)
    ensures RevokeTest(p, c) != Success && RevokeTest(p, c) != NoChild ==> !Revocable(p)
  {
  }

  lemma UnslicedAlone(s: Sys, e: nat)
    requires RingOk(s) && e < |s.caps| && !Sliced(s.caps[e])
    ensures NoDescendants(s, e)
  {
    if e in s.ring { assert RingCaps(s)[IndexOf(s.ring, e)] == s.caps[e]; }
  }

  lemma RevokeProgress(cfg: Config, s0: Sys, s: Sys, e: nat, k: nat, n: nat)
    requires SysInv(cfg, s) && e < |s0.caps| && e < |s.caps| && Progress(cfg, s0, s, e, k, n, Success)
    ensures var r := RevokeStep(cfg, s, e);
            && e < |r.s.caps| && Progress(cfg, s0, r.s, e, k, if r.err == Success then n + 1 else n, r.err)
            && |r.s.ring| <= |s.ring| && (r.err == Success ==> |r.s.ring| < |s.ring|)
  {
    EntryInRange(cfg, s, e);
    if s.caps[e] != NoCap { TestErrors(s.caps[e], s.caps[NextOf(s.ring, e)]); }
    if RevokeStep(cfg, s, e).err == Success {
      BarrierStopsWrap(cfg, s, e);
      BarrierStays(cfg, s, e);
      hide Barrier, RevokedSome, NoWrap, RevokeTest, Reclaimed;
      if Sliced(s.caps[e]) { RevokedOneMore(cfg, s0, s, e, k, n); }
      hide SysInv, Sliced, RevokeStep, Revocable;
    } else {
      hide Barrier, RevokedSome, NoWrap, RevokeTest, NoDescendants;
      if RevokeStep(cfg, s, e).err == NoChild {
        if Sliced(s.caps[e]) { NoChildNoDescendants(cfg, s, e); } else { UnslicedAlone(s, e); }
      }
      hide SysInv, Sliced, Revocable;
    }
  }

  lemma DrainedProgress(cfg: Config, s0: Sys, s: Sys, e: nat, k: nat, n: nat)
    requires SysInv(cfg, s0) && SysInv(cfg, s) && e < |s0.caps| && e < |s.caps|
    requires Progress(cfg, s0, s, e, k, n, NoChild)
    ensures NoDescendants(s, e) && Reset(cfg, s, e).err == Success
    ensures Sliced(s0.caps[e]) ==> RevokedAll(cfg, s0, Reset(cfg, s, e).s, e)
  {
    if Sliced(s0.caps[e]) { RevokedByReset(cfg, s0, s, e, k, n); }
    hide RevokedSome, NoDescendants, RevokedAll;
  }

  /** State s' is what n successful steps of a revocation of e, none of which wraps round the ring,
      have made of s. */
  ghost predicate StepsTo(cfg: Config, s: Sys, s': Sys, e: nat, n: nat)
    requires SysInv(cfg, s) && e < |s.caps|
    decreases n
  {
    if n == 0 then s' == s
    else
      NoWrap(s, e) && RevokeStep(cfg, s, e).err == Success
      && (RevokeInv(cfg, s, e); RevokedSize(cfg, s, e); StepsTo(cfg, RevokeStep(cfg, s, e).s, s', e, n - 1))
  }

  /** The next step of the revocation would wrap round. */
  ghost predicate Wraps(s: Sys, e: nat) {
    RingOk(s) && e < |s.caps| && !NoWrap(s, e)
  }

  lemma RevokedSize(cfg: Config, s: Sys, e: nat)
    requires EntryOk(cfg, s, e)
    ensures |RevokeStep(cfg, s, e).s.caps| == |s.caps|
  {
    hide RevokeTest, Reclaimed, Without, SchedUpdate, PmpUnset;
  }

  lemma {:induction false} BarrierKeepsOff(cfg: Config, s: Sys, s': Sys, e: nat, n: nat)
    requires SysInv(cfg, s) && e < |s.caps| && (Revocable(s.caps[e]) ==> Barrier(s, e)) && StepsTo(cfg, s, s', e, n)
    ensures !Wraps(s', e)
    decreases n
  {
    hide Barrier, Revocable, NoWrap, RevokeStep, SysInv;
    SysRing(cfg, s);
    BarrierStopsWrap(cfg, s, e);
    if n > 0 {
      RevokeInv(cfg, s, e);
      RevokedSize(cfg, s, e);
      SuccessInRing(cfg, s, e);
      BarrierStays(cfg, s, e);
      BarrierKeepsOff(cfg, RevokeStep(cfg, s, e).s, s', e, n - 1);
    }
  }

  lemma SuccessInRing(cfg: Config, s: Sys, e: nat)
    requires SysInv(cfg, s) && e < |s.caps| && RevokeStep(cfg, s, e).err == Success
    ensures e in s.ring && Revocable(s.caps[e])
  {
    EntryInRange(cfg, s, e);
    TestErrors(s.caps[e], s.caps[NextOf(s.ring, e)]);
    hide RevokeTest, Reclaimed, Without, SchedUpdate, PmpUnset, SysInv, Revocable;
  }

  /** Without a barrier the next member, if the step does not wrap round, is another one and goes. */
  lemma NothingStops(cfg: Config, s: Sys, e: nat)
    requires SysInv(cfg, s) && e < |s.caps| && Sliced(s.caps[e]) && !Barrier(s, e) && NoWrap(s, e)
    ensures RevokeStep(cfg, s, e).err == Success
  {
    var k := InRing(s, e);
    if k + 1 == |s.ring| {
      NextOfLast(cfg, s, e);
    } else {
      assert s.ring[k + 1] != e && s.ring[k + 1] in s.ring;
    }
    hide RevokeTest, Reclaimed, Without, SchedUpdate, PmpUnset, ScheduleInv, PmpInv, Nested;
  }

  lemma NextOfLast(cfg: Config, s: Sys, e: nat)
    requires SysInv(cfg, s) && e < |s.caps| && Sliced(s.caps[e]) && !Barrier(s, e)
    requires e in s.ring && IndexOf(s.ring, e) + 1 == |s.ring|
    ensures RevokeTest(s.caps[e], s.caps[NextOf(s.ring, e)]) == Success
  {
    if NextOf(s.ring, e) == e { RangeAt(cfg, s, e); }
    hide ScheduleInv, PmpInv, Nested;
  }

  lemma BarrierOnlyGoes(cfg: Config, s: Sys, e: nat)
    requires SysInv(cfg, s) && e < |s.caps| && NoWrap(s, e) && RevokeStep(cfg, s, e).err == Success && !Barrier(s, e)
    ensures var s' := RevokeStep(cfg, s, e).s;
            e < |s'.caps| && !Barrier(s', e) && |s'.ring| < |s.ring| && (Sliced(s'.caps[e]) <==> Sliced(s.caps[e]))
  {
    SuccessInRing(cfg, s, e);
    RevokedState(cfg, s, e);
    var s', child := RevokeStep(cfg, s, e).s, NextOf(s.ring, e);
    WithoutKeeps(s.ring, child, e);
    hide SysInv, RevokeStep, RevokeTest, Reclaimed, GroupOf, Revocable, NoWrap, NextOf;
    forall o | o < |s'.caps| && o in s'.ring && o != e ensures RevokeTest(s'.caps[e], s'.caps[o]) == Success {
      WithoutOnly(s.ring, child, o);
      ReclaimedTest(s.caps[e], s.caps[child], s.caps[o]);
    }
    ReclaimedTest(s.caps[e], s.caps[child], NoCap);
  }

  lemma WithoutOnly(ring: seq<nat>, c: nat, o: nat)
    requires c in ring && o in Without(ring, c)
    ensures o in ring
  {
    assert ring == ring[..IndexOf(ring, c)] + ring[IndexOf(ring, c)..];
  }

  lemma {:induction false} RunsIntoItself(cfg: Config, s: Sys, e: nat) returns (n: nat, s': Sys)
    requires SysInv(cfg, s) && e < |s.caps| && Sliced(s.caps[e]) && !Barrier(s, e)
    ensures StepsTo(cfg, s, s', e, n) && Wraps(s', e)
    decreases |s.ring|
  {
    hide Barrier, NoWrap, RevokeStep, SysInv, Sliced;
    n, s' := 0, s;
    SysRing(cfg, s);
    if NoWrap(s, e) {
      NothingStops(cfg, s, e);
      RevokeInv(cfg, s, e);
      BarrierOnlyGoes(cfg, s, e);
      n, s' := RunsIntoItself(cfg, RevokeStep(cfg, s, e).s, e);
      n := n + 1;
    }
  }

  lemma SysRing(cfg: Config, s: Sys)
    requires SysInv(cfg, s)
    ensures RingOk(s)
  {
  }

  /** A revocation of a time or monitor capability that runs alone never wraps round the ring if and
      only if some other member stops it. */
  lemma RevocationNeedsBarrier(cfg: Config, s: Sys, e: nat)
    requires SysInv(cfg, s) && e < |s.caps| && Sliced(s.caps[e])
    ensures Barrier(s, e) <==> forall n: nat, s' | StepsTo(cfg, s, s', e, n) :: !Wraps(s', e)
  {
    hide Barrier, Wraps, SysInv, StepsTo, Sliced;
    if Barrier(s, e) {
      forall n: nat, s' | StepsTo(cfg, s, s', e, n) ensures !Wraps(s', e) {
        BarrierKeepsOff(cfg, s, s', e, n);
      }
    } else {
      var n, s' := RunsIntoItself(cfg, s, e);
    }
  }
}
