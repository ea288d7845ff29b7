/** Whether the ring is always large enough for a move and for a revocation.  It is not: whoever
    owns the last capabilities can delete all but one.  It is as long as some PMP capability, such
    as the one process 0 starts with, is kept. */
module CapGuard {
  import opened CapTypes
  import opened CapTable
  import opened CapSystem
  import opened CapInvariant
  import opened CapSchedule
  import opened CapPmp
  import opened CapRuns

  // ---------------------------------------------------------------- the ring can become too small

  lemma RunStarts(cfg: Config, m: Machine, a: Action, rest: seq<Action>)
    requires MachineInv(cfg, m) && Allowed(cfg, m, a)
    requires MachineInv(cfg, Exec(cfg, m, a)) && IsRun(cfg, Exec(cfg, m, a), rest)
    ensures IsRun(cfg, m, [a] + rest) && Run(cfg, m, [a] + rest) == Run(cfg, Exec(cfg, m, a), rest)
  {
    hide Exec, Allowed, MachineInv;
    assert ([a] + rest)[1..] == rest;
  }

  /** The owner of any ring member can delete it. */
  lemma DeleteMember(cfg: Config, m: Machine, e: nat)
    requires MachineInv(cfg, m) && m.revoking == map[] && e in m.s.ring
    ensures var a := DoDelete(Pid(cfg, e), e);
            && Allowed(cfg, m, a) && MachineInv(cfg, Exec(cfg, m, a))
            && Exec(cfg, m, a) == m.(s := Delete(cfg, m.s, e).s) && Exec(cfg, m, a).s.ring == Without(m.s.ring, e)
  {
    hide Delete, Without, ScheduleInv, PmpInv, Nested;
    StepKeepsInv(cfg, m, DoDelete(Pid(cfg, e), e));
    DeletedRing(cfg, m.s, e);
  }

  lemma DeletedRing(cfg: Config, s: Sys, e: nat)
    requires EntryOk(cfg, s, e) && e in s.ring
    ensures Delete(cfg, s, e).s.ring == Without(s.ring, e)
  {
  }

  lemma WithoutMember(ring: seq<nat>, e: nat, keep: nat)
    requires e in ring && keep in ring && e != keep
    ensures keep in Without(ring, e) && |Without(ring, e)| == |ring| - 1
  {
    var k, l := IndexOf(ring, e), IndexOf(ring, keep);
    assert Without(ring, e)[if l < k then l else l - 1] == keep;
  }

  /** Deletions alone leave any ring member as the only one. */
  lemma {:induction false} RunDownTo(cfg: Config, m: Machine, keep: nat) returns (actions: seq<Action>)
    requires MachineInv(cfg, m) && m.revoking == map[] && keep in m.s.ring
    ensures IsRun(cfg, m, actions) && Run(cfg, m, actions).s.ring == [keep]
    decreases |m.s.ring|
  {
    hide Allowed, Exec, Delete, Without;
    if |m.s.ring| > 1 {
      var e := if m.s.ring[0] == keep then m.s.ring[1] else m.s.ring[0];
      DeleteMember(cfg, m, e);
      WithoutMember(m.s.ring, e, keep);
      hide MachineInv;
      var a := DoDelete(Pid(cfg, e), e);
      var rest := RunDownTo(cfg, Exec(cfg, m, a), keep);
      RunStarts(cfg, m, a, rest);
      actions := [a] + rest;
    } else {
      actions := [];
    }
  }

  /** From the initial state a run leads to a ring of any one of the initial capabilities: a move of
      it then breaks the table, and a time or monitor capability revokes itself. */
  lemma RingTooSmall(cfg: Config, init: seq<Cap>, keep: nat) returns (actions: seq<Action>)
    requires InitCapsOk(cfg, init) && keep < |init|
    ensures IsRun(cfg, Start(cfg, init), actions) && Reached(cfg, init, actions).ring == [keep]
    ensures var s := Reached(cfg, init, actions);
            && keep < |s.caps|
            && (forall dst | 0 <= dst < |s.caps| && s.caps[dst] == NoCap :: !Movable(s, keep, dst))
            && (Sliced(s.caps[keep]) ==> !NoWrap(s, keep))
  {
    InitialMember(cfg, init, keep);
    hide *;
    actions := RunDownTo(cfg, Start(cfg, init), keep);
    SoleMember(cfg, Reached(cfg, init, actions), keep);
    ReachedIs(cfg, init, actions);
  }

  lemma ReachedIs(cfg: Config, init: seq<Cap>, actions: seq<Action>)
    requires InitCapsOk(cfg, init) && IsRun(cfg, Start(cfg, init), actions)
    ensures Reached(cfg, init, actions) == Run(cfg, Start(cfg, init), actions).s
  {
  }

  lemma InitialMember(cfg: Config, init: seq<Cap>, keep: nat)
    requires InitCapsOk(cfg, init) && keep < |init|
    ensures var m := Start(cfg, init); m.revoking == map[] && keep in m.s.ring && m.s == InitSys(cfg, init)
  {
    var m := Start(cfg, init);
    assert m.s.ring[if keep == 0 then 0 else |init| - keep] == keep;
  }

  lemma SoleMember(cfg: Config, s: Sys, keep: nat)
    requires SysInv(cfg, s) && s.ring == [keep]
    ensures keep < |s.caps|
    ensures forall dst | 0 <= dst < |s.caps| && s.caps[dst] == NoCap :: !Movable(s, keep, dst)
    ensures Sliced(s.caps[keep]) ==> !NoWrap(s, keep)
  {
    assert s.ring[0] == keep;
    IndexOfIs(s.ring, 0);
    assert NextOf(s.ring, keep) == keep;
    RangeAt(cfg, s, keep);
    assert !HasOutsider(s, keep);
    hide ScheduleInv, PmpInv, Nested, Shape;
  }

  lemma RangeAt(cfg: Config, s: Sys, e: nat)
    requires RingInv(cfg, s) && e < |s.caps|
    ensures RangeOk(s.caps[e])
  {
    if s.caps[e] != NoCap { var k := InRing(s, e); }
  }

  // ---------------------------------------------------------------- runs that keep a PMP capability

  /** Entry g holds a PMP capability. */
  predicate Guarded(s: Sys, g: nat) {
    g < |s.caps| && s.caps[g].Pmp?
  }

  /** The step does not take the capability away from entry g: nobody moves or deletes it, and no
      memory capability is revoked that it may come from. */
  predicate Spares(m: Machine, a: Action, g: nat)
    requires g < |m.s.caps|
  {
    match a
    case DoMove(_, src, _) => src != g
    case DoMonitorMove(_, _, src, _) => src != g
    case DoDelete(_, e) => e != g
    case DoRevoke(pid) =>
      pid in m.revoking && m.revoking[pid].entry < |m.s.caps| ==>
        RevokeTest(m.s.caps[m.revoking[pid].entry], m.s.caps[g]) != Success
    case _ => true
  }

  lemma TwoMembers(s: Sys, g: nat, e: nat)
    requires RingOk(s) && Guarded(s, g) && e < |s.caps| && s.caps[e] != NoCap && e != g
    ensures |s.ring| >= 2
  {
    assert g in s.ring && e in s.ring;
  }

  lemma GuardIsOutsider(s: Sys, g: nat, e: nat)
    requires RingOk(s) && Guarded(s, g) && e < |s.caps|
    ensures NoWrap(s, e)
  {
    assert g in s.ring;
    if e != g { assert !SameGroup(s.caps[e], s.caps[g]); }
  }

  /** Next to a PMP capability the ring suffices for every step that a process may ask for. */
  lemma GuardSuffices(cfg: Config, m: Machine, a: Action, g: nat)
    requires MachineInv(cfg, m) && Guarded(m.s, g) && Asked(cfg, m, a) && Spares(m, a, g)
    ensures Allowed(cfg, m, a)
  {
    hide ScheduleInv, PmpInv, Nested, RingOk, NoWrap, DistinctEntries, CapInRange;
    match a {
      case DoMove(_, src, _) => if m.s.caps[src] != NoCap { TwoMembers(m.s, g, src); }
      case DoMonitorMove(_, _, src, _) => if m.s.caps[src] != NoCap { TwoMembers(m.s, g, src); }
      case DoRevoke(pid) => GuardIsOutsider(m.s, g, m.revoking[pid].entry);
      case _ =>
    }
  }

  lemma OperationsSpare(cfg: Config, s: Sys, e: nat, f: nat, c: Cap, slot: nat, g: nat)
    requires Shape(cfg, s) && RingOk(s) && Guarded(s, g) && e < |s.caps| && f < |s.caps|
    ensures Guarded(Derive(cfg, s, e, f, c).s, g) && Guarded(Reset(cfg, s, e).s, g)
    ensures Guarded(PmpUnload(cfg, s, e).s, g)
    ensures e != g ==> Guarded(Move(cfg, s, e, f).s, g) && Guarded(Delete(cfg, s, e).s, g)
    ensures Pid(cfg, e) < |s.pmp| && slot < cfg.pmpCnt ==> Guarded(PmpLoad(cfg, s, e, slot).s, g)
  {
    hide SchedUpdate, SchedDelete, PmpSet, PmpUnset, InsertAfter, Replace, Without, RingOk, IsValid, Pid;
  }

  lemma RevokeSpares(cfg: Config, s: Sys, e: nat, g: nat)
    requires RingOk(s) && Guarded(s, g) && e < |s.caps| && RevokeTest(s.caps[e], s.caps[g]) != Success
    ensures Guarded(RevokeStep(cfg, s, e).s, g)
  {
    hide SchedUpdate, PmpUnset, Without, Pid;
    if RevokeStep(cfg, s, e).err == Success { assert e != g && NextOf(s.ring, e) != g; }
  }

  lemma GuardStays(cfg: Config, m: Machine, a: Action, g: nat)
    requires MachineInv(cfg, m) && Guarded(m.s, g) && Allowed(cfg, m, a) && Spares(m, a, g)
    ensures Guarded(Exec(cfg, m, a).s, g)
  {
    hide Derive, Move, Delete, PmpLoad, PmpUnload, RevokeStep, Reset, CheckMonitor, ScheduleInv, PmpInv, Nested, NoWrap;
    var s := m.s;
    match a {
      case DoDerive(_, src, dst, ncap) => OperationsSpare(cfg, s, src, dst, ncap, 0, g);
      case DoMove(_, src, dst) => OperationsSpare(cfg, s, src, dst, NoCap, 0, g);
      case DoDelete(_, e) => OperationsSpare(cfg, s, e, e, NoCap, 0, g);
      case DoLoad(_, e, slot) => PidInRange(cfg, e); OperationsSpare(cfg, s, e, e, NoCap, slot, g);
      case DoUnload(_, e) => OperationsSpare(cfg, s, e, e, NoCap, 0, g);
      case DoMonitorMove(_, _, src, dst) => OperationsSpare(cfg, s, src, dst, NoCap, 0, g);
      case DoMonitorLoad(_, _, e, slot) => PidInRange(cfg, e); OperationsSpare(cfg, s, e, e, NoCap, slot, g);
      case DoMonitorUnload(_, _, e) => OperationsSpare(cfg, s, e, e, NoCap, 0, g);
      case DoRevoke(pid) => RevokeSpares(cfg, s, m.revoking[pid].entry, g);
      case DoReset(pid) =>
        assert RevocationOk(cfg, s, pid, m.revoking[pid]);
        OperationsSpare(cfg, s, m.revoking[pid].entry, 0, NoCap, 0, g);
      case _ =>
    }
  }

  /** A sequence of steps that processes may ask for, none of which takes the capability of g. */
  ghost predicate GuardedRun(cfg: Config, m: Machine, actions: seq<Action>, g: nat)
    requires MachineInv(cfg, m) && Guarded(m.s, g)
    decreases |actions|
  {
    actions != [] ==>
      && Asked(cfg, m, actions[0]) && Spares(m, actions[0], g)
      && (GuardSuffices(cfg, m, actions[0], g);
          StepKeepsInv(cfg, m, actions[0]);
          GuardStays(cfg, m, actions[0], g);
          GuardedRun(cfg, Exec(cfg, m, actions[0]), actions[1..], g))
  }

  /** While a PMP capability is kept, the ring suffices for everything processes do. */
  lemma {:induction false} GuardedRunIsRun(cfg: Config, m: Machine, actions: seq<Action>, g: nat)
    requires MachineInv(cfg, m) && Guarded(m.s, g) && GuardedRun(cfg, m, actions, g)
    ensures IsRun(cfg, m, actions)
    decreases |actions|
  {
    hide Exec, Allowed, Asked, Spares, MachineInv, Guarded;
    if actions != [] {
      GuardSuffices(cfg, m, actions[0], g);
      StepKeepsInv(cfg, m, actions[0]);
      GuardStays(cfg, m, actions[0], g);
      GuardedRunIsRun(cfg, Exec(cfg, m, actions[0]), actions[1..], g);
    }
  }

  /** The platform gives process 0 such a capability, in entry 0. */
  lemma StartsGuarded(cfg: Config, init: seq<Cap>)
    requires InitCapsOk(cfg, init)
    ensures Guarded(Start(cfg, init).s, 0)
  {
    MulMonotone(1, cfg.procCnt, cfg.capCnt);
    hide InitSchedule, InitPmp, SameGroup;
  }

  /** As long as a PMP capability is kept, whatever processes do: the schedule is what the time
      capabilities say. */
  lemma ScheduleWithGuard(cfg: Config, init: seq<Cap>, actions: seq<Action>, g: nat, h: nat, i: nat)
    requires InitCapsOk(cfg, init) && Guarded(Start(cfg, init).s, g) && h < cfg.hartCnt && i < cfg.slotCnt
    requires GuardedRun(cfg, Start(cfg, init), actions, g)
    ensures IsRun(cfg, Start(cfg, init), actions) && SlotRefines(cfg, Reached(cfg, init, actions), h, i)
  {
    hide *;
    GuardedRunIsRun(cfg, Start(cfg, init), actions, g);
    ScheduleRefinesCapabilities(cfg, init, actions, h, i);
  }

  /** And two capabilities of one hart, or two monitor capabilities, nest. */
  lemma RangesWithGuard(cfg: Config, init: seq<Cap>, actions: seq<Action>, g: nat, e: nat, f: nat)
    requires InitCapsOk(cfg, init) && Guarded(Start(cfg, init).s, g)
    requires GuardedRun(cfg, Start(cfg, init), actions, g)
    ensures IsRun(cfg, Start(cfg, init), actions)
    ensures var s := Reached(cfg, init, actions);
            e < |s.caps| && f < |s.caps| && e != f && SameGroup(s.caps[e], s.caps[f]) ==> Nest(s.caps[e], s.caps[f])
  {
    hide *;
    GuardedRunIsRun(cfg, Start(cfg, init), actions, g);
    var s := Reached(cfg, init, actions);
    if e < |s.caps| && f < |s.caps| && e != f && SameGroup(s.caps[e], s.caps[f]) {
      RangesNest(cfg, init, actions, e, f);
    }
  }

  /** At most one monitor capability answers for a process. */
  lemma MonitorWithGuard(cfg: Config, init: seq<Cap>, actions: seq<Action>, g: nat, m1: nat, m2: nat, pid: nat,
                         suspended: set<nat>)
    requires InitCapsOk(cfg, init) && Guarded(Start(cfg, init).s, g)
    requires GuardedRun(cfg, Start(cfg, init), actions, g)
    ensures IsRun(cfg, Start(cfg, init), actions)
    ensures var s := Reached(cfg, init, actions);
            (&& m1 < |s.caps| && CheckMonitor(s, m1, pid, suspended) != ErrInvalidMonitor
             && m2 < |s.caps| && CheckMonitor(s, m2, pid, suspended) != ErrInvalidMonitor) ==> m1 == m2
  {
    hide *;
    GuardedRunIsRun(cfg, Start(cfg, init), actions, g);
    var s := Reached(cfg, init, actions);
    if m1 < |s.caps| && CheckMonitor(s, m1, pid, suspended) != ErrInvalidMonitor
       && m2 < |s.caps| && CheckMonitor(s, m2, pid, suspended) != ErrInvalidMonitor {
      OneMonitorPerProcess(cfg, init, actions, m1, m2, pid, suspended);
    }
  }

  /** And a PMP register is configured exactly when one loaded capability of its process names it. */
  lemma RegistersWithGuard(cfg: Config, init: seq<Cap>, actions: seq<Action>, g: nat, pid: nat, slot: nat)
    requires InitCapsOk(cfg, init) && Guarded(Start(cfg, init).s, g) && pid < cfg.procCnt && slot < cfg.pmpCnt
    requires GuardedRun(cfg, Start(cfg, init), actions, g)
    ensures IsRun(cfg, Start(cfg, init), actions)
    ensures var s := Reached(cfg, init, actions);
            && |s.pmp| == cfg.procCnt && |s.pmp[pid]| == cfg.pmpCnt
            && RegOk(cfg, s.caps, pid, slot, s.pmp[pid][slot])
            && (s.pmp[pid][slot].cfg != 0 <==> exists e: nat :: Loaded(cfg, s.caps, e, pid, slot))
  {
    hide *;
    GuardedRunIsRun(cfg, Start(cfg, init), actions, g);
    RegistersAgree(cfg, init, actions, pid, slot);
  }
}
