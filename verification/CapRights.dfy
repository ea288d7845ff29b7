/** No run of system calls makes permissions: each memory or PMP capability can do only what one of the
    platform's initial capabilities can. */
module CapRights {
  import opened CapTypes
  import opened CapTable
  import opened CapSystem
  import opened CapInvariant
  import opened CapPmp
  import opened CapRuns
  import opened CapEffects
  import opened CapGuard

  predicate Access(c: Cap) {
    c.Memory? || c.Pmp?
  }

  /** d allows everything that c allows. */
  predicate Covered(c: Cap, d: Cap) {
    Access(c) ==> Access(d) && NoMore(c.rwx, d.rwx)
  }

  /** Every capability of caps' is covered by one of caps. */
  ghost predicate NothingNew(caps: seq<Cap>, caps': seq<Cap>) {
    forall e {:trigger caps'[e]} | 0 <= e < |caps'| && Access(caps'[e]) ::
      exists f :: 0 <= f < |caps| && Covered(caps'[e], caps[f])
  }

  lemma NothingNewTwice(caps: seq<Cap>, caps1: seq<Cap>, caps2: seq<Cap>)
    requires NothingNew(caps, caps1) && NothingNew(caps1, caps2)
    ensures NothingNew(caps, caps2)
  {
    forall e | 0 <= e < |caps2| && Access(caps2[e]) ensures exists f :: 0 <= f < |caps| && Covered(caps2[e], caps[f]) {
      var f :| 0 <= f < |caps1| && Covered(caps2[e], caps1[f]);
      var g :| 0 <= g < |caps| && Covered(caps1[f], caps[g]);
      assert Covered(caps2[e], caps[g]);
    }
  }

  /** Two entries change; what they hold afterwards is covered by what one of them held. */
  lemma TwoChanged(s: Sys, s': Sys, e: nat, f: nat)
    requires e < |s.caps| && f < |s.caps| && OthersSame(s, s', e, f)
    requires Covered(s'.caps[e], s.caps[e]) || Covered(s'.caps[e], s.caps[f])
    requires Covered(s'.caps[f], s.caps[e]) || Covered(s'.caps[f], s.caps[f])
    ensures NothingNew(s.caps, s'.caps)
  {
    forall g | 0 <= g < |s'.caps| && Access(s'.caps[g])
      ensures exists h :: 0 <= h < |s.caps| && Covered(s'.caps[g], s.caps[h])
    {
      assert g != e && g != f ==> Covered(s'.caps[g], s.caps[g]);
    }
    hide Covered;
  }

  lemma SameIsCovered(c: Cap, d: Cap)
    requires SameRights(c, d)
    ensures Covered(d, c) && Covered(c, d)
  {
  }

  lemma PartIsCovered(p: Cap, c: Cap)
    requires PartOf(p, c)
    ensures Covered(c, p)
  {
    hide InRegion, FreeByte;
  }

  lemma DeriveRights(cfg: Config, s: Sys, src: nat, dst: nat, ncap: Cap)
    requires EntryOk(cfg, s, src) && EntryOk(cfg, s, dst)
    ensures NothingNew(s.caps, Derive(cfg, s, src, dst, ncap).s.caps)
  {
    var r := Derive(cfg, s, src, dst, ncap);
    DeriveExactly(cfg, s, src, dst, ncap);
    hide RingOk, Derive, PartOf, SameRights, Covered, LeftOf, OthersSame, NothingNew;
    if r.err == Success {
      PartIsCovered(s.caps[src], ncap);
      SameIsCovered(s.caps[src], r.s.caps[src]);
      TwoChanged(s, r.s, src, dst);
    } else {
      Unchanged(s.caps);
    }
  }

  lemma Unchanged(caps: seq<Cap>)
    ensures NothingNew(caps, caps)
  {
    forall e | 0 <= e < |caps| && Access(caps[e]) ensures exists f :: 0 <= f < |caps| && Covered(caps[e], caps[f]) {
      assert Covered(caps[e], caps[e]);
    }
  }

  lemma MoveRights(cfg: Config, s: Sys, src: nat, dst: nat)
    requires EntryOk(cfg, s, src) && EntryOk(cfg, s, dst)
    ensures NothingNew(s.caps, Move(cfg, s, src, dst).s.caps)
  {
    var r := Move(cfg, s, src, dst);
    MoveExactly(cfg, s, src, dst);
    hide RingOk, Move, OthersSame, NothingNew;
    if r.err == Success { TwoChanged(s, r.s, src, dst); } else { Unchanged(s.caps); }
  }

  lemma DeleteRights(cfg: Config, s: Sys, e: nat)
    requires EntryOk(cfg, s, e)
    ensures NothingNew(s.caps, Delete(cfg, s, e).s.caps)
  {
    DeleteExactly(cfg, s, e);
    hide RingOk, Delete, OthersSame, NothingNew;
    TwoChanged(s, Delete(cfg, s, e).s, e, e);
  }

  lemma RevokeRights(cfg: Config, s: Sys, e: nat)
    requires EntryOk(cfg, s, e)
    ensures NothingNew(s.caps, RevokeStep(cfg, s, e).s.caps)
  {
    var r := RevokeStep(cfg, s, e);
    RevokeEffect(cfg, s, e);
    hide RingOk, RevokeStep, OthersSame, NothingNew, SameRights, Covered;
    if r.err == Success {
      var child := NextOf(s.ring, e);
      SameIsCovered(s.caps[e], r.s.caps[e]);
      if child != e { NothingIsCovered(s.caps[e]); }
      TwoChanged(s, r.s, e, child);
    } else {
      Unchanged(s.caps);
    }
  }

  lemma NothingIsCovered(c: Cap)
    ensures Covered(NoCap, c)
  {
  }

  /** The operations on one entry. */
  lemma OneEntryRights(cfg: Config, s: Sys, e: nat, slot: nat)
    requires EntryOk(cfg, s, e)
    ensures NothingNew(s.caps, Reset(cfg, s, e).s.caps) && NothingNew(s.caps, PmpUnload(cfg, s, e).s.caps)
    ensures Pid(cfg, e) < |s.pmp| && slot < |s.pmp[Pid(cfg, e)]| ==>
              NothingNew(s.caps, PmpLoad(cfg, s, e, slot).s.caps)
  {
    ResetEffect(cfg, s, e);
    UnloadExactly(cfg, s, e);
    Unchanged(s.caps);
    hide RingOk, Reset, PmpUnload, PmpLoad, OthersSame, NothingNew, SameRights, Covered, OtherRegs, Free, Holds;
    SameIsCovered(s.caps[e], Reset(cfg, s, e).s.caps[e]);
    if s.caps[e] != NoCap { TwoChanged(s, Reset(cfg, s, e).s, e, e); }
    if PmpUnload(cfg, s, e).err == Success {
      SameIsCovered(s.caps[e], PmpUnload(cfg, s, e).s.caps[e]);
      TwoChanged(s, PmpUnload(cfg, s, e).s, e, e);
    }
    if Pid(cfg, e) < |s.pmp| && slot < |s.pmp[Pid(cfg, e)]| { LoadRights(cfg, s, e, slot); }
  }

  lemma LoadRights(cfg: Config, s: Sys, e: nat, slot: nat)
    requires EntryOk(cfg, s, e) && Pid(cfg, e) < |s.pmp| && slot < |s.pmp[Pid(cfg, e)]|
    ensures NothingNew(s.caps, PmpLoad(cfg, s, e, slot).s.caps)
  {
    LoadExactly(cfg, s, e, slot);
    Unchanged(s.caps);
    hide RingOk, PmpLoad, OthersSame, NothingNew, SameRights, Covered, OtherRegs;
    if PmpLoad(cfg, s, e, slot).err == Success {
      SameIsCovered(s.caps[e], PmpLoad(cfg, s, e, slot).s.caps[e]);
      TwoChanged(s, PmpLoad(cfg, s, e, slot).s, e, e);
    }
  }

  lemma StepRights(cfg: Config, m: Machine, a: Action)
    requires MachineInv(cfg, m) && Allowed(cfg, m, a)
    ensures NothingNew(m.s.caps, Exec(cfg, m, a).s.caps)
  {
    hide Derive, Move, Delete, RevokeStep, Reset, PmpLoad, PmpUnload, NothingNew, CheckMonitor, Nested, ScheduleInv;
    hide PmpInv, RingOk, NoWrap;
    Unchanged(m.s.caps);
    match a {
      case DoDerive(_, src, dst, ncap) => DeriveRights(cfg, m.s, src, dst, ncap);
      case DoMove(_, src, dst) => MoveRights(cfg, m.s, src, dst);
      case DoDelete(_, e) => DeleteRights(cfg, m.s, e);
      case DoLoad(_, e, slot) => PidInRange(cfg, e); OneEntryRights(cfg, m.s, e, slot);
      case DoUnload(_, e) => OneEntryRights(cfg, m.s, e, 0);
      case DoMonitorMove(_, _, src, dst) => MoveRights(cfg, m.s, src, dst);
      case DoMonitorLoad(_, _, e, slot) => PidInRange(cfg, e); OneEntryRights(cfg, m.s, e, slot);
      case DoMonitorUnload(_, _, e) => OneEntryRights(cfg, m.s, e, 0);
      case DoRevoke(pid) => RevokeRights(cfg, m.s, m.revoking[pid].entry);
      case DoReset(pid) =>
        assert RevocationOk(cfg, m.s, pid, m.revoking[pid]);
        OneEntryRights(cfg, m.s, m.revoking[pid].entry, 0);
      case _ =>
    }
  }

  lemma {:induction false} RunRights(cfg: Config, m: Machine, actions: seq<Action>)
    requires MachineInv(cfg, m) && IsRun(cfg, m, actions)
    ensures NothingNew(m.s.caps, Run(cfg, m, actions).s.caps)
    decreases |actions|
  {
    hide Exec, Allowed, MachineInv, NothingNew;
    if actions == [] {
      Unchanged(m.s.caps);
    } else {
      StepKeepsInv(cfg, m, actions[0]);
      StepRights(cfg, m, actions[0]);
      RunRights(cfg, Exec(cfg, m, actions[0]), actions[1..]);
      NothingNewTwice(m.s.caps, Exec(cfg, m, actions[0]).s.caps, Run(cfg, m, actions).s.caps);
    }
  }

  /** In every reachable state, whatever a memory or PMP capability allows one of the platform's
      initial memory or PMP capabilities allows. */
  lemma RightsFromStart(cfg: Config, init: seq<Cap>, actions: seq<Action>, e: nat) returns (i: nat)
    requires InitCapsOk(cfg, init) && IsRun(cfg, Start(cfg, init), actions)
    requires var s := Reached(cfg, init, actions); e < |s.caps| && Access(s.caps[e])
    ensures i < |init| && Access(init[i]) && NoMore(Reached(cfg, init, actions).caps[e].rwx, init[i].rwx)
  {
    hide *;
    var s, m := Reached(cfg, init, actions), Start(cfg, init);
    RunRights(cfg, m, actions);
    ReachedIs(cfg, init, actions);
    var f := CoveredBy(m.s.caps, s.caps, e);
    i := f;
    StartHolds(cfg, init, f);
    ByInitial(s.caps[e], m.s.caps[f], init, f);
  }

  lemma CoveredBy(caps: seq<Cap>, caps': seq<Cap>, e: nat) returns (f: nat)
    requires NothingNew(caps, caps') && e < |caps'| && Access(caps'[e])
    ensures f < |caps| && Covered(caps'[e], caps[f])
  {
    var g :| 0 <= g < |caps| && Covered(caps'[e], caps[g]);
    f := g;
  }

  lemma StartHolds(cfg: Config, init: seq<Cap>, f: nat)
    requires InitCapsOk(cfg, init)
    ensures var caps := Start(cfg, init).s.caps;
            f < |caps| ==> if f < |init| then SameRights(init[f], caps[f]) else caps[f] == NoCap
  {
    var m := Start(cfg, init);
    assert m.s == InitSys(cfg, init);
    hide InitSchedule, InitPmp, InitRing, SameGroup, MachineInv;
  }

  lemma ByInitial(c: Cap, d: Cap, init: seq<Cap>, f: nat)
    requires Access(c) && Covered(c, d)
    requires if f < |init| then SameRights(init[f], d) else d == NoCap
    ensures f < |init| && Access(init[f]) && Access(c) && NoMore(c.rwx, init[f].rwx)
  {
  }

  /** So it is after whatever processes ask for, as long as a PMP capability is kept. */
  lemma RightsWithGuard(cfg: Config, init: seq<Cap>, actions: seq<Action>, g: nat, e: nat)
    requires InitCapsOk(cfg, init) && Guarded(Start(cfg, init).s, g) && GuardedRun(cfg, Start(cfg, init), actions, g)
    ensures IsRun(cfg, Start(cfg, init), actions)
    ensures var s := Reached(cfg, init, actions);
            e < |s.caps| && Access(s.caps[e]) ==>
              exists i :: 0 <= i < |init| && Access(init[i]) && NoMore(s.caps[e].rwx, init[i].rwx)
  {
    hide Reached, MachineInv, InitCapsOk, Guarded, GuardedRun, IsRun;
    GuardedRunIsRun(cfg, Start(cfg, init), actions, g);
    var s := Reached(cfg, init, actions);
    if e < |s.caps| && Access(s.caps[e]) {
      var i := RightsFromStart(cfg, init, actions, e);
    }
  }
}
