/** Every run of the capability system calls.  A system call is one step under the kernel lock,
    except that revocation releases the lock between its steps, so that the steps of several
    processes interleave. */
module CapRuns {
  import opened CapTypes
  import opened CapTable
  import opened CapSystem
  import opened CapInvariant
  import opened CapSchedule
  import opened CapPmp

  ghost predicate SysInv(cfg: Config, s: Sys) {
    Shape(cfg, s) && RingInv(cfg, s) && ScheduleInv(cfg, s) && PmpInv(cfg, s)
  }

  // ---------------------------------------------------------------- descendants under other steps

  /** Nothing behind position k of the ring lies inside its range. */
  ghost predicate Childless(cs: seq<Cap>, k: nat)
    requires k < |cs|
  {
    forall j | k < j < |cs| && SameGroup(cs[k], cs[j]) :: EndOf(cs[j]) <= BgnOf(cs[k])
  }

  lemma ChildlessIs(s: Sys, k: nat)
    requires RingOk(s) && k < |s.ring|
    ensures NoDescendants(s, s.ring[k]) <==> Childless(RingCaps(s), k)
  {
    IndexOfIs(s.ring, k);
  }

  lemma ChildlessInsert(cs: seq<Cap>, l: nat, p: Cap, c: Cap, k: nat)
    requires Nested(cs) && k < |cs| && l < |cs| && k != l && Childless(cs, k)
    requires GroupOf(p) == GroupOf(cs[l]) == GroupOf(c) && EndOf(c) <= EndOf(cs[l]) && EndOf(p) == EndOf(cs[l])
    ensures Childless(cs[l := p][..l + 1] + [c] + cs[l + 1..], if k < l then k else k + 1)
  {
  }

  lemma ChildlessRemove(cs: seq<Cap>, l: nat, k: nat)
    requires k < |cs| && l < |cs| && k != l && Childless(cs, k)
    ensures Childless(cs[..l] + cs[l + 1..], if k < l then k else k - 1)
  {
  }

  lemma ChildlessRewrite(cs: seq<Cap>, l: nat, c: Cap, k: nat)
    requires k < |cs| && l < |cs| && Childless(cs, k)
    requires GroupOf(c) == GroupOf(cs[l]) && BgnOf(c) == BgnOf(cs[l]) && EndOf(c) == EndOf(cs[l])
    ensures Childless(cs[l := c], k)
  {
  }

  lemma InsertKeepsChildless(s: Sys, s': Sys, l: nat, dst: nat, p: Cap, c: Cap, e: nat)
    requires RingOk(s) && Nested(RingCaps(s)) && RingOk(s') && l < |s.ring| && e < |s.caps| && e != s.ring[l]
    requires e != dst
    requires s'.ring == s.ring[..l + 1] + [dst] + s.ring[l + 1..]
    requires RingCaps(s') == RingCaps(s)[l := p][..l + 1] + [c] + RingCaps(s)[l + 1..]
    requires var o := RingCaps(s)[l];
             GroupOf(p) == GroupOf(o) == GroupOf(c) && EndOf(c) <= EndOf(o) && EndOf(p) == EndOf(o)
    requires NoDescendants(s, e)
    ensures NoDescendants(s', e)
  {
    if e in s.ring {
      var k := IndexOf(s.ring, e);
      ChildlessIs(s, k);
      ChildlessInsert(RingCaps(s), l, p, c, k);
      hide Nested, Childless;
      assert s'.ring[if k < l then k else k + 1] == e;
      ChildlessIs(s', if k < l then k else k + 1);
    }
  }

  lemma DeriveKeepsChildless(cfg: Config, s: Sys, src: nat, dst: nat, ncap: Cap, e: nat)
    requires Shape(cfg, s) && RingInv(cfg, s) && src < |s.caps| && dst < |s.caps| && e < |s.caps|
    requires NoDescendants(s, e) && e != src && e != dst
    ensures RingOk(Derive(cfg, s, src, dst, ncap).s) && NoDescendants(Derive(cfg, s, src, dst, ncap).s, e)
  {
    hide Nested, DistinctEntries, NoDescendants;
    var r := Derive(cfg, s, src, dst, ncap);
    if r.err == Success {
      var l := InRing(s, src);
      DerivedKind(s.caps[src], ncap);
      InsertRing(s, r.s, l, dst, Parent(s.caps[src], ncap), ncap);
      hide IsDerivable, IsValid, Parent, SchedUpdate, CapInRange;
      InsertKeepsChildless(s, r.s, l, dst, Parent(s.caps[src], ncap), ncap, e);
    }
  }

  lemma DerivedKind(p: Cap, c: Cap)
    requires IsDerivable(p, c) && IsValid(c)
    ensures GroupOf(Parent(p, c)) == GroupOf(p) == GroupOf(c) && EndOf(Parent(p, c)) == EndOf(p) && c != NoCap
    ensures Parent(p, c) != NoCap
    ensures EndOf(c) <= EndOf(p)
  {
  }

  /** Handing member l's capability to entry dst leaves the other positions as they were. */
  lemma ReplaceAtKeepsChildless(s: Sys, s': Sys, l: nat, dst: nat, c: Cap, k: nat)
    requires RingOk(s) && l < |s.ring| && k < |s.ring| && l != k && NoDescendants(s, s.ring[k])
    requires dst < |s.caps| && s.caps[dst] == NoCap && c != NoCap
    requires var p := s.caps[s.ring[l]]; GroupOf(c) == GroupOf(p) && BgnOf(c) == BgnOf(p) && EndOf(c) == EndOf(p)
    requires s'.ring == s.ring[l := dst] && s'.caps == s.caps[dst := c][s.ring[l] := NoCap]
    ensures RingOk(s') && NoDescendants(s', s.ring[k])
  {
    ReplaceRing(s, s', l, dst, c);
    hide Nested, DistinctEntries, NoDescendants, Childless;
    ChildlessIs(s, k);
    assert RingCaps(s)[l] == s.caps[s.ring[l]];
    ChildlessRewrite(RingCaps(s), l, c, k);
    assert s'.ring[k] == s.ring[k];
    ChildlessIs(s', k);
    hide RingOk, RingCaps;
  }

  lemma MovedCap(cfg: Config, s: Sys, src: nat, dst: nat) returns (c: Cap)
    requires EntryOk(cfg, s, src) && EntryOk(cfg, s, dst) && Move(cfg, s, src, dst).err == Success
    ensures s.caps[src] != NoCap && s.caps[dst] == NoCap && c != NoCap
    ensures var p := s.caps[src]; GroupOf(c) == GroupOf(p) && BgnOf(c) == BgnOf(p) && EndOf(c) == EndOf(p)
    ensures var s' := Move(cfg, s, src, dst).s;
            s'.ring == Replace(s.ring, src, dst) && s'.caps == s.caps[dst := c][src := NoCap]
  {
    c := if Pid(cfg, src) != Pid(cfg, dst) then Handed(s.caps[src]) else s.caps[src];
    hide RingOk, SchedUpdate, PmpUnset, Replace, Pid;
  }

  lemma MoveKeepsChildless(cfg: Config, s: Sys, src: nat, dst: nat, e: nat)
    requires Shape(cfg, s) && RingInv(cfg, s) && src < |s.caps| && dst < |s.caps| && e < |s.caps|
    requires NoDescendants(s, e) && e != src && e != dst
    ensures RingOk(Move(cfg, s, src, dst).s) && NoDescendants(Move(cfg, s, src, dst).s, e)
  {
    hide Nested, DistinctEntries, NoDescendants;
    var r := Move(cfg, s, src, dst);
    if r.err == Success {
      var c := MovedCap(cfg, s, src, dst);
      hide Move;
      var l := IndexOf(s.ring, src);
      ReplaceRing(s, r.s, l, dst, c);
      if e in s.ring {
        var k := IndexOf(s.ring, e);
        ReplaceAtKeepsChildless(s, r.s, l, dst, c, k);
      } else {
        NotInRing(r.s, e);
      }
    }
  }

  /** Removing member l leaves the entry at any other position k without descendants. */
  lemma RemoveAtKeepsChildless(s: Sys, s': Sys, l: nat, k: nat)
    requires RingOk(s) && l < |s.ring| && k < |s.ring| && l != k && NoDescendants(s, s.ring[k])
    requires s'.ring == s.ring[..l] + s.ring[l + 1..] && s'.caps == s.caps[s.ring[l] := NoCap]
    ensures RingOk(s') && NoDescendants(s', s.ring[k])
  {
    RemoveRing(s, s', l);
    hide Nested, DistinctEntries, NoDescendants, Childless;
    ChildlessIs(s, k);
    ChildlessRemove(RingCaps(s), l, k);
    assert s'.ring[if k < l then k else k - 1] == s.ring[k];
    ChildlessIs(s', if k < l then k else k - 1);
    hide RingOk, RingCaps;
  }

  /** Removing any member, here or elsewhere, leaves e without descendants. */
  lemma RemoveKeepsChildless(cfg: Config, s: Sys, s': Sys, f: nat, e: nat)
    requires Shape(cfg, s) && RingInv(cfg, s) && f in s.ring && e < |s.caps| && NoDescendants(s, e)
    requires s'.ring == Without(s.ring, f) && s'.caps == s.caps[f := NoCap]
    ensures RingOk(s') && NoDescendants(s', e)
  {
    var l := IndexOf(s.ring, f);
    hide Shape, Nested, DistinctEntries, NoDescendants, Childless;
    RemoveRing(s, s', l);
    if e in s'.ring {
      var k := IndexOf(s.ring, e);
      RemoveAtKeepsChildless(s, s', l, k);
    } else {
      NotInRing(s', e);
    }
    hide RingInv, RingOk, Without;
  }

  lemma NotInRing(s: Sys, e: nat)
    requires RingOk(s) && e !in s.ring
    ensures NoDescendants(s, e)
  {
  }

  lemma RewriteKeepsChildless(s: Sys, s': Sys, f: nat, c: Cap, e: nat)
    requires RingOk(s) && f in s.ring && e < |s.caps| && NoDescendants(s, e) && c != NoCap
    requires GroupOf(c) == GroupOf(s.caps[f]) && BgnOf(c) == BgnOf(s.caps[f]) && EndOf(c) == EndOf(s.caps[f])
    requires s'.ring == s.ring && s'.caps == s.caps[f := c]
    ensures RingOk(s') && NoDescendants(s', e)
  {
    var l := InRing(s, f);
    RewriteRing(s, s', l, c);
    if e in s.ring {
      var k := InRing(s, e);
      ChildlessIs(s, k);
      ChildlessRewrite(RingCaps(s), l, c, k);
      ChildlessIs(s', k);
    }
  }

  lemma DeleteKeepsChildless(cfg: Config, s: Sys, f: nat, e: nat)
    requires Shape(cfg, s) && RingInv(cfg, s) && f < |s.caps| && e < |s.caps| && NoDescendants(s, e)
    ensures RingOk(Delete(cfg, s, f).s) && NoDescendants(Delete(cfg, s, f).s, e)
  {
    if s.caps[f] != NoCap { RemoveKeepsChildless(cfg, s, Delete(cfg, s, f).s, f, e); }
  }

  lemma ReclaimedEnds(p: Cap, c: Cap)
    requires p != NoCap
    ensures GroupOf(Reclaimed(p, c)) == GroupOf(p) && Reclaimed(p, c) != NoCap
    ensures BgnOf(Reclaimed(p, c)) == BgnOf(p) && EndOf(Reclaimed(p, c)) == EndOf(p)
  {
  }

  lemma RevokeKeepsChildless(cfg: Config, s: Sys, f: nat, e: nat)
    requires Shape(cfg, s) && RingInv(cfg, s) && f < |s.caps| && e < |s.caps| && NoDescendants(s, e)
    requires NoWrap(s, f)
    ensures RingOk(RevokeStep(cfg, s, f).s) && NoDescendants(RevokeStep(cfg, s, f).s, e)
  {
    var r := RevokeStep(cfg, s, f);
    if r.err == Success {
      var l := InRing(s, f);
      RevokedChild(cfg, s, f, l);
      var child := NextOf(s.ring, f);
      var s1 := s.(ring := Without(s.ring, child), caps := s.caps[child := NoCap]);
      RemoveKeepsChildless(cfg, s, s1, child, e);
      ReclaimedEnds(s.caps[f], s.caps[child]);
      hide RingInv, NoWrap, RevokeTest, Reclaimed, SchedUpdate, PmpUnset, Without;
      RewriteKeepsChildless(s1, r.s, f, Reclaimed(s.caps[f], s.caps[child]), e);
    }
  }

  lemma ResetKeepsChildless(cfg: Config, s: Sys, f: nat, e: nat)
    requires Shape(cfg, s) && RingInv(cfg, s) && f < |s.caps| && e < |s.caps| && NoDescendants(s, e)
    ensures RingOk(Reset(cfg, s, f).s) && NoDescendants(Reset(cfg, s, f).s, e)
  {
    if s.caps[f] != NoCap {
      hide Nested, SchedUpdate;
      RewriteKeepsChildless(s, Reset(cfg, s, f).s, f, Reset(cfg, s, f).s.caps[f], e);
    }
  }

  lemma PmpKeepsChildless(cfg: Config, s: Sys, f: nat, slot: nat, e: nat)
    requires Shape(cfg, s) && RingInv(cfg, s) && f < |s.caps| && e < |s.caps| && NoDescendants(s, e)
    requires Pid(cfg, f) < |s.pmp| && slot < cfg.pmpCnt
    ensures RingOk(PmpLoad(cfg, s, f, slot).s) && NoDescendants(PmpLoad(cfg, s, f, slot).s, e)
    ensures RingOk(PmpUnload(cfg, s, f).s) && NoDescendants(PmpUnload(cfg, s, f).s, e)
  {
    hide Nested, PmpSet, PmpUnset;
    if PmpLoad(cfg, s, f, slot).err == Success {
      RewriteKeepsChildless(s, PmpLoad(cfg, s, f, slot).s, f, PmpLoad(cfg, s, f, slot).s.caps[f], e);
    }
    if PmpUnload(cfg, s, f).err == Success {
      RewriteKeepsChildless(s, PmpUnload(cfg, s, f).s, f, PmpUnload(cfg, s, f).s.caps[f], e);
    }
  }

  // ---------------------------------------------------------------- interleaved system calls

  /** A process inside sys_cap_revoke: the entry it revokes, and whether its loop has ended. */
  datatype Revocation = Revocation(entry: nat, drained: bool)

  /** The kernel state, the processes inside sys_cap_revoke, and the suspended processes. */
  datatype Machine = Machine(s: Sys, revoking: map<nat, Revocation>, suspended: set<nat>)

  /** One locked step by process pid, or a change of the suspended processes. */
  datatype Action =
    | DoDerive(pid: nat, src: nat, dst: nat, ncap: Cap)
    | DoMove(pid: nat, src: nat, dst: nat)
    | DoDelete(pid: nat, entry: nat)
    | DoLoad(pid: nat, entry: nat, slot: nat)
    | DoUnload(pid: nat, entry: nat)
    | DoMonitorMove(pid: nat, mon: nat, src: nat, dst: nat)
    | DoMonitorLoad(pid: nat, mon: nat, entry: nat, slot: nat)
    | DoMonitorUnload(pid: nat, mon: nat, entry: nat)
    | EnterRevoke(pid: nat, entry: nat)
    | DoRevoke(pid: nat)
    | DoReset(pid: nat)
    | AbortRevoke(pid: nat)
    | Suspend(processes: set<nat>)

  predicate Owned(cfg: Config, s: Sys, pid: nat, e: nat)
  {
    e < |s.caps| && Pid(cfg, e) == pid
  }

  /** What the system call layer guarantees about a step: a process names its own entries, makes
      one system call at a time, and is not suspended meanwhile. */
  predicate Asked(cfg: Config, m: Machine, a: Action)
  {
    match a
    case DoDerive(pid, src, dst, _) => pid !in m.revoking && Owned(cfg, m.s, pid, src) && Owned(cfg, m.s, pid, dst)
    case DoMove(pid, src, dst) => pid !in m.revoking && Owned(cfg, m.s, pid, src) && Owned(cfg, m.s, pid, dst)
    case DoDelete(pid, e) => pid !in m.revoking && Owned(cfg, m.s, pid, e)
    case DoLoad(pid, e, slot) => pid !in m.revoking && Owned(cfg, m.s, pid, e) && slot < cfg.pmpCnt
    case DoUnload(pid, e) => pid !in m.revoking && Owned(cfg, m.s, pid, e)
    case DoMonitorMove(pid, mon, src, dst) =>
      pid !in m.revoking && Owned(cfg, m.s, pid, mon) && src < |m.s.caps| && dst < |m.s.caps|
    case DoMonitorLoad(pid, mon, e, slot) =>
      pid !in m.revoking && Owned(cfg, m.s, pid, mon) && e < |m.s.caps| && slot < cfg.pmpCnt
    case DoMonitorUnload(pid, mon, e) =>
      pid !in m.revoking && Owned(cfg, m.s, pid, mon) && e < |m.s.caps|
    case EnterRevoke(pid, e) => pid !in m.revoking && pid !in m.suspended && Owned(cfg, m.s, pid, e)
    case DoRevoke(pid) => pid in m.revoking && !m.revoking[pid].drained && m.revoking[pid].entry < |m.s.caps|
    case DoReset(pid) => pid in m.revoking && m.revoking[pid].drained
    case AbortRevoke(pid) => pid in m.revoking
    case Suspend(ps) => ps !! m.revoking.Keys
  }

  /** A move that happens has a second ring member to link to. */
  predicate Movable(s: Sys, src: nat, dst: nat)
    requires src < |s.caps| && dst < |s.caps|
  {
    s.caps[src] != NoCap && s.caps[dst] == NoCap ==> |s.ring| >= 2
  }

  /** The ring is large enough for the step: the table survives a move, and a revoke step does not
      wrap round to an ancestor. */
  ghost predicate RingSuffices(cfg: Config, m: Machine, a: Action)
    requires RingOk(m.s) && Asked(cfg, m, a)
  {
    match a
    case DoMove(_, src, dst) => Movable(m.s, src, dst)
    case DoMonitorMove(_, _, src, dst) => Movable(m.s, src, dst)
    case DoRevoke(pid) => NoWrap(m.s, m.revoking[pid].entry)
    case _ => true
  }

  ghost predicate Allowed(cfg: Config, m: Machine, a: Action)
    requires RingOk(m.s)
  {
    Asked(cfg, m, a) && RingSuffices(cfg, m, a)
  }

  ghost predicate RevocationOk(cfg: Config, s: Sys, pid: nat, r: Revocation)
    requires RingOk(s)
  {
    Owned(cfg, s, pid, r.entry) && (r.drained ==> NoDescendants(s, r.entry))
  }

  ghost predicate MachineInv(cfg: Config, m: Machine) {
    && SysInv(cfg, m.s)
    && (forall pid <- m.revoking :: RevocationOk(cfg, m.s, pid, m.revoking[pid]))
    && m.suspended !! m.revoking.Keys
  }

  function Exec(cfg: Config, m: Machine, a: Action): Machine
    requires MachineInv(cfg, m) && Allowed(cfg, m, a)
  {
    match a
    case DoDerive(_, src, dst, ncap) => m.(s := Derive(cfg, m.s, src, dst, ncap).s)
    case DoMove(_, src, dst) => m.(s := Move(cfg, m.s, src, dst).s)
    case DoDelete(_, e) => m.(s := Delete(cfg, m.s, e).s)
    case DoLoad(_, e, slot) => PidInRange(cfg, e); m.(s := PmpLoad(cfg, m.s, e, slot).s)
    case DoUnload(_, e) => m.(s := PmpUnload(cfg, m.s, e).s)
    case DoMonitorMove(_, mon, src, dst) => m.(s := MonitorMove(cfg, m.s, mon, src, dst, m.suspended).s)
    case DoMonitorLoad(_, mon, e, slot) =>
      PidInRange(cfg, e); m.(s := MonitorPmpLoad(cfg, m.s, mon, e, slot, m.suspended).s)
    case DoMonitorUnload(_, mon, e) => m.(s := MonitorPmpUnload(cfg, m.s, mon, e, m.suspended).s)
    case EnterRevoke(pid, e) => m.(revoking := m.revoking[pid := Revocation(e, false)])
    case DoRevoke(pid) =>
      var e := m.revoking[pid].entry;
      var r := RevokeStep(cfg, m.s, e);
      if r.err == Success then m.(s := r.s)
      else if r.err == NoChild then m.(revoking := m.revoking[pid := Revocation(e, true)])
      else m.(revoking := m.revoking - {pid})
    case DoReset(pid) => m.(s := Reset(cfg, m.s, m.revoking[pid].entry).s, revoking := m.revoking - {pid})
    case AbortRevoke(pid) => m.(revoking := m.revoking - {pid})
    case Suspend(ps) => m.(suspended := ps)
  }

  lemma DeriveInv(cfg: Config, s: Sys, src: nat, dst: nat, ncap: Cap)
    requires SysInv(cfg, s) && src < |s.caps| && dst < |s.caps|
    ensures SysInv(cfg, Derive(cfg, s, src, dst, ncap).s)
  {
    DeriveKeepsRing(cfg, s, src, dst, ncap);
    DeriveKeepsSchedule(cfg, s, src, dst, ncap);
    DeriveKeepsPmp(cfg, s, src, dst, ncap);
  }

  lemma MoveInv(cfg: Config, s: Sys, src: nat, dst: nat)
    requires SysInv(cfg, s) && src < |s.caps| && dst < |s.caps|
    ensures SysInv(cfg, Move(cfg, s, src, dst).s)
  {
    MoveKeepsRing(cfg, s, src, dst);
    MoveKeepsSchedule(cfg, s, src, dst);
    MoveKeepsPmp(cfg, s, src, dst);
  }

  lemma DeleteInv(cfg: Config, s: Sys, e: nat)
    requires SysInv(cfg, s) && e < |s.caps|
    ensures SysInv(cfg, Delete(cfg, s, e).s)
  {
    if s.caps[e] != NoCap { RemoveKeepsRing(cfg, s, Delete(cfg, s, e).s, e); }
    DeleteKeepsSchedule(cfg, s, e);
    DeleteKeepsPmp(cfg, s, e);
  }

  lemma RevokeInv(cfg: Config, s: Sys, e: nat)
    requires SysInv(cfg, s) && e < |s.caps| && NoWrap(s, e)
    ensures SysInv(cfg, RevokeStep(cfg, s, e).s)
  {
    RevokeKeepsRing(cfg, s, e);
    RevokeKeepsSchedule(cfg, s, e);
    RevokeKeepsPmp(cfg, s, e);
  }

  lemma ResetInv(cfg: Config, s: Sys, e: nat)
    requires SysInv(cfg, s) && e < |s.caps| && NoDescendants(s, e)
    ensures SysInv(cfg, Reset(cfg, s, e).s)
  {
    ResetKeepsRing(cfg, s, e);
    ResetKeepsSchedule(cfg, s, e);
    ResetKeepsPmp(cfg, s, e);
  }

  lemma PmpInvs(cfg: Config, s: Sys, e: nat, slot: nat)
    requires SysInv(cfg, s) && e < |s.caps| && Pid(cfg, e) < |s.pmp| && slot < cfg.pmpCnt
    ensures SysInv(cfg, PmpLoad(cfg, s, e, slot).s) && SysInv(cfg, PmpUnload(cfg, s, e).s)
  {
    PmpKeepsRing(cfg, s, e, slot);
    PmpKeepsSchedule(cfg, s, e, slot);
    LoadKeepsPmp(cfg, s, e, slot);
    UnloadKeepsPmp(cfg, s, e);
  }

  lemma DeriveStep(cfg: Config, m: Machine, src: nat, dst: nat, ncap: Cap)
    requires MachineInv(cfg, m) && src < |m.s.caps| && dst < |m.s.caps|
    requires Pid(cfg, src) !in m.revoking && Pid(cfg, dst) !in m.revoking
    ensures MachineInv(cfg, m.(s := Derive(cfg, m.s, src, dst, ncap).s))
  {
    DeriveInv(cfg, m.s, src, dst, ncap);
    var s' := Derive(cfg, m.s, src, dst, ncap).s;
    hide PmpInv, ScheduleInv, Nested;
    forall pid | pid in m.revoking ensures RevocationOk(cfg, s', pid, m.revoking[pid]) {
      assert RevocationOk(cfg, m.s, pid, m.revoking[pid]);
      if m.revoking[pid].drained { DeriveKeepsChildless(cfg, m.s, src, dst, ncap, m.revoking[pid].entry); }
    }
    hide Derive;
  }

  lemma MoveStep(cfg: Config, m: Machine, src: nat, dst: nat)
    requires MachineInv(cfg, m) && src < |m.s.caps| && dst < |m.s.caps|
    requires Pid(cfg, src) !in m.revoking && Pid(cfg, dst) !in m.revoking
    ensures MachineInv(cfg, m.(s := Move(cfg, m.s, src, dst).s))
  {
    MoveInv(cfg, m.s, src, dst);
    var s' := Move(cfg, m.s, src, dst).s;
    hide PmpInv, ScheduleInv, Nested;
    forall pid | pid in m.revoking ensures RevocationOk(cfg, s', pid, m.revoking[pid]) {
      assert RevocationOk(cfg, m.s, pid, m.revoking[pid]);
      if m.revoking[pid].drained { MoveKeepsChildless(cfg, m.s, src, dst, m.revoking[pid].entry); }
    }
    hide Move;
  }

  lemma DeleteStep(cfg: Config, m: Machine, e: nat)
    requires MachineInv(cfg, m) && e < |m.s.caps|
    ensures MachineInv(cfg, m.(s := Delete(cfg, m.s, e).s))
  {
    DeleteInv(cfg, m.s, e);
    var s' := Delete(cfg, m.s, e).s;
    hide PmpInv, ScheduleInv, Nested;
    forall pid | pid in m.revoking ensures RevocationOk(cfg, s', pid, m.revoking[pid]) {
      assert RevocationOk(cfg, m.s, pid, m.revoking[pid]);
      if m.revoking[pid].drained { DeleteKeepsChildless(cfg, m.s, e, m.revoking[pid].entry); }
    }
    hide Delete;
  }

  lemma PmpStep(cfg: Config, m: Machine, e: nat, slot: nat)
    requires MachineInv(cfg, m) && e < |m.s.caps| && Pid(cfg, e) < |m.s.pmp| && slot < cfg.pmpCnt
    ensures MachineInv(cfg, m.(s := PmpLoad(cfg, m.s, e, slot).s))
    ensures MachineInv(cfg, m.(s := PmpUnload(cfg, m.s, e).s))
  {
    PmpInvs(cfg, m.s, e, slot);
    hide PmpInv, ScheduleInv, Nested;
    forall pid | pid in m.revoking
      ensures RevocationOk(cfg, PmpLoad(cfg, m.s, e, slot).s, pid, m.revoking[pid])
      ensures RevocationOk(cfg, PmpUnload(cfg, m.s, e).s, pid, m.revoking[pid])
    {
      assert RevocationOk(cfg, m.s, pid, m.revoking[pid]);
      if m.revoking[pid].drained { PmpKeepsChildless(cfg, m.s, e, slot, m.revoking[pid].entry); }
    }
    hide PmpLoad, PmpUnload;
  }

  lemma RevokeLoopStep(cfg: Config, m: Machine, a: Action)
    requires MachineInv(cfg, m) && Allowed(cfg, m, a) && a.DoRevoke?
    ensures MachineInv(cfg, Exec(cfg, m, a))
  {
    var e := m.revoking[a.pid].entry;
    var r := RevokeStep(cfg, m.s, e);
    if r.err == Success {
      RevokeInv(cfg, m.s, e);
      hide PmpInv, ScheduleInv, Nested;
      forall pid | pid in m.revoking ensures RevocationOk(cfg, r.s, pid, m.revoking[pid]) {
        assert RevocationOk(cfg, m.s, pid, m.revoking[pid]);
        if m.revoking[pid].drained { RevokeKeepsChildless(cfg, m.s, e, m.revoking[pid].entry); }
      }
      hide RevokeStep;
    } else if r.err == NoChild {
      if Sliced(m.s.caps[e]) { NoChildNoDescendants(cfg, m.s, e); } else { UnslicedHasNoDescendants(m.s, e); }
      hide SysInv, RevokeStep;
    }
  }

  lemma UnslicedHasNoDescendants(s: Sys, e: nat)
    requires RingOk(s) && e < |s.caps| && !Sliced(s.caps[e])
    ensures NoDescendants(s, e)
  {
    if e in s.ring { var k := InRing(s, e); }
  }

  lemma ResetStep(cfg: Config, m: Machine, a: Action)
    requires MachineInv(cfg, m) && Allowed(cfg, m, a) && a.DoReset?
    ensures MachineInv(cfg, Exec(cfg, m, a))
  {
    var e := m.revoking[a.pid].entry;
    assert RevocationOk(cfg, m.s, a.pid, m.revoking[a.pid]);
    ResetInv(cfg, m.s, e);
    var s' := Reset(cfg, m.s, e).s;
    hide PmpInv, ScheduleInv, Nested;
    forall pid | pid in m.revoking ensures RevocationOk(cfg, s', pid, m.revoking[pid]) {
      assert RevocationOk(cfg, m.s, pid, m.revoking[pid]);
      if m.revoking[pid].drained { ResetKeepsChildless(cfg, m.s, e, m.revoking[pid].entry); }
    }
    hide Reset;
  }

  lemma MonitorMoveStep(cfg: Config, m: Machine, a: Action)
    requires MachineInv(cfg, m) && Allowed(cfg, m, a) && a.DoMonitorMove?
    ensures MachineInv(cfg, Exec(cfg, m, a))
  {
    if MonitorMove(cfg, m.s, a.mon, a.src, a.dst, m.suspended).err != ErrInvalidMonitor {
      if MonitorMove(cfg, m.s, a.mon, a.src, a.dst, m.suspended).err != ErrInvalidState {
        MoveStep(cfg, m, a.src, a.dst);
      }
    }
    hide SysInv, Move;
  }

  /** Every allowed step keeps the ring order, the schedule, the PMP registers, and what the
      processes inside a revocation rely on. */
  lemma StepKeepsInv(cfg: Config, m: Machine, a: Action)
    requires MachineInv(cfg, m) && Allowed(cfg, m, a)
    ensures MachineInv(cfg, Exec(cfg, m, a))
  {
    match a
    case DoDerive(_, src, dst, ncap) => DeriveStep(cfg, m, src, dst, ncap);
    case DoMove(_, src, dst) => MoveStep(cfg, m, src, dst);
    case DoDelete(_, e) => DeleteStep(cfg, m, e);
    case DoLoad(_, e, slot) => PidInRange(cfg, e); PmpStep(cfg, m, e, slot);
    case DoUnload(_, e) => PidInRange(cfg, e); PmpStep(cfg, m, e, 0);
    case DoMonitorMove(_, _, _, _) => MonitorMoveStep(cfg, m, a);
    case DoMonitorLoad(_, _, e, slot) => PidInRange(cfg, e); PmpStep(cfg, m, e, slot);
    case DoMonitorUnload(_, _, e) => PidInRange(cfg, e); PmpStep(cfg, m, e, 0);
    case EnterRevoke(_, _) =>
    case DoRevoke(_) => RevokeLoopStep(cfg, m, a);
    case DoReset(_) => ResetStep(cfg, m, a);
    case AbortRevoke(_) =>
    case Suspend(_) =>
  }

  // ---------------------------------------------------------------- runs from the initial state

  /** A sequence of steps each of which is allowed when it is taken. */
  ghost predicate IsRun(cfg: Config, m: Machine, actions: seq<Action>)
    requires MachineInv(cfg, m)
    decreases |actions|
  {
    actions != [] ==>
      Allowed(cfg, m, actions[0])
      && (StepKeepsInv(cfg, m, actions[0]); IsRun(cfg, Exec(cfg, m, actions[0]), actions[1..]))
  }

  ghost function Run(cfg: Config, m: Machine, actions: seq<Action>): (m': Machine)
    requires MachineInv(cfg, m) && IsRun(cfg, m, actions)
    ensures MachineInv(cfg, m')
    decreases |actions|
  {
    if actions == [] then m
    else StepKeepsInv(cfg, m, actions[0]); Run(cfg, Exec(cfg, m, actions[0]), actions[1..])
  }

  /** The h-th hart's whole period, none of it handed out. */
  function WholePeriod(cfg: Config, h: nat): Cap {
    Time(cfg.minHart + h, 0, 0, cfg.slotCnt)
  }

  /** The platform's initial capabilities: entry 0 a PMP capability, one time capability over the
      whole period for every hart, at most one monitor capability, over all processes. */
  ghost predicate InitCapsOk(cfg: Config, init: seq<Cap>) {
    && ConfigOk(cfg) && 0 < |init| <= cfg.capCnt
    && init[0].Pmp?
    && (forall i | 0 <= i < |init| :: init[i] != NoCap && (init[i].Pmp? ==> IsValid(init[i])))
    && (forall i | 0 <= i < |init| && init[i].Time? ::
          cfg.minHart <= init[i].hart < cfg.minHart + cfg.hartCnt
          && init[i] == WholePeriod(cfg, init[i].hart - cfg.minHart))
    && (forall h {:trigger WholePeriod(cfg, h)} | 0 <= h < cfg.hartCnt :: WholePeriod(cfg, h) in init)
    && (forall i | 0 <= i < |init| && init[i].Monitor? :: init[i] == Monitor(0, 0, cfg.procCnt))
    && (forall i, j | 0 <= i < j < |init| :: !SameGroup(init[i], init[j]))
  }

  /** The ring that ctable_init leaves: every later entry was inserted right behind entry 0. */
  function InitRing(n: nat): seq<nat> {
    seq(n, i requires 0 <= i < n => if i == 0 then 0 else n - i)
  }

  function InitCaps(cfg: Config, init: seq<Cap>): (caps: seq<Cap>)
    requires init != [] && init[0].Pmp?
    ensures |caps| == cfg.procCnt * cfg.capCnt
  {
    seq(cfg.procCnt * cfg.capCnt, e requires 0 <= e =>
      if e == 0 then init[0].(used := true, slot := 0) else if e < |init| then init[e] else NoCap)
  }

  function InitSchedule(cfg: Config): seq<seq<Slot>> {
    seq(cfg.hartCnt, _ => seq(cfg.slotCnt, i requires 0 <= i < cfg.slotCnt => Slot(0, cfg.slotCnt - i)))
  }

  function InitPmp(cfg: Config, first: PmpReg): seq<seq<PmpReg>> {
    seq(cfg.procCnt, p => seq(cfg.pmpCnt, i => if p == 0 && i == 0 then first else PmpReg(0, 0)))
  }

  /** kernel_init: the table, the whole schedule with process 0, and PMP register 0 loaded. */
  function InitSys(cfg: Config, init: seq<Cap>): Sys
    requires 0 < |init| <= cfg.capCnt && init[0].Pmp? && ConfigOk(cfg)
  {
    Sys(InitRing(|init|), InitCaps(cfg, init), InitSchedule(cfg),
        InitPmp(cfg, PmpReg(PmpCfg(init[0].rwx), init[0].addr)))
  }

  lemma InitRingOk(cfg: Config, init: seq<Cap>)
    requires InitCapsOk(cfg, init)
    ensures Shape(cfg, InitSys(cfg, init)) && RingOk(InitSys(cfg, init))
  {
    var s := InitSys(cfg, init);
    MulMonotone(1, cfg.procCnt, cfg.capCnt);
    forall e | 0 <= e < |s.caps| ensures e in s.ring <==> s.caps[e] != NoCap {
      if 0 < e < |init| { assert s.ring[|init| - e] == e; }
      if e == 0 { assert s.ring[0] == 0; }
    }
  }

  lemma InitRingInv(cfg: Config, init: seq<Cap>)
    requires InitCapsOk(cfg, init)
    ensures Shape(cfg, InitSys(cfg, init)) && RingInv(cfg, InitSys(cfg, init))
  {
    InitRingOk(cfg, init);
    var s := InitSys(cfg, init);
    var cs := RingCaps(s);
    assert forall e | 0 <= e < |s.caps| :: s.caps[e] != NoCap ==> e < |init| && GroupOf(s.caps[e]) == GroupOf(init[e]);
    assert forall e | 0 <= e < |s.caps| :: CapInRange(cfg, s.caps[e]) && RangeOk(s.caps[e]);
    hide InitSys, Shape;
    forall i, j | 0 <= i < j < |cs| ensures !SameGroup(cs[i], cs[j]) {
      var e, f := s.ring[i], s.ring[j];
      assert e in s.ring && f in s.ring;
      assert if e < f then !SameGroup(init[e], init[f]) else !SameGroup(init[f], init[e]);
    }
  }

  lemma FirstProcess(cfg: Config, e: nat)
    requires e < cfg.capCnt
    ensures Pid(cfg, e) == 0
  {
  }

  lemma InitOwner(cfg: Config, init: seq<Cap>, h: nat) returns (o: nat)
    requires InitCapsOk(cfg, init) && h < cfg.hartCnt
    ensures o < |InitSys(cfg, init).caps| && InitSys(cfg, init).caps[o] == WholePeriod(cfg, h)
  {
    MulMonotone(1, cfg.procCnt, cfg.capCnt);
    assert WholePeriod(cfg, h) in init;
    o :| 0 <= o < |init| && init[o] == WholePeriod(cfg, h);
    hide SameGroup, InitSchedule, InitPmp;
  }

  lemma InitTime(cfg: Config, init: seq<Cap>, e: nat)
    requires InitCapsOk(cfg, init) && e < |InitSys(cfg, init).caps| && InitSys(cfg, init).caps[e].Time?
    ensures Pid(cfg, e) == 0 && InitSys(cfg, init).caps[e].end == cfg.slotCnt
  {
    FirstProcess(cfg, e);
    hide SameGroup, InitSchedule, InitPmp, Pid;
  }

  lemma InitSlots(cfg: Config, init: seq<Cap>, h: nat, i: nat)
    requires InitCapsOk(cfg, init) && h < cfg.hartCnt && i < cfg.slotCnt
    ensures var s := InitSys(cfg, init); |s.slots| == cfg.hartCnt && |s.slots[h]| == cfg.slotCnt
    ensures var s := InitSys(cfg, init); SlotOk(cfg, s.caps, h, i, s.slots[h][i])
  {
    var s := InitSys(cfg, init);
    assert s.slots[h][i] == Slot(0, cfg.slotCnt - i);
    var o := InitOwner(cfg, init, h);
    hide Pid, InitSys;
    assert Covers(cfg, s.caps[o], h, i);
    forall e | 0 <= e < |s.caps| && Covers(cfg, s.caps[e], h, i)
      ensures Pid(cfg, e) == 0 && s.caps[e].end == cfg.slotCnt
    {
      InitTime(cfg, init, e);
    }
    hide InitCapsOk;
  }

  lemma InitRegs(cfg: Config, init: seq<Cap>, p: nat, i: nat)
    requires InitCapsOk(cfg, init) && p < cfg.procCnt && i < cfg.pmpCnt
    ensures var s := InitSys(cfg, init); |s.pmp| == cfg.procCnt && |s.pmp[p]| == cfg.pmpCnt
    ensures var s := InitSys(cfg, init); RegOk(cfg, s.caps, p, i, s.pmp[p][i])
  {
    var s := InitSys(cfg, init);
    MulMonotone(1, cfg.procCnt, cfg.capCnt);
    assert 0 / cfg.capCnt == 0;
    assert forall e: nat :: Loaded(cfg, s.caps, e, p, i) <==> e == 0 && p == 0 && i == 0;
    PmpCfgGrants(init[0].rwx, init[0].addr);
    if p == 0 && i == 0 { assert Loaded(cfg, s.caps, 0, p, i); }
  }

  lemma InitInv(cfg: Config, init: seq<Cap>)
    requires InitCapsOk(cfg, init)
    ensures MachineInv(cfg, Machine(InitSys(cfg, init), map[], {}))
  {
    InitRingInv(cfg, init);
    var s := InitSys(cfg, init);
    forall h, i | 0 <= h < cfg.hartCnt && 0 <= i < cfg.slotCnt ensures SlotOk(cfg, s.caps, h, i, s.slots[h][i]) {
      InitSlots(cfg, init, h, i);
    }
    forall p, i | 0 <= p < cfg.procCnt && 0 <= i < cfg.pmpCnt ensures RegOk(cfg, s.caps, p, i, s.pmp[p][i]) {
      InitRegs(cfg, init, p, i);
    }
    hide RingInv, InitSys, SlotOk, RegOk;
  }

  ghost function Start(cfg: Config, init: seq<Cap>): (m: Machine)
    requires InitCapsOk(cfg, init)
    ensures MachineInv(cfg, m)
  {
    InitInv(cfg, init);
    Machine(InitSys(cfg, init), map[], {})
  }

  /** The state that a run from the platform's initial capabilities reaches. */
  ghost function Reached(cfg: Config, init: seq<Cap>, actions: seq<Action>): (s: Sys)
    requires InitCapsOk(cfg, init) && IsRun(cfg, Start(cfg, init), actions)
    ensures SysInv(cfg, s)
  {
    Run(cfg, Start(cfg, init), actions).s
  }

  /** Slot i of the h-th hart is in use exactly when the free part of some time capability covers
      it, and then it belongs to that capability's holder and counts the slots left in its slice. */
  ghost predicate SlotRefines(cfg: Config, s: Sys, h: nat, i: nat)
  {
    && h < |s.slots| && i < |s.slots[h]|
    && (s.slots[h][i].length != 0 <==> exists e :: 0 <= e < |s.caps| && Covers(cfg, s.caps[e], h, i))
    && forall e {:trigger s.caps[e]} | 0 <= e < |s.caps| && Covers(cfg, s.caps[e], h, i) ::
         s.slots[h][i] == Slot(Pid(cfg, e), s.caps[e].end - i)
  }

  /** The free parts of two capabilities are disjoint, and one range lies in the handed-out part of
      the other or they are disjoint altogether. */
  predicate Nest(x: Cap, y: Cap) {
    && (EndOf(y) <= MrkOf(x) || EndOf(x) <= MrkOf(y))
    && (EndOf(y) <= BgnOf(x) || EndOf(x) <= BgnOf(y)
        || (BgnOf(x) <= BgnOf(y) && EndOf(y) <= MrkOf(x)) || (BgnOf(y) <= BgnOf(x) && EndOf(x) <= MrkOf(y)))
  }

  /** In every reachable state the schedule is what the time capabilities say. */
  lemma ScheduleRefinesCapabilities(cfg: Config, init: seq<Cap>, actions: seq<Action>, h: nat, i: nat)
    requires InitCapsOk(cfg, init) && h < cfg.hartCnt && i < cfg.slotCnt
    requires IsRun(cfg, Start(cfg, init), actions)
    ensures SlotRefines(cfg, Reached(cfg, init, actions), h, i)
  {
    var s := Reached(cfg, init, actions);
    assert SlotOk(cfg, s.caps, h, i, s.slots[h][i]);
  }

  /** In every reachable state two capabilities of one hart, or two monitor capabilities, nest. */
  lemma RangesNest(cfg: Config, init: seq<Cap>, actions: seq<Action>, e: nat, f: nat)
    requires InitCapsOk(cfg, init)
    requires IsRun(cfg, Start(cfg, init), actions)
    requires var s := Reached(cfg, init, actions);
             e < |s.caps| && f < |s.caps| && e != f && SameGroup(s.caps[e], s.caps[f])
    ensures var s := Reached(cfg, init, actions); Nest(s.caps[e], s.caps[f])
  {
    var s := Reached(cfg, init, actions);
    hide Reached;
    var k := InRing(s, e);
    var l := InRing(s, f);
    var cs := RingCaps(s);
    assert if k < l then PairOk(cs[k], cs[l]) else PairOk(cs[l], cs[k]);
  }

  /** In every reachable state at most one monitor capability answers for a process. */
  lemma OneMonitorPerProcess(cfg: Config, init: seq<Cap>, actions: seq<Action>, m1: nat, m2: nat, pid: nat,
                             suspended: set<nat>)
    requires InitCapsOk(cfg, init)
    requires IsRun(cfg, Start(cfg, init), actions)
    requires var s := Reached(cfg, init, actions); m1 < |s.caps| && m2 < |s.caps|
    requires var s := Reached(cfg, init, actions);
             CheckMonitor(s, m1, pid, suspended) != ErrInvalidMonitor
             && CheckMonitor(s, m2, pid, suspended) != ErrInvalidMonitor
    ensures m1 == m2
  {
    if m1 != m2 { RangesNest(cfg, init, actions, m1, m2); }
  }

  /** In every reachable state a PMP register is configured exactly when one loaded capability of
      its process names it, and it then has that capability's permissions and address. */
  lemma RegistersAgree(cfg: Config, init: seq<Cap>, actions: seq<Action>, pid: nat, slot: nat)
    requires InitCapsOk(cfg, init) && pid < cfg.procCnt && slot < cfg.pmpCnt
    requires IsRun(cfg, Start(cfg, init), actions)
    ensures var s := Reached(cfg, init, actions);
            && |s.pmp| == cfg.procCnt && |s.pmp[pid]| == cfg.pmpCnt
            && RegOk(cfg, s.caps, pid, slot, s.pmp[pid][slot])
            && (s.pmp[pid][slot].cfg != 0 <==> exists e: nat :: Loaded(cfg, s.caps, e, pid, slot))
  {
    var s := Reached(cfg, init, actions);
    assert RegOk(cfg, s.caps, pid, slot, s.pmp[pid][slot]);
    if e: nat :| Loaded(cfg, s.caps, e, pid, slot) {
      GrantsSomething(s.pmp[pid][slot], s.caps[e].rwx, s.caps[e].addr);
    }
  }

  lemma ResetLeavesOthers(cfg: Config, s: Sys, e: nat, f: nat, h: nat, i: nat)
    requires Shape(cfg, s) && RingInv(cfg, s) && e < |s.caps| && NoDescendants(s, e)
    requires f < |s.caps| && f != e && h < cfg.hartCnt && i < cfg.slotCnt && Covers(cfg, s.caps[f], h, i)
    ensures var s' := Reset(cfg, s, e).s; |s'.slots| == |s.slots| && |s'.slots[h]| == |s.slots[h]|
    ensures Reset(cfg, s, e).s.slots[h][i] == s.slots[h][i]
  {
    var c := s.caps[e];
    if c.Time? {
      SchedUpdateAt(cfg, s.slots, Pid(cfg, e), c.end, c.hart, c.bgn, c.mrk, h, i);
      OwnerInRange(cfg, s, e);
      if SameGroup(c, s.caps[f]) { ResetRegion(cfg, s, e, f); }
    }
    hide SchedUpdate, RingInv, Shape, NoDescendants, Pid;
  }

  /** The reset that ends pid's revocation would leave slot i of the h-th hart alone. */
  ghost predicate ResetSpares(cfg: Config, m: Machine, pid: nat, h: nat, i: nat)
    requires MachineInv(cfg, m) && Allowed(cfg, m, DoReset(pid))
  {
    var s, s' := m.s, Exec(cfg, m, DoReset(pid)).s;
    h < |s.slots| == |s'.slots| && i < |s.slots[h]| == |s'.slots[h]| && s'.slots[h][i] == s.slots[h][i]
  }

  lemma ResetSparesOthers(cfg: Config, m: Machine, pid: nat, f: nat, h: nat, i: nat)
    requires MachineInv(cfg, m) && Allowed(cfg, m, DoReset(pid)) && f < |m.s.caps| && f != m.revoking[pid].entry
    requires h < cfg.hartCnt && i < cfg.slotCnt && Covers(cfg, m.s.caps[f], h, i)
    ensures ResetSpares(cfg, m, pid, h, i)
  {
    assert RevocationOk(cfg, m.s, pid, m.revoking[pid]);
    ResetLeavesOthers(cfg, m.s, m.revoking[pid].entry, f, h, i);
    hide Reset, RingInv, ScheduleInv, PmpInv, NoDescendants, Covers;
  }

  /** However other processes' steps interleave with a revocation, its final reset never changes
      a slot that another capability's free part covers. */
  lemma ResetClaimsNothing(cfg: Config, m: Machine, actions: seq<Action>, pid: nat, f: nat, h: nat, i: nat)
    requires MachineInv(cfg, m) && IsRun(cfg, m, actions)
    requires var m' := Run(cfg, m, actions);
             Allowed(cfg, m', DoReset(pid)) && f < |m'.s.caps| && f != m'.revoking[pid].entry
             && h < cfg.hartCnt && i < cfg.slotCnt && Covers(cfg, m'.s.caps[f], h, i)
    ensures ResetSpares(cfg, Run(cfg, m, actions), pid, h, i)
  {
    var m' := Run(cfg, m, actions);
    hide *;
    ResetSparesOthers(cfg, m', pid, f, h, i);
  }
}
