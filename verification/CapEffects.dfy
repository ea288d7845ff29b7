/** When a capability operation succeeds and what it does to the capabilities, kind by kind, said of
    the slots, blocks, processes, channels and permissions themselves. */
module CapEffects {
  import opened CapTypes
  import opened CapTable
  import opened CapSystem
  import opened CapInvariant
  import opened CapPmp

  // ---------------------------------------------------------------- address regions

  /** The four-byte word lies in the region of a NAPOT address register (RISC-V privileged
      architecture, section 3.7.1): they agree in all bits above the register's lowest zero. */
  predicate InRegion(addr: nat, word: nat) {
    if addr % 2 == 0 then word / 2 == addr / 2 else InRegion(addr / 2, word / 2)
  }

  lemma {:induction false} WordsOfRegion(addr: nat, word: nat)
    ensures InRegion(addr, word) <==>
              addr - LowOnes(addr) / 2 <= word <= addr - LowOnes(addr) / 2 + LowOnes(addr)
  {
    if addr % 2 == 1 {
      WordsOfRegion(addr / 2, word / 2);
      assert LowOnes(addr) == 2 * LowOnes(addr / 2) + 1;
    }
  }

  /** pmp_napot_decode gives the region's first byte and its size. */
  lemma RegionIs(addr: Napot, x: nat)
    ensures InRegion(addr, x / 4) <==> NapotBase(addr) <= x < NapotBase(addr) + NapotSize(addr)
  {
    WordsOfRegion(addr, x / 4);
  }

  /** The recursion of LowOnes is that of addr ^ (addr + 1) in 64 bits. */
  lemma LowOnesBits(x: bv64)
    ensures x & 1 == 0 ==> x ^ (x + 1) == 1
    ensures x & 1 == 1 && x >> 48 == 0 ==> x ^ (x + 1) == (((x >> 1) ^ ((x >> 1) + 1)) << 1) | 1
  {
  }

  // ---------------------------------------------------------------- derivation

  /** Slot, block, process or channel i lies in the range of c. */
  predicate Holds(c: Cap, i: nat) {
    Ranged(c) && c.bgn <= i < c.end
  }

  /** And it has not been handed out. */
  predicate Free(c: Cap, i: nat) {
    Ranged(c) && c.mrk <= i < c.end
  }

  /** Byte address x lies in a free block of memory capability p. */
  predicate FreeByte(p: Cap, x: nat) {
    p.Memory? && p.tag * 0x800_0000 + p.mrk * 0x1000 <= x < p.tag * 0x800_0000 + p.end * 0x1000
  }

  /** Every permission of a is one of b. */
  predicate NoMore(a: bv3, b: bv3) {
    && (a & 1 != 0 ==> b & 1 != 0)
    && (a & 2 != 0 ==> b & 2 != 0)
    && (a & 4 != 0 ==> b & 4 != 0)
  }

  /** A capability as it is asked for: nothing handed out or loaded, no unknown permission or mode. */
  predicate Fresh(c: Cap) {
    match c
    case NoCap => false
    case Pmp(_, used, slot, _) => !used && slot == 0
    case Socket(mode, perm, _, _) => mode & 0xe == 0 && perm & 0xf0 == 0
    case _ => c.mrk == c.bgn < c.end
  }

  /** c is a part of what p has not handed out, with no more permissions. */
  ghost predicate PartOf(p: Cap, c: Cap) {
    match p
    case Time(hart, _, _, _) =>
      c.Time? && c.hart == hart && c.bgn == p.mrk && forall i: nat | Holds(c, i) :: Free(p, i)
    case Memory(rwx, _, tag, _, _, _) =>
      if c.Pmp? then NoMore(c.rwx, rwx) && forall x: nat | InRegion(c.addr, x / 4) :: FreeByte(p, x)
      else c.Memory? && c.tag == tag && NoMore(c.rwx, rwx) && forall i: nat | Holds(c, i) :: Free(p, i)
    case Monitor(_, _, _) => c.Monitor? && forall i: nat | Holds(c, i) :: Free(p, i)
    case Channel(_, _, _) =>
      if c.Socket? then c.tag == 0 && Free(p, c.chan)
      else c.Channel? && forall i: nat | Holds(c, i) :: Free(p, i)
    case Socket(mode, perm, chan, tag) =>
      tag == 0 && c.Socket? && c.tag != 0 && c.chan == chan && c.mode == mode && c.perm == perm
    case _ => false
  }

  lemma PermissionBits(a: bv3, b: bv3)
    ensures RwxSubset(a, b) <==> NoMore(a, b)
  {
  }

  lemma FreshIs(c: Cap)
    ensures IsValid(c) <==> Fresh(c)
  {
  }

  /** A range lies in the free part exactly when its ends do. */
  lemma RangeFits(p: Cap, c: Cap)
    requires Ranged(p) && Ranged(c) && c.bgn < c.end
    ensures (forall i: nat | Holds(c, i) :: Free(p, i)) <==> p.mrk <= c.bgn && c.end <= p.end
  {
    if forall i: nat | Holds(c, i) :: Free(p, i) {
      assert Holds(c, c.bgn) && Holds(c, c.end - 1);
    }
  }

  lemma RegionFits(p: Cap, addr: Napot)
    requires p.Memory?
    ensures (forall x: nat | InRegion(addr, x / 4) :: FreeByte(p, x)) <==>
              TagBlockToAddr(p.tag, p.mrk) <= NapotBase(addr)
              && NapotBase(addr) + NapotSize(addr) <= TagBlockToAddr(p.tag, p.end)
  {
    var lo, n := NapotBase(addr), NapotSize(addr);
    RegionIs(addr, lo);
    RegionIs(addr, lo + n - 1);
    if forall x: nat | InRegion(addr, x / 4) :: FreeByte(p, x) {
      assert FreeByte(p, lo) && FreeByte(p, lo + n - 1);
    }
    forall x: nat | InRegion(addr, x / 4) ensures lo <= x < lo + n {
      RegionIs(addr, x);
    }
    hide InRegion, NapotBase, NapotSize;
  }

  lemma PartIs(p: Cap, c: Cap)
    requires Fresh(c)
    ensures IsDerivable(p, c) <==> PartOf(p, c)
  {
    if Ranged(p) && Ranged(c) { RangeFits(p, c); }
    if p.Memory? && c.Pmp? { RegionFits(p, c.addr); }
    if (p.Memory? || p.Pmp?) && (c.Memory? || c.Pmp?) { PermissionBits(c.rwx, p.rwx); }
    hide InRegion, NapotBase, NapotSize, Holds, Free, FreeByte, NoMore, RwxSubset, TagBlockToAddr;
  }

  /** What is left of p when c has been derived from it: the same range and permissions; free is what
      was free behind c.  A PMP capability takes no blocks but locks the memory capability, and a
      client's socket takes nothing. */
  ghost predicate LeftOf(p: Cap, p': Cap, c: Cap) {
    && SameRights(p, p')
    && (c.Pmp? ==> p'.Memory? && p'.lck)
    && (p.Memory? && p'.Memory? && !c.Pmp? ==> p'.lck == p.lck)
    && forall i: nat :: Free(p', i) <==> Free(p, i) && !Takes(c, i)
  }

  /** The derivation of c uses up i. */
  predicate Takes(c: Cap, i: nat) {
    match c
    case Pmp(_, _, _, _) => false
    case Socket(_, _, chan, tag) => tag == 0 && i <= chan
    case NoCap => false
    case _ => i < c.end
  }

  /** The same kind, range, permissions and, of a socket, mode and tag. */
  predicate SameRights(p: Cap, q: Cap) {
    match p
    case NoCap => q.NoCap?
    case Time(hart, bgn, _, end) => q.Time? && q.hart == hart && q.bgn == bgn && q.end == end
    case Memory(rwx, _, tag, bgn, _, end) => q.Memory? && q.rwx == rwx && q.tag == tag && q.bgn == bgn && q.end == end
    case Pmp(rwx, _, _, addr) => q.Pmp? && q.rwx == rwx && q.addr == addr
    case Monitor(bgn, _, end) => q.Monitor? && q.bgn == bgn && q.end == end
    case Channel(bgn, _, end) => q.Channel? && q.bgn == bgn && q.end == end
    case Socket(_, _, _, _) => q == p
  }

  lemma ParentLeft(p: Cap, c: Cap)
    requires Fresh(c) && IsDerivable(p, c)
    ensures LeftOf(p, Parent(p, c), c) && SameRights(p, Parent(p, c))
  {
    hide NapotBase, NapotSize, RwxSubset, TagBlockToAddr;
  }

  /** All entries but e and f are as before. */
  ghost predicate OthersSame(s: Sys, s': Sys, e: nat, f: nat) {
    && |s'.caps| == |s.caps|
    && forall g {:trigger s'.caps[g]} | 0 <= g < |s.caps| && g != e && g != f :: s'.caps[g] == s.caps[g]
  }

  /** cap_derive succeeds exactly when the source is there, the destination is free and the new
      capability is a fresh part of what the source has not handed out, with no more permissions.
      Then the destination holds it and the source keeps what is left. */
  lemma DeriveExactly(cfg: Config, s: Sys, src: nat, dst: nat, ncap: Cap)
    requires EntryOk(cfg, s, src) && EntryOk(cfg, s, dst)
    ensures var r, p := Derive(cfg, s, src, dst, ncap), s.caps[src];
            && (r.err == Success <==> Fresh(ncap) && p != NoCap && s.caps[dst] == NoCap && PartOf(p, ncap))
            && (r.err == ErrSrcEmpty <==> Fresh(ncap) && p == NoCap)
            && (r.err == ErrDstOccupied <==> Fresh(ncap) && p != NoCap && s.caps[dst] != NoCap)
            && (r.err != Success ==> r.s == s)
            && (r.err == Success ==>
                  && OthersSame(s, r.s, src, dst) && src != dst && r.s.caps[dst] == ncap
                  && LeftOf(p, r.s.caps[src], ncap) && SameRights(p, r.s.caps[src]))
  {
    var p := s.caps[src];
    FreshIs(ncap);
    if Fresh(ncap) {
      PartIs(p, ncap);
      if IsDerivable(p, ncap) { ParentLeft(p, ncap); }
    }
    hide Fresh, IsValid, PartOf, IsDerivable, LeftOf, SameRights, Parent, RingOk, SchedUpdate, InsertAfter;
  }

  // ---------------------------------------------------------------- moving and deleting

  /** A moved capability is the same, but a loaded PMP capability is unloaded when it leaves its process. */
  predicate MovedAs(c: Cap, c': Cap, leaves: bool) {
    if leaves && c.Pmp? && c.used then SameRights(c, c') && !c'.used && c'.slot == 0 else c' == c
  }

  /** cap_move succeeds exactly when there is something to move and a free entry for it. */
  lemma MoveExactly(cfg: Config, s: Sys, src: nat, dst: nat)
    requires EntryOk(cfg, s, src) && EntryOk(cfg, s, dst)
    ensures var r := Move(cfg, s, src, dst);
            && (r.err == Success <==> s.caps[src] != NoCap && s.caps[dst] == NoCap)
            && (r.err == ErrSrcEmpty <==> s.caps[src] == NoCap)
            && (r.err == Success || r.err == ErrSrcEmpty || r.err == ErrDstOccupied)
            && (r.err != Success ==> r.s == s)
            && (r.err == Success ==>
                  && OthersSame(s, r.s, src, dst) && src != dst && r.s.caps[src] == NoCap
                  && MovedAs(s.caps[src], r.s.caps[dst], src / cfg.capCnt != dst / cfg.capCnt))
  {
    hide RingOk, SchedUpdate, PmpUnset, Replace;
  }

  lemma DeleteExactly(cfg: Config, s: Sys, e: nat)
    requires EntryOk(cfg, s, e)
    ensures var r := Delete(cfg, s, e);
            && (if s.caps[e] == NoCap then r.err == ErrEmpty && r.s == s else r.err == Success)
            && OthersSame(s, r.s, e, e) && r.s.caps[e] == NoCap
  {
    hide RingOk, SchedDelete, PmpUnset, Without;
  }

  // ---------------------------------------------------------------- revocation

  /** What a step of a revocation leaves of parent p when it deletes c. */
  predicate TakenBack(p: Cap, p': Cap, c: Cap) {
    && SameRights(p, p')
    && (Ranged(p) ==> p'.mrk == if Ranged(c) then c.mrk else p.mrk)
    && (p.Memory? ==> p'.lck == if c.Memory? then c.lck else p.lck)
  }

  lemma ReclaimedIs(p: Cap, c: Cap)
    requires RevokeTest(p, c) == Success
    ensures TakenBack(p, Reclaimed(p, c), c) && !p.Pmp? && p != NoCap
  {
    hide NapotSize, TagBlockToAddr;
  }

  /** A step of a revocation deletes exactly the next ring member, with the parent's free part
      extended by the child's, or changes nothing. */
  lemma RevokeEffect(cfg: Config, s: Sys, e: nat)
    requires EntryOk(cfg, s, e)
    ensures var r := RevokeStep(cfg, s, e); r.err != Success ==> r.s == s
    ensures RevokeStep(cfg, s, e).err == Success ==> e in s.ring
    ensures RevokeStep(cfg, s, e).err == Success ==>
              var r, child := RevokeStep(cfg, s, e), NextOf(s.ring, e);
              && child < |s.caps| && OthersSame(s, r.s, e, child) && (child != e ==> r.s.caps[child] == NoCap)
              && TakenBack(s.caps[e], r.s.caps[e], s.caps[child])
  {
    if RevokeStep(cfg, s, e).err == Success { ReclaimedIs(s.caps[e], s.caps[NextOf(s.ring, e)]); }
    hide SchedUpdate, PmpUnset, Without, NextOf, RevokeTest, Reclaimed, TakenBack;
  }

  /** cap_reset makes the whole range free again, unlocked; it does nothing to the other kinds. */
  lemma ResetEffect(cfg: Config, s: Sys, e: nat)
    requires EntryOk(cfg, s, e)
    ensures var r, c := Reset(cfg, s, e), s.caps[e];
            && (if c == NoCap then r.err == ErrEmpty && r.s == s else r.err == Success)
            && OthersSame(s, r.s, e, e) && SameRights(c, r.s.caps[e]) && r.s.ring == s.ring
            && (forall i: nat :: Free(r.s.caps[e], i) <==> Holds(c, i))
            && (c.Memory? ==> !r.s.caps[e].lck) && (!Ranged(c) ==> r.s.caps[e] == c)
  {
    hide RingOk, SchedUpdate;
  }

  // ---------------------------------------------------------------- PMP registers

  /** All registers but number i of process p are as before. */
  ghost predicate OtherRegs(s: Sys, s': Sys, p: nat, i: nat) {
    && |s'.pmp| == |s.pmp|
    && forall q {:trigger s'.pmp[q]} | 0 <= q < |s.pmp| ::
         && |s'.pmp[q]| == |s.pmp[q]|
         && forall j | 0 <= j < |s.pmp[q]| && (q != p || j != i) :: s'.pmp[q][j] == s.pmp[q][j]
  }

  /** cap_pmp_load succeeds exactly for a PMP capability that is not loaded and a free register, which
      then grants what the capability grants. */
  lemma LoadExactly(cfg: Config, s: Sys, e: nat, slot: nat)
    requires EntryOk(cfg, s, e) && Pid(cfg, e) < |s.pmp| && slot < |s.pmp[Pid(cfg, e)]|
    ensures var r, c, p := PmpLoad(cfg, s, e, slot), s.caps[e], e / cfg.capCnt;
            && (r.err == Success <==> c.Pmp? && !c.used && s.pmp[p][slot].cfg == 0)
            && (r.err == ErrEmpty <==> c == NoCap)
            && (r.err == ErrDstOccupied <==> c.Pmp? && !c.used && s.pmp[p][slot].cfg != 0)
            && (r.err != Success ==> r.s == s)
            && (r.err == Success ==>
                  && OthersSame(s, r.s, e, e) && SameRights(c, r.s.caps[e])
                  && r.s.caps[e].used && r.s.caps[e].slot == slot
                  && OtherRegs(s, r.s, p, slot) && Grants(r.s.pmp[p][slot], c.rwx, c.addr))
  {
    if s.caps[e].Pmp? { PmpCfgGrants(s.caps[e].rwx, s.caps[e].addr); }
    hide RingOk, PmpCfg, Grants;
  }

  /** cap_pmp_unload succeeds exactly for a loaded PMP capability, whose register is then free. */
  lemma UnloadExactly(cfg: Config, s: Sys, e: nat)
    requires EntryOk(cfg, s, e)
    ensures var r, c, p := PmpUnload(cfg, s, e), s.caps[e], e / cfg.capCnt;
            && (r.err == Success <==> c.Pmp? && c.used)
            && (r.err == ErrEmpty <==> c == NoCap)
            && (r.err != Success ==> r.s == s)
            && (r.err == Success ==>
                  && OthersSame(s, r.s, e, e) && SameRights(c, r.s.caps[e])
                  && !r.s.caps[e].used && r.s.caps[e].slot == 0 && OtherRegs(s, r.s, p, c.slot)
                  && (p < |s.pmp| && c.slot < |s.pmp[p]| ==> r.s.pmp[p][c.slot].cfg == 0))
  {
    hide RingOk;
  }

  // ---------------------------------------------------------------- monitors

  /** The capability in entry mon lets its holder act on process pid, which has to be suspended. */
  predicate Commands(s: Sys, mon: nat, pid: nat, suspended: set<nat>)
    requires mon < |s.caps|
  {
    s.caps[mon].Monitor? && Free(s.caps[mon], pid) && pid in suspended
  }

  /** The operations on behalf of other processes are those operations, for the processes that the
      monitor commands; a move is also allowed from and to its own process. */
  lemma MonitorExactly(cfg: Config, s: Sys, mon: nat, src: nat, dst: nat, suspended: set<nat>)
    requires EntryOk(cfg, s, mon) && EntryOk(cfg, s, src) && EntryOk(cfg, s, dst)
    ensures var r, m, p, q := MonitorMove(cfg, s, mon, src, dst, suspended),
                              mon / cfg.capCnt, src / cfg.capCnt, dst / cfg.capCnt;
            && (r.err == Success ==>
                  (p == m || Commands(s, mon, p, suspended)) && (q == m || Commands(s, mon, q, suspended)))
            && (if (p == m || Commands(s, mon, p, suspended)) && (q == m || Commands(s, mon, q, suspended))
                then r == Move(cfg, s, src, dst) else r.s == s && r.err in {ErrInvalidMonitor, ErrInvalidState})
  {
    hide Move, RingOk;
  }

  lemma MonitorPmpExactly(cfg: Config, s: Sys, mon: nat, e: nat, slot: nat, suspended: set<nat>)
    requires EntryOk(cfg, s, mon) && EntryOk(cfg, s, e)
    requires Pid(cfg, e) < |s.pmp| && slot < |s.pmp[Pid(cfg, e)]|
    ensures var r, u := MonitorPmpLoad(cfg, s, mon, e, slot, suspended), MonitorPmpUnload(cfg, s, mon, e, suspended);
            if Commands(s, mon, e / cfg.capCnt, suspended)
            then r == PmpLoad(cfg, s, e, slot) && u == PmpUnload(cfg, s, e)
            else r.s == u.s == s && r.err == u.err
                 && r.err == if s.caps[mon].Monitor? && Free(s.caps[mon], e / cfg.capCnt) then ErrInvalidState
                             else ErrInvalidMonitor
  {
    hide PmpLoad, PmpUnload, RingOk;
  }
}
