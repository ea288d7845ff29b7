/** The PMP registers of every process agree with the PMP capabilities it has loaded. */
module CapPmp {
  import opened CapTypes
  import opened CapTable
  import opened CapSystem
  import opened CapInvariant

  /** Entry e holds a PMP capability that process `pid` has loaded in register `slot`. */
  predicate Loaded(cfg: Config, caps: seq<Cap>, e: nat, pid: nat, slot: nat)
  {
    e < |caps| && caps[e].Pmp? && caps[e].used && Pid(cfg, e) == pid && caps[e].slot == slot
  }

  /** A register with a capability's address and permissions: bits 0 to 2 of its configuration allow
      reading, writing and executing, bits 3 and 4 say that the address is a power-of-two region, and
      the other bits, the lock among them, are zero (pmpcfg in the RISC-V privileged architecture,
      section 3.7.1). */
  predicate Grants(reg: PmpReg, rwx: bv3, addr: Napot) {
    && reg.addr == addr
    && (reg.cfg & 1 != 0 <==> rwx & 1 != 0)
    && (reg.cfg & 2 != 0 <==> rwx & 2 != 0)
    && (reg.cfg & 4 != 0 <==> rwx & 4 != 0)
    && reg.cfg & 0x18 == 0x18 && reg.cfg & 0xe0 == 0
  }

  /** A register is configured exactly when one capability is loaded in it, and then it has that
      capability's address and permissions. */
  ghost predicate RegOk(cfg: Config, caps: seq<Cap>, pid: nat, slot: nat, reg: PmpReg)
  {
    && (forall e: nat {:trigger Loaded(cfg, caps, e, pid, slot)} | Loaded(cfg, caps, e, pid, slot) ::
          Grants(reg, caps[e].rwx, caps[e].addr))
    && (forall e: nat, f: nat {:trigger Loaded(cfg, caps, e, pid, slot), Loaded(cfg, caps, f, pid, slot)} |
          Loaded(cfg, caps, e, pid, slot) && Loaded(cfg, caps, f, pid, slot) :: e == f)
    && (reg.cfg != 0 ==> exists e: nat :: Loaded(cfg, caps, e, pid, slot))
  }

  ghost predicate PmpInv(cfg: Config, s: Sys)
    requires Shape(cfg, s)
  {
    forall p, i {:trigger s.pmp[p][i]} | 0 <= p < cfg.procCnt && 0 <= i < cfg.pmpCnt ::
      RegOk(cfg, s.caps, p, i, s.pmp[p][i])
  }

  lemma PmpCfgGrants(rwx: bv3, addr: Napot)
    ensures Grants(PmpReg(PmpCfg(rwx), addr), rwx, addr)
  {
  }

  lemma GrantsSomething(reg: PmpReg, rwx: bv3, addr: Napot)
    requires Grants(reg, rwx, addr)
    ensures reg.cfg != 0
  {
  }

  /** A register whose loaded capabilities did not change stays correct. */
  lemma RegUntouched(cfg: Config, caps: seq<Cap>, caps': seq<Cap>, p: nat, i: nat, reg: PmpReg)
    requires |caps'| == |caps| && RegOk(cfg, caps, p, i, reg)
    requires forall e: nat {:trigger Loaded(cfg, caps, e, p, i)} {:trigger Loaded(cfg, caps', e, p, i)} ::
               && (Loaded(cfg, caps, e, p, i) <==> Loaded(cfg, caps', e, p, i))
               && (Loaded(cfg, caps, e, p, i) ==> caps'[e] == caps[e])
    ensures RegOk(cfg, caps', p, i, reg)
  {
    if reg.cfg != 0 {
      var e: nat :| Loaded(cfg, caps, e, p, i);
      assert Loaded(cfg, caps', e, p, i);
    }
  }

  /** Clearing the register of an entry that gives up its loading keeps everything correct. */
  lemma Unloading(cfg: Config, s: Sys, s': Sys, e: nat)
    requires Shape(cfg, s) && Shape(cfg, s') && PmpInv(cfg, s) && e < |s.caps|
    requires s.caps[e].Pmp? && s.caps[e].used && s'.pmp == PmpUnset(s.pmp, Pid(cfg, e), s.caps[e].slot)
    requires !(s'.caps[e].Pmp? && s'.caps[e].used)
    requires forall g {:trigger s.caps[g]} {:trigger s'.caps[g]} | 0 <= g < |s.caps| && g != e ::
               s'.caps[g] == s.caps[g] || (Unloaded(s'.caps[g]) && Unloaded(s.caps[g]))
    ensures PmpInv(cfg, s')
  {
    forall p, i | 0 <= p < cfg.procCnt && 0 <= i < cfg.pmpCnt ensures RegOk(cfg, s'.caps, p, i, s'.pmp[p][i]) {
      assert RegOk(cfg, s.caps, p, i, s.pmp[p][i]);
      if p == Pid(cfg, e) && i == s.caps[e].slot {
        assert Loaded(cfg, s.caps, e, p, i);
        assert forall g: nat :: Loaded(cfg, s'.caps, g, p, i) ==> Loaded(cfg, s.caps, g, p, i);
      } else {
        RegUntouched(cfg, s.caps, s'.caps, p, i, s.pmp[p][i]);
      }
    }
  }

  predicate Unloaded(c: Cap) {
    !c.Pmp? || !c.used
  }

  /** Changes that touch no loaded capability and no register keep everything correct. */
  lemma PmpUntouched(cfg: Config, s: Sys, s': Sys)
    requires Shape(cfg, s) && Shape(cfg, s') && PmpInv(cfg, s) && s'.pmp == s.pmp
    requires forall g {:trigger s.caps[g]} {:trigger s'.caps[g]} | 0 <= g < |s.caps| ::
               s'.caps[g] == s.caps[g] || (Unloaded(s'.caps[g]) && Unloaded(s.caps[g]))
    ensures PmpInv(cfg, s')
  {
    forall p, i | 0 <= p < cfg.procCnt && 0 <= i < cfg.pmpCnt ensures RegOk(cfg, s'.caps, p, i, s'.pmp[p][i]) {
      assert RegOk(cfg, s.caps, p, i, s.pmp[p][i]);
      RegUntouched(cfg, s.caps, s'.caps, p, i, s.pmp[p][i]);
    }
  }

  /** Moving a loaded capability inside its process keeps it loaded in the same register. */
  lemma MoveLoaded(cfg: Config, s: Sys, s': Sys, src: nat, dst: nat)
    requires Shape(cfg, s) && Shape(cfg, s') && PmpInv(cfg, s) && s'.pmp == s.pmp
    requires src < |s.caps| && dst < |s.caps| && src != dst && s.caps[dst] == NoCap && Pid(cfg, src) == Pid(cfg, dst)
    requires s'.caps == s.caps[dst := s.caps[src]][src := NoCap]
    ensures PmpInv(cfg, s')
  {
    forall p, i | 0 <= p < cfg.procCnt && 0 <= i < cfg.pmpCnt ensures RegOk(cfg, s'.caps, p, i, s'.pmp[p][i]) {
      var reg := s.pmp[p][i];
      assert RegOk(cfg, s.caps, p, i, reg);
      assert forall g: nat :: Loaded(cfg, s'.caps, g, p, i) <==>
               (if g == dst then Loaded(cfg, s.caps, src, p, i) else g != src && Loaded(cfg, s.caps, g, p, i));
      if reg.cfg != 0 {
        var e: nat :| Loaded(cfg, s.caps, e, p, i);
        assert Loaded(cfg, s'.caps, if e == src then dst else e, p, i);
      }
    }
  }

  lemma DeriveKeepsPmp(cfg: Config, s: Sys, src: nat, dst: nat, ncap: Cap)
    requires Shape(cfg, s) && RingInv(cfg, s) && PmpInv(cfg, s) && src < |s.caps| && dst < |s.caps|
    ensures var s' := Derive(cfg, s, src, dst, ncap).s; Shape(cfg, s') && PmpInv(cfg, s')
  {
    hide SchedUpdate;
    if Derive(cfg, s, src, dst, ncap).err == Success {
      PmpUntouched(cfg, s, Derive(cfg, s, src, dst, ncap).s);
    }
  }

  lemma MoveKeepsPmp(cfg: Config, s: Sys, src: nat, dst: nat)
    requires Shape(cfg, s) && RingInv(cfg, s) && PmpInv(cfg, s) && src < |s.caps| && dst < |s.caps|
    ensures var s' := Move(cfg, s, src, dst).s; Shape(cfg, s') && PmpInv(cfg, s')
  {
    hide SchedUpdate, Nested, DistinctEntries;
    var s' := Move(cfg, s, src, dst).s;
    if Move(cfg, s, src, dst).err == Success {
      if Unloaded(s.caps[src]) {
        PmpUntouched(cfg, s, s');
      } else if Pid(cfg, src) == Pid(cfg, dst) {
        MoveLoaded(cfg, s, s', src, dst);
      } else {
        Unloading(cfg, s, s', src);
      }
    }
  }

  lemma DeleteKeepsPmp(cfg: Config, s: Sys, e: nat)
    requires Shape(cfg, s) && RingInv(cfg, s) && PmpInv(cfg, s) && e < |s.caps|
    ensures var s' := Delete(cfg, s, e).s; Shape(cfg, s') && PmpInv(cfg, s')
  {
    hide SchedDelete, Nested, DistinctEntries;
    var s' := Delete(cfg, s, e).s;
    if Delete(cfg, s, e).err == Success {
      if Unloaded(s.caps[e]) { PmpUntouched(cfg, s, s'); } else { Unloading(cfg, s, s', e); }
    }
  }

  lemma ReclaimedUnloaded(p: Cap, c: Cap)
    requires RevokeTest(p, c) == Success
    ensures Unloaded(p) && Unloaded(Reclaimed(p, c))
  {
  }

  lemma RevokeKeepsPmp(cfg: Config, s: Sys, e: nat)
    requires Shape(cfg, s) && RingInv(cfg, s) && PmpInv(cfg, s) && e < |s.caps|
    ensures var s' := RevokeStep(cfg, s, e).s; Shape(cfg, s') && PmpInv(cfg, s')
  {
    hide SchedUpdate, Nested, DistinctEntries, CapInRange, RevokeTest, Reclaimed;
    var s' := RevokeStep(cfg, s, e).s;
    if RevokeStep(cfg, s, e).err == Success {
      var child := NextOf(s.ring, e);
      ReclaimedUnloaded(s.caps[e], s.caps[child]);
      if Unloaded(s.caps[child]) { PmpUntouched(cfg, s, s'); } else { Unloading(cfg, s, s', child); }
    }
  }

  lemma ResetKeepsPmp(cfg: Config, s: Sys, e: nat)
    requires Shape(cfg, s) && RingInv(cfg, s) && PmpInv(cfg, s) && e < |s.caps|
    ensures var s' := Reset(cfg, s, e).s; Shape(cfg, s') && PmpInv(cfg, s')
  {
    hide SchedUpdate, Nested, DistinctEntries;
    PmpUntouched(cfg, s, Reset(cfg, s, e).s);
  }

  lemma UnloadKeepsPmp(cfg: Config, s: Sys, e: nat)
    requires Shape(cfg, s) && RingInv(cfg, s) && PmpInv(cfg, s) && e < |s.caps|
    ensures var s' := PmpUnload(cfg, s, e).s; Shape(cfg, s') && PmpInv(cfg, s')
  {
    hide Nested, DistinctEntries;
    if PmpUnload(cfg, s, e).err == Success {
      Unloading(cfg, s, PmpUnload(cfg, s, e).s, e);
    }
  }

  /** A free register has no capability loaded in it, so loading makes the new one the only one. */
  lemma LoadKeepsPmp(cfg: Config, s: Sys, e: nat, slot: nat)
    requires Shape(cfg, s) && RingInv(cfg, s) && PmpInv(cfg, s) && e < |s.caps|
    requires Pid(cfg, e) < |s.pmp| && slot < cfg.pmpCnt
    ensures var s' := PmpLoad(cfg, s, e, slot).s; Shape(cfg, s') && PmpInv(cfg, s')
  {
    hide Nested, DistinctEntries;
    var s' := PmpLoad(cfg, s, e, slot).s;
    if PmpLoad(cfg, s, e, slot).err == Success {
      forall p, i | 0 <= p < cfg.procCnt && 0 <= i < cfg.pmpCnt ensures RegOk(cfg, s'.caps, p, i, s'.pmp[p][i]) {
        LoadedReg(cfg, s, e, slot, p, i);
      }
    }
  }

  lemma FreeRegister(cfg: Config, caps: seq<Cap>, p: nat, i: nat, reg: PmpReg, g: nat)
    requires RegOk(cfg, caps, p, i, reg) && reg.cfg == 0
    ensures !Loaded(cfg, caps, g, p, i)
  {
    if Loaded(cfg, caps, g, p, i) { GrantsSomething(reg, caps[g].rwx, caps[g].addr); }
    hide Grants;
  }

  lemma LoadedReg(cfg: Config, s: Sys, e: nat, slot: nat, p: nat, i: nat)
    requires Shape(cfg, s) && EntryOk(cfg, s, e) && PmpInv(cfg, s)
    requires Pid(cfg, e) < |s.pmp| && slot < cfg.pmpCnt && p < cfg.procCnt && i < cfg.pmpCnt
    requires PmpLoad(cfg, s, e, slot).err == Success
    ensures var s' := PmpLoad(cfg, s, e, slot).s; RegOk(cfg, s'.caps, p, i, s'.pmp[p][i])
  {
    hide PmpCfg, Grants, RingOk;
    var s', reg := PmpLoad(cfg, s, e, slot).s, s.pmp[p][i];
    assert RegOk(cfg, s.caps, p, i, reg);
    if p == Pid(cfg, e) && i == slot {
      forall g: nat ensures Loaded(cfg, s'.caps, g, p, i) <==> g == e {
        FreeRegister(cfg, s.caps, p, i, reg, g);
      }
      assert Loaded(cfg, s'.caps, e, p, i);
      PmpCfgGrants(s.caps[e].rwx, s.caps[e].addr);
      assert s'.pmp[p][i] == PmpReg(PmpCfg(s.caps[e].rwx), s.caps[e].addr);
    } else {
      hide PmpInv;
      RegUntouched(cfg, s.caps, s'.caps, p, i, reg);
    }
  }
}
