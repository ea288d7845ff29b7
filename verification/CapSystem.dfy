/** The capability operations (cap_ops.c, cap_pmp.c, cap_monitor.c) on abstract kernel states:
    the ring as the sequence of its entries, one capability per entry, the schedule and the
    processes' PMP registers. */
module CapSystem {
  import opened CapTypes
  import opened CapTable

  /** One slot of the schedule: its owner, and how many slots of the owner's slice remain. */
  datatype Slot = Slot(pid: nat, length: nat)

  datatype PmpReg = PmpReg(cfg: bv8, addr: Napot)

  datatype Sys = Sys(ring: seq<nat>, caps: seq<Cap>, slots: seq<seq<Slot>>, pmp: seq<seq<PmpReg>>)

  /** Result codes; NoChild is the -1 of the revoke functions. */
  datatype Err =
    | Success | NoChild
    | ErrEmpty | ErrSrcEmpty | ErrDstOccupied | ErrInvalidDerivation
    | ErrInvalidMonitor | ErrInvalidState | ErrInvalidPmp | ErrInvalidCapability

  datatype Outcome = Outcome(s: Sys, err: Err)

  // ---------------------------------------------------------------- entries and the ring

  /** cte_pid: the process whose table an entry belongs to. */
  function Pid(cfg: Config, e: nat): nat
  {
    e / cfg.capCnt
  }

  /** ctable_get */
  function Entry(cfg: Config, pid: nat, index: nat): nat {
    pid * cfg.capCnt + index
  }

  lemma MulMonotone(a: nat, b: nat, c: nat)
    requires a <= b
    ensures a * c <= b * c
  {
  }

  lemma PidInRange(cfg: Config, e: nat)
    requires e < cfg.procCnt * cfg.capCnt
    ensures Pid(cfg, e) < cfg.procCnt
  {
    var q := e / cfg.capCnt;
    assert q * cfg.capCnt <= e;
    if q >= cfg.procCnt { MulMonotone(cfg.procCnt, q, cfg.capCnt); }
  }

  /** Every entry is entry `index` of process `pid` for exactly one pair. */
  lemma PidOfEntry(cfg: Config, pid: nat, index: nat)
    requires index < cfg.capCnt && pid < cfg.procCnt
    ensures Pid(cfg, Entry(cfg, pid, index)) == pid && Entry(cfg, pid, index) < cfg.procCnt * cfg.capCnt
  {
    var e, c := Entry(cfg, pid, index), cfg.capCnt;
    var q, r := e / c, e % c;
    assert e == q * c + r;
    MulMonotone(pid + 1, cfg.procCnt, c);
    assert (pid + 1) * c == pid * c + c && (q + 1) * c == q * c + c;
    if q < pid { MulMonotone(q + 1, pid, c); }
    if q > pid { MulMonotone(pid + 1, q, c); }
  }

  function IndexOf(ring: seq<nat>, e: nat): (k: nat)
    requires e in ring
    ensures k < |ring| && ring[k] == e
  {
    if ring[0] == e then 0 else 1 + IndexOf(ring[1..], e)
  }

  function InsertAfter(ring: seq<nat>, p: nat, c: nat): seq<nat>
    requires p in ring
  {
    var k := IndexOf(ring, p);
    ring[..k + 1] + [c] + ring[k + 1..]
  }

  function Without(ring: seq<nat>, c: nat): seq<nat>
    requires c in ring
  {
    var k := IndexOf(ring, c);
    ring[..k] + ring[k + 1..]
  }

  function Replace(ring: seq<nat>, src: nat, dst: nat): seq<nat>
    requires src in ring
  {
    ring[IndexOf(ring, src) := dst]
  }

  function NextOf(ring: seq<nat>, c: nat): (e: nat)
    requires c in ring
    ensures e in ring
  {
    ring[Succ(IndexOf(ring, c), |ring|)]
  }

  // ---------------------------------------------------------------- the schedule (sched.c)

  function UpdateRow(row: seq<Slot>, pid: nat, end: nat, from: nat, to: nat): seq<Slot> {
    seq(|row|, i requires 0 <= i < |row| => if from <= i < to then Slot(pid % 256, (end - i) % 256) else row[i])
  }

  function DeleteRow(row: seq<Slot>, from: nat, to: nat): seq<Slot> {
    seq(|row|, i requires 0 <= i < |row| => if from <= i < to then Slot(0, 0) else row[i])
  }

  function SchedUpdate(cfg: Config, slots: seq<seq<Slot>>, pid: nat, end: nat, hart: nat, from: nat,
                       to: nat): (r: seq<seq<Slot>>)
    ensures |r| == |slots| && forall h | 0 <= h < |r| :: |r[h]| == |slots[h]|
  {
    var h := hart - cfg.minHart;
    if 0 <= h < |slots| then slots[h := UpdateRow(slots[h], pid, end, from, to)] else slots
  }

  function SchedDelete(cfg: Config, slots: seq<seq<Slot>>, hart: nat, from: nat, to: nat): (r: seq<seq<Slot>>)
    ensures |r| == |slots| && forall h | 0 <= h < |r| :: |r[h]| == |slots[h]|
  {
    var h := hart - cfg.minHart;
    if 0 <= h < |slots| then slots[h := DeleteRow(slots[h], from, to)] else slots
  }

  // ---------------------------------------------------------------- PMP registers (proc.c)

  /** proc_pmp_load stores the permissions with the NAPOT address mode bits. */
  function PmpCfg(rwx: bv3): bv8 {
    (rwx as bv8) | 0x18
  }

  function PmpSet(pmp: seq<seq<PmpReg>>, pid: nat, slot: nat, r: PmpReg): (res: seq<seq<PmpReg>>)
    ensures |res| == |pmp| && forall p | 0 <= p < |res| :: |res[p]| == |pmp[p]|
  {
    if pid < |pmp| && slot < |pmp[pid]| then pmp[pid := pmp[pid][slot := r]] else pmp
  }

  function PmpUnset(pmp: seq<seq<PmpReg>>, pid: nat, slot: nat): (res: seq<seq<PmpReg>>)
    ensures |res| == |pmp| && forall p | 0 <= p < |res| :: |res[p]| == |pmp[p]|
  {
    if pid < |pmp| && slot < |pmp[pid]| then pmp[pid := pmp[pid][slot := pmp[pid][slot].(cfg := 0)]] else pmp
  }

  // ---------------------------------------------------------------- the operations

  /** Entries are linked exactly while they hold a capability. */
  ghost predicate RingOk(s: Sys) {
    && DistinctEntries(s.ring)
    && (forall i | 0 <= i < |s.ring| :: s.ring[i] < |s.caps|)
    && (forall e | 0 <= e < |s.caps| :: e in s.ring <==> s.caps[e] != NoCap)
  }

  ghost predicate EntryOk(cfg: Config, s: Sys, e: nat) {
    e < |s.caps| && RingOk(s)
  }

  /** cap_derive, after the validity test that the system call makes on the new capability. */
  function Derive(cfg: Config, s: Sys, src: nat, dst: nat, ncap: Cap): Outcome
    requires EntryOk(cfg, s, src) && EntryOk(cfg, s, dst)
  {
    if !IsValid(ncap) then Outcome(s, ErrInvalidDerivation)
    else if s.caps[src] == NoCap then Outcome(s, ErrSrcEmpty)
    else if s.caps[dst] != NoCap then Outcome(s, ErrDstOccupied)
    else if !IsDerivable(s.caps[src], ncap) then Outcome(s, ErrInvalidDerivation)
    else
      var slots := if ncap.Time?
                   then SchedUpdate(cfg, s.slots, Pid(cfg, dst), ncap.end, ncap.hart, ncap.mrk, ncap.end)
                   else s.slots;
      Outcome(Sys(InsertAfter(s.ring, src, dst),
                  s.caps[dst := ncap][src := Parent(s.caps[src], ncap)],
                  slots, s.pmp), Success)
  }

  /** What ipc_move_hook leaves in the moved capability: a loaded PMP capability is unloaded. */
  function Handed(c: Cap): Cap {
    if c.Pmp? && c.used then c.(used := false, slot := 0) else c
  }

  /** cap_move */
  function Move(cfg: Config, s: Sys, src: nat, dst: nat): Outcome
    requires EntryOk(cfg, s, src) && EntryOk(cfg, s, dst)
  {
    var c := s.caps[src];
    if c == NoCap then Outcome(s, ErrSrcEmpty)
    else if s.caps[dst] != NoCap then Outcome(s, ErrDstOccupied)
    else
      var other := Pid(cfg, src) != Pid(cfg, dst);
      var slots := if other && c.Time? then SchedUpdate(cfg, s.slots, Pid(cfg, dst), c.end, c.hart, c.mrk, c.end)
                   else s.slots;
      var pmp := if other && c.Pmp? && c.used then PmpUnset(s.pmp, Pid(cfg, src), c.slot) else s.pmp;
      Outcome(Sys(Replace(s.ring, src, dst),
                  s.caps[dst := if other then Handed(c) else c][src := NoCap],
                  slots, pmp), Success)
  }

  /** cap_delete */
  function Delete(cfg: Config, s: Sys, e: nat): Outcome
    requires EntryOk(cfg, s, e)
  {
    var c := s.caps[e];
    if c == NoCap then Outcome(s, ErrEmpty)
    else
      var slots := if c.Time? then SchedDelete(cfg, s.slots, c.hart, c.mrk, c.end) else s.slots;
      var pmp := if c.Pmp? && c.used then PmpUnset(s.pmp, Pid(cfg, e), c.slot) else s.pmp;
      Outcome(Sys(Without(s.ring, e), s.caps[e := NoCap], slots, pmp), Success)
  }

  /** Whether cap_revoke on p deletes c, its next ring member; when it stops, the code it gives. */
  function RevokeTest(p: Cap, c: Cap): Err {
    match p
    case NoCap => ErrEmpty
    case Time(hart, bgn, _, _) =>
      if c.Time? && hart == c.hart && bgn < c.end then Success else NoChild
    case Memory(_, _, tag, bgn, _, _) =>
      if c.Memory? then (if tag == c.tag && bgn < c.end then Success else NoChild)
      else if c.Pmp? then (if TagBlockToAddr(tag, bgn) <= NapotSize(c.addr) then Success else NoChild)
      else NoChild
    case Pmp(_, _, _, _) => ErrInvalidCapability
    case Monitor(bgn, _, _) =>
      if c.Monitor? && bgn < c.end then Success else NoChild
    case Channel(bgn, _, end) =>
      if c.Channel? then (if c.bgn < end then Success else NoChild)
      else if c.Socket? then (if bgn <= c.chan then Success else NoChild)
      else NoChild
    case Socket(_, _, chan, tag) =>
      if !c.Socket? then NoChild
      else if tag != 0 then ErrInvalidCapability
      else if chan != c.chan then NoChild
      else Success
  }

  /** The parent after its child c has been revoked. */
  function Reclaimed(p: Cap, c: Cap): Cap {
    match c
    case Memory(_, lck, _, _, mrk, _) => if p.Memory? then p.(mrk := mrk, lck := lck) else p
    case _ => if Ranged(c) then WithMrk(p, c.mrk) else p
  }

  /** cap_revoke: one step, which deletes the next ring member if it is a child. */
  function RevokeStep(cfg: Config, s: Sys, e: nat): Outcome
    requires EntryOk(cfg, s, e)
  {
    var p := s.caps[e];
    if p == NoCap then Outcome(s, ErrEmpty)
    else
      var child := NextOf(s.ring, e);
      var c := s.caps[child];
      var err := RevokeTest(p, c);
      if err != Success then Outcome(s, err)
      else
        var slots := if p.Time? then SchedUpdate(cfg, s.slots, Pid(cfg, e), p.end, p.hart, MrkOf(c), p.end)
                     else s.slots;
        var pmp := if c.Pmp? && c.used then PmpUnset(s.pmp, Pid(cfg, child), c.slot) else s.pmp;
        Outcome(Sys(Without(s.ring, child), s.caps[child := NoCap][e := Reclaimed(p, c)], slots, pmp), Success)
  }

  /** cap_reset: the mark goes back to the beginning and the schedule follows. */
  function Reset(cfg: Config, s: Sys, e: nat): Outcome
    requires EntryOk(cfg, s, e)
  {
    var c := s.caps[e];
    if c == NoCap then Outcome(s, ErrEmpty)
    else
      var slots := if c.Time? then SchedUpdate(cfg, s.slots, Pid(cfg, e), c.end, c.hart, c.bgn, c.mrk) else s.slots;
      var c1 := if c.Memory? then c.(lck := false) else c;
      Outcome(s.(caps := s.caps[e := WithMrk(c1, BgnOf(c))], slots := slots), Success)
  }

  /** cap_pmp_load */
  function PmpLoad(cfg: Config, s: Sys, e: nat, slot: nat): Outcome
    requires EntryOk(cfg, s, e) && Pid(cfg, e) < |s.pmp| && slot < |s.pmp[Pid(cfg, e)]|
  {
    var c, pid := s.caps[e], Pid(cfg, e);
    if c == NoCap then Outcome(s, ErrEmpty)
    else if !c.Pmp? || c.used then Outcome(s, ErrInvalidPmp)
    else if s.pmp[pid][slot].cfg != 0 then Outcome(s, ErrDstOccupied)
    else Outcome(s.(pmp := PmpSet(s.pmp, pid, slot, PmpReg(PmpCfg(c.rwx), c.addr)),
                    caps := s.caps[e := c.(slot := slot, used := true)]), Success)
  }

  /** cap_pmp_unload */
  function PmpUnload(cfg: Config, s: Sys, e: nat): Outcome
    requires EntryOk(cfg, s, e)
  {
    var c := s.caps[e];
    if c == NoCap then Outcome(s, ErrEmpty)
    else if !c.Pmp? || !c.used then Outcome(s, ErrInvalidPmp)
    else Outcome(s.(pmp := PmpUnset(s.pmp, Pid(cfg, e), c.slot),
                    caps := s.caps[e := c.(slot := 0, used := false)]), Success)
  }

  /** check_monitor, for a caller that holds `mon`; `suspended` are the suspended processes. */
  function CheckMonitor(s: Sys, mon: nat, pid: nat, suspended: set<nat>): Err
    requires mon < |s.caps|
  {
    var c := s.caps[mon];
    if !c.Monitor? || c.mrk > pid || pid >= c.end then ErrInvalidMonitor
    else if pid !in suspended then ErrInvalidState
    else Success
  }

  /** cap_monitor_cap_move */
  function MonitorMove(cfg: Config, s: Sys, mon: nat, src: nat, dst: nat, suspended: set<nat>): Outcome
    requires EntryOk(cfg, s, mon) && EntryOk(cfg, s, src) && EntryOk(cfg, s, dst)
  {
    var m := Pid(cfg, mon);
    var err1 := if m == Pid(cfg, src) then Success else CheckMonitor(s, mon, Pid(cfg, src), suspended);
    var err2 := if m == Pid(cfg, dst) then Success else CheckMonitor(s, mon, Pid(cfg, dst), suspended);
    if err1 != Success then Outcome(s, err1)
    else if err2 != Success then Outcome(s, err2)
    else Move(cfg, s, src, dst)
  }

  /** cap_monitor_pmp_load */
  function MonitorPmpLoad(cfg: Config, s: Sys, mon: nat, e: nat, slot: nat, suspended: set<nat>): Outcome
    requires EntryOk(cfg, s, mon) && EntryOk(cfg, s, e)
    requires Pid(cfg, e) < |s.pmp| && slot < |s.pmp[Pid(cfg, e)]|
  {
    var err := CheckMonitor(s, mon, Pid(cfg, e), suspended);
    if err != Success then Outcome(s, err) else PmpLoad(cfg, s, e, slot)
  }

  /** cap_monitor_pmp_unload */
  function MonitorPmpUnload(cfg: Config, s: Sys, mon: nat, e: nat, suspended: set<nat>): Outcome
    requires EntryOk(cfg, s, mon) && EntryOk(cfg, s, e)
  {
    var err := CheckMonitor(s, mon, Pid(cfg, e), suspended);
    if err != Success then Outcome(s, err) else PmpUnload(cfg, s, e)
  }
}
