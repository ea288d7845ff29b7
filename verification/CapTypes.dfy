/** Capabilities (cap_types.h) with the validity and derivability tests of cap_util.c. */
module CapTypes {
  type Positive = n: nat | 0 < n witness 1

  /** Platform and project constants: processes, capabilities per process, time slots per period,
      PMP registers per process, and the range of hart numbers. */
  datatype Config = Config(procCnt: nat, capCnt: Positive, slotCnt: nat, pmpCnt: nat, minHart: nat, hartCnt: nat)

  /** The kernel masks pids and slice lengths with 0xFF, so both must fit in eight bits. */
  predicate ConfigOk(cfg: Config) {
    && 0 < cfg.procCnt <= 256 && 0 < cfg.slotCnt < 256 && 0 < cfg.pmpCnt && 0 < cfg.hartCnt
  }

  /** The address field of a PMP capability, 48 bits wide. */
  type Napot = a: nat | a < 0x1_0000_0000_0000 witness 0

  datatype Cap =
    | NoCap
    | Time(hart: nat, bgn: nat, mrk: nat, end: nat)
    | Memory(rwx: bv3, lck: bool, tag: nat, bgn: nat, mrk: nat, end: nat)
    | Pmp(rwx: bv3, used: bool, slot: nat, addr: Napot)
    | Monitor(bgn: nat, mrk: nat, end: nat)
    | Channel(bgn: nat, mrk: nat, end: nat)
    | Socket(mode: bv4, perm: bv8, chan: nat, tag: nat)

  /** Ranged capabilities split [bgn,end) at mrk: [bgn,mrk) is handed out, [mrk,end) is free. */
  predicate Ranged(c: Cap) {
    c.Time? || c.Memory? || c.Monitor? || c.Channel?
  }

  function TagBlockToAddr(tag: nat, block: nat): nat {
    tag * 0x800_0000 + block * 0x1000
  }

  /** addr ^ (addr + 1): the lowest zero bit of addr and the ones below it. */
  function LowOnes(addr: nat): (m: nat)
    ensures m % 2 == 1 && m / 2 <= addr
  {
    if addr % 2 == 0 then 1 else 2 * LowOnes(addr / 2) + 1
  }

  /** pmp_napot_decode: addr & (addr + 1) is addr without the ones at its end. */
  function NapotBase(addr: Napot): nat {
    4 * (addr - LowOnes(addr) / 2)
  }

  function NapotSize(addr: Napot): nat {
    4 * (LowOnes(addr) + 1)
  }

  predicate RwxSubset(a: bv3, b: bv3) {
    a & b == a
  }

  predicate IsValid(c: Cap) {
    match c
    case Time(_, b, m, e) => b == m && b < e
    case Memory(_, _, _, b, m, e) => b == m && b < e
    case Pmp(_, used, slot, _) => !used && slot == 0
    case Monitor(b, m, e) => b == m && b < e
    case Channel(b, m, e) => b == m && b < e
    case Socket(mode, perm, _, _) => perm & 0xF == perm && mode & 1 == mode
    case NoCap => false
  }

  predicate IsDerivable(p: Cap, c: Cap) {
    match p
    case Time(hart, _, mrk, end) =>
      c.Time? && hart == c.hart && mrk == c.bgn && c.end <= end
    case Memory(rwx, _, tag, _, mrk, end) =>
      if c.Pmp? then
        && TagBlockToAddr(tag, mrk) <= NapotBase(c.addr)
        && NapotBase(c.addr) + NapotSize(c.addr) <= TagBlockToAddr(tag, end)
        && RwxSubset(c.rwx, rwx)
      else
        c.Memory? && tag == c.tag && mrk <= c.bgn && c.end <= end && RwxSubset(c.rwx, rwx)
    case Monitor(_, mrk, end) =>
      c.Monitor? && mrk <= c.bgn && c.end <= end
    case Channel(_, mrk, end) =>
      if c.Socket? then c.tag == 0 && mrk <= c.chan && c.chan + 1 <= end
      else c.Channel? && mrk <= c.bgn && c.end <= end
    case Socket(mode, perm, chan, tag) =>
      c.Socket? && chan == c.chan && tag == 0 && c.tag != 0 && mode == c.mode && perm == c.perm
    case _ => false
  }

  // ---------------------------------------------------------------- nesting in the ring

  /** The capabilities whose ranges partition one resource: a hart's slots, or the processes. */
  datatype Group = Slots(hart: nat) | Processes | Unsliced

  function GroupOf(c: Cap): Group {
    match c
    case Time(h, _, _, _) => Slots(h)
    case Monitor(_, _, _) => Processes
    case _ => Unsliced
  }

  predicate SameGroup(x: Cap, y: Cap) {
    GroupOf(x) == GroupOf(y) != Unsliced
  }

  function BgnOf(c: Cap): nat {
    if Ranged(c) then c.bgn else 0
  }

  function MrkOf(c: Cap): nat {
    if Ranged(c) then c.mrk else 0
  }

  function EndOf(c: Cap): nat {
    if Ranged(c) then c.end else 0
  }

  /** x comes before y in the ring: y lies below x's free part, and is either beside x's whole
      range (an older relative) or inside it (a descendant). */
  predicate PairOk(x: Cap, y: Cap) {
    EndOf(y) <= MrkOf(x) && (EndOf(y) <= BgnOf(x) || BgnOf(x) <= BgnOf(y))
  }

  predicate RangeOk(c: Cap) {
    GroupOf(c) != Unsliced ==> BgnOf(c) <= MrkOf(c) <= EndOf(c) && BgnOf(c) < EndOf(c)
  }

  /** The capabilities of a ring in order: every group contiguous, every pair nested. */
  ghost predicate Nested(cs: seq<Cap>) {
    && (forall i | 0 <= i < |cs| :: RangeOk(cs[i]))
    && (forall i, j | 0 <= i < j < |cs| && SameGroup(cs[i], cs[j]) :: PairOk(cs[i], cs[j]))
    && (forall i, j, k | 0 <= i < j < k < |cs| && SameGroup(cs[i], cs[k]) :: SameGroup(cs[i], cs[j]))
  }

  lemma NestedRemove(cs: seq<Cap>, k: nat)
    requires Nested(cs) && k < |cs|
    ensures Nested(cs[..k] + cs[k + 1..])
  {
  }

  /** c with its mark moved to m. */
  function WithMrk(c: Cap, m: nat): Cap {
    if Ranged(c) then c.(mrk := m) else c
  }

  /** Moving one mark keeps the nesting when everything later in the group stays below it. */
  lemma NestedMark(cs: seq<Cap>, k: nat, m: nat)
    requires Nested(cs) && k < |cs| && BgnOf(cs[k]) <= m <= EndOf(cs[k])
    requires forall j | k < j < |cs| && SameGroup(cs[k], cs[j]) :: EndOf(cs[j]) <= m
    ensures Nested(cs[k := WithMrk(cs[k], m)])
  {
  }

  /** A replacement that is in no group, for a capability that is in none. */
  lemma NestedUnsliced(cs: seq<Cap>, k: nat, c: Cap)
    requires Nested(cs) && k < |cs| && GroupOf(cs[k]) == Unsliced == GroupOf(c)
    ensures Nested(cs[k := c])
  {
  }

  lemma NestedInsertAt(cs: seq<Cap>, k: nat, c: Cap)
    requires Nested(cs) && k < |cs| && RangeOk(c) && GroupOf(c) == GroupOf(cs[k])
    requires forall i | 0 <= i <= k && SameGroup(cs[i], c) :: PairOk(cs[i], c)
    requires forall j | k < j < |cs| && SameGroup(c, cs[j]) :: PairOk(c, cs[j])
    ensures Nested(cs[..k + 1] + [c] + cs[k + 1..])
  {
    var ds := cs[..k + 1] + [c] + cs[k + 1..];
    forall i, j | 0 <= i < j < |ds| && SameGroup(ds[i], ds[j]) ensures PairOk(ds[i], ds[j]) {
    }
    forall i, j, l | 0 <= i < j < l < |ds| && SameGroup(ds[i], ds[l]) ensures SameGroup(ds[i], ds[j]) {
    }
  }

  /** What a parent looks like after the derivation of c. */
  function Parent(p: Cap, c: Cap): Cap {
    match c
    case Pmp(_, _, _, _) => if p.Memory? then p.(lck := true) else p
    case Socket(_, _, chan, tag) => if tag == 0 then WithMrk(p, chan + 1) else p
    case NoCap => p
    case _ => WithMrk(p, EndOf(c))
  }

  /** Inserting a freshly derived capability right after its parent, whose mark moves up to it. */
  lemma NestedInsert(cs: seq<Cap>, k: nat, c: Cap)
    requires Nested(cs) && k < |cs| && IsDerivable(cs[k], c) && IsValid(c)
    ensures Nested(cs[k := Parent(cs[k], c)][..k + 1] + [c] + cs[k + 1..])
  {
    var p := cs[k];
    if GroupOf(c) == Unsliced {
      NestedUnsliced(cs, k, Parent(p, c));
    } else {
      assert forall i | 0 <= i < k && SameGroup(cs[i], c) :: PairOk(cs[i], cs[k]);
      assert forall j | k < j < |cs| && SameGroup(c, cs[j]) :: PairOk(cs[k], cs[j]);
      NestedMark(cs, k, EndOf(c));
    }
    var cs1 := cs[k := Parent(p, c)];
    assert cs1[k + 1..] == cs[k + 1..];
    NestedInsertAt(cs1, k, c);
  }
}
