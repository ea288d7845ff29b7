/** Dispatching (sched_fetch in sched.c): which hart may run a process in which window of time. */
module Dispatch {
  import opened CapTypes
  import opened CapTable
  import opened CapSystem
  import opened CapInvariant
  import opened CapSchedule
  import opened CapRuns
  import opened Kernel

  /** S3K_SLOT_LEN and S3K_SCHED_TIME in clock ticks. */
  datatype Timing = Timing(slotLen: nat, schedTime: nat)

  predicate TimingOk(t: Timing) {
    0 < t.schedTime < t.slotLen
  }

  /** What sched_fetch hands to the timer: process, and the window [start, end). */
  datatype Grant = NoGrant | Grant(pid: nat, start: nat, end: nat)

  predicate TableOk(cfg: Config, slots: seq<seq<Slot>>) {
    ConfigOk(cfg) && |slots| == cfg.hartCnt && forall h | 0 <= h < |slots| :: |slots[h]| == cfg.slotCnt
  }

  /** slot_info_get, with harts counted from the lowest */
  function SlotInfo(cfg: Config, slots: seq<seq<Slot>>, h: nat, slot: nat): Slot
    requires TableOk(cfg, slots) && h < cfg.hartCnt
  {
    slots[h][slot % cfg.slotCnt]
  }

  /** The slot of the schedule at a clock value, counted from the beginning of time. */
  function SlotAt(t: Timing, now: nat): nat
    requires TimingOk(t)
  {
    now / t.slotLen
  }

  /** Rival i keeps hart h from running si's owner. */
  predicate Yields(cfg: Config, slots: seq<seq<Slot>>, h: nat, i: nat, slot: nat)
    requires TableOk(cfg, slots) && h < cfg.hartCnt && i < cfg.hartCnt
  {
    var si, other := SlotInfo(cfg, slots, h, slot), SlotInfo(cfg, slots, i, slot);
    si.pid == other.pid && if i < h then si.length <= other.length else si.length < other.length
  }

  /** Hart h passes the arbitration; a higher rival is only looked at below the last hart. */
  ghost predicate Passes(cfg: Config, slots: seq<seq<Slot>>, h: nat, slot: nat)
    requires TableOk(cfg, slots) && h < cfg.hartCnt
  {
    && SlotInfo(cfg, slots, h, slot).length != 0
    && (forall i | 0 <= i < h :: !Yields(cfg, slots, h, i, slot))
    && (forall i | h < i < cfg.hartCnt - 1 :: !Yields(cfg, slots, h, i, slot))
  }

  /** The slot that a fetch at clock value `now` looks at. */
  function FetchSlot(t: Timing, now: nat): nat
    requires TimingOk(t)
  {
    (now + t.schedTime) / t.slotLen
  }

  function Window(t: Timing, si: Slot, slot: nat): Grant
    requires TimingOk(t) && si.length != 0
  {
    StartsEarlier(t, si, slot);
    Grant(si.pid, slot * t.slotLen, (slot + si.length) * t.slotLen - t.schedTime)
  }

  lemma StartsEarlier(t: Timing, si: Slot, slot: nat)
    requires TimingOk(t) && si.length != 0
    ensures slot * t.slotLen < (slot + si.length) * t.slotLen - t.schedTime
  {
    MulMonotone(slot + 1, slot + si.length, t.slotLen);
  }

  /** sched_fetch on hart h: `acquired` is what proc_acquire answers for the owner. */
  method Fetch(cfg: Config, t: Timing, slots: array2<Slot>, h: nat, now: nat, acquired: bool) returns (g: Grant)
    requires TimingOk(t) && TableOk(cfg, Rows(slots)) && h < cfg.hartCnt
    ensures var slot := FetchSlot(t, now);
            g == if Passes(cfg, Rows(slots), h, slot) && acquired
            then Window(t, SlotInfo(cfg, Rows(slots), h, slot), slot)
                 else NoGrant
  {
    ghost var rows := Rows(slots);
    assert |rows[0]| == slots.Length1;
    var slot := (now + t.schedTime) / t.slotLen;
    var si := slots[h, slot % cfg.slotCnt];
    assert si == SlotInfo(cfg, rows, h, slot);
    if si.length == 0 { return NoGrant; }
    var i := 0;
    while i < h
      invariant 0 <= i <= h
      invariant forall j | 0 <= j < i :: !Yields(cfg, rows, h, j, slot)
    {
      var other := slots[i, slot % cfg.slotCnt];
      assert other == SlotInfo(cfg, rows, i, slot);
      if si.pid == other.pid && si.length <= other.length {
        assert Yields(cfg, rows, h, i, slot);
        return NoGrant;
      }
      i := i + 1;
    }
    i := h + 1;
    while i < cfg.hartCnt - 1
      invariant h < i
      invariant forall j | h < j < i && j < cfg.hartCnt - 1 :: !Yields(cfg, rows, h, j, slot)
    {
      var other := slots[i, slot % cfg.slotCnt];
      assert other == SlotInfo(cfg, rows, i, slot);
      if si.pid == other.pid && si.length < other.length {
        assert Yields(cfg, rows, h, i, slot);
        return NoGrant;
      }
      i := i + 1;
    }
    if !acquired { return NoGrant; }
    StartsEarlier(t, si, slot);
    return Grant(si.pid, slot * t.slotLen, (slot + si.length) * t.slotLen - t.schedTime);
  }

  // ---------------------------------------------------------------- the window of a grant

  lemma MulStep(a: nat, b: nat, c: nat)
    ensures a < b ==> a * c + c <= b * c
    ensures a <= b ==> a * c <= b * c
  {
    if a < b {
      MulMonotone(a + 1, b, c);
      assert (a + 1) * c == a * c + c;
    }
  }

  /** Multiples of c that are less than c apart are in order. */
  lemma NotLess(a: nat, b: nat, c: nat)
    requires b * c < a * c + c
    ensures b <= a
  {
    MulStep(a, b, c);
  }

  lemma DivBounds(x: nat, d: nat)
    requires 0 < d
    ensures (x / d) * d <= x < (x / d) * d + d
  {
  }

  /** A clock value lies in slots lo..hi exactly when it lies in their ticks. */
  lemma TicksOfSlots(x: nat, lo: nat, hi: nat, d: nat)
    requires 0 < d && lo * d <= x < hi * d
    ensures lo <= x / d < hi
  {
    DivBounds(x, d);
    NotLess(x / d, lo, d);
    MulStep(hi, x / d, d);
  }

  /** Later slots of the same period. */
  lemma SamePeriod(slot: nat, k: nat, n: nat)
    requires 0 < n && slot % n + k < n
    ensures (slot + k) % n == slot % n + k && (slot + k) / n == slot / n
  {
    QuotientIs(slot + k, slot / n, n);
  }

  lemma QuotientIs(x: nat, q: nat, n: nat)
    requires 0 < n && q * n <= x < q * n + n
    ensures x / n == q && x % n == x - q * n
  {
    DivBounds(x, n);
    NotLess(q, x / n, n);
    NotLess(x / n, q, n);
  }

  /** Every clock value of a granted window falls in a slot that the same capability's free part
      covers, held by the granted process, in the period in which the window begins. */
  lemma WindowStaysInSlice(cfg: Config, t: Timing, s: Sys, h: nat, slot: nat, x: nat) returns (e: nat)
    requires TimingOk(t) && SysInv(cfg, s) && h < cfg.hartCnt && TableOk(cfg, s.slots)
    requires SlotInfo(cfg, s.slots, h, slot).length != 0
    requires var g := Window(t, SlotInfo(cfg, s.slots, h, slot), slot); g.start <= x < g.end
    ensures e < |s.caps| && Covers(cfg, s.caps[e], h, slot % cfg.slotCnt)
    ensures Covers(cfg, s.caps[e], h, SlotAt(t, x) % cfg.slotCnt) && SlotAt(t, x) / cfg.slotCnt == slot / cfg.slotCnt
    ensures Window(t, SlotInfo(cfg, s.slots, h, slot), slot).pid == Pid(cfg, e)
  {
    var i := slot % cfg.slotCnt;
    var si := SlotInfo(cfg, s.slots, h, slot);
    e := Owner(cfg, s, h, i);
    TicksOfSlots(x, slot, slot + si.length, t.slotLen);
    SamePeriod(slot, SlotAt(t, x) - slot, cfg.slotCnt);
  }

  lemma Owner(cfg: Config, s: Sys, h: nat, i: nat) returns (e: nat)
    requires SysInv(cfg, s) && h < cfg.hartCnt && i < cfg.slotCnt && s.slots[h][i].length != 0
    ensures e < |s.caps| && Covers(cfg, s.caps[e], h, i) && s.slots[h][i] == Slot(Pid(cfg, e), s.caps[e].end - i)
    ensures s.caps[e].end <= cfg.slotCnt
  {
    assert SlotOk(cfg, s.caps, h, i, s.slots[h][i]);
    var f :| 0 <= f < |s.caps| && Covers(cfg, s.caps[f], h, i);
    e := f;
    assert CapInRange(cfg, s.caps[e]);
  }

  /** The whole window ends within the period in which it begins. */
  lemma WindowEndsInPeriod(cfg: Config, t: Timing, s: Sys, h: nat, slot: nat)
    requires TimingOk(t) && SysInv(cfg, s) && h < cfg.hartCnt && TableOk(cfg, s.slots)
    requires SlotInfo(cfg, s.slots, h, slot).length != 0
    ensures var g := Window(t, SlotInfo(cfg, s.slots, h, slot), slot);
            g.end + t.schedTime <= (slot / cfg.slotCnt + 1) * cfg.slotCnt * t.slotLen
  {
    var i := slot % cfg.slotCnt;
    var e := Owner(cfg, s, h, i);
    var q := slot / cfg.slotCnt;
    assert slot + s.slots[h][i].length <= (q + 1) * cfg.slotCnt by { assert slot == q * cfg.slotCnt + i; }
    MulMonotone(slot + s.slots[h][i].length, (q + 1) * cfg.slotCnt, t.slotLen);
  }

  /** The clock value at which slot i of the period of slot `slot` begins. */
  function SlotStart(cfg: Config, t: Timing, slot: nat, i: nat): nat
    requires 0 < cfg.slotCnt
  {
    (slot / cfg.slotCnt * cfg.slotCnt + i) * t.slotLen
  }

  /** A window is the whole rest of the slice: it begins with the fetched slot and ends S3K_SCHED_TIME
      before the free part of the capability that covers the slot does.  Every clock value between
      them is in the window, unless it is too late to schedule anything after it. */
  lemma WindowIsSlice(cfg: Config, t: Timing, s: Sys, h: nat, slot: nat, e: nat, x: nat)
    requires TimingOk(t) && SysInv(cfg, s) && h < cfg.hartCnt && TableOk(cfg, s.slots) && e < |s.caps|
    requires Covers(cfg, s.caps[e], h, slot % cfg.slotCnt)
    ensures SlotInfo(cfg, s.slots, h, slot).length != 0
    ensures var g := Window(t, SlotInfo(cfg, s.slots, h, slot), slot);
            && g.pid == e / cfg.capCnt && g.start == SlotStart(cfg, t, slot, slot % cfg.slotCnt)
            && g.end + t.schedTime == SlotStart(cfg, t, slot, s.caps[e].end)
            && (g.start <= x < g.end <==>
                  SlotStart(cfg, t, slot, slot % cfg.slotCnt) <= x
                  && x + t.schedTime < SlotStart(cfg, t, slot, s.caps[e].end))
  {
    var i := slot % cfg.slotCnt;
    assert SlotOk(cfg, s.caps, h, i, s.slots[h][i]);
    assert s.slots[h][i] == Slot(Pid(cfg, e), s.caps[e].end - i) && i < s.caps[e].end;
    hide SysInv, SlotOk, Covers;
    var q := slot / cfg.slotCnt * cfg.slotCnt;
    assert slot == q + i && slot + (s.caps[e].end - i) == q + s.caps[e].end;
  }

  /** A fetch looks at the slot in which a process could start: the one S3K_SCHED_TIME from now. */
  lemma FetchesNextSlot(t: Timing, now: nat)
    requires TimingOk(t)
    ensures FetchSlot(t, now) * t.slotLen <= now + t.schedTime < (FetchSlot(t, now) + 1) * t.slotLen
  {
    DivBounds(now + t.schedTime, t.slotLen);
    assert (FetchSlot(t, now) + 1) * t.slotLen == FetchSlot(t, now) * t.slotLen + t.slotLen;
  }

  /** Windows on one hart do not overlap: a fetch at or after the end of a granted window gets a
      window that starts at least S3K_SCHED_TIME later. */
  lemma NextWindowLater(cfg: Config, t: Timing, slots: seq<seq<Slot>>, slots': seq<seq<Slot>>, h: nat, now: nat,
                        later: nat)
    requires TimingOk(t) && TableOk(cfg, slots) && TableOk(cfg, slots') && h < cfg.hartCnt
    requires SlotInfo(cfg, slots, h, FetchSlot(t, now)).length != 0
    requires SlotInfo(cfg, slots', h, FetchSlot(t, later)).length != 0
    requires Window(t, SlotInfo(cfg, slots, h, FetchSlot(t, now)), FetchSlot(t, now)).end <= later
    ensures Window(t, SlotInfo(cfg, slots', h, FetchSlot(t, later)), FetchSlot(t, later)).start
            >= Window(t, SlotInfo(cfg, slots, h, FetchSlot(t, now)), FetchSlot(t, now)).end + t.schedTime
  {
    var n := FetchSlot(t, now) + SlotInfo(cfg, slots, h, FetchSlot(t, now)).length;
    hide SlotInfo;
    LaterSlot(later + t.schedTime, n, t.slotLen);
  }

  lemma LaterSlot(x: nat, n: nat, d: nat)
    requires 0 < d && n * d <= x
    ensures n * d <= (x / d) * d
  {
    DivBounds(x, d);
    NotLess(x / d, n, d);
    MulMonotone(n, x / d, d);
  }

  // ---------------------------------------------------------------- arbitration

  /** Hart h is scheduled for process pid in this slot. */
  predicate Claims(cfg: Config, slots: seq<seq<Slot>>, h: nat, slot: nat, pid: nat)
    requires TableOk(cfg, slots)
  {
    h < cfg.hartCnt && SlotInfo(cfg, slots, h, slot).pid == pid && SlotInfo(cfg, slots, h, slot).length != 0
  }

  /** Hart h has the longest slice of all harts below n scheduled for pid, the first of its length. */
  ghost predicate Best(cfg: Config, slots: seq<seq<Slot>>, n: nat, h: nat, slot: nat, pid: nat)
    requires TableOk(cfg, slots) && n <= cfg.hartCnt
  {
    && h < n && Claims(cfg, slots, h, slot, pid)
    && forall i: nat {:trigger Claims(cfg, slots, i, slot, pid)} | i < n && Claims(cfg, slots, i, slot, pid) ::
         i == h ||
         if i < h then SlotInfo(cfg, slots, i, slot).length < SlotInfo(cfg, slots, h, slot).length
         else SlotInfo(cfg, slots, i, slot).length <= SlotInfo(cfg, slots, h, slot).length
  }

  lemma {:induction false} BestExists(cfg: Config, slots: seq<seq<Slot>>, n: nat, slot: nat, pid: nat, g: nat)
    returns (h: nat)
    requires TableOk(cfg, slots) && n <= cfg.hartCnt && g < n && Claims(cfg, slots, g, slot, pid)
    ensures Best(cfg, slots, n, h, slot, pid)
  {
    hide SlotInfo;
    h := 0;
    while !Claims(cfg, slots, h, slot, pid)
      invariant h <= g && forall i: nat | i < h :: !Claims(cfg, slots, i, slot, pid)
      decreases g - h
    {
      h := h + 1;
    }
    var k := h + 1;
    while k < n
      invariant h < k <= n && Best(cfg, slots, k, h, slot, pid)
    {
      if Claims(cfg, slots, k, slot, pid)
         && SlotInfo(cfg, slots, h, slot).length < SlotInfo(cfg, slots, k, slot).length {
        h := k;
      }
      k := k + 1;
    }
  }

  /** Below the last hart, passing the arbitration means being the best claimant below it. */
  lemma PassesIsBest(cfg: Config, slots: seq<seq<Slot>>, h: nat, slot: nat, pid: nat)
    requires TableOk(cfg, slots) && h + 1 < cfg.hartCnt && Claims(cfg, slots, h, slot, pid)
    ensures Passes(cfg, slots, h, slot) <==> Best(cfg, slots, cfg.hartCnt - 1, h, slot, pid)
  {
    if Best(cfg, slots, cfg.hartCnt - 1, h, slot, pid) {
      forall i: nat | i < cfg.hartCnt - 1 && i != h ensures !Yields(cfg, slots, h, i, slot) {
        assert Claims(cfg, slots, i, slot, pid) || SlotInfo(cfg, slots, i, slot).pid != pid
               || SlotInfo(cfg, slots, i, slot).length == 0;
      }
    }
    if Passes(cfg, slots, h, slot) {
      forall i: nat | i < cfg.hartCnt - 1 && Claims(cfg, slots, i, slot, pid) && i != h
        ensures if i < h then SlotInfo(cfg, slots, i, slot).length < SlotInfo(cfg, slots, h, slot).length
                else SlotInfo(cfg, slots, i, slot).length <= SlotInfo(cfg, slots, h, slot).length
      {
        assert !Yields(cfg, slots, h, i, slot);
      }
    }
  }

  /** Among the harts below the last one, exactly one passes for every process that some of them
      is scheduled for: the one with the longest slice left, of the lowest number on a tie. */
  lemma OnePasses(cfg: Config, slots: seq<seq<Slot>>, slot: nat, pid: nat, g: nat) returns (h: nat)
    requires TableOk(cfg, slots) && g + 1 < cfg.hartCnt && Claims(cfg, slots, g, slot, pid)
    ensures h + 1 < cfg.hartCnt && Best(cfg, slots, cfg.hartCnt - 1, h, slot, pid)
    ensures forall i: nat | i + 1 < cfg.hartCnt && Claims(cfg, slots, i, slot, pid) ::
              Passes(cfg, slots, i, slot) <==> i == h
  {
    h := BestExists(cfg, slots, cfg.hartCnt - 1, slot, pid, g);
    forall i: nat | i + 1 < cfg.hartCnt && Claims(cfg, slots, i, slot, pid)
      ensures Passes(cfg, slots, i, slot) <==> i == h
    {
      PassesIsBest(cfg, slots, i, slot, pid);
      hide Passes, SlotInfo;
    }
  }

  /** At most one hart passes for pid. */
  ghost predicate Unique(cfg: Config, slots: seq<seq<Slot>>, slot: nat, pid: nat)
    requires TableOk(cfg, slots)
  {
    forall i: nat, j: nat {:trigger Claims(cfg, slots, i, slot, pid), Claims(cfg, slots, j, slot, pid)} |
      Claims(cfg, slots, i, slot, pid) && Claims(cfg, slots, j, slot, pid)
      && Passes(cfg, slots, i, slot) && Passes(cfg, slots, j, slot) :: i == j
  }

  /** The last hart is scheduled for pid, longer than every lower hart that is. */
  ghost predicate LastIsLongest(cfg: Config, slots: seq<seq<Slot>>, slot: nat, pid: nat)
    requires TableOk(cfg, slots)
  {
    Claims(cfg, slots, cfg.hartCnt - 1, slot, pid) &&
    forall i: nat {:trigger Claims(cfg, slots, i, slot, pid)} | i < cfg.hartCnt - 1
                                                                && Claims(cfg, slots, i, slot, pid) ::
      SlotInfo(cfg, slots, i, slot).length < SlotInfo(cfg, slots, cfg.hartCnt - 1, slot).length
  }

  lemma LastPasses(cfg: Config, slots: seq<seq<Slot>>, slot: nat, pid: nat)
    requires TableOk(cfg, slots) && Claims(cfg, slots, cfg.hartCnt - 1, slot, pid)
    ensures Passes(cfg, slots, cfg.hartCnt - 1, slot) <==> LastIsLongest(cfg, slots, slot, pid)
  {
    var last: nat := cfg.hartCnt - 1;
    if Passes(cfg, slots, last, slot) {
      forall i: nat | i < last && Claims(cfg, slots, i, slot, pid)
        ensures SlotInfo(cfg, slots, i, slot).length < SlotInfo(cfg, slots, last, slot).length
      {
        assert !Yields(cfg, slots, last, i, slot);
      }
    }
    if LastIsLongest(cfg, slots, slot, pid) {
      forall i: nat | i < last ensures !Yields(cfg, slots, last, i, slot) {
        assert Claims(cfg, slots, i, slot, pid) || SlotInfo(cfg, slots, i, slot).pid != pid
               || SlotInfo(cfg, slots, i, slot).length == 0;
      }
    }
  }

  /** Over all harts the arbitration is not exclusive: lower harts never look at the last one.  It
      lets at most one hart pass exactly when the last hart is not the longest claimant, or no
      lower hart claims the process at all. */
  lemma ArbitrationExact(cfg: Config, slots: seq<seq<Slot>>, slot: nat, pid: nat)
    requires TableOk(cfg, slots)
    ensures Unique(cfg, slots, slot, pid) <==>
            !LastIsLongest(cfg, slots, slot, pid)
            || forall i: nat {:trigger Claims(cfg, slots, i, slot, pid)} | i + 1 < cfg.hartCnt ::
               !Claims(cfg, slots, i, slot, pid)
  {
    var last: nat := cfg.hartCnt - 1;
    if Claims(cfg, slots, last, slot, pid) { LastPasses(cfg, slots, slot, pid); }
    if g: nat :| g + 1 < cfg.hartCnt && Claims(cfg, slots, g, slot, pid) {
      var h := OnePasses(cfg, slots, slot, pid, g);
      assert Claims(cfg, slots, h, slot, pid);
    }
    hide Passes, SlotInfo, LastIsLongest, Best;
  }
}
