/** The ticket semaphore of the scheduler (semaphore.h) as a state machine over atomic steps, and
    the slot table (sched.c) that it protects: readers take one ticket, writers all of them. */
module Semaphore {
  import opened CapTypes
  import opened CapSystem
  import opened CapInvariant

  type Hart = nat

  /** What a hart does between acquire and release. */
  datatype Work =
    | Read
    | Update(pid: nat, end: nat, hart: nat, from: nat, to: nat)
    | Delete(hart: nat, from: nat, to: nat)

  /** Where a hart stands; `stores` counts the writer's stores, two for every slot. */
  datatype Pc =
    | Idle
    | Spin(units: nat, ticket: nat, work: Work)
    | Inside(units: nat, work: Work, stores: nat)

  datatype State = State(released: nat, acquired: nat, pc: seq<Pc>, slots: seq<seq<Slot>>)

  datatype Event =
    | Arrive(hart: Hart, units: nat, work: Work)  // the add-and-fetch of `acquired`
    | Look(hart: Hart)                            // one load of `released`
    | Access(hart: Hart)                          // one load or store of the slot table
    | Leave(hart: Hart)                           // the add to `released`

  /** semaphore_init with `tickets`, over any slot table. */
  function Init(tickets: nat, harts: nat, slots: seq<seq<Slot>>): State {
    State(tickets, 0, seq(harts, _ => Idle), slots)
  }

  function From(w: Work): nat {
    if w.Read? then 0 else w.from
  }

  /** The number of slots a writer covers; its loop runs from `from` while below `to`. */
  function Extent(w: Work): nat {
    if w.Read? || w.to <= w.from then 0 else w.to - w.from
  }

  /** What a writer stores in slot i. */
  function Stored(w: Work, i: nat): Slot {
    match w
    case Update(pid, end, _, _, _) => Slot(pid % 256, (end - i) % 256)
    case _ => Slot(0, 0)
  }

  /** The table after all stores of a writer. */
  function Written(cfg: Config, t: seq<seq<Slot>>, w: Work): (r: seq<seq<Slot>>)
    ensures |r| == |t| && forall h | 0 <= h < |r| :: |r[h]| == |t[h]|
  {
    match w
    case Read => t
    case Update(pid, end, hart, from, to) => SchedUpdate(cfg, t, pid, end, hart, from, to)
    case Delete(hart, from, to) => SchedDelete(cfg, t, hart, from, to)
  }

  /** A writer's slots lie in the table. */
  predicate Fits(cfg: Config, t: seq<seq<Slot>>, w: Work) {
    !w.Read? ==> cfg.minHart <= w.hart < cfg.minHart + |t| && w.to <= |t[w.hart - cfg.minHart]|
  }

  /** A store alternates between the pid and the length of the next slot. */
  function Store(cfg: Config, t: seq<seq<Slot>>, w: Work, k: nat): (r: seq<seq<Slot>>)
    requires Fits(cfg, t, w) && k < 2 * Extent(w)
    ensures |r| == |t| && forall h | 0 <= h < |r| :: |r[h]| == |t[h]|
  {
    var h, i := w.hart - cfg.minHart, w.from + k / 2;
    var slot := if k % 2 == 0 then Slot(Stored(w, i).pid, t[h][i].length) else Slot(t[h][i].pid, Stored(w, i).length);
    t[h := t[h][i := slot]]
  }

  /** Requests are for at least one ticket and writers ask for all of them; a writer releases
      after its last store. */
  predicate Allowed(cfg: Config, tickets: nat, s: State, e: Event) {
    && e.hart < |s.pc|
    && match e
       case Arrive(h, units, w) =>
         s.pc[h] == Idle && 1 <= units && Fits(cfg, s.slots, w) && (!w.Read? ==> units == tickets)
       case Look(h) => s.pc[h].Spin?
       case Access(h) => s.pc[h].Inside? && (!s.pc[h].work.Read? ==> s.pc[h].stores < 2 * Extent(s.pc[h].work))
       case Leave(h) => s.pc[h].Inside? && (!s.pc[h].work.Read? ==> s.pc[h].stores == 2 * Extent(s.pc[h].work))
  }

  ghost predicate AllFit(cfg: Config, s: State) {
    forall h | 0 <= h < |s.pc| && s.pc[h].Inside? :: Fits(cfg, s.slots, s.pc[h].work)
  }

  function Step(cfg: Config, tickets: nat, s: State, e: Event): (s': State)
    requires AllFit(cfg, s) && Allowed(cfg, tickets, s, e)
    ensures |s'.pc| == |s.pc|
  {
    var h := e.hart;
    match e
    case Arrive(_, units, w) =>
      s.(acquired := s.acquired + units, pc := s.pc[h := Spin(units, s.acquired + units, w)])
    case Look(_) =>
      if s.pc[h].ticket > s.released then s
      else s.(pc := s.pc[h := Inside(s.pc[h].units, s.pc[h].work, 0)])
    case Access(_) =>
      var p := s.pc[h];
      if p.work.Read? then s
      else s.(slots := Store(cfg, s.slots, p.work, p.stores), pc := s.pc[h := Inside(p.units, p.work, p.stores + 1)])
    case Leave(_) =>
      s.(released := s.released + s.pc[h].units, pc := s.pc[h := Idle])
  }

  // ---------------------------------------------------------------- the log of requests

  datatype Phase = Waiting | Holding | Finished

  /** One acquire, in the order of the add-and-fetch. */
  datatype Request = Request(hart: Hart, units: nat, phase: Phase)

  function All(log: seq<Request>): nat {
    if log == [] then 0 else All(log[..|log| - 1]) + log[|log| - 1].units
  }

  function Share(r: Request, p: Phase): nat {
    if r.phase == p then r.units else 0
  }

  function In(log: seq<Request>, p: Phase): nat {
    if log == [] then 0 else In(log[..|log| - 1], p) + Share(log[|log| - 1], p)
  }

  /** The ticket of the i-th request: everything requested up to and including it. */
  function Ticket(log: seq<Request>, i: nat): nat
    requires i < |log|
  {
    All(log[..i + 1])
  }

  /** The pending request of a hart. */
  predicate Active(log: seq<Request>, h: Hart, i: nat) {
    i < |log| && log[i].hart == h && log[i].phase != Finished
  }

  ghost predicate HasActive(log: seq<Request>, h: Hart) {
    exists i: nat :: Active(log, h, i)
  }

  ghost function ActiveOf(log: seq<Request>, h: Hart): (i: nat)
    requires HasActive(log, h)
    ensures Active(log, h, i)
  {
    var i: nat :| Active(log, h, i);
    i
  }

  ghost function NextLog(s: State, log: seq<Request>, e: Event): seq<Request> {
    match e
    case Arrive(h, units, _) => log + [Request(h, units, Waiting)]
    case Look(h) =>
      if h < |s.pc| && s.pc[h].Spin? && s.pc[h].ticket <= s.released && HasActive(log, h) then
        var i := ActiveOf(log, h); log[i := Request(h, log[i].units, Holding)]
      else log
    case Leave(h) =>
      if HasActive(log, h) then var i := ActiveOf(log, h); log[i := Request(h, log[i].units, Finished)] else log
    case Access(_) => log
  }

  /** What a hart's place in the code says of its pending request. */
  predicate Agrees(p: Pc, r: Request, ticket: nat) {
    match r.phase
    case Waiting => p.Spin? && p.units == r.units && p.ticket == ticket
    case Holding => p.Inside? && p.units == r.units
    case Finished => true
  }

  ghost predicate Placed(s: State, log: seq<Request>, i: nat)
    requires i < |log|
  {
    log[i].phase != Finished ==> log[i].hart < |s.pc| && Agrees(s.pc[log[i].hart], log[i], Ticket(log, i))
  }

  ghost predicate Inv(tickets: nat, s: State, log: seq<Request>) {
    && s.acquired == All(log)
    && s.released == tickets + In(log, Finished)
    && (forall i | 0 <= i < |log| && log[i].phase != Waiting :: Ticket(log, i) <= s.released)
    && (forall i: nat {:trigger Placed(s, log, i)} | i < |log| :: Placed(s, log, i))
    && (forall i: nat, j: nat, h {:trigger Active(log, h, i), Active(log, h, j)} |
          Active(log, h, i) && Active(log, h, j) :: i == j)
    && (forall h | 0 <= h < |s.pc| && s.pc[h] != Idle :: HasActive(log, h))
    && (forall i | 0 <= i < |log| :: 1 <= log[i].units)
  }

  lemma AllSplits(log: seq<Request>)
    ensures All(log) == In(log, Waiting) + In(log, Holding) + In(log, Finished)
  {
  }

  lemma {:induction false} InUpdate(log: seq<Request>, i: nat, r: Request, p: Phase)
    requires i < |log|
    ensures In(log[i := r], p) == In(log, p) - Share(log[i], p) + Share(r, p)
  {
    var n := |log| - 1;
    if i == n {
      assert log[i := r][..n] == log[..n];
    } else {
      assert log[i := r][..n] == log[..n][i := r];
      InUpdate(log[..n], i, r, p);
    }
  }

  lemma {:induction false} AllUpdate(log: seq<Request>, i: nat, r: Request)
    requires i < |log| && r.units == log[i].units
    ensures All(log[i := r]) == All(log)
  {
    var n := |log| - 1;
    if i == n {
      assert log[i := r][..n] == log[..n];
    } else {
      assert log[i := r][..n] == log[..n][i := r];
      AllUpdate(log[..n], i, r);
    }
  }

  lemma TicketUpdate(log: seq<Request>, i: nat, r: Request, j: nat)
    requires i < |log| && j < |log| && r.units == log[i].units
    ensures Ticket(log[i := r], j) == Ticket(log, j)
  {
    if i <= j {
      assert log[i := r][..j + 1] == log[..j + 1][i := r];
      AllUpdate(log[..j + 1], i, r);
    } else {
      assert log[i := r][..j + 1] == log[..j + 1];
    }
  }

  lemma {:induction false} TicketsGrow(log: seq<Request>, i: nat, j: nat)
    requires i <= j < |log|
    ensures Ticket(log, i) <= Ticket(log, j)
    ensures i < j ==> Ticket(log, i) + log[j].units <= Ticket(log, j)
  {
    if i < j {
      assert log[..j + 1][..j] == log[..j];
      TicketsGrow(log, i, j - 1);
    }
  }

  /** Everything granted so far was covered by released tickets. */
  lemma {:induction false} GrantedCovered(log: seq<Request>, limit: nat)
    requires forall i | 0 <= i < |log| && log[i].phase != Waiting :: Ticket(log, i) <= limit
    ensures In(log, Holding) + In(log, Finished) <= limit
  {
    if log != [] {
      var n := |log| - 1;
      assert log[..n + 1] == log;
      if log[n].phase == Waiting {
        forall i | 0 <= i < n && log[i].phase != Waiting ensures Ticket(log[..n], i) <= limit {
          assert log[..n][..i + 1] == log[..i + 1];
          assert Ticket(log, i) <= limit;
        }
        GrantedCovered(log[..n], limit);
      } else {
        AllSplits(log);
        assert Ticket(log, n) <= limit;
      }
    }
  }

  /** At most `tickets` units are held at any time. */
  lemma HeldAtMost(tickets: nat, s: State, log: seq<Request>)
    requires Inv(tickets, s, log)
    ensures In(log, Holding) <= tickets
  {
    GrantedCovered(log, s.released);
  }

  lemma {:induction false} OneIn(log: seq<Request>, i: nat, p: Phase)
    requires i < |log|
    ensures Share(log[i], p) <= In(log, p)
  {
    var n := |log| - 1;
    if i < n { OneIn(log[..n], i, p); }
  }

  lemma {:induction false} TwoIn(log: seq<Request>, i: nat, j: nat, p: Phase)
    requires i < j < |log|
    ensures Share(log[i], p) + Share(log[j], p) <= In(log, p)
  {
    var n := |log| - 1;
    if j < n { TwoIn(log[..n], i, j, p); } else { OneIn(log[..n], i, p); }
  }

  /** The request behind a hart that is inside. */
  lemma Holder(tickets: nat, s: State, log: seq<Request>, h: Hart) returns (i: nat)
    requires Inv(tickets, s, log) && h < |s.pc| && s.pc[h].Inside?
    ensures Active(log, h, i) && log[i].phase == Holding && log[i].units == s.pc[h].units >= 1
  {
    i := ActiveOf(log, h);
    assert Placed(s, log, i);
  }

  /** A hart that holds all the tickets is alone inside. */
  lemma AllTicketsExclude(tickets: nat, s: State, log: seq<Request>, g: Hart, h: Hart)
    requires Inv(tickets, s, log) && g < |s.pc| && h < |s.pc| && g != h
    requires s.pc[g].Inside? && s.pc[h].Inside?
    ensures s.pc[g].units + s.pc[h].units <= tickets
  {
    var i := Holder(tickets, s, log, g);
    var j := Holder(tickets, s, log, h);
    if i < j { TwoIn(log, i, j, Holding); } else { TwoIn(log, j, i, Holding); }
    HeldAtMost(tickets, s, log);
  }

  lemma InitInv(tickets: nat, harts: nat, slots: seq<seq<Slot>>)
    ensures Inv(tickets, Init(tickets, harts, slots), [])
  {
  }

  lemma TicketAppend(log: seq<Request>, r: Request, i: nat)
    requires i <= |log|
    ensures Ticket(log + [r], i) == if i < |log| then Ticket(log, i) else All(log) + r.units
  {
    assert (log + [r])[..i + 1] == if i < |log| then log[..i + 1] else log + [r];
    assert (log + [r])[..|log|] == log;
  }

  lemma IdleHasNone(tickets: nat, s: State, log: seq<Request>, h: Hart)
    requires Inv(tickets, s, log) && h < |s.pc| && s.pc[h] == Idle
    ensures forall i: nat :: !Active(log, h, i)
  {
    forall i: nat | i < |log| && log[i].hart == h ensures log[i].phase == Finished {
      assert Placed(s, log, i);
    }
  }

  lemma ArriveInv(cfg: Config, tickets: nat, s: State, log: seq<Request>, e: Event)
    requires Inv(tickets, s, log) && AllFit(cfg, s) && Allowed(cfg, tickets, s, e) && e.Arrive?
    ensures Inv(tickets, Step(cfg, tickets, s, e), NextLog(s, log, e))
  {
    var r := Request(e.hart, e.units, Waiting);
    var log' := log + [r];
    assert log'[..|log|] == log;
    forall i | 0 <= i <= |log| ensures Ticket(log', i) == if i < |log| then Ticket(log, i) else All(log) + r.units {
      TicketAppend(log, r, i);
    }
    forall i: nat | i < |log'| ensures Placed(Step(cfg, tickets, s, e), log', i) {
      if i < |log| {
        assert Placed(s, log, i);
        if log[i].phase != Finished { assert Active(log, log[i].hart, i); IdleHasNone(tickets, s, log, e.hart); }
      }
    }
    forall h | 0 <= h < |s.pc| && (s.pc[h] != Idle || h == e.hart) ensures HasActive(log', h) {
      if h == e.hart { assert Active(log', h, |log|); } else { assert Active(log', h, ActiveOf(log, h)); }
    }
    IdleHasNone(tickets, s, log, e.hart);
    forall i: nat, j: nat, h | Active(log', h, i) && Active(log', h, j) ensures i == j {
      assert i < |log| ==> Active(log, h, i);
      assert j < |log| ==> Active(log, h, j);
    }
  }

  lemma AdvancePlaced(tickets: nat, s: State, s': State, log: seq<Request>, h: Hart, i: nat, phase: Phase, j: nat)
    requires Inv(tickets, s, log) && h < |s.pc| && Active(log, h, i) && phase != Waiting && j < |log|
    requires |s'.pc| == |s.pc| && s'.pc == s.pc[h := s'.pc[h]]
    requires phase == Holding ==> s'.pc[h].Inside? && s'.pc[h].units == log[i].units
    ensures Placed(s', log[i := Request(h, log[i].units, phase)], j)
  {
    var r := Request(h, log[i].units, phase);
    TicketUpdate(log, i, r, j);
    hide Ticket, All, In;
    assert Placed(s, log, j);
    assert Active(log, h, j) ==> j == i;
  }

  /** Advancing the pending request of a hart, whose place in the code advances with it. */
  lemma AdvanceInv(tickets: nat, s: State, s': State, log: seq<Request>, h: Hart, i: nat, phase: Phase)
    requires Inv(tickets, s, log) && h < |s.pc| && Active(log, h, i) && phase != Waiting && log[i].phase != phase
    requires s'.acquired == s.acquired && |s'.pc| == |s.pc| && s'.pc == s.pc[h := s'.pc[h]]
    requires s'.released == s.released + (if phase == Finished then log[i].units else 0)
    requires if phase == Finished then s'.pc[h] == Idle && log[i].phase == Holding
             else s'.pc[h].Inside? && s'.pc[h].units == log[i].units && Ticket(log, i) <= s.released
    ensures Inv(tickets, s', log[i := Request(h, log[i].units, phase)])
  {
    var r := Request(h, log[i].units, phase);
    var log' := log[i := r];
    hide Ticket, All, In;
    AllUpdate(log, i, r);
    InUpdate(log, i, r, Finished);
    forall j | 0 <= j < |log| ensures Ticket(log', j) == Ticket(log, j) {
      TicketUpdate(log, i, r, j);
    }
    forall j: nat, k: nat, g | Active(log', g, j) && Active(log', g, k) ensures j == k {
      assert Active(log, g, j) && Active(log, g, k);
    }
    forall j: nat | j < |log| ensures Placed(s', log', j) {
      AdvancePlaced(tickets, s, s', log, h, i, phase, j);
    }
    hide Placed;
    forall g | 0 <= g < |s'.pc| && s'.pc[g] != Idle ensures HasActive(log', g) {
      if g == h { assert Active(log', h, i); } else { assert Active(log', g, ActiveOf(log, g)); }
    }
  }

  lemma StepInv(cfg: Config, tickets: nat, s: State, log: seq<Request>, e: Event)
    requires Inv(tickets, s, log) && AllFit(cfg, s) && Allowed(cfg, tickets, s, e)
    ensures Inv(tickets, Step(cfg, tickets, s, e), NextLog(s, log, e))
  {
    var s', h := Step(cfg, tickets, s, e), e.hart;
    match e {
      case Arrive(_, _, _) => ArriveInv(cfg, tickets, s, log, e);
      case Look(_) =>
        assert Placed(s, log, ActiveOf(log, h));
        if s.pc[h].ticket <= s.released { AdvanceInv(tickets, s, s', log, h, ActiveOf(log, h), Holding); }
      case Leave(_) =>
        assert Placed(s, log, ActiveOf(log, h));
        AdvanceInv(tickets, s, s', log, h, ActiveOf(log, h), Finished);
      case Access(_) =>
        hide Store;
        forall i: nat | i < |log| ensures Placed(s', log, i) {
          assert Placed(s, log, i);
        }
    }
  }

  // ---------------------------------------------------------------- the table under the semaphore

  /** The table after the first k stores of a writer. */
  function Partial(cfg: Config, t: seq<seq<Slot>>, w: Work, k: nat): (r: seq<seq<Slot>>)
    requires Fits(cfg, t, w) && k <= 2 * Extent(w)
    ensures |r| == |t| && forall h | 0 <= h < |r| :: |r[h]| == |t[h]|
  {
    if k == 0 then t else Store(cfg, Partial(cfg, t, w, k - 1), w, k - 1)
  }

  lemma {:induction false} PartialAt(cfg: Config, t: seq<seq<Slot>>, w: Work, k: nat, h: nat, i: nat)
    requires Fits(cfg, t, w) && k <= 2 * Extent(w) && h < |t| && i < |t[h]| && !w.Read?
    ensures Partial(cfg, t, w, k)[h][i] ==
            if w.hart != cfg.minHart + h || i < w.from || i > w.from + k / 2 then t[h][i]
            else if i < w.from + k / 2 then Stored(w, i)
            else if k % 2 == 1 then Slot(Stored(w, i).pid, t[h][i].length) else t[h][i]
  {
    hide Stored;
    if k > 0 { PartialAt(cfg, t, w, k - 1, h, i); }
  }

  lemma WrittenAt(cfg: Config, t: seq<seq<Slot>>, w: Work, h: nat, i: nat)
    requires h < |t| && i < |t[h]| && !w.Read?
    ensures Written(cfg, t, w)[h][i] ==
              if w.hart == cfg.minHart + h && w.from <= i < w.to then Stored(w, i)
              else t[h][i]
  {
    if w.Update? {
      SchedUpdateAt(cfg, t, w.pid, w.end, w.hart, w.from, w.to, h, i);
    } else {
      SchedDeleteAt(cfg, t, w.hart, w.from, w.to, h, i);
    }
  }

  lemma AllStored(cfg: Config, t: seq<seq<Slot>>, w: Work)
    requires Fits(cfg, t, w) && !w.Read?
    ensures Partial(cfg, t, w, 2 * Extent(w)) == Written(cfg, t, w)
  {
    var p, q := Partial(cfg, t, w, 2 * Extent(w)), Written(cfg, t, w);
    forall h: nat | h < |t| ensures p[h] == q[h] {
      forall i: nat | i < |t[h]| ensures p[h][i] == q[h][i] {
        PartialAt(cfg, t, w, 2 * Extent(w), h, i);
        WrittenAt(cfg, t, w, h, i);
        hide Partial, Written, Stored;
      }
    }
  }

  /** The effect of whole writers, one after the other. */
  function WriteAll(cfg: Config, t: seq<seq<Slot>>, ws: seq<Work>): (r: seq<seq<Slot>>)
    ensures |r| == |t| && forall h | 0 <= h < |r| :: |r[h]| == |t[h]|
  {
    if ws == [] then t else Written(cfg, WriteAll(cfg, t, ws[..|ws| - 1]), ws[|ws| - 1])
  }

  /** A state with the log of its requests and the writers that have released, in that order. */
  datatype World = World(s: State, log: seq<Request>, writes: seq<Work>)

  ghost predicate WriterOk(cfg: Config, tickets: nat, t: seq<seq<Slot>>, slots: seq<seq<Slot>>, p: Pc) {
    p.Idle? || (
    && Fits(cfg, t, p.work)
    && (!p.work.Read? ==> p.units == tickets)
    && (p.Inside? && !p.work.Read? ==> p.stores <= 2 * Extent(p.work) && slots == Partial(cfg, t, p.work, p.stores)))
  }

  /** While a writer is inside, its stores so far have been made; otherwise the table is what the
      finished writers have left. */
  ghost predicate TableInv(cfg: Config, tickets: nat, s: State, t: seq<seq<Slot>>) {
    && |s.slots| == |t| && (forall h | 0 <= h < |t| :: |s.slots[h]| == |t[h]|)
    && (forall h | 0 <= h < |s.pc| :: WriterOk(cfg, tickets, t, s.slots, s.pc[h]))
    && ((forall h | 0 <= h < |s.pc| :: s.pc[h].Inside? ==> s.pc[h].work.Read?) ==> s.slots == t)
  }

  /** Units held by the harts themselves. */
  function Held(pcs: seq<Pc>): nat {
    if pcs == [] then 0
    else Held(pcs[..|pcs| - 1]) + if pcs[|pcs| - 1].Inside? then pcs[|pcs| - 1].units else 0
  }

  lemma {:induction false} HeldUpdate(pcs: seq<Pc>, h: nat, p: Pc)
    requires h < |pcs|
    ensures Held(pcs[h := p]) == Held(pcs) - (if pcs[h].Inside? then pcs[h].units else 0) +
              if p.Inside? then p.units
              else 0
  {
    var n := |pcs| - 1;
    if h == n {
      assert pcs[h := p][..n] == pcs[..n];
    } else {
      assert pcs[h := p][..n] == pcs[..n][h := p];
      HeldUpdate(pcs[..n], h, p);
    }
  }

  ghost predicate WorldInv(cfg: Config, tickets: nat, t0: seq<seq<Slot>>, w: World) {
    && Inv(tickets, w.s, w.log) && Held(w.s.pc) == In(w.log, Holding)
    && TableInv(cfg, tickets, w.s, WriteAll(cfg, t0, w.writes))
  }

  ghost function Exec(cfg: Config, tickets: nat, w: World, e: Event): World
    requires AllFit(cfg, w.s) && Allowed(cfg, tickets, w.s, e)
  {
    World(Step(cfg, tickets, w.s, e), NextLog(w.s, w.log, e),
          if e.Leave? && !w.s.pc[e.hart].work.Read? then w.writes + [w.s.pc[e.hart].work] else w.writes)
  }

  lemma FitsSame(cfg: Config, t: seq<seq<Slot>>, t': seq<seq<Slot>>, w: Work)
    requires |t'| == |t| && forall h | 0 <= h < |t| :: |t'[h]| == |t[h]|
    ensures Fits(cfg, t, w) <==> Fits(cfg, t', w)
  {
  }

  lemma TableFits(cfg: Config, tickets: nat, s: State, t: seq<seq<Slot>>)
    requires TableInv(cfg, tickets, s, t)
    ensures AllFit(cfg, s)
  {
    forall h | 0 <= h < |s.pc| && s.pc[h].Inside? ensures Fits(cfg, s.slots, s.pc[h].work) {
      assert WriterOk(cfg, tickets, t, s.slots, s.pc[h]);
      FitsSame(cfg, t, s.slots, s.pc[h].work);
    }
  }

  /** A writer is alone inside. */
  lemma WriterAlone(cfg: Config, tickets: nat, s: State, log: seq<Request>, h: Hart)
    requires Inv(tickets, s, log) && h < |s.pc| && s.pc[h].Inside? && s.pc[h].units == tickets
    ensures forall g | 0 <= g < |s.pc| && g != h :: !s.pc[g].Inside?
  {
    forall g: nat | g < |s.pc| && g != h ensures !s.pc[g].Inside? {
      if s.pc[g].Inside? {
        var i := Holder(tickets, s, log, g);
        AllTicketsExclude(tickets, s, log, g, h);
      }
    }
  }

  /** When a writer is granted, nobody is inside. */
  lemma GrantedAlone(cfg: Config, tickets: nat, s: State, log: seq<Request>, h: Hart)
    requires Inv(tickets, s, log) && AllFit(cfg, s) && h < |s.pc| && s.pc[h].Spin?
    requires s.pc[h].ticket <= s.released && s.pc[h].units == tickets
    ensures forall g | 0 <= g < |s.pc| :: !s.pc[g].Inside?
  {
    var s' := Step(cfg, tickets, s, Look(h));
    StepInv(cfg, tickets, s, log, Look(h));
    hide Inv, NextLog, AllFit;
    WriterAlone(cfg, tickets, s', NextLog(s, log, Look(h)), h);
    forall g | 0 <= g < |s.pc| ensures !s.pc[g].Inside? {
      assert g != h ==> s'.pc[g] == s.pc[g];
    }
  }

  lemma EnterTable(cfg: Config, tickets: nat, s: State, log: seq<Request>, t: seq<seq<Slot>>, e: Event)
    requires Inv(tickets, s, log) && TableInv(cfg, tickets, s, t) && AllFit(cfg, s) && Allowed(cfg, tickets, s, e)
    requires e.Arrive? || e.Look?
    ensures TableInv(cfg, tickets, Step(cfg, tickets, s, e), t)
  {
    var s', h := Step(cfg, tickets, s, e), e.hart;
    assert WriterOk(cfg, tickets, t, s.slots, s.pc[h]);
    assert forall g {:trigger s.pc[g]} {:trigger s'.pc[g]} | 0 <= g < |s.pc| && g != h :: s'.pc[g] == s.pc[g];
    if e.Arrive? {
      FitsSame(cfg, t, s.slots, e.work);
    } else if s.pc[h].ticket <= s.released && !s.pc[h].work.Read? {
      GrantedAlone(cfg, tickets, s, log, h);
    }
    hide Inv, Store, AllFit, Fits, Extent;
  }

  lemma AccessTable(cfg: Config, tickets: nat, s: State, log: seq<Request>, t: seq<seq<Slot>>, e: Event)
    requires Inv(tickets, s, log) && TableInv(cfg, tickets, s, t) && AllFit(cfg, s) && Allowed(cfg, tickets, s, e)
    requires e.Access?
    ensures TableInv(cfg, tickets, Step(cfg, tickets, s, e), t)
  {
    var s', h := Step(cfg, tickets, s, e), e.hart;
    assert WriterOk(cfg, tickets, t, s.slots, s.pc[h]);
    assert forall g {:trigger s.pc[g]} {:trigger s'.pc[g]} | 0 <= g < |s.pc| && g != h :: s'.pc[g] == s.pc[g];
    if !s.pc[h].work.Read? {
      WriterAlone(cfg, tickets, s, log, h);
      hide Inv, Store;
      assert s'.slots == Partial(cfg, t, s.pc[h].work, s.pc[h].stores + 1);
      forall g | 0 <= g < |s.pc| ensures WriterOk(cfg, tickets, t, s'.slots, s'.pc[g]) {
        assert WriterOk(cfg, tickets, t, s.slots, s.pc[g]);
      }
      assert s'.pc[h].Inside? && !s'.pc[h].work.Read?;
    }
    hide Inv, Store;
  }

  lemma LeaveTable(cfg: Config, tickets: nat, s: State, log: seq<Request>, t: seq<seq<Slot>>, e: Event)
    requires Inv(tickets, s, log) && TableInv(cfg, tickets, s, t) && AllFit(cfg, s) && Allowed(cfg, tickets, s, e)
    requires e.Leave?
    ensures TableInv(cfg, tickets, Step(cfg, tickets, s, e), Written(cfg, t, s.pc[e.hart].work))
  {
    var s', h := Step(cfg, tickets, s, e), e.hart;
    var w := s.pc[h].work;
    assert WriterOk(cfg, tickets, t, s.slots, s.pc[h]);
    assert forall g {:trigger s.pc[g]} {:trigger s'.pc[g]} | 0 <= g < |s.pc| && g != h :: s'.pc[g] == s.pc[g];
    if !w.Read? {
      WriterAlone(cfg, tickets, s, log, h);
      AllStored(cfg, t, w);
      var t' := Written(cfg, t, w);
      hide Inv, Written, Partial;
      forall g | 0 <= g < |s.pc| ensures WriterOk(cfg, tickets, t', s'.slots, s'.pc[g]) {
        assert WriterOk(cfg, tickets, t, s.slots, s.pc[g]);
        if s'.pc[g].Spin? { FitsSame(cfg, t, t', s.pc[g].work); }
      }
    }
    hide Inv, Partial, Fits;
  }

  /** The pending request of a hart agrees with its place in the code. */
  lemma Pending(tickets: nat, s: State, log: seq<Request>, h: Hart) returns (i: nat)
    requires Inv(tickets, s, log) && h < |s.pc| && s.pc[h] != Idle
    ensures HasActive(log, h) && i == ActiveOf(log, h) && Agrees(s.pc[h], log[i], Ticket(log, i))
  {
    i := ActiveOf(log, h);
    assert Placed(s, log, i);
  }

  lemma StepHeld(cfg: Config, tickets: nat, s: State, log: seq<Request>, e: Event)
    requires Inv(tickets, s, log) && AllFit(cfg, s) && Allowed(cfg, tickets, s, e) && Held(s.pc) == In(log, Holding)
    ensures Held(Step(cfg, tickets, s, e).pc) == In(NextLog(s, log, e), Holding)
  {
    hide Inv, Held, Store, Fits, Extent, Ticket;
    var h := e.hart;
    var s', log' := Step(cfg, tickets, s, e), NextLog(s, log, e);
    HeldUpdate(s.pc, h, s'.pc[h]);
    assert s.pc[h := s'.pc[h]] == s'.pc;
    if e.Arrive? {
      assert log'[..|log|] == log;
    } else if e.Leave? || (e.Look? && s.pc[h].ticket <= s.released) {
      var i := Pending(tickets, s, log, h);
      hide In;
      InUpdate(log, i, log'[i], Holding);
    }
  }

  lemma ExecInv(cfg: Config, tickets: nat, t0: seq<seq<Slot>>, w: World, e: Event)
    requires WorldInv(cfg, tickets, t0, w) && AllFit(cfg, w.s) && Allowed(cfg, tickets, w.s, e)
    ensures WorldInv(cfg, tickets, t0, Exec(cfg, tickets, w, e)) && AllFit(cfg, Exec(cfg, tickets, w, e).s)
  {
    var t := WriteAll(cfg, t0, w.writes);
    StepInv(cfg, tickets, w.s, w.log, e);
    StepHeld(cfg, tickets, w.s, w.log, e);
    match e {
      case Leave(_) => LeaveTable(cfg, tickets, w.s, w.log, t, e);
      case Access(_) => AccessTable(cfg, tickets, w.s, w.log, t, e);
      case _ => EnterTable(cfg, tickets, w.s, w.log, t, e);
    }
    var w' := Exec(cfg, tickets, w, e);
    hide Inv, TableInv, Held, In, Step, NextLog, Allowed;
    if e.Leave? && !w.s.pc[e.hart].work.Read? {
      assert w'.writes[..|w.writes|] == w.writes;
    }
    TableFits(cfg, tickets, w'.s, WriteAll(cfg, t0, w'.writes));
  }

  /** Every event is allowed in the state it meets. */
  ghost predicate IsRun(cfg: Config, tickets: nat, t0: seq<seq<Slot>>, w: World, es: seq<Event>)
    requires WorldInv(cfg, tickets, t0, w)
    decreases |es|
  {
    es == [] || (
      TableFits(cfg, tickets, w.s, WriteAll(cfg, t0, w.writes));
      Allowed(cfg, tickets, w.s, es[0]) && (
        ExecInv(cfg, tickets, t0, w, es[0]);
        IsRun(cfg, tickets, t0, Exec(cfg, tickets, w, es[0]), es[1..])))
  }

  ghost function Run(cfg: Config, tickets: nat, t0: seq<seq<Slot>>, w: World, es: seq<Event>): (r: World)
    requires WorldInv(cfg, tickets, t0, w) && IsRun(cfg, tickets, t0, w, es)
    ensures WorldInv(cfg, tickets, t0, r) && AllFit(cfg, r.s)
    decreases |es|
  {
    TableFits(cfg, tickets, w.s, WriteAll(cfg, t0, w.writes));
    if es == [] then w
    else ExecInv(cfg, tickets, t0, w, es[0]); Run(cfg, tickets, t0, Exec(cfg, tickets, w, es[0]), es[1..])
  }

  lemma {:induction false} NothingHeld(n: nat)
    ensures Held(seq(n, _ => Idle)) == 0
  {
    if n > 0 {
      assert seq(n, _ => Idle)[..n - 1] == seq(n - 1, _ => Idle);
      NothingHeld(n - 1);
    }
  }

  ghost function Start(cfg: Config, tickets: nat, harts: nat, t0: seq<seq<Slot>>): (w: World)
    ensures WorldInv(cfg, tickets, t0, w)
  {
    NothingHeld(harts);
    InitInv(tickets, harts, t0);
    World(Init(tickets, harts, t0), [], [])
  }

  ghost predicate IsHistory(cfg: Config, tickets: nat, harts: nat, t0: seq<seq<Slot>>, es: seq<Event>) {
    IsRun(cfg, tickets, t0, Start(cfg, tickets, harts, t0), es)
  }

  ghost function Reached(cfg: Config, tickets: nat, harts: nat, t0: seq<seq<Slot>>, es: seq<Event>): (w: World)
    requires IsHistory(cfg, tickets, harts, t0, es)
    ensures WorldInv(cfg, tickets, t0, w) && AllFit(cfg, w.s)
  {
    Run(cfg, tickets, t0, Start(cfg, tickets, harts, t0), es)
  }

  /** In every reachable state the harts inside hold no more than the initial tickets. */
  lemma UnitsBounded(cfg: Config, tickets: nat, harts: nat, t0: seq<seq<Slot>>, es: seq<Event>)
    requires IsHistory(cfg, tickets, harts, t0, es)
    ensures Held(Reached(cfg, tickets, harts, t0, es).s.pc) <= tickets
  {
    var w := Reached(cfg, tickets, harts, t0, es);
    HeldAtMost(tickets, w.s, w.log);
  }

  /** A hart that reads the slot table never sees a half-written update: the table is what the
      finished writers, in the order of their releases, have made of the initial one, and it stays
      so under every step of any hart until the reader leaves. */
  lemma ReadersSeeWholeUpdates(cfg: Config, tickets: nat, harts: nat, t0: seq<seq<Slot>>, es: seq<Event>, h: Hart,
                               e: Event)
    requires IsHistory(cfg, tickets, harts, t0, es)
    requires var s := Reached(cfg, tickets, harts, t0, es).s;
             && h < |s.pc| && s.pc[h].Inside? && s.pc[h].work.Read?
             && Allowed(cfg, tickets, s, e) && (e.hart == h ==> !e.Leave?)
    ensures var w := Reached(cfg, tickets, harts, t0, es);
            && w.s.slots == WriteAll(cfg, t0, w.writes)
            && Step(cfg, tickets, w.s, e).slots == w.s.slots && Step(cfg, tickets, w.s, e).pc[h] == w.s.pc[h]
  {
    var w := Reached(cfg, tickets, harts, t0, es);
    hide Reached, IsHistory;
    var t := WriteAll(cfg, t0, w.writes);
    forall g: nat | g < |w.s.pc| && w.s.pc[g].Inside? ensures w.s.pc[g].work.Read? {
      assert WriterOk(cfg, tickets, t, w.s.slots, w.s.pc[g]);
      if !w.s.pc[g].work.Read? { WriterAlone(cfg, tickets, w.s, w.log, g); }
    }
  }

  /** Tickets become grantable in the order in which they were drawn. */
  lemma GrantOrder(cfg: Config, tickets: nat, harts: nat, t0: seq<seq<Slot>>, es: seq<Event>, i: nat, j: nat)
    requires IsHistory(cfg, tickets, harts, t0, es)
    requires var w := Reached(cfg, tickets, harts, t0, es);
             i < j < |w.log| && w.log[i].phase == Waiting
             && (w.log[j].phase != Waiting || Ticket(w.log, j) <= w.s.released)
    ensures var w := Reached(cfg, tickets, harts, t0, es);
            && w.log[i].hart < |w.s.pc|
            && Allowed(cfg, tickets, w.s, Look(w.log[i].hart))
            && Step(cfg, tickets, w.s, Look(w.log[i].hart)).pc[w.log[i].hart].Inside?
  {
    var w := Reached(cfg, tickets, harts, t0, es);
    hide Reached, IsHistory;
    TicketsGrow(w.log, i, j);
    assert Placed(w.s, w.log, i);
  }

  lemma {:induction false} Unfinished(log: seq<Request>, i: nat)
    requires i < |log| && forall j | 0 <= j < i :: log[j].phase == Finished
    ensures All(log[..i]) <= In(log, Finished)
  {
    var n := |log| - 1;
    if i < n {
      assert log[..n][..i] == log[..i];
      Unfinished(log[..n], i);
    } else {
      AllFinished(log[..n]);
    }
  }

  lemma {:induction false} AllFinished(log: seq<Request>)
    requires forall j | 0 <= j < |log| :: log[j].phase == Finished
    ensures All(log) == In(log, Finished)
  {
    if log != [] { AllFinished(log[..|log| - 1]); }
  }

  /** Once everyone before it has released, the oldest waiter is granted at its next look. */
  lemma OldestGranted(tickets: nat, s: State, log: seq<Request>, i: nat)
    requires Inv(tickets, s, log) && i < |log| && log[i].phase == Waiting && log[i].units <= tickets
    requires forall j | 0 <= j < i :: log[j].phase == Finished
    ensures Ticket(log, i) <= s.released
  {
    Unfinished(log, i);
    assert log[..i + 1][..i] == log[..i];
  }

  /** The first request that has not finished. */
  lemma {:induction false} FirstActive(log: seq<Request>, k: nat) returns (i: nat)
    requires k < |log| && log[k].phase != Finished
    ensures i <= k && log[i].phase != Finished && forall j | 0 <= j < i :: log[j].phase == Finished
  {
    i := 0;
    while log[i].phase == Finished
      invariant i <= k && forall j | 0 <= j < i :: log[j].phase == Finished
      decreases k - i
    {
      i := i + 1;
    }
  }

  /** What a hart still has to do before it is idle. */
  function Rank(p: Pc): nat {
    match p
    case Idle => 0
    case Spin(_, _, w) => 2 * Extent(w) + 2
    case Inside(_, w, k) => if w.Read? then 1 else if k <= 2 * Extent(w) then 2 * Extent(w) + 1 - k else 0
  }

  function TotalRank(pcs: seq<Pc>): nat {
    if pcs == [] then 0 else TotalRank(pcs[..|pcs| - 1]) + Rank(pcs[|pcs| - 1])
  }

  lemma {:induction false} RankUpdate(pcs: seq<Pc>, h: nat, p: Pc)
    requires h < |pcs|
    ensures TotalRank(pcs[h := p]) == TotalRank(pcs) - Rank(pcs[h]) + Rank(p)
  {
    hide Rank;
    var n := |pcs| - 1;
    if h == n {
      assert pcs[h := p][..n] == pcs[..n];
    } else {
      assert pcs[h := p][..n] == pcs[..n][h := p];
      RankUpdate(pcs[..n], h, p);
    }
  }

  /** A step of hart h that brings it nearer to idle. */
  ghost predicate Useful(cfg: Config, tickets: nat, s: State, e: Event)
    requires AllFit(cfg, s)
  {
    Allowed(cfg, tickets, s, e) && !e.Arrive? && var s' := Step(cfg, tickets, s, e);
    Rank(s'.pc[e.hart]) < Rank(s.pc[e.hart]) && forall g | 0 <= g < |s.pc| && g != e.hart :: s'.pc[g] == s.pc[g]
  }

  /** No request is for more than the initial tickets. */
  ghost predicate Modest(tickets: nat, log: seq<Request>) {
    forall i | 0 <= i < |log| :: log[i].units <= tickets
  }

  lemma UsefulStep(cfg: Config, tickets: nat, t0: seq<seq<Slot>>, w: World, h: Hart) returns (e: Event)
    requires WorldInv(cfg, tickets, t0, w) && AllFit(cfg, w.s) && Modest(tickets, w.log)
    requires h < |w.s.pc| && w.s.pc[h] != Idle
    ensures Useful(cfg, tickets, w.s, e)
  {
    var i := FirstActive(w.log, ActiveOf(w.log, h));
    var g := w.log[i].hart;
    assert Placed(w.s, w.log, i);
    var p := w.s.pc[g];
    assert WriterOk(cfg, tickets, WriteAll(cfg, t0, w.writes), w.s.slots, p);
    if p.Spin? {
      OldestGranted(tickets, w.s, w.log, i);
      e := Look(g);
    } else if !p.work.Read? && p.stores < 2 * Extent(p.work) {
      e := Access(g);
    } else {
      e := Leave(g);
    }
    hide WorldInv, Store;
  }

  /** In every reachable state in which no request is for more than the initial tickets, as long as
      some hart is not idle some hart has a step that brings it nearer to idle, without a further
      arrival. */
  lemma NeverStuck(cfg: Config, tickets: nat, harts: nat, t0: seq<seq<Slot>>, es: seq<Event>, h: Hart)
    returns (e: Event)
    requires IsHistory(cfg, tickets, harts, t0, es)
    requires var w := Reached(cfg, tickets, harts, t0, es);
             h < |w.s.pc| && w.s.pc[h] != Idle && Modest(tickets, w.log)
    ensures Useful(cfg, tickets, Reached(cfg, tickets, harts, t0, es).s, e)
  {
    hide *;
    e := UsefulStep(cfg, tickets, t0, Reached(cfg, tickets, harts, t0, es), h);
  }

  predicate AllIdle(s: State) {
    forall h | 0 <= h < |s.pc| :: s.pc[h] == Idle
  }

  predicate NoArrival(es: seq<Event>) {
    forall e <- es :: !e.Arrive?
  }

  lemma UsefulLowers(cfg: Config, tickets: nat, t0: seq<seq<Slot>>, w: World, e: Event)
    requires WorldInv(cfg, tickets, t0, w) && AllFit(cfg, w.s) && Modest(tickets, w.log)
    requires Useful(cfg, tickets, w.s, e)
    ensures var w' := Exec(cfg, tickets, w, e); Modest(tickets, w'.log) && TotalRank(w'.s.pc) < TotalRank(w.s.pc)
  {
    var s' := Step(cfg, tickets, w.s, e);
    assert s'.pc == w.s.pc[e.hart := s'.pc[e.hart]];
    RankUpdate(w.s.pc, e.hart, s'.pc[e.hart]);
    hide TotalRank, Rank, WorldInv, Step;
  }

  /** Some schedule of at most TotalRank steps, none of them an arrival, makes every hart idle. */
  lemma {:induction false} Drains(cfg: Config, tickets: nat, t0: seq<seq<Slot>>, w: World) returns (es: seq<Event>)
    requires WorldInv(cfg, tickets, t0, w) && Modest(tickets, w.log)
    ensures |es| <= TotalRank(w.s.pc) && NoArrival(es)
    ensures IsRun(cfg, tickets, t0, w, es) && AllIdle(Run(cfg, tickets, t0, w, es).s)
    decreases TotalRank(w.s.pc)
  {
    hide WorldInv, Modest, AllFit, TotalRank, Exec, Allowed, Step, TableInv, WriteAll;
    if AllIdle(w.s) {
      es := [];
    } else {
      WorldFits(cfg, tickets, t0, w);
      var h: nat :| h < |w.s.pc| && w.s.pc[h] != Idle;
      var e := UsefulStep(cfg, tickets, t0, w, h);
      UsefulLowers(cfg, tickets, t0, w, e);
      ExecInv(cfg, tickets, t0, w, e);
      var rest := Drains(cfg, tickets, t0, Exec(cfg, tickets, w, e));
      es := [e] + rest;
      assert es[1..] == rest;
    }
  }

  lemma WorldFits(cfg: Config, tickets: nat, t0: seq<seq<Slot>>, w: World)
    requires WorldInv(cfg, tickets, t0, w)
    ensures AllFit(cfg, w.s)
  {
    TableFits(cfg, tickets, w.s, WriteAll(cfg, t0, w.writes));
  }

  // ---------------------------------------------------------------- requests for too much

  /** A request for more than the initial tickets waits, and so do all requests after it. */
  ghost predicate OversizeWaits(tickets: nat, log: seq<Request>) {
    forall i, j | 0 <= i <= j < |log| && log[i].units > tickets :: log[j].phase == Waiting
  }

  lemma {:induction false} FinishedBelow(log: seq<Request>, i: nat)
    requires i <= |log| && forall j | i <= j < |log| :: log[j].phase == Waiting
    ensures In(log, Finished) <= All(log[..i])
  {
    var n := |log| - 1;
    if i <= n {
      assert log[..n][..i] == log[..i];
      FinishedBelow(log[..n], i);
    } else {
      assert log[..i] == log;
      AllSplits(log);
    }
  }

  /** Nobody from such a request on is granted. */
  lemma OversizeBlocks(tickets: nat, s: State, log: seq<Request>, i: nat, j: nat)
    requires Inv(tickets, s, log) && OversizeWaits(tickets, log) && i <= j < |log| && log[i].units > tickets
    ensures s.released < Ticket(log, j)
  {
    FinishedBelow(log, i);
    TicketsGrow(log, i, j);
    assert log[..i + 1][..i] == log[..i];
  }

  lemma StepOversize(cfg: Config, tickets: nat, s: State, log: seq<Request>, e: Event)
    requires Inv(tickets, s, log) && AllFit(cfg, s) && Allowed(cfg, tickets, s, e) && OversizeWaits(tickets, log)
    ensures OversizeWaits(tickets, NextLog(s, log, e))
    ensures var log' := NextLog(s, log, e);
            |log| <= |log'| && forall i | 0 <= i < |log| :: log'[i].units == log[i].units
  {
    var h := e.hart;
    if e.Look? || e.Leave? {
      var k := Pending(tickets, s, log, h);
      if e.Look? && s.pc[h].ticket <= s.released {
        forall i | 0 <= i <= k && log[i].units > tickets ensures false {
          OversizeBlocks(tickets, s, log, i, k);
        }
      }
    }
    hide Inv, Ticket, All, In;
  }

  lemma {:induction false} RunOversize(cfg: Config, tickets: nat, t0: seq<seq<Slot>>, w: World, es: seq<Event>)
    requires WorldInv(cfg, tickets, t0, w) && IsRun(cfg, tickets, t0, w, es) && OversizeWaits(tickets, w.log)
    ensures var log := Run(cfg, tickets, t0, w, es).log;
            && OversizeWaits(tickets, log)
            && |w.log| <= |log| && forall i | 0 <= i < |w.log| :: log[i].units == w.log[i].units
    decreases |es|
  {
    hide Inv, OversizeWaits, Allowed, TableInv, WriteAll, Step, NextLog;
    if es != [] {
      WorldFits(cfg, tickets, t0, w);
      StepOversize(cfg, tickets, w.s, w.log, es[0]);
      ExecInv(cfg, tickets, t0, w, es[0]);
      RunOversize(cfg, tickets, t0, Exec(cfg, tickets, w, es[0]), es[1..]);
    }
  }

  /** From a reachable state the harts can all become idle exactly when no request is for more than
      the initial tickets. */
  lemma DrainsExactly(cfg: Config, tickets: nat, harts: nat, t0: seq<seq<Slot>>, es: seq<Event>)
    requires IsHistory(cfg, tickets, harts, t0, es)
    ensures var w := Reached(cfg, tickets, harts, t0, es);
            (exists more :: NoArrival(more) && CanIdle(cfg, tickets, t0, w, more)) <==> Modest(tickets, w.log)
  {
    var w := Reached(cfg, tickets, harts, t0, es);
    RunOversize(cfg, tickets, t0, Start(cfg, tickets, harts, t0), es);
    hide Reached, IsHistory, IsRun, Run;
    if Modest(tickets, w.log) {
      var more := Drains(cfg, tickets, t0, w);
      assert CanIdle(cfg, tickets, t0, w, more);
    }
    forall more | CanIdle(cfg, tickets, t0, w, more) ensures Modest(tickets, w.log) {
      IdleWasModest(cfg, tickets, t0, w, more);
    }
  }

  /** The events make a run from w, and all harts are idle behind it. */
  ghost predicate CanIdle(cfg: Config, tickets: nat, t0: seq<seq<Slot>>, w: World, es: seq<Event>)
    requires WorldInv(cfg, tickets, t0, w)
  {
    IsRun(cfg, tickets, t0, w, es) && AllIdle(Run(cfg, tickets, t0, w, es).s)
  }

  lemma IdleWasModest(cfg: Config, tickets: nat, t0: seq<seq<Slot>>, w: World, es: seq<Event>)
    requires WorldInv(cfg, tickets, t0, w) && OversizeWaits(tickets, w.log) && CanIdle(cfg, tickets, t0, w, es)
    ensures Modest(tickets, w.log)
  {
    RunOversize(cfg, tickets, t0, w, es);
    var w' := Run(cfg, tickets, t0, w, es);
    hide Run, IsRun, TableInv;
    forall i | 0 <= i < |w.log| ensures w.log[i].units <= tickets {
      assert Placed(w'.s, w'.log, i);
    }
  }
}
