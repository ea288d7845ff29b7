/** What preempted waiters can do to the queue lock (mcslock.c): make a hart write through a NULL
    pointer, and leave the lock held for good.  Each with the runs that do so and the exact condition
    under which there is one. */
module QueueAborts {
  import opened QueueLock

  /** Runs in which waiters may be preempted, and plain reads of node->prev may go to memory again,
      only if so permitted. */
  ghost predicate Permitted(es: seq<Event>, preemption: bool, reloading: bool) {
    forall e <- es :: (e.preempt ==> preemption) && (e.reload ==> reloading)
  }

  // ---------------------------------------------------------------- some harts of many

  predicate Near(p: Ptr, m: nat) {
    p.Node? ==> p.hart < m
  }

  predicate NearPc(pc: Pc, m: nat) {
    match pc
    case StorePrev(r) => Near(r, m)
    case Test(r) => Near(r, m)
    case Link(r) => Near(r, m)
    case LoadNext(p) => Near(p, m)
    case Cas(p, t) => Near(p, m) && Near(t, m)
    case Patch(p, t) => Near(p, m) && Near(t, m)
    case _ => true
  }

  /** No pointer of the tail or the first m harts leads to another hart. */
  ghost predicate Closed(s: State, m: nat) {
    && Sized(s, |s.pc|) && m <= |s.pc| && Near(s.tailPrev, m)
    && (forall h | 0 <= h < m :: Near(s.prev[h], m))
    && (forall h | 0 <= h < m :: Near(s.next[h], m))
    && (forall h | 0 <= h < m :: NearPc(s.pc[h], m))
  }

  /** The first m harts alone. */
  function Front(s: State, m: nat): (r: State)
    requires Sized(s, |s.pc|) && m <= |s.pc|
    ensures Sized(r, m)
  {
    State(s.tailPrev, s.prev[..m], s.next[..m], s.pc[..m])
  }

  /** The harts from the m-th on are the same in both states. */
  ghost predicate SameRest(s: State, s': State, m: nat) {
    && Sized(s, |s.pc|) && Sized(s', |s.pc|) && m <= |s.pc|
    && s'.prev[m..] == s.prev[m..] && s'.next[m..] == s.next[m..] && s'.pc[m..] == s.pc[m..]
  }

  ghost predicate Equal(s: State, t: State) {
    s.tailPrev == t.tailPrev && s.prev == t.prev && s.next == t.next && s.pc == t.pc
  }

  lemma FrontReads(s: State, m: nat, q: Ptr)
    requires Sized(s, |s.pc|) && m <= |s.pc| && Near(q, m)
    ensures ReadPrev(Front(s, m), q) == ReadPrev(s, q)
  {
  }

  lemma FrontWrites(s: State, m: nat, q: Ptr, p: Ptr)
    requires Sized(s, |s.pc|) && m <= |s.pc| && Near(q, m)
    ensures Closed(s, m) && Near(p, m) ==> Closed(WritePrev(s, q, p), m) && Closed(WriteNext(s, q, p), m)
    ensures SameRest(s, WritePrev(s, q, p), m) && Front(WritePrev(s, q, p), m) == WritePrev(Front(s, m), q, p)
    ensures SameRest(s, WriteNext(s, q, p), m) && Front(WriteNext(s, q, p), m) == WriteNext(Front(s, m), q, p)
  {
    assert Equal(Front(WritePrev(s, q, p), m), WritePrev(Front(s, m), q, p));
    assert Equal(Front(WriteNext(s, q, p), m), WriteNext(Front(s, m), q, p));
  }

  lemma FrontGoes(s: State, m: nat, h: Hart, pc: Pc)
    requires Sized(s, |s.pc|) && h < m <= |s.pc|
    ensures Closed(s, m) && NearPc(pc, m) ==> Closed(Goto(s, h, pc), m)
    ensures SameRest(s, Goto(s, h, pc), m) && Front(Goto(s, h, pc), m) == Goto(Front(s, m), h, pc)
  {
    assert Equal(Front(Goto(s, h, pc), m), Goto(Front(s, m), h, pc));
  }

  lemma FrontIs(s: State, m: nat, h: Hart)
    requires Sized(s, |s.pc|) && h < m <= |s.pc|
    ensures var f := Front(s, m);
            f.tailPrev == s.tailPrev && f.pc[h] == s.pc[h] && f.prev[h] == s.prev[h] && f.next[h] == s.next[h]
    ensures Closed(s, m) ==> Near(s.prev[h], m) && Near(s.next[h], m) && NearPc(s.pc[h], m) && Near(s.tailPrev, m)
    ensures Closed(s, m) ==> Closed(s.(tailPrev := Node(h)), m)
    ensures forall p: Ptr :: Front(s.(tailPrev := p), m) == Front(s, m).(tailPrev := p)
    ensures forall p: Ptr :: s.(prev := s.prev[h := p]) == WritePrev(s, Node(h), p)
    ensures forall p: Ptr :: Front(s, m).(prev := Front(s, m).prev[h := p]) == WritePrev(Front(s, m), Node(h), p)
  {
  }

  predicate Leaves(pc: Pc) {
    pc.Critical? || pc.Take? || pc.LoadNext? || pc.Cas? || pc.Patch?
  }

  ghost predicate Apart(s: State, s': State, f': State, m: nat) {
    Closed(s', m) && SameRest(s, s', m) && Front(s', m) == f'
  }

  lemma FrontAcquires(s: State, m: nat, e: Event)
    requires Closed(s, m) && e.hart < m && !Leaves(s.pc[e.hart])
    ensures Apart(s, Step(s, e), Step(Front(s, m), e), m)
  {
    var h := e.hart;
    FrontIs(s, m, h);
    hide Closed, SameRest, Front, ReadPrev, WritePrev, WriteNext, Goto;
    match s.pc[h] {
      case Idle =>
        FrontWrites(s, m, Node(h), Tail);
        FrontGoes(WriteNext(s, Node(h), Tail), m, h, Exchange);
      case Exchange =>
        FrontGoes(s.(tailPrev := Node(h)), m, h, StorePrev(s.tailPrev));
      case StorePrev(r) =>
        FrontWrites(s, m, Node(h), r);
        FrontGoes(WritePrev(s, Node(h), r), m, h, Test(r));
      case Test(r) =>
        var v := if e.reload then s.prev[h] else r;
        FrontGoes(s, m, h, if v == Null then Critical else Link(v));
      case Link(r) =>
        var v := if e.reload then s.prev[h] else r;
        FrontGoes(s, m, h, Fault);
        FrontWrites(s, m, v, Node(h));
        FrontGoes(WriteNext(s, v, Node(h)), m, h, Spin);
      case Spin =>
        FrontGoes(s, m, h, if s.prev[h] == Null then Critical else Take);
      case Fault =>
      case _ =>
    }
  }

  lemma FrontReleases(s: State, m: nat, e: Event)
    requires Closed(s, m) && e.hart < m && Leaves(s.pc[e.hart])
    ensures Apart(s, Step(s, e), Step(Front(s, m), e), m)
  {
    var h := e.hart;
    FrontIs(s, m, h);
    hide Closed, SameRest, Front, ReadPrev, WritePrev, WriteNext, Goto;
    match s.pc[h] {
      case Critical =>
        FrontGoes(s, m, h, Take);
      case Take =>
        FrontWrites(s, m, Node(h), Null);
        FrontGoes(WritePrev(s, Node(h), Null), m, h, LoadNext(s.prev[h]));
      case LoadNext(p) =>
        FrontGoes(s, m, h, Cas(p, s.next[h]));
      case Cas(p, t) =>
        FrontReads(s, m, t);
        FrontGoes(s, m, h, LoadNext(p));
        FrontWrites(s, m, t, p);
        FrontGoes(WritePrev(s, t, p), m, h, Patch(p, t));
      case Patch(p, t) =>
        FrontWrites(s, m, p, t);
        FrontGoes(WriteNext(s, p, t), m, h, Idle);
      case _ =>
    }
  }

  /** What the first m harts do does not depend on the others while no pointer leads to them. */
  lemma FrontStep(s: State, m: nat, e: Event)
    requires Closed(s, m) && e.hart < m
    ensures Apart(s, Step(s, e), Step(Front(s, m), e), m)
  {
    hide Step;
    if Leaves(s.pc[e.hart]) { FrontReleases(s, m, e); } else { FrontAcquires(s, m, e); }
  }

  lemma {:induction false} FrontRun(s: State, m: nat, es: seq<Event>)
    requires Closed(s, m) && EventsOf(es, m)
    ensures SameRest(s, Run(s, es), m) && Front(Run(s, es), m) == Run(Front(s, m), es)
    decreases |es|
  {
    hide Step, Near, NearPc;
    if es != [] {
      FrontStep(s, m, es[0]);
      FrontRun(Step(s, es[0]), m, es[1..]);
    }
  }

  /** A run of m harts is one of any larger number of harts, of which the others stay idle. */
  lemma MoreHarts(m: nat, n: nat, es: seq<Event>)
    requires m <= n && EventsOf(es, m)
    ensures Sized(Run(Init(n), es), n) && Front(Run(Init(n), es), m) == Run(Init(m), es)
    ensures SameRest(Init(n), Run(Init(n), es), m)
  {
    assert Equal(Front(Init(n), m), Init(m));
    FrontRun(Init(n), m, es);
  }

  // ---------------------------------------------------------------- runs step by step

  lemma {:induction false} RunLast(s: State, es: seq<Event>, e: Event)
    requires Sized(s, |s.pc|) && EventsOf(es, |s.pc|) && e.hart < |s.pc|
    ensures Run(s, es + [e]) == Step(Run(s, es), e)
    decreases |es|
  {
    hide Step;
    if es == [] {
      assert (es + [e])[1..] == [];
    } else {
      assert (es + [e])[1..] == es[1..] + [e];
      RunLast(Step(s, es[0]), es[1..], e);
    }
  }

  /** es leads m harts from their initial state to s, without a second read of node->prev. */
  ghost predicate Leads(m: nat, es: seq<Event>, s: State) {
    EventsOf(es, m) && Permitted(es, true, false) && Run(Init(m), es) == s
  }

  /** One more step, of hart h. */
  lemma More(m: nat, es: seq<Event>, s: State, h: Hart, preempt: bool, s': State) returns (es': seq<Event>, t: State)
    requires Leads(m, es, s) && Sized(s, m) && h < m && Equal(Step(s, Event(h, preempt, false)), s')
    ensures Leads(m, es', t) && t == s' && Sized(t, m)
  {
    hide Step, Run;
    RunLast(Init(m), es, Event(h, preempt, false));
    es', t := es + [Event(h, preempt, false)], s';
  }

  // a run that goes wrong

  /** Two harts that have done nothing. */
  const START: State := State(Null, [Null, Null], [Null, Null], [Idle, Idle])

  /** Hart 0 has left the lock; hart 1, first in the queue, has yet to link itself to hart 0. */
  const LATE: State := State(Node(1), [Null, Null], [Tail, Tail], [Patch(Null, Node(1)), Link(Node(0))])

  /** Hart 0 has joined again, behind hart 1. */
  const BEHIND: State := State(Node(0), [Node(1), Null], [Tail, Node(0)], [Spin, Link(Node(0))])

  /** Both harts are in their releases, each with the other as its next, and neither as a prev. */
  const CROSSED: State := State(Node(0), [Null, Null], [Node(1), Node(0)], [LoadNext(Node(1)), LoadNext(Null)])

  /** A third hart that has done nothing. */
  const WITH_THIRD: State :=
    State(Node(0), [Node(1), Null, Null], [Tail, Node(0), Null], [Spin, Link(Node(0)), Idle])

  /** Hart 2 has linked itself to hart 0. */
  const LINKED: State :=
    State(Node(2), [Node(1), Null, Node(0)], [Node(2), Node(0), Tail], [Spin, Link(Node(0)), Spin])

  /** Hart 0 holds the lock with hart 1 as its next; hart 2, its successor, spins. */
  const OVERWRITTEN: State :=
    State(Node(2), [Null, Null, Node(0)], [Node(1), Node(0), Tail], [LoadNext(Null), Idle, Spin])

  /** Hart 0 takes the lock, hart 1 joins the queue, links itself and spins.  Hart 0 releases: it has
      read its next field and is about to compare-exchange hart 1's. */
  lemma Waiting(es0: seq<Event>) returns (es: seq<Event>)
    requires Leads(2, es0, START)
    ensures Leads(2, es, State(Node(1), [Null, Node(0)], [Node(1), Tail], [Cas(Null, Node(1)), Spin]))
  {
    hide Leads;
    var s;
    es, s := es0, START;
    es, s := More(2, es, s, 0, false, State(Null, [Null, Null], [Tail, Null], [Exchange, Idle]));
    es, s := More(2, es, s, 0, false, State(Node(0), [Null, Null], [Tail, Null], [StorePrev(Null), Idle]));
    es, s := More(2, es, s, 0, false, State(Node(0), [Null, Null], [Tail, Null], [Test(Null), Idle]));
    es, s := More(2, es, s, 0, false, State(Node(0), [Null, Null], [Tail, Null], [Critical, Idle]));
    es, s := More(2, es, s, 1, false, State(Node(0), [Null, Null], [Tail, Tail], [Critical, Exchange]));
    es, s := More(2, es, s, 1, false, State(Node(1), [Null, Null], [Tail, Tail], [Critical, StorePrev(Node(0))]));
    es, s := More(2, es, s, 1, false, State(Node(1), [Null, Node(0)], [Tail, Tail], [Critical, Test(Node(0))]));
    es, s := More(2, es, s, 1, false, State(Node(1), [Null, Node(0)], [Tail, Tail], [Critical, Link(Node(0))]));
    es, s := More(2, es, s, 1, false, State(Node(1), [Null, Node(0)], [Node(1), Tail], [Critical, Spin]));
    es, s := More(2, es, s, 0, false, State(Node(1), [Null, Node(0)], [Node(1), Tail], [Take, Spin]));
    es, s := More(2, es, s, 0, false, State(Node(1), [Null, Node(0)], [Node(1), Tail], [LoadNext(Null), Spin]));
    es, s := More(2, es, s, 0, false, State(Node(1), [Null, Node(0)], [Node(1), Tail], [Cas(Null, Node(1)), Spin]));
  }

  /** Hart 1 is preempted and leaves the queue, joins it again behind hart 0, and is about to link
      itself.  Hart 0's compare-exchange finds hart 1 in its place and clears the field. */
  lemma Rejoining(es0: seq<Event>) returns (es: seq<Event>)
    requires Leads(2, es0, State(Node(1), [Null, Node(0)], [Node(1), Tail], [Cas(Null, Node(1)), Spin]))
    ensures Leads(2, es, LATE)
  {
    hide Leads;
    var s;
    es, s := es0, State(Node(1), [Null, Node(0)], [Node(1), Tail], [Cas(Null, Node(1)), Spin]);
    es, s := More(2, es, s, 1, true, State(Node(1), [Null, Node(0)], [Node(1), Tail], [Cas(Null, Node(1)), Take]));
    es, s := More(2, es, s, 1, false,
                  State(Node(1), [Null, Null], [Node(1), Tail], [Cas(Null, Node(1)), LoadNext(Node(0))]));
    es, s := More(2, es, s, 1, false,
                  State(Node(1), [Null, Null], [Node(1), Tail], [Cas(Null, Node(1)), Cas(Node(0), Tail)]));
    es, s := More(2, es, s, 1, false,
                  State(Node(0), [Null, Null], [Node(1), Tail], [Cas(Null, Node(1)), Patch(Node(0), Tail)]));
    es, s := More(2, es, s, 1, false, State(Node(0), [Null, Null], [Tail, Tail], [Cas(Null, Node(1)), Idle]));
    es, s := More(2, es, s, 1, false, State(Node(0), [Null, Null], [Tail, Tail], [Cas(Null, Node(1)), Exchange]));
    es, s := More(2, es, s, 1, false,
                  State(Node(1), [Null, Null], [Tail, Tail], [Cas(Null, Node(1)), StorePrev(Node(0))]));
    es, s := More(2, es, s, 1, false,
                  State(Node(1), [Null, Node(0)], [Tail, Tail], [Cas(Null, Node(1)), Test(Node(0))]));
    es, s := More(2, es, s, 1, false,
                  State(Node(1), [Null, Node(0)], [Tail, Tail], [Cas(Null, Node(1)), Link(Node(0))]));
    es, s := More(2, es, s, 0, false,
                  State(Node(1), [Null, Null], [Tail, Tail], [Patch(Null, Node(1)), Link(Node(0))]));
  }

  /** Hart 1 has not linked itself when hart 0's compare-exchange makes it the first of the queue. */
  lemma LateLink() returns (es: seq<Event>)
    ensures Leads(2, es, LATE)
  {
    es := [];
    assert Equal(Init(2), START);
    es := Waiting(es);
    es := Rejoining(es);
  }

  // ---------------------------------------------------------------- following a NULL pointer

  // The queue lock follows a NULL predecessor when a waiter reads node->prev from memory once more,
  // after its predecessor has left the queue and cleared the field, and writes through it.  It takes
  // a preempted waiter to get there: the predecessor's compare-exchange has to find a node that left
  // the queue and joined it again.

  ghost predicate Faults(n: nat, es: seq<Event>)
    requires EventsOf(es, n)
  {
    Fault in Run(Init(n), es).pc
  }

  /** Two of any number of harts bring one of them to follow a NULL pointer. */
  lemma FaultingRun(n: nat) returns (es: seq<Event>)
    requires n >= 2
    ensures EventsOf(es, n) && Faults(n, es)
  {
    var late := LateLink();
    RunLast(Init(2), late, Event(1, false, true));
    es := late + [Event(1, false, true)];
    MoreHarts(2, n, es);
    assert Front(Run(Init(n), es), 2).pc[1] == Fault;
    hide Run;
  }

  /** A hart that keeps the value of its first read never holds a NULL predecessor to follow. */
  predicate KeepsRead(pc: Pc) {
    pc != Fault && pc != Link(Null)
  }

  lemma {:induction false} NoReloadNoFault(s: State, es: seq<Event>)
    requires Sized(s, |s.pc|) && EventsOf(es, |s.pc|) && Permitted(es, true, false)
    requires forall h | 0 <= h < |s.pc| :: KeepsRead(s.pc[h])
    ensures Fault !in Run(s, es).pc
    decreases |es|
  {
    if es != [] {
      assert es[0] in es;
      NoReloadNoFault(Step(s, es[0]), es[1..]);
    }
  }

  /** A hart that is alone finds the lock free, holds it, or is leaving the queue it is alone in. */
  ghost predicate Alone(s: State) {
    && |s.pc| == |s.prev| == |s.next| == 1
    && match s.pc[0]
       case Idle | Patch(_, _) => s.tailPrev == Null && s.pc[0] != Patch(Null, Null)
       case Exchange => s.tailPrev == Null && s.next[0] == Tail
       case StorePrev(r) => r == Null && s.tailPrev == Node(0) && s.next[0] == Tail
       case Test(r) => r == Null == s.prev[0] && s.tailPrev == Node(0) && s.next[0] == Tail
       case Critical | Take => s.prev[0] == Null && s.tailPrev == Node(0) && s.next[0] == Tail
       case LoadNext(p) => p == Null && s.tailPrev == Node(0) && s.next[0] == Tail
       case Cas(p, t) => p == Null && t == Tail && s.tailPrev == Node(0)
       case _ => false
  }

  lemma {:induction false} AloneRun(s: State, es: seq<Event>)
    requires Alone(s) && EventsOf(es, 1)
    ensures Alone(Run(s, es))
    decreases |es|
  {
    if es != [] {
      assert es[0] in es;
      AloneRun(Step(s, es[0]), es[1..]);
    }
  }

  /** Some run faults exactly when there are two harts, waiters may be preempted, and a plain read
      of node->prev may go to memory again. */
  lemma FaultExactly(n: nat, preemption: bool, reloading: bool)
    ensures (exists es :: EventsOf(es, n) && Permitted(es, preemption, reloading) && Faults(n, es))
            <==> n >= 2 && preemption && reloading
  {
    hide Run, Faults;
    if n >= 2 && preemption && reloading {
      var es := FaultingRun(n);
      assert Permitted(es, preemption, reloading);
    }
    forall es | EventsOf(es, n) && Permitted(es, preemption, reloading) && !(n >= 2 && preemption && reloading)
      ensures !Faults(n, es)
    {
      NoFault(n, es, preemption, reloading);
    }
  }

  lemma NoFault(n: nat, es: seq<Event>, preemption: bool, reloading: bool)
    requires EventsOf(es, n) && Permitted(es, preemption, reloading) && !(n >= 2 && preemption && reloading)
    ensures !Faults(n, es)
  {
    if n == 0 {
    } else if n == 1 {
      AloneRun(Init(1), es);
    } else if !preemption {
      FirstInFirstOut(n, es);
    } else {
      NoReloadNoFault(Init(n), es);
    }
  }

  // ---------------------------------------------------------------- a lock held for good

  // The same late link can overwrite a newer one.  A release then compares the field of a node that
  // is not behind it, fails, reads the same next once more, and so on.

  predicate Releasing(pc: Pc) {
    pc.LoadNext? || pc.Cas?
  }

  /** Whatever happens without a further preemption, arrivals included: h's compare-exchange never
      succeeds, and nobody gets the lock. */
  ghost predicate Dead(s: State, h: Hart)
    requires Sized(s, |s.pc|)
  {
    h < |s.pc| && forall es | EventsOf(es, |s.pc|) && NoPreemption(es) ::
      Releasing(Run(s, es).pc[h]) && Critical !in Run(s, es).pc
  }

  ghost predicate Dies(n: nat, es: seq<Event>, h: Hart)
    requires EventsOf(es, n)
  {
    Dead(Run(Init(n), es), h)
  }

  /** Hart 0 gives the lock to hart 1 and joins the queue behind it. */
  lemma JoiningBehind(es0: seq<Event>) returns (es: seq<Event>)
    requires Leads(2, es0, LATE)
    ensures Leads(2, es, BEHIND)
  {
    hide Leads;
    var s;
    es, s := es0, LATE;
    es, s := More(2, es, s, 0, false, State(Node(1), [Null, Null], [Tail, Tail], [Idle, Link(Node(0))]));
    es, s := More(2, es, s, 0, false, State(Node(1), [Null, Null], [Tail, Tail], [Exchange, Link(Node(0))]));
    es, s := More(2, es, s, 0, false, State(Node(0), [Null, Null], [Tail, Tail], [StorePrev(Node(1)), Link(Node(0))]));
    es, s := More(2, es, s, 0, false, State(Node(0), [Node(1), Null], [Tail, Tail], [Test(Node(1)), Link(Node(0))]));
    es, s := More(2, es, s, 0, false, State(Node(0), [Node(1), Null], [Tail, Tail], [Link(Node(1)), Link(Node(0))]));
    es, s := More(2, es, s, 0, false, State(Node(0), [Node(1), Null], [Tail, Node(0)], [Spin, Link(Node(0))]));
  }

  /** Hart 1 links itself to hart 0, which is behind it by now, and takes the lock.  Hart 0 is
      preempted, and then both of them release. */
  lemma Crossing(es0: seq<Event>) returns (es: seq<Event>)
    requires Leads(2, es0, BEHIND)
    ensures Leads(2, es, CROSSED)
  {
    hide Leads;
    var s;
    es, s := es0, BEHIND;
    es, s := More(2, es, s, 1, false, State(Node(0), [Node(1), Null], [Node(1), Node(0)], [Spin, Spin]));
    es, s := More(2, es, s, 1, false, State(Node(0), [Node(1), Null], [Node(1), Node(0)], [Spin, Critical]));
    es, s := More(2, es, s, 0, true, State(Node(0), [Node(1), Null], [Node(1), Node(0)], [Take, Critical]));
    es, s := More(2, es, s, 0, false, State(Node(0), [Null, Null], [Node(1), Node(0)], [LoadNext(Node(1)), Critical]));
    es, s := More(2, es, s, 1, false, State(Node(0), [Null, Null], [Node(1), Node(0)], [LoadNext(Node(1)), Take]));
    es, s := More(2, es, s, 1, false,
                  State(Node(0), [Null, Null], [Node(1), Node(0)], [LoadNext(Node(1)), LoadNext(Null)]));
  }

  /** Hart 2 joins the queue behind hart 0. */
  lemma Joining(es0: seq<Event>) returns (es: seq<Event>)
    requires Leads(3, es0, WITH_THIRD)
    ensures Leads(3, es, LINKED)
  {
    hide Leads;
    var s;
    es, s := es0, WITH_THIRD;
    es, s := More(3, es, s, 2, false,
                  State(Node(0), [Node(1), Null, Null], [Tail, Node(0), Tail], [Spin, Link(Node(0)), Exchange]));
    es, s := More(3, es, s, 2, false,
              State(Node(2), [Node(1), Null, Null], [Tail, Node(0), Tail], [Spin, Link(Node(0)), StorePrev(Node(0))]));
    es, s := More(3, es, s, 2, false,
              State(Node(2), [Node(1), Null, Node(0)], [Tail, Node(0), Tail], [Spin, Link(Node(0)), Test(Node(0))]));
    es, s := More(3, es, s, 2, false,
              State(Node(2), [Node(1), Null, Node(0)], [Tail, Node(0), Tail], [Spin, Link(Node(0)), Link(Node(0))]));
    es, s := More(3, es, s, 2, false,
                  State(Node(2), [Node(1), Null, Node(0)], [Node(2), Node(0), Tail], [Spin, Link(Node(0)), Spin]));
  }

  /** Hart 1 links itself to hart 0 over the newer link of hart 2, and takes and releases the lock.
      Hart 0 gets it and releases. */
  lemma Overwriting(es0: seq<Event>) returns (es: seq<Event>)
    requires Leads(3, es0, LINKED)
    ensures Leads(3, es, OVERWRITTEN)
  {
    hide Leads;
    var s;
    es, s := es0, LINKED;
    es, s := More(3, es, s, 1, false,
                  State(Node(2), [Node(1), Null, Node(0)], [Node(1), Node(0), Tail], [Spin, Spin, Spin]));
    es, s := More(3, es, s, 1, false,
                  State(Node(2), [Node(1), Null, Node(0)], [Node(1), Node(0), Tail], [Spin, Critical, Spin]));
    es, s := More(3, es, s, 1, false,
                  State(Node(2), [Node(1), Null, Node(0)], [Node(1), Node(0), Tail], [Spin, Take, Spin]));
    es, s := More(3, es, s, 1, false,
                  State(Node(2), [Node(1), Null, Node(0)], [Node(1), Node(0), Tail], [Spin, LoadNext(Null), Spin]));
    es, s := More(3, es, s, 1, false,
                  State(Node(2), [Node(1), Null, Node(0)], [Node(1), Node(0), Tail], [Spin, Cas(Null, Node(0)), Spin]));
    es, s := More(3, es, s, 1, false,
                  State(Node(2), [Null, Null, Node(0)], [Node(1), Node(0), Tail], [Spin, Patch(Null, Node(0)), Spin]));
    es, s := More(3, es, s, 1, false,
                  State(Node(2), [Null, Null, Node(0)], [Node(1), Node(0), Tail], [Spin, Idle, Spin]));
    es, s := More(3, es, s, 0, false,
                  State(Node(2), [Null, Null, Node(0)], [Node(1), Node(0), Tail], [Critical, Idle, Spin]));
    es, s := More(3, es, s, 0, false,
                  State(Node(2), [Null, Null, Node(0)], [Node(1), Node(0), Tail], [Take, Idle, Spin]));
    es, s := More(3, es, s, 0, false,
                  State(Node(2), [Null, Null, Node(0)], [Node(1), Node(0), Tail], [LoadNext(Null), Idle, Spin]));
  }

  /** Both harts wait for the other one's field to name them, and both fields are NULL. */
  ghost predicate Crossed(s: State) {
    && |s.pc| == |s.prev| == |s.next| == 2 && s.prev == [Null, Null] && s.next == [Node(1), Node(0)]
    && (s.pc[0] == LoadNext(Node(1)) || s.pc[0] == Cas(Node(1), Node(1)))
    && (s.pc[1] == LoadNext(Null) || s.pc[1] == Cas(Null, Node(0)))
  }

  lemma {:induction false} CrossedForever(s: State, es: seq<Event>)
    requires Crossed(s) && EventsOf(es, 2)
    ensures Crossed(Run(s, es))
    decreases |es|
  {
    if es != [] {
      assert Crossed(Step(s, es[0]));
      CrossedForever(Step(s, es[0]), es[1..]);
    }
  }

  /** Two harts can get into each other's way so that neither ever leaves its release, whatever
      happens afterwards, preemptions included. */
  lemma TwoHartsDeadlock() returns (es: seq<Event>)
    ensures EventsOf(es, 2) && Permitted(es, true, false) && Sized(Run(Init(2), es), 2)
    ensures forall es' | EventsOf(es', 2) :: Crossed(Run(Run(Init(2), es), es'))
  {
    es := LateLink();
    es := JoiningBehind(es);
    es := Crossing(es);
    forall es' | EventsOf(es', 2) ensures Crossed(Run(CROSSED, es')) {
      CrossedForever(CROSSED, es');
    }
    hide Run, Crossed;
  }

  /** A hart other than 0 and 2 holds no pointer to hart 0 as its predecessor. */
  predicate Elsewhere(prev: Ptr, pc: Pc) {
    prev != Node(0) && match pc
                       case StorePrev(r) => r != Node(0)
                       case Test(r) => r != Node(0)
                       case Link(r) => r != Node(0)
                       case LoadNext(p) => p != Node(0)
                       case Cas(p, _) => p != Node(0)
                       case Patch(p, _) => p != Node(0)
                       case _ => true
  }

  /** Hart 0 wants to release to hart 1, but the hart behind it is hart 2, which has linked itself. */
  ghost predicate Overwritten(s: State) {
    && Sized(s, |s.pc|) && |s.pc| >= 3 && s.tailPrev != Node(0)
    && s.next[0] == Node(1) && (s.pc[0] == LoadNext(Null) || s.pc[0] == Cas(Null, Node(1)))
    && s.pc[2] == Spin && s.prev[2] == Node(0)
    && forall h | 0 <= h < |s.pc| && h != 0 && h != 2 :: Elsewhere(s.prev[h], s.pc[h])
  }

  lemma OverwrittenStep(s: State, e: Event)
    requires Overwritten(s) && e.hart < |s.pc| && !e.preempt
    ensures Overwritten(Step(s, e))
  {
    var h := e.hart;
    assert Elsewhere(s.prev[1], s.pc[1]);
    if h != 0 && h != 2 { assert Elsewhere(s.prev[h], s.pc[h]); }
  }

  lemma {:induction false} OverwrittenForever(s: State, es: seq<Event>)
    requires Overwritten(s) && EventsOf(es, |s.pc|) && NoPreemption(es)
    ensures Overwritten(Run(s, es))
    decreases |es|
  {
    if es != [] {
      assert es[0] in es;
      OverwrittenStep(s, es[0]);
      hide Overwritten, Step;
      OverwrittenForever(Step(s, es[0]), es[1..]);
    }
  }

  /** The first of the queue is in its release, so nobody else is inside. */
  lemma NobodyElse(s: State, q: seq<Hart>)
    requires Inv(s, q) && Overwritten(s)
    ensures Critical !in s.pc
  {
    var i := PositionOf(s, q, 0);
    forall h: nat | h < |s.pc| ensures s.pc[h] != Critical {
      if s.pc[h] == Critical { HolderIsFirst(s, q, h); }
    }
  }

  lemma OverwrittenIsDead(n: nat, es: seq<Event>)
    requires EventsOf(es, n) && Overwritten(Run(Init(n), es))
    ensures Dies(n, es, 0)
  {
    var s, q := Run(Init(n), es), QueueAfter(Init(n), [], es);
    InvRun(Init(n), [], es);
    forall es' | EventsOf(es', |s.pc|) && NoPreemption(es')
      ensures Sized(Run(s, es'), |s.pc|) && Releasing(Run(s, es').pc[0]) && Critical !in Run(s, es').pc
    {
      InvRun(s, q, es');
      OverwrittenForever(s, es');
      NobodyElse(Run(s, es'), QueueAfter(s, q, es'));
    }
    hide Run, QueueAfter, Inv;
  }

  lemma FrontOverwritten(s: State)
    requires Sized(s, |s.pc|) && |s.pc| >= 3 && Front(s, 3) == OVERWRITTEN && SameRest(Init(|s.pc|), s, 3)
    ensures Overwritten(s)
  {
    assert forall h | 0 <= h < 3 ::
        s.pc[h] == s.pc[..3][h] && s.prev[h] == s.prev[..3][h] && s.next[h] == s.next[..3][h];
    forall h | 3 <= h < |s.pc| ensures Elsewhere(s.prev[h], s.pc[h]) {
      assert s.pc[h] == s.pc[3..][h - 3] && s.prev[h] == s.prev[3..][h - 3];
    }
  }

  /** Three of any number of harts can do the same to one of them. */
  lemma HeldForGood(n: nat) returns (es: seq<Event>)
    requires n >= 3
    ensures EventsOf(es, n) && Permitted(es, true, false) && Dies(n, es, 0)
  {
    es := LateLink();
    es := JoiningBehind(es);
    MoreHarts(2, 3, es);
    assert Equal(Run(Init(3), es), WITH_THIRD);
    es := Joining(es);
    es := Overwriting(es);
    MoreHarts(3, n, es);
    hide Run;
    FrontOverwritten(Run(Init(n), es));
    OverwrittenIsDead(n, es);
  }

  lemma AloneLives(s: State)
    requires Alone(s)
    ensures !Dead(s, 0)
  {
    var e := Event(0, false, false);
    RunLast(s, [], e);
    RunLast(s, [e], e);
    assert [] + [e] == [e] && [e] + [e] == [e, e] && Run(s, []) == s;
    assert NoPreemption([]) && NoPreemption([e]) && NoPreemption([e, e]);
  }

  /** Without preemption every queue drains, so every release ends. */
  lemma OrderlyLives(n: nat, es: seq<Event>, h: Hart)
    requires EventsOf(es, n) && NoPreemption(es)
    ensures !Dies(n, es, h)
  {
    InOrderRun(Init(n), EmptyLog(), es);
    var s, q := Run(Init(n), es), LogAfter(Init(n), EmptyLog(), es).queue;
    var es' := Drains(s, q);
    InvRun(s, q, es');
    hide Run, QueueAfter;
    assert h < |s.pc| ==> !Queued(Run(s, es').pc[h]);
  }

  /** Some run leaves the lock held for good exactly when there are two harts and waiters may be
      preempted. */
  lemma DiesExactly(n: nat, preemption: bool, reloading: bool)
    ensures (exists es, h :: EventsOf(es, n) && Permitted(es, preemption, reloading) && Dies(n, es, h))
            <==> n >= 2 && preemption
  {
    hide Run, Dies;
    if n >= 2 && preemption {
      var es;
      if n == 2 { es := CrossedIsDead(); } else { es := HeldForGood(n); }
      assert Permitted(es, preemption, reloading) && Dies(n, es, 0);
    }
    forall es, h | EventsOf(es, n) && Permitted(es, preemption, reloading) && !(n >= 2 && preemption)
      ensures !Dies(n, es, h)
    {
      Lives(n, es, h, preemption, reloading);
    }
  }

  lemma CrossedIsDead() returns (es: seq<Event>)
    ensures EventsOf(es, 2) && Permitted(es, true, false) && Dies(2, es, 0)
  {
    es := TwoHartsDeadlock();
    var s := Run(Init(2), es);
    forall es' | EventsOf(es', 2)
      ensures Sized(Run(s, es'), 2) && Releasing(Run(s, es').pc[0]) && Critical !in Run(s, es').pc
    {
      assert Crossed(Run(s, es'));
    }
    hide Run;
  }

  lemma Lives(n: nat, es: seq<Event>, h: Hart, preemption: bool, reloading: bool)
    requires EventsOf(es, n) && Permitted(es, preemption, reloading) && !(n >= 2 && preemption)
    ensures !Dies(n, es, h)
  {
    if n == 1 {
      AloneRun(Init(1), es);
      AloneLives(Run(Init(1), es));
    } else if n > 1 {
      OrderlyLives(n, es, h);
    }
  }

  // ---------------------------------------------------------------- who leaves the queue early

  /** A hart that would be preempted at every test of kernel_preempt never joins the queue. */
  lemma {:induction false} StaysOut(s: State, es: seq<Event>, h: Hart)
    requires Sized(s, |s.pc|) && EventsOf(es, |s.pc|) && h < |s.pc| && s.pc[h] == Idle
    requires forall e <- es | e.hart == h :: e.preempt
    ensures Run(s, es).pc[h] == Idle
    decreases |es|
  {
    if es != [] {
      assert es[0] in es;
      StaysOut(Step(s, es[0]), es[1..], h);
    }
  }

  /** And one that would not be at its next test joins it within two of its steps. */
  lemma JoinsAtOnce(s: State, q: seq<Hart>, h: Hart, reload: bool, preempt: bool)
    requires Inv(s, q) && h < |s.pc| && s.pc[h] == Idle
    ensures var s1 := Step(s, Event(h, false, reload)); var s2 := Step(s1, Event(h, preempt, reload));
            && s1.next[h] == Tail && s2.tailPrev == Node(h) && Queued(s2.pc[h])
            && NextQueue(s1, q, Event(h, preempt, reload)) == q + [h]
  {
  }

  /** A waiter that gives up has not been granted the lock: it is not the first of the queue. */
  lemma AbortsOnlyBehind(s: State, q: seq<Hart>, e: Event)
    requires Inv(s, q) && e.hart < |s.pc| && s.pc[e.hart] == Spin && Step(s, e).pc[e.hart] == Take
    ensures e.preempt && q != [] && q[0] != e.hart
  {
    var i := PositionOf(s, q, e.hart);
  }

  /** A waiter that has been granted the lock takes it at its next look, and one that is preempted
      before gives up. */
  lemma WaiterLooks(s: State, q: seq<Hart>, e: Event)
    requires Inv(s, q) && e.hart < |s.pc| && s.pc[e.hart] == Spin
    ensures q != [] && (Step(s, e).pc[e.hart] == Critical <==> q[0] == e.hart)
    ensures q[0] != e.hart ==> Step(s, e).pc[e.hart] == if e.preempt then Take else Spin
  {
    var i := PositionOf(s, q, e.hart);
    assert LogicalPred(s, q[0]) == Before(q, 0);
    if q[0] == e.hart { assert i == 0; }
  }
}
