/** The kernel's queue lock (mcslock.c) as a state machine over single memory accesses.

    Every hart owns one queue node, so nodes and harts share their numbers.  A step is one
    load, store, exchange or compare-exchange of one hart; steps of different harts interleave
    in any order.  A hart that is preempted while it waits leaves the queue from the middle. */
module QueueLock {
  type Hart = nat

  /** Values of the `prev` and `next` fields: NULL, the lock's own tail node, or a hart's node. */
  datatype Ptr = Null | Tail | Node(hart: Hart)

  /** Where a hart stands in `_acquire` and `_release`, with its local variables. */
  datatype Pc =
    | Idle                        // outside both functions
    | Exchange                    // next stored, about to exchange tail.prev
    | StorePrev(r: Ptr)           // about to store the exchanged value in its own prev
    | Test(r: Ptr)                // about to compare its prev with NULL
    | Link(r: Ptr)                // about to store itself in its predecessor's next
    | Spin                        // waiting for its prev to become NULL
    | Critical                    // acquire has returned true
    | Take                        // release: about to exchange its prev with NULL
    | LoadNext(p: Ptr)            // release: about to load its next
    | Cas(p: Ptr, target: Ptr)    // release: about to compare-exchange target.prev
    | Patch(p: Ptr, target: Ptr)  // release: about to store target in p.next, if p is not NULL
    | Fault                       // dereferenced a NULL prev

  datatype State = State(tailPrev: Ptr, prev: seq<Ptr>, next: seq<Ptr>, pc: seq<Pc>)

  /** One step of `hart`.  `preempt` is what kernel_preempt would answer; `reload` says whether
      a plain read of node->prev goes to memory or reuses the value already in a register. */
  datatype Event = Event(hart: Hart, preempt: bool, reload: bool)

  function Init(n: nat): State {
    State(Null, seq(n, _ => Null), seq(n, _ => Null), seq(n, _ => Idle))
  }

  ghost predicate Sized(s: State, n: nat) {
    |s.prev| == |s.next| == |s.pc| == n
  }

  function ReadPrev(s: State, t: Ptr): Ptr {
    match t
    case Null => Null
    case Tail => s.tailPrev
    case Node(h) => if h < |s.prev| then s.prev[h] else Null
  }

  function WritePrev(s: State, t: Ptr, p: Ptr): State {
    match t
    case Null => s
    case Tail => s.(tailPrev := p)
    case Node(h) => if h < |s.prev| then s.(prev := s.prev[h := p]) else s
  }

  function WriteNext(s: State, t: Ptr, p: Ptr): State {
    if t.Node? && t.hart < |s.next| then s.(next := s.next[t.hart := p]) else s
  }

  function Goto(s: State, h: Hart, pc: Pc): State
    requires h < |s.pc|
  {
    s.(pc := s.pc[h := pc])
  }

  function Step(s: State, e: Event): (s': State)
    requires Sized(s, |s.pc|) && e.hart < |s.pc|
    ensures Sized(s', |s.pc|) && s'.pc == s.pc[e.hart := s'.pc[e.hart]]
  {
    var h := e.hart;
    match s.pc[h]
    case Idle =>
      if e.preempt then s else Goto(WriteNext(s, Node(h), Tail), h, Exchange)
    case Exchange =>
      Goto(s.(tailPrev := Node(h)), h, StorePrev(s.tailPrev))
    case StorePrev(r) =>
      Goto(s.(prev := s.prev[h := r]), h, Test(r))
    case Test(r) =>
      var v := if e.reload then s.prev[h] else r;
      Goto(s, h, if v == Null then Critical else Link(v))
    case Link(r) =>
      var v := if e.reload then s.prev[h] else r;
      if v == Null then Goto(s, h, Fault) else Goto(WriteNext(s, v, Node(h)), h, Spin)
    case Spin =>
      if s.prev[h] == Null then Goto(s, h, Critical)
      else if e.preempt then Goto(s, h, Take)
      else s
    case Critical =>
      Goto(s, h, Take)
    case Take =>
      Goto(s.(prev := s.prev[h := Null]), h, LoadNext(s.prev[h]))
    case LoadNext(p) =>
      Goto(s, h, Cas(p, s.next[h]))
    case Cas(p, t) =>
      if ReadPrev(s, t) == Node(h) then Goto(WritePrev(s, t, p), h, Patch(p, t))
      else Goto(s, h, LoadNext(p))
    case Patch(p, t) =>
      Goto(WriteNext(s, p, t), h, Idle)
    case Fault => s
  }

  function Run(s: State, es: seq<Event>): (r: State)
    requires Sized(s, |s.pc|) && forall e <- es :: e.hart < |s.pc|
    ensures Sized(r, |s.pc|)
    decreases |es|
  {
    if es == [] then s else Run(Step(s, es[0]), es[1..])
  }

  // ---------------------------------------------------------------- the chain of predecessors

  /** A hart is queued from its exchange of the tail until its compare-exchange succeeds. */
  predicate Queued(pc: Pc) {
    !pc.Idle? && !pc.Exchange? && !pc.Patch?
  }

  /** The predecessor of a queued hart: the exchanged value until it is stored, then the memory
      field, and after the release has cleared that field the value it saved. */
  function LogicalPred(s: State, h: Hart): Ptr
    requires Sized(s, |s.pc|) && h < |s.pc|
  {
    match s.pc[h]
    case StorePrev(r) => r
    case LoadNext(p) => p
    case Cas(p, _) => p
    case _ => s.prev[h]
  }

  ghost predicate Distinct(q: seq<Hart>) {
    forall i, j :: 0 <= i < j < |q| ==> q[i] != q[j]
  }

  /** What the hart at position i of the queue, or the tail at |q|, should have before it. */
  function Before(q: seq<Hart>, i: nat): Ptr {
    if 0 < i <= |q| then Node(q[i - 1]) else Null
  }

  /** The logical predecessors form one chain from the tail through exactly the queued harts. */
  ghost predicate Chain(s: State, q: seq<Hart>)
    requires Sized(s, |s.pc|)
  {
    && Distinct(q)
    && (forall i | 0 <= i < |q| :: q[i] < |s.pc|)
    && (forall h | 0 <= h < |s.pc| :: Queued(s.pc[h]) <==> h in q)
    && s.tailPrev == Before(q, |q|)
    && (forall i {:trigger LogicalPred(s, q[i])} | 0 <= i < |q| :: LogicalPred(s, q[i]) == Before(q, i))
  }

  /** Program points at which a hart's memory field must read NULL. */
  predicate FieldCleared(pc: Pc) {
    pc == Test(Null) || (!pc.Test? && !pc.Link? && !pc.Spin? && !pc.Take? && !pc.Fault?)
  }

  ghost predicate Inv(s: State, q: seq<Hart>) {
    && Sized(s, |s.pc|)
    && Chain(s, q)
    && (forall h | 0 <= h < |s.pc| :: FieldCleared(s.pc[h]) ==> s.prev[h] == Null)
  }

  function Remove(q: seq<Hart>, h: Hart): seq<Hart> {
    if q == [] then [] else if q[0] == h then q[1..] else [q[0]] + Remove(q[1..], h)
  }

  /** The queue after a step: a tail exchange appends, a successful compare-exchange removes. */
  function NextQueue(s: State, q: seq<Hart>, e: Event): seq<Hart>
    requires Sized(s, |s.pc|) && e.hart < |s.pc|
  {
    var h := e.hart;
    match s.pc[h]
    case Exchange => q + [h]
    case Cas(p, t) => if ReadPrev(s, t) == Node(h) then Remove(q, h) else q
    case _ => q
  }

  function QueueAfter(s: State, q: seq<Hart>, es: seq<Event>): seq<Hart>
    requires Sized(s, |s.pc|) && forall e <- es :: e.hart < |s.pc|
    decreases |es|
  {
    if es == [] then q else QueueAfter(Step(s, es[0]), NextQueue(s, q, es[0]), es[1..])
  }

  lemma {:induction false} RemoveAt(q: seq<Hart>, i: nat)
    requires Distinct(q) && i < |q|
    ensures Remove(q, q[i]) == q[..i] + q[i + 1..]
  {
    if i > 0 {
      RemoveAt(q[1..], i - 1);
      assert q[1..][i - 1] == q[i] && q[0] != q[i];
      assert [q[0]] + (q[1..][..i - 1] + q[1..][i..]) == q[..i] + q[i + 1..];
    }
  }

  /** `h` moved by itself: only its own program counter, field and successors' links changed. */
  ghost predicate LocalStep(s: State, s': State, h: Hart) {
    && Sized(s, |s.pc|) && Sized(s', |s.pc|) && h < |s.pc|
    && s'.tailPrev == s.tailPrev
    && s'.pc == s.pc[h := s'.pc[h]] && s'.prev == s.prev[h := s'.prev[h]]
    && LogicalPred(s', h) == LogicalPred(s, h)
    && (Queued(s'.pc[h]) <==> Queued(s.pc[h]))
    && (FieldCleared(s'.pc[h]) ==> s'.prev[h] == Null)
  }

  lemma LocalStepKeepsInv(s: State, s': State, q: seq<Hart>, h: Hart)
    requires Inv(s, q) && LocalStep(s, s', h)
    ensures Inv(s', q)
  {
    forall i | 0 <= i < |q| ensures LogicalPred(s', q[i]) == Before(q, i) {
      assert LogicalPred(s, q[i]) == Before(q, i);
    }
  }

  lemma EnqueueKeepsInv(s: State, q: seq<Hart>, e: Event)
    requires Inv(s, q) && e.hart < |s.pc| && s.pc[e.hart].Exchange?
    ensures Inv(Step(s, e), q + [e.hart])
  {
    var q', s' := q + [e.hart], Step(s, e);
    forall i | 0 <= i < |q'| ensures LogicalPred(s', q'[i]) == Before(q', i) {
      if i < |q| { assert q'[i] == q[i]; assert LogicalPred(s, q[i]) == Before(q, i); }
    }
  }

  /** The index in q of the element that Remove(q, q[k]) has at i. */
  function Skip(i: nat, k: nat): nat {
    if i < k then i else i + 1
  }

  lemma RemoveIndex(q: seq<Hart>, k: nat)
    requires Distinct(q) && k < |q|
    ensures var q' := Remove(q, q[k]);
            && |q'| == |q| - 1
            && (forall i {:trigger q'[i]} | 0 <= i < |q'| :: q'[i] == q[Skip(i, k)])
  {
    RemoveAt(q, k);
  }

  lemma {:induction false} RemoveMember(q: seq<Hart>, h: Hart, g: Hart)
    requires Distinct(q)
    ensures g in Remove(q, h) <==> g in q && g != h
  {
    if q != [] {
      RemoveMember(q[1..], h, g);
      assert g in q <==> g == q[0] || g in q[1..];
      assert q[0] !in q[1..];
    }
  }

  lemma {:induction false} RemoveKeepsDistinct(q: seq<Hart>, h: Hart)
    requires Distinct(q)
    ensures Distinct(Remove(q, h))
  {
    if q != [] && q[0] != h {
      RemoveKeepsDistinct(q[1..], h);
      RemoveMember(q[1..], h, q[0]);
      assert q[0] !in q[1..];
    }
  }

  /** The hart whose memory field names q[k] is the next one in the queue. */
  lemma SuccessorAt(s: State, q: seq<Hart>, g: Hart, k: nat)
    requires Inv(s, q) && g < |s.pc| && k < |q| && s.prev[g] == Node(q[k])
    ensures k + 1 < |q| && q[k + 1] == g
  {
    assert Queued(s.pc[g]);
    var j :| 0 <= j < |q| && q[j] == g;
    assert LogicalPred(s, q[j]) == Before(q, j);
  }

  /** What a successful compare-exchange by q[k] changes. */
  ghost predicate Splice(s: State, s': State, q: seq<Hart>, k: nat, p: Ptr, t: Ptr) {
    && Inv(s, q) && k < |q| && s.pc[q[k]] == Cas(p, t) && ReadPrev(s, t) == Node(q[k])
    && s'.pc == s.pc[q[k] := Patch(p, t)]
    && s'.tailPrev == (if t.Tail? then p else s.tailPrev)
    && s'.prev == (if t.Node? then s.prev[t.hart := p] else s.prev)
    && |s'.next| == |s.next|
  }

  /** A successful compare-exchange splices its hart out: whoever named it as its predecessor,
      the tail or one waiter's field, names that hart's own predecessor afterwards. */
  lemma SplicedPred(s: State, s': State, q: seq<Hart>, k: nat, p: Ptr, t: Ptr, i: nat)
    requires Splice(s, s', q, k, p, t) && i < |q| && i != k
    ensures Sized(s', |s.pc|) && |s'.pc| == |s.pc| && q[i] < |s.pc|
    ensures LogicalPred(s', q[i]) == if i == k + 1 then Before(q, k) else Before(q, i)
  {
    assert LogicalPred(s, q[k]) == Before(q, k) && LogicalPred(s, q[i]) == Before(q, i);
    assert q[i] != q[k];
    if t.Node? {
      SuccessorAt(s, q, t.hart, k);
      assert i != k + 1 ==> q[i] != q[k + 1];
    }
    hide Distinct, Queued, FieldCleared;
  }

  lemma SplicedTail(s: State, s': State, q: seq<Hart>, k: nat, p: Ptr, t: Ptr)
    requires Splice(s, s', q, k, p, t)
    ensures s'.tailPrev == Before(Remove(q, q[k]), |q| - 1)
  {
    RemoveIndex(q, k);
    assert LogicalPred(s, q[k]) == Before(q, k);
    if t.Node? { SuccessorAt(s, q, t.hart, k); }
  }

  lemma SplicedChain(s: State, s': State, q: seq<Hart>, k: nat, p: Ptr, t: Ptr, i: nat)
    requires Splice(s, s', q, k, p, t) && i < |q| - 1
    ensures Sized(s', |s.pc|) && |s'.pc| == |s.pc|
    ensures var q' := Remove(q, q[k]);
            |q'| == |q| - 1 && q'[i] < |s.pc| && LogicalPred(s', q'[i]) == Before(q', i)
  {
    hide Distinct, LogicalPred, Remove;
    RemoveIndex(q, k);
    assert Skip(i, k) < |q| && Skip(i, k) != k && (i > 0 ==> Remove(q, q[k])[i - 1] == q[Skip(i - 1, k)]);
    SplicedPred(s, s', q, k, p, t, Skip(i, k));
    hide Splice;
  }

  lemma SplicedMembers(s: State, s': State, q: seq<Hart>, k: nat, p: Ptr, t: Ptr)
    requires Splice(s, s', q, k, p, t)
    ensures Sized(s', |s.pc|) && |s'.pc| == |s.pc|
    ensures forall h | 0 <= h < |s.pc| :: Queued(s'.pc[h]) <==> h in Remove(q, q[k])
    ensures forall h | 0 <= h < |s.pc| :: FieldCleared(s'.pc[h]) ==> s'.prev[h] == Null
  {
    assert LogicalPred(s, q[k]) == Before(q, k);
    if t.Node? { SuccessorAt(s, q, t.hart, k); }
    forall h | 0 <= h < |s.pc| ensures Queued(s'.pc[h]) <==> h in Remove(q, q[k]) {
      RemoveMember(q, q[k], h);
    }
  }

  lemma SpliceKeepsInv(s: State, s': State, q: seq<Hart>, k: nat, p: Ptr, t: Ptr)
    requires Splice(s, s', q, k, p, t)
    ensures Inv(s', Remove(q, q[k]))
  {
    var q' := Remove(q, q[k]);
    SplicedTail(s, s', q, k, p, t);
    RemoveIndex(q, k);
    RemoveKeepsDistinct(q, q[k]);
    SplicedMembers(s, s', q, k, p, t);
    forall i {:trigger q'[i]} | 0 <= i < |q| - 1
      ensures Sized(s', |s.pc|) && |s'.pc| == |s.pc|
      ensures |q'| == |q| - 1 && q'[i] < |s.pc| && LogicalPred(s', q'[i]) == Before(q', i)
    {
      SplicedChain(s, s', q, k, p, t, i);
    }
    hide Splice, Distinct, LogicalPred, Remove, Before, Queued, FieldCleared, Skip;
  }

  lemma InvStep(s: State, q: seq<Hart>, e: Event)
    requires Inv(s, q) && e.hart < |s.pc|
    ensures Inv(Step(s, e), NextQueue(s, q, e))
  {
    var h := e.hart;
    if s.pc[h].Exchange? {
      EnqueueKeepsInv(s, q, e);
    } else if s.pc[h].Cas? && ReadPrev(s, s.pc[h].target) == Node(h) {
      var k :| 0 <= k < |q| && q[k] == h;
      SpliceKeepsInv(s, Step(s, e), q, k, s.pc[h].p, s.pc[h].target);
    } else {
      LocalStepKeepsInv(s, Step(s, e), q, h);
    }
  }

  ghost predicate EventsOf(es: seq<Event>, n: nat) {
    forall e <- es :: e.hart < n
  }

  lemma {:induction false} InvRun(s: State, q: seq<Hart>, es: seq<Event>)
    requires Inv(s, q) && EventsOf(es, |s.pc|)
    ensures Inv(Run(s, es), QueueAfter(s, q, es))
    decreases |es|
  {
    if es != [] {
      InvStep(s, q, es[0]);
      InvRun(Step(s, es[0]), NextQueue(s, q, es[0]), es[1..]);
    }
  }

  /** After every run of any number of harts, aborting waiters included, the logical
      predecessors chain the tail through exactly the queued harts. */
  lemma ReachableChain(n: nat, es: seq<Event>)
    requires EventsOf(es, n)
    ensures Sized(Run(Init(n), es), n) && Chain(Run(Init(n), es), QueueAfter(Init(n), [], es))
  {
    InvRun(Init(n), [], es);
  }

  /** After every run at most one hart is inside the critical section, and it is the first of
      the queue. */
  lemma MutualExclusion(n: nat, es: seq<Event>, g: Hart, h: Hart)
    requires EventsOf(es, n) && g < n && h < n
    requires Run(Init(n), es).pc[g] == Critical && Run(Init(n), es).pc[h] == Critical
    ensures g == h
  {
    var s, q := Run(Init(n), es), QueueAfter(Init(n), [], es);
    InvRun(Init(n), [], es);
    HolderIsFirst(s, q, g);
    HolderIsFirst(s, q, h);
  }

  lemma HolderIsFirst(s: State, q: seq<Hart>, h: Hart)
    requires Inv(s, q) && h < |s.pc| && s.pc[h] == Critical
    ensures q != [] && q[0] == h
  {
    assert Queued(s.pc[h]);
    var i :| 0 <= i < |q| && q[i] == h;
    assert LogicalPred(s, q[i]) == Before(q, i);
  }

  // ---------------------------------------------------------------- runs without preemption

  predicate Linked(pc: Pc) {
    !pc.StorePrev? && !pc.Test? && !pc.Link?
  }

  predicate Holding(pc: Pc) {
    pc.Critical? || pc.Take? || pc.LoadNext? || pc.Cas?
  }

  /** Only the first of the queue holds or releases; the others have not seen NULL. */
  ghost predicate Placed(s: State, q: seq<Hart>, i: nat)
    requires Sized(s, |s.pc|) && i < |q| && q[i] < |s.pc|
  {
    match s.pc[q[i]]
    case Test(r) => r == Before(q, i)
    case Link(r) => i > 0 && r == Before(q, i)
    case Cas(_, t) => i == 0 && (t == Tail || t == s.next[q[i]])
    case Critical => i == 0
    case Take => i == 0
    case LoadNext(_) => i == 0
    case Fault => false
    case _ => true
  }

  function Successor(s: State, q: seq<Hart>, i: nat): Ptr {
    if i + 1 < |q| && q[i + 1] < |s.pc| && Linked(s.pc[q[i + 1]]) then Node(q[i + 1]) else Tail
  }

  ghost predicate Orderly(s: State, q: seq<Hart>) {
    && Inv(s, q)
    && (forall i {:trigger Placed(s, q, i)} | 0 <= i < |q| :: Placed(s, q, i))
    && (forall i {:trigger Successor(s, q, i)} | 0 <= i < |q| :: s.next[q[i]] == Successor(s, q, i))
    && (forall h | 0 <= h < |s.pc| :: s.pc[h] == Exchange ==> s.next[h] == Tail)
    && (forall h | 0 <= h < |s.pc| && s.pc[h].Patch? :: s.pc[h].p == Null)
  }

  lemma PositionOf(s: State, q: seq<Hart>, h: Hart) returns (i: nat)
    requires Inv(s, q) && h < |s.pc| && Queued(s.pc[h])
    ensures i < |q| && q[i] == h && LogicalPred(s, h) == Before(q, i)
  {
    i :| 0 <= i < |q| && q[i] == h;
    assert LogicalPred(s, q[i]) == Before(q, i);
  }

  /** A step that leaves the links alone only has to place its own hart again. */
  lemma OrderlyLocal(s: State, s': State, q: seq<Hart>, h: Hart)
    requires Orderly(s, q) && Inv(s', q) && h < |s.pc| == |s'.pc|
    requires s'.next == s.next && s'.pc == s.pc[h := s'.pc[h]]
    requires Linked(s'.pc[h]) == Linked(s.pc[h]) || (q != [] && q[0] == h)
    requires s'.pc[h] != Exchange && (s'.pc[h].Patch? ==> s'.pc[h].p == Null)
    requires forall i {:trigger Placed(s', q, i)} | 0 <= i < |q| && q[i] == h :: Placed(s', q, i)
    ensures Orderly(s', q)
  {
    forall i | 0 <= i < |q| ensures Placed(s', q, i) {
      assert Placed(s, q, i);
    }
    forall i | 0 <= i < |q| ensures s'.next[q[i]] == Successor(s', q, i) {
      assert s.next[q[i]] == Successor(s, q, i);
    }
  }

  lemma OrderlyEnqueue(s: State, q: seq<Hart>, e: Event)
    requires Orderly(s, q) && e.hart < |s.pc| && s.pc[e.hart] == Exchange
    ensures Orderly(Step(s, e), q + [e.hart])
  {
    InvStep(s, q, e);
    var s', q' := Step(s, e), q + [e.hart];
    forall i | 0 <= i < |q'| ensures Placed(s', q', i) {
      if i < |q| { assert Placed(s, q, i); assert q'[i] == q[i] != e.hart; }
    }
    forall i | 0 <= i < |q'| ensures s'.next[q'[i]] == Successor(s', q', i) {
      if i < |q| { assert s.next[q[i]] == Successor(s, q, i); assert q'[i] == q[i]; }
    }
  }

  /** Storing into the predecessor's next is what makes that hart's release find its successor. */
  lemma OrderlyLink(s: State, q: seq<Hart>, e: Event)
    requires Orderly(s, q) && e.hart < |s.pc| && s.pc[e.hart].Link?
    ensures Orderly(Step(s, e), q)
  {
    InvStep(s, q, e);
    var h, s' := e.hart, Step(s, e);
    var k := PositionOf(s, q, h);
    assert Placed(s, q, k);
    assert s.prev[h] == Node(q[k - 1]);
    assert s'.next == s.next[q[k - 1] := Node(h)] && s'.pc == s.pc[h := Spin];
    LinkPlaces(s, s', q, k);
  }

  lemma LinkPlaces(s: State, s': State, q: seq<Hart>, k: nat)
    requires Orderly(s, q) && Inv(s', q) && 0 < k < |q| && s.pc[q[k]].Link?
    requires s'.next == s.next[q[k - 1] := Node(q[k])] && s'.pc == s.pc[q[k] := Spin]
    ensures Orderly(s', q)
  {
    forall i | 0 <= i < |q| ensures Placed(s', q, i) {
      assert Placed(s, q, i);
      if i == k - 1 { assert !s.pc[q[i]].Cas?
                     || s.next[q[i]] == Tail by { assert s.next[q[i]] == Successor(s, q, i); } }
    }
    forall i | 0 <= i < |q| ensures s'.next[q[i]] == Successor(s', q, i) {
      assert s.next[q[i]] == Successor(s, q, i);
    }
  }

  /** Without aborts only the first of the queue leaves it, and its successor is spinning. */
  lemma OrderlyDequeue(s: State, q: seq<Hart>, e: Event)
    requires Orderly(s, q) && e.hart < |s.pc| && s.pc[e.hart].Cas?
    requires ReadPrev(s, s.pc[e.hart].target) == Node(e.hart)
    ensures q != [] && q[0] == e.hart && NextQueue(s, q, e) == q[1..]
    ensures Orderly(Step(s, e), q[1..])
  {
    InvStep(s, q, e);
    var h, t := e.hart, s.pc[e.hart].target;
    var k := PositionOf(s, q, h);
    assert Placed(s, q, k);
    assert s.next[q[0]] == Successor(s, q, 0);
    assert |q| > 1 ==> s.pc[q[1]] == Spin by {
      if |q| > 1 { assert Placed(s, q, 1); }
    }
    DequeuePlaces(s, Step(s, e), q, t);
  }

  lemma DequeuePlaces(s: State, s': State, q: seq<Hart>, t: Ptr)
    requires Orderly(s, q) && q != [] && Inv(s', q[1..])
    requires s'.next == s.next && s'.pc == s.pc[q[0] := Patch(Null, t)]
    requires |q| > 1 ==> s.pc[q[1]] == Spin
    ensures Orderly(s', q[1..])
  {
    var q' := q[1..];
    forall i | 0 <= i < |q'| ensures Placed(s', q', i) && s'.next[q'[i]] == Successor(s', q', i) {
      DequeuedPosition(s, s', q, t, i);
    }
  }

  lemma DequeuedPosition(s: State, s': State, q: seq<Hart>, t: Ptr, i: nat)
    requires Orderly(s, q) && i + 1 < |q| && Sized(s', |s.pc|)
    requires s'.next == s.next && s'.pc == s.pc[q[0] := Patch(Null, t)]
    requires s.pc[q[1]] == Spin
    ensures Placed(s', q[1..], i) && s'.next[q[i + 1]] == Successor(s', q[1..], i)
  {
    assert Placed(s, q, i + 1);
    assert s.next[q[i + 1]] == Successor(s, q, i + 1);
    assert s.pc[q[i + 1]] == s'.pc[q[i + 1]];
    if i + 2 < |q| { assert s.pc[q[i + 2]] == s'.pc[q[i + 2]]; }
    hide Inv;
  }

  lemma OrderlyStep(s: State, q: seq<Hart>, e: Event)
    requires Orderly(s, q) && e.hart < |s.pc| && !e.preempt
    ensures Orderly(Step(s, e), NextQueue(s, q, e))
  {
    var h, pc := e.hart, s.pc[e.hart];
    if pc.Exchange? {
      OrderlyEnqueue(s, q, e);
    } else if pc.Link? {
      OrderlyLink(s, q, e);
    } else if pc.Cas? && ReadPrev(s, pc.target) == Node(h) {
      OrderlyDequeue(s, q, e);
    } else if pc.Idle? || pc.Patch? {
      OrderlyOutside(s, q, e);
    } else {
      OrderlyInside(s, q, e);
    }
  }

  lemma OrderlyOutside(s: State, q: seq<Hart>, e: Event)
    requires Orderly(s, q) && e.hart < |s.pc| && !e.preempt
    requires s.pc[e.hart].Idle? || s.pc[e.hart].Patch?
    ensures Orderly(Step(s, e), q)
  {
    InvStep(s, q, e);
    var h, s' := e.hart, Step(s, e);
    assert h !in q;
    forall i | 0 <= i < |q| ensures Placed(s', q, i) {
      assert Placed(s, q, i);
    }
    forall i | 0 <= i < |q| ensures s'.next[q[i]] == Successor(s', q, i) {
      assert s.next[q[i]] == Successor(s, q, i);
    }
  }

  lemma OrderlyInside(s: State, q: seq<Hart>, e: Event)
    requires Orderly(s, q) && e.hart < |s.pc| && !e.preempt
    requires var pc := s.pc[e.hart];
             Queued(pc) && !pc.Link? && (pc.Cas? ==> ReadPrev(s, pc.target) != Node(e.hart))
    ensures Orderly(Step(s, e), q)
  {
    InvStep(s, q, e);
    var h, s' := e.hart, Step(s, e);
    var k := PositionOf(s, q, h);
    assert Placed(s, q, k);
    if s'.pc != s.pc {
      forall i | 0 <= i < |q| && q[i] == h ensures Placed(s', q, i) {
        assert i == k;
      }
      OrderlyLocal(s, s', q, h);
    }
  }

  // ---------------------------------------------------------------- first in, first out

  /** What has happened so far: who exchanged the tail and who was given the lock, in order. */
  datatype Log = Log(queue: seq<Hart>, arrivals: seq<Hart>, grants: seq<Hart>)

  function NextLog(s: State, l: Log, e: Event): Log
    requires Sized(s, |s.pc|) && e.hart < |s.pc|
  {
    var arrived := s.pc[e.hart].Exchange?;
    var granted := s.pc[e.hart] != Critical && Step(s, e).pc[e.hart] == Critical;
    Log(NextQueue(s, l.queue, e),
        if arrived then l.arrivals + [e.hart] else l.arrivals,
        if granted then l.grants + [e.hart] else l.grants)
  }

  function LogAfter(s: State, l: Log, es: seq<Event>): Log
    requires Sized(s, |s.pc|) && forall e <- es :: e.hart < |s.pc|
    decreases |es|
  {
    if es == [] then l else LogAfter(Step(s, es[0]), NextLog(s, l, es[0]), es[1..])
  }

  predicate Holds(s: State, q: seq<Hart>) {
    q != [] && q[0] < |s.pc| && Holding(s.pc[q[0]])
  }

  /** The queue is the tail end of the arrivals; everybody before it has been granted, and so has
      the first of the queue once it holds. */
  ghost predicate Consistent(l: Log, holds: bool) {
    && |l.queue| <= |l.arrivals|
    && var gone := |l.arrivals| - |l.queue|;
    && l.arrivals[gone..] == l.queue
    && l.grants == l.arrivals[..gone] + if holds && l.queue != [] then [l.queue[0]] else []
  }

  ghost predicate InOrder(s: State, l: Log) {
    Sized(s, |s.pc|) && Orderly(s, l.queue) && Consistent(l, Holds(s, l.queue))
  }

  lemma ConsistentArrival(l: Log, h: Hart, holds: bool)
    requires Consistent(l, holds) && (holds ==> l.queue != [])
    ensures Consistent(Log(l.queue + [h], l.arrivals + [h], l.grants), holds)
  {
    var gone := |l.arrivals| - |l.queue|;
    assert (l.arrivals + [h])[gone..] == l.queue + [h];
    assert (l.arrivals + [h])[..gone] == l.arrivals[..gone];
  }

  lemma ConsistentDeparture(l: Log)
    requires Consistent(l, true) && l.queue != []
    ensures Consistent(Log(l.queue[1..], l.arrivals, l.grants), false)
  {
    var gone := |l.arrivals| - |l.queue|;
    assert l.arrivals[gone] == l.arrivals[gone..][0];
    assert l.arrivals[..gone + 1] == l.arrivals[..gone] + [l.queue[0]];
  }

  lemma InOrderArrival(s: State, l: Log, e: Event)
    requires InOrder(s, l) && e.hart < |s.pc| && s.pc[e.hart].Exchange?
    ensures InOrder(Step(s, e), NextLog(s, l, e))
  {
    OrderlyEnqueue(s, l.queue, e);
    assert l.queue != [] ==> Queued(s.pc[l.queue[0]]);
    assert Step(s, e).pc[e.hart].StorePrev?;
    assert NextQueue(s, l.queue, e) == l.queue + [e.hart];
    hide Orderly, Step, NextQueue, Consistent;
    ConsistentArrival(l, e.hart, Holds(s, l.queue));
  }

  lemma InOrderDeparture(s: State, l: Log, e: Event)
    requires InOrder(s, l) && e.hart < |s.pc| && s.pc[e.hart].Cas?
    requires ReadPrev(s, s.pc[e.hart].target) == Node(e.hart)
    ensures InOrder(Step(s, e), NextLog(s, l, e))
  {
    OrderlyDequeue(s, l.queue, e);
    if |l.queue| > 1 { SecondIsWaiting(s, l.queue); }
    assert Step(s, e).pc[e.hart].Patch?;
    hide Orderly, Step, Consistent;
    ConsistentDeparture(l);
  }

  lemma SecondIsWaiting(s: State, q: seq<Hart>)
    requires Orderly(s, q) && |q| > 1
    ensures q[1] < |s.pc| && q[0] != q[1] && !Holding(s.pc[q[1]])
  {
    assert Placed(s, q, 1);
  }

  lemma InOrderInside(s: State, l: Log, e: Event)
    requires InOrder(s, l) && e.hart < |s.pc| && !e.preempt && Queued(s.pc[e.hart])
    requires s.pc[e.hart].Cas? ==> ReadPrev(s, s.pc[e.hart].target) != Node(e.hart)
    ensures InOrder(Step(s, e), NextLog(s, l, e))
  {
    OrderlyStep(s, l.queue, e);
    assert NextQueue(s, l.queue, e) == l.queue && !s.pc[e.hart].Exchange?;
    OnlyFirstIsGranted(s, l.queue, e);
    hide Orderly, Step;
  }

  /** Inside the queue, holding begins with the step to the critical section, at the front. */
  lemma OnlyFirstIsGranted(s: State, q: seq<Hart>, e: Event)
    requires Orderly(s, q) && e.hart < |s.pc| && !e.preempt && Queued(s.pc[e.hart])
    requires s.pc[e.hart].Cas? ==> ReadPrev(s, s.pc[e.hart].target) != Node(e.hart)
    ensures q != [] && q[0] < |s.pc|
    ensures var s' := Step(s, e);
            var granted := s.pc[e.hart] != Critical && s'.pc[e.hart] == Critical;
            && (granted ==> q[0] == e.hart && !Holding(s.pc[q[0]]) && Holding(s'.pc[q[0]]))
            && (!granted ==> Holding(s'.pc[q[0]]) == Holding(s.pc[q[0]]))
  {
    var k := PositionOf(s, q, e.hart);
    assert Placed(s, q, k);
    if k > 0 { NotFirst(s, q, e, k); }
  }

  lemma NotFirst(s: State, q: seq<Hart>, e: Event, k: nat)
    requires Orderly(s, q) && 0 < k < |q| && q[k] == e.hart && !e.preempt
    ensures Step(s, e).pc[q[0]] == s.pc[q[0]] && Step(s, e).pc[e.hart] != Critical
  {
    assert LogicalPred(s, q[k]) == Before(q, k);
    assert Placed(s, q, k);
  }

  lemma InOrderStep(s: State, l: Log, e: Event)
    requires InOrder(s, l) && e.hart < |s.pc| && !e.preempt
    ensures InOrder(Step(s, e), NextLog(s, l, e))
  {
    var h, pc := e.hart, s.pc[e.hart];
    if pc.Exchange? {
      InOrderArrival(s, l, e);
    } else if pc.Cas? && ReadPrev(s, pc.target) == Node(h) {
      InOrderDeparture(s, l, e);
    } else if Queued(pc) {
      InOrderInside(s, l, e);
    } else {
      OrderlyOutside(s, l.queue, e);
      assert l.queue != [] ==> Queued(s.pc[l.queue[0]]);
      assert Step(s, e).pc[h] != Critical;
      hide Orderly, Step, Consistent;
    }
  }

  ghost predicate NoPreemption(es: seq<Event>) {
    forall e <- es :: !e.preempt
  }

  function EmptyLog(): Log {
    Log([], [], [])
  }

  lemma {:induction false} InOrderRun(s: State, l: Log, es: seq<Event>)
    requires InOrder(s, l) && EventsOf(es, |s.pc|) && NoPreemption(es)
    ensures InOrder(Run(s, es), LogAfter(s, l, es))
    decreases |es|
  {
    hide Orderly, Step, NextLog;
    if es != [] {
      InOrderStep(s, l, es[0]);
      InOrderRun(Step(s, es[0]), NextLog(s, l, es[0]), es[1..]);
    }
  }

  /** Without preemption the lock is granted in the order of the tail exchanges: the queue is the
      end of the arrivals, and all before it, with at most its first, have been granted.  No hart
      ever follows a NULL predecessor. */
  lemma FirstInFirstOut(n: nat, es: seq<Event>)
    requires EventsOf(es, n) && NoPreemption(es)
    ensures InOrderOfArrival(LogAfter(Init(n), EmptyLog(), es))
    ensures Fault !in Run(Init(n), es).pc
  {
    InOrderRun(Init(n), EmptyLog(), es);
    OrderlyHasNoFault(Run(Init(n), es), LogAfter(Init(n), EmptyLog(), es).queue);
    hide Orderly, Run, LogAfter;
    ConsistentIsPrefix(LogAfter(Init(n), EmptyLog(), es),
                       Holds(Run(Init(n), es), LogAfter(Init(n), EmptyLog(), es).queue));
  }

  /** Grants are a prefix of the arrivals, the queued harts are the last arrivals in their order,
      and everybody who has not been granted is queued. */
  ghost predicate InOrderOfArrival(l: Log) {
    && l.grants <= l.arrivals
    && |l.queue| <= |l.arrivals| && l.arrivals[|l.arrivals| - |l.queue|..] == l.queue
    && |l.arrivals| - |l.queue| <= |l.grants| <= |l.arrivals| - |l.queue| + 1
    && forall h <- l.arrivals[|l.grants|..] :: h in l.queue
  }

  lemma ConsistentIsPrefix(l: Log, holds: bool)
    requires Consistent(l, holds)
    ensures InOrderOfArrival(l)
  {
    var gone, granted := |l.arrivals| - |l.queue|, |l.grants|;
    forall h | h in l.arrivals[granted..] ensures h in l.queue {
      assert l.arrivals[granted..] == l.arrivals[gone..][granted - gone..];
    }
    if l.queue != [] { assert l.arrivals[|l.arrivals| - |l.queue|..][0] == l.queue[0]; }
  }

  lemma OrderlyHasNoFault(s: State, q: seq<Hart>)
    requires Orderly(s, q)
    ensures Fault !in s.pc
  {
    forall i | 0 <= i < |q| ensures s.pc[q[i]] != Fault {
      assert Placed(s, q, i);
    }
    assert forall h | 0 <= h < |s.pc| && Queued(s.pc[h]) :: h in q;
  }

  // ---------------------------------------------------------------- progress

  /** h's release would succeed on the next round of its loop: the node its next field names,
      the tail or its linked successor, still has h as its prev. */
  predicate Ready(s: State, h: Hart)
    requires Sized(s, |s.pc|) && h < |s.pc|
  {
    ReadPrev(s, s.next[h]) == Node(h)
  }

  /** An upper bound on the useful steps h still has to make before it leaves the queue.
      Rounds of a spin or of a release that is not ready make no progress. */
  function Rank(s: State, h: Hart): nat
    requires Sized(s, |s.pc|)
  {
    if h >= |s.pc| then 0 else
    match s.pc[h]
    case StorePrev(_) => 9
    case Test(_) => 8
    case Link(_) => 7
    case Spin => 6
    case Critical => 5
    case Take => 4
    case LoadNext(_) => if Ready(s, h) then 2 else 3
    case Cas(_, t) => if Ready(s, h) && t == s.next[h] then 1 else 3
    case _ => 0
  }

  function TotalRank(s: State, q: seq<Hart>): nat
    requires Sized(s, |s.pc|)
  {
    if q == [] then 0 else Rank(s, q[0]) + TotalRank(s, q[1..])
  }

  /** The total follows the single ranks, strictly if one of them is strict. */
  lemma {:induction false} TotalRankMonotone(s: State, s': State, q: seq<Hart>, k: nat)
    requires Sized(s, |s.pc|) && Sized(s', |s'.pc|)
    requires forall i {:trigger q[i]} | 0 <= i < |q| :: Rank(s', q[i]) <= Rank(s, q[i])
    ensures TotalRank(s', q) <= TotalRank(s, q)
    ensures k < |q| && Rank(s', q[k]) < Rank(s, q[k]) ==> TotalRank(s', q) < TotalRank(s, q)
  {
    if q != [] {
      TotalRankMonotone(s, s', q[1..], if k > 0 then k - 1 else |q|);
    }
  }

  /** A hart other than the mover keeps its rank, unless the mover makes it ready. */
  lemma RankOfOther(s: State, q: seq<Hart>, e: Event, i: nat)
    requires Orderly(s, q) && e.hart < |s.pc| && !e.preempt && !s.pc[e.hart].Exchange?
    requires s.pc[e.hart].Cas? ==> ReadPrev(s, s.pc[e.hart].target) != Node(e.hart)
    requires i < |q| && q[i] != e.hart
    ensures Rank(Step(s, e), q[i]) <= Rank(s, q[i])
  {
    assert Placed(s, q, i) && s.next[q[i]] == Successor(s, q, i);
    if s.pc[e.hart].Link? {
      LinkRank(s, q, e, i);
    } else if Queued(s.pc[e.hart]) {
      var k := PositionOf(s, q, e.hart);
      assert Placed(s, q, k);
    }
  }

  lemma LinkRank(s: State, q: seq<Hart>, e: Event, i: nat)
    requires Orderly(s, q) && e.hart < |s.pc| && s.pc[e.hart].Link?
    requires i < |q| && q[i] != e.hart
    ensures Rank(Step(s, e), q[i]) <= Rank(s, q[i])
  {
    var k := PositionOf(s, q, e.hart);
    assert Placed(s, q, k) && s.next[q[i]] == Successor(s, q, i);
    if i == k - 1 {
      assert q[|q| - 1] != q[i];
      assert !Ready(s, q[i]);
    }
  }

  /** Inside the queue every step lowers the mover's rank, except a round of a loop that has to
      wait for another hart. */
  predicate Waits(s: State, h: Hart)
    requires Sized(s, |s.pc|) && h < |s.pc|
  {
    (s.pc[h].Spin? && s.prev[h] != Null) || ((s.pc[h].LoadNext? || s.pc[h].Cas?) && !Ready(s, h))
  }

  lemma RankOfMover(s: State, q: seq<Hart>, e: Event)
    requires Orderly(s, q) && e.hart < |s.pc| && !e.preempt && Queued(s.pc[e.hart])
    requires s.pc[e.hart].Cas? ==> ReadPrev(s, s.pc[e.hart].target) != Node(e.hart)
    ensures Rank(Step(s, e), e.hart) <= Rank(s, e.hart)
    ensures !Waits(s, e.hart) ==> Rank(Step(s, e), e.hart) < Rank(s, e.hart)
  {
    var k := PositionOf(s, q, e.hart);
    assert Placed(s, q, k) && s.next[q[k]] == Successor(s, q, k);
  }

  /** A step inside the queue never raises the total, and lowers it unless the mover waits. */
  lemma TotalRankInside(s: State, q: seq<Hart>, e: Event)
    requires Orderly(s, q) && e.hart < |s.pc| && !e.preempt && Queued(s.pc[e.hart])
    requires s.pc[e.hart].Cas? ==> ReadPrev(s, s.pc[e.hart].target) != Node(e.hart)
    ensures TotalRank(Step(s, e), q) <= TotalRank(s, q)
    ensures !Waits(s, e.hart) ==> TotalRank(Step(s, e), q) < TotalRank(s, q)
  {
    var k := PositionOf(s, q, e.hart);
    RankOfMover(s, q, e);
    forall i | 0 <= i < |q| ensures Rank(Step(s, e), q[i]) <= Rank(s, q[i]) {
      if i != k { RankOfOther(s, q, e, i); }
    }
    TotalRankMonotone(s, Step(s, e), q, k);
  }

  lemma TotalRankOutside(s: State, q: seq<Hart>, e: Event)
    requires Orderly(s, q) && e.hart < |s.pc| && !e.preempt
    requires s.pc[e.hart].Idle? || s.pc[e.hart].Patch?
    ensures TotalRank(Step(s, e), q) <= TotalRank(s, q)
  {
    forall i | 0 <= i < |q| ensures Rank(Step(s, e), q[i]) <= Rank(s, q[i]) {
      assert e.hart !in q;
      RankOfOther(s, q, e, i);
    }
    TotalRankMonotone(s, Step(s, e), q, 0);
  }

  lemma TotalRankDeparture(s: State, q: seq<Hart>, e: Event)
    requires Orderly(s, q) && e.hart < |s.pc| && s.pc[e.hart].Cas?
    requires ReadPrev(s, s.pc[e.hart].target) == Node(e.hart)
    ensures q != [] && TotalRank(Step(s, e), q[1..]) < TotalRank(s, q)
  {
    OrderlyDequeue(s, q, e);
    assert Rank(s, q[0]) >= 1;
    forall i | 0 <= i < |q[1..]| ensures Rank(Step(s, e), q[1..][i]) <= Rank(s, q[1..][i]) {
      assert Placed(s, q, i + 1);
    }
    TotalRankMonotone(s, Step(s, e), q[1..], 0);
  }

  /** One step of a run without preemption: arrivals aside, the total never grows, and any
      queued hart that does not have to wait for another one makes it fall. */
  lemma ProgressStep(s: State, q: seq<Hart>, e: Event)
    requires Orderly(s, q) && e.hart < |s.pc| && !e.preempt && !s.pc[e.hart].Exchange?
    ensures TotalRank(Step(s, e), NextQueue(s, q, e)) <= TotalRank(s, q)
    ensures Queued(s.pc[e.hart]) && !Waits(s, e.hart) ==>
              TotalRank(Step(s, e), NextQueue(s, q, e)) < TotalRank(s, q)
  {
    var h, pc := e.hart, s.pc[e.hart];
    if pc.Cas? && ReadPrev(s, pc.target) == Node(h) {
      OrderlyDequeue(s, q, e);
      TotalRankDeparture(s, q, e);
    } else if Queued(pc) {
      TotalRankInside(s, q, e);
    } else {
      TotalRankOutside(s, q, e);
    }
  }

  /** Some queued hart never has to wait: the first of the queue or, while that one's release is
      not ready, its successor, which has yet to link itself. */
  lemma NeverStuck(s: State, q: seq<Hart>) returns (h: Hart)
    requires Orderly(s, q) && q != []
    ensures h < |s.pc| && Queued(s.pc[h]) && !Waits(s, h)
  {
    h := q[0];
    assert LogicalPred(s, q[0]) == Before(q, 0) && Placed(s, q, 0);
    assert s.next[q[0]] == Successor(s, q, 0);
    if Waits(s, h) {
      if |q| > 1 {
        assert LogicalPred(s, q[1]) == Before(q, 1) && Placed(s, q, 1);
        h := q[1];
      }
    }
  }

  /** From every state reached without preemption the queue can be emptied: some schedule of at
      most TotalRank steps, none of them an arrival, serves everybody in it. */
  lemma {:induction false} Drains(s: State, q: seq<Hart>) returns (es: seq<Event>)
    requires Orderly(s, q)
    ensures EventsOf(es, |s.pc|) && NoPreemption(es) && |es| <= TotalRank(s, q)
    ensures QueueAfter(s, q, es) == []
    decreases TotalRank(s, q)
  {
    if q == [] {
      es := [];
    } else {
      var h := NeverStuck(s, q);
      var e := Event(h, false, false);
      assert !s.pc[h].Exchange?;
      ProgressStep(s, q, e);
      OrderlyStep(s, q, e);
      hide Orderly, Step, NextQueue;
      var rest := Drains(Step(s, e), NextQueue(s, q, e));
      es := [e] + rest;
    }
  }

  lemma {:induction false} TotalRankAppend(s: State, q: seq<Hart>, h: Hart)
    requires Sized(s, |s.pc|)
    ensures TotalRank(s, q + [h]) == TotalRank(s, q) + Rank(s, h)
  {
    if q == [] {
      assert ([] + [h])[1..] == [];
    } else {
      TotalRankAppend(s, q[1..], h);
      assert (q + [h])[1..] == q[1..] + [h];
    }
  }

  /** An arrival costs at most eleven: its own steps, and two more of a release that was ready. */
  lemma ArrivalCost(s: State, q: seq<Hart>, e: Event)
    requires Orderly(s, q) && e.hart < |s.pc| && s.pc[e.hart].Exchange?
    ensures TotalRank(Step(s, e), q + [e.hart]) <= TotalRank(s, q) + 11
  {
    var s' := Step(s, e);
    TotalRankAppend(s', q, e.hart);
    if q != [] {
      assert e.hart !in q;
      assert forall i | 0 <= i < |q| :: q[i] in q;
      forall i | 0 <= i < |q[1..]| ensures Rank(s', q[1..][i]) <= Rank(s, q[1..][i]) {
        assert Placed(s, q, i + 1);
      }
      TotalRankMonotone(s, s', q[1..], 0);
    }
  }

  /** How many of the events were made by a queued hart that did not have to wait. */
  function UsefulSteps(s: State, es: seq<Event>): nat
    requires Sized(s, |s.pc|) && forall e <- es :: e.hart < |s.pc|
    decreases |es|
  {
    if es == [] then 0 else
    var h := es[0].hart;
    (if Queued(s.pc[h]) && !Waits(s, h) then 1 else 0) + UsefulSteps(Step(s, es[0]), es[1..])
  }

  lemma {:induction false} UsefulStepsBound(s: State, l: Log, es: seq<Event>)
    requires InOrder(s, l) && EventsOf(es, |s.pc|) && NoPreemption(es)
    ensures UsefulSteps(s, es) <=
            TotalRank(s, l.queue) + 11 * (|LogAfter(s, l, es).arrivals| - |l.arrivals|)
    decreases |es|
  {
    if es != [] {
      var e := es[0];
      if s.pc[e.hart].Exchange? { ArrivalCost(s, l.queue, e); } else { ProgressStep(s, l.queue, e); }
      InOrderStep(s, l, e);
      UsefulStepsBound(Step(s, e), NextLog(s, l, e), es[1..]);
    }
  }

  /** Over every run without preemption the harts inside the lock spend at most eleven useful
      steps per arrival, and as long as somebody is queued some hart can make one: the lock can
      neither livelock nor block. */
  lemma NeverStuckOnAnyRun(n: nat, es: seq<Event>)
    requires EventsOf(es, n) && NoPreemption(es)
    ensures UsefulSteps(Init(n), es) <= 11 * |LogAfter(Init(n), EmptyLog(), es).arrivals|
    ensures var s := Run(Init(n), es);
            LogAfter(Init(n), EmptyLog(), es).queue != [] ==>
              exists h: Hart :: h < n && Queued(s.pc[h]) && !Waits(s, h)
  {
    UsefulStepsBound(Init(n), EmptyLog(), es);
    InOrderRun(Init(n), EmptyLog(), es);
    var q := LogAfter(Init(n), EmptyLog(), es).queue;
    if q != [] {
      var h := NeverStuck(Run(Init(n), es), q);
    }
  }
}
