/** The order of channel capabilities and sockets in the ring, what their revocation deletes, and what
    that of a memory capability deletes (cap_revoke_memory, cap_revoke_channel and cap_revoke_socket in
    cap_ops.c). */
module CapChannels {
  import opened CapTypes
  import opened CapTable
  import opened CapSystem
  import opened CapInvariant
  import opened CapRuns
  import opened CapEffects

  // ---------------------------------------------------------------- channels as ranges

  /** A channel capability, or a socket as the one channel it uses, in the form of the ranges that the
      ring order is stated for. */
  function Lines(c: Cap): Cap {
    match c
    case Channel(bgn, mrk, end) => Monitor(bgn, mrk, end)
    case Socket(_, _, chan, _) => Monitor(chan, chan + 1, chan + 1)
    case _ => NoCap
  }

  function AllLines(cs: seq<Cap>): (ls: seq<Cap>)
    ensures |ls| == |cs|
  {
    seq(|cs|, i requires 0 <= i < |cs| => Lines(cs[i]))
  }

  /** No channel capability behind a socket includes the socket's channel. */
  ghost predicate SocketsLast(cs: seq<Cap>) {
    forall i, j | 0 <= i < j < |cs| && cs[i].Socket? && cs[j].Channel? :: cs[j].end <= cs[i].chan
  }

  /** Channel capabilities and sockets stand together in the ring, each before everything that was
      split off below its free part. */
  ghost predicate ChannelInv(s: Sys) {
    RingOk(s) && Nested(AllLines(RingCaps(s))) && SocketsLast(RingCaps(s))
  }

  /** A new member behind member k, which keeps its range. */
  lemma LinesInsert(cs: seq<Cap>, k: nat, p: Cap, c: Cap)
    requires k < |cs|
    ensures AllLines(cs[k := p][..k + 1] + [c] + cs[k + 1..]) ==
              AllLines(cs)[k := Lines(p)][..k + 1] + [Lines(c)] + AllLines(cs)[k + 1..]
  {
    hide Lines;
  }

  lemma LinesRemove(cs: seq<Cap>, k: nat)
    requires k < |cs|
    ensures AllLines(cs[..k] + cs[k + 1..]) == AllLines(cs)[..k] + AllLines(cs)[k + 1..]
  {
    hide Lines;
  }

  lemma LinesUpdate(cs: seq<Cap>, k: nat, c: Cap)
    requires k < |cs|
    ensures AllLines(cs[k := c]) == AllLines(cs)[k := Lines(c)]
  {
    hide Lines;
  }

  /** What a derivation does to the ranges of source and new capability. */
  lemma DerivedLines(p: Cap, c: Cap)
    requires IsDerivable(p, c) && IsValid(c) && RangeOk(Lines(p))
    ensures var l, l', n := Lines(p), Lines(Parent(p, c)), Lines(c);
            && GroupOf(n) == GroupOf(l) && RangeOk(n)
            && (n == NoCap ==> l' == l)
            && (n != NoCap ==> l' == WithMrk(l, EndOf(n)) && BgnOf(l) <= EndOf(n) <= EndOf(l) && BgnOf(l) <= BgnOf(n)
                               && MrkOf(l) <= EndOf(n) && EndOf(n) == MrkOf(l') && (BgnOf(n) >= MrkOf(l) || n == l))
  {
    hide NapotBase, NapotSize, RwxSubset, TagBlockToAddr;
  }

  lemma InsertLines(ls: seq<Cap>, k: nat, n: Cap)
    requires Nested(ls) && k < |ls| && GroupOf(n) == GroupOf(ls[k]) && RangeOk(n)
    requires n != NoCap ==> ls[k].Monitor? && n.Monitor? && BgnOf(ls[k]) <= EndOf(n) <= EndOf(ls[k])
    requires n != NoCap ==> BgnOf(ls[k]) <= BgnOf(n) && MrkOf(ls[k]) <= EndOf(n)
    requires n != NoCap ==> BgnOf(n) >= MrkOf(ls[k]) || n == ls[k]
    requires n == NoCap ==> ls[k] == NoCap
    ensures Nested((if n == NoCap then ls else ls[k := WithMrk(ls[k], EndOf(n))])[..k + 1] + [n] + ls[k + 1..])
  {
    var ls1 := if n == NoCap then ls else ls[k := WithMrk(ls[k], EndOf(n))];
    if n != NoCap {
      forall j | k < j < |ls| && SameGroup(ls[k], ls[j]) ensures EndOf(ls[j]) <= EndOf(n) {
        assert PairOk(ls[k], ls[j]);
      }
      NestedMark(ls, k, EndOf(n));
      forall i | 0 <= i <= k && SameGroup(ls1[i], n) ensures PairOk(ls1[i], n) {
        assert i < k ==> PairOk(ls1[i], ls1[k]);
      }
      forall j | k < j < |ls1| && SameGroup(n, ls1[j]) ensures PairOk(n, ls1[j]) {
        assert PairOk(ls[k], ls[j]);
      }
    }
    NestedInsertAt(ls1, k, n);
    assert ls1[k + 1..] == ls[k + 1..];
  }

  lemma LinesAt(s: Sys, k: nat)
    requires ChannelInv(s) && k < |s.ring|
    ensures RangeOk(Lines(s.caps[s.ring[k]])) && AllLines(RingCaps(s))[k] == Lines(s.caps[s.ring[k]])
    ensures RingCaps(s)[k] == s.caps[s.ring[k]]
  {
    assert AllLines(RingCaps(s))[k] == Lines(RingCaps(s)[k]);
    hide Lines;
  }

  lemma DeriveKeepsChannels(cfg: Config, s: Sys, src: nat, dst: nat, ncap: Cap)
    requires ChannelInv(s) && src < |s.caps| && dst < |s.caps|
    ensures ChannelInv(Derive(cfg, s, src, dst, ncap).s)
  {
    var r := Derive(cfg, s, src, dst, ncap);
    if r.err == Success {
      var k := InRing(s, src);
      var p := Parent(s.caps[src], ncap);
      LinesAt(s, k);
      DerivedLines(s.caps[src], ncap);
      DerivedSomething(s.caps[src], ncap);
      InsertRing(s, r.s, k, dst, p, ncap);
      LinesInsert(RingCaps(s), k, p, ncap);
      InsertedLast(RingCaps(s), k, ncap);
      hide RingOk, RingCaps, Lines, AllLines, Nested, IsDerivable, IsValid, Parent, Derive, RangeOk, SocketsLast;
      InsertLines(AllLines(RingCaps(s)), k, Lines(ncap));
      if Lines(ncap) == NoCap { assert AllLines(RingCaps(s))[k := Lines(p)] == AllLines(RingCaps(s)); }
    }
  }

  /** Ranges that are in the ring order, by their places in cs. */
  lemma PairsAt(cs: seq<Cap>, i: nat, j: nat)
    requires Nested(AllLines(cs)) && i < j < |cs| && Lines(cs[i]) != NoCap && Lines(cs[j]) != NoCap
    ensures PairOk(Lines(cs[i]), Lines(cs[j]))
  {
    assert SameGroup(AllLines(cs)[i], AllLines(cs)[j]);
    assert PairOk(AllLines(cs)[i], AllLines(cs)[j]);
    hide Nested;
  }

  lemma InsertedLast(cs: seq<Cap>, k: nat, c: Cap)
    requires Nested(AllLines(cs)) && SocketsLast(cs) && k < |cs| && IsDerivable(cs[k], c) && IsValid(c)
    ensures SocketsLast(cs[k := Parent(cs[k], c)][..k + 1] + [c] + cs[k + 1..])
  {
    var p := Parent(cs[k], c);
    var ds := cs[k := p][..k + 1] + [c] + cs[k + 1..];
    forall i | 0 <= i < k && cs[i].Socket? && c.Channel? ensures c.end <= cs[i].chan {
    }
    forall j | k < j < |cs| && c.Socket? && cs[j].Channel? ensures cs[j].end <= c.chan {
      PairsAt(cs, k, j);
    }
    ParentKind(cs[k], c);
    hide Nested, IsDerivable, Parent;
    forall i, j | 0 <= i < j < |ds| && ds[i].Socket? && ds[j].Channel? ensures ds[j].end <= ds[i].chan {
      if j <= k { assert SameRights(cs[j], ds[j]); }
    }
  }

  lemma ParentKind(p: Cap, c: Cap)
    requires IsDerivable(p, c) && IsValid(c)
    ensures SameRights(p, Parent(p, c)) && (p.Socket? ==> Parent(p, c) == p && c.Socket?)
    ensures c.Channel? ==> p.Channel? && c.end <= p.end
  {
    hide NapotBase, NapotSize, RwxSubset, TagBlockToAddr;
  }

  lemma DerivedSomething(p: Cap, c: Cap)
    requires IsDerivable(p, c)
    ensures c != NoCap && Parent(p, c) != NoCap && (Lines(c) == NoCap ==> Lines(p) == NoCap)
    ensures Lines(c) != NoCap ==> Lines(p).Monitor? && Lines(c).Monitor?
  {
    hide NapotBase, NapotSize, RwxSubset, TagBlockToAddr;
  }

  lemma MoveKeepsChannels(cfg: Config, s: Sys, src: nat, dst: nat)
    requires ChannelInv(s) && src < |s.caps| && dst < |s.caps|
    ensures ChannelInv(Move(cfg, s, src, dst).s)
  {
    var r := Move(cfg, s, src, dst);
    if r.err == Success {
      var k := InRing(s, src);
      var c := r.s.caps[dst];
      ReplaceRing(s, r.s, k, dst, c);
      assert Lines(c) == Lines(s.caps[src]) && (c.Channel? || c.Socket? ==> c == s.caps[src]);
      LinesUpdate(RingCaps(s), k, c);
      LinesAt(s, k);
      assert AllLines(RingCaps(s))[k := Lines(c)] == AllLines(RingCaps(s));
      hide Nested;
    }
  }

  lemma RemoveKeepsChannels(s: Sys, s': Sys, e: nat)
    requires ChannelInv(s) && e in s.ring && s'.ring == Without(s.ring, e) && s'.caps == s.caps[e := NoCap]
    ensures ChannelInv(s')
  {
    var k := IndexOf(s.ring, e);
    RemoveRing(s, s', k);
    LinesRemove(RingCaps(s), k);
    NestedRemove(AllLines(RingCaps(s)), k);
  }

  lemma DeleteKeepsChannels(cfg: Config, s: Sys, e: nat)
    requires ChannelInv(s) && e < |s.caps|
    ensures ChannelInv(Delete(cfg, s, e).s)
  {
    if s.caps[e] != NoCap { RemoveKeepsChannels(s, Delete(cfg, s, e).s, e); }
    hide Nested;
  }

  // ---------------------------------------------------------------- revoking channels and sockets

  /** Entry e holds a channel capability or a server's socket, and f stands behind it in the ring. */
  ghost predicate Next(s: Sys, e: nat, f: nat)
    requires RingOk(s)
  {
    exists k :: 0 <= k < |s.ring| - 1 && s.ring[k] == e && s.ring[k + 1] == f
  }

  /** The channels of c are among those of p. */
  predicate Inside(p: Cap, c: Cap) {
    Lines(p) != NoCap && Lines(c) != NoCap && BgnOf(Lines(p)) <= BgnOf(Lines(c)) && EndOf(Lines(c)) <= EndOf(Lines(p))
  }

  /** c is a channel capability for lower channels only, which some ancestor of p handed out before p. */
  predicate Older(p: Cap, c: Cap) {
    p.Channel? && c.Channel? && c.end <= p.bgn
  }

  lemma StepState(cfg: Config, s: Sys, e: nat)
    requires RingOk(s) && e < |s.caps| && e in s.ring
    ensures var f := NextOf(s.ring, e);
            && f < |s.caps| && s.caps[e] != NoCap && RevokeStep(cfg, s, e).err == RevokeTest(s.caps[e], s.caps[f])
            && (RevokeTest(s.caps[e], s.caps[f]) == Success ==>
                  && RevokeStep(cfg, s, e).s.ring == Without(s.ring, f)
                  && RevokeStep(cfg, s, e).s.caps == s.caps[f := NoCap][e := Reclaimed(s.caps[e], s.caps[f])])
  {
    hide RevokeTest, Reclaimed, SchedUpdate, PmpUnset, Without, NextOf;
  }

  lemma StepPlace(s: Sys, e: nat, f: nat) returns (k: nat)
    requires RingOk(s) && Next(s, e, f)
    ensures k + 1 < |s.ring| && s.ring[k] == e && s.ring[k + 1] == f && IndexOf(s.ring, e) == k
    ensures IndexOf(s.ring, f) == k + 1 && e != f && NextOf(s.ring, e) == f
  {
    k :| 0 <= k < |s.ring| - 1 && s.ring[k] == e && s.ring[k + 1] == f;
    IndexOfIs(s.ring, k);
    IndexOfIs(s.ring, k + 1);
  }

  lemma StepIs(cfg: Config, s: Sys, e: nat, f: nat) returns (k: nat)
    requires ChannelInv(s) && e < |s.caps| && f < |s.caps| && Next(s, e, f)
    ensures k + 1 < |s.ring| && s.ring[k] == e && s.ring[k + 1] == f && IndexOf(s.ring, e) == k
    ensures IndexOf(s.ring, f) == k + 1 && e != f
    ensures s.caps[e] != NoCap && RevokeStep(cfg, s, e).err == RevokeTest(s.caps[e], s.caps[f])
    ensures RevokeTest(s.caps[e], s.caps[f]) == Success ==>
              && RevokeStep(cfg, s, e).s.ring == Without(s.ring, f)
              && RevokeStep(cfg, s, e).s.caps == s.caps[f := NoCap][e := Reclaimed(s.caps[e], s.caps[f])]
    ensures Lines(s.caps[e]) != NoCap && Lines(s.caps[f]) != NoCap ==> PairOk(Lines(s.caps[e]), Lines(s.caps[f]))
    ensures s.caps[e].Socket? && s.caps[f].Channel? ==> s.caps[f].end <= s.caps[e].chan
    ensures RangeOk(Lines(s.caps[e])) && RangeOk(Lines(s.caps[f]))
  {
    k := StepPlace(s, e, f);
    StepState(cfg, s, e);
    LinesAt(s, k);
    LinesAt(s, k + 1);
    var cs := RingCaps(s);
    if Lines(cs[k]) != NoCap && Lines(cs[k + 1]) != NoCap { PairsAt(cs, k, k + 1); }
    hide Nested, Lines, AllLines, RangeOk, RevokeTest, Reclaimed, PairOk, RevokeStep;
    hide Without, RingOk, IndexOf, NextOf, Next;
  }

  /** A step of the revocation of a channel capability or server's socket deletes the next member
      exactly when that one uses channels inside the range, or is an older channel capability, which
      it should not delete. */
  lemma ChannelRevokeExactly(cfg: Config, s: Sys, e: nat, f: nat)
    requires ChannelInv(s) && e < |s.caps| && f < |s.caps| && Next(s, e, f)
    requires s.caps[e].Channel? || (s.caps[e].Socket? && s.caps[e].tag == 0)
    ensures RevokeStep(cfg, s, e).err == Success <==> Inside(s.caps[e], s.caps[f]) || Older(s.caps[e], s.caps[f])
    ensures RevokeStep(cfg, s, e).err == Success ==> RevokeStep(cfg, s, e).s.caps[f] == NoCap
  {
    var k := StepIs(cfg, s, e, f);
    hide RevokeStep, ChannelInv, Next, NapotSize, TagBlockToAddr;
  }

  /** The test itself, wherever the next member stands, also where the ring begins again. */
  lemma ChannelTest(cfg: Config, s: Sys, e: nat)
    requires RingOk(s) && e < |s.caps| && (s.caps[e].Channel? || s.caps[e].Socket?)
    ensures e in s.ring
    ensures var p, c, r := s.caps[e], s.caps[NextOf(s.ring, e)], RevokeStep(cfg, s, e);
            && (p.Channel? ==>
                  (r.err == Success <==> (c.Channel? && c.bgn < p.end) || (c.Socket? && p.bgn <= c.chan)))
            && (p.Socket? ==> (r.err == Success <==> p.tag == 0 && c.Socket? && c.chan == p.chan))
            && (r.err == ErrInvalidCapability <==> p.Socket? && p.tag != 0 && c.Socket?)
            && r.err in {Success, NoChild, ErrInvalidCapability}
  {
    hide NextOf, Without, PmpUnset, SchedUpdate, NapotSize;
  }

  /** So a revoke step keeps the order of channels as long as it deletes no older capability; other
      revocations do not touch it. */
  lemma RevokeKeepsChannels(cfg: Config, s: Sys, e: nat, f: nat)
    requires ChannelInv(s) && e < |s.caps| && f < |s.caps| && Next(s, e, f) && !Older(s.caps[e], s.caps[f])
    ensures ChannelInv(RevokeStep(cfg, s, e).s)
  {
    var r := RevokeStep(cfg, s, e);
    var p, c := s.caps[e], s.caps[f];
    var k := StepIs(cfg, s, e, f);
    if r.err == Success {
      var s1 := s.(ring := Without(s.ring, f), caps := s.caps[f := NoCap]);
      RemoveKeepsChannels(s, s1, f);
      ReclaimedLines(p, c);
      StepNesting(s, s1, k, e, f, p, c);
      RewriteKeepsChannels(s1, r.s, k, Reclaimed(p, c));
      hide *;
    } else {
      assert r.s == s;
      hide *;
    }
  }

  lemma StepNesting(s: Sys, s1: Sys, k: nat, e: nat, f: nat, p: Cap, c: Cap)
    requires ChannelInv(s) && ChannelInv(s1) && k + 1 < |s.ring| && s.ring[k] == e && s.ring[k + 1] == f
    requires p == s.caps[e] && c == s.caps[f] && !Older(p, c) && RevokeTest(p, c) == Success
    requires s1.ring == Without(s.ring, f) && s1.caps == s.caps[f := NoCap] && IndexOf(s.ring, f) == k + 1
    ensures k < |s1.ring| && s1.ring[k] == e && s1.caps[e] == p
    ensures Nested(AllLines(RingCaps(s1))[k := Lines(Reclaimed(p, c))])
  {
    assert s1.ring[k] == e;
    ReclaimedLines(p, c);
    RemoveRing(s, s1, k + 1);
    LinesRemove(RingCaps(s), k + 1);
    LinesAt(s, k);
    LinesAt(s, k + 1);
    LinesAt(s1, k);
    if c.Channel? { PairsAt(RingCaps(s), k, k + 1); }
    hide RingCaps, AllLines, Nested, RevokeTest, Reclaimed, SocketsLast, RingOk, Without, WithMrk;
    var ls := AllLines(RingCaps(s));
    if c.Channel? {
      RevokeKeepsNesting(ls, k);
      LinesMark(c);
    } else {
      assert AllLines(RingCaps(s1))[k := Lines(p)] == AllLines(RingCaps(s1));
    }
  }

  lemma LinesMark(c: Cap)
    ensures c.Channel? ==> MrkOf(Lines(c)) == c.mrk
  {
  }

  lemma RewriteKeepsChannels(s: Sys, s': Sys, k: nat, c: Cap)
    requires ChannelInv(s) && k < |s.ring| && c != NoCap && SameRights(s.caps[s.ring[k]], c)
    requires s'.ring == s.ring && s'.caps == s.caps[s.ring[k] := c] && Nested(AllLines(RingCaps(s))[k := Lines(c)])
    ensures ChannelInv(s')
  {
    RewriteRing(s, s', k, c);
    LinesUpdate(RingCaps(s), k, c);
    LastUpdate(RingCaps(s), k, c);
    hide Nested, AllLines, Lines, SocketsLast;
  }

  lemma LastUpdate(cs: seq<Cap>, k: nat, c: Cap)
    requires SocketsLast(cs) && k < |cs| && SameRights(cs[k], c)
    ensures SocketsLast(cs[k := c])
  {
  }

  lemma ReclaimedLines(p: Cap, c: Cap)
    requires RevokeTest(p, c) == Success
    ensures Reclaimed(p, c) != NoCap && SameRights(p, Reclaimed(p, c))
    ensures Lines(Reclaimed(p, c)) == if c.Channel? then WithMrk(Lines(p), c.mrk) else Lines(p)
    ensures c.Channel? ==> p.Channel?
  {
    hide NapotSize, TagBlockToAddr;
  }

  /** When the step finds no child, no channel of the range is used behind the capability. */
  lemma NoChannelsLeft(cfg: Config, s: Sys, e: nat, f: nat, g: nat)
    requires ChannelInv(s) && e < |s.caps| && f < |s.caps| && Next(s, e, f) && RevokeStep(cfg, s, e).err == NoChild
    requires s.caps[e].Channel? || (s.caps[e].Socket? && s.caps[e].tag == 0)
    requires g in s.ring && IndexOf(s.ring, e) < IndexOf(s.ring, g)
    ensures !Inside(s.caps[e], s.caps[g])
  {
    var k := StepIs(cfg, s, e, f);
    ChannelRevokeExactly(cfg, s, e, f);
    var j := IndexOf(s.ring, g);
    LinesAt(s, k);
    LinesAt(s, k + 1);
    LinesAt(s, j);
    hide RevokeStep, RevokeTest, Next, IndexOf;
    var cs := RingCaps(s);
    assert cs[k] == s.caps[e] && cs[k + 1] == s.caps[f] && cs[j] == s.caps[g];
    if j > k + 1 && Inside(s.caps[e], s.caps[g]) { BetweenInside(cs, k, j); }
    hide *;
  }

  /** What stands between a capability and a member inside its range is inside too. */
  lemma BetweenInside(cs: seq<Cap>, k: nat, j: nat)
    requires Nested(AllLines(cs)) && k + 1 < j < |cs| && Inside(cs[k], cs[j])
    requires RangeOk(Lines(cs[k])) && RangeOk(Lines(cs[k + 1])) && RangeOk(Lines(cs[j]))
    ensures Inside(cs[k], cs[k + 1])
  {
    NextInGroup(cs, k, j);
    PairsAt(cs, k, k + 1);
    PairsAt(cs, k + 1, j);
    hide Nested, AllLines;
    LinesRange(cs[k + 1]);
  }

  lemma LinesRange(c: Cap)
    ensures Lines(c) == NoCap || Lines(c).Monitor?
  {
  }

  lemma NextInGroup(cs: seq<Cap>, k: nat, j: nat)
    requires Nested(AllLines(cs)) && k + 1 < j < |cs| && Lines(cs[k]) != NoCap && Lines(cs[j]) != NoCap
    ensures Lines(cs[k + 1]) != NoCap
  {
    assert SameGroup(AllLines(cs)[k], AllLines(cs)[j]);
    assert SameGroup(AllLines(cs)[k], AllLines(cs)[k + 1]);
  }

  /** The reset that ends a revocation keeps the order too. */
  lemma ResetKeepsChannels(cfg: Config, s: Sys, e: nat)
    requires ChannelInv(s) && e < |s.caps|
    requires forall g | g in s.ring && e in s.ring && IndexOf(s.ring, e) < IndexOf(s.ring, g) ::
               !Inside(s.caps[e], s.caps[g])
    ensures ChannelInv(Reset(cfg, s, e).s)
  {
    var s' := Reset(cfg, s, e).s;
    if s.caps[e] != NoCap {
      var k := InRing(s, e);
      var c := s'.caps[e];
      assert SameRights(s.caps[e], c) && c != NoCap;
      hide RingOk, RingCaps, AllLines, SocketsLast, Nested, Inside, SchedUpdate;
      ResetNesting(s, e, k, c);
      RewriteKeepsChannels(s, s', k, c);
    }
  }

  lemma ResetNesting(s: Sys, e: nat, k: nat, c: Cap)
    requires ChannelInv(s) && k < |s.ring| && s.ring[k] == e && IndexOf(s.ring, e) == k
    requires SameRights(s.caps[e], c) && (c.Channel? ==> c.mrk == c.bgn)
    requires forall g | g in s.ring && k < IndexOf(s.ring, g) :: !Inside(s.caps[e], s.caps[g])
    ensures Nested(AllLines(RingCaps(s))[k := Lines(c)])
  {
    var ls := AllLines(RingCaps(s));
    LinesAt(s, k);
    if c.Channel? {
      forall j: nat | k < j < |ls| && SameGroup(ls[k], ls[j]) ensures EndOf(ls[j]) <= BgnOf(ls[k]) {
        IndexOfIs(s.ring, j);
        LaterOutside(s, e, k, j);
      }
      hide RingOk, RingCaps, AllLines, SocketsLast, Inside, Nested;
      NestedMark(ls, k, BgnOf(ls[k]));
    } else {
      hide RingOk, RingCaps, AllLines, SocketsLast, Inside, Nested;
      assert ls[k := Lines(c)] == ls;
    }
  }

  lemma LaterOutside(s: Sys, e: nat, k: nat, j: nat)
    requires ChannelInv(s) && k < j < |s.ring| && s.ring[k] == e && !Inside(s.caps[e], s.caps[s.ring[j]])
    requires SameGroup(AllLines(RingCaps(s))[k], AllLines(RingCaps(s))[j])
    ensures var ls := AllLines(RingCaps(s)); EndOf(ls[j]) <= BgnOf(ls[k])
  {
    LinesAt(s, k);
    LinesAt(s, j);
    PairsAt(RingCaps(s), k, j);
    hide Nested, RingOk, RingCaps, AllLines, SocketsLast;
  }

  /** The platform starts in this order with one channel capability. */
  lemma InitChannels(cfg: Config, init: seq<Cap>, i: nat)
    requires InitCapsOk(cfg, init) && i < |init|
    requires init[i].Channel? ==> init[i].bgn <= init[i].mrk <= init[i].end && init[i].bgn < init[i].end
    requires forall j | 0 <= j < |init| && j != i :: !init[j].Channel? && !init[j].Socket?
    requires !init[i].Socket?
    ensures ChannelInv(InitSys(cfg, init))
  {
    InitRingOk(cfg, init);
    var s := InitSys(cfg, init);
    var cs := RingCaps(s);
    forall k | 0 <= k < |cs| ensures (cs[k].Channel? || cs[k].Socket?) ==> s.ring[k] == i && cs[k] == init[i] {
      assert s.ring[k] in s.ring;
    }
    hide InitSys, InitCapsOk;
    forall k, l | 0 <= k < l < |cs| ensures !SameGroup(AllLines(cs)[k], AllLines(cs)[l]) {
    }
  }

  /** Entry a gets the first free channel of e's capability. */
  ghost predicate SplitOff(cfg: Config, s: Sys, e: nat, a: nat, s1: Sys) {
    EntryOk(cfg, s, e) && EntryOk(cfg, s, a) && s.caps[e].Channel? &&
    var m := s.caps[e].mrk; Derive(cfg, s, e, a, Channel(m, m, m + 1)) == Outcome(s1, Success)
  }

  lemma SplitsOff(cfg: Config, s: Sys, e: nat, a: nat) returns (k: nat, s1: Sys)
    requires RingOk(s) && e < |s.caps| && a < |s.caps| && s.caps[a] == NoCap
    requires s.caps[e].Channel? && s.caps[e].mrk < s.caps[e].end
    ensures SplitOff(cfg, s, e, a, s1)
    ensures var m := s.caps[e].mrk;
            && k < |s.ring| && s.ring[k] == e && RingOk(s1)
            && s1.caps == s.caps[a := Channel(m, m, m + 1)][e := s.caps[e].(mrk := m + 1)]
            && s1.ring == s.ring[..k + 1] + [a] + s.ring[k + 1..]
  {
    var m := s.caps[e].mrk;
    var c := Channel(m, m, m + 1);
    k := InRing(s, e);
    s1 := Derive(cfg, s, e, a, c).s;
    InsertRing(s, s1, k, a, Parent(s.caps[e], c), c);
    hide RingOk, RingCaps, DistinctEntries;
  }

  /** Two channels split off one after the other: revoking the second deletes the first, which is not a
      part of it. */
  lemma RevokesOlder(cfg: Config, s: Sys, e: nat, a: nat, b: nat) returns (s1: Sys, s2: Sys)
    requires RingOk(s) && e < |s.caps| && a < |s.caps| && b < |s.caps| && a != b
    requires s.caps[a] == NoCap == s.caps[b]
    requires s.caps[e].Channel? && s.caps[e].mrk + 2 <= s.caps[e].end
    ensures SplitOff(cfg, s, e, a, s1) && SplitOff(cfg, s1, e, b, s2)
    ensures EntryOk(cfg, s2, b) && a < |s2.caps| && !Inside(s2.caps[b], s2.caps[a]) && s2.caps[a] != NoCap
    ensures RevokeStep(cfg, s2, b).err == Success && RevokeStep(cfg, s2, b).s.caps[a] == NoCap
  {
    hide SplitOff, RevokeStep, Inside;
    var k, k1;
    k, s1 := SplitsOff(cfg, s, e, a);
    k1, s2 := SplitsOff(cfg, s1, e, b);
    assert s1.ring[k] == e && s1.ring[k + 1] == a;
    SameIndex(s1.ring, k, k1);
    assert s2.ring[k + 1] == b && s2.ring[k + 2] == a;
    hide RingOk;
    OlderDeleted(cfg, s2, a, b, k + 1);
  }

  lemma OlderDeleted(cfg: Config, s: Sys, a: nat, b: nat, k: nat)
    requires RingOk(s) && k + 1 < |s.ring| && s.ring[k] == b && s.ring[k + 1] == a
    requires s.caps[a].Channel? && s.caps[b].Channel? && s.caps[a].end <= s.caps[b].bgn < s.caps[b].end
    requires s.caps[a].bgn < s.caps[a].end
    ensures !Inside(s.caps[b], s.caps[a])
    ensures RevokeStep(cfg, s, b).err == Success
    ensures RevokeStep(cfg, s, b).s.caps == s.caps[a := NoCap][b := s.caps[b].(mrk := s.caps[a].mrk)]
  {
    IndexOfIs(s.ring, k);
    assert NextOf(s.ring, b) == a && a != b;
  }

  lemma SameIndex(ring: seq<nat>, k: nat, l: nat)
    requires DistinctEntries(ring) && k < |ring| && l < |ring| && ring[k] == ring[l]
    ensures k == l
  {
  }

  // ---------------------------------------------------------------- revoking memory

  /** A step of the revocation of a memory capability deletes the next member exactly when that one is
      a memory capability of the same tag that does not end before the range, or a PMP capability whose
      region is at least as large as the address at which the range begins. */
  lemma MemoryRevokeExactly(cfg: Config, s: Sys, e: nat)
    requires RingOk(s) && e < |s.caps| && s.caps[e].Memory?
    ensures e in s.ring
    ensures var p, c := s.caps[e], s.caps[NextOf(s.ring, e)];
            RevokeStep(cfg, s, e).err == Success <==>
              || (c.Memory? && c.tag == p.tag && p.bgn < c.end)
              || (c.Pmp? && p.tag * 0x800_0000 + p.bgn * 0x1000 <= NapotSize(c.addr))
  {
    hide NextOf, Without, PmpUnset, SchedUpdate, NapotSize;
  }

  /** So the PMP capabilities inside memory above the first 256 MiB all stay. */
  lemma PmpNotRevoked(rwx: bv3, lck: bool, tag: nat, bgn: nat, mrk: nat, end: nat, c: Cap)
    requires tag >= 2 && bgn <= end < 0x1_0000 && c.Pmp? && PartOf(Memory(rwx, lck, tag, bgn, bgn, end), c)
    ensures RevokeTest(Memory(rwx, lck, tag, bgn, mrk, end), c) == NoChild
  {
    RegionFits(Memory(rwx, lck, tag, bgn, bgn, end), c.addr);
    hide InRegion, NapotBase, NapotSize, NoMore, FreeByte;
  }
}
