/** Recycling seen from the pool's own selections: an exhausted batch hands its burned
    addresses out in burn order, over and over. */
module RecyclingRuns {
  import opened Common
  import opened Cyclic
  import opened PolicyTypes
  import opened Batches
  import opened Preferred
  import opened PoolState
  import opened Selection
  import opened SelectionExact
  import Lapsed

  // ---------------------------------------------------------------------
  // One recycled selection.

  /** The state recycling looks at: nothing it looks at has changed since the call, and the
      batch is as it was. */
  ghost predicate SameForRecycling(p: Pool, s: Pool, now: Time) {
    Mild(p, s, now) && forall n :: n in s.batches ==> n in p.batches && s.batches[n] == p.batches[n]
  }

  /** A selection that recycles stamps the oldest burn and reserves its slot. */
  ghost predicate FromOldest(s: Pool, pol: Policy, target: string, now: Time, r: (Pool, Result<Choice, Error>)) {
    && Ordered(s)
    && OldestBurn(s, pol, target, now).Some?
    && pol.uniqueBatch in s.batches
    && var h := OldestBurn(s, pol, target, now).value;
       r == Choose(StampBatch(s, pol.uniqueBatch, s.At(h).publicIP, now), pol, h, FromRecycling, now)
  }

  predicate Recycled(r: (Pool, Result<Choice, Error>)) { r.1.Ok? && r.1.value.origin.FromRecycling? }

  lemma ChosenOrigin(p: Pool, pol: Policy, h: Handle, origin: Origin, now: Time)
    ensures Recycled(Choose(p, pol, h, origin, now)) ==> origin.FromRecycling?
  {}

  lemma ColdIsNotRecycled(p: Pool, pol: Policy, h: Handle, now: Time, luck: Luck)
    ensures !Recycled(PickCold(p, pol, h, now, luck))
  {
    hide Choose;
    hide ReserveCapacity;
    hide BudgetAvailable;
    var q := BudgetAvailable(p, now).0;
    ChosenOrigin(ReserveCapacity(q, luck.victim).0, pol, h, FromCold, now);
  }

  lemma AnyRecycled(p: Pool, pol: Policy, target: string, now: Time, luck: Luck)
    requires p.Wf() && Recycled(PickAny(p, pol, target, now, luck))
    ensures FromOldest(p, pol, target, now, PickAny(p, pol, target, now, luck))
  {
    hide Choose;
    hide Candidates;
    hide ReadyOnes;
    hide OldestBurn;
    hide PickCold;
    WfIsOrdered(p);
    Lapsed.BurnsAreStored(p, pol, target, now);
    hide Pool.Wf;
    var cands := Candidates(p, pol, target, now, |p.order|);
    var ready := ReadyOnes(p, cands);
    if cands != [] {
      if ready != [] {
        ChosenOrigin(p, pol, ready[luck.roll % |ready|], FromReady, now);
      } else {
        ColdIsNotRecycled(p, pol, cands[luck.roll % |cands|], now, luck);
      }
    }
  }

  lemma PreferredRecycled(start: Pool, p: Pool, pol: Policy, target: string, now: Time, luck: Luck) returns (s: Pool)
    requires p.Wf() && SameForRecycling(start, p, now) && Recycled(PickPreferred(p, pol, target, now, luck))
    ensures SameForRecycling(start, s, now) && FromOldest(s, pol, target, now, PickPreferred(p, pol, target, now, luck))
  {
    hide Mild;
    hide Choose;
    hide PickAny;
    hide PreferredChoice;
    hide FromOldest;
    s := p;
    if target == "" || target !in p.preferred {
      AnyRecycled(p, pol, target, now, luck);
    } else {
      match PreferredChoice(p, pol, target, now)
      case None =>
        var kept := KeptRing(p, pol, target, now);
        if RingsValid(p) { KeptRingValid(p, pol, target, now); }
        SetRingIsMild(p, target, kept, now);
        s := SetRing(p, target, kept);
        MildKeepsWf(p, s, now);
        MildTransitive(start, p, s, now);
        AnyRecycled(s, pol, target, now, luck);
      case Some((e, ring)) =>
        if e.slotID in p.slots { ChosenOrigin(SetRing(p, target, ring), pol, p.slots[e.slotID], FromPreferred, now); }
    }
  }

  lemma StickyRecycled(start: Pool, p: Pool, pol: Policy, target: string, now: Time, luck: Luck) returns (s: Pool)
    requires p.Wf() && SameForRecycling(start, p, now) && Recycled(PickSticky(p, pol, target, now, luck))
    ensures SameForRecycling(start, s, now) && FromOldest(s, pol, target, now, PickSticky(p, pol, target, now, luck))
  {
    hide Mild;
    hide Choose;
    hide PickPreferred;
    hide StickySlot;
    hide FromOldest;
    Lapsed.StickyIsBound(p, pol, target, now);
    if StickySlot(p, pol, target, now).Some? {
      ChosenOrigin(ExtendSession(p, pol, now), pol, StickySlot(p, pol, target, now).value, FromSession, now);
    }
    var q := ForgetSession(p, pol, now);
    SessionsAreMild(p, q.sessions, now);
    MildKeepsWf(p, q, now);
    MildTransitive(start, p, q, now);
    s := PreferredRecycled(start, q, pol, target, now, luck);
  }

  lemma StartsMild(p: Pool, lapsed: set<(string, Addr)>, now: Time)
    requires p.Wf()
    ensures var q := DropLapsed(Expire(p, now), lapsed, now); q.Wf() && SameForRecycling(p, q, now)
  {
    ExpireIsMild(p, now);
    var e := Expire(p, now);
    DropLapsedIsMild(e, lapsed, now);
    var q := DropLapsed(e, lapsed, now);
    MildTransitive(p, e, q, now);
    MildKeepsWf(p, q, now);
    hide Mild;
    hide Pool.Wf;
    hide ExpireCooldowns;
    hide Prune;
  }

  lemma PickRecycled(p: Pool, pol: Policy, requested: string, now: Time, luck: Luck) returns (s: Pool)
    requires p.Wf() && Recycled(Pick(p, pol, requested, now, luck))
    ensures SameForRecycling(p, s, now) && FromOldest(s, pol, Scope(pol, requested), now,
            Pick(p, pol, requested, now, luck))
  {
    StartsMild(p, luck.lapsed, now);
    hide Expire;
    hide DropLapsed;
    hide PickSticky;
    hide SameForRecycling;
    hide FromOldest;
    hide Pool.Wf;
    s := StickyRecycled(p, DropLapsed(Expire(p, now), luck.lapsed, now), pol, Scope(pol, requested), now, luck);
  }

  /** What recycling may hand out: every member that passes all rules but the batch's, with
      its address, in order. */
  function MayHandOut(p: Pool, pol: Policy, target: string, now: Time): seq<Candidate>
    requires Ordered(p)
  {
    AsCandidates(p, Recyclable(p, pol, target, now, |p.order|))
  }

  lemma {:induction false} SameRecyclable(p: Pool, s: Pool, pol: Policy, target: string, now: Time, n: nat)
    requires Ordered(p) && Ordered(s) && Mild(p, s, now) && n <= |p.order| && s.order == p.order && s.slots == p.slots
    ensures Recyclable(s, pol, target, now, n) == Recyclable(p, pol, target, now, n)
    ensures forall h :: h in Recyclable(p, pol, target, now, n) ==> h in p.states
  {
    if n > 0 {
      SameRecyclable(p, s, pol, target, now, n - 1);
      assert p.order[n - 1] in p.order;
      MildKeepsEligible(p, s, p.slots[p.order[n - 1]], pol.(uniqueBatch := ""), target, now);
      hide Mild;
      hide Eligible;
    }
  }

  lemma SameCandidates(p: Pool, s: Pool, pol: Policy, target: string, now: Time)
    requires Ordered(p) && Ordered(s) && Mild(p, s, now)
    ensures MayHandOut(s, pol, target, now) == MayHandOut(p, pol, target, now)
  {
    assert s.order == p.order && s.slots == p.slots;
    SameRecyclable(p, s, pol, target, now, |p.order|);
    var hs := Recyclable(p, pol, target, now, |p.order|);
    forall i | 0 <= i < |hs| ensures s.At(hs[i]).publicIP == p.At(hs[i]).publicIP
        && s.At(hs[i]).spec == p.At(hs[i]).spec {
      assert hs[i] in hs;
      MildKeepsIP(p, s, hs[i], now);
    }
    hide Mild;
    hide Recyclable;
    hide Ordered;
    assert AsCandidates(s, hs) == AsCandidates(p, hs);
  }

  /** The batch after a recycled selection in the state recycling looks at. */
  lemma RecycledIn(s: Pool, pol: Policy, target: string, now: Time, r: (Pool, Result<Choice, Error>))
    requires FromOldest(s, pol, target, now, r) && r.1.Ok?
    ensures r.1.value.state in s.states
    ensures pol.uniqueBatch in s.batches && pol.uniqueBatch in r.0.batches
    ensures var b, cands := s.batches[pol.uniqueBatch], MayHandOut(s, pol, target, now);
            var best := OldestIn(b, cands, |cands|);
            && best.Some?
            && cands[best.value].ip == s.At(r.1.value.state).publicIP
            && r.0.batches[pol.uniqueBatch] == Recycle(b, cands[best.value], now).(expiresAt := now + BatchTTL(s, pol))
  {
    OldestState(s, pol, target, now);
    hide OldestBurn;
    hide MayHandOut;
    hide Ordered;
    hide OldestIn;
    hide BurnOf;
    hide Recycle;
    var h := OldestBurn(s, pol, target, now).value;
    var b, cands := s.batches[pol.uniqueBatch], MayHandOut(s, pol, target, now);
    StampedThenReserved(s, pol, h, now, r);
    assert cands[OldestIn(b, cands, |cands|).value] == Candidate(s.At(h).spec.id, s.At(h).publicIP);
    hide FromOldest;
  }

  lemma StampedThenReserved(s: Pool, pol: Policy, h: Handle, now: Time, r: (Pool, Result<Choice, Error>))
    requires pol.uniqueBatch != "" && pol.uniqueBatch in s.batches && now < s.batches[pol.uniqueBatch].expiresAt
    requires r == Choose(StampBatch(s, pol.uniqueBatch, s.At(h).publicIP, now), pol, h, FromRecycling, now) && r.1.Ok?
    ensures r.1.value.state == h && pol.uniqueBatch in r.0.batches
    ensures r.0.batches[pol.uniqueBatch]
            == Recycle(s.batches[pol.uniqueBatch], Candidate(s.At(h).spec.id, s.At(h).publicIP), now).(expiresAt := now
                + BatchTTL(s, pol))
  {
    hide Choose;
    hide BatchState.Stamp;
    hide BatchState.Reserve;
    var q := StampBatch(s, pol.uniqueBatch, s.At(h).publicIP, now);
    StampedStates(s, pol.uniqueBatch, s.At(h).publicIP, now);
    ChosenBatch(q, pol, h, now, r);
    hide StampBatch;
    ReserveThenMove(q.batches[pol.uniqueBatch], now + BatchTTL(q, pol), s.At(h).spec.id, s.At(h).publicIP, now);
  }

  /** The batch after a recycled selection: the oldest candidate's address was stamped and
      its slot reserved, and the batch lives on. */
  lemma RecycledBatch(p: Pool, s: Pool, pol: Policy, target: string, now: Time, r: (Pool, Result<Choice, Error>))
    requires Ordered(p) && SameForRecycling(p, s, now) && FromOldest(s, pol, target, now, r) && r.1.Ok?
    ensures pol.uniqueBatch in p.batches && pol.uniqueBatch in r.0.batches
    ensures var b, cands := p.batches[pol.uniqueBatch], MayHandOut(p, pol, target, now);
            var best := OldestIn(b, cands, |cands|);
            && best.Some?
            && cands[best.value].ip == p.At(r.1.value.state).publicIP
            && r.0.batches[pol.uniqueBatch] == Recycle(b, cands[best.value], now).(expiresAt := now + BatchTTL(p, pol))
  {
    RecycledIn(s, pol, target, now, r);
    assert Ordered(s);
    hide FromOldest;
    SameCandidates(p, s, pol, target, now);
    SameState(p, s, r.1.value.state, now);
    hide Ordered;
    hide MayHandOut;
    hide Mild;
    hide OldestIn;
    hide Recycle;
  }

  lemma SameState(p: Pool, s: Pool, h: Handle, now: Time)
    requires Mild(p, s, now) && h in s.states
    ensures s.At(h).publicIP == p.At(h).publicIP && s.At(h).spec == p.At(h).spec && s.opts == p.opts
  {
    assert h in p.states;
    MildKeepsIP(p, s, h, now);
    hide MildBatches;
    hide MildStates;
    hide MildCooldowns;
    hide RingsValid;
  }

  lemma StampedStates(s: Pool, name: string, ip: Addr, now: Time)
    requires name in s.batches
    ensures var q := StampBatch(s, name, ip, now);
            && q.states == s.states && q.opts == s.opts && name in q.batches
            && q.batches[name] == s.batches[name].Stamp(ip, now)
                && q.batches[name].expiresAt == s.batches[name].expiresAt
  {}

  lemma ReserveThenMove(b: BatchState, at: Time, slotID: string, ip: Addr, now: Time)
    ensures b.(expiresAt := at).Reserve(slotID, ip, now) == b.Reserve(slotID, ip, now).(expiresAt := at)
  {}

  /** The choice is the oldest candidate, and its batch is live. */
  lemma OldestState(s: Pool, pol: Policy, target: string, now: Time)
    requires Ordered(s) && OldestBurn(s, pol, target, now).Some?
    ensures pol.uniqueBatch != "" && pol.uniqueBatch in s.batches && now < s.batches[pol.uniqueBatch].expiresAt
    ensures OldestBurn(s, pol, target, now).value in s.states
    ensures var b, cands, h := s.batches[pol.uniqueBatch], MayHandOut(s, pol, target, now),
            OldestBurn(s, pol, target, now).value;
            var best := OldestIn(b, cands, |cands|);
            best.Some? && cands[best.value] == Candidate(s.At(h).spec.id, s.At(h).publicIP)
  {
    hide Eligible;
    RecyclableSound(s, pol, target, now, |s.order|);
  }

  lemma ChosenBatch(q: Pool, pol: Policy, h: Handle, now: Time, r: (Pool, Result<Choice, Error>))
    requires r == Choose(q, pol, h, FromRecycling, now) && r.1.Ok?
    requires pol.uniqueBatch != "" && pol.uniqueBatch in q.batches && now < q.batches[pol.uniqueBatch].expiresAt
    ensures r.1.value.state == h && pol.uniqueBatch in r.0.batches
    ensures r.0.batches[pol.uniqueBatch]
            == q.batches[pol.uniqueBatch].(expiresAt := now + BatchTTL(q, pol)).Reserve(q.At(h).spec.id,
                q.At(h).publicIP, now)
  {
    hide SessionToHold;
    hide Hold;
    hide SessionsFull;
    hide BatchState.Reserve;
  }

  // ---------------------------------------------------------------------
  // Consecutive recycled selections.

  /** One recycled selection from `p` returned the address `ip` when `cands` could be handed
      out, and whatever happened until `q` left the batch alone. */
  ghost predicate RecycledOnce(p: Pool, q: Pool, pol: Policy, requested: string, now: Time, luck: Luck,
                               cands: seq<Candidate>, ip: Addr) {
    && p.Wf()
    && Ordered(p) && MayHandOut(p, pol, Scope(pol, requested), now) == cands
    && var r := Pick(p, pol, requested, now, luck);
       && Recycled(r) && p.At(r.1.value.state).publicIP == ip
       && pol.uniqueBatch in q.batches && pol.uniqueBatch in r.0.batches
       && q.batches[pol.uniqueBatch] == r.0.batches[pol.uniqueBatch]
  }

  /** The batch's life time is no part of the ring. */
  lemma SameRing(b: BatchState, at: Time, cands: seq<Candidate>, ring: seq<Addr>)
    requires b.Valid() && IsRing(b, cands, ring)
    ensures b.(expiresAt := at).Valid() && IsRing(b.(expiresAt := at), cands, ring)
  {
    var c := b.(expiresAt := at);
    assert forall ip :: c.Owned(ip) == b.Owned(ip);
    assert Burned(c, cands) == Burned(b, cands);
  }

  /** A recycled selection returns the head of the ring and turns it by one. */
  lemma RecycledTurns(p: Pool, q: Pool, pol: Policy, requested: string, now: Time, luck: Luck, cands: seq<Candidate>,
                      ip: Addr, ring: seq<Addr>)
    requires RecycledOnce(p, q, pol, requested, now, luck, cands, ip)
    requires pol.uniqueBatch in p.batches && p.batches[pol.uniqueBatch].Valid()
             && IsRing(p.batches[pol.uniqueBatch], cands, ring) && ring != []
    ensures ip == ring[0]
    ensures pol.uniqueBatch in q.batches && q.batches[pol.uniqueBatch].Valid()
    ensures IsRing(q.batches[pol.uniqueBatch], cands, ring[1..] + [ring[0]])
  {
    hide IsRing;
    hide MayHandOut;
    hide Pool.Wf;
    hide Ordered;
    hide SameForRecycling;
    hide FromOldest;
    hide Pick;
    var r := Pick(p, pol, requested, now, luck);
    var s := PickRecycled(p, pol, requested, now, luck);
    RecycledBatch(p, s, pol, Scope(pol, requested), now, r);
    var b := p.batches[pol.uniqueBatch];
    RecycleRotates(b, cands, ring, now);
    var best := OldestIn(b, cands, |cands|);
    SameRing(Recycle(b, cands[best.value], now), now + BatchTTL(p, pol), cands, ring[1..] + [ring[0]]);
  }

  /** Selections of one exhausted batch that are all recycled, while the same members may
      be handed out and nothing else touches the batch, return its burned addresses in
      burn order, over and over. */
  lemma {:induction false} RecycledPicksWalkTheRing(
    ps: seq<Pool>, pols: seq<Policy>, requests: seq<string>, nows: seq<Time>, lucks: seq<Luck>,
    name: string, cands: seq<Candidate>, ring: seq<Addr>, served: seq<Addr>)
    requires |ps| == |served| + 1 && |pols| == |requests| == |nows| == |lucks| == |served|
    requires name in ps[0].batches && ps[0].batches[name].Valid() && IsRing(ps[0].batches[name], cands, ring)
             && ring != []
    requires forall i :: 0 <= i < |served| ==>
               pols[i].uniqueBatch == name && RecycledOnce(ps[i], ps[i + 1], pols[i], requests[i], nows[i], lucks[i],
                   cands, served[i])
    ensures Cycles(served, ring)
    decreases |served|
  {
    hide RecycledOnce;
    hide IsRing;
    hide Cycles;
    if served == [] {
      NothingServed(ring);
    } else {
      RecycledTurns(ps[0], ps[1], pols[0], requests[0], nows[0], lucks[0], cands, served[0], ring);
      var turned := ring[1..] + [ring[0]];
      forall i | 0 <= i < |served| - 1
        ensures pols[1..][i].uniqueBatch == name
        ensures RecycledOnce(ps[1..][i], ps[1..][i + 1], pols[1..][i], requests[1..][i], nows[1..][i], lucks[1..][i],
                cands, served[1..][i])
      {
        assert RecycledOnce(ps[i + 1], ps[i + 2], pols[i + 1], requests[i + 1], nows[i + 1], lucks[i + 1], cands,
               served[i + 1]);
      }
      RecycledPicksWalkTheRing(ps[1..], pols[1..], requests[1..], nows[1..], lucks[1..], name, cands, turned,
          served[1..]);
      TurnsAll(ring, served[1..]);
      assert served == [ring[0]] + served[1..];
    }
  }

  lemma NothingServed(ring: seq<Addr>)
    requires ring != []
    ensures Cycles([], ring)
  {}

  /** With n burned addresses to hand out, any n consecutive recycled selections return
      each of them once, oldest burn first. */
  lemma RecycledPicksAreFair(
    ps: seq<Pool>, pols: seq<Policy>, requests: seq<string>, nows: seq<Time>, lucks: seq<Luck>,
    name: string, cands: seq<Candidate>, served: seq<Addr>)
    requires |ps| == |served| + 1 && |pols| == |requests| == |nows| == |lucks| == |served|
    requires name in ps[0].batches && ps[0].batches[name].Valid() && Burned(ps[0].batches[name], cands) != {}
    requires forall i :: 0 <= i < |served| ==>
               pols[i].uniqueBatch == name && RecycledOnce(ps[i], ps[i + 1], pols[i], requests[i], nows[i], lucks[i],
                   cands, served[i])
    ensures var ring := RingOf(ps[0].batches[name], Burned(ps[0].batches[name], cands));
            && |ring| == |Burned(ps[0].batches[name], cands)|
            && Cycles(served, ring)
  {
    var b := ps[0].batches[name];
    var ring := RingOf(b, Burned(b, cands));
    RingIsStrict(b, Burned(b, cands));
    assert IsRing(b, cands, ring);
    hide RecycledOnce;
    hide IsRing;
    hide Cycles;
    RecycledPicksWalkTheRing(ps, pols, requests, nows, lucks, name, cands, ring, served);
  }

  /** So none of them waits longer than n selections. */
  lemma RecyclingStarvesNobody(
    ps: seq<Pool>, pols: seq<Policy>, requests: seq<string>, nows: seq<Time>, lucks: seq<Luck>,
    name: string, cands: seq<Candidate>, served: seq<Addr>, start: nat, ip: Addr)
    requires |ps| == |served| + 1 && |pols| == |requests| == |nows| == |lucks| == |served|
    requires name in ps[0].batches && ps[0].batches[name].Valid() && ip in Burned(ps[0].batches[name], cands)
    requires forall i :: 0 <= i < |served| ==>
               pols[i].uniqueBatch == name && RecycledOnce(ps[i], ps[i + 1], pols[i], requests[i], nows[i], lucks[i],
                   cands, served[i])
    requires start + |Burned(ps[0].batches[name], cands)| <= |served|
    ensures ip in served[start..start + |Burned(ps[0].batches[name], cands)|]
  {
    hide RecycledOnce;
    hide Cycles;
    RecycledPicksAreFair(ps, pols, requests, nows, lucks, name, cands, served);
    var addrs := Burned(ps[0].batches[name], cands);
    var ring := RingOf(ps[0].batches[name], addrs);
    hide RingOf;
    WindowMeets(ring, served, start, ip);
  }
}
