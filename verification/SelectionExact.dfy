/** Selection against the plain scan: what is returned is eligible in the pool as it
    stood before the call, and nothing is returned exactly when the scan is empty. */
module SelectionExact {
  import opened Common
  import opened PolicyTypes
  import opened Batches
  import opened Preferred
  import opened PoolState
  import opened Selection

  /** The eligible members of a plain scan. */
  ghost predicate Qualifies(p: Pool, h: Handle, pol: Policy, target: string, now: Time) {
    p.IsMember(h) && Eligible(p, p.At(h), pol, target, now)
  }

  /** Expiry and the other side effects of selection are invisible to the scan. */
  lemma MildKeepsExclusion(p: Pool, q: Pool, h: Handle, batch: string, now: Time)
    requires Mild(p, q, now) && h in p.states
    ensures BatchExcludes(p, p.At(h), batch, now) == BatchExcludes(q, q.At(h), batch, now)
  {
    hide BatchState.Valid;
    hide RingsValid;
    assert SameButTunnel(p.states[h], q.states[h], now);
    if batch in q.batches {
      assert SameButBurns(p.batches[batch], q.batches[batch]);
    }
  }

  lemma MildKeepsEligible(p: Pool, q: Pool, h: Handle, pol: Policy, target: string, now: Time)
    requires Mild(p, q, now) && h in p.states
    ensures Eligible(p, p.At(h), pol, target, now) == Eligible(q, q.At(h), pol, target, now)
  {
    hide BatchExcludes;
    hide MildBatches;
    hide RingsValid;
    hide ContainsFold;
    MildKeepsExclusion(p, q, h, pol.uniqueBatch, now);
    assert SameButTunnel(p.states[h], q.states[h], now);
    assert q.At(h).CoolingDown(target, now) == p.At(h).CoolingDown(target, now);
    MildKeepsCooling(p, q, target, p.At(h).publicIP, now);
  }

  lemma MildKeepsCooling(p: Pool, q: Pool, target: string, ip: Addr, now: Time)
    requires Mild(p, q, now)
    ensures IPCoolingDown(p, target, ip, now) == IPCoolingDown(q, target, ip, now)
  {
    hide MildBatches;
    hide MildStates;
    hide RingsValid;
    assert (target, ip) in p.ipCooldowns && now < p.ipCooldowns[(target, ip)] ==> (target, ip) in q.ipCooldowns;
  }

  lemma MildKeepsMembers(p: Pool, q: Pool, h: Handle, now: Time)
    requires Mild(p, q, now)
    ensures p.IsMember(h) == q.IsMember(h)
  {
    hide MildBatches;
    hide RingsValid;
    if h in p.states {
      assert SameButTunnel(p.states[h], q.states[h], now);
    }
  }

  lemma MildKeepsQualifies(p: Pool, q: Pool, h: Handle, pol: Policy, target: string, now: Time)
    requires Mild(p, q, now)
    ensures Qualifies(p, h, pol, target, now) == Qualifies(q, h, pol, target, now)
  {
    hide Mild;
    hide Eligible;
    MildKeepsMembers(p, q, h, now);
    if p.IsMember(h) {
      MildKeepsEligible(p, q, h, pol, target, now);
    }
  }

  lemma MildKeepsRecycle(p: Pool, q: Pool, h: Handle, pol: Policy, target: string, now: Time)
    requires Mild(p, q, now)
    ensures MayRecycle(p, h, pol, target, now) == MayRecycle(q, h, pol, target, now)
  {
    hide MildStates;
    hide MildCooldowns;
    hide RingsValid;
    hide Eligible;
    hide BatchState.Valid;
    MildKeepsMembers(p, q, h, now);
    if p.IsMember(h) {
      MildKeepsEligible(p, q, h, pol.(uniqueBatch := ""), target, now);
      MildKeepsIP(p, q, h, now);
      if pol.uniqueBatch in q.batches {
        assert SameButBurns(p.batches[pol.uniqueBatch], q.batches[pol.uniqueBatch]);
      }
    }
  }

  lemma MildKeepsIP(p: Pool, q: Pool, h: Handle, now: Time)
    requires Mild(p, q, now) && h in p.states
    ensures q.At(h).publicIP == p.At(h).publicIP && q.At(h).spec == p.At(h).spec && q.At(h).Load() == p.At(h).Load()
  {
    hide MildBatches;
    hide RingsValid;
    assert SameButTunnel(p.states[h], q.states[h], now);
  }

  /** Whatever the path, a returned slot passes the plain scan of the pool as it stood
      before the call; recycling waives only the batch's own exclusion. */
  lemma SelectionIsSound(p: Pool, pol: Policy, requested: string, now: Time, luck: Luck)
    requires p.Wf() && Pick(p, pol, requested, now, luck).1.Ok?
    ensures var c := Pick(p, pol, requested, now, luck).1.value;
            && c.reservation.state == c.state
            && (if c.origin.FromRecycling? then MayRecycle(p, c.state, pol, Scope(pol, requested), now)
                else Qualifies(p, c.state, pol, Scope(pol, requested), now))
  {
    hide Mild;
    hide Eligible;
    hide PickSticky;
    hide MayRecycle;
    var target := Scope(pol, requested);
    var chosenIn, q := PickShape(p, pol, requested, now, luck);
    var c := Pick(p, pol, requested, now, luck).1.value;
    if c.origin.FromRecycling? {
      MildKeepsRecycle(p, chosenIn, c.state, pol, target, now);
    } else {
      MildKeepsQualifies(p, chosenIn, c.state, pol, target, now);
    }
  }

  // ---------------------------------------------------------------------
  // Nothing is returned exactly when the scan is empty.

  ghost predicate NobodyQualifies(p: Pool, pol: Policy, target: string, now: Time) {
    && (forall h :: !Qualifies(p, h, pol, target, now))
    && (forall h :: !MayRecycle(p, h, pol, target, now))
  }

  lemma MildKeepsNobody(p: Pool, q: Pool, pol: Policy, target: string, now: Time)
    requires Mild(p, q, now)
    ensures NobodyQualifies(p, pol, target, now) == NobodyQualifies(q, pol, target, now)
  {
    hide Mild;
    hide Qualifies;
    hide MayRecycle;
    forall h ensures Qualifies(p, h, pol, target, now) == Qualifies(q, h, pol, target, now)
      ensures MayRecycle(p, h, pol, target, now) == MayRecycle(q, h, pol, target, now)
    {
      MildKeepsQualifies(p, q, h, pol, target, now);
      MildKeepsRecycle(p, q, h, pol, target, now);
    }
  }

  lemma ScanIsExact(p: Pool, pol: Policy, target: string, now: Time)
    requires p.Wf()
    ensures Candidates(p, pol, target, now, |p.order|) == [] <==> forall h :: !Qualifies(p, h, pol, target, now)
  {
    hide Eligible;
    WfIsOrdered(p);
    var cands := Candidates(p, pol, target, now, |p.order|);
    CandidatesSound(p, pol, target, now, |p.order|);
    if cands != [] {
      assert cands[0] in cands;
      assert Qualifies(p, cands[0], pol, target, now);
    } else {
      forall h ensures !Qualifies(p, h, pol, target, now) {
        if Qualifies(p, h, pol, target, now) {
          var id := p.states[h].spec.id;
          assert id in p.order;
          var i :| 0 <= i < |p.order| && p.order[i] == id;
          CandidatesComplete(p, pol, target, now, |p.order|, i);
        }
      }
    }
  }

  lemma RefusalIsNotEmptiness(p: Pool, pol: Policy, h: Handle, origin: Origin, now: Time)
    ensures Choose(p, pol, h, origin, now).1 != Err(NoCandidate)
    ensures Choose(p, pol, h, origin, now).1.Ok? ==>
              Choose(p, pol, h, origin, now).1.value.state == h
                  && Choose(p, pol, h, origin, now).1.value.origin == origin
  {}

  lemma ColdIsNotEmptiness(p: Pool, pol: Policy, h: Handle, now: Time, luck: Luck)
    ensures PickCold(p, pol, h, now, luck).1 != Err(NoCandidate)
    ensures PickCold(p, pol, h, now, luck).1.Ok? ==>
              PickCold(p, pol, h, now, luck).1.value.state == h
                  && PickCold(p, pol, h, now, luck).1.value.origin == FromCold
  {
    hide Choose;
    var q := BudgetAvailable(p, now).0;
    RefusalIsNotEmptiness(ReserveCapacity(q, luck.victim).0, pol, h, FromCold, now);
  }

  lemma AnyExact(p: Pool, pol: Policy, target: string, now: Time, luck: Luck)
    requires p.Wf()
    ensures PickAny(p, pol, target, now, luck).1 == Err(NoCandidate) <==> NobodyQualifies(p, pol, target, now)
  {
    hide Qualifies;
    hide MayRecycle;
    hide Choose;
    hide PickCold;
    WfIsOrdered(p);
    ScanIsExact(p, pol, target, now);
    hide Pool.Wf;
    var cands := Candidates(p, pol, target, now, |p.order|);
    var ready := ReadyOnes(p, cands);
    if cands == [] {
      if OldestBurn(p, pol, target, now).Some? {
        OldestBurnSound(p, pol, target, now);
        var h := OldestBurn(p, pol, target, now).value;
        assert pol.uniqueBatch in p.batches;
        RefusalIsNotEmptiness(StampBatch(p, pol.uniqueBatch, p.At(h).publicIP, now), pol, h, FromRecycling, now);
        assert MayRecycle(p, h, pol, target, now);
      } else {
        OldestBurnComplete(p, pol, target, now);
      }
    } else if ready != [] {
      RefusalIsNotEmptiness(p, pol, ready[luck.roll % |ready|], FromReady, now);
    } else {
      ColdIsNotEmptiness(p, pol, cands[luck.roll % |cands|], now, luck);
    }
  }

  /** What was chosen is no fallback, or nobody in `p` could have been chosen before it. */
  ghost predicate Fallback(p: Pool, r: Result<Choice, Error>, pol: Policy, target: string, now: Time) {
    r.Ok? ==>
      && (r.value.origin.FromRecycling? ==> forall h :: !Qualifies(p, h, pol, target, now))
      && (r.value.origin.FromCold? ==> forall h :: Qualifies(p, h, pol, target, now) ==> !p.At(h).Ready())
  }

  lemma AnyFallsBack(p: Pool, pol: Policy, target: string, now: Time, luck: Luck)
    requires p.Wf()
    ensures Fallback(p, PickAny(p, pol, target, now, luck).1, pol, target, now)
  {
    hide Eligible;
    hide MayRecycle;
    hide Choose;
    hide PickCold;
    WfIsOrdered(p);
    ScanIsExact(p, pol, target, now);
    hide Pool.Wf;
    var cands := Candidates(p, pol, target, now, |p.order|);
    var ready := ReadyOnes(p, cands);
    ReadySound(p, cands);
    if cands == [] {
    } else if ready != [] {
      RefusalIsNotEmptiness(p, pol, ready[luck.roll % |ready|], FromReady, now);
    } else {
      ColdIsNotEmptiness(p, pol, cands[luck.roll % |cands|], now, luck);
      forall h | Qualifies(p, h, pol, target, now) ensures !p.At(h).Ready() {
        QualifiedIsListed(p, pol, target, now, h);
        assert p.At(h).Ready() ==> h in ready;
      }
    }
  }

  /** Mild changes that leave all tunnels alone. */
  ghost predicate Quiet(p: Pool, q: Pool, now: Time) {
    Mild(p, q, now) && forall h :: h in p.states && h in q.states ==> q.states[h].open == p.states[h].open
  }

  lemma QuietKeepsReady(p: Pool, q: Pool, h: Handle, now: Time)
    requires Quiet(p, q, now) && h in p.states
    ensures q.At(h).Ready() == p.At(h).Ready()
  {
    hide MildBatches;
    hide MildCooldowns;
    hide RingsValid;
    assert SameButTunnel(p.states[h], q.states[h], now);
  }

  lemma QuietFallsBack(p: Pool, q: Pool, r: Result<Choice, Error>, pol: Policy, target: string, now: Time)
    requires Quiet(p, q, now) && Fallback(q, r, pol, target, now)
    ensures Fallback(p, r, pol, target, now)
  {
    forall h ensures Qualifies(p, h, pol, target, now) == Qualifies(q, h, pol, target, now) {
      MildKeepsQualifies(p, q, h, pol, target, now);
    }
    forall h | Qualifies(p, h, pol, target, now) ensures q.At(h).Ready() == p.At(h).Ready() {
      QuietKeepsReady(p, q, h, now);
    }
    hide Mild;
    hide Eligible;
    hide Pool.At;
    hide SlotState.Ready;
  }

  lemma QualifiedIsListed(p: Pool, pol: Policy, target: string, now: Time, h: Handle)
    requires Ordered(p) && Qualifies(p, h, pol, target, now)
    ensures h in Candidates(p, pol, target, now, |p.order|)
  {
    hide Eligible;
    var id := p.states[h].spec.id;
    assert id in p.order;
    var i :| 0 <= i < |p.order| && p.order[i] == id;
    CandidatesComplete(p, pol, target, now, |p.order|, i);
  }

  lemma PreferredExact(p: Pool, pol: Policy, target: string, now: Time, luck: Luck)
    requires p.Wf()
    ensures PickPreferred(p, pol, target, now, luck).1 == Err(NoCandidate) <==> NobodyQualifies(p, pol, target, now)
  {
    hide Eligible;
    hide PickAny;
    hide PreferredChoice;
    hide MayRecycle;
    hide Choose;
    hide Mild;
    WfIsOrdered(p);
    if target == "" || target !in p.preferred {
      AnyExact(p, pol, target, now, luck);
    } else {
      match PreferredChoice(p, pol, target, now)
      case None =>
        var kept := KeptRing(p, pol, target, now);
        if RingsValid(p) { KeptRingValid(p, pol, target, now); }
        SetRingIsMild(p, target, kept, now);
        var q := SetRing(p, target, kept);
        MildKeepsWf(p, q, now);
        AnyExact(q, pol, target, now, luck);
        MildKeepsNobody(p, q, pol, target, now);
      case Some((e, ring)) =>
        PreferredSound(p, pol, target, now);
        RefusalIsNotEmptiness(SetRing(p, target, ring), pol, p.slots[e.slotID], FromPreferred, now);
        assert Qualifies(p, p.slots[e.slotID], pol, target, now);
    }
  }

  lemma StickyExact(p: Pool, pol: Policy, target: string, now: Time, luck: Luck)
    requires p.Wf()
    ensures PickSticky(p, pol, target, now, luck).1 == Err(NoCandidate) <==> NobodyQualifies(p, pol, target, now)
  {
    hide Eligible;
    hide PickPreferred;
    hide MayRecycle;
    hide Choose;
    hide Mild;
    match StickySlot(p, pol, target, now)
    case Some(h) =>
      RefusalIsNotEmptiness(ExtendSession(p, pol, now), pol, h, FromSession, now);
      assert Qualifies(p, h, pol, target, now);
    case None =>
      var q := ForgetSession(p, pol, now);
      SessionsAreMild(p, q.sessions, now);
      MildKeepsWf(p, q, now);
      PreferredExact(q, pol, target, now, luck);
      MildKeepsNobody(p, q, pol, target, now);
  }

  lemma PreferredFallsBack(p: Pool, pol: Policy, target: string, now: Time, luck: Luck)
    requires p.Wf()
    ensures Fallback(p, PickPreferred(p, pol, target, now, luck).1, pol, target, now)
  {
    hide Qualifies;
    hide PickAny;
    hide PreferredChoice;
    hide Choose;
    hide Mild;
    hide Fallback;
    if target == "" || target !in p.preferred {
      AnyFallsBack(p, pol, target, now, luck);
    } else {
      match PreferredChoice(p, pol, target, now)
      case None =>
        var kept := KeptRing(p, pol, target, now);
        if RingsValid(p) { KeptRingValid(p, pol, target, now); }
        SetRingIsMild(p, target, kept, now);
        var q := SetRing(p, target, kept);
        MildKeepsWf(p, q, now);
        AnyFallsBack(q, pol, target, now, luck);
        QuietFallsBack(p, q, PickAny(q, pol, target, now, luck).1, pol, target, now);
      case Some((e, ring)) =>
        var r := PickPreferred(p, pol, target, now, luck).1;
        if e.slotID in p.slots {
          RefusalIsNotEmptiness(SetRing(p, target, ring), pol, p.slots[e.slotID], FromPreferred, now);
        }
        NoFallback(p, r, pol, target, now);
    }
  }

  lemma NoFallback(p: Pool, r: Result<Choice, Error>, pol: Policy, target: string, now: Time)
    requires r.Ok? ==> !r.value.origin.FromRecycling? && !r.value.origin.FromCold?
    ensures Fallback(p, r, pol, target, now)
  {}

  lemma StickyFallsBack(p: Pool, pol: Policy, target: string, now: Time, luck: Luck)
    requires p.Wf()
    ensures Fallback(p, PickSticky(p, pol, target, now, luck).1, pol, target, now)
  {
    hide Eligible;
    hide PickPreferred;
    hide Choose;
    hide Mild;
    hide Fallback;
    match StickySlot(p, pol, target, now)
    case Some(h) =>
      RefusalIsNotEmptiness(ExtendSession(p, pol, now), pol, h, FromSession, now);
      NoFallback(p, PickSticky(p, pol, target, now, luck).1, pol, target, now);
    case None =>
      var q := ForgetSession(p, pol, now);
      SessionsAreMild(p, q.sessions, now);
      MildKeepsWf(p, q, now);
      PreferredFallsBack(q, pol, target, now, luck);
      QuietFallsBack(p, q, PickPreferred(q, pol, target, now, luck).1, pol, target, now);
  }

  /** Clearing what is stale is mild and leaves the tunnels alone. */
  lemma ClearingIsQuiet(p: Pool, lapsed: set<(string, Addr)>, now: Time)
    requires p.Wf()
    ensures var q := DropLapsed(Expire(p, now), lapsed, now); q.Wf() && Quiet(p, q, now)
  {
    var e := Expire(p, now);
    var q := DropLapsed(e, lapsed, now);
    ExpireIsMild(p, now);
    DropLapsedIsMild(e, lapsed, now);
    MildTransitive(p, e, q, now);
    MildKeepsWf(p, q, now);
    hide Mild;
    hide Pool.Wf;
    hide Prune;
  }

  /** Recycling is the last resort, and a tunnel is opened only when no eligible slot of the
      pool as it stood before the call can serve without one. */
  lemma LaterPathsAreFallbacks(p: Pool, pol: Policy, requested: string, now: Time, luck: Luck)
    requires p.Wf() && Pick(p, pol, requested, now, luck).1.Ok?
    ensures var c, target := Pick(p, pol, requested, now, luck).1.value, Scope(pol, requested);
            && (c.origin.FromRecycling? ==> forall h :: !Qualifies(p, h, pol, target, now))
            && (c.origin.FromCold? ==> forall h :: Qualifies(p, h, pol, target, now) ==> !p.At(h).Ready())
  {
    hide Qualifies;
    hide PickSticky;
    hide Mild;
    hide Expire;
    hide DropLapsed;
    hide Pool.At;
    var q := DropLapsed(Expire(p, now), luck.lapsed, now);
    var target := Scope(pol, requested);
    ClearingIsQuiet(p, luck.lapsed, now);
    StickyFallsBack(q, pol, target, now, luck);
    QuietFallsBack(p, q, PickSticky(q, pol, target, now, luck).1, pol, target, now);
    hide Pool.Wf;
    assert Pick(p, pol, requested, now, luck) == PickSticky(q, pol, target, now, luck);
  }

  /** The server's own limits let the request through. */
  predicate WithinLimits(p: Pool, pol: Policy) {
    && pol.ttl <= p.opts.maxSessionTTL
    && pol.batchTTL <= p.opts.maxBatchTTL
    && (p.opts.maxConcurrentConns > 0 ==> p.leased + p.pendingLeases < p.opts.maxConcurrentConns)
  }

  /** Past the limits, selection reports that there is no candidate exactly when the
      plain scan of the pool as it stood finds neither an eligible slot nor one that
      may be recycled. */
  lemma NoCandidateIsExact(p: Pool, pol: Policy, requested: string, now: Time, luck: Luck)
    requires p.Wf()
    ensures Pick(p, pol, requested, now, luck).1 == Err(NoCandidate)
            <==> WithinLimits(p, pol) && NobodyQualifies(p, pol, Scope(pol, requested), now)
  {
    hide NobodyQualifies;
    hide PickSticky;
    hide MildStates;
    hide MildBatches;
    hide MildCooldowns;
    hide RingsValid;
    hide Expire;
    hide DropLapsed;
    var r := Expire(p, now);
    var t := DropLapsed(r, luck.lapsed, now);
    ExpireIsMild(p, now);
    DropLapsedIsMild(r, luck.lapsed, now);
    MildTransitive(p, r, t, now);
    MildKeepsWf(p, t, now);
    StickyExact(t, pol, Scope(pol, requested), now, luck);
    MildKeepsNobody(p, t, pol, Scope(pol, requested), now);
  }
}
