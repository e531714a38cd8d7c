/** What selection returns: every path refines one plain scan over the members, and
    nothing but the chosen reservation happens on the way. */
module Selection {
  import opened Common
  import opened PolicyTypes
  import opened Batches
  import opened Preferred
  import opened TunnelBudget
  import opened PoolState

  // ---------------------------------------------------------------------
  // The housekeeping a selection does on its way.

  /** Only cooldowns and an idle tunnel may go. */
  ghost predicate SameButTunnel(s: SlotState, t: SlotState, now: Time) {
    && t == s.(cooldowns := t.cooldowns, open := t.open)
    && (t.open ==> s.open)
    && (s.open && !t.open ==> s.Load() == 0)
    && (forall target :: t.CoolingDown(target, now) == s.CoolingDown(target, now))
  }

  /** The same consumed slots and addresses; burns may have moved to the back. */
  ghost predicate SameButBurns(b: BatchState, c: BatchState) {
    && c == b.(usedIPs := c.usedIPs, burnSeq := c.burnSeq, nextBurn := c.nextBurn)
    && c.usedIPs.Keys == b.usedIPs.Keys
    && (b.Valid() ==> c.Valid())
  }

  ghost predicate RingsValid(p: Pool) {
    forall t :: t in p.preferred ==> Preferred.Valid(p.preferred[t], p.opts.preferredMax)
  }

  ghost predicate SameCore(p: Pool, q: Pool) {
    && q.opts == p.opts && q.slots == p.slots && q.order == p.order && q.nextHandle == p.nextHandle
    && q.pendingSessions == p.pendingSessions && q.nextGen == p.nextGen
    && q.entries == p.entries && q.pendingOpens == p.pendingOpens && q.probes == p.probes
    && q.leased == p.leased && q.pendingLeases == p.pendingLeases
  }

  ghost predicate MildStates(p: Pool, q: Pool, now: Time) {
    && q.states.Keys == p.states.Keys
    && forall h :: h in p.states ==> SameButTunnel(p.states[h], q.states[h], now)
  }

  ghost predicate MildBatches(p: Pool, q: Pool, now: Time) {
    && q.batches.Keys <= p.batches.Keys
    && (forall n :: n in p.batches && !(now > p.batches[n].expiresAt) ==> n in q.batches)
    && forall n :: n in q.batches ==> SameButBurns(p.batches[n], q.batches[n])
  }

  /** Cooldowns that have not lapsed at `now` stay as they are. */
  ghost predicate MildCooldowns(p: Pool, q: Pool, now: Time) {
    && (forall k :: k in q.ipCooldowns ==> k in p.ipCooldowns && q.ipCooldowns[k] == p.ipCooldowns[k])
    && (forall k :: k in p.ipCooldowns && now < p.ipCooldowns[k] ==> k in q.ipCooldowns)
  }

  /** The changes a selection or an expiry makes besides reserving. */
  ghost predicate Mild(p: Pool, q: Pool, now: Time) {
    && SameCore(p, q) && MildStates(p, q, now) && MildBatches(p, q, now) && MildCooldowns(p, q, now)
    && q.sessions.Keys <= p.sessions.Keys
    && (q.opens == p.opens || q.opens == PruneOpens(p.opens, now, p.opts.newTunnelWindow))
    && (RingsValid(p) ==> RingsValid(q))
  }

  lemma MildKeepsWf(p: Pool, q: Pool, now: Time)
    requires p.Wf() && Mild(p, q, now)
    ensures q.Wf()
  {
    forall n, m | n in q.batches && m in q.batches && n != m ensures q.batches[n].gen != q.batches[m].gen {
      assert SameButBurns(p.batches[n], q.batches[n]) && SameButBurns(p.batches[m], q.batches[m]);
    }
  }

  lemma {:induction false} PruneTwice(opens: seq<Time>, now: Time, window: int)
    ensures PruneOpens(PruneOpens(opens, now, window), now, window) == PruneOpens(opens, now, window)
  {
    if opens != [] && opens[0] <= now - window { PruneTwice(opens[1..], now, window); }
  }

  lemma StatesTransitive(p: Pool, q: Pool, r: Pool, now: Time)
    requires MildStates(p, q, now) && MildStates(q, r, now)
    ensures MildStates(p, r, now)
  {
    forall h | h in p.states ensures SameButTunnel(p.states[h], r.states[h], now) {
      assert SameButTunnel(p.states[h], q.states[h], now) && SameButTunnel(q.states[h], r.states[h], now);
    }
  }

  lemma BurnsTransitive(b: BatchState, c: BatchState, d: BatchState)
    requires SameButBurns(b, c) && SameButBurns(c, d)
    ensures SameButBurns(b, d)
  {}

  lemma BatchesTransitive(p: Pool, q: Pool, r: Pool, now: Time)
    requires MildBatches(p, q, now) && MildBatches(q, r, now)
    ensures MildBatches(p, r, now)
  {
    forall n | n in r.batches ensures SameButBurns(p.batches[n], r.batches[n]) {
      BurnsTransitive(p.batches[n], q.batches[n], r.batches[n]);
    }
  }

  lemma CooldownsTransitive(p: Pool, q: Pool, r: Pool, now: Time)
    requires MildCooldowns(p, q, now) && MildCooldowns(q, r, now)
    ensures MildCooldowns(p, r, now)
  {}

  lemma MildTransitive(p: Pool, q: Pool, r: Pool, now: Time)
    requires Mild(p, q, now) && Mild(q, r, now)
    ensures Mild(p, r, now)
  {
    hide MildStates;
    hide MildBatches;
    hide MildCooldowns;
    hide RingsValid;
    PruneTwice(p.opens, now, p.opts.newTunnelWindow);
    StatesTransitive(p, q, r, now);
    BatchesTransitive(p, q, r, now);
    CooldownsTransitive(p, q, r, now);
  }

  lemma StatesSame(p: Pool, q: Pool, now: Time)
    requires q.states == p.states
    ensures MildStates(p, q, now)
  {}

  lemma BatchesSame(p: Pool, q: Pool, now: Time)
    requires q.batches == p.batches
    ensures MildBatches(p, q, now)
  {
    forall n | n in q.batches ensures SameButBurns(p.batches[n], q.batches[n]) {}
  }

  lemma CooldownsSame(p: Pool, q: Pool, now: Time)
    requires q.ipCooldowns == p.ipCooldowns
    ensures MildCooldowns(p, q, now)
  {}

  lemma RingsSame(p: Pool, q: Pool)
    requires q.preferred == p.preferred && q.opts == p.opts
    ensures RingsValid(p) ==> RingsValid(q)
  {}

  lemma ExpireIsMild(p: Pool, now: Time)
    ensures Mild(p, Expire(p, now), now)
  {
    var q := Expire(p, now);
    forall t | t in q.preferred && RingsValid(p) ensures Preferred.Valid(q.preferred[t], q.opts.preferredMax) {
      FilterKeepsValid(p.preferred[t], (e: PreferredExit) => now < e.expiresAt, p.opts.preferredMax);
    }
    assert q.states.Keys == p.states.Keys;
  }

  lemma DropLapsedIsMild(p: Pool, lapsed: set<(string, Addr)>, now: Time)
    ensures Mild(p, DropLapsed(p, lapsed, now), now)
  {
    hide MildStates;
    hide MildBatches;
    hide RingsValid;
    var q := DropLapsed(p, lapsed, now);
    StatesSame(p, q, now);
    BatchesSame(p, q, now);
    RingsSame(p, q);
  }

  lemma SessionsAreMild(p: Pool, sessions: map<string, Session>, now: Time)
    requires sessions.Keys <= p.sessions.Keys
    ensures Mild(p, p.(sessions := sessions), now)
  {
    hide MildStates;
    hide MildBatches;
    hide MildCooldowns;
    hide RingsValid;
    var q := p.(sessions := sessions);
    StatesSame(p, q, now);
    BatchesSame(p, q, now);
    CooldownsSame(p, q, now);
    RingsSame(p, q);
  }

  lemma RingsSet(p: Pool, target: string, ring: seq<PreferredExit>)
    requires RingsValid(p) && Preferred.Valid(ring, p.opts.preferredMax)
    ensures RingsValid(SetRing(p, target, ring))
  {
    hide Preferred.Valid;
  }

  lemma SetRingIsMild(p: Pool, target: string, ring: seq<PreferredExit>, now: Time)
    requires RingsValid(p) ==> Preferred.Valid(ring, p.opts.preferredMax)
    ensures Mild(p, SetRing(p, target, ring), now)
  {
    hide MildStates;
    hide MildBatches;
    hide MildCooldowns;
    hide RingsValid;
    hide Preferred.Valid;
    var q := SetRing(p, target, ring);
    StatesSame(p, q, now);
    BatchesSame(p, q, now);
    CooldownsSame(p, q, now);
    if RingsValid(p) { RingsSet(p, target, ring); }
  }

  lemma StampKeepsSlots(b: BatchState, ip: Addr, now: Time)
    requires ip in b.usedIPs
    ensures SameButBurns(b, b.Stamp(ip, now))
  {
    if b.Valid() { StampKeepsValid(b, ip, now); }
    assert b.Stamp(ip, now).usedIPs.Keys == b.usedIPs.Keys;
  }

  lemma StampIsMild(p: Pool, name: string, ip: Addr, now: Time)
    requires name in p.batches && ip in p.batches[name].usedIPs
    ensures Mild(p, StampBatch(p, name, ip, now), now)
  {
    var q := StampBatch(p, name, ip, now);
    StatesSame(p, q, now);
    CooldownsSame(p, q, now);
    RingsSame(p, q);
    forall n | n in q.batches ensures SameButBurns(p.batches[n], q.batches[n]) {
      if n == name { StampKeepsSlots(p.batches[n], ip, now); }
    }
  }

  lemma BudgetIsMild(p: Pool, now: Time)
    ensures Mild(p, BudgetAvailable(p, now).0, now)
  {
    hide MildStates;
    hide MildBatches;
    hide MildCooldowns;
    hide RingsValid;
    var q := BudgetAvailable(p, now).0;
    StatesSame(p, q, now);
    BatchesSame(p, q, now);
    CooldownsSame(p, q, now);
    RingsSame(p, q);
  }

  lemma CapacityStates(p: Pool, victim: Handle, now: Time)
    ensures MildStates(p, ReserveCapacity(p, victim).0, now)
  {
    var q := ReserveCapacity(p, victim).0;
    if q != p {
      assert q.states.Keys == p.states.Keys;
    }
  }

  lemma CapacityIsMild(p: Pool, victim: Handle, now: Time)
    ensures Mild(p, ReserveCapacity(p, victim).0, now)
  {
    hide MildStates;
    hide MildBatches;
    hide MildCooldowns;
    hide RingsValid;
    var q := ReserveCapacity(p, victim).0;
    CapacityStates(p, victim, now);
    BatchesSame(p, q, now);
    CooldownsSame(p, q, now);
    RingsSame(p, q);
  }

  lemma HoldThenUnhold(m: map<string, nat>, name: string)
    requires "" !in m && forall n :: n in m ==> m[n] > 0
    ensures Unhold(Hold(m, name), name) == m
  {}

  lemma RefusedBatches(p: Pool, pol: Policy, now: Time)
    requires Refusal(p, pol, now).Some?
    ensures MildBatches(p, Refused(p, pol, now), now)
  {
    hide MildBatches;
    FewerBatches(p, Refused(p, pol, now), now);
  }

  lemma RefusedIsMild(p: Pool, pol: Policy, now: Time)
    requires "" !in p.pendingSessions && forall n :: n in p.pendingSessions ==> p.pendingSessions[n] > 0
    requires Refusal(p, pol, now).Some?
    ensures Mild(p, Refused(p, pol, now), now)
  {
    RefusedBatches(p, pol, now);
    hide Refusal;
    hide SessionsFull;
    hide SessionToHold;
    hide Hold;
    hide Unhold;
    hide MildStates;
    hide MildBatches;
    hide MildCooldowns;
    hide RingsValid;
    var q := Refused(p, pol, now);
    HoldThenUnhold(p.pendingSessions, SessionToHold(p, pol));
    StatesSame(p, q, now);
    CooldownsSame(p, q, now);
    RingsSame(p, q);
  }

  lemma FewerBatches(p: Pool, q: Pool, now: Time)
    requires q.batches.Keys <= p.batches.Keys && forall n :: n in q.batches ==> q.batches[n] == p.batches[n]
    requires forall n :: n in p.batches && !(now > p.batches[n].expiresAt) ==> n in q.batches
    ensures MildBatches(p, q, now)
  {
    forall n | n in q.batches ensures SameButBurns(p.batches[n], q.batches[n]) {}
  }

  // ---------------------------------------------------------------------
  // The shape of a selection.

  /** A slot was chosen by the rules of its path, in the state `p` of that moment. */
  ghost predicate ChosenFrom(p: Pool, pol: Policy, target: string, now: Time, h: Handle, origin: Origin) {
    && p.IsMember(h)
    && (!origin.FromRecycling? ==> Eligible(p, p.At(h), pol, target, now))
    && (origin.FromRecycling? ==> MayRecycle(p, h, pol, target, now))
  }

  /** A result is either a refusal that changed nothing that matters, or a reservation
      made in `q`, after a choice made in `chosenIn`. */
  ghost predicate Shaped(p: Pool, chosenIn: Pool, q: Pool, pol: Policy, target: string, now: Time,
                         r: (Pool, Result<Choice, Error>)) {
    && Mild(p, chosenIn, now) && Mild(chosenIn, q, now) && Mild(p, q, now)
    && match r.1
       case Err(_) => Mild(p, r.0, now)
       case Ok(c) =>
         && ChosenFrom(chosenIn, pol, target, now, c.state, c.origin)
         && Refusal(q, pol, now).None?
         && r.0 == Reserved(q, pol, c.state, now)
         && c.reservation == Ticket(q, pol, c.state, now)
  }

  lemma ChooseShape(p: Pool, chosenIn: Pool, q: Pool, pol: Policy, target: string, h: Handle, origin: Origin, now: Time)
    requires q.Wf() && Mild(p, chosenIn, now) && Mild(chosenIn, q, now)
    requires ChosenFrom(chosenIn, pol, target, now, h, origin)
    ensures Shaped(p, chosenIn, q, pol, target, now, Choose(q, pol, h, origin, now))
  {
    hide Mild;
    hide ChosenFrom;
    MildTransitive(p, chosenIn, q, now);
    if Refusal(q, pol, now).Some? {
      RefusedIsMild(q, pol, now);
      MildTransitive(p, q, Refused(q, pol, now), now);
    }
  }

  /** The order lists exactly the members. */
  ghost predicate Ordered(p: Pool) {
    && (forall id :: id in p.order <==> id in p.slots)
    && forall id :: id in p.slots ==> p.slots[id] in p.states && p.states[p.slots[id]].spec.id == id
  }

  lemma {:induction false} CandidatesSound(p: Pool, pol: Policy, target: string, now: Time, n: nat)
    requires Ordered(p) && n <= |p.order|
    ensures forall h :: h in Candidates(p, pol, target, now, n) ==>
            p.IsMember(h) && Eligible(p, p.At(h), pol, target, now)
  {
    hide Eligible;
    if n > 0 {
      CandidatesSound(p, pol, target, now, n - 1);
      assert p.order[n - 1] in p.order;
      assert p.IsMember(p.slots[p.order[n - 1]]);
    }
  }

  lemma {:induction false} CandidatesComplete(p: Pool, pol: Policy, target: string, now: Time, n: nat, i: nat)
    requires Ordered(p) && i < n <= |p.order|
    requires p.order[i] in p.slots && Eligible(p, p.Slot(p.order[i]), pol, target, now)
    ensures p.slots[p.order[i]] in Candidates(p, pol, target, now, n)
  {
    hide Eligible;
    if i < n - 1 { CandidatesComplete(p, pol, target, now, n - 1, i); }
  }

  lemma {:induction false} RecyclableSound(p: Pool, pol: Policy, target: string, now: Time, n: nat)
    requires Ordered(p) && n <= |p.order|
    ensures forall h :: h in Recyclable(p, pol, target, now, n) ==>
            p.IsMember(h) && EligibleIgnoringBatch(p, p.At(h), pol, target, now)
  {
    hide EligibleIgnoringBatch;
    if n > 0 {
      RecyclableSound(p, pol, target, now, n - 1);
      assert p.order[n - 1] in p.order;
      assert p.IsMember(p.slots[p.order[n - 1]]);
    }
  }

  lemma {:induction false} RecyclableComplete(p: Pool, pol: Policy, target: string, now: Time, n: nat, i: nat)
    requires Ordered(p) && i < n <= |p.order|
    requires p.order[i] in p.slots && EligibleIgnoringBatch(p, p.Slot(p.order[i]), pol, target, now)
    ensures p.slots[p.order[i]] in Recyclable(p, pol, target, now, n)
  {
    hide EligibleIgnoringBatch;
    if i < n - 1 { RecyclableComplete(p, pol, target, now, n - 1, i); }
  }

  lemma {:induction false} ReadySound(p: Pool, cands: seq<Handle>)
    ensures forall h :: h in ReadyOnes(p, cands) <==> h in cands && p.At(h).Ready()
  {
    if cands != [] { ReadySound(p, cands[..|cands| - 1]); }
  }

  /** Recycling may return this member: only the batch's own exclusion is waived. */
  ghost predicate MayRecycle(p: Pool, h: Handle, pol: Policy, target: string, now: Time) {
    && p.IsMember(h)
    && pol.recycleBatch && pol.uniqueBatch != ""
    && EligibleIgnoringBatch(p, p.At(h), pol, target, now)
    && pol.uniqueBatch in p.batches && now < p.batches[pol.uniqueBatch].expiresAt
    && p.At(h).publicIP in p.batches[pol.uniqueBatch].usedIPs
  }

  lemma OldestBurnSound(p: Pool, pol: Policy, target: string, now: Time)
    requires Ordered(p) && OldestBurn(p, pol, target, now).Some?
    ensures MayRecycle(p, OldestBurn(p, pol, target, now).value, pol, target, now)
    ensures forall h :: MayRecycle(p, h, pol, target, now) ==>
              BurnOf(p.batches[pol.uniqueBatch], p.At(OldestBurn(p, pol, target, now).value).publicIP)
              <= BurnOf(p.batches[pol.uniqueBatch], p.At(h).publicIP)
  {
    hide EligibleIgnoringBatch;
    var b := p.batches[pol.uniqueBatch];
    var hs := Recyclable(p, pol, target, now, |p.order|);
    RecyclableSound(p, pol, target, now, |p.order|);
    var cs := AsCandidates(p, hs);
    var i := OldestIn(b, cs, |hs|).value;
    assert hs[i] in hs;
    forall h | MayRecycle(p, h, pol, target, now)
      ensures BurnOf(b, p.At(hs[i]).publicIP) <= BurnOf(b, p.At(h).publicIP)
    {
      var j := MemberIsListed(p, h, pol, target, now);
      assert cs[j].ip in b.usedIPs;
    }
  }

  lemma MemberIsListed(p: Pool, h: Handle, pol: Policy, target: string, now: Time) returns (j: nat)
    requires Ordered(p) && p.IsMember(h) && EligibleIgnoringBatch(p, p.At(h), pol, target, now)
    ensures j < |Recyclable(p, pol, target, now, |p.order|)|
    ensures Recyclable(p, pol, target, now, |p.order|)[j] == h
  {
    hide EligibleIgnoringBatch;
    var id := p.states[h].spec.id;
    assert id in p.order;
    var i :| 0 <= i < |p.order| && p.order[i] == id;
    RecyclableComplete(p, pol, target, now, |p.order|, i);
    var hs := Recyclable(p, pol, target, now, |p.order|);
    assert h in hs;
    j :| 0 <= j < |hs| && hs[j] == h;
  }

  lemma OldestBurnComplete(p: Pool, pol: Policy, target: string, now: Time)
    requires Ordered(p) && OldestBurn(p, pol, target, now).None?
    ensures forall h :: !MayRecycle(p, h, pol, target, now)
  {
    hide EligibleIgnoringBatch;
    forall h ensures !MayRecycle(p, h, pol, target, now) {
      if MayRecycle(p, h, pol, target, now) {
        var j := MemberIsListed(p, h, pol, target, now);
      }
    }
  }

  lemma KeptRingValid(p: Pool, pol: Policy, target: string, now: Time)
    requires RingsValid(p)
    ensures Preferred.Valid(KeptRing(p, pol, target, now), p.opts.preferredMax)
  {
    hide StillGood;
    if target in p.preferred {
      FilterKeepsValid(p.preferred[target], (e: PreferredExit) => now < e.expiresAt, p.opts.preferredMax);
      FilterKeepsValid(Prune(p.preferred[target], now), (e: PreferredExit) => StillGood(p, e, pol, target, now),
          p.opts.preferredMax);
    }
  }

  lemma PreferredSound(p: Pool, pol: Policy, target: string, now: Time)
    requires Ordered(p) && PreferredChoice(p, pol, target, now).Some?
    ensures var (e, ring) := PreferredChoice(p, pol, target, now).value;
            && e in KeptRing(p, pol, target, now)
            && e.slotID in p.slots
            && p.IsMember(p.slots[e.slotID])
            && Eligible(p, p.At(p.slots[e.slotID]), pol, target, now)
            && ring == RotateToTail(KeptRing(p, pol, target, now), e.slotID)
            && (RingsValid(p) ==> Preferred.Valid(ring, p.opts.preferredMax))
  {
    hide Eligible;
    hide KeptRing;
    hide Preferred.Valid;
    var kept := KeptRing(p, pol, target, now);
    if RingsValid(p) {
      KeptRingValid(p, pol, target, now);
      RotateKeepsValid(kept, PreferredChoice(p, pol, target, now).value.0.slotID, p.opts.preferredMax);
    }
  }

  lemma WfIsOrdered(p: Pool)
    requires p.Wf()
    ensures Ordered(p)
  {}

  // ---------------------------------------------------------------------
  // Each path has that shape.

  lemma MildRefl(p: Pool, now: Time)
    ensures Mild(p, p, now)
  {
    hide MildStates;
    hide MildBatches;
    hide MildCooldowns;
    StatesSame(p, p, now);
    BatchesSame(p, p, now);
    CooldownsSame(p, p, now);
  }

  lemma RefusalShape(start: Pool, p: Pool, q: Pool, pol: Policy, target: string, now: Time, e: Error)
    requires Mild(start, p, now) && Mild(p, q, now)
    ensures Shaped(start, p, q, pol, target, now, (q, Err(e)))
  {
    hide Mild;
    MildTransitive(start, p, q, now);
  }

  lemma RecycleShape(start: Pool, p: Pool, pol: Policy, target: string, now: Time) returns (q: Pool)
    requires p.Wf() && Ordered(p) && Mild(start, p, now)
    ensures match OldestBurn(p, pol, target, now)
            case Some(h) =>
              && pol.uniqueBatch in p.batches
              && Shaped(start, p, q, pol, target, now, Choose(StampBatch(p, pol.uniqueBatch, p.At(h).publicIP, now),
                  pol, h, FromRecycling, now))
            case None => Shaped(start, p, q, pol, target, now, (p, Err(NoCandidate)))
  {
    hide Mild;
    hide Shaped;
    hide Choose;
    hide EligibleIgnoringBatch;
    match OldestBurn(p, pol, target, now)
    case Some(h) =>
      OldestBurnSound(p, pol, target, now);
      var ip := p.At(h).publicIP;
      q := StampBatch(p, pol.uniqueBatch, ip, now);
      StampIsMild(p, pol.uniqueBatch, ip, now);
      MildKeepsWf(p, q, now);
      ChooseShape(start, p, q, pol, target, h, FromRecycling, now);
    case None =>
      q := p;
      MildRefl(p, now);
      RefusalShape(start, p, p, pol, target, now, NoCandidate);
  }

  lemma ColdShape(start: Pool, p: Pool, pol: Policy, target: string, h: Handle, now: Time, luck: Luck) returns (q: Pool)
    requires p.Wf() && Mild(start, p, now) && ChosenFrom(p, pol, target, now, h, FromCold)
    ensures Shaped(start, p, q, pol, target, now, PickCold(p, pol, h, now, luck))
  {
    hide Mild;
    hide Shaped;
    hide ChosenFrom;
    hide Choose;
    hide Pool.Wf;
    var r := BudgetAvailable(p, now).0;
    var t := ReserveCapacity(r, luck.victim).0;
    BudgetIsMild(p, now);
    CapacityIsMild(r, luck.victim, now);
    MildTransitive(p, r, t, now);
    MildKeepsWf(p, t, now);
    if !BudgetAvailable(p, now).1 {
      q := r;
      RefusalShape(start, p, r, pol, target, now, TunnelBudgetSpent);
    } else if !ReserveCapacity(r, luck.victim).1 {
      q := t;
      RefusalShape(start, p, t, pol, target, now, Capacity);
    } else {
      q := t;
      ChooseShape(start, p, t, pol, target, h, FromCold, now);
    }
  }

  lemma AnyShape(start: Pool, p: Pool, pol: Policy, target: string, now: Time, luck: Luck) returns (q: Pool)
    requires p.Wf() && Mild(start, p, now)
    ensures Shaped(start, p, q, pol, target, now, PickAny(p, pol, target, now, luck))
  {
    hide Mild;
    hide Shaped;
    hide Choose;
    hide Eligible;
    hide EligibleIgnoringBatch;
    WfIsOrdered(p);
    MildRefl(p, now);
    var cands := Candidates(p, pol, target, now, |p.order|);
    var ready := ReadyOnes(p, cands);
    CandidatesSound(p, pol, target, now, |p.order|);
    ReadySound(p, cands);
    if cands == [] {
      q := RecycleShape(start, p, pol, target, now);
    } else if ready != [] {
      var h := ready[luck.roll % |ready|];
      assert h in ready;
      q := p;
      ChooseShape(start, p, p, pol, target, h, FromReady, now);
    } else {
      var h := cands[luck.roll % |cands|];
      assert h in cands;
      q := ColdShape(start, p, pol, target, h, now, luck);
    }
  }

  lemma PreferredShape(start: Pool, p: Pool, pol: Policy, target: string, now: Time, luck: Luck)
    returns (chosenIn: Pool, q: Pool)
    requires p.Wf() && Mild(start, p, now)
    ensures Shaped(start, chosenIn, q, pol, target, now, PickPreferred(p, pol, target, now, luck))
  {
    hide Mild;
    hide Shaped;
    hide Choose;
    hide Eligible;
    hide PickAny;
    hide PreferredChoice;
    WfIsOrdered(p);
    chosenIn := p;
    if target == "" || target !in p.preferred {
      q := AnyShape(start, p, pol, target, now, luck);
    } else {
      match PreferredChoice(p, pol, target, now)
      case None =>
        var kept := KeptRing(p, pol, target, now);
        if RingsValid(p) { KeptRingValid(p, pol, target, now); }
        SetRingIsMild(p, target, kept, now);
        chosenIn := SetRing(p, target, kept);
        MildKeepsWf(p, chosenIn, now);
        MildTransitive(start, p, chosenIn, now);
        q := AnyShape(start, chosenIn, pol, target, now, luck);
      case Some((e, ring)) =>
        PreferredSound(p, pol, target, now);
        SetRingIsMild(p, target, ring, now);
        q := SetRing(p, target, ring);
        MildKeepsWf(p, q, now);
        ChooseShape(start, p, q, pol, target, p.slots[e.slotID], FromPreferred, now);
    }
  }

  lemma StickyShape(start: Pool, p: Pool, pol: Policy, target: string, now: Time, luck: Luck)
    returns (chosenIn: Pool, q: Pool)
    requires p.Wf() && Mild(start, p, now)
    ensures Shaped(start, chosenIn, q, pol, target, now, PickSticky(p, pol, target, now, luck))
  {
    hide Mild;
    hide Shaped;
    hide Choose;
    hide Eligible;
    hide PickPreferred;
    chosenIn := p;
    match StickySlot(p, pol, target, now)
    case Some(h) =>
      q := ExtendSession(p, pol, now);
      SessionsAreMild(p, q.sessions, now);
      MildKeepsWf(p, q, now);
      ChooseShape(start, p, q, pol, target, h, FromSession, now);
    case None =>
      var r := ForgetSession(p, pol, now);
      SessionsAreMild(p, r.sessions, now);
      MildKeepsWf(p, r, now);
      MildTransitive(start, p, r, now);
      chosenIn, q := PreferredShape(start, r, pol, target, now, luck);
  }

  /** Every selection has the common shape, and a granted one found the pool below its
      connection limit. */
  lemma PickShape(p: Pool, pol: Policy, requested: string, now: Time, luck: Luck) returns (chosenIn: Pool, q: Pool)
    requires p.Wf()
    ensures Shaped(p, chosenIn, q, pol, Scope(pol, requested), now, Pick(p, pol, requested, now, luck))
    ensures Pick(p, pol, requested, now, luck).1.Ok? && p.opts.maxConcurrentConns > 0 ==>
              p.leased + p.pendingLeases < p.opts.maxConcurrentConns
  {
    hide Shaped;
    hide PickSticky;
    hide Expire;
    hide DropLapsed;
    hide MildStates;
    hide MildBatches;
    hide MildCooldowns;
    hide RingsValid;
    var r := Expire(p, now);
    var t := DropLapsed(r, luck.lapsed, now);
    ExpireIsMild(p, now);
    DropLapsedIsMild(r, luck.lapsed, now);
    MildTransitive(p, r, t, now);
    MildKeepsWf(p, t, now);
    MildRefl(t, now);
    chosenIn, q := StickyShape(p, t, pol, Scope(pol, requested), now, luck);
    if Pick(p, pol, requested, now, luck) != PickSticky(t, pol, Scope(pol, requested), now, luck) {
      chosenIn, q := t, t;
      match Pick(p, pol, requested, now, luck).1
      case Err(e) => RefusalShape(p, t, t, pol, Scope(pol, requested), now, e);
      case Ok(_) =>
    }
  }

  /** What the shape says about a grant. */
  lemma GrantedShape(p: Pool, chosenIn: Pool, q: Pool, pol: Policy, target: string, now: Time,
                     r: (Pool, Result<Choice, Error>))
    requires Shaped(p, chosenIn, q, pol, target, now, r) && r.1.Ok?
    ensures Mild(p, chosenIn, now) && Mild(p, q, now) && Mild(chosenIn, q, now)
    ensures ChosenFrom(chosenIn, pol, target, now, r.1.value.state, r.1.value.origin)
    ensures Refusal(q, pol, now).None?
    ensures r.0 == Reserved(q, pol, r.1.value.state, now)
    ensures r.1.value.reservation == Ticket(q, pol, r.1.value.state, now)
    ensures r.1.value.reservation.state == r.1.value.state
  {
    hide Mild;
    hide ChosenFrom;
    hide Refusal;
    hide Reserved;
  }

  /** What the shape says about a refusal. */
  lemma DeniedShape(p: Pool, chosenIn: Pool, q: Pool, pol: Policy, target: string, now: Time,
                    r: (Pool, Result<Choice, Error>))
    requires Shaped(p, chosenIn, q, pol, target, now, r) && r.1.Err?
    ensures Mild(p, r.0, now)
  {
    hide Mild;
    hide ChosenFrom;
  }
}
