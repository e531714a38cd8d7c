/** Eligibility tests forget the cooldowns they find lapsed. When they do so during a
    selection makes no difference: the selection is the same, and so is the pool it
    leaves, but for the forgotten cooldowns. */
module Lapsed {
  import opened Common
  import opened PolicyTypes
  import opened Batches
  import opened Preferred
  import opened PoolState
  import opened Selection
  import opened SelectionExact

  type Cooldowns = map<(string, Addr), Time>

  /** The pool with other address cooldowns. */
  function Cooling(p: Pool, c: Cooldowns): Pool { p.(ipCooldowns := c) }

  /** The cooldowns that are still running at `now` are the same. */
  ghost predicate SameRunning(p: Pool, c: Cooldowns, now: Time) { MildCooldowns(p, Cooling(p, c), now) }

  lemma SameCooling(p: Pool, c: Cooldowns, target: string, ip: Addr, now: Time)
    requires SameRunning(p, c, now)
    ensures IPCoolingDown(Cooling(p, c), target, ip, now) == IPCoolingDown(p, target, ip, now)
  {
    assert (target, ip) in p.ipCooldowns && now < p.ipCooldowns[(target, ip)] ==> (target, ip) in c;
  }

  lemma SameEligible(p: Pool, c: Cooldowns, s: SlotState, pol: Policy, target: string, now: Time)
    requires SameRunning(p, c, now)
    ensures Eligible(Cooling(p, c), s, pol, target, now) == Eligible(p, s, pol, target, now)
  {
    SameCooling(p, c, target, s.publicIP, now);
    hide ContainsFold;
    hide IPCoolingDown;
    hide MildCooldowns;
  }

  lemma {:induction false} SameCandidates(p: Pool, c: Cooldowns, pol: Policy, target: string, now: Time, n: nat)
    requires SameRunning(p, c, now) && n <= |p.order| && forall id :: id in p.order ==> id in p.slots
    ensures Candidates(Cooling(p, c), pol, target, now, n) == Candidates(p, pol, target, now, n)
  {
    hide Eligible;
    hide MildCooldowns;
    if n > 0 {
      SameCandidates(p, c, pol, target, now, n - 1);
      SameEligible(p, c, p.At(p.slots[p.order[n - 1]]), pol, target, now);
    }
  }

  lemma {:induction false} SameRecyclable(p: Pool, c: Cooldowns, pol: Policy, target: string, now: Time, n: nat)
    requires SameRunning(p, c, now) && n <= |p.order| && forall id :: id in p.order ==> id in p.slots
    ensures Recyclable(Cooling(p, c), pol, target, now, n) == Recyclable(p, pol, target, now, n)
  {
    hide Eligible;
    hide MildCooldowns;
    if n > 0 {
      SameRecyclable(p, c, pol, target, now, n - 1);
      SameEligible(p, c, p.At(p.slots[p.order[n - 1]]), pol.(uniqueBatch := ""), target, now);
    }
  }

  lemma {:induction false} SameReady(p: Pool, c: Cooldowns, cands: seq<Handle>)
    ensures ReadyOnes(Cooling(p, c), cands) == ReadyOnes(p, cands)
  {
    if cands != [] { SameReady(p, c, cands[..|cands| - 1]); }
  }

  lemma SameOldestBurn(p: Pool, c: Cooldowns, pol: Policy, target: string, now: Time)
    requires SameRunning(p, c, now) && forall id :: id in p.order ==> id in p.slots
    ensures OldestBurn(Cooling(p, c), pol, target, now) == OldestBurn(p, pol, target, now)
  {
    hide MildCooldowns;
    SameRecyclable(p, c, pol, target, now, |p.order|);
    hide Recyclable;
    var hs := Recyclable(p, pol, target, now, |p.order|);
    assert AsCandidates(Cooling(p, c), hs) == AsCandidates(p, hs);
    hide OldestIn;
  }

  lemma {:induction false} SameFilter(s: seq<PreferredExit>, f: PreferredExit -> bool, g: PreferredExit -> bool)
    requires forall e :: f(e) == g(e)
    ensures Filter(s, f) == Filter(s, g)
  {
    if s != [] { SameFilter(s[..|s| - 1], f, g); }
  }

  lemma SameKeptRing(p: Pool, c: Cooldowns, pol: Policy, target: string, now: Time)
    requires SameRunning(p, c, now)
    ensures KeptRing(Cooling(p, c), pol, target, now) == KeptRing(p, pol, target, now)
  {
    hide MildCooldowns;
    hide Eligible;
    var f, g := (e: PreferredExit) => StillGood(Cooling(p, c), e, pol, target, now),
        (e: PreferredExit) => StillGood(p, e, pol, target, now);
    forall e ensures f(e) == g(e) {
      if e.slotID in p.slots { SameEligible(p, c, p.Slot(e.slotID), pol.(uniqueBatch := ""), target, now); }
    }
    if target in p.preferred {
      SameFilter(Prune(p.preferred[target], now), f, g);
    }
  }

  lemma {:induction false} SameLeast(s: seq<PreferredExit>, f: PreferredExit -> bool, g: PreferredExit -> bool,
                                     x: PreferredExit -> int, y: PreferredExit -> int, n: nat)
    requires n <= |s| && (forall e :: f(e) == g(e)) && (forall e :: x(e) == y(e))
    ensures LeastLoaded(s, f, x, n) == LeastLoaded(s, g, y, n)
  {
    if n > 0 { SameLeast(s, f, g, x, y, n - 1); }
  }

  lemma SameMembers(p: Pool, c: Cooldowns, e: PreferredExit, pol: Policy, target: string, now: Time)
    requires SameRunning(p, c, now)
    ensures MayServe(Cooling(p, c), e, pol, target, now) == MayServe(p, e, pol, target, now)
    ensures LoadOf(Cooling(p, c), e) == LoadOf(p, e)
  {
    hide Eligible;
    hide MildCooldowns;
    if e.slotID in p.slots { SameEligible(p, c, p.Slot(e.slotID), pol, target, now); }
  }

  lemma SamePreferredChoice(p: Pool, c: Cooldowns, pol: Policy, target: string, now: Time)
    requires SameRunning(p, c, now)
    ensures PreferredChoice(Cooling(p, c), pol, target, now) == PreferredChoice(p, pol, target, now)
  {
    hide MildCooldowns;
    hide MayServe;
    hide LoadOf;
    hide KeptRing;
    SameKeptRing(p, c, pol, target, now);
    forall e ensures MayServe(Cooling(p, c), e, pol, target, now) == MayServe(p, e, pol, target, now)
        && LoadOf(Cooling(p, c), e) == LoadOf(p, e) {
      SameMembers(p, c, e, pol, target, now);
    }
    hide LeastLoaded;
    hide RotateToTail;
    SameServe(KeptRing(p, pol, target, now),
              (e: PreferredExit) => MayServe(Cooling(p, c), e, pol, target, now),
                  (e: PreferredExit) => MayServe(p, e, pol, target, now),
              (e: PreferredExit) => LoadOf(Cooling(p, c), e), (e: PreferredExit) => LoadOf(p, e));
  }

  lemma SameServe(s: seq<PreferredExit>, f: PreferredExit -> bool, g: PreferredExit -> bool, x: PreferredExit -> int,
                  y: PreferredExit -> int)
    requires (forall e :: f(e) == g(e)) && (forall e :: x(e) == y(e))
    ensures Serve(s, f, x) == Serve(s, g, y)
  {
    SameLeast(s, f, g, x, y, |s|);
  }

  lemma SameSticky(p: Pool, c: Cooldowns, pol: Policy, target: string, now: Time)
    requires SameRunning(p, c, now)
    ensures StickySlot(Cooling(p, c), pol, target, now) == StickySlot(p, pol, target, now)
  {
    hide MildCooldowns;
    hide Eligible;
    if pol.session in p.sessions && p.sessions[pol.session].slotID in p.slots {
      SameEligible(p, c, p.Slot(p.sessions[pol.session].slotID), pol, target, now);
    }
  }

  /** The result of a selection with other address cooldowns. */
  function CoolingResult(r: (Pool, Result<Choice, Error>), c: Cooldowns): (Pool,
                         Result<Choice, Error>) { (Cooling(r.0, c), r.1) }

  lemma SameEntered(p: Pool, c: Cooldowns, pol: Policy, now: Time)
    ensures EnteredBatch(Cooling(p, c), pol, now) == EnteredBatch(p, pol, now)
    ensures Refusal(Cooling(p, c), pol, now) == Refusal(p, pol, now)
    ensures Renews(Cooling(p, c), pol.uniqueBatch, now) == Renews(p, pol.uniqueBatch, now)
    ensures SessionToHold(Cooling(p, c), pol) == SessionToHold(p, pol)
    ensures SessionsFull(Cooling(p, c), pol) == SessionsFull(p, pol)
  {}

  lemma ReservedCommutes(p: Pool, c: Cooldowns, pol: Policy, h: Handle, now: Time)
    ensures Reserved(Cooling(p, c), pol, h, now) == Cooling(Reserved(p, pol, h, now), c)
    ensures Reserved(p, pol, h, now).ipCooldowns == p.ipCooldowns
  {
    hide EnteredBatch;
    hide Renews;
    hide SessionToHold;
    hide SessionsFull;
    hide Hold;
    hide Unhold;
    hide BatchState.Reserve;
    hide Refusal;
    SameEntered(p, c, pol, now);
    assert Cooling(p, c).At(h) == p.At(h);
  }

  lemma RefusedCommutes(p: Pool, c: Cooldowns, pol: Policy, now: Time)
    ensures Refused(Cooling(p, c), pol, now) == Cooling(Refused(p, pol, now), c)
    ensures Refused(p, pol, now).ipCooldowns == p.ipCooldowns
  {
    hide EnteredBatch;
    hide Renews;
    hide SessionToHold;
    hide SessionsFull;
    hide Hold;
    hide Unhold;
    hide Refusal;
    SameEntered(p, c, pol, now);
  }

  lemma TicketCommutes(p: Pool, c: Cooldowns, pol: Policy, h: Handle, now: Time)
    ensures Ticket(Cooling(p, c), pol, h, now) == Ticket(p, pol, h, now)
  {
    hide EnteredBatch;
    hide Renews;
    hide SessionToHold;
    hide SessionsFull;
    hide Refusal;
    SameEntered(p, c, pol, now);
  }

  lemma ChooseCommutes(p: Pool, c: Cooldowns, pol: Policy, h: Handle, origin: Origin, now: Time)
    ensures Choose(Cooling(p, c), pol, h, origin, now) == CoolingResult(Choose(p, pol, h, origin, now), c)
    ensures Choose(p, pol, h, origin, now).0.ipCooldowns == p.ipCooldowns
  {
    hide Reserved;
    hide Refused;
    hide Ticket;
    hide Refusal;
    hide EnteredBatch;
    hide Renews;
    hide SessionToHold;
    hide SessionsFull;
    SameEntered(p, c, pol, now);
    ReservedCommutes(p, c, pol, h, now);
    RefusedCommutes(p, c, pol, now);
    TicketCommutes(p, c, pol, h, now);
  }

  lemma SameVictims(p: Pool, c: Cooldowns, h: Handle)
    ensures IsVictim(Cooling(p, c), h) == IsVictim(p, h) && TunnelCount(Cooling(p, c)) == TunnelCount(p)
  {
    var q := Cooling(p, c);
    assert Occupied(q) == Occupied(p);
    assert forall g :: Idle(q, g) == Idle(p, g);
  }

  lemma CapacityCommutes(p: Pool, c: Cooldowns, victim: Handle)
    ensures ReserveCapacity(Cooling(p, c), victim)
            == (Cooling(ReserveCapacity(p, victim).0, c), ReserveCapacity(p, victim).1)
    ensures ReserveCapacity(p, victim).0.ipCooldowns == p.ipCooldowns
  {
    SameVictims(p, c, victim);
    hide IsVictim;
    hide TunnelCount;
  }

  lemma ColdCommutes(p: Pool, c: Cooldowns, pol: Policy, h: Handle, now: Time, luck: Luck)
    ensures PickCold(Cooling(p, c), pol, h, now, luck) == CoolingResult(PickCold(p, pol, h, now, luck), c)
    ensures PickCold(p, pol, h, now, luck).0.ipCooldowns == p.ipCooldowns
  {
    var q := BudgetAvailable(p, now).0;
    assert BudgetAvailable(Cooling(p, c), now) == (Cooling(q, c), BudgetAvailable(p, now).1);
    CapacityCommutes(q, c, luck.victim);
    ChooseCommutes(ReserveCapacity(q, luck.victim).0, c, pol, h, FromCold, now);
    hide Choose;
    hide ReserveCapacity;
  }

  lemma AnyCommutes(p: Pool, c: Cooldowns, pol: Policy, target: string, now: Time, luck: Luck)
    requires SameRunning(p, c, now) && forall id :: id in p.order ==> id in p.slots
    ensures PickAny(Cooling(p, c), pol, target, now, luck) == CoolingResult(PickAny(p, pol, target, now, luck), c)
    ensures PickAny(p, pol, target, now, luck).0.ipCooldowns == p.ipCooldowns
  {
    hide MildCooldowns;
    hide Candidates;
    hide OldestBurn;
    hide Choose;
    hide PickCold;
    hide ReadyOnes;
    var cands := Candidates(p, pol, target, now, |p.order|);
    SameCandidates(p, c, pol, target, now, |p.order|);
    SameReady(p, c, cands);
    var ready := ReadyOnes(p, cands);
    if cands == [] {
      SameOldestBurn(p, c, pol, target, now);
      if OldestBurn(p, pol, target, now).Some? && pol.uniqueBatch in p.batches {
        var h := OldestBurn(p, pol, target, now).value;
        ChooseCommutes(StampBatch(p, pol.uniqueBatch, p.At(h).publicIP, now), c, pol, h, FromRecycling, now);
      }
      BurnsAreStored(p, pol, target, now);
    } else if ready != [] {
      ChooseCommutes(p, c, pol, ready[luck.roll % |ready|], FromReady, now);
    } else {
      ColdCommutes(p, c, pol, cands[luck.roll % |cands|], now, luck);
    }
  }

  lemma BurnsAreStored(p: Pool, pol: Policy, target: string, now: Time)
    requires forall id :: id in p.order ==> id in p.slots
    ensures OldestBurn(p, pol, target, now).Some? ==> pol.uniqueBatch in p.batches
  {
    hide Recyclable;
  }

  lemma PreferredCommutes(p: Pool, c: Cooldowns, pol: Policy, target: string, now: Time, luck: Luck)
    requires SameRunning(p, c, now) && forall id :: id in p.order ==> id in p.slots
    ensures PickPreferred(Cooling(p, c), pol, target, now, luck)
            == CoolingResult(PickPreferred(p, pol, target, now, luck), c)
    ensures PickPreferred(p, pol, target, now, luck).0.ipCooldowns == p.ipCooldowns
  {
    hide PickAny;
    hide PreferredChoice;
    hide KeptRing;
    hide Choose;
    hide MildCooldowns;
    if target == "" || target !in p.preferred {
      AnyCommutes(p, c, pol, target, now, luck);
    } else {
      SamePreferredChoice(p, c, pol, target, now);
      SameKeptRing(p, c, pol, target, now);
      match PreferredChoice(p, pol, target, now)
      case None =>
        var q := SetRing(p, target, KeptRing(p, pol, target, now));
        RunningKept(p, q, c, now);
        AnyCommutes(q, c, pol, target, now, luck);
      case Some((e, ring)) =>
        if e.slotID in p.slots {
          ChooseCommutes(SetRing(p, target, ring), c, pol, p.slots[e.slotID], FromPreferred, now);
        }
    }
  }

  lemma RunningKept(p: Pool, q: Pool, c: Cooldowns, now: Time)
    requires SameRunning(p, c, now) && q.ipCooldowns == p.ipCooldowns
    ensures SameRunning(q, c, now)
  {}

  lemma StickyCommutes(p: Pool, c: Cooldowns, pol: Policy, target: string, now: Time, luck: Luck)
    requires SameRunning(p, c, now) && forall id :: id in p.order ==> id in p.slots
    ensures PickSticky(Cooling(p, c), pol, target, now, luck) == CoolingResult(PickSticky(p, pol, target, now, luck), c)
    ensures PickSticky(p, pol, target, now, luck).0.ipCooldowns == p.ipCooldowns
  {
    hide PickPreferred;
    hide StickySlot;
    hide Choose;
    hide MildCooldowns;
    SameSticky(p, c, pol, target, now);
    match StickySlot(p, pol, target, now)
    case Some(h) =>
      StickyIsBound(p, pol, target, now);
      ChooseCommutes(ExtendSession(p, pol, now), c, pol, h, FromSession, now);
    case None =>
      RunningKept(p, ForgetSession(p, pol, now), c, now);
      PreferredCommutes(ForgetSession(p, pol, now), c, pol, target, now, luck);
  }

  lemma StickyIsBound(p: Pool, pol: Policy, target: string, now: Time)
    ensures StickySlot(p, pol, target, now).Some? ==> pol.session in p.sessions
  {
    hide Eligible;
  }

  lemma ExpireKeepsOrder(p: Pool, now: Time)
    requires p.Wf()
    ensures var q := Expire(p, now); forall id :: id in q.order ==> id in q.slots
  {}

  /** Later paths do not look at which cooldowns lapsed. */
  lemma RollOnly(p: Pool, pol: Policy, target: string, now: Time, luck: Luck)
    requires forall id :: id in p.order ==> id in p.slots
    ensures PickSticky(p, pol, target, now, luck) == PickSticky(p, pol, target, now, luck.(lapsed := {}))
  {
    hide PreferredChoice;
    hide Candidates;
    hide OldestBurn;
    hide Choose;
    hide StickySlot;
    hide ReadyOnes;
    hide KeptRing;
  }
}
