/** Rings of last-good exits over whole runs, and what one selection does to a ring. */
module RingRuns {
  import opened Common
  import opened Cyclic
  import opened PolicyTypes
  import opened Batches
  import opened Preferred
  import opened PoolState
  import opened Selection
  import opened SelectionExact
  import opened PoolSystem
  import opened WellFormed
  import opened MemoryRuns

  lemma RememberedRings(p: Pool, scope: string, slotID: string, ip: Addr, until: Time)
    requires RingsValid(p) && ip != NoAddr
    ensures RingsValid(p.(preferred := p.preferred[scope := Remember(RingFor(p, scope), slotID, ip, until,
            p.opts.preferredMax)]))
  {
    RememberKeepsValid(RingFor(p, scope), slotID, ip, until, p.opts.preferredMax);
    hide Remember;
  }

  lemma PreferRings(p: Pool, c: Praise, now: Time)
    requires RingsValid(p)
    ensures RingsValid(Prefer(p, c, now).0)
  {
    hide RingsValid;
    hide Remember;
    if Refusable(p, c).None? {
      RememberedRings(p, c.target, c.slot, p.Slot(c.slot).publicIP, now
          + (if c.ttl <= 0 then p.opts.preferredTTL else c.ttl));
    }
  }

  lemma RestoredRings(p: Pool, scope: string, e: PreferredExit, now: Time)
    requires RingsValid(p)
    ensures RingsValid(RestorePreference(p, scope, e, now))
  {
    hide RingsValid;
    hide Remember;
    if Restorable(p, e, now) {
      RememberedRings(p, scope, e.slotID, e.publicIP, e.expiresAt);
    } else {
      assert RestorePreference(p, scope, e, now) == p;
    }
  }

  lemma UnpreferredRings(p: Pool, q: Pool, target: string, ip: Addr)
    requires RingsValid(p) && q.opts == p.opts && q.preferred == Unpreferred(p.preferred, target, ip)
    ensures RingsValid(q)
  {
    if target in p.preferred {
      FilterKeepsValid(p.preferred[target], (e: PreferredExit) => e.publicIP != ip, p.opts.preferredMax);
    }
    hide Preferred.Valid;
  }

  lemma ReportRings(p: Pool, c: Complaint, now: Time)
    requires RingsValid(p)
    ensures RingsValid(Report(p, c, now).0)
  {
    ReportMemory(p, c, now);
    hide Report;
    hide RingsValid;
    match ReportedSlot(p, c)
    case Err(_) =>
    case Ok(id) => UnpreferredRings(p, Report(p, c, now).0, c.target, p.Slot(id).publicIP);
  }

  lemma CooldownRings(p: Pool, scope: string, ip: Addr, until: Time, now: Time)
    requires RingsValid(p)
    ensures RingsValid(RestoreCooldown(p, scope, ip, until, now))
  {
    PraiseMemory(p, Praise("", NoAddr, "", 0), scope, PreferredExit("", NoAddr, ZERO_TIME), ip, until, now);
    RingsSame(p, RestoreCooldown(p, scope, ip, until, now));
  }

  lemma RingsStep(s: System, step: Step)
    requires Base(s) && Enabled(s, step) && RingsValid(s.pool)
    ensures RingsValid(PoolAfter(s, step))
  {
    hide Pick;
    hide Establish;
    hide Rollback;
    hide ReleaseLease;
    hide NoteFailure;
    hide DropSession;
    hide Report;
    hide Prefer;
    hide Measure;
    hide RestorePreference;
    hide RestoreCooldown;
    hide Housekeep;
    hide Expire;
    hide Reconcile;
    hide OpenTunnel;
    hide RollbackOpen;
    hide MarkOpening;
    hide CommitOpen;
    hide FinishOpen;
    hide FailEntry;
    hide CountFailure;
    hide TrimOpens;
    hide Pool.Wf;
    hide RingsValid;
    hide MildCooldowns;
    var p := s.pool;
    match step
    case Picking(pol, target, now, luck) => PickMemory(p, pol, target, now, luck);
    case Reporting(c, now) => ReportRings(p, c, now);
    case Preferring(c, now) => PreferRings(p, c, now);
    case RestoringPreference(scope, e, now) => RestoredRings(p, scope, e, now);
    case RestoringCooldown(scope, ip, until, now) => CooldownRings(p, scope, ip, until, now);
    case Housekeeping(now) => HousekeepMemory(p, now);
    case Saving(now) => HousekeepMemory(p, now);
    case _ =>
      QuietMemory(s, step);
      RingsSame(p, PoolAfter(s, step));
  }

  lemma InitialRings(s: System)
    requires Initial(s)
    ensures RingsValid(s.pool)
  {
    InitialBase(s);
    hide Initial;
  }

  /** In every reachable state a ring holds at most the configured number of entries,
      and their addresses are valid and pairwise distinct. */
  lemma {:induction false} RingsStayValid(states: seq<System>, steps: seq<Step>, i: nat)
    requires Run(states, steps) && i < |states|
    ensures forall t :: t in states[i].pool.preferred ==>
              Preferred.Valid(states[i].pool.preferred[t], states[i].pool.opts.preferredMax)
  {
    hide Base;
    hide RingsValid;
    hide Initial;
    if i == 0 {
      InitialRings(states[0]);
    } else {
      RingsStayValid(states, steps, i - 1);
      ReachableIsWellFormed(states, steps, i - 1);
      assert Next(states[i - 1], steps[i - 1], states[i]);
      BaseIsWf(states[i - 1]);
      assert RingsValid(states[i - 1].pool) by { ValidRings(states[i - 1].pool); }
      RingsStep(states[i - 1], steps[i - 1]);
    }
    assert RingsValid(states[i].pool);
    RingsAreValid(states[i].pool);
  }

  lemma ValidRings(p: Pool)
    requires forall t :: t in p.preferred ==> Preferred.Valid(p.preferred[t], p.opts.preferredMax)
    ensures RingsValid(p)
  {}

  lemma RingsAreValid(p: Pool)
    requires RingsValid(p)
    ensures forall t :: t in p.preferred ==> Preferred.Valid(p.preferred[t], p.opts.preferredMax)
  {}

  // ---------------------------------------------------------------------
  // One selection from a ring.

  /** Once stale entries are filtered out every slot appears once: an entry names the
      one address its slot has now. */
  lemma KeptSlotsAreDistinct(p: Pool, pol: Policy, target: string, now: Time)
    requires RingsValid(p)
    ensures DistinctSlots(KeptRing(p, pol, target, now))
  {
    KeptRingValid(p, pol, target, now);
    var kept := KeptRing(p, pol, target, now);
    hide EligibleIgnoringBatch;
    if target in p.preferred {
      forall i | 0 <= i < |kept| ensures StillGood(p, kept[i], pol, target, now) {
        assert kept[i] in kept;
      }
    }
    hide KeptRing;
    forall i, j | 0 <= i < j < |kept| ensures kept[i].slotID != kept[j].slotID {
      assert kept[i].publicIP != kept[j].publicIP;
    }
  }

  /** A preferred selection takes the first least-loaded entry that may serve, moves
      exactly that entry to the tail and keeps the order of the rest. */
  lemma PreferredPickMovesOne(p: Pool, pol: Policy, target: string, now: Time) returns (k: nat)
    requires RingsValid(p) && PreferredChoice(p, pol, target, now).Some?
    ensures var kept := KeptRing(p, pol, target, now);
            && k < |kept|
            && PreferredChoice(p, pol, target, now) == Some((kept[k], MoveToTail(kept, k)))
            && MayServe(p, kept[k], pol, target, now)
            && (forall i :: 0 <= i < |kept| && MayServe(p, kept[i], pol, target, now) ==>
                LoadOf(p, kept[k]) <= LoadOf(p, kept[i]))
            && (forall i :: 0 <= i < k && MayServe(p, kept[i], pol, target, now) ==>
                LoadOf(p, kept[k]) < LoadOf(p, kept[i]))
  {
    KeptSlotsAreDistinct(p, pol, target, now);
    hide KeptRing;
    hide RingsValid;
    hide MayServe;
    hide LoadOf;
    hide LeastLoaded;
    hide RotateToTail;
    hide MoveToTail;
    k := ServeMovesOne(KeptRing(p, pol, target, now), (e: PreferredExit) => MayServe(p, e, pol, target, now),
        (e: PreferredExit) => LoadOf(p, e));
  }

  lemma ServeMovesOne(s: seq<PreferredExit>, serves: PreferredExit -> bool, load: PreferredExit -> int) returns (k: nat)
    requires DistinctSlots(s) && Serve(s, serves, load).Some?
    ensures k < |s| && serves(s[k]) && Serve(s, serves, load) == Some((s[k], MoveToTail(s, k)))
    ensures forall i :: 0 <= i < |s| && serves(s[i]) ==> load(s[k]) <= load(s[i])
    ensures forall i :: 0 <= i < k && serves(s[i]) ==> load(s[k]) < load(s[i])
  {
    k := LeastLoaded(s, serves, load, |s|).value;
    RotateMovesOne(s, k);
  }

  // ---------------------------------------------------------------------
  // Round robin over undone selections.

  /** Every entry of the ring is live, names its slot's address, may serve and carries
      the same load. */
  ghost predicate Steady(p: Pool, pol: Policy, target: string, now: Time, ring: seq<PreferredExit>, common: int) {
    forall e :: e in ring ==>
      now < e.expiresAt && StillGood(p, e, pol, target, now) && MayServe(p, e, pol, target, now)
          && LoadOf(p, e) == common
  }

  lemma {:induction false} FilterKeepsAll(s: seq<PreferredExit>, keep: PreferredExit -> bool)
    requires forall e :: e in s ==> keep(e)
    ensures Filter(s, keep) == s
  {
    if s != [] { FilterKeepsAll(s[..|s| - 1], keep); }
  }

  lemma SteadyIsKept(p: Pool, pol: Policy, target: string, now: Time, common: int)
    requires target in p.preferred && Steady(p, pol, target, now, p.preferred[target], common)
    ensures KeptRing(p, pol, target, now) == p.preferred[target]
  {
    hide StillGood;
    hide MayServe;
    hide LoadOf;
    FilterKeepsAll(p.preferred[target], (e: PreferredExit) => now < e.expiresAt);
    FilterKeepsAll(p.preferred[target], (e: PreferredExit) => StillGood(p, e, pol, target, now));
  }

  /** With a steady ring the head serves and the ring turns by one. */
  lemma SteadyServesHead(p: Pool, pol: Policy, target: string, now: Time, common: int)
    requires RingsValid(p) && target in p.preferred && p.preferred[target] != []
    requires Steady(p, pol, target, now, p.preferred[target], common)
    ensures var ring := p.preferred[target];
            PreferredChoice(p, pol, target, now) == Some((ring[0], ring[1..] + [ring[0]]))
  {
    SteadyIsKept(p, pol, target, now, common);
    KeptSlotsAreDistinct(p, pol, target, now);
    hide KeptRing;
    hide StillGood;
    hide RingsValid;
    SteadyHead(p, pol, target, now, p.preferred[target], common);
  }

  lemma SteadyHead(p: Pool, pol: Policy, target: string, now: Time, ring: seq<PreferredExit>, common: int)
    requires ring != [] && DistinctSlots(ring) && Steady(p, pol, target, now, ring, common)
    ensures Serve(ring, (e: PreferredExit) => MayServe(p, e, pol, target, now), (e: PreferredExit) => LoadOf(p, e))
            == Some((ring[0], ring[1..] + [ring[0]]))
  {
    hide MayServe;
    hide LoadOf;
    hide StillGood;
    ServeHead(ring, (e: PreferredExit) => MayServe(p, e, pol, target, now), (e: PreferredExit) => LoadOf(p, e), common);
  }

  /** The path through the ring of `target` grants `e`, and the selection is rolled back;
      whatever else happens until `q` leaves the ring alone. */
  ghost predicate UndoneThere(p: Pool, q: Pool, pol: Policy, target: string, now: Time, luck: Luck, e: PreferredExit) {
    && p.Wf() && RingsValid(p) && PickPreferred(p, pol, target, now, luck).1.Ok?
    && var (r, c) := PickPreferred(p, pol, target, now, luck);
       && RingFor(q, target) == RingFor(Rollback(r, c.value.reservation), target)
       && e.slotID in p.slots && c.value.state == p.slots[e.slotID]
       && e in KeptRing(p, pol, target, now)
  }

  lemma UndoneRing(p: Pool, q: Pool, pol: Policy, target: string, now: Time, luck: Luck, e: PreferredExit, common: int)
    requires target != "" && target in p.preferred && p.preferred[target] != []
    requires Steady(p, pol, target, now, p.preferred[target], common) && UndoneThere(p, q, pol, target, now, luck, e)
    ensures var ring := p.preferred[target];
            e == ring[0] && target in q.preferred && q.preferred[target] == ring[1..] + [ring[0]]
  {
    SteadyServesHead(p, pol, target, now, common);
    SteadyIsKept(p, pol, target, now, common);
    KeptSlotsAreDistinct(p, pol, target, now);
    hide KeptRing;
    hide PreferredChoice;
    hide RingsValid;
    hide Steady;
    var ring := p.preferred[target];
    var turned := ring[1..] + [ring[0]];
    assert ring[0].slotID in p.slots && p.Member(ring[0].slotID) by { PreferredMember(p, pol, target, now, ring[0],
           turned); }
    ChosenFromRing(p, SetRing(p, target, turned), pol, ring[0], now);
    var (r, c) := PickPreferred(p, pol, target, now, luck);
    assert c.Ok? && c.value.state == p.slots[ring[0].slotID];
    assert r.preferred == SetRing(p, target, turned).preferred;
    SameSlotSameEntry(p, ring, e);
    RolledBackMemory(r, c.value.reservation);
  }

  lemma PreferredMember(p: Pool, pol: Policy, target: string, now: Time, e: PreferredExit, ring: seq<PreferredExit>)
    requires p.Wf() && PreferredChoice(p, pol, target, now) == Some((e, ring))
    ensures e.slotID in p.slots && p.Member(e.slotID)
  {
    WfIsOrdered(p);
    PreferredSound(p, pol, target, now);
    hide PreferredChoice;
  }

  lemma RolledBackMemory(p: Pool, r: Reservation)
    ensures Rollback(p, r).preferred == p.preferred
  {
    hide ReleaseIn;
    hide Unhold;
  }

  lemma ChosenFromRing(p: Pool, q: Pool, pol: Policy, e: PreferredExit, now: Time)
    requires e.slotID in p.slots
    ensures var r := Choose(q, pol, p.slots[e.slotID], FromPreferred, now);
            r.1.Ok? ==> r.0.preferred == q.preferred && r.1.value.state == p.slots[e.slotID]
  {
    hide Refusal;
  }

  lemma SameSlotSameEntry(p: Pool, ring: seq<PreferredExit>, e: PreferredExit)
    requires p.Wf() && DistinctSlots(ring) && e in ring && ring != [] && e.slotID in p.slots
             && ring[0].slotID in p.slots
    requires p.slots[e.slotID] == p.slots[ring[0].slotID]
    ensures e == ring[0]
  {
    assert p.states[p.slots[e.slotID]].spec.id == e.slotID;
    assert p.states[p.slots[ring[0].slotID]].spec.id == ring[0].slotID;
    var i :| 0 <= i < |ring| && ring[i] == e;
  }

  /** A selection without a session is granted the slot of `e`, an entry of the ring it
      looks at, and is rolled back; whatever else happens until `q` leaves the ring alone. */
  ghost predicate Undone(p: Pool, q: Pool, pol: Policy, requested: string, now: Time, luck: Luck, e: PreferredExit) {
    && p.Wf() && RingsValid(p) && pol.session == "" && Pick(p, pol, requested, now, luck).1.Ok?
    && var (r, c) := Pick(p, pol, requested, now, luck);
       && RingFor(q, Scope(pol, requested)) == RingFor(Rollback(r, c.value.reservation), Scope(pol, requested))
       && e in RingFor(p, Scope(pol, requested))
       && e.slotID in p.slots && c.value.state == p.slots[e.slotID]
  }

  /** Clearing what is stale leaves a steady ring steady. */
  lemma ClearedIsSteady(p: Pool, pol: Policy, target: string, now: Time, lapsed: set<(string, Addr)>, common: int)
    requires p.Wf() && RingsValid(p) && target in p.preferred && p.preferred[target] != []
    requires Steady(p, pol, target, now, p.preferred[target], common)
    ensures var q := DropLapsed(Expire(p, now), lapsed, now);
            && q.Wf() && RingsValid(q) && q.slots == p.slots
            && target in q.preferred && q.preferred[target] == p.preferred[target]
            && Steady(q, pol, target, now, q.preferred[target], common)
  {
    var ring, q := p.preferred[target], DropLapsed(Expire(p, now), lapsed, now);
    ClearingIsQuiet(p, lapsed, now);
    FilterKeepsAll(ring, (e: PreferredExit) => now < e.expiresAt);
    assert Prune(ring, now) == ring;
    assert target in q.preferred && q.preferred[target] == ring;
    hide Expire;
    hide DropLapsed;
    hide Prune;
    hide Valid;
    forall e | e in ring
      ensures StillGood(q, e, pol, target, now) && MayServe(q, e, pol, target, now) && LoadOf(q, e) == common
    {
      SteadyOne(p, q, pol, target, now, e, common);
    }
    hide StillGood;
    hide MayServe;
    hide LoadOf;
    hide Pool.Wf;
  }

  lemma SteadyOne(p: Pool, q: Pool, pol: Policy, target: string, now: Time, e: PreferredExit, common: int)
    requires p.Wf() && Mild(p, q, now)
    requires StillGood(p, e, pol, target, now) && MayServe(p, e, pol, target, now) && LoadOf(p, e) == common
    ensures StillGood(q, e, pol, target, now) && MayServe(q, e, pol, target, now) && LoadOf(q, e) == common
  {
    var h := p.slots[e.slotID];
    assert h in p.states && q.slots == p.slots;
    MildKeepsEligible(p, q, h, pol, target, now);
    MildKeepsEligible(p, q, h, pol.(uniqueBatch := ""), target, now);
    MildKeepsIP(p, q, h, now);
    hide Mild;
    hide Eligible;
    hide Pool.Wf;
    hide Pool.At;
  }

  /** A selection without a session goes straight to the ring. */
  lemma PicksFromRing(p: Pool, pol: Policy, requested: string, now: Time, luck: Luck)
    requires p.Wf() && pol.session == "" && Pick(p, pol, requested, now, luck).1.Ok?
    ensures var q := DropLapsed(Expire(p, now), luck.lapsed, now);
            (forall id :: id in q.order ==> id in q.slots)
            && Pick(p, pol, requested, now, luck) == PickPreferred(q, pol, Scope(pol, requested), now, luck)
  {
    var q := DropLapsed(Expire(p, now), luck.lapsed, now);
    assert q.order == p.order && q.slots == p.slots;
    hide Expire;
    hide DropLapsed;
    hide PickPreferred;
    assert ForgetSession(q, pol, now) == q;
  }

  /** A steady ring turns by one when its head is granted and given back. */
  lemma UndoneTurns(p: Pool, q: Pool, pol: Policy, requested: string, now: Time, luck: Luck, e: PreferredExit,
                    common: int)
    requires var target := Scope(pol, requested);
             && target != "" && target in p.preferred && p.preferred[target] != []
             && Steady(p, pol, target, now, p.preferred[target], common)
    requires Undone(p, q, pol, requested, now, luck, e)
    ensures var target, ring := Scope(pol, requested), p.preferred[Scope(pol, requested)];
            e == ring[0] && target in q.preferred && q.preferred[target] == ring[1..] + [ring[0]]
  {
    var target, s := Scope(pol, requested), DropLapsed(Expire(p, now), luck.lapsed, now);
    ClearedIsSteady(p, pol, target, now, luck.lapsed, common);
    PicksFromRing(p, pol, requested, now, luck);
    SteadyIsKept(s, pol, target, now, common);
    hide Expire;
    hide DropLapsed;
    hide Pick;
    hide PickPreferred;
    hide Rollback;
    hide KeptRing;
    hide Steady;
    hide RingsValid;
    hide Pool.Wf;
    UndoneRing(s, q, pol, target, now, luck, e, common);
  }

  /** Selections without a session, each undone before the next, serve the members of a ring
      in turn while these are always eligible and always carry equal load. */
  lemma {:induction false} UndonePicksRoundRobin(
      ps: seq<Pool>, pols: seq<Policy>, asked: seq<string>, nows: seq<Time>, lucks: seq<Luck>, commons: seq<int>,
      served: seq<PreferredExit>, target: string)
    requires |ps| == |served| + 1 && |pols| == |asked| == |nows| == |lucks| == |commons| == |served|
    requires target != "" && target in ps[0].preferred && ps[0].preferred[target] != []
    requires forall i :: 0 <= i < |served| ==>
               Scope(pols[i], asked[i]) == target
               && Undone(ps[i], ps[i + 1], pols[i], asked[i], nows[i], lucks[i], served[i])
    requires forall i :: 0 <= i < |served| ==>
               target in ps[i].preferred ==> Steady(ps[i], pols[i], target, nows[i], ps[i].preferred[target],
                   commons[i])
    ensures Cycles(served, ps[0].preferred[target])
    decreases |served|
  {
    hide Undone;
    hide Steady;
    hide Scope;
    var ring := ps[0].preferred[target];
    if served != [] {
      UndoneTurns(ps[0], ps[1], pols[0], asked[0], nows[0], lucks[0], served[0], commons[0]);
      forall i | 0 <= i < |served| - 1
        ensures Scope(pols[1..][i], asked[1..][i]) == target
        ensures Undone(ps[1..][i], ps[1..][i + 1], pols[1..][i], asked[1..][i], nows[1..][i], lucks[1..][i],
                       served[1..][i])
        ensures target in ps[1..][i].preferred ==>
                  Steady(ps[1..][i], pols[1..][i], target, nows[1..][i], ps[1..][i].preferred[target], commons[1..][i])
      {
        assert Undone(ps[i + 1], ps[i + 2], pols[i + 1], asked[i + 1], nows[i + 1], lucks[i + 1], served[i + 1]);
      }
      UndonePicksRoundRobin(ps[1..], pols[1..], asked[1..], nows[1..], lucks[1..], commons[1..], served[1..], target);
      TurnsAll(ring, served[1..]);
      assert served == [ring[0]] + served[1..];
    }
  }
}
