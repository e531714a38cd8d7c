/** Lease conservation: the counters of the pool and of every slot state equal the
    connections and acquisitions that exist, whatever happened to the membership. */
module Leases {
  import opened Common
  import opened PolicyTypes
  import opened Batches
  import opened Preferred
  import opened PoolState
  import opened Selection
  import opened PoolSystem
  import opened WellFormed

  /** The identifiers that hold a state. */
  function Holders(m: map<nat, Handle>, h: Handle): set<nat> {
    set id | id in m.Keys && m[id] == h
  }

  /** The state each acquisition under way has reserved. */
  function Pending(inflight: map<nat, Inflight>): map<nat, Handle> {
    map id | id in inflight.Keys :: inflight[id].reservation.state
  }

  lemma AddHolder(m: map<nat, Handle>, id: nat, h: Handle, g: Handle)
    requires id !in m
    ensures |Holders(m[id := h], g)| == |Holders(m, g)| + (if g == h then 1 else 0)
  {
    if g == h {
      assert Holders(m[id := h], g) == Holders(m, g) + {id};
    } else {
      assert Holders(m[id := h], g) == Holders(m, g);
    }
  }

  lemma RemoveHolder(m: map<nat, Handle>, id: nat, g: Handle)
    requires id in m
    ensures |Holders(m - {id}, g)| == |Holders(m, g)| - (if g == m[id] then 1 else 0)
    ensures |m - {id}| == |m| - 1
  {
    assert (m - {id}).Keys == m.Keys - {id};
    if g == m[id] {
      assert Holders(m - {id}, g) == Holders(m, g) - {id};
    } else {
      assert Holders(m - {id}, g) == Holders(m, g);
    }
  }

  /** The counters are right. */
  ghost predicate Conserved(p: Pool, pending: map<nat, Handle>, leases: map<nat, Handle>) {
    && p.leased == |leases|
    && p.pendingLeases == |pending|
    && (forall h :: h in p.states ==> Counted(p.states[h], pending, leases, h))
  }

  ghost predicate Counted(s: SlotState, pending: map<nat, Handle>, leases: map<nat, Handle>, h: Handle) {
    s.leases == |Holders(leases, h)| && s.pendingLeases == |Holders(pending, h)|
  }

  /** The configured connection limits hold. */
  ghost predicate Capped(p: Pool) {
    && (p.opts.maxConcurrentConns > 0 ==> p.leased + p.pendingLeases <= p.opts.maxConcurrentConns)
    && (p.opts.maxConnsPerExit > 0 ==> forall h :: h in p.states ==> p.states[h].Load() <= p.opts.maxConnsPerExit)
  }

  /** No counter changed; new states start at zero under handles nobody held. */
  ghost predicate SameLoads(p: Pool, q: Pool) {
    && q.opts == p.opts && q.leased == p.leased && q.pendingLeases == p.pendingLeases
    && p.states.Keys <= q.states.Keys
    && (forall h :: h in p.states ==> q.states[h].leases == p.states[h].leases
                                      && q.states[h].pendingLeases == p.states[h].pendingLeases)
    && (forall h :: h in q.states && h !in p.states ==> q.states[h].leases == 0 && q.states[h].pendingLeases == 0)
  }

  lemma SameLoadsKeep(p: Pool, q: Pool, pending: map<nat, Handle>, leases: map<nat, Handle>)
    requires SameLoads(p, q) && Conserved(p, pending, leases) && Capped(p)
    requires forall id :: id in pending ==> pending[id] in p.states
    requires forall id :: id in leases ==> leases[id] in p.states
    ensures Conserved(q, pending, leases) && Capped(q)
  {
    forall h | h in q.states ensures Counted(q.states[h], pending, leases, h) {
      if h in p.states {
        assert Counted(p.states[h], pending, leases, h);
      } else {
        assert Holders(pending, h) == {} && Holders(leases, h) == {};
      }
    }
  }

  // ---------------------------------------------------------------------
  // The four steps that move connections.

  /** One state and the pool's counters change together. */
  lemma OneLoadKeeps(p: Pool, q: Pool, h: Handle, pending: map<nat, Handle>, leases: map<nat, Handle>,
                     pending': map<nat, Handle>, leases': map<nat, Handle>)
    requires Conserved(p, pending, leases) && h in p.states
    requires q.states.Keys == p.states.Keys && q.opts == p.opts
    requires forall g :: g in p.states && g != h ==>
               q.states[g].leases == p.states[g].leases && q.states[g].pendingLeases == p.states[g].pendingLeases
    requires forall g :: g != h ==> |Holders(pending', g)| == |Holders(pending, g)|
                                    && |Holders(leases', g)| == |Holders(leases, g)|
    requires Counted(q.states[h], pending', leases', h)
    requires q.leased == |leases'| && q.pendingLeases == |pending'|
    ensures Conserved(q, pending', leases')
  {
    forall g | g in q.states ensures Counted(q.states[g], pending', leases', g) {
      if g != h { assert Counted(p.states[g], pending, leases, g); }
    }
  }

  lemma ReservedLoads(p: Pool, pol: Policy, h: Handle, now: Time)
    ensures var q := Reserved(p, pol, h, now);
            && q.opts == p.opts && q.leased == p.leased && q.pendingLeases == p.pendingLeases + 1
            && q.states == p.states[h := p.At(h).(pendingLeases := p.At(h).pendingLeases + 1)]
  {}

  lemma ReserveKeeps(p: Pool, pol: Policy, h: Handle, now: Time, id: nat, pending: map<nat, Handle>,
                     leases: map<nat, Handle>)
    requires Conserved(p, pending, leases) && h in p.states && id !in pending
    ensures Conserved(Reserved(p, pol, h, now), pending[id := h], leases)
  {
    ReservedLoads(p, pol, h, now);
    hide Reserved;
    var q := Reserved(p, pol, h, now);
    assert Counted(p.states[h], pending, leases, h);
    forall g ensures |Holders(pending[id := h], g)| == |Holders(pending, g)| + (if g == h then 1 else 0) {
      AddHolder(pending, id, h, g);
    }
    assert pending[id := h].Keys == pending.Keys + {id};
    OneLoadKeeps(p, q, h, pending, leases, pending[id := h], leases);
  }

  lemma RollbackKeeps(p: Pool, r: Reservation, id: nat, pending: map<nat, Handle>, leases: map<nat, Handle>)
    requires Conserved(p, pending, leases) && id in pending && pending[id] == r.state && r.state in p.states
    ensures Conserved(Rollback(p, r), pending - {id}, leases)
    ensures p.pendingLeases > 0 && p.states[r.state].pendingLeases > 0
  {
    hide Unhold;
    hide ReleaseIn;
    var h := r.state;
    assert Counted(p.states[h], pending, leases, h);
    forall g ensures |Holders(pending - {id}, g)| == |Holders(pending, g)| - (if g == h then 1 else 0) {
      RemoveHolder(pending, id, g);
    }
    RemoveHolder(pending, id, h);
    assert id in Holders(pending, h);
    OneLoadKeeps(p, Rollback(p, r), h, pending, leases, pending - {id}, leases);
  }

  lemma EstablishLoads(p: Pool, r: Reservation, pol: Policy, now: Time)
    ensures var q, s := Establish(p, r, pol, now), p.At(r.state);
            && q.opts == p.opts && q.leased == p.leased + 1 && q.pendingLeases == Dec(p.pendingLeases)
            && q.states == p.states[r.state := s.(pendingLeases := Dec(s.pendingLeases), leases := s.leases + 1,
                lastUsed := now, failures := 0)]
  {
    hide Unhold;
  }

  lemma MovedHolders(pending: map<nat, Handle>, leases: map<nat, Handle>, id: nat, lid: nat, h: Handle)
    requires id in pending && pending[id] == h && lid !in leases
    ensures forall g :: |Holders(pending - {id}, g)| == |Holders(pending, g)| - (if g == h then 1 else 0)
    ensures forall g :: |Holders(leases[lid := h], g)| == |Holders(leases, g)| + (if g == h then 1 else 0)
    ensures |pending - {id}| == |pending| - 1 && |leases[lid := h]| == |leases| + 1 && |Holders(pending, h)| > 0
  {
    forall g ensures |Holders(pending - {id}, g)| == |Holders(pending, g)| - (if g == h then 1 else 0)
      ensures |Holders(leases[lid := h], g)| == |Holders(leases, g)| + (if g == h then 1 else 0)
    {
      RemoveHolder(pending, id, g);
      AddHolder(leases, lid, h, g);
    }
    RemoveHolder(pending, id, h);
    assert id in Holders(pending, h);
    assert leases[lid := h].Keys == leases.Keys + {lid};
  }

  lemma EstablishKeeps(p: Pool, r: Reservation, pol: Policy, now: Time, id: nat, lid: nat, pending: map<nat, Handle>,
                       leases: map<nat, Handle>)
    requires Conserved(p, pending, leases) && id in pending && pending[id] == r.state && r.state in p.states
             && lid !in leases
    ensures Conserved(Establish(p, r, pol, now), pending - {id}, leases[lid := r.state])
    ensures p.pendingLeases > 0 && p.states[r.state].pendingLeases > 0
  {
    var h := r.state;
    assert Counted(p.states[h], pending, leases, h);
    EstablishLoads(p, r, pol, now);
    MovedHolders(pending, leases, id, lid, h);
    hide Establish;
    hide Holders;
    OneLoadKeeps(p, Establish(p, r, pol, now), h, pending, leases, pending - {id}, leases[lid := h]);
  }

  lemma ReleaseKeeps(p: Pool, h: Handle, now: Time, id: nat, pending: map<nat, Handle>, leases: map<nat, Handle>)
    requires Conserved(p, pending, leases) && id in leases && leases[id] == h && h in p.states
    ensures Conserved(ReleaseLease(p, h, now), pending, leases - {id})
    ensures p.leased > 0 && p.states[h].leases > 0
  {
    assert Counted(p.states[h], pending, leases, h);
    forall g ensures |Holders(leases - {id}, g)| == |Holders(leases, g)| - (if g == h then 1 else 0) {
      RemoveHolder(leases, id, g);
    }
    RemoveHolder(leases, id, h);
    assert id in Holders(leases, h);
    OneLoadKeeps(p, ReleaseLease(p, h, now), h, pending, leases, pending, leases - {id});
  }

  // ---------------------------------------------------------------------
  // The steps that move no connection.

  lemma MildLoads(p: Pool, q: Pool, now: Time)
    requires Mild(p, q, now)
    ensures SameLoads(p, q)
  {
    hide MildBatches;
    hide MildCooldowns;
    hide RingsValid;
    forall h | h in p.states ensures q.states[h].leases == p.states[h].leases
        && q.states[h].pendingLeases == p.states[h].pendingLeases {
      assert SameButTunnel(p.states[h], q.states[h], now);
    }
  }

  lemma ReconciledLoads(p: Pool, q: Pool)
    requires Reconciled(p, q)
    ensures SameLoads(p, q)
  {
    forall h | h in q.states
      ensures h in p.states ==> q.states[h].leases == p.states[h].leases
                                && q.states[h].pendingLeases == p.states[h].pendingLeases
      ensures h !in p.states ==> q.states[h].leases == 0 && q.states[h].pendingLeases == 0
    {
      if h in p.states {
        assert Respecced(p.states[h], q.states[h]);
      } else {
        assert FreshRelay(p, q, h);
      }
    }
  }

  /** The step neither starts nor ends an acquisition or a lease. */
  predicate MovesNothing(step: Step) {
    !step.Picking? && !step.Establishing? && !step.RollingBack? && !step.Releasing?
  }

  lemma HousekeepLoads(p: Pool, now: Time)
    ensures SameLoads(p, Housekeep(p, now))
  {
    ExpireIsMild(p, now);
    MildLoads(p, Expire(p, now), now);
    hide Expire;
    hide Mild;
    hide IdleTooLong;
  }

  lemma BeginLoads(p: Pool, t: TunnelOf, victim: Handle, now: Time)
    requires MayOpen(p, t)
    ensures SameLoads(p, OpenTunnel(p, t, victim, now))
  {
    hide Mild;
    hide BeginOpen;
    hide ReserveCapacity;
    hide BudgetAvailable;
    hide MarkOpening;
    BeginShape(p, victim, now);
    CapacityIsMild(p, victim, now);
    var q, b := ReserveCapacity(p, victim).0, BeginOpen(p, now, victim).0;
    MildLoads(p, q, now);
    MarkLoads(b, t);
    assert SameLoads(p, b);
  }

  lemma MarkLoads(p: Pool, t: TunnelOf)
    requires MayOpen(p, t) || TunnelExists(p, t)
    ensures SameLoads(p, MarkOpening(p, t, true))
  {}

  lemma SmallLoads(p: Pool, t: TunnelOf, ok: bool, name: string, now: Time)
    requires p.Wf() && TunnelExists(p, t)
    ensures SameLoads(p, MarkOpening(p, t, ok)) && SameLoads(p, FinishOpen(p, t, ok, now))
    ensures SameLoads(p, DropSession(p, name)) && SameLoads(p, RollbackOpen(p)) && SameLoads(p, CommitOpen(p, now))
  {
    hide Backoff;
    hide Pool.Wf;
  }

  lemma PreferLoads(p: Pool, praise: Praise, now: Time)
    ensures SameLoads(p, Prefer(p, praise, now).0)
  {
    hide Remember;
  }

  lemma ReportLoads(p: Pool, c: Complaint, now: Time)
    requires p.Wf()
    ensures SameLoads(p, Report(p, c, now).0)
  {
    hide ReleaseEverywhere;
    hide Cooled;
    hide Unpreferred;
    match ReportedSlot(p, c)
    case Err(_) =>
    case Ok(id) => assert p.slots[id] in p.states;
  }

  lemma MeasureLoads(p: Pool, h: Handle, ip: Addr, checkedAt: Time, probed: bool, now: Time)
    requires h in p.states
    ensures SameLoads(p, Measure(p, h, ip, checkedAt, probed, now))
  {
    hide Backfilled;
  }

  lemma RestoreLoads(p: Pool, scope: string, e: PreferredExit, ip: Addr, until: Time, now: Time)
    ensures SameLoads(p, RestorePreference(p, scope, e, now)) && SameLoads(p, RestoreCooldown(p, scope, ip, until, now))
  {
    hide Remember;
    hide Cooled;
  }

  lemma EntryLoads(p: Pool, i: nat, now: Time)
    requires i < |p.entries|
    ensures SameLoads(p, FailEntry(p, i, now))
  {
    hide Backoff;
  }

  lemma ExpireLoads(p: Pool, now: Time)
    ensures SameLoads(p, Expire(p, now))
  {
    ExpireIsMild(p, now);
    MildLoads(p, Expire(p, now), now);
  }

  lemma ReconcileLoads(p: Pool, specs: seq<Spec>, done: set<string>)
    requires p.Wf()
    ensures SameLoads(p, Reconcile(p, specs, done).0)
  {
    ReconcileKeeps(p, specs, done);
    ReconciledLoads(p, Reconcile(p, specs, done).0);
  }

  lemma FailureLoads(p: Pool, h: Handle, now: Time)
    requires h in p.states
    ensures SameLoads(p, NoteFailure(p, h, now))
  {
    hide Backoff;
  }

  lemma CountingLoads(p: Pool, h: Handle, now: Time)
    ensures SameLoads(p, TrimOpens(p, now)) && (h in p.states ==> SameLoads(p, CountFailure(p, h)))
  {
  }

  lemma QuietLoads(s: System, step: Step)
    requires Base(s) && Enabled(s, step) && MovesNothing(step)
    ensures SameLoads(s.pool, PoolAfter(s, step))
  {
    hide Pick;
    hide Establish;
    hide Rollback;
    hide ReleaseLease;
    hide NoteFailure;
    hide DropSession;
    hide Report;
    hide Prefer;
    hide Measure;
    hide RestorePreference;
    hide RestoreCooldown;
    hide Housekeep;
    hide Expire;
    hide Reconcile;
    hide OpenTunnel;
    hide RollbackOpen;
    hide MarkOpening;
    hide CommitOpen;
    hide FinishOpen;
    hide FailEntry;
    hide CountFailure;
    hide TrimOpens;
    hide SameLoads;
    hide Pool.Wf;
    var p := s.pool;
    match step
    case FailingSlot(h, now) => FailureLoads(p, h, now);
    case DroppingSession(name) => SmallLoads(p, ProbeTunnel, false, name, ZERO_TIME);
    case Reporting(c, now) => ReportLoads(p, c, now);
    case Preferring(c, now) => PreferLoads(p, c, now);
    case Measuring(h, ip, checkedAt, probed, now) => MeasureLoads(p, h, ip, checkedAt, probed, now);
    case RestoringPreference(scope, e, now) => RestoreLoads(p, scope, e, NoAddr, ZERO_TIME, now);
    case RestoringCooldown(scope, ip, until, now) => RestoreLoads(p, scope, PreferredExit("", NoAddr, now), ip, until,
        now);
    case Housekeeping(now) => HousekeepLoads(p, now);
    case Saving(now) => ExpireLoads(p, now);
    case Reconciling(specs, done) => ReconcileLoads(p, specs, done);
    case Opening(t, victim, now) => BeginLoads(p, t, victim, now);
    case CallingOff(_) => SmallLoads(p, ProbeTunnel, false, "", ZERO_TIME);
    case Abandoning(id) => SmallLoads(p, s.openers[id].tunnel, false, "", ZERO_TIME);
    case Charging(_, now) => SmallLoads(p, ProbeTunnel, false, "", now);
    case Opened(id, ok, now) => SmallLoads(p, s.openers[id].tunnel, ok, "", now);
    case ClosingProbe(_) => SmallLoads(p, ProbeTunnel, false, "", ZERO_TIME);
    case FailingEntry(i, now) => EntryLoads(p, i, now);
    case FailingProbe(h) => CountingLoads(p, h, ZERO_TIME);
    case Trimming(now) => CountingLoads(p, 0, now);
  }

  // ---------------------------------------------------------------------
  // Whole runs.

  ghost predicate Accounted(s: System) {
    Conserved(s.pool, Pending(s.inflight), s.leases) && Capped(s.pool)
  }

  lemma ChosenHasRoom(p: Pool, pol: Policy, target: string, now: Time, h: Handle, origin: Origin)
    requires ChosenFrom(p, pol, target, now, h, origin)
    ensures h in p.states
    ensures p.opts.maxConnsPerExit > 0 ==> p.states[h].Load() < p.opts.maxConnsPerExit
  {
    hide ContainsFold;
    hide BatchExcludes;
  }

  lemma ReservedCapped(p: Pool, pol: Policy, h: Handle, now: Time)
    requires Capped(p) && h in p.states
    requires p.opts.maxConnsPerExit > 0 ==> p.states[h].Load() < p.opts.maxConnsPerExit
    requires p.opts.maxConcurrentConns > 0 ==> p.leased + p.pendingLeases < p.opts.maxConcurrentConns
    ensures Capped(Reserved(p, pol, h, now))
  {
    ReservedLoads(p, pol, h, now);
    hide Reserved;
  }

  lemma ChoiceAccounts(p: Pool, chosenIn: Pool, q: Pool, pol: Policy, target: string, now: Time, c: Choice,
                       id: nat, pending: map<nat, Handle>, leases: map<nat, Handle>)
    requires Mild(p, q, now) && Mild(chosenIn, q, now) && ChosenFrom(chosenIn, pol, target, now, c.state, c.origin)
    requires Conserved(p, pending, leases) && Capped(p) && id !in pending
    requires forall k :: k in pending ==> pending[k] in p.states
    requires forall k :: k in leases ==> leases[k] in p.states
    requires p.opts.maxConcurrentConns > 0 ==> p.leased + p.pendingLeases < p.opts.maxConcurrentConns
    ensures Conserved(Reserved(q, pol, c.state, now), pending[id := c.state], leases)
            && Capped(Reserved(q, pol, c.state, now))
  {
    ChosenHasRoom(chosenIn, pol, target, now, c.state, c.origin);
    MildLoads(p, q, now);
    MildLoads(chosenIn, q, now);
    hide Mild;
    hide ChosenFrom;
    SameLoadsKeep(p, q, pending, leases);
    ReserveKeeps(q, pol, c.state, now, id, pending, leases);
    ReservedCapped(q, pol, c.state, now);
  }

  lemma PendingAfterGrant(inflight: map<nat, Inflight>, id: nat, f: Inflight)
    ensures Pending(inflight[id := f]) == Pending(inflight)[id := f.reservation.state]
  {}

  lemma BaseHolders(s: System)
    requires Base(s)
    ensures s.nextID !in Pending(s.inflight)
    ensures forall k :: k in Pending(s.inflight) ==> Pending(s.inflight)[k] in s.pool.states
    ensures forall k :: k in s.leases ==> s.leases[k] in s.pool.states
    ensures s.pool.Wf()
  {
    hide Pool.Wf;
  }

  lemma SelectionAccounts(p: Pool, pol: Policy, requested: string, now: Time, luck: Luck, id: nat,
                          pending: map<nat, Handle>, leases: map<nat, Handle>)
    requires p.Wf() && Conserved(p, pending, leases) && Capped(p) && id !in pending
    requires forall k :: k in pending ==> pending[k] in p.states
    requires forall k :: k in leases ==> leases[k] in p.states
    ensures var r := Pick(p, pol, requested, now, luck);
            var after := if r.1.Ok? then pending[id := r.1.value.reservation.state] else pending;
            Conserved(r.0, after, leases) && Capped(r.0)
  {
    hide Pick;
    hide Shaped;
    hide Mild;
    hide Pool.Wf;
    hide Conserved;
    hide Capped;
    hide Reserved;
    hide ChosenFrom;
    hide Refusal;
    hide Ticket;
    var target := Scope(pol, requested);
    var chosenIn, q := PickShape(p, pol, requested, now, luck);
    var r := Pick(p, pol, requested, now, luck);
    if r.1.Ok? {
      GrantedShape(p, chosenIn, q, pol, target, now, r);
      ChoiceAccounts(p, chosenIn, q, pol, target, now, r.1.value, id, pending, leases);
    } else {
      DeniedShape(p, chosenIn, q, pol, target, now, r);
      MildLoads(p, r.0, now);
      SameLoadsKeep(p, r.0, pending, leases);
    }
  }

  lemma PickAccounts(s: System, step: Step)
    requires Base(s) && Accounted(s) && step.Picking?
    ensures var p := Pick(s.pool, step.pol, step.target, step.now, step.luck).0;
            Conserved(p, Pending(InflightAfter(s, step)), s.leases) && Capped(p)
  {
    BaseHolders(s);
    hide Base;
    hide Pick;
    hide Pool.Wf;
    hide Conserved;
    hide Capped;
    SelectionAccounts(s.pool, step.pol, step.target, step.now, step.luck, s.nextID, Pending(s.inflight), s.leases);
    if Chosen(s, step).Some? {
      PendingAfterGrant(s.inflight, s.nextID, Inflight(Chosen(s, step).value.reservation, step.pol));
    }
    hide Pending;
  }

  lemma MoveAccounts(s: System, step: Step)
    requires Base(s) && Accounted(s) && Enabled(s, step)
    requires step.Establishing? || step.RollingBack? || step.Releasing?
    ensures Conserved(PoolAfter(s, step), Pending(InflightAfter(s, step)), LeasesAfter(s, step))
            && Capped(PoolAfter(s, step))
  {
    var p, pending := s.pool, Pending(s.inflight);
    hide Pool.Wf;
    hide Conserved;
    match step
    case Establishing(id, now) =>
      var f := s.inflight[id];
      EstablishKeeps(p, f.reservation, f.pol, now, id, s.nextID, pending, s.leases);
      assert Pending(InflightAfter(s, step)) == pending - {id};
      MovedCapped(p, f.reservation, f.pol, f.reservation.state, now);
    case RollingBack(id) =>
      var f := s.inflight[id];
      RollbackKeeps(p, f.reservation, id, pending, s.leases);
      assert Pending(InflightAfter(s, step)) == pending - {id};
      MovedCapped(p, f.reservation, f.pol, f.reservation.state, ZERO_TIME);
    case Releasing(id, now) =>
      ReleaseKeeps(p, s.leases[id], now, id, pending, s.leases);
      MovedCapped(p, Reservation(None, "", s.leases[id]), EMPTY_POLICY, s.leases[id], now);
  }

  /** Ending an acquisition or a lease never uses more capacity. */
  lemma MovedCapped(p: Pool, r: Reservation, pol: Policy, h: Handle, now: Time)
    requires Capped(p) && h in p.states && r.state == h
    ensures p.pendingLeases > 0 && p.states[h].pendingLeases > 0 ==> Capped(Establish(p, r, pol, now))
    ensures Capped(Rollback(p, r)) && Capped(ReleaseLease(p, h, now))
  {
    hide Unhold;
    hide ReleaseIn;
  }

  lemma AccountedStep(s: System, step: Step)
    requires Base(s) && Accounted(s) && Enabled(s, step)
    ensures Accounted(After(s, step))
  {
    hide Pool.Wf;
    hide Pick;
    hide Conserved;
    hide Capped;
    hide Enabled;
    hide GrantsAfter;
    hide TaintedAfter;
    hide BansAfter;
    hide OpenersAfter;
    assert step.Picking? ==> PoolAfter(s, step) == Pick(s.pool, step.pol, step.target, step.now, step.luck).0;
    hide PoolAfter;
    if step.Picking? {
      PickAccounts(s, step);
    } else if MovesNothing(step) {
      QuietLoads(s, step);
      BaseHolders(s);
      SameLoadsKeep(s.pool, PoolAfter(s, step), Pending(s.inflight), s.leases);
    } else {
      MoveAccounts(s, step);
    }
    hide Base;
  }

  lemma InitialAccounted(s: System)
    requires Initial(s)
    ensures Accounted(s)
  {
    InitialBase(s);
    InitialIdle(s);
    hide Initial;
    hide Base;
    assert Pending(s.inflight) == map[];
    NewIsAccounted(s.pool);
  }

  lemma NewIsAccounted(p: Pool)
    requires BrandNew(p)
    ensures Conserved(p, map[], map[]) && Capped(p)
  {
    forall h | h in p.states ensures Counted(p.states[h], map[], map[], h) {
      assert Holders(map[], h) == {};
    }
  }

  lemma InitialIdle(s: System)
    requires Initial(s)
    ensures s.inflight == map[] && s.leases == map[]
  {}

  lemma {:induction false} AlwaysAccounted(states: seq<System>, steps: seq<Step>, i: nat)
    requires Run(states, steps) && i < |states|
    ensures Base(states[i]) && Accounted(states[i])
  {
    hide Base;
    hide Accounted;
    hide Initial;
    ReachableIsWellFormed(states, steps, i);
    if i == 0 {
      InitialAccounted(states[0]);
    } else {
      AlwaysAccounted(states, steps, i - 1);
      assert Next(states[i - 1], steps[i - 1], states[i]);
      BaseIsWf(states[i - 1]);
      AccountedStep(states[i - 1], steps[i - 1]);
    }
  }

  // ---------------------------------------------------------------------
  // Totals over the whole store, detached states included.

  /** The sum of a counter over the first `n` handles. */
  function Total(counts: map<Handle, nat>, n: nat): nat {
    if n == 0 then 0 else Total(counts, n - 1) + (if n - 1 in counts then counts[n - 1] else 0)
  }

  function LeaseCounts(p: Pool): map<Handle, nat> { map h | h in p.states.Keys :: p.states[h].leases }

  function PendingCounts(p: Pool): map<Handle, nat> { map h | h in p.states.Keys :: p.states[h].pendingLeases }

  /** The identifiers that hold one of the first `n` states. */
  function HoldersBelow(m: map<nat, Handle>, n: nat): set<nat> {
    set id | id in m.Keys && m[id] < n
  }

  lemma {:induction false} TotalCountsHolders(counts: map<Handle, nat>, m: map<nat, Handle>, n: nat)
    requires forall h :: h in counts ==> counts[h] == |Holders(m, h)|
    requires forall id :: id in m ==> m[id] in counts
    ensures Total(counts, n) == |HoldersBelow(m, n)|
  {
    if n > 0 {
      TotalCountsHolders(counts, m, n - 1);
      assert HoldersBelow(m, n) == HoldersBelow(m, n - 1) + Holders(m, n - 1);
      assert HoldersBelow(m, n - 1) * Holders(m, n - 1) == {};
      if n - 1 !in counts {
        assert Holders(m, n - 1) == {};
        assert HoldersBelow(m, n) == HoldersBelow(m, n - 1);
      }
    } else {
      assert HoldersBelow(m, n) == {};
    }
  }

  lemma TotalOfStore(p: Pool, counts: map<Handle, nat>, m: map<nat, Handle>)
    requires p.Wf() && counts.Keys == p.states.Keys
    requires forall h :: h in counts ==> counts[h] == |Holders(m, h)|
    requires forall id :: id in m ==> m[id] in p.states
    ensures Total(counts, p.nextHandle) == |m|
  {
    TotalCountsHolders(counts, m, p.nextHandle);
    assert HoldersBelow(m, p.nextHandle) == m.Keys;
  }

  /** In every reachable state the pool's counters equal the connections held and the
      acquisitions under way, and equal the sums over all slot states, those detached
      by a reconciliation included; the configured limits hold. */
  lemma LeasesAreConserved(states: seq<System>, steps: seq<Step>, i: nat)
    requires Run(states, steps) && i < |states|
    ensures var s := states[i];
            && s.pool.leased == |s.leases| == Total(LeaseCounts(s.pool), s.pool.nextHandle)
            && s.pool.pendingLeases == |s.inflight| == Total(PendingCounts(s.pool), s.pool.nextHandle)
            && (s.pool.opts.maxConcurrentConns > 0 ==> |s.leases| + |s.inflight| <= s.pool.opts.maxConcurrentConns)
            && (s.pool.opts.maxConnsPerExit > 0 ==>
                  forall h :: h in s.pool.states ==>
                    |Holders(s.leases, h)| + |Holders(Pending(s.inflight), h)| <= s.pool.opts.maxConnsPerExit)
  {
    AlwaysAccounted(states, steps, i);
    AccountedTotals(states[i]);
  }

  lemma AccountedTotals(s: System)
    requires Base(s) && Accounted(s)
    ensures s.pool.leased == |s.leases| == Total(LeaseCounts(s.pool), s.pool.nextHandle)
    ensures s.pool.pendingLeases == |s.inflight| == Total(PendingCounts(s.pool), s.pool.nextHandle)
    ensures s.pool.opts.maxConcurrentConns > 0 ==> |s.leases| + |s.inflight| <= s.pool.opts.maxConcurrentConns
    ensures s.pool.opts.maxConnsPerExit > 0 ==>
              forall h :: h in s.pool.states ==>
                |Holders(s.leases, h)| + |Holders(Pending(s.inflight), h)| <= s.pool.opts.maxConnsPerExit
  {
    var p, pending := s.pool, Pending(s.inflight);
    assert pending.Keys == s.inflight.Keys && |pending| == |s.inflight|;
    forall h | h in p.states ensures Counted(p.states[h], pending, s.leases, h) {}
    TotalOfStore(p, LeaseCounts(p), s.leases);
    TotalOfStore(p, PendingCounts(p), pending);
  }

  /** Whenever a counter is about to be decremented it is positive, so the guards
      against going below zero never matter. */
  lemma GuardsNeverMatter(states: seq<System>, steps: seq<Step>, i: nat)
    requires Run(states, steps) && i < |steps|
    ensures var p := states[i].pool;
            match steps[i]
            case Establishing(id, _) =>
              id in states[i].inflight && p.pendingLeases > 0
                  && p.At(states[i].inflight[id].reservation.state).pendingLeases > 0
            case RollingBack(id) =>
              id in states[i].inflight && p.pendingLeases > 0
                  && p.At(states[i].inflight[id].reservation.state).pendingLeases > 0
            case Releasing(id, _) =>
              id in states[i].leases && p.leased > 0 && p.At(states[i].leases[id]).leases > 0
            case _ => true
  {
    AlwaysAccounted(states, steps, i);
    var s, p := states[i], states[i].pool;
    var pending := Pending(s.inflight);
    assert Next(states[i], steps[i], states[i + 1]);
    hide Pool.Wf;
    match steps[i]
    case Establishing(id, now) => RollbackKeeps(p, s.inflight[id].reservation, id, pending, s.leases);
    case RollingBack(id) => RollbackKeeps(p, s.inflight[id].reservation, id, pending, s.leases);
    case Releasing(id, now) => ReleaseKeeps(p, s.leases[id], now, id, pending, s.leases);
    case _ =>
  }
}
