/** What the pool remembers about destinations over whole runs: cooled addresses stay
    cooled until their time, and the rings of last-good exits stay in order. */
module MemoryRuns {
  import opened Common
  import opened Cyclic
  import opened PolicyTypes
  import opened Batches
  import opened Preferred
  import opened PoolState
  import opened Selection
  import opened SelectionExact
  import opened PoolSystem
  import opened WellFormed

  // ---------------------------------------------------------------------
  // Steps that leave both memories alone.

  ghost predicate SameMemory(p: Pool, q: Pool) {
    q.ipCooldowns == p.ipCooldowns && q.preferred == p.preferred && q.opts == p.opts
  }

  predicate TouchesMemory(step: Step) {
    || step.Picking? || step.Reporting? || step.Preferring? || step.RestoringPreference? || step.RestoringCooldown?
    || step.Housekeeping? || step.Saving?
  }

  lemma LeaseMemory(p: Pool, r: Reservation, pol: Policy, h: Handle, now: Time)
    ensures SameMemory(p, Establish(p, r, pol, now)) && SameMemory(p, Rollback(p, r))
            && SameMemory(p, ReleaseLease(p, h, now))
    ensures SameMemory(p, NoteFailure(p, h, now)) && SameMemory(p, DropSession(p, pol.session))
  {
    hide Unhold;
    hide ReleaseIn;
    hide Backoff;
  }

  lemma MeasureMemory(p: Pool, h: Handle, ip: Addr, at: Time, probed: bool, now: Time)
    ensures SameMemory(p, Measure(p, h, ip, at, probed, now))
  {
    hide Backfilled;
  }

  lemma ReconcileMemory(p: Pool, specs: seq<Spec>, done: set<string>)
    requires p.Wf()
    ensures SameMemory(p, Reconcile(p, specs, done).0)
  {
    hide Reconcile;
    ReconcileKeeps(p, specs, done);
    hide Pool.Wf;
  }

  lemma OpeningMemory(p: Pool, t: TunnelOf, victim: Handle, now: Time)
    ensures SameMemory(p, OpenTunnel(p, t, victim, now))
  {
    hide BeginOpen;
    hide ReserveCapacity;
    hide BudgetAvailable;
    hide MarkOpening;
    BeginShape(p, victim, now);
    TunnelMemory(BeginOpen(p, now, victim).0, t, true, 0, now);
  }

  lemma TunnelMemory(p: Pool, t: TunnelOf, ok: bool, i: nat, now: Time)
    ensures SameMemory(p, MarkOpening(p, t, ok)) && SameMemory(p, FinishOpen(p, t, ok, now))
    ensures SameMemory(p, RollbackOpen(p)) && SameMemory(p, CommitOpen(p, now))
    ensures i < |p.entries| ==> SameMemory(p, FailEntry(p, i, now))
  {
    MarkMemory(p, t, ok);
    FinishMemory(p, t, ok, now);
    hide MarkOpening;
    hide FinishOpen;
    hide Backoff;
  }

  lemma MarkMemory(p: Pool, t: TunnelOf, opening: bool)
    ensures SameMemory(p, MarkOpening(p, t, opening))
  {}

  lemma FinishMemory(p: Pool, t: TunnelOf, ok: bool, now: Time)
    ensures SameMemory(p, FinishOpen(p, t, ok, now))
  {
    hide Backoff;
  }

  lemma CountingMemory(p: Pool, h: Handle, now: Time)
    ensures SameMemory(p, TrimOpens(p, now)) && SameMemory(p, CountFailure(p, h))
  {
  }

  lemma QuietMemory(s: System, step: Step)
    requires Base(s) && Enabled(s, step) && !TouchesMemory(step)
    ensures SameMemory(s.pool, PoolAfter(s, step))
  {
    hide Pick;
    hide Establish;
    hide Rollback;
    hide ReleaseLease;
    hide NoteFailure;
    hide DropSession;
    hide Report;
    hide Prefer;
    hide Measure;
    hide RestorePreference;
    hide RestoreCooldown;
    hide Housekeep;
    hide Expire;
    hide Reconcile;
    hide OpenTunnel;
    hide RollbackOpen;
    hide MarkOpening;
    hide CommitOpen;
    hide FinishOpen;
    hide FailEntry;
    hide CountFailure;
    hide TrimOpens;
    hide SameMemory;
    hide Pool.Wf;
    var p, none := s.pool, Reservation(None, "", 0);
    match step
    case Establishing(id, now) => LeaseMemory(p, s.inflight[id].reservation, s.inflight[id].pol, 0, now);
    case RollingBack(id) => LeaseMemory(p, s.inflight[id].reservation, EMPTY_POLICY, 0, ZERO_TIME);
    case Releasing(id, now) => LeaseMemory(p, none, EMPTY_POLICY, s.leases[id], now);
    case FailingSlot(h, now) => LeaseMemory(p, none, EMPTY_POLICY, h, now);
    case DroppingSession(name) => LeaseMemory(p, none, EMPTY_POLICY.(session := name), 0, ZERO_TIME);
    case Measuring(h, ip, at, probed, now) => MeasureMemory(p, h, ip, at, probed, now);
    case Reconciling(specs, done) => ReconcileMemory(p, specs, done);
    case Opening(t, victim, now) => OpeningMemory(p, t, victim, now);
    case CallingOff(_) => TunnelMemory(p, ProbeTunnel, false, 0, ZERO_TIME);
    case Abandoning(id) => TunnelMemory(p, s.openers[id].tunnel, false, 0, ZERO_TIME);
    case Charging(_, now) => TunnelMemory(p, ProbeTunnel, false, 0, now);
    case Opened(id, ok, now) => TunnelMemory(p, s.openers[id].tunnel, ok, 0, now);
    case ClosingProbe(_) => TunnelMemory(p, ProbeTunnel, false, 0, ZERO_TIME);
    case FailingEntry(i, now) => TunnelMemory(p, ProbeTunnel, false, i, now);
    case FailingProbe(h) => CountingMemory(p, h, ZERO_TIME);
    case Trimming(now) => CountingMemory(p, 0, now);
  }

  // ---------------------------------------------------------------------
  // Cooldowns dominate.

  type Cooldowns = map<(string, Addr), Time>

  /** A reported address is recorded until its time, or longer. */
  ghost predicate Holds(m: Cooldowns, b: Ban, clock: Time) {
    clock < b.until ==> (b.scope, b.ip) in m && m[(b.scope, b.ip)] >= b.until
  }

  ghost predicate AllHold(m: Cooldowns, bans: set<Ban>, clock: Time) {
    && (forall b :: b in bans ==> b.scope != "" && b.ip != NoAddr)
    && forall b :: b in bans ==> Holds(m, b, clock)
  }

  lemma CooledHolds(m: Cooldowns, scope: string, ip: Addr, until: Time, bans: set<Ban>, clock: Time)
    requires AllHold(m, bans, clock)
    ensures AllHold(Cooled(m, scope, ip, until), bans, clock)
  {
    forall b | b in bans ensures Holds(Cooled(m, scope, ip, until), b, clock) {
      assert Holds(m, b, clock);
    }
  }

  /** The new ban itself is recorded. */
  lemma NewBanHolds(m: Cooldowns, scope: string, ip: Addr, until: Time, clock: Time)
    requires scope != "" && ip != NoAddr && clock >= ZERO_TIME
    ensures Holds(Cooled(m, scope, ip, until), Ban(scope, ip, until), clock)
  {}

  lemma LaterHolds(m: Cooldowns, bans: set<Ban>, clock: Time, later: Time)
    requires AllHold(m, bans, clock) && clock <= later
    ensures AllHold(m, bans, later)
  {
    forall b | b in bans ensures Holds(m, b, later) {
      assert Holds(m, b, clock);
    }
  }

  /** Dropping what has lapsed keeps every ban that has not. */
  lemma MildHolds(p: Pool, q: Pool, now: Time, bans: set<Ban>, clock: Time)
    requires MildCooldowns(p, q, now) && AllHold(p.ipCooldowns, bans, clock)
    ensures AllHold(q.ipCooldowns, bans, Max(clock, now))
  {
    forall b | b in bans ensures Holds(q.ipCooldowns, b, Max(clock, now)) {
      assert Holds(p.ipCooldowns, b, clock);
    }
  }

  lemma ReservedMemory(p: Pool, pol: Policy, h: Handle, now: Time)
    ensures SameMemory(p, Reserved(p, pol, h, now))
  {}

  lemma PickMemory(p: Pool, pol: Policy, requested: string, now: Time, luck: Luck)
    requires p.Wf()
    ensures MildCooldowns(p, Pick(p, pol, requested, now, luck).0, now)
    ensures RingsValid(p) ==> RingsValid(Pick(p, pol, requested, now, luck).0)
  {
    hide Pick;
    hide Shaped;
    hide MildStates;
    hide MildBatches;
    hide MildCooldowns;
    hide RingsValid;
    hide Pool.Wf;
    hide Reserved;
    hide ChosenFrom;
    hide Refusal;
    var chosenIn, q := PickShape(p, pol, requested, now, luck);
    var r := Pick(p, pol, requested, now, luck);
    if r.1.Ok? {
      GrantedShape(p, chosenIn, q, pol, Scope(pol, requested), now, r);
      ReservedMemory(q, pol, r.1.value.state, now);
      CooldownsSame(q, r.0, now);
      CooldownsTransitive(p, q, r.0, now);
      RingsSame(q, r.0);
    } else {
      DeniedShape(p, chosenIn, q, pol, Scope(pol, requested), now, r);
    }
  }

  lemma HousekeepMemory(p: Pool, now: Time)
    ensures MildCooldowns(p, Expire(p, now), now) && MildCooldowns(p, Housekeep(p, now), now)
    ensures RingsValid(p) ==> RingsValid(Expire(p, now)) && RingsValid(Housekeep(p, now))
  {
    ExpireIsMild(p, now);
    hide MildStates;
    hide MildBatches;
    hide Expire;
    hide IdleTooLong;
    RingsSame(Expire(p, now), Housekeep(p, now));
  }

  lemma ReportMemory(p: Pool, c: Complaint, now: Time)
    ensures var q := Report(p, c, now).0;
            && q.opts == p.opts
            && match ReportedSlot(p, c)
               case Err(_) => q == p
               case Ok(id) =>
                 && q.ipCooldowns == Cooled(p.ipCooldowns, c.target, p.Slot(id).publicIP, now + CooldownOf(p, c))
                 && q.preferred == Unpreferred(p.preferred, c.target, p.Slot(id).publicIP)
  {
    hide ReleaseEverywhere;
    hide Cooled;
    hide Unpreferred;
  }

  lemma PraiseMemory(p: Pool, praise: Praise, scope: string, e: PreferredExit, ip: Addr, until: Time, now: Time)
    ensures Prefer(p, praise, now).0.ipCooldowns == p.ipCooldowns
            && RestorePreference(p, scope, e, now).ipCooldowns == p.ipCooldowns
    ensures var q := RestoreCooldown(p, scope, ip, until, now);
            && q.preferred == p.preferred && q.opts == p.opts
            && (q.ipCooldowns == p.ipCooldowns || q.ipCooldowns == Cooled(p.ipCooldowns, scope, ip, until))
  {
    hide Remember;
    hide Cooled;
  }

  lemma ReportBans(s: System, c: Complaint, now: Time)
    requires AllHold(s.pool.ipCooldowns, s.bans, s.clock) && s.clock <= now && s.clock > ZERO_TIME
    ensures AllHold(Report(s.pool, c, now).0.ipCooldowns, BansAfter(s, Reporting(c, now)), now)
  {
    ReportMemory(s.pool, c, now);
    hide Report;
    LaterHolds(s.pool.ipCooldowns, s.bans, s.clock, now);
    match ReportedSlot(s.pool, c)
    case Err(_) =>
    case Ok(id) =>
      var ip, until := s.pool.Slot(id).publicIP, now + CooldownOf(s.pool, c);
      CooledHolds(s.pool.ipCooldowns, c.target, ip, until, s.bans, now);
      if c.target != "" && ip != NoAddr { NewBanHolds(s.pool.ipCooldowns, c.target, ip, until, now); }
  }

  ghost predicate Banned(s: System) {
    s.clock > ZERO_TIME && AllHold(s.pool.ipCooldowns, s.bans, s.clock)
  }

  lemma BannedStep(s: System, step: Step)
    requires Base(s) && Enabled(s, step) && Banned(s)
    ensures AllHold(PoolAfter(s, step).ipCooldowns, BansAfter(s, step), ClockAfter(s.clock, step))
    ensures ClockAfter(s.clock, step) > ZERO_TIME
  {
    hide Pick;
    hide Establish;
    hide Rollback;
    hide ReleaseLease;
    hide NoteFailure;
    hide DropSession;
    hide Report;
    hide Prefer;
    hide Measure;
    hide RestorePreference;
    hide RestoreCooldown;
    hide Housekeep;
    hide Expire;
    hide Reconcile;
    hide OpenTunnel;
    hide RollbackOpen;
    hide MarkOpening;
    hide CommitOpen;
    hide FinishOpen;
    hide FailEntry;
    hide CountFailure;
    hide TrimOpens;
    hide Pool.Wf;
    hide AllHold;
    hide MildCooldowns;
    hide RingsValid;
    var p, clock := s.pool, ClockAfter(s.clock, step);
    var noExit, noPraise := PreferredExit("", NoAddr, ZERO_TIME), Praise("", NoAddr, "", 0);
    assert !step.Reporting? ==> BansAfter(s, step) == s.bans;
    LaterHolds(p.ipCooldowns, s.bans, s.clock, clock);
    match step
    case Picking(pol, target, now, luck) =>
      PickMemory(p, pol, target, now, luck);
      MildHolds(p, Pick(p, pol, target, now, luck).0, now, s.bans, s.clock);
    case Reporting(c, now) => ReportBans(s, c, now);
    case Preferring(c, now) => PraiseMemory(p, c, "", noExit, NoAddr, ZERO_TIME, now);
    case RestoringPreference(scope, e, now) => PraiseMemory(p, noPraise, scope, e, NoAddr, ZERO_TIME, now);
    case RestoringCooldown(scope, ip, until, now) =>
      PraiseMemory(p, noPraise, scope, noExit, ip, until, now);
      CooledHolds(p.ipCooldowns, scope, ip, until, s.bans, clock);
    case Housekeeping(now) =>
      HousekeepMemory(p, now);
      MildHolds(p, Housekeep(p, now), now, s.bans, s.clock);
    case Saving(now) =>
      HousekeepMemory(p, now);
      MildHolds(p, Expire(p, now), now, s.bans, s.clock);
    case _ => QuietMemory(s, step);
  }

  lemma InitialBanned(s: System)
    requires Initial(s)
    ensures Banned(s)
  {}

  lemma {:induction false} AlwaysBanned(states: seq<System>, steps: seq<Step>, i: nat)
    requires Run(states, steps) && i < |states|
    ensures Banned(states[i])
  {
    hide Base;
    hide AllHold;
    hide Initial;
    if i == 0 {
      InitialBanned(states[0]);
    } else {
      AlwaysBanned(states, steps, i - 1);
      ReachableIsWellFormed(states, steps, i - 1);
      assert Next(states[i - 1], steps[i - 1], states[i]);
      BaseIsWf(states[i - 1]);
      BannedStep(states[i - 1], steps[i - 1]);
      hide Pool.Wf;
      hide PoolAfter;
      hide InflightAfter;
      hide LeasesAfter;
      hide OpenersAfter;
      hide GrantsAfter;
      hide TaintedAfter;
      hide BansAfter;
      hide Enabled;
    }
  }

  lemma {:induction false} BansRemain(states: seq<System>, steps: seq<Step>, i: nat, j: nat)
    requires Run(states, steps) && i <= j < |states|
    ensures states[i].bans <= states[j].bans
    decreases j
  {
    hide Initial;
    if i < j {
      BansRemain(states, steps, i, j - 1);
      ReachableIsWellFormed(states, steps, j - 1);
      assert Next(states[j - 1], steps[j - 1], states[j]);
      BaseIsWf(states[j - 1]);
      OneMoreBan(states[j - 1], steps[j - 1]);
      hide Base;
      hide Pool.Wf;
      hide PoolAfter;
      hide InflightAfter;
      hide LeasesAfter;
      hide OpenersAfter;
      hide GrantsAfter;
      hide TaintedAfter;
      hide BansAfter;
      hide Enabled;
    }
  }

  lemma OneMoreBan(s: System, step: Step)
    ensures s.bans <= BansAfter(s, step)
  {
    hide ReportedSlot;
  }

  /** A selection never returns a member on an address that is cooling down. */
  lemma PickAvoidsCooling(p: Pool, pol: Policy, requested: string, now: Time, luck: Luck)
    requires p.Wf() && Pick(p, pol, requested, now, luck).1.Ok?
    ensures !IPCoolingDown(p, Scope(pol, requested), p.At(Pick(p, pol, requested, now, luck).1.value.state).publicIP,
            now)
  {
    SelectionIsSound(p, pol, requested, now, luck);
    hide Pick;
    hide Pool.Wf;
    hide ContainsFold;
    hide BatchExcludes;
  }

  /** An accepted report keeps its address away from every later selection for its
      destination until the cooldown is over, whatever happens in between. */
  lemma ReportedAddressStaysAway(states: seq<System>, steps: seq<Step>, j: nat, i: nat)
    requires Run(states, steps) && j < i < |steps|
    requires steps[j].Reporting? && steps[i].Picking?
    requires var c := steps[j].complaint;
             && c.target != "" && c.target == Scope(steps[i].pol, steps[i].target)
             && ReportedSlot(states[j].pool, c).Ok?
             && states[j].pool.Slot(ReportedSlot(states[j].pool, c).value).publicIP != NoAddr
             && steps[i].now < steps[j].now + CooldownOf(states[j].pool, c)
    ensures var ip := states[j].pool.Slot(ReportedSlot(states[j].pool, steps[j].complaint).value).publicIP;
            states[i].pool.Wf() && match Pick(states[i].pool, steps[i].pol, steps[i].target, steps[i].now,
                steps[i].luck).1
              case Ok(c) => states[i].pool.At(c.state).publicIP != ip
              case Err(_) => true
  {
    hide Initial;
    var p, c, at := states[j].pool, steps[j].complaint, steps[j].now;
    var ip := p.Slot(ReportedSlot(p, c).value).publicIP;
    var ban := Ban(c.target, ip, at + CooldownOf(p, c));
    assert ban in states[i].bans by { BanIsKept(states, steps, j, i, ban); }
    ReachableIsWellFormed(states, steps, i);
    BaseIsWf(states[i]);
    AlwaysBanned(states, steps, i);
    assert Next(states[i], steps[i], states[i + 1]);
    assert states[i].clock <= steps[i].now;
    hide Run;
    hide Base;
    hide Pool.Wf;
    hide Next;
    hide Pick;
    hide ReportedSlot;
    BanExcludes(states[i], steps[i], ban);
  }

  lemma BanIsKept(states: seq<System>, steps: seq<Step>, j: nat, i: nat, ban: Ban)
    requires Run(states, steps) && j < i < |states| && steps[j].Reporting?
    requires ban in BansAfter(states[j], steps[j])
    ensures ban in states[i].bans
  {
    hide Initial;
    ReachableIsWellFormed(states, steps, j);
    BaseIsWf(states[j]);
    assert Next(states[j], steps[j], states[j + 1]);
    BansRemain(states, steps, j + 1, i);
    hide Base;
    hide Pool.Wf;
    hide PoolAfter;
    hide InflightAfter;
    hide LeasesAfter;
    hide OpenersAfter;
    hide GrantsAfter;
    hide TaintedAfter;
    hide BansAfter;
    hide Enabled;
  }

  lemma BanExcludes(s: System, step: Step, ban: Ban)
    requires s.pool.Wf() && Banned(s) && ban in s.bans && step.Picking? && s.clock <= step.now < ban.until
    requires ban.scope == Scope(step.pol, step.target)
    ensures match Pick(s.pool, step.pol, step.target, step.now, step.luck).1
            case Ok(c) => s.pool.At(c.state).publicIP != ban.ip
            case Err(_) => true
  {
    assert Holds(s.pool.ipCooldowns, ban, s.clock);
    if Pick(s.pool, step.pol, step.target, step.now, step.luck).1.Ok? {
      PickAvoidsCooling(s.pool, step.pol, step.target, step.now, step.luck);
    }
    hide Pick;
    hide Pool.Wf;
  }
}
