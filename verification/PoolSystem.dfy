/** Whole runs of the pool: every critical section is one step, and any number of
    acquisitions, leases and tunnel openings are under way in between. The last four
    fields record history; no step reads them. */
module PoolSystem {
  import opened Common
  import opened PolicyTypes
  import opened Batches
  import opened Preferred
  import opened PoolState

  /** An acquisition between selection and commit or rollback. */
  datatype Inflight = Inflight(reservation: Reservation, pol: Policy)

  datatype TunnelOf = SlotTunnel(h: Handle) | EntryTunnel(i: nat) | ProbeTunnel

  /** An opening first holds its reservations, then is either called off or charged,
      and a probe keeps its tunnel until it is closed. */
  datatype Phase = Waiting | CalledOff | Charged | Up

  datatype Opener = Opener(tunnel: TunnelOf, phase: Phase)

  /** A slot granted to a batch generation, with the address it had when selected. */
  datatype Grant = Grant(gen: nat, slotID: string, ip: Addr)

  /** An address reported as unusable for a scope until some instant. */
  datatype Ban = Ban(scope: string, ip: Addr, until: Time)

  datatype System = System(
    pool: Pool,
    clock: Time,
    nextID: nat,
    inflight: map<nat, Inflight>,
    leases: map<nat, Handle>,
    openers: map<nat, Opener>,
    grants: map<nat, Grant>,
    tainted: set<nat>,
    bans: set<Ban>,
    contacts: seq<Time>)

  datatype Step =
    | Picking(pol: Policy, target: string, now: Time, luck: Luck)
    | Establishing(id: nat, now: Time)
    | RollingBack(id: nat)
    | Releasing(id: nat, now: Time)
    | FailingSlot(h: Handle, now: Time)
    | DroppingSession(name: string)
    | Reporting(complaint: Complaint, now: Time)
    | Preferring(praise: Praise, now: Time)
    | Measuring(h: Handle, ip: Addr, checkedAt: Time, probed: bool, now: Time)
    | RestoringPreference(scope: string, exit: PreferredExit, now: Time)
    | RestoringCooldown(scope: string, ip: Addr, until: Time, now: Time)
    | Housekeeping(now: Time)
    | Saving(now: Time)
    | Reconciling(specs: seq<Spec>, done: set<string>)
    | Opening(tunnel: TunnelOf, victim: Handle, now: Time)
    | CallingOff(id: nat)
    | Abandoning(id: nat)
    | Charging(id: nat, now: Time)
    | Opened(id: nat, ok: bool, now: Time)
    | ClosingProbe(id: nat)
    | FailingEntry(i: nat, now: Time)
    | FailingProbe(h: Handle)
    | Trimming(now: Time)

  /** Steps that read the clock under the lock never see it go back. Housekeeping
      reads it before taking the lock, so its instant may be stale. */
  predicate ClockAllows(clock: Time, step: Step) {
    match step
    case RollingBack(_) | DroppingSession(_) | Reconciling(_, _) | FailingProbe(_) => true
    case CallingOff(_) | Abandoning(_) | ClosingProbe(_) => true
    case Housekeeping(_) => true
    case _ => clock <= step.now
  }

  function ClockAfter(clock: Time, step: Step): Time {
    match step
    case RollingBack(_) | DroppingSession(_) | Reconciling(_, _) | FailingProbe(_) => clock
    case CallingOff(_) | Abandoning(_) | ClosingProbe(_) => clock
    case _ => Max(clock, step.now)
  }

  /** Whether a tunnel may be opened here now: it is down, nobody is opening it, and
      relay slots never own one. */
  predicate MayOpen(p: Pool, t: TunnelOf) {
    match t
    case SlotTunnel(h) => p.IsMember(h) && p.At(h).spec.kind != RelaySocks && !p.At(h).Occupied()
    case EntryTunnel(i) => i < |p.entries| && !p.entries[i].Occupied()
    case ProbeTunnel => true
  }

  ghost predicate Enabled(s: System, step: Step) {
    && ClockAllows(s.clock, step)
    && match step
       case Picking(_, _, _, luck) => FairVictim(s.pool, luck.victim)
       case Establishing(id, _) => id in s.inflight
       case RollingBack(id) => id in s.inflight
       case Releasing(id, _) => id in s.leases
       case FailingSlot(h, _) => h in s.pool.states
       case Measuring(h, _, _, _, _) => h in s.pool.states
       case Opening(t, victim, _) => MayOpen(s.pool, t) && FairVictim(s.pool, victim)
       case CallingOff(id) => id in s.openers && s.openers[id].phase == Waiting
       case Abandoning(id) => id in s.openers && s.openers[id].phase == CalledOff
       case Charging(id, _) => id in s.openers && s.openers[id].phase == Waiting
       case Opened(id, _, _) => id in s.openers && s.openers[id].phase == Charged
       case ClosingProbe(id) => id in s.openers && s.openers[id].phase == Up
       case FailingEntry(i, _) => i < |s.pool.entries|
       case FailingProbe(h) => h in s.pool.states
       case _ => true
  }

  // ---------------------------------------------------------------------
  // What a step does to the pool.

  const ENTRY_FAILURE_THRESHOLD: nat := 3

  function MarkOpening(p: Pool, t: TunnelOf, opening: bool): Pool {
    match t
    case SlotTunnel(h) => p.With(h, p.At(h).(opening := opening))
    case EntryTunnel(i) => if i < |p.entries| then p.(entries := p.entries[i := p.entries[i].(opening := opening)])
        else p
    case ProbeTunnel => p.(probes := if opening then p.probes + 1 else Dec(p.probes))
  }

  function OpenTunnel(p: Pool, t: TunnelOf, victim: Handle, now: Time): Pool {
    if BeginOpen(p, now, victim).1.None? then MarkOpening(BeginOpen(p, now, victim).0, t, true)
    else BeginOpen(p, now, victim).0
  }

  /** The handshake finished: the tunnel is up, or the failure is recorded. */
  function FinishOpen(p: Pool, t: TunnelOf, ok: bool, now: Time): Pool {
    match t
    case SlotTunnel(h) => p.With(h, p.At(h).(opening := false, open := if ok then true else p.At(h).open))
    case EntryTunnel(i) =>
      if i < |p.entries| then
        var e := p.entries[i];
        p.(entries := p.entries[i :=
          if ok then e.(opening := false, open := true, failures := 0)
          else e.(opening := false, failures := e.failures + 1,
                  disabledUntil := now + Backoff(p.opts.failureBackoff, e.failures, 10 * MINUTE))])
      else p
    case ProbeTunnel => if ok then p else p.(probes := Dec(p.probes))
  }

  /** The third consecutive failure through an entry takes it out of rotation. */
  function FailEntry(p: Pool, i: nat, now: Time): Pool
    requires i < |p.entries|
  {
    var e := p.entries[i].(failures := p.entries[i].failures + 1);
    p.(entries := p.entries[i :=
      if e.failures < ENTRY_FAILURE_THRESHOLD then e
      else e.(disabledUntil := now + Backoff(p.opts.failureBackoff, e.failures - ENTRY_FAILURE_THRESHOLD, 10 * MINUTE),
              open := false)])
  }

  /** A probe's measurement also clears the slot's failures. */
  function Measure(p: Pool, h: Handle, ip: Addr, checkedAt: Time, probed: bool, now: Time): Pool {
    var q := SetPublicIP(p, h, ip, checkedAt, now);
    q.(states := if probed then q.states[h := q.At(h).(failures := 0, disabledUntil := ZERO_TIME)] else q.states)
  }

  ghost function PoolAfter(s: System, step: Step): Pool
    requires s.pool.Wf() && Enabled(s, step)
  {
    match step
    case Picking(pol, target, now, luck) => Pick(s.pool, pol, target, now, luck).0
    case Establishing(id, now) => Establish(s.pool, s.inflight[id].reservation, s.inflight[id].pol, now)
    case RollingBack(id) => Rollback(s.pool, s.inflight[id].reservation)
    case Releasing(id, now) => ReleaseLease(s.pool, s.leases[id], now)
    case FailingSlot(h, now) => NoteFailure(s.pool, h, now)
    case DroppingSession(name) => DropSession(s.pool, name)
    case Reporting(c, now) => Report(s.pool, c, now).0
    case Preferring(c, now) => Prefer(s.pool, c, now).0
    case Measuring(h, ip, checkedAt, probed, now) => Measure(s.pool, h, ip, checkedAt, probed, now)
    case RestoringPreference(scope, e, now) => RestorePreference(s.pool, scope, e, now)
    case RestoringCooldown(scope, ip, until, now) => RestoreCooldown(s.pool, scope, ip, until, now)
    case Housekeeping(now) => Housekeep(s.pool, now)
    case Saving(now) => Expire(s.pool, now)
    case Reconciling(specs, done) => Reconcile(s.pool, specs, done).0
    case Opening(t, victim, now) => OpenTunnel(s.pool, t, victim, now)
    case CallingOff(id) => RollbackOpen(s.pool)
    case Abandoning(id) => MarkOpening(s.pool, s.openers[id].tunnel, false)
    case Charging(id, now) => CommitOpen(s.pool, now)
    case Opened(id, ok, now) => FinishOpen(s.pool, s.openers[id].tunnel, ok, now)
    case ClosingProbe(id) => MarkOpening(s.pool, ProbeTunnel, false)
    case FailingEntry(i, now) => FailEntry(s.pool, i, now)
    case FailingProbe(h) => CountFailure(s.pool, h)
    case Trimming(now) => TrimOpens(s.pool, now)
  }

  // ---------------------------------------------------------------------
  // What a step does to the work under way.

  /** The choice a selection step made, if it made one. */
  function Chosen(s: System, step: Step): Option<Choice>
    requires s.pool.Wf()
  {
    if !step.Picking? then None
    else
      match Pick(s.pool, step.pol, step.target, step.now, step.luck).1
      case Ok(c) => Some(c)
      case Err(_) => None
  }

  function InflightAfter(s: System, step: Step): map<nat, Inflight>
    requires s.pool.Wf()
  {
    match step
    case Picking(pol, _, _, _) =>
      if Chosen(s, step).Some? then s.inflight[s.nextID := Inflight(Chosen(s, step).value.reservation, pol)]
          else s.inflight
    case Establishing(id, _) => s.inflight - {id}
    case RollingBack(id) => s.inflight - {id}
    case _ => s.inflight
  }

  function LeasesAfter(s: System, step: Step): map<nat, Handle> {
    match step
    case Establishing(id, _) => if id in s.inflight then s.leases[s.nextID := s.inflight[id].reservation.state]
        else s.leases
    case Releasing(id, _) => s.leases - {id}
    case _ => s.leases
  }

  /** The opening step was let through. */
  function OpensNow(s: System, step: Step): bool {
    step.Opening? && BeginOpen(s.pool, step.now, step.victim).1.None?
  }

  function OpenersAfter(s: System, step: Step): map<nat, Opener> {
    match step
    case Opening(t, _, _) => if OpensNow(s, step) then s.openers[s.nextID := Opener(t, Waiting)] else s.openers
    case CallingOff(id) => if id in s.openers then s.openers[id := s.openers[id].(phase := CalledOff)] else s.openers
    case Abandoning(id) => s.openers - {id}
    case Charging(id, _) => if id in s.openers then s.openers[id := s.openers[id].(phase := Charged)] else s.openers
    case Opened(id, ok, _) =>
      if id in s.openers && ok && s.openers[id].tunnel.ProbeTunnel? then s.openers[id := s.openers[id].(phase := Up)]
      else s.openers - {id}
    case ClosingProbe(id) => s.openers - {id}
    case _ => s.openers
  }

  // ---------------------------------------------------------------------
  // History.

  /** The pick burns an address again: by recycling, or at the very instant the
      generation expires. */
  predicate Reuses(p: Pool, c: Choice, now: Time) {
    && c.reservation.batch.Some?
    && var name := c.reservation.batch.value.name;
       || c.origin.FromRecycling?
       || (name in p.batches && p.batches[name].expiresAt == now)
  }

  /** The live grants that are not of this slot in this generation. */
  function Ungranted(grants: map<nat, Grant>, gen: nat, slotID: string): map<nat, Grant> {
    map id | id in grants.Keys && !(grants[id].gen == gen && grants[id].slotID == slotID) :: grants[id]
  }

  ghost predicate StoredGen(p: Pool, gen: nat) {
    exists n :: n in p.batches && p.batches[n].gen == gen
  }

  /** Rolling back gives up the acquisition's own grant; when its generation is still
      stored, the slot itself is released there. A report releases the slot from every
      stored generation. */
  ghost function GrantsAfter(s: System, step: Step): map<nat, Grant>
    requires s.pool.Wf()
  {
    match step
    case Picking(_, _, _, _) =>
      if Chosen(s, step).Some? && Chosen(s, step).value.reservation.batch.Some? then
        var b := Chosen(s, step).value.reservation.batch.value;
        s.grants[s.nextID := Grant(b.gen, b.slotID, s.pool.At(Chosen(s, step).value.state).publicIP)]
      else s.grants
    case RollingBack(id) =>
      if id in s.inflight && s.inflight[id].reservation.batch.Some?
          && StillStored(s.pool, s.inflight[id].reservation.batch.value) then
        var b := s.inflight[id].reservation.batch.value;
        Ungranted(s.grants - {id}, b.gen, b.slotID)
      else s.grants - {id}
    case Reporting(c, _) =>
      (match ReportedSlot(s.pool, c)
       case Err(_) => s.grants
       case Ok(slotID) =>
         map k | k in s.grants.Keys && !(StoredGen(s.pool, s.grants[k].gen) && s.grants[k].slotID == slotID) ::
             s.grants[k])
    case _ => s.grants
  }

  function TaintedAfter(s: System, step: Step): set<nat>
    requires s.pool.Wf()
  {
    if Chosen(s, step).Some? && Reuses(s.pool, Chosen(s, step).value, step.now)
    then s.tainted + {Chosen(s, step).value.reservation.batch.value.gen} else s.tainted
  }

  function BansAfter(s: System, step: Step): set<Ban> {
    if step.Reporting? && ReportedSlot(s.pool, step.complaint).Ok? && step.complaint.target != ""
       && s.pool.Slot(ReportedSlot(s.pool, step.complaint).value).publicIP != NoAddr
    then s.bans + {Ban(step.complaint.target, s.pool.Slot(ReportedSlot(s.pool, step.complaint).value).publicIP,
                       step.now + CooldownOf(s.pool, step.complaint))}
    else s.bans
  }

  ghost function After(s: System, step: Step): System
    requires s.pool.Wf() && Enabled(s, step)
  {
    System(PoolAfter(s, step), ClockAfter(s.clock, step), s.nextID + 1,
           InflightAfter(s, step), LeasesAfter(s, step), OpenersAfter(s, step),
           GrantsAfter(s, step), TaintedAfter(s, step), BansAfter(s, step),
           if step.Charging? then s.contacts + [step.now] else s.contacts)
  }

  ghost predicate Initial(s: System) {
    && (exists specs: seq<Spec>, entries: nat, opts: Options ::
          Constructible(specs, entries, opts) && s.pool == NewPool(specs, entries, opts))
    && s.clock > ZERO_TIME
    && s.inflight == map[] && s.leases == map[] && s.openers == map[] && s.grants == map[]
    && s.tainted == {} && s.bans == {} && s.contacts == []
  }

  /** One step. What a step does is only spelled out on well-formed pools, and
      reachable pools are shown to be well formed. */
  ghost predicate Next(s: System, step: Step, s': System) {
    Enabled(s, step) && (s.pool.Wf() ==> s' == After(s, step))
  }

  /** A finite run: the states it passes through and the steps between them. */
  ghost predicate Run(states: seq<System>, steps: seq<Step>) {
    && |states| == |steps| + 1
    && Initial(states[0])
    && forall i :: 0 <= i < |steps| ==> Next(states[i], steps[i], states[i + 1])
  }
}
