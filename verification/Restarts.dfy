/** Restarts of a pool that has run: what the inventory needs of a pool holds of every
    reachable one. */
module Restarts {
  import opened Common
  import opened PolicyTypes
  import opened Preferred
  import opened PoolState
  import opened PoolSystem
  import opened WellFormed
  import opened Selection
  import opened MemoryRuns
  import opened Inventory
  import RingRuns

  lemma CooledNamed(m: Cooldowns, scope: string, ip: Addr, until: Time)
    requires forall k :: k in m ==> k.0 != "" && k.1 != NoAddr
    ensures forall k :: k in Cooled(m, scope, ip, until) ==> k.0 != "" && k.1 != NoAddr
  {}

  lemma MildNamed(p: Pool, q: Pool, now: Time)
    requires MildCooldowns(p, q, now) && CooldownsNamed(p)
    ensures CooldownsNamed(q)
  {}

  lemma ReportNamed(p: Pool, c: Complaint, now: Time)
    requires CooldownsNamed(p)
    ensures CooldownsNamed(Report(p, c, now).0)
  {
    hide Cooled;
    hide Punished;
    hide Unpreferred;
    hide ReleaseEverywhere;
    match ReportedSlot(p, c)
    case Err(_) =>
    case Ok(id) => CooledNamed(p.ipCooldowns, c.target, p.Slot(id).publicIP, now + CooldownOf(p, c));
  }

  lemma NamedStep(s: System, step: Step)
    requires Base(s) && Enabled(s, step) && CooldownsNamed(s.pool)
    ensures CooldownsNamed(PoolAfter(s, step))
  {
    hide Pick;
    hide Establish;
    hide Rollback;
    hide ReleaseLease;
    hide NoteFailure;
    hide DropSession;
    hide Report;
    hide Prefer;
    hide Measure;
    hide RestorePreference;
    hide RestoreCooldown;
    hide Housekeep;
    hide Expire;
    hide Reconcile;
    hide OpenTunnel;
    hide RollbackOpen;
    hide MarkOpening;
    hide CommitOpen;
    hide FinishOpen;
    hide FailEntry;
    hide CountFailure;
    hide TrimOpens;
    hide Pool.Wf;
    hide MildCooldowns;
    hide RingsValid;
    hide Cooled;
    var p := s.pool;
    var noExit, noPraise := PreferredExit("", NoAddr, ZERO_TIME), Praise("", NoAddr, "", 0);
    match step
    case Picking(pol, target, now, luck) =>
      PickMemory(p, pol, target, now, luck);
      MildNamed(p, Pick(p, pol, target, now, luck).0, now);
    case Reporting(c, now) => ReportNamed(p, c, now);
    case Preferring(c, now) => PraiseMemory(p, c, "", noExit, NoAddr, ZERO_TIME, now);
    case RestoringPreference(scope, e, now) => PraiseMemory(p, noPraise, scope, e, NoAddr, ZERO_TIME, now);
    case RestoringCooldown(scope, ip, until, now) =>
      PraiseMemory(p, noPraise, scope, noExit, ip, until, now);
      CooledNamed(p.ipCooldowns, scope, ip, until);
    case Housekeeping(now) =>
      HousekeepMemory(p, now);
      MildNamed(p, Housekeep(p, now), now);
    case Saving(now) =>
      HousekeepMemory(p, now);
      MildNamed(p, Expire(p, now), now);
    case _ => QuietMemory(s, step);
  }

  lemma InitialNamed(s: System)
    requires Initial(s)
    ensures CooldownsNamed(s.pool)
  {}

  /** Reachable pools only keep cooldowns of named destinations on valid addresses. */
  lemma {:induction false} CooldownsStayNamed(states: seq<System>, steps: seq<Step>, i: nat)
    requires Run(states, steps) && i < |states|
    ensures CooldownsNamed(states[i].pool)
  {
    hide Base;
    hide CooldownsNamed;
    hide Initial;
    if i == 0 {
      InitialNamed(states[0]);
    } else {
      CooldownsStayNamed(states, steps, i - 1);
      ReachableIsWellFormed(states, steps, i - 1);
      assert Next(states[i - 1], steps[i - 1], states[i]);
      BaseIsWf(states[i - 1]);
      NamedStep(states[i - 1], steps[i - 1]);
      hide PoolAfter;
      hide Enabled;
      hide Pool.Wf;
    }
  }

  /** Whatever a pool has been through: saved at any instant and loaded at any later one
      into a pool freshly built from the same catalogue, it gives back every lasting
      address with its check time, every ring in order restricted to the entries that are
      live and whose slot is saved under their address, and every running cooldown on a
      saved address, and nothing else. */
  lemma RestartAfterRun(states: seq<System>, steps: seq<Step>, i: nat, q: Pool, ids: seq<string>, savedAt: Time,
                        measuredAt: Time, now: Time)
    requires Run(states, steps) && i < |states| && Restarted(states[i].pool, q)
    requires ZERO_TIME < now && savedAt <= now
    ensures var p := states[i].pool;
            var r := Loaded(q, Saved(Expire(p, savedAt)), ids, measuredAt, now);
            && (forall id :: id in p.slots ==>
                  if Lasting(p.Slot(id))
                  then r.Slot(id).publicIP == p.Slot(id).publicIP && r.Slot(id).ipCheckedAt == p.Slot(id).ipCheckedAt
                  else r.Slot(id).publicIP == NoAddr)
            && (forall t :: RingFor(r, t) == Filter(RingFor(p, t), (e: PreferredExit) => Survives(p, e, now)))
            && (forall k :: k in r.ipCooldowns <==> k in p.ipCooldowns && now < p.ipCooldowns[k]
                                                    && SavedAddress(p, k.1))
            && (forall k :: k in r.ipCooldowns ==> r.ipCooldowns[k] == p.ipCooldowns[k])
  {
    hide Base;
    hide Run;
    hide Expire;
    hide Loaded;
    hide Saved;
    hide Survives;
    hide SavedAddress;
    hide CooldownsNamed;
    hide RingsValid;
    var p := states[i].pool;
    ReachableIsWellFormed(states, steps, i);
    BaseIsWf(states[i]);
    RingRuns.RingsStayValid(states, steps, i);
    RingRuns.ValidRings(p);
    CooldownsStayNamed(states, steps, i);
    hide Pool.Wf;
    hide Restarted;
    RestartRestores(p, q, ids, savedAt, measuredAt, now);
  }

  /** A load is a piece of a run: each of its steps does to the pool what the step of the
      run does. */
  lemma LoadsAreSteps(s: System, step: Step)
    requires s.pool.Wf() && Enabled(s, step) && Loads(step)
    ensures PoolAfter(s, step) == LoadStep(s.pool, step)
  {
    hide Pool.Wf;
    hide SetPublicIP;
    hide PoolState.RestorePreference;
    hide PoolState.RestoreCooldown;
  }
}
