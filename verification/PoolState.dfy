/** The pool's state as a value, and every critical section as a function on it.
    Slot states live in a store keyed by handle, because reconciliation can detach
    a state from the membership while connections still hold it. */
module PoolState {
  import opened Common
  import opened PolicyTypes
  import opened Ordering
  import opened Batches
  import opened Preferred
  import opened TunnelBudget
  import Text

  datatype Kind = WireGuard | RelaySocks | DirectSocks

  datatype Spec = Spec(id: string, country: string, city: string, provider: string, rotating: bool, kind: Kind)

  type Handle = nat

  datatype SlotState = SlotState(
    spec: Spec,
    open: bool,
    opening: bool,
    lastUsed: Time,
    leases: nat,
    pendingLeases: nat,
    publicIP: Addr,
    ipCheckedAt: Time,
    failures: nat,
    disabledUntil: Time,
    cooldowns: map<string, Time>)
  {
    /** A slot serves without a handshake unless it needs a tunnel that is down. */
    predicate Ready() { spec.kind != WireGuard || open }

    predicate CoolingDown(target: string, now: Time) {
      target != "" && target in cooldowns && now < cooldowns[target]
    }

    function Load(): nat { leases + pendingLeases }

    predicate Occupied() { open || opening }
  }

  function NewSlotState(spec: Spec): SlotState {
    SlotState(spec, false, false, ZERO_TIME, 0, 0, NoAddr, ZERO_TIME, 0, ZERO_TIME, map[])
  }

  datatype EntryState = EntryState(open: bool, opening: bool, failures: nat, disabledUntil: Time)
  {
    predicate Occupied() { open || opening }
  }

  const NEW_ENTRY: EntryState := EntryState(false, false, 0, ZERO_TIME)

  datatype Session = Session(slotID: string, expiresAt: Time)

  datatype Options = Options(
    maxActive: int,
    maxConnsPerExit: int,
    maxConcurrentConns: int,
    sessionTTL: int,
    maxSessionTTL: int,
    maxSessions: int,
    batchTTL: int,
    maxBatchTTL: int,
    maxUniqueBatches: int,
    cooldown: int,
    preferredTTL: int,
    preferredMax: int,
    idleTimeout: int,
    dialAttempts: int,
    failureBackoff: int,
    newTunnelBudget: int,
    newTunnelWindow: int,
    ipRefreshInterval: int)
  {
    /** What filling in the defaults guarantees. */
    predicate Defaulted() {
      && sessionTTL > 0 && maxSessionTTL > 0 && maxSessions > 0
      && batchTTL > 0 && maxBatchTTL > 0 && maxUniqueBatches > 0
      && cooldown > 0 && preferredTTL > 0 && preferredMax > 0
      && dialAttempts > 0 && failureBackoff > 0 && newTunnelWindow > 0 && ipRefreshInterval > 0
      && maxConnsPerExit >= 0 && maxConcurrentConns >= 0
    }
  }

  datatype Error =
    | NoCandidate | Exhausted | Capacity | TunnelBudgetSpent | Busy | BatchFull
    | PolicyLimit | SessionFull | IdentityMismatch | UnknownSession | UnknownSlot
    | Rejected

  datatype BatchReservation = BatchReservation(name: string, gen: nat, slotID: string)

  /** What one acquisition holds between selection and commit or rollback. */
  datatype Reservation = Reservation(batch: Option<BatchReservation>, session: string, state: Handle)

  /** Which path of selection chose a slot. */
  datatype Origin = FromSession | FromPreferred | FromReady | FromCold | FromRecycling

  datatype Choice = Choice(state: Handle, origin: Origin, reservation: Reservation)

  datatype Pool = Pool(
    opts: Options,
    states: map<Handle, SlotState>,
    nextHandle: Handle,
    slots: map<string, Handle>,
    order: seq<string>,
    sessions: map<string, Session>,
    pendingSessions: map<string, nat>,
    batches: map<string, BatchState>,
    nextGen: nat,
    preferred: map<string, seq<PreferredExit>>,
    ipCooldowns: map<(string, Addr), Time>,
    entries: seq<EntryState>,
    opens: seq<Time>,
    pendingOpens: nat,
    probes: nat,
    leased: nat,
    pendingLeases: nat)
  {
    /** The state behind a handle. */
    function At(h: Handle): SlotState {
      if h in states then states[h] else NewSlotState(Spec("", "", "", "", false, RelaySocks))
    }

    predicate Member(id: string) { id in slots && slots[id] in states }

    /** The state selection currently reaches under `id`. */
    function Slot(id: string): SlotState
      requires id in slots
    {
      At(slots[id])
    }

    function With(h: Handle, s: SlotState): Pool { this.(states := states[h := s]) }

    /** The state is still selectable, not detached by a reconciliation. */
    predicate IsMember(h: Handle) {
      h in states && states[h].spec.id in slots && slots[states[h].spec.id] == h
    }

    ghost predicate Wf() {
      && opts.Defaulted()
      && (forall h :: h in states ==> h < nextHandle)
      && (forall id :: id in slots ==> slots[id] in states && states[slots[id]].spec.id == id)
      && StrictlySorted(order)
      && (forall id :: id in order <==> id in slots)
      && (forall n :: n in pendingSessions ==> pendingSessions[n] > 0)
      && "" !in pendingSessions
      && (forall n :: n in batches ==> batches[n].gen < nextGen)
      && (forall n, m :: n in batches && m in batches && n != m ==> batches[n].gen != batches[m].gen)
    }
  }

  // ---------------------------------------------------------------------
  // Expiry.

  function ExpireCooldowns(s: SlotState, now: Time): SlotState {
    s.(cooldowns := map t | t in s.cooldowns.Keys && !(now > s.cooldowns[t]) :: s.cooldowns[t])
  }

  /** Drop stale sessions, batches, preferences and cooldowns. The instant of expiry
      itself still counts as live here. */
  function Expire(p: Pool, now: Time): Pool {
    p.(sessions := map n | n in p.sessions.Keys && !(now > p.sessions[n].expiresAt) :: p.sessions[n],
       batches := map n | n in p.batches.Keys && !(now > p.batches[n].expiresAt) :: p.batches[n],
       preferred := map t | t in p.preferred.Keys && Prune(p.preferred[t], now) != [] :: Prune(p.preferred[t], now),
       states := map h | h in p.states.Keys :: if p.IsMember(h) then ExpireCooldowns(p.states[h], now) else p.states[h],
       ipCooldowns := map k | k in p.ipCooldowns.Keys && !(now > p.ipCooldowns[k]) :: p.ipCooldowns[k])
  }

  /** Eligibility tests drop the cooldowns they find lapsed at this very instant. */
  function DropLapsed(p: Pool, lapsed: set<(string, Addr)>, now: Time): Pool {
    p.(ipCooldowns := map k | k in p.ipCooldowns.Keys && !(k in lapsed && now >= p.ipCooldowns[k]) :: p.ipCooldowns[k])
  }

  // ---------------------------------------------------------------------
  // Eligibility.

  /** Case-insensitive membership; the empty label matches nothing. */
  predicate ContainsFold(list: seq<string>, value: string) {
    value != "" && exists i | 0 <= i < |list| :: Text.Lower(list[i]) == Text.Lower(value)
  }

  predicate IPCoolingDown(p: Pool, target: string, ip: Addr, now: Time) {
    target != "" && ip != NoAddr && (target, ip) in p.ipCooldowns && now < p.ipCooldowns[(target, ip)]
  }

  predicate RequiresFreshIP(pol: Policy) { pol.uniqueBatch != "" || |pol.excludeIPs| > 0 }

  predicate IPFresh(p: Pool, s: SlotState, now: Time) {
    s.publicIP != NoAddr && s.ipCheckedAt != ZERO_TIME && now < s.ipCheckedAt + p.opts.ipRefreshInterval
  }

  /** The batch excludes the slot: it consumed the slot or the slot's address. */
  predicate BatchExcludes(p: Pool, s: SlotState, batch: string, now: Time) {
    && batch in p.batches
    && now < p.batches[batch].expiresAt
    && (s.spec.id in p.batches[batch].usedSlots || s.publicIP in p.batches[batch].usedIPs)
  }

  predicate Eligible(p: Pool, s: SlotState, pol: Policy, target: string, now: Time) {
    && !(now < s.disabledUntil)
    && (pol.slot != "" ==> s.spec.id == pol.slot)
    && (pol.provider != "" ==> s.spec.provider == pol.provider)
    && (|pol.countries| > 0 ==> ContainsFold(pol.countries, s.spec.country))
    && (|pol.cities| > 0 ==> ContainsFold(pol.cities, s.spec.city))
    && !s.CoolingDown(target, now)
    && !IPCoolingDown(p, target, s.publicIP, now)
    && (p.opts.maxConnsPerExit > 0 ==> s.leases + s.pendingLeases < p.opts.maxConnsPerExit)
    && !(s.spec.rotating && RequiresFreshIP(pol))
    && (RequiresFreshIP(pol) ==> IPFresh(p, s, now))
    && s.publicIP !in pol.excludeIPs
    && (pol.uniqueBatch != "" ==> !BatchExcludes(p, s, pol.uniqueBatch, now))
  }

  predicate EligibleIgnoringBatch(p: Pool, s: SlotState, pol: Policy, target: string, now: Time) {
    Eligible(p, s, pol.(uniqueBatch := ""), target, now)
  }

  // ---------------------------------------------------------------------
  // Reservations.

  function SessionTTL(p: Pool, pol: Policy): int { if pol.ttl > 0 then pol.ttl else p.opts.sessionTTL }

  function BatchTTL(p: Pool, pol: Policy): int { if pol.batchTTL > 0 then pol.batchTTL else p.opts.batchTTL }

  function PendingCount(m: map<string, nat>, name: string): nat { if name in m then m[name] else 0 }

  /** One more acquisition holds the session name; the empty name is not counted. */
  function Hold(m: map<string, nat>, name: string): map<string, nat> {
    if name == "" then m else m[name := PendingCount(m, name) + 1]
  }

  function Unhold(m: map<string, nat>, name: string): map<string, nat> {
    if name == "" then m
    else if PendingCount(m, name) > 1 then m[name := PendingCount(m, name) - 1]
    else m - {name}
  }

  /** The name an acquisition has to hold: none when the session is bound already. */
  function SessionToHold(p: Pool, pol: Policy): string {
    if pol.session in p.sessions then "" else pol.session
  }

  /** A new session name is refused when bound and pending names fill the limit. */
  predicate SessionsFull(p: Pool, pol: Policy) {
    && SessionToHold(p, pol) != ""
    && PendingCount(p.pendingSessions, pol.session) == 0
    && |p.sessions| + |p.pendingSessions| >= p.opts.maxSessions
  }

  /** The batch needs a new generation. */
  predicate Renews(p: Pool, name: string, now: Time) {
    name !in p.batches || now > p.batches[name].expiresAt
  }

  predicate BatchesFull(p: Pool, name: string, now: Time) {
    name != "" && Renews(p, name, now) && |p.batches - {name}| >= p.opts.maxUniqueBatches
  }

  /** The generation a selection enters. */
  function EnteredBatch(p: Pool, pol: Policy, now: Time): BatchState {
    var b := if pol.uniqueBatch in p.batches && !Renews(p, pol.uniqueBatch, now)
             then p.batches[pol.uniqueBatch] else NewBatch(p.nextGen, now + BatchTTL(p, pol));
    b.(expiresAt := now + BatchTTL(p, pol))
  }

  /** Why a reservation is refused, if it is. */
  function Refusal(p: Pool, pol: Policy, now: Time): Option<Error> {
    if SessionsFull(p, pol) then Some(SessionFull)
    else if BatchesFull(p, pol.uniqueBatch, now) then Some(BatchFull)
    else None
  }

  /** What a refused reservation leaves: a stale generation may be gone. */
  function Refused(p: Pool, pol: Policy, now: Time): Pool {
    p.(batches := if SessionsFull(p, pol) then p.batches else p.batches - {pol.uniqueBatch},
       pendingSessions := if SessionsFull(p, pol) then p.pendingSessions
                          else Unhold(Hold(p.pendingSessions, SessionToHold(p, pol)), SessionToHold(p, pol)))
  }

  /** Record the selection: the session name, the batch and one pending lease. */
  function Reserved(p: Pool, pol: Policy, h: Handle, now: Time): Pool {
    p.(pendingSessions := Hold(p.pendingSessions, SessionToHold(p, pol)),
       batches := if pol.uniqueBatch == "" then p.batches
                  else p.batches[pol.uniqueBatch := EnteredBatch(p, pol, now).Reserve(p.At(h).spec.id,
                      p.At(h).publicIP, now)],
       nextGen := if pol.uniqueBatch != "" && Renews(p, pol.uniqueBatch, now) then p.nextGen + 1 else p.nextGen,
       states := p.states[h := p.At(h).(pendingLeases := p.At(h).pendingLeases + 1)],
       pendingLeases := p.pendingLeases + 1)
  }

  function Ticket(p: Pool, pol: Policy, h: Handle, now: Time): Reservation {
    Reservation(
      if pol.uniqueBatch == "" then None
      else Some(BatchReservation(pol.uniqueBatch, EnteredBatch(p, pol, now).gen, p.At(h).spec.id)),
      SessionToHold(p, pol), h)
  }

  /** Give back what the reservation holds, except its place in the batch. */
  function Settle(p: Pool, r: Reservation): Pool {
    p.(pendingSessions := Unhold(p.pendingSessions, r.session),
       states := p.states[r.state := p.At(r.state).(pendingLeases := Dec(p.At(r.state).pendingLeases))],
       pendingLeases := Dec(p.pendingLeases))
  }

  /** The reservation's generation is still the stored one. */
  predicate StillStored(p: Pool, r: BatchReservation) {
    r.name in p.batches && p.batches[r.name].gen == r.gen
  }

  /** A batch that becomes empty is forgotten. */
  function ReleaseIn(batches: map<string, BatchState>, name: string, slotID: string): map<string, BatchState>
    requires name in batches
  {
    var b := batches[name].Release(slotID);
    if b.usedSlots == {} then batches - {name} else batches[name := b]
  }

  /** Release the slot from the batch, if that generation is still stored. */
  function Rollback(p: Pool, r: Reservation): Pool {
    Settle(p, r).(batches :=
      if r.batch.Some? && StillStored(p, r.batch.value)
          then ReleaseIn(p.batches, r.batch.value.name, r.batch.value.slotID)
      else p.batches)
  }

  /** The dial succeeded: the reservation becomes a lease, and the session is bound. */
  function Establish(p: Pool, r: Reservation, pol: Policy, now: Time): Pool {
    var s := p.At(r.state);
    Settle(p, r).(
      states := p.states[r.state := s.(pendingLeases := Dec(s.pendingLeases), leases := s.leases + 1, lastUsed := now,
          failures := 0)],
      leased := p.leased + 1,
      sessions := if pol.session == "" then p.sessions
                  else p.sessions[pol.session := Session(s.spec.id, now + SessionTTL(p, pol))])
  }

  function ReleaseLease(p: Pool, h: Handle, now: Time): Pool {
    p.(states := p.states[h := p.At(h).(leases := Dec(p.At(h).leases), lastUsed := now)], leased := Dec(p.leased))
  }

  // ---------------------------------------------------------------------
  // Selection.

  /** The decisions a selection leaves open: the random roll, the idle tunnel chosen
      among equally old ones, and the cooldowns that lapse at this instant. */
  datatype Luck = Luck(roll: nat, victim: Handle, lapsed: set<(string, Addr)>)

  /** The eligible members among the first `n` slots in order. */
  function Candidates(p: Pool, pol: Policy, target: string, now: Time, n: nat): seq<Handle>
    requires n <= |p.order| && forall id :: id in p.order ==> id in p.slots
  {
    if n == 0 then []
    else
      var h := p.slots[p.order[n - 1]];
      var rest := Candidates(p, pol, target, now, n - 1);
      if Eligible(p, p.At(h), pol, target, now) then rest + [h] else rest
  }

  function ReadyOnes(p: Pool, cands: seq<Handle>): seq<Handle> {
    if cands == [] then []
    else
      var rest := ReadyOnes(p, cands[..|cands| - 1]);
      var h := cands[|cands| - 1];
      if p.At(h).Ready() then rest + [h] else rest
  }

  /** The members that recycling may consider, in order. */
  function Recyclable(p: Pool, pol: Policy, target: string, now: Time, n: nat): seq<Handle>
    requires n <= |p.order| && forall id :: id in p.order ==> id in p.slots
  {
    if n == 0 then []
    else
      var h := p.slots[p.order[n - 1]];
      var rest := Recyclable(p, pol, target, now, n - 1);
      if EligibleIgnoringBatch(p, p.At(h), pol, target, now) then rest + [h] else rest
  }

  function AsCandidates(p: Pool, hs: seq<Handle>): (cs: seq<Candidate>)
    ensures |cs| == |hs|
    ensures forall i :: 0 <= i < |hs| ==> cs[i] == Candidate(p.At(hs[i]).spec.id, p.At(hs[i]).publicIP)
  {
    seq(|hs|, i requires 0 <= i < |hs| => Candidate(p.At(hs[i]).spec.id, p.At(hs[i]).publicIP))
  }

  /** The exit an exhausted batch burned longest ago, if recycling applies. */
  function OldestBurn(p: Pool, pol: Policy, target: string, now: Time): Option<Handle>
    requires forall id :: id in p.order ==> id in p.slots
  {
    if !pol.recycleBatch || pol.uniqueBatch == "" then None
    else if pol.uniqueBatch !in p.batches || !(now < p.batches[pol.uniqueBatch].expiresAt) then None
    else
      var hs := Recyclable(p, pol, target, now, |p.order|);
      match OldestIn(p.batches[pol.uniqueBatch], AsCandidates(p, hs), |hs|)
      case None => None
      case Some(i) => Some(hs[i])
  }

  function StampBatch(p: Pool, name: string, ip: Addr, now: Time): Pool
    requires name in p.batches
  {
    p.(batches := p.batches[name := p.batches[name].Stamp(ip, now)])
  }

  /** The entry still names a member with the address it had when it was recorded. */
  predicate StillGood(p: Pool, e: PreferredExit, pol: Policy, target: string, now: Time) {
    && e.slotID in p.slots
    && e.publicIP != NoAddr
    && p.Slot(e.slotID).publicIP == e.publicIP
    && EligibleIgnoringBatch(p, p.Slot(e.slotID), pol, target, now)
  }

  predicate MayServe(p: Pool, e: PreferredExit, pol: Policy, target: string, now: Time) {
    e.slotID in p.slots && Eligible(p, p.Slot(e.slotID), pol, target, now)
  }

  function LoadOf(p: Pool, e: PreferredExit): int {
    if e.slotID in p.slots then p.Slot(e.slotID).Load() else 0
  }

  /** The ring that survives this selection. */
  function KeptRing(p: Pool, pol: Policy, target: string, now: Time): seq<PreferredExit> {
    if target !in p.preferred then []
    else Filter(Prune(p.preferred[target], now), (e: PreferredExit) => StillGood(p, e, pol, target, now))
  }

  function PreferredChoice(p: Pool, pol: Policy, target: string,
                           now: Time): Option<(PreferredExit, seq<PreferredExit>)> {
    Serve(KeptRing(p, pol, target, now),
          (e: PreferredExit) => MayServe(p, e, pol, target, now),
          (e: PreferredExit) => LoadOf(p, e))
  }

  function SetRing(p: Pool, target: string, ring: seq<PreferredExit>): Pool {
    p.(preferred := if ring == [] then p.preferred - {target} else p.preferred[target := ring])
  }

  function Choose(p: Pool, pol: Policy, h: Handle, origin: Origin, now: Time): (Pool, Result<Choice, Error>) {
    match Refusal(p, pol, now)
    case Some(e) => (Refused(p, pol, now), Err(e))
    case None => (Reserved(p, pol, h, now), Ok(Choice(h, origin, Ticket(p, pol, h, now))))
  }

  function Scope(pol: Policy, target: string): string { if pol.healthScope != "" then pol.healthScope else target }

  /** One selection: expire, check the limits, then sticky session, preferred ring,
      ready slots, recycling and cold slots, in that order. */
  function Pick(p: Pool, pol: Policy, requested: string, now: Time, luck: Luck): (Pool, Result<Choice, Error>)
    requires p.Wf()
  {
    var q := DropLapsed(Expire(p, now), luck.lapsed, now);
    var target := Scope(pol, requested);
    if pol.ttl > q.opts.maxSessionTTL then (q, Err(PolicyLimit))
    else if pol.batchTTL > q.opts.maxBatchTTL then (q, Err(PolicyLimit))
    else if q.opts.maxConcurrentConns > 0 && q.leased + q.pendingLeases >= q.opts.maxConcurrentConns then (q, Err(Busy))
    else PickSticky(q, pol, target, now, luck)
  }

  /** The live session's slot, while it is still usable. */
  function StickySlot(p: Pool, pol: Policy, target: string, now: Time): Option<Handle> {
    if pol.session == "" || pol.session !in p.sessions then None
    else
      var sess := p.sessions[pol.session];
      if now < sess.expiresAt && sess.slotID in p.slots && Eligible(p, p.Slot(sess.slotID), pol, target, now)
      then Some(p.slots[sess.slotID]) else None
  }

  function PickSticky(p: Pool, pol: Policy, target: string, now: Time, luck: Luck): (Pool, Result<Choice, Error>)
    requires forall id :: id in p.order ==> id in p.slots
  {
    match StickySlot(p, pol, target, now)
    case Some(h) => Choose(ExtendSession(p, pol, now), pol, h, FromSession, now)
    case None => PickPreferred(ForgetSession(p, pol, now), pol, target, now, luck)
  }

  function ExtendSession(p: Pool, pol: Policy, now: Time): Pool
    requires pol.session in p.sessions
  {
    p.(sessions := p.sessions[pol.session := p.sessions[pol.session].(expiresAt := now + SessionTTL(p, pol))])
  }

  /** A live session whose slot became unusable is dropped. */
  function ForgetSession(p: Pool, pol: Policy, now: Time): Pool {
    p.(sessions := if pol.session != "" && pol.session in p.sessions && now < p.sessions[pol.session].expiresAt
                   then p.sessions - {pol.session} else p.sessions)
  }

  function PickPreferred(p: Pool, pol: Policy, target: string, now: Time, luck: Luck): (Pool, Result<Choice, Error>)
    requires forall id :: id in p.order ==> id in p.slots
  {
    if target == "" || target !in p.preferred then PickAny(p, pol, target, now, luck)
    else
      match PreferredChoice(p, pol, target, now)
      case None => PickAny(SetRing(p, target, KeptRing(p, pol, target, now)), pol, target, now, luck)
      case Some((e, ring)) =>
        if e.slotID !in p.slots then (p, Err(NoCandidate))
        else Choose(SetRing(p, target, ring), pol, p.slots[e.slotID], FromPreferred, now)
  }

  function PickAny(p: Pool, pol: Policy, target: string, now: Time, luck: Luck): (Pool, Result<Choice, Error>)
    requires forall id :: id in p.order ==> id in p.slots
  {
    var cands := Candidates(p, pol, target, now, |p.order|);
    var ready := ReadyOnes(p, cands);
    if cands == [] then
      match OldestBurn(p, pol, target, now)
      case Some(h) => Choose(StampBatch(p, pol.uniqueBatch, p.At(h).publicIP, now), pol, h, FromRecycling, now)
      case None => (p, Err(NoCandidate))
    else if ready != [] then Choose(p, pol, ready[luck.roll % |ready|], FromReady, now)
    else PickCold(p, pol, cands[luck.roll % |cands|], now, luck)
  }

  /** Selection of a slot whose tunnel has to be opened. */
  function PickCold(p: Pool, pol: Policy, h: Handle, now: Time, luck: Luck): (Pool, Result<Choice, Error>) {
    var (q, available) := BudgetAvailable(p, now);
    if !available then (q, Err(TunnelBudgetSpent))
    else
      match ReserveCapacity(q, luck.victim)
      case (r, false) => (r, Err(Capacity))
      case (r, true) => Choose(r, pol, h, FromCold, now)
  }

  // ---------------------------------------------------------------------
  // Tunnel capacity and the new-tunnel budget.

  function CountEntries(entries: seq<EntryState>): nat {
    if entries == [] then 0
    else CountEntries(entries[..|entries| - 1]) + (if entries[|entries| - 1].Occupied() then 1 else 0)
  }

  /** The members whose tunnel is open or being opened. */
  function Occupied(p: Pool): set<string> {
    set id | id in p.slots.Keys && p.At(p.slots[id]).Occupied()
  }

  function TunnelCount(p: Pool): nat { |Occupied(p)| + CountEntries(p.entries) + p.probes }

  predicate Idle(p: Pool, h: Handle) { p.IsMember(h) && p.At(h).open && p.At(h).Load() == 0 }

  /** An idle tunnel that no other idle tunnel has been unused longer than. */
  predicate IsVictim(p: Pool, h: Handle) {
    Idle(p, h) && forall g | g in p.states.Keys :: Idle(p, g) ==> p.At(h).lastUsed <= p.At(g).lastUsed
  }

  /** The tunnel budget is full, so the victim, if it is one, has to go. */
  predicate Evicts(p: Pool, victim: Handle) {
    p.opts.maxActive > 0 && TunnelCount(p) >= p.opts.maxActive && IsVictim(p, victim)
  }

  /** Room for one more tunnel, evicting the least recently used idle one if the
      budget is full. */
  function ReserveCapacity(p: Pool, victim: Handle): (Pool, bool) {
    (p.(states := if Evicts(p, victim) then p.states[victim := p.At(victim).(open := false)] else p.states),
     p.opts.maxActive <= 0 || TunnelCount(p) < p.opts.maxActive || IsVictim(p, victim))
  }

  /** The victim names an idle tunnel whenever there is one to evict. */
  ghost predicate FairVictim(p: Pool, victim: Handle) {
    (exists h :: IsVictim(p, h)) ==> IsVictim(p, victim)
  }

  /** The pruned list and whether another tunnel may be opened. */
  function BudgetAvailable(p: Pool, now: Time): (Pool, bool) {
    var opens := if p.opts.newTunnelBudget <= 0 then p.opens else PruneOpens(p.opens, now, p.opts.newTunnelWindow);
    (p.(opens := opens), p.opts.newTunnelBudget <= 0 || |opens| + p.pendingOpens < p.opts.newTunnelBudget)
  }

  function ReserveOpen(p: Pool, now: Time): (Pool, bool) {
    var (q, ok) := BudgetAvailable(p, now);
    (q.(pendingOpens := if ok then q.pendingOpens + 1 else q.pendingOpens), ok)
  }

  function CommitOpen(p: Pool, now: Time): Pool {
    p.(pendingOpens := Dec(p.pendingOpens),
       opens := PruneOpens(p.opens, now, p.opts.newTunnelWindow) + [now])
  }

  /** Reading the statistics and warming up drop the contacts that left the window. */
  function TrimOpens(p: Pool, now: Time): Pool {
    p.(opens := PruneOpens(p.opens, now, p.opts.newTunnelWindow))
  }

  function RollbackOpen(p: Pool): Pool { p.(pendingOpens := Dec(p.pendingOpens)) }

  /** Start opening a tunnel: capacity first, then budget. */
  function BeginOpen(p: Pool, now: Time, victim: Handle): (Pool, Option<Error>) {
    match ReserveCapacity(p, victim)
    case (q, false) => (q, Some(Capacity))
    case (q, true) =>
      match ReserveOpen(q, now)
      case (r, false) => (r, Some(TunnelBudgetSpent))
      case (r, true) => (r, None)
  }

  // ---------------------------------------------------------------------
  // Feedback, measurement and maintenance.

  function Shift(base: int, k: nat): int { if k == 0 then base else 2 * Shift(base, k - 1) }

  /** Exponential backoff over at most five doublings, capped. */
  function Backoff(base: int, doublings: int, cap: int): int {
    Min(Shift(base, if doublings < 0 then 0 else Min(doublings, 5)), cap)
  }

  const MINUTE: int := 60_000_000_000

  function NoteFailure(p: Pool, h: Handle, now: Time): Pool {
    var s := p.At(h);
    p.With(h, s.(failures := s.failures + 1,
                 disabledUntil := now + Backoff(p.opts.failureBackoff, s.failures, 30 * MINUTE),
                 open := false))
  }

  /** A failed probe is counted, without a backoff. */
  function CountFailure(p: Pool, h: Handle): Pool { p.With(h, p.At(h).(failures := p.At(h).failures + 1)) }

  function DropSession(p: Pool, name: string): Pool { p.(sessions := p.sessions - {name}) }

  /** A cooldown only ever moves later. */
  function Cooled(m: map<(string, Addr), Time>, target: string, ip: Addr, until: Time): map<(string, Addr), Time> {
    if target == "" || ip == NoAddr then m
    else if (if (target, ip) in m then m[(target, ip)] else ZERO_TIME) < until then m[(target, ip) := until]
    else m
  }

  function Released(b: BatchState, slotID: string): BatchState {
    if slotID in b.usedSlots then b.Release(slotID) else b
  }

  /** Release the slot from every batch that consumed it, and forget the batches this
      empties. */
  function ReleaseEverywhere(batches: map<string, BatchState>, slotID: string): map<string, BatchState> {
    map n | n in batches.Keys && !(slotID in batches[n].usedSlots && Released(batches[n], slotID).usedSlots == {}) ::
      Released(batches[n], slotID)
  }

  datatype Complaint = Complaint(session: string, slot: string, publicIP: Addr, target: string, cooldown: int)

  function ReportedSlot(p: Pool, c: Complaint): (r: Result<string, Error>)
    ensures r.Ok? ==> r.value in p.slots
  {
    var id :=
      if c.slot == "" && c.session != "" then
        if c.session in p.sessions then p.sessions[c.session].slotID else ""
      else c.slot;
    if c.slot == "" && c.session != "" && c.session !in p.sessions then Err(UnknownSession)
    else if id !in p.slots then Err(UnknownSlot)
    else if c.publicIP != NoAddr && p.Slot(id).publicIP != c.publicIP then Err(IdentityMismatch)
    else Ok(id)
  }

  function CooldownOf(p: Pool, c: Complaint): int { if c.cooldown <= 0 then p.opts.cooldown else c.cooldown }

  /** The slot's own record of a complaint: global, or for one destination. */
  function Punished(s: SlotState, target: string, until: Time): SlotState {
    s.(disabledUntil := if target == "" then until else s.disabledUntil,
       cooldowns := if target == "" then s.cooldowns else s.cooldowns[target := until])
  }

  /** The rings after an address is forgotten for one destination. */
  function Unpreferred(rings: map<string, seq<PreferredExit>>, target: string,
                       ip: Addr): map<string, seq<PreferredExit>> {
    if target == "" || target !in rings then rings
    else if RemoveIP(rings[target], ip) == [] then rings - {target}
    else rings[target := RemoveIP(rings[target], ip)]
  }

  /** Put a slot on cooldown, forget it as a preference, release it from every batch
      and rotate the reporting session. */
  function Punish(p: Pool, id: string, c: Complaint, now: Time): Pool
    requires id in p.slots
  {
    var h := p.slots[id];
    var until := now + CooldownOf(p, c);
    p.(states := p.states[h := Punished(p.At(h), c.target, until)],
       ipCooldowns := Cooled(p.ipCooldowns, c.target, p.At(h).publicIP, until),
       preferred := Unpreferred(p.preferred, c.target, p.At(h).publicIP),
       batches := ReleaseEverywhere(p.batches, id),
       sessions := if c.session == "" then p.sessions else p.sessions - {c.session})
  }

  function Report(p: Pool, c: Complaint, now: Time): (Pool, Result<string, Error>) {
    match ReportedSlot(p, c)
    case Err(e) => (p, Err(e))
    case Ok(id) => (Punish(p, id, c, now), Ok(id))
  }

  datatype Praise = Praise(slot: string, publicIP: Addr, target: string, ttl: int)

  function RingFor(p: Pool, target: string): seq<PreferredExit> {
    if target in p.preferred then p.preferred[target] else []
  }

  function Refusable(p: Pool, c: Praise): Option<Error> {
    if c.target == "" then Some(Rejected)
    else if c.slot !in p.slots then Some(UnknownSlot)
    else if p.Slot(c.slot).spec.rotating then Some(Rejected)
    else if p.Slot(c.slot).publicIP == NoAddr then Some(Rejected)
    else if c.publicIP != NoAddr && p.Slot(c.slot).publicIP != c.publicIP then Some(IdentityMismatch)
    else None
  }

  function Remembered(p: Pool, scope: string, slotID: string, ip: Addr, until: Time): Pool {
    p.(preferred := p.preferred[scope := Remember(RingFor(p, scope), slotID, ip, until, p.opts.preferredMax)])
  }

  /** Record that a slot served a destination. */
  function Prefer(p: Pool, c: Praise, now: Time): (Pool, Option<Error>) {
    if Refusable(p, c).Some? then (p, Refusable(p, c))
    else
      (Remembered(p, c.target, c.slot, p.Slot(c.slot).publicIP, now
          + (if c.ttl <= 0 then p.opts.preferredTTL else c.ttl)), None)
  }

  /** Record a measurement and add it to every live batch that reserved the slot. */
  function SetPublicIP(p: Pool, h: Handle, ip: Addr, checkedAt: Time, now: Time): Pool {
    p.(states := p.states[h := p.At(h).(publicIP := ip, ipCheckedAt := checkedAt)],
       batches := map n | n in p.batches.Keys && !(now > p.batches[n].expiresAt) ::
           Backfilled(p.batches[n], p.At(h).spec.id, ip, now))
  }

  function Backfilled(b: BatchState, slotID: string, ip: Addr, now: Time): BatchState {
    if slotID in b.usedSlots then b.AddIP(slotID, ip, now) else b
  }

  /** Restore one saved preference: unexpired, and the slot still has that address. */
  function RestorePreference(p: Pool, scope: string, e: PreferredExit, now: Time): Pool {
    p.(preferred :=
      if Restorable(p, e, now) then p.preferred[scope := Remember(RingFor(p, scope), e.slotID, e.publicIP, e.expiresAt,
          p.opts.preferredMax)]
      else p.preferred)
  }

  predicate Restorable(p: Pool, e: PreferredExit, now: Time) {
    now < e.expiresAt && e.slotID in p.slots && e.publicIP != NoAddr && p.Slot(e.slotID).publicIP == e.publicIP
  }

  predicate HasMeasuredIP(p: Pool, ip: Addr) {
    exists id | id in p.slots.Keys :: p.Slot(id).publicIP == ip
  }

  /** Restore one saved cooldown: unexpired, on an address some slot has. */
  function RestoreCooldown(p: Pool, scope: string, ip: Addr, until: Time, now: Time): Pool {
    p.(ipCooldowns := if !(now < until) || !HasMeasuredIP(p, ip) then p.ipCooldowns
        else Cooled(p.ipCooldowns, scope, ip, until))
  }

  /** Tunnels housekeeping closes: idle for longer than the timeout. */
  predicate IdleTooLong(p: Pool, h: Handle, now: Time) {
    && p.opts.idleTimeout > 0 && p.IsMember(h)
    && p.At(h).spec.kind == WireGuard && p.At(h).open && p.At(h).leases == 0
    && p.At(h).lastUsed != ZERO_TIME && now - p.At(h).lastUsed > p.opts.idleTimeout
  }

  function Housekeep(p: Pool, now: Time): Pool {
    var q := Expire(p, now);
    q.(states := map h | h in q.states.Keys :: if IdleTooLong(q, h, now) then q.states[h].(open := false)
        else q.states[h])
  }

  // ---------------------------------------------------------------------
  // Relay reconciliation and construction.

  /** The refresh lists relay slots with distinct, non-empty IDs. */
  predicate RelaysWellFormed(specs: seq<Spec>) {
    && specs != []
    && (forall i | 0 <= i < |specs| :: specs[i].kind == RelaySocks && specs[i].id != "")
    && (forall i, j | 0 <= i < j < |specs| :: specs[i].id != specs[j].id)
  }

  /** Some refreshed relay would take the ID of a slot that is not a relay. */
  predicate Collides(p: Pool, specs: seq<Spec>) {
    exists i | 0 <= i < |specs| :: specs[i].id in p.slots && p.Slot(specs[i].id).spec.kind != RelaySocks
  }

  /** The non-relay members, which a reconciliation keeps. */
  function KeptSlots(p: Pool): map<string, Handle> {
    map id | id in p.slots.Keys && p.Slot(id).spec.kind != RelaySocks :: p.slots[id]
  }

  /** Install the first `n` relay specs: retained identities keep their state under
      the new spec, others get a fresh state. */
  function InstallRelays(p: Pool, specs: seq<Spec>, n: nat, next: map<string, Handle>): (Pool, map<string, Handle>)
    requires n <= |specs|
  {
    if n == 0 then (p, next)
    else
      var (q, m) := InstallRelays(p, specs, n - 1, next);
      InstallRelay(q, specs[n - 1], m)
  }

  function InstallRelay(p: Pool, spec: Spec, next: map<string, Handle>): (Pool, map<string, Handle>) {
    var retained := spec.id in p.slots;
    var h := if retained then p.slots[spec.id] else p.nextHandle;
    (p.(states := p.states[h := if retained then p.At(h).(spec := spec) else NewSlotState(spec)],
        nextHandle := if retained then p.nextHandle else p.nextHandle + 1),
     next[spec.id := h])
  }

  /** Give the retained relays named in `done` their new spec. */
  function Respec(p: Pool, specs: seq<Spec>, done: set<string>, n: nat): Pool
    requires n <= |specs|
  {
    if n == 0 then p
    else
      RespecRelay(Respec(p, specs, done, n - 1), specs[n - 1], done)
  }

  function RespecRelay(p: Pool, spec: Spec, done: set<string>): Pool {
    p.(states := if spec.id in done && spec.id in p.slots && p.Slot(spec.id).spec.kind == RelaySocks
                 then p.states[p.slots[spec.id] := p.Slot(spec.id).(spec := spec)] else p.states)
  }

  /** Replace the relay membership. A refresh that collides is refused, but the
      retained relays in `done`, met before the collision, already have their new
      spec. */
  ghost function Reconcile(p: Pool, specs: seq<Spec>, done: set<string>): (Pool, bool) {
    if !RelaysWellFormed(specs) then (p, false)
    else if Collides(p, specs) then (Respec(p, specs, done, |specs|), false)
    else
      var (q, next) := InstallRelays(p, specs, |specs|, KeptSlots(p));
      (q.(slots := next, order := Listing(next.Keys),
          sessions := map n | n in q.sessions.Keys && q.sessions[n].slotID in next :: q.sessions[n]), true)
  }

  /** The membership of a new pool: one fresh state per spec. */
  function InitialSlots(specs: seq<Spec>, n: nat): (map<string, Handle>, map<Handle, SlotState>)
    requires n <= |specs|
  {
    if n == 0 then (map[], map[])
    else
      var (slots, states) := InitialSlots(specs, n - 1);
      (slots[specs[n - 1].id := n - 1], states[n - 1 := NewSlotState(specs[n - 1])])
  }

  /** Construction succeeds on a non-empty list of slots with distinct IDs, and needs
      an entry tunnel when one of them is a relay. */
  predicate Constructible(specs: seq<Spec>, entries: nat, opts: Options) {
    && specs != [] && opts.Defaulted()
    && (forall i, j | 0 <= i < j < |specs| :: specs[i].id != specs[j].id)
    && ((exists i | 0 <= i < |specs| :: specs[i].kind == RelaySocks) ==> entries > 0)
  }

  ghost function NewPool(specs: seq<Spec>, entries: nat, opts: Options): Pool {
    var (slots, states) := InitialSlots(specs, |specs|);
    Pool(opts, states, |specs|, slots, Listing(slots.Keys), map[], map[], map[], 0, map[], map[],
         seq(entries, _ => NEW_ENTRY), [], 0, 0, 0, 0)
  }
}
