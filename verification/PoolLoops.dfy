/** What the pool's loops have done part of the way through: the value-level steps behind
    their invariants. */
module PoolLoops {
  import opened Common
  import opened PolicyTypes
  import opened Batches
  import opened Preferred
  import opened TunnelBudget
  import opened PoolState
  import opened Selection
  import opened Lapsed
  import Text
  import WellFormed

  // ---------------------------------------------------------------------
  // Expiry.

  /** The sessions, the stale ones dropped but for those in `todo`. */
  function SomeSessions(sessions: map<string, Session>, todo: set<string>, now: Time): map<string, Session> {
    map n | n in sessions.Keys && (n in todo || !(now > sessions[n].expiresAt)) :: sessions[n]
  }

  /** The batches, likewise. */
  function SomeBatches(batches: map<string, BatchState>, todo: set<string>, now: Time): map<string, BatchState> {
    map n | n in batches.Keys && (n in todo || !(now > batches[n].expiresAt)) :: batches[n]
  }

  /** The address cooldowns, likewise. */
  function SomeAddresses(cooldowns: Cooldowns, todo: set<(string, Addr)>, now: Time): Cooldowns {
    map k | k in cooldowns.Keys && (k in todo || !(now > cooldowns[k])) :: cooldowns[k]
  }

  /** The rings, all pruned but those in `todo`, without the ones this emptied. */
  function SomePruned(rings: map<string, seq<PreferredExit>>, todo: set<string>,
                      now: Time): map<string, seq<PreferredExit>> {
    map t | t in rings.Keys && (t in todo || Prune(rings[t], now) != []) ::
      if t in todo then rings[t] else Prune(rings[t], now)
  }

  /** The states, all rid of expired cooldowns but those of the members in `todo`. */
  function SomeCooled(states: map<Handle, SlotState>, slots: map<string, Handle>, todo: set<string>,
                      now: Time): map<Handle, SlotState> {
    map h | h in states.Keys ::
      var id := states[h].spec.id;
      if id in slots && slots[id] == h && id !in todo then ExpireCooldowns(states[h], now) else states[h]
  }

  method DropExpired(cooldowns: map<string, Time>, now: Time) returns (kept: map<string, Time>)
    ensures kept == map t | t in cooldowns.Keys && !(now > cooldowns[t]) :: cooldowns[t]
  {
    kept := cooldowns;
    var todo := cooldowns.Keys;
    while todo != {}
      invariant todo <= cooldowns.Keys
      invariant kept == map t | t in cooldowns.Keys && (t in todo || !(now > cooldowns[t])) :: cooldowns[t]
    {
      var target :| target in todo;
      if now > cooldowns[target] { kept := kept - {target}; }
      todo := todo - {target};
    }
  }

  lemma CoolOne(states: map<Handle, SlotState>, slots: map<string, Handle>, todo: set<string>, id: string, now: Time)
    requires id in todo && id in slots && slots[id] in states && states[slots[id]].spec.id == id
    ensures var some := SomeCooled(states, slots, todo, now);
            && some[slots[id]] == states[slots[id]]
            && SomeCooled(states, slots, todo - {id}, now) == some[slots[id] := ExpireCooldowns(states[slots[id]], now)]
  {
    hide ExpireCooldowns;
    var h := slots[id];
    var some, more := SomeCooled(states, slots, todo, now), SomeCooled(states, slots, todo - {id}, now);
    forall g | g in states.Keys ensures more[g] == (if g == h then ExpireCooldowns(states[h], now) else some[g]) {
      if g != h && states[g].spec.id == id { assert slots[id] != g; }
    }
  }

  /** With nothing left to do everything stale is gone. */
  lemma ExpiredAll(p: Pool, now: Time)
    requires p.Wf()
    ensures SomeCooled(p.states, p.slots, {}, now) == Expire(p, now).states
    ensures SomePruned(p.preferred, {}, now) == Expire(p, now).preferred
  {
    hide ExpireCooldowns;
    hide Prune;
  }

  /** Every member has a state under its own name. */
  ghost predicate MembersKnown(slots: map<string, Handle>, states: map<Handle, SlotState>) {
    forall id :: id in slots ==> slots[id] in states && states[slots[id]].spec.id == id
  }

  /** The parts of an expired pool. */
  lemma ExpiredIs(p: Pool, now: Time)
    requires p.Wf()
    ensures MembersKnown(p.slots, p.states)
    ensures Expire(p, now)
            == p.(sessions := SomeSessions(p.sessions, {}, now), batches := SomeBatches(p.batches, {}, now),
                  preferred := SomePruned(p.preferred, {}, now), states := SomeCooled(p.states, p.slots, {}, now),
                  ipCooldowns := SomeAddresses(p.ipCooldowns, {}, now))
  {
    ExpiredAll(p, now);
    hide ExpireCooldowns;
    hide Prune;
    hide SomeCooled;
    hide SomePruned;
  }

  // ---------------------------------------------------------------------
  // Tunnel capacity.

  /** The members among `ids` whose tunnel is open or being opened. */
  function OccupiedAmong(p: Pool, ids: set<string>): set<string> {
    set id | id in ids && id in p.slots && p.At(p.slots[id]).Occupied()
  }

  lemma OccupiedOne(p: Pool, ids: set<string>, id: string)
    requires id !in ids && id in p.slots
    ensures |OccupiedAmong(p, ids + {id})| == |OccupiedAmong(p, ids)| + (if p.Slot(id).Occupied() then 1 else 0)
  {
    var more := OccupiedAmong(p, ids + {id});
    if p.Slot(id).Occupied() {
      assert more == OccupiedAmong(p, ids) + {id};
    } else {
      assert more == OccupiedAmong(p, ids);
    }
  }

  lemma EntriesOne(entries: seq<EntryState>, i: nat)
    requires i < |entries|
    ensures CountEntries(entries[..i + 1]) == CountEntries(entries[..i]) + (if entries[i].Occupied() then 1 else 0)
  {
    assert entries[..i + 1][..i] == entries[..i];
  }

  /** No idle member among `ids` has been unused longer than `h`. */
  ghost predicate LeastAmong(p: Pool, ids: set<string>, h: Handle) {
    forall id :: id in ids && id in p.slots && Idle(p, p.slots[id]) ==> p.At(h).lastUsed <= p.Slot(id).lastUsed
  }

  lemma LeastIsVictim(p: Pool, h: Handle)
    requires Idle(p, h) && LeastAmong(p, p.slots.Keys, h)
    ensures IsVictim(p, h)
  {
    forall g | g in p.states.Keys && Idle(p, g) ensures p.At(h).lastUsed <= p.At(g).lastUsed {
      assert p.slots[p.states[g].spec.id] == g;
    }
  }

  lemma NoneIdle(p: Pool)
    requires forall id :: id in p.slots ==> !Idle(p, p.slots[id])
    ensures forall h :: !Idle(p, h)
  {
    forall h ensures !Idle(p, h) {
      assert p.IsMember(h) ==> p.slots[p.states[h].spec.id] == h;
    }
  }

  /** Some choice of a victim is fair. */
  lemma SomeVictim(p: Pool) returns (victim: Handle)
    ensures FairVictim(p, victim)
  {
    victim := 0;
    if h :| IsVictim(p, h) { victim := h; }
  }

  // ---------------------------------------------------------------------
  // Selection.

  /** Case-insensitive search of a list; the empty label is never found. */
  method FindFold(list: seq<string>, value: string) returns (found: bool)
    ensures found == ContainsFold(list, value)
  {
    if value == "" { return false; }
    for i := 0 to |list|
      invariant forall k :: 0 <= k < i ==> Text.Lower(list[k]) != Text.Lower(value)
    {
      if Text.Lower(list[i]) == Text.Lower(value) { return true; }
    }
    return false;
  }

  /** The slot is the one asked for, of the provider and in the place asked for. */
  predicate Labelled(s: SlotState, pol: Policy) {
    && (pol.slot != "" ==> s.spec.id == pol.slot)
    && (pol.provider != "" ==> s.spec.provider == pol.provider)
    && (|pol.countries| > 0 ==> ContainsFold(pol.countries, s.spec.country))
    && (|pol.cities| > 0 ==> ContainsFold(pol.cities, s.spec.city))
  }

  /** The slot's address is known well enough for what is asked, and not refused. */
  predicate FreshEnough(s: SlotState, pol: Policy, interval: int, now: Time) {
    && !(s.spec.rotating && RequiresFreshIP(pol))
    && (RequiresFreshIP(pol) ==> s.publicIP != NoAddr && s.ipCheckedAt != ZERO_TIME && now < s.ipCheckedAt + interval)
    && s.publicIP !in pol.excludeIPs
  }

  /** No live batch of that name has consumed the slot or its address. */
  predicate BatchAllows(s: SlotState, pol: Policy, batches: map<string, BatchState>, now: Time) {
    pol.uniqueBatch != "" && pol.uniqueBatch in batches && now < batches[pol.uniqueBatch].expiresAt ==>
      && s.spec.id !in batches[pol.uniqueBatch].usedSlots
      && s.publicIP !in batches[pol.uniqueBatch].usedIPs
  }

  lemma EligibleParts(p: Pool, s: SlotState, pol: Policy, target: string, now: Time)
    ensures Eligible(p, s, pol, target, now)
            == (&& !(now < s.disabledUntil)
                && Labelled(s, pol)
                && !s.CoolingDown(target, now)
                && !IPCoolingDown(p, target, s.publicIP, now)
                && (p.opts.maxConnsPerExit > 0 ==> s.leases + s.pendingLeases < p.opts.maxConnsPerExit)
                && FreshEnough(s, pol, p.opts.ipRefreshInterval, now)
                && BatchAllows(s, pol, p.batches, now))
  {
    hide ContainsFold;
    hide IPCoolingDown;
    hide SlotState.CoolingDown;
    hide RequiresFreshIP;
  }

  method MatchLabels(s: SlotState, pol: Policy) returns (ok: bool)
    ensures ok == Labelled(s, pol)
  {
    if pol.slot != "" && s.spec.id != pol.slot { return false; }
    if pol.provider != "" && s.spec.provider != pol.provider { return false; }
    if |pol.countries| > 0 {
      var found := FindFold(pol.countries, s.spec.country);
      if !found { return false; }
    }
    if |pol.cities| > 0 {
      var found := FindFold(pol.cities, s.spec.city);
      if !found { return false; }
    }
    return true;
  }

  method CheckFresh(s: SlotState, pol: Policy, interval: int, now: Time) returns (ok: bool)
    ensures ok == FreshEnough(s, pol, interval, now)
  {
    var needed := pol.uniqueBatch != "" || |pol.excludeIPs| > 0;
    if s.spec.rotating && needed { return false; }
    var measured := s.publicIP != NoAddr && s.ipCheckedAt != ZERO_TIME && now < s.ipCheckedAt + interval;
    if needed && !measured { return false; }
    for i := 0 to |pol.excludeIPs|
      invariant s.publicIP !in pol.excludeIPs[..i]
    {
      if pol.excludeIPs[i] == s.publicIP { return false; }
    }
    assert pol.excludeIPs[..|pol.excludeIPs|] == pol.excludeIPs;
    return true;
  }

  method CheckBatch(s: SlotState, pol: Policy, batches: map<string, BatchState>, now: Time) returns (ok: bool)
    ensures ok == BatchAllows(s, pol, batches, now)
  {
    if pol.uniqueBatch != "" && pol.uniqueBatch in batches && now < batches[pol.uniqueBatch].expiresAt {
      if s.spec.id in batches[pol.uniqueBatch].usedSlots { return false; }
      if s.publicIP in batches[pol.uniqueBatch].usedIPs { return false; }
    }
    return true;
  }

  lemma SameItself(p: Pool, now: Time)
    ensures SameRunning(p, p.ipCooldowns, now)
  {}

  /** A test made with the cooldowns `c` decides as one made at the start would. */
  lemma SameNow(p: Pool, c: Cooldowns, d: Cooldowns, s: SlotState, pol: Policy, target: string, now: Time)
    requires SameRunning(p, c, now) && SameRunning(Cooling(p, c), d, now)
    ensures SameRunning(p, d, now)
    ensures Eligible(Cooling(p, c), s, pol, target, now) == Eligible(p, s, pol, target, now)
  {
    hide Eligible;
    SameEligible(p, c, s, pol, target, now);
  }

  /** `oldest` is the first of `hs` whose address the batch burned longest ago. */
  ghost predicate OldestSoFar(p: Pool, b: BatchState, hs: seq<Handle>, oldest: Option<Handle>) {
    match OldestIn(b, AsCandidates(p, hs), |hs|)
    case None => oldest.None?
    case Some(k) => oldest == Some(hs[k])
  }

  lemma {:induction false} SameOldest(b: BatchState, cs: seq<Candidate>, ds: seq<Candidate>, n: nat)
    requires n <= |cs| && n <= |ds| && cs[..n] == ds[..n]
    ensures OldestIn(b, cs, n) == OldestIn(b, ds, n)
  {
    if n > 0 {
      assert forall i :: 0 <= i < n ==> cs[i] == cs[..n][i] == ds[..n][i] == ds[i];
      assert cs[..n - 1] == ds[..n - 1];
      SameOldest(b, cs, ds, n - 1);
    }
  }

  lemma OldestOneMore(p: Pool, b: BatchState, hs: seq<Handle>, oldest: Option<Handle>, h: Handle)
    requires OldestSoFar(p, b, hs, oldest)
    ensures var ip := p.At(h).publicIP;
            OldestSoFar(p, b, hs + [h],
                        if ip in b.usedIPs && (oldest.None? || BurnOf(b, ip) < BurnOf(b, p.At(oldest.value).publicIP))
                            then Some(h) else oldest)
  {
    hide BurnOf;
    var cs, ds := AsCandidates(p, hs), AsCandidates(p, hs + [h]);
    assert cs[..|hs|] == ds[..|hs|] by {
      forall i | 0 <= i < |hs| ensures cs[i] == ds[i] {}
    }
    SameOldest(b, cs, ds, |hs|);
    assert ds[|hs|].ip == p.At(h).publicIP;
  }

  /** The burn number of an address, zero when it was never burned. */
  function Burn(b: BatchState, ip: Addr): (n: nat)
    ensures n == BurnOf(b, ip)
  {
    if ip in b.burnSeq then b.burnSeq[ip] else 0
  }

  lemma RecyclableNone(p: Pool, b: BatchState, pol: Policy, target: string, now: Time)
    requires Ordered(p)
    ensures OldestSoFar(p, b, Recyclable(p, pol, target, now, 0), None)
  {}

  /** Looking at one more member. */
  lemma RecyclableOne(p: Pool, b: BatchState, pol: Policy, target: string, now: Time, i: nat, oldest: Option<Handle>)
    requires Ordered(p) && i < |p.order| && OldestSoFar(p, b, Recyclable(p, pol, target, now, i), oldest)
    requires p.order[i] in p.slots
    ensures var h := p.slots[p.order[i]];
            var ip := p.At(h).publicIP;
            OldestSoFar(p, b, Recyclable(p, pol, target, now, i + 1),
                        if EligibleIgnoringBatch(p, p.At(h), pol, target, now) && ip in b.usedIPs
                           && (oldest.None? || BurnOf(b, ip) < BurnOf(b, p.At(oldest.value).publicIP)) then Some(h)
                               else oldest)
  {
    hide EligibleIgnoringBatch;
    hide OldestSoFar;
    hide BurnOf;
    OldestOneMore(p, b, Recyclable(p, pol, target, now, i), oldest, p.slots[p.order[i]]);
  }

  lemma OldestBurnIs(p: Pool, pol: Policy, target: string, now: Time)
    requires Ordered(p)
    ensures !pol.recycleBatch || pol.uniqueBatch == "" || pol.uniqueBatch !in p.batches
            || !(now < p.batches[pol.uniqueBatch].expiresAt)
            ==> OldestBurn(p, pol, target, now).None?
    ensures forall oldest ::
              pol.recycleBatch && pol.uniqueBatch != "" && pol.uniqueBatch in p.batches
                  && now < p.batches[pol.uniqueBatch].expiresAt
              && OldestSoFar(p, p.batches[pol.uniqueBatch], Recyclable(p, pol, target, now, |p.order|), oldest)
              ==> OldestBurn(p, pol, target, now) == oldest
  {
    hide Eligible;
  }

  /** The entries of `s` that are still good for the request. */
  ghost function Kept(p: Pool, pol: Policy, target: string, now: Time, s: seq<PreferredExit>): seq<PreferredExit> {
    Filter(s, (e: PreferredExit) => StillGood(p, e, pol, target, now))
  }

  /** The first least-loaded entry of `s` that may serve. */
  ghost function Best(p: Pool, pol: Policy, target: string, now: Time, s: seq<PreferredExit>): Option<nat> {
    LeastLoaded(s, (e: PreferredExit) => MayServe(p, e, pol, target, now), (e: PreferredExit) => LoadOf(p, e), |s|)
  }

  lemma NothingKept(p: Pool, pol: Policy, target: string, now: Time)
    ensures Kept(p, pol, target, now, []) == [] && Best(p, pol, target, now, []) == None
  {}

  lemma WfMembers(p: Pool)
    requires p.Wf()
    ensures MembersKnown(p.slots, p.states) && WellFormed.NamesPending(p.pendingSessions)
  {}

  lemma KeptOne(p: Pool, pol: Policy, target: string, now: Time, s: seq<PreferredExit>, i: nat)
    requires i < |s|
    ensures Kept(p, pol, target, now, s[..i + 1])
            == Kept(p, pol, target, now, s[..i]) + (if StillGood(p, s[i], pol, target, now) then [s[i]] else [])
  {
    hide StillGood;
    var f := (e: PreferredExit) => StillGood(p, e, pol, target, now);
    var g := s[..i + 1];
    assert g[..i] == s[..i] && g[i] == s[i];
    SameFilter(g, (e: PreferredExit) => StillGood(p, e, pol, target, now), f);
    SameFilter(s[..i], (e: PreferredExit) => StillGood(p, e, pol, target, now), f);
    assert Filter(g, f) == if f(g[i]) then Filter(g[..i], f) + [g[i]] else Filter(g[..i], f);
  }

  lemma {:induction false} LeastOfPrefix(s: seq<PreferredExit>, t: seq<PreferredExit>, f: PreferredExit -> bool,
                                         x: PreferredExit -> int, n: nat)
    requires n <= |s| && n <= |t| && s[..n] == t[..n]
    ensures LeastLoaded(s, f, x, n) == LeastLoaded(t, f, x, n)
  {
    if n > 0 {
      assert forall i :: 0 <= i < n ==> s[i] == s[..n][i] == t[..n][i] == t[i];
      assert s[..n - 1] == t[..n - 1];
      LeastOfPrefix(s, t, f, x, n - 1);
    }
  }

  lemma BestOne(p: Pool, pol: Policy, target: string, now: Time, s: seq<PreferredExit>, e: PreferredExit)
    ensures var best := Best(p, pol, target, now, s);
            Best(p, pol, target, now, s + [e])
            == if MayServe(p, e, pol, target, now) && (best.None? || LoadOf(p, e) < LoadOf(p, s[best.value]))
                then Some(|s|) else best
  {
    hide MayServe;
    hide LoadOf;
    var f := (e: PreferredExit) => MayServe(p, e, pol, target, now);
    var x := (e: PreferredExit) => LoadOf(p, e);
    var t := s + [e];
    assert t[..|s|] == s && t[|s|] == e;
    SameLeast(t, (e: PreferredExit) => MayServe(p, e, pol, target, now), f, (e: PreferredExit) => LoadOf(p, e), x, |t|);
    SameLeast(s, (e: PreferredExit) => MayServe(p, e, pol, target, now), f, (e: PreferredExit) => LoadOf(p, e), x, |s|);
    LeastOfPrefix(t, s, f, x, |s|);
    var best := LeastLoaded(s, f, x, |s|);
    assert best.Some? ==> t[best.value] == s[best.value];
  }

  lemma KeptIsRing(p: Pool, pol: Policy, target: string, now: Time)
    requires target in p.preferred
    ensures KeptRing(p, pol, target, now) == Kept(p, pol, target, now, Prune(p.preferred[target], now))
  {
    hide StillGood;
    var ring := Prune(p.preferred[target], now);
    SameFilter(ring, (e: PreferredExit) => StillGood(p, e, pol, target, now),
        (e: PreferredExit) => StillGood(p, e, pol, target, now));
  }

  lemma BestIsServed(p: Pool, pol: Policy, target: string, now: Time)
    ensures var kept := KeptRing(p, pol, target, now);
            PreferredChoice(p, pol, target, now)
            == match Best(p, pol, target, now, kept)
               case None => None
               case Some(k) => Some((kept[k], Preferred.RotateToTail(kept, kept[k].slotID)))
  {
    hide MayServe;
    hide LoadOf;
    hide Preferred.RotateToTail;
    var kept := KeptRing(p, pol, target, now);
    SameLeast(kept, (e: PreferredExit) => MayServe(p, e, pol, target, now),
        (e: PreferredExit) => MayServe(p, e, pol, target, now),
              (e: PreferredExit) => LoadOf(p, e), (e: PreferredExit) => LoadOf(p, e), |kept|);
  }

  lemma KeptIsMember(p: Pool, pol: Policy, target: string, now: Time, s: seq<PreferredExit>, e: PreferredExit)
    requires p.Wf() && e in Kept(p, pol, target, now, s)
    ensures e.slotID in p.slots && p.slots[e.slotID] in p.states && p.Slot(e.slotID).spec.id == e.slotID
  {
    hide Eligible;
    assert StillGood(p, e, pol, target, now);
  }

  lemma RotatedIsKept(s: seq<PreferredExit>, slotID: string)
    ensures |Preferred.RotateToTail(s, slotID)| == |s|
  {}

  lemma SameLater(p: Pool, c: Cooldowns, d: Cooldowns, now: Time)
    requires SameRunning(p, c, now) && SameRunning(Cooling(p, c), d, now)
    ensures SameRunning(p, d, now)
  {}

  lemma SameRunningOf(p: Pool, q: Pool, c: Cooldowns, now: Time)
    requires SameRunning(q, c, now) && q.ipCooldowns == p.ipCooldowns
    ensures SameRunning(p, c, now)
  {}

  /** A victim that is fair among the same states is fair. */
  lemma SameFair(p: Pool, q: Pool, victim: Handle)
    requires FairVictim(q, victim) && q.states == p.states && q.slots == p.slots
    ensures FairVictim(p, victim)
  {
    forall h ensures IsVictim(p, h) == IsVictim(q, h) {
      assert forall g :: Idle(p, g) == Idle(q, g) && p.At(g) == q.At(g);
    }
  }

  /** Expired cooldowns do not matter to eviction. */
  lemma ExpireKeepsFair(p: Pool, now: Time, victim: Handle)
    requires p.Wf() && FairVictim(Expire(p, now), victim)
    ensures FairVictim(p, victim)
  {
    var q := Expire(p, now);
    forall g ensures Idle(p, g) == Idle(q, g) && p.At(g).lastUsed == q.At(g).lastUsed {}
    forall h ensures IsVictim(p, h) == IsVictim(q, h) {}
  }

  lemma BudgetKeeps(p: Pool, now: Time)
    requires p.Wf()
    ensures var q := BudgetAvailable(p, now).0; q.Wf() && q.states == p.states && q.slots == p.slots
  {}

  lemma CapacityKeepsNames(p: Pool, victim: Handle)
    requires p.Wf()
    ensures var q := ReserveCapacity(p, victim).0;
            q.pendingSessions == p.pendingSessions && q.states.Keys == p.states.Keys
  {}

  /** No cooldown was forgotten. */
  lemma NothingDropped(q: Pool, now: Time)
    ensures DropLapsed(q, {}, now) == q
  {
    assert DropLapsed(q, {}, now).ipCooldowns == q.ipCooldowns;
  }

  /** What was forgotten during a selection, forgotten before it. */
  lemma DroppedIs(q: Pool, c: Cooldowns, now: Time)
    requires SameRunning(q, c, now)
    ensures DropLapsed(q, q.ipCooldowns.Keys - c.Keys, now) == Cooling(q, c)
  {
    var d := DropLapsed(q, q.ipCooldowns.Keys - c.Keys, now).ipCooldowns;
    assert d.Keys == c.Keys;
    assert d == c;
  }

  // ---------------------------------------------------------------------
  // Feedback, measurement and maintenance.

  /** The batches, all rid of the slot but those in `todo`. */
  function SomeReleased(batches: map<string, BatchState>, slotID: string, todo: set<string>): map<string, BatchState> {
    map n | n in batches.Keys && (n in todo || !(slotID in batches[n].usedSlots
        && Released(batches[n], slotID).usedSlots == {})) ::
      if n in todo then batches[n] else Released(batches[n], slotID)
  }

  lemma ReleaseOne(batches: map<string, BatchState>, slotID: string, todo: set<string>, name: string)
    requires name in todo && name in batches
    ensures var some, b := SomeReleased(batches, slotID, todo), Released(batches[name], slotID);
            && name in some && some[name] == batches[name]
            && SomeReleased(batches, slotID, todo - {name})
               == if slotID in batches[name].usedSlots && b.usedSlots == {} then some - {name} else some[name := b]
  {
    hide Released;
  }

  lemma ReleasedAll(batches: map<string, BatchState>, slotID: string)
    ensures SomeReleased(batches, slotID, {}) == ReleaseEverywhere(batches, slotID)
  {
    hide Released;
  }

  lemma CooledNothing(m: map<(string, Addr), Time>, ip: Addr, until: Time)
    ensures Cooled(m, "", ip, until) == m
  {}

  /** The batches after a measurement, all but those in `todo`. */
  function SomeBackfilled(batches: map<string, BatchState>, slotID: string, ip: Addr, todo: set<string>,
                          now: Time): map<string, BatchState> {
    map n | n in batches.Keys && (n in todo || !(now > batches[n].expiresAt)) ::
      if n in todo then batches[n] else Backfilled(batches[n], slotID, ip, now)
  }

  lemma BackfillOne(batches: map<string, BatchState>, slotID: string, ip: Addr, todo: set<string>, name: string,
                    now: Time)
    requires name in todo && name in batches
    ensures var some := SomeBackfilled(batches, slotID, ip, todo, now);
            && name in some && some[name] == batches[name]
            && SomeBackfilled(batches, slotID, ip, todo - {name}, now)
               == if now > batches[name].expiresAt then some - {name}
                   else some[name := Backfilled(batches[name], slotID, ip, now)]
  {
    hide Backfilled;
  }

  /** The members that have been idle too long are all the states that have been. */
  lemma AllIdle(q: Pool, idle: set<Handle>, now: Time)
    requires q.Wf() && idle == if q.opts.idleTimeout > 0 then set id | id in q.slots.Keys
             && IdleTooLong(q, q.slots[id], now) :: q.slots[id] else {}
    ensures forall h :: h in idle <==> IdleTooLong(q, h, now)
    ensures idle <= q.states.Keys
  {
    forall h | IdleTooLong(q, h, now) ensures h in idle {
      assert q.slots[q.states[h].spec.id] == h;
    }
  }

  // ---------------------------------------------------------------------
  // Reservations.

  /** A reservation reads and writes batches and session names independently. */
  lemma ReservationParts(p: Pool, pol: Policy, h: Handle, now: Time)
    ensures Refusal(p, pol, now)
            == if SessionsFull(p, pol) then Some(SessionFull) else if BatchesFull(p, pol.uniqueBatch, now)
                then Some(BatchFull) else None
    ensures SessionsFull(p, pol) ==> Refused(p, pol, now) == p
    ensures !SessionsFull(p, pol) ==>
              Refused(p, pol, now)
              == p.(batches := p.batches - {pol.uniqueBatch},
                    pendingSessions := Unhold(Hold(p.pendingSessions, SessionToHold(p, pol)), SessionToHold(p, pol)))
    ensures var r := Reserved(p, pol, h, now);
            r == p.(pendingSessions := Hold(p.pendingSessions, SessionToHold(p, pol)), batches := r.batches,
                nextGen := r.nextGen,
                    states := p.states[h := p.At(h).(pendingLeases := p.At(h).pendingLeases + 1)], pendingLeases :=
                        p.pendingLeases + 1)
    ensures Ticket(p, pol, h, now) == Reservation(Ticket(p, pol, h, now).batch, SessionToHold(p, pol), h)
  {
    hide SessionsFull;
    hide BatchesFull;
    hide SessionToHold;
    hide Hold;
    hide Unhold;
    hide EnteredBatch;
    hide Renews;
    hide BatchState.Reserve;
  }

  lemma ChooseIs(p: Pool, pol: Policy, h: Handle, origin: Origin, now: Time)
    ensures Choose(p, pol, h, origin, now)
            == match Refusal(p, pol, now)
               case Some(e) => (Refused(p, pol, now), Err(e))
               case None => (Reserved(p, pol, h, now), Ok(Choice(h, origin, Ticket(p, pol, h, now))))
  {}

  lemma SameEntering(p: Pool, q: Pool, pol: Policy, now: Time)
    requires q == p.(pendingSessions := q.pendingSessions)
    ensures Renews(q, pol.uniqueBatch, now) == Renews(p, pol.uniqueBatch, now)
    ensures BatchesFull(q, pol.uniqueBatch, now) == BatchesFull(p, pol.uniqueBatch, now)
    ensures EnteredBatch(q, pol, now) == EnteredBatch(p, pol, now)
  {}

  /** Holding a session name does not change which batch is entered. */
  lemma SameBatching(p: Pool, q: Pool, pol: Policy, h: Handle, now: Time)
    requires q == p.(pendingSessions := q.pendingSessions)
    ensures BatchesFull(q, pol.uniqueBatch, now) == BatchesFull(p, pol.uniqueBatch, now)
    ensures Ticket(q, pol, h, now).batch == Ticket(p, pol, h, now).batch
    ensures Reserved(q, pol, h, now).batches == Reserved(p, pol, h, now).batches
    ensures Reserved(q, pol, h, now).nextGen == Reserved(p, pol, h, now).nextGen
  {
    hide Reserved;
    hide Ticket;
    hide BatchesFull;
    hide EnteredBatch;
    hide Renews;
    SameEntering(p, q, pol, now);
    TicketBatch(p, pol, h, now);
    TicketBatch(q, pol, h, now);
    ReservedBatch(p, pol, h, now);
    ReservedBatch(q, pol, h, now);
  }

  lemma TicketBatch(p: Pool, pol: Policy, h: Handle, now: Time)
    ensures Ticket(p, pol, h, now).batch
            == if pol.uniqueBatch == "" then None
               else Some(BatchReservation(pol.uniqueBatch, EnteredBatch(p, pol, now).gen, p.At(h).spec.id))
  {
    hide EnteredBatch;
    hide SessionToHold;
  }

  lemma ReservedBatch(p: Pool, pol: Policy, h: Handle, now: Time)
    ensures Reserved(p, pol, h, now).batches
            == if pol.uniqueBatch == "" then p.batches
               else p.batches[pol.uniqueBatch := EnteredBatch(p, pol, now).Reserve(p.At(h).spec.id, p.At(h).publicIP,
                   now)]
    ensures Reserved(p, pol, h, now).nextGen
            == if pol.uniqueBatch != "" && Renews(p, pol.uniqueBatch, now) then p.nextGen + 1 else p.nextGen
  {
    hide EnteredBatch;
    hide Renews;
    hide SessionToHold;
    hide Hold;
  }

  /** What entering a batch means, with the generation's time to live computed. */
  lemma Entering(p: Pool, pol: Policy, h: Handle, now: Time)
    requires pol.uniqueBatch != ""
    ensures var name, ttl := pol.uniqueBatch, BatchTTL(p, pol);
            && BatchesFull(p, name, now) == (Renews(p, name, now) && |p.batches - {name}| >= p.opts.maxUniqueBatches)
            && (var b := (if Renews(p, name, now) then NewBatch(p.nextGen, now + ttl)
                else p.batches[name]).(expiresAt := now + ttl);
                && Ticket(p, pol, h, now).batch == Some(BatchReservation(name, b.gen, p.At(h).spec.id))
                && Reserved(p, pol, h, now).batches == p.batches[name := b.Reserve(p.At(h).spec.id, p.At(h).publicIP,
                    now)]
                && Reserved(p, pol, h, now).nextGen == if Renews(p, name, now) then p.nextGen + 1 else p.nextGen)
  {
    hide SessionToHold;
    hide Hold;
    hide BatchState.Reserve;
  }

  lemma NoBatchEntered(p: Pool, pol: Policy, h: Handle, now: Time)
    requires pol.uniqueBatch == ""
    ensures !BatchesFull(p, pol.uniqueBatch, now) && Ticket(p, pol, h, now).batch == None
    ensures Reserved(p, pol, h, now).batches == p.batches && Reserved(p, pol, h, now).nextGen == p.nextGen
  {
    hide SessionToHold;
    hide Hold;
    hide EnteredBatch;
    hide Renews;
  }

  lemma RenewsMeans(p: Pool, name: string, now: Time)
    ensures Renews(p, name, now) == (name !in p.batches || now > p.batches[name].expiresAt)
  {}

  lemma Replaced<K, V>(m: map<K, V>, k: K, v: V)
    ensures (m - {k})[k := v] == m[k := v]
  {}

  /** Other cooldowns keep the pool well formed. */
  lemma CoolingKeepsWf(p: Pool, c: Cooldowns)
    requires p.Wf()
    ensures Cooling(p, c).Wf()
  {}

  lemma ForgettingKeepsWf(p: Pool, c: Cooldowns, pol: Policy, now: Time)
    requires p.Wf()
    ensures Cooling(ForgetSession(p, pol, now), c).Wf()
  {}

  /** The two ends of the sticky path. */
  lemma StickyIs(p: Pool, pol: Policy, target: string, now: Time, roll: nat)
    requires p.Wf()
    ensures forall id :: id in p.order ==> id in p.slots
    ensures StickySlot(p, pol, target, now).Some? ==>
              && pol.session in p.sessions
              && forall victim, lapsed ::
                   PickSticky(p, pol, target, now, Luck(roll, victim, lapsed))
                   == Choose(ExtendSession(p, pol, now), pol, StickySlot(p, pol, target, now).value, FromSession, now)
    ensures StickySlot(p, pol, target, now).None? ==>
              forall victim, lapsed ::
                PickSticky(p, pol, target, now, Luck(roll, victim, lapsed))
                == PickPreferred(ForgetSession(p, pol, now), pol, target, now, Luck(roll, victim, lapsed))
  {
    hide Choose;
    hide PickPreferred;
    hide Eligible;
  }

  /** Selection without an eligible member, with other cooldowns on the way. */
  lemma AnyRecycles(p: Pool, c: Cooldowns, d: Cooldowns, pol: Policy, target: string, now: Time, luck: Luck)
    requires Ordered(p) && SameRunning(p, c, now) && SameRunning(Cooling(p, c), d, now)
    requires Candidates(p, pol, target, now, |p.order|) == []
    ensures SameRunning(p, d, now)
    ensures OldestBurn(Cooling(p, c), pol, target, now) == OldestBurn(p, pol, target, now)
    ensures match OldestBurn(p, pol, target, now)
            case None => PickAny(p, pol, target, now, luck) == (p, Err(NoCandidate))
            case Some(h) =>
              && pol.uniqueBatch in p.batches
              && var q := StampBatch(p, pol.uniqueBatch, p.At(h).publicIP, now);
                 && StampBatch(Cooling(p, c), pol.uniqueBatch, p.At(h).publicIP, now) == Cooling(q, c)
                 && PickAny(p, pol, target, now, luck) == Choose(q, pol, h, FromRecycling, now)
                 && Choose(Cooling(q, c), pol, h, FromRecycling, now)
                     == CoolingResult(Choose(q, pol, h, FromRecycling, now), c)
  {
    hide Choose;
    hide Candidates;
    hide BatchState.Stamp;
    BurnsAreStored(p, pol, target, now);
    SameOldestBurn(p, c, pol, target, now);
    SameLater(p, c, d, now);
    hide OldestBurn;
    hide SameRunning;
    match OldestBurn(p, pol, target, now)
    case None =>
    case Some(h) => ChooseCommutes(StampBatch(p, pol.uniqueBatch, p.At(h).publicIP, now), c, pol, h, FromRecycling,
        now);
  }

  /** Selection with an eligible member. */
  lemma AnyServes(p: Pool, pol: Policy, target: string, now: Time, roll: nat)
    requires Ordered(p) && Candidates(p, pol, target, now, |p.order|) != []
    ensures var cands := Candidates(p, pol, target, now, |p.order|);
            var ready := ReadyOnes(p, cands);
            forall victim, lapsed ::
              PickAny(p, pol, target, now, Luck(roll, victim, lapsed))
              == if ready != [] then Choose(p, pol, ready[roll % |ready|], FromReady, now)
                 else PickCold(p, pol, cands[roll % |cands|], now, Luck(roll, victim, lapsed))
  {
    hide Choose;
    hide PickCold;
    hide Candidates;
    hide ReadyOnes;
    hide OldestBurn;
  }

  /** The states with these tunnels closed. */
  function Closed(states: map<Handle, SlotState>, idle: set<Handle>): map<Handle, SlotState> {
    map h | h in states.Keys :: if h in idle then states[h].(open := false) else states[h]
  }

  lemma CloseOne(states: map<Handle, SlotState>, done: set<Handle>, h: Handle)
    requires h in states && h !in done
    ensures Closed(states, done)[h] == states[h]
    ensures Closed(states, done + {h}) == Closed(states, done)[h := states[h].(open := false)]
  {}

  lemma HousekeptIs(p: Pool, q: Pool, idle: set<Handle>, now: Time)
    requires q == Expire(p, now) && forall h :: h in idle <==> IdleTooLong(q, h, now)
    ensures Housekeep(p, now) == q.(states := Closed(q.states, idle))
  {
    hide Expire;
    hide IdleTooLong;
  }

  lemma BegunStates(p: Pool, now: Time, victim: Handle)
    ensures var q := BeginOpen(p, now, victim).0; forall h :: h in p.states ==> h in q.states
  {}

  lemma MeasuredStates(p: Pool, h: Handle, ip: Addr, checkedAt: Time, now: Time)
    requires h in p.states
    ensures h in SetPublicIP(p, h, ip, checkedAt, now).states
  {}
}
