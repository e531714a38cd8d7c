/** The pool as an object: maps, lists and counters that its critical sections update in
    place. Each critical section is a method, and computes the function that specifies it;
    what is proved of runs is proved about those functions. Batches and rings are held as
    values here; their own objects are Batch and PreferredSet. */
module PoolObject {
  import opened Common
  import opened PolicyTypes
  import opened Ordering
  import opened Batches
  import opened Preferred
  import opened TunnelBudget
  import opened PoolState
  import opened Selection
  import WellFormed
  import opened Lapsed
  import opened PoolLoops
  import opened PoolSystem
  import opened Inventory
  import opened RelayLoops
  import Refresh

  class EgressPool {
    const opts: Options
    var states: map<Handle, SlotState>
    var nextHandle: Handle
    var slots: map<string, Handle>
    var order: seq<string>
    var sessions: map<string, Session>
    var pendingSessions: map<string, nat>
    var batches: map<string, BatchState>
    /** Generations made so far; a batch's identity is its generation. */
    var nextGen: nat
    var preferred: map<string, seq<PreferredExit>>
    var ipCooldowns: map<(string, Addr), Time>
    var entries: seq<EntryState>
    var opens: seq<Time>
    var pendingOpens: nat
    var probes: nat
    var leased: nat
    var pendingLeases: nat

    /** The pool as a value. */
    ghost function Value(): Pool
      reads this
    {
      Pool(opts, states, nextHandle, slots, order, sessions, pendingSessions, batches, nextGen,
           preferred, ipCooldowns, entries, opens, pendingOpens, probes, leased, pendingLeases)
    }

    /** A pool without slots. */
    constructor (opts: Options)
      ensures this.opts == opts
      ensures Value() == Pool(opts, map[], 0, map[], [], map[], map[], map[], 0, map[], map[], [], [], 0, 0, 0, 0)
    {
      this.opts := opts;
      states, nextHandle, slots, order := map[], 0, map[], [];
      sessions, pendingSessions, batches, nextGen := map[], map[], map[], 0;
      preferred, ipCooldowns, entries, opens := map[], map[], [], [];
      pendingOpens, probes, leased, pendingLeases := 0, 0, 0, 0;
    }

    /** Build a pool of these slots, if they are well formed. */
    static method Build(specs: seq<Spec>, entryCount: nat, opts: Options) returns (r: Option<EgressPool>)
      requires opts.Defaulted()
      ensures r.Some? <==> Constructible(specs, entryCount, opts)
      ensures r.Some? ==> fresh(r.value) && r.value.Value() == NewPool(specs, entryCount, opts)
    {
      hide NewPool;
      hide Constructible;
      hide InitialSlots;
      hide Listing;
      hide AnyRelay;
      hide DistinctIDs;
      Buildable(specs, entryCount, opts);
      if specs == [] { return None; }
      var needed := NeedsEntry(specs);
      if needed && entryCount == 0 { return None; }
      var p := new EgressPool(opts);
      var ok := p.AddSlots(specs);
      if !ok { return None; }
      var listed := SortNames(p.slots.Keys);
      NewPoolIs(specs, entryCount, opts);
      p.order := listed;
      p.entries := seq(entryCount, _ => NEW_ENTRY);
      return Some(p);
    }

    /** Add one fresh state per spec; two of the same ID are refused. */
    method AddSlots(specs: seq<Spec>) returns (ok: bool)
      requires states == map[] && slots == map[] && nextHandle == 0
      modifies this
      ensures ok <==> DistinctIDs(specs, |specs|)
      ensures ok ==>
                Value() == old(Value()).(states := InitialSlots(specs, |specs|).1,
                    slots := InitialSlots(specs, |specs|).0,
                                         nextHandle := |specs|)
    {
      ghost var p := Value();
      for i := 0 to |specs|
        modifies this`states, this`slots, this`nextHandle
        invariant DistinctIDs(specs, i) && nextHandle == i
        invariant (slots, states) == InitialSlots(specs, i)
        invariant forall id :: id in slots <==> exists k :: 0 <= k < i && specs[k].id == id
        invariant Value() == p.(states := states, slots := slots, nextHandle := nextHandle)
      {
        if specs[i].id in slots { return false; }
        states, slots := states[i := NewSlotState(specs[i])], slots[specs[i].id := i];
        nextHandle := i + 1;
      }
      return true;
    }

    // -------------------------------------------------------------------
    // Expiry.

    method ExpireSessions(now: Time)
      modifies this`sessions
      ensures sessions == SomeSessions(old(sessions), {}, now)
    {
      var todo := sessions.Keys;
      while todo != {}
        invariant todo <= old(sessions).Keys
        invariant sessions == SomeSessions(old(sessions), todo, now)
      {
        var name :| name in todo;
        if now > sessions[name].expiresAt { sessions := sessions - {name}; }
        todo := todo - {name};
      }
    }

    method ExpireBatches(now: Time)
      modifies this`batches
      ensures batches == SomeBatches(old(batches), {}, now)
    {
      var todo := batches.Keys;
      while todo != {}
        invariant todo <= old(batches).Keys
        invariant batches == SomeBatches(old(batches), todo, now)
      {
        var name :| name in todo;
        if now > batches[name].expiresAt { batches := batches - {name}; }
        todo := todo - {name};
      }
    }

    method ExpirePreferences(now: Time)
      modifies this`preferred
      ensures preferred == SomePruned(old(preferred), {}, now)
    {
      hide Preferred.Prune;
      var todo := preferred.Keys;
      while todo != {}
        invariant todo <= old(preferred).Keys
        invariant preferred == SomePruned(old(preferred), todo, now)
      {
        var target :| target in todo;
        preferred := preferred[target := Prune(preferred[target], now)];
        if preferred[target] == [] { preferred := preferred - {target}; }
        todo := todo - {target};
      }
    }

    method ExpireSlots(now: Time)
      requires MembersKnown(slots, states)
      modifies this`states
      ensures states == SomeCooled(old(states), slots, {}, now)
    {
      var todo := slots.Keys;
      while todo != {}
        invariant todo <= slots.Keys
        invariant states == SomeCooled(old(states), slots, todo, now)
      {
        var id :| id in todo;
        ghost var before := states;
        var s := states[slots[id]];
        var cooldowns := DropExpired(s.cooldowns, now);
        states := states[slots[id] := s.(cooldowns := cooldowns)];
        CoolOne(old(states), slots, todo, id, now);
        todo := todo - {id};
      }
    }

    method ExpireAddresses(now: Time)
      modifies this`ipCooldowns
      ensures ipCooldowns == SomeAddresses(old(ipCooldowns), {}, now)
    {
      var todo := ipCooldowns.Keys;
      while todo != {}
        invariant todo <= old(ipCooldowns).Keys
        invariant ipCooldowns == SomeAddresses(old(ipCooldowns), todo, now)
      {
        var key :| key in todo;
        if now > ipCooldowns[key] { ipCooldowns := ipCooldowns - {key}; }
        todo := todo - {key};
      }
    }

    /** Drop stale sessions, batches and preferences. */
    method ExpireTables(now: Time)
      modifies this
      ensures Value() == old(Value()).(sessions := SomeSessions(old(sessions), {}, now),
              batches := SomeBatches(old(batches), {}, now),
                                       preferred := SomePruned(old(preferred), {}, now))
    {
      hide SomeSessions;
      hide SomeBatches;
      hide SomePruned;
      ExpireSessions(now);
      ExpireBatches(now);
      ExpirePreferences(now);
    }

    /** Drop stale cooldowns, of slots and of addresses. */
    method ExpireCooldowns(now: Time)
      requires MembersKnown(slots, states)
      modifies this
      ensures Value() == old(Value()).(states := SomeCooled(old(states), slots, {}, now),
                                       ipCooldowns := SomeAddresses(old(ipCooldowns), {}, now))
    {
      hide MembersKnown;
      hide SomeCooled;
      hide SomeAddresses;
      ExpireSlots(now);
      ExpireAddresses(now);
    }

    /** Drop everything stale. */
    method Expire(now: Time)
      requires Value().Wf()
      modifies this
      ensures Value() == PoolState.Expire(old(Value()), now)
    {
      hide MembersKnown;
      hide SomeSessions;
      hide SomeBatches;
      hide SomePruned;
      hide SomeCooled;
      hide SomeAddresses;
      hide Pool.Wf;
      hide PoolState.Expire;
      ExpiredIs(Value(), now);
      ExpireTables(now);
      ExpireCooldowns(now);
    }

    // -------------------------------------------------------------------
    // Tunnel capacity and the new-tunnel budget.

    /** The tunnels that are open or being opened. */
    method CountTunnels() returns (n: nat)
      ensures n == TunnelCount(Value())
    {
      ghost var p := Value();
      n := 0;
      var todo := slots.Keys;
      while todo != {}
        invariant todo <= slots.Keys
        invariant n == |OccupiedAmong(p, slots.Keys - todo)|
      {
        var id :| id in todo;
        OccupiedOne(p, slots.Keys - todo, id);
        assert slots.Keys - todo + {id} == slots.Keys - (todo - {id});
        if slots[id] in states && (states[slots[id]].open || states[slots[id]].opening) { n := n + 1; }
        todo := todo - {id};
      }
      assert OccupiedAmong(p, slots.Keys) == Occupied(p);
      assert slots.Keys - todo == slots.Keys;
      ghost var slotTunnels := n;
      for i := 0 to |entries|
        invariant n == slotTunnels + CountEntries(entries[..i])
      {
        EntriesOne(entries, i);
        if entries[i].open || entries[i].opening { n := n + 1; }
      }
      assert entries[..|entries|] == entries;
      n := n + probes;
    }

    /** The least recently used idle tunnel, if there is one. */
    method FindVictim() returns (victim: Option<Handle>)
      requires Value().Wf()
      ensures victim.None? ==> forall h :: !Idle(Value(), h)
      ensures victim.Some? ==> IsVictim(Value(), victim.value)
    {
      ghost var p := Value();
      victim := None;
      var todo := slots.Keys;
      while todo != {}
        invariant todo <= slots.Keys
        invariant victim.None? ==> forall id :: id in slots.Keys - todo ==> !Idle(p, slots[id])
        invariant victim.Some? ==> Idle(p, victim.value) && LeastAmong(p, slots.Keys - todo, victim.value)
      {
        var id :| id in todo;
        var h := slots[id];
        if states[h].open && states[h].leases + states[h].pendingLeases == 0 {
          if victim.None? || states[h].lastUsed < states[victim.value].lastUsed { victim := Some(h); }
        }
        todo := todo - {id};
      }
      assert slots.Keys - todo == slots.Keys;
      if victim.None? { NoneIdle(p); } else { LeastIsVictim(p, victim.value); }
    }

    /** Make room for one more tunnel, closing an idle one if the budget is full. */
    method ReserveCapacity() returns (ok: bool, ghost victim: Handle)
      requires Value().Wf()
      modifies this`states
      ensures FairVictim(old(Value()), victim)
      ensures (Value(), ok) == PoolState.ReserveCapacity(old(Value()), victim)
    {
      victim := SomeVictim(Value());
      if opts.maxActive <= 0 { return true, victim; }
      var n := CountTunnels();
      if n < opts.maxActive { return true, victim; }
      var found := FindVictim();
      match found
      case None => return false, victim;
      case Some(h) =>
        states := states[h := states[h].(open := false)];
        return true, h;
    }

    /** Forget the contacts that have left the window. */
    method PruneOpens(now: Time)
      modifies this`opens
      ensures opens == TunnelBudget.PruneOpens(old(opens), now, opts.newTunnelWindow)
    {
      var cutoff := now - opts.newTunnelWindow;
      var keep := 0;
      while keep < |opens| && opens[keep] <= cutoff
        invariant keep <= |opens|
        invariant TunnelBudget.PruneOpens(opens[keep..], now, opts.newTunnelWindow)
                  == TunnelBudget.PruneOpens(opens, now, opts.newTunnelWindow)
      {
        keep := keep + 1;
      }
      opens := opens[keep..];
    }

    method BudgetAvailable(now: Time) returns (available: bool)
      modifies this`opens
      ensures (Value(), available) == PoolState.BudgetAvailable(old(Value()), now)
    {
      if opts.newTunnelBudget <= 0 { return true; }
      PruneOpens(now);
      available := |opens| + pendingOpens < opts.newTunnelBudget;
    }

    method ReserveOpen(now: Time) returns (ok: bool)
      modifies this`opens, this`pendingOpens
      ensures (Value(), ok) == PoolState.ReserveOpen(old(Value()), now)
    {
      ok := BudgetAvailable(now);
      if ok { pendingOpens := pendingOpens + 1; }
    }

    /** The part of the statistics and of warming up that changes the pool. */
    method TrimOpens(now: Time)
      modifies this`opens
      ensures Value() == PoolState.TrimOpens(old(Value()), now)
    {
      PruneOpens(now);
    }

    method CommitOpen(now: Time)
      modifies this`opens, this`pendingOpens
      ensures Value() == PoolState.CommitOpen(old(Value()), now)
    {
      if pendingOpens > 0 { pendingOpens := pendingOpens - 1; }
      PruneOpens(now);
      opens := opens + [now];
    }

    method RollbackOpen()
      modifies this`pendingOpens
      ensures Value() == PoolState.RollbackOpen(old(Value()))
    {
      if pendingOpens > 0 { pendingOpens := pendingOpens - 1; }
    }

    /** Start opening a tunnel: capacity first, then budget. */
    method BeginOpen(now: Time) returns (refusal: Option<Error>, ghost victim: Handle)
      requires Value().Wf()
      modifies this`states, this`opens, this`pendingOpens
      ensures FairVictim(old(Value()), victim)
      ensures (Value(), refusal) == PoolState.BeginOpen(old(Value()), now, victim)
    {
      var room: bool;
      room, victim := ReserveCapacity();
      if !room { return Some(Capacity), victim; }
      var ok := ReserveOpen(now);
      refusal := if ok then None else Some(TunnelBudgetSpent);
    }

    // -------------------------------------------------------------------
    // Reservations.

    /** Hold the session name of a new acquisition, unless it is bound already. */
    method ReserveSession(pol: Policy) returns (r: Result<string, Error>)
      requires WellFormed.NamesPending(pendingSessions)
      modifies this`pendingSessions
      ensures r == if SessionsFull(old(Value()), pol) then Err(SessionFull) else Ok(SessionToHold(old(Value()), pol))
      ensures pendingSessions == if r.Ok? then Hold(old(pendingSessions), r.value) else old(pendingSessions)
    {
      if pol.session == "" || pol.session in sessions { return Ok(""); }
      if pol.session in pendingSessions {
        pendingSessions := pendingSessions[pol.session := pendingSessions[pol.session] + 1];
        return Ok(pol.session);
      }
      if |sessions| + |pendingSessions| >= opts.maxSessions { return Err(SessionFull); }
      pendingSessions := pendingSessions[pol.session := 1];
      return Ok(pol.session);
    }

    method ReleasePendingSession(name: string)
      modifies this`pendingSessions
      ensures pendingSessions == Unhold(old(pendingSessions), name)
    {
      if name == "" { return; }
      if name in pendingSessions && pendingSessions[name] > 1 {
        pendingSessions := pendingSessions[name := pendingSessions[name] - 1];
        return;
      }
      pendingSessions := pendingSessions - {name};
    }

    /** Enter the selected slot into its batch, making a new generation when the stored
        one is missing or over. */
    method ReserveBatch(pol: Policy, h: Handle, now: Time) returns (r: Result<Option<BatchReservation>, Error>)
      requires h in states
      modifies this`batches, this`nextGen
      ensures BatchesFull(old(Value()), pol.uniqueBatch, now) ==>
                r == Err(BatchFull) && batches == old(batches) - {pol.uniqueBatch} && nextGen == old(nextGen)
      ensures !BatchesFull(old(Value()), pol.uniqueBatch, now) ==>
                && r == Ok(Ticket(old(Value()), pol, h, now).batch)
                && batches == Reserved(old(Value()), pol, h, now).batches
                && nextGen == Reserved(old(Value()), pol, h, now).nextGen
    {
      hide Ticket;
      hide Reserved;
      hide BatchesFull;
      hide BatchState.Reserve;
      hide Renews;
      ghost var p := Value();
      assert Renews(p, pol.uniqueBatch, now) == (pol.uniqueBatch !in batches
             || now > batches[pol.uniqueBatch].expiresAt) by { RenewsMeans(p, pol.uniqueBatch, now); }
      var name := pol.uniqueBatch;
      if name == "" {
        NoBatchEntered(p, pol, h, now);
        return Ok(None);
      }
      Entering(p, pol, h, now);
      var ttl := if pol.batchTTL > 0 then pol.batchTTL else opts.batchTTL;
      var b: BatchState;
      if name !in batches || now > batches[name].expiresAt {
        batches := batches - {name};
        if |batches| >= opts.maxUniqueBatches { return Err(BatchFull); }
        b := NewBatch(nextGen, now + ttl);
        nextGen := nextGen + 1;
      } else {
        b := batches[name];
      }
      b := b.(expiresAt := now + ttl);
      r := Ok(Some(BatchReservation(name, b.gen, states[h].spec.id)));
      b := b.Reserve(states[h].spec.id, states[h].publicIP, now);
      Replaced(p.batches, name, b);
      batches := batches[name := b];
    }

    /** Record a selection: the session name, the place in the batch and one pending
        lease, or nothing but the end of a stale generation. */
    method ReserveAcquisition(pol: Policy, h: Handle, origin: Origin, now: Time) returns (r: Result<Choice, Error>)
      requires WellFormed.NamesPending(pendingSessions) && h in states
      modifies this
      ensures (Value(), r) == Choose(old(Value()), pol, h, origin, now)
    {
      hide SessionsFull;
      hide SessionToHold;
      hide BatchesFull;
      hide Hold;
      hide Unhold;
      hide Refusal;
      hide Refused;
      hide Reserved;
      hide Ticket;
      hide WellFormed.NamesPending;
      ghost var p := Value();
      ChooseIs(p, pol, h, origin, now);
      hide Choose;
      assert p.At(h) == states[h];
      ReservationParts(p, pol, h, now);
      var held := ReserveSession(pol);
      SameBatching(p, Value(), pol, h, now);
      if held.Err? { return Err(held.error); }
      hide Pool.At;
      var entered := ReserveBatch(pol, h, now);
      if entered.Err? {
        ReleasePendingSession(held.value);
        return Err(entered.error);
      }
      AddPendingLease(h);
      return Ok(Choice(h, origin, Reservation(entered.value, held.value, h)));
    }

    method AddPendingLease(h: Handle)
      requires h in states
      modifies this
      ensures var s := old(states)[h];
              Value() == old(Value()).(states := old(states)[h := s.(pendingLeases := s.pendingLeases + 1)],
                                       pendingLeases := old(pendingLeases) + 1)
    {
      states := states[h := states[h].(pendingLeases := states[h].pendingLeases + 1)];
      pendingLeases := pendingLeases + 1;
    }

    /** Give back what a reservation holds, except its place in the batch. */
    method CommitAcquisition(r: Reservation)
      requires r.state in states
      modifies this`pendingSessions, this`states, this`pendingLeases
      ensures Value() == Settle(old(Value()), r)
    {
      ReleasePendingSession(r.session);
      var s := states[r.state];
      if s.pendingLeases > 0 { states := states[r.state := s.(pendingLeases := s.pendingLeases - 1)]; }
      if pendingLeases > 0 { pendingLeases := pendingLeases - 1; }
    }

    /** Release the slot from its batch, if that very generation is still stored. */
    method RollbackBatch(r: Option<BatchReservation>)
      modifies this`batches
      ensures batches == if r.Some? && StillStored(old(Value()), r.value)
                         then ReleaseIn(old(batches), r.value.name, r.value.slotID) else old(batches)
    {
      if r.None? || r.value.name !in batches || batches[r.value.name].gen != r.value.gen { return; }
      batches := batches[r.value.name := batches[r.value.name].Release(r.value.slotID)];
      if batches[r.value.name].usedSlots == {} { batches := batches - {r.value.name}; }
    }

    method Rollback(r: Reservation)
      requires r.state in states
      modifies this
      ensures Value() == PoolState.Rollback(old(Value()), r)
    {
      CommitAcquisition(r);
      RollbackBatch(r.batch);
    }

    /** The dial succeeded: the reservation becomes a lease, and the session is bound. */
    method Establish(r: Reservation, pol: Policy, now: Time)
      requires r.state in states
      modifies this
      ensures Value() == PoolState.Establish(old(Value()), r, pol, now)
    {
      CommitAcquisition(r);
      var s := states[r.state];
      states := states[r.state := s.(leases := s.leases + 1, lastUsed := now, failures := 0)];
      leased := leased + 1;
      if pol.session != "" {
        sessions := sessions[pol.session := Session(s.spec.id, now
            + (if pol.ttl > 0 then pol.ttl else opts.sessionTTL))];
      }
    }

    /** Give a lease back. */
    method ReleaseLease(h: Handle, now: Time)
      requires h in states
      modifies this`states, this`leased
      ensures Value() == PoolState.ReleaseLease(old(Value()), h, now)
    {
      var s := states[h];
      if s.leases > 0 { s := s.(leases := s.leases - 1); }
      if leased > 0 { leased := leased - 1; }
      states := states[h := s.(lastUsed := now)];
    }

    // -------------------------------------------------------------------
    // Selection.

    /** Whether an address is cooling down for a destination; a lapsed cooldown is
        forgotten. */
    method IPCoolingDown(target: string, ip: Addr, now: Time) returns (cooling: bool)
      modifies this`ipCooldowns
      ensures cooling == PoolState.IPCoolingDown(old(Value()), target, ip, now)
      ensures SameRunning(old(Value()), ipCooldowns, now)
    {
      if target == "" || ip == NoAddr || (target, ip) !in ipCooldowns { return false; }
      if now < ipCooldowns[(target, ip)] { return true; }
      ipCooldowns := ipCooldowns - {(target, ip)};
      return false;
    }

    /** Every filter that needs no input or output. */
    method IsEligible(h: Handle, pol: Policy, target: string, now: Time) returns (ok: bool)
      requires h in states
      modifies this`ipCooldowns
      ensures ok == Eligible(old(Value()), states[h], pol, target, now)
      ensures SameRunning(old(Value()), ipCooldowns, now)
    {
      hide SameRunning;
      hide Labelled;
      hide FreshEnough;
      hide BatchAllows;
      hide PoolState.IPCoolingDown;
      hide SlotState.CoolingDown;
      ghost var p := Value();
      SameItself(p, now);
      EligibleParts(p, states[h], pol, target, now);
      hide Eligible;
      var s := states[h];
      if now < s.disabledUntil { return false; }
      var labelled := MatchLabels(s, pol);
      if !labelled || s.CoolingDown(target, now) { return false; }
      var cooling := IPCoolingDown(target, s.publicIP, now);
      if cooling { return false; }
      if opts.maxConnsPerExit > 0 && s.leases + s.pendingLeases >= opts.maxConnsPerExit { return false; }
      var fit := CheckFresh(s, pol, opts.ipRefreshInterval, now);
      if !fit { return false; }
      ok := CheckBatch(s, pol, batches, now);
    }

    /** The members that may serve the request, in order. */
    method Scan(pol: Policy, target: string, now: Time) returns (cands: seq<Handle>)
      requires Ordered(Value())
      modifies this`ipCooldowns
      ensures cands == Candidates(old(Value()), pol, target, now, |order|)
      ensures forall i :: 0 <= i < |cands| ==> cands[i] in states
      ensures SameRunning(old(Value()), ipCooldowns, now)
    {
      hide SameRunning;
      hide Eligible;
      ghost var p := Value();
      SameItself(p, now);
      cands := [];
      for i := 0 to |order|
        invariant cands == Candidates(p, pol, target, now, i)
        invariant forall k :: 0 <= k < |cands| ==> cands[k] in states
        invariant SameRunning(p, ipCooldowns, now)
      {
        assert order[i] in order;
        ghost var c := ipCooldowns;
        var ok := IsEligible(slots[order[i]], pol, target, now);
        SameNow(p, c, ipCooldowns, states[slots[order[i]]], pol, target, now);
        if ok { cands := cands + [slots[order[i]]]; }
      }
    }

    method FilterReady(cands: seq<Handle>) returns (ready: seq<Handle>)
      requires forall i :: 0 <= i < |cands| ==> cands[i] in states
      ensures ready == ReadyOnes(Value(), cands)
      ensures forall i :: 0 <= i < |ready| ==> ready[i] in states
    {
      hide SlotState.Ready;
      ghost var p := Value();
      ready := [];
      for i := 0 to |cands|
        invariant ready == ReadyOnes(p, cands[..i])
        invariant forall k :: 0 <= k < |ready| ==> ready[k] in states
      {
        assert cands[..i + 1][..i] == cands[..i];
        if states[cands[i]].Ready() { ready := ready + [cands[i]]; }
      }
      assert cands[..|cands|] == cands;
    }

    /** The exit an exhausted batch burned longest ago; its address moves to the back. */
    method RecycleOldest(pol: Policy, target: string, now: Time) returns (r: Option<Handle>)
      requires Ordered(Value())
      modifies this
      ensures SameRunning(old(Value()), ipCooldowns, now)
      ensures r == OldestBurn(old(Value()), pol, target, now)
      ensures r.Some? ==> r.value in old(states) && pol.uniqueBatch in old(batches)
      ensures Value() == Cooling(if r.None? then old(Value())
                                 else StampBatch(old(Value()), pol.uniqueBatch, old(states)[r.value].publicIP, now),
                                     ipCooldowns)
    {
      hide SameRunning;
      hide BatchState.Stamp;
      hide Ordered;
      hide OldestBurn;
      ghost var p := Value();
      SameItself(p, now);
      OldestBurnIs(p, pol, target, now);
      if !pol.recycleBatch || pol.uniqueBatch == "" { return None; }
      if pol.uniqueBatch !in batches || !(now < batches[pol.uniqueBatch].expiresAt) { return None; }
      r := FindOldest(batches[pol.uniqueBatch], pol, target, now);
      if r.Some? {
        batches := batches[pol.uniqueBatch := batches[pol.uniqueBatch].Stamp(states[r.value].publicIP, now)];
      }
    }

    /** The first member whose address the batch burned longest ago. */
    method FindOldest(b: BatchState, pol: Policy, target: string, now: Time) returns (oldest: Option<Handle>)
      requires Ordered(Value())
      modifies this`ipCooldowns
      ensures OldestSoFar(old(Value()), b, Recyclable(old(Value()), pol, target, now, |order|), oldest)
      ensures oldest.Some? ==> oldest.value in states
      ensures SameRunning(old(Value()), ipCooldowns, now)
    {
      hide SameRunning;
      hide Eligible;
      hide OldestSoFar;
      hide Recyclable;
      hide BurnOf;
      ghost var p := Value();
      SameItself(p, now);
      oldest := None;
      RecyclableNone(p, b, pol, target, now);
      var oldestSeq := 0;
      for i := 0 to |order|
        invariant SameRunning(p, ipCooldowns, now)
        invariant OldestSoFar(p, b, Recyclable(p, pol, target, now, i), oldest)
        invariant oldest.Some? ==> oldest.value in states && oldestSeq == BurnOf(b, states[oldest.value].publicIP)
      {
        assert order[i] in order;
        var h := slots[order[i]];
        ghost var c := ipCooldowns;
        var ok := IsEligible(h, pol.(uniqueBatch := ""), target, now);
        SameNow(p, c, ipCooldowns, states[h], pol.(uniqueBatch := ""), target, now);
        RecyclableOne(p, b, pol, target, now, i, oldest);
        if ok && states[h].publicIP in b.usedIPs {
          var burn := Burn(b, states[h].publicIP);
          if oldest.None? || burn < oldestSeq { oldest, oldestSeq := Some(h), burn; }
        }
      }
    }

    /** The entries of a ring that are still good for the request, and the first
        least-loaded one of them that may serve. */
    method FilterRing(pol: Policy, target: string, now: Time) returns (kept: seq<PreferredExit>, best: Option<nat>)
      requires MembersKnown(slots, states) && target in preferred
      modifies this`ipCooldowns
      ensures SameRunning(old(Value()), ipCooldowns, now)
      ensures kept == Kept(old(Value()), pol, target, now, Preferred.Prune(preferred[target], now))
      ensures best == Best(old(Value()), pol, target, now, kept)
      ensures best.Some? ==> best.value < |kept|
    {
      hide SameRunning;
      hide Eligible;
      hide Preferred.Prune;
      hide Kept;
      hide Best;
      hide LoadOf;
      hide MayServe;
      hide StillGood;
      ghost var p := Value();
      SameItself(p, now);
      NothingKept(p, pol, target, now);
      var ring := Prune(preferred[target], now);
      kept, best := [], None;
      var bestLoad := 0;
      assert ring[..0] == [];
      for i := 0 to |ring|
        invariant Value() == Cooling(p, ipCooldowns) && SameRunning(p, ipCooldowns, now)
        invariant kept == Kept(p, pol, target, now, ring[..i])
        invariant best == Best(p, pol, target, now, kept)
        invariant best.Some? ==> best.value < |kept| && bestLoad == LoadOf(p, kept[best.value])
      {
        var e := ring[i];
        var good, may, load := TestEntry(e, pol, target, now, p);
        KeptOne(p, pol, target, now, ring, i);
        BestOne(p, pol, target, now, kept, e);
        if good {
          kept := kept + [e];
          if may && (best.None? || load < bestLoad) { best, bestLoad := Some(|kept| - 1), load; }
        }
      }
      assert ring[..|ring|] == ring;
    }

    /** Serve the request from the destination's last-good exits: keep those that are
        still good, and pick the least loaded one that may serve. Nothing is returned when
        the other paths have to be tried. */
    method PickFromRing(pol: Policy, target: string, now: Time) returns (r: Option<Result<Choice, Error>>)
      requires Value().Wf() && target in preferred
      modifies this
      ensures SameRunning(old(Value()), ipCooldowns, now)
      ensures match PreferredChoice(old(Value()), pol, target, now)
              case None =>
                && r.None?
                && Value() == Cooling(SetRing(old(Value()), target, KeptRing(old(Value()), pol, target, now)),
                    ipCooldowns)
              case Some((e, ring)) =>
                && e.slotID in old(slots)
                && r.Some?
                && (Value(), r.value)
                   == CoolingResult(Choose(SetRing(old(Value()), target, ring), pol, old(slots)[e.slotID],
                       FromPreferred, now), ipCooldowns)
    {
      hide SameRunning;
      hide Choose;
      hide Preferred.Prune;
      hide Preferred.RotateToTail;
      hide Kept;
      hide Best;
      hide KeptRing;
      hide PreferredChoice;
      hide Pool.Wf;
      ghost var p := Value();
      WfMembers(p);
      var kept, best := FilterRing(pol, target, now);
      KeptIsRing(p, pol, target, now);
      BestIsServed(p, pol, target, now);
      if best.None? {
        preferred := if kept == [] then preferred - {target} else preferred[target := kept];
        return None;
      }
      var e := kept[best.value];
      KeptIsMember(p, pol, target, now, Preferred.Prune(p.preferred[target], now), e);
      RotatedIsKept(kept, e.slotID);
      ghost var c := ipCooldowns;
      preferred := preferred[target := RotateToTail(kept, e.slotID)];
      ghost var q := SetRing(p, target, Preferred.RotateToTail(kept, e.slotID));
      assert Value() == Cooling(q, c);
      var choice := ReserveAcquisition(pol, slots[e.slotID], FromPreferred, now);
      ChooseCommutes(q, c, pol, p.slots[e.slotID], FromPreferred, now);
      return Some(choice);
    }

    /** Whether an entry is still good for the request, whether its slot may serve it now,
        and what that slot carries. */
    method TestEntry(e: PreferredExit, pol: Policy, target: string, now: Time, ghost p: Pool)
      returns (good: bool, may: bool, load: int)
      requires Value() == Cooling(p, ipCooldowns) && SameRunning(p, ipCooldowns, now) && MembersKnown(slots, states)
      modifies this`ipCooldowns
      ensures Value() == Cooling(p, ipCooldowns) && SameRunning(p, ipCooldowns, now)
      ensures good == StillGood(p, e, pol, target, now)
      ensures good ==> may == MayServe(p, e, pol, target, now) && load == LoadOf(p, e)
      ensures !good ==> !may
    {
      hide SameRunning;
      hide Eligible;
      good, may, load := false, false, 0;
      if e.slotID !in slots || e.publicIP == NoAddr || states[slots[e.slotID]].publicIP != e.publicIP { return; }
      var h := slots[e.slotID];
      ghost var c := ipCooldowns;
      good := IsEligible(h, pol.(uniqueBatch := ""), target, now);
      SameNow(p, c, ipCooldowns, states[h], pol.(uniqueBatch := ""), target, now);
      if good {
        load := states[h].leases + states[h].pendingLeases;
        ghost var d := ipCooldowns;
        may := IsEligible(h, pol, target, now);
        SameNow(p, d, ipCooldowns, states[h], pol, target, now);
      }
    }

    /** Select a slot whose tunnel has to be opened. */
    method PickCold(pol: Policy, h: Handle, now: Time, roll: nat)
      returns (r: Result<Choice, Error>, ghost victim: Handle)
      requires Value().Wf() && h in states
      modifies this
      ensures FairVictim(old(Value()), victim)
      ensures (Value(), r) == PoolState.PickCold(old(Value()), pol, h, now, Luck(roll, victim, {}))
    {
      hide PoolState.Choose;
      hide PoolState.ReserveCapacity;
      hide PoolState.BudgetAvailable;
      hide Pool.Wf;
      hide FairVictim;
      ghost var p := Value();
      victim := SomeVictim(p);
      BudgetKeeps(p, now);
      var available := BudgetAvailable(now);
      if !available { return Err(TunnelBudgetSpent), victim; }
      ghost var q := Value();
      var room: bool;
      room, victim := ReserveCapacity();
      SameFair(p, q, victim);
      CapacityKeepsNames(q, victim);
      if !room { return Err(Capacity), victim; }
      r := ReserveAcquisition(pol, h, FromCold, now);
    }

    /** The selection when nobody is eligible: an exhausted batch may be recycled. */
    method PickRecycled(pol: Policy, target: string, now: Time) returns (r: Result<Choice, Error>)
      requires Value().Wf()
      modifies this
      ensures SameRunning(old(Value()), ipCooldowns, now)
      ensures match OldestBurn(old(Value()), pol, target, now)
              case None => r == Err(NoCandidate) && Value() == Cooling(old(Value()), ipCooldowns)
              case Some(h) =>
                && pol.uniqueBatch in old(batches)
                && (Value(), r) == CoolingResult(Choose(StampBatch(old(Value()), pol.uniqueBatch,
                    old(Value()).At(h).publicIP, now),
                                                        pol, h, FromRecycling, now), ipCooldowns)
    {
      hide SameRunning;
      hide PoolState.Choose;
      hide OldestBurn;
      hide Ordered;
      hide BatchState.Stamp;
      hide Pool.Wf;
      ghost var p := Value();
      WfIsOrdered(p);
      WfMembers(p);
      var oldest := RecycleOldest(pol, target, now);
      if oldest.None? { return Err(NoCandidate); }
      ghost var c := ipCooldowns;
      ghost var q := StampBatch(p, pol.uniqueBatch, p.At(oldest.value).publicIP, now);
      r := ReserveAcquisition(pol, oldest.value, FromRecycling, now);
      ChooseCommutes(q, c, pol, oldest.value, FromRecycling, now);
    }

    /** The scan of all members: ready slots, then recycling or cold slots. */
    method PickAny(pol: Policy, target: string, now: Time, roll: nat)
      returns (r: Result<Choice, Error>, ghost victim: Handle)
      requires Value().Wf()
      modifies this
      ensures SameRunning(old(Value()), ipCooldowns, now)
      ensures FairVictim(old(Value()), victim)
      ensures (Value(), r) == CoolingResult(PoolState.PickAny(old(Value()), pol, target, now, Luck(roll, victim, {})),
              ipCooldowns)
    {
      hide SameRunning;
      hide PoolState.Choose;
      hide PoolState.PickCold;
      hide PoolState.PickAny;
      hide OldestBurn;
      hide Candidates;
      hide ReadyOnes;
      hide Ordered;
      hide Pool.Wf;
      hide FairVictim;
      ghost var p := Value();
      WfIsOrdered(p);
      WfMembers(p);
      victim := SomeVictim(p);
      var cands := Scan(pol, target, now);
      ghost var c := ipCooldowns;
      CoolingKeepsWf(p, c);
      assert Value() == Cooling(p, c);
      if cands == [] {
        r := PickRecycled(pol, target, now);
        AnyRecycles(p, c, ipCooldowns, pol, target, now, Luck(roll, victim, {}));
        return r, victim;
      }
      AnyServes(p, pol, target, now, roll);
      r, victim := PickEligible(cands, p, pol, target, now, roll);
    }

    /** Serve one of the eligible members: a ready one if there is one. */
    method PickEligible(cands: seq<Handle>, ghost p: Pool, pol: Policy, target: string, now: Time, roll: nat)
      returns (r: Result<Choice, Error>, ghost victim: Handle)
      requires Value().Wf() && Value() == Cooling(p, ipCooldowns) && SameRunning(p, ipCooldowns, now)
      requires cands != [] && forall i :: 0 <= i < |cands| ==> cands[i] in states
      modifies this
      ensures SameRunning(p, ipCooldowns, now)
      ensures FairVictim(p, victim)
      ensures var ready := ReadyOnes(p, cands);
              (Value(), r)
              == CoolingResult(if ready != [] then PoolState.Choose(p, pol, ready[roll % |ready|], FromReady, now)
                               else PoolState.PickCold(p, pol, cands[roll % |cands|], now, Luck(roll, victim, {})),
                                   ipCooldowns)
    {
      hide SameRunning;
      hide PoolState.Choose;
      hide PoolState.PickCold;
      hide ReadyOnes;
      hide Pool.Wf;
      hide FairVictim;
      ghost var c := ipCooldowns;
      WfMembers(Value());
      SameReady(p, c, cands);
      victim := SomeVictim(p);
      var ready := FilterReady(cands);
      if ready != [] {
        var h := ready[roll % |ready|];
        r := ReserveAcquisition(pol, h, FromReady, now);
        ChooseCommutes(p, c, pol, h, FromReady, now);
        return r, victim;
      }
      var h := cands[roll % |cands|];
      r, victim := PickCold(pol, h, now, roll);
      ColdCommutes(p, c, pol, h, now, Luck(roll, victim, {}));
      SameFair(p, Cooling(p, c), victim);
    }

    /** The ring of last-good exits first, then the scan. */
    method PickPreferred(pol: Policy, target: string, now: Time, roll: nat)
      returns (r: Result<Choice, Error>, ghost victim: Handle)
      requires Value().Wf()
      modifies this
      ensures SameRunning(old(Value()), ipCooldowns, now)
      ensures FairVictim(old(Value()), victim)
      ensures (Value(), r) == CoolingResult(PoolState.PickPreferred(old(Value()), pol, target, now,
              Luck(roll, victim, {})), ipCooldowns)
    {
      hide SameRunning;
      hide PoolState.Choose;
      hide PoolState.PickAny;
      hide PoolState.KeptRing;
      hide PoolState.PreferredChoice;
      ghost var p := Value();
      victim := SomeVictim(p);
      if target != "" && target in preferred {
        var served := PickFromRing(pol, target, now);
        if served.Some? { return served.value, victim; }
      } else {
        SameItself(p, now);
      }
      ghost var c := ipCooldowns;
      ghost var q := if target != "" && target in p.preferred then SetRing(p, target, KeptRing(p, pol, target, now))
            else p;
      assert Value() == Cooling(q, c);
      r, victim := PickAny(pol, target, now, roll);
      RunningKept(p, q, c, now);
      AnyCommutes(q, c, pol, target, now, Luck(roll, victim, {}));
      SameLater(q, c, ipCooldowns, now);
      SameRunningOf(p, q, ipCooldowns, now);
      SameFair(p, Cooling(q, c), victim);
    }

    /** Serve the request from its live session, while the bound slot is usable; else
        forget the session. */
    method PickBound(pol: Policy, target: string, now: Time) returns (r: Option<Result<Choice, Error>>)
      requires Value().Wf()
      modifies this
      ensures SameRunning(old(Value()), ipCooldowns, now)
      ensures match StickySlot(old(Value()), pol, target, now)
              case None => r.None? && Value() == Cooling(ForgetSession(old(Value()), pol, now), ipCooldowns)
              case Some(h) =>
                && pol.session in old(sessions)
                && r.Some?
                && (Value(), r.value) == CoolingResult(Choose(ExtendSession(old(Value()), pol, now), pol, h,
                    FromSession, now), ipCooldowns)
    {
      hide SameRunning;
      hide Eligible;
      hide PoolState.Choose;
      hide Pool.Wf;
      ghost var p := Value();
      SameItself(p, now);
      WfMembers(p);
      if pol.session == "" || pol.session !in sessions || !(now < sessions[pol.session].expiresAt) { return None; }
      var slotID := sessions[pol.session].slotID;
      if slotID in slots {
        var ok := IsEligible(slots[slotID], pol, target, now);
        if ok {
          r := ServeBound(slots[slotID], p, pol, now);
          return;
        }
      }
      sessions := sessions - {pol.session};
      return None;
    }

    /** Extend the session and reserve its slot. */
    method ServeBound(h: Handle, ghost p: Pool, pol: Policy, now: Time) returns (r: Option<Result<Choice, Error>>)
      requires Value() == Cooling(p, ipCooldowns) && pol.session in sessions && h in states
               && WellFormed.NamesPending(pendingSessions)
      modifies this
      ensures ipCooldowns == old(ipCooldowns) && r.Some?
      ensures (Value(), r.value) == CoolingResult(Choose(ExtendSession(p, pol, now), pol, h, FromSession, now),
              ipCooldowns)
    {
      hide PoolState.Choose;
      hide WellFormed.NamesPending;
      ghost var c := ipCooldowns;
      var ttl := if pol.ttl > 0 then pol.ttl else opts.sessionTTL;
      sessions := sessions[pol.session := sessions[pol.session].(expiresAt := now + ttl)];
      var choice := ReserveAcquisition(pol, h, FromSession, now);
      ChooseCommutes(ExtendSession(p, pol, now), c, pol, h, FromSession, now);
      return Some(choice);
    }

    /** The live session's slot while it is usable, else the other paths. */
    method PickSticky(pol: Policy, target: string, now: Time, roll: nat)
      returns (r: Result<Choice, Error>, ghost victim: Handle)
      requires Value().Wf()
      modifies this
      ensures SameRunning(old(Value()), ipCooldowns, now)
      ensures FairVictim(old(Value()), victim)
      ensures (Value(), r) == CoolingResult(PoolState.PickSticky(old(Value()), pol, target, now,
              Luck(roll, victim, {})), ipCooldowns)
    {
      hide SameRunning;
      hide StickySlot;
      hide PoolState.Choose;
      hide PoolState.PickPreferred;
      hide FairVictim;
      hide Pool.Wf;
      ghost var p := Value();
      victim := SomeVictim(p);
      StickyIs(p, pol, target, now, roll);
      var bound := PickBound(pol, target, now);
      if bound.Some? { return bound.value, victim; }
      ghost var c, q := ipCooldowns, ForgetSession(p, pol, now);
      ForgettingKeepsWf(p, c, pol, now);
      assert Value() == Cooling(q, c);
      r, victim := PickPreferred(pol, target, now, roll);
      RunningKept(p, q, c, now);
      WfIsOrdered(Cooling(q, c));
      PreferredCommutes(q, c, pol, target, now, Luck(roll, victim, {}));
      SameLater(q, c, ipCooldowns, now);
      SameRunningOf(p, q, ipCooldowns, now);
      SameFair(p, Cooling(q, c), victim);
    }

    /** One selection, with the roll of the dice as a parameter. What the scan forgets on
        its way and which idle tunnel it closes is reported in `luck`. */
    method Pick(pol: Policy, requested: string, now: Time, roll: nat)
      returns (r: Result<Choice, Error>, ghost luck: Luck)
      requires Value().Wf()
      modifies this
      ensures luck.roll == roll && FairVictim(old(Value()), luck.victim)
      ensures (Value(), r) == PoolState.Pick(old(Value()), pol, requested, now, luck)
    {
      hide PoolState.PickSticky;
      hide PoolState.Expire;
      hide SameRunning;
      ghost var p := Value();
      ghost var victim := SomeVictim(p);
      Expire(now);
      ghost var q := Value();
      NothingDropped(q, now);
      luck := Luck(roll, victim, {});
      if pol.ttl > opts.maxSessionTTL || pol.batchTTL > opts.maxBatchTTL { return Err(PolicyLimit), luck; }
      var target := if pol.healthScope != "" then pol.healthScope else requested;
      if opts.maxConcurrentConns > 0 && leased + pendingLeases >= opts.maxConcurrentConns { return Err(Busy), luck; }
      WellFormed.ExpireWf(p, now);
      r, victim := PickSticky(pol, target, now, roll);
      luck := Luck(roll, victim, q.ipCooldowns.Keys - ipCooldowns.Keys);
      DroppedIs(q, ipCooldowns, now);
      ExpireKeepsOrder(p, now);
      StickyCommutes(q, ipCooldowns, pol, target, now, luck);
      RollOnly(q, pol, target, now, luck);
      ExpireKeepsFair(p, now, victim);
    }

    // -------------------------------------------------------------------
    // Feedback, measurement and maintenance.

    /** Back a failing slot off and close its tunnel. */
    method NoteFailure(h: Handle, now: Time)
      requires h in states
      modifies this`states
      ensures Value() == PoolState.NoteFailure(old(Value()), h, now)
    {
      var s := states[h];
      s := s.(failures := s.failures + 1);
      s := s.(disabledUntil := now + Backoff(opts.failureBackoff, s.failures - 1, 30 * MINUTE));
      states := states[h := s.(open := false)];
    }

    /** Count a failed probe. */
    method NoteProbeFailure(h: Handle)
      requires h in states
      modifies this`states
      ensures Value() == PoolState.CountFailure(old(Value()), h)
    {
      states := states[h := states[h].(failures := states[h].failures + 1)];
    }

    /** Forget a sticky session. */
    method Rotate(name: string) returns (existed: bool)
      modifies this`sessions
      ensures existed == (name in old(sessions)) && Value() == DropSession(old(Value()), name)
    {
      existed := name in sessions;
      sessions := sessions - {name};
    }

    method SetIPCooldown(target: string, ip: Addr, until: Time)
      modifies this`ipCooldowns
      ensures ipCooldowns == Cooled(old(ipCooldowns), target, ip, until)
    {
      if target == "" || ip == NoAddr { return; }
      var current := if (target, ip) in ipCooldowns then ipCooldowns[(target, ip)] else ZERO_TIME;
      if current < until { ipCooldowns := ipCooldowns[(target, ip) := until]; }
    }

    /** Release a slot from every batch that consumed it. */
    method ReleaseFromBatches(slotID: string)
      modifies this
      ensures Value() == old(Value()).(batches := ReleaseEverywhere(old(batches), slotID))
    {
      hide BatchState.Release;
      var todo := batches.Keys;
      while todo != {}
        modifies this`batches
        invariant todo <= old(batches).Keys
        invariant batches == SomeReleased(old(batches), slotID, todo)
      {
        var name :| name in todo;
        ReleaseOne(old(batches), slotID, todo, name);
        var b := batches[name];
        if slotID in b.usedSlots {
          b := b.Release(slotID);
          batches := if b.usedSlots == {} then batches - {name} else batches[name := b];
        }
        todo := todo - {name};
      }
      ReleasedAll(old(batches), slotID);
    }

    /** Keep a slot away: from everyone, or from one destination together with its address. */
    method CoolSlot(h: Handle, target: string, until: Time)
      requires h in states
      modifies this
      ensures Value() == old(Value()).(states := old(states)[h := Punished(old(states)[h], target, until)],
                                       ipCooldowns := Cooled(old(ipCooldowns), target, old(states)[h].publicIP, until),
                                       preferred := Unpreferred(old(preferred), target, old(states)[h].publicIP))
    {
      hide Cooled;
      hide Preferred.RemoveIP;
      var s := states[h];
      if target == "" {
        CooledNothing(ipCooldowns, s.publicIP, until);
        states := states[h := s.(disabledUntil := until)];
        return;
      }
      states := states[h := s.(cooldowns := s.cooldowns[target := until])];
      SetIPCooldown(target, s.publicIP, until);
      if target in preferred {
        var ring := RemoveIP(preferred[target], s.publicIP);
        preferred := if ring == [] then preferred - {target} else preferred[target := ring];
      }
    }

    /** A client reports a slot: cool it down, forget it as a preference, release it from
        every batch and rotate the reporting session. */
    method Report(c: Complaint, now: Time) returns (r: Result<string, Error>)
      requires Value().Wf()
      modifies this
      ensures (Value(), r) == PoolState.Report(old(Value()), c, now)
    {
      hide ReleaseEverywhere;
      hide Cooled;
      hide Punished;
      hide Unpreferred;
      hide Pool.Wf;
      WfMembers(Value());
      var slotID := c.slot;
      if slotID == "" && c.session != "" {
        if c.session !in sessions { return Err(UnknownSession); }
        slotID := sessions[c.session].slotID;
      }
      if slotID !in slots { return Err(UnknownSlot); }
      var h := slots[slotID];
      if c.publicIP != NoAddr && states[h].publicIP != c.publicIP { return Err(IdentityMismatch); }
      Penalize(slotID, c, now);
      return Ok(slotID);
    }

    /** What an accepted report does to its slot. */
    method Penalize(slotID: string, c: Complaint, now: Time)
      requires slotID in slots && slots[slotID] in states
      modifies this
      ensures Value() == Punish(old(Value()), slotID, c, now)
    {
      hide ReleaseEverywhere;
      hide Cooled;
      hide Punished;
      hide Unpreferred;
      var until := now + (if c.cooldown <= 0 then opts.cooldown else c.cooldown);
      CoolSlot(slots[slotID], c.target, until);
      ReleaseFromBatches(slotID);
      if c.session != "" { sessions := sessions - {c.session}; }
    }

    /** A client reports that a slot served a destination. */
    method Prefer(c: Praise, now: Time) returns (refusal: Option<Error>)
      requires Value().Wf()
      modifies this`preferred
      ensures (Value(), refusal) == PoolState.Prefer(old(Value()), c, now)
    {
      hide Remember;
      if c.target == "" { return Some(Rejected); }
      if c.slot !in slots { return Some(UnknownSlot); }
      var s := states[slots[c.slot]];
      if s.spec.rotating { return Some(Rejected); }
      if s.publicIP == NoAddr { return Some(Rejected); }
      if c.publicIP != NoAddr && s.publicIP != c.publicIP { return Some(IdentityMismatch); }
      var until := now + (if c.ttl <= 0 then opts.preferredTTL else c.ttl);
      var ring := if c.target in preferred then preferred[c.target] else [];
      preferred := preferred[c.target := Remember(ring, c.slot, s.publicIP, until, opts.preferredMax)];
      return None;
    }

    /** Record a measurement and add it to every live batch that consumed the slot. */
    method SetPublicIP(h: Handle, ip: Addr, checkedAt: Time, now: Time) returns (changed: bool)
      requires h in states
      modifies this`states, this`batches
      ensures changed == (old(states)[h].publicIP != ip)
      ensures Value() == PoolState.SetPublicIP(old(Value()), h, ip, checkedAt, now)
    {
      hide BatchState.AddIP;
      var s := states[h];
      changed := s.publicIP != ip;
      states := states[h := s.(publicIP := ip, ipCheckedAt := checkedAt)];
      var todo := batches.Keys;
      while todo != {}
        modifies this`batches
        invariant todo <= old(batches).Keys
        invariant batches == SomeBackfilled(old(batches), s.spec.id, ip, todo, now)
      {
        var name :| name in todo;
        BackfillOne(old(batches), s.spec.id, ip, todo, name, now);
        if now > batches[name].expiresAt {
          batches := batches - {name};
        } else if s.spec.id in batches[name].usedSlots {
          batches := batches[name := batches[name].AddIP(s.spec.id, ip, now)];
        }
        todo := todo - {name};
      }
    }

    /** The members whose tunnel has been idle too long. */
    method FindIdle(now: Time) returns (idle: set<Handle>)
      requires Value().Wf()
      ensures forall h :: h in idle <==> IdleTooLong(Value(), h, now)
      ensures idle <= states.Keys
    {
      ghost var p := Value();
      idle := {};
      if opts.idleTimeout > 0 {
        var todo := slots.Keys;
        while todo != {}
          invariant todo <= slots.Keys
          invariant idle == set id | id in slots.Keys - todo && IdleTooLong(p, slots[id], now) :: slots[id]
        {
          var id :| id in todo;
          var s := states[slots[id]];
          if s.spec.kind == WireGuard && s.open && s.leases == 0 && s.lastUsed != ZERO_TIME
              && now - s.lastUsed > opts.idleTimeout {
            idle := idle + {slots[id]};
          }
          todo := todo - {id};
        }
        assert slots.Keys - todo == slots.Keys;
      }
      AllIdle(p, idle, now);
    }

    /** Close the tunnels of these states. */
    method CloseAll(idle: set<Handle>)
      requires idle <= states.Keys
      modifies this
      ensures Value() == old(Value()).(states := Closed(old(states), idle))
    {
      var todo := idle;
      while todo != {}
        modifies this`states
        invariant todo <= idle && states == Closed(old(states), idle - todo)
      {
        var h :| h in todo;
        CloseOne(old(states), idle - todo, h);
        states := states[h := states[h].(open := false)];
        todo := todo - {h};
        assert idle - todo == idle - (todo + {h}) + {h};
      }
      assert idle - todo == idle;
    }

    /** Drop what is stale and close the tunnels that have been idle too long. */
    method Housekeep(now: Time)
      requires Value().Wf()
      modifies this
      ensures Value() == PoolState.Housekeep(old(Value()), now)
    {
      hide PoolState.Expire;
      hide Pool.Wf;
      hide IdleTooLong;
      hide Closed;
      ghost var p := Value();
      WellFormed.ExpireWf(p, now);
      Expire(now);
      ghost var q := Value();
      var idle := FindIdle(now);
      HousekeptIs(p, q, idle, now);
      CloseAll(idle);
    }

    // -------------------------------------------------------------------
    // Tunnels.

    /** Mark a tunnel as being opened, or no longer. */
    method SetOpening(t: TunnelOf, opening: bool)
      requires t.SlotTunnel? ==> t.h in states
      modifies this
      ensures Value() == MarkOpening(old(Value()), t, opening)
    {
      match t
      case SlotTunnel(h) => states := states[h := states[h].(opening := opening)];
      case EntryTunnel(i) =>
        if i < |entries| { entries := entries[i := entries[i].(opening := opening)]; }
      case ProbeTunnel =>
        if opening {
          probes := probes + 1;
        } else if probes > 0 {
          probes := probes - 1;
        }
    }

    /** Start opening a tunnel, if capacity and budget allow it. */
    method StartOpening(t: TunnelOf, now: Time) returns (refusal: Option<Error>, ghost victim: Handle)
      requires Value().Wf() && (t.SlotTunnel? ==> t.h in states)
      modifies this
      ensures FairVictim(old(Value()), victim)
      ensures Value() == OpenTunnel(old(Value()), t, victim, now)
      ensures refusal == PoolState.BeginOpen(old(Value()), now, victim).1
    {
      hide PoolState.BeginOpen;
      hide MarkOpening;
      hide Pool.Wf;
      hide FairVictim;
      ghost var p := Value();
      refusal, victim := BeginOpen(now);
      BegunStates(p, now, victim);
      if refusal.None? { SetOpening(t, true); }
    }

    /** A handshake ended: the tunnel is up, or the failure is recorded. */
    method FinishOpening(t: TunnelOf, ok: bool, now: Time)
      requires t.SlotTunnel? ==> t.h in states
      modifies this
      ensures Value() == FinishOpen(old(Value()), t, ok, now)
    {
      hide Backoff;
      match t
      case SlotTunnel(h) =>
        var s := states[h].(opening := false);
        states := states[h := if ok then s.(open := true) else s];
      case EntryTunnel(i) =>
        if i < |entries| {
          var e := entries[i].(opening := false);
          if ok {
            e := e.(open := true, failures := 0);
          } else {
            e := e.(failures := e.failures + 1);
            e := e.(disabledUntil := now + Backoff(opts.failureBackoff, e.failures - 1, 10 * MINUTE));
          }
          entries := entries[i := e];
        }
      case ProbeTunnel =>
        if !ok && probes > 0 { probes := probes - 1; }
    }

    /** A dial through an entry failed; from the third failure in a row on it is taken out
        of rotation. */
    method NoteEntryFailure(i: nat, now: Time) returns (removed: bool)
      requires i < |entries|
      modifies this
      ensures Value() == FailEntry(old(Value()), i, now)
      ensures removed == (old(entries)[i].failures + 1 >= ENTRY_FAILURE_THRESHOLD)
    {
      hide Backoff;
      var e := entries[i].(failures := entries[i].failures + 1);
      removed := e.failures >= ENTRY_FAILURE_THRESHOLD;
      if removed {
        e := e.(disabledUntil := now + Backoff(opts.failureBackoff, e.failures - ENTRY_FAILURE_THRESHOLD, 10 * MINUTE),
                open := false);
      }
      entries := entries[i := e];
    }

    /** Record a measurement; a probe's also clears the slot's failures. */
    method RecordMeasurement(h: Handle, ip: Addr, checkedAt: Time, probed: bool, now: Time)
      requires h in states
      modifies this
      ensures Value() == Measure(old(Value()), h, ip, checkedAt, probed, now)
    {
      hide PoolState.SetPublicIP;
      ghost var p := Value();
      MeasuredStates(p, h, ip, checkedAt, now);
      var changed := SetPublicIP(h, ip, checkedAt, now);
      if probed { states := states[h := states[h].(failures := 0, disabledUntil := ZERO_TIME)]; }
    }

    // -------------------------------------------------------------------
    // The inventory.

    /** Some member has the address. */
    method HasMeasured(ip: Addr) returns (found: bool)
      requires Value().Wf()
      ensures found == HasMeasuredIP(Value(), ip)
    {
      var todo := slots.Keys;
      while todo != {}
        invariant todo <= slots.Keys
        invariant forall id :: id in slots.Keys - todo ==> Value().Slot(id).publicIP != ip
      {
        var id :| id in todo;
        if states[slots[id]].publicIP == ip {
          assert Value().Slot(id).publicIP == ip;
          return true;
        }
        todo := todo - {id};
      }
      assert slots.Keys - todo == slots.Keys;
      return false;
    }

    /** Put one saved preference back, if it is live and its slot still has its address. */
    method RestorePreference(scope: string, e: PreferredExit, now: Time)
      requires Value().Wf()
      modifies this
      ensures Value() == PoolState.RestorePreference(old(Value()), scope, e, now)
    {
      hide Remember;
      if !(now < e.expiresAt) { return; }
      if e.slotID !in slots || e.publicIP == NoAddr || states[slots[e.slotID]].publicIP != e.publicIP { return; }
      var ring := if scope in preferred then preferred[scope] else [];
      preferred := preferred[scope := Remember(ring, e.slotID, e.publicIP, e.expiresAt, opts.preferredMax)];
    }

    /** Put one saved cooldown back, if it runs and its address is measured. */
    method RestoreCooldown(scope: string, ip: Addr, until: Time, now: Time)
      requires Value().Wf()
      modifies this
      ensures Value() == PoolState.RestoreCooldown(old(Value()), scope, ip, until, now)
    {
      hide HasMeasuredIP;
      hide Cooled;
      hide Pool.Wf;
      if !(now < until) { return; }
      var found := HasMeasured(ip);
      if found { SetIPCooldown(scope, ip, until); }
    }

    /** The measured addresses worth saving. */
    method CollectSlots() returns (saved: map<string, SavedIP>)
      requires Value().Wf()
      ensures saved == SavedSlots(Value())
    {
      ghost var p := Value();
      saved := map[];
      var todo := slots.Keys;
      while todo != {}
        invariant todo <= slots.Keys
        invariant saved == map id | id in slots.Keys - todo && Lasting(p.Slot(id)) ::
                  SavedIP(p.Slot(id).publicIP, p.Slot(id).ipCheckedAt)
      {
        var id :| id in todo;
        var s := states[slots[id]];
        if s.publicIP != NoAddr && !s.spec.rotating { saved := saved[id := SavedIP(s.publicIP, s.ipCheckedAt)]; }
        todo := todo - {id};
      }
      assert slots.Keys - todo == slots.Keys;
    }

    /** The file to write, if there is anything to save. */
    method SaveInventory(now: Time) returns (file: Option<File>)
      requires Value().Wf()
      modifies this
      ensures Value() == PoolState.Expire(old(Value()), now)
      ensures var f := Saved(Value()); file == if f.slots == map[] && f.health == map[] then None else Some(f)
    {
      hide PoolState.Expire;
      hide Pool.Wf;
      hide SavedSlots;
      hide HealthOf;
      WellFormed.ExpireWf(Value(), now);
      Expire(now);
      var saved := CollectSlots();
      var health := CollectHealth(preferred, ipCooldowns);
      file := if saved == map[] && health == map[] then None else Some(File(saved, health));
    }

    /** Put the saved addresses back, in any order. */
    method LoadSlots(saved: map<string, SavedIP>, now: Time)
      returns (restored: nat, ghost ids: seq<string>, ghost steps: seq<Step>)
      requires Value().Wf()
      modifies this
      ensures Value() == Half(old(Value()), saved, saved.Keys, ids, now)
      ensures Value() == Replayed(old(Value()), steps) && forall i :: 0 <= i < |steps| ==> Loads(steps[i])
      ensures restored == |ids| && Distinct(ids) && forall id :: id in ids <==> id in saved && id in slots
      ensures slots == old(slots)
    {
      hide Pool.Wf;
      hide Half;
      hide PoolState.SetPublicIP;
      ghost var p := Value();
      HalfNone(p, saved, now);
      restored, ids, steps := 0, [], [];
      var todo := saved.Keys;
      ghost var done: set<string> := {};
      while todo != {}
        invariant todo + done == saved.Keys && todo !! done
        invariant Value() == Half(p, saved, done, ids, now) && slots == p.slots
        invariant Value() == Replayed(p, steps) && forall i :: 0 <= i < |steps| ==> Loads(steps[i])
        invariant restored == |ids| && Distinct(ids) && forall id :: id in ids <==> id in done && id in slots
      {
        var id :| id in todo;
        MeasureOne(p, saved, done, ids, id, now);
        if id in slots {
          ghost var step := Measuring(slots[id], saved[id].ip, saved[id].checkedAt, false, now);
          ReplayOne(p, steps, step);
          HalfFrame(p, saved, done + {id}, ids + [id], now);
          var changed := SetPublicIP(slots[id], saved[id].ip, saved[id].checkedAt, now);
          restored, ids, steps := restored + 1, ids + [id], steps + [step];
        }
        todo, done := todo - {id}, done + {id};
      }
      assert done == saved.Keys;
    }

    /** Offer a destination's saved exits to its ring, in order. */
    method LoadRing(scope: string, saved: seq<PreferredExit>, now: Time, ghost p: Pool,
                    ghost rings: map<string, seq<PreferredExit>>)
      returns (ghost steps: seq<Step>)
      requires Value().Wf() && Untouched(p, rings, scope)
      requires Value() == p.(preferred := rings, ipCooldowns := ipCooldowns)
      modifies this
      ensures Value() == old(Value()).(preferred := Offered(p, rings, scope, saved, now))
      ensures Value() == Replayed(old(Value()), steps) && forall i :: 0 <= i < |steps| ==> Loads(steps[i])
      ensures Value().Wf()
    {
      hide Pool.Wf;
      hide PoolState.RestorePreference;
      hide Offered;
      hide Untouched;
      ghost var q := Value();
      OfferNone(p, rings, scope, now);
      assert saved[..0] == [];
      steps := [];
      for i := 0 to |saved|
        invariant Value() == q.(preferred := Offered(p, rings, scope, saved[..i], now)) && Value().Wf()
        invariant Value() == Replayed(q, steps) && forall k :: 0 <= k < |steps| ==> Loads(steps[k])
      {
        OfferOne(p, Value(), rings, scope, saved, i, now);
        ReplayOne(q, steps, RestoringPreference(scope, saved[i], now));
        RingsKeepWf(Value(), scope, saved[i], now);
        RestorePreference(scope, saved[i], now);
        steps := steps + [RestoringPreference(scope, saved[i], now)];
      }
      assert saved[..|saved|] == saved;
    }

    /** Offer a destination's saved cooldowns, in any order. */
    method LoadCooldowns(scope: string, health: map<string, Health>, now: Time, ghost p: Pool,
                         ghost keys: set<(string, Addr)>)
      returns (ghost steps: seq<Step>)
      requires Value().Wf() && scope in health && forall k :: k in keys ==> k.0 != scope
      requires slots == p.slots && states == p.states && ipCooldowns == SomeCooldowns(p, health, keys, now)
      modifies this
      ensures Value() == old(Value()).(ipCooldowns := SomeCooldowns(p, health, keys
              + KeysOf(scope, health[scope].cooldowns.Keys), now))
      ensures Value() == Replayed(old(Value()), steps) && forall i :: 0 <= i < |steps| ==> Loads(steps[i])
      ensures Value().Wf()
    {
      hide Pool.Wf;
      hide PoolState.RestoreCooldown;
      hide SomeCooldowns;
      hide KeysOf;
      var cooldowns := health[scope].cooldowns;
      ghost var q := Value();
      ghost var done: set<Addr> := {};
      KeysNone(scope, keys);
      steps := [];
      var todo := cooldowns.Keys;
      while todo != {}
        invariant todo + done == cooldowns.Keys && todo !! done
        invariant Value() == q.(ipCooldowns := SomeCooldowns(p, health, keys + KeysOf(scope, done), now))
                  && Value().Wf()
        invariant Value() == Replayed(q, steps) && forall k :: 0 <= k < |steps| ==> Loads(steps[k])
      {
        var ip :| ip in todo;
        KeysOne(scope, keys, done, ip);
        RestoreOne(p, Value(), health, keys + KeysOf(scope, done), (scope, ip), now);
        ReplayOne(q, steps, RestoringCooldown(scope, ip, cooldowns[ip], now));
        CooldownsKeepWf(Value(), scope, ip, cooldowns[ip], now);
        RestoreCooldown(scope, ip, cooldowns[ip], now);
        steps := steps + [RestoringCooldown(scope, ip, cooldowns[ip], now)];
        todo, done := todo - {ip}, done + {ip};
      }
      assert done == cooldowns.Keys;
    }

    /** Put the saved rings and cooldowns back, one destination after another in any order. */
    method LoadHealth(health: map<string, Health>, now: Time) returns (ghost steps: seq<Step>)
      requires Value().Wf()
      modifies this
      ensures Value() == old(Value()).(preferred := LoadedRings(old(Value()), health, now),
                                       ipCooldowns := LoadedCooldowns(old(Value()), health, now))
      ensures Value() == Replayed(old(Value()), steps) && forall i :: 0 <= i < |steps| ==> Loads(steps[i])
    {
      hide Pool.Wf;
      hide SomeRings;
      hide SomeCooldowns;
      hide Offered;
      hide Untouched;
      hide KeysFor;
      ghost var p := Value();
      ghost var done: set<string> := {};
      HealthNone(p, health, now);
      steps := [];
      var todo := health.Keys;
      while todo != {}
        invariant todo + done == health.Keys && todo !! done && done <= health.Keys
        invariant Value() == p.(preferred := SomeRings(p, health, done, now),
                  ipCooldowns := SomeCooldowns(p, health, KeysFor(health, done), now))
        invariant Value().Wf()
        invariant Value() == Replayed(p, steps) && forall k :: 0 <= k < |steps| ==> Loads(steps[k])
      {
        var scope :| scope in todo;
        OfferAll(p, health, done, scope, now);
        ScopeOne(health, done, scope);
        ghost var first := LoadRing(scope, health[scope].preferred, now, p, preferred);
        ghost var half := Value();
        ghost var second := LoadCooldowns(scope, health, now, p, KeysFor(health, done));
        ReplayMore(p, steps, first);
        ReplayMore(p, steps + first, second);
        steps := steps + first + second;
        todo, done := todo - {scope}, done + {scope};
      }
      HealthAll(health);
      assert done == health.Keys;
    }

    /** Restore what a file saved: addresses first, then rings and cooldowns. */
    method LoadInventory(file: File, measuredAt: Time, now: Time)
      returns (restored: nat, ghost ids: seq<string>, ghost steps: seq<Step>)
      requires Value().Wf()
      modifies this
      ensures Value() == Loaded(old(Value()), file, ids, measuredAt, now)
      ensures Value() == Replayed(old(Value()), steps) && forall i :: 0 <= i < |steps| ==> Loads(steps[i])
      ensures restored == |ids| && Distinct(ids) && forall id :: id in ids <==> id in file.slots && id in old(slots)
    {
      hide Pool.Wf;
      hide LoadedRings;
      hide LoadedCooldowns;
      hide SomeStates;
      hide LoadedBatches;
      ghost var p := Value();
      ghost var first: seq<Step>;
      restored, ids, first := LoadSlots(file.slots, measuredAt);
      HalfKeepsWf(p, file.slots, ids, measuredAt);
      ghost var second := LoadHealth(file.health, now);
      ReplayMore(p, first, second);
      steps := first + second;
    }

    // -------------------------------------------------------------------
    // Relay reconciliation.

    /** The members a reconciliation keeps. */
    method KeepOthers() returns (next: map<string, Handle>)
      requires MembersKnown(slots, states)
      ensures next == KeptSlots(Value())
    {
      ghost var p := Value();
      next := map[];
      var todo := slots.Keys;
      while todo != {}
        invariant todo <= slots.Keys
        invariant next == map id | id in slots.Keys - todo && p.Slot(id).spec.kind != RelaySocks :: slots[id]
      {
        var id :| id in todo;
        if states[slots[id]].spec.kind != RelaySocks { next := next[id := slots[id]]; }
        todo := todo - {id};
      }
      assert slots.Keys - todo == slots.Keys;
    }

    /** Forget the sessions whose slot has departed. */
    method DropDeparted(next: map<string, Handle>)
      modifies this
      ensures Value() == old(Value()).(sessions := SomeBound(old(sessions), {}, next))
    {
      var todo := sessions.Keys;
      while todo != {}
        modifies this`sessions
        invariant todo <= old(sessions).Keys
        invariant sessions == SomeBound(old(sessions), todo, next)
      {
        var name :| name in todo;
        if sessions[name].slotID !in next { sessions := sessions - {name}; }
        todo := todo - {name};
      }
    }

    /** Replace the relay membership: retained IDs keep their state under the new spec, new
        ones start fresh. A collision refuses the refresh, but the specs in `done`, met
        before it, are changed already. Such a refresh leaves the pool alone exactly when
        those specs were the old ones. */
    method ReconcileRelays(specs: seq<Spec>) returns (ok: bool, ghost done: set<string>)
      requires Value().Wf()
      modifies this
      ensures (Value(), ok) == PoolState.Reconcile(old(Value()), specs, done)
      ensures ok <==> RelaysWellFormed(specs) && !Collides(old(Value()), specs)
      ensures !ok ==> (Value() == old(Value())
                       <==> !RelaysWellFormed(specs) || Refresh.SpecsKept(old(Value()), specs, done))
    {
      hide Pool.Wf;
      hide PartWay;
      hide PoolState.Reconcile;
      hide RelaysWellFormed;
      hide Collides;
      hide Refresh.SpecsKept;
      ghost var p := Value();
      Malformed(p, specs);
      var valid := CheckRelays(specs);
      if !valid {
        Refresh.RefreshOutcome(p, specs, {});
        return false, {};
      }
      var added, handle, next, met := InstallAll(specs);
      if met < |specs| {
        RefreshRefused(p, specs, met, states, added, handle, next);
        Refresh.RefreshOutcome(p, specs, Named(specs, met));
        return false, Named(specs, met);
      }
      Swap(p, specs, added, handle, next);
      Refresh.RefreshOutcome(p, specs, {});
      return true, {};
    }

    /** Install relays up to the first collision: retained ones in place, new ones aside. */
    method InstallAll(specs: seq<Spec>)
      returns (added: map<Handle, SlotState>, handle: Handle, next: map<string, Handle>, met: nat)
      requires Value().Wf() && RelaysWellFormed(specs)
      modifies this
      ensures Value() == old(Value()).(states := states) && met <= |specs|
      ensures PartWay(old(Value()), specs, met, states, added, handle, next) && FreeUpTo(old(Value()), specs, met)
      ensures met < |specs| ==>
                && specs[met].id in old(Value()).slots
                && old(Value()).Slot(specs[met].id).spec.kind != RelaySocks
    {
      hide Pool.Wf;
      hide PartWay;
      hide KeptSlots;
      hide RelaysWellFormed;
      ghost var p := Value();
      WfMembers(p);
      next := KeepOthers();
      added, handle := map[], nextHandle;
      NothingInstalled(p, specs);
      for i := 0 to |specs|
        modifies this`states
        invariant Value() == p.(states := states)
        invariant PartWay(p, specs, i, states, added, handle, next) && FreeUpTo(p, specs, i)
      {
        var spec := specs[i];
        if spec.id in slots {
          var h := slots[spec.id];
          SameKind(p, specs, i, states, added, handle, next, spec.id);
          if states[h].spec.kind != RelaySocks { return added, handle, next, i; }
          RetainOne(p, specs, i, states, added, handle, next);
          states := states[h := states[h].(spec := spec)];
          next := next[spec.id := h];
        } else {
          AddOne(p, specs, i, states, added, handle, next);
          added := added[handle := NewSlotState(spec)];
          next := next[spec.id := handle];
          handle := handle + 1;
        }
      }
      met := |specs|;
    }

    /** Replace the membership once every relay is installed. */
    method Swap(ghost p: Pool, specs: seq<Spec>, added: map<Handle, SlotState>, handle: Handle,
                next: map<string, Handle>)
      requires Value() == p.(states := states) && RelaysWellFormed(specs)
      requires PartWay(p, specs, |specs|, states, added, handle, next) && FreeUpTo(p, specs, |specs|)
      modifies this
      ensures (Value(), true) == PoolState.Reconcile(p, specs, {})
    {
      hide PartWay;
      hide PoolState.Reconcile;
      hide RelaysWellFormed;
      hide FreeUpTo;
      hide SomeBound;
      hide Listing;
      var listed := SortNames(next.Keys);
      RefreshAccepted(p, specs, states, added, handle, next, listed);
      states := states + added;
      nextHandle := handle;
      slots := next;
      order := listed;
      DropDeparted(next);
    }
  }
}
