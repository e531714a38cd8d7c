/** The saved inventory: measured addresses, last-good exits and cooldowns survive a
    restart. The file is a value; how it is written and read is not modelled. */
module Inventory {
  import opened Common
  import opened Batches
  import opened Preferred
  import opened PoolState
  import opened Selection
  import Lapsed
  import PoolSystem

  datatype SavedIP = SavedIP(ip: Addr, checkedAt: Time)

  datatype Health = Health(preferred: seq<PreferredExit>, cooldowns: map<Addr, Time>)

  datatype File = File(slots: map<string, SavedIP>, health: map<string, Health>)

  // ---------------------------------------------------------------------
  // Saving.

  /** The slot's address is worth saving. */
  predicate Lasting(s: SlotState) { s.publicIP != NoAddr && !s.spec.rotating }

  function SavedSlots(p: Pool): map<string, SavedIP> {
    map id | id in p.slots.Keys && Lasting(p.Slot(id)) :: SavedIP(p.Slot(id).publicIP, p.Slot(id).ipCheckedAt)
  }

  function CooldownsOf(m: map<(string, Addr), Time>, scope: string): map<Addr, Time> {
    map k | k in m.Keys && k.0 == scope :: k.1 := m[k]
  }

  function Scopes(m: map<(string, Addr), Time>): set<string> { set k | k in m.Keys :: k.0 }

  /** Rings and cooldowns by destination. */
  function HealthOf(rings: map<string, seq<PreferredExit>>, cooldowns: map<(string, Addr), Time>): map<string, Health> {
    map t | t in rings.Keys + Scopes(cooldowns) ::
      Health(if t in rings then rings[t] else [], CooldownsOf(cooldowns, t))
  }

  function SavedHealth(p: Pool): map<string, Health> { HealthOf(p.preferred, p.ipCooldowns) }

  /** Adding one cooldown to what was collected. */
  lemma CollectCooldown(rings: map<string, seq<PreferredExit>>, m: map<(string, Addr), Time>, k: (string, Addr),
                        until: Time)
    requires k !in m
    ensures var health := HealthOf(rings, m);
            var entry := if k.0 in health then health[k.0] else Health([], map[]);
            HealthOf(rings, m[k := until]) == health[k.0 := entry.(cooldowns := entry.cooldowns[k.1 := until])]
  {
    var health, more := HealthOf(rings, m), HealthOf(rings, m[k := until]);
    forall t { CooldownsOne(m, k, until, t); }
    ScopesOne(m, k, until);
    hide CooldownsOf;
    hide Scopes;
    forall t | t in more ensures t == k.0 || (t in health && more[t] == health[t]) {}
  }

  /** Before any cooldown is collected. */
  lemma RingsOnly(rings: map<string, seq<PreferredExit>>)
    ensures HealthOf(rings, map[]) == map t | t in rings.Keys :: Health(rings[t], map[])
  {
    assert Scopes(map[]) == {};
    forall t ensures CooldownsOf(map[], t) == map[] {}
  }

  lemma CooldownsOne(m: map<(string, Addr), Time>, k: (string, Addr), until: Time, t: string)
    ensures CooldownsOf(m[k := until], t) == if t == k.0 then CooldownsOf(m, t)[k.1 := until] else CooldownsOf(m, t)
    ensures t !in Scopes(m) ==> CooldownsOf(m, t) == map[]
  {
    var n := CooldownsOf(m[k := until], t);
    assert k == (k.0, k.1) && k in m[k := until];
    forall ip ensures ip in n <==> (t, ip) in m[k := until] {}
    forall ip ensures ip in CooldownsOf(m, t) <==> (t, ip) in m {}
    if t !in Scopes(m) {
      forall ip ensures ip !in CooldownsOf(m, t) {
        assert (t, ip) in m ==> (t, ip).0 in Scopes(m);
      }
    }
  }

  lemma ScopesOne(m: map<(string, Addr), Time>, k: (string, Addr), until: Time)
    ensures Scopes(m[k := until]) == Scopes(m) + {k.0}
  {
    assert k in m[k := until];
    forall t | t in Scopes(m) ensures t in Scopes(m[k := until]) {
      var j :| j in m && j.0 == t;
      assert j in m[k := until];
    }
  }

  /** The rings, then the cooldowns, collected by destination in any order. */
  method CollectHealth(rings: map<string, seq<PreferredExit>>, cooldowns: map<(string, Addr), Time>)
    returns (health: map<string, Health>)
    ensures health == HealthOf(rings, cooldowns)
  {
    hide HealthOf;
    health := map[];
    var scopes := rings.Keys;
    while scopes != {}
      invariant scopes <= rings.Keys
      invariant health == map t | t in rings.Keys - scopes :: Health(rings[t], map[])
    {
      var scope :| scope in scopes;
      health := health[scope := Health(rings[scope], map[])];
      scopes := scopes - {scope};
    }
    assert rings.Keys - scopes == rings.Keys;
    RingsOnly(rings);
    health := AddCooldowns(rings, cooldowns, health);
  }

  method AddCooldowns(rings: map<string, seq<PreferredExit>>, cooldowns: map<(string, Addr), Time>,
                      start: map<string, Health>)
    returns (health: map<string, Health>)
    requires start == HealthOf(rings, map[])
    ensures health == HealthOf(rings, cooldowns)
  {
    hide HealthOf;
    health := start;
    var todo := cooldowns.Keys;
    ghost var done: map<(string, Addr), Time> := map[];
    while todo != {}
      invariant todo !! done.Keys && todo + done.Keys == cooldowns.Keys
      invariant forall k :: k in done ==> done[k] == cooldowns[k]
      invariant health == HealthOf(rings, done)
    {
      var k :| k in todo;
      CollectCooldown(rings, done, k, cooldowns[k]);
      var entry := if k.0 in health then health[k.0] else Health([], map[]);
      health := health[k.0 := entry.(cooldowns := entry.cooldowns[k.1 := cooldowns[k]])];
      done := done[k := cooldowns[k]];
      todo := todo - {k};
    }
    assert done == cooldowns;
  }

  /** The file written for an expired pool. */
  function Saved(p: Pool): File { File(SavedSlots(p), SavedHealth(p)) }

  // ---------------------------------------------------------------------
  // Loading.

  /** The states with their saved addresses. */
  function LoadedStates(p: Pool, saved: map<string, SavedIP>): map<Handle, SlotState> { SomeStates(p, saved,
                        saved.Keys) }

  /** The states after the measurements of `ids` were put back. */
  function SomeStates(p: Pool, saved: map<string, SavedIP>, ids: set<string>): map<Handle, SlotState>
    requires ids <= saved.Keys
  {
    map h | h in p.states.Keys ::
      var s := p.states[h];
      if p.IsMember(h) && s.spec.id in ids
      then s.(publicIP := saved[s.spec.id].ip, ipCheckedAt := saved[s.spec.id].checkedAt) else s
  }

  /** The batches after the measurements of `ids`, in that order. */
  function LoadedBatches(batches: map<string, BatchState>, saved: map<string, SavedIP>, ids: seq<string>,
                         now: Time): map<string, BatchState> {
    if ids == [] then batches
    else
      var id := ids[|ids| - 1];
      var before := LoadedBatches(batches, saved, ids[..|ids| - 1], now);
      if id !in saved then before
      else map n | n in before.Keys && !(now > before[n].expiresAt) :: Backfilled(before[n], id, saved[id].ip, now)
  }

  /** A ring after the saved entries were offered to it, in order. */
  function LoadedRing(p: Pool, ring: seq<PreferredExit>, saved: seq<PreferredExit>, now: Time): seq<PreferredExit> {
    if saved == [] then ring
    else
      var e := saved[|saved| - 1];
      var before := LoadedRing(p, ring, saved[..|saved| - 1], now);
      if Restorable(p, e, now) then Remember(before, e.slotID, e.publicIP, e.expiresAt, p.opts.preferredMax) else before
  }

  /** The rings after the saved entries of `scopes` were offered. */
  function SomeRings(p: Pool, health: map<string, Health>, scopes: set<string>,
                     now: Time): map<string, seq<PreferredExit>>
    requires scopes <= health.Keys
  {
    map t | t in p.preferred.Keys + scopes && (t in p.preferred
        || LoadedRing(p, RingFor(p, t), health[t].preferred, now) != []) ::
      if t in scopes then LoadedRing(p, RingFor(p, t), health[t].preferred, now) else p.preferred[t]
  }

  function LoadedRings(p: Pool, health: map<string, Health>, now: Time): map<string, seq<PreferredExit>> {
    SomeRings(p, health, health.Keys, now)
  }

  /** The saved cooldown is put back: it runs, its address is measured, and it ends later
      than the one there is. */
  predicate PutBack(p: Pool, health: map<string, Health>, k: (string, Addr), now: Time) {
    && k.0 in health && k.1 in health[k.0].cooldowns
    && k.0 != "" && k.1 != NoAddr
    && now < health[k.0].cooldowns[k.1] && HasMeasuredIP(p, k.1)
    && (if k in p.ipCooldowns then p.ipCooldowns[k] else ZERO_TIME) < health[k.0].cooldowns[k.1]
  }

  function SavedKeys(health: map<string, Health>): set<(string, Addr)> {
    set t, ip | t in health.Keys && ip in health[t].cooldowns.Keys :: (t, ip)
  }

  /** The cooldowns after those under `keys` were offered. */
  function SomeCooldowns(p: Pool, health: map<string, Health>, keys: set<(string, Addr)>,
                         now: Time): map<(string, Addr), Time> {
    map k | k in p.ipCooldowns.Keys + keys && (k in p.ipCooldowns || PutBack(p, health, k, now)) ::
      if k in keys && PutBack(p, health, k, now) then health[k.0].cooldowns[k.1] else p.ipCooldowns[k]
  }

  function LoadedCooldowns(p: Pool, health: map<string, Health>, now: Time): map<(string, Addr), Time> {
    SomeCooldowns(p, health, SavedKeys(health), now)
  }

  /** The pool after loading, with the slots measured in the order `ids`. */
  function Loaded(p: Pool, file: File, ids: seq<string>, measuredAt: Time, now: Time): Pool {
    var q := p.(states := LoadedStates(p, file.slots),
        batches := LoadedBatches(p.batches, file.slots, ids, measuredAt));
    q.(preferred := LoadedRings(q, file.health, now), ipCooldowns := LoadedCooldowns(q, file.health, now))
  }

  // ---------------------------------------------------------------------
  // Loading as steps of the pool.

  /** What a step of a load does to the pool. */
  function LoadStep(p: Pool, step: PoolSystem.Step): Pool {
    match step
    case Measuring(h, ip, checkedAt, _, now) => SetPublicIP(p, h, ip, checkedAt, now)
    case RestoringPreference(scope, e, now) => RestorePreference(p, scope, e, now)
    case RestoringCooldown(scope, ip, until, now) => RestoreCooldown(p, scope, ip, until, now)
    case _ => p
  }

  predicate Loads(step: PoolSystem.Step) {
    (step.Measuring? && !step.probed) || step.RestoringPreference? || step.RestoringCooldown?
  }

  /** A sequence of such steps. */
  function Replayed(p: Pool, steps: seq<PoolSystem.Step>): Pool {
    if steps == [] then p else LoadStep(Replayed(p, steps[..|steps| - 1]), steps[|steps| - 1])
  }

  lemma ReplayOne(p: Pool, steps: seq<PoolSystem.Step>, step: PoolSystem.Step)
    ensures Replayed(p, steps + [step]) == LoadStep(Replayed(p, steps), step)
  {
    assert (steps + [step])[..|steps|] == steps;
  }

  /** The pool with some of the saved addresses back, in the order they were measured. */
  function Half(p: Pool, saved: map<string, SavedIP>, done: set<string>, ids: seq<string>, now: Time): Pool
    requires done <= saved.Keys
  {
    p.(states := SomeStates(p, saved, done), batches := LoadedBatches(p.batches, saved, ids, now))
  }

  lemma HalfNone(p: Pool, saved: map<string, SavedIP>, now: Time)
    ensures Half(p, saved, {}, [], now) == p
  {
    assert SomeStates(p, saved, {}) == p.states;
  }

  lemma HalfFrame(p: Pool, saved: map<string, SavedIP>, done: set<string>, ids: seq<string>, now: Time)
    requires done <= saved.Keys
    ensures Half(p, saved, done, ids, now).slots == p.slots
  {}

  lemma {:induction false} LoadedGens(batches: map<string, BatchState>, saved: map<string, SavedIP>, ids: seq<string>,
                                      now: Time)
    ensures var loaded := LoadedBatches(batches, saved, ids, now);
            forall n :: n in loaded ==> n in batches && loaded[n].gen == batches[n].gen
    decreases |ids|
  {
    if ids != [] { LoadedGens(batches, saved, ids[..|ids| - 1], now); }
  }

  lemma HalfKeepsWf(p: Pool, saved: map<string, SavedIP>, ids: seq<string>, now: Time)
    requires p.Wf()
    ensures Half(p, saved, saved.Keys, ids, now).Wf()
  {
    LoadedGens(p.batches, saved, ids, now);
    hide LoadedBatches;
  }

  lemma MeasureOne(p: Pool, saved: map<string, SavedIP>, done: set<string>, ids: seq<string>, id: string, now: Time)
    requires p.Wf() && done <= saved.Keys && id in saved && id !in done
    ensures id in p.slots ==> p.slots[id] in Half(p, saved, done, ids, now).states
    ensures id in p.slots ==>
              SetPublicIP(Half(p, saved, done, ids, now), p.slots[id], saved[id].ip, saved[id].checkedAt, now)
              == Half(p, saved, done + {id}, ids + [id], now)
    ensures id !in p.slots ==> Half(p, saved, done + {id}, ids, now) == Half(p, saved, done, ids, now)
  {
    hide Backfilled;
    assert (ids + [id])[..|ids|] == ids;
    var some, more := SomeStates(p, saved, done), SomeStates(p, saved, done + {id});
    forall h | h in p.states && !(id in p.slots && h == p.slots[id]) ensures more[h] == some[h] {
      assert p.IsMember(h) ==> p.states[h].spec.id != id;
    }
    if id in p.slots {
      StateOne(p, saved, done, id);
      assert more == some[p.slots[id] := more[p.slots[id]]];
    } else {
      assert more == some;
    }
  }

  lemma StateOne(p: Pool, saved: map<string, SavedIP>, done: set<string>, id: string)
    requires p.Wf() && done <= saved.Keys && id in saved && id !in done && id in p.slots
    ensures var h := p.slots[id];
            && h in p.states && SomeStates(p, saved, done)[h] == p.states[h] && p.states[h].spec.id == id
            && SomeStates(p, saved, done + {id})[h] == p.states[h].(publicIP := saved[id].ip,
                ipCheckedAt := saved[id].checkedAt)
  {
    assert p.IsMember(p.slots[id]);
  }

  /** The rings after some entries were offered to one of them. */
  function Offered(p: Pool, rings: map<string, seq<PreferredExit>>, t: string, saved: seq<PreferredExit>,
                   now: Time): map<string, seq<PreferredExit>> {
    var ring := LoadedRing(p, RingFor(p, t), saved, now);
    if ring == [] then rings else rings[t := ring]
  }

  lemma {:induction false} RingsOnlyGrow(p: Pool, ring: seq<PreferredExit>, saved: seq<PreferredExit>, now: Time)
    ensures LoadedRing(p, ring, saved, now) == [] ==> ring == []
    decreases |saved|
  {
    if saved != [] { RingsOnlyGrow(p, ring, saved[..|saved| - 1], now); }
  }

  /** Nobody has offered anything to the ring of `t` yet. */
  ghost predicate Untouched(p: Pool, rings: map<string, seq<PreferredExit>>, t: string) {
    (t in rings <==> t in p.preferred) && (t in rings ==> rings[t] == p.preferred[t])
  }

  lemma OfferNone(p: Pool, rings: map<string, seq<PreferredExit>>, t: string, now: Time)
    requires Untouched(p, rings, t)
    ensures Offered(p, rings, t, [], now) == rings
  {}

  lemma OfferOne(p: Pool, q: Pool, rings: map<string, seq<PreferredExit>>, t: string, saved: seq<PreferredExit>,
                 i: nat, now: Time)
    requires Untouched(p, rings, t) && i < |saved|
    requires q == p.(preferred := Offered(p, rings, t, saved[..i], now), ipCooldowns := q.ipCooldowns)
    ensures RestorePreference(q, t, saved[i], now) == q.(preferred := Offered(p, rings, t, saved[..i + 1], now))
  {
    hide Remember;
    assert saved[..i + 1][..i] == saved[..i];
    var before := LoadedRing(p, RingFor(p, t), saved[..i], now);
    RingsOnlyGrow(p, RingFor(p, t), saved[..i], now);
    assert RingFor(q, t) == before;
    assert Restorable(q, saved[i], now) == Restorable(p, saved[i], now);
    RememberIsSome(before, saved[i], p.opts.preferredMax);
  }

  lemma RememberIsSome(s: seq<PreferredExit>, e: PreferredExit, max: int)
    ensures Remember(s, e.slotID, e.publicIP, e.expiresAt, max) != []
  {}

  lemma OfferAll(p: Pool, health: map<string, Health>, done: set<string>, t: string, now: Time)
    requires done <= health.Keys && t in health && t !in done
    ensures Untouched(p, SomeRings(p, health, done, now), t)
    ensures Offered(p, SomeRings(p, health, done, now), t, health[t].preferred, now)
            == SomeRings(p, health, done + {t}, now)
  {
    RingsOnlyGrow(p, RingFor(p, t), health[t].preferred, now);
    hide LoadedRing;
  }

  /** The saved cooldown under `k` is offered once. */
  lemma RestoreOne(p: Pool, q: Pool, health: map<string, Health>, keys: set<(string, Addr)>, k: (string, Addr),
                   now: Time)
    requires k.0 in health && k.1 in health[k.0].cooldowns && k !in keys
    requires q.slots == p.slots && q.states == p.states && q.ipCooldowns == SomeCooldowns(p, health, keys, now)
    ensures RestoreCooldown(q, k.0, k.1, health[k.0].cooldowns[k.1], now)
            == q.(ipCooldowns := SomeCooldowns(p, health, keys + {k}, now))
  {
    OfferCooldown(p, health, keys, k, now);
    assert k in q.ipCooldowns <==> k in p.ipCooldowns;
    assert k in q.ipCooldowns ==> q.ipCooldowns[k] == p.ipCooldowns[k];
    hide SomeCooldowns;
    assert HasMeasuredIP(q, k.1) == HasMeasuredIP(p, k.1);
    hide HasMeasuredIP;
    assert k == (k.0, k.1);
  }

  lemma OfferCooldown(p: Pool, health: map<string, Health>, keys: set<(string, Addr)>, k: (string, Addr), now: Time)
    requires k.0 in health && k.1 in health[k.0].cooldowns && k !in keys
    ensures var some := SomeCooldowns(p, health, keys, now);
            SomeCooldowns(p, health, keys + {k}, now) == if PutBack(p, health, k, now)
                then some[k := health[k.0].cooldowns[k.1]] else some
  {
    PutBackIn(health);
    hide PutBack;
  }

  lemma PutBackIn(health: map<string, Health>)
    ensures forall p, k, now {:trigger PutBack(p, health, k, now)} ::
              PutBack(p, health, k, now) ==> k.0 in health && k.1 in health[k.0].cooldowns
  {}

  /** The keys of one destination's cooldowns. */
  function KeysOf(scope: string, ips: set<Addr>): set<(string, Addr)> { set ip | ip in ips :: (scope, ip) }

  /** The keys of some destinations' saved cooldowns. */
  function KeysFor(health: map<string, Health>, scopes: set<string>): set<(string, Addr)> {
    set t, ip | t in health.Keys && t in scopes && ip in health[t].cooldowns.Keys :: (t, ip)
  }

  lemma KeysNone(scope: string, keys: set<(string, Addr)>)
    ensures keys + KeysOf(scope, {}) == keys
  {}

  lemma KeysOne(scope: string, keys: set<(string, Addr)>, done: set<Addr>, ip: Addr)
    requires ip !in done && forall k :: k in keys ==> k.0 != scope
    ensures (scope, ip) !in keys + KeysOf(scope, done)
    ensures keys + KeysOf(scope, done + {ip}) == keys + KeysOf(scope, done) + {(scope, ip)}
  {}

  lemma ScopeOne(health: map<string, Health>, done: set<string>, scope: string)
    requires scope in health && scope !in done
    ensures forall k :: k in KeysFor(health, done) ==> k.0 != scope
    ensures KeysFor(health, done + {scope}) == KeysFor(health, done) + KeysOf(scope, health[scope].cooldowns.Keys)
  {}

  lemma HealthNone(p: Pool, health: map<string, Health>, now: Time)
    ensures SomeRings(p, health, {}, now) == p.preferred
    ensures SomeCooldowns(p, health, KeysFor(health, {}), now) == p.ipCooldowns
  {}

  lemma HealthAll(health: map<string, Health>)
    ensures KeysFor(health, health.Keys) == SavedKeys(health)
  {}

  lemma {:induction false} ReplayMore(p: Pool, a: seq<PoolSystem.Step>, b: seq<PoolSystem.Step>)
    ensures Replayed(p, a + b) == Replayed(Replayed(p, a), b)
    decreases |b|
  {
    if b == [] {
      assert a + b == a;
    } else {
      var n := |b| - 1;
      ReplayMore(p, a, b[..n]);
      assert (a + b)[..|a + b| - 1] == a + b[..n];
    }
  }

  lemma RingsKeepWf(p: Pool, scope: string, e: PreferredExit, now: Time)
    requires p.Wf()
    ensures RestorePreference(p, scope, e, now).Wf()
  {
    hide Remember;
  }

  lemma CooldownsKeepWf(p: Pool, scope: string, ip: Addr, until: Time, now: Time)
    requires p.Wf()
    ensures RestoreCooldown(p, scope, ip, until, now).Wf()
  {
    hide Cooled;
    hide HasMeasuredIP;
  }

  // ---------------------------------------------------------------------
  // A restart.

  /** A pool that has just been built from the same catalogue. */
  ghost predicate Restarted(p: Pool, q: Pool) {
    && q.Wf()
    && q.slots.Keys == p.slots.Keys
    && (forall id :: id in q.slots ==> q.Slot(id).publicIP == NoAddr
                                       && q.Slot(id).spec.rotating == p.Slot(id).spec.rotating)
    && q.batches == map[] && q.preferred == map[] && q.ipCooldowns == map[]
    && q.opts.preferredMax == p.opts.preferredMax
  }

  /** Cooldowns are kept for a named destination and a valid address only. */
  ghost predicate CooldownsNamed(p: Pool) {
    forall k :: k in p.ipCooldowns ==> k.0 != "" && k.1 != NoAddr
  }

  lemma LoadedWf(q: Pool, saved: map<string, SavedIP>)
    requires q.Wf()
    ensures q.(states := LoadedStates(q, saved)).Wf()
  {}

  lemma LoadedSlots(p: Pool, q: Pool, now: Time)
    requires p.Wf() && Restarted(p, q)
    ensures var r := q.(states := LoadedStates(q, SavedSlots(p)));
            && r.Wf()
            && forall id :: id in p.slots ==>
                              if Lasting(p.Slot(id))
                              then r.Slot(id).publicIP == p.Slot(id).publicIP
                                  && r.Slot(id).ipCheckedAt == p.Slot(id).ipCheckedAt
                              else r.Slot(id).publicIP == NoAddr
  {
    LoadedWf(q, SavedSlots(p));
    var r := q.(states := LoadedStates(q, SavedSlots(p)));
    forall id | id in q.slots ensures r.Slot(id) == LoadedStates(q, SavedSlots(p))[q.slots[id]]
        && q.IsMember(q.slots[id]) {}
    hide Pool.Wf;
  }

  /** Offering distinct addresses that fit to an empty ring keeps those that qualify. */
  lemma {:induction false} RingReloads(p: Pool, saved: seq<PreferredExit>, now: Time)
    requires Preferred.Valid(saved, p.opts.preferredMax) && p.opts.preferredMax > 0
    ensures LoadedRing(p, [], saved, now) == Filter(saved, (e: PreferredExit) => Restorable(p, e, now))
    decreases |saved|
  {
    hide Restorable;
    if saved != [] {
      var n := |saved| - 1;
      var f := (e: PreferredExit) => Restorable(p, e, now);
      RingReloads(p, saved[..n], now);
      var before := LoadedRing(p, [], saved[..n], now);
      forall e | e in before ensures e.publicIP != saved[n].publicIP {
        assert e in saved[..n];
      }
      if Restorable(p, saved[n], now) { AppendsNew(before, saved[n], p.opts.preferredMax); }
    }
  }

  lemma AppendsNew(s: seq<PreferredExit>, e: PreferredExit, max: int)
    requires (forall d :: d in s ==> d.publicIP != e.publicIP) && max > 0 && |s| < max
    ensures Remember(s, e.slotID, e.publicIP, e.expiresAt, max) == s + [e]
  {
    forall k | 0 <= k < |s| ensures s[k].publicIP != e.publicIP {
      assert s[k] in s;
    }
  }

  lemma {:induction false} FilterTwice(s: seq<PreferredExit>, f: PreferredExit -> bool, g: PreferredExit -> bool)
    requires forall e :: g(e) ==> f(e)
    ensures Filter(Filter(s, f), g) == Filter(s, g)
  {
    if s != [] {
      var n := |s| - 1;
      FilterTwice(s[..n], f, g);
      if f(s[n]) {
        var kept := Filter(s[..n], f) + [s[n]];
        assert kept[..|kept| - 1] == Filter(s[..n], f);
      }
    }
  }

  /** The entry is live, and its slot is saved under the entry's address. */
  predicate Survives(p: Pool, e: PreferredExit, now: Time) {
    && now < e.expiresAt && e.slotID in p.slots && e.publicIP != NoAddr
    && Lasting(p.Slot(e.slotID)) && p.Slot(e.slotID).publicIP == e.publicIP
  }

  /** Some saved slot has the address. */
  ghost predicate SavedAddress(p: Pool, ip: Addr) {
    exists id :: id in p.slots && Lasting(p.Slot(id)) && p.Slot(id).publicIP == ip
  }

  lemma RestorableSurvives(p: Pool, q: Pool, r: Pool, e: PreferredExit, now: Time)
    requires p.Wf() && Restarted(p, q) && r == q.(states := LoadedStates(q, SavedSlots(p)))
    ensures Restorable(r, e, now) == Survives(p, e, now)
  {
    LoadedSlots(p, q, now);
    hide LoadedStates;
    hide SavedSlots;
    assert e.slotID in p.slots <==> e.slotID in r.slots;
  }

  lemma RingsReload(p: Pool, q: Pool, r: Pool, t: string, savedAt: Time, now: Time)
    requires p.Wf() && RingsValid(p) && Restarted(p, q) && savedAt <= now && p.opts.preferredMax > 0
    requires r == q.(states := LoadedStates(q, SavedSlots(p)))
    ensures LoadedRing(r, [], Prune(RingFor(p, t), savedAt), now)
            == Filter(RingFor(p, t), (e: PreferredExit) => Survives(p, e, now))
  {
    assert r.opts.preferredMax == p.opts.preferredMax;
    hide Pool.Wf;
    hide Restorable;
    hide Restarted;
    hide LoadedStates;
    var ring := RingFor(p, t);
    var live := (e: PreferredExit) => savedAt < e.expiresAt;
    var f, g := (e: PreferredExit) => Restorable(r, e, now), (e: PreferredExit) => Survives(p, e, now);
    assert Preferred.Valid(ring, p.opts.preferredMax);
    FilterKeepsValid(ring, live, p.opts.preferredMax);
    Lapsed.SameFilter(ring, live, (e: PreferredExit) => savedAt < e.expiresAt);
    RingReloads(r, Filter(ring, live), now);
    forall e ensures f(e) == g(e) { RestorableSurvives(p, q, r, e, now); }
    Lapsed.SameFilter(Filter(ring, live), f, g);
    FilterTwice(ring, live, g);
  }

  /** A cooldown is put back into a fresh pool exactly when it still runs and its address
      was saved with some slot. */
  lemma CooldownReloads(p: Pool, q: Pool, r: Pool, k: (string, Addr), savedAt: Time, now: Time)
    requires p.Wf() && CooldownsNamed(p) && Restarted(p, q) && ZERO_TIME < now && savedAt <= now
    requires r == q.(states := LoadedStates(q, SavedSlots(p)))
    ensures PutBack(r, SavedHealth(Expire(p, savedAt)), k, now)
            <==> k in p.ipCooldowns && now < p.ipCooldowns[k] && SavedAddress(p, k.1)
    ensures PutBack(r, SavedHealth(Expire(p, savedAt)), k, now) ==>
              SavedHealth(Expire(p, savedAt))[k.0].cooldowns[k.1] == p.ipCooldowns[k]
  {
    SavedCooldowns(p, k, savedAt);
    assert r.ipCooldowns == map[];
    if k in p.ipCooldowns && k.1 != NoAddr { AddressReloads(p, q, r, k.1); }
    hide SavedHealth;
    hide Expire;
    hide HasMeasuredIP;
    hide SavedAddress;
    hide Pool.Wf;
    hide Restarted;
    hide LoadedStates;
  }

  lemma SavedCooldowns(p: Pool, k: (string, Addr), savedAt: Time)
    ensures var health := SavedHealth(Expire(p, savedAt));
            && (k.0 in health && k.1 in health[k.0].cooldowns <==> k in p.ipCooldowns && p.ipCooldowns[k] >= savedAt)
            && (k.0 in health && k.1 in health[k.0].cooldowns ==> health[k.0].cooldowns[k.1] == p.ipCooldowns[k])
  {
    hide ExpireCooldowns;
    hide Prune;
    var m := Expire(p, savedAt).ipCooldowns;
    var health := SavedHealth(Expire(p, savedAt));
    assert k == (k.0, k.1);
    if k in m { assert k.0 in health; }
    assert k.0 in health ==> health[k.0].cooldowns == CooldownsOf(m, k.0);
  }

  lemma AddressReloads(p: Pool, q: Pool, r: Pool, ip: Addr)
    requires p.Wf() && Restarted(p, q) && ip != NoAddr && r == q.(states := LoadedStates(q, SavedSlots(p)))
    ensures HasMeasuredIP(r, ip) <==> SavedAddress(p, ip)
  {
    LoadedSlots(p, q, ZERO_TIME);
    hide LoadedStates;
    hide SavedSlots;
    assert r.slots.Keys == p.slots.Keys;
  }

  lemma {:induction false} NoBatches(saved: map<string, SavedIP>, ids: seq<string>, now: Time)
    ensures LoadedBatches(map[], saved, ids, now) == map[]
    decreases |ids|
  {
    if ids != [] { NoBatches(saved, ids[..|ids| - 1], now); }
  }

  /** The fresh pool once its addresses are restored. */
  function Remeasured(p: Pool, q: Pool): Pool { q.(states := LoadedStates(q, SavedSlots(p))) }

  /** Expiry before saving touches neither addresses nor live entries. */
  lemma ExpirySaves(p: Pool, t: string, savedAt: Time)
    ensures SavedSlots(Expire(p, savedAt)) == SavedSlots(p)
    ensures RingFor(Expire(p, savedAt), t) == Prune(RingFor(p, t), savedAt)
  {
    hide ExpireCooldowns;
    var p0 := Expire(p, savedAt);
    forall id | id in p.slots ensures Lasting(p0.Slot(id)) == Lasting(p.Slot(id))
        && p0.Slot(id).publicIP == p.Slot(id).publicIP
      && p0.Slot(id).ipCheckedAt == p.Slot(id).ipCheckedAt
    {
      SameAddress(p, p.slots[id], savedAt);
    }
  }

  lemma SameAddress(p: Pool, h: Handle, now: Time)
    ensures var s, t := p.At(h), Expire(p, now).At(h);
            t.publicIP == s.publicIP && t.ipCheckedAt == s.ipCheckedAt && t.spec == s.spec
  {}

  lemma LoadedParts(p: Pool, q: Pool, ids: seq<string>, savedAt: Time, measuredAt: Time, now: Time)
    requires Restarted(p, q)
    ensures var m, health := Remeasured(p, q), SavedHealth(Expire(p, savedAt));
            Loaded(q, Saved(Expire(p, savedAt)), ids, measuredAt, now)
            == m.(preferred := LoadedRings(m, health, now), ipCooldowns := LoadedCooldowns(m, health, now))
  {
    ExpirySaves(p, "", savedAt);
    NoBatches(SavedSlots(p), ids, measuredAt);
    hide SavedSlots;
    hide SavedHealth;
    hide LoadedStates;
    hide LoadedRings;
    hide LoadedCooldowns;
    hide LoadedBatches;
    hide Expire;
  }

  lemma RingReloaded(p: Pool, q: Pool, t: string, savedAt: Time, now: Time)
    requires p.Wf() && RingsValid(p) && Restarted(p, q) && savedAt <= now
    ensures var rings := LoadedRings(Remeasured(p, q), SavedHealth(Expire(p, savedAt)), now);
            && (if t in rings then rings[t] else []) == Filter(RingFor(p, t), (e: PreferredExit) => Survives(p, e, now))
            && (t in rings ==> rings[t] != [])
  {
    var m, p0 := Remeasured(p, q), Expire(p, savedAt);
    ExpirySaves(p, t, savedAt);
    RingsReload(p, q, m, t, savedAt, now);
    var health := SavedHealth(p0);
    assert m.preferred == map[];
    assert t in health ==> health[t].preferred == RingFor(p0, t);
    if t !in health {
      assert RingFor(p0, t) == [];
      assert LoadedRing(m, [], [], now) == [];
    }
    hide Expire;
    hide LoadedRing;
    hide LoadedStates;
    hide Survives;
    hide Pool.Wf;
    hide RingsValid;
  }

  lemma LoadedKey(p: Pool, health: map<string, Health>, k: (string, Addr), now: Time)
    requires p.ipCooldowns == map[]
    ensures k in LoadedCooldowns(p, health, now) <==> PutBack(p, health, k, now)
    ensures PutBack(p, health, k, now) ==> LoadedCooldowns(p, health, now)[k] == health[k.0].cooldowns[k.1]
  {
    hide HasMeasuredIP;
    assert k == (k.0, k.1);
    if PutBack(p, health, k, now) { assert k in SavedKeys(health); }
  }

  /** A restart restores, in a pool built from the same catalogue: every lasting slot's
      address and check time; every ring, in order, restricted to the entries that are
      still live and whose slot is saved under their address; and every running cooldown
      on an address saved with some slot. Nothing else is restored. */
  lemma RestartRestores(p: Pool, q: Pool, ids: seq<string>, savedAt: Time, measuredAt: Time, now: Time)
    requires p.Wf() && RingsValid(p) && CooldownsNamed(p) && Restarted(p, q)
    requires ZERO_TIME < now && savedAt <= now
    ensures var r := Loaded(q, Saved(Expire(p, savedAt)), ids, measuredAt, now);
            && (forall id :: id in p.slots ==>
                  if Lasting(p.Slot(id))
                  then r.Slot(id).publicIP == p.Slot(id).publicIP && r.Slot(id).ipCheckedAt == p.Slot(id).ipCheckedAt
                  else r.Slot(id).publicIP == NoAddr)
            && (forall t :: RingFor(r, t) == Filter(RingFor(p, t), (e: PreferredExit) => Survives(p, e, now)))
            && (forall t :: t in r.preferred ==> r.preferred[t] != [])
            && (forall k :: k in r.ipCooldowns <==> k in p.ipCooldowns && now < p.ipCooldowns[k]
                                                    && SavedAddress(p, k.1))
            && (forall k :: k in r.ipCooldowns ==> r.ipCooldowns[k] == p.ipCooldowns[k])
  {
    hide Survives;
    hide Expire;
    hide Pool.Wf;
    hide RingsValid;
    hide CooldownsNamed;
    hide SavedAddress;
    hide LoadedRings;
    hide LoadedStates;
    hide SavedHealth;
    hide SavedSlots;
    hide PutBack;
    LoadedParts(p, q, ids, savedAt, measuredAt, now);
    LoadedSlots(p, q, now);
    var m, health := Remeasured(p, q), SavedHealth(Expire(p, savedAt));
    assert m.ipCooldowns == map[];
    forall t { RingReloaded(p, q, t, savedAt, now); }
    forall k ensures PutBack(m, health, k, now) <==>
        k in p.ipCooldowns && now < p.ipCooldowns[k] && SavedAddress(p, k.1)
             ensures k in LoadedCooldowns(m, health, now) <==> PutBack(m, health, k, now)
             ensures PutBack(m, health, k, now) ==> LoadedCooldowns(m, health, now)[k] == p.ipCooldowns[k]
    {
      CooldownReloads(p, q, m, k, savedAt, now);
      LoadedKey(m, health, k, now);
    }
    hide LoadedCooldowns;
  }
}
