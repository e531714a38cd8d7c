/** Part of the way through a relay refresh: retained relays already carry their new
    spec, new states are made but not stored, and the next membership is growing. */
module RelayLoops {
  import opened Common
  import opened Ordering
  import opened PoolState
  import opened WellFormed
  import Entries

  /** The IDs of the first `n` specs. */
  function Named(specs: seq<Spec>, n: nat): set<string>
    requires n <= |specs|
  {
    set k | 0 <= k < n :: specs[k].id
  }

  /** None of the first `n` relays takes the ID of a slot that is no relay. */
  ghost predicate FreeUpTo(p: Pool, specs: seq<Spec>, n: nat)
    requires n <= |specs|
  {
    forall k :: 0 <= k < n && specs[k].id in p.slots ==> p.Slot(specs[k].id).spec.kind == RelaySocks
  }

  /** Installing the first `n` relays gives these states, next handle and membership. */
  ghost predicate IsInstalled(p: Pool, specs: seq<Spec>, n: nat, all: map<Handle, SlotState>, handle: Handle,
                              next: map<string, Handle>)
    requires n <= |specs|
  {
    InstallRelays(p, specs, n, KeptSlots(p)) == (p.(states := all, nextHandle := handle), next)
  }

  /** A refresh refused after the first `n` relays leaves these states. */
  ghost predicate IsRespecced(p: Pool, specs: seq<Spec>, n: nat, states: map<Handle, SlotState>)
    requires n <= |specs|
  {
    Respec(p, specs, Named(specs, n), n) == p.(states := states)
  }

  /** New states have handles nobody held. */
  ghost predicate Unheld(p: Pool, states: map<Handle, SlotState>, added: map<Handle, SlotState>, handle: Handle) {
    && states.Keys == p.states.Keys && handle >= p.nextHandle
    && forall h :: h in added ==> p.nextHandle <= h < handle
  }

  /** The states met so far, the new ones, the next handle and the next membership. */
  ghost predicate PartWay(p: Pool, specs: seq<Spec>, n: nat, states: map<Handle, SlotState>,
                          added: map<Handle, SlotState>,
                          handle: Handle, next: map<string, Handle>)
    requires n <= |specs|
  {
    && IsInstalled(p, specs, n, states + added, handle, next)
    && IsRespecced(p, specs, n, states)
    && Unheld(p, states, added, handle)
  }

  lemma NothingInstalled(p: Pool, specs: seq<Spec>)
    ensures PartWay(p, specs, 0, p.states, map[], p.nextHandle, KeptSlots(p))
  {
    assert p.states + map[] == p.states;
  }

  lemma {:induction false} RespecAgrees(p: Pool, specs: seq<Spec>, d: set<string>, e: set<string>, n: nat)
    requires n <= |specs| && forall k :: 0 <= k < n ==> (specs[k].id in d <==> specs[k].id in e)
    ensures Respec(p, specs, d, n) == Respec(p, specs, e, n)
  {
    if n > 0 { RespecAgrees(p, specs, d, e, n - 1); }
  }

  /** Relays that are not named keep their spec. */
  lemma {:induction false} RespecRest(p: Pool, specs: seq<Spec>, d: set<string>, i: nat, n: nat)
    requires i <= n <= |specs| && forall k :: i <= k < n ==> specs[k].id !in d
    ensures Respec(p, specs, d, n) == Respec(p, specs, d, i)
    decreases n
  {
    if n > i { RespecRest(p, specs, d, i, n - 1); }
  }

  lemma NamedOne(specs: seq<Spec>, n: nat)
    requires n < |specs| && RelaysWellFormed(specs)
    ensures Named(specs, n + 1) == Named(specs, n) + {specs[n].id}
    ensures specs[n].id !in Named(specs, n)
    ensures forall k :: 0 <= k < n ==> specs[k].id in Named(specs, n)
    ensures forall k :: n <= k < |specs| ==> specs[k].id !in Named(specs, n)
  {}

  lemma PutFirst<V>(m: map<Handle, V>, n: map<Handle, V>, h: Handle, v: V)
    requires h !in n
    ensures (m + n)[h := v] == m[h := v] + n
    ensures (m + n)[h := v] == m + n[h := v]
  {}

  lemma InstallNext(p: Pool, specs: seq<Spec>, n: nat, all: map<Handle, SlotState>, handle: Handle,
                    next: map<string, Handle>)
    requires n < |specs| && IsInstalled(p, specs, n, all, handle, next)
    ensures specs[n].id in p.slots && p.slots[specs[n].id] in all ==>
              var h := p.slots[specs[n].id];
              IsInstalled(p, specs, n + 1, all[h := all[h].(spec := specs[n])], handle, next[specs[n].id := h])
    ensures specs[n].id !in p.slots ==>
              IsInstalled(p, specs, n + 1, all[handle := NewSlotState(specs[n])], handle + 1,
                  next[specs[n].id := handle])
  {
    hide KeptSlots;
    assert InstallRelays(p, specs, n + 1, KeptSlots(p))
           == InstallRelay(p.(states := all, nextHandle := handle), specs[n], next);
  }

  lemma RespecNext(p: Pool, specs: seq<Spec>, n: nat, states: map<Handle, SlotState>)
    requires RelaysWellFormed(specs) && n < |specs| && IsRespecced(p, specs, n, states)
    ensures var q := p.(states := states);
            IsRespecced(p, specs, n + 1, RespecRelay(q, specs[n], {specs[n].id}).states)
  {
    NamedOne(specs, n);
    RespecAgrees(p, specs, Named(specs, n), Named(specs, n + 1), n);
    var q := p.(states := states);
    assert Respec(p, specs, Named(specs, n + 1), n) == q;
    assert Respec(p, specs, Named(specs, n + 1), n + 1) == RespecRelay(q, specs[n], Named(specs, n + 1));
  }

  /** A retained relay gets its new spec in place. */
  lemma RetainOne(p: Pool, specs: seq<Spec>, n: nat, states: map<Handle, SlotState>, added: map<Handle, SlotState>,
                  handle: Handle, next: map<string, Handle>)
    requires p.Wf() && RelaysWellFormed(specs) && n < |specs| && PartWay(p, specs, n, states, added, handle, next)
    requires specs[n].id in p.slots && p.slots[specs[n].id] in states
             && states[p.slots[specs[n].id]].spec.kind == RelaySocks
    ensures var h := p.slots[specs[n].id];
            PartWay(p, specs, n + 1, states[h := states[h].(spec := specs[n])], added, handle, next[specs[n].id := h])
  {
    var h := p.slots[specs[n].id];
    assert h < p.nextHandle && h !in added;
    hide Pool.Wf;
    hide RelaysWellFormed;
    hide InstallRelays;
    hide Respec;
    InstallNext(p, specs, n, states + added, handle, next);
    RespecNext(p, specs, n, states);
    hide IsInstalled;
    hide IsRespecced;
    PutFirst(states, added, h, states[h].(spec := specs[n]));
    assert (states + added)[h] == states[h];
  }

  /** A new relay gets a fresh state, stored when the refresh is accepted. */
  lemma AddOne(p: Pool, specs: seq<Spec>, n: nat, states: map<Handle, SlotState>, added: map<Handle, SlotState>,
               handle: Handle, next: map<string, Handle>)
    requires p.Wf() && RelaysWellFormed(specs) && n < |specs| && PartWay(p, specs, n, states, added, handle, next)
    requires specs[n].id !in p.slots
    ensures PartWay(p, specs, n + 1, states, added[handle := NewSlotState(specs[n])], handle + 1,
            next[specs[n].id := handle])
  {
    hide Pool.Wf;
    hide RelaysWellFormed;
    InstallNext(p, specs, n, states + added, handle, next);
    RespecNext(p, specs, n, states);
    hide IsInstalled;
    hide IsRespecced;
    PutFirst(states, added, handle, NewSlotState(specs[n]));
  }

  /** A refresh that meets a collision leaves the specs changed so far. */
  lemma RefreshRefused(p: Pool, specs: seq<Spec>, n: nat, states: map<Handle, SlotState>, added: map<Handle, SlotState>,
                handle: Handle, next: map<string, Handle>)
    requires RelaysWellFormed(specs) && n < |specs| && PartWay(p, specs, n, states, added, handle, next)
    requires specs[n].id in p.slots && p.Slot(specs[n].id).spec.kind != RelaySocks
    ensures Reconcile(p, specs, Named(specs, n)) == (p.(states := states), false)
  {
    NamedOne(specs, n);
    RespecRest(p, specs, Named(specs, n), n, |specs|);
  }

  /** A malformed refresh changes nothing. */
  lemma Malformed(p: Pool, specs: seq<Spec>)
    ensures !RelaysWellFormed(specs) ==> Reconcile(p, specs, {}) == (p, false)
  {}

  /** Specs met so far have not changed any member's kind. */
  lemma SameKind(p: Pool, specs: seq<Spec>, n: nat, states: map<Handle, SlotState>, added: map<Handle, SlotState>,
                 handle: Handle, next: map<string, Handle>, id: string)
    requires p.Wf() && RelaysWellFormed(specs) && n <= |specs| && PartWay(p, specs, n, states, added, handle, next)
             && id in p.slots
    ensures p.slots[id] in states && states[p.slots[id]].spec.kind == p.Slot(id).spec.kind
  {
    RespecKeeps(p, specs, Named(specs, n), n);
    hide Respec;
    hide InstallRelays;
  }

  /** An accepted refresh. */
  lemma RefreshAccepted(p: Pool, specs: seq<Spec>, states: map<Handle, SlotState>, added: map<Handle, SlotState>,
                 handle: Handle, next: map<string, Handle>, order: seq<string>)
    requires RelaysWellFormed(specs) && PartWay(p, specs, |specs|, states, added, handle, next)
             && FreeUpTo(p, specs, |specs|)
    requires order == Listing(next.Keys)
    ensures Reconcile(p, specs, {})
            == (p.(states := states + added, nextHandle := handle, slots := next, order := order,
                   sessions := SomeBound(p.sessions, {}, next)), true)
  {
    hide InstallRelays;
    hide Respec;
    hide RelaysWellFormed;
    hide Listing;
    hide IsRespecced;
    hide Unheld;
    NoCollisions(p, specs);
    ReconcileIs(p, specs);
    hide Reconcile;
    hide Collides;
    hide FreeUpTo;
    hide KeptSlots;
  }

  lemma ReconcileIs(p: Pool, specs: seq<Spec>)
    requires RelaysWellFormed(specs) && !Collides(p, specs)
    ensures var (q, next) := InstallRelays(p, specs, |specs|, KeptSlots(p));
            Reconcile(p, specs, {})
            == (q.(slots := next, order := Listing(next.Keys), sessions := SomeBound(q.sessions, {}, next)), true)
  {
    hide InstallRelays;
    hide RelaysWellFormed;
    hide Collides;
    hide Listing;
    var r := InstallRelays(p, specs, |specs|, KeptSlots(p));
    var q, next := r.0, r.1;
    assert SomeBound(q.sessions, {}, next) == map n | n in q.sessions.Keys && q.sessions[n].slotID in next ::
           q.sessions[n];
  }

  lemma NoCollisions(p: Pool, specs: seq<Spec>)
    ensures FreeUpTo(p, specs, |specs|) ==> !Collides(p, specs)
  {}

  /** The sessions, those of departed slots dropped but for the ones in `todo`. */
  function SomeBound(sessions: map<string, Session>, todo: set<string>,
                     next: map<string, Handle>): map<string, Session> {
    map n | n in sessions.Keys && (n in todo || sessions[n].slotID in next) :: sessions[n]
  }

  /** The names in ascending order. */
  method SortNames(names: set<string>) returns (order: seq<string>)
    ensures order == Listing(names)
  {
    var listed: seq<string> := [];
    var todo := names;
    while todo != {}
      invariant todo <= names && Distinct(listed)
      invariant forall x :: x in listed <==> x in names && x !in todo
    {
      var x :| x in todo;
      listed := listed + [x];
      todo := todo - {x};
    }
    order := Sort(listed);
    SortSorts(listed);
    Entries.SortedDistinct(listed);
    ListingSorted(names);
    StrictlyListed(order);
    SortedIsUnique(order, Listing(names));
  }

  lemma StrictlyListed(s: seq<string>)
    requires Sorted(s) && Distinct(s)
    ensures StrictlySorted(s)
  {}

  /** Whether a refresh lists relays with distinct, non-empty IDs. */
  method CheckRelays(specs: seq<Spec>) returns (ok: bool)
    ensures ok == RelaysWellFormed(specs)
  {
    if specs == [] { return false; }
    var seen: set<string> := {};
    for i := 0 to |specs|
      invariant seen == Named(specs, i)
      invariant forall k :: 0 <= k < i ==> specs[k].kind == RelaySocks && specs[k].id != ""
      invariant forall k, l :: 0 <= k < l < i ==> specs[k].id != specs[l].id
    {
      if specs[i].kind != RelaySocks || specs[i].id == "" || specs[i].id in seen { return false; }
      seen := seen + {specs[i].id};
    }
    return true;
  }

  // ---------------------------------------------------------------------
  // Construction.

  ghost predicate DistinctIDs(specs: seq<Spec>, n: nat)
    requires n <= |specs|
  {
    forall i, j :: 0 <= i < j < n ==> specs[i].id != specs[j].id
  }

  ghost predicate AnyRelay(specs: seq<Spec>) { exists i :: 0 <= i < |specs| && specs[i].kind == RelaySocks }

  lemma Buildable(specs: seq<Spec>, entryCount: nat, opts: Options)
    requires opts.Defaulted()
    ensures Constructible(specs, entryCount, opts)
            <==> specs != [] && DistinctIDs(specs, |specs|) && (AnyRelay(specs) ==> entryCount > 0)
  {}

  lemma NewPoolIs(specs: seq<Spec>, entryCount: nat, opts: Options)
    ensures var (slots, states) := InitialSlots(specs, |specs|);
            NewPool(specs, entryCount, opts)
            == Pool(opts, states, |specs|, slots, Listing(slots.Keys), map[], map[], map[], 0, map[], map[],
                    seq(entryCount, _ => NEW_ENTRY), [], 0, 0, 0, 0)
  {
    hide InitialSlots;
  }

  method NeedsEntry(specs: seq<Spec>) returns (needed: bool)
    ensures needed == AnyRelay(specs)
  {
    for i := 0 to |specs|
      invariant forall k :: 0 <= k < i ==> specs[k].kind != RelaySocks
    {
      if specs[i].kind == RelaySocks { return true; }
    }
    return false;
  }
}
