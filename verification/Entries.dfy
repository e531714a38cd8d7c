/** Choosing entry tunnels: explicit names, or an automatic choice spread over regions. */
module Entries {
  import opened Common
  import opened Text
  import opened Ordering

  /** A catalog slot and the region of its country. */
  datatype Site = Site(id: string, region: string)

  // ---------------------------------------------------------------------
  // Dealing round by round.

  /** What `round` full rounds, and the first `j` groups of the next one, hand out. */
  function Dealt(groups: seq<seq<string>>, round: nat, j: nat): seq<string>
    requires j <= |groups|
    decreases round, j
  {
    if j > 0 then Dealt(groups, round, j - 1) + (if round < |groups[j - 1]| then [groups[j - 1][round]] else [])
    else if round > 0 then Dealt(groups, round - 1, |groups|)
    else []
  }

  /** The chosen slots of one group, in the order they were chosen. */
  function Share(out: seq<string>, group: seq<string>): seq<string> {
    if out == [] then []
    else
      var rest := Share(out[..|out| - 1], group);
      if out[|out| - 1] in group then rest + [out[|out| - 1]] else rest
  }

  /** No slot is in two groups or twice in one. */
  ghost predicate Apart(groups: seq<seq<string>>) {
    && (forall i :: 0 <= i < |groups| ==> Distinct(groups[i]))
    && (forall i, j, x :: 0 <= i < j < |groups| && x in groups[i] ==> x !in groups[j])
  }

  /** How many slots of group `i` have been handed out. */
  function Turns(groups: seq<seq<string>>, round: nat, j: nat, i: nat): nat
    requires i < |groups|
  {
    Min(round + (if i < j then 1 else 0), |groups[i]|)
  }

  function Total(groups: seq<seq<string>>, n: nat): nat
    requires n <= |groups|
  {
    if n == 0 then 0 else Total(groups, n - 1) + |groups[n - 1]|
  }

  function TotalTurns(groups: seq<seq<string>>, round: nat, j: nat, n: nat): nat
    requires n <= |groups|
  {
    if n == 0 then 0 else TotalTurns(groups, round, j, n - 1) + Turns(groups, round, j, n - 1)
  }

  lemma ShareOne(out: seq<string>, x: string, group: seq<string>)
    ensures Share(out + [x], group) == if x in group then Share(out, group) + [x] else Share(out, group)
  {
    assert (out + [x])[..|out|] == out;
  }

  /** Every group contributes a prefix of its own list. */
  lemma {:induction false} SharesArePrefixes(groups: seq<seq<string>>, round: nat, j: nat, i: nat)
    requires Apart(groups) && j <= |groups| && i < |groups|
    ensures Share(Dealt(groups, round, j), groups[i]) == groups[i][..Turns(groups, round, j, i)]
    decreases round, j
  {
    hide Share;
    hide Apart;
    if j > 0 {
      SharesArePrefixes(groups, round, j - 1, i);
      if round < |groups[j - 1]| {
        var x := groups[j - 1][round];
        ShareOne(Dealt(groups, round, j - 1), x, groups[i]);
        if i == j - 1 {
          assert groups[i][..round + 1] == groups[i][..round] + [x];
        } else {
          NotShared(groups, i, j - 1, x);
        }
      } else {
        assert Dealt(groups, round, j) == Dealt(groups, round, j - 1);
      }
    } else if round > 0 {
      SharesArePrefixes(groups, round - 1, |groups|, i);
    } else {
      assert Share([], groups[i]) == [] by { ShareNothing(groups[i]); }
    }
  }

  lemma ShareNothing(group: seq<string>)
    ensures Share([], group) == []
  {}

  lemma NotShared(groups: seq<seq<string>>, i: nat, j: nat, x: string)
    requires Apart(groups) && i < |groups| && j < |groups| && i != j && x in groups[j]
    ensures x !in groups[i]
  {}

  lemma {:induction false} DealtSize(groups: seq<seq<string>>, round: nat, j: nat)
    requires j <= |groups|
    ensures |Dealt(groups, round, j)| == TotalTurns(groups, round, j, |groups|)
    decreases round, j
  {
    if j > 0 {
      DealtSize(groups, round, j - 1);
      OneMoreTurn(groups, round, j, |groups|);
    } else if round > 0 {
      DealtSize(groups, round - 1, |groups|);
      SameTurns(groups, round, |groups|);
    } else {
      NoTurns(groups, |groups|);
    }
  }

  lemma {:induction false} OneMoreTurn(groups: seq<seq<string>>, round: nat, j: nat, n: nat)
    requires 0 < j <= |groups| && n <= |groups|
    ensures TotalTurns(groups, round, j, n)
            == TotalTurns(groups, round, j - 1, n) + (if n >= j && round < |groups[j - 1]| then 1 else 0)
  {
    if n > 0 { OneMoreTurn(groups, round, j, n - 1); }
  }

  lemma {:induction false} SameTurns(groups: seq<seq<string>>, round: nat, n: nat)
    requires round > 0 && n <= |groups|
    ensures TotalTurns(groups, round, 0, n) == TotalTurns(groups, round - 1, |groups|, n)
  {
    if n > 0 { SameTurns(groups, round, n - 1); }
  }

  lemma {:induction false} NoTurns(groups: seq<seq<string>>, n: nat)
    requires n <= |groups|
    ensures TotalTurns(groups, 0, 0, n) == 0
  {
    if n > 0 { NoTurns(groups, n - 1); }
  }

  lemma {:induction false} AllTurns(groups: seq<seq<string>>, round: nat, j: nat, n: nat)
    requires j <= |groups| && n <= |groups|
    ensures TotalTurns(groups, round, j, n) <= Total(groups, n)
    ensures (forall i :: 0 <= i < n ==> |groups[i]| <= round) ==> TotalTurns(groups, round, j, n) == Total(groups, n)
  {
    if n > 0 { AllTurns(groups, round, j, n - 1); }
  }

  /** Nothing is handed out twice. */
  lemma {:induction false} DealtMembers(groups: seq<seq<string>>, round: nat, j: nat)
    requires Apart(groups) && j <= |groups|
    ensures Distinct(Dealt(groups, round, j))
    ensures forall x :: x in Dealt(groups, round, j) ==> HandedOut(groups, round, j, x)
    decreases round, j
  {
    if j > 0 {
      DealtMembers(groups, round, j - 1);
      var before := Dealt(groups, round, j - 1);
      forall x | x in before ensures HandedOut(groups, round, j, x) {
        var i: nat, k: nat :| HandedOutAt(groups, round, j - 1, x, i, k);
        assert HandedOutAt(groups, round, j, x, i, k);
      }
      if round < |groups[j - 1]| {
        var y := groups[j - 1][round];
        assert HandedOutAt(groups, round, j, y, j - 1, round);
        if y in before {
          var i: nat, k: nat :| HandedOutAt(groups, round, j - 1, y, i, k);
          if i != j - 1 { NotShared(groups, i, j - 1, y); }
        }
      }
    } else if round > 0 {
      DealtMembers(groups, round - 1, |groups|);
      forall x | x in Dealt(groups, round, j) ensures HandedOut(groups, round, j, x) {
        var i: nat, k: nat :| HandedOutAt(groups, round - 1, |groups|, x, i, k);
        assert HandedOutAt(groups, round, j, x, i, k);
      }
    }
  }

  ghost predicate HandedOut(groups: seq<seq<string>>, round: nat, j: nat, x: string) {
    exists i: nat, k: nat :: HandedOutAt(groups, round, j, x, i, k)
  }

  ghost predicate HandedOutAt(groups: seq<seq<string>>, round: nat, j: nat, x: string, i: nat, k: nat) {
    i < |groups| && k < |groups[i]| && groups[i][k] == x && k < round + (if i < j then 1 else 0)
  }

  /** The choice is fair: prefixes only, a group is more than one slot behind another only
      when it is used up, and behind a later one at all only then. */
  ghost predicate Spread(out: seq<string>, groups: seq<seq<string>>) {
    && (forall i :: 0 <= i < |groups| ==> Share(out, groups[i]) <= groups[i])
    && (forall i, j :: 0 <= i < |groups| && 0 <= j < |groups| ==>
          |Share(out, groups[i])| <= |Share(out, groups[j])| + 1 || Share(out, groups[j]) == groups[j])
    && (forall i, j :: 0 <= i < j < |groups| ==>
          |Share(out, groups[j])| <= |Share(out, groups[i])| || Share(out, groups[i]) == groups[i])
  }

  lemma DealtIsSpread(groups: seq<seq<string>>, round: nat, j: nat)
    requires Apart(groups) && j <= |groups|
    ensures Spread(Dealt(groups, round, j), groups)
  {
    forall i | 0 <= i < |groups|
      ensures Share(Dealt(groups, round, j), groups[i]) == groups[i][..Turns(groups, round, j, i)]
    {
      SharesArePrefixes(groups, round, j, i);
    }
  }

  /** Deal round by round until `count` slots are chosen or a whole round adds none. */
  method Deal(groups: seq<seq<string>>, count: int) returns (out: seq<string>)
    requires Apart(groups) && count > 0
    ensures |out| == Min(count, Total(groups, |groups|))
    ensures Distinct(out) && Spread(out, groups)
    ensures forall x :: x in out ==> exists i :: 0 <= i < |groups| && x in groups[i]
  {
    hide Apart;
    hide Spread;
    hide Total;
    out := [];
    var round := 0;
    var progressed := true;
    ghost var rounds: nat, part: nat := 0, 0;
    assert Dealt(groups, 0, 0) == [];
    while progressed && |out| < count
      invariant |out| <= count
      invariant part <= |groups| && out == Dealt(groups, rounds, part)
      invariant |out| < count && progressed ==> rounds == round && part == 0
      invariant !progressed ==> forall i :: 0 <= i < |groups| ==> |groups[i]| <= rounds
      invariant !progressed ==> part == 0
      decreases progressed, Max(Total(groups, |groups|) - |out|, 0), count - |out|
    {
      ghost var before := |out|;
      progressed := false;
      var j := 0;
      while j < |groups| && |out| < count
        invariant 0 <= j <= |groups| && before <= |out| <= count
        invariant out == Dealt(groups, round, j)
        invariant progressed <==> |out| > before
        invariant !progressed ==> forall i :: 0 <= i < j ==> |groups[i]| <= round
      {
        if round < |groups[j]| {
          out := out + [groups[j][round]];
          progressed := true;
        }
        j := j + 1;
      }
      rounds, part := round, j;
      DealtSize(groups, round, j);
      AllTurns(groups, round, j, |groups|);
      if |out| < count {
        assert Dealt(groups, round + 1, 0) == Dealt(groups, round, |groups|);
        rounds, part := round + 1, 0;
      }
      if !progressed {
        assert j == |groups|;
      }
      round := round + 1;
    }
    DealtIsSpread(groups, rounds, part);
    DealtMembers(groups, rounds, part);
    DealtSize(groups, rounds, part);
    AllTurns(groups, rounds, part, |groups|);
    forall x | x in out ensures exists i :: 0 <= i < |groups| && x in groups[i] {
      var i: nat, k: nat :| HandedOutAt(groups, rounds, part, x, i, k);
      assert x in groups[i];
    }
  }

  // ---------------------------------------------------------------------
  // Grouping by region.

  /** The slots of one region, in catalog order. */
  function IDsIn(bundle: seq<Site>, region: string): seq<string> {
    if bundle == [] then []
    else
      var last := bundle[|bundle| - 1];
      IDsIn(bundle[..|bundle| - 1], region) + (if last.region == region then [last.id] else [])
  }

  function GroupsOf(bundle: seq<Site>, regions: seq<string>): (groups: seq<seq<string>>)
    ensures |groups| == |regions| && forall i :: 0 <= i < |regions| ==> groups[i] == Sort(IDsIn(bundle, regions[i]))
  {
    seq(|regions|, i requires 0 <= i < |regions| => Sort(IDsIn(bundle, regions[i])))
  }

  ghost predicate UniqueIDs(bundle: seq<Site>) {
    forall i, j :: 0 <= i < j < |bundle| ==> bundle[i].id != bundle[j].id
  }

  /** Larger regions first, then by name. */
  predicate Precedes(bundle: seq<Site>, a: string, b: string) {
    || |IDsIn(bundle, a)| > |IDsIn(bundle, b)|
    || (|IDsIn(bundle, a)| == |IDsIn(bundle, b)| && AtMost(a, b))
  }

  /** The regions of the bundle, each once, in their order of preference. */
  ghost predicate RegionsOf(bundle: seq<Site>, regions: seq<string>) {
    && Distinct(regions)
    && (forall r :: r in regions <==> exists i :: 0 <= i < |bundle| && bundle[i].region == r)
    && (forall i, j :: 0 <= i < j < |regions| ==> Precedes(bundle, regions[i], regions[j]))
  }

  lemma {:induction false} IDsInMembers(bundle: seq<Site>, region: string)
    ensures forall x :: x in IDsIn(bundle, region) <==> exists i :: 0 <= i < |bundle| && bundle[i] == Site(x, region)
  {
    if bundle != [] {
      var n := |bundle| - 1;
      IDsInMembers(bundle[..n], region);
      forall x ensures x in IDsIn(bundle, region) <==> exists i :: 0 <= i < |bundle| && bundle[i] == Site(x, region) {
        if x in IDsIn(bundle[..n], region) {
          var i :| 0 <= i < n && bundle[..n][i] == Site(x, region);
          assert bundle[i] == Site(x, region);
        }
        if i :| 0 <= i < |bundle| && bundle[i] == Site(x, region) {
          if i < n { assert bundle[..n][i] == Site(x, region); }
        }
      }
    }
  }

  lemma {:induction false} IDsInDistinct(bundle: seq<Site>, region: string)
    requires UniqueIDs(bundle)
    ensures Distinct(IDsIn(bundle, region))
  {
    if bundle != [] {
      var n := |bundle| - 1;
      IDsInDistinct(bundle[..n], region);
      IDsInMembers(bundle[..n], region);
      var rest := IDsIn(bundle[..n], region);
      forall i | 0 <= i < |rest| ensures rest[i] != bundle[n].id {
        assert rest[i] in rest;
        var k :| 0 <= k < n && bundle[..n][k] == Site(rest[i], region);
      }
    }
  }

  lemma SortedDistinct(s: seq<string>)
    requires Distinct(s)
    ensures Distinct(Sort(s)) && forall x :: x in Sort(s) <==> x in s
  {
    forall x ensures x in Sort(s) <==> x in s { assert x in Sort(s) <==> x in multiset(Sort(s)); }
    DistinctCounts(s);
    CountsDistinct(Sort(s));
  }

  lemma {:induction false} DistinctCounts(s: seq<string>)
    requires Distinct(s)
    ensures forall x :: multiset(s)[x] <= 1
  {
    if s != [] {
      var n := |s| - 1;
      DistinctCounts(s[..n]);
      assert s == s[..n] + [s[n]];
      assert s[n] !in s[..n];
    }
  }

  lemma CountsDistinct(s: seq<string>)
    requires forall x :: multiset(s)[x] <= 1
    ensures Distinct(s)
  {
    forall i, j | 0 <= i < j < |s| ensures s[i] != s[j] {
      if s[i] == s[j] { CountedTwice(s, i, j); }
    }
  }

  lemma CountedTwice(s: seq<string>, i: nat, j: nat)
    requires i < j < |s| && s[i] == s[j]
    ensures multiset(s)[s[i]] >= 2
  {
    var rest := s[i + 1..];
    assert s == s[..i] + [s[i]] + rest;
    assert rest[j - i - 1] == s[j];
  }

  lemma GroupsAreApart(bundle: seq<Site>, regions: seq<string>)
    requires UniqueIDs(bundle) && Distinct(regions)
    ensures Apart(GroupsOf(bundle, regions))
  {
    var groups := GroupsOf(bundle, regions);
    forall i | 0 <= i < |groups|
      ensures Distinct(groups[i]) && forall x :: x in groups[i] <==> x in IDsIn(bundle, regions[i])
    {
      IDsInDistinct(bundle, regions[i]);
      SortedDistinct(IDsIn(bundle, regions[i]));
    }
    forall i, j, x | 0 <= i < j < |groups| && x in groups[i] ensures x !in groups[j] {
      if x in groups[j] { OneRegion(bundle, regions[i], regions[j], x); }
    }
  }

  lemma OneRegion(bundle: seq<Site>, a: string, b: string, x: string)
    requires UniqueIDs(bundle) && x in IDsIn(bundle, a) && x in IDsIn(bundle, b)
    ensures a == b
  {
    IDsInMembers(bundle, a);
    IDsInMembers(bundle, b);
    var k :| 0 <= k < |bundle| && bundle[k] == Site(x, a);
    var l :| 0 <= l < |bundle| && bundle[l] == Site(x, b);
  }

  /** How many of the slots belong to one of the first `n` regions. */
  function Placed(bundle: seq<Site>, regions: seq<string>, n: nat): nat
    requires n <= |regions|
  {
    if n == 0 then 0 else Placed(bundle, regions, n - 1) + |IDsIn(bundle, regions[n - 1])|
  }

  lemma {:induction false} PlacedIsTotal(bundle: seq<Site>, regions: seq<string>, n: nat)
    requires n <= |regions|
    ensures Total(GroupsOf(bundle, regions), n) == Placed(bundle, regions, n)
  {
    hide Sort;
    hide IDsIn;
    if n > 0 {
      PlacedIsTotal(bundle, regions, n - 1);
      assert GroupsOf(bundle, regions)[n - 1] == Sort(IDsIn(bundle, regions[n - 1]));
    }
  }

  lemma {:induction false} OneMorePlaced(bundle: seq<Site>, regions: seq<string>, n: nat)
    requires bundle != [] && n <= |regions| && Distinct(regions)
    ensures Placed(bundle, regions, n)
            == Placed(bundle[..|bundle| - 1], regions, n)
                + (if bundle[|bundle| - 1].region in regions[..n] then 1 else 0)
  {
    if n > 0 {
      OneMorePlaced(bundle, regions, n - 1);
      var r := bundle[|bundle| - 1].region;
      assert regions[..n] == regions[..n - 1] + [regions[n - 1]];
      if r == regions[n - 1] {
        assert r !in regions[..n - 1];
      }
    }
  }

  lemma {:induction false} NothingPlaced(regions: seq<string>, n: nat)
    requires n <= |regions|
    ensures Placed([], regions, n) == 0
  {
    if n > 0 { NothingPlaced(regions, n - 1); }
  }

  lemma {:induction false} EverythingPlaced(bundle: seq<Site>, regions: seq<string>)
    requires Distinct(regions) && forall i :: 0 <= i < |bundle| ==> bundle[i].region in regions
    ensures Placed(bundle, regions, |regions|) == |bundle|
  {
    if bundle == [] {
      NothingPlaced(regions, |regions|);
    } else {
      EverythingPlaced(bundle[..|bundle| - 1], regions);
      OneMorePlaced(bundle, regions, |regions|);
      assert regions[..|regions|] == regions;
    }
  }

  // ---------------------------------------------------------------------
  // Ordering the regions.

  lemma PrecedesTransitive(bundle: seq<Site>, a: string, b: string, c: string)
    requires Precedes(bundle, a, b) && Precedes(bundle, b, c)
    ensures Precedes(bundle, a, c)
  {
    hide IDsIn;
    if a != b && b != c && Below(a, b) && Below(b, c) { BelowTransitive(a, b, c); }
    hide Below;
  }

  lemma PrecedesTotal(bundle: seq<Site>, a: string, b: string)
    ensures Precedes(bundle, a, b) || Precedes(bundle, b, a)
  {
    hide IDsIn;
    BelowTotal(a, b);
    hide Below;
  }

  /** Insert a region into an ordered list. */
  method InsertRegion(bundle: seq<Site>, regions: seq<string>, r: string) returns (out: seq<string>)
    requires Distinct(regions) && r !in regions
    requires forall i, j :: 0 <= i < j < |regions| ==> Precedes(bundle, regions[i], regions[j])
    ensures Distinct(out) && forall x :: x in out <==> x == r || x in regions
    ensures forall i, j :: 0 <= i < j < |out| ==> Precedes(bundle, out[i], out[j])
  {
    hide Precedes;
    var k := 0;
    while k < |regions| && Precedes(bundle, regions[k], r)
      invariant 0 <= k <= |regions|
      invariant forall i :: 0 <= i < k ==> Precedes(bundle, regions[i], r)
    {
      k := k + 1;
    }
    out := regions[..k] + [r] + regions[k..];
    forall x ensures x in out <==> x == r || x in regions {
      assert regions == regions[..k] + regions[k..];
    }
    forall i, j | 0 <= i < j < |out| ensures Precedes(bundle, out[i], out[j]) && out[i] != out[j] {
      if i == k {
        assert out[j] == regions[j - 1];
        PrecedesTotal(bundle, r, regions[k]);
        if j - 1 > k { PrecedesTransitive(bundle, r, regions[k], regions[j - 1]); }
      }
    }
  }

  /** The regions that occur, largest first, ties by name. */
  method OrderRegions(bundle: seq<Site>) returns (regions: seq<string>)
    ensures RegionsOf(bundle, regions)
  {
    hide Precedes;
    regions := [];
    for n := 0 to |bundle|
      invariant Distinct(regions)
      invariant forall r :: r in regions <==> exists i :: 0 <= i < n && bundle[i].region == r
      invariant forall i, j :: 0 <= i < j < |regions| ==> Precedes(bundle, regions[i], regions[j])
    {
      ghost var before := regions;
      if bundle[n].region !in regions {
        regions := InsertRegion(bundle, regions, bundle[n].region);
      }
      forall r ensures r in regions <==> exists i :: 0 <= i < n + 1 && bundle[i].region == r {
        if r == bundle[n].region { assert exists i :: 0 <= i < n + 1 && bundle[i].region == r; }
        if r in before { var i :| 0 <= i < n && bundle[i].region == r; }
      }
    }
  }

  // ---------------------------------------------------------------------
  // The automatic choice.

  /** At most `count` entries, spread over regions: every region contributes a prefix of
      its sorted slots, two regions differ by more than one slot only when the one with
      fewer is used up, and as many slots are chosen as there are, up to `count`. */
  method AutoEntries(bundle: seq<Site>, count: int) returns (out: seq<string>, regions: seq<string>)
    requires UniqueIDs(bundle) && count > 0
    ensures RegionsOf(bundle, regions)
    ensures |out| == Min(count, |bundle|) && Distinct(out)
    ensures Spread(out, GroupsOf(bundle, regions))
    ensures forall x :: x in out ==> exists i :: 0 <= i < |bundle| && bundle[i].id == x
  {
    regions := OrderRegions(bundle);
    GroupsAreApart(bundle, regions);
    PlacedIsTotal(bundle, regions, |regions|);
    EverythingPlaced(bundle, regions);
    hide Spread;
    hide RegionsOf;
    hide Apart;
    var groups := GroupsOf(bundle, regions);
    out := Deal(groups, count);
    forall x | x in out ensures exists i :: 0 <= i < |bundle| && bundle[i].id == x {
      var g :| 0 <= g < |groups| && x in groups[g];
      InGroup(bundle, regions[g], x);
    }
  }

  lemma InGroup(bundle: seq<Site>, region: string, x: string)
    requires x in Sort(IDsIn(bundle, region))
    ensures exists i :: 0 <= i < |bundle| && bundle[i].id == x
  {
    assert x in multiset(Sort(IDsIn(bundle, region)));
    IDsInMembers(bundle, region);
    var i :| 0 <= i < |bundle| && bundle[i] == Site(x, region);
  }

  /** Two regions of the catalog: their shares differ by at most one, unless the smaller
      share is the whole region. */
  lemma RegionsAreBalanced(bundle: seq<Site>, regions: seq<string>, out: seq<string>, a: string, b: string)
    requires RegionsOf(bundle, regions) && Spread(out, GroupsOf(bundle, regions)) && a in regions && b in regions
    ensures var ga, gb := Sort(IDsIn(bundle, a)), Sort(IDsIn(bundle, b));
            && Share(out, ga) <= ga && Share(out, gb) <= gb
            && (|Share(out, ga)| <= |Share(out, gb)| + 1 || Share(out, gb) == gb)
            && (|Share(out, gb)| <= |Share(out, ga)| + 1 || Share(out, ga) == ga)
  {
    var i :| 0 <= i < |regions| && regions[i] == a;
    var j :| 0 <= j < |regions| && regions[j] == b;
    var groups := GroupsOf(bundle, regions);
    assert groups[i] == Sort(IDsIn(bundle, a)) && groups[j] == Sort(IDsIn(bundle, b));
    hide Sort;
    hide IDsIn;
    hide Share;
  }

  // ---------------------------------------------------------------------
  // Explicit names.

  datatype EntryError = UnknownSlot(name: string) | NoUsableName | NothingConfigured

  /** The trimmed, non-empty names. */
  function Usable(names: seq<string>): seq<string> {
    if names == [] then []
    else
      var rest := Usable(names[..|names| - 1]);
      var name := TrimSpace(names[|names| - 1]);
      if name == "" then rest else rest + [name]
  }

  /** The first occurrences, in order. */
  function FirstOccurrences(names: seq<string>): (r: seq<string>)
    ensures Distinct(r) && forall x :: x in r <==> x in names
  {
    if names == [] then []
    else
      var rest := FirstOccurrences(names[..|names| - 1]);
      assert names == names[..|names| - 1] + [names[|names| - 1]];
      if names[|names| - 1] in rest then rest else rest + [names[|names| - 1]]
  }

  ghost predicate Known(catalog: set<string>, names: seq<string>) { forall x :: x in names ==> x in catalog }

  /** The first usable name the catalog does not know. */
  ghost predicate FirstUnknown(catalog: set<string>, names: seq<string>, name: string) {
    exists i :: 0 <= i < |names| && names[i] == name && name !in catalog && Known(catalog, names[..i])
  }

  /** The named entries: every usable name once, in the order of first mention. The first
      unknown name is an error, and so is a list without a usable one. */
  method NamedEntries(catalog: set<string>, names: seq<string>) returns (r: Result<seq<string>, EntryError>)
    ensures r.Ok? <==> Known(catalog, Usable(names)) && Usable(names) != []
    ensures r.Ok? ==> r.value == FirstOccurrences(Usable(names))
    ensures r.Err? ==> if Usable(names) == [] then r.error == NoUsableName
                       else r.error.UnknownSlot? && FirstUnknown(catalog, Usable(names), r.error.name)
  {
    hide TrimSpace;
    var out: seq<string> := [];
    assert Usable(names[..0]) == [] && FirstOccurrences([]) == [];
    hide Usable;
    hide FirstOccurrences;
    for i := 0 to |names|
      invariant out == FirstOccurrences(Usable(names[..i]))
      invariant Known(catalog, Usable(names[..i]))
    {
      UsableStep(names, i);
      var name := TrimSpace(names[i]);
      if name == "" { continue; }
      ghost var sofar := Usable(names[..i]);
      FirstStep(sofar, name);
      if name !in catalog {
        assert Usable(names[..i + 1]) == sofar + [name];
        FoundUnknown(catalog, sofar, name, Usable(names));
        return Err(UnknownSlot(name));
      }
      if name in out { continue; }
      out := out + [name];
    }
    assert names[..|names|] == names;
    if out == [] {
      assert Usable(names) == [] by { if Usable(names) != [] { SomethingFirst(Usable(names)); } }
      return Err(NoUsableName);
    }
    assert out[0] in Usable(names);
    return Ok(out);
  }

  lemma FirstStep(names: seq<string>, x: string)
    ensures FirstOccurrences(names + [x]) == if x in FirstOccurrences(names) then FirstOccurrences(names)
            else FirstOccurrences(names) + [x]
  {
    assert (names + [x])[..|names|] == names;
  }

  lemma SomethingFirst(names: seq<string>)
    requires names != []
    ensures FirstOccurrences(names) != []
  {
    assert names[0] in names;
  }

  lemma {:induction false} UsableGrows(names: seq<string>, i: nat)
    requires i <= |names|
    ensures Usable(names[..i]) <= Usable(names)
    decreases |names|
  {
    hide TrimSpace;
    if i < |names| {
      var n := |names| - 1;
      assert names[..n][..i] == names[..i];
      UsableGrows(names[..n], i);
      assert Usable(names) == Usable(names[..n]) + (if TrimSpace(names[n]) == "" then [] else [TrimSpace(names[n])]);
      hide Usable;
    } else {
      assert names[..i] == names;
    }
  }

  lemma UsableStep(names: seq<string>, i: nat)
    requires i < |names|
    ensures Usable(names[..i + 1]) <= Usable(names)
    ensures Usable(names[..i + 1]) == if TrimSpace(names[i]) == "" then Usable(names[..i])
            else Usable(names[..i]) + [TrimSpace(names[i])]
  {
    hide Usable;
    hide TrimSpace;
    assert names[..i + 1][..i] == names[..i];
    UsableLast(names[..i + 1]);
    UsableGrows(names, i + 1);
  }

  lemma UsableLast(names: seq<string>)
    requires names != []
    ensures var front, name := names[..|names| - 1], TrimSpace(names[|names| - 1]);
            Usable(names) == if name == "" then Usable(front) else Usable(front) + [name]
  {
    hide TrimSpace;
  }

  lemma FoundUnknown(catalog: set<string>, sofar: seq<string>, name: string, all: seq<string>)
    requires sofar + [name] <= all && Known(catalog, sofar) && name !in catalog
    ensures all != [] && FirstUnknown(catalog, all, name) && !Known(catalog, all)
  {
    var i := |sofar|;
    assert all[i] == (sofar + [name])[i] && all[..i] == sofar;
    assert all[i] in all;
  }

  /** Whether the slots of this catalog are named, counted out or not configured. */
  method ResolveEntries(bundle: seq<Site>, names: seq<string>, count: int)
    returns (r: Result<seq<string>, EntryError>)
    requires UniqueIDs(bundle)
    ensures names != [] ==>
              var catalog := set i | 0 <= i < |bundle| :: bundle[i].id;
              && (r.Ok? <==> Known(catalog, Usable(names)) && Usable(names) != [])
              && (r.Ok? ==> r.value == FirstOccurrences(Usable(names)))
              && (r.Err? ==> if Usable(names) == [] then r.error == NoUsableName
                             else r.error.UnknownSlot? && FirstUnknown(catalog, Usable(names), r.error.name))
    ensures names == [] && count <= 0 ==> r == Err(NothingConfigured)
    ensures names == [] && count > 0 ==>
              && r.Ok? && |r.value| == Min(count, |bundle|) && Distinct(r.value)
              && exists regions :: RegionsOf(bundle, regions) && Spread(r.value, GroupsOf(bundle, regions))
  {
    hide Usable;
    hide FirstOccurrences;
    hide FirstUnknown;
    hide Known;
    hide RegionsOf;
    hide Spread;
    if names != [] {
      r := NamedEntries(set i | 0 <= i < |bundle| :: bundle[i].id, names);
    } else if count <= 0 {
      r := Err(NothingConfigured);
    } else {
      var out, regions := AutoEntries(bundle, count);
      r := Ok(out);
    }
  }
}
