/** Accepted usernames whose policy does not come back from its rendering. */
module PolicyLimits {
  import opened Common
  import opened Text
  import opened PolicyTypes
  import opened PolicyCodec

  function Repeated<T>(x: T, n: nat): seq<T> { if n == 0 then [] else [x] + Repeated(x, n - 1) }

  lemma {:induction false} RepeatedIs<T>(x: T, n: nat)
    ensures |Repeated(x, n)| == n && forall i :: 0 <= i < n ==> Repeated(x, n)[i] == x
  {
    if n > 0 { RepeatedIs(x, n - 1); }
  }

  lemma {:induction false} JoinedLength(x: string, n: nat, sep: string)
    requires n > 0
    ensures |Join(Repeated(x, n), sep)| == n * |x| + (n - 1) * |sep|
  {
    if n > 1 {
      JoinedLength(x, n - 1, sep);
      assert Repeated(x, n)[1..] == Repeated(x, n - 1);
      assert |Join(Repeated(x, n), sep)| == |x| + |sep| + |Join(Repeated(x, n - 1), sep)|;
      assert n * |x| == (n - 1) * |x| + |x| && (n - 1) * |sep| == (n - 2) * |sep| + |sep|;
    } else {
      assert Repeated(x, 0) == [];
    }
  }

  /** The library reads and prints the unspecified IPv6 address as two colons. */
  ghost predicate KnowsUnspecified(lib: Library, a: Addr) {
    lib.parseAddr("::") == Some(a) && lib.formatAddr(a) == "::"
  }

  lemma ColonsAreClean()
    ensures CleanItem("::")
  {
    hide Trimmed;
    var s := "::";
    forall i | 0 <= i < |s| ensures s[i] == ':' {}
    assert Trimmed(s) by { AllColonsTrimmed(s); }
  }

  lemma AllColonsTrimmed(s: string)
    requires s != "" && forall i :: 0 <= i < |s| ==> s[i] == ':'
    ensures Trimmed(s)
  {}

  lemma {:induction false} AllParse(lib: Library, x: string, a: Addr, n: nat)
    requires lib.parseAddr(x) == Some(a) && TrimSpace(x) == x
    ensures ParseAddrs(lib, Repeated(x, n)) == Ok(Repeated(a, n))
  {
    hide TrimSpace;
    if n > 0 {
      AllParse(lib, x, a, n - 1);
      assert Repeated(x, n)[1..] == Repeated(x, n - 1);
    }
  }

  lemma {:induction false} AllRefused(lib: Library, a: Addr, n: nat)
    requires KnowsUnspecified(lib, a)
    ensures Refused(lib, Repeated(a, n)) == Repeated("not=::", n)
  {
    if n > 0 {
      AllRefused(lib, a, n - 1);
      assert Repeated(a, n)[1..] == Repeated(a, n - 1);
      assert Pair(NotKey, "::") == "not=::";
    }
  }

  /** A hundred addresses behind one directive. */
  function Crowded(): string { "not=" + Join(Repeated("::", 100), "|") }

  /** One directive that refuses an address `n` times. */
  lemma ManyFold(lib: Library, x: string, a: Addr, n: nat)
    requires lib.parseAddr(x) == Some(a) && CleanToken(x) && n > 0
    ensures FoldsTo(lib, EMPTY_POLICY, [Pair(NotKey, Join(Repeated(x, n), "|"))],
                    EMPTY_POLICY.(excludeIPs := Repeated(a, n)))
  {
    hide FoldsTo;
    hide Repeated;
    var items, value := Repeated(x, n), Join(Repeated(x, n), "|");
    RepeatedIs(x, n);
    TrimOfTrimmed(x);
    AllParse(lib, x, a, n);
    forall i | 0 <= i < |items| ensures NoneIn(items[i], {'|'}) && CleanToken(items[i]) {}
    hide CleanToken;
    SplitOfJoin(items, '|');
    JoinIsClean(items);
    hide CleanValue;
    hide Split;
    hide Join;
    hide ParseAddrs;
    hide Pair;
    assert [] + Repeated(a, n) == Repeated(a, n);
    FoldsOne(lib, EMPTY_POLICY, NotKey, value, EMPTY_POLICY.(excludeIPs := Repeated(a, n)));
  }

  /** Joined clean parts parse to what they fold to. */
  lemma PartsParse(lib: Library, parts: seq<string>, q: Policy)
    requires parts != [] && FoldsTo(lib, EMPTY_POLICY, parts, q) && |Join(parts, ";")| <= MAX_USERNAME
    ensures ParsePolicy(lib, Join(parts, ";")) == Validate(q)
  {
    hide CleanPart;
    hide Fold;
    hide Validate;
    PartsSplit(parts);
    PartsJoin(parts);
    TrimOfTrimmed(Join(parts, ";"));
    hide Fields;
    hide TrimSpace;
    hide Join;
    hide Trimmed;
  }

  lemma JoinedAlone(part: string)
    ensures Join([part], ";") == part
  {}

  lemma OnlyAddrsAreValid(addrs: seq<Addr>)
    ensures Validate(EMPTY_POLICY.(excludeIPs := addrs)) == Ok(EMPTY_POLICY.(excludeIPs := addrs))
  {}

  lemma CrowdedParses(lib: Library, a: Addr)
    requires KnowsUnspecified(lib, a)
    ensures |Crowded()| == 303 && ParsePolicy(lib, Crowded()) == Ok(EMPTY_POLICY.(excludeIPs := Repeated(a, 100)))
  {
    hide Repeated;
    hide Join;
    hide FoldsTo;
    hide CleanToken;
    hide Validate;
    hide ParsePolicy;
    JoinedLength("::", 100, "|");
    ColonsAreClean();
    ManyFold(lib, "::", a, 100);
    assert Crowded() == Pair(NotKey, Join(Repeated("::", 100), "|"));
    JoinedAlone(Crowded());
    PartsParse(lib, [Crowded()], EMPTY_POLICY.(excludeIPs := Repeated(a, 100)));
    OnlyAddrsAreValid(Repeated(a, 100));
  }

  lemma CrowdedRendering(lib: Library, a: Addr)
    requires KnowsUnspecified(lib, a)
    ensures |Rendered(lib, EMPTY_POLICY.(excludeIPs := Repeated(a, 100)))| == 699
  {
    var p := EMPTY_POLICY.(excludeIPs := Repeated(a, 100));
    AllRefused(lib, a, 100);
    RepeatedIs("not=::", 100);
    JoinedLength("not=::", 100, ";");
    hide Repeated;
    hide Join;
    assert Parts(lib, p) == Repeated("not=::", 100);
    hide Parts;
  }

  /** A username of 303 characters is accepted; its policy is rendered with 699, which is
      refused. */
  lemma RenderingTooLong(lib: Library, a: Addr)
    requires Faithful(lib) && KnowsUnspecified(lib, a)
    ensures |Crowded()| == 303 && ParsePolicy(lib, Crowded()).Ok?
    ensures var p := ParsePolicy(lib, Crowded()).value;
            |Rendered(lib, p)| == 699 && ParsePolicy(lib, Rendered(lib, p)) == Err(TooLong)
  {
    CrowdedParses(lib, a);
    CrowdedRendering(lib, a);
    ParsedIsAccepted(lib, Crowded());
    RoundTrip(lib, EMPTY_POLICY.(excludeIPs := Repeated(a, 100)));
    hide *;
  }

  // ---------------------------------------------------------------------
  // Recycling is lost.

  lemma RecyclingFolds(lib: Library)
    ensures FoldsTo(lib, EMPTY_POLICY, ["uniq=b", "brecycle=1"],
                    EMPTY_POLICY.(uniqueBatch := "b", recycleBatch := true))
  {
    hide FoldsTo;
    hide ParseBool;
    assert CleanValue("b") && CleanValue("1");
    OneIsTrue();
    hide CleanValue;
    var p, q := EMPTY_POLICY.(uniqueBatch := "b"), EMPTY_POLICY.(uniqueBatch := "b", recycleBatch := true);
    FoldsOne(lib, EMPTY_POLICY, UniqueKey, "b", p);
    FoldsOne(lib, p, RecycleKey, "1", q);
    assert Pair(UniqueKey, "b") == "uniq=b" && Pair(RecycleKey, "1") == "brecycle=1";
    FoldsInTwo(lib, EMPTY_POLICY, ["uniq=b"], p, ["brecycle=1"], q);
    assert ["uniq=b"] + ["brecycle=1"] == ["uniq=b", "brecycle=1"];
  }

  /** A username that asks for recycling is accepted, but its policy is rendered without
      it. */
  lemma RecyclingLost(lib: Library)
    requires Faithful(lib)
    ensures ParsePolicy(lib, "uniq=b;brecycle=1") == Ok(EMPTY_POLICY.(uniqueBatch := "b", recycleBatch := true))
    ensures var p := EMPTY_POLICY.(uniqueBatch := "b", recycleBatch := true);
            Rendered(lib, p) == "uniq=b" && ParsePolicy(lib, Rendered(lib, p)) == Ok(p.(recycleBatch := false))
  {
    hide FoldsTo;
    hide Faithful;
    hide ParsePolicy;
    RecyclingFolds(lib);
    var p, parts := EMPTY_POLICY.(uniqueBatch := "b", recycleBatch := true), ["uniq=b", "brecycle=1"];
    assert parts[1..] == ["brecycle=1"];
    JoinedAlone("brecycle=1");
    assert Join(parts, ";") == "uniq=b" + ";" + "brecycle=1" == "uniq=b;brecycle=1";
    PartsParse(lib, parts, p);
    assert Validate(p) == Ok(p);
    ParsedIsAccepted(lib, "uniq=b;brecycle=1");
    RoundTrip(lib, p);
    assert Location(p) == [] && Refused(lib, []) == [];
    assert Pair(UniqueKey, "b") == "uniq=b";
    assert Sharing(lib, p) == ["uniq=b"];
    assert Parts(lib, p) == ["uniq=b"];
    JoinedAlone("uniq=b");
  }

  // ---------------------------------------------------------------------
  // A library that keeps the promises made of one.

  function ReadSpan(s: string): Option<int> { if s != "" && s[0] == 'd' then Atoi(s[1..]) else None }

  /** It knows one address, and prints a duration as its number of nanoseconds. */
  function Plain(): Library {
    Library(s => if s == "::" then Some(Addr(0)) else None, _ => "::", ReadSpan, d => "d" + Itoa(d))
  }

  lemma SpanReadsBack(d: int)
    requires 0 < d <= MAX_INT64
    ensures DurationReadsBack(Plain(), d)
  {
    AtoiOfItoa(d);
    var s := "d" + Itoa(d);
    assert s[1..] == Itoa(d);
    var n := NatDigits(d);
    hide NatDigits;
    forall c | c in s ensures c == 'd' || IsDigit(c) {
      if c != 'd' { assert c in n; }
    }
    assert Digits(s).None? by { DigitsNeedDigits(s, 0); }
    hide Digits;
  }

  lemma {:induction false} DigitsNeedDigits(s: string, i: nat)
    requires i < |s| && !IsDigit(s[i])
    ensures Digits(s).None?
  {
    if i < |s| - 1 { DigitsNeedDigits(s[..|s| - 1], i); }
  }

  lemma PlainIsFaithful()
    ensures Faithful(Plain()) && KnowsUnspecified(Plain(), Addr(0))
  {
    ColonsAreClean();
    forall d | 0 < d <= MAX_INT64 ensures DurationReadsBack(Plain(), d) { SpanReadsBack(d); }
    hide DurationReadsBack;
    hide CleanToken;
  }
}
