/** The byte-wise order on strings, and sorted listings of strings. */
module Ordering {
  import opened Common

  predicate Below(a: string, b: string) {
    b != "" && (a == "" || a[0] < b[0] || (a[0] == b[0] && Below(a[1..], b[1..])))
  }

  predicate AtMost(a: string, b: string) { a == b || Below(a, b) }

  lemma {:induction false} BelowTransitive(a: string, b: string, c: string)
    requires Below(a, b) && Below(b, c)
    ensures Below(a, c)
  {
    if a != "" && a[0] == b[0] && b[0] == c[0] {
      BelowTransitive(a[1..], b[1..], c[1..]);
    }
  }

  lemma {:induction false} BelowTotal(a: string, b: string)
    ensures Below(a, b) || Below(b, a) || a == b
  {
    if a != "" && b != "" && a[0] == b[0] {
      BelowTotal(a[1..], b[1..]);
      assert a == [a[0]] + a[1..] && b == [b[0]] + b[1..];
    }
  }

  lemma {:induction false} BelowIrreflexive(a: string, b: string)
    requires Below(a, b)
    ensures !Below(b, a) && a != b
  {
    if a != "" && a[0] == b[0] {
      BelowIrreflexive(a[1..], b[1..]);
    }
  }

  /** In ascending order; equal neighbours are allowed. */
  ghost predicate Sorted(s: seq<string>) {
    forall i, j :: 0 <= i < j < |s| ==> AtMost(s[i], s[j])
  }

  /** In strictly ascending order, so without repetition. */
  ghost predicate StrictlySorted(s: seq<string>) {
    forall i, j :: 0 <= i < j < |s| ==> Below(s[i], s[j])
  }

  function Insert(s: seq<string>, x: string): (r: seq<string>)
    ensures multiset(r) == multiset(s) + multiset{x}
    ensures |r| == |s| + 1
  {
    if s == [] || AtMost(x, s[0]) then [x] + s
    else
      assert s == [s[0]] + s[1..];
      [s[0]] + Insert(s[1..], x)
  }

  function Sort(s: seq<string>): (r: seq<string>)
    ensures multiset(r) == multiset(s)
    ensures |r| == |s|
  {
    if s == [] then [] else
      assert s == [s[0]] + s[1..];
      Insert(Sort(s[1..]), s[0])
  }

  lemma {:induction false} InsertMembers(s: seq<string>, x: string)
    ensures forall y :: y in Insert(s, x) <==> y == x || y in s
  {
    forall y ensures y in Insert(s, x) <==> y == x || y in s {
      assert y in Insert(s, x) <==> y in multiset(Insert(s, x));
    }
  }

  lemma {:induction false} InsertSorts(s: seq<string>, x: string)
    requires Sorted(s)
    ensures Sorted(Insert(s, x))
  {
    if s == [] {
    } else if AtMost(x, s[0]) {
      forall j | 0 <= j < |s| ensures AtMost(x, s[j]) {
        if j > 0 && x != s[0] && s[0] != s[j] { BelowTransitive(x, s[0], s[j]); }
      }
    } else {
      BelowTotal(x, s[0]);
      InsertSorts(s[1..], x);
      InsertMembers(s[1..], x);
      var t := Insert(s[1..], x);
      forall j | 0 <= j < |t| ensures AtMost(s[0], t[j]) {
        assert t[j] in t;
      }
    }
  }

  lemma {:induction false} SortSorts(s: seq<string>)
    ensures Sorted(Sort(s))
  {
    if s != [] {
      SortSorts(s[1..]);
      InsertSorts(Sort(s[1..]), s[0]);
    }
  }

  /** Sorting an already sorted sequence changes nothing. */
  lemma {:induction false} SortOfSorted(s: seq<string>)
    requires Sorted(s)
    ensures Sort(s) == s
  {
    if s != [] {
      SortOfSorted(s[1..]);
      assert s == [s[0]] + s[1..];
      if |s| > 1 { assert AtMost(s[0], s[1]); }
    }
  }

  lemma {:induction false} LeastExists(ids: set<string>)
    requires ids != {}
    ensures exists x :: x in ids && forall y :: y in ids ==> AtMost(x, y)
  {
    var x :| x in ids;
    var rest := ids - {x};
    if rest == {} {
      assert ids == {x};
    } else {
      LeastExists(rest);
      var m :| m in rest && forall y :: y in rest ==> AtMost(m, y);
      BelowTotal(x, m);
      if AtMost(m, x) {
        assert forall y :: y in ids ==> AtMost(m, y);
      } else {
        forall y | y in ids ensures AtMost(x, y) {
          if y != x {
            assert y in rest;
            if y != m { BelowTransitive(x, m, y); }
          }
        }
      }
    }
  }

  /** The ascending listing of a set of strings. */
  ghost function Listing(ids: set<string>): (r: seq<string>)
    ensures |r| == |ids|
    ensures forall x :: x in r <==> x in ids
    ensures Sorted(r) && Distinct(r)
  {
    if ids == {} then []
    else
      LeastExists(ids);
      var x :| x in ids && forall y :: y in ids ==> AtMost(x, y);
      [x] + Listing(ids - {x})
  }

  lemma ListingSorted(ids: set<string>)
    ensures StrictlySorted(Listing(ids))
  {}

  /** A strictly ascending sequence is the listing of its elements. */
  lemma {:induction false} SortedIsUnique(a: seq<string>, b: seq<string>)
    requires StrictlySorted(a) && StrictlySorted(b)
    requires forall x :: x in a <==> x in b
    ensures a == b
  {
    if a != [] && b != [] {
      SameHead(a, b);
      forall x ensures x in a[1..] <==> x in b[1..] {
        TailMembers(a, x);
        TailMembers(b, x);
      }
      SortedIsUnique(a[1..], b[1..]);
      assert a == [a[0]] + a[1..] && b == [b[0]] + b[1..];
    } else {
      NoMembers(a, b);
      NoMembers(b, a);
    }
  }

  lemma NoMembers(a: seq<string>, b: seq<string>)
    requires forall x :: x in a ==> x in b
    ensures b == [] ==> a == []
  {
    assert |a| > 0 ==> a[0] in a;
  }

  lemma SameHead(a: seq<string>, b: seq<string>)
    requires StrictlySorted(a) && StrictlySorted(b) && a != [] && b != []
    requires forall x :: x in a <==> x in b
    ensures a[0] == b[0]
  {
    if a[0] != b[0] {
      assert a[0] in b && b[0] in a;
      var i :| 0 <= i < |b| && b[i] == a[0];
      var j :| 0 <= j < |a| && a[j] == b[0];
      BelowIrreflexive(a[0], b[0]);
    }
  }

  lemma TailMembers(a: seq<string>, x: string)
    requires StrictlySorted(a) && a != []
    ensures x in a[1..] <==> x in a && x != a[0]
  {
    assert a == [a[0]] + a[1..];
    if x == a[0] && x in a[1..] {
      var i :| 0 <= i < |a| - 1 && a[1..][i] == x;
      BelowIrreflexive(a[0], a[i + 1]);
    }
  }
}
