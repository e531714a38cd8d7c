/** The text primitives of the two codecs: trimming, splitting, joining and decimal
    numbers. Text is a sequence of bytes below 128. */
module Text {
  import opened Common

  predicate IsSpace(c: char) { c == ' ' || '\t' <= c <= '\r' }

  function LowerChar(c: char): char {
    if 'A' <= c <= 'Z' then c + 32 as char else c
  }

  function Lower(s: string): (r: string)
    ensures |r| == |s|
    ensures forall i :: 0 <= i < |s| ==> r[i] == LowerChar(s[i])
  {
    if s == "" then "" else [LowerChar(s[0])] + Lower(s[1..])
  }

  /** No character of the text is an upper-case letter. */
  ghost predicate IsLower(s: string) { forall i :: 0 <= i < |s| ==> !('A' <= s[i] <= 'Z') }

  lemma LowerOfLower(s: string)
    requires IsLower(s)
    ensures Lower(s) == s
  {}

  // ---------------------------------------------------------------------
  // Trimming.

  function TrimLeft(s: string): (r: string)
    ensures |r| <= |s| && r == s[|s| - |r|..]
    ensures r != "" ==> !IsSpace(r[0])
  {
    if s != "" && IsSpace(s[0]) then TrimLeft(s[1..]) else s
  }

  function TrimRight(s: string): (r: string)
    ensures |r| <= |s| && r == s[..|r|]
    ensures r != "" ==> !IsSpace(r[|r| - 1])
  {
    if s != "" && IsSpace(s[|s| - 1]) then TrimRight(s[..|s| - 1]) else s
  }

  function TrimSpace(s: string): (r: string)
    ensures Trimmed(r)
  {
    TrimRight(TrimLeft(s))
  }

  predicate Trimmed(s: string) { s == "" || (!IsSpace(s[0]) && !IsSpace(s[|s| - 1])) }

  lemma TrimOfTrimmed(s: string)
    requires Trimmed(s)
    ensures TrimSpace(s) == s
  {}

  lemma TrimLeftOf(c: char, s: string)
    requires IsSpace(c)
    ensures TrimLeft([c] + s) == TrimLeft(s)
  {
    assert ([c] + s)[1..] == s;
  }

  lemma TrimRightOf(s: string, c: char)
    requires IsSpace(c)
    ensures TrimRight(s + [c]) == TrimRight(s)
  {
    assert (s + [c])[..|s|] == s;
  }

  lemma TrimLeftKept(s: string)
    requires s == "" || !IsSpace(s[0])
    ensures TrimLeft(s) == s
  {}

  lemma TrimRightKept(s: string)
    requires s == "" || !IsSpace(s[|s| - 1])
    ensures TrimRight(s) == s
  {}

  /** Trimming a blank from either side of trimmed text. */
  lemma TrimBlanks(s: string, c: char)
    requires Trimmed(s) && IsSpace(c)
    ensures TrimSpace([c] + s) == s && TrimSpace(s + [c]) == s
  {
    hide TrimLeft;
    hide TrimRight;
    hide IsSpace;
    TrimLeftKept(s);
    TrimRightKept(s);
    TrimLeftOf(c, s);
    if s == "" {
      assert s + [c] == [c] + s;
    } else {
      assert (s + [c])[0] == s[0];
      TrimLeftKept(s + [c]);
      TrimRightOf(s, c);
    }
  }

  // ---------------------------------------------------------------------
  // Finding, splitting and joining.

  /** The first position of `c`, or |s|. */
  function Index(s: string, c: char): (i: nat)
    ensures i <= |s|
    ensures forall k :: 0 <= k < i ==> s[k] != c
    ensures i < |s| ==> s[i] == c
  {
    if s == "" || s[0] == c then 0
    else Index(s[1..], c) + 1
  }

  lemma IndexOf(a: string, c: char, b: string)
    requires c !in a
    ensures Index(a + [c] + b, c) == |a|
    ensures (a + [c] + b)[..|a|] == a && (a + [c] + b)[|a| + 1..] == b
  {
    var s := a + [c] + b;
    assert s[|a|] == c;
    forall k | 0 <= k < |a| ensures s[k] != c { assert a[k] in a; }
  }

  lemma IndexAbsent(s: string, c: char)
    requires c !in s
    ensures Index(s, c) == |s|
  {
    forall k | 0 <= k < |s| ensures s[k] != c { assert s[k] in s; }
  }

  /** Split around every separator; there is always at least one part. */
  function Split(s: string, sep: char): (parts: seq<string>)
    ensures parts != []
    ensures forall i :: 0 <= i < |parts| ==> NoneIn(parts[i], {sep})
    decreases |s|
  {
    var i := Index(s, sep);
    if i == |s| then [s] else [s[..i]] + Split(s[i + 1..], sep)
  }

  function Join(parts: seq<string>, sep: string): string {
    if parts == [] then ""
    else if |parts| == 1 then parts[0]
    else parts[0] + sep + Join(parts[1..], sep)
  }

  /** No part contains a separator. */
  ghost predicate Unseparated(parts: seq<string>, seps: set<char>) {
    forall i :: 0 <= i < |parts| ==> NoneIn(parts[i], seps)
  }

  ghost predicate NoneIn(s: string, seps: set<char>) {
    forall c :: c in s ==> c !in seps
  }

  lemma {:induction false} SplitOfJoin(parts: seq<string>, sep: char)
    requires parts != [] && Unseparated(parts, {sep})
    ensures Split(Join(parts, [sep]), sep) == parts
  {
    assert NoneIn(parts[0], {sep});
    assert sep !in parts[0];
    if |parts| == 1 {
      IndexAbsent(parts[0], sep);
    } else {
      IndexOf(parts[0], sep, Join(parts[1..], [sep]));
      SplitOfJoin(parts[1..], sep);
      assert parts == [parts[0]] + parts[1..];
    }
  }

  /** The first position of any separator, or |s|. */
  function IndexAny(s: string, seps: set<char>): (i: nat)
    ensures i <= |s|
    ensures forall k :: 0 <= k < i ==> s[k] !in seps
    ensures i < |s| ==> s[i] in seps
  {
    if s == "" || s[0] in seps then 0
    else IndexAny(s[1..], seps) + 1
  }

  lemma IndexAnyOf(a: string, c: char, b: string, seps: set<char>)
    requires NoneIn(a, seps) && c in seps
    ensures IndexAny(a + [c] + b, seps) == |a|
    ensures (a + [c] + b)[..|a|] == a && (a + [c] + b)[|a|..] == [c] + b
  {
    hide IndexAny;
    hide NoneIn;
    var s := a + [c] + b;
    assert s[|a|] == c;
    forall k | 0 <= k < |a| ensures s[k] !in seps { NoneAt(a, seps, k); }
  }

  lemma NoneAt(s: string, seps: set<char>, k: nat)
    requires NoneIn(s, seps) && k < |s|
    ensures s[k] !in seps
  {}

  lemma IndexAnyAbsent(s: string, seps: set<char>)
    requires NoneIn(s, seps)
    ensures IndexAny(s, seps) == |s|
  {
    forall k | 0 <= k < |s| ensures s[k] !in seps { assert s[k] in s; }
  }

  /** The maximal runs without separators; empty runs are dropped. */
  function Fields(s: string, seps: set<char>): (parts: seq<string>)
    ensures forall i :: 0 <= i < |parts| ==> parts[i] != "" && NoneIn(parts[i], seps)
    decreases |s|
  {
    if s == "" then []
    else if s[0] in seps then Fields(s[1..], seps)
    else
      var i := IndexAny(s, seps);
      [s[..i]] + Fields(s[i..], seps)
  }

  /** A joined list splits into its parts, whatever separators stand between them. */
  lemma {:induction false} FieldsOfJoin(parts: seq<string>, sep: string, seps: set<char>)
    requires Unseparated(parts, seps) && forall i :: 0 <= i < |parts| ==> parts[i] != ""
    requires sep != "" && forall c :: c in sep ==> c in seps
    ensures Fields(Join(parts, sep), seps) == parts
  {
    if parts != [] {
      assert NoneIn(parts[0], seps) && parts[0] != "";
      assert parts[0][0] in parts[0];
      if |parts| == 1 {
        FieldsOfOne(parts[0], seps);
      } else {
        var rest := Join(parts[1..], sep);
        FieldsOfJoin(parts[1..], sep, seps);
        assert sep == [sep[0]] + sep[1..] && sep[0] in sep;
        assert parts[0] + sep + rest == parts[0] + [sep[0]] + (sep[1..] + rest);
        IndexAnyOf(parts[0], sep[0], sep[1..] + rest, seps);
        assert [sep[0]] + (sep[1..] + rest) == sep + rest;
        FieldsSkip(sep, rest, seps);
        assert parts == [parts[0]] + parts[1..];
      }
    }
  }

  lemma FieldsOfOne(s: string, seps: set<char>)
    requires s != "" && NoneIn(s, seps)
    ensures Fields(s, seps) == [s]
  {
    IndexAnyAbsent(s, seps);
    assert s[0] in s;
    assert s[..|s|] == s && s[|s|..] == "";
  }

  lemma {:induction false} FieldsSkip(lead: string, s: string, seps: set<char>)
    requires forall c :: c in lead ==> c in seps
    ensures Fields(lead + s, seps) == Fields(s, seps)
  {
    if lead == "" {
      assert lead + s == s;
    } else {
      assert lead[0] in lead;
      assert (lead + s)[1..] == lead[1..] + s;
      FieldsSkip(lead[1..], s, seps);
    }
  }

  // ---------------------------------------------------------------------
  // Lines.

  /** The lines of a text, carriage returns included; a final line break ends the last
      line. */
  function Lines(s: string): seq<string>
    decreases |s|
  {
    if s == "" then []
    else
      var i := Index(s, '\n');
      if i == |s| then [s] else [s[..i]] + Lines(s[i + 1..])
  }

  /** Every line followed by a line break. */
  function Unlines(lines: seq<string>): string {
    if lines == [] then "" else lines[0] + "\n" + Unlines(lines[1..])
  }

  lemma {:induction false} LinesOfUnlines(lines: seq<string>)
    requires forall i :: 0 <= i < |lines| ==> '\n' !in lines[i]
    ensures Lines(Unlines(lines)) == lines
  {
    if lines != [] {
      var rest := Unlines(lines[1..]);
      IndexOf(lines[0], '\n', rest);
      assert Unlines(lines) == lines[0] + ['\n'] + rest;
      LinesOfUnlines(lines[1..]);
      assert lines == [lines[0]] + lines[1..];
    }
  }

  // ---------------------------------------------------------------------
  // Decimal numbers.

  const MIN_INT64: int := -0x8000_0000_0000_0000
  const MAX_INT64: int := 0x7FFF_FFFF_FFFF_FFFF

  predicate IsDigit(c: char) { '0' <= c <= '9' }

  /** The value of a digit string, or nothing. */
  function Digits(s: string): Option<nat> {
    if s == "" then Some(0)
    else
      var last := s[|s| - 1];
      match Digits(s[..|s| - 1])
      case None => None
      case Some(n) => if IsDigit(last) then Some(10 * n + (last as int - '0' as int)) else None
  }

  /** A decimal integer of 64 bits, with an optional sign. */
  function Atoi(s: string): Option<int> {
    var signed := s != "" && (s[0] == '-' || s[0] == '+');
    var digits := if signed then s[1..] else s;
    if digits == "" then None
    else
      match Digits(digits)
      case None => None
      case Some(n) =>
        var v: int := if signed && s[0] == '-' then 0 - n else n;
        if MIN_INT64 <= v <= MAX_INT64 then Some(v) else None
  }

  function NatDigits(n: nat): (s: string)
    ensures s != "" && forall i :: 0 <= i < |s| ==> IsDigit(s[i])
  {
    if n < 10 then [('0' as int + n) as char] else NatDigits(n / 10) + [('0' as int + n % 10) as char]
  }

  function Itoa(v: int): string {
    if v < 0 then "-" + NatDigits(-v) else NatDigits(v)
  }

  lemma {:induction false} DigitsOfNat(n: nat)
    ensures Digits(NatDigits(n)) == Some(n)
  {
    var s := NatDigits(n);
    if n < 10 {
      assert s[..|s| - 1] == "";
    } else {
      DigitsOfNat(n / 10);
      assert s[..|s| - 1] == NatDigits(n / 10);
    }
  }

  /** Printing and reading a number of 64 bits gives the number back. */
  lemma AtoiOfItoa(v: int)
    requires MIN_INT64 <= v <= MAX_INT64
    ensures Atoi(Itoa(v)) == Some(v)
  {
    var s := Itoa(v);
    if v < 0 {
      DigitsOfNat(-v);
      assert s[1..] == NatDigits(-v);
      hide NatDigits;
      hide Digits;
    } else {
      DigitsOfNat(v);
      assert IsDigit(s[0]);
      hide NatDigits;
      hide Digits;
    }
  }

  /** Two's-complement wrap-around to 64 bits. */
  function Wrap64(v: int): (w: int)
    ensures MIN_INT64 <= w <= MAX_INT64
    ensures MIN_INT64 <= v <= MAX_INT64 ==> w == v
  {
    (v - MIN_INT64) % 0x1_0000_0000_0000_0000 + MIN_INT64
  }

  // ---------------------------------------------------------------------
  // Cutting at the first `=`.

  /** Text before and after the first `=`, if there is one. */
  function Cut(s: string): Option<(string, string)> {
    var i := Index(s, '=');
    if i == |s| then None else Some((s[..i], s[i + 1..]))
  }

  lemma CutOf(key: string, value: string)
    requires '=' !in key
    ensures Cut(key + "=" + value) == Some((key, value))
  {
    IndexOf(key, '=', value);
    assert key + "=" + value == key + ['='] + value;
  }
}
