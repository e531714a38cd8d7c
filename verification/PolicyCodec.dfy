/** The selection policy a client writes into its username: parsing, validation and
    rendering, and the round trip between the two. */
module PolicyCodec {
  import opened Common
  import opened Text
  import opened Ordering
  import opened PolicyTypes

  // ---------------------------------------------------------------------
  // Addresses and durations, as the standard library reads and prints them.

  datatype Library = Library(
    parseAddr: string -> Option<Addr>,
    formatAddr: Addr -> string,
    parseDuration: string -> Option<int>,
    formatDuration: int -> string)

  const SEPARATORS: set<char> := {';', ','}

  /** Text that can stand for one value between separators. */
  ghost predicate CleanToken(s: string) {
    s != "" && Trimmed(s) && NoneIn(s, {';', ',', '|'})
  }

  /** What printing and reading promise: printed addresses and durations are clean
      tokens and read back as themselves, and a printed duration is no plain number. */
  ghost predicate Faithful(lib: Library) {
    && (forall s :: CleanToken(s) && lib.parseAddr(s).Some? ==> AddrReadsBack(lib, lib.parseAddr(s).value))
    && (forall s :: lib.parseDuration(s).Some? ==> MIN_INT64 <= lib.parseDuration(s).value <= MAX_INT64)
    && (forall d :: 0 < d <= MAX_INT64 ==> DurationReadsBack(lib, d))
    && lib.parseAddr("").None?
  }

  ghost predicate AddrReadsBack(lib: Library, a: Addr) {
    CleanToken(lib.formatAddr(a)) && lib.parseAddr(lib.formatAddr(a)) == Some(a)
  }

  ghost predicate DurationReadsBack(lib: Library, d: int) {
    && CleanToken(lib.formatDuration(d)) && Atoi(lib.formatDuration(d)).None?
    && lib.parseDuration(lib.formatDuration(d)) == Some(d)
  }

  // ---------------------------------------------------------------------
  // Parsing.

  datatype PolicyError =
    | TooLong | NotKeyValue | EmptyValue | UnknownDirective | NotBoolean | BadDuration | NegativeDuration
    | BatchTTLNotPositive | BadAddress | UnsafeToken | BadCountry | BadCity | BatchTTLWithoutBatch | AnyConflicts

  const MAX_USERNAME: nat := 512
  const MAX_TOKEN: nat := 128
  const SECOND: int := 1_000_000_000

  function ParseBool(value: string): Result<bool, PolicyError> {
    if Lower(value) in ["1", "true", "yes", "y"] then Ok(true)
    else if Lower(value) in ["0", "false", "no", "n"] then Ok(false)
    else Err(NotBoolean)
  }

  /** Bare seconds or a duration; the multiplication wraps at 64 bits. */
  function ParseTTL(lib: Library, value: string): Result<int, PolicyError> {
    match Atoi(value)
    case Some(secs) => if secs < 0 then Err(NegativeDuration) else Ok(Wrap64(secs * SECOND))
    case None =>
      match lib.parseDuration(value)
      case None => Err(BadDuration)
      case Some(d) => if d < 0 then Err(NegativeDuration) else Ok(d)
  }

  /** The non-empty items of a `|` list, trimmed and in lower case. */
  function LoweredItems(items: seq<string>): seq<string> {
    if items == [] then []
    else
      var item := Lower(TrimSpace(items[0]));
      (if item == "" then [] else [item]) + LoweredItems(items[1..])
  }

  function ParseAddrs(lib: Library, items: seq<string>): Result<seq<Addr>, PolicyError> {
    if items == [] then Ok([])
    else
      match lib.parseAddr(TrimSpace(items[0]))
      case None => Err(BadAddress)
      case Some(a) =>
        match ParseAddrs(lib, items[1..])
        case Err(e) => Err(e)
        case Ok(rest) => Ok([a] + rest)
  }

  datatype Key =
    | AnyKey | CountryKey | CityKey | SlotKey | ProviderKey | SessionKey | TTLKey | UniqueKey | RecycleKey
    | BatchTTLKey | HealthKey | NotKey | UnknownKey

  function KeyOf(key: string): Key {
    if key == "any" then AnyKey
    else if key == "cc" || key == "country" then CountryKey
    else if key == "city" then CityKey
    else if key == "slot" then SlotKey
    else if key == "provider" then ProviderKey
    else if key == "sess" || key == "session" then SessionKey
    else if key == "ttl" then TTLKey
    else if key == "uniq" || key == "unique" then UniqueKey
    else if key == "brecycle" then RecycleKey
    else if key == "bttl" then BatchTTLKey
    else if key == "health" then HealthKey
    else if key == "not" || key == "exclude" then NotKey
    else UnknownKey
  }

  /** One directive of the policy. */
  function Apply(lib: Library, p: Policy, key: Key, value: string): Result<Policy, PolicyError> {
    match key
    case AnyKey =>
      (match ParseBool(value)
       case Ok(b) => Ok(p.(anyExit := b))
       case Err(e) => Err(e))
    case CountryKey => Ok(p.(countries := p.countries + LoweredItems(Split(value, '|'))))
    case CityKey => Ok(p.(cities := p.cities + LoweredItems(Split(value, '|'))))
    case SlotKey => Ok(p.(slot := value))
    case ProviderKey => Ok(p.(provider := value))
    case SessionKey => Ok(p.(session := value))
    case TTLKey =>
      (match ParseTTL(lib, value)
       case Ok(d) => Ok(p.(ttl := d))
       case Err(e) => Err(e))
    case UniqueKey => Ok(p.(uniqueBatch := value))
    case RecycleKey =>
      (match ParseBool(value)
       case Ok(b) => Ok(p.(recycleBatch := b))
       case Err(e) => Err(e))
    case BatchTTLKey =>
      (match ParseTTL(lib, value)
       case Ok(d) => if d == 0 then Err(BatchTTLNotPositive) else Ok(p.(batchTTL := d))
       case Err(e) => Err(e))
    case HealthKey => Ok(p.(healthScope := value))
    case NotKey =>
      (match ParseAddrs(lib, Split(value, '|'))
       case Ok(addrs) => Ok(p.(excludeIPs := p.excludeIPs + addrs))
       case Err(e) => Err(e))
    case UnknownKey => Err(UnknownDirective)
  }

  function Field(lib: Library, p: Policy, text: string): Result<Policy, PolicyError> {
    var field := TrimSpace(text);
    if field == "" then Ok(p)
    else
      match Cut(field)
      case None => Err(NotKeyValue)
      case Some((key, value)) =>
        if TrimSpace(value) == "" then Err(EmptyValue)
        else Apply(lib, p, KeyOf(Lower(TrimSpace(key))), TrimSpace(value))
  }

  function Fold(lib: Library, p: Policy, fields: seq<string>): Result<Policy, PolicyError>
    decreases fields
  {
    if fields == [] then Ok(p)
    else
      match Field(lib, p, fields[0])
      case Err(e) => Err(e)
      case Ok(q) => Fold(lib, q, fields[1..])
  }

  predicate SafeChar(c: char) {
    'a' <= c <= 'z' || 'A' <= c <= 'Z' || '0' <= c <= '9' || c == '-' || c == '_' || c == '.'
  }

  predicate SafeToken(s: string) {
    |s| <= MAX_TOKEN && forall i | 0 <= i < |s| :: SafeChar(s[i])
  }

  predicate CountryCode(s: string) { |s| == 2 && 'a' <= s[0] <= 'z' && 'a' <= s[1] <= 'z' }

  function Validate(p: Policy): Result<Policy, PolicyError> {
    if !SafeToken(p.session) || !SafeToken(p.slot) || !SafeToken(p.provider) || !SafeToken(p.uniqueBatch)
       || !SafeToken(p.healthScope) then Err(UnsafeToken)
    else if exists i | 0 <= i < |p.countries| :: !CountryCode(p.countries[i]) then Err(BadCountry)
    else if exists i | 0 <= i < |p.cities| :: !(SafeToken(p.cities[i]) && '-' in p.cities[i]) then Err(BadCity)
    else if p.ttl < 0 || p.batchTTL < 0 then Err(NegativeDuration)
    else if p.batchTTL > 0 && p.uniqueBatch == "" then Err(BatchTTLWithoutBatch)
    else if p.anyExit && (p.countries != [] || p.cities != [] || p.slot != "") then Err(AnyConflicts)
    else Ok(p.(countries := Sort(p.countries), cities := Sort(p.cities)))
  }

  function ParsePolicy(lib: Library, username: string): Result<Policy, PolicyError> {
    var text := TrimSpace(username);
    if text == "" then Ok(EMPTY_POLICY)
    else if |text| > MAX_USERNAME then Err(TooLong)
    else if '=' !in text then Ok(EMPTY_POLICY)
    else
      match Fold(lib, EMPTY_POLICY, Fields(text, SEPARATORS))
      case Err(e) => Err(e)
      case Ok(p) => Validate(p)
  }

  // ---------------------------------------------------------------------
  // Rendering.

  /** The name a directive is rendered under. */
  function NameOf(key: Key): string {
    match key
    case AnyKey => "any"
    case CountryKey => "cc"
    case CityKey => "city"
    case SlotKey => "slot"
    case ProviderKey => "provider"
    case SessionKey => "sess"
    case TTLKey => "ttl"
    case UniqueKey => "uniq"
    case RecycleKey => "brecycle"
    case BatchTTLKey => "bttl"
    case HealthKey => "health"
    case NotKey => "not"
    case UnknownKey => "unknown"
  }

  function Pair(key: Key, value: string): string { NameOf(key) + "=" + value }

  function Flag(key: Key, b: bool): seq<string> { if b then [Pair(key, "1")] else [] }

  function Listed(key: Key, items: seq<string>): seq<string> { if items == [] then []
                  else [Pair(key, Join(items, "|"))] }

  function Named(key: Key, value: string): seq<string> { if value == "" then [] else [Pair(key, value)] }

  function Timed(lib: Library, key: Key, d: int): seq<string> { if d > 0 then [Pair(key, lib.formatDuration(d))]
                 else [] }

  function Refused(lib: Library, addrs: seq<Addr>): seq<string> {
    if addrs == [] then [] else [Pair(NotKey, lib.formatAddr(addrs[0]))] + Refused(lib, addrs[1..])
  }

  function Location(p: Policy): seq<string> {
    Flag(AnyKey, p.anyExit) + Listed(CountryKey, p.countries) + Listed(CityKey, p.cities)
    + Named(SlotKey, p.slot) + Named(ProviderKey, p.provider)
  }

  function Sharing(lib: Library, p: Policy): seq<string> {
    Named(SessionKey, p.session) + Timed(lib, TTLKey, p.ttl) + Named(UniqueKey, p.uniqueBatch)
    + Timed(lib, BatchTTLKey, p.batchTTL) + Named(HealthKey, p.healthScope)
  }

  function Parts(lib: Library, p: Policy): seq<string> {
    Location(p) + Sharing(lib, p) + Refused(lib, p.excludeIPs)
  }

  function Rendered(lib: Library, p: Policy): string {
    if Parts(lib, p) == [] then "(none)" else Join(Parts(lib, p), ";")
  }

  // ---------------------------------------------------------------------
  // What parsing accepts.

  ghost predicate TokenOrNothing(s: string) { s == "" || (SafeToken(s) && CleanToken(s)) }

  ghost predicate City(s: string) { SafeToken(s) && '-' in s && IsLower(s) && CleanToken(s) }

  /** The policies parsing produces. */
  ghost predicate Accepted(lib: Library, p: Policy) {
    && TokenOrNothing(p.session) && TokenOrNothing(p.slot) && TokenOrNothing(p.provider)
    && TokenOrNothing(p.uniqueBatch) && TokenOrNothing(p.healthScope)
    && (forall c :: c in p.countries ==> CountryCode(c)) && Sorted(p.countries)
    && (forall c :: c in p.cities ==> City(c)) && Sorted(p.cities)
    && 0 <= p.ttl <= MAX_INT64 && 0 <= p.batchTTL <= MAX_INT64
    && (p.batchTTL > 0 ==> p.uniqueBatch != "")
    && (p.anyExit ==> p.countries == [] && p.cities == [] && p.slot == "")
    && (forall a :: a in p.excludeIPs ==> AddrReadsBack(lib, a))
  }

  lemma SafeIsClean(s: string)
    requires s != "" && SafeToken(s)
    ensures CleanToken(s)
  {
    forall c | c in s ensures c !in {';', ',', '|'} {
      var i :| 0 <= i < |s| && s[i] == c;
      assert SafeChar(s[i]);
    }
    assert SafeChar(s[0]) && SafeChar(s[|s| - 1]);
  }

  /** What the directives keep while they are applied. */
  ghost predicate Collected(lib: Library, p: Policy) {
    && (forall c :: c in p.cities ==> c != "" && IsLower(c))
    && p.ttl <= MAX_INT64 && p.batchTTL <= MAX_INT64
    && (forall a :: a in p.excludeIPs ==> AddrReadsBack(lib, a))
  }

  lemma {:induction false} LoweredItemsAreLower(items: seq<string>)
    ensures forall c :: c in LoweredItems(items) ==> c != "" && IsLower(c)
  {
    if items != [] {
      LoweredItemsAreLower(items[1..]);
      var item := Lower(TrimSpace(items[0]));
      assert IsLower(item);
    }
  }

  lemma {:induction false} ParsedAddrsReadBack(lib: Library, items: seq<string>)
    requires Faithful(lib) && Unseparated(items, {';', ',', '|'}) && ParseAddrs(lib, items).Ok?
    ensures forall a :: a in ParseAddrs(lib, items).value ==> AddrReadsBack(lib, a)
  {
    if items != [] {
      assert NoneIn(items[0], {';', ',', '|'});
      TrimKeepsNone(items[0], {';', ',', '|'});
      var t := TrimSpace(items[0]);
      assert t != "" ==> CleanToken(t);
      assert AddrReadsBack(lib, lib.parseAddr(t).value);
      forall i | 0 <= i < |items| - 1 ensures NoneIn(items[1..][i], {';', ',', '|'}) { assert items[1..][i]
          == items[i + 1]; }
      ParsedAddrsReadBack(lib, items[1..]);
    }
  }

  lemma TrimKeepsNone(s: string, seps: set<char>)
    requires NoneIn(s, seps)
    ensures NoneIn(TrimSpace(s), seps)
  {
    var l := TrimLeft(s);
    forall c | c in TrimSpace(s) ensures c in s {
      assert c in l;
    }
  }

  lemma {:induction false} SplitKeepsNone(s: string, sep: char, seps: set<char>)
    requires NoneIn(s, seps)
    ensures Unseparated(Split(s, sep), seps + {sep})
    decreases |s|
  {
    var i := Index(s, sep);
    var parts := Split(s, sep);
    assert NoneIn(s[..i], seps + {sep}) by {
      forall c | c in s[..i] ensures c !in seps + {sep} { var k :| 0 <= k < i && s[k] == c; }
    }
    if i < |s| {
      SplitKeepsNone(s[i + 1..], sep, seps);
      forall k | 0 <= k < |parts| ensures NoneIn(parts[k], seps + {sep}) {
        if k > 0 { assert parts[k] == Split(s[i + 1..], sep)[k - 1]; }
      }
    } else {
      assert s[..i] == s;
    }
  }

  lemma TTLInRange(lib: Library, value: string)
    requires Faithful(lib) && ParseTTL(lib, value).Ok?
    ensures MIN_INT64 <= ParseTTL(lib, value).value <= MAX_INT64
  {
    hide AddrReadsBack;
    hide DurationReadsBack;
    hide Atoi;
    hide Wrap64;
  }

  lemma ApplyCollects(lib: Library, p: Policy, key: Key, value: string)
    requires Faithful(lib) && Collected(lib, p) && NoneIn(value, SEPARATORS) && Apply(lib, p, key, value).Ok?
    ensures Collected(lib, Apply(lib, p, key, value).value)
  {
    hide Faithful;
    hide AddrReadsBack;
    hide NoneIn;
    hide IsLower;
    hide Split;
    hide ParseTTL;
    hide ParseBool;
    hide ParseAddrs;
    hide LoweredItems;
    match key
    case CityKey => LoweredItemsAreLower(Split(value, '|'));
    case NotKey =>
      ItemsAreUnseparated(value);
      ParsedAddrsReadBack(lib, Split(value, '|'));
    case TTLKey => TTLInRange(lib, value);
    case BatchTTLKey => TTLInRange(lib, value);
    case _ => OtherKeysCollect(lib, p, key, value);
  }

  lemma OtherKeysCollect(lib: Library, p: Policy, key: Key, value: string)
    requires key != CityKey && key != NotKey && key != TTLKey && key != BatchTTLKey && Apply(lib, p, key, value).Ok?
    ensures var q := Apply(lib, p, key, value).value;
            q.cities == p.cities && q.ttl == p.ttl && q.batchTTL == p.batchTTL && q.excludeIPs == p.excludeIPs
  {
    hide Split;
    hide ParseTTL;
    hide ParseBool;
    hide ParseAddrs;
    hide LoweredItems;
  }

  lemma ItemsAreUnseparated(value: string)
    requires NoneIn(value, SEPARATORS)
    ensures Unseparated(Split(value, '|'), {';', ',', '|'})
  {
    SplitKeepsNone(value, '|', SEPARATORS);
    assert SEPARATORS + {'|'} == {';', ',', '|'};
  }

  lemma FieldCollects(lib: Library, p: Policy, text: string)
    requires Faithful(lib) && Collected(lib, p) && NoneIn(text, SEPARATORS) && Field(lib, p, text).Ok?
    ensures Collected(lib, Field(lib, p, text).value)
  {
    var field := TrimSpace(text);
    if field != "" {
      TrimKeepsNone(text, SEPARATORS);
      var (key, value) := Cut(field).value;
      assert NoneIn(value, SEPARATORS) by { assert forall c :: c in value ==> c in field; }
      TrimKeepsNone(value, SEPARATORS);
      ApplyCollects(lib, p, KeyOf(Lower(TrimSpace(key))), TrimSpace(value));
    }
  }

  lemma {:induction false} FoldCollects(lib: Library, p: Policy, fields: seq<string>)
    requires Faithful(lib) && Collected(lib, p) && Unseparated(fields, SEPARATORS) && Fold(lib, p, fields).Ok?
    ensures Collected(lib, Fold(lib, p, fields).value)
    decreases fields
  {
    hide Field;
    hide Collected;
    hide Faithful;
    if fields != [] {
      assert NoneIn(fields[0], SEPARATORS);
      FieldCollects(lib, p, fields[0]);
      forall i | 0 <= i < |fields| - 1 ensures NoneIn(fields[1..][i], SEPARATORS) { assert fields[1..][i]
          == fields[i + 1]; }
      FoldCollects(lib, Field(lib, p, fields[0]).value, fields[1..]);
    }
  }

  lemma SortMembers(s: seq<string>)
    ensures forall c :: c in Sort(s) <==> c in s
  {
    forall c ensures c in Sort(s) <==> c in s {
      assert c in Sort(s) <==> c in multiset(Sort(s));
    }
  }

  lemma ValidateAccepts(lib: Library, p: Policy)
    requires Collected(lib, p) && Validate(p).Ok?
    ensures Accepted(lib, Validate(p).value)
  {
    SortSorts(p.countries);
    SortSorts(p.cities);
    SortMembers(p.countries);
    SortMembers(p.cities);
    var q := Validate(p).value;
    forall s | s in [p.session, p.slot, p.provider, p.uniqueBatch, p.healthScope] && s != "" ensures CleanToken(s) {
      SafeIsClean(s);
    }
    forall c | c in q.cities ensures City(c) {
      var i :| 0 <= i < |p.cities| && p.cities[i] == c;
      SafeIsClean(c);
    }
    forall c | c in q.countries ensures CountryCode(c) {
      var i :| 0 <= i < |p.countries| && p.countries[i] == c;
    }
    assert p.countries == [] ==> Sort(p.countries) == [];
    assert p.cities == [] ==> Sort(p.cities) == [];
    hide AddrReadsBack;
    hide CleanToken;
    hide SafeToken;
    hide Sort;
  }

  lemma EmptyAccepted(lib: Library)
    ensures Accepted(lib, EMPTY_POLICY) && Collected(lib, EMPTY_POLICY)
  {}

  /** Every parsed policy keeps the grammar's promises. */
  lemma ParsedIsAccepted(lib: Library, username: string)
    requires Faithful(lib) && ParsePolicy(lib, username).Ok?
    ensures Accepted(lib, ParsePolicy(lib, username).value)
  {
    EmptyAccepted(lib);
    hide Accepted;
    hide Collected;
    hide Faithful;
    hide Validate;
    var text := TrimSpace(username);
    if text != "" && |text| <= MAX_USERNAME && '=' in text {
      FoldCollects(lib, EMPTY_POLICY, Fields(text, SEPARATORS));
      ValidateAccepts(lib, Fold(lib, EMPTY_POLICY, Fields(text, SEPARATORS)).value);
    }
  }

  // ---------------------------------------------------------------------
  // What rendering produces parses back.

  /** A part of a rendered policy: one clean directive. */
  ghost predicate CleanPart(s: string) { s != "" && Trimmed(s) && NoneIn(s, SEPARATORS) && '=' in s }

  ghost predicate CleanValue(s: string) { s != "" && Trimmed(s) && NoneIn(s, SEPARATORS) }

  /** A lower-case directive name. */
  ghost predicate CleanName(name: string) {
    name != "" && Trimmed(name) && IsLower(name) && '=' !in name && NoneIn(name, SEPARATORS)
  }

  lemma PartIsClean(name: string, value: string)
    requires CleanName(name) && CleanValue(value)
    ensures CleanPart(name + "=" + value)
  {
    var s := name + "=" + value;
    assert s[|name|] == '=';
    forall c | c in s ensures c !in SEPARATORS {
      assert c in name || c == '=' || c in value;
    }
    assert s[0] == name[0] && s[|s| - 1] == value[|value| - 1];
  }

  /** A clean directive is applied under its own name and value. */
  lemma FieldOfPart(lib: Library, p: Policy, name: string, value: string)
    requires CleanName(name) && CleanValue(value)
    ensures Field(lib, p, name + "=" + value) == Apply(lib, p, KeyOf(name), value)
  {
    PartIsClean(name, value);
    TrimOfTrimmed(name + "=" + value);
    CutOf(name, value);
    TrimOfTrimmed(name);
    TrimOfTrimmed(value);
    LowerOfLower(name);
    hide Apply;
  }

  lemma {:induction false} FoldInTwo(lib: Library, p: Policy, a: seq<string>, b: seq<string>)
    requires Fold(lib, p, a).Ok?
    ensures Fold(lib, p, a + b) == Fold(lib, Fold(lib, p, a).value, b)
    decreases a
  {
    hide Field;
    if a == [] {
      assert a + b == b;
    } else {
      assert (a + b)[1..] == a[1..] + b;
      FoldInTwo(lib, Field(lib, p, a[0]).value, a[1..], b);
    }
  }

  lemma FoldOne(lib: Library, p: Policy, part: string)
    ensures Fold(lib, p, [part]) == Field(lib, p, part)
  {
    hide Field;
    match Field(lib, p, part)
    case Err(_) =>
    case Ok(q) => assert Fold(lib, q, [part][1..]) == Ok(q);
  }

  lemma NamesReadBack(key: Key)
    ensures KeyOf(NameOf(key)) == key
  {}

  lemma LettersAreClean(name: string)
    requires name != "" && forall i :: 0 <= i < |name| ==> 'a' <= name[i] <= 'z'
    ensures CleanName(name)
  {}

  /** Rendered names are clean and name their own directive. */
  lemma NamesAreClean(key: Key)
    ensures CleanName(NameOf(key)) && KeyOf(NameOf(key)) == key
  {
    hide CleanName;
    NamesReadBack(key);
    hide KeyOf;
    var name := NameOf(key);
    assert forall i :: 0 <= i < |name| ==> 'a' <= name[i] <= 'z';
    LettersAreClean(name);
  }

  /** One part, folded. */
  lemma OnePart(lib: Library, p: Policy, key: Key, value: string)
    requires CleanValue(value)
    ensures Fold(lib, p, [Pair(key, value)]) == Apply(lib, p, key, value)
    ensures CleanPart(Pair(key, value))
  {
    hide Apply;
    hide CleanName;
    hide CleanPart;
    hide CleanValue;
    hide Field;
    hide Fold;
    hide KeyOf;
    hide NameOf;
    NamesAreClean(key);
    PartIsClean(NameOf(key), value);
    FieldOfPart(lib, p, NameOf(key), value);
    FoldOne(lib, p, Pair(key, value));
  }

  // Lists.

  lemma LoweredFirst(items: seq<string>)
    requires items != [] && Lower(TrimSpace(items[0])) == items[0] != ""
    ensures LoweredItems(items) == [items[0]] + LoweredItems(items[1..])
  {
    hide Lower;
    hide TrimSpace;
  }

  lemma {:induction false} LoweredItemsKept(items: seq<string>)
    requires forall i :: 0 <= i < |items| ==> CleanItem(items[i])
    ensures LoweredItems(items) == items
  {
    if items != [] {
      ItemKept(items[0]);
      LoweredFirst(items);
      hide CleanItem;
      hide LoweredItems;
      forall i | 0 <= i < |items| - 1 ensures CleanItem(items[1..][i]) { assert items[1..][i] == items[i + 1]; }
      LoweredItemsKept(items[1..]);
    }
  }

  lemma ItemKept(item: string)
    requires CleanItem(item)
    ensures Lower(TrimSpace(item)) == item != ""
  {
    TrimOfTrimmed(item);
    LowerOfLower(item);
  }

  ghost predicate CleanItem(s: string) { CleanToken(s) && IsLower(s) }

  lemma CountryIsItem(c: string)
    requires CountryCode(c)
    ensures CleanItem(c)
  {}

  lemma {:induction false} JoinIsClean(items: seq<string>)
    requires items != [] && forall i :: 0 <= i < |items| ==> CleanToken(items[i])
    ensures CleanValue(Join(items, "|"))
  {
    assert CleanToken(items[0]);
    if |items| > 1 {
      JoinIsClean(items[1..]);
      var rest := Join(items[1..], "|");
      var s := items[0] + "|" + rest;
      forall c | c in s ensures c !in SEPARATORS {
        assert c in items[0] || c == '|' || c in rest;
      }
      assert s[0] == items[0][0] && s[|s| - 1] == rest[|rest| - 1];
    }
  }

  lemma ListSplits(items: seq<string>)
    requires items != [] && forall i :: 0 <= i < |items| ==> CleanItem(items[i])
    ensures LoweredItems(Split(Join(items, "|"), '|')) == items
    ensures CleanValue(Join(items, "|"))
  {
    forall i | 0 <= i < |items| ensures NoneIn(items[i], {'|'}) { assert CleanItem(items[i]); }
    SplitOfJoin(items, '|');
    LoweredItemsKept(items);
    JoinIsClean(items);
  }

  lemma ItemsOf(lib: Library, p: Policy)
    requires Accepted(lib, p)
    ensures forall i :: 0 <= i < |p.countries| ==> CleanItem(p.countries[i])
    ensures forall i :: 0 <= i < |p.cities| ==> CleanItem(p.cities[i])
  {
    forall i | 0 <= i < |p.countries| ensures CleanItem(p.countries[i]) {
      assert p.countries[i] in p.countries;
      CountryIsItem(p.countries[i]);
    }
    forall i | 0 <= i < |p.cities| ensures CleanItem(p.cities[i]) {
      assert p.cities[i] in p.cities;
    }
  }

  // Groups of parts.

  ghost predicate AllClean(parts: seq<string>) { forall i :: 0 <= i < |parts| ==> CleanPart(parts[i]) }

  lemma CleanConcat(a: seq<string>, b: seq<string>)
    requires AllClean(a) && AllClean(b)
    ensures AllClean(a + b)
  {
    hide CleanPart;
  }

  /** Folding `parts` over `p` gives `q`. */
  ghost predicate FoldsTo(lib: Library, p: Policy, parts: seq<string>, q: Policy) {
    AllClean(parts) && Fold(lib, p, parts) == Ok(q)
  }

  lemma FoldsInTwo(lib: Library, p: Policy, a: seq<string>, q: Policy, b: seq<string>, r: Policy)
    requires FoldsTo(lib, p, a, q) && FoldsTo(lib, q, b, r)
    ensures FoldsTo(lib, p, a + b, r)
  {
    FoldInTwo(lib, p, a, b);
    CleanConcat(a, b);
  }

  lemma FoldsNothing(lib: Library, p: Policy)
    ensures FoldsTo(lib, p, [], p)
  {}

  lemma FoldsOne(lib: Library, p: Policy, key: Key, value: string, q: Policy)
    requires CleanValue(value) && Apply(lib, p, key, value) == Ok(q)
    ensures FoldsTo(lib, p, [Pair(key, value)], q)
  {
    hide Apply;
    hide CleanPart;
    hide Pair;
    hide CleanValue;
    OnePart(lib, p, key, value);
  }

  /** The policy with one token replaced. */
  function Renamed(p: Policy, key: Key, value: string): Policy {
    match key
    case SlotKey => p.(slot := value)
    case ProviderKey => p.(provider := value)
    case SessionKey => p.(session := value)
    case UniqueKey => p.(uniqueBatch := value)
    case HealthKey => p.(healthScope := value)
    case _ => p
  }

  lemma NamedFolds(lib: Library, p: Policy, key: Key, value: string)
    requires TokenOrNothing(value) && key in {SlotKey, ProviderKey, SessionKey, UniqueKey, HealthKey}
    ensures FoldsTo(lib, p, Named(key, value), if value == "" then p else Renamed(p, key, value))
  {
    hide FoldsTo;
    hide Pair;
    if value == "" {
      FoldsNothing(lib, p);
    } else {
      TokenIsValue(value);
      FoldsOne(lib, p, key, value, Renamed(p, key, value));
    }
  }

  lemma TokenIsValue(value: string)
    requires CleanToken(value)
    ensures CleanValue(value) && '|' !in value
  {}

  lemma DurationReads(lib: Library, d: int)
    requires Faithful(lib) && 0 < d <= MAX_INT64
    ensures CleanValue(lib.formatDuration(d)) && ParseTTL(lib, lib.formatDuration(d)) == Ok(d)
  {
    assert DurationReadsBack(lib, d);
    hide Faithful;
    hide Atoi;
    TokenIsValue(lib.formatDuration(d));
    hide CleanToken;
    hide CleanValue;
  }

  lemma TimedFolds(lib: Library, p: Policy, key: Key, d: int)
    requires Faithful(lib) && 0 <= d <= MAX_INT64 && key in {TTLKey, BatchTTLKey}
    ensures FoldsTo(lib, p, Timed(lib, key, d), if d == 0 then p else if key == TTLKey then p.(ttl := d)
            else p.(batchTTL := d))
  {
    hide FoldsTo;
    hide Pair;
    hide Faithful;
    hide ParseTTL;
    if d == 0 {
      FoldsNothing(lib, p);
    } else {
      DurationReads(lib, d);
      hide CleanValue;
      FoldsOne(lib, p, key, lib.formatDuration(d), if key == TTLKey then p.(ttl := d) else p.(batchTTL := d));
    }
  }

  lemma AddrReads(lib: Library, a: Addr)
    requires AddrReadsBack(lib, a)
    ensures CleanValue(lib.formatAddr(a)) && ParseAddrs(lib, Split(lib.formatAddr(a), '|')) == Ok([a])
  {
    var value := lib.formatAddr(a);
    TokenIsValue(value);
    TrimOfTrimmed(value);
    hide CleanToken;
    hide CleanValue;
    hide TrimSpace;
    hide Split;
    SplitAlone(value);
    ParseAlone(lib, value, a);
  }

  lemma SplitAlone(value: string)
    requires '|' !in value
    ensures Split(value, '|') == [value]
  {
    IndexAbsent(value, '|');
  }

  lemma ParseAlone(lib: Library, value: string, a: Addr)
    requires TrimSpace(value) == value && lib.parseAddr(value) == Some(a)
    ensures ParseAddrs(lib, [value]) == Ok([a])
  {
    hide TrimSpace;
    assert [value][1..] == [];
    assert [a] + [] == [a];
    assert ParseAddrs(lib, [value][1..]) == Ok([]);
  }

  lemma OneAddr(lib: Library, p: Policy, a: Addr)
    requires AddrReadsBack(lib, a)
    ensures FoldsTo(lib, p, [Pair(NotKey, lib.formatAddr(a))], p.(excludeIPs := p.excludeIPs + [a]))
  {
    hide FoldsTo;
    hide Pair;
    AddrReads(lib, a);
    hide ParseAddrs;
    hide Split;
    hide CleanValue;
    FoldsOne(lib, p, NotKey, lib.formatAddr(a), p.(excludeIPs := p.excludeIPs + [a]));
  }

  lemma {:induction false} AddrsFold(lib: Library, p: Policy, addrs: seq<Addr>)
    requires forall a :: a in addrs ==> AddrReadsBack(lib, a)
    ensures FoldsTo(lib, p, Refused(lib, addrs), p.(excludeIPs := p.excludeIPs + addrs))
    decreases addrs
  {
    hide FoldsTo;
    hide Pair;
    hide AddrReadsBack;
    if addrs == [] {
      FoldsNothing(lib, p);
      assert p.excludeIPs + [] == p.excludeIPs;
    } else {
      var q := p.(excludeIPs := p.excludeIPs + [addrs[0]]);
      OneAddr(lib, p, addrs[0]);
      AddrsFold(lib, q, addrs[1..]);
      assert p.excludeIPs + [addrs[0]] + addrs[1..] == p.excludeIPs + addrs;
      FoldsInTwo(lib, p, [Pair(NotKey, lib.formatAddr(addrs[0]))], q, Refused(lib, addrs[1..]),
          p.(excludeIPs := p.excludeIPs + addrs));
    }
  }

  lemma FlagFolds(lib: Library, p: Policy, any: bool)
    requires !p.anyExit
    ensures FoldsTo(lib, p, Flag(AnyKey, any), p.(anyExit := any))
  {
    hide FoldsTo;
    hide Pair;
    if any {
      assert CleanValue("1");
      OneIsTrue();
      hide ParseBool;
      FoldsOne(lib, p, AnyKey, "1", p.(anyExit := true));
    } else {
      FoldsNothing(lib, p);
    }
  }

  lemma OneIsTrue()
    ensures ParseBool("1") == Ok(true)
  {
    assert Lower("1") == "1";
  }

  lemma ListFolds(lib: Library, p: Policy, key: Key, items: seq<string>)
    requires key in {CountryKey, CityKey} && (key == CountryKey ==> p.countries == [])
                                                                    && (key == CityKey ==> p.cities == [])
    requires forall i :: 0 <= i < |items| ==> CleanItem(items[i])
    ensures FoldsTo(lib, p, Listed(key, items), if key == CountryKey then p.(countries := items)
            else p.(cities := items))
  {
    hide FoldsTo;
    hide Pair;
    if items == [] {
      FoldsNothing(lib, p);
    } else {
      ListSplits(items);
      hide CleanItem;
      hide Split;
      hide Join;
      hide LoweredItems;
      hide CleanValue;
      assert [] + items == items;
      FoldsOne(lib, p, key, Join(items, "|"), if key == CountryKey then p.(countries := items)
          else p.(cities := items));
    }
  }

  lemma AcceptedTokens(lib: Library, p: Policy)
    requires Accepted(lib, p)
    ensures forall s :: s in {p.session, p.slot, p.provider, p.uniqueBatch, p.healthScope} ==> TokenOrNothing(s)
    ensures 0 <= p.ttl <= MAX_INT64 && 0 <= p.batchTTL <= MAX_INT64
    ensures forall a :: a in p.excludeIPs ==> AddrReadsBack(lib, a)
  {
    hide TokenOrNothing;
    hide AddrReadsBack;
    hide City;
    hide CountryCode;
  }

  lemma LocationFolds(lib: Library, p: Policy)
    requires Accepted(lib, p)
    ensures FoldsTo(lib, EMPTY_POLICY, Location(p),
                    EMPTY_POLICY.(anyExit := p.anyExit, countries := p.countries, cities := p.cities, slot := p.slot,
                        provider := p.provider))
  {
    hide FoldsTo;
    hide Flag;
    hide Listed;
    hide Named;
    hide TokenOrNothing;
    hide CleanItem;
    ItemsOf(lib, p);
    AcceptedTokens(lib, p);
    hide Accepted;
    var q1 := EMPTY_POLICY.(anyExit := p.anyExit);
    var q2 := q1.(countries := p.countries);
    var q3 := q2.(cities := p.cities);
    var q4 := q3.(slot := p.slot);
    var q5 := q4.(provider := p.provider);
    FlagFolds(lib, EMPTY_POLICY, p.anyExit);
    ListFolds(lib, q1, CountryKey, p.countries);
    ListFolds(lib, q2, CityKey, p.cities);
    NamedFolds(lib, q3, SlotKey, p.slot);
    NamedFolds(lib, q4, ProviderKey, p.provider);
    var a, b, c, d := Flag(AnyKey, p.anyExit), Listed(CountryKey, p.countries), Listed(CityKey, p.cities),
        Named(SlotKey, p.slot);
    FoldsInTwo(lib, EMPTY_POLICY, a, q1, b, q2);
    FoldsInTwo(lib, EMPTY_POLICY, a + b, q2, c, q3);
    FoldsInTwo(lib, EMPTY_POLICY, a + b + c, q3, d, q4);
    FoldsInTwo(lib, EMPTY_POLICY, a + b + c + d, q4, Named(ProviderKey, p.provider), q5);
  }

  lemma SharingFolds(lib: Library, p: Policy, q: Policy)
    requires Faithful(lib) && Accepted(lib, p)
    requires q.session == "" && q.ttl == 0 && q.uniqueBatch == "" && q.batchTTL == 0 && q.healthScope == ""
    ensures FoldsTo(lib, q, Sharing(lib, p),
                    q.(session := p.session, ttl := p.ttl, uniqueBatch := p.uniqueBatch, batchTTL := p.batchTTL,
                        healthScope := p.healthScope))
  {
    hide FoldsTo;
    hide Timed;
    hide Named;
    hide TokenOrNothing;
    hide Faithful;
    AcceptedTokens(lib, p);
    hide Accepted;
    var q1 := q.(session := p.session);
    var q2 := q1.(ttl := p.ttl);
    var q3 := q2.(uniqueBatch := p.uniqueBatch);
    var q4 := q3.(batchTTL := p.batchTTL);
    var q5 := q4.(healthScope := p.healthScope);
    NamedFolds(lib, q, SessionKey, p.session);
    TimedFolds(lib, q1, TTLKey, p.ttl);
    NamedFolds(lib, q2, UniqueKey, p.uniqueBatch);
    TimedFolds(lib, q3, BatchTTLKey, p.batchTTL);
    NamedFolds(lib, q4, HealthKey, p.healthScope);
    var a, b, c, d := Named(SessionKey, p.session), Timed(lib, TTLKey, p.ttl), Named(UniqueKey, p.uniqueBatch),
        Timed(lib, BatchTTLKey, p.batchTTL);
    FoldsInTwo(lib, q, a, q1, b, q2);
    FoldsInTwo(lib, q, a + b, q2, c, q3);
    FoldsInTwo(lib, q, a + b + c, q3, d, q4);
    FoldsInTwo(lib, q, a + b + c + d, q4, Named(HealthKey, p.healthScope), q5);
  }

  /** The rendered parts rebuild the policy, except for recycling. */
  lemma PartsFold(lib: Library, p: Policy)
    requires Faithful(lib) && Accepted(lib, p)
    ensures FoldsTo(lib, EMPTY_POLICY, Parts(lib, p), p.(recycleBatch := false))
  {
    hide FoldsTo;
    hide Faithful;
    hide Location;
    hide Sharing;
    hide Refused;
    AcceptedTokens(lib, p);
    var q := EMPTY_POLICY.(anyExit := p.anyExit, countries := p.countries, cities := p.cities, slot := p.slot,
        provider := p.provider);
    var r := q.(session := p.session, ttl := p.ttl, uniqueBatch := p.uniqueBatch, batchTTL := p.batchTTL,
        healthScope := p.healthScope);
    LocationFolds(lib, p);
    SharingFolds(lib, p, q);
    AddrsFold(lib, r, p.excludeIPs);
    hide Accepted;
    assert r.excludeIPs + p.excludeIPs == p.excludeIPs;
    FoldsInTwo(lib, EMPTY_POLICY, Location(p), q, Sharing(lib, p), r);
    FoldsInTwo(lib, EMPTY_POLICY, Location(p) + Sharing(lib, p), r, Refused(lib, p.excludeIPs),
        p.(recycleBatch := false));
  }

  lemma {:induction false} PartsJoin(parts: seq<string>)
    requires parts != [] && AllClean(parts)
    ensures CleanJoined(Join(parts, ";"))
  {
    assert CleanPart(parts[0]);
    if |parts| > 1 {
      PartsJoin(parts[1..]);
      var rest := Join(parts[1..], ";");
      var s := parts[0] + ";" + rest;
      assert s[0] == parts[0][0] && s[|s| - 1] == rest[|rest| - 1];
    }
  }

  ghost predicate CleanJoined(s: string) { s != "" && Trimmed(s) && '=' in s }

  lemma ValidAgain(lib: Library, p: Policy)
    requires Accepted(lib, p)
    ensures Validate(p.(recycleBatch := false)) == Ok(p.(recycleBatch := false))
  {
    hide AddrReadsBack;
    hide CleanToken;
    hide Sort;
    hide CountryCode;
    SortOfSorted(p.countries);
    SortOfSorted(p.cities);
    forall i | 0 <= i < |p.countries| ensures CountryCode(p.countries[i]) { assert p.countries[i] in p.countries; }
    forall i | 0 <= i < |p.cities| ensures SafeToken(p.cities[i])
        && '-' in p.cities[i] { assert City(p.cities[i]) by { assert p.cities[i] in p.cities; } }
    assert SafeToken("");
    hide SafeToken;
    hide City;
  }

  /** A rendered policy that is not longer than a username may be parses to the policy
      it was rendered from, except that recycling is never rendered; a longer one is
      refused for its length. */
  lemma RoundTrip(lib: Library, p: Policy)
    requires Faithful(lib) && Accepted(lib, p)
    ensures ParsePolicy(lib, Rendered(lib, p))
            == if |Rendered(lib, p)| <= MAX_USERNAME then Ok(p.(recycleBatch := false)) else Err(TooLong)
  {
    hide Accepted;
    hide Faithful;
    hide Parts;
    hide Validate;
    hide CleanPart;
    hide Fold;
    PartsFold(lib, p);
    ValidAgain(lib, p);
    var parts := Parts(lib, p);
    if parts == [] {
      NothingParses(lib);
    } else {
      PartsJoin(parts);
      PartsSplit(parts);
      TrimOfTrimmed(Join(parts, ";"));
      hide Join;
      hide Fields;
      hide Trimmed;
    }
  }

  lemma NothingParses(lib: Library)
    ensures ParsePolicy(lib, "(none)") == Ok(EMPTY_POLICY)
    ensures Fold(lib, EMPTY_POLICY, []) == Ok(EMPTY_POLICY)
  {
    var text := "(none)";
    TrimOfTrimmed(text);
    hide TrimSpace;
    hide Field;
    hide Validate;
    hide Fields;
    assert forall i :: 0 <= i < |text| ==> text[i] != '=';
  }

  lemma PartsSplit(parts: seq<string>)
    requires AllClean(parts)
    ensures Fields(Join(parts, ";"), SEPARATORS) == parts
  {
    forall i | 0 <= i < |parts| ensures parts[i] != "" && NoneIn(parts[i], SEPARATORS) { assert CleanPart(parts[i]); }
    hide CleanPart;
    hide NoneIn;
    FieldsOfJoin(parts, ";", SEPARATORS);
  }

  /** A policy comes back from its rendering exactly when it does not recycle and the
      rendering is short enough. */
  lemma ComesBackExactly(lib: Library, p: Policy)
    requires Faithful(lib) && Accepted(lib, p)
    ensures ParsePolicy(lib, Rendered(lib, p)) == Ok(p) <==> !p.recycleBatch && |Rendered(lib, p)| <= MAX_USERNAME
  {
    RoundTrip(lib, p);
    hide ParsePolicy;
    hide Rendered;
  }

  /** Whatever username was accepted: rendering its policy and parsing it again gives
      the same policy without recycling exactly when the rendering is short enough, and
      the policy itself exactly when it also does not recycle. */
  lemma ParseRenderParse(lib: Library, username: string)
    requires Faithful(lib) && ParsePolicy(lib, username).Ok?
    ensures var p := ParsePolicy(lib, username).value;
            ParsePolicy(lib, Rendered(lib, p)) == Ok(p.(recycleBatch := false)) <==> |Rendered(lib, p)| <= MAX_USERNAME
    ensures var p := ParsePolicy(lib, username).value;
            ParsePolicy(lib, Rendered(lib, p)) == Ok(p) <==> !p.recycleBatch && |Rendered(lib, p)| <= MAX_USERNAME
  {
    ParsedIsAccepted(lib, username);
    var p := ParsePolicy(lib, username).value;
    RoundTrip(lib, p);
    ComesBackExactly(lib, p);
    hide ParsePolicy;
    hide Rendered;
  }

  // ---------------------------------------------------------------------
  // Seconds.

  /** Bare seconds are read exactly if and only if they fit 64 bits of nanoseconds. */
  lemma SecondsAreExact(lib: Library, value: string)
    requires Atoi(value).Some? && Atoi(value).value >= 0
    ensures ParseTTL(lib, value) == Ok(Atoi(value).value * SECOND) <==> Atoi(value).value <= 9223372036
  {
    hide Atoi;
  }

  /** A lifetime of 18446744074 seconds, more than 584 years, is read as a third of a
      second. */
  lemma SecondsWrap(lib: Library, secs: int)
    requires secs == 18446744074
    ensures Atoi(Itoa(secs)) == Some(secs) && ParseTTL(lib, Itoa(secs)) == Ok(290448384)
  {
    hide Atoi;
    hide Itoa;
    AtoiOfItoa(secs);
  }

  // ---------------------------------------------------------------------
  // The loops of the parser and the renderer.

  lemma LoweredStep(items: seq<string>, i: nat)
    requires i < |items|
    ensures var item := Lower(TrimSpace(items[i]));
            LoweredItems(items[i..]) == (if item == "" then [] else [item]) + LoweredItems(items[i + 1..])
  {
    assert items[i..][0] == items[i] && items[i..][1..] == items[i + 1..];
  }

  lemma OneMore<T>(out: seq<T>, item: seq<T>, rest: seq<T>)
    ensures out + (item + rest) == (out + item) + rest
    ensures item == [] ==> out + item == out
  {}

  method AppendLower(dst: seq<string>, value: string) returns (out: seq<string>)
    ensures out == dst + LoweredItems(Split(value, '|'))
  {
    out := dst;
    var items := Split(value, '|');
    assert items[0..] == items && items[|items|..] == [] && LoweredItems([]) == [];
    hide LoweredItems;
    hide Split;
    hide Lower;
    hide TrimSpace;
    for i := 0 to |items|
      invariant out + LoweredItems(items[i..]) == dst + LoweredItems(items)
    {
      LoweredStep(items, i);
      var item := Lower(TrimSpace(items[i]));
      OneMore(out, if item == "" then [] else [item], LoweredItems(items[i + 1..]));
      if item != "" {
        out := out + [item];
      }
    }
  }

  lemma AddrsStep(lib: Library, items: seq<string>, i: nat)
    requires i < |items|
    ensures ParseAddrs(lib, items[i..]) == match lib.parseAddr(TrimSpace(items[i]))
                                           case None => Err(BadAddress)
                                           case Some(a) => Prepended(a, ParseAddrs(lib, items[i + 1..]))
  {
    assert items[i..][0] == items[i] && items[i..][1..] == items[i + 1..];
  }

  function Prepended(a: Addr, r: Result<seq<Addr>, PolicyError>): Result<seq<Addr>, PolicyError> {
    match r
    case Err(e) => Err(e)
    case Ok(rest) => Ok([a] + rest)
  }

  function After(done: seq<Addr>, r: Result<seq<Addr>, PolicyError>): Result<seq<Addr>, PolicyError> {
    match r
    case Err(e) => Err(e)
    case Ok(rest) => Ok(done + rest)
  }

  lemma AfterPrepended(done: seq<Addr>, a: Addr, r: Result<seq<Addr>, PolicyError>)
    ensures After(done, Prepended(a, r)) == After(done + [a], r)
  {
    if r.Ok? { assert done + ([a] + r.value) == done + [a] + r.value; }
  }

  method AppendAddrs(lib: Library, dst: seq<Addr>, value: string) returns (r: Result<seq<Addr>, PolicyError>)
    ensures r == After(dst, ParseAddrs(lib, Split(value, '|')))
  {
    var out := dst;
    var items := Split(value, '|');
    assert items[0..] == items && items[|items|..] == [] && ParseAddrs(lib, []) == Ok([]);
    hide Split;
    hide ParseAddrs;
    hide TrimSpace;
    for i := 0 to |items|
      invariant After(out, ParseAddrs(lib, items[i..])) == After(dst, ParseAddrs(lib, items))
    {
      AddrsStep(lib, items, i);
      match lib.parseAddr(TrimSpace(items[i])) {
        case None => return Err(BadAddress);
        case Some(a) =>
          AfterPrepended(out, a, ParseAddrs(lib, items[i + 1..]));
          out := out + [a];
      }
    }
    assert out + [] == out;
    return Ok(out);
  }

  /** The checks a parsed policy has to pass, in the order they are made. */
  method Check(p: Policy) returns (r: Result<Policy, PolicyError>)
    ensures r == Validate(p)
  {
    if !SafeToken(p.session) || !SafeToken(p.slot) || !SafeToken(p.provider) || !SafeToken(p.uniqueBatch)
       || !SafeToken(p.healthScope) {
      return Err(UnsafeToken);
    }
    for i := 0 to |p.countries|
      invariant forall k :: 0 <= k < i ==> CountryCode(p.countries[k])
    {
      if !CountryCode(p.countries[i]) { return Err(BadCountry); }
    }
    for i := 0 to |p.cities|
      invariant forall k :: 0 <= k < i ==> SafeToken(p.cities[k]) && '-' in p.cities[k]
    {
      if !SafeToken(p.cities[i]) || '-' !in p.cities[i] { return Err(BadCity); }
    }
    if p.ttl < 0 || p.batchTTL < 0 { return Err(NegativeDuration); }
    if p.batchTTL > 0 && p.uniqueBatch == "" { return Err(BatchTTLWithoutBatch); }
    if p.anyExit && (p.countries != [] || p.cities != [] || p.slot != "") { return Err(AnyConflicts); }
    return Ok(p.(countries := Sort(p.countries), cities := Sort(p.cities)));
  }

  /** Apply one directive, accumulating list values. */
  method ApplyDirective(lib: Library, p: Policy, key: Key, value: string) returns (r: Result<Policy, PolicyError>)
    ensures r == Apply(lib, p, key, value)
  {
    hide LoweredItems;
    hide ParseAddrs;
    hide Split;
    hide ParseTTL;
    hide ParseBool;
    match key {
      case CountryKey =>
        var countries := AppendLower(p.countries, value);
        return Ok(p.(countries := countries));
      case CityKey =>
        var cities := AppendLower(p.cities, value);
        return Ok(p.(cities := cities));
      case NotKey =>
        var addrs := AppendAddrs(lib, p.excludeIPs, value);
        match addrs {
          case Ok(all) => return Ok(p.(excludeIPs := all));
          case Err(e) => return Err(e);
        }
      case AnyKey =>
        match ParseBool(value) {
          case Ok(b) => return Ok(p.(anyExit := b));
          case Err(e) => return Err(e);
        }
      case RecycleKey =>
        match ParseBool(value) {
          case Ok(b) => return Ok(p.(recycleBatch := b));
          case Err(e) => return Err(e);
        }
      case TTLKey =>
        match ParseTTL(lib, value) {
          case Ok(d) => return Ok(p.(ttl := d));
          case Err(e) => return Err(e);
        }
      case BatchTTLKey =>
        match ParseTTL(lib, value) {
          case Ok(d) =>
            if d == 0 { return Err(BatchTTLNotPositive); }
            return Ok(p.(batchTTL := d));
          case Err(e) => return Err(e);
        }
      case SlotKey => return Ok(p.(slot := value));
      case ProviderKey => return Ok(p.(provider := value));
      case SessionKey => return Ok(p.(session := value));
      case UniqueKey => return Ok(p.(uniqueBatch := value));
      case HealthKey => return Ok(p.(healthScope := value));
      case UnknownKey => return Err(UnknownDirective);
    }
  }

  lemma FoldStep(lib: Library, p: Policy, fields: seq<string>, i: nat)
    requires i < |fields|
    ensures Fold(lib, p, fields[i..]) == match Field(lib, p, fields[i])
                                         case Err(e) => Err(e)
                                         case Ok(q) => Fold(lib, q, fields[i + 1..])
  {
    hide Field;
    assert fields[i..][0] == fields[i] && fields[i..][1..] == fields[i + 1..];
  }

  method Parse(lib: Library, username: string) returns (r: Result<Policy, PolicyError>)
    ensures r == ParsePolicy(lib, username)
  {
    hide Apply;
    hide Validate;
    var text := TrimSpace(username);
    if text == "" { return Ok(EMPTY_POLICY); }
    if |text| > MAX_USERNAME { return Err(TooLong); }
    if '=' !in text { return Ok(EMPTY_POLICY); }
    var p := EMPTY_POLICY;
    var fields := Fields(text, SEPARATORS);
    assert fields[0..] == fields && fields[|fields|..] == [];
    hide Fields;
    assert forall q :: Fold(lib, q, []) == Ok(q);
    assert ParsePolicy(lib, username) == match Fold(lib, EMPTY_POLICY, fields)
                                         case Err(e) => Err(e)
                                         case Ok(folded) => Validate(folded);
    hide ParsePolicy;
    hide Fold;
    hide KeyOf;
    hide Cut;
    hide Lower;
    hide TrimSpace;
    for i := 0 to |fields|
      invariant Fold(lib, EMPTY_POLICY, fields) == Fold(lib, p, fields[i..])
    {
      FoldStep(lib, p, fields, i);
      var field := TrimSpace(fields[i]);
      if field == "" { continue; }
      match Cut(field) {
        case None => return Err(NotKeyValue);
        case Some((key, value)) =>
          if TrimSpace(value) == "" { return Err(EmptyValue); }
          var applied := ApplyDirective(lib, p, KeyOf(Lower(TrimSpace(key))), TrimSpace(value));
          match applied {
            case Err(e) => return Err(e);
            case Ok(q) => p := q;
          }
      }
    }
    r := Check(p);
  }

  method Render(lib: Library, p: Policy) returns (text: string)
    ensures text == Rendered(lib, p)
  {
    hide Join;
    var parts := Location(p) + Sharing(lib, p);
    hide Location;
    hide Sharing;
    assert p.excludeIPs[|p.excludeIPs|..] == [];
    for i := 0 to |p.excludeIPs|
      invariant parts + Refused(lib, p.excludeIPs[i..]) == Parts(lib, p)
    {
      assert p.excludeIPs[i..][1..] == p.excludeIPs[i + 1..];
      parts := parts + [Pair(NotKey, lib.formatAddr(p.excludeIPs[i]))];
    }
    assert Refused(lib, []) == [] && parts + [] == parts;
    if parts == [] { return "(none)"; }
    return Join(parts, ";");
  }
}
