/** WireGuard configuration files: the reader of the catalog, the writer of provider
    snapshots, and the round trip between them. */
module ConfCodec {
  import opened Common
  import opened Text

  /** A masked or unmasked address prefix: opaque. */
  datatype Prefix = Prefix(id: nat)

  /** Addresses, prefixes and endpoints, as the standard library reads and prints them. */
  datatype NetLibrary = NetLibrary(
    parseAddr: string -> Option<Addr>,
    formatAddr: Addr -> string,
    parsePrefix: string -> Option<Prefix>,
    formatPrefix: Prefix -> string,
    prefixAddr: Prefix -> Addr,
    hostRoute: Addr -> Prefix,
    mask: Prefix -> Prefix,
    validEndpoint: string -> bool,
    everywhere: seq<Prefix>)

  datatype Slot = Slot(
    id: string,
    country: string,
    city: string,
    device: string,
    privateKey: string,
    addresses: seq<Addr>,
    dns: seq<Addr>,
    mtu: int,
    publicKey: string,
    presharedKey: string,
    endpoint: string,
    allowedIPs: seq<Prefix>,
    source: string)

  datatype ConfError =
    | Malformed | BadAddress | NoAddresses | BadMTU | MTUOutOfRange | BadEndpoint | BadAllowedIP | Incomplete
    | LineTooLong

  const DEFAULT_MTU: int := 1420

  // ---------------------------------------------------------------------
  // Names and geography.

  function TrimSuffix(s: string, suffix: string): string {
    if |suffix| <= |s| && s[|s| - |suffix|..] == suffix then s[..|s| - |suffix|] else s
  }

  function IDOf(name: string): string { TrimSuffix(TrimSuffix(name, ".conf"), ".CONF") }

  predicate CityChar(c: char) { 'a' <= c <= 'z' || '0' <= c <= '9' || c == '_' }

  predicate LowerLetter(c: char) { 'a' <= c <= 'z' }

  /** The length of the leading run of city characters. */
  function CityRun(s: string): (n: nat)
    ensures n <= |s|
    ensures forall i :: 0 <= i < n ==> CityChar(s[i])
    ensures n < |s| ==> !CityChar(s[n])
  {
    if s == "" || !CityChar(s[0]) then 0 else CityRun(s[1..]) + 1
  }

  function Replace(s: string, from: char, to: char): (r: string)
    ensures |r| == |s|
    ensures forall i :: 0 <= i < |s| ==> r[i] == if s[i] == from then to else s[i]
  {
    if s == "" then "" else [if s[0] == from then to else s[0]] + Replace(s[1..], from, to)
  }

  /** The country and the city label a slot name spells out, if it does. */
  function Geography(id: string): Option<(string, string)> {
    if |id| < 3 || !LowerLetter(id[0]) || !LowerLetter(id[1]) || id[2] != '-' then None
    else
      var n := CityRun(id[3..]);
      if n == 0 || 3 + n >= |id| || id[3 + n] != '-' then None
      else Some((id[..2], id[..2] + "-" + Replace(id[3..3 + n], '_', '-')))
  }

  // ---------------------------------------------------------------------
  // Reading.

  datatype Section = Interface | Peer | Elsewhere

  predicate Bracket(c: char) { c == '[' || c == ']' }

  function TrimBrackets(s: string): string {
    if s != "" && Bracket(s[0]) then TrimBrackets(s[1..])
    else if s != "" && Bracket(s[|s| - 1]) then TrimBrackets(s[..|s| - 1])
    else s
  }

  function SectionOf(line: string): Section {
    var name := Lower(TrimBrackets(line));
    if name == "interface" then Interface else if name == "peer" then Peer else Elsewhere
  }

  predicate IsHeading(line: string) { line != "" && line[0] == '[' && line[|line| - 1] == ']' }

  predicate IsComment(line: string) { line != "" && (line[0] == '#' || line[0] == ';') }

  /** White space of a regular expression. */
  predicate ReSpace(c: char) { c == ' ' || c == '\t' || c == '\n' || c == '\r' || c as int == 12 }

  function SkipSpace(s: string): string {
    if s != "" && ReSpace(s[0]) then SkipSpace(s[1..]) else s
  }

  /** The label of a `# Device: label` comment. */
  function DeviceOf(line: string): Option<string> {
    if line == "" || line[0] != '#' then None
    else
      var word := SkipSpace(line[1..]);
      if |word| < 6 || Lower(word[..6]) != "device" then None
      else
        var rest := SkipSpace(word[6..]);
        if rest == "" || rest[0] != ':' then None
        else
          var text := TrimRight(SkipSpace(rest[1..]));
          if text == "" then None else Some(text)
  }

  const LIST_SEPARATORS: set<char> := {',', ' ', '\t'}

  function TrimAll(items: seq<string>): seq<string> {
    if items == [] then []
    else
      var t := TrimSpace(items[0]);
      (if t == "" then [] else [t]) + TrimAll(items[1..])
  }

  function SplitList(value: string): seq<string> { TrimAll(Fields(value, LIST_SEPARATORS)) }

  /** One address, with or without a prefix length. */
  function OneAddr(lib: NetLibrary, field: string): Option<Addr> {
    match lib.parsePrefix(field)
    case Some(prefix) => Some(lib.prefixAddr(prefix))
    case None => lib.parseAddr(field)
  }

  function AddrsOf(lib: NetLibrary, fields: seq<string>): Option<seq<Addr>> {
    if fields == [] then Some([])
    else
      match (OneAddr(lib, fields[0]), AddrsOf(lib, fields[1..]))
      case (Some(a), Some(rest)) => Some([a] + rest)
      case _ => None
  }

  function ParseAddrList(lib: NetLibrary, value: string): Result<seq<Addr>, ConfError> {
    match AddrsOf(lib, SplitList(value))
    case None => Err(BadAddress)
    case Some(addrs) => if addrs == [] then Err(NoAddresses) else Ok(addrs)
  }

  /** One prefix; a bare address is a host route. */
  function OnePrefix(lib: NetLibrary, field: string): Option<Prefix> {
    match lib.parsePrefix(field)
    case Some(prefix) => Some(lib.mask(prefix))
    case None =>
      match lib.parseAddr(field)
      case None => None
      case Some(a) => Some(lib.mask(lib.hostRoute(a)))
  }

  function PrefixesOf(lib: NetLibrary, fields: seq<string>): Option<seq<Prefix>> {
    if fields == [] then Some([])
    else
      match (OnePrefix(lib, fields[0]), PrefixesOf(lib, fields[1..]))
      case (Some(p), Some(rest)) => Some([p] + rest)
      case _ => None
  }

  datatype Key = PrivateKey | Address | DNS | MTU | PublicKey | PresharedKey | Endpoint | AllowedIPs | OtherKey

  function InterfaceKey(key: string): Key {
    if key == "privatekey" then PrivateKey
    else if key == "address" then Address
    else if key == "dns" then DNS
    else if key == "mtu" then MTU
    else OtherKey
  }

  function PeerKey(key: string): Key {
    if key == "publickey" then PublicKey
    else if key == "presharedkey" then PresharedKey
    else if key == "endpoint" then Endpoint
    else if key == "allowedips" then AllowedIPs
    else OtherKey
  }

  function KeyIn(section: Section, key: string): Key {
    match section
    case Interface => InterfaceKey(key)
    case Peer => PeerKey(key)
    case Elsewhere => OtherKey
  }

  function MTUOf(value: string): Result<int, ConfError> {
    match Atoi(value)
    case None => Err(BadMTU)
    case Some(mtu) => if mtu < 576 || mtu > 65535 then Err(MTUOutOfRange) else Ok(mtu)
  }

  function SetField(lib: NetLibrary, slot: Slot, key: Key, value: string): Result<Slot, ConfError> {
    match key
    case PrivateKey => Ok(slot.(privateKey := value))
    case Address =>
      (match ParseAddrList(lib, value)
       case Ok(addrs) => Ok(slot.(addresses := slot.addresses + addrs))
       case Err(e) => Err(e))
    case DNS =>
      (match ParseAddrList(lib, value)
       case Ok(addrs) => Ok(slot.(dns := slot.dns + addrs))
       case Err(e) => Err(e))
    case MTU =>
      (match MTUOf(value)
       case Ok(mtu) => Ok(slot.(mtu := mtu))
       case Err(e) => Err(e))
    case PublicKey => Ok(slot.(publicKey := value))
    case PresharedKey => Ok(slot.(presharedKey := value))
    case Endpoint => if lib.validEndpoint(value) then Ok(slot.(endpoint := value)) else Err(BadEndpoint)
    case AllowedIPs =>
      (match PrefixesOf(lib, SplitList(value))
       case Some(prefixes) => Ok(slot.(allowedIPs := slot.allowedIPs + prefixes))
       case None => Err(BadAllowedIP))
    case OtherKey => Ok(slot)
  }

  const COMMENT_MARKS: set<char> := {'#', ';'}

  /** A value without its trailing inline comment. */
  function Uncommented(value: string): string {
    if IndexAny(value, COMMENT_MARKS) < |value| then TrimSpace(value[..IndexAny(value, COMMENT_MARKS)]) else value
  }

  /** The section the reader is in and the slot so far. */
  datatype Reading = Reading(section: Section, slot: Slot)

  function ReadLine(lib: NetLibrary, r: Reading, raw: string): Result<Reading, ConfError> {
    var line := TrimSpace(raw);
    if line == "" then Ok(r)
    else if IsComment(line) then
      Ok(if r.slot.device == "" && DeviceOf(line).Some? then r.(slot := r.slot.(device := DeviceOf(line).value)) else r)
    else if IsHeading(line) then Ok(r.(section := SectionOf(line)))
    else
      match Cut(line)
      case None => Err(Malformed)
      case Some((key, value)) =>
        match SetField(lib, r.slot, KeyIn(r.section, Lower(TrimSpace(key))), Uncommented(TrimSpace(value)))
        case Err(e) => Err(e)
        case Ok(slot) => Ok(r.(slot := slot))
  }

  function ReadLines(lib: NetLibrary, r: Reading, lines: seq<string>): Result<Reading, ConfError>
    decreases lines
  {
    if lines == [] then Ok(r)
    else
      match ReadLine(lib, r, lines[0])
      case Err(e) => Err(e)
      case Ok(q) => ReadLines(lib, q, lines[1..])
  }

  /** A line this long does not fit the reader's buffer. */
  const MAX_LINE: nat := 0x10_0000

  ghost predicate ShortLines(lines: seq<string>) { forall i :: 0 <= i < |lines| ==> |lines[i]| < MAX_LINE }

  /** Reading stops at a line that is too long. */
  function ScanLines(lib: NetLibrary, r: Reading, lines: seq<string>): Result<Reading, ConfError>
    decreases lines
  {
    if lines == [] then Ok(r)
    else if |lines[0]| >= MAX_LINE then Err(LineTooLong)
    else
      match ReadLine(lib, r, lines[0])
      case Err(e) => Err(e)
      case Ok(q) => ScanLines(lib, q, lines[1..])
  }

  /** The buffer's bound only matters when a line reaches it, and then nothing is read. */
  lemma {:induction false} ScanIsRead(lib: NetLibrary, r: Reading, lines: seq<string>)
    ensures ShortLines(lines) ==> ScanLines(lib, r, lines) == ReadLines(lib, r, lines)
    ensures !ShortLines(lines) ==> ScanLines(lib, r, lines).Err?
    decreases lines
  {
    hide ReadLine;
    if lines != [] && |lines[0]| < MAX_LINE && ReadLine(lib, r, lines[0]).Ok? {
      ScanIsRead(lib, ReadLine(lib, r, lines[0]).value, lines[1..]);
      assert ShortLines(lines[1..]) ==> ShortLines(lines) by {
        forall i | 0 <= i < |lines| && ShortLines(lines[1..]) ensures |lines[i]| < MAX_LINE {
          if i > 0 { assert lines[i] == lines[1..][i - 1]; }
        }
      }
      assert ShortLines(lines) ==> ShortLines(lines[1..]);
    }
  }

  function NewSlot(name: string): Slot {
    var id := IDOf(name);
    var (country, city) := match Geography(id) case Some(g) => g case None => ("", "");
    Slot(id, country, city, "", "", [], [], DEFAULT_MTU, "", "", "", [], "")
  }

  predicate Complete(slot: Slot) {
    slot.id != "" && slot.privateKey != "" && slot.addresses != [] && slot.publicKey != "" && slot.endpoint != ""
  }

  function Finished(lib: NetLibrary, slot: Slot): Result<Slot, ConfError> {
    if !Complete(slot) then Err(Incomplete)
    else Ok(slot.(allowedIPs := if slot.allowedIPs == [] then lib.everywhere else slot.allowedIPs))
  }

  function ParsedConf(lib: NetLibrary, name: string, raw: string): Result<Slot, ConfError> {
    match ScanLines(lib, Reading(Elsewhere, NewSlot(name)), Lines(raw))
    case Err(e) => Err(e)
    case Ok(r) => Finished(lib, r.slot)
  }

  // ---------------------------------------------------------------------
  // Writing.

  function TrimPrefix(s: string, prefix: string): string {
    if |prefix| <= |s| && s[..|prefix|] == prefix then s[|prefix|..] else s
  }

  predicate HasDots(s: string) { exists i | 0 <= i < |s| - 1 :: s[i] == '.' && s[i + 1] == '.' }

  function BaseName(slot: Slot): string {
    if slot.country != "" && slot.city != "" then
      slot.country + "-" + Replace(TrimPrefix(slot.city, slot.country + "-"), '-', '_') + "-" + slot.id
    else slot.id
  }

  /** The file a slot is written to; suspicious names are refused. */
  function FileName(slot: Slot): Option<string> {
    if '/' in BaseName(slot) || HasDots(BaseName(slot)) then None else Some(BaseName(slot) + ".conf")
  }

  function FormatAddrs(lib: NetLibrary, addrs: seq<Addr>): (r: seq<string>)
    ensures |r| == |addrs| && forall i :: 0 <= i < |r| ==> r[i] == lib.formatAddr(addrs[i])
  {
    if addrs == [] then [] else [lib.formatAddr(addrs[0])] + FormatAddrs(lib, addrs[1..])
  }

  function FormatPrefixes(lib: NetLibrary, prefixes: seq<Prefix>): (r: seq<string>)
    ensures |r| == |prefixes| && forall i :: 0 <= i < |r| ==> r[i] == lib.formatPrefix(prefixes[i])
  {
    if prefixes == [] then [] else [lib.formatPrefix(prefixes[0])] + FormatPrefixes(lib, prefixes[1..])
  }

  /** The name a key is written under. */
  function NameOf(key: Key): string {
    match key
    case PrivateKey => "PrivateKey"
    case Address => "Address"
    case DNS => "DNS"
    case MTU => "MTU"
    case PublicKey => "PublicKey"
    case PresharedKey => "PresharedKey"
    case Endpoint => "Endpoint"
    case AllowedIPs => "AllowedIPs"
    case OtherKey => "Other"
  }

  function Setting(key: Key, value: string): string { NameOf(key) + " = " + value }

  function ListValue(items: seq<string>): string { Join(items, ", ") }

  function InterfaceLines(lib: NetLibrary, slot: Slot): seq<string> {
    ["# Server: " + slot.source,
     "[Interface]",
     Setting(PrivateKey, slot.privateKey),
     Setting(Address, ListValue(FormatAddrs(lib, slot.addresses))),
     Setting(DNS, ListValue(FormatAddrs(lib, slot.dns))),
     Setting(MTU, Itoa(slot.mtu))]
  }

  function PeerLines(lib: NetLibrary, slot: Slot): seq<string> {
    ["",
     "[Peer]",
     Setting(PublicKey, slot.publicKey),
     Setting(AllowedIPs, ListValue(FormatPrefixes(lib, slot.allowedIPs))),
     Setting(Endpoint, slot.endpoint)]
  }

  function ConfLines(lib: NetLibrary, slot: Slot): seq<string> { InterfaceLines(lib, slot) + PeerLines(lib, slot) }

  function RenderedConf(lib: NetLibrary, slot: Slot): string { Unlines(ConfLines(lib, slot)) }

  // ---------------------------------------------------------------------
  // Well-formed slots.

  const NOISE: set<char> := {'#', ';', '\n', '\r'}

  /** A value that stands for itself on a line. */
  ghost predicate PlainValue(s: string) { Trimmed(s) && NoneIn(s, NOISE) }

  /** An item of a written list. */
  ghost predicate PlainItem(s: string) { s != "" && PlainValue(s) && NoneIn(s, LIST_SEPARATORS) }

  ghost predicate AddrReadsBack(lib: NetLibrary, a: Addr) {
    PlainItem(lib.formatAddr(a)) && lib.parsePrefix(lib.formatAddr(a)).None?
        && lib.parseAddr(lib.formatAddr(a)) == Some(a)
  }

  /** A masked prefix whose text reads back. */
  ghost predicate PrefixReadsBack(lib: NetLibrary, p: Prefix) {
    PlainItem(lib.formatPrefix(p)) && lib.parsePrefix(lib.formatPrefix(p)) == Some(p) && lib.mask(p) == p
  }

  ghost predicate WellFormed(lib: NetLibrary, slot: Slot) {
    && slot.privateKey != "" && PlainValue(slot.privateKey)
    && slot.publicKey != "" && PlainValue(slot.publicKey)
    && slot.endpoint != "" && PlainValue(slot.endpoint) && lib.validEndpoint(slot.endpoint)
    && (forall a :: a in slot.addresses ==> AddrReadsBack(lib, a))
    && (forall a :: a in slot.dns ==> AddrReadsBack(lib, a))
    && (forall p :: p in slot.allowedIPs ==> PrefixReadsBack(lib, p))
    && MIN_INT64 <= slot.mtu <= MAX_INT64
    && '\n' !in slot.source && '\r' !in slot.source
  }

  // ---------------------------------------------------------------------
  // One line.

  lemma PlainHasNoMarks(s: string)
    requires PlainValue(s)
    ensures Uncommented(s) == s && TrimSpace(s) == s && '\n' !in s && '\r' !in s
  {
    TrimOfTrimmed(s);
    assert NoneIn(s, COMMENT_MARKS);
    IndexAnyAbsent(s, COMMENT_MARKS);
  }

  ghost predicate PlainName(name: string) {
    name != "" && Trimmed(name) && '=' !in name && name[0] != '#' && name[0] != ';' && name[0] != '['
    && '\n' !in name && '\r' !in name
  }

  /** Trimming a written setting only drops the blank before an empty value. */
  lemma SettingTrimmed(name: string, value: string)
    requires PlainName(name) && PlainValue(value)
    ensures TrimSpace(name + " = " + value) == name + " =" + (if value == "" then "" else " " + value)
  {
    var s := name + " = " + value;
    if value == "" {
      var t := name + " =";
      assert s == t + [' '] && Trimmed(t);
      TrimBlanks(t, ' ');
      assert t + "" == t;
    } else {
      assert s[0] == name[0] && s[|s| - 1] == value[|value| - 1];
      TrimOfTrimmed(s);
      assert s == name + " =" + (" " + value);
    }
  }

  lemma SettingShape(name: string, value: string)
    requires PlainName(name) && PlainValue(value)
    ensures var line := TrimSpace(name + " = " + value);
            && line != "" && line[0] == name[0]
            && Cut(line) == Some((name + " ", if value == "" then "" else " " + value))
  {
    hide TrimSpace;
    hide Cut;
    hide PlainValue;
    hide Trimmed;
    SettingTrimmed(name, value);
    assert name != "" && '=' !in name;
    hide PlainName;
    var tail := if value == "" then "" else " " + value;
    CutAfterBlank(name, tail);
  }

  lemma CutAfterBlank(name: string, tail: string)
    requires name != "" && '=' !in name
    ensures var line := name + " =" + tail; line != "" && line[0] == name[0] && Cut(line) == Some((name + " ", tail))
  {
    hide Cut;
    assert '=' !in name + " ";
    CutOf(name + " ", tail);
    assert name + " =" + tail == name + " " + "=" + tail;
  }

  lemma SettingCut(name: string, value: string)
    requires PlainName(name) && PlainValue(value)
    ensures var line := TrimSpace(name + " = " + value);
            && line != "" && !IsComment(line) && !IsHeading(line)
            && Cut(line).Some? && TrimSpace(Cut(line).value.0) == name && TrimSpace(Cut(line).value.1) == value
  {
    hide Cut;
    hide TrimSpace;
    hide Trimmed;
    SettingShape(name, value);
    TrimName(name);
    TrimValue(value);
  }

  lemma TrimName(name: string)
    requires PlainName(name)
    ensures TrimSpace(name + " ") == name && !IsComment(name) && name[0] != '['
  {
    hide TrimSpace;
    TrimBlanks(name, ' ');
    assert name + [' '] == name + " ";
  }

  lemma TrimValue(value: string)
    requires PlainValue(value)
    ensures TrimSpace(if value == "" then "" else " " + value) == value
  {
    TrimOfTrimmed(value);
    hide TrimSpace;
    TrimBlanks(value, ' ');
    assert [' '] + value == " " + value;
  }

  /** A written setting sets its own field. */
  lemma SettingSets(lib: NetLibrary, r: Reading, key: Key, value: string)
    requires PlainValue(value) && PlainName(NameOf(key)) && KeyIn(r.section, Lower(NameOf(key))) == key
    ensures ReadLine(lib, r, Setting(key, value)) == match SetField(lib, r.slot, key, value)
                                                       case Err(e) => Err(e)
                                                       case Ok(slot) => Ok(r.(slot := slot))
  {
    SettingCut(NameOf(key), value);
    PlainHasNoMarks(value);
    hide TrimSpace;
    hide Cut;
    hide SetField;
    hide IsComment;
    hide IsHeading;
    hide KeyIn;
    hide NameOf;
    hide Uncommented;
    hide PlainValue;
  }

  lemma LowerIs(s: string, t: string)
    requires |s| == |t| && forall i :: 0 <= i < |s| ==> LowerChar(s[i]) == t[i]
    ensures Lower(s) == t
  {}

  lemma PlainNames(key: Key)
    ensures PlainName(NameOf(key))
  {
    var name := NameOf(key);
    assert forall i :: 0 <= i < |name| ==> 'A' <= name[i] <= 'z' && name[i] != '[';
  }

  lemma InterfaceNames(key: Key)
    requires key in {PrivateKey, Address, DNS, MTU}
    ensures KeyIn(Interface, Lower(NameOf(key))) == key
  {
    hide Lower;
    match key
    case PrivateKey => LowerIs("PrivateKey", "privatekey");
    case Address => LowerIs("Address", "address");
    case DNS => LowerIs("DNS", "dns");
    case MTU => LowerIs("MTU", "mtu");
  }

  lemma PeerNames(key: Key)
    requires key in {PublicKey, Endpoint, AllowedIPs}
    ensures KeyIn(Peer, Lower(NameOf(key))) == key
  {
    hide Lower;
    match key
    case PublicKey => LowerIs("PublicKey", "publickey");
    case Endpoint => LowerIs("Endpoint", "endpoint");
    case AllowedIPs => LowerIs("AllowedIPs", "allowedips");
  }

  lemma HeadingSets(lib: NetLibrary, r: Reading)
    ensures ReadLine(lib, r, "[Interface]") == Ok(r.(section := Interface))
    ensures ReadLine(lib, r, "[Peer]") == Ok(r.(section := Peer))
    ensures ReadLine(lib, r, "") == Ok(r)
  {
    HeadingNames();
    HeadingLine(lib, r, "[Interface]");
    HeadingLine(lib, r, "[Peer]");
    assert TrimSpace("") == "";
    hide SectionOf;
    hide IsHeading;
    hide TrimSpace;
    hide SetField;
  }

  lemma HeadingLine(lib: NetLibrary, r: Reading, line: string)
    requires IsHeading(line)
    ensures ReadLine(lib, r, line) == Ok(r.(section := SectionOf(line)))
  {
    TrimOfTrimmed(line);
    hide TrimSpace;
    hide SetField;
    hide SectionOf;
  }

  lemma HeadingNames()
    ensures SectionOf("[Interface]") == Interface && SectionOf("[Peer]") == Peer
  {
    InterfaceHeading();
    PeerHeading();
    hide SectionOf;
  }

  lemma InterfaceHeading()
    ensures SectionOf("[Interface]") == Interface
  {
    hide TrimBrackets;
    hide Lower;
    Unbracketed("Interface");
    LowerIs("Interface", "interface");
    assert "[" + "Interface" + "]" == "[Interface]";
  }

  lemma PeerHeading()
    ensures SectionOf("[Peer]") == Peer
  {
    hide TrimBrackets;
    hide Lower;
    Unbracketed("Peer");
    LowerIs("Peer", "peer");
    assert "[" + "Peer" + "]" == "[Peer]";
  }

  lemma Unbracketed(s: string)
    requires s != "" && !Bracket(s[0]) && !Bracket(s[|s| - 1])
    ensures TrimBrackets("[" + s + "]") == s
  {
    var t := s + "]";
    assert ("[" + s + "]")[1..] == t;
    assert t[0] == s[0] && t[..|t| - 1] == s;
    assert TrimBrackets(t) == TrimBrackets(s) == s;
  }

  /** The leading comment is no device label. */
  lemma CommentSkipped(lib: NetLibrary, r: Reading, source: string)
    ensures ReadLine(lib, r, "# Server: " + source) == Ok(r)
  {
    var raw := "# Server: " + source;
    assert TrimLeft(raw) == raw;
    var line := TrimSpace(raw);
    assert line == raw[..|line|];
    assert |line| >= 9 by { CommentKeeps(raw); }
    assert line[0] == '#' && line[1] == ' ' && line[2] == 'S';
    assert SkipSpace(line[1..]) == SkipSpace(line[2..]) == line[2..] by {
      assert line[1..][1..] == line[2..];
    }
    var word := line[2..];
    assert Lower(word[..6])[0] == 's';
    assert DeviceOf(line).None?;
    hide SetField;
    hide DeviceOf;
  }

  lemma CommentKeeps(raw: string)
    requires |raw| >= 10 && raw[8] == ':' && !IsSpace(raw[0])
    ensures |TrimSpace(raw)| >= 9
  {
    KeepsVisible(raw, 8);
  }

  lemma {:induction false} KeepsVisible(s: string, k: nat)
    requires k < |s| && !IsSpace(s[k])
    ensures |TrimRight(s)| > k
  {
    if IsSpace(s[|s| - 1]) { KeepsVisible(s[..|s| - 1], k); }
  }

  // ---------------------------------------------------------------------
  // Written lists.

  ghost predicate PlainItems(items: seq<string>) { forall i :: 0 <= i < |items| ==> PlainItem(items[i]) }

  lemma {:induction false} TrimAllKept(items: seq<string>)
    requires PlainItems(items)
    ensures TrimAll(items) == items
  {
    if items != [] {
      assert PlainItem(items[0]);
      TrimOfTrimmed(items[0]);
      hide PlainItem;
      hide TrimSpace;
      TrimAllKept(items[1..]);
      assert TrimAll(items) == [items[0]] + TrimAll(items[1..]);
    }
  }

  lemma ListReads(items: seq<string>)
    requires PlainItems(items)
    ensures SplitList(ListValue(items)) == items
  {
    forall i | 0 <= i < |items| ensures items[i] != ""
        && NoneIn(items[i], LIST_SEPARATORS) { assert PlainItem(items[i]); }
    TrimAllKept(items);
    hide PlainItem;
    hide NoneIn;
    FieldsOfJoin(items, ", ", LIST_SEPARATORS);
  }

  lemma {:induction false} ListIsPlain(items: seq<string>)
    requires PlainItems(items)
    ensures PlainValue(ListValue(items))
    ensures items != [] ==> ListValue(items) != ""
  {
    if items != [] {
      assert PlainItem(items[0]);
      if |items| > 1 {
        ListIsPlain(items[1..]);
        JoinedPlain(items[0], ListValue(items[1..]));
      }
    }
  }

  lemma JoinedPlain(a: string, b: string)
    requires a != "" && PlainValue(a) && b != "" && PlainValue(b)
    ensures PlainValue(a + ", " + b)
  {
    var s := a + ", " + b;
    forall c | c in s ensures c !in NOISE {
      assert c in a || c == ',' || c == ' ' || c in b;
    }
    assert s[0] == a[0] && s[|s| - 1] == b[|b| - 1];
  }

  lemma PlainOneMore(first: string, rest: seq<string>)
    requires PlainItem(first) && PlainItems(rest)
    ensures PlainItems([first] + rest)
  {
    hide PlainItem;
    var texts := [first] + rest;
    forall i | 0 <= i < |texts| ensures PlainItem(texts[i]) {
      assert texts[i] == if i == 0 then first else rest[i - 1];
    }
  }

  lemma AddrReadsOne(lib: NetLibrary, a: Addr)
    requires AddrReadsBack(lib, a)
    ensures OneAddr(lib, lib.formatAddr(a)) == Some(a) && PlainItem(lib.formatAddr(a))
  {}

  lemma PrefixReadsOne(lib: NetLibrary, p: Prefix)
    requires PrefixReadsBack(lib, p)
    ensures OnePrefix(lib, lib.formatPrefix(p)) == Some(p) && PlainItem(lib.formatPrefix(p))
  {}

  lemma {:induction false} AddrsRead(lib: NetLibrary, addrs: seq<Addr>)
    requires forall a :: a in addrs ==> AddrReadsBack(lib, a)
    ensures AddrsOf(lib, FormatAddrs(lib, addrs)) == Some(addrs)
    ensures PlainItems(FormatAddrs(lib, addrs))
  {
    hide AddrReadsBack;
    hide OneAddr;
    hide PlainItem;
    if addrs != [] {
      AddrReadsOne(lib, addrs[0]);
      AddrsRead(lib, addrs[1..]);
      var first, rest := lib.formatAddr(addrs[0]), FormatAddrs(lib, addrs[1..]);
      PlainOneMore(first, rest);
      hide PlainItems;
      assert FormatAddrs(lib, addrs) == [first] + rest;
      assert ([first] + rest)[1..] == rest;
      assert addrs == [addrs[0]] + addrs[1..];
    }
  }

  lemma {:induction false} PrefixesRead(lib: NetLibrary, prefixes: seq<Prefix>)
    requires forall p :: p in prefixes ==> PrefixReadsBack(lib, p)
    ensures PrefixesOf(lib, FormatPrefixes(lib, prefixes)) == Some(prefixes)
    ensures PlainItems(FormatPrefixes(lib, prefixes))
  {
    hide PrefixReadsBack;
    hide OnePrefix;
    hide PlainItem;
    if prefixes != [] {
      PrefixReadsOne(lib, prefixes[0]);
      PrefixesRead(lib, prefixes[1..]);
      var first, rest := lib.formatPrefix(prefixes[0]), FormatPrefixes(lib, prefixes[1..]);
      PlainOneMore(first, rest);
      hide PlainItems;
      assert FormatPrefixes(lib, prefixes) == [first] + rest;
      assert ([first] + rest)[1..] == rest;
      assert prefixes == [prefixes[0]] + prefixes[1..];
    }
  }

  lemma NumberIsPlain(v: int)
    ensures PlainValue(Itoa(v))
  {
    var s := Itoa(v);
    forall i | 0 <= i < |s| ensures IsDigit(s[i]) || s[i] == '-' {}
    hide Itoa;
    hide NatDigits;
  }

  // ---------------------------------------------------------------------
  // One setting at a time.

  /** A list of addresses written by one setting. */
  lemma AddrListReads(lib: NetLibrary, addrs: seq<Addr>)
    requires forall a :: a in addrs ==> AddrReadsBack(lib, a)
    ensures ParseAddrList(lib, ListValue(FormatAddrs(lib, addrs))) == if addrs == [] then Err(NoAddresses)
            else Ok(addrs)
    ensures PlainValue(ListValue(FormatAddrs(lib, addrs)))
  {
    hide AddrReadsBack;
    hide PlainItem;
    hide SplitList;
    hide ListValue;
    hide PlainValue;
    AddrsRead(lib, addrs);
    ListReads(FormatAddrs(lib, addrs));
    ListIsPlain(FormatAddrs(lib, addrs));
  }

  lemma PrefixListReads(lib: NetLibrary, prefixes: seq<Prefix>)
    requires forall p :: p in prefixes ==> PrefixReadsBack(lib, p)
    ensures PrefixesOf(lib, SplitList(ListValue(FormatPrefixes(lib, prefixes)))) == Some(prefixes)
    ensures PlainValue(ListValue(FormatPrefixes(lib, prefixes)))
  {
    hide PrefixReadsBack;
    hide PlainItem;
    hide SplitList;
    hide ListValue;
    hide PlainValue;
    PrefixesRead(lib, prefixes);
    ListReads(FormatPrefixes(lib, prefixes));
    ListIsPlain(FormatPrefixes(lib, prefixes));
  }

  lemma MTUReads(mtu: int)
    requires MIN_INT64 <= mtu <= MAX_INT64
    ensures MTUOf(Itoa(mtu)) == if 576 <= mtu <= 65535 then Ok(mtu) else Err(MTUOutOfRange)
  {
    AtoiOfItoa(mtu);
    hide Atoi;
    hide Itoa;
  }

  function Then(lib: NetLibrary, r: Result<Reading, ConfError>, lines: seq<string>): Result<Reading, ConfError> {
    match r
    case Err(e) => Err(e)
    case Ok(q) => ReadLines(lib, q, lines)
  }

  lemma ReadFirst(lib: NetLibrary, r: Reading, line: string, rest: seq<string>)
    ensures ReadLines(lib, r, [line] + rest) == Then(lib, ReadLine(lib, r, line), rest)
  {
    assert ([line] + rest)[1..] == rest;
    hide ReadLine;
  }

  lemma {:induction false} ReadInTwo(lib: NetLibrary, r: Reading, a: seq<string>, b: seq<string>)
    ensures ReadLines(lib, r, a + b) == Then(lib, ReadLines(lib, r, a), b)
    decreases a
  {
    hide ReadLine;
    if a == [] {
      assert a + b == b;
    } else {
      assert (a + b)[1..] == a[1..] + b;
      match ReadLine(lib, r, a[0])
      case Err(_) =>
      case Ok(q) => ReadInTwo(lib, q, a[1..], b);
    }
  }

  function Settled(r: Reading, set_: Result<Slot, ConfError>): Result<Reading, ConfError> {
    match set_
    case Err(e) => Err(e)
    case Ok(slot) => Ok(r.(slot := slot))
  }

  lemma SettingReads(lib: NetLibrary, r: Reading, key: Key, value: string, rest: seq<string>)
    requires PlainValue(value)
    requires (r.section == Interface && key in {PrivateKey, Address, DNS, MTU})
             || (r.section == Peer && key in {PublicKey, Endpoint, AllowedIPs})
    ensures ReadLines(lib, r, [Setting(key, value)] + rest)
            == Then(lib, Settled(r, SetField(lib, r.slot, key, value)), rest)
  {
    PlainNames(key);
    if r.section == Interface { InterfaceNames(key); } else { PeerNames(key); }
    hide PlainName;
    hide PlainValue;
    hide Lower;
    hide NameOf;
    hide KeyIn;
    hide Setting;
    hide SetField;
    hide ReadLine;
    hide ReadLines;
    SettingSets(lib, r, key, value);
    ReadFirst(lib, r, Setting(key, value), rest);
  }

  /** What reading the interface lines gives. */
  function AfterInterface(slot: Slot, start: Slot): Result<Slot, ConfError> {
    if slot.addresses == [] || slot.dns == [] then Err(NoAddresses)
    else if !(576 <= slot.mtu <= 65535) then Err(MTUOutOfRange)
    else Ok(start.(privateKey := slot.privateKey, addresses := slot.addresses, dns := slot.dns, mtu := slot.mtu))
  }

  lemma AddressReads(lib: NetLibrary, r: Reading, addrs: seq<Addr>, key: Key, rest: seq<string>)
    requires forall a :: a in addrs ==> AddrReadsBack(lib, a)
    requires r.section == Interface && key in {Address, DNS}
    requires (key == Address ==> r.slot.addresses == []) && (key == DNS ==> r.slot.dns == [])
    ensures ReadLines(lib, r, [Setting(key, ListValue(FormatAddrs(lib, addrs)))] + rest)
            == if addrs == [] then Err(NoAddresses)
               else ReadLines(lib, r.(slot := if key == Address then r.slot.(addresses := addrs)
                   else r.slot.(dns := addrs)), rest)
  {
    hide PlainValue;
    hide Setting;
    hide ListValue;
    hide ReadLines;
    hide ParseAddrList;
    hide AddrReadsBack;
    AddrListReads(lib, addrs);
    SettingReads(lib, r, key, ListValue(FormatAddrs(lib, addrs)), rest);
    assert [] + addrs == addrs;
  }

  lemma InterfaceReads(lib: NetLibrary, start: Slot, slot: Slot)
    requires WellFormed(lib, slot) && start.addresses == [] && start.dns == []
    ensures ReadLines(lib, Reading(Elsewhere, start), InterfaceLines(lib, slot))
            == Settled(Reading(Interface, start), AfterInterface(slot, start))
  {
    hide PlainValue;
    hide AddrReadsBack;
    hide PrefixReadsBack;
    hide Setting;
    hide ListValue;
    hide ReadLine;
    hide ReadLines;
    hide MTUOf;
    hide Itoa;
    var r0, r1 := Reading(Elsewhere, start), Reading(Interface, start);
    var r2 := r1.(slot := start.(privateKey := slot.privateKey));
    var r3 := r2.(slot := r2.slot.(addresses := slot.addresses));
    var r4 := r3.(slot := r3.slot.(dns := slot.dns));
    var l5 := [Setting(MTU, Itoa(slot.mtu))];
    var l4 := [Setting(DNS, ListValue(FormatAddrs(lib, slot.dns)))] + l5;
    var l3 := [Setting(Address, ListValue(FormatAddrs(lib, slot.addresses)))] + l4;
    var l2 := [Setting(PrivateKey, slot.privateKey)] + l3;
    var l1 := ["[Interface]"] + l2;
    assert InterfaceLines(lib, slot) == ["# Server: " + slot.source] + l1;
    hide WellFormed;
    hide InterfaceLines;
    CommentSkipped(lib, r0, slot.source);
    ReadFirst(lib, r0, "# Server: " + slot.source, l1);
    HeadingSets(lib, r0);
    ReadFirst(lib, r0, "[Interface]", l2);
    PrivateKeyReads(lib, r1, slot, l3);
    AddressLineReads(lib, r2, slot, l4);
    DNSLineReads(lib, r3, slot, l5);
    MTULineReads(lib, r4, slot);
  }

  lemma PrivateKeyReads(lib: NetLibrary, r: Reading, slot: Slot, rest: seq<string>)
    requires WellFormed(lib, slot) && r.section == Interface
    ensures ReadLines(lib, r, [Setting(PrivateKey, slot.privateKey)] + rest)
            == ReadLines(lib, r.(slot := r.slot.(privateKey := slot.privateKey)), rest)
  {
    hide PlainValue;
    hide Setting;
    hide ReadLines;
    SettingReads(lib, r, PrivateKey, slot.privateKey, rest);
  }

  lemma AddressLineReads(lib: NetLibrary, r: Reading, slot: Slot, rest: seq<string>)
    requires WellFormed(lib, slot) && r.section == Interface && r.slot.addresses == []
    ensures ReadLines(lib, r, [Setting(Address, ListValue(FormatAddrs(lib, slot.addresses)))] + rest)
            == if slot.addresses == [] then Err(NoAddresses)
                else ReadLines(lib, r.(slot := r.slot.(addresses := slot.addresses)), rest)
  {
    hide PlainValue;
    hide AddrReadsBack;
    hide Setting;
    hide ListValue;
    hide ReadLines;
    AddressReads(lib, r, slot.addresses, Address, rest);
  }

  lemma DNSLineReads(lib: NetLibrary, r: Reading, slot: Slot, rest: seq<string>)
    requires WellFormed(lib, slot) && r.section == Interface && r.slot.dns == []
    ensures ReadLines(lib, r, [Setting(DNS, ListValue(FormatAddrs(lib, slot.dns)))] + rest)
            == if slot.dns == [] then Err(NoAddresses) else ReadLines(lib, r.(slot := r.slot.(dns := slot.dns)), rest)
  {
    hide PlainValue;
    hide AddrReadsBack;
    hide Setting;
    hide ListValue;
    hide ReadLines;
    AddressReads(lib, r, slot.dns, DNS, rest);
  }

  lemma NothingLeft(lib: NetLibrary, r: Reading)
    ensures ReadLines(lib, r, []) == Ok(r)
  {}

  lemma MTULineReads(lib: NetLibrary, r: Reading, slot: Slot)
    requires WellFormed(lib, slot) && r.section == Interface
    ensures ReadLines(lib, r, [Setting(MTU, Itoa(slot.mtu))])
            == if 576 <= slot.mtu <= 65535 then Ok(r.(slot := r.slot.(mtu := slot.mtu))) else Err(MTUOutOfRange)
  {
    hide PlainValue;
    hide Setting;
    hide ReadLines;
    hide MTUOf;
    hide Itoa;
    MTUReads(slot.mtu);
    NumberIsPlain(slot.mtu);
    assert [Setting(MTU, Itoa(slot.mtu))] + [] == [Setting(MTU, Itoa(slot.mtu))];
    SettingReads(lib, r, MTU, Itoa(slot.mtu), []);
    NothingLeft(lib, r.(slot := r.slot.(mtu := slot.mtu)));
  }

  lemma PeerReads(lib: NetLibrary, r: Reading, slot: Slot)
    requires WellFormed(lib, slot) && r.slot.allowedIPs == []
    ensures ReadLines(lib, r, PeerLines(lib, slot))
            == Ok(Reading(Peer, r.slot.(publicKey := slot.publicKey, allowedIPs := slot.allowedIPs,
                endpoint := slot.endpoint)))
  {
    hide PlainValue;
    hide PrefixReadsBack;
    hide AddrReadsBack;
    hide Setting;
    hide ListValue;
    hide ReadLine;
    hide ReadLines;
    hide SplitList;
    hide PrefixesOf;
    var r1 := r.(section := Peer);
    var r2 := r1.(slot := r1.slot.(publicKey := slot.publicKey));
    var r3 := r2.(slot := r2.slot.(allowedIPs := slot.allowedIPs));
    var r4 := r3.(slot := r3.slot.(endpoint := slot.endpoint));
    var l4 := [Setting(Endpoint, slot.endpoint)];
    var l3 := [Setting(AllowedIPs, ListValue(FormatPrefixes(lib, slot.allowedIPs)))] + l4;
    var l2 := [Setting(PublicKey, slot.publicKey)] + l3;
    var l1 := ["[Peer]"] + l2;
    assert PeerLines(lib, slot) == [""] + l1;
    HeadingSets(lib, r);
    ReadFirst(lib, r, "", l1);
    ReadFirst(lib, r, "[Peer]", l2);
    SettingReads(lib, r1, PublicKey, slot.publicKey, l3);
    PrefixListReads(lib, slot.allowedIPs);
    assert [] + slot.allowedIPs == slot.allowedIPs;
    SettingReads(lib, r2, AllowedIPs, ListValue(FormatPrefixes(lib, slot.allowedIPs)), l4);
    assert l4 + [] == l4;
    SettingReads(lib, r3, Endpoint, slot.endpoint, []);
    NothingLeft(lib, r4);
  }

  // ---------------------------------------------------------------------
  // The whole file.

  /** The fields a written file gives back, under the name it is read as. */
  function Recovered(lib: NetLibrary, name: string, slot: Slot): Slot {
    NewSlot(name).(
      privateKey := slot.privateKey, addresses := slot.addresses, dns := slot.dns, mtu := slot.mtu,
      publicKey := slot.publicKey, endpoint := slot.endpoint,
      allowedIPs := if slot.allowedIPs == [] then lib.everywhere else slot.allowedIPs)
  }

  ghost predicate WholeLine(line: string) { '\n' !in line && '\r' !in line }

  ghost predicate WholeLines(lines: seq<string>) { forall i :: 0 <= i < |lines| ==> WholeLine(lines[i]) }

  lemma LineIsWhole(key: Key, value: string)
    requires PlainValue(value)
    ensures WholeLine(Setting(key, value))
  {
    PlainNames(key);
    hide NameOf;
  }

  lemma FixedLines(slot: Slot)
    requires '\n' !in slot.source && '\r' !in slot.source
    ensures WholeLine("# Server: " + slot.source) && WholeLine("[Interface]") && WholeLine("") && WholeLine("[Peer]")
  {}

  lemma ConfLinesAreWhole(lib: NetLibrary, slot: Slot)
    requires WellFormed(lib, slot)
    ensures WholeLines(InterfaceLines(lib, slot)) && WholeLines(PeerLines(lib, slot))
  {
    hide PlainValue;
    hide AddrReadsBack;
    hide PrefixReadsBack;
    hide Setting;
    hide ListValue;
    hide Itoa;
    hide WholeLine;
    hide ParseAddrList;
    hide PrefixesOf;
    hide SplitList;
    AddrListReads(lib, slot.addresses);
    AddrListReads(lib, slot.dns);
    PrefixListReads(lib, slot.allowedIPs);
    NumberIsPlain(slot.mtu);
    FixedLines(slot);
    LineIsWhole(PrivateKey, slot.privateKey);
    LineIsWhole(Address, ListValue(FormatAddrs(lib, slot.addresses)));
    LineIsWhole(DNS, ListValue(FormatAddrs(lib, slot.dns)));
    LineIsWhole(MTU, Itoa(slot.mtu));
    LineIsWhole(PublicKey, slot.publicKey);
    LineIsWhole(AllowedIPs, ListValue(FormatPrefixes(lib, slot.allowedIPs)));
    LineIsWhole(Endpoint, slot.endpoint);
  }

  lemma LinesReadBack(a: seq<string>, b: seq<string>)
    requires WholeLines(a) && WholeLines(b)
    ensures Lines(Unlines(a + b)) == a + b
  {
    forall i | 0 <= i < |a + b| ensures WholeLine((a + b)[i]) {
      assert (a + b)[i] == if i < |a| then a[i] else b[i - |a|];
    }
    LinesOfUnlines(a + b);
  }

  /** Reading back a written configuration recovers every field that is written, exactly
      when it names an address and a resolver, its MTU is in range and no line reaches the
      reader's bound. */
  lemma ConfRoundTrip(lib: NetLibrary, name: string, slot: Slot)
    requires WellFormed(lib, slot) && IDOf(name) != ""
    ensures ParsedConf(lib, name, RenderedConf(lib, slot)) == Ok(Recovered(lib, name, slot))
            <==> slot.addresses != [] && slot.dns != [] && 576 <= slot.mtu <= 65535 && ShortLines(ConfLines(lib, slot))
    ensures ShortLines(ConfLines(lib, slot)) ==>
              ParsedConf(lib, name, RenderedConf(lib, slot))
              == if slot.addresses == [] || slot.dns == [] then Err(NoAddresses)
                 else if !(576 <= slot.mtu <= 65535) then Err(MTUOutOfRange)
                 else Ok(Recovered(lib, name, slot))
    ensures !ShortLines(ConfLines(lib, slot)) ==> ParsedConf(lib, name, RenderedConf(lib, slot)).Err?
  {
    var start := NewSlot(name);
    NewSlotIsEmpty(name);
    hide NewSlot;
    WrittenReads(lib, start, slot);
    ScanIsRead(lib, Reading(Elsewhere, start), Lines(RenderedConf(lib, slot)));
    WrittenLines(lib, slot);
    hide ScanLines;
    hide ShortLines;
    assert slot.privateKey != "" && slot.publicKey != "" && slot.endpoint != "";
    hide WellFormed;
    hide RenderedConf;
    hide ReadLines;
    hide Lines;
  }

  lemma WrittenLines(lib: NetLibrary, slot: Slot)
    requires WellFormed(lib, slot)
    ensures Lines(RenderedConf(lib, slot)) == ConfLines(lib, slot)
  {
    hide WellFormed;
    hide WholeLines;
    hide InterfaceLines;
    hide PeerLines;
    hide Lines;
    hide Unlines;
    ConfLinesAreWhole(lib, slot);
    LinesReadBack(InterfaceLines(lib, slot), PeerLines(lib, slot));
  }

  lemma NewSlotIsEmpty(name: string)
    ensures var s := NewSlot(name); s.addresses == [] && s.dns == [] && s.allowedIPs == [] && s.id == IDOf(name)
  {
    hide Geography;
    hide IDOf;
  }

  /** What reading all the written lines gives. */
  lemma WrittenReads(lib: NetLibrary, start: Slot, slot: Slot)
    requires WellFormed(lib, slot) && start.addresses == [] && start.dns == [] && start.allowedIPs == []
    ensures ReadLines(lib, Reading(Elsewhere, start), Lines(RenderedConf(lib, slot)))
            == match AfterInterface(slot, start)
               case Err(e) => Err(e)
               case Ok(s) => Ok(Reading(Peer, s.(publicKey := slot.publicKey, allowedIPs := slot.allowedIPs,
                   endpoint := slot.endpoint)))
  {
    hide WellFormed;
    hide WholeLines;
    hide InterfaceLines;
    hide PeerLines;
    hide ReadLines;
    hide Lines;
    hide Unlines;
    ConfLinesAreWhole(lib, slot);
    LinesReadBack(InterfaceLines(lib, slot), PeerLines(lib, slot));
    InterfaceReads(lib, start, slot);
    ReadInTwo(lib, Reading(Elsewhere, start), InterfaceLines(lib, slot), PeerLines(lib, slot));
    if AfterInterface(slot, start).Ok? {
      PeerReads(lib, Reading(Interface, AfterInterface(slot, start).value), slot);
    }
  }

  // ---------------------------------------------------------------------
  // File names.

  ghost predicate TownChar(c: char) { 'a' <= c <= 'z' || '0' <= c <= '9' || c == '-' }

  /** A slot with a country code and a city label of that country. */
  ghost predicate Located(slot: Slot, town: string) {
    && |slot.country| == 2 && LowerLetter(slot.country[0]) && LowerLetter(slot.country[1])
    && town != "" && (forall i :: 0 <= i < |town| ==> TownChar(town[i]))
    && slot.city == slot.country + "-" + town
  }

  lemma LocatedBase(slot: Slot, town: string)
    requires Located(slot, town)
    ensures BaseName(slot) == slot.country + "-" + Replace(town, '-', '_') + "-" + slot.id
  {
    var prefix := slot.country + "-";
    assert slot.city[..|prefix|] == prefix && slot.city[|prefix|..] == town;
    hide Replace;
  }

  lemma ReplaceBack(town: string)
    requires forall i :: 0 <= i < |town| ==> TownChar(town[i])
    ensures Replace(Replace(town, '-', '_'), '_', '-') == town
    ensures forall i :: 0 <= i < |town| ==> CityChar(Replace(town, '-', '_')[i])
  {}

  lemma CityRunOf(run: string, rest: string)
    requires (forall i :: 0 <= i < |run| ==> CityChar(run[i])) && rest != "" && !CityChar(rest[0])
    ensures CityRun(run + rest) == |run|
  {
    var s := run + rest;
    hide CityRun;
    assert s[|run|] == rest[0];
    forall i | 0 <= i < |run| ensures CityChar(s[i]) {}
  }

  /** A name that starts like a located slot spells out its geography. */
  lemma GeographyOf(country: string, town: string, rest: string)
    requires |country| == 2 && LowerLetter(country[0]) && LowerLetter(country[1])
    requires town != "" && forall i :: 0 <= i < |town| ==> TownChar(town[i])
    ensures Geography(country + "-" + Replace(town, '-', '_') + "-" + rest) == Some((country, country + "-" + town))
  {
    var run := Replace(town, '-', '_');
    ReplaceBack(town);
    hide Replace;
    NameSplits(country, run, rest);
    CityRunOf(run, "-" + rest);
    hide CityRun;
    var id := country + "-" + run + "-" + rest;
    assert id[3..3 + |run|] == run;
  }

  lemma NameSplits(country: string, run: string, rest: string)
    requires |country| == 2
    ensures var id := country + "-" + run + "-" + rest;
            && |id| == 4 + |run| + |rest| && id[0] == country[0] && id[1] == country[1] && id[2] == '-'
            && id[..2] == country && id[3..] == run + ("-" + rest) && id[3 + |run|] == '-' && id[3..3 + |run|] == run
            && id[4 + |run|..] == rest
  {}

  /** The upper-case suffix can only be cut off the part after the city. */
  lemma IDKeepsHead(slot: Slot, town: string)
    requires Located(slot, town)
    ensures exists rest :: IDOf(BaseName(slot) + ".conf") == slot.country + "-" + Replace(town, '-', '_') + "-" + rest
  {
    LocatedBase(slot, town);
    ReplaceBack(town);
    hide Replace;
    var base := BaseName(slot);
    hide BaseName;
    var head := slot.country + "-" + Replace(town, '-', '_') + "-";
    assert base == head + slot.id;
    var name := base + ".conf";
    assert name[|name| - 5..] == ".conf" && name[..|name| - 5] == base;
    assert TrimSuffix(name, ".conf") == base;
    if TrimSuffix(base, ".CONF") == base {
      assert IDOf(name) == head + slot.id;
    } else {
      assert base[|base| - 5..] == ".CONF";
      var k := |base| - 5;
      assert base[k] == '.';
      HeadHasNoDot(slot.country, Replace(town, '-', '_'), k);
      var rest := slot.id[..k - |head|];
      assert base[..k] == head + rest;
    }
  }

  lemma HeadHasNoDot(country: string, run: string, k: nat)
    requires |country| == 2 && LowerLetter(country[0]) && LowerLetter(country[1])
    requires forall i :: 0 <= i < |run| ==> CityChar(run[i])
    ensures var head := country + "-" + run + "-";
            k < |head| ==> head[k] != '.'
  {
    var head := country + "-" + run + "-";
    if 3 <= k < 3 + |run| { assert head[k] == run[k - 3]; }
  }

  /** The file name of a located slot spells out its country and its city, hyphens
      included. */
  lemma FileNameKeepsGeography(slot: Slot, town: string)
    requires Located(slot, town)
    ensures var read := NewSlot(BaseName(slot) + ".conf");
            read.country == slot.country && read.city == slot.city && read.id != ""
  {
    IDKeepsHead(slot, town);
    var rest :| IDOf(BaseName(slot) + ".conf") == slot.country + "-" + Replace(town, '-', '_') + "-" + rest;
    GeographyOf(slot.country, town, rest);
    hide Replace;
    hide Geography;
    hide BaseName;
    hide IDOf;
  }

  /** A located, well-formed slot survives being written and read back under its own
      file name: keys, addresses, resolvers, MTU, endpoint, allowed prefixes, country
      and city. */
  lemma LocatedRoundTrip(lib: NetLibrary, slot: Slot, town: string)
    requires WellFormed(lib, slot) && Located(slot, town) && FileName(slot).Some?
    requires slot.addresses != [] && slot.dns != [] && slot.allowedIPs != [] && 576 <= slot.mtu <= 65535
    requires ShortLines(ConfLines(lib, slot))
    ensures var r := ParsedConf(lib, FileName(slot).value, RenderedConf(lib, slot));
            && r.Ok?
            && r.value == slot.(id := r.value.id, device := "", presharedKey := "", source := "")
  {
    FileNameKeepsGeography(slot, town);
    hide WellFormed;
    hide Located;
    hide BaseName;
    ConfRoundTrip(lib, FileName(slot).value, slot);
    hide ParsedConf;
    hide RenderedConf;
    hide Geography;
    hide IDOf;
  }

  /** Different located slots get different file names. */
  lemma FileNamesAreInjective(a: Slot, b: Slot, townA: string, townB: string)
    requires Located(a, townA) && Located(b, townB)
    requires FileName(a).Some? && FileName(a) == FileName(b)
    ensures a.country == b.country && a.city == b.city && a.id == b.id
  {
    LocatedBase(a, townA);
    LocatedBase(b, townB);
    SameStem(BaseName(a), BaseName(b));
    ReplaceBack(townA);
    ReplaceBack(townB);
    var runA, runB := Replace(townA, '-', '_'), Replace(townB, '-', '_');
    hide Replace;
    assert BaseName(a) == BaseName(b);
    hide BaseName;
    NameSplits(a.country, runA, a.id);
    NameSplits(b.country, runB, b.id);
    CityRunOf(runA, "-" + a.id);
    CityRunOf(runB, "-" + b.id);
    hide CityRun;
  }

  lemma SameStem(a: string, b: string)
    requires a + ".conf" == b + ".conf"
    ensures a == b
  {
    assert a == (a + ".conf")[..|a|] && b == (b + ".conf")[..|b|];
  }

  // ---------------------------------------------------------------------
  // The loops of the reader and the writer.

  function Prefixed<T>(done: seq<T>, rest: Option<seq<T>>): Option<seq<T>> {
    match rest
    case None => None
    case Some(r) => Some(done + r)
  }

  lemma PrefixedNone<T>(rest: Option<seq<T>>)
    ensures Prefixed([], rest) == rest
  {
    if rest.Some? { assert [] + rest.value == rest.value; }
  }

  lemma PrefixedMore<T>(done: seq<T>, x: T, rest: Option<seq<T>>)
    ensures Prefixed(done, Prefixed([x], rest)) == Prefixed(done + [x], rest)
  {
    if rest.Some? { assert done + ([x] + rest.value) == done + [x] + rest.value; }
  }

  lemma AddrsStep(lib: NetLibrary, fields: seq<string>, i: nat)
    requires i < |fields|
    ensures AddrsOf(lib, fields[i..]) == match OneAddr(lib, fields[i])
                                         case None => None
                                         case Some(a) => Prefixed([a], AddrsOf(lib, fields[i + 1..]))
  {
    assert fields[i..][0] == fields[i] && fields[i..][1..] == fields[i + 1..];
    hide OneAddr;
  }

  lemma PrefixesStep(lib: NetLibrary, fields: seq<string>, i: nat)
    requires i < |fields|
    ensures PrefixesOf(lib, fields[i..]) == match OnePrefix(lib, fields[i])
                                            case None => None
                                            case Some(p) => Prefixed([p], PrefixesOf(lib, fields[i + 1..]))
  {
    assert fields[i..][0] == fields[i] && fields[i..][1..] == fields[i + 1..];
    hide OnePrefix;
  }

  method ReadAddrs(lib: NetLibrary, value: string) returns (r: Result<seq<Addr>, ConfError>)
    ensures r == ParseAddrList(lib, value)
  {
    var out: seq<Addr> := [];
    var fields := SplitList(value);
    assert fields[0..] == fields && fields[|fields|..] == [] && AddrsOf(lib, []) == Some([]);
    hide AddrsOf;
    hide SplitList;
    hide OneAddr;
    PrefixedNone(AddrsOf(lib, fields));
    for i := 0 to |fields|
      invariant Prefixed(out, AddrsOf(lib, fields[i..])) == AddrsOf(lib, fields)
    {
      AddrsStep(lib, fields, i);
      match OneAddr(lib, fields[i]) {
        case None => return Err(BadAddress);
        case Some(a) =>
          PrefixedMore(out, a, AddrsOf(lib, fields[i + 1..]));
          out := out + [a];
      }
    }
    assert out + [] == out;
    if out == [] { return Err(NoAddresses); }
    return Ok(out);
  }

  method ReadPrefixes(lib: NetLibrary, value: string) returns (r: Option<seq<Prefix>>)
    ensures r == PrefixesOf(lib, SplitList(value))
  {
    var out: seq<Prefix> := [];
    var fields := SplitList(value);
    assert fields[0..] == fields && fields[|fields|..] == [] && PrefixesOf(lib, []) == Some([]);
    hide PrefixesOf;
    hide SplitList;
    hide OnePrefix;
    PrefixedNone(PrefixesOf(lib, fields));
    for i := 0 to |fields|
      invariant Prefixed(out, PrefixesOf(lib, fields[i..])) == PrefixesOf(lib, fields)
    {
      PrefixesStep(lib, fields, i);
      match OnePrefix(lib, fields[i]) {
        case None => return None;
        case Some(p) =>
          PrefixedMore(out, p, PrefixesOf(lib, fields[i + 1..]));
          out := out + [p];
      }
    }
    assert out + [] == out;
    return Some(out);
  }

  method WriteField(lib: NetLibrary, slot: Slot, key: Key, value: string) returns (r: Result<Slot, ConfError>)
    ensures r == SetField(lib, slot, key, value)
  {
    hide ParseAddrList;
    hide PrefixesOf;
    hide MTUOf;
    hide SplitList;
    match key {
      case Address =>
        var addrs := ReadAddrs(lib, value);
        match addrs {
          case Ok(all) => return Ok(slot.(addresses := slot.addresses + all));
          case Err(e) => return Err(e);
        }
      case DNS =>
        var addrs := ReadAddrs(lib, value);
        match addrs {
          case Ok(all) => return Ok(slot.(dns := slot.dns + all));
          case Err(e) => return Err(e);
        }
      case AllowedIPs =>
        var prefixes := ReadPrefixes(lib, value);
        match prefixes {
          case Some(all) => return Ok(slot.(allowedIPs := slot.allowedIPs + all));
          case None => return Err(BadAllowedIP);
        }
      case MTU =>
        match MTUOf(value) {
          case Ok(mtu) => return Ok(slot.(mtu := mtu));
          case Err(e) => return Err(e);
        }
      case Endpoint =>
        if !lib.validEndpoint(value) { return Err(BadEndpoint); }
        return Ok(slot.(endpoint := value));
      case PrivateKey => return Ok(slot.(privateKey := value));
      case PublicKey => return Ok(slot.(publicKey := value));
      case PresharedKey => return Ok(slot.(presharedKey := value));
      case OtherKey => return Ok(slot);
    }
  }

  lemma ReadStep(lib: NetLibrary, r: Reading, lines: seq<string>, i: nat)
    requires i < |lines|
    ensures ScanLines(lib, r, lines[i..])
            == if |lines[i]| >= MAX_LINE then Err(LineTooLong)
               else match ReadLine(lib, r, lines[i]) case Err(e) => Err(e) case Ok(q) => ScanLines(lib, q,
                   lines[i + 1..])
  {
    assert lines[i..][0] == lines[i] && lines[i..][1..] == lines[i + 1..];
    hide ReadLine;
  }

  method ParseConf(lib: NetLibrary, name: string, raw: string) returns (result: Result<Slot, ConfError>)
    ensures result == ParsedConf(lib, name, raw)
  {
    hide Lines;
    hide SetField;
    hide KeyIn;
    hide Cut;
    hide Lower;
    hide TrimSpace;
    hide DeviceOf;
    hide SectionOf;
    hide IsComment;
    hide IsHeading;
    hide Uncommented;
    hide NewSlot;
    var slot, section := NewSlot(name), Elsewhere;
    var lines := Lines(raw);
    assert lines[0..] == lines && lines[|lines|..] == [];
    assert forall r :: ScanLines(lib, r, []) == Ok(r);
    hide ScanLines;
    for i := 0 to |lines|
      invariant ScanLines(lib, Reading(section, slot), lines[i..])
                == ScanLines(lib, Reading(Elsewhere, NewSlot(name)), lines)
    {
      ReadStep(lib, Reading(section, slot), lines, i);
      if |lines[i]| >= MAX_LINE { return Err(LineTooLong); }
      var line := TrimSpace(lines[i]);
      if line == "" { continue; }
      if IsComment(line) {
        var text := DeviceOf(line);
        if text.Some? && slot.device == "" {
          slot := slot.(device := text.value);
        }
        continue;
      }
      if IsHeading(line) {
        section := SectionOf(line);
        continue;
      }
      match Cut(line) {
        case None => return Err(Malformed);
        case Some((key, value)) =>
          var updated := WriteField(lib, slot, KeyIn(section, Lower(TrimSpace(key))), Uncommented(TrimSpace(value)));
          match updated {
            case Err(e) => return Err(e);
            case Ok(s) => slot := s;
          }
      }
    }
    return Finished(lib, slot);
  }

  lemma FormatStep(lib: NetLibrary, addrs: seq<Addr>, i: nat)
    requires i < |addrs|
    ensures FormatAddrs(lib, addrs[..i + 1]) == FormatAddrs(lib, addrs[..i]) + [lib.formatAddr(addrs[i])]
  {}

  method WriteAddrs(lib: NetLibrary, addrs: seq<Addr>) returns (texts: seq<string>)
    ensures texts == FormatAddrs(lib, addrs)
  {
    texts := [];
    for i := 0 to |addrs|
      invariant texts == FormatAddrs(lib, addrs[..i])
    {
      FormatStep(lib, addrs, i);
      texts := texts + [lib.formatAddr(addrs[i])];
    }
    assert addrs[..|addrs|] == addrs;
  }

  method WritePrefixes(lib: NetLibrary, prefixes: seq<Prefix>) returns (texts: seq<string>)
    ensures texts == FormatPrefixes(lib, prefixes)
  {
    texts := [];
    for i := 0 to |prefixes|
      invariant texts == FormatPrefixes(lib, prefixes[..i])
    {
      var more := texts + [lib.formatPrefix(prefixes[i])];
      assert more == FormatPrefixes(lib, prefixes[..i + 1]);
      texts := more;
    }
    assert prefixes[..|prefixes|] == prefixes;
  }

  /** The file, built line by line. */
  method RenderConf(lib: NetLibrary, slot: Slot) returns (text: string)
    ensures text == RenderedConf(lib, slot)
  {
    var addresses := WriteAddrs(lib, slot.addresses);
    var resolvers := WriteAddrs(lib, slot.dns);
    var allowed := WritePrefixes(lib, slot.allowedIPs);
    hide FormatAddrs;
    hide FormatPrefixes;
    hide Itoa;
    hide ListValue;
    hide NameOf;
    var lines := ["# Server: " + slot.source, "[Interface]"];
    lines := lines + [Setting(PrivateKey, slot.privateKey)];
    lines := lines + [Setting(Address, ListValue(addresses))];
    lines := lines + [Setting(DNS, ListValue(resolvers))];
    lines := lines + [Setting(MTU, Itoa(slot.mtu)), "", "[Peer]"];
    lines := lines + [Setting(PublicKey, slot.publicKey)];
    lines := lines + [Setting(AllowedIPs, ListValue(allowed))];
    lines := lines + [Setting(Endpoint, slot.endpoint)];
    hide Setting;
    assert lines == ConfLines(lib, slot);
    return Unlines(lines);
  }
}
