/** Slots whose written catalog files are not read back, or not recognised again. */
module CatalogLimits {
  import opened Common
  import opened Text
  import opened ConfCodec
  import opened Snapshot

  const ADDRESS: string := "10.5.0.2"

  const SERVER: string := "se1.example:51820"

  /** One address and one endpoint, read and printed as themselves. */
  function OneHost(): NetLibrary {
    NetLibrary(s => if s == ADDRESS then Some(Addr(0)) else None, _ => ADDRESS, _ => None, _ => "", _ => Addr(0),
               _ => Prefix(0), p => p, s => s == SERVER, [])
  }

  /** A slot as a provider may describe it, without a resolver. */
  function Unresolved(source: string): Slot {
    Slot("se1", "", "", "", "key", [Addr(0)], [], DEFAULT_MTU, "peer", "", SERVER, [], source)
  }

  lemma AddressIsPlain()
    ensures PlainItem(ADDRESS)
  {
    var s := ADDRESS;
    assert forall i :: 0 <= i < |s| ==> '0' <= s[i] <= '9' || s[i] == '.';
  }

  lemma UnresolvedIsWellFormed(source: string)
    requires '\n' !in source && '\r' !in source
    ensures WellFormed(OneHost(), Unresolved(source))
  {
    AddressIsPlain();
    hide PlainItem;
    assert PlainValue("key") && PlainValue("peer");
    var s := SERVER;
    assert forall i :: 0 <= i < |s| ==> '0' <= s[i] <= '9' || s[i] == '.' || s[i] == ':' || 'a' <= s[i] <= 'z';
    assert PlainValue(s);
    hide PlainValue;
  }

  lemma LinesAre(source: string)
    ensures ConfLines(OneHost(), Unresolved(source))
            == ["# Server: " + source, "[Interface]", "PrivateKey = key", "Address = " + ADDRESS, "DNS = ",
                "MTU = 1420", "", "[Peer]", "PublicKey = peer", "AllowedIPs = ", "Endpoint = " + SERVER]
  {
    var lib, slot := OneHost(), Unresolved(source);
    assert FormatAddrs(lib, slot.addresses[1..]) == [];
    assert FormatAddrs(lib, slot.addresses) == [ADDRESS] && FormatAddrs(lib, slot.dns) == [];
    assert Itoa(1420) == "1420" by { ItoaOfDefault(); }
    hide Itoa;
    hide FormatAddrs;
    assert FormatPrefixes(lib, slot.allowedIPs) == [];
    hide FormatPrefixes;
    assert Join([ADDRESS], ", ") == ADDRESS && Join([], ", ") == "";
    hide Join;
    assert Setting(PrivateKey, "key") == "PrivateKey = key" && Setting(PublicKey, "peer") == "PublicKey = peer";
    assert Setting(DNS, "") == "DNS = " && Setting(AllowedIPs, "") == "AllowedIPs = ";
    assert Setting(MTU, "1420") == "MTU = 1420";
    assert Setting(Address, ADDRESS) == "Address = " + ADDRESS && Setting(Endpoint, SERVER) == "Endpoint = " + SERVER;
    hide Setting;
  }

  lemma ItoaOfDefault()
    ensures Itoa(1420) == "1420"
  {
    assert NatDigits(1) == "1";
    assert NatDigits(14) == "14";
    assert NatDigits(142) == "142";
    assert NatDigits(1420) == "1420";
  }

  lemma NamedFile()
    ensures IDOf("se1.conf") == "se1"
  {
    var s := "se1.conf";
    assert s[|s| - 5..] == ".conf" && s[..|s| - 5] == "se1";
    assert TrimSuffix("se1", ".CONF") == "se1";
  }

  /** A slot without a resolver is written, and its file is refused. */
  lemma UnresolvedIsRefused()
    ensures WellFormed(OneHost(), Unresolved("api"))
    ensures ParsedConf(OneHost(), "se1.conf", RenderedConf(OneHost(), Unresolved("api"))) == Err(NoAddresses)
  {
    UnresolvedIsWellFormed("api");
    NamedFile();
    LinesAre("api");
    assert ShortLines(ConfLines(OneHost(), Unresolved("api")));
    hide ConfLines;
    ConfRoundTrip(OneHost(), "se1.conf", Unresolved("api"));
    hide ParsedConf;
    hide RenderedConf;
    hide WellFormed;
    hide IDOf;
  }

  /** So is any slot whose source description fills a line of the reader's buffer. */
  lemma LongSourceIsRefused(lib: NetLibrary, name: string, slot: Slot)
    requires WellFormed(lib, slot) && IDOf(name) != "" && |slot.source| >= MAX_LINE - 10
    ensures ParsedConf(lib, name, RenderedConf(lib, slot)).Err?
  {
    var lines := ConfLines(lib, slot);
    assert lines[0] == "# Server: " + slot.source;
    assert !ShortLines(lines);
    hide ConfLines;
    ConfRoundTrip(lib, name, slot);
    hide ParsedConf;
    hide RenderedConf;
    hide WellFormed;
    hide IDOf;
  }

  /** An ID with a line break. */
  function Broken(): Slot { Unresolved("api").(id := "se\n1", dns := [Addr(0)]) }

  lemma BrokenFile()
    ensures FileName(Broken()) == Some("se\n1.conf") && '\n' in "se\n1.conf"
  {
    var id, name := "se\n1", "se\n1.conf";
    assert forall i :: 0 <= i < |id| ==> id[i] in {'s', 'e', '\n', '1'};
    assert BaseName(Broken()) == id;
    hide BaseName;
    assert id + ".conf" == name && name[2] == '\n';
  }

  lemma NamesOfOne(slot: Slot, name: string)
    requires FileName(slot) == Some(name)
    ensures NamesOf([slot]) == Some([name])
  {
    hide FileName;
    assert NamesOf([slot][1..]) == Some([]);
    assert [name] + [] == [name];
  }

  lemma BreaksOne(lib: NetLibrary, slot: Slot, name: string)
    requires FileName(slot) == Some(name) && '\n' in name
    ensures NamesOf([slot]) == Some([name]) && !OwnedContent(SnapshotOf(lib, [slot], [name]))
  {
    hide FileName;
    hide NamesOf;
    hide OwnedContent;
    hide SnapshotOf;
    NamesOfOne(slot, name);
    WrittenIsOwned(lib, [slot]);
    assert name in [name];
  }

  /** A slot with such an ID is written, and the snapshot is not recognised again. */
  lemma BrokenIsNotOwned(lib: NetLibrary)
    ensures NamesOf([Broken()]) == Some(["se\n1.conf"])
    ensures !OwnedContent(SnapshotOf(lib, [Broken()], ["se\n1.conf"]))
  {
    hide *;
    BrokenFile();
    BreaksOne(lib, Broken(), "se\n1.conf");
  }
}
