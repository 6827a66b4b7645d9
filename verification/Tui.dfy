/** The terminal editor: its state and key handlers (src/tui/app.rs, src/tui/mod.rs). */
module Tui {
  import opened Common
  import opened Configuration
  import opened EditList
  import AddressText
  import Addresses

  datatype Tab = StatusTab | LinksTab | ServiceTab | PeersTab

  function TabAfter(tab: Tab): Tab
  {
    match tab
    case StatusTab => LinksTab
    case LinksTab => ServiceTab
    case ServiceTab => PeersTab
    case PeersTab => StatusTab
  }

  datatype Mode =
    | Normal
    | ChooseTemplate
    | AddLinkId | AddLinkDirection | AddLinkAddress
    | ConfirmRemoveLink
    | ConfirmServiceAction
    | AddPeerName | AddPeerPublicKey | AddPeerLinks
    | ConfirmRemovePeer

  datatype Key = Char(c: char) | Enter | Esc | TabKey | Backspace | Down | Up | Other

  predicate IsYes(key: Key)
  {
    key == Char('y') || key == Char('Y')
  }

  datatype ServiceAction = Start | Stop | Restart | Enable | Disable | InstallUnit | ViewLogs

  const SERVICE_MENU: seq<ServiceAction> := [Start, Stop, Restart, Enable, Disable, InstallUnit, ViewLogs]

  /** Only viewing logs leaves the system alone. */
  predicate NeedsConfirm(action: ServiceAction)
  {
    action != ViewLogs
  }

  datatype LinkTemplate = LinkTemplate(mode: LinkMode, defaultId: string, defaultPort: nat)

  const TEMPLATES: seq<LinkTemplate> := [
    LinkTemplate(Forward, "ssh", 22),
    LinkTemplate(Forward, "http", 80),
    LinkTemplate(Forward, "https", 443),
    LinkTemplate(Forward, "postgres", 5432),
    LinkTemplate(Forward, "mysql", 3306),
    LinkTemplate(Forward, "redis", 6379),
    LinkTemplate(Reverse, "dev", 3000),
    LinkTemplate(Reverse, "web", 8080)
  ]

  /** One past the last template: typing everything by hand. */
  const CUSTOM_INDEX: nat := 8
  const SERVICE_COUNT: nat := 7

  /** How writing the file ends: done, nothing touched, or broken off with the file damaged. */
  datatype WriteResult = Written | NotWritten | Torn

  // ----- Text input -----

  /** Unicode's White_Space property. */
  predicate IsWhitespace(c: char)
  {
    var n := c as int;
    || 9 <= n <= 13 || n == 32 || n == 0x85 || n == 0xA0 || n == 0x1680 || 0x2000 <= n <= 0x200A
    || n == 0x2028 || n == 0x2029 || n == 0x202F || n == 0x205F || n == 0x3000
  }

  function TrimStart(s: string): string
  {
    if s != [] && IsWhitespace(s[0]) then TrimStart(s[1..]) else s
  }

  function TrimEnd(s: string): string
  {
    if s != [] && IsWhitespace(s[|s| - 1]) then TrimEnd(s[..|s| - 1]) else s
  }

  function Trim(s: string): string
  {
    TrimEnd(TrimStart(s))
  }

  ghost predicate AllWhitespace(s: string)
  {
    forall i :: 0 <= i < |s| ==> IsWhitespace(s[i])
  }

  /** Trimming takes off whitespace at both ends, all of it and nothing else. */
  lemma TrimMeaning(s: string) returns (before: string, after: string)
    ensures s == before + Trim(s) + after && AllWhitespace(before) && AllWhitespace(after)
    ensures Trim(s) != "" ==> !IsWhitespace(Trim(s)[0]) && !IsWhitespace(Trim(s)[|Trim(s)| - 1])
  {
    before := TrimStartMeaning(s);
    after := TrimEndMeaning(TrimStart(s));
  }

  lemma {:induction false} TrimStartMeaning(s: string) returns (before: string)
    ensures s == before + TrimStart(s) && AllWhitespace(before)
    ensures TrimStart(s) != "" ==> !IsWhitespace(TrimStart(s)[0])
  {
    before := "";
    if s != "" && IsWhitespace(s[0]) {
      var rest := TrimStartMeaning(s[1..]);
      before := [s[0]] + rest;
      assert s == [s[0]] + s[1..];
    }
  }

  lemma {:induction false} TrimEndMeaning(s: string) returns (after: string)
    ensures s == TrimEnd(s) + after && AllWhitespace(after)
    ensures TrimEnd(s) != "" ==> TrimEnd(s)[0] == s[0] && !IsWhitespace(TrimEnd(s)[|TrimEnd(s)| - 1])
  {
    after := "";
    var n := |s| - 1;
    if s != "" && IsWhitespace(s[n]) {
      var rest := TrimEndMeaning(s[..n]);
      after := rest + [s[n]];
      assert s == s[..n] + [s[n]];
    }
  }

  function LocalAddress(port: nat): string
  {
    "127.0.0.1:" + AddressText.Decimal(port)
  }

  function OrEmpty(o: Option<string>): string
  {
    match o case Some(s) => s case None => ""
  }

  // ----- The configuration under edit -----

  function NameOf(peer: PeerConfig): string
  {
    peer.name
  }

  /** The wizard's link: over TCP, with the one address its mode and the role call for. */
  function NewLink(role: Role, id: string, mode: LinkMode, addr: string): LinkConfig
  {
    if LinkNeedsListen(role, mode) then LinkConfig(id, mode, Tcp, Some(addr), None)
    else LinkConfig(id, mode, Tcp, None, Some(addr))
  }

  /** The typed text after a character key or a backspace. */
  function Typed(text: string, key: Key): string
  {
    match key
    case Char(c) => text + [c]
    case Backspace => if text == "" then "" else text[..|text| - 1]
    case _ => text
  }

  predicate IsDown(key: Key)
  {
    key == Char('j') || key == Down
  }

  predicate IsUp(key: Key)
  {
    key == Char('k') || key == Up
  }

  /** The keys that choose a mode. */
  predicate ModeKey(mode: LinkMode, key: Key)
  {
    if mode == Forward then key == Char('f') || key == Char('F') else key == Char('r') || key == Char('R')
  }

  /** Where a cursor goes in a menu of `len` entries; other keys leave it. */
  function Stepped(cursor: nat, len: nat, key: Key): nat
    requires len > 0
  {
    if IsDown(key) then (cursor + 1) % len else if IsUp(key) then (cursor - 1) % len else cursor
  }

  /** The address an edit starts from. */
  function CurrentAddress(link: LinkConfig): string
  {
    OrEmpty(if link.listen.Some? then link.listen else link.target)
  }

  // ----- What keys and small texts mean, written out -----

  lemma KeysWrittenOut(key: Key, mode: LinkMode)
    ensures IsYes(key) <==> key == Char('y') || key == Char('Y')
    ensures IsDown(key) <==> key == Char('j') || key == Down
    ensures IsUp(key) <==> key == Char('k') || key == Up
    ensures ModeKey(Forward, key) <==> key == Char('f') || key == Char('F')
    ensures ModeKey(Reverse, key) <==> key == Char('r') || key == Char('R')
  {
  }

  /** Down goes one on and up one back, around the ends, and they undo each other; other keys leave the cursor alone. */
  lemma SteppedMeaning(cursor: nat, len: nat, key: Key)
    requires cursor < len
    ensures key == Char('j') || key == Down ==> Stepped(cursor, len, key) == if cursor + 1 == len then 0 else cursor + 1
    ensures key == Char('k') || key == Up ==> Stepped(cursor, len, key) == if cursor == 0 then len - 1 else cursor - 1
    ensures key !in {Char('j'), Char('k'), Down, Up} ==> Stepped(cursor, len, key) == cursor
  {
    if cursor + 1 < len {
      WithinRange(cursor + 1, len);
    }
    if cursor > 0 {
      WithinRange(cursor - 1, len);
    }
    AroundTheEnds(len);
  }

  lemma DownAndUpUndoEachOther(cursor: nat, len: nat)
    requires cursor < len
    ensures Stepped(Stepped(cursor, len, Down), len, Up) == cursor == Stepped(Stepped(cursor, len, Up), len, Down)
  {
    SteppedMeaning(cursor, len, Down);
    SteppedMeaning(cursor, len, Up);
    SteppedMeaning(Stepped(cursor, len, Down), len, Up);
    SteppedMeaning(Stepped(cursor, len, Up), len, Down);
  }

  lemma WithinRange(x: nat, len: nat)
    requires x < len
    ensures x % len == x
  {
  }

  lemma AroundTheEnds(len: nat)
    requires len > 0
    ensures len % len == 0 && -1 % len == len - 1
  {
  }

  /** A typed character goes to the end, backspace takes it off again, and other keys change nothing. */
  lemma TypedMeaning(text: string, c: char, key: Key)
    ensures Typed(text, Char(c)) == text + [c] && Typed(Typed(text, Char(c)), Backspace) == text && Typed("", Backspace) == ""
    ensures !key.Char? && key != Backspace ==> Typed(text, key) == text
  {
  }

  /** Only viewing logs runs unasked. */
  lemma AllButLogsAsk(action: ServiceAction)
    ensures NeedsConfirm(action) <==> action in {Start, Stop, Restart, Enable, Disable, InstallUnit}
  {
  }

  /** Tab goes through all four tabs in turn. */
  lemma TabsCycle()
    ensures TabAfter(StatusTab) == LinksTab && TabAfter(LinksTab) == ServiceTab
    ensures TabAfter(ServiceTab) == PeersTab && TabAfter(PeersTab) == StatusTab
  {
  }

  /** The wizard's link has the address where its role and mode call for one, and no other. */
  lemma NewLinkMeaning(role: Role, id: string, mode: LinkMode, addr: string)
    ensures var link := NewLink(role, id, mode, addr);
      && link.id == id && link.mode == mode && link.transport == Tcp
      && RequiredAddress(role, link) == Some(addr) && ForbiddenAddress(role, link) == None
  {
  }

  /** An edit starts from the address the link must have on this side. */
  lemma CurrentAddressMeaning(p: Parsers, role: Role, link: LinkConfig)
    requires LinkWellFormed(p, role, link)
    ensures Some(CurrentAddress(link)) == RequiredAddress(role, link)
  {
  }

  /** A template suggests its port on the loopback address, as that is printed. */
  lemma LocalAddressMeaning(six: AddressText.Text6, port: nat)
    ensures LocalAddress(port)
         == AddressText.PrintSocket(six, AddressText.SocketAddr(Addresses.V4(127, 0, 0, 1), port, 0))
  {
    assert AddressText.Decimal(12) == "12" && AddressText.Decimal(127) == "127";
    assert AddressText.Decimal(0) == "0" && AddressText.Decimal(1) == "1";
    assert AddressText.Print4(Addresses.V4(127, 0, 0, 1)) == "127.0.0.1";
  }

  ghost predicate AllLinksWellFormed(p: Parsers, role: Role, links: seq<LinkConfig>)
  {
    forall link :: link in links ==> LinkWellFormed(p, role, link)
  }

  ghost predicate AllKeysDecode(p: Parsers, peers: seq<PeerConfig>)
  {
    forall peer :: peer in peers ==> p.decodeKey(peer.publicKey).Some?
  }

  /** What no edit takes from the links that were loaded. */
  ghost predicate LinksKept(p: Parsers, role: Role, loaded: seq<LinkConfig>, links: seq<LinkConfig>)
  {
    && (DistinctIds(loaded) ==> DistinctIds(links))
    && (AllLinksWellFormed(p, role, loaded) ==> AllLinksWellFormed(p, role, links))
  }

  ghost predicate PeersKept(p: Parsers, loaded: seq<PeerConfig>, peers: seq<PeerConfig>)
  {
    && (DistinctKeys(loaded, NameOf) ==> DistinctKeys(peers, NameOf))
    && (AllKeysDecode(p, loaded) ==> AllKeysDecode(p, peers))
  }

  /** Edits touch links and peers only, and keep what was right about them. */
  ghost predicate ConfigKept(p: Parsers, loaded: Config, config: Config)
  {
    && config == loaded.(links := config.links, peers := config.peers)
    && LinksKept(p, loaded.role, loaded.links, config.links)
    && PeersKept(p, loaded.peers, config.peers)
  }

  lemma PlacedLinkKept(p: Parsers, loaded: Config, config: Config, original: Option<string>, link: LinkConfig,
                       links: seq<LinkConfig>)
    requires ConfigKept(p, loaded, config) && LinkWellFormed(p, config.role, link)
    requires links == Place(config.links, IdOf, original, link)
    ensures ConfigKept(p, loaded, config.(links := links))
  {
    PlaceMeaning(config.links, IdOf, original, link);
  }

  lemma RemovedLinkKept(p: Parsers, loaded: Config, config: Config, i: nat, links: seq<LinkConfig>)
    requires ConfigKept(p, loaded, config) && i < |config.links| && links == RemoveAt(config.links, i)
    ensures ConfigKept(p, loaded, config.(links := links))
  {
    RemoveAtMeaning(config.links, IdOf, i);
  }

  lemma PlacedPeerKept(p: Parsers, loaded: Config, config: Config, original: Option<string>, peer: PeerConfig,
                       peers: seq<PeerConfig>)
    requires ConfigKept(p, loaded, config) && p.decodeKey(peer.publicKey).Some?
    requires peers == Place(config.peers, NameOf, original, peer)
    ensures ConfigKept(p, loaded, config.(peers := peers))
  {
    PlaceMeaning(config.peers, NameOf, original, peer);
  }

  lemma RemovedPeerKept(p: Parsers, loaded: Config, config: Config, i: nat, peers: seq<PeerConfig>)
    requires ConfigKept(p, loaded, config) && i < |config.peers| && peers == RemoveAt(config.peers, i)
    ensures ConfigKept(p, loaded, config.(peers := peers))
  {
    RemoveAtMeaning(config.peers, NameOf, i);
  }

  /** What a key can do to the configuration. */
  datatype Edit =
    | PlaceLink(editing: Option<string>, link: LinkConfig)
    | RemoveLink(linkAt: nat)
    | PlacePeer(editingPeer: Option<string>, peer: PeerConfig)
    | RemovePeer(peerAt: nat)

  /** An edit the wizards and the removal prompts can make. */
  predicate Allowed(p: Parsers, config: Config, e: Edit)
  {
    match e
    case PlaceLink(_, link) => LinkWellFormed(p, config.role, link) && link.transport == Tcp
    case RemoveLink(i) => i < |config.links|
    case PlacePeer(_, peer) => config.role == Server && p.decodeKey(peer.publicKey).Some?
    case RemovePeer(i) => i < |config.peers|
  }

  function Edited(p: Parsers, config: Config, e: Edit): Config
    requires Allowed(p, config, e)
  {
    match e
    case PlaceLink(editing, link) => config.(links := Place(config.links, IdOf, editing, link))
    case RemoveLink(i) => config.(links := RemoveAt(config.links, i))
    case PlacePeer(editing, peer) => config.(peers := Place(config.peers, NameOf, editing, peer))
    case RemovePeer(i) => config.(peers := RemoveAt(config.peers, i))
  }

  lemma LinkPlaced(p: Parsers, config: Config, editing: Option<string>, link: LinkConfig, after: Config)
    requires Allowed(p, config, PlaceLink(editing, link))
    requires after == config.(links := Place(config.links, IdOf, editing, link))
    ensures after == Edited(p, config, PlaceLink(editing, link)) && after.peers == config.peers
    ensures Position(after.links, IdOf, link.id) < |after.links|
  {
    PlaceMeaning(config.links, IdOf, editing, link);
  }

  lemma PeerPlaced(p: Parsers, config: Config, editing: Option<string>, peer: PeerConfig, after: Config)
    requires Allowed(p, config, PlacePeer(editing, peer))
    requires after == config.(peers := Place(config.peers, NameOf, editing, peer))
    ensures after == Edited(p, config, PlacePeer(editing, peer)) && after.links == config.links
    ensures Position(after.peers, NameOf, peer.name) < |after.peers|
  {
    PlaceMeaning(config.peers, NameOf, editing, peer);
  }

  /** The configuration in memory, whether it is marked unsaved, and what the file holds: nothing readable once torn. */
  datatype Store = Store(config: Config, dirty: bool, file: Option<Config>)

  datatype Event = Changed(edit: Edit) | Saved(write: WriteResult)

  ghost predicate Happens(p: Parsers, before: Store, event: Event)
  {
    event.Changed? ==> Allowed(p, before.config, event.edit)
  }

  /** Saving validates first; what fails is not written at all. */
  ghost function NextStore(p: Parsers, before: Store, event: Event): Store
    requires Happens(p, before, event)
  {
    match event
    case Changed(edit) => Store(Edited(p, before.config, edit), true, before.file)
    case Saved(write) =>
      if !WellFormed(p, before.config) || write == NotWritten then before
      else if write == Written then Store(before.config, false, Some(before.config))
      else before.(file := None)
  }

  ghost predicate Leads(p: Parsers, before: Store, event: Event, after: Store)
  {
    Happens(p, before, event) && after == NextStore(p, before, event)
  }

  /** `store` is what the events make of a loaded configuration. */
  ghost predicate Reached(p: Parsers, loaded: Config, events: seq<Event>, store: Store)
  {
    if events == [] then store == Store(loaded, false, Some(loaded))
    else
      exists before {:trigger Leads(p, before, events[|events| - 1], store)} ::
        Reached(p, loaded, events[..|events| - 1], before) && Leads(p, before, events[|events| - 1], store)
  }

  lemma SaveLeads(p: Parsers, before: Store, fit: bool, write: WriteResult, after: Store)
    requires fit <==> WellFormed(p, before.config)
    requires after == if !fit || write == NotWritten then before
                      else if write == Written then Store(before.config, false, Some(before.config))
                      else before.(file := None)
    ensures Leads(p, before, Saved(write), after)
  {
  }

  lemma ReachedNext(p: Parsers, loaded: Config, events: seq<Event>, store: Store, event: Event, after: Store)
    requires Reached(p, loaded, events, store) && Leads(p, store, event, after)
    ensures Reached(p, loaded, events + [event], after)
  {
    var longer := events + [event];
    assert longer[..|longer| - 1] == events && longer[|longer| - 1] == event;
    assert Leads(p, store, longer[|longer| - 1], after);
  }

  /** Whatever happens, the editor touches links and peers only, and keeps what was right about the loaded ones. */
  lemma {:induction false} ConfigIsKept(p: Parsers, loaded: Config, events: seq<Event>, store: Store)
    requires Reached(p, loaded, events, store)
    ensures ConfigKept(p, loaded, store.config)
  {
    if events != [] {
      var last := events[|events| - 1];
      var before :| Reached(p, loaded, events[..|events| - 1], before) && Leads(p, before, last, store);
      ConfigIsKept(p, loaded, events[..|events| - 1], before);
      if last.Changed? {
        EditKeeps(p, loaded, before.config, last.edit, store.config);
      }
    }
  }

  lemma EditKeeps(p: Parsers, loaded: Config, config: Config, e: Edit, after: Config)
    requires ConfigKept(p, loaded, config) && Allowed(p, config, e) && after == Edited(p, config, e)
    ensures ConfigKept(p, loaded, after)
  {
    match e
    case PlaceLink(editing, link) => PlacedLinkKept(p, loaded, config, editing, link, after.links);
    case RemoveLink(i) => RemovedLinkKept(p, loaded, config, i, after.links);
    case PlacePeer(editing, peer) => PlacedPeerKept(p, loaded, config, editing, peer, after.peers);
    case RemovePeer(i) => RemovedPeerKept(p, loaded, config, i, after.peers);
  }

  /** The configuration in memory after some events. */
  function Configured(p: Parsers, loaded: Config, events: seq<Event>): Config
  {
    if events == [] then loaded
    else
      var before, last := Configured(p, loaded, events[..|events| - 1]), events[|events| - 1];
      if last.Changed? && Allowed(p, before, last.edit) then Edited(p, before, last.edit) else before
  }

  /** How the last save that got as far as writing ended: only a well-formed configuration is written. */
  ghost function LastWrite(p: Parsers, loaded: Config, events: seq<Event>): Option<WriteResult>
  {
    if events == [] then None
    else
      var earlier, last := events[..|events| - 1], events[|events| - 1];
      if last.Saved? && last.write != NotWritten && WellFormed(p, Configured(p, loaded, earlier)) then Some(last.write)
      else LastWrite(p, loaded, earlier)
  }

  /**
   * The file is damaged exactly when the last write broke off; otherwise it is the loaded one or a well-formed one, and
   * what the editor calls clean is what it holds.
   */
  lemma {:induction false} FileDamagedIff(p: Parsers, loaded: Config, events: seq<Event>, store: Store)
    requires Reached(p, loaded, events, store)
    ensures store.config == Configured(p, loaded, events)
    ensures store.file.None? <==> LastWrite(p, loaded, events) == Some(Torn)
    ensures store.file.Some? ==> store.file.value == loaded || WellFormed(p, store.file.value)
    ensures !store.dirty && store.file.Some? ==> store.file.value == store.config
  {
    if events != [] {
      var earlier, last := events[..|events| - 1], events[|events| - 1];
      var before :| Reached(p, loaded, earlier, before) && Leads(p, before, last, store);
      FileDamagedIff(p, loaded, earlier, before);
    }
  }

  /** A clean editor agrees with its file exactly when the last write did not break off. */
  lemma CleanAgreesIff(p: Parsers, loaded: Config, events: seq<Event>, store: Store)
    requires Reached(p, loaded, events, store) && !store.dirty
    ensures store.file == Some(store.config) <==> LastWrite(p, loaded, events) != Some(Torn)
  {
    FileDamagedIff(p, loaded, events, store);
  }

  /** Nothing is marked unsaved when a write breaks off: a clean, well-formed editor stays clean beside a damaged file. */
  lemma TornWriteStaysClean(p: Parsers, loaded: Config)
    requires WellFormed(p, loaded)
    ensures Reached(p, loaded, [Saved(Torn)], Store(loaded, false, None))
  {
    var start := Store(loaded, false, Some(loaded));
    assert Reached(p, loaded, [], start);
    ReachedNext(p, loaded, [], start, Saved(Torn), Store(loaded, false, None));
    assert [] + [Saved(Torn)] == [Saved(Torn)];
  }

  /** `id` taken out where it first stands, or else added last. */
  function Toggled(checked: seq<string>, id: string): seq<string>
  {
    if id in checked then WithoutFirst(checked, id) else checked + [id]
  }

  function WithoutFirst(checked: seq<string>, id: string): seq<string>
  {
    if checked == [] then [] else if checked[0] == id then checked[1..] else [checked[0]] + WithoutFirst(checked[1..], id)
  }

  lemma {:induction false} WithoutFirstKeeps(checked: seq<string>, id: string)
    ensures forall x :: x in checked && x != id ==> x in WithoutFirst(checked, id)
    ensures forall x :: x in WithoutFirst(checked, id) ==> x in checked
    ensures Distinct(checked) ==> Distinct(WithoutFirst(checked, id)) && id !in WithoutFirst(checked, id)
  {
    if checked != [] {
      WithoutFirstKeeps(checked[1..], id);
      assert checked == [checked[0]] + checked[1..];
      var rest := WithoutFirst(checked[1..], id);
      assert forall j :: 0 <= j < |rest| ==> rest[j] in rest;
    }
  }

  /** Toggling changes the one link, keeps a list without repeats so, and toggling again changes it back. */
  lemma ToggleChangesOne(checked: seq<string>, id: string)
    requires Distinct(checked)
    ensures var t := Toggled(checked, id);
      && Distinct(t) && (id in t <==> id !in checked)
      && (forall other :: other != id ==> (other in t <==> other in checked))
      && (forall x :: x in Toggled(t, id) <==> x in checked)
  {
    WithoutFirstKeeps(checked, id);
    WithoutFirstKeeps(checked + [id], id);
  }

  /** A list cursor is on an entry, or at the top of an empty list. */
  predicate InRange(cursor: nat, len: nat)
  {
    cursor < len || cursor == 0
  }

  predicate CursorsFit(config: Config, link: nat, peer: nat, template: nat, service: nat)
  {
    InRange(link, |config.links|) && InRange(peer, |config.peers|) && template <= CUSTOM_INDEX && service < SERVICE_COUNT
  }

  /** What the link wizard has gathered. `editing` is the id of the link under edit, `defaultAddress` the suggestion. */
  datatype LinkWizard = LinkWizard(
    id: Option<string>,
    mode: Option<LinkMode>,
    defaultAddress: Option<string>,
    editing: Option<string>)

  const NO_LINK := LinkWizard(None, None, None, None)

  /** What the peer wizard has gathered; `cursor` is on the checklist of links. */
  datatype PeerWizard = PeerWizard(
    name: Option<string>,
    publicKey: Option<string>,
    defaultKey: Option<string>,
    links: seq<string>,
    cursor: nat,
    editing: Option<string>)

  const NO_PEER := PeerWizard(None, None, None, [], 0, None)

  /** Each step of the link wizard finds what the steps before it have gathered. */
  predicate LinkStepFits(mode: Mode, config: Config, selected: nat, w: LinkWizard)
  {
    && (mode.AddLinkDirection? || mode.AddLinkAddress? ==> w.id.Some?)
    && (mode.AddLinkAddress? ==> w.mode.Some?)
    && (mode.ConfirmRemoveLink? ==> selected < |config.links|)
  }

  predicate PeerStepFits(p: Parsers, mode: Mode, config: Config, selected: nat, w: PeerWizard)
  {
    && (mode.AddPeerName? || mode.AddPeerPublicKey? || mode.AddPeerLinks? ==> config.role == Server)
    && (mode.AddPeerPublicKey? || mode.AddPeerLinks? ==> w.name.Some?)
    && (mode.AddPeerLinks? ==>
          w.publicKey.Some? && p.decodeKey(w.publicKey.value).Some? && InRange(w.cursor, |config.links|))
    && (mode.ConfirmRemovePeer? ==> selected < |config.peers|)
  }

  // ----- What one key does, from what is on the screen -----

  /** What the editor shows and has gathered when a key arrives. */
  datatype Screen = Screen(
    tab: Tab,
    mode: Mode,
    input: string,
    link: nat,
    peer: nat,
    menu: nat,
    linkWizard: LinkWizard,
    peerWizard: PeerWizard,
    action: Option<ServiceAction>)

  /** The wizards have what their step needs. */
  predicate Ready(x: Screen)
  {
    && (x.mode.AddLinkAddress? ==> x.linkWizard.id.Some? && x.linkWizard.mode.Some?)
    && (x.mode.AddPeerLinks? ==> x.peerWizard.name.Some? && x.peerWizard.publicKey.Some?)
    && (x.mode.ConfirmServiceAction? ==> x.action.Some?)
    && x.menu < SERVICE_COUNT
  }

  function WizardEdit(role: Role, x: Screen): Edit
    requires x.linkWizard.id.Some? && x.linkWizard.mode.Some?
  {
    PlaceLink(x.linkWizard.editing, NewLink(role, x.linkWizard.id.value, x.linkWizard.mode.value, Trim(x.input)))
  }

  function ChecklistEdit(w: PeerWizard): Edit
    requires w.name.Some? && w.publicKey.Some?
  {
    PlacePeer(w.editing, PeerConfig(w.name.value, w.publicKey.value, w.links))
  }

  /** The event a key makes; most keys make none. */
  function StepFor(p: Parsers, role: Role, x: Screen, key: Key, write: WriteResult): Option<Event>
    requires Ready(x)
  {
    match x.mode
    case AddLinkAddress =>
      if key == Enter && Trim(x.input) != "" && p.isSocketAddr(Trim(x.input)) then Some(Changed(WizardEdit(role, x))) else None
    case AddPeerLinks => if key == Enter then Some(Changed(ChecklistEdit(x.peerWizard))) else None
    case ConfirmRemoveLink => if IsYes(key) then Some(Changed(RemoveLink(x.link))) else None
    case ConfirmRemovePeer => if IsYes(key) then Some(Changed(RemovePeer(x.peer))) else None
    case Normal => if (x.tab == LinksTab || x.tab == PeersTab) && key == Char('s') then Some(Saved(write)) else None
    case _ => None
  }

  function RunsFor(x: Screen, key: Key): seq<ServiceAction>
    requires Ready(x)
  {
    if x.mode == Normal && x.tab == ServiceTab && key == Enter && !NeedsConfirm(SERVICE_MENU[x.menu]) then [SERVICE_MENU[x.menu]]
    else if x.mode == ConfirmServiceAction && IsYes(key) then [x.action.value]
    else []
  }

  /** What edits the configuration, written out: y or Y at a removal prompt, Enter on a good address or on the checklist. */
  ghost predicate ConfigEffect(p: Parsers, was: Config, x: Screen, key: Key, now: Config)
    requires Ready(x)
  {
    match x.mode
    case ConfirmRemoveLink =>
      if key == Char('y') || key == Char('Y')
      then x.link < |was.links| && now == was.(links := was.links[..x.link] + was.links[x.link + 1..])
      else now == was
    case ConfirmRemovePeer =>
      if key == Char('y') || key == Char('Y')
      then x.peer < |was.peers| && now == was.(peers := was.peers[..x.peer] + was.peers[x.peer + 1..])
      else now == was
    case AddLinkAddress =>
      if key == Enter && Trim(x.input) != "" && p.isSocketAddr(Trim(x.input))
      then
        now == was.(links := Place(was.links, IdOf, x.linkWizard.editing,
                                   NewLink(was.role, x.linkWizard.id.value, x.linkWizard.mode.value, Trim(x.input))))
      else now == was
    case AddPeerLinks =>
      if key == Enter
      then
        now == was.(peers := Place(was.peers, NameOf, x.peerWizard.editing,
                                   PeerConfig(x.peerWizard.name.value, x.peerWizard.publicKey.value, x.peerWizard.links)))
      else now == was
    case _ => now == was
  }

  /** The keys after which the configuration is marked unsaved. */
  predicate Edits(p: Parsers, x: Screen, key: Key)
  {
    match x.mode
    case ConfirmRemoveLink => key == Char('y') || key == Char('Y')
    case ConfirmRemovePeer => key == Char('y') || key == Char('Y')
    case AddLinkAddress => key == Enter && Trim(x.input) != "" && p.isSocketAddr(Trim(x.input))
    case AddPeerLinks => key == Enter
    case _ => false
  }

  /** The file and the mark, written out: only s on a list tab writes, and only what is well formed. */
  ghost predicate FileEffect(p: Parsers, was: Store, x: Screen, key: Key, write: WriteResult, now: Store)
  {
    if x.mode == Normal && (x.tab == LinksTab || x.tab == PeersTab) && key == Char('s') && WellFormed(p, was.config) then
      match write
      case Written => now.file == Some(was.config) && !now.dirty
      case NotWritten => now.file == was.file && now.dirty == was.dirty
      case Torn => now.file == None && now.dirty == was.dirty
    else now.file == was.file && now.dirty == (was.dirty || Edits(p, x, key))
  }

  /** What is run on the system, written out: y or Y at the prompt, and Enter on viewing logs. */
  predicate SystemEffect(x: Screen, key: Key, was: seq<ServiceAction>, now: seq<ServiceAction>)
    requires Ready(x)
  {
    if x.mode == ConfirmServiceAction && (key == Char('y') || key == Char('Y')) then now == was + [x.action.value]
    else if x.mode == Normal && x.tab == ServiceTab && key == Enter && SERVICE_MENU[x.menu] == ViewLogs then now == was + [ViewLogs]
    else now == was
  }

  ghost predicate KeyEffect(p: Parsers, was: Store, x: Screen, key: Key, write: WriteResult, now: Store,
                            ranBefore: seq<ServiceAction>, ranNow: seq<ServiceAction>)
    requires Ready(x)
  {
    && ConfigEffect(p, was.config, x, key, now.config)
    && FileEffect(p, was, x, key, write, now)
    && SystemEffect(x, key, ranBefore, ranNow)
  }

  /** `now` is what `event`, or nothing, makes of `was`. */
  ghost predicate Became(p: Parsers, was: Store, event: Option<Event>, now: Store)
  {
    match event
    case None => now == was
    case Some(e) => Happens(p, was, e) && now == NextStore(p, was, e)
  }

  /** The event of a key has exactly the written-out effect on configuration, mark and file. */
  lemma EventHasEffect(p: Parsers, was: Store, x: Screen, key: Key, write: WriteResult, now: Store)
    requires Ready(x) && Became(p, was, StepFor(p, was.config.role, x, key, write), now)
    ensures ConfigEffect(p, was.config, x, key, now.config) && FileEffect(p, was, x, key, write, now)
  {
  }

  lemma KeyFollows(p: Parsers, was: Store, x: Screen, key: Key, write: WriteResult, now: Store,
                   ranBefore: seq<ServiceAction>, ranNow: seq<ServiceAction>)
    requires Ready(x) && Became(p, was, StepFor(p, was.config.role, x, key, write), now)
    requires ranNow == ranBefore + RunsFor(x, key)
    ensures KeyEffect(p, was, x, key, write, now, ranBefore, ranNow)
  {
    EventHasEffect(p, was, x, key, write, now);
  }

  // ----- The editor -----

  class App {
    const parsers: Parsers
    var config: Config
    var dirty: bool
    var tab: Tab
    var mode: Mode
    var inputBuffer: string
    var linksSelected: nat
    var templateSelected: nat
    var serviceMenuSelected: nat
    var pendingServiceAction: Option<ServiceAction>
    var shouldQuit: bool
    var pendingLink: LinkWizard
    var peersSelected: nat
    var pendingPeer: PeerWizard
    /** Actions run on the system so far. */
    var ran: seq<ServiceAction>
    /** What the file holds now. */
    ghost var file: Option<Config>

    ghost predicate Valid()
      reads this
    {
      && CursorsFit(config, linksSelected, peersSelected, templateSelected, serviceMenuSelected)
      && LinkStepFits(mode, config, linksSelected, pendingLink)
      && PeerStepFits(parsers, mode, config, peersSelected, pendingPeer)
      && (pendingServiceAction.Some? <==> mode.ConfirmServiceAction?)
      && (pendingServiceAction.Some? ==> NeedsConfirm(pendingServiceAction.value))
    }

    ghost function Model(): Store
      reads this`config, this`dirty, this`file
    {
      Store(config, dirty, file)
    }

    function Shown(): Screen
      reads this
    {
      Screen(tab, mode, inputBuffer, linksSelected, peersSelected, serviceMenuSelected, pendingLink, pendingPeer,
             pendingServiceAction)
    }

    constructor (parsers: Parsers, loaded: Config)
      ensures Valid() && mode == Normal && tab == StatusTab && !dirty && !shouldQuit && ran == []
      ensures this.parsers == parsers && config == loaded && file == Some(loaded)
    {
      this.parsers := parsers;
      config, dirty, file := loaded, false, Some(loaded);
      tab, mode, inputBuffer, shouldQuit, ran := StatusTab, Normal, "", false, [];
      linksSelected, templateSelected, serviceMenuSelected, peersSelected := 0, 0, 0, 0;
      pendingServiceAction, pendingLink, pendingPeer := None, NO_LINK, NO_PEER;
    }

    /** Configuration, mark and file have changed by this event alone, or not at all. */
    twostate predicate Moves(new step: Option<Event>)
      reads this
    {
      Became(parsers, old(Model()), step, Model())
    }

    method NextTab()
      modifies this`tab
      ensures tab == TabAfter(old(tab))
    {
      tab := TabAfter(tab);
    }

    // ----- Links -----

    method MoveLinkSelection(delta: int)
      requires Valid()
      modifies this`linksSelected
      ensures linksSelected == if config.links == [] then old(linksSelected) else (old(linksSelected) + delta) % |config.links|
      ensures Valid()
    {
      if config.links != [] {
        linksSelected := (linksSelected + delta) % |config.links|;
      }
    }

    method BeginAddLink()
      requires Valid() && mode == Normal
      modifies this`pendingLink, this`templateSelected, this`inputBuffer, this`mode
      ensures Valid() && mode == ChooseTemplate && templateSelected == 0 && inputBuffer == "" && pendingLink == NO_LINK
    {
      pendingLink, templateSelected, inputBuffer, mode := NO_LINK, 0, "", ChooseTemplate;
    }

    /** The wizard as it starts on an existing link. */
    ghost predicate EditsLink(link: LinkConfig)
      reads this`pendingLink, this`inputBuffer
    {
      inputBuffer == link.id && pendingLink == LinkWizard(None, None, Some(CurrentAddress(link)), Some(link.id))
    }

    method BeginEditLink()
      requires Valid() && mode == Normal && linksSelected < |config.links|
      modifies this`pendingLink, this`inputBuffer, this`mode
      ensures Valid() && mode == AddLinkId
      ensures EditsLink(config.links[linksSelected])
    {
      var link := config.links[linksSelected];
      pendingLink, inputBuffer, mode := LinkWizard(None, None, Some(CurrentAddress(link)), Some(link.id)), link.id, AddLinkId;
    }

    method MoveTemplateSelection(delta: int)
      modifies this`templateSelected
      ensures templateSelected == (old(templateSelected) + delta) % (CUSTOM_INDEX + 1)
    {
      templateSelected := (templateSelected + delta) % (CUSTOM_INDEX + 1);
    }

    method ConfirmTemplateChoice()
      requires Valid() && mode == ChooseTemplate
      modifies this`inputBuffer, this`pendingLink, this`mode
      ensures Valid() && mode == AddLinkId
      ensures templateSelected == CUSTOM_INDEX ==> inputBuffer == "" && pendingLink == old(pendingLink)
      ensures templateSelected < CUSTOM_INDEX ==>
                var t := TEMPLATES[templateSelected];
                && inputBuffer == t.defaultId
                && pendingLink == old(pendingLink).(mode := Some(t.mode), defaultAddress := Some(LocalAddress(t.defaultPort)))
    {
      if templateSelected == CUSTOM_INDEX {
        inputBuffer := "";
      } else {
        var t := TEMPLATES[templateSelected];
        pendingLink := pendingLink.(mode := Some(t.mode), defaultAddress := Some(LocalAddress(t.defaultPort)));
        inputBuffer := t.defaultId;
      }
      mode := AddLinkId;
    }

    /** A template has fixed the mode; otherwise it is asked for next. */
    method ConfirmLinkId()
      requires Valid() && mode == AddLinkId
      modifies this`pendingLink, this`inputBuffer, this`mode
      ensures Valid()
      ensures Trim(old(inputBuffer)) == "" ==> mode == Normal && inputBuffer == "" && pendingLink == NO_LINK
      ensures Trim(old(inputBuffer)) != "" ==>
                && pendingLink == old(pendingLink).(id := Some(Trim(old(inputBuffer))))
                && (if pendingLink.mode.Some? then mode == AddLinkAddress && inputBuffer == OrEmpty(pendingLink.defaultAddress)
                    else mode == AddLinkDirection && inputBuffer == "")
    {
      var id := Trim(inputBuffer);
      if id == "" {
        CancelLinkWizard();
        return;
      }
      pendingLink := pendingLink.(id := Some(id));
      if pendingLink.mode.Some? {
        inputBuffer, mode := OrEmpty(pendingLink.defaultAddress), AddLinkAddress;
      } else {
        inputBuffer, mode := "", AddLinkDirection;
      }
    }

    method ChooseLinkMode(linkMode: LinkMode)
      requires Valid() && mode == AddLinkDirection
      modifies this`pendingLink, this`inputBuffer, this`mode
      ensures Valid() && mode == AddLinkAddress
      ensures pendingLink == old(pendingLink).(mode := Some(linkMode)) && inputBuffer == OrEmpty(pendingLink.defaultAddress)
    {
      pendingLink := pendingLink.(mode := Some(linkMode));
      inputBuffer, mode := OrEmpty(pendingLink.defaultAddress), AddLinkAddress;
    }

    /** Whether Enter at the address step adds the link. */
    predicate AddressAccepted()
      reads this`inputBuffer
    {
      Trim(inputBuffer) != "" && parsers.isSocketAddr(Trim(inputBuffer))
    }

    /** The edit it then makes. */
    function LinkEdit(): Edit
      requires pendingLink.id.Some? && pendingLink.mode.Some?
      reads this
    {
      WizardEdit(config.role, Shown())
    }

    /**
     * Enter at the address step: an empty address gives up, an address that does not parse stays at the step, any other
     * puts the link in its place. By the mode's invariant the id and the mode are there.
     */
    method ConfirmLinkAddress()
      requires Valid() && mode == AddLinkAddress
      modifies this`config, this`dirty, this`linksSelected, this`mode, this`inputBuffer, this`pendingLink
      ensures Valid()
      ensures old(AddressAccepted()) ==>
                && Moves(Some(Changed(old(LinkEdit())))) && mode == Normal && dirty
                && config == old(config).(links := Place(old(config).links, IdOf, old(pendingLink).editing,
                                                         NewLink(old(config).role, old(pendingLink).id.value,
                                                                 old(pendingLink).mode.value, Trim(old(inputBuffer)))))
                && linksSelected == Position(config.links, IdOf, old(pendingLink.id.value))
      ensures !old(AddressAccepted()) ==> Moves(None) && linksSelected == old(linksSelected)
      ensures !old(AddressAccepted()) && Trim(old(inputBuffer)) != "" ==>
                mode == AddLinkAddress && inputBuffer == old(inputBuffer) && pendingLink == old(pendingLink)
      ensures Trim(old(inputBuffer)) == "" ==> mode == Normal
    {
      var addr := Trim(inputBuffer);
      if addr == "" {
        inputBuffer, mode, pendingLink := "", Normal, NO_LINK;
        return;
      }
      if !parsers.isSocketAddr(addr) {
        return;
      }
      ghost var edit := LinkEdit();
      var link := NewLink(config.role, pendingLink.id.value, pendingLink.mode.value, addr);
      var editing := pendingLink.editing;
      inputBuffer, mode, pendingLink := "", Normal, NO_LINK;
      PutLink(editing, link, edit);
    }

    /** The part of the address step that changes the list. */
    method PutLink(editing: Option<string>, link: LinkConfig, ghost edit: Edit)
      requires Valid() && mode == Normal && edit == PlaceLink(editing, link) && Allowed(parsers, config, edit)
      modifies this`config, this`dirty, this`linksSelected
      ensures Valid() && Moves(Some(Changed(edit))) && linksSelected == Position(config.links, IdOf, link.id)
    {
      var after := config.(links := Place(config.links, IdOf, editing, link));
      LinkPlaced(parsers, config, editing, link, after);
      config, dirty := after, true;
      linksSelected := Position(after.links, IdOf, link.id);
    }

    method CancelLinkWizard()
      requires Valid() && mode in {ChooseTemplate, AddLinkId, AddLinkDirection, AddLinkAddress}
      modifies this`pendingLink, this`inputBuffer, this`mode
      ensures Valid() && mode == Normal && inputBuffer == "" && pendingLink == NO_LINK
    {
      pendingLink, inputBuffer, mode := NO_LINK, "", Normal;
    }

    method RemoveSelectedLink()
      requires Valid() && mode == ConfirmRemoveLink
      modifies this`config, this`dirty, this`linksSelected, this`mode
      ensures Valid() && mode == Normal && Moves(Some(Changed(RemoveLink(old(linksSelected))))) && dirty
      ensures config == old(config).(links := old(config).links[..old(linksSelected)] + old(config).links[old(linksSelected) + 1..])
      ensures linksSelected == if old(linksSelected) == 0 then 0 else old(linksSelected) - 1
    {
      var links := RemoveAt(config.links, linksSelected);
      config, dirty := config.(links := links), true;
      linksSelected := if linksSelected == 0 then 0 else linksSelected - 1;
      mode := Normal;
    }

    /** Validates, then writes. The file changes only if the configuration is well formed. */
    method SaveConfig(write: WriteResult)
      requires Valid()
      modifies this`dirty, this`file
      ensures Valid() && Leads(parsers, Store(config, old(dirty), old(file)), Saved(write), Store(config, dirty, file))
      ensures file == if !WellFormed(parsers, config) || write == NotWritten then old(file)
                      else if write == Written then Some(config) else None
      ensures dirty == (old(dirty) && !(WellFormed(parsers, config) && write == Written))
    {
      var fit := IsFit(config);
      if fit {
        match write
        case Written => file, dirty := Some(config), false;
        case NotWritten =>
        case Torn => file := None;
      }
      SaveLeads(parsers, Store(config, old(dirty), old(file)), fit, write, Store(config, dirty, file));
    }

    method IsFit(config: Config) returns (fit: bool)
      ensures fit <==> WellFormed(parsers, config)
    {
      var errors := Validate(parsers, config);
      fit := errors == [];
    }

    // ----- Peers -----

    method MovePeerSelection(delta: int)
      requires Valid()
      modifies this`peersSelected
      ensures peersSelected == if config.peers == [] then old(peersSelected) else (old(peersSelected) + delta) % |config.peers|
      ensures Valid()
    {
      if config.peers != [] {
        peersSelected := (peersSelected + delta) % |config.peers|;
      }
    }

    /** Peers are a server's business. */
    method BeginAddPeer()
      requires Valid() && mode == Normal
      modifies this`pendingPeer, this`inputBuffer, this`mode
      ensures Valid() && mode == (if config.role == Server then AddPeerName else Normal)
      ensures config.role == Server ==> inputBuffer == "" && pendingPeer == NO_PEER
    {
      if config.role == Server {
        pendingPeer, inputBuffer, mode := NO_PEER, "", AddPeerName;
      }
    }

    method BeginEditPeer()
      requires Valid() && mode == Normal && peersSelected < |config.peers|
      modifies this`pendingPeer, this`inputBuffer, this`mode
      ensures Valid() && mode == (if config.role == Server then AddPeerName else Normal)
      ensures config.role == Server ==>
                var peer := config.peers[peersSelected];
                && inputBuffer == peer.name
                && pendingPeer == PeerWizard(None, None, Some(peer.publicKey), peer.links, 0, Some(peer.name))
    {
      if config.role == Server {
        var peer := config.peers[peersSelected];
        pendingPeer := PeerWizard(None, None, Some(peer.publicKey), peer.links, 0, Some(peer.name));
        inputBuffer, mode := peer.name, AddPeerName;
      }
    }

    method ConfirmPeerName()
      requires Valid() && mode == AddPeerName
      modifies this`pendingPeer, this`inputBuffer, this`mode
      ensures Valid()
      ensures Trim(old(inputBuffer)) == "" ==> mode == Normal && inputBuffer == "" && pendingPeer.editing == None
      ensures Trim(old(inputBuffer)) != "" ==>
                && mode == AddPeerPublicKey && pendingPeer == old(pendingPeer).(name := Some(Trim(old(inputBuffer))))
                && inputBuffer == OrEmpty(pendingPeer.defaultKey)
    {
      var name := Trim(inputBuffer);
      if name == "" {
        CancelPeerWizard();
        return;
      }
      pendingPeer := pendingPeer.(name := Some(name));
      inputBuffer, mode := OrEmpty(pendingPeer.defaultKey), AddPeerPublicKey;
    }

    /** An empty key gives up, a key that does not decode stays at the step. */
    method ConfirmPeerPublicKey()
      requires Valid() && mode == AddPeerPublicKey
      modifies this`pendingPeer, this`inputBuffer, this`mode
      ensures Valid()
      ensures var key := Trim(old(inputBuffer));
        && (key == "" ==> mode == Normal && pendingPeer == old(pendingPeer).(editing := None, name := None, defaultKey := None))
        && (key != "" && parsers.decodeKey(key).None? ==>
              mode == AddPeerPublicKey && inputBuffer == old(inputBuffer) && pendingPeer == old(pendingPeer))
        && (key != "" && parsers.decodeKey(key).Some? ==>
              mode == AddPeerLinks && pendingPeer == old(pendingPeer).(publicKey := Some(key), cursor := 0))
    {
      var key := Trim(inputBuffer);
      if key == "" {
        inputBuffer, mode := "", Normal;
        pendingPeer := pendingPeer.(editing := None, name := None, defaultKey := None);
        return;
      }
      if parsers.decodeKey(key).None? {
        return;
      }
      pendingPeer, mode := pendingPeer.(publicKey := Some(key), cursor := 0), AddPeerLinks;
    }

    method MovePeerLinksCursor(delta: int)
      requires Valid() && mode == AddPeerLinks
      modifies this`pendingPeer
      ensures Valid()
      ensures var moved := (old(pendingPeer).cursor + delta) % if config.links == [] then 1 else |config.links|;
        pendingPeer == if config.links == [] then old(pendingPeer) else old(pendingPeer).(cursor := moved)
    {
      if config.links != [] {
        pendingPeer := pendingPeer.(cursor := (pendingPeer.cursor + delta) % |config.links|);
      }
    }

    /** Space checks or unchecks the link under the cursor, and no other. */
    method TogglePeerLink()
      requires Valid() && mode == AddPeerLinks
      modifies this`pendingPeer
      ensures Valid()
      ensures pendingPeer ==
              if config.links == [] then old(pendingPeer)
              else old(pendingPeer).(links := Toggled(old(pendingPeer).links, config.links[old(pendingPeer).cursor].id))
    {
      if config.links != [] {
        pendingPeer := pendingPeer.(links := Toggled(pendingPeer.links, config.links[pendingPeer.cursor].id));
      }
    }

    /** The edit Enter makes on the checklist. */
    function PeerEdit(): Edit
      requires pendingPeer.name.Some? && pendingPeer.publicKey.Some?
      reads this`pendingPeer
    {
      ChecklistEdit(pendingPeer)
    }

    method ConfirmPeerLinks()
      requires Valid() && mode == AddPeerLinks
      modifies this`config, this`dirty, this`peersSelected, this`mode, this`inputBuffer, this`pendingPeer
      ensures Valid() && mode == Normal && Moves(Some(Changed(old(PeerEdit())))) && dirty
      ensures config == old(config).(peers := Place(old(config).peers, NameOf, old(pendingPeer).editing,
                                                    PeerConfig(old(pendingPeer).name.value, old(pendingPeer).publicKey.value,
                                                               old(pendingPeer).links)))
      ensures peersSelected == Position(config.peers, NameOf, old(pendingPeer.name.value))
    {
      ghost var edit := PeerEdit();
      var editing, peer := pendingPeer.editing, PeerConfig(pendingPeer.name.value, pendingPeer.publicKey.value, pendingPeer.links);
      pendingPeer, inputBuffer, mode := NO_PEER.(cursor := pendingPeer.cursor), "", Normal;
      PutPeer(editing, peer, edit);
    }

    /** The part of the checklist step that changes the list. */
    method PutPeer(editing: Option<string>, peer: PeerConfig, ghost edit: Edit)
      requires Valid() && mode == Normal && edit == PlacePeer(editing, peer) && Allowed(parsers, config, edit)
      modifies this`config, this`dirty, this`peersSelected
      ensures Valid() && Moves(Some(Changed(edit))) && peersSelected == Position(config.peers, NameOf, peer.name)
    {
      var after := config.(peers := Place(config.peers, NameOf, editing, peer));
      PeerPlaced(parsers, config, editing, peer, after);
      config, dirty := after, true;
      peersSelected := Position(after.peers, NameOf, peer.name);
    }

    method CancelPeerWizard()
      requires Valid() && mode in {AddPeerName, AddPeerPublicKey, AddPeerLinks}
      modifies this`pendingPeer, this`inputBuffer, this`mode
      ensures Valid() && mode == Normal && inputBuffer == "" && pendingPeer.editing == None
    {
      pendingPeer, inputBuffer, mode := NO_PEER.(cursor := pendingPeer.cursor), "", Normal;
    }

    method RemoveSelectedPeer()
      requires Valid() && mode == ConfirmRemovePeer
      modifies this`config, this`dirty, this`peersSelected, this`mode
      ensures Valid() && mode == Normal && Moves(Some(Changed(RemovePeer(old(peersSelected))))) && dirty
      ensures config == old(config).(peers := old(config).peers[..old(peersSelected)] + old(config).peers[old(peersSelected) + 1..])
      ensures peersSelected == if old(peersSelected) == 0 then 0 else old(peersSelected) - 1
    {
      var peers := RemoveAt(config.peers, peersSelected);
      config, dirty := config.(peers := peers), true;
      peersSelected := if peersSelected == 0 then 0 else peersSelected - 1;
      mode := Normal;
    }

    // ----- Service -----

    method MoveServiceSelection(delta: int)
      modifies this`serviceMenuSelected
      ensures serviceMenuSelected == (old(serviceMenuSelected) + delta) % SERVICE_COUNT
    {
      serviceMenuSelected := (serviceMenuSelected + delta) % SERVICE_COUNT;
    }

    /** Enter on the menu: viewing logs runs at once, all else asks first. */
    method ActivateSelectedServiceAction()
      requires Valid() && mode == Normal
      modifies this`pendingServiceAction, this`mode, this`ran
      ensures Valid()
      ensures var action := SERVICE_MENU[serviceMenuSelected];
        if NeedsConfirm(action) then mode == ConfirmServiceAction && pendingServiceAction == Some(action) && ran == old(ran)
        else mode == Normal && ran == old(ran) + [action]
    {
      var action := SERVICE_MENU[serviceMenuSelected];
      pendingServiceAction := Some(action);
      if NeedsConfirm(action) {
        mode := ConfirmServiceAction;
      } else {
        RunPendingServiceAction();
      }
    }

    method RunPendingServiceAction()
      requires pendingServiceAction.Some?
      modifies this`pendingServiceAction, this`ran
      ensures pendingServiceAction == None && ran == old(ran) + [old(pendingServiceAction.value)]
    {
      ran := ran + [pendingServiceAction.value];
      pendingServiceAction := None;
    }

    method CancelServiceAction()
      requires Valid() && mode == ConfirmServiceAction
      modifies this`pendingServiceAction, this`mode
      ensures Valid() && mode == Normal
    {
      pendingServiceAction, mode := None, Normal;
    }

    // ----- Keys -----

    /** What a key does to configuration and file in the present state; most keys do nothing. */
    function StepOf(key: Key, write: WriteResult): Option<Event>
      requires Ready(Shown())
      reads this
    {
      StepFor(parsers, config.role, Shown(), key, write)
    }

    /** What a key runs on the system: a harmless action at once, any other once it has been confirmed. */
    function RunsOn(key: Key): seq<ServiceAction>
      requires Ready(Shown())
      reads this
    {
      RunsFor(Shown(), key)
    }

    /** What a key does in the link wizard, and how `e` enters it. */
    twostate predicate LinkWizardKeys(key: Key)
      reads this
    {
      && (old(mode) == Normal && old(tab) == LinksTab && key == Char('e') && old(linksSelected) < |old(config).links| ==>
            mode == AddLinkId && EditsLink(old(config).links[old(linksSelected)]))
      && (old(mode) == AddLinkId && key == Enter && Trim(old(inputBuffer)) != "" ==>
            && pendingLink == old(pendingLink).(id := Some(Trim(old(inputBuffer))))
            && mode == if pendingLink.mode.Some? then AddLinkAddress else AddLinkDirection)
      && (old(mode) == AddLinkDirection && (ModeKey(Forward, key) || ModeKey(Reverse, key)) ==>
            && mode == AddLinkAddress && inputBuffer == OrEmpty(pendingLink.defaultAddress)
            && pendingLink == old(pendingLink).(mode := Some(if ModeKey(Forward, key) then Forward else Reverse)))
    }

    method HandleKey(key: Key, write: WriteResult) returns (ghost step: Option<Event>)
      requires Valid()
      modifies this
      ensures Valid() && Moves(step) && step == old(StepOf(key, write)) && LinkWizardKeys(key)
      ensures ran == old(ran) + old(RunsOn(key))
      ensures KeyEffect(parsers, old(Model()), old(Shown()), key, write, Model(), old(ran), ran)
      ensures old(mode) in {ConfirmRemoveLink, ConfirmRemovePeer, ConfirmServiceAction} ==> mode == Normal
      ensures shouldQuit == (old(shouldQuit) || (old(mode) == Normal && (key == Char('q') || key == Esc)))
    {
      ghost var before, shown, was := Model(), Shown(), ran;
      step := Dispatch(key, write);
      KeyFollows(parsers, before, shown, key, write, Model(), was, ran);
    }

    /** The handler of the mode. */
    method Dispatch(key: Key, write: WriteResult) returns (ghost step: Option<Event>)
      requires Valid()
      modifies this
      ensures Valid() && Moves(step) && step == old(StepOf(key, write)) && LinkWizardKeys(key)
      ensures ran == old(ran) + old(RunsOn(key))
      ensures old(mode) in {ConfirmRemoveLink, ConfirmRemovePeer, ConfirmServiceAction} ==> mode == Normal
      ensures shouldQuit == (old(shouldQuit) || (old(mode) == Normal && (key == Char('q') || key == Esc)))
    {
      step := StepOf(key, write);
      if mode == Normal {
        HandleNormal(key, write);
      } else if mode == ConfirmServiceAction {
        HandleConfirmServiceAction(key);
      } else if mode in {ChooseTemplate, AddLinkId, AddLinkAddress, AddLinkDirection, ConfirmRemoveLink} {
        HandleLinkModes(key);
      } else {
        HandlePeerModes(key);
      }
    }

    method HandleLinkModes(key: Key)
      requires Valid() && mode in {ChooseTemplate, AddLinkId, AddLinkAddress, AddLinkDirection, ConfirmRemoveLink}
      modifies this`config, this`dirty, this`linksSelected, this`templateSelected, this`mode, this`inputBuffer, this`pendingLink
      ensures Valid() && Moves(old(StepOf(key, NotWritten))) && LinkWizardKeys(key)
      ensures old(mode) == ConfirmRemoveLink ==> mode == Normal
    {
      if mode == ChooseTemplate {
        HandleChooseTemplate(key);
      } else if mode == AddLinkDirection {
        HandleLinkModeChoice(key);
      } else if mode == ConfirmRemoveLink {
        HandleConfirmRemoveLink(key);
      } else {
        HandleLinkTextInput(key);
      }
    }

    method HandlePeerModes(key: Key)
      requires Valid() && mode in {AddPeerName, AddPeerPublicKey, AddPeerLinks, ConfirmRemovePeer}
      modifies this`config, this`dirty, this`peersSelected, this`mode, this`inputBuffer, this`pendingPeer
      ensures Valid() && Moves(old(StepOf(key, NotWritten)))
      ensures old(mode) == ConfirmRemovePeer ==> mode == Normal
    {
      if mode == AddPeerLinks {
        HandlePeerLinksChecklist(key);
      } else if mode == ConfirmRemovePeer {
        HandleConfirmRemovePeer(key);
      } else {
        HandlePeerTextInput(key);
      }
    }

    method HandleNormal(key: Key, write: WriteResult)
      requires Valid() && mode == Normal
      modifies this
      ensures Valid() && Moves(old(StepOf(key, write)))
      ensures ran == old(ran) + old(RunsOn(key))
      ensures shouldQuit == (old(shouldQuit) || key == Char('q') || key == Esc)
      ensures tab ==
              match key
              case TabKey => TabAfter(old(tab))
              case Char(c) =>
                if c == '1' then StatusTab else if c == '2' then LinksTab else if c == '3' then ServiceTab
                else if c == '4' then PeersTab else old(tab)
              case _ => old(tab)
      ensures old(tab) == LinksTab && key == Char('e') && old(linksSelected) < |old(config).links| ==>
                mode == AddLinkId && EditsLink(old(config).links[old(linksSelected)])
    {
      if key == Char('q') || key == Esc {
        shouldQuit := true;
      } else if key == TabKey {
        NextTab();
      } else if key == Char('1') {
        tab := StatusTab;
      } else if key == Char('2') {
        tab := LinksTab;
      } else if key == Char('3') {
        tab := ServiceTab;
      } else if key == Char('4') {
        tab := PeersTab;
      } else {
        HandleTab(key, write);
      }
    }

    /** Keys that mean something on one tab only. */
    method HandleTab(key: Key, write: WriteResult)
      requires Valid() && mode == Normal && key != Esc && key != Char('q')
      modifies this`linksSelected, this`pendingLink, this`templateSelected, this`inputBuffer, this`mode, this`dirty, this`file
      modifies this`peersSelected, this`pendingPeer, this`serviceMenuSelected, this`pendingServiceAction, this`ran
      ensures Valid() && Moves(if (tab == LinksTab || tab == PeersTab) && key == Char('s') then Some(Saved(write)) else None)
      ensures ran == old(ran) + if tab == ServiceTab && key == Enter && !NeedsConfirm(SERVICE_MENU[old(serviceMenuSelected)])
                                then [SERVICE_MENU[old(serviceMenuSelected)]] else []
      ensures tab == LinksTab && key == Char('e') && old(linksSelected) < |old(config).links| ==>
                mode == AddLinkId && EditsLink(old(config).links[old(linksSelected)])
    {
      match tab
      case StatusTab =>
      case LinksTab => HandleLinksTab(key, write);
      case ServiceTab => HandleServiceTab(key);
      case PeersTab => HandlePeersTab(key, write);
    }

    method HandleLinksTab(key: Key, write: WriteResult)
      requires Valid() && mode == Normal
      modifies this`linksSelected, this`pendingLink, this`templateSelected, this`inputBuffer, this`mode, this`dirty, this`file
      ensures Valid() && Moves(if key == Char('s') then Some(Saved(write)) else None)
      ensures config.links != [] ==> linksSelected == Stepped(old(linksSelected), |config.links|, key)
      ensures key == Char('a') ==> mode == ChooseTemplate && pendingLink == NO_LINK
      ensures key == Char('e') && config.links != [] ==>
                mode == AddLinkId && EditsLink(config.links[linksSelected])
      ensures key == Char('d') && config.links != [] ==> mode == ConfirmRemoveLink
    {
      if IsDown(key) {
        MoveLinkSelection(1);
      } else if IsUp(key) {
        MoveLinkSelection(-1);
      } else if key == Char('a') {
        BeginAddLink();
      } else if key == Char('e') {
        if linksSelected < |config.links| {
          BeginEditLink();
        }
      } else if key == Char('d') {
        if linksSelected < |config.links| {
          mode := ConfirmRemoveLink;
        }
      } else if key == Char('s') {
        SaveConfig(write);
      }
    }

    method HandleServiceTab(key: Key)
      requires Valid() && mode == Normal && tab == ServiceTab
      modifies this`serviceMenuSelected, this`pendingServiceAction, this`mode, this`ran
      ensures Valid()
      ensures ran == old(ran) + if key == Enter && !NeedsConfirm(SERVICE_MENU[old(serviceMenuSelected)])
                                then [SERVICE_MENU[old(serviceMenuSelected)]] else []
      ensures serviceMenuSelected == Stepped(old(serviceMenuSelected), SERVICE_COUNT, key)
      ensures key == Enter && SERVICE_MENU[old(serviceMenuSelected)] != ViewLogs ==>
                mode == ConfirmServiceAction && pendingServiceAction == Some(SERVICE_MENU[old(serviceMenuSelected)])
    {
      if IsDown(key) {
        MoveServiceSelection(1);
      } else if IsUp(key) {
        MoveServiceSelection(-1);
      } else if key == Enter {
        ActivateSelectedServiceAction();
      }
    }

    method HandlePeersTab(key: Key, write: WriteResult)
      requires Valid() && mode == Normal
      modifies this`peersSelected, this`pendingPeer, this`inputBuffer, this`mode, this`dirty, this`file
      ensures Valid() && Moves(if key == Char('s') then Some(Saved(write)) else None)
      ensures config.peers != [] ==> peersSelected == Stepped(old(peersSelected), |config.peers|, key)
      ensures key == Char('a') && config.role == Server ==> mode == AddPeerName && pendingPeer == NO_PEER
      ensures key == Char('e') && config.role == Server && config.peers != [] ==>
                mode == AddPeerName && pendingPeer.editing == Some(config.peers[peersSelected].name)
      ensures key == Char('d') && config.peers != [] ==> mode == ConfirmRemovePeer
    {
      if IsDown(key) {
        MovePeerSelection(1);
      } else if IsUp(key) {
        MovePeerSelection(-1);
      } else if key == Char('a') {
        BeginAddPeer();
      } else if key == Char('e') {
        if peersSelected < |config.peers| {
          BeginEditPeer();
        }
      } else if key == Char('d') {
        if peersSelected < |config.peers| {
          mode := ConfirmRemovePeer;
        }
      } else if key == Char('s') {
        SaveConfig(write);
      }
    }

    method HandleChooseTemplate(key: Key)
      requires Valid() && mode == ChooseTemplate
      modifies this`templateSelected, this`pendingLink, this`inputBuffer, this`mode
      ensures Valid() && templateSelected == Stepped(old(templateSelected), CUSTOM_INDEX + 1, key)
      ensures mode == (if key == Esc then Normal else if key == Enter then AddLinkId else ChooseTemplate)
    {
      if key == Esc {
        CancelLinkWizard();
      } else if IsDown(key) {
        MoveTemplateSelection(1);
      } else if IsUp(key) {
        MoveTemplateSelection(-1);
      } else if key == Enter {
        ConfirmTemplateChoice();
      }
    }

    method EditText(key: Key)
      requires Valid()
      modifies this`inputBuffer
      ensures Valid() && inputBuffer == Typed(old(inputBuffer), key)
    {
      match key
      case Char(c) => inputBuffer := inputBuffer + [c];
      case Backspace =>
        if inputBuffer != "" {
          inputBuffer := inputBuffer[..|inputBuffer| - 1];
        }
      case _ =>
    }

    method HandleLinkTextInput(key: Key)
      requires Valid() && (mode == AddLinkId || mode == AddLinkAddress)
      modifies this`config, this`dirty, this`linksSelected, this`mode, this`inputBuffer, this`pendingLink
      ensures Valid() && Moves(old(StepOf(key, NotWritten)))
      ensures key == Esc ==> mode == Normal && pendingLink == NO_LINK
      ensures key != Esc && key != Enter ==>
                mode == old(mode) && pendingLink == old(pendingLink) && inputBuffer == Typed(old(inputBuffer), key)
      ensures key == Enter && old(mode) == AddLinkId && Trim(old(inputBuffer)) != "" ==>
                && pendingLink == old(pendingLink).(id := Some(Trim(old(inputBuffer))))
                && mode == if pendingLink.mode.Some? then AddLinkAddress else AddLinkDirection
    {
      match key
      case Esc => CancelLinkWizard();
      case Enter =>
        if mode == AddLinkId {
          ConfirmLinkId();
        } else {
          ConfirmLinkAddress();
        }
      case _ => EditText(key);
    }

    method HandleLinkModeChoice(key: Key)
      requires Valid() && mode == AddLinkDirection
      modifies this`pendingLink, this`inputBuffer, this`mode
      ensures Valid() && (key == Esc ==> mode == Normal && pendingLink == NO_LINK)
      ensures key == Char('f') || key == Char('F') ==>
                && mode == AddLinkAddress && pendingLink == old(pendingLink).(mode := Some(Forward))
                && inputBuffer == OrEmpty(pendingLink.defaultAddress)
      ensures key == Char('r') || key == Char('R') ==>
                && mode == AddLinkAddress && pendingLink == old(pendingLink).(mode := Some(Reverse))
                && inputBuffer == OrEmpty(pendingLink.defaultAddress)
    {
      if key == Esc {
        CancelLinkWizard();
      } else if key == Char('f') || key == Char('F') {
        ChooseLinkMode(Forward);
      } else if key == Char('r') || key == Char('R') {
        ChooseLinkMode(Reverse);
      }
    }

    method HandlePeerTextInput(key: Key)
      requires Valid() && (mode == AddPeerName || mode == AddPeerPublicKey)
      modifies this`pendingPeer, this`inputBuffer, this`mode
      ensures Valid() && (key == Esc ==> mode == Normal)
      ensures key != Esc && key != Enter ==>
                mode == old(mode) && pendingPeer == old(pendingPeer) && inputBuffer == Typed(old(inputBuffer), key)
      ensures key == Enter && old(mode) == AddPeerName && Trim(old(inputBuffer)) != "" ==>
                mode == AddPeerPublicKey && pendingPeer == old(pendingPeer).(name := Some(Trim(old(inputBuffer))))
      ensures key == Enter && old(mode) == AddPeerPublicKey ==>
                (mode == AddPeerLinks <==> Trim(old(inputBuffer)) != "" && parsers.decodeKey(Trim(old(inputBuffer))).Some?)
    {
      match key
      case Esc => CancelPeerWizard();
      case Enter =>
        if mode == AddPeerName {
          ConfirmPeerName();
        } else {
          ConfirmPeerPublicKey();
        }
      case _ => EditText(key);
    }

    method HandlePeerLinksChecklist(key: Key)
      requires Valid() && mode == AddPeerLinks
      modifies this`config, this`dirty, this`peersSelected, this`mode, this`inputBuffer, this`pendingPeer
      ensures Valid() && Moves(if key == Enter then Some(Changed(old(PeerEdit()))) else None)
      ensures mode == if key == Esc || key == Enter then Normal else AddPeerLinks
      ensures mode == AddPeerLinks && config.links != [] ==>
                && pendingPeer.cursor == Stepped(old(pendingPeer).cursor, |config.links|, key)
                && pendingPeer.links == if key == Char(' ') then Toggled(old(pendingPeer).links, config.links[pendingPeer.cursor].id)
                                        else old(pendingPeer).links
    {
      if key == Esc {
        CancelPeerWizard();
      } else if IsDown(key) {
        MovePeerLinksCursor(1);
      } else if IsUp(key) {
        MovePeerLinksCursor(-1);
      } else if key == Char(' ') {
        TogglePeerLink();
      } else if key == Enter {
        ConfirmPeerLinks();
      }
    }

    method HandleConfirmRemovePeer(key: Key)
      requires Valid() && mode == ConfirmRemovePeer
      modifies this`config, this`dirty, this`peersSelected, this`mode
      ensures Valid() && mode == Normal && Moves(old(StepOf(key, NotWritten)))
      ensures config == if key == Char('y') || key == Char('Y')
                        then old(config).(peers := old(config).peers[..old(peersSelected)]
                                                   + old(config).peers[old(peersSelected) + 1..])
                        else old(config)
    {
      if IsYes(key) {
        RemoveSelectedPeer();
      } else {
        mode := Normal;
      }
    }

    method HandleConfirmRemoveLink(key: Key)
      requires Valid() && mode == ConfirmRemoveLink
      modifies this`config, this`dirty, this`linksSelected, this`mode
      ensures Valid() && mode == Normal && Moves(old(StepOf(key, NotWritten)))
      ensures config == if key == Char('y') || key == Char('Y')
                        then old(config).(links := old(config).links[..old(linksSelected)]
                                                   + old(config).links[old(linksSelected) + 1..])
                        else old(config)
    {
      if IsYes(key) {
        RemoveSelectedLink();
      } else {
        mode := Normal;
      }
    }

    method HandleConfirmServiceAction(key: Key)
      requires Valid() && mode == ConfirmServiceAction
      modifies this`pendingServiceAction, this`mode, this`ran
      ensures Valid() && mode == Normal && ran == old(ran) + old(RunsOn(key))
      ensures ran == old(ran) + if key == Char('y') || key == Char('Y') then [old(pendingServiceAction).value] else []
    {
      if IsYes(key) {
        mode := Normal;
        RunPendingServiceAction();
      } else {
        CancelServiceAction();
      }
    }
  }

  /** A link the wizard reads back as it shows it. */
  predicate ShownAsIs(p: Parsers, role: Role, link: LinkConfig)
  {
    && LinkWellFormed(p, role, link)
    && Trim(link.id) == link.id != "" && Trim(CurrentAddress(link)) == CurrentAddress(link) != ""
  }

  /**
   * Going through the edit of a link and changing nothing, with the keys e, Enter, the letter of its mode and Enter. The
   * link ends up last and over TCP; so the same links are configured as before exactly when it was a TCP link.
   */
  method EditUnchanged(app: App, letter: Key, write: WriteResult)
    requires app.Valid() && app.mode == Normal && app.tab == LinksTab && app.linksSelected < |app.config.links|
    requires var link := app.config.links[app.linksSelected];
      ShownAsIs(app.parsers, app.config.role, link) && ModeKey(link.mode, letter)
    modifies app
    ensures app.Valid() && app.dirty
    ensures var links, link := old(app.config).links, old(app.config).links[old(app.linksSelected)];
      && app.config == old(app.config).(links := Retain(links, IdOf, link.id) + [link.(transport := Tcp)])
      && (DistinctIds(links) ==> (SameEntries(app.config.links, links) <==> link.transport == Tcp))
  {
    ghost var config, link := app.config, app.config.links[app.linksSelected];
    ghost var step := app.HandleKey(Char('e'), write);
    step := app.HandleKey(Enter, write);
    step := app.HandleKey(letter, write);
    assert app.LinkEdit() == PlaceLink(Some(link.id), link.(transport := Tcp));
    step := app.HandleKey(Enter, write);
    ReplacedUnchanged(config.links, link);
  }

  ghost predicate SameEntries(a: seq<LinkConfig>, b: seq<LinkConfig>)
  {
    forall link :: link in a <==> link in b
  }

  lemma ReplacedUnchanged(links: seq<LinkConfig>, link: LinkConfig)
    requires link in links
    ensures DistinctIds(links) ==>
              (SameEntries(Retain(links, IdOf, link.id) + [link.(transport := Tcp)], links) <==> link.transport == Tcp)
  {
    RetainKeeps(links, IdOf, link.id);
    var r := Retain(links, IdOf, link.id) + [link.(transport := Tcp)];
    if DistinctIds(links) {
      forall x | x in links && IdOf(x) == link.id
        ensures x == link
      {
        var i :| 0 <= i < |links| && links[i] == x;
        var j :| 0 <= j < |links| && links[j] == link;
      }
      assert link in r <==> link.transport == Tcp;
    }
  }

  /**
   * A whole session: whatever the keys and however the writes end, the configuration keeps what was right about the
   * loaded one, and a clean editor beside a whole file holds what the file holds.
   */
  method Session(parsers: Parsers, loaded: Config, keys: seq<(Key, WriteResult)>) returns (app: App, ghost events: seq<Event>)
    ensures app.Valid() && app.parsers == parsers
    ensures Reached(parsers, loaded, events, Store(app.config, app.dirty, app.file))
    ensures ConfigKept(parsers, loaded, app.config)
    ensures app.file.None? <==> LastWrite(parsers, loaded, events) == Some(Torn)
    ensures !app.dirty ==> (app.file == Some(app.config) <==> LastWrite(parsers, loaded, events) != Some(Torn))
    ensures app.file.Some? ==> app.file.value == loaded || WellFormed(parsers, app.file.value)
  {
    app := new App(parsers, loaded);
    events := [];
    var i := 0;
    while i < |keys| && !app.shouldQuit
      invariant i <= |keys| && fresh(app) && app.Valid() && app.parsers == parsers
      invariant Reached(parsers, loaded, events, Store(app.config, app.dirty, app.file))
    {
      ghost var before := Store(app.config, app.dirty, app.file);
      ghost var step := app.HandleKey(keys[i].0, keys[i].1);
      if step.Some? {
        ReachedNext(parsers, loaded, events, before, step.value, Store(app.config, app.dirty, app.file));
        events := events + [step.value];
      }
      i := i + 1;
    }
    ConfigIsKept(parsers, loaded, events, Store(app.config, app.dirty, app.file));
    FileDamagedIff(parsers, loaded, events, Store(app.config, app.dirty, app.file));
  }
}
