/** The site agent's `newt/wg/get-config` handler
    (server/routers/newt/handleGetConfigMessage.ts): it records the key and
    port the site reports, tells the site's exit node about the proxy remap,
    hands every usable client of the site to that client's peer manager, and
    replies with the site's peer list and its TCP and UDP target lists. */
module GetConfig {
  import opened Common
  import opened Store
  import opened Targets

  /** The message body; the handler demands a string `publicKey` and a positive integer `port`. */
  datatype GetConfigData = GetConfigData(publicKey: Option<string>, port: Option<int>)

  predicate ValidInput(data: GetConfigData) {
    data.publicKey.Some? && data.port.Some? && data.port.value > 0
  }

  // ---------------------------------------------------------------------
  // The site row update
  // ---------------------------------------------------------------------

  /** The row as written back: only the key and the listen port are replaced. */
  function Reported(site: Site, publicKey: string, port: int): Site {
    site.(publicKey := Some(publicKey), listenPort := Some(port))
  }

  /** `update sites set publicKey, listenPort where siteId = ?`. */
  function ReportSiteRows(rows: seq<Site>, siteId: int, publicKey: string, port: int): seq<Site> {
    seq(|rows|, i requires 0 <= i < |rows| =>
      if rows[i].siteId == siteId then Reported(rows[i], publicKey, port) else rows[i])
  }

  /** The row `returning()` hands back is the row read before, updated. */
  lemma {:induction false} ReportedRowReturned(rows: seq<Site>, siteId: int, publicKey: string, port: int)
    requires FindSite(rows, siteId).Some?
    ensures FindSite(ReportSiteRows(rows, siteId, publicKey, port), siteId)
         == Some(Reported(FindSite(rows, siteId).value, publicKey, port))
  {
    if rows[0].siteId != siteId {
      ReportedRowReturned(rows[1..], siteId, publicKey, port);
      assert ReportSiteRows(rows, siteId, publicKey, port)[1..] == ReportSiteRows(rows[1..], siteId, publicKey, port);
    }
  }

  // ---------------------------------------------------------------------
  // The exit node's proxy-mapping notice
  // ---------------------------------------------------------------------

  /** `subnet?.split("/")[0]`. */
  function SubnetAddress(subnet: Option<string>): Option<string> {
    if subnet.Some? then Some(PrefixBefore(subnet.value, '/')) else None
  }

  /** The notice is sent when the exit node is reachable and the site had a subnet and a port before. */
  predicate NoticeDue(exitNode: ExitNode, previous: Site) {
    TruthyText(exitNode.reachableAt) && TruthyText(previous.subnet) && TruthyInt(previous.listenPort)
  }

  /** `sendToExitNode(exitNode, {update-proxy-mapping, old destination, new destination})`. */
  function ProxyMappingNotice(exitNode: ExitNode, previous: Site, current: Site): Call {
    SendToExitNode(exitNode, "remoteExitNode/update-proxy-mapping", "/update-proxy-mapping", "POST",
      ProxyDestination(SubnetAddress(previous.subnet), previous.listenPort),
      ProxyDestination(SubnetAddress(current.subnet), current.listenPort))
  }

  // ---------------------------------------------------------------------
  // The peer list
  // ---------------------------------------------------------------------

  /** One row of `clients inner join clientSites`. */
  datatype JoinedClient = JoinedClient(client: Client, link: ClientSite)

  /** The client rows a link joins with. */
  function LinkedClients(clients: seq<Client>, link: ClientSite): (r: seq<JoinedClient>)
    ensures forall k :: 0 <= k < |r| ==> r[k].link == link && r[k].client in clients && r[k].client.clientId == link.clientId
    ensures forall c :: c in clients && c.clientId == link.clientId ==> JoinedClient(c, link) in r
  {
    if clients == [] then []
    else (if clients[0].clientId == link.clientId then [JoinedClient(clients[0], link)] else [])
         + LinkedClients(clients[1..], link)
  }

  /** `clients inner join clientSites on clientId where clientSites.siteId = siteId`, link by link. */
  function ClientsOfSite(clients: seq<Client>, links: seq<ClientSite>, siteId: int): (r: seq<JoinedClient>)
    ensures forall k :: 0 <= k < |r| ==>
      r[k].link in links && r[k].link.siteId == siteId && r[k].client in clients && r[k].client.clientId == r[k].link.clientId
    ensures forall c, l :: c in clients && l in links && l.siteId == siteId && l.clientId == c.clientId ==> JoinedClient(c, l) in r
  {
    if links == [] then []
    else (if links[0].siteId == siteId then LinkedClients(clients, links[0]) else [])
         + ClientsOfSite(clients, links[1..], siteId)
  }

  /** The filter: a client needs both a public key and a subnet. */
  predicate Eligible(j: JoinedClient) {
    TruthyText(j.client.pubKey) && TruthyText(j.client.subnet)
  }

  /** The descriptor sent to the site; a relayed client gets an empty endpoint, since it dials in. */
  function Descriptor(j: JoinedClient): PeerDescriptor
    requires Eligible(j)
  {
    PeerDescriptor(j.client.pubKey.value, [HostRoute(j.client.subnet.value)],
      if j.link.isRelayed then Some("") else j.link.endpoint)
  }

  /** A descriptor with the peer-manager call issued for it. */
  datatype PeerEntry = PeerEntry(descriptor: PeerDescriptor, call: Call)

  /** One client of the site: `None` when it is filtered out or skipped. */
  function PeerFor(site: Site, exitNode: Option<ExitNode>, j: JoinedClient): (r: Option<PeerEntry>)
    ensures r.Some? ==> Eligible(j)
    ensures r.Some? ==> (r.value.descriptor.publicKey == j.client.pubKey.value
                     && r.value.descriptor.allowedIps == [HostRoute(j.client.subnet.value)])
    ensures r.Some? ==> r.value.descriptor.endpoint == (if j.link.isRelayed then Some("") else j.link.endpoint)
    ensures r.Some? ==> (r.value.call.UpdatePeer? && r.value.call.clientId == j.client.clientId
                     && r.value.call.config.siteId == site.siteId
                     && r.value.call.config.publicKey == site.publicKey
                     && r.value.call.config.serverIP == site.address
                     && r.value.call.config.serverPort == site.listenPort
                     && r.value.call.config.remoteSubnets == site.remoteSubnets)
    ensures r.Some? && j.link.isRelayed ==>
      exitNode.Some? && r.value.call.config.endpoint == RelayEndpoint(exitNode.value.endpoint)
    ensures r.Some? && !j.link.isRelayed ==> site.endpoint == Some(r.value.call.config.endpoint)
    ensures r.None? <==>
      || !Eligible(j)
      || !TruthyText(site.publicKey)
      || (j.link.isRelayed && (!TruthyInt(site.exitNodeId) || exitNode.None?))
      || (!j.link.isRelayed && !TruthyText(site.endpoint))
  {
    if !Eligible(j) then None
    else if !TruthyText(site.publicKey) then None
    else if j.link.isRelayed && !TruthyInt(site.exitNodeId) then None
    else if j.link.isRelayed && exitNode.None? then None
    else
      var endpoint := if j.link.isRelayed then Some(RelayEndpoint(exitNode.value.endpoint)) else site.endpoint;
      if !TruthyText(endpoint) then None
      else
        Some(PeerEntry(Descriptor(j),
          UpdatePeer(j.client.clientId,
            SiteConfig(site.siteId, endpoint.value, site.publicKey, site.address, site.listenPort, site.remoteSubnets))))
  }

  /** The entries of the clients that survive, in join order. */
  function PeerEntries(site: Site, exitNode: Option<ExitNode>, joined: seq<JoinedClient>): (r: seq<PeerEntry>)
    ensures |r| <= |joined|
  {
    if joined == [] then []
    else
      var rest := PeerEntries(site, exitNode, joined[1..]);
      var here := PeerFor(site, exitNode, joined[0]);
      if here.None? then rest else [here.value] + rest
  }

  /** The entries are exactly those of the joined clients that survive: each entry is
      one of theirs, and each of theirs is an entry. */
  lemma {:induction false} PeerEntriesExact(site: Site, exitNode: Option<ExitNode>, joined: seq<JoinedClient>)
    ensures forall e :: e in PeerEntries(site, exitNode, joined) ==> exists j :: j in joined && PeerFor(site, exitNode, j) == Some(e)
    ensures forall j :: j in joined && PeerFor(site, exitNode, j).Some? ==> PeerFor(site, exitNode, j).value in PeerEntries(site, exitNode, joined)
    decreases |joined|
  {
    if joined != [] {
      PeerEntriesExact(site, exitNode, joined[1..]);
      forall j | j in joined && j != joined[0] ensures j in joined[1..] {
        var i :| 0 <= i < |joined| && joined[i] == j;
        assert joined[1..][i - 1] == j;
      }
    }
  }

  /** The descriptors that survive and the `updatePeer` calls, both in join order. */
  datatype PeerBatch = PeerBatch(descriptors: seq<PeerDescriptor>, calls: seq<Call>)

  /** The `map` over the joined rows and the `filter` of the nulls: the k-th descriptor
      and the k-th call come from the k-th surviving client. */
  function BuildPeers(site: Site, exitNode: Option<ExitNode>, joined: seq<JoinedClient>): (r: PeerBatch)
    ensures |r.descriptors| == |r.calls| == |PeerEntries(site, exitNode, joined)| <= |joined|
    ensures forall k :: 0 <= k < |r.calls| ==>
      PeerEntry(r.descriptors[k], r.calls[k]) == PeerEntries(site, exitNode, joined)[k]
    ensures forall k :: 0 <= k < |r.calls| ==>
      exists j :: j in joined && PeerFor(site, exitNode, j) == Some(PeerEntry(r.descriptors[k], r.calls[k]))
    ensures forall j :: j in joined && PeerFor(site, exitNode, j).Some? ==>
      PeerFor(site, exitNode, j).value.descriptor in r.descriptors && PeerFor(site, exitNode, j).value.call in r.calls
  {
    var entries := PeerEntries(site, exitNode, joined);
    var r := PeerBatch(seq(|entries|, k requires 0 <= k < |entries| => entries[k].descriptor),
                       seq(|entries|, k requires 0 <= k < |entries| => entries[k].call));
    PeerEntriesExact(site, exitNode, joined);
    assert forall k :: 0 <= k < |entries| ==> PeerEntry(r.descriptors[k], r.calls[k]) == entries[k] && entries[k] in entries;
    forall j | j in joined && PeerFor(site, exitNode, j).Some?
      ensures PeerFor(site, exitNode, j).value.descriptor in r.descriptors && PeerFor(site, exitNode, j).value.call in r.calls
    {
      var k :| 0 <= k < |entries| && entries[k] == PeerFor(site, exitNode, j).value;
      assert r.descriptors[k] == entries[k].descriptor && r.calls[k] == entries[k].call;
    }
    r
  }

  /** Peers are assembled client by client: the entries of a concatenation are the concatenation of the entries. */
  lemma {:induction false} PeerEntriesAppend(site: Site, exitNode: Option<ExitNode>, a: seq<JoinedClient>, b: seq<JoinedClient>)
    ensures PeerEntries(site, exitNode, a + b) == PeerEntries(site, exitNode, a) + PeerEntries(site, exitNode, b)
  {
    if a != [] {
      assert (a + b)[1..] == a[1..] + b;
      assert (a + b)[0] == a[0];
      PeerEntriesAppend(site, exitNode, a[1..], b);
      var head := PeerFor(site, exitNode, a[0]);
      var front := if head.None? then [] else [head.value];
      assert PeerEntries(site, exitNode, a) == front + PeerEntries(site, exitNode, a[1..]);
      assert PeerEntries(site, exitNode, a + b) == front + PeerEntries(site, exitNode, a[1..] + b);
    } else {
      assert a + b == b;
    }
  }

  /** One client's entry depends on that client alone: adding or removing other
      clients never changes whether, or how, a client is configured. */
  lemma PeerIsolation(site: Site, exitNode: Option<ExitNode>, a: seq<JoinedClient>, j: JoinedClient, b: seq<JoinedClient>)
    ensures PeerEntries(site, exitNode, a + [j] + b)
         == PeerEntries(site, exitNode, a)
            + (if PeerFor(site, exitNode, j).Some? then [PeerFor(site, exitNode, j).value] else [])
            + PeerEntries(site, exitNode, b)
  {
    PeerEntriesAppend(site, exitNode, a + [j], b);
    PeerEntriesAppend(site, exitNode, a, [j]);
    assert [j][1..] == [];
    assert PeerEntries(site, exitNode, [j][1..]) == [];
    var here := PeerFor(site, exitNode, j);
    assert PeerEntries(site, exitNode, [j]) == (if here.Some? then [here.value] else []);
  }

  // ---------------------------------------------------------------------
  // The target lists
  // ---------------------------------------------------------------------

  /** `where siteResources.siteId = siteId`, in row order. */
  function ResourcesOfSite(rows: seq<SiteResource>, siteId: int): (r: seq<SiteResource>)
    ensures forall k :: 0 <= k < |r| ==> r[k] in rows && r[k].siteId == siteId
    ensures forall x :: x in rows && x.siteId == siteId ==> x in r
  {
    if rows == [] then []
    else (if rows[0].siteId == siteId then [rows[0]] else []) + ResourcesOfSite(rows[1..], siteId)
  }

  /** A resource becomes a target only with a proxy port, a destination address and a destination port. */
  predicate CompleteTarget(r: SiteResource) {
    TruthyInt(r.proxyPort) && TruthyText(r.destinationIp) && TruthyInt(r.destinationPort)
  }

  function FormatResource(r: SiteResource): string
    requires CompleteTarget(r)
  {
    TargetString(r.proxyPort.value, r.destinationIp.value, r.destinationPort.value)
  }

  /** A complete resource is formatted exactly as `addTargets` and `removeTargets`
      format the target of the same proxy port, address and destination port. */
  lemma SameEncodingAsTargets(r: SiteResource, newtId: string, protocol: string)
    requires CompleteTarget(r)
    ensures AddTargets(newtId, r.destinationIp.value, r.destinationPort.value, protocol, r.proxyPort.value).message.targets
         == [FormatResource(r)]
    ensures RemoveTargets(newtId, r.destinationIp.value, r.destinationPort.value, protocol, r.proxyPort.value).message.targets
         == [FormatResource(r)]
  {
  }

  datatype TargetLists = TargetLists(tcp: seq<string>, udp: seq<string>)

  /** The `reduce` over the site's resources, pushing onto the TCP or the UDP list. */
  function PartitionTargets(rows: seq<SiteResource>): TargetLists
    decreases |rows|
  {
    if rows == [] then TargetLists([], [])
    else
      var acc := PartitionTargets(rows[..|rows| - 1]);
      var r := rows[|rows| - 1];
      if !CompleteTarget(r) then acc
      else if r.protocol == "tcp" then acc.(tcp := acc.tcp + [FormatResource(r)])
      else acc.(udp := acc.udp + [FormatResource(r)])
  }

  /** Reference definition: the complete resources of one protocol class, formatted, in row order. */
  function TargetsWhere(rows: seq<SiteResource>, tcp: bool): (r: seq<string>)
    ensures |r| <= |rows|
    ensures forall s :: s in r ==>
      exists x :: x in rows && CompleteTarget(x) && (x.protocol == "tcp") == tcp
        && s == FormatResource(x)
        && DecodeTarget(s) == Some(TargetFields(x.proxyPort.value, x.destinationIp.value, x.destinationPort.value))
  {
    if rows == [] then []
    else
      var rest := TargetsWhere(rows[1..], tcp);
      var x := rows[0];
      if CompleteTarget(x) && (x.protocol == "tcp") == tcp then
        TargetStringRoundTrip(x.proxyPort.value, x.destinationIp.value, x.destinationPort.value);
        [FormatResource(x)] + rest
      else
        rest
  }

  lemma {:induction false} TargetsWhereSnoc(rows: seq<SiteResource>, r: SiteResource, tcp: bool)
    ensures TargetsWhere(rows + [r], tcp)
         == TargetsWhere(rows, tcp) + (if CompleteTarget(r) && (r.protocol == "tcp") == tcp then [FormatResource(r)] else [])
  {
    if rows == [] {
      assert [r][1..] == [];
    } else {
      assert (rows + [r])[1..] == rows[1..] + [r];
      TargetsWhereSnoc(rows[1..], r, tcp);
    }
  }

  /** The reduce splits the complete resources by protocol: exactly the ones whose
      protocol is "tcp" go to the TCP list, every other one to the UDP list, in row order. */
  lemma {:induction false} PartitionIsFilter(rows: seq<SiteResource>)
    ensures PartitionTargets(rows) == TargetLists(TargetsWhere(rows, true), TargetsWhere(rows, false))
    decreases |rows|
  {
    if rows != [] {
      var init, last := rows[..|rows| - 1], rows[|rows| - 1];
      assert rows == init + [last];
      PartitionIsFilter(init);
      TargetsWhereSnoc(init, last, true);
      TargetsWhereSnoc(init, last, false);
    }
  }

  // ---------------------------------------------------------------------
  // The handler
  // ---------------------------------------------------------------------

  /** The guards before the first write: a connection bound to a site, a valid
      body, a known site, and a site whose hole punch has given it an endpoint. */
  predicate Proceeds(t: Tables, newt: Option<Newt>, data: GetConfigData) {
    && newt.Some? && TruthyInt(newt.value.siteId) && ValidInput(data)
    && FindSite(t.sites, newt.value.siteId.value).Some?
    && TruthyText(FindSite(t.sites, newt.value.siteId.value).value.endpoint)
  }

  /** Reference definition of one run.  `failing` holds the outside calls that
      reject; the exit-node notice is awaited without a `try`, the `updatePeer`
      calls each inside their own. */
  function GetConfig(t: Tables, newt: Option<Newt>, data: GetConfigData, failing: set<Call>): Effect {
    if !Proceeds(t, newt, data) then Effect(t, Returned(None), [])
    else
      var siteId := newt.value.siteId.value;
      var previous := FindSite(t.sites, siteId).value;
      var site := Reported(previous, data.publicKey.value, data.port.value);
      var t1 := t.(sites := ReportSiteRows(t.sites, siteId, data.publicKey.value, data.port.value));
      var exitNode := if TruthyInt(site.exitNodeId) then FindExitNode(t.exitNodes, site.exitNodeId.value) else None;
      if TruthyInt(site.exitNodeId) && exitNode.None? then
        // `exitNode.reachableAt` on a missing row is a TypeError
        Effect(t1, Threw, [])
      else
        var notice := if exitNode.Some? && NoticeDue(exitNode.value, previous)
                      then [ProxyMappingNotice(exitNode.value, previous, site)] else [];
        if notice != [] && notice[0] in failing then Effect(t1, Threw, notice)
        else
          var peers := BuildPeers(site, exitNode, ClientsOfSite(t1.clients, t1.clientSites, siteId));
          var targets := PartitionTargets(ResourcesOfSite(t1.siteResources, siteId));
          Effect(t1,
            Returned(Some(Unicast(ReceiveConfig(site.address, peers.descriptors, targets.tcp, targets.udp)))),
            notice + peers.calls)
  }

  /** The handler, step by step, against the database. */
  method HandleGetConfigMessage(db: Database, newt: Option<Newt>, data: GetConfigData, failing: set<Call>)
    returns (outcome: Outcome, calls: seq<Call>)
    modifies db
    ensures Effect(db.Snapshot(), outcome, calls) == GetConfig(old(db.Snapshot()), newt, data, failing)
  {
    calls := [];
    outcome := Returned(None);
    ghost var t0 := db.Snapshot();
    if newt.None? || !TruthyInt(newt.value.siteId) {
      return;
    }
    if !ValidInput(data) {
      return;
    }
    var publicKey, port := data.publicKey.value, data.port.value;
    var siteId := newt.value.siteId.value;

    var existingSite := FindSite(db.sites, siteId);
    if existingSite.None? || !TruthyText(existingSite.value.endpoint) {
      return;
    }
    assert Proceeds(t0, newt, data);

    ReportedRowReturned(db.sites, siteId, publicKey, port);
    db.sites := ReportSiteRows(db.sites, siteId, publicKey, port);
    var site := FindSite(db.sites, siteId).value;
    ghost var t1 := db.Snapshot();
    assert t1 == t0.(sites := ReportSiteRows(t0.sites, siteId, publicKey, port));
    assert site == Reported(existingSite.value, publicKey, port);

    var exitNode: Option<ExitNode> := None;
    if TruthyInt(site.exitNodeId) {
      exitNode := FindExitNode(db.exitNodes, site.exitNodeId.value);
      if exitNode.None? {
        outcome := Threw;
        assert GetConfig(t0, newt, data, failing) == Effect(t1, Threw, []);
        return;
      }
      if NoticeDue(exitNode.value, existingSite.value) {
        var notice := ProxyMappingNotice(exitNode.value, existingSite.value, site);
        calls := calls + [notice];
        if notice in failing {
          outcome := Threw;
          assert GetConfig(t0, newt, data, failing) == Effect(t1, Threw, [notice]);
          return;
        }
      }
    }
    ghost var notice := calls;
    assert notice == if exitNode.Some? && NoticeDue(exitNode.value, existingSite.value)
                     then [ProxyMappingNotice(exitNode.value, existingSite.value, site)] else [];

    var peers := BuildPeers(site, exitNode, ClientsOfSite(db.clients, db.clientSites, siteId));
    calls := calls + peers.calls;
    var targets := PartitionTargets(ResourcesOfSite(db.siteResources, siteId));
    outcome := Returned(Some(Unicast(ReceiveConfig(site.address, peers.descriptors, targets.tcp, targets.udp))));
    assert GetConfig(t0, newt, data, failing) == Effect(t1, outcome, notice + peers.calls);
  }

  // ---------------------------------------------------------------------
  // Properties of a run
  // ---------------------------------------------------------------------

  /** Without a bound site, a valid body, a known site and its endpoint: no reply, no write, no call. */
  lemma GetConfigSilentUntilReady(t: Tables, newt: Option<Newt>, data: GetConfigData, failing: set<Call>)
    requires !Proceeds(t, newt, data)
    ensures GetConfig(t, newt, data, failing) == Effect(t, Returned(None), [])
  {
  }

  /** The only write: the site's rows get the reported key and port; nothing else changes. */
  lemma GetConfigWritesOnlyKeyAndPort(t: Tables, newt: Option<Newt>, data: GetConfigData, failing: set<Call>)
    requires Proceeds(t, newt, data)
    ensures var t' := GetConfig(t, newt, data, failing).tables;
      && t'.clients == t.clients && t'.clientSites == t.clientSites && t'.exitNodes == t.exitNodes
      && t'.olms == t.olms && t'.siteResources == t.siteResources
      && |t'.sites| == |t.sites|
      && forall i :: 0 <= i < |t.sites| ==>
           t'.sites[i] == if t.sites[i].siteId == newt.value.siteId.value
                          then t.sites[i].(publicKey := data.publicKey, listenPort := data.port)
                          else t.sites[i]
  {
  }

  /** The exit node hears of the remap exactly when it is reachable and the site
      had a subnet and a port; the notice carries the old and the new destination. */
  lemma GetConfigNotice(t: Tables, newt: Option<Newt>, data: GetConfigData, failing: set<Call>)
    ensures var e := GetConfig(t, newt, data, failing);
      (exists k :: 0 <= k < |e.calls| && e.calls[k].SendToExitNode?) <==>
        && Proceeds(t, newt, data)
        && var previous := FindSite(t.sites, newt.value.siteId.value).value;
           && TruthyInt(previous.exitNodeId)
           && FindExitNode(t.exitNodes, previous.exitNodeId.value).Some?
           && NoticeDue(FindExitNode(t.exitNodes, previous.exitNodeId.value).value, previous)
    ensures var e := GetConfig(t, newt, data, failing);
      forall k :: 0 <= k < |e.calls| && e.calls[k].SendToExitNode? ==>
        var previous := FindSite(t.sites, newt.value.siteId.value).value;
        && k == 0
        && e.calls[k].oldDestination == ProxyDestination(Some(PrefixBefore(previous.subnet.value, '/')), previous.listenPort)
        && e.calls[k].newDestination == ProxyDestination(Some(PrefixBefore(previous.subnet.value, '/')), data.port)
  {
    NoticeSentWhenDue(t, newt, data, failing);
    NoticeComesFirst(t, newt, data, failing);
  }

  lemma NoticeSentWhenDue(t: Tables, newt: Option<Newt>, data: GetConfigData, failing: set<Call>)
    ensures var e := GetConfig(t, newt, data, failing);
      (exists k :: 0 <= k < |e.calls| && e.calls[k].SendToExitNode?) <==>
        && Proceeds(t, newt, data)
        && var previous := FindSite(t.sites, newt.value.siteId.value).value;
           && TruthyInt(previous.exitNodeId)
           && FindExitNode(t.exitNodes, previous.exitNodeId.value).Some?
           && NoticeDue(FindExitNode(t.exitNodes, previous.exitNodeId.value).value, previous)
  {
    var e := GetConfig(t, newt, data, failing);
    if Proceeds(t, newt, data) {
      var siteId := newt.value.siteId.value;
      var previous := FindSite(t.sites, siteId).value;
      var site := Reported(previous, data.publicKey.value, data.port.value);
      var exitNode := if TruthyInt(site.exitNodeId) then FindExitNode(t.exitNodes, site.exitNodeId.value) else None;
      if !(TruthyInt(site.exitNodeId) && exitNode.None?) {
        var notice := if exitNode.Some? && NoticeDue(exitNode.value, previous)
                      then [ProxyMappingNotice(exitNode.value, previous, site)] else [];
        if !(notice != [] && notice[0] in failing) {
          var peers := BuildPeers(site, exitNode, ClientsOfSite(t.clients, t.clientSites, siteId));
          assert e.calls == notice + peers.calls;
          if notice != [] {
            assert e.calls[0] == notice[0];
          }
        } else {
          assert e.calls[0].SendToExitNode?;
        }
      }
    }
  }

  lemma NoticeComesFirst(t: Tables, newt: Option<Newt>, data: GetConfigData, failing: set<Call>)
    ensures var e := GetConfig(t, newt, data, failing);
      forall k :: 0 <= k < |e.calls| && e.calls[k].SendToExitNode? ==>
        var previous := FindSite(t.sites, newt.value.siteId.value).value;
        && k == 0
        && e.calls[k].oldDestination == ProxyDestination(Some(PrefixBefore(previous.subnet.value, '/')), previous.listenPort)
        && e.calls[k].newDestination == ProxyDestination(Some(PrefixBefore(previous.subnet.value, '/')), data.port)
  {
    var e := GetConfig(t, newt, data, failing);
    if Proceeds(t, newt, data) {
      var siteId := newt.value.siteId.value;
      var previous := FindSite(t.sites, siteId).value;
      var site := Reported(previous, data.publicKey.value, data.port.value);
      var exitNode := if TruthyInt(site.exitNodeId) then FindExitNode(t.exitNodes, site.exitNodeId.value) else None;
      if !(TruthyInt(site.exitNodeId) && exitNode.None?) {
        var notice := if exitNode.Some? && NoticeDue(exitNode.value, previous)
                      then [ProxyMappingNotice(exitNode.value, previous, site)] else [];
        if !(notice != [] && notice[0] in failing) {
          var peers := BuildPeers(site, exitNode, ClientsOfSite(t.clients, t.clientSites, siteId));
          assert e.calls == notice + peers.calls;
          if notice != [] {
            assert e.calls[0] == notice[0];
          }
        } else {
          assert e.calls[0].SendToExitNode?;
        }
      }
    }
  }

  /** Each time the handler gets as far as the peers it replies, to the sender only,
      with `newt/wg/receive-config` and the site's address. */
  lemma GetConfigReply(t: Tables, newt: Option<Newt>, data: GetConfigData, failing: set<Call>)
    ensures var e := GetConfig(t, newt, data, failing);
      e.outcome == Returned(None) <==> !Proceeds(t, newt, data)
    ensures var e := GetConfig(t, newt, data, failing);
      e.outcome.Returned? && e.outcome.reply.Some? ==>
        && var reply := e.outcome.reply.value;
        && !reply.broadcast && !reply.excludeSender
        && MessageType(reply.message) == "newt/wg/receive-config"
        && reply.message.ipAddress == FindSite(t.sites, newt.value.siteId.value).value.address
        && reply.message.tcpTargets == TargetsWhere(ResourcesOfSite(t.siteResources, newt.value.siteId.value), true)
        && reply.message.udpTargets == TargetsWhere(ResourcesOfSite(t.siteResources, newt.value.siteId.value), false)
  {
    if Proceeds(t, newt, data) {
      PartitionIsFilter(ResourcesOfSite(t.siteResources, newt.value.siteId.value));
    }
  }

  /** The client rows linked to the site that pass the filter are exactly the ones
      sent: each one's descriptor and `updatePeer` call are in the batch, and each
      descriptor of the batch is one of theirs. */
  lemma PeersOfSite(clients: seq<Client>, links: seq<ClientSite>, siteId: int, site: Site, exitNode: Option<ExitNode>)
    ensures var peers := BuildPeers(site, exitNode, ClientsOfSite(clients, links, siteId));
      forall c, l :: (c in clients && l in links && l.siteId == siteId && l.clientId == c.clientId
                      && PeerFor(site, exitNode, JoinedClient(c, l)).Some?) ==>
        && PeerFor(site, exitNode, JoinedClient(c, l)).value.descriptor in peers.descriptors
        && PeerFor(site, exitNode, JoinedClient(c, l)).value.call in peers.calls
    ensures var peers := BuildPeers(site, exitNode, ClientsOfSite(clients, links, siteId));
      forall d :: d in peers.descriptors ==>
        exists c, l :: c in clients && l in links && l.siteId == siteId && l.clientId == c.clientId
          && PeerFor(site, exitNode, JoinedClient(c, l)).Some? && PeerFor(site, exitNode, JoinedClient(c, l)).value.descriptor == d
  {
    var joined := ClientsOfSite(clients, links, siteId);
    var peers := BuildPeers(site, exitNode, joined);
    forall d | d in peers.descriptors
      ensures exists c, l :: (c in clients && l in links && l.siteId == siteId && l.clientId == c.clientId
        && PeerFor(site, exitNode, JoinedClient(c, l)).Some? && PeerFor(site, exitNode, JoinedClient(c, l)).value.descriptor == d)
    {
      PeerOfDescriptor(clients, links, siteId, site, exitNode, d);
    }
  }

  lemma PeerOfDescriptor(clients: seq<Client>, links: seq<ClientSite>, siteId: int, site: Site, exitNode: Option<ExitNode>,
                         d: PeerDescriptor)
    requires d in BuildPeers(site, exitNode, ClientsOfSite(clients, links, siteId)).descriptors
    ensures exists c, l :: (c in clients && l in links && l.siteId == siteId && l.clientId == c.clientId
      && PeerFor(site, exitNode, JoinedClient(c, l)).Some? && PeerFor(site, exitNode, JoinedClient(c, l)).value.descriptor == d)
  {
    var joined := ClientsOfSite(clients, links, siteId);
    var peers := BuildPeers(site, exitNode, joined);
    var entries := PeerEntries(site, exitNode, joined);
    var k :| 0 <= k < |peers.descriptors| && peers.descriptors[k] == d;
    PeerEntriesExact(site, exitNode, joined);
    assert entries[k] in entries && entries[k].descriptor == d;
    var j :| j in joined && PeerFor(site, exitNode, j) == Some(entries[k]);
    JoinedIsLinked(clients, links, siteId, j);
    var c, l := j.client, j.link;
    assert JoinedClient(c, l) == j;
    assert PeerFor(site, exitNode, JoinedClient(c, l)).Some? && PeerFor(site, exitNode, JoinedClient(c, l)).value.descriptor == d;
  }

  lemma JoinedIsLinked(clients: seq<Client>, links: seq<ClientSite>, siteId: int, j: JoinedClient)
    requires j in ClientsOfSite(clients, links, siteId)
    ensures j.client in clients && j.link in links && j.link.siteId == siteId && j.link.clientId == j.client.clientId
  {
    var joined := ClientsOfSite(clients, links, siteId);
    var i :| 0 <= i < |joined| && joined[i] == j;
  }

  /** The reply's peers are the batch built from the site's joined clients, in join
      order, and its `updatePeer` calls close the call log in the same order. */
  lemma GetConfigPeers(t: Tables, newt: Option<Newt>, data: GetConfigData, failing: set<Call>)
    requires Proceeds(t, newt, data)
    ensures var e := GetConfig(t, newt, data, failing);
      var siteId := newt.value.siteId.value;
      var site := Reported(FindSite(t.sites, siteId).value, data.publicKey.value, data.port.value);
      var exitNode := if TruthyInt(site.exitNodeId) then FindExitNode(t.exitNodes, site.exitNodeId.value) else None;
      var peers := BuildPeers(site, exitNode, ClientsOfSite(t.clients, t.clientSites, siteId));
      e.outcome.Returned? ==>
        && e.outcome.reply.Some?
        && e.outcome.reply.value.message.peers == peers.descriptors
        && |peers.calls| <= |e.calls| && e.calls[|e.calls| - |peers.calls|..] == peers.calls
  {
    var e := GetConfig(t, newt, data, failing);
    var siteId := newt.value.siteId.value;
    var site := Reported(FindSite(t.sites, siteId).value, data.publicKey.value, data.port.value);
    var exitNode := if TruthyInt(site.exitNodeId) then FindExitNode(t.exitNodes, site.exitNodeId.value) else None;
    var peers := BuildPeers(site, exitNode, ClientsOfSite(t.clients, t.clientSites, siteId));
    if e.outcome.Returned? {
      var notice := if exitNode.Some? && NoticeDue(exitNode.value, FindSite(t.sites, siteId).value)
                    then [ProxyMappingNotice(exitNode.value, FindSite(t.sites, siteId).value, site)] else [];
      assert e.calls == notice + peers.calls;
      assert e.calls[|notice|..] == peers.calls;
    }
  }

  /** The handler throws (no reply) exactly when the site names an exit node that
      is not in the table, or when the awaited exit-node notice fails. */
  lemma GetConfigThrows(t: Tables, newt: Option<Newt>, data: GetConfigData, failing: set<Call>)
    ensures GetConfig(t, newt, data, failing).outcome == Threw <==>
      && Proceeds(t, newt, data)
      && var previous := FindSite(t.sites, newt.value.siteId.value).value;
         && TruthyInt(previous.exitNodeId)
         && var exitNode := FindExitNode(t.exitNodes, previous.exitNodeId.value);
            || exitNode.None?
            || (NoticeDue(exitNode.value, previous)
                && ProxyMappingNotice(exitNode.value, previous, Reported(previous, data.publicKey.value, data.port.value)) in failing)
  {
  }

  /** Only the exit-node notice's failure matters: a rejected `updatePeer` changes
      neither the reply (the client's descriptor is still sent), nor the other
      clients, nor the tables or the calls issued. */
  lemma UpdatePeerFailuresContained(t: Tables, newt: Option<Newt>, data: GetConfigData, failing: set<Call>)
    ensures GetConfig(t, newt, data, failing)
         == GetConfig(t, newt, data, set c | c in failing && c.SendToExitNode?)
  {
  }

  /** A relayed client of a site with an exit node is configured through the exit
      node's relay port, and the site is told not to dial it. */
  lemma RelayedPeerUsesRelayPort(site: Site, exitNode: ExitNode, j: JoinedClient)
    requires j.link.isRelayed && Eligible(j) && TruthyText(site.publicKey) && TruthyInt(site.exitNodeId)
    ensures PeerFor(site, Some(exitNode), j).Some?
    ensures PeerFor(site, Some(exitNode), j).value.call.config.endpoint == exitNode.endpoint + ":21820"
    ensures PeerFor(site, Some(exitNode), j).value.descriptor.endpoint == Some("")
  {
  }
}
