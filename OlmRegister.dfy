/** The client agent's `olm/wg/register` handler
    (server/routers/olm/handleOlmRegisterMessage.ts): hole-punch candidates,
    the agent's version, the key-change reset of every relay flag, then one
    pass over the client's sites that issues peer-manager calls and collects
    the per-site configuration of the `olm/wg/connect` reply. */
module OlmRegister {
  import opened Common
  import opened Store

  /** The message body, read without validation. */
  datatype RegisterData = RegisterData(publicKey: Option<string>, relay: Option<bool>, olmVersion: Option<string>)

  /** `relay == true`, and equally the truthiness of `relay`. */
  predicate RelayRequested(data: RegisterData) {
    data.relay == Some(true)
  }

  // ---------------------------------------------------------------------
  // Hole punching
  // ---------------------------------------------------------------------

  /** `{publicKey, endpoint}` of every listed exit node, in list order. */
  function Candidates(nodes: seq<ExitNode>): (r: seq<HolepunchCandidate>)
    ensures |r| == |nodes|
    ensures forall i :: 0 <= i < |nodes| ==> r[i] == HolepunchCandidate(nodes[i].publicKey, nodes[i].endpoint)
  {
    seq(|nodes|, i requires 0 <= i < |nodes| => HolepunchCandidate(nodes[i].publicKey, nodes[i].endpoint))
  }

  /** The legacy single-candidate message indexes the list unguarded: over an empty
      listing `allExitNodes[0].publicKey` is a TypeError, thrown before any write. */
  predicate LegacyHolepunchThrows(client: Client, data: RegisterData, listed: seq<ExitNode>) {
    TruthyInt(client.exitNodeId) && !TruthyText(data.olmVersion) && |listed| == 0
  }

  /** `listExitNodes(orgId, true)`, `olm/wg/holepunch/all`, and for an agent that
      sent no version the legacy `olm/wg/holepunch` with the first node, when there is one. */
  function HolepunchCalls(olm: Olm, client: Client, data: RegisterData, listed: seq<ExitNode>): seq<Call> {
    if !TruthyInt(client.exitNodeId) then []
    else
      [ListExitNodes(client.orgId, true), SendToClient(olm.olmId, HolepunchAll(Candidates(listed)))]
      + (if !TruthyText(data.olmVersion) && |listed| > 0
         then [SendToClient(olm.olmId, Holepunch(listed[0].publicKey, listed[0].endpoint))]
         else [])
  }

  // ---------------------------------------------------------------------
  // Writes
  // ---------------------------------------------------------------------

  /** `update olms set version where olmId = ?`. */
  function SetOlmVersion(rows: seq<Olm>, olmId: string, version: string): seq<Olm> {
    seq(|rows|, i requires 0 <= i < |rows| => if rows[i].olmId == olmId then rows[i].(version := Some(version)) else rows[i])
  }

  /** `update clients set pubKey where clientId = ?`. */
  function SetClientKey(rows: seq<Client>, clientId: int, publicKey: string): seq<Client> {
    seq(|rows|, i requires 0 <= i < |rows| => if rows[i].clientId == clientId then rows[i].(pubKey := Some(publicKey)) else rows[i])
  }

  /** `update clientSites set isRelayed where clientId = ?`. */
  function ResetRelay(rows: seq<ClientSite>, clientId: int, relayed: bool): seq<ClientSite> {
    seq(|rows|, i requires 0 <= i < |rows| => if rows[i].clientId == clientId then rows[i].(isRelayed := relayed) else rows[i])
  }

  /** The stored key differs from the reported one (`client.pubKey !== publicKey`). */
  predicate KeyChanged(client: Client, publicKey: string) {
    client.pubKey != Some(publicKey)
  }

  // ---------------------------------------------------------------------
  // The site pass
  // ---------------------------------------------------------------------

  /** The site rows a link joins with. */
  function SitesOfLink(sites: seq<Site>, link: ClientSite): (r: seq<Site>)
    ensures forall k :: 0 <= k < |r| ==> r[k] in sites && r[k].siteId == link.siteId
    ensures forall s :: s in sites && s.siteId == link.siteId ==> s in r
  {
    if sites == [] then []
    else (if sites[0].siteId == link.siteId then [sites[0]] else []) + SitesOfLink(sites[1..], link)
  }

  /** `sites inner join clientSites on siteId where clientSites.clientId = clientId`, link by link. */
  function SitesOfClient(sites: seq<Site>, links: seq<ClientSite>, clientId: int): (r: seq<Site>)
    ensures forall k :: 0 <= k < |r| ==> r[k] in sites
    ensures forall k :: 0 <= k < |r| ==> exists l :: l in links && l.clientId == clientId && l.siteId == r[k].siteId
    ensures forall s, l :: s in sites && l in links && l.clientId == clientId && l.siteId == s.siteId ==> s in r
  {
    if links == [] then []
    else (if links[0].clientId == clientId then SitesOfLink(sites, links[0]) else [])
         + SitesOfClient(sites, links[1..], clientId)
  }

  /** What the pass reads besides the site: the client row as first read, the
      reported key, the relay request, the tables as they stand after the
      writes, and the outside calls that reject. */
  datatype PassContext = PassContext(
    client: Client,
    publicKey: string,
    relay: bool,
    clientSites: seq<ClientSite>,
    exitNodes: seq<ExitNode>,
    failing: set<Call>)

  /** The end of one iteration: skipped (`continue`), configured (`push`), or
      thrown out of the handler by an awaited call or a TypeError. */
  datatype SiteStep =
    | Skipped(calls: seq<Call>)
    | Configured(calls: seq<Call>, config: SiteConfig)
    | Aborted(calls: seq<Call>)

  /** `deletePeer(siteId, oldKey)` when the stored key is set and differs. */
  function DeleteCalls(ctx: PassContext, site: Site): seq<Call> {
    if TruthyText(ctx.client.pubKey) && ctx.client.pubKey.value != ctx.publicKey
    then [DeletePeer(site.siteId, ctx.client.pubKey.value)] else []
  }

  /** The peer added to the site: the client's `/32`, and no endpoint when it will come through the relay. */
  function AddedPeer(ctx: PassContext, link: ClientSite): PeerDescriptor
    requires ctx.client.subnet.Some? && link.endpoint.Some?
  {
    PeerDescriptor(ctx.publicKey, [HostRoute(ctx.client.subnet.value)],
      Some(if ctx.relay then "" else link.endpoint.value))
  }

  /** The configuration pushed for a site, through its exit node's relay port when relaying. */
  function ConfigFor(site: Site, endpoint: string): SiteConfig {
    SiteConfig(site.siteId, endpoint, site.publicKey, site.address, site.listenPort, site.remoteSubnets)
  }

  /** One iteration of the `for` loop over the client's sites. */
  function Step(ctx: PassContext, site: Site): SiteStep {
    if !TruthyInt(site.exitNodeId) || !TruthyText(site.endpoint) then Skipped([])
    else
      var deletes := DeleteCalls(ctx, site);
      if deletes != [] && deletes[0] in ctx.failing then Aborted(deletes)
      else if !TruthyText(site.subnet) then Skipped(deletes)
      else
        var link := FindClientSite(ctx.clientSites, ctx.client.clientId, site.siteId);
        if link.None? then Aborted(deletes)   // `clientSite.endpoint` on a missing row
        else if TruthyText(link.value.endpoint) && ctx.client.subnet.None? then Aborted(deletes)   // `client.subnet.split` on null
        else
          var adds := if TruthyText(link.value.endpoint) then [AddPeer(site.siteId, AddedPeer(ctx, link.value))] else [];
          if adds != [] && adds[0] in ctx.failing then Aborted(deletes + adds)
          else if ctx.relay then
            var exitNode := FindExitNode(ctx.exitNodes, site.exitNodeId.value);
            if exitNode.None? then Skipped(deletes + adds)
            else Configured(deletes + adds, ConfigFor(site, RelayEndpoint(exitNode.value.endpoint)))
          else Configured(deletes + adds, ConfigFor(site, site.endpoint.value))
  }

  /** The calls issued so far, the configurations pushed so far, and whether the loop was thrown out of. */
  datatype PassState = PassState(calls: seq<Call>, configs: seq<SiteConfig>, aborted: bool)

  /** What one iteration does to the loop's state: nothing once thrown out of. */
  function Advance(before: PassState, step: SiteStep): PassState {
    if before.aborted then before
    else
      match step
      case Skipped(calls) => before.(calls := before.calls + calls)
      case Configured(calls, config) => PassState(before.calls + calls, before.configs + [config], false)
      case Aborted(calls) => PassState(before.calls + calls, before.configs, true)
  }

  /** Reference definition of the pass over the first sites, iteration by iteration. */
  function Pass(ctx: PassContext, sites: seq<Site>): PassState
    decreases |sites|
  {
    if sites == [] then PassState([], [], false)
    else Advance(Pass(ctx, sites[..|sites| - 1]), Step(ctx, sites[|sites| - 1]))
  }

  lemma PassStep(ctx: PassContext, sites: seq<Site>, i: nat)
    requires i < |sites|
    ensures Pass(ctx, sites[..i + 1]) == Advance(Pass(ctx, sites[..i]), Step(ctx, sites[i]))
  {
    assert sites[..i + 1][..i] == sites[..i];
  }

  /** Once thrown out of, later sites are never looked at. */
  lemma {:induction false} AbortIsFinal(ctx: PassContext, sites: seq<Site>, k: nat)
    requires k <= |sites|
    requires Pass(ctx, sites[..k]).aborted
    ensures Pass(ctx, sites) == Pass(ctx, sites[..k])
    decreases |sites|
  {
    if k < |sites| {
      var init := sites[..|sites| - 1];
      assert init[..k] == sites[..k];
      AbortIsFinal(ctx, init, k);
    } else {
      assert sites[..k] == sites;
    }
  }

  // ---------------------------------------------------------------------
  // The handler
  // ---------------------------------------------------------------------

  /** The guards before the first effect: a connection bound to a client, a reported key, a known client. */
  predicate Proceeds(t: Tables, olm: Option<Olm>, data: RegisterData) {
    && olm.Some? && TruthyInt(olm.value.clientId) && TruthyText(data.publicKey)
    && FindClient(t.clients, olm.value.clientId.value).Some?
  }

  /** The client row the handler reads. */
  function ClientOf(t: Tables, olm: Option<Olm>, data: RegisterData): Client
    requires Proceeds(t, olm, data)
  {
    FindClient(t.clients, olm.value.clientId.value).value
  }

  /** `listExitNodes` is awaited without a handler: when it rejects, the handler throws before any write. */
  predicate ListingFails(client: Client, failing: set<Call>) {
    TruthyInt(client.exitNodeId) && ListExitNodes(client.orgId, true) in failing
  }

  /** The tables after the version and key writes. */
  function Written(t: Tables, olm: Olm, client: Client, data: RegisterData): Tables
    requires data.publicKey.Some?
  {
    var t1 := if TruthyText(data.olmVersion) then t.(olms := SetOlmVersion(t.olms, olm.olmId, data.olmVersion.value)) else t;
    if KeyChanged(client, data.publicKey.value)
    then t1.(clients := SetClientKey(t1.clients, client.clientId, data.publicKey.value),
             clientSites := ResetRelay(t1.clientSites, client.clientId, RelayRequested(data)))
    else t1
  }

  function ContextOf(t: Tables, client: Client, data: RegisterData, failing: set<Call>): PassContext
    requires data.publicKey.Some?
  {
    PassContext(client, data.publicKey.value, RelayRequested(data), t.clientSites, t.exitNodes, failing)
  }

  /** `olm/register/no-sites` when the client reaches no site at all. */
  function NoSitesCalls(olm: Olm, sites: seq<Site>): seq<Call> {
    if |sites| == 0 then [SendToClient(olm.olmId, NoSites)] else []
  }

  /** Reference definition of one run; `listed` is what `listExitNodes` returns. */
  function Register(t: Tables, olm: Option<Olm>, data: RegisterData, listed: seq<ExitNode>, failing: set<Call>): Effect {
    if !Proceeds(t, olm, data) then Effect(t, Returned(None), [])
    else
      var client := ClientOf(t, olm, data);
      if ListingFails(client, failing) then Effect(t, Threw, [ListExitNodes(client.orgId, true)])
      else if LegacyHolepunchThrows(client, data, listed) then Effect(t, Threw, HolepunchCalls(olm.value, client, data, listed))
      else AfterWrites(Written(t, olm.value, client, data), olm.value, client, data, listed, failing)
  }

  /** The rest of a run once the writes are done: the site pass over the written tables and the reply. */
  function AfterWrites(t1: Tables, olm: Olm, client: Client, data: RegisterData, listed: seq<ExitNode>, failing: set<Call>): Effect
    requires data.publicKey.Some?
  {
    var sites := SitesOfClient(t1.sites, t1.clientSites, client.clientId);
    var pass := Pass(ContextOf(t1, client, data, failing), sites);
    Effect(t1,
      if pass.aborted then Threw else Returned(Some(Unicast(Connect(pass.configs, client.subnet)))),
      HolepunchCalls(olm, client, data, listed) + NoSitesCalls(olm, sites) + pass.calls)
  }

  /** The handler, step by step, against the database. */
  method HandleOlmRegisterMessage(db: Database, olm: Option<Olm>, data: RegisterData, listed: seq<ExitNode>, failing: set<Call>)
    returns (outcome: Outcome, calls: seq<Call>)
    modifies db
    ensures Effect(db.Snapshot(), outcome, calls) == Register(old(db.Snapshot()), olm, data, listed, failing)
  {
    outcome, calls := Returned(None), [];
    if olm.None? || !TruthyInt(olm.value.clientId) {
      return;
    }
    var clientId := olm.value.clientId.value;
    if !TruthyText(data.publicKey) {
      return;
    }
    var found := FindClient(db.clients, clientId);
    if found.None? {
      return;
    }
    var client := found.value;
    ghost var t0 := db.Snapshot();
    assert Proceeds(t0, olm, data) && ClientOf(t0, olm, data) == client;
    if ListingFails(client, failing) {
      calls, outcome := [ListExitNodes(client.orgId, true)], Threw;
      return;
    }
    var threw;
    calls, threw := SendHolepunch(olm.value, client, data, listed);
    if threw {
      outcome := Threw;
      return;
    }
    assert Register(t0, olm, data, listed, failing)
        == AfterWrites(Written(t0, olm.value, client, data), olm.value, client, data, listed, failing);
    RecordRegistration(db, olm.value, client, data);
    ghost var t1 := db.Snapshot();

    var sitesData := SitesOfClient(db.sites, db.clientSites, clientId);
    if |sitesData| == 0 {
      calls := calls + [SendToClient(olm.value.olmId, NoSites)];
    }
    assert calls == HolepunchCalls(olm.value, client, data, listed) + NoSitesCalls(olm.value, sitesData);
    var pass := ConfigureSites(ContextOf(db.Snapshot(), client, data, failing), sitesData);
    calls := calls + pass.calls;
    assert calls == HolepunchCalls(olm.value, client, data, listed) + NoSitesCalls(olm.value, sitesData) + pass.calls;
    if pass.aborted {
      outcome := Threw;
    } else {
      outcome := Returned(Some(Unicast(Connect(pass.configs, client.subnet))));
    }
    assert AfterWrites(t1, olm.value, client, data, listed, failing) == Effect(t1, outcome, calls);
  }

  /** The hole-punch messages, sent before anything is written; `threw` when the
      legacy message reads the first node of an empty listing. */
  method SendHolepunch(olm: Olm, client: Client, data: RegisterData, listed: seq<ExitNode>) returns (calls: seq<Call>, threw: bool)
    ensures calls == HolepunchCalls(olm, client, data, listed)
    ensures threw == LegacyHolepunchThrows(client, data, listed)
  {
    calls, threw := [], false;
    if TruthyInt(client.exitNodeId) {
      calls := calls + [ListExitNodes(client.orgId, true)];
      var allExitNodes := listed;
      calls := calls + [SendToClient(olm.olmId, HolepunchAll(Candidates(allExitNodes)))];
      if !TruthyText(data.olmVersion) {
        if |allExitNodes| == 0 {
          threw := true;
          return;
        }
        calls := calls + [SendToClient(olm.olmId, Holepunch(allExitNodes[0].publicKey, allExitNodes[0].endpoint))];
      }
    }
  }

  /** The version write, then on a key change the key write and the reset of every relay flag. */
  method RecordRegistration(db: Database, olm: Olm, client: Client, data: RegisterData)
    requires data.publicKey.Some?
    modifies db
    ensures db.Snapshot() == Written(old(db.Snapshot()), olm, client, data)
  {
    if TruthyText(data.olmVersion) {
      db.olms := SetOlmVersion(db.olms, olm.olmId, data.olmVersion.value);
    }
    if client.pubKey != Some(data.publicKey.value) {
      db.clients := SetClientKey(db.clients, client.clientId, data.publicKey.value);
      db.clientSites := ResetRelay(db.clientSites, client.clientId, data.relay == Some(true));
    }
  }

  /** The `for` loop over the client's sites, iteration by iteration. */
  method ConfigureSites(ctx: PassContext, sitesData: seq<Site>) returns (r: PassState)
    ensures r == Pass(ctx, sitesData)
  {
    var loopCalls: seq<Call> := [];
    var siteConfigurations: seq<SiteConfig> := [];
    var i := 0;
    while i < |sitesData|
      invariant 0 <= i <= |sitesData|
      invariant Pass(ctx, sitesData[..i]) == PassState(loopCalls, siteConfigurations, false)
    {
      PassStep(ctx, sitesData, i);
      var next := ConfigureSite(ctx, sitesData[i], loopCalls, siteConfigurations);
      i := i + 1;
      if next.aborted {
        r := next;
        AbortIsFinal(ctx, sitesData, i);
        return;
      }
      loopCalls, siteConfigurations := next.calls, next.configs;
    }
    assert sitesData[..i] == sitesData;
    r := PassState(loopCalls, siteConfigurations, false);
  }

  /** The body of the loop for one site: `continue`, `push`, or a throw out of the handler. */
  method ConfigureSite(ctx: PassContext, site: Site, loopCalls: seq<Call>, siteConfigurations: seq<SiteConfig>)
    returns (r: PassState)
    ensures r == Advance(PassState(loopCalls, siteConfigurations, false), Step(ctx, site))
  {
    var client := ctx.client;
    var publicKey := ctx.publicKey;
    var relay := ctx.relay;
    r := PassState(loopCalls, siteConfigurations, false);
    if !TruthyInt(site.exitNodeId) {
      return;
    }
    if !TruthyText(site.endpoint) {
      return;
    }
    ghost var deletes := DeleteCalls(ctx, site);
    if TruthyText(client.pubKey) && client.pubKey.value != publicKey {
      var deletion := DeletePeer(site.siteId, client.pubKey.value);
      r := r.(calls := r.calls + [deletion]);
      if deletion in ctx.failing {
        r := r.(aborted := true);
        return;
      }
    }
    assert r.calls == loopCalls + deletes;
    if !TruthyText(site.subnet) {
      return;
    }
    var clientSite := FindClientSite(ctx.clientSites, client.clientId, site.siteId);
    if clientSite.None? {
      r := r.(aborted := true);
      return;
    }
    ghost var adds: seq<Call> := [];
    if TruthyText(clientSite.value.endpoint) {
      if client.subnet.None? {
        r := r.(aborted := true);
        return;
      }
      var addition := AddPeer(site.siteId, PeerDescriptor(publicKey, [HostRoute(client.subnet.value)],
        Some(if relay then "" else clientSite.value.endpoint.value)));
      r := r.(calls := r.calls + [addition]);
      adds := [addition];
      if addition in ctx.failing {
        r := r.(aborted := true);
        return;
      }
    }
    assert r.calls == loopCalls + (deletes + adds);
    var endpoint := site.endpoint.value;
    if relay {
      var exitNode := FindExitNode(ctx.exitNodes, site.exitNodeId.value);
      if exitNode.None? {
        return;
      }
      endpoint := RelayEndpoint(exitNode.value.endpoint);
    }
    r := r.(configs := r.configs + [ConfigFor(site, endpoint)]);
  }

  // ---------------------------------------------------------------------
  // Properties
  // ---------------------------------------------------------------------

  /** Every joined site has the link row the loop looks up again. */
  lemma JoinedSitesHaveLinks(sites: seq<Site>, links: seq<ClientSite>, clientId: int)
    ensures forall s :: s in SitesOfClient(sites, links, clientId) ==> FindClientSite(links, clientId, s.siteId).Some?
  {
    var r := SitesOfClient(sites, links, clientId);
    forall s | s in r
      ensures FindClientSite(links, clientId, s.siteId).Some?
    {
      var k :| 0 <= k < |r| && r[k] == s;
      var l :| l in links && l.clientId == clientId && l.siteId == r[k].siteId;
      var i :| 0 <= i < |links| && links[i] == l;
    }
  }

  /** No guard passes: no reply, no write, no call. */
  lemma RegisterSilentUntilReady(t: Tables, olm: Option<Olm>, data: RegisterData, listed: seq<ExitNode>, failing: set<Call>)
    requires !Proceeds(t, olm, data)
    ensures Register(t, olm, data, listed, failing) == Effect(t, Returned(None), [])
  {
  }

  /** The loop only talks to peer managers. */
  lemma {:induction false} PassCallsArePeerCalls(ctx: PassContext, sites: seq<Site>)
    ensures forall c :: c in Pass(ctx, sites).calls ==> c.DeletePeer? || c.AddPeer?
    decreases |sites|
  {
    if sites != [] {
      PassCallsArePeerCalls(ctx, sites[..|sites| - 1]);
    }
  }

  /** `olm/wg/holepunch/all` goes out iff the client has an exit node, listing every
      listed node in order, right after the listing; the legacy single message, third,
      iff the agent also sent no version and some node was listed. */
  predicate HolepunchShape(calls: seq<Call>, olmId: string, client: Client, data: RegisterData, listed: seq<ExitNode>) {
    && ((exists c :: c in calls && c.SendToClient? && c.message.HolepunchAll?) <==> TruthyInt(client.exitNodeId))
    && (TruthyInt(client.exitNodeId) ==>
          |calls| >= 2 && calls[..2] == [ListExitNodes(client.orgId, true), SendToClient(olmId, HolepunchAll(Candidates(listed)))])
    && ((exists c :: c in calls && c.SendToClient? && c.message.Holepunch?)
        <==> TruthyInt(client.exitNodeId) && !TruthyText(data.olmVersion) && |listed| > 0)
    && (TruthyInt(client.exitNodeId) && !TruthyText(data.olmVersion) && |listed| > 0 ==>
          |calls| >= 3 && calls[2] == SendToClient(olmId, Holepunch(listed[0].publicKey, listed[0].endpoint)))
  }

  lemma RegisterHolepunch(t: Tables, olm: Option<Olm>, data: RegisterData, listed: seq<ExitNode>, failing: set<Call>)
    requires Proceeds(t, olm, data)
    requires !ListingFails(ClientOf(t, olm, data), failing)
    ensures HolepunchShape(Register(t, olm, data, listed, failing).calls, olm.value.olmId, ClientOf(t, olm, data), data, listed)
  {
    var client := ClientOf(t, olm, data);
    if LegacyHolepunchThrows(client, data, listed) {
      var head := HolepunchCalls(olm.value, client, data, listed);
      assert head + [] == head;
      HolepunchLeads(olm.value, client, data, listed, []);
    } else {
      AfterWritesHolepunch(Written(t, olm.value, client, data), olm.value, client, data, listed, failing);
    }
  }

  /** An agent that sent no version, whose client has an exit node, over an empty
      listing: the handler throws right after `olm/wg/holepunch/all`, before any write. */
  lemma RegisterEmptyListing(t: Tables, olm: Option<Olm>, data: RegisterData, listed: seq<ExitNode>, failing: set<Call>)
    requires Proceeds(t, olm, data) && !ListingFails(ClientOf(t, olm, data), failing)
    requires TruthyInt(ClientOf(t, olm, data).exitNodeId) && !TruthyText(data.olmVersion) && listed == []
    ensures Register(t, olm, data, listed, failing)
         == Effect(t, Threw, [ListExitNodes(ClientOf(t, olm, data).orgId, true), SendToClient(olm.value.olmId, HolepunchAll([]))])
  {
  }

  lemma AfterWritesHolepunch(t1: Tables, olm: Olm, client: Client, data: RegisterData, listed: seq<ExitNode>, failing: set<Call>)
    requires data.publicKey.Some?
    ensures HolepunchShape(AfterWrites(t1, olm, client, data, listed, failing).calls, olm.olmId, client, data, listed)
  {
    var sites := SitesOfClient(t1.sites, t1.clientSites, client.clientId);
    var pass := Pass(ContextOf(t1, client, data, failing), sites);
    PassCallsArePeerCalls(ContextOf(t1, client, data, failing), sites);
    var rest := NoSitesCalls(olm, sites) + pass.calls;
    assert AfterWrites(t1, olm, client, data, listed, failing).calls == HolepunchCalls(olm, client, data, listed) + rest;
    HolepunchLeads(olm, client, data, listed, rest);
  }

  /** The hole-punch calls in front of calls that hold no hole-punch message. */
  lemma HolepunchLeads(olm: Olm, client: Client, data: RegisterData, listed: seq<ExitNode>, rest: seq<Call>)
    requires forall c :: c in rest ==> !(c.SendToClient? && (c.message.HolepunchAll? || c.message.Holepunch?))
    ensures HolepunchShape(HolepunchCalls(olm, client, data, listed) + rest, olm.olmId, client, data, listed)
  {
    var head := HolepunchCalls(olm, client, data, listed);
    var calls := head + rest;
    if TruthyInt(client.exitNodeId) {
      assert calls[1] == SendToClient(olm.olmId, HolepunchAll(Candidates(listed)));
      assert calls[..2] == head[..2];
      if !TruthyText(data.olmVersion) && |listed| > 0 {
        assert calls[2] == head[2];
      }
    }
    forall c | c in calls && c.SendToClient? && c.message.Holepunch?
      ensures TruthyInt(client.exitNodeId) && !TruthyText(data.olmVersion) && |listed| > 0
    {
      assert c in head;
    }
    forall c | c in calls && c.SendToClient? && c.message.HolepunchAll?
      ensures TruthyInt(client.exitNodeId)
    {
      assert c in head;
    }
  }

  /** The writes: the version iff one was sent; the key and every relay flag of the
      client iff the key changed; nothing else. A rejected listing, or a legacy hole
      punch over an empty listing, throws before anything is written. */
  lemma RegisterWrites(t: Tables, olm: Option<Olm>, data: RegisterData, listed: seq<ExitNode>, failing: set<Call>)
    requires Proceeds(t, olm, data)
    ensures var e := Register(t, olm, data, listed, failing); var client := ClientOf(t, olm, data);
      var pk := data.publicKey.value;
      && (ListingFails(client, failing) || LegacyHolepunchThrows(client, data, listed) ==> e.tables == t && e.outcome == Threw)
      && (!ListingFails(client, failing) && !LegacyHolepunchThrows(client, data, listed) ==>
        && e.tables.sites == t.sites && e.tables.exitNodes == t.exitNodes && e.tables.siteResources == t.siteResources
        && |e.tables.olms| == |t.olms| && |e.tables.clients| == |t.clients| && |e.tables.clientSites| == |t.clientSites|
        && (forall i :: 0 <= i < |t.olms| ==>
              e.tables.olms[i] == if TruthyText(data.olmVersion) && t.olms[i].olmId == olm.value.olmId
                                  then t.olms[i].(version := data.olmVersion) else t.olms[i])
        && (forall i :: 0 <= i < |t.clients| ==>
              e.tables.clients[i] == if KeyChanged(client, pk) && t.clients[i].clientId == client.clientId
                                     then t.clients[i].(pubKey := Some(pk)) else t.clients[i])
        && (forall i :: 0 <= i < |t.clientSites| ==>
              e.tables.clientSites[i] == if KeyChanged(client, pk) && t.clientSites[i].clientId == client.clientId
                                         then t.clientSites[i].(isRelayed := data.relay == Some(true)) else t.clientSites[i]))
  {
  }

  lemma {:induction false} FindClientAfterSetKey(rows: seq<Client>, clientId: int, publicKey: string)
    ensures FindClient(SetClientKey(rows, clientId, publicKey), clientId)
         == if FindClient(rows, clientId).Some? then Some(FindClient(rows, clientId).value.(pubKey := Some(publicKey))) else None
    decreases |rows|
  {
    if rows != [] {
      assert SetClientKey(rows, clientId, publicKey)[1..] == SetClientKey(rows[1..], clientId, publicKey);
      FindClientAfterSetKey(rows[1..], clientId, publicKey);
    }
  }

  lemma {:induction false} SetOlmVersionTwice(rows: seq<Olm>, olmId: string, version: string)
    ensures SetOlmVersion(SetOlmVersion(rows, olmId, version), olmId, version) == SetOlmVersion(rows, olmId, version)
  {
    var once := SetOlmVersion(rows, olmId, version);
    var twice := SetOlmVersion(once, olmId, version);
    assert |twice| == |once|;
    forall i | 0 <= i < |once| ensures twice[i] == once[i] {
      if rows[i].olmId == olmId {
        assert once[i].olmId == olmId;
      }
    }
  }

  /** Registering again with the same message writes nothing new: the stored key now
      matches, so neither the key nor the relay flags are touched a second time. */
  lemma RegisterIdempotent(t: Tables, olm: Option<Olm>, data: RegisterData, listed: seq<ExitNode>, failing: set<Call>)
    requires Proceeds(t, olm, data)
    ensures var e := Register(t, olm, data, listed, failing); var client := ClientOf(t, olm, data);
      && Proceeds(e.tables, olm, data)
      && (!ListingFails(client, failing) && !LegacyHolepunchThrows(client, data, listed) ==>
            !KeyChanged(ClientOf(e.tables, olm, data), data.publicKey.value))
      && Register(e.tables, olm, data, listed, failing).tables == e.tables
  {
    var client := ClientOf(t, olm, data);
    if ListingFails(client, failing) || LegacyHolepunchThrows(client, data, listed) {
      return;
    }
    var pk := data.publicKey.value;
    var t1 := Written(t, olm.value, client, data);
    var id := olm.value.clientId.value;
    if KeyChanged(client, pk) {
      FindClientAfterSetKey(t.clients, id, pk);
      assert FindClient(t1.clients, id) == Some(client.(pubKey := Some(pk)));
    } else {
      assert FindClient(t1.clients, id) == Some(client);
    }
    if TruthyText(data.olmVersion) {
      SetOlmVersionTwice(t.olms, olm.value.olmId, data.olmVersion.value);
    }
  }

  /** `olm/register/no-sites` goes out iff the handler gets past the hole punch and the
      client reaches no site. Unless the handler threw, the reply is the `olm/wg/connect`
      unicast carrying the client's subnet and the configurations of its sites, in site order. */
  lemma RegisterNoSites(t: Tables, olm: Option<Olm>, data: RegisterData, listed: seq<ExitNode>, failing: set<Call>)
    requires Proceeds(t, olm, data)
    ensures var e := Register(t, olm, data, listed, failing); var client := ClientOf(t, olm, data);
      var sites := SitesOfClient(e.tables.sites, e.tables.clientSites, client.clientId);
      && (SendToClient(olm.value.olmId, NoSites) in e.calls <==>
            !ListingFails(client, failing) && !LegacyHolepunchThrows(client, data, listed) && |sites| == 0)
      && (e.outcome.Returned? ==>
            (e.outcome.reply.Some? && !e.outcome.reply.value.broadcast && !e.outcome.reply.value.excludeSender
             && e.outcome.reply.value.message.Connect? && e.outcome.reply.value.message.tunnelIP == client.subnet
             && e.outcome.reply.value.message.sites == ConfiguredIn(ContextOf(e.tables, client, data, failing), sites)))
  {
    var client := ClientOf(t, olm, data);
    if !ListingFails(client, failing) && !LegacyHolepunchThrows(client, data, listed) {
      AfterWritesNoSites(Written(t, olm.value, client, data), olm.value, client, data, listed, failing);
    }
  }

  lemma AfterWritesNoSites(t1: Tables, olm: Olm, client: Client, data: RegisterData, listed: seq<ExitNode>, failing: set<Call>)
    requires data.publicKey.Some?
    ensures var e := AfterWrites(t1, olm, client, data, listed, failing);
      var sites := SitesOfClient(e.tables.sites, e.tables.clientSites, client.clientId);
      && (SendToClient(olm.olmId, NoSites) in e.calls <==> |sites| == 0)
      && (e.outcome.Returned? ==>
            (e.outcome.reply.Some? && !e.outcome.reply.value.broadcast && !e.outcome.reply.value.excludeSender
             && e.outcome.reply.value.message.Connect? && e.outcome.reply.value.message.tunnelIP == client.subnet
             && e.outcome.reply.value.message.sites == ConfiguredIn(ContextOf(e.tables, client, data, failing), sites)))
  {
    var sites := SitesOfClient(t1.sites, t1.clientSites, client.clientId);
    PassCallsArePeerCalls(ContextOf(t1, client, data, failing), sites);
    PassKeepsSiteOrder(ContextOf(t1, client, data, failing), sites);
  }

  /** The loop is thrown out of only by a rejected peer call or a client without a subnet. */
  lemma {:induction false} PassAbortCause(ctx: PassContext, sites: seq<Site>)
    requires forall s :: s in sites ==> FindClientSite(ctx.clientSites, ctx.client.clientId, s.siteId).Some?
    ensures Pass(ctx, sites).aborted ==> ctx.client.subnet.None? || exists c :: c in Pass(ctx, sites).calls && c in ctx.failing
    decreases |sites|
  {
    if sites != [] {
      var init := sites[..|sites| - 1];
      var last := sites[|sites| - 1];
      PassAbortCause(ctx, init);
      var before := Pass(ctx, init);
      if !before.aborted && Step(ctx, last).Aborted? && ctx.client.subnet.Some? {
        var calls := Step(ctx, last).calls;
        assert calls[|calls| - 1] in ctx.failing;
        assert calls[|calls| - 1] in Pass(ctx, sites).calls;
      }
    }
  }

  /** Error containment stops at the peer calls: the handler throws only when a call it
      issued rejects, when the legacy hole punch reads the first node of an empty
      listing, or when it would read the subnet of a client that has none. */
  lemma RegisterThrowsOnlyOnFailure(t: Tables, olm: Option<Olm>, data: RegisterData, listed: seq<ExitNode>, failing: set<Call>)
    requires Proceeds(t, olm, data)
    ensures var e := Register(t, olm, data, listed, failing); var client := ClientOf(t, olm, data);
      e.outcome == Threw ==>
        || client.subnet.None?
        || LegacyHolepunchThrows(client, data, listed)
        || exists c :: c in e.calls && c in failing
  {
    var client := ClientOf(t, olm, data);
    if !ListingFails(client, failing) && !LegacyHolepunchThrows(client, data, listed) {
      var t1 := Written(t, olm.value, client, data);
      var sites := SitesOfClient(t1.sites, t1.clientSites, client.clientId);
      JoinedSitesHaveLinks(t1.sites, t1.clientSites, client.clientId);
      PassAbortCause(ContextOf(t1, client, data, failing), sites);
    }
  }

  /** A site without an exit node or an endpoint is passed over with no call. */
  lemma StepSkipsUnroutable(ctx: PassContext, site: Site)
    requires !TruthyInt(site.exitNodeId) || !TruthyText(site.endpoint)
    ensures Step(ctx, site) == Skipped([])
  {
  }

  /** For a routable site the old peer is deleted first iff the stored key is set and
      differs, whether or not the site then turns out to lack a subnet. */
  lemma StepDeletesOldKey(ctx: PassContext, site: Site)
    requires TruthyInt(site.exitNodeId) && TruthyText(site.endpoint)
    ensures var calls := Step(ctx, site).calls;
      && (TruthyText(ctx.client.pubKey) && ctx.client.pubKey.value != ctx.publicKey ==>
            |calls| >= 1 && calls[0] == DeletePeer(site.siteId, ctx.client.pubKey.value))
      && (!(TruthyText(ctx.client.pubKey) && ctx.client.pubKey.value != ctx.publicKey) ==>
            forall c :: c in calls ==> !c.DeletePeer?)
  {
  }

  /** `addPeer` is called iff the link has an endpoint, with the client's `/32` and an
      empty endpoint when relaying. */
  lemma StepAddsPeer(ctx: PassContext, site: Site)
    requires TruthyInt(site.exitNodeId) && TruthyText(site.endpoint) && TruthyText(site.subnet)
    requires DeleteCalls(ctx, site) == [] || DeleteCalls(ctx, site)[0] !in ctx.failing
    requires FindClientSite(ctx.clientSites, ctx.client.clientId, site.siteId).Some?
    requires ctx.client.subnet.Some?
    ensures var link := FindClientSite(ctx.clientSites, ctx.client.clientId, site.siteId).value;
      && (forall c :: c in Step(ctx, site).calls && c.AddPeer? ==> TruthyText(link.endpoint))
      && (TruthyText(link.endpoint) ==>
            var added := AddPeer(site.siteId, PeerDescriptor(ctx.publicKey, [HostRoute(ctx.client.subnet.value)],
                                                             Some(if ctx.relay then "" else link.endpoint.value)));
            && added in Step(ctx, site).calls
            && (forall c :: c in Step(ctx, site).calls && c.AddPeer? ==> c == added))
  {
  }

  /** A pushed configuration describes its site and uses the relay port of the site's
      exit node when relaying, else the site's endpoint; a relayed site whose exit node
      is not found is left out. */
  lemma StepConfig(ctx: PassContext, site: Site)
    ensures var step := Step(ctx, site);
      && (step.Configured? ==>
            && TruthyInt(site.exitNodeId) && TruthyText(site.endpoint) && TruthyText(site.subnet)
            && step.config.siteId == site.siteId && step.config.publicKey == site.publicKey
            && step.config.serverIP == site.address && step.config.serverPort == site.listenPort
            && step.config.remoteSubnets == site.remoteSubnets
            && (!ctx.relay ==> step.config.endpoint == site.endpoint.value)
            && (ctx.relay ==>
                  (FindExitNode(ctx.exitNodes, site.exitNodeId.value).Some? &&
                   step.config.endpoint == RelayEndpoint(FindExitNode(ctx.exitNodes, site.exitNodeId.value).value.endpoint))))
      && (ctx.relay && TruthyInt(site.exitNodeId) && FindExitNode(ctx.exitNodes, site.exitNodeId.value).None? ==> !step.Configured?)
  {
  }

  /** Reference definition read from the front: the configurations of the sites, in site order. */
  function ConfiguredIn(ctx: PassContext, sites: seq<Site>): seq<SiteConfig> {
    if sites == [] then [] else ConfigOf(ctx, sites[0]) + ConfiguredIn(ctx, sites[1..])
  }

  /** The configuration one site contributes, if any. */
  function ConfigOf(ctx: PassContext, site: Site): seq<SiteConfig> {
    if Step(ctx, site).Configured? then [Step(ctx, site).config] else []
  }

  lemma {:induction false} ConfiguredInSnoc(ctx: PassContext, sites: seq<Site>, site: Site)
    ensures ConfiguredIn(ctx, sites + [site]) == ConfiguredIn(ctx, sites) + ConfigOf(ctx, site)
    decreases |sites|
  {
    if sites != [] {
      assert (sites + [site])[1..] == sites[1..] + [site];
      ConfiguredInSnoc(ctx, sites[1..], site);
      assert ConfiguredIn(ctx, sites + [site]) == ConfigOf(ctx, sites[0]) + ConfiguredIn(ctx, sites[1..] + [site]);
    } else {
      assert [] + [site] == [site];
      assert ConfiguredIn(ctx, [site]) == ConfigOf(ctx, site) + ConfiguredIn(ctx, []);
    }
  }

  /** When the loop runs to completion, its configurations are those of the configured sites, in site order. */
  lemma {:induction false} PassKeepsSiteOrder(ctx: PassContext, sites: seq<Site>)
    ensures !Pass(ctx, sites).aborted ==> Pass(ctx, sites).configs == ConfiguredIn(ctx, sites)
    decreases |sites|
  {
    if sites != [] {
      var init := sites[..|sites| - 1];
      PassKeepsSiteOrder(ctx, init);
      ConfiguredInSnoc(ctx, init, sites[|sites| - 1]);
      assert init + [sites[|sites| - 1]] == sites;
    }
  }
}
