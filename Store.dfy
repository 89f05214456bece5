/** The control plane's view of the database, the messages it exchanges with
    agents, and the log of calls it makes to collaborators (peer managers,
    exit nodes, the connection registry).  Field names follow the tables the
    handlers query. */
module Store {
  import opened Common

  // ---------------------------------------------------------------------
  // Rows
  // ---------------------------------------------------------------------

  /** A `sites` row: a gateway agent's network state. */
  datatype Site = Site(
    siteId: int,
    orgId: string,
    exitNodeId: Option<int>,
    publicKey: Option<string>,
    listenPort: Option<int>,
    endpoint: Option<string>,
    subnet: Option<string>,
    address: Option<string>,
    remoteSubnets: Option<string>)

  /** A `clients` row: an end-user tunnel endpoint. */
  datatype Client = Client(
    clientId: int,
    orgId: string,
    exitNodeId: Option<int>,
    pubKey: Option<string>,
    subnet: Option<string>,
    online: bool,
    lastPing: Option<int>)

  /** A `clientSites` row: a client allowed to reach a site. */
  datatype ClientSite = ClientSite(clientId: int, siteId: int, endpoint: Option<string>, isRelayed: bool)

  /** An `exitNodes` row: a relay / hole-punch server. */
  datatype ExitNode = ExitNode(exitNodeId: int, publicKey: string, endpoint: string, reachableAt: Option<string>)

  /** An `olms` row; it is also the handle a client agent's connection is bound to. */
  datatype Olm = Olm(olmId: string, clientId: Option<int>, version: Option<string>)

  /** A `siteResources` row: a proxied target bound to a site. */
  datatype SiteResource = SiteResource(
    siteId: int,
    protocol: string,
    proxyPort: Option<int>,
    destinationIp: Option<string>,
    destinationPort: Option<int>)

  /** The handle a gateway agent's connection is bound to. */
  datatype Newt = Newt(newtId: string, siteId: Option<int>)

  /** The tables the handlers read and write, as one value. */
  datatype Tables = Tables(
    sites: seq<Site>,
    clients: seq<Client>,
    clientSites: seq<ClientSite>,
    exitNodes: seq<ExitNode>,
    olms: seq<Olm>,
    siteResources: seq<SiteResource>)

  /** The database: one mutable field per table, in row order. */
  class Database {
    var sites: seq<Site>
    var clients: seq<Client>
    var clientSites: seq<ClientSite>
    var exitNodes: seq<ExitNode>
    var olms: seq<Olm>
    var siteResources: seq<SiteResource>

    function Snapshot(): Tables
      reads this
    {
      Tables(sites, clients, clientSites, exitNodes, olms, siteResources)
    }

    constructor (t: Tables)
      ensures Snapshot() == t
    {
      sites, clients, clientSites := t.sites, t.clients, t.clientSites;
      exitNodes, olms, siteResources := t.exitNodes, t.olms, t.siteResources;
    }
  }

  // ---------------------------------------------------------------------
  // Keyed reads (`select ... where id = ? limit 1`): the first matching row
  // ---------------------------------------------------------------------

  function FindSite(rows: seq<Site>, siteId: int): (r: Option<Site>)
    ensures r.Some? ==> r.value in rows && r.value.siteId == siteId
    ensures r.None? <==> forall i :: 0 <= i < |rows| ==> rows[i].siteId != siteId
  {
    if rows == [] then None
    else if rows[0].siteId == siteId then Some(rows[0])
    else FindSite(rows[1..], siteId)
  }

  function FindClient(rows: seq<Client>, clientId: int): (r: Option<Client>)
    ensures r.Some? ==> r.value in rows && r.value.clientId == clientId
    ensures r.None? <==> forall i :: 0 <= i < |rows| ==> rows[i].clientId != clientId
  {
    if rows == [] then None
    else if rows[0].clientId == clientId then Some(rows[0])
    else FindClient(rows[1..], clientId)
  }

  function FindExitNode(rows: seq<ExitNode>, exitNodeId: int): (r: Option<ExitNode>)
    ensures r.Some? ==> r.value in rows && r.value.exitNodeId == exitNodeId
    ensures r.None? <==> forall i :: 0 <= i < |rows| ==> rows[i].exitNodeId != exitNodeId
  {
    if rows == [] then None
    else if rows[0].exitNodeId == exitNodeId then Some(rows[0])
    else FindExitNode(rows[1..], exitNodeId)
  }

  function FindClientSite(rows: seq<ClientSite>, clientId: int, siteId: int): (r: Option<ClientSite>)
    ensures r.Some? ==> r.value in rows && r.value.clientId == clientId && r.value.siteId == siteId
    ensures r.None? <==> forall i :: 0 <= i < |rows| ==> !(rows[i].clientId == clientId && rows[i].siteId == siteId)
  {
    if rows == [] then None
    else if rows[0].clientId == clientId && rows[0].siteId == siteId then Some(rows[0])
    else FindClientSite(rows[1..], clientId, siteId)
  }

  // ---------------------------------------------------------------------
  // Messages, replies and outside calls
  // ---------------------------------------------------------------------

  /** A WireGuard peer as sent to a site or handed to a site's peer manager. */
  datatype PeerDescriptor = PeerDescriptor(publicKey: string, allowedIps: seq<string>, endpoint: Option<string>)

  /** One hole-punch candidate. */
  datatype HolepunchCandidate = HolepunchCandidate(publicKey: string, endpoint: string)

  /** How a client reaches one site (olm connect reply, and the client's peer manager). */
  datatype SiteConfig = SiteConfig(
    siteId: int,
    endpoint: string,
    publicKey: Option<string>,
    serverIP: Option<string>,
    serverPort: Option<int>,
    remoteSubnets: Option<string>)

  datatype TargetAction = Add | Remove

  /** Every message the core sends; `MessageType` gives its `type` string. */
  datatype Message =
    | ReceiveConfig(ipAddress: Option<string>, peers: seq<PeerDescriptor>, tcpTargets: seq<string>, udpTargets: seq<string>)
    | HolepunchAll(exitNodes: seq<HolepunchCandidate>)
    | Holepunch(serverPubKey: string, endpoint: string)
    | NoSites
    | Connect(sites: seq<SiteConfig>, tunnelIP: Option<string>)
    | Pong
    | TargetUpdate(protocol: string, action: TargetAction, targets: seq<string>)

  function MessageType(m: Message): string {
    match m
    case ReceiveConfig(_, _, _, _) => "newt/wg/receive-config"
    case HolepunchAll(_) => "olm/wg/holepunch/all"
    case Holepunch(_, _) => "olm/wg/holepunch"
    case NoSites => "olm/register/no-sites"
    case Connect(_, _) => "olm/wg/connect"
    case Pong => "pong"
    case TargetUpdate(protocol, action, _) =>
      "newt/wg/" + protocol + (if action == Add then "/add" else "/remove")
  }

  /** What a handler hands back to the dispatcher. */
  datatype Reply = Reply(message: Message, broadcast: bool, excludeSender: bool)

  /** A reply to the sender only. */
  function Unicast(m: Message): Reply {
    Reply(m, false, false)
  }

  /** A handler either returns (with or without a reply) or throws to the dispatcher. */
  datatype Outcome = Returned(reply: Option<Reply>) | Threw

  /** What one handler run leaves behind: the tables, the outcome and the calls in issue order. */
  datatype Effect = Effect(tables: Tables, outcome: Outcome, calls: seq<Call>)

  /** The endpoint pair of an exit node's proxy-mapping update. */
  datatype ProxyDestination = ProxyDestination(destinationIP: Option<string>, destinationPort: Option<int>)

  /** A call into a collaborator, as recorded in the call log. */
  datatype Call =
    | SendToClient(recipient: string, message: Message)
    | UpdatePeer(clientId: int, config: SiteConfig)
    | AddPeer(siteId: int, peer: PeerDescriptor)
    | DeletePeer(siteId: int, publicKey: string)
    | SendToExitNode(exitNode: ExitNode, remoteType: string, localPath: string, httpMethod: string,
                     oldDestination: ProxyDestination, newDestination: ProxyDestination)
    | ListExitNodes(orgId: string, onlineOnly: bool)

  /** The endpoint a relayed tunnel uses: the exit node's host on the fixed relay port 21820. */
  function RelayEndpoint(exitNodeEndpoint: string): string {
    exitNodeEndpoint + ":21820"
  }

  /** `${subnet.split("/")[0]}/32`: the single address a client may send from. */
  function HostRoute(subnet: string): string {
    PrefixBefore(subnet, '/') + "/32"
  }
}
