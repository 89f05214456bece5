/** The websocket dispatch table (server/routers/ws/messageHandlers.ts): a closed
    record from inbound message type to handler, and the offline checker that
    loading the table starts. */
module MessageHandlers {
  import opened Common
  import OlmPing

  /** The handlers the table names; only three of them are modelled in full. */
  datatype Handler =
    | NewtRegisterHandler
    | OlmRegisterHandler
    | GetConfigHandler
    | ReceiveBandwidthHandler
    | OlmRelayHandler
    | OlmPingHandler
    | DockerStatusHandler
    | DockerContainersHandler
    | NewtPingRequestHandler
    | ApplyBlueprintHandler
    | HealthcheckStatusHandler

  const Table: map<string, Handler> := map[
    "newt/wg/register" := NewtRegisterHandler,
    "olm/wg/register" := OlmRegisterHandler,
    "newt/wg/get-config" := GetConfigHandler,
    "newt/receive-bandwidth" := ReceiveBandwidthHandler,
    "olm/wg/relay" := OlmRelayHandler,
    "olm/ping" := OlmPingHandler,
    "newt/socket/status" := DockerStatusHandler,
    "newt/socket/containers" := DockerContainersHandler,
    "newt/ping/request" := NewtPingRequestHandler,
    "newt/blueprint/apply" := ApplyBlueprintHandler,
    "newt/healthcheck/status" := HealthcheckStatusHandler
  ]

  /** Independent reference: the message type each handler is registered under. */
  function TypeOf(h: Handler): string {
    match h
    case NewtRegisterHandler => "newt/wg/register"
    case OlmRegisterHandler => "olm/wg/register"
    case GetConfigHandler => "newt/wg/get-config"
    case ReceiveBandwidthHandler => "newt/receive-bandwidth"
    case OlmRelayHandler => "olm/wg/relay"
    case OlmPingHandler => "olm/ping"
    case DockerStatusHandler => "newt/socket/status"
    case DockerContainersHandler => "newt/socket/containers"
    case NewtPingRequestHandler => "newt/ping/request"
    case ApplyBlueprintHandler => "newt/blueprint/apply"
    case HealthcheckStatusHandler => "newt/healthcheck/status"
  }

  /** The lookup a connection makes for an inbound message. */
  function Dispatch(messageType: string): (r: Option<Handler>)
    ensures r.Some? <==> messageType in Table
    ensures r.Some? ==> TypeOf(r.value) == messageType
  {
    if messageType in Table then Some(Table[messageType]) else None
  }

  /** The three modelled handlers sit under their message types. */
  lemma DispatchModelledHandlers()
    ensures Dispatch("newt/wg/get-config") == Some(GetConfigHandler)
    ensures Dispatch("olm/wg/register") == Some(OlmRegisterHandler)
    ensures Dispatch("olm/ping") == Some(OlmPingHandler)
  {
  }

  /** Every handler is registered, under its own type, and under no other. */
  lemma TableRoundTrip(h: Handler, messageType: string)
    ensures TypeOf(h) in Table && Table[TypeOf(h)] == h
    ensures messageType in Table ==> TypeOf(Table[messageType]) == messageType
  {
  }

  /** The table has exactly the eleven listed keys; an outbound type such as `pong` has no handler. */
  lemma TableKeys()
    ensures forall k :: k in Table <==> exists h: Handler :: TypeOf(h) == k
    ensures Dispatch("pong") == None
  {
    forall k | k in Table ensures exists h: Handler :: TypeOf(h) == k {
      assert TypeOf(Table[k]) == k;
    }
  }

  /** Eleven distinct keys. */
  lemma TableSize()
    ensures |Table.Keys| == 11
  {
  }

  /** Loading the table starts the offline checker; loading again is harmless thanks to its guard. */
  method Load(checker: OlmPing.OfflineChecker) returns (table: map<string, Handler>)
    modifies checker
    ensures table == Table
    ensures checker.State() == OlmPing.Started(old(checker.State()))
    ensures checker.interval.Some?
  {
    table := Table;
    checker.Start();
  }
}
