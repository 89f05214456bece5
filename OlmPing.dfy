/** The client agent's keep-alive (server/routers/olm/handleOlmPingMessage.ts):
    the `olm/ping` handler that stamps the client row, and the background
    offline checker whose sweep marks silent clients offline. Times are
    milliseconds since the epoch, passed in. */
module OlmPing {
  import opened Common
  import opened Store

  /** Two minutes without a ping makes a client stale. */
  const OfflineThresholdMs: int := 2 * 60 * 1000
  /** The sweep period; the timer itself is not modelled. */
  const OfflineCheckIntervalMs: int := 30 * 1000

  /** `Math.floor(ms / 1000)`: Dafny's division by a positive divisor rounds down. */
  function Seconds(ms: int): (s: int)
    ensures s * 1000 <= ms < s * 1000 + 1000
  {
    ms / 1000
  }

  lemma SecondsMonotone(a: int, b: int)
    requires a <= b
    ensures Seconds(a) <= Seconds(b)
  {
  }

  // ---------------------------------------------------------------------
  // Ping
  // ---------------------------------------------------------------------

  /** `update clients set lastPing, online = true where clientId = ?`. */
  function Stamp(rows: seq<Client>, clientId: int, now: int): seq<Client> {
    seq(|rows|, i requires 0 <= i < |rows| =>
      if rows[i].clientId == clientId then rows[i].(lastPing := Some(Seconds(now)), online := true) else rows[i])
  }

  /** Reference definition of one ping; `writeFails` is a rejected update, which is logged and swallowed. */
  function Ping(t: Tables, olm: Option<Olm>, now: int, writeFails: bool): Effect {
    if olm.None? || !TruthyInt(olm.value.clientId) then Effect(t, Returned(None), [])
    else
      Effect(if writeFails then t else t.(clients := Stamp(t.clients, olm.value.clientId.value, now)),
             Returned(Some(Unicast(Pong))), [])
  }

  /** The handler against the database. */
  method HandleOlmPingMessage(db: Database, olm: Option<Olm>, now: int, writeFails: bool) returns (reply: Option<Reply>)
    modifies db
    ensures Effect(db.Snapshot(), Returned(reply), []) == Ping(old(db.Snapshot()), olm, now, writeFails)
  {
    if olm.None? {
      return None;
    }
    if !TruthyInt(olm.value.clientId) {
      return None;
    }
    if !writeFails {
      db.clients := Stamp(db.clients, olm.value.clientId.value, now);
    }
    reply := Some(Unicast(Pong));
  }

  /** A pong is returned iff the connection is bound to a client, whether or not the write went through. */
  lemma PingReply(t: Tables, olm: Option<Olm>, now: int, writeFails: bool)
    ensures var e := Ping(t, olm, now, writeFails);
      && e.calls == []
      && (e.outcome == Returned(Some(Unicast(Pong))) <==> olm.Some? && TruthyInt(olm.value.clientId))
      && (!(olm.Some? && TruthyInt(olm.value.clientId)) ==> e.outcome == Returned(None) && e.tables == t)
  {
  }

  /** Only the pinging client's rows change, to the current second and online; no other table changes. */
  lemma PingStampsOnlyClient(t: Tables, olm: Option<Olm>, now: int)
    requires olm.Some? && TruthyInt(olm.value.clientId)
    ensures var r := Ping(t, olm, now, false).tables;
      && r == t.(clients := r.clients)
      && |r.clients| == |t.clients|
      && (forall i :: 0 <= i < |t.clients| && t.clients[i].clientId == olm.value.clientId.value ==>
            r.clients[i].online && r.clients[i].lastPing == Some(Seconds(now))
            && r.clients[i] == t.clients[i].(lastPing := r.clients[i].lastPing, online := true))
      && (forall i :: 0 <= i < |t.clients| && t.clients[i].clientId != olm.value.clientId.value ==>
            r.clients[i] == t.clients[i])
  {
  }

  /** A ping never takes a client offline. */
  lemma PingNeverSetsOffline(t: Tables, olm: Option<Olm>, now: int, writeFails: bool)
    ensures var r := Ping(t, olm, now, writeFails).tables;
      |r.clients| == |t.clients| && forall i :: 0 <= i < |t.clients| && t.clients[i].online ==> r.clients[i].online
  {
  }

  // ---------------------------------------------------------------------
  // Sweep
  // ---------------------------------------------------------------------

  /** `lastPing < floor((now - 2min) / 1000) or lastPing is null`; a null compared with `<` is not true. */
  predicate Stale(c: Client, now: int) {
    c.lastPing.None? || c.lastPing.value < Seconds(now - OfflineThresholdMs)
  }

  /** `update clients set online = false where online = true and (stale)`. */
  function Sweep(rows: seq<Client>, now: int): seq<Client> {
    seq(|rows|, i requires 0 <= i < |rows| =>
      if rows[i].online && Stale(rows[i], now) then rows[i].(online := false) else rows[i])
  }

  /** The sweep takes a client offline exactly when it was online and stale, and changes nothing else. */
  lemma SweepExact(rows: seq<Client>, now: int)
    ensures var r := Sweep(rows, now);
      && |r| == |rows|
      && (forall i :: 0 <= i < |rows| ==> r[i] == rows[i].(online := r[i].online))
      && (forall i :: 0 <= i < |rows| ==> (rows[i].online && !r[i].online <==> rows[i].online && Stale(rows[i], now)))
      && (forall i :: 0 <= i < |rows| && r[i].online ==> rows[i].online)
  {
  }

  /** Sweeping twice at the same time is sweeping once. */
  lemma SweepIdempotent(rows: seq<Client>, now: int)
    ensures Sweep(Sweep(rows, now), now) == Sweep(rows, now)
  {
    var once := Sweep(rows, now);
    var twice := Sweep(once, now);
    forall i | 0 <= i < |once| ensures twice[i] == once[i] {
      assert once[i].lastPing == rows[i].lastPing;
    }
  }

  /** A client that pinged within the threshold survives a sweep. */
  lemma PingKeepsOnline(rows: seq<Client>, clientId: int, pingedAt: int, now: int)
    requires now - OfflineThresholdMs <= pingedAt
    ensures var r := Sweep(Stamp(rows, clientId, pingedAt), now);
      forall i :: 0 <= i < |rows| && rows[i].clientId == clientId ==> r[i].online
  {
    SecondsMonotone(now - OfflineThresholdMs, pingedAt);
  }

  /** A client silent for the threshold plus one second is taken offline by the sweep. */
  lemma SilenceTakesOffline(rows: seq<Client>, clientId: int, pingedAt: int, now: int)
    requires pingedAt + OfflineThresholdMs + 1000 <= now
    ensures var r := Sweep(Stamp(rows, clientId, pingedAt), now);
      forall i :: 0 <= i < |rows| && rows[i].clientId == clientId ==> !r[i].online
  {
    SecondsMonotone(pingedAt + 1000, now - OfflineThresholdMs);
    assert Seconds(pingedAt + 1000) == Seconds(pingedAt) + 1;
  }

  // ---------------------------------------------------------------------
  // The checker's start / stop guard
  // ---------------------------------------------------------------------

  /** The module-level interval handle, and how many intervals were ever created. */
  datatype CheckerState = CheckerState(interval: Option<nat>, created: nat)

  /** At most one live interval, and it is the latest one created. */
  predicate CheckerValid(s: CheckerState) {
    s.interval.Some? ==> s.interval.value + 1 == s.created
  }

  function Started(s: CheckerState): CheckerState {
    if s.interval.Some? then s else CheckerState(Some(s.created), s.created + 1)
  }

  function Stopped(s: CheckerState): CheckerState {
    if s.interval.Some? then s.(interval := None) else s
  }

  /** Start leaves a running checker alone and otherwise arms exactly one new interval. */
  lemma StartGuard(s: CheckerState)
    requires CheckerValid(s)
    ensures CheckerValid(Started(s)) && Started(s).interval.Some?
    ensures s.interval.Some? ==> Started(s) == s
    ensures Started(Started(s)) == Started(s)
    ensures Started(s).created <= s.created + 1
  {
  }

  /** Stop clears the handle so a later start arms a fresh interval; stopping a stopped checker does nothing. */
  lemma StopGuard(s: CheckerState)
    requires CheckerValid(s)
    ensures CheckerValid(Stopped(s)) && Stopped(s).interval.None?
    ensures s.interval.None? ==> Stopped(s) == s
    ensures Started(Stopped(s)).interval == Some(Stopped(s).created)
    ensures Stopped(s).created == s.created
  {
  }

  /** The offline checker: the interval handle of the module, and the sweeps it runs. */
  class OfflineChecker {
    var interval: Option<nat>
    var created: nat

    function State(): CheckerState
      reads this
    {
      CheckerState(interval, created)
    }

    constructor ()
      ensures State() == CheckerState(None, 0)
    {
      interval, created := None, 0;
    }

    /** `startOlmOfflineChecker`. */
    method Start()
      modifies this
      ensures State() == Started(old(State()))
    {
      if interval.Some? {
        return;
      }
      interval := Some(created);
      created := created + 1;
    }

    /** `stopOlmOfflineChecker`. */
    method Stop()
      modifies this
      ensures State() == Stopped(old(State()))
    {
      if interval.Some? {
        interval := None;
      }
    }

    /** One firing of the interval: the sweep, with a rejected update logged and swallowed. */
    method Tick(db: Database, now: int, writeFails: bool)
      requires interval.Some?
      modifies db
      ensures db.Snapshot() == if writeFails then old(db.Snapshot()) else old(db.Snapshot()).(clients := Sweep(old(db.clients), now))
    {
      if !writeFails {
        db.clients := Sweep(db.clients, now);
      }
    }
  }
}
