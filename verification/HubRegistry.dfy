/**
  The critical sections of `hub.go` that guard sessions and the snapshot, first
  as functions on `Registry`, then as the methods of `Hub`.
*/
module HubRegistry {
  import opened Wrappers
  import opened HubRings

  const MAXIMUM_SNAPSHOT_BYTES := 16384

  type Connection = nat
  type Document = string

  /** `signals` are the connections that have a wake-up channel. */
  datatype Registry = Registry(
    closed: bool,
    connections: set<Connection>,
    sessions: map<string, Connection>,
    disconnecting: map<string, Connection>,
    signals: set<Connection>,
    latest: Document,
    generation: nat,
    accepted: nat,
    disconnections: nat)

  const EMPTY := Registry(false, {}, map[], map[], {}, "", 0, 0, 0)

  function AddConnection(r: Registry, c: Connection): (Registry, bool) {
    if r.closed then (r, false) else (r.(connections := r.connections + {c}), true)
  }

  function Reserve(r: Registry, device: string, c: Connection): (Registry, bool) {
    if r.closed || device in r.sessions || device in r.disconnecting then (r, false)
    else (r.(sessions := r.sessions[device := c], signals := r.signals + {c}, accepted := r.accepted + 1), true)
  }

  predicate IsSession(r: Registry, device: string, c: Connection) {
    device in r.sessions && r.sessions[device] == c
  }

  function BeginRemove(r: Registry, device: string, c: Connection): Registry {
    var gone := r.(connections := r.connections - {c}, signals := r.signals - {c});
    if IsSession(r, device, c)
    then gone.(sessions := r.sessions - {device}, disconnecting := r.disconnecting[device := c],
               disconnections := r.disconnections + 1)
    else gone
  }

  function EndRemove(r: Registry, device: string, c: Connection): Registry {
    if device in r.disconnecting && r.disconnecting[device] == c
    then r.(disconnecting := r.disconnecting - {device}) else r
  }

  predicate Publishable(r: Registry, document: Document, valid: bool) {
    0 < |document| <= MAXIMUM_SNAPSHOT_BYTES && valid && !r.closed
  }

  function Publish(r: Registry, document: Document, valid: bool): Registry {
    if Publishable(r, document, valid) then r.(latest := document, generation := r.generation + 1) else r
  }

  /** What `writeLatestSnapshot` finds worth writing. */
  function ReadLatest(r: Registry, previous: nat): Option<(nat, Document)> {
    if r.generation == previous || r.latest == "" then None else Some((r.generation, r.latest))
  }

  function Shut(r: Registry): Registry {
    r.(closed := true, latest := "")
  }

  class Hub {
    var closed: bool
    var connections: set<Connection>
    var sessions: map<string, Connection>
    var disconnecting: map<string, Connection>
    var snapshotSignals: set<Connection>
    var latestSnapshot: Document
    var snapshotGeneration: nat
    var acceptedConnections: nat
    var disconnections: nat
    var diagnosticExpected: map<Connection, nat>
    var diagnosticRings: map<string, Cached>
    var nextDiagnosticId: nat
    var nextDiagnosticRing: nat
    ghost var exchanges: seq<Exchange>  // every change of `diagnosticExpected`
    ghost var accepted: seq<Accepted>   // every snapshot that was accepted

    function View(): Registry
      reads this
    {
      Registry(closed, connections, sessions, disconnecting, snapshotSignals, latestSnapshot,
               snapshotGeneration, acceptedConnections, disconnections)
    }

    function Cache(): Rings
      reads this
    {
      Rings(diagnosticRings, nextDiagnosticRing)
    }

    /** The outstanding requests are those of the exchanges, each of which was permitted. */
    ghost predicate Exchanging()
      reads this
    {
      diagnosticExpected == ExpectedAfter(exchanges) && IsExchange(exchanges)
    }

    /** Until the hub closes, the cache is what the accepted snapshots say. */
    ghost predicate Caching()
      reads this
    {
      closed || Refines(Cache(), accepted)
    }

    ghost method Exchanged(e: Exchange)
      requires IsExchange(exchanges) && Permitted(ExpectedAfter(exchanges), e)
      modifies `exchanges
      ensures exchanges == old(exchanges) + [e] && IsExchange(exchanges)
      ensures ExpectedAfter(exchanges) == match e
                                          case Requested(c, id) => ExpectedAfter(old(exchanges))[c := id]
                                          case Cleared(c) => ExpectedAfter(old(exchanges)) - {c}
                                          case Answered(c, _) => ExpectedAfter(old(exchanges)) - {c}
    {
      ghost var before := exchanges;
      exchanges := exchanges + [e];
      assert exchanges[..|exchanges| - 1] == before;
    }

    constructor ()
      ensures View() == EMPTY && Cache() == NO_RINGS && diagnosticExpected == map[] && nextDiagnosticId == 0
      ensures Exchanging() && exchanges == [] && Caching() && accepted == []
    {
      closed, connections, sessions, disconnecting, snapshotSignals := false, {}, map[], map[], {};
      latestSnapshot, snapshotGeneration, acceptedConnections, disconnections := "", 0, 0, 0;
      diagnosticExpected, diagnosticRings, nextDiagnosticId, nextDiagnosticRing := map[], map[], 0, 0;
      exchanges, accepted := [], [];
    }

    method Add(c: Connection) returns (ok: bool)
      modifies `connections
      ensures (View(), ok) == AddConnection(old(View()), c)
      ensures ok == !closed && connections == if ok then old(connections) + {c} else old(connections)
    {
      if closed {
        return false;
      }
      connections := connections + {c};
      ok := true;
    }

    method ReserveSession(device: string, c: Connection) returns (ok: bool)
      modifies `sessions, `snapshotSignals, `acceptedConnections
      ensures (View(), ok) == Reserve(old(View()), device, c)
      ensures ok <==> !closed && device !in old(sessions) && device !in disconnecting
      ensures sessions == if ok then old(sessions)[device := c] else old(sessions)
      ensures snapshotSignals == if ok then old(snapshotSignals) + {c} else old(snapshotSignals)
      ensures acceptedConnections == old(acceptedConnections) + if ok then 1 else 0
    {
      if closed || device in sessions || device in disconnecting {
        return false;
      }
      sessions := sessions[device := c];
      snapshotSignals := snapshotSignals + {c};
      acceptedConnections := acceptedConnections + 1;
      ok := true;
    }

    /** `removeConnection` up to the callback; `active` says whether to make it. */
    method RemoveBegin(device: string, c: Connection) returns (active: bool)
      requires Exchanging()
      modifies `connections, `sessions, `disconnecting, `disconnections, `snapshotSignals, `diagnosticExpected, `exchanges
      ensures Exchanging() && exchanges == old(exchanges) + [Cleared(c)]
      ensures View() == BeginRemove(old(View()), device, c)
      ensures active == IsSession(old(View()), device, c)
      ensures active <==> device in old(sessions) && old(sessions)[device] == c
      ensures sessions == if active then old(sessions) - {device} else old(sessions)
      ensures disconnecting == if active then old(disconnecting)[device := c] else old(disconnecting)
      ensures connections == old(connections) - {c} && snapshotSignals == old(snapshotSignals) - {c}
      ensures disconnections == old(disconnections) + if active then 1 else 0
      ensures diagnosticExpected == old(diagnosticExpected) - {c}
    {
      hide ExpectedAfter, IsExchange;
      connections := connections - {c};
      active := device in sessions && sessions[device] == c;
      if active {
        sessions := sessions - {device};
        disconnecting := disconnecting[device := c];
        disconnections := disconnections + 1;
      }
      snapshotSignals := snapshotSignals - {c};
      diagnosticExpected := diagnosticExpected - {c};
      Exchanged(Cleared(c));
    }

    method RemoveEnd(device: string, c: Connection)
      modifies `disconnecting
      ensures View() == EndRemove(old(View()), device, c)
      ensures disconnecting == if device in old(disconnecting) && old(disconnecting)[device] == c
                               then old(disconnecting) - {device} else old(disconnecting)
    {
      if device in disconnecting && disconnecting[device] == c {
        disconnecting := disconnecting - {device};
      }
    }

    /** The locked part of `PublishSnapshot`; the caller then signals `signals`. */
    method PublishLocked(document: Document, valid: bool) returns (signals: Option<set<Connection>>)
      modifies `latestSnapshot, `snapshotGeneration
      ensures View() == Publish(old(View()), document, valid)
      ensures signals == if Publishable(old(View()), document, valid) then Some(snapshotSignals) else None
      ensures signals.Some? <==> 0 < |document| <= 16384 && valid && !closed
      ensures latestSnapshot == if signals.Some? then document else old(latestSnapshot)
      ensures snapshotGeneration == old(snapshotGeneration) + if signals.Some? then 1 else 0
    {
      if |document| == 0 || |document| > MAXIMUM_SNAPSHOT_BYTES || !valid {
        return None;
      }
      if closed {
        return None;
      }
      latestSnapshot := document;
      snapshotGeneration := snapshotGeneration + 1;
      signals := Some(snapshotSignals);
    }

    method Latest(previous: nat) returns (found: Option<(nat, Document)>)
      ensures found == ReadLatest(View(), previous)
      ensures found == if snapshotGeneration != previous && latestSnapshot != ""
                       then Some((snapshotGeneration, latestSnapshot)) else None
    {
      if snapshotGeneration == previous || |latestSnapshot| == 0 {
        return None;
      }
      found := Some((snapshotGeneration, latestSnapshot));
    }

    method Close()
      modifies `closed, `latestSnapshot, `diagnosticRings
      ensures View() == Shut(old(View()))
      ensures closed && latestSnapshot == ""
      ensures Cache() == Rings(map[], old(nextDiagnosticRing)) && Caching()
    {
      closed := true;
      latestSnapshot := "";
      diagnosticRings := map[];
    }

    /** `requestDiagnostics` up to its unlock: the ID to send, if there is one to send. */
    method RequestBegin(c: Connection) returns (ok: bool, requestId: nat)
      requires nextDiagnosticId <= MAXIMUM_UINT64 && Exchanging()
      modifies `diagnosticExpected, `nextDiagnosticId, `exchanges
      ensures nextDiagnosticId <= MAXIMUM_UINT64 && Exchanging()
      ensures exchanges == old(exchanges) + if requestId != 0 then [Requested(c, requestId)] else []
      ensures ok == !closed
      ensures if closed || Outstanding(old(diagnosticExpected), c) != 0
              then requestId == 0 && diagnosticExpected == old(diagnosticExpected) && nextDiagnosticId == old(nextDiagnosticId)
              else requestId == nextDiagnosticId
                   && requestId == (if old(nextDiagnosticId) == 0xFFFF_FFFF_FFFF_FFFF then 1 else old(nextDiagnosticId) + 1)
                   && requestId == NextRequestId(old(nextDiagnosticId))
                   && diagnosticExpected == old(diagnosticExpected)[c := requestId]
    {
      hide ExpectedAfter, IsExchange;
      assert exchanges + [] == exchanges;
      if closed {
        return false, 0;
      }
      if c in diagnosticExpected && diagnosticExpected[c] != 0 {
        return true, 0;
      }
      nextDiagnosticId := Increment(nextDiagnosticId);
      if nextDiagnosticId == 0 {
        nextDiagnosticId := Increment(nextDiagnosticId);
      }
      requestId := nextDiagnosticId;
      diagnosticExpected := diagnosticExpected[c := requestId];
      Exchanged(Requested(c, requestId));
      ok := true;
    }

    /** `clearExpectedDiagnostics`, after the request could not be written. */
    method RequestFailed(c: Connection, requestId: nat)
      requires Exchanging()
      modifies `diagnosticExpected, `exchanges
      ensures Exchanging() && (exchanges == old(exchanges) || exchanges == old(exchanges) + [Cleared(c)])
      ensures diagnosticExpected == if Outstanding(old(diagnosticExpected), c) == requestId
                                    then old(diagnosticExpected) - {c} else old(diagnosticExpected)
    {
      hide ExpectedAfter, IsExchange;
      if (if c in diagnosticExpected then diagnosticExpected[c] else 0) == requestId {
        diagnosticExpected := diagnosticExpected - {c};
        Exchanged(Cleared(c));
      }
    }

    /** The cache update of `acceptDiagnostics`, with its eviction loop. */
    method Store(device: string, snapshot: Snapshot)
      requires Cache().Sequenced()
      modifies `diagnosticRings, `nextDiagnosticRing
      ensures Cache() == Insert(old(Cache()), device, snapshot)
    {
      hide IsOldest;
      var rings := diagnosticRings;
      if device !in rings && |rings| >= MAXIMUM_RINGS {
        var oldest := OldestRing(rings);
        OldestIsUnique(rings, oldest);
        rings := rings - {oldest};
      }
      nextDiagnosticRing := nextDiagnosticRing + 1;
      diagnosticRings := rings[device := Cached(snapshot, nextDiagnosticRing)];
    }

    /**
      `acceptDiagnostics`. The parser has already refused the request ID 0, so
      acceptance means: this connection is the device's current session and
      this is the answer to its one outstanding request, which is used up.
    */
    method AcceptDiagnostics(device: string, c: Connection, snapshot: Snapshot) returns (ok: bool)
      requires snapshot.requestId != 0 && Exchanging() && Caching()
      modifies `diagnosticExpected, `diagnosticRings, `nextDiagnosticRing, `exchanges, `accepted
      ensures Caching() && accepted == old(accepted) + if ok then [Accepted(device, snapshot)] else []
      ensures Exchanging() && exchanges == old(exchanges) + if ok then [Answered(c, snapshot.requestId)] else []
      ensures ok <==> !closed && IsSession(View(), device, c) && Waiting(old(exchanges), c, snapshot.requestId)
      ensures ok <==> !closed && IsSession(View(), device, c)
                      && Outstanding(old(diagnosticExpected), c) == snapshot.requestId
      ensures !ok ==> Cache() == old(Cache()) && diagnosticExpected == old(diagnosticExpected)
      ensures ok ==> Cache() == Insert(old(Cache()), device, snapshot)
                     && diagnosticExpected == old(diagnosticExpected) - {c}
                     && Outstanding(diagnosticExpected, c) == 0
    {
      hide ExpectedAfter, IsExchange, Waiting, Insert, IsOldest, Refines;
      OutstandingMeans(exchanges, c);
      if closed || !(device in sessions && sessions[device] == c)
         || (if c in diagnosticExpected then diagnosticExpected[c] else 0) != snapshot.requestId {
        assert exchanges + [] == exchanges && accepted + [] == accepted;
        return false;
      }
      RefinesSequenced(Cache(), accepted);
      InsertRefines(Cache(), accepted, Accepted(device, snapshot));
      accepted := accepted + [Accepted(device, snapshot)];
      diagnosticExpected := diagnosticExpected - {c};
      Exchanged(Answered(c, snapshot.requestId));
      Store(device, snapshot);
      ok := true;
    }
  }
}
