/** The systems that link a `Server` to a `Game` (`systems.rs`): registration with the
    system executor, the packet-handling system and the keepalive system. Packets, handler
    errors, the packet handler itself, `broadcast_keepalive` and the clock are parameters. */
module ServerSystems {
  import opened Results

  /** An ECS entity. */
  type EntityId = nat

  /** A connection's key in the server's client table. */
  type ClientId = nat

  /** A packet received from a client; only the packet handler looks inside it. */
  type Packet(!new)

  /** The error a packet handler returns. */
  type HandlerError(!new)

  /** A connected client: the packets received from it and not yet drained. */
  datatype Client = Client(received: seq<Packet>)

  /** The `Server` resource: the client table and the time of the last keepalive,
      in integer milliseconds. */
  datatype Server = Server(clients: map<ClientId, Client>, lastKeepaliveMs: int)

  /** The part of the ECS these systems read: entities in query order, their
      `ClientId` components and their `Name` components. */
  datatype Ecs = Ecs(entities: seq<EntityId>, clientIds: map<EntityId, ClientId>, names: map<EntityId, string>)

  /** The `Game`: its ECS and its `Server` resource slot. */
  datatype Game = Game(ecs: Ecs, server: Option<Server>)

  /** The error a system returns: here only the failed lookup of a player's `Name`. */
  datatype SysError = MissingName(entity: EntityId)

  // ---------------------------------------------------------------------------
  // Registration

  /** The modules whose `register` functions add systems not modelled here. */
  datatype Registrar = PlayerJoin | ViewSystems | ChunkSubscriptions | PlayerLeave | Tablist | EntitySystems

  /** The two systems of the `Server` group. */
  datatype ServerSystem = HandlePacketsSystem | SendKeepalivesSystem

  /** One entry of the executor's schedule: the systems some registrar adds (with the game
      as that registrar saw it, when it takes the game), or one system of the `Server` group. */
  datatype Scheduled =
    | ByRegistrar(registrar: Registrar, gameSeen: Option<Game>)
    | InServerGroup(system: ServerSystem)

  /** A game together with its system executor's schedule. */
  datatype Setup = Setup(game: Game, systems: seq<Scheduled>)

  /** The registrar an entry belongs to, if any. */
  function RegistrarOf(e: Scheduled): Option<Registrar> {
    if e.ByRegistrar? then Some(e.registrar) else None
  }

  /** `register`: inserts `server` into the game, then lets the player-join systems,
      the `Server` group (`handle_packets`, `send_keepalives`), and the view,
      chunk-subscription, player-leave, tablist and entity systems register in turn.
      The view and entity registrars take the game, and see the server already inserted. */
  function Register(server: Server, game: Game, systems: seq<Scheduled>): (r: Setup)
    ensures r.game == game.(server := Some(server))
    ensures |r.systems| == |systems| + 8 && r.systems[..|systems|] == systems
    ensures forall i :: |systems| <= i < |r.systems| && r.systems[i].ByRegistrar? && r.systems[i].gameSeen.Some? ==>
      r.systems[i].gameSeen.value.server == Some(server)
    ensures forall i :: |systems| <= i < |r.systems| && r.systems[i].ByRegistrar? ==>
      (r.systems[i].gameSeen.Some? <==> r.systems[i].registrar in {ViewSystems, EntitySystems})
    ensures var added := r.systems[|systems|..];
      && RegistrarOf(added[0]) == Some(PlayerJoin)
      && added[1] == InServerGroup(HandlePacketsSystem)
      && added[2] == InServerGroup(SendKeepalivesSystem)
      && RegistrarOf(added[3]) == Some(ViewSystems)
      && RegistrarOf(added[4]) == Some(ChunkSubscriptions)
      && RegistrarOf(added[5]) == Some(PlayerLeave)
      && RegistrarOf(added[6]) == Some(Tablist)
      && RegistrarOf(added[7]) == Some(EntitySystems)
  {
    var game' := game.(server := Some(server));
    Setup(game', systems + [
      ByRegistrar(PlayerJoin, None),
      InServerGroup(HandlePacketsSystem),
      InServerGroup(SendKeepalivesSystem),
      ByRegistrar(ViewSystems, Some(game')),
      ByRegistrar(ChunkSubscriptions, None),
      ByRegistrar(PlayerLeave, None),
      ByRegistrar(Tablist, None),
      ByRegistrar(EntitySystems, Some(game'))])
  }

  /** On a schedule without `Server`-group systems, `register` schedules `handle_packets`
      and `send_keepalives` exactly once each, `handle_packets` strictly first, right after
      the player-join systems; everything after them comes from the other registrars. */
  lemma RegisterOrder(server: Server, game: Game, systems: seq<Scheduled>)
    requires forall i :: 0 <= i < |systems| ==> !systems[i].InServerGroup?
    ensures var s := Register(server, game, systems).systems;
      && (forall i :: 0 <= i < |s| && s[i] == InServerGroup(HandlePacketsSystem) ==> i == |systems| + 1)
      && (forall i :: 0 <= i < |s| && s[i] == InServerGroup(SendKeepalivesSystem) ==> i == |systems| + 2)
      && (forall i :: 0 <= i < |systems| + 1 ==> !s[i].InServerGroup?)
      && (forall i :: |systems| + 3 <= i < |s| ==> s[i].ByRegistrar? && s[i].registrar != PlayerJoin)
  {
    var s := Register(server, game, systems).systems;
    assert forall i :: 0 <= i < |systems| ==> s[i] == systems[i];
  }

  // ---------------------------------------------------------------------------
  // handle_packets: collect phase

  /** The packets of one client, each paired with the player entity they came from. */
  function Tag(player: EntityId, packets: seq<Packet>): (r: seq<(EntityId, Packet)>)
    ensures |r| == |packets|
    ensures forall i :: 0 <= i < |r| ==> r[i] == (player, packets[i])
  {
    seq(|packets|, i requires 0 <= i < |packets| => (player, packets[i]))
  }

  /** Whether `player` has a `ClientId` that the server's client table holds. */
  predicate Connected(ecs: Ecs, server: Server, player: EntityId) {
    player in ecs.clientIds && ecs.clientIds[player] in server.clients
  }

  /** Whether some entity of `players` has client `id`. */
  ghost predicate Visits(ecs: Ecs, players: seq<EntityId>, id: ClientId) {
    exists p :: p in players && p in ecs.clientIds && ecs.clientIds[p] == id
  }

  /** The result of the collect phase: the packets, and the server with drained buffers. */
  datatype Collected = Collected(packets: seq<(EntityId, Packet)>, server: Server)

  /** The collect phase of `handle_packets` over `players`, in query order: each player
      whose client is in the table has that client's buffer drained onto the list. */
  function Collect(ecs: Ecs, players: seq<EntityId>, server: Server): (r: Collected)
    ensures r.server.lastKeepaliveMs == server.lastKeepaliveMs
    ensures r.server.clients.Keys == server.clients.Keys
    ensures forall id :: id in server.clients ==>
      r.server.clients[id] == if Visits(ecs, players, id) then Client([]) else server.clients[id]
    ensures forall i :: 0 <= i < |r.packets| ==> r.packets[i].0 in players && Connected(ecs, server, r.packets[i].0)
    decreases |players|
  {
    if |players| == 0 then Collected([], server)
    else
      var p := players[0];
      if Connected(ecs, server, p) then
        var id := ecs.clientIds[p];
        var drained := server.(clients := server.clients[id := Client([])]);
        var rest := Collect(ecs, players[1..], drained);
        assert forall q :: q in players <==> q == p || q in players[1..];
        Collected(Tag(p, server.clients[id].received) + rest.packets, rest.server)
      else
        var rest := Collect(ecs, players[1..], server);
        assert forall q :: q in players <==> q == p || q in players[1..];
        assert forall id :: Visits(ecs, players, id) && id in server.clients ==> Visits(ecs, players[1..], id);
        rest
  }

  /** Reference for the collect phase: the concatenation, in query order, of the buffers
      of the players whose client is in the table, without draining anything. */
  function Buffered(ecs: Ecs, players: seq<EntityId>, server: Server): seq<(EntityId, Packet)>
    decreases |players|
  {
    if |players| == 0 then []
    else
      var p := players[0];
      var rest := Buffered(ecs, players[1..], server);
      if Connected(ecs, server, p) then Tag(p, server.clients[ecs.clientIds[p]].received) + rest
      else rest
  }

  /** No two entries of `players` share a client. */
  ghost predicate DistinctClients(ecs: Ecs, players: seq<EntityId>) {
    forall i, j :: 0 <= i < j < |players| && players[i] in ecs.clientIds && players[j] in ecs.clientIds ==>
      ecs.clientIds[players[i]] != ecs.clientIds[players[j]]
  }

  /** `Buffered` only reads the buffers of clients some player visits. */
  lemma {:induction false} BufferedFrame(ecs: Ecs, players: seq<EntityId>, s1: Server, s2: Server)
    requires s1.clients.Keys == s2.clients.Keys
    requires forall p :: p in players && p in ecs.clientIds && ecs.clientIds[p] in s1.clients ==>
      s1.clients[ecs.clientIds[p]] == s2.clients[ecs.clientIds[p]]
    ensures Buffered(ecs, players, s1) == Buffered(ecs, players, s2)
    decreases |players|
  {
    if |players| > 0 {
      assert forall q :: q in players[1..] ==> q in players;
      BufferedFrame(ecs, players[1..], s1, s2);
    }
  }

  /** When no two players share a client, the collect phase yields each connected player's
      buffered packets, player after player in query order, each buffer in its own order. */
  lemma {:induction false} CollectIsConcatenation(ecs: Ecs, players: seq<EntityId>, server: Server)
    requires DistinctClients(ecs, players)
    ensures Collect(ecs, players, server).packets == Buffered(ecs, players, server)
    decreases |players|
  {
    if |players| > 0 {
      var p := players[0];
      assert DistinctClients(ecs, players[1..]) by {
        forall i, j | 0 <= i < j < |players[1..]| && players[1..][i] in ecs.clientIds && players[1..][j] in ecs.clientIds
          ensures ecs.clientIds[players[1..][i]] != ecs.clientIds[players[1..][j]]
        {
          assert players[1..][i] == players[i + 1] && players[1..][j] == players[j + 1];
        }
      }
      if Connected(ecs, server, p) {
        var id := ecs.clientIds[p];
        var drained := server.(clients := server.clients[id := Client([])]);
        CollectIsConcatenation(ecs, players[1..], drained);
        forall q | q in players[1..] && q in ecs.clientIds && ecs.clientIds[q] in drained.clients
          ensures drained.clients[ecs.clientIds[q]] == server.clients[ecs.clientIds[q]]
        {
          var j :| 0 <= j < |players[1..]| && players[1..][j] == q;
          assert players[j + 1] == q;
        }
        BufferedFrame(ecs, players[1..], drained, server);
      } else {
        CollectIsConcatenation(ecs, players[1..], server);
      }
    }
  }

  /** Collecting from a server whose visited buffers are all empty yields nothing. */
  lemma {:induction false} CollectEmptyBuffers(ecs: Ecs, players: seq<EntityId>, server: Server)
    requires forall p :: p in players && Connected(ecs, server, p) ==> server.clients[ecs.clientIds[p]].received == []
    ensures Collect(ecs, players, server).packets == []
    decreases |players|
  {
    if |players| > 0 {
      var p := players[0];
      assert forall q :: q in players[1..] ==> q in players;
      if Connected(ecs, server, p) {
        var id := ecs.clientIds[p];
        var drained := server.(clients := server.clients[id := Client([])]);
        CollectEmptyBuffers(ecs, players[1..], drained);
      } else {
        CollectEmptyBuffers(ecs, players[1..], server);
      }
    }
  }

  /** Draining twice without new arrivals: the second collect phase yields no packets. */
  lemma CollectTwice(ecs: Ecs, players: seq<EntityId>, server: Server)
    ensures Collect(ecs, players, Collect(ecs, players, server).server).packets == []
  {
    var drained := Collect(ecs, players, server).server;
    forall p | p in players && Connected(ecs, drained, p)
      ensures drained.clients[ecs.clientIds[p]].received == []
    {
      assert Visits(ecs, players, ecs.clientIds[p]);
    }
    CollectEmptyBuffers(ecs, players, drained);
  }

  // ---------------------------------------------------------------------------
  // handle_packets: dispatch phase

  /** What the game and server look like to a system. The executor lends the one `Server`
      resource to the running system, which reads and writes it as `server` here; the slot
      `Game.server` is only filled by `register` and is not read while a system runs. */
  datatype State = State(game: Game, server: Server)

  /** What the packet handler returns: the state after it ran and its result. */
  datatype Handled = Handled(state: State, result: Result<(), HandlerError>)

  /** A `log::warn!` entry: the player's name and the handler's error. */
  datatype Warning = Warning(player: string, error: HandlerError)

  /** What became of one dispatched packet: handled; failed and logged; failed while the
      `Warn` log level is disabled, so that nothing was looked up or logged; or failed with
      the player's `Name` missing (which ends the system). */
  datatype PacketOutcome =
    | HandledOk
    | FailedLogged(warning: Warning)
    | FailedSilently(error: HandlerError)
    | FailedUnnamed(error: HandlerError)

  /** Judges one handler call for `player`. The player's `Name` is an argument of the
      warning, so it is looked up (on the game as the handler left it) only when the `Warn`
      level is enabled, which `warnEnabled` says. */
  function Classify(h: Handled, player: EntityId, warnEnabled: bool): (o: PacketOutcome)
    ensures o.HandledOk? <==> h.result.Ok?
    ensures o.FailedLogged? <==> h.result.Err? && warnEnabled && player in h.state.game.ecs.names
    ensures o.FailedUnnamed? <==> h.result.Err? && warnEnabled && player !in h.state.game.ecs.names
    ensures o.FailedSilently? <==> h.result.Err? && !warnEnabled
    ensures o.FailedLogged? ==> o.warning == Warning(h.state.game.ecs.names[player], h.result.error)
    ensures o.FailedSilently? || o.FailedUnnamed? ==> o.error == h.result.error
  {
    match h.result
    case Ok(_) => HandledOk
    case Err(e) =>
      if !warnEnabled then FailedSilently(e)
      else if player in h.state.game.ecs.names then FailedLogged(Warning(h.state.game.ecs.names[player], e))
      else FailedUnnamed(e)
  }

  /** The warnings logged along a sequence of outcomes, in order. */
  function Warnings(outcomes: seq<PacketOutcome>): seq<Warning> {
    if |outcomes| == 0 then []
    else (if outcomes[0].FailedLogged? then [outcomes[0].warning] else []) + Warnings(outcomes[1..])
  }

  lemma WarningsCons(o: PacketOutcome, rest: seq<PacketOutcome>)
    ensures Warnings([o] + rest) == (if o.FailedLogged? then [o.warning] else []) + Warnings(rest)
  {
    assert ([o] + rest)[1..] == rest;
  }

  /** The dispatch phase's run: the final state, the state each handler call saw, what
      became of each packet handled, the warnings logged and the system's result. */
  datatype Dispatched = Dispatched(
    state: State,
    seen: seq<State>,
    outcomes: seq<PacketOutcome>,
    log: seq<Warning>,
    result: Result<(), SysError>)

  /** `seen` and `outcomes` replay the first `|outcomes|` handler calls on `packets` from
      state `st`: each call sees the state the previous call left, each outcome judges its
      call, and `final` is the state the last call left (`st` if there was none). */
  ghost predicate Replays(st: State, packets: seq<(EntityId, Packet)>, handler: (State, EntityId, Packet) -> Handled,
                          warnEnabled: bool, seen: seq<State>, outcomes: seq<PacketOutcome>, final: State)
  {
    && |seen| == |outcomes| <= |packets|
    && (|outcomes| > 0 ==> seen[0] == st)
    && (forall i :: 0 <= i < |outcomes| ==>
         outcomes[i] == Classify(handler(seen[i], packets[i].0, packets[i].1), packets[i].0, warnEnabled))
    && (forall i :: 0 < i < |outcomes| ==> seen[i] == handler(seen[i - 1], packets[i - 1].0, packets[i - 1].1).state)
    && final == if |outcomes| == 0 then st else handler(seen[|outcomes| - 1], packets[|outcomes| - 1].0, packets[|outcomes| - 1].1).state
  }

  /** A replay from the state the first call left, prefixed with that first call, is a
      replay from the start. */
  lemma ReplaysCons(st: State, packets: seq<(EntityId, Packet)>, handler: (State, EntityId, Packet) -> Handled,
                    warnEnabled: bool, seen: seq<State>, outcomes: seq<PacketOutcome>, final: State)
    requires |packets| > 0
    requires Replays(handler(st, packets[0].0, packets[0].1).state, packets[1..], handler, warnEnabled, seen, outcomes, final)
    ensures Replays(st, packets, handler, warnEnabled, [st] + seen,
      [Classify(handler(st, packets[0].0, packets[0].1), packets[0].0, warnEnabled)] + outcomes, final)
  {
    var h := handler(st, packets[0].0, packets[0].1);
    var seen' := [st] + seen;
    var outcomes' := [Classify(h, packets[0].0, warnEnabled)] + outcomes;
    assert |seen'| == |outcomes'| <= |packets|;
    assert seen'[0] == st;
    ConsSeen(st, packets, handler, seen, |outcomes|);
    ConsOutcomes(st, packets, handler, warnEnabled, seen, outcomes);
    assert final == if |outcomes'| == 0 then st
      else handler(seen'[|outcomes'| - 1], packets[|outcomes'| - 1].0, packets[|outcomes'| - 1].1).state by {
      if |outcomes| > 0 {
        assert packets[1..][|outcomes| - 1] == packets[|outcomes|];
        assert seen'[|outcomes'| - 1] == seen[|outcomes| - 1];
      }
    }
  }

  /** The state-threading part of `ReplaysCons`. */
  lemma ConsSeen(st: State, packets: seq<(EntityId, Packet)>, handler: (State, EntityId, Packet) -> Handled,
                 seen: seq<State>, n: nat)
    requires |packets| > 0 && n == |seen| <= |packets| - 1
    requires n > 0 ==> seen[0] == handler(st, packets[0].0, packets[0].1).state
    requires forall i :: 0 < i < n ==> seen[i] == handler(seen[i - 1], packets[1..][i - 1].0, packets[1..][i - 1].1).state
    ensures forall i :: 0 < i < n + 1 ==>
      ([st] + seen)[i] == handler(([st] + seen)[i - 1], packets[i - 1].0, packets[i - 1].1).state
  {
    var seen' := [st] + seen;
    forall i | 0 < i < n + 1
      ensures seen'[i] == handler(seen'[i - 1], packets[i - 1].0, packets[i - 1].1).state
    {
      if i > 1 {
        assert packets[1..][i - 2] == packets[i - 1];
        assert seen'[i] == seen[i - 1] && seen'[i - 1] == seen[i - 2];
      }
    }
  }

  /** The judging part of `ReplaysCons`. */
  lemma ConsOutcomes(st: State, packets: seq<(EntityId, Packet)>, handler: (State, EntityId, Packet) -> Handled,
                     warnEnabled: bool, seen: seq<State>, outcomes: seq<PacketOutcome>)
    requires |packets| > 0 && |seen| == |outcomes| <= |packets| - 1
    requires forall i :: 0 <= i < |outcomes| ==>
      outcomes[i] == Classify(handler(seen[i], packets[1..][i].0, packets[1..][i].1), packets[1..][i].0, warnEnabled)
    ensures var outcomes' := [Classify(handler(st, packets[0].0, packets[0].1), packets[0].0, warnEnabled)] + outcomes;
      forall i :: 0 <= i < |outcomes'| ==>
        outcomes'[i] == Classify(handler(([st] + seen)[i], packets[i].0, packets[i].1), packets[i].0, warnEnabled)
  {
    var outcomes' := [Classify(handler(st, packets[0].0, packets[0].1), packets[0].0, warnEnabled)] + outcomes;
    forall i | 0 < i < |outcomes'|
      ensures outcomes'[i] == Classify(handler(([st] + seen)[i], packets[i].0, packets[i].1), packets[i].0, warnEnabled)
    {
      assert packets[1..][i - 1] == packets[i];
      assert outcomes'[i] == outcomes[i - 1] && ([st] + seen)[i] == seen[i - 1];
    }
  }

  /** The dispatch phase of `handle_packets`: hands the packets to `handler` one after the
      other, threading the state; a handler error is logged (when the `Warn` level is
      enabled) and the next packet follows, unless the player has no `Name` to log, which
      ends the system with that error. With the `Warn` level disabled nothing is logged and
      every packet is handled. */
  function Dispatch(st: State, packets: seq<(EntityId, Packet)>, handler: (State, EntityId, Packet) -> Handled,
                    warnEnabled: bool): (r: Dispatched)
    ensures |r.seen| == |r.outcomes| <= |packets|
    ensures r.result.Ok? ==> |r.outcomes| == |packets|
    ensures r.result.Err? ==> 0 < |r.outcomes| && r.outcomes[|r.outcomes| - 1].FailedUnnamed?
    ensures !warnEnabled ==> r.result == Ok(()) && r.log == []
    decreases |packets|
  {
    if |packets| == 0 then Dispatched(st, [], [], [], Ok(()))
    else
      var player := packets[0].0;
      var h := handler(st, player, packets[0].1);
      var o := Classify(h, player, warnEnabled);
      if o.FailedUnnamed? then
        Dispatched(h.state, [st], [o], [], Err(MissingName(player)))
      else
        var rest := Dispatch(h.state, packets[1..], handler, warnEnabled);
        Dispatched(rest.state, [st] + rest.seen, [o] + rest.outcomes,
          (if o.FailedLogged? then [o.warning] else []) + rest.log, rest.result)
  }

  /** Each handler call of the dispatch phase sees the state the previous call left, the
      first sees the state the phase started from, and each outcome judges its call. */
  lemma {:induction false} DispatchReplays(st: State, packets: seq<(EntityId, Packet)>, handler: (State, EntityId, Packet) -> Handled,
                                           warnEnabled: bool)
    ensures var r := Dispatch(st, packets, handler, warnEnabled); Replays(st, packets, handler, warnEnabled, r.seen, r.outcomes, r.state)
    decreases |packets|
  {
    if |packets| > 0 {
      var h := handler(st, packets[0].0, packets[0].1);
      if !Classify(h, packets[0].0, warnEnabled).FailedUnnamed? {
        DispatchReplays(h.state, packets[1..], handler, warnEnabled);
        var rest := Dispatch(h.state, packets[1..], handler, warnEnabled);
        ReplaysCons(st, packets, handler, warnEnabled, rest.seen, rest.outcomes, rest.state);
      }
    }
  }

  /** Only a missing `Name` stops a dispatch run `r` over `packets`: it fails exactly when
      some call ended that way, that call is the last one made and its player is named in
      the error, and when it succeeds every packet was handed to the handler. */
  ghost predicate StopsOnlyOnMissingName(packets: seq<(EntityId, Packet)>, r: Dispatched) {
    && |r.outcomes| <= |packets|
    && (forall i :: 0 <= i < |r.outcomes| - 1 ==> !r.outcomes[i].FailedUnnamed?)
    && (r.result.Ok? <==> forall i :: 0 <= i < |r.outcomes| ==> !r.outcomes[i].FailedUnnamed?)
    && (r.result.Ok? ==> |r.outcomes| == |packets|)
    && (r.result.Err? ==> 0 < |r.outcomes| && r.result.error == MissingName(packets[|r.outcomes| - 1].0))
  }

  /** The dispatch phase stops only on a missing `Name`. */
  lemma {:induction false} DispatchStopsOnlyOnMissingName(st: State, packets: seq<(EntityId, Packet)>,
                                                          handler: (State, EntityId, Packet) -> Handled, warnEnabled: bool)
    ensures StopsOnlyOnMissingName(packets, Dispatch(st, packets, handler, warnEnabled))
    decreases |packets|
  {
    if |packets| > 0 {
      var h := handler(st, packets[0].0, packets[0].1);
      var o := Classify(h, packets[0].0, warnEnabled);
      var r := Dispatch(st, packets, handler, warnEnabled);
      if !o.FailedUnnamed? {
        DispatchStopsOnlyOnMissingName(h.state, packets[1..], handler, warnEnabled);
        var rest := Dispatch(h.state, packets[1..], handler, warnEnabled);
        StopsCons(packets, o, rest, r);
      } else {
        assert r.outcomes == [o] && r.result == Err(MissingName(packets[0].0));
      }
    }
  }

  /** One call that did not end on a missing `Name`, followed by a run over the remaining
      packets that stops only on a missing `Name`, is such a run over all packets. */
  lemma StopsCons(packets: seq<(EntityId, Packet)>, o: PacketOutcome, rest: Dispatched, r: Dispatched)
    requires |packets| > 0 && !o.FailedUnnamed?
    requires StopsOnlyOnMissingName(packets[1..], rest)
    requires r.outcomes == [o] + rest.outcomes && r.result == rest.result
    ensures StopsOnlyOnMissingName(packets, r)
  {
    forall i | 0 < i < |r.outcomes| ensures r.outcomes[i] == rest.outcomes[i - 1] { }
    assert r.outcomes[0] == o;
    if r.result.Ok? {
      forall i | 0 <= i < |r.outcomes| ensures !r.outcomes[i].FailedUnnamed? {
        if i > 0 {
          assert !rest.outcomes[i - 1].FailedUnnamed?;
        }
      }
    } else {
      var j :| 0 <= j < |rest.outcomes| && rest.outcomes[j].FailedUnnamed?;
      assert r.outcomes[j + 1].FailedUnnamed?;
      assert packets[1..][|rest.outcomes| - 1] == packets[|r.outcomes| - 1];
    }
  }

  /** The log holds one warning per logged failure, in the order of the packets. */
  lemma {:induction false} DispatchLog(st: State, packets: seq<(EntityId, Packet)>, handler: (State, EntityId, Packet) -> Handled,
                                       warnEnabled: bool)
    ensures Dispatch(st, packets, handler, warnEnabled).log == Warnings(Dispatch(st, packets, handler, warnEnabled).outcomes)
    decreases |packets|
  {
    if |packets| > 0 {
      var h := handler(st, packets[0].0, packets[0].1);
      var o := Classify(h, packets[0].0, warnEnabled);
      if !o.FailedUnnamed? {
        DispatchLog(h.state, packets[1..], handler, warnEnabled);
        WarningsCons(o, Dispatch(h.state, packets[1..], handler, warnEnabled).outcomes);
      }
    }
  }

  // ---------------------------------------------------------------------------
  // handle_packets

  /** A run of `handle_packets`: the packets the collect phase gathered, and the dispatch. */
  datatype PacketsRun = PacketsRun(collected: seq<(EntityId, Packet)>, dispatch: Dispatched)

  /** Whether every buffer of a client that some entity of `ecs` has is empty. */
  ghost predicate Drained(ecs: Ecs, server: Server) {
    forall p :: p in ecs.entities && Connected(ecs, server, p) ==> server.clients[ecs.clientIds[p]].received == []
  }

  /** `handle_packets`: collects every connected player's packets first, then dispatches
      them. The handler calls replay the collected packets in order, the first from the
      game unchanged and every buffer already drained; every collected packet is handled
      unless a `Name` lookup fails. */
  function HandlePackets(game: Game, server: Server, handler: (State, EntityId, Packet) -> Handled, warnEnabled: bool): (r: PacketsRun)
    ensures forall i :: 0 <= i < |r.collected| ==>
      r.collected[i].0 in game.ecs.entities && Connected(game.ecs, server, r.collected[i].0)
    ensures DistinctClients(game.ecs, game.ecs.entities) ==> r.collected == Buffered(game.ecs, game.ecs.entities, server)
    ensures |r.dispatch.outcomes| > 0 ==>
      (|r.dispatch.seen| > 0 && r.dispatch.seen[0].game == game && Drained(game.ecs, r.dispatch.seen[0].server))
    ensures |r.dispatch.seen| == |r.dispatch.outcomes| <= |r.collected|
    ensures r.dispatch.result.Ok? ==> |r.dispatch.outcomes| == |r.collected|
    ensures r.dispatch.result.Err? ==> 0 < |r.dispatch.outcomes| && r.dispatch.result.error == MissingName(r.collected[|r.dispatch.outcomes| - 1].0)
    ensures !warnEnabled ==> r.dispatch.result == Ok(())
    ensures Replays(State(game, Collect(game.ecs, game.ecs.entities, server).server), r.collected, handler, warnEnabled,
                    r.dispatch.seen, r.dispatch.outcomes, r.dispatch.state)
  {
    var c := Collect(game.ecs, game.ecs.entities, server);
    CollectPhase(game.ecs, server);
    DispatchReplays(State(game, c.server), c.packets, handler, warnEnabled);
    DispatchStopsOnlyOnMissingName(State(game, c.server), c.packets, handler, warnEnabled);
    PacketsRun(c.packets, Dispatch(State(game, c.server), c.packets, handler, warnEnabled))
  }

  /** The collect phase of `handle_packets` drains every buffer of a queried player, and
      with distinct clients it gathers the per-player concatenation. */
  lemma CollectPhase(ecs: Ecs, server: Server)
    ensures var c := Collect(ecs, ecs.entities, server);
      && Drained(ecs, c.server)
      && (DistinctClients(ecs, ecs.entities) ==> c.packets == Buffered(ecs, ecs.entities, server))
  {
    var c := Collect(ecs, ecs.entities, server);
    if DistinctClients(ecs, ecs.entities) {
      CollectIsConcatenation(ecs, ecs.entities, server);
    }
    forall p | p in ecs.entities && Connected(ecs, c.server, p)
      ensures c.server.clients[ecs.clientIds[p]].received == []
    {
      assert Visits(ecs, ecs.entities, ecs.clientIds[p]);
    }
  }

  /** Entities without a `ClientId`, or whose client the table lacks, give no packets and
      no error: with none connected, nothing is handled and the system succeeds. */
  lemma NoConnectedPlayers(game: Game, server: Server, handler: (State, EntityId, Packet) -> Handled, warnEnabled: bool)
    requires forall p :: p in game.ecs.entities ==> !Connected(game.ecs, server, p)
    ensures HandlePackets(game, server, handler, warnEnabled).collected == []
    ensures HandlePackets(game, server, handler, warnEnabled).dispatch.outcomes == []
    ensures HandlePackets(game, server, handler, warnEnabled).dispatch.result == Ok(())
  {
  }

  /** Error isolation: when every player whose packet is dispatched has a `Name` and the
      handler never takes a `Name` away (or when the `Warn` level is disabled, so that no
      `Name` is looked up), every packet is handled whatever the handler returns, each
      failure leaves exactly one warning (none when disabled), and the system succeeds. */
  lemma {:induction false} FailuresAreIsolated(st: State, packets: seq<(EntityId, Packet)>,
                                               handler: (State, EntityId, Packet) -> Handled, warnEnabled: bool)
    requires warnEnabled ==> KeepsNames(handler)
    requires warnEnabled ==> forall i :: 0 <= i < |packets| ==> packets[i].0 in st.game.ecs.names
    ensures Dispatch(st, packets, handler, warnEnabled).result == Ok(())
    ensures |Dispatch(st, packets, handler, warnEnabled).outcomes| == |packets|
    ensures |Dispatch(st, packets, handler, warnEnabled).log| ==
      if warnEnabled then Failures(Dispatch(st, packets, handler, warnEnabled).outcomes) else 0
    decreases |packets|
  {
    if |packets| > 0 {
      var h := handler(st, packets[0].0, packets[0].1);
      if warnEnabled {
        KeepsNamesAt(handler, st, packets[0].0, packets[0].1, packets[0].0);
        forall i | 0 <= i < |packets[1..]| ensures packets[1..][i].0 in h.state.game.ecs.names {
          assert packets[1..][i] == packets[i + 1];
          KeepsNamesAt(handler, st, packets[0].0, packets[0].1, packets[i + 1].0);
        }
      }
      FailuresAreIsolated(h.state, packets[1..], handler, warnEnabled);
      var r := Dispatch(st, packets, handler, warnEnabled);
      var rest := Dispatch(h.state, packets[1..], handler, warnEnabled);
      assert r.outcomes == [Classify(h, packets[0].0, warnEnabled)] + rest.outcomes;
      assert r.outcomes[1..] == rest.outcomes;
    }
  }

  /** The handler never takes a `Name` away: whoever is named before a call is named after it. */
  ghost predicate KeepsNames(handler: (State, EntityId, Packet) -> Handled) {
    forall s: State, p: EntityId, pk: Packet, q: EntityId ::
      q in s.game.ecs.names ==> q in handler(s, p, pk).state.game.ecs.names
  }

  lemma KeepsNamesAt(handler: (State, EntityId, Packet) -> Handled, s: State, p: EntityId, pk: Packet, q: EntityId)
    requires KeepsNames(handler)
    requires q in s.game.ecs.names
    ensures q in handler(s, p, pk).state.game.ecs.names
  {
  }

  /** The number of outcomes whose handler call failed. */
  function Failures(outcomes: seq<PacketOutcome>): (n: nat)
    ensures n <= |outcomes|
    ensures n == 0 <==> forall i :: 0 <= i < |outcomes| ==> outcomes[i].HandledOk?
  {
    if |outcomes| == 0 then 0
    else (if outcomes[0].HandledOk? then 0 else 1) + Failures(outcomes[1..])
  }

  // ---------------------------------------------------------------------------
  // send_keepalives

  /** The keepalive interval: five seconds, in milliseconds. */
  const KeepaliveIntervalMs: int := 5000

  /** A run of `send_keepalives`: the game and server afterwards, whether a keepalive was
      broadcast, and the system's result. */
  datatype KeepaliveRun = KeepaliveRun(game: Game, server: Server, broadcast: bool, result: Result<(), SysError>)

  /** `send_keepalives` at time `nowMs`: broadcasts when strictly more than the interval
      has passed since the last keepalive, never fails and leaves the game alone. What
      `broadcast_keepalive` does to the server is the parameter `broadcastKeepalive`. */
  function SendKeepalives(game: Game, server: Server, nowMs: int, broadcastKeepalive: Server -> Server): (r: KeepaliveRun)
    ensures r.broadcast <==> nowMs - server.lastKeepaliveMs > 5000
    ensures r.server == if r.broadcast then broadcastKeepalive(server) else server
    ensures r.game == game
    ensures r.result == Ok(())
  {
    if server.lastKeepaliveMs + KeepaliveIntervalMs < nowMs then
      KeepaliveRun(game, broadcastKeepalive(server), true, Ok(()))
    else
      KeepaliveRun(game, server, false, Ok(()))
  }

  /** Debounce: when `broadcastKeepalive` stamps the server with the time of the broadcast,
      a check against the server it returned sends nothing for the next five seconds and
      sends again at every later check. */
  lemma KeepaliveDebounce(game: Game, server: Server, nowMs: int, laterMs: int, broadcastKeepalive: Server -> Server)
    requires SendKeepalives(game, server, nowMs, broadcastKeepalive).broadcast
    requires broadcastKeepalive(server).lastKeepaliveMs == nowMs
    requires nowMs <= laterMs
    ensures var next := SendKeepalives(game, server, nowMs, broadcastKeepalive).server;
      SendKeepalives(game, next, laterMs, broadcastKeepalive).broadcast <==> laterMs > nowMs + 5000
  {
  }

  /** Exactly five seconds after the last keepalive, nothing is broadcast yet; one
      millisecond later, a keepalive goes out. */
  lemma KeepaliveBoundary(game: Game, server: Server, broadcastKeepalive: Server -> Server)
    ensures !SendKeepalives(game, server, server.lastKeepaliveMs + 5000, broadcastKeepalive).broadcast
    ensures SendKeepalives(game, server, server.lastKeepaliveMs + 5001, broadcastKeepalive).broadcast
  {
  }
}
