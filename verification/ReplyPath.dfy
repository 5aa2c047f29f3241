/** Replies on their way through nested layers of different kinds (mitmproxy/proxy/layer.py, mitmproxy/proxy/tunnel.py). */
module ReplyPaths {
  import opened Layers
  import opened LayerStacks
  import NextLayers
  import TunnelInvariants
  import TunnelRuns
  import Tunnels

  // A layer inside others receives exactly the calls that the layer around it makes. Here the layers around the one that
  // asks are given with their whole runs; each may be any layer of the engine that relays replies in the end, a NextLayer
  // that has or has not decided yet, or a tunnel, whatever its own child asked of it and its handshake did.

  /** A layer around the one that asks, with all that happened to it. */
  datatype Floor<!S, !W, !E, C, !R> =
    | Engine(handler: Handler<S, W, E, C, R>, config: Config<S, W, E, C, R>, backlog: S -> seq<Input<E, R>>,
             trace: seq<(W, Input<E, R>)>)
    | Choosing(askOnStart: bool, owner: nat, calls: seq<((), NextLayers.NetInput)>)
    | Tunnel(kind: Tunnels.Kind, moves: seq<Tunnels.Move>)

  /** It is another layer than the one that asked, and no reply to that command has reached it before. */
  ghost predicate Foreign<S(!new), W(!new), E(!new), C, R(!new)>(floor: Floor<S, W, E, C, R>, id: CmdId) {
    match floor
    case Engine(h, cfg, backlog, _) =>
      && Relays(h, RepliesTo(id), backlog) && Quiet(cfg) && WellNumbered(cfg) && cfg.owner != id.owner
      && Count(id, cfg.queue) == 0 && Owes(cfg, [], RepliesTo(id), backlog)
    case Choosing(_, owner, _) => owner != id.owner
    case Tunnel(kind, _) => kind.owner != id.owner
  }

  /** How often the layer was given a reply to the command. */
  function Given<S, W, E, C, R>(floor: Floor<S, W, E, C, R>, id: CmdId): nat {
    match floor
    case Engine(_, _, _, trace) => Count(id, Inputs(trace))
    case Choosing(_, _, calls) => Count(id, Inputs(calls))
    case Tunnel(kind, moves) => multiset(TunnelRuns.ReplyIds(TunnelRuns.OfferedIn(Tunnels.Initial(kind), moves)))[id]
  }

  /** How often it has passed one to its child. */
  function Passed<S, W, E, C, R>(floor: Floor<S, W, E, C, R>, id: CmdId): nat {
    match floor
    case Engine(h, cfg, _, trace) => Count(id, Inputs(ChildTrace(h, cfg, trace)))
    case Choosing(ask, owner, calls) =>
      Count(id, Inputs(ChildTrace(NextLayers.HandlerOf(ask), Initial(owner, NextLayers.Undecided([])), calls)))
    case Tunnel(kind, moves) => multiset(TunnelRuns.StrayIds(Tunnels.Run(Tunnels.Initial(kind), moves).log.delivered))[id]
  }

  /** At the end it is not paused and holds nothing back. */
  predicate Rested<S, W, E, C, R>(floor: Floor<S, W, E, C, R>) {
    match floor
    case Engine(h, cfg, backlog, trace) =>
      var end := Run(h, cfg, trace).config; end.phase.Idle? && backlog(end.phase.state) == []
    case Choosing(ask, owner, calls) =>
      Run(NextLayers.HandlerOf(ask), Initial(owner, NextLayers.Undecided([])), calls).config.phase == Idle(NextLayers.Decided)
    case Tunnel(kind, moves) => TunnelRuns.AtRest(Tunnels.Run(Tunnels.Initial(kind), moves))
  }

  lemma ChoosingPasses(ask: bool, owner: nat, calls: seq<((), NextLayers.NetInput)>, id: CmdId)
    requires owner != id.owner
    ensures var h, cfg := NextLayers.HandlerOf(ask), Initial(owner, NextLayers.Undecided([]));
            var passed := Count(id, Inputs(ChildTrace(h, cfg, calls)));
            passed <= Count(id, Inputs(calls))
            && (Run(h, cfg, calls).config.phase == Idle(NextLayers.Decided) ==> passed == Count(id, Inputs(calls)))
  {
    var h, cfg := NextLayers.HandlerOf(ask), Initial(owner, NextLayers.Undecided([]));
    NextLayers.RelaysEverything(ask);
    RelaysLess(h, RepliesTo(id), NextLayers.Recorded());
    PassedOn(id, h, cfg, calls, NextLayers.RepliesHeld(id));
  }

  lemma TunnelPasses(kind: Tunnels.Kind, moves: seq<Tunnels.Move>, id: CmdId)
    requires kind.owner != id.owner
    ensures var t0 := Tunnels.Initial(kind);
            var given := multiset(TunnelRuns.ReplyIds(TunnelRuns.OfferedIn(t0, moves)))[id];
            var passed := multiset(TunnelRuns.StrayIds(Tunnels.Run(t0, moves).log.delivered))[id];
            passed <= given && (TunnelRuns.AtRest(Tunnels.Run(t0, moves)) ==> passed == given)
  {
    var t0 := Tunnels.Initial(kind);
    TunnelInvariants.InitialOk(kind);
    TunnelRuns.ForeignRepliesPass(kind, moves);
    TunnelRuns.ForeignAccepted(t0, moves, id);
    PrefixCounts(TunnelRuns.StrayIds(Tunnels.Run(t0, moves).log.delivered), TunnelRuns.ReplyIds(TunnelRuns.AcceptedIn(t0, moves)), id);
  }

  lemma PrefixCounts(a: seq<CmdId>, b: seq<CmdId>, id: CmdId)
    requires a <= b
    ensures multiset(a)[id] <= multiset(b)[id]
  {
    assert b == a + b[|a|..];
  }

  /** A layer passes a reply to a foreign command at most as often as it is given, and as often once it has come to rest. */
  lemma FloorPasses<S(!new), W(!new), E(!new), C, R(!new)>(floor: Floor<S, W, E, C, R>, id: CmdId)
    requires Foreign(floor, id)
    ensures Passed(floor, id) <= Given(floor, id) && (Rested(floor) ==> Passed(floor, id) == Given(floor, id))
  {
    match floor
    case Engine(h, cfg, backlog, trace) => PassedOn(id, h, cfg, trace, backlog);
    case Choosing(ask, owner, calls) => ChoosingPasses(ask, owner, calls, id);
    case Tunnel(kind, moves) => TunnelPasses(kind, moves, id);
  }

  /** Outermost layer first, each is given what the one around it passes. */
  ghost predicate Path<S(!new), W(!new), E(!new), C, R(!new)>(floors: seq<Floor<S, W, E, C, R>>, id: CmdId) {
    && (forall i :: 0 <= i < |floors| ==> Foreign(floors[i], id))
    && (forall i :: 0 < i < |floors| ==> Given(floors[i], id) == Passed(floors[i - 1], id))
  }

  lemma {:induction false} ReplyArrives<S(!new), W(!new), E(!new), C, R(!new)>(floors: seq<Floor<S, W, E, C, R>>, id: CmdId)
    requires floors != [] && Path(floors, id)
    ensures Passed(floors[|floors| - 1], id) <= Given(floors[0], id)
    ensures (forall i :: 0 <= i < |floors| ==> Rested(floors[i])) ==> Passed(floors[|floors| - 1], id) == Given(floors[0], id)
    decreases |floors|
  {
    var n := |floors| - 1;
    FloorPasses(floors[n], id);
    if n > 0 {
      ReplyArrives(floors[..n], id);
    }
  }

  /** Through any nesting of relaying layers, NextLayers and tunnels, a reply that is given once to the outermost layer
      resumes the layer that asked for it at most once, and exactly once when all layers around it have come to rest:
      however long handshakes, undecided protocols and pauses on commands of their own have held it back. */
  lemma ReplyReachesAsker<S(!new), W(!new), E(!new), C, R(!new), S'(!new), W'(!new), E'(!new), C', R'(!new)>(
    floors: seq<Floor<S, W, E, C, R>>, id: CmdId,
    h: Handler<S', W', E', C', R'>, asker: Config<S', W', E', C', R'>, trace: seq<(W', Input<E', R'>)>)
    requires floors != [] && Path(floors, id) && Given(floors[0], id) == 1
    requires asker.phase.Waiting? && asker.phase.id == id && WellNumbered(asker)
    requires Count(id, Inputs(trace)) == Passed(floors[|floors| - 1], id)
    ensures var resumed := multiset(Resumed(h, asker, trace))[id];
            resumed <= 1 && ((forall i :: 0 <= i < |floors| ==> Rested(floors[i])) ==> resumed == 1)
  {
    ReplyArrives(floors, id);
    NeverResumedTwice(h, asker, trace);
    WaitsForItsReply(h, asker, trace);
  }
}
