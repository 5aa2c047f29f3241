/** `TunnelLayer` (mitmproxy/proxy/tunnel.py). */
module Tunnels {
  import opened ByteStrings
  import opened Options
  import opened Seqs
  import L = Layers

  // The tunnel interprets the commands of its child while the child's event handler is suspended, and may itself be
  // suspended in the middle, as often as the child asks for connections. Its coroutine is therefore kept as an explicit
  // stack of frames, topmost first, and runs one frame at a time. What the child yields and what the code of a subclass
  // does is not fixed: each step takes it as an argument, so that every statement below holds for all children and all
  // subclasses, as long as they do in each frame only what `Action` lists for it.

  datatype TunnelState = Inactive | Establishing | Open | Closed

  datatype ChildEvent =
    | Start | Data(data: Bytes) | ConnectionClosed | OtherEvent(tag: nat) | StrayReply(id: L.CmdId)
    | OpenCompleted(command: nat, failed: bool)

  /** What a child asks for on the tunnelled connection; anything else is passed on. */
  datatype ChildCommand = Send(data: Bytes) | Close | OpenConnection | Unrelated(tag: nat)

  /** Events of the tunnel; `tag` stands for any event that is not of the outer connection. */
  datatype Arrival = TunnelData(data: Bytes) | TunnelClosed | Other(tag: nat) | Reply(id: L.CmdId, failed: bool)

  datatype Frame =
    | StartHandshake
    | ReceiveHandshake(data: Bytes)
    | OnHandshakeError
    | HandshakeFinished(failed: bool)
    | Flush(next: nat)                            // the loop over _event_queue
    | ForgetCommand                               // command_to_reply_to = None
    | EventToChild(event: ChildEvent, again: bool) // `again`: taken from _event_queue
    | HandleCommands(commands: seq<ChildCommand>) // the rest of what the child yields
    | AwaitOpen(command: nat)                     // err = yield OpenConnection(...)
    | OpenFailed                                  // tunnel_state = CLOSED after the error reply
    | EndClosed                                   // tunnel_state = CLOSED after a close

  datatype Stack = Empty | On(top: Frame, below: Stack)

  /** What one step of a subclass's code does: yield a command, call event_to_child with data or a close
      (`receive_handshake_data`), set the state to CLOSED (`start_handshake`, when there is no command to reply to),
      replace event_to_child by one that swallows everything (`on_handshake_error`), or return. */
  datatype Action =
    | Yields(blocking: bool)
    | Delivers(data: Bytes)
    | DeliversClose
    | GivesUp
    | Silences
    | Returns(done: bool, failed: bool)

  /** What the next step finds out from outside: what the child yields, what the subclass does, and whether the subclass
      swallows the tunnel's own OpenConnection, which then counts as completed. */
  datatype Outside = Outside(commands: seq<ChildCommand>, action: Action, swallows: bool)

  /** `feeds`: the class has the handshake of the base class, in which `start_handshake` feeds an empty data event to the
      layer itself and the handshake is done at once. */
  datatype Kind = Kind(owner: nat, feeds: bool, startedOpen: bool)

  /** A record of the run: the events given to the child; the events, replies left out, that were to be given to it;
      whether a handshake has ended; whether `start_handshake` gave up; and whether a handshake ended when its command
      had been answered. */
  datatype Log = Log(delivered: seq<ChildEvent>, handed: seq<ChildEvent>, over: bool, gaveUp: bool, doubled: bool)

  /** `issued` numbers the child's OpenConnection commands and stands for their identity, `asked` does the same for the
      tunnel's own blocking commands. */
  datatype Tunnel = Tunnel(
    kind: Kind,
    state: TunnelState,
    commandToReplyTo: Option<nat>,
    eventQueue: seq<ChildEvent>,
    muted: bool,
    frames: Stack,
    paused: Option<L.CmdId>,
    pausedQueue: seq<Arrival>,
    issued: nat,
    asked: nat,
    log: Log)

  const STARTING: Stack := On(EventToChild(Start, false), Empty)

  /** The tunnel when it has just been given Start. */
  function Initial(kind: Kind): Tunnel {
    Tunnel(kind, if kind.startedOpen then Establishing else Inactive, None, [], false,
           if kind.startedOpen then On(StartHandshake, STARTING) else STARTING,
           None, [], 0, 0, Log([], [], false, false, false))
  }

  /** `_handle_event` */
  function Handle(t: Tunnel, x: Arrival): Tunnel {
    match x
    case TunnelData(d) =>
      t.(frames := On(if t.state == Establishing then ReceiveHandshake(d) else EventToChild(Data(d), false), Empty))
    case TunnelClosed =>
      var end := On(EndClosed, Empty);
      t.(frames := match t.state
                   case Open => On(EventToChild(ConnectionClosed, false), end)
                   case Establishing => On(OnHandshakeError, On(HandshakeFinished(true), end))
                   case _ => end)
    case Other(tag) => t.(frames := On(EventToChild(OtherEvent(tag), false), Empty))
    case Reply(id, _) => t.(frames := On(EventToChild(StrayReply(id), false), Empty))
  }

  predicate Working(t: Tunnel) {
    t.paused.None? && (t.frames != Empty || t.pausedQueue != [])
  }

  predicate IsOwnReply(t: Tunnel, x: Arrival) {
    x.Reply? && t.paused == Some(x.id)
  }

  /** `handle_event`: a new event reaches the tunnel, which is paused or has nothing to do. */
  function Arrive(t: Tunnel, x: Arrival): Tunnel
    requires !Working(t)
  {
    if t.paused.None? then Handle(t, x)
    else if IsOwnReply(t, x) then Resume(t.(paused := None), x.failed)
    else t.(pausedQueue := t.pausedQueue + [x])
  }

  /** Hands the reply to the frame that asked; only OpenConnection looks at it. */
  function Resume(t: Tunnel, failed: bool): Tunnel {
    if t.frames.On? && t.frames.top.AwaitOpen? then
      if failed then t.(frames := On(EventToChild(OpenCompleted(t.frames.top.command, true), false), On(OpenFailed, t.frames.below)))
      else t.(frames := On(StartHandshake, t.frames.below))
    else t
  }

  function Ask(t: Tunnel): Tunnel {
    t.(paused := Some(L.CmdId(t.kind.owner, t.asked)), asked := t.asked + 1)
  }

  /** One step of the tunnel's own coroutine, or of the replay of buffered events. */
  function Advance(t: Tunnel, o: Outside): Tunnel
    requires Working(t)
  {
    match t.frames
    case Empty => Handle(t.(pausedQueue := t.pausedQueue[1..]), t.pausedQueue[0])
    case On(frame, rest) =>
      match frame
      case StartHandshake => BeginHandshake(t, o.action, rest)
      case ReceiveHandshake(_) => ContinueHandshake(t, if t.kind.feeds then Returns(true, false) else o.action, rest)
      case OnHandshakeError => ReportError(t, o.action, rest)
      case HandshakeFinished(failed) => EndHandshake(t, failed, rest)
      case Flush(i) =>
        if i < |t.eventQueue| then t.(frames := On(EventToChild(t.eventQueue[i], true), On(Flush(i + 1), rest)))
        else t.(frames := rest, eventQueue := [])
      case ForgetCommand => t.(frames := rest, commandToReplyTo := None)
      case EventToChild(e, again) => GiveToChild(t, e, again, rest, o.commands)
      case HandleCommands(commands) => if commands == [] then t.(frames := rest) else HandleCommand(t, commands, rest, o.swallows)
      case AwaitOpen(_) => t
      case OpenFailed => t.(frames := rest, state := Closed)
      case EndClosed => t.(frames := rest, state := Closed)
  }

  function BeginHandshake(t: Tunnel, a: Action, rest: Stack): Tunnel {
    if t.kind.feeds then t.(frames := On(if t.state == Establishing then ReceiveHandshake([]) else EventToChild(Data([]), false), rest))
    else
      match a
      case Yields(blocking) => if blocking then Ask(t) else t
      case GivesUp => if t.commandToReplyTo.None? then t.(state := Closed, log := t.log.(gaveUp := true)) else t
      case Returns(_, _) => t.(frames := rest)
      case _ => t
  }

  function ContinueHandshake(t: Tunnel, a: Action, rest: Stack): Tunnel {
    match a
    case Yields(blocking) => if blocking then Ask(t) else t
    case Delivers(d) => t.(frames := On(EventToChild(Data(d), false), t.frames))
    case DeliversClose => t.(frames := On(EventToChild(ConnectionClosed, false), t.frames))
    case Returns(done, failed) =>
      t.(frames := if failed then On(OnHandshakeError, On(HandshakeFinished(true), rest))
                   else if done then On(HandshakeFinished(false), rest) else rest)
    case _ => t
  }

  function ReportError(t: Tunnel, a: Action, rest: Stack): Tunnel {
    match a
    case Yields(blocking) => if blocking then Ask(t) else t
    case Silences => t.(muted := true)
    case Returns(_, _) => t.(frames := rest)
    case _ => t
  }

  /** `_handshake_finished` */
  function EndHandshake(t: Tunnel, failed: bool, rest: Stack): Tunnel {
    t.(state := if failed then Closed else Open,
       log := t.log.(over := true, doubled := t.log.doubled || (!t.muted && Answered(t))),
       frames := if t.commandToReplyTo.Some?
                 then On(EventToChild(OpenCompleted(t.commandToReplyTo.value, failed), false), On(ForgetCommand, rest))
                 else On(Flush(0), rest))
  }

  /** `event_to_child` */
  function GiveToChild(t: Tunnel, e: ChildEvent, again: bool, rest: Stack, commands: seq<ChildCommand>): Tunnel {
    var t' := if again || e.OpenCompleted? then t else t.(log := t.log.(handed := t.log.handed + [e]));
    if t.muted then t'.(frames := rest)
    else if Buffering(t) then t'.(frames := rest, eventQueue := t.eventQueue + [e])
    else t'.(frames := On(HandleCommands(commands), rest), log := t'.log.(delivered := t.log.delivered + [e]))
  }

  predicate Buffering(t: Tunnel) {
    t.state == Establishing && t.commandToReplyTo.None?
  }

  /** `_handle_command` */
  function HandleCommand(t: Tunnel, commands: seq<ChildCommand>, rest: Stack, swallows: bool): Tunnel
    requires commands != []
  {
    var later := On(HandleCommands(commands[1..]), rest);
    if commands[0].OpenConnection? then
      var t' := t.(commandToReplyTo := Some(t.issued), issued := t.issued + 1, state := Establishing);
      if swallows then t'.(frames := On(StartHandshake, later)) else Ask(t'.(frames := On(AwaitOpen(t.issued), later)))
    else
      t.(frames := later)
  }

  datatype Move = Event(arrival: Arrival) | Work(outside: Outside)

  /** One call is drained before the next: events arrive only when there is no work. */
  function Next(t: Tunnel, m: Move): Tunnel {
    match m
    case Event(x) => if Working(t) then t else Arrive(t, x)
    case Work(o) => if Working(t) then Advance(t, o) else t
  }

  function Run(t: Tunnel, moves: seq<Move>): Tunnel
    decreases |moves|
  {
    if moves == [] then t else Run(Next(t, moves[0]), moves[1..])
  }

  // ----- answers -----

  /** The commands that the given events answer. */
  function Replies(events: seq<ChildEvent>): seq<nat> {
    if events == [] then []
    else (if events[0].OpenCompleted? then [events[0].command] else []) + Replies(events[1..])
  }

  /** The command to reply to has been answered. */
  predicate Answered(t: Tunnel) {
    t.commandToReplyTo.Some? && t.commandToReplyTo.value in Replies(t.log.delivered)
  }

  /** The child has asked for a connection and has no answer yet. */
  predicate Outstanding(t: Tunnel) {
    t.commandToReplyTo.Some? && !Answered(t)
  }
}
