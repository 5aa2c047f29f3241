/** The relaying layer (mitmproxy/proxy/layers/tcp.py), run by the pausing engine. */
module TcpLayers {
  import opened ByteStrings
  import opened Layers
  import opened Options

  datatype Side = Client | Server

  function Other(side: Side): Side {
    if side == Client then Server else Client
  }

  datatype Access = Access(canRead: bool, canWrite: bool)

  /** The connections as the server keeps them; they change while events are buffered. */
  datatype World = World(client: Access, server: Access, serverStarted: bool)

  const CLOSED := Access(false, false)

  predicate Readable(w: World) {
    w.client.canRead || w.server.canRead
  }

  datatype Event = Start | DataReceived(side: Side, data: Bytes) | ConnectionClosed(side: Side) | MessageInjected(side: Side, data: Bytes)

  /** A completed message hook brings the content an addon left in the message. */
  datatype Reply = HookDone(content: Bytes) | Opened(error: bool)

  datatype Command =
    | TcpStart | TcpMessage(message: Message) | TcpError | TcpEnd
    | Open | SendData(side: Side, data: Bytes) | Close(side: Side) | HalfClose(side: Side)
    | UnexpectedEvent

  datatype Message = Message(from: Side, content: Bytes)

  datatype Flow = Flow(messages: seq<Message>, error: bool, live: bool)

  datatype Mode = Starting | Relaying | Finished

  datatype State = State(mode: Mode, flow: Option<Flow>)

  type TcpInput = Input<Event, Reply>
  type TcpOut = Out<Event, Command, Reply>
  type TcpProc = Proc<State, World, Event, Command, Reply>
  type TcpConfig = Config<State, World, Event, Command, Reply>
  type TcpResult = Result<State, World, Event, Command, Reply>
  type TcpTrace = seq<(World, TcpInput)>

  /** Where a coroutine can be suspended. */
  datatype Point = AtStartHook(s: State) | AtOpen(s: State) | AtErrorHook(s: State) | AtMessageHook(s: State, m: Message) | AtEndHook(s: State)

  function Rank(point: Point): nat {
    match point
    case AtStartHook(_) => 2
    case AtOpen(_) => 1
    case _ => 0
  }

  function Suspend(c: Command, point: Point): TcpProc
    decreases Rank(point), 1
  {
    Block(c, (r, w) => Resume(point, r, w))
  }

  function OpenServer(s: State, w: World): TcpProc
    decreases 1, 2
  {
    if w.serverStarted then Done(s.(mode := Relaying)) else Suspend(Open, AtOpen(s))
  }

  function Resume(point: Point, r: Reply, w: World): TcpProc
    decreases Rank(point), 0
  {
    match point
    case AtStartHook(s) => OpenServer(s, w)
    case AtOpen(s) =>
      if r.Opened? && r.error then
        if s.flow.Some? then
          Suspend(TcpError, AtErrorHook(s.(flow := Some(s.flow.value.(error := true)))))
        else
          Emit(Close(Client), Done(s.(mode := Finished)))
      else
        Done(s.(mode := Relaying))
    case AtErrorHook(s) => Emit(Close(Client), Done(s.(mode := Finished)))
    case AtMessageHook(s, m) =>
      var sent := m.(content := Edited(m, r));
      Emit(SendData(Other(m.from), sent.content), Done(WithMessage(s, sent)))
    case AtEndHook(s) =>
      Done(if s.flow.Some? then s.(flow := Some(s.flow.value.(live := false))) else s)
  }

  /** The content of a message once its hook has completed. */
  function Edited(m: Message, r: Reply): Bytes {
    if r.HookDone? then r.content else m.content
  }

  function WithMessage(s: State, m: Message): State {
    if s.flow.None? then s else s.(flow := Some(s.flow.value.(messages := s.flow.value.messages + [m])))
  }

  /** `start` */
  function StartLayer(s: State, w: World): TcpProc {
    if s.flow.Some? then Suspend(TcpStart, AtStartHook(s)) else OpenServer(s, w)
  }

  function RelayData(s: State, from: Side, data: Bytes): TcpProc {
    if s.flow.Some? then
      var m := Message(from, data);
      Suspend(TcpMessage(m), AtMessageHook(s, m))
    else
      Emit(SendData(Other(from), data), Done(s))
  }

  function RelayClose(s: State, w: World, from: Side): TcpProc {
    if Readable(w) then
      Emit(HalfClose(Other(from)), Done(s))
    else
      var s' := s.(mode := Finished);
      var end := if s.flow.Some? then Suspend(TcpEnd, AtEndHook(s')) else Done(s');
      var client := if w.client != CLOSED then Emit(Close(Client), end) else end;
      if w.server != CLOSED then Emit(Close(Server), client) else client
  }

  /** `_handle_event` as last assigned: `start`, `relay_messages` or `done`. */
  function HandleEvent(s: State, w: World, x: TcpInput): TcpProc {
    match (s.mode, x)
    case (Starting, Event(Start)) => StartLayer(s, w)
    case (Relaying, Event(DataReceived(side, data))) => RelayData(s, side, data)
    case (Relaying, Event(MessageInjected(side, data))) => RelayData(s, side, data)
    case (Relaying, Event(ConnectionClosed(side))) => RelayClose(s, w, side)
    case (Finished, Event(e)) => if e.Start? then Emit(UnexpectedEvent, Done(s)) else Done(s)
    case _ => Emit(UnexpectedEvent, Done(s))
  }

  function TheHandler(): Handler<State, World, Event, Command, Reply> {
    (s: State, w: World, x: TcpInput) => HandleEvent(s, w, x)
  }

  function NewLayer(owner: nat, ignore: bool): TcpConfig {
    Initial(owner, State(Starting, if ignore then None else Some(Flow([], false, true))))
  }

  // ----- what a run amounts to -----

  /** What the layer was given from one side, injected messages included. */
  function ArrivedFrom(side: Side, xs: seq<TcpInput>): seq<Bytes> {
    if xs == [] then []
    else
      (if xs[0].Event? && (xs[0].event.DataReceived? || xs[0].event.MessageInjected?) && xs[0].event.side == side
       then [xs[0].event.data] else [])
      + ArrivedFrom(side, xs[1..])
  }

  /** What the layer sent to one side. */
  function SentTo(side: Side, out: seq<TcpOut>): seq<Bytes> {
    if out == [] then []
    else
      (if out[0].Sent? && out[0].cmd.SendData? && out[0].cmd.side == side then [out[0].cmd.data] else [])
      + SentTo(side, out[1..])
  }

  function From(side: Side, messages: seq<Message>): seq<Message> {
    if messages == [] then []
    else (if messages[0].from == side then [messages[0]] else []) + From(side, messages[1..])
  }

  function Contents(messages: seq<Message>): seq<Bytes> {
    seq(|messages|, i requires 0 <= i < |messages| => messages[i].content)
  }

  /** The blocking commands yielded, in order; the k-th is answered by the k-th answer. */
  function Asks(out: seq<TcpOut>): seq<Command> {
    if out == [] then [] else (if out[0].Asked? then [out[0].cmd] else []) + Asks(out[1..])
  }

  /** The data from one side for which a message hook was asked. */
  function Hooked(side: Side, asks: seq<Command>): seq<Bytes> {
    if asks == [] then []
    else
      (if asks[0].TcpMessage? && asks[0].message.from == side then [asks[0].message.content] else []) + Hooked(side, asks[1..])
  }

  /** The same data as the completed hooks left it. */
  function HookModified(side: Side, asks: seq<Command>, answers: seq<Reply>): seq<Bytes> {
    if asks == [] || answers == [] then []
    else
      (if asks[0].TcpMessage? && asks[0].message.from == side then [Edited(asks[0].message, answers[0])] else [])
      + HookModified(side, asks[1..], answers[1..])
  }

  /** tcp_error and tcp_end hooks, in order. */
  function Verdicts(out: seq<TcpOut>): seq<Command> {
    if out == [] then []
    else
      (if out[0].Asked? && (out[0].cmd == TcpError || out[0].cmd == TcpEnd) then [out[0].cmd] else []) + Verdicts(out[1..])
  }

  // ----- whole runs -----

  /** The first event is Start and every later one is data, a close or an injected message. */
  ghost predicate Expected(xs: seq<TcpInput>) {
    forall i :: 0 <= i < |xs| ==> xs[i].Event? && (xs[i].event.Start? <==> i == 0)
  }

  /** Everything known about one run so far: handled inputs, outputs and answers. */
  datatype Past = Past(ignored: bool, seen: seq<TcpInput>, out: seq<TcpOut>, answers: seq<Reply>)

  function RunOf(owner: nat, ignore: bool, trace: TcpTrace): TcpResult {
    Run(TheHandler(), NewLayer(owner, ignore), trace)
  }

  /** The events of a run, hook and open replies left out. */
  function EventsOf(owner: nat, ignore: bool, trace: TcpTrace): seq<TcpInput> {
    Accepted(TheHandler(), NewLayer(owner, ignore), trace)
  }

  ghost function PastOf(owner: nat, ignore: bool, trace: TcpTrace): Past {
    var r := RunOf(owner, ignore, trace);
    Past(ignore, r.started, r.out, Answers(TheHandler(), NewLayer(owner, ignore), trace))
  }
}
