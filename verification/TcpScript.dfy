/** All that the TCP layer ever says (mitmproxy/proxy/layers/tcp.py).

    It is written down as a script over what the layer is given,
    without coroutines. */
module TcpScripts {
  import opened ByteStrings
  import opened Layers
  import opened Options
  import opened Seqs
  import opened TcpLayers

  // A script goes through the handled events, each with the connections as they were when it was handled, and takes an
  // answer, with the connections as they were then, wherever it asks.

  type Handled = seq<(World, TcpInput)>
  type Answered = seq<(World, Reply)>

  /** From the start on; before the first Start nothing is said. */
  function Script(flow: bool, xs: Handled, answers: Answered): seq<Command> {
    if xs == [] then []
    else if xs[0].1 != Event(Start) then Script(flow, xs[1..], answers)
    else if !flow then OpenScript(flow, xs[0].0, xs[1..], answers)
    else [TcpStart] + if answers == [] then [] else OpenScript(flow, answers[0].0, xs[1..], answers[1..])
  }

  /** The server is connected if it is not yet. */
  function OpenScript(flow: bool, w: World, xs: Handled, answers: Answered): seq<Command> {
    if w.serverStarted then RelayScript(flow, xs, answers)
    else [Open] + if answers == [] then [] else OpenedScript(flow, answers[0].1, xs, answers[1..])
  }

  /** A failed connection is reported, if there is a flow, and then the client is closed, and that is all. */
  function OpenedScript(flow: bool, r: Reply, xs: Handled, answers: Answered): seq<Command> {
    if r != Opened(true) then RelayScript(flow, xs, answers)
    else if !flow then [Close(Client)]
    else [TcpError] + if answers == [] then [] else [Close(Client)]
  }

  /** Data goes to the other side, as its hook leaves it if there is a flow. A close goes to the other side while one side
      can still be read; otherwise whatever is not closed is closed, server first, and that is the end. */
  function RelayScript(flow: bool, xs: Handled, answers: Answered): seq<Command>
    decreases |xs|, 1
  {
    if xs == [] then []
    else
      match xs[0].1
      case Event(DataReceived(side, data)) => DataScript(flow, side, data, xs, answers)
      case Event(MessageInjected(side, data)) => DataScript(flow, side, data, xs, answers)
      case Event(ConnectionClosed(side)) =>
        var w := xs[0].0;
        if w.client.canRead || w.server.canRead then
          [HalfClose(if side == Client then Server else Client)] + RelayScript(flow, xs[1..], answers)
        else
          (if w.server.canRead || w.server.canWrite then [Close(Server)] else [])
          + (if w.client.canRead || w.client.canWrite then [Close(Client)] else [])
          + (if flow then [TcpEnd] else [])
      case _ => RelayScript(flow, xs[1..], answers)
  }

  function DataScript(flow: bool, side: Side, data: Bytes, xs: Handled, answers: Answered): seq<Command>
    requires xs != []
    decreases |xs|, 0
  {
    var to := if side == Client then Server else Client;
    if !flow then [SendData(to, data)] + RelayScript(flow, xs[1..], answers)
    else
      [TcpMessage(Message(side, data))]
      + if answers == [] then []
        else
          [SendData(to, if answers[0].1.HookDone? then answers[0].1.content else data)] + RelayScript(flow, xs[1..], answers[1..])
  }

  // ----- what a run handles, is answered and says -----

  function InWorld(w: World, xs: seq<TcpInput>): Handled {
    seq(|xs|, i requires 0 <= i < |xs| => (w, xs[i]))
  }

  /** The events a run starts to handle, each with the connections as they are then. */
  function HandledIn(cfg: TcpConfig, trace: TcpTrace): Handled
    decreases |trace|
  {
    if trace == [] then []
    else
      var r := Step(TheHandler(), trace[0].0, cfg, trace[0].1);
      InWorld(trace[0].0, r.started) + HandledIn(r.config, trace[1..])
  }

  /** The answers a run takes, with the connections as they are then. */
  function AnsweredIn(cfg: TcpConfig, trace: TcpTrace): Answered
    decreases |trace|
  {
    if trace == [] then []
    else
      (if IsReply(cfg, trace[0].1) then [(trace[0].0, trace[0].1.reply)] else [])
      + AnsweredIn(Step(TheHandler(), trace[0].0, cfg, trace[0].1).config, trace[1..])
  }

  /** All commands yielded, hooks included, but for the report of an event that must not come. */
  function Commands(out: seq<TcpOut>): seq<Command> {
    if out == [] then []
    else (if out[0].Passed? || out[0].cmd.UnexpectedEvent? then [] else [out[0].cmd]) + Commands(out[1..])
  }

  lemma {:induction false} CommandsAppend(a: seq<TcpOut>, b: seq<TcpOut>)
    ensures Commands(a + b) == Commands(a) + Commands(b)
    decreases |a|
  {
    if a == [] {
      assert a + b == b;
    } else {
      assert (a + b)[1..] == a[1..] + b;
      CommandsAppend(a[1..], b);
      Associative(if a[0].Passed? || a[0].cmd.UnexpectedEvent? then [] else [a[0].cmd], Commands(a[1..]), Commands(b));
    }
  }

  // ----- the layer follows the script -----

  /** Where the layer is between two calls. */
  datatype Spot = AtRest(s: State) | Held(point: Point)

  predicate GoodPoint(point: Point) {
    match point
    case AtStartHook(s) => s.flow.Some?
    case AtOpen(_) => true
    case AtErrorHook(s) => s.flow.Some?
    case AtMessageHook(s, _) => s.flow.Some? && s.mode == Relaying
    case AtEndHook(s) => s.mode == Finished
  }

  ghost predicate Sits(cfg: TcpConfig, spot: Spot) {
    match cfg.phase
    case Idle(s) => spot == AtRest(s)
    case Waiting(_, k) => spot.Held? && GoodPoint(spot.point) && forall r, w :: k(r, w) == Resume(spot.point, r, w)
  }

  /** What is still to be said. */
  function Rest(spot: Spot, xs: Handled, answers: Answered): seq<Command> {
    match spot
    case AtRest(s) => RestIdle(s, xs, answers)
    case Held(point) => if answers == [] then [] else RestHeld(point, answers[0].0, answers[0].1, xs, answers[1..])
  }

  function RestIdle(s: State, xs: Handled, answers: Answered): seq<Command> {
    match s.mode
    case Starting => Script(s.flow.Some?, xs, answers)
    case Relaying => RelayScript(s.flow.Some?, xs, answers)
    case Finished => []
  }

  function RestHeld(point: Point, w: World, r: Reply, xs: Handled, answers: Answered): seq<Command> {
    match point
    case AtStartHook(s) => OpenScript(true, w, xs, answers)
    case AtOpen(s) => OpenedScript(s.flow.Some?, r, xs, answers)
    case AtErrorHook(_) => [Close(Client)]
    case AtMessageHook(s, m) =>
      [SendData(if m.from == Client then Server else Client, if r.HookDone? then r.content else m.content)] + RelayScript(true, xs, answers)
    case AtEndHook(_) => []
  }

  lemma Emits(cfg: TcpConfig, c: Command, p: TcpProc)
    ensures Process(cfg, Emit(c, p)).config == Process(cfg, p).config
    ensures Commands(Process(cfg, Emit(c, p)).out) == (if c.UnexpectedEvent? then [] else [c]) + Commands(Process(cfg, p).out)
  {
    var rest := Process(cfg, p).out;
    assert ([Sent(c)] + rest)[1..] == rest;
  }

  lemma Stops(cfg: TcpConfig, s: State) returns (spot: Spot)
    ensures spot == AtRest(s) && Sits(Process(cfg, Done(s)).config, spot) && Commands(Process(cfg, Done(s)).out) == []
  {
    spot := AtRest(s);
  }

  lemma Suspends(cfg: TcpConfig, c: Command, point: Point) returns (spot: Spot)
    requires GoodPoint(point) && !c.UnexpectedEvent?
    ensures spot == Held(point) && Sits(Process(cfg, Suspend(c, point)).config, spot)
    ensures Commands(Process(cfg, Suspend(c, point)).out) == [c]
  {
    spot := Held(point);
    var asked: seq<TcpOut> := [Asked(CmdId(cfg.owner, cfg.serial), c)];
    assert Process(cfg, Suspend(c, point)).out == asked && asked[1..] == [];
    assert Commands(asked) == [c] + Commands(asked[1..]);
  }

  lemma OpenSays(cfg: TcpConfig, s: State, w: World, ys: Handled, bs: Answered) returns (spot: Spot)
    ensures var r := Process(cfg, OpenServer(s, w));
            Sits(r.config, spot) && OpenScript(s.flow.Some?, w, ys, bs) == Commands(r.out) + Rest(spot, ys, bs)
  {
    if w.serverStarted {
      spot := Stops(cfg, s.(mode := Relaying));
    } else {
      spot := Suspends(cfg, Open, AtOpen(s));
    }
  }

  lemma StartSays(cfg: TcpConfig, s: State, w: World, ys: Handled, bs: Answered) returns (spot: Spot)
    requires s.mode == Starting
    ensures var r := Process(cfg, StartLayer(s, w));
            Sits(r.config, spot) && RestIdle(s, [(w, Event(Start))] + ys, bs) == Commands(r.out) + Rest(spot, ys, bs)
  {
    assert ([(w, Event(Start))] + ys)[1..] == ys;
    if s.flow.Some? {
      spot := Suspends(cfg, TcpStart, AtStartHook(s));
    } else {
      spot := OpenSays(cfg, s, w, ys, bs);
    }
  }

  lemma DataSays(cfg: TcpConfig, s: State, w: World, x: TcpInput, ys: Handled, bs: Answered) returns (spot: Spot)
    requires s.mode == Relaying && x.Event? && (x.event.DataReceived? || x.event.MessageInjected?)
    ensures var r := Process(cfg, RelayData(s, x.event.side, x.event.data));
            Sits(r.config, spot) && RestIdle(s, [(w, x)] + ys, bs) == Commands(r.out) + Rest(spot, ys, bs)
  {
    assert ([(w, x)] + ys)[1..] == ys;
    var from, data := x.event.side, x.event.data;
    var xs := [(w, x)] + ys;
    assert RestIdle(s, xs, bs) == DataScript(s.flow.Some?, from, data, xs, bs) by {
      match x.event
      case DataReceived(_, _) =>
      case MessageInjected(_, _) =>
    }
    if s.flow.Some? {
      spot := Suspends(cfg, TcpMessage(Message(from, data)), AtMessageHook(s, Message(from, data)));
    } else {
      spot := Stops(cfg, s);
      Emits(cfg, SendData(Other(from), data), Done(s));
    }
  }

  lemma CloseSays(cfg: TcpConfig, s: State, w: World, from: Side, ys: Handled, bs: Answered) returns (spot: Spot)
    requires s.mode == Relaying
    ensures var r := Process(cfg, RelayClose(s, w, from));
            Sits(r.config, spot) && RestIdle(s, [(w, Event(ConnectionClosed(from)))] + ys, bs) == Commands(r.out) + Rest(spot, ys, bs)
  {
    assert ([(w, Event(ConnectionClosed(from)))] + ys)[1..] == ys;
    if Readable(w) {
      spot := Stops(cfg, s);
      Emits(cfg, HalfClose(Other(from)), Done(s));
    } else {
      spot := LastSays(cfg, s, w, from, ys, bs);
    }
  }

  lemma LastSays(cfg: TcpConfig, s: State, w: World, from: Side, ys: Handled, bs: Answered) returns (spot: Spot)
    requires s.mode == Relaying && !Readable(w)
    ensures var r := Process(cfg, RelayClose(s, w, from));
            Sits(r.config, spot) && Rest(spot, ys, bs) == []
            && Commands(r.out) == (if w.server.canRead || w.server.canWrite then [Close(Server)] else [])
                                  + (if w.client.canRead || w.client.canWrite then [Close(Client)] else [])
                                  + if s.flow.Some? then [TcpEnd] else []
  {
    var s' := s.(mode := Finished);
    var end: TcpProc := if s.flow.Some? then Suspend(TcpEnd, AtEndHook(s')) else Done(s');
    if s.flow.Some? {
      spot := Suspends(cfg, TcpEnd, AtEndHook(s'));
    } else {
      spot := Stops(cfg, s');
    }
    var client: TcpProc := if w.client != CLOSED then Emit(Close(Client), end) else end;
    Emits(cfg, Close(Client), end);
    Emits(cfg, Close(Server), client);
    EndSays(w, s.flow.Some?, Commands(Process(cfg, end).out), Commands(Process(cfg, client).out));
  }

  lemma EndSays(w: World, flow: bool, end: seq<Command>, client: seq<Command>)
    requires end == (if flow then [TcpEnd] else [])
    requires client == if w.client != CLOSED then [Close(Client)] + end else end
    ensures (if w.server.canRead || w.server.canWrite then [Close(Server)] else [])
            + (if w.client.canRead || w.client.canWrite then [Close(Client)] else []) + end
         == if w.server != CLOSED then [Close(Server)] + client else client
  {
  }

  lemma EventSays(cfg: TcpConfig, s: State, w: World, x: TcpInput, ys: Handled, bs: Answered) returns (spot: Spot)
    ensures var r := Process(cfg, HandleEvent(s, w, x));
            Sits(r.config, spot) && RestIdle(s, [(w, x)] + ys, bs) == Commands(r.out) + Rest(spot, ys, bs)
  {
    assert ([(w, x)] + ys)[1..] == ys;
    match (s.mode, x) {
      case (Starting, Event(Start)) => spot := StartSays(cfg, s, w, ys, bs);
      case (Relaying, Event(DataReceived(_, _))) => spot := DataSays(cfg, s, w, x, ys, bs);
      case (Relaying, Event(MessageInjected(_, _))) => spot := DataSays(cfg, s, w, x, ys, bs);
      case (Relaying, Event(ConnectionClosed(side))) => spot := CloseSays(cfg, s, w, side, ys, bs);
      case _ =>
        spot := Stops(cfg, s);
        Emits(cfg, UnexpectedEvent, Done(s));
    }
  }

  lemma AnswerSays(cfg: TcpConfig, point: Point, w: World, r: Reply, ys: Handled, bs: Answered) returns (spot: Spot)
    requires GoodPoint(point)
    ensures var p := Process(cfg, Resume(point, r, w));
            Sits(p.config, spot) && RestHeld(point, w, r, ys, bs) == Commands(p.out) + Rest(spot, ys, bs)
  {
    match point {
      case AtStartHook(s) => spot := OpenSays(cfg, s, w, ys, bs);
      case AtOpen(s) =>
        if r == Opened(true) {
          var s' := s.(mode := Finished);
          if s.flow.Some? {
            spot := Suspends(cfg, TcpError, AtErrorHook(s.(flow := Some(s.flow.value.(error := true)))));
          } else {
            spot := Stops(cfg, s');
            Emits(cfg, Close(Client), Done(s'));
          }
        } else {
          spot := Stops(cfg, s.(mode := Relaying));
        }
      case AtErrorHook(s) =>
        spot := Stops(cfg, s.(mode := Finished));
        Emits(cfg, Close(Client), Done(s.(mode := Finished)));
      case AtMessageHook(s, m) =>
        var sent := m.(content := Edited(m, r));
        spot := Stops(cfg, WithMessage(s, sent));
        Emits(cfg, SendData(Other(m.from), sent.content), Done(WithMessage(s, sent)));
      case AtEndHook(s) =>
        spot := Stops(cfg, if s.flow.Some? then s.(flow := Some(s.flow.value.(live := false))) else s);
    }
  }

  lemma {:induction false} DrainSays(cfg: TcpConfig, before: Spot, w: World, ys: Handled, bs: Answered) returns (spot: Spot)
    requires Sits(cfg, before)
    ensures var d := Drain(TheHandler(), w, cfg);
            Sits(d.config, spot) && Rest(before, InWorld(w, d.started) + ys, bs) == Commands(d.out) + Rest(spot, ys, bs)
    decreases |cfg.queue|
  {
    if cfg.phase.Waiting? || cfg.queue == [] {
      spot := before;
      assert InWorld(w, []) + ys == ys;
    } else {
      var rest, x := cfg.(queue := cfg.queue[1..]), cfg.queue[0];
      var p := HandleEvent(cfg.phase.state, w, x);
      ProcessKeepsQueue(rest, p);
      var r := Process(rest, p);
      var d := Drain(TheHandler(), w, r.config);
      var later := InWorld(w, d.started) + ys;
      var mid := EventSays(rest, cfg.phase.state, w, x, later, bs);
      spot := DrainSays(r.config, mid, w, ys, bs);
      DrainFirst(cfg, w);
      FirstInWorld(w, x, d.started, ys);
      SaysBoth(r.out, d.out, Rest(spot, ys, bs), Rest(mid, later, bs));
    }
  }

  lemma DrainFirst(cfg: TcpConfig, w: World)
    requires cfg.phase.Idle? && cfg.queue != []
    ensures var r := Process(cfg.(queue := cfg.queue[1..]), HandleEvent(cfg.phase.state, w, cfg.queue[0]));
            Drain(TheHandler(), w, cfg) == After(r.out, [cfg.queue[0]], Drain(TheHandler(), w, r.config))
  {
  }

  lemma FirstInWorld(w: World, x: TcpInput, xs: seq<TcpInput>, ys: Handled)
    ensures InWorld(w, [x] + xs) + ys == [(w, x)] + (InWorld(w, xs) + ys)
  {
    assert InWorld(w, [x] + xs) == [(w, x)] + InWorld(w, xs);
  }

  lemma SaysBoth(out: seq<TcpOut>, more: seq<TcpOut>, end: seq<Command>, later: seq<Command>)
    requires later == Commands(more) + end
    ensures Commands(out) + later == Commands(out + more) + end
  {
    CommandsAppend(out, more);
    Associative(Commands(out), Commands(more), end);
  }

  lemma StepSays(cfg: TcpConfig, before: Spot, w: World, x: TcpInput, ys: Handled, bs: Answered) returns (spot: Spot)
    requires Sits(cfg, before)
    ensures var r := Step(TheHandler(), w, cfg, x);
            var as' := (if IsReply(cfg, x) then [(w, x.reply)] else []) + bs;
            Sits(r.config, spot) && Rest(before, InWorld(w, r.started) + ys, as') == Commands(r.out) + Rest(spot, ys, bs)
  {
    if cfg.phase.Idle? {
      var p := Process(cfg, HandleEvent(cfg.phase.state, w, x));
      ProcessKeepsQueue(cfg, HandleEvent(cfg.phase.state, w, x));
      spot := EventSays(cfg, cfg.phase.state, w, x, ys, bs);
      assert InWorld(w, [x] + p.started) == [(w, x)] && [] + p.out == p.out && [] + bs == bs;
    } else if IsReply(cfg, x) {
      spot := ReplySays(cfg, before, w, x.reply, ys, bs);
    } else {
      spot := before;
      assert InWorld(w, []) + ys == ys && [] + bs == bs;
    }
  }

  lemma ReplySays(cfg: TcpConfig, before: Spot, w: World, r: Reply, ys: Handled, bs: Answered) returns (spot: Spot)
    requires Sits(cfg, before) && cfg.phase.Waiting?
    ensures var s := Step(TheHandler(), w, cfg, Completed(cfg.phase.id, r));
            Sits(s.config, spot) && Rest(before, InWorld(w, s.started) + ys, [(w, r)] + bs) == Commands(s.out) + Rest(spot, ys, bs)
  {
    var p := Process(cfg, Resume(before.point, r, w));
    assert cfg.phase.resume(r, w) == Resume(before.point, r, w);
    ProcessKeepsQueue(cfg, Resume(before.point, r, w));
    var d := Drain(TheHandler(), w, p.config);
    var later := InWorld(w, d.started) + ys;
    var mid := AnswerSays(cfg, before.point, w, r, later, bs);
    spot := DrainSays(p.config, mid, w, ys, bs);
    assert ([(w, r)] + bs)[1..] == bs && [] + d.started == d.started;
    CommandsAppend(p.out, d.out);
    Associative(Commands(p.out), Commands(d.out), Rest(spot, ys, bs));
  }

  lemma {:induction false} RunSays(cfg: TcpConfig, before: Spot, trace: TcpTrace) returns (spot: Spot)
    requires Sits(cfg, before)
    ensures var r := Run(TheHandler(), cfg, trace);
            Sits(r.config, spot) && Commands(r.out) + Rest(spot, [], []) == Rest(before, HandledIn(cfg, trace), AnsweredIn(cfg, trace))
    decreases |trace|
  {
    if trace == [] {
      spot := before;
      assert [] + Rest(spot, [], []) == Rest(spot, [], []);
    } else {
      var w, x := trace[0].0, trace[0].1;
      var r := Step(TheHandler(), w, cfg, x);
      var ys, bs := HandledIn(r.config, trace[1..]), AnsweredIn(r.config, trace[1..]);
      var mid := StepSays(cfg, before, w, x, ys, bs);
      spot := RunSays(r.config, mid, trace[1..]);
      var more := Run(TheHandler(), r.config, trace[1..]);
      CommandsAppend(r.out, more.out);
      Associative(Commands(r.out), Commands(more.out), Rest(spot, [], []));
    }
  }

  lemma NothingLeft(spot: Spot)
    ensures Rest(spot, [], []) == []
  {
  }

  /** In every run, whatever is delayed, the layer has said exactly what the script says for the events it has handled and
      the answers it has had: every hook, every send, every half-close and close, in order, and nothing else. */
  lemma FollowsScript(owner: nat, ignore: bool, trace: TcpTrace)
    ensures var cfg := NewLayer(owner, ignore);
            Commands(RunOf(owner, ignore, trace).out) == Script(!ignore, HandledIn(cfg, trace), AnsweredIn(cfg, trace))
  {
    var cfg := NewLayer(owner, ignore);
    var spot := RunSays(cfg, AtRest(cfg.phase.state), trace);
    NothingLeft(spot);
    assert Commands(RunOf(owner, ignore, trace).out) + [] == Commands(RunOf(owner, ignore, trace).out);
  }

  // ----- what the script is given -----

  function Inputs(xs: Handled): seq<TcpInput> {
    if xs == [] then [] else [xs[0].1] + Inputs(xs[1..])
  }

  function Replies(answers: Answered): seq<Reply> {
    if answers == [] then [] else [answers[0].1] + Replies(answers[1..])
  }

  lemma {:induction false} InputsThen(w: World, xs: seq<TcpInput>, more: Handled)
    ensures Inputs(InWorld(w, xs) + more) == xs + Inputs(more)
    decreases |xs|
  {
    if xs == [] {
      assert InWorld(w, xs) + more == more && [] + Inputs(more) == Inputs(more);
    } else {
      InputsThen(w, xs[1..], more);
      FirstInWorld(w, xs[0], xs[1..], more);
      assert [xs[0]] + xs[1..] == xs;
      assert ([(w, xs[0])] + (InWorld(w, xs[1..]) + more))[1..] == InWorld(w, xs[1..]) + more;
      Associative([xs[0]], xs[1..], Inputs(more));
    }
  }

  /** The script is given the events that the run starts to handle, in that order, and the answers that it takes. */
  lemma {:induction false} ScriptIsGiven(cfg: TcpConfig, trace: TcpTrace)
    ensures Inputs(HandledIn(cfg, trace)) == Run(TheHandler(), cfg, trace).started
    ensures Replies(AnsweredIn(cfg, trace)) == Answers(TheHandler(), cfg, trace)
    decreases |trace|
  {
    if trace != [] {
      var (w, x) := trace[0];
      var r := Step(TheHandler(), w, cfg, x);
      var later := AnsweredIn(r.config, trace[1..]);
      ScriptIsGiven(r.config, trace[1..]);
      InputsThen(w, r.started, HandledIn(r.config, trace[1..]));
      if IsReply(cfg, x) {
        assert ([(w, x.reply)] + later)[1..] == later;
      } else {
        assert [] + later == later && [] + Replies(later) == Replies(later);
      }
    }
  }
}
