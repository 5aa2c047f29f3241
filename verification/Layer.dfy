/** The pausing engine every protocol layer is built on (mitmproxy/proxy/layer.py). */
module Layers {
  import opened Options

  // A layer's event handler is a coroutine. Between two resumptions it is a `Proc`: the commands
  // it yields next, up to the point where it finishes or asks a question. `W` stands for what a
  // handler reads but does not own (connection states); it is read whenever the coroutine is
  // started or resumed.

  /** Identity of a blocking command: the layer that yielded it and a serial number. */
  datatype CmdId = CmdId(owner: nat, serial: nat)

  /** What a layer receives: a reply to a blocking command, or any other event. */
  datatype Input<+E, +R> = Event(event: E) | Completed(id: CmdId, reply: R)

  datatype Proc<S, !W, E, C, !R> =
    | Done(state: S)
    | Emit(cmd: C, next: Proc<S, W, E, C, R>)
    | Pass(input: Input<E, R>, next: Proc<S, W, E, C, R>)
    | Block(cmd: C, resume: (R, W) -> Proc<S, W, E, C, R>)

  /** What a layer yields: a plain command, a blocking one it now waits for, or an event
      handed to its child. */
  datatype Out<+E, +C, +R> = Sent(cmd: C) | Asked(id: CmdId, cmd: C) | Passed(input: Input<E, R>)

  type Handler<!S, !W, !E, C, !R> = (S, W, Input<E, R>) -> Proc<S, W, E, C, R>

  datatype Phase<S, !W, E, C, !R> =
    | Idle(state: S)
    | Waiting(id: CmdId, resume: (R, W) -> Proc<S, W, E, C, R>)

  datatype Config<S, !W, E, C, !R> =
    Config(owner: nat, serial: nat, phase: Phase<S, W, E, C, R>, queue: seq<Input<E, R>>)

  /** One call: the new configuration, what was yielded, the inputs given to the handler. */
  datatype Result<S, !W, E, C, !R> =
    Result(config: Config<S, W, E, C, R>, out: seq<Out<E, C, R>>, started: seq<Input<E, R>>)

  function After<S, W, E, C, R>(out: seq<Out<E, C, R>>, started: seq<Input<E, R>>,
                                r: Result<S, W, E, C, R>): Result<S, W, E, C, R>
  {
    Result(r.config, out + r.out, started + r.started)
  }

  function Initial<S, W, E, C, R>(owner: nat, s: S): Config<S, W, E, C, R> {
    Config(owner, 0, Idle(s), [])
  }

  /** Is this the reply the layer is paused for? */
  predicate IsReply<S, W, E, C, R>(cfg: Config<S, W, E, C, R>, input: Input<E, R>) {
    cfg.phase.Waiting? && input.Completed? && input.id == cfg.phase.id
  }

  /** Runs a coroutine until it finishes or blocks. */
  function Process<S, W, E, C, R>(cfg: Config<S, W, E, C, R>, p: Proc<S, W, E, C, R>): Result<S, W, E, C, R>
  {
    match p
    case Done(s) => Result(cfg.(phase := Idle(s)), [], [])
    case Emit(c, next) => After([Sent(c)], [], Process(cfg, next))
    case Pass(e, next) => After([Passed(e)], [], Process(cfg, next))
    case Block(c, k) =>
      var id := CmdId(cfg.owner, cfg.serial);
      Result(cfg.(phase := Waiting(id, k), serial := cfg.serial + 1), [Asked(id, c)], [])
  }

  /** Replays buffered inputs for as long as the layer is not paused. */
  function Drain<S, W, E, C, R>(h: Handler<S, W, E, C, R>, w: W, cfg: Config<S, W, E, C, R>): Result<S, W, E, C, R>
    decreases |cfg.queue|
  {
    if cfg.phase.Waiting? || cfg.queue == [] then
      Result(cfg, [], [])
    else
      var r := Process(cfg.(queue := cfg.queue[1..]), h(cfg.phase.state, w, cfg.queue[0]));
      ProcessKeepsQueue(cfg.(queue := cfg.queue[1..]), h(cfg.phase.state, w, cfg.queue[0]));
      After(r.out, [cfg.queue[0]], Drain(h, w, r.config))
  }

  lemma ProcessKeepsQueue<S, W, E, C, R>(cfg: Config<S, W, E, C, R>, p: Proc<S, W, E, C, R>)
    ensures Process(cfg, p).config.queue == cfg.queue
    ensures Process(cfg, p).config.owner == cfg.owner
    ensures Process(cfg, p).started == []
    ensures var c := Process(cfg, p).config;
            if c.phase.Waiting? then c.phase.id == CmdId(cfg.owner, cfg.serial) && c.serial == cfg.serial + 1
            else c.serial == cfg.serial
  {
  }

  lemma ProcessIgnoresPhase<S, W, E, C, R>(a: Config<S, W, E, C, R>, b: Config<S, W, E, C, R>, p: Proc<S, W, E, C, R>)
    requires a.(phase := b.phase) == b
    ensures Process(a, p) == Process(b, p)
  {
  }

  /** One turn of the generator. */
  lemma ProcessNext<S, W, E, C, R>(cfg: Config<S, W, E, C, R>, p: Proc<S, W, E, C, R>, out: seq<Out<E, C, R>>)
    requires p.Emit? || p.Pass?
    ensures Process(cfg, p).config == Process(cfg, p.next).config
    ensures out + Process(cfg, p).out == out + [if p.Emit? then Sent(p.cmd) else Passed(p.input)] + Process(cfg, p.next).out
  {
    var more := Process(cfg, p.next).out;
    assert Process(cfg, p).out == [if p.Emit? then Sent(p.cmd) else Passed(p.input)] + more;
  }

  /** `Layer.handle_event` */
  function Step<S, W, E, C, R>(h: Handler<S, W, E, C, R>, w: W, cfg: Config<S, W, E, C, R>, input: Input<E, R>)
    : Result<S, W, E, C, R>
  {
    match cfg.phase
    case Waiting(id, k) =>
      if IsReply(cfg, input) then
        var r := Process(cfg, k(input.reply, w));
        After(r.out, [], Drain(h, w, r.config))
      else
        Result(cfg.(queue := cfg.queue + [input]), [], [])
    case Idle(s) =>
      After([], [input], Process(cfg, h(s, w, input)))
  }

  function Run<S, W, E, C, R>(h: Handler<S, W, E, C, R>, cfg: Config<S, W, E, C, R>, trace: seq<(W, Input<E, R>)>)
    : Result<S, W, E, C, R>
    decreases |trace|
  {
    if trace == [] then
      Result(cfg, [], [])
    else
      var r := Step(h, trace[0].0, cfg, trace[0].1);
      After(r.out, r.started, Run(h, r.config, trace[1..]))
  }

  /** The inputs of a run that were not taken as the awaited reply, in arrival order. */
  function Accepted<S, W, E, C, R>(h: Handler<S, W, E, C, R>, cfg: Config<S, W, E, C, R>, trace: seq<(W, Input<E, R>)>)
    : seq<Input<E, R>>
    decreases |trace|
  {
    if trace == [] then
      []
    else
      (if IsReply(cfg, trace[0].1) then [] else [trace[0].1])
      + Accepted(h, Step(h, trace[0].0, cfg, trace[0].1).config, trace[1..])
  }

  /** The awaited replies of a run, in arrival order. */
  function Answers<S, W, E, C, R>(h: Handler<S, W, E, C, R>, cfg: Config<S, W, E, C, R>, trace: seq<(W, Input<E, R>)>)
    : seq<R>
    decreases |trace|
  {
    if trace == [] then
      []
    else
      (if IsReply(cfg, trace[0].1) then [trace[0].1.reply] else [])
      + Answers(h, Step(h, trace[0].0, cfg, trace[0].1).config, trace[1..])
  }

  /** An unpaused layer has nothing buffered. */
  ghost predicate Quiet<S, W, E, C, R>(cfg: Config<S, W, E, C, R>) {
    cfg.phase.Idle? ==> cfg.queue == []
  }

  lemma FirstOfAll<T>(all: seq<T>, a: seq<T>, b: seq<T>)
    requires all != [] && a + b == all[1..]
    ensures [all[0]] + a + b == all
  {
    assert [all[0]] + a + b == [all[0]] + (a + b);
  }

  lemma {:induction false} DrainFifo<S, W, E, C, R>(h: Handler<S, W, E, C, R>, w: W, cfg: Config<S, W, E, C, R>)
    ensures var r := Drain(h, w, cfg);
            Quiet(r.config) && r.started + r.config.queue == cfg.queue && r.config.owner == cfg.owner
            && cfg.serial <= r.config.serial
    decreases |cfg.queue|
  {
    if cfg.phase.Waiting? || cfg.queue == [] {
    } else {
      var rest := cfg.(queue := cfg.queue[1..]);
      var p := h(cfg.phase.state, w, cfg.queue[0]);
      ProcessKeepsQueue(rest, p);
      var r := Drain(h, w, Process(rest, p).config);
      DrainFifo(h, w, Process(rest, p).config);
      FirstOfAll(cfg.queue, r.started, r.config.queue);
    }
  }

  lemma StepFifo<S, W, E, C, R>(h: Handler<S, W, E, C, R>, w: W, cfg: Config<S, W, E, C, R>, x: Input<E, R>)
    requires Quiet(cfg)
    ensures var r := Step(h, w, cfg, x);
            Quiet(r.config) && r.config.owner == cfg.owner && cfg.serial <= r.config.serial
            && r.started + r.config.queue == cfg.queue + (if IsReply(cfg, x) then [] else [x])
  {
    match cfg.phase
    case Waiting(id, k) =>
      if IsReply(cfg, x) {
        ProcessKeepsQueue(cfg, k(x.reply, w));
        DrainFifo(h, w, Process(cfg, k(x.reply, w)).config);
      }
    case Idle(s) =>
      ProcessKeepsQueue(cfg, h(s, w, x));
  }

  /** Inputs start in arrival order, each exactly once: those started followed by those
      still buffered are exactly those accepted. */
  lemma {:induction false} StartsInArrivalOrder<S, W, E, C, R>(
    h: Handler<S, W, E, C, R>, cfg: Config<S, W, E, C, R>, trace: seq<(W, Input<E, R>)>)
    requires Quiet(cfg)
    ensures var r := Run(h, cfg, trace);
            Quiet(r.config) && r.config.owner == cfg.owner && cfg.serial <= r.config.serial
            && r.started + r.config.queue == cfg.queue + Accepted(h, cfg, trace)
    ensures |Accepted(h, cfg, trace)| + |Answers(h, cfg, trace)| == |trace|
    decreases |trace|
  {
    if trace == [] {
    } else {
      StepFifo(h, trace[0].0, cfg, trace[0].1);
      var r := Step(h, trace[0].0, cfg, trace[0].1);
      StartsInArrivalOrder(h, r.config, trace[1..]);
      var more := Run(h, r.config, trace[1..]);
      var accepted := Accepted(h, r.config, trace[1..]);
      calc {
        (r.started + more.started) + more.config.queue;
        r.started + (more.started + more.config.queue);
        r.started + (r.config.queue + accepted);
        (r.started + r.config.queue) + accepted;
        cfg.queue + Accepted(h, cfg, trace);
      }
    }
  }

  lemma {:induction false} RunAppend<S, W, E, C, R>(h: Handler<S, W, E, C, R>, cfg: Config<S, W, E, C, R>,
                                   a: seq<(W, Input<E, R>)>, b: seq<(W, Input<E, R>)>)
    ensures var r := Run(h, cfg, a);
            Run(h, cfg, a + b) == After(r.out, r.started, Run(h, r.config, b))
    decreases |a|
  {
    if a == [] {
      assert a + b == b;
      var r := Run(h, cfg, b);
      assert [] + r.out == r.out && [] + r.started == r.started;
    } else {
      assert (a + b)[1..] == a[1..] + b;
      var r := Step(h, a[0].0, cfg, a[0].1);
      RunAppend(h, r.config, a[1..], b);
      var first := Run(h, r.config, a[1..]);
      var rest := Run(h, first.config, b);
      assert r.out + (first.out + rest.out) == r.out + first.out + rest.out;
      assert r.started + (first.started + rest.started) == r.started + first.started + rest.started;
    }
  }

  lemma {:induction false} InputsAppend<S, W, E, C, R>(h: Handler<S, W, E, C, R>, cfg: Config<S, W, E, C, R>,
                                      a: seq<(W, Input<E, R>)>, b: seq<(W, Input<E, R>)>)
    ensures var mid := Run(h, cfg, a).config;
            Accepted(h, cfg, a + b) == Accepted(h, cfg, a) + Accepted(h, mid, b)
            && Answers(h, cfg, a + b) == Answers(h, cfg, a) + Answers(h, mid, b)
    decreases |a|
  {
    if a == [] {
      assert a + b == b;
    } else {
      assert (a + b)[1..] == a[1..] + b;
      InputsAppend(h, Step(h, a[0].0, cfg, a[0].1).config, a[1..], b);
    }
  }

  lemma RunSnoc<S, W, E, C, R>(h: Handler<S, W, E, C, R>, cfg: Config<S, W, E, C, R>, trace: seq<(W, Input<E, R>)>)
    requires trace != []
    ensures var n := |trace| - 1;
            var r := Run(h, cfg, trace[..n]);
            Run(h, cfg, trace) == After(r.out, r.started, Step(h, trace[n].0, r.config, trace[n].1))
  {
    var n := |trace| - 1;
    assert trace == trace[..n] + [trace[n]];
    RunAppend(h, cfg, trace[..n], [trace[n]]);
    var step := Step(h, trace[n].0, Run(h, cfg, trace[..n]).config, trace[n].1);
    assert step.out + [] == step.out && step.started + [] == step.started;
  }

  /** Finds the call of a run that yielded a given item. */
  lemma {:induction false} YieldedBy<S, W, E, C, R>(h: Handler<S, W, E, C, R>, cfg: Config<S, W, E, C, R>, trace: seq<(W, Input<E, R>)>, i: nat)
    returns (n: nat)
    requires i < |Run(h, cfg, trace).out|
    ensures n < |trace|
    ensures var before := Run(h, cfg, trace[..n]);
            var call := Step(h, trace[n].0, before.config, trace[n].1);
            |before.out| <= i < |before.out + call.out| && Run(h, cfg, trace).out[i] == call.out[i - |before.out|]
            && Run(h, cfg, trace[..n + 1]) == After(before.out, before.started, call)
    decreases |trace|
  {
    n := |trace| - 1;
    RunSnoc(h, cfg, trace);
    assert trace[..n + 1] == trace;
    var before := Run(h, cfg, trace[..n]);
    if i < |before.out| {
      var all := trace[..n];
      n := YieldedBy(h, cfg, all, i);
      assert all[..n] == trace[..n] && all[..n + 1] == trace[..n + 1];
    }
  }

  /** The reference machine: it finishes each event before it starts the next, and at a
      blocking command it stops until the next answer is there. */
  function Blocking<S, W, E, C, R>(h: Handler<S, W, E, C, R>, w: W, owner: nat, serial: nat, p: Proc<S, W, E, C, R>,
                                   events: seq<Input<E, R>>, answers: seq<R>): (seq<Out<E, C, R>>, Config<S, W, E, C, R>, seq<R>)
    decreases |answers|, |events|, p
  {
    match p
    case Done(s) =>
      if events == [] then ([], Config(owner, serial, Idle(s), []), answers)
      else Blocking(h, w, owner, serial, h(s, w, events[0]), events[1..], answers)
    case Emit(c, next) =>
      var (out, cfg, spare) := Blocking(h, w, owner, serial, next, events, answers);
      ([Sent(c)] + out, cfg, spare)
    case Pass(e, next) =>
      var (out, cfg, spare) := Blocking(h, w, owner, serial, next, events, answers);
      ([Passed(e)] + out, cfg, spare)
    case Block(c, k) =>
      var id := CmdId(owner, serial);
      if answers == [] then ([Asked(id, c)], Config(owner, serial + 1, Waiting(id, k), events), [])
      else
        var (out, cfg, spare) := Blocking(h, w, owner, serial + 1, k(answers[0], w), events, answers[1..]);
        ([Asked(id, c)] + out, cfg, spare)
  }

  /** The reference machine, continued from a configuration of the engine. */
  ghost function Continue<S, W, E, C, R>(h: Handler<S, W, E, C, R>, w: W, cfg: Config<S, W, E, C, R>,
                                         events: seq<Input<E, R>>, answers: seq<R>): (seq<Out<E, C, R>>, Config<S, W, E, C, R>, seq<R>)
  {
    match cfg.phase
    case Idle(s) => Blocking(h, w, cfg.owner, cfg.serial, Done(s), cfg.queue + events, answers)
    case Waiting(id, k) =>
      if answers == [] then ([], cfg.(queue := cfg.queue + events), [])
      else Blocking(h, w, cfg.owner, cfg.serial, k(answers[0], w), cfg.queue + events, answers[1..])
  }

  lemma {:induction false} BlockingIsProcess<S, W, E, C, R>(h: Handler<S, W, E, C, R>, w: W, cfg: Config<S, W, E, C, R>,
                                           p: Proc<S, W, E, C, R>, events: seq<Input<E, R>>, answers: seq<R>)
    ensures var r := Process(cfg, p);
            var (out, c, spare) := Continue(h, w, r.config, events, answers);
            Blocking(h, w, cfg.owner, cfg.serial, p, cfg.queue + events, answers) == (r.out + out, c, spare)
    decreases p
  {
    match p
    case Done(s) =>
      var (out, _, _) := Continue(h, w, Process(cfg, p).config, events, answers);
      assert [] + out == out;
    case Emit(c, next) =>
      BlockingIsProcess(h, w, cfg, next, events, answers);
      var r := Process(cfg, next);
      var (out, _, _) := Continue(h, w, r.config, events, answers);
      assert [Sent(c)] + (r.out + out) == [Sent(c)] + r.out + out;
    case Pass(e, next) =>
      BlockingIsProcess(h, w, cfg, next, events, answers);
      var r := Process(cfg, next);
      var (out, _, _) := Continue(h, w, r.config, events, answers);
      assert [Passed(e)] + (r.out + out) == [Passed(e)] + r.out + out;
    case Block(c, k) =>
      var asked: seq<Out<E, C, R>> := [Asked(CmdId(cfg.owner, cfg.serial), c)];
      assert asked + [] == asked;
  }

  lemma {:induction false} DrainIsBlocking<S, W, E, C, R>(h: Handler<S, W, E, C, R>, w: W, cfg: Config<S, W, E, C, R>,
                                         events: seq<Input<E, R>>, answers: seq<R>)
    ensures var r := Drain(h, w, cfg);
            var (out, c, spare) := Continue(h, w, r.config, events, answers);
            Continue(h, w, cfg, events, answers) == (r.out + out, c, spare)
    decreases |cfg.queue|
  {
    var (out, _, _) := Continue(h, w, Drain(h, w, cfg).config, events, answers);
    if cfg.phase.Waiting? || cfg.queue == [] {
      assert [] + out == out;
    } else {
      var rest := cfg.(queue := cfg.queue[1..]);
      var p := h(cfg.phase.state, w, cfg.queue[0]);
      ProcessKeepsQueue(rest, p);
      var r := Process(rest, p);
      assert r.out + (Drain(h, w, r.config).out + out) == r.out + Drain(h, w, r.config).out + out;
      assert (cfg.queue + events)[1..] == rest.queue + events;
      BlockingIsProcess(h, w, rest, p, events, answers);
      DrainIsBlocking(h, w, Process(rest, p).config, events, answers);
    }
  }

  lemma StepIsBlocking<S, W, E, C, R>(h: Handler<S, W, E, C, R>, w: W, cfg: Config<S, W, E, C, R>, x: Input<E, R>,
                                      events: seq<Input<E, R>>, answers: seq<R>)
    requires Quiet(cfg)
    ensures var r := Step(h, w, cfg, x);
            var (out, c, spare) := Continue(h, w, r.config, events, answers);
            (if IsReply(cfg, x) then Continue(h, w, cfg, events, [x.reply] + answers)
             else Continue(h, w, cfg, [x] + events, answers)) == (r.out + out, c, spare)
  {
    match cfg.phase
    case Waiting(id, k) =>
      if IsReply(cfg, x) {
        BlockingIsProcess(h, w, cfg, k(x.reply, w), events, answers);
        DrainIsBlocking(h, w, Process(cfg, k(x.reply, w)).config, events, answers);
        assert ([x.reply] + answers)[1..] == answers;
        var r := Process(cfg, k(x.reply, w));
        var (out, _, _) := Continue(h, w, Step(h, w, cfg, x).config, events, answers);
        assert r.out + (Drain(h, w, r.config).out + out) == r.out + Drain(h, w, r.config).out + out;
      } else {
        assert cfg.queue + ([x] + events) == cfg.queue + [x] + events;
        var (out, _, _) := Continue(h, w, Step(h, w, cfg, x).config, events, answers);
        assert [] + out == out;
      }
    case Idle(s) =>
      assert ([x] + events)[1..] == cfg.queue + events;
      assert cfg.queue + ([x] + events) == [x] + events;
      BlockingIsProcess(h, w, cfg, h(s, w, x), events, answers);
      assert [] + Process(cfg, h(s, w, x)).out == Process(cfg, h(s, w, x)).out;
  }

  /** However the replies are delayed and whatever arrives meanwhile, the layer yields what
      the blocking machine yields on the accepted events and the replies taken in order,
      and is left where that machine is left, with no answer unused. */
  lemma {:induction false} RefinesBlocking<S, W, E, C, R>(
    h: Handler<S, W, E, C, R>, w: W, cfg: Config<S, W, E, C, R>, trace: seq<(W, Input<E, R>)>)
    requires Quiet(cfg)
    requires forall i :: 0 <= i < |trace| ==> trace[i].0 == w
    ensures var r := Run(h, cfg, trace);
            Continue(h, w, cfg, Accepted(h, cfg, trace), Answers(h, cfg, trace)) == (r.out, r.config, [])
    decreases |trace|
  {
    if trace == [] {
      assert cfg.queue + [] == cfg.queue;
    } else {
      var x := trace[0].1;
      var r := Step(h, w, cfg, x);
      StepFifo(h, w, cfg, x);
      RefinesBlocking(h, w, r.config, trace[1..]);
      var events, answers := Accepted(h, r.config, trace[1..]), Answers(h, r.config, trace[1..]);
      StepIsBlocking(h, w, cfg, x, events, answers);
      assert [] + events == events && [] + answers == answers;
    }
  }

  /** A coroutine that waits for the reply to its last command. */
  datatype Paused<S, !W, E, C, !R> = Paused(id: CmdId, resume: (R, W) -> Proc<S, W, E, C, R>)

  class Layer<S, W, E, C, R> {
    const owner: nat
    const handler: Handler<S, W, E, C, R>
    var serial: nat
    var state: S
    var paused: Option<Paused<S, W, E, C, R>>
    var queue: seq<Input<E, R>>

    constructor (owner: nat, handler: Handler<S, W, E, C, R>, state: S)
      ensures this.owner == owner && this.handler == handler
      ensures Snapshot() == Initial(owner, state)
    {
      this.owner, this.handler, this.serial := owner, handler, 0;
      this.state, this.paused, this.queue := state, None, [];
    }

    ghost function Snapshot(): Config<S, W, E, C, R>
      reads this
    {
      var phase := if paused.None? then Idle(state) else Waiting(paused.value.id, paused.value.resume);
      Config(owner, serial, phase, queue)
    }

    method HandleEvent(w: W, input: Input<E, R>) returns (out: seq<Out<E, C, R>>)
      modifies this
      ensures var r := Step(handler, w, old(Snapshot()), input); Snapshot() == r.config && out == r.out
    {
      if paused.Some? {
        if input.Completed? && input.id == paused.value.id {
          out := ContinueWith(w, input.reply);
        } else {
          queue := queue + [input];
          out := [];
        }
      } else {
        out := ProcessGenerator(handler(state, w, input));
      }
    }

    method ProcessGenerator(generator: Proc<S, W, E, C, R>) returns (out: seq<Out<E, C, R>>)
      requires paused.None?
      modifies this
      ensures var r := Process(old(Snapshot()), generator); Snapshot() == r.config && out == r.out
    {
      ghost var cfg := Snapshot();
      ghost var all := Process(cfg, generator);
      var g := generator;
      out := [];
      while g.Emit? || g.Pass?
        invariant Snapshot() == cfg
        invariant all.config == Process(cfg, g).config && all.out == out + Process(cfg, g).out
        decreases g
      {
        ProcessNext(cfg, g, out);
        out := out + [if g.Emit? then Sent(g.cmd) else Passed(g.input)];
        g := g.next;
      }
      match g
      case Done(s) =>
        state := s;
      case Block(c, k) =>
        paused := Some(Paused(CmdId(owner, serial), k));
        out := out + [Asked(CmdId(owner, serial), c)];
        serial := serial + 1;
    }

    method ContinueWith(w: W, reply: R) returns (out: seq<Out<E, C, R>>)
      requires paused.Some?
      modifies this
      ensures var r := Process(old(Snapshot()), old(paused).value.resume(reply, w));
              var d := Drain(handler, w, r.config);
              Snapshot() == d.config && out == r.out + d.out
    {
      var generator := paused.value.resume(reply, w);
      paused := None;
      ProcessIgnoresPhase(old(Snapshot()), Snapshot(), generator);
      out := ProcessGenerator(generator);
      ghost var first := Snapshot();
      ghost var head := out;
      while paused.None? && queue != []
        invariant var d := Drain(handler, w, Snapshot());
                  var all := Drain(handler, w, first);
                  d.config == all.config && out + d.out == head + all.out
        decreases |queue|
      {
        var ev := queue[0];
        ghost var before, sofar := Snapshot(), out;
        queue := queue[1..];
        ProcessKeepsQueue(Snapshot(), handler(state, w, ev));
        var more := ProcessGenerator(handler(state, w, ev));
        out := out + more;
        assert sofar + (more + Drain(handler, w, Snapshot()).out) == out + Drain(handler, w, Snapshot()).out;
      }
    }
  }
}
