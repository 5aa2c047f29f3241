/** `NextLayer` (mitmproxy/proxy/layer.py), which records every event until an addon picks the protocol. */
module NextLayers {
  import opened ByteStrings
  import opened LayerStacks
  import opened Layers
  import opened Seqs

  // Once it is picked, the layer replays the record into the chosen child and gets out of the way.

  datatype Side = Client | Server

  datatype NetEvent = Start | DataReceived(side: Side, data: Bytes) | ConnectionClosed(side: Side) | OtherEvent(tag: nat)

  /** The hook carries the layer itself; an addon sees the events recorded so far. */
  datatype NetCommand = NextLayerHook(events: seq<NetInput>) | CloseClient

  /** Has the addon set `layer` by the time the hook completes? */
  type Decision = bool
  type NetInput = Input<NetEvent, Decision>
  type NetOut = Out<NetEvent, NetCommand, Decision>

  datatype State = Undecided(events: seq<NetInput>) | Decided

  type NetProc = Proc<State, (), NetEvent, NetCommand, Decision>
  type NetConfig = Config<State, (), NetEvent, NetCommand, Decision>
  type NetResult = Result<State, (), NetEvent, NetCommand, Decision>
  type NetHandler = Handler<State, (), NetEvent, NetCommand, Decision>

  function Replay(events: seq<NetInput>): NetProc {
    if events == [] then Done(Decided) else Pass(events[0], Replay(events[1..]))
  }

  function AfterHook(events: seq<NetInput>, decided: Decision): NetProc {
    if decided then Replay(events) else Done(Undecided(events))
  }

  function Ask(events: seq<NetInput>): NetProc {
    Block(NextLayerHook(events), (decided, w) => AfterHook(events, decided))
  }

  /** `NextLayer._handle_event`, including its rebinding to the child. */
  function HandleEvent(askOnStart: bool, s: State, x: NetInput): NetProc {
    match s
    case Decided => Pass(x, Done(Decided))
    case Undecided(before) =>
      var events := before + [x];
      match x
      case Event(Start) => if askOnStart then Ask(events) else Done(Undecided(events))
      case Event(ConnectionClosed(Client)) => Emit(CloseClient, Done(Undecided(events)))
      case Event(DataReceived(_, _)) => Ask(events)
      case _ => Done(Undecided(events))
  }

  function HandlerOf(askOnStart: bool): NetHandler {
    (s: State, w: (), x: NetInput) => HandleEvent(askOnStart, s, x)
  }

  /** `data_client` and `data_server` */
  function DataOf(side: Side, events: seq<NetInput>): Bytes {
    if events == [] then []
    else
      (if events[0].Event? && events[0].event.DataReceived? && events[0].event.side == side then events[0].event.data else [])
      + DataOf(side, events[1..])
  }

  lemma {:induction false} DataOfAppend(side: Side, a: seq<NetInput>, b: seq<NetInput>)
    ensures DataOf(side, a + b) == DataOf(side, a) + DataOf(side, b)
    decreases |a|
  {
    if a == [] {
      assert a + b == b;
    } else {
      assert (a + b)[1..] == a[1..] + b;
      DataOfAppend(side, a[1..], b);
    }
  }

  /** What one more event adds: the data of that side, if it is data of that side. */
  lemma DataOfLast(side: Side, events: seq<NetInput>, x: NetInput)
    ensures DataOf(side, events + [x]) == DataOf(side, events) + match x case Event(DataReceived(s, d)) => if s == side then d else [] case _ => []
  {
    DataOfAppend(side, events, [x]);
    assert [x][1..] == [];
  }

  /** The layer has been told `seen` so far, has passed `passed` on and yielded `last` last. */
  ghost predicate Faithful(cfg: NetConfig, seen: seq<NetInput>, passed: seq<NetInput>) {
    match cfg.phase
    case Idle(Undecided(events)) => events == seen && passed == []
    case Idle(Decided) => passed == seen
    case Waiting(_, k) => passed == [] && forall decided, w :: k(decided, w) == AfterHook(seen, decided)
  }

  /** If the call ends in a pause, the last thing yielded is the hook, showing all of `seen`. */
  ghost predicate AsksLast(cfg: NetConfig, seen: seq<NetInput>, out: seq<NetOut>) {
    cfg.phase.Waiting? ==> out != [] && out[|out| - 1] == Asked(cfg.phase.id, NextLayerHook(seen))
  }

  /** No hook but the one a call ends with. */
  ghost predicate AsksOnce(cfg: NetConfig, out: seq<NetOut>) {
    forall i :: 0 <= i < |out| && out[i].Asked? ==> i == |out| - 1 && cfg.phase.Waiting?
  }

  lemma {:induction false} ReplayPasses(cfg: NetConfig, events: seq<NetInput>)
    ensures var r := Process(cfg, Replay(events));
            r.config == cfg.(phase := Idle(Decided)) && PassedBy(r.out) == events && AsksOnce(r.config, r.out)
    decreases |events|
  {
    if events == [] {
    } else {
      ReplayPasses(cfg, events[1..]);
      var rest := Process(cfg, Replay(events[1..])).out;
      assert ([Passed(events[0])] + rest)[1..] == rest;
    }
  }

  /** What holds after the layer has yielded `out` on the handled inputs `seen`. */
  ghost predicate Good(cfg: NetConfig, seen: seq<NetInput>, out: seq<NetOut>) {
    Faithful(cfg, seen, PassedBy(out)) && AsksLast(cfg, seen, out)
  }

  lemma PassesOn(cfg: NetConfig, x: NetInput, seen: seq<NetInput>, out: seq<NetOut>)
    requires cfg.phase == Idle(Decided) && Good(cfg, seen, out)
    ensures var r := Process(cfg, Pass(x, Done(Decided)));
            Good(r.config, seen + [x], out + r.out) && AsksOnce(r.config, r.out)
  {
    var one: seq<NetOut> := [Passed(x)];
    assert Process(cfg, Done(Decided)) == Result(cfg, [], []);
    assert one + [] == one && one[1..] == [];
    assert Process(cfg, Pass(x, Done(Decided))).out == one && PassedBy(one) == [x];
    PassedByAppend(out, one);
  }

  lemma OneEvent(ask: bool, cfg: NetConfig, x: NetInput, seen: seq<NetInput>, out: seq<NetOut>)
    requires cfg.phase.Idle? && Good(cfg, seen, out)
    ensures var r := Process(cfg, HandleEvent(ask, cfg.phase.state, x));
            Good(r.config, seen + [x], out + r.out) && AsksOnce(r.config, r.out)
  {
    if cfg.phase.state.Decided? {
      PassesOn(cfg, x, seen, out);
    } else {
      var p := HandleEvent(ask, cfg.phase.state, x);
      PassedByAppend(out, Process(cfg, p).out);
      if p.Emit? {
        assert Process(cfg, p.next) == Result(cfg.(phase := Idle(Undecided(seen + [x]))), [], []);
      }
    }
  }

  lemma {:induction false} Buffered(ask: bool, cfg: NetConfig, seen: seq<NetInput>, out: seq<NetOut>)
    requires Good(cfg, seen, out)
    ensures var r := Drain(HandlerOf(ask), (), cfg);
            Good(r.config, seen + r.started, out + r.out) && AsksOnce(r.config, r.out)
            && (cfg.phase.Waiting? ==> r.config == cfg && r.out == [])
    decreases |cfg.queue|
  {
    if cfg.phase.Waiting? || cfg.queue == [] {
      assert seen + [] == seen && out + [] == out;
    } else {
      var rest, x := cfg.(queue := cfg.queue[1..]), cfg.queue[0];
      var p := HandleEvent(ask, cfg.phase.state, x);
      ProcessKeepsQueue(rest, p);
      OneEvent(ask, rest, x, seen, out);
      var r := Process(rest, p);
      Buffered(ask, r.config, seen + [x], out + r.out);
      var d := Drain(HandlerOf(ask), (), r.config);
      Associative(seen, [x], d.started);
      Associative(out, r.out, d.out);
      assert Drain(HandlerOf(ask), (), cfg) == After(r.out, [x], d);
    }
  }

  lemma Answered(ask: bool, cfg: NetConfig, decided: Decision, seen: seq<NetInput>, out: seq<NetOut>)
    requires cfg.phase.Waiting? && Good(cfg, seen, out)
    ensures var r := Step(HandlerOf(ask), (), cfg, Completed(cfg.phase.id, decided));
            Good(r.config, seen + r.started, out + r.out) && AsksOnce(r.config, r.out)
  {
    var p := cfg.phase.resume(decided, ());
    assert p == AfterHook(seen, decided);
    ReplayPasses(cfg, seen);
    ProcessKeepsQueue(cfg, p);
    var r := Process(cfg, p);
    PassedByAppend(out, r.out);
    Buffered(ask, r.config, seen, out + r.out);
    var d := Drain(HandlerOf(ask), (), r.config);
    Associative(out, r.out, d.out);
    assert [] + d.started == d.started;
  }

  lemma OneCall(ask: bool, cfg: NetConfig, x: NetInput, seen: seq<NetInput>, out: seq<NetOut>)
    requires Good(cfg, seen, out) && Quiet(cfg)
    ensures var r := Step(HandlerOf(ask), (), cfg, x);
            Good(r.config, seen + r.started, out + r.out) && Quiet(r.config) && AsksOnce(r.config, r.out)
  {
    StepFifo(HandlerOf(ask), (), cfg, x);
    if cfg.phase.Idle? {
      var p := HandleEvent(ask, cfg.phase.state, x);
      OneEvent(ask, cfg, x, seen, out);
      ProcessKeepsQueue(cfg, p);
      assert [] + Process(cfg, p).out == Process(cfg, p).out && [x] + Process(cfg, p).started == [x];
    } else if IsReply(cfg, x) {
      Answered(ask, cfg, x.reply, seen, out);
    } else {
      assert seen + [] == seen && out + [] == out;
    }
  }

  function RunOf(ask: bool, owner: nat, trace: seq<((), NetInput)>): NetResult {
    Run(HandlerOf(ask), Initial(owner, Undecided([])), trace)
  }

  lemma {:induction false} Always(ask: bool, owner: nat, trace: seq<((), NetInput)>)
    ensures var r := RunOf(ask, owner, trace); Quiet(r.config) && Good(r.config, r.started, r.out)
    decreases |trace|
  {
    if trace == [] {
    } else {
      var n := |trace| - 1;
      assert trace[n].0 == ();
      Always(ask, owner, trace[..n]);
      RunSnoc(HandlerOf(ask), Initial(owner, Undecided([])), trace);
      var r := RunOf(ask, owner, trace[..n]);
      OneCall(ask, r.config, trace[n].1, r.started, r.out);
    }
  }

  /** However many undecided hooks there are and whatever arrives while one is pending: before
      the decision the child sees nothing, after it the child has been given exactly the
      accepted events, in arrival order and once each, later ones included. */
  lemma ChildSeesWholeHistory(ask: bool, owner: nat, trace: seq<((), NetInput)>)
    ensures var r := RunOf(ask, owner, trace);
            var accepted := Accepted(HandlerOf(ask), Initial(owner, Undecided([])), trace);
            if r.config.phase == Idle(Decided) then PassedBy(r.out) == accepted
            else PassedBy(r.out) == [] && r.started + r.config.queue == accepted
  {
    Always(ask, owner, trace);
    StartsInArrivalOrder(HandlerOf(ask), Initial(owner, Undecided([])), trace);
    var accepted := Accepted(HandlerOf(ask), Initial(owner, Undecided([])), trace);
    assert [] + accepted == accepted;
  }

  /** Every next_layer hook is the last thing yielded at some point of the run, and shows
      exactly the events handled up to that point. */
  lemma {:induction false} HookShowsHandledData(ask: bool, owner: nat, trace: seq<((), NetInput)>, i: nat) returns (n: nat)
    requires i < |RunOf(ask, owner, trace).out| && RunOf(ask, owner, trace).out[i].Asked?
    ensures n <= |trace|
    ensures var hook := RunOf(ask, owner, trace).out[i].cmd;
            var before := RunOf(ask, owner, trace[..n]);
            |before.out| == i + 1 && before.config.phase.Waiting?
            && hook == NextLayerHook(before.started)
    decreases |trace|
  {
    var last := |trace| - 1;
    RunSnoc(HandlerOf(ask), Initial(owner, Undecided([])), trace);
    var r := RunOf(ask, owner, trace[..last]);
    if i < |r.out| {
      n := HookShowsHandledData(ask, owner, trace[..last], i);
      assert trace[..last][..n] == trace[..n];
    } else {
      n := |trace|;
      assert trace[..n] == trace && trace[last].0 == ();
      Always(ask, owner, trace[..last]);
      OneCall(ask, r.config, trace[last].1, r.started, r.out);
      Always(ask, owner, trace);
    }
  }

  /** At every hook the client data an addon sees, followed by what is still buffered, is the
      client data of all events accepted so far. */
  lemma HookSeesAllClientData(ask: bool, owner: nat, trace: seq<((), NetInput)>)
    requires RunOf(ask, owner, trace).config.phase.Waiting?
    ensures var r := RunOf(ask, owner, trace);
            var accepted := Accepted(HandlerOf(ask), Initial(owner, Undecided([])), trace);
            r.out != [] && var hook := r.out[|r.out| - 1];
            hook.Asked? && hook.cmd.NextLayerHook?
            && DataOf(Client, hook.cmd.events) + DataOf(Client, r.config.queue) == DataOf(Client, accepted)
  {
    var r := RunOf(ask, owner, trace);
    Always(ask, owner, trace);
    StartsInArrivalOrder(HandlerOf(ask), Initial(owner, Undecided([])), trace);
    var accepted := Accepted(HandlerOf(ask), Initial(owner, Undecided([])), trace);
    assert [] + accepted == accepted;
    DataOfAppend(Client, r.started, r.config.queue);
  }

  /** Why the layer may replace its own event handler by the child's once it has decided. */
  lemma RebindingIsSound(ask: bool, cfg: NetConfig, x: NetInput)
    requires cfg.phase == Idle(Decided)
    ensures var r := Step(HandlerOf(ask), (), cfg, x); r.config == cfg && r.out == [Passed(x)]
  {
    var done: NetProc := Done(Decided);
    assert Process(cfg, done) == Result(cfg, [], []);
    assert Process(cfg, Pass(x, done)).out == [Passed(x)];
    assert HandleEvent(ask, Decided, x) == Pass(x, done);
  }

  // ----- when it asks -----

  /** The events on which an addon is asked: data of either side, and Start if so configured. */
  predicate Worth(askOnStart: bool, x: NetInput) {
    x.Event? && (x.event.DataReceived? || (askOnStart && x.event.Start?))
  }

  /** What an undecided layer says, given the events recorded `before`, those it handles from then on and the answers it
      gets: a hook that shows all events so far for each event worth asking, a close of the client for each close by the
      client, and from a positive answer on nothing. */
  function Script(askOnStart: bool, before: seq<NetInput>, xs: seq<NetInput>, answers: seq<Decision>): seq<NetCommand>
    decreases |xs|
  {
    if xs == [] then []
    else
      var events := before + [xs[0]];
      if Worth(askOnStart, xs[0]) then
        [NextLayerHook(events)] + if answers == [] || answers[0] then [] else Script(askOnStart, events, xs[1..], answers[1..])
      else
        (if xs[0] == Event(ConnectionClosed(Client)) then [CloseClient] else []) + Script(askOnStart, events, xs[1..], answers)
  }

  /** All commands yielded, hooks included. */
  function Commands(out: seq<NetOut>): seq<NetCommand> {
    if out == [] then [] else (if out[0].Passed? then [] else [out[0].cmd]) + Commands(out[1..])
  }

  lemma {:induction false} CommandsAppend(a: seq<NetOut>, b: seq<NetOut>)
    ensures Commands(a + b) == Commands(a) + Commands(b)
    decreases |a|
  {
    if a == [] {
      assert a + b == b;
    } else {
      assert (a + b)[1..] == a[1..] + b;
      CommandsAppend(a[1..], b);
      Associative(if a[0].Passed? then [] else [a[0].cmd], Commands(a[1..]), Commands(b));
    }
  }

  /** Where the layer is between two calls: its state, or the events shown by the hook it waits for. */
  datatype Spot = Resting(s: State) | Asking(events: seq<NetInput>)

  ghost predicate Sits(cfg: NetConfig, spot: Spot) {
    match cfg.phase
    case Idle(s) => spot == Resting(s)
    case Waiting(_, k) => spot.Asking? && forall decided, w :: k(decided, w) == AfterHook(spot.events, decided)
  }

  /** What is still to be said. */
  function Rest(askOnStart: bool, spot: Spot, xs: seq<NetInput>, answers: seq<Decision>): seq<NetCommand> {
    match spot
    case Resting(Decided) => []
    case Resting(Undecided(before)) => Script(askOnStart, before, xs, answers)
    case Asking(events) => if answers == [] || answers[0] then [] else Script(askOnStart, events, xs, answers[1..])
  }

  lemma {:induction false} ReplaySays(cfg: NetConfig, events: seq<NetInput>)
    ensures Commands(Process(cfg, Replay(events)).out) == [] && Process(cfg, Replay(events)).config.phase == Idle(Decided)
    decreases |events|
  {
    if events != [] {
      ReplaySays(cfg, events[1..]);
      var rest := Process(cfg, Replay(events[1..])).out;
      assert ([Passed(events[0])] + rest)[1..] == rest;
    }
  }

  lemma DecidedSays(cfg: NetConfig, x: NetInput)
    ensures var r := Process(cfg, Pass(x, Done(Decided)));
            r.config == cfg.(phase := Idle(Decided)) && Commands(r.out) == []
  {
    var done: NetProc := Done(Decided);
    assert Process(cfg, done).out == [];
    var one: seq<NetOut> := [Passed(x)];
    assert Process(cfg, Pass(x, done)).out == one && one[1..] == [];
  }

  lemma QuietSays(cfg: NetConfig, x: NetInput, events: seq<NetInput>)
    ensures var done: NetProc := Done(Undecided(events));
            var r := Process(cfg, if x == Event(ConnectionClosed(Client)) then Emit(CloseClient, done) else done);
            r.config == cfg.(phase := Idle(Undecided(events)))
            && Commands(r.out) == if x == Event(ConnectionClosed(Client)) then [CloseClient] else []
  {
    var done: NetProc := Done(Undecided(events));
    assert Process(cfg, done).out == [];
    var one: seq<NetOut> := [Sent(CloseClient)];
    assert Process(cfg, Emit(CloseClient, done)).out == one && one[1..] == [];
  }

  lemma AskSays(cfg: NetConfig, events: seq<NetInput>)
    ensures var r := Process(cfg, Ask(events));
            Sits(r.config, Asking(events)) && Commands(r.out) == [NextLayerHook(events)]
  {
    var one: seq<NetOut> := [Asked(CmdId(cfg.owner, cfg.serial), NextLayerHook(events))];
    assert Process(cfg, Ask(events)).out == one && one[1..] == [];
  }

  lemma EventSays(ask: bool, cfg: NetConfig, s: State, x: NetInput, ys: seq<NetInput>, bs: seq<Decision>) returns (spot: Spot)
    ensures var r := Process(cfg, HandleEvent(ask, s, x));
            Sits(r.config, spot) && Rest(ask, Resting(s), [x] + ys, bs) == Commands(r.out) + Rest(ask, spot, ys, bs)
  {
    assert ([x] + ys)[1..] == ys;
    if s.Decided? {
      spot := Resting(s);
      DecidedSays(cfg, x);
    } else {
      var events := s.events + [x];
      if Worth(ask, x) {
        spot := Asking(events);
        AskSays(cfg, events);
      } else {
        spot := Resting(Undecided(events));
        QuietSays(cfg, x, events);
      }
    }
  }

  lemma AnswerSays(ask: bool, cfg: NetConfig, events: seq<NetInput>, decided: Decision, ys: seq<NetInput>, bs: seq<Decision>)
    returns (spot: Spot)
    ensures var p := Process(cfg, AfterHook(events, decided));
            Sits(p.config, spot) && Rest(ask, Asking(events), ys, [decided] + bs) == Commands(p.out) + Rest(ask, spot, ys, bs)
  {
    assert ([decided] + bs)[1..] == bs;
    ReplaySays(cfg, events);
    spot := Resting(if decided then Decided else Undecided(events));
  }

  lemma {:induction false} DrainSays(ask: bool, cfg: NetConfig, before: Spot, ys: seq<NetInput>, bs: seq<Decision>) returns (spot: Spot)
    requires Sits(cfg, before)
    ensures var d := Drain(HandlerOf(ask), (), cfg);
            Sits(d.config, spot) && Rest(ask, before, d.started + ys, bs) == Commands(d.out) + Rest(ask, spot, ys, bs)
    decreases |cfg.queue|
  {
    if cfg.phase.Waiting? || cfg.queue == [] {
      spot := before;
      assert [] + ys == ys;
    } else {
      var rest, x := cfg.(queue := cfg.queue[1..]), cfg.queue[0];
      var p := HandleEvent(ask, cfg.phase.state, x);
      ProcessKeepsQueue(rest, p);
      var r := Process(rest, p);
      var d := Drain(HandlerOf(ask), (), r.config);
      var mid := EventSays(ask, rest, cfg.phase.state, x, d.started + ys, bs);
      spot := DrainSays(ask, r.config, mid, ys, bs);
      assert Drain(HandlerOf(ask), (), cfg) == After(r.out, [x], d);
      Associative([x], d.started, ys);
      CommandsAppend(r.out, d.out);
      Associative(Commands(r.out), Commands(d.out), Rest(ask, spot, ys, bs));
    }
  }

  lemma StepSays(ask: bool, cfg: NetConfig, before: Spot, x: NetInput, ys: seq<NetInput>, bs: seq<Decision>) returns (spot: Spot)
    requires Sits(cfg, before)
    ensures var r := Step(HandlerOf(ask), (), cfg, x);
            var answers := (if IsReply(cfg, x) then [x.reply] else []) + bs;
            Sits(r.config, spot) && Rest(ask, before, r.started + ys, answers) == Commands(r.out) + Rest(ask, spot, ys, bs)
  {
    assert [] + bs == bs && [] + ys == ys;
    if cfg.phase.Idle? {
      var p := Process(cfg, HandleEvent(ask, cfg.phase.state, x));
      ProcessKeepsQueue(cfg, HandleEvent(ask, cfg.phase.state, x));
      spot := EventSays(ask, cfg, cfg.phase.state, x, ys, bs);
      assert [x] + p.started == [x] && [] + p.out == p.out;
    } else if IsReply(cfg, x) {
      var p := Process(cfg, AfterHook(before.events, x.reply));
      assert cfg.phase.resume(x.reply, ()) == AfterHook(before.events, x.reply);
      ProcessKeepsQueue(cfg, AfterHook(before.events, x.reply));
      var d := Drain(HandlerOf(ask), (), p.config);
      var mid := AnswerSays(ask, cfg, before.events, x.reply, d.started + ys, bs);
      spot := DrainSays(ask, p.config, mid, ys, bs);
      assert [] + d.started == d.started;
      CommandsAppend(p.out, d.out);
      Associative(Commands(p.out), Commands(d.out), Rest(ask, spot, ys, bs));
    } else {
      spot := before;
    }
  }

  lemma {:induction false} RunSays(ask: bool, cfg: NetConfig, before: Spot, trace: seq<((), NetInput)>) returns (spot: Spot)
    requires Sits(cfg, before)
    ensures var r := Run(HandlerOf(ask), cfg, trace);
            Sits(r.config, spot)
            && Commands(r.out) + Rest(ask, spot, [], []) == Rest(ask, before, r.started, Answers(HandlerOf(ask), cfg, trace))
    decreases |trace|
  {
    if trace == [] {
      spot := before;
      assert [] + Rest(ask, spot, [], []) == Rest(ask, spot, [], []);
    } else {
      var x := trace[0].1;
      assert trace[0].0 == ();
      var r := Step(HandlerOf(ask), (), cfg, x);
      var more := Run(HandlerOf(ask), r.config, trace[1..]);
      var mid := StepSays(ask, cfg, before, x, more.started, Answers(HandlerOf(ask), r.config, trace[1..]));
      spot := RunSays(ask, r.config, mid, trace[1..]);
      CommandsAppend(r.out, more.out);
      Associative(Commands(r.out), Commands(more.out), Rest(ask, spot, [], []));
    }
  }

  /** In every run the layer has asked exactly when it should: one hook for each event worth asking that it has handled
      while undecided, showing all events up to it; the client is closed once for each close by the client handled while
      undecided; and nothing else is said. */
  lemma AsksWhenItShould(ask: bool, owner: nat, trace: seq<((), NetInput)>)
    ensures var r := RunOf(ask, owner, trace);
            Commands(r.out) == Script(ask, [], r.started, Answers(HandlerOf(ask), Initial(owner, Undecided([])), trace))
  {
    var cfg: NetConfig := Initial(owner, Undecided([]));
    var spot := RunSays(ask, cfg, Resting(Undecided([])), trace);
    assert Rest(ask, spot, [], []) == [];
    assert Commands(RunOf(ask, owner, trace).out) + [] == Commands(RunOf(ask, owner, trace).out);
  }

  // ----- in a stack -----

  /** What an undecided layer holds back. */
  function Recorded(): State -> seq<NetInput> {
    (s: State) => if s.Undecided? then s.events else []
  }

  lemma {:induction false} ReplayCarries(events: seq<NetInput>)
    ensures Carries(Replay(events), events, Everything(), Recorded())
    decreases |events|
  {
    if events != [] {
      ReplayCarries(events[1..]);
    }
  }

  /** Decided or not, the layer passes every input to the child in order and once, holding it back while undecided. */
  lemma RelaysEverything(ask: bool)
    ensures Relays(HandlerOf(ask), Everything(), Recorded())
  {
    forall s: State, w: (), x: NetInput
      ensures Carries(HandlerOf(ask)(s, w, x), Recorded()(s) + Kept(Everything(), [x]), Everything(), Recorded())
    {
      KeptEverything([x]);
      EventCarries(ask, s, x);
    }
  }

  lemma EventCarries(ask: bool, s: State, x: NetInput)
    ensures Carries(HandleEvent(ask, s, x), Recorded()(s) + [x], Everything(), Recorded())
  {
    if s.Undecided? {
      var events := s.events + [x];
      ReplayCarries(events);
      assert Carries(AfterHook(events, true), events, Everything(), Recorded());
      assert Carries(AfterHook(events, false), events, Everything(), Recorded());
      assert Carries(Ask(events), events, Everything(), Recorded());
    } else {
      assert [] + [x] == [x] && [x][1..] == [];
      var done: NetProc := Done(Decided);
      assert Carries(done, [], Everything(), Recorded());
    }
  }

  type NetStack = Stack<State, (), NetEvent, NetCommand, Decision>

  /** What a layer holds back of the replies to a command. */
  function RepliesHeld(id: CmdId): State -> seq<NetInput> {
    KeptOf(RepliesTo(id), Recorded())
  }

  /** The layers around `depth` are unpaused NextLayers, decided or not, that have not seen a reply to `id`. */
  ghost predicate NextLayersAround(stack: NetStack, depth: nat, id: CmdId) {
    depth == 0 ||
    (stack.Node? && (stack.handler == HandlerOf(true) || stack.handler == HandlerOf(false))
     && stack.config.phase.Idle? && stack.config.queue == [] && stack.config.owner != id.owner
     && RepliesHeld(id)(stack.config.phase.state) == [] && NextLayersAround(stack.inner, depth - 1, id))
  }

  lemma {:induction false} NextLayersRelay(stack: NetStack, depth: nat, id: CmdId)
    requires NextLayersAround(stack, depth, id)
    ensures Around(stack, depth, id, RepliesHeld(id))
    decreases depth
  {
    if depth > 0 {
      var ask := stack.handler == HandlerOf(true);
      RelaysEverything(ask);
      RelaysLess(HandlerOf(ask), RepliesTo(id), Recorded());
      NextLayersRelay(stack.inner, depth - 1, id);
    }
  }

  /** A reply given once to layers that have yet to choose their protocol resumes the layer inside that asked for it at
      most once, and exactly once when no layer around it is paused or still holds the reply in its record. */
  lemma ReplyPassesNextLayers(stack: NetStack, depth: nat, id: CmdId, trace: seq<((), NetInput)>)
    requires Clean(stack) && NextLayersAround(stack, depth, id)
    requires var asker := At(stack, depth);
             asker.Node? && asker.config.phase.Waiting? && asker.config.phase.id == id && WellNumbered(asker.config)
    requires Count(id, Inputs(trace)) == 1
    ensures var resumed := multiset(ResumedAt(stack, depth, trace));
            resumed[id] <= 1 && (AtRest(RunStack(stack, trace), depth, RepliesHeld(id)) ==> resumed[id] == 1)
    ensures forall j :: 0 <= j < depth ==> id !in ResumedAt(stack, j, trace)
  {
    NextLayersRelay(stack, depth, id);
    ReplyResumesAskerOnce(stack, depth, id, trace, RepliesHeld(id));
  }

  class NextLayer {
    const askOnStart: bool
    const engine: Layer<State, (), NetEvent, NetCommand, Decision>

    constructor (owner: nat, askOnStart: bool)
      ensures fresh(engine) && Valid() && engine.Snapshot() == Initial(owner, Undecided([]))
      ensures this.askOnStart == askOnStart
    {
      this.askOnStart := askOnStart;
      engine := new Layer(owner, HandlerOf(askOnStart), Undecided([]));
    }

    ghost predicate Valid() {
      engine.handler == HandlerOf(askOnStart)
    }

    /** `NextLayer.handle_event` with its shortcut to the child. */
    method HandleEvent(x: NetInput) returns (out: seq<NetOut>)
      requires Valid()
      modifies engine
      ensures var r := Step(HandlerOf(askOnStart), (), old(engine.Snapshot()), x);
              engine.Snapshot() == r.config && out == r.out
    {
      if engine.paused.None? && engine.state.Decided? {
        RebindingIsSound(askOnStart, engine.Snapshot(), x);
        out := [Passed(x)];
      } else {
        out := engine.HandleEvent((), x);
      }
    }

    /** `_data`: joins the data of one side's recorded events. */
    method Data(side: Side, events: seq<NetInput>) returns (data: Bytes)
      ensures data == DataOf(side, events)
    {
      data := [];
      for i := 0 to |events|
        invariant data == DataOf(side, events[..i])
      {
        DataOfAppend(side, events[..i], [events[i]]);
        assert events[..i] + [events[i]] == events[..i + 1];
        match events[i] {
          case Event(DataReceived(s, d)) => if s == side { data := data + d; }
          case _ =>
        }
      }
      assert events[..|events|] == events;
    }
  }
}
