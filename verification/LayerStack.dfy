/** Nested layers (mitmproxy/proxy/layer.py). */
module LayerStacks {
  import opened Layers
  import opened Seqs

  // A layer re-yields the commands of its child through its own event loop, and that loop pauses
  // on every command whose `blocking` attribute is still `True`. What keeps a child's blocking
  // command from pausing its parents is only that the child replaced the attribute by a reference
  // to itself. `Receive` is that mechanism, command by command; `Deliver` is the intended meaning,
  // in which every layer runs as if it were alone.

  datatype Flag = NonBlocking | Blocking | HeldBy(id: CmdId)

  datatype Signal<+C> = Signal(cmd: C, flag: Flag)

  /** `relay` holds what is left of a child's commands when the layer paused in the middle
      of re-yielding them. */
  datatype Stack<!S, !W, !E, !C, !R> =
    | Bottom
    | Node(handler: Handler<S, W, E, C, R>, via: Via<C>, config: Config<S, W, E, C, R>, relay: seq<Signal<C>>,
           inner: Stack<S, W, E, C, R>)

  /** What a layer makes of a command of its child: itself, if it only passes commands on. */
  type Via<!C> = Signal<C> -> seq<Signal<C>>

  function Through<C>(via: Via<C>, signals: seq<Signal<C>>): seq<Signal<C>> {
    if signals == [] then [] else via(signals[0]) + Through(via, signals[1..])
  }

  lemma {:induction false} ThroughSettles<C(!new)>(via: Via<C>, signals: seq<Signal<C>>)
    requires Lawful(via) && Settled(signals)
    ensures Settled(Through(via, signals))
    decreases |signals|
  {
    if signals != [] {
      ThroughSettles(via, signals[1..]);
    }
  }

  function Depth<S, W, E, C, R>(stack: Stack<S, W, E, C, R>): nat {
    match stack
    case Bottom => 0
    case Node(_, _, _, _, inner) => 1 + Depth(inner)
  }

  /** The event loop of one layer: first the commands relayed from the child, then the
      layer's own coroutine. */
  function Execute<S, W, E, C, R>(h: Handler<S, W, E, C, R>, via: Via<C>, cfg: Config<S, W, E, C, R>, inner: Stack<S, W, E, C, R>,
                                  w: W, relay: seq<Signal<C>>, p: Proc<S, W, E, C, R>)
    : (r: (Stack<S, W, E, C, R>, seq<Signal<C>>))
    ensures r.0.Node? && Depth(r.0.inner) == Depth(inner) && r.0.config.queue == cfg.queue
    decreases Depth(inner) + 1, 1, 0, p, |relay|
  {
    var id := CmdId(cfg.owner, cfg.serial);
    if relay != [] then
      if relay[0].flag == Blocking then
        var paused := cfg.(phase := Waiting(id, (r, w) => p), serial := cfg.serial + 1);
        (Node(h, via, paused, relay[1..], inner), [Signal(relay[0].cmd, HeldBy(id))])
      else
        var (node, out) := Execute(h, via, cfg, inner, w, relay[1..], p);
        (node, [relay[0]] + out)
    else
      match p
      case Done(s) => (Node(h, via, cfg.(phase := Idle(s)), [], inner), [])
      case Emit(c, next) =>
        var (node, out) := Execute(h, via, cfg, inner, w, [], next);
        (node, [Signal(c, NonBlocking)] + out)
      case Pass(x, next) =>
        var (inner', out) := Receive(inner, w, x);
        Execute(h, via, cfg, inner', w, Through(via, out), next)
      case Block(c, k) =>
        (Node(h, via, cfg.(phase := Waiting(id, k), serial := cfg.serial + 1), [], inner), [Signal(c, HeldBy(id))])
  }

  function ReplayQueue<S, W, E, C, R>(node: Stack<S, W, E, C, R>, w: W): (r: (Stack<S, W, E, C, R>, seq<Signal<C>>))
    requires node.Node?
    ensures r.0.Node? && Depth(r.0) == Depth(node)
    decreases Depth(node), 2, |node.config.queue|
  {
    var cfg := node.config;
    if cfg.phase.Waiting? || cfg.queue == [] then
      (node, [])
    else
      var (node', out) := Execute(node.handler, node.via, cfg.(queue := cfg.queue[1..]), node.inner, w, [],
                                  node.handler(cfg.phase.state, w, cfg.queue[0]));
      var (node'', more) := ReplayQueue(node', w);
      (node'', out + more)
  }

  /** `handle_event` of the outermost layer. */
  function Receive<S, W, E, C, R>(stack: Stack<S, W, E, C, R>, w: W, x: Input<E, R>): (r: (Stack<S, W, E, C, R>, seq<Signal<C>>))
    ensures Depth(r.0) == Depth(stack)
    decreases Depth(stack), 3
  {
    match stack
    case Bottom => (Bottom, [])
    case Node(h, via, cfg, relay, inner) =>
      match cfg.phase
      case Idle(s) => Execute(h, via, cfg, inner, w, [], h(s, w, x))
      case Waiting(id, k) =>
        if IsReply(cfg, x) then
          var (node, out) := Execute(h, via, cfg, inner, w, relay, k(x.reply, w));
          var (node', more) := ReplayQueue(node, w);
          (node', out + more)
        else
          (stack.(config := cfg.(queue := cfg.queue + [x])), [])
  }

  // ----- every layer as if alone -----

  /** Hands what one layer yielded to its surroundings: commands go out, passed events go in. */
  function Distribute<S, W, E, C, R>(via: Via<C>, inner: Stack<S, W, E, C, R>, w: W, items: seq<Out<E, C, R>>)
    : (r: (Stack<S, W, E, C, R>, seq<Signal<C>>))
    ensures Depth(r.0) == Depth(inner)
    decreases Depth(inner), 1, |items|
  {
    if items == [] then (inner, [])
    else
      var (inner', out) :=
        match items[0]
        case Sent(c) => (inner, [Signal(c, NonBlocking)])
        case Asked(id, c) => (inner, [Signal(c, HeldBy(id))])
        case Passed(x) => (var (i, o) := Deliver(inner, w, x); (i, Through(via, o)));
      var (inner'', more) := Distribute(via, inner', w, items[1..]);
      (inner'', out + more)
  }

  function Deliver<S, W, E, C, R>(stack: Stack<S, W, E, C, R>, w: W, x: Input<E, R>): (r: (Stack<S, W, E, C, R>, seq<Signal<C>>))
    ensures Depth(r.0) == Depth(stack)
    decreases Depth(stack), 0
  {
    match stack
    case Bottom => (Bottom, [])
    case Node(h, via, cfg, _, inner) =>
      var step := Step(h, w, cfg, x);
      var (inner', out) := Distribute(via, inner, w, step.out);
      (Node(h, via, step.config, [], inner'), out)
  }

  ghost predicate Clean<S, W, E, C(!new), R>(stack: Stack<S, W, E, C, R>) {
    stack.Node? ==> stack.relay == [] && Lawful(stack.via) && Clean(stack.inner)
  }

  /** A layer makes no command out of one of its child's that would pause itself. */
  ghost predicate Lawful<C(!new)>(via: Via<C>) {
    forall s: Signal<C> :: s.flag != Blocking ==> Settled(via(s))
  }

  ghost predicate Settled<C>(signals: seq<Signal<C>>) {
    forall i :: 0 <= i < |signals| ==> signals[i].flag != Blocking
  }

  lemma {:induction false} DistributeAppend<S, W, E, C, R>(via: Via<C>, inner: Stack<S, W, E, C, R>, w: W, a: seq<Out<E, C, R>>, b: seq<Out<E, C, R>>)
    ensures var (i, x) := Distribute(via, inner, w, a);
            var (j, y) := Distribute(via, i, w, b);
            Distribute(via, inner, w, a + b) == (j, x + y)
    decreases |a|
  {
    if a == [] {
      var (j, y) := Distribute(via, inner, w, b);
      assert a + b == b && [] + y == y;
    } else {
      var (i, x) :=
        match a[0]
        case Sent(c) => (inner, [Signal(c, NonBlocking)])
        case Asked(id, c) => (inner, [Signal(c, HeldBy(id))])
        case Passed(e) => (var (i, o) := Deliver(inner, w, e); (i, Through(via, o)));
      DistributeAppend(via, i, w, a[1..], b);
      var (j, y) := Distribute(via, i, w, a[1..]);
      var (_, z) := Distribute(via, j, w, b);
      assert (a + b)[1..] == a[1..] + b;
      Associative(x, y, z);
    }
  }

  lemma DistributePassed<S, W, E, C, R>(via: Via<C>, inner: Stack<S, W, E, C, R>, w: W, x: Input<E, R>, rest: seq<Out<E, C, R>>)
    ensures var (i, o) := Deliver(inner, w, x);
            var (j, more) := Distribute(via, i, w, rest);
            Distribute(via, inner, w, [Passed(x)] + rest) == (j, Through(via, o) + more)
  {
    assert ([Passed(x)] + rest)[1..] == rest;
  }

  /** The loop of one layer never pauses on a relayed command: it yields what the child
      yielded and then what the layer's own coroutine yields on its own. */
  lemma {:induction false} ExecuteAlone<S, W, E, C(!new), R>(
    h: Handler<S, W, E, C, R>, via: Via<C>, cfg: Config<S, W, E, C, R>, inner: Stack<S, W, E, C, R>,
    w: W, relay: seq<Signal<C>>, p: Proc<S, W, E, C, R>)
    requires Clean(inner) && Settled(relay) && Lawful(via)
    ensures var r := Process(cfg, p);
            var (inner', out) := Distribute(via, inner, w, r.out);
            Execute(h, via, cfg, inner, w, relay, p) == (Node(h, via, r.config, [], inner'), relay + out)
            && Clean(inner') && Settled(relay + out)
    decreases Depth(inner) + 1, 1, 0, p, |relay| + 1
  {
    var (_, out) := Distribute(via, inner, w, Process(cfg, p).out);
    if relay != [] {
      ExecuteAlone(h, via, cfg, inner, w, relay[1..], p);
      assert [relay[0]] + (relay[1..] + out) == relay + out;
    } else {
      ExecuteOwn(h, via, cfg, inner, w, p);
      assert relay + out == out;
    }
  }

  lemma {:induction false} ExecuteOwn<S, W, E, C(!new), R>(
    h: Handler<S, W, E, C, R>, via: Via<C>, cfg: Config<S, W, E, C, R>, inner: Stack<S, W, E, C, R>, w: W, p: Proc<S, W, E, C, R>)
    requires Clean(inner) && Lawful(via)
    ensures var r := Process(cfg, p);
            var (inner', out) := Distribute(via, inner, w, r.out);
            Execute(h, via, cfg, inner, w, [], p) == (Node(h, via, r.config, [], inner'), out)
            && Clean(inner') && Settled(out)
    decreases Depth(inner) + 1, 1, 0, p, 0
  {
    match p
    case Done(s) =>
    case Emit(c, next) =>
      ExecuteAlone(h, via, cfg, inner, w, [], next);
      assert [] + Distribute(via, inner, w, Process(cfg, next).out).1 == Distribute(via, inner, w, Process(cfg, next).out).1;
      assert ([Sent(c)] + Process(cfg, next).out)[1..] == Process(cfg, next).out;
    case Pass(x, next) =>
      LayersRunAlone(inner, w, x);
      var (inner', signals) := Receive(inner, w, x);
      ThroughSettles(via, signals);
      ExecuteAlone(h, via, cfg, inner', w, Through(via, signals), next);
      DistributePassed(via, inner, w, x, Process(cfg, next).out);
    case Block(c, k) =>
      var asked: seq<Signal<C>> := [Signal(c, HeldBy(CmdId(cfg.owner, cfg.serial)))];
      assert asked + [] == asked;
  }

  lemma {:induction false} ReplayAlone<S, W, E, C(!new), R>(node: Stack<S, W, E, C, R>, w: W)
    requires node.Node? && Clean(node)
    ensures var r := Drain(node.handler, w, node.config);
            var (inner', out) := Distribute(node.via, node.inner, w, r.out);
            ReplayQueue(node, w) == (Node(node.handler, node.via, r.config, [], inner'), out) && Clean(inner') && Settled(out)
    decreases Depth(node), 2, |node.config.queue|
  {
    var cfg := node.config;
    if cfg.phase.Waiting? || cfg.queue == [] {
    } else {
      var rest, p := cfg.(queue := cfg.queue[1..]), node.handler(cfg.phase.state, w, cfg.queue[0]);
      ProcessKeepsQueue(rest, p);
      ExecuteAlone(node.handler, node.via, rest, node.inner, w, [], p);
      var (node', out) := Execute(node.handler, node.via, rest, node.inner, w, [], p);
      var first, later := Process(rest, p).out, Drain(node.handler, w, node'.config).out;
      assert [] + Distribute(node.via, node.inner, w, first).1 == Distribute(node.via, node.inner, w, first).1;
      ReplayAlone(node', w);
      DistributeAppend(node.via, node.inner, w, first, later);
      assert Drain(node.handler, w, cfg).out == first + later;
    }
  }

  /** In a stack of any depth every layer behaves as it would alone, fed with what the layer
      around it passes inwards: nothing a child yields pauses a parent, and no command leaves
      the stack still marked as blocking. */
  lemma {:induction false} LayersRunAlone<S, W, E, C(!new), R>(stack: Stack<S, W, E, C, R>, w: W, x: Input<E, R>)
    requires Clean(stack)
    ensures Receive(stack, w, x) == Deliver(stack, w, x)
    ensures Clean(Receive(stack, w, x).0) && Settled(Receive(stack, w, x).1)
    decreases Depth(stack), 3
  {
    match stack
    case Bottom =>
    case Node(h, via, cfg, relay, inner) =>
      match cfg.phase
      case Idle(s) =>
        var p := Process(cfg, h(s, w, x));
        assert [] + p.out == p.out;
        ExecuteAlone(h, via, cfg, inner, w, [], h(s, w, x));
        assert [] + Distribute(via, inner, w, p.out).1 == Distribute(via, inner, w, p.out).1;
      case Waiting(id, k) =>
        if IsReply(cfg, x) {
          ExecuteAlone(h, via, cfg, inner, w, [], k(x.reply, w));
          var (node, out) := Execute(h, via, cfg, inner, w, relay, k(x.reply, w));
          var first, later := Process(cfg, k(x.reply, w)).out, Drain(h, w, node.config).out;
          assert [] + Distribute(via, inner, w, first).1 == Distribute(via, inner, w, first).1;
          ReplayAlone(node, w);
          DistributeAppend(via, inner, w, first, later);
          assert Step(h, w, cfg, x).out == first + later;
        }
  }

  // ----- replies on their way inwards -----

  function PassedBy<E, C, R>(out: seq<Out<E, C, R>>): (passed: seq<Input<E, R>>) {
    if out == [] then []
    else (if out[0].Passed? then [out[0].input] else []) + PassedBy(out[1..])
  }

  /** The trace of calls a layer makes to its child. */
  function ChildTrace<S, W, E, C, R>(h: Handler<S, W, E, C, R>, cfg: Config<S, W, E, C, R>, trace: seq<(W, Input<E, R>)>)
    : seq<(W, Input<E, R>)>
    decreases |trace|
  {
    if trace == [] then []
    else
      var r := Step(h, trace[0].0, cfg, trace[0].1);
      InWorld(trace[0].0, PassedBy(r.out)) + ChildTrace(h, r.config, trace[1..])
  }

  function InWorld<W, E, R>(w: W, xs: seq<Input<E, R>>): seq<(W, Input<E, R>)> {
    seq(|xs|, i requires 0 <= i < |xs| => (w, xs[i]))
  }

  function RunStack<S, W, E, C, R>(stack: Stack<S, W, E, C, R>, trace: seq<(W, Input<E, R>)>): Stack<S, W, E, C, R>
    decreases |trace|
  {
    if trace == [] then stack else RunStack(Receive(stack, trace[0].0, trace[0].1).0, trace[1..])
  }

  lemma {:induction false} RunStackAppend<S, W, E, C, R>(stack: Stack<S, W, E, C, R>, a: seq<(W, Input<E, R>)>, b: seq<(W, Input<E, R>)>)
    ensures RunStack(stack, a + b) == RunStack(RunStack(stack, a), b)
    decreases |a|
  {
    if a == [] {
      assert a + b == b;
    } else {
      assert (a + b)[1..] == a[1..] + b;
      RunStackAppend(Receive(stack, a[0].0, a[0].1).0, a[1..], b);
    }
  }

  lemma {:induction false} DistributeRuns<S, W, E, C(!new), R>(via: Via<C>, inner: Stack<S, W, E, C, R>, w: W, items: seq<Out<E, C, R>>)
    requires Clean(inner)
    ensures Distribute(via, inner, w, items).0 == RunStack(inner, InWorld(w, PassedBy(items)))
    ensures Clean(Distribute(via, inner, w, items).0)
    decreases |items|
  {
    if items == [] {
    } else if items[0].Passed? {
      var x := items[0].input;
      LayersRunAlone(inner, w, x);
      var inner' := Deliver(inner, w, x).0;
      DistributeRuns(via, inner', w, items[1..]);
      assert InWorld(w, PassedBy(items))[1..] == InWorld(w, PassedBy(items[1..]));
    } else {
      DistributeRuns(via, inner, w, items[1..]);
      assert PassedBy(items) == PassedBy(items[1..]);
    }
  }

  /** Over a whole run the outermost layer runs on the trace of the stack and the inner stack
      on the trace of calls the outermost layer makes. */
  lemma {:induction false} RunSplits<S, W, E, C(!new), R>(stack: Stack<S, W, E, C, R>, trace: seq<(W, Input<E, R>)>)
    requires stack.Node? && Clean(stack)
    ensures var calls := ChildTrace(stack.handler, stack.config, trace);
            RunStack(stack, trace)
              == Node(stack.handler, stack.via, Run(stack.handler, stack.config, trace).config, [], RunStack(stack.inner, calls))
    decreases |trace|
  {
    if trace == [] {
    } else {
      var w, x := trace[0].0, trace[0].1;
      LayersRunAlone(stack, w, x);
      var next := Receive(stack, w, x).0;
      var r := Step(stack.handler, w, stack.config, x);
      DistributeRuns(stack.via, stack.inner, w, r.out);
      RunSplits(next, trace[1..]);
      RunStackAppend(stack.inner, InWorld(w, PassedBy(r.out)), ChildTrace(stack.handler, r.config, trace[1..]));
    }
  }

  // A layer may consume inputs, make others of them and hold some back in its state. `keep` says which inputs a
  // statement is about, `backlog` which of them a state holds.

  type Chosen<!E, !R> = Input<E, R> -> bool

  function Kept<E, R>(keep: Chosen<E, R>, xs: seq<Input<E, R>>): seq<Input<E, R>> {
    if xs == [] then [] else (if keep(xs[0]) then [xs[0]] else []) + Kept(keep, xs[1..])
  }

  lemma {:induction false} KeptAppend<E, R>(keep: Chosen<E, R>, a: seq<Input<E, R>>, b: seq<Input<E, R>>)
    ensures Kept(keep, a + b) == Kept(keep, a) + Kept(keep, b)
    decreases |a|
  {
    if a == [] {
      assert a + b == b;
    } else {
      assert (a + b)[1..] == a[1..] + b;
      KeptAppend(keep, a[1..], b);
      Associative(if keep(a[0]) then [a[0]] else [], Kept(keep, a[1..]), Kept(keep, b));
    }
  }

  /** Of the inputs kept, the coroutine will pass exactly `xs`, in order, but for those that it leaves in the state. */
  greatest predicate Carries<S, W(!new), E, C, R(!new)>(
    p: Proc<S, W, E, C, R>, xs: seq<Input<E, R>>, keep: Chosen<E, R>, backlog: S -> seq<Input<E, R>>)
  {
    match p
    case Done(s) => xs == backlog(s)
    case Emit(_, next) => Carries(next, xs, keep, backlog)
    case Pass(x, next) =>
      if keep(x) then xs != [] && xs[0] == x && Carries(next, xs[1..], keep, backlog) else Carries(next, xs, keep, backlog)
    case Block(_, k) => forall r: R, w: W :: Carries(k(r, w), xs, keep, backlog)
  }

  /** Whatever else it does, the handler passes every kept input to the child once and in order, sooner or later. */
  ghost predicate Relays<S(!new), W(!new), E(!new), C, R(!new)>(
    h: Handler<S, W, E, C, R>, keep: Chosen<E, R>, backlog: S -> seq<Input<E, R>>)
  {
    forall s: S, w: W, x: Input<E, R> :: Carries(h(s, w, x), backlog(s) + Kept(keep, [x]), keep, backlog)
  }

  /** The layer's state or its paused coroutine still has `xs` to pass. */
  ghost predicate Owes<S, W(!new), E, C, R(!new)>(
    cfg: Config<S, W, E, C, R>, xs: seq<Input<E, R>>, keep: Chosen<E, R>, backlog: S -> seq<Input<E, R>>)
  {
    match cfg.phase
    case Idle(s) => xs == backlog(s)
    case Waiting(_, k) => forall r: R, w: W :: Carries(k(r, w), xs, keep, backlog)
  }

  lemma {:induction false} PassedByAppend<E, C, R>(a: seq<Out<E, C, R>>, b: seq<Out<E, C, R>>)
    ensures PassedBy(a + b) == PassedBy(a) + PassedBy(b)
  {
    if a == [] {
      assert a + b == b;
    } else {
      assert (a + b)[1..] == a[1..] + b;
      PassedByAppend(a[1..], b);
    }
  }

  lemma Regroup<T>(a: seq<T>, b: seq<T>, ab: seq<T>, c: seq<T>, d: seq<T>, e: seq<T>, f: seq<T>)
    requires a + b == ab && c + d + e == b + f
    ensures (a + c) + d + e == ab + f
  {
    assert (a + c) + d + e == a + (c + d + e);
    assert a + (b + f) == (a + b) + f;
  }

  lemma RegroupRun<T>(a: seq<T>, b: seq<T>, c: seq<T>, d: seq<T>, e: seq<T>, f: seq<T>, g: seq<T>, h: seq<T>, i: seq<T>, j: seq<T>)
    requires a + b + c == d + e + f && g + h + i == b + c + j
    ensures (a + g) + h + i == d + e + (f + j)
  {
    assert a + (b + c) == a + b + c;
    Regroup(a, b + c, d + e + f, g, h, i, j);
    assert d + e + f + j == d + e + (f + j);
  }

  lemma {:induction false} ProcessCarries<S, W(!new), E, C, R(!new)>(
    cfg: Config<S, W, E, C, R>, p: Proc<S, W, E, C, R>, xs: seq<Input<E, R>>, keep: Chosen<E, R>, backlog: S -> seq<Input<E, R>>)
    returns (owed: seq<Input<E, R>>)
    requires Carries(p, xs, keep, backlog)
    ensures var r := Process(cfg, p); Owes(r.config, owed, keep, backlog) && Kept(keep, PassedBy(r.out)) + owed == xs
    decreases p
  {
    match p
    case Done(_) =>
      owed := xs;
      assert [] + owed == xs;
    case Emit(c, next) =>
      owed := ProcessCarries(cfg, next, xs, keep, backlog);
      assert ([Sent(c)] + Process(cfg, next).out)[1..] == Process(cfg, next).out;
      assert PassedBy(Process(cfg, p).out) == PassedBy(Process(cfg, next).out);
    case Pass(x, next) =>
      owed := ProcessCarries(cfg, next, if keep(x) then xs[1..] else xs, keep, backlog);
      assert xs == (if keep(x) then [x] else []) + (if keep(x) then xs[1..] else xs);
      assert Kept(keep, [x]) == if keep(x) then [x] else [];
      assert ([Passed(x)] + Process(cfg, next).out)[1..] == Process(cfg, next).out;
      var more := PassedBy(Process(cfg, next).out);
      assert PassedBy(Process(cfg, p).out) == [x] + more;
      KeptAppend(keep, [x], more);
      Associative(Kept(keep, [x]), Kept(keep, more), owed);
    case Block(_, _) => owed := xs;
  }

  lemma {:induction false} DrainCarries<S(!new), W(!new), E(!new), C, R(!new)>(
    h: Handler<S, W, E, C, R>, w: W, cfg: Config<S, W, E, C, R>, had: seq<Input<E, R>>, keep: Chosen<E, R>, backlog: S -> seq<Input<E, R>>)
    returns (owed: seq<Input<E, R>>)
    requires Relays(h, keep, backlog) && Owes(cfg, had, keep, backlog)
    ensures var r := Drain(h, w, cfg);
            Owes(r.config, owed, keep, backlog)
            && Kept(keep, PassedBy(r.out)) + owed + Kept(keep, r.config.queue) == had + Kept(keep, cfg.queue)
    decreases |cfg.queue|
  {
    if cfg.phase.Waiting? || cfg.queue == [] {
      owed := had;
    } else {
      var rest, p := cfg.(queue := cfg.queue[1..]), h(cfg.phase.state, w, cfg.queue[0]);
      ProcessKeepsQueue(rest, p);
      var mid := ProcessCarries(rest, p, had + Kept(keep, [cfg.queue[0]]), keep, backlog);
      var r := Process(rest, p);
      owed := DrainCarries(h, w, r.config, mid, keep, backlog);
      var d := Drain(h, w, r.config);
      PassedByAppend(r.out, d.out);
      KeptAppend(keep, PassedBy(r.out), PassedBy(d.out));
      Regroup(Kept(keep, PassedBy(r.out)), mid, had + Kept(keep, [cfg.queue[0]]), Kept(keep, PassedBy(d.out)), owed,
              Kept(keep, d.config.queue), Kept(keep, rest.queue));
      assert cfg.queue == [cfg.queue[0]] + rest.queue;
      KeptAppend(keep, [cfg.queue[0]], rest.queue);
      Associative(had, Kept(keep, [cfg.queue[0]]), Kept(keep, rest.queue));
    }
  }

  lemma StepCarries<S(!new), W(!new), E(!new), C, R(!new)>(
    h: Handler<S, W, E, C, R>, w: W, cfg: Config<S, W, E, C, R>, x: Input<E, R>, had: seq<Input<E, R>>,
    keep: Chosen<E, R>, backlog: S -> seq<Input<E, R>>)
    returns (owed: seq<Input<E, R>>)
    requires Relays(h, keep, backlog) && Quiet(cfg) && Owes(cfg, had, keep, backlog)
    ensures var r := Step(h, w, cfg, x);
            Owes(r.config, owed, keep, backlog)
            && Kept(keep, PassedBy(r.out)) + owed + Kept(keep, r.config.queue)
            == had + Kept(keep, cfg.queue) + Kept(keep, if IsReply(cfg, x) then [] else [x])
  {
    match cfg.phase
    case Idle(s) =>
      ProcessKeepsQueue(cfg, h(s, w, x));
      owed := ProcessCarries(cfg, h(s, w, x), had + Kept(keep, [x]), keep, backlog);
      assert [] + Process(cfg, h(s, w, x)).out == Process(cfg, h(s, w, x)).out;
    case Waiting(id, k) =>
      if IsReply(cfg, x) {
        var p := k(x.reply, w);
        ProcessKeepsQueue(cfg, p);
        var mid := ProcessCarries(cfg, p, had, keep, backlog);
        var r := Process(cfg, p);
        owed := DrainCarries(h, w, r.config, mid, keep, backlog);
        var d := Drain(h, w, r.config);
        PassedByAppend(r.out, d.out);
        KeptAppend(keep, PassedBy(r.out), PassedBy(d.out));
        Regroup(Kept(keep, PassedBy(r.out)), mid, had, Kept(keep, PassedBy(d.out)), owed, Kept(keep, d.config.queue), Kept(keep, cfg.queue));
      } else {
        owed := had;
        KeptAppend(keep, cfg.queue, [x]);
        Associative(had, Kept(keep, cfg.queue), Kept(keep, [x]));
      }
  }

  function Inputs<W, E, R>(trace: seq<(W, Input<E, R>)>): seq<Input<E, R>> {
    seq(|trace|, i requires 0 <= i < |trace| => trace[i].1)
  }

  lemma InputsOfCalls<W, E, R>(w: W, xs: seq<Input<E, R>>, rest: seq<(W, Input<E, R>)>)
    ensures Inputs(InWorld(w, xs) + rest) == xs + Inputs(rest)
  {
  }

  /** A relaying layer loses, repeats and reorders nothing of what is kept: what it has passed, what its state or its
      paused coroutine still has to pass and what it has buffered make up the accepted inputs. */
  lemma {:induction false} RelaysInOrder<S(!new), W(!new), E(!new), C, R(!new)>(
    h: Handler<S, W, E, C, R>, cfg: Config<S, W, E, C, R>, trace: seq<(W, Input<E, R>)>, had: seq<Input<E, R>>,
    keep: Chosen<E, R>, backlog: S -> seq<Input<E, R>>)
    returns (owed: seq<Input<E, R>>)
    requires Relays(h, keep, backlog) && Quiet(cfg) && Owes(cfg, had, keep, backlog)
    ensures var end := Run(h, cfg, trace).config;
            Quiet(end) && Owes(end, owed, keep, backlog)
            && Kept(keep, Inputs(ChildTrace(h, cfg, trace))) + owed + Kept(keep, end.queue)
            == had + Kept(keep, cfg.queue) + Kept(keep, Accepted(h, cfg, trace))
    decreases |trace|
  {
    if trace == [] {
      owed := had;
    } else {
      var w, x := trace[0].0, trace[0].1;
      StepFifo(h, w, cfg, x);
      var mid := StepCarries(h, w, cfg, x, had, keep, backlog);
      var r := Step(h, w, cfg, x);
      owed := RelaysInOrder(h, r.config, trace[1..], mid, keep, backlog);
      var calls, end := ChildTrace(h, r.config, trace[1..]), Run(h, cfg, trace).config;
      var accepted := Accepted(h, r.config, trace[1..]);
      var own: seq<Input<E, R>> := if IsReply(cfg, x) then [] else [x];
      assert Accepted(h, cfg, trace) == own + accepted;
      InputsOfCalls(w, PassedBy(r.out), calls);
      KeptAppend(keep, PassedBy(r.out), Inputs(calls));
      KeptAppend(keep, own, accepted);
      RegroupRun(Kept(keep, PassedBy(r.out)), mid, Kept(keep, r.config.queue), had, Kept(keep, cfg.queue), Kept(keep, own),
                 Kept(keep, Inputs(calls)), owed, Kept(keep, end.queue), Kept(keep, accepted));
    }
  }

  // ----- layers that pass on everything -----

  function Everything<E, R>(): Chosen<E, R> {
    (x: Input<E, R>) => true
  }

  lemma {:induction false} KeptEverything<E, R>(xs: seq<Input<E, R>>)
    ensures Kept(Everything(), xs) == xs
    decreases |xs|
  {
    if xs != [] {
      KeptEverything(xs[1..]);
    }
  }

  function KeptOf<S, E, R>(keep: Chosen<E, R>, backlog: S -> seq<Input<E, R>>): S -> seq<Input<E, R>> {
    (s: S) => Kept(keep, backlog(s))
  }

  greatest lemma CarriesLess<S, W(!new), E, C, R(!new)>(
    p: Proc<S, W, E, C, R>, xs: seq<Input<E, R>>, keep: Chosen<E, R>, backlog: S -> seq<Input<E, R>>)
    requires Carries(p, xs, Everything(), backlog)
    ensures Carries(p, Kept(keep, xs), keep, KeptOf(keep, backlog))
  {
    match p
    case Done(_) =>
    case Emit(_, next) => CarriesLess(next, xs, keep, backlog);
    case Pass(x, next) =>
      CarriesLess(next, xs[1..], keep, backlog);
      var rest := Kept(keep, xs[1..]);
      assert Kept(keep, xs) == (if keep(x) then [x] else []) + rest;
      assert ([x] + rest)[1..] == rest && [] + rest == rest;
    case Block(_, k) =>
      forall r: R, w: W {
        CarriesLess(k(r, w), xs, keep, backlog);
      }
  }

  /** A layer that relays everything relays whatever one keeps of it. */
  lemma RelaysLess<S(!new), W(!new), E(!new), C, R(!new)>(
    h: Handler<S, W, E, C, R>, keep: Chosen<E, R>, backlog: S -> seq<Input<E, R>>)
    requires Relays(h, Everything(), backlog)
    ensures Relays(h, keep, KeptOf(keep, backlog))
  {
    forall s: S, w: W, x: Input<E, R>
      ensures Carries(h(s, w, x), KeptOf(keep, backlog)(s) + Kept(keep, [x]), keep, KeptOf(keep, backlog))
    {
      KeptEverything([x]);
      assert Carries(h(s, w, x), backlog(s) + Kept(Everything(), [x]), Everything(), backlog);
      CarriesLess(h(s, w, x), backlog(s) + [x], keep, backlog);
      KeptAppend(keep, backlog(s), [x]);
    }
  }

  /** How often a reply to `id` occurs. */
  function Count<E, R>(id: CmdId, xs: seq<Input<E, R>>): nat {
    if xs == [] then 0
    else (if xs[0].Completed? && xs[0].id == id then 1 else 0) + Count(id, xs[1..])
  }

  lemma {:induction false} CountAppend<E, R>(id: CmdId, a: seq<Input<E, R>>, b: seq<Input<E, R>>)
    ensures Count(id, a + b) == Count(id, a) + Count(id, b)
    decreases |a|
  {
    if a == [] {
      assert a + b == b;
    } else {
      assert (a + b)[1..] == a[1..] + b;
      CountAppend(id, a[1..], b);
    }
  }

  /** A paused layer waits for a command of its own. */
  ghost predicate WellNumbered<S, W, E, C, R>(cfg: Config<S, W, E, C, R>) {
    cfg.phase.Waiting? ==> cfg.phase.id.owner == cfg.owner && cfg.phase.id.serial < cfg.serial
  }

  lemma {:induction false} DrainNumbers<S, W, E, C, R>(h: Handler<S, W, E, C, R>, w: W, cfg: Config<S, W, E, C, R>)
    requires WellNumbered(cfg)
    ensures var c := Drain(h, w, cfg).config;
            WellNumbered(c) && c.owner == cfg.owner && cfg.serial <= c.serial
            && (c.phase.Waiting? ==> c.phase == cfg.phase || cfg.serial <= c.phase.id.serial)
    decreases |cfg.queue|
  {
    if cfg.phase.Waiting? || cfg.queue == [] {
    } else {
      var rest, p := cfg.(queue := cfg.queue[1..]), h(cfg.phase.state, w, cfg.queue[0]);
      ProcessKeepsQueue(rest, p);
      DrainNumbers(h, w, Process(rest, p).config);
    }
  }

  lemma StepNumbers<S, W, E, C, R>(h: Handler<S, W, E, C, R>, w: W, cfg: Config<S, W, E, C, R>, x: Input<E, R>)
    requires WellNumbered(cfg)
    ensures var c := Step(h, w, cfg, x).config;
            WellNumbered(c) && c.owner == cfg.owner && cfg.serial <= c.serial
            && (c.phase.Waiting? ==> (c.phase == cfg.phase && !IsReply(cfg, x)) || cfg.serial <= c.phase.id.serial)
  {
    match cfg.phase
    case Idle(s) => ProcessKeepsQueue(cfg, h(s, w, x));
    case Waiting(id, k) =>
      if IsReply(cfg, x) {
        ProcessKeepsQueue(cfg, k(x.reply, w));
        DrainNumbers(h, w, Process(cfg, k(x.reply, w)).config);
      }
  }

  lemma {:induction false} OthersAccept<S, W, E, C, R>(id: CmdId, h: Handler<S, W, E, C, R>, cfg: Config<S, W, E, C, R>, trace: seq<(W, Input<E, R>)>)
    requires WellNumbered(cfg) && cfg.owner != id.owner
    ensures Count(id, Accepted(h, cfg, trace)) == Count(id, Inputs(trace))
    decreases |trace|
  {
    if trace == [] {
    } else {
      var w, x := trace[0].0, trace[0].1;
      StepNumbers(h, w, cfg, x);
      OthersAccept(id, h, Step(h, w, cfg, x).config, trace[1..]);
      assert Inputs(trace)[1..] == Inputs(trace[1..]);
      CountAppend(id, if IsReply(cfg, x) then [] else [x], Accepted(h, Step(h, w, cfg, x).config, trace[1..]));
    }
  }

  /** The replies that resumed the layer during a run. */
  function Resumed<S, W, E, C, R>(h: Handler<S, W, E, C, R>, cfg: Config<S, W, E, C, R>, trace: seq<(W, Input<E, R>)>): seq<CmdId>
    decreases |trace|
  {
    if trace == [] then []
    else
      (if IsReply(cfg, trace[0].1) then [trace[0].1.id] else [])
      + Resumed(h, Step(h, trace[0].0, cfg, trace[0].1).config, trace[1..])
  }

  /** No command ever resumes its layer twice. */
  lemma {:induction false} NeverResumedTwice<S, W, E, C, R>(h: Handler<S, W, E, C, R>, cfg: Config<S, W, E, C, R>, trace: seq<(W, Input<E, R>)>)
    requires WellNumbered(cfg)
    ensures forall id :: id in Resumed(h, cfg, trace) ==>
              id.owner == cfg.owner && multiset(Resumed(h, cfg, trace))[id] == 1
              && ((cfg.phase.Waiting? && id == cfg.phase.id) || cfg.serial <= id.serial)
    decreases |trace|
  {
    if trace == [] {
    } else {
      var w, x := trace[0].0, trace[0].1;
      StepNumbers(h, w, cfg, x);
      NeverResumedTwice(h, Step(h, w, cfg, x).config, trace[1..]);
    }
  }

  /** A paused layer yields nothing and only buffers until its reply comes, and then resumes. */
  lemma {:induction false} WaitsForItsReply<S, W, E, C, R>(h: Handler<S, W, E, C, R>, cfg: Config<S, W, E, C, R>, trace: seq<(W, Input<E, R>)>)
    requires cfg.phase.Waiting?
    ensures Count(cfg.phase.id, Inputs(trace)) == 0 ==>
              Run(h, cfg, trace) == Result(cfg.(queue := cfg.queue + Inputs(trace)), [], [])
    ensures Count(cfg.phase.id, Inputs(trace)) > 0 ==> cfg.phase.id in Resumed(h, cfg, trace)
    decreases |trace|
  {
    if trace == [] {
      assert cfg.queue + Inputs(trace) == cfg.queue;
    } else {
      var w, x := trace[0].0, trace[0].1;
      assert Inputs(trace)[1..] == Inputs(trace[1..]);
      if !IsReply(cfg, x) {
        WaitsForItsReply(h, cfg.(queue := cfg.queue + [x]), trace[1..]);
        assert cfg.queue + Inputs(trace) == cfg.queue + [x] + Inputs(trace[1..]);
      }
    }
  }

  function At<S, W, E, C, R>(stack: Stack<S, W, E, C, R>, depth: nat): Stack<S, W, E, C, R> {
    if depth == 0 || stack.Bottom? then stack else At(stack.inner, depth - 1)
  }

  /** The trace of calls that reaches the layer at a depth. */
  function TraceAt<S, W, E, C, R>(stack: Stack<S, W, E, C, R>, depth: nat, trace: seq<(W, Input<E, R>)>): seq<(W, Input<E, R>)>
    decreases depth
  {
    if depth == 0 || stack.Bottom? then trace
    else TraceAt(stack.inner, depth - 1, ChildTrace(stack.handler, stack.config, trace))
  }

  function RepliesTo<E, R>(id: CmdId): Chosen<E, R> {
    (x: Input<E, R>) => x.Completed? && x.id == id
  }

  lemma {:induction false} CountKept<E, R>(id: CmdId, xs: seq<Input<E, R>>)
    ensures Count(id, xs) == |Kept(RepliesTo(id), xs)|
    decreases |xs|
  {
    if xs != [] {
      CountKept(id, xs[1..]);
    }
  }

  /** Every layer around `depth` relays replies to `id` or holds them back for a while; some may be paused and
      may hold buffered inputs, but none has yet seen such a reply. */
  ghost predicate Around<S(!new), W(!new), E(!new), C, R(!new)>(
    stack: Stack<S, W, E, C, R>, depth: nat, id: CmdId, backlog: S -> seq<Input<E, R>>)
  {
    depth == 0 ||
    (stack.Node? && Relays(stack.handler, RepliesTo(id), backlog) && Quiet(stack.config) && WellNumbered(stack.config)
     && stack.config.owner != id.owner && Count(id, stack.config.queue) == 0 && Owes(stack.config, [], RepliesTo(id), backlog)
     && Around(stack.inner, depth - 1, id, backlog))
  }

  /** No layer around `depth` is paused or holds anything back. */
  ghost predicate AtRest<S, W, E, C, R>(stack: Stack<S, W, E, C, R>, depth: nat, backlog: S -> seq<Input<E, R>>) {
    depth == 0 ||
    (stack.Node? && stack.config.phase.Idle? && backlog(stack.config.phase.state) == [] && AtRest(stack.inner, depth - 1, backlog))
  }

  /** The replies that resumed the layer at a depth. */
  function ResumedAt<S, W, E, C, R>(stack: Stack<S, W, E, C, R>, depth: nat, trace: seq<(W, Input<E, R>)>): seq<CmdId> {
    var layer := At(stack, depth);
    if layer.Bottom? then [] else Resumed(layer.handler, layer.config, TraceAt(stack, depth, trace))
  }

  /** One layer: replies to a foreign command are passed at most once each, and all of them once nothing is held back. */
  lemma PassedOn<S(!new), W(!new), E(!new), C, R(!new)>(
    id: CmdId, h: Handler<S, W, E, C, R>, cfg: Config<S, W, E, C, R>, trace: seq<(W, Input<E, R>)>, backlog: S -> seq<Input<E, R>>)
    requires Relays(h, RepliesTo(id), backlog) && Quiet(cfg) && WellNumbered(cfg) && cfg.owner != id.owner
    requires Count(id, cfg.queue) == 0 && Owes(cfg, [], RepliesTo(id), backlog)
    ensures var passed := Count(id, Inputs(ChildTrace(h, cfg, trace)));
            var end := Run(h, cfg, trace).config;
            passed <= Count(id, Inputs(trace))
            && (end.phase.Idle? && backlog(end.phase.state) == [] ==> passed == Count(id, Inputs(trace)))
  {
    var keep: Chosen<E, R> := RepliesTo(id);
    var owed := RelaysInOrder(h, cfg, trace, [], keep, backlog);
    var passed, queue := Inputs(ChildTrace(h, cfg, trace)), Run(h, cfg, trace).config.queue;
    OthersAccept(id, h, cfg, trace);
    CountKept(id, passed);
    CountKept(id, queue);
    CountKept(id, cfg.queue);
    CountKept(id, Accepted(h, cfg, trace));
  }

  /** On its way inwards a reply is neither lost nor repeated, and no layer around its owner
      takes it for its own: it has arrived, or some layer around the owner is paused or holds it back. */
  lemma {:induction false} ReplyTravelsInwards<S(!new), W(!new), E(!new), C(!new), R(!new)>(
    stack: Stack<S, W, E, C, R>, depth: nat, id: CmdId, trace: seq<(W, Input<E, R>)>, backlog: S -> seq<Input<E, R>>)
    requires Clean(stack) && Around(stack, depth, id, backlog)
    ensures var arrived := Count(id, Inputs(TraceAt(stack, depth, trace)));
            arrived <= Count(id, Inputs(trace))
            && (AtRest(RunStack(stack, trace), depth, backlog) ==> arrived == Count(id, Inputs(trace)))
    ensures forall j :: 0 <= j < depth ==>
              id !in ResumedAt(stack, j, trace)
    decreases depth
  {
    if depth == 0 {
    } else {
      var calls := ChildTrace(stack.handler, stack.config, trace);
      PassedOn(id, stack.handler, stack.config, trace, backlog);
      RunSplits(stack, trace);
      ReplyTravelsInwards(stack.inner, depth - 1, id, calls, backlog);
      NeverResumedTwice(stack.handler, stack.config, trace);
      forall j | 0 <= j < depth
        ensures id !in ResumedAt(stack, j, trace)
      {
        if j > 0 {
          assert ResumedAt(stack, j, trace) == ResumedAt(stack.inner, j - 1, calls);
        }
      }
    }
  }

  /** A reply given once to the stack resumes the layer that asked, never twice and at latest
      when the layers around it are at rest, and it resumes no layer around it. */
  lemma ReplyResumesAskerOnce<S(!new), W(!new), E(!new), C(!new), R(!new)>(
    stack: Stack<S, W, E, C, R>, depth: nat, id: CmdId, trace: seq<(W, Input<E, R>)>, backlog: S -> seq<Input<E, R>>)
    requires Clean(stack) && Around(stack, depth, id, backlog)
    requires var asker := At(stack, depth);
             asker.Node? && asker.config.phase.Waiting? && asker.config.phase.id == id && WellNumbered(asker.config)
    requires Count(id, Inputs(trace)) == 1
    ensures var asker := At(stack, depth);
            var resumed := multiset(Resumed(asker.handler, asker.config, TraceAt(stack, depth, trace)));
            resumed[id] <= 1 && (AtRest(RunStack(stack, trace), depth, backlog) ==> resumed[id] == 1)
    ensures forall j :: 0 <= j < depth ==>
              id !in ResumedAt(stack, j, trace)
  {
    var asker := At(stack, depth);
    ReplyTravelsInwards(stack, depth, id, trace, backlog);
    NeverResumedTwice(asker.handler, asker.config, TraceAt(stack, depth, trace));
    WaitsForItsReply(asker.handler, asker.config, TraceAt(stack, depth, trace));
  }
}
