/** What every run of the TCP layer guarantees (mitmproxy/proxy/layers/tcp.py). */
module TcpRuns {
  import opened ByteStrings
  import opened Layers
  import opened Options
  import opened TcpInvariants
  import opened TcpLayers

  /** With the flow kept, in every run: message hooks are asked for the data of each side in
      arrival order, and what is sent to the other side is exactly what the completed hooks
      made of that data, in that order. */
  lemma RelaysWhatHooksLeave(owner: nat, trace: TcpTrace, side: Side)
    requires Expected(EventsOf(owner, false, trace))
    ensures var past := PastOf(owner, false, trace);
            Hooked(side, Asks(past.out)) <= ArrivedFrom(side, EventsOf(owner, false, trace))
            && SentTo(Other(side), past.out) == HookModified(side, Asks(past.out), past.answers)
  {
    var r, past := RunOf(owner, false, trace), PastOf(owner, false, trace);
    Always(owner, false, trace);
    StartsInArrivalOrder(TheHandler(), NewLayer(owner, false), trace);
    ArrivedAppend(side, past.seen, r.config.queue);
    assert [] + EventsOf(owner, false, trace) == EventsOf(owner, false, trace);
  }

  /** Without a flow the bytes sent to each side are, in order, a prefix of those from the other. */
  lemma RelaysUnchanged(owner: nat, trace: TcpTrace, side: Side)
    requires Expected(EventsOf(owner, true, trace))
    ensures SentTo(Other(side), RunOf(owner, true, trace).out) <= ArrivedFrom(side, EventsOf(owner, true, trace))
  {
    var r, past := RunOf(owner, true, trace), PastOf(owner, true, trace);
    Always(owner, true, trace);
    StartsInArrivalOrder(TheHandler(), NewLayer(owner, true), trace);
    ArrivedAppend(side, past.seen, r.config.queue);
    assert [] + EventsOf(owner, true, trace) == EventsOf(owner, true, trace);
  }

  /** A flow gets tcp_error or tcp_end, but never both and neither twice. */
  lemma OneVerdict(owner: nat, ignore: bool, trace: TcpTrace)
    requires Expected(EventsOf(owner, ignore, trace))
    ensures |Verdicts(RunOf(owner, ignore, trace).out)| <= 1
  {
    Always(owner, ignore, trace);
  }

  ghost predicate EndsClosed(out: seq<TcpOut>, w: World) {
    forall o :: o in out && o.Asked? && o.cmd == TcpEnd ==> !Readable(w)
  }

  lemma EventEnds(cfg: TcpConfig, w: World, s: State, x: TcpInput)
    ensures EndsClosed(Process(cfg, HandleEvent(s, w, x)).out, w)
  {
    if s.mode == Relaying && x.Event? && x.event.ConnectionClosed? && Readable(w) {
      var done: TcpProc := Done(s);
      assert Process(cfg, done).out == [];
    } else if s.mode == Relaying && x.Event? && (x.event.DataReceived? || x.event.MessageInjected?) {
      var done: TcpProc := Done(s);
      assert Process(cfg, done).out == [];
    } else if s.mode == Starting && x == Event(Start) {
      assert s.flow.Some? ==> StartLayer(s, w) == Suspend(TcpStart, AtStartHook(s));
      assert !w.serverStarted ==> OpenServer(s, w) == Suspend(Open, AtOpen(s));
    }
  }

  lemma ResumeEnds(cfg: TcpConfig, w: World, point: Point, r: Reply)
    ensures EndsClosed(Process(cfg, Resume(point, r, w)).out, w)
  {
    var p := Resume(point, r, w);
    match point
    case AtStartHook(s) =>
      assert !w.serverStarted ==> OpenServer(s, w) == Suspend(Open, AtOpen(s));
    case AtOpen(s) =>
      if r.Opened? && r.error && s.flow.Some? {
        assert p == Suspend(TcpError, AtErrorHook(s.(flow := Some(s.flow.value.(error := true)))));
      } else if r.Opened? && r.error {
        assert Process(cfg, p.next).out == [];
      }
    case AtEndHook(_) =>
    case _ =>
      assert Process(cfg, p.next).out == [];
  }

  lemma {:induction false} DrainEnds(cfg: TcpConfig, w: World)
    ensures EndsClosed(Drain(TheHandler(), w, cfg).out, w)
    decreases |cfg.queue|
  {
    if cfg.phase.Idle? && cfg.queue != [] {
      var rest := cfg.(queue := cfg.queue[1..]);
      ProcessKeepsQueue(rest, HandleEvent(cfg.phase.state, w, cfg.queue[0]));
      EventEnds(rest, w, cfg.phase.state, cfg.queue[0]);
      DrainEnds(Process(rest, HandleEvent(cfg.phase.state, w, cfg.queue[0])).config, w);
    }
  }

  /** tcp_end is yielded only by a call in which neither side can be read any more. */
  lemma EndsOnlyWhenUnreadable(owner: nat, ignore: bool, trace: TcpTrace, i: nat) returns (n: nat)
    requires Expected(EventsOf(owner, ignore, trace))
    requires i < |RunOf(owner, ignore, trace).out|
    requires var o := RunOf(owner, ignore, trace).out[i]; o.Asked? && o.cmd == TcpEnd
    ensures n < |trace| && !Readable(trace[n].0)
    ensures |RunOf(owner, ignore, trace[..n]).out| <= i < |RunOf(owner, ignore, trace[..n + 1]).out|
  {
    n := YieldedBy(TheHandler(), NewLayer(owner, ignore), trace, i);
    var w, x := trace[n].0, trace[n].1;
    assert trace == trace[..n] + trace[n..];
    InputsAppend(TheHandler(), NewLayer(owner, ignore), trace[..n], trace[n..]);
    ExpectedPrefix(EventsOf(owner, ignore, trace[..n]), Accepted(TheHandler(), RunOf(owner, ignore, trace[..n]).config, trace[n..]));
    Always(owner, ignore, trace[..n]);
    var cfg := RunOf(owner, ignore, trace[..n]).config;
    match cfg.phase
    case Idle(s) => EventEnds(cfg, w, s, x);
    case Waiting(id, k) =>
      if IsReply(cfg, x) {
        var point :| GoodPoint(point, PastOf(owner, ignore, trace[..n])) && forall r, w' :: k(r, w') == Resume(point, r, w');
        ResumeEnds(cfg, w, point, x.reply);
        DrainEnds(Process(cfg, k(x.reply, w)).config, w);
      }
  }
}
