/** Why a run of the TCP layer relays faithfully (mitmproxy/proxy/layers/tcp.py): the invariant that
    ties what has been handled, asked, answered and sent to the state of the layer, and its proof.

    `Good` is kept by every event and every reply, at whatever point the coroutine was left; each
    lemma below follows one branch of the source. A coroutine at rest satisfies `GoodIdle`, one that
    waits for a hook or a connection satisfies `GoodPoint` for the point it will be resumed at. */
module TcpInvariants {
  import opened ByteStrings
  import opened Layers
  import opened Options
  import opened Seqs
  import opened TcpLayers

  lemma {:induction false} ArrivedAppend(side: Side, a: seq<TcpInput>, b: seq<TcpInput>)
    ensures ArrivedFrom(side, a + b) == ArrivedFrom(side, a) + ArrivedFrom(side, b)
    decreases |a|
  {
    if a == [] {
      assert a + b == b;
    } else {
      assert (a + b)[1..] == a[1..] + b;
      ArrivedAppend(side, a[1..], b);
    }
  }

  lemma {:induction false} SentToAppend(side: Side, a: seq<TcpOut>, b: seq<TcpOut>)
    ensures SentTo(side, a + b) == SentTo(side, a) + SentTo(side, b)
    decreases |a|
  {
    if a == [] {
      assert a + b == b;
    } else {
      assert (a + b)[1..] == a[1..] + b;
      SentToAppend(side, a[1..], b);
    }
  }

  lemma {:induction false} VerdictsAppend(a: seq<TcpOut>, b: seq<TcpOut>)
    ensures Verdicts(a + b) == Verdicts(a) + Verdicts(b)
    decreases |a|
  {
    if a == [] {
      assert a + b == b;
    } else {
      assert (a + b)[1..] == a[1..] + b;
      VerdictsAppend(a[1..], b);
      Associative(if a[0].Asked? && (a[0].cmd == TcpError || a[0].cmd == TcpEnd) then [a[0].cmd] else [], Verdicts(a[1..]), Verdicts(b));
    }
  }

  lemma {:induction false} AsksAppend(a: seq<TcpOut>, b: seq<TcpOut>)
    ensures Asks(a + b) == Asks(a) + Asks(b)
    decreases |a|
  {
    if a == [] {
      assert a + b == b;
    } else {
      assert (a + b)[1..] == a[1..] + b;
      AsksAppend(a[1..], b);
      Associative(if a[0].Asked? then [a[0].cmd] else [], Asks(a[1..]), Asks(b));
    }
  }

  lemma OutputAppend(side: Side, a: seq<TcpOut>, b: seq<TcpOut>)
    ensures SentTo(side, a + b) == SentTo(side, a) + SentTo(side, b)
    ensures Verdicts(a + b) == Verdicts(a) + Verdicts(b)
    ensures Asks(a + b) == Asks(a) + Asks(b)
  {
    SentToAppend(side, a, b);
    VerdictsAppend(a, b);
    AsksAppend(a, b);
  }

  lemma {:induction false} FromAppend(side: Side, a: seq<Message>, b: seq<Message>)
    ensures From(side, a + b) == From(side, a) + From(side, b)
    decreases |a|
  {
    if a == [] {
      assert a + b == b;
    } else {
      assert (a + b)[1..] == a[1..] + b;
      FromAppend(side, a[1..], b);
      Associative(if a[0].from == side then [a[0]] else [], From(side, a[1..]), From(side, b));
    }
  }

  lemma {:induction false} HookedAppend(side: Side, a: seq<Command>, c: Command)
    ensures Hooked(side, a + [c]) == Hooked(side, a) + (if c.TcpMessage? && c.message.from == side then [c.message.content] else [])
    decreases |a|
  {
    if a == [] {
      assert a + [c] == [c];
    } else {
      assert (a + [c])[1..] == a[1..] + [c];
      HookedAppend(side, a[1..], c);
    }
  }

  lemma {:induction false} AskingModifiesNothing(side: Side, asks: seq<Command>, c: Command, answers: seq<Reply>)
    requires |answers| <= |asks|
    ensures HookModified(side, asks + [c], answers) == HookModified(side, asks, answers)
    decreases |asks|
  {
    if asks == [] {
    } else if answers != [] {
      assert (asks + [c])[1..] == asks[1..] + [c];
      AskingModifiesNothing(side, asks[1..], c, answers[1..]);
    }
  }

  lemma {:induction false} AnswerModifies(side: Side, asks: seq<Command>, answers: seq<Reply>, r: Reply)
    requires |asks| == |answers| + 1
    ensures var last := asks[|answers|];
            HookModified(side, asks, answers + [r])
            == HookModified(side, asks, answers)
               + (if last.TcpMessage? && last.message.from == side then [Edited(last.message, r)] else [])
    decreases |asks|
  {
    if answers != [] {
      assert (answers + [r])[1..] == answers[1..] + [r] && (answers + [r])[0] == answers[0];
      AnswerModifies(side, asks[1..], answers[1..], r);
      var last := asks[|answers|];
      Associative(if asks[0].TcpMessage? && asks[0].message.from == side then [Edited(asks[0].message, answers[0])] else [],
                  HookModified(side, asks[1..], answers[1..]),
                  if last.TcpMessage? && last.message.from == side then [Edited(last.message, r)] else []);
    } else {
      var one := answers + [r];
      assert one == [r] && one[1..] == [];
      assert HookModified(side, asks[1..], one[1..]) == [];
    }
  }

  /** The messages on record, if the layer keeps a flow. */
  function Record(s: State): Option<seq<Message>> {
    if s.flow.None? then None else Some(s.flow.value.messages)
  }

  function Yielding(past: Past, o: TcpOut): Past {
    past.(out := past.out + [o])
  }

  /** The data taken up from one side. */
  ghost function Taken(record: Option<seq<Message>>, side: Side, out: seq<TcpOut>): seq<Bytes> {
    if record.None? then SentTo(Other(side), out) else Hooked(side, Asks(out))
  }

  /** What was sent on is what the completed hooks made of it, and what the record says. */
  ghost predicate SentAsModified(record: Option<seq<Message>>, side: Side, past: Past) {
    record.Some? ==>
      SentTo(Other(side), past.out) == HookModified(side, Asks(past.out), past.answers) == Contents(From(side, record.value))
  }

  ghost predicate SideOk(record: Option<seq<Message>>, side: Side, past: Past, exact: bool) {
    var taken, arrived := Taken(record, side, past.out), ArrivedFrom(side, past.seen);
    SentAsModified(record, side, past) && taken <= arrived && (exact ==> taken == arrived)
  }

  ghost predicate DataOk(record: Option<seq<Message>>, past: Past, exact: bool) {
    SideOk(record, Client, past, exact) && SideOk(record, Server, past, exact)
  }

  ghost predicate GoodIdle(s: State, past: Past) {
    && |Asks(past.out)| == |past.answers| && (s.flow.None? <==> past.ignored)
    && (s.mode == Starting <==> past.seen == [])
    && DataOk(Record(s), past, s.mode != Finished)
    && (if s.mode == Finished then |Verdicts(past.out)| <= 1 else Verdicts(past.out) == [])
  }

  ghost predicate GoodPoint(point: Point, past: Past) {
    && past.seen != [] && |Asks(past.out)| == |past.answers| + 1 && (point.s.flow.None? <==> past.ignored)
    && DataOk(Record(point.s), past, point.AtStartHook? || point.AtOpen? || point.AtMessageHook?)
    && var asked := Asks(past.out)[|past.answers|];
       match point
       case AtStartHook(s) => s.mode == Starting && Verdicts(past.out) == [] && !asked.TcpMessage?
       case AtOpen(s) => s.mode == Starting && Verdicts(past.out) == [] && !asked.TcpMessage?
       case AtErrorHook(s) => |Verdicts(past.out)| <= 1 && !asked.TcpMessage?
       case AtEndHook(s) => s.mode == Finished && |Verdicts(past.out)| <= 1 && !asked.TcpMessage?
       case AtMessageHook(s, m) => s.mode == Relaying && s.flow.Some? && Verdicts(past.out) == [] && asked == TcpMessage(m)
  }

  ghost predicate Good(cfg: TcpConfig, past: Past) {
    match cfg.phase
    case Idle(s) => GoodIdle(s, past)
    case Waiting(_, k) => exists point :: GoodPoint(point, past) && forall r, w :: k(r, w) == Resume(point, r, w)
  }

  /** The past after a coroutine has run. */
  function Later(past: Past, r: TcpResult): Past {
    past.(seen := past.seen + r.started, out := past.out + r.out)
  }

  /** A command that sends no data and asks for no message hook leaves the data as it is. */
  lemma Quietly(record: Option<seq<Message>>, past: Past, exact: bool, o: TcpOut)
    requires !(o.Sent? && o.cmd.SendData?) && !(o.Asked? && o.cmd.TcpMessage?)
    requires |past.answers| <= |Asks(past.out)|
    ensures DataOk(record, past, exact) ==> DataOk(record, Yielding(past, o), exact)
    ensures Verdicts(Yielding(past, o).out)
            == Verdicts(past.out) + (if o.Asked? && (o.cmd == TcpError || o.cmd == TcpEnd) then [o.cmd] else [])
    ensures Asks(Yielding(past, o).out) == Asks(past.out) + (if o.Asked? then [o.cmd] else [])
  {
    assert Verdicts([o]) == if o.Asked? && (o.cmd == TcpError || o.cmd == TcpEnd) then [o.cmd] else [];
    assert Asks([o]) == if o.Asked? then [o.cmd] else [];
    QuietSide(record, Client, past, exact, o);
    QuietSide(record, Server, past, exact, o);
  }

  lemma QuietSide(record: Option<seq<Message>>, side: Side, past: Past, exact: bool, o: TcpOut)
    requires !(o.Sent? && o.cmd.SendData?) && !(o.Asked? && o.cmd.TcpMessage?)
    requires |past.answers| <= |Asks(past.out)|
    ensures SideOk(record, side, past, exact) ==> SideOk(record, side, Yielding(past, o), exact)
    ensures Verdicts(past.out + [o]) == Verdicts(past.out) + Verdicts([o])
    ensures Asks(past.out + [o]) == Asks(past.out) + Asks([o])
  {
    OutputAppend(Other(side), past.out, [o]);
    assert SentTo(Other(side), [o]) == [];
    if o.Asked? {
      assert Asks([o]) == [o.cmd];
      HookedAppend(side, Asks(past.out), o.cmd);
      AskingModifiesNothing(side, Asks(past.out), o.cmd, past.answers);
    } else {
      assert Asks([o]) == [] && Asks(past.out) + [] == Asks(past.out);
    }
    assert SentTo(Other(side), past.out) + [] == SentTo(Other(side), past.out);
  }

  lemma NothingMore(cfg: TcpConfig, past: Past, s: State)
    requires GoodIdle(s, past)
    ensures var r := Process(cfg, Done(s)); Good(r.config, Later(past, r))
  {
    assert past.out + [] == past.out && past.seen + [] == past.seen;
  }

  /** A plain command in front of a coroutine. */
  lemma Emitting(cfg: TcpConfig, c: Command, next: TcpProc, past: Past)
    requires var r := Process(cfg, next); Good(r.config, Later(Yielding(past, Sent(c)), r))
    ensures var r := Process(cfg, Emit(c, next)); Good(r.config, Later(past, r))
  {
    EmitLater(cfg, c, next, past);
  }

  lemma EmitLater(cfg: TcpConfig, c: Command, next: TcpProc, past: Past)
    ensures Process(cfg, Emit(c, next)).config == Process(cfg, next).config
    ensures Later(past, Process(cfg, Emit(c, next))) == Later(Yielding(past, Sent(c)), Process(cfg, next))
  {
    var r := Process(cfg, next);
    var sent: TcpOut := Sent(c);
    Associative(past.out, [sent], r.out);
    assert [] + r.started == r.started;
  }

  /** A hook or an open request: the layer pauses and has sent nothing. */
  lemma Suspending(cfg: TcpConfig, c: Command, point: Point, past: Past)
    requires GoodPoint(point, Yielding(past, Asked(CmdId(cfg.owner, cfg.serial), c)))
    ensures var r := Process(cfg, Suspend(c, point)); Good(r.config, Later(past, r))
  {
    var p := Suspend(c, point);
    assert p.Block? && p.cmd == c && forall r, w :: p.resume(r, w) == Resume(point, r, w);
    assert past.seen + [] == past.seen;
  }

  lemma CloseClient(cfg: TcpConfig, s: State, past: Past)
    requires DataOk(Record(s), past, false) && |Verdicts(past.out)| <= 1 && past.seen != [] && |Asks(past.out)| == |past.answers| && (s.flow.None? <==> past.ignored)
    ensures var r := Process(cfg, Emit(Close(Client), Done(s.(mode := Finished)))); Good(r.config, Later(past, r))
  {
    Quietly(Record(s), past, false, Sent(Close(Client)));
    assert Record(s.(mode := Finished)) == Record(s);
    NothingMore(cfg, Yielding(past, Sent(Close(Client))), s.(mode := Finished));
    Emitting(cfg, Close(Client), Done(s.(mode := Finished)), past);
  }

  lemma OpenPoint(cfg: TcpConfig, s: State, w: World, past: Past)
    requires DataOk(Record(s), past, true) && Verdicts(past.out) == [] && s.mode == Starting && past.seen != []
    requires |Asks(past.out)| == |past.answers| && (s.flow.None? <==> past.ignored)
    ensures var r := Process(cfg, OpenServer(s, w)); Good(r.config, Later(past, r))
  {
    if w.serverStarted {
      assert Record(s.(mode := Relaying)) == Record(s);
      NothingMore(cfg, past, s.(mode := Relaying));
    } else {
      Quietly(Record(s), past, true, Asked(CmdId(cfg.owner, cfg.serial), Open));
      Suspending(cfg, Open, AtOpen(s), past);
    }
  }

  lemma OpenedPoint(cfg: TcpConfig, s: State, r: Reply, w: World, past: Past)
    requires DataOk(Record(s), past, true) && Verdicts(past.out) == [] && s.mode == Starting && past.seen != []
    requires |Asks(past.out)| == |past.answers| && (s.flow.None? <==> past.ignored)
    ensures var r := Process(cfg, Resume(AtOpen(s), r, w)); Good(r.config, Later(past, r))
  {
    if r.Opened? && r.error {
      if s.flow.Some? {
        var failed := s.(flow := Some(s.flow.value.(error := true)));
        assert Record(failed) == Record(s);
        Quietly(Record(s), past, false, Asked(CmdId(cfg.owner, cfg.serial), TcpError));
        Suspending(cfg, TcpError, AtErrorHook(failed), past);
      } else {
        CloseClient(cfg, s, past);
      }
    } else {
      assert Record(s.(mode := Relaying)) == Record(s);
      NothingMore(cfg, past, s.(mode := Relaying));
    }
  }

  lemma Sending(out: seq<TcpOut>, to: Side, data: Bytes)
    ensures SentTo(to, out + [Sent(SendData(to, data))]) == SentTo(to, out) + [data]
    ensures SentTo(Other(to), out + [Sent(SendData(to, data))]) == SentTo(Other(to), out)
    ensures Verdicts(out + [Sent(SendData(to, data))]) == Verdicts(out)
    ensures Asks(out + [Sent(SendData(to, data))]) == Asks(out)
  {
    var o: TcpOut := Sent(SendData(to, data));
    OutputAppend(to, out, [o]);
    OutputAppend(Other(to), out, [o]);
    assert SentTo(to, [o]) == [data];
  }

  lemma MessageSent(s: State, m: Message, r: Reply, side: Side, past: Past)
    requires s.flow.Some? && SideOk(Record(s), side, past, true)
    requires |Asks(past.out)| == |past.answers| + 1 && Asks(past.out)[|past.answers|] == TcpMessage(m)
    ensures var sent := m.(content := Edited(m, r));
            var past' := Yielding(past.(answers := past.answers + [r]), Sent(SendData(Other(m.from), sent.content)));
            SideOk(Record(WithMessage(s, sent)), side, past', true)
  {
    var sent := m.(content := Edited(m, r));
    Sending(past.out, Other(m.from), sent.content);
    AnswerModifies(side, Asks(past.out), past.answers, r);
    FromAppend(side, s.flow.value.messages, [sent]);
    var before := From(side, s.flow.value.messages);
    if side == m.from {
      assert From(side, [sent]) == [sent];
      assert Contents(before + [sent]) == Contents(before) + [sent.content];
    } else {
      assert From(side, [sent]) == [];
      assert Other(side) == Other(Other(m.from));
    }
  }

  lemma MessagePoint(cfg: TcpConfig, s: State, m: Message, r: Reply, w: World, past: Past)
    requires GoodPoint(AtMessageHook(s, m), past)
    ensures var p := Process(cfg, Resume(AtMessageHook(s, m), r, w)); Good(p.config, Later(past.(answers := past.answers + [r]), p))
  {
    var sent := m.(content := Edited(m, r));
    var now := past.(answers := past.answers + [r]);
    MessageSent(s, m, r, Client, past);
    MessageSent(s, m, r, Server, past);
    Sending(past.out, Other(m.from), sent.content);
    NothingMore(cfg, Yielding(now, Sent(SendData(Other(m.from), sent.content))), WithMessage(s, sent));
    Emitting(cfg, SendData(Other(m.from), sent.content), Done(WithMessage(s, sent)), now);
  }

  /** An answer to anything but a message hook modifies no data. */
  lemma OtherAnswer(record: Option<seq<Message>>, past: Past, exact: bool, r: Reply)
    requires DataOk(record, past, exact)
    requires |Asks(past.out)| == |past.answers| + 1 && !Asks(past.out)[|past.answers|].TcpMessage?
    ensures DataOk(record, past.(answers := past.answers + [r]), exact)
  {
    AnswerModifies(Client, Asks(past.out), past.answers, r);
    AnswerModifies(Server, Asks(past.out), past.answers, r);
  }

  lemma ResumePoint(cfg: TcpConfig, point: Point, r: Reply, w: World, past: Past)
    requires GoodPoint(point, past)
    ensures var p := Process(cfg, Resume(point, r, w)); Good(p.config, Later(past.(answers := past.answers + [r]), p))
  {
    var now := past.(answers := past.answers + [r]);
    if point.AtMessageHook? {
      MessagePoint(cfg, point.s, point.m, r, w, past);
    } else {
      OtherAnswer(Record(point.s), past, point.AtStartHook? || point.AtOpen?, r);
      match point
      case AtStartHook(s) => OpenPoint(cfg, s, w, now);
      case AtOpen(s) => OpenedPoint(cfg, s, r, w, now);
      case AtErrorHook(s) => CloseClient(cfg, s, now);
      case AtEndHook(s) =>
        var ended := if s.flow.Some? then s.(flow := Some(s.flow.value.(live := false))) else s;
        assert Record(ended) == Record(s);
        NothingMore(cfg, now, ended);
    }
  }

  lemma Arriving(side: Side, seen: seq<TcpInput>, x: TcpInput)
    ensures ArrivedFrom(side, seen + [x]) == ArrivedFrom(side, seen) +
            (if x.Event? && (x.event.DataReceived? || x.event.MessageInjected?) && x.event.side == side then [x.event.data] else [])
  {
    ArrivedAppend(side, seen, [x]);
    assert ArrivedFrom(side, [x]) ==
           if x.Event? && (x.event.DataReceived? || x.event.MessageInjected?) && x.event.side == side then [x.event.data] else [];
  }

  function Seeing(past: Past, x: TcpInput): Past {
    past.(seen := past.seen + [x])
  }

  lemma SeenMore(record: Option<seq<Message>>, past: Past, x: TcpInput, exact: bool)
    requires DataOk(record, past, exact)
    ensures DataOk(record, Seeing(past, x), exact && !(x.Event? && (x.event.DataReceived? || x.event.MessageInjected?)))
  {
    Arriving(Client, past.seen, x);
    Arriving(Server, past.seen, x);
  }

  lemma Starts(cfg: TcpConfig, w: World, s: State, past: Past)
    requires GoodIdle(s, past) && s.mode == Starting
    ensures var r := Process(cfg, StartLayer(s, w)); Good(r.config, Later(Seeing(past, Event(Start)), r))
  {
    var now := Seeing(past, Event(Start));
    SeenMore(Record(s), past, Event(Start), true);
    if s.flow.Some? {
      Quietly(Record(s), now, true, Asked(CmdId(cfg.owner, cfg.serial), TcpStart));
      Suspending(cfg, TcpStart, AtStartHook(s), now);
    } else {
      OpenPoint(cfg, s, w, now);
    }
  }

  lemma Relays(cfg: TcpConfig, s: State, x: TcpInput, past: Past)
    requires GoodIdle(s, past) && s.mode == Relaying && x.Event? && (x.event.DataReceived? || x.event.MessageInjected?)
    ensures var r := Process(cfg, RelayData(s, x.event.side, x.event.data)); Good(r.config, Later(Seeing(past, x), r))
  {
    var from, data := x.event.side, x.event.data;
    var now := Seeing(past, x);
    Arriving(Client, past.seen, x);
    Arriving(Server, past.seen, x);
    if s.flow.Some? {
      var m := Message(from, data);
      var o: TcpOut := Asked(CmdId(cfg.owner, cfg.serial), TcpMessage(m));
      OutputAppend(Client, past.out, [o]);
      OutputAppend(Server, past.out, [o]);
      assert SentTo(Client, [o]) == SentTo(Server, [o]) == [] && Asks([o]) == [TcpMessage(m)] && Verdicts([o]) == [];
      HookedAppend(Client, Asks(past.out), TcpMessage(m));
      HookedAppend(Server, Asks(past.out), TcpMessage(m));
      AskingModifiesNothing(Client, Asks(past.out), TcpMessage(m), past.answers);
      AskingModifiesNothing(Server, Asks(past.out), TcpMessage(m), past.answers);
      Suspending(cfg, TcpMessage(m), AtMessageHook(s, m), now);
    } else {
      Sending(past.out, Other(from), data);
      assert Other(from) != from && Other(Other(from)) == from;
      NothingMore(cfg, Yielding(now, Sent(SendData(Other(from), data))), s);
      Emitting(cfg, SendData(Other(from), data), Done(s), now);
    }
  }

  lemma EndsFlow(cfg: TcpConfig, s: State, past: Past)
    requires DataOk(Record(s), past, false) && Verdicts(past.out) == [] && s.mode == Finished && past.seen != []
    requires |Asks(past.out)| == |past.answers| && (s.flow.None? <==> past.ignored)
    ensures var r := Process(cfg, if s.flow.Some? then Suspend(TcpEnd, AtEndHook(s)) else Done(s)); Good(r.config, Later(past, r))
  {
    if s.flow.Some? {
      Quietly(Record(s), past, false, Asked(CmdId(cfg.owner, cfg.serial), TcpEnd));
      Suspending(cfg, TcpEnd, AtEndHook(s), past);
    } else {
      NothingMore(cfg, past, s);
    }
  }

  lemma Closes(cfg: TcpConfig, w: World, s: State, from: Side, past: Past)
    requires GoodIdle(s, past) && s.mode == Relaying
    ensures var r := Process(cfg, RelayClose(s, w, from)); Good(r.config, Later(Seeing(past, Event(ConnectionClosed(from))), r))
  {
    var now := Seeing(past, Event(ConnectionClosed(from)));
    SeenMore(Record(s), past, Event(ConnectionClosed(from)), true);
    if Readable(w) {
      Quietly(Record(s), now, true, Sent(HalfClose(Other(from))));
      NothingMore(cfg, Yielding(now, Sent(HalfClose(Other(from)))), s);
      Emitting(cfg, HalfClose(Other(from)), Done(s), now);
    } else {
      var s' := s.(mode := Finished);
      assert Record(s') == Record(s);
      var end := if s.flow.Some? then Suspend(TcpEnd, AtEndHook(s')) else Done(s');
      var past1 := if w.server != CLOSED then Yielding(now, Sent(Close(Server))) else now;
      var past2 := if w.client != CLOSED then Yielding(past1, Sent(Close(Client))) else past1;
      Quietly(Record(s), now, false, Sent(Close(Server)));
      Quietly(Record(s), past1, false, Sent(Close(Client)));
      EndsFlow(cfg, s', past2);
      if w.client != CLOSED {
        Emitting(cfg, Close(Client), end, past1);
      }
      if w.server != CLOSED {
        Emitting(cfg, Close(Server), if w.client != CLOSED then Emit(Close(Client), end) else end, now);
      }
    }
  }

  lemma OneEvent(cfg: TcpConfig, w: World, s: State, x: TcpInput, past: Past)
    requires GoodIdle(s, past) && x.Event? && (x.event.Start? <==> past.seen == [])
    ensures var r := Process(cfg, HandleEvent(s, w, x)); Good(r.config, Later(Seeing(past, x), r))
  {
    match s.mode
    case Starting => Starts(cfg, w, s, past);
    case Relaying =>
      if x.event.ConnectionClosed? {
        Closes(cfg, w, s, x.event.side, past);
      } else {
        Relays(cfg, s, x, past);
      }
    case Finished =>
      SeenMore(Record(s), past, x, false);
      NothingMore(cfg, Seeing(past, x), s);
  }

  lemma LaterTwice(past: Past, x: TcpInput, r: TcpResult, d: TcpResult)
    requires r.started == []
    ensures Later(Later(Seeing(past, x), r), d) == Later(past, After(r.out, [x], d))
  {
    assert past.seen + [x] + [] == past.seen + [x];
    Associative(past.seen, [x], d.started);
    Associative(past.out, r.out, d.out);
  }

  lemma LaterAfter(past: Past, r: TcpResult, d: TcpResult)
    requires r.started == []
    ensures Later(Later(past, r), d) == Later(past, After(r.out, [], d))
  {
    assert past.seen + [] == past.seen && [] + d.started == d.started;
    Associative(past.out, r.out, d.out);
  }

  lemma NextInput(seen: seq<TcpInput>, queue: seq<TcpInput>)
    requires queue != []
    ensures seen + [queue[0]] + [] + queue[1..] == seen + queue && (seen + queue)[|seen|] == queue[0]
  {
  }

  lemma {:induction false} Buffered(cfg: TcpConfig, w: World, past: Past)
    requires Good(cfg, past) && Expected(past.seen + cfg.queue)
    ensures var r := Drain(TheHandler(), w, cfg); Good(r.config, Later(past, r))
    decreases |cfg.queue|
  {
    if cfg.phase.Waiting? || cfg.queue == [] {
      assert past.seen + [] == past.seen && past.out + [] == past.out;
    } else {
      var rest, x := cfg.(queue := cfg.queue[1..]), cfg.queue[0];
      var p := HandleEvent(cfg.phase.state, w, x);
      NextInput(past.seen, cfg.queue);
      ProcessKeepsQueue(rest, p);
      OneEvent(rest, w, cfg.phase.state, x, past);
      var r := Process(rest, p);
      var now := Later(Seeing(past, x), r);
      Buffered(r.config, w, now);
      LaterTwice(past, x, r, Drain(TheHandler(), w, r.config));
    }
  }

  lemma Answered(cfg: TcpConfig, w: World, reply: Reply, past: Past)
    requires Good(cfg, past) && cfg.phase.Waiting? && Expected(past.seen + cfg.queue)
    ensures var r := Step(TheHandler(), w, cfg, Completed(cfg.phase.id, reply));
            Good(r.config, Later(past.(answers := past.answers + [reply]), r))
  {
    var point :| GoodPoint(point, past) && forall r, w :: cfg.phase.resume(r, w) == Resume(point, r, w);
    var p := cfg.phase.resume(reply, w);
    ResumePoint(cfg, point, reply, w, past);
    ProcessKeepsQueue(cfg, p);
    var r := Process(cfg, p);
    var now := past.(answers := past.answers + [reply]);
    assert past.seen + [] == past.seen;
    Buffered(r.config, w, Later(now, r));
    LaterAfter(now, r, Drain(TheHandler(), w, r.config));
  }

  lemma OneCall(cfg: TcpConfig, w: World, x: TcpInput, past: Past)
    requires Good(cfg, past) && Quiet(cfg)
    requires Expected(past.seen + cfg.queue + (if IsReply(cfg, x) then [] else [x]))
    ensures var r := Step(TheHandler(), w, cfg, x);
            Good(r.config, Later(if IsReply(cfg, x) then past.(answers := past.answers + [x.reply]) else past, r))
  {
    match cfg.phase
    case Idle(s) =>
      var p := HandleEvent(s, w, x);
      assert (past.seen + cfg.queue + [x])[|past.seen|] == x;
      OneEvent(cfg, w, s, x, past);
      ProcessKeepsQueue(cfg, p);
      assert [] + Process(cfg, p).out == Process(cfg, p).out && [x] + Process(cfg, p).started == [x];
      assert Later(past, Step(TheHandler(), w, cfg, x)) == Later(Seeing(past, x), Process(cfg, p));
    case Waiting(id, k) =>
      if IsReply(cfg, x) {
        assert past.seen + cfg.queue + [] == past.seen + cfg.queue;
        Answered(cfg, w, x.reply, past);
      } else {
        assert past.seen + [] == past.seen && past.out + [] == past.out;
      }
  }

  lemma LastCall(owner: nat, ignore: bool, trace: TcpTrace)
    requires trace != []
    ensures var n := |trace| - 1;
            var cfg, x := RunOf(owner, ignore, trace[..n]).config, trace[n].1;
            var call := Step(TheHandler(), trace[n].0, cfg, x);
            var past := PastOf(owner, ignore, trace[..n]);
            EventsOf(owner, ignore, trace) == EventsOf(owner, ignore, trace[..n]) + (if IsReply(cfg, x) then [] else [x])
            && RunOf(owner, ignore, trace).config == call.config
            && PastOf(owner, ignore, trace) == Later(if IsReply(cfg, x) then past.(answers := past.answers + [x.reply]) else past, call)
  {
    var h, start := TheHandler(), NewLayer(owner, ignore);
    var n := |trace| - 1;
    var x, last := trace[n].1, [trace[n]];
    var cfg := RunOf(owner, ignore, trace[..n]).config;
    assert trace == trace[..n] + last;
    InputsAppend(h, start, trace[..n], last);
    assert last[1..] == [];
    assert Accepted(h, cfg, last) == if IsReply(cfg, x) then [] else [x];
    assert Answers(h, cfg, last) == if IsReply(cfg, x) then [x.reply] else [];
    RunSnoc(h, start, trace);
  }

  lemma ExpectedPrefix(a: seq<TcpInput>, b: seq<TcpInput>)
    requires Expected(a + b)
    ensures Expected(a)
  {
    assert forall i :: 0 <= i < |a| ==> a[i] == (a + b)[i];
  }

  lemma {:induction false} Always(owner: nat, ignore: bool, trace: TcpTrace)
    requires Expected(EventsOf(owner, ignore, trace))
    ensures var r := RunOf(owner, ignore, trace); Quiet(r.config) && Good(r.config, PastOf(owner, ignore, trace))
    decreases |trace|
  {
    if trace == [] {
      assert GoodIdle(NewLayer(owner, ignore).phase.state, Past(ignore, [], [], []));
    } else {
      var n := |trace| - 1;
      var cfg, x := RunOf(owner, ignore, trace[..n]).config, trace[n].1;
      var before := EventsOf(owner, ignore, trace[..n]);
      LastCall(owner, ignore, trace);
      ExpectedPrefix(before, if IsReply(cfg, x) then [] else [x]);
      Always(owner, ignore, trace[..n]);
      StartsInArrivalOrder(TheHandler(), NewLayer(owner, ignore), trace[..n]);
      assert [] + before == before;
      OneCall(cfg, trace[n].0, x, PastOf(owner, ignore, trace[..n]));
      StepFifo(TheHandler(), trace[n].0, cfg, x);
    }
  }
}
