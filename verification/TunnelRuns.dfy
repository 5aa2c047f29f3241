/** What every run of a tunnel guarantees (mitmproxy/proxy/tunnel.py). */
module TunnelRuns {
  import opened ByteStrings
  import opened Options
  import opened Seqs
  import opened TunnelInvariants
  import opened Tunnels
  import L = Layers

  /** The invariant holds in every run, for all children and all subclasses. */
  lemma {:induction false} RunOk(t: Tunnel, moves: seq<Move>)
    requires Inv(t.kind, t)
    ensures Inv(t.kind, Run(t, moves))
    decreases |moves|
  {
    if moves != [] {
      NextOk(t, moves[0]);
      RunOk(Next(t, moves[0]), moves[1..]);
    }
  }

  // ----- silence -----

  /** Started on an open connection, the tunnel shows its child nothing before a handshake has ended, unless
      `start_handshake` gives up; if it does, the child has been given Start as soon as the call is over. */
  lemma SilentExactly(kind: Kind, moves: seq<Move>)
    requires kind.startedOpen
    ensures var t := Run(Initial(kind), moves);
            !t.log.over ==>
              && (!t.log.gaveUp ==> t.log.delivered == [])
              && (t.frames == Empty ==> (t.log.delivered == [] <==> !t.log.gaveUp))
              && (t.frames == Empty && t.log.gaveUp ==> t.log.delivered[0] == Start)
  {
    InitialOk(kind);
    RunOk(Initial(kind), moves);
  }

  lemma {:induction false} RunOneMore(t: Tunnel, moves: seq<Move>, m: Move)
    ensures Run(t, moves + [m]) == Next(Run(t, moves), m)
    decreases |moves|
  {
    if moves == [] {
      assert moves + [m] == [m] && [m][1..] == [];
    } else {
      assert (moves + [m])[1..] == moves[1..] + [m];
      RunOneMore(Next(t, moves[0]), moves[1..], m);
    }
  }

  /** A `start_handshake` that gives up, as that of a server-side TLS layer does while it waits for the ClientHello. */
  lemma GivingUpShowsStart(owner: nat) returns (moves: seq<Move>)
    ensures var t := Run(Initial(Kind(owner, false, true)), moves); !t.log.over && t.frames == Empty && t.log.delivered == [Start]
  {
    var t := Initial(Kind(owner, false, true));
    var go := Work(Outside([], Returns(false, false), false));
    moves := [Work(Outside([], GivesUp, false))];
    assert [] + moves == moves;
    RunOneMore(t, [], moves[0]);
    RunOneMore(t, moves, go);
    assert Run(t, moves + [go]).frames == STARTING;
    RunOneMore(t, moves + [go], go);
    RunOneMore(t, moves + [go] + [go], go);
    moves := moves + [go] + [go] + [go];
  }

  // ----- pauses -----

  /** No command of the child pauses the tunnel, except that the tunnel asks for its own connection when the child asks
      for one; besides that it pauses where a subclass's own code blocks. */
  lemma PausesOnItsOwn(t: Tunnel, m: Move)
    requires Inv(t.kind, t) && t.paused.None? && Next(t, m).paused.Some?
    ensures m.Work? && Next(t, m).paused == Some(L.CmdId(t.kind.owner, t.asked)) && t.frames.On?
    ensures (AsksToOpen(t.frames) && !m.outside.swallows)
         || (m.outside.action == Yields(true)
             && (t.frames.top.StartHandshake? || t.frames.top.ReceiveHandshake? || t.frames.top.OnHandshakeError?))
  {
    if m.Work? && Working(t) {
      WorkPauses(t, m.outside);
    }
  }

  lemma WorkPauses(t: Tunnel, o: Outside)
    requires Working(t) && Advance(t, o).paused.Some?
    ensures Advance(t, o).paused == Some(L.CmdId(t.kind.owner, t.asked)) && t.frames.On?
    ensures (AsksToOpen(t.frames) && !o.swallows)
         || (o.action == Yields(true)
             && (t.frames.top.StartHandshake? || t.frames.top.ReceiveHandshake? || t.frames.top.OnHandshakeError?))
  {
    if t.frames.On? {
      match t.frames.top
      case HandshakeFinished(_) =>
      case EventToChild(_, _) =>
      case _ =>
    }
  }

  // ----- order -----

  /** Replies apart, the child is given the events meant for it once each and in order, beginning with Start; when the
      tunnel has no frame left it has been given all of them, unless the tunnel waits for a handshake without a command
      to reply to, or the subclass swallows events after a failed handshake. */
  lemma DeliversInOrder(kind: Kind, moves: seq<Move>)
    ensures var t := Run(Initial(kind), moves);
            WithoutReplies(t.log.delivered) <= t.log.handed
            && (t.frames == Empty && !Buffering(t) && !t.muted ==> WithoutReplies(t.log.delivered) == t.log.handed)
            && (t.log.handed != [] ==> t.log.handed[0] == Start)
  {
    var t := Run(Initial(kind), moves);
    InitialOk(kind);
    RunOk(Initial(kind), moves);
    if t.frames == Empty && !Buffering(t) {
      assert Pending(t.frames, t.eventQueue) == [];
    }
  }

  // ----- replies -----

  /** Only commands that the child has issued are answered; none is answered twice exactly when no handshake ended while
      the command it had to answer had been answered. */
  lemma OneReplyExactly(kind: Kind, moves: seq<Move>)
    ensures var t := Run(Initial(kind), moves); var replies := Replies(t.log.delivered);
            (forall c :: c in replies ==> c < t.issued) && (t.frames == Empty ==> (Distinct(replies) <==> !t.log.doubled))
  {
    InitialOk(kind);
    RunOk(Initial(kind), moves);
  }

  /** The child asks for no connection while it waits for the answer to an earlier request. */
  predicate Careful(t: Tunnel, moves: seq<Move>)
    decreases |moves|
  {
    moves == [] || ((moves[0].Work? && Working(t) && AsksToOpen(t.frames) ==> !Outstanding(t)) && Careful(Next(t, moves[0]), moves[1..]))
  }

  lemma {:induction false} CarefulRun(t: Tunnel, moves: seq<Move>)
    requires Inv(t.kind, t) && CarefulOk(t) && Careful(t, moves)
    ensures CarefulOk(Run(t, moves))
    decreases |moves|
  {
    if moves != [] {
      NextOk(t, moves[0]);
      CarefulStep(t, moves[0]);
      CarefulRun(Next(t, moves[0]), moves[1..]);
    }
  }

  /** A child that waits for its answers gets at most one answer to each OpenConnection. */
  lemma OneReplyPerOpen(kind: Kind, moves: seq<Move>)
    requires Careful(Initial(kind), moves)
    ensures var t := Run(Initial(kind), moves); var replies := Replies(t.log.delivered);
            Distinct(replies) && forall c :: c in replies ==> c < t.issued
  {
    InitialOk(kind);
    RunOk(Initial(kind), moves);
    CarefulRun(Initial(kind), moves);
  }

  /** A child that asks again before it has its answer can be answered twice: the second request, made when it is given
      data during the handshake for the first, fails and is then taken for the one the handshake has to answer. */
  lemma AskingTwiceIsAnsweredTwice(owner: nat, d: Bytes) returns (moves: seq<Move>)
    ensures Run(Initial(Kind(owner, false, false)), moves).log.delivered == [Start, Data(d), OpenCompleted(1, true), OpenCompleted(1, false)]
  {
    moves := AsksOnce(owner);
    moves := AsksAgain(owner, d, moves);
    moves := FailsAgain(owner, d, moves);
    moves := IsAnsweredTwice(owner, d, moves);
  }

  const NOTHING: Move := Work(Outside([], Returns(false, false), false))
  const ASK: Move := Work(Outside([OpenConnection], Returns(false, false), false))

  lemma AsksOnce(owner: nat) returns (moves: seq<Move>)
    ensures var t := Run(Initial(Kind(owner, false, false)), moves);
            t.frames == Empty && t.paused.None? && t.pausedQueue == [] && t.log.delivered == [Start] && t.state == Establishing && !t.muted
            && t.commandToReplyTo == Some(0) && t.issued == 1 && t.asked == 1 && t.kind == Kind(owner, false, false)
  {
    var t := Initial(Kind(owner, false, false));
    moves := Then(t, [], ASK);
    moves := Then(t, moves, NOTHING);
    assert Run(t, moves).paused == Some(L.CmdId(owner, 0));
    moves := Then(t, moves, Event(Reply(L.CmdId(owner, 0), false)));
    moves := Then(t, moves, NOTHING);
    moves := Then(t, moves, NOTHING);
  }

  lemma AsksAgain(owner: nat, d: Bytes, before: seq<Move>) returns (moves: seq<Move>)
    requires var t := Run(Initial(Kind(owner, false, false)), before);
             t.frames == Empty && t.paused.None? && t.pausedQueue == [] && t.log.delivered == [Start] && t.state == Establishing && !t.muted
             && t.commandToReplyTo == Some(0) && t.issued == 1 && t.asked == 1 && t.kind == Kind(owner, false, false)
    ensures var t := Run(Initial(Kind(owner, false, false)), moves);
            t.frames == On(AwaitOpen(1), On(HandleCommands([]), On(ReceiveHandshake(d), Empty)))
            && t.paused == Some(L.CmdId(owner, 1)) && t.pausedQueue == [] && t.log.delivered == [Start, Data(d)] && !t.muted
            && t.commandToReplyTo == Some(1) && t.kind == Kind(owner, false, false)
  {
    var t := Initial(Kind(owner, false, false));
    moves := Then(t, before, Event(TunnelData(d)));
    moves := Then(t, moves, Work(Outside([], Delivers(d), false)));
    assert Run(t, moves).frames == On(EventToChild(Data(d), false), On(ReceiveHandshake(d), Empty));
    moves := Then(t, moves, ASK);
    assert Run(t, moves).log.delivered == [Start] + [Data(d)] == [Start, Data(d)];
    assert [OpenConnection][1..] == [];
    moves := Then(t, moves, NOTHING);
  }

  lemma FailsAgain(owner: nat, d: Bytes, before: seq<Move>) returns (moves: seq<Move>)
    requires var t := Run(Initial(Kind(owner, false, false)), before);
             t.frames == On(AwaitOpen(1), On(HandleCommands([]), On(ReceiveHandshake(d), Empty)))
             && t.paused == Some(L.CmdId(owner, 1)) && t.pausedQueue == [] && t.log.delivered == [Start, Data(d)] && !t.muted
             && t.commandToReplyTo == Some(1) && t.kind == Kind(owner, false, false)
    ensures var t := Run(Initial(Kind(owner, false, false)), moves);
            t.frames == On(ReceiveHandshake(d), Empty) && t.paused.None? && t.pausedQueue == [] && !t.muted
            && t.log.delivered == [Start, Data(d), OpenCompleted(1, true)]
            && t.commandToReplyTo == Some(1) && t.kind == Kind(owner, false, false)
  {
    var t := Initial(Kind(owner, false, false));
    moves := Then(t, before, Event(Reply(L.CmdId(owner, 1), true)));
    moves := Then(t, moves, NOTHING);
    assert Run(t, moves).frames == On(HandleCommands([]), On(OpenFailed, On(HandleCommands([]), On(ReceiveHandshake(d), Empty))));
    assert Run(t, moves).log.delivered == [Start, Data(d)] + [OpenCompleted(1, true)];
    moves := Then(t, moves, NOTHING);
    moves := Then(t, moves, NOTHING);
    moves := Then(t, moves, NOTHING);
  }

  lemma IsAnsweredTwice(owner: nat, d: Bytes, before: seq<Move>) returns (moves: seq<Move>)
    requires var t := Run(Initial(Kind(owner, false, false)), before);
             t.frames == On(ReceiveHandshake(d), Empty) && t.paused.None? && t.pausedQueue == [] && !t.muted
             && t.log.delivered == [Start, Data(d), OpenCompleted(1, true)]
             && t.commandToReplyTo == Some(1) && t.kind == Kind(owner, false, false)
    ensures Run(Initial(Kind(owner, false, false)), moves).log.delivered == [Start, Data(d), OpenCompleted(1, true), OpenCompleted(1, false)]
  {
    var t := Initial(Kind(owner, false, false));
    moves := Then(t, before, Work(Outside([], Returns(true, false), false)));
    moves := Then(t, moves, NOTHING);
    assert Run(t, moves).frames == On(EventToChild(OpenCompleted(1, false), false), On(ForgetCommand, Empty));
    moves := Then(t, moves, NOTHING);
    assert [Start, Data(d), OpenCompleted(1, true)] + [OpenCompleted(1, false)] == [Start, Data(d), OpenCompleted(1, true), OpenCompleted(1, false)];
  }

  lemma Then(t: Tunnel, moves: seq<Move>, m: Move) returns (longer: seq<Move>)
    ensures longer == moves + [m] && Run(t, longer) == Next(Run(t, moves), m)
  {
    longer := moves + [m];
    RunOneMore(t, moves, m);
  }

  // ----- every event that is meant for the child comes from an arrival -----

  function MeantIn(t: Tunnel, moves: seq<Move>): seq<ChildEvent>
    decreases |moves|
  {
    if moves == [] then []
    else
      var started := Started(t, moves[0]);
      (if started == [] then HandedOver(t, moves[0]) else Meaning(t.state, started[0])) + MeantIn(Next(t, moves[0]), moves[1..])
  }

  function StartedIn(t: Tunnel, moves: seq<Move>): seq<Arrival>
    decreases |moves|
  {
    if moves == [] then [] else Started(t, moves[0]) + StartedIn(Next(t, moves[0]), moves[1..])
  }

  /** The arrivals of a run that are not awaited replies, in order. */
  function AcceptedIn(t: Tunnel, moves: seq<Move>): seq<Arrival>
    decreases |moves|
  {
    if moves == [] then []
    else
      AcceptedBy(t, moves[0]) + AcceptedIn(Next(t, moves[0]), moves[1..])
  }

  /** Whatever is handed to the child's side is what an arrival means, by the state in which it is handled, or what a
      handshake hands over: all of it, in order, and nothing else. Arrivals are handled in the order in which they come,
      each once, those buffered during a pause included. */
  lemma {:induction false} ArrivalsReachChild(t: Tunnel, moves: seq<Move>)
    requires Inv(t.kind, t)
    ensures Known(Run(t, moves)) == Known(t) + MeantIn(t, moves)
    ensures StartedIn(t, moves) + Run(t, moves).pausedQueue == t.pausedQueue + AcceptedIn(t, moves)
    decreases |moves|
  {
    if moves == [] {
      assert Known(t) + [] == Known(t) && [] + t.pausedQueue == t.pausedQueue + [];
    } else {
      var m, next := moves[0], Next(t, moves[0]);
      NextOk(t, m);
      StepKnows(t, m);
      StepStarts(t, m);
      ArrivalsReachChild(next, moves[1..]);
      var meant := if Started(t, m) == [] then HandedOver(t, m) else Meaning(t.state, Started(t, m)[0]);
      var own := AcceptedBy(t, m);
      Associative(Known(t), meant, MeantIn(next, moves[1..]));
      RegroupStarts(Started(t, m), StartedIn(next, moves[1..]), Run(t, moves).pausedQueue, next.pausedQueue,
                    AcceptedIn(next, moves[1..]), t.pausedQueue, own);
    }
  }

  lemma RegroupStarts<T>(first: seq<T>, later: seq<T>, end: seq<T>, mid: seq<T>, accepted: seq<T>, before: seq<T>, own: seq<T>)
    requires later + end == mid + accepted && first + mid == before + own
    ensures (first + later) + end == before + (own + accepted)
  {
    Associative(first, later, end);
    Associative(first, mid, accepted);
    Associative(before, own, accepted);
  }

  // ----- what the child is told -----

  /** The answers among the given events: which command, and whether it is said to have failed. */
  function AnswersIn(events: seq<ChildEvent>): seq<(nat, bool)> {
    if events == [] then []
    else (if events[0].OpenCompleted? then [(events[0].command, events[0].failed)] else []) + AnswersIn(events[1..])
  }

  /** What becomes of the child's request in a move: the tunnel's own connection fails, the handshake ends as the subclass
      says, at once in the base class, or the connection is closed in the middle of it. */
  function Outcome(t: Tunnel, m: Move): seq<(nat, bool)> {
    if t.commandToReplyTo.None? then []
    else if m.Event? && !Working(t) && IsOwnReply(t, m.arrival) then
      (if m.arrival.failed && t.frames.On? && t.frames.top.AwaitOpen? then [(t.commandToReplyTo.value, true)] else [])
    else if Started(t, m) != [] then
      (if Started(t, m)[0].TunnelClosed? && t.state == Establishing then [(t.commandToReplyTo.value, true)] else [])
    else if m.Work? && Working(t) && t.frames.On? && t.frames.top.ReceiveHandshake? then
      (if t.kind.feeds then [(t.commandToReplyTo.value, false)]
       else
         match m.outside.action
         case Returns(done, failed) => if done || failed then [(t.commandToReplyTo.value, failed)] else []
         case _ => [])
    else []
  }

  function OutcomesIn(t: Tunnel, moves: seq<Move>): seq<(nat, bool)>
    decreases |moves|
  {
    if moves == [] then [] else Outcome(t, moves[0]) + OutcomesIn(Next(t, moves[0]), moves[1..])
  }

  /** An answer that is on its way to the child. */
  function Unsaid(t: Tunnel): seq<(nat, bool)> {
    match t.frames
    case On(EventToChild(OpenCompleted(c, failed), _), _) => [(c, failed)]
    case On(HandshakeFinished(failed), _) => EndOf(t.commandToReplyTo, failed)
    case On(OnHandshakeError, On(HandshakeFinished(failed), _)) => EndOf(t.commandToReplyTo, failed)
    case _ => []
  }

  function EndOf(command: Option<nat>, failed: bool): seq<(nat, bool)> {
    if command.None? then [] else [(command.value, failed)]
  }

  lemma {:induction false} AnswersAppend(a: seq<ChildEvent>, e: ChildEvent)
    ensures AnswersIn(a + [e]) == AnswersIn(a) + if e.OpenCompleted? then [(e.command, e.failed)] else []
    decreases |a|
  {
    if a == [] {
      assert a + [e] == [e] && [e][1..] == [];
    } else {
      assert (a + [e])[1..] == a[1..] + [e];
      AnswersAppend(a[1..], e);
      Associative(if a[0].OpenCompleted? then [(a[0].command, a[0].failed)] else [], AnswersIn(a[1..]),
                  if e.OpenCompleted? then [(e.command, e.failed)] else []);
    }
  }

  lemma GiveTells(t: Tunnel, o: Outside)
    requires Shape(t) && Working(t) && t.frames.On? && t.frames.top.EventToChild? && !t.muted
    ensures AnswersIn(Advance(t, o).log.delivered) + Unsaid(Advance(t, o)) == AnswersIn(t.log.delivered) + Unsaid(t)
  {
    AnswersAppend(t.log.delivered, t.frames.top.event);
  }

  lemma HandshakeTells(t: Tunnel, o: Outside)
    requires Shape(t) && Working(t) && t.frames.On? && Handshaking(t.frames.top) && !t.frames.top.StartHandshake?
    requires t.frames.top.ReceiveHandshake? && !t.kind.feeds ==> t.frames.below == Empty
    ensures Advance(t, o).log.delivered == t.log.delivered && Unsaid(Advance(t, o)) == Unsaid(t) + Outcome(t, Work(o))
  {
    match t.frames.top
    case ReceiveHandshake(_) => ReceivingTells(t, o);
    case OnHandshakeError => ReportingTells(t, o);
    case HandshakeFinished(_) => EndTells(t, o);
  }

  lemma ReceivingTells(t: Tunnel, o: Outside)
    requires Working(t) && t.frames.On? && t.frames.top.ReceiveHandshake? && (!t.kind.feeds ==> t.frames.below == Empty)
    ensures Advance(t, o).log.delivered == t.log.delivered && Unsaid(Advance(t, o)) == Unsaid(t) + Outcome(t, Work(o))
  {
    var rest := t.frames.below;
    assert Unsaid(t.(frames := On(OnHandshakeError, On(HandshakeFinished(true), rest)))) == EndOf(t.commandToReplyTo, true);
    assert Unsaid(t.(frames := On(HandshakeFinished(false), rest))) == EndOf(t.commandToReplyTo, false);
    assert Unsaid(t) == [] && [] + Outcome(t, Work(o)) == Outcome(t, Work(o));
  }

  lemma ReportingTells(t: Tunnel, o: Outside)
    requires Shape(t) && Working(t) && t.frames.On? && t.frames.top.OnHandshakeError?
    ensures Advance(t, o).log.delivered == t.log.delivered && Unsaid(Advance(t, o)) == Unsaid(t) + Outcome(t, Work(o))
  {
    assert Outcome(t, Work(o)) == [] && Unsaid(t) + [] == Unsaid(t);
  }

  lemma EndTells(t: Tunnel, o: Outside)
    requires Working(t) && t.frames.On? && t.frames.top.HandshakeFinished?
    ensures Advance(t, o).log.delivered == t.log.delivered && Unsaid(Advance(t, o)) == Unsaid(t) + Outcome(t, Work(o))
  {
    assert Outcome(t, Work(o)) == [] && Unsaid(t) + [] == Unsaid(t);
  }

  lemma OthersTell(t: Tunnel, o: Outside)
    requires Shape(t) && OrderOk(t) && Working(t) && t.frames.On? && !t.frames.top.EventToChild?
    requires Handshaking(t.frames.top) ==> t.frames.top.StartHandshake? && (t.kind.feeds ==> t.state == Establishing)
    ensures Advance(t, o).log.delivered == t.log.delivered && Unsaid(Advance(t, o)) == Unsaid(t) == []
  {
    match t.frames.top
    case StartHandshake =>
    case Flush(_) =>
    case HandleCommands(_) =>
    case _ =>
  }

  lemma HandleTells(t: Tunnel, x: Arrival)
    requires t.frames == Empty
    ensures Handle(t, x).log.delivered == t.log.delivered
    ensures Unsaid(Handle(t, x)) == if x.TunnelClosed? && t.state == Establishing then EndOf(t.commandToReplyTo, true) else []
  {
  }

  lemma StepTells(t: Tunnel, m: Move)
    requires Inv(t.kind, t) && !Next(t, m).muted
    ensures AnswersIn(Next(t, m).log.delivered) + Unsaid(Next(t, m)) == AnswersIn(t.log.delivered) + Unsaid(t) + Outcome(t, m)
    ensures !t.muted
  {
    var said := AnswersIn(t.log.delivered);
    assert said + Unsaid(t) + [] == said + Unsaid(t) && said + [] == said;
    StaysMuted(t, m);
    match m
    case Event(x) =>
      if !Working(t) && !IsOwnReply(t, x) && t.paused.None? {
        HandleTells(t, x);
      }
    case Work(o) =>
      if Working(t) {
        if t.frames == Empty {
          HandleTells(t.(pausedQueue := t.pausedQueue[1..]), t.pausedQueue[0]);
        } else if t.frames.top.EventToChild? {
          GiveTells(t, o);
        } else if Handshaking(t.frames.top) && !t.frames.top.StartHandshake? {
          HandshakeTells(t, o);
          Associative(said, Unsaid(t), Outcome(t, m));
        } else {
          OthersTell(t, o);
        }
      }
  }

  lemma StaysMuted(t: Tunnel, m: Move)
    ensures t.muted ==> Next(t, m).muted && Next(t, m).log.delivered == t.log.delivered
  {
    if m.Work? && Working(t) && t.frames.On? {
      MutedFrame(t, m.outside);
    }
  }

  lemma MutedFrame(t: Tunnel, o: Outside)
    requires Working(t) && t.frames.On?
    ensures t.muted ==> Advance(t, o).muted && Advance(t, o).log.delivered == t.log.delivered
  {
    match t.frames.top
    case HandshakeFinished(_) =>
    case EventToChild(_, _) =>
    case _ =>
  }

  lemma {:induction false} RunTells(t: Tunnel, moves: seq<Move>)
    requires Inv(t.kind, t)
    ensures !Run(t, moves).muted ==>
      AnswersIn(Run(t, moves).log.delivered) + Unsaid(Run(t, moves)) == AnswersIn(t.log.delivered) + Unsaid(t) + OutcomesIn(t, moves)
    ensures !t.muted ==> AnswersIn(Run(t, moves).log.delivered) <= AnswersIn(t.log.delivered) + Unsaid(t) + OutcomesIn(t, moves)
    ensures t.muted ==> Run(t, moves).muted && Run(t, moves).log.delivered == t.log.delivered
    decreases |moves|
  {
    var told := AnswersIn(t.log.delivered) + Unsaid(t);
    if moves == [] {
      assert told + [] == told;
    } else {
      var m, next := moves[0], Next(t, moves[0]);
      NextOk(t, m);
      StaysMuted(t, m);
      RunTells(next, moves[1..]);
      Associative(told, Outcome(t, m), OutcomesIn(next, moves[1..]));
      if !next.muted {
        StepTells(t, m);
      } else if !t.muted {
        SilencedTells(t, m);
      }
    }
  }

  /** The step that silences the child gives it nothing. */
  lemma SilencedTells(t: Tunnel, m: Move)
    requires !t.muted && Next(t, m).muted
    ensures Next(t, m).log.delivered == t.log.delivered
  {
    if m.Work? && Working(t) && t.frames.On? {
      match t.frames.top
      case HandshakeFinished(_) =>
      case EventToChild(_, _) =>
      case _ =>
    }
  }

  /** The child is told the truth: the answers it is given are, in order, what became of its requests. It misses only what
      comes after a subclass has swallowed an answer, and an answer still on its way. */
  lemma AnswersAreTrue(kind: Kind, moves: seq<Move>)
    ensures var t := Run(Initial(kind), moves);
            AnswersIn(t.log.delivered) <= OutcomesIn(Initial(kind), moves)
            && (t.frames == Empty && !t.muted ==> AnswersIn(t.log.delivered) == OutcomesIn(Initial(kind), moves))
  {
    var t0 := Initial(kind);
    InitialOk(kind);
    RunTells(t0, moves);
    assert AnswersIn(t0.log.delivered) + Unsaid(t0) == [];
    assert [] + OutcomesIn(t0, moves) == OutcomesIn(t0, moves);
    assert AnswersIn(Run(t0, moves).log.delivered) + [] == AnswersIn(Run(t0, moves).log.delivered);
  }

  // ----- replies to commands of other layers -----

  function StrayIds(events: seq<ChildEvent>): seq<L.CmdId> {
    if events == [] then [] else (if events[0].StrayReply? then [events[0].id] else []) + StrayIds(events[1..])
  }

  function ReplyIds(arrivals: seq<Arrival>): seq<L.CmdId> {
    if arrivals == [] then [] else (if arrivals[0].Reply? then [arrivals[0].id] else []) + ReplyIds(arrivals[1..])
  }

  lemma {:induction false} StrayIdsAppend(a: seq<ChildEvent>, b: seq<ChildEvent>)
    ensures StrayIds(a + b) == StrayIds(a) + StrayIds(b)
    decreases |a|
  {
    if a == [] {
      assert a + b == b;
    } else {
      assert (a + b)[1..] == a[1..] + b;
      StrayIdsAppend(a[1..], b);
      Associative(if a[0].StrayReply? then [a[0].id] else [], StrayIds(a[1..]), StrayIds(b));
    }
  }

  lemma {:induction false} ReplyIdsAppend(a: seq<Arrival>, b: seq<Arrival>)
    ensures ReplyIds(a + b) == ReplyIds(a) + ReplyIds(b)
    decreases |a|
  {
    if a == [] {
      assert a + b == b;
    } else {
      assert (a + b)[1..] == a[1..] + b;
      ReplyIdsAppend(a[1..], b);
      Associative(if a[0].Reply? then [a[0].id] else [], ReplyIds(a[1..]), ReplyIds(b));
    }
  }

  lemma {:induction false} StraysAreNoReplies(events: seq<ChildEvent>)
    ensures StrayIds(WithoutReplies(events)) == StrayIds(events)
    decreases |events|
  {
    if events != [] {
      StraysAreNoReplies(events[1..]);
      StrayIdsAppend([events[0]], WithoutReplies(events[1..]));
      assert [events[0]][1..] == [] && [] + WithoutReplies(events[1..]) == WithoutReplies(events[1..]);
      assert StrayIds([events[0]]) == if events[0].StrayReply? then [events[0].id] else [];
    }
  }

  lemma {:induction false} StraysMeant(t: Tunnel, moves: seq<Move>)
    ensures StrayIds(MeantIn(t, moves)) == ReplyIds(StartedIn(t, moves))
    decreases |moves|
  {
    if moves != [] {
      var m, next := moves[0], Next(t, moves[0]);
      StraysMeant(next, moves[1..]);
      var started := Started(t, m);
      var meant := if started == [] then HandedOver(t, m) else Meaning(t.state, started[0]);
      assert StrayIds(meant) == ReplyIds(started);
      StrayIdsAppend(meant, MeantIn(next, moves[1..]));
      ReplyIdsAppend(started, StartedIn(next, moves[1..]));
    }
  }

  /** Nothing is held back. */
  predicate AtRest(t: Tunnel) {
    t.frames == Empty && t.paused.None? && t.pausedQueue == [] && !Buffering(t) && !t.muted
  }

  /** Replies to commands of other layers are passed to the child in order and once each, however long a handshake or a
      pause holds them back, and all of them once the tunnel is at rest. */
  lemma ForeignRepliesPass(kind: Kind, moves: seq<Move>)
    ensures var t := Run(Initial(kind), moves);
            var accepted := ReplyIds(AcceptedIn(Initial(kind), moves));
            StrayIds(t.log.delivered) <= accepted && (AtRest(t) ==> StrayIds(t.log.delivered) == accepted)
  {
    var t0 := Initial(kind);
    var t := Run(t0, moves);
    InitialOk(kind);
    DeliversInOrder(kind, moves);
    ArrivalsReachChild(t0, moves);
    StraysMeant(t0, moves);
    NothingKnown(t0);
    StraysKnown(t, Known(t0), MeantIn(t0, moves), ReplyIds(StartedIn(t0, moves)));
    AcceptedParts(StartedIn(t0, moves), t.pausedQueue, AcceptedIn(t0, moves));
  }

  lemma AcceptedParts(started: seq<Arrival>, queue: seq<Arrival>, accepted: seq<Arrival>)
    requires started + queue == [] + accepted
    ensures ReplyIds(started) <= ReplyIds(accepted) && (queue == [] ==> ReplyIds(started) == ReplyIds(accepted))
  {
    ReplyIdsAppend(started, queue);
    assert [] + accepted == accepted;
  }

  lemma StraysKnown(t: Tunnel, before: seq<ChildEvent>, meant: seq<ChildEvent>, ids: seq<L.CmdId>)
    requires Known(t) == before + meant && StrayIds(before) == [] && StrayIds(meant) == ids
    requires WithoutReplies(t.log.delivered) <= t.log.handed
    ensures StrayIds(t.log.delivered) <= ids
    ensures t.frames == Empty && WithoutReplies(t.log.delivered) == t.log.handed ==> StrayIds(t.log.delivered) == ids
  {
    StrayIdsAppend(before, meant);
    StraysAreNoReplies(t.log.delivered);
    StraysOfParts(WithoutReplies(t.log.delivered), t.log.handed, OnItsWay(t.frames));
  }

  lemma StraysOfParts(given: seq<ChildEvent>, handed: seq<ChildEvent>, rest: seq<ChildEvent>)
    requires given <= handed
    ensures StrayIds(given) <= StrayIds(handed + rest)
    ensures given == handed && rest == [] ==> StrayIds(given) == StrayIds(handed + rest)
  {
    assert handed + rest == given + (handed[|given|..] + rest);
    StrayIdsAppend(given, handed[|given|..] + rest);
    assert given == handed && rest == [] ==> handed + rest == given;
  }

  lemma NothingKnown(t: Tunnel)
    requires t == Initial(t.kind)
    ensures StrayIds(Known(t)) == []
  {
    assert OnItsWay(Empty) == [] && [Start] + OnItsWay(Empty) == [Start] && [Start][1..] == [];
    assert OnItsWay(STARTING) == [Start];
    assert OnItsWay(On(StartHandshake, STARTING)) == OnItsWay(STARTING);
    assert Known(t) == [] + [Start] == [Start];
    assert StrayIds([Start]) == [] + StrayIds([Start][1..]);
  }

  /** All events offered in a run. */
  function OfferedIn(t: Tunnel, moves: seq<Move>): seq<Arrival>
    decreases |moves|
  {
    if moves == [] then []
    else OfferedBy(t, moves[0]) + OfferedIn(Next(t, moves[0]), moves[1..])
  }

  function OfferedBy(t: Tunnel, m: Move): seq<Arrival> {
    if m.Event? && !Working(t) then [m.arrival] else []
  }

  /** A tunnel takes no reply to a command of another layer for its own. */
  lemma {:induction false} ForeignAccepted(t: Tunnel, moves: seq<Move>, id: L.CmdId)
    requires Inv(t.kind, t) && id.owner != t.kind.owner
    ensures multiset(ReplyIds(AcceptedIn(t, moves)))[id] == multiset(ReplyIds(OfferedIn(t, moves)))[id]
    decreases |moves|
  {
    if moves != [] {
      var m, next := moves[0], Next(t, moves[0]);
      NextOk(t, m);
      OneOffered(t, m, id);
      ForeignAccepted(next, moves[1..], id);
      AllOffered(OfferedBy(t, m), OfferedIn(next, moves[1..]), AcceptedBy(t, m), AcceptedIn(next, moves[1..]), id);
    }
  }

  lemma OneOffered(t: Tunnel, m: Move, id: L.CmdId)
    requires PauseOk(t) && id.owner != t.kind.owner
    ensures multiset(ReplyIds(AcceptedBy(t, m)))[id] == multiset(ReplyIds(OfferedBy(t, m)))[id]
  {
    if m.Event? && IsOwnReply(t, m.arrival) {
      assert [m.arrival][1..] == [] && ReplyIds([m.arrival]) == [m.arrival.id];
    }
  }

  lemma AllOffered(offered: seq<Arrival>, later: seq<Arrival>, accepted: seq<Arrival>, laterAccepted: seq<Arrival>, id: L.CmdId)
    requires multiset(ReplyIds(accepted))[id] == multiset(ReplyIds(offered))[id]
    requires multiset(ReplyIds(laterAccepted))[id] == multiset(ReplyIds(later))[id]
    ensures multiset(ReplyIds(accepted + laterAccepted))[id] == multiset(ReplyIds(offered + later))[id]
  {
    ReplyIdsAppend(offered, later);
    ReplyIdsAppend(accepted, laterAccepted);
  }

  // ----- the layer -----

  function Works(outsides: seq<Outside>): seq<Move> {
    seq(|outsides|, i requires 0 <= i < |outsides| => Work(outsides[i]))
  }

  /** What holds of the child whenever the invariant does. */
  lemma ShownRight(t: Tunnel)
    requires Inv(t.kind, t)
    ensures t.kind.startedOpen && !t.log.over && !t.log.gaveUp ==> t.log.delivered == []
    ensures WithoutReplies(t.log.delivered) <= t.log.handed
    ensures t.frames == Empty ==> (Distinct(Replies(t.log.delivered)) <==> !t.log.doubled)
  {
  }

  class TunnelLayer {
    const kind: Kind
    var tunnelState: TunnelState
    var commandToReplyTo: Option<nat>
    var eventQueue: seq<ChildEvent>
    var muted: bool
    var frames: Stack
    var paused: Option<L.CmdId>
    var pausedQueue: seq<Arrival>
    var issued: nat
    var asked: nat
    ghost var log: Log

    constructor (kind: Kind)
      ensures this.kind == kind && Valid() && Snapshot() == Initial(kind)
    {
      this.kind, tunnelState := kind, if kind.startedOpen then Establishing else Inactive;
      commandToReplyTo, eventQueue, muted, paused, pausedQueue := None, [], false, None, [];
      frames := if kind.startedOpen then On(StartHandshake, STARTING) else STARTING;
      issued, asked, log := 0, 0, Log([], [], false, false, false);
      new;
      InitialOk(kind);
    }

    ghost function Snapshot(): Tunnel
      reads this
    {
      Tunnel(kind, tunnelState, commandToReplyTo, eventQueue, muted, frames, paused, pausedQueue, issued, asked, log)
    }

    ghost predicate Valid()
      reads this
    {
      Inv(kind, Snapshot())
    }

    predicate Busy()
      reads this
      ensures Busy() == Working(Snapshot())
    {
      paused.None? && (frames != Empty || pausedQueue != [])
    }

    /** An event reaches the tunnel, and the call goes on for as long as `outsides` say what happens. In whatever state
        this leaves the tunnel, its child has been shown nothing too early, nothing twice and nothing out of order. */
    method HandleEvent(x: Arrival, outsides: seq<Outside>)
      requires Valid() && !Busy()
      modifies this
      ensures Valid() && Snapshot() == Run(old(Snapshot()), [Event(x)] + Works(outsides))
      ensures kind.startedOpen && !log.over && !log.gaveUp ==> log.delivered == []
      ensures WithoutReplies(log.delivered) <= log.handed
      ensures frames == Empty ==> (Distinct(Replies(log.delivered)) <==> !log.doubled)
    {
      ghost var t0, works := Snapshot(), Works(outsides);
      Arrives(x);
      Drain(outsides);
      assert ([Event(x)] + works)[1..] == works;
      ShownRight(Snapshot());
    }

    method Drain(outsides: seq<Outside>)
      requires Valid()
      modifies this
      ensures Valid() && Snapshot() == Run(old(Snapshot()), Works(outsides))
    {
      ghost var t0, works := Snapshot(), Works(outsides);
      for i := 0 to |outsides|
        invariant Valid() && Snapshot() == Run(t0, works[..i])
      {
        RunOneMore(t0, works[..i], Work(outsides[i]));
        assert works[..i + 1] == works[..i] + [Work(outsides[i])];
        StepIfBusy(outsides[i]);
      }
      assert works[..|outsides|] == works;
    }

    method StepIfBusy(o: Outside)
      requires Valid()
      modifies this
      ensures Valid() && Snapshot() == Next(old(Snapshot()), Work(o))
    {
      if Busy() {
        Step(o);
      }
    }

    method Arrives(x: Arrival)
      requires Valid() && !Busy()
      modifies this
      ensures Valid() && Snapshot() == Arrive(old(Snapshot()), x)
    {
      ArriveOk(Snapshot(), x);
      if paused.None? {
        StartEvent(x);
      } else if x.Reply? && x.id == paused.value {
        paused := None;
        if frames.On? && frames.top.AwaitOpen? {
          if x.failed {
            frames := On(EventToChild(OpenCompleted(frames.top.command, true), false), On(OpenFailed, frames.below));
          } else {
            frames := On(StartHandshake, frames.below);
          }
        }
      } else {
        pausedQueue := pausedQueue + [x];
      }
    }

    method StartEvent(x: Arrival)
      modifies this`frames
      ensures Snapshot() == Handle(old(Snapshot()), x)
    {
      match x {
        case TunnelData(d) =>
          if tunnelState == Establishing {
            frames := On(ReceiveHandshake(d), Empty);
          } else {
            frames := On(EventToChild(Data(d), false), Empty);
          }
        case TunnelClosed =>
          frames := On(EndClosed, Empty);
          if tunnelState == Open {
            frames := On(EventToChild(ConnectionClosed, false), frames);
          } else if tunnelState == Establishing {
            frames := On(OnHandshakeError, On(HandshakeFinished(true), frames));
          }
        case Other(tag) => frames := On(EventToChild(OtherEvent(tag), false), Empty);
        case Reply(id, _) => frames := On(EventToChild(StrayReply(id), false), Empty);
      }
    }

    method Step(o: Outside)
      requires Valid() && Busy()
      modifies this
      ensures Valid() && Snapshot() == Advance(old(Snapshot()), o)
    {
      AdvanceOk(Snapshot(), o);
      if frames == Empty {
        var x := pausedQueue[0];
        pausedQueue := pausedQueue[1..];
        StartEvent(x);
      } else {
        RunFrame(o);
      }
    }

    method RunFrame(o: Outside)
      requires Busy() && frames.On?
      modifies this
      ensures Snapshot() == Advance(old(Snapshot()), o)
    {
      var rest := frames.below;
      match frames.top
      case StartHandshake => BeginHandshakeStep(o.action);
      case ReceiveHandshake(_) => HandshakeStep(if kind.feeds then Returns(true, false) else o.action);
      case OnHandshakeError => ErrorStep(o.action);
      case HandshakeFinished(failed) => FinishHandshake(failed);
      case Flush(i) =>
        if i < |eventQueue| {
          frames := On(EventToChild(eventQueue[i], true), On(Flush(i + 1), rest));
        } else {
          frames := rest;
          eventQueue := [];
        }
      case ForgetCommand =>
        frames := rest;
        commandToReplyTo := None;
      case EventToChild(e, again) => Give(e, again, o.commands);
      case HandleCommands(commands) => if commands == [] { frames := rest; } else { Interpret(commands, o.swallows); }
      case AwaitOpen(_) =>
      case OpenFailed =>
        tunnelState := Closed;
        frames := rest;
      case EndClosed =>
        tunnelState := Closed;
        frames := rest;
    }

    method BeginHandshakeStep(a: Action)
      requires frames.On?
      modifies this
      ensures Snapshot() == BeginHandshake(old(Snapshot()), a, old(frames).below)
    {
      if kind.feeds {
        frames := On(if tunnelState == Establishing then ReceiveHandshake([]) else EventToChild(Data([]), false), frames.below);
        return;
      }
      match a {
        case Yields(blocking) => if blocking { Pause(); }
        case GivesUp =>
          if commandToReplyTo.None? {
            tunnelState := Closed;
            log := log.(gaveUp := true);
          }
        case Returns(_, _) => frames := frames.below;
        case _ =>
      }
    }

    method HandshakeStep(a: Action)
      requires frames.On?
      modifies this
      ensures Snapshot() == ContinueHandshake(old(Snapshot()), a, old(frames).below)
    {
      match a {
        case Yields(blocking) => if blocking { Pause(); }
        case Delivers(d) => frames := On(EventToChild(Data(d), false), frames);
        case DeliversClose => frames := On(EventToChild(ConnectionClosed, false), frames);
        case Returns(done, failed) =>
          frames := frames.below;
          if done || failed { frames := On(HandshakeFinished(failed), frames); }
          if failed { frames := On(OnHandshakeError, frames); }
        case _ =>
      }
    }

    method ErrorStep(a: Action)
      requires frames.On?
      modifies this
      ensures Snapshot() == ReportError(old(Snapshot()), a, old(frames).below)
    {
      match a {
        case Yields(blocking) => if blocking { Pause(); }
        case Silences => muted := true;
        case Returns(_, _) => frames := frames.below;
        case _ =>
      }
    }

    method FinishHandshake(failed: bool)
      requires frames.On?
      modifies this
      ensures Snapshot() == EndHandshake(old(Snapshot()), failed, old(frames).below)
    {
      log := log.(over := true, doubled := log.doubled || (!muted && Answered(Snapshot())));
      tunnelState := if failed then Closed else Open;
      if commandToReplyTo.Some? {
        frames := On(EventToChild(OpenCompleted(commandToReplyTo.value, failed), false), On(ForgetCommand, frames.below));
      } else {
        frames := On(Flush(0), frames.below);
      }
    }

    method Interpret(commands: seq<ChildCommand>, swallows: bool)
      requires frames.On? && commands != []
      modifies this
      ensures Snapshot() == HandleCommand(old(Snapshot()), commands, old(frames).below, swallows)
    {
      frames := On(HandleCommands(commands[1..]), frames.below);
      if commands[0].OpenConnection? {
        commandToReplyTo := Some(issued);
        tunnelState := Establishing;
        frames := On(if swallows then StartHandshake else AwaitOpen(issued), frames);
        issued := issued + 1;
        if !swallows { Pause(); }
      }
    }

    method Give(e: ChildEvent, again: bool, commands: seq<ChildCommand>)
      requires frames.On?
      modifies this
      ensures Snapshot() == GiveToChild(old(Snapshot()), e, again, old(frames).below, commands)
    {
      if !again && !e.OpenCompleted? { log := log.(handed := log.handed + [e]); }
      frames := frames.below;
      if muted {
      } else if tunnelState == Establishing && commandToReplyTo.None? {
        eventQueue := eventQueue + [e];
      } else {
        log := log.(delivered := log.delivered + [e]);
        frames := On(HandleCommands(commands), frames);
      }
    }

    method Pause()
      modifies this`paused, this`asked
      ensures Snapshot() == Ask(old(Snapshot()))
    {
      paused := Some(L.CmdId(kind.owner, asked));
      asked := asked + 1;
    }
  }
}
