/** What a tunnel owes after each thing that happens to it, and what its fields are because of it (mitmproxy/proxy/tunnel.py). */
module TunnelDuties {
  import opened Options
  import opened Seqs
  import opened TunnelCommands
  import opened Tunnels

  /** What has to be done in the end: report a handshake error, finish the handshake, close after a failed connection
      or after a close, and forget the command that has been replied to. */
  datatype Duty = Report | Finish(failed: bool) | CloseFailed | CloseEnded | Forget

  function DutyOf(frame: Frame): seq<Duty> {
    match frame
    case OnHandshakeError => [Report]
    case HandshakeFinished(failed) => [Finish(failed)]
    case OpenFailed => [CloseFailed]
    case EndClosed => [CloseEnded]
    case ForgetCommand => [Forget]
    case _ => []
  }

  /** What is still to be done, next duty first. */
  function Duties(frames: Stack): seq<Duty> {
    match frames
    case Empty => []
    case On(top, below) => DutyOf(top) + Duties(below)
  }

  /** The arrival that a move starts to handle. */
  function Handled(t: Tunnel, m: Move): Option<Arrival> {
    match m
    case Event(x) => if !Working(t) && t.paused.None? then Some(x) else None
    case Work(_) => if Working(t) && t.frames == Empty then Some(t.pausedQueue[0]) else None
  }

  predicate Runs(t: Tunnel, m: Move) {
    m.Work? && Working(t) && t.frames.On?
  }

  /** What a move makes the tunnel owe: a close ends it, and a handshake that is under way fails first; an error of the
      handshake is reported; the tunnel's own connection may fail; and a command that is replied to is forgotten. */
  function Incurred(t: Tunnel, m: Move): seq<Duty> {
    if Handled(t, m).Some? then
      if !Handled(t, m).value.TunnelClosed? then []
      else if t.state == Establishing then [Report, Finish(true), CloseEnded]
      else [CloseEnded]
    else if m.Event? then
      if !Working(t) && IsOwnReply(t, m.arrival) && m.arrival.failed && t.frames.On? && t.frames.top.AwaitOpen? then [CloseFailed] else []
    else if !Runs(t, m) then []
    else if t.frames.top.HandshakeFinished? then
      if t.commandToReplyTo.Some? then [Forget] else []
    else if t.frames.top.ReceiveHandshake? then
      if t.kind.feeds then [Finish(false)]
      else if m.outside.action.Returns? && m.outside.action.failed then [Report, Finish(true)]
      else if m.outside.action.Returns? && m.outside.action.done then [Finish(false)]
      else []
    else []
  }

  /** What a move does of it; reporting goes on until the subclass returns. */
  function DoneAt(t: Tunnel, m: Move): seq<Duty> {
    if !Runs(t, m) || (t.frames.top.OnHandshakeError? && !m.outside.action.Returns?) then [] else DutyOf(t.frames.top)
  }

  function IncurredIn(t: Tunnel, moves: seq<Move>): seq<Duty>
    decreases |moves|
  {
    if moves == [] then [] else Incurred(t, moves[0]) + IncurredIn(Next(t, moves[0]), moves[1..])
  }

  function DoneIn(t: Tunnel, moves: seq<Move>): seq<Duty>
    decreases |moves|
  {
    if moves == [] then [] else DoneAt(t, moves[0]) + DoneIn(Next(t, moves[0]), moves[1..])
  }

  /** In every move, what is done is what was to be done next, and what is newly owed comes before all the rest. */
  lemma DutiesInOrder(t: Tunnel, m: Move)
    ensures DoneAt(t, m) <= Duties(t.frames)
    ensures Duties(Next(t, m).frames) == Incurred(t, m) + Duties(t.frames)[|DoneAt(t, m)|..]
  {
    var owed := Duties(t.frames);
    assert owed[0..] == owed == [] + owed;
    match m {
      case Event(x) =>
        if !Working(t) {
          ArrivalIncurs(t, x);
        }
      case Work(o) =>
        if Working(t) && t.frames == Empty {
          HandlingIncurs(t.(pausedQueue := t.pausedQueue[1..]), t.pausedQueue[0]);
        } else if Working(t) {
          FrameIncurs(t, o);
        }
    }
  }

  lemma HandlingIncurs(t: Tunnel, x: Arrival)
    ensures Duties(Handle(t, x).frames) ==
      if !x.TunnelClosed? then [] else if t.state == Establishing then [Report, Finish(true), CloseEnded] else [CloseEnded]
  {
    var end := On(EndClosed, Empty);
    assert Duties(end) == [CloseEnded];
    assert Duties(On(HandshakeFinished(true), end)) == [Finish(true), CloseEnded];
  }

  lemma ArrivalIncurs(t: Tunnel, x: Arrival)
    requires !Working(t)
    ensures Duties(Arrive(t, x).frames) == Incurred(t, Event(x)) + Duties(t.frames)
  {
    if t.paused.None? {
      HandlingIncurs(t, x);
    } else if IsOwnReply(t, x) && t.frames.On? && t.frames.top.AwaitOpen? {
      assert Duties(t.frames) == Duties(t.frames.below);
    }
  }

  lemma FrameIncurs(t: Tunnel, o: Outside)
    requires Working(t) && t.frames.On?
    ensures var m := Work(o);
      && DoneAt(t, m) <= Duties(t.frames)
      && Duties(Advance(t, o).frames) == Incurred(t, m) + Duties(t.frames)[|DoneAt(t, m)|..]
  {
    var owed := Duties(t.frames);
    assert owed[0..] == owed == [] + owed;
    match t.frames.top {
      case ReceiveHandshake(_) => ReceivingIncurs(t, if t.kind.feeds then Returns(true, false) else o.action);
      case OnHandshakeError => ReportingDone(t, o.action);
      case HandshakeFinished(failed) => FinishDone(t, failed);
      case OpenFailed => FirstDuty(t.frames);
      case EndClosed => FirstDuty(t.frames);
      case ForgetCommand => FirstDuty(t.frames);
      case StartHandshake => BeginningIncurs(t, o.action);
      case EventToChild(e, again) =>
      case HandleCommands(commands) =>
      case _ =>
    }
  }

  lemma FirstDuty(frames: Stack)
    requires frames.On?
    ensures DutyOf(frames.top) <= Duties(frames) && Duties(frames)[|DutyOf(frames.top)|..] == Duties(frames.below)
    ensures [] + Duties(frames.below) == Duties(frames.below)
  {
  }

  lemma ReportingDone(t: Tunnel, a: Action)
    requires t.frames.On? && t.frames.top.OnHandshakeError?
    ensures Duties(ReportError(t, a, t.frames.below).frames) == if a.Returns? then Duties(t.frames.below) else Duties(t.frames)
    ensures Duties(t.frames)[1..] == Duties(t.frames.below) && [Report] <= Duties(t.frames)
    ensures [] + Duties(t.frames.below) == Duties(t.frames.below)
  {
  }

  lemma FinishDone(t: Tunnel, failed: bool)
    requires t.frames.On? && t.frames.top == HandshakeFinished(failed)
    ensures Duties(EndHandshake(t, failed, t.frames.below).frames)
         == (if t.commandToReplyTo.Some? then [Forget] else []) + Duties(t.frames)[1..]
    ensures [Finish(failed)] <= Duties(t.frames)
  {
    FirstDuty(t.frames);
  }

  lemma BeginningIncurs(t: Tunnel, a: Action)
    requires t.frames.On? && t.frames.top.StartHandshake?
    ensures Duties(BeginHandshake(t, a, t.frames.below).frames) == Duties(t.frames)
  {
    assert Duties(t.frames) == [] + Duties(t.frames.below) == Duties(t.frames.below);
  }

  lemma ReceivingIncurs(t: Tunnel, a: Action)
    requires t.frames.On? && t.frames.top.ReceiveHandshake?
    ensures Duties(ContinueHandshake(t, a, t.frames.below).frames) ==
      (if a.Returns? && a.failed then [Report, Finish(true)] else if a.Returns? && a.done then [Finish(false)] else []) + Duties(t.frames)
  {
    var below := Duties(t.frames.below);
    assert [Report] + ([Finish(true)] + below) == [Report, Finish(true)] + below;
    assert [] + below == below;
  }

  /** Over every run, what the tunnel has come to owe is what it has done and what it still has to do. */
  lemma {:induction false} DutiesConserved(t: Tunnel, moves: seq<Move>)
    ensures multiset(Duties(t.frames) + IncurredIn(t, moves)) == multiset(DoneIn(t, moves) + Duties(Run(t, moves).frames))
    decreases |moves|
  {
    if moves == [] {
      assert Duties(t.frames) + [] == Duties(t.frames) == [] + Duties(t.frames);
    } else {
      var t' := Next(t, moves[0]);
      DutiesConserved(t', moves[1..]);
      DutiesInOrder(t, moves[0]);
      OneMoreDone(Duties(t.frames), Incurred(t, moves[0]), DoneAt(t, moves[0]), Duties(t'.frames),
                  IncurredIn(t', moves[1..]), DoneIn(t', moves[1..]), Duties(Run(t', moves[1..]).frames));
    }
  }

  lemma OneMoreDone<T>(before: seq<T>, incurred: seq<T>, done: seq<T>, after: seq<T>, moreIncurred: seq<T>, moreDone: seq<T>, end: seq<T>)
    requires done <= before && after == incurred + before[|done|..]
    requires multiset(after + moreIncurred) == multiset(moreDone + end)
    ensures multiset(before + (incurred + moreIncurred)) == multiset(done + moreDone + end)
  {
    var rest := before[|done|..];
    assert before == done + rest;
    var r, y, c, m, n, e := multiset(rest), multiset(incurred), multiset(done), multiset(moreIncurred), multiset(moreDone), multiset(end);
    assert multiset(after) == y + r && multiset(before) == c + r;
    forall x ensures (c + r + (y + m))[x] == (c + n + e)[x] {
      assert (y + r + m)[x] == (n + e)[x];
    }
  }

  // ----- what the fields are because of it -----

  /** What a move sets the state to. */
  function StateBy(t: Tunnel, m: Move): Option<TunnelState> {
    if CarriedAt(t, m) == [OpenConnection] then Some(Establishing)
    else if DoneAt(t, m) == [Finish(true)] || DoneAt(t, m) == [CloseFailed] || DoneAt(t, m) == [CloseEnded] then Some(Closed)
    else if DoneAt(t, m) == [Finish(false)] then Some(Open)
    else if Runs(t, m) && t.frames.top.StartHandshake? && !t.kind.feeds && m.outside.action.GivesUp? && t.commandToReplyTo.None? then Some(Closed)
    else None
  }

  /** What a move sets the command to reply to to. */
  function CommandBy(t: Tunnel, m: Move): Option<Option<nat>> {
    if CarriedAt(t, m) == [OpenConnection] then Some(Some(t.issued))
    else if DoneAt(t, m) == [Forget] then Some(None)
    else None
  }

  /** The state that the last of the moves that sets it has set. */
  function LastState(t: Tunnel, moves: seq<Move>, state: TunnelState): TunnelState
    decreases |moves|
  {
    if moves == [] then state
    else LastState(Next(t, moves[0]), moves[1..], if StateBy(t, moves[0]).Some? then StateBy(t, moves[0]).value else state)
  }

  function LastCommand(t: Tunnel, moves: seq<Move>, command: Option<nat>): Option<nat>
    decreases |moves|
  {
    if moves == [] then command
    else LastCommand(Next(t, moves[0]), moves[1..], if CommandBy(t, moves[0]).Some? then CommandBy(t, moves[0]).value else command)
  }

  /** The subclass replaces event_to_child while it reports an error. */
  predicate SilencedAt(t: Tunnel, m: Move) {
    Runs(t, m) && t.frames.top.OnHandshakeError? && m.outside.action.Silences?
  }

  predicate SilencedIn(t: Tunnel, moves: seq<Move>)
    decreases |moves|
  {
    moves != [] && (SilencedAt(t, moves[0]) || SilencedIn(Next(t, moves[0]), moves[1..]))
  }

  lemma FieldsBy(t: Tunnel, m: Move)
    ensures Next(t, m).state == if StateBy(t, m).Some? then StateBy(t, m).value else t.state
    ensures Next(t, m).commandToReplyTo == if CommandBy(t, m).Some? then CommandBy(t, m).value else t.commandToReplyTo
    ensures Next(t, m).muted <==> t.muted || SilencedAt(t, m)
  {
    if Runs(t, m) {
      match t.frames.top {
        case HandleCommands(commands) =>
        case HandshakeFinished(_) =>
        case StartHandshake =>
        case EventToChild(_, _) =>
        case ReceiveHandshake(_) =>
        case _ =>
      }
    }
  }

  /** Over every run: the tunnel's state, its command to reply to and whether its child hears anything are what was set last. */
  lemma {:induction false} FieldsTold(t: Tunnel, moves: seq<Move>)
    ensures Run(t, moves).state == LastState(t, moves, t.state)
    ensures Run(t, moves).commandToReplyTo == LastCommand(t, moves, t.commandToReplyTo)
    ensures Run(t, moves).muted <==> t.muted || SilencedIn(t, moves)
    decreases |moves|
  {
    if moves != [] {
      FieldsBy(t, moves[0]);
      FieldsTold(Next(t, moves[0]), moves[1..]);
    }
  }
}
