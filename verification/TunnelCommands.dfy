/** What becomes of the commands that the child of a tunnel yields (mitmproxy/proxy/tunnel.py). */
module TunnelCommands {
  import opened Options
  import opened Seqs
  import opened Tunnels

  // Each is carried out by `send_data`, `send_close` or the tunnel's own connection, or passed on.

  /** The commands that wait to be carried out, next one first. */
  function Pending(frames: Stack): seq<ChildCommand> {
    match frames
    case Empty => []
    case On(HandleCommands(commands), below) => commands + Pending(below)
    case On(_, below) => Pending(below)
  }

  /** What the child yields in a move: it does so whenever it is given an event. */
  function YieldedAt(t: Tunnel, m: Move): seq<ChildCommand> {
    if m.Work? && |Next(t, m).log.delivered| > |t.log.delivered| then m.outside.commands else []
  }

  /** The command that is carried out in a move. */
  function CarriedAt(t: Tunnel, m: Move): seq<ChildCommand> {
    if m.Work? && Working(t) && t.frames.On? && t.frames.top.HandleCommands? && t.frames.top.commands != []
    then [t.frames.top.commands[0]] else []
  }

  function Yielded(t: Tunnel, moves: seq<Move>): seq<ChildCommand>
    decreases |moves|
  {
    if moves == [] then [] else YieldedAt(t, moves[0]) + Yielded(Next(t, moves[0]), moves[1..])
  }

  function Carried(t: Tunnel, moves: seq<Move>): seq<ChildCommand>
    decreases |moves|
  {
    if moves == [] then [] else CarriedAt(t, moves[0]) + Carried(Next(t, moves[0]), moves[1..])
  }

  function Opens(commands: seq<ChildCommand>): nat {
    if commands == [] then 0 else (if commands[0].OpenConnection? then 1 else 0) + Opens(commands[1..])
  }

  /** In every move, what is carried out is what was to come next, and what the child yields comes before all that waits. */
  lemma NextInOrder(t: Tunnel, m: Move)
    ensures CarriedAt(t, m) + Pending(Next(t, m).frames) == YieldedAt(t, m) + Pending(t.frames)
  {
    match m {
      case Event(x) =>
      case Work(o) =>
        if Working(t) && t.frames.On? {
          FrameInOrder(t, o);
        }
    }
  }

  lemma FrameInOrder(t: Tunnel, o: Outside)
    requires Working(t) && t.frames.On?
    ensures CarriedAt(t, Work(o)) + Pending(Advance(t, o).frames) == YieldedAt(t, Work(o)) + Pending(t.frames)
  {
    match t.frames.top {
      case EventToChild(e, again) => GivenInOrder(t, e, again, t.frames.below, o.commands);
      case HandleCommands(commands) =>
        if commands != [] {
          FirstCarried(t, commands, t.frames.below, o.swallows);
        }
      case _ => OthersKeep(t, o);
    }
  }

  lemma OthersKeep(t: Tunnel, o: Outside)
    requires Working(t) && t.frames.On? && !t.frames.top.EventToChild? && !t.frames.top.HandleCommands?
    ensures Pending(Advance(t, o).frames) == Pending(t.frames) && Advance(t, o).log.delivered == t.log.delivered
  {
    match t.frames.top {
      case StartHandshake => HandshakeKeeps(t, o.action);
      case ReceiveHandshake(_) => HandshakeKeeps(t, if t.kind.feeds then Returns(true, false) else o.action);
      case OnHandshakeError => HandshakeKeeps(t, o.action);
      case _ =>
    }
  }

  lemma FirstCarried(t: Tunnel, commands: seq<ChildCommand>, rest: Stack, swallows: bool)
    requires commands != []
    ensures [commands[0]] + Pending(HandleCommand(t, commands, rest, swallows).frames) == commands + Pending(rest)
  {
    Associative([commands[0]], commands[1..], Pending(rest));
    assert [commands[0]] + commands[1..] == commands;
  }

  lemma HandshakeKeeps(t: Tunnel, a: Action)
    requires t.frames.On? && (t.frames.top.StartHandshake? || t.frames.top.ReceiveHandshake? || t.frames.top.OnHandshakeError?)
    ensures Pending(BeginHandshake(t, a, t.frames.below).frames) == Pending(t.frames)
    ensures Pending(ContinueHandshake(t, a, t.frames.below).frames) == Pending(t.frames)
    ensures Pending(ReportError(t, a, t.frames.below).frames) == Pending(t.frames)
  {
  }

  lemma GivenInOrder(t: Tunnel, e: ChildEvent, again: bool, rest: Stack, commands: seq<ChildCommand>)
    ensures var t' := GiveToChild(t, e, again, rest, commands);
      Pending(t'.frames) == (if |t'.log.delivered| > |t.log.delivered| then commands else []) + Pending(rest)
  {
    assert [] + Pending(rest) == Pending(rest);
  }

  /** No command of the child is lost or carried out twice: over every run, those yielded are those carried out and those
      that still wait. */
  lemma {:induction false} CommandsConserved(t: Tunnel, moves: seq<Move>)
    ensures multiset(Pending(t.frames) + Yielded(t, moves)) == multiset(Carried(t, moves) + Pending(Run(t, moves).frames))
    decreases |moves|
  {
    if moves == [] {
      assert Pending(t.frames) + [] == Pending(t.frames) == [] + Pending(t.frames);
    } else {
      var t' := Next(t, moves[0]);
      CommandsConserved(t', moves[1..]);
      NextInOrder(t, moves[0]);
      OneMoreMove(Pending(t.frames), YieldedAt(t, moves[0]), CarriedAt(t, moves[0]), Pending(t'.frames),
                  Yielded(t', moves[1..]), Carried(t', moves[1..]), Pending(Run(t', moves[1..]).frames));
    }
  }

  lemma OneMoreMove<T>(before: seq<T>, yielded: seq<T>, carried: seq<T>, after: seq<T>, moreYielded: seq<T>, moreCarried: seq<T>, end: seq<T>)
    requires carried + after == yielded + before
    requires multiset(after + moreYielded) == multiset(moreCarried + end)
    ensures multiset(before + (yielded + moreYielded)) == multiset(carried + moreCarried + end)
  {
    var b, y, c, a, m, n, e := multiset(before), multiset(yielded), multiset(carried), multiset(after),
                               multiset(moreYielded), multiset(moreCarried), multiset(end);
    assert c + a == y + b by { assert multiset(carried + after) == multiset(yielded + before); }
    assert a + m == n + e;
    forall x ensures (b + (y + m))[x] == (c + n + e)[x] {
      assert (c + a)[x] == (y + b)[x] && (a + m)[x] == (n + e)[x];
    }
  }

  /** The tunnel opens a connection of its own for each OpenConnection that is carried out. */
  lemma {:induction false} OpensForEach(t: Tunnel, moves: seq<Move>)
    ensures Run(t, moves).issued == t.issued + Opens(Carried(t, moves))
    decreases |moves|
  {
    if moves != [] {
      var t' := Next(t, moves[0]);
      OpensForEach(t', moves[1..]);
      OpensAppend(CarriedAt(t, moves[0]), Carried(t', moves[1..]));
      IssuedAt(t, moves[0]);
    }
  }

  lemma {:induction false} OpensAppend(a: seq<ChildCommand>, b: seq<ChildCommand>)
    ensures Opens(a + b) == Opens(a) + Opens(b)
    decreases |a|
  {
    if a == [] {
      assert a + b == b;
    } else {
      assert (a + b)[1..] == a[1..] + b;
      OpensAppend(a[1..], b);
    }
  }

  lemma IssuedAt(t: Tunnel, m: Move)
    ensures Next(t, m).issued == t.issued + Opens(CarriedAt(t, m))
  {
    assert forall c: ChildCommand :: [c][1..] == [];
  }

  /** Once the tunnel is at rest, exactly what its child has yielded has been carried out. */
  lemma CarriedAtRest(kind: Kind, moves: seq<Move>)
    requires Run(Initial(kind), moves).frames == Empty
    ensures multiset(Carried(Initial(kind), moves)) == multiset(Yielded(Initial(kind), moves))
  {
    var t := Initial(kind);
    NothingWaits(kind);
    CommandsConserved(t, moves);
    AtEnds(Yielded(t, moves), Carried(t, moves), Pending(t.frames), Pending(Run(t, moves).frames));
  }

  lemma NothingWaits(kind: Kind)
    ensures Pending(Initial(kind).frames) == []
  {
  }

  lemma AtEnds<T>(yielded: seq<T>, carried: seq<T>, before: seq<T>, after: seq<T>)
    requires multiset(before + yielded) == multiset(carried + after) && before == [] && after == []
    ensures multiset(carried) == multiset(yielded)
  {
    assert before + yielded == yielded && carried + after == carried;
  }
}
