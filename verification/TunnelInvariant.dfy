/** What one step of a tunnel keeps (mitmproxy/proxy/tunnel.py).

    Frames. A call of the child's event handler rests on nothing, on the closing of the tunnel, on the flush of the event
    queue, on the frame that forgets or fails the command just answered, or on a handshake that hands over data; a
    connection is opened only on top of a call of the child.

    Queue. Events are buffered only while the tunnel waits for a handshake that nobody asked for, and never while the
    queue is being flushed.

    Replies. A command is answered twice only if a handshake ends whose command has been answered.

    Order. What the child has been given, replies left out, followed by what is still to be given, is what has been handed
    to it; unless the subclass swallows events, when it is a prefix of that.

    Silence. On a connection that was open from the start nothing reaches the child before a handshake has ended, or
    `start_handshake` has given up. */
module TunnelInvariants {
  import opened ByteStrings
  import opened Options
  import opened Seqs
  import opened Tunnels
  import L = Layers

  function WithoutReplies(events: seq<ChildEvent>): seq<ChildEvent> {
    if events == [] then []
    else (if events[0].OpenCompleted? then [] else [events[0]]) + WithoutReplies(events[1..])
  }

  /** The buffered events the child has not been given yet. */
  function Pending(frames: Stack, queue: seq<ChildEvent>): seq<ChildEvent> {
    match frames
    case Empty => queue
    case On(Flush(i), _) => if i <= |queue| then queue[i..] else []
    case On(EventToChild(e, true), below) => [e] + Pending(below, queue)
    case On(_, below) => Pending(below, queue)
  }

  predicate Bottom(frames: Stack) {
    frames == Empty || frames == On(EndClosed, Empty)
  }

  /** The frames a call of the child's event handler can rest on. */
  predicate Under(feeds: bool, frames: Stack) {
    if frames.Empty? then true
    else if frames.top.Flush? then Bottom(frames.below)
    else if frames.top.ForgetCommand? then Bottom(frames.below) || (feeds && Calling(frames.below) && Under(feeds, frames.below.below))
    else if frames.top.OpenFailed? then Calling(frames.below) && Under(feeds, frames.below.below)
    else if frames.top.ReceiveHandshake? then frames.below == Empty && !feeds
    else Bottom(frames)
  }

  predicate Calling(frames: Stack) {
    frames.On? && frames.top.HandleCommands?
  }

  predicate Commands(feeds: bool, frames: Stack) {
    Calling(frames) && Under(feeds, frames.below)
  }

  predicate InFlush(frames: Stack) {
    frames.On? && (frames.top.Flush? || InFlush(frames.below))
  }

  predicate Failing(frames: Stack) {
    frames.On? && (frames.top.OpenFailed? || Failing(frames.below))
  }

  predicate FlushesWithin(frames: Stack, length: nat) {
    frames.On? ==> (frames.top.Flush? ==> frames.top.next <= length) && FlushesWithin(frames.below, length)
  }

  ghost predicate Shape(t: Tunnel) {
    match t.frames
    case Empty => true
    case On(frame, rest) =>
      match frame
      case StartHandshake =>
        && (rest == STARTING || (Commands(t.kind.feeds, rest) && t.commandToReplyTo.Some?))
        && (t.kind.feeds ==> t.state == Establishing)
      case ReceiveHandshake(_) => Nested(t, rest) || rest == Empty
      case OnHandshakeError => rest.On? && rest.top.HandshakeFinished? && Bottom(rest.below)
      case HandshakeFinished(failed) => (Nested(t, rest) && !failed) || Bottom(rest)
      case Flush(_) => Bottom(rest) || (rest == STARTING && t.eventQueue == [])
      case EventToChild(e, again) =>
        if again then !e.OpenCompleted? && rest.On? && rest.top.Flush? && Bottom(rest.below)
        else if e.OpenCompleted? then
          && t.commandToReplyTo == Some(e.command) && Under(t.kind.feeds, rest) && rest.On?
          && (if t.state == Establishing then rest.top.OpenFailed? else rest.top.ForgetCommand?)
        else rest == Empty || (rest == On(EndClosed, Empty) && t.state == Open) || (rest.top.ReceiveHandshake? && Under(t.kind.feeds, rest))
      case AwaitOpen(c) => Commands(t.kind.feeds, rest) && t.commandToReplyTo == Some(c) && t.state == Establishing && !Answered(t)
      case HandleCommands(_) => Under(t.kind.feeds, rest)
      case _ => Under(t.kind.feeds, t.frames)
  }

  /** A handshake of the base class runs inside `start_handshake`. */
  predicate Nested(t: Tunnel, rest: Stack) {
    t.kind.feeds && t.state == Establishing && (rest == STARTING || (Commands(t.kind.feeds, rest) && t.commandToReplyTo.Some?))
  }

  predicate Waiting(frames: Stack) {
    frames.On? ==>
      || frames.top.ReceiveHandshake? || frames.top.OnHandshakeError? || frames.top.HandshakeFinished?
      || (frames.top.EventToChild? && !frames.top.again && !frames.top.event.OpenCompleted?
          && (frames.below.On? ==> frames.below.top.ReceiveHandshake?))
  }

  /** Events are buffered only while the tunnel waits for a handshake that nobody asked for. */
  ghost predicate QueueOk(t: Tunnel) {
    && (t.eventQueue != [] ==> (InFlush(t.frames) || (Buffering(t) && Waiting(t.frames))) && !t.kind.feeds)
    && (InFlush(t.frames) ==> !Buffering(t))
  }

  /** Somewhere above the next answer or flush a connection is being opened. */
  predicate Opening(frames: Stack) {
    && frames.On? && !frames.top.ForgetCommand? && !frames.top.Flush?
    && (frames.top.StartHandshake? || frames.top.ReceiveHandshake? || frames.top.HandshakeFinished? || frames.top.AwaitOpen?
        || frames.top.OpenFailed? || Opening(frames.below))
  }

  /** With the handshake of the base class nothing is ever left half open. */
  ghost predicate FeedsOk(t: Tunnel) {
    t.kind.feeds ==>
      && !t.log.gaveUp && (t.state == Establishing ==> Opening(t.frames))
      && (Buffering(t) ==> t.frames.On? && t.frames.below == STARTING
                           && (t.frames.top.StartHandshake? || t.frames.top.ReceiveHandshake? || t.frames.top.HandshakeFinished?))
  }

  predicate Distinct(replies: seq<nat>) {
    forall i, j :: 0 <= i < j < |replies| ==> replies[i] != replies[j]
  }

  /** The next event given to the child answers a command that has been answered. */
  predicate AnswersAgain(t: Tunnel) {
    t.frames.On? && t.frames.top.EventToChild? && t.frames.top.event.OpenCompleted? && !t.muted && Answered(t)
  }

  ghost predicate RepliesOk(t: Tunnel) {
    var replies := Replies(t.log.delivered);
    && (t.log.doubled <==> !Distinct(replies) || AnswersAgain(t))
    && (forall c :: c in replies ==> c < t.issued)
    && (t.commandToReplyTo.Some? ==> t.commandToReplyTo.value < t.issued)
    && (t.state == Establishing && Answered(t) ==> Failing(t.frames))
  }

  ghost predicate OrderOk(t: Tunnel) {
    && (if t.muted then WithoutReplies(t.log.delivered) <= t.log.handed
        else WithoutReplies(t.log.delivered) + Pending(t.frames, t.eventQueue) == t.log.handed)
    && FlushesWithin(t.frames, |t.eventQueue|)
    && (forall i :: 0 <= i < |t.eventQueue| ==> !t.eventQueue[i].OpenCompleted?)
    && (if t.log.handed == [] then StartsBelow(t.frames) && t.eventQueue == [] && !t.muted else t.log.handed[0] == Start && !StartsBelow(t.frames))
  }

  predicate StartsBelow(frames: Stack) {
    frames == STARTING
    || (frames.On? && frames.below == STARTING
        && (frames.top.StartHandshake? || frames.top.ReceiveHandshake? || frames.top.HandshakeFinished? || frames.top.Flush?))
  }

  /** The child is given Start first. */
  ghost predicate FirstOk(t: Tunnel) {
    if t.log.delivered == [] then t.issued == 0 && t.commandToReplyTo.None? && !Called(t.frames) else t.log.delivered[0] == Start
  }

  predicate Called(frames: Stack) {
    frames.On? && (frames.top.HandleCommands? || Called(frames.below))
  }

  /** Nothing here can reach the child before a handshake has ended. */
  predicate Quiet(frames: Stack) {
    frames.On? ==>
      || frames.top.HandshakeFinished?
      || (Quiet(frames.below)
          && (frames.top.StartHandshake? || frames.top.ReceiveHandshake? || frames.top.OnHandshakeError?
              || (frames.top.EventToChild? && !frames.top.again && !frames.top.event.OpenCompleted?)))
  }

  ghost predicate SilentOk(t: Tunnel) {
    && (t.kind.startedOpen && !t.log.over && !t.log.gaveUp ==> t.log.delivered == [] && Buffering(t) && Quiet(t.frames))
    && (t.log.gaveUp && t.log.delivered == [] ==> !Buffering(t) && (t.frames == On(StartHandshake, STARTING) || t.frames == STARTING))
  }

  ghost predicate PauseOk(t: Tunnel) {
    t.paused.Some? ==>
      && t.paused.value.owner == t.kind.owner && t.paused.value.serial < t.asked && t.frames.On?
      && (t.frames.top.AwaitOpen? || t.frames.top.ReceiveHandshake? || t.frames.top.StartHandshake? || t.frames.top.OnHandshakeError?)
  }

  ghost predicate Inv(kind: Kind, t: Tunnel) {
    t.kind == kind && Shape(t) && QueueOk(t) && FeedsOk(t) && RepliesOk(t) && OrderOk(t) && FirstOk(t) && SilentOk(t) && PauseOk(t)
  }

  lemma {:induction false} RepliesAppend(a: seq<ChildEvent>, e: ChildEvent)
    ensures Replies(a + [e]) == Replies(a) + (if e.OpenCompleted? then [e.command] else [])
    ensures WithoutReplies(a + [e]) == WithoutReplies(a) + (if e.OpenCompleted? then [] else [e])
    decreases |a|
  {
    var last, rest := if e.OpenCompleted? then [e.command] else [], if e.OpenCompleted? then [] else [e];
    if a == [] {
      assert a + [e] == [e] && [e][1..] == [];
    } else {
      assert (a + [e])[1..] == a[1..] + [e] && (a + [e])[0] == a[0];
      RepliesAppend(a[1..], e);
      Associative(if a[0].OpenCompleted? then [a[0].command] else [], Replies(a[1..]), last);
      Associative(if a[0].OpenCompleted? then [] else [a[0]], WithoutReplies(a[1..]), rest);
    }
  }

  lemma AtBottom(feeds: bool, frames: Stack, queue: seq<ChildEvent>)
    requires Bottom(frames)
    ensures Under(feeds, frames) && Pending(frames, queue) == queue && !InFlush(frames) && !Failing(frames) && !Opening(frames)
    ensures FlushesWithin(frames, |queue|)
  {
    assert Pending(Empty, queue) == queue;
  }

  lemma InitialOk(kind: Kind)
    ensures Inv(kind, Initial(kind))
  {
  }

  lemma HandleOk(t: Tunnel, x: Arrival)
    requires Inv(t.kind, t) && t.frames == Empty && t.paused.None?
    ensures Inv(t.kind, Handle(t, x))
  {
    var t' := Handle(t, x);
    HandleShape(t, x);
    HandleFrames(t, x);
    SameOrder(t, t');
    HandleRest(t, x);
  }

  lemma HandleRest(t: Tunnel, x: Arrival)
    requires RepliesOk(t) && FirstOk(t) && SilentOk(t) && t.frames == Empty && t.paused.None?
    requires !Failing(Handle(t, x).frames) && !Called(Handle(t, x).frames) && (t.state == Establishing ==> Quiet(Handle(t, x).frames))
    ensures var t' := Handle(t, x); RepliesOk(t') && FirstOk(t') && SilentOk(t') && PauseOk(t') && t'.kind == t.kind
  {
  }

  lemma HandleShape(t: Tunnel, x: Arrival)
    requires Shape(t) && QueueOk(t) && FeedsOk(t) && t.frames == Empty
    ensures Shape(Handle(t, x)) && QueueOk(Handle(t, x)) && FeedsOk(Handle(t, x))
  {
    var frames := Handle(t, x).frames;
    assert !Opening(Empty);
    assert frames.On? ==> !InFlush(frames.below);
  }

  lemma HandleFrames(t: Tunnel, x: Arrival)
    requires t.frames == Empty
    ensures var frames := Handle(t, x).frames;
            Pending(frames, t.eventQueue) == t.eventQueue == Pending(t.frames, t.eventQueue) && FlushesWithin(frames, |t.eventQueue|)
            && !StartsBelow(frames) && !StartsBelow(t.frames) && !Failing(frames) && !Called(frames)
    ensures t.state == Establishing ==> Quiet(Handle(t, x).frames)
  {
    var frames, end := Handle(t, x).frames, On(EndClosed, Empty);
    AtBottom(t.kind.feeds, end, t.eventQueue);
    assert !Called(end);
    assert frames.On? ==> Pending(frames.below, t.eventQueue) == t.eventQueue && FlushesWithin(frames.below, |t.eventQueue|)
                          && !Failing(frames.below) && !Called(frames.below);
  }

  lemma AskOk(t: Tunnel)
    requires Inv(t.kind, t) && t.frames.On? && (t.frames.top.StartHandshake? || t.frames.top.ReceiveHandshake? || t.frames.top.OnHandshakeError?)
    ensures Inv(t.kind, Ask(t))
  {
    assert Ask(t).frames == t.frames && Ask(t).log == t.log;
  }

  lemma PopOk(t: Tunnel)
    requires Inv(t.kind, t) && t.paused.None? && t.frames.On? && !t.kind.feeds
    requires t.frames.top.StartHandshake? || (t.frames.top.ReceiveHandshake? && t.frames.below == Empty)
    ensures Inv(t.kind, t.(frames := t.frames.below))
  {
    var rest, t' := t.frames.below, t.(frames := t.frames.below);
    PopShape(t);
    assert Failing(t.frames) == Failing(rest) && Called(t.frames) == Called(rest) && Quiet(t.frames) == Quiet(rest);
    assert RepliesOk(t') && FirstOk(t');
    assert Pending(t.frames, t.eventQueue) == Pending(rest, t.eventQueue) && FlushesWithin(rest, |t.eventQueue|);
    assert OrderOk(t');
    assert SilentOk(t') && PauseOk(t');
  }

  lemma PopShape(t: Tunnel)
    requires Shape(t) && QueueOk(t) && FeedsOk(t) && t.frames.On? && !t.kind.feeds
    requires t.frames.top.StartHandshake? || (t.frames.top.ReceiveHandshake? && t.frames.below == Empty)
    ensures var t' := t.(frames := t.frames.below); Shape(t') && QueueOk(t') && FeedsOk(t')
  {
    assert InFlush(t.frames) == InFlush(t.frames.below);
  }

  lemma FeedOk(t: Tunnel)
    requires Inv(t.kind, t) && t.paused.None? && t.frames.On? && t.frames.top.StartHandshake? && t.kind.feeds
    ensures Inv(t.kind, t.(frames := On(ReceiveHandshake([]), t.frames.below)))
  {
    var rest := t.frames.below;
    assert InFlush(t.frames) == InFlush(rest) && Failing(t.frames) == Failing(rest);
  }

  /** Before Start has been given nothing has happened. */
  lemma NotYetStarted(t: Tunnel)
    requires OrderOk(t) && FirstOk(t) && StartsBelow(t.frames)
    ensures t.log.handed == [] && t.log.delivered == [] && t.commandToReplyTo.None? && t.eventQueue == [] && !t.muted
  {
    assert WithoutReplies(t.log.delivered) <= t.log.handed;
    assert t.log.delivered != [] ==> WithoutReplies(t.log.delivered) != [];
  }

  lemma BeginHandshakeOk(t: Tunnel, o: Outside)
    requires Inv(t.kind, t) && Working(t) && t.frames.On? && t.frames.top.StartHandshake?
    ensures Inv(t.kind, Advance(t, o))
  {
    if t.kind.feeds {
      FeedOk(t);
    } else if o.action.Yields? {
      AskOk(t);
    } else if o.action.Returns? {
      PopOk(t);
    } else if o.action.GivesUp? && t.commandToReplyTo.None? {
      assert t.frames == On(StartHandshake, STARTING);
      NotYetStarted(t);
    }
  }

  lemma ContinueHandshakeOk(t: Tunnel, o: Outside)
    requires Inv(t.kind, t) && Working(t) && t.frames.On? && t.frames.top.ReceiveHandshake?
    ensures Inv(t.kind, Advance(t, o))
  {
    if t.kind.feeds {
      FedOk(t);
    } else if o.action.Yields? {
      AskOk(t);
    } else if o.action.Returns? {
      if o.action.failed {
        ErrorOk(t);
      } else if o.action.done {
        DoneOk(t);
      } else {
        PopOk(t);
      }
    } else if o.action.Delivers? {
      HandOverOk(t, Data(o.action.data));
    } else if o.action.DeliversClose? {
      HandOverOk(t, ConnectionClosed);
    }
  }

  lemma FedOk(t: Tunnel)
    requires Inv(t.kind, t) && t.paused.None? && t.frames.On? && t.frames.top.ReceiveHandshake? && t.kind.feeds
    ensures Inv(t.kind, t.(frames := On(HandshakeFinished(false), t.frames.below)))
  {
    var rest := t.frames.below;
    var last := On(HandshakeFinished(false), rest);
    assert InFlush(last) == InFlush(rest) == InFlush(t.frames) && Failing(last) == Failing(rest) == Failing(t.frames);
  }

  lemma HandOverOk(t: Tunnel, e: ChildEvent)
    requires Inv(t.kind, t) && t.paused.None? && t.frames.On? && t.frames.top.ReceiveHandshake? && !t.kind.feeds
    requires e.Data? || e.ConnectionClosed?
    ensures Inv(t.kind, t.(frames := On(EventToChild(e, false), t.frames)))
  {
    var t' := t.(frames := On(EventToChild(e, false), t.frames));
    HandOverShape(t, e);
    assert Failing(t'.frames) == Failing(t.frames) && Called(t'.frames) == Called(t.frames) && Quiet(t'.frames) == Quiet(t.frames);
    assert RepliesOk(t') && FirstOk(t');
    assert Pending(t'.frames, t.eventQueue) == Pending(t.frames, t.eventQueue);
    assert OrderOk(t');
    assert SilentOk(t') && PauseOk(t');
  }

  lemma HandOverShape(t: Tunnel, e: ChildEvent)
    requires Shape(t) && QueueOk(t) && FeedsOk(t) && t.frames.On? && t.frames.top.ReceiveHandshake? && !t.kind.feeds
    requires e.Data? || e.ConnectionClosed?
    ensures var t' := t.(frames := On(EventToChild(e, false), t.frames)); Shape(t') && QueueOk(t') && FeedsOk(t')
  {
    assert t.frames.below == Empty && Under(t.kind.feeds, t.frames);
    assert InFlush(On(EventToChild(e, false), t.frames)) == InFlush(t.frames);
  }

  lemma ErrorOk(t: Tunnel)
    requires Inv(t.kind, t) && t.paused.None? && t.frames.On? && t.frames.top.ReceiveHandshake? && t.frames.below == Empty
    ensures Inv(t.kind, t.(frames := On(OnHandshakeError, On(HandshakeFinished(true), Empty))))
  {
    AtBottom(t.kind.feeds, Empty, t.eventQueue);
    var last := On(HandshakeFinished(true), Empty);
    assert Pending(last, t.eventQueue) == t.eventQueue && !InFlush(last) && !Failing(last) && FlushesWithin(last, |t.eventQueue|);
    assert Pending(t.frames, t.eventQueue) == t.eventQueue && !Failing(t.frames) && Opening(last);
  }

  lemma DoneOk(t: Tunnel)
    requires Inv(t.kind, t) && t.paused.None? && t.frames.On? && t.frames.top.ReceiveHandshake? && t.frames.below == Empty
    ensures Inv(t.kind, t.(frames := On(HandshakeFinished(false), Empty)))
  {
    AtBottom(t.kind.feeds, Empty, t.eventQueue);
    assert Pending(t.frames, t.eventQueue) == t.eventQueue && !Failing(t.frames);
  }

  lemma ReportErrorOk(t: Tunnel, o: Outside)
    requires Inv(t.kind, t) && Working(t) && t.frames.On? && t.frames.top.OnHandshakeError?
    ensures Inv(t.kind, Advance(t, o))
  {
    if o.action.Yields? {
      AskOk(t);
    } else if o.action.Silences? {
      assert WithoutReplies(t.log.delivered) <= t.log.handed;
    }
  }

  lemma EndHandshakeOk(t: Tunnel, o: Outside)
    requires Inv(t.kind, t) && Working(t) && t.frames.On? && t.frames.top.HandshakeFinished?
    ensures Inv(t.kind, Advance(t, o))
  {
    var rest, t' := t.frames.below, Advance(t, o);
    if StartsBelow(t.frames) {
      NotYetStarted(t);
    }
    EndHandshakeShape(t, o);
    EndHandshakeOrder(t, o);
    assert Called(On(ForgetCommand, rest)) == Called(rest) == Called(t.frames);
    assert RepliesOk(t') && FirstOk(t');
    assert SilentOk(t') && PauseOk(t');
  }

  lemma EndHandshakeShape(t: Tunnel, o: Outside)
    requires Shape(t) && QueueOk(t) && FeedsOk(t) && Working(t) && t.frames.On? && t.frames.top.HandshakeFinished?
    requires StartsBelow(t.frames) ==> t.commandToReplyTo.None? && t.eventQueue == []
    ensures Shape(Advance(t, o)) && QueueOk(Advance(t, o)) && FeedsOk(Advance(t, o))
  {
    var rest := t.frames.below;
    if Bottom(rest) {
      AtBottom(t.kind.feeds, rest, t.eventQueue);
    }
    assert InFlush(On(ForgetCommand, rest)) == InFlush(rest) == InFlush(t.frames);
  }

  /** What is in order stays in order when the frames change and nothing is given or buffered. */
  lemma SameOrder(t: Tunnel, t': Tunnel)
    requires OrderOk(t) && t'.muted == t.muted && t'.eventQueue == t.eventQueue
    requires t'.log.delivered == t.log.delivered && t'.log.handed == t.log.handed
    requires Pending(t'.frames, t.eventQueue) == Pending(t.frames, t.eventQueue) && FlushesWithin(t'.frames, |t.eventQueue|)
    requires StartsBelow(t'.frames) == StartsBelow(t.frames)
    ensures OrderOk(t')
  {
  }

  lemma EndHandshakeOrder(t: Tunnel, o: Outside)
    requires Shape(t) && OrderOk(t) && Working(t) && t.frames.On? && t.frames.top.HandshakeFinished?
    requires StartsBelow(t.frames) ==> t.commandToReplyTo.None? && t.eventQueue == []
    ensures OrderOk(Advance(t, o))
  {
    var rest, frames := t.frames.below, Advance(t, o).frames;
    assert Pending(rest, t.eventQueue) == Pending(t.frames, t.eventQueue) && FlushesWithin(rest, |t.eventQueue|);
    if t.commandToReplyTo.Some? {
      AnswerPending(t.eventQueue, frames, rest);
    } else {
      FlushPending(t.eventQueue, rest);
    }
    SameOrder(t, Advance(t, o));
  }

  lemma AnswerPending(queue: seq<ChildEvent>, frames: Stack, rest: Stack)
    requires frames.On? && frames.top.EventToChild? && !frames.top.again && frames.top.event.OpenCompleted?
    requires frames.below == On(ForgetCommand, rest) && FlushesWithin(rest, |queue|)
    ensures Pending(frames, queue) == Pending(rest, queue) && FlushesWithin(frames, |queue|) && !StartsBelow(frames)
  {
    assert Pending(frames.below, queue) == Pending(rest, queue) && FlushesWithin(frames.below, |queue|);
  }

  lemma FlushPending(queue: seq<ChildEvent>, rest: Stack)
    requires (Bottom(rest) || (rest == STARTING && queue == [])) && FlushesWithin(rest, |queue|)
    ensures Pending(On(Flush(0), rest), queue) == Pending(rest, queue) && FlushesWithin(On(Flush(0), rest), |queue|)
    ensures StartsBelow(On(Flush(0), rest)) <==> rest == STARTING
  {
    if Bottom(rest) {
      AtBottom(false, rest, queue);
    } else {
      assert Pending(Empty, queue) == [];
    }
  }

  lemma FlushOk(t: Tunnel, o: Outside)
    requires Inv(t.kind, t) && Working(t) && t.frames.On? && t.frames.top.Flush?
    ensures Inv(t.kind, Advance(t, o))
  {
    if t.frames.top.next < |t.eventQueue| {
      FlushNextOk(t, o);
    } else {
      FlushEndOk(t, o);
    }
  }

  lemma FlushNextOk(t: Tunnel, o: Outside)
    requires Inv(t.kind, t) && Working(t) && t.frames.On? && t.frames.top.Flush? && t.frames.top.next < |t.eventQueue|
    ensures Inv(t.kind, Advance(t, o))
  {
    var i := t.frames.top.next;
    assert t.eventQueue[i..] == [t.eventQueue[i]] + t.eventQueue[i + 1..];
  }

  lemma FlushEndOk(t: Tunnel, o: Outside)
    requires Inv(t.kind, t) && Working(t) && t.frames.On? && t.frames.top.Flush? && t.frames.top.next >= |t.eventQueue|
    ensures Inv(t.kind, Advance(t, o))
  {
    var t', rest := Advance(t, o), t.frames.below;
    FlushEndShape(t);
    FlushEndOrder(t);
    assert !Failing(rest) && !Failing(t.frames) && Called(t.frames) == Called(rest);
    SameRecord(t, t');
    assert SilentOk(t') && PauseOk(t');
  }

  /** The record stays right when only the frames and the queue change. */
  lemma SameRecord(t: Tunnel, t': Tunnel)
    requires RepliesOk(t) && FirstOk(t) && !AnswersAgain(t) && !AnswersAgain(t')
    requires t' == t.(frames := t'.frames, eventQueue := t'.eventQueue)
    requires Failing(t'.frames) == Failing(t.frames) && Called(t'.frames) == Called(t.frames)
    ensures RepliesOk(t') && FirstOk(t')
  {
  }

  lemma FlushEndShape(t: Tunnel)
    requires Shape(t) && QueueOk(t) && FeedsOk(t) && t.frames.On? && t.frames.top.Flush?
    ensures var t' := t.(frames := t.frames.below, eventQueue := []); Shape(t') && QueueOk(t') && FeedsOk(t')
    ensures !Failing(t.frames.below)
  {
    var rest := t.frames.below;
    assert !Opening(t.frames) && !InFlush(rest);
  }

  lemma FlushEndOrder(t: Tunnel)
    requires Shape(t) && OrderOk(t) && t.frames.On? && t.frames.top.Flush? && t.frames.top.next >= |t.eventQueue|
    ensures OrderOk(t.(frames := t.frames.below, eventQueue := []))
  {
    var rest := t.frames.below;
    assert t.eventQueue[t.frames.top.next..] == [];
    assert Pending(rest, []) == [] && FlushesWithin(rest, 0);
  }

  lemma CleanupOk(t: Tunnel, o: Outside)
    requires Inv(t.kind, t) && Working(t) && t.frames.On?
    requires t.frames.top.ForgetCommand? || t.frames.top.OpenFailed? || t.frames.top.EndClosed?
    ensures Inv(t.kind, Advance(t, o))
  {
    var rest, t' := t.frames.below, Advance(t, o);
    CleanupShape(t, o);
    assert Called(t.frames) == Called(rest);
    assert RepliesOk(t') && FirstOk(t');
    assert SilentOk(t') && PauseOk(t');
    assert OrderOk(t');
  }

  lemma CleanupShape(t: Tunnel, o: Outside)
    requires Shape(t) && QueueOk(t) && FeedsOk(t) && Working(t) && t.frames.On?
    requires t.frames.top.ForgetCommand? || t.frames.top.OpenFailed? || t.frames.top.EndClosed?
    ensures Shape(Advance(t, o)) && QueueOk(Advance(t, o)) && FeedsOk(Advance(t, o))
  {
    var rest := t.frames.below;
    if Bottom(rest) {
      AtBottom(t.kind.feeds, rest, t.eventQueue);
    } else {
      assert Calling(rest) && Under(t.kind.feeds, rest.below);
    }
    assert InFlush(t.frames) == InFlush(rest) && (t.frames.top.ForgetCommand? ==> !Opening(t.frames));
  }

  lemma CommandsEndOk(t: Tunnel, o: Outside)
    requires Inv(t.kind, t) && Working(t) && t.frames.On? && t.frames.top == HandleCommands([])
    ensures Inv(t.kind, Advance(t, o))
  {
    var rest, t' := t.frames.below, Advance(t, o);
    CommandsEndShape(t);
    assert Failing(t.frames) == Failing(rest);
    assert RepliesOk(t') && FirstOk(t');
    assert SilentOk(t') && PauseOk(t');
    assert OrderOk(t');
  }

  lemma CommandsEndShape(t: Tunnel)
    requires Shape(t) && QueueOk(t) && FeedsOk(t) && t.frames.On? && t.frames.top.HandleCommands?
    ensures var t' := t.(frames := t.frames.below); Shape(t') && QueueOk(t') && FeedsOk(t')
  {
    var rest := t.frames.below;
    assert InFlush(t.frames) == InFlush(rest) && Opening(t.frames) == Opening(rest);
    if Bottom(rest) {
      AtBottom(t.kind.feeds, rest, t.eventQueue);
    }
  }

  lemma CommandDoneOk(t: Tunnel, o: Outside)
    requires Inv(t.kind, t) && Working(t) && t.frames.On? && t.frames.top.HandleCommands?
    requires t.frames.top.commands != [] && !t.frames.top.commands[0].OpenConnection?
    ensures Inv(t.kind, Advance(t, o))
  {
    var rest, t' := t.frames.below, Advance(t, o);
    assert t'.frames == On(HandleCommands(t.frames.top.commands[1..]), rest);
    assert InFlush(t.frames) == InFlush(rest) == InFlush(t'.frames) && Failing(t'.frames) == Failing(rest);
    assert Shape(t') && QueueOk(t') && FeedsOk(t');
    assert SilentOk(t') && PauseOk(t');
    assert OrderOk(t');
  }

  lemma OpenConnectionOk(t: Tunnel, o: Outside)
    requires Inv(t.kind, t) && Working(t) && t.frames.On? && t.frames.top.HandleCommands?
    requires t.frames.top.commands != [] && t.frames.top.commands[0].OpenConnection?
    ensures Inv(t.kind, Advance(t, o))
  {
    var rest, t' := t.frames.below, Advance(t, o);
    var later := On(HandleCommands(t.frames.top.commands[1..]), rest);
    assert t.issued !in Replies(t.log.delivered) && t.log.delivered != [];
    OpenShape(t, o);
    assert RepliesOk(t') && FirstOk(t');
    assert Pending(later, t.eventQueue) == Pending(rest, t.eventQueue) && FlushesWithin(later, |t.eventQueue|);
    SameOrder(t, t');
    assert SilentOk(t') && PauseOk(t');
  }

  lemma OpenShape(t: Tunnel, o: Outside)
    requires Shape(t) && QueueOk(t) && FeedsOk(t) && Working(t) && AsksToOpen(t.frames) && t.issued !in Replies(t.log.delivered)
    ensures Shape(Advance(t, o)) && QueueOk(Advance(t, o)) && FeedsOk(Advance(t, o))
  {
    var rest := t.frames.below;
    var later := On(HandleCommands(t.frames.top.commands[1..]), rest);
    assert InFlush(t.frames) == InFlush(rest) == InFlush(later);
  }

  predicate AsksToOpen(frames: Stack) {
    frames.On? && frames.top.HandleCommands? && frames.top.commands != [] && frames.top.commands[0].OpenConnection?
  }

  lemma BelowShape(t: Tunnel, log: Log)
    requires Shape(t) && QueueOk(t) && FeedsOk(t) && t.frames.On? && t.frames.top.EventToChild? && log == t.log.(handed := log.handed)
    ensures var t' := t.(frames := t.frames.below, log := log); Shape(t') && QueueOk(t') && FeedsOk(t')
  {
    var rest := t.frames.below;
    assert InFlush(t.frames) == InFlush(rest) && Opening(t.frames) == Opening(rest);
  }

  lemma SwallowOk(t: Tunnel, o: Outside)
    requires Inv(t.kind, t) && Working(t) && t.frames.On? && t.frames.top.EventToChild? && t.muted
    ensures Inv(t.kind, Advance(t, o))
  {
    var rest, t' := t.frames.below, Advance(t, o);
    BelowShape(t, t'.log);
    assert Failing(t.frames) == Failing(rest) && Called(t.frames) == Called(rest) && (Quiet(t.frames) ==> Quiet(rest));
    assert RepliesOk(t') && FirstOk(t');
    SwallowOrder(t, t'.log);
    assert SilentOk(t') && PauseOk(t');
  }

  lemma SwallowOrder(t: Tunnel, log: Log)
    requires Shape(t) && OrderOk(t) && t.frames.On? && t.frames.top.EventToChild? && t.muted
    requires log.delivered == t.log.delivered && (log.handed == t.log.handed || log.handed == t.log.handed + [t.frames.top.event])
    ensures OrderOk(t.(frames := t.frames.below, log := log))
  {
    var rest := t.frames.below;
    assert rest.On? ==> !rest.top.EventToChild? && (rest.top.Flush? ==> Bottom(rest.below));
    assert !StartsBelow(rest);
  }

  lemma BufferOk(t: Tunnel, o: Outside)
    requires Inv(t.kind, t) && Working(t) && t.frames.On? && t.frames.top.EventToChild? && !t.muted && Buffering(t)
    ensures Inv(t.kind, Advance(t, o))
  {
    var rest, e, t' := t.frames.below, t.frames.top.event, Advance(t, o);
    assert InFlush(t.frames) == InFlush(rest) == false;
    assert !t.kind.feeds && !e.OpenCompleted?;
    assert !t.frames.top.again;
    BufferedLast(t.kind.feeds, rest, t.eventQueue, e);
    Associative(WithoutReplies(t.log.delivered), t.eventQueue, [e]);
    assert Shape(t') && QueueOk(t') && FeedsOk(t');
    assert RepliesOk(t') && SilentOk(t') && PauseOk(t');
    assert OrderOk(t');
  }

  lemma BufferedLast(feeds: bool, rest: Stack, queue: seq<ChildEvent>, e: ChildEvent)
    requires Bottom(rest) || (rest.On? && rest.top.ReceiveHandshake? && Under(feeds, rest))
    ensures Pending(rest, queue) == queue && Pending(rest, queue + [e]) == queue + [e]
    ensures FlushesWithin(rest, |queue| + 1) && !Failing(rest)
  {
    AtBottom(feeds, Empty, queue);
    AtBottom(feeds, Empty, queue + [e]);
  }

  lemma DeliveredReplies(t: Tunnel, e: ChildEvent, again: bool, rest: Stack, commands: seq<ChildCommand>)
    requires Inv(t.kind, t) && t.frames == On(EventToChild(e, again), rest) && !Buffering(t) && !t.muted
    ensures RepliesOk(GiveToChild(t, e, again, rest, commands))
  {
    RepliesAppend(t.log.delivered, e);
    var t', replies := GiveToChild(t, e, again, rest, commands), Replies(t.log.delivered);
    assert t'.frames == On(HandleCommands(commands), rest) && !AnswersAgain(t');
    assert Failing(t'.frames) == Failing(rest) == Failing(t.frames);
    if e.OpenCompleted? {
      OneMoreReply(replies, e.command);
      assert Replies(t'.log.delivered) == replies + [e.command];
    } else {
      assert replies + [] == replies && Replies(t'.log.delivered) == replies && !AnswersAgain(t);
    }
  }

  lemma OneMoreReply(replies: seq<nat>, c: nat)
    ensures Distinct(replies + [c]) <==> Distinct(replies) && c !in replies
  {
    var all := replies + [c];
    assert all[|replies|] == c;
    if c in replies {
      var i :| 0 <= i < |replies| && replies[i] == c;
      assert all[i] == all[|replies|];
    }
    assert forall i :: 0 <= i < |replies| ==> all[i] == replies[i];
  }

  /** What has been delivered and what is still on its way, once one more event is delivered. */
  lemma DeliveredKeepsOrder(t: Tunnel, e: ChildEvent, again: bool, rest: Stack)
    requires Inv(t.kind, t) && t.frames == On(EventToChild(e, again), rest) && !Buffering(t) && !t.muted
    ensures WithoutReplies(t.log.delivered + [e]) + Pending(rest, t.eventQueue)
         == if again || e.OpenCompleted? then t.log.handed else t.log.handed + [e]
  {
    RepliesAppend(t.log.delivered, e);
    if again {
      Associative(WithoutReplies(t.log.delivered), [e], Pending(rest, t.eventQueue));
    } else if !e.OpenCompleted? {
      NothingPending(t, rest);
    }
  }

  lemma NothingPending(t: Tunnel, rest: Stack)
    requires QueueOk(t) && !Buffering(t) && t.frames.On? && t.frames.below == rest && !t.frames.top.Flush?
    requires Bottom(rest) || (rest.On? && rest.top.ReceiveHandshake? && Under(t.kind.feeds, rest))
    ensures Pending(rest, t.eventQueue) == [] && t.eventQueue == []
  {
    if Bottom(rest) {
      AtBottom(t.kind.feeds, rest, t.eventQueue);
    } else {
      AtBottom(t.kind.feeds, rest.below, t.eventQueue);
      assert !InFlush(rest);
    }
  }

  lemma DeliveredFirst(t: Tunnel, e: ChildEvent, again: bool, rest: Stack)
    requires Inv(t.kind, t) && t.frames == On(EventToChild(e, again), rest) && !Buffering(t) && !t.muted
    ensures t.log.delivered == [] ==> e == Start
  {
    if t.log.delivered == [] && !again {
      NothingPending(t, rest);
      assert Pending(t.frames, t.eventQueue) == Pending(rest, t.eventQueue);
    }
  }

  lemma DeliveredOrder(t: Tunnel, e: ChildEvent, again: bool, rest: Stack, commands: seq<ChildCommand>)
    requires Inv(t.kind, t) && t.frames == On(EventToChild(e, again), rest) && !Buffering(t) && !t.muted
    ensures OrderOk(GiveToChild(t, e, again, rest, commands))
  {
    var next := On(HandleCommands(commands), rest);
    assert InFlush(next) == InFlush(rest) == InFlush(t.frames);
    DeliveredKeepsOrder(t, e, again, rest);
    assert Pending(next, t.eventQueue) == Pending(rest, t.eventQueue);
    if t.log.handed == [] {
      assert t.frames == STARTING;
    }
  }

  lemma DeliverOk(t: Tunnel, o: Outside)
    requires Inv(t.kind, t) && Working(t) && t.frames.On? && t.frames.top.EventToChild? && !t.muted && !Buffering(t)
    ensures Inv(t.kind, Advance(t, o))
  {
    var t', rest := Advance(t, o), t.frames.below;
    DeliveredReplies(t, t.frames.top.event, t.frames.top.again, rest, o.commands);
    DeliveredOrder(t, t.frames.top.event, t.frames.top.again, rest, o.commands);
    DeliveredFirst(t, t.frames.top.event, t.frames.top.again, rest);
    DeliveredShape(t, o);
    assert FirstOk(t');
    assert SilentOk(t') && PauseOk(t');
  }

  lemma DeliveredShape(t: Tunnel, o: Outside)
    requires Shape(t) && QueueOk(t) && FeedsOk(t) && Working(t)
    requires t.frames.On? && t.frames.top.EventToChild? && !t.muted && !Buffering(t)
    ensures Shape(Advance(t, o)) && QueueOk(Advance(t, o)) && FeedsOk(Advance(t, o))
  {
    var t', rest := Advance(t, o), t.frames.below;
    if Bottom(rest) {
      AtBottom(t.kind.feeds, rest, t.eventQueue);
    }
    assert InFlush(t'.frames) == InFlush(rest) == InFlush(t.frames) && Opening(t'.frames) == Opening(rest) == Opening(t.frames);
  }

  lemma AdvanceOk(t: Tunnel, o: Outside)
    requires Inv(t.kind, t) && Working(t)
    ensures Inv(t.kind, Advance(t, o))
  {
    match t.frames
    case Empty =>
      PauseOnly(t, None, t.pausedQueue[1..]);
      HandleOk(t.(pausedQueue := t.pausedQueue[1..]), t.pausedQueue[0]);
    case On(Flush(_), _) => FlushOk(t, o);
    case On(EventToChild(_, _), _) =>
      if t.muted { SwallowOk(t, o); } else if Buffering(t) { BufferOk(t, o); } else { DeliverOk(t, o); }
    case On(HandleCommands(commands), _) =>
      if commands == [] {
        CommandsEndOk(t, o);
      } else if commands[0].OpenConnection? {
        OpenConnectionOk(t, o);
      } else {
        CommandDoneOk(t, o);
      }
    case On(StartHandshake, _) => BeginHandshakeOk(t, o);
    case On(ReceiveHandshake(_), _) => ContinueHandshakeOk(t, o);
    case On(OnHandshakeError, _) => ReportErrorOk(t, o);
    case On(HandshakeFinished(_), _) => EndHandshakeOk(t, o);
    case On(AwaitOpen(_), _) =>
    case On(_, _) => CleanupOk(t, o);
  }

  lemma ResumeOk(t: Tunnel, failed: bool)
    requires Inv(t.kind, t) && t.paused.None?
    ensures Inv(t.kind, Resume(t, failed))
  {
    if t.frames.On? && t.frames.top.AwaitOpen? {
      var rest := t.frames.below;
      assert InFlush(t.frames) == InFlush(rest) && Failing(t.frames) == Failing(rest);
      assert Under(t.kind.feeds, On(OpenFailed, rest));
      assert Pending(On(OpenFailed, rest), t.eventQueue) == Pending(rest, t.eventQueue);
      assert InFlush(On(OpenFailed, rest)) == InFlush(rest);
      assert FlushesWithin(On(OpenFailed, rest), |t.eventQueue|);
    }
  }

  lemma ArriveOk(t: Tunnel, x: Arrival)
    requires Inv(t.kind, t) && !Working(t)
    ensures Inv(t.kind, Arrive(t, x))
  {
    if t.paused.None? {
      HandleOk(t, x);
    } else if IsOwnReply(t, x) {
      PauseOnly(t, None, t.pausedQueue);
      ResumeOk(t.(paused := None), x.failed);
    } else {
      PauseOnly(t, t.paused, t.pausedQueue + [x]);
    }
  }

  /** Nothing but the pausing itself depends on the pause and on what it has buffered. */
  lemma PauseOnly(t: Tunnel, paused: Option<L.CmdId>, queue: seq<Arrival>)
    requires Inv(t.kind, t) && (paused.None? || paused == t.paused)
    ensures Inv(t.kind, t.(paused := paused, pausedQueue := queue))
  {
    var t' := t.(paused := paused, pausedQueue := queue);
    assert t'.frames == t.frames && t'.log.delivered == t.log.delivered;
    assert Shape(t') && QueueOk(t') && FeedsOk(t');
    assert RepliesOk(t') && OrderOk(t') && SilentOk(t');
  }

  lemma NextOk(t: Tunnel, m: Move)
    requires Inv(t.kind, t)
    ensures Inv(t.kind, Next(t, m))
  {
    match m
    case Event(x) => if !Working(t) { ArriveOk(t, x); }
    case Work(o) => if Working(t) { AdvanceOk(t, o); }
  }

  // ----- careful children -----

  predicate Handshaking(frame: Frame) {
    frame.StartHandshake? || frame.ReceiveHandshake? || frame.OnHandshakeError? || frame.HandshakeFinished?
  }

  predicate InHandshake(frames: Stack) {
    frames.On? && (Handshaking(frames.top) || InHandshake(frames.below))
  }

  /** No connection is being opened below the handshake, and none above it. */
  predicate HandshakeOnTop(frames: Stack) {
    && frames.On?
    && if frames.top.OnHandshakeError? then frames.below.On? && frames.below.top.HandshakeFinished? && !InHandshake(frames.below.below)
       else if Handshaking(frames.top) then !InHandshake(frames.below)
       else && frames.below.On? && frames.below.top.ReceiveHandshake? && !InHandshake(frames.below.below)
            && (frames.top.HandleCommands? || (frames.top.EventToChild? && !frames.top.event.OpenCompleted?))
  }

  predicate Receiving(frames: Stack) {
    frames.On? && (frames.top.ReceiveHandshake? || Receiving(frames.below))
  }

  ghost predicate CarefulOk(t: Tunnel) {
    && !t.log.doubled
    && (InHandshake(t.frames) ==> !Answered(t) && HandshakeOnTop(t.frames))
    && (Receiving(t.frames) ==> t.state == Establishing && (t.frames.top.HandleCommands? ==> t.commandToReplyTo.Some?))
  }

  lemma CarefulArrive(t: Tunnel, x: Arrival)
    requires Inv(t.kind, t) && CarefulOk(t) && !Working(t)
    ensures CarefulOk(Arrive(t, x))
  {
    if t.paused.None? {
      CarefulHandle(t, x);
    } else if IsOwnReply(t, x) {
      var rest := t.frames.below;
      ReceivingIsHandshake(rest);
      if t.frames.top.AwaitOpen? {
        assert !InHandshake(t.frames) && !InHandshake(rest);
        assert InHandshake(On(OpenFailed, rest)) == InHandshake(rest) && Receiving(On(OpenFailed, rest)) == Receiving(rest);
      }
    }
  }

  lemma ReceivingIsHandshake(frames: Stack)
    ensures Receiving(frames) ==> InHandshake(frames)
  {
  }

  lemma CarefulHandle(t: Tunnel, x: Arrival)
    requires Inv(t.kind, t) && CarefulOk(t) && t.paused.None? && t.frames == Empty
    ensures CarefulOk(Handle(t, x))
  {
    assert t.state == Establishing ==> !Answered(t);
  }

  lemma CarefulGive(t: Tunnel, o: Outside)
    requires Inv(t.kind, t) && CarefulOk(t) && Working(t) && t.frames.On? && t.frames.top.EventToChild?
    ensures CarefulOk(Advance(t, o))
  {
    var rest, e := t.frames.below, t.frames.top.event;
    RepliesAppend(t.log.delivered, e);
    ReceivingIsHandshake(rest);
  }

  lemma CarefulCommand(t: Tunnel, o: Outside)
    requires Inv(t.kind, t) && CarefulOk(t) && Working(t) && t.frames.On? && t.frames.top.HandleCommands?
    requires AsksToOpen(t.frames) ==> !Outstanding(t)
    ensures CarefulOk(Advance(t, o))
  {
    var rest := t.frames.below;
    ReceivingIsHandshake(rest);
    if AsksToOpen(t.frames) {
      assert t.issued !in Replies(t.log.delivered);
      assert InHandshake(rest) ==> Receiving(t.frames);
      var later := On(HandleCommands(t.frames.top.commands[1..]), rest);
      assert InHandshake(later) == InHandshake(rest) == false && Receiving(later) == Receiving(rest);
    } else {
      assert InHandshake(t.frames) == InHandshake(rest) && Receiving(t.frames) == Receiving(rest);
    }
  }

  lemma CarefulHandshake(t: Tunnel, o: Outside)
    requires Inv(t.kind, t) && CarefulOk(t) && Working(t) && t.frames.On? && Handshaking(t.frames.top)
    ensures CarefulOk(Advance(t, o))
  {
    assert InHandshake(t.frames);
    match t.frames.top
    case StartHandshake => CarefulBegin(t, o);
    case ReceiveHandshake(_) => CarefulContinue(t, o);
    case OnHandshakeError => CarefulReport(t, o);
    case HandshakeFinished(_) => CarefulEnd(t, o);
  }

  lemma CarefulBegin(t: Tunnel, o: Outside)
    requires CarefulOk(t) && Working(t) && t.frames.On? && t.frames.top.StartHandshake? && (t.kind.feeds ==> t.state == Establishing)
    ensures CarefulOk(Advance(t, o))
  {
    var rest, t' := t.frames.below, Advance(t, o);
    assert InHandshake(t.frames) && HandshakeOnTop(t.frames) && !InHandshake(rest);
    ReceivingIsHandshake(rest);
    assert Answered(t') == Answered(t);
  }

  lemma CarefulContinue(t: Tunnel, o: Outside)
    requires CarefulOk(t) && Working(t) && t.frames.On? && t.frames.top.ReceiveHandshake? && (!t.kind.feeds ==> t.frames.below == Empty)
    ensures CarefulOk(Advance(t, o))
  {
    var rest := t.frames.below;
    assert InHandshake(t.frames) && HandshakeOnTop(t.frames) && !InHandshake(rest);
    ReceivingIsHandshake(rest);
    var last := On(HandshakeFinished(true), rest);
    assert !Receiving(last) && !Receiving(On(OnHandshakeError, last)) && !Receiving(On(HandshakeFinished(false), rest));
  }

  lemma CarefulReport(t: Tunnel, o: Outside)
    requires Inv(t.kind, t) && CarefulOk(t) && Working(t) && t.frames.On? && t.frames.top.OnHandshakeError?
    ensures CarefulOk(Advance(t, o))
  {
    assert InHandshake(t.frames) && HandshakeOnTop(t.frames);
    ReceivingIsHandshake(t.frames.below.below);
  }

  lemma CarefulEnd(t: Tunnel, o: Outside)
    requires Inv(t.kind, t) && CarefulOk(t) && Working(t) && t.frames.On? && t.frames.top.HandshakeFinished?
    ensures CarefulOk(Advance(t, o))
  {
    var rest, t' := t.frames.below, Advance(t, o);
    assert InHandshake(t.frames) && HandshakeOnTop(t.frames);
    assert InHandshake(On(ForgetCommand, rest)) == InHandshake(rest) == false;
    assert !InHandshake(t'.frames);
    ReceivingIsHandshake(t'.frames);
  }

  lemma CarefulRest(t: Tunnel, o: Outside)
    requires CarefulOk(t) && Working(t) && t.frames.On?
    requires !Handshaking(t.frames.top) && !t.frames.top.HandleCommands? && !t.frames.top.EventToChild?
    ensures CarefulOk(Advance(t, o))
  {
    var t' := Advance(t, o);
    assert !InHandshake(t.frames) && !InHandshake(t.frames.below);
    if t.frames.top.Flush? {
      assert !InHandshake(On(Flush(t.frames.top.next + 1), t.frames.below));
    }
    assert !InHandshake(t'.frames) && !t'.log.doubled;
    ReceivingIsHandshake(t'.frames);
  }

  lemma CarefulStep(t: Tunnel, m: Move)
    requires Inv(t.kind, t) && CarefulOk(t)
    requires m.Work? && Working(t) && AsksToOpen(t.frames) ==> !Outstanding(t)
    ensures CarefulOk(Next(t, m))
  {
    match m
    case Event(x) => if !Working(t) { CarefulArrive(t, x); }
    case Work(o) =>
      if Working(t) {
        if t.frames == Empty {
          PauseOnly(t, None, t.pausedQueue[1..]);
          CarefulHandle(t.(pausedQueue := t.pausedQueue[1..]), t.pausedQueue[0]);
        } else if t.frames.top.EventToChild? {
          CarefulGive(t, o);
        } else if t.frames.top.HandleCommands? {
          CarefulCommand(t, o);
        } else if Handshaking(t.frames.top) {
          CarefulHandshake(t, o);
        } else {
          CarefulRest(t, o);
        }
      }
  }

  // ----- what is meant for the child -----

  /** What an arrival means for the child, by the state of the tunnel when it is handled. */
  function Meaning(state: TunnelState, x: Arrival): seq<ChildEvent> {
    match x
    case TunnelData(d) => if state == Establishing then [] else [Data(d)]
    case TunnelClosed => if state == Open then [ConnectionClosed] else []
    case Other(tag) => [OtherEvent(tag)]
    case Reply(id, _) => [StrayReply(id)]
  }

  /** The arrival that a move starts to handle. */
  function Started(t: Tunnel, m: Move): seq<Arrival> {
    match m
    case Event(x) => if !Working(t) && t.paused.None? then [x] else []
    case Work(_) => if Working(t) && t.frames == Empty then [t.pausedQueue[0]] else []
  }

  /** What a handshake hands over in a move. */
  function HandedOver(t: Tunnel, m: Move): seq<ChildEvent> {
    if m.Work? && Working(t) && t.frames.On? && t.frames.top.ReceiveHandshake? && !t.kind.feeds then
      match m.outside.action
      case Delivers(d) => [Data(d)]
      case DeliversClose => [ConnectionClosed]
      case _ => []
    else []
  }

  function AcceptedBy(t: Tunnel, m: Move): seq<Arrival> {
    if m.Event? && !Working(t) && !IsOwnReply(t, m.arrival) then [m.arrival] else []
  }

  /** The events that a frame is about to hand to the child's side for the first time. */
  function OnItsWay(frames: Stack): seq<ChildEvent> {
    match frames
    case Empty => []
    case On(EventToChild(e, false), below) => (if e.OpenCompleted? then [] else [e]) + OnItsWay(below)
    case On(_, below) => OnItsWay(below)
  }

  function Known(t: Tunnel): seq<ChildEvent> {
    t.log.handed + OnItsWay(t.frames)
  }

  lemma HandleKnows(t: Tunnel, x: Arrival)
    requires t.frames == Empty
    ensures Known(Handle(t, x)) == Known(t) + Meaning(t.state, x)
  {
    var frames := Handle(t, x).frames;
    assert OnItsWay(Empty) == [] && OnItsWay(On(EndClosed, Empty)) == [];
    assert OnItsWay(On(HandshakeFinished(true), On(EndClosed, Empty))) == [];
    assert frames.On? && frames.top.EventToChild? ==> OnItsWay(frames) == [frames.top.event] + OnItsWay(frames.below);
    assert OnItsWay(frames) == Meaning(t.state, x);
    assert t.log.handed + [] == t.log.handed;
  }

  lemma GiveKnows(t: Tunnel, o: Outside)
    requires Working(t) && t.frames.On? && t.frames.top.EventToChild?
    ensures Known(Advance(t, o)) == Known(t)
  {
    var rest, e := t.frames.below, t.frames.top.event;
    assert OnItsWay(On(HandleCommands(o.commands), rest)) == OnItsWay(rest);
    if t.frames.top.again || e.OpenCompleted? {
      assert OnItsWay(t.frames) == OnItsWay(rest);
    } else {
      Associative(t.log.handed, [e], OnItsWay(rest));
    }
  }

  lemma HandshakeKnows(t: Tunnel, o: Outside)
    requires Inv(t.kind, t) && Working(t) && t.frames.On? && Handshaking(t.frames.top)
    ensures Known(Advance(t, o)) == Known(t) + HandedOver(t, Work(o))
  {
    if t.frames.top.ReceiveHandshake? {
      ReceiveKnows(t, o);
    } else {
      var rest := t.frames.below;
      assert OnItsWay(t.frames) == OnItsWay(rest) == OnItsWay(On(ForgetCommand, rest));
      assert Known(t) + [] == Known(t);
      EndKnows(t, o);
    }
  }

  lemma EndKnows(t: Tunnel, o: Outside)
    requires Working(t) && t.frames.On? && Handshaking(t.frames.top) && !t.frames.top.ReceiveHandshake?
    requires OnItsWay(t.frames) == OnItsWay(t.frames.below) == OnItsWay(On(ForgetCommand, t.frames.below))
    requires t.kind.feeds && t.frames.top.StartHandshake? ==> t.state == Establishing
    ensures Known(Advance(t, o)) == Known(t)
  {
    match t.frames.top
    case StartHandshake =>
    case OnHandshakeError =>
    case HandshakeFinished(_) =>
  }

  lemma ReceiveKnows(t: Tunnel, o: Outside)
    requires Working(t) && t.frames.On? && t.frames.top.ReceiveHandshake? && (!t.kind.feeds ==> t.frames.below == Empty)
    ensures Known(Advance(t, o)) == Known(t) + HandedOver(t, Work(o))
  {
    var rest := t.frames.below;
    var last := On(HandshakeFinished(true), rest);
    assert OnItsWay(t.frames) == OnItsWay(rest) == OnItsWay(last);
    assert Known(t) + [] == Known(t);
    if HandedOver(t, Work(o)) != [] {
      assert OnItsWay(Empty) == [] && OnItsWay(t.frames) == [];
    }
  }

  lemma OtherFramesKnow(t: Tunnel, o: Outside)
    requires Working(t) && t.frames.On? && !Handshaking(t.frames.top) && !t.frames.top.EventToChild?
    ensures Known(Advance(t, o)) == Known(t)
  {
    var rest := t.frames.below;
    assert OnItsWay(t.frames) == OnItsWay(rest);
    match t.frames.top
    case Flush(i) => assert OnItsWay(On(Flush(i + 1), rest)) == OnItsWay(rest);
    case HandleCommands(commands) =>
      if commands != [] {
        assert OnItsWay(On(HandleCommands(commands[1..]), rest)) == OnItsWay(rest);
      }
    case _ =>
  }

  lemma ResumeKnows(t: Tunnel, failed: bool)
    ensures Known(Resume(t, failed)) == Known(t)
  {
    if t.frames.On? {
      assert OnItsWay(On(OpenFailed, t.frames.below)) == OnItsWay(t.frames.below);
    }
  }

  lemma StepKnows(t: Tunnel, m: Move)
    requires Inv(t.kind, t)
    ensures Known(Next(t, m)) == Known(t) + if Started(t, m) == [] then HandedOver(t, m) else Meaning(t.state, Started(t, m)[0])
  {
    assert Known(t) + [] == Known(t);
    match m
    case Event(x) =>
      if !Working(t) {
        if t.paused.None? {
          HandleKnows(t, x);
        } else if IsOwnReply(t, x) {
          ResumeKnows(t.(paused := None), x.failed);
        }
      }
    case Work(o) =>
      if Working(t) {
        if t.frames == Empty {
          HandleKnows(t.(pausedQueue := t.pausedQueue[1..]), t.pausedQueue[0]);
        } else if t.frames.top.EventToChild? {
          GiveKnows(t, o);
        } else if Handshaking(t.frames.top) {
          HandshakeKnows(t, o);
        } else {
          OtherFramesKnow(t, o);
        }
      }
  }

  lemma StepStarts(t: Tunnel, m: Move)
    ensures Started(t, m) + Next(t, m).pausedQueue == t.pausedQueue + AcceptedBy(t, m)
  {
    var queue := t.pausedQueue;
    assert queue + [] == queue && [] + queue == queue;
    if m.Event? {
      if !Working(t) {
        ArriveQueues(t, m.arrival);
      }
    } else if Working(t) {
      WorkKeepsQueue(t, m.outside);
    }
  }

  lemma ArriveQueues(t: Tunnel, x: Arrival)
    requires !Working(t)
    ensures Arrive(t, x).pausedQueue == if t.paused.None? || IsOwnReply(t, x) then t.pausedQueue else t.pausedQueue + [x]
    ensures t.paused.None? ==> t.pausedQueue == [] && !IsOwnReply(t, x)
  {
  }

  lemma WorkKeepsQueue(t: Tunnel, o: Outside)
    requires Working(t)
    ensures Advance(t, o).pausedQueue == if t.frames == Empty then t.pausedQueue[1..] else t.pausedQueue
  {
    if t.frames.On? {
      match t.frames.top
      case HandshakeFinished(_) =>
      case EventToChild(_, _) =>
      case _ =>
    }
  }
}
