/**
A pipe descriptor: senders queue messages, and any number of readers share one receiver whose buffer, mode and
flag they all change.  What the scheduler, the lock and the senders do between two attempts of a blocking read
is input to the model.
*/
module Pipe {
  import opened Prelude

  type Flag = nat
  type FdId = nat

  datatype Msg = Data(bytes: seq<Byte>, flag: Flag) | Flush

  datatype Mode = Stream | Message(zero: bool)

  /** The shared receiver and the channel behind it; `open` while a sender is left. */
  datatype Receiver = Receiver(queue: seq<Msg>, buffer: seq<Byte>, mode: Mode, flag: Flag, open: bool)

  datatype Error = BrokenPipe | WouldBlock | Interrupted

  datatype Answer = Msg(msg: Msg) | Bytes(bytes: seq<Byte>) | Failed(error: Error) | Pending

  /** What a reader leaves behind: the receiver, whether its next empty read is an abort, and its answer. */
  datatype Effect = Effect(receiver: Receiver, flip: bool, answer: Answer)

  function Len(m: Msg): nat {
    match m
    case Data(bytes, _) => |bytes|
    case Flush => 0
  }

  /** An empty read: the first one is the end of the file, the next is an error. */
  function Empty(r: Receiver, flip: bool, answer: Answer): Effect {
    if flip then Effect(r, flip, Failed(BrokenPipe)) else Effect(r, true, answer)
  }

  /** The poll-style and the asynchronous read: everything buffered, or the next message whole. */
  function ReadMessage(r: Receiver, flip: bool, closed: bool): Effect {
    if closed then Effect(r, flip, Failed(BrokenPipe))
    else if r.buffer != [] then Effect(r.(buffer := []), flip, Msg(Data(r.buffer, r.flag)))
    else if r.mode == Message(true) then Effect(r.(mode := Message(false)), flip, Msg(Data([], r.flag)))
    else if r.queue == [] && r.open then Effect(r, flip, Pending)
    else
      var msg := if r.queue == [] then Data([], r.flag) else r.queue[0];
      var rest := if r.queue == [] then r else r.(queue := r.queue[1..]);
      var after := if msg.Data? then rest.(flag := msg.flag) else rest;
      if Len(msg) <= 0 then Empty(after, flip, Msg(msg)) else Effect(after, flip, Msg(msg))
  }

  /** Move the next message into the buffer; an acknowledgement request has no bytes to move. */
  function Refill(r: Receiver): Receiver
    requires r.queue != []
  {
    var rest := r.(queue := r.queue[1..]);
    match r.queue[0]
    case Flush => rest
    case Data(bytes, flag) =>
      rest.(flag := flag, buffer := rest.buffer + bytes,
            mode := if r.mode == Message(false) then Message(true) else r.mode)
  }

  /** What one attempt of a blocking read finds around it. */
  datatype Tick = Tick(unlocked: bool, blocking: bool, terminate: bool, closed: bool)

  /** One attempt of a blocking read of at most n bytes; Pending means it parks and tries again. */
  function Attempt(r: Receiver, flip: bool, n: nat, t: Tick): Effect {
    if t.unlocked && r.buffer != [] then
      var k := Min(|r.buffer|, n);
      Effect(r.(buffer := r.buffer[k..]), flip, Bytes(r.buffer[..k]))
    else if t.unlocked && r.queue == [] && !r.open then Empty(r, flip, Bytes([]))
    else
      var after := if t.unlocked && r.queue != [] then Refill(r) else r;
      if !t.blocking then Effect(after, flip, Failed(WouldBlock))
      else if t.terminate then Effect(after, flip, Failed(Interrupted))
      else if t.closed then Empty(after, flip, Bytes([]))
      else Effect(after, flip, Pending)
  }

  /** Polling for readiness also moves a message into an empty buffer. */
  function Poll(r: Receiver, unlocked: bool): Receiver {
    if unlocked && r.buffer == [] && r.queue != [] then Refill(r) else r
  }

  // ---------------------------------------------------------------- runs

  datatype Step =
    | Send(msg: Msg)
    | HangUp
    | MessageRead(fd: FdId, closed: bool)
    | ByteRead(fd: FdId, n: nat, tick: Tick)
    | PollFd(unlocked: bool)

  /** The receiver, the readers' flags, and ghost records of all bytes sent and all answers given. */
  datatype World = World(receiver: Receiver, flips: map<FdId, bool>, sent: seq<Msg>, answers: seq<Answer>)

  function FlipOf(w: World, fd: FdId): bool {
    fd in w.flips && w.flips[fd]
  }

  function Apply(w: World, s: Step): World {
    match s
    case Send(msg) =>
      if w.receiver.open then
        w.(receiver := w.receiver.(queue := w.receiver.queue + [msg]), sent := w.sent + [msg])
      else w
    case HangUp => w.(receiver := w.receiver.(open := false))
    case PollFd(unlocked) => w.(receiver := Poll(w.receiver, unlocked))
    case MessageRead(fd, closed) => Answered(w, fd, ReadMessage(w.receiver, FlipOf(w, fd), closed))
    case ByteRead(fd, n, tick) => Answered(w, fd, Attempt(w.receiver, FlipOf(w, fd), n, tick))
  }

  function Answered(w: World, fd: FdId, e: Effect): World {
    w.(receiver := e.receiver, flips := w.flips[fd := e.flip], answers := w.answers + [e.answer])
  }

  function Start(mode: Mode, flag: Flag): World {
    World(Receiver([], [], mode, flag, true), map[], [], [])
  }

  function Run(w: World, steps: seq<Step>): World {
    if steps == [] then w else Apply(Run(w, steps[..|steps| - 1]), steps[|steps| - 1])
  }

  // ---------------------------------------------------------------- conservation of bytes

  function BytesOf(msg: Msg): seq<Byte> {
    if msg.Data? then msg.bytes else []
  }

  function Concat(msgs: seq<Msg>): seq<Byte> {
    if msgs == [] then [] else Concat(msgs[..|msgs| - 1]) + BytesOf(msgs[|msgs| - 1])
  }

  function Given(a: Answer): seq<Byte> {
    match a
    case Msg(msg) => BytesOf(msg)
    case Bytes(bytes) => bytes
    case _ => []
  }

  function Delivered(answers: seq<Answer>): seq<Byte> {
    if answers == [] then [] else Delivered(answers[..|answers| - 1]) + Given(answers[|answers| - 1])
  }

  /** Delivered, buffered and queued bytes, in this order, are the bytes sent. */
  predicate Conserved(w: World) {
    Delivered(w.answers) + w.receiver.buffer + Concat(w.receiver.queue) == Concat(w.sent)
  }

  lemma {:induction false} ConcatFirst(msgs: seq<Msg>)
    requires msgs != []
    ensures Concat(msgs) == BytesOf(msgs[0]) + Concat(msgs[1..])
  {
    hide Concat;
    var front, last := msgs[..|msgs| - 1], msgs[|msgs| - 1];
    assert msgs == front + [last];
    ConcatSnoc(front, last);
    EmptyConcat();
    if |msgs| == 1 {
      assert front == [] && msgs[1..] == [];
    } else {
      ConcatFirst(front);
      ConcatSnoc(front[1..], last);
      assert msgs[1..] == front[1..] + [last];
    }
  }

  lemma ReadMessageConserves(r: Receiver, flip: bool, closed: bool)
    ensures var e := ReadMessage(r, flip, closed);
            Given(e.answer) + e.receiver.buffer + Concat(e.receiver.queue) == r.buffer + Concat(r.queue)
  {
    hide Concat;
    if r.queue != [] {
      ConcatFirst(r.queue);
    }
    var e := ReadMessage(r, flip, closed);
    SplitJoins(e.receiver.buffer, 0, Concat(e.receiver.queue));
  }

  lemma RefillConserves(r: Receiver)
    requires r.queue != []
    ensures Refill(r).buffer + Concat(Refill(r).queue) == r.buffer + Concat(r.queue)
  {
    hide Concat;
    ConcatFirst(r.queue);
  }

  lemma SplitJoins(b: seq<Byte>, k: nat, q: seq<Byte>)
    requires k <= |b|
    ensures b[..k] + b[k..] + q == b + q
    ensures [] + b + q == b + q
  {
    assert b[..k] + b[k..] == b;
    assert [] + b == b;
  }

  lemma AttemptConserves(r: Receiver, flip: bool, n: nat, t: Tick)
    ensures var e := Attempt(r, flip, n, t);
            Given(e.answer) + e.receiver.buffer + Concat(e.receiver.queue) == r.buffer + Concat(r.queue)
  {
    hide Concat, Refill;
    if t.unlocked && r.buffer != [] {
      SplitJoins(r.buffer, Min(|r.buffer|, n), Concat(r.queue));
    } else {
      var e := Attempt(r, flip, n, t);
      assert Given(e.answer) == [];
      SplitJoins(e.receiver.buffer, 0, Concat(e.receiver.queue));
      if r.queue != [] {
        RefillConserves(r);
      }
    }
  }

  lemma ApplyConserves(w: World, s: Step)
    requires Conserved(w)
    ensures Conserved(Apply(w, s))
  {
    hide Concat, Delivered, ReadMessage, Attempt, Refill;
    match s
    case Send(msg) =>
      ConcatSnoc(w.receiver.queue, msg);
      ConcatSnoc(w.sent, msg);
    case HangUp =>
    case PollFd(_) =>
      if w.receiver.queue != [] {
        RefillConserves(w.receiver);
        var d, r := Delivered(w.answers), Refill(w.receiver);
        assert d + r.buffer + Concat(r.queue) == d + (r.buffer + Concat(r.queue));
        assert d + w.receiver.buffer + Concat(w.receiver.queue) == d + (w.receiver.buffer + Concat(w.receiver.queue));
      }
    case MessageRead(fd, closed) =>
      ReadMessageConserves(w.receiver, FlipOf(w, fd), closed);
      AnsweredConserves(w, fd, ReadMessage(w.receiver, FlipOf(w, fd), closed));
    case ByteRead(fd, n, tick) =>
      AttemptConserves(w.receiver, FlipOf(w, fd), n, tick);
      AnsweredConserves(w, fd, Attempt(w.receiver, FlipOf(w, fd), n, tick));
  }

  lemma ConcatSnoc(msgs: seq<Msg>, msg: Msg)
    ensures Concat(msgs + [msg]) == Concat(msgs) + BytesOf(msg)
  {
    assert (msgs + [msg])[..|msgs|] == msgs;
  }

  lemma DeliveredSnoc(answers: seq<Answer>, a: Answer)
    ensures Delivered(answers + [a]) == Delivered(answers) + Given(a)
  {
    assert (answers + [a])[..|answers|] == answers;
  }

  lemma AnsweredConserves(w: World, fd: FdId, e: Effect)
    requires Conserved(w)
    requires Given(e.answer) + e.receiver.buffer + Concat(e.receiver.queue) ==
               w.receiver.buffer + Concat(w.receiver.queue)
    ensures Conserved(Answered(w, fd, e))
  {
    hide Concat, Delivered, Given;
    DeliveredSnoc(w.answers, e.answer);
    var d, g, b, q := Delivered(w.answers), Given(e.answer), e.receiver.buffer, Concat(e.receiver.queue);
    assert (d + g) + b + q == d + (g + b + q);
    assert d + (w.receiver.buffer + Concat(w.receiver.queue)) == d + w.receiver.buffer + Concat(w.receiver.queue);
  }

  /**
   For every interleaving of senders, message reads, attempts of blocking reads and polls, in either mode and
   whatever errors occur on the way: no byte is lost, made up, duplicated or reordered.
   */
  lemma {:induction false} BytesConserved(mode: Mode, flag: Flag, steps: seq<Step>)
    ensures Conserved(Run(Start(mode, flag), steps))
  {
    hide Apply, Conserved;
    if steps == [] {
      assert Conserved(Start(mode, flag)) by {
        StartConserved(mode, flag);
      }
    } else {
      BytesConserved(mode, flag, steps[..|steps| - 1]);
      ApplyConserves(Run(Start(mode, flag), steps[..|steps| - 1]), steps[|steps| - 1]);
    }
  }

  lemma StartConserved(mode: Mode, flag: Flag)
    ensures Conserved(Start(mode, flag))
  {
  }

  // ---------------------------------------------------------------- messages stay whole

  /** The message, if it has bytes. */
  function Filled(m: Msg): seq<Msg> {
    if m.Data? && m.bytes != [] then [m] else []
  }

  /** The messages that have bytes. */
  function Payloads(msgs: seq<Msg>): seq<Msg> {
    if msgs == [] then [] else Payloads(msgs[..|msgs| - 1]) + Filled(msgs[|msgs| - 1])
  }

  /** The answers that are messages with bytes. */
  function Chunks(answers: seq<Answer>): seq<Msg> {
    if answers == [] then [] else Chunks(answers[..|answers| - 1]) + ChunkOf(answers[|answers| - 1])
  }

  function ChunkOf(a: Answer): seq<Msg> {
    if a.Msg? then Filled(a.msg) else []
  }

  /** The message in the buffer, if one was moved there. */
  function Buffered(r: Receiver): seq<Msg> {
    Filled(Data(r.buffer, r.flag))
  }

  /** Messages given, buffered and queued, in this order and each with its flag, are the messages sent. */
  predicate Whole(w: World) {
    Chunks(w.answers) + Buffered(w.receiver) + Payloads(w.receiver.queue) == Payloads(w.sent)
  }

  lemma {:induction false} PayloadsFirst(msgs: seq<Msg>)
    requires msgs != []
    ensures Payloads(msgs) == Filled(msgs[0]) + Payloads(msgs[1..])
  {
    hide Filled, Payloads;
    var front, last := msgs[..|msgs| - 1], msgs[|msgs| - 1];
    assert msgs == front + [last];
    PayloadsSnoc(front, last);
    NoPayloads();
    if |msgs| == 1 {
      assert front == [] && msgs[1..] == [];
    } else {
      PayloadsFirst(front);
      PayloadsSnoc(front[1..], last);
      assert msgs[1..] == front[1..] + [last];
    }
  }

  lemma NoPayloads()
    ensures Payloads([]) == []
  {
  }

  lemma PayloadsSnoc(msgs: seq<Msg>, msg: Msg)
    ensures Payloads(msgs + [msg]) == Payloads(msgs) + Filled(msg)
  {
    assert (msgs + [msg])[..|msgs|] == msgs;
  }

  lemma ChunksSnoc(answers: seq<Answer>, a: Answer)
    ensures Chunks(answers + [a]) == Chunks(answers) + ChunkOf(a)
  {
    assert (answers + [a])[..|answers|] == answers;
  }

  lemma ReadMessageWhole(r: Receiver, flip: bool, closed: bool)
    ensures var e := ReadMessage(r, flip, closed);
            ChunkOf(e.answer) + Buffered(e.receiver) + Payloads(e.receiver.queue) == Buffered(r) + Payloads(r.queue)
  {
    hide Payloads;
    if r.queue != [] {
      PayloadsFirst(r.queue);
    }
  }

  lemma SendWhole(w: World, msg: Msg)
    requires Whole(w)
    ensures Whole(Apply(w, Send(msg)))
  {
    hide Payloads, Chunks, Filled;
    PayloadsSnoc(w.receiver.queue, msg);
    PayloadsSnoc(w.sent, msg);
  }

  /** A poll moves a message with its flag. */
  lemma RefillWhole(r: Receiver)
    requires r.buffer == [] && r.queue != []
    ensures Buffered(Refill(r)) + Payloads(Refill(r).queue) == Buffered(r) + Payloads(r.queue)
  {
    hide Payloads;
    PayloadsFirst(r.queue);
    if r.queue[0].Data? {
      assert Refill(r).buffer == r.queue[0].bytes;
    }
  }

  lemma PollWhole(w: World, unlocked: bool)
    requires Whole(w)
    ensures Whole(Apply(w, PollFd(unlocked)))
  {
    hide Payloads, Chunks, Buffered, Refill;
    if unlocked && w.receiver.buffer == [] && w.receiver.queue != [] {
      RefillWhole(w.receiver);
      var c, r := Chunks(w.answers), Refill(w.receiver);
      assert c + Buffered(r) + Payloads(r.queue) == c + (Buffered(r) + Payloads(r.queue));
      assert c + Buffered(w.receiver) + Payloads(w.receiver.queue) ==
             c + (Buffered(w.receiver) + Payloads(w.receiver.queue));
    }
  }

  lemma ApplyWhole(w: World, s: Step)
    requires Whole(w) && !s.ByteRead?
    ensures Whole(Apply(w, s))
  {
    hide Payloads, Chunks, ReadMessage, Filled, Poll;
    if s.Send? {
      SendWhole(w, s.msg);
    } else if s.PollFd? {
      PollWhole(w, s.unlocked);
    } else if s.MessageRead? {
      AnsweredWhole(w, s.fd, s.closed);
    }
  }

  lemma AnsweredWhole(w: World, fd: FdId, closed: bool)
    requires Whole(w)
    ensures Whole(Answered(w, fd, ReadMessage(w.receiver, FlipOf(w, fd), closed)))
  {
    hide Payloads, Chunks, ReadMessage, Buffered, FlipOf, ChunkOf;
    var e := ReadMessage(w.receiver, FlipOf(w, fd), closed);
    ReadMessageWhole(w.receiver, FlipOf(w, fd), closed);
    ChunksSnoc(w.answers, e.answer);
    var c, b, q := Chunks(w.answers), Buffered(w.receiver), Payloads(w.receiver.queue);
    var g, b', q' := ChunkOf(e.answer), Buffered(e.receiver), Payloads(e.receiver.queue);
    assert (c + g) + b' + q' == c + (g + b' + q');
    assert c + b + q == c + (b + q);
  }

  /**
   Without byte-wise reads, every message is delivered whole, as one answer, with its flag, in the order sent,
   whether or not a poll moved it first.
   */
  lemma {:induction false} MessagesStayWhole(mode: Mode, flag: Flag, steps: seq<Step>)
    requires forall s :: s in steps ==> !s.ByteRead?
    ensures Whole(Run(Start(mode, flag), steps))
  {
    hide Apply, Whole;
    if steps == [] {
      assert Whole(Start(mode, flag)) by {
        StartWhole(mode, flag);
      }
    } else {
      MessagesStayWhole(mode, flag, steps[..|steps| - 1]);
      ApplyWhole(Run(Start(mode, flag), steps[..|steps| - 1]), steps[|steps| - 1]);
    }
  }

  lemma StartWhole(mode: Mode, flag: Flag)
    ensures Whole(Start(mode, flag))
  {
  }

  // ---------------------------------------------------------------- what is sent, and what a flag says

  /** The messages sent before the last sender hung up. */
  function SentBy(steps: seq<Step>): seq<Msg> {
    if steps == [] then []
    else
      var front, s := steps[..|steps| - 1], steps[|steps| - 1];
      if s.Send? && HangUp !in front then SentBy(front) + [s.msg] else SentBy(front)
  }

  /** The flag of the last message with one, or else the given one. */
  function LastFlag(flag: Flag, msgs: seq<Msg>): Flag {
    if msgs == [] then flag
    else if msgs[|msgs| - 1].Data? then msgs[|msgs| - 1].flag
    else LastFlag(flag, msgs[..|msgs| - 1])
  }

  predicate SameKind(a: Mode, b: Mode) {
    a.Stream? <==> b.Stream?
  }

  /** What is queued is the end of what was sent, and the flag is that of the last message taken. */
  predicate InOrder(w: World, flag: Flag) {
    var taken := |w.sent| - |w.receiver.queue|;
    taken >= 0 && w.receiver.queue == w.sent[taken..] && w.receiver.flag == LastFlag(flag, w.sent[..taken])
  }

  lemma LastFlagSnoc(flag: Flag, msgs: seq<Msg>, m: Msg)
    ensures LastFlag(flag, msgs + [m]) == if m.Data? then m.flag else LastFlag(flag, msgs)
  {
    assert (msgs + [m])[..|msgs|] == msgs;
  }

  /** Whoever reads takes nothing or the first message, and its flag with it. */
  predicate Takes(r: Receiver, after: Receiver) {
    && after.open == r.open && SameKind(r.mode, after.mode)
    && if after.queue == r.queue then after.flag == r.flag
       else r.queue != [] && after.queue == r.queue[1..] &&
            after.flag == if r.queue[0].Data? then r.queue[0].flag else r.flag
  }

  lemma MessageReadTakes(r: Receiver, flip: bool, closed: bool)
    ensures Takes(r, ReadMessage(r, flip, closed).receiver)
  {
  }

  lemma RefillTakes(r: Receiver)
    requires r.queue != []
    ensures Takes(r, Refill(r)) && Takes(r, r)
  {
  }

  lemma ByteReadTakes(r: Receiver, flip: bool, n: nat, t: Tick)
    ensures Takes(r, Attempt(r, flip, n, t).receiver)
  {
    hide Refill;
    if r.queue != [] {
      RefillTakes(r);
    }
  }

  lemma TakesInOrder(w: World, after: World, flag: Flag)
    requires InOrder(w, flag) && after.sent == w.sent && Takes(w.receiver, after.receiver)
    ensures InOrder(after, flag)
  {
    var taken := |w.sent| - |w.receiver.queue|;
    if after.receiver.queue != w.receiver.queue {
      LastFlagSnoc(flag, w.sent[..taken], w.sent[taken]);
      assert w.sent[..taken + 1] == w.sent[..taken] + [w.sent[taken]];
    }
  }

  lemma StepInOrder(w: World, s: Step, flag: Flag)
    requires InOrder(w, flag)
    ensures InOrder(Apply(w, s), flag) && SameKind(w.receiver.mode, Apply(w, s).receiver.mode)
    ensures Apply(w, s).receiver.open <==> w.receiver.open && s != HangUp
    ensures Apply(w, s).sent == if s.Send? && w.receiver.open then w.sent + [s.msg] else w.sent
  {
    hide ReadMessage, Attempt, Refill, LastFlag, FlipOf;
    match s
    case Send(msg) =>
      if w.receiver.open {
        var taken := |w.sent| - |w.receiver.queue|;
        assert (w.sent + [msg])[..taken] == w.sent[..taken];
      }
    case HangUp =>
    case PollFd(unlocked) =>
      if w.receiver.queue != [] {
        RefillTakes(w.receiver);
      }
      TakesInOrder(w, Apply(w, s), flag);
    case MessageRead(fd, closed) =>
      MessageReadTakes(w.receiver, FlipOf(w, fd), closed);
      TakesInOrder(w, Apply(w, s), flag);
    case ByteRead(fd, n, tick) =>
      ByteReadTakes(w.receiver, FlipOf(w, fd), n, tick);
      TakesInOrder(w, Apply(w, s), flag);
  }

  /**
   Over any run: all that was sent before the last sender hung up is there, the pipe is open until then, streams
   stay streams, and the flag a reader is told is that of the last message taken off the channel.
   */
  lemma {:induction false} FlagIsLastTaken(mode: Mode, flag: Flag, steps: seq<Step>)
    ensures var w := Run(Start(mode, flag), steps);
            && w.sent == SentBy(steps) && (w.receiver.open <==> HangUp !in steps)
            && SameKind(mode, w.receiver.mode) && InOrder(w, flag)
  {
    hide Apply, InOrder;
    if steps == [] {
      StartInOrder(mode, flag);
    } else {
      var front, s := steps[..|steps| - 1], steps[|steps| - 1];
      FlagIsLastTaken(mode, flag, front);
      StepInOrder(Run(Start(mode, flag), front), s, flag);
      assert steps == front + [s];
    }
  }

  lemma StartInOrder(mode: Mode, flag: Flag)
    ensures InOrder(Start(mode, flag), flag)
  {
  }

  /**
   A message that a poll or a byte-wise read moved to the buffer reads as itself; between messages its end then
   reads as an empty message, once; in a stream it does not.
   */
  lemma MovedMessageEnds(r: Receiver, flip: bool)
    requires r.buffer == [] && r.queue != [] && Filled(r.queue[0]) != []
    ensures var first := ReadMessage(Refill(r), flip, false);
            var second := ReadMessage(first.receiver, first.flip, false);
            && first.answer == Msg(r.queue[0]) && first.receiver.queue == r.queue[1..]
            && (r.mode.Message? ==>
                  && second.answer == Msg(Data([], r.queue[0].flag)) && second.flip == flip
                  && second.receiver == r.(queue := r.queue[1..], flag := r.queue[0].flag, mode := Message(false)))
            && (r.mode.Stream? ==> first.receiver == r.(queue := r.queue[1..], flag := r.queue[0].flag))
  {
    assert [] + r.queue[0].bytes == r.queue[0].bytes;
  }

  // ---------------------------------------------------------------- every message is read

  /** Something is there for a message read: bytes, the end of a message, or a message. */
  predicate Ready(r: Receiver) {
    r.buffer != [] || r.mode == Message(true) || r.queue != []
  }

  /**
   Exactly when a message read waits, and what it gives otherwise: the buffer, the end of a message, the next
   message with its flag, or, at an empty message or the end of the file, that or an error.
   */
  lemma MessageIsServed(r: Receiver, flip: bool)
    ensures var a := ReadMessage(r, flip, false).answer;
            && (a.Pending? <==> !Ready(r) && r.open)
            && (Buffered(r) != [] ==> a == Msg(Buffered(r)[0]))
            && (r.buffer == [] && r.mode == Message(true) ==> a == Msg(Data([], r.flag)))
            && (r.buffer == [] && r.mode != Message(true) && r.queue != [] && (!flip || Filled(r.queue[0]) != []) ==>
                  a == Msg(r.queue[0]))
            && (a.Failed? <==> flip && r.buffer == [] && r.mode != Message(true) &&
                               (if r.queue != [] then Filled(r.queue[0]) == [] else !r.open))
    ensures ReadMessage(r, flip, true) == Effect(r, flip, Failed(BrokenPipe))
  {
  }

  /** How many message reads it takes to empty a pipe. */
  function Backlog(r: Receiver): nat {
    |r.queue| + (if r.buffer != [] then 1 else 0) + (if r.mode == Message(true) then 1 else 0)
  }

  function Reads(fd: FdId, n: nat): seq<Step> {
    seq(n, _ => MessageRead(fd, false))
  }

  lemma ReadTakes(r: Receiver, flip: bool)
    ensures var after := ReadMessage(r, flip, false).receiver;
            Backlog(after) == if Backlog(r) > 0 then Backlog(r) - 1 else 0
  {
  }

  lemma {:induction false} ReadsDrain(w: World, fd: FdId, n: nat)
    ensures Backlog(Run(w, Reads(fd, n)).receiver) ==
            if Backlog(w.receiver) > n then Backlog(w.receiver) - n else 0
  {
    hide Backlog, ReadMessage, FlipOf;
    if n == 0 {
      assert Reads(fd, 0) == [];
    } else {
      ReadsDrain(w, fd, n - 1);
      assert Reads(fd, n)[..n - 1] == Reads(fd, n - 1);
      var v := Run(w, Reads(fd, n - 1));
      ReadTakes(v.receiver, FlipOf(v, fd));
    }
  }

  /**
   After any run without byte-wise reads, a reader that reads as often as something waits leaves nothing behind,
   and then every message sent that has bytes has been given: whole, with its flag, in order.
   */
  lemma SentIsRead(mode: Mode, flag: Flag, steps: seq<Step>, fd: FdId, n: nat)
    requires forall s :: s in steps ==> !s.ByteRead?
    requires n >= Backlog(Run(Start(mode, flag), steps).receiver)
    ensures var end := Run(Run(Start(mode, flag), steps), Reads(fd, n));
            && Chunks(end.answers) == Payloads(SentBy(steps))
            && end.receiver.queue == [] && end.receiver.buffer == []
  {
    hide Run, Whole, Payloads, Chunks;
    var w := Run(Start(mode, flag), steps);
    MessagesStayWhole(mode, flag, steps);
    ReadsStayWhole(w, fd, n);
    ReadsDrain(w, fd, n);
    FlagIsLastTaken(mode, flag, steps);
    var end := Run(w, Reads(fd, n));
    WholeAtEnd(end);
  }

  lemma {:induction false} ReadsStayWhole(w: World, fd: FdId, n: nat)
    requires Whole(w)
    ensures Whole(Run(w, Reads(fd, n))) && Run(w, Reads(fd, n)).sent == w.sent
  {
    hide Whole, ReadMessage, FlipOf;
    if n == 0 {
      assert Reads(fd, 0) == [];
    } else {
      ReadsStayWhole(w, fd, n - 1);
      assert Reads(fd, n)[..n - 1] == Reads(fd, n - 1);
      ApplyWhole(Run(w, Reads(fd, n - 1)), MessageRead(fd, false));
    }
  }

  lemma WholeAtEnd(w: World)
    requires Whole(w) && w.receiver.queue == [] && w.receiver.buffer == []
    ensures Chunks(w.answers) == Payloads(w.sent)
  {
    hide Chunks;
    NoPayloads();
    assert Chunks(w.answers) + [] + [] == Chunks(w.answers);
  }

  // ---------------------------------------------------------------- end of file

  /** Nothing is left to read and nothing can come. */
  predicate Drained(r: Receiver) {
    r.queue == [] && r.buffer == [] && !r.open && r.mode != Message(true)
  }

  lemma DrainedStep(w: World, s: Step, fd: FdId)
    requires Drained(w.receiver)
    ensures Drained(Apply(w, s).receiver)
    ensures FlipOf(w, fd) ==> FlipOf(Apply(w, s), fd)
  {
  }

  /**
   On a drained pipe a reader is told of the end of the file once; after that, whatever others do, it gets an
   error.
   */
  lemma {:induction false} EndOfFileOnce(w: World, fd: FdId, steps: seq<Step>, closed: bool, n: nat, tick: Tick)
    requires Drained(w.receiver) && tick.unlocked
    ensures !FlipOf(w, fd) ==>
              ReadMessage(w.receiver, FlipOf(w, fd), false).answer == Msg(Data([], w.receiver.flag)) &&
              Attempt(w.receiver, FlipOf(w, fd), n, tick).answer == Bytes([]) &&
              FlipOf(Apply(w, MessageRead(fd, false)), fd) && FlipOf(Apply(w, ByteRead(fd, n, tick)), fd)
    ensures FlipOf(w, fd) ==>
              var later := Run(w, steps);
              ReadMessage(later.receiver, FlipOf(later, fd), closed).answer == Failed(BrokenPipe) &&
              Attempt(later.receiver, FlipOf(later, fd), n, tick).answer == Failed(BrokenPipe)
  {
    if FlipOf(w, fd) {
      DrainedRun(w, steps, fd);
    }
  }

  lemma {:induction false} DrainedRun(w: World, steps: seq<Step>, fd: FdId)
    requires Drained(w.receiver) && FlipOf(w, fd)
    ensures Drained(Run(w, steps).receiver) && FlipOf(Run(w, steps), fd)
  {
    hide Apply, Drained, FlipOf;
    if steps == [] {
    } else {
      DrainedRun(w, steps[..|steps| - 1], fd);
      DrainedStep(Run(w, steps[..|steps| - 1]), steps[|steps| - 1], fd);
    }
  }

  // ---------------------------------------------------------------- blocking reads

  /** A blocking read with nobody else at the pipe: it tries until an attempt is answered. */
  function Attempts(r: Receiver, flip: bool, n: nat, ticks: seq<Tick>): Effect
    decreases ticks
  {
    if ticks == [] then Effect(r, flip, Pending)
    else
      var e := Attempt(r, flip, n, ticks[0]);
      if e.answer.Pending? then Attempts(e.receiver, e.flip, n, ticks[1..]) else e
  }

  lemma {:induction false} AttemptsConserve(r: Receiver, flip: bool, n: nat, ticks: seq<Tick>)
    ensures var e := Attempts(r, flip, n, ticks);
            Given(e.answer) + e.receiver.buffer + Concat(e.receiver.queue) == r.buffer + Concat(r.queue)
    decreases ticks
  {
    hide Attempt, Concat;
    if ticks == [] {
    } else {
      AttemptConserves(r, flip, n, ticks[0]);
      var e := Attempt(r, flip, n, ticks[0]);
      if e.answer.Pending? {
        AttemptsConserve(e.receiver, e.flip, n, ticks[1..]);
      }
    }
  }

  /** Nothing disturbs a blocking read. */
  predicate Quiet(t: Tick) {
    t.unlocked && t.blocking && !t.terminate && !t.closed
  }

  /** What an undisturbed read of n bytes from a pipe holding `bytes` ends with. */
  predicate Served(bytes: seq<Byte>, open: bool, flip: bool, n: nat, a: Answer) {
    if bytes != [] then a.Bytes? && a.bytes <= bytes && |a.bytes| <= n && (n > 0 ==> a.bytes != [])
    else if open then a.Pending?
    else a == if flip then Failed(BrokenPipe) else Bytes([])
  }

  /**
   Left alone for one turn more than there are messages waiting, a blocking read never misses a byte: it gives a
   non-empty prefix of what is there, the end of the file if nothing can come, and waits in every other case.
   */
  lemma {:induction false} ReadIsServed(r: Receiver, flip: bool, n: nat, ticks: seq<Tick>)
    requires |ticks| > |r.queue| && forall t :: t in ticks ==> Quiet(t)
    ensures Served(r.buffer + Concat(r.queue), r.open, flip, n, Attempts(r, flip, n, ticks).answer)
    decreases |ticks|
  {
    hide Concat;
    assert Quiet(ticks[0]);
    var bytes := r.buffer + Concat(r.queue);
    if r.buffer != [] {
      var k := Min(|r.buffer|, n);
      assert r.buffer[..k] == bytes[..k];
    } else if r.queue != [] {
      RefillConserves(r);
      ReadIsServed(Refill(r), flip, n, ticks[1..]);
    } else {
      EmptyConcat();
      if r.open {
        assert forall t :: t in ticks[1..] ==> Quiet(t);
        WaitsForData(r, flip, n, ticks);
      }
    }
  }

  lemma EmptyConcat()
    ensures Concat([]) == []
  {
  }

  lemma {:induction false} WaitsForData(r: Receiver, flip: bool, n: nat, ticks: seq<Tick>)
    requires r.buffer == [] && r.queue == [] && r.open && forall t :: t in ticks ==> Quiet(t)
    ensures Attempts(r, flip, n, ticks) == Effect(r, flip, Pending)
  {
    if ticks == [] {
    } else {
      assert Quiet(ticks[0]);
      WaitsForData(r, flip, n, ticks[1..]);
    }
  }

  // ---------------------------------------------------------------- reads among other readers

  /** One turn of a blocking read: what others do first, and what the attempt finds around it. */
  datatype Turn = Turn(others: seq<Step>, tick: Tick)

  predicate IsBy(s: Step, fd: FdId) {
    (s.MessageRead? || s.ByteRead?) && s.fd == fd
  }

  /** What a step of somebody else does to the receiver. */
  function Disturbed(r: Receiver, s: Step): Receiver {
    match s
    case Send(msg) => if r.open then r.(queue := r.queue + [msg]) else r
    case HangUp => r.(open := false)
    case PollFd(unlocked) => Poll(r, unlocked)
    case MessageRead(_, closed) => ReadMessage(r, false, closed).receiver
    case ByteRead(_, n, tick) => Attempt(r, false, n, tick).receiver
  }

  function DisturbedBy(r: Receiver, steps: seq<Step>): Receiver {
    if steps == [] then r else Disturbed(DisturbedBy(r, steps[..|steps| - 1]), steps[|steps| - 1])
  }

  /** Which reader it is makes no difference to the receiver. */
  lemma DisturbedIs(w: World, s: Step)
    ensures Apply(w, s).receiver == Disturbed(w.receiver, s)
    ensures forall fd :: !IsBy(s, fd) ==> FlipOf(Apply(w, s), fd) == FlipOf(w, fd)
  {
  }

  lemma {:induction false} OthersOnly(w: World, fd: FdId, steps: seq<Step>)
    requires forall s :: s in steps ==> !IsBy(s, fd)
    ensures Run(w, steps).receiver == DisturbedBy(w.receiver, steps) && FlipOf(Run(w, steps), fd) == FlipOf(w, fd)
  {
    hide Apply, Disturbed, FlipOf, IsBy;
    if steps == [] {
    } else {
      OthersOnly(w, fd, steps[..|steps| - 1]);
      DisturbedIs(Run(w, steps[..|steps| - 1]), steps[|steps| - 1]);
    }
  }

  function LastAnswer(w: World): Answer {
    if w.answers == [] then Pending else w.answers[|w.answers| - 1]
  }

  /**
   A blocking read as part of everything that happens at the pipe: it ends with the first attempt that is
   answered.
   */
  function Reading(w: World, fd: FdId, n: nat, turns: seq<Turn>): World
    decreases turns
  {
    if turns == [] then w
    else
      var v := Apply(Run(w, turns[0].others), ByteRead(fd, n, turns[0].tick));
      if LastAnswer(v).Pending? then Reading(v, fd, n, turns[1..]) else v
  }

  lemma ReadingNothing(w: World, fd: FdId, n: nat)
    ensures Reading(w, fd, n, []) == w
  {
  }

  lemma ReadingStep(w: World, fd: FdId, n: nat, turns: seq<Turn>)
    requires turns != []
    ensures var v := Apply(Run(w, turns[0].others), ByteRead(fd, n, turns[0].tick));
            Reading(w, fd, n, turns) ==
            if LastAnswer(v).Pending? then Reading(v, fd, n, turns[1..]) else v
  {
    hide Run, Attempt;
  }

  /** However others interfere, no byte is lost, and the last answer is the read's own. */
  lemma {:induction false} ReadingEnds(w: World, fd: FdId, n: nat, turns: seq<Turn>)
    ensures Conserved(w) ==> Conserved(Reading(w, fd, n, turns))
    decreases turns
  {
    hide Conserved, Run, Attempt, Apply;
    if turns == [] {
    } else {
      ReadingStep(w, fd, n, turns);
      var u := Run(w, turns[0].others);
      var v := Apply(u, ByteRead(fd, n, turns[0].tick));
      if Conserved(w) {
        RunConserves(w, turns[0].others);
        ApplyConserves(u, ByteRead(fd, n, turns[0].tick));
      }
      if LastAnswer(v).Pending? {
        ReadingEnds(v, fd, n, turns[1..]);
      }
    }
  }

  lemma {:induction false} RunConserves(w: World, steps: seq<Step>)
    requires Conserved(w)
    ensures Conserved(Run(w, steps))
  {
    hide Conserved, Apply;
    if steps == [] {
    } else {
      RunConserves(w, steps[..|steps| - 1]);
      ApplyConserves(Run(w, steps[..|steps| - 1]), steps[|steps| - 1]);
    }
  }

  function Alone(ticks: seq<Tick>): seq<Turn> {
    seq(|ticks|, i requires 0 <= i < |ticks| => Turn([], ticks[i]))
  }

  /** With nobody else at the pipe, it is the read that ReadIsServed speaks of. */
  lemma {:induction false} AloneIsAttempts(w: World, fd: FdId, n: nat, ticks: seq<Tick>)
    ensures var end, e := Reading(w, fd, n, Alone(ticks)), Attempts(w.receiver, FlipOf(w, fd), n, ticks);
            && end.receiver == e.receiver && FlipOf(end, fd) == e.flip
            && (ticks != [] ==> LastAnswer(end) == e.answer)
    decreases ticks
  {
    hide Attempt, Reading;
    if ticks == [] {
      ReadingNothing(w, fd, n);
    } else {
      var turns := Alone(ticks);
      assert turns[1..] == Alone(ticks[1..]);
      ReadingStep(w, fd, n, turns);
      assert Run(w, turns[0].others) == w;
      var v := Apply(w, ByteRead(fd, n, ticks[0]));
      if LastAnswer(v).Pending? {
        AloneIsAttempts(v, fd, n, ticks[1..]);
        if ticks[1..] == [] {
          ReadingNothing(v, fd, n);
        }
      }
    }
  }

  // ---------------------------------------------------------------- the descriptor

  /** The receiver shared by all descriptors of a pipe. */
  class ReactorPipeReceiver {
    var queue: seq<Msg>
    var buffer: seq<Byte>
    var mode: Mode
    var curFlag: Flag
    var open: bool

    constructor (mode: Mode, flag: Flag)
      ensures State() == Start(mode, flag).receiver
    {
      queue, buffer, this.mode, curFlag, open := [], [], mode, flag, true;
    }

    function State(): Receiver
      reads this
    {
      Receiver(queue, buffer, mode, curFlag, open)
    }

    /** Take the next message off the channel. */
    method Pop() returns (msg: Msg)
      requires queue != []
      modifies this`queue
      ensures msg == old(queue)[0] && queue == old(queue)[1..]
    {
      msg := queue[0];
      queue := queue[1..];
    }

    method Fill()
      requires queue != []
      modifies this`queue, this`buffer, this`mode, this`curFlag
      ensures State() == Refill(old(State()))
    {
      var msg := Pop();
      match msg {
        case Data(bytes, flag) =>
          curFlag := flag;
          buffer := buffer + bytes;
          if mode == Message(false) {
            mode := Message(true);
          }
        case Flush =>
      }
    }

    /** What others do to the pipe meanwhile. */
    method Suffer(others: seq<Step>)
      modifies this
      ensures State() == DisturbedBy(old(State()), others)
    {
      hide Disturbed;
      for i := 0 to |others|
        invariant State() == DisturbedBy(old(State()), others[..i])
      {
        assert others[..i + 1][..i] == others[..i];
        var r := Disturbed(State(), others[i]);
        queue, buffer, mode, curFlag, open := r.queue, r.buffer, r.mode, r.flag, r.open;
      }
      assert others[..|others|] == others;
    }

    /** Readiness of the pipe, as poll sees it, and the number of bytes it found. */
    method PollReady(unlocked: bool) returns (canRead: bool, available: nat)
      modifies this`queue, this`buffer, this`mode, this`curFlag
      ensures State() == Poll(old(State()), unlocked)
      ensures canRead <==> unlocked && (old(buffer) != [] || old(queue != [] && queue[0].Data?))
      ensures available == if canRead then |buffer| else 0
    {
      if !unlocked {
        return false, 0;
      }
      if buffer != [] {
        return true, |buffer|;
      }
      if queue == [] {
        return false, 0;
      }
      canRead := queue[0].Data?;
      Fill();
      return canRead, if canRead then |buffer| else 0;
    }
  }

  class Fd {
    const receiver: ReactorPipeReceiver
    var flipToAbort: bool
    var closed: bool

    constructor (receiver: ReactorPipeReceiver)
      ensures this.receiver == receiver && !flipToAbort && !closed
    {
      this.receiver, flipToAbort, closed := receiver, false, false;
    }

    /** The answer to an empty read, which flips the descriptor towards an abort. */
    method EmptyRead(answer: Answer) returns (a: Answer)
      modifies this`flipToAbort
      ensures Effect(receiver.State(), flipToAbort, a) == Empty(receiver.State(), old(flipToAbort), answer)
    {
      if flipToAbort {
        return Failed(BrokenPipe);
      }
      flipToAbort := true;
      return answer;
    }

    /** The poll-style read; the asynchronous read does the same and waits where this one is pending. */
    method PollRead() returns (a: Answer)
      modifies this`flipToAbort, receiver
      ensures Effect(receiver.State(), flipToAbort, a) == ReadMessage(old(receiver.State()), old(flipToAbort), closed)
    {
      if closed {
        return Failed(BrokenPipe);
      }
      if receiver.buffer != [] {
        var bytes := receiver.buffer;
        receiver.buffer := [];
        return Msg(Data(bytes, receiver.curFlag));
      }
      if receiver.mode == Message(true) {
        receiver.mode := Message(false);
        return Msg(Data([], receiver.curFlag));
      }
      var msg := Data([], receiver.curFlag);
      if receiver.queue != [] {
        msg := receiver.Pop();
      } else if receiver.open {
        return Pending;
      }
      if msg.Data? {
        receiver.curFlag := msg.flag;
      }
      if Len(msg) <= 0 {
        a := EmptyRead(Msg(msg));
      } else {
        a := Msg(msg);
      }
    }

    /** One turn of the loop of a blocking read. */
    method TryRead(n: nat, t: Tick) returns (a: Answer)
      modifies this`flipToAbort, receiver
      ensures Effect(receiver.State(), flipToAbort, a) == Attempt(old(receiver.State()), old(flipToAbort), n, t)
    {
      if t.unlocked {
        if receiver.buffer != [] {
          var max := Min(|receiver.buffer|, n);
          var got := receiver.buffer[..max];
          receiver.buffer := receiver.buffer[max..];
          return Bytes(got);
        }
        if receiver.queue != [] {
          receiver.Fill();
        } else if !receiver.open {
          a := EmptyRead(Bytes([]));
          return;
        }
      }
      if !t.blocking {
        return Failed(WouldBlock);
      }
      if t.terminate {
        return Failed(Interrupted);
      }
      if t.closed {
        a := EmptyRead(Bytes([]));
        return;
      }
      return Pending;
    }

    /**
     A blocking read, for as many turns as it is watched, with others at the pipe before each of them.  The
     world and the name of this descriptor in it only say what the read is part of.
     */
    method Read(n: nat, turns: seq<Turn>, ghost w: World, ghost fd: FdId) returns (a: Answer)
      requires w.receiver == receiver.State() && FlipOf(w, fd) == flipToAbort
      requires forall t, s :: t in turns && s in t.others ==> !IsBy(s, fd)
      modifies this`flipToAbort, receiver
      ensures var end := Reading(w, fd, n, turns);
              && receiver.State() == end.receiver && flipToAbort == FlipOf(end, fd)
              && a == (if turns == [] then Pending else LastAnswer(end))
              && (Conserved(w) ==> Conserved(end))
    {
      hide Attempt, Concat, Conserved, Reading, Run, ReadMessage, Poll;
      a := Pending;
      ghost var v := w;
      ReadingNothing(w, fd, n);
      assert turns[0..] == turns;
      for i := 0 to |turns|
        invariant a.Pending? && receiver.State() == v.receiver && flipToAbort == FlipOf(v, fd)
        invariant Reading(w, fd, n, turns) == Reading(v, fd, n, turns[i..])
        invariant i > 0 ==> a == LastAnswer(v)
      {
        assert turns[i..][0] == turns[i] && turns[i..][1..] == turns[i + 1..] && turns[i] in turns;
        ReadingStep(v, fd, n, turns[i..]);
        OthersOnly(v, fd, turns[i].others);
        receiver.Suffer(turns[i].others);
        v := Run(v, turns[i].others);
        a := TryRead(n, turns[i].tick);
        v := Apply(v, ByteRead(fd, n, turns[i].tick));
        if !a.Pending? {
          break;
        }
      }
      if a.Pending? {
        assert turns[|turns|..] == [];
        ReadingNothing(v, fd, n);
      }
      ReadingEnds(w, fd, n, turns);
    }
  }
}
