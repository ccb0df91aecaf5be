/** Who is woken when a socket changes: futures of several threads on one handle, the two
    waker slots of the TCP socket, and why a thread asleep on a future hears of its change. */
module SocketWakers {
  import opened AsyncSockets
  import opened Bytes
  import opened Options
  import opened WakerSlot
  import Runtime

  /** What a thread waits for; `close` first waits to flush and then to go down. */
  datatype Future =
    | ToConnect
    | ToAccept
    | ToRead(size: nat)
    | ToWrite(data: seq<Byte>)
    | ToFlush
    | ToGoDown

  /** The side whose waker slot a pending poll of the future uses. */
  function WaitsOn(f: Future): Side {
    match f
    case ToConnect => Send
    case ToAccept => Receive
    case ToRead(_) => Receive
    case ToWrite(_) => Send
    case ToFlush => Send
    case ToGoDown => Send
  }

  function ActionOf(f: Future): Action {
    match f
    case ToConnect => AwaitConnected
    case ToAccept => AwaitAccepted
    case ToRead(size) => Read(size)
    case ToWrite(data) => Write(data)
    case ToFlush => Close
    case ToGoDown => AwaitClosed
  }

  /** A poll now would return a result. */
  predicate Answers(c: Conn, f: Future) {
    match f
    case ToConnect => ConnectPoll(c).Ready?
    case ToAccept => AcceptPoll(c).Ready?
    case ToRead(size) => ReadPoll(c, size).1.Ready?
    case ToWrite(data) => WritePoll(c, data).1.Ready?
    case ToFlush => ClosePoll(c).1.Ready?
    case ToGoDown => Down(c.state)
  }

  /** A poll without a result registers on the side given above and leaves the socket alone. */
  lemma PendingRegisters(c: Conn, f: Future)
    requires !Answers(c, f) && Enabled(c, ActionOf(f))
    ensures Next(c, ActionOf(f)) == c
    ensures match f
            case ToConnect => ConnectPoll(c) == Pending(WaitsOn(f))
            case ToAccept => AcceptPoll(c) == Pending(WaitsOn(f))
            case ToRead(size) => ReadPoll(c, size).1 == Pending(WaitsOn(f))
            case ToWrite(data) => WritePoll(c, data).1 == Pending(WaitsOn(f))
            case ToFlush => ClosePoll(c).1 == Pending(WaitsOn(f))
            case ToGoDown => ClosedPoll(c).1 == Pending(WaitsOn(f))
  {
  }

  // ---------- which side is woken (contract of the TCP library) ----------

  /** A change of state wakes both sides, an acknowledgement of data the send side, and new
      data the receive side. */
  function Wakes(c: Conn, a: Action): set<Side>
    requires Enabled(c, a)
  {
    if Next(c, a).state != c.state then {Receive, Send}
    else match a
      case Net(Ack(n)) => if n > 0 then {Send} else {}
      case Net(Segment(data)) => if data != [] then {Receive} else {}
      case _ => {}
  }

  /** Every future but a write is woken by whatever makes its poll answer. */
  lemma AnswerIsAnnounced(c: Conn, a: Action, f: Future)
    requires Enabled(c, a) && !f.ToWrite? && !Answers(c, f) && Answers(Next(c, a), f)
    ensures WaitsOn(f) in Wakes(c, a)
  {
  }

  /** A read that empties the receive queue of a connection that receives no more. */
  predicate Drains(c: Conn, a: Action) {
    a.Read? && c.state != Established && 0 < |c.rx| <= a.size
  }

  /** A pending write goes unnoticed exactly when another caller's read drains the receive
      queue outside ESTABLISHED: then the poll would answer 0, and nothing wakes the send side. */
  lemma WriteAnswerMissedIff(c: Conn, a: Action, data: seq<Byte>)
    requires Enabled(c, a) && !Answers(c, ToWrite(data))
    ensures Answers(Next(c, a), ToWrite(data)) && Send !in Wakes(c, a) <==> Drains(c, a)
    ensures Drains(c, a) ==> WritePoll(Next(c, a), data).1 == Ready(Done(0))
  {
  }

  /** Such a connection: the peer has closed, the send queue is full, one byte is unread. */
  lemma WriteAnswerMissed(c: Conn, data: seq<Byte>)
    requires c == Start(1).(state := CloseWait, used := true, tx := [7], accepted := [7], rx := [1], received := [1])
    ensures Conserved(c) && WritePoll(c, data).1 == Pending(Send)
    ensures Enabled(c, Read(1)) && Wakes(c, Read(1)) == {}
    ensures WritePoll(Next(c, Read(1)), data).1 == Ready(Done(0))
  {
    WriteAnswerMissedIff(c, Read(1), data);
  }

  // ---------- several threads on one handle ----------

  /** A future pending since its last poll, and whether its waker has been called since. */
  datatype Waiting = Waiting(future: Future, woken: bool)

  datatype Handle = Handle(conn: Conn, receiver: Option<Waker>, sender: Option<Waker>, waiting: map<nat, Waiting>)

  function Slot(h: Handle, side: Side): Option<Waker> {
    if side == Receive then h.receiver else h.sender
  }

  function SetSlot(h: Handle, side: Side, w: Option<Waker>): Handle {
    if side == Receive then h.(receiver := w) else h.(sender := w)
  }

  function CallWaker(h: Handle, w: Option<Waker>): Handle {
    if w.Some? && w.value.task in h.waiting then
      h.(waiting := h.waiting[w.value.task := h.waiting[w.value.task].(woken := true)])
    else h
  }

  function WakeSide(h: Handle, side: Side): Handle {
    CallWaker(SetSlot(h, side, None), Slot(h, side))
  }

  function WakeSides(h: Handle, sides: set<Side>): Handle {
    var h' := if Receive in sides then WakeSide(h, Receive) else h;
    if Send in sides then WakeSide(h', Send) else h'
  }

  /** The slot is overwritten; a waker of another thread is called. */
  function Register(h: Handle, t: nat, side: Side): Handle {
    var (slot, displaced) := Registered(Slot(h, side), Waker(t));
    CallWaker(SetSlot(h, side, slot), displaced)
  }

  /** Something happens to the socket and the library wakes sides; or thread `t` polls. */
  datatype Step = Event(a: Action) | PollBy(t: nat, f: Future)

  function StepAction(step: Step): Action {
    match step
    case Event(a) => a
    case PollBy(_, f) => ActionOf(f)
  }

  function Happens(h: Handle, a: Action): Handle
    requires Enabled(h.conn, a)
  {
    WakeSides(h.(conn := Next(h.conn, a)), Wakes(h.conn, a))
  }

  function StepNext(h: Handle, step: Step): Handle
    requires Enabled(h.conn, StepAction(step))
  {
    match step
    case Event(a) => Happens(h, a)
    case PollBy(t, f) =>
      if Answers(h.conn, f) then
        var h' := Happens(h, ActionOf(f));
        h'.(waiting := h'.waiting - {t})
      else Register(h.(waiting := h.waiting[t := Waiting(f, false)]), t, WaitsOn(f))
  }

  predicate ValidSteps(h: Handle, run: seq<Step>)
    decreases |run|
  {
    run == [] || (Enabled(h.conn, StepAction(run[0])) && ValidSteps(StepNext(h, run[0]), run[1..]))
  }

  function AfterSteps(h: Handle, run: seq<Step>): Handle
    requires ValidSteps(h, run)
    decreases |run|
  {
    if run == [] then h else AfterSteps(StepNext(h, run[0]), run[1..])
  }

  function Opened(capacity: nat): Handle { Handle(Start(capacity), None, None, map[]) }

  predicate InSlot(h: Handle, t: nat)
    requires t in h.waiting
  {
    Slot(h, WaitsOn(h.waiting[t].future)) == Some(Waker(t))
  }

  /** A pending future has been woken since its poll, or its waker is in its slot; and then a
      poll would not answer, unless it is a write. */
  predicate Heard(h: Handle, t: nat)
    requires t in h.waiting
  {
    h.waiting[t].woken || (InSlot(h, t) && (h.waiting[t].future.ToWrite? || !Answers(h.conn, h.waiting[t].future)))
  }

  ghost predicate AllHeard(h: Handle) { forall t :: t in h.waiting ==> Heard(h, t) }

  /** What waking leaves of one thread's wait. */
  lemma WakeSidesAt(h: Handle, sides: set<Side>, t: nat)
    ensures WakeSides(h, sides).conn == h.conn
    ensures WakeSides(h, sides).waiting.Keys == h.waiting.Keys
    ensures t in h.waiting ==>
              var h' := WakeSides(h, sides);
              var side := WaitsOn(h.waiting[t].future);
              && h'.waiting[t].future == h.waiting[t].future
              && (h.waiting[t].woken ==> h'.waiting[t].woken)
              && (InSlot(h, t) && side in sides ==> h'.waiting[t].woken && !InSlot(h', t))
              && (side !in sides ==> InSlot(h', t) == InSlot(h, t))
              && (InSlot(h', t) ==> InSlot(h, t))
  {
  }

  lemma RegisterAt(h: Handle, u: nat, side: Side, t: nat)
    requires u in h.waiting
    ensures Register(h, u, side).conn == h.conn
    ensures Register(h, u, side).waiting.Keys == h.waiting.Keys
    ensures Slot(Register(h, u, side), side) == Some(Waker(u))
    ensures t == u && !h.waiting[u].woken ==> Register(h, u, side).waiting[u] == h.waiting[u]
    ensures t != u && t in h.waiting ==>
              var h' := Register(h, u, side);
              && h'.waiting[t].future == h.waiting[t].future
              && (h.waiting[t].woken ==> h'.waiting[t].woken)
              && (InSlot(h, t) ==> InSlot(h', t) || h'.waiting[t].woken)
              && (InSlot(h', t) ==> InSlot(h, t))
  {
  }

  lemma HappensHeard(h: Handle, a: Action, t: nat)
    requires Enabled(h.conn, a) && t in h.waiting && Heard(h, t)
    ensures t in Happens(h, a).waiting && Heard(Happens(h, a), t)
  {
    hide Answers, WakeSides, InSlot, Next, Enabled, Wakes;
    var f := h.waiting[t].future;
    WakeSidesAt(h.(conn := Next(h.conn, a)), Wakes(h.conn, a), t);
    SlotsOnly(h, Next(h.conn, a), t);
    if !h.waiting[t].woken && !f.ToWrite? && Answers(Next(h.conn, a), f) {
      AnswerIsAnnounced(h.conn, a, f);
    }
  }

  lemma SlotsOnly(h: Handle, c: Conn, t: nat)
    requires t in h.waiting
    ensures InSlot(h.(conn := c), t) == InSlot(h, t)
  {
  }

  lemma StepHeard(h: Handle, step: Step)
    requires AllHeard(h) && Enabled(h.conn, StepAction(step))
    ensures AllHeard(StepNext(h, step))
  {
    hide Answers, WakeSides, Register, Next, Enabled, Wakes;
    var h' := StepNext(h, step);
    forall t | t in h'.waiting
      ensures Heard(h', t)
    {
      match step
      case Event(a) =>
        WakeSidesAt(h.(conn := Next(h.conn, a)), Wakes(h.conn, a), t);
        HappensHeard(h, a, t);
      case PollBy(u, f) =>
        if Answers(h.conn, f) {
          WakeSidesAt(h.(conn := Next(h.conn, ActionOf(f))), Wakes(h.conn, ActionOf(f)), t);
          HappensHeard(h, ActionOf(f), t);
        } else {
          RegisterAt(h.(waiting := h.waiting[u := Waiting(f, false)]), u, WaitsOn(f), t);
        }
    }
  }

  lemma {:induction false} AlwaysHeard(h: Handle, run: seq<Step>)
    requires AllHeard(h) && ValidSteps(h, run)
    ensures AllHeard(AfterSteps(h, run))
    decreases |run|
  {
    hide AllHeard, StepNext, Enabled;
    if run != [] {
      StepHeard(h, run[0]);
      AlwaysHeard(StepNext(h, run[0]), run[1..]);
    }
  }

  /** Over any run of any number of threads on a handle: a pending connect, accept, read or
      close whose poll would answer has had its waker called since it was last polled. */
  lemma NoAnswerMissed(capacity: nat, run: seq<Step>, t: nat)
    requires ValidSteps(Opened(capacity), run) && t in AfterSteps(Opened(capacity), run).waiting
    ensures var h := AfterSteps(Opened(capacity), run);
            var w := h.waiting[t];
            !w.future.ToWrite? && Answers(h.conn, w.future) ==> w.woken
  {
    hide Answers, StepNext, Enabled;
    AlwaysHeard(Opened(capacity), run);
  }

  // ---------- the same, as a sleeping thread sees it ----------

  /** The thread's view of its socket: its waker is stored, and its poll would answer. */
  predicate Sees(h: Handle, t: nat, th: Runtime.Thread)
    requires t in h.waiting
  {
    th.registered == InSlot(h, t) && th.ready == Answers(h.conn, h.waiting[t].future)
  }

  /** What another's step on the socket is to the waiting thread. */
  function AsSeen(h: Handle, h': Handle, t: nat): seq<Runtime.ThreadAction>
    requires t in h.waiting && t in h'.waiting
  {
    var f := h.waiting[t].future;
    (if InSlot(h, t) && !InSlot(h', t) then [Runtime.TakeWaker] else [])
    + (if !Answers(h.conn, f) && Answers(h'.conn, f) then [Runtime.BecomeReady]
       else if Answers(h.conn, f) && !Answers(h'.conn, f) then [Runtime.BecomeUnready]
       else [])
  }

  predicate LocalSteps(k: Runtime.Kernel, th: Runtime.Thread, acts: seq<Runtime.ThreadAction>)
    decreases |acts|
  {
    acts == [] || (Runtime.LocalEnabled(k, th, acts[0]) && LocalSteps(k, Runtime.LocalNext(k, th, acts[0]), acts[1..]))
  }

  function LocalAfter(k: Runtime.Kernel, th: Runtime.Thread, acts: seq<Runtime.ThreadAction>): Runtime.Thread
    requires LocalSteps(k, th, acts)
    decreases |acts|
  {
    if acts == [] then th else LocalAfter(k, Runtime.LocalNext(k, th, acts[0]), acts[1..])
  }

  predicate IsPollBy(step: Step, t: nat) { step.PollBy? && step.t == t }

  lemma OthersStep(h: Handle, step: Step, t: nat)
    requires Enabled(h.conn, StepAction(step)) && t in h.waiting && !IsPollBy(step, t)
    ensures var h', f := StepNext(h, step), h.waiting[t].future;
            && t in h'.waiting && h'.waiting[t].future == f
            && (InSlot(h', t) ==> InSlot(h, t))
            && (InSlot(h, t) && !InSlot(h', t) ==> h'.waiting[t].woken)
            && (InSlot(h', t) && !f.ToWrite? && !Answers(h.conn, f) ==> !Answers(h'.conn, f))
  {
    hide Answers, WakeSides, Register, Next, Enabled, Wakes;
    match step
    case Event(a) => HappensSeen(h, a, t);
    case PollBy(u, f) =>
      if Answers(h.conn, f) {
        HappensSeen(h, ActionOf(f), t);
      } else {
        RegisterAt(h.(waiting := h.waiting[u := Waiting(f, false)]), u, WaitsOn(f), t);
      }
  }

  lemma HappensSeen(h: Handle, a: Action, t: nat)
    requires Enabled(h.conn, a) && t in h.waiting
    ensures var h', f := Happens(h, a), h.waiting[t].future;
            && t in h'.waiting && h'.waiting[t].future == f
            && (InSlot(h', t) ==> InSlot(h, t))
            && (InSlot(h, t) && !InSlot(h', t) ==> h'.waiting[t].woken)
            && (InSlot(h', t) && !f.ToWrite? && !Answers(h.conn, f) ==> !Answers(h'.conn, f))
  {
    hide Answers, WakeSides, InSlot, Next, Enabled, Wakes;
    var f := h.waiting[t].future;
    WakeSidesAt(h.(conn := Next(h.conn, a)), Wakes(h.conn, a), t);
    SlotsOnly(h, Next(h.conn, a), t);
    if !f.ToWrite? && !Answers(h.conn, f) && Answers(Next(h.conn, a), f) {
      AnswerIsAnnounced(h.conn, a, f);
    }
  }

  lemma FewSteps(k: Runtime.Kernel, th: Runtime.Thread, acts: seq<Runtime.ThreadAction>)
    requires |acts| <= 2
    requires |acts| >= 1 ==> Runtime.LocalEnabled(k, th, acts[0])
    requires |acts| == 2 ==> Runtime.LocalEnabled(k, Runtime.LocalNext(k, th, acts[0]), acts[1])
    ensures LocalSteps(k, th, acts)
    ensures LocalAfter(k, th, acts)
         == if acts == [] then th
            else if |acts| == 1 then Runtime.LocalNext(k, th, acts[0])
            else Runtime.LocalNext(k, Runtime.LocalNext(k, th, acts[0]), acts[1])
  {
    hide Runtime.LocalEnabled, Runtime.LocalNext;
    if |acts| == 1 {
      assert acts[1..] == [];
    } else if |acts| == 2 {
      var th1 := Runtime.LocalNext(k, th, acts[0]);
      var rest := acts[1..];
      assert rest[0] == acts[1] && rest[1..] == [];
      assert LocalSteps(k, th1, rest) && LocalAfter(k, th1, rest) == Runtime.LocalNext(k, th1, acts[1]);
    }
  }

  /** Every step of the others is, to a waiting thread, a run of the thread's own socket steps
      in `Runtime`, which all are enabled: no future that `block_on` runs becomes ready with its
      waker still stored. A write is run by `poll_on`. */
  lemma SocketStepsAreThreadSteps(k: Runtime.Kernel, h: Handle, step: Step, t: nat, th: Runtime.Thread)
    requires Enabled(h.conn, StepAction(step)) && t in h.waiting && !IsPollBy(step, t)
    requires Sees(h, t, th) && (h.waiting[t].future.ToWrite? ==> th.mode == Runtime.Polling)
    ensures var h' := StepNext(h, step);
            && t in h'.waiting
            && LocalSteps(k, th, AsSeen(h, h', t))
            && Sees(h', t, LocalAfter(k, th, AsSeen(h, h', t)))
  {
    hide StepNext, Enabled, Answers, InSlot, LocalSteps, LocalAfter;
    OthersStep(h, step, t);
    FewSteps(k, th, AsSeen(h, StepNext(h, step), t));
  }

  /** The thread's own poll is the end of a poll in `Runtime`. */
  lemma OwnPollIsPolled(h: Handle, t: nat, f: Future, th: Runtime.Thread)
    requires Enabled(h.conn, ActionOf(f)) && th.ready == Answers(h.conn, f)
    ensures var h' := StepNext(h, PollBy(t, f));
            if th.ready then Runtime.Polled(th).pc == Runtime.Returned && t !in h'.waiting
            else t in h'.waiting && h'.waiting[t] == Waiting(f, false) && Sees(h', t, Runtime.Polled(th))
  {
    hide Answers, WakeSides, Register, Next, Enabled, Wakes;
    if !th.ready {
      RegisterAt(h.(waiting := h.waiting[t := Waiting(f, false)]), t, WaitsOn(f), t);
    }
  }
}
