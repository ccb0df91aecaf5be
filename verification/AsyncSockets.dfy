/** The socket futures over one TCP handle. Every poll holds the interface lock, so a
    poll is one step; network steps happen in between. */
module AsyncSockets {
  import opened Bytes

  datatype TcpState =
    | Closed | Listen | SynSent | SynReceived | Established
    | FinWait1 | FinWait2 | CloseWait | Closing | LastAck | TimeWait

  datatype Side = Receive | Send

  /** Outcome of one poll; a pending one has stored the waker on one side. */
  datatype Poll<+T> = Ready(value: T) | Pending(on: Side)

  datatype Outcome<+T> = Done(result: T) | Illegal | Unaddressable

  /** The socket and what has happened to its bytes so far. */
  datatype Conn = Conn(
    state: TcpState,
    tx: seq<Byte>,          // send queue: written, not yet acknowledged
    rx: seq<Byte>,          // receive queue: arrived, not yet read
    capacity: nat,          // of the send queue
    used: bool,             // connect or listen was called
    accepted: seq<Byte>,    // everything `write` has taken
    acked: seq<Byte>,       // everything the peer has acknowledged
    received: seq<Byte>,    // everything that has arrived
    delivered: seq<Byte>,   // everything `read` has returned
    finished: bool,         // the TCP close call has been made
    closers: nat,           // close futures waiting for the connection to go down
    closeOk: bool)          // some close future has returned success

  function Start(capacity: nat): Conn {
    Conn(Closed, [], [], capacity, false, [], [], [], [], false, 0, false)
  }

  // ---------- the TCP socket (contract of the TCP library, after section 3.3.2 of RFC 9293) ----------

  predicate MaySend(c: Conn) { c.state in {Established, CloseWait} }

  predicate MayRecv(c: Conn) { c.state in {Established, FinWait1, FinWait2} || c.rx != [] }

  predicate IsActive(c: Conn) { c.state !in {Closed, TimeWait, Listen} }

  predicate CanSend(c: Conn) { MaySend(c) && |c.tx| < c.capacity }

  predicate CanRecv(c: Conn) { MayRecv(c) && c.rx != [] }

  function SendSlice(c: Conn, data: seq<Byte>): (r: (Conn, nat))
    requires MaySend(c)
    ensures r.1 <= |data|
  {
    var room := if |c.tx| < c.capacity then c.capacity - |c.tx| else 0;
    var n := if |data| <= room then |data| else room;
    (c.(tx := c.tx + data[..n], accepted := c.accepted + data[..n]), n)
  }

  function RecvSlice(c: Conn, size: nat): (r: (Conn, seq<Byte>))
    requires MayRecv(c)
    ensures |r.1| <= size
  {
    var n := if |c.rx| <= size then |c.rx| else size;
    (c.(rx := c.rx[n..], delivered := c.delivered + c.rx[..n]), c.rx[..n])
  }

  /** The user's CLOSE call. */
  function TcpClose(c: Conn): Conn {
    var next :=
      match c.state
      case Listen => Closed
      case SynSent => Closed
      case SynReceived => FinWait1
      case Established => FinWait1
      case CloseWait => LastAck
      case other => other;
    c.(state := next, finished := true)
  }

  datatype NetStep =
    | Ack(n: nat)              // the peer acknowledges n bytes of data
    | Segment(data: seq<Byte>) // data arrives in order
    | Syn
    | SynAck
    | AckOfSyn
    | Fin
    | AckOfFin
    | FinWithAckOfFin
    | Expire                   // the TIME-WAIT timer
    | Refused                  // reset during a passive open
    | Reset(keepQueue: bool)   // reset by the peer, or the library giving up

  predicate NetEnabled(c: Conn, e: NetStep) {
    match e
    case Ack(n) => c.state in {Established, CloseWait, FinWait1, Closing, LastAck} && n <= |c.tx|
    case Segment(_) => c.state in {Established, FinWait1, FinWait2}
    case Syn => c.state in {Listen, SynSent}
    case SynAck => c.state == SynSent
    case AckOfSyn => c.state == SynReceived
    case Fin => c.state in {Established, SynReceived, FinWait1, FinWait2}
    case AckOfFin => c.state in {FinWait1, Closing, LastAck} && c.tx == []
    case FinWithAckOfFin => c.state == FinWait1 && c.tx == []
    case Expire => c.state == TimeWait
    case Refused => c.state == SynReceived
    case Reset(_) => c.used && c.state != Listen
  }

  function NetNext(c: Conn, e: NetStep): Conn
    requires NetEnabled(c, e)
  {
    match e
    case Ack(n) => c.(tx := c.tx[n..], acked := c.acked + c.tx[..n])
    case Segment(data) => c.(rx := c.rx + data, received := c.received + data)
    case Syn => c.(state := SynReceived)
    case SynAck => c.(state := Established)
    case AckOfSyn => c.(state := Established)
    case Fin => c.(state := if c.state == FinWait1 then Closing else if c.state == FinWait2 then TimeWait else CloseWait)
    case AckOfFin => c.(state := if c.state == FinWait1 then FinWait2 else if c.state == Closing then TimeWait else Closed)
    case FinWithAckOfFin => c.(state := TimeWait)
    case Expire => c.(state := Closed)
    case Refused => c.(state := Listen)
    case Reset(keepQueue) => c.(state := Closed, tx := if keepQueue then c.tx else [])
  }

  // ---------- the futures ----------

  /** The states in which `read`, `write` and the first half of `close` refuse. */
  predicate Down(state: TcpState) { state in {FinWait1, FinWait2, Closed, Closing, TimeWait} }

  class AsyncSocket {
    var conn: Conn

    constructor (capacity: nat)
      ensures conn == Start(capacity)
    {
      conn := Start(capacity);
    }

    /** One poll of `connect`, after the connect call. */
    method PollConnected() returns (r: Poll<Outcome<()>>)
      ensures r == ConnectPoll(conn)
    {
      match conn.state
      case Closed => r := Ready(Unaddressable);
      case TimeWait => r := Ready(Unaddressable);
      case Listen => r := Ready(Illegal);
      case SynSent => r := Pending(Send);
      case SynReceived => r := Pending(Send);
      case _ => r := Ready(Done(()));
    }

    /** One poll of `accept`, after the listen call. */
    method PollAccepted() returns (r: Poll<Outcome<()>>)
      ensures r == AcceptPoll(conn)
    {
      if IsActive(conn) {
        r := Ready(Done(()));
      } else if conn.state in {Closed, Closing, FinWait1, FinWait2} {
        r := Ready(Illegal);
      } else {
        r := Pending(Receive);
      }
    }

    /** One poll of `read`. */
    method PollRead(size: nat) returns (r: Poll<Outcome<seq<Byte>>>)
      modifies this
      ensures (conn, r) == ReadPoll(old(conn), size)
    {
      if Down(conn.state) {
        r := Ready(Illegal);
      } else if CanRecv(conn) {
        var (c, data) := RecvSlice(conn, size);
        conn := c;
        r := Ready(Done(data));
      } else if !MayRecv(conn) {
        r := Ready(Done([]));
      } else {
        r := Pending(Receive);
      }
    }

    /** One poll of `write`. */
    method PollWrite(data: seq<Byte>) returns (r: Poll<Outcome<nat>>)
      modifies this
      ensures (conn, r) == WritePoll(old(conn), data)
    {
      if Down(conn.state) {
        r := Ready(Illegal);
      } else if !MayRecv(conn) {
        r := Ready(Done(0));
      } else if CanSend(conn) {
        var (c, n) := SendSlice(conn, data);
        conn := c;
        r := Ready(Done(n));
      } else {
        r := Pending(Send);
      }
    }

    /** One poll of the first half of `close`: wait for the send queue, then close. */
    method PollClose() returns (r: Poll<Outcome<()>>)
      modifies this
      ensures (conn, r) == ClosePoll(old(conn))
    {
      if Down(conn.state) {
        r := Ready(Illegal);
      } else if |conn.tx| > 0 {
        r := Pending(Send);
      } else {
        conn := TcpClose(conn);
        conn := conn.(closers := conn.closers + 1);
        r := Ready(Done(()));
      }
    }

    /** One poll of the second half of `close`: wait for the connection to go down. */
    method PollClosed() returns (r: Poll<Outcome<()>>)
      requires conn.closers > 0
      modifies this
      ensures (conn, r) == ClosedPoll(old(conn))
    {
      if Down(conn.state) {
        conn := conn.(closers := conn.closers - 1, closeOk := true);
        r := Ready(Done(()));
      } else {
        r := Pending(Send);
      }
    }
  }

  /** Waits for the handshake to end, and says that it did in any state past it. */
  function ConnectPoll(c: Conn): Poll<Outcome<()>> {
    if c.state in {SynSent, SynReceived} then Pending(Send)
    else if c.state == Listen then Ready(Illegal)
    else if c.state in {Closed, TimeWait} then Ready(Unaddressable)
    else Ready(Done(()))
  }

  /** Waits for a peer; of the states refused by name only one is not active. */
  function AcceptPoll(c: Conn): Poll<Outcome<()>> {
    if c.state in {Listen, TimeWait} then Pending(Receive)
    else if c.state == Closed then Ready(Illegal)
    else Ready(Done(()))
  }

  function ReadPoll(c: Conn, size: nat): (Conn, Poll<Outcome<seq<Byte>>>) {
    if Down(c.state) then (c, Ready(Illegal))
    else if c.rx != [] then (RecvSlice(c, size).0, Ready(Done(RecvSlice(c, size).1)))
    else if c.state != Established then (c, Ready(Done([])))
    else (c, Pending(Receive))
  }

  function WritePoll(c: Conn, data: seq<Byte>): (Conn, Poll<Outcome<nat>>) {
    if Down(c.state) then (c, Ready(Illegal))
    else if c.state != Established && c.rx == [] then (c, Ready(Done(0)))
    else if c.state in {Established, CloseWait} && |c.tx| < c.capacity
      then (SendSlice(c, data).0, Ready(Done(SendSlice(c, data).1)))
    else (c, Pending(Send))
  }

  function ClosePoll(c: Conn): (Conn, Poll<Outcome<()>>) {
    if Down(c.state) then (c, Ready(Illegal))
    else if c.tx != [] then (c, Pending(Send))
    else (TcpClose(c).(closers := c.closers + 1), Ready(Done(())))
  }

  function ClosedPoll(c: Conn): (Conn, Poll<Outcome<()>>)
    requires c.closers > 0
  {
    if Down(c.state) then (c.(closers := c.closers - 1, closeOk := true), Ready(Done(())))
    else (c, Pending(Send))
  }

  // ---------- runs ----------

  datatype Action =
    | Connect
    | Accept
    | AwaitConnected
    | AwaitAccepted
    | Read(size: nat)
    | Write(data: seq<Byte>)
    | Close
    | AwaitClosed
    | Net(e: NetStep)

  /** A handle is opened once; everything else may come in any order. */
  predicate Enabled(c: Conn, a: Action) {
    match a
    case Connect => !c.used && c.state == Closed
    case Accept => !c.used && c.state == Closed
    case AwaitConnected => true
    case AwaitAccepted => true
    case Read(_) => true
    case Write(_) => true
    case Close => true
    case AwaitClosed => c.closers > 0
    case Net(e) => NetEnabled(c, e)
  }

  function Next(c: Conn, a: Action): Conn
    requires Enabled(c, a)
  {
    match a
    case Connect => c.(state := SynSent, used := true)
    case Accept => c.(state := Listen, used := true)
    case AwaitConnected => c
    case AwaitAccepted => c
    case Read(size) => ReadPoll(c, size).0
    case Write(data) => WritePoll(c, data).0
    case Close => ClosePoll(c).0
    case AwaitClosed => ClosedPoll(c).0
    case Net(e) => NetNext(c, e)
  }

  predicate Valid(c: Conn, run: seq<Action>)
    decreases |run|
  {
    run == [] || (Enabled(c, run[0]) && Valid(Next(c, run[0]), run[1..]))
  }

  function After(c: Conn, run: seq<Action>): Conn
    requires Valid(c, run)
    decreases |run|
  {
    if run == [] then c else After(Next(c, run[0]), run[1..])
  }

  /** No byte is invented, lost or reordered while the connection lives, and once the
      close call has been made nothing accepted is unacknowledged. */
  ghost predicate Conserved(c: Conn) {
    && (c.state != Closed ==> c.accepted == c.acked + c.tx)
    && c.acked <= c.accepted
    && (!c.used ==> c.state == Closed && c.accepted == c.acked == c.tx == [])
    && c.received == c.delivered + c.rx
    && (c.finished ==> c.accepted == c.acked && c.used)
    && (c.finished ==> Down(c.state) || c.state == LastAck)
    && (c.closers > 0 || c.closeOk ==> c.finished)
    && (c.closeOk ==> Down(c.state))
    && (!c.finished ==> c.state !in {FinWait1, FinWait2, Closing, LastAck, TimeWait})
    && (c.state in {Listen, SynSent, SynReceived} ==> c.accepted == [])
  }

  lemma OpenConserved(c: Conn)
    requires Conserved(c) && !c.used && c.state == Closed
    ensures Conserved(c.(state := SynSent, used := true)) && Conserved(c.(state := Listen, used := true))
  {
  }

  lemma MovesAcross(x: seq<Byte>, y: seq<Byte>, n: nat)
    requires n <= |y|
    ensures (x + y[..n]) + y[n..] == x + y
  {
    assert y[..n] + y[n..] == y;
  }

  lemma {:induction false} ReadConserved(c: Conn, size: nat)
    requires Conserved(c)
    ensures Conserved(ReadPoll(c, size).0)
  {
    MovesAcross(c.delivered, c.rx, if |c.rx| <= size then |c.rx| else size);
  }

  lemma WriteConserved(c: Conn, data: seq<Byte>)
    requires Conserved(c)
    ensures Conserved(WritePoll(c, data).0)
  {
  }

  lemma CloseConserved(c: Conn)
    requires Conserved(c)
    ensures Conserved(ClosePoll(c).0)
    ensures c.closers > 0 ==> Conserved(ClosedPoll(c).0)
  {
  }

  lemma ConservedStep(c: Conn, a: Action)
    requires Conserved(c) && Enabled(c, a)
    ensures Conserved(Next(c, a))
  {
    hide Conserved, ReadPoll, WritePoll, ClosePoll, ClosedPoll, NetNext, NetEnabled;
    match a
    case Connect => OpenConserved(c);
    case Accept => OpenConserved(c);
    case AwaitConnected =>
    case AwaitAccepted =>
    case Read(size) => ReadConserved(c, size);
    case Write(data) => WriteConserved(c, data);
    case Close => CloseConserved(c);
    case AwaitClosed => CloseConserved(c);
    case Net(e) => NetConserved(c, e);
  }

  lemma NetConserved(c: Conn, e: NetStep)
    requires Conserved(c) && NetEnabled(c, e)
    ensures Conserved(NetNext(c, e))
  {
    if e.Ack? {
      assert c.tx == c.tx[..e.n] + c.tx[e.n..];
    }
  }

  lemma {:induction false} AlwaysConserved(c: Conn, run: seq<Action>)
    requires Conserved(c) && Valid(c, run)
    ensures Conserved(After(c, run))
    decreases |run|
  {
    hide Conserved, Enabled, Next;
    if run != [] {
      ConservedStep(c, run[0]);
      AlwaysConserved(Next(c, run[0]), run[1..]);
    }
  }

  // ---------- what callers and the peer see of a run ----------

  /** Data that arrived, in order. */
  function Arrived(run: seq<Action>): seq<Byte> {
    if run == [] then [] else ArrivedAt(run[0]) + Arrived(run[1..])
  }

  function ArrivedAt(a: Action): seq<Byte> {
    if a.Net? && a.e.Segment? then a.e.data else []
  }

  /** Data in the results of the reads, in order. */
  function ReadBack(c: Conn, run: seq<Action>): seq<Byte>
    requires Valid(c, run)
    decreases |run|
  {
    if run == [] then [] else ReadAt(c, run[0]) + ReadBack(Next(c, run[0]), run[1..])
  }

  function ReadAt(c: Conn, a: Action): seq<Byte> {
    if a.Read? then
      var r := ReadPoll(c, a.size).1;
      if r.Ready? && r.value.Done? then r.value.result else []
    else []
  }

  /** Data that the writes reported as written, in order. */
  function Written(c: Conn, run: seq<Action>): seq<Byte>
    requires Valid(c, run)
    decreases |run|
  {
    if run == [] then [] else WrittenAt(c, run[0]) + Written(Next(c, run[0]), run[1..])
  }

  function WrittenAt(c: Conn, a: Action): seq<Byte> {
    if a.Write? then
      var r := WritePoll(c, a.data).1;
      if r.Ready? && r.value.Done? then a.data[..if r.value.result <= |a.data| then r.value.result else |a.data|] else []
    else []
  }

  /** Data that the peer acknowledged, in order. */
  function Acknowledged(c: Conn, run: seq<Action>): seq<Byte>
    requires Valid(c, run)
    decreases |run|
  {
    if run == [] then [] else AcknowledgedAt(c, run[0]) + Acknowledged(Next(c, run[0]), run[1..])
  }

  function AcknowledgedAt(c: Conn, a: Action): seq<Byte>
    requires Enabled(c, a)
  {
    if a.Net? && a.e.Ack? then c.tx[..a.e.n] else []
  }

  /** Polls of the first half of `close` that answered success. */
  function ClosesAnswered(c: Conn, run: seq<Action>): nat
    requires Valid(c, run)
    decreases |run|
  {
    if run == [] then 0
    else (if run[0].Close? && ClosePoll(c).1 == Ready(Done(())) then 1 else 0) + ClosesAnswered(Next(c, run[0]), run[1..])
  }

  /** Polls of the second half of `close` that answered success: closes that returned Ok. */
  function ClosesReturned(c: Conn, run: seq<Action>): nat
    requires Valid(c, run)
    decreases |run|
  {
    if run == [] then 0
    else (if run[0].AwaitClosed? && ClosedPoll(c).1 == Ready(Done(())) then 1 else 0) + ClosesReturned(Next(c, run[0]), run[1..])
  }

  predicate TracesStep(c: Conn, c': Conn, arrived: seq<Byte>, read: seq<Byte>, written: seq<Byte>, acked: seq<Byte>) {
    && c'.received == c.received + arrived
    && c'.delivered == c.delivered + read
    && c'.accepted == c.accepted + written
    && c'.acked == c.acked + acked
  }

  lemma ReadTrace(c: Conn, size: nat)
    ensures TracesStep(c, ReadPoll(c, size).0, [], ReadAt(c, Read(size)), [], [])
  {
  }

  lemma WriteTrace(c: Conn, data: seq<Byte>)
    ensures TracesStep(c, WritePoll(c, data).0, [], [], WrittenAt(c, Write(data)), [])
  {
  }

  lemma CloseTrace(c: Conn)
    ensures TracesStep(c, ClosePoll(c).0, [], [], [], [])
    ensures c.closers > 0 ==> TracesStep(c, ClosedPoll(c).0, [], [], [], [])
  {
  }

  lemma NetTrace(c: Conn, e: NetStep)
    requires NetEnabled(c, e)
    ensures TracesStep(c, NetNext(c, e), ArrivedAt(Net(e)), [], [], AcknowledgedAt(c, Net(e)))
  {
  }

  lemma TraceStep(c: Conn, a: Action)
    requires Enabled(c, a)
    ensures TracesStep(c, Next(c, a), ArrivedAt(a), ReadAt(c, a), WrittenAt(c, a), AcknowledgedAt(c, a))
  {
    hide ReadPoll, WritePoll, ClosePoll, ClosedPoll, NetNext, NetEnabled;
    match a
    case Connect =>
    case Accept =>
    case AwaitConnected =>
    case AwaitAccepted =>
    case Read(size) => ReadTrace(c, size);
    case Write(data) => WriteTrace(c, data);
    case Close => CloseTrace(c);
    case AwaitClosed => CloseTrace(c);
    case Net(e) => NetTrace(c, e);
  }

  lemma CloseStep(c: Conn, a: Action)
    requires Enabled(c, a)
    ensures var c' := Next(c, a);
            var first := a.Close? && ClosePoll(c).1 == Ready(Done(()));
            var second := a.AwaitClosed? && ClosedPoll(c).1 == Ready(Done(()));
            && c'.closers == c.closers + (if first then 1 else 0) - (if second then 1 else 0)
            && (c'.finished <==> c.finished || first)
            && (c'.closeOk <==> c.closeOk || second)
  {
  }

  /** The bookkeeping of the model is what callers and the peer saw. */
  lemma {:induction false} FieldsAreTraces(c: Conn, run: seq<Action>)
    requires Valid(c, run)
    ensures var c' := After(c, run);
            && c'.received == c.received + Arrived(run)
            && c'.delivered == c.delivered + ReadBack(c, run)
            && c'.accepted == c.accepted + Written(c, run)
            && c'.acked == c.acked + Acknowledged(c, run)
            && c'.closers + ClosesReturned(c, run) == c.closers + ClosesAnswered(c, run)
            && (c'.finished <==> c.finished || ClosesAnswered(c, run) > 0)
            && (c'.closeOk <==> c.closeOk || ClosesReturned(c, run) > 0)
    decreases |run|
  {
    hide Enabled, Next, ReadAt, WrittenAt, AcknowledgedAt, ArrivedAt, ClosePoll, ClosedPoll;
    if run != [] {
      TraceStep(c, run[0]);
      CloseStep(c, run[0]);
      FieldsAreTraces(Next(c, run[0]), run[1..]);
    }
  }

  lemma StartTraces(capacity: nat, run: seq<Action>)
    requires Valid(Start(capacity), run)
    ensures var s, c := Start(capacity), After(Start(capacity), run);
            && Arrived(run) == c.received && ReadBack(s, run) == c.delivered
            && Written(s, run) == c.accepted && Acknowledged(s, run) == c.acked
            && c.closers + ClosesReturned(s, run) == ClosesAnswered(s, run)
            && (c.finished <==> ClosesAnswered(s, run) > 0)
            && (c.closeOk <==> ClosesReturned(s, run) > 0)
  {
    hide After, Arrived, ReadBack, Written, Acknowledged, ClosesAnswered, ClosesReturned, Valid;
    FieldsAreTraces(Start(capacity), run);
    assert forall x: seq<Byte> :: [] + x == x;
  }

  /** What the writes reported as written is acknowledged or still queued, in order, while the
      connection lives; what arrived has been returned by the reads or is still queued, in order. */
  lemma BytesConserved(capacity: nat, run: seq<Action>)
    requires Valid(Start(capacity), run)
    ensures var s, c := Start(capacity), After(Start(capacity), run);
            && (c.state != Closed ==> Written(s, run) == Acknowledged(s, run) + c.tx)
            && Acknowledged(s, run) <= Written(s, run)
            && Arrived(run) == ReadBack(s, run) + c.rx
  {
    AlwaysConserved(Start(capacity), run);
    StartTraces(capacity, run);
  }

  /** Close never overtakes data: when a poll of `close` answers that it made the close call, and at
      every later moment, everything that writes ever reported as written has been acknowledged. */
  lemma CloseNeverOvertakes(capacity: nat, run: seq<Action>)
    requires Valid(Start(capacity), run)
    ensures var s, c := Start(capacity), After(Start(capacity), run);
            && (ClosesAnswered(s, run) > 0 ==> Written(s, run) == Acknowledged(s, run))
            && (ClosePoll(c).1 == Ready(Done(())) ==> c.tx == [] && Written(s, run) == Acknowledged(s, run))
  {
    AlwaysConserved(Start(capacity), run);
    StartTraces(capacity, run);
  }

  /** A close that returned success means that everything reported as written reached the peer. */
  lemma SuccessfulCloseDelivered(capacity: nat, run: seq<Action>)
    requires Valid(Start(capacity), run) && ClosesReturned(Start(capacity), run) > 0
    ensures Written(Start(capacity), run) == Acknowledged(Start(capacity), run)
  {
    AlwaysConserved(Start(capacity), run);
    StartTraces(capacity, run);
  }

  /** A write reports less than it was given only when it filled the queue, or when nothing more
      can arrive; a read leaves bytes behind only when its buffer is full. */
  lemma TransfersAreFull(c: Conn, size: nat, data: seq<Byte>)
    ensures var (w, r) := WritePoll(c, data);
            r.Ready? && r.value.Done? ==>
              && r.value.result <= |data|
              && (r.value.result == |data| || |w.tx| >= w.capacity || (c.rx == [] && c.state != Established))
    ensures var (w, r) := ReadPoll(c, size);
            r.Ready? && r.value.Done? ==> |r.value.result| <= size && (|r.value.result| == size || w.rx == [])
  {
  }

  // ---------- the end of the stream ----------

  /** No continuation brings data. */
  ghost predicate NothingMoreArrives(c: Conn) {
    forall more :: Valid(c, more) ==> Arrived(more) == []
  }

  predicate PeerIsDone(c: Conn) { c.used && c.state in {CloseWait, LastAck, Closed} }

  lemma {:induction false} QuietForever(c: Conn, run: seq<Action>)
    requires PeerIsDone(c) && Valid(c, run)
    ensures Arrived(run) == []
    decreases |run|
  {
    if run != [] {
      hide Arrived;
      QuietStep(c, run[0]);
      QuietForever(Next(c, run[0]), run[1..]);
      assert Arrived(run) == ArrivedAt(run[0]) + Arrived(run[1..]);
    }
  }

  lemma QuietStep(c: Conn, a: Action)
    requires PeerIsDone(c) && Enabled(c, a)
    ensures PeerIsDone(Next(c, a)) && ArrivedAt(a) == []
  {
  }

  /** How data can still arrive after a read of an unfinished handshake. */
  function Handshake(c: Conn): seq<Action> {
    if c.state == Listen then [Net(Syn), Net(AckOfSyn), Net(Segment([1]))]
    else if c.state == SynSent then [Net(SynAck), Net(Segment([1]))]
    else [Net(AckOfSyn), Net(Segment([1]))]
  }

  lemma HandshakeBringsData(c: Conn)
    requires c.state in {Listen, SynSent, SynReceived}
    ensures Valid(c, Handshake(c)) && Arrived(Handshake(c)) == [1]
  {
    var run := Handshake(c);
    var rest := run[1..];
    var last := rest[1..];
    assert Valid(Next(c, run[0]), rest) by {
      if c.state == Listen {
        assert last[1..] == [];
      } else {
        assert last == [];
      }
    }
    if c.state == Listen {
      assert last == [Net(Segment([1]))] && last[1..] == [];
      assert Arrived(last) == [1];
    } else {
      assert rest == [Net(Segment([1]))];
      assert Arrived(rest) == [1];
    }
  }

  /** An empty result of a read with room means the end of the stream exactly when the handshake is
      over: then no continuation brings data. A read on a handle that is still shaking hands also
      answers with nothing, and data may follow. */
  lemma EndOfStreamIff(capacity: nat, run: seq<Action>, size: nat)
    requires Valid(Start(capacity), run) && size > 0
    requires ReadPoll(After(Start(capacity), run), size).1 == Ready(Done([]))
    ensures var c := After(Start(capacity), run);
            c.rx == [] && (NothingMoreArrives(c) <==> c.state !in {Listen, SynSent, SynReceived})
  {
    var c := After(Start(capacity), run);
    AlwaysConserved(Start(capacity), run);
    if c.state in {Listen, SynSent, SynReceived} {
      HandshakeBringsData(c);
    } else {
      hide Arrived, Valid;
      forall more | Valid(c, more)
        ensures Arrived(more) == []
      {
        QuietForever(c, more);
      }
    }
  }

  /** A read waits only while data may still come: it does not wait for a stream that has ended. */
  lemma ReadWaitsForData(capacity: nat, run: seq<Action>, size: nat)
    requires Valid(Start(capacity), run)
    ensures var c := After(Start(capacity), run);
            && (ReadPoll(c, size).1.Pending? ==> c.rx == [] && !NothingMoreArrives(c))
            && (NothingMoreArrives(c) && c.rx == [] && c.state in {CloseWait, LastAck} ==> ReadPoll(c, size).1 == Ready(Done([])))
            && (c.rx != [] && !Down(c.state) && size > 0 ==> exists data :: data != [] && ReadPoll(c, size).1 == Ready(Done(data)))
  {
    var c := After(Start(capacity), run);
    if ReadPoll(c, size).1.Pending? {
      var more := [Net(Segment([1]))];
      assert more[1..] == [];
      assert Valid(c, more) && Arrived(more) == [1];
    }
    if c.rx != [] && !Down(c.state) && size > 0 {
      assert RecvSlice(c, size).1 != [];
    }
  }

  predicate TakesWhenRoom(c: Conn, data: seq<Byte>) {
    var r := WritePoll(c, data).1;
    && (r.Pending? ==> |c.tx| >= c.capacity)
    && (|c.tx| < c.capacity && (c.rx != [] || c.state == Established) ==>
          r.Ready? && r.value.Done? && 0 < r.value.result <= |data|)
  }

  lemma OpenTakesWhenRoom(c: Conn, data: seq<Byte>)
    requires c.state in {Established, CloseWait} && data != []
    ensures TakesWhenRoom(c, data)
  {
  }

  lemma OpenStates(c: Conn)
    requires Conserved(c) && Phase(c, true) && !c.finished && c.state != Closed
    ensures c.state in {Established, CloseWait}
  {
  }

  /** A write after the handshake takes something whenever the queue has room, until this side closes,
      even when the peer has closed but left bytes to read; it waits only for room. */
  lemma WriteWaitsForRoom(capacity: nat, run: seq<Action>, data: seq<Byte>)
    requires Valid(Start(capacity), run) && ShookHands(Start(capacity), run) && ClosesAnswered(Start(capacity), run) == 0
    requires After(Start(capacity), run).state != Closed && data != []
    ensures TakesWhenRoom(After(Start(capacity), run), data)
  {
    AlwaysConserved(Start(capacity), run);
    PhaseAfter(Start(capacity), run, false);
    StartTraces(capacity, run);
    hide TakesWhenRoom, Conserved, Phase, Valid, After, ShookHands, ClosesAnswered;
    OpenStates(After(Start(capacity), run));
    OpenTakesWhenRoom(After(Start(capacity), run), data);
  }

  // ---------- who closed first ----------

  /** The close call was made before the peer's FIN. */
  predicate ClosesFirst(c: Conn, a: Action) {
    a.Close? && c.state in {SynReceived, Established} && ClosePoll(c).1 == Ready(Done(()))
  }

  predicate ClosedFirst(c: Conn, run: seq<Action>)
    requires Valid(c, run)
    decreases |run|
  {
    run != [] && (ClosesFirst(c, run[0]) || ClosedFirst(Next(c, run[0]), run[1..]))
  }

  predicate FirstPhase(c: Conn, first: bool) {
    && (!c.used ==> c.state == Closed)
    && (first ==> c.used && c.state in {FinWait1, FinWait2, Closing, TimeWait, Closed})
    && (!first ==> c.state !in {FinWait1, FinWait2, Closing, TimeWait})
  }

  lemma FirstStep(c: Conn, a: Action, first: bool)
    requires FirstPhase(c, first) && Enabled(c, a)
    ensures FirstPhase(Next(c, a), first || ClosesFirst(c, a))
  {
  }

  lemma {:induction false} FirstAfter(c: Conn, run: seq<Action>, first: bool)
    requires FirstPhase(c, first) && Valid(c, run)
    ensures FirstPhase(After(c, run), first || ClosedFirst(c, run))
    decreases |run|
  {
    hide FirstPhase, Enabled, Next, ClosesFirst;
    if run != [] {
      FirstStep(c, run[0], first);
      FirstAfter(Next(c, run[0]), run[1..], first || ClosesFirst(c, run[0]));
    }
  }

  /** Reads, writes and closes are refused, and a waiting close returns, exactly when the connection is
      gone or this side closed first. So a close after the peer's FIN returns only when its own
      FIN has been acknowledged, and until then what has arrived can be read. */
  lemma RefusedIff(capacity: nat, run: seq<Action>, size: nat, data: seq<Byte>)
    requires Valid(Start(capacity), run)
    ensures var c := After(Start(capacity), run);
            var over := c.state == Closed || ClosedFirst(Start(capacity), run);
            && (ReadPoll(c, size).1 == Ready(Illegal) <==> over)
            && (WritePoll(c, data).1 == Ready(Illegal) <==> over)
            && (ClosePoll(c).1 == Ready(Illegal) <==> over)
            && (c.closers > 0 ==> (ClosedPoll(c).1 == Ready(Done(())) <==> over))
  {
    FirstAfter(Start(capacity), run, false);
  }

  // ---------- connect and accept ----------

  /** The step ends the handshake: by the peer's segments, or because a side closes during it. */
  predicate EndsHandshake(c: Conn, a: Action) {
    || a == Net(SynAck) || a == Net(AckOfSyn)
    || (c.state == SynReceived && (a == Net(Fin) || (a.Close? && c.tx == [])))
  }

  predicate ShookHands(c: Conn, run: seq<Action>)
    requires Valid(c, run)
    decreases |run|
  {
    run != [] && (EndsHandshake(c, run[0]) || ShookHands(Next(c, run[0]), run[1..]))
  }

  predicate Has(run: seq<Action>, a: Action) { a in run }

  predicate HasReset(run: seq<Action>) { Has(run, Net(Reset(true))) || Has(run, Net(Reset(false))) }

  /** The connection is over. */
  predicate Ended(c: Conn) { c.used && c.state in {Closed, TimeWait} }

  predicate ShakingHands(c: Conn) { c.state in {Listen, SynSent, SynReceived} }

  /** Before the handshake a used handle is shaking hands or closed; after it, it is past it. */
  predicate Phase(c: Conn, shook: bool) {
    && (!c.used ==> c.state == Closed && !shook)
    && (shook ==> c.used && !ShakingHands(c))
    && (c.used && !shook ==> ShakingHands(c) || c.state == Closed)
  }

  lemma PhaseStep(c: Conn, a: Action, shook: bool)
    requires Conserved(c) && Phase(c, shook) && Enabled(c, a)
    ensures Phase(Next(c, a), shook || EndsHandshake(c, a))
  {
  }

  lemma {:induction false} PhaseAfter(c: Conn, run: seq<Action>, shook: bool)
    requires Conserved(c) && Phase(c, shook) && Valid(c, run)
    ensures Phase(After(c, run), shook || ShookHands(c, run))
    decreases |run|
  {
    hide Conserved, Phase, Enabled, Next, EndsHandshake;
    if run != [] {
      PhaseStep(c, run[0], shook);
      ConservedStep(c, run[0]);
      PhaseAfter(Next(c, run[0]), run[1..], shook || EndsHandshake(c, run[0]));
    }
  }

  /** On an opened handle `connect` answers success exactly when the handshake took place in the run
      and the connection has not ended since; with the two refusals and the wait, that is all. */
  lemma ConnectAnswers(capacity: nat, run: seq<Action>)
    requires Valid(Start(capacity), run) && After(Start(capacity), run).used
    ensures var c, shook := After(Start(capacity), run), ShookHands(Start(capacity), run);
            && (ConnectPoll(c) == Ready(Done(())) <==> shook && !Ended(c))
            && (ConnectPoll(c) == Ready(Unaddressable) <==> Ended(c))
            && (ConnectPoll(c) == Ready(Illegal) <==> c.state == Listen)
            && (ConnectPoll(c).Pending? <==> !shook && !Ended(c) && c.state != Listen)
  {
    AlwaysConserved(Start(capacity), run);
    PhaseAfter(Start(capacity), run, false);
  }

  /** `accept` does not wait for the handshake to end: on an opened handle it answers success exactly
      when the handle is past listening and not over. */
  lemma AcceptAnswers(capacity: nat, run: seq<Action>)
    requires Valid(Start(capacity), run) && After(Start(capacity), run).used
    ensures var c, shook := After(Start(capacity), run), ShookHands(Start(capacity), run);
            && (AcceptPoll(c) == Ready(Done(())) <==> c.state != Listen && !Ended(c))
            && (shook && !Ended(c) ==> AcceptPoll(c) == Ready(Done(())))
            && (AcceptPoll(c) == Ready(Done(())) && !shook <==> c.state in {SynSent, SynReceived})
            && (AcceptPoll(c) == Ready(Illegal) <==> c.state == Closed)
            && (AcceptPoll(c).Pending? <==> c.state in {Listen, TimeWait})
            && (AcceptPoll(c) == Ready(Done(())) ==> Has(run, Connect) || Has(run, Net(Syn)))
  {
    AlwaysConserved(Start(capacity), run);
    PhaseAfter(Start(capacity), run, false);
    ContactAfter(Start(capacity), run);
  }

  /** Without a connect call and a peer's SYN a handle stays closed or listening. */
  lemma {:induction false} ContactAfter(c: Conn, run: seq<Action>)
    requires c.state in {Closed, Listen} && Valid(c, run)
    ensures After(c, run).state !in {Closed, Listen} ==> Has(run, Connect) || Has(run, Net(Syn))
    decreases |run|
  {
    if run != [] {
      ContactStep(c, run[0]);
      if Next(c, run[0]).state in {Closed, Listen} {
        ContactAfter(Next(c, run[0]), run[1..]);
      }
    }
  }

  lemma ContactStep(c: Conn, a: Action)
    requires c.state in {Closed, Listen} && Enabled(c, a)
    ensures Next(c, a).state !in {Closed, Listen} ==> a == Connect || a == Net(Syn)
  {
  }

  lemma ClosedStaysClosed(c: Conn, a: Action)
    requires c.used && c.state == Closed && Enabled(c, a)
    ensures Next(c, a).used && Next(c, a).state == Closed
  {
  }

  lemma {:induction false} ResetIsFinal(c: Conn, run: seq<Action>)
    requires Conserved(c) && Valid(c, run) && (HasReset(run) || (c.used && c.state == Closed))
    ensures After(c, run).used && After(c, run).state == Closed
    decreases |run|
  {
    if run != [] {
      ConservedStep(c, run[0]);
      hide Conserved;
      if c.used && c.state == Closed {
        ClosedStaysClosed(c, run[0]);
      }
      assert HasReset(run) ==> (run[0].Net? && run[0].e.Reset?) || HasReset(run[1..]);
      ResetIsFinal(Next(c, run[0]), run[1..]);
    }
  }

  /** A connection that was reset, before or after the handshake, is refused from then on. */
  lemma ResetIsRefused(capacity: nat, run: seq<Action>)
    requires Valid(Start(capacity), run) && HasReset(run)
    ensures var c := After(Start(capacity), run);
            && ConnectPoll(c) == Ready(Unaddressable)
            && AcceptPoll(c) == Ready(Illegal)
            && ClosePoll(c).1 == Ready(Illegal)
  {
    AlwaysConserved(Start(capacity), []);
    ResetIsFinal(Start(capacity), run);
  }

  /** Nothing has come from the network and no one closed the handle. */
  predicate Undisturbed(run: seq<Action>) { forall i :: 0 <= i < |run| ==> !run[i].Net? && !run[i].Close? }

  lemma {:induction false} UndisturbedState(c: Conn, run: seq<Action>)
    requires Valid(c, run) && Undisturbed(run)
    requires (!c.used && c.state == Closed) || (c.used && c.state in {Listen, SynSent})
    ensures var c' := After(c, run);
            c'.state == if c.used then c.state else if Has(run, Accept) then Listen else if Has(run, Connect) then SynSent else Closed
    decreases |run|
  {
    if run != [] {
      UndisturbedStep(c, run[0]);
      assert run == [run[0]] + run[1..];
      UndisturbedState(Next(c, run[0]), run[1..]);
      if !c.used && run[0] in {Accept, Connect} {
        OpenedOnce(Next(c, run[0]), run[1..]);
      }
    }
  }

  lemma UndisturbedStep(c: Conn, a: Action)
    requires Enabled(c, a) && !a.Net? && !a.Close?
    ensures a == Accept ==> !c.used && Next(c, a).used && Next(c, a).state == Listen
    ensures a == Connect ==> !c.used && Next(c, a).used && Next(c, a).state == SynSent
    ensures a != Accept && a != Connect ==> Next(c, a).used == c.used && Next(c, a).state == c.state
  {
  }

  lemma {:induction false} OpenedOnce(c: Conn, run: seq<Action>)
    requires c.used && Valid(c, run)
    ensures !Has(run, Accept) && !Has(run, Connect)
    decreases |run|
  {
    if run != [] {
      UsedStays(c, run[0]);
      OpenedOnce(Next(c, run[0]), run[1..]);
      assert run == [run[0]] + run[1..];
    }
  }

  lemma UsedStays(c: Conn, a: Action)
    requires c.used && Enabled(c, a)
    ensures Next(c, a).used && a != Accept && a != Connect
  {
  }

  /** A handle that only listens refuses `connect` and keeps `accept` waiting; one that only called
      `connect` keeps it waiting. */
  lemma UndisturbedAnswers(capacity: nat, run: seq<Action>)
    requires Valid(Start(capacity), run) && Undisturbed(run)
    ensures var c := After(Start(capacity), run);
            && (Has(run, Accept) ==> ConnectPoll(c) == Ready(Illegal) && AcceptPoll(c) == Pending(Receive))
            && (Has(run, Connect) && !Has(run, Accept) ==> ConnectPoll(c) == Pending(Send))
  {
    UndisturbedState(Start(capacity), run);
  }

  // ---------- the state machine ----------

  /** Moves of the connection states that the user's close call may make. */
  predicate UserMove(from: TcpState, to: TcpState) {
    || (from in {Listen, SynSent} && to == Closed)
    || (from in {SynReceived, Established} && to == FinWait1)
    || (from == CloseWait && to == LastAck)
  }

  /** Moves that segments and timers may make, abandoned connections apart. */
  predicate PeerMove(from: TcpState, to: TcpState) {
    || (from in {Listen, SynSent} && to == SynReceived)
    || (from in {SynSent, SynReceived} && to == Established)
    || (from == SynReceived && to == Listen)
    || (from in {SynReceived, Established} && to == CloseWait)
    || (from == FinWait1 && to in {FinWait2, Closing, TimeWait})
    || (from in {FinWait2, Closing} && to == TimeWait)
    || (from in {LastAck, TimeWait} && to == Closed)
  }

  lemma CloseFollows(c: Conn)
    ensures ClosePoll(c).0.state != c.state ==> UserMove(c.state, ClosePoll(c).0.state)
  {
  }

  lemma NetFollows(c: Conn, e: NetStep)
    requires NetEnabled(c, e) && NetNext(c, e).state != c.state
    ensures if e.Reset? then NetNext(c, e).state == Closed else PeerMove(c.state, NetNext(c, e).state)
  {
  }

  /** Every change of state is a move of the TCP state machine, made by the right side. */
  lemma StatesFollow(c: Conn, a: Action)
    requires Enabled(c, a) && Next(c, a).state != c.state
    ensures match a
            case Connect => c.state == Closed && Next(c, a).state == SynSent
            case Accept => c.state == Closed && Next(c, a).state == Listen
            case Close => UserMove(c.state, Next(c, a).state)
            case Net(e) => if e.Reset? then Next(c, a).state == Closed else PeerMove(c.state, Next(c, a).state)
            case _ => false
  {
    hide ClosePoll, NetNext, NetEnabled, UserMove, PeerMove;
    if a.Net? {
      NetFollows(c, a.e);
    }
    CloseFollows(c);
  }

  lemma DownStays(c: Conn, a: Action)
    requires Down(c.state) && c.used && Enabled(c, a)
    ensures Down(Next(c, a).state) && Next(c, a).used
  {
  }

  lemma {:induction false} DownForever(c: Conn, run: seq<Action>)
    requires Down(c.state) && c.used && Valid(c, run)
    ensures Down(After(c, run).state) && After(c, run).used
    decreases |run|
  {
    hide Down, Enabled, Next;
    if run != [] {
      DownStays(c, run[0]);
      DownForever(Next(c, run[0]), run[1..]);
    }
  }

  /** After a close has returned success, every later `read`, `write` and `close` on the
      handle is refused, in every continuation. */
  lemma ClosedForGood(capacity: nat, run: seq<Action>, more: seq<Action>, size: nat, data: seq<Byte>)
    requires Valid(Start(capacity), run) && ClosesReturned(Start(capacity), run) > 0
    requires Valid(After(Start(capacity), run), more)
    ensures var c := After(After(Start(capacity), run), more);
            && ReadPoll(c, size) == (c, Ready(Illegal))
            && WritePoll(c, data) == (c, Ready(Illegal))
            && ClosePoll(c) == (c, Ready(Illegal))
  {
    AlwaysConserved(Start(capacity), run);
    StartTraces(capacity, run);
    DownForever(After(Start(capacity), run), more);
  }
}
