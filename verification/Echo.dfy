/** The latency benchmark as a protocol: a client and a server exchange messages of
    n_bytes over two bounded FIFO channels, with short reads, short writes and WouldBlock
    (`benches/netbench/src`). */
module Echo {
  import opened Arithmetic
  import opened Bytes
  import opened Connection

  /** Where one side is: which round, which of its two loops, how far in that loop. */
  datatype Side = Side(round: nat, sending: bool, count: nat)

  datatype State = State(client: Side, rbuf: seq<Byte>, server: Side, buf: seq<Byte>, up: seq<Byte>, down: seq<Byte>)

  /** Buffer length, number of rounds, channel capacity, and what the client sends. */
  datatype Setup = Setup(bytes: nat, rounds: nat, capacity: nat, messages: seq<seq<Byte>>) {
    ghost predicate Valid() {
      && capacity >= 1
      && |messages| == rounds
      && (forall i :: 0 <= i < rounds ==> |messages[i]| == bytes)
    }
  }

  ghost predicate Initial(p: Setup, s: State) {
    && s.client == Side(0, true, 0) && s.server == Side(0, false, 0)
    && |s.rbuf| == p.bytes && |s.buf| == p.bytes
    && s.up == [] && s.down == []
  }

  /** A call to read or write moves `n` bytes; 0 also stands for WouldBlock. Turn leaves a
      finished loop. */
  datatype Action = ClientWrite(n: nat) | ClientRead(n: nat) | ServerRead(n: nat) | ServerWrite(n: nat)
                  | ClientTurn | ServerTurn

  /** Leaving a loop: the client sends then receives, the server receives then sends. */
  function Turned(side: Side, sendsFirst: bool): Side {
    if side.sending == sendsFirst then Side(side.round, !sendsFirst, 0) else Side(side.round + 1, sendsFirst, 0)
  }

  predicate Enabled(p: Setup, s: State, a: Action)
    requires |s.rbuf| == |s.buf| == p.bytes
  {
    match a
    case ClientWrite(n) =>
      && s.client.round < p.rounds && s.client.sending && s.client.count < p.bytes
      && s.client.count + n <= p.bytes && |s.up| + n <= p.capacity
    case ClientRead(n) =>
      && s.client.round < p.rounds && !s.client.sending && s.client.count < p.bytes
      && s.client.count + n <= p.bytes && n <= |s.down|
    case ServerRead(n) =>
      && s.server.round < p.rounds && !s.server.sending && s.server.count < p.bytes
      && s.server.count + n <= p.bytes && n <= |s.up|
    case ServerWrite(n) =>
      && s.server.round < p.rounds && s.server.sending && s.server.count < p.bytes
      && s.server.count + n <= p.bytes && |s.down| + n <= p.capacity
    case ClientTurn => s.client.round < p.rounds && s.client.count >= p.bytes
    case ServerTurn => s.server.round < p.rounds && s.server.count >= p.bytes
  }

  function Step(p: Setup, s: State, a: Action): State
    requires p.Valid() && |s.rbuf| == |s.buf| == p.bytes && Enabled(p, s, a)
  {
    match a
    case ClientWrite(n) =>
      var c := s.client.count;
      s.(client := s.client.(count := c + n), up := s.up + p.messages[s.client.round][c..c + n])
    case ClientRead(n) =>
      s.(client := s.client.(count := s.client.count + n),
         rbuf := Filled(s.rbuf, s.client.count, s.down[..n]), down := s.down[n..])
    case ServerRead(n) =>
      s.(server := s.server.(count := s.server.count + n),
         buf := Filled(s.buf, s.server.count, s.up[..n]), up := s.up[n..])
    case ServerWrite(n) =>
      var c := s.server.count;
      s.(server := s.server.(count := c + n), down := s.down + s.buf[c..c + n])
    case ClientTurn => s.(client := Turned(s.client, true))
    case ServerTurn => s.(server := Turned(s.server, false))
  }

  /** Runs of the two sides under any interleaving, from any initial state. */
  ghost predicate Run(p: Setup, states: seq<State>, actions: seq<Action>)
    requires p.Valid()
  {
    && |states| == |actions| + 1
    && Initial(p, states[0])
    && (forall i :: 0 <= i < |actions| ==> Moves(p, states[i], actions[i], states[i + 1]))
  }

  ghost predicate Moves(p: Setup, s: State, a: Action, t: State)
    requires p.Valid()
  {
    |s.rbuf| == |s.buf| == p.bytes && Enabled(p, s, a) && t == Step(p, s, a)
  }

  // ---------- invariant ----------

  /** Empty messages put nothing on the wire. Otherwise a message is on its way up, on its
      way down, or one side has left the round and the other is still to leave it. */
  ghost predicate Inv(p: Setup, s: State)
    requires p.Valid()
  {
    var c, d, n := s.client, s.server, p.bytes;
    && |s.rbuf| == |s.buf| == n && c.count <= n && d.count <= n
    && c.round <= p.rounds && d.round <= p.rounds
    && (c.round == p.rounds ==> c == Side(p.rounds, true, 0))
    && (d.round == p.rounds ==> d == Side(p.rounds, false, 0))
    && |s.up| <= p.capacity && |s.down| <= p.capacity
    && (if n == 0 then s.up == [] == s.down
        else Uplink(p, s) || Downlink(p, s) || ServerAhead(p, s) || ClientAhead(p, s))
  }

  /** Bytes of its current round that the client has written. */
  function Sent(p: Setup, c: Side): nat { if c.sending then c.count else p.bytes }

  /** Bytes of its current round that the client has read back. */
  function Got(c: Side): nat { if c.sending then 0 else c.count }

  /** Same round, server still receiving: what left the client is in `buf` or in `up`. */
  ghost predicate Uplink(p: Setup, s: State)
    requires p.Valid()
  {
    var c, d := s.client, s.server;
    && c.round == d.round && !d.sending && s.down == []
    && Got(c) == 0
    && var left := Sent(p, c);
       (c.round < p.rounds ==>
          && left <= p.bytes && d.count <= left && d.count <= |s.buf|
          && s.buf[..d.count] == p.messages[c.round][..d.count]
          && s.up == p.messages[c.round][d.count..left])
       && (c.round == p.rounds ==> s.up == [])
  }

  /** Same round, both past the server's receive loop. */
  ghost predicate Downlink(p: Setup, s: State)
    requires p.Valid()
  {
    var c, d := s.client, s.server;
    && c.round == d.round < p.rounds && d.sending && s.up == []
    && Sent(p, c) == p.bytes
    && Got(c) <= d.count <= p.bytes && Got(c) <= |s.rbuf|
    && s.buf == p.messages[c.round]
    && s.rbuf[..Got(c)] == p.messages[c.round][..Got(c)]
    && s.down == p.messages[c.round][Got(c)..d.count]
  }

  /** The server has sent everything and waits for the next round. */
  ghost predicate ServerAhead(p: Setup, s: State)
    requires p.Valid()
  {
    var c, d := s.client, s.server;
    && c.round < p.rounds && d == Side(c.round + 1, false, 0) && s.up == []
    && Sent(p, c) == p.bytes
    && Got(c) <= p.bytes && Got(c) <= |s.rbuf|
    && s.rbuf[..Got(c)] == p.messages[c.round][..Got(c)]
    && s.down == p.messages[c.round][Got(c)..]
  }

  /** The client has read everything before the server left its send loop. */
  ghost predicate ClientAhead(p: Setup, s: State)
    requires p.Valid()
  {
    var c, d := s.client, s.server;
    && d.round < p.rounds && c.round == d.round + 1
    && d == Side(d.round, true, p.bytes) && s.down == []
    && c.count <= p.bytes && Got(c) == 0
    && (c.round < p.rounds ==> s.up == p.messages[c.round][..Sent(p, c)])
    && (c.round == p.rounds ==> s.up == [])
  }

  lemma InitialInv(p: Setup, s: State)
    requires p.Valid() && Initial(p, s)
    ensures Inv(p, s)
  {
    assert Uplink(p, s);
  }

  lemma FilledPrefix(buffer: seq<Byte>, at: nat, data: seq<Byte>, m: seq<Byte>)
    requires at + |data| <= |buffer| && at + |data| <= |m|
    requires buffer[..at] == m[..at] && data == m[at..at + |data|]
    ensures Filled(buffer, at, data)[..at + |data|] == m[..at + |data|]
  {
    assert m[..at] + m[at..at + |data|] == m[..at + |data|];
  }

  lemma ClientWriteInv(p: Setup, s: State, n: nat)
    requires p.Valid() && Inv(p, s) && Enabled(p, s, ClientWrite(n))
    ensures Inv(p, Step(p, s, ClientWrite(n)))
  {
    var t, c := Step(p, s, ClientWrite(n)), s.client.count;
    var m := p.messages[s.client.round];
    if Uplink(p, s) {
      assert m[s.server.count..c] + m[c..c + n] == m[s.server.count..c + n];
      assert Uplink(p, t);
    } else {
      assert m[..c] + m[c..c + n] == m[..c + n];
      assert ClientAhead(p, t);
    }
  }

  lemma ClientReadInv(p: Setup, s: State, n: nat)
    requires p.Valid() && Inv(p, s) && Enabled(p, s, ClientRead(n))
    ensures Inv(p, Step(p, s, ClientRead(n)))
  {
    var t, c := Step(p, s, ClientRead(n)), s.client.count;
    var m := p.messages[s.client.round];
    if Uplink(p, s) {
      assert n == 0;
      assert Uplink(p, t);
    } else if ClientAhead(p, s) {
      assert n == 0;
      assert ClientAhead(p, t);
    } else if Downlink(p, s) {
      assert s.down[..n] == m[c..c + n];
      FilledPrefix(s.rbuf, c, s.down[..n], m);
      assert Downlink(p, t);
    } else {
      assert s.down[..n] == m[c..c + n];
      FilledPrefix(s.rbuf, c, s.down[..n], m);
      assert ServerAhead(p, t);
    }
  }

  lemma ServerReadInv(p: Setup, s: State, n: nat)
    requires p.Valid() && Inv(p, s) && Enabled(p, s, ServerRead(n))
    ensures Inv(p, Step(p, s, ServerRead(n)))
  {
    var t, d := Step(p, s, ServerRead(n)), s.server.count;
    if Uplink(p, s) {
      var m := p.messages[s.client.round];
      assert s.up[..n] == m[d..d + n];
      FilledPrefix(s.buf, d, s.up[..n], m);
      assert Uplink(p, t);
    } else {
      assert n == 0;
      assert ServerAhead(p, t);
    }
  }

  lemma ServerWriteInv(p: Setup, s: State, n: nat)
    requires p.Valid() && Inv(p, s) && Enabled(p, s, ServerWrite(n))
    ensures Inv(p, Step(p, s, ServerWrite(n)))
  {
    var t, d := Step(p, s, ServerWrite(n)), s.server.count;
    var m := p.messages[s.client.round];
    assert m[Got(s.client)..d] + m[d..d + n] == m[Got(s.client)..d + n];
    assert Downlink(p, t);
  }

  lemma ClientTurnInv(p: Setup, s: State)
    requires p.Valid() && Inv(p, s) && Enabled(p, s, ClientTurn)
    ensures Inv(p, Step(p, s, ClientTurn))
  {
    var t := Step(p, s, ClientTurn);
    if p.bytes == 0 {
    } else if Uplink(p, s) {
      assert Uplink(p, t);
    } else if ClientAhead(p, s) {
      assert ClientAhead(p, t);
    } else if s.client.sending {
      assert if Downlink(p, s) then Downlink(p, t) else ServerAhead(p, t);
    } else if Downlink(p, s) {
      assert ClientAhead(p, t);
    } else {
      assert Uplink(p, t);
    }
  }

  lemma ServerTurnInv(p: Setup, s: State)
    requires p.Valid() && Inv(p, s) && Enabled(p, s, ServerTurn)
    ensures Inv(p, Step(p, s, ServerTurn))
  {
    var t := Step(p, s, ServerTurn);
    if p.bytes == 0 {
    } else if Uplink(p, s) {
      var m := p.messages[s.client.round];
      assert m[..p.bytes] == m && s.buf[..p.bytes] == s.buf;
      assert Downlink(p, t);
    } else if Downlink(p, s) {
      assert ServerAhead(p, t);
    } else {
      assert Uplink(p, t);
    }
  }

  lemma StepInv(p: Setup, s: State, a: Action)
    requires p.Valid() && Inv(p, s) && Enabled(p, s, a)
    ensures Inv(p, Step(p, s, a))
  {
    match a
    case ClientWrite(n) => ClientWriteInv(p, s, n);
    case ClientRead(n) => ClientReadInv(p, s, n);
    case ServerRead(n) => ServerReadInv(p, s, n);
    case ServerWrite(n) => ServerWriteInv(p, s, n);
    case ClientTurn => ClientTurnInv(p, s);
    case ServerTurn => ServerTurnInv(p, s);
  }

  /** Every state of every run satisfies the invariant. */
  lemma {:induction false} RunInv(p: Setup, states: seq<State>, actions: seq<Action>, i: nat)
    requires p.Valid() && Run(p, states, actions) && i < |states|
    ensures Inv(p, states[i])
  {
    hide Inv;
    if i == 0 {
      InitialInv(p, states[0]);
    } else {
      RunInv(p, states, actions, i - 1);
      assert Moves(p, states[i - 1], actions[i - 1], states[i - 1 + 1]);
      StepInv(p, states[i - 1], actions[i - 1]);
    }
  }

  // ---------- what the benchmark relies on ----------

  predicate Finished(p: Setup, s: State) {
    s.client.round == p.rounds && s.server.round == p.rounds
  }

  /** At most one message is in flight. */
  lemma InFlight(p: Setup, states: seq<State>, actions: seq<Action>, i: nat)
    requires p.Valid() && Run(p, states, actions) && i < |states|
    ensures |states[i].up| + |states[i].down| <= p.bytes
  {
    RunInv(p, states, actions, i);
  }

  /** When the client's round ends, it has read back exactly what it sent. */
  lemma RoundEchoes(p: Setup, states: seq<State>, actions: seq<Action>, i: nat)
    requires p.Valid() && Run(p, states, actions) && i < |actions|
    requires actions[i].ClientTurn? && !states[i].client.sending
    ensures states[i].client.round < p.rounds && states[i].rbuf == p.messages[states[i].client.round]
  {
    RunInv(p, states, actions, i);
    assert Moves(p, states[i], actions[i], states[i + 1]);
    var s := states[i];
    var m := p.messages[s.client.round];
    assert s.rbuf[..p.bytes] == s.rbuf && m[..p.bytes] == m;
  }

  /** Work done so far: every step but a transfer of nothing adds to it. */
  function SideWork(p: Setup, side: Side, sendsFirst: bool): nat {
    side.round * (2 * p.bytes + 2) + (if side.sending == sendsFirst then 0 else p.bytes + 1) + side.count
  }

  function Work(p: Setup, s: State): nat {
    SideWork(p, s.client, true) + SideWork(p, s.server, false)
  }

  predicate Idle(a: Action) {
    match a
    case ClientWrite(n) => n == 0
    case ClientRead(n) => n == 0
    case ServerRead(n) => n == 0
    case ServerWrite(n) => n == 0
    case ClientTurn => false
    case ServerTurn => false
  }

  lemma TurnedWork(p: Setup, side: Side, sendsFirst: bool)
    requires side.count == p.bytes
    ensures SideWork(p, Turned(side, sendsFirst), sendsFirst) == SideWork(p, side, sendsFirst) + 1
  {
    assert (side.round + 1) * (2 * p.bytes + 2) == side.round * (2 * p.bytes + 2) + (2 * p.bytes + 2);
  }

  lemma StepWorks(p: Setup, s: State, a: Action)
    requires p.Valid() && Inv(p, s) && Enabled(p, s, a)
    ensures Work(p, Step(p, s, a)) >= Work(p, s) + if Idle(a) then 0 else 1
  {
    hide Uplink, Downlink, ServerAhead, ClientAhead;
    match a
    case ClientWrite(n) =>
    case ClientRead(n) =>
    case ServerRead(n) =>
    case ServerWrite(n) =>
    case ClientTurn => TurnedWork(p, s.client, true);
    case ServerTurn => TurnedWork(p, s.server, false);
  }

  lemma SideWorkBound(p: Setup, side: Side, sendsFirst: bool)
    requires side.count <= p.bytes && side.round <= p.rounds
    requires side.round == p.rounds ==> side == Side(p.rounds, sendsFirst, 0)
    ensures SideWork(p, side, sendsFirst) <= p.rounds * (2 * p.bytes + 2)
  {
    if side.round < p.rounds {
      var w := 2 * p.bytes + 2;
      assert (side.round + 1) * w == side.round * w + w;
      MulMonotone(side.round + 1, p.rounds, w);
    }
  }

  function BusySteps(actions: seq<Action>): nat {
    if actions == [] then 0
    else BusySteps(actions[..|actions| - 1]) + if Idle(actions[|actions| - 1]) then 0 else 1
  }

  lemma {:induction false} WorkCountsSteps(p: Setup, states: seq<State>, actions: seq<Action>)
    requires p.Valid() && Run(p, states, actions)
    ensures |states| == |actions| + 1 && Work(p, states[|actions|]) >= BusySteps(actions)
    decreases |actions|
  {
    hide Work, Inv, Idle, Moves, Initial;
    if actions != [] {
      RunPrefix(p, states, actions);
      LastStepWorks(p, states, actions);
      WorkCountsSteps(p, states[..|actions|], actions[..|actions| - 1]);
    }
  }

  lemma LastStepWorks(p: Setup, states: seq<State>, actions: seq<Action>)
    requires p.Valid() && Run(p, states, actions) && actions != []
    ensures Work(p, states[|actions|]) >= Work(p, states[|actions| - 1]) + if Idle(actions[|actions| - 1]) then 0 else 1
  {
    hide Work, Inv, Idle;
    var k := |actions|;
    RunInv(p, states, actions, k - 1);
    assert Moves(p, states[k - 1], actions[k - 1], states[k - 1 + 1]);
    StepWorks(p, states[k - 1], actions[k - 1]);
  }

  lemma RunPrefix(p: Setup, states: seq<State>, actions: seq<Action>)
    requires p.Valid() && Run(p, states, actions) && actions != []
    ensures Run(p, states[..|actions|], actions[..|actions| - 1])
  {
    hide Moves;
  }

  /** No run makes more than this many transfers and turns, whatever the interleaving. */
  lemma BusyStepsBounded(p: Setup, states: seq<State>, actions: seq<Action>)
    requires p.Valid() && Run(p, states, actions)
    ensures BusySteps(actions) <= 2 * (p.rounds * (2 * p.bytes + 2))
  {
    hide BusySteps, Uplink, Downlink, ServerAhead, ClientAhead;
    WorkCountsSteps(p, states, actions);
    var s := states[|actions|];
    RunInv(p, states, actions, |actions|);
    SideWorkBound(p, s.client, true);
    SideWorkBound(p, s.server, false);
  }

  /** A step that moves at least one byte or leaves a loop. */
  function NextStep(p: Setup, s: State): Action {
    if s.client.round < p.rounds && s.client.count >= p.bytes then ClientTurn
    else if s.server.round < p.rounds && s.server.count >= p.bytes then ServerTurn
    else if s.up != [] then ServerRead(1)
    else if s.down != [] then ClientRead(1)
    else if s.client.sending && s.client.round < p.rounds then ClientWrite(1)
    else ServerWrite(1)
  }

  /** No deadlock: an unfinished run can always make progress, at any capacity from 1 up. */
  lemma Progress(p: Setup, states: seq<State>, actions: seq<Action>, i: nat)
    requires p.Valid() && Run(p, states, actions) && i < |states|
    requires !Finished(p, states[i])
    ensures |states[i].rbuf| == |states[i].buf| == p.bytes
    ensures Enabled(p, states[i], NextStep(p, states[i])) && !Idle(NextStep(p, states[i]))
  {
    RunInv(p, states, actions, i);
  }
}
