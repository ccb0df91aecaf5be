/** The two transfer loops of `benches/netbench/src/connection.rs`. */
module Connection {
  import opened Bytes

  /** What the next call on the stream will do. */
  datatype Reply = Moves(n: nat) | WouldBlock | Fails

  datatype IoResult = Ok(n: nat) | Busy | Error

  /** A loop is complete, or panicked on an error, or still waits for replies. */
  datatype Progress = Complete | Panicked | Waiting

  function Min(a: nat, b: nat): (r: nat)
    ensures r <= a && r <= b && (r == a || r == b)
  {
    if a <= b then a else b
  }

  /** A buffer after `data` is stored at offset `at`. */
  function Filled(buffer: seq<Byte>, at: nat, data: seq<Byte>): (r: seq<Byte>)
    requires at + |data| <= |buffer|
    ensures |r| == |buffer|
  {
    buffer[..at] + data + buffer[at + |data|..]
  }

  /** A stream: replies still to come, bytes accepted from us, bytes to be read by us. */
  class Stream {
    var replies: seq<Reply>
    var sent: seq<Byte>
    var incoming: seq<Byte>

    constructor (replies: seq<Reply>, incoming: seq<Byte>)
      ensures this.replies == replies && this.incoming == incoming && sent == []
    {
      this.replies, this.incoming, sent := replies, incoming, [];
    }

    method Write(buffer: seq<Byte>) returns (r: IoResult)
      requires replies != []
      modifies this
      ensures replies == old(replies)[1..] && incoming == old(incoming)
      ensures match old(replies)[0]
              case Moves(n) => r == Ok(Min(n, |buffer|)) && sent == old(sent) + buffer[..Min(n, |buffer|)]
              case WouldBlock => r == Busy && sent == old(sent)
              case Fails => r == Error && sent == old(sent)
    {
      match replies[0] {
      case Moves(n) =>
        r := Ok(Min(n, |buffer|));
        sent := sent + buffer[..Min(n, |buffer|)];
      case WouldBlock => r := Busy;
      case Fails => r := Error;
      }
      replies := replies[1..];
    }

    /** Reads into `buffer` from offset `at` on. */
    method Read(buffer: array<Byte>, at: nat) returns (r: IoResult)
      requires replies != [] && at <= buffer.Length
      modifies this, buffer
      ensures replies == old(replies)[1..] && sent == old(sent)
      ensures match old(replies)[0]
              case Moves(n) =>
                var k := Min(Min(n, buffer.Length - at), |old(incoming)|);
                && r == Ok(k) && incoming == old(incoming)[k..]
                && buffer[..] == Filled(old(buffer[..]), at, old(incoming)[..k])
              case WouldBlock => r == Busy && incoming == old(incoming) && buffer[..] == old(buffer[..])
              case Fails => r == Error && incoming == old(incoming) && buffer[..] == old(buffer[..])
    {
      match replies[0] {
      case Moves(n) =>
        var k := Min(Min(n, buffer.Length - at), |incoming|);
        forall i | 0 <= i < k {
          buffer[at + i] := incoming[i];
        }
        assert buffer[..] == Filled(old(buffer[..]), at, incoming[..k]);
        incoming := incoming[k..];
        r := Ok(k);
      case WouldBlock => r := Busy;
      case Fails => r := Error;
      }
      replies := replies[1..];
    }
  }

  // ---------- how far the replies carry a loop ----------

  /** Bytes that the replies are ready to move, all in all. */
  function Moved(rs: seq<Reply>): nat {
    if rs == [] then 0
    else
      var k := |rs| - 1;
      Moved(rs[..k]) + if rs[k].Moves? then rs[k].n else 0
  }

  predicate NoneFails(rs: seq<Reply>) { forall i :: 0 <= i < |rs| ==> !rs[i].Fails? }

  lemma {:induction false} MovedMonotone(rs: seq<Reply>, j: nat, k: nat)
    requires j <= k <= |rs|
    ensures Moved(rs[..j]) <= Moved(rs[..k])
  {
    if j < k {
      MovedMonotone(rs, j, k - 1);
      assert rs[..k][..k - 1] == rs[..k - 1];
    }
  }

  lemma MovedStep(rs: seq<Reply>, k: nat)
    requires k < |rs|
    ensures Moved(rs[..k + 1]) == Moved(rs[..k]) + if rs[k].Moves? then rs[k].n else 0
    ensures NoneFails(rs[..k + 1]) <==> NoneFails(rs[..k]) && !rs[k].Fails?
  {
    assert rs[..k + 1][..k] == rs[..k];
    assert rs[..k + 1][k] == rs[k];
    assert forall i :: 0 <= i < k ==> rs[..k + 1][i] == rs[..k][i];
  }

  /** The loop consumed the first `used` replies, each before it was done, and stands at `count`;
      it can move no more than `limit` bytes. */
  ghost predicate Consumed(rs: seq<Reply>, used: nat, left: seq<Reply>, nBytes: nat, limit: nat, count: nat) {
    && used <= |rs| && left == rs[used..]
    && count == Min(Moved(rs[..used]), limit)
    && (forall j: nat :: j < used ==> CountAt(rs, j, limit) < nBytes)
  }

  function CountAt(rs: seq<Reply>, j: nat, limit: nat): nat
    requires j <= |rs|
  {
    Min(Moved(rs[..j]), limit)
  }

  /** What a transfer loop does with the replies it gets: WouldBlock is retried, an error and only
      an error panics, and the loop completes when enough is moved before the first error. */
  ghost predicate Outcome(rs: seq<Reply>, left: seq<Reply>, nBytes: nat, limit: nat, count: nat, p: Progress) {
    && |left| <= |rs| && Consumed(rs, |rs| - |left|, left, nBytes, limit, count)
    && (p.Panicked? <==> !NoneFails(rs[..|rs| - |left|]))
    && (p.Complete? <==> count >= nBytes)
    && (p.Waiting? ==> left == [])
    && (limit >= nBytes ==> forall k: nat :: k <= |rs| && Suffices(rs, k, nBytes) ==> p.Complete?)
  }

  predicate Suffices(rs: seq<Reply>, k: nat, nBytes: nat)
    requires k <= |rs|
  {
    NoneFails(rs[..k]) && Moved(rs[..k]) >= nBytes
  }

  lemma NothingConsumed(rs: seq<Reply>, nBytes: nat, limit: nat)
    ensures Consumed(rs, 0, rs, nBytes, limit, 0)
  {
    assert rs[..0] == [];
  }

  lemma OneConsumed(rs: seq<Reply>, used: nat, left: seq<Reply>, nBytes: nat, limit: nat, count: nat, more: nat)
    requires Consumed(rs, used, left, nBytes, limit, count) && left != [] && count < nBytes
    requires more == if left[0].Moves? then Min(left[0].n, limit - count) else 0
    ensures left[0] == rs[used]
    ensures Consumed(rs, used + 1, left[1..], nBytes, limit, count + more)
  {
    MovedStep(rs, used);
    assert CountAt(rs, used, limit) == count;
  }

  lemma Concluded(rs: seq<Reply>, left: seq<Reply>, nBytes: nat, limit: nat, count: nat, p: Progress)
    requires |left| <= |rs| && Consumed(rs, |rs| - |left|, left, nBytes, limit, count)
    requires p.Panicked? <==> !NoneFails(rs[..|rs| - |left|])
    requires p.Complete? <==> count >= nBytes
    requires p.Waiting? ==> left == []
    ensures Outcome(rs, left, nBytes, limit, count, p)
  {
    var used := |rs| - |left|;
    forall k: nat | limit >= nBytes && k <= |rs| && Suffices(rs, k, nBytes)
      ensures p.Complete?
    {
      assert k >= used by {
        assert k < used ==> CountAt(rs, k, limit) < nBytes;
      }
      MovedMonotone(rs, used, k);
      NoneFailsPrefix(rs, used, k);
    }
  }

  lemma NoneFailsPrefix(rs: seq<Reply>, j: nat, k: nat)
    requires j <= k <= |rs| && NoneFails(rs[..k])
    ensures NoneFails(rs[..j])
  {
    assert forall i :: 0 <= i < j ==> rs[..j][i] == rs[..k][i];
  }

  /** Sends at least the first n bytes of wbuf, in order and without gaps. */
  method SendMessage(nBytes: nat, stream: Stream, wbuf: array<Byte>) returns (p: Progress, send: nat)
    requires nBytes <= wbuf.Length
    modifies stream
    ensures send <= wbuf.Length && stream.sent == old(stream.sent) + wbuf[..send]
    ensures Outcome(old(stream.replies), stream.replies, nBytes, wbuf.Length, send, p)
    ensures p.Complete? && nBytes == wbuf.Length ==> stream.sent == old(stream.sent) + wbuf[..]
    ensures stream.incoming == old(stream.incoming)
  {
    hide Consumed, Outcome, Moved;
    ghost var rs := stream.replies;
    ghost var used: nat := 0;
    NothingConsumed(rs, nBytes, wbuf.Length);
    send := 0;
    while send < nBytes && stream.replies != []
      invariant send <= wbuf.Length && stream.sent == old(stream.sent) + wbuf[..send]
      invariant stream.incoming == old(stream.incoming)
      invariant used + |stream.replies| == |rs| && NoneFails(rs[..used])
      invariant Consumed(rs, used, stream.replies, nBytes, wbuf.Length, send)
      decreases |stream.replies|
    {
      ghost var left := stream.replies;
      MovedStep(rs, used);
      OneConsumed(rs, used, left, nBytes, wbuf.Length, send,
                  if left[0].Moves? then Min(left[0].n, wbuf.Length - send) else 0);
      var r := stream.Write(wbuf[send..]);
      used := used + 1;
      match r
      case Ok(n) => {
        assert wbuf[..send] + wbuf[send..][..n] == wbuf[..send + n];
        send := send + n;
      }
      case Busy =>
      case Error => {
        Concluded(rs, stream.replies, nBytes, wbuf.Length, send, Panicked);
        return Panicked, send;
      }
    }
    assert wbuf[..wbuf.Length] == wbuf[..];
    p := if send < nBytes then Waiting else Complete;
    Concluded(rs, stream.replies, nBytes, wbuf.Length, send, p);
  }

  /** `recv` bytes of `arrived` are in the buffer, the rest of both is as it was. */
  ghost predicate Received(now: seq<Byte>, left: seq<Byte>, before: seq<Byte>, arrived: seq<Byte>, recv: nat) {
    && recv <= |before| && recv <= |arrived|
    && now == arrived[..recv] + before[recv..]
    && left == arrived[recv..]
  }

  lemma ReadStep(now: seq<Byte>, left: seq<Byte>, before: seq<Byte>, arrived: seq<Byte>, recv: nat, k: nat)
    requires Received(now, left, before, arrived, recv) && recv + k <= |before| == |now| && k <= |left|
    ensures Received(Filled(now, recv, left[..k]), left[k..], before, arrived, recv + k)
  {
    assert arrived[..recv + k] == arrived[..recv] + arrived[recv..][..k];
  }

  lemma NothingReceived(before: seq<Byte>, arrived: seq<Byte>)
    ensures Received(before, arrived, before, arrived, 0)
  {
  }

  /** Fills the first bytes of rbuf with the bytes that arrive, in order and without gaps. */
  method ReceiveMessage(nBytes: nat, stream: Stream, rbuf: array<Byte>) returns (p: Progress, recv: nat)
    requires nBytes <= rbuf.Length
    modifies stream, rbuf
    ensures Received(rbuf[..], stream.incoming, old(rbuf[..]), old(stream.incoming), recv)
    ensures stream.sent == old(stream.sent)
    ensures Outcome(old(stream.replies), stream.replies, nBytes, Min(rbuf.Length, |old(stream.incoming)|), recv, p)
  {
    hide Received, Filled, Consumed, Outcome, Moved;
    ghost var before, arrived := rbuf[..], stream.incoming;
    ghost var rs, limit := stream.replies, Min(rbuf.Length, |stream.incoming|);
    ghost var used: nat := 0;
    NothingReceived(before, arrived);
    NothingConsumed(rs, nBytes, limit);
    recv := 0;
    while recv < nBytes && stream.replies != []
      invariant recv <= limit && Received(rbuf[..], stream.incoming, before, arrived, recv)
      invariant stream.sent == old(stream.sent)
      invariant used + |stream.replies| == |rs| && NoneFails(rs[..used])
      invariant Consumed(rs, used, stream.replies, nBytes, limit, recv)
      decreases |stream.replies|
    {
      ghost var now, waiting, left := rbuf[..], stream.incoming, stream.replies;
      MovedStep(rs, used);
      OneConsumed(rs, used, left, nBytes, limit, recv, if left[0].Moves? then Min(left[0].n, limit - recv) else 0);
      LeftOver(now, waiting, before, arrived, recv);
      var r := stream.Read(rbuf, recv);
      used := used + 1;
      match r
      case Ok(n) => {
        ReadStep(now, waiting, before, arrived, recv, n);
        recv := recv + n;
      }
      case Busy =>
      case Error => {
        Concluded(rs, stream.replies, nBytes, limit, recv, Panicked);
        return Panicked, recv;
      }
    }
    p := if recv < nBytes then Waiting else Complete;
    Concluded(rs, stream.replies, nBytes, limit, recv, p);
  }

  lemma LeftOver(now: seq<Byte>, left: seq<Byte>, before: seq<Byte>, arrived: seq<Byte>, recv: nat)
    requires Received(now, left, before, arrived, recv)
    ensures |left| == |arrived| - recv
  {
  }
}
