/** The retransmission queue of one connection. */
module ReliableSender {
  import opened Basics

  type Bytes = seq<bv8>

  /** A message with the identity of its cancel handler: its place in arrival order. */
  datatype Message = Message(id: nat, data: Bytes)

  ghost predicate InArrivalOrder(ms: seq<Message>) {
    forall i, j :: 0 <= i < j < |ms| ==> ms[i].id < ms[j].id
  }

  function WithoutCancelled(ms: seq<Message>, cancelled: set<nat>): seq<Message> {
    if ms == [] then []
    else if ms[0].id in cancelled then WithoutCancelled(ms[1..], cancelled)
    else [ms[0]] + WithoutCancelled(ms[1..], cancelled)
  }

  lemma {:induction false} WithoutCancelledKeeps(ms: seq<Message>, cancelled: set<nat>)
    requires InArrivalOrder(ms)
    ensures InArrivalOrder(WithoutCancelled(ms, cancelled))
    ensures forall m :: m in WithoutCancelled(ms, cancelled) <==> m in ms && m.id !in cancelled
  {
    if ms != [] {
      var rest := WithoutCancelled(ms[1..], cancelled);
      WithoutCancelledKeeps(ms[1..], cancelled);
      hide WithoutCancelled;
      forall m | m in rest
        ensures m.id > ms[0].id
      {
        assert m in ms[1..];
      }
      Prepend(ms[0], rest);
      assert ms == [ms[0]] + ms[1..];
    }
  }

  lemma Prepend(m: Message, ms: seq<Message>)
    requires InArrivalOrder(ms) && forall x :: x in ms ==> x.id > m.id
    ensures InArrivalOrder([m] + ms)
  {
  }

  /** What a queue must be: the accepted messages in arrival order, missing only
      acknowledged or cancelled ones. */
  ghost predicate Accounts(accepted: seq<Message>, queue: seq<Message>, acked: set<nat>, cancelled: set<nat>) {
    && (forall i :: 0 <= i < |accepted| ==> accepted[i].id == i)
    && InArrivalOrder(queue)
    && (forall m :: m in queue ==> m.id < |accepted| && accepted[m.id] == m && m.id !in acked)
    && (forall id :: 0 <= id < |accepted| ==> accepted[id] in queue || id in acked || id in cancelled)
  }

  /** Dropping cancelled messages from a queue is always allowed. */
  lemma DropKeeps(accepted: seq<Message>, queue: seq<Message>, queue': seq<Message>, acked: set<nat>,
      cancelled: set<nat>)
    requires Accounts(accepted, queue, acked, cancelled) && InArrivalOrder(queue')
    requires forall m :: m in queue' ==> m in queue
    requires forall m :: m in queue && m.id !in cancelled ==> m in queue'
    ensures Accounts(accepted, queue', acked, cancelled)
  {
  }

  lemma AcceptKeeps(accepted: seq<Message>, queue: seq<Message>, acked: set<nat>, cancelled: set<nat>, data: Bytes)
    requires Accounts(accepted, queue, acked, cancelled) && forall id :: id in acked ==> id < |accepted|
    ensures var m := Message(|accepted|, data);
      Accounts(accepted + [m], queue + [m], acked, cancelled)
  {
    var m := Message(|accepted|, data);
    assert forall x :: x in queue + [m] ==> x in queue || x == m;
    assert forall x :: x in queue ==> x in queue + [m];
    assert m in queue + [m];
  }

  lemma PurgeKeeps(accepted: seq<Message>, queue: seq<Message>, acked: set<nat>, cancelled: set<nat>, data: Bytes)
    requires Accounts(accepted, queue, acked, cancelled) && forall id :: id in acked ==> id < |accepted|
    ensures var m := Message(|accepted|, data);
      Accounts(accepted + [m], WithoutCancelled(queue + [m], cancelled), acked, cancelled)
  {
    var m := Message(|accepted|, data);
    AcceptKeeps(accepted, queue, acked, cancelled, data);
    WithoutCancelledKeeps(queue + [m], cancelled);
    hide WithoutCancelled;
    DropKeeps(accepted + [m], queue + [m], WithoutCancelled(queue + [m], cancelled), acked, cancelled);
  }

  lemma AckKeeps(accepted: seq<Message>, queue: seq<Message>, acked: set<nat>, cancelled: set<nat>)
    requires Accounts(accepted, queue, acked, cancelled) && queue != []
    ensures Accounts(accepted, queue[1..], acked + {queue[0].id}, cancelled)
  {
    assert queue == [queue[0]] + queue[1..];
    forall m | m in queue[1..]
      ensures m in queue && m.id != queue[0].id
    {
    }
    forall id | 0 <= id < |accepted| && accepted[id] in queue
      ensures accepted[id] in queue[1..] || id == queue[0].id
    {
      assert accepted[id] == queue[0] || accepted[id] in queue[1..];
    }
  }

  class Connection {
    /** Messages to be (re)transmitted. */
    var buffer: seq<Message>
    /** Messages written on the current connection and not acknowledged yet. */
    var pendingReplies: seq<Message>
    var connected: bool
    /** Each accepted message brings a new handler. */
    var nextId: nat

    /** Handlers whose owner has gone. */
    var cancelled: set<nat>

    /** All messages ever received, and the replies passed on to their handlers. */
    ghost var accepted: seq<Message>
    ghost var acked: set<nat>
    ghost var resolved: seq<(nat, Bytes)>
    /** What was written, and how many acks were read, on the current connection. */
    ghost var written: seq<Message>
    ghost var acks: nat

    ghost function Queue(): seq<Message>
      reads this
    {
      pendingReplies + buffer
    }

    ghost predicate Valid()
      reads this
    {
      && Accounts(accepted, Queue(), acked, cancelled)
      && nextId == |accepted| && (forall id :: id in acked ==> id < |accepted|)
      && acks <= |written|
      && (if connected then pendingReplies == written[acks..] else pendingReplies == [])
    }

    constructor ()
      ensures Valid() && !connected && accepted == [] && Queue() == []
    {
      buffer, pendingReplies, connected, cancelled, nextId := [], [], false, {}, 0;
      accepted, acked, resolved, written, acks := [], {}, [], [], 0;
    }

    /** The caller drops a cancel handler. */
    method Cancel(id: nat)
      requires Valid()
      modifies this`cancelled
      ensures Valid() && cancelled == old(cancelled) + {id} && Queue() == old(Queue())
    {
      cancelled := cancelled + {id};
    }

    /** A message arrives while there is no connection: the buffer is purged too. */
    method ReceiveWhileWaiting(data: Bytes)
      requires Valid() && !connected
      modifies this`buffer, this`accepted, this`nextId
      ensures Valid() && accepted == old(accepted) + [Message(|old(accepted)|, data)]
      ensures Queue() == WithoutCancelled(old(Queue()) + [Message(|old(accepted)|, data)], cancelled)
    {
      hide Accounts, WithoutCancelled;
      var m := Message(nextId, data);
      assert Queue() == buffer;
      PurgeKeeps(accepted, Queue(), acked, cancelled, data);
      nextId := nextId + 1;
      accepted := accepted + [m];
      buffer := buffer + [m];
      buffer := WithoutCancelled(buffer, cancelled);
      assert Queue() == buffer;
    }

    method Connect()
      requires Valid() && !connected
      modifies this`connected, this`written, this`acks
      ensures Valid() && connected && Queue() == old(Queue()) && written == [] && acks == 0
    {
      connected, written, acks := true, [], 0;
    }

    /** A message arrives on an open connection. */
    method ReceiveConnected(data: Bytes)
      requires Valid() && connected
      modifies this`buffer, this`accepted, this`nextId
      ensures Valid() && accepted == old(accepted) + [Message(|old(accepted)|, data)]
      ensures Queue() == old(Queue()) + [Message(|old(accepted)|, data)]
    {
      var m := Message(nextId, data);
      nextId := nextId + 1;
      AcceptKeeps(accepted, Queue(), acked, cancelled, data);
      assert pendingReplies + (buffer + [m]) == Queue() + [m];
      accepted := accepted + [m];
      buffer := buffer + [m];
    }

    /** Write out the buffer, skipping cancelled messages. After `writable` writes the next
        one fails: its message goes back to the front and the connection is given up. */
    method Flush(writable: nat) returns (ghost done: nat)
      requires Valid() && connected
      modifies this`buffer, this`pendingReplies, this`connected, this`written
      ensures Valid() && old(written) <= written && acks == old(acks) && done <= |old(buffer)|
      ensures connected <==> |WithoutCancelled(old(buffer), cancelled)| <= writable
      ensures connected ==> done == |old(buffer)|
      ensures !connected ==>
        done < |old(buffer)| && old(buffer)[done].id !in cancelled
        && |WithoutCancelled(old(buffer)[..done], cancelled)| == writable
      ensures Queue() == old(pendingReplies) + WithoutCancelled(old(buffer)[..done], cancelled) + old(buffer)[done..]
      ensures written == old(written) + WithoutCancelled(old(buffer)[..done], cancelled)
      ensures connected ==>
        buffer == [] && pendingReplies == old(pendingReplies) + WithoutCancelled(old(buffer), cancelled)
    {
      hide Accounts, WithoutCancelled;
      ghost var buffer0, pending0 := buffer, pendingReplies;
      done := 0;
      var left: nat := writable;
      assert WithoutCancelled(buffer0[..0], cancelled) == [] by {
        NothingCancelled(cancelled);
      }
      while buffer != []
        invariant connected && acks <= |written| && pendingReplies == written[acks..] && old(written) <= written
        invariant 0 <= done <= |buffer0| && buffer == buffer0[done..]
        invariant pendingReplies == pending0 + WithoutCancelled(buffer0[..done], cancelled)
        invariant written == old(written) + WithoutCancelled(buffer0[..done], cancelled)
        invariant left + |WithoutCancelled(buffer0[..done], cancelled)| == writable
        invariant Accounts(accepted, Queue(), acked, cancelled)
        decreases |buffer|
      {
        var message := buffer[0];
        assert Queue() == pendingReplies + [message] + buffer[1..];
        TakeOneMore(buffer0, done, cancelled);
        if message.id in cancelled {
          SkipKeeps(accepted, pendingReplies, message, buffer[1..], acked, cancelled);
          buffer := buffer[1..];
        } else {
          if left == 0 {
            MoreWithout(buffer0, done + 1, cancelled);
            assert |WithoutCancelled(buffer0, cancelled)| > writable;
            Disconnect();
            return;
          }
          buffer := buffer[1..];
          pendingReplies := pendingReplies + [message];
          written := written + [message];
          left := left - 1;
        }
        done := done + 1;
      }
      assert buffer0[..done] == buffer0;
    }

    /** A connection on which no write and no read fails: whatever was accepted is
        acknowledged or was cancelled, in the order in which it arrived. */
    method DeliverAll(replies: seq<Bytes>)
      requires Valid() && !connected && |replies| >= |Queue()|
      modifies this
      ensures Valid() && accepted == old(accepted) && cancelled == old(cancelled)
      ensures connected && Queue() == [] && written == WithoutCancelled(old(Queue()), cancelled)
      ensures |written| <= |replies| && resolved == old(resolved) + Resolutions(written, replies)
      ensures forall m :: m in accepted ==> m.id in acked || m.id in cancelled
    {
      hide Accounts, WithoutCancelled, Resolutions;
      assert Queue() == buffer;
      Connect();
      ghost var queue := buffer;
      ShorterWithout(queue, cancelled);
      ghost var flushed := Flush(|buffer|);
      ghost var resolved0 := resolved;
      NoResolutions(written, replies);
      var i := 0;
      while pendingReplies != []
        invariant Valid() && connected && 0 <= i == acks <= |written| <= |replies| && buffer == []
        invariant accepted == old(accepted) && cancelled == old(cancelled)
        invariant written == WithoutCancelled(queue, cancelled)
        invariant resolved == resolved0 + Resolutions(written[..i], replies)
        decreases |written| - i
      {
        MoreResolutions(written, replies, i);
        ghost var queued := Queue();
        Response(Some(replies[i]));
        assert Queue() == queued[1..];
        i := i + 1;
      }
      assert written[..i] == written && Queue() == [];
      EmptyQueue(accepted, acked, cancelled);
    }

    /** A reply, or a broken read. The k-th reply of a connection goes to the handler of
        the k-th message written on it. */
    method Response(reply: Option<Bytes>)
      requires Valid() && connected
      modifies this`buffer, this`pendingReplies, this`connected, this`acked, this`resolved, this`acks
      ensures Valid()
      ensures old(pendingReplies) != [] && reply.Some? ==>
        && connected && resolved == old(resolved) + [(written[old(acks)].id, reply.value)]
        && acks == old(acks) + 1 && Queue() == old(Queue())[1..]
        && pendingReplies == old(pendingReplies)[1..] && buffer == old(buffer)
        && acked == old(acked) + {written[old(acks)].id}
      ensures old(pendingReplies) == [] || reply.None? ==>
        !connected && resolved == old(resolved) && Queue() == old(Queue())
    {
      if pendingReplies == [] {
        Disconnect();
        return;
      }
      var message := pendingReplies[0];
      match reply {
        case Some(bytes) =>
          AckKeeps(accepted, Queue(), acked, cancelled);
          assert Queue()[1..] == pendingReplies[1..] + buffer;
          pendingReplies := pendingReplies[1..];
          resolved := resolved + [(message.id, bytes)];
          acked := acked + {message.id};
          acks := acks + 1;
        case None =>
          Disconnect();
      }
    }

    /** Put the unacknowledged messages back, last first, restoring arrival order. */
    method Disconnect()
      modifies this`buffer, this`pendingReplies, this`connected
      ensures !connected && pendingReplies == [] && buffer == old(Queue()) && Queue() == old(Queue())
    {
      while pendingReplies != []
        invariant Queue() == old(Queue())
        decreases |pendingReplies|
      {
        var last := pendingReplies[|pendingReplies| - 1];
        pendingReplies := pendingReplies[..|pendingReplies| - 1];
        buffer := [last] + buffer;
      }
      connected := false;
    }
  }

  lemma {:induction false} WithoutCancelledConcat(s: seq<Message>, t: seq<Message>, cancelled: set<nat>)
    ensures WithoutCancelled(s + t, cancelled) == WithoutCancelled(s, cancelled) + WithoutCancelled(t, cancelled)
  {
    if s == [] {
      assert s + t == t;
    } else {
      assert (s + t)[1..] == s[1..] + t;
      WithoutCancelledConcat(s[1..], t, cancelled);
    }
  }

  /** The k-th reply goes to the handler of the k-th message. */
  function Resolutions(written: seq<Message>, replies: seq<Bytes>): seq<(nat, Bytes)>
    requires |written| <= |replies|
  {
    seq(|written|, i requires 0 <= i < |written| => (written[i].id, replies[i]))
  }

  lemma NoResolutions(written: seq<Message>, replies: seq<Bytes>)
    requires |written| <= |replies|
    ensures Resolutions(written[..0], replies) == []
  {
  }

  lemma MoreResolutions(written: seq<Message>, replies: seq<Bytes>, i: nat)
    requires i < |written| <= |replies|
    ensures Resolutions(written[..i + 1], replies) == Resolutions(written[..i], replies) + [(written[i].id, replies[i])]
  {
  }

  lemma MoreWithout(ms: seq<Message>, n: nat, cancelled: set<nat>)
    requires n <= |ms|
    ensures |WithoutCancelled(ms[..n], cancelled)| <= |WithoutCancelled(ms, cancelled)|
  {
    assert ms == ms[..n] + ms[n..];
    WithoutCancelledConcat(ms[..n], ms[n..], cancelled);
  }

  lemma {:induction false} ShorterWithout(ms: seq<Message>, cancelled: set<nat>)
    ensures |WithoutCancelled(ms, cancelled)| <= |ms|
  {
    if ms != [] {
      ShorterWithout(ms[1..], cancelled);
    }
  }

  lemma EmptyQueue(accepted: seq<Message>, acked: set<nat>, cancelled: set<nat>)
    requires Accounts(accepted, [], acked, cancelled)
    ensures forall m :: m in accepted ==> m.id in acked || m.id in cancelled
  {
  }

  lemma NothingCancelled(cancelled: set<nat>)
    ensures WithoutCancelled([], cancelled) == []
  {
  }

  lemma TakeOneMore(ms: seq<Message>, n: nat, cancelled: set<nat>)
    requires n < |ms|
    ensures WithoutCancelled(ms[..n + 1], cancelled) ==
      WithoutCancelled(ms[..n], cancelled) + if ms[n].id in cancelled then [] else [ms[n]]
  {
    assert ms[..n + 1] == ms[..n] + [ms[n]];
    WithoutCancelledConcat(ms[..n], [ms[n]], cancelled);
  }

  lemma SkipKeeps(accepted: seq<Message>, front: seq<Message>, message: Message, back: seq<Message>,
      acked: set<nat>, cancelled: set<nat>)
    requires Accounts(accepted, front + [message] + back, acked, cancelled) && message.id in cancelled
    ensures Accounts(accepted, front + back, acked, cancelled)
  {
    var queue, queue' := front + [message] + back, front + back;
    forall i, j | 0 <= i < j < |queue'|
      ensures queue'[i].id < queue'[j].id
    {
      var i', j' := if i < |front| then i else i + 1, if j < |front| then j else j + 1;
      assert queue'[i] == queue[i'] && queue'[j] == queue[j'];
    }
    DropKeeps(accepted, queue, queue', acked, cancelled);
  }
}
