// The send side of a peer session (CNetPeerSession): queued packets are written in pieces of at most 4096 bytes, one after
// the other. Sending and the completion of a write are the two atomic steps; the bytes of completed writes, in order, are
// what the peer receives.

module WriteQueue {
  import opened Bits
  import opened PacketBuffer

  const BUF_SIZE := 4096

  datatype Packet = Packet(buffer: Bytes, readPos: nat) {
    ghost predicate Valid() {
      readPos <= |buffer|
    }

    // What has not been read for writing yet.
    function Rest(): Bytes
      requires readPos <= |buffer|
    {
      buffer[readPos..]
    }
  }

  ghost predicate AllValid(q: seq<Packet>) {
    forall i :: 0 <= i < |q| ==> q[i].Valid()
  }

  // Everything in the queue that has not been read yet.
  function Unread(q: seq<Packet>): Bytes
    requires forall i :: 0 <= i < |q| ==> q[i].readPos <= |q[i].buffer|
  {
    if q == [] then [] else q[0].Rest() + Unread(q[1..])
  }

  lemma {:induction false} UnreadMore(q: seq<Packet>, p: Packet)
    requires AllValid(q) && p.Valid()
    ensures Unread(q + [p]) == Unread(q) + p.Rest()
  {
    if q == [] {
      assert (q + [p])[1..] == [];
    } else {
      UnreadMore(q[1..], p);
      assert (q + [p])[1..] == q[1..] + [p];
    }
  }

  lemma Split(a: Bytes, n: nat, rest: Bytes)
    requires n <= |a|
    ensures a[..n] + (a[n..] + rest) == a + rest
  {
    assert a == a[..n] + a[n..];
  }

  // Reading n bytes of the first packet.
  lemma PieceRead(q: seq<Packet>, n: nat)
    requires AllValid(q) && q != [] && n <= |q[0].Rest()|
    ensures
      var q' := [q[0].(readPos := q[0].readPos + n)] + q[1..];
      AllValid(q') && q[0].Rest()[..n] + Unread(q') == Unread(q) && q[0].buffer[q[0].readPos..q[0].readPos + n] == q[0].Rest()[..n]
  {
    var p := q[0].(readPos := q[0].readPos + n);
    var q' := [p] + q[1..];
    assert q'[1..] == q[1..];
    assert p.Rest() == q[0].Rest()[n..];
    Split(q[0].Rest(), n, Unread(q[1..]));
  }

  class Session {
    // The packets to be written, the first of them partly, and the piece of it that is being written.
    var queue: seq<Packet>
    var writing: bool
    var current: Bytes
    var closed: bool

    // Everything that has been given to the session to send, and all that has been written completely.
    ghost var accepted: Bytes
    ghost var completed: Bytes

    // Nothing is lost, repeated or reordered; a piece that is being written, or with which writing has failed, is not empty.
    ghost predicate Valid()
      reads this
    {
      && AllValid(queue)
      && (writing ==> queue != [])
      && (queue != [] ==> 0 < |current| <= BUF_SIZE)
      && (forall i :: 0 < i < |queue| ==> queue[i].readPos == 0 && queue[i].buffer != [])
      && accepted == completed + (if queue != [] then current else []) + Unread(queue)
    }

    // A write has failed: its packet stays in the queue, and nothing is being written.
    predicate Failed()
      reads this
    {
      queue != [] && !writing
    }

    constructor ()
      ensures Valid() && queue == [] && !writing && !closed && accepted == [] && completed == []
    {
      queue, writing, current, closed := [], false, [], false;
      accepted, completed := [], [];
    }

    // Put a packet into the queue, and start writing if the queue was empty (sendData), whether or not the connection is open.
    // After a failed write nothing starts writing again.
    method SendData(data: Bytes)
      requires Valid()
      modifies this
      ensures Valid() && closed == old(closed) && completed == old(completed) && accepted == old(accepted) + data
      ensures old(queue) != [] ==> writing == old(writing) && current == old(current)
      ensures old(queue) != [] && data != [] ==> queue == old(queue) + [Packet(data, 0)]
      ensures old(queue) == [] && data != [] ==> writing && current == data[..Min(4096, |data|)] && queue == [Packet(data, |current|)]
      ensures data == [] ==> queue == old(queue) && writing == old(writing)
      ensures old(queue) == [] ==> !Failed()
      ensures old(Failed()) ==> Failed()
    {
      if |data| <= 0 {
        return;
      }
      var inProgress := queue != [];
      var packet := Packet(data, 0);
      UnreadMore(queue, packet);
      queue := queue + [packet];
      accepted := accepted + data;
      if !inProgress {
        StartWrite();
      }
    }

    // Begin to write the next piece of the first packet (_start_write).
    method StartWrite()
      requires AllValid(queue) && !writing
      requires forall i :: 0 < i < |queue| ==> queue[i].readPos == 0 && queue[i].buffer != []
      requires queue != [] ==> queue[0].Rest() != []
      requires accepted == completed + Unread(queue)
      modifies `queue, `writing, `current
      ensures Valid() && !Failed()
      ensures old(queue) == [] ==> queue == [] && !writing
      ensures old(queue) != [] ==>
        var front := old(queue)[0];
        && writing && current == front.Rest()[..Min(4096, |front.Rest()|)]
        && queue == [front.(readPos := front.readPos + |current|)] + old(queue)[1..]
    {
      hide Unread;
      if queue == [] {
        return;
      }
      var p := queue[0];
      var n := Min(BUF_SIZE, |p.buffer| - p.readPos);
      current := p.buffer[p.readPos..p.readPos + n];
      PieceRead(queue, n);
      queue := [p.(readPos := p.readPos + n)] + queue[1..];
      writing := true;
    }

    // The outstanding write has completed (_handle_write): a packet that is used up leaves the queue, and the next piece is
    // written.
    method HandleWrite()
      requires Valid() && writing
      modifies this
      ensures Valid() && closed == old(closed) && accepted == old(accepted) && completed == old(completed) + old(current) && !Failed()
      ensures old(queue)[0].Rest() != [] ==> writing && |current| == Min(4096, |old(queue)[0].Rest()|) && |queue| == |old(queue)|
      ensures old(queue)[0].Rest() == [] ==>
        && |queue| == |old(queue)| - 1 && writing == (queue != [])
        && (writing ==> |current| == Min(4096, |old(queue)[1].buffer|))
      ensures |Unread(queue)| + (if writing then |current| else 0) < |old(Unread(queue))| + |old(current)|
    {
      writing := false;
      completed := completed + current;
      if |queue[0].buffer| - queue[0].readPos <= 0 {
        assert Unread(queue) == Unread(queue[1..]);
        queue := queue[1..];
      }
      if queue != [] {
        StartWrite();
      }
    }

    // The write has failed: the connection is closed, and the queue stays as it is.
    method HandleError()
      requires Valid() && writing
      modifies `closed, `writing
      ensures Valid() && closed && Failed()
    {
      closed, writing := true, false;
    }
  }

  // Unless a write has failed: once nothing is outstanding, everything has been written; and it takes finitely many completions
  // until then.
  method Drain(s: Session)
    requires s.Valid() && !s.Failed()
    modifies s
    ensures s.Valid() && !s.writing && s.completed == s.accepted == old(s.accepted)
  {
    while s.writing
      invariant s.Valid() && !s.Failed() && s.accepted == old(s.accepted)
      decreases |Unread(s.queue)| + (if s.writing then |s.current| else 0)
    {
      s.HandleWrite();
    }
  }
}
