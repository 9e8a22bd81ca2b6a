// The sliding window of the decoder: a ring that is both the queue of bytes still to be delivered and the dictionary
// that copies read from. Its specification is the unbounded sequence of all bytes produced so far. The output area of
// z_stream belongs to it: room is what is left of it, delivered everything written to it since the beginning. The ring is
// handed out filled with zeros, so a copy from before the beginning of the output finds zeros.

module RingWindow {
  import opened Bits

  // Every slot holds the last byte produced for it, or zero; slot 0 was last written when lap bytes had been produced.
  ghost predicate Remembers(slots: seq<byte>, produced: seq<byte>, lap: nat, write: nat) {
    && write <= |slots| && lap + write == |produced| && (lap == 0 || lap >= |slots|)
    && (forall j :: 0 <= j < write ==> slots[j] == produced[lap + j])
    && (forall j :: write <= j < |slots| ==> slots[j] == if lap == 0 then 0 else produced[lap - |slots| + j])
  }

  lemma RemembersWrapped(slots: seq<byte>, produced: seq<byte>, lap: nat)
    requires Remembers(slots, produced, lap, |slots|)
    ensures Remembers(slots, produced, lap + |slots|, 0)
  {
  }

  class Window {
    const buf: array<byte>
    var read: nat
    var write: nat
    var room: nat
    var delivered: seq<byte>

    // All bytes produced so far, and how many of them were produced before the byte now in slot 0.
    ghost var produced: seq<byte>
    ghost var lap: nat

    ghost predicate Valid()
      reads this, buf
    {
      && read < buf.Length && write <= buf.Length
      && Remembers(buf[..], produced, lap, write)
      && lap + write == |produced| && (lap == 0 || lap >= buf.Length) && (read > write ==> lap > 0)
      && |delivered| == (if read <= write then lap + read else lap - buf.Length + read)
      && delivered <= produced
    }

    // The bytes in the window that are still to be delivered.
    ghost function Pending(): seq<byte>
      requires Valid()
      reads this, buf
    {
      produced[|delivered|..]
    }

    constructor (size: nat)
      requires size > 0
      ensures Valid() && fresh(buf) && buf.Length == size
      ensures produced == [] && delivered == [] && room == 0
    {
      buf := new byte[size](_ => 0);
      read, write, room, delivered := 0, 0, 0, [];
      produced, lap := [], 0;
    }

    // Bytes that can be written before the end of the window or the read position (WAVAIL).
    function Avail(): nat
      requires write <= buf.Length
      reads this
    {
      if write < read then read - write - 1 else buf.Length - write
    }

    // The slot of the byte dist positions back.
    function Source(dist: nat): int
      requires dist >= 1
      reads this
    {
      if write < dist then buf.Length - (dist - write) else write - dist
    }

    // Moving the pointers from the end of the window to its start leaves every source where it was.
    twostate predicate SameSources()
      reads this
    {
      forall d :: 1 <= d <= buf.Length ==> Source(d) == old(Source(d))
    }

    // Continue writing at the start of the window, unless unread bytes are there (WRAP).
    method Wrap()
      requires Valid()
      modifies this`write, this`lap
      ensures Valid() && SameSources()
      ensures write == old(write) || (old(write) == buf.Length && write == 0)
      ensures Avail() > 0 <==> !(write == buf.Length && read == 0) && write + 1 != read
    {
      hide Remembers;
      if write == buf.Length && read != 0 {
        RemembersWrapped(buf[..], produced, lap);
        write := 0;
        lap := lap + buf.Length;
      }
    }

    // The bytes from the read position on, as far as they lie in one run, are the first pending ones.
    lemma Run(n: nat)
      requires Valid() && read + n <= (if read <= write then write else buf.Length)
      ensures |delivered| + n <= |produced|
      ensures buf[read..read + n] == Pending()[..n]
      ensures delivered + buf[read..read + n] == produced[..|delivered| + n]
    {
      assert buf[read..read + n] == produced[|delivered|..|delivered| + n];
      assert delivered == produced[..|delivered|];
    }

    // Deliver n bytes from the read position on; at the end of the window both pointers go back to its start.
    method Deliver(n: nat) returns (atEnd: bool)
      requires Valid() && read + n <= (if read <= write then write else buf.Length) && n <= room
      modifies this
      ensures Valid() && produced == old(produced) && SameSources()
      ensures delivered == old(delivered) + old(Pending())[..n] && room == old(room) - n
      ensures atEnd <==> old(read) + n == buf.Length
      ensures atEnd ==> read == 0 && write < buf.Length
      ensures !atEnd ==> read == old(read) + n && write == old(write)
    {
      hide Remembers;
      Run(n);
      delivered := delivered + buf[read..read + n];
      room := room - n;
      read := read + n;
      atEnd := read == buf.Length;
      if atEnd {
        read := 0;
        if write == buf.Length {
          RemembersWrapped(buf[..], produced, lap);
          write := 0;
          lap := lap + buf.Length;
        }
      }
    }

    // Copy as much as possible from the window to the output area: as far as the end of the window, then more from its
    // beginning (inflate_flush).
    method Flush()
      requires Valid()
      modifies this
      ensures Valid() && produced == old(produced) && SameSources()
      ensures |delivered| == |old(delivered)| + Min(old(room), |old(Pending())|)
      ensures old(delivered) <= delivered && room == old(room) - (|delivered| - |old(delivered)|)
      ensures room > 0 ==> read == write
      ensures read == write ==> write < buf.Length
    {
      var n := Min((if read <= write then write else buf.Length) - read, room);
      var atEnd := Deliver(n);
      if atEnd {
        n := Min(write - read, room);
        atEnd := Deliver(n);
      }
    }

    // Make sure there is space for a byte, delivering pending bytes if necessary (NEEDOUT); not ok when there is none.
    method NeedOut() returns (ok: bool, flushed: bool)
      requires Valid()
      modifies this
      ensures Valid() && produced == old(produced) && SameSources()
      ensures old(delivered) <= delivered && room == old(room) - (|delivered| - |old(delivered)|)
      ensures if ok then Avail() > 0 else room == 0 && |produced| >= |delivered| + buf.Length - 1
      ensures flushed <==> room < old(room)
    {
      ok, flushed := true, false;
      if Avail() == 0 {
        Wrap();
        if Avail() == 0 {
          var before := room;
          Flush();
          flushed := room < before;
          Wrap();
          ok := Avail() > 0;
        }
      }
    }

    // Nothing is pending exactly when the pointers meet.
    lemma Empty()
      requires Valid()
      ensures read == write <==> delivered == produced
    {
    }

    // Append bytes (OUTBYTE, and the block copy of stored data).
    method Put(bytes: seq<byte>)
      requires Valid() && |bytes| <= Avail()
      modifies this`write, this`produced, buf
      ensures Valid() && produced == old(produced) + bytes
      ensures write == old(write) + |bytes|
      ensures Avail() == old(Avail()) - |bytes|
    {
      forall j | 0 <= j < |bytes| {
        buf[write + j] := bytes[j];
      }
      write := write + |bytes|;
      produced := produced + bytes;
    }

    // The window still holds every byte a copy may refer to.
    lemma SourceByte(dist: nat)
      requires Valid() && 1 <= dist <= buf.Length
      ensures 0 <= Source(dist) < buf.Length
      ensures buf[Source(dist)] == Back(produced, dist)
    {
    }
  }
}
