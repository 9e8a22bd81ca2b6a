// Packets (makePacket) and the parser that cuts them out of a byte stream arriving in portions (CPacketSlicer). The parser
// keeps its place inside a header between calls.
//
// The functions on Slicer say what one pass of the parser does to its state; the methods of CPacketSlicer are proved
// against them. That the parser delivers the packets that were sent is proved about the functions.

module PacketSlicer {
  import opened PacketBuffer

  const NET_MAGIC_CODE := 0xbebe
  const CODE_MAX := 31
  const MAX_PACKET_BODY_SIZE := 200000000

  datatype Packet = Packet(code: nat, fromId: Bytes, toId: Bytes, body: Bytes)

  predicate WellFormed(p: Packet) {
    p.code < CODE_MAX && |p.fromId| <= MAX_STRING8 && |p.toId| <= MAX_STRING8 && |p.body| <= MAX_PACKET_BODY_SIZE
  }

  function Header(p: Packet): Bytes {
    Int16(NET_MAGIC_CODE) + Int16(p.code) + String8(p.fromId) + String8(p.toId) + Int32(|p.body|)
  }

  function Encode(p: Packet): (r: Bytes)
    ensures |r| == 10 + |p.fromId| + |p.toId| + |p.body|
  {
    Header(p) + p.body
  }

  // The bytes of a packet one by one.
  lemma WireBytes(p: Packet)
    requires |p.fromId| <= 255 && |p.toId| <= 255
    ensures
      var n := |p.body|;
      Encode(p) == [0xbe, 0xbe, p.code % 256, p.code / 256 % 256, |p.fromId|] + p.fromId + [|p.toId|] + p.toId
                   + [n % 256, n / 256 % 256, n / 65536 % 256, n / 16777216 % 256] + p.body
  {
    assert Int16(NET_MAGIC_CODE) + Int16(p.code) + String8(p.fromId) == [0xbe, 0xbe, p.code % 256, p.code / 256 % 256, |p.fromId|] + p.fromId;
  }

  // Insert bytes at a position, as the writing helpers do.
  function Insert(buf: Bytes, pos: nat, bytes: Bytes): Bytes
    requires pos <= |buf|
  {
    buf[..pos] + bytes + buf[pos..]
  }

  // The exception for ids that are too long is ok == false.
  method MakePacket(code: nat, body: Bytes, fromId: Bytes, toId: Bytes) returns (ok: bool, buf: Bytes)
    ensures ok <==> |fromId| <= 255 && |toId| <= 255
    ensures ok ==> buf == Encode(Packet(code, fromId, toId, body))
    ensures
      var n := |body|;
      ok ==> buf == [0xbe, 0xbe, code % 256, code / 256 % 256, |fromId|] + fromId + [|toId|] + toId
                    + [n % 256, n / 256 % 256, n / 65536 % 256, n / 16777216 % 256] + body
  {
    hide Int16, Int32, String8;
    buf := [];
    ok := |fromId| <= MAX_STRING8 && |toId| <= MAX_STRING8;
    if !ok {
      return;
    }
    var pos := 0;
    buf := Insert(buf, pos, Int16(NET_MAGIC_CODE));
    pos := pos + 2;
    buf := Insert(buf, pos, Int16(code));
    pos := pos + 2;
    assert buf == Int16(NET_MAGIC_CODE) + Int16(code);
    buf := Insert(buf, pos, String8(fromId));
    pos := pos + |String8(fromId)|;
    assert buf == Int16(NET_MAGIC_CODE) + Int16(code) + String8(fromId);
    buf := Insert(buf, pos, String8(toId));
    pos := pos + |String8(toId)|;
    assert buf == Int16(NET_MAGIC_CODE) + Int16(code) + String8(fromId) + String8(toId);
    buf := Insert(buf, pos, Int32(|body|));
    assert buf == Header(Packet(code, fromId, toId, body));
    buf := buf + body;
    WireBytes(Packet(code, fromId, toId, body));
  }

  // ----- the state of the parser

  datatype State = MAGIC | CODE | FROMID | TOID | BLEN | BODY

  datatype Slicer = Slicer(state: State, buffer: Bytes, readPos: nat, headerLen: nat, fromLen: nat, toLen: nat,
                           fromId: Bytes, toId: Bytes, code: nat, bodyLen: nat, parsed: seq<Packet>)
  {
    // The length of the header read so far is the read position, whatever arrives.
    predicate Valid() {
      && readPos <= |buffer| && headerLen == readPos
      && fromLen <= MAX_STRING8 && toLen <= MAX_STRING8
      && (if state.MAGIC? then readPos == 0 else readPos >= 2)
    }

    function Remaining(): nat
      requires readPos <= |buffer|
    {
      |buffer| - readPos
    }

    // n more bytes of the header have been read.
    function Read(n: nat): Slicer {
      this.(readPos := readPos + n, headerLen := headerLen + n)
    }

    // Start afresh; the buffer and what was parsed in this call are dropped, the ids are not.
    function Init(): Slicer {
      this.(headerLen := 0, state := MAGIC, buffer := [], readPos := 0, parsed := [])
    }
  }

  function MagicStage(s: Slicer): (r: (Slicer, bool))
    requires s.Valid() && s.state.MAGIC?
    ensures r.0.Valid() && (r.1 ==> r.0.state.CODE? && r.0.buffer == s.buffer && r.0.parsed == s.parsed)
  {
    var s1 := s.(fromLen := 0, toLen := 0, headerLen := 0);
    if s.Remaining() < 2 then (s1, false)
    else if Value16(s.buffer[s.readPos..s.readPos + 2]) != NET_MAGIC_CODE then (s1.Read(2).Init(), false)
    else (s1.Read(2).(state := CODE), true)
  }

  function CodeStage(s: Slicer): (r: (Slicer, bool))
    requires s.Valid() && s.state.CODE?
    ensures r.0.Valid() && (r.1 ==> r.0.state.FROMID? && r.0.buffer == s.buffer && r.0.parsed == s.parsed)
  {
    if s.Remaining() < 2 then (s, false)
    else
      var c := Value16(s.buffer[s.readPos..s.readPos + 2]);
      var s1 := s.Read(2).(code := c);
      if c >= CODE_MAX then (s1.Init(), false) else (s1.(state := FROMID), true)
  }

  // The length byte, unless it has been read before, and then the id; an empty id leaves the old one in place.
  function FromStage(s: Slicer): (r: (Slicer, bool))
    requires s.Valid() && s.state.FROMID?
    ensures r.0.Valid() && (r.1 ==> r.0.state.TOID? && r.0.buffer == s.buffer && r.0.parsed == s.parsed)
  {
    if s.fromLen == 0 && s.Remaining() < 1 then (s, false)
    else
      var s1 := if s.fromLen == 0 then s.Read(1).(fromLen := s.buffer[s.readPos]) else s;
      if s1.fromLen == 0 then (s1.(state := TOID), true)
      else if s1.Remaining() < s1.fromLen then (s1, false)
      else (s1.Read(s1.fromLen).(fromId := s.buffer[s1.readPos..s1.readPos + s1.fromLen], state := TOID), true)
  }

  function ToStage(s: Slicer): (r: (Slicer, bool))
    requires s.Valid() && s.state.TOID?
    ensures r.0.Valid() && (r.1 ==> r.0.state.BLEN? && r.0.buffer == s.buffer && r.0.parsed == s.parsed)
  {
    if s.toLen == 0 && s.Remaining() < 1 then (s, false)
    else
      var s1 := if s.toLen == 0 then s.Read(1).(toLen := s.buffer[s.readPos]) else s;
      if s1.toLen == 0 then (s1.(state := BLEN), true)
      else if s1.Remaining() < s1.toLen then (s1, false)
      else (s1.Read(s1.toLen).(toId := s.buffer[s1.readPos..s1.readPos + s1.toLen], state := BLEN), true)
  }

  function LenStage(s: Slicer): (r: (Slicer, bool))
    requires s.Valid() && s.state.BLEN?
    ensures r.0.Valid() && (r.1 ==> r.0.state.BODY? && r.0.buffer == s.buffer && r.0.parsed == s.parsed)
  {
    if s.Remaining() < 4 then (s, false)
    else
      var n := Value32(s.buffer[s.readPos..s.readPos + 4]);
      var s1 := s.Read(4).(bodyLen := n);
      if n > MAX_PACKET_BODY_SIZE then (s1.Init(), false) else (s1.(state := BODY), true)
  }

  function BodyStage(s: Slicer): (r: (Slicer, bool))
    requires s.Valid() && s.state.BODY?
    ensures r.0.Valid() && (r.1 ==> r.0.state.MAGIC? && |r.0.buffer| < |s.buffer|)
  {
    if s.Remaining() < s.bodyLen then (s, false)
    else
      var p := Packet(s.code, s.fromId, s.toId, s.buffer[s.headerLen..s.headerLen + s.bodyLen]);
      (s.(parsed := s.parsed + [p], buffer := s.buffer[s.headerLen + s.bodyLen..], readPos := 0, headerLen := 0, state := MAGIC), true)
  }

  // One pass: from the state reached through the rest of a packet, as far as the bytes suffice (doParse).
  function Pass(s: Slicer): (r: (Slicer, bool))
    requires s.Valid()
    ensures r.0.Valid() && (r.1 ==> r.0.state.MAGIC? && |r.0.buffer| < |s.buffer|)
    decreases Stages(s.state)
  {
    if s.state.BODY? then BodyStage(s)
    else
      var r := match s.state
               case MAGIC => MagicStage(s)
               case CODE => CodeStage(s)
               case FROMID => FromStage(s)
               case TOID => ToStage(s)
               case BLEN => LenStage(s);
      if r.1 then Pass(r.0) else r
  }

  function Stages(s: State): nat {
    match s
    case MAGIC => 5
    case CODE => 4
    case FROMID => 3
    case TOID => 2
    case BLEN => 1
    case BODY => 0
  }

  // Passes until one does not complete a packet (parse).
  function Passes(s: Slicer): (r: Slicer)
    requires s.Valid()
    ensures r.Valid()
    decreases |s.buffer|
  {
    var r := Pass(s);
    if r.1 then Passes(r.0) else r.0
  }

  // ----- what is delivered

  function Carry(last: Bytes, id: Bytes): Bytes {
    if id == [] then last else id
  }

  function WithIds(p: Packet, fromId: Bytes, toId: Bytes): Packet {
    p.(fromId := fromId, toId := toId)
  }

  // The packets as they are delivered: an empty id is reported as the last one that was not empty.
  function Delivered(ps: seq<Packet>, fromId: Bytes, toId: Bytes): (r: seq<Packet>)
    ensures |r| == |ps|
  {
    if ps == [] then []
    else
      var f, t := Carry(fromId, ps[0].fromId), Carry(toId, ps[0].toId);
      [WithIds(ps[0], f, t)] + Delivered(ps[1..], f, t)
  }

  // So the packets are delivered as they were sent exactly when an id, once it has been given, is always given.
  ghost predicate IdsStay(ps: seq<Packet>, fromId: Bytes, toId: Bytes) {
    && (forall j :: 0 <= j < |ps| && (fromId != [] || exists i :: 0 <= i < j && ps[i].fromId != []) ==> ps[j].fromId != [])
    && (forall j :: 0 <= j < |ps| && (toId != [] || exists i :: 0 <= i < j && ps[i].toId != []) ==> ps[j].toId != [])
  }

  lemma IdsStayStep(ps: seq<Packet>, f: Bytes, t: Bytes)
    requires ps != []
    ensures IdsStay(ps, f, t) <==>
      && (f != [] ==> ps[0].fromId != []) && (t != [] ==> ps[0].toId != [])
      && IdsStay(ps[1..], Carry(f, ps[0].fromId), Carry(t, ps[0].toId))
  {
    var rest, f1, t1 := ps[1..], Carry(f, ps[0].fromId), Carry(t, ps[0].toId);
    if IdsStay(ps, f, t) {
      forall j | 0 <= j < |rest| && (f1 != [] || exists i :: 0 <= i < j && rest[i].fromId != [])
        ensures rest[j].fromId != []
      {
        assert rest[j] == ps[j + 1];
        if i :| 0 <= i < j && rest[i].fromId != [] {
          assert ps[i + 1].fromId != [];
        }
      }
      forall j | 0 <= j < |rest| && (t1 != [] || exists i :: 0 <= i < j && rest[i].toId != [])
        ensures rest[j].toId != []
      {
        assert rest[j] == ps[j + 1];
        if i :| 0 <= i < j && rest[i].toId != [] {
          assert ps[i + 1].toId != [];
        }
      }
    }
    if IdsStay(rest, f1, t1) && (f != [] ==> ps[0].fromId != []) && (t != [] ==> ps[0].toId != []) {
      forall j | 0 <= j < |ps| && (f != [] || exists i :: 0 <= i < j && ps[i].fromId != [])
        ensures ps[j].fromId != []
      {
        if j > 0 {
          assert ps[j] == rest[j - 1];
          if i :| 0 < i < j && ps[i].fromId != [] {
            assert rest[i - 1].fromId != [];
          }
        }
      }
      forall j | 0 <= j < |ps| && (t != [] || exists i :: 0 <= i < j && ps[i].toId != [])
        ensures ps[j].toId != []
      {
        if j > 0 {
          assert ps[j] == rest[j - 1];
          if i :| 0 < i < j && ps[i].toId != [] {
            assert rest[i - 1].toId != [];
          }
        }
      }
    }
  }

  lemma {:induction false} DeliveredAsSent(ps: seq<Packet>, f: Bytes, t: Bytes)
    ensures Delivered(ps, f, t) == ps <==> IdsStay(ps, f, t)
  {
    hide IdsStay;
    if ps == [] {
      assert IdsStay(ps, f, t) by { NothingStays(f, t); }
    } else {
      IdsStayStep(ps, f, t);
      var f1, t1 := Carry(f, ps[0].fromId), Carry(t, ps[0].toId);
      DeliveredAsSent(ps[1..], f1, t1);
      assert ps == [ps[0]] + ps[1..];
      var r := Delivered(ps, f, t);
      assert r[0] == WithIds(ps[0], f1, t1) && r[1..] == Delivered(ps[1..], f1, t1);
    }
  }

  lemma NothingStays(f: Bytes, t: Bytes)
    ensures IdsStay([], f, t)
  {
  }

  function Stream(ps: seq<Packet>): Bytes {
    if ps == [] then [] else Encode(ps[0]) + Stream(ps[1..])
  }

  ghost predicate AllWellFormed(ps: seq<Packet>) {
    forall i :: 0 <= i < |ps| ==> WellFormed(ps[i])
  }

  // ----- the parser in step with a stream of packets

  // The parser is inside the packet p, having carried the ids f and t over from the packets before it.
  ghost predicate Inside(s: Slicer, p: Packet, f: Bytes, t: Bytes) {
    var m, n := |p.fromId|, |p.toId|;
    match s.state
    case MAGIC => s.fromId == f && s.toId == t
    case CODE => s.readPos == 2 && s.fromLen == 0 && s.toLen == 0 && s.fromId == f && s.toId == t
    case FROMID =>
      && s.code == p.code && s.toLen == 0 && s.fromId == f && s.toId == t
      && (s.fromLen == 0 || s.fromLen == m) && s.readPos == (if s.fromLen == 0 then 4 else 5)
    case TOID =>
      && s.code == p.code && s.fromId == Carry(f, p.fromId) && s.toId == t
      && (s.toLen == 0 || s.toLen == n) && s.readPos == (if s.toLen == 0 then 5 else 6) + m
    case BLEN => s.code == p.code && s.fromId == Carry(f, p.fromId) && s.toId == Carry(t, p.toId) && s.readPos == 6 + m + n
    case BODY =>
      && s.code == p.code && s.fromId == Carry(f, p.fromId) && s.toId == Carry(t, p.toId) && s.readPos == 10 + m + n
      && s.bodyLen == |p.body|
  }

  // Where the parts of a packet are.
  lemma Parts(p: Packet, total: Bytes)
    requires Has(total, 0, Encode(p))
    ensures Has(total, 0, Int16(NET_MAGIC_CODE)) && Has(total, 2, Int16(p.code))
    ensures Has(total, 4, Int8(|p.fromId|)) && Has(total, 5, p.fromId)
    ensures Has(total, 5 + |p.fromId|, Int8(|p.toId|)) && Has(total, 6 + |p.fromId|, p.toId)
    ensures Has(total, 6 + |p.fromId| + |p.toId|, Int32(|p.body|))
    ensures Has(total, 10 + |p.fromId| + |p.toId|, p.body)
  {
    hide Has, Int16, Int32, Int8;
    var a, b, c, d, e := Int16(NET_MAGIC_CODE), Int16(p.code), String8(p.fromId), String8(p.toId), Int32(|p.body|);
    HasBoth(total, 0, a + b + c + d + e, p.body);
    HasBoth(total, 0, a + b + c + d, e);
    HasBoth(total, 0, a + b + c, d);
    HasBoth(total, 0, a + b, c);
    HasBoth(total, 0, a, b);
    assert |Int8(|p.fromId|)| == 1 && |Int8(|p.toId|)| == 1 by { Int8Length(|p.fromId|); Int8Length(|p.toId|); }
    HasBoth(total, 4, Int8(|p.fromId|), p.fromId);
    HasBoth(total, 5 + |p.fromId|, Int8(|p.toId|), p.toId);
  }

  lemma Int8Length(v: nat)
    ensures |Int8(v)| == 1
  {
  }

  // What stands in the whole stands in the part that has arrived, as far as it goes.
  lemma Arrived(b: Bytes, total: Bytes, pos: nat, enc: Bytes)
    requires b <= total && Has(total, pos, enc) && pos + |enc| <= |b|
    ensures Has(b, pos, enc) && b[pos..pos + |enc|] == enc
  {
    assert b[pos..pos + |enc|] == total[pos..pos + |enc|];
  }

  // A pass over a packet of which only a part has arrived keeps the place; over a whole one it delivers the packet.
  ghost predicate Passed(s: Slicer, r: (Slicer, bool), p: Packet, f: Bytes, t: Bytes)
    requires s.Valid() && r.0.Valid()
  {
    if r.1 then
      && |s.buffer| >= |Encode(p)| && r.0.buffer == s.buffer[|Encode(p)|..] && r.0.state.MAGIC?
      && r.0.parsed == s.parsed + [WithIds(p, Carry(f, p.fromId), Carry(t, p.toId))]
      && r.0.fromId == Carry(f, p.fromId) && r.0.toId == Carry(t, p.toId)
    else
      |s.buffer| < |Encode(p)| && r.0.buffer == s.buffer && r.0.parsed == s.parsed && Inside(r.0, p, f, t)
  }

  // Whatever fits into the fields of a header.
  ghost predicate Encodable(p: Packet) {
    p.code < 0x10000 && |p.fromId| <= MAX_STRING8 && |p.toId| <= MAX_STRING8 && |p.body| < 0x1_0000_0000
  }

  ghost predicate Ready(s: Slicer, p: Packet, f: Bytes, t: Bytes, total: Bytes) {
    s.Valid() && Encodable(p) && Inside(s, p, f, t) && s.buffer <= total && Has(total, 0, Encode(p))
  }

  // What every stage before the last does.
  ghost predicate Staged(s: Slicer, r: (Slicer, bool), p: Packet, f: Bytes, t: Bytes) {
    && r.0.Valid() && r.0.buffer == s.buffer && r.0.parsed == s.parsed && Inside(r.0, p, f, t)
    && (!r.1 ==> |s.buffer| < |Encode(p)|)
  }

  lemma MagicStaged(s: Slicer, p: Packet, f: Bytes, t: Bytes, total: Bytes)
    requires Ready(s, p, f, t, total) && s.state.MAGIC?
    ensures Staged(s, MagicStage(s), p, f, t)
  {
    hide Encode, Has, Int16, Value16, Int32, Value32;
    Parts(p, total);
    if s.Remaining() >= 2 {
      Arrived(s.buffer, total, 0, Int16(NET_MAGIC_CODE));
      Int16Read(s.buffer, 0, NET_MAGIC_CODE);
    }
  }

  lemma CodeStaged(s: Slicer, p: Packet, f: Bytes, t: Bytes, total: Bytes)
    requires Ready(s, p, f, t, total) && s.state.CODE?
    ensures p.code < CODE_MAX ==> Staged(s, CodeStage(s), p, f, t)
    ensures p.code >= CODE_MAX && s.Remaining() >= 2 ==> CodeStage(s).0 == CodeStage(s).0.Init() && !CodeStage(s).1
  {
    hide Encode, Has, Int16, Value16, Int32, Value32;
    Parts(p, total);
    if s.Remaining() >= 2 {
      Arrived(s.buffer, total, 2, Int16(p.code));
      Int16Read(s.buffer, 2, p.code);
    }
  }

  lemma LenStaged(s: Slicer, p: Packet, f: Bytes, t: Bytes, total: Bytes)
    requires Ready(s, p, f, t, total) && s.state.BLEN?
    ensures |p.body| <= MAX_PACKET_BODY_SIZE ==> Staged(s, LenStage(s), p, f, t)
    ensures |p.body| > MAX_PACKET_BODY_SIZE && s.Remaining() >= 4 ==> LenStage(s).0 == LenStage(s).0.Init() && !LenStage(s).1
  {
    hide Encode, Has, Int16, Value16, Int32, Value32;
    Parts(p, total);
    if s.Remaining() >= 4 {
      Arrived(s.buffer, total, s.readPos, Int32(|p.body|));
      Int32Read(s.buffer, s.readPos, |p.body|);
    }
  }

  lemma FromStaged(s: Slicer, p: Packet, f: Bytes, t: Bytes, total: Bytes)
    requires Ready(s, p, f, t, total) && s.state.FROMID?
    ensures Staged(s, FromStage(s), p, f, t)
  {
    hide Encode, Int16, Value16, Int32, Value32, Int8, Has, String8;
    Parts(p, total);
    Int8Length(|p.fromId|);
    if s.fromLen == 0 && s.Remaining() >= 1 {
      Arrived(s.buffer, total, 4, Int8(|p.fromId|));
      Int8Read(s.buffer, 4, |p.fromId|);
    }
    if |s.buffer| >= 5 + |p.fromId| {
      Arrived(s.buffer, total, 5, p.fromId);
    }
  }

  lemma ToStaged(s: Slicer, p: Packet, f: Bytes, t: Bytes, total: Bytes)
    requires Ready(s, p, f, t, total) && s.state.TOID?
    ensures Staged(s, ToStage(s), p, f, t)
  {
    hide Encode, Int16, Value16, Int32, Value32, Int8, Has, String8;
    var m := |p.fromId|;
    Parts(p, total);
    Int8Length(|p.toId|);
    if s.toLen == 0 && s.Remaining() >= 1 {
      Arrived(s.buffer, total, 5 + m, Int8(|p.toId|));
      Int8Read(s.buffer, 5 + m, |p.toId|);
    }
    if |s.buffer| >= 6 + m + |p.toId| {
      Arrived(s.buffer, total, 6 + m, p.toId);
    }
  }

  lemma BodyPassed(s: Slicer, p: Packet, f: Bytes, t: Bytes, total: Bytes)
    requires Ready(s, p, f, t, total) && s.state.BODY?
    ensures Passed(s, BodyStage(s), p, f, t)
  {
    hide Int16, Value16, Int32, Value32, Int8;
    Parts(p, total);
    if s.Remaining() >= s.bodyLen {
      Arrived(s.buffer, total, s.readPos, p.body);
    }
  }

  lemma {:induction false} PassPassed(s: Slicer, p: Packet, f: Bytes, t: Bytes, total: Bytes)
    requires Ready(s, p, f, t, total) && WellFormed(p)
    ensures Passed(s, Pass(s), p, f, t)
    decreases Stages(s.state)
  {
    hide Encode, Has, Inside, MagicStage, CodeStage, FromStage, ToStage, LenStage, BodyStage, Carry;
    if s.state.BODY? {
      BodyPassed(s, p, f, t, total);
    } else {
      var r;
      match s.state {
        case MAGIC => r := MagicStage(s); MagicStaged(s, p, f, t, total);
        case CODE => r := CodeStage(s); CodeStaged(s, p, f, t, total);
        case FROMID => r := FromStage(s); FromStaged(s, p, f, t, total);
        case TOID => r := ToStage(s); ToStaged(s, p, f, t, total);
        case BLEN => r := LenStage(s); LenStaged(s, p, f, t, total);
      }
      if r.1 {
        PassPassed(r.0, p, f, t, total);
      }
    }
  }

  // A packet that is too long, or has no code of a message, is dropped with all that has been parsed in this call.
  lemma {:induction false} PassRefused(s: Slicer, p: Packet, f: Bytes, t: Bytes)
    requires Ready(s, p, f, t, s.buffer) && s.state.MAGIC? && s.buffer == Encode(p) && !WellFormed(p)
    ensures !Pass(s).1 && Pass(s).0 == Pass(s).0.Init()
  {
    hide Encode, Has, Inside, MagicStage, CodeStage, FromStage, ToStage, LenStage, BodyStage, Carry;
    MagicStaged(s, p, f, t, s.buffer);
    var a := MagicStage(s).0;
    CodeStaged(a, p, f, t, s.buffer);
    assert a.Remaining() >= 2 by { AfterMagic(s, p, f, t); }
    if p.code < CODE_MAX {
      var b := CodeStage(a).0;
      FromStaged(b, p, f, t, s.buffer);
      var c := FromStage(b).0;
      ToStaged(c, p, f, t, s.buffer);
      var d := ToStage(c).0;
      LenStaged(d, p, f, t, s.buffer);
      assert d.Remaining() >= 4 by { BeforeLength(d, p, f, t); }
      assert Pass(d) == LenStage(d);
      assert Pass(c) == Pass(d);
      assert Pass(b) == Pass(c);
      assert Pass(a) == Pass(b);
    } else {
      assert Pass(a) == CodeStage(a);
    }
  }

  lemma AfterMagic(s: Slicer, p: Packet, f: Bytes, t: Bytes)
    requires Ready(s, p, f, t, s.buffer) && s.state.MAGIC? && s.buffer == Encode(p) && MagicStage(s).1
    ensures MagicStage(s).0.Remaining() >= 2
  {
    hide Value16;
  }

  lemma BeforeLength(s: Slicer, p: Packet, f: Bytes, t: Bytes)
    requires s.Valid() && Inside(s, p, f, t) && s.state.BLEN? && s.buffer == Encode(p)
    ensures s.Remaining() >= 4
  {
  }

  // A call of the parser on exactly the bytes of one packet, written out: it is delivered if its code is below 31 and its body has at most
  // 200000000 bytes.
  lemma {:induction false} ParsedOnce(s: Slicer, code: nat, fromId: Bytes, toId: Bytes, body: Bytes)
    requires s.Valid() && s.state.MAGIC? && code < 65536 && |fromId| <= 255 && |toId| <= 255 && |body| < 0x1_0000_0000
    requires
      var n := |body|;
      s.buffer == [0xbe, 0xbe, code % 256, code / 256 % 256, |fromId|] + fromId + [|toId|] + toId
                  + [n % 256, n / 256 % 256, n / 65536 % 256, n / 16777216 % 256] + body
    ensures
      var r := Passes(s);
      && r.state.MAGIC? && r.buffer == []
      && r.parsed ==
         if code < 31 && |body| <= 200000000
         then s.parsed + [Packet(code, if fromId == [] then s.fromId else fromId, if toId == [] then s.toId else toId, body)] else []
  {
    hide Encode, Passes;
    var p := Packet(code, fromId, toId, body);
    WireBytes(p);
    assert s.buffer == Encode(p);
    EncodedOnce(s, p);
  }

  lemma {:induction false} EncodedOnce(s: Slicer, p: Packet)
    requires s.Valid() && s.state.MAGIC? && Encodable(p) && s.buffer == Encode(p)
    ensures
      var r := Passes(s);
      && r.state.MAGIC? && r.buffer == []
      && r.parsed == if WellFormed(p) then s.parsed + [WithIds(p, Carry(s.fromId, p.fromId), Carry(s.toId, p.toId))] else []
  {
    hide Encode, Has, Pass, WellFormed, Encodable, Carry;
    assert Has(s.buffer, 0, Encode(p)) by { WholeHas(Encode(p)); }
    if WellFormed(p) {
      PassPassed(s, p, s.fromId, s.toId, s.buffer);
      NothingFollows(Pass(s).0);
    } else {
      PassRefused(s, p, s.fromId, s.toId);
    }
  }

  lemma WholeHas(b: Bytes)
    ensures Has(b, 0, b)
  {
  }

  lemma {:induction false} NothingFollows(s: Slicer)
    requires s.Valid() && s.state.MAGIC? && s.buffer == []
    ensures Passes(s).state.MAGIC? && Passes(s).buffer == [] && Passes(s).parsed == s.parsed
  {
  }

  // Whatever does not begin with BE BE is dropped.
  lemma {:induction false} WrongMagic(s: Slicer)
    requires s.Valid() && s.state.MAGIC? && |s.buffer| >= 2 && s.buffer[..2] != [0xbe, 0xbe]
    ensures Passes(s).state.MAGIC? && Passes(s).buffer == [] && Passes(s).parsed == []
  {
    assert s.buffer[0..2] == s.buffer[..2] == [s.buffer[0], s.buffer[1]];
    assert Pass(s) == MagicStage(s);
  }

  // ----- whole streams

  // The parser has what has arrived of the packets ps, the first of which it may be inside of.
  ghost predicate InStep(s: Slicer, ps: seq<Packet>, f: Bytes, t: Bytes) {
    && s.Valid() && AllWellFormed(ps) && s.buffer <= Stream(ps)
    && if ps == [] then s.state.MAGIC? && s.fromId == f && s.toId == t else Inside(s, ps[0], f, t)
  }

  // The last id among those of ps that is not empty, or else id.
  function LastFrom(ps: seq<Packet>, id: Bytes): Bytes {
    if ps == [] then id else LastFrom(ps[1..], Carry(id, ps[0].fromId))
  }

  function LastTo(ps: seq<Packet>, id: Bytes): Bytes {
    if ps == [] then id else LastTo(ps[1..], Carry(id, ps[0].toId))
  }

  lemma StreamHas(ps: seq<Packet>)
    requires ps != []
    ensures Has(Stream(ps), 0, Encode(ps[0]))
  {
  }

  lemma {:induction false} NothingLeft(s: Slicer, f: Bytes, t: Bytes)
    requires InStep(s, [], f, t)
    ensures !Pass(s).1 && Pass(s).0.buffer == [] && Pass(s).0.parsed == s.parsed && InStep(Pass(s).0, [], f, t)
  {
  }

  lemma {:induction false} PassInStep(s: Slicer, ps: seq<Packet>, f: Bytes, t: Bytes)
    requires InStep(s, ps, f, t) && ps != []
    ensures Passed(s, Pass(s), ps[0], f, t)
    ensures
      var r := Pass(s);
      if r.1 then
        && InStep(r.0, ps[1..], Carry(f, ps[0].fromId), Carry(t, ps[0].toId))
        && s.buffer == Encode(ps[0]) + r.0.buffer
      else InStep(r.0, ps, f, t) && s.buffer != Stream(ps)
  {
    hide Encode, Has, Pass, Carry;
    StreamHas(ps);
    PassPassed(s, ps[0], f, t, Stream(ps));
    var r := Pass(s);
    if r.1 {
      assert s.buffer == s.buffer[..|Encode(ps[0])|] + r.0.buffer;
      assert Stream(ps)[..|Encode(ps[0])|] == Encode(ps[0]);
      if ps[1..] != [] {
        AtStart(r.0, ps[1], Carry(f, ps[0].fromId), Carry(t, ps[0].toId));
      }
    }
  }

  lemma AtStart(s: Slicer, p: Packet, f: Bytes, t: Bytes)
    requires s.state.MAGIC? && s.fromId == f && s.toId == t
    ensures Inside(s, p, f, t)
  {
  }

  // The passes of one call deliver the packets that have arrived completely, and keep the parser in step with the others.
  lemma {:induction false} PassesInStep(s: Slicer, ps: seq<Packet>, f: Bytes, t: Bytes) returns (n: nat)
    requires InStep(s, ps, f, t)
    ensures n <= |ps|
    ensures
      var r := Passes(s);
      && r.parsed == s.parsed + Delivered(ps[..n], f, t)
      && InStep(r, ps[n..], LastFrom(ps[..n], f), LastTo(ps[..n], t))
      && s.buffer == Stream(ps[..n]) + r.buffer
      && (n < |ps| ==> r.buffer != Stream(ps[n..]))
    decreases |s.buffer|
  {
    hide Encode, Has, Pass, Carry, InStep, Inside, WellFormed;
    n := 0;
    if ps == [] {
      NothingLeft(s, f, t);
      assert s.buffer == [] by { EmptyBuffer(s, f, t); }
    } else {
      assert s.Valid() by { InStepValid(s, ps, f, t); }
      PassInStep(s, ps, f, t);
      var r := Pass(s);
      if r.1 {
        var f1, t1 := Carry(f, ps[0].fromId), Carry(t, ps[0].toId);
        var m := PassesInStep(r.0, ps[1..], f1, t1);
        n := m + 1;
        assert ps[..n][1..] == ps[1..][..m] && ps[n..] == ps[1..][m..];
      } else {
        assert ps[..0] == [] && ps[0..] == ps;
      }
    }
  }

  lemma EmptyBuffer(s: Slicer, f: Bytes, t: Bytes)
    requires InStep(s, [], f, t)
    ensures s.buffer == [] && s.Valid()
  {
  }

  lemma InStepValid(s: Slicer, ps: seq<Packet>, f: Bytes, t: Bytes)
    requires InStep(s, ps, f, t)
    ensures s.Valid()
  {
  }

  // ----- the parser itself

  class CPacketSlicer {
    const buffer: CPacketBuffer
    var state: State
    var headerLen: nat
    var fromLen: nat
    var toLen: nat
    var fromId: Bytes
    var toId: Bytes
    var code: nat
    var bodyLen: nat
    var parsedItems: seq<Packet>

    ghost function Value(): Slicer
      reads this, buffer
    {
      Slicer(state, buffer.buffer, buffer.readPos, headerLen, fromLen, toLen, fromId, toId, code, bodyLen, parsedItems)
    }

    ghost predicate Valid()
      reads this, buffer
    {
      Value().Valid()
    }

    constructor ()
      ensures Valid() && fresh(buffer) && InStep(Value(), [], [], []) && parsedItems == []
      ensures Value() == Slicer(MAGIC, [], 0, 0, 0, 0, [], [], 0, 0, [])
    {
      buffer := new CPacketBuffer();
      state, headerLen, fromLen, toLen, fromId, toId, code, bodyLen, parsedItems := MAGIC, 0, 0, 0, [], [], 0, 0, [];
    }

    method Init()
      requires Valid()
      modifies this, buffer
      ensures Valid() && Value() == old(Value()).Init()
    {
      headerLen := 0;
      state := MAGIC;
      buffer.Clear();
      parsedItems := [];
    }

    method AddBuffer(bytes: Bytes)
      requires Valid()
      modifies buffer
      ensures Valid() && Value() == old(Value()).(buffer := old(Value()).buffer + bytes)
    {
      buffer.Write(bytes);
    }

    method ReadMagic() returns (go: bool)
      requires Valid() && state.MAGIC?
      modifies this, buffer
      ensures Valid() && (Value(), go) == MagicStage(old(Value()))
    {
      fromLen, toLen, headerLen := 0, 0, 0;
      if buffer.RemainingSize() < 2 {
        return false;
      }
      var ok, magic := buffer.TakeInt16();
      headerLen := headerLen + 2;
      if magic != NET_MAGIC_CODE {
        headerLen := 0;
        state := MAGIC;
        buffer.Clear();
        parsedItems := [];
        return false;
      }
      state := CODE;
      go := true;
    }

    method ReadCode() returns (go: bool)
      requires Valid() && state.CODE?
      modifies this, buffer
      ensures Valid() && (Value(), go) == CodeStage(old(Value()))
    {
      if buffer.RemainingSize() < 2 {
        return false;
      }
      var ok;
      ok, code := buffer.TakeInt16();
      headerLen := headerLen + 2;
      if code >= CODE_MAX {
        Init();
        return false;
      }
      state := FROMID;
      go := true;
    }

    // The length of an id, kept in case the id itself has not arrived yet, and the id.
    method ReadString8(len0: nat, str0: Bytes) returns (go: bool, len: nat, str: Bytes)
      requires Valid() && len0 <= MAX_STRING8
      modifies this`headerLen, buffer`readPos
      ensures buffer.Valid() && headerLen == buffer.readPos >= old(buffer.readPos) && len <= MAX_STRING8
      ensures
        var s := old(Value());
        if len0 == 0 && s.Remaining() < 1 then !go && len == len0 && str == str0 && buffer.readPos == s.readPos
        else
          && len == (if len0 == 0 then s.buffer[s.readPos] else len0)
          && var p := if len0 == 0 then s.readPos + 1 else s.readPos;
          && if len == 0 then go && str == str0 && buffer.readPos == p
             else if |s.buffer| - p < len then !go && str == str0 && buffer.readPos == p
             else go && buffer.readPos == p + len && str == s.buffer[p..p + len]
    {
      len, str := len0, str0;
      if len <= 0 {
        if buffer.RemainingSize() < 1 {
          return false, len, str;
        }
        var ok;
        ok, len := buffer.TakeInt8();
        headerLen := headerLen + 1;
      }
      if len > 0 {
        if buffer.RemainingSize() < len {
          return false, len, str;
        }
        str := buffer.Read(len);
        headerLen := headerLen + len;
      }
      go := true;
    }

    method ReadFromId() returns (go: bool)
      requires Valid() && state.FROMID?
      modifies this, buffer
      ensures Valid() && (Value(), go) == FromStage(old(Value()))
    {
      go, fromLen, fromId := ReadString8(fromLen, fromId);
      if go {
        state := TOID;
      }
    }

    method ReadToId() returns (go: bool)
      requires Valid() && state.TOID?
      modifies this, buffer
      ensures Valid() && (Value(), go) == ToStage(old(Value()))
    {
      go, toLen, toId := ReadString8(toLen, toId);
      if go {
        state := BLEN;
      }
    }

    method ReadBodyLen() returns (go: bool)
      requires Valid() && state.BLEN?
      modifies this, buffer
      ensures Valid() && (Value(), go) == LenStage(old(Value()))
    {
      if buffer.RemainingSize() < 4 {
        return false;
      }
      var ok;
      ok, bodyLen := buffer.TakeInt32();
      headerLen := headerLen + 4;
      if bodyLen > MAX_PACKET_BODY_SIZE {
        Init();
        return false;
      }
      state := BODY;
      go := true;
    }

    method ReadBody() returns (go: bool)
      requires Valid() && state.BODY?
      modifies this, buffer
      ensures Valid() && (Value(), go) == BodyStage(old(Value()))
    {
      if buffer.RemainingSize() < bodyLen {
        return false;
      }
      var data := Packet(code, fromId, toId, buffer.buffer[headerLen..headerLen + bodyLen]);
      parsedItems := parsedItems + [data];
      var ok := buffer.Erase(0, headerLen + bodyLen);
      assert buffer.buffer == old(buffer.buffer)[headerLen + bodyLen..];
      ok := buffer.SetReadPos(0);
      headerLen := 0;
      state := MAGIC;
      go := true;
    }

    // No exception is raised on the way, whatever has arrived: every read is preceded by a look at what remains.
    method DoParse() returns (more: bool)
      requires Valid()
      modifies this, buffer
      ensures Valid() && (Value(), more) == Pass(old(Value()))
    {
      hide MagicStage, CodeStage, FromStage, ToStage, LenStage, BodyStage;
      more := DoHeader();
      if more {
        more := ReadBody();
      }
    }

    // The header, from the state reached on.
    method DoHeader() returns (more: bool)
      requires Valid()
      modifies this, buffer
      ensures Valid() && (if more then state.BODY? && Pass(Value()) == old(Pass(Value())) else (Value(), false) == old(Pass(Value())))
    {
      hide MagicStage, CodeStage, FromStage, ToStage, LenStage, BodyStage;
      more := true;
      if state.MAGIC? {
        more := ReadMagic();
        if !more {
          return;
        }
      }
      if state.CODE? {
        more := ReadCode();
        if !more {
          return;
        }
      }
      more := DoIds();
      if !more {
        return;
      }
      if state.BLEN? {
        more := ReadBodyLen();
      }
    }

    method DoIds() returns (more: bool)
      requires Valid()
      modifies this, buffer
      ensures Valid() && (if more then !state.FROMID? && !state.TOID? && Pass(Value()) == old(Pass(Value())) else (Value(), false) == old(Pass(Value())))
      ensures old(state.MAGIC? || state.CODE? || state.BLEN? || state.BODY?) ==> more && state == old(state)
      ensures more && old(state.FROMID? || state.TOID?) ==> state.BLEN?
    {
      hide MagicStage, CodeStage, FromStage, ToStage, LenStage, BodyStage;
      more := true;
      if state.FROMID? {
        more := ReadFromId();
        if !more {
          return;
        }
      }
      if state.TOID? {
        more := ReadToId();
      }
    }

    method Parse() returns (some: bool)
      requires Valid()
      modifies this, buffer
      ensures Valid() && Value() == Passes(old(Value()).(parsed := [])) && some == (parsedItems != [])
    {
      hide Pass;
      parsedItems := [];
      var more := true;
      while more
        invariant Valid()
        invariant (if more then Passes(Value()) else Value()) == Passes(old(Value()).(parsed := []))
        decreases more, |buffer.buffer|
      {
        more := DoParse();
      }
      some := |parsedItems| > 0;
    }
  }

  // ----- a stream in portions

  lemma Associative(a: Bytes, b: Bytes, c: Bytes)
    ensures (a + b) + c == a + (b + c)
  {
  }

  lemma {:induction false} StreamSplit(a: seq<Packet>, b: seq<Packet>)
    ensures Stream(a + b) == Stream(a) + Stream(b)
  {
    hide Encode;
    if a == [] {
      assert a + b == b;
    } else {
      StreamSplit(a[1..], b);
      assert (a + b)[1..] == a[1..] + b && (a + b)[0] == a[0];
      Associative(Encode(a[0]), Stream(a[1..]), Stream(b));
    }
  }

  lemma {:induction false} DeliveredSplit(a: seq<Packet>, b: seq<Packet>, f: Bytes, t: Bytes)
    ensures Delivered(a + b, f, t) == Delivered(a, f, t) + Delivered(b, LastFrom(a, f), LastTo(a, t))
    ensures LastFrom(a + b, f) == LastFrom(b, LastFrom(a, f)) && LastTo(a + b, t) == LastTo(b, LastTo(a, t))
  {
    hide Carry, WithIds;
    if a == [] {
      assert a + b == b;
    } else {
      DeliveredSplit(a[1..], b, Carry(f, a[0].fromId), Carry(t, a[0].toId));
      assert (a + b)[1..] == a[1..] + b;
    }
  }

  lemma {:induction false} Beginning(s: Slicer, ps: seq<Packet>)
    requires InStep(s, [], [], []) && AllWellFormed(ps)
    ensures InStep(s, ps, [], []) && s.buffer == []
    ensures ps != [] ==> s.buffer != Stream(ps)
  {
  }

  lemma {:induction false} MoreArrived(s: Slicer, chunk: Bytes, ps: seq<Packet>, f: Bytes, t: Bytes)
    requires InStep(s, ps, f, t) && s.buffer + chunk <= Stream(ps)
    ensures InStep(s.(buffer := s.buffer + chunk, parsed := []), ps, f, t)
  {
  }

  // The state after n packets have been delivered.
  ghost predicate After(s: Slicer, ps: seq<Packet>, n: nat) {
    && n <= |ps| && InStep(s, ps[n..], LastFrom(ps[..n], []), LastTo(ps[..n], []))
    && (n < |ps| ==> s.buffer != Stream(ps[n..]))
  }

  // One call advances over the packets that have become complete.
  lemma Advance(s: Slicer, chunk: Bytes, ps: seq<Packet>, n: nat) returns (m: nat)
    requires s.Valid() && After(s, ps, n) && Stream(ps[..n]) + s.buffer + chunk <= Stream(ps)
    ensures n <= m <= |ps|
    ensures
      var r := Passes(s.(buffer := s.buffer + chunk, parsed := []));
      && After(r, ps, m) && Delivered(ps[..n], [], []) + r.parsed == Delivered(ps[..m], [], [])
      && Stream(ps[..n]) + s.buffer + chunk == Stream(ps[..m]) + r.buffer
  {
    hide Passes, InStep, Delivered, LastFrom, LastTo, Stream;
    var a, b := ps[..n], ps[n..];
    assert ps == a + b;
    StreamSplit(a, b);
    assert s.buffer + chunk <= Stream(b) by {
      assert Stream(a) + s.buffer + chunk == Stream(a) + (s.buffer + chunk);
      Cancel(Stream(a), s.buffer + chunk, Stream(b));
    }
    var f, t := LastFrom(a, []), LastTo(a, []);
    MoreArrived(s, chunk, b, f, t);
    var s1 := s.(buffer := s.buffer + chunk, parsed := []);
    var k := PassesInStep(s1, b, f, t);
    m := n + k;
    assert ps[..m] == a + b[..k] && ps[m..] == b[k..];
    DeliveredSplit(a, b[..k], [], []);
    StreamSplit(a, b[..k]);
  }

  lemma Cancel(a: Bytes, b: Bytes, c: Bytes)
    requires a + b <= a + c
    ensures b <= c
  {
    assert b == (a + b)[|a|..] && c == (a + c)[|a|..];
  }

  function Concat(chunks: seq<Bytes>): Bytes {
    if chunks == [] then [] else Concat(chunks[..|chunks| - 1]) + chunks[|chunks| - 1]
  }

  lemma {:induction false} ConcatPrefix(chunks: seq<Bytes>, i: nat)
    requires i <= |chunks|
    ensures Concat(chunks[..i]) <= Concat(chunks)
  {
    if i == |chunks| {
      assert chunks[..i] == chunks;
    } else {
      ConcatPrefix(chunks[..|chunks| - 1], i);
      assert chunks[..|chunks| - 1][..i] == chunks[..i];
    }
  }

  // What is known after i portions of the stream of ps.
  ghost predicate Progress(s: Slicer, all: seq<Packet>, chunks: seq<Bytes>, i: nat, ps: seq<Packet>, n: nat) {
    && i <= |chunks| && s.Valid() && After(s, ps, n)
    && all == Delivered(ps[..n], [], []) && Concat(chunks[..i]) == Stream(ps[..n]) + s.buffer
  }

  lemma NextPortion(s: Slicer, all: seq<Packet>, chunks: seq<Bytes>, i: nat, ps: seq<Packet>, n: nat) returns (m: nat)
    requires Progress(s, all, chunks, i, ps, n) && i < |chunks| && Concat(chunks) == Stream(ps)
    ensures
      var r := Passes(s.(buffer := s.buffer + chunks[i], parsed := []));
      Progress(r, all + r.parsed, chunks, i + 1, ps, m)
  {
    hide Passes, After, Delivered, Stream;
    assert chunks[..i + 1][..i] == chunks[..i];
    ConcatPrefix(chunks, i + 1);
    m := Advance(s, chunks[i], ps, n);
  }

  lemma {:induction false} Finished(s: Slicer, all: seq<Packet>, chunks: seq<Bytes>, ps: seq<Packet>, n: nat)
    requires Progress(s, all, chunks, |chunks|, ps, n) && Concat(chunks) == Stream(ps)
    ensures all == Delivered(ps, [], [])
  {
    hide InStep, Delivered;
    assert chunks[..|chunks|] == chunks && ps == ps[..n] + ps[n..];
    StreamSplit(ps[..n], ps[n..]);
    assert s.buffer == (Stream(ps[..n]) + s.buffer)[|Stream(ps[..n])|..];
    assert Stream(ps[n..]) == (Stream(ps[..n]) + Stream(ps[n..]))[|Stream(ps[..n])|..];
    assert ps[..n] == ps;
  }

  lemma Started(s: Slicer, chunks: seq<Bytes>, ps: seq<Packet>)
    requires InStep(s, [], [], []) && AllWellFormed(ps)
    ensures Progress(s, [], chunks, 0, ps, 0)
  {
    assert ps[..0] == [] && ps[0..] == ps && chunks[..0] == [];
    Beginning(s, ps);
  }

  // However a stream of packets is cut into portions, the packets parsed in all calls together are the packets sent, with
  // empty ids carried over.
  method Receive(chunks: seq<Bytes>, ghost ps: seq<Packet>) returns (all: seq<Packet>)
    ensures AllWellFormed(ps) && Concat(chunks) == Stream(ps) ==> all == Delivered(ps, [], [])
  {
    hide Passes, InStep, Delivered, AllWellFormed, Progress, Stream;
    var slicer := new CPacketSlicer();
    all := [];
    ghost var n := 0;
    ghost var sound := AllWellFormed(ps) && Concat(chunks) == Stream(ps);
    if sound {
      Started(slicer.Value(), chunks, ps);
    }
    var i := 0;
    while i < |chunks|
      invariant 0 <= i <= |chunks| && slicer.Valid() && fresh(slicer) && fresh(slicer.buffer)
      invariant sound ==> Progress(slicer.Value(), all, chunks, i, ps, n)
    {
      if sound {
        n := NextPortion(slicer.Value(), all, chunks, i, ps, n);
      }
      slicer.AddBuffer(chunks[i]);
      var some := slicer.Parse();
      all := all + slicer.parsedItems;
      i := i + 1;
    }
    if sound {
      Finished(slicer.Value(), all, chunks, ps, n);
    }
  }
}
