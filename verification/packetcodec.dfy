// What the packets carry: item data, update tasks, lines and the list of former users, as they are written into a buffer
// and read back. Text is limited to 255 bytes, counts are cut to 16 bits; doubles are eight bytes taken as they are.

module PacketCodec {
  import opened Bits
  import opened PacketBuffer
  import opened PacketSlicer

  type Double = d: Bytes | |d| == 8 witness [0, 0, 0, 0, 0, 0, 0, 0]

  type Int = x: int | -0x8000_0000 <= x < 0x8000_0000

  // An int passed as boost::uint32_t, and back.
  function Word(x: Int): (r: nat)
    ensures r < 0x1_0000_0000
  {
    if x < 0 then x + 0x1_0000_0000 else x
  }

  function FromWord(w: nat): Int
    requires w < 0x1_0000_0000
  {
    if w < 0x8000_0000 then w else w - 0x1_0000_0000
  }

  function Flag8(b: bool): Bytes {
    Int8(if b then 1 else 0)
  }

  function ReadWord(buf: Bytes, pos: nat): Read<Int> {
    match ReadInt32(buf, pos)
    case Failed => Failed
    case Got(w, p) => Got(FromWord(w % 0x1_0000_0000), p)
  }

  function ReadFlag(buf: Bytes, pos: nat): Read<bool> {
    match ReadInt8(buf, pos)
    case Failed => Failed
    case Got(f, p) => Got(f == 1, p)
  }

  function ReadDouble(buf: Bytes, pos: nat): Read<Double> {
    if pos + 8 <= |buf| then Got(buf[pos..pos + 8], pos + 8) else Failed
  }

  lemma WordRead(buf: Bytes, pos: nat, x: Int)
    requires Has(buf, pos, Int32(Word(x)))
    ensures ReadWord(buf, pos) == Got(x, pos + 4)
  {
    hide Int32, ReadInt32;
    Int32Read(buf, pos, Word(x));
  }

  lemma FlagRead(buf: Bytes, pos: nat, b: bool)
    requires Has(buf, pos, Flag8(b))
    ensures ReadFlag(buf, pos) == Got(b, pos + 1)
  {
    hide Int8, ReadInt8;
    Int8Read(buf, pos, if b then 1 else 0);
  }

  lemma DoubleRead(buf: Bytes, pos: nat, d: Double)
    requires Has(buf, pos, d)
    ensures ReadDouble(buf, pos) == Got(d, pos + 8)
  {
  }

  // ----- the data of an item

  datatype PaintData = PaintData(owner: Bytes, itemId: Int, posSet: bool, posX: Double, posY: Double, scale: Double)

  function Basic(d: PaintData): Bytes {
    String8(d.owner) + Int32(Word(d.itemId)) + Flag8(d.posSet) + d.posX + d.posY + d.scale
  }

  function ReadBasic(buf: Bytes, pos: nat): Read<PaintData> {
    match ReadString8(buf, pos)
    case Failed => Failed
    case Got(owner, p0) =>
      match ReadWord(buf, p0)
      case Failed => Failed
      case Got(id, p1) =>
        match ReadFlag(buf, p1)
        case Failed => Failed
        case Got(f, p2) =>
          match ReadDouble(buf, p2)
          case Failed => Failed
          case Got(x, p3) =>
            match ReadDouble(buf, p3)
            case Failed => Failed
            case Got(y, p4) =>
              match ReadDouble(buf, p4)
              case Failed => Failed
              case Got(s, p5) => Got(PaintData(owner, id, f, x, y, s), p5)
  }

  lemma BasicRead(buf: Bytes, pos: nat, d: PaintData)
    requires Has(buf, pos, Basic(d)) && |d.owner| <= MAX_STRING8
    ensures ReadBasic(buf, pos) == Got(d, pos + |Basic(d)|)
  {
    hide Has, String8, Int32, Flag8, ReadString8, ReadWord, ReadFlag, ReadDouble;
    var a, b, c := String8(d.owner), Int32(Word(d.itemId)), Flag8(d.posSet);
    assert |a| == 1 + |d.owner| && |c| == 1 by { Lengths8(d.owner, d.posSet); }
    HasBoth(buf, pos, a + b + c + d.posX + d.posY, d.scale);
    HasBoth(buf, pos, a + b + c + d.posX, d.posY);
    HasBoth(buf, pos, a + b + c, d.posX);
    HasBoth(buf, pos, a + b, c);
    HasBoth(buf, pos, a, b);
    String8Read(buf, pos, d.owner);
    WordRead(buf, pos + |a|, d.itemId);
    FlagRead(buf, pos + |a| + 4, d.posSet);
    DoubleRead(buf, pos + |a| + 5, d.posX);
    DoubleRead(buf, pos + |a| + 13, d.posY);
    DoubleRead(buf, pos + |a| + 21, d.scale);
  }

  // Any bytes of the right number are read as a record: all numbers with the lowest byte first, the item number with a sign, and a flag
  // that is set only by the byte 1.
  lemma RecordRead(o: Bytes, w0: byte, w1: byte, w2: byte, w3: byte, f: byte, x: Double, y: Double, s: Double, rest: Bytes)
    requires |o| <= 255
    ensures
      var id := w0 + 256 * w1 + 65536 * w2 + 16777216 * w3 - if w3 < 128 then 0 else 4294967296;
      ReadBasic([|o|] + o + [w0, w1, w2, w3] + [f] + x + y + s + rest, 0) == Got(PaintData(o, id, f == 1, x, y, s), 30 + |o|)
  {
    hide Has, ReadDouble, Value32;
    var n := |o|;
    assert Value32([w0, w1, w2, w3]) == w0 + 256 * w1 + 65536 * w2 + 16777216 * w3 by { FourBytes(w0, w1, w2, w3); }
    var buf := [n] + o + [w0, w1, w2, w3] + [f] + x + y + s + rest;
    assert buf[1..1 + n] == o && buf[1 + n..5 + n] == [w0, w1, w2, w3] && buf[5 + n] == f;
    assert ReadDouble(buf, 6 + n) == Got(x, 14 + n) by { Eight(buf, 6 + n, x); }
    assert ReadDouble(buf, 14 + n) == Got(y, 22 + n) by { Eight(buf, 14 + n, y); }
    assert ReadDouble(buf, 22 + n) == Got(s, 30 + n) by { Eight(buf, 22 + n, s); }
  }

  lemma FourBytes(w0: byte, w1: byte, w2: byte, w3: byte)
    ensures Value32([w0, w1, w2, w3]) == w0 + 256 * w1 + 65536 * w2 + 16777216 * w3
  {
  }

  lemma Eight(buf: Bytes, pos: nat, d: Double)
    requires pos + 8 <= |buf| && buf[pos..pos + 8] == d
    ensures ReadDouble(buf, pos) == Got(d, pos + 8)
  {
  }

  // A record is read unless it has been cut off.
  lemma RecordCut(buf: Bytes, pos: nat)
    ensures ReadBasic(buf, pos).Got? <==> pos < |buf| && pos + 30 + buf[pos] <= |buf|
  {
    hide Value32;
  }

  lemma Lengths8(s: Bytes, b: bool)
    ensures |String8(s)| == 1 + |s| && |Flag8(b)| == 1
  {
  }

  lemma BasicBytes(d: PaintData)
    ensures
      var w := if d.itemId < 0 then d.itemId + 4294967296 else d.itemId;
      |d.owner| <= MAX_STRING8 ==>
        Basic(d) == [|d.owner|] + d.owner + [w % 256, w / 256 % 256, w / 65536 % 256, w / 16777216] + [if d.posSet then 1 else 0]
                    + d.posX + d.posY + d.scale
  {
  }

  method SerializeBasicData(d: PaintData) returns (ok: bool, buf: Bytes, pos: nat)
    ensures ok <==> |d.owner| <= MAX_STRING8
    ensures ok ==> buf == Basic(d) && pos == |buf|
    ensures
      var w := if d.itemId < 0 then d.itemId + 4294967296 else d.itemId;
      ok ==> buf == [|d.owner|] + d.owner + [w % 256, w / 256 % 256, w / 65536 % 256, w / 16777216] + [if d.posSet then 1 else 0]
                    + d.posX + d.posY + d.scale
  {
    hide String8, Int32, Flag8;
    BasicBytes(d);
    Lengths8(d.owner, d.posSet);
    buf, pos := [], 0;
    ok := |d.owner| <= MAX_STRING8;
    if !ok {
      return;
    }
    buf, pos := Insert(buf, pos, String8(d.owner)), pos + 1 + |d.owner|;
    assert buf == String8(d.owner);
    buf, pos := Insert(buf, pos, Int32(Word(d.itemId))), pos + 4;
    assert buf == String8(d.owner) + Int32(Word(d.itemId));
    buf, pos := Insert(buf, pos, Flag8(d.posSet)), pos + 1;
    assert buf == String8(d.owner) + Int32(Word(d.itemId)) + Flag8(d.posSet);
    buf, pos := Insert(buf, pos, d.posX), pos + 8;
    assert buf == String8(d.owner) + Int32(Word(d.itemId)) + Flag8(d.posSet) + d.posX;
    buf, pos := Insert(buf, pos, d.posY), pos + 8;
    assert buf == String8(d.owner) + Int32(Word(d.itemId)) + Flag8(d.posSet) + d.posX + d.posY;
    buf, pos := Insert(buf, pos, d.scale), pos + 8;
  }

  // When something is missing, what has been read stays read, and the position is left where it was.
  method DeserializeBasicData(buf: Bytes, d0: PaintData, pos0: nat) returns (ok: bool, d: PaintData, pos: nat)
    ensures ok <==> ReadBasic(buf, pos0).Got?
    ensures if ok then ReadBasic(buf, pos0) == Got(d, pos) else pos == pos0
  {
    hide ReadString8, ReadWord, ReadFlag, ReadDouble;
    ok, d, pos := false, d0, pos0;
    var p := pos0;
    match ReadString8(buf, p) {
      case Failed => return;
      case Got(v, q) => d, p := d.(owner := v), q;
    }
    match ReadWord(buf, p) {
      case Failed => return;
      case Got(v, q) => d, p := d.(itemId := v), q;
    }
    match ReadFlag(buf, p) {
      case Failed => return;
      case Got(v, q) => d, p := d.(posSet := v), q;
    }
    match ReadDouble(buf, p) {
      case Failed => return;
      case Got(v, q) => d, p := d.(posX := v), q;
    }
    match ReadDouble(buf, p) {
      case Failed => return;
      case Got(v, q) => d, p := d.(posY := v), q;
    }
    match ReadDouble(buf, p) {
      case Failed => return;
      case Got(v, q) => d, p := d.(scale := v), q;
    }
    ok, pos := true, p;
  }

  // ----- update tasks, with two records of item data

  datatype UpdateTask = UpdateTask(owner: Bytes, itemId: Int, prev: PaintData, data: PaintData)

  function TaskBasic(owner: Bytes, itemId: Int): Bytes {
    String8(owner) + Int32(Word(itemId))
  }

  method SerializeUpdate(t: UpdateTask) returns (ok: bool, buf: Bytes)
    ensures ok <==> |t.owner| <= MAX_STRING8 && |t.prev.owner| <= MAX_STRING8 && |t.data.owner| <= MAX_STRING8
    ensures ok ==> buf == TaskBasic(t.owner, t.itemId) + Basic(t.prev) + Basic(t.data)
    ensures
      var w := if t.itemId < 0 then t.itemId + 4294967296 else t.itemId;
      ok ==> buf == [|t.owner|] + t.owner + [w % 256, w / 256 % 256, w / 65536 % 256, w / 16777216] + Basic(t.prev) + Basic(t.data)
  {
    hide Basic;
    buf := [];
    ok := |t.owner| <= MAX_STRING8;
    if !ok {
      return;
    }
    var part, n;
    ok, part, n := SerializeBasicData(t.prev);
    if !ok {
      return;
    }
    buf := TaskBasic(t.owner, t.itemId) + part;
    ok, part, n := SerializeBasicData(t.data);
    if !ok {
      return;
    }
    buf := buf + part;
  }

  // The bytes at pos are those of an update task whose owners are short enough to be written; anything may follow.
  ghost predicate IsUpdate(buf: Bytes, pos: nat, u: UpdateTask) {
    && Has(buf, pos, TaskBasic(u.owner, u.itemId) + Basic(u.prev) + Basic(u.data))
    && |u.owner| <= MAX_STRING8 && |u.prev.owner| <= MAX_STRING8 && |u.data.owner| <= MAX_STRING8
  }

  // Failures inside the two records are not passed on.
  method DeserializeUpdate(buf: Bytes, t0: UpdateTask, pos0: nat) returns (ok: bool, t: UpdateTask)
    ensures forall u :: IsUpdate(buf, pos0, u) ==> ok && t == u
  {
    hide ReadString8, ReadWord, ReadBasic, Basic, IsUpdate;
    forall u | IsUpdate(buf, pos0, u)
      ensures UpdateParts(buf, pos0, u)
    {
      UpdateRead(buf, pos0, u);
    }
    ok, t := false, t0;
    var p := pos0;
    match ReadString8(buf, p) {
      case Failed => return;
      case Got(v, q) => t, p := t.(owner := v), q;
    }
    match ReadWord(buf, p) {
      case Failed => return;
      case Got(v, q) => t, p := t.(itemId := v), q;
    }
    var got, d;
    got, d, p := DeserializeBasicData(buf, t.prev, p);
    t := t.(prev := d);
    got, d, p := DeserializeBasicData(buf, t.data, p);
    t := t.(data := d);
    ok := true;
  }

  ghost predicate UpdateParts(buf: Bytes, pos: nat, u: UpdateTask) {
    var p1 := pos + 1 + |u.owner|;
    && ReadString8(buf, pos) == Got(u.owner, p1) && ReadWord(buf, p1) == Got(u.itemId, p1 + 4)
    && ReadBasic(buf, p1 + 4) == Got(u.prev, p1 + 4 + |Basic(u.prev)|)
    && ReadBasic(buf, p1 + 4 + |Basic(u.prev)|) == Got(u.data, p1 + 4 + |Basic(u.prev)| + |Basic(u.data)|)
  }

  lemma UpdateRead(buf: Bytes, pos: nat, u: UpdateTask)
    requires IsUpdate(buf, pos, u)
    ensures UpdateParts(buf, pos, u)
  {
    hide ReadString8, ReadWord, ReadBasic, Basic, Has, String8, Int32;
    Lengths8(u.owner, true);
    var a, b, c := TaskBasic(u.owner, u.itemId), Basic(u.prev), Basic(u.data);
    HasBoth(buf, pos, a + b, c);
    HasBoth(buf, pos, a, b);
    HasBoth(buf, pos, String8(u.owner), Int32(Word(u.itemId)));
    String8Read(buf, pos, u.owner);
    WordRead(buf, pos + 1 + |u.owner|, u.itemId);
    BasicRead(buf, pos + |a|, u.prev);
    BasicRead(buf, pos + |a| + |b|, u.data);
  }

  // ----- lines

  datatype Point = Point(x: Double, y: Double)

  // Colours and width as 16-bit numbers.
  datatype LineItem = LineItem(data: PaintData, r: nat, g: nat, b: nat, a: nat, w: nat, points: seq<Point>)

  function PointBytes(p: Point): Bytes {
    p.x + p.y
  }

  function PointsBytes(ps: seq<Point>): Bytes {
    if ps == [] then [] else PointsBytes(ps[..|ps| - 1]) + PointBytes(ps[|ps| - 1])
  }

  function Numbers(l: LineItem): Bytes {
    Int16(l.r) + Int16(l.g) + Int16(l.b) + Int16(l.a) + Int16(l.w) + Int16(|l.points|)
  }

  function LineBytes(l: LineItem): Bytes {
    Basic(l.data) + Numbers(l) + PointsBytes(l.points)
  }

  method SerializeLine(l: LineItem) returns (ok: bool, buf: Bytes)
    ensures ok <==> |l.data.owner| <= MAX_STRING8
    ensures ok ==> buf == LineBytes(l)
  {
    hide Basic, Int16;
    var pos;
    ok, buf, pos := SerializeBasicData(l.data);
    if !ok {
      return;
    }
    buf, pos := Insert(buf, pos, Int16(l.r)), pos + 2;
    assert buf == Basic(l.data) + Int16(l.r);
    buf, pos := Insert(buf, pos, Int16(l.g)), pos + 2;
    assert buf == Basic(l.data) + (Int16(l.r) + Int16(l.g));
    buf, pos := Insert(buf, pos, Int16(l.b)), pos + 2;
    assert buf == Basic(l.data) + (Int16(l.r) + Int16(l.g) + Int16(l.b));
    buf, pos := Insert(buf, pos, Int16(l.a)), pos + 2;
    assert buf == Basic(l.data) + (Int16(l.r) + Int16(l.g) + Int16(l.b) + Int16(l.a));
    buf, pos := Insert(buf, pos, Int16(l.w)), pos + 2;
    assert buf == Basic(l.data) + (Int16(l.r) + Int16(l.g) + Int16(l.b) + Int16(l.a) + Int16(l.w));
    buf, pos := Insert(buf, pos, Int16(|l.points|)), pos + 2;
    assert buf == Basic(l.data) + Numbers(l) + PointsBytes(l.points[..0]);
    var i := 0;
    while i < |l.points|
      invariant 0 <= i <= |l.points| && pos == |buf|
      invariant buf == Basic(l.data) + Numbers(l) + PointsBytes(l.points[..i])
    {
      ghost var before := buf;
      buf, pos := Insert(buf, pos, l.points[i].x), pos + 8;
      buf, pos := Insert(buf, pos, l.points[i].y), pos + 8;
      assert l.points[..i + 1][..i] == l.points[..i];
      assert buf == before + PointBytes(l.points[i]);
      i := i + 1;
    }
    assert l.points[..i] == l.points;
  }

  // The bytes at pos are those of a line.
  ghost predicate IsLine(buf: Bytes, pos: nat, l: LineItem) {
    Has(buf, pos, LineBytes(l)) && |l.data.owner| <= MAX_STRING8
  }

  // What is read back: numbers and the number of points are cut to 16 bits.
  function LineRead(l: LineItem): LineItem {
    LineItem(l.data, l.r % 0x10000, l.g % 0x10000, l.b % 0x10000, l.a % 0x10000, l.w % 0x10000, l.points[..|l.points| % 0x10000])
  }

  // Within the limits a line is read back as it was written.
  lemma LineWithinLimits(l: LineItem)
    ensures LineRead(l) == l <==> l.r < 0x10000 && l.g < 0x10000 && l.b < 0x10000 && l.a < 0x10000 && l.w < 0x10000 && |l.points| < 0x10000
  {
    assert |LineRead(l).points| == |l.points| % 0x10000;
    if |l.points| < 0x10000 {
      assert l.points[..|l.points|] == l.points;
    }
  }

  lemma NumbersRead(buf: Bytes, pos: nat, l: LineItem)
    requires Has(buf, pos, Numbers(l))
    ensures pos + 12 <= |buf|
    ensures ReadInt16(buf, pos) == Got(l.r % 0x10000, pos + 2) && ReadInt16(buf, pos + 2) == Got(l.g % 0x10000, pos + 4)
    ensures ReadInt16(buf, pos + 4) == Got(l.b % 0x10000, pos + 6) && ReadInt16(buf, pos + 6) == Got(l.a % 0x10000, pos + 8)
    ensures ReadInt16(buf, pos + 8) == Got(l.w % 0x10000, pos + 10) && ReadInt16(buf, pos + 10) == Got(|l.points| % 0x10000, pos + 12)
  {
    hide Has, Int16, ReadInt16;
    var a, b, c, d, e, f := Int16(l.r), Int16(l.g), Int16(l.b), Int16(l.a), Int16(l.w), Int16(|l.points|);
    HasBoth(buf, pos, a + b + c + d + e, f);
    HasBoth(buf, pos, a + b + c + d, e);
    HasBoth(buf, pos, a + b + c, d);
    HasBoth(buf, pos, a + b, c);
    HasBoth(buf, pos, a, b);
    Int16Read(buf, pos, l.r);
    Int16Read(buf, pos + 2, l.g);
    Int16Read(buf, pos + 4, l.b);
    Int16Read(buf, pos + 6, l.a);
    Int16Read(buf, pos + 8, l.w);
    Int16Read(buf, pos + 10, |l.points|);
    HasEnd(buf, pos + 10, f);
  }

  lemma HasEnd(buf: Bytes, pos: nat, enc: Bytes)
    requires Has(buf, pos, enc)
    ensures pos + |enc| <= |buf|
  {
  }

  lemma {:induction false} PointsLength(ps: seq<Point>)
    ensures |PointsBytes(ps)| == 16 * |ps|
  {
    if ps != [] {
      PointsLength(ps[..|ps| - 1]);
    }
  }

  // Point i of a run of points at pos.
  lemma {:induction false} PointAt(buf: Bytes, pos: nat, ps: seq<Point>, i: nat)
    requires Has(buf, pos, PointsBytes(ps)) && i < |ps|
    ensures ReadDouble(buf, pos + 16 * i) == Got(ps[i].x, pos + 16 * i + 8)
    ensures ReadDouble(buf, pos + 16 * i + 8) == Got(ps[i].y, pos + 16 * i + 16)
    decreases |ps|
  {
    hide Has, ReadDouble;
    var n := |ps| - 1;
    HasBoth(buf, pos, PointsBytes(ps[..n]), PointBytes(ps[n]));
    if i == n {
      PointsLength(ps[..n]);
      HasBoth(buf, pos + 16 * n, ps[n].x, ps[n].y);
      DoubleRead(buf, pos + 16 * n, ps[n].x);
      DoubleRead(buf, pos + 16 * n + 8, ps[n].y);
    } else {
      PointAt(buf, pos, ps[..n], i);
    }
  }

  // Where the parts of a line are.
  lemma LineParts(buf: Bytes, pos: nat, l: LineItem)
    requires IsLine(buf, pos, l)
    ensures
      var p := pos + |Basic(l.data)|;
      ReadBasic(buf, pos) == Got(l.data, p) && Has(buf, p, Numbers(l)) && Has(buf, p + 12, PointsBytes(l.points))
  {
    hide Basic, Has, ReadBasic, Int16;
    HasBoth(buf, pos, Basic(l.data) + Numbers(l), PointsBytes(l.points));
    HasBoth(buf, pos, Basic(l.data), Numbers(l));
    BasicRead(buf, pos, l.data);
  }

  // Reading a line into a new item.
  method DeserializeLine(buf: Bytes, d0: PaintData, ghost l: LineItem) returns (ok: bool, line: LineItem)
    ensures IsLine(buf, 0, l) ==> ok && line == LineRead(l)
  {
    hide ReadInt16, IsLine, Numbers, PointsBytes, Basic, ReadBasic, Has;
    line := LineItem(d0, 0, 0, 0, 0, 0, []);
    ghost var sound := IsLine(buf, 0, l);
    var pos;
    var d;
    ok, d, pos := DeserializeBasicData(buf, d0, 0);
    if sound {
      LineParts(buf, 0, l);
      NumbersRead(buf, pos, l);
    }
    if !ok {
      return;
    }
    var r, g, b, a, w, n;
    ok, r, pos := Next16(buf, pos);
    if !ok { return; }
    ok, g, pos := Next16(buf, pos);
    if !ok { return; }
    ok, b, pos := Next16(buf, pos);
    if !ok { return; }
    ok, a, pos := Next16(buf, pos);
    if !ok { return; }
    ok, w, pos := Next16(buf, pos);
    if !ok { return; }
    ok, n, pos := Next16(buf, pos);
    if !ok { return; }
    ghost var start := pos;
    var points := [];
    var i := 0;
    while i < n
      invariant 0 <= i <= n && pos == start + 16 * i
      invariant sound ==> n == |l.points| % 0x10000 && start == |Basic(l.data)| + 12 && points == l.points[..i]
    {
      if sound {
        PointAt(buf, start, l.points, i);
      }
      var x, y;
      match ReadDouble(buf, pos) {
        case Failed => ok := false; return;
        case Got(v, q) => x, pos := v, q;
      }
      match ReadDouble(buf, pos) {
        case Failed => ok := false; return;
        case Got(v, q) => y, pos := v, q;
      }
      points := points + [Point(x, y)];
      i := i + 1;
    }
    line := LineItem(d, r, g, b, a, w, points);
  }

  method Next16(buf: Bytes, pos0: nat) returns (ok: bool, v: nat, pos: nat)
    ensures ok <==> ReadInt16(buf, pos0).Got?
    ensures ok ==> ReadInt16(buf, pos0) == Got(v, pos)
  {
    match ReadInt16(buf, pos0) {
      case Failed => return false, 0, pos0;
      case Got(x, p) => return true, x, p;
    }
  }

  // ----- the list of former users

  // What of a user is kept; the last flag is not part of the record that is sent.
  datatype User = User(channel: Bytes, userId: Bytes, nickName: Bytes, viewIp: Bytes, localIp: Bytes, port: nat,
                       superPeerCandidate: bool, screenRecording: bool, streamingReceiver: bool, streaming: bool)

  function UserBytes(u: User): Bytes {
    String8(u.channel) + String8(u.userId) + String8(u.nickName) + String8(u.viewIp) + String8(u.localIp)
    + Int16(u.port) + Flag8(u.superPeerCandidate) + Flag8(u.screenRecording) + Flag8(u.streamingReceiver)
  }

  predicate Short(u: User) {
    && |u.channel| <= MAX_STRING8 && |u.userId| <= MAX_STRING8 && |u.nickName| <= MAX_STRING8
    && |u.viewIp| <= MAX_STRING8 && |u.localIp| <= MAX_STRING8
  }

  method SerializeUser(u: User) returns (ok: bool, body: Bytes)
    ensures ok <==> Short(u)
    ensures ok <==> |u.channel| <= 255 && |u.userId| <= 255 && |u.nickName| <= 255 && |u.viewIp| <= 255 && |u.localIp| <= 255
    ensures ok ==> body == UserBytes(u)
  {
    hide String8, Int16, Flag8;
    body := [];
    ok := Short(u);
    if !ok {
      return;
    }
    body := Insert(body, |body|, String8(u.channel));
    body := Insert(body, |body|, String8(u.userId));
    body := Insert(body, |body|, String8(u.nickName));
    body := Insert(body, |body|, String8(u.viewIp));
    body := Insert(body, |body|, String8(u.localIp));
    assert body == String8(u.channel) + String8(u.userId) + String8(u.nickName) + String8(u.viewIp) + String8(u.localIp);
    body := Insert(body, |body|, Int16(u.port));
    body := Insert(body, |body|, Flag8(u.superPeerCandidate));
    body := Insert(body, |body|, Flag8(u.screenRecording));
    body := Insert(body, |body|, Flag8(u.streamingReceiver));
  }

  // What is read back of a user, into a new one.
  function UserRead(u: User, u0: User): User {
    u.(port := u.port % 0x10000, streaming := u0.streaming)
  }

  // The text of a record, field by field from pos on.
  ghost predicate UserTexts(buf: Bytes, pos: nat, u: User) {
    var p1 := pos + 1 + |u.channel|;
    var p2 := p1 + 1 + |u.userId|;
    var p3 := p2 + 1 + |u.nickName|;
    var p4 := p3 + 1 + |u.viewIp|;
    && ReadString8(buf, pos) == Got(u.channel, p1) && ReadString8(buf, p1) == Got(u.userId, p2)
    && ReadString8(buf, p2) == Got(u.nickName, p3) && ReadString8(buf, p3) == Got(u.viewIp, p4)
    && ReadString8(buf, p4) == Got(u.localIp, p4 + 1 + |u.localIp|)
  }

  function TextLength(u: User): nat {
    5 + |u.channel| + |u.userId| + |u.nickName| + |u.viewIp| + |u.localIp|
  }

  // And the numbers behind it.
  ghost predicate UserNumbers(buf: Bytes, p: nat, u: User) {
    && ReadInt16(buf, p) == Got(u.port % 0x10000, p + 2) && ReadFlag(buf, p + 2) == Got(u.superPeerCandidate, p + 3)
    && ReadFlag(buf, p + 3) == Got(u.screenRecording, p + 4) && ReadFlag(buf, p + 4) == Got(u.streamingReceiver, p + 5)
  }

  lemma TextsRead(buf: Bytes, pos: nat, u: User)
    requires Short(u)
    requires Has(buf, pos, String8(u.channel) + String8(u.userId) + String8(u.nickName) + String8(u.viewIp) + String8(u.localIp))
    ensures UserTexts(buf, pos, u)
  {
    hide Has, String8, ReadString8;
    var a, b, c, d, e := String8(u.channel), String8(u.userId), String8(u.nickName), String8(u.viewIp), String8(u.localIp);
    Lengths8(u.channel, true);
    Lengths8(u.userId, true);
    Lengths8(u.nickName, true);
    Lengths8(u.viewIp, true);
    HasBoth(buf, pos, a + b + c + d, e);
    HasBoth(buf, pos, a + b + c, d);
    HasBoth(buf, pos, a + b, c);
    HasBoth(buf, pos, a, b);
    String8Read(buf, pos, u.channel);
    String8Read(buf, pos + |a|, u.userId);
    String8Read(buf, pos + |a + b|, u.nickName);
    String8Read(buf, pos + |a + b + c|, u.viewIp);
    String8Read(buf, pos + |a + b + c + d|, u.localIp);
  }

  lemma UserParts(buf: Bytes, pos: nat, u: User)
    requires Short(u) && Has(buf, pos, UserBytes(u))
    ensures UserTexts(buf, pos, u) && UserNumbers(buf, pos + TextLength(u), u)
    ensures |UserBytes(u)| == TextLength(u) + 5
  {
    hide Has, String8, Int16, Flag8, ReadInt16, ReadFlag, UserTexts, ReadString8;
    var t := String8(u.channel) + String8(u.userId) + String8(u.nickName) + String8(u.viewIp) + String8(u.localIp);
    var n, f, g, h := Int16(u.port), Flag8(u.superPeerCandidate), Flag8(u.screenRecording), Flag8(u.streamingReceiver);
    Lengths8(u.channel, u.superPeerCandidate);
    Lengths8(u.userId, u.screenRecording);
    Lengths8(u.nickName, u.streamingReceiver);
    Lengths8(u.viewIp, true);
    Lengths8(u.localIp, true);
    assert |t| == TextLength(u);
    HasBoth(buf, pos, t + n + f + g, h);
    HasBoth(buf, pos, t + n + f, g);
    HasBoth(buf, pos, t + n, f);
    HasBoth(buf, pos, t, n);
    TextsRead(buf, pos, u);
    Int16Read(buf, pos + |t|, u.port);
    FlagRead(buf, pos + |t| + 2, u.superPeerCandidate);
    FlagRead(buf, pos + |t| + 3, u.screenRecording);
    FlagRead(buf, pos + |t| + 4, u.streamingReceiver);
  }

  method DeserializeTexts(buf: Bytes, u0: User, pos0: nat, ghost v: User) returns (ok: bool, u: User, pos: nat)
    ensures UserTexts(buf, pos0, v) ==>
      ok && pos == pos0 + TextLength(v) && u == u0.(channel := v.channel, userId := v.userId, nickName := v.nickName, viewIp := v.viewIp, localIp := v.localIp)
  {
    hide ReadString8;
    ok, u, pos := false, u0, pos0;
    match ReadString8(buf, pos) {
      case Failed => return;
      case Got(x, q) => u, pos := u.(channel := x), q;
    }
    match ReadString8(buf, pos) {
      case Failed => return;
      case Got(x, q) => u, pos := u.(userId := x), q;
    }
    match ReadString8(buf, pos) {
      case Failed => return;
      case Got(x, q) => u, pos := u.(nickName := x), q;
    }
    match ReadString8(buf, pos) {
      case Failed => return;
      case Got(x, q) => u, pos := u.(viewIp := x), q;
    }
    match ReadString8(buf, pos) {
      case Failed => return;
      case Got(x, q) => u, pos := u.(localIp := x), q;
    }
    ok := true;
  }

  // Reading one record into a user; if it is cut off, the position is left where it was.
  method DeserializeUser(buf: Bytes, u0: User, pos0: nat, ghost v: User) returns (ok: bool, u: User, pos: nat)
    ensures !ok ==> pos == pos0
    ensures Short(v) && Has(buf, pos0, UserBytes(v)) ==> ok && u == UserRead(v, u0) && pos == pos0 + |UserBytes(v)|
  {
    hide UserTexts, ReadInt16, ReadFlag, Has, UserBytes;
    ghost var sound := Short(v) && Has(buf, pos0, UserBytes(v));
    if sound {
      UserParts(buf, pos0, v);
    }
    var p;
    pos := pos0;
    ok, u, p := DeserializeTexts(buf, u0, pos0, v);
    if !ok {
      return;
    }
    ok := false;
    match ReadInt16(buf, p) {
      case Failed => return;
      case Got(x, q) => u, p := u.(port := x), q;
    }
    match ReadFlag(buf, p) {
      case Failed => return;
      case Got(x, q) => u, p := u.(superPeerCandidate := x), q;
    }
    match ReadFlag(buf, p) {
      case Failed => return;
      case Got(x, q) => u, p := u.(screenRecording := x), q;
    }
    match ReadFlag(buf, p) {
      case Failed => return;
      case Got(x, q) => u, p := u.(streamingReceiver := x), q;
    }
    ok, pos := true, p;
  }

  function UsersBytes(us: seq<User>): Bytes {
    if us == [] then [] else UsersBytes(us[..|us| - 1]) + UserBytes(us[|us| - 1])
  }

  const CODE_SYSTEM_HISTORY_USER_LIST := 13

  // The packet is empty when a text is too long.
  method MakeHistoryUserList(list: seq<User>) returns (packet: Bytes)
    ensures
      if forall i :: 0 <= i < |list| ==> Short(list[i]) then
        var body := Int16(|list|) + UsersBytes(list);
        var n := |body|;
        && packet == Encode(PacketSlicer.Packet(CODE_SYSTEM_HISTORY_USER_LIST, [], [], body))
        && packet == [0xbe, 0xbe, 13, 0, 0] + [] + [0] + [] + [n % 256, n / 256 % 256, n / 65536 % 256, n / 16777216 % 256] + body
      else packet == []
  {
    hide UserBytes, Int16, Encode;
    var body := Int16(|list|);
    var i := 0;
    while i < |list|
      invariant 0 <= i <= |list| && body == Int16(|list|) + UsersBytes(list[..i])
      invariant forall j :: 0 <= j < i ==> Short(list[j])
    {
      var ok, part := SerializeUser(list[i]);
      if !ok {
        return [];
      }
      assert list[..i + 1][..i] == list[..i];
      body := body + part;
      i := i + 1;
    }
    assert list[..i] == list;
    var ok;
    ok, packet := MakePacket(CODE_SYSTEM_HISTORY_USER_LIST, body, [], []);
  }

  // The place of record i in a run of them.
  lemma {:induction false} UserAt(buf: Bytes, pos: nat, us: seq<User>, i: nat)
    requires Has(buf, pos, UsersBytes(us)) && i < |us|
    ensures Has(buf, pos + |UsersBytes(us[..i])|, UserBytes(us[i]))
    ensures |UsersBytes(us[..i + 1])| == |UsersBytes(us[..i])| + |UserBytes(us[i])|
    decreases |us|
  {
    hide Has, UserBytes;
    var n := |us| - 1;
    HasBoth(buf, pos, UsersBytes(us[..n]), UserBytes(us[n]));
    if i < n {
      UserAt(buf, pos, us[..n], i);
      assert us[..n][..i] == us[..i] && us[..n][..i + 1] == us[..i + 1];
    } else {
      assert us[..n + 1] == us;
    }
  }

  const NEW_USER := User([], [], [], [], [], 0, false, false, false, false)

  // The body of a list packet is read back as the list that was written, cut to as many users as the 16-bit count says.
  // What follows does not matter.
  method ParseHistoryUserList(body: Bytes, ghost list: seq<User>) returns (users: seq<User>)
    ensures (forall i :: 0 <= i < |list| ==> Short(list[i])) && Has(body, 0, Int16(|list|) + UsersBytes(list)) ==>
      |users| == |list| % 0x10000 && forall i :: 0 <= i < |users| ==> users[i] == list[i].(port := list[i].port % 0x10000, streaming := false)
  {
    hide Has, UserBytes, ReadInt16, Int16, UserRead, Short;
    users := [];
    ghost var sound := (forall i :: 0 <= i < |list| ==> Short(list[i])) && Has(body, 0, Int16(|list|) + UsersBytes(list));
    if sound {
      HasBoth(body, 0, Int16(|list|), UsersBytes(list));
      Int16Read(body, 0, |list|);
    }
    var ok, count, pos := Next16(body, 0);
    if !ok {
      return;
    }
    var i := 0;
    while i < count
      invariant 0 <= i <= count && |users| == i
      invariant sound ==> count == |list| % 0x10000 && pos == 2 + |UsersBytes(list[..i])|
      invariant sound ==> forall j :: 0 <= j < i ==> users[j] == UserRead(list[j], NEW_USER)
    {
      ghost var v := if sound then list[i] else NEW_USER;
      if sound {
        UserAt(body, 2, list, i);
      }
      var user;
      ok, user, pos := DeserializeUser(body, NEW_USER, pos, v);
      users := users + [user];
      i := i + 1;
    }
    if sound {
      forall j | 0 <= j < |users|
        ensures users[j] == list[j].(port := list[j].port % 0x10000, streaming := false)
      {
        NewUserRead(list[j]);
      }
    }
  }

  lemma NewUserRead(u: User)
    ensures UserRead(u, NEW_USER) == u.(port := u.port % 0x10000, streaming := false)
  {
  }
}
