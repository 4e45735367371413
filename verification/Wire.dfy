/** lib/common/wire.go: length-prefixed messages and the reader that takes them off a stream. */
module Wire {
  import opened Words
  import opened IO
  import opened Common

  const MAX_WIRE_MESSAGE_SIZE: u32 := 32 * 1024

  const CHOKE: byte := 0
  const UNCHOKE: byte := 1
  const HAVE: byte := 4
  const BITFIELD: byte := 5
  const REQUEST: byte := 6
  const PIECE: byte := 7
  const CANCEL: byte := 8
  const INVALID: byte := 255

  // ----- big-endian numbers -----

  function Pow256(n: nat): (p: nat)
    ensures p >= 1
  {
    if n == 0 then 1 else 0x100 * Pow256(n - 1)
  }

  /** The last `n` base-256 digits of `x`, most significant first. */
  function BigEndian(x: nat, n: nat): (s: seq<byte>)
    ensures |s| == n
  {
    if n == 0 then [] else BigEndian(x / 0x100, n - 1) + [x % 0x100]
  }

  function Number(s: seq<byte>): (x: nat)
    ensures x < Pow256(|s|)
  {
    if s == [] then 0 else Number(s[..|s| - 1]) * 0x100 + s[|s| - 1]
  }

  lemma {:induction false} NumberOfBigEndian(x: nat, n: nat)
    requires x < Pow256(n)
    ensures Number(BigEndian(x, n)) == x
  {
    if n > 0 {
      NumberOfBigEndian(x / 0x100, n - 1);
      assert BigEndian(x, n)[..n - 1] == BigEndian(x / 0x100, n - 1);
    }
  }

  lemma {:induction false} BigEndianOfNumber(s: seq<byte>)
    ensures BigEndian(Number(s), |s|) == s
  {
    if s != [] {
      BigEndianOfNumber(s[..|s| - 1]);
      assert s == s[..|s| - 1] + [s[|s| - 1]];
    }
  }

  lemma FourBytes()
    ensures Pow256(4) == U32_MOD
  {
    assert Pow256(2) == 0x1_0000;
  }

  function PutUint32(x: u32): (s: seq<byte>)
    ensures |s| == 4
  {
    BigEndian(x, 4)
  }

  function Uint32(s: seq<byte>): u32
    requires 4 <= |s|
  {
    FourBytes();
    Number(s[..4])
  }

  lemma Uint32RoundTrip(x: u32, t: seq<byte>)
    ensures Uint32(PutUint32(x) + t) == x
  {
    FourBytes();
    NumberOfBigEndian(x, 4);
    assert (PutUint32(x) + t)[..4] == PutUint32(x);
  }

  lemma Uint32Prefix(s: seq<byte>, t: seq<byte>)
    requires 4 <= |s| && 4 <= |t| && s[..4] == t[..4]
    ensures Uint32(s) == Uint32(t)
  {
  }

  /** The bytes of a number, the most significant one first. */
  lemma Digits(x: u32, a: nat, b: nat, c: nat, d: nat)
    requires x == a * 0x100_0000 + b * 0x1_0000 + c * 0x100 + d && b < 0x100 && c < 0x100 && d < 0x100
    ensures a < 0x100 && PutUint32(x) == [a, b, c, d]
    ensures a == x / 0x100_0000 && b == x / 0x1_0000 % 0x100 && c == x / 0x100 % 0x100 && d == x % 0x100
  {
    DivModUnique(x, 0x100, a * 0x1_0000 + b * 0x100 + c, d);
    DivModUnique(a * 0x1_0000 + b * 0x100 + c, 0x100, a * 0x100 + b, c);
    DivModUnique(a * 0x100 + b, 0x100, a, b);
    DivModUnique(x, 0x1_0000, a * 0x100 + b, c * 0x100 + d);
    DivModUnique(x, 0x100_0000, a, b * 0x1_0000 + c * 0x100 + d);
    DivModUnique(a, 0x100, 0, a);
    var y, z := a * 0x1_0000 + b * 0x100 + c, a * 0x100 + b;
    assert BigEndian(a, 1) == [a] && BigEndian(z, 2) == [a] + [b];
    assert BigEndian(y, 3) == BigEndian(z, 2) + [c] && BigEndian(x, 4) == BigEndian(y, 3) + [d];
  }

  function Byte(x: nat): byte {
    x % 0x100
  }

  /** The four bytes of a number, the most significant one first. */
  lemma NumberBytes(x: u32)
    ensures PutUint32(x) == [Byte(x / 0x100_0000), Byte(x / 0x1_0000), Byte(x / 0x100), Byte(x)]
  {
    var y := x / 0x100;
    var z := y / 0x100;
    Digits(x, z / 0x100, z % 0x100, y % 0x100, x % 0x100);
    DivModUnique(z / 0x100, 0x100, 0, z / 0x100);
  }

  /** And the number they are read as. */
  lemma BytesNumber(s: seq<byte>)
    requires 4 <= |s|
    ensures Uint32(s) == (s[0] as int) * 0x100_0000 + (s[1] as int) * 0x1_0000 + (s[2] as int) * 0x100 + s[3]
  {
    assert s[..4][..3] == s[..3] && s[..3][..2] == s[..2] && s[..2][..1] == s[..1] && s[..1][..0] == [];
    assert Number(s[..1]) == s[0] && Number(s[..2]) == (s[0] as int) * 0x100 + s[1];
    assert Number(s[..3]) == ((s[0] as int) * 0x100 + s[1]) * 0x100 + s[2];
  }

  // ----- building messages -----

  /** The bytes of a message: the big-endian length of what follows, the id, the parts end to end. */
  function Frame(id: byte, body: seq<byte>): seq<byte> {
    PutUint32((1 + |body|) % U32_MOD) + [id] + body
  }

  /** The length prefix counts in 32 bits; 4 + l may not wrap either. */
  method NewWireMessage(id: byte, body: seq<seq<byte>>) returns (msg: array<byte>)
    requires 5 + |Join(body)| < U32_MOD
    ensures msg[..] == Frame(id, Join(body))
    ensures var l := 1 + |Join(body)|;
            msg[..] == [Byte(l / 0x100_0000), Byte(l / 0x1_0000), Byte(l / 0x100), Byte(l), id] + Join(body)
  {
    var l := TotalLength(body);
    msg := new byte[4 + l];
    FillHeader(msg, l, id);
    FrameIs(id, Join(body), l, msg[..5]);
    FillBody(msg, body);
    FrameBytes(id, Join(body));
  }

  /** A message, byte by byte. */
  lemma FrameBytes(id: byte, body: seq<byte>)
    requires 1 + |body| < U32_MOD
    ensures var l := 1 + |body|;
            Frame(id, body) == [Byte(l / 0x100_0000), Byte(l / 0x1_0000), Byte(l / 0x100), Byte(l), id] + body
  {
    var l := 1 + |body|;
    NumberBytes(l);
    HeaderBytes(Byte(l / 0x100_0000), Byte(l / 0x1_0000), Byte(l / 0x100), Byte(l), id);
  }

  lemma HeaderBytes(a: byte, b: byte, c: byte, d: byte, id: byte)
    ensures [a, b, c, d] + [id] == [a, b, c, d, id]
  {
  }

  lemma FrameIs(id: byte, body: seq<byte>, l: u32, head: seq<byte>)
    requires l == 1 + |body| && head == PutUint32(l) + [id]
    ensures head + body == Frame(id, body)
  {
  }

  method FillHeader(msg: array<byte>, l: u32, id: byte)
    requires 5 <= msg.Length
    modifies msg
    ensures msg[..5] == PutUint32(l) + [id]
  {
    CopyInto(msg, 0, PutUint32(l));
    msg[4] := id;
    assert msg[..5] == msg[..4] + [id];
  }

  /** The counting loop of NewWireMessage. */
  method TotalLength(body: seq<seq<byte>>) returns (l: u32)
    requires 5 + |Join(body)| < U32_MOD
    ensures l == 1 + |Join(body)|
  {
    l := 1;
    JoinGrows(body, |body|);
    for idx := 0 to |body|
      invariant l == 1 + |Join(body[..idx])|
    {
      JoinStep(body, idx);
      JoinGrows(body, idx + 1);
      l := l + |body[idx]|;
    }
    assert body[..|body|] == body;
  }

  /** The copying loop of NewWireMessage. */
  method FillBody(msg: array<byte>, body: seq<seq<byte>>)
    requires msg.Length == 5 + |Join(body)|
    modifies msg
    ensures msg[..] == old(msg[..5]) + Join(body)
  {
    ghost var head := msg[..5];
    var i := 5;
    for idx := 0 to |body|
      invariant i == 5 + |Join(body[..idx])| <= msg.Length
      invariant msg[..i] == head + Join(body[..idx])
    {
      JoinStep(body, idx);
      JoinGrows(body, idx + 1);
      CopyInto(msg, i, body[idx]);
      i := i + |body[idx]|;
    }
    assert body[..|body|] == body;
    assert msg[..i] == msg[..];
  }

  lemma {:induction false} JoinGrows(parts: seq<seq<byte>>, k: nat)
    requires k <= |parts|
    ensures |Join(parts[..k])| <= |Join(parts)|
    decreases |parts| - k
  {
    if k < |parts| {
      JoinStep(parts, k);
      JoinGrows(parts, k + 1);
    } else {
      assert parts[..k] == parts;
    }
  }

  function EncodeRequest(r: PieceRequest): seq<byte> {
    Frame(REQUEST, PutUint32(r.index) + PutUint32(r.begin) + PutUint32(r.length))
  }

  function EncodeCancel(r: PieceRequest): seq<byte> {
    Frame(CANCEL, PutUint32(r.index) + PutUint32(r.begin) + PutUint32(r.length))
  }

  function EncodePiece(p: PieceData): seq<byte> {
    Frame(PIECE, PutUint32(p.index) + PutUint32(p.begin) + p.data)
  }

  function EncodeHave(index: u32): seq<byte> {
    Frame(HAVE, PutUint32(index))
  }

  // ----- taking messages apart -----

  /** A message as it stands on the wire. */
  predicate IsFrame(s: seq<byte>) {
    4 <= |s| && |s| == 4 + Uint32(s)
  }

  predicate KeepAlive(msg: seq<byte>) {
    |msg| == 4
  }

  function MessageID(msg: seq<byte>): byte {
    if |msg| > 4 then msg[4] else INVALID
  }

  function Payload(msg: seq<byte>): seq<byte>
    requires 4 <= |msg| && (Uint32(msg) > 0 ==> 5 <= |msg|)
  {
    if Uint32(msg) > 0 then msg[5..] else []
  }

  function GetPieceRequest(msg: seq<byte>): Option<PieceRequest>
    requires 4 <= |msg| && (Uint32(msg) > 0 ==> 5 <= |msg|)
  {
    var data := Payload(msg);
    if MessageID(msg) == REQUEST && |data| == 12 then
      Some(PieceRequest(Uint32(data), Uint32(data[4..]), Uint32(data[8..])))
    else None
  }

  /** VisitPieceData: a piece message with no data at all is not delivered. */
  function GetPieceData(msg: seq<byte>): Option<PieceData>
    requires 4 <= |msg| && (Uint32(msg) > 0 ==> 5 <= |msg|)
  {
    var data := Payload(msg);
    if MessageID(msg) == PIECE && |data| > 8 then
      Some(PieceData(Uint32(data), Uint32(data[4..]), data[8..]))
    else None
  }

  /** Anything that is not a well-formed have message reads as piece 0. */
  function GetHave(msg: seq<byte>): u32
    requires 4 <= |msg| && (Uint32(msg) > 0 ==> 5 <= |msg|)
  {
    var data := Payload(msg);
    if MessageID(msg) == HAVE && |data| == 4 then Uint32(data) else 0
  }

  /** Every message built here carries its own length, its id and its body. */
  lemma FrameParts(id: byte, body: seq<byte>)
    requires 1 + |body| < U32_MOD
    ensures var msg := Frame(id, body);
            && Uint32(msg) == |msg| - 4
            && !KeepAlive(msg) && MessageID(msg) == id && Payload(msg) == body
  {
    Uint32RoundTrip(1 + |body|, [id] + body);
    assert Frame(id, body) == PutUint32(1 + |body|) + ([id] + body);
  }

  /** The bytes of the messages the download needs: length, id, fields. */
  lemma EncodedBytes(r: PieceRequest, i: u32, p: PieceData)
    requires 9 + |p.data| < U32_MOD
    ensures EncodeRequest(r) == [0, 0, 0, 13, 6] + PutUint32(r.index) + PutUint32(r.begin) + PutUint32(r.length)
    ensures EncodeCancel(r) == [0, 0, 0, 13, 8] + PutUint32(r.index) + PutUint32(r.begin) + PutUint32(r.length)
    ensures EncodeHave(i) == [0, 0, 0, 5, 4] + PutUint32(i)
    ensures EncodePiece(p) == PutUint32(9 + |p.data|) + [7] + PutUint32(p.index) + PutUint32(p.begin) + p.data
  {
    FrameBytes(REQUEST, PutUint32(r.index) + PutUint32(r.begin) + PutUint32(r.length));
    FrameBytes(CANCEL, PutUint32(r.index) + PutUint32(r.begin) + PutUint32(r.length));
    FrameBytes(HAVE, PutUint32(i));
  }

  /** Any message that is not a keep-alive is the one made of its fifth byte and what follows it. */
  lemma FrameOfParts(msg: seq<byte>)
    requires IsFrame(msg) && 4 < |msg|
    ensures MessageID(msg) == msg[4] && Payload(msg) == msg[5..] && msg == Frame(msg[4], msg[5..])
  {
    Uint32Back(msg);
    assert msg == msg[..4] + [msg[4]] + msg[5..];
  }

  lemma ThreeNumbers(a: u32, b: u32, t: seq<byte>)
    ensures Uint32(PutUint32(a) + PutUint32(b) + t) == a
    ensures Uint32((PutUint32(a) + PutUint32(b) + t)[4..]) == b
    ensures (PutUint32(a) + PutUint32(b) + t)[8..] == t
  {
    Uint32RoundTrip(a, PutUint32(b) + t);
    Uint32RoundTrip(b, t);
    assert PutUint32(a) + PutUint32(b) + t == PutUint32(a) + (PutUint32(b) + t);
    assert (PutUint32(a) + (PutUint32(b) + t))[4..] == PutUint32(b) + t;
  }

  lemma RequestRoundTrip(r: PieceRequest)
    ensures GetPieceRequest(EncodeRequest(r)) == Some(r)
    ensures GetPieceData(EncodeRequest(r)) == None && GetPieceRequest(EncodeCancel(r)) == None
  {
    var body := PutUint32(r.index) + PutUint32(r.begin) + PutUint32(r.length);
    FrameParts(REQUEST, body);
    FrameParts(CANCEL, body);
    ThreeNumbers(r.index, r.begin, PutUint32(r.length));
    Uint32RoundTrip(r.length, []);
    assert PutUint32(r.length) + [] == PutUint32(r.length);
  }

  /** A piece survives the wire exactly when it carries data. */
  lemma PieceRoundTrip(p: PieceData)
    requires 9 + |p.data| < U32_MOD
    ensures GetPieceData(EncodePiece(p)) == Some(p) <==> p.data != []
    ensures p.data == [] ==> GetPieceData(EncodePiece(p)) == None
  {
    FrameParts(PIECE, PutUint32(p.index) + PutUint32(p.begin) + p.data);
    ThreeNumbers(p.index, p.begin, p.data);
  }

  lemma HaveRoundTrip(index: u32)
    ensures GetHave(EncodeHave(index)) == index
  {
    FrameParts(HAVE, PutUint32(index));
    Uint32RoundTrip(index, []);
    assert PutUint32(index) + [] == PutUint32(index);
  }

  /** A whole message is read as a request exactly if it is the one made for that request. */
  lemma RequestIsExact(msg: seq<byte>, r: PieceRequest)
    requires IsFrame(msg)
    ensures GetPieceRequest(msg) == Some(r) <==> msg == EncodeRequest(r)
  {
    RequestRoundTrip(r);
    if GetPieceRequest(msg) == Some(r) {
      FrameOfParts(msg);
      var data := msg[5..];
      Uint32Back(data);
      Uint32Back(data[4..]);
      Uint32Back(data[8..]);
      assert data == data[..4] + data[4..][..4] + data[8..][..4];
    }
  }

  /** And as a piece exactly if it is the one made for that piece, with some data. */
  lemma PieceIsExact(msg: seq<byte>, p: PieceData)
    requires IsFrame(msg) && 9 + |p.data| < U32_MOD
    ensures GetPieceData(msg) == Some(p) <==> msg == EncodePiece(p) && p.data != []
  {
    PieceRoundTrip(p);
    if GetPieceData(msg) == Some(p) {
      PieceReadBack(msg, p);
    }
  }

  lemma PieceReadBack(msg: seq<byte>, p: PieceData)
    requires IsFrame(msg) && 9 + |p.data| < U32_MOD && GetPieceData(msg) == Some(p)
    ensures msg == EncodePiece(p)
  {
    FrameOfParts(msg);
    ThreeParts(msg[5..]);
  }

  lemma ThreeParts(data: seq<byte>)
    requires 8 <= |data|
    ensures data == PutUint32(Uint32(data)) + PutUint32(Uint32(data[4..])) + data[8..]
  {
    Uint32Back(data);
    Uint32Back(data[4..]);
  }

  lemma Uint32Back(s: seq<byte>)
    requires 4 <= |s|
    ensures PutUint32(Uint32(s)) == s[..4]
  {
    BigEndianOfNumber(s[..4]);
  }

  /** A have message that arrives is the one for the index it reads as, exactly when it is nine bytes long. */
  lemma HaveIsExact(msg: seq<byte>)
    requires IsFrame(msg) && MessageID(msg) == HAVE
    ensures msg == EncodeHave(GetHave(msg)) <==> |msg| == 9
    ensures |msg| != 9 ==> GetHave(msg) == 0
  {
    if |msg| == 9 {
      Uint32Back(msg);
      Uint32Back(msg[5..]);
      assert msg == msg[..4] + [msg[4]] + msg[5..][..4];
    }
  }

  /** A have message without an index reads as one for piece 0. */
  lemma EmptyHave()
    ensures var msg := Frame(HAVE, []);
            IsFrame(msg) && MessageID(msg) == HAVE && GetHave(msg) == 0 && msg != EncodeHave(0)
  {
    FrameParts(HAVE, []);
    HaveIsExact(Frame(HAVE, []));
  }

  // ----- reading a stream -----

  /** What a reader of `s` hands to `f`: whole messages in order, empty and oversized ones skipped, until `f` fails. */
  function Deliver(s: seq<byte>, f: seq<byte> -> bool): seq<seq<byte>> {
    if |s| < 4 then []
    else
      var l := Uint32(s);
      if |s| < 4 + l then []
      else if l == 0 || l > MAX_WIRE_MESSAGE_SIZE then Deliver(s[4 + l..], f)
      else if f(s[..4 + l]) then [s[..4 + l]] + Deliver(s[4 + l..], f)
      else [s[..4 + l]]
  }

  /** A message whose end has not arrived. */
  predicate IsCut(s: seq<byte>) {
    |s| < 4 || |s| < 4 + Uint32(s)
  }

  /** What the first message of `s` hands to the handler: nothing when it is empty or oversized. */
  function Handed(s: seq<byte>): Option<seq<byte>>
    requires !IsCut(s)
  {
    if Uint32(s) == 0 || Uint32(s) > MAX_WIRE_MESSAGE_SIZE then None else Some(s[..4 + Uint32(s)])
  }

  /** One turn of the reading loop. A failed header read leaves the previous header in `msg`. */
  method ReadOne(r: Reader, msg: array<byte>) returns (err: Err, got: Option<seq<byte>>)
    requires msg.Length == MAX_WIRE_MESSAGE_SIZE + 4
    modifies r, msg
    ensures err == Ok <==> !IsCut(old(r.rest))
    ensures |r.rest| <= |old(r.rest)|
    ensures err != Ok ==> got == None
    ensures err == Ok ==> r.rest == old(r.rest)[4 + Uint32(old(r.rest))..]
    ensures err == Ok ==> got == Handed(old(r.rest))
  {
    ghost var s := r.rest;
    var n;
    n, err := r.ReadFull(msg, 0, 4);
    var l := Uint32(msg[..4]);
    if |s| >= 4 {
      assert msg[..4] == s[..4];
      Uint32Prefix(msg[..4], s);
    }
    got := None;
    if l > 0 {
      if l > MAX_WIRE_MESSAGE_SIZE {
        err := r.Discard(l);
      } else {
        n, err := r.ReadFull(msg, 4, 4 + l);
        if err == Ok {
          assert msg[..4 + l] == s[..4] + s[4..][..l] == s[..4 + l];
          got := Some(msg[..4 + l]);
        }
      }
    }
  }

  /** ReadWireMessages, with one buffer for all messages. */
  method ReadWireMessages(r: Reader, f: seq<byte> -> bool, msg: array<byte>) returns (err: Err, delivered: seq<seq<byte>>)
    requires msg.Length == MAX_WIRE_MESSAGE_SIZE + 4
    modifies r, msg
    ensures err != Ok
    ensures delivered == Deliver(old(r.rest), f)
    ensures forall k :: 0 <= k < |delivered| ==> WholeAndInSize(delivered[k])
  {
    err := Ok;
    delivered := [];
    while err == Ok
      invariant delivered + (if err == Ok then Deliver(r.rest, f) else []) == Deliver(old(r.rest), f)
      decreases |r.rest|, if err == Ok then 1 else 0
    {
      ghost var s := r.rest;
      var got;
      err, got := ReadOne(r, msg);
      if got.Some? {
        delivered := delivered + [got.value];
        if !f(got.value) {
          err := Fault;
        }
      }
    }
    forall k | 0 <= k < |delivered|
      ensures WholeAndInSize(delivered[k])
    {
      DeliveryStopsAtFailure(old(r.rest), f, k);
      DeliveredSize(delivered[k]);
    }
  }

  /** A body of 1 to 32768 bytes, whose number the first four bytes give, the most significant one first. */
  predicate WholeAndInSize(msg: seq<byte>) {
    && 5 <= |msg| <= 32772
    && |msg| - 4 == (msg[0] as int) * 0x100_0000 + (msg[1] as int) * 0x1_0000 + (msg[2] as int) * 0x100 + msg[3]
  }

  lemma DeliveredSize(msg: seq<byte>)
    requires IsFrame(msg)
    ensures Deliverable(msg) <==> WholeAndInSize(msg)
  {
    BytesNumber(msg);
  }

  predicate Deliverable(s: seq<byte>) {
    4 < |s| <= 4 + MAX_WIRE_MESSAGE_SIZE
  }

  /** Bodies of 1 to 32768 bytes, so that every piece message with up to a full block of data gets through. */
  lemma DeliverableSizes(s: seq<byte>, p: PieceData)
    ensures Deliverable(s) <==> 5 <= |s| <= 32772
    ensures 1 <= |p.data| <= 16384 ==> Deliverable(EncodePiece(p)) && IsFrame(EncodePiece(p)) && GetPieceData(EncodePiece(p)) == Some(p)
  {
    if 1 <= |p.data| <= 16384 {
      FrameParts(PIECE, PutUint32(p.index) + PutUint32(p.begin) + p.data);
      PieceRoundTrip(p);
    }
  }

  function Stream(frames: seq<seq<byte>>, tail: seq<byte>): seq<byte> {
    if frames == [] then tail else frames[0] + Stream(frames[1..], tail)
  }

  function OnlyDeliverable(frames: seq<seq<byte>>): seq<seq<byte>> {
    if frames == [] then []
    else (if Deliverable(frames[0]) then [frames[0]] else []) + OnlyDeliverable(frames[1..])
  }

  /** Whatever messages are put on a stream, followed by a cut one, the reader delivers the deliverable ones. */
  lemma {:induction false} DeliversWholeMessages(frames: seq<seq<byte>>, tail: seq<byte>, f: seq<byte> -> bool)
    requires forall k :: 0 <= k < |frames| ==> IsFrame(frames[k])
    requires IsCut(tail)
    requires forall m :: f(m)
    ensures Deliver(Stream(frames, tail), f) == OnlyDeliverable(frames)
  {
    if frames != [] {
      var s := Stream(frames, tail);
      var rest := Stream(frames[1..], tail);
      assert s[..|frames[0]|] == frames[0] && s[|frames[0]|..] == rest;
      assert s[..4] == frames[0][..4];
      Uint32Prefix(s, frames[0]);
      DeliversWholeMessages(frames[1..], tail, f);
    }
  }

  function Encoded(ps: seq<PieceData>): (frames: seq<seq<byte>>)
    ensures |frames| == |ps| && forall k :: 0 <= k < |ps| ==> frames[k] == EncodePiece(ps[k])
  {
    seq(|ps|, k requires 0 <= k < |ps| => EncodePiece(ps[k]))
  }

  lemma {:induction false} AllDeliverable(frames: seq<seq<byte>>)
    requires forall k :: 0 <= k < |frames| ==> Deliverable(frames[k])
    ensures OnlyDeliverable(frames) == frames
  {
    if frames != [] {
      AllDeliverable(frames[1..]);
    }
  }

  /** From end to end: whatever blocks of at most 16384 bytes are sent one after the other, these blocks are what is read. */
  lemma BlocksArrive(ps: seq<PieceData>, tail: seq<byte>, f: seq<byte> -> bool)
    requires forall k :: 0 <= k < |ps| ==> 1 <= |ps[k].data| <= 16384
    requires IsCut(tail) && forall m :: f(m)
    ensures var got := Deliver(Stream(Encoded(ps), tail), f);
            && |got| == |ps|
            && forall k :: 0 <= k < |ps| ==> IsFrame(got[k]) && 5 <= |got[k]| && GetPieceData(got[k]) == Some(ps[k])
  {
    forall k | 0 <= k < |ps|
      ensures Deliverable(EncodePiece(ps[k])) && IsFrame(EncodePiece(ps[k])) && GetPieceData(EncodePiece(ps[k])) == Some(ps[k])
    {
      DeliverableSizes([], ps[k]);
    }
    DeliversWholeMessages(Encoded(ps), tail, f);
    AllDeliverable(Encoded(ps));
  }

  /** A handler that fails ends the delivery with the message it failed on. */
  lemma {:induction false} DeliveryStopsAtFailure(s: seq<byte>, f: seq<byte> -> bool, k: nat)
    requires k < |Deliver(s, f)|
    ensures f(Deliver(s, f)[k]) || k == |Deliver(s, f)| - 1
    ensures Deliverable(Deliver(s, f)[k]) && IsFrame(Deliver(s, f)[k])
    decreases |s|
  {
    var l := Uint32(s);
    assert s[..4 + l][..4] == s[..4];
    Uint32Prefix(s[..4 + l], s);
    if l == 0 || l > MAX_WIRE_MESSAGE_SIZE {
      DeliveryStopsAtFailure(s[4 + l..], f, k);
    } else if f(s[..4 + l]) && k > 0 {
      DeliveryStopsAtFailure(s[4 + l..], f, k - 1);
    }
  }
}
