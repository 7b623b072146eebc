/** The Art-Net 4 packets: each a run of fields behind the "Art-Net" header, some with a tail whose
    length a count field states. */
module ArtNetCodec {
  import opened Prelude
  import opened ByteFields

  datatype Kind =
    | Poll | PollReply | Dmx | TodRequest | TodData | TodControl | Rdm | RdmSub | TimeCode | Address | Input | IpProg | IpProgReply

  /** "Art-Net" and a zero. */
  const ID_BYTES: Bytes := [0x41, 0x72, 0x74, 0x2D, 0x4E, 0x65, 0x74, 0x00]

  function OpCode(k: Kind): uint16
  {
    match k
    case Poll => 0x2000
    case PollReply => 0x2100
    case Dmx => 0x5000
    case TodRequest => 0x8000
    case TodData => 0x8100
    case TodControl => 0x8200
    case Rdm => 0x8300
    case RdmSub => 0x8400
    case TimeCode => 0x9700
    case Address => 0x6000
    case Input => 0x7000
    case IpProg => 0xF800
    case IpProgReply => 0xF900
  }

  function KindOf(op: uint16): (k: Option<Kind>)
    ensures k.Some? ==> OpCode(k.value) == op
    ensures k.None? ==> forall kind: Kind :: OpCode(kind) != op
  {
    if op == 0x2000 then Some(Poll)
    else if op == 0x2100 then Some(PollReply)
    else if op == 0x5000 then Some(Dmx)
    else if op == 0x8000 then Some(TodRequest)
    else if op == 0x8100 then Some(TodData)
    else if op == 0x8200 then Some(TodControl)
    else if op == 0x8300 then Some(Rdm)
    else if op == 0x8400 then Some(RdmSub)
    else if op == 0x9700 then Some(TimeCode)
    else if op == 0x6000 then Some(Address)
    else if op == 0x7000 then Some(Input)
    else if op == 0xF800 then Some(IpProg)
    else if op == 0xF900 then Some(IpProgReply)
    else None
  }

  // ---------------------------------------------------------------- layouts

  /** The fields every packet of the kind has to have, a count of its tail among them. */
  function Strict(k: Kind): seq<Field>
  {
    match k
    // protocol version, flags, diagnostics priority
    case Poll => [U16BE, U8, U8]
    // IP, port, firmware high and low, net and sub switch, OEM, UBEA, status 1, ESTA, short name, long name, report,
    // ports, port types, input, output, inputs' and outputs' switches, sACN priority, macro, remote, spare, style, MAC
    case PollReply => [Raw(4), U16LE, U8, U8, U8, U8, U16BE, U8, U8, U16LE, Text(18), Text(64), Text(64),
                       U16BE, Raw(4), Raw(4), Raw(4), Raw(4), Raw(4), U8, U8, U8, Raw(3), U8, Raw(6)]
    // version, sequence, physical, sub-universe, net, length
    case Dmx => [U16BE, U8, U8, U8, U8, U16BE]
    // version, filler, filler, spare, net, command, address count
    case TodRequest => [U16BE, U8, U8, Raw(7), U8, U8, U8]
    // version, RDM version, port, spare, net, command response, address, UID total, block, UID count
    case TodData => [U16BE, U8, U8, Raw(7), U8, U8, U8, U16BE, U8, U8]
    // version, filler, filler, spare, net, command, address
    case TodControl => [U16BE, U8, U8, Raw(7), U8, U8, U8]
    // version, RDM version, filler, spare, net, command, address
    case Rdm => [U16BE, U8, U8, Raw(7), U8, U8, U8]
    // version, RDM version, filler, UID, spare, command class, parameter, sub-device, count, spare
    case RdmSub => [U16BE, U8, U8, Raw(6), U8, U8, U16BE, U16BE, U16BE, Raw(4)]
    // version, filler, stream, frames, seconds, minutes, hours, type
    case TimeCode => [U16BE, U8, U8, U8, U8, U8, U8, U8]
    // version, net switch, bind index, short name, long name, inputs' and outputs' switches, sub switch, sACN priority, command
    case Address => [U16BE, U8, U8, Text(18), Text(64), Raw(4), Raw(4), U8, U8, U8]
    // version, filler, bind index, ports, states
    case Input => [U16BE, U8, U8, U16BE, Raw(4)]
    // version, filler, filler, command, filler, IP, subnet mask, the deprecated port, gateway, spare
    case IpProg => [U16BE, U8, U8, U8, U8, Raw(4), Raw(4), Gap(2), Raw(4), Raw(4)]
    // version, fillers, IP, subnet mask, port, status, spare, gateway, spare
    case IpProgReply => [U16BE, Gap(4), Raw(4), Raw(4), U16BE, U8, Gap(1), Raw(4), Gap(2)]
  }

  /** The fields a shorter packet may lack. */
  function Lenient(k: Kind): seq<Field>
  {
    match k
    // target top and bottom, ESTA, OEM
    case Poll => [U16BE, U16BE, U16BE, U16BE]
    // bind IP, bind index, status 2, outputs B, status 3, responder UID, user, refresh rate, queue policy, filler
    case PollReply => [Raw(4), U8, U8, Raw(4), U8, Raw(6), U16BE, U16BE, U8, Raw(10)]
    case _ => []
  }

  /** A tail of unit-byte items, at most cap of them; the count is field at. Data of a cut-short ArtDmx
      is taken as far as it goes, and what is sent of it is even. */
  datatype Tail = NoTail | Rest | Counted(at: nat, unit: nat, cap: nat) | DmxData(at: nat, cap: nat)

  function TailOf(k: Kind): Tail
  {
    match k
    case Dmx => DmxData(5, 0xFFFF)
    case TodRequest => Counted(6, 1, 255)
    case TodData => Counted(9, 6, 255)
    case RdmSub => Counted(8, 2, 0xFFFF)
    case Rdm => Rest
    case _ => NoTail
  }

  // ---------------------------------------------------------------- packets

  /** fields are the values of the strict fields but the count, more those of the lenient ones. */
  datatype Packet = Packet(kind: Kind, fields: seq<Value>, more: seq<Value>, tail: Bytes) | Unknown(opCode: uint16, payload: Bytes)

  datatype DecodeError = TooShort | InvalidID | CountMismatch

  function Min(a: nat, b: nat): nat { if a < b then a else b }

  /** What is sent of a tail. */
  function Sent(k: Kind, tail: Bytes): Bytes
  {
    match TailOf(k)
    case NoTail => []
    case Rest => tail
    case DmxData(_, _) => if |tail| % 2 != 0 then tail + [0] else tail
    case Counted(_, unit, cap) => if |tail| > cap * unit then tail[..cap * unit] else tail
  }

  /** The count stated of it. */
  function CountOf(k: Kind, tail: Bytes): nat
  {
    match TailOf(k)
    case DmxData(_, cap) => Min(|Sent(k, tail)|, cap)
    case Counted(_, unit, cap) => if unit == 0 then 0 else Min(|tail| / unit, cap)
    case _ => 0
  }

  function CountAt(k: Kind): Option<nat>
  {
    match TailOf(k)
    case DmxData(at, _) => Some(at)
    case Counted(at, _, _) => Some(at)
    case _ => None
  }

  /** All strict values, the count of the tail put in its place. */
  function StrictValues(k: Kind, fields: seq<Value>, count: nat): seq<Value>
  {
    match CountAt(k)
    case None => fields
    case Some(at) => if at <= |fields| then fields[..at] + [Num(count)] + fields[at..] else fields
  }

  /** All strict values of a packet. */
  function Stated(k: Kind, fields: seq<Value>, tail: Bytes): seq<Value>
  {
    StrictValues(k, fields, CountOf(k, tail))
  }

  function WithoutCount(k: Kind, vs: seq<Value>): seq<Value>
  {
    match CountAt(k)
    case None => vs
    case Some(at) => if at < |vs| then vs[..at] + vs[at + 1..] else vs
  }

  /** A tail is made of whole items, and there is room for the count among the fields. */
  ghost predicate TailOk(k: Kind, fields: seq<Value>, tail: Bytes)
  {
    match TailOf(k)
    case NoTail => tail == []
    case Counted(at, unit, _) => |tail| % unit == 0 && at <= |fields|
    case DmxData(at, _) => at <= |fields|
    case Rest => true
  }

  ghost predicate PacketOk(p: Packet)
  {
    if p.Unknown? then KindOf(p.opCode).None?
    else AllFit(Strict(p.kind), Stated(p.kind, p.fields, p.tail)) && AllFit(Lenient(p.kind), p.more) && TailOk(p.kind, p.fields, p.tail)
  }

  // ---------------------------------------------------------------- encoding

  function Header(op: uint16): (b: Bytes)
    ensures |b| == 10
  {
    ID_BYTES + [Low(op), High(op)]
  }

  function Encode(p: Packet): Bytes
    requires PacketOk(p)
  {
    match p
    case Unknown(op, payload) => Header(op) + payload
    case Packet(k, fields, more, tail) =>
      Header(OpCode(k)) + AllWritten(Strict(k), Stated(k, fields, tail)) + AllWritten(Lenient(k), more) + Sent(k, tail)
  }

  method EncodePacket(p: Packet) returns (b: Bytes)
    requires PacketOk(p)
    ensures b == Encode(p)
  {
    hide AllWritten, Strict, Lenient, Sent, CountOf, StrictValues, TailOf, OpCode;
    var w := new Writer();
    w.WriteBytes(ID_BYTES);
    if p.Unknown? {
      w.WriteField(U16LE, Num(p.opCode));
      w.WriteBytes(p.payload);
      return w.bytes;
    }
    w.WriteField(U16LE, Num(OpCode(p.kind)));
    WriteFields(w, Strict(p.kind), Stated(p.kind, p.fields, p.tail));
    WriteFields(w, Lenient(p.kind), p.more);
    w.WriteBytes(Sent(p.kind, p.tail));
    return w.bytes;
  }

  // ---------------------------------------------------------------- decoding

  /** The tail behind the fields at offset at, given the count stated. */
  function ReadTail(k: Kind, b: Bytes, at: nat, count: nat): Result<Bytes, DecodeError>
    requires at <= |b|
  {
    match TailOf(k)
    case NoTail => Ok([])
    case Rest => Ok(b[at..])
    case DmxData(_, _) => Ok(b[at..at + Min(count, |b| - at)])
    case Counted(_, unit, _) => if |b| - at < count * unit then Err(CountMismatch) else Ok(b[at..at + count * unit])
  }

  function StatedCount(k: Kind, vs: seq<Value>): nat
  {
    match CountAt(k)
    case None => 0
    case Some(at) => if at < |vs| && vs[at].Num? then vs[at].n else 0
  }

  function DecodeKind(k: Kind, b: Bytes): Result<Packet, DecodeError>
  {
    match ReadAll(b, 10, Strict(k))
    case None => Err(TooShort)
    case Some(vs) =>
      var (more, at) := ReadLenient(b, 10 + TotalSize(Strict(k)), Lenient(k));
      if at > |b| then Err(TooShort)
      else
        match ReadTail(k, b, at, StatedCount(k, vs))
        case Err(e) => Err(e)
        case Ok(tail) => Ok(Packet(k, WithoutCount(k, vs), more, tail))
  }

  function Decode(b: Bytes): Result<Packet, DecodeError>
  {
    if |b| < 10 then Err(TooShort)
    else if b[..8] != ID_BYTES then Err(InvalidID)
    else
      var op := b[8] as int + b[9] as int * 0x100;
      match KindOf(op)
      case None => Ok(Unknown(op, b[10..]))
      case Some(k) => if |b| < 10 + TotalSize(Strict(k)) then Err(TooShort) else DecodeKind(k, b)
  }

  method DecodePacket(b: Bytes) returns (r: Result<Packet, DecodeError>)
    ensures r == Decode(b)
  {
    hide ReadAll, ReadLenient, Strict, Lenient, KindOf, WithoutCount, StatedCount, ReadTail;
    if |b| < 10 {
      return Err(TooShort);
    }
    if b[..8] != ID_BYTES {
      return Err(InvalidID);
    }
    var op := b[8] as int + b[9] as int * 0x100;
    var kind := KindOf(op);
    if kind.None? {
      return Ok(Unknown(op, b[10..]));
    }
    var k := kind.value;
    if |b| < 10 + TotalSize(Strict(k)) {
      return Err(TooShort);
    }
    var cursor := new Reader(b, 10);
    var vs := ReadFields(cursor, Strict(k));
    if vs.None? {
      return Err(TooShort);
    }
    var more := ReadFieldsOrZero(cursor, Lenient(k));
    if cursor.offset > |b| {
      return Err(TooShort);
    }
    var tail := ReadTail(k, b, cursor.offset, StatedCount(k, vs.value));
    if tail.Err? {
      return Err(tail.error);
    }
    return Ok(Packet(k, WithoutCount(k, vs.value), more, tail.value));
  }

  // ---------------------------------------------------------------- the round trip

  /** The strict fields but the count. */
  function Plain(k: Kind): seq<Field>
  {
    match CountAt(k)
    case None => Strict(k)
    case Some(at) => if at < |Strict(k)| then Strict(k)[..at] + Strict(k)[at + 1..] else Strict(k)
  }

  /** A packet's own fields fit, whatever its count. */
  lemma PlainFit(p: Packet)
    requires PacketOk(p) && p.Packet?
    ensures AllFit(Plain(p.kind), p.fields)
    ensures WithoutCount(p.kind, AllCanonical(Strict(p.kind), Stated(p.kind, p.fields, p.tail))) == AllCanonical(Plain(p.kind), p.fields)
  {
    hide Strict, CountOf, AllFit, AllCanonical, TailOf;
    if CountAt(p.kind).Some? {
      LeftAway(Strict(p.kind), p.fields, CountAt(p.kind).value, Num(CountOf(p.kind, p.tail)));
    }
  }

  lemma LeftAway(fs: seq<Field>, fields: seq<Value>, at: nat, count: Value)
    requires at <= |fields| && AllFit(fs, fields[..at] + [count] + fields[at..])
    ensures at < |fs| && AllFit(fs[..at] + fs[at + 1..], fields)
    ensures var vs := AllCanonical(fs, fields[..at] + [count] + fields[at..]);
            |vs| == |fs| && vs[..at] + vs[at + 1..] == AllCanonical(fs[..at] + fs[at + 1..], fields)
  {
    hide Fits, Canonical;
    var all, rest := fields[..at] + [count] + fields[at..], fs[..at] + fs[at + 1..];
    assert forall i :: 0 <= i < |fields| ==> fields[i] == all[if i < at then i else i + 1] && rest[i] == fs[if i < at then i else i + 1];
    var vs := AllCanonical(fs, all);
    assert vs[..at] + vs[at + 1..] == AllCanonical(rest, fields);
  }

  /** The tail of an encoded packet as it is read back. */
  function TailBack(k: Kind, tail: Bytes): Bytes
  {
    match TailOf(k) case DmxData(_, cap) => Sent(k, tail)[..Min(|Sent(k, tail)|, cap)] case _ => Sent(k, tail)
  }

  /** A packet as it comes back: every field canonical, the tail within its cap, ArtDmx data even. */
  function CanonicalPacket(p: Packet): Packet
    requires PacketOk(p)
  {
    match p
    case Unknown(_, _) => p
    case Packet(k, fields, more, tail) =>
      PlainFit(p);
      Packet(k, AllCanonical(Plain(k), fields), AllCanonical(Lenient(k), more),
             TailBack(k, tail))
  }

  lemma HeaderRead(op: uint16, rest: Bytes)
    ensures var b := Header(op) + rest;
            |b| >= 10 && b[..8] == ID_BYTES && b[8] as int + b[9] as int * 0x100 == op && b[10..] == rest
  {}

  /** The count written is the count read. */
  lemma CountRead(k: Kind, fields: seq<Value>, tail: Bytes)
    requires AllFit(Strict(k), Stated(k, fields, tail)) && TailOk(k, fields, tail)
    ensures StatedCount(k, AllCanonical(Strict(k), Stated(k, fields, tail))) == CountOf(k, tail)
  {
    var vs := StrictValues(k, fields, CountOf(k, tail));
    if CountAt(k).Some? {
      var at := CountAt(k).value;
      assert vs[at] == Num(CountOf(k, tail));
    }
    hide Sent, StrictValues, CountOf;
  }

  /** The tail sent is the tail read, apart from what a full ArtDmx count cuts off. */
  lemma TailRead(k: Kind, fields: seq<Value>, head: Bytes, tail: Bytes)
    requires TailOk(k, fields, tail)
    ensures ReadTail(k, head + Sent(k, tail), |head|, CountOf(k, tail)) == Ok(TailBack(k, tail))
  {
    var b := head + Sent(k, tail);
    assert b[|head|..] == Sent(k, tail);
    match TailOf(k) {
      case Counted(_, unit, cap) =>
        assert b[|head|..|head| + |Sent(k, tail)|] == Sent(k, tail);
      case DmxData(_, cap) =>
        var sent := Sent(k, tail);
        var n := Min(|sent|, cap);
        assert b[|head|..|head| + n] == b[|head|..][..n] == sent[..n];
      case _ =>
    }
  }

  /** Where the optional fields of a packet begin. */
  function StrictEnd(k: Kind): nat { 10 + TotalSize(Strict(k)) }

  /** An encoded packet: its header, its two runs of fields, its tail. */
  ghost predicate LaidOut(k: Kind, fields: seq<Value>, more: seq<Value>, tail: Bytes, b: Bytes)
  {
    AllFit(Strict(k), Stated(k, fields, tail)) && AllFit(Lenient(k), more) && StrictEnd(k) + TotalSize(Lenient(k)) <= |b| &&
    b[..10] == Header(OpCode(k)) &&
    b[10..StrictEnd(k)] == AllWritten(Strict(k), Stated(k, fields, tail)) &&
    b[StrictEnd(k)..StrictEnd(k) + TotalSize(Lenient(k))] == AllWritten(Lenient(k), more) &&
    b == b[..StrictEnd(k) + TotalSize(Lenient(k))] + Sent(k, tail)
  }

  lemma EncodedLies(k: Kind, fields: seq<Value>, more: seq<Value>, tail: Bytes)
    requires PacketOk(Packet(k, fields, more, tail))
    ensures LaidOut(k, fields, more, tail, Encode(Packet(k, fields, more, tail)))
  {
    hide Strict, Lenient, OpCode, Sent, CountOf, StrictValues, TailOf, AllFit, AllWritten, TotalSize, Header;
    var h, first, second := Header(OpCode(k)), AllWritten(Strict(k), Stated(k, fields, tail)), AllWritten(Lenient(k), more);
  }

  /** What bytes with a packet's header and strict fields decode as. */
  lemma StrictRead(k: Kind, vs: seq<Value>, b: Bytes)
    requires AllFit(Strict(k), vs) && StrictEnd(k) <= |b|
    requires b[..10] == Header(OpCode(k)) && b[10..StrictEnd(k)] == AllWritten(Strict(k), vs)
    ensures ReadAll(b, 10, Strict(k)) == Some(AllCanonical(Strict(k), vs))
    ensures Decode(b) == DecodeKind(k, b)
  {
    hide Strict, OpCode, KindOf, DecodeKind, TotalSize, ReadAll, AllCanonical, AllFit, AllWritten, Header;
    assert b == Header(OpCode(k)) + b[10..];
    HeaderRead(OpCode(k), b[10..]);
    KindBack(k);
    ReadAllWritten(b, 10, Strict(k), vs);
  }

  lemma KindBack(k: Kind)
    ensures KindOf(OpCode(k)) == Some(k)
  {}

  /** What a decoded packet is put together from. */
  lemma Assembled(k: Kind, b: Bytes, vs: seq<Value>, more: seq<Value>, at: nat)
    requires ReadAll(b, 10, Strict(k)) == Some(vs) && ReadLenient(b, StrictEnd(k), Lenient(k)) == (more, at) && at <= |b|
    ensures var tail := ReadTail(k, b, at, StatedCount(k, vs));
            DecodeKind(k, b) == if tail.Ok? then Ok(Packet(k, WithoutCount(k, vs), more, tail.value)) else Err(tail.error)
  {
    hide ReadAll, ReadLenient, Strict, Lenient, ReadTail, StatedCount, WithoutCount, TotalSize;
  }

  /** Decoding an encoded packet gives the packet in canonical form. */
  lemma RoundTrip(p: Packet)
    requires PacketOk(p)
    ensures Decode(Encode(p)) == Ok(CanonicalPacket(p))
  {
    match p {
      case Unknown(op, payload) => HeaderRead(op, payload);
      case Packet(k, fields, more, tail) => KindRoundTrip(k, fields, more, tail);
    }
  }

  lemma KindRoundTrip(k: Kind, fields: seq<Value>, more: seq<Value>, tail: Bytes)
    requires PacketOk(Packet(k, fields, more, tail))
    ensures Decode(Encode(Packet(k, fields, more, tail))) == Ok(CanonicalPacket(Packet(k, fields, more, tail)))
  {
    hide *;
    PacketParts(k, fields, more, tail);
    var b, vs, end := Encode(Packet(k, fields, more, tail)), Stated(k, fields, tail), StrictEnd(k) + TotalSize(Lenient(k));
    EncodedLies(k, fields, more, tail);
    PartsRead(k, fields, more, tail, b);
    CountRead(k, fields, tail);
    CanonicalIs(k, fields, more, tail);
    PlainFit(Packet(k, fields, more, tail));
    Assembled(k, b, AllCanonical(Strict(k), vs), AllCanonical(Lenient(k), more), end);
    assert Decode(b) == Ok(CanonicalPacket(Packet(k, fields, more, tail)));
  }

  lemma PacketParts(k: Kind, fields: seq<Value>, more: seq<Value>, tail: Bytes)
    requires PacketOk(Packet(k, fields, more, tail))
    ensures AllFit(Strict(k), Stated(k, fields, tail)) && AllFit(Lenient(k), more) && TailOk(k, fields, tail)
  {}

  lemma LiesHow(k: Kind, fields: seq<Value>, more: seq<Value>, tail: Bytes, b: Bytes)
    requires LaidOut(k, fields, more, tail, b)
    ensures StrictEnd(k) + TotalSize(Lenient(k)) <= |b| && b[..10] == Header(OpCode(k))
    ensures b[10..StrictEnd(k)] == AllWritten(Strict(k), Stated(k, fields, tail))
    ensures b[StrictEnd(k)..StrictEnd(k) + TotalSize(Lenient(k))] == AllWritten(Lenient(k), more)
    ensures b == b[..StrictEnd(k) + TotalSize(Lenient(k))] + Sent(k, tail)
  {
    hide AllFit, Strict, Lenient, AllWritten, Header, TotalSize, Sent, Stated, OpCode;
  }

  /** What is read of an encoded packet, part by part. */
  lemma PartsRead(k: Kind, fields: seq<Value>, more: seq<Value>, tail: Bytes, b: Bytes)
    requires LaidOut(k, fields, more, tail, b) && AllFit(Strict(k), Stated(k, fields, tail)) && AllFit(Lenient(k), more) && TailOk(k, fields, tail)
    ensures var end := StrictEnd(k) + TotalSize(Lenient(k));
            end <= |b| && Decode(b) == DecodeKind(k, b) &&
            ReadAll(b, 10, Strict(k)) == Some(AllCanonical(Strict(k), Stated(k, fields, tail))) &&
            ReadLenient(b, StrictEnd(k), Lenient(k)) == (AllCanonical(Lenient(k), more), end) &&
            ReadTail(k, b, end, CountOf(k, tail)) == Ok(TailBack(k, tail))
  {
    hide *;
    LiesHow(k, fields, more, tail, b);
    TailRead(k, fields, b[..StrictEnd(k) + TotalSize(Lenient(k))], tail);
    StrictRead(k, Stated(k, fields, tail), b);
    LenientOfWhole(b, StrictEnd(k), Lenient(k), more);
  }

  lemma CanonicalIs(k: Kind, fields: seq<Value>, more: seq<Value>, tail: Bytes)
    requires PacketOk(Packet(k, fields, more, tail))
    ensures AllFit(Plain(k), fields) && AllFit(Lenient(k), more)
    ensures CanonicalPacket(Packet(k, fields, more, tail)) ==
              Packet(k, AllCanonical(Plain(k), fields), AllCanonical(Lenient(k), more),
                     TailBack(k, tail))
  {
    PlainFit(Packet(k, fields, more, tail));
    hide Plain, AllCanonical, Sent, Strict, Lenient, AllFit;
  }

  // ---------------------------------------------------------------- packets cut short

  /** The kinds with optional fields, which have no tail and no count. */
  predicate HasOptional(k: Kind)
  {
    k == Poll || k == PollReply
  }

  function LenientEnd(k: Kind): nat { StrictEnd(k) + TotalSize(Lenient(k)) }

  lemma OptionalFields(k: Kind)
    requires HasOptional(k)
    ensures NoGap(Strict(k)) && NoGap(Lenient(k))
    ensures forall fields, tail :: Stated(k, fields, tail) == fields && Sent(k, tail) == []
    ensures forall fields, more :: PacketOk(Packet(k, fields, more, [])) <==> AllFit(Strict(k), fields) && AllFit(Lenient(k), more)
  {
    hide AllFit, Strict, Lenient;
    NoGaps(k);
    forall fields, more ensures PacketOk(Packet(k, fields, more, [])) <==> AllFit(Strict(k), fields) && AllFit(Lenient(k), more) {
      assert Stated(k, fields, []) == fields;
    }
  }

  lemma NoGaps(k: Kind)
    requires HasOptional(k)
    ensures NoGap(Strict(k)) && NoGap(Lenient(k))
  {}

  /** The packet cut at n bytes decodes as its zero-filled completion: its strict fields, the optional ones
      that lie before n, and zero for the others. */
  ghost predicate Completes(k: Kind, fields: seq<Value>, more: seq<Value>, n: nat)
    requires PacketOk(Packet(k, fields, more, [])) && AllFit(Strict(k), fields) && AllFit(Lenient(k), more)
  {
    StrictEnd(k) <= n <= |Encode(Packet(k, fields, more, []))| &&
    Decode(Encode(Packet(k, fields, more, []))[..n]) ==
      Ok(Packet(k, AllCanonical(Strict(k), fields), Completed(Lenient(k), more, WholeFields(Lenient(k), n - StrictEnd(k))), []))
  }

  /** A packet without a tail, cut at n with its strict fields whole: its optional ones are read up to n. */
  lemma CutDecodes(k: Kind, fields: seq<Value>, b: Bytes)
    requires HasOptional(k) && StrictEnd(k) <= |b| && AllFit(Strict(k), fields)
    requires b[..10] == Header(OpCode(k)) && b[10..StrictEnd(k)] == AllWritten(Strict(k), fields)
    ensures Decode(b) == Ok(Packet(k, AllCanonical(Strict(k), fields), ReadLenient(b, StrictEnd(k), Lenient(k)).0, []))
  {
    hide Strict, Lenient, OpCode, AllCanonical, StatedCount, ReadAll, ReadLenient, AllWritten, AllFit, Decode, DecodeKind, Header, TotalSize, StrictEnd;
    StrictRead(k, fields, b);
    LenientWithin(b, StrictEnd(k), Lenient(k));
    Assembled(k, b, AllCanonical(Strict(k), fields), ReadLenient(b, StrictEnd(k), Lenient(k)).0, ReadLenient(b, StrictEnd(k), Lenient(k)).1);
  }

  /** Cutting the encoded packet cuts its optional fields. */
  lemma CutLies(k: Kind, fields: seq<Value>, more: seq<Value>, n: nat)
    requires HasOptional(k) && PacketOk(Packet(k, fields, more, [])) && StrictEnd(k) <= n <= LenientEnd(k)
    ensures AllFit(Strict(k), fields) && AllFit(Lenient(k), more) && n <= |Encode(Packet(k, fields, more, []))|
    ensures var b, m := Encode(Packet(k, fields, more, []))[..n], WholeFields(Lenient(k), n - StrictEnd(k));
            CutAt(b, StrictEnd(k), Lenient(k), more, m, n - StrictEnd(k) - TotalSize(Lenient(k)[..m])) &&
            Decode(b) == Ok(Packet(k, AllCanonical(Strict(k), fields), ReadLenient(b, StrictEnd(k), Lenient(k)).0, []))
  {
    hide Strict, Lenient, OpCode, Sent, Stated, PacketOk, AllFit, AllWritten, TotalSize, Header, Encode, LaidOut, Decode;
    OptionalFields(k);
    EncodedLies(k, fields, more, []);
    LiesHow(k, fields, more, [], Encode(Packet(k, fields, more, [])));
    var whole := Encode(Packet(k, fields, more, []));
    var b := whole[..n];
    assert b[..10] == whole[..10] && b[10..StrictEnd(k)] == whole[10..StrictEnd(k)];
    assert b[StrictEnd(k)..] == whole[StrictEnd(k)..LenientEnd(k)][..n - StrictEnd(k)];
    CutDecodes(k, fields, b);
    var m := WholeFields(Lenient(k), n - StrictEnd(k));
    assert m == |Lenient(k)| ==> Lenient(k)[..m] == Lenient(k);
    assert CutAt(b, StrictEnd(k), Lenient(k), more, m, n - StrictEnd(k) - TotalSize(Lenient(k)[..m]));
  }

  /** Where the optional fields may be cut so that nothing is misread: what is left of a field is smaller
      than every later field. */
  ghost predicate CleanCut(k: Kind, n: nat)
    requires StrictEnd(k) <= n
  {
    var m := WholeFields(Lenient(k), n - StrictEnd(k));
    forall i :: m < i < |Lenient(k)| ==> Size(Lenient(k)[i]) > n - StrictEnd(k) - TotalSize(Lenient(k)[..m])
  }

  lemma CutCleanly(k: Kind, fields: seq<Value>, more: seq<Value>, n: nat)
    requires HasOptional(k) && PacketOk(Packet(k, fields, more, [])) && StrictEnd(k) <= n <= LenientEnd(k) && CleanCut(k, n)
    ensures AllFit(Strict(k), fields) && AllFit(Lenient(k), more) && Completes(k, fields, more, n)
  {
    hide Strict, Lenient, PacketOk, AllFit, AllWritten, TotalSize, Header, Encode, Decode, StrictEnd, AllCanonical, CutAt, Completed, Size;
    CutLies(k, fields, more, n);
    var b, m := Encode(Packet(k, fields, more, []))[..n], WholeFields(Lenient(k), n - StrictEnd(k));
    CutCompletes(b, StrictEnd(k), Lenient(k), more, m, n - StrictEnd(k) - TotalSize(Lenient(k)[..m]));
  }

  lemma CutBadly(k: Kind, n: nat)
    requires HasOptional(k) && StrictEnd(k) <= n <= LenientEnd(k) && !CleanCut(k, n)
    ensures PacketOk(Packet(k, Ones(Strict(k)), Ones(Lenient(k)), [])) && AllFit(Strict(k), Ones(Strict(k))) && AllFit(Lenient(k), Ones(Lenient(k)))
    ensures !Completes(k, Ones(Strict(k)), Ones(Lenient(k)), n)
  {
    hide Strict, Lenient, PacketOk, AllFit, AllWritten, TotalSize, Header, Encode, Decode, StrictEnd, AllCanonical, CutAt, Completed, Size, NoGap, Ones;
    OptionalFields(k);
    OnesWritten(Strict(k));
    OnesWritten(Lenient(k));
    CutLies(k, Ones(Strict(k)), Ones(Lenient(k)), n);
    var b, m := Encode(Packet(k, Ones(Strict(k)), Ones(Lenient(k)), []))[..n], WholeFields(Lenient(k), n - StrictEnd(k));
    var left := n - StrictEnd(k) - TotalSize(Lenient(k)[..m]);
    var i :| m < i < |Lenient(k)| && Size(Lenient(k)[i]) <= left;
    var j := FirstSmall(Lenient(k), m, left, i);
    CutTaken(b, StrictEnd(k), Lenient(k), m, left, j);
  }

  /** Every content of a packet of the kind, cut at n, decodes as its zero-filled completion. */
  ghost predicate AlwaysCompletes(k: Kind, n: nat)
  {
    forall fields, more :: PacketOk(Packet(k, fields, more, [])) && AllFit(Strict(k), fields) && AllFit(Lenient(k), more) ==>
      Completes(k, fields, more, n)
  }

  lemma CutExactlyAt(k: Kind, n: nat)
    requires HasOptional(k) && StrictEnd(k) <= n <= LenientEnd(k)
    ensures AlwaysCompletes(k, n) <==> CleanCut(k, n)
  {
    hide Completes, PacketOk, AllFit, CleanCut, HasOptional, Strict, Lenient, StrictEnd;
    if CleanCut(k, n) {
      forall fields, more | PacketOk(Packet(k, fields, more, [])) && AllFit(Strict(k), fields) && AllFit(Lenient(k), more)
        ensures Completes(k, fields, more, n)
      {
        CutCleanly(k, fields, more, n);
      }
    } else {
      CutBadly(k, n);
    }
  }

  /** An ArtPoll loses nothing but what is cut off: its optional fields are of one width. */
  lemma PollCut(n: nat)
    requires StrictEnd(Poll) <= n <= LenientEnd(Poll)
    ensures AlwaysCompletes(Poll, n)
  {
    hide AlwaysCompletes, StrictEnd, TotalSize;
    CutExactlyAt(Poll, n);
    var m := WholeFields(Lenient(Poll), n - StrictEnd(Poll));
    assert forall i :: 0 <= i < 4 ==> Size(Lenient(Poll)[i]) == 2;
  }

  lemma ReplySizes()
    ensures var l := Lenient(PollReply);
            |l| == 10 && Size(l[8]) == 1 && TotalSize(l[..0]) == 0 && TotalSize(l[..1]) == 4 && TotalSize(l[..2]) == 5 && TotalSize(l[..3]) == 6 &&
            TotalSize(l[..4]) == 10 && TotalSize(l[..5]) == 11 && TotalSize(l[..6]) == 17 && TotalSize(l[..7]) == 19 &&
            TotalSize(l[..8]) == 21 && TotalSize(l[..9]) == 22 && TotalSize(l[..10]) == 32 && l[..10] == l
  {
    hide TotalSize;
    var l := Lenient(PollReply);
    assert l[..0] == [] && TotalSize(l[..0]) == 0 by {
      NoFields();
    }
    forall i | 0 <= i < 10 ensures TotalSize(l[..i + 1]) == TotalSize(l[..i]) + Size(l[i]) {
      NextField(l, i);
    }
    assert TotalSize(l[..0 + 1]) == 4;
    assert TotalSize(l[..1 + 1]) == 5;
    assert TotalSize(l[..2 + 1]) == 6;
    assert TotalSize(l[..3 + 1]) == 10;
    assert TotalSize(l[..4 + 1]) == 11;
    assert TotalSize(l[..5 + 1]) == 17;
    assert TotalSize(l[..6 + 1]) == 19;
    assert TotalSize(l[..7 + 1]) == 21;
    assert TotalSize(l[..8 + 1]) == 22;
    assert TotalSize(l[..9 + 1]) == 32;
  }

  lemma NoFields()
    ensures TotalSize([]) == 0
  {}

  /** An ArtPollReply cut at n, counted from its optional fields, decodes as its zero-filled completion
      whatever it says exactly when it is cut at a field's start or inside the last field, which is
      filler. Cut inside any other field, a smaller field behind takes what is left of it. */
  lemma ReplyCut(n: nat)
    requires StrictEnd(PollReply) <= n <= LenientEnd(PollReply)
    ensures AlwaysCompletes(PollReply, n) <==> n - StrictEnd(PollReply) in {0, 4, 5, 6, 10, 11, 17, 19, 21} || n - StrictEnd(PollReply) >= 22
  {
    hide AlwaysCompletes, StrictEnd, TotalSize, CleanCut;
    CutExactlyAt(PollReply, n);
    ReplySizes();
    ReplyClean(n);
  }

  lemma ReplyClean(n: nat)
    requires StrictEnd(PollReply) <= n
    ensures CleanCut(PollReply, n) <==> n - StrictEnd(PollReply) in {0, 4, 5, 6, 10, 11, 17, 19, 21} || n - StrictEnd(PollReply) >= 22
  {
    hide StrictEnd;
    ReplySizes();
    var l := Lenient(PollReply);
    var m := WholeFields(l, n - StrictEnd(PollReply));
    var left := n - StrictEnd(PollReply) - TotalSize(l[..m]);
    NoGaps(PollReply);
    assert CleanCut(PollReply, n) <==> left == 0 || m >= 9;
  }

  /** A reply cut two bytes into its bind IP: those two are taken for the bind index and the second status,
      so the packet is its zero-filled completion only where both are zero. */
  lemma BindIpTaken(fields: seq<Value>, more: seq<Value>) returns (got: seq<Value>)
    requires PacketOk(Packet(PollReply, fields, more, []))
    ensures AllFit(Strict(PollReply), fields) && AllFit(Lenient(PollReply), more) && StrictEnd(PollReply) + 2 <= LenientEnd(PollReply)
    ensures |Encode(Packet(PollReply, fields, more, []))| >= StrictEnd(PollReply) + 2
    ensures Decode(Encode(Packet(PollReply, fields, more, []))[..StrictEnd(PollReply) + 2]) ==
              Ok(Packet(PollReply, AllCanonical(Strict(PollReply), fields), got, []))
    ensures |got| == 10 && got[0] == Data(Zeros(4)) && got[1] == Num(Padded(more[0].bytes, 4)[0]) && got[2] == Num(Padded(more[0].bytes, 4)[1])
    ensures Completes(PollReply, fields, more, StrictEnd(PollReply) + 2) <==>
              Padded(more[0].bytes, 4)[0] == 0 && Padded(more[0].bytes, 4)[1] == 0
  {
    var l, n := Lenient(PollReply), StrictEnd(PollReply) + 2;
    hide StrictEnd, Strict, Encode, Decode, TotalSize, AllCanonical, ZeroValue, AllWritten, PacketOk;
    ReplySizes();
    CutLies(PollReply, fields, more, n);
    var b := Encode(Packet(PollReply, fields, more, []))[..n];
    got := ReadLenient(b, StrictEnd(PollReply), l).0;
    FirstWritten(l, more);
    NoGaps(PollReply);
    TwoBytesTaken(b, StrictEnd(PollReply), l);
    assert WholeFields(l, 2) == 0;
    ZeroesAre();
    var at := StrictEnd(PollReply);
    assert b[at] == b[at..][0] && b[at + 1] == b[at..][1];
    TakenCompletes(l, more, got, b[at], b[at + 1]);
  }

  lemma TakenCompletes(fs: seq<Field>, vs: seq<Value>, got: seq<Value>, x: byte, y: byte)
    requires AllFit(fs, vs) && |fs| == |got| >= 3 && fs[0] == Raw(4) && fs[1] == U8 && fs[2] == U8
    requires got[0] == ZeroValue(fs[0]) && got[1] == Num(x) && got[2] == Num(y) && forall i :: 3 <= i < |fs| ==> got[i] == ZeroValue(fs[i])
    ensures got == Completed(fs, vs, 0) <==> x == 0 && y == 0
  {
    ZeroesAre();
    var whole := Completed(fs, vs, 0);
    assert whole[1] == ZeroValue(fs[1]) && whole[2] == ZeroValue(fs[2]);
    if x == 0 && y == 0 {
      assert forall i :: 0 <= i < |fs| ==> got[i] == whole[i];
    }
  }

  lemma ZeroesAre()
    ensures ZeroValue(Raw(4)) == Data(Zeros(4)) && ZeroValue(U8) == Num(0)
  {}
}
