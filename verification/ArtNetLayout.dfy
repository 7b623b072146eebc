/** Where the bytes of an encoded packet stand: where each field of a packet begins, and the bytes of the
    packets that carry levels and that answer a poll. */
module ArtNetLayout {
  import opened Prelude
  import opened ByteFields
  import opened ArtNetCodec

  /** Where the fields of each kind begin, counted from the start of the packet, and where its optional fields
      or its tail do. */
  function Begins(k: Kind): seq<nat>
  {
    match k
    case Poll => [10, 12, 13, 14]
    case PollReply => [10, 14, 16, 17, 18, 19, 20, 22, 23, 24, 26, 44, 108,
                       172, 174, 178, 182, 186, 190, 194, 195, 196, 197, 200, 201, 207]
    case Dmx => [10, 12, 13, 14, 15, 16, 18]
    case TodRequest => [10, 12, 13, 14, 21, 22, 23, 24]
    case TodData => [10, 12, 13, 14, 21, 22, 23, 24, 26, 27, 28]
    case TodControl => [10, 12, 13, 14, 21, 22, 23, 24]
    case Rdm => [10, 12, 13, 14, 21, 22, 23, 24]
    case RdmSub => [10, 12, 13, 14, 20, 21, 22, 24, 26, 28, 32]
    case TimeCode => [10, 12, 13, 14, 15, 16, 17, 18, 19]
    case Address => [10, 12, 13, 14, 32, 96, 100, 104, 105, 106, 107]
    case Input => [10, 12, 13, 14, 16, 20]
    case IpProg => [10, 12, 13, 14, 15, 16, 20, 24, 26, 30, 34]
    case IpProgReply => [10, 12, 16, 20, 24, 26, 27, 28, 32, 34]
  }

  lemma {:induction false} SumsAre(fs: seq<Field>, at: nat, begins: seq<nat>)
    requires |begins| == |fs| + 1 && begins[0] == at && forall i :: 0 <= i < |fs| ==> begins[i + 1] == begins[i] + Size(fs[i])
    ensures at + TotalSize(fs) == begins[|fs|]
    ensures forall i :: 0 <= i <= |fs| ==> at + TotalSize(fs[..i]) == begins[i]
  {
    if fs != [] {
      var n := |fs| - 1;
      SumsAre(fs[..n], at, begins[..|fs|]);
      assert fs[..|fs|] == fs;
      assert forall i :: 0 <= i <= n ==> fs[..n][..i] == fs[..i];
    } else {
      assert fs[..0] == [];
    }
  }

  /** Each field stands where the table says; the last number is the shortest packet of the kind accepted. */
  lemma FieldsBegin(k: Kind)
    ensures |Begins(k)| == |Strict(k)| + 1 && StrictEnd(k) == Begins(k)[|Strict(k)|]
    ensures forall i :: 0 <= i <= |Strict(k)| ==> 10 + TotalSize(Strict(k)[..i]) == Begins(k)[i]
  {
    hide TotalSize, Strict, Begins;
    WidthsAre(k);
    SumsAre(Strict(k), 10, Begins(k));
  }

  /** The table's steps are the widths of the fields. */
  lemma WidthsAre(k: Kind)
    ensures |Begins(k)| == |Strict(k)| + 1 && Begins(k)[0] == 10
    ensures forall i :: 0 <= i < |Strict(k)| ==> Begins(k)[i + 1] == Begins(k)[i] + Size(Strict(k)[i])
  {
    match k
    case PollReply => ReplyWidths();
    case Address => ConfigWidths(k);
    case Input => ConfigWidths(k);
    case IpProg => ConfigWidths(k);
    case IpProgReply => ConfigWidths(k);
    case _ => OtherWidths(k);
  }

  lemma ConfigWidths(k: Kind)
    requires k in {Address, Input, IpProg, IpProgReply}
    ensures var fs, at := Strict(k), Begins(k);
            |at| == |fs| + 1 && at[0] == 10 && forall i :: 0 <= i < |fs| ==> at[i + 1] == at[i] + Size(fs[i])
  {}

  lemma OtherWidths(k: Kind)
    requires k !in {PollReply, Address, Input, IpProg, IpProgReply}
    ensures var fs, at := Strict(k), Begins(k);
            |at| == |fs| + 1 && at[0] == 10 && forall i :: 0 <= i < |fs| ==> at[i + 1] == at[i] + Size(fs[i])
  {}

  lemma ReplyWidths()
    ensures var fs, at := Strict(PollReply), Begins(PollReply);
            |at| == |fs| + 1 && at[0] == 10 && forall i :: 0 <= i < |fs| ==> at[i + 1] == at[i] + Size(fs[i])
  {
    var fs, at := Strict(PollReply), Begins(PollReply);
    forall i | 0 <= i < 25 ensures at[i + 1] == at[i] + Size(fs[i]) {}
  }

  /** Field i of a written run stands behind the ones before it. */
  lemma WrittenAt(fs: seq<Field>, vs: seq<Value>, i: nat)
    requires AllFit(fs, vs) && i < |fs|
    ensures TotalSize(fs[..i]) + Size(fs[i]) <= TotalSize(fs)
    ensures AllWritten(fs, vs)[TotalSize(fs[..i])..TotalSize(fs[..i]) + Size(fs[i])] == Written(fs[i], vs[i])
  {
    NextField(fs, i);
    TakeFields(fs, vs, i + 1);
    var front, all := AllWritten(fs[..i + 1], vs[..i + 1]), AllWritten(fs, vs);
    assert fs[..i + 1][..i] == fs[..i] && vs[..i + 1][..i] == vs[..i] && vs[..i + 1][i] == vs[i];
    assert front == AllWritten(fs[..i], vs[..i]) + Written(fs[i], vs[i]);
    assert all[..|front|] == front;
    assert all[TotalSize(fs[..i])..TotalSize(fs[..i]) + Size(fs[i])] == front[TotalSize(fs[..i])..];
  }

  /** The bytes from the i-th beginning to the next are what field i is written as. */
  lemma FieldBytes(k: Kind, fields: seq<Value>, more: seq<Value>, tail: Bytes, i: nat)
    requires PacketOk(Packet(k, fields, more, tail)) && i < |Strict(k)|
    ensures AllFit(Strict(k), Stated(k, fields, tail)) && |Begins(k)| == |Strict(k)| + 1
    ensures Begins(k)[i + 1] == Begins(k)[i] + Size(Strict(k)[i]) <= StrictEnd(k) <= |Encode(Packet(k, fields, more, tail))|
    ensures Encode(Packet(k, fields, more, tail))[Begins(k)[i]..Begins(k)[i + 1]] == Written(Strict(k)[i], Stated(k, fields, tail)[i])
  {
    var b, vs := Encode(Packet(k, fields, more, tail)), Stated(k, fields, tail);
    hide *;
    PacketParts(k, fields, more, tail);
    EncodedLies(k, fields, more, tail);
    LiesHow(k, fields, more, tail, b);
    FieldsBegin(k);
    WrittenAt(Strict(k), vs, i);
    NextField(Strict(k), i);
    Inner(b, StrictEnd(k), AllWritten(Strict(k), vs), Begins(k)[i], Begins(k)[i + 1]);
  }

  lemma Inner(b: Bytes, end: nat, run: Bytes, from: nat, to: nat)
    requires 10 <= from <= to <= end <= |b| && b[10..end] == run
    ensures b[from..to] == run[from - 10..to - 10]
  {
    forall i | from <= i < to ensures b[i] == run[i - 10] {
      assert b[10..end][i - 10] == b[i];
    }
  }

  /** Every packet begins with "Art-Net", a zero and the op code, low byte first. */
  lemma HeaderBytes(k: Kind, fields: seq<Value>, more: seq<Value>, tail: Bytes)
    requires PacketOk(Packet(k, fields, more, tail))
    ensures var b := Encode(Packet(k, fields, more, tail));
            |b| >= 10 && b[..8] == [0x41, 0x72, 0x74, 0x2D, 0x4E, 0x65, 0x74, 0x00] && b[8] as int + b[9] as int * 0x100 == OpCode(k)
  {
    var b := Encode(Packet(k, fields, more, tail));
    hide *;
    EncodedLies(k, fields, more, tail);
    LiesHow(k, fields, more, tail, b);
    HeaderRead(OpCode(k), []);
    HeaderIs(OpCode(k));
    HeadOf(b, Header(OpCode(k)));
  }

  lemma HeadOf(b: Bytes, h: Bytes)
    requires |h| == 10 <= |b| && b[..10] == h
    ensures b[..8] == h[..8] && b[8] == h[8] && b[9] == h[9]
  {
    assert b[..10][..8] == b[..8];
  }

  lemma HeaderIs(op: uint16)
    ensures var h := Header(op);
            h[..8] == [0x41, 0x72, 0x74, 0x2D, 0x4E, 0x65, 0x74, 0x00] && h[8] as int + h[9] as int * 0x100 == op && h + [] == h
  {}

  /** The number in the two bytes of b from at on, high byte first, and low byte first. */
  function NumberBE(b: Bytes, at: nat): int
    requires at + 2 <= |b|
  {
    b[at] as int * 0x100 + b[at + 1] as int
  }

  function NumberLE(b: Bytes, at: nat): int
    requires at + 2 <= |b|
  {
    b[at] as int + b[at + 1] as int * 0x100
  }

  lemma NumbersAt(b: Bytes, at: nat, v: Value)
    requires at + 2 <= |b| && v.Num? && v.n < 0x1_0000
    ensures b[at..at + 2] == Written(U16BE, v) ==> NumberBE(b, at) == v.n
    ensures b[at..at + 2] == Written(U16LE, v) ==> NumberLE(b, at) == v.n
  {
    assert b[at..at + 2][0] == b[at] && b[at..at + 2][1] == b[at + 1];
  }

  lemma ByteAt(b: Bytes, at: nat, v: Value)
    requires at + 1 <= |b| && v.Num? && v.n < 0x100 && b[at..at + 1] == Written(U8, v)
    ensures b[at] as int == v.n
  {
    assert b[at..at + 1][0] == b[at];
  }

  /** An ArtDmx byte by byte: op code 0x5000, version, sequence, physical, sub-universe and net, the length of the
      data made even, high byte first, and from byte 18 on the data. */
  lemma DmxBytes(version: uint16, sequence: byte, physical: byte, sub: byte, net: byte, data: Bytes)
    requires PacketOk(Packet(Dmx, [Num(version), Num(sequence), Num(physical), Num(sub), Num(net)], [], data)) && |data| <= 0xFFFE
    ensures var b := Encode(Packet(Dmx, [Num(version), Num(sequence), Num(physical), Num(sub), Num(net)], [], data));
            |b| == 18 + |data| + |data| % 2 && b[8] == 0x00 && b[9] == 0x50 && NumberBE(b, 10) == version &&
            b[12] == sequence && b[13] == physical && b[14] == sub && b[15] == net && NumberBE(b, 16) == |data| + |data| % 2 &&
            b[18..18 + |data|] == data
  {
    var fields := [Num(version), Num(sequence), Num(physical), Num(sub), Num(net)];
    var b := Encode(Packet(Dmx, fields, [], data));
    DmxStated(fields, data);
    DmxTail(fields, data);
    hide Encode, Stated, Written, PacketOk, TotalSize, AllWritten, StrictEnd;
    HeaderBytes(Dmx, fields, [], data);
    FieldBytes(Dmx, fields, [], data, 0);
    FieldBytes(Dmx, fields, [], data, 1);
    FieldBytes(Dmx, fields, [], data, 2);
    FieldBytes(Dmx, fields, [], data, 3);
    FieldBytes(Dmx, fields, [], data, 4);
    FieldBytes(Dmx, fields, [], data, 5);
    NumbersAt(b, 10, Num(version));
    ByteAt(b, 12, Num(sequence));
    ByteAt(b, 13, Num(physical));
    ByteAt(b, 14, Num(sub));
    ByteAt(b, 15, Num(net));
    NumbersAt(b, 16, Num(|data| + |data| % 2));
  }

  lemma DmxStated(fields: seq<Value>, data: Bytes)
    requires |fields| == 5 && |data| <= 0xFFFE
    ensures Stated(Dmx, fields, data) == fields + [Num(|data| + |data| % 2)]
  {
    assert fields[..5] == fields && fields[5..] == [];
  }

  lemma DmxTail(fields: seq<Value>, data: Bytes)
    requires PacketOk(Packet(Dmx, fields, [], data))
    ensures var b := Encode(Packet(Dmx, fields, [], data));
            |b| == 18 + |data| + |data| % 2 && b[18..18 + |data|] == data
  {
    DmxSent(fields, data);
    hide *;
    var b := Encode(Packet(Dmx, fields, [], data));
    assert b[18..18 + |data|] == b[18..][..|data|];
  }

  lemma DmxSent(fields: seq<Value>, data: Bytes)
    requires PacketOk(Packet(Dmx, fields, [], data))
    ensures var b := Encode(Packet(Dmx, fields, [], data));
            |b| >= 18 && b[18..] == if |data| % 2 == 0 then data else data + [0]
  {
    FieldsBegin(Dmx);
    EncodedLies(Dmx, fields, [], data);
    hide Encode, AllWritten;
    var b := Encode(Packet(Dmx, fields, [], data));
    assert b == b[..18] + Sent(Dmx, data);
    assert b[18..] == Sent(Dmx, data);
  }

  // ---------------------------------------------------------------- packets that count what they carry

  /** Where each such packet states its count, whether in two bytes, where its items stand, how long one is, and
      how many are sent at most. */
  datatype Carrying = Carrying(field: nat, at: nat, wide: bool, from: nat, unit: nat, most: nat)

  function CarryingOf(k: Kind): Option<Carrying>
  {
    match k
    case TodRequest => Some(Carrying(6, 23, false, 24, 1, 255))
    case TodData => Some(Carrying(9, 27, false, 28, 6, 255))
    case RdmSub => Some(Carrying(8, 26, true, 32, 2, 0xFFFF))
    case _ => None
  }

  /** What of n items is sent, and no more. */
  function AtMost(n: nat, most: nat): nat { if n <= most then n else most }

  /** A request for a table of devices counts its addresses in byte 23, the table its UIDs of six bytes in byte
      27, a sub-device packet its values of two bytes in bytes 26 and 27, high byte first; the items follow behind
      the last field, as many as the count can state. */
  lemma CountBytes(k: Kind, fields: seq<Value>, tail: Bytes)
    requires PacketOk(Packet(k, fields, [], tail)) && CarryingOf(k).Some?
    ensures var b, c := Encode(Packet(k, fields, [], tail)), CarryingOf(k).value;
            var n := AtMost(|tail| / c.unit, c.most);
            n * c.unit <= |tail| && |b| == c.from + n * c.unit && b[c.from..] == tail[..n * c.unit] &&
            (if c.wide then NumberBE(b, c.at) == n else b[c.at] as int == n)
  {
    var b, c := Encode(Packet(k, fields, [], tail)), CarryingOf(k).value;
    var n := AtMost(|tail| / c.unit, c.most);
    CountStated(k, fields, tail);
    CountTail(k, fields, tail);
    hide Encode, Stated, Written, PacketOk, TotalSize, AllWritten, StrictEnd;
    FieldBytes(k, fields, [], tail, c.field);
    if c.wide {
      NumbersAt(b, c.at, Num(n));
    } else {
      ByteAt(b, c.at, Num(n));
    }
  }

  lemma CountStated(k: Kind, fields: seq<Value>, tail: Bytes)
    requires PacketOk(Packet(k, fields, [], tail)) && CarryingOf(k).Some?
    ensures var c := CarryingOf(k).value;
            |Strict(k)| == |Stated(k, fields, tail)| && c.field < |Strict(k)| && Stated(k, fields, tail)[c.field] == Num(AtMost(|tail| / c.unit, c.most)) &&
            Strict(k)[c.field] == (if c.wide then U16BE else U8) && |tail| % c.unit == 0
  {}

  lemma CountTail(k: Kind, fields: seq<Value>, tail: Bytes)
    requires PacketOk(Packet(k, fields, [], tail)) && CarryingOf(k).Some? && |tail| % CarryingOf(k).value.unit == 0
    ensures var b, c := Encode(Packet(k, fields, [], tail)), CarryingOf(k).value;
            var n := AtMost(|tail| / c.unit, c.most);
            n * c.unit <= |tail| && |b| == c.from + n * c.unit && b[c.from..] == tail[..n * c.unit]
  {
    var b, c := Encode(Packet(k, fields, [], tail)), CarryingOf(k).value;
    FieldsBegin(k);
    EncodedLies(k, fields, [], tail);
    CountSent(k, tail);
    hide Encode, AllWritten, Sent, Strict;
    assert b == b[..c.from] + Sent(k, tail);
    assert b[c.from..] == Sent(k, tail);
  }

  lemma CountSent(k: Kind, tail: Bytes)
    requires CarryingOf(k).Some? && |tail| % CarryingOf(k).value.unit == 0
    ensures var c := CarryingOf(k).value;
            var n := AtMost(|tail| / c.unit, c.most);
            n * c.unit <= |tail| && Sent(k, tail) == tail[..n * c.unit]
  {
    assert tail[..|tail|] == tail;
  }

  // ---------------------------------------------------------------- replies

  /** What an ArtPollReply says of itself: IP at byte 10, its port low byte first, the OEM code high byte first,
      the ESTA code low byte first, the names from 26 and 44, the MAC from 201. */
  lemma ReplyBytes(fields: seq<Value>, more: seq<Value>, ip: Bytes, port: uint16, oem: uint16, esta: uint16, name: Bytes, long: Bytes, mac: Bytes)
    requires PacketOk(Packet(PollReply, fields, more, [])) && |fields| == 25 && fields[0] == Data(ip) && fields[1] == Num(port)
    requires fields[6] == Num(oem) && fields[9] == Num(esta) && fields[10] == Data(name) && fields[11] == Data(long) && fields[24] == Data(mac)
    ensures var b := Encode(Packet(PollReply, fields, more, []));
            |b| >= 207 && b[10..14] == Padded(ip, 4) && NumberLE(b, 14) == port && NumberBE(b, 20) == oem && NumberLE(b, 24) == esta &&
            b[26..44] == Padded(name, 18) && b[44..108] == Padded(long, 64) && b[201..207] == Padded(mac, 6)
  {
    var b := Encode(Packet(PollReply, fields, more, []));
    hide *;
    ReplyField(fields, more, 0, 10, Raw(4), Data(ip));
    ReplyField(fields, more, 1, 14, U16LE, Num(port));
    ReplyField(fields, more, 6, 20, U16BE, Num(oem));
    ReplyField(fields, more, 9, 24, U16LE, Num(esta));
    ReplyField(fields, more, 10, 26, Text(18), Data(name));
    ReplyField(fields, more, 11, 44, Text(64), Data(long));
    ReplyField(fields, more, 24, 201, Raw(6), Data(mac));
    NumbersAt(b, 14, Num(port));
    NumbersAt(b, 20, Num(oem));
    NumbersAt(b, 24, Num(esta));
  }

  /** Field i of a reply stands as f at byte at. */
  lemma ReplyField(fields: seq<Value>, more: seq<Value>, i: nat, at: nat, f: Field, v: Value)
    requires PacketOk(Packet(PollReply, fields, more, [])) && i < |fields| == 25 && fields[i] == v && Fits(f, v)
    requires (i, at, f) in REPLY_FIELDS
    ensures |Encode(Packet(PollReply, fields, more, []))| >= 207 && at + Size(f) <= 207
    ensures var n := Size(f);
            Encode(Packet(PollReply, fields, more, []))[at..at + n] == Written(f, v)
    ensures f == U16LE || f == U16BE ==> Size(f) == 2
    ensures forall n :: f == Raw(n) || f == Text(n) ==> Size(f) == n && v.Data? && Written(f, v) == Padded(v.bytes, n)
  {
    ReplyTable(i, at, f);
    hide Encode, Stated, PacketOk, AllWritten, StrictEnd;
    OptionalFields(PollReply);
    FieldsBegin(PollReply);
    FieldBytes(PollReply, fields, more, [], i);
  }

  const REPLY_FIELDS: set<(nat, nat, Field)> :=
    {(0, 10, Raw(4)), (1, 14, U16LE), (6, 20, U16BE), (9, 24, U16LE), (10, 26, Text(18)), (11, 44, Text(64)), (24, 201, Raw(6))}

  lemma ReplyTable(i: nat, at: nat, f: Field)
    requires (i, at, f) in REPLY_FIELDS
    ensures |Strict(PollReply)| == 25 && Strict(PollReply)[i] == f && |Begins(PollReply)| == 26 && Begins(PollReply)[i] == at
    ensures Begins(PollReply)[25] == 207
  {}
}
