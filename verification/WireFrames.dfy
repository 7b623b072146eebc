/** The faders' levels on the wire: a channel's level becomes a whole number of its width, split over
    its bytes coarse first, each byte at the fixture's slot for it. Virtual dimmers go to the engine as
    a level of their own. */
module WireFrames {
  import opened Prelude
  import opened ChannelMap
  import opened Faders

  datatype Address = Address(universe: uint16, start: uint16, footprint: uint16)

  /** A slot of a universe, counted from 0. */
  datatype WireSlot = WireSlot(universe: uint16, index: int)

  /** One channel a fader gives a level. */
  datatype Assigned = Assigned(entry: string, p: Parameter, level: real)

  /** The slots the faders own, with their values. */
  type Wire = map<WireSlot, byte>

  predicate Addressable(a: Address, off: uint16)
  {
    off >= 1 && off <= a.footprint && a.start >= 1 && a.start + off - 1 <= 512
  }

  function SlotOf(a: Address, off: uint16): WireSlot
  {
    WireSlot(a.universe, a.start + off - 2)
  }

  /** Channel off of a fixture is DMX slot start + off - 1, the byte before that number in its universe's frame,
      where it is a channel of the fixture and a slot of the 512. */
  lemma SlotPlaced(a: Address, off: uint16)
    ensures var channel := (a.start - 1) + off;
            SlotOf(a, off).universe == a.universe && SlotOf(a, off).index + 1 == channel &&
            (Addressable(a, off) <==> a.start != 0 && off != 0 && off <= a.footprint && channel <= 512) &&
            (Addressable(a, off) ==> 0 <= SlotOf(a, off).index < 512)
  {}

  // ---------------------------------------------------------------- bytes of a value

  function Shifted(v: nat, bytes: nat): nat
  {
    if bytes == 0 then v else Shifted(v / 0x100, bytes - 1)
  }

  /** The n bytes of v, coarse first. */
  function BytesOf(v: nat, n: nat): (b: seq<byte>)
    ensures |b| == n
  {
    if n == 0 then [] else BytesOf(v / 0x100, n - 1) + [v % 0x100]
  }

  function ValueOf(b: seq<byte>): nat
  {
    if b == [] then 0 else ValueOf(b[..|b| - 1]) * 0x100 + b[|b| - 1]
  }

  lemma {:induction false} ByteAt(v: nat, n: nat, i: nat)
    requires i < n
    ensures BytesOf(v, n)[i] == Shifted(v, n - 1 - i) % 0x100
  {
    if i < n - 1 {
      ByteAt(v / 0x100, n - 1, i);
    }
  }

  method SplitBytes(v: nat, n: nat) returns (b: array<byte>)
    ensures fresh(b) && b[..] == BytesOf(v, n)
  {
    b := new byte[n](_ => 0);
    for i := 0 to n
      invariant b[..i] == BytesOf(v, n)[..i]
    {
      ByteAt(v, n, i);
      b[i] := Shifted(v, n - 1 - i) % 0x100;
    }
  }

  function Span(n: nat): nat
  {
    if n == 0 then 1 else 0x100 * Span(n - 1)
  }

  lemma {:induction false} BytesBack(v: nat, n: nat)
    requires v < Span(n)
    ensures ValueOf(BytesOf(v, n)) == v
  {
    if n > 0 {
      BytesBack(v / 0x100, n - 1);
    }
  }

  lemma {:induction false} MaxFits(n: nat)
    ensures MaxForBytes(n) < Span(n)
  {
    if n > 4 {
      MaxFits(n - 1);
    } else {
      assert Span(1) == 0x100 && Span(2) == 0x1_0000 && Span(3) == 0x100_0000 && Span(4) == 0x1_0000_0000;
    }
  }

  // ---------------------------------------------------------------- the frames

  function Scaled(level: real, max: nat): real
  {
    level * max as real
  }

  function WireValue(a: Assigned): int
  {
    Round(Scaled(a.level, a.p.max))
  }

  /** What a fader sets: a level between dark and full, on a channel whose bytes are listed. */
  ghost predicate AssignedOk(a: Assigned)
  {
    0.0 <= a.level <= 1.0 && (!a.p.virtual ==> |a.p.offsets| == a.p.byteCount && a.p.max == MaxForBytes(a.p.byteCount))
  }

  ghost predicate Placed(chans: seq<Assigned>, patch: map<string, Address>)
  {
    forall j :: 0 <= j < |chans| ==> AssignedOk(chans[j]) && chans[j].entry in patch
  }

  /** Byte i of channel j goes to slot s. */
  ghost predicate Writes(chans: seq<Assigned>, patch: map<string, Address>, j: int, i: int, s: WireSlot)
  {
    0 <= j < |chans| && !chans[j].p.virtual && 0 <= i < |chans[j].p.offsets| && chans[j].entry in patch &&
    Addressable(patch[chans[j].entry], chans[j].p.offsets[i]) && SlotOf(patch[chans[j].entry], chans[j].p.offsets[i]) == s
  }

  /** No two bytes go to one slot. */
  ghost predicate SlotsApart(chans: seq<Assigned>, patch: map<string, Address>)
  {
    forall j, i, j', i', s :: Writes(chans, patch, j, i, s) && Writes(chans, patch, j', i', s) ==> j == j' && i == i'
  }

  predicate Before(j: int, i: int, j': int, i': int)
  {
    j < j' || (j == j' && i < i')
  }

  /** Byte i of channel j is the last before byte i' of channel j' that goes to slot s. */
  ghost predicate LastOn(chans: seq<Assigned>, patch: map<string, Address>, j: int, i: int, j': int, i': int, s: WireSlot)
  {
    Writes(chans, patch, j, i, s) && Before(j, i, j', i') &&
    forall k, l :: Writes(chans, patch, k, l, s) && Before(k, l, j', i') ==> !Before(j, i, k, l)
  }

  /** wire holds the bytes written before byte i of channel j and nothing else, on every slot the last one written. */
  ghost predicate Carries(wire: Wire, chans: seq<Assigned>, patch: map<string, Address>, j: int, i: int)
  {
    (forall s :: s in wire <==> exists k, l :: Writes(chans, patch, k, l, s) && Before(k, l, j, i)) &&
    forall k, l, s :: LastOn(chans, patch, k, l, j, i, s) ==> s in wire && IsByte(wire[s], chans[k], l)
  }

  ghost predicate IsByte(b: byte, a: Assigned, i: int)
  {
    WireValue(a) >= 0 && 0 <= i < a.p.byteCount && b == BytesOf(WireValue(a), a.p.byteCount)[i]
  }

  lemma ValueInRange(a: Assigned)
    requires AssignedOk(a)
    ensures 0 <= WireValue(a) <= a.p.max
  {
    ScaledWithin(a.level, a.p.max);
  }

  lemma ScaledWithin(level: real, max: nat)
    requires 0.0 <= level <= 1.0
    ensures 0.0 <= Scaled(level, max) <= max as real
  {
    var m := max as real;
    assert m >= 0.0;
    assert level * m + (1.0 - level) * m == m;
  }

  lemma NowLast(chans: seq<Assigned>, patch: map<string, Address>, k: int, l: int, j: int, i: int, s: WireSlot)
    requires LastOn(chans, patch, k, l, j, i + 1, s) && Writes(chans, patch, j, i, s)
    ensures k == j && l == i
  {
    assert Before(j, i, j, i + 1);
    hide Writes;
  }

  lemma NextByte(wire: Wire, chans: seq<Assigned>, patch: map<string, Address>, j: nat, i: nat, next: Wire)
    requires Placed(chans, patch) && Carries(wire, chans, patch, j, i)
    requires j < |chans| && !chans[j].p.virtual && i < |chans[j].p.offsets|
    requires var a, off := patch[chans[j].entry], chans[j].p.offsets[i];
             WireValue(chans[j]) >= 0 &&
             next == if Addressable(a, off) then wire[SlotOf(a, off) := BytesOf(WireValue(chans[j]), chans[j].p.byteCount)[i]] else wire
    ensures Carries(next, chans, patch, j, i + 1)
  {
    var a, off := patch[chans[j].entry], chans[j].p.offsets[i];
    var slot := SlotOf(a, off);
    assert forall s :: Writes(chans, patch, j, i, s) <==> Addressable(a, off) && s == slot;
    assert IsByte(BytesOf(WireValue(chans[j]), chans[j].p.byteCount)[i], chans[j], i);
    hide Addressable, SlotOf, BytesOf, WireValue, AssignedOk, Writes, IsByte, LastOn, Placed;
    forall k, l, s | LastOn(chans, patch, k, l, j, i + 1, s) ensures s in next && IsByte(next[s], chans[k], l) {
      if !Addressable(a, off) || s != slot {
      } else {
        NowLast(chans, patch, k, l, j, i, s);
      }
    }
    forall s ensures s in next <==> exists k, l :: Writes(chans, patch, k, l, s) && Before(k, l, j, i + 1) {
      if s in wire {
        var k, l :| Writes(chans, patch, k, l, s) && Before(k, l, j, i);
        assert Before(k, l, j, i + 1);
      }
      if s in next && s !in wire {
        assert Writes(chans, patch, j, i, s) && Before(j, i, j, i + 1);
      }
      if k, l :| Writes(chans, patch, k, l, s) && Before(k, l, j, i + 1) {
        assert Before(k, l, j, i) || (k == j && l == i);
      }
    }
  }

  function KeyOf(a: Assigned): Channel
  {
    Channel(a.entry, a.p.offset)
  }

  /** levels are those of the virtual dimmers among chans, out of 255. */
  ghost predicate VirtualLevels(levels: map<Channel, byte>, chans: seq<Assigned>)
  {
    (forall k :: k in levels ==> exists j :: 0 <= j < |chans| && chans[j].p.virtual && KeyOf(chans[j]) == k) &&
    forall j :: 0 <= j < |chans| && chans[j].p.virtual ==>
      KeyOf(chans[j]) in levels && -0.5 <= chans[j].level * 255.0 - levels[KeyOf(chans[j])] as real <= 0.5
  }

  /** Writes the channels' levels, one after the other. */
  method WriteFrames(chans: seq<Assigned>, patch: map<string, Address>) returns (wire: Wire, levels: map<Channel, byte>)
    requires Placed(chans, patch)
    requires forall j, j' :: 0 <= j < j' < |chans| ==> KeyOf(chans[j]) != KeyOf(chans[j'])
    ensures Carries(wire, chans, patch, |chans|, 0) && VirtualLevels(levels, chans)
  {
    hide *;
    NothingYet(chans, patch);
    wire, levels := map[], map[];
    for j := 0 to |chans|
      invariant Carries(wire, chans, patch, j, 0) && VirtualLevels(levels, chans[..j])
    {
      var a := chans[j];
      ghost var was := levels;
      AssignedAt(chans, patch, j);
      if a.p.virtual {
        LevelByte(a);
        NextLevel(levels, chans, j);
        levels := levels[KeyOf(a) := Round(a.level * 255.0)];
        ChannelDone(wire, chans, patch, j, 0);
      } else {
        wire := WriteChannel(wire, chans, patch, j, a);
        ChannelDone(wire, chans, patch, j, |a.p.offsets|);
        NoLevel(was, chans, j);
      }
    }
    assert chans[..|chans|] == chans;
  }

  lemma NothingYet(chans: seq<Assigned>, patch: map<string, Address>)
    ensures Carries(map[], chans, patch, 0, 0) && VirtualLevels(map[], chans[..0])
  {}

  lemma AssignedAt(chans: seq<Assigned>, patch: map<string, Address>, j: nat)
    requires Placed(chans, patch) && j < |chans|
    ensures AssignedOk(chans[j]) && chans[j].entry in patch
  {}

  lemma ChannelDone(wire: Wire, chans: seq<Assigned>, patch: map<string, Address>, j: nat, n: nat)
    requires j < |chans| && n == (if chans[j].p.virtual then 0 else |chans[j].p.offsets|) && Carries(wire, chans, patch, j, n)
    ensures Carries(wire, chans, patch, j + 1, 0)
  {
    forall k, l, s | Writes(chans, patch, k, l, s) ensures Before(k, l, j, n) <==> Before(k, l, j + 1, 0) {}
    hide Writes, Before, IsByte;
    forall k, l, s ensures LastOn(chans, patch, k, l, j + 1, 0, s) <==> LastOn(chans, patch, k, l, j, n, s) {}
  }

  lemma NoLevel(levels: map<Channel, byte>, chans: seq<Assigned>, j: nat)
    requires j < |chans| && !chans[j].p.virtual && VirtualLevels(levels, chans[..j])
    ensures VirtualLevels(levels, chans[..j + 1])
  {
    hide KeyOf;
    var was, now := chans[..j], chans[..j + 1];
    forall k | k in levels ensures exists i :: 0 <= i < |now| && now[i].p.virtual && KeyOf(now[i]) == k {
      var i :| 0 <= i < |was| && was[i].p.virtual && KeyOf(was[i]) == k;
      assert now[i] == was[i];
    }
    assert forall i :: 0 <= i < |now| && now[i].p.virtual ==> i < j && now[i] == was[i];
  }

  lemma NextLevel(levels: map<Channel, byte>, chans: seq<Assigned>, j: nat)
    requires j < |chans| && VirtualLevels(levels, chans[..j]) && AssignedOk(chans[j]) && chans[j].p.virtual
    requires forall j, j' :: 0 <= j < j' < |chans| ==> KeyOf(chans[j]) != KeyOf(chans[j'])
    ensures 0 <= Round(chans[j].level * 255.0) <= 255
    ensures VirtualLevels(levels[KeyOf(chans[j]) := Round(chans[j].level * 255.0)], chans[..j + 1])
  {
    LevelByte(chans[j]);
    hide AssignedOk, KeyOf;
    var was, now := chans[..j], chans[..j + 1];
    var next := levels[KeyOf(chans[j]) := Round(chans[j].level * 255.0)];
    assert now[j] == chans[j] && forall i :: 0 <= i < j ==> was[i] == now[i] == chans[i];
    forall k | k in next ensures exists i :: 0 <= i < |now| && now[i].p.virtual && KeyOf(now[i]) == k {
      if k in levels {
        var i :| 0 <= i < |was| && was[i].p.virtual && KeyOf(was[i]) == k;
        assert KeyOf(now[i]) == k;
      }
    }
  }

  lemma LevelByte(a: Assigned)
    requires AssignedOk(a)
    ensures 0 <= Round(a.level * 255.0) <= 255
  {}

  method WriteChannel(wire: Wire, ghost chans: seq<Assigned>, patch: map<string, Address>, ghost j: nat, a: Assigned) returns (next: Wire)
    requires Placed(chans, patch) && Carries(wire, chans, patch, j, 0)
    requires j < |chans| && !chans[j].p.virtual && a == chans[j]
    ensures Carries(next, chans, patch, j, |chans[j].p.offsets|)
  {
    hide Carries, WireValue, Round, MaxForBytes;
    ValueInRange(a);
    var b := SplitBytes(WireValue(a), a.p.byteCount);
    next := wire;
    for i := 0 to a.p.byteCount
      invariant Carries(next, chans, patch, j, i) && b[..] == BytesOf(WireValue(a), a.p.byteCount)
    {
      var off, was := a.p.offsets[i], next;
      if Addressable(patch[a.entry], off) {
        next := next[SlotOf(patch[a.entry], off) := b[i]];
      }
      assert b[i] == b[..][i];
      NextByte(was, chans, patch, j, i, next);
    }
  }

  // ---------------------------------------------------------------- what is on the wire

  /** No byte written after channel j's goes to a slot of it. */
  ghost predicate Outlasts(chans: seq<Assigned>, patch: map<string, Address>, j: int)
  {
    forall i, k, l, s :: Writes(chans, patch, j, i, s) && Writes(chans, patch, k, l, s) ==> !Before(j, i, k, l)
  }

  /** read is what the wire holds at the slots of the channel, all of them addressable. */
  ghost predicate ReadBack(wire: Wire, a: Address, p: Parameter, read: seq<byte>)
  {
    |read| == |p.offsets| &&
    forall i :: 0 <= i < |read| ==> Addressable(a, p.offsets[i]) && SlotOf(a, p.offsets[i]) in wire && read[i] == wire[SlotOf(a, p.offsets[i])]
  }

  /** Read back from its slots, a channel that is addressable throughout has the level its faders show,
      to the nearest step of its width. */
  lemma WireShowsLevel(wire: Wire, chans: seq<Assigned>, patch: map<string, Address>, j: nat, read: seq<byte>)
    requires Placed(chans, patch) && Carries(wire, chans, patch, |chans|, 0) && j < |chans| && !chans[j].p.virtual
    requires Outlasts(chans, patch, j) && ReadBack(wire, patch[chans[j].entry], chans[j].p, read)
    ensures -0.5 <= Scaled(chans[j].level, chans[j].p.max) - ValueOf(read) as real <= 0.5
  {
    var a := chans[j];
    AssignedBytes(a);
    BytesRead(wire, chans, patch, j, read);
    hide *;
  }

  lemma AssignedBytes(a: Assigned)
    requires AssignedOk(a) && !a.p.virtual
    ensures WireValue(a) >= 0 && ValueOf(BytesOf(WireValue(a), a.p.byteCount)) == WireValue(a)
    ensures -0.5 <= Scaled(a.level, a.p.max) - WireValue(a) as real <= 0.5
  {
    ValueInRange(a);
    MaxFits(a.p.byteCount);
    BytesBack(WireValue(a), a.p.byteCount);
  }

  lemma BytesRead(wire: Wire, chans: seq<Assigned>, patch: map<string, Address>, j: nat, read: seq<byte>)
    requires Placed(chans, patch) && Carries(wire, chans, patch, |chans|, 0) && j < |chans| && !chans[j].p.virtual
    requires Outlasts(chans, patch, j) && ReadBack(wire, patch[chans[j].entry], chans[j].p, read) && WireValue(chans[j]) >= 0
    ensures read == BytesOf(WireValue(chans[j]), chans[j].p.byteCount)
  {
    hide BytesOf, WireValue, Addressable, SlotOf, Carries, Outlasts;
    forall i | 0 <= i < |read| ensures read[i] == BytesOf(WireValue(chans[j]), chans[j].p.byteCount)[i] {
      ByteCarried(wire, chans, patch, j, i);
    }
  }

  lemma ByteCarried(wire: Wire, chans: seq<Assigned>, patch: map<string, Address>, j: nat, i: nat)
    requires Placed(chans, patch) && Carries(wire, chans, patch, |chans|, 0) && j < |chans| && !chans[j].p.virtual
    requires Outlasts(chans, patch, j) && i < chans[j].p.byteCount == |chans[j].p.offsets| && Addressable(patch[chans[j].entry], chans[j].p.offsets[i])
    ensures SlotOf(patch[chans[j].entry], chans[j].p.offsets[i]) in wire
    ensures IsByte(wire[SlotOf(patch[chans[j].entry], chans[j].p.offsets[i])], chans[j], i)
  {
    var s := SlotOf(patch[chans[j].entry], chans[j].p.offsets[i]);
    assert Writes(chans, patch, j, i, s) && j < |chans|;
    hide Addressable, SlotOf, IsByte, Writes;
    assert LastOn(chans, patch, j, i, |chans|, 0, s);
  }

  /** Where no two bytes share a slot, the order in which the channels are written makes no difference. */
  lemma OneWire(wire: Wire, wire': Wire, chans: seq<Assigned>, chans': seq<Assigned>, patch: map<string, Address>)
    requires SlotsApart(chans, patch) && SlotsApart(chans', patch)
    requires Carries(wire, chans, patch, |chans|, 0) && Carries(wire', chans', patch, |chans'|, 0)
    requires forall a :: a in chans <==> a in chans'
    ensures wire == wire'
  {
    forall s ensures s in wire <==> s in wire' {
      SameSlots(wire, wire', chans, chans', patch, s);
      SameSlots(wire', wire, chans', chans, patch, s);
    }
    forall s | s in wire ensures wire[s] == wire'[s] {
      SameSlots(wire, wire', chans, chans', patch, s);
    }
  }

  lemma SameSlots(wire: Wire, wire': Wire, chans: seq<Assigned>, chans': seq<Assigned>, patch: map<string, Address>, s: WireSlot)
    requires SlotsApart(chans, patch) && SlotsApart(chans', patch)
    requires Carries(wire, chans, patch, |chans|, 0) && Carries(wire', chans', patch, |chans'|, 0)
    requires forall a :: a in chans <==> a in chans'
    ensures s in wire ==> s in wire' && wire'[s] == wire[s]
  {
    if s in wire {
      var j, i :| Writes(chans, patch, j, i, s);
      assert chans[j] in chans';
      var j' :| 0 <= j' < |chans'| && chans'[j'] == chans[j];
      assert Writes(chans', patch, j', i, s);
      hide Writes, LastOn;
      assert IsByte(wire[s], chans[j], i) && IsByte(wire'[s], chans'[j'], i);
    }
  }
}
